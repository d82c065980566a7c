/** The earlier draft of the interpreter (Soruce/FAT16Interpreter.py): the
    root directory is scanned for labels and folders, a folder cluster for
    files, and only chains of a single cluster are ever read. The memo
    `linked_list` maps int clusters to int successors. */
module Draft {
  import opened Outcomes
  import opened Bytes
  import opened HexText
  import opened Boot
  import opened Fat
  import opened Trace

  /** `linked_list`: int keys, int values. */
  type Memo = map<nat, nat>

  type St = State<nat, nat>
  type Outcome = Run<nat, nat>

  /** The draft always places cluster c at a 512-byte stride, whatever the
      sector size. */
  const ClusterStride: nat := 512

  /** Every entry of the memo is a FAT link the chain builder follows. */
  predicate MemoSound(v: Volume, memo: Memo) {
    forall c :: c in memo ==> NextCluster(v, c) == Success(memo[c]) && memo[c] <= LastFollowed
  }

  /** The events a walk below the root may print: files (only from a folder)
      and first lines of files. */
  predicate Nested(es: seq<Event>, isFolder: bool) {
    forall k :: 0 <= k < |es| ==> es[k].Excerpt? || (isFolder && es[k].File?)
  }

  /** The `while` loop of `create_linked_list`, from the state where
      `curr_node_index` is cur and `next_node_index` is cur's FAT entry. */
  function LinkLoop(v: Volume, memo: Memo, cur: nat, next: nat, fuel: nat): (r: (Memo, Status))
    requires NextCluster(v, cur) == Success(next)
    ensures MemoSound(v, memo) ==> MemoSound(v, r.0)
    ensures memo.Keys <= r.0.Keys
    ensures r.1.Raised? ==> r.1.error == ShortRead || r.1.error == OutOfFuel
    decreases fuel
  {
    HexLexOrder(next);
    if !LexLe(Hex(next), "0xfff8") then (memo, Completed)
    else if fuel == 0 then (memo, Raised(OutOfFuel))
    else
      var memo' := memo[cur := next];
      assert MemoSound(v, memo) ==> MemoSound(v, memo');
      var after := NextCluster(v, next);
      if after.Failure? then (memo', Raised(after.error))
      else LinkLoop(v, memo', next, after.value, fuel - 1)
  }

  /** `create_linked_list`: reads the start's FAT entry again and runs the loop. */
  function CreateLinkedList(v: Volume, memo: Memo, start: nat, fuel: nat): (r: (Memo, Status))
    ensures MemoSound(v, memo) ==> MemoSound(v, r.0)
    ensures memo.Keys <= r.0.Keys
    ensures r.1.Raised? ==> r.1.error == ShortRead || r.1.error == OutOfFuel
  {
    var next := NextCluster(v, start);
    if next.Failure? then (memo, Raised(next.error))
    else LinkLoop(v, memo, start, next.value, fuel)
  }

  /** Offset of cluster c: the draft uses 512 for every cluster. */
  function ClusterBase(g: Geometry, c: nat): int {
    g.clustersStart + ClusterStride * (c - 2)
  }

  /** The bytes of folder cluster c after the 64 that hold "." and "..". */
  function FolderEntries(v: Volume, c: nat): seq<byte> {
    var lo := ClusterBase(v.geo, c) + 2 * DirEntrySize;
    Slice(v.disk, lo, lo + v.geo.sectorSize - 64)
  }

  /** The bytes of file cluster c. */
  function FileCluster(v: Volume, c: nat): seq<byte> {
    var lo := ClusterBase(v.geo, c);
    Slice(v.disk, lo, lo + ClusterStride)
  }

  /** The root directory region. */
  function RootEntries(v: Volume): seq<byte> {
    Slice(v.disk, v.geo.rootStart, v.geo.clustersStart)
  }

  /** `read_file_allocation_table`: reject a bad start cluster, read a
      one-cluster chain, and only build the memo for anything longer. Nothing
      below a file prints anything but its first line, nothing below a folder
      anything but files and first lines, and `disk_name` never changes. */
  function ReadFat(st: St, v: Volume, start: nat, isFolder: bool, fuel: nat): (r: Outcome)
    ensures st.trace <= r.state.trace && Nested(r.state.trace[|st.trace|..], isFolder)
    ensures r.state.diskName == st.diskName
    ensures st.memo.Keys <= r.state.memo.Keys
    ensures MemoSound(v, st.memo) ==> MemoSound(v, r.state.memo)
    decreases if isFolder then 1 else 0, 2, 0
  {
    var next := NextCluster(v, start);
    if next.Failure? then Run(st, Raised(next.error))
    else if Hex(next.value) == "0xfff7" then Run(st, Raised(BadCluster))
    else if Hex(next.value) == "0xffff" then ReadCluster(st, v, start, isFolder, fuel)
    else
      var built := CreateLinkedList(v, st.memo, start, fuel);
      Run(st.(memo := built.0), built.1)
  }

  /** `read_cluster`: one cluster only, with no memo lookup afterwards. */
  function ReadCluster(st: St, v: Volume, c: nat, isFolder: bool, fuel: nat): (r: Outcome)
    ensures st.trace <= r.state.trace && Nested(r.state.trace[|st.trace|..], isFolder)
    ensures r.state.diskName == st.diskName
    ensures st.memo.Keys <= r.state.memo.Keys
    ensures MemoSound(v, st.memo) ==> MemoSound(v, r.state.memo)
    ensures !isFolder ==> FirstLinePrinted(r, st, FileCluster(v, c))
    decreases if isFolder then 1 else 0, 1, 0
  {
    if isFolder then
      var entries := FolderEntries(v, c);
      ScanFolder(st, v, entries, 0, |entries| / DirEntrySize, fuel)
    else PrintExcerpt(st, FileCluster(v, c))
  }

  /** The `for` loop of the folder branch of `read_cluster`, entries i ..
      count-1. Every entry lies inside the slice, so neither the attribute
      byte nor the cluster field can be out of range. */
  function ScanFolder(st: St, v: Volume, entries: seq<byte>, i: nat, count: nat, fuel: nat): (r: Outcome)
    requires i <= count && 32 * count <= |entries|
    ensures st.trace <= r.state.trace && Nested(r.state.trace[|st.trace|..], true)
    ensures r.state.diskName == st.diskName
    ensures st.memo.Keys <= r.state.memo.Keys
    ensures MemoSound(v, st.memo) ==> MemoSound(v, r.state.memo)
    decreases 1, 0, count - i
  {
    if i == count then Run(st, Completed)
    else
      var r := FolderEntry(st, v, entries, 32 * i, fuel);  // entries are DirEntrySize bytes apart
      if r.status.Raised? then r
      else
        var rest := ScanFolder(r.state, v, entries, i + 1, count, fuel);
        NestedAppend(st.trace, r.state.trace, rest.state.trace, true);
        rest
  }

  /** One entry of a folder cluster: only a file (0x20) is handled, and its
      name and extension are decoded only then; anything else, a sub-folder
      included, is skipped. */
  function FolderEntry(st: St, v: Volume, entries: seq<byte>, off: nat, fuel: nat): (r: Outcome)
    requires off + DirEntrySize <= |entries|
    ensures st.trace <= r.state.trace && Nested(r.state.trace[|st.trace|..], true)
    ensures r.state.diskName == st.diskName
    ensures st.memo.Keys <= r.state.memo.Keys
    ensures MemoSound(v, st.memo) ==> MemoSound(v, r.state.memo)
    decreases 0, 3, 0
  {
    var fileType := entries[11 + off];
    var cluster := Le16(entries, off + 26);
    if fileType != 0x20 then Run(st, Completed)
    else
      var fileName := Decode(entries[off..off + 8]);
      var ext := Decode(entries[off + 8..off + 11]);
      if fileName.Failure? then Run(st, Raised(fileName.error))
      else if ext.Failure? then Run(st, Raised(ext.error))
      else
        var st1 := Emit(st, File(RStrip(fileName.value), ext.value));
        var r := ReadFat(st1, v, cluster, false, fuel);
        NestedAppend(st.trace, st1.trace, r.state.trace, true);
        r
  }

  /** Appending two nested stretches of output gives one. */
  lemma NestedAppend(a: seq<Event>, b: seq<Event>, c: seq<Event>, isFolder: bool)
    requires a <= b <= c
    requires Nested(b[|a|..], isFolder) && Nested(c[|b|..], isFolder)
    ensures Nested(c[|a|..], isFolder)
  {
    forall k | 0 <= k < |c[|a|..]|
      ensures c[|a|..][k].Excerpt? || (isFolder && c[|a|..][k].File?)
    {
      if |a| + k < |b| {
        assert c[|a|..][k] == b[|a|..][k];
      } else {
        assert c[|a|..][k] == c[|b|..][|a| + k - |b|];
      }
    }
  }

  /** The `for` loop of `read_root_dir`, entries i .. count-1. */
  function ScanRoot(st: St, v: Volume, entries: seq<byte>, i: nat, count: nat, fuel: nat): (r: Outcome)
    requires i <= count
    ensures st.trace <= r.state.trace
    ensures st.memo.Keys <= r.state.memo.Keys
    ensures MemoSound(v, st.memo) ==> MemoSound(v, r.state.memo)
    decreases count - i
  {
    if i == count then Run(st, Completed)
    else
      var r := RootEntry(st, v, entries, 32 * i, fuel);
      if r.status.Raised? then r
      else ScanRoot(r.state, v, entries, i + 1, count, fuel)
  }

  /** One root entry: the attribute byte is read first (IndexError past the
      region), the 11-byte name is decoded for every entry, then 0x00 is
      skipped, 0x08 is the label and 0x10 a folder; every other byte, files
      included, is ignored. */
  function RootEntry(st: St, v: Volume, entries: seq<byte>, off: nat, fuel: nat): (r: Outcome)
    ensures st.trace <= r.state.trace
    ensures st.memo.Keys <= r.state.memo.Keys
    ensures MemoSound(v, st.memo) ==> MemoSound(v, r.state.memo)
  {
    if 11 + off >= |entries| then Run(st, Raised(IndexOutOfRange))
    else
      var fileType := entries[11 + off];
      var name := Decode(Slice(entries, off, off + 11));
      if name.Failure? then Run(st, Raised(name.error))
      else if fileType == 0x08 then Run(Emit(st.(diskName := name.value), Label(name.value)), Completed)
      else if fileType == 0x10 then
        var st1 := Emit(st, Folder(RStrip(name.value)));
        var cluster := U16(Slice(entries, off + 26, off + 28));
        if cluster.Failure? then Run(st1, Raised(cluster.error))
        else ReadFat(st1, v, cluster.value, true, fuel)
      else Run(st, Completed)
  }

  /** `read_disk_image` after the file has been read: parse the geometry,
      then scan the `dir_entries` entries of the root directory. */
  function Interpret(disk: seq<byte>, fuel: nat): (r: Outcome)
    ensures |disk| < BootFieldsEnd ==> r == Run(Initial(), Raised(ShortRead))
    ensures |disk| >= BootFieldsEnd ==> MemoSound(Volume(Parse(disk).value, disk), r.state.memo)
  {
    match Parse(disk)
    case Failure(e) => Run(Initial(), Raised(e))
    case Success(g) =>
      var v := Volume(g, disk);
      ScanRoot(Initial(), v, RootEntries(v), 0, g.dirEntries, fuel)
  }
}
