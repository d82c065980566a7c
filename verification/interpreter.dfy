/** The later revision of the interpreter (Source/FAT16Interpreter.py):
    a recursive walk of the root directory and every folder, with the chain
    memo `linked_list` threaded through explicitly. */
module Interpreter {
  import opened Outcomes
  import opened Bytes
  import opened HexText
  import opened Boot
  import opened Fat
  import opened Trace

  /** A `linked_list` key. The start of a one-cluster chain is stored under the
      int itself; every link of a longer chain is stored under hex(cluster). */
  datatype Key = Num(n: int) | Str(s: string)

  /** `linked_list`: values are always hex strings. */
  type Memo = map<Key, string>

  type St = State<Key, string>
  type Outcome = Run<Key, string>

  /** A memo entry that agrees with the FAT: an int key c maps to '0xffff'
      and c's FAT entry is 0xFFFF; a hex key maps to hex of that cluster's
      FAT entry, which is one the chain builder follows. */
  predicate SoundEntry(v: Volume, k: Key, val: string) {
    match k
    case Num(c) => c >= 0 && val == "0xffff" && NextCluster(v, c) == Success(EndOfChainMark)
    case Str(s) =>
      var c := Unhex(s);
      && s == Hex(c)
      && NextCluster(v, c).Success?
      && NextCluster(v, c).value <= LastFollowed
      && val == Hex(NextCluster(v, c).value)
  }

  /** Every entry of the memo is a true statement about the FAT. */
  predicate MemoSound(v: Volume, memo: Memo) {
    forall k :: k in memo ==> SoundEntry(v, k, memo[k])
  }

  /** The `while` loop of `create_linked_list`, from the state where
      `curr_node_index` is cur and `next_node_index` is cur's FAT entry. */
  function LinkLoop(v: Volume, memo: Memo, cur: nat, next: nat, fuel: nat): (r: (Memo, Status))
    requires NextCluster(v, cur) == Success(next)
    ensures MemoSound(v, memo) ==> MemoSound(v, r.0)
    ensures memo.Keys <= r.0.Keys
    ensures forall c :: Num(c) in r.0 <==> Num(c) in memo
    ensures r.1.Raised? ==> r.1.error == ShortRead || r.1.error == OutOfFuel
    decreases fuel
  {
    if !LexLe(Hex(next), "0xfff8") then (memo, Completed)
    else if fuel == 0 then (memo, Raised(OutOfFuel))
    else
      HexLexOrder(next);
      HexRoundTrip(cur);
      var memo' := memo[Str(Hex(cur)) := Hex(next)];
      var after := NextCluster(v, next);
      if after.Failure? then (memo', Raised(after.error))
      else LinkLoop(v, memo', next, after.value, fuel - 1)
  }

  /** `create_linked_list`: a start whose FAT entry is 0xFFFF is stored under
      its int; otherwise the links are stored under hex strings. */
  function CreateLinkedList(v: Volume, memo: Memo, start: nat, fuel: nat): (r: (Memo, Status))
    ensures MemoSound(v, memo) ==> MemoSound(v, r.0)
    ensures memo.Keys <= r.0.Keys
    ensures r.1.Raised? ==> r.1.error == ShortRead || r.1.error == OutOfFuel
  {
    var next := NextCluster(v, start);
    if next.Failure? then (memo, Raised(next.error))
    else if Hex(next.value) == "0xffff" then
      HexSentinel(next.value);
      (memo[Num(start) := Hex(next.value)], Completed)
    else LinkLoop(v, memo, start, next.value, fuel)
  }

  /** Offset of cluster c in the data region: clusters are sector-sized and
      numbered from 2. */
  function ClusterBase(g: Geometry, c: nat): int {
    g.clustersStart + g.sectorSize * (c - 2)
  }

  /** The bytes of folder cluster c after the 64 that hold "." and "..". */
  function FolderEntries(v: Volume, c: nat): seq<byte> {
    var lo := ClusterBase(v.geo, c) + 2 * DirEntrySize;
    Slice(v.disk, lo, lo + v.geo.sectorSize - 64)
  }

  /** The bytes of file cluster c. */
  function FileCluster(v: Volume, c: nat): seq<byte> {
    var lo := ClusterBase(v.geo, c);
    Slice(v.disk, lo, lo + v.geo.sectorSize)
  }

  /** The root directory region. */
  function RootEntries(v: Volume): seq<byte> {
    Slice(v.disk, v.geo.rootStart, v.geo.clustersStart)
  }

  /** `self.linked_list[curr_node_index]` after a cluster was read, and the
      loop test `curr_node_index != '0xffff'` on the value found. */
  function NextNode(st: St, v: Volume, c: nat): (r: Outcome)
    ensures r.state == st
    ensures r.status == Completed <==> Num(c) in st.memo && st.memo[Num(c)] == "0xffff"
    ensures r.status == Raised(MissingKey) <==> Num(c) !in st.memo
    ensures MemoSound(v, st.memo) ==> r.status != Raised(TypeMismatch)
  {
    if Num(c) !in st.memo then Run(st, Raised(MissingKey))
    else if st.memo[Num(c)] == "0xffff" then Run(st, Completed)
    else Run(st, Raised(TypeMismatch))
  }

  /** `read_file_allocation_table`: reject a bad start cluster, build the chain
      unless the start is already an int key of the memo, then read. */
  function ReadFat(st: St, v: Volume, start: nat, isFolder: bool, fuel: nat): (r: Outcome)
    ensures st.trace <= r.state.trace
    ensures st.memo.Keys <= r.state.memo.Keys
    ensures MemoSound(v, st.memo) ==> MemoSound(v, r.state.memo) && r.status != Raised(TypeMismatch)
    decreases fuel, 0, 0
  {
    var next := NextCluster(v, start);
    if next.Failure? then Run(st, Raised(next.error))
    else if Hex(next.value) == "0xfff7" then Run(st, Raised(BadCluster))
    else
      var built := if Num(start) !in st.memo then CreateLinkedList(v, st.memo, start, fuel) else (st.memo, Completed);
      var st1 := st.(memo := built.0);
      if built.1.Raised? then Run(st1, built.1)
      else if fuel == 0 then Run(st1, Raised(OutOfFuel))
      else ReadCluster(st1, v, start, isFolder, fuel - 1)
  }

  /** `read_cluster`: the loop body runs once for the start cluster, then the
      memo lookup either ends the loop, raises KeyError, or (for a value other
      than '0xffff') would raise TypeError on the next address computation. */
  function ReadCluster(st: St, v: Volume, c: nat, isFolder: bool, fuel: nat): (r: Outcome)
    ensures st.trace <= r.state.trace
    ensures st.memo.Keys <= r.state.memo.Keys
    ensures MemoSound(v, st.memo) ==> MemoSound(v, r.state.memo) && r.status != Raised(TypeMismatch)
    decreases fuel, 3, 0
  {
    var body :=
      if isFolder then
        var entries := FolderEntries(v, c);
        ScanEntries(st, v, entries, 0, |entries| / DirEntrySize, fuel)
      else PrintExcerpt(st, FileCluster(v, c));
    if body.status.Raised? then body
    else NextNode(body.state, v, c)
  }

  /** The `for` loops of `read_root_dir` and of the folder branch of
      `read_cluster`: dispatch entries i .. count-1 on their byte 11. */
  function ScanEntries(st: St, v: Volume, entries: seq<byte>, i: nat, count: nat, fuel: nat): (r: Outcome)
    requires i <= count
    ensures st.trace <= r.state.trace
    ensures st.memo.Keys <= r.state.memo.Keys
    ensures MemoSound(v, st.memo) ==> MemoSound(v, r.state.memo) && r.status != Raised(TypeMismatch)
    decreases fuel, 2, count - i
  {
    if i == count then Run(st, Completed)
    else
      var off := 32 * i;  // entries are DirEntrySize bytes apart
      if 11 + off >= |entries| then Run(st, Raised(IndexOutOfRange))
      else
        var r := MatchFileType(st, v, entries[11 + off], entries, off, fuel);
        if r.status.Raised? then r
        else ScanEntries(r.state, v, entries, i + 1, count, fuel)
  }

  /** `match_file_type`: the 11 name bytes are decoded first, for every entry;
      then 0x00 is skipped, 0x08 is the volume label, 0x10 a folder and 0x20 a
      file; any other attribute byte is ignored. The source matches on
      hex(attribute) strings, which are distinct for distinct bytes. */
  function MatchFileType(st: St, v: Volume, fileType: byte, entries: seq<byte>, off: nat, fuel: nat): (r: Outcome)
    ensures st.trace <= r.state.trace
    ensures st.memo.Keys <= r.state.memo.Keys
    ensures MemoSound(v, st.memo) ==> MemoSound(v, r.state.memo) && r.status != Raised(TypeMismatch)
    decreases fuel, 1, 0
  {
    var name := Decode(Slice(entries, off, off + 11));
    if name.Failure? then Run(st, Raised(name.error))
    else if fileType == 0x00 then Run(st, Completed)
    else if fileType == 0x08 then Run(Emit(st.(diskName := name.value), Label(name.value)), Completed)
    else if fileType == 0x10 then
      var st1 := Emit(st, Folder(RStrip(name.value)));
      var cluster := U16(Slice(entries, off + 26, off + 28));
      if cluster.Failure? then Run(st1, Raised(cluster.error))
      else ReadFat(st1, v, cluster.value, true, fuel)
    else if fileType == 0x20 then
      var cluster := U16(Slice(entries, off + 26, off + 28));
      if cluster.Failure? then Run(st, Raised(cluster.error))
      else
        var fileName := Decode(Slice(entries, off, off + 8));
        var ext := Decode(Slice(entries, off + 8, off + 11));
        if fileName.Failure? then Run(st, Raised(fileName.error))
        else if ext.Failure? then Run(st, Raised(ext.error))
        else ReadFat(Emit(st, File(RStrip(fileName.value), ext.value)), v, cluster.value, false, fuel)
    else Run(st, Completed)
  }

  /** `read_root_dir`: the root region holds `dir_entries` entries. */
  function ReadRootDir(st: St, v: Volume, fuel: nat): (r: Outcome)
    ensures st.trace <= r.state.trace
    ensures st.memo.Keys <= r.state.memo.Keys
    ensures MemoSound(v, st.memo) ==> MemoSound(v, r.state.memo) && r.status != Raised(TypeMismatch)
  {
    ScanEntries(st, v, RootEntries(v), 0, v.geo.dirEntries, fuel)
  }

  /** `read_disk_image` after the file has been read: parse the geometry,
      then walk the root directory. */
  function Interpret(disk: seq<byte>, fuel: nat): (r: Outcome)
    ensures r.status != Raised(TypeMismatch)
    ensures |disk| < BootFieldsEnd ==> r == Run(Initial(), Raised(ShortRead))
    ensures |disk| >= BootFieldsEnd ==> MemoSound(Volume(Parse(disk).value, disk), r.state.memo)
  {
    match Parse(disk)
    case Failure(e) => Run(Initial(), Raised(e))
    case Success(g) => ReadRootDir(Initial(), Volume(g, disk), fuel)
  }
}
