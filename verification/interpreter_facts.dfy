/** Properties of the later interpreter (Source/FAT16Interpreter.py). */
module InterpreterFacts {
  import opened Outcomes
  import opened Bytes
  import opened HexText
  import opened Boot
  import opened Fat
  import opened Trace
  import opened Interpreter

  // ---------------------------------------------------------------------
  // Chain building against the reference chain
  // ---------------------------------------------------------------------

  /** The memo after storing every link of cs under hex keys, in order. */
  function AddLinks(memo: Memo, cs: seq<nat>): Memo
    decreases |cs|
  {
    if |cs| < 2 then memo else AddLinks(memo[Str(Hex(cs[0])) := Hex(cs[1])], cs[1..])
  }

  /** The hex keys of every cluster of cs but the last. */
  function LinkKeys(cs: seq<nat>): set<Key> {
    set i | 0 <= i < |cs| - 1 :: Str(Hex(cs[i]))
  }

  /** The loop of `create_linked_list` ends exactly when the reference chain
      ends, fails with the same error when it fails, and leaves the memo with
      every link of the chain added. */
  lemma {:induction false} LinkLoopFollowsChain(v: Volume, memo: Memo, cur: nat, next: nat, fuel: nat)
    requires NextCluster(v, cur) == Success(next)
    ensures var r := LinkLoop(v, memo, cur, next, fuel);
            var ch := Chain(v, cur, fuel);
            && (r.1 == Completed <==> ch.Success?)
            && (ch.Failure? ==> r.1 == Raised(ch.error))
            && (ch.Success? ==> r.0 == AddLinks(memo, ch.value))
    decreases fuel
  {
    HexLexOrder(next);
    if next <= LastFollowed && fuel > 0 {
      var memo' := memo[Str(Hex(cur)) := Hex(next)];
      var after := NextCluster(v, next);
      if after.Success? {
        LinkLoopFollowsChain(v, memo', next, after.value, fuel - 1);
        var ch := Chain(v, next, fuel - 1);
        if ch.Success? {
          var cs := [cur] + ch.value;
          assert cs[1..] == ch.value;
          assert AddLinks(memo, cs) == AddLinks(memo', ch.value);
        }
      }
    }
  }

  /** `create_linked_list` on a start whose FAT entry is not 0xFFFF adds the
      links of the reference chain and nothing else. */
  lemma CreateLinkedListFollowsChain(v: Volume, memo: Memo, start: nat, fuel: nat)
    requires NextCluster(v, start).Success? && NextCluster(v, start).value != EndOfChainMark
    ensures var r := CreateLinkedList(v, memo, start, fuel);
            var ch := Chain(v, start, fuel);
            && (r.1 == Completed <==> ch.Success?)
            && (ch.Failure? ==> r.1 == Raised(ch.error))
            && (ch.Success? ==> r.0 == AddLinks(memo, ch.value))
  {
    HexSentinel(NextCluster(v, start).value);
    LinkLoopFollowsChain(v, memo, start, NextCluster(v, start).value, fuel);
  }

  lemma LinkKeysCons(cs: seq<nat>)
    requires |cs| >= 2
    ensures LinkKeys(cs) == {Str(Hex(cs[0]))} + LinkKeys(cs[1..])
  {
    var rest := cs[1..];
    forall k | k in LinkKeys(cs) ensures k in {Str(Hex(cs[0]))} + LinkKeys(rest) {
      var i :| 0 <= i < |cs| - 1 && k == Str(Hex(cs[i]));
      if i > 0 { assert k == Str(Hex(rest[i - 1])); }
    }
    forall k | k in LinkKeys(rest) ensures k in LinkKeys(cs) {
      var i :| 0 <= i < |rest| - 1 && k == Str(Hex(rest[i]));
      assert k == Str(Hex(cs[i + 1]));
    }
  }

  /** Storing a chain's links adds exactly the keys of all clusters but the last. */
  lemma {:induction false} AddLinksKeys(memo: Memo, cs: seq<nat>)
    ensures AddLinks(memo, cs).Keys == memo.Keys + LinkKeys(cs)
    decreases |cs|
  {
    if |cs| >= 2 {
      AddLinksKeys(memo[Str(Hex(cs[0])) := Hex(cs[1])], cs[1..]);
      LinkKeysCons(cs);
    } else {
      assert LinkKeys(cs) == {};
    }
  }

  /** Keys outside the chain keep their values. */
  lemma {:induction false} AddLinksOthers(memo: Memo, cs: seq<nat>)
    ensures forall k :: k in memo && k !in LinkKeys(cs) ==> k in AddLinks(memo, cs) && AddLinks(memo, cs)[k] == memo[k]
    decreases |cs|
  {
    if |cs| >= 2 {
      var memo' := memo[Str(Hex(cs[0])) := Hex(cs[1])];
      AddLinksOthers(memo', cs[1..]);
      LinkKeysCons(cs);
    }
  }

  /** Every cluster of a chain but the last ends up mapped to hex of its
      successor, even when the chain revisits it: a later write stores the
      same FAT successor again. */
  lemma {:induction false} AddLinksValues(v: Volume, memo: Memo, start: nat, cs: seq<nat>)
    requires IsChain(v, start, cs)
    ensures forall i :: 0 <= i < |cs| - 1 ==>
      Str(Hex(cs[i])) in AddLinks(memo, cs) && AddLinks(memo, cs)[Str(Hex(cs[i]))] == Hex(cs[i + 1])
    decreases |cs|
  {
    if |cs| >= 2 {
      var rest := cs[1..];
      var memo' := memo[Str(Hex(cs[0])) := Hex(cs[1])];
      ChainTail(v, start, cs);
      AddLinksValues(v, memo', cs[1], rest);
      AddLinksOthers(memo', rest);
      AddLinksKeys(memo', rest);
      forall i | 0 <= i < |cs| - 1
        ensures Str(Hex(cs[i])) in AddLinks(memo, cs) && AddLinks(memo, cs)[Str(Hex(cs[i]))] == Hex(cs[i + 1])
      {
        if i > 0 {
          assert cs[i] == rest[i - 1] && cs[i + 1] == rest[i];
        } else if Str(Hex(cs[0])) in LinkKeys(rest) {
          var j :| 0 <= j < |rest| - 1 && Str(Hex(cs[0])) == Str(Hex(rest[j]));
          HexInjective(cs[0], rest[j]);
          assert NextCluster(v, cs[0]) == Success(cs[1]);
          assert NextCluster(v, cs[j + 1]) == Success(cs[j + 2]);
        }
      }
    }
  }

  /** What storing a chain's links does to the memo: exactly the keys of all
      clusters but the last are added, each mapped to hex of its successor;
      other keys keep their values; the last cluster gets no key. */
  lemma AddLinksSpec(v: Volume, memo: Memo, start: nat, cs: seq<nat>)
    requires IsChain(v, start, cs)
    ensures AddLinks(memo, cs).Keys == memo.Keys + LinkKeys(cs)
    ensures forall i :: 0 <= i < |cs| - 1 ==> AddLinks(memo, cs)[Str(Hex(cs[i]))] == Hex(cs[i + 1])
    ensures forall k :: k in memo && k !in LinkKeys(cs) ==> AddLinks(memo, cs)[k] == memo[k]
    ensures Str(Hex(cs[|cs| - 1])) !in LinkKeys(cs)
  {
    AddLinksKeys(memo, cs);
    AddLinksValues(v, memo, start, cs);
    AddLinksOthers(memo, cs);
    LastKeyIsNew(v, start, cs);
  }

  /** The last cluster's hex key is not among the keys a chain adds. */
  lemma LastKeyIsNew(v: Volume, start: nat, cs: seq<nat>)
    requires IsChain(v, start, cs)
    ensures Str(Hex(cs[|cs| - 1])) !in LinkKeys(cs)
  {
    ChainLastIsNew(v, start, cs);
    if Str(Hex(cs[|cs| - 1])) in LinkKeys(cs) {
      var i :| 0 <= i < |cs| - 1 && Str(Hex(cs[|cs| - 1])) == Str(Hex(cs[i]));
      HexInjective(cs[|cs| - 1], cs[i]);
      assert false;
    }
  }

  // ---------------------------------------------------------------------
  // read_file_allocation_table
  // ---------------------------------------------------------------------

  /** A start cluster whose FAT entry is 0xFFF7 raises BadClusterException
      before the memo is touched, any cluster is read or anything is printed. */
  lemma ReadFatBadCluster(st: St, v: Volume, start: nat, isFolder: bool, fuel: nat)
    requires NextCluster(v, start) == Success(BadClusterMark)
    ensures ReadFat(st, v, start, isFolder, fuel) == Run(st, Raised(BadCluster))
  {
    HexSentinel(BadClusterMark);
  }

  /** A start whose FAT entry is 0xFFFF is stored as start -> '0xffff' (an
      entry already there says the same) and its one cluster is read. */
  lemma ReadFatOneCluster(st: St, v: Volume, start: nat, isFolder: bool, fuel: nat)
    requires MemoSound(v, st.memo)
    requires NextCluster(v, start) == Success(EndOfChainMark)
    requires fuel > 0
    ensures ReadFat(st, v, start, isFolder, fuel)
         == ReadCluster(st.(memo := st.memo[Num(start) := "0xffff"]), v, start, isFolder, fuel - 1)
  {
    HexSentinel(EndOfChainMark);
    if Num(start) in st.memo {
      assert SoundEntry(v, Num(start), st.memo[Num(start)]);
      assert st.memo == st.memo[Num(start) := "0xffff"];
    }
  }

  /** A file cluster whose int key holds '0xffff': the line is printed and
      the loop of `read_cluster` ends. */
  lemma FileClusterStep(st: St, v: Volume, c: nat, fuel: nat)
    requires Num(c) in st.memo && st.memo[Num(c)] == "0xffff"
    ensures ReadCluster(st, v, c, false, fuel) == PrintExcerpt(st, FileCluster(v, c))
  {
  }

  /** A one-cluster file (FAT entry 0xFFFF): the memo gains exactly
      start -> '0xffff' (nothing if already present), and exactly one cluster,
      the sector at clusters_start + sector_size * (start - 2), is read: the
      run prints its first line and stops, or raises. */
  lemma OneClusterFile(st: St, v: Volume, start: nat, fuel: nat)
    requires MemoSound(v, st.memo)
    requires NextCluster(v, start) == Success(EndOfChainMark)
    requires fuel > 0
    requires var base := ClusterBase(v.geo, start); 0 <= base && base + v.geo.sectorSize <= |v.disk|
    ensures var base := ClusterBase(v.geo, start); FileCluster(v, start) == v.disk[base..base + v.geo.sectorSize]
    ensures FirstLinePrinted(ReadFat(st, v, start, false, fuel), st.(memo := st.memo[Num(start) := "0xffff"]), FileCluster(v, start))
  {
    var st1 := st.(memo := st.memo[Num(start) := "0xffff"]);
    var cluster := FileCluster(v, start);
    var r := ReadFat(st, v, start, false, fuel);
    assert r == PrintExcerpt(st1, cluster) by {
      ReadFatOneCluster(st, v, start, false, fuel);
      FileClusterStep(st1, v, start, fuel - 1);
    }
    ExcerptOutcome(st1, cluster);
  }

  /** A second request for a one-cluster file leaves the memo as the first
      left it and prints the same line again. */
  lemma RepeatedOneClusterFile(st: St, v: Volume, start: nat, fuel: nat)
    requires MemoSound(v, st.memo)
    requires NextCluster(v, start) == Success(EndOfChainMark)
    requires fuel > 0
    requires var base := ClusterBase(v.geo, start); 0 <= base && base + v.geo.sectorSize <= |v.disk|
    requires ReadFat(st, v, start, false, fuel).status == Completed
    ensures var r1 := ReadFat(st, v, start, false, fuel);
            var r2 := ReadFat(r1.state, v, start, false, fuel);
            && r2.status == Completed
            && r2.state.memo == r1.state.memo
            && r2.state.trace == r1.state.trace + r1.state.trace[|st.trace|..]
  {
    var r1 := ReadFat(st, v, start, false, fuel);
    OneClusterFile(st, v, start, fuel);
    OneClusterFile(r1.state, v, start, fuel);
  }

  /** A one-cluster folder: the memo gains start -> '0xffff', then exactly one
      cluster is scanned, from 64 bytes past its start, and the walk stops. */
  lemma OneClusterFolder(st: St, v: Volume, start: nat, fuel: nat)
    requires MemoSound(v, st.memo)
    requires NextCluster(v, start) == Success(EndOfChainMark)
    requires fuel > 0
    ensures var st1 := st.(memo := st.memo[Num(start) := "0xffff"]);
            var entries := FolderEntries(v, start);
            var scan := ScanEntries(st1, v, entries, 0, |entries| / DirEntrySize, fuel - 1);
            ReadFat(st, v, start, true, fuel) == if scan.status.Raised? then scan else Run(scan.state, Completed)
  {
    HexSentinel(EndOfChainMark);
    var st1 := st.(memo := st.memo[Num(start) := "0xffff"]);
    if Num(start) in st.memo {
      assert SoundEntry(v, Num(start), st.memo[Num(start)]);
      assert st.memo == st1.memo;
    }
    assert SoundEntry(v, Num(start), "0xffff");
    var entries := FolderEntries(v, start);
    var scan := ScanEntries(st1, v, entries, 0, |entries| / DirEntrySize, fuel - 1);
    if scan.status == Completed {
      assert Num(start) in scan.state.memo;
      assert SoundEntry(v, Num(start), scan.state.memo[Num(start)]);
    }
  }

  /** The later copy stores the links of a longer chain under hex keys but
      looks the start up as an int, so reading any start whose FAT entry is
      not 0xFFFF never completes. Once the chain is built, the first cluster
      is still read (the file's first line printed, or the folder's first
      cluster scanned), and then the lookup raises KeyError. */
  lemma MultiClusterStartFails(st: St, v: Volume, start: nat, isFolder: bool, fuel: nat)
    requires MemoSound(v, st.memo)
    requires NextCluster(v, start).Success? && NextCluster(v, start).value != EndOfChainMark
    ensures ReadFat(st, v, start, isFolder, fuel).status.Raised?
    ensures NextCluster(v, start).value != BadClusterMark && CreateLinkedList(v, st.memo, start, fuel).1 == Completed && fuel > 0 ==>
      var st1 := st.(memo := CreateLinkedList(v, st.memo, start, fuel).0);
      var body :=
        if isFolder then ScanEntries(st1, v, FolderEntries(v, start), 0, |FolderEntries(v, start)| / 32, fuel - 1)
        else PrintExcerpt(st1, FileCluster(v, start));
      ReadFat(st, v, start, isFolder, fuel) == if body.status.Raised? then body else Run(body.state, Raised(MissingKey))
  {
    var next := NextCluster(v, start).value;
    HexSentinel(next);
    if next != BadClusterMark {
      var built := CreateLinkedList(v, st.memo, start, fuel);
      var st1 := st.(memo := built.0);
      assert Num(start) !in st1.memo;
      if built.1 == Completed && fuel > 0 {
        var body :=
          if isFolder then
            var entries := FolderEntries(v, start);
            ScanEntries(st1, v, entries, 0, |entries| / DirEntrySize, fuel - 1)
          else PrintExcerpt(st1, FileCluster(v, start));
        if body.status == Completed {
          assert Num(start) !in body.state.memo;
        }
      }
    }
  }

  // ---------------------------------------------------------------------
  // Directory entries
  // ---------------------------------------------------------------------

  /** Entry j of a region: an attribute byte that neither descends nor
      fails, and a name that decodes. */
  predicate Passive(entries: seq<byte>, j: nat)
    requires 32 * (j + 1) <= |entries|
  {
    var off := 32 * j;
    entries[off + 11] != 0x10 && entries[off + 11] != 0x20 && IsAscii(entries[off..off + 11])
  }

  /** The labels printed for the 0x08 entries among i .. count-1: the full,
      unstripped 11-byte names. */
  function LabelEvents(entries: seq<byte>, i: nat, count: nat): seq<Event>
    requires i <= count && 32 * count <= |entries|
    decreases count - i
  {
    if i == count then []
    else
      var off := 32 * i;
      (if entries[off + 11] == 0x08 then [Label(entries[off..off + 11])] else [])
      + LabelEvents(entries, i + 1, count)
  }

  /** `disk_name` after entries i .. count-1: the last label, if any. */
  function LastLabel(entries: seq<byte>, i: nat, count: nat, name: seq<byte>): seq<byte>
    requires i <= count && 32 * count <= |entries|
    decreases count - i
  {
    if i == count then name
    else
      var off := 32 * i;
      LastLabel(entries, i + 1, count, if entries[off + 11] == 0x08 then entries[off..off + 11] else name)
  }

  /** An entry whose dispatch completes hands its state to the next entry. */
  lemma ScanStep(st: St, v: Volume, entries: seq<byte>, i: nat, count: nat, fuel: nat)
    requires i < count && 11 + 32 * i < |entries|
    requires MatchFileType(st, v, entries[11 + 32 * i], entries, 32 * i, fuel).status == Completed
    ensures ScanEntries(st, v, entries, i, count, fuel)
         == ScanEntries(MatchFileType(st, v, entries[11 + 32 * i], entries, 32 * i, fuel).state,
                        v, entries, i + 1, count, fuel)
  {
  }

  /** The state after one entry that neither descends nor fails: a label
      sets `disk_name` and is printed unstripped; anything else changes nothing. */
  function LabelStep(st: St, entries: seq<byte>, j: nat): St
    requires 32 * (j + 1) <= |entries|
  {
    var off := 32 * j;
    var name := entries[off..off + 11];
    if entries[off + 11] == 0x08 then State(st.memo, name, st.trace + [Label(name)]) else st
  }

  /** The state after entries i .. count-1, one LabelStep each. */
  function PassiveScan(st: St, entries: seq<byte>, i: nat, count: nat): St
    requires i <= count && 32 * count <= |entries|
    decreases count - i
  {
    if i == count then st else PassiveScan(LabelStep(st, entries, i), entries, i + 1, count)
  }

  /** One entry that neither descends nor fails is one LabelStep. */
  lemma PassiveEntry(st: St, v: Volume, entries: seq<byte>, j: nat, fuel: nat)
    requires 32 * (j + 1) <= |entries|
    requires Passive(entries, j)
    ensures var off := 32 * j;
            MatchFileType(st, v, entries[off + 11], entries, off, fuel) == Run(LabelStep(st, entries, j), Completed)
  {
    var off := 32 * j;
    assert Slice(entries, off, off + 11) == entries[off..off + 11];
  }

  /** A region whose entries neither descend nor fail is scanned entry by
      entry without raising. */
  lemma {:induction false} ScanWithoutDescent(st: St, v: Volume, entries: seq<byte>, i: nat, count: nat, fuel: nat)
    requires i <= count && 32 * count <= |entries|
    requires forall j :: i <= j < count ==> Passive(entries, j)
    ensures ScanEntries(st, v, entries, i, count, fuel) == Run(PassiveScan(st, entries, i, count), Completed)
    decreases count - i
  {
    if i < count {
      var st' := LabelStep(st, entries, i);
      assert ScanEntries(st, v, entries, i, count, fuel) == ScanEntries(st', v, entries, i + 1, count, fuel) by {
        PassiveEntry(st, v, entries, i, fuel);
        ScanStep(st, v, entries, i, count, fuel);
      }
      ScanWithoutDescent(st', v, entries, i + 1, count, fuel);
    }
  }

  /** One LabelStep accounts for the first of the remaining labels. */
  lemma LabelStepContents(st: St, entries: seq<byte>, i: nat, count: nat)
    requires i < count && 32 * count <= |entries|
    ensures var st' := LabelStep(st, entries, i);
            && st'.memo == st.memo
            && LastLabel(entries, i + 1, count, st'.diskName) == LastLabel(entries, i, count, st.diskName)
            && st'.trace + LabelEvents(entries, i + 1, count) == st.trace + LabelEvents(entries, i, count)
  {
    var off := 32 * i;
    var name := entries[off..off + 11];
    if entries[off + 11] == 0x08 {
      assert LabelEvents(entries, i, count) == [Label(name)] + LabelEvents(entries, i + 1, count);
      assert (st.trace + [Label(name)]) + LabelEvents(entries, i + 1, count) == st.trace + ([Label(name)] + LabelEvents(entries, i + 1, count));
    }
  }

  /** Entries that neither descend nor fail print exactly their labels, in
      order, and leave the last label in `disk_name`; the memo is untouched. */
  lemma {:induction false} PassiveScanContents(st: St, entries: seq<byte>, i: nat, count: nat)
    requires i <= count && 32 * count <= |entries|
    ensures PassiveScan(st, entries, i, count)
         == State(st.memo, LastLabel(entries, i, count, st.diskName), st.trace + LabelEvents(entries, i, count))
    decreases count - i
  {
    if i < count {
      var st' := LabelStep(st, entries, i);
      PassiveScanContents(st', entries, i + 1, count);
      LabelStepContents(st, entries, i, count);
    } else {
      assert LabelEvents(entries, i, count) == [];
    }
  }

  /** `read_root_dir` on a root region inside the disk whose entries neither
      descend nor fail: the `dir_entries` entries at root_start + 32 i are
      visited in order, and only the labels are printed. */
  lemma RootWithoutDescent(st: St, v: Volume, fuel: nat)
    requires 0 <= v.geo.rootStart
    requires v.geo.clustersStart == v.geo.rootStart + 32 * v.geo.dirEntries
    requires v.geo.clustersStart <= |v.disk|
    requires var root := v.disk[v.geo.rootStart..v.geo.clustersStart];
             forall j :: 0 <= j < v.geo.dirEntries ==> Passive(root, j)
    ensures var root := v.disk[v.geo.rootStart..v.geo.clustersStart];
            ReadRootDir(st, v, fuel)
              == Run(State(st.memo, LastLabel(root, 0, v.geo.dirEntries, st.diskName),
                           st.trace + LabelEvents(root, 0, v.geo.dirEntries)), Completed)
  {
    assert RootEntries(v) == v.disk[v.geo.rootStart..v.geo.clustersStart];
    ScanWithoutDescent(st, v, RootEntries(v), 0, v.geo.dirEntries, fuel);
    PassiveScanContents(st, RootEntries(v), 0, v.geo.dirEntries);
  }

  /** A folder entry (0x10) prints its right-stripped 11-byte name and then
      reads the folder whose start cluster is the u16 at entry offset 26. */
  lemma FolderDispatch(st: St, v: Volume, entries: seq<byte>, off: nat, fuel: nat)
    requires off + DirEntrySize <= |entries|
    requires IsAscii(entries[off..off + 11])
    ensures MatchFileType(st, v, 0x10, entries, off, fuel)
          == ReadFat(Emit(st, Folder(RStrip(entries[off..off + 11]))), v, Le16(entries, off + 26), true, fuel)
  {
    var cluster := Le16(entries, off + 26);
    assert Decode(Slice(entries, off, off + 11)) == Success(entries[off..off + 11]);
    assert U16(Slice(entries, off + 26, off + 28)) == Success(cluster) by {
      assert Slice(entries, off + 26, off + 28) == [entries[off + 26], entries[off + 27]];
    }
  }

  /** A file entry (0x20) prints its right-stripped 8-byte name and its
      3-byte extension and reads the file from the u16 at entry offset 26. */
  lemma FileDispatch(st: St, v: Volume, entries: seq<byte>, off: nat, fuel: nat)
    requires off + DirEntrySize <= |entries|
    requires IsAscii(entries[off..off + 11])
    ensures MatchFileType(st, v, 0x20, entries, off, fuel)
          == ReadFat(Emit(st, File(RStrip(entries[off..off + 8]), entries[off + 8..off + 11])), v, Le16(entries, off + 26), false, fuel)
  {
    var cluster := Le16(entries, off + 26);
    assert Decode(Slice(entries, off, off + 11)) == Success(entries[off..off + 11]);
    assert U16(Slice(entries, off + 26, off + 28)) == Success(cluster) by {
      assert Slice(entries, off + 26, off + 28) == [entries[off + 26], entries[off + 27]];
    }
    assert Decode(Slice(entries, off, off + 8)) == Success(entries[off..off + 8]) by {
      assert entries[off..off + 8] == entries[off..off + 11][..8];
    }
    assert Decode(Slice(entries, off + 8, off + 11)) == Success(entries[off + 8..off + 11]) by {
      assert entries[off + 8..off + 11] == entries[off..off + 11][8..];
    }
  }

  /** A folder cluster inside the disk is scanned from 64 bytes past its
      start, for (sector_size - 64) div 32 entries, on every cluster read. */
  lemma FolderLayout(v: Volume, c: nat)
    requires v.geo.sectorSize >= 64
    requires var base := ClusterBase(v.geo, c); 0 <= base && base + v.geo.sectorSize <= |v.disk|
    ensures var base := ClusterBase(v.geo, c);
            && FolderEntries(v, c) == v.disk[base + 64..base + v.geo.sectorSize]
            && |FolderEntries(v, c)| / DirEntrySize == (v.geo.sectorSize - 64) / DirEntrySize
  {
  }
}
