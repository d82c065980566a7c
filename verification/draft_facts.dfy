/** Properties of the earlier draft (Soruce/FAT16Interpreter.py). */
module DraftFacts {
  import opened Outcomes
  import opened Bytes
  import opened HexText
  import opened Boot
  import opened Fat
  import opened Trace
  import opened Draft
  import Interpreter

  // ---------------------------------------------------------------------
  // Chain building against the reference chain
  // ---------------------------------------------------------------------

  /** The memo after storing every link of cs under int keys, in order; a
      later write to the same key overwrites an earlier one. */
  function AddLinks(memo: Memo, cs: seq<nat>): Memo
    decreases |cs|
  {
    if |cs| < 2 then memo else AddLinks(memo[cs[0] := cs[1]], cs[1..])
  }

  /** Every cluster of cs but the last. */
  function LinkKeys(cs: seq<nat>): set<nat> {
    set i | 0 <= i < |cs| - 1 :: cs[i]
  }

  /** The loop of `create_linked_list` ends exactly when the reference chain
      ends, fails with the same error when it fails, and leaves the memo with
      every link of the chain added. */
  lemma {:induction false} LinkLoopFollowsChain(v: Volume, memo: Memo, cur: nat, next: nat, fuel: nat)
    requires NextCluster(v, cur) == Success(next)
    ensures var r := LinkLoop(v, memo, cur, next, fuel);
            var ch := Chain(v, cur, fuel);
            && (r.1 == Completed <==> ch.Success?)
            && (ch.Failure? ==> r.1 == Raised(ch.error))
            && (ch.Success? ==> r.0 == AddLinks(memo, ch.value))
    decreases fuel
  {
    HexLexOrder(next);
    if next <= LastFollowed && fuel > 0 {
      var memo' := memo[cur := next];
      var after := NextCluster(v, next);
      if after.Success? {
        LinkLoopFollowsChain(v, memo', next, after.value, fuel - 1);
        var ch := Chain(v, next, fuel - 1);
        if ch.Success? {
          var cs := [cur] + ch.value;
          assert cs[1..] == ch.value;
          assert AddLinks(memo, cs) == AddLinks(memo', ch.value);
        }
      }
    }
  }

  lemma LinkKeysCons(cs: seq<nat>)
    requires |cs| >= 2
    ensures LinkKeys(cs) == {cs[0]} + LinkKeys(cs[1..])
  {
    var rest := cs[1..];
    forall k | k in LinkKeys(cs) ensures k in {cs[0]} + LinkKeys(rest) {
      var i :| 0 <= i < |cs| - 1 && k == cs[i];
      if i > 0 { assert k == rest[i - 1]; }
    }
    forall k | k in LinkKeys(rest) ensures k in LinkKeys(cs) {
      var i :| 0 <= i < |rest| - 1 && k == rest[i];
      assert k == cs[i + 1];
    }
  }

  /** Storing a chain's links adds exactly the clusters of all but the last. */
  lemma {:induction false} AddLinksKeys(memo: Memo, cs: seq<nat>)
    ensures AddLinks(memo, cs).Keys == memo.Keys + LinkKeys(cs)
    decreases |cs|
  {
    if |cs| >= 2 {
      AddLinksKeys(memo[cs[0] := cs[1]], cs[1..]);
      LinkKeysCons(cs);
    } else {
      assert LinkKeys(cs) == {};
    }
  }

  /** Keys outside the chain keep their values. */
  lemma {:induction false} AddLinksOthers(memo: Memo, cs: seq<nat>)
    ensures forall k :: k in memo && k !in LinkKeys(cs) ==> k in AddLinks(memo, cs) && AddLinks(memo, cs)[k] == memo[k]
    decreases |cs|
  {
    if |cs| >= 2 {
      AddLinksOthers(memo[cs[0] := cs[1]], cs[1..]);
      LinkKeysCons(cs);
    }
  }

  /** Every cluster of a chain but the last ends up mapped to its successor;
      when the chain revisits a cluster, the overwrite stores the same value. */
  lemma {:induction false} AddLinksValues(v: Volume, memo: Memo, start: nat, cs: seq<nat>)
    requires IsChain(v, start, cs)
    ensures forall i :: 0 <= i < |cs| - 1 ==> cs[i] in AddLinks(memo, cs) && AddLinks(memo, cs)[cs[i]] == cs[i + 1]
    decreases |cs|
  {
    if |cs| >= 2 {
      var rest := cs[1..];
      var memo' := memo[cs[0] := cs[1]];
      ChainTail(v, start, cs);
      AddLinksValues(v, memo', cs[1], rest);
      AddLinksOthers(memo', rest);
      AddLinksKeys(memo', rest);
      forall i | 0 <= i < |cs| - 1
        ensures cs[i] in AddLinks(memo, cs) && AddLinks(memo, cs)[cs[i]] == cs[i + 1]
      {
        if i > 0 {
          assert cs[i] == rest[i - 1] && cs[i + 1] == rest[i];
        } else if cs[0] in LinkKeys(rest) {
          var j :| 0 <= j < |rest| - 1 && cs[0] == rest[j];
          assert NextCluster(v, cs[0]) == Success(cs[1]);
          assert NextCluster(v, cs[j + 1]) == Success(cs[j + 2]);
        }
      }
    }
  }

  /** The last cluster of a chain gets no key of its own: the loop stops
      before storing it. */
  lemma LastKeyIsNew(v: Volume, start: nat, cs: seq<nat>)
    requires IsChain(v, start, cs)
    ensures cs[|cs| - 1] !in LinkKeys(cs)
  {
    ChainLastIsNew(v, start, cs);
  }

  /** Building the same chain twice leaves the memo as building it once. */
  lemma AddLinksIdempotent(v: Volume, memo: Memo, start: nat, cs: seq<nat>)
    requires IsChain(v, start, cs)
    ensures AddLinks(AddLinks(memo, cs), cs) == AddLinks(memo, cs)
  {
    var once := AddLinks(memo, cs);
    var twice := AddLinks(once, cs);
    AddLinksKeys(memo, cs);
    AddLinksKeys(once, cs);
    assert twice.Keys == once.Keys;
    forall k | k in twice ensures twice[k] == once[k] {
      if k in LinkKeys(cs) {
        var i :| 0 <= i < |cs| - 1 && k == cs[i];
        assert once[k] == cs[i + 1] by { AddLinksValues(v, memo, start, cs); }
        assert twice[k] == cs[i + 1] by { AddLinksValues(v, once, start, cs); }
      } else {
        AddLinksOthers(once, cs);
      }
    }
  }

  // ---------------------------------------------------------------------
  // read_file_allocation_table: the three-way dispatch
  // ---------------------------------------------------------------------

  /** A start cluster whose FAT entry is 0xFFF7 raises BadClusterException
      before anything is read, stored or printed. */
  lemma BadStart(st: St, v: Volume, start: nat, isFolder: bool, fuel: nat)
    requires NextCluster(v, start) == Success(BadClusterMark)
    ensures ReadFat(st, v, start, isFolder, fuel) == Run(st, Raised(BadCluster))
  {
    HexSentinel(BadClusterMark);
  }

  /** A one-cluster chain (FAT entry 0xFFFF) is read directly, without
      touching the memo. */
  lemma OneClusterRead(st: St, v: Volume, start: nat, isFolder: bool, fuel: nat)
    requires NextCluster(v, start) == Success(EndOfChainMark)
    ensures ReadFat(st, v, start, isFolder, fuel) == ReadCluster(st, v, start, isFolder, fuel)
  {
    HexSentinel(EndOfChainMark);
  }

  /** Any other start only builds the memo: nothing is read or printed, the
      run completes exactly when the reference chain ends within the fuel,
      and the memo gains the chain's links. */
  lemma LongChainNotRead(st: St, v: Volume, start: nat, isFolder: bool, fuel: nat)
    requires NextCluster(v, start).Success?
    requires NextCluster(v, start).value != BadClusterMark && NextCluster(v, start).value != EndOfChainMark
    ensures var r := ReadFat(st, v, start, isFolder, fuel);
            var ch := Chain(v, start, fuel);
            && r.state.trace == st.trace
            && r.state.diskName == st.diskName
            && (r.status == Completed <==> ch.Success?)
            && (ch.Failure? ==> r.status == Raised(ch.error))
            && (ch.Success? ==> r.state.memo == AddLinks(st.memo, ch.value))
  {
    HexSentinel(NextCluster(v, start).value);
    LinkLoopFollowsChain(v, st.memo, start, NextCluster(v, start).value, fuel);
  }

  /** Requesting the same multi-cluster start twice leaves the memo as the
      first request left it. */
  lemma LongChainTwice(st: St, v: Volume, start: nat, isFolder: bool, fuel: nat)
    requires NextCluster(v, start).Success?
    requires NextCluster(v, start).value != BadClusterMark && NextCluster(v, start).value != EndOfChainMark
    requires ReadFat(st, v, start, isFolder, fuel).status == Completed
    ensures var r1 := ReadFat(st, v, start, isFolder, fuel);
            var r2 := ReadFat(r1.state, v, start, isFolder, fuel);
            r2 == r1
  {
    var r1 := ReadFat(st, v, start, isFolder, fuel);
    LongChainNotRead(st, v, start, isFolder, fuel);
    LongChainNotRead(r1.state, v, start, isFolder, fuel);
    AddLinksIdempotent(v, st.memo, start, Chain(v, start, fuel).value);
  }

  /** A one-cluster file is the 512 bytes at clusters_start + 512 (start - 2),
      whatever the sector size: its first line is printed and the memo is
      left alone. */
  lemma OneClusterFile(st: St, v: Volume, start: nat, fuel: nat)
    requires NextCluster(v, start) == Success(EndOfChainMark)
    requires var base := Draft.ClusterBase(v.geo, start); 0 <= base && base + ClusterStride <= |v.disk|
    ensures var r := ReadFat(st, v, start, false, fuel);
            var base := Draft.ClusterBase(v.geo, start);
            var cluster := v.disk[base..base + ClusterStride];
            FirstLinePrinted(r, st, cluster)
  {
    var base := Draft.ClusterBase(v.geo, start);
    var cluster := v.disk[base..base + ClusterStride];
    var r := ReadFat(st, v, start, false, fuel);
    assert r == PrintExcerpt(st, cluster) by {
      OneClusterRead(st, v, start, false, fuel);
      assert FileCluster(v, start) == cluster;
    }
    ExcerptOutcome(st, cluster);
  }

  /** Both copies read cluster c at the same offset only for c = 2 or a
      512-byte sector; otherwise the draft reads the wrong bytes. */
  lemma StrideAgreement(g: Geometry, c: nat)
    ensures Draft.ClusterBase(g, c) == Interpreter.ClusterBase(g, c) <==> c == 2 || g.sectorSize == 512
  {
    StrideGap(g.sectorSize, c - 2);
  }

  /** The gap between a 512-byte stride and a stride of s after d clusters. */
  lemma StrideGap(s: int, d: int)
    ensures 512 * d - s * d == 0 <==> d == 0 || s == 512
  {
    assert 512 * d - s * d == (512 - s) * d;
    if d != 0 && s != 512 {
      assert (512 - s) * d != 0;
    }
  }

  /** A folder cluster inside the disk is scanned from 64 bytes past the
      512-byte-stride offset, for (sector_size - 64) div 32 entries. */
  lemma FolderLayout(v: Volume, c: nat)
    requires v.geo.sectorSize >= 64
    requires var base := Draft.ClusterBase(v.geo, c); 0 <= base && base + v.geo.sectorSize <= |v.disk|
    ensures var base := Draft.ClusterBase(v.geo, c);
            && FolderEntries(v, c) == v.disk[base + 64..base + v.geo.sectorSize]
            && |FolderEntries(v, c)| / DirEntrySize == (v.geo.sectorSize - 64) / DirEntrySize
  {
  }

  // ---------------------------------------------------------------------
  // Directory scans
  // ---------------------------------------------------------------------

  /** The root scan ignores every attribute byte but 0x08 and 0x10: a file
      entry (0x20) in the root is not read, once its name decodes. */
  lemma RootSkips(st: St, v: Volume, entries: seq<byte>, off: nat, fuel: nat)
    requires off + DirEntrySize <= |entries|
    requires entries[off + 11] != 0x08 && entries[off + 11] != 0x10
    requires IsAscii(entries[off..off + 11])
    ensures RootEntry(st, v, entries, off, fuel) == Run(st, Completed)
  {
    assert Slice(entries, off, off + 11) == entries[off..off + 11];
  }

  /** A root entry whose name does not decode stops the scan, whatever its
      attribute byte, even 0x00. */
  lemma RootDecodesEveryName(st: St, v: Volume, entries: seq<byte>, off: nat, fuel: nat)
    requires off + DirEntrySize <= |entries|
    requires !IsAscii(entries[off..off + 11])
    ensures RootEntry(st, v, entries, off, fuel) == Run(st, Raised(DecodeError))
  {
    assert Slice(entries, off, off + 11) == entries[off..off + 11];
  }

  /** A root label (0x08) sets `disk_name` to the full 11-byte name and
      prints it unstripped. */
  lemma RootLabel(st: St, v: Volume, entries: seq<byte>, off: nat, fuel: nat)
    requires off + DirEntrySize <= |entries|
    requires entries[off + 11] == 0x08
    requires IsAscii(entries[off..off + 11])
    ensures var name := entries[off..off + 11];
            RootEntry(st, v, entries, off, fuel) == Run(State(st.memo, name, st.trace + [Label(name)]), Completed)
  {
    assert Slice(entries, off, off + 11) == entries[off..off + 11];
  }

  /** A root folder entry prints its stripped name and reads the folder at
      the u16 of entry offset 26. */
  lemma RootFolder(st: St, v: Volume, entries: seq<byte>, off: nat, fuel: nat)
    requires off + DirEntrySize <= |entries|
    requires entries[off + 11] == 0x10
    requires IsAscii(entries[off..off + 11])
    ensures RootEntry(st, v, entries, off, fuel)
         == ReadFat(Emit(st, Folder(RStrip(entries[off..off + 11]))), v, Le16(entries, off + 26), true, fuel)
  {
    var cluster := Le16(entries, off + 26);
    var st1 := Emit(st, Folder(RStrip(entries[off..off + 11])));
    assert Decode(Slice(entries, off, off + 11)) == Success(entries[off..off + 11]) by {
      assert Slice(entries, off, off + 11) == entries[off..off + 11];
    }
    assert U16(Slice(entries, off + 26, off + 28)) == Success(cluster) by {
      assert Slice(entries, off + 26, off + 28) == [entries[off + 26], entries[off + 27]];
    }
    assert RootEntry(st, v, entries, off, fuel) == ReadFat(st1, v, cluster, true, fuel);
  }

  /** In a folder only files are handled: any other entry, a sub-folder or a
      label included, is skipped without decoding its name. */
  lemma FolderSkips(st: St, v: Volume, entries: seq<byte>, off: nat, fuel: nat)
    requires off + DirEntrySize <= |entries|
    requires entries[off + 11] != 0x20
    ensures FolderEntry(st, v, entries, off, fuel) == Run(st, Completed)
  {
  }

  /** A file entry in a folder prints its stripped 8-byte name and 3-byte
      extension and reads the file from the u16 at entry offset 26. */
  lemma FolderFile(st: St, v: Volume, entries: seq<byte>, off: nat, fuel: nat)
    requires off + DirEntrySize <= |entries|
    requires entries[off + 11] == 0x20
    requires IsAscii(entries[off..off + 11])
    ensures FolderEntry(st, v, entries, off, fuel)
          == ReadFat(Emit(st, File(RStrip(entries[off..off + 8]), entries[off + 8..off + 11])), v, Le16(entries, off + 26), false, fuel)
  {
    assert entries[off..off + 8] == entries[off..off + 11][..8];
    assert entries[off + 8..off + 11] == entries[off..off + 11][8..];
  }
}
