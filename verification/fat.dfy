/** FAT lookup (`find_next_node_index`, identical in both copies) and a
    numeric reference definition of the cluster chain both chain builders
    follow. */
module Fat {
  import opened Outcomes
  import opened Bytes
  import opened Boot

  /** The immutable disk buffer together with the geometry parsed from it. */
  datatype Volume = Volume(geo: Geometry, disk: seq<byte>)

  /** FAT value marking a bad cluster. */
  const BadClusterMark: nat := 0xFFF7
  /** FAT value the interpreter treats as "end of this file". */
  const EndOfChainMark: nat := 0xFFFF
  /** The largest FAT value the chain builders still follow as a successor.
      The "FAT Data Structure" section of the FAT specification makes every
      value from 0xFFF8 up an end-of-chain mark, so 0xFFF8 itself is followed
      here where the specification would stop. */
  const LastFollowed: nat := 0xFFF8

  /** Byte offset of cluster c's entry in the first FAT. */
  function FatOffset(v: Volume, c: nat): nat {
    v.geo.fatStart + 2 * c
  }

  /** `find_next_node_index`: the little-endian u16 at FAT_start + 2c. */
  function NextCluster(v: Volume, c: nat): (r: Result<nat>)
    ensures r.Success? <==> FatOffset(v, c) + 2 <= |v.disk|
    ensures r.Failure? ==> r.error == ShortRead
    ensures r.Success? ==>
      && r.value < 0x1_0000
      && r.value % 256 == v.disk[FatOffset(v, c)]
      && r.value / 256 == v.disk[FatOffset(v, c) + 1]
  {
    var off := FatOffset(v, c);
    if off + 2 <= |v.disk| then Success(v.disk[off] as nat + 256 * v.disk[off + 1] as nat)
    else Failure(ShortRead)
  }

  /** The entry is `struct.unpack('<H', ...)` of the two bytes at the
      entry's offset; it fails exactly when that slice is short. */
  lemma NextClusterUnpacks(v: Volume, c: nat)
    ensures NextCluster(v, c) == U16(Slice(v.disk, FatOffset(v, c), FatOffset(v, c) + 2))
  {
  }

  /** cs is the chain from `start`: each cluster's FAT entry is the next one
      and at most LastFollowed, and the last cluster's entry is above it. */
  predicate IsChain(v: Volume, start: nat, cs: seq<nat>) {
    && |cs| > 0
    && cs[0] == start
    && (forall i {:trigger NextCluster(v, cs[i])} :: 0 <= i < |cs| - 1 ==> NextCluster(v, cs[i]) == Success(cs[i + 1]) && cs[i + 1] <= LastFollowed)
    && NextCluster(v, cs[|cs| - 1]).Success?
    && NextCluster(v, cs[|cs| - 1]).value > LastFollowed
  }

  /** Prepending a cluster whose FAT entry is the head of a chain gives a chain. */
  lemma ChainCons(v: Volume, start: nat, rest: seq<nat>)
    requires |rest| > 0
    requires NextCluster(v, start) == Success(rest[0]) && rest[0] <= LastFollowed
    requires IsChain(v, rest[0], rest)
    ensures IsChain(v, start, [start] + rest)
  {
    var cs := [start] + rest;
    forall i {:trigger NextCluster(v, cs[i])} | 0 <= i < |cs| - 1
      ensures NextCluster(v, cs[i]) == Success(cs[i + 1]) && cs[i + 1] <= LastFollowed
    {
      if i > 0 {
        assert cs[i] == rest[i - 1] && cs[i + 1] == rest[i];
        assert NextCluster(v, rest[i - 1]) == Success(rest[i]);
      }
    }
  }

  /** The tail of a chain of two or more clusters is the chain of its head. */
  lemma ChainTail(v: Volume, start: nat, cs: seq<nat>)
    requires IsChain(v, start, cs) && |cs| >= 2
    ensures IsChain(v, cs[1], cs[1..])
  {
    var rest := cs[1..];
    forall i {:trigger NextCluster(v, rest[i])} | 0 <= i < |rest| - 1
      ensures NextCluster(v, rest[i]) == Success(rest[i + 1]) && rest[i + 1] <= LastFollowed
    {
      assert rest[i] == cs[i + 1] && rest[i + 1] == cs[i + 2];
      assert NextCluster(v, cs[i + 1]) == Success(cs[i + 2]);
    }
  }

  /** The chain from `start`, following at most `fuel` links. */
  function Chain(v: Volume, start: nat, fuel: nat): (r: Result<seq<nat>>)
    ensures r.Success? ==> IsChain(v, start, r.value)
    ensures r.Failure? ==> r.error == ShortRead || r.error == OutOfFuel
    decreases fuel
  {
    var next :- NextCluster(v, start);
    if next > LastFollowed then Success([start])
    else if fuel == 0 then Failure(OutOfFuel)
    else
      var rest :- Chain(v, next, fuel - 1);
      ChainCons(v, start, rest);
      Success([start] + rest)
  }

  /** Two chains from the same start are the same chain: each FAT entry
      fixes the next cluster, and only the last entry is above
      LastFollowed. */
  lemma ChainUnique(v: Volume, start: nat, cs: seq<nat>, ds: seq<nat>)
    requires IsChain(v, start, cs) && IsChain(v, start, ds)
    ensures cs == ds
  {
    var n := if |cs| <= |ds| then |cs| else |ds|;
    SamePrefix(v, start, cs, ds, n);
    assert cs[n - 1] == ds[n - 1];
  }

  /** Two chains from the same start agree on their first n clusters. */
  lemma {:induction false} SamePrefix(v: Volume, start: nat, cs: seq<nat>, ds: seq<nat>, n: nat)
    requires IsChain(v, start, cs) && IsChain(v, start, ds)
    requires n <= |cs| && n <= |ds|
    ensures forall i :: 0 <= i < n ==> cs[i] == ds[i]
  {
    if n > 1 {
      SamePrefix(v, start, cs, ds, n - 1);
      assert NextCluster(v, cs[n - 2]) == Success(cs[n - 1]);
      assert NextCluster(v, ds[n - 2]) == Success(ds[n - 1]);
    }
  }

  /** One followed link in front of a chain that is found gives a chain
      that is found. */
  lemma ChainStepFound(v: Volume, start: nat, next: nat, fuel: nat, f: nat)
    requires NextCluster(v, start) == Success(next) && next <= LastFollowed
    requires fuel == f + 1 && Chain(v, next, f).Success?
    ensures Chain(v, start, fuel).Success?
  {
  }

  /** The chain from the k-th cluster of a chain is found with fuel for its
      remaining links. */
  lemma {:induction false} ChainSuffixFound(v: Volume, start: nat, cs: seq<nat>, k: nat, fuel: nat)
    requires IsChain(v, start, cs) && k < |cs| && |cs| - k <= fuel + 1
    ensures Chain(v, cs[k], fuel).Success?
    decreases |cs| - k
  {
    if k < |cs| - 1 {
      var f: nat := fuel - 1;
      assert NextCluster(v, cs[k]) == Success(cs[k + 1]) && cs[k + 1] <= LastFollowed;
      ChainSuffixFound(v, start, cs, k + 1, f);
      ChainStepFound(v, cs[k], cs[k + 1], fuel, f);
    }
  }

  /** Every chain of at most fuel + 1 clusters is found: the reference
      definition misses no chain the fuel can reach. */
  lemma ChainComplete(v: Volume, start: nat, cs: seq<nat>, fuel: nat)
    requires IsChain(v, start, cs) && |cs| <= fuel + 1
    ensures Chain(v, start, fuel) == Success(cs)
  {
    ChainSuffixFound(v, start, cs, 0, fuel);
    ChainUnique(v, start, cs, Chain(v, start, fuel).value);
  }

  /** cs is a walk from `start` along followed links: each cluster's FAT
      entry is the next one and at most LastFollowed. */
  predicate IsPath(v: Volume, start: nat, cs: seq<nat>) {
    && |cs| > 0
    && cs[0] == start
    && (forall i {:trigger NextCluster(v, cs[i])} :: 0 <= i < |cs| - 1 ==> NextCluster(v, cs[i]) == Success(cs[i + 1]) && cs[i + 1] <= LastFollowed)
  }

  /** Prepending a cluster whose FAT entry is the head of a walk, and is
      followed, gives a walk. */
  lemma PathCons(v: Volume, start: nat, rest: seq<nat>)
    requires |rest| > 0
    requires NextCluster(v, start) == Success(rest[0]) && rest[0] <= LastFollowed
    requires IsPath(v, rest[0], rest)
    ensures IsPath(v, start, [start] + rest)
  {
    var cs := [start] + rest;
    forall i {:trigger NextCluster(v, cs[i])} | 0 <= i < |cs| - 1
      ensures NextCluster(v, cs[i]) == Success(cs[i + 1]) && cs[i + 1] <= LastFollowed
    {
      if i > 0 {
        assert cs[i] == rest[i - 1] && cs[i + 1] == rest[i];
        assert NextCluster(v, rest[i - 1]) == Success(rest[i]);
      }
    }
  }

  /** The tail of a walk of two or more clusters is a walk from its head. */
  lemma PathTail(v: Volume, start: nat, cs: seq<nat>)
    requires IsPath(v, start, cs) && |cs| >= 2
    ensures IsPath(v, cs[1], cs[1..])
  {
    var rest := cs[1..];
    forall i {:trigger NextCluster(v, rest[i])} | 0 <= i < |rest| - 1
      ensures NextCluster(v, rest[i]) == Success(rest[i + 1]) && rest[i + 1] <= LastFollowed
    {
      assert rest[i] == cs[i + 1] && rest[i + 1] == cs[i + 2];
      assert NextCluster(v, cs[i + 1]) == Success(cs[i + 2]);
    }
  }

  /** A walk whose last FAT lookup runs off the disk, within the fuel, makes
      the chain fail with struct.error. */
  lemma {:induction false} ChainRunsOffDisk(v: Volume, start: nat, cs: seq<nat>, fuel: nat)
    requires IsPath(v, start, cs) && |cs| <= fuel + 1
    requires NextCluster(v, cs[|cs| - 1]).Failure?
    ensures Chain(v, start, fuel) == Failure(ShortRead)
    decreases |cs|
  {
    if |cs| > 1 {
      var f: nat := fuel - 1;
      assert NextCluster(v, cs[0]) == Success(cs[1]) && cs[1] <= LastFollowed;
      assert Chain(v, cs[1], f) == Failure(ShortRead) by {
        PathTail(v, start, cs);
        ChainRunsOffDisk(v, cs[1], cs[1..], f);
      }
    }
  }

  /** Conversely, a struct.error from the chain comes from such a walk: the
      returned clusters are followed links from `start`, within the fuel,
      and the last one's FAT entry lies past the end of the disk. */
  lemma {:induction false} ShortReadHasPath(v: Volume, start: nat, fuel: nat) returns (cs: seq<nat>)
    requires Chain(v, start, fuel) == Failure(ShortRead)
    ensures IsPath(v, start, cs) && |cs| <= fuel + 1
    ensures NextCluster(v, cs[|cs| - 1]).Failure?
    decreases fuel
  {
    var next := NextCluster(v, start);
    if next.Failure? {
      cs := [start];
    } else {
      var f: nat := fuel - 1;
      assert next.value <= LastFollowed && fuel > 0 && Chain(v, next.value, f) == Failure(ShortRead);
      var rest := ShortReadHasPath(v, next.value, f);
      PathCons(v, start, rest);
      cs := [start] + rest;
      assert cs[|cs| - 1] == rest[|rest| - 1];
    }
  }

  /** The last cluster of a chain appears nowhere earlier in it, so a chain
      never revisits a cluster before its end. */
  lemma ChainLastIsNew(v: Volume, start: nat, cs: seq<nat>)
    requires IsChain(v, start, cs)
    ensures forall i :: 0 <= i < |cs| - 1 ==> cs[i] != cs[|cs| - 1]
  {
    forall i | 0 <= i < |cs| - 1
      ensures cs[i] != cs[|cs| - 1]
    {
      assert NextCluster(v, cs[i]) == Success(cs[i + 1]);
    }
  }

  /** Where the FAT specification would end a chain at an entry of 0xFFF8,
      the chain builders follow it as cluster 0xFFF8. */
  lemma ChainFollowsReservedEnd(v: Volume, start: nat, fuel: nat)
    requires NextCluster(v, start) == Success(0xFFF8)
    requires NextCluster(v, 0xFFF8).Success? && NextCluster(v, 0xFFF8).value > LastFollowed
    requires fuel > 0
    ensures Chain(v, start, fuel) == Success([start, 0xFFF8])
  {
    assert Chain(v, 0xFFF8, fuel - 1) == Success([0xFFF8]);
    assert [start] + [0xFFF8] == [start, 0xFFF8];
  }
}
