/**
 * x86_cpuid_copy_to_buffer: the policy as a flat sequence of
 * (leaf, subleaf, a, b, c, d) records, and the unit tests' sortedness check
 * leaves_are_sorted.
 */
module CpuidSerialise {
  import opened CpuPolicy

  /** xen_cpuid_leaf_t: one wire record. */
  datatype CpuidEntry = CpuidEntry(leaf: u32, subleaf: u32, a: u32, b: u32, c: u32, d: u32)

  function EntryOf(leaf: u32, subleaf: u32, l: Leaf): CpuidEntry
  {
    CpuidEntry(leaf, subleaf, l.a, l.b, l.c, l.d)
  }

  // ---- The serialiser, family by family, as the library walks the record ----

  /**
   * A family ended by a terminator (leaves 4 and 0xb): subleaves from i, up
   * to and including the first whose type is 0, within the array.
   */
  function TerminatedFrom(leaf: u32, raw: seq<Leaf>, typeOf: Leaf -> nat, i: nat): seq<CpuidEntry>
    requires |raw| <= 0x1_0000_0000
    decreases |raw| - i
  {
    if i >= |raw| then []
    else [EntryOf(leaf, i, raw[i])] + (if typeOf(raw[i]) == 0 then [] else TerminatedFrom(leaf, raw, typeOf, i + 1))
  }

  /** Leaf 7: subleaves from i up to max_subleaf, with no terminator scan. */
  function FeatFrom(p: Policy, i: nat): seq<CpuidEntry>
    decreases NR_FEAT - i
  {
    if i > FeatBound(p) then []
    else [EntryOf(7, i, p.feat[i])] + FeatFrom(p, i + 1)
  }

  /**
   * Leaf 0xd: subleaves 0 and 1 always; from 2 on, one subleaf per position
   * while (xcr0 | xss) >> position is nonzero.
   */
  function XstateFrom(p: Policy, i: nat): seq<CpuidEntry>
    decreases NR_XSTATE - i
  {
    if i >= NR_XSTATE || (i >= 2 && !XstatesFrom(p, i)) then []
    else [EntryOf(0xd, i, p.xstate[i])] + XstateFrom(p, i + 1)
  }

  /** The records of one basic leaf: a family walk, or the leaf itself without a subleaf. */
  function LeafBlock(p: Policy, leaf: nat): seq<CpuidEntry>
    requires leaf < NR_BASIC
  {
    if leaf == 4 then TerminatedFrom(4, p.cache, CacheType, 0)
    else if leaf == 7 then FeatFrom(p, 0)
    else if leaf == 0xb then TerminatedFrom(0xb, p.topo, TopoType, 0)
    else if leaf == 0xd then XstateFrom(p, 0)
    else [EntryOf(leaf, NO_SUBLEAF, p.basic[leaf])]
  }

  /** Basic leaves from leaf up to max_leaf (clamped to the array). */
  function BasicFrom(p: Policy, leaf: nat): seq<CpuidEntry>
    decreases NR_BASIC - leaf
  {
    if leaf > BasicBound(p) then []
    else LeafBlock(p, leaf) + BasicFrom(p, leaf + 1)
  }

  /** The two hypervisor leaves, which carry only their limit in eax. */
  function HypervisorLeaves(p: Policy): seq<CpuidEntry>
  {
    [EntryOf(HV_LEAF, NO_SUBLEAF, Leaf(p.hvLimit, 0, 0, 0)),
     EntryOf(HV2_LEAF, NO_SUBLEAF, Leaf(p.hv2Limit, 0, 0, 0))]
  }

  /** Extended leaves 0x80000000 + i up to the extended max_leaf (clamped). */
  function ExtdFrom(p: Policy, i: nat): seq<CpuidEntry>
    decreases NR_EXTD - i
  {
    if i > ExtdBound(p) then []
    else [EntryOf(EXTD_BASE + i, NO_SUBLEAF, p.extd[i])] + ExtdFrom(p, i + 1)
  }

  /** Everything x86_cpuid_copy_to_buffer writes, in the order it writes it. */
  function SerialiseCpuid(p: Policy): seq<CpuidEntry>
  {
    BasicFrom(p, 0) + HypervisorLeaves(p) + ExtdFrom(p, 0)
  }

  // ---- Reference definitions: contiguous runs and closed-form counts ----

  /** Records (leaf, j, raw[j]) for lo <= j < hi. */
  function Run(leaf: u32, raw: seq<Leaf>, lo: nat, hi: nat): (s: seq<CpuidEntry>)
    requires lo <= hi <= |raw| && hi <= 0x1_0000_0000
    ensures |s| == hi - lo
    ensures forall k :: 0 <= k < hi - lo ==> s[k] == EntryOf(leaf, lo + k, raw[lo + k])
  {
    seq(hi - lo, k requires 0 <= k < hi - lo => EntryOf(leaf, lo + k, raw[lo + k]))
  }

  /** Records (0x80000000 + j, no subleaf, extd[j]) for lo <= j < hi. */
  function ExtdRun(p: Policy, lo: nat, hi: nat): (s: seq<CpuidEntry>)
    requires lo <= hi <= NR_EXTD
    ensures |s| == hi - lo
    ensures forall k :: 0 <= k < hi - lo ==> s[k] == EntryOf(EXTD_BASE + lo + k, NO_SUBLEAF, p.extd[lo + k])
  {
    seq(hi - lo, k requires 0 <= k < hi - lo => EntryOf(EXTD_BASE + lo + k, NO_SUBLEAF, p.extd[lo + k]))
  }

  /** Adjacent runs join into one. */
  lemma RunSplit(leaf: u32, raw: seq<Leaf>, lo: nat, mid: nat, hi: nat)
    requires lo <= mid <= hi <= |raw| && hi <= 0x1_0000_0000
    ensures Run(leaf, raw, lo, mid) + Run(leaf, raw, mid, hi) == Run(leaf, raw, lo, hi)
  {
  }

  /** Adjacent extended runs join into one. */
  lemma ExtdRunSplit(p: Policy, lo: nat, mid: nat, hi: nat)
    requires lo <= mid <= hi <= NR_EXTD
    ensures ExtdRun(p, lo, mid) + ExtdRun(p, mid, hi) == ExtdRun(p, lo, hi)
  {
  }

  /** One past the last subleaf of a terminated family that is serialised: the terminator is included. */
  function TerminatedCount(raw: seq<Leaf>, typeOf: Leaf -> nat): (n: nat)
    ensures n <= |raw|
    ensures 0 < |raw| ==> 1 <= n
  {
    var e := FirstUntyped(raw, typeOf, 0);
    if e < |raw| then e + 1 else |raw|
  }

  function CacheCount(p: Policy): (n: nat)
    ensures 1 <= n <= NR_CACHE
  {
    TerminatedCount(p.cache, CacheType)
  }

  function TopoCount(p: Policy): (n: nat)
    ensures 1 <= n <= NR_TOPO
  {
    TerminatedCount(p.topo, TopoType)
  }

  /** Number of records for basic leaves 0..n. */
  function BasicCountUpTo(p: Policy, n: int): int
  {
    var plain := n + 1 - (if n >= 4 then 1 else 0) - (if n >= 7 then 1 else 0)
                       - (if n >= 0xb then 1 else 0) - (if n >= 0xd then 1 else 0);
    plain + (if n >= 4 then CacheCount(p) else 0) + (if n >= 7 then FeatBound(p) + 1 else 0)
          + (if n >= 0xb then TopoCount(p) else 0) + (if n >= 0xd then XstateEnd(p) else 0)
  }

  /** The number of records the serialiser writes, in closed form. */
  function CpuidCount(p: Policy): int
  {
    BasicCountUpTo(p, BasicBound(p)) + 2 + ExtdBound(p) + 1
  }

  /** CPUID_MAX_SERIALISED_LEAVES: every leaf and subleaf the record can hold, and the two hypervisor leaves. */
  const MAX_SERIALISED_LEAVES: nat :=
    (NR_BASIC - 4) + NR_CACHE + NR_FEAT + NR_TOPO + NR_XSTATE + 2 + NR_EXTD

  // ---- The family walks are contiguous runs ----

  lemma {:induction false} TerminatedFromIsRun(leaf: u32, raw: seq<Leaf>, typeOf: Leaf -> nat, i: nat)
    requires |raw| <= 0x1_0000_0000
    requires i <= FirstUntyped(raw, typeOf, 0) && i <= TerminatedCount(raw, typeOf)
    ensures TerminatedFrom(leaf, raw, typeOf, i) == Run(leaf, raw, i, TerminatedCount(raw, typeOf))
    decreases |raw| - i
  {
    var e, n := FirstUntyped(raw, typeOf, 0), TerminatedCount(raw, typeOf);
    if i < |raw| {
      if typeOf(raw[i]) == 0 {
        assert i == e;
        assert n == i + 1;
      } else {
        assert i < e;
        TerminatedFromIsRun(leaf, raw, typeOf, i + 1);
        assert TerminatedFrom(leaf, raw, typeOf, i) == [EntryOf(leaf, i, raw[i])] + Run(leaf, raw, i + 1, n);
      }
    }
  }

  lemma {:induction false} FeatFromIsRun(p: Policy, i: nat)
    requires i <= FeatBound(p) + 1
    ensures FeatFrom(p, i) == Run(7, p.feat, i, FeatBound(p) + 1)
    decreases NR_FEAT - i
  {
    if i <= FeatBound(p) {
      FeatFromIsRun(p, i + 1);
    }
  }

  /** The xstate walk emits exactly the subleaves below max(2, 64 - clz(xcr0 | xss)), within the array. */
  lemma {:induction false} XstateFromIsRun(p: Policy, i: nat)
    requires i <= XstateEnd(p)
    ensures XstateFrom(p, i) == Run(0xd, p.xstate, i, XstateEnd(p))
    decreases NR_XSTATE - i
  {
    XstateEndBound(p, i);
    if i < XstateEnd(p) {
      XstateFromIsRun(p, i + 1);
      assert XstateFrom(p, i) == [EntryOf(0xd, i, p.xstate[i])] + Run(0xd, p.xstate, i + 1, XstateEnd(p));
    }
  }

  lemma {:induction false} ExtdFromIsRun(p: Policy, i: nat)
    requires i <= ExtdBound(p) + 1
    ensures ExtdFrom(p, i) == ExtdRun(p, i, ExtdBound(p) + 1)
    decreases NR_EXTD - i
  {
    if i <= ExtdBound(p) {
      ExtdFromIsRun(p, i + 1);
    }
  }

  // ---- Counts ----

  lemma LeafBlockCount(p: Policy, leaf: nat)
    requires leaf < NR_BASIC
    ensures |LeafBlock(p, leaf)| == BasicCountUpTo(p, leaf) - BasicCountUpTo(p, leaf - 1)
  {
    if leaf == 4 {
      TerminatedFromIsRun(4, p.cache, CacheType, 0);
    } else if leaf == 7 {
      FeatFromIsRun(p, 0);
    } else if leaf == 0xb {
      TerminatedFromIsRun(0xb, p.topo, TopoType, 0);
    } else if leaf == 0xd {
      XstateFromIsRun(p, 0);
    }
  }

  lemma {:induction false} BasicFromCount(p: Policy, leaf: nat)
    requires leaf <= BasicBound(p) + 1
    ensures |BasicFrom(p, leaf)| == BasicCountUpTo(p, BasicBound(p)) - BasicCountUpTo(p, leaf - 1)
    decreases NR_BASIC - leaf
  {
    if leaf <= BasicBound(p) {
      LeafBlockCount(p, leaf);
      BasicFromCount(p, leaf + 1);
    }
  }

  /** The serialiser writes exactly CpuidCount(p) records. */
  lemma SerialisedCount(p: Policy)
    ensures |SerialiseCpuid(p)| == CpuidCount(p)
  {
    BasicFromCount(p, 0);
    ExtdFromIsRun(p, 0);
  }

  /** A buffer of CPUID_MAX_SERIALISED_LEAVES records holds any policy. */
  lemma SerialisedFits(p: Policy)
    ensures |SerialiseCpuid(p)| <= MAX_SERIALISED_LEAVES
  {
    SerialisedCount(p);
  }

  // ---- Order ----

  /** (leaf, subleaf) of x strictly precedes that of y. */
  predicate EntryBefore(x: CpuidEntry, y: CpuidEntry)
  {
    x.leaf < y.leaf || (x.leaf == y.leaf && x.subleaf < y.subleaf)
  }

  /** Consecutive records strictly increase by (leaf, subleaf): no pair repeats. */
  predicate LeavesSorted(s: seq<CpuidEntry>)
  {
    forall i :: 0 < i < |s| ==> EntryBefore(s[i - 1], s[i])
  }

  /** Records whose leaf lies in [lo, hi). */
  predicate LeavesWithin(s: seq<CpuidEntry>, lo: int, hi: int)
  {
    forall i :: 0 <= i < |s| ==> lo <= s[i].leaf < hi
  }

  lemma SortedConcat(s: seq<CpuidEntry>, t: seq<CpuidEntry>)
    requires LeavesSorted(s) && LeavesSorted(t)
    requires s != [] && t != [] ==> EntryBefore(s[|s| - 1], t[0])
    ensures LeavesSorted(s + t)
  {
    var u := s + t;
    forall i | 0 < i < |u|
      ensures EntryBefore(u[i - 1], u[i])
    {
      if i < |s| {
        assert u[i - 1] == s[i - 1] && u[i] == s[i];
      } else if i == |s| {
        assert u[i - 1] == s[|s| - 1] && u[i] == t[0];
      } else {
        assert u[i - 1] == t[i - 1 - |s|] && u[i] == t[i - |s|];
      }
    }
  }

  /** A run of subleaves of one leaf is ascending and stays within that leaf. */
  lemma RunSorted(leaf: u32, raw: seq<Leaf>, lo: nat, hi: nat)
    requires lo <= hi <= |raw| && hi <= 0x1_0000_0000
    ensures LeavesSorted(Run(leaf, raw, lo, hi)) && LeavesWithin(Run(leaf, raw, lo, hi), leaf, leaf + 1)
  {
  }

  lemma LeafBlockSorted(p: Policy, leaf: nat)
    requires leaf < NR_BASIC
    ensures LeavesSorted(LeafBlock(p, leaf)) && LeavesWithin(LeafBlock(p, leaf), leaf, leaf + 1)
  {
    if leaf == 4 {
      TerminatedFromIsRun(4, p.cache, CacheType, 0);
      RunSorted(4, p.cache, 0, CacheCount(p));
    } else if leaf == 7 {
      FeatFromIsRun(p, 0);
      RunSorted(7, p.feat, 0, FeatBound(p) + 1);
    } else if leaf == 0xb {
      TerminatedFromIsRun(0xb, p.topo, TopoType, 0);
      RunSorted(0xb, p.topo, 0, TopoCount(p));
    } else if leaf == 0xd {
      XstateFromIsRun(p, 0);
      RunSorted(0xd, p.xstate, 0, XstateEnd(p));
    }
  }

  lemma {:induction false} BasicFromSorted(p: Policy, leaf: nat)
    requires leaf <= BasicBound(p) + 1
    ensures LeavesSorted(BasicFrom(p, leaf)) && LeavesWithin(BasicFrom(p, leaf), leaf, NR_BASIC)
    decreases NR_BASIC - leaf
  {
    if leaf <= BasicBound(p) {
      var block, rest := LeafBlock(p, leaf), BasicFrom(p, leaf + 1);
      LeafBlockSorted(p, leaf);
      BasicFromSorted(p, leaf + 1);
      SortedConcat(block, rest);
      assert BasicFrom(p, leaf) == block + rest;
      forall i | 0 <= i < |block + rest|
        ensures leaf <= (block + rest)[i].leaf < NR_BASIC
      {
        if i < |block| { assert (block + rest)[i] == block[i]; }
        else { assert (block + rest)[i] == rest[i - |block|]; }
      }
    }
  }

  /**
   * The serialised records are strictly ascending by (leaf, subleaf): basic
   * leaves, then the hypervisor leaves, then the extended leaves.
   */
  lemma SerialisedSorted(p: Policy)
    ensures LeavesSorted(SerialiseCpuid(p))
  {
    var basic, hv, extd := BasicFrom(p, 0), HypervisorLeaves(p), ExtdFrom(p, 0);
    BasicFromSorted(p, 0);
    ExtdFromIsRun(p, 0);
    SortedConcat(basic, hv);
    SortedConcat(basic + hv, extd);
  }

  // ---- The serialise-success table of the unit tests ----

  /** The zero policy with basic.max_leaf set. */
  function MaxLeafPolicy(n: u32): Policy
  {
    EmptyPolicy().(basic := Zeros(NR_BASIC)[0 := Leaf(n, 0, 0, 0)])
  }

  /** The empty policy serialises to leaf 0, the two hypervisor leaves and leaf 0x80000000. */
  lemma EmptyPolicyCount()
    ensures |SerialiseCpuid(EmptyPolicy())| == 4
  {
    SerialisedCount(EmptyPolicy());
  }

  /** Leaf 4 stops after the first subleaf of type 0, which is subleaf 0 here: 8 records. */
  lemma EmptyCacheCount()
    ensures |SerialiseCpuid(MaxLeafPolicy(4))| == 8
  {
    var p := MaxLeafPolicy(4);
    FirstUntypedUnique(p.cache, CacheType, 0, 0);
    assert BasicBound(p) == 4 && ExtdBound(p) == 0;
    assert BasicCountUpTo(p, 4) == 5;
    SerialisedCount(p);
  }

  /** With subleaf 0 of type 1, leaf 4 runs on to the terminator at subleaf 1: 9 records. */
  lemma PartialCacheCount()
    ensures |SerialiseCpuid(MaxLeafPolicy(4).(cache := Zeros(NR_CACHE)[0 := Leaf(1, 0, 0, 0)]))| == 9
  {
    var p := MaxLeafPolicy(4).(cache := Zeros(NR_CACHE)[0 := Leaf(1, 0, 0, 0)]);
    FirstUntypedUnique(p.cache, CacheType, 0, 1);
    assert BasicBound(p) == 4 && ExtdBound(p) == 0;
    assert BasicCountUpTo(p, 4) == 6;
    SerialisedCount(p);
  }

  /** Leaf 7 stops at max_subleaf 0: 11 records. */
  lemma EmptyFeatCount()
    ensures |SerialiseCpuid(MaxLeafPolicy(7))| == 11
  {
    var p := MaxLeafPolicy(7);
    FirstUntypedUnique(p.cache, CacheType, 0, 0);
    assert CacheCount(p) == 1 && FeatBound(p) == 0;
    assert BasicBound(p) == 7 && ExtdBound(p) == 0;
    assert BasicCountUpTo(p, 7) == 8;
    SerialisedCount(p);
  }

  /** With max_subleaf 1, leaf 7 has two subleaves: 12 records. */
  lemma PartialFeatCount()
    ensures |SerialiseCpuid(MaxLeafPolicy(7).(feat := Zeros(NR_FEAT)[0 := Leaf(1, 0, 0, 0)]))| == 12
  {
    var p := MaxLeafPolicy(7).(feat := Zeros(NR_FEAT)[0 := Leaf(1, 0, 0, 0)]);
    FirstUntypedUnique(p.cache, CacheType, 0, 0);
    assert CacheCount(p) == 1 && FeatBound(p) == 1;
    assert BasicBound(p) == 7 && ExtdBound(p) == 0;
    assert BasicCountUpTo(p, 7) == 9;
    SerialisedCount(p);
  }

  /** Leaf 0xb stops after its terminator at subleaf 0: 15 records. */
  lemma EmptyTopoCount()
    ensures |SerialiseCpuid(MaxLeafPolicy(0xb))| == 15
  {
    var p := MaxLeafPolicy(0xb);
    FirstUntypedUnique(p.cache, CacheType, 0, 0);
    FirstUntypedUnique(p.topo, TopoType, 0, 0);
    assert CacheCount(p) == 1 && FeatBound(p) == 0 && TopoCount(p) == 1;
    assert BasicBound(p) == 0xb && ExtdBound(p) == 0;
    assert BasicCountUpTo(p, 0xb) == 12;
    SerialisedCount(p);
  }

  /** With subleaf 0 of type 1 (ecx bits 8-15), leaf 0xb runs on to subleaf 1: 16 records. */
  lemma PartialTopoCount()
    ensures |SerialiseCpuid(MaxLeafPolicy(0xb).(topo := Zeros(NR_TOPO)[0 := Leaf(0, 0, 0x100, 0)]))| == 16
  {
    var p := MaxLeafPolicy(0xb).(topo := Zeros(NR_TOPO)[0 := Leaf(0, 0, 0x100, 0)]);
    FirstUntypedUnique(p.cache, CacheType, 0, 0);
    FirstUntypedUnique(p.topo, TopoType, 0, 1);
    assert CacheCount(p) == 1 && FeatBound(p) == 0 && TopoCount(p) == 2;
    assert BasicBound(p) == 0xb && ExtdBound(p) == 0;
    assert BasicCountUpTo(p, 0xb) == 13;
    SerialisedCount(p);
  }

  /** The xstate extent of the test policies, whose only mask bits are xcr0_low = x. */
  lemma XstateEndOf(p: Policy, x: u32)
    requires x == 0 || x == 7
    requires p.xstate[0] == Leaf(x, 0, 0, 0) && p.xstate[1] == ZERO_LEAF
    ensures XstateEnd(p) == if x == 0 then 2 else 3
  {
    assert Xcr0(p) == x && Xss(p) == 0;
    assert BitLength(7) == 3 by {
      assert BitLength(1) == 1;
      assert BitLength(3) == 2;
    }
  }

  /** Leaf 0xd always has subleaves 0 and 1, even with an empty mask: 18 records. */
  lemma EmptyXstateCount()
    ensures |SerialiseCpuid(MaxLeafPolicy(0xd))| == 18
  {
    var p := MaxLeafPolicy(0xd);
    FirstUntypedUnique(p.cache, CacheType, 0, 0);
    FirstUntypedUnique(p.topo, TopoType, 0, 0);
    assert CacheCount(p) == 1 && FeatBound(p) == 0 && TopoCount(p) == 1;
    assert BasicBound(p) == 0xd && ExtdBound(p) == 0;
    XstateEndOf(p, 0);
    assert BasicCountUpTo(p, 0xd) == 15;
    SerialisedCount(p);
  }

  /** With xcr0_low = 7 the highest state bit is 2, so leaf 0xd reaches subleaf 2: 19 records. */
  lemma PartialXstateCount()
    ensures |SerialiseCpuid(MaxLeafPolicy(0xd).(xstate := Zeros(NR_XSTATE)[0 := Leaf(7, 0, 0, 0)]))| == 19
  {
    var p := MaxLeafPolicy(0xd).(xstate := Zeros(NR_XSTATE)[0 := Leaf(7, 0, 0, 0)]);
    FirstUntypedUnique(p.cache, CacheType, 0, 0);
    FirstUntypedUnique(p.topo, TopoType, 0, 0);
    assert CacheCount(p) == 1 && FeatBound(p) == 0 && TopoCount(p) == 1;
    assert BasicBound(p) == 0xd && ExtdBound(p) == 0;
    XstateEndOf(p, 7);
    assert BasicCountUpTo(p, 0xd) == 16;
    SerialisedCount(p);
  }

  // ---- The two operations on buffers ----

  /**
   * leaves_are_sorted: scans adjacent pairs, failing when the leaf goes
   * backwards or, within one leaf, when the subleaf does not increase.
   */
  method LeavesAreSorted(leaves: array<CpuidEntry>, nr: nat) returns (sorted: bool)
    requires nr <= leaves.Length
    ensures sorted == LeavesSorted(leaves[..nr])
  {
    var i := 1;
    while i < nr
      invariant 1 <= i
      invariant forall k :: 0 < k < i && k < nr ==> EntryBefore(leaves[k - 1], leaves[k])
    {
      if leaves[i - 1].leaf > leaves[i].leaf {
        assert !EntryBefore(leaves[..nr][i - 1], leaves[..nr][i]);
        return false;
      }
      if leaves[i - 1].leaf < leaves[i].leaf {
        i := i + 1;
        continue;
      }
      if leaves[i - 1].subleaf >= leaves[i].subleaf {
        assert !EntryBefore(leaves[..nr][i - 1], leaves[..nr][i]);
        return false;
      }
      i := i + 1;
    }
    return true;
  }

  /** Copies s into the front of the buffer, one record at a time, leaving the rest alone. */
  method WritePrefix(leaves: array<CpuidEntry>, s: seq<CpuidEntry>)
    requires |s| <= leaves.Length
    modifies leaves
    ensures leaves[..|s|] == s && leaves[|s|..] == old(leaves[|s|..])
  {
    var i := 0;
    while i < |s|
      invariant 0 <= i <= |s|
      invariant forall k :: 0 <= k < i ==> leaves[k] == s[k]
      invariant forall k :: i <= k < leaves.Length ==> leaves[k] == old(leaves[k])
    {
      leaves[i] := s[i];
      i := i + 1;
    }
  }

  /**
   * x86_cpuid_copy_to_buffer: nr is the caller's capacity.  Either every
   * record fits, and they are written in order with the count returned, or
   * the call fails with -ENOBUFS, writes nothing and reports the count it
   * would need.
   */
  method CopyCpuidToBuffer(p: PolicyRecord, leaves: array<CpuidEntry>, nr: nat) returns (rc: int, count: nat)
    requires p.Valid() && nr <= leaves.Length
    modifies leaves
    ensures count == |SerialiseCpuid(p.Value())|
    ensures rc == 0 <==> count <= nr
    ensures rc != 0 ==> rc == -ENOBUFS && leaves[..] == old(leaves[..])
    ensures rc == 0 ==> leaves[..count] == SerialiseCpuid(p.Value())
                        && leaves[count..] == old(leaves[count..])
  {
    var s := SerialiseCpuid(p.Value());
    count := |s|;
    if count > nr {
      return -ENOBUFS, count;
    }
    WritePrefix(leaves, s);
    rc := 0;
  }
}
