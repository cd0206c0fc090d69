/**
 * Serialising a policy and deserialising the records: every record the
 * serialiser writes is accepted, copying them in reproduces exactly the
 * slots the serialiser reads, and serialising the result again gives the
 * same records.
 */
module CpuidRoundTrip {
  import opened CpuPolicy
  import opened CpuidSerialise
  import opened CpuidDeserialise

  /** The slots x86_cpuid_copy_to_buffer reads from p: what its declared ranges say is populated. */
  predicate Emits(p: Policy, x: Slot)
  {
    var n := BasicBound(p);
    match x
    case BasicSlot(i) => i <= n && i != 4 && i != 7 && i != 0xb && i != 0xd
    case CacheSlot(i) => 4 <= n && i < CacheCount(p)
    case FeatSlot(i) => 7 <= n && i <= FeatBound(p)
    case TopoSlot(i) => 0xb <= n && i < TopoCount(p)
    case XstateSlot(i) => 0xd <= n && i < XstateEnd(p)
    case HvSlot => true
    case Hv2Slot => true
    case ExtdSlot(i) => i <= ExtdBound(p)
  }

  lemma EmitsInRange(p: Policy, x: Slot)
    requires Emits(p, x)
    ensures Addressable(x)
  {
  }

  /** The record the serialiser writes for slot x of p. */
  function RecordFor(p: Policy, x: Slot): CpuidEntry
    requires SlotInRange(x)
  {
    match x
    case BasicSlot(i) => EntryOf(i, NO_SUBLEAF, p.basic[i])
    case CacheSlot(i) => EntryOf(4, i, p.cache[i])
    case FeatSlot(i) => EntryOf(7, i, p.feat[i])
    case TopoSlot(i) => EntryOf(0xb, i, p.topo[i])
    case XstateSlot(i) => EntryOf(0xd, i, p.xstate[i])
    case HvSlot => EntryOf(HV_LEAF, NO_SUBLEAF, Leaf(p.hvLimit, 0, 0, 0))
    case Hv2Slot => EntryOf(HV2_LEAF, NO_SUBLEAF, Leaf(p.hv2Limit, 0, 0, 0))
    case ExtdSlot(i) => EntryOf(EXTD_BASE + i, NO_SUBLEAF, p.extd[i])
  }

  /** e is one of p's emitted slots, with that slot's registers. */
  predicate Describes(p: Policy, e: CpuidEntry)
  {
    && Classify(e).Some?
    && Emits(p, Classify(e).value)
    && Stored(Classify(e).value, Regs(e)) == Get(p, Classify(e).value)
  }

  predicate AllDescribe(p: Policy, s: seq<CpuidEntry>)
  {
    forall k :: 0 <= k < |s| ==> Describes(p, s[k])
  }

  /** No two records name the same slot. */
  predicate DistinctSlots(rs: seq<CpuidEntry>)
    requires AllInRange(rs)
  {
    forall i, j :: 0 <= i < j < |rs| ==> Classify(rs[i]).value != Classify(rs[j]).value
  }

  // ---- Every serialised record describes an emitted slot ----

  lemma AllDescribeConcat(p: Policy, s: seq<CpuidEntry>, t: seq<CpuidEntry>)
    requires AllDescribe(p, s) && AllDescribe(p, t)
    ensures AllDescribe(p, s + t)
  {
    forall k | 0 <= k < |s + t|
      ensures Describes(p, (s + t)[k])
    {
      if k < |s| { assert (s + t)[k] == s[k]; } else { assert (s + t)[k] == t[k - |s|]; }
    }
  }

  lemma CacheDescribes(p: Policy)
    requires 4 <= BasicBound(p)
    ensures AllDescribe(p, LeafBlock(p, 4))
  {
    TerminatedFromIsRun(4, p.cache, CacheType, 0);
    var r := LeafBlock(p, 4);
    forall k | 0 <= k < |r| ensures Describes(p, r[k]) {
      assert r[k] == EntryOf(4, k, p.cache[k]);
      assert Classify(r[k]) == Some(CacheSlot(k));
    }
  }

  lemma FeatDescribes(p: Policy)
    requires 7 <= BasicBound(p)
    ensures AllDescribe(p, LeafBlock(p, 7))
  {
    FeatFromIsRun(p, 0);
    var r := LeafBlock(p, 7);
    forall k | 0 <= k < |r| ensures Describes(p, r[k]) {
      assert r[k] == EntryOf(7, k, p.feat[k]);
      assert Classify(r[k]) == Some(FeatSlot(k));
    }
  }

  lemma TopoDescribes(p: Policy)
    requires 0xb <= BasicBound(p)
    ensures AllDescribe(p, LeafBlock(p, 0xb))
  {
    TerminatedFromIsRun(0xb, p.topo, TopoType, 0);
    var r := LeafBlock(p, 0xb);
    forall k | 0 <= k < |r| ensures Describes(p, r[k]) {
      assert r[k] == EntryOf(0xb, k, p.topo[k]);
      assert Classify(r[k]) == Some(TopoSlot(k));
    }
  }

  lemma XstateDescribes(p: Policy)
    requires 0xd <= BasicBound(p)
    ensures AllDescribe(p, LeafBlock(p, 0xd))
  {
    XstateFromIsRun(p, 0);
    var r := LeafBlock(p, 0xd);
    forall k | 0 <= k < |r| ensures Describes(p, r[k]) {
      assert r[k] == EntryOf(0xd, k, p.xstate[k]);
      assert Classify(r[k]) == Some(XstateSlot(k));
    }
  }

  lemma LeafBlockDescribes(p: Policy, leaf: nat)
    requires leaf <= BasicBound(p)
    ensures AllDescribe(p, LeafBlock(p, leaf))
  {
    if leaf == 4 {
      CacheDescribes(p);
    } else if leaf == 7 {
      FeatDescribes(p);
    } else if leaf == 0xb {
      TopoDescribes(p);
    } else if leaf == 0xd {
      XstateDescribes(p);
    } else {
      assert Classify(LeafBlock(p, leaf)[0]) == Some(BasicSlot(leaf));
    }
  }

  lemma {:induction false} BasicFromDescribes(p: Policy, leaf: nat)
    requires leaf <= BasicBound(p) + 1
    ensures AllDescribe(p, BasicFrom(p, leaf))
    decreases NR_BASIC - leaf
  {
    if leaf <= BasicBound(p) {
      LeafBlockDescribes(p, leaf);
      BasicFromDescribes(p, leaf + 1);
      AllDescribeConcat(p, LeafBlock(p, leaf), BasicFrom(p, leaf + 1));
    }
  }

  /** Every record the serialiser writes is one of p's emitted slots with its registers. */
  lemma SerialisedDescribes(p: Policy)
    ensures AllDescribe(p, SerialiseCpuid(p))
  {
    BasicFromDescribes(p, 0);
    ExtdFromIsRun(p, 0);
    AllDescribeConcat(p, BasicFrom(p, 0), HypervisorLeaves(p));
    AllDescribeConcat(p, BasicFrom(p, 0) + HypervisorLeaves(p), ExtdFrom(p, 0));
  }

  /** The serialiser's output is always accepted by the deserialiser. */
  lemma SerialisedInRange(p: Policy)
    ensures AllInRange(SerialiseCpuid(p))
    ensures FirstOutOfRange(SerialiseCpuid(p), 0) == |SerialiseCpuid(p)|
  {
    SerialisedDescribes(p);
    FirstOutOfRangeIs(SerialiseCpuid(p), |SerialiseCpuid(p)|);
  }

  // ---- Every emitted slot is serialised ----

  lemma {:induction false} InBasicFrom(p: Policy, leaf: nat, j: nat, e: CpuidEntry)
    requires leaf <= j <= BasicBound(p) && e in LeafBlock(p, j)
    ensures e in BasicFrom(p, leaf)
    decreases j - leaf
  {
    if leaf < j {
      InBasicFrom(p, leaf + 1, j, e);
    }
  }

  /** The block of the basic leaf that holds slot x. */
  function BlockOf(x: Slot): nat
    requires x.BasicSlot? || x.CacheSlot? || x.FeatSlot? || x.TopoSlot? || x.XstateSlot?
  {
    match x
    case BasicSlot(i) => i
    case CacheSlot(_) => 4
    case FeatSlot(_) => 7
    case TopoSlot(_) => 0xb
    case XstateSlot(_) => 0xd
  }

  lemma RecordInBlock(p: Policy, x: Slot)
    requires Emits(p, x) && (x.BasicSlot? || x.CacheSlot? || x.FeatSlot? || x.TopoSlot? || x.XstateSlot?)
    ensures SlotInRange(x) && BlockOf(x) <= BasicBound(p) && RecordFor(p, x) in LeafBlock(p, BlockOf(x))
  {
    match x
    case BasicSlot(i) =>
    case CacheSlot(i) =>
      TerminatedFromIsRun(4, p.cache, CacheType, 0);
      assert RecordFor(p, x) == LeafBlock(p, 4)[i];
    case FeatSlot(i) =>
      FeatFromIsRun(p, 0);
      assert RecordFor(p, x) == LeafBlock(p, 7)[i];
    case TopoSlot(i) =>
      TerminatedFromIsRun(0xb, p.topo, TopoType, 0);
      assert RecordFor(p, x) == LeafBlock(p, 0xb)[i];
    case XstateSlot(i) =>
      XstateFromIsRun(p, 0);
      assert RecordFor(p, x) == LeafBlock(p, 0xd)[i];
  }

  /** Every emitted slot has its record in the serialisation. */
  lemma EmittedIsSerialised(p: Policy, x: Slot)
    requires Emits(p, x)
    ensures SlotInRange(x) && RecordFor(p, x) in SerialiseCpuid(p)
  {
    var s := SerialiseCpuid(p);
    assert s == BasicFrom(p, 0) + HypervisorLeaves(p) + ExtdFrom(p, 0);
    if x.HvSlot? || x.Hv2Slot? {
      assert RecordFor(p, x) in HypervisorLeaves(p);
    } else if x.ExtdSlot? {
      ExtdFromIsRun(p, 0);
      assert RecordFor(p, x) == ExtdFrom(p, 0)[x.i];
    } else {
      RecordInBlock(p, x);
      InBasicFrom(p, 0, BlockOf(x), RecordFor(p, x));
    }
  }

  // ---- Distinct slots ----

  /** Two records naming the same slot have the same (leaf, subleaf). */
  lemma ClassifyInjective(e: CpuidEntry, f: CpuidEntry)
    requires Classify(e).Some? && Classify(e) == Classify(f)
    ensures e.leaf == f.leaf && e.subleaf == f.subleaf
  {
  }

  lemma {:induction false} SortedIsOrdered(s: seq<CpuidEntry>, i: nat, j: nat)
    requires LeavesSorted(s) && i < j < |s|
    ensures EntryBefore(s[i], s[j])
    decreases j - i
  {
    if i + 1 < j {
      SortedIsOrdered(s, i + 1, j);
    }
  }

  /** No slot is written twice when the serialised records are copied in. */
  lemma SerialisedDistinct(p: Policy)
    ensures AllInRange(SerialiseCpuid(p)) && DistinctSlots(SerialiseCpuid(p))
  {
    var s := SerialiseCpuid(p);
    SerialisedInRange(p);
    SerialisedSorted(p);
    forall i, j | 0 <= i < j < |s|
      ensures Classify(s[i]).value != Classify(s[j]).value
    {
      SortedIsOrdered(s, i, j);
      if Classify(s[i]) == Classify(s[j]) {
        ClassifyInjective(s[i], s[j]);
      }
    }
  }

  // ---- What copying the records in does to each slot ----

  lemma {:induction false} ApplyAllGet(q: Policy, rs: seq<CpuidEntry>, x: Slot)
    requires AllInRange(rs) && DistinctSlots(rs) && SlotInRange(x)
    ensures (forall e :: e in rs ==> Classify(e) != Some(x)) ==> Get(ApplyAll(q, rs), x) == Get(q, x)
    ensures forall e :: e in rs && Classify(e) == Some(x) ==> Get(ApplyAll(q, rs), x) == Stored(x, Regs(e))
  {
    if rs != [] {
      var init, last := rs[..|rs| - 1], rs[|rs| - 1];
      assert rs == init + [last];
      assert AllInRange(init) && DistinctSlots(init);
      ApplyAllGet(q, init, x);
      forall e | e in init
        ensures Classify(e).value != Classify(last).value
      {
        var i :| 0 <= i < |init| && init[i] == e;
        assert rs[i] == e;
      }
    }
  }

  // ---- The content the serialiser reads determines its output ----

  /** p' holds the same registers as p in every slot p emits. */
  ghost predicate AgreesOnEmitted(p: Policy, p': Policy)
  {
    forall x :: Emits(p, x) ==> SlotInRange(x) && Get(p', x) == Get(p, x)
  }

  lemma TerminatedCountAgree(raw: seq<Leaf>, raw': seq<Leaf>, typeOf: Leaf -> nat)
    requires |raw| == |raw'|
    requires forall i :: 0 <= i < TerminatedCount(raw, typeOf) ==> raw'[i] == raw[i]
    ensures TerminatedCount(raw', typeOf) == TerminatedCount(raw, typeOf)
  {
    var e := FirstUntyped(raw, typeOf, 0);
    FirstUntypedUnique(raw', typeOf, 0, e);
  }

  lemma CacheAgree(p: Policy, p': Policy)
    requires AgreesOnEmitted(p, p') && 4 <= BasicBound(p)
    ensures LeafBlock(p', 4) == LeafBlock(p, 4)
  {
    forall i | 0 <= i < CacheCount(p) ensures p'.cache[i] == p.cache[i] {
      assert Emits(p, CacheSlot(i));
    }
    TerminatedCountAgree(p.cache, p'.cache, CacheType);
    TerminatedFromIsRun(4, p.cache, CacheType, 0);
    TerminatedFromIsRun(4, p'.cache, CacheType, 0);
  }

  lemma FeatAgree(p: Policy, p': Policy)
    requires AgreesOnEmitted(p, p') && 7 <= BasicBound(p)
    ensures LeafBlock(p', 7) == LeafBlock(p, 7)
  {
    assert Emits(p, FeatSlot(0));
    forall i | 0 <= i <= FeatBound(p) ensures p'.feat[i] == p.feat[i] {
      assert Emits(p, FeatSlot(i));
    }
    FeatFromIsRun(p, 0);
    FeatFromIsRun(p', 0);
  }

  lemma TopoAgree(p: Policy, p': Policy)
    requires AgreesOnEmitted(p, p') && 0xb <= BasicBound(p)
    ensures LeafBlock(p', 0xb) == LeafBlock(p, 0xb)
  {
    forall i | 0 <= i < TopoCount(p) ensures p'.topo[i] == p.topo[i] {
      assert Emits(p, TopoSlot(i));
    }
    TerminatedCountAgree(p.topo, p'.topo, TopoType);
    TerminatedFromIsRun(0xb, p.topo, TopoType, 0);
    TerminatedFromIsRun(0xb, p'.topo, TopoType, 0);
  }

  lemma XstateAgree(p: Policy, p': Policy)
    requires AgreesOnEmitted(p, p') && 0xd <= BasicBound(p)
    ensures LeafBlock(p', 0xd) == LeafBlock(p, 0xd)
  {
    assert Emits(p, XstateSlot(0)) && Emits(p, XstateSlot(1));
    assert Xcr0(p') == Xcr0(p) && Xss(p') == Xss(p);
    assert XstateEnd(p') == XstateEnd(p);
    forall i | 0 <= i < XstateEnd(p) ensures p'.xstate[i] == p.xstate[i] {
      assert Emits(p, XstateSlot(i));
    }
    XstateFromIsRun(p, 0);
    XstateFromIsRun(p', 0);
  }

  lemma LeafBlockAgree(p: Policy, p': Policy, leaf: nat)
    requires AgreesOnEmitted(p, p') && leaf <= BasicBound(p)
    ensures LeafBlock(p', leaf) == LeafBlock(p, leaf)
  {
    if leaf == 4 {
      CacheAgree(p, p');
    } else if leaf == 7 {
      FeatAgree(p, p');
    } else if leaf == 0xb {
      TopoAgree(p, p');
    } else if leaf == 0xd {
      XstateAgree(p, p');
    } else {
      assert Emits(p, BasicSlot(leaf));
    }
  }

  lemma {:induction false} BasicFromAgree(p: Policy, p': Policy, leaf: nat)
    requires AgreesOnEmitted(p, p') && BasicBound(p') == BasicBound(p) && leaf <= BasicBound(p) + 1
    ensures BasicFrom(p', leaf) == BasicFrom(p, leaf)
    decreases NR_BASIC - leaf
  {
    if leaf <= BasicBound(p) {
      LeafBlockAgree(p, p', leaf);
      BasicFromAgree(p, p', leaf + 1);
    }
  }

  /** The serialisation reads nothing but the emitted slots. */
  lemma SerialiseAgree(p: Policy, p': Policy)
    requires AgreesOnEmitted(p, p')
    ensures SerialiseCpuid(p') == SerialiseCpuid(p)
  {
    assert Emits(p, BasicSlot(0)) && Emits(p, ExtdSlot(0)) && Emits(p, HvSlot) && Emits(p, Hv2Slot);
    BasicFromAgree(p, p', 0);
    forall i | 0 <= i <= ExtdBound(p) ensures p'.extd[i] == p.extd[i] {
      assert Emits(p, ExtdSlot(i));
    }
    ExtdFromIsRun(p, 0);
    ExtdFromIsRun(p', 0);
  }

  // ---- The round trips ----

  /** The record written for any addressable slot is classified back to that slot. */
  lemma ClassifyRecordFor(p: Policy, x: Slot)
    requires Addressable(x)
    ensures Classify(RecordFor(p, x)) == Some(x)
  {
    ClassifyAccepts(RecordFor(p, x), x);
  }

  /** An emitted slot receives p's registers. */
  lemma EmittedSlotCopied(q: Policy, p: Policy, x: Slot)
    requires Emits(p, x)
    ensures SlotInRange(x) && AllInRange(SerialiseCpuid(p))
    ensures Get(ApplyAll(q, SerialiseCpuid(p)), x) == Get(p, x)
  {
    var s := SerialiseCpuid(p);
    EmitsInRange(p, x);
    SerialisedDistinct(p);
    SerialisedDescribes(p);
    EmittedIsSerialised(p, x);
    ClassifyRecordFor(p, x);
    var e := RecordFor(p, x);
    var k :| 0 <= k < |s| && s[k] == e;
    assert Describes(p, s[k]);
    assert Stored(x, Regs(e)) == Get(p, x);
    ApplyAllGet(q, s, x);
  }

  /** A slot p does not emit keeps q's registers. */
  lemma UnemittedSlotKept(q: Policy, p: Policy, x: Slot)
    requires SlotInRange(x) && !Emits(p, x)
    ensures AllInRange(SerialiseCpuid(p))
    ensures Get(ApplyAll(q, SerialiseCpuid(p)), x) == Get(q, x)
  {
    var s := SerialiseCpuid(p);
    SerialisedDistinct(p);
    SerialisedDescribes(p);
    forall e | e in s ensures Classify(e) != Some(x) {
      var k :| 0 <= k < |s| && s[k] == e;
      assert Describes(p, s[k]);
    }
    ApplyAllGet(q, s, x);
  }

  /**
   * Copying p's serialisation into any record q sets exactly the slots p
   * emits to p's registers; every other slot, and the MSR fields, keep q's.
   */
  lemma DeserialiseSerialised(q: Policy, p: Policy)
    ensures AllInRange(SerialiseCpuid(p))
    ensures var r := ApplyAll(q, SerialiseCpuid(p));
            && (forall x :: SlotInRange(x) ==> Get(r, x) == if Emits(p, x) then Get(p, x) else Get(q, x))
            && r.platformInfo == q.platformInfo && r.archCaps == q.archCaps
  {
    SerialisedInRange(p);
    forall x | SlotInRange(x)
      ensures Get(ApplyAll(q, SerialiseCpuid(p)), x) == if Emits(p, x) then Get(p, x) else Get(q, x)
    {
      if Emits(p, x) {
        EmittedSlotCopied(q, p, x);
      } else {
        UnemittedSlotKept(q, p, x);
      }
    }
  }

  /** Deserialising p's records into any record and serialising again gives p's records back. */
  lemma ReserialiseRoundTrip(q: Policy, p: Policy)
    ensures AllInRange(SerialiseCpuid(p))
    ensures SerialiseCpuid(ApplyAll(q, SerialiseCpuid(p))) == SerialiseCpuid(p)
  {
    DeserialiseSerialised(q, p);
    var r := ApplyAll(q, SerialiseCpuid(p));
    forall x | Emits(p, x) ensures SlotInRange(x) && Get(r, x) == Get(p, x) {
      EmitsInRange(p, x);
    }
    SerialiseAgree(p, r);
  }

  /** Every slot that p does not emit is zero: the serialisation loses nothing of p. */
  ghost predicate HoldsOnlyEmitted(p: Policy)
  {
    forall x :: SlotInRange(x) && !Emits(p, x) ==> Get(p, x) == ZERO_LEAF
  }

  /** Two policies with the same registers in every slot and the same MSR fields are equal. */
  lemma PolicyExtensionality(p: Policy, q: Policy)
    requires forall x :: SlotInRange(x) ==> Get(p, x) == Get(q, x)
    requires p.platformInfo == q.platformInfo && p.archCaps == q.archCaps
    ensures p == q
  {
    forall i | 0 <= i < NR_BASIC ensures p.basic[i] == q.basic[i] { assert Get(p, BasicSlot(i)) == Get(q, BasicSlot(i)); }
    forall i | 0 <= i < NR_CACHE ensures p.cache[i] == q.cache[i] { assert Get(p, CacheSlot(i)) == Get(q, CacheSlot(i)); }
    forall i | 0 <= i < NR_FEAT ensures p.feat[i] == q.feat[i] { assert Get(p, FeatSlot(i)) == Get(q, FeatSlot(i)); }
    forall i | 0 <= i < NR_TOPO ensures p.topo[i] == q.topo[i] { assert Get(p, TopoSlot(i)) == Get(q, TopoSlot(i)); }
    forall i | 0 <= i < NR_XSTATE ensures p.xstate[i] == q.xstate[i] { assert Get(p, XstateSlot(i)) == Get(q, XstateSlot(i)); }
    forall i | 0 <= i < NR_EXTD ensures p.extd[i] == q.extd[i] { assert Get(p, ExtdSlot(i)) == Get(q, ExtdSlot(i)); }
    assert Get(p, HvSlot) == Get(q, HvSlot) && Get(p, Hv2Slot) == Get(q, Hv2Slot);
  }

  /**
   * For a policy holding nothing outside its declared ranges, deserialising
   * its serialisation into the empty policy reproduces it, apart from the
   * MSR fields, which CPUID records do not carry.
   */
  lemma SerialiseRoundTrip(p: Policy)
    requires HoldsOnlyEmitted(p)
    ensures AllInRange(SerialiseCpuid(p))
    ensures ApplyAll(EmptyPolicy(), SerialiseCpuid(p)) == p.(platformInfo := 0, archCaps := 0)
  {
    var e: Policy := EmptyPolicy();
    DeserialiseSerialised(e, p);
    var r := ApplyAll(e, SerialiseCpuid(p));
    var p0: Policy := p.(platformInfo := 0, archCaps := 0);
    forall x | SlotInRange(x) ensures Get(r, x) == Get(p0, x) {
      assert Get(e, x) == ZERO_LEAF;
    }
    PolicyExtensionality(r, p0);
  }
}
