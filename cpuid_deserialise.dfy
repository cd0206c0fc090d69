/**
 * x86_cpuid_copy_from_buffer: wire records back into a policy record.  Each
 * record names a slot of the record by (leaf, subleaf); the whole buffer is
 * checked first, and only a buffer whose every record names a slot is
 * copied in.
 */
module CpuidDeserialise {
  import opened CpuPolicy
  import opened CpuidSerialise

  /** A place in the record that one leaf/subleaf occupies. */
  datatype Slot =
    | BasicSlot(i: nat)
    | CacheSlot(i: nat)
    | FeatSlot(i: nat)
    | TopoSlot(i: nat)
    | XstateSlot(i: nat)
    | HvSlot
    | Hv2Slot
    | ExtdSlot(i: nat)

  predicate SlotInRange(x: Slot)
  {
    match x
    case BasicSlot(i) => i < NR_BASIC
    case CacheSlot(i) => i < NR_CACHE
    case FeatSlot(i) => i < NR_FEAT
    case TopoSlot(i) => i < NR_TOPO
    case XstateSlot(i) => i < NR_XSTATE
    case HvSlot => true
    case Hv2Slot => true
    case ExtdSlot(i) => i < NR_EXTD
  }

  /** The leaf number a slot answers to. */
  function SlotLeaf(x: Slot): nat
  {
    match x
    case BasicSlot(i) => i
    case CacheSlot(_) => 4
    case FeatSlot(_) => 7
    case TopoSlot(_) => 0xb
    case XstateSlot(_) => 0xd
    case HvSlot => HV_LEAF
    case Hv2Slot => HV2_LEAF
    case ExtdSlot(i) => EXTD_BASE + i
  }

  /** The subleaf a slot answers to: its index in a subleaf family, else the marker. */
  function SlotSubleaf(x: Slot): nat
  {
    match x
    case CacheSlot(i) => i
    case FeatSlot(i) => i
    case TopoSlot(i) => i
    case XstateSlot(i) => i
    case _ => NO_SUBLEAF
  }

  /**
   * The basic slots of the four subleaf families: their registers are held
   * by subleaf 0 of the family, so no record is copied into them directly.
   */
  predicate SubleafHead(x: Slot)
  {
    x == BasicSlot(4) || x == BasicSlot(7) || x == BasicSlot(0xb) || x == BasicSlot(0xd)
  }

  /** The slots a record can be copied into. */
  predicate Addressable(x: Slot)
  {
    SlotInRange(x) && !SubleafHead(x)
  }

  /**
   * The slot a record is copied into, or None when its (leaf, subleaf) is out
   * of range: leaves 4, 7, 0xb and 0xd take a subleaf below their family's
   * capacity; every other basic leaf, both hypervisor leaves and the
   * extended leaves take only the no-subleaf marker.
   */
  function Classify(e: CpuidEntry): (x: Option<Slot>)
    ensures x.Some? ==> Addressable(x.value)
    ensures x.Some? ==> SlotLeaf(x.value) == e.leaf && SlotSubleaf(x.value) == e.subleaf
  {
    if e.leaf < NR_BASIC then
      if e.leaf == 4 then (if e.subleaf < NR_CACHE then Some(CacheSlot(e.subleaf)) else None)
      else if e.leaf == 7 then (if e.subleaf < NR_FEAT then Some(FeatSlot(e.subleaf)) else None)
      else if e.leaf == 0xb then (if e.subleaf < NR_TOPO then Some(TopoSlot(e.subleaf)) else None)
      else if e.leaf == 0xd then (if e.subleaf < NR_XSTATE then Some(XstateSlot(e.subleaf)) else None)
      else if e.subleaf == NO_SUBLEAF then Some(BasicSlot(e.leaf))
      else None
    else if e.leaf == HV_LEAF then (if e.subleaf == NO_SUBLEAF then Some(HvSlot) else None)
    else if e.leaf == HV2_LEAF then (if e.subleaf == NO_SUBLEAF then Some(Hv2Slot) else None)
    else if EXTD_BASE <= e.leaf < EXTD_BASE + NR_EXTD then
      (if e.subleaf == NO_SUBLEAF then Some(ExtdSlot(e.leaf - EXTD_BASE)) else None)
    else None
  }

  /** The registers a slot holds; the hypervisor slots hold only their limit. */
  function Get(p: Policy, x: Slot): Leaf
    requires SlotInRange(x)
  {
    match x
    case BasicSlot(i) => p.basic[i]
    case CacheSlot(i) => p.cache[i]
    case FeatSlot(i) => p.feat[i]
    case TopoSlot(i) => p.topo[i]
    case XstateSlot(i) => p.xstate[i]
    case HvSlot => Leaf(p.hvLimit, 0, 0, 0)
    case Hv2Slot => Leaf(p.hv2Limit, 0, 0, 0)
    case ExtdSlot(i) => p.extd[i]
  }

  /** What a slot holds once registers l are written to it: a hypervisor slot keeps only eax. */
  function Stored(x: Slot, l: Leaf): Leaf
  {
    if x.HvSlot? || x.Hv2Slot? then Leaf(l.a, 0, 0, 0) else l
  }

  /** The record with one slot overwritten. */
  function Store(p: Policy, x: Slot, l: Leaf): (q: Policy)
    requires SlotInRange(x)
    ensures Get(q, x) == Stored(x, l)
    ensures forall y :: SlotInRange(y) && y != x ==> Get(q, y) == Get(p, y)
    ensures q.platformInfo == p.platformInfo && q.archCaps == p.archCaps
  {
    match x
    case BasicSlot(i) => p.(basic := p.basic[i := l])
    case CacheSlot(i) => p.(cache := p.cache[i := l])
    case FeatSlot(i) => p.(feat := p.feat[i := l])
    case TopoSlot(i) => p.(topo := p.topo[i := l])
    case XstateSlot(i) => p.(xstate := p.xstate[i := l])
    case HvSlot => p.(hvLimit := l.a)
    case Hv2Slot => p.(hv2Limit := l.a)
    case ExtdSlot(i) => p.(extd := p.extd[i := l])
  }

  function Regs(e: CpuidEntry): Leaf
  {
    Leaf(e.a, e.b, e.c, e.d)
  }

  /** Every record names a slot. */
  predicate AllInRange(rs: seq<CpuidEntry>)
  {
    forall k :: 0 <= k < |rs| ==> Classify(rs[k]).Some?
  }

  /** The records copied in, in order; a later record for the same slot wins. */
  function ApplyAll(q: Policy, rs: seq<CpuidEntry>): (r: Policy)
    requires AllInRange(rs)
    ensures r.platformInfo == q.platformInfo && r.archCaps == q.archCaps
  {
    if rs == [] then q
    else Store(ApplyAll(q, rs[..|rs| - 1]), Classify(rs[|rs| - 1]).value, Regs(rs[|rs| - 1]))
  }

  /** The index of the first record that names no slot, or |rs| when there is none. */
  function FirstOutOfRange(rs: seq<CpuidEntry>, i: nat): (k: nat)
    requires i <= |rs|
    ensures i <= k <= |rs|
    ensures forall j :: i <= j < k ==> Classify(rs[j]).Some?
    ensures k < |rs| ==> Classify(rs[k]).None?
    decreases |rs| - i
  {
    if i == |rs| || Classify(rs[i]).None? then i else FirstOutOfRange(rs, i + 1)
  }

  /** Copying one record in: the slot it names is set and nothing else in the record changes. */
  method StoreEntry(dst: PolicyRecord, x: Slot, l: Leaf)
    requires dst.Valid() && SlotInRange(x)
    modifies dst, dst.basic, dst.cache, dst.feat, dst.topo, dst.xstate, dst.extd
    ensures dst.Valid() && dst.SameArrays()
    ensures dst.Value() == Store(old(dst.Value()), x, l)
  {
    match x
    case BasicSlot(i) => dst.basic[i] := l;
    case CacheSlot(i) => dst.cache[i] := l;
    case FeatSlot(i) => dst.feat[i] := l;
    case TopoSlot(i) => dst.topo[i] := l;
    case XstateSlot(i) => dst.xstate[i] := l;
    case HvSlot => dst.hvLimit := l.a;
    case Hv2Slot => dst.hv2Limit := l.a;
    case ExtdSlot(i) => dst.extd[i] := l;
  }

  /** The validation pass: the index of the first record that names no slot, or nr. */
  method FindOutOfRange(leaves: array<CpuidEntry>, nr: nat) returns (k: nat)
    requires nr <= leaves.Length
    ensures k == FirstOutOfRange(leaves[..nr], 0)
  {
    ghost var rs := leaves[..nr];
    k := 0;
    while k < nr
      invariant 0 <= k <= nr
      invariant forall j :: 0 <= j < k ==> Classify(rs[j]).Some?
    {
      if Classify(leaves[k]).None? {
        assert rs[k] == leaves[k];
        FirstOutOfRangeIs(rs, k);
        return;
      }
      k := k + 1;
    }
    FirstOutOfRangeIs(rs, nr);
  }

  /** The commit pass: every record copied into the destination, in order. */
  method CommitLeaves(dst: PolicyRecord, leaves: array<CpuidEntry>, nr: nat)
    requires nr <= leaves.Length && dst.Valid() && AllInRange(leaves[..nr])
    modifies dst, dst.basic, dst.cache, dst.feat, dst.topo, dst.xstate, dst.extd
    ensures dst.Valid() && dst.SameArrays()
    ensures dst.Value() == ApplyAll(old(dst.Value()), leaves[..nr])
  {
    ghost var rs := leaves[..nr];
    ghost var q := dst.Value();
    var i := 0;
    while i < nr
      invariant 0 <= i <= nr
      invariant dst.Valid() && dst.SameArrays()
      invariant AllInRange(rs[..i])
      invariant dst.Value() == ApplyAll(q, rs[..i])
    {
      var e := leaves[i];
      assert e == rs[i];
      var x := Classify(e);
      assert rs[..i + 1][..i] == rs[..i] && rs[..i + 1][i] == e;
      StoreEntry(dst, x.value, Regs(e));
      i := i + 1;
    }
    assert rs[..nr] == rs;
  }

  /**
   * x86_cpuid_copy_from_buffer over the first nr records.  On the first
   * record that names no slot: -ERANGE, its (leaf, subleaf) reported, and the
   * destination untouched.  Otherwise 0, both error coordinates left at ~0,
   * and every record copied into the destination in order.  A null
   * destination only validates.
   */
  method CopyCpuidFromBuffer(dst: PolicyRecord?, leaves: array<CpuidEntry>, nr: nat)
    returns (rc: int, errLeaf: u32, errSubleaf: u32)
    requires nr <= leaves.Length
    requires dst != null ==> dst.Valid()
    modifies if dst == null then {} else {dst, dst.basic, dst.cache, dst.feat, dst.topo, dst.xstate, dst.extd}
    ensures dst != null ==> dst.Valid() && dst.SameArrays()
    ensures var k := FirstOutOfRange(leaves[..nr], 0);
            if k < nr then
              && rc == -ERANGE && errLeaf == leaves[k].leaf && errSubleaf == leaves[k].subleaf
              && (dst != null ==> dst.Value() == old(dst.Value()))
            else
              && rc == 0 && errLeaf == 0xffff_ffff && errSubleaf == 0xffff_ffff
              && (dst != null ==> dst.Value() == ApplyAll(old(dst.Value()), leaves[..nr]))
  {
    var k := FindOutOfRange(leaves, nr);
    if k < nr {
      return -ERANGE, leaves[k].leaf, leaves[k].subleaf;
    }
    if dst != null {
      CommitLeaves(dst, leaves, nr);
    }
    return 0, 0xffff_ffff, 0xffff_ffff;
  }

  /** FirstOutOfRange is the first index whose record names no slot. */
  lemma {:induction false} FirstOutOfRangeIs(rs: seq<CpuidEntry>, k: nat)
    requires k <= |rs|
    requires forall j :: 0 <= j < k ==> Classify(rs[j]).Some?
    requires k < |rs| ==> Classify(rs[k]).None?
    ensures FirstOutOfRange(rs, 0) == k
  {
    FirstFrom(rs, 0, k);
  }

  lemma {:induction false} FirstFrom(rs: seq<CpuidEntry>, i: nat, k: nat)
    requires i <= k <= |rs|
    requires forall j :: i <= j < k ==> Classify(rs[j]).Some?
    requires k < |rs| ==> Classify(rs[k]).None?
    ensures FirstOutOfRange(rs, i) == k
    decreases k - i
  {
    if i < k {
      FirstFrom(rs, i + 1, k);
    }
  }

  // ---- Which records are accepted ----

  /** Every addressable slot is reached by the record carrying its (leaf, subleaf). */
  lemma ClassifyAccepts(e: CpuidEntry, x: Slot)
    requires Addressable(x)
    requires e.leaf == SlotLeaf(x) && e.subleaf == SlotSubleaf(x)
    ensures Classify(e) == Some(x)
  {
  }

  /**
   * The -ERANGE rule: a record is out of range exactly when its (leaf,
   * subleaf) is the address of no slot the record has.
   */
  lemma ClassifyRejects(e: CpuidEntry)
    ensures Classify(e).None? <==>
      forall x :: Addressable(x) ==> SlotLeaf(x) != e.leaf || SlotSubleaf(x) != e.subleaf
  {
    if Classify(e).None? {
      forall x | Addressable(x)
        ensures SlotLeaf(x) != e.leaf || SlotSubleaf(x) != e.subleaf
      {
        if SlotLeaf(x) == e.leaf && SlotSubleaf(x) == e.subleaf {
          ClassifyAccepts(e, x);
        }
      }
    }
  }

  // ---- The deserialise-failure table of the unit tests ----

  /** A lone record with all registers zero. */
  function Probe(leaf: u32, subleaf: u32): CpuidEntry
  {
    CpuidEntry(leaf, subleaf, 0, 0, 0, 0)
  }

  /** Subleaf 0 on a leaf without subleaves is out of range: the marker is not 0. */
  lemma SubleafOnPlainLeafRejected()
    ensures Classify(Probe(0, 0)).None?
    ensures Classify(Probe(HV_LEAF, 0)).None?
    ensures Classify(Probe(HV2_LEAF, 0)).None?
    ensures Classify(Probe(EXTD_BASE, 0)).None?
  {
  }

  /** One past the end of each family's capacity is out of range. */
  lemma CapacityBoundsRejected()
    ensures Classify(Probe(NR_BASIC, 0)).None?
    ensures Classify(Probe(4, NR_CACHE)).None?
    ensures Classify(Probe(7, NR_FEAT)).None?
    ensures Classify(Probe(0xb, NR_TOPO)).None?
    ensures Classify(Probe(0xd, NR_XSTATE)).None?
    ensures Classify(Probe(EXTD_BASE + NR_EXTD, 0)).None?
  {
  }

  /** The last slot of each family is accepted. */
  lemma CapacityLimitsAccepted()
    ensures Classify(Probe(0, NO_SUBLEAF)) == Some(BasicSlot(0))
    ensures Classify(Probe(HV_LEAF, NO_SUBLEAF)) == Some(HvSlot)
    ensures Classify(Probe(HV2_LEAF, NO_SUBLEAF)) == Some(Hv2Slot)
    ensures Classify(Probe(4, NR_CACHE - 1)) == Some(CacheSlot(NR_CACHE - 1))
    ensures Classify(Probe(7, NR_FEAT - 1)) == Some(FeatSlot(NR_FEAT - 1))
    ensures Classify(Probe(0xb, NR_TOPO - 1)) == Some(TopoSlot(NR_TOPO - 1))
    ensures Classify(Probe(0xd, NR_XSTATE - 1)) == Some(XstateSlot(NR_XSTATE - 1))
    ensures Classify(Probe(EXTD_BASE + NR_EXTD - 1, NO_SUBLEAF)) == Some(ExtdSlot(NR_EXTD - 1))
  {
  }
}
