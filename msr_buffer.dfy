/**
 * x86_msr_copy_to_buffer / x86_msr_copy_from_buffer: the MSR half of the
 * policy as (index, flags, value) records, and the unit tests' check
 * msrs_are_sorted.
 */
module MsrBuffer {
  import opened CpuPolicy

  /** xen_msr_entry_t. */
  datatype MsrEntry = MsrEntry(idx: u32, flags: u32, val: u64)

  const MSR_INTEL_PLATFORM_INFO: u32 := 0xce
  const MSR_ARCH_CAPABILITIES: u32 := 0x10a

  /** Both MSRs the policy carries are held in 32-bit fields. */
  const MSR_FIELD_LIMIT: int := 0x1_0000_0000

  /** MSR_MAX_SERIALISED_ENTRIES: one record per MSR the policy carries. */
  const MSR_MAX_SERIALISED_ENTRIES: nat := 2

  /**
   * The records the serialiser writes: one per MSR the policy carries, in
   * strictly ascending index order, each acceptable to the deserialiser.
   */
  function SerialiseMsrs(p: Policy): (r: seq<MsrEntry>)
    ensures |r| == MSR_MAX_SERIALISED_ENTRIES
    ensures MsrsStrictlyAscending(r) && MsrsSorted(r)
    ensures AllMsrsValid(r)
  {
    [MsrEntry(MSR_INTEL_PLATFORM_INFO, 0, p.platformInfo),
     MsrEntry(MSR_ARCH_CAPABILITIES, 0, p.archCaps)]
  }

  /** msrs_are_sorted: the index never goes backwards (equal indices pass). */
  predicate MsrsSorted(s: seq<MsrEntry>)
  {
    forall i :: 0 < i < |s| ==> s[i - 1].idx <= s[i].idx
  }

  /** The index strictly increases: no MSR appears twice. */
  predicate MsrsStrictlyAscending(s: seq<MsrEntry>)
  {
    forall i :: 0 < i < |s| ==> s[i - 1].idx < s[i].idx
  }

  /**
   * The check one record must pass, in order: a known index (else -ERANGE),
   * zero flags (else -EINVAL), a value that fits the MSR's field (else
   * -EOVERFLOW).  0 when the record is acceptable.
   */
  function MsrError(e: MsrEntry): (rc: int)
    ensures rc == 0 || rc == -ERANGE || rc == -EINVAL || rc == -EOVERFLOW
    ensures rc == -ERANGE <==> e.idx != MSR_INTEL_PLATFORM_INFO && e.idx != MSR_ARCH_CAPABILITIES
    ensures rc == -EINVAL <==>
              (e.idx == MSR_INTEL_PLATFORM_INFO || e.idx == MSR_ARCH_CAPABILITIES) && e.flags != 0
    ensures rc == -EOVERFLOW <==>
              (e.idx == MSR_INTEL_PLATFORM_INFO || e.idx == MSR_ARCH_CAPABILITIES) && e.flags == 0
              && e.val >= MSR_FIELD_LIMIT
    ensures rc == 0 <==> (e.idx == MSR_INTEL_PLATFORM_INFO || e.idx == MSR_ARCH_CAPABILITIES)
                         && e.flags == 0 && e.val < MSR_FIELD_LIMIT
  {
    if e.idx != MSR_INTEL_PLATFORM_INFO && e.idx != MSR_ARCH_CAPABILITIES then -ERANGE
    else if e.flags != 0 then -EINVAL
    else if e.val >= MSR_FIELD_LIMIT then -EOVERFLOW
    else 0
  }

  predicate AllMsrsValid(rs: seq<MsrEntry>)
  {
    forall k :: 0 <= k < |rs| ==> MsrError(rs[k]) == 0
  }

  /** The index of the first unacceptable record, or |rs|. */
  function FirstBadMsr(rs: seq<MsrEntry>, i: nat): (k: nat)
    requires i <= |rs|
    ensures i <= k <= |rs|
    ensures forall j :: i <= j < k ==> MsrError(rs[j]) == 0
    ensures k < |rs| ==> MsrError(rs[k]) != 0
    decreases |rs| - i
  {
    if i == |rs| || MsrError(rs[i]) != 0 then i else FirstBadMsr(rs, i + 1)
  }

  /** The policy with one accepted record copied in. */
  function ApplyMsr(p: Policy, e: MsrEntry): (q: Policy)
    requires MsrError(e) == 0
  {
    if e.idx == MSR_INTEL_PLATFORM_INFO then p.(platformInfo := e.val) else p.(archCaps := e.val)
  }

  /** Every record copied in, in order; only the two MSR fields change. */
  function ApplyMsrs(p: Policy, rs: seq<MsrEntry>): (q: Policy)
    requires AllMsrsValid(rs)
    ensures q == p.(platformInfo := q.platformInfo, archCaps := q.archCaps)
  {
    if rs == [] then p
    else ApplyMsr(ApplyMsrs(p, rs[..|rs| - 1]), rs[|rs| - 1])
  }

  // ---- Properties ----

  /** Copying p's MSR records into q gives q with p's MSRs and nothing else changed. */
  lemma MsrRoundTrip(q: Policy, p: Policy)
    ensures AllMsrsValid(SerialiseMsrs(p))
    ensures ApplyMsrs(q, SerialiseMsrs(p)) == q.(platformInfo := p.platformInfo, archCaps := p.archCaps)
  {
    var s := SerialiseMsrs(p);
    assert s[..1][..0] == [] && s[..|s| - 1] == s[..1];
    assert ApplyMsrs(q, s[..1]) == ApplyMsr(q, s[0]);
    assert ApplyMsrs(q, s) == ApplyMsr(ApplyMsr(q, s[0]), s[1]);
  }

  /** rs has no record for MSR idx after position k. */
  predicate LastFor(rs: seq<MsrEntry>, k: nat)
    requires k < |rs|
  {
    forall j :: k < j < |rs| ==> rs[j].idx != rs[k].idx
  }

  /** A later record for the same MSR wins: the last record for an MSR gives its value. */
  lemma {:induction false} ApplyMsrsLastWins(p: Policy, rs: seq<MsrEntry>, k: nat)
    requires AllMsrsValid(rs) && k < |rs| && LastFor(rs, k)
    ensures rs[k].idx == MSR_INTEL_PLATFORM_INFO ==> ApplyMsrs(p, rs).platformInfo == rs[k].val
    ensures rs[k].idx == MSR_ARCH_CAPABILITIES ==> ApplyMsrs(p, rs).archCaps == rs[k].val
  {
    var init := rs[..|rs| - 1];
    assert AllMsrsValid(init);
    if k < |rs| - 1 {
      assert init[k] == rs[k];
      assert LastFor(init, k);
      ApplyMsrsLastWins(p, init, k);
    }
  }

  /** An MSR no record names keeps its value. */
  lemma {:induction false} ApplyMsrsUnnamedKept(p: Policy, rs: seq<MsrEntry>)
    requires AllMsrsValid(rs)
    ensures (forall j :: 0 <= j < |rs| ==> rs[j].idx != MSR_INTEL_PLATFORM_INFO) ==>
              ApplyMsrs(p, rs).platformInfo == p.platformInfo
    ensures (forall j :: 0 <= j < |rs| ==> rs[j].idx != MSR_ARCH_CAPABILITIES) ==>
              ApplyMsrs(p, rs).archCaps == p.archCaps
  {
    if rs != [] {
      var init := rs[..|rs| - 1];
      assert AllMsrsValid(init);
      ApplyMsrsUnnamedKept(p, init);
      assert forall j :: 0 <= j < |init| ==> init[j] == rs[j];
    }
  }

  lemma {:induction false} FirstBadMsrIs(rs: seq<MsrEntry>, i: nat, k: nat)
    requires i <= k <= |rs|
    requires forall j :: i <= j < k ==> MsrError(rs[j]) == 0
    requires k < |rs| ==> MsrError(rs[k]) != 0
    ensures FirstBadMsr(rs, i) == k
    decreases k - i
  {
    if i < k {
      FirstBadMsrIs(rs, i + 1, k);
    }
  }

  // ---- The deserialise-failure table of the unit tests ----

  lemma UnknownIndexRejected()
    ensures MsrError(MsrEntry(0xdead_c0de, 0, 0)) == -ERANGE
  {
  }

  lemma NonzeroFlagsRejected()
    ensures MsrError(MsrEntry(MSR_INTEL_PLATFORM_INFO, 1, 0)) == -EINVAL
  {
  }

  /** An all-ones value does not fit either MSR. */
  lemma TruncatedValueRejected()
    ensures MsrError(MsrEntry(MSR_INTEL_PLATFORM_INFO, 0, 0xffff_ffff_ffff_ffff)) == -EOVERFLOW
    ensures MsrError(MsrEntry(MSR_ARCH_CAPABILITIES, 0, 0xffff_ffff_ffff_ffff)) == -EOVERFLOW
  {
  }

  // ---- The operations on buffers ----

  /** msrs_are_sorted: scans adjacent pairs and fails only on a decrease. */
  method MsrsAreSorted(entries: array<MsrEntry>, nr: nat) returns (sorted: bool)
    requires nr <= entries.Length
    ensures sorted == MsrsSorted(entries[..nr])
  {
    var i := 1;
    while i < nr
      invariant 1 <= i
      invariant forall k :: 0 < k < i && k < nr ==> entries[k - 1].idx <= entries[k].idx
    {
      if entries[i - 1].idx > entries[i].idx {
        assert entries[..nr][i - 1] == entries[i - 1] && entries[..nr][i] == entries[i];
        return false;
      }
      i := i + 1;
    }
    return true;
  }

  /**
   * x86_msr_copy_to_buffer: every record fits and they are written in order
   * with the count returned, or the call fails with -ENOBUFS, writes nothing
   * and reports the count it would need.
   */
  method CopyMsrToBuffer(p: PolicyRecord, msrs: array<MsrEntry>, nr: nat) returns (rc: int, count: nat)
    requires p.Valid() && nr <= msrs.Length
    modifies msrs
    ensures count == |SerialiseMsrs(p.Value())|
    ensures rc == 0 <==> count <= nr
    ensures rc != 0 ==> rc == -ENOBUFS && msrs[..] == old(msrs[..])
    ensures rc == 0 ==> msrs[..count] == SerialiseMsrs(p.Value())
                        && msrs[count..] == old(msrs[count..])
  {
    count := MSR_MAX_SERIALISED_ENTRIES;
    if nr < count {
      return -ENOBUFS, count;
    }
    msrs[0] := MsrEntry(MSR_INTEL_PLATFORM_INFO, 0, p.platformInfo);
    msrs[1] := MsrEntry(MSR_ARCH_CAPABILITIES, 0, p.archCaps);
    rc := 0;
  }

  /** The validation pass: the index of the first unacceptable record, or nr. */
  method FindBadMsr(msrs: array<MsrEntry>, nr: nat) returns (k: nat, rc: int)
    requires nr <= msrs.Length
    ensures k == FirstBadMsr(msrs[..nr], 0)
    ensures rc == if k < nr then MsrError(msrs[k]) else 0
  {
    ghost var rs := msrs[..nr];
    k := 0;
    while k < nr
      invariant 0 <= k <= nr
      invariant forall j :: 0 <= j < k ==> MsrError(rs[j]) == 0
    {
      var e := msrs[k];
      if e.idx != MSR_INTEL_PLATFORM_INFO && e.idx != MSR_ARCH_CAPABILITIES {
        rc := -ERANGE;
      } else if e.flags != 0 {
        rc := -EINVAL;
      } else if e.val >= MSR_FIELD_LIMIT {
        rc := -EOVERFLOW;
      } else {
        rc := 0;
      }
      if rc != 0 {
        assert rs[k] == e;
        FirstBadMsrIs(rs, 0, k);
        return;
      }
      k := k + 1;
    }
    FirstBadMsrIs(rs, 0, nr);
    rc := 0;
  }

  /**
   * x86_msr_copy_from_buffer over the first nr records.  On the first
   * unacceptable record: its error, its index reported, the destination
   * untouched.  Otherwise 0, the index left at ~0, and every record copied
   * in order.  A null destination only validates.
   */
  method CopyMsrFromBuffer(dst: PolicyRecord?, msrs: array<MsrEntry>, nr: nat)
    returns (rc: int, errMsr: u32)
    requires nr <= msrs.Length
    requires dst != null ==> dst.Valid()
    modifies dst
    ensures dst != null ==> dst.Valid() && dst.SameArrays()
    ensures var k := FirstBadMsr(msrs[..nr], 0);
            if k < nr then
              && rc == MsrError(msrs[k]) && rc != 0 && errMsr == msrs[k].idx
              && (dst != null ==> dst.Value() == old(dst.Value()))
            else
              && rc == 0 && errMsr == 0xffff_ffff
              && (dst != null ==> dst.Value() == ApplyMsrs(old(dst.Value()), msrs[..nr]))
  {
    var k;
    k, rc := FindBadMsr(msrs, nr);
    if k < nr {
      return rc, msrs[k].idx;
    }
    errMsr := 0xffff_ffff;
    if dst == null {
      return;
    }
    ghost var rs := msrs[..nr];
    ghost var q := dst.Value();
    var i := 0;
    while i < nr
      invariant 0 <= i <= nr
      invariant dst.Valid() && dst.SameArrays()
      invariant AllMsrsValid(rs[..i])
      invariant dst.Value() == ApplyMsrs(q, rs[..i])
    {
      var e := msrs[i];
      assert e == rs[i];
      assert rs[..i + 1][..i] == rs[..i] && rs[..i + 1][i] == e;
      if e.idx == MSR_INTEL_PLATFORM_INFO {
        dst.platformInfo := e.val;
      } else {
        dst.archCaps := e.val;
      }
      i := i + 1;
    }
    assert rs[..nr] == rs;
  }
}
