/**
 * The whole policy through both serialisers and back: the CPUID records and
 * the MSR records of a policy, copied into an empty policy, rebuild it; and a
 * policy cleared of out-of-range leaves has nothing the serialiser drops.
 */
module PolicyRoundTrip {
  import opened CpuPolicy
  import opened CpuidSerialise
  import opened CpuidDeserialise
  import opened CpuidRoundTrip
  import opened MsrBuffer
  import opened ClearLeaves

  /** The basic leaves that only the subleaf families describe are zero. */
  predicate SubleafHeadsZero(p: Policy)
  {
    p.basic[4] == ZERO_LEAF && p.basic[7] == ZERO_LEAF && p.basic[0xb] == ZERO_LEAF && p.basic[0xd] == ZERO_LEAF
  }

  /** Everything a clean policy holds outside its declared ranges is zero, so every slot not serialised is zero. */
  lemma CleanHoldsOnlyEmitted(p: Policy)
    requires Clean(p) && SubleafHeadsZero(p)
    ensures HoldsOnlyEmitted(p)
  {
    forall x | SlotInRange(x) && !Emits(p, x) ensures Get(p, x) == ZERO_LEAF {
      match x
      case BasicSlot(i) =>
      case CacheSlot(i) =>
      case FeatSlot(i) =>
      case TopoSlot(i) =>
      case XstateSlot(i) =>
      case HvSlot =>
      case Hv2Slot =>
      case ExtdSlot(i) =>
    }
  }

  /** Both record streams of p, copied into an empty policy, give p back. */
  lemma FullRoundTrip(p: Policy)
    requires HoldsOnlyEmitted(p)
    ensures AllInRange(SerialiseCpuid(p)) && AllMsrsValid(SerialiseMsrs(p))
    ensures ApplyMsrs(ApplyAll(EmptyPolicy(), SerialiseCpuid(p)), SerialiseMsrs(p)) == p
  {
    SerialiseRoundTrip(p);
    MsrRoundTrip(ApplyAll(EmptyPolicy(), SerialiseCpuid(p)), p);
  }

  /** A policy cleared of out-of-range leaves survives serialise-then-deserialise unchanged. */
  lemma ClearedRoundTrip(p: Policy)
    requires SubleafHeadsZero(p)
    ensures var c := ClearOutOfRange(p);
            && AllInRange(SerialiseCpuid(c)) && AllMsrsValid(SerialiseMsrs(c))
            && ApplyMsrs(ApplyAll(EmptyPolicy(), SerialiseCpuid(c)), SerialiseMsrs(c)) == c
  {
    var c := ClearOutOfRange(p);
    ClearedIsClean(p);
    ClearKeepsRanges(p);
    assert SubleafHeadsZero(c);
    CleanHoldsOnlyEmitted(c);
    FullRoundTrip(c);
  }
}
