/**
 * x86_cpu_policies_are_compatible: may a guest with one policy run on a host
 * with another?  A verdict and a locator naming the first check that failed.
 */
module Compat {
  import opened CpuPolicy
  import MsrBuffer

  /** The "not applicable" value of a locator field (~0). */
  const NOT_APPLICABLE: u32 := 0xffff_ffff

  /** struct cpu_policy_errors. */
  datatype PolicyErrors = PolicyErrors(leaf: u32, subleaf: u32, msr: u32)

  /** INIT_CPU_POLICY_ERRORS: every dimension not applicable. */
  const NO_ERRORS := PolicyErrors(NOT_APPLICABLE, NOT_APPLICABLE, NOT_APPLICABLE)

  datatype Verdict = Verdict(rc: int, errors: PolicyErrors)

  /** ~host & guest != 0: some bit set in guest is clear in host (bit 0, then the higher bits). */
  predicate ExtraBits(host: nat, guest: nat)
    decreases guest
  {
    if guest == 0 then false
    else (guest % 2 == 1 && host % 2 == 0) || ExtraBits(host / 2, guest / 2)
  }

  /** The checks, first failure wins: basic.max_leaf, then extd.max_leaf, then the MSR_INTEL_PLATFORM_INFO bits. */
  function CheckCompatible(host: Policy, guest: Policy): (v: Verdict)
    ensures v.rc == 0 || v.rc == -EINVAL
    ensures v.rc == 0 <==> Compatible(host, guest)
    ensures v.rc == 0 ==> v.errors == NO_ERRORS
    ensures MaxLeaf(guest) > MaxLeaf(host) ==> v.errors == PolicyErrors(0, NOT_APPLICABLE, NOT_APPLICABLE)
    ensures MaxLeaf(guest) <= MaxLeaf(host) && ExtdMaxLeaf(guest) > ExtdMaxLeaf(host)
            ==> v.errors == PolicyErrors(0x8000_0000, NOT_APPLICABLE, NOT_APPLICABLE)
    ensures MaxLeaf(guest) <= MaxLeaf(host) && ExtdMaxLeaf(guest) <= ExtdMaxLeaf(host)
            && ExtraBits(host.platformInfo, guest.platformInfo)
            ==> v.errors == PolicyErrors(NOT_APPLICABLE, NOT_APPLICABLE, MsrBuffer.MSR_INTEL_PLATFORM_INFO)
  {
    if MaxLeaf(guest) > MaxLeaf(host) then
      Verdict(-EINVAL, NO_ERRORS.(leaf := 0, subleaf := NOT_APPLICABLE))
    else if ExtdMaxLeaf(guest) > ExtdMaxLeaf(host) then
      Verdict(-EINVAL, NO_ERRORS.(leaf := EXTD_BASE, subleaf := NOT_APPLICABLE))
    else if ExtraBits(host.platformInfo, guest.platformInfo) then
      Verdict(-EINVAL, NO_ERRORS.(msr := MsrBuffer.MSR_INTEL_PLATFORM_INFO))
    else
      Verdict(0, NO_ERRORS)
  }

  /** The relation the checks decide: the guest asks for no more than the host has. */
  predicate Compatible(host: Policy, guest: Policy)
  {
    && MaxLeaf(guest) <= MaxLeaf(host)
    && ExtdMaxLeaf(guest) <= ExtdMaxLeaf(host)
    && !ExtraBits(host.platformInfo, guest.platformInfo)
  }

  // ---- Properties ----

  lemma {:induction false} NoExtraBitsInSelf(x: nat)
    ensures !ExtraBits(x, x)
    decreases x
  {
    if x != 0 {
      NoExtraBitsInSelf(x / 2);
    }
  }

  /** Bit-mask inclusion composes. */
  lemma {:induction false} ExtraBitsTransitive(h: nat, m: nat, g: nat)
    requires !ExtraBits(h, m) && !ExtraBits(m, g)
    ensures !ExtraBits(h, g)
    decreases g
  {
    if g != 0 {
      ExtraBitsTransitive(h / 2, m / 2, g / 2);
    }
  }

  /** Every nonzero mask has a bit an empty host lacks. */
  lemma {:induction false} NonzeroOverZero(g: nat)
    requires g != 0
    ensures ExtraBits(0, g)
    decreases g
  {
    if g % 2 == 0 {
      NonzeroOverZero(g / 2);
    }
  }

  /** A guest at or above 2^k against a host below it has an extra bit. */
  lemma {:induction false} HighBitExtra(h: nat, g: nat, k: nat)
    requires h < Pow2(k) <= g
    ensures ExtraBits(h, g)
    decreases k
  {
    if k == 0 {
      NonzeroOverZero(g);
    } else {
      HighBitExtra(h / 2, g / 2, k - 1);
    }
  }

  /** Every policy is compatible with itself. */
  lemma CompatibleReflexive(p: Policy)
    ensures CheckCompatible(p, p) == Verdict(0, NO_ERRORS)
  {
    NoExtraBitsInSelf(p.platformInfo);
  }

  /** A guest that fits a middle policy, which fits the host, fits the host. */
  lemma CompatibleTransitive(host: Policy, mid: Policy, guest: Policy)
    requires Compatible(host, mid) && Compatible(mid, guest)
    ensures Compatible(host, guest)
  {
    ExtraBitsTransitive(host.platformInfo, mid.platformInfo, guest.platformInfo);
  }

  /** On failure exactly one dimension of the locator is set, and it names a check that fails. */
  lemma LocatorNamesFailure(host: Policy, guest: Policy)
    requires CheckCompatible(host, guest).rc != 0
    ensures var e := CheckCompatible(host, guest).errors;
            && e.subleaf == NOT_APPLICABLE
            && (e.leaf == NOT_APPLICABLE <==> e.msr != NOT_APPLICABLE)
            && (e.leaf == 0 ==> MaxLeaf(guest) > MaxLeaf(host))
            && (e.leaf == EXTD_BASE ==> ExtdMaxLeaf(guest) > ExtdMaxLeaf(host))
            && (e.msr != NOT_APPLICABLE ==> ExtraBits(host.platformInfo, guest.platformInfo))
  {
  }

  /** A guest wanting CPUID faulting from a host without it is refused. */
  lemma FaultingNeedsHostFaulting(host: Policy, guest: Policy)
    requires CpuidFaulting(guest) && !CpuidFaulting(host)
    ensures ExtraBits(host.platformInfo, guest.platformInfo)
  {
    assert Pow2(31) == 0x8000_0000 by {
      assert Pow2(10) == 0x400;
      assert Pow2(20) == 0x10_0000;
      assert Pow2(30) == 0x4000_0000;
    }
    HighBitExtra(host.platformInfo, guest.platformInfo, 31);
  }

  // ---- The compatibility tables of the unit tests ----

  /** A policy with only cpuid_faulting possibly set. */
  function FaultingPolicy(faulting: bool): Policy
  {
    EmptyPolicy().(platformInfo := if faulting then 0x8000_0000 else 0)
  }

  /** A host with faulting accepts a guest with or without it. */
  lemma FaultingHostAccepts(faulting: bool)
    ensures CheckCompatible(FaultingPolicy(true), FaultingPolicy(faulting)) == Verdict(0, NO_ERRORS)
  {
    NoExtraBitsInSelf(0x8000_0000);
  }

  lemma BasicMaxLeafRefused()
    ensures var v := CheckCompatible(EmptyPolicy(), EmptyPolicy().(basic := Zeros(NR_BASIC)[0 := Leaf(1, 0, 0, 0)]));
            v.rc != 0 && v.errors == PolicyErrors(0, 0xffff_ffff, 0xffff_ffff)
  {
  }

  lemma ExtdMaxLeafRefused()
    ensures var v := CheckCompatible(EmptyPolicy(), EmptyPolicy().(extd := Zeros(NR_EXTD)[0 := Leaf(1, 0, 0, 0)]));
            v.rc != 0 && v.errors == PolicyErrors(0x8000_0000, 0xffff_ffff, 0xffff_ffff)
  {
  }

  lemma FaultingGuestRefused()
    ensures var v := CheckCompatible(FaultingPolicy(false), FaultingPolicy(true));
            v.rc != 0 && v.errors == PolicyErrors(0xffff_ffff, 0xffff_ffff, 0xce)
  {
    FaultingNeedsHostFaulting(FaultingPolicy(false), FaultingPolicy(true));
  }
}
