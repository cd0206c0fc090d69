/**
 * The x86 CPU policy record: one CPU's (or one guest's requested) CPUID and
 * MSR capability surface.  Each CPUID leaf family keeps its raw register
 * quadruples in a fixed-capacity array; the named fields the library reads
 * (max_leaf, vendor words, subleaf types, xstate masks, ...) are overlays on
 * those registers and appear here as accessor functions.
 *
 * The capacities CPUID_GUEST_NR_* and the no-subleaf marker are abstract:
 * each is a constant of a subset type whose bounds are exactly what the unit
 * tests imply, and no proof depends on a particular value.
 */
module CpuPolicy {

  type u32 = x: int | 0 <= x < 0x1_0000_0000
  type u64 = x: int | 0 <= x < 0x1_0000_0000_0000_0000

  // Capacities of the raw arrays.  Lower bounds: the tests set basic.max_leaf
  // to 0xd and expect leaf 0xd to be serialised, write cache/feat/topo/extd
  // subleaf 1 and xstate subleaf 3.  Upper bounds: every index must be a
  // 32-bit subleaf number, the basic range must lie below the hypervisor
  // leaves 0x40000000, the extended range must fit in the low 16 bits above
  // 0x80000000, and xstate subleaves are bit positions of a 64-bit mask.
  type BasicCap = n: nat | 0xe <= n < 0x4000_0000 witness 0xe
  type SubleafCap = n: nat | 2 <= n < 0x1_0000_0000 witness 2
  type XstateCap = n: nat | 4 <= n <= 64 witness 4
  type ExtdCap = n: nat | 2 <= n <= 0x1_0000 witness 2
  // The marker stored as the subleaf of leaves that have none; the tests
  // reject subleaf 0 on such leaves, so it is not 0.
  type Marker = x: u32 | x != 0 witness 0xffff_ffff

  const NR_BASIC: BasicCap
  const NR_CACHE: SubleafCap
  const NR_FEAT: SubleafCap
  const NR_TOPO: SubleafCap
  const NR_XSTATE: XstateCap
  const NR_EXTD: ExtdCap
  const NO_SUBLEAF: Marker

  // Error numbers the library returns, negated.
  const ERANGE: int := 34
  const EINVAL: int := 22
  const EOVERFLOW: int := 75
  const ENOBUFS: int := 105

  /** Base of the extended CPUID range and of the two hypervisor leaves. */
  const EXTD_BASE: u32 := 0x8000_0000
  const HV_LEAF: u32 := 0x4000_0000
  const HV2_LEAF: u32 := 0x4000_0100

  datatype Option<T> = None | Some(value: T)

  /** The register quadruple one CPUID leaf/subleaf returns. */
  datatype Leaf = Leaf(a: u32, b: u32, c: u32, d: u32)

  const ZERO_LEAF: Leaf := Leaf(0, 0, 0, 0)

  /** struct cpu_policy, with every raw array as a sequence. */
  datatype RawPolicy = RawPolicy(
    basic: seq<Leaf>,
    cache: seq<Leaf>,
    feat: seq<Leaf>,
    topo: seq<Leaf>,
    xstate: seq<Leaf>,
    extd: seq<Leaf>,
    hvLimit: u32,
    hv2Limit: u32,
    platformInfo: u32,
    archCaps: u32)

  predicate WellFormed(p: RawPolicy)
  {
    && |p.basic| == NR_BASIC
    && |p.cache| == NR_CACHE
    && |p.feat| == NR_FEAT
    && |p.topo| == NR_TOPO
    && |p.xstate| == NR_XSTATE
    && |p.extd| == NR_EXTD
  }

  /** A policy value: every raw array has its fixed capacity. */
  type Policy = p: RawPolicy | WellFormed(p) witness EmptyPolicy()

  function Zeros(n: nat): (s: seq<Leaf>)
    ensures |s| == n && forall i :: 0 <= i < n ==> s[i] == ZERO_LEAF
  {
    seq(n, _ => ZERO_LEAF)
  }

  /** The all-zero policy, as a static initialiser without fields gives it. */
  function EmptyPolicy(): (p: RawPolicy)
    ensures WellFormed(p)
  {
    RawPolicy(Zeros(NR_BASIC), Zeros(NR_CACHE), Zeros(NR_FEAT), Zeros(NR_TOPO),
              Zeros(NR_XSTATE), Zeros(NR_EXTD), 0, 0, 0, 0)
  }

  // ---- Named fields, as overlays on the raw registers ----

  /** basic.max_leaf is leaf 0 eax; vendor_ebx leaf 0 ebx; raw_fms leaf 1 eax. */
  function MaxLeaf(p: Policy): u32 { p.basic[0].a }
  function VendorEbx(p: Policy): u32 { p.basic[0].b }
  function RawFms(p: Policy): u32 { p.basic[1].a }

  /** cache.subleaf[i].type is bits 0-4 of leaf 4 eax. */
  function CacheType(l: Leaf): (t: nat)
    ensures t < 32
  {
    l.a % 32
  }

  /** feat.max_subleaf is leaf 7 subleaf 0 eax. */
  function FeatMaxSubleaf(p: Policy): u32 { p.feat[0].a }

  /** topo.subleaf[i].type is bits 8-15 of leaf 0xb ecx. */
  function TopoType(l: Leaf): (t: nat)
    ensures t < 0x100
  {
    (l.c / 0x100) % 0x100
  }

  /** xcr0_low/high are leaf 0xd subleaf 0 eax/edx; xss_low/high subleaf 1 ecx/edx. */
  function Xcr0Low(p: Policy): u32 { p.xstate[0].a }
  function Xcr0High(p: Policy): u32 { p.xstate[0].d }
  function XssLow(p: Policy): u32 { p.xstate[1].c }
  function XssHigh(p: Policy): u32 { p.xstate[1].d }

  /** extd.max_leaf is leaf 0x80000000 eax; extd.vendor_ebx its ebx; raw_fms leaf 0x80000001 eax. */
  function ExtdMaxLeaf(p: Policy): u32 { p.extd[0].a }
  function ExtdVendorEbx(p: Policy): u32 { p.extd[0].b }
  function ExtdRawFms(p: Policy): u32 { p.extd[1].a }

  /** platform_info.cpuid_faulting is bit 31 of MSR_INTEL_PLATFORM_INFO. */
  predicate CpuidFaulting(p: Policy) { p.platformInfo >= 0x8000_0000 }

  // ---- Bounds the library derives from the named fields ----

  /** Highest basic leaf held: max_leaf clamped to the array. */
  function BasicBound(p: Policy): (n: nat)
    ensures n < NR_BASIC && (n == MaxLeaf(p) || (n == NR_BASIC - 1 && MaxLeaf(p) > n))
  {
    if MaxLeaf(p) < NR_BASIC then MaxLeaf(p) else NR_BASIC - 1
  }

  /** Highest extended leaf offset held: the low 16 bits of extd.max_leaf, clamped. */
  function ExtdBound(p: Policy): (n: nat)
    ensures n < NR_EXTD
    ensures n == ExtdMaxLeaf(p) % 0x1_0000 || (n == NR_EXTD - 1 && ExtdMaxLeaf(p) % 0x1_0000 > n)
  {
    var m := ExtdMaxLeaf(p) % 0x1_0000;
    if m < NR_EXTD then m else NR_EXTD - 1
  }

  /** Highest feat subleaf held: max_subleaf clamped to the array. */
  function FeatBound(p: Policy): (n: nat)
    ensures n < NR_FEAT && (n == FeatMaxSubleaf(p) || (n == NR_FEAT - 1 && FeatMaxSubleaf(p) > n))
  {
    if FeatMaxSubleaf(p) < NR_FEAT then FeatMaxSubleaf(p) else NR_FEAT - 1
  }

  /** Index of the first subleaf at or after i whose type is 0, or |s| if none. */
  function FirstUntyped(s: seq<Leaf>, typeOf: Leaf -> nat, i: nat): (k: nat)
    requires i <= |s|
    ensures i <= k <= |s|
    ensures forall j :: i <= j < k ==> typeOf(s[j]) != 0
    ensures k < |s| ==> typeOf(s[k]) == 0
    decreases |s| - i
  {
    if i == |s| || typeOf(s[i]) == 0 then i else FirstUntyped(s, typeOf, i + 1)
  }

  /** The first cache subleaf whose type is 0 (the terminator), or NR_CACHE. */
  function CacheEnd(p: Policy): nat { FirstUntyped(p.cache, CacheType, 0) }

  /** The first topo subleaf whose type is 0 (the terminator), or NR_TOPO. */
  function TopoEnd(p: Policy): nat { FirstUntyped(p.topo, TopoType, 0) }

  lemma {:induction false} FirstUntypedUnique(s: seq<Leaf>, typeOf: Leaf -> nat, i: nat, k: nat)
    requires i <= k <= |s|
    requires forall j :: i <= j < k ==> typeOf(s[j]) != 0
    requires k < |s| ==> typeOf(s[k]) == 0
    ensures FirstUntyped(s, typeOf, i) == k
    decreases k - i
  {
    if i < k {
      FirstUntypedUnique(s, typeOf, i + 1, k);
    }
  }

  // ---- The xstate mask ----

  function Pow2(n: nat): (r: nat)
    ensures r >= 1
  {
    if n == 0 then 1 else 2 * Pow2(n - 1)
  }

  /** cpuid_faulting is exactly bit 31 of the 32-bit platform_info field. */
  lemma CpuidFaultingIsBit31(p: Policy)
    ensures CpuidFaulting(p) <==> (p.platformInfo / Pow2(31)) % 2 == 1
  {
    assert Pow2(31) == 0x8000_0000 by {
      assert Pow2(10) == 0x400;
      assert Pow2(20) == 0x10_0000;
      assert Pow2(30) == 0x4000_0000;
    }
  }

  /** The 64-bit masks xcr0_high:xcr0_low and xss_high:xss_low. */
  function Xcr0(p: Policy): nat { Xcr0High(p) * 0x1_0000_0000 + Xcr0Low(p) }
  function Xss(p: Policy): nat { XssHigh(p) * 0x1_0000_0000 + XssLow(p) }

  /**
   * (xcr0 | xss) >> s is nonzero: some state component at bit position s or
   * above is enabled in either mask.
   */
  predicate XstatesFrom(p: Policy, s: nat)
  {
    Xcr0(p) >= Pow2(s) || Xss(p) >= Pow2(s)
  }

  /** Number of significant bits of n (64 - clz for nonzero n, 0 for 0). */
  function BitLength(n: nat): nat
  {
    if n == 0 then 0 else 1 + BitLength(n / 2)
  }

  lemma {:induction false} BitLengthPow2(n: nat, s: nat)
    ensures n >= Pow2(s) <==> BitLength(n) > s
  {
    if s > 0 && n > 0 {
      BitLengthPow2(n / 2, s - 1);
    }
  }

  /** 64 - clz(xcr0 | xss): one past the highest enabled state component. */
  function XstateBitLength(p: Policy): nat
  {
    var x, y := BitLength(Xcr0(p)), BitLength(Xss(p));
    if x < y then y else x
  }

  lemma XstatesFromBitLength(p: Policy, s: nat)
    ensures XstatesFrom(p, s) <==> s < XstateBitLength(p)
  {
    BitLengthPow2(Xcr0(p), s);
    BitLengthPow2(Xss(p), s);
  }

  /**
   * One past the last xstate subleaf in use: subleaves 0 and 1 always, then
   * every position up to the highest enabled bit, within the array.
   */
  function XstateEnd(p: Policy): (n: nat)
    ensures 2 <= n <= NR_XSTATE
  {
    var m := if XstateBitLength(p) < 2 then 2 else XstateBitLength(p);
    if m < NR_XSTATE then m else NR_XSTATE
  }

  /** Subleaf s is in use exactly when it is below XstateEnd: 0 and 1 always, higher ones while the mask reaches them. */
  lemma XstateEndBound(p: Policy, s: nat)
    ensures s < XstateEnd(p) <==> s < NR_XSTATE && (s < 2 || XstatesFrom(p, s))
  {
    XstatesFromBitLength(p, s);
  }

  // ---- The record as the library's callers hold it: in place, by reference ----

  /**
   * A struct cpu_policy in memory.  The raw arrays are buffers of fixed
   * size that the clearing and deserialising operations overwrite in place.
   */
  class PolicyRecord {
    var basic: array<Leaf>
    var cache: array<Leaf>
    var feat: array<Leaf>
    var topo: array<Leaf>
    var xstate: array<Leaf>
    var extd: array<Leaf>
    var hvLimit: u32
    var hv2Limit: u32
    var platformInfo: u32
    var archCaps: u32

    ghost function Repr(): set<object>
      reads this
    {
      {this, basic, cache, feat, topo, xstate, extd}
    }

    /** Every array has its capacity and no two share storage. */
    ghost predicate Valid()
      reads this
    {
      && basic.Length == NR_BASIC && cache.Length == NR_CACHE
      && feat.Length == NR_FEAT && topo.Length == NR_TOPO
      && xstate.Length == NR_XSTATE && extd.Length == NR_EXTD
      && basic != cache && basic != feat && basic != topo && basic != xstate && basic != extd
      && cache != feat && cache != topo && cache != xstate && cache != extd
      && feat != topo && feat != xstate && feat != extd
      && topo != xstate && topo != extd
      && xstate != extd
    }

    /** The record still uses the arrays it used in the earlier state. */
    twostate predicate SameArrays()
      reads this
    {
      && basic == old(basic) && cache == old(cache) && feat == old(feat)
      && topo == old(topo) && xstate == old(xstate) && extd == old(extd)
    }

    /** The policy value the record currently holds. */
    function Value(): Policy
      reads this, basic, cache, feat, topo, xstate, extd
      requires Valid()
    {
      RawPolicy(basic[..], cache[..], feat[..], topo[..], xstate[..], extd[..],
                hvLimit, hv2Limit, platformInfo, archCaps)
    }

    /** A zero-initialised record. */
    constructor ()
      ensures Valid() && fresh(Repr() - {this})
      ensures Value() == EmptyPolicy()
    {
      basic := new Leaf[NR_BASIC](_ => ZERO_LEAF);
      cache := new Leaf[NR_CACHE](_ => ZERO_LEAF);
      feat := new Leaf[NR_FEAT](_ => ZERO_LEAF);
      topo := new Leaf[NR_TOPO](_ => ZERO_LEAF);
      xstate := new Leaf[NR_XSTATE](_ => ZERO_LEAF);
      extd := new Leaf[NR_EXTD](_ => ZERO_LEAF);
      hvLimit, hv2Limit, platformInfo, archCaps := 0, 0, 0, 0;
    }
  }
}
