/**
 * x86_cpu_policy_clear_out_of_range_leaves: zero, in place, every subleaf
 * that lies beyond what the record's own declared ranges say is populated.
 */
module ClearLeaves {
  import opened CpuPolicy

  /** s with every entry from index n on zeroed. */
  function KeepBelow(s: seq<Leaf>, n: nat): (r: seq<Leaf>)
    ensures |r| == |s|
    ensures forall i :: 0 <= i < |s| ==> r[i] == if i < n then s[i] else ZERO_LEAF
  {
    seq(|s|, i requires 0 <= i < |s| => if i < n then s[i] else ZERO_LEAF)
  }

  /** Keeping below n and then below m keeps below the smaller of the two. */
  lemma KeepBelowTwice(s: seq<Leaf>, n: nat, m: nat)
    ensures KeepBelow(KeepBelow(s, n), m) == KeepBelow(s, if n < m then n else m)
  {
  }

  /** A bound at or past the end keeps everything. */
  lemma KeepBelowAll(s: seq<Leaf>, n: nat)
    requires |s| <= n
    ensures KeepBelow(s, n) == s
  {
  }

  /** Keeping below n leaves a sequence unchanged exactly when it is already zero from n on. */
  lemma KeepBelowFixed(s: seq<Leaf>, n: nat)
    ensures KeepBelow(s, n) == s <==> forall i :: n <= i < |s| ==> s[i] == ZERO_LEAF
  {
    if forall i :: n <= i < |s| ==> s[i] == ZERO_LEAF {
      assert KeepBelow(s, n) == s;
    }
  }

  // ---- How many leading entries of each family are in range ----

  /** Basic leaves 0..max_leaf. */
  function BasicKeep(p: Policy): nat { MaxLeaf(p) + 1 }

  /** Cache subleaves before the first of type 0, when leaf 4 is in range at all. */
  function CacheKeep(p: Policy): nat { if MaxLeaf(p) < 4 then 0 else CacheEnd(p) }

  /** Feat subleaves 0..max_subleaf, when leaf 7 is in range. */
  function FeatKeep(p: Policy): nat { if MaxLeaf(p) < 7 then 0 else FeatMaxSubleaf(p) + 1 }

  /** Topo subleaves before the first of type 0, when leaf 0xb is in range. */
  function TopoKeep(p: Policy): nat { if MaxLeaf(p) < 0xb then 0 else TopoEnd(p) }

  /** Xstate subleaves 0 and 1, and up to the highest enabled state bit, when leaf 0xd is in range. */
  function XstateKeep(p: Policy): nat
  {
    if MaxLeaf(p) < 0xd then 0
    else if XstateBitLength(p) < 2 then 2
    else XstateBitLength(p)
  }

  /** Extended leaves up to the low 16 bits of extd.max_leaf. */
  function ExtdKeep(p: Policy): nat { ExtdMaxLeaf(p) % 0x1_0000 + 1 }

  /** Every entry outside the declared ranges is zero. */
  predicate Clean(p: Policy)
  {
    && (forall i :: BasicKeep(p) <= i < NR_BASIC ==> p.basic[i] == ZERO_LEAF)
    && (forall i :: CacheKeep(p) <= i < NR_CACHE ==> p.cache[i] == ZERO_LEAF)
    && (forall i :: FeatKeep(p) <= i < NR_FEAT ==> p.feat[i] == ZERO_LEAF)
    && (forall i :: TopoKeep(p) <= i < NR_TOPO ==> p.topo[i] == ZERO_LEAF)
    && (forall i :: XstateKeep(p) <= i < NR_XSTATE ==> p.xstate[i] == ZERO_LEAF)
    && (forall i :: ExtdKeep(p) <= i < NR_EXTD ==> p.extd[i] == ZERO_LEAF)
  }

  /** The policy with every family zeroed beyond its declared range. */
  function ClearOutOfRange(p: Policy): Policy
  {
    p.(basic := KeepBelow(p.basic, BasicKeep(p)),
       cache := KeepBelow(p.cache, CacheKeep(p)),
       feat := KeepBelow(p.feat, FeatKeep(p)),
       topo := KeepBelow(p.topo, TopoKeep(p)),
       xstate := KeepBelow(p.xstate, XstateKeep(p)),
       extd := KeepBelow(p.extd, ExtdKeep(p)))
  }

  // ---- Properties ----

  /** Clearing changes no declared range and no entry inside one. */
  lemma ClearKeepsRanges(p: Policy)
    ensures var c := ClearOutOfRange(p);
            && MaxLeaf(c) == MaxLeaf(p) && ExtdMaxLeaf(c) == ExtdMaxLeaf(p)
            && BasicKeep(c) == BasicKeep(p) && CacheKeep(c) == CacheKeep(p) && FeatKeep(c) == FeatKeep(p)
            && TopoKeep(c) == TopoKeep(p) && XstateKeep(c) == XstateKeep(p) && ExtdKeep(c) == ExtdKeep(p)
  {
    var c := ClearOutOfRange(p);
    assert c.basic[0] == p.basic[0] && c.extd[0] == p.extd[0];
    if MaxLeaf(p) >= 4 {
      var e := CacheEnd(p);
      FirstUntypedUnique(c.cache, CacheType, 0, e);
    }
    if MaxLeaf(p) >= 7 {
      assert c.feat[0] == p.feat[0];
    }
    if MaxLeaf(p) >= 0xb {
      var e := TopoEnd(p);
      FirstUntypedUnique(c.topo, TopoType, 0, e);
    }
    if MaxLeaf(p) >= 0xd {
      assert c.xstate[0] == p.xstate[0] && c.xstate[1] == p.xstate[1];
      assert Xcr0(c) == Xcr0(p) && Xss(c) == Xss(p);
    }
  }

  /** The result of clearing is clean. */
  lemma ClearedIsClean(p: Policy)
    ensures Clean(ClearOutOfRange(p))
  {
    ClearKeepsRanges(p);
  }

  /** Clearing a clean policy changes nothing. */
  lemma CleanIsFixed(p: Policy)
    requires Clean(p)
    ensures ClearOutOfRange(p) == p
  {
    KeepBelowFixed(p.basic, BasicKeep(p));
    KeepBelowFixed(p.cache, CacheKeep(p));
    KeepBelowFixed(p.feat, FeatKeep(p));
    KeepBelowFixed(p.topo, TopoKeep(p));
    KeepBelowFixed(p.xstate, XstateKeep(p));
    KeepBelowFixed(p.extd, ExtdKeep(p));
  }

  /** A policy is clean exactly when clearing leaves it unchanged. */
  lemma CleanIffFixed(p: Policy)
    ensures Clean(p) <==> ClearOutOfRange(p) == p
  {
    if Clean(p) {
      CleanIsFixed(p);
    } else {
      ClearedIsClean(p);
    }
  }

  /** Clearing twice is clearing once. */
  lemma ClearIdempotent(p: Policy)
    ensures ClearOutOfRange(ClearOutOfRange(p)) == ClearOutOfRange(p)
  {
    ClearedIsClean(p);
    CleanIsFixed(ClearOutOfRange(p));
  }

  // ---- The in-place operation ----

  /** zero_leaves(a, first, end): every entry from first on becomes zero. */
  method ZeroLeaves(a: array<Leaf>, first: nat)
    modifies a
    ensures a[..] == KeepBelow(old(a[..]), first)
  {
    var i := first;
    while i < a.Length
      invariant first <= i || a.Length <= first
      invariant forall k :: 0 <= k < a.Length ==>
                  a[k] == if first <= k < i then ZERO_LEAF else old(a[k])
    {
      a[i] := ZERO_LEAF;
      i := i + 1;
    }
  }

  /** The scan for the first subleaf of type 0 (or the capacity). */
  method FirstUntypedIndex(a: array<Leaf>, typeOf: Leaf -> nat) returns (i: nat)
    ensures i == FirstUntyped(a[..], typeOf, 0)
  {
    i := 0;
    while i < a.Length && typeOf(a[i]) != 0
      invariant i <= a.Length
      invariant forall j :: 0 <= j < i ==> typeOf(a[j]) != 0
    {
      i := i + 1;
    }
    FirstUntypedUnique(a[..], typeOf, 0, i);
  }

  /** The cache or topo extent: none when the leaf is beyond max_leaf, else up to the first type-0 subleaf. */
  method TerminatedExtent(a: array<Leaf>, typeOf: Leaf -> nat, maxLeaf: nat, leaf: nat) returns (n: nat)
    ensures n == if maxLeaf < leaf then 0 else FirstUntyped(a[..], typeOf, 0)
  {
    if maxLeaf < leaf {
      return 0;
    }
    n := FirstUntypedIndex(a, typeOf);
  }

  /** The xstate extent: none when leaf 0xd is beyond max_leaf, else at least 2 and up to the highest enabled state bit. */
  method XstateExtent(p: PolicyRecord, maxLeaf: nat) returns (n: nat)
    requires p.Valid()
    ensures n == if maxLeaf < 0xd then 0
                 else if XstateBitLength(p.Value()) < 2 then 2
                 else XstateBitLength(p.Value())
  {
    if maxLeaf < 0xd {
      return 0;
    }
    var bits := XstateBitLength(p.Value());
    n := if bits < 2 then 2 else bits;
  }

  /**
   * x86_cpu_policy_clear_out_of_range_leaves: family by family, each bound
   * read from the record before that family is cleared.
   */
  method ClearOutOfRangeLeaves(p: PolicyRecord)
    requires p.Valid()
    modifies p.basic, p.cache, p.feat, p.topo, p.xstate, p.extd
    ensures p.Valid()
    ensures p.Value() == ClearOutOfRange(old(p.Value()))
  {
    ghost var v := p.Value();
    var maxLeaf: nat := p.basic[0].a;
    ZeroLeaves(p.basic, maxLeaf + 1);
    assert p.basic[..] == KeepBelow(v.basic, BasicKeep(v));

    var n := TerminatedExtent(p.cache, CacheType, maxLeaf, 4);
    assert n == CacheKeep(v);
    ZeroLeaves(p.cache, n);

    n := if maxLeaf < 7 then 0 else p.feat[0].a + 1;
    assert n == FeatKeep(v);
    ZeroLeaves(p.feat, n);

    n := TerminatedExtent(p.topo, TopoType, maxLeaf, 0xb);
    assert n == TopoKeep(v);
    ZeroLeaves(p.topo, n);

    n := XstateExtent(p, maxLeaf);
    assert Xcr0(p.Value()) == Xcr0(v) && Xss(p.Value()) == Xss(v);
    assert n == XstateKeep(v);
    ZeroLeaves(p.xstate, n);

    n := p.extd[0].a % 0x1_0000 + 1;
    assert n == ExtdKeep(v);
    ZeroLeaves(p.extd, n);
  }

  // ---- The out-of-range clearing table of the unit tests ----

  /** basic.max_leaf 0: vendor_ebx survives; raw_fms and every other family is zeroed. */
  lemma BasicClearing()
    ensures var p := EmptyPolicy().(
                basic := Zeros(NR_BASIC)[0 := Leaf(0, 0xc2, 0, 0)][1 := Leaf(0xc2, 0, 0, 0)],
                cache := Zeros(NR_CACHE)[0 := Leaf(0xc2, 0, 0, 0)],
                feat := Zeros(NR_FEAT)[0 := Leaf(0xc2, 0, 0, 0)],
                topo := Zeros(NR_TOPO)[0 := Leaf(0xc2, 0, 0, 0)],
                xstate := Zeros(NR_XSTATE)[0 := Leaf(0xc2, 0, 0, 0)][1 := Leaf(0xc2, 0, 0, 0)]);
            ClearOutOfRange(p) == EmptyPolicy().(basic := Zeros(NR_BASIC)[0 := Leaf(0, 0xc2, 0, 0)])
  {
  }

  /** Cache subleaf 0 has type 1 and survives; subleaf 1 (type 0) and the later families are zeroed. */
  lemma CacheClearing()
    ensures var p := EmptyPolicy().(
                basic := Zeros(NR_BASIC)[0 := Leaf(4, 0, 0, 0)],
                cache := Zeros(NR_CACHE)[0 := Leaf(1, 0xc2, 0, 0)][1 := Leaf(0, 0xc2, 0, 0)],
                feat := Zeros(NR_FEAT)[0 := Leaf(0xc2, 0, 0, 0)],
                topo := Zeros(NR_TOPO)[0 := Leaf(0xc2, 0, 0, 0)],
                xstate := Zeros(NR_XSTATE)[0 := Leaf(0xc2, 0, 0, 0)][1 := Leaf(0xc2, 0, 0, 0)]);
            ClearOutOfRange(p) == EmptyPolicy().(
                basic := Zeros(NR_BASIC)[0 := Leaf(4, 0, 0, 0)],
                cache := Zeros(NR_CACHE)[0 := Leaf(1, 0xc2, 0, 0)])
  {
    var p := EmptyPolicy().(
                basic := Zeros(NR_BASIC)[0 := Leaf(4, 0, 0, 0)],
                cache := Zeros(NR_CACHE)[0 := Leaf(1, 0xc2, 0, 0)][1 := Leaf(0, 0xc2, 0, 0)],
                feat := Zeros(NR_FEAT)[0 := Leaf(0xc2, 0, 0, 0)],
                topo := Zeros(NR_TOPO)[0 := Leaf(0xc2, 0, 0, 0)],
                xstate := Zeros(NR_XSTATE)[0 := Leaf(0xc2, 0, 0, 0)][1 := Leaf(0xc2, 0, 0, 0)]);
    FirstUntypedUnique(p.cache, CacheType, 0, 1);
  }

  /** Feat max_subleaf 0: subleaf 0 survives, subleaf 1 and the later families are zeroed. */
  lemma FeatClearing()
    ensures var p := EmptyPolicy().(
                basic := Zeros(NR_BASIC)[0 := Leaf(7, 0, 0, 0)],
                feat := Zeros(NR_FEAT)[0 := Leaf(0, 0xc2, 0, 0)][1 := Leaf(0, 0xc2, 0, 0)],
                topo := Zeros(NR_TOPO)[0 := Leaf(0xc2, 0, 0, 0)],
                xstate := Zeros(NR_XSTATE)[0 := Leaf(0xc2, 0, 0, 0)][1 := Leaf(0xc2, 0, 0, 0)]);
            ClearOutOfRange(p) == EmptyPolicy().(
                basic := Zeros(NR_BASIC)[0 := Leaf(7, 0, 0, 0)],
                feat := Zeros(NR_FEAT)[0 := Leaf(0, 0xc2, 0, 0)])
  {
    var p := EmptyPolicy().(
                basic := Zeros(NR_BASIC)[0 := Leaf(7, 0, 0, 0)],
                feat := Zeros(NR_FEAT)[0 := Leaf(0, 0xc2, 0, 0)][1 := Leaf(0, 0xc2, 0, 0)],
                topo := Zeros(NR_TOPO)[0 := Leaf(0xc2, 0, 0, 0)],
                xstate := Zeros(NR_XSTATE)[0 := Leaf(0xc2, 0, 0, 0)][1 := Leaf(0xc2, 0, 0, 0)]);
    FirstUntypedUnique(p.cache, CacheType, 0, 0);
  }

  /** Topo subleaf 0 has type 1 (ecx bits 8-15) and survives; subleaf 1 and xstate are zeroed. */
  lemma TopoClearing()
    ensures var p := EmptyPolicy().(
                basic := Zeros(NR_BASIC)[0 := Leaf(0xb, 0, 0, 0)],
                topo := Zeros(NR_TOPO)[0 := Leaf(0, 0xc2, 0x100, 0)][1 := Leaf(0, 0xc2, 0, 0)],
                xstate := Zeros(NR_XSTATE)[0 := Leaf(0xc2, 0, 0, 0)][1 := Leaf(0xc2, 0, 0, 0)]);
            ClearOutOfRange(p) == EmptyPolicy().(
                basic := Zeros(NR_BASIC)[0 := Leaf(0xb, 0, 0, 0)],
                topo := Zeros(NR_TOPO)[0 := Leaf(0, 0xc2, 0x100, 0)])
  {
    var p := EmptyPolicy().(
                basic := Zeros(NR_BASIC)[0 := Leaf(0xb, 0, 0, 0)],
                topo := Zeros(NR_TOPO)[0 := Leaf(0, 0xc2, 0x100, 0)][1 := Leaf(0, 0xc2, 0, 0)],
                xstate := Zeros(NR_XSTATE)[0 := Leaf(0xc2, 0, 0, 0)][1 := Leaf(0xc2, 0, 0, 0)]);
    FirstUntypedUnique(p.cache, CacheType, 0, 0);
    FirstUntypedUnique(p.topo, TopoType, 0, 1);
  }

  /** The xstate test policies: xcr0_low = x, a marker in ebx of subleaves 0 to 3. */
  function XstateTestPolicy(x: u32): Policy
  {
    EmptyPolicy().(
      basic := Zeros(NR_BASIC)[0 := Leaf(0xd, 0, 0, 0)],
      xstate := Zeros(NR_XSTATE)[0 := Leaf(x, 0xc2, 0, 0)][1 := Leaf(0, 0xc2, 0, 0)]
                                [2 := Leaf(0, 0xc2, 0, 0)][3 := Leaf(0, 0xc2, 0, 0)])
  }

  /** The number of xstate subleaves kept for the test masks 1 (x87), 2 (SSE) and 7 (AVX). */
  lemma XstateTestKeep(x: u32)
    requires x == 1 || x == 2 || x == 7
    ensures XstateKeep(XstateTestPolicy(x)) == if x == 7 then 3 else 2
  {
    var p := XstateTestPolicy(x);
    assert Xcr0(p) == x && Xss(p) == 0;
    assert BitLength(1) == 1 && BitLength(2) == 2;
    assert BitLength(7) == 3 by {
      assert BitLength(3) == 2;
    }
  }

  /** In the xstate test policies clearing touches the xstate family only. */
  lemma XstateTestOthersKept(x: u32)
    ensures var p := XstateTestPolicy(x);
            ClearOutOfRange(p) == p.(xstate := KeepBelow(p.xstate, XstateKeep(p)))
  {
    var p := XstateTestPolicy(x);
    var c := ClearOutOfRange(p);
    FirstUntypedUnique(p.cache, CacheType, 0, 0);
    FirstUntypedUnique(p.topo, TopoType, 0, 0);
    assert c.basic == p.basic && c.cache == p.cache && c.feat == p.feat;
    assert c.topo == p.topo && c.extd == p.extd;
  }

  /** x87 only, or SSE: subleaves 0 and 1 survive, 2 and 3 are zeroed. */
  lemma XstateLowClearing(x: u32)
    requires x == 1 || x == 2
    ensures ClearOutOfRange(XstateTestPolicy(x))
            == XstateTestPolicy(x).(xstate := XstateTestPolicy(x).xstate[2 := ZERO_LEAF][3 := ZERO_LEAF])
  {
    var p := XstateTestPolicy(x);
    XstateTestOthersKept(x);
    XstateTestKeep(x);
    assert KeepBelow(p.xstate, 2) == p.xstate[2 := ZERO_LEAF][3 := ZERO_LEAF];
  }

  /** AVX: subleaves 0 to 2 survive, 3 is zeroed. */
  lemma XstateAvxClearing()
    ensures ClearOutOfRange(XstateTestPolicy(7))
            == XstateTestPolicy(7).(xstate := XstateTestPolicy(7).xstate[3 := ZERO_LEAF])
  {
    var p := XstateTestPolicy(7);
    XstateTestOthersKept(7);
    XstateTestKeep(7);
    assert KeepBelow(p.xstate, 3) == p.xstate[3 := ZERO_LEAF];
  }

  /** extd.max_leaf 0: extended vendor_ebx survives, raw_fms is zeroed. */
  lemma ExtdClearing()
    ensures var p := EmptyPolicy().(extd := Zeros(NR_EXTD)[0 := Leaf(0, 0xc2, 0, 0)][1 := Leaf(0xc2, 0, 0, 0)]);
            ClearOutOfRange(p) == EmptyPolicy().(extd := Zeros(NR_EXTD)[0 := Leaf(0, 0xc2, 0, 0)])
  {
  }
}
