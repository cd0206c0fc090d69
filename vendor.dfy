/**
 * x86_cpuid_lookup_vendor: the 12-byte identification string that leaf 0
 * returns in ebx, edx, ecx (in that byte order) mapped to a vendor.
 */
module Vendor {
  import opened CpuPolicy

  type byte = x: int | 0 <= x < 0x100

  datatype X86Vendor = Unknown | Intel | Amd | Centaur | Shanghai | Hygon

  /** The three registers the lookup takes. */
  datatype VendorRegs = VendorRegs(ebx: u32, ecx: u32, edx: u32)

  /** Little-endian word of four consecutive bytes of s, from offset k. */
  function WordAt(s: seq<byte>, k: nat): u32
    requires k + 4 <= |s|
  {
    (s[k] as int) + 0x100 * (s[k + 1] as int) + 0x1_0000 * (s[k + 2] as int) + 0x100_0000 * (s[k + 3] as int)
  }

  /** The four bytes of a word in memory order. */
  function WordBytes(w: u32): (bs: seq<byte>)
    ensures |bs| == 4
  {
    [w % 0x100, (w / 0x100) % 0x100, (w / 0x100 / 0x100) % 0x100, w / 0x100 / 0x100 / 0x100]
  }

  /** The string overlaid on the registers: ebx holds bytes 0-3, edx 4-7, ecx 8-11. */
  function IdentToRegs(ident: seq<byte>): (r: VendorRegs)
    requires |ident| == 12
  {
    VendorRegs(WordAt(ident, 0), WordAt(ident, 8), WordAt(ident, 4))
  }

  function RegsToIdent(r: VendorRegs): (ident: seq<byte>)
    ensures |ident| == 12
  {
    WordBytes(r.ebx) + WordBytes(r.edx) + WordBytes(r.ecx)
  }

  lemma DivModByte(x: int, lo: int, hi: int)
    requires 0 <= lo < 0x100 && x == lo + 0x100 * hi
    ensures x % 0x100 == lo && x / 0x100 == hi
  {
  }

  lemma WordBytesRoundTrip(w: u32)
    ensures WordAt(WordBytes(w), 0) == w
  {
    var q1 := w / 0x100;
    var q2 := q1 / 0x100;
    assert w == w % 0x100 + 0x100 * q1;
    assert q1 == q1 % 0x100 + 0x100 * q2;
    assert q2 == q2 % 0x100 + 0x100 * (q2 / 0x100);
  }

  lemma WordAtRoundTrip(s: seq<byte>, k: nat)
    requires k + 4 <= |s|
    ensures WordBytes(WordAt(s, k)) == s[k..k + 4]
  {
    var w := WordAt(s, k);
    var hi2 := s[k + 2] as int + 0x100 * s[k + 3] as int;
    var hi1 := s[k + 1] as int + 0x100 * hi2;
    DivModByte(w, s[k], hi1);
    DivModByte(hi1, s[k + 1], hi2);
    DivModByte(hi2, s[k + 2], s[k + 3]);
  }

  /** Reading the registers back as a string gives the original 12 bytes. */
  lemma IdentRoundTrip(ident: seq<byte>)
    requires |ident| == 12
    ensures RegsToIdent(IdentToRegs(ident)) == ident
  {
    WordAtRoundTrip(ident, 0);
    WordAtRoundTrip(ident, 4);
    WordAtRoundTrip(ident, 8);
    assert ident == ident[0..4] + ident[4..8] + ident[8..12];
  }

  /** Writing registers out as a string and reading them back gives the same registers. */
  lemma RegsRoundTrip(r: VendorRegs)
    ensures IdentToRegs(RegsToIdent(r)) == r
  {
    var s := RegsToIdent(r);
    assert s[0..4] == WordBytes(r.ebx) && s[4..8] == WordBytes(r.edx) && s[8..12] == WordBytes(r.ecx);
    WordBytesRoundTrip(r.ebx);
    WordBytesRoundTrip(r.edx);
    WordBytesRoundTrip(r.ecx);
    assert WordAt(s, 0) == WordAt(s[0..4], 0);
    assert WordAt(s, 4) == WordAt(s[4..8], 0);
    assert WordAt(s, 8) == WordAt(s[8..12], 0);
  }

  /**
   * A char[12] initialised from a string literal: the characters (each
   * taken as its low byte), then NUL padding.  No trimming of any kind.
   */
  function Ident(s: string): (ident: seq<byte>)
    requires |s| <= 12
    ensures |ident| == 12
  {
    seq(12, i requires 0 <= i < 12 => if i < |s| then (s[i] as int) % 0x100 else 0)
  }

  /** The canonical identification string of each known vendor. */
  function VendorString(v: X86Vendor): string
    requires v != Unknown
  {
    match v
    case Intel => "GenuineIntel"
    case Amd => "AuthenticAMD"
    case Centaur => "CentaurHauls"
    case Shanghai => "  Shanghai  "
    case Hygon => "HygonGenuine"
  }

  function VendorRegsOf(v: X86Vendor): VendorRegs
    requires v != Unknown
  {
    IdentToRegs(Ident(VendorString(v)))
  }

  /** The register words of each known vendor (X86_VENDOR_*_EBX, _ECX, _EDX). */
  function VendorWords(v: X86Vendor): VendorRegs
    requires v != Unknown
  {
    match v
    case Intel => VendorRegs(0x756e_6547, 0x6c65_746e, 0x4965_6e69)
    case Amd => VendorRegs(0x6874_7541, 0x444d_4163, 0x6974_6e65)
    case Centaur => VendorRegs(0x746e_6543, 0x736c_7561, 0x4872_7561)
    case Shanghai => VendorRegs(0x6853_2020, 0x2020_6961, 0x6867_6e61)
    case Hygon => VendorRegs(0x6f67_7948, 0x656e_6975, 0x6e65_476e)
  }

  /**
   * x86_cpuid_lookup_vendor: ebx selects the candidate vendor, and ecx and
   * edx must then match it too.  Anything else is Unknown, never an error.
   */
  function LookupVendor(ebx: u32, ecx: u32, edx: u32): (v: X86Vendor)
    ensures v != Unknown ==> VendorWords(v) == VendorRegs(ebx, ecx, edx)
    ensures v == Unknown <==>
              forall w: X86Vendor :: w != Unknown ==> VendorWords(w) != VendorRegs(ebx, ecx, edx)
  {
    var r := VendorRegs(ebx, ecx, edx);
    if ebx == VendorWords(Intel).ebx then (if r == VendorWords(Intel) then Intel else Unknown)
    else if ebx == VendorWords(Amd).ebx then (if r == VendorWords(Amd) then Amd else Unknown)
    else if ebx == VendorWords(Centaur).ebx then (if r == VendorWords(Centaur) then Centaur else Unknown)
    else if ebx == VendorWords(Shanghai).ebx then (if r == VendorWords(Shanghai) then Shanghai else Unknown)
    else if ebx == VendorWords(Hygon).ebx then (if r == VendorWords(Hygon) then Hygon else Unknown)
    else Unknown
  }

  /** Each vendor's register words are its identification string as the hardware returns it. */
  lemma VendorWordsSpellString(v: X86Vendor)
    requires v != Unknown
    ensures VendorRegsOf(v) == VendorWords(v)
  {
    match v
    case Intel => SpellsWords(VendorString(Intel), VendorWords(Intel), [0x47, 0x65, 0x6e, 0x75, 0x69, 0x6e, 0x65, 0x49, 0x6e, 0x74, 0x65, 0x6c]);
    case Amd => SpellsWords(VendorString(Amd), VendorWords(Amd), [0x41, 0x75, 0x74, 0x68, 0x65, 0x6e, 0x74, 0x69, 0x63, 0x41, 0x4d, 0x44]);
    case Centaur => SpellsWords(VendorString(Centaur), VendorWords(Centaur), [0x43, 0x65, 0x6e, 0x74, 0x61, 0x75, 0x72, 0x48, 0x61, 0x75, 0x6c, 0x73]);
    case Shanghai => SpellsWords(VendorString(Shanghai), VendorWords(Shanghai), [0x20, 0x20, 0x53, 0x68, 0x61, 0x6e, 0x67, 0x68, 0x61, 0x69, 0x20, 0x20]);
    case Hygon => SpellsWords(VendorString(Hygon), VendorWords(Hygon), [0x48, 0x79, 0x67, 0x6f, 0x6e, 0x47, 0x65, 0x6e, 0x75, 0x69, 0x6e, 0x65]);
  }

  /** A twelve-character string with the given bytes occupies the given registers. */
  lemma SpellsWords(s: string, r: VendorRegs, bytes: seq<byte>)
    requires |s| == 12 && |bytes| == 12
    requires forall i :: 0 <= i < 12 ==> (s[i] as int) % 0x100 == bytes[i]
    requires r == VendorRegs(WordAt(bytes, 0), WordAt(bytes, 8), WordAt(bytes, 4))
    ensures IdentToRegs(Ident(s)) == r
  {
    assert Ident(s) == bytes;
  }

  /** Each known string identifies its own vendor. */
  lemma LookupKnownVendor(v: X86Vendor)
    requires v != Unknown
    ensures LookupVendor(VendorRegsOf(v).ebx, VendorRegsOf(v).ecx, VendorRegsOf(v).edx) == v
  {
    VendorWordsSpellString(v);
  }

  /** The registers a test string gives, passed to the lookup as (b, c, d). */
  function LookupIdent(s: string): X86Vendor
    requires |s| <= 12
  {
    var r := IdentToRegs(Ident(s));
    LookupVendor(r.ebx, r.ecx, r.edx)
  }

  /** The vendor-identification table of the unit tests: the five vendor strings. */
  lemma KnownVendorTable()
    ensures LookupIdent("GenuineIntel") == Intel
    ensures LookupIdent("AuthenticAMD") == Amd
    ensures LookupIdent("CentaurHauls") == Centaur
    ensures LookupIdent("  Shanghai  ") == Shanghai
    ensures LookupIdent("HygonGenuine") == Hygon
  {
    assert LookupIdent("GenuineIntel") == Intel by { LookupKnownVendor(Intel); }
    assert LookupIdent("AuthenticAMD") == Amd by { LookupKnownVendor(Amd); }
    assert LookupIdent("CentaurHauls") == Centaur by { LookupKnownVendor(Centaur); }
    assert LookupIdent("  Shanghai  ") == Shanghai by { LookupKnownVendor(Shanghai); }
    assert LookupIdent("HygonGenuine") == Hygon by { LookupKnownVendor(Hygon); }
  }

  /** The rest of the table: strings that are not an exact match are Unknown. */
  lemma EmptyIdentIsUnknown()
    ensures LookupIdent("") == Unknown
  {
    UniformIdent(Ident(""), 0);
  }

  lemma BlankIdentIsUnknown()
    ensures LookupIdent("            ") == Unknown
  {
    UniformIdent(Ident("            "), 0x20);
  }

  lemma FillerIdentIsUnknown()
    ensures LookupIdent("xxxxxxxxxxxx") == Unknown
  {
    UniformIdent(Ident("xxxxxxxxxxxx"), 0x78);
  }

  /** Twelve equal bytes are never a vendor string: every known string mixes bytes. */
  lemma UniformIdent(ident: seq<byte>, b: byte)
    requires |ident| == 12 && forall i :: 0 <= i < 12 ==> ident[i] == b
    ensures LookupVendor(IdentToRegs(ident).ebx, IdentToRegs(ident).ecx, IdentToRegs(ident).edx) == Unknown
  {
    var w := b * 0x0101_0101;
    assert WordAt(ident, 0) == w && WordAt(ident, 4) == w && WordAt(ident, 8) == w;
    SameWordUnknown(b);
  }

  /** The same byte repeated in all three registers matches no vendor. */
  lemma SameWordUnknown(b: byte)
    ensures LookupVendor(b * 0x0101_0101, b * 0x0101_0101, b * 0x0101_0101) == Unknown
  {
    var w: u32 := b * 0x0101_0101;
    assert w != 0x756e_6547 && w != 0x6874_7541 && w != 0x746e_6543 && w != 0x6853_2020 && w != 0x6f67_7948;
  }
}
