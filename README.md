# x86 CPU policy library, modelled in Dafny

This project models Xen's x86 CPU-policy library as its unit tests in
`tools/tests/cpu-policy/test-cpu-policy.c` pin it down. A CPU policy is a
record holding:

- the CPUID leaves a guest may see, in six families: basic, cache (leaf 4),
  feat (leaf 7), topo (leaf 0xb), xstate (leaf 0xd) and extended
  (0x80000000 + i);
- the two hypervisor leaf limits;
- the two MSRs it carries, MSR_INTEL_PLATFORM_INFO (0xce) and
  MSR_ARCH_CAPABILITIES (0x10a).

The model covers:

- **Vendor lookup** (`Vendor`): vendor identification from the ebx/ecx/edx
  identification words. Proved: the round trip between the twelve-byte
  string and the register words, and the test table.
- **CPUID serialisation** (`CpuidSerialise`): the order in which
  `x86_cpuid_copy_to_buffer` writes the leaves.
  - Each family walk has its own stop rule: leaf 4 and leaf 0xb include
    their first type-0 subleaf; leaf 7 stops at max_subleaf; leaf 0xd always
    has subleaves 0 and 1, then continues while the xcr0/xss mask reaches.
  - The record count has a closed form.
  - The output is strictly ascending, so `leaves_are_sorted` holds.
  - The buffer method fails with -ENOBUFS and writes nothing, or writes
    exactly the serialisation.
- **CPUID deserialisation** (`CpuidDeserialise`):
  `x86_cpuid_copy_from_buffer` classifies each record into a slot of the
  policy.
  - It validates every record before it writes any. A record that names no
    slot gives -ERANGE, with its leaf and subleaf reported and the
    destination untouched.
  - A null destination only validates.
- **Round trips** (`CpuidRoundTrip`):
  - deserialising a policy's records overwrites exactly the slots the
    serialiser emits;
  - serialising again gives the same records;
  - a policy holding nothing outside those slots comes back whole.
- **MSRs** (`MsrBuffer`): `x86_msr_copy_to_buffer`,
  `x86_msr_copy_from_buffer` and the per-record error order (-ERANGE,
  -EINVAL, -EOVERFLOW), with the same validate-then-commit structure.
- **Out-of-range clearing** (`ClearLeaves`):
  `x86_cpu_policy_clear_out_of_range_leaves` works in place on a record of
  arrays. It is proved equal to a pure zeroing function that is idempotent,
  leaves clean records alone and changes no declared range. The clearing
  table of the unit tests is proved.
- **The whole policy** (`PolicyRoundTrip`): a cleared policy survives
  serialise-then-deserialise of both its CPUID and its MSR records.
- **Compatibility** (`Compat`): `x86_cpu_policies_are_compatible` returns a
  verdict and a three-field locator. The locator names the first failing
  check: basic.max_leaf, then extd.max_leaf, then platform-info bits. The
  verdict is reflexive and transitive.

The library's own sources and headers are not part of this model; only the
test program is. Several quantities are abstract constants, constrained
only by what the tests imply:

- the array capacities `CPUID_GUEST_NR_*` (`NR_BASIC`, `NR_CACHE`, ...);
- the no-subleaf marker `XEN_CPUID_NO_SUBLEAF` (`NO_SUBLEAF`): any nonzero
  32-bit value;
- `CPUID_MAX_SERIALISED_LEAVES` (`MAX_SERIALISED_LEAVES`): defined from the
  capacities.

The tests leave several behaviours open. The model makes one choice for
each, listed here and again under "Left out":

- `MSR_MAX_SERIALISED_ENTRIES` is 2, one record per MSR the policy
  carries; the tests use it as the buffer size and as the record count
  the empty policy must report (lines 251, 260 and 276).
- A buffer too small for the serialisation gives -ENOBUFS, nothing is
  written and the needed count is reported; the tests always pass a buffer
  of exactly the expected size (lines 207-214 and 260-267).
- Both deserialisers validate every record before writing any; the tests
  only use a null destination (lines 352 and 410).
- An MSR record is checked for its index, then its flags, then its value
  (lines 378-399 break one rule per record).
- An incompatible verdict is -EINVAL; the tests only require it to be
  nonzero (line 648).
- Xstate subleaves 0 and 1 survive clearing whenever leaf 0xd is in range,
  even with an empty mask; the tests never clear such a policy
  (lines 493-534).
- The hypervisor leaves hold only their limit in eax.

## Model

| member | source | states |
|---|---|---|
| Vendor.LookupVendor | tools/tests/cpu-policy/test-cpu-policy.c:58-66 | a known vendor is returned exactly when (ebx, ecx, edx) are that vendor's three words, and Unknown exactly when they match no vendor |
| Vendor.IdentRoundTrip | tools/tests/cpu-policy/test-cpu-policy.c:36-41 | overlaying a 12-byte string on (b, d, c) and reading it back gives the same bytes |
| Vendor.RegsRoundTrip | tools/tests/cpu-policy/test-cpu-policy.c:36-41 | writing the three registers out as a string and overlaying again gives the same registers |
| Vendor.WordBytesRoundTrip | tools/tests/cpu-policy/test-cpu-policy.c:38-40 | a 32-bit word read back from its four little-endian bytes is the same word |
| Vendor.WordAtRoundTrip | tools/tests/cpu-policy/test-cpu-policy.c:38-40 | four bytes read as a little-endian word and written back are the same bytes |
| Vendor.VendorWordsSpellString | tools/tests/cpu-policy/test-cpu-policy.c:49-53 | each vendor's register words are its identification string laid over (b, d, c) |
| Vendor.LookupKnownVendor | tools/tests/cpu-policy/test-cpu-policy.c:49-53 | every known vendor's string is identified as that vendor |
| Vendor.KnownVendorTable | tools/tests/cpu-policy/test-cpu-policy.c:49-53 | GenuineIntel, AuthenticAMD, CentaurHauls, "  Shanghai  " and HygonGenuine give Intel, AMD, Centaur, Shanghai and Hygon |
| Vendor.EmptyIdentIsUnknown | tools/tests/cpu-policy/test-cpu-policy.c:45 | the empty (all-zero) string is Unknown |
| Vendor.BlankIdentIsUnknown | tools/tests/cpu-policy/test-cpu-policy.c:46 | twelve spaces are Unknown |
| Vendor.FillerIdentIsUnknown | tools/tests/cpu-policy/test-cpu-policy.c:47 | twelve 'x' characters are Unknown |
| Vendor.UniformIdent | tools/tests/cpu-policy/test-cpu-policy.c:45-47 | no string of twelve equal bytes names a vendor |
| Vendor.SameWordUnknown | tools/tests/cpu-policy/test-cpu-policy.c:45-47 | one byte repeated through all three registers names no vendor |
| CpuPolicy.BasicBound | tools/tests/cpu-policy/test-cpu-policy.c:130-199 | the highest basic leaf held is max_leaf when that is inside the array, and otherwise the last slot, which max_leaf then exceeds |
| CpuPolicy.ExtdBound | tools/tests/cpu-policy/test-cpu-policy.c:535-545 | the highest extended leaf held is the low 16 bits of extd.max_leaf when inside the array, and otherwise the last slot, which they then exceed |
| CpuPolicy.FeatBound | tools/tests/cpu-policy/test-cpu-policy.c:147-162 | the highest feat subleaf held is max_subleaf when inside the array, and otherwise the last slot, which max_subleaf then exceeds |
| CpuPolicy.MaxLeaf | tools/tests/cpu-policy/test-cpu-policy.c:134 | basic.max_leaf is leaf 0 eax (definition; no contract) |
| CpuPolicy.VendorEbx | tools/tests/cpu-policy/test-cpu-policy.c:441 | basic.vendor_ebx is leaf 0 ebx (definition; no contract) |
| CpuPolicy.RawFms | tools/tests/cpu-policy/test-cpu-policy.c:443 | basic.raw_fms is leaf 1 eax (definition; no contract) |
| CpuPolicy.CacheType | tools/tests/cpu-policy/test-cpu-policy.c:142 | a cache subleaf's type is a 5-bit field of eax, below 32 |
| CpuPolicy.FeatMaxSubleaf | tools/tests/cpu-policy/test-cpu-policy.c:159 | feat.max_subleaf is leaf 7 subleaf 0 eax (definition; no contract) |
| CpuPolicy.TopoType | tools/tests/cpu-policy/test-cpu-policy.c:176 | a topo subleaf's type is an 8-bit field of ecx, below 0x100 |
| CpuPolicy.Xcr0Low | tools/tests/cpu-policy/test-cpu-policy.c:196 | xstate.xcr0_low is leaf 0xd subleaf 0 eax (definition; no contract; xcr0_high, xss_low and xss_high are its siblings Xcr0High, XssLow, XssHigh) |
| CpuPolicy.ExtdMaxLeaf | tools/tests/cpu-policy/test-cpu-policy.c:540 | extd.max_leaf is leaf 0x80000000 eax (definition; no contract; ExtdVendorEbx and ExtdRawFms are its siblings) |
| CpuPolicy.CpuidFaulting | tools/tests/cpu-policy/test-cpu-policy.c:582 | platform_info.cpuid_faulting (definition; its meaning is proved by CpuidFaultingIsBit31) |
| CpuPolicy.CpuidFaultingIsBit31 | tools/tests/cpu-policy/test-cpu-policy.c:582 | cpuid_faulting holds exactly when bit 31 of platform_info is set |
| CpuPolicy.PolicyRecord.constructor | tools/tests/cpu-policy/test-cpu-policy.c:553 | a fresh record of arrays is valid and holds the all-zero policy |
| CpuPolicy.PolicyRecord.Value | tools/tests/cpu-policy/test-cpu-policy.c:553-557 | the policy value a record of arrays holds (definition; no contract) |
| CpuPolicy.FirstUntyped | tools/tests/cpu-policy/test-cpu-policy.c:130-145 | the result is the first index from i whose type is 0 (or the array length), all types before it nonzero |
| CpuPolicy.FirstUntypedUnique | tools/tests/cpu-policy/test-cpu-policy.c:130-145 | any index with nonzero types before it and type 0 at it (or the end) is the first untyped index |
| CpuPolicy.BitLengthPow2 | tools/tests/cpu-policy/test-cpu-policy.c:181-184 | a mask has a bit at position s or above exactly when its bit length exceeds s |
| CpuPolicy.XstatesFromBitLength | tools/tests/cpu-policy/test-cpu-policy.c:181-184 | (xcr0 \| xss) >> s is nonzero exactly when s is below the larger bit length of the two masks |
| CpuPolicy.XstateEnd | tools/tests/cpu-policy/test-cpu-policy.c:181-191 | leaf 0xd always has at least two subleaves in use, and never more than the array holds |
| CpuPolicy.XstateEndBound | tools/tests/cpu-policy/test-cpu-policy.c:181-199 | subleaf s is in use exactly when it is within the array and is 0, 1 or reached by the mask |
| CpuidSerialise.SerialiseCpuid | tools/tests/cpu-policy/test-cpu-policy.c:118-240 | the serialisation: basic walk, hypervisor leaves, extended walk (definition; its count, order and contents are stated by SerialisedCount, SerialisedSorted, SerialisedDescribes and SerialisedFits) |
| CpuidSerialise.RunSplit | tools/tests/cpu-policy/test-cpu-policy.c:130-199 | adjacent runs of one leaf join into the run over both ranges |
| CpuidSerialise.ExtdRunSplit | tools/tests/cpu-policy/test-cpu-policy.c:125-128 | adjacent runs of extended leaves join into the run over both ranges |
| CpuidSerialise.TerminatedCount | tools/tests/cpu-policy/test-cpu-policy.c:130-145 | a terminated family emits at least one subleaf and at most the array |
| CpuidSerialise.TerminatedFromIsRun | tools/tests/cpu-policy/test-cpu-policy.c:130-145 | the leaf 4 / leaf 0xb walk emits exactly the subleaves up to and including the first of type 0 |
| CpuidSerialise.FeatFromIsRun | tools/tests/cpu-policy/test-cpu-policy.c:147-162 | the leaf 7 walk emits exactly subleaves 0..max_subleaf (clamped) |
| CpuidSerialise.XstateFromIsRun | tools/tests/cpu-policy/test-cpu-policy.c:181-199 | the leaf 0xd walk emits exactly the subleaves below max(2, the mask's bit length), clamped |
| CpuidSerialise.ExtdFromIsRun | tools/tests/cpu-policy/test-cpu-policy.c:125-128 | the extended walk emits exactly leaves 0x80000000..0x80000000 + (max_leaf & 0xffff), clamped |
| CpuidSerialise.LeafBlockCount | tools/tests/cpu-policy/test-cpu-policy.c:130-199 | each basic leaf contributes the number of records the closed-form count gives it |
| CpuidSerialise.BasicFromCount | tools/tests/cpu-policy/test-cpu-policy.c:130-199 | the basic walk from a leaf writes the closed-form count of records |
| CpuidSerialise.SerialisedCount | tools/tests/cpu-policy/test-cpu-policy.c:223-228 | the serialiser writes exactly CpuidCount(p) records |
| CpuidSerialise.SerialisedFits | tools/tests/cpu-policy/test-cpu-policy.c:99-116 | every policy fits a buffer of CPUID_MAX_SERIALISED_LEAVES records |
| CpuidSerialise.SortedConcat | tools/tests/cpu-policy/test-cpu-policy.c:69-87 | two sorted runs, each entirely before the other's first record, concatenate to a sorted run |
| CpuidSerialise.RunSorted | tools/tests/cpu-policy/test-cpu-policy.c:69-87 | a run of subleaves of one leaf is strictly ascending and stays within that leaf |
| CpuidSerialise.LeafBlockSorted | tools/tests/cpu-policy/test-cpu-policy.c:69-87 | each basic leaf's records are strictly ascending and carry that leaf |
| CpuidSerialise.BasicFromSorted | tools/tests/cpu-policy/test-cpu-policy.c:69-87 | the basic walk is strictly ascending and stays below NR_BASIC |
| CpuidSerialise.SerialisedSorted | tools/tests/cpu-policy/test-cpu-policy.c:114-115 | every serialisation is strictly ascending by (leaf, subleaf) |
| CpuidSerialise.EmptyPolicyCount | tools/tests/cpu-policy/test-cpu-policy.c:125-128 | the empty policy serialises to 4 records |
| CpuidSerialise.EmptyCacheCount | tools/tests/cpu-policy/test-cpu-policy.c:131-137 | max_leaf 4 with no cache data gives 8 records |
| CpuidSerialise.PartialCacheCount | tools/tests/cpu-policy/test-cpu-policy.c:138-145 | cache subleaf 0 of type 1 gives 9 records |
| CpuidSerialise.EmptyFeatCount | tools/tests/cpu-policy/test-cpu-policy.c:148-154 | max_leaf 7 with max_subleaf 0 gives 11 records |
| CpuidSerialise.PartialFeatCount | tools/tests/cpu-policy/test-cpu-policy.c:155-162 | max_subleaf 1 gives 12 records |
| CpuidSerialise.EmptyTopoCount | tools/tests/cpu-policy/test-cpu-policy.c:165-171 | max_leaf 0xb with no topo data gives 15 records |
| CpuidSerialise.PartialTopoCount | tools/tests/cpu-policy/test-cpu-policy.c:172-179 | topo subleaf 0 of type 1 gives 16 records |
| CpuidSerialise.XstateEndOf | tools/tests/cpu-policy/test-cpu-policy.c:185-199 | with only xcr0_low = x set (x = 0 or 7), leaf 0xd has 2 or 3 subleaves in use |
| CpuidSerialise.EmptyXstateCount | tools/tests/cpu-policy/test-cpu-policy.c:185-191 | max_leaf 0xd with an empty mask gives 18 records |
| CpuidSerialise.PartialXstateCount | tools/tests/cpu-policy/test-cpu-policy.c:192-199 | xcr0_low = 7 gives 19 records |
| CpuidSerialise.LeavesAreSorted | tools/tests/cpu-policy/test-cpu-policy.c:69-87 | the scan answers true exactly when the first nr records strictly increase by (leaf, subleaf) |
| CpuidSerialise.WritePrefix | tools/tests/cpu-policy/test-cpu-policy.c:214 | the buffer's front holds the records and everything after them is unchanged |
| CpuidSerialise.CopyCpuidToBuffer | tools/tests/cpu-policy/test-cpu-policy.c:110-112 | the count reported is the serialisation's length; success exactly when it fits; on success the front of the buffer is the serialisation and the rest untouched; otherwise -ENOBUFS and nothing written |
| CpuidDeserialise.Classify | tools/tests/cpu-policy/test-cpu-policy.c:300-340 | an accepted record names an addressable slot (in range, not the basic slot of a subleaf family) whose leaf and subleaf are the record's own |
| CpuidDeserialise.ClassifyAccepts | tools/tests/cpu-policy/test-cpu-policy.c:317-340 | every addressable slot is reached by the record carrying its leaf and subleaf |
| CpuidDeserialise.ClassifyRejects | tools/tests/cpu-policy/test-cpu-policy.c:300-340 | a record gives -ERANGE exactly when no addressable slot has its leaf and subleaf |
| CpuidDeserialise.Store | tools/tests/cpu-policy/test-cpu-policy.c:352-353 | writing a record changes the slot it names, and no other slot and no MSR field |
| CpuidDeserialise.ApplyAll | tools/tests/cpu-policy/test-cpu-policy.c:352-353 | copying records in never changes the MSR fields |
| CpuidDeserialise.FirstOutOfRange | tools/tests/cpu-policy/test-cpu-policy.c:352-368 | the index found is the first record that names no slot, or the count when every record is accepted |
| CpuidDeserialise.FirstOutOfRangeIs | tools/tests/cpu-policy/test-cpu-policy.c:352-368 | an index with accepted records before it and a rejected record at it (or the end) is the one FirstOutOfRange finds |
| CpuidDeserialise.StoreEntry | tools/tests/cpu-policy/test-cpu-policy.c:352-353 | one record copied into the record's arrays gives Store of the old value |
| CpuidDeserialise.FindOutOfRange | tools/tests/cpu-policy/test-cpu-policy.c:352-360 | the validation pass returns the index of the first rejected record |
| CpuidDeserialise.CommitLeaves | tools/tests/cpu-policy/test-cpu-policy.c:351-353 | the commit pass leaves the destination equal to every record copied in, in order |
| CpuidDeserialise.CopyCpuidFromBuffer | tools/tests/cpu-policy/test-cpu-policy.c:351-368 | on the first rejected record: -ERANGE, its leaf and subleaf reported, destination unchanged; otherwise 0, ~0 reported, every record copied in order; a null destination is never written |
| CpuidDeserialise.SubleafOnPlainLeafRejected | tools/tests/cpu-policy/test-cpu-policy.c:301-316 | subleaf 0 on leaf 0, 0x40000000, 0x40000100 or 0x80000000 is out of range |
| CpuidDeserialise.CapacityBoundsRejected | tools/tests/cpu-policy/test-cpu-policy.c:317-340 | one past each family's capacity is out of range |
| CpuidDeserialise.CapacityLimitsAccepted | tools/tests/cpu-policy/test-cpu-policy.c:317-340 | the last slot of each family, and the no-subleaf leaves, are accepted into the slot they name |
| CpuidRoundTrip.EmitsInRange | tools/tests/cpu-policy/test-cpu-policy.c:214 | every slot the serialiser reads is addressable: inside the record and not the basic slot of a subleaf family |
| CpuidRoundTrip.SerialisedDescribes | tools/tests/cpu-policy/test-cpu-policy.c:214 | every record written is one of p's emitted slots carrying that slot's registers |
| CpuidRoundTrip.LeafBlockDescribes | tools/tests/cpu-policy/test-cpu-policy.c:130-199 | every record of a basic leaf's block is an emitted slot with its registers |
| CpuidRoundTrip.BasicFromDescribes | tools/tests/cpu-policy/test-cpu-policy.c:130-199 | every record of the basic walk is an emitted slot with its registers |
| CpuidRoundTrip.SerialisedInRange | tools/tests/cpu-policy/test-cpu-policy.c:352-360 | the deserialiser accepts every record the serialiser writes |
| CpuidRoundTrip.EmittedIsSerialised | tools/tests/cpu-policy/test-cpu-policy.c:214 | every emitted slot has its record in the serialisation |
| CpuidRoundTrip.ClassifyInjective | tools/tests/cpu-policy/test-cpu-policy.c:300-340 | two records naming the same slot have the same leaf and subleaf |
| CpuidRoundTrip.SerialisedDistinct | tools/tests/cpu-policy/test-cpu-policy.c:114-115 | no two serialised records name the same slot |
| CpuidRoundTrip.ApplyAllGet | tools/tests/cpu-policy/test-cpu-policy.c:352-353 | after copying in distinct records, a slot holds its record's registers, or its old value when no record names it |
| CpuidRoundTrip.SerialiseAgree | tools/tests/cpu-policy/test-cpu-policy.c:214 | two policies that agree on p's emitted slots serialise identically |
| CpuidRoundTrip.ClassifyRecordFor | tools/tests/cpu-policy/test-cpu-policy.c:214 | the record written for any addressable slot is classified back to that slot |
| CpuidRoundTrip.EmittedSlotCopied | tools/tests/cpu-policy/test-cpu-policy.c:214 | copying p's records in gives each emitted slot p's registers |
| CpuidRoundTrip.UnemittedSlotKept | tools/tests/cpu-policy/test-cpu-policy.c:214 | copying p's records in leaves each slot p does not emit as it was |
| CpuidRoundTrip.DeserialiseSerialised | tools/tests/cpu-policy/test-cpu-policy.c:214 | deserialising p's records into q gives p's registers in p's emitted slots, q's elsewhere, and q's MSRs |
| CpuidRoundTrip.ReserialiseRoundTrip | tools/tests/cpu-policy/test-cpu-policy.c:214 | serialise, deserialise into any record, serialise again: the same records |
| CpuidRoundTrip.PolicyExtensionality | tools/tests/cpu-policy/test-cpu-policy.c:214 | two policies equal in every slot and both MSR fields are equal |
| CpuidRoundTrip.SerialiseRoundTrip | tools/tests/cpu-policy/test-cpu-policy.c:214 | a policy with nothing outside its emitted slots deserialises from its own records into an empty policy exactly, apart from the MSRs |
| MsrBuffer.SerialiseMsrs | tools/tests/cpu-policy/test-cpu-policy.c:242-293 | the MSR serialisation has MSR_MAX_SERIALISED_ENTRIES records, strictly ascending by index, all acceptable |
| MsrBuffer.MsrError | tools/tests/cpu-policy/test-cpu-policy.c:378-399 | -ERANGE exactly for an unknown index; -EINVAL exactly for a known index with nonzero flags; -EOVERFLOW exactly for a known index, zero flags and a value beyond 32 bits; 0 otherwise |
| MsrBuffer.FirstBadMsr | tools/tests/cpu-policy/test-cpu-policy.c:410-424 | the index found is the first unacceptable record, or the count |
| MsrBuffer.FirstBadMsrIs | tools/tests/cpu-policy/test-cpu-policy.c:410-424 | an index with acceptable records before it and a bad one at it (or the end) is the one FirstBadMsr finds |
| MsrBuffer.MsrRoundTrip | tools/tests/cpu-policy/test-cpu-policy.c:267 | copying p's MSR records into q gives q with p's two MSRs and nothing else changed |
| MsrBuffer.ApplyMsrs | tools/tests/cpu-policy/test-cpu-policy.c:410 | copying MSR records in changes nothing but the two MSR fields |
| MsrBuffer.ApplyMsrsLastWins | tools/tests/cpu-policy/test-cpu-policy.c:410 | an MSR takes the value of the last record naming it |
| MsrBuffer.ApplyMsrsUnnamedKept | tools/tests/cpu-policy/test-cpu-policy.c:410 | an MSR no record names keeps its old value |
| MsrBuffer.UnknownIndexRejected | tools/tests/cpu-policy/test-cpu-policy.c:380-382 | index 0xdeadc0de gives -ERANGE |
| MsrBuffer.NonzeroFlagsRejected | tools/tests/cpu-policy/test-cpu-policy.c:385-387 | 0xce with flags 1 gives -EINVAL |
| MsrBuffer.TruncatedValueRejected | tools/tests/cpu-policy/test-cpu-policy.c:389-398 | an all-ones value for 0xce or 0x10a gives -EOVERFLOW |
| MsrBuffer.MsrsAreSorted | tools/tests/cpu-policy/test-cpu-policy.c:89-97 | the scan answers true exactly when the MSR index never decreases over the first nr records |
| MsrBuffer.CopyMsrToBuffer | tools/tests/cpu-policy/test-cpu-policy.c:267-281 | the count reported is the serialisation's length; success exactly when it fits, with the records at the front and the rest untouched; otherwise -ENOBUFS and nothing written |
| MsrBuffer.FindBadMsr | tools/tests/cpu-policy/test-cpu-policy.c:410-417 | the validation pass returns the first bad record's index and its error code |
| MsrBuffer.CopyMsrFromBuffer | tools/tests/cpu-policy/test-cpu-policy.c:409-424 | on the first bad record: its error, its index reported, destination unchanged; otherwise 0, ~0 reported, every record copied in order; a null destination is never written |
| ClearLeaves.KeepBelowTwice | tools/tests/cpu-policy/test-cpu-policy.c:557 | zeroing from n and then from m is zeroing from the smaller of the two |
| ClearLeaves.KeepBelowAll | tools/tests/cpu-policy/test-cpu-policy.c:557 | zeroing from the length on or later changes nothing |
| ClearLeaves.KeepBelowFixed | tools/tests/cpu-policy/test-cpu-policy.c:559-563 | zeroing from n changes nothing exactly when every entry from n on is already zero |
| ClearLeaves.Clean | tools/tests/cpu-policy/test-cpu-policy.c:559-567 | every entry outside the declared ranges is zero (definition; related to clearing by CleanIffFixed and ClearedIsClean) |
| ClearLeaves.ClearOutOfRange | tools/tests/cpu-policy/test-cpu-policy.c:428-571 | each family zeroed beyond its declared range (definition; its properties are ClearKeepsRanges, ClearedIsClean, CleanIffFixed, ClearIdempotent and the clearing-table lemmas) |
| ClearLeaves.ClearKeepsRanges | tools/tests/cpu-policy/test-cpu-policy.c:439-441 | clearing changes neither max_leaf nor any family's declared extent |
| ClearLeaves.ClearedIsClean | tools/tests/cpu-policy/test-cpu-policy.c:559-567 | after clearing, nothing outside the declared ranges is nonzero |
| ClearLeaves.CleanIsFixed | tools/tests/cpu-policy/test-cpu-policy.c:557 | clearing a clean policy changes nothing |
| ClearLeaves.CleanIffFixed | tools/tests/cpu-policy/test-cpu-policy.c:557 | a policy is clean exactly when clearing leaves it unchanged |
| ClearLeaves.ClearIdempotent | tools/tests/cpu-policy/test-cpu-policy.c:557 | clearing twice is clearing once |
| ClearLeaves.ZeroLeaves | tools/tests/cpu-policy/test-cpu-policy.c:557 | every array entry from first on is zero and the rest unchanged |
| ClearLeaves.FirstUntypedIndex | tools/tests/cpu-policy/test-cpu-policy.c:455-459 | the scan finds the first subleaf of type 0, or the capacity |
| ClearLeaves.TerminatedExtent | tools/tests/cpu-policy/test-cpu-policy.c:451-492 | the cache/topo extent is empty when the leaf is beyond max_leaf, else everything before the first type-0 subleaf |
| ClearLeaves.XstateExtent | tools/tests/cpu-policy/test-cpu-policy.c:493-534 | the xstate extent is empty when leaf 0xd is beyond max_leaf, else max(2, the mask's bit length) |
| ClearLeaves.ClearOutOfRangeLeaves | tools/tests/cpu-policy/test-cpu-policy.c:557 | the record's arrays become the cleared policy of their old contents, nothing else changes |
| ClearLeaves.BasicClearing | tools/tests/cpu-policy/test-cpu-policy.c:435-450 | basic max_leaf 0: only vendor_ebx survives; raw_fms and the cache, feat, topo and xstate markers are zeroed |
| ClearLeaves.CacheClearing | tools/tests/cpu-policy/test-cpu-policy.c:451-465 | cache subleaf 0 (type 1) survives; subleaf 1 and the later families are zeroed |
| ClearLeaves.FeatClearing | tools/tests/cpu-policy/test-cpu-policy.c:466-479 | feat subleaf 0 survives; subleaf 1, topo and xstate are zeroed |
| ClearLeaves.TopoClearing | tools/tests/cpu-policy/test-cpu-policy.c:480-492 | topo subleaf 0 (type 1) survives; subleaf 1 and xstate are zeroed |
| ClearLeaves.XstateTestKeep | tools/tests/cpu-policy/test-cpu-policy.c:493-534 | masks 1 and 2 keep 2 xstate subleaves, mask 7 keeps 3 |
| ClearLeaves.XstateTestOthersKept | tools/tests/cpu-policy/test-cpu-policy.c:493-534 | in the xstate tests clearing changes only the xstate family |
| ClearLeaves.XstateLowClearing | tools/tests/cpu-policy/test-cpu-policy.c:493-520 | x87 or SSE only: subleaves 0 and 1 survive, 2 and 3 are zeroed |
| ClearLeaves.XstateAvxClearing | tools/tests/cpu-policy/test-cpu-policy.c:521-534 | AVX (mask 7): subleaves 0 to 2 survive, 3 is zeroed |
| ClearLeaves.ExtdClearing | tools/tests/cpu-policy/test-cpu-policy.c:535-545 | extd max_leaf 0: extd vendor_ebx survives, raw_fms is zeroed |
| PolicyRoundTrip.CleanHoldsOnlyEmitted | tools/tests/cpu-policy/test-cpu-policy.c:557 | a clean policy with zero raw leaves 4, 7, 0xb and 0xd holds nothing the serialiser drops |
| PolicyRoundTrip.FullRoundTrip | tools/tests/cpu-policy/test-cpu-policy.c:214 | the CPUID and MSR records of such a policy, copied into an empty policy, give the policy back |
| PolicyRoundTrip.ClearedRoundTrip | tools/tests/cpu-policy/test-cpu-policy.c:557 | a cleared policy survives serialise-then-deserialise of both record streams unchanged |
| Compat.ExtraBits | tools/tests/cpu-policy/test-cpu-policy.c:585-593 | the guest mask has a bit the host mask lacks (definition; its properties are NoExtraBitsInSelf, ExtraBitsTransitive, NonzeroOverZero and HighBitExtra) |
| Compat.Compatible | tools/tests/cpu-policy/test-cpu-policy.c:573-656 | the three checks pass: guest max_leaf and extd max_leaf within the host's, no extra platform-info bit (definition; CheckCompatible answers 0 exactly when it holds) |
| Compat.CheckCompatible | tools/tests/cpu-policy/test-cpu-policy.c:603-610 | 0 exactly when the guest's max_leaf, extd max_leaf and platform-info bits are within the host's, with the locator all ~0; otherwise -EINVAL and the locator of the first failing check |
| Compat.NoExtraBitsInSelf | tools/tests/cpu-policy/test-cpu-policy.c:585-593 | no mask has a bit that it lacks itself |
| Compat.ExtraBitsTransitive | tools/tests/cpu-policy/test-cpu-policy.c:603 | bit-mask inclusion composes |
| Compat.NonzeroOverZero | tools/tests/cpu-policy/test-cpu-policy.c:630-635 | a nonzero mask has a bit an all-zero host lacks |
| Compat.HighBitExtra | tools/tests/cpu-policy/test-cpu-policy.c:630-635 | a guest mask at or above 2^k against a host mask below it has a bit the host lacks |
| Compat.CompatibleReflexive | tools/tests/cpu-policy/test-cpu-policy.c:585-610 | every policy is compatible with itself, with no error recorded |
| Compat.CompatibleTransitive | tools/tests/cpu-policy/test-cpu-policy.c:603 | a guest compatible with a middle policy that is compatible with the host is compatible with the host |
| Compat.LocatorNamesFailure | tools/tests/cpu-policy/test-cpu-policy.c:645-655 | on failure the subleaf is ~0, exactly one of leaf and msr is set, and it names a check that really fails |
| Compat.FaultingNeedsHostFaulting | tools/tests/cpu-policy/test-cpu-policy.c:630-635 | a guest with cpuid_faulting against a host without it has an extra platform-info bit |
| Compat.FaultingHostAccepts | tools/tests/cpu-policy/test-cpu-policy.c:579-610 | a host with cpuid_faulting accepts a guest with or without it, with no error recorded |
| Compat.BasicMaxLeafRefused | tools/tests/cpu-policy/test-cpu-policy.c:620-624 | guest max_leaf 1 against host 0 is refused with {0, ~0, ~0} |
| Compat.ExtdMaxLeafRefused | tools/tests/cpu-policy/test-cpu-policy.c:625-629 | guest extd max_leaf 1 against host 0 is refused with {0x80000000, ~0, ~0} |
| Compat.FaultingGuestRefused | tools/tests/cpu-policy/test-cpu-policy.c:630-636 | a guest wanting faulting from a host without it is refused with {~0, ~0, 0xce} |

## Left out

- `x86_cpu_policy_fill_native` executes CPUID on the running processor. It is not modelled. Every property of the serialiser holds for all policies, which covers whatever it fills in, including the current-CPU test.
- The test harness is not modelled: failure reporting and counting, printing, allocation and freeing, error aborts, and `main`.
- The byte-level `memchr` count of remaining 0xc2 markers is not modelled. Each clearing test instead states which named fields survive and which are zeroed, as an equality on the whole cleared policy.
- The library sources, its headers and the real values of the `CPUID_GUEST_NR_*` constants and `XEN_CPUID_NO_SUBLEAF` are not part of this model. They are abstract constants bounded by what the tests imply.
- Buffer capacities are passed in and counts returned. The C in/out `nr` pointer and the `-EFAULT` path of guest-handle copies are not modelled.
- The hypervisor leaves 0x40000000 and 0x40000100 are modelled as holding only their limit in eax.
- The other context files are not modelled. `xen/arch/arm/include/asm/arm32/flushtlb.h` is TLB-maintenance assembly with no decision logic. `xen/arch/x86/mm/shadow/none.c` is a table of stub callbacks.
- MsrBuffer.SerialiseMsrs writes one record per carried MSR, so `MSR_MAX_SERIALISED_ENTRIES` is 2. That value is the model's choice: the tests only require the empty policy's record count to equal the constant (lines 251, 260 and 276), whatever its value.
- MsrBuffer.MsrError checks index, then flags, then whether the value fits. The tests cannot tell this order from flags-first, because each failing record breaks only one rule.
- ClearLeaves.ClearOutOfRange keeps xstate subleaves 0 and 1 whenever leaf 0xd is in range, even with an empty mask. The upstream library zeroes them when no state bit is set; the tests do not cover that case.
- Compat.CheckCompatible models only the three checks the tests exercise. Any further CPUID audit in the library is not modelled, and an incompatible verdict is modelled as -EINVAL (the tests only require it to be nonzero).
- CpuidSerialise.CopyCpuidToBuffer: on -ENOBUFS it writes nothing and reports the needed count. The tests always pass a buffer of exactly the expected size (lines 207-214), so this path is a choice of the model.
- MsrBuffer.CopyMsrToBuffer: on -ENOBUFS it writes nothing and reports the needed count. The tests always pass a buffer of exactly the expected size (lines 260-267).
- MsrBuffer.CopyMsrFromBuffer validates every record before it writes any. The tests only use a null destination (line 410), so a part-written destination on a bad record is not modelled.
- CpuidDeserialise.CopyCpuidFromBuffer validates every record before it writes any. An implementation that rejects a bad record part-way through a partially written destination is therefore not modelled; the tests only use a null destination.
