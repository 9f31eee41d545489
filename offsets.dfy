/**
 * The build-to-offset table of KDUControlProcess: which byte offset inside the
 * EPROCESS object holds the PS_PROTECTION field, by Windows build number.
 *
 * The NT_* build numbers and the PsProtectionOffset_* values come from headers
 * that are not part of this model; TableOk states what is assumed of them.
 */
module Offsets {

  import opened Base

  /** The Windows releases that have a case in the switch, named after their NT_* constants. */
  datatype Release =
    | Win8Blue
    | Win10Threshold1 | Win10Threshold2
    | Win10Redstone1 | Win10Redstone2 | Win10Redstone3 | Win10Redstone4 | Win10Redstone5
    | Win10_19H1 | Win10_19H2
    | Win10_20H1 | Win10_20H2 | Win10_21H1 | Win10_21H2 | Win10_22H2
    | Win11_21H2 | Win11_22H2 | Win11_23H2 | Win11_24H2

  /** The PsProtectionOffset_* constants, named after the build that introduced each layout. */
  datatype OffsetKind = Offset9600 | Offset10240 | Offset10586 | Offset14393 | Offset15063 | Offset19041

  datatype BuildTable = BuildTable(buildNumber: Release -> u32, offset: OffsetKind -> u64)

  /**
   * The build numbers are case labels of one switch, so they are distinct
   * (each one determines its release);
   * every offset constant is a real offset, never the sentinel 0.
   */
  ghost predicate TableOk(t: BuildTable) {
    && (exists release: u32 -> Release :: LeftInverse(t.buildNumber, release))
    && (forall k :: t.offset(k) != 0)
  }

  ghost predicate LeftInverse(build: Release -> u32, release: u32 -> Release) {
    forall r :: release(build(r)) == r
  }

  /** The reference table: which offset constant each release uses. */
  function OffsetOf(r: Release): OffsetKind {
    match r
    case Win8Blue => Offset9600
    case Win10Threshold1 => Offset10240
    case Win10Threshold2 => Offset10586
    case Win10Redstone1 => Offset14393
    case Win10Redstone2 | Win10Redstone3 | Win10Redstone4 | Win10Redstone5
       | Win10_19H1 | Win10_19H2 => Offset15063
    case Win10_20H1 | Win10_20H2 | Win10_21H1 | Win10_21H2 | Win10_22H2
       | Win11_21H2 | Win11_22H2 | Win11_23H2 | Win11_24H2 => Offset19041
  }

  /** The switch on Context->NtBuildNumber; 0 is the "unsupported" sentinel. */
  function ProtectionOffset(t: BuildTable, build: u32): u64 {
    var b := t.buildNumber;
    if build == b(Win8Blue) then t.offset(Offset9600)
    else if build == b(Win10Threshold1) then t.offset(Offset10240)
    else if build == b(Win10Threshold2) then t.offset(Offset10586)
    else if build == b(Win10Redstone1) then t.offset(Offset14393)
    else if build == b(Win10Redstone2) || build == b(Win10Redstone3) || build == b(Win10Redstone4)
         || build == b(Win10Redstone5) || build == b(Win10_19H1) || build == b(Win10_19H2)
    then t.offset(Offset15063)
    else if build == b(Win10_20H1) || build == b(Win10_20H2) || build == b(Win10_21H1)
         || build == b(Win10_21H2) || build == b(Win10_22H2) || build == b(Win11_21H2)
         || build == b(Win11_22H2) || build == b(Win11_23H2) || build == b(Win11_24H2)
    then t.offset(Offset19041)
    else 0
  }

  /** Each release's build number selects the offset the reference table gives that release. */
  lemma {:induction false} OffsetOfRelease(t: BuildTable, r: Release)
    requires TableOk(t)
    ensures ProtectionOffset(t, t.buildNumber(r)) == t.offset(OffsetOf(r))
  {
    match r
    case Win8Blue =>
    case Win10Threshold1 =>
    case Win10Threshold2 =>
    case Win10Redstone1 =>
    case Win10Redstone2 =>
    case Win10Redstone3 =>
    case Win10Redstone4 =>
    case Win10Redstone5 =>
    case Win10_19H1 =>
    case Win10_19H2 =>
    case Win10_20H1 =>
    case Win10_20H2 =>
    case Win10_21H1 =>
    case Win10_21H2 =>
    case Win10_22H2 =>
    case Win11_21H2 =>
    case Win11_22H2 =>
    case Win11_23H2 =>
    case Win11_24H2 =>
  }

  /**
   * The lookup is total: a build with a case yields its release's nonzero offset,
   * and every other build yields the sentinel 0.
   */
  lemma {:induction false} OffsetLookupTotal(t: BuildTable, build: u32)
    requires TableOk(t)
    ensures forall r :: build == t.buildNumber(r) ==> ProtectionOffset(t, build) == t.offset(OffsetOf(r)) != 0
    ensures (forall r :: build != t.buildNumber(r)) ==> ProtectionOffset(t, build) == 0
    ensures ProtectionOffset(t, build) == 0 <==> forall r :: build != t.buildNumber(r)
  {
    forall r | build == t.buildNumber(r)
      ensures ProtectionOffset(t, build) == t.offset(OffsetOf(r))
    {
      OffsetOfRelease(t, r);
    }
  }
}
