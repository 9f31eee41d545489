/**
 * The protection record: the PS_PROTECTION bit-field overlay on a 32-bit word,
 * the names of the protection types and signers, and the display labels that
 * KDUGetProtectionTypeAsString / KDUGetProtectionSignerAsString produce.
 *
 * The numeric values of the enumerators and the bit positions of the fields
 * come from headers that are not part of this model; they are parameters here,
 * and the predicates DistinctValues and LayoutOk state what is assumed of them.
 */
module Codec {

  import opened Base
  import opened Bits

  datatype ProtectionType = TypeNone | ProtectedLight | Protected

  datatype Signer =
    | SignerNone | Authenticode | CodeGen | Antimalware | Lsa
    | Windows | WinTcb | WinSystem | App

  /** The numeric values of the PS_PROTECTED_TYPE and PS_PROTECTED_SIGNER enumerators. */
  datatype Enumerations = Enumerations(typeValue: ProtectionType -> u32, signerValue: Signer -> u32)

  /** The enumerators are case labels of one switch each, so their values are distinct. */
  ghost predicate DistinctValues(e: Enumerations) {
    && (forall t1, t2 :: e.typeValue(t1) == e.typeValue(t2) ==> t1 == t2)
    && (forall s1, s2 :: e.signerValue(s1) == e.signerValue(s2) ==> s1 == s2)
  }

  /** Every enumerator value fits the bit-field it is stored in. */
  ghost predicate ValuesFit(e: Enumerations, l: Layout) {
    && (forall t :: e.typeValue(t) < Pow2(l.ptype.width))
    && (forall s :: e.signerValue(s) < Pow2(l.signer.width))
  }

  const UnknownType := "Unknown Type"
  const UnknownSigner := "Unknown Value"

  function TypeName(t: ProtectionType): string {
    match t
    case TypeNone => "PsProtectedTypeNone"
    case ProtectedLight => "PsProtectedTypeProtectedLight"
    case Protected => "PsProtectedTypeProtected"
  }

  function SignerName(s: Signer): string {
    match s
    case SignerNone => "PsProtectedSignerNone"
    case Authenticode => "PsProtectedSignerAuthenticode"
    case CodeGen => "PsProtectedSignerCodeGen"
    case Antimalware => "PsProtectedSignerAntimalware"
    case Lsa => "PsProtectedSignerLsa"
    case Windows => "PsProtectedSignerWindows"
    case WinTcb => "PsProtectedSignerWinTcb"
    case WinSystem => "PsProtectedSignerWinSystem"
    case App => "PsProtectedSignerApp"
  }

  /** KDUGetProtectionTypeAsString: the switch over the three type enumerators. */
  function TypeLabel(e: Enumerations, value: u32): (name: string)
    ensures DistinctValues(e) ==> forall t :: value == e.typeValue(t) ==> name == TypeName(t)
    ensures name == UnknownType <==> forall t :: value != e.typeValue(t)
  {
    if value == e.typeValue(TypeNone) then TypeName(TypeNone)
    else if value == e.typeValue(ProtectedLight) then TypeName(ProtectedLight)
    else if value == e.typeValue(Protected) then TypeName(Protected)
    else UnknownType
  }

  /** KDUGetProtectionSignerAsString: the switch over the nine signer enumerators. */
  function SignerLabel(e: Enumerations, value: u32): (name: string)
    ensures DistinctValues(e) ==> forall s :: value == e.signerValue(s) ==> name == SignerName(s)
    ensures name == UnknownSigner <==> forall s :: value != e.signerValue(s)
  {
    if value == e.signerValue(SignerNone) then SignerName(SignerNone)
    else if value == e.signerValue(Authenticode) then SignerName(Authenticode)
    else if value == e.signerValue(CodeGen) then SignerName(CodeGen)
    else if value == e.signerValue(Antimalware) then SignerName(Antimalware)
    else if value == e.signerValue(Lsa) then SignerName(Lsa)
    else if value == e.signerValue(Windows) then SignerName(Windows)
    else if value == e.signerValue(WinTcb) then SignerName(WinTcb)
    else if value == e.signerValue(WinSystem) then SignerName(WinSystem)
    else if value == e.signerValue(App) then SignerName(App)
    else
      assert forall s :: value != e.signerValue(s) by {
        forall s ensures value != e.signerValue(s) { SignerCases(s); }
      }
      UnknownSigner
  }

  /** The nine signers, one case each. */
  lemma SignerCases(s: Signer)
    ensures || s == SignerNone || s == Authenticode || s == CodeGen || s == Antimalware || s == Lsa
            || s == Windows || s == WinTcb || s == WinSystem || s == App
  {
  }

  /** No two type enumerators share a name. */
  lemma TypeNamesDistinct(t1: ProtectionType, t2: ProtectionType)
    ensures TypeName(t1) == TypeName(t2) ==> t1 == t2
  {
  }

  /** No two signer enumerators share a name. */
  lemma SignerNamesDistinct(s1: Signer, s2: Signer)
    ensures SignerName(s1) == SignerName(s2) ==> s1 == s2
  {
  }

  /** A known type label names an enumerator whose value is the labelled value. */
  lemma TypeLabelNames(e: Enumerations, v: u32, t: ProtectionType)
    requires TypeLabel(e, v) == TypeName(t)
    ensures v == e.typeValue(t)
  {
    forall t' ensures TypeName(t') == TypeName(t) ==> t' == t { TypeNamesDistinct(t', t); }
  }

  /** A known signer label names an enumerator whose value is the labelled value. */
  lemma SignerLabelNames(e: Enumerations, v: u32, s: Signer)
    requires SignerLabel(e, v) == SignerName(s)
    ensures v == e.signerValue(s)
  {
    forall s' ensures SignerName(s') == SignerName(s) ==> s' == s { SignerNamesDistinct(s', s); }
  }

  /** Distinct known values get distinct labels, so a label identifies its value. */
  lemma {:induction false} LabelsIdentifyValues(e: Enumerations, v1: u32, v2: u32)
    ensures TypeLabel(e, v1) == TypeLabel(e, v2) != UnknownType ==> v1 == v2
    ensures SignerLabel(e, v1) == SignerLabel(e, v2) != UnknownSigner ==> v1 == v2
  {
    if TypeLabel(e, v1) == TypeLabel(e, v2) != UnknownType {
      var t :| TypeLabel(e, v1) == TypeName(t);
      TypeLabelNames(e, v1, t);
      TypeLabelNames(e, v2, t);
    }
    if SignerLabel(e, v1) == SignerLabel(e, v2) != UnknownSigner {
      var s :| SignerLabel(e, v1) == SignerName(s);
      SignerLabelNames(e, v1, s);
      SignerLabelNames(e, v2, s);
    }
  }

  // ---------------------------------------------------------------------------
  // The PS_PROTECTION overlay on the 32-bit buffer

  /** The 32 bits of the ULONG buffer, least significant first. */
  type Word = w: seq<bool> | |w| == 32 witness seq(32, i => false)

  /** A bit-field: `width` bits starting at bit `shift` of the word. */
  datatype Field = Field(shift: nat, width: nat)

  predicate FieldOk(f: Field) {
    1 <= f.width && f.shift + f.width <= 32
  }

  predicate InField(f: Field, i: int) {
    f.shift <= i < f.shift + f.width
  }

  predicate Disjoint(f: Field, g: Field) {
    f.shift + f.width <= g.shift || g.shift + g.width <= f.shift
  }

  /** Where the Type, Audit and Signer bit-fields of PS_PROTECTION sit in the buffer word. */
  datatype Layout = Layout(ptype: Field, audit: Field, signer: Field)

  /** The three fields lie inside the 32-bit word and occupy disjoint bits. */
  predicate LayoutOk(l: Layout) {
    && FieldOk(l.ptype) && FieldOk(l.audit) && FieldOk(l.signer)
    && Disjoint(l.ptype, l.audit) && Disjoint(l.ptype, l.signer) && Disjoint(l.audit, l.signer)
  }

  predicate InFields(l: Layout, i: int) {
    InField(l.ptype, i) || InField(l.audit, i) || InField(l.signer, i)
  }

  /** Reading a bit-field: the value fits the field's width. */
  function GetField(w: Word, f: Field): (v: nat)
    requires FieldOk(f)
    ensures v < Pow2(f.width)
  {
    FromBits(w[f.shift..f.shift + f.width])
  }

  /** A field reads the same in two words that agree on its bits. */
  lemma GetFieldOfAgreeing(w1: Word, w2: Word, f: Field)
    requires FieldOk(f)
    requires forall i :: InField(f, i) ==> w1[i] == w2[i]
    ensures GetField(w1, f) == GetField(w2, f)
  {
    assert w1[f.shift..f.shift + f.width] == w2[f.shift..f.shift + f.width];
  }

  /** Assigning to a bit-field: the field then holds the value truncated to its width. */
  function SetField(w: Word, f: Field, v: nat): Word
    requires FieldOk(f)
  {
    w[..f.shift] + ToBits(v, f.width) + w[f.shift + f.width..]
  }

  /** After assigning to a bit-field, the field holds the low bits of the value. */
  lemma GetSetField(w: Word, f: Field, v: nat)
    requires FieldOk(f)
    ensures GetField(SetField(w, f, v), f) == LowBits(v, f.width)
  {
    assert SetField(w, f, v)[f.shift..f.shift + f.width] == ToBits(v, f.width);
    FromToBits(v, f.width);
  }

  /** Assigning to a bit-field leaves every bit outside the field as it was. */
  lemma SetFieldKeepsOtherBits(w: Word, f: Field, v: nat)
    requires FieldOk(f)
    ensures forall i :: 0 <= i < 32 && !InField(f, i) ==> SetField(w, f, v)[i] == w[i]
  {
  }

  /** The decoded PS_PROTECTION record. */
  datatype Protection = Protection(signer: nat, ptype: nat, audit: nat)

  function Decode(l: Layout, w: Word): Protection
    requires LayoutOk(l)
  {
    Protection(GetField(w, l.signer), GetField(w, l.ptype), GetField(w, l.audit))
  }

  /** The record with each value cut to the low bits its field holds, as a bit-field store does. */
  function Truncate(l: Layout, p: Protection): Protection
    requires LayoutOk(l)
  {
    Protection(LowBits(p.signer, l.signer.width), LowBits(p.ptype, l.ptype.width), LowBits(p.audit, l.audit.width))
  }

  /** `p` is representable when every value fits its field. */
  predicate Representable(l: Layout, p: Protection)
    requires LayoutOk(l)
  {
    p.signer < Pow2(l.signer.width) && p.ptype < Pow2(l.ptype.width) && p.audit < Pow2(l.audit.width)
  }

  /**
   * Assigning Signer, then Type, then Audit through the overlay on the buffer word.
   * The result decodes to the assigned values truncated to their widths.
   */
  function Overlay(l: Layout, w: Word, p: Protection): Word
    requires LayoutOk(l)
  {
    SetField(SetField(SetField(w, l.signer, p.signer), l.ptype, p.ptype), l.audit, p.audit)
  }

  /** The overlaid word decodes to the assigned values cut to their widths. */
  lemma DecodeOverlay(l: Layout, w: Word, p: Protection)
    requires LayoutOk(l)
    ensures Decode(l, Overlay(l, w, p)) == Truncate(l, p)
  {
    var w1 := SetField(w, l.signer, p.signer);
    var w2 := SetField(w1, l.ptype, p.ptype);
    var w3 := SetField(w2, l.audit, p.audit);
    GetSetField(w, l.signer, p.signer);
    GetSetField(w1, l.ptype, p.ptype);
    GetSetField(w2, l.audit, p.audit);
    SetFieldKeepsOtherBits(w1, l.ptype, p.ptype);
    SetFieldKeepsOtherBits(w2, l.audit, p.audit);
    GetFieldOfAgreeing(w1, w3, l.signer);
    GetFieldOfAgreeing(w2, w3, l.ptype);
  }

  /** The overlay keeps every bit of the old word outside the three fields. */
  lemma {:induction false} OverlayKeepsOtherBits(l: Layout, w: Word, p: Protection)
    requires LayoutOk(l)
    ensures forall i :: 0 <= i < 32 && !InFields(l, i) ==> Overlay(l, w, p)[i] == w[i]
  {
    var w1 := SetField(w, l.signer, p.signer);
    var w2 := SetField(w1, l.ptype, p.ptype);
    SetFieldKeepsOtherBits(w, l.signer, p.signer);
    SetFieldKeepsOtherBits(w1, l.ptype, p.ptype);
    SetFieldKeepsOtherBits(w2, l.audit, p.audit);
  }

  /** Encoding after decoding: writing back the fields just read changes nothing. */
  lemma {:induction false} OverlayOfDecoded(l: Layout, w: Word)
    requires LayoutOk(l)
    ensures Overlay(l, w, Decode(l, w)) == w
  {
    var d := Decode(l, w);
    LowBitsOfSmaller(d.signer, l.signer.width);
    LowBitsOfSmaller(d.ptype, l.ptype.width);
    LowBitsOfSmaller(d.audit, l.audit.width);
    var r := Overlay(l, w, d);
    DecodeOverlay(l, w, d);
    assert Decode(l, r) == d;
    OverlayKeepsOtherBits(l, w, d);
    forall i | 0 <= i < 32 ensures r[i] == w[i] {
      if InField(l.signer, i) {
        FieldBitsDetermined(r, w, l.signer);
      } else if InField(l.ptype, i) {
        FieldBitsDetermined(r, w, l.ptype);
      } else if InField(l.audit, i) {
        FieldBitsDetermined(r, w, l.audit);
      }
    }
  }

  /** Two words whose field reads the same value agree on the field's bits. */
  lemma {:induction false} FieldBitsDetermined(w1: Word, w2: Word, f: Field)
    requires FieldOk(f) && GetField(w1, f) == GetField(w2, f)
    ensures forall i :: InField(f, i) ==> w1[i] == w2[i]
  {
    var s1, s2 := w1[f.shift..f.shift + f.width], w2[f.shift..f.shift + f.width];
    assert FromBits(s1) == FromBits(s2) && |s1| == |s2| == f.width;
    ToFromBits(s1);
    ToFromBits(s2);
    forall i | InField(f, i) ensures w1[i] == w2[i] {
      assert w1[i] == s1[i - f.shift];
    }
  }

  /** Decoding after encoding: a representable record reads back unchanged, whatever the old word. */
  lemma {:induction false} DecodeOfOverlay(l: Layout, w: Word, p: Protection)
    requires LayoutOk(l) && Representable(l, p)
    ensures Decode(l, Overlay(l, w, p)) == p
  {
    DecodeOverlay(l, w, p);
    LowBitsOfSmaller(p.signer, l.signer.width);
    LowBitsOfSmaller(p.ptype, l.ptype.width);
    LowBitsOfSmaller(p.audit, l.audit.width);
  }
}
