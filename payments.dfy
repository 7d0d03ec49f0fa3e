/** Payment specifications and their validation: only bank transfers are
    accepted, and the proof must decode as unpadded standard base64
    (the alphabet of section 4 of RFC 4648, without the `=` padding that
    section 3.2 lets an encoding omit). */
module Payments {
  import opened Errors

  /** The payment kind is an integer; bank transfer is the only enumerated value. */
  type PaymentType = int

  const PaymentTypeBankTransfer: PaymentType := 1

  datatype PaymentSpecification = PaymentSpecification(
    kind: PaymentType,
    nameHolder: string,
    identifierId: string,
    proof: string)

  /** The zero `PaymentSpecification{}` that a new order carries. */
  const NoPayment: PaymentSpecification := PaymentSpecification(0, "", "", "")

  /** A letter of the standard base64 alphabet. */
  predicate IsBase64Char(c: char) {
    ('A' <= c <= 'Z') || ('a' <= c <= 'z') || ('0' <= c <= '9') || c == '+' || c == '/'
  }

  predicate IsLineBreak(c: char) {
    c == '\r' || c == '\n'
  }

  /** The input with the carriage returns and line feeds removed, which the
      decoder skips wherever they occur. */
  function StripLineBreaks(s: string): (r: string)
    ensures |r| <= |s|
    ensures forall i :: 0 <= i < |r| ==> !IsLineBreak(r[i])
    ensures (forall i :: 0 <= i < |s| ==> !IsLineBreak(s[i])) ==> r == s
  {
    if s == [] then []
    else if IsLineBreak(s[0]) then StripLineBreaks(s[1..])
    else [s[0]] + StripLineBreaks(s[1..])
  }

  /** The proof decodes as unpadded standard base64: apart from line breaks
      every character is in the alphabet, and the characters do not end with
      a lone one (a group of four, or a final group of two or three). */
  predicate Decodable(proof: string) {
    && (forall i :: 0 <= i < |proof| ==> IsBase64Char(proof[i]) || IsLineBreak(proof[i]))
    && |StripLineBreaks(proof)| % 4 != 1
  }

  /** The payment type is checked first; the proof is looked at only for a
      bank transfer. */
  function Validate(ps: PaymentSpecification): (r: Outcome)
    ensures ps.kind != PaymentTypeBankTransfer ==> r == Fail(ErrPaymentTypeNotAllowed)
    ensures ps.kind == PaymentTypeBankTransfer ==> (r == Pass <==> Decodable(ps.proof))
    ensures ps.kind == PaymentTypeBankTransfer && !Decodable(ps.proof) ==>
      r == Fail(ErrPaymentProofIsNotBase64EncodedString)
  {
    if ps.kind != PaymentTypeBankTransfer then Fail(ErrPaymentTypeNotAllowed)
    else if !Decodable(ps.proof) then Fail(ErrPaymentProofIsNotBase64EncodedString)
    else Pass
  }

  /** An empty proof is a valid (empty) encoding. */
  lemma EmptyProofDecodes()
    ensures Decodable("")
  {
  }

  /** Padding is refused: a proof holding `=` never decodes. */
  lemma PaddedProofIsRefused(proof: string, i: nat)
    requires i < |proof| && proof[i] == '='
    ensures !Decodable(proof)
  {
    assert !IsBase64Char(proof[i]) && !IsLineBreak(proof[i]);
  }

  /** Line breaks do not count towards the length of the encoding. */
  lemma {:induction false} LineBreaksAreSkipped(a: string, b: string)
    requires forall i :: 0 <= i < |a| ==> IsLineBreak(a[i])
    ensures StripLineBreaks(a + b) == StripLineBreaks(b)
  {
    if a == [] {
      assert a + b == b;
    } else {
      assert (a + b)[0] == a[0];
      assert (a + b)[1..] == a[1..] + b;
      LineBreaksAreSkipped(a[1..], b);
    }
  }
}
