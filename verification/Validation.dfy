/**
 The payload check that submission, execution and the charge service all run.
 A JSON body is an object that has the three charge fields with the right JSON types (the
 decoder ignores other fields), an array of just their values in order, which the decoder
 takes as well, or something else.
 */
module Validation {
  import opened Core

  const MAX_CUSTOMER_ID_LEN: nat := 128
  const MAX_KIND_LEN: nat := 64
  const MIN_MAX_ATTEMPTS: int := 1
  const MAX_MAX_ATTEMPTS: int := 20

  datatype Json =
    | ChargeObject(customerId: string, amountCents: int, currency: string)
    | ChargeArray(customerId: string, amountCents: int, currency: string)
    | OtherShape

  datatype ChargePayload = ChargePayload(customerId: string, amountCents: int, currency: string)

  datatype ValidationError =
    | InvalidPayloadShape
    | EmptyCustomerId
    | CustomerIdTooLong
    | NonPositiveAmount
    | InvalidCurrency
    | MaxAttemptsOutOfRange

  predicate IsWhitespace(c: char) {
    || '\t' <= c <= '\r'
    || c in " \U{85}\U{A0}\U{1680}\U{2028}\U{2029}\U{202F}\U{205F}\U{3000}"
    || '\U{2000}' <= c <= '\U{200A}'
  }

  predicate IsBlank(s: string) {
    forall i :: 0 <= i < |s| ==> IsWhitespace(s[i])
  }

  /** Length in UTF-8 bytes, which is what the length checks count. */
  function ByteLen(s: string): nat {
    if s == [] then 0
    else
      (if s[0] < '\U{80}' then 1
       else if s[0] < '\U{800}' then 2
       else if s[0] < '\U{10000}' then 3
       else 4) + ByteLen(s[1..])
  }

  predicate IsCurrencyCode(s: string) {
    ByteLen(s) == 3 && forall i :: 0 <= i < |s| ==> 'A' <= s[i] <= 'Z'
  }

  function ValidateChargePayload(p: ChargePayload): Result<ChargePayload, ValidationError> {
    if IsBlank(p.customerId) then Err(EmptyCustomerId)
    else if ByteLen(p.customerId) > MAX_CUSTOMER_ID_LEN then Err(CustomerIdTooLong)
    else if p.amountCents <= 0 then Err(NonPositiveAmount)
    else if !IsCurrencyCode(p.currency) then Err(InvalidCurrency)
    else Ok(p)
  }

  /** Decodes, then validates; an amount outside 64 bits does not decode. */
  function ParseChargePayload(body: Json): (r: Result<ChargePayload, ValidationError>)
    ensures r.Ok? ==> 0 < r.value.amountCents <= I64_MAX
  {
    match body
    case OtherShape => Err(InvalidPayloadShape)
    case _ =>
      if -I64_MAX - 1 <= body.amountCents <= I64_MAX
      then ValidateChargePayload(ChargePayload(body.customerId, body.amountCents, body.currency))
      else Err(InvalidPayloadShape)
  }

  /** The request body a worker sends for a parsed payload. */
  function RequestBody(p: ChargePayload): Json {
    ChargeObject(p.customerId, p.amountCents, p.currency)
  }

  predicate ValidMaxAttempts(maxAttempts: int) {
    MIN_MAX_ATTEMPTS <= maxAttempts <= MAX_MAX_ATTEMPTS
  }

  predicate ValidKind(kind: string) {
    !IsBlank(kind) && ByteLen(kind) <= MAX_KIND_LEN
  }

  /** A string of N letters takes N bytes, and N bytes of letters are N letters. */
  lemma {:induction false} AsciiLength(s: string)
    requires forall i :: 0 <= i < |s| ==> 'A' <= s[i] <= 'Z'
    ensures ByteLen(s) == |s|
  {
    if s != [] {
      AsciiLength(s[1..]);
    }
  }

  /**
   What is accepted: an object or array with a customer id that is not blank and fits 128 bytes, a positive amount
   of 64 bits, and three upper-case letters; and the worker's request carries exactly those three values.
   */
  lemma AcceptedExactly(body: Json)
    ensures ParseChargePayload(body).Ok? <==>
      && !body.OtherShape?
      && (exists i :: 0 <= i < |body.customerId| && !IsWhitespace(body.customerId[i]))
      && ByteLen(body.customerId) <= 128
      && 0 < body.amountCents < 0x8000_0000_0000_0000
      && |body.currency| == 3 && forall i :: 0 <= i < 3 ==> 'A' <= body.currency[i] <= 'Z'
    ensures ParseChargePayload(body).Ok? ==>
      RequestBody(ParseChargePayload(body).value) == ChargeObject(body.customerId, body.amountCents, body.currency)
  {
    if !body.OtherShape? && forall i :: 0 <= i < |body.currency| ==> 'A' <= body.currency[i] <= 'Z' {
      AsciiLength(body.currency);
    }
  }

  /** The database refuses the NUL character in text and in JSON. */
  predicate Storable(text: string) {
    '\0' !in text
  }

  predicate StorableJson(body: Json) {
    !body.OtherShape? ==> Storable(body.customerId) && Storable(body.currency)
  }

  const SAMPLE: Json := ChargeObject("c", 1, "INR")

  lemma SampleParses()
    ensures ParseChargePayload(SAMPLE).Ok?
  {
    assert SAMPLE.customerId[0] == 'c' && SAMPLE.currency[0] == 'I' && SAMPLE.currency[1] == 'N' && SAMPLE.currency[2] == 'R';
    assert ByteLen("c") == 1;
    AcceptedExactly(SAMPLE);
  }

  /** A body that passed at submission is re-encoded and passes again, unchanged, at the service. */
  lemma SameVerdictAtEveryStage(body: Json)
    requires ParseChargePayload(body).Ok?
    ensures ParseChargePayload(RequestBody(ParseChargePayload(body).value)) == ParseChargePayload(body)
  {
  }

  /** The characters that trimming removes: those with the Unicode property White_Space. */
  lemma WhitespaceExactly(c: char)
    ensures IsWhitespace(c) <==>
      var n := c as int;
      || n in {9, 10, 11, 12, 13, 32, 0x85, 0xA0, 0x1680, 0x2028, 0x2029, 0x202F, 0x205F, 0x3000}
      || 0x2000 <= n <= 0x200A
  {
    assert IsWhitespace(c) ==> c in " \U{85}\U{A0}\U{1680}\U{2028}\U{2029}\U{202F}\U{205F}\U{3000}" || '\t' <= c <= '\r'
                               || '\U{2000}' <= c <= '\U{200A}';
    var others := " \U{85}\U{A0}\U{1680}\U{2028}\U{2029}\U{202F}\U{205F}\U{3000}";
    assert others[0] == ' ' && others[1] == '\U{85}' && others[2] == '\U{A0}' && others[3] == '\U{1680}' && others[4] == '\U{2028}'
        && others[5] == '\U{2029}' && others[6] == '\U{202F}' && others[7] == '\U{205F}' && others[8] == '\U{3000}';
  }

  /** The bytes of a string are those of its parts, and a character takes one byte for each step of UTF-8's ranges. */
  lemma {:induction false} ByteLenJoin(s: string, t: string)
    ensures ByteLen(s + t) == ByteLen(s) + ByteLen(t)
    decreases |s|
  {
    if s == "" {
      assert s + t == t;
    } else {
      assert (s + t)[1..] == s[1..] + t;
      ByteLenJoin(s[1..], t);
    }
  }

  lemma ByteLenOfChar(c: char)
    ensures var n := c as int;
      (ByteLen([c]) == 1 <==> n <= 0x7F) && (ByteLen([c]) == 2 <==> 0x80 <= n <= 0x7FF)
      && (ByteLen([c]) == 3 <==> 0x800 <= n <= 0xFFFF) && (ByteLen([c]) == 4 <==> n >= 0x10000)
  {
    assert [c][1..] == [];
  }
}
