/**
 The idempotency key of a job's charge: a prefix and the job id in its canonical text form,
 32 lower-case hex digits in groups of 8, 4, 4, 4 and 12.
 */
module Idempotency {
  import opened Core
  import opened Validation

  const PREFIX: string := "reliableq:charge:"
  const HEX: string := "0123456789abcdef"

  /** The last `width` base-16 digits of n. */
  function HexDigits(n: nat, width: nat): (s: string)
    ensures |s| == width
    ensures forall i :: 0 <= i < |s| ==> s[i] in HEX
  {
    if width == 0 then "" else HexDigits(n / 16, width - 1) + [HEX[n % 16]]
  }

  function Power16(width: nat): (p: nat)
    ensures p >= 1
  {
    if width == 0 then 1 else 16 * Power16(width - 1)
  }

  function Hyphenated(d: string): string
    requires |d| == 32
  {
    d[..8] + "-" + d[8..12] + "-" + d[12..16] + "-" + d[16..20] + "-" + d[20..]
  }

  function UuidText(id: Uuid): string {
    Hyphenated(HexDigits(id, 32))
  }

  function ChargeIdempotencyKey(job: Uuid): string {
    PREFIX + UuidText(job)
  }

  lemma HexDigitInjective(x: nat, y: nat)
    requires x < 16 && y < 16 && HEX[x] == HEX[y]
    ensures x == y
  {
  }

  lemma {:induction false} HexDigitsInjective(a: nat, b: nat, width: nat)
    requires a < Power16(width) && b < Power16(width)
    requires HexDigits(a, width) == HexDigits(b, width)
    ensures a == b
  {
    if width > 0 {
      var p, q := HexDigits(a / 16, width - 1), HexDigits(b / 16, width - 1);
      AppendInjective(p, HEX[a % 16], q, HEX[b % 16]);
      HexDigitInjective(a % 16, b % 16);
      HexDigitsInjective(a / 16, b / 16, width - 1);
    }
  }

  lemma AppendInjective(p: string, c: char, q: string, d: char)
    requires p + [c] == q + [d] && |p| == |q|
    ensures p == q && c == d
  {
    assert (p + [c])[..|p|] == p && (q + [d])[..|q|] == q;
    assert (p + [c])[|p|] == c && (q + [d])[|q|] == d;
  }

  lemma HyphenatedInjective(d: string, e: string)
    requires |d| == |e| == 32 && Hyphenated(d) == Hyphenated(e)
    ensures d == e
  {
    var s := Hyphenated(d);
    var t := Hyphenated(e);
    assert s[..8] == d[..8] && s[9..13] == d[8..12] && s[14..18] == d[12..16] && s[19..23] == d[16..20] && s[24..] == d[20..];
    assert t[..8] == e[..8] && t[9..13] == e[8..12] && t[14..18] == e[12..16] && t[19..23] == e[16..20] && t[24..] == e[20..];
    assert d == d[..8] + d[8..12] + d[12..16] + d[16..20] + d[20..];
    assert e == e[..8] + e[8..12] + e[12..16] + e[16..20] + e[20..];
  }

  /** Different jobs never share a key. */
  lemma KeyInjective(a: Uuid, b: Uuid)
    requires ChargeIdempotencyKey(a) == ChargeIdempotencyKey(b)
    ensures a == b
  {
    assert ChargeIdempotencyKey(a)[|PREFIX|..] == UuidText(a) && ChargeIdempotencyKey(b)[|PREFIX|..] == UuidText(b);
    HyphenatedInjective(HexDigits(a, 32), HexDigits(b, 32));
    PowerOfUuid();
    HexDigitsInjective(a, b, 32);
  }

  // --- How the charge service reads the key ---

  function TrimStart(s: string): string {
    if s != [] && IsWhitespace(s[0]) then TrimStart(s[1..]) else s
  }

  function TrimEnd(s: string): string {
    if s != [] && IsWhitespace(s[|s| - 1]) then TrimEnd(s[..|s| - 1]) else s
  }

  /** The trimmed header; missing or blank is refused. */
  function ReadKey(header: Option<string>): Option<string> {
    if header.None? then None
    else
      var key := TrimEnd(TrimStart(header.value));
      if key == [] then None else Some(key)
  }

  /** The service sees exactly the key the worker sent. */
  lemma KeyIsReadUnchanged(job: Uuid)
    ensures ReadKey(Some(ChargeIdempotencyKey(job))) == Some(ChargeIdempotencyKey(job))
  {
    var digits := HexDigits(job, 32);
    var key := ChargeIdempotencyKey(job);
    assert key[0] == 'r';
    assert key[|key| - 1] == digits[31] && digits[31] in HEX;
    HexIsNoWhitespace(digits[31]);
    NothingToTrim(key);
  }

  lemma HexIsNoWhitespace(c: char)
    requires c in HEX
    ensures !IsWhitespace(c)
  {
    assert '0' <= c <= '9' || 'a' <= c <= 'f';
    WhitespaceExactly(c);
  }

  lemma NothingToTrim(s: string)
    requires s != "" && !IsWhitespace(s[0]) && !IsWhitespace(s[|s| - 1])
    ensures TrimEnd(TrimStart(s)) == s
  {
  }

  // --- The exact text ---

  function DigitValue(c: char): nat
    requires c in HEX
  {
    if c <= '9' then c as nat - '0' as nat else c as nat - 'a' as nat + 10
  }

  /** The number that a string of hex digits denotes, most significant digit first. */
  function ValueOf(s: string): nat
    requires forall i :: 0 <= i < |s| ==> s[i] in HEX
  {
    if s == "" then 0 else 16 * ValueOf(s[..|s| - 1]) + DigitValue(s[|s| - 1])
  }

  lemma DigitHasValue(d: nat)
    requires d < 16
    ensures DigitValue(HEX[d]) == d
  {
  }

  lemma LastDigit(front: string, d: nat)
    requires d < 16 && forall i :: 0 <= i < |front| ==> front[i] in HEX
    ensures HEX[d] in HEX && ValueOf(front + [HEX[d]]) == 16 * ValueOf(front) + d
  {
    assert (front + [HEX[d]])[..|front|] == front;
    DigitHasValue(d);
  }

  lemma LastHexDigit(n: nat, p: nat)
    requires n < 16 * p
    ensures n / 16 < p && n == 16 * (n / 16) + n % 16
  {
  }

  lemma OneMoreDigit(n: nat, width: nat)
    requires width > 0 && ValueOf(HexDigits(n / 16, width - 1)) == n / 16
    ensures ValueOf(HexDigits(n, width)) == n
  {
    LastDigit(HexDigits(n / 16, width - 1), n % 16);
  }

  lemma {:induction false} DigitsHaveValue(n: nat, width: nat)
    requires n < Power16(width)
    ensures ValueOf(HexDigits(n, width)) == n
  {
    if width > 0 {
      LastHexDigit(n, Power16(width - 1));
      DigitsHaveValue(n / 16, width - 1);
      OneMoreDigit(n, width);
    }
  }

  /** The key is the prefix, then 32 lower-case hex digits that denote the job id, in five groups with hyphens between. */
  lemma KeyExactly(job: Uuid)
    ensures var key := ChargeIdempotencyKey(job); var digits := HexDigits(job, 32);
      && key == "reliableq:charge:" + digits[..8] + "-" + digits[8..12] + "-" + digits[12..16] + "-" + digits[16..20] + "-" + digits[20..]
      && ValueOf(digits) == job
  {
    PowerOfUuid();
    DigitsHaveValue(job, 32);
    var d := HexDigits(job, 32);
    assert PREFIX + Hyphenated(d) == PREFIX + d[..8] + "-" + d[8..12] + "-" + d[12..16] + "-" + d[16..20] + "-" + d[20..];
  }

  lemma PowerOfUuid()
    ensures Power16(32) == UUID_BOUND
  {
    assert Power16(8) == 0x1_0000_0000;
    assert Power16(16) == 0x1_0000_0000_0000_0000;
    assert Power16(24) == 0x1_0000_0000_0000_0000_0000_0000;
  }

  // --- Trimming ---

  lemma {:induction false} StartTrimmed(s: string) returns (n: nat)
    ensures n <= |s| && TrimStart(s) == s[n..] && IsBlank(s[..n])
    ensures TrimStart(s) != "" ==> !IsWhitespace(TrimStart(s)[0])
    decreases |s|
  {
    n := 0;
    if s != "" && IsWhitespace(s[0]) {
      var m := StartTrimmed(s[1..]);
      n := m + 1;
      assert s[1..][m..] == s[n..] && s[..n] == [s[0]] + s[1..][..m];
    }
  }

  lemma {:induction false} EndTrimmed(s: string) returns (n: nat)
    ensures n <= |s| && TrimEnd(s) == s[..n] && IsBlank(s[n..])
    ensures TrimEnd(s) != "" ==> !IsWhitespace(TrimEnd(s)[n - 1])
    decreases |s|
  {
    n := |s|;
    if s != "" && IsWhitespace(s[|s| - 1]) {
      var front := s[..|s| - 1];
      n := EndTrimmed(front);
      assert front[..n] == s[..n] && s[n..] == front[n..] + [s[|s| - 1]];
    }
  }

  /** The key read from a header is the header without the whitespace at both ends, and a blank header has none. */
  lemma ReadKeyExactly(header: string) returns (i: nat, j: nat)
    ensures i <= j <= |header| && IsBlank(header[..i]) && IsBlank(header[j..])
    ensures ReadKey(Some(header)) == if i == j then None else Some(header[i..j])
    ensures i < j ==> !IsWhitespace(header[i]) && !IsWhitespace(header[j - 1])
    ensures ReadKey(None) == None
  {
    i := StartTrimmed(header);
    var n := EndTrimmed(header[i..]);
    j := i + n;
    assert header[i..][..n] == header[i..j] && header[i..][n..] == header[j..];
  }
}
