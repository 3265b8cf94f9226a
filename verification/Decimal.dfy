/** Decimal text: printing and parsing integers, stream ids as "ms-seq", and the HINCRBY rule. */
module Decimal {
  import opened Prelude
  import opened Values

  const ZERO: byte := 48
  const NINE: byte := 57
  const PLUS: byte := 43
  const MINUS: byte := 45

  predicate IsDigit(b: byte) {
    ZERO <= b <= NINE
  }

  predicate AllDigits(s: Bytes) {
    forall i :: 0 <= i < |s| ==> IsDigit(s[i])
  }

  // ----- printing -----

  function PrintNat(n: nat): (s: Bytes)
    ensures s != []
  {
    if n < 10 then [ZERO + n] else PrintNat(n / 10) + [ZERO + n % 10]
  }

  function PrintInt(n: int): Bytes {
    if n < 0 then [MINUS] + PrintNat(-n) else PrintNat(n)
  }

  // ----- parsing -----

  function DigitsValue(s: Bytes): nat
    requires AllDigits(s)
  {
    if s == [] then 0 else 10 * DigitsValue(s[..|s| - 1]) + (s[|s| - 1] - ZERO)
  }

  /** `str::parse` after the sign: at least one character, digits only. */
  function ParseDigits(s: Bytes): Option<nat> {
    if s != [] && AllDigits(s) then Some(DigitsValue(s)) else None
  }

  /** `parse::<u64>`: a leading '+' is accepted. */
  function ParseU64(s: Bytes): Option<u64> {
    var body := if s != [] && s[0] == PLUS then s[1..] else s;
    match ParseDigits(body)
    case None => None
    case Some(n) => if n <= U64_MAX then Some(n) else None
  }

  /** `parse::<i64>`: a leading '+' or '-' is accepted. */
  function ParseI64(s: Bytes): Option<i64> {
    var negative := s != [] && s[0] == MINUS;
    var body := if s != [] && (s[0] == PLUS || s[0] == MINUS) then s[1..] else s;
    match ParseDigits(body)
    case None => None
    case Some(n) =>
      var v := if negative then 0 - n else n;
      if I64_MIN <= v <= I64_MAX then Some(v) else None
  }

  // ----- printing and parsing are inverse -----

  lemma {:induction false} PrintNatDigits(n: nat)
    ensures AllDigits(PrintNat(n))
    ensures PrintNat(n)[0] == ZERO <==> n == 0
    ensures n == 0 ==> PrintNat(n) == [ZERO]
    ensures DigitsValue(PrintNat(n)) == n
  {
    if n < 10 {
      assert [ZERO + n][..0] == [];
    } else {
      PrintNatDigits(n / 10);
      var s := PrintNat(n);
      assert s[..|s| - 1] == PrintNat(n / 10);
    }
  }

  lemma {:induction false} ParsePrintNat(n: nat)
    ensures ParseDigits(PrintNat(n)) == Some(n)
    ensures IsDigit(PrintNat(n)[0])
  {
    PrintNatDigits(n);
  }

  lemma {:induction false} ParsePrintI64(n: i64)
    ensures ParseI64(PrintInt(n)) == Some(n)
  {
    var m := if n < 0 then -(n as int) else n;
    ParsePrintNat(m);
    if n < 0 {
      assert PrintInt(n)[1..] == PrintNat(m);
    }
  }

  lemma {:induction false} ParsePrintU64(n: u64)
    ensures ParseU64(PrintNat(n)) == Some(n)
  {
    ParsePrintNat(n);
  }

  lemma {:induction false} PositiveLead(s: Bytes)
    requires s != [] && AllDigits(s) && s[0] != ZERO
    ensures DigitsValue(s) > 0
  {
    if |s| > 1 {
      PositiveLead(s[..|s| - 1]);
    }
  }

  /** Text without a leading zero is what its value prints as. */
  lemma {:induction false} PrintDigits(s: Bytes)
    requires s != [] && AllDigits(s) && (s[0] != ZERO || |s| == 1)
    ensures PrintNat(DigitsValue(s)) == s
  {
    if |s| == 1 {
      assert s[..0] == [] && DigitsValue(s) == s[0] - ZERO;
      assert [ZERO + (s[0] - ZERO)] == s;
    } else {
      var init := s[..|s| - 1];
      PrintDigits(init);
      PositiveLead(init);
      var d := s[|s| - 1] - ZERO;
      assert DigitsValue(s) / 10 == DigitsValue(init) && DigitsValue(s) % 10 == d;
      assert s == init + [s[|s| - 1]];
    }
  }

  // ----- HINCRBY -----

  datatype Increment = Stored(n: i64) | NotInteger | Overflow

  /** A field takes part as an integer only in the form an integer is printed in. */
  function CanonicalInt(text: Bytes): Option<i64> {
    match ParseI64(text)
    case None => None
    case Some(n) => if PrintInt(n) == text then Some(n) else None
  }

  function HincrValue(current: Option<Bytes>, increment: i64): Increment {
    var base: Option<i64> := if current.None? then Some(0) else CanonicalInt(current.value);
    match base
    case None => NotInteger
    case Some(n) => if I64_MIN <= n + increment <= I64_MAX then Stored(n + increment) else Overflow
  }

  /** A digit string with no leading zero, or "0" itself. */
  predicate PlainNumber(s: Bytes) {
    s != [] && AllDigits(s) && (s[0] != ZERO || |s| == 1)
  }

  /** "0", or an optional '-' before a nonzero plain number, within 64 bits. */
  ghost predicate LooksPrinted(text: Bytes) {
    if text != [] && text[0] == MINUS
    then PlainNumber(text[1..]) && text[1] != ZERO && I64_MIN + DigitsValue(text[1..]) <= 0
    else PlainNumber(text) && DigitsValue(text) <= I64_MAX
  }

  /** HINCRBY accepts exactly the strings that printing an i64 produces, recognised by their shape. */
  lemma {:induction false} AcceptsExactlyPrinted(text: Bytes)
    ensures CanonicalInt(text).Some? <==> LooksPrinted(text)
    ensures CanonicalInt(text).Some? <==> exists n: i64 :: PrintInt(n) == text
    ensures forall n: i64 :: PrintInt(n) == text ==> CanonicalInt(text) == Some(n)
  {
    forall n: i64 | PrintInt(n) == text ensures CanonicalInt(text) == Some(n) {
      ParsePrintI64(n);
    }
    if CanonicalInt(text).Some? {
      var n := CanonicalInt(text).value;
      assert PrintInt(n) == text;
      PrintedLooks(n);
    }
    if LooksPrinted(text) {
      if text[0] == MINUS {
        PrintDigits(text[1..]);
        PositiveLead(text[1..]);
        var n: i64 := 0 - DigitsValue(text[1..]);
        assert text == [MINUS] + text[1..];
        assert PrintInt(n) == text;
      } else {
        PrintDigits(text);
        var n: i64 := DigitsValue(text);
        assert PrintInt(n) == text;
      }
    }
  }

  lemma {:induction false} PrintedLooks(n: i64)
    ensures LooksPrinted(PrintInt(n))
  {
    var m: nat := if n < 0 then -(n as int) else n;
    PrintNatDigits(m);
    if n < 0 {
      assert PrintInt(n)[1..] == PrintNat(m);
    } else {
      assert PrintInt(n)[0] != MINUS;
    }
  }

  /** HINCRBY on a hash: an error leaves it as it was. */
  function HashIncrement(fields: Fields, field: Bytes, increment: i64): Fields {
    match HincrValue(if field in fields then Some(fields[field]) else None, increment)
    case Stored(n) => fields[field := PrintInt(n)]
    case _ => fields
  }

  function HashRun(fields: Fields, field: Bytes, increments: seq<i64>): Fields {
    if increments == [] then fields
    else HashIncrement(HashRun(fields, field, increments[..|increments| - 1]), field, increments[|increments| - 1])
  }

  /** Running total of the increments that keep it within 64 bits, and whether there was one. */
  function SuccessfulSum(increments: seq<i64>): (i64, bool) {
    if increments == [] then (0, false)
    else
      var before := SuccessfulSum(increments[..|increments| - 1]);
      var next := before.0 + increments[|increments| - 1];
      if I64_MIN <= next <= I64_MAX then (next, true) else before
  }

  /** Any run of HINCRBYs on an absent field leaves the printed sum of the successful ones and nothing else changed. */
  lemma {:induction false} HashRunSums(fields: Fields, field: Bytes, increments: seq<i64>)
    requires field !in fields
    ensures HashRun(fields, field, increments) ==
            if SuccessfulSum(increments).1 then fields[field := PrintInt(SuccessfulSum(increments).0)] else fields
    ensures !SuccessfulSum(increments).1 ==> SuccessfulSum(increments).0 == 0
  {
    if increments != [] {
      HashRunSums(fields, field, increments[..|increments| - 1]);
      ParsePrintI64(SuccessfulSum(increments[..|increments| - 1]).0);
    }
  }

  // ----- stream ids -----

  function FormatId(id: StreamId): Bytes {
    PrintNat(id.ms) + [MINUS] + PrintNat(id.seqNo)
  }

  /** The index of the first '-', or the length. */
  function FirstDash(s: Bytes): (i: nat)
    ensures i <= |s|
    ensures i < |s| ==> s[i] == MINUS
    ensures forall k :: 0 <= k < i ==> s[k] != MINUS
  {
    if s == [] || s[0] == MINUS then 0 else 1 + FirstDash(s[1..])
  }

  /** `splitn(2, '-')` and two `parse::<u64>`. */
  function ParseId(s: Bytes): Option<StreamId> {
    var i := FirstDash(s);
    if i == |s| then None
    else
      match (ParseU64(s[..i]), ParseU64(s[i + 1..]))
      case (Some(ms), Some(seqNo)) => Some(StreamId(ms, seqNo))
      case (_, _) => None
  }

  /** Every id survives being formatted and parsed back. */
  lemma {:induction false} ParseFormatId(id: StreamId)
    ensures ParseId(FormatId(id)) == Some(id)
  {
    var a, b := PrintNat(id.ms), PrintNat(id.seqNo);
    var s := FormatId(id);
    PrintNatDigits(id.ms);
    assert s[|a|] == MINUS;
    assert forall k :: 0 <= k < |a| ==> s[k] == a[k] && IsDigit(a[k]);
    assert FirstDash(s) == |a|;
    assert s[..|a|] == a && s[|a| + 1..] == b;
    ParsePrintU64(id.ms);
    ParsePrintU64(id.seqNo);
  }

  /** A text that parses as a u64 is what its value prints as exactly when it is a plain number. */
  lemma {:induction false} PrintsBackIff(s: Bytes)
    requires ParseU64(s).Some?
    ensures PrintNat(ParseU64(s).value) == s <==> PlainNumber(s)
  {
    PrintNatDigits(ParseU64(s).value);
    if PlainNumber(s) {
      PrintDigits(s);
    }
  }

  /**
   The converse of the round trip, exactly: a text that parses formats back to itself if and only if both
   numbers are plain - digits only and no leading zero.
   */
  lemma {:induction false} FormatsBackIff(s: Bytes)
    requires ParseId(s).Some?
    ensures FirstDash(s) < |s|
    ensures FormatId(ParseId(s).value) == s <==>
            PlainNumber(s[..FirstDash(s)]) && PlainNumber(s[FirstDash(s) + 1..])
  {
    var i := FirstDash(s);
    CutAtDash(s, i);
    PartsFormatBack(ParseId(s).value, s[..i], s[i + 1..]);
  }

  lemma {:induction false} CutAtDash(s: Bytes, i: nat)
    requires i < |s| && s[i] == MINUS && forall k :: 0 <= k < i ==> s[k] != MINUS
    ensures s == s[..i] + [MINUS] + s[i + 1..] && MINUS !in s[..i]
  {
  }

  lemma {:induction false} PartsFormatBack(id: StreamId, a: Bytes, b: Bytes)
    requires ParseU64(a) == Some(id.ms) && ParseU64(b) == Some(id.seqNo) && MINUS !in a
    ensures FormatId(id) == a + [MINUS] + b <==> PlainNumber(a) && PlainNumber(b)
  {
    PrintsBackIff(a);
    PrintsBackIff(b);
    SameIffParts(id, a, b);
  }

  lemma {:induction false} SameIffParts(id: StreamId, a: Bytes, b: Bytes)
    requires MINUS !in a
    ensures FormatId(id) == a + [MINUS] + b <==> PrintNat(id.ms) == a && PrintNat(id.seqNo) == b
  {
    if FormatId(id) == a + [MINUS] + b {
      PrintNatDigits(id.ms);
      SameSplit(PrintNat(id.ms), PrintNat(id.seqNo), a, b);
    }
  }

  /** Two texts cut at their first dash are equal only piece by piece. */
  lemma {:induction false} SameSplit(a: Bytes, b: Bytes, c: Bytes, d: Bytes)
    requires a + [MINUS] + b == c + [MINUS] + d
    requires MINUS !in a && MINUS !in c
    ensures a == c && b == d
  {
    var s, t := a + [MINUS] + b, c + [MINUS] + d;
    assert s[|a|] == MINUS && t[|c|] == MINUS;
    assert forall k :: 0 <= k < |a| ==> s[k] == a[k];
    assert forall k :: 0 <= k < |c| ==> t[k] == c[k];
    assert |a| == |c|;
    assert a == s[..|a|] && c == t[..|c|];
    assert b == s[|a| + 1..] && d == t[|c| + 1..];
  }

  /** The parser is not injective: it also takes a plus sign and leading zeros. */
  lemma {:induction false} ParseIdLenient()
    ensures ParseId([PLUS, 49, MINUS, ZERO, 50]) == Some(StreamId(1, 2))
    ensures FormatId(StreamId(1, 2)) == [49, MINUS, 50]
  {
    var s: Bytes := [PLUS, 49, MINUS, ZERO, 50];
    assert FirstDash(s) == 2 by {
      assert s[2] == MINUS && s[0] != MINUS && s[1] != MINUS;
    }
    assert s[..2] == [PLUS, 49] && s[3..] == [ZERO, 50];
    assert [PLUS, 49][1..] == [49] && [49][..0] == [];
    var z: Bytes := [ZERO, 50];
    assert z[..1] == [ZERO] && [ZERO][..0] == [];
    assert DigitsValue([49]) == 1 && DigitsValue([ZERO]) == 0 && DigitsValue(z) == 2;
  }
}
