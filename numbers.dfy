/** `str::parse::<u32>`, which the typed conversion applies to `BANDWIDTH`, `AVERAGE-BANDWIDTH` and the two halves of
    a resolution (src/models/conversions.rs:15-26, 110-113, 145-154). It reads an optional `+` and then decimal
    digits from left to right; a character that is not a digit is reported before an overflow that a later digit
    would have caused, and an overflow before a later bad character. */
module Numbers {
  import opened Errors

  const U32Max: int := 0xFFFF_FFFF

  type U32 = n: int | 0 <= n <= U32Max

  /** The messages of the three ways the parse fails, carried as `HLSFormat` errors. */
  const EmptyMessage: string := "cannot parse integer from empty string"
  const InvalidDigitMessage: string := "invalid digit found in string"
  const TooLargeMessage: string := "number too large to fit in target type"

  predicate IsDigit(c: char) {
    '0' <= c <= '9'
  }

  predicate AllDigits(s: string) {
    forall i :: 0 <= i < |s| ==> IsDigit(s[i])
  }

  function DigitValue(c: char): (d: nat)
    requires IsDigit(c)
    ensures d < 10
  {
    (c as int) - ('0' as int)
  }

  /** The number a string of decimal digits denotes, most significant digit first. */
  function Value(s: string): nat
    requires AllDigits(s)
  {
    if s == [] then 0 else Value(s[..|s| - 1]) * 10 + DigitValue(s[|s| - 1])
  }

  /** The digit loop: `acc` is the value read so far. */
  function Accumulate(digits: string, acc: nat): (r: Result<nat>)
    requires acc <= U32Max
    ensures r.Ok? ==> r.value <= U32Max
    ensures r.Err? ==> r.error == HLSFormat(InvalidDigitMessage) || r.error == HLSFormat(TooLargeMessage)
  {
    if digits == [] then Ok(acc)
    else if !IsDigit(digits[0]) then Err(HLSFormat(InvalidDigitMessage))
    else if acc * 10 + DigitValue(digits[0]) > U32Max then Err(HLSFormat(TooLargeMessage))
    else Accumulate(digits[1..], acc * 10 + DigitValue(digits[0]))
  }

  /** The digits after the optional leading `+`. A `-` is not a sign for an unsigned type: it is a bad digit. */
  function Digits(s: string): string {
    if s != [] && s[0] == '+' then s[1..] else s
  }

  /** `u32::from_str`. */
  function ParseU32(s: string): (r: Result<U32>)
    ensures s == [] ==> r == Err(HLSFormat(EmptyMessage))
    ensures r.Err? ==> r.error in {HLSFormat(EmptyMessage), HLSFormat(InvalidDigitMessage), HLSFormat(TooLargeMessage)}
  {
    if s == [] then Err(HLSFormat(EmptyMessage))
    else if |s| == 1 && (s[0] == '+' || s[0] == '-') then Err(HLSFormat(InvalidDigitMessage))
    else
      match Accumulate(Digits(s), 0)
      case Err(e) => Err(e)
      case Ok(n) => Ok(n)
  }

  lemma ValueSnoc(p: string, c: char)
    requires AllDigits(p) && IsDigit(c)
    ensures AllDigits(p + [c]) && Value(p + [c]) == Value(p) * 10 + DigitValue(c)
  {
    assert (p + [c])[..|p|] == p;
  }

  /** Moving the first of the digits read onto the end of the prefix. */
  lemma ShiftFirst(p: string, digits: string, i: nat)
    requires 0 < i <= |digits|
    ensures digits[..i] == [digits[0]] + digits[1..][..i - 1]
    ensures p + digits[..i] == (p + [digits[0]]) + digits[1..][..i - 1]
  {
    assert digits[..i] == [digits[0]] + digits[1..][..i - 1];
  }

  lemma AllDigitsConcat(a: string, b: string)
    ensures AllDigits(a + b) <==> AllDigits(a) && AllDigits(b)
  {
    if AllDigits(a) && AllDigits(b) {
      forall k | 0 <= k < |a + b|
        ensures IsDigit((a + b)[k])
      {
        if k >= |a| {
          assert (a + b)[k] == b[k - |a|];
        }
      }
    }
    if AllDigits(a + b) {
      assert forall k :: 0 <= k < |a| ==> (a + b)[k] == a[k];
      assert forall k :: 0 <= k < |b| ==> (a + b)[|a| + k] == b[k];
    }
  }

  /** Reading digits that stay in range yields the value of all digits read. */
  lemma {:induction false} AccumulateDigits(p: string, digits: string)
    requires AllDigits(p) && Value(p) <= U32Max
    requires AllDigits(digits) && AllDigits(p + digits) && Value(p + digits) <= U32Max
    ensures Accumulate(digits, Value(p)) == Ok(Value(p + digits))
    decreases |digits|
  {
    if digits == [] {
      assert p + digits == p;
    } else {
      var c := digits[0];
      ValueSnoc(p, c);
      var p' := p + [c];
      assert p + digits == p' + digits[1..];
      PrefixRange(p', digits[1..]);
      AccumulateDigits(p', digits[1..]);
    }
  }

  /** The value of a prefix does not exceed the value of the whole. */
  lemma {:induction false} PrefixRange(p: string, q: string)
    requires AllDigits(p + q)
    ensures AllDigits(p) && Value(p) <= Value(p + q)
    decreases |q|
  {
    assert forall i :: 0 <= i < |p| ==> p[i] == (p + q)[i];
    if q != [] {
      var pq := p + q;
      assert pq[..|pq| - 1] == p + q[..|q| - 1];
      assert Value(pq) == Value(pq[..|pq| - 1]) * 10 + DigitValue(pq[|pq| - 1]);
      PrefixRange(p, q[..|q| - 1]);
    } else {
      assert p + q == p;
    }
  }

  /** Conversely, the loop succeeds only on digits that stay in range, and then yields their value. */
  lemma {:induction false} AccumulateOk(p: string, digits: string)
    requires AllDigits(p) && Value(p) <= U32Max
    requires Accumulate(digits, Value(p)).Ok?
    ensures AllDigits(digits) && AllDigits(p + digits) && Value(p + digits) == Accumulate(digits, Value(p)).value
    decreases |digits|
  {
    if digits == [] {
      assert p + digits == p;
    } else {
      var c := digits[0];
      ValueSnoc(p, c);
      var p' := p + [c];
      assert p + digits == p' + digits[1..];
      AccumulateOk(p', digits[1..]);
      assert digits == [c] + digits[1..];
    }
  }

  /** A bad character is reported when every digit before it kept the value in range. */
  lemma {:induction false} AccumulateBadCharacter(p: string, digits: string, i: nat)
    requires AllDigits(p) && Value(p) <= U32Max
    requires i < |digits| && !IsDigit(digits[i])
    requires AllDigits(digits[..i]) && AllDigits(p + digits[..i]) && Value(p + digits[..i]) <= U32Max
    ensures Accumulate(digits, Value(p)) == Err(HLSFormat(InvalidDigitMessage))
    decreases i
  {
    if i > 0 {
      var c := digits[0];
      ShiftFirst(p, digits, i);
      AllDigitsConcat([c], digits[1..][..i - 1]);
      ValueSnoc(p, c);
      var p' := p + [c];
      PrefixRange(p', digits[1..][..i - 1]);
      AccumulateBadCharacter(p', digits[1..], i - 1);
    }
  }

  /** An overflow is reported when a run of digits goes out of range before any bad character. */
  lemma {:induction false} AccumulateOverflow(p: string, digits: string, i: nat)
    requires AllDigits(p) && Value(p) <= U32Max
    requires 1 <= i <= |digits| && AllDigits(digits[..i]) && AllDigits(p + digits[..i]) && Value(p + digits[..i]) > U32Max
    ensures Accumulate(digits, Value(p)) == Err(HLSFormat(TooLargeMessage))
    decreases i
  {
    var c := digits[0];
    ShiftFirst(p, digits, i);
    AllDigitsConcat([c], digits[1..][..i - 1]);
    ValueSnoc(p, c);
    var p' := p + [c];
    if i == 1 {
      assert p' == p + digits[..i];
    } else if Value(p') <= U32Max {
      AccumulateOverflow(p', digits[1..], i - 1);
    }
  }

  /** `parse` succeeds exactly on an optional `+` followed by a non-empty run of digits whose value fits in 32 bits,
      and yields that value. Leading zeros are allowed. */
  lemma ParseU32Ok(s: string)
    ensures ParseU32(s).Ok? <==> Digits(s) != [] && AllDigits(Digits(s)) && Value(Digits(s)) <= U32Max
    ensures ParseU32(s).Ok? ==> ParseU32(s).value == Value(Digits(s))
  {
    var ds := Digits(s);
    assert Value([]) == 0;
    assert [] + ds == ds;
    if ds != [] && AllDigits(ds) && Value(ds) <= U32Max {
      AccumulateDigits([], ds);
      assert !(|s| == 1 && (s[0] == '+' || s[0] == '-')) by {
        if |s| == 1 {
          assert ds == s;
          assert IsDigit(s[0]);
        }
      }
    }
    if ParseU32(s).Ok? {
      AccumulateOk([], ds);
    }
  }

  /** The first event decides the error: a character that is not a digit, reached while in range. */
  lemma ParseU32BadCharacter(s: string, i: nat)
    requires s != [] && i < |Digits(s)| && !IsDigit(Digits(s)[i])
    requires AllDigits(Digits(s)[..i]) && Value(Digits(s)[..i]) <= U32Max
    ensures ParseU32(s) == Err(HLSFormat(InvalidDigitMessage))
  {
    assert [] + Digits(s)[..i] == Digits(s)[..i];
    AccumulateBadCharacter([], Digits(s), i);
  }

  /** The first event decides the error: a run of digits that leaves the 32-bit range. */
  lemma ParseU32TooLarge(s: string, i: nat)
    requires 1 <= i <= |Digits(s)| && AllDigits(Digits(s)[..i]) && Value(Digits(s)[..i]) > U32Max
    ensures ParseU32(s) == Err(HLSFormat(TooLargeMessage))
  {
    assert [] + Digits(s)[..i] == Digits(s)[..i];
    AccumulateOverflow([], Digits(s), i);
  }

  /** A sign with nothing after it is a bad digit. */
  lemma ParseU32LoneSign(c: char)
    requires c == '+' || c == '-'
    ensures ParseU32([c]) == Err(HLSFormat(InvalidDigitMessage))
  {
  }

  /** The shortest decimal text of a number. */
  function DecimalText(n: nat): (s: string)
    ensures s != [] && AllDigits(s) && Value(s) == n
  {
    var d := ['0' + ((n % 10) as char)];
    assert DigitValue(d[0]) == n % 10;
    if n < 10 then
      assert Value(d) == Value([]) * 10 + n % 10;
      d
    else
      var high := DecimalText(n / 10);
      ValueSnoc(high, d[0]);
      high + d
  }

  /** Round trip: the decimal text of a 32-bit number, with or without a `+`, parses back to it. */
  lemma ParseU32RoundTrip(n: U32)
    ensures ParseU32(DecimalText(n)) == Ok(n)
    ensures ParseU32("+" + DecimalText(n)) == Ok(n)
  {
    ParseU32Ok(DecimalText(n));
    var t := "+" + DecimalText(n);
    assert Digits(t) == DecimalText(n);
    ParseU32Ok(t);
  }
}
