// Decimal text for whole numbers, as Go's strconv prints and reads it.
module Decimal {
  import opened Wrappers

  const MAX_INT64: int := 0x7FFF_FFFF_FFFF_FFFF
  const MIN_INT64: int := -0x8000_0000_0000_0000

  predicate IsDigit(c: char) { '0' <= c <= '9' }

  predicate AllDigits(s: string) { forall i | 0 <= i < |s| :: IsDigit(s[i]) }

  function DigitChar(d: nat): (c: char)
    requires d < 10
    ensures IsDigit(c) && c as int - '0' as int == d
  {
    ('0' as int + d) as char
  }

  function Digits(n: nat): string {
    if n < 10 then [DigitChar(n)] else Digits(n / 10) + [DigitChar(n % 10)]
  }

  function Value(s: string): nat
    requires AllDigits(s)
  {
    if s == "" then 0 else Value(s[..|s| - 1]) * 10 + (s[|s| - 1] as int - '0' as int)
  }

  lemma ValueAfter(s: string, c: char)
    requires AllDigits(s) && IsDigit(c)
    ensures AllDigits(s + [c]) && Value(s + [c]) == Value(s) * 10 + (c as int - '0' as int)
  {
    assert (s + [c])[..|s|] == s;
  }

  lemma {:induction false} ReadsBack(n: nat)
    ensures AllDigits(Digits(n)) && Value(Digits(n)) == n && Digits(n) != ""
  {
    if n >= 10 {
      ReadsBack(n / 10);
      ValueAfter(Digits(n / 10), DigitChar(n % 10));
    }
  }

  function Itoa(n: int): string { if n < 0 then "-" + Digits(-n) else Digits(n) }

  function Pow10(k: nat): (p: nat)
    ensures p > 0
  {
    if k == 0 then 1 else 10 * Pow10(k - 1)
  }

  // A number is its head, shifted past its tail, and its tail.
  lemma {:induction false} ValueSplits(a: string, b: string)
    requires AllDigits(a) && AllDigits(b)
    ensures AllDigits(a + b) && Value(a + b) == Value(a) * Pow10(|b|) + Value(b)
    ensures Value(b) < Pow10(|b|)
  {
    if b == "" {
      assert a + b == a;
    } else {
      var front, last := b[..|b| - 1], b[|b| - 1];
      ValueSplits(a, front);
      assert a + b == (a + front) + [last] && b == front + [last];
      ValueAfter(a + front, last);
      ValueAfter(front, last);
      OneMoreDigit(Value(a), Pow10(|front|), Value(front), last as int - '0' as int);
    }
  }

  lemma OneMoreDigit(head: nat, shift: nat, tail: nat, digit: nat)
    ensures (head * shift + tail) * 10 + digit == head * (10 * shift) + (tail * 10 + digit)
  {
  }

  // strconv.Atoi on 64 bits: an optional sign, then digits, within range.
  function Atoi(s: string): Option<int> {
    var digits := if s != "" && (s[0] == '-' || s[0] == '+') then s[1..] else s;
    if digits == "" || !AllDigits(digits) then None
    else
      var v := (if s[0] == '-' then -1 else 1) * Value(digits);
      if MIN_INT64 <= v <= MAX_INT64 then Some(v) else None
  }

  lemma AtoiOfDigits(s: string)
    requires AllDigits(s) && s != ""
    ensures Atoi(s) == if Value(s) <= MAX_INT64 then Some(Value(s)) else None
  {
    assert IsDigit(s[0]);
  }

  lemma AtoiOfMinus(digits: string)
    requires AllDigits(digits) && digits != ""
    ensures var v: int := Value(digits); Atoi("-" + digits) == if MIN_INT64 <= -v then Some(-v) else None
  {
    assert ("-" + digits)[1..] == digits && ("-" + digits)[0] == '-';
  }

  lemma AtoiReadsBack(n: int)
    ensures Atoi(Itoa(n)) == if MIN_INT64 <= n <= MAX_INT64 then Some(n) else None
  {
    if n < 0 {
      ReadsBack(-n);
      AtoiOfMinus(Digits(-n));
    } else {
      ReadsBack(n);
      AtoiOfDigits(Digits(n));
    }
  }

  lemma ItoaIsPlain(n: int, c: char)
    requires !IsDigit(c) && c != '-'
    ensures c !in Itoa(n)
  {
    ReadsBack(if n < 0 then -n else n);
  }
}
