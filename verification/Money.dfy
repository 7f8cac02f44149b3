// Money as text: the printers of the review card and of push (ui/review.go, push.go), the
// rounding parser of the review form (ui/money.go), and the truncating one of the mirror
// (sync.go).
module Money {
  import opened Wrappers
  import opened Text
  import opened Decimal

  // ---- printers ----------------------------------------------------------------------------------

  // Digits with a comma wherever `comma` asks for one, by how many digits are still to come;
  // `right` more follow s.
  function Grouped(s: string, right: nat, comma: nat -> bool): string {
    if s == "" then ""
    else
      var still := |s| - 1 + right;
      [s[0]] + (if still > 0 && comma(still) then "," else "") + Grouped(s[1..], right, comma)
  }

  predicate IndianComma(still: nat) { still >= 3 && still % 2 == 1 }

  predicate WesternComma(still: nat) { still > 0 && still % 3 == 0 }

  lemma {:induction false} GroupedSplits(a: string, b: string, right: nat, comma: nat -> bool)
    ensures Grouped(a + b, right, comma) == Grouped(a, |b| + right, comma) + Grouped(b, right, comma)
  {
    if a == "" {
      assert a + b == b;
    } else {
      assert (a + b)[0] == a[0] && (a + b)[1..] == a[1..] + b;
      GroupedSplits(a[1..], b, right, comma);
    }
  }

  lemma {:induction false} NoCommaIn(s: string, right: nat, comma: nat -> bool)
    requires forall still | right <= still < |s| + right && still > 0 :: !comma(still)
    ensures Grouped(s, right, comma) == s
  {
    if s != "" {
      NoCommaIn(s[1..], right, comma);
      assert s == [s[0]] + s[1..];
    }
  }

  lemma {:induction false} CommaAfter(s: string, right: nat, comma: nat -> bool)
    requires s != "" && right > 0 && comma(right) && forall still | right < still < |s| + right :: !comma(still)
    ensures Grouped(s, right, comma) == s + ","
  {
    if |s| > 1 {
      CommaAfter(s[1..], right, comma);
    }
    assert s == [s[0]] + s[1..];
  }

  lemma PairOff(front: string, pair: string, right: nat, text: string)
    requires |pair| == 2 && right % 2 == 1 && right >= 3
    ensures Grouped(front + pair, right, IndianComma) + text == Grouped(front, right + 2, IndianComma) + (pair + "," + text)
  {
    GroupedSplits(front, pair, right, IndianComma);
    CommaAfter(pair, right, IndianComma);
  }

  // groupIndian: the last three digits, then pairs.
  method GroupIndian(n: nat) returns (text: string)
    ensures text == Grouped(Digits(n), 0, IndianComma)
  {
    var s := Digits(n);
    if |s| <= 3 {
      NoCommaIn(s, 0, IndianComma);
      return s;
    }
    text := GroupPairs(s);
  }

  lemma LastThree(head: string, tail: string)
    requires |tail| == 3
    ensures Grouped(head + tail, 0, IndianComma) == Grouped(head, 3, IndianComma) + tail
  {
    GroupedSplits(head, tail, 0, IndianComma);
    NoCommaIn(tail, 0, IndianComma);
  }

  // What the loop has built is right: `done` follows a head still to be grouped.
  predicate PairsSoFar(s: string, head: string, right: nat, done: string) {
    Grouped(s, 0, IndianComma) == Grouped(head, right, IndianComma) + done
  }

  lemma PairsStep(s: string, front: string, pair: string, right: nat, done: string)
    requires |pair| == 2 && right % 2 == 1 && right >= 3 && PairsSoFar(s, front + pair, right, done)
    ensures PairsSoFar(s, front, right + 2, pair + "," + done)
  {
    PairOff(front, pair, right, done);
  }

  method GroupPairs(s: string) returns (text: string)
    requires |s| > 3
    ensures PairsSoFar(s, "", 0, text)
  {
    var head := s[..|s| - 3];
    text := s[|s| - 3..];
    ghost var right := 3;
    LastThree(head, text);
    assert s == head + text;
    while |head| > 2
      invariant 0 < |head| && right % 2 == 1 && right >= 3 && PairsSoFar(s, head, right, text)
    {
      var front, pair := head[..|head| - 2], head[|head| - 2..];
      assert head == front + pair;
      PairsStep(s, front, pair, right, text);
      text := pair + "," + text;
      head := front;
      right := right + 2;
    }
    PairsEnd(s, head, right, text);
    text := head + "," + text;
  }

  lemma PairsEnd(s: string, head: string, right: nat, done: string)
    requires 0 < |head| <= 2 && right % 2 == 1 && right >= 3 && PairsSoFar(s, head, right, done)
    ensures PairsSoFar(s, "", 0, head + "," + done)
  {
    CommaAfter(head, right, IndianComma);
  }

  // groupWestern: commas put in from the right, every third digit.
  method GroupWestern(n: nat) returns (text: string)
    ensures text == Grouped(Digits(n), 0, WesternComma)
  {
    text := GroupThrees(Digits(n));
  }

  predicate ThreesSoFar(s: string, head: string, right: nat, done: string) {
    Grouped(s, 0, WesternComma) == HeadGrouped(head, right) + done
  }

  lemma ThreesStep(s: string, front: string, three: string, right: nat, done: string)
    requires front != "" && |three| == 3 && right % 3 == 0 && ThreesSoFar(s, front + three, right, done)
    ensures ThreesSoFar(s, front, right + 3, "," + three + done)
  {
    GroupsOfThree(front, three, right);
    assert HeadGrouped(front, right + 3) + "," + three + done == HeadGrouped(front, right + 3) + ("," + three + done);
  }

  lemma CommaPutIn(front: string, three: string, done: string, text: string)
    requires text == front + three + done
    ensures text[..|front|] + "," + text[|front|..] == front + ("," + three + done)
  {
    assert text[..|front|] == front && text[|front|..] == three + done;
  }

  method GroupThrees(s: string) returns (text: string)
    ensures text == Grouped(s, 0, WesternComma)
  {
    text := s;
    var i := |s| - 3;
    ghost var head, done, right := s, "", 0;
    while i > 0
      invariant |head| == i + 3 && text == head + done && right % 3 == 0 && i >= -3
      invariant ThreesSoFar(s, head, right, done)
    {
      ghost var front, three := head[..i], head[i..];
      assert head == front + three;
      ThreesStep(s, front, three, right, done);
      CommaPutIn(front, three, done, text);
      text := text[..i] + "," + text[i..];
      head, done, right := front, "," + three + done, right + 3;
      i := i - 3;
    }
    NoCommaInFew(head, right);
  }

  // The grouping of a head whose own last comma, if it needs one, has been put in already.
  function HeadGrouped(head: string, right: nat): string {
    var whole := Grouped(head, right, WesternComma);
    if right > 0 && head != "" && whole != "" then whole[..|whole| - 1] else whole
  }

  lemma GroupsOfThree(front: string, three: string, right: nat)
    requires front != "" && |three| == 3 && right % 3 == 0
    ensures HeadGrouped(front + three, right) == HeadGrouped(front, right + 3) + "," + three
  {
    if right == 0 {
      LastGroupOfThree(front, three);
    } else {
      InnerGroupOfThree(front, three, right);
    }
  }

  lemma LastGroupOfThree(front: string, three: string)
    requires front != "" && |three| == 3
    ensures HeadGrouped(front + three, 0) == HeadGrouped(front, 3) + "," + three
  {
    GroupedSplits(front, three, 0, WesternComma);
    NoCommaIn(three, 0, WesternComma);
    EndsInComma(front, 3);
  }

  lemma InnerGroupOfThree(front: string, three: string, right: nat)
    requires front != "" && |three| == 3 && right > 0 && right % 3 == 0
    ensures HeadGrouped(front + three, right) == HeadGrouped(front, right + 3) + "," + three
  {
    InnerParts(front, three, right);
    EndsInComma(front, right + 3);
    LastCommaOff(Grouped(front + three, right, WesternComma), Grouped(front, right + 3, WesternComma), three);
  }

  lemma InnerParts(front: string, three: string, right: nat)
    requires |three| == 3 && right > 0 && right % 3 == 0
    ensures Grouped(front + three, right, WesternComma) == Grouped(front, right + 3, WesternComma) + (three + ",")
  {
    GroupedSplits(front, three, right, WesternComma);
    CommaAfter(three, right, WesternComma);
  }

  lemma LastCommaOff(whole: string, head: string, three: string)
    requires whole == head + (three + ",") && head != "" && head == head[..|head| - 1] + ","
    ensures whole[..|whole| - 1] == head[..|head| - 1] + "," + three
  {
    assert whole[..|whole| - 1] == head + three;
  }

  lemma {:induction false} EndsInComma(s: string, right: nat)
    requires s != "" && right > 0 && right % 3 == 0
    ensures var text := Grouped(s, right, WesternComma); text != "" && text == text[..|text| - 1] + ","
  {
    if |s| > 1 {
      EndsInComma(s[1..], right);
    }
  }

  lemma NoCommaInFew(head: string, right: nat)
    requires |head| <= 3 && right % 3 == 0
    ensures HeadGrouped(head, right) == head
  {
    if right == 0 || head == "" {
      NoCommaIn(head, 0, WesternComma);
    } else {
      CommaAfter(head, right, WesternComma);
    }
  }

  function TwoDigits(p: nat): string
    requires p < 100
  {
    [DigitChar(p / 10), DigitChar(p % 10)]
  }

  function PaisePart(p: nat): string
    requires p < 100
  {
    if p == 0 then "" else "." + TwoDigits(p)
  }

  function Abs(p: int): nat { if p < 0 then -p else p }

  function FormatINR(p: int): string { "₹" + Grouped(Digits(Abs(p) / 100), 0, IndianComma) + PaisePart(Abs(p) % 100) }

  function FormatForeign(p: int, code: string): string {
    code + " " + Grouped(Digits(Abs(p) / 100), 0, WesternComma) + PaisePart(Abs(p) % 100)
  }

  function PaiseToDecimal(p: int): string { Digits(Abs(p) / 100) + "." + TwoDigits(Abs(p) % 100) }

  // ---- parsers -----------------------------------------------------------------------------------

  datatype MoneyError = Empty | Negative | NotANumber | TooLarge | BadWhole | BadFraction

  datatype Fraction = Fraction(num: nat, den: nat)

  // What the number notations other than plain decimals (signs, exponents, fractions, other
  // bases) read as.
  type Notation = string -> Option<Fraction>

  function Whole(s: string): string { s[..IndexOf(s, '.')] }

  function Frac(s: string): string { if IndexOf(s, '.') < |s| then s[IndexOf(s, '.') + 1..] else "" }

  predicate Plain(s: string) { AllDigits(Whole(s)) && AllDigits(Frac(s)) && Whole(s) + Frac(s) != "" }

  function PlainValue(s: string): Fraction
    requires Plain(s)
  {
    ValueSplits(Whole(s), Frac(s));
    Fraction(Value(Whole(s) + Frac(s)), Pow10(|Frac(s)|))
  }

  function Uncut(s: string): string {
    if s == "" then ""
    else (if s[0] == '₹' || s[0] == '$' || s[0] == '€' || s[0] == '£' || s[0] == ',' then "" else [s[0]]) + Uncut(s[1..])
  }

  predicate IsAlpha(s: string) { forall i | 0 <= i < |s| :: 'A' <= s[i] <= 'Z' || 'a' <= s[i] <= 'z' }

  function WithoutCode(s: string): string {
    if |s| > 3 && s[3] == ' ' && IsAlpha(s[..3]) then Trim(s[4..]) else s
  }

  // Whole paise, a half rounded up.
  function RoundHalfUp(f: Fraction): nat
    requires f.den > 0
  {
    (200 * f.num + f.den) / (2 * f.den)
  }

  // parseMoneyToPaise.
  function ParseMoney(other: Notation, text: string): Result<int, MoneyError> {
    var s := WithoutCode(Trim(Uncut(Trim(text))));
    if s == "" then Err(Empty)
    else if s[0] == '-' then Err(Negative)
    else
      match if Plain(s) then Some(PlainValue(s)) else other(s)
      case None => Err(NotANumber)
      case Some(f) =>
        if f.den == 0 then Err(NotANumber)
        else if RoundHalfUp(f) > MAX_INT64 then Err(TooLarge)
        else Ok(RoundHalfUp(f))
  }

  // Arithmetic on 64 bits wraps around.
  function Wrapped(v: int): int { (v - MIN_INT64) % 0x1_0000_0000_0000_0000 + MIN_INT64 }

  // decimalToPaise: cut, not rounded, to two decimals.
  function DecimalToPaise(text: string): Result<int, MoneyError> {
    var s := Trim(text);
    if s == "" then Ok(0)
    else if s[0] == '-' then Err(Negative)
    else match Atoi(Whole(s))
      case None => Err(BadWhole)
      case Some(whole) =>
        var frac := Frac(s);
        if frac == "" then Ok(Wrapped(whole * 100))
        else match Atoi(if |frac| == 1 then frac + "0" else frac[..2])
          case None => Err(BadFraction)
          case Some(cents) => Ok(Wrapped(whole * 100 + cents))
  }

  // ---- reading back --------------------------------------------------------------------------------

  predicate Cuts(c: char) { c == '₹' || c == '$' || c == '€' || c == '£' || c == ',' }

  lemma {:induction false} UncutSplits(a: string, b: string)
    ensures Uncut(a + b) == Uncut(a) + Uncut(b)
  {
    if a == "" {
      assert a + b == b;
    } else {
      assert (a + b)[0] == a[0] && (a + b)[1..] == a[1..] + b;
      UncutSplits(a[1..], b);
    }
  }

  lemma {:induction false} UncutKeeps(s: string)
    requires forall i | 0 <= i < |s| :: !Cuts(s[i])
    ensures Uncut(s) == s
  {
    if s != "" {
      UncutKeeps(s[1..]);
      assert s == [s[0]] + s[1..];
    }
  }

  // Taking the commas out of a grouped number gives its digits back.
  lemma {:induction false} UncutUngroups(s: string, right: nat, comma: nat -> bool)
    requires AllDigits(s)
    ensures Uncut(Grouped(s, right, comma)) == s
  {
    if s != "" {
      UncutUngroups(s[1..], right, comma);
      var still := |s| - 1 + right;
      var first := [s[0]] + (if still > 0 && comma(still) then "," else "");
      UncutSplits(first, Grouped(s[1..], right, comma));
      assert Uncut(first) == [s[0]] by {
        UncutSplits([s[0]], if still > 0 && comma(still) then "," else "");
      }
      assert s == [s[0]] + s[1..];
    }
  }

  // The text of an amount once its grouping is gone: digits, and two decimals unless they are zero.
  function Ungrouped(p: nat): string { Digits(p / 100) + PaisePart(p % 100) }

  lemma TwoDigitsRead(p: nat)
    requires p < 100
    ensures AllDigits(TwoDigits(p)) && Value(TwoDigits(p)) == p
  {
    PairValue(DigitChar(p / 10), DigitChar(p % 10));
  }

  lemma PairValue(a: char, b: char)
    requires IsDigit(a) && IsDigit(b)
    ensures AllDigits([a]) && Value([a]) == a as int - '0' as int
    ensures AllDigits([a, b]) && Value([a, b]) == 10 * (a as int - '0' as int) + (b as int - '0' as int)
  {
    ValueAfter("", a);
    assert "" + [a] == [a];
    ValueAfter([a], b);
    assert [a] + [b] == [a, b];
  }

  lemma PlainParts(whole: string, frac: string)
    requires AllDigits(whole) && AllDigits(frac) && whole != ""
    ensures var s := whole + "." + frac; Whole(s) == whole && Frac(s) == frac && Plain(s)
    ensures Whole(whole) == whole && Frac(whole) == "" && Plain(whole)
  {
    var s := whole + "." + frac;
    IndexAfter(whole, '.', frac);
    assert s[..|whole|] == whole && s[|whole| + 1..] == frac;
  }

  // A hundredth of p, read to the nearest paisa, is p.
  lemma TwoDecimalsRead(p: nat)
    ensures var s := Digits(p / 100) + "." + TwoDigits(p % 100); Plain(s) && RoundHalfUp(PlainValue(s)) == p
    ensures p % 100 == 0 ==> Plain(Digits(p / 100)) && RoundHalfUp(PlainValue(Digits(p / 100))) == p
  {
    ReadsBack(p / 100);
    TwoDigitsRead(p % 100);
    PlainParts(Digits(p / 100), TwoDigits(p % 100));
    ValueSplits(Digits(p / 100), TwoDigits(p % 100));
    assert Pow10(2) == 100 && Pow10(0) == 1;
    assert Digits(p / 100) + "" == Digits(p / 100);
  }

  lemma UngroupedReads(p: nat)
    ensures Plain(Ungrouped(p)) && RoundHalfUp(PlainValue(Ungrouped(p))) == p
    ensures Ungrouped(p) != "" && forall i | 0 <= i < |Ungrouped(p)| :: IsDigit(Ungrouped(p)[i]) || Ungrouped(p)[i] == '.'
  {
    TwoDecimalsRead(p);
    ReadsBack(p / 100);
    TwoDigitsRead(p % 100);
    if p % 100 == 0 {
      assert Ungrouped(p) == Digits(p / 100);
    } else {
      assert Ungrouped(p) == Digits(p / 100) + "." + TwoDigits(p % 100);
    }
  }

  predicate NumberText(s: string) { s != "" && forall i | 0 <= i < |s| :: IsDigit(s[i]) || s[i] == '.' }

  // A bare number has nothing to take off.
  lemma BareNumber(s: string)
    requires NumberText(s)
    ensures Trim(s) == s && Uncut(s) == s && WithoutCode(s) == s
  {
    TrimOfTrimmed(s);
    UncutKeeps(s);
  }

  // What parseMoneyToPaise makes of one.
  lemma BareNumberParses(other: Notation, s: string)
    requires NumberText(s) && Plain(s)
    ensures ParseMoney(other, s) == if RoundHalfUp(PlainValue(s)) > MAX_INT64 then Err(TooLarge) else Ok(RoundHalfUp(PlainValue(s)))
  {
    BareNumber(s);
  }

  // Text that comes down to a bare number parses as it.
  lemma ParsesAs(other: Notation, text: string, s: string)
    requires NumberText(s) && Plain(s) && WithoutCode(Trim(Uncut(Trim(text)))) == s
    ensures ParseMoney(other, text) == ParseMoney(other, s)
  {
    BareNumber(s);
  }

  lemma AmountReads(other: Notation, p: nat)
    requires p <= MAX_INT64
    ensures NumberText(Ungrouped(p)) && Plain(Ungrouped(p)) && ParseMoney(other, Ungrouped(p)) == Ok(p)
  {
    UngroupedReads(p);
    BareNumberParses(other, Ungrouped(p));
  }

  lemma {:induction false} GroupedEnds(s: string, comma: nat -> bool)
    requires AllDigits(s) && s != ""
    ensures var text := Grouped(s, 0, comma); text != "" && text[0] == s[0] && text[|text| - 1] == s[|s| - 1]
  {
    if |s| > 1 {
      GroupedEnds(s[1..], comma);
    }
  }

  lemma UncutNumber(p: nat, comma: nat -> bool)
    ensures Uncut(Grouped(Digits(p / 100), 0, comma) + PaisePart(p % 100)) == Ungrouped(p)
  {
    ReadsBack(p / 100);
    TwoDigitsRead(p % 100);
    UncutSplits(Grouped(Digits(p / 100), 0, comma), PaisePart(p % 100));
    UncutUngroups(Digits(p / 100), 0, comma);
    UncutKeeps(PaisePart(p % 100));
  }

  lemma INRComesDown(p: nat)
    ensures Uncut(Trim(FormatINR(p))) == Ungrouped(p)
  {
    var number := Grouped(Digits(p / 100), 0, IndianComma) + PaisePart(p % 100);
    var text := FormatINR(p);
    assert text == ['₹'] + number;
    EndsInADigit(p, IndianComma);
    TrimOfTrimmed(text);
    UncutSplits(['₹'], number);
    UncutNumber(p, IndianComma);
    assert Uncut(['₹'][1..]) == "";
  }

  lemma EndsInADigit(p: nat, comma: nat -> bool)
    ensures var number := Grouped(Digits(p / 100), 0, comma) + PaisePart(p % 100);
      number != "" && IsDigit(number[0]) && IsDigit(number[|number| - 1])
  {
    ReadsBack(p / 100);
    GroupedEnds(Digits(p / 100), comma);
  }

  // parseMoneyToPaise undoes formatINR, for every amount that is an int64.
  lemma ReadsBackINR(other: Notation, p: int)
    requires 0 <= p <= MAX_INT64
    ensures ParseMoney(other, FormatINR(p)) == Ok(p)
  {
    INRComesDown(p);
    AmountReads(other, p);
    BareNumber(Ungrouped(p));
    ParsesAs(other, FormatINR(p), Ungrouped(p));
  }

  // And formatForeign, under any three-letter currency code.
  lemma ReadsBackForeign(other: Notation, p: int, code: string)
    requires 0 <= p <= MAX_INT64 && |code| == 3 && forall i | 0 <= i < 3 :: 'A' <= code[i] <= 'Z' || 'a' <= code[i] <= 'z'
    ensures ParseMoney(other, FormatForeign(p, code)) == Ok(p)
  {
    ForeignComesDown(p, code);
    AmountReads(other, p);
    CodeComesOff(code, Ungrouped(p));
    ParsesAs(other, FormatForeign(p, code), Ungrouped(p));
  }

  lemma ForeignComesDown(p: nat, code: string)
    requires |code| == 3 && IsAlpha(code)
    ensures Uncut(Trim(FormatForeign(p, code))) == code + " " + Ungrouped(p)
  {
    var number := Grouped(Digits(p / 100), 0, WesternComma) + PaisePart(p % 100);
    var text := FormatForeign(p, code);
    assert text == (code + " ") + number;
    EndsInADigit(p, WesternComma);
    TrimOfTrimmed(text);
    UncutSplits(code + " ", number);
    UncutKeeps(code + " ");
    UncutNumber(p, WesternComma);
  }

  lemma CodeComesOff(code: string, s: string)
    requires |code| == 3 && IsAlpha(code) && NumberText(s)
    ensures WithoutCode(Trim(code + " " + s)) == s
  {
    var text := code + " " + s;
    TrimOfTrimmed(text);
    assert text[..3] == code && text[4..] == s;
    BareNumber(s);
  }

  // Both parsers undo what push sends.
  lemma ReadsBackDecimal(other: Notation, p: int)
    requires 0 <= p <= MAX_INT64
    ensures ParseMoney(other, PaiseToDecimal(p)) == Ok(p)
  {
    TwoDecimalsRead(p);
    ReadsBack(p / 100);
    TwoDigitsRead(p % 100);
    BareNumberParses(other, PaiseToDecimal(p));
  }

  lemma DecimalParts(p: nat)
    ensures var s := PaiseToDecimal(p);
      && Plain(s) && Whole(s) == Digits(p / 100) && Whole(s) != "" && Value(Whole(s)) == p / 100
      && Frac(s) == TwoDigits(p % 100) && Value(Frac(s)) == p % 100
  {
    ReadsBack(p / 100);
    TwoDigitsRead(p % 100);
    PlainParts(Digits(p / 100), TwoDigits(p % 100));
  }

  lemma MirrorReads(s: string, p: nat)
    requires Plain(s) && Whole(s) != "" && |Frac(s)| == 2 && p <= MAX_INT64
    requires Value(Whole(s)) == p / 100 && Value(Frac(s)) == p % 100
    ensures DecimalToPaise(s) == Ok(p)
  {
    CutsAtTheSecond(s);
    assert Frac(s)[..2] == Frac(s);
    WrapsOnlyPast(p);
  }

  lemma ReadsBackFromTheMirror(p: int)
    requires 0 <= p <= MAX_INT64
    ensures DecimalToPaise(PaiseToDecimal(p)) == Ok(p)
  {
    DecimalParts(p);
    MirrorReads(PaiseToDecimal(p), p);
  }

  // Neither parser takes a minus; no text is no amount to the form and nothing to the mirror; and the
  // printers drop the sign, which the direction carries.
  lemma SignsAndBlanks(other: Notation, number: string, blank: string, p: int, code: string)
    requires NumberText(number) && Blank(blank)
    ensures ParseMoney(other, "-" + number) == Err(Negative) && DecimalToPaise("-" + number) == Err(Negative)
    ensures ParseMoney(other, blank) == Err(Empty) && DecimalToPaise(blank) == Ok(0)
    ensures FormatINR(-p) == FormatINR(p) && FormatForeign(-p, code) == FormatForeign(p, code)
    ensures PaiseToDecimal(-p) == PaiseToDecimal(p)
  {
    var text := "-" + number;
    TrimOfTrimmed(text);
    UncutKeeps(text);
    assert Trim("") == "" && Uncut("") == "" && WithoutCode("") == "";
  }

  // What wraps is brought into an int64 by a multiple of two to the 64.
  lemma WrapsAround(v: int)
    ensures -0x8000_0000_0000_0000 <= Wrapped(v) <= 0x7FFF_FFFF_FFFF_FFFF && (v - Wrapped(v)) % 0x1_0000_0000_0000_0000 == 0
  {
  }

  // ---- rounding against cutting -----------------------------------------------------------------------

  // The first two decimals, as hundredths, and whether the third is 5 or more.
  function Cents(frac: string): nat
    requires AllDigits(frac)
  {
    if frac == "" then 0 else if |frac| == 1 then 10 * Value(frac) else Value(frac[..2])
  }

  predicate RoundsUp(frac: string) { |frac| > 2 && frac[2] >= '5' }

  lemma DivideBy(x: nat, d: nat, r: nat)
    requires 0 < d && r < 2 * d
    ensures (x * d + r) / d == if r < d then x else x + 1
  {
    if r < d {
      Quotient(x, d, r);
    } else {
      assert x * d + r == (x + 1) * d + (r - d);
      Quotient(x + 1, d, r - d);
    }
  }

  lemma Quotient(x: nat, d: nat, r: nat)
    requires 0 < d && r < d
    ensures (x * d + r) / d == x
  {
    var n := x * d + r;
    var q, m := n / d, n % d;
    assert n == q * d + m && 0 <= m < d;
    assert (q - x) * d == r - m;
    OnlyZero(q - x, d);
  }

  lemma OnlyZero(k: int, d: int)
    requires 0 < d && -d < k * d < d
    ensures k == 0
  {
    Grows(k, d);
  }

  lemma Grows(k: int, d: int)
    requires 0 < d
    ensures k >= 1 ==> k * d >= d
    ensures k <= -1 ==> k * d <= -d
  {
    if k >= 1 {
      assert (k - 1) * d >= 0;
    } else if k <= -1 {
      assert (-k - 1) * d >= 0;
    }
  }

  lemma ThirdDigit(rest: string)
    requires AllDigits(rest) && rest != ""
    ensures 2 * Value(rest) >= Pow10(|rest|) <==> rest[0] >= '5'
  {
    var head, tail := [rest[0]], rest[1..];
    assert rest == head + tail;
    DigitValue(rest[0]);
    ValueSplits(head, tail);
    NextPower(|tail|);
    AgainstHalf(Value(head), Pow10(|tail|), Value(tail), Value(rest), Pow10(|rest|));
  }

  lemma DigitValue(c: char)
    requires IsDigit(c)
    ensures AllDigits([c]) && Value([c]) == c as int - '0' as int
  {
    PairValue(c, c);
  }

  lemma NextPower(k: nat)
    ensures Pow10(k + 1) == 10 * Pow10(k)
  {
  }

  lemma AgainstHalf(d: nat, p: nat, t: nat, value: nat, power: nat)
    requires t < p && value == d * p + t && power == 10 * p
    ensures 2 * value >= power <==> d >= 5
  {
    if d >= 5 {
      assert (d - 5) * p >= 0;
    } else {
      assert (4 - d) * p >= 0;
    }
  }

  // Rounded to the paisa, a plain decimal is its whole and its first two decimals, and one
  // paisa more exactly when its third decimal is 5 or more.
  lemma RoundsAtTheThird(s: string)
    requires Plain(s)
    ensures RoundHalfUp(PlainValue(s)) == 100 * Value(Whole(s)) + Cents(Frac(s)) + if RoundsUp(Frac(s)) then 1 else 0
  {
    var whole, frac := Whole(s), Frac(s);
    ValueSplits(whole, frac);
    if |frac| <= 2 {
      FewDecimals(Value(whole), frac);
    } else {
      ManyDecimals(Value(whole), frac);
    }
  }

  lemma FewDecimals(w: nat, frac: string)
    requires AllDigits(frac) && |frac| <= 2
    ensures RoundHalfUp(Fraction(w * Pow10(|frac|) + Value(frac), Pow10(|frac|))) == 100 * w + Cents(frac)
  {
    PowersOfTen();
    if |frac| == 2 {
      assert frac[..2] == frac;
    }
  }

  lemma PowersOfTen()
    ensures Pow10(0) == 1 && Pow10(1) == 10 && Pow10(2) == 100
  {
    assert Pow10(1) == 10 * Pow10(0);
    assert Pow10(2) == 10 * Pow10(1);
  }

  lemma ManyDecimals(w: nat, frac: string)
    requires AllDigits(frac) && |frac| > 2
    ensures RoundHalfUp(Fraction(w * Pow10(|frac|) + Value(frac), Pow10(|frac|)))
         == 100 * w + Cents(frac) + if RoundsUp(frac) then 1 else 0
  {
    var two, rest := frac[..2], frac[2..];
    assert frac == two + rest;
    ValueSplits(two, rest);
    ThirdDigit(rest);
    TensAdd(|rest|);
    RoundedQuotient(w, Value(two), Value(rest), Pow10(|rest|));
  }

  lemma TensAdd(k: nat)
    ensures Pow10(k + 2) == 100 * Pow10(k)
  {
    assert Pow10(k + 2) == 10 * Pow10(k + 1);
  }

  lemma RoundedQuotient(w: nat, c: nat, g: nat, e: nat)
    requires 0 < e && g < e
    ensures (200 * (w * (100 * e) + (c * e + g)) + 100 * e) / (2 * (100 * e)) == 100 * w + c + if 2 * g >= e then 1 else 0
  {
    var x, d, r := 100 * w + c, 200 * e, 200 * g + 100 * e;
    Regroup(w, c, g, e);
    DivideBy(x, d, r);
  }

  lemma Regroup(w: nat, c: nat, g: nat, e: nat)
    ensures 200 * (w * (100 * e) + (c * e + g)) + 100 * e == (100 * w + c) * (200 * e) + (200 * g + 100 * e)
  {
    assert w * (100 * e) == 100 * (w * e);
    assert (100 * w + c) * (200 * e) == 200 * ((100 * w + c) * e);
    assert (100 * w + c) * e == 100 * (w * e) + c * e;
  }

  lemma CentsRead(frac: string)
    requires AllDigits(frac) && frac != ""
    ensures Atoi(if |frac| == 1 then frac + "0" else frac[..2]) == Some(Cents(frac)) && Cents(frac) < 100
  {
    if |frac| == 1 {
      PairValue(frac[0], '0');
      assert frac == [frac[0]] && frac + "0" == [frac[0], '0'];
      AtoiOfDigits(frac + "0");
    } else {
      PairValue(frac[0], frac[1]);
      assert frac[..2] == [frac[0], frac[1]];
      AtoiOfDigits(frac[..2]);
    }
  }

  // What both parsers keep of a plain decimal.
  function CutAt2(s: string): nat
    requires Plain(s)
  {
    100 * Value(Whole(s)) + Cents(Frac(s))
  }

  // On every plain decimal, with digits before any point: what the form's parser reads is what
  // the mirror's parser reads, plus one paisa exactly when the third decimal is 5 or more, as
  // long as both are an int64; past that the first refuses, and the second wraps around.
  lemma RoundingAgainstCutting(other: Notation, s: string)
    requires Plain(s) && Whole(s) != ""
    ensures var rounded := CutAt2(s) + if RoundsUp(Frac(s)) then 1 else 0;
      ParseMoney(other, s) == if rounded <= MAX_INT64 then Ok(rounded) else Err(TooLarge)
    ensures DecimalToPaise(s) == if Value(Whole(s)) <= MAX_INT64 then Ok(Wrapped(CutAt2(s))) else Err(BadWhole)
    ensures CutAt2(s) <= MAX_INT64 <==> DecimalToPaise(s) == Ok(CutAt2(s))
  {
    RoundsWhole(other, s);
    CutsAtTheSecond(s);
    WrapsOnlyPast(CutAt2(s));
  }

  lemma RoundsWhole(other: Notation, s: string)
    requires Plain(s)
    ensures var rounded := CutAt2(s) + if RoundsUp(Frac(s)) then 1 else 0;
      ParseMoney(other, s) == if rounded <= MAX_INT64 then Ok(rounded) else Err(TooLarge)
  {
    NumberIsText(s);
    BareNumberParses(other, s);
    RoundsAtTheThird(s);
  }

  lemma CutsAtTheSecond(s: string)
    requires Plain(s) && Whole(s) != ""
    ensures DecimalToPaise(s) == if Value(Whole(s)) <= MAX_INT64 then Ok(Wrapped(CutAt2(s))) else Err(BadWhole)
  {
    NumberIsText(s);
    TrimOfTrimmed(s);
    AtoiOfDigits(Whole(s));
    if Frac(s) != "" {
      CentsRead(Frac(s));
    }
  }

  lemma WrapsOnlyPast(v: nat)
    ensures Wrapped(v) == v <==> v <= MAX_INT64
  {
  }

  lemma NumberIsText(s: string)
    requires Plain(s)
    ensures NumberText(s)
  {
    var k := IndexOf(s, '.');
    forall i | 0 <= i < |s| ensures IsDigit(s[i]) || s[i] == '.' {
      if i < k {
        assert s[i] == Whole(s)[i];
      } else if i > k {
        assert s[i] == Frac(s)[i - k - 1];
      }
    }
  }
}
