// The little of string handling the model rests on: trimming, letter case as SQLite's LOWER
// does it (a to z only), and byte order.
module Text {
  predicate IsSpace(c: char) {
    c == ' ' || '\t' <= c <= '\r' || c == '\U{85}' || c == '\U{A0}' || c == '\U{1680}'
    || '\U{2000}' <= c <= '\U{200A}' || c == '\U{2028}' || c == '\U{2029}' || c == '\U{202F}'
    || c == '\U{205F}' || c == '\U{3000}'
  }

  // The 25 code points Unicode calls white space.
  lemma SpacesAreWhite(c: char)
    ensures IsSpace(c) <==>
      c as int in {0x9, 0xA, 0xB, 0xC, 0xD, 0x20, 0x85, 0xA0, 0x1680, 0x2000, 0x2001, 0x2002, 0x2003, 0x2004, 0x2005, 0x2006,
                   0x2007, 0x2008, 0x2009, 0x200A, 0x2028, 0x2029, 0x202F, 0x205F, 0x3000}
  {
  }

  function TrimLeft(s: string): string {
    if s != "" && IsSpace(s[0]) then TrimLeft(s[1..]) else s
  }

  function TrimRight(s: string): string {
    if s != "" && IsSpace(s[|s| - 1]) then TrimRight(s[..|s| - 1]) else s
  }

  function Trim(s: string): string {
    TrimRight(TrimLeft(s))
  }

  predicate Blank(s: string) { Trim(s) == "" }

  function LowerChar(c: char): char {
    if 'A' <= c <= 'Z' then (c as int + 32) as char else c
  }

  function Lower(s: string): (r: string)
    ensures |r| == |s|
  {
    seq(|s|, i requires 0 <= i < |s| => LowerChar(s[i]))
  }

  predicate IsCapital(c: char) { 'A' <= c <= 'Z' }

  lemma {:induction false} LowerKeeps(s: string)
    requires forall c | c in s :: !IsCapital(c)
    ensures Lower(s) == s
  {
    if s != "" {
      LowerKeeps(s[1..]);
      assert s[0] in s && Lower(s)[1..] == Lower(s[1..]);
      assert s == [s[0]] + s[1..] && Lower(s) == [Lower(s)[0]] + Lower(s)[1..];
    }
  }

  predicate SameLetters(a: string, b: string) { Lower(a) == Lower(b) }

  lemma {:induction false} TrimLeftTrimmed(s: string)
    ensures TrimLeft(s) == "" || !IsSpace(TrimLeft(s)[0])
    decreases |s|
  {
    if s != "" && IsSpace(s[0]) {
      TrimLeftTrimmed(s[1..]);
    }
  }

  lemma {:induction false} TrimRightTrimmed(s: string)
    ensures TrimRight(s) <= s
    ensures TrimRight(s) == "" || !IsSpace(TrimRight(s)[|TrimRight(s)| - 1])
    decreases |s|
  {
    if s != "" && IsSpace(s[|s| - 1]) {
      TrimRightTrimmed(s[..|s| - 1]);
    }
  }

  // What is left of a text lies in one piece between white space, and neither begins nor ends with it.
  lemma TrimIsTheMiddle(s: string) returns (i: nat, j: nat)
    ensures i <= j <= |s| && Trim(s) == s[i..j]
    ensures forall k | 0 <= k < |s| && !(i <= k < j) :: IsSpace(s[k])
    ensures i < j ==> !IsSpace(s[i]) && !IsSpace(s[j - 1])
  {
    i := LeftOf(s);
    var n := RightOf(s[i..]);
    j := i + n;
    forall k | j <= k < |s| ensures IsSpace(s[k]) {
      assert s[i..][k - i] == s[k];
    }
    if i < j {
      assert s[i..][n - 1] == s[j - 1];
    }
  }

  lemma {:induction false} LeftOf(s: string) returns (i: nat)
    ensures i <= |s| && TrimLeft(s) == s[i..]
    ensures forall k | 0 <= k < i :: IsSpace(s[k])
    ensures i < |s| ==> !IsSpace(s[i])
    decreases |s|
  {
    i := 0;
    if s != "" && IsSpace(s[0]) {
      var rest := LeftOf(s[1..]);
      i := rest + 1;
      forall k | 0 < k < i ensures IsSpace(s[k]) {
        assert s[1..][k - 1] == s[k];
      }
    }
  }

  lemma {:induction false} RightOf(s: string) returns (n: nat)
    ensures n <= |s| && TrimRight(s) == s[..n]
    ensures forall k | n <= k < |s| :: IsSpace(s[k])
    ensures n > 0 ==> !IsSpace(s[n - 1])
    decreases |s|
  {
    n := |s|;
    if s != "" && IsSpace(s[|s| - 1]) {
      n := RightOf(s[..|s| - 1]);
      assert s[..|s| - 1][..n] == s[..n];
      forall k | n <= k < |s| ensures IsSpace(s[k]) {
        assert k < |s| - 1 ==> s[..|s| - 1][k] == s[k];
      }
    }
  }

  lemma TrimTwice(s: string)
    ensures Trim(Trim(s)) == Trim(s)
  {
    TrimLeftTrimmed(s);
    TrimRightTrimmed(TrimLeft(s));
    assert TrimLeft(Trim(s)) == Trim(s);
  }

  lemma {:induction false} TrimLeftKeepsCase(a: string, b: string)
    requires SameLetters(a, b)
    ensures SameLetters(TrimLeft(a), TrimLeft(b))
    decreases |a|
  {
    if a != "" {
      assert LowerChar(a[0]) == Lower(a)[0] == Lower(b)[0] == LowerChar(b[0]);
      assert IsSpace(a[0]) <==> IsSpace(b[0]);
      if IsSpace(a[0]) {
        assert Lower(a[1..]) == Lower(a)[1..] && Lower(b[1..]) == Lower(b)[1..];
        TrimLeftKeepsCase(a[1..], b[1..]);
      }
    }
  }

  lemma {:induction false} TrimRightKeepsCase(a: string, b: string)
    requires SameLetters(a, b)
    ensures SameLetters(TrimRight(a), TrimRight(b))
    decreases |a|
  {
    assert |a| == |Lower(a)| == |Lower(b)| == |b|;
    if a != "" {
      var n := |a| - 1;
      assert LowerChar(a[n]) == Lower(a)[n] == Lower(b)[n] == LowerChar(b[n]);
      assert IsSpace(a[n]) <==> IsSpace(b[n]);
      if IsSpace(a[n]) {
        assert Lower(a[..n]) == Lower(a)[..n] && Lower(b[..n]) == Lower(b)[..n];
        TrimRightKeepsCase(a[..n], b[..n]);
      }
    }
  }

  // Names alike but for case are alike, but for case, once trimmed.
  lemma TrimKeepsCase(a: string, b: string)
    requires SameLetters(a, b)
    ensures SameLetters(Trim(a), Trim(b))
  {
    TrimLeftKeepsCase(a, b);
    TrimRightKeepsCase(TrimLeft(a), TrimLeft(b));
  }

  function UpperChar(c: char): char {
    if 'a' <= c <= 'z' then (c as int - 32) as char else c
  }

  function Upper(s: string): string {
    seq(|s|, i requires 0 <= i < |s| => UpperChar(s[i]))
  }

  // Only letters have a case, the two undo each other, and 'a' is small 'A'.
  lemma CasesAreOpposite(c: char)
    ensures LowerChar(c) != c <==> 'A' <= c <= 'Z'
    ensures UpperChar(c) != c <==> 'a' <= c <= 'z'
    ensures 'A' <= c <= 'Z' ==> UpperChar(LowerChar(c)) == c && 'a' <= LowerChar(c) <= 'z'
    ensures 'a' <= c <= 'z' ==> LowerChar(UpperChar(c)) == c && 'A' <= UpperChar(c) <= 'Z'
    ensures LowerChar('A') == 'a' && LowerChar('Z') == 'z'
  {
  }

  // Text in byte order, as Go's < and SQLite's ORDER BY compare it.
  predicate Less(a: string, b: string) {
    b != "" && (a == "" || a[0] < b[0] || (a[0] == b[0] && Less(a[1..], b[1..])))
  }

  lemma {:induction false} LessIsAnOrder(a: string, b: string)
    ensures !(Less(a, b) && Less(b, a)) && !Less(a, a)
    ensures a == b || Less(a, b) || Less(b, a)
    decreases |a|
  {
    if a != "" {
      LessIsAnOrder(a[1..], a[1..]);
      if b != "" && a[0] == b[0] {
        LessIsAnOrder(a[1..], b[1..]);
        assert a == [a[0]] + a[1..] && b == [b[0]] + b[1..];
      }
    }
  }

  lemma {:induction false} LessChains(a: string, b: string, c: string)
    requires Less(a, b) && Less(b, c)
    ensures Less(a, c)
    decreases |a|
  {
    if a != "" && a[0] == b[0] == c[0] {
      LessChains(a[1..], b[1..], c[1..]);
    }
  }

  // The first place of a character; the length for none.
  function IndexOf(s: string, c: char): (k: nat)
    ensures k <= |s| && c !in s[..k] && (k < |s| ==> s[k] == c)
  {
    if s == "" || s[0] == c then 0
    else
      var k := 1 + IndexOf(s[1..], c);
      assert s[..k] == [s[0]] + s[1..][..k - 1];
      k
  }

  lemma {:induction false} IndexAfter(a: string, c: char, b: string)
    requires c !in a
    ensures IndexOf(a + [c] + b, c) == |a| && IndexOf(a, c) == |a|
  {
    if a != "" {
      assert (a + [c] + b)[1..] == a[1..] + [c] + b;
      IndexAfter(a[1..], c, b);
    } else {
      assert (a + [c] + b)[0] == c;
    }
  }

  lemma TrimOfTrimmed(s: string)
    requires s != "" && !IsSpace(s[0]) && !IsSpace(s[|s| - 1])
    ensures Trim(s) == s
  {
  }

  predicate Contains(s: string, part: string) {
    part <= s || (s != "" && Contains(s[1..], part))
  }
}
