// The picker's spelling tolerance (classifier/places.go): the two-row edit distance, and
// whether a typed word starts one of a name's words, give or take a slip. nameWords keeps
// only a-z and 0-9, so a letter is one byte and one rune.
module EditDistance {
  import opened Wrappers

  type Word = seq<char>

  function Min(x: nat, y: nat): nat { if x <= y then x else y }

  function Cost(x: char, y: char): nat { if x == y then 0 else 1 }

  // The distance of two words by their last letters.
  function Distance(a: Word, b: Word): nat
    decreases |a| + |b|
  {
    if a == [] then |b|
    else if b == [] then |a|
    else
      var a', b' := a[..|a| - 1], b[..|b| - 1];
      Min(Min(Distance(a', b) + 1, Distance(a, b') + 1),
          Distance(a', b') + Cost(a[|a| - 1], b[|b| - 1]))
  }

  // ---- the in-place table ---------------------------------------------------------------

  // The first `upto` cells of row i of the table.
  ghost predicate IsRow(row: seq<nat>, a: Word, i: nat, b: Word, upto: nat)
    requires i <= |a| && upto <= |row| <= |b| + 1
  {
    forall k | 0 <= k < upto :: row[k] == Distance(a[..i], b[..k])
  }

  // A word's distance from one, by the three distances around it.
  lemma ByLastLetters(a: Word, b: Word, x: char, y: char, up: nat, left: nat, corner: nat)
    requires up == Distance(a, b + [y]) && left == Distance(a + [x], b) && corner == Distance(a, b)
    ensures Distance(a + [x], b + [y]) == Min(Min(up + 1, left + 1), corner + Cost(x, y))
  {
    assert (a + [x])[..|a|] == a && (b + [y])[..|b|] == b;
  }

  lemma FirstRow(row: seq<nat>, a: Word, b: Word)
    requires |row| == |b| + 1 && forall k | 0 <= k <= |b| :: row[k] == k
    ensures IsRow(row, a, 0, b, |b| + 1)
  {
  }

  lemma RowGrows(above: seq<nat>, row: seq<nat>, a: Word, i: nat, b: Word, j: nat, cell: nat)
    requires 0 < i <= |a| && 0 < j <= |b| && |above| == |row| == |b| + 1
    requires IsRow(above, a, i - 1, b, |b| + 1) && IsRow(row, a, i, b, j)
    requires cell == Min(Min(above[j] + 1, row[j - 1] + 1), above[j - 1] + Cost(a[i - 1], b[j - 1]))
    ensures IsRow(row[j := cell], a, i, b, j + 1)
  {
    NewCell(above, row, a, i, b, j, cell);
  }

  lemma NewCell(above: seq<nat>, row: seq<nat>, a: Word, i: nat, b: Word, j: nat, cell: nat)
    requires 0 < i <= |a| && 0 < j <= |b| && |above| == |row| == |b| + 1
    requires IsRow(above, a, i - 1, b, |b| + 1) && IsRow(row, a, i, b, j)
    requires cell == Min(Min(above[j] + 1, row[j - 1] + 1), above[j - 1] + Cost(a[i - 1], b[j - 1]))
    ensures cell == Distance(a[..i], b[..j])
  {
    At(above, a, i - 1, b, |b| + 1, j);
    At(above, a, i - 1, b, |b| + 1, j - 1);
    At(row, a, i, b, j, j - 1);
    CellFrom(a, i, b, j, above[j], row[j - 1], above[j - 1]);
  }

  lemma CellFrom(a: Word, i: nat, b: Word, j: nat, up: nat, left: nat, corner: nat)
    requires 0 < i <= |a| && 0 < j <= |b|
    requires up == Distance(a[..i - 1], b[..j]) && left == Distance(a[..i], b[..j - 1]) && corner == Distance(a[..i - 1], b[..j - 1])
    ensures Min(Min(up + 1, left + 1), corner + Cost(a[i - 1], b[j - 1])) == Distance(a[..i], b[..j])
  {
    TakeOneMore(a, i);
    TakeOneMore(b, j);
    ByLastLetters(a[..i - 1], b[..j - 1], a[i - 1], b[j - 1], up, left, corner);
  }

  lemma TakeOneMore(w: Word, n: nat)
    requires 0 < n <= |w|
    ensures w[..n] == w[..n - 1] + [w[n - 1]]
  {
  }

  lemma At(row: seq<nat>, a: Word, i: nat, b: Word, upto: nat, k: nat)
    requires i <= |a| && k < upto <= |row| <= |b| + 1 && IsRow(row, a, i, b, upto)
    ensures row[k] == Distance(a[..i], b[..k])
  {
  }

  // prev holds one row of the table, cur the next; they swap after each letter of a.
  method TwoRowDistance(a: Word, b: Word) returns (d: nat)
    ensures d == Distance(a, b)
  {
    var prev := new nat[|b| + 1];
    var cur := new nat[|b| + 1];
    for j := 0 to prev.Length
      invariant forall k | 0 <= k < j :: prev[k] == k
    {
      prev[j] := j;
    }
    FirstRow(prev[..], a, b);
    for i := 1 to |a| + 1
      invariant prev != cur && prev.Length == cur.Length == |b| + 1
      invariant fresh(prev) && fresh(cur)
      invariant IsRow(prev[..], a, i - 1, b, |b| + 1)
    {
      cur[0] := i;
      assert IsRow(cur[..], a, i, b, 1);
      ghost var above := prev[..];
      for j := 1 to |b| + 1
        invariant prev[..] == above
        invariant IsRow(cur[..], a, i, b, j)
      {
        var cost := if a[i - 1] == b[j - 1] then 0 else 1;
        ghost var row := cur[..];
        cur[j] := Min(Min(prev[j] + 1, cur[j - 1] + 1), prev[j - 1] + cost);
        RowGrows(above, row, a, i, b, j, cur[j]);
        assert cur[..] == row[j := cur[j]];
      }
      prev, cur := cur, prev;
    }
    assert a[..|a|] == a && b[..|b|] == b;
    d := prev[|b|];
    assert d == prev[..][|b|] == Distance(a[..|a|], b[..|b|]);
  }

  // ---- a metric ---------------------------------------------------------------------------

  lemma {:induction false} LengthsApart(a: Word, b: Word)
    ensures |a| <= |b| + Distance(a, b) && |b| <= |a| + Distance(a, b)
    decreases |a| + |b|
  {
    if a != [] && b != [] {
      LengthsApart(a[..|a| - 1], b);
      LengthsApart(a, b[..|b| - 1]);
      LengthsApart(a[..|a| - 1], b[..|b| - 1]);
    }
  }

  lemma {:induction false} ZeroMeansEqual(a: Word, b: Word)
    ensures Distance(a, b) == 0 <==> a == b
    decreases |a| + |b|
  {
    if a != [] && b != [] {
      ZeroMeansEqual(a[..|a| - 1], b[..|b| - 1]);
      assert a == a[..|a| - 1] + [a[|a| - 1]] && b == b[..|b| - 1] + [b[|b| - 1]];
    }
  }

  lemma {:induction false} Symmetric(a: Word, b: Word)
    ensures Distance(a, b) == Distance(b, a)
    decreases |a| + |b|
  {
    if a != [] && b != [] {
      Symmetric(a[..|a| - 1], b);
      Symmetric(a, b[..|b| - 1]);
      Symmetric(a[..|a| - 1], b[..|b| - 1]);
    }
  }

  lemma {:induction false} AtMostBoth(a: Word, b: Word)
    ensures Distance(a, b) <= |a| + |b|
    decreases |a| + |b|
  {
    if a != [] && b != [] {
      AtMostBoth(a[..|a| - 1], b);
    }
  }

  lemma {:induction false} Triangle(a: Word, c: Word, b: Word)
    ensures Distance(a, b) <= Distance(a, c) + Distance(c, b)
    decreases |a| + |c| + |b|
  {
    if a == [] {
      LengthsApart(c, b);
    } else if b == [] {
      LengthsApart(a, c);
    } else if c == [] {
      AtMostBoth(a, b);
    } else {
      var a', b', c' := a[..|a| - 1], b[..|b| - 1], c[..|c| - 1];
      Triangle(a', c, b);
      Triangle(a, c, b');
      Triangle(a, c', b);
      Triangle(a, c', b');
      Triangle(a', c', b);
      Triangle(a', c', b');
    }
  }

  // ---- the least number of edits -------------------------------------------------------------

  datatype Edit = Insert(at: nat, c: char) | Delete(at: nat) | Replace(at: nat, c: char)

  predicate Fits(e: Edit, s: Word) {
    match e
    case Insert(at, _) => at <= |s|
    case Delete(at) => at < |s|
    case Replace(at, _) => at < |s|
  }

  function Edited(e: Edit, s: Word): Word
    requires Fits(e, s)
  {
    match e
    case Insert(at, c) => s[..at] + [c] + s[at..]
    case Delete(at) => s[..at] + s[at + 1..]
    case Replace(at, c) => s[..at] + [c] + s[at + 1..]
  }

  // The word a script of edits ends at, in the order they are made; None if one cannot be made.
  function Rewrite(script: seq<Edit>, s: Word): Option<Word>
    decreases |script|
  {
    if script == [] then Some(s)
    else if Fits(script[0], s) then Rewrite(script[1..], Edited(script[0], s))
    else None
  }

  lemma {:induction false} RewriteInTurn(first: seq<Edit>, second: seq<Edit>, s: Word)
    requires Rewrite(first, s).Some?
    ensures Rewrite(first + second, s) == Rewrite(second, Rewrite(first, s).value)
    decreases |first|
  {
    if first == [] {
      assert first + second == second;
    } else {
      assert (first + second)[1..] == first[1..] + second;
      RewriteInTurn(first[1..], second, Edited(first[0], s));
    }
  }

  lemma EditKeepsTail(e: Edit, s: Word, tail: Word)
    requires Fits(e, s)
    ensures Edited(e, s + tail) == Edited(e, s) + tail
  {
    var at := e.at;
    assert (s + tail)[..at] == s[..at] && (s + tail)[at..] == s[at..] + tail;
    if at < |s| {
      assert (s + tail)[at + 1..] == s[at + 1..] + tail;
    }
  }

  // A script leaves alone what follows the word it was made for.
  lemma {:induction false} RewriteKeepsTail(script: seq<Edit>, s: Word, tail: Word)
    requires Rewrite(script, s).Some?
    ensures Rewrite(script, s + tail) == Some(Rewrite(script, s).value + tail)
    decreases |script|
  {
    if script != [] {
      EditKeepsTail(script[0], s, tail);
      RewriteKeepsTail(script[1..], Edited(script[0], s), tail);
    }
  }

  // A script as short as the distance.
  function Shortest(a: Word, b: Word): (script: seq<Edit>)
    ensures |script| == Distance(a, b)
    decreases |a| + |b|
  {
    if a == [] && b == [] then []
    else if b == [] then [Delete(|a| - 1)] + Shortest(a[..|a| - 1], b)
    else if a == [] then Shortest(a, b[..|b| - 1]) + [Insert(|b| - 1, b[|b| - 1])]
    else
      var a', b', x, y := a[..|a| - 1], b[..|b| - 1], a[|a| - 1], b[|b| - 1];
      if Distance(a, b) == Distance(a', b) + 1 then [Delete(|a| - 1)] + Shortest(a', b)
      else if Distance(a, b) == Distance(a, b') + 1 then Shortest(a, b') + [Insert(|b| - 1, y)]
      else Shortest(a', b') + if x == y then [] else [Replace(|b| - 1, y)]
  }

  lemma RewriteOne(e: Edit, s: Word)
    requires Fits(e, s)
    ensures Rewrite([e], s) == Some(Edited(e, s))
  {
    assert Rewrite([e][1..], Edited(e, s)) == Some(Edited(e, s));
  }

  lemma DeleteFirst(a: Word, b: Word, rest: seq<Edit>)
    requires a != [] && Rewrite(rest, a[..|a| - 1]) == Some(b)
    ensures Rewrite([Delete(|a| - 1)] + rest, a) == Some(b)
  {
    var e := Delete(|a| - 1);
    assert Edited(e, a) == a[..|a| - 1];
    RewriteOne(e, a);
    RewriteInTurn([e], rest, a);
  }

  lemma InsertLast(a: Word, b: Word, rest: seq<Edit>)
    requires b != [] && Rewrite(rest, a) == Some(b[..|b| - 1])
    ensures Rewrite(rest + [Insert(|b| - 1, b[|b| - 1])], a) == Some(b)
  {
    var e := Insert(|b| - 1, b[|b| - 1]);
    assert Edited(e, b[..|b| - 1]) == b;
    RewriteOne(e, b[..|b| - 1]);
    RewriteInTurn(rest, [e], a);
  }

  lemma ReplacedLast(head: Word, x: char, y: char)
    ensures Edited(Replace(|head|, y), head + [x]) == head + [y]
  {
  }

  lemma WholeWord(s: Word)
    requires s != []
    ensures s[..|s| - 1] + [s[|s| - 1]] == s
  {
  }

  lemma KeepLast(a: Word, b: Word, rest: seq<Edit>)
    requires a != [] && b != [] && Rewrite(rest, a[..|a| - 1]) == Some(b[..|b| - 1])
    ensures Rewrite(rest, a) == Some(b[..|b| - 1] + [a[|a| - 1]])
  {
    WholeWord(a);
    RewriteKeepsTail(rest, a[..|a| - 1], [a[|a| - 1]]);
  }

  lemma KeepSame(a: Word, b: Word, rest: seq<Edit>)
    requires a != [] && b != [] && Rewrite(rest, a[..|a| - 1]) == Some(b[..|b| - 1]) && a[|a| - 1] == b[|b| - 1]
    ensures Rewrite(rest, a) == Some(b)
  {
    WholeWord(b);
    KeepLast(a, b, rest);
  }

  lemma ReplaceLast(a: Word, b: Word, rest: seq<Edit>)
    requires a != [] && b != [] && Rewrite(rest, a[..|a| - 1]) == Some(b[..|b| - 1])
    ensures Rewrite(rest + [Replace(|b| - 1, b[|b| - 1])], a) == Some(b)
  {
    var kept := b[..|b| - 1] + [a[|a| - 1]];
    var e := Replace(|b| - 1, b[|b| - 1]);
    KeepLast(a, b, rest);
    ReplacedLast(b[..|b| - 1], a[|a| - 1], b[|b| - 1]);
    WholeWord(b);
    RewriteOne(e, kept);
    RewriteInTurn(rest, [e], a);
  }

  // How the script ends, or begins, by what became of the last letters.
  lemma ShortestSplits(a: Word, b: Word, deletes: bool, inserts: bool)
    requires a != [] || b != []
    requires deletes <==> a != [] && (b == [] || Distance(a, b) == Distance(a[..|a| - 1], b) + 1)
    requires inserts <==> !deletes && (a == [] || Distance(a, b) == Distance(a, b[..|b| - 1]) + 1)
    ensures Shortest(a, b) ==
      if deletes then [Delete(|a| - 1)] + Shortest(a[..|a| - 1], b)
      else if inserts then Shortest(a, b[..|b| - 1]) + [Insert(|b| - 1, b[|b| - 1])]
      else if a[|a| - 1] == b[|b| - 1] then Shortest(a[..|a| - 1], b[..|b| - 1])
      else Shortest(a[..|a| - 1], b[..|b| - 1]) + [Replace(|b| - 1, b[|b| - 1])]
  {
  }

  lemma {:induction false} ShortestRewrites(a: Word, b: Word)
    ensures Rewrite(Shortest(a, b), a) == Some(b)
    decreases |a| + |b|
  {
    if a != [] || b != [] {
      var deletes := a != [] && (b == [] || Distance(a, b) == Distance(a[..|a| - 1], b) + 1);
      var inserts := !deletes && (a == [] || Distance(a, b) == Distance(a, b[..|b| - 1]) + 1);
      ShortestSplits(a, b, deletes, inserts);
      if deletes {
        ShortestRewrites(a[..|a| - 1], b);
        DeleteFirst(a, b, Shortest(a[..|a| - 1], b));
      } else if inserts {
        ShortestRewrites(a, b[..|b| - 1]);
        InsertLast(a, b, Shortest(a, b[..|b| - 1]));
      } else if a[|a| - 1] == b[|b| - 1] {
        ShortestRewrites(a[..|a| - 1], b[..|b| - 1]);
        KeepSame(a, b, Shortest(a[..|a| - 1], b[..|b| - 1]));
      } else {
        ShortestRewrites(a[..|a| - 1], b[..|b| - 1]);
        ReplaceLast(a, b, Shortest(a[..|a| - 1], b[..|b| - 1]));
      }
    }
  }

  lemma {:induction false} SameTail(a: Word, b: Word, tail: Word)
    ensures Distance(a + tail, b + tail) <= Distance(a, b)
    decreases |tail|
  {
    if tail == [] {
      assert a + tail == a && b + tail == b;
    } else {
      var tail' := tail[..|tail| - 1];
      SameTail(a, b, tail');
      assert (a + tail)[..|a + tail| - 1] == a + tail' && (b + tail)[..|b + tail| - 1] == b + tail';
    }
  }

  lemma OneLetterMore(head: Word, x: char, y: char)
    ensures Distance(head, head + [x]) <= 1 && Distance(head + [x], head) <= 1
    ensures Distance(head + [x], head + [y]) <= 1
  {
    ZeroMeansEqual(head, head);
    assert (head + [x])[..|head|] == head && (head + [y])[..|head|] == head;
  }

  lemma OneEditIsNear(e: Edit, s: Word)
    requires Fits(e, s)
    ensures Distance(s, Edited(e, s)) <= 1
  {
    var at := e.at;
    var head := s[..at];
    if e.Insert? {
      OneLetterMore(head, e.c, e.c);
      SameTail(head, head + [e.c], s[at..]);
      assert head + s[at..] == s;
    } else {
      var x := s[at];
      assert head + [x] + s[at + 1..] == s;
      if e.Delete? {
        OneLetterMore(head, x, x);
        SameTail(head + [x], head, s[at + 1..]);
      } else {
        OneLetterMore(head, x, e.c);
        SameTail(head + [x], head + [e.c], s[at + 1..]);
      }
    }
  }

  lemma {:induction false} ScriptsAreNoShorter(script: seq<Edit>, a: Word, b: Word)
    requires Rewrite(script, a) == Some(b)
    ensures Distance(a, b) <= |script|
    decreases |script|
  {
    if script == [] {
      ZeroMeansEqual(a, a);
    } else {
      var next := Edited(script[0], a);
      OneEditIsNear(script[0], a);
      ScriptsAreNoShorter(script[1..], next, b);
      Triangle(a, next, b);
    }
  }

  // The distance is the least number of single-letter edits, in any order and at any
  // places, that turn one word into the other.
  lemma DistanceIsLeast(a: Word, b: Word)
    ensures exists script :: Rewrite(script, a) == Some(b) && |script| == Distance(a, b)
    ensures forall script :: Rewrite(script, a) == Some(b) ==> Distance(a, b) <= |script|
  {
    ShortestRewrites(a, b);
    assert Rewrite(Shortest(a, b), a) == Some(b);
    forall script | Rewrite(script, a) == Some(b) ensures Distance(a, b) <= |script| {
      ScriptsAreNoShorter(script, a, b);
    }
  }

  // ---- the start of a word, give or take a slip ----------------------------------------------

  function Slips(t: Word): nat {
    if |t| >= 7 then 2 else if |t| >= 4 then 1 else 0
  }

  // What the picker promises: some start of some word is within the slips t is allowed.
  ghost predicate SomeNear(t: Word, words: seq<Word>) {
    exists i, n | 0 <= i < |words| && 0 <= n <= |words[i]| :: Distance(t, words[i][..n]) <= Slips(t)
  }

  // A start at most one letter shorter than what was typed.
  ghost predicate NearEnough(t: Word, w: Word) {
    exists n | 0 <= n <= |w| && |t| - 1 <= n :: Distance(t, w[..n]) <= Slips(t)
  }

  // Up to three letters must be how the word starts; from four on one slip is allowed, from seven on two.
  lemma NearEnoughMeans(t: Word, w: Word)
    ensures NearEnough(t, w) <==>
      if |t| < 4 then t <= w
      else exists n | 0 <= n <= |w| && |t| - 1 <= n :: Distance(t, w[..n]) <= if |t| < 7 then 1 else 2
  {
    if |t| < 4 {
      forall n | 0 <= n <= |w| ensures Distance(t, w[..n]) <= 0 <==> t == w[..n] {
        ZeroMeansEqual(t, w[..n]);
      }
      assert t <= w ==> w[..|t|] == t;
    }
  }

  method StartsSome(t: Word, words: seq<Word>) returns (r: bool)
    ensures r <==> exists i | 0 <= i < |words| :: NearEnough(t, words[i])
  {
    var slips := 0;
    if |t| >= 7 {
      slips := 2;
    } else if |t| >= 4 {
      slips := 1;
    }
    for i := 0 to |words|
      invariant forall k | 0 <= k < i :: !NearEnough(t, words[k])
    {
      var w := words[i];
      if t <= w {
        ZeroMeansEqual(t, w[..|t|]);
        assert NearEnough(t, w);
        return true;
      }
      if slips != 0 {
        for n := |t| - 1 to |t| + 3
          invariant forall m | |t| - 1 <= m < n && m <= |w| :: Distance(t, w[..m]) > slips
        {
          if n > 0 && n <= |w| {
            var d := TwoRowDistance(t, w[..n]);
            if d <= slips {
              assert NearEnough(t, w);
              return true;
            }
          }
        }
      }
      assert !NearEnough(t, w) by {
        forall n | 0 <= n <= |w| && |t| - 1 <= n ensures Distance(t, w[..n]) > Slips(t) {
          LengthsApart(t, w[..n]);
          ZeroMeansEqual(t, w[..n]);
        }
      }
    }
    return false;
  }

  // The window of start lengths tried is exhaustive exactly for what is typed in up to six
  // letters: then a word is accepted if and only if some start of it is near.
  lemma WindowIsExhaustiveUpToSix(t: Word)
    ensures (forall words :: SomeNear(t, words) <==> exists i | 0 <= i < |words| :: NearEnough(t, words[i]))
       <==> |t| <= 6
  {
    if |t| <= 6 {
      forall words ensures SomeNear(t, words) <==> exists i | 0 <= i < |words| :: NearEnough(t, words[i]) {
        if SomeNear(t, words) {
          var i, n :| 0 <= i < |words| && 0 <= n <= |words[i]| && Distance(t, words[i][..n]) <= Slips(t);
          LengthsApart(t, words[i][..n]);
          ZeroMeansEqual(t, words[i][..n]);
          assert NearEnough(t, words[i]);
        }
      }
    } else {
      // typed in full, two letters ago: near, and never tried
      var w := t[..|t| - 2];
      var words := [w];
      DropLast(t);
      DropLast(t[..|t| - 1]);
      Triangle(t, t[..|t| - 1], w);
      assert t[..|t| - 1][..|t| - 2] == w && words[0][..|w|] == w;
      assert SomeNear(t, words);
      assert forall i | 0 <= i < |words| :: !NearEnough(t, words[i]);
    }
  }

  lemma DropLast(t: Word)
    requires t != []
    ensures Distance(t, t[..|t| - 1]) <= 1
  {
    OneEditIsNear(Delete(|t| - 1), t);
    assert Edited(Delete(|t| - 1), t) == t[..|t| - 1];
  }
}
