// What a review card says can be sent (ui/review.go, ui/money.go), against what push checks
// before it sends (push.go): the two must never disagree.
module ReviewCard {
  import opened Wrappers
  import opened Text
  import opened TxnType

  // ---- a side as the card's query reads it -------------------------------------------------

  // effectiveAccountIDSQL: a confirmed name, even a blank one, hides the proposed id.
  function EffectiveId(s: StoredSide): Option<int> {
    if s.confId.Some? then s.confId
    else if s.confName != "" then None
    else s.propId
  }

  function EffectiveName(s: StoredSide): string {
    if s.confName != "" then s.confName else s.propName
  }

  // cardSide: the id when there is one, else the name.
  function CardSide(s: StoredSide): Side {
    match EffectiveId(s)
    case Some(id) => Side(id, "")
    case None => Side(0, EffectiveName(s))
  }

  predicate SameSide(a: Side, b: Side) { a.id == b.id && Trim(a.name) == Trim(b.name) }

  // A name confirmed as nothing but space, over a proposal that names somebody.
  predicate HiddenByBlank(s: StoredSide) {
    s.confId.None? && s.confName != "" && Blank(s.confName)
    && !(if s.propId.Some? then s.propId.value == 0 else Blank(s.propName))
  }

  // The card and push read a stored side alike exactly when no blank confirmed name hides a
  // proposal: the card's query takes the blank name, push skips it.
  lemma SidesAgreeUnlessHidden(s: StoredSide)
    ensures SameSide(CardSide(s), PushSide(s)) <==> !HiddenByBlank(s)
  {
    TrimTwice(s.confName);
    TrimTwice(s.propName);
  }

  lemma PaddingChangesNothing(m: Mirror, a: Side, b: Side)
    requires SameSide(a, b)
    ensures SideAsset(m, a) == SideAsset(m, b) && (a.Empty() <==> b.Empty())
  {
    AssetByNameIgnoresPadding(m, a.name);
    AssetByNameIgnoresPadding(m, b.name);
  }

  // ---- the blockers ---------------------------------------------------------------------------

  datatype Blocker = Hold | Type | Swap | Mine | Payee | Source | TitleEmpty | TitleBlank

  // The order a person settles them in.
  function Rank(b: Blocker): nat {
    match b
    case Hold => 0
    case Type => 1
    case Swap => 1
    case Mine => 2
    case Payee => 3
    case Source => 4
    case TitleEmpty => 5
    case TitleBlank => 5
  }

  ghost predicate InOrder(list: seq<Blocker>) {
    forall i, j | 0 <= i < j < |list| :: Rank(list[i]) <= Rank(list[j])
  }

  ghost predicate NoRepeats(list: seq<Blocker>) {
    forall i, j | 0 <= i < j < |list| :: list[i] != list[j]
  }

  // What the card shows that cardBlockers reads.
  datatype Face = Face(hold: string, title: string, hasSource: bool, hasDest: bool)

  predicate HasBlank(title: string) {
    |title| >= 3 && (title[..3] == "___" || HasBlank(title[1..]))
  }

  ghost predicate Ascending(list: seq<Blocker>, below: nat) {
    && (forall i | 0 <= i < |list| :: Rank(list[i]) < below)
    && (forall i, j | 0 <= i < j < |list| :: Rank(list[i]) < Rank(list[j]))
  }

  // One more blocker at the end, when it applies.
  function Add(list: seq<Blocker>, applies: bool, b: Blocker): (out: seq<Blocker>)
    requires Ascending(list, Rank(b))
    ensures Ascending(out, Rank(b) + 1)
    ensures forall x :: x in out <==> x in list || (applies && x == b)
  {
    if applies then list + [b] else list
  }

  // Which blockers the card's own face calls for.
  predicate CallsFor(direction: string, face: Face, b: Blocker) {
    match b
    case Hold => !Blank(face.hold)
    case Payee => (direction == "OUTGOING" && !face.hasDest) || (direction == "INCOMING" && !face.hasSource)
    case Source => if direction == "INCOMING" then !face.hasDest else !face.hasSource
    case TitleEmpty => Blank(face.title)
    case TitleBlank => !Blank(face.title) && HasBlank(face.title)
    case _ => false
  }

  // The blockers that apply, one after another.
  function Collect(hold: bool, payee: bool, source: bool, titleEmpty: bool, titleBlank: bool): (list: seq<Blocker>)
    ensures Ascending(list, 6)
    ensures forall b :: b in list <==>
      (b == Hold && hold) || (b == Payee && payee) || (b == Source && source)
      || (b == TitleEmpty && titleEmpty) || (b == TitleBlank && titleBlank && !titleEmpty)
  {
    AddTitle(Accounts(hold, payee, source), titleEmpty, titleBlank)
  }

  function Accounts(hold: bool, payee: bool, source: bool): (list: seq<Blocker>)
    ensures Ascending(list, 5)
    ensures forall b :: b in list <==> (b == Hold && hold) || (b == Payee && payee) || (b == Source && source)
  {
    Add(Add(Add([], hold, Hold), payee, Payee), source, Source)
  }

  function AddTitle(list: seq<Blocker>, titleEmpty: bool, titleBlank: bool): (out: seq<Blocker>)
    requires Ascending(list, 5)
    ensures Ascending(out, 6)
    ensures forall b :: b in out <==> b in list || (b == TitleEmpty && titleEmpty) || (b == TitleBlank && titleBlank && !titleEmpty)
  {
    if titleEmpty then Add(list, true, TitleEmpty) else Add(list, titleBlank, TitleBlank)
  }

  function CardBlockers(direction: string, face: Face): (list: seq<Blocker>)
    ensures Ascending(list, 6)
    ensures forall b :: b in list <==> CallsFor(direction, face, b)
  {
    Collect(CallsFor(direction, face, Hold), CallsFor(direction, face, Payee), CallsFor(direction, face, Source),
            CallsFor(direction, face, TitleEmpty), CallsFor(direction, face, TitleBlank))
  }

  lemma AscendingIsInOrder(list: seq<Blocker>, below: nat)
    requires Ascending(list, below)
    ensures InOrder(list) && NoRepeats(list)
  {
  }

  // The blocker sits before the first one it should come before.
  ghost predicate InsertedAt(list: seq<Blocker>, b: Blocker, out: seq<Blocker>, k: nat) {
    && k <= |list| && out == list[..k] + [b] + list[k..]
    && (forall i | 0 <= i < k :: Rank(list[i]) <= Rank(b))
    && (k < |list| ==> Rank(b) < Rank(list[k]))
  }

  ghost predicate Inserted(list: seq<Blocker>, b: Blocker, out: seq<Blocker>) {
    if b in list then out == list else exists k: nat :: InsertedAt(list, b, out, k)
  }

  // insertBlocker: once, and where a person would settle it.
  method InsertBlocker(list: seq<Blocker>, b: Blocker) returns (out: seq<Blocker>)
    ensures Inserted(list, b, out)
  {
    for i := 0 to |list|
      invariant forall j | 0 <= j < i :: list[j] != b
    {
      if list[i] == b {
        return list;
      }
    }
    out := [];
    var placed := false;
    ghost var k := |list|;
    for i := 0 to |list|
      invariant if placed then 0 <= k < i && out == list[..k] + [b] + list[k..i] && Rank(b) < Rank(list[k])
                else k == |list| && out == list[..i]
      invariant forall j | 0 <= j < i && j < k :: Rank(list[j]) <= Rank(b)
    {
      var x := list[i];
      if !placed && Rank(b) < Rank(x) {
        out := out + [b];
        placed := true;
        k := i;
      }
      out := out + [x];
    }
    if !placed {
      out := out + [b];
    }
    assert list[..|list|] == list;
    assert InsertedAt(list, b, out, k);
  }

  lemma InsertedIndex(list: seq<Blocker>, b: Blocker, out: seq<Blocker>, k: nat, i: nat)
    requires k <= |list| && out == list[..k] + [b] + list[k..] && i < |out|
    ensures out[i] == if i < k then list[i] else if i == k then b else list[i - 1]
  {
  }

  // Inserting keeps the list in the order of settling, without repeats, with the blocker in it.
  lemma InsertingKeepsOrder(list: seq<Blocker>, b: Blocker, out: seq<Blocker>)
    requires InOrder(list) && NoRepeats(list) && Inserted(list, b, out)
    ensures InOrder(out) && NoRepeats(out)
    ensures forall x :: x in out <==> x in list || x == b
  {
    if b !in list {
      var k: nat :| InsertedAt(list, b, out, k);
      InsertedKeepsOrder(list, b, out, k);
      assert list == list[..k] + list[k..];
      InsertingKeepsMembers(list[..k], b, list[k..]);
    }
  }

  lemma InsertedKeepsOrder(list: seq<Blocker>, b: Blocker, out: seq<Blocker>, k: nat)
    requires InOrder(list) && NoRepeats(list) && b !in list && InsertedAt(list, b, out, k)
    ensures InOrder(out) && NoRepeats(out)
  {
    forall i, j | 0 <= i < j < |out| ensures Rank(out[i]) <= Rank(out[j]) && out[i] != out[j] {
      InsertedIndex(list, b, out, k, i);
      InsertedIndex(list, b, out, k, j);
    }
  }

  lemma InsertingKeepsMembers(front: seq<Blocker>, b: Blocker, back: seq<Blocker>)
    ensures forall x :: x in front + [b] + back <==> x in front + back || x == b
  {
  }

  // What doesn't fit between the type and the accounts, as a blocker of its own.
  function BlockerFor(p: Problem): Option<Blocker> {
    match p
    case NoProblem => None
    case OtherIsMine => Some(Mine)
    case Direction => Some(Type)
    case Swapped => Some(Swap)
    case OtherNotMine => Some(Payee)
    case SameAccount => Some(Payee)
    case OtherKind => Some(Payee)
    case OwnNotMine => Some(Source)
  }

  // ---- the card and the push of one row ----------------------------------------------------------

  datatype Row = Row(direction: string, confType: string, propType: string, src: StoredSide, dst: StoredSide)

  function CardCheck(m: Mirror, r: Row): TypeCheck {
    CheckType(m, r.direction, r.confType, r.propType, CardSide(r.src), CardSide(r.dst))
  }

  function PushCheck(m: Mirror, r: Row): TypeCheck {
    CheckType(m, r.direction, r.confType, r.propType, PushSide(r.src), PushSide(r.dst))
  }

  // The card of a row: its type, and what it lacks or what does not fit, each once, in the order a
  // person settles them.
  ghost predicate IsCard(m: Mirror, r: Row, face: Face, kind: Kind, blockers: seq<Blocker>) {
    && kind == CardCheck(m, r).kind
    && InOrder(blockers) && NoRepeats(blockers)
    && forall b :: b in blockers <==> CallsFor(r.direction, face, b) || BlockerFor(CardCheck(m, r).problem) == Some(b)
  }

  // buildCard's type and blockers.
  method BuildCard(m: Mirror, r: Row, face: Face) returns (kind: Kind, blockers: seq<Blocker>)
    ensures IsCard(m, r, face, kind, blockers)
  {
    var tc := CheckType(m, r.direction, r.confType, r.propType, CardSide(r.src), CardSide(r.dst));
    kind := tc.kind;
    blockers := CardBlockers(r.direction, face);
    AscendingIsInOrder(blockers, 6);
    match BlockerFor(tc.problem) {
      case None =>
      case Some(b) =>
        var list := blockers;
        blockers := InsertBlocker(list, b);
        AscendingIsInOrder(list, 6);
        InsertingKeepsOrder(list, b, blockers);
    }
  }

  lemma WrongAlike(m: Mirror, direction: string, kind: Kind, own: Side, other: Side, own': Side, other': Side)
    requires SameSide(own, own') && SameSide(other, other')
    ensures WhatIsWrong(m, direction, kind, own, other) == WhatIsWrong(m, direction, kind, own', other')
  {
    PaddingChangesNothing(m, own, own');
    PaddingChangesNothing(m, other, other');
  }

  // The type a card shows is the type push sends, and a card nothing blocks is one push's
  // own check lets through.
  lemma CardAndPushAgree(m: Mirror, r: Row)
    requires !HiddenByBlank(r.src) && !HiddenByBlank(r.dst)
    ensures CardCheck(m, r) == PushCheck(m, r)
    ensures BlockerFor(CardCheck(m, r).problem).None? <==> PushCheck(m, r).problem == NoProblem
  {
    SidesAgreeUnlessHidden(r.src);
    SidesAgreeUnlessHidden(r.dst);
    PaddingChangesNothing(m, CardSide(r.src), PushSide(r.src));
    PaddingChangesNothing(m, CardSide(r.dst), PushSide(r.dst));
    var card, push := CardCheck(m, r), PushCheck(m, r);
    assert card.kind == push.kind;
    WrongAlike(m, r.direction, card.kind, Own(r.direction, CardSide(r.src), CardSide(r.dst)),
               Other(r.direction, CardSide(r.src), CardSide(r.dst)),
               Own(r.direction, PushSide(r.src), PushSide(r.dst)), Other(r.direction, PushSide(r.src), PushSide(r.dst)));
  }

  // What each blocker of a card stands for, in the card's own terms.
  lemma BlockersMean(direction: string, face: Face, problem: Problem, blockers: seq<Blocker>)
    requires forall b :: b in blockers <==> CallsFor(direction, face, b) || BlockerFor(problem) == Some(b)
    ensures
      && (Hold in blockers <==> Trim(face.hold) != "")
      && (Type in blockers <==> problem == Direction)
      && (Swap in blockers <==> problem == Swapped)
      && (Mine in blockers <==> problem == OtherIsMine)
      && (Payee in blockers <==>
            || (direction == "OUTGOING" && !face.hasDest) || (direction == "INCOMING" && !face.hasSource)
            || problem == OtherNotMine || problem == SameAccount || problem == OtherKind)
      && (Source in blockers <==>
            (direction == "INCOMING" && !face.hasDest) || (direction != "INCOMING" && !face.hasSource) || problem == OwnNotMine)
      && (TitleEmpty in blockers <==> Trim(face.title) == "")
      && (TitleBlank in blockers <==> Trim(face.title) != "" && exists k :: BlankAt(face.title, k))
  {
    BlankMeans(face.title);
  }

  predicate BlankAt(title: string, k: int) {
    0 <= k <= |title| - 3 && title[k] == '_' && title[k + 1] == '_' && title[k + 2] == '_'
  }

  lemma {:induction false} BlankMeans(title: string)
    ensures HasBlank(title) <==> exists k :: BlankAt(title, k)
  {
    if |title| >= 3 {
      BlankMeans(title[1..]);
      assert title[..3] == [title[0], title[1], title[2]];
      assert title[..3] == "___" <==> BlankAt(title, 0);
      if k :| BlankAt(title, k) {
        assert k > 0 ==> BlankAt(title[1..], k - 1);
      }
      if k :| BlankAt(title[1..], k) {
        assert BlankAt(title, k + 1);
      }
    }
  }

  // And the order a person settles them in: the hold, then the kind of move, whose account the other
  // is, who is there, the own account, the title.
  lemma SettledInOrder(m: Mirror, r: Row, face: Face, kind: Kind, blockers: seq<Blocker>, i: nat, j: nat)
    requires IsCard(m, r, face, kind, blockers) && i < |blockers| && j < |blockers|
    ensures blockers[i] == Hold && j != i ==> i < j
    ensures blockers[i] in {Type, Swap} && blockers[j] in {Mine, Payee, Source, TitleEmpty, TitleBlank} ==> i < j
    ensures blockers[i] == Mine && blockers[j] in {Payee, Source, TitleEmpty, TitleBlank} ==> i < j
    ensures blockers[i] == Payee && blockers[j] in {Source, TitleEmpty, TitleBlank} ==> i < j
    ensures blockers[i] == Source && blockers[j] in {TitleEmpty, TitleBlank} ==> i < j
  {
  }

  // So where nothing is hidden a card goes with a swipe exactly when nothing is missing on its face
  // and push's own check lets it through, as the type the card shows.
  lemma ClearCardIsSent(m: Mirror, r: Row, face: Face, kind: Kind, blockers: seq<Blocker>)
    requires !HiddenByBlank(r.src) && !HiddenByBlank(r.dst) && IsCard(m, r, face, kind, blockers)
    ensures kind == PushCheck(m, r).kind
    ensures blockers == [] <==> PushCheck(m, r).problem == NoProblem && forall b :: !CallsFor(r.direction, face, b)
  {
    CardAndPushAgree(m, r);
    if blockers != [] {
      assert blockers[0] in blockers;
    }
    if PushCheck(m, r).problem != NoProblem {
      assert BlockerFor(CardCheck(m, r).problem).value in blockers;
    }
  }

  // What is hidden, as push sees it: nothing to the card, and somebody to push.
  lemma HiddenSides(s: StoredSide)
    requires HiddenByBlank(s)
    ensures CardSide(s).Empty() && CardSide(s).id == 0 && !PushSide(s).Empty()
  {
    TrimTwice(s.propName);
  }

  // With the own side hidden, push sees no more than the card if and only if it is not an open
  // asset, and is not known to be anybody else's where that matters.
  lemma OwnHidden(m: Mirror, direction: string, kind: Kind, own: Side, other: Side, own': Side, other': Side)
    requires own.Empty() && own.id == 0 && !own'.Empty() && SameSide(other, other') && SideAsset(m, own').0 == 0
    ensures WhatIsWrong(m, direction, kind, own, other) == WhatIsWrong(m, direction, kind, own', other')
      <==> !(TypeAllowed(direction, kind) && SideAsset(m, own').1
             && (own'.id != 0 || (kind != Transfer && SideAsset(m, other').0 != 0)))
  {
    PaddingChangesNothing(m, other, other');
  }

  // With the other side hidden, if and only if it is not an open asset, and is not one a transfer
  // or the type refuses where nothing worse is found.
  lemma OtherHidden(m: Mirror, direction: string, kind: Kind, own: Side, other: Side, own': Side, other': Side)
    requires other.Empty() && other.id == 0 && !other'.Empty() && SameSide(own, own') && SideAsset(m, other').0 == 0
    ensures WhatIsWrong(m, direction, kind, own, other) == WhatIsWrong(m, direction, kind, own', other')
      <==> WhatIsWrong(m, direction, kind, own, other) != NoProblem
           || !(OfOtherKind(m, kind, other') || (kind == Transfer && SideAsset(m, other').1))
  {
    PaddingChangesNothing(m, own, own');
  }

  // The converse, side by side: exactly which hidden side leaves card and push at one check.
  lemma HiddenSideShows(m: Mirror, r: Row)
    requires HiddenByBlank(r.src) != HiddenByBlank(r.dst)
    ensures var own, other := Own(r.direction, PushSide(r.src), PushSide(r.dst)), Other(r.direction, PushSide(r.src), PushSide(r.dst));
      var card := CardCheck(m, r);
      CardCheck(m, r) == PushCheck(m, r) <==>
        if HiddenByBlank(Own(r.direction, r.src, r.dst)) then
          && SideAsset(m, own).0 == 0
          && !(TypeAllowed(r.direction, card.kind) && SideAsset(m, own).1
               && (own.id != 0 || (card.kind != Transfer && card.otherAsset != 0)))
        else
          && SideAsset(m, other).0 == 0
          && (card.problem != NoProblem
              || !(OfOtherKind(m, card.kind, other) || (card.kind == Transfer && SideAsset(m, other).1)))
  {
    var own, other := Own(r.direction, r.src, r.dst), Other(r.direction, r.src, r.dst);
    SidesAgreeUnlessHidden(own);
    SidesAgreeUnlessHidden(other);
    var card, push := CardCheck(m, r), PushCheck(m, r);
    if HiddenByBlank(own) {
      HiddenSides(own);
      PaddingChangesNothing(m, CardSide(other), PushSide(other));
      if push.ownAsset == 0 {
        OwnHidden(m, r.direction, card.kind, CardSide(own), CardSide(other), PushSide(own), PushSide(other));
      }
    } else {
      HiddenSides(other);
      PaddingChangesNothing(m, CardSide(own), PushSide(own));
      if push.otherAsset == 0 {
        OtherHidden(m, r.direction, card.kind, CardSide(own), CardSide(other), PushSide(own), PushSide(other));
      }
    }
  }

  // And with both sides hidden: neither may be an open asset, nor known to be somebody the check
  // refuses, unless the type itself is refused.
  lemma BothHiddenShow(m: Mirror, r: Row)
    requires HiddenByBlank(r.src) && HiddenByBlank(r.dst)
    ensures var own, other := Own(r.direction, PushSide(r.src), PushSide(r.dst)), Other(r.direction, PushSide(r.src), PushSide(r.dst));
      var kind := CardCheck(m, r).kind;
      CardCheck(m, r) == PushCheck(m, r) <==>
        && SideAsset(m, own).0 == 0 && SideAsset(m, other).0 == 0
        && (!TypeAllowed(r.direction, kind)
            || (!(own.id != 0 && SideAsset(m, own).1)
                && !OfOtherKind(m, kind, other) && !(kind == Transfer && SideAsset(m, other).1)))
  {
    HiddenSides(r.src);
    HiddenSides(r.dst);
  }

  // Where a blank name does hide the proposal the two can part: the card calls this a
  // withdrawal with nobody paid, push would send a transfer.
  lemma BlankNamePartsThem()
    ensures var m := [Account(1, "Savings", "asset", true), Account(2, "Card", "asset", true)];
      var r := Row("OUTGOING", "", "", StoredSide(Some(1), "", None, ""), StoredSide(None, " ", Some(2), ""));
      ValidMirror(m) && CardCheck(m, r).kind == Withdrawal && PushCheck(m, r).kind == Transfer
  {
    var m := [Account(1, "Savings", "asset", true), Account(2, "Card", "asset", true)];
    assert TrimLeft(" ") == TrimLeft("") == "";
    assert Find(m, 2) == Find(m[1..], 2) == Some(m[1]);
    assert ParseKind("").None? by {
      assert Lower(Trim("")) == "";
    }
    assert |Lower("OUTGOING")| == 8 && Lower("OUTGOING")[0] == 'o' && Lower("INCOMING")[0] == 'i';
  }
}
