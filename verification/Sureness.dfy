// Surest first (ui/sureness.go): the review deck's order by rank, its pages after a cursor
// while cards leave, and the memo that keeps each card's rank.
module Sureness {
  import opened Wrappers
  import opened Decimal
  import opened Text
  import Ordering
  import ReviewCard

  datatype Band = SureYes | SureFairly | Unsure

  // A card's place: first the cards that go with a swipe, by band; then those waiting on a
  // word from a person, by band; then what is on hold.
  function SureRank(band: Band, blockers: seq<ReviewCard.Blocker>): nat {
    if ReviewCard.Hold in blockers then 6 else BandRank(band) + if |blockers| > 0 then 3 else 0
  }

  function BandRank(band: Band): nat {
    match band
    case SureYes => 0
    case SureFairly => 1
    case Unsure => 2
  }

  // ---- the order ---------------------------------------------------------------------------

  // What the cursor carries of a card. Text compares byte by byte.
  datatype Ranked = Ranked(rank: int, ts: string, uuid: string)

  // By rank, then newest first, then by uuid, last first.
  predicate Before(a: Ranked, b: Ranked) {
    if a.rank != b.rank then a.rank < b.rank
    else if a.ts != b.ts then Less(b.ts, a.ts)
    else Less(b.uuid, a.uuid)
  }

  // Before is a strict total order.
  lemma BeforeIsAnOrder(a: Ranked, b: Ranked)
    ensures !(Before(a, b) && Before(b, a)) && !Before(a, a)
    ensures a == b || Before(a, b) || Before(b, a)
  {
    LessIsAnOrder(a.ts, b.ts);
    LessIsAnOrder(a.uuid, b.uuid);
    LessIsAnOrder(a.uuid, a.uuid);
  }

  lemma BeforeChains(a: Ranked, b: Ranked, c: Ranked)
    requires Before(a, b) && Before(b, c)
    ensures Before(a, c)
  {
    if a.rank == b.rank == c.rank {
      if a.ts == b.ts && b.ts == c.ts {
        LessChains(c.uuid, b.uuid, a.uuid);
      } else if a.ts != b.ts && b.ts != c.ts {
        LessChains(c.ts, b.ts, a.ts);
        LessIsAnOrder(a.ts, b.ts);
      }
    }
  }

  ghost predicate InOrder(cards: seq<Ranked>) {
    forall i, j | 0 <= i < j < |cards| :: Before(cards[i], cards[j])
  }

  // How the query reads the deck: newest first, then by uuid, last first.
  ghost predicate NewestFirst(cards: seq<Ranked>) {
    forall i, j | 0 <= i < j < |cards| ::
      Less(cards[j].ts, cards[i].ts) || (cards[j].ts == cards[i].ts && Less(cards[j].uuid, cards[i].uuid))
  }

  predicate RanksBefore(a: Ranked, b: Ranked) { a.rank < b.rank }

  // A stable sort by rank alone.
  function StableByRank(cards: seq<Ranked>): seq<Ranked> { Ordering.Sorted(cards, RanksBefore) }

  lemma {:induction false} InsertKeepsOrder(c: Ranked, sorted: seq<Ranked>)
    requires InOrder(sorted)
    requires forall d | d in sorted && d.rank == c.rank :: Before(d, c)
    ensures InOrder(Ordering.Insert(c, sorted, RanksBefore))
    ensures |Ordering.Insert(c, sorted, RanksBefore)| == |sorted| + 1
    ensures forall d :: d in Ordering.Insert(c, sorted, RanksBefore) <==> d == c || d in sorted
    decreases |sorted|
  {
    if sorted == [] {
    } else if sorted[|sorted| - 1].rank <= c.rank {
      forall i | 0 <= i < |sorted| ensures Before(sorted[i], c) {
        assert sorted[i] in sorted;
        assert i < |sorted| - 1 ==> Before(sorted[i], sorted[|sorted| - 1]);
      }
    } else {
      var front, last := sorted[..|sorted| - 1], sorted[|sorted| - 1];
      assert sorted == front + [last];
      InsertKeepsOrder(c, front);
      forall d | d in Ordering.Insert(c, front, RanksBefore) ensures Before(d, last) {
        if d != c {
          var i :| 0 <= i < |front| && front[i] == d;
          assert Before(sorted[i], sorted[|sorted| - 1]);
        }
      }
    }
  }

  // Sorting the time-ordered deck by rank alone, stably, is sorting it by all three keys.
  lemma {:induction false} StableIsLexicographic(cards: seq<Ranked>)
    requires NewestFirst(cards)
    ensures InOrder(StableByRank(cards)) && |StableByRank(cards)| == |cards|
    ensures forall c :: c in StableByRank(cards) <==> c in cards
  {
    if cards != [] {
      var front, last := cards[..|cards| - 1], cards[|cards| - 1];
      assert cards == front + [last];
      StableIsLexicographic(front);
      forall d | d in StableByRank(front) && d.rank == last.rank ensures Before(d, last) {
        assert d in front;
        var i :| 0 <= i < |front| && front[i] == d;
        assert cards[i] == d;
        LessIsAnOrder(d.ts, last.ts);
      }
      InsertKeepsOrder(last, StableByRank(front));
    }
  }

  // What one of a deck's cards shows.
  datatype Look = Look(band: Band, blockers: seq<ReviewCard.Blocker>)

  predicate OnHold(s: Look) { ReviewCard.Hold in s.blockers }

  predicate SameRun(a: Look, b: Look) { (a.blockers == [] <==> b.blockers == []) && (OnHold(a) <==> OnHold(b)) }

  // So the deck comes in three runs: what goes with a swipe, what waits on a word, and what is on
  // hold, the first two surest first, each then newest first.
  lemma DeckInThreeRuns(cards: seq<Ranked>, look: Ranked -> Look, i: nat, j: nat)
    requires NewestFirst(cards) && forall c | c in cards :: c.rank == SureRank(look(c).band, look(c).blockers)
    requires i < j < |StableByRank(cards)|
    ensures var first, second := StableByRank(cards)[i], StableByRank(cards)[j];
      var a, b := look(first), look(second);
      && (b.blockers == [] ==> a.blockers == [])
      && (OnHold(a) ==> OnHold(b))
      && (SameRun(a, b) && !OnHold(a) ==> (b.band == SureYes ==> a.band == SureYes) && (a.band == Unsure ==> b.band == Unsure))
      && (SameRun(a, b) && (OnHold(a) || a.band == b.band) ==>
            Less(second.ts, first.ts) || (second.ts == first.ts && Less(second.uuid, first.uuid)))
  {
    StableIsLexicographic(cards);
    var first, second := StableByRank(cards)[i], StableByRank(cards)[j];
    assert first in StableByRank(cards) && second in StableByRank(cards) && Before(first, second);
  }

  // A deck has one such order: whatever holds the same cards in Before order is it.
  lemma SortedOneWay(cards: seq<Ranked>, other: seq<Ranked>)
    requires NewestFirst(cards) && InOrder(other) && forall c :: c in other <==> c in cards
    ensures other == StableByRank(cards)
  {
    StableIsLexicographic(cards);
    forall a, b, c ensures !(Before(a, b) && Before(b, a)) && (Before(a, b) && Before(b, c) ==> Before(a, c)) {
      BeforeIsAnOrder(a, b);
      if Before(a, b) && Before(b, c) {
        BeforeChains(a, b, c);
      }
    }
    Ordering.OneOrder(other, StableByRank(cards), Before);
  }

  // ---- the cursor ----------------------------------------------------------------------------

  function SureCursor(r: Ranked): (text: string)
    ensures text != ""
  {
    Itoa(r.rank) + "|" + r.ts + "|" + r.uuid
  }

  // Three parts at most: the uuid keeps any bars of its own.
  function ParseSureCursor(s: string): Option<Ranked> {
    var i := IndexOf(s, '|');
    if i == |s| then None
    else
      var rest := s[i + 1..];
      var j := IndexOf(rest, '|');
      if j == |rest| then None
      else match Atoi(s[..i])
        case None => None
        case Some(rank) => Some(Ranked(rank, rest[..j], rest[j + 1..]))
  }

  lemma ParsesAs(a: string, ts: string, uuid: string)
    requires '|' !in a && '|' !in ts
    ensures ParseSureCursor(a + "|" + ts + "|" + uuid)
         == if Atoi(a).None? then None else Some(Ranked(Atoi(a).value, ts, uuid))
  {
    var rest := ts + "|" + uuid;
    var text := a + "|" + rest;
    assert a + "|" + ts + "|" + uuid == text;
    IndexAfter(a, '|', rest);
    IndexAfter(ts, '|', uuid);
    assert text[..|a|] == a && text[|a| + 1..] == rest && rest[..|ts|] == ts && rest[|ts| + 1..] == uuid;
  }

  lemma ParsedHasNoBar(text: string)
    ensures ParseSureCursor(text).Some? ==> '|' !in ParseSureCursor(text).value.ts
  {
  }

  // A cursor is read back exactly when its timestamp holds no bar.
  lemma CursorReadsBack(r: Ranked)
    requires MIN_INT64 <= r.rank <= MAX_INT64
    ensures ParseSureCursor(SureCursor(r)) == Some(r) <==> '|' !in r.ts
  {
    AtoiReadsBack(r.rank);
    ItoaIsPlain(r.rank, '|');
    if '|' !in r.ts {
      ParsesAs(Itoa(r.rank), r.ts, r.uuid);
    } else {
      ParsedHasNoBar(SureCursor(r));
    }
  }

  // ---- pages -----------------------------------------------------------------------------------

  // The first card after a cursor's place.
  function FirstAfter(sorted: seq<Ranked>, cur: Ranked): (k: nat)
    ensures k <= |sorted|
  {
    if sorted == [] || Before(cur, sorted[0]) then 0 else 1 + FirstAfter(sorted[1..], cur)
  }

  // In an ordered deck the test is monotone: false up to there, true from there on.
  lemma {:induction false} FirstAfterSplits(sorted: seq<Ranked>, cur: Ranked, i: nat)
    requires InOrder(sorted) && i < |sorted|
    ensures Before(cur, sorted[i]) <==> i >= FirstAfter(sorted, cur)
  {
    if Before(cur, sorted[0]) {
      if i > 0 {
        BeforeChains(cur, sorted[0], sorted[i]);
      }
    } else if i > 0 {
      FirstAfterSplits(sorted[1..], cur, i - 1);
    }
  }

  // sort.Search over that test: a binary search finds the first card after the cursor.
  method Search(sorted: seq<Ranked>, cur: Ranked) returns (start: nat)
    requires InOrder(sorted)
    ensures start == FirstAfter(sorted, cur)
  {
    start := 0;
    var end := |sorted|;
    while start < end
      invariant 0 <= start <= FirstAfter(sorted, cur) <= end <= |sorted|
    {
      var middle := (start + end) / 2;
      FirstAfterSplits(sorted, cur, middle);
      if !Before(cur, sorted[middle]) {
        start := middle + 1;
      } else {
        end := middle;
      }
    }
  }

  // A page as it is served: its cards, and the text of the next cursor, "" for none.
  datatype SurePage = SurePage(cards: seq<Ranked>, next: string)

  // A page as it is cut: its cards, and the last of them when more follow.
  datatype Cut = Cut(cards: seq<Ranked>, upTo: Option<Ranked>)

  function PageStart(sorted: seq<Ranked>, cur: Option<Ranked>): (k: nat)
    ensures k <= |sorted|
  {
    if cur.None? then 0 else FirstAfter(sorted, cur.value)
  }

  function PageFrom(sorted: seq<Ranked>, cur: Option<Ranked>, limit: nat): Cut {
    var start := PageStart(sorted, cur);
    var end := if start + limit < |sorted| then start + limit else |sorted|;
    Cut(sorted[start..end], if end < |sorted| && end > start then Some(sorted[end - 1]) else None)
  }

  // A page holds the cards from its start on, as many as fit, and says where it ends exactly when more
  // follow.
  lemma PageIsCut(sorted: seq<Ranked>, cur: Option<Ranked>, limit: nat)
    requires limit > 0
    ensures var start, cut := PageStart(sorted, cur), PageFrom(sorted, cur, limit);
      var n := |cut.cards|;
      && start + n <= |sorted| && cut.cards == sorted[start..start + n]
      && n <= limit && (n < limit ==> start + n == |sorted|)
      && (cut.upTo.Some? <==> start + n < |sorted|)
      && (cut.upTo.Some? ==> n > 0 && cut.upTo.value == cut.cards[n - 1])
  {
  }

  // The cursor a request carries: none for the first, else the one made from a card.
  function AfterText(cur: Option<Ranked>): string { if cur.None? then "" else SureCursor(cur.value) }

  function Served(cut: Cut): SurePage { SurePage(cut.cards, AfterText(cut.upTo)) }

  function PageAfter(sorted: seq<Ranked>, after: string, limit: nat): SurePage {
    Served(PageFrom(sorted, ParseSureCursor(after), limit))
  }

  // ---- a reading of the deck -----------------------------------------------------------------------

  // One page request: the deck as it stood then, newest first.
  datatype Visit = Visit(deck: seq<Ranked>, after: string, limit: nat)

  predicate Shows(c: Ranked) { 0 <= c.rank <= 6 && '|' !in c.ts }

  // The deck a query can return: newest first, ranked as SureRank ranks, no bar in a timestamp.
  ghost predicate Readable(v: Visit) {
    v.limit > 0 && NewestFirst(v.deck) && forall c | c in v.deck :: Shows(c)
  }

  function CutOf(v: Visit): Cut { PageFrom(StableByRank(v.deck), ParseSureCursor(v.after), v.limit) }

  function PageOf(v: Visit): SurePage { Served(CutOf(v)) }

  // A person reads on: the first request has no cursor, and each later one carries the cursor
  // the page before it gave. Between them the deck may change in any way.
  ghost predicate ReadsOn(visits: seq<Visit>) {
    && (forall i | 0 <= i < |visits| :: Readable(visits[i]))
    && (forall i | 0 <= i < |visits| - 1 :: PageOf(visits[i]).next != "" && visits[i + 1].after == PageOf(visits[i]).next)
    && (visits != [] ==> visits[0].after == "")
  }

  function Shown(visits: seq<Visit>): seq<Ranked> {
    if visits == [] then [] else Shown(visits[..|visits| - 1]) + PageOf(visits[|visits| - 1]).cards
  }

  ghost predicate AllAfter(cur: Option<Ranked>, cards: seq<Ranked>) {
    cur.Some? ==> forall i | 0 <= i < |cards| :: Before(cur.value, cards[i])
  }

  lemma AfterThePlace(sorted: seq<Ranked>, cur: Option<Ranked>)
    requires InOrder(sorted)
    ensures AllAfter(cur, sorted[PageStart(sorted, cur)..])
  {
    if cur.Some? {
      var start := PageStart(sorted, cur);
      forall i | 0 <= i < |sorted| - start ensures Before(cur.value, sorted[start..][i]) {
        FirstAfterSplits(sorted, cur.value, start + i);
      }
    }
  }

  // What comes after the place is not before the page.
  lemma NotBeforeThePage(sorted: seq<Ranked>, cur: Option<Ranked>, i: nat)
    requires InOrder(sorted) && i < |sorted| && (cur.Some? ==> Before(cur.value, sorted[i]))
    ensures i >= PageStart(sorted, cur)
  {
    if cur.Some? {
      FirstAfterSplits(sorted, cur.value, i);
    }
  }

  lemma SliceInOrder(sorted: seq<Ranked>, start: nat, end: nat)
    requires InOrder(sorted) && start <= end <= |sorted|
    ensures InOrder(sorted[start..end])
  {
  }

  // A page of an ordered deck: all of it after the place, in order; what it ends with is its
  // last card.
  lemma PageIsRight(sorted: seq<Ranked>, cur: Option<Ranked>, limit: nat)
    requires InOrder(sorted) && limit > 0
    ensures var page := PageFrom(sorted, cur, limit);
      && InOrder(page.cards) && AllAfter(cur, page.cards)
      && (page.upTo.Some? ==> page.cards != [] && page.upTo.value == page.cards[|page.cards| - 1])
  {
    var start := PageStart(sorted, cur);
    var end := if start + limit < |sorted| then start + limit else |sorted|;
    AfterThePlace(sorted, cur);
    SliceInOrder(sorted, start, end);
    SliceIsAfter(cur, sorted, start, end);
  }

  lemma SliceIsAfter(cur: Option<Ranked>, sorted: seq<Ranked>, start: nat, end: nat)
    requires start <= end <= |sorted| && AllAfter(cur, sorted[start..])
    ensures AllAfter(cur, sorted[start..end])
  {
    assert forall i | 0 <= i < end - start :: sorted[start..end][i] == sorted[start..][i];
  }

  // What the deck holds after the place is on the page, or after the page's last card.
  lemma PageMissesNothing(sorted: seq<Ranked>, cur: Option<Ranked>, limit: nat, x: Ranked)
    requires InOrder(sorted) && limit > 0 && x in sorted && (cur.Some? ==> Before(cur.value, x))
    ensures var page := PageFrom(sorted, cur, limit);
      x in page.cards || (page.upTo.Some? && Before(page.upTo.value, x))
  {
    var start := PageStart(sorted, cur);
    var end := if start + limit < |sorted| then start + limit else |sorted|;
    var i :| 0 <= i < |sorted| && sorted[i] == x;
    NotBeforeThePage(sorted, cur, i);
    if i < end {
      assert sorted[start..end][i - start] == x;
    } else {
      assert Before(sorted[end - 1], sorted[i]);
    }
  }

  // A visit's page is the page after the card its cursor was made from.
  lemma VisitReadsItsCursor(v: Visit, cur: Option<Ranked>)
    requires v.after == AfterText(cur) && (cur.Some? ==> Shows(cur.value))
    ensures CutOf(v) == PageFrom(StableByRank(v.deck), cur, v.limit)
  {
    if cur.Some? {
      CursorReadsBack(cur.value);
    }
  }

  lemma OrderJoins(a: seq<Ranked>, b: seq<Ranked>)
    requires InOrder(a) && InOrder(b) && (a != [] ==> AllAfter(Some(a[|a| - 1]), b))
    ensures InOrder(a + b)
  {
    forall i, j | 0 <= i < |a| && 0 <= j < |b| ensures Before(a[i], b[j]) {
      assert Before(a[|a| - 1], b[j]);
      if i < |a| - 1 {
        BeforeChains(a[i], a[|a| - 1], b[j]);
      }
    }
  }

  // So far: shown in order; the reading goes on from the last card shown; and a card that has
  // stayed has been shown or is still to come.
  ghost predicate Progressed(shown: seq<Ranked>, upTo: Option<Ranked>, x: Ranked) {
    && InOrder(shown)
    && (upTo.Some? ==> shown != [] && upTo.value == shown[|shown| - 1] && Shows(upTo.value))
    && (x !in shown ==> upTo.Some? && Before(upTo.value, x))
  }

  ghost predicate GoodPage(cur: Option<Ranked>, page: Cut, x: Ranked) {
    && InOrder(page.cards) && AllAfter(cur, page.cards)
    && (page.upTo.Some? ==> page.cards != [] && page.upTo.value == page.cards[|page.cards| - 1] && Shows(page.upTo.value))
    && ((cur.Some? ==> Before(cur.value, x)) ==> x in page.cards || (page.upTo.Some? && Before(page.upTo.value, x)))
  }

  lemma PageIsGood(sorted: seq<Ranked>, cur: Option<Ranked>, limit: nat, x: Ranked)
    requires InOrder(sorted) && limit > 0 && x in sorted && forall i | 0 <= i < |sorted| :: Shows(sorted[i])
    ensures GoodPage(cur, PageFrom(sorted, cur, limit), x)
  {
    PageIsRight(sorted, cur, limit);
    if cur.Some? ==> Before(cur.value, x) {
      PageMissesNothing(sorted, cur, limit, x);
    }
  }

  lemma VisitIsGood(v: Visit, cur: Option<Ranked>, x: Ranked)
    requires Readable(v) && x in v.deck && v.after == AfterText(cur) && (cur.Some? ==> Shows(cur.value))
    ensures GoodPage(cur, CutOf(v), x)
  {
    var sorted := StableByRank(v.deck);
    StableIsLexicographic(v.deck);
    forall i | 0 <= i < |sorted| ensures Shows(sorted[i]) {
      assert sorted[i] in v.deck;
    }
    PageIsGood(sorted, cur, v.limit, x);
    VisitReadsItsCursor(v, cur);
  }

  lemma PageExtends(shown: seq<Ranked>, cur: Option<Ranked>, page: Cut, x: Ranked)
    requires GoodPage(cur, page, x) && if cur.None? then shown == [] else Progressed(shown, cur, x)
    ensures Progressed(shown + page.cards, page.upTo, x)
  {
    OrderJoins(shown, page.cards);
    if page.cards != [] {
      assert (shown + page.cards)[|shown + page.cards| - 1] == page.cards[|page.cards| - 1];
    }
  }

  lemma {:induction false} ReadingProgresses(visits: seq<Visit>, x: Ranked)
    requires visits != [] && ReadsOn(visits) && forall i | 0 <= i < |visits| :: x in visits[i].deck
    ensures Progressed(Shown(visits), CutOf(visits[|visits| - 1]).upTo, x)
    decreases |visits|
  {
    var earlier, last := visits[..|visits| - 1], visits[|visits| - 1];
    if earlier == [] {
      VisitIsGood(last, None, x);
      PageExtends([], None, CutOf(last), x);
    } else {
      ReadingProgresses(earlier, x);
      var cur := CutOf(earlier[|earlier| - 1]).upTo;
      assert last.after == PageOf(earlier[|earlier| - 1]).next == AfterText(cur) && cur.Some?;
      VisitIsGood(last, cur, x);
      PageExtends(Shown(earlier), cur, CutOf(last), x);
    }
  }

  // Read to its end, the deck has shown its cards in order, none twice, and every card that
  // stayed in it with its rank unchanged exactly once, whatever left or came meanwhile.
  lemma EveryStayingCardIsShownOnce(visits: seq<Visit>, x: Ranked)
    requires visits != [] && ReadsOn(visits) && PageOf(visits[|visits| - 1]).next == ""
    requires forall i | 0 <= i < |visits| :: x in visits[i].deck
    ensures InOrder(Shown(visits))
    ensures exists k | 0 <= k < |Shown(visits)| ::
      Shown(visits)[k] == x && forall j | 0 <= j < |Shown(visits)| && j != k :: Shown(visits)[j] != x
  {
    ReadingProgresses(visits, x);
    var shown := Shown(visits);
    var k :| 0 <= k < |shown| && shown[k] == x;
    BeforeIsAnOrder(x, x);
    assert forall j | 0 <= j < |shown| && j != k :: shown[j] != x;
  }

  // ---- the memo ------------------------------------------------------------------------------------

  const TTL := 3600                                  // an hour, in seconds

  // A waiting row: print is the fingerprint of every column its card is built from.
  datatype CardRow = CardRow(ts: string, uuid: string, fp: int)

  datatype KeptRank = KeptRank(fp: int, rank: nat, at: int)

  // What the memo answers for a card.
  function Recalled(memoMirror: string, ranks: map<string, KeptRank>, uuid: string, fp: int, mirror: string, now: int): Option<nat> {
    if uuid in ranks && memoMirror == mirror && ranks[uuid].fp == fp && now - ranks[uuid].at <= TTL
    then Some(ranks[uuid].rank) else None
  }

  // What was kept last is recalled for its print and mirror within the hour; what was kept of other
  // cards as before, unless the mirror has changed since.
  lemma KeptIsRecalled(memoMirror: string, ranks: map<string, KeptRank>, uuid: string, fp: int, mirror: string, rank: nat, at: int,
                       asked: string, fp': int, mirror': string, now: int)
    ensures var ranks' := (if memoMirror == mirror then ranks else map[])[uuid := KeptRank(fp, rank, at)];
      Recalled(mirror, ranks', asked, fp', mirror', now) ==
        if asked == uuid then if fp' == fp && mirror' == mirror && now - at <= 3600 then Some(rank) else None
        else if memoMirror == mirror then Recalled(memoMirror, ranks, asked, fp', mirror', now) else None
    ensures Recalled(memoMirror, map[], asked, fp', mirror', now) == None
  {
  }

  // How a card ranks, by its row's print and the accounts mirror alone.
  type RankOf = (int, string) -> nat

  class SureMemo {
    var mirror: string
    var ranks: map<string, KeptRank>

    constructor ()
      ensures ranks == map[] && mirror == ""
    {
      mirror, ranks := "", map[];
    }

    // Every rank kept is the one a card built now would get.
    ghost predicate Agrees(rankOf: RankOf)
      reads this
    {
      forall u | u in ranks :: ranks[u].rank == rankOf(ranks[u].fp, mirror)
    }

    method Rank(uuid: string, fp: int, asked: string, now: int) returns (rank: Option<nat>)
      ensures rank == Recalled(mirror, ranks, uuid, fp, asked, now)
    {
      if uuid !in ranks || mirror != asked || ranks[uuid].fp != fp || now - ranks[uuid].at > TTL {
        return None;
      }
      return Some(ranks[uuid].rank);
    }

    // A mirror that has changed drops every rank kept against the old one.
    method Keep(uuid: string, fp: int, asked: string, rank: nat, now: int)
      modifies this
      ensures mirror == asked
      ensures ranks == (if old(mirror) == asked then old(ranks) else map[])[uuid := KeptRank(fp, rank, now)]
    {
      if mirror != asked {
        mirror, ranks := asked, map[];
      }
      ranks := ranks[uuid := KeptRank(fp, rank, now)];
    }

    // Pruning drops only what would never be recalled again.
    method Prune(now: int)
      modifies `ranks
      ensures ranks == map u | u in old(ranks) && now - old(ranks)[u].at <= TTL :: old(ranks)[u]
      ensures forall uuid, fp, asked, later | later >= now ::
        Recalled(mirror, ranks, uuid, fp, asked, later) == Recalled(mirror, old(ranks), uuid, fp, asked, later)
    {
      ranks := map u | u in ranks && now - ranks[u].at <= TTL :: ranks[u];
    }
  }

  function RankAll(rankOf: RankOf, rows: seq<CardRow>, mirror: string): (ranked: seq<Ranked>)
    ensures |ranked| == |rows|
    ensures forall i | 0 <= i < |rows| :: ranked[i] == Ranked(rankOf(rows[i].fp, mirror), rows[i].ts, rows[i].uuid)
  {
    seq(|rows|, i requires 0 <= i < |rows| => Ranked(rankOf(rows[i].fp, mirror), rows[i].ts, rows[i].uuid))
  }

  function FirstRanks(ranked: seq<Ranked>): nat {
    if ranked == [] then 0
    else (if ranked[|ranked| - 1].rank == 0 then 1 else 0) + FirstRanks(ranked[..|ranked| - 1])
  }

  function FirstOnes(ranked: seq<Ranked>): set<int> { set i | 0 <= i < |ranked| && ranked[i].rank == 0 }

  lemma {:induction false} CountsTheFirst(ranked: seq<Ranked>)
    ensures FirstRanks(ranked) == |FirstOnes(ranked)|
  {
    if ranked == [] {
      assert FirstOnes(ranked) == {};
    } else {
      var front := ranked[..|ranked| - 1];
      CountsTheFirst(front);
      assert FirstOnes(ranked) == if ranked[|front|].rank == 0 then FirstOnes(front) + {|front|} else FirstOnes(front);
    }
  }

  // One card's rank: recalled, or made anew and kept.
  method RankOne(memo: SureMemo, rankOf: RankOf, r: CardRow, mirror: string, now: int) returns (rank: nat)
    requires memo.Agrees(rankOf)
    modifies memo
    ensures memo.Agrees(rankOf) && rank == rankOf(r.fp, mirror)
  {
    var kept := memo.Rank(r.uuid, r.fp, mirror, now);
    if kept.Some? {
      return kept.value;
    }
    rank := rankOf(r.fp, mirror);
    memo.Keep(r.uuid, r.fp, mirror, rank, now);
  }

  lemma RanksOfMore(rankOf: RankOf, rows: seq<CardRow>, i: nat, mirror: string)
    requires i < |rows|
    ensures var before, r := RankAll(rankOf, rows[..i], mirror), Ranked(rankOf(rows[i].fp, mirror), rows[i].ts, rows[i].uuid);
      && RankAll(rankOf, rows[..i + 1], mirror) == before + [r]
      && FirstRanks(before + [r]) == FirstRanks(before) + if r.rank == 0 then 1 else 0
  {
    var before, r := RankAll(rankOf, rows[..i], mirror), Ranked(rankOf(rows[i].fp, mirror), rows[i].ts, rows[i].uuid);
    assert (before + [r])[..|before|] == before;
  }

  // The ranks of a page request, and how many are the first.
  method RankRows(memo: SureMemo, rankOf: RankOf, rows: seq<CardRow>, mirror: string, now: int)
    returns (ranked: seq<Ranked>, sure: nat)
    requires memo.Agrees(rankOf)
    modifies memo
    ensures memo.Agrees(rankOf)
    ensures ranked == RankAll(rankOf, rows, mirror) && sure == FirstRanks(ranked)
  {
    ranked, sure := [], 0;
    for i := 0 to |rows|
      invariant memo.Agrees(rankOf)
      invariant ranked == RankAll(rankOf, rows[..i], mirror) && sure == FirstRanks(ranked)
    {
      var rank := RankOne(memo, rankOf, rows[i], mirror, now);
      RanksOfMore(rankOf, rows, i, mirror);
      ranked := ranked + [Ranked(rank, rows[i].ts, rows[i].uuid)];
      if rank == 0 {
        sure := sure + 1;
      }
    }
    assert rows[..|rows|] == rows;
    memo.Prune(now);
  }

  // The page itself: find the place, cut, and give the next cursor.
  method TakePage(sorted: seq<Ranked>, after: string, limit: nat) returns (page: SurePage)
    requires InOrder(sorted)
    ensures page == PageAfter(sorted, after, limit)
  {
    var cut := CutPage(sorted, ParseSureCursor(after), limit);
    page := SurePage(cut.cards, if cut.upTo.Some? then SureCursor(cut.upTo.value) else "");
  }

  method CutPage(sorted: seq<Ranked>, cur: Option<Ranked>, limit: nat) returns (page: Cut)
    requires InOrder(sorted)
    ensures page == PageFrom(sorted, cur, limit)
  {
    var start := 0;
    if cur.Some? {
      start := Search(sorted, cur.value);
    }
    var end := if start + limit < |sorted| then start + limit else |sorted|;
    page := Cut(sorted[start..end], if end < |sorted| && end > start then Some(sorted[end - 1]) else None);
  }

  // surestPage with the memo serves the page that ranking every card afresh would, and leaves
  // a memo that still agrees.
  method SurestPage(memo: SureMemo, rankOf: RankOf, rows: seq<CardRow>, mirror: string, now: int, after: string, limit: nat)
    returns (page: SurePage, sure: nat)
    requires memo.Agrees(rankOf) && NewestFirst(RankAll(rankOf, rows, mirror))
    modifies memo
    ensures memo.Agrees(rankOf)
    ensures page == PageAfter(StableByRank(RankAll(rankOf, rows, mirror)), after, limit)
    ensures sure == FirstRanks(RankAll(rankOf, rows, mirror))
  {
    var ranked;
    ranked, sure := RankRows(memo, rankOf, rows, mirror, now);
    StableIsLexicographic(ranked);
    page := TakePage(StableByRank(ranked), after, limit);
  }
}
