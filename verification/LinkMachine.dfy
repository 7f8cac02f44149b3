// Linking refunds (refund_link.go) as a machine over its atomic steps: any number of threads,
// after a push, an update or a person's click, read, list, create and record with no lock
// between them, while people make and remove links in Firefly by hand and rows are classified
// anew; any call may fail, and the process may die between any two.
module LinkMachine {
  import opened Wrappers
  import opened RefundLink

  datatype Pair = Pair(refund: int, original: int)

  predicate SamePair(p: Pair, q: Pair) { p == q || p == Pair(q.original, q.refund) }

  // What an attempt's list told it before it creates: nothing, what a full page holds, or all
  // the links there were, whose ids are below the next one's then.
  datatype Sight = Blind | Cut | Clear(below: int)

  // How far an attempt is; it is about the first refund of its thread's list.
  datatype Phase =
    | Resting
    | Resolving(ref: Ref, refund: int)
    | Typing(pair: Pair)
    | Listing(pair: Pair)
    | Creating(pair: Pair, sight: Sight)
    | Recording(pair: Pair, linkId: int)

  // todo: the refunds to link yet. scan: a purchase whose waiting refunds are to be looked up then.
  datatype Thread = Thread(phase: Phase, todo: seq<Uuid>, scan: Option<Uuid>)

  const DONE := Thread(Resting, [], None)

  datatype Machine = Machine(store: Sys, threads: map<nat, Thread>)

  datatype Action =
    | Complete(thread: nat, uuid: Uuid, txnId: int)  // a push or an update marks its row
    | Click(thread: nat, uuid: Uuid)                 // a person links one refund
    | Begin(thread: nat, loads: bool)
    | Resolve(thread: nat, loads: bool)
    | LookUpType(thread: nat, works: bool)
    | List(thread: nat, works: bool)
    | Create(thread: nat, reply: CreateReply)
    | Record(thread: nat, works: bool)
    | Scan(thread: nat, table: seq<Uuid>)
    | Refer(uuid: Uuid, ref: Ref)                    // another purchase is named
    | Reclassify(uuid: Uuid)                         // the row is no longer marked as pushed
    | ByHand(typeId: int, pair: Pair)                // a person links two journals in Firefly
    | Unlink(id: int)                                // a person removes a link there
    | Crash

  function ThreadOf(threads: map<nat, Thread>, t: nat): Thread { if t in threads then threads[t] else DONE }

  function Put(m: Machine, t: nat, th: Thread): Machine { m.(threads := m.threads[t := th]) }

  // The attempt is over, one way or another.
  function Over(th: Thread): Thread { Thread(Resting, if th.todo == [] then [] else th.todo[1..], th.scan) }

  function Stored(m: Machine, store: Sys): Machine { m.(store := store) }

  function Marked(s: Sys, u: Uuid, txnId: int): Sys
    requires u in s.rows
  {
    s.(rows := s.rows[u := s.rows[u].(pushed := true, txnId := txnId)])
  }

  predicate Startable(rows: map<Uuid, Row>, u: Uuid) {
    u in rows && !rows[u].ref.NoRef? && rows[u].linkId == 0 && rows[u].pushed && rows[u].txnId != 0
  }

  // What a list made for this pair finds.
  function FirstOf(cfg: Config, s: Sys, p: Pair): Option<int> { Listed(s.links, cfg.refundType, p.refund, p.original) }

  function SightOf(s: Sys, p: Pair, works: bool): Sight {
    if !works then Blind else if OnOnePage(s.links, p.refund) then Clear(s.nextLink) else Cut
  }

  function Made(cfg: Config, s: Sys, p: Pair): Sys { Gained(s, cfg.refundType, p.refund, p.original) }

  function Without(links: seq<Link>, id: int): seq<Link> {
    if links == [] then []
    else Without(links[..|links| - 1], id) + if links[|links| - 1].id == id then [] else [links[|links| - 1]]
  }

  function Recorded(s: Sys, u: Uuid, id: int, works: bool): Sys {
    if works && u in s.rows then s.(rows := s.rows[u := s.rows[u].(linkId := id)]) else s
  }

  // One step of a thread that is in the middle of an attempt.
  function ExecAttempt(cfg: Config, m: Machine, a: Action, t: nat, th: Thread): Option<Machine>
    requires th.todo != []
  {
    match (a, th.phase)
    case (Resolve(_, loads), Resolving(ref, refund)) =>
      var original := OriginalJournal(m.store.rows, ref);
      if !loads || original.None? || original.value == refund then Some(Put(m, t, Over(th)))
      else Some(Put(m, t, th.(phase := Typing(Pair(refund, original.value)))))
    case (LookUpType(_, works), Typing(pair)) =>
      if !m.store.typeKnown && !works then Some(Put(m, t, Over(th)))
      else Some(Put(Stored(m, m.store.(typeKnown := true)), t, th.(phase := Listing(pair))))
    case (List(_, works), Listing(pair)) =>
      var first := FirstOf(cfg, m.store, pair);
      if works && first.Some? then Some(Put(m, t, th.(phase := Recording(pair, first.value))))
      else Some(Put(m, t, th.(phase := Creating(pair, SightOf(m.store, pair, works)))))
    case (Create(_, reply), Creating(pair, _)) =>
      if reply.LinkRefused? then Some(Put(m, t, Over(th)))
      else
        var made := Stored(m, Made(cfg, m.store, pair));
        if reply.LinkUnheard? then Some(Put(made, t, Over(th)))
        else Some(Put(made, t, th.(phase := Recording(pair, m.store.nextLink))))
    case (Record(_, works), Recording(_, id)) =>
      Some(Put(Stored(m, Recorded(m.store, th.todo[0], id, works)), t, Over(th)))
    case _ => None
  }

  function Exec(cfg: Config, m: Machine, a: Action): Option<Machine> {
    match a
    case Complete(t, u, txnId) =>
      if ThreadOf(m.threads, t) != DONE || u !in m.store.rows || txnId <= 0
         || (m.store.rows[u].txnId != 0 && m.store.rows[u].txnId != txnId) then None
      else Some(Put(Stored(m, Marked(m.store, u, txnId)), t, Thread(Resting, [u], Some(u))))
    case Click(t, u) =>
      if ThreadOf(m.threads, t) != DONE then None else Some(Put(m, t, Thread(Resting, [u], None)))
    case Begin(t, loads) =>
      var th := ThreadOf(m.threads, t);
      if !th.phase.Resting? || th.todo == [] then None
      else if cfg.readOnly || !loads || !Startable(m.store.rows, th.todo[0]) then Some(Put(m, t, Over(th)))
      else
        var row := m.store.rows[th.todo[0]];
        Some(Put(m, t, th.(phase := Resolving(row.ref, row.txnId))))
    case Scan(t, table) =>
      var th := ThreadOf(m.threads, t);
      if !th.phase.Resting? || th.todo != [] || th.scan.None? || !(forall v | v in m.store.rows :: v in table) then None
      else Some(Put(m, t, Thread(Resting, WaitingFor(m.store.rows, table, th.scan.value), None)))
    case Refer(u, ref) =>
      if u !in m.store.rows then None
      else Some(Stored(m, m.store.(rows := m.store.rows[u := m.store.rows[u].(ref := ref)])))
    case Reclassify(u) =>
      if u !in m.store.rows then None
      else Some(Stored(m, m.store.(rows := m.store.rows[u := m.store.rows[u].(pushed := false)])))
    case ByHand(typeId, pair) => Some(Stored(m, Gained(m.store, typeId, pair.refund, pair.original)))
    case Unlink(id) => Some(Stored(m, m.store.(links := Without(m.store.links, id))))
    case Crash => Some(m.(threads := map[]))
    case _ =>
      var th := ThreadOf(m.threads, a.thread);
      if th.todo == [] then None else ExecAttempt(cfg, m, a, a.thread, th)
  }

  function Run(cfg: Config, m: Machine, actions: seq<Action>): Option<Machine>
    decreases |actions|
  {
    if actions == [] then Some(m)
    else match Exec(cfg, m, actions[0])
      case None => None
      case Some(m') => Run(cfg, m', actions[1..])
  }

  function Count(cfg: Config, s: Sys, p: Pair): nat { Between(s.links, cfg.refundType, p.refund, p.original) }

  // ---- a second link, exactly when -------------------------------------------------------------

  // A create that takes effect where there is a link already, or a Refund link made by hand there.
  predicate Doubles(cfg: Config, m: Machine, a: Action) {
    || (a.Create? && !a.reply.LinkRefused? && ThreadOf(m.threads, a.thread).phase.Creating?
        && Count(cfg, m.store, ThreadOf(m.threads, a.thread).phase.pair) >= 1)
    || (a.ByHand? && a.typeId == cfg.refundType && Count(cfg, m.store, a.pair) >= 1)
  }

  lemma GainCounts(cfg: Config, s: Sys, typeId: int, p: Pair, q: Pair)
    ensures Count(cfg, Gained(s, typeId, p.refund, p.original), q)
         == Count(cfg, s, q) + if typeId == cfg.refundType && SamePair(p, q) then 1 else 0
  {
    BetweenAfter(s.links, Link(s.nextLink, typeId, p.refund, p.original), cfg.refundType, q.refund, q.original);
  }

  lemma {:induction false} WithoutCounts(links: seq<Link>, id: int, refundType: int, p: Pair)
    ensures Between(Without(links, id), refundType, p.refund, p.original) <= Between(links, refundType, p.refund, p.original)
    ensures forall l | l in Without(links, id) :: l in links
  {
    if links != [] {
      var front, last := links[..|links| - 1], links[|links| - 1];
      WithoutCounts(front, id, refundType, p);
      if last.id != id {
        BetweenAfter(Without(front, id), last, refundType, p.refund, p.original);
      } else {
        assert Without(links, id) == Without(front, id);
      }
    }
  }

  lemma OneEachIsPerPair(cfg: Config, s: Sys)
    ensures OneEach(cfg, s) <==> forall p :: Count(cfg, s, p) <= 1
  {
    if forall p :: Count(cfg, s, p) <= 1 {
      forall a, b ensures Between(s.links, cfg.refundType, a, b) <= 1 {
        assert Count(cfg, s, Pair(a, b)) <= 1;
      }
    }
  }

  lemma CountIsSymmetric(cfg: Config, s: Sys, p: Pair, q: Pair)
    requires IdsFine(s) && SamePair(p, q)
    ensures Count(cfg, s, p) == Count(cfg, s, q)
  {
    FindsWhatIsThere(s.links, cfg.refundType, p.refund, p.original);
  }

  lemma GainDoubles(cfg: Config, s: Sys, typeId: int, p: Pair)
    requires OneEach(cfg, s) && IdsFine(s)
    ensures OneEach(cfg, Gained(s, typeId, p.refund, p.original)) <==> !(typeId == cfg.refundType && Count(cfg, s, p) >= 1)
  {
    var s' := Gained(s, typeId, p.refund, p.original);
    OneEachIsPerPair(cfg, s);
    OneEachIsPerPair(cfg, s');
    forall q ensures Count(cfg, s', q) == Count(cfg, s, q) + if typeId == cfg.refundType && SamePair(p, q) then 1 else 0 {
      GainCounts(cfg, s, typeId, p, q);
    }
    forall q | SamePair(p, q) ensures Count(cfg, s, q) == Count(cfg, s, p) {
      CountIsSymmetric(cfg, s, p, q);
    }
    assert SamePair(p, p);
  }

  lemma RemovalKeepsOneEach(cfg: Config, s: Sys, id: int)
    requires OneEach(cfg, s) && IdsFine(s)
    ensures OneEach(cfg, s.(links := Without(s.links, id))) && IdsFine(s.(links := Without(s.links, id)))
  {
    forall a, b ensures Between(Without(s.links, id), cfg.refundType, a, b) <= 1 {
      WithoutCounts(s.links, id, cfg.refundType, Pair(a, b));
    }
    WithoutCounts(s.links, id, cfg.refundType, Pair(0, 0));
  }

  // What an attempt knows before it creates: nothing when the list fails, all there was when it fits a
  // page of a hundred, and else what the page shows.
  lemma SightMeans(s: Sys, p: Pair, works: bool)
    ensures var sight := SightOf(s, p, works);
      && (sight == Blind <==> !works)
      && (sight == Clear(s.nextLink) <==> works && |Touching(s.links, p.refund)| <= 100)
      && (sight == Cut <==> works && |Touching(s.links, p.refund)| > 100)
  {
  }

  lemma {:induction false} TouchingHolds(links: seq<Link>, journal: int, l: Link)
    ensures l in Touching(links, journal) <==> l in links && (l.inward == journal || l.outward == journal)
  {
    if links != [] {
      TouchingHolds(links[1..], journal, l);
    }
  }

  // Removing a link removes what has its id, and leaves every other pair as it was.
  lemma {:induction false} RemovalIsExact(links: seq<Link>, id: int, refundType: int, a: int, b: int, l: Link)
    ensures l in Without(links, id) <==> l in links && l.id != id
    ensures (forall k | k in links && k.id == id :: !Joins(k, refundType, a, b)) ==>
      Between(Without(links, id), refundType, a, b) == Between(links, refundType, a, b)
  {
    if links != [] {
      var front, last := links[..|links| - 1], links[|links| - 1];
      assert links == front + [last];
      RemovalIsExact(front, id, refundType, a, b, l);
      if last.id != id {
        BetweenAfter(Without(front, id), last, refundType, a, b);
      } else {
        assert Without(links, id) == Without(front, id);
      }
    }
  }

  // What comes from outside can come at any time: a push or an update marks its row and hands its thread
  // the row and the purchase to look after; a click hands one the row; a person names another purchase,
  // a row is classified anew, and links are made by hand.
  lemma OutsideSteps(cfg: Config, m: Machine, t: nat, u: Uuid, txnId: int, ref: Ref, typeId: int, pair: Pair)
    ensures ThreadOf(m.threads, t) == DONE ==> Exec(cfg, m, Click(t, u)) == Some(Put(m, t, Thread(Resting, [u], None)))
    ensures ThreadOf(m.threads, t) == DONE && txnId > 0 && u in m.store.rows && m.store.rows[u].txnId in {0, txnId} ==>
      Exec(cfg, m, Complete(t, u, txnId))
      == Some(Machine(m.store.(rows := m.store.rows[u := m.store.rows[u].(pushed := true, txnId := txnId)]),
                      m.threads[t := Thread(Resting, [u], Some(u))]))
    ensures u in m.store.rows ==>
      && Exec(cfg, m, Refer(u, ref)) == Some(m.(store := m.store.(rows := m.store.rows[u := m.store.rows[u].(ref := ref)])))
      && Exec(cfg, m, Reclassify(u)) == Some(m.(store := m.store.(rows := m.store.rows[u := m.store.rows[u].(pushed := false)])))
    ensures var made := Link(m.store.nextLink, typeId, pair.refund, pair.original);
      Exec(cfg, m, ByHand(typeId, pair))
      == Some(m.(store := m.store.(links := m.store.links + [made], nextLink := m.store.nextLink + 1)))
  {
  }

  // One step leaves at most one link per pair if and only if it does not create over one.
  lemma SecondLinkExactlyWhen(cfg: Config, m: Machine, a: Action, m': Machine)
    requires OneEach(cfg, m.store) && IdsFine(m.store) && Exec(cfg, m, a) == Some(m')
    ensures IdsFine(m'.store)
    ensures OneEach(cfg, m'.store) <==> !Doubles(cfg, m, a)
  {
    if a.Create? && !a.reply.LinkRefused? {
      var p := ThreadOf(m.threads, a.thread).phase.pair;
      assert m'.store == Made(cfg, m.store, p);
      GainDoubles(cfg, m.store, cfg.refundType, p);
    } else if a.ByHand? {
      GainDoubles(cfg, m.store, a.typeId, a.pair);
    } else if a.Unlink? {
      RemovalKeepsOneEach(cfg, m.store, a.id);
    }
  }

  // Firefly's ids go up, and none comes twice.
  predicate IdsBelow(s: Sys) { IdsFine(s) && forall l | l in s.links :: l.id < s.nextLink }

  // What an attempt that saw everything saw: no link between its two journals. Whatever joins them
  // now has been made since.
  predicate SawNone(cfg: Config, s: Sys, p: Phase) {
    p.Creating? && p.sight.Clear? ==>
      p.sight.below <= s.nextLink
      && forall l | l in s.links && Joins(l, cfg.refundType, p.pair.refund, p.pair.original) :: l.id >= p.sight.below
  }

  ghost predicate AllSawNone(cfg: Config, m: Machine) {
    IdsBelow(m.store) && forall t: nat :: SawNone(cfg, m.store, ThreadOf(m.threads, t).phase)
  }

  lemma {:induction false} NoneJoins(links: seq<Link>, refundType: int, a: int, b: int)
    ensures Between(links, refundType, a, b) == 0 <==> forall l | l in links :: !Joins(l, refundType, a, b)
  {
    if links != [] {
      NoneJoins(links[..|links| - 1], refundType, a, b);
      assert links == links[..|links| - 1] + [links[|links| - 1]];
    }
  }

  lemma StoreOnlyAdds(cfg: Config, m: Machine, a: Action, m': Machine)
    requires IdsBelow(m.store) && Exec(cfg, m, a) == Some(m')
    ensures IdsBelow(m'.store) && m.store.nextLink <= m'.store.nextLink
    ensures forall l | l in m'.store.links :: l in m.store.links || l.id == m.store.nextLink
  {
    if a.Unlink? {
      WithoutCounts(m.store.links, a.id, cfg.refundType, Pair(0, 0));
    }
  }

  // Who has just listed all the links and goes on to create saw none.
  lemma ListSees(cfg: Config, s: Sys, p: Pair)
    requires IdsBelow(s) && FirstOf(cfg, s, p).None?
    ensures SawNone(cfg, s, Creating(p, SightOf(s, p, true)))
  {
    ListedIsThere(s.links, cfg.refundType, p.refund, p.original);
    FindsWhatIsThere(s.links, cfg.refundType, p.refund, p.original);
    NoneJoins(s.links, cfg.refundType, p.refund, p.original);
  }

  lemma StepKeepsSight(cfg: Config, m: Machine, a: Action, m': Machine, t: nat)
    requires IdsBelow(m.store) && SawNone(cfg, m.store, ThreadOf(m.threads, t).phase) && Exec(cfg, m, a) == Some(m')
    ensures SawNone(cfg, m'.store, ThreadOf(m'.threads, t).phase)
  {
    var p, p' := ThreadOf(m.threads, t).phase, ThreadOf(m'.threads, t).phase;
    if p'.Creating? && p' != p {
      assert a.List? && a.thread == t && m'.store == m.store;
      if a.works {
        ListSees(cfg, m.store, p'.pair);
      }
    } else {
      StoreOnlyAdds(cfg, m, a, m');
    }
  }

  lemma StepKeepsSawNone(cfg: Config, m: Machine, a: Action, m': Machine)
    requires AllSawNone(cfg, m) && Exec(cfg, m, a) == Some(m')
    ensures AllSawNone(cfg, m')
  {
    StoreOnlyAdds(cfg, m, a, m');
    forall t: nat ensures SawNone(cfg, m'.store, ThreadOf(m'.threads, t).phase) {
      StepKeepsSight(cfg, m, a, m', t);
    }
  }

  lemma {:induction false} RunKeepsSawNone(cfg: Config, m: Machine, actions: seq<Action>, m': Machine)
    requires AllSawNone(cfg, m) && Run(cfg, m, actions) == Some(m')
    ensures AllSawNone(cfg, m')
    decreases |actions|
  {
    if actions != [] {
      StepKeepsSawNone(cfg, m, actions[0], Exec(cfg, m, actions[0]).value);
      RunKeepsSawNone(cfg, Exec(cfg, m, actions[0]).value, actions[1..], m');
    }
  }

  // In any run, an attempt about to create over a link could not list the links, or listed a page
  // that left some off, or saw them all before somebody, another attempt or a person, made every
  // link there is now between the two journals: there is no fourth cause.
  lemma SecondLinkHasACause(cfg: Config, start: Machine, actions: seq<Action>, m: Machine, a: Action)
    requires start.threads == map[] && IdsBelow(start.store) && Run(cfg, start, actions) == Some(m)
    requires Doubles(cfg, m, a) && a.Create?
    ensures var p := ThreadOf(m.threads, a.thread).phase;
      p.sight.Blind? || p.sight.Cut?
      || ((exists l | l in m.store.links :: Joins(l, cfg.refundType, p.pair.refund, p.pair.original))
          && forall l | l in m.store.links && Joins(l, cfg.refundType, p.pair.refund, p.pair.original) :: l.id >= p.sight.below)
  {
    RunKeepsSawNone(cfg, start, actions, m);
    var p := ThreadOf(m.threads, a.thread).phase;
    assert SawNone(cfg, m.store, p);
    NoneJoins(m.store.links, cfg.refundType, p.pair.refund, p.pair.original);
  }

  // ---- runs in which attempts at one pair do not overlap ------------------------------------------

  // Whether a thread other than this one is about to link the pair.
  ghost predicate AboutToLink(m: Machine, p: Pair, but: int) {
    exists t: nat :: t != but && ThreadOf(m.threads, t).phase.Creating? && SamePair(ThreadOf(m.threads, t).phase.pair, p)
  }

  // Links can be listed, all on one page; nobody lists a pair that another attempt has listed and
  // has yet to create, and nobody makes a Refund link by hand there, or where there is one.
  ghost predicate Calm(cfg: Config, m: Machine, a: Action) {
    match a
    case List(t, works) =>
      works && (ThreadOf(m.threads, t).phase.Listing? ==>
        OnOnePage(m.store.links, ThreadOf(m.threads, t).phase.pair.refund) && !AboutToLink(m, ThreadOf(m.threads, t).phase.pair, t))
    case ByHand(typeId, pair) => typeId == cfg.refundType ==> Count(cfg, m.store, pair) == 0 && !AboutToLink(m, pair, -1)
    case _ => true
  }

  ghost predicate RunsCalmly(cfg: Config, m: Machine, actions: seq<Action>)
    decreases |actions|
  {
    actions != [] ==>
      Calm(cfg, m, actions[0]) && (Exec(cfg, m, actions[0]).Some? ==> RunsCalmly(cfg, Exec(cfg, m, actions[0]).value, actions[1..]))
  }

  // Whoever is about to create finds no link, and is alone at it.
  ghost predicate CreatesAfresh(cfg: Config, m: Machine) {
    && (forall t: nat :: ThreadOf(m.threads, t).phase.Creating? ==> Count(cfg, m.store, ThreadOf(m.threads, t).phase.pair) == 0)
    && (forall t: nat, t': nat :: t != t' && ThreadOf(m.threads, t).phase.Creating? && ThreadOf(m.threads, t').phase.Creating? ==>
          !SamePair(ThreadOf(m.threads, t).phase.pair, ThreadOf(m.threads, t').phase.pair))
  }

  ghost predicate AtMostOne(cfg: Config, m: Machine) { OneEach(cfg, m.store) && IdsFine(m.store) && CreatesAfresh(cfg, m) }

  lemma PutKeepsFresh(cfg: Config, m: Machine, t: nat, th: Thread)
    requires CreatesAfresh(cfg, m)
    requires th.phase.Creating? ==>
      Count(cfg, m.store, th.phase.pair) == 0
      && forall t': nat | t' != t && ThreadOf(m.threads, t').phase.Creating? ::
           !SamePair(ThreadOf(m.threads, t').phase.pair, th.phase.pair) && !SamePair(th.phase.pair, ThreadOf(m.threads, t').phase.pair)
    ensures CreatesAfresh(cfg, Put(m, t, th))
  {
    var m' := Put(m, t, th);
    assert ThreadOf(m'.threads, t) == th && forall t': nat | t' != t :: ThreadOf(m'.threads, t') == ThreadOf(m.threads, t');
  }

  // A Refund link gained where nobody else is about to make one leaves the others as fresh.
  lemma GainKeepsFresh(cfg: Config, m: Machine, typeId: int, p: Pair, but: int)
    requires CreatesAfresh(cfg, m) && (typeId == cfg.refundType ==> !AboutToLink(m, p, but))
    requires forall t: nat :: t == but ==> !ThreadOf(m.threads, t).phase.Creating?
    ensures CreatesAfresh(cfg, Stored(m, Gained(m.store, typeId, p.refund, p.original)))
  {
    forall t: nat | ThreadOf(m.threads, t).phase.Creating?
      ensures Count(cfg, Gained(m.store, typeId, p.refund, p.original), ThreadOf(m.threads, t).phase.pair) == 0
    {
      GainCounts(cfg, m.store, typeId, p, ThreadOf(m.threads, t).phase.pair);
    }
  }

  lemma CreateKeepsFresh(cfg: Config, m: Machine, a: Action, m': Machine)
    requires AtMostOne(cfg, m) && a.Create? && !a.reply.LinkRefused? && Exec(cfg, m, a) == Some(m')
    ensures CreatesAfresh(cfg, m')
  {
    var p := ThreadOf(m.threads, a.thread).phase.pair;
    var aside := Put(m, a.thread, ThreadOf(m'.threads, a.thread));
    PutKeepsFresh(cfg, m, a.thread, ThreadOf(m'.threads, a.thread));
    assert forall t: nat | t != a.thread :: ThreadOf(aside.threads, t) == ThreadOf(m.threads, t);
    GainKeepsFresh(cfg, aside, cfg.refundType, p, a.thread);
    assert m' == Stored(aside, Made(cfg, m.store, p));
  }

  lemma ListKeepsFresh(cfg: Config, m: Machine, a: Action, m': Machine)
    requires AtMostOne(cfg, m) && a.List? && Calm(cfg, m, a) && Exec(cfg, m, a) == Some(m')
    ensures CreatesAfresh(cfg, m')
  {
    var p := ThreadOf(m.threads, a.thread).phase.pair;
    FindsWhatIsThere(m.store.links, cfg.refundType, p.refund, p.original);
    ListedIsThere(m.store.links, cfg.refundType, p.refund, p.original);
    PutKeepsFresh(cfg, m, a.thread, ThreadOf(m'.threads, a.thread));
  }

  lemma RemovalKeepsFresh(cfg: Config, m: Machine, id: int)
    requires CreatesAfresh(cfg, m)
    ensures CreatesAfresh(cfg, Stored(m, m.store.(links := Without(m.store.links, id))))
  {
    forall t: nat | ThreadOf(m.threads, t).phase.Creating?
      ensures Count(cfg, m.store.(links := Without(m.store.links, id)), ThreadOf(m.threads, t).phase.pair) == 0
    {
      WithoutCounts(m.store.links, id, cfg.refundType, ThreadOf(m.threads, t).phase.pair);
    }
  }

  lemma StepKeepsAtMostOne(cfg: Config, m: Machine, a: Action, m': Machine)
    requires AtMostOne(cfg, m) && Calm(cfg, m, a) && Exec(cfg, m, a) == Some(m')
    ensures AtMostOne(cfg, m')
  {
    SecondLinkExactlyWhen(cfg, m, a, m');
    match a
    case List(_, _) => ListKeepsFresh(cfg, m, a, m');
    case ByHand(typeId, pair) => GainKeepsFresh(cfg, m, typeId, pair, -1);
    case Unlink(id) => RemovalKeepsFresh(cfg, m, id);
    case Create(t, reply) =>
      if reply.LinkRefused? {
        PutKeepsFresh(cfg, m, t, ThreadOf(m'.threads, t));
      } else {
        CreateKeepsFresh(cfg, m, a, m');
      }
    case Crash =>
    case Refer(_, _) =>
    case Reclassify(_) =>
    case _ =>
      assert m'.store.links == m.store.links;
      PutKeepsFresh(cfg, Stored(m, m'.store), a.thread, ThreadOf(m'.threads, a.thread));
  }

  // Over any run in which links can be listed on one page and neither another attempt nor a person
  // comes between the list and the create of an attempt at the same pair, whatever else fails or
  // dies, however often it is tried again, whatever references change, rows are classified anew or
  // links are removed, Firefly never holds two Refund links between two journals.
  lemma {:induction false} NeverTwoLinks(cfg: Config, m: Machine, actions: seq<Action>, m': Machine)
    requires AtMostOne(cfg, m) && RunsCalmly(cfg, m, actions) && Run(cfg, m, actions) == Some(m')
    ensures AtMostOne(cfg, m')
    decreases |actions|
  {
    if actions != [] {
      StepKeepsAtMostOne(cfg, m, actions[0], Exec(cfg, m, actions[0]).value);
      NeverTwoLinks(cfg, Exec(cfg, m, actions[0]).value, actions[1..], m');
    }
  }

  lemma Step(cfg: Config, m: Machine, a: Action, rest: seq<Action>, m': Machine)
    requires Exec(cfg, m, a) == Some(m')
    ensures Run(cfg, m, [a] + rest) == Run(cfg, m', rest)
  {
    assert ([a] + rest)[1..] == rest;
  }

  function Overlap(t: nat, t': nat): seq<Action> {
    [List(t, true)] + ([List(t', true)] + ([Create(t, LinkMade)] + [Create(t', LinkMade)]))
  }

  // Any two attempts at one pair that both list before either creates make two links, though
  // every call works.
  lemma OverlappingAttemptsDuplicate(cfg: Config, m: Machine, t: nat, t': nat, p: Pair) returns (m': Machine)
    requires t != t' && ThreadOf(m.threads, t).phase == ThreadOf(m.threads, t').phase == Listing(p)
    requires ThreadOf(m.threads, t).todo != [] && ThreadOf(m.threads, t').todo != []
    requires IdsFine(m.store) && Count(cfg, m.store, p) == 0
    ensures Run(cfg, m, Overlap(t, t')) == Some(m') && Count(cfg, m'.store, p) == 2 && !OneEach(cfg, m'.store)
  {
    NotListed(cfg, m.store, p);
    var th, th' := ThreadOf(m.threads, t), ThreadOf(m.threads, t');
    var sight := SightOf(m.store, p, true);
    var m1 := Put(m, t, th.(phase := Creating(p, sight)));
    var m2 := Put(m1, t', th'.(phase := Creating(p, sight)));
    var m3 := Put(Stored(m2, Made(cfg, m.store, p)), t, th.(phase := Recording(p, m.store.nextLink)));
    m' := Put(Stored(m3, Made(cfg, m3.store, p)), t', th'.(phase := Recording(p, m3.store.nextLink)));
    Step(cfg, m, List(t, true), [List(t', true)] + ([Create(t, LinkMade)] + [Create(t', LinkMade)]), m1);
    Step(cfg, m1, List(t', true), [Create(t, LinkMade)] + [Create(t', LinkMade)], m2);
    Step(cfg, m2, Create(t, LinkMade), [Create(t', LinkMade)], m3);
    Step(cfg, m3, Create(t', LinkMade), [], m');
    assert [Create(t', LinkMade)] + [] == [Create(t', LinkMade)];
    GainCounts(cfg, m.store, cfg.refundType, p, p);
    GainCounts(cfg, m3.store, cfg.refundType, p, p);
  }

  lemma NotListed(cfg: Config, s: Sys, p: Pair)
    requires IdsFine(s) && Count(cfg, s, p) == 0
    ensures FirstOf(cfg, s, p).None?
  {
    FindsWhatIsThere(s.links, cfg.refundType, p.refund, p.original);
    ListedIsThere(s.links, cfg.refundType, p.refund, p.original);
  }

  // So does a link made by hand between the two calls of one attempt, alone at it.
  lemma LinkByHandDuplicates(cfg: Config, m: Machine, t: nat, p: Pair) returns (m': Machine)
    requires ThreadOf(m.threads, t).phase == Listing(p) && ThreadOf(m.threads, t).todo != []
    requires IdsFine(m.store) && Count(cfg, m.store, p) == 0
    ensures Run(cfg, m, [List(t, true)] + ([ByHand(cfg.refundType, p)] + [Create(t, LinkMade)])) == Some(m')
    ensures Count(cfg, m'.store, p) == 2 && !OneEach(cfg, m'.store)
  {
    NotListed(cfg, m.store, p);
    var th := ThreadOf(m.threads, t);
    var m1 := Put(m, t, th.(phase := Creating(p, SightOf(m.store, p, true))));
    var m2 := Stored(m1, Made(cfg, m.store, p));
    m' := Put(Stored(m2, Made(cfg, m2.store, p)), t, th.(phase := Recording(p, m2.store.nextLink)));
    Step(cfg, m, List(t, true), [ByHand(cfg.refundType, p)] + [Create(t, LinkMade)], m1);
    Step(cfg, m1, ByHand(cfg.refundType, p), [Create(t, LinkMade)], m2);
    Step(cfg, m2, Create(t, LinkMade), [], m');
    assert [Create(t, LinkMade)] + [] == [Create(t, LinkMade)];
    GainCounts(cfg, m.store, cfg.refundType, p, p);
    GainCounts(cfg, m2.store, cfg.refundType, p, p);
  }

  // And so does a full page: a journal's hundred other links hide the Refund link made after them.
  lemma FullPageDuplicates(cfg: Config, m: Machine, t: nat, p: Pair, others: seq<Link>, l: Link) returns (m': Machine)
    requires ThreadOf(m.threads, t).phase == Listing(p) && ThreadOf(m.threads, t).todo != []
    requires m.store.links == others + [l] && Joins(l, cfg.refundType, p.refund, p.original) && |others| == PAGE
    requires forall o | o in others :: Touches(o, p.refund) && !Joins(o, cfg.refundType, p.refund, p.original)
    ensures Run(cfg, m, [List(t, true)] + [Create(t, LinkMade)]) == Some(m')
    ensures Count(cfg, m.store, p) == 1 && Count(cfg, m'.store, p) == 2
  {
    AllTouching(m.store.links, p.refund);
    assert Page(m.store.links, p.refund) == others;
    NothingFound(others, cfg.refundType, p.refund, p.original);
    var th := ThreadOf(m.threads, t);
    var m1 := Put(m, t, th.(phase := Creating(p, SightOf(m.store, p, true))));
    m' := Put(Stored(m1, Made(cfg, m.store, p)), t, th.(phase := Recording(p, m.store.nextLink)));
    Step(cfg, m, List(t, true), [Create(t, LinkMade)], m1);
    Step(cfg, m1, Create(t, LinkMade), [], m');
    assert [Create(t, LinkMade)] + [] == [Create(t, LinkMade)];
    NoneJoins(others, cfg.refundType, p.refund, p.original);
    BetweenAfter(others, l, cfg.refundType, p.refund, p.original);
    GainCounts(cfg, m.store, cfg.refundType, p, p);
  }

  lemma {:induction false} AllTouching(links: seq<Link>, journal: int)
    requires forall l | l in links :: Touches(l, journal)
    ensures Touching(links, journal) == links
  {
    if links != [] {
      AllTouching(links[1..], journal);
      assert links == [links[0]] + links[1..];
    }
  }

  lemma {:induction false} NothingFound(links: seq<Link>, refundType: int, a: int, b: int)
    requires forall l | l in links :: !Joins(l, refundType, a, b)
    ensures FirstBetween(links, refundType, a, b).None?
  {
    if links != [] {
      assert links[0] in links;
      NothingFound(links[1..], refundType, a, b);
    }
  }

  function PairOf(rows: map<Uuid, Row>, u: Uuid): Pair
    requires Due(rows, u)
  {
    Pair(rows[u].txnId, OriginalJournal(rows, rows[u].ref).value)
  }

  // Up to the list, an attempt at u.
  function UpToList(t: nat, u: Uuid): seq<Action> {
    [Click(t, u)] + ([Begin(t, true)] + ([Resolve(t, true)] + [LookUpType(t, true)]))
  }

  lemma ClickGetsToList(cfg: Config, m: Machine, t: nat, u: Uuid)
    requires !cfg.readOnly && ThreadOf(m.threads, t) == DONE && Due(m.store.rows, u) && m.store.rows[u].linkId == 0
    ensures Run(cfg, m, UpToList(t, u))
         == Some(Put(Stored(m, m.store.(typeKnown := true)), t, Thread(Listing(PairOf(m.store.rows, u)), [u], None)))
  {
    var row := m.store.rows[u];
    var p := PairOf(m.store.rows, u);
    var m1 := Put(m, t, Thread(Resting, [u], None));
    var m2 := Put(m1, t, Thread(Resolving(row.ref, row.txnId), [u], None));
    var m3 := Put(m2, t, Thread(Typing(p), [u], None));
    var m4 := Put(Stored(m3, m3.store.(typeKnown := true)), t, Thread(Listing(p), [u], None));
    Step(cfg, m, Click(t, u), [Begin(t, true)] + ([Resolve(t, true)] + [LookUpType(t, true)]), m1);
    Step(cfg, m1, Begin(t, true), [Resolve(t, true)] + [LookUpType(t, true)], m2);
    Step(cfg, m2, Resolve(t, true), [LookUpType(t, true)], m3);
    Step(cfg, m3, LookUpType(t, true), [], m4);
    assert [LookUpType(t, true)] + [] == [LookUpType(t, true)];
    assert m4.threads == m.threads[t := Thread(Listing(p), [u], None)];
  }

  // So two clicks at once on a refund that is due and has no link are enough.
  lemma TwoClicksDuplicate(cfg: Config, store: Sys, u: Uuid) returns (m: Machine)
    requires !cfg.readOnly && IdsFine(store) && Due(store.rows, u) && store.rows[u].linkId == 0 && LinksOf(cfg, store, u) == 0
    ensures Run(cfg, Machine(store, map[]), UpToList(0, u) + (UpToList(1, u) + Overlap(0, 1))) == Some(m)
    ensures !OneEach(cfg, m.store)
  {
    var start := Machine(store, map[]);
    var p := PairOf(store.rows, u);
    var m1 := Put(Stored(start, store.(typeKnown := true)), 0, Thread(Listing(p), [u], None));
    var m2 := Put(Stored(m1, m1.store.(typeKnown := true)), 1, Thread(Listing(p), [u], None));
    ClickGetsToList(cfg, start, 0, u);
    ClickGetsToList(cfg, m1, 1, u);
    m := OverlappingAttemptsDuplicate(cfg, m2, 0, 1, p);
    RunSplits(cfg, start, UpToList(0, u), UpToList(1, u) + Overlap(0, 1), m1);
    RunSplits(cfg, m1, UpToList(1, u), Overlap(0, 1), m2);
  }

  lemma {:induction false} RunSplits(cfg: Config, m: Machine, first: seq<Action>, second: seq<Action>, m': Machine)
    requires Run(cfg, m, first) == Some(m')
    ensures Run(cfg, m, first + second) == Run(cfg, m', second)
    decreases |first|
  {
    if first == [] {
      assert first + second == second;
    } else {
      assert (first + second)[0] == first[0] && (first + second)[1..] == first[1..] + second;
      RunSplits(cfg, Exec(cfg, m, first[0]).value, first[1..], second, m');
    }
  }

  // ---- runs in which nothing fails: every refund ends linked ---------------------------------------

  // Every call works, nobody dies, and references and links stay; rows may be classified anew.
  predicate Answers(a: Action) {
    match a
    case Begin(_, loads) => loads
    case Resolve(_, loads) => loads
    case LookUpType(_, works) => works
    case List(_, works) => works
    case Create(_, reply) => reply.LinkMade?
    case Record(_, works) => works
    case Refer(_, _) => false
    case Unlink(_) => false
    case Crash => false
    case _ => true
  }

  // A row keeps the journal it has got, whatever becomes of its status, and links stay.
  predicate Later(s: Sys, s': Sys) {
    && s'.rows.Keys == s.rows.Keys && s.links <= s'.links
    && forall u | u in s.rows :: s'.rows[u].ref == s.rows[u].ref && (s.rows[u].txnId != 0 ==> s'.rows[u].txnId == s.rows[u].txnId)
  }

  // The two journals a refund joins, once both have one, pushed just now or not.
  function Journals(rows: map<Uuid, Row>, u: Uuid): Option<Pair> {
    if u !in rows || rows[u].txnId == 0 then None
    else match rows[u].ref
      case NoRef => None
      case JournalRef(id) => Some(Pair(rows[u].txnId, id))
      case FoldRef(v) => if v in rows && rows[v].txnId != 0 then Some(Pair(rows[u].txnId, rows[v].txnId)) else None
  }

  lemma DueHasJournals(rows: map<Uuid, Row>, u: Uuid)
    requires Due(rows, u)
    ensures Journals(rows, u) == Some(PairOf(rows, u))
  {
  }

  predicate RecordsAreLinks(cfg: Config, s: Sys) {
    forall u | u in s.rows && s.rows[u].linkId != 0 ::
      Journals(s.rows, u).Some? && Count(cfg, s, Journals(s.rows, u).value) >= 1
  }

  lemma {:induction false} LinksStay(links: seq<Link>, links': seq<Link>, refundType: int, p: Pair)
    requires links <= links'
    ensures Between(links, refundType, p.refund, p.original) <= Between(links', refundType, p.refund, p.original)
    decreases |links'|
  {
    if |links| == |links'| {
      assert links == links';
    } else {
      LinksStay(links, links'[..|links'| - 1], refundType, p);
    }
  }

  lemma JournalsLater(s: Sys, s': Sys, u: Uuid)
    requires Later(s, s') && Journals(s.rows, u).Some?
    ensures Journals(s'.rows, u) == Journals(s.rows, u)
  {
    if s.rows[u].ref.FoldRef? {
      assert s.rows[u].ref.uuid in s.rows;
    }
  }

  lemma StepIsLater(cfg: Config, m: Machine, a: Action, m': Machine)
    requires Answers(a) && Exec(cfg, m, a) == Some(m')
    ensures Later(m.store, m'.store)
  {
  }

  // What a thread knows of its first refund is so.
  predicate Knows(cfg: Config, s: Sys, phase: Phase, u: Uuid) {
    match phase
    case Resting => true
    case Resolving(ref, refund) => u in s.rows && s.rows[u].ref == ref && s.rows[u].txnId == refund && refund != 0
    case Recording(pair, id) => Journals(s.rows, u) == Some(pair) && id != 0 && Count(cfg, s, pair) >= 1
    case _ => Journals(s.rows, u) == Some(phase.pair)
  }

  predicate InForm(cfg: Config, s: Sys, th: Thread) {
    && (th.todo == [] ==> th.phase.Resting?)
    && (th.todo != [] ==> Knows(cfg, s, th.phase, th.todo[0]))
    && (th.scan.Some? ==> th.scan.value in s.rows && s.rows[th.scan.value].txnId != 0)
  }

  lemma InFormLater(cfg: Config, s: Sys, s': Sys, th: Thread)
    requires Later(s, s') && InForm(cfg, s, th)
    ensures InForm(cfg, s', th)
  {
    if th.todo != [] && Journals(s.rows, th.todo[0]).Some? {
      JournalsLater(s, s', th.todo[0]);
      LinksStay(s.links, s'.links, cfg.refundType, Journals(s.rows, th.todo[0]).value);
    }
  }

  ghost predicate AllInForm(cfg: Config, m: Machine) {
    forall t: nat :: InForm(cfg, m.store, ThreadOf(m.threads, t))
  }

  predicate HasThread(a: Action) { !a.Refer? && !a.Reclassify? && !a.ByHand? && !a.Unlink? && !a.Crash? }

  lemma ActorStaysInForm(cfg: Config, m: Machine, a: Action, m': Machine, t: nat)
    requires IdsFine(m.store) && Answers(a) && Exec(cfg, m, a) == Some(m') && HasThread(a) && a.thread == t
    requires InForm(cfg, m.store, ThreadOf(m.threads, t))
    ensures InForm(cfg, m'.store, ThreadOf(m'.threads, t))
  {
    var th := ThreadOf(m.threads, t);
    StepIsLater(cfg, m, a, m');
    InFormLater(cfg, m.store, m'.store, th);
    if a.List? && th.phase.Listing? {
      FindsWhatIsThere(m.store.links, cfg.refundType, th.phase.pair.refund, th.phase.pair.original);
      ListedIsThere(m.store.links, cfg.refundType, th.phase.pair.refund, th.phase.pair.original);
    } else if a.Create? && th.phase.Creating? {
      GainCounts(cfg, m.store, cfg.refundType, th.phase.pair, th.phase.pair);
    }
  }

  lemma StepKeepsForm(cfg: Config, m: Machine, a: Action, m': Machine)
    requires IdsFine(m.store) && AllInForm(cfg, m) && Answers(a) && Exec(cfg, m, a) == Some(m')
    ensures AllInForm(cfg, m')
  {
    StepIsLater(cfg, m, a, m');
    forall t: nat ensures InForm(cfg, m'.store, ThreadOf(m'.threads, t)) {
      if HasThread(a) && t == a.thread {
        ActorStaysInForm(cfg, m, a, m', t);
      } else {
        InFormLater(cfg, m.store, m'.store, ThreadOf(m.threads, t));
      }
    }
  }

  lemma StepKeepsRecords(cfg: Config, m: Machine, a: Action, m': Machine)
    requires RecordsAreLinks(cfg, m.store) && AllInForm(cfg, m) && Answers(a) && Exec(cfg, m, a) == Some(m')
    ensures RecordsAreLinks(cfg, m'.store)
  {
    StepIsLater(cfg, m, a, m');
    forall u | u in m'.store.rows && m'.store.rows[u].linkId != 0
      ensures Journals(m'.store.rows, u).Some? && Count(cfg, m'.store, Journals(m'.store.rows, u).value) >= 1
    {
      if m.store.rows[u].linkId == 0 {
        assert a.Record? && InForm(cfg, m.store, ThreadOf(m.threads, a.thread));
      }
      assert Journals(m.store.rows, u).Some? && Count(cfg, m.store, Journals(m.store.rows, u).value) >= 1;
      JournalsLater(m.store, m'.store, u);
      LinksStay(m.store.links, m'.store.links, cfg.refundType, Journals(m.store.rows, u).value);
    }
  }

  // A thread that will come to u.
  predicate Heads(rows: map<Uuid, Row>, th: Thread, u: Uuid) {
    u in th.todo || (th.scan.Some? && Waits(rows, u, th.scan.value))
  }

  ghost predicate Headed(m: Machine, u: Uuid) { exists t: nat :: Heads(m.store.rows, ThreadOf(m.threads, t), u) }

  predicate Owed(rows: map<Uuid, Row>, u: Uuid) { Due(rows, u) && rows[u].linkId == 0 }

  ghost predicate OwedAreHeaded(m: Machine) {
    forall u | Owed(m.store.rows, u) :: Headed(m, u)
  }

  // A push makes due only its own row and the refunds waiting for it.
  lemma CompleteHeads(cfg: Config, m: Machine, t: nat, p: Uuid, txnId: int, m': Machine, u: Uuid)
    requires AllInForm(cfg, m) && Exec(cfg, m, Complete(t, p, txnId)) == Some(m')
    requires Owed(m.store.rows, u) ==> Headed(m, u)
    requires Owed(m'.store.rows, u)
    ensures Headed(m', u)
  {
    if u == p || !Owed(m.store.rows, u) {
      assert Heads(m'.store.rows, ThreadOf(m'.threads, t), u);
    } else {
      var t': nat :| Heads(m.store.rows, ThreadOf(m.threads, t'), u);
      assert t' != t && InForm(cfg, m.store, ThreadOf(m.threads, t'));
      assert Heads(m'.store.rows, ThreadOf(m'.threads, t'), u);
    }
  }

  // A thread lets go of a refund that is owed only when its turn is over.
  lemma ActorHeads(cfg: Config, m: Machine, a: Action, m': Machine, u: Uuid)
    requires !cfg.readOnly && Answers(a) && Exec(cfg, m, a) == Some(m') && HasThread(a) && !a.Complete?
    requires InForm(cfg, m.store, ThreadOf(m.threads, a.thread))
    requires Owed(m'.store.rows, u) && Heads(m.store.rows, ThreadOf(m.threads, a.thread), u)
    ensures Owed(m.store.rows, u) ==> Heads(m'.store.rows, ThreadOf(m'.threads, a.thread), u)
  {
    var th := ThreadOf(m.threads, a.thread);
    if a.Scan? {
      WaitingIsComplete(m.store.rows, a.table, th.scan.value, u);
    } else if th.todo != [] {
      assert u in th.todo ==> u == th.todo[0] || u in th.todo[1..];
    }
  }

  // Every other step of a thread leaves journals and references, and so what is due, as they were.
  lemma OwedBefore(cfg: Config, m: Machine, a: Action, m': Machine, u: Uuid)
    requires Answers(a) && Exec(cfg, m, a) == Some(m') && HasThread(a) && !a.Complete? && AllInForm(cfg, m)
    requires Owed(m'.store.rows, u)
    ensures Owed(m.store.rows, u)
    ensures OnlyLinks(m.store.rows, m'.store.rows)
  {
    assert InForm(cfg, m.store, ThreadOf(m.threads, a.thread));
    DueIgnoresLinks(m.store.rows, m'.store.rows, u);
  }

  lemma WaitsIgnoresOtherLinks(rows: map<Uuid, Row>, rows': map<Uuid, Row>, u: Uuid, p: Uuid)
    requires OnlyLinks(rows, rows') && Waits(rows, u, p) && rows'[u].linkId == 0
    ensures Waits(rows', u, p)
  {
    if p in rows {
      assert rows'[p] == rows[p].(linkId := rows'[p].linkId);
    }
  }

  // Marking a row as not pushed makes nothing due, and whoever comes to what still is comes to it.
  lemma ReclassifyHeads(cfg: Config, m: Machine, v: Uuid, m': Machine, u: Uuid)
    requires Exec(cfg, m, Reclassify(v)) == Some(m') && Owed(m'.store.rows, u)
    requires Owed(m.store.rows, u) ==> Headed(m, u)
    ensures Headed(m', u)
  {
    assert u != v && m'.store.rows[u] == m.store.rows[u];
    assert OriginalJournal(m.store.rows, m.store.rows[u].ref) == OriginalJournal(m'.store.rows, m'.store.rows[u].ref);
    var t: nat :| Heads(m.store.rows, ThreadOf(m.threads, t), u);
    assert Heads(m'.store.rows, ThreadOf(m'.threads, t), u);
  }

  lemma StepHeads(cfg: Config, m: Machine, a: Action, m': Machine, u: Uuid)
    requires !cfg.readOnly && AllInForm(cfg, m) && Answers(a) && Exec(cfg, m, a) == Some(m')
    requires Owed(m.store.rows, u) ==> Headed(m, u)
    requires Owed(m'.store.rows, u)
    ensures Headed(m', u)
  {
    if a.Complete? {
      CompleteHeads(cfg, m, a.thread, a.uuid, a.txnId, m', u);
    } else if a.Reclassify? {
      ReclassifyHeads(cfg, m, a.uuid, m', u);
    } else if a.ByHand? {
      var t: nat :| Heads(m.store.rows, ThreadOf(m.threads, t), u);
      assert Heads(m'.store.rows, ThreadOf(m'.threads, t), u);
    } else {
      OwedBefore(cfg, m, a, m', u);
      var t: nat :| Heads(m.store.rows, ThreadOf(m.threads, t), u);
      if t == a.thread {
        ActorHeads(cfg, m, a, m', u);
        assert Heads(m'.store.rows, ThreadOf(m'.threads, t), u);
      } else {
        var th := ThreadOf(m.threads, t);
        if u !in th.todo {
          WaitsIgnoresOtherLinks(m.store.rows, m'.store.rows, u, th.scan.value);
        }
        assert Heads(m'.store.rows, ThreadOf(m'.threads, t), u);
      }
    }
  }

  ghost predicate Settling(cfg: Config, m: Machine) {
    AtMostOne(cfg, m) && RecordsAreLinks(cfg, m.store) && AllInForm(cfg, m) && OwedAreHeaded(m)
  }

  lemma StepKeepsSettling(cfg: Config, m: Machine, a: Action, m': Machine)
    requires !cfg.readOnly && Settling(cfg, m) && Calm(cfg, m, a) && Answers(a) && Exec(cfg, m, a) == Some(m')
    ensures Settling(cfg, m')
  {
    StepKeepsAtMostOne(cfg, m, a, m');
    StepKeepsForm(cfg, m, a, m');
    StepKeepsRecords(cfg, m, a, m');
    forall u | Owed(m'.store.rows, u) ensures Headed(m', u) {
      StepHeads(cfg, m, a, m', u);
    }
  }

  lemma {:induction false} RunKeepsSettling(cfg: Config, m: Machine, actions: seq<Action>, m': Machine)
    requires !cfg.readOnly && Settling(cfg, m) && RunsCalmly(cfg, m, actions) && Run(cfg, m, actions) == Some(m')
    requires forall a | a in actions :: Answers(a)
    ensures Settling(cfg, m')
    decreases |actions|
  {
    if actions != [] {
      assert Answers(actions[0]);
      StepKeepsSettling(cfg, m, actions[0], Exec(cfg, m, actions[0]).value);
      RunKeepsSettling(cfg, Exec(cfg, m, actions[0]).value, actions[1..], m');
    }
  }

  // Nothing has been pushed yet; Firefly may hold Refund links of its own.
  ghost predicate Unpushed(cfg: Config, s: Sys) {
    OneEach(cfg, s) && IdsFine(s) && forall u | u in s.rows :: !s.rows[u].pushed && s.rows[u].linkId == 0
  }

  // References fixed beforehand, every call answered and nothing coming between an attempt's list
  // and its create: refunds and purchases pushed, updated, classified anew, clicked or linked by
  // hand, by any threads in any order, end, once the threads have come to rest, with every pushed
  // refund whose different purchase is in Firefly
  // having exactly one Refund link to it, recorded on its row.
  lemma EveryRefundIsLinkedOnce(cfg: Config, start: Sys, actions: seq<Action>, m: Machine, u: Uuid)
    requires !cfg.readOnly && Unpushed(cfg, start)
    requires Run(cfg, Machine(start, map[]), actions) == Some(m) && RunsCalmly(cfg, Machine(start, map[]), actions)
    requires forall a | a in actions :: Answers(a)
    requires forall t: nat :: ThreadOf(m.threads, t) == DONE
    requires Due(m.store.rows, u)
    ensures LinksOf(cfg, m.store, u) == 1 && m.store.rows[u].linkId != 0
  {
    RunKeepsSettling(cfg, Machine(start, map[]), actions, m);
    DueHasJournals(m.store.rows, u);
    assert Owed(m.store.rows, u) ==> Headed(m, u);
  }

  // ---- an attempt nobody interrupts is a run -------------------------------------------------------

  function CreateScript(t: nat, f: Faults): seq<Action> {
    [Create(t, f.create)] + if f.create.LinkMade? then [Record(t, f.records)] else []
  }

  function ListScript(cfg: Config, s: Sys, t: nat, p: Pair, f: Faults): seq<Action> {
    [List(t, f.lists)] + if f.lists && FirstOf(cfg, s, p).Some? then [Record(t, f.records)] else CreateScript(t, f)
  }

  function AttemptScript(cfg: Config, s: Sys, t: nat, u: Uuid, f: Faults): seq<Action> {
    [Begin(t, f.loads)] + if cfg.readOnly || !f.loads || !Startable(s.rows, u) then []
    else [Resolve(t, true)] + if Refusal(cfg, s, u, f).Some? then []
    else [LookUpType(t, f.types)] + if !s.typeKnown && !f.types then []
    else ListScript(cfg, s, t, PairOf(s.rows, u), f)
  }

  lemma CreateIsARun(cfg: Config, m: Machine, t: nat, p: Pair, f: Faults)
    requires ThreadOf(m.threads, t).phase.Creating? && ThreadOf(m.threads, t).phase.pair == p && ThreadOf(m.threads, t).todo != []
    ensures var th := ThreadOf(m.threads, t);
      var store := if f.create.LinkRefused? then m.store
        else if f.create.LinkUnheard? then Made(cfg, m.store, p)
        else WithLink(Made(cfg, m.store, p), th.todo[0], m.store.nextLink, f);
      Run(cfg, m, CreateScript(t, f)) == Some(Put(Stored(m, store), t, Over(th)))
  {
    var m1 := Exec(cfg, m, Create(t, f.create)).value;
    if f.create.LinkMade? {
      var m2 := Exec(cfg, m1, Record(t, f.records)).value;
      Step(cfg, m1, Record(t, f.records), [], m2);
      assert [Record(t, f.records)] + [] == [Record(t, f.records)];
      Step(cfg, m, Create(t, f.create), [Record(t, f.records)], m1);
      assert m2.threads == m.threads[t := Over(ThreadOf(m.threads, t))];
    } else {
      Step(cfg, m, Create(t, f.create), [], m1);
    }
  }

  lemma ListIsARun(cfg: Config, m: Machine, t: nat, p: Pair, f: Faults)
    requires ThreadOf(m.threads, t).phase == Listing(p) && ThreadOf(m.threads, t).todo != []
    ensures var th := ThreadOf(m.threads, t);
      var store := if f.lists && FirstOf(cfg, m.store, p).Some? then WithLink(m.store, th.todo[0], FirstOf(cfg, m.store, p).value, f)
        else if f.create.LinkRefused? then m.store
        else if f.create.LinkUnheard? then Made(cfg, m.store, p)
        else WithLink(Made(cfg, m.store, p), th.todo[0], m.store.nextLink, f);
      Run(cfg, m, ListScript(cfg, m.store, t, p, f)) == Some(Put(Stored(m, store), t, Over(th)))
  {
    var m1 := Exec(cfg, m, List(t, f.lists)).value;
    if f.lists && FirstOf(cfg, m.store, p).Some? {
      var m2 := Exec(cfg, m1, Record(t, f.records)).value;
      Step(cfg, m1, Record(t, f.records), [], m2);
      assert [Record(t, f.records)] + [] == [Record(t, f.records)];
      Step(cfg, m, List(t, f.lists), [Record(t, f.records)], m1);
      assert m2.threads == m.threads[t := Over(ThreadOf(m.threads, t))];
    } else {
      Step(cfg, m, List(t, f.lists), CreateScript(t, f), m1);
      CreateIsARun(cfg, m1, t, p, f);
      assert m1.threads[t := Over(ThreadOf(m.threads, t))] == m.threads[t := Over(ThreadOf(m.threads, t))];
    }
  }

  // An attempt nobody interrupts is a run of the machine, with the same table and links.
  lemma AttemptIsARun(cfg: Config, m: Machine, t: nat, u: Uuid, f: Faults)
    requires ThreadOf(m.threads, t).phase.Resting? && ThreadOf(m.threads, t).todo != [] && ThreadOf(m.threads, t).todo[0] == u
    ensures Run(cfg, m, AttemptScript(cfg, m.store, t, u, f))
         == Some(Put(Stored(m, Attempt(cfg, m.store, u, f).0), t, Over(ThreadOf(m.threads, t))))
  {
    var th := ThreadOf(m.threads, t);
    var m1 := Exec(cfg, m, Begin(t, f.loads)).value;
    if cfg.readOnly || !f.loads || !Startable(m.store.rows, u) {
      Step(cfg, m, Begin(t, f.loads), [], m1);
    } else {
      var m2 := Exec(cfg, m1, Resolve(t, true)).value;
      if Refusal(cfg, m.store, u, f).Some? {
        Step(cfg, m1, Resolve(t, true), [], m2);
        Step(cfg, m, Begin(t, f.loads), [Resolve(t, true)] + [], m1);
        assert m2.threads == m.threads[t := Over(th)];
      } else {
        AttemptPastRefusal(cfg, m, m1, m2, t, u, f);
      }
    }
  }

  lemma AttemptPastRefusal(cfg: Config, m: Machine, m1: Machine, m2: Machine, t: nat, u: Uuid, f: Faults)
    requires ThreadOf(m.threads, t).phase.Resting? && ThreadOf(m.threads, t).todo != [] && ThreadOf(m.threads, t).todo[0] == u
    requires Refusal(cfg, m.store, u, f).None?
    requires Exec(cfg, m, Begin(t, f.loads)) == Some(m1) && Exec(cfg, m1, Resolve(t, true)) == Some(m2)
    ensures Run(cfg, m, AttemptScript(cfg, m.store, t, u, f))
         == Some(Put(Stored(m, Attempt(cfg, m.store, u, f).0), t, Over(ThreadOf(m.threads, t))))
  {
    var th := ThreadOf(m.threads, t);
    var p := PairOf(m.store.rows, u);
    var m3 := Exec(cfg, m2, LookUpType(t, f.types)).value;
    var rest := if !m.store.typeKnown && !f.types then [] else ListScript(cfg, m.store, t, p, f);
    Step(cfg, m, Begin(t, f.loads), [Resolve(t, true)] + ([LookUpType(t, f.types)] + rest), m1);
    Step(cfg, m1, Resolve(t, true), [LookUpType(t, f.types)] + rest, m2);
    Step(cfg, m2, LookUpType(t, f.types), rest, m3);
    if !m.store.typeKnown && !f.types {
      assert m3.threads == m.threads[t := Over(th)];
    } else {
      ListIsARun(cfg, m3, t, p, f);
      assert m3.threads[t := Over(th)] == m.threads[t := Over(th)];
    }
  }

  lemma {:induction false} AttemptsAreARun(cfg: Config, m: Machine, t: nat, us: seq<Uuid>, tail: seq<Uuid>, faults: Uuid -> Faults)
    returns (actions: seq<Action>)
    requires ThreadOf(m.threads, t) == Thread(Resting, us + tail, None) && t in m.threads
    ensures Run(cfg, m, actions) == Some(Put(Stored(m, AttemptAll(cfg, m.store, us, faults)), t, Thread(Resting, tail, None)))
    decreases |us|
  {
    if us == [] {
      actions := [];
      assert us + tail == tail;
      assert m.threads[t := Thread(Resting, tail, None)] == m.threads;
    } else {
      var front, last := us[..|us| - 1], us[|us| - 1];
      assert us + tail == front + ([last] + tail);
      var before := AttemptsAreARun(cfg, m, t, front, [last] + tail, faults);
      var m1 := Put(Stored(m, AttemptAll(cfg, m.store, front, faults)), t, Thread(Resting, [last] + tail, None));
      var script := AttemptScript(cfg, m1.store, t, last, faults(last));
      AttemptIsARun(cfg, m1, t, last, faults(last));
      RunSplits(cfg, m, before, script, m1);
      actions := before + script;
      assert ([last] + tail)[1..] == tail;
      assert m1.threads[t := Thread(Resting, tail, None)] == m.threads[t := Thread(Resting, tail, None)];
    }
  }

  // And so is a whole linkRefunds after a push or an update.
  lemma LinkingIsARun(cfg: Config, m: Machine, t: nat, u: Uuid, txnId: int, table: seq<Uuid>, faults: Uuid -> Faults)
    returns (actions: seq<Action>)
    requires !cfg.readOnly && Exec(cfg, m, Complete(t, u, txnId)).Some? && forall v | v in m.store.rows :: v in table
    ensures Run(cfg, m, actions)
         == Some(Put(Stored(m, AfterLinking(cfg, Marked(m.store, u, txnId), u, table, faults)), t, DONE))
  {
    var m1 := Exec(cfg, m, Complete(t, u, txnId)).value;
    var script := AttemptScript(cfg, m1.store, t, u, faults(u));
    AttemptIsARun(cfg, m1, t, u, faults(u));
    var m2 := Put(Stored(m1, Attempt(cfg, m1.store, u, faults(u)).0), t, Thread(Resting, [], Some(u)));
    AttemptOnlyAdds(cfg, m1.store, u, faults(u), 0, 0);
    var waiting := WaitingFor(m2.store.rows, table, u);
    var m3 := Put(m2, t, Thread(Resting, waiting, None));
    assert waiting + [] == waiting;
    var rest := AttemptsAreARun(cfg, m3, t, waiting, [], faults);
    Step(cfg, m2, Scan(t, table), rest, m3);
    RunSplits(cfg, m1, script, [Scan(t, table)] + rest, m2);
    Step(cfg, m, Complete(t, u, txnId), script + ([Scan(t, table)] + rest), m1);
    actions := [Complete(t, u, txnId)] + (script + ([Scan(t, table)] + rest));
    assert m3.threads[t := DONE] == m.threads[t := DONE];
  }
}
