// Refund links (refund_link.go): a staged reference "this refunds that purchase" becomes one
// link of Firefly's Refund type once both are in Firefly, whichever is pushed first.
module RefundLink {
  import opened Wrappers

  datatype Ref = NoRef | FoldRef(uuid: Uuid) | JournalRef(id: int)

  // The columns linking decides by; ref is the effective one (a person's, else the
  // classifier's). An id of 0 is none.
  datatype Row = Row(pushed: bool, txnId: int, linkId: int, ref: Ref)

  datatype Link = Link(id: int, typeId: int, inward: int, outward: int)

  datatype Config = Config(readOnly: bool, refundType: int)

  // typeKnown: the id of Firefly's Refund type has been looked up and cached.
  datatype Sys = Sys(rows: map<Uuid, Row>, links: seq<Link>, nextLink: int, typeKnown: bool)

  datatype CreateReply = LinkRefused | LinkUnheard | LinkMade    // Unheard: made, reported as an error

  // How each call of one attempt ends. A crash between two of them is the later ones failing.
  datatype Faults = Faults(loads: bool, types: bool, lists: bool, create: CreateReply, records: bool)

  const ANSWERING := Faults(true, true, true, LinkMade, true)

  datatype LinkError =
    | ReadOnlyMode | Database | NotFound | NotARefund | AlreadyLinked(id: int) | NotPushed
    | OriginalNotInFirefly | RefundsItself | TypeUnknown | CreateFailed | NotRecorded

  // originalJournal: where the purchase is in Firefly, when it is there.
  function OriginalJournal(rows: map<Uuid, Row>, ref: Ref): Option<int> {
    match ref
    case NoRef => None
    case JournalRef(id) => Some(id)
    case FoldRef(u) => if u in rows && rows[u].pushed && rows[u].txnId != 0 then Some(rows[u].txnId) else None
  }

  // A Refund link between two journals, either way round.
  predicate Joins(l: Link, refundType: int, a: int, b: int) {
    l.typeId == refundType && ((l.inward == a && l.outward == b) || (l.inward == b && l.outward == a))
  }

  function FirstBetween(links: seq<Link>, refundType: int, a: int, b: int): Option<int> {
    if links == [] then None
    else if Joins(links[0], refundType, a, b) && links[0].id > 0 then Some(links[0].id)
    else FirstBetween(links[1..], refundType, a, b)
  }

  predicate Touches(l: Link, journal: int) { l.inward == journal || l.outward == journal }

  function Touching(links: seq<Link>, journal: int): seq<Link> {
    if links == [] then []
    else (if Touches(links[0], journal) then [links[0]] else []) + Touching(links[1..], journal)
  }

  const PAGE := 100

  // What one list shows: the links that touch a journal, a page of them at most.
  function Page(links: seq<Link>, journal: int): seq<Link> {
    var all := Touching(links, journal);
    if |all| <= PAGE then all else all[..PAGE]
  }

  predicate OnOnePage(links: seq<Link>, journal: int) { |Touching(links, journal)| <= PAGE }

  // The Refund link that a list of the refund's links shows, if any.
  function Listed(links: seq<Link>, refundType: int, refund: int, original: int): Option<int> {
    FirstBetween(Page(links, refund), refundType, refund, original)
  }

  function Recorded(id: int, f: Faults): Result<int, LinkError> { if f.records then Ok(id) else Err(NotRecorded) }

  function WithLink(s: Sys, u: Uuid, id: int, f: Faults): Sys {
    if f.records && u in s.rows then s.(rows := s.rows[u := s.rows[u].(linkId := id)]) else s
  }

  function Gained(s: Sys, typeId: int, inward: int, outward: int): Sys {
    s.(links := s.links + [Link(s.nextLink, typeId, inward, outward)], nextLink := s.nextLink + 1)
  }

  // What stops an attempt before it asks Firefly for anything.
  function Refusal(cfg: Config, s: Sys, u: Uuid, f: Faults): Option<LinkError> {
    if cfg.readOnly then Some(ReadOnlyMode)
    else if !f.loads then Some(Database)
    else if u !in s.rows then Some(NotFound)
    else if s.rows[u].ref.NoRef? then Some(NotARefund)
    else if s.rows[u].linkId != 0 then Some(AlreadyLinked(s.rows[u].linkId))
    else if !s.rows[u].pushed || s.rows[u].txnId == 0 then Some(NotPushed)
    else match OriginalJournal(s.rows, s.rows[u].ref)
      case None => Some(OriginalNotInFirefly)
      case Some(original) => if original == s.rows[u].txnId then Some(RefundsItself) else None
  }

  // LinkRefund: the state it leaves, and its answer.
  function Attempt(cfg: Config, s: Sys, u: Uuid, f: Faults): (Sys, Result<int, LinkError>) {
    match Refusal(cfg, s, u, f)
    case Some(error) => (s, Err(error))
    case None =>
      if !s.typeKnown && !f.types then (s, Err(TypeUnknown))
      else
        var known := s.(typeKnown := true);
        var refund := s.rows[u].txnId;
        var original := OriginalJournal(s.rows, s.rows[u].ref).value;
        var existing := Listed(s.links, cfg.refundType, refund, original);
        if f.lists && existing.Some? then
          (WithLink(known, u, existing.value, f), Recorded(existing.value, f))
        else if f.create.LinkRefused? then (known, Err(CreateFailed))
        else
          var gained := Gained(known, cfg.refundType, refund, original);
          if f.create.LinkUnheard? then (gained, Err(CreateFailed))
          else (WithLink(gained, u, s.nextLink, f), Recorded(s.nextLink, f))
  }

  // A pushed refund that waits for this purchase.
  predicate Waits(rows: map<Uuid, Row>, v: Uuid, purchase: Uuid) {
    && v in rows && v != purchase && rows[v].pushed && rows[v].linkId == 0
    && (rows[v].ref == FoldRef(purchase)
        || (purchase in rows && rows[purchase].txnId != 0 && rows[v].ref == JournalRef(rows[purchase].txnId)))
  }

  function WaitingFor(rows: map<Uuid, Row>, table: seq<Uuid>, purchase: Uuid): seq<Uuid> {
    if table == [] then [] else
    WaitingFor(rows, table[..|table| - 1], purchase)
    + if Waits(rows, table[|table| - 1], purchase) then [table[|table| - 1]] else []
  }

  function AttemptAll(cfg: Config, s: Sys, us: seq<Uuid>, faults: Uuid -> Faults): Sys {
    if us == [] then s
    else
      var s' := AttemptAll(cfg, s, us[..|us| - 1], faults);
      Attempt(cfg, s', us[|us| - 1], faults(us[|us| - 1])).0
  }

  // linkRefunds after a push or an update of u: the row itself, then every refund waiting for it.
  function AfterLinking(cfg: Config, s: Sys, u: Uuid, table: seq<Uuid>, faults: Uuid -> Faults): Sys {
    if cfg.readOnly then s
    else
      var s' := Attempt(cfg, s, u, faults(u)).0;
      AttemptAll(cfg, s', WaitingFor(s'.rows, table, u), faults)
  }

  // The refunds waiting for a purchase: pushed, without a link, and pointing at it by its uuid or by the
  // journal it has.
  lemma {:induction false} WaitingMeans(rows: map<Uuid, Row>, table: seq<Uuid>, purchase: Uuid, v: Uuid)
    ensures v in WaitingFor(rows, table, purchase) <==>
      && v in table && v in rows && v != purchase && rows[v].pushed && rows[v].linkId == 0
      && (rows[v].ref == FoldRef(purchase)
          || exists id | id != 0 :: purchase in rows && rows[purchase].txnId == id && rows[v].ref == JournalRef(id))
  {
    if table != [] {
      WaitingMeans(rows, table[..|table| - 1], purchase, v);
      assert table == table[..|table| - 1] + [table[|table| - 1]];
    }
  }

  class Linker {
    const cfg: Config
    var rows: map<Uuid, Row>
    var links: seq<Link>                             // what Firefly holds
    var nextLink: int
    var typeKnown: bool                              // refundLinkType has been cached

    constructor (cfg: Config, s: Sys)
      ensures this.cfg == cfg && Now() == s
    {
      this.cfg := cfg;
      rows, links, nextLink, typeKnown := s.rows, s.links, s.nextLink, s.typeKnown;
    }

    ghost function Now(): Sys
      reads this
    {
      Sys(rows, links, nextLink, typeKnown)
    }

    method RefundLinkTypeID(works: bool) returns (found: bool)
      modifies `typeKnown
      ensures found == (old(typeKnown) || works) && typeKnown == found
    {
      if !typeKnown && works {
        typeKnown := true;
      }
      return typeKnown;
    }

    method SetLinkID(u: Uuid, id: int, works: bool) returns (recorded: bool)
      modifies `rows
      ensures recorded == works
      ensures rows == if works && u in old(rows) then old(rows)[u := old(rows)[u].(linkId := id)] else old(rows)
    {
      if works && u in rows {
        rows := rows[u := rows[u].(linkId := id)];
      }
      return works;
    }

    // The first Refund link between the two journals on the page Firefly lists.
    method FindLink(refund: int, original: int) returns (found: Option<int>)
      ensures found == Listed(links, cfg.refundType, refund, original)
    {
      var page := Page(links, refund);
      var i := 0;
      while i < |page|
        invariant 0 <= i <= |page|
        invariant FirstBetween(page, cfg.refundType, refund, original)
               == FirstBetween(page[i..], cfg.refundType, refund, original)
      {
        if Joins(page[i], cfg.refundType, refund, original) && page[i].id > 0 {
          return Some(page[i].id);
        }
        i := i + 1;
      }
      return None;
    }

    method LinkRefund(u: Uuid, f: Faults) returns (answer: Result<int, LinkError>)
      modifies this
      ensures (Now(), answer) == Attempt(cfg, old(Now()), u, f)
    {
      if cfg.readOnly {
        return Err(ReadOnlyMode);
      }
      if !f.loads {
        return Err(Database);
      }
      if u !in rows {
        return Err(NotFound);
      }
      var row := rows[u];
      if row.ref.NoRef? {
        return Err(NotARefund);
      }
      if row.linkId != 0 {
        return Err(AlreadyLinked(row.linkId));
      }
      if !row.pushed || row.txnId == 0 {
        return Err(NotPushed);
      }
      var purchase := OriginalJournal(rows, row.ref);
      if purchase.None? {
        return Err(OriginalNotInFirefly);
      }
      var original := purchase.value;
      if original == row.txnId {
        return Err(RefundsItself);
      }
      var found := RefundLinkTypeID(f.types);
      if !found {
        return Err(TypeUnknown);
      }
      if f.lists {
        var existing := FindLink(row.txnId, original);
        if existing.Some? {
          var recorded := SetLinkID(u, existing.value, f.records);
          return if recorded then Ok(existing.value) else Err(NotRecorded);
        }
      }
      if f.create.LinkRefused? {
        return Err(CreateFailed);
      }
      var id := nextLink;
      links, nextLink := links + [Link(id, cfg.refundType, row.txnId, original)], id + 1;
      if f.create.LinkUnheard? {
        return Err(CreateFailed);
      }
      var recorded := SetLinkID(u, id, f.records);
      return if recorded then Ok(id) else Err(NotRecorded);
    }

    method LinkRefunds(u: Uuid, table: seq<Uuid>, faults: Uuid -> Faults)
      modifies this
      ensures Now() == AfterLinking(cfg, old(Now()), u, table, faults)
    {
      if cfg.readOnly {
        return;
      }
      var _ := LinkRefund(u, faults(u));
      ghost var s := Now();
      var waiting := [];
      for i := 0 to |table|
        invariant Now() == s && waiting == WaitingFor(rows, table[..i], u)
      {
        assert table[..i + 1][..i] == table[..i];
        if Waits(rows, table[i], u) {
          waiting := waiting + [table[i]];
        }
      }
      assert table[..|table|] == table;
      for i := 0 to |waiting|
        invariant Now() == AttemptAll(cfg, s, waiting[..i], faults)
      {
        assert waiting[..i + 1][..i] == waiting[..i];
        var _ := LinkRefund(waiting[i], faults(waiting[i]));
      }
      assert waiting[..|waiting|] == waiting;
    }
  }

  // ---- what linking keeps ------------------------------------------------------------------------

  // How many Refund links Firefly holds between two journals.
  function Between(links: seq<Link>, refundType: int, a: int, b: int): nat {
    if links == [] then 0
    else (if Joins(links[|links| - 1], refundType, a, b) then 1 else 0) + Between(links[..|links| - 1], refundType, a, b)
  }

  ghost predicate OneEach(cfg: Config, s: Sys) {
    forall a, b :: Between(s.links, cfg.refundType, a, b) <= 1
  }

  predicate IdsFine(s: Sys) { s.nextLink > 0 && forall l | l in s.links :: 0 < l.id }

  // A pushed refund whose different purchase is in Firefly.
  predicate Due(rows: map<Uuid, Row>, u: Uuid) {
    && u in rows && rows[u].pushed && rows[u].txnId != 0
    && OriginalJournal(rows, rows[u].ref).Some? && OriginalJournal(rows, rows[u].ref).value != rows[u].txnId
  }

  function LinksOf(cfg: Config, s: Sys, u: Uuid): nat
    requires Due(s.rows, u)
  {
    Between(s.links, cfg.refundType, s.rows[u].txnId, OriginalJournal(s.rows, s.rows[u].ref).value)
  }

  lemma BetweenAfter(links: seq<Link>, l: Link, refundType: int, a: int, b: int)
    ensures Between(links + [l], refundType, a, b)
         == Between(links, refundType, a, b) + if Joins(l, refundType, a, b) then 1 else 0
  {
    assert (links + [l])[..|links|] == links;
  }

  lemma {:induction false} BetweenFromFront(links: seq<Link>, refundType: int, a: int, b: int)
    requires links != []
    ensures Between(links, refundType, a, b)
         == (if Joins(links[0], refundType, a, b) then 1 else 0) + Between(links[1..], refundType, a, b)
  {
    if |links| > 1 {
      BetweenFromFront(links[..|links| - 1], refundType, a, b);
      assert links[..|links| - 1][1..] == links[1..][..|links| - 2];
    }
  }

  // A search finds nothing exactly when there is nothing, read in either direction.
  lemma {:induction false} FindsWhatIsThere(links: seq<Link>, refundType: int, a: int, b: int)
    requires forall l | l in links :: 0 < l.id
    ensures FirstBetween(links, refundType, a, b).None? <==> Between(links, refundType, a, b) == 0
    ensures Between(links, refundType, a, b) == Between(links, refundType, b, a)
    ensures FirstBetween(links, refundType, a, b).Some? ==>
      exists l | l in links :: l.id == FirstBetween(links, refundType, a, b).value && Joins(l, refundType, a, b)
  {
    if links != [] {
      BetweenFromFront(links, refundType, a, b);
      BetweenFromFront(links, refundType, b, a);
      assert links[0] in links && forall l | l in links[1..] :: l in links;
      FindsWhatIsThere(links[1..], refundType, a, b);
    }
  }

  // Links that touch neither journal are nothing to the search.
  lemma {:induction false} SearchIgnoresOthers(links: seq<Link>, refundType: int, a: int, b: int)
    ensures FirstBetween(Touching(links, a), refundType, a, b) == FirstBetween(links, refundType, a, b)
  {
    if links != [] {
      SearchIgnoresOthers(links[1..], refundType, a, b);
      if Touches(links[0], a) {
        assert Touching(links, a)[1..] == Touching(links[1..], a);
      } else {
        assert Touching(links, a) == Touching(links[1..], a);
      }
    }
  }

  lemma {:induction false} FoundEarly(links: seq<Link>, n: nat, refundType: int, a: int, b: int)
    requires n <= |links| && FirstBetween(links[..n], refundType, a, b).Some?
    ensures FirstBetween(links, refundType, a, b) == FirstBetween(links[..n], refundType, a, b)
  {
    if n > 0 {
      assert links[..n][1..] == links[1..][..n - 1];
      if !(Joins(links[0], refundType, a, b) && links[0].id > 0) {
        FoundEarly(links[1..], n - 1, refundType, a, b);
      }
    }
  }

  // What a list shows is what is there, but for what a full page leaves off.
  lemma ListedIsThere(links: seq<Link>, refundType: int, a: int, b: int)
    ensures Listed(links, refundType, a, b).Some? ==> Listed(links, refundType, a, b) == FirstBetween(links, refundType, a, b)
    ensures OnOnePage(links, a) ==> Listed(links, refundType, a, b) == FirstBetween(links, refundType, a, b)
  {
    SearchIgnoresOthers(links, refundType, a, b);
    if !OnOnePage(links, a) && Listed(links, refundType, a, b).Some? {
      FoundEarly(Touching(links, a), PAGE, refundType, a, b);
    }
  }

  // Whether an attempt links blindly: it could not list what Firefly holds, or the page left off
  // what there is, and it adds a second.
  predicate AddsASecond(cfg: Config, s: Sys, u: Uuid, f: Faults) {
    && Refusal(cfg, s, u, f).None? && (s.typeKnown || f.types) && !f.create.LinkRefused?
    && var refund, original := s.rows[u].txnId, OriginalJournal(s.rows, s.rows[u].ref).value;
       && !(f.lists && Listed(s.links, cfg.refundType, refund, original).Some?)
       && FirstBetween(s.links, cfg.refundType, refund, original).Some?
  }

  // Whatever fails, an attempt nobody interrupts leaves at most one link per pair of journals,
  // with exactly one exception: there was one already, and it was not seen, because the listing
  // failed or its page was full.
  lemma AtMostOneUnlessBlind(cfg: Config, s: Sys, u: Uuid, f: Faults)
    requires OneEach(cfg, s) && IdsFine(s)
    ensures IdsFine(Attempt(cfg, s, u, f).0)
    ensures OneEach(cfg, Attempt(cfg, s, u, f).0) <==> !AddsASecond(cfg, s, u, f)
  {
    var s' := Attempt(cfg, s, u, f).0;
    if s'.links != s.links {
      var refund, original := s.rows[u].txnId, OriginalJournal(s.rows, s.rows[u].ref).value;
      var l := Link(s.nextLink, cfg.refundType, refund, original);
      assert s'.links == s.links + [l];
      FindsWhatIsThere(s.links, cfg.refundType, refund, original);
      ListedIsThere(s.links, cfg.refundType, refund, original);
      BetweenAfter(s.links, l, cfg.refundType, refund, original);
      forall a, b ensures Between(s'.links, cfg.refundType, a, b)
        == Between(s.links, cfg.refundType, a, b) + if Joins(l, cfg.refundType, a, b) then 1 else 0 {
        BetweenAfter(s.links, l, cfg.refundType, a, b);
      }
    }
  }

  // Two attempts at one refund, the first cut before it is recorded, the second unable to list.
  lemma BlindRetryDuplicates(u: Uuid)
    ensures var cfg := Config(false, 1);
      var start := Sys(map[u := Row(true, 7, 0, JournalRef(3))], [], 1, true);
      var cut := Attempt(cfg, start, u, ANSWERING.(records := false)).0;
      OneEach(cfg, start) && OneEach(cfg, cut) && !OneEach(cfg, Attempt(cfg, cut, u, ANSWERING.(lists := false)).0)
  {
    var cfg := Config(false, 1);
    var start := Sys(map[u := Row(true, 7, 0, JournalRef(3))], [], 1, true);
    AtMostOneUnlessBlind(cfg, start, u, ANSWERING.(records := false));
    AtMostOneUnlessBlind(cfg, Attempt(cfg, start, u, ANSWERING.(records := false)).0, u, ANSWERING.(lists := false));
  }

  // An attempt changes nothing of the table but the link recorded on its own row.
  predicate OnlyLinks(rows: map<Uuid, Row>, rows': map<Uuid, Row>) {
    && rows'.Keys == rows.Keys
    && forall u | u in rows :: rows'[u] == rows[u].(linkId := rows'[u].linkId)
  }

  lemma DueIgnoresLinks(rows: map<Uuid, Row>, rows': map<Uuid, Row>, u: Uuid)
    requires OnlyLinks(rows, rows')
    ensures Due(rows, u) <==> Due(rows', u)
    ensures u in rows ==> OriginalJournal(rows, rows[u].ref) == OriginalJournal(rows', rows'[u].ref)
  {
    if u in rows && rows[u].ref.FoldRef? && rows[u].ref.uuid in rows {
      assert rows'[rows[u].ref.uuid] == rows[rows[u].ref.uuid].(linkId := rows'[rows[u].ref.uuid].linkId);
    }
  }

  // Links are never taken away.
  lemma AttemptOnlyAdds(cfg: Config, s: Sys, u: Uuid, f: Faults, a: int, b: int)
    ensures Between(Attempt(cfg, s, u, f).0.links, cfg.refundType, a, b) >= Between(s.links, cfg.refundType, a, b)
    ensures OnlyLinks(s.rows, Attempt(cfg, s, u, f).0.rows)
  {
    var s' := Attempt(cfg, s, u, f).0;
    if s'.links != s.links {
      BetweenAfter(s.links, s'.links[|s.links|], cfg.refundType, a, b);
    }
  }

  lemma {:induction false} WaitingIsComplete(rows: map<Uuid, Row>, table: seq<Uuid>, purchase: Uuid, v: Uuid)
    ensures v in WaitingFor(rows, table, purchase) <==> v in table && Waits(rows, v, purchase)
  {
    if table != [] {
      WaitingIsComplete(rows, table[..|table| - 1], purchase, v);
      assert table == table[..|table| - 1] + [table[|table| - 1]];
    }
  }

  // A link made but not recorded, because the reply was lost, the record failed or the process
  // died in between, is adopted by the next attempt, which adds none, exactly when the next list
  // shows it; and it does unless more links touch the refund's journal than fit a page.
  lemma RetryAdoptsTheLink(cfg: Config, s: Sys, u: Uuid, f: Faults)
    requires !cfg.readOnly && IdsFine(s)
    requires Attempt(cfg, s, u, f).1 == Err(NotRecorded) || (Attempt(cfg, s, u, f).1 == Err(CreateFailed) && f.create.LinkUnheard?)
    ensures var cut := Attempt(cfg, s, u, f).0;
      var again := Attempt(cfg, cut, u, ANSWERING);
      var refund, original := s.rows[u].txnId, OriginalJournal(s.rows, s.rows[u].ref).value;
      var shown := Listed(cut.links, cfg.refundType, refund, original).Some?;
      && cut.rows == s.rows && (OnOnePage(cut.links, refund) ==> shown)
      && (again.0.links == cut.links <==> shown)
      && (shown ==>
            && again.1.Ok? && again.0.rows == s.rows[u := s.rows[u].(linkId := again.1.value)]
            && exists l | l in cut.links :: l.id == again.1.value && Joins(l, cfg.refundType, refund, original))
  {
    var refund, original := s.rows[u].txnId, OriginalJournal(s.rows, s.rows[u].ref).value;
    var cut := Attempt(cfg, s, u, f).0;
    LeavesALink(cfg, s, u, f);
    FindsWhatIsThere(cut.links, cfg.refundType, refund, original);
    ListedIsThere(cut.links, cfg.refundType, refund, original);
  }

  lemma LeavesALink(cfg: Config, s: Sys, u: Uuid, f: Faults)
    requires !cfg.readOnly && IdsFine(s)
    requires Attempt(cfg, s, u, f).1 == Err(NotRecorded) || (Attempt(cfg, s, u, f).1 == Err(CreateFailed) && f.create.LinkUnheard?)
    ensures var cut := Attempt(cfg, s, u, f).0;
      && Refusal(cfg, s, u, f).None? && cut.rows == s.rows && IdsFine(cut) && cut.typeKnown
      && Between(cut.links, cfg.refundType, s.rows[u].txnId, OriginalJournal(s.rows, s.rows[u].ref).value) >= 1
  {
    var refund, original := s.rows[u].txnId, OriginalJournal(s.rows, s.rows[u].ref).value;
    FindsWhatIsThere(s.links, cfg.refundType, refund, original);
    ListedIsThere(s.links, cfg.refundType, refund, original);
    BetweenAfter(s.links, Link(s.nextLink, cfg.refundType, refund, original), cfg.refundType, refund, original);
  }

  // What an attempt answers, and when: what it can tell from the table comes first, then what Firefly
  // says; and a success is the id of a Refund link between the two journals.
  lemma AttemptAnswersExactlyWhen(cfg: Config, s: Sys, u: Uuid, f: Faults)
    requires IdsFine(s)
    ensures var answer := Attempt(cfg, s, u, f).1;
      var loaded := !cfg.readOnly && f.loads;
      && (answer == Err(ReadOnlyMode) <==> cfg.readOnly)
      && (answer == Err(Database) <==> !cfg.readOnly && !f.loads)
      && (answer == Err(NotFound) <==> loaded && u !in s.rows)
      && (answer == Err(NotARefund) <==> loaded && u in s.rows && s.rows[u].ref == NoRef)
      && (loaded && u in s.rows && s.rows[u].ref != NoRef && s.rows[u].linkId != 0 ==> answer == Err(AlreadyLinked(s.rows[u].linkId)))
      && (answer == Err(NotPushed) <==>
            && loaded && u in s.rows && s.rows[u].ref != NoRef && s.rows[u].linkId == 0
            && (!s.rows[u].pushed || s.rows[u].txnId == 0))
  {
  }

  // Whether the purchase is in Firefly: a journal named by its id, or a staged row pushed under one.
  predicate IsOriginal(rows: map<Uuid, Row>, ref: Ref, original: int) {
    || ref == JournalRef(original)
    || (ref.FoldRef? && ref.uuid in rows && rows[ref.uuid].pushed && rows[ref.uuid].txnId == original && original != 0)
  }

  lemma LinkAnswersExactlyWhen(cfg: Config, s: Sys, u: Uuid, f: Faults)
    requires IdsFine(s) && !cfg.readOnly && f.loads && u in s.rows && s.rows[u].ref != NoRef && s.rows[u].linkId == 0
    requires s.rows[u].pushed && s.rows[u].txnId != 0
    ensures var (after, answer) := Attempt(cfg, s, u, f);
      && (answer == Err(OriginalNotInFirefly) <==> forall original :: !IsOriginal(s.rows, s.rows[u].ref, original))
      && (answer == Err(RefundsItself) <==> IsOriginal(s.rows, s.rows[u].ref, s.rows[u].txnId))
      && (forall original | IsOriginal(s.rows, s.rows[u].ref, original) && original != s.rows[u].txnId ::
            && (answer == Err(TypeUnknown) <==> !s.typeKnown && !f.types)
            && (s.typeKnown || f.types ==>
                  var seen := if f.lists then Listed(s.links, cfg.refundType, s.rows[u].txnId, original) else None;
                  if seen.Some? then
                    answer == (if f.records then Ok(seen.value) else Err(NotRecorded)) && after.links == s.links
                  else if f.create == LinkMade then
                    && answer == (if f.records then Ok(s.nextLink) else Err(NotRecorded))
                    && after.links == s.links + [Link(s.nextLink, cfg.refundType, s.rows[u].txnId, original)]
                    && after.nextLink == s.nextLink + 1
                  else
                    && answer == Err(CreateFailed)
                    && after.links == s.links + (if f.create == LinkRefused then [] else
                         [Link(s.nextLink, cfg.refundType, s.rows[u].txnId, original)])))
      && (answer.Ok? ==> after.rows == s.rows[u := s.rows[u].(linkId := answer.value)])
      && (answer.Err? ==> after.rows == s.rows)
  {
    assert forall original :: IsOriginal(s.rows, s.rows[u].ref, original) <==> OriginalJournal(s.rows, s.rows[u].ref) == Some(original);
    var resolved := OriginalJournal(s.rows, s.rows[u].ref);
    if resolved.Some? {
      assert IsOriginal(s.rows, s.rows[u].ref, resolved.value);
    }
  }
}
