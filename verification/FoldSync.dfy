// The gap-fill sync (fold_sync.go): walk fold.money's pages newest first until they cross the
// newest date Firefly has, staging what is new and refreshing what is not.
module FoldSync {
  import opened Staging
  import opened Wrappers

  // A transaction as fold reports it; its time when the text parses.
  datatype Txn = Txn(
    uuid: Uuid, amount: real, currency: string, sourceAmount: real, sourceCurrency: string,
    time: Option<int>, mode: string, direction: string, narration: string)

  // raw is the transaction's own bytes off the wire, empty when the client had none.
  datatype Item = Item(txn: Txn, raw: string)

  datatype Page = Page(items: seq<Item>, after: string)

  // Fold's answer to the n-th request, made with a cursor; None is a failed call.
  type Server = (nat, string) -> Option<Page>

  datatype Money = Money(paise: int, currency: string, foreignPaise: Option<int>, foreignCurrency: Option<string>)

  datatype StagedRow = StagedRow(raw: string, money: Money, time: int, mode: string, direction: string, narration: string, status: Status)

  type Table = map<Uuid, StagedRow>

  datatype Stop = Unstopped | CutoffReached | HardCap | Exhausted

  // What the walk counts about the transactions it handles.
  datatype Tally = Tally(inserted: nat, skipped: nat, rawRefreshed: nat, moneyRefreshed: nat)
  {
    function Handled(): nat { inserted + skipped }
  }

  datatype Report = Report(tally: Tally, fetched: nat, pages: nat, stoppedAt: Stop)

  const NOTHING_YET := Report(Tally(0, 0, 0, 0), 0, 0, Unstopped)

  datatype SyncError = BadLimit | CutoffUnread | ListFailed | BadTimestamp | NoCurrency | CommitFailed

  // encode is the JSON of the typed transaction, the fallback when the wire bytes are missing.
  datatype Config = Config(cutoff: Option<int>, maxTotal: int, encode: Txn -> string)

  // ---- one transaction ------------------------------------------------------------------------

  // Round half up at the paisa; the direction column carries the sign.
  function AmountToPaise(a: real): int {
    ((if a < 0.0 then -a else a) * 100.0 + 0.5).Floor
  }

  lemma RoundsToTheNearestPaisa(a: real)
    ensures var exact := (if a < 0.0 then -a else a) * 100.0;
      AmountToPaise(a) >= 0 && exact - 0.5 < AmountToPaise(a) as real <= exact + 0.5
  {
    assert (if a < 0.0 then -a else a) * 100.0 >= 0.0;
  }

  function FoldMoney(t: Txn): Money {
    var (primary, currency) := if t.currency == "" then (t.sourceAmount, t.sourceCurrency) else (t.amount, t.currency);
    var foreign := t.sourceCurrency != "" && t.sourceCurrency != currency;
    Money(AmountToPaise(primary), currency,
          if foreign then Some(AmountToPaise(t.sourceAmount)) else None,
          if foreign then Some(t.sourceCurrency) else None)
  }

  // Within half a paisa of what fold reported, whatever its sign.
  predicate NearestPaisa(paise: int, reported: real) {
    paise >= 0 && (if reported < 0.0 then -reported else reported) * 100.0 - 0.5 < paise as real
    && paise as real <= (if reported < 0.0 then -reported else reported) * 100.0 + 0.5
  }

  // The money of a row is fold's home amount, or its source amount where there is no home currency;
  // a source amount in another currency stands beside it.
  predicate MoneyOf(t: Txn, money: Money) {
    && (t.currency != "" ==> money.currency == t.currency && NearestPaisa(money.paise, t.amount))
    && (t.currency == "" ==> money.currency == t.sourceCurrency && NearestPaisa(money.paise, t.sourceAmount))
    && (money.foreignCurrency.Some? <==> t.currency != "" && t.sourceCurrency != "" && t.sourceCurrency != t.currency)
    && (money.foreignPaise.Some? <==> money.foreignCurrency.Some?)
    && (money.foreignCurrency.Some? ==>
          money.foreignCurrency.value == t.sourceCurrency && NearestPaisa(money.foreignPaise.value, t.sourceAmount))
  }

  lemma FoldMoneyIsFolds(t: Txn)
    ensures MoneyOf(t, FoldMoney(t))
  {
    RoundsToTheNearestPaisa(t.amount);
    RoundsToTheNearestPaisa(t.sourceAmount);
  }

  function RawPayload(cfg: Config, t: Txn, raw: string): string {
    if raw != "" then raw else cfg.encode(t)
  }

  // The envelope a refresh falls back to holds the uuid alone.
  function Bare(u: Uuid): Txn { Txn(u, 0.0, "", 0.0, "", None, "", "", "") }

  // What one transaction does to the row under its uuid.
  datatype Change = Change(row: Option<StagedRow>, inserted: bool, rawRefreshed: bool, moneyRefreshed: bool)

  function Staged(cfg: Config, item: Item): StagedRow
    requires item.txn.time.Some?
  {
    var t := item.txn;
    StagedRow(RawPayload(cfg, t, item.raw), FoldMoney(t), t.time.value, t.mode, t.direction, t.narration, Pending)
  }

  // Insert-or-ignore, then, for a row already there, the two refreshes. The currency column
  // may not be null: a transaction without one is ignored by the insert, and fails the update.
  function Applied(cfg: Config, existing: Option<StagedRow>, item: Item): Result<Change, SyncError> {
    if item.txn.time.None? then Err(BadTimestamp)
    else
      var money := FoldMoney(item.txn);
      match existing
      case None =>
        if money.currency == "" then Ok(Change(None, false, false, false))
        else Ok(Change(Some(Staged(cfg, item)), true, false, false))
      case Some(row) =>
        var raw := RawPayload(cfg, Bare(item.txn.uuid), item.raw);
        var renewed := row.(raw := raw);
        if Settled(row.status) || row.money == money then Ok(Change(Some(renewed), false, row.raw != raw, false))
        else if money.currency == "" then Err(NoCurrency)
        else Ok(Change(Some(renewed.(money := money)), false, row.raw != raw, true))
  }

  function Lookup(rows: Table, u: Uuid): Option<StagedRow> { if u in rows then Some(rows[u]) else None }

  function Stored(rows: Table, u: Uuid, row: Option<StagedRow>): Table {
    if row.None? then rows else rows[u := row.value]
  }

  function Counted(tally: Tally, c: Change): Tally {
    Tally(tally.inserted + (if c.inserted then 1 else 0),
          tally.skipped + (if c.inserted then 0 else 1),
          tally.rawRefreshed + (if c.rawRefreshed then 1 else 0),
          tally.moneyRefreshed + (if c.moneyRefreshed then 1 else 0))
  }

  // ---- a page, and a walk ----------------------------------------------------------------------------

  datatype Ending = RanOut | Crossed | Capped | Broke(error: SyncError)

  predicate AtOrBefore(cfg: Config, t: Txn) { cfg.cutoff.Some? && t.time.Some? && t.time.value <= cfg.cutoff.value }

  function OverPage(cfg: Config, rows: Table, tally: Tally, items: seq<Item>): (end: (Table, Tally, Ending))
    ensures end.2.RanOut? ==> end.1.Handled() == tally.Handled() + |items|
    ensures end.2.RanOut? && items != [] ==> end.1.Handled() < cfg.maxTotal
    ensures tally.Handled() < cfg.maxTotal ==> end.1.Handled() <= cfg.maxTotal
    decreases |items|
  {
    if items == [] then (rows, tally, RanOut)
    else if AtOrBefore(cfg, items[0].txn) then (rows, tally, Crossed)
    else match Applied(cfg, Lookup(rows, items[0].txn.uuid), items[0])
      case Err(error) => (rows, tally, Broke(error))
      case Ok(change) =>
        var rows', tally' := Stored(rows, items[0].txn.uuid, change.row), Counted(tally, change);
        if tally'.Handled() >= cfg.maxTotal then (rows', tally', Capped)
        else OverPage(cfg, rows', tally', items[1..])
  }

  // One page: the report says why the walk stops there, or that it goes on.
  function AfterPage(cfg: Config, rows: Table, report: Report, page: Page): (next: Result<(Table, Report), SyncError>)
    ensures next.Ok? && report.tally.Handled() < cfg.maxTotal ==>
      && next.value.1.tally.Handled() <= cfg.maxTotal && next.value.1.pages == report.pages + 1
      && (next.value.1.stoppedAt == Unstopped ==> report.tally.Handled() < next.value.1.tally.Handled() < cfg.maxTotal)
  {
    var pages, fetched := report.pages + 1, report.fetched + |page.items|;
    if page.items == [] then Ok((rows, Report(report.tally, fetched, pages, Exhausted)))
    else
      var (rows', tally, ending) := OverPage(cfg, rows, report.tally, page.items);
      match ending
      case Broke(error) => Err(error)
      case Capped => Ok((rows', Report(tally, fetched, pages, HardCap)))
      case Crossed => Ok((rows', Report(tally, fetched, pages, CutoffReached)))
      case RanOut => Ok((rows', Report(tally, fetched, pages, if page.after == "" then Exhausted else Unstopped)))
  }

  function Walk(cfg: Config, server: Server, rows: Table, report: Report, cursor: string): Result<(Table, Report), SyncError>
    requires report.tally.Handled() < cfg.maxTotal
    decreases cfg.maxTotal - report.tally.Handled()
  {
    match server(report.pages, cursor)
    case None => Err(ListFailed)
    case Some(page) =>
      match AfterPage(cfg, rows, report, page)
      case Err(error) => Err(error)
      case Ok((rows', report')) =>
        if report'.stoppedAt != Unstopped then Ok((rows', report'))
        else Walk(cfg, server, rows', report', page.after)
  }

  // The whole call: the answer, and the table it leaves.
  function Outcome(cfg: Config, cutoffRead: bool, server: Server, rows: Table, commits: bool): (Result<Report, SyncError>, Table) {
    if cfg.maxTotal <= 0 then (Err(BadLimit), rows)
    else if !cutoffRead then (Err(CutoffUnread), rows)
    else match Walk(cfg, server, rows, NOTHING_YET, "")
      case Err(error) => (Err(error), rows)
      case Ok((rows', report)) => if commits then (Ok(report), rows') else (Err(CommitFailed), rows)
  }

  class FoldSyncer {
    var rows: Table

    constructor (rows: Table)
      ensures this.rows == rows
    {
      this.rows := rows;
    }

    // SyncSinceFirefly: everything is written in one transaction, so an error leaves the table
    // as it was.
    method SyncSinceFirefly(cfg: Config, cutoffRead: bool, server: Server, commits: bool)
      returns (result: Result<Report, SyncError>)
      modifies this
      ensures (result, rows) == Outcome(cfg, cutoffRead, server, old(rows), commits)
    {
      if cfg.maxTotal <= 0 {
        return Err(BadLimit);
      }
      if !cutoffRead {
        return Err(CutoffUnread);
      }
      var tx, report, error := WalkPages(cfg, rows, server, NOTHING_YET, "");
      if error.Some? {
        return Err(error.value);
      }
      if !commits {
        return Err(CommitFailed);
      }
      rows := tx;
      return Ok(report);
    }

    // The loop over the pages, from a report that has not stopped.
    static method WalkPages(cfg: Config, before: Table, server: Server, start: Report, first: string)
      returns (tx: Table, report: Report, error: Option<SyncError>)
      requires start.tally.Handled() < cfg.maxTotal && start.stoppedAt == Unstopped
      ensures (if error.Some? then Err(error.value) else Ok((tx, report))) == Walk(cfg, server, before, start, first)
    {
      var cursor := first;
      tx, report, error := before, start, None;
      ghost var whole := Walk(cfg, server, before, start, first);
      while report.stoppedAt == Unstopped
        invariant error.None?
        invariant report.stoppedAt == Unstopped ==>
          report.tally.Handled() < cfg.maxTotal && whole == Walk(cfg, server, tx, report, cursor)
        invariant report.stoppedAt != Unstopped ==> whole == Ok((tx, report))
        decreases report.stoppedAt == Unstopped, cfg.maxTotal - report.tally.Handled()
      {
        var response := server(report.pages, cursor);
        if response.None? {
          error := Some(ListFailed);
          return;
        }
        tx, report, error := HandlePage(cfg, tx, report, response.value);
        if error.Some? {
          return;
        }
        cursor := response.value.after;
      }
    }

    // One page of the walk. With an error the table and the report are dropped.
    static method HandlePage(cfg: Config, before: Table, earlier: Report, page: Page)
      returns (tx: Table, report: Report, error: Option<SyncError>)
      ensures (if error.Some? then Err(error.value) else Ok((tx, report))) == AfterPage(cfg, before, earlier, page)
    {
      tx, error := before, None;
      report := Report(earlier.tally, earlier.fetched + |page.items|, earlier.pages + 1, Unstopped);
      if |page.items| == 0 {
        report := report.(stoppedAt := Exhausted);
        return;
      }
      var tally := earlier.tally;
      for i := 0 to |page.items|
        invariant error.None? && report == Report(earlier.tally, earlier.fetched + |page.items|, earlier.pages + 1, Unstopped)
        invariant OverPage(cfg, before, earlier.tally, page.items) == OverPage(cfg, tx, tally, page.items[i..])
      {
        if AtOrBefore(cfg, page.items[i].txn) {
          report := report.(tally := tally, stoppedAt := CutoffReached);
          return;
        }
        tx, tally, error := HandleOne(cfg, tx, tally, page.items[i]);
        if error.Some? {
          return;
        }
        if tally.inserted + tally.skipped >= cfg.maxTotal {
          report := report.(tally := tally, stoppedAt := HardCap);
          return;
        }
      }
      report := report.(tally := tally, stoppedAt := if page.after == "" then Exhausted else Unstopped);
    }

    // One transaction: insertStaged, then refreshRawPayload and refreshMoney for a row that was there.
    static method HandleOne(cfg: Config, before: Table, earlier: Tally, item: Item)
      returns (tx: Table, tally: Tally, error: Option<SyncError>)
      ensures match Applied(cfg, Lookup(before, item.txn.uuid), item)
        case Err(e) => error == Some(e)
        case Ok(change) => error.None? && tx == Stored(before, item.txn.uuid, change.row) && tally == Counted(earlier, change)
    {
      var t := item.txn;
      tx, tally, error := before, earlier, None;
      if t.time.None? {
        error := Some(BadTimestamp);
        return;
      }
      var money := FoldMoney(t);
      if t.uuid !in tx && money.currency != "" {
        tx := tx[t.uuid := Staged(cfg, item)];
        tally := tally.(inserted := tally.inserted + 1);
        return;
      }
      tally := tally.(skipped := tally.skipped + 1);
      if t.uuid in tx {
        var row := tx[t.uuid];
        var raw := RawPayload(cfg, Bare(t.uuid), item.raw);
        if row.raw != raw {
          tally := tally.(rawRefreshed := tally.rawRefreshed + 1);
        }
        tx := tx[t.uuid := row.(raw := raw)];
        if !Settled(row.status) && row.money != money {
          if money.currency == "" {
            error := Some(NoCurrency);
            return;
          }
          tx := tx[t.uuid := row.(raw := raw, money := money)];
          tally := tally.(moneyRefreshed := tally.moneyRefreshed + 1);
        }
      }
    }
  }

  // ---- against any server -------------------------------------------------------------------------

  // How many pages a walk asks for, whether it ends well or not.
  function Requests(cfg: Config, server: Server, rows: Table, report: Report, cursor: string): nat
    requires report.tally.Handled() < cfg.maxTotal
    decreases cfg.maxTotal - report.tally.Handled()
  {
    match server(report.pages, cursor)
    case None => 1
    case Some(page) =>
      match AfterPage(cfg, rows, report, page)
      case Err(_) => 1
      case Ok((rows', report')) =>
        if report'.stoppedAt != Unstopped then 1 else 1 + Requests(cfg, server, rows', report', page.after)
  }

  // A walk asks for at most maxTotal pages and handles at most maxTotal transactions.
  lemma {:induction false} WalkIsBounded(cfg: Config, server: Server, rows: Table, report: Report, cursor: string)
    requires report.tally.Handled() < cfg.maxTotal
    ensures Requests(cfg, server, rows, report, cursor) <= cfg.maxTotal - report.tally.Handled()
    ensures var end := Walk(cfg, server, rows, report, cursor);
      end.Ok? ==> end.value.1.tally.Handled() <= cfg.maxTotal
                  && end.value.1.pages == report.pages + Requests(cfg, server, rows, report, cursor)
    decreases cfg.maxTotal - report.tally.Handled()
  {
    var response := server(report.pages, cursor);
    if response.Some? {
      var next := AfterPage(cfg, rows, report, response.value);
      if next.Ok? && next.value.1.stoppedAt == Unstopped {
        WalkIsBounded(cfg, server, next.value.0, next.value.1, response.value.after);
      }
    }
  }

  // A staged row stays, with every column a sync does not own, and a pushed or skipped one
  // with its money too.
  predicate Preserves(rows: Table, rows': Table) {
    forall u | u in rows ::
      && u in rows' && rows'[u] == rows[u].(raw := rows'[u].raw, money := rows'[u].money)
      && (Settled(rows[u].status) ==> rows'[u].money == rows[u].money)
  }

  lemma {:induction false} PagePreserves(cfg: Config, rows: Table, tally: Tally, items: seq<Item>)
    ensures Preserves(rows, OverPage(cfg, rows, tally, items).0)
    decreases |items|
  {
    if items != [] && !AtOrBefore(cfg, items[0].txn) {
      var u := items[0].txn.uuid;
      var change := Applied(cfg, Lookup(rows, u), items[0]);
      if change.Ok? {
        var rows' := Stored(rows, u, change.value.row);
        assert Preserves(rows, rows');
        PagePreserves(cfg, rows', Counted(tally, change.value), items[1..]);
      }
    }
  }

  lemma {:induction false} WalkPreserves(cfg: Config, server: Server, rows: Table, report: Report, cursor: string)
    requires report.tally.Handled() < cfg.maxTotal
    ensures var end := Walk(cfg, server, rows, report, cursor); end.Ok? ==> Preserves(rows, end.value.0)
    decreases cfg.maxTotal - report.tally.Handled()
  {
    var response := server(report.pages, cursor);
    if response.Some? {
      PagePreserves(cfg, rows, report.tally, response.value.items);
      var next := AfterPage(cfg, rows, report, response.value);
      if next.Ok? && next.value.1.stoppedAt == Unstopped {
        WalkPreserves(cfg, server, next.value.0, next.value.1, response.value.after);
      }
    }
  }

  // ---- against a newest-first source ---------------------------------------------------------------

  function HandleAll(cfg: Config, rows: Table, tally: Tally, items: seq<Item>): Result<(Table, Tally), SyncError>
    decreases |items|
  {
    if items == [] then Ok((rows, tally))
    else match Applied(cfg, Lookup(rows, items[0].txn.uuid), items[0])
      case Err(error) => Err(error)
      case Ok(change) => HandleAll(cfg, Stored(rows, items[0].txn.uuid, change.row), Counted(tally, change), items[1..])
  }

  // The transactions before the first one the cutoff covers, up to the room there is.
  function Reach(cfg: Config, feed: seq<Item>, room: nat): (k: nat)
    ensures k <= |feed| && k <= room
  {
    if feed == [] || room == 0 || AtOrBefore(cfg, feed[0].txn) then 0 else 1 + Reach(cfg, feed[1..], room - 1)
  }

  ghost predicate NewestFirst(feed: seq<Item>) {
    && (forall i | 0 <= i < |feed| :: feed[i].txn.time.Some?)
    && forall i, j | 0 <= i < j < |feed| :: feed[i].txn.time.value >= feed[j].txn.time.value
  }

  // A server that pages through the feed: a cursor stands for a position in it.
  ghost predicate Serves(server: Server, feed: seq<Item>, position: string -> nat) {
    && position("") == 0
    && forall n, cursor | position(cursor) <= |feed| :: ServesPage(server(n, cursor), feed, position, position(cursor))
  }

  predicate ServesPage(response: Option<Page>, feed: seq<Item>, position: string -> nat, p: nat)
    requires p <= |feed|
  {
    && response.Some?
    && var page := response.value;
    && p + |page.items| <= |feed| && page.items == feed[p..p + |page.items|]
    && (page.items == [] ==> p == |feed|)
    && (if page.after == "" then p + |page.items| == |feed| else position(page.after) == p + |page.items|)
  }

  // In a newest-first feed, what is within reach is exactly what is newer and within the room.
  lemma {:induction false} ReachIsTheNewer(cfg: Config, feed: seq<Item>, room: nat, i: nat)
    requires NewestFirst(feed) && i < |feed|
    ensures i < Reach(cfg, feed, room) <==> i < room && !AtOrBefore(cfg, feed[i].txn)
    ensures Reach(cfg, feed, room) < room ==> (i < Reach(cfg, feed, room) <==> !AtOrBefore(cfg, feed[i].txn))
  {
    if room > 0 && !AtOrBefore(cfg, feed[0].txn) && i > 0 {
      assert NewestFirst(feed[1..]);
      ReachIsTheNewer(cfg, feed[1..], room - 1, i - 1);
    }
  }

  lemma {:induction false} ReachSplits(cfg: Config, a: seq<Item>, b: seq<Item>, room: nat)
    ensures var k := Reach(cfg, a, room);
      Reach(cfg, a + b, room) == if k < |a| || k == room then k else |a| + Reach(cfg, b, room - |a|)
  {
    if a == [] {
      assert a + b == b;
    } else if room > 0 && !AtOrBefore(cfg, a[0].txn) {
      assert (a + b)[1..] == a[1..] + b;
      ReachSplits(cfg, a[1..], b, room - 1);
    }
  }

  lemma {:induction false} HandleAllSplits(cfg: Config, rows: Table, tally: Tally, a: seq<Item>, b: seq<Item>)
    ensures var first := HandleAll(cfg, rows, tally, a);
      HandleAll(cfg, rows, tally, a + b) == if first.Err? then first else HandleAll(cfg, first.value.0, first.value.1, b)
    decreases |a|
  {
    if a == [] {
      assert a + b == b;
    } else {
      assert (a + b)[0] == a[0] && (a + b)[1..] == a[1..] + b;
      var change := Applied(cfg, Lookup(rows, a[0].txn.uuid), a[0]);
      if change.Ok? {
        HandleAllSplits(cfg, Stored(rows, a[0].txn.uuid, change.value.row), Counted(tally, change.value), a[1..], b);
      }
    }
  }

  lemma {:induction false} HandleAllCounts(cfg: Config, rows: Table, tally: Tally, items: seq<Item>)
    ensures var end := HandleAll(cfg, rows, tally, items);
      end.Ok? ==> end.value.1.Handled() == tally.Handled() + |items|
    decreases |items|
  {
    if items != [] {
      var change := Applied(cfg, Lookup(rows, items[0].txn.uuid), items[0]);
      if change.Ok? {
        HandleAllCounts(cfg, Stored(rows, items[0].txn.uuid, change.value.row), Counted(tally, change.value), items[1..]);
      }
    }
  }

  // What a walk over this much of the feed should come to, and why it should stop.
  function Expected(cfg: Config, rows: Table, tally: Tally, rest: seq<Item>): Result<(Table, Tally, Stop), SyncError>
    requires tally.Handled() < cfg.maxTotal
  {
    var room := cfg.maxTotal - tally.Handled();
    var k := Reach(cfg, rest, room);
    match HandleAll(cfg, rows, tally, rest[..k])
    case Err(error) => Err(error)
    case Ok((rows', tally')) =>
      Ok((rows', tally', if k == room then HardCap else if k < |rest| then CutoffReached else Exhausted))
  }

  function EndingFor(stop: Stop): Ending { if stop == HardCap then Capped else if stop == CutoffReached then Crossed else RanOut }

  lemma HandleAllSteps(cfg: Config, rows: Table, tally: Tally, items: seq<Item>, k: nat)
    requires 0 < k <= |items|
    ensures var first := Applied(cfg, Lookup(rows, items[0].txn.uuid), items[0]);
      HandleAll(cfg, rows, tally, items[..k])
      == if first.Err? then Err(first.error)
         else HandleAll(cfg, Stored(rows, items[0].txn.uuid, first.value.row), Counted(tally, first.value), items[1..][..k - 1])
  {
    assert items[..k][0] == items[0] && items[..k][1..] == items[1..][..k - 1];
  }

  // The walk's next transaction: one step of what is expected.
  lemma ExpectedStep(cfg: Config, rows: Table, tally: Tally, items: seq<Item>)
    requires tally.Handled() < cfg.maxTotal && items != [] && !AtOrBefore(cfg, items[0].txn)
    ensures var first := Applied(cfg, Lookup(rows, items[0].txn.uuid), items[0]);
      if first.Err? then Expected(cfg, rows, tally, items) == Err(first.error)
      else
        var rows', tally' := Stored(rows, items[0].txn.uuid, first.value.row), Counted(tally, first.value);
        if tally'.Handled() == cfg.maxTotal then Expected(cfg, rows, tally, items) == Ok((rows', tally', HardCap))
        else Expected(cfg, rows, tally, items) == Expected(cfg, rows', tally', items[1..])
  {
    var room := cfg.maxTotal - tally.Handled();
    HandleAllSteps(cfg, rows, tally, items, Reach(cfg, items, room));
    if room == 1 {
      assert Reach(cfg, items[1..], 0) == 0 && items[1..][..0] == [];
    }
  }

  lemma {:induction false} PageMeets(cfg: Config, rows: Table, tally: Tally, items: seq<Item>)
    requires tally.Handled() < cfg.maxTotal
    ensures match Expected(cfg, rows, tally, items)
      case Err(error) => OverPage(cfg, rows, tally, items).2 == Broke(error)
      case Ok((rows', tally', stop)) => OverPage(cfg, rows, tally, items) == (rows', tally', EndingFor(stop))
    decreases |items|
  {
    if items != [] && !AtOrBefore(cfg, items[0].txn) {
      ExpectedStep(cfg, rows, tally, items);
      var first := Applied(cfg, Lookup(rows, items[0].txn.uuid), items[0]);
      if first.Ok? && Counted(tally, first.value).Handled() < cfg.maxTotal {
        PageMeets(cfg, Stored(rows, items[0].txn.uuid, first.value.row), Counted(tally, first.value), items[1..]);
      }
    }
  }

  lemma AfterPageMeets(cfg: Config, rows: Table, report: Report, page: Page)
    requires report.tally.Handled() < cfg.maxTotal && page.items != []
    ensures match Expected(cfg, rows, report.tally, page.items)
      case Err(error) => AfterPage(cfg, rows, report, page) == Err(error)
      case Ok((rows', tally', stop)) =>
        AfterPage(cfg, rows, report, page)
        == Ok((rows', Report(tally', report.fetched + |page.items|, report.pages + 1,
                             if stop == Exhausted && page.after != "" then Unstopped else stop)))
  {
    PageMeets(cfg, rows, report.tally, page.items);
  }

  // A page within reach leaves the rest of the feed to the rest of the walk.
  lemma ExpectedContinues(cfg: Config, rows: Table, tally: Tally, items: seq<Item>, later: seq<Item>, rows': Table, tally': Tally)
    requires tally.Handled() < cfg.maxTotal && tally'.Handled() < cfg.maxTotal
    requires Expected(cfg, rows, tally, items) == Ok((rows', tally', Exhausted))
    ensures Expected(cfg, rows, tally, items + later) == Expected(cfg, rows', tally', later)
  {
    var room := cfg.maxTotal - tally.Handled();
    assert items[..|items|] == items;
    assert Reach(cfg, items, room) == |items| && HandleAll(cfg, rows, tally, items) == Ok((rows', tally'));
    HandleAllCounts(cfg, rows, tally, items);
    ReachSplits(cfg, items, later, room);
    var k := Reach(cfg, later, room - |items|);
    HandleAllReaches(cfg, rows, tally, items, later, k, rows', tally');
  }

  lemma HandleAllReaches(cfg: Config, rows: Table, tally: Tally, items: seq<Item>, later: seq<Item>, k: nat, rows': Table, tally': Tally)
    requires k <= |later| && HandleAll(cfg, rows, tally, items) == Ok((rows', tally'))
    ensures HandleAll(cfg, rows, tally, (items + later)[..|items| + k]) == HandleAll(cfg, rows', tally', later[..k])
  {
    TakeBeyond(items, later, k);
    HandleAllSplits(cfg, rows, tally, items, later[..k]);
  }

  lemma TakeBeyond(a: seq<Item>, b: seq<Item>, k: nat)
    requires k <= |b|
    ensures (a + b)[..|a| + k] == a + b[..k]
  {
  }

  // A page that crosses the cutoff, fills the room or fails settles the walk.
  lemma ExpectedStops(cfg: Config, rows: Table, tally: Tally, items: seq<Item>, later: seq<Item>)
    requires tally.Handled() < cfg.maxTotal
    requires Expected(cfg, rows, tally, items).Ok? ==> Expected(cfg, rows, tally, items).value.2 != Exhausted
    ensures Expected(cfg, rows, tally, items + later) == Expected(cfg, rows, tally, items)
  {
    var room := cfg.maxTotal - tally.Handled();
    var k := Reach(cfg, items, room);
    ReachSplits(cfg, items, later, room);
    assert (items + later)[..k] == items[..k];
    if k == |items| && k < room {
      var more := Reach(cfg, later, room - k);
      TakeBeyond(items, later, more);
      assert items[..k] == items;
      HandleAllSplits(cfg, rows, tally, items, later[..more]);
    }
  }

  predicate Meets(end: Result<(Table, Report), SyncError>, expected: Result<(Table, Tally, Stop), SyncError>) {
    match expected
    case Err(error) => end == Err(error)
    case Ok((rows, tally, stop)) =>
      end.Ok? && end.value.0 == rows && end.value.1.tally == tally && end.value.1.stoppedAt == stop
  }

  lemma {:induction false} WalkMeets(cfg: Config, server: Server, feed: seq<Item>, position: string -> nat,
                                     rows: Table, report: Report, cursor: string)
    requires Serves(server, feed, position) && position(cursor) <= |feed|
    requires report.tally.Handled() < cfg.maxTotal
    ensures Meets(Walk(cfg, server, rows, report, cursor), Expected(cfg, rows, report.tally, feed[position(cursor)..]))
    decreases cfg.maxTotal - report.tally.Handled()
  {
    var p := position(cursor);
    var response := server(report.pages, cursor);
    assert ServesPage(response, feed, position, p);
    var page := response.value;
    var later := feed[p + |page.items|..];
    assert feed[p..] == page.items + later;
    if page.items != [] {
      AfterPageMeets(cfg, rows, report, page);
      var next := AfterPage(cfg, rows, report, page);
      if next.Ok? && next.value.1.stoppedAt == Unstopped {
        ExpectedContinues(cfg, rows, report.tally, page.items, later, next.value.0, next.value.1.tally);
        WalkMeets(cfg, server, feed, position, next.value.0, next.value.1, page.after);
      } else if page.after == "" {
        assert page.items + later == page.items;
      } else {
        ExpectedStops(cfg, rows, report.tally, page.items, later);
      }
    }
  }

  predicate HasCurrency(t: Txn) { t.currency != "" || t.sourceCurrency != "" }

  // A transaction without any currency is passed over by the insert: what is staged is what
  // was, and what comes with a currency.
  lemma {:induction false} StagedExactly(cfg: Config, rows: Table, tally: Tally, items: seq<Item>, u: Uuid)
    ensures var end := HandleAll(cfg, rows, tally, items);
      end.Ok? ==> (u in end.value.0 <==> u in rows || exists i | 0 <= i < |items| :: items[i].txn.uuid == u && HasCurrency(items[i].txn))
    decreases |items|
  {
    if items != [] {
      var first := Applied(cfg, Lookup(rows, items[0].txn.uuid), items[0]);
      if first.Ok? {
        StagedExactly(cfg, Stored(rows, items[0].txn.uuid, first.value.row), Counted(tally, first.value), items[1..], u);
        assert forall i | 0 <= i < |items| - 1 :: items[1..][i] == items[i + 1];
        assert (exists i | 0 <= i < |items| :: items[i].txn.uuid == u && HasCurrency(items[i].txn))
          <==> (items[0].txn.uuid == u && HasCurrency(items[0].txn))
               || exists i | 0 <= i < |items| - 1 :: items[1..][i].txn.uuid == u && HasCurrency(items[1..][i].txn);
      }
    }
  }

  // A walk about to begin.
  predicate AtTheStart(start: Report, cursor: string, position: string -> nat) {
    start.tally == Tally(0, 0, 0, 0) && position(cursor) == 0
  }

  // A walk over the whole feed handles its reach, in order.
  lemma WalkOverFeed(cfg: Config, server: Server, feed: seq<Item>, position: string -> nat,
                     start: Report, cursor: string, rows: Table, end: Result<(Table, Report), SyncError>)
    requires cfg.maxTotal > 0 && Serves(server, feed, position) && AtTheStart(start, cursor, position)
    requires Walk(cfg, server, rows, start, cursor) == end
    ensures CoversReach(cfg, rows, start.tally, feed, end)
  {
    WalkMeets(cfg, server, feed, position, rows, start, cursor);
    assert feed[position(cursor)..] == feed;
    MeetingCovers(cfg, rows, start.tally, feed, end);
  }

  predicate CoversReach(cfg: Config, rows: Table, zero: Tally, feed: seq<Item>, end: Result<(Table, Report), SyncError>)
    requires cfg.maxTotal > 0
  {
    var k := Reach(cfg, feed, cfg.maxTotal);
    var handled := HandleAll(cfg, rows, zero, feed[..k]);
    if handled.Err? then end == Err(handled.error)
    else
      && end.Ok? && end.value.0 == handled.value.0 && end.value.1.tally == handled.value.1
      && handled.value.1.Handled() == k
      && end.value.1.stoppedAt == if k == cfg.maxTotal then HardCap else if k < |feed| then CutoffReached else Exhausted
  }

  lemma MeetingCovers(cfg: Config, rows: Table, zero: Tally, feed: seq<Item>, end: Result<(Table, Report), SyncError>)
    requires cfg.maxTotal > 0 && zero == Tally(0, 0, 0, 0) && Meets(end, Expected(cfg, rows, zero, feed))
    ensures CoversReach(cfg, rows, zero, feed, end)
  {
    HandleAllCounts(cfg, rows, zero, feed[..Reach(cfg, feed, cfg.maxTotal)]);
  }

  // What a walk that ended well handled.
  lemma HandledPrefix(cfg: Config, server: Server, feed: seq<Item>, position: string -> nat,
                      start: Report, cursor: string, rows: Table, rows': Table, report: Report)
    requires cfg.maxTotal > 0 && Serves(server, feed, position) && AtTheStart(start, cursor, position)
    requires Walk(cfg, server, rows, start, cursor) == Ok((rows', report))
    ensures var k := Reach(cfg, feed, cfg.maxTotal);
      && report.tally.Handled() == k && HandleAll(cfg, rows, start.tally, feed[..k]) == Ok((rows', report.tally))
      && report.stoppedAt == if k == cfg.maxTotal then HardCap else if k < |feed| then CutoffReached else Exhausted
  {
    WalkOverFeed(cfg, server, feed, position, start, cursor, rows, Ok((rows', report)));
  }

  // Newer than the cutoff, where there is one.
  predicate NewerThan(cutoff: Option<int>, time: int) { cutoff.Some? ==> time > cutoff.value }

  lemma ReachInNumbers(cfg: Config, feed: seq<Item>, k: nat, i: nat)
    requires cfg.maxTotal > 0 && NewestFirst(feed) && k == Reach(cfg, feed, cfg.maxTotal) && i < |feed|
    ensures i < k <==> i < cfg.maxTotal && NewerThan(cfg.cutoff, feed[i].txn.time.value)
    ensures k < cfg.maxTotal && NewerThan(cfg.cutoff, feed[i].txn.time.value) ==> i < k
  {
    ReachIsTheNewer(cfg, feed, cfg.maxTotal, i);
  }

  // Against a newest-first source the walk handles exactly the newest transactions, down to
  // the cutoff or up to maxTotal of them, and says hard_cap exactly in the second case.
  lemma CatchesUp(cfg: Config, server: Server, feed: seq<Item>, position: string -> nat,
                  start: Report, cursor: string, rows: Table, rows': Table, report: Report)
    requires cfg.maxTotal > 0 && NewestFirst(feed) && Serves(server, feed, position) && AtTheStart(start, cursor, position)
    requires Walk(cfg, server, rows, start, cursor) == Ok((rows', report))
    ensures report.tally.Handled() <= |feed|
    ensures report.stoppedAt == HardCap <==> report.tally.Handled() == cfg.maxTotal
    ensures forall i | 0 <= i < |feed| ::
      i < report.tally.Handled() <==> i < cfg.maxTotal && NewerThan(cfg.cutoff, feed[i].txn.time.value)
    ensures report.stoppedAt == CutoffReached || report.stoppedAt == Exhausted ==>
      forall i | 0 <= i < |feed| :: i < report.tally.Handled() <==> NewerThan(cfg.cutoff, feed[i].txn.time.value)
    ensures report.stoppedAt in {CutoffReached, HardCap, Exhausted}
  {
    HandledPrefix(cfg, server, feed, position, start, cursor, rows, rows', report);
    var k := Reach(cfg, feed, cfg.maxTotal);
    forall i | 0 <= i < |feed| ensures
      && (i < k <==> i < cfg.maxTotal && NewerThan(cfg.cutoff, feed[i].txn.time.value))
      && (k < cfg.maxTotal ==> (i < k <==> NewerThan(cfg.cutoff, feed[i].txn.time.value)))
    {
      ReachInNumbers(cfg, feed, k, i);
    }
  }

  // What is staged then is what was there, and what was handled with a currency: once caught
  // up, a newer transaction is missing exactly when it has none and no row had its uuid.
  lemma StagesTheNewer(cfg: Config, server: Server, feed: seq<Item>, position: string -> nat,
                       start: Report, cursor: string, rows: Table, rows': Table, report: Report, i: nat)
    requires cfg.maxTotal > 0 && NewestFirst(feed) && OneRowEach(feed)
    requires Serves(server, feed, position) && AtTheStart(start, cursor, position)
    requires Walk(cfg, server, rows, start, cursor) == Ok((rows', report))
    requires i < |feed| && NewerThan(cfg.cutoff, feed[i].txn.time.value) && report.stoppedAt != HardCap
    ensures feed[i].txn.uuid in rows' <==> feed[i].txn.currency != "" || feed[i].txn.sourceCurrency != "" || feed[i].txn.uuid in rows
  {
    HandledPrefix(cfg, server, feed, position, start, cursor, rows, rows', report);
    ReachIsTheNewer(cfg, feed, cfg.maxTotal, i);
    StagedAt(cfg, rows, start.tally, feed, Reach(cfg, feed, cfg.maxTotal), rows', report.tally, i);
  }

  lemma StagedAt(cfg: Config, rows: Table, tally: Tally, feed: seq<Item>, k: nat, rows': Table, tally': Tally, i: nat)
    requires OneRowEach(feed) && i < k <= |feed| && HandleAll(cfg, rows, tally, feed[..k]) == Ok((rows', tally'))
    ensures feed[i].txn.uuid in rows' <==> HasCurrency(feed[i].txn) || feed[i].txn.uuid in rows
  {
    var handled := feed[..k];
    StagedExactly(cfg, rows, tally, handled, feed[i].txn.uuid);
    assert handled[i] == feed[i];
    forall j | 0 <= j < k && handled[j].txn.uuid == feed[i].txn.uuid ensures j == i {
      assert handled[j] == feed[j];
    }
  }

  ghost predicate OneRowEach(items: seq<Item>) {
    forall i, j | 0 <= i < j < |items| :: items[i].txn.uuid != items[j].txn.uuid
  }

  // A transaction without any currency, whose row fold's money may still reach and differs.
  predicate Unwritable(existing: Option<StagedRow>, item: Item) {
    existing.Some? && !HasCurrency(item.txn) && !Settled(existing.value.status) && existing.value.money != FoldMoney(item.txn)
  }

  lemma {:induction false} BreaksExactlyWhen(cfg: Config, rows: Table, tally: Tally, items: seq<Item>)
    requires OneRowEach(items) && forall i | 0 <= i < |items| :: items[i].txn.time.Some?
    ensures var end := HandleAll(cfg, rows, tally, items);
      if exists i | 0 <= i < |items| :: Unwritable(Lookup(rows, items[i].txn.uuid), items[i])
      then end == Err(NoCurrency) else end.Ok?
    decreases |items|
  {
    if items != [] {
      var u := items[0].txn.uuid;
      var first := Applied(cfg, Lookup(rows, u), items[0]);
      assert first == Err(NoCurrency) <==> Unwritable(Lookup(rows, u), items[0]);
      if first.Ok? {
        var next := Stored(rows, u, first.value.row);
        BreaksExactlyWhen(cfg, next, Counted(tally, first.value), items[1..]);
        forall i | 0 < i < |items| ensures
          Unwritable(Lookup(next, items[i].txn.uuid), items[i]) <==> Unwritable(Lookup(rows, items[i].txn.uuid), items[i])
        {
          assert items[i].txn.uuid != u;
        }
        assert forall i | 0 <= i < |items| - 1 :: items[1..][i] == items[i + 1];
        if i :| 0 <= i < |items| && Unwritable(Lookup(rows, items[i].txn.uuid), items[i]) {
          assert items[1..][i - 1] == items[i];
        }
      }
    }
  }

  // The other end of a missing currency: against a newest-first source a walk fails over one
  // exactly when, among the transactions it would handle, some has none, has a row neither pushed
  // nor skipped, and differs from that row in its money. With no such one the walk ends well.
  lemma FailsForACurrencyExactlyWhen(cfg: Config, server: Server, feed: seq<Item>, position: string -> nat,
                                     start: Report, cursor: string, rows: Table, end: Result<(Table, Report), SyncError>)
    requires cfg.maxTotal > 0 && NewestFirst(feed) && OneRowEach(feed)
    requires Serves(server, feed, position) && AtTheStart(start, cursor, position)
    requires Walk(cfg, server, rows, start, cursor) == end
    ensures end == Err(NoCurrency) <==>
      exists i | 0 <= i < |feed| && i < cfg.maxTotal ::
        NewerThan(cfg.cutoff, feed[i].txn.time.value) && Unwritable(Lookup(rows, feed[i].txn.uuid), feed[i])
    ensures end != Err(NoCurrency) ==> end.Ok?
  {
    var k := Reach(cfg, feed, cfg.maxTotal);
    WalkOverFeed(cfg, server, feed, position, start, cursor, rows, end);
    BreaksExactlyWhen(cfg, rows, start.tally, feed[..k]);
    ReachedAreTheNewer(cfg, feed, rows, k);
  }

  lemma ReachedAreTheNewer(cfg: Config, feed: seq<Item>, rows: Table, k: nat)
    requires cfg.maxTotal > 0 && NewestFirst(feed) && k == Reach(cfg, feed, cfg.maxTotal)
    ensures (exists i | 0 <= i < |feed[..k]| :: Unwritable(Lookup(rows, feed[..k][i].txn.uuid), feed[..k][i]))
      <==> exists i | 0 <= i < |feed| && i < cfg.maxTotal ::
        NewerThan(cfg.cutoff, feed[i].txn.time.value) && Unwritable(Lookup(rows, feed[i].txn.uuid), feed[i])
  {
    forall i | 0 <= i < |feed| ensures i < k <==> i < cfg.maxTotal && NewerThan(cfg.cutoff, feed[i].txn.time.value) {
      ReachInNumbers(cfg, feed, k, i);
    }
    if i :| 0 <= i < |feed[..k]| && Unwritable(Lookup(rows, feed[..k][i].txn.uuid), feed[..k][i]) {
      assert feed[..k][i] == feed[i];
    }
    if i :| 0 <= i < |feed| && i < k && Unwritable(Lookup(rows, feed[i].txn.uuid), feed[i]) {
      assert feed[..k][i] == feed[i];
    }
  }

  // ---- a second run ----------------------------------------------------------------------------------

  // With one transaction per uuid, handling them all is handling each on its own row.
  lemma {:induction false} EachOnItsOwn(cfg: Config, rows: Table, tally: Tally, items: seq<Item>, rows': Table, tally': Tally, u: Uuid)
    requires OneRowEach(items) && HandleAll(cfg, rows, tally, items) == Ok((rows', tally'))
    ensures (forall i | 0 <= i < |items| :: items[i].txn.uuid != u) ==> Lookup(rows', u) == Lookup(rows, u)
    ensures forall i | 0 <= i < |items| && items[i].txn.uuid == u ::
      Applied(cfg, Lookup(rows, u), items[i]).Ok? && Lookup(rows', u) == Applied(cfg, Lookup(rows, u), items[i]).value.row
    decreases |items|
  {
    if items != [] {
      var first := Applied(cfg, Lookup(rows, items[0].txn.uuid), items[0]).value;
      var next := Stored(rows, items[0].txn.uuid, first.row);
      assert forall i | 0 <= i < |items| - 1 :: items[1..][i] == items[i + 1];
      EachOnItsOwn(cfg, next, Counted(tally, first), items[1..], rows', tally', u);
      if items[0].txn.uuid == u {
        assert forall i | 0 <= i < |items| - 1 :: items[1..][i].txn.uuid != u;
        assert Lookup(next, u) == first.row;
      } else {
        assert Lookup(next, u) == Lookup(rows, u);
      }
    }
  }

  // A transaction staged by this run without its wire bytes: the insert wrote the typed
  // transaction, and a refresh would write the bare envelope over it.
  predicate Thins(cfg: Config, existing: Option<StagedRow>, item: Item) {
    existing.None? && HasCurrency(item.txn) && item.raw == "" && cfg.encode(Bare(item.txn.uuid)) != cfg.encode(item.txn)
  }

  const UNTOUCHED: Option<StagedRow> -> Change := row => Change(row, false, false, false)

  lemma AppliedTwice(cfg: Config, existing: Option<StagedRow>, item: Item)
    requires Applied(cfg, existing, item).Ok?
    ensures var once := Applied(cfg, existing, item).value.row;
      && (Applied(cfg, once, item) == Ok(UNTOUCHED(once)) <==> !Thins(cfg, existing, item))
      && (Applied(cfg, once, item).Ok? && Applied(cfg, once, item).value.row == once <==> !Thins(cfg, existing, item))
  {
  }

  lemma {:induction false} NothingToDo(cfg: Config, rows: Table, tally: Tally, items: seq<Item>)
    requires forall i | 0 <= i < |items| ::
      Applied(cfg, Lookup(rows, items[i].txn.uuid), items[i]) == Ok(UNTOUCHED(Lookup(rows, items[i].txn.uuid)))
    ensures HandleAll(cfg, rows, tally, items) == Ok((rows, tally.(skipped := tally.skipped + |items|)))
    decreases |items|
  {
    if items != [] {
      assert Stored(rows, items[0].txn.uuid, Lookup(rows, items[0].txn.uuid)) == rows;
      NothingToDo(cfg, rows, tally.(skipped := tally.skipped + 1), items[1..]);
    }
  }

  // Handling the same transactions again changes no row and refreshes nothing exactly when
  // none of them was staged the first time without its wire bytes.
  lemma AgainChangesNothing(cfg: Config, rows: Table, items: seq<Item>, rows': Table, tally': Tally, zero: Tally)
    requires OneRowEach(items) && HandleAll(cfg, rows, zero, items) == Ok((rows', tally'))
    ensures var again := HandleAll(cfg, rows', zero, items);
      && (again == Ok((rows', zero.(skipped := zero.skipped + |items|)))
          <==> forall i | 0 <= i < |items| :: !Thins(cfg, Lookup(rows, items[i].txn.uuid), items[i]))
      && (again.Ok? && again.value.0 == rows'
          <==> forall i | 0 <= i < |items| :: !Thins(cfg, Lookup(rows, items[i].txn.uuid), items[i]))
  {
    var again := HandleAll(cfg, rows', zero, items);
    forall i | 0 <= i < |items| ensures
      var u := items[i].txn.uuid;
      && Applied(cfg, Lookup(rows, u), items[i]).Ok? && Lookup(rows', u) == Applied(cfg, Lookup(rows, u), items[i]).value.row
      && (again.Ok? ==> Applied(cfg, Lookup(rows', u), items[i]).Ok?
                        && Lookup(again.value.0, u) == Applied(cfg, Lookup(rows', u), items[i]).value.row)
    {
      EachOnItsOwn(cfg, rows, zero, items, rows', tally', items[i].txn.uuid);
      if again.Ok? {
        EachOnItsOwn(cfg, rows', zero, items, again.value.0, again.value.1, items[i].txn.uuid);
      }
    }
    forall i | 0 <= i < |items| ensures
      var once := Lookup(rows', items[i].txn.uuid);
      && (Applied(cfg, once, items[i]) == Ok(UNTOUCHED(once)) <==> !Thins(cfg, Lookup(rows, items[i].txn.uuid), items[i]))
      && (Applied(cfg, once, items[i]).Ok? && Applied(cfg, once, items[i]).value.row == once
          <==> !Thins(cfg, Lookup(rows, items[i].txn.uuid), items[i]))
    {
      AppliedTwice(cfg, Lookup(rows, items[i].txn.uuid), items[i]);
    }
    if forall i | 0 <= i < |items| :: !Thins(cfg, Lookup(rows, items[i].txn.uuid), items[i]) {
      NothingToDo(cfg, rows', zero, items);
    }
  }

  // A second sync of unchanged upstream data, over the table the first left, changes nothing
  // exactly when everything the first one staged came with its wire bytes.
  lemma SecondSyncChangesNothing(cfg: Config, server: Server, feed: seq<Item>, position: string -> nat,
                                 start: Report, cursor: string, rows: Table, rows': Table, report: Report,
                                 again: Result<(Table, Report), SyncError>)
    requires cfg.maxTotal > 0 && OneRowEach(feed) && Serves(server, feed, position) && AtTheStart(start, cursor, position)
    requires Walk(cfg, server, rows, start, cursor) == Ok((rows', report))
    requires Walk(cfg, server, rows', start, cursor) == again
    ensures report.tally.Handled() <= |feed|
    ensures ChangesNothing(again, rows', report)
      <==> forall i | 0 <= i < report.tally.Handled() :: !Thins(cfg, Lookup(rows, feed[i].txn.uuid), feed[i])
  {
    WalkOverFeed(cfg, server, feed, position, start, cursor, rows, Ok((rows', report)));
    WalkOverFeed(cfg, server, feed, position, start, cursor, rows', again);
    AgainOverFeed(cfg, feed, start.tally, rows, rows', report, again);
  }

  predicate ChangesNothing(again: Result<(Table, Report), SyncError>, rows: Table, report: Report) {
    && again.Ok? && again.value.0 == rows && again.value.1.tally == Tally(0, report.tally.Handled(), 0, 0)
    && again.value.1.stoppedAt == report.stoppedAt
  }

  lemma AgainOverFeed(cfg: Config, feed: seq<Item>, zero: Tally, rows: Table, rows': Table, report: Report,
                      again: Result<(Table, Report), SyncError>)
    requires cfg.maxTotal > 0 && OneRowEach(feed) && zero == Tally(0, 0, 0, 0)
    requires CoversReach(cfg, rows, zero, feed, Ok((rows', report))) && CoversReach(cfg, rows', zero, feed, again)
    ensures report.tally.Handled() <= |feed|
    ensures ChangesNothing(again, rows', report)
      <==> forall i | 0 <= i < report.tally.Handled() :: !Thins(cfg, Lookup(rows, feed[i].txn.uuid), feed[i])
  {
    var k := Reach(cfg, feed, cfg.maxTotal);
    AgainChangesNothing(cfg, rows, feed[..k], rows', report.tally, zero);
    assert forall i | 0 <= i < k :: feed[..k][i] == feed[i];
  }

  // Every row handled, unless it is pushed or skipped, ends with the money fold reports now, and
  // every one with the wire bytes it came with. A new one is as fold tells it, and pending; an old
  // one keeps everything else.
  lemma HandledMoneyIsCurrent(cfg: Config, rows: Table, items: seq<Item>, rows': Table, tally: Tally, tally': Tally, i: nat)
    requires OneRowEach(items) && HandleAll(cfg, rows, tally, items) == Ok((rows', tally')) && i < |items|
    ensures var t := items[i].txn;
      && (t.uuid in rows' <==> t.uuid in rows || t.currency != "" || t.sourceCurrency != "")
      && (t.uuid in rows' ==>
            var row := rows'[t.uuid];
            && (row.status != Pushed && row.status != Skipped ==> MoneyOf(t, row.money))
            && (items[i].raw != "" ==> row.raw == items[i].raw)
            && (t.uuid !in rows ==>
                  && row.status == Pending && Some(row.time) == t.time
                  && row.mode == t.mode && row.direction == t.direction && row.narration == t.narration
                  && (items[i].raw == "" ==> row.raw == cfg.encode(t)))
            && (t.uuid in rows ==>
                  && row.status == rows[t.uuid].status && row.time == rows[t.uuid].time && row.mode == rows[t.uuid].mode
                  && row.direction == rows[t.uuid].direction && row.narration == rows[t.uuid].narration
                  && (row.status == Pushed || row.status == Skipped ==> row.money == rows[t.uuid].money)
                  && (items[i].raw == "" ==> row.raw == cfg.encode(Txn(t.uuid, 0.0, "", 0.0, "", None, "", "", "")))))
  {
    EachOnItsOwn(cfg, rows, tally, items, rows', tally', items[i].txn.uuid);
    FoldMoneyIsFolds(items[i].txn);
  }

  // What the report counts, of a transaction against the rows before it: staged; a staged row's
  // payload not what is kept of the bytes that came; its money not fold's, where fold may set it.
  datatype Sort = NewRow | RawDiffers | MoneyDiffers

  predicate Counts(cfg: Config, rows: Table, sort: Sort, item: Item) {
    var t := item.txn;
    match sort
    case NewRow => t.uuid !in rows && (t.currency != "" || t.sourceCurrency != "")
    case RawDiffers =>
      t.uuid in rows
      && rows[t.uuid].raw != if item.raw != "" then item.raw else cfg.encode(Txn(t.uuid, 0.0, "", 0.0, "", None, "", "", ""))
    case MoneyDiffers =>
      t.uuid in rows && rows[t.uuid].status != Pushed && rows[t.uuid].status != Skipped && rows[t.uuid].money != FoldMoney(t)
  }

  function CountOf(cfg: Config, rows: Table, sort: Sort, items: seq<Item>): nat {
    if items == [] then 0 else (if Counts(cfg, rows, sort, items[0]) then 1 else 0) + CountOf(cfg, rows, sort, items[1..])
  }

  // Another row is judged as before.
  lemma {:induction false} OthersCountAsBefore(cfg: Config, rows: Table, u: Uuid, row: Option<StagedRow>, sort: Sort, items: seq<Item>)
    requires forall i | 0 <= i < |items| :: items[i].txn.uuid != u
    ensures CountOf(cfg, Stored(rows, u, row), sort, items) == CountOf(cfg, rows, sort, items)
  {
    if items != [] {
      OthersCountAsBefore(cfg, rows, u, row, sort, items[1..]);
    }
  }

  // The report counts what was done: rows staged, transactions that staged none, payloads and money
  // of staged rows rewritten.
  lemma {:induction false} TallyCounts(cfg: Config, rows: Table, tally: Tally, items: seq<Item>, rows': Table, tally': Tally)
    requires OneRowEach(items) && HandleAll(cfg, rows, tally, items) == Ok((rows', tally'))
    ensures tally'.inserted == tally.inserted + CountOf(cfg, rows, NewRow, items)
    ensures tally'.Handled() == tally.Handled() + |items|
    ensures tally'.rawRefreshed == tally.rawRefreshed + CountOf(cfg, rows, RawDiffers, items)
    ensures tally'.moneyRefreshed == tally.moneyRefreshed + CountOf(cfg, rows, MoneyDiffers, items)
    decreases |items|
  {
    if items != [] {
      var u := items[0].txn.uuid;
      var change := Applied(cfg, Lookup(rows, u), items[0]).value;
      AppliedCounts(cfg, rows, items[0], change);
      assert OneRowEach(items[1..]);
      TallyCounts(cfg, Stored(rows, u, change.row), Counted(tally, change), items[1..], rows', tally');
      OthersCountAsBefore(cfg, rows, u, change.row, NewRow, items[1..]);
      OthersCountAsBefore(cfg, rows, u, change.row, RawDiffers, items[1..]);
      OthersCountAsBefore(cfg, rows, u, change.row, MoneyDiffers, items[1..]);
    }
  }

  lemma AppliedCounts(cfg: Config, rows: Table, item: Item, change: Change)
    requires Applied(cfg, Lookup(rows, item.txn.uuid), item) == Ok(change)
    ensures change.inserted <==> Counts(cfg, rows, NewRow, item)
    ensures change.rawRefreshed <==> Counts(cfg, rows, RawDiffers, item)
    ensures change.moneyRefreshed <==> Counts(cfg, rows, MoneyDiffers, item)
  {
  }

  // A sync answers with the walk's report, and commits its table, only when asked for a positive
  // number, able to read the cutoff, and able to commit; whatever else happens the table stays.
  lemma SyncAnswersExactlyWhen(cfg: Config, cutoffRead: bool, server: Server, rows: Table, commits: bool,
                               start: Report, end: Result<(Table, Report), SyncError>)
    requires start == NOTHING_YET && (cfg.maxTotal > 0 ==> Walk(cfg, server, rows, start, "") == end)
    ensures var (answer, after) := Outcome(cfg, cutoffRead, server, rows, commits);
      && (answer == Err(BadLimit) <== cfg.maxTotal <= 0)
      && (cfg.maxTotal > 0 && !cutoffRead ==> answer == Err(CutoffUnread))
      && (cfg.maxTotal > 0 && cutoffRead ==>
            answer == if end.Err? then Err(end.error) else if commits then Ok(end.value.1) else Err(CommitFailed))
      && after == if answer.Ok? then end.value.0 else rows
  {
  }

  // The first condition bites: a transaction with no currency is handled and never staged.
  lemma CurrencylessIsLost(cfg: Config, u: Uuid)
    ensures var item := Item(Txn(u, 70.0, "", 0.0, "", Some(5), "UPI", "OUTGOING", "TEA"), "{}");
      HandleAll(cfg, map[], Tally(0, 0, 0, 0), [item]) == Ok((map[], Tally(0, 1, 0, 0)))
  {
    var item := Item(Txn(u, 70.0, "", 0.0, "", Some(5), "UPI", "OUTGOING", "TEA"), "{}");
    assert HandleAll(cfg, map[], Tally(0, 1, 0, 0), [item][1..]) == Ok((map[], Tally(0, 1, 0, 0)));
  }

  // So does the second: staged without its wire bytes, a transaction is rewritten by the next run.
  lemma MissingBytesAreThinned(u: Uuid)
    ensures var cfg := Config(None, 10, (t: Txn) => t.narration);
      var item := Item(Txn(u, 70.0, "INR", 70.0, "INR", Some(5), "UPI", "OUTGOING", "TEA"), "");
      var once := HandleAll(cfg, map[], Tally(0, 0, 0, 0), [item]);
      once.Ok? && !(HandleAll(cfg, once.value.0, Tally(0, 0, 0, 0), [item]).Ok?
                    && HandleAll(cfg, once.value.0, Tally(0, 0, 0, 0), [item]).value.0 == once.value.0)
  {
    var cfg := Config(None, 10, (t: Txn) => t.narration);
    var item := Item(Txn(u, 70.0, "INR", 70.0, "INR", Some(5), "UPI", "OUTGOING", "TEA"), "");
    var change := Applied(cfg, None, item).value;
    var rows := Stored(map[], u, change.row);
    assert HandleAll(cfg, rows, Counted(Tally(0, 0, 0, 0), change), [item][1..]).Ok?;
    AgainChangesNothing(cfg, map[], [item], rows, Counted(Tally(0, 0, 0, 0), change), Tally(0, 0, 0, 0));
    assert Thins(cfg, None, item);
    assert Lookup(map[], [item][0].txn.uuid) == None;
  }
}
