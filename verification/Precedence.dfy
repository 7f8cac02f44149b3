// What a person decided wins: the request push would build for a row (push.go), and every step
// by which the engine rewrites the row meanwhile (fold_sync.go, classifier.go, resuggest.go,
// refund.go, repair.go).
module Precedence {
  import opened Staging
  import opened Wrappers
  import opened Text
  import opened TxnType
  import Decimal
  import Money
  import RefundLink
  import Repair

  // What fold reported, and keeps reporting.
  datatype Reported = Reported(paise: int, currency: string, foreignPaise: Option<int>, foreignCurrency: string)

  // A person's columns; a name, a text or a type not given is "".
  datatype Chosen = Chosen(
    category: Option<int>, budget: Option<int>, title: string, tags: string, txnType: string,
    paise: Option<int>, foreignPaise: Option<int>, time: Option<int>, refundOf: Option<RefundLink.Ref>)

  // The classifier's columns; the sides' are in the stored sides, beside the person's.
  datatype Proposal = Proposal(
    category: Option<int>, budget: Option<int>, title: string, tags: string, txnType: string, refundOf: Option<RefundLink.Ref>)

  datatype Hold = NoHold | ByPerson(reason: string) | ByFold(reason: string)

  // A staged row. released: a person has let go of a hold of fold's before.
  datatype Row = Row(
    uuid: Uuid, direction: string, narration: string, merchant: string, time: int, manual: bool,
    status: Status, reported: Reported, raw: string,
    src: StoredSide, dst: StoredSide, chosen: Chosen, proposed: Proposal,
    hold: Hold, released: bool)

  // ---- what push sends ---------------------------------------------------------------------

  datatype Line = Line(
    kind: Kind, time: int, amount: string, currency: string, foreign: Option<(string, string)>,
    title: string, category: int, budget: int, tags: string, source: Side, destination: Side,
    externalId: Uuid, notes: string)

  function PickInt(confirmed: Option<int>, proposed: Option<int>): int {
    if confirmed.Some? then confirmed.value else if proposed.Some? then proposed.value else 0
  }

  function Title(r: Row): string {
    var picked := if r.chosen.title != "" then r.chosen.title else r.proposed.title;
    if picked != "" then picked else if r.merchant != "" then r.merchant else r.narration
  }

  function ForeignSent(r: Row): Option<(string, string)> {
    var paise := if r.chosen.foreignPaise.Some? then r.chosen.foreignPaise else r.reported.foreignPaise;
    if r.reported.foreignCurrency != "" && r.reported.foreignCurrency != r.reported.currency && paise.Some?
    then Some((Money.PaiseToDecimal(paise.value), r.reported.foreignCurrency)) else None
  }

  function Sides(m: Mirror, r: Row): LineSides {
    BuiltSides(m, r.direction, r.chosen.txnType, r.proposed.txnType, PushSide(r.src), PushSide(r.dst))
  }

  // buildCreateRequest.
  function Built(m: Mirror, r: Row): Line {
    var sides := Sides(m, r);
    Line(sides.kind,
         if r.chosen.time.Some? then r.chosen.time.value else r.time,
         Money.PaiseToDecimal(if r.chosen.paise.Some? then r.chosen.paise.value else r.reported.paise),
         r.reported.currency, ForeignSent(r), Title(r),
         PickInt(r.chosen.category, r.proposed.category), PickInt(r.chosen.budget, r.proposed.budget),
         r.chosen.tags, sides.source, sides.destination, r.uuid, r.narration)
  }

  function OwnSent(r: Row, line: Line): Side { Own(r.direction, line.source, line.destination) }

  function OtherSent(r: Row, line: Line): Side { Other(r.direction, line.source, line.destination) }

  // ---- the engine's steps ------------------------------------------------------------------------

  datatype Tier = HumanReview | Model | Refund | Lookup

  datatype Decision = Decision(
    tier: Tier, confidence: real, srcId: Option<int>, srcName: string, dstId: Option<int>, dstName: string,
    proposal: Proposal, hold: string)

  // Money that fold reports anew reaches a row that is neither pushed nor skipped.
  function Refreshed(r: Row, reported: Reported): Row {
    if Settled(r.status) then r else r.(reported := reported)
  }

  predicate CreatesAnAccount(d: Decision) {
    (d.dstId.None? && !Blank(d.dstName)) || (d.srcId.None? && !Blank(d.srcName))
  }

  // ApplyDecision. An empty set of tags keeps the old ones; fold's hold lands only where there
  // is none, and never where a person has let one go.
  function Decided(r: Row, d: Decision, threshold: real): Row {
    r.(status := if d.tier == HumanReview || d.confidence < threshold || CreatesAnAccount(d) then NeedsReview else ReadyToPush,
       src := r.src.(propId := d.srcId, propName := Trim(d.srcName)),
       dst := r.dst.(propId := d.dstId, propName := if d.dstId.None? then Trim(d.dstName) else ""),
       proposed := d.proposal.(tags := if d.proposal.tags != "" then d.proposal.tags else r.proposed.tags),
       hold := if d.hold != "" && r.hold.NoHold? && !r.released then ByFold(d.hold) else r.hold)
  }

  // resetToPending clears the proposals but for the sides' names.
  function Reset(r: Row): Row {
    r.(status := Pending, src := r.src.(propId := None), dst := r.dst.(propId := None),
       proposed := Proposal(None, None, "", "", "", None))
  }

  // Nothing on the row was chosen by a person.
  predicate NoHumanDecision(r: Row) {
    && r.hold.NoHold? && !r.manual
    && r.src.confId.None? && r.src.confName == "" && r.dst.confId.None? && r.dst.confName == ""
    && r.chosen.category.None? && r.chosen.budget.None? && r.chosen.title == "" && r.chosen.tags == ""
    && r.chosen.txnType == "" && r.chosen.refundOf.None?
  }

  // resuggestOne: only the model's or a refund's answer counts, and only while the row is still
  // nobody's; the model saying "no tags" means it.
  function Resuggested(r: Row, answer: Option<Decision>, threshold: real): Row {
    if answer.None? || (answer.value.tier != Model && answer.value.tier != Refund) || !NoHumanDecision(r) then r
    else
      var decided := Decided(r, answer.value, threshold);
      if answer.value.tier == Model && answer.value.proposal.tags == ""
      then decided.(proposed := decided.proposed.(tags := "")) else decided
  }

  function RefundProposed(r: Row, ref: RefundLink.Ref): Row {
    if r.proposed.refundOf.Some? then r else r.(proposed := r.proposed.(refundOf := Some(ref)))
  }

  // The columns RepairOwnAccounts reads, and what it makes of them.
  function Viewed(r: Row): Repair.Row {
    Repair.Row(r.direction, r.status, r.manual, r.chosen.txnType, r.proposed.txnType, r.src, r.dst)
  }

  function Repaired(r: Row, w: Repair.World, fold: Option<Account>): Row {
    var v := Repair.RepairRow(w, fold, Viewed(r)).0;
    r.(status := v.status, src := v.src, dst := v.dst, proposed := r.proposed.(txnType := v.propType))
  }

  class Table {
    var rows: map<Uuid, Row>
    const threshold: real

    constructor (rows: map<Uuid, Row>, threshold: real)
      ensures this.rows == rows && this.threshold == threshold
    {
      this.rows := rows;
      this.threshold := threshold;
    }

    method RefreshMoney(u: Uuid, reported: Reported) returns (changed: bool)
      modifies this
      ensures u !in old(rows) ==> rows == old(rows)
      ensures u in old(rows) ==> rows == old(rows)[u := Refreshed(old(rows)[u], reported)]
      ensures changed <==> rows != old(rows)
    {
      changed := false;
      if u in rows && !Settled(rows[u].status) && rows[u].reported != reported {
        rows := rows[u := rows[u].(reported := reported)];
        changed := true;
        assert rows[u] != old(rows)[u];
      } else if u in rows {
        assert rows == rows[u := Refreshed(rows[u], reported)];
      }
    }

    method ApplyDecision(u: Uuid, d: Decision)
      modifies this
      ensures rows == if u in old(rows) then old(rows)[u := Decided(old(rows)[u], d, threshold)] else old(rows)
    {
      if u !in rows {
        return;
      }
      var r := rows[u];
      var status := ReadyToPush;
      var newDestination := d.dstId.None? && !Blank(d.dstName);
      var newSource := d.srcId.None? && !Blank(d.srcName);
      if d.tier == HumanReview || d.confidence < threshold || newDestination || newSource {
        status := NeedsReview;
      }
      var proposedDst := if newDestination then Trim(d.dstName) else "";
      var hold := r.hold;
      if d.hold != "" && r.hold.NoHold? && !r.released {
        hold := ByFold(d.hold);
      }
      rows := rows[u := r.(
        status := status,
        src := StoredSide(r.src.confId, r.src.confName, d.srcId, Trim(d.srcName)),
        dst := StoredSide(r.dst.confId, r.dst.confName, d.dstId, proposedDst),
        proposed := d.proposal.(tags := if d.proposal.tags != "" then d.proposal.tags else r.proposed.tags),
        hold := hold)];
    }

    method ResetToPending(u: Uuid)
      modifies this
      ensures rows == if u in old(rows) then old(rows)[u := Reset(old(rows)[u])] else old(rows)
    {
      if u in rows {
        var r := rows[u];
        rows := rows[u := r.(
          status := Pending,
          src := StoredSide(r.src.confId, r.src.confName, None, r.src.propName),
          dst := StoredSide(r.dst.confId, r.dst.confName, None, r.dst.propName),
          proposed := Proposal(None, None, "", "", "", None))];
      }
    }

    method ResuggestOne(u: Uuid, answer: Option<Decision>) returns (applied: bool)
      modifies this
      ensures rows == if u in old(rows) then old(rows)[u := Resuggested(old(rows)[u], answer, threshold)] else old(rows)
      ensures applied ==> u in old(rows) && NoHumanDecision(old(rows)[u])
    {
      applied := false;
      if u !in rows || answer.None? || (answer.value.tier != Model && answer.value.tier != Refund) {
        assert u in rows ==> rows == rows[u := rows[u]];
        return;
      }
      if !NoHumanDecision(rows[u]) {
        assert rows == rows[u := rows[u]];
        return;
      }
      ApplyDecision(u, answer.value);
      if answer.value.tier == Model && answer.value.proposal.tags == "" {
        rows := rows[u := rows[u].(proposed := rows[u].proposed.(tags := ""))];
      }
      return true;
    }
  }

  // ---- every run ------------------------------------------------------------------------------------

  datatype Step =
    | RefreshMoney(reported: Reported)
    | RefreshRaw(bytes: string)
    | Classify(decision: Decision, threshold: real)
    | ResetRow
    | ClearTags                                      // a re-suggestion with no tags
    | MatchRefund(ref: RefundLink.Ref)
    | RepairOwn(world: Repair.World, fold: Option<Account>)
    | PersonHolds(reason: string, recorded: bool)    // a blank reason lets go

  predicate ByEngine(s: Step) { !s.PersonHolds? }

  function Exec(r: Row, s: Step): Row {
    match s
    case RefreshMoney(reported) => Refreshed(r, reported)
    case RefreshRaw(bytes) => r.(raw := bytes)
    case Classify(d, threshold) => Decided(r, d, threshold)
    case ResetRow => Reset(r)
    case ClearTags => r.(proposed := r.proposed.(tags := ""))
    case MatchRefund(ref) => RefundProposed(r, ref)
    case RepairOwn(w, fold) => Repaired(r, w, fold)
    case PersonHolds(reason, recorded) =>
      if Blank(reason) then r.(hold := NoHold, released := r.released || (r.hold.ByFold? && recorded))
      else r.(hold := ByPerson(Trim(reason)))
  }

  function Run(r: Row, steps: seq<Step>): Row
    decreases |steps|
  {
    if steps == [] then r else Run(Exec(r, steps[0]), steps[1..])
  }

  // resuggestOne checks the row and then writes, so in a run its two statements are steps of
  // their own, whatever came between the check and them.
  function ResuggestSteps(free: bool, answer: Option<Decision>, threshold: real): seq<Step> {
    if !free || answer.None? || (answer.value.tier != Model && answer.value.tier != Refund) then []
    else [Classify(answer.value, threshold)]
         + if answer.value.tier == Model && answer.value.proposal.tags == "" then [ClearTags] else []
  }

  lemma ResuggestingIsARun(r: Row, answer: Option<Decision>, threshold: real)
    ensures Run(r, ResuggestSteps(NoHumanDecision(r), answer, threshold)) == Resuggested(r, answer, threshold)
  {
    var steps := ResuggestSteps(NoHumanDecision(r), answer, threshold);
    if |steps| == 2 {
      RunTwo(r, steps[0], steps[1]);
      assert steps == [steps[0], steps[1]];
    } else if |steps| == 1 {
      assert Run(Exec(r, steps[0]), steps[1..]) == Exec(r, steps[0]);
    }
  }

  // Everything of a row but its sides that is a person's, the bank's or fixed.
  predicate SamePerson(r: Row, r': Row) {
    && r'.uuid == r.uuid && r'.direction == r.direction && r'.narration == r.narration && r'.merchant == r.merchant
    && r'.time == r.time && r'.manual == r.manual && r'.chosen == r.chosen
  }

  predicate SamePeople(r: Row, r': Row) { Repair.SidesKept(r.src, r.dst, r'.src, r'.dst) }

  // The one kind of step that may rewrite a side a person confirmed.
  predicate OverridesASide(r: Row, s: Step) { s.RepairOwn? && Repair.Overrides(s.world, s.fold, Viewed(r)) }

  predicate NeverOverridden(r: Row, steps: seq<Step>)
    decreases |steps|
  {
    steps != [] ==> !OverridesASide(r, steps[0]) && NeverOverridden(Exec(r, steps[0]), steps[1..])
  }

  ghost predicate MatchedFold(s: Step) { s.RepairOwn? ==> Repair.Matched(s.world, s.fold) }

  lemma OtherStepsKeepThePerson(r: Row, s: Step)
    requires !s.RepairOwn?
    ensures SamePerson(r, Exec(r, s)) && SamePeople(r, Exec(r, s))
  {
  }

  // A step leaves a person's columns alone, and the sides he confirmed exactly when it is not a
  // repair that overrides them.
  lemma StepKeepsThePerson(r: Row, s: Step)
    requires MatchedFold(s)
    ensures SamePerson(r, Exec(r, s))
    ensures SamePeople(r, Exec(r, s)) <==> !OverridesASide(r, s)
  {
    if s.RepairOwn? {
      Repair.RepairOverridesExactlyWhen(s.world, s.fold, Viewed(r));
    } else {
      OtherStepsKeepThePerson(r, s);
    }
  }

  lemma {:induction false} RunKeepsThePerson(r: Row, steps: seq<Step>)
    requires forall s | s in steps :: MatchedFold(s)
    ensures SamePerson(r, Run(r, steps))
    ensures NeverOverridden(r, steps) ==> SamePeople(r, Run(r, steps))
    decreases |steps|
  {
    if steps != [] {
      assert MatchedFold(steps[0]);
      StepKeepsThePerson(r, steps[0]);
      RunKeepsThePerson(Exec(r, steps[0]), steps[1..]);
    }
  }

  // Of two requests for one row, the columns a person decided are the same: the type, the
  // category, the budget, a title that is not empty, the tags, the amount, the foreign amount
  // where both send one, and the time.
  predicate ColumnsAlike(m: Mirror, r: Row, r': Row) {
    var line, line' := Built(m, r), Built(m, r');
    && (ParseKind(r.chosen.txnType).Some? ==> line'.kind == line.kind == ParseKind(r.chosen.txnType).value)
    && (r.chosen.category.Some? ==> line'.category == line.category == r.chosen.category.value)
    && (r.chosen.budget.Some? ==> line'.budget == line.budget == r.chosen.budget.value)
    && (r.chosen.title != "" ==> line'.title == line.title == r.chosen.title)
    && line'.tags == line.tags == r.chosen.tags
    && (r.chosen.paise.Some? ==> line'.amount == line.amount == Money.PaiseToDecimal(r.chosen.paise.value))
    && (r.chosen.foreignPaise.Some? && line.foreign.Some? && line'.foreign.Some? ==>
          line'.foreign.value.0 == line.foreign.value.0 == Money.PaiseToDecimal(r.chosen.foreignPaise.value))
    && line'.time == line.time
  }

  // And so are the own account and, once the type is decided, the other account.
  predicate AccountsAlike(m: Mirror, r: Row, r': Row) {
    var line, line' := Built(m, r), Built(m, r');
    && (Confirmed(Own(r.direction, r.src, r.dst)) ==> OwnSent(r, line') == OwnSent(r, line))
    && (Confirmed(Other(r.direction, r.src, r.dst)) && ParseKind(r.chosen.txnType).Some? ==>
          OtherSent(r, line') == OtherSent(r, line))
  }

  lemma ColumnsAreThePersons(m: Mirror, r: Row, r': Row)
    requires SamePerson(r, r')
    ensures ColumnsAlike(m, r, r')
  {
    ChosenTypeIsFinal(m, r.direction, r.chosen.txnType, r.proposed.txnType, PushSide(r.src), PushSide(r.dst));
    ChosenTypeIsFinal(m, r'.direction, r'.chosen.txnType, r'.proposed.txnType, PushSide(r'.src), PushSide(r'.dst));
  }

  lemma AccountsAreThePersons(m: Mirror, r: Row, r': Row)
    requires SamePerson(r, r') && SamePeople(r, r')
    ensures AccountsAlike(m, r, r')
  {
    ChosenSideStays(r.src, r'.src);
    ChosenSideStays(r.dst, r'.dst);
  }

  lemma ChosenSideStays(s: StoredSide, s': StoredSide)
    requires Repair.SideKept(s, s')
    ensures Confirmed(s) ==> PushSide(s') == PushSide(s)
  {
  }

  // Over any run of the engine's steps, and a person's holds, with the mirror as it is: the
  // columns whatever happens, the accounts unless a repair on the way overrode a confirmed side.
  lemma WhatAPersonDecidedIsSent(m: Mirror, r: Row, steps: seq<Step>)
    requires forall s | s in steps :: MatchedFold(s)
    ensures ColumnsAlike(m, r, Run(r, steps))
    ensures NeverOverridden(r, steps) ==> AccountsAlike(m, r, Run(r, steps))
  {
    RunKeepsThePerson(r, steps);
    ColumnsAreThePersons(m, r, Run(r, steps));
    if NeverOverridden(r, steps) {
      AccountsAreThePersons(m, r, Run(r, steps));
    }
  }

  // An overriding is no formality: a repair that changes a row always moves the own account that
  // is sent, confirmed or not, to fold's asset from something else.
  lemma RepairMovesTheOwnAccount(w: Repair.World, fold: Option<Account>, r: Row)
    requires Repair.Matched(w, fold) && Repair.RepairRow(w, fold, Viewed(r)).1.Some?
    ensures OwnSent(r, Built(w.mirror, Repaired(r, w, fold))) == Side(fold.value.id, "")
    ensures OwnSent(r, Built(w.mirror, r)) != Side(fold.value.id, "")
  {
    var r' := Repaired(r, w, fold);
    Repair.RepairedOwnSide(w, fold, Viewed(r));
    FindIsUnique(w.mirror, fold.value);
    assert PushSide(Own(r.direction, r'.src, r'.dst)) == Side(fold.value.id, "");
    var mine := PushSide(Own(r.direction, r.src, r.dst));
    assert SideAsset(w.mirror, mine).0 == 0;
  }

  // Such a row, as a person left it: paid by a shop, into the card.
  lemma RepairOverridesAPerson(w: Repair.World, fold: Account, v: Repair.Row)
    requires v.direction == "OUTGOING" && v.status == NeedsReview && !v.manual
    requires v.src == StoredSide(None, "B", None, "") && v.dst == StoredSide(Some(1), "", None, "")
    requires fold == Account(1, "A", "asset", true) && w.mirror == [fold]
    ensures Repair.Matched(w, Some(fold)) && Repair.RepairRow(w, Some(fold), v).1 == Some(Repair.SwappedOver)
    ensures Confirmed(Repair.OwnStored(v)) && Repair.Overrides(w, Some(fold), v)
  {
    TextsRead();
    assert w.mirror[1..] == [];
    assert NamedAsset(w.mirror, "B") == NamedAsset([], "B") == 0;
    assert PushSide(v.src) == Side(0, "B") && PushSide(v.dst) == Side(1, "");
    assert Own(v.direction, v.src, v.dst) == v.src;
  }

  // The other account needs the type: a chosen name that is also an asset's goes by that name
  // in a withdrawal, and by the asset once a proposal makes the row a transfer.
  lemma OtherAccountNeedsTheType(u: Uuid)
    ensures exists m: Mirror, r: Row, steps: seq<Step> ::
      ValidMirror(m) && Confirmed(Other(r.direction, r.src, r.dst)) && OtherSent(r, Built(m, Run(r, steps))) != OtherSent(r, Built(m, r))
  {
    var m, r, steps := NameBecomesAsset(u);
    assert ValidMirror(m) && Confirmed(Other(r.direction, r.src, r.dst)) && OtherSent(r, Built(m, Run(r, steps))) != OtherSent(r, Built(m, r));
  }

  lemma NameBecomesAsset(u: Uuid) returns (m: Mirror, r: Row, steps: seq<Step>)
    ensures ValidMirror(m) && Confirmed(Other(r.direction, r.src, r.dst))
    ensures OtherSent(r, Built(m, r)) == Side(0, "B") && OtherSent(r, Built(m, Run(r, steps))) == Side(2, "")
  {
    m := [Account(1, "A", "asset", true), Account(2, "B", "asset", true)];
    var nobody := Proposal(None, None, "", "", "", None);
    r := Row(u, "OUTGOING", "", "", 0, false, NeedsReview, Reported(1, "INR", None, ""), "",
                 StoredSide(None, "", None, ""), StoredSide(None, "B", None, ""),
                 Chosen(None, None, "", "", "", None, None, None, None), nobody, NoHold, false);
    steps := [Classify(Decision(Model, 1.0, Some(1), "", None, "", nobody, ""), 0.5)];
    var r' := Exec(r, steps[0]);
    assert Run(r', steps[1..]) == r';
    TextsRead();
    TwoWays(m);
    assert PushSide(r.dst) == Side(0, "B") && PushSide(r'.dst) == Side(0, "B");
    assert PushSide(r.src) == Side(0, "") && PushSide(r'.src) == Side(1, "");
    assert Run(r, steps) == r';
  }

  lemma TwoWays(m: Mirror)
    requires m == [Account(1, "A", "asset", true), Account(2, "B", "asset", true)]
    ensures BuiltSides(m, "OUTGOING", "", "", Side(0, ""), Side(0, "B")).destination == Side(0, "B")
    ensures BuiltSides(m, "OUTGOING", "", "", Side(1, ""), Side(0, "B")).destination == Side(2, "")
    ensures ValidMirror(m)
  {
    TextsRead();
    TwoAssets(m);
  }

  lemma TextsRead()
    ensures Trim("") == "" && Trim("B") == "B" && Trim("A") == "A"
    ensures !IsIncoming("OUTGOING") && ParseKind("").None? && !SameLetters("A", "B")
  {
    TrimOfTrimmed("A");
    TrimOfTrimmed("B");
    assert Lower("OUTGOING")[0] == 'o' && Lower("INCOMING")[0] == 'i';
    assert Lower("A")[0] == 'a' && Lower("B")[0] == 'b';
    assert |Lower(Trim(""))| == 0;
  }

  lemma TwoAssets(m: Mirror)
    requires m == [Account(1, "A", "asset", true), Account(2, "B", "asset", true)]
    ensures SideAsset(m, Side(1, "")) == (1, true) && SideAsset(m, Side(0, "B")) == (2, true) && SideAsset(m, Side(0, "")) == (0, true)
  {
    TextsRead();
    assert m[1..] == [Account(2, "B", "asset", true)];
    assert NamedAsset(m[1..], "B") == 2;
  }

  // ---- the line, from the row's own columns ----------------------------------------------------

  // What is sent reads back as the row's: the amount a person corrected, else the bank's, in the
  // home currency; the time likewise; the bank's own words as notes, under the row's uuid.
  lemma LineIsTheRows(m: Mirror, r: Row)
    ensures var line := Built(m, r);
      && (r.chosen.paise.Some? && 0 <= r.chosen.paise.value <= Decimal.MAX_INT64 ==>
            Money.DecimalToPaise(line.amount) == Ok(r.chosen.paise.value))
      && (r.chosen.paise.None? && 0 <= r.reported.paise <= Decimal.MAX_INT64 ==>
            Money.DecimalToPaise(line.amount) == Ok(r.reported.paise))
      && line.currency == r.reported.currency
      && (r.chosen.time.Some? ==> line.time == r.chosen.time.value) && (r.chosen.time.None? ==> line.time == r.time)
      && line.externalId == r.uuid && line.notes == r.narration && line.tags == r.chosen.tags
  {
    if r.chosen.paise.Some? && 0 <= r.chosen.paise.value <= Decimal.MAX_INT64 {
      Money.ReadsBackFromTheMirror(r.chosen.paise.value);
    }
    if r.chosen.paise.None? && 0 <= r.reported.paise <= Decimal.MAX_INT64 {
      Money.ReadsBackFromTheMirror(r.reported.paise);
    }
  }

  // A foreign amount goes along exactly when the charge was in another currency and its amount is
  // known, a person's total before the bank's.
  lemma ForeignIsTheRows(m: Mirror, r: Row)
    ensures var line := Built(m, r);
      && (line.foreign.Some? <==>
            && r.reported.foreignCurrency != "" && r.reported.foreignCurrency != r.reported.currency
            && (r.chosen.foreignPaise.Some? || r.reported.foreignPaise.Some?))
      && (line.foreign.Some? ==>
            && line.foreign.value.1 == r.reported.foreignCurrency
            && (r.chosen.foreignPaise.Some? && 0 <= r.chosen.foreignPaise.value <= Decimal.MAX_INT64 ==>
                  Money.DecimalToPaise(line.foreign.value.0) == Ok(r.chosen.foreignPaise.value))
            && (r.chosen.foreignPaise.None? && 0 <= r.reported.foreignPaise.value <= Decimal.MAX_INT64 ==>
                  Money.DecimalToPaise(line.foreign.value.0) == Ok(r.reported.foreignPaise.value)))
  {
    if r.chosen.foreignPaise.Some? && 0 <= r.chosen.foreignPaise.value <= Decimal.MAX_INT64 {
      Money.ReadsBackFromTheMirror(r.chosen.foreignPaise.value);
    }
    if r.reported.foreignPaise.Some? && 0 <= r.reported.foreignPaise.value <= Decimal.MAX_INT64 {
      Money.ReadsBackFromTheMirror(r.reported.foreignPaise.value);
    }
  }

  // The title goes by the first of four that is not empty, and a category or budget by a person's
  // choice, 0 standing for none, before the classifier's.
  lemma WordsAreTheRows(m: Mirror, r: Row)
    ensures var line := Built(m, r);
      && (r.chosen.title != "" ==> line.title == r.chosen.title)
      && (r.chosen.title == "" && r.proposed.title != "" ==> line.title == r.proposed.title)
      && (r.chosen.title == "" && r.proposed.title == "" && r.merchant != "" ==> line.title == r.merchant)
      && (r.chosen.title == "" && r.proposed.title == "" && r.merchant == "" ==> line.title == r.narration)
      && (r.chosen.category.Some? ==> line.category == r.chosen.category.value)
      && (r.chosen.category.None? ==> line.category == if r.proposed.category.Some? then r.proposed.category.value else 0)
      && (r.chosen.budget.Some? ==> line.budget == r.chosen.budget.value)
      && (r.chosen.budget.None? ==> line.budget == if r.proposed.budget.Some? then r.proposed.budget.value else 0)
  {
  }

  // ---- what a decision does ----------------------------------------------------------------

  function DecidedSide(id: Option<int>, name: string): Side {
    if id.Some? then Side(id.value, "") else Side(0, Trim(name))
  }

  // A decision makes a row ready exactly when it is not left to a person, is as sure as the threshold
  // asks and names nobody by name alone; any other sends it to review.
  lemma ReadyExactlyWhen(r: Row, d: Decision, threshold: real)
    ensures Decided(r, d, threshold).status == ReadyToPush <==>
      && d.tier != HumanReview && d.confidence >= threshold
      && (d.srcId.Some? || Trim(d.srcName) == "") && (d.dstId.Some? || Trim(d.dstName) == "")
    ensures Decided(r, d, threshold).status in {ReadyToPush, NeedsReview}
  {
  }

  // What it writes: its own columns, tags only when it has some, a payee's name only without an id;
  // and fold's hold exactly where there is none and none was released.
  lemma DecidedIsWritten(r: Row, d: Decision, threshold: real)
    ensures var r' := Decided(r, d, threshold);
      && r'.src == StoredSide(r.src.confId, r.src.confName, d.srcId, Trim(d.srcName))
      && r'.dst.confId == r.dst.confId && r'.dst.confName == r.dst.confName && r'.dst.propId == d.dstId
      && (d.dstId.None? ==> r'.dst.propName == Trim(d.dstName)) && (d.dstId.Some? ==> r'.dst.propName == "")
      && r'.proposed.category == d.proposal.category && r'.proposed.budget == d.proposal.budget
      && r'.proposed.title == d.proposal.title && r'.proposed.txnType == d.proposal.txnType
      && r'.proposed.refundOf == d.proposal.refundOf
      && (d.proposal.tags != "" ==> r'.proposed.tags == d.proposal.tags)
      && (d.proposal.tags == "" ==> r'.proposed.tags == r.proposed.tags)
      && (r'.hold != r.hold <==> d.hold != "" && r.hold == NoHold && !r.released)
      && (r'.hold != r.hold ==> r'.hold == ByFold(d.hold))
      && r'.reported == r.reported && r'.raw == r.raw && r'.chosen == r.chosen && r'.released == r.released
  {
  }

  // Money reported anew lands unless the row is pushed or skipped; a purchase is proposed where none is
  // yet; neither touches another column.
  lemma RefreshAndMatchWrite(r: Row, reported: Reported, ref: RefundLink.Ref)
    ensures var r' := Refreshed(r, reported);
      r'.reported == (if r.status == Pushed || r.status == Skipped then r.reported else reported) && r'.(reported := r.reported) == r
    ensures var r' := RefundProposed(r, ref);
      && r'.proposed.refundOf == (if r.proposed.refundOf == None then Some(ref) else r.proposed.refundOf)
      && r'.(proposed := r.proposed) == r && r'.proposed.(refundOf := r.proposed.refundOf) == r.proposed
  {
  }

  // A reset row is pending and carries nothing of the classifier's but the sides' names; what a person,
  // the bank or a hold put there stays.
  lemma ResetIsClean(r: Row)
    ensures var r' := Reset(r);
      && r'.status == Pending
      && r'.src == StoredSide(r.src.confId, r.src.confName, None, r.src.propName)
      && r'.dst == StoredSide(r.dst.confId, r.dst.confName, None, r.dst.propName)
      && r'.proposed.category == None && r'.proposed.budget == None && r'.proposed.refundOf == None
      && r'.proposed.title == r'.proposed.tags == r'.proposed.txnType == ""
      && r'.(status := r.status, src := r.src, dst := r.dst, proposed := r.proposed) == r
  {
  }

  // Own-account repair touches no column but the status, the sides and the proposed type; that only to
  // the direction's own; and none at all of a row that was entered by hand, is settled or is pending.
  lemma RepairWrites(r: Row, w: Repair.World, fold: Option<Account>)
    requires Repair.Matched(w, fold)
    ensures var r' := Repaired(r, w, fold);
      && r'.(status := r.status, src := r.src, dst := r.dst, proposed := r.proposed) == r
      && r'.proposed.(txnType := r.proposed.txnType) == r.proposed
      && (r'.proposed.txnType != r.proposed.txnType ==>
            r.proposed.txnType != "" && r'.proposed.txnType == if r.direction == "INCOMING" then "deposit" else "withdrawal")
      && (r'.status != r.status ==> r.status == ReadyToPush && r'.status == NeedsReview)
      && (r.manual || (r.status != NeedsReview && r.status != ReadyToPush) ==> r' == r)
  {
    if Repair.RepairRow(w, fold, Viewed(r)).1.Some? {
      Repair.RepairedIsSo(w, fold, Viewed(r));
    }
  }

  // A person's word on a hold: with a reason it takes the place of any other, without one it lifts the
  // hold, and that is remembered when it was fold's and could be recorded.
  lemma PersonHoldsWrites(r: Row, reason: string, recorded: bool)
    ensures var r' := Exec(r, PersonHolds(reason, recorded));
      && r'.(hold := r.hold, released := r.released) == r
      && r'.hold == (if Trim(reason) != "" then ByPerson(Trim(reason)) else NoHold)
      && (r'.released <==> r.released || (Trim(reason) == "" && recorded && exists why :: r.hold == ByFold(why)))
  {
  }

  // A re-suggestion lands exactly when the model or a refund gave it and nothing on the row is a
  // person's: no hold, not entered by hand, no account, category, budget, title, tags, type or
  // purchase chosen. The model's empty tags are meant; any other leaves the old ones.
  lemma ResuggestedExactlyWhen(r: Row, answer: Option<Decision>, threshold: real)
    ensures var r' := Resuggested(r, answer, threshold);
      var lands := answer.Some? && (answer.value.tier == Model || answer.value.tier == Refund)
        && r.hold == NoHold && !r.manual
        && r.src.confId == None && r.src.confName == "" && r.dst.confId == None && r.dst.confName == ""
        && r.chosen.category == None && r.chosen.budget == None && r.chosen.title == "" && r.chosen.tags == ""
        && r.chosen.txnType == "" && r.chosen.refundOf == None;
      && (!lands ==> r' == r)
      && (lands ==>
            && r'.proposed.tags == (if answer.value.tier == Model || answer.value.proposal.tags != ""
                                    then answer.value.proposal.tags else r.proposed.tags)
            && r'.(proposed := r.proposed) == Decided(r, answer.value, threshold).(proposed := r.proposed)
            && r'.proposed.(tags := "") == Decided(r, answer.value, threshold).proposed.(tags := ""))
  {
  }

  // On a row nobody decided anything of, what the classifier decides is what push would send.
  lemma ADecisionIsSent(m: Mirror, r: Row, d: Decision, threshold: real)
    requires NoHumanDecision(r)
    ensures var r' := Decided(r, d, threshold);
      var line := Built(m, r');
      && Sides(m, r') == BuiltSides(m, r.direction, "", d.proposal.txnType, DecidedSide(d.srcId, d.srcName), DecidedSide(d.dstId, d.dstName))
      && (d.proposal.category.Some? ==> line.category == d.proposal.category.value)
      && (d.proposal.budget.Some? ==> line.budget == d.proposal.budget.value)
      && (d.proposal.title != "" ==> line.title == d.proposal.title)
  {
    TrimTwice(d.srcName);
    TrimTwice(d.dstName);
    assert Trim("") == "";
  }

  // A row made ready to push on the classifier's word names nobody whom Firefly would have to
  // create an account for, but where a person wrote the name.
  lemma ReadyNamesNobodyNew(r: Row, d: Decision, threshold: real)
    requires Decided(r, d, threshold).status == ReadyToPush
    ensures var r' := Decided(r, d, threshold);
      && (!Confirmed(r.src) ==> PushSide(r'.src).name == "")
      && (!Confirmed(r.dst) ==> PushSide(r'.dst).name == "")
  {
    TrimTwice(d.srcName);
    assert Trim("") == "";
  }

  // ---- holds -----------------------------------------------------------------------------------------

  // No step of the engine's changes a hold that is there, or sets one where a person has let
  // fold's go.
  lemma EngineRespectsHolds(r: Row, s: Step)
    requires ByEngine(s)
    ensures !r.hold.NoHold? || r.released ==> Exec(r, s).hold == r.hold
    ensures Exec(r, s).released == r.released
    ensures !Exec(r, s).hold.ByPerson? || r.hold.ByPerson?
  {
  }

  // A person's hold stands through any run of the engine's.
  lemma {:induction false} APersonsHoldStands(r: Row, steps: seq<Step>)
    requires r.hold.ByPerson? && forall s | s in steps :: ByEngine(s)
    ensures Run(r, steps).hold == r.hold
    decreases |steps|
  {
    if steps != [] {
      assert ByEngine(steps[0]);
      EngineRespectsHolds(r, steps[0]);
      APersonsHoldStands(Exec(r, steps[0]), steps[1..]);
    }
  }

  // Once a person has let go of fold's hold, and that was recorded, fold never holds the row
  // again, whatever anyone does after.
  lemma {:induction false} ReleasedForGood(r: Row, steps: seq<Step>)
    requires r.released && !r.hold.ByFold?
    ensures Run(r, steps).released && !Run(r, steps).hold.ByFold?
    decreases |steps|
  {
    if steps != [] {
      if ByEngine(steps[0]) {
        EngineRespectsHolds(r, steps[0]);
      }
      ReleasedForGood(Exec(r, steps[0]), steps[1..]);
    }
  }

  // An unrecorded release does not bind fold: it may hold the row again.
  lemma UnrecordedReleaseIsForgotten(r: Row, d: Decision, blank: string, recorded: bool)
    requires r.hold.ByFold? && !r.released && d.hold != "" && Blank(blank)
    ensures Run(r, [PersonHolds(blank, recorded), Classify(d, 0.5)]).hold == if recorded then NoHold else ByFold(d.hold)
  {
    RunTwo(r, PersonHolds(blank, recorded), Classify(d, 0.5));
    var between := Exec(r, PersonHolds(blank, recorded));
    assert between.hold == NoHold && between.released == recorded;
  }

  lemma RunTwo(r: Row, first: Step, second: Step)
    ensures Run(r, [first, second]) == Exec(Exec(r, first), second)
  {
    assert [first, second][1..] == [second] && [second][1..] == [];
    assert Run(Exec(Exec(r, first), second), []) == Exec(Exec(r, first), second);
  }
}
