// The pusher's own methods (push.go), one caller at a time, over the staged table. Each is
// proved against an outcome function, and a push is one uninterrupted run of the machine.
module Push {
  import opened Staging
  import opened Wrappers
  import opened PushMachine

  datatype Report =
    | Preview
    | Deduped(txnId: int)
    | Made(txnId: int, groupId: int)
    | Updated(txnId: int, groupId: int)

  datatype PushError =
    | ReadOnlyMode | NotFound | NotReady | TypeMisfit | NoGroup
    | SearchFailed | CurrencyFailed | CreateFailed | UpdateFailed | MarkFailed

  // What one push would meet: whether its type fits its accounts, and how each call ends.
  datatype World = World(
    fits: bool, search: Option<seq<int>>, currencyWorks: bool, create: CreateResult, markWorks: bool)

  // created: whether a create request went out.
  datatype PushOutcome = PushOutcome(answer: Result<Report, PushError>, rows: map<Uuid, Row>, created: bool)

  function RowPushed(rows: map<Uuid, Row>, u: Uuid, journalId: int, groupId: int): map<Uuid, Row> {
    if u in rows then rows[u := Row(Pushed, journalId, if groupId > 0 then groupId else 0)] else rows
  }

  // Push, from the table before to the answer and the table after.
  function OutcomeOfPush(readOnly: bool, rows: map<Uuid, Row>, u: Uuid, confirm: bool, w: World): PushOutcome {
    if readOnly && confirm then PushOutcome(Err(ReadOnlyMode), rows, false)
    else if u !in rows then PushOutcome(Err(NotFound), rows, false)
    else if !Pushable(rows[u]) then PushOutcome(Err(NotReady), rows, false)
    else if rows[u].txnId != 0 then PushOutcome(Ok(Deduped(rows[u].txnId)), rows, false)
    else if !w.fits then PushOutcome(Err(TypeMisfit), rows, false)
    else if !confirm then PushOutcome(Ok(Preview), rows, false)
    else if w.search.None? then PushOutcome(Err(SearchFailed), rows, false)
    else if w.search.value != [] then
      if w.markWorks then PushOutcome(Ok(Deduped(w.search.value[0])), RowPushed(rows, u, w.search.value[0], 0), false)
      else PushOutcome(Err(MarkFailed), rows, false)
    else if !w.currencyWorks then PushOutcome(Err(CurrencyFailed), rows, false)
    else if !w.create.Created? then PushOutcome(Err(CreateFailed), rows, true)
    else if !w.markWorks then PushOutcome(Err(MarkFailed), rows, true)
    else
      var journalId := if w.create.listed then w.create.id else 0;
      PushOutcome(Ok(Made(journalId, w.create.groupId)), RowPushed(rows, u, journalId, w.create.groupId), true)
  }

  datatype UpdateOutcome = UpdateOutcome(answer: Result<Report, PushError>, rows: map<Uuid, Row>)

  // Update, likewise: the row's own group, else the one the mirror knows, and the first journal of
  // the reply, else the row's own.
  function OutcomeOfUpdate(readOnly: bool, rows: map<Uuid, Row>, u: Uuid, fits: bool, mirrored: int,
                           currencyWorks: bool, reply: Option<seq<int>>, markWorks: bool): UpdateOutcome {
    if readOnly then UpdateOutcome(Err(ReadOnlyMode), rows)
    else if u !in rows then UpdateOutcome(Err(NotFound), rows)
    else if GroupFor(rows[u], mirrored) == 0 then UpdateOutcome(Err(NoGroup), rows)
    else if !fits then UpdateOutcome(Err(TypeMisfit), rows)
    else if !currencyWorks then UpdateOutcome(Err(CurrencyFailed), rows)
    else if reply.None? then UpdateOutcome(Err(UpdateFailed), rows)
    else if !markWorks then UpdateOutcome(Err(MarkFailed), rows)
    else
      var journalId := JournalFor(rows[u], reply.value);
      UpdateOutcome(Ok(Updated(journalId, GroupFor(rows[u], mirrored))), RowPushed(rows, u, journalId, GroupFor(rows[u], mirrored)))
  }

  function GroupFor(row: Row, mirrored: int): int { if row.groupId != 0 then row.groupId else mirrored }

  function JournalFor(row: Row, reply: seq<int>): int { if reply == [] then row.txnId else reply[0] }

  class Pusher {
    var rows: map<Uuid, Row>
    const readOnly: bool

    constructor (rows: map<Uuid, Row>, readOnly: bool)
      ensures this.rows == rows && this.readOnly == readOnly
    {
      this.rows := rows;
      this.readOnly := readOnly;
    }

    method MarkPushed(u: Uuid, journalId: int, groupId: int, works: bool) returns (marked: bool)
      modifies this
      ensures marked == works
      ensures rows == if works then RowPushed(old(rows), u, journalId, groupId) else old(rows)
    {
      if works && u in rows {
        rows := rows[u := Row(Pushed, journalId, if groupId > 0 then groupId else 0)];
      }
      return works;
    }

    method Push(u: Uuid, confirm: bool, w: World) returns (answer: Result<Report, PushError>, created: bool)
      modifies this
      ensures PushOutcome(answer, rows, created) == OutcomeOfPush(readOnly, old(rows), u, confirm, w)
    {
      created := false;
      if readOnly && confirm {
        return Err(ReadOnlyMode), created;
      }
      if u !in rows {
        return Err(NotFound), created;
      }
      var row := rows[u];
      if row.status != ReadyToPush && row.status != NeedsReview {
        return Err(NotReady), created;
      }
      if row.txnId != 0 {
        return Ok(Deduped(row.txnId)), created;
      }
      if !w.fits {
        return Err(TypeMisfit), created;
      }
      if !confirm {
        return Ok(Preview), created;
      }
      if w.search.None? {
        return Err(SearchFailed), created;
      }
      if |w.search.value| > 0 {
        var journalId := w.search.value[0];
        var marked := MarkPushed(u, journalId, 0, w.markWorks);
        return if marked then Ok(Deduped(journalId)) else Err(MarkFailed), created;
      }
      if !w.currencyWorks {
        return Err(CurrencyFailed), created;
      }
      created := true;
      if !w.create.Created? {
        return Err(CreateFailed), created;
      }
      var journalId := 0;
      if w.create.listed {
        journalId := w.create.id;
      }
      var marked := MarkPushed(u, journalId, w.create.groupId, w.markWorks);
      return if marked then Ok(Made(journalId, w.create.groupId)) else Err(MarkFailed), created;
    }

    // Update: PUT the row's own group. `mirrored` is the group the local mirror knows for its
    // journal; `reply` is the journal ids Firefly lists, None when a call failed.
    method Update(u: Uuid, fits: bool, mirrored: int, currencyWorks: bool, reply: Option<seq<int>>, markWorks: bool)
      returns (answer: Result<Report, PushError>)
      modifies this
      ensures UpdateOutcome(answer, rows)
           == OutcomeOfUpdate(readOnly, old(rows), u, fits, mirrored, currencyWorks, reply, markWorks)
    {
      if readOnly {
        return Err(ReadOnlyMode);
      }
      if u !in rows {
        return Err(NotFound);
      }
      var groupId := if rows[u].groupId != 0 then rows[u].groupId else mirrored;
      if groupId == 0 {
        return Err(NoGroup);
      }
      if !fits {
        return Err(TypeMisfit);
      }
      if !currencyWorks {
        return Err(CurrencyFailed);
      }
      if reply.None? {
        return Err(UpdateFailed);
      }
      var journalId := rows[u].txnId;
      if |reply.value| > 0 {
        journalId := reply.value[0];
      }
      var marked := MarkPushed(u, journalId, groupId, markWorks);
      return if marked then Ok(Updated(journalId, groupId)) else Err(MarkFailed);
    }
  }

  // ---- a push is a run of the machine -----------------------------------------------------------

  // A world that Firefly, holding these journals, could show this row's push.
  ghost predicate Shows(s: Sys, u: Uuid, w: World) {
    && (w.search.Some? ==> w.search.value == HitsFor(s.journals, u))
    && (!w.create.Refused? ==> w.create.id >= s.nextId && w.create.groupId >= s.nextId)
  }

  function MarkScript(t: nat, w: World): seq<Action> { [Mark(t, w.markWorks)] }

  function CreateScript(t: nat, w: World): seq<Action> {
    [EnsureCurrency(t, w.currencyWorks)]
    + if !w.currencyWorks then [] else [Create(t, w.create)] + if w.create.Created? then MarkScript(t, w) else []
  }

  function SearchScript(t: nat, w: World): seq<Action> {
    [Search(t, w.search.Some?, if w.search.Some? && w.search.value != [] then w.search.value[0] else 0)]
    + if w.search.None? then [] else if w.search.value != [] then MarkScript(t, w) else CreateScript(t, w)
  }

  predicate Proceeds(readOnly: bool, rows: map<Uuid, Row>, u: Uuid, confirm: bool, fits: bool) {
    !(readOnly && confirm) && u in rows && Pushable(rows[u]) && rows[u].txnId == 0 && fits && confirm
  }

  function PushScript(readOnly: bool, rows: map<Uuid, Row>, t: nat, u: Uuid, confirm: bool, w: World): seq<Action> {
    [Begin(t, u, confirm, readOnly, w.fits)]
    + if Proceeds(readOnly, rows, u, confirm, w.fits) then SearchScript(t, w) else []
  }

  lemma Step(s: Sys, a: Action, rest: seq<Action>, s': Sys)
    requires Exec(true, s, a) == Some(s')
    ensures Run(true, s, [a] + rest) == Run(true, s', rest)
  {
    assert ([a] + rest)[1..] == rest;
  }

  lemma MarkRuns(s: Sys, t: nat, w: World)
    requires PhaseOf(s.threads, t).Marking?
    ensures var p := PhaseOf(s.threads, t);
      var run := Run(true, s, MarkScript(t, w));
      && run.Some? && PhaseOf(run.value.threads, t).Idle? && run.value.journals == s.journals
      && run.value.rows == if w.markWorks then RowPushed(s.rows, p.uuid, p.journalId, p.groupId) else s.rows
  {
    Step(s, Mark(t, w.markWorks), [], Exec(true, s, Mark(t, w.markWorks)).value);
  }

  lemma CreateRuns(s: Sys, t: nat, u: Uuid, w: World)
    requires PhaseOf(s.threads, t) == Ensuring(u) && Shows(s, u, w)
    ensures var run := Run(true, s, CreateScript(t, w));
      && run.Some? && PhaseOf(run.value.threads, t).Idle?
      && run.value.journals == s.journals
         + (if w.currencyWorks && !w.create.Refused? then [Journal(w.create.id, w.create.groupId, Some(u))] else [])
      && run.value.rows == if w.currencyWorks && w.create.Created? && w.markWorks
                           then RowPushed(s.rows, u, if w.create.listed then w.create.id else 0, w.create.groupId)
                           else s.rows
  {
    var s1 := Exec(true, s, EnsureCurrency(t, w.currencyWorks)).value;
    if !w.currencyWorks {
      Step(s, EnsureCurrency(t, false), [], s1);
    } else {
      var rest := if w.create.Created? then MarkScript(t, w) else [];
      Step(s, EnsureCurrency(t, true), [Create(t, w.create)] + rest, s1);
      var s2 := Exec(true, s1, Create(t, w.create)).value;
      Step(s1, Create(t, w.create), rest, s2);
      if w.create.Created? {
        MarkRuns(s2, t, w);
      }
    }
  }

  // A push nobody interrupts is a run of the machine: the same table, and a journal gained
  // in the one exactly where the other's create took effect.
  lemma PushIsARun(s: Sys, readOnly: bool, t: nat, u: Uuid, confirm: bool, w: World)
    requires PhaseOf(s.threads, t).Idle? && Free(s.threads, u) && Shows(s, u, w)
    ensures var outcome := OutcomeOfPush(readOnly, s.rows, u, confirm, w);
      var run := Run(true, s, PushScript(readOnly, s.rows, t, u, confirm, w));
      && run.Some? && PhaseOf(run.value.threads, t).Idle?
      && run.value.rows == outcome.rows
      && run.value.journals == s.journals
         + if outcome.created && !w.create.Refused? then [Journal(w.create.id, w.create.groupId, Some(u))] else []
  {
    var begin := Begin(t, u, confirm, readOnly, w.fits);
    var s1 := Exec(true, s, begin).value;
    if !Proceeds(readOnly, s.rows, u, confirm, w.fits) {
      Step(s, begin, [], s1);
    } else {
      Step(s, begin, SearchScript(t, w), s1);
      var pick := if w.search.Some? && w.search.value != [] then w.search.value[0] else 0;
      var rest := if w.search.None? then [] else if w.search.value != [] then MarkScript(t, w) else CreateScript(t, w);
      var s2 := Exec(true, s1, Search(t, w.search.Some?, pick)).value;
      Step(s1, Search(t, w.search.Some?, pick), rest, s2);
      if w.search.Some? {
        if w.search.value != [] {
          MarkRuns(s2, t, w);
        } else {
          CreateRuns(s2, t, u, w);
        }
      }
    }
  }

  // What the mirror knows of a row's group, and Firefly's reply, as Firefly could answer.
  predicate Tells(s: Sys, u: Uuid, mirrored: int, reply: seq<int>)
    requires u in s.rows
  {
    && (s.rows[u].groupId == 0 && mirrored != 0 ==>
          s.rows[u].txnId != 0 && exists j | j in s.journals :: j.id == s.rows[u].txnId && j.groupId == mirrored)
    && forall id | id in reply :: exists j | j in s.journals :: j.id == id && j.groupId == GroupFor(s.rows[u], mirrored)
  }

  // An update succeeds exactly when the row has a group and nothing fails, and is then a step of the
  // machine: it leaves the same table, and the journal it records was created for this very row.
  lemma UpdateIsAStep(s: Sys, readOnly: bool, u: Uuid, fits: bool, mirrored: int, currencyWorks: bool, reply: Option<seq<int>>,
                      markWorks: bool)
    requires Inv(s) && (u in s.rows && reply.Some? ==> Tells(s, u, mirrored, reply.value))
    ensures var outcome := OutcomeOfUpdate(readOnly, s.rows, u, fits, mirrored, currencyWorks, reply, markWorks);
      && (outcome.answer.Ok? <==>
            !readOnly && u in s.rows && GroupFor(s.rows[u], mirrored) != 0 && fits && currencyWorks && reply.Some? && markWorks)
      && (outcome.answer.Err? ==> outcome.rows == s.rows)
      && (outcome.answer.Ok? ==>
            var groupId, journalId := outcome.answer.value.groupId, outcome.answer.value.txnId;
            && Belongs(s, u, journalId, groupId)
            && Exec(true, s, UpdateInPlace(u, groupId, journalId)) == Some(s.(rows := outcome.rows)))
  {
    var outcome := OutcomeOfUpdate(readOnly, s.rows, u, fits, mirrored, currencyWorks, reply, markWorks);
    if outcome.answer.Ok? {
      var groupId, journalId := GroupFor(s.rows[u], mirrored), JournalFor(s.rows[u], reply.value);
      assert reply.value != [] ==> journalId in reply.value;
      assert GroupOf(s, s.rows[u], groupId) && InGroup(s, s.rows[u], groupId, journalId);
      UpdateStaysHome(s, u, groupId, journalId);
    }
  }

  // A push of a row Firefly already holds a journal for, whatever became of the push that
  // made it, sends no create and, once its calls work, records that journal.
  lemma RetryAdopts(s: Sys, readOnly: bool, u: Uuid, w: World)
    requires Inv(s) && Shows(s, u, w) && CountFor(s.journals, u) == 1
    ensures var outcome := OutcomeOfPush(readOnly, s.rows, u, true, w); !outcome.created
    ensures Proceeds(readOnly, s.rows, u, true, w.fits) && w.search.Some? && w.markWorks ==>
      exists j | j in s.journals :: j.external == Some(u)
        && OutcomeOfPush(readOnly, s.rows, u, true, w) == PushOutcome(Ok(Deduped(j.id)), RowPushed(s.rows, u, j.id, 0), false)
  {
    HitsMatchCount(s.journals, u);
    if w.search.Some? {
      assert w.search.value[0] in HitsFor(s.journals, u);
    }
  }

  // What a push answers, and when: nothing is asked of Firefly for a row that cannot be sent, or of
  // which it holds a journal on record; and what is asked is answered by the first call that fails.
  lemma PushAnswersExactlyWhen(readOnly: bool, rows: map<Uuid, Row>, u: Uuid, confirm: bool, w: World)
    ensures var o := OutcomeOfPush(readOnly, rows, u, confirm, w);
      var refused := readOnly && confirm;
      var waits := u in rows && (rows[u].status == ReadyToPush || rows[u].status == NeedsReview);
      var asks := !refused && waits && rows[u].txnId == 0 && w.fits && confirm;
      var found := asks && w.search.Some? && w.search.value != [];
      var makes := asks && w.search.Some? && w.search.value == [] && w.currencyWorks;
      && (o.answer == Err(ReadOnlyMode) <==> refused)
      && (o.answer == Err(NotFound) <==> !refused && u !in rows)
      && (o.answer == Err(NotReady) <==> !refused && u in rows && !waits)
      && (!refused && waits && rows[u].txnId != 0 ==> o.answer == Ok(Deduped(rows[u].txnId)))
      && (o.answer == Err(TypeMisfit) <==> !refused && waits && rows[u].txnId == 0 && !w.fits)
      && (o.answer == Ok(Preview) <==> waits && rows[u].txnId == 0 && w.fits && !confirm)
      && (o.answer == Err(SearchFailed) <==> asks && w.search.None?)
      && (found ==> o.answer == if w.markWorks then Ok(Deduped(w.search.value[0])) else Err(MarkFailed))
      && (o.answer == Err(CurrencyFailed) <==> asks && w.search.Some? && w.search.value == [] && !w.currencyWorks)
      && (o.created <==> makes)
      && (o.answer == Err(CreateFailed) <==> makes && !w.create.Created?)
      && (makes && w.create.Created? ==>
            o.answer == if w.markWorks then Ok(Made(if w.create.listed then w.create.id else 0, w.create.groupId)) else Err(MarkFailed))
      && o.answer != Err(NoGroup) && o.answer != Err(UpdateFailed)
  {
  }

  // What it writes: the row as pushed, with the journal found, or the journal and the group made; only
  // once that is known, and never another row.
  lemma PushedIsWritten(readOnly: bool, rows: map<Uuid, Row>, u: Uuid, confirm: bool, w: World)
    ensures var o := OutcomeOfPush(readOnly, rows, u, confirm, w);
      && o.rows.Keys == rows.Keys && (forall v | v in rows && v != u :: o.rows[v] == rows[v])
      && (o.answer.Err? || o.answer == Ok(Preview) ==> o.rows == rows)
      && (o.answer.Ok? && o.answer.value.Deduped? && rows[u].txnId == 0 ==> o.rows[u] == Row(Pushed, o.answer.value.txnId, 0))
      && (o.answer.Ok? && o.answer.value.Deduped? && rows[u].txnId != 0 ==> o.rows == rows)
      && (o.answer.Ok? && o.answer.value.Made? ==>
            o.rows[u] == Row(Pushed, o.answer.value.txnId, if o.answer.value.groupId < 0 then 0 else o.answer.value.groupId))
  {
  }

  lemma UpdateAnswersExactlyWhen(readOnly: bool, rows: map<Uuid, Row>, u: Uuid, fits: bool, mirrored: int,
                                 currencyWorks: bool, reply: Option<seq<int>>, markWorks: bool)
    ensures var o := OutcomeOfUpdate(readOnly, rows, u, fits, mirrored, currencyWorks, reply, markWorks);
      var known := !readOnly && u in rows && (rows[u].groupId != 0 || mirrored != 0);
      && (o.answer == Err(ReadOnlyMode) <==> readOnly)
      && (o.answer == Err(NotFound) <==> !readOnly && u !in rows)
      && (o.answer == Err(NoGroup) <==> !readOnly && u in rows && !known)
      && (o.answer == Err(TypeMisfit) <==> known && !fits)
      && (o.answer == Err(CurrencyFailed) <==> known && fits && !currencyWorks)
      && (o.answer == Err(UpdateFailed) <==> known && fits && currencyWorks && reply.None?)
      && (o.answer == Err(MarkFailed) <==> known && fits && currencyWorks && reply.Some? && !markWorks)
      && (o.answer.Ok? ==>
            && o.answer.value.Updated?
            && o.answer.value.groupId == (if rows[u].groupId == 0 then mirrored else rows[u].groupId)
            && o.answer.value.txnId == (if |reply.value| > 0 then reply.value[0] else rows[u].txnId)
            && o.rows == rows[u := Row(Pushed, o.answer.value.txnId, if o.answer.value.groupId < 0 then 0 else o.answer.value.groupId)])
  {
  }
}
