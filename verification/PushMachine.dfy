// Pushing staged rows to Firefly (push.go) as a machine over its atomic steps: search,
// ensure the currency, create, mark. Any call may fail, a create may happen and report an
// error, the process may die between steps, and classifier and review writes interleave.
module PushMachine {
  import opened Staging
  import opened Wrappers

  // The columns a push decides by. An id of 0 is none.
  datatype Row = Row(status: Status, txnId: int, groupId: int)

  // A Firefly journal; external is the fold_uuid it was created for, None for any other.
  datatype Journal = Journal(id: int, groupId: int, external: Option<Uuid>)

  datatype Phase =
    | Idle
    | Searching(uuid: Uuid)
    | Ensuring(uuid: Uuid)                           // the search found nothing
    | Creating(uuid: Uuid)
    | Marking(uuid: Uuid, journalId: int, groupId: int)

  datatype Sys = Sys(
    rows: map<Uuid, Row>,
    journals: seq<Journal>,
    nextId: int,                                     // Firefly never reuses an id below this
    threads: map<nat, Phase>)

  datatype CreateResult =
    | Refused                                        // nothing was created
    | CreatedUnheard(id: int, groupId: int)          // created, reported as an error
    | Created(id: int, groupId: int, listed: bool)   // listed: the reply carries the journal id

  datatype Action =
    | Begin(thread: nat, uuid: Uuid, confirm: bool, readOnly: bool, fits: bool)
    | Search(thread: nat, answers: bool, pick: int)  // pick: the hit Firefly lists first
    | EnsureCurrency(thread: nat, works: bool)
    | Create(thread: nat, result: CreateResult)
    | Mark(thread: nat, works: bool)
    | UpdateInPlace(uuid: Uuid, groupId: int, reported: int)   // Update: PUT a group, and mark
    | Reclassify(uuid: Uuid, status: Status)         // ApplyDecision, resetToPending, a person
    | Stage(uuid: Uuid)
    | Elsewhere(id: int, groupId: int)               // Firefly gains a journal not of ours
    | Delete(id: int)                                // a person deletes one in Firefly
    | Crash

  function PhaseOf(threads: map<nat, Phase>, t: nat): Phase {
    if t in threads then threads[t] else Idle
  }

  predicate Active(p: Phase, u: Uuid) { !p.Idle? && p.uuid == u }

  ghost predicate Free(threads: map<nat, Phase>, u: Uuid) { forall t: nat :: !Active(PhaseOf(threads, t), u) }

  function Move(s: Sys, t: nat, p: Phase): Sys { s.(threads := s.threads[t := p]) }

  function HitsFor(journals: seq<Journal>, u: Uuid): seq<int> {
    if journals == [] then [] else
    (if journals[0].external == Some(u) then [journals[0].id] else []) + HitsFor(journals[1..], u)
  }

  predicate Pushable(r: Row) { r.status == ReadyToPush || r.status == NeedsReview }

  function Marked(s: Sys, u: Uuid, journalId: int, groupId: int): Sys {
    if u in s.rows then
      s.(rows := s.rows[u := Row(Pushed, journalId, if groupId > 0 then groupId else 0)])
    else s
  }

  // The group an update is sent to: the one the row recorded, else the one its journal is in.
  predicate GroupOf(s: Sys, r: Row, groupId: int) {
    && groupId != 0
    && if r.groupId != 0 then groupId == r.groupId
       else r.txnId != 0 && exists j | j in s.journals :: j.id == r.txnId && j.groupId == groupId
  }

  // The journal Firefly reports back: one of that group, or none, which leaves the row's own.
  predicate InGroup(s: Sys, r: Row, groupId: int, reported: int) {
    reported == r.txnId || exists j | j in s.journals :: j.id == reported && j.groupId == groupId
  }

  // Without `exclusive` two pushes of one row may overlap.
  ghost function Exec(exclusive: bool, s: Sys, a: Action): Option<Sys> {
    match a
    case Begin(t, u, confirm, readOnly, fits) =>
      if !PhaseOf(s.threads, t).Idle? || (exclusive && !Free(s.threads, u)) then None
      else if (readOnly && confirm) || u !in s.rows || !Pushable(s.rows[u]) || s.rows[u].txnId != 0
              || !fits || !confirm then Some(s)
      else Some(Move(s, t, Searching(u)))
    case Search(t, answers, pick) =>
      var p := PhaseOf(s.threads, t);
      if !p.Searching? then None
      else if !answers then Some(Move(s, t, Idle))
      else
        var hits := HitsFor(s.journals, p.uuid);
        if hits == [] then Some(Move(s, t, Ensuring(p.uuid)))
        else if pick in hits then Some(Move(s, t, Marking(p.uuid, pick, 0)))
        else None
    case EnsureCurrency(t, works) =>
      var p := PhaseOf(s.threads, t);
      if !p.Ensuring? then None
      else Some(Move(s, t, if works then Creating(p.uuid) else Idle))
    case Create(t, result) =>
      var p := PhaseOf(s.threads, t);
      if !p.Creating? then None else (
      match result
      case Refused => Some(Move(s, t, Idle))
      case CreatedUnheard(id, groupId) =>
        if id < s.nextId || groupId < s.nextId then None
        else Some(Move(Gained(s, id, groupId, Some(p.uuid)), t, Idle))
      case Created(id, groupId, listed) =>
        if id < s.nextId || groupId < s.nextId then None
        else Some(Move(Gained(s, id, groupId, Some(p.uuid)), t,
                       Marking(p.uuid, if listed then id else 0, groupId))))
    case Mark(t, works) =>
      var p := PhaseOf(s.threads, t);
      if !p.Marking? then None
      else Some(Move(if works then Marked(s, p.uuid, p.journalId, p.groupId) else s, t, Idle))
    case UpdateInPlace(u, groupId, reported) =>
      if u !in s.rows || !GroupOf(s, s.rows[u], groupId) || !InGroup(s, s.rows[u], groupId, reported) then None
      else Some(Marked(s, u, reported, groupId))
    case Reclassify(u, status) =>
      if u !in s.rows then None else Some(s.(rows := s.rows[u := s.rows[u].(status := status)]))
    case Stage(u) =>
      if u in s.rows then Some(s) else Some(s.(rows := s.rows[u := Row(Pending, 0, 0)]))
    case Elsewhere(id, groupId) =>
      if id < s.nextId || groupId < s.nextId then None else Some(Gained(s, id, groupId, None))
    case Delete(id) => Some(s.(journals := Without(s.journals, id)))
    case Crash => Some(s.(threads := map[]))
  }

  function Gained(s: Sys, id: int, groupId: int, external: Option<Uuid>): Sys {
    s.(journals := s.journals + [Journal(id, groupId, external)],
       nextId := (if id > groupId then id else groupId) + 1)
  }

  function Without(journals: seq<Journal>, id: int): (left: seq<Journal>)
    ensures forall j | j in left :: j in journals && j.id != id
    ensures |left| <= |journals|
  {
    if journals == [] then [] else
    (if journals[0].id == id then [] else [journals[0]]) + Without(journals[1..], id)
  }

  ghost function Run(exclusive: bool, s: Sys, actions: seq<Action>): Option<Sys>
    decreases |actions|
  {
    if actions == [] then Some(s)
    else match Exec(exclusive, s, actions[0])
      case None => None
      case Some(s') => Run(exclusive, s', actions[1..])
  }

  // How many journals Firefly holds for a row.
  function CountFor(journals: seq<Journal>, u: Uuid): nat {
    if journals == [] then 0
    else (if journals[|journals| - 1].external == Some(u) then 1 else 0) + CountFor(journals[..|journals| - 1], u)
  }

  // ---- the invariant --------------------------------------------------------------------------

  predicate AboutToCreate(p: Phase) { p.Ensuring? || p.Creating? }

  ghost predicate OneEach(s: Sys) { forall u :: CountFor(s.journals, u) <= 1 }

  ghost predicate NoOverlap(s: Sys) {
    forall t: nat, t': nat, u :: Active(PhaseOf(s.threads, t), u) && Active(PhaseOf(s.threads, t'), u) ==> t == t'
  }

  ghost predicate NoneBeforeCreate(s: Sys) {
    forall t: nat :: AboutToCreate(PhaseOf(s.threads, t)) ==> CountFor(s.journals, PhaseOf(s.threads, t).uuid) == 0
  }

  ghost predicate IdsBelow(s: Sys) {
    s.nextId > 0 && forall j | j in s.journals :: 0 < j.id < s.nextId && 0 < j.groupId < s.nextId
  }

  // A journal a row points at, by itself or by its group, was created for that row.
  ghost predicate Belongs(s: Sys, u: Uuid, journalId: int, groupId: int) {
    && journalId < s.nextId && groupId < s.nextId
    && forall j | j in s.journals ::
         (j.id == journalId && journalId != 0) || (j.groupId == groupId && groupId != 0) ==> j.external == Some(u)
  }

  ghost predicate PointersBelong(s: Sys) {
    && (forall u | u in s.rows :: Belongs(s, u, s.rows[u].txnId, s.rows[u].groupId))
    && (forall t: nat :: PhaseOf(s.threads, t).Marking? ==>
          Belongs(s, PhaseOf(s.threads, t).uuid, PhaseOf(s.threads, t).journalId, PhaseOf(s.threads, t).groupId))
  }

  ghost predicate Distinct(s: Sys) {
    forall i, j | 0 <= i < j < |s.journals| ::
      s.journals[i].id != s.journals[j].id && s.journals[i].groupId != s.journals[j].groupId
  }

  ghost predicate Inv(s: Sys) {
    OneEach(s) && NoOverlap(s) && NoneBeforeCreate(s) && IdsBelow(s) && PointersBelong(s) && Distinct(s)
  }

  // ---- one step --------------------------------------------------------------------------------

  lemma CountAfter(journals: seq<Journal>, j: Journal, u: Uuid)
    ensures CountFor(journals + [j], u) == CountFor(journals, u) + if j.external == Some(u) then 1 else 0
  {
    assert (journals + [j])[..|journals|] == journals;
  }

  lemma {:induction false} CountFromFront(journals: seq<Journal>, u: Uuid)
    requires journals != []
    ensures CountFor(journals, u) == (if journals[0].external == Some(u) then 1 else 0) + CountFor(journals[1..], u)
  {
    if |journals| > 1 {
      CountFromFront(journals[..|journals| - 1], u);
      assert journals[..|journals| - 1][1..] == journals[1..][..|journals| - 2];
    }
  }

  lemma {:induction false} HitsMatchCount(journals: seq<Journal>, u: Uuid)
    ensures |HitsFor(journals, u)| == CountFor(journals, u)
    ensures forall id | id in HitsFor(journals, u) :: exists j | j in journals :: j.id == id && j.external == Some(u)
  {
    if journals != [] {
      CountFromFront(journals, u);
      HitsMatchCount(journals[1..], u);
      assert forall j | j in journals[1..] :: j in journals;
    }
  }

  lemma {:induction false} WithoutCounts(journals: seq<Journal>, id: int, u: Uuid)
    ensures CountFor(Without(journals, id), u) <= CountFor(journals, u)
  {
    if journals != [] {
      CountFromFront(journals, u);
      WithoutCounts(journals[1..], id, u);
      if journals[0].id != id {
        var left := Without(journals, id);
        assert left == [journals[0]] + Without(journals[1..], id);
        CountFromFront(left, u);
        assert left[1..] == Without(journals[1..], id);
      } else {
        assert Without(journals, id) == Without(journals[1..], id);
      }
    }
  }

  lemma {:induction false} WithoutIsDistinct(journals: seq<Journal>, id: int)
    requires forall i, j | 0 <= i < j < |journals| ::
      journals[i].id != journals[j].id && journals[i].groupId != journals[j].groupId
    ensures var left := Without(journals, id); forall i, j | 0 <= i < j < |left| ::
      left[i].id != left[j].id && left[i].groupId != left[j].groupId
  {
    if journals != [] {
      WithoutIsDistinct(journals[1..], id);
      var left := Without(journals, id);
      if journals[0].id != id {
        assert left == [journals[0]] + Without(journals[1..], id);
        forall j | 1 <= j < |left| ensures left[0].id != left[j].id && left[0].groupId != left[j].groupId {
          assert left[j] in journals[1..];
        }
      } else {
        assert left == Without(journals[1..], id);
      }
    }
  }

  lemma DeleteKeepsInv(s: Sys, id: int)
    requires Inv(s)
    ensures Inv(s.(journals := Without(s.journals, id)))
  {
    forall u ensures CountFor(Without(s.journals, id), u) <= CountFor(s.journals, u) {
      WithoutCounts(s.journals, id, u);
    }
    WithoutIsDistinct(s.journals, id);
  }

  // Firefly gains a journal with fresh ids: for nobody here, or for a row it had none for.
  lemma GainKeepsInv(s: Sys, id: int, groupId: int, external: Option<Uuid>)
    requires Inv(s) && id >= s.nextId && groupId >= s.nextId
    requires external.Some? ==> CountFor(s.journals, external.value) == 0
    requires external.Some? ==> forall t: nat :: !(AboutToCreate(PhaseOf(s.threads, t)) && PhaseOf(s.threads, t).uuid == external.value)
    ensures Inv(Gained(s, id, groupId, external))
  {
    GainKeepsCounts(s, id, groupId, external);
    GainKeepsPointers(s, id, groupId, external);
  }

  lemma GainKeepsCounts(s: Sys, id: int, groupId: int, external: Option<Uuid>)
    requires OneEach(s) && NoneBeforeCreate(s)
    requires external.Some? ==> CountFor(s.journals, external.value) == 0
    requires external.Some? ==> forall t: nat :: !(AboutToCreate(PhaseOf(s.threads, t)) && PhaseOf(s.threads, t).uuid == external.value)
    ensures OneEach(Gained(s, id, groupId, external)) && NoneBeforeCreate(Gained(s, id, groupId, external))
  {
    var j := Journal(id, groupId, external);
    forall u ensures CountFor(s.journals + [j], u) == CountFor(s.journals, u) + if external == Some(u) then 1 else 0 {
      CountAfter(s.journals, j, u);
    }
  }

  lemma GainKeepsPointers(s: Sys, id: int, groupId: int, external: Option<Uuid>)
    requires IdsBelow(s) && PointersBelong(s) && Distinct(s) && id >= s.nextId && groupId >= s.nextId
    ensures var s' := Gained(s, id, groupId, external); IdsBelow(s') && PointersBelong(s') && Distinct(s')
  {
  }

  lemma MoveKeepsInv(s: Sys, t: nat, p: Phase)
    requires Inv(s)
    requires p.Idle? || Active(PhaseOf(s.threads, t), p.uuid) || Free(s.threads, p.uuid)
    requires AboutToCreate(p) ==> CountFor(s.journals, p.uuid) == 0
    requires p.Marking? ==> Belongs(s, p.uuid, p.journalId, p.groupId)
    ensures Inv(Move(s, t, p))
  {
    var s' := Move(s, t, p);
    assert forall t': nat | t' != t :: PhaseOf(s'.threads, t') == PhaseOf(s.threads, t');
    assert PhaseOf(s'.threads, t) == p;
  }

  lemma MarkKeepsInv(s: Sys, u: Uuid, journalId: int, groupId: int)
    requires Inv(s) && Belongs(s, u, journalId, groupId)
    ensures Inv(Marked(s, u, journalId, groupId))
  {
  }

  // With no overlap, a thread that steps aside leaves its row free.
  lemma AsideIsFree(s: Sys, t: nat, u: Uuid)
    requires NoOverlap(s) && Active(PhaseOf(s.threads, t), u)
    ensures Free(Move(s, t, Idle).threads, u)
  {
    var aside := Move(s, t, Idle);
    forall t': nat ensures !Active(PhaseOf(aside.threads, t'), u) {
      if t' != t {
        assert PhaseOf(aside.threads, t') == PhaseOf(s.threads, t');
      }
    }
  }

  // An update is sent to a group created for this very row.
  lemma UpdateStaysHome(s: Sys, u: Uuid, groupId: int, reported: int)
    requires Inv(s) && u in s.rows && GroupOf(s, s.rows[u], groupId) && InGroup(s, s.rows[u], groupId, reported)
    ensures Belongs(s, u, reported, groupId)
  {
    assert Belongs(s, u, s.rows[u].txnId, s.rows[u].groupId);
    forall j | j in s.journals && j.groupId == groupId ensures j.external == Some(u) {
      if s.rows[u].groupId == 0 {
        var own :| own in s.journals && own.id == s.rows[u].txnId && own.groupId == groupId;
        SameGroup(s, own, j);
      }
    }
    forall j | j in s.journals && j.id == reported && reported != 0 ensures j.external == Some(u) {
      if reported != s.rows[u].txnId {
        var heard :| heard in s.journals && heard.id == reported && heard.groupId == groupId;
        SameGroup(s, heard, j);
      }
    }
  }

  lemma SameGroup(s: Sys, a: Journal, b: Journal)
    requires Distinct(s) && a in s.journals && b in s.journals && (a.groupId == b.groupId || a.id == b.id)
    ensures a == b
  {
    var i :| 0 <= i < |s.journals| && s.journals[i] == a;
    var j :| 0 <= j < |s.journals| && s.journals[j] == b;
    assert !(i < j) && !(j < i);
  }

  lemma CreateGains(s: Sys, t: nat, id: int, groupId: int)
    requires Inv(s) && PhaseOf(s.threads, t).Creating? && id >= s.nextId && groupId >= s.nextId
    ensures var u := PhaseOf(s.threads, t).uuid;
            var gained := Gained(Move(s, t, Idle), id, groupId, Some(u));
            Inv(gained) && Free(gained.threads, u)
  {
    var u := PhaseOf(s.threads, t).uuid;
    var aside := Move(s, t, Idle);
    MoveKeepsInv(s, t, Idle);
    AsideIsFree(s, t, u);
    assert forall t': nat | AboutToCreate(PhaseOf(aside.threads, t')) :: !Active(PhaseOf(aside.threads, t'), u);
    GainKeepsInv(aside, id, groupId, Some(u));
  }

  // A new journal, whether or not the reply names it, was created for its row.
  lemma NewBelongs(s: Sys, id: int, groupId: int, u: Uuid, reported: int)
    requires Inv(s) && id >= s.nextId && groupId >= s.nextId && (reported == id || reported == 0)
    ensures Belongs(Gained(s, id, groupId, Some(u)), u, reported, groupId)
  {
    assert forall j | j in s.journals :: j.id != id && j.groupId != groupId;
  }

  // Where a create that took effect leaves the system: its thread aside, or about to mark.
  lemma AfterCreate(s: Sys, t: nat, result: CreateResult, s': Sys)
    requires PhaseOf(s.threads, t).Creating? && Exec(true, s, Create(t, result)) == Some(s') && !result.Refused?
    ensures var u := PhaseOf(s.threads, t).uuid;
      var gained := Gained(Move(s, t, Idle), result.id, result.groupId, Some(u));
      && result.id >= s.nextId && result.groupId >= s.nextId
      && s' == if result.Created? then Move(gained, t, Marking(u, if result.listed then result.id else 0, result.groupId))
               else gained
  {
  }

  lemma CreateKeepsInv(s: Sys, t: nat, result: CreateResult, s': Sys)
    requires Inv(s) && Exec(true, s, Create(t, result)) == Some(s')
    ensures Inv(s')
  {
    MoveKeepsInv(s, t, Idle);
    if !result.Refused? {
      AfterCreate(s, t, result, s');
      var u := PhaseOf(s.threads, t).uuid;
      CreateGains(s, t, result.id, result.groupId);
      if result.Created? {
        var marking := Marking(u, if result.listed then result.id else 0, result.groupId);
        NewBelongs(Move(s, t, Idle), result.id, result.groupId, u, marking.journalId);
        MoveKeepsInv(Gained(Move(s, t, Idle), result.id, result.groupId, Some(u)), t, marking);
      }
    }
  }

  lemma SearchKeepsInv(s: Sys, t: nat, answers: bool, pick: int, s': Sys)
    requires Inv(s) && Exec(true, s, Search(t, answers, pick)) == Some(s')
    ensures Inv(s')
  {
    var p := PhaseOf(s.threads, t);
    HitsMatchCount(s.journals, p.uuid);
    MoveKeepsInv(s, t, PhaseOf(s'.threads, t));
  }

  lemma MarkingKeepsInv(s: Sys, t: nat, works: bool, s': Sys)
    requires Inv(s) && Exec(true, s, Mark(t, works)) == Some(s')
    ensures Inv(s')
  {
    var p := PhaseOf(s.threads, t);
    if works {
      MarkKeepsInv(s, p.uuid, p.journalId, p.groupId);
      MoveKeepsInv(Marked(s, p.uuid, p.journalId, p.groupId), t, Idle);
    } else {
      MoveKeepsInv(s, t, Idle);
    }
  }

  lemma UpdateKeepsInv(s: Sys, u: Uuid, groupId: int, reported: int, s': Sys)
    requires Inv(s) && Exec(true, s, UpdateInPlace(u, groupId, reported)) == Some(s')
    ensures Inv(s')
  {
    UpdateStaysHome(s, u, groupId, reported);
    MarkKeepsInv(s, u, reported, groupId);
  }

  lemma StepKeepsInv(s: Sys, a: Action, s': Sys)
    requires Inv(s) && Exec(true, s, a) == Some(s')
    ensures Inv(s')
  {
    match a
    case Begin(t, u, _, _, _) => MoveKeepsInv(s, t, PhaseOf(s'.threads, t));
    case Search(t, answers, pick) => SearchKeepsInv(s, t, answers, pick, s');
    case EnsureCurrency(t, _) => MoveKeepsInv(s, t, PhaseOf(s'.threads, t));
    case Create(t, result) => CreateKeepsInv(s, t, result, s');
    case Mark(t, works) => MarkingKeepsInv(s, t, works, s');
    case UpdateInPlace(u, groupId, reported) => UpdateKeepsInv(s, u, groupId, reported, s');
    case Elsewhere(id, groupId) => GainKeepsInv(s, id, groupId, None);
    case Delete(id) => DeleteKeepsInv(s, id);
    case _ =>
  }

  // ---- over every run ------------------------------------------------------------------------------

  // Nothing staged has reached Firefly yet.
  ghost predicate Started(s: Sys) {
    && s.threads == map[] && s.nextId > 0 && IdsBelow(s) && Distinct(s)
    && (forall j | j in s.journals :: j.external.None?)
    && (forall u | u in s.rows :: s.rows[u].txnId == 0 && s.rows[u].groupId == 0)
  }

  lemma {:induction false} NoneForAnybody(journals: seq<Journal>, u: Uuid)
    requires forall j | j in journals :: j.external.None?
    ensures CountFor(journals, u) == 0
  {
    if journals != [] {
      NoneForAnybody(journals[..|journals| - 1], u);
    }
  }

  lemma {:induction false} RunKeepsInv(s: Sys, actions: seq<Action>, s': Sys)
    requires Inv(s) && Run(true, s, actions) == Some(s')
    ensures Inv(s')
    decreases |actions|
  {
    if actions != [] {
      StepKeepsInv(s, actions[0], Exec(true, s, actions[0]).value);
      RunKeepsInv(Exec(true, s, actions[0]).value, actions[1..], s');
    }
  }

  // Over any run in which pushes of one row do not overlap, whatever fails, dies or is
  // rewritten on the way, Firefly never holds two transactions for one row; and whatever a
  // row has recorded, by journal or by group, was created for that row.
  lemma AtMostOnce(start: Sys, actions: seq<Action>, s: Sys, u: Uuid)
    requires Started(start) && Run(true, start, actions) == Some(s)
    ensures CountFor(s.journals, u) <= 1
    ensures u in s.rows && s.rows[u].txnId != 0 ==>
      forall j | j in s.journals && j.id == s.rows[u].txnId :: j.external == Some(u)
    ensures u in s.rows && s.rows[u].groupId != 0 ==>
      forall j | j in s.journals && j.groupId == s.rows[u].groupId :: j.external == Some(u)
  {
    forall v ensures CountFor(start.journals, v) == 0 {
      NoneForAnybody(start.journals, v);
    }
    assert Inv(start);
    RunKeepsInv(start, actions, s);
  }

  // ---- a second transaction, exactly when ----------------------------------------------------------

  // A create that takes effect for a row Firefly holds a journal for already.
  predicate Doubles(s: Sys, a: Action) {
    && a.Create? && !a.result.Refused? && PhaseOf(s.threads, a.thread).Creating?
    && CountFor(s.journals, PhaseOf(s.threads, a.thread).uuid) >= 1
  }

  lemma GainDoubles(s: Sys, id: int, groupId: int, external: Option<Uuid>)
    requires OneEach(s)
    ensures OneEach(Gained(s, id, groupId, external)) <==> (external.Some? ==> CountFor(s.journals, external.value) == 0)
  {
    var j := Journal(id, groupId, external);
    forall u ensures CountFor(s.journals + [j], u) == CountFor(s.journals, u) + if external == Some(u) then 1 else 0 {
      CountAfter(s.journals, j, u);
    }
  }

  // With pushes of one row overlapping as they may, a step leaves at most one journal per row if
  // and only if it does not create over one.
  lemma SecondJournalExactlyWhen(s: Sys, a: Action, s': Sys)
    requires OneEach(s) && Exec(false, s, a) == Some(s')
    ensures OneEach(s') <==> !Doubles(s, a)
  {
    if a.Create? && !a.result.Refused? {
      var u := PhaseOf(s.threads, a.thread).uuid;
      GainDoubles(s, a.result.id, a.result.groupId, Some(u));
      assert s'.journals == Gained(s, a.result.id, a.result.groupId, Some(u)).journals;
    } else if a.Elsewhere? {
      GainDoubles(s, a.id, a.groupId, None);
    } else if a.Delete? {
      forall u ensures CountFor(s'.journals, u) <= 1 {
        WithoutCounts(s.journals, a.id, u);
      }
    } else {
      assert s'.journals == s.journals;
    }
  }

  // Between its search and its create, t is overtaken: another push creates for the same row.
  predicate Overtakes(s: Sys, a: Action, t: nat, u: Uuid) {
    && AboutToCreate(PhaseOf(s.threads, t)) && PhaseOf(s.threads, t).uuid == u
    && a.Create? && a.thread != t && !a.result.Refused? && PhaseOf(s.threads, a.thread) == Creating(u)
  }

  predicate Missing(s: Sys, t: nat, u: Uuid) {
    AboutToCreate(PhaseOf(s.threads, t)) && PhaseOf(s.threads, t).uuid == u && CountFor(s.journals, u) >= 1
  }

  lemma MissingAfterCreate(s: Sys, t': nat, result: CreateResult, s': Sys, t: nat, u: Uuid)
    requires Exec(false, s, Create(t', result)) == Some(s') && Missing(s', t, u)
    ensures Missing(s, t, u) || Overtakes(s, Create(t', result), t, u)
  {
    assert t' != t && PhaseOf(s'.threads, t) == PhaseOf(s.threads, t);
    if !result.Refused? {
      var j := Journal(result.id, result.groupId, Some(PhaseOf(s.threads, t').uuid));
      assert s'.journals == s.journals + [j];
      CountAfter(s.journals, j, u);
    }
  }

  // A search that found nothing leaves nothing missing.
  lemma MissingAfterSearch(s: Sys, t': nat, answers: bool, pick: int, s': Sys, t: nat, u: Uuid)
    requires Exec(false, s, Search(t', answers, pick)) == Some(s') && Missing(s', t, u)
    ensures Missing(s, t, u)
  {
    HitsMatchCount(s.journals, PhaseOf(s.threads, t').uuid);
    assert t' == t || PhaseOf(s'.threads, t) == PhaseOf(s.threads, t);
  }

  // What a push on its way to create does not know of, it did not know of a step before, or has just
  // been overtaken.
  lemma MissingSince(s: Sys, a: Action, s': Sys, t: nat, u: Uuid)
    requires Exec(false, s, a) == Some(s') && Missing(s', t, u)
    ensures Missing(s, t, u) || Overtakes(s, a, t, u)
  {
    match a
    case Search(t', answers, pick) => MissingAfterSearch(s, t', answers, pick, s', t, u);
    case Create(t', result) => MissingAfterCreate(s, t', result, s', t, u);
    case Elsewhere(id, groupId) => CountAfter(s.journals, Journal(id, groupId, None), u);
    case Delete(id) => WithoutCounts(s.journals, id, u);
    case _ =>
  }

  lemma {:induction false} RunLast(exclusive: bool, s: Sys, front: seq<Action>, last: Action)
    ensures Run(exclusive, s, front + [last])
         == if Run(exclusive, s, front).None? then None else Exec(exclusive, Run(exclusive, s, front).value, last)
    decreases |front|
  {
    if front == [] {
      assert front + [last] == [last] && [last][1..] == [];
      if Exec(exclusive, s, last).Some? {
        assert Run(exclusive, Exec(exclusive, s, last).value, []) == Exec(exclusive, s, last);
      }
    } else {
      assert (front + [last])[0] == front[0] && (front + [last])[1..] == front[1..] + [last];
      if Exec(exclusive, s, front[0]).Some? {
        RunLast(exclusive, Exec(exclusive, s, front[0]).value, front[1..], last);
      }
    }
  }

  // In any run, a push about to create over a journal has been overtaken by another push of its row
  // since it searched: there is no other cause.
  lemma {:induction false} SecondJournalHasACause(start: Sys, actions: seq<Action>, s: Sys, t: nat, u: Uuid)
    requires start.threads == map[] && Run(false, start, actions) == Some(s) && Missing(s, t, u)
    ensures exists k: nat, between: Sys ::
      k < |actions| && Run(false, start, actions[..k]) == Some(between) && Overtakes(between, actions[k], t, u)
    decreases |actions|
  {
    var n := |actions| - 1;
    assert actions != [];
    var front := actions[..n];
    assert actions == front + [actions[n]];
    RunLast(false, start, front, actions[n]);
    var before := Run(false, start, front).value;
    MissingSince(before, actions[n], s, t, u);
    if Overtakes(before, actions[n], t, u) {
      assert Run(false, start, actions[..n]) == Some(before);
    } else {
      SecondJournalHasACause(start, front, before, t, u);
      var k: nat, between: Sys :| k < |front| && Run(false, start, front[..k]) == Some(between) && Overtakes(between, front[k], t, u);
      assert front[..k] == actions[..k] && front[k] == actions[k];
    }
  }

  // Such a run: two pushes of one row that both search before either creates
  // leave two transactions.
  lemma OverlapDuplicates(u: Uuid)
    ensures exists start: Sys, actions: seq<Action>, s: Sys ::
      Started(start) && Run(false, start, actions) == Some(s) && CountFor(s.journals, u) == 2
  {
    var start, actions, s := OverlappingRun(u);
    CountAfter([], s.journals[0], u);
    CountAfter([s.journals[0]], s.journals[1], u);
    assert s.journals == [] + [s.journals[0]] + [s.journals[1]];
  }

  lemma OverlappingRun(u: Uuid) returns (start: Sys, a: seq<Action>, s: Sys)
    ensures Started(start) && Run(false, start, a) == Some(s)
    ensures s.journals == [Journal(1, 1, Some(u)), Journal(2, 2, Some(u))]
  {
    start := Sys(map[u := Row(ReadyToPush, 0, 0)], [], 1, map[]);
    a := [Begin(0, u, true, false, true), Begin(1, u, true, false, true),
          Search(0, true, 0), Search(1, true, 0), EnsureCurrency(0, true), EnsureCurrency(1, true),
          Create(0, Created(1, 1, true)), Create(1, Created(2, 2, true))];
    var s4 := Move(Move(Move(Move(start, 0, Searching(u)), 1, Searching(u)), 0, Ensuring(u)), 1, Ensuring(u));
    var s6 := Move(Move(s4, 0, Creating(u)), 1, Creating(u));
    BothSearch(start, u, a);
    BothReachCreate(s4, u, a[4..]);
    BothCreate(s6, u, a[4..][2..]);
    s := Run(false, start, a).value;
  }

  lemma BothSearch(s: Sys, u: Uuid, a: seq<Action>)
    requires s == Sys(map[u := Row(ReadyToPush, 0, 0)], [], 1, map[]) && |a| > 4
    requires a[0] == Begin(0, u, true, false, true) && a[1] == Begin(1, u, true, false, true)
    requires a[2] == Search(0, true, 0) && a[3] == Search(1, true, 0)
    ensures Run(false, s, a)
         == Run(false, Move(Move(Move(Move(s, 0, Searching(u)), 1, Searching(u)), 0, Ensuring(u)), 1, Ensuring(u)), a[4..])
  {
    var s2 := Move(Move(s, 0, Searching(u)), 1, Searching(u));
    RunStep(s, a, Move(s, 0, Searching(u)));
    RunStep(Move(s, 0, Searching(u)), a[1..], s2);
    RunStep(s2, a[2..], Move(s2, 0, Ensuring(u)));
    RunStep(Move(s2, 0, Ensuring(u)), a[3..], Move(Move(s2, 0, Ensuring(u)), 1, Ensuring(u)));
  }

  lemma BothReachCreate(s: Sys, u: Uuid, a: seq<Action>)
    requires PhaseOf(s.threads, 0) == PhaseOf(s.threads, 1) == Ensuring(u) && |a| > 1
    requires a[0] == EnsureCurrency(0, true) && a[1] == EnsureCurrency(1, true)
    ensures Run(false, s, a) == Run(false, Move(Move(s, 0, Creating(u)), 1, Creating(u)), a[2..])
  {
    RunStep(s, a, Move(s, 0, Creating(u)));
    RunStep(Move(s, 0, Creating(u)), a[1..], Move(Move(s, 0, Creating(u)), 1, Creating(u)));
  }

  lemma BothCreate(s: Sys, u: Uuid, a: seq<Action>)
    requires PhaseOf(s.threads, 0) == PhaseOf(s.threads, 1) == Creating(u) && s.nextId == 1
    requires a == [Create(0, Created(1, 1, true)), Create(1, Created(2, 2, true))]
    ensures Run(false, s, a)
         == Some(Move(Gained(Move(Gained(s, 1, 1, Some(u)), 0, Marking(u, 1, 1)), 2, 2, Some(u)), 1, Marking(u, 2, 2)))
  {
    var s1 := Move(Gained(s, 1, 1, Some(u)), 0, Marking(u, 1, 1));
    RunStep(s, a, s1);
    RunStep(s1, a[1..], Move(Gained(s1, 2, 2, Some(u)), 1, Marking(u, 2, 2)));
  }

  lemma RunStep(s: Sys, actions: seq<Action>, s': Sys)
    requires actions != [] && Exec(false, s, actions[0]) == Some(s')
    ensures Run(false, s, actions) == Run(false, s', actions[1..])
  {
  }
}
