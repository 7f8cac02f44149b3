// The refresh-token broker (broker.go) as a machine over its atomic steps: any number
// of Token, KeepWarm and Init callers share one store and one lock, Fold rotates
// tokens, the clock moves, and the process may die and come back at any step.
module BrokerMachine {
  import opened Wrappers
  import opened TokenStore

  // lead: refresh this long before expiry. life: the least a token lives from when it is minted,
  // which is no earlier than it was asked for.
  datatype Config = Config(lead: int, life: int)

  // What a write to the store is for. A refresh remembers when its expiry check was made.
  datatype Work = Refresh(checkedAt: int) | Seed | Tombstone

  datatype Phase =
    | Idle
    | Waiting                                       // saw a stale token; queues for the lock
    | InitWaiting(seed: string, device: string)
    | Locked                                        // holds the lock, has not looked again yet
    | InitLocked(seed: string, device: string)
    | Calling(snapshot: State, checkedAt: int)      // the refresh request is with Fold
    | InitCalling(seed: string, device: string, checkedAt: int)
    | Writing(next: State, work: Work)              // in Set, before the rename
    | Written(next: State, work: Work)              // in Set, after it

  datatype Bundle = Bundle(refreshToken: string, accessToken: string, expiresAt: int)

  datatype Reply =
    | Rotated(bundle: Bundle)
    | RotatedLost(refreshToken: string)             // Fold rotated, the answer never came
    | Refused(reason: string)
    | Unreachable

  datatype Event =
    | Presented(token: string, byInit: bool)
    | Issued(token: string)
    | ReplyLost
    | PersistFailed(work: Work)
    | Stored(next: State, work: Work)
    | Crashed

  datatype Sys = Sys(
    now: int,
    memory: State,
    disk: File,
    lock: Option<nat>,
    threads: map<nat, Phase>,
    log: seq<Event>)

  datatype Action =
    | Tick(elapsed: nat)
    | Ask(thread: nat, keepWarm: bool)              // Token's fast path, or one KeepWarm tick
    | AskInit(thread: nat, seed: string, device: string, isJwt: bool)
    | Acquire(thread: nat)
    | Recheck(thread: nat)                          // look again under the lock, and call Fold
    | Answer(thread: nat, reply: Reply)
    | RenameFile(thread: nat)
    | WriteFails(thread: nat)
    | Publish(thread: nat)
    | Crash

  function PhaseOf(s: Sys, t: nat): Phase {
    if t in s.threads then s.threads[t] else Idle
  }

  predicate HoldsLock(p: Phase) {
    !p.Idle? && !p.Waiting? && !p.InitWaiting?
  }

  // A Get blocks while a Set is under way.
  predicate StoreBusy(s: Sys) {
    s.lock.Some? && (PhaseOf(s, s.lock.value).Writing? || PhaseOf(s, s.lock.value).Written?)
  }

  function Move(s: Sys, t: nat, p: Phase): Sys {
    s.(threads := s.threads[t := p])
  }

  function Release(s: Sys, t: nat): Sys {
    Move(s, t, Idle).(lock := None)
  }

  function Note(s: Sys, e: Event): Sys {
    s.(log := s.log + [e])
  }

  // The one decision Token and KeepWarm share. KeepWarm does not look at the access token.
  predicate WantsRefresh(m: State, now: int, lead: int, keepWarm: bool) {
    m.Seeded() && !m.Rejected() &&
    if keepWarm then m.expiresAt - now <= lead else !m.Fresh(now, lead)
  }

  function Entombed(s: State, now: int, reason: string): State {
    s.(rejectedAt := Some(now), rejectedReason := reason, updatedAt := now)
  }

  function FromBundle(b: Bundle, device: string, now: int): State {
    State(b.refreshToken, b.accessToken, b.expiresAt, device, now, None, "")
  }

  function ExecAnswer(cfg: Config, s: Sys, t: nat, reply: Reply): Option<Sys> {
    var p := PhaseOf(s, t);
    if !p.Calling? && !p.InitCalling? then None else
    match reply
    case Rotated(b) =>
      // The client refuses a reply without tokens. A token lives cfg.life from when it is minted,
      // however long the reply takes to arrive.
      if b.refreshToken == "" || b.accessToken == "" || b.expiresAt < p.checkedAt + cfg.life then None
      else if p.Calling? then
        Some(Move(Note(s, Issued(b.refreshToken)), t,
                  Writing(FromBundle(b, p.snapshot.deviceHash, s.now), Refresh(p.checkedAt))))
      else
        Some(Move(Note(s, Issued(b.refreshToken)), t, Writing(FromBundle(b, p.device, s.now), Seed)))
    case RotatedLost(token) =>
      Some(Release(Note(Note(s, Issued(token)), ReplyLost), t))
    case Refused(reason) =>
      if p.Calling? then Some(Move(s, t, Writing(Entombed(p.snapshot, s.now, reason), Tombstone)))
      else Some(Release(s, t))
    case Unreachable =>
      Some(Release(s, t))
  }

  // None: the action cannot happen in this state.
  function Exec(cfg: Config, s: Sys, a: Action): Option<Sys> {
    match a
    case Tick(elapsed) => Some(s.(now := s.now + elapsed))
    case Ask(t, keepWarm) =>
      if !PhaseOf(s, t).Idle? || StoreBusy(s) then None
      else if WantsRefresh(s.memory, s.now, cfg.lead, keepWarm) then Some(Move(s, t, Waiting))
      else Some(s)
    case AskInit(t, seed, device, isJwt) =>
      if !PhaseOf(s, t).Idle? then None
      else if seed == "" || device == "" || !isJwt then Some(s)
      else Some(Move(s, t, InitWaiting(seed, device)))
    case Acquire(t) =>
      if s.lock.Some? then None else (
      match PhaseOf(s, t)
      case Waiting => Some(Move(s, t, Locked).(lock := Some(t)))
      case InitWaiting(seed, device) => Some(Move(s, t, InitLocked(seed, device)).(lock := Some(t)))
      case _ => None)
    case Recheck(t) => (
      match PhaseOf(s, t)
      case Locked =>
        if WantsRefresh(s.memory, s.now, cfg.lead, false) then
          Some(Move(Note(s, Presented(s.memory.refreshToken, false)), t, Calling(s.memory, s.now)))
        else Some(Release(s, t))
      case InitLocked(seed, device) =>
        Some(Move(Note(s, Presented(seed, true)), t, InitCalling(seed, device, s.now)))
      case _ => None)
    case Answer(t, reply) => ExecAnswer(cfg, s, t, reply)
    case RenameFile(t) => (
      match PhaseOf(s, t)
      case Writing(next, work) =>
        Some(Move(Note(s, Stored(next, work)), t, Written(next, work)).(disk := Whole(next)))
      case _ => None)
    case WriteFails(t) => (
      match PhaseOf(s, t)
      case Writing(next, work) => Some(Release(Note(s, PersistFailed(work)), t))
      case _ => None)
    case Publish(t) => (
      match PhaseOf(s, t)
      case Written(next, work) => Some(Release(s, t).(memory := next))
      case _ => None)
    case Crash =>
      if Load(s.disk).Err? then None
      else Some(Note(s, Crashed).(memory := Load(s.disk).value, lock := None, threads := map[]))
  }

  function Run(cfg: Config, s: Sys, actions: seq<Action>): Option<Sys>
    decreases |actions|
  {
    if actions == [] then Some(s)
    else match Exec(cfg, s, actions[0])
      case None => None
      case Some(s') => Run(cfg, s', actions[1..])
  }

  // A process that has just opened a readable state file.
  predicate Started(s: Sys) {
    Load(s.disk) == Ok(s.memory) && s.lock.None? && s.threads == map[] && s.log == []
  }

  // ---- what the log says ------------------------------------------------------------

  // Where the newest refresh token is: on its way to the store, kept in it, or lost.
  datatype Newest = Unknown | InHand(token: string) | Kept(token: string)

  function ChainNext(before: Newest, e: Event): Newest {
    match e
    case Presented(_, _) => before
    case Issued(token) => InHand(token)
    case Stored(next, work) => if work.Tombstone? then before else Kept(next.refreshToken)
    case _ => if before.InHand? then Unknown else before
  }

  function Chain(log: seq<Event>): Newest {
    if log == [] then Unknown else
    ChainNext(Chain(log[..|log| - 1]), log[|log| - 1])
  }

  // Fold's rejection is stored and no seed has been stored since.
  predicate Dead(log: seq<Event>) {
    log != [] &&
    match log[|log| - 1]
    case Stored(_, work) => work.Tombstone? || (!work.Seed? && Dead(log[..|log| - 1]))
    case _ => Dead(log[..|log| - 1])
  }

  // When the expiry checks behind the stored refreshes were made, oldest first.
  function CheckTimes(log: seq<Event>): seq<int> {
    if log == [] then [] else
    var before := CheckTimes(log[..|log| - 1]);
    match log[|log| - 1]
    case Stored(_, work) => if work.Refresh? then before + [work.checkedAt] else before
    case _ => before
  }

  lemma Appended(log: seq<Event>, e: Event)
    ensures (log + [e])[..|log|] == log && (log + [e])[|log|] == e
  {
  }

  // ---- the invariants -----------------------------------------------------------------

  ghost predicate OneHolder(s: Sys) {
    forall t: nat :: HoldsLock(PhaseOf(s, t)) <==> s.lock == Some(t)
  }

  // The one thread inside the critical section, as the rest sees it.
  function Holder(s: Sys): Phase {
    if s.lock.Some? then PhaseOf(s, s.lock.value) else Idle
  }

  // Outside the instant between rename and publish, memory is what a restart would load.
  ghost predicate MemoryInStep(s: Sys) {
    match Holder(s)
    case Written(next, _) => s.disk == Whole(next)
    case _ => Load(s.disk) == Ok(s.memory)
  }

  ghost predicate ChainInStep(s: Sys) {
    && Load(s.disk).Ok?
    && (match Chain(s.log)
        case Kept(token) => Load(s.disk).value.refreshToken == token
        case InHand(token) =>
          Holder(s).Writing? && !Holder(s).work.Tombstone? && Holder(s).next.refreshToken == token
        case Unknown => true)
    && (Holder(s).Calling? ==> Holder(s).snapshot == s.memory)
    && (Holder(s).Writing? && !Holder(s).work.Tombstone? ==> Chain(s.log).InHand?)
    && (Holder(s).Writing? && Holder(s).work.Tombstone? ==>
          Holder(s).next.refreshToken == s.memory.refreshToken)
  }

  // Every token a refresh presents is the newest one, unless that one was lost; every token
  // stored is the one just issued; no refresh is asked for on a dead chain.
  predicate Fits(before: seq<Event>, e: Event) {
    match e
    case Presented(token, byInit) =>
      byInit || (!Dead(before) && (Chain(before) == Unknown || Chain(before) == Kept(token)))
    case Stored(next, work) => work.Tombstone? || Chain(before) == InHand(next.refreshToken)
    case _ => true
  }

  ghost predicate Orderly(log: seq<Event>) {
    forall i | 0 <= i < |log| :: Fits(log[..i], log[i])
  }

  ghost predicate DeadInStep(s: Sys) {
    && (Holder(s).Writing? && Holder(s).work.Tombstone? ==> Holder(s).next.Rejected())
    && (Dead(s.log) ==>
      && Load(s.disk).Ok? && Load(s.disk).value.Rejected()
      && !Holder(s).Calling?
      && (Holder(s).Writing? ==> Holder(s).work.Seed?))
  }

  ghost predicate Spaced(times: seq<int>, gap: int) {
    forall i | 0 <= i < |times| - 1 :: times[i + 1] - times[i] >= gap
  }

  // What the holder of the lock owes the clock, with `last` the check behind the newest
  // stored refresh.
  ghost predicate HolderInTime(cfg: Config, s: Sys, last: Option<int>) {
    match Holder(s)
    case Calling(snapshot, checkedAt) =>
      snapshot == s.memory && checkedAt <= s.now && !s.memory.Fresh(checkedAt, cfg.lead)
    case InitCalling(_, _, askedAt) => askedAt <= s.now && (last.Some? ==> last.value <= askedAt)
    case Writing(next, work) =>
      if work.Refresh? then
        && work.checkedAt <= s.now && !s.memory.Fresh(work.checkedAt, cfg.lead)
        && next.expiresAt >= work.checkedAt + cfg.life && next.accessToken != ""
      else if work.Tombstone? then
        next.expiresAt == s.memory.expiresAt && next.accessToken == s.memory.accessToken
      else last.Some? ==> next.expiresAt >= last.value + cfg.life && next.accessToken != ""
    case _ => true
  }

  ghost predicate FileInTime(cfg: Config, s: Sys, last: Option<int>) {
    last.Some? ==>
      && last.value <= s.now && Load(s.disk).Ok? && Load(s.disk).value.accessToken != ""
      && Load(s.disk).value.expiresAt >= last.value + cfg.life
  }

  function Last(times: seq<int>): Option<int> {
    if times == [] then None else Some(times[|times| - 1])
  }

  ghost predicate TimesInStep(cfg: Config, s: Sys) {
    var times := CheckTimes(s.log);
    Spaced(times, cfg.life - cfg.lead) && HolderInTime(cfg, s, Last(times)) && FileInTime(cfg, s, Last(times))
  }

  ghost predicate Inv(cfg: Config, s: Sys) {
    && OneHolder(s) && MemoryInStep(s) && ChainInStep(s) && DeadInStep(s) && TimesInStep(cfg, s)
    && Orderly(s.log)
  }

  // ---- one step ------------------------------------------------------------------------

  lemma HolderIsActor(s: Sys, t: nat)
    requires OneHolder(s) && HoldsLock(PhaseOf(s, t))
    ensures s.lock == Some(t) && Holder(s) == PhaseOf(s, t)
  {
  }

  lemma StepKeepsOneHolder(cfg: Config, s: Sys, a: Action, s': Sys)
    requires OneHolder(s) && Exec(cfg, s, a) == Some(s')
    ensures OneHolder(s')
  {
    match a
    case Answer(t, _) => HolderIsActor(s, t);
    case _ =>
  }

  lemma StepKeepsMemoryInStep(cfg: Config, s: Sys, a: Action, s': Sys)
    requires OneHolder(s) && MemoryInStep(s) && Exec(cfg, s, a) == Some(s')
    ensures MemoryInStep(s')
  {
    StepKeepsOneHolder(cfg, s, a, s');
  }

  lemma ChainAfter(log: seq<Event>, e: Event)
    ensures Chain(log + [e]) == ChainNext(Chain(log), e)
  {
    Appended(log, e);
  }

  lemma RotationKeepsChain(cfg: Config, s: Sys, t: nat, reply: Reply, s': Sys)
    requires OneHolder(s) && OneHolder(s') && MemoryInStep(s) && ChainInStep(s) && reply.Rotated?
    requires Exec(cfg, s, Answer(t, reply)) == Some(s')
    ensures ChainInStep(s')
  {
    HolderIsActor(s, t);
    HolderIsActor(s', t);
    ChainAfter(s.log, Issued(reply.bundle.refreshToken));
  }

  lemma LossKeepsChain(cfg: Config, s: Sys, t: nat, reply: Reply, s': Sys)
    requires OneHolder(s) && OneHolder(s') && MemoryInStep(s) && ChainInStep(s) && reply.RotatedLost?
    requires Exec(cfg, s, Answer(t, reply)) == Some(s')
    ensures ChainInStep(s')
  {
    HolderIsActor(s, t);
    ChainAfter(s.log, Issued(reply.refreshToken));
    ChainAfter(s.log + [Issued(reply.refreshToken)], ReplyLost);
  }

  lemma AnswerKeepsChain(cfg: Config, s: Sys, t: nat, reply: Reply, s': Sys)
    requires OneHolder(s) && OneHolder(s') && MemoryInStep(s) && ChainInStep(s)
    requires Exec(cfg, s, Answer(t, reply)) == Some(s')
    ensures ChainInStep(s')
  {
    if reply.Rotated? {
      RotationKeepsChain(cfg, s, t, reply, s');
    } else if reply.RotatedLost? {
      LossKeepsChain(cfg, s, t, reply, s');
    } else {
      HolderIsActor(s, t);
      if HoldsLock(PhaseOf(s', t)) {
        HolderIsActor(s', t);
      }
    }
  }

  // The steps that go out on the log one event at a time.
  lemma LoggedStepKeepsChain(cfg: Config, s: Sys, a: Action, s': Sys)
    requires OneHolder(s) && OneHolder(s') && MemoryInStep(s) && ChainInStep(s) && Exec(cfg, s, a) == Some(s')
    requires a.Recheck? || a.RenameFile? || a.WriteFails?
    ensures ChainInStep(s')
  {
    HolderIsActor(s, a.thread);
    if HoldsLock(PhaseOf(s', a.thread)) {
      HolderIsActor(s', a.thread);
    }
    if |s'.log| == |s.log| + 1 {
      ChainAfter(s.log, s'.log[|s.log|]);
    }
  }

  lemma QuietStepKeepsChain(cfg: Config, s: Sys, a: Action, s': Sys)
    requires OneHolder(s) && OneHolder(s') && MemoryInStep(s) && ChainInStep(s) && Exec(cfg, s, a) == Some(s')
    requires a.Tick? || a.Ask? || a.AskInit? || a.Acquire? || a.Publish? || a.Crash?
    ensures ChainInStep(s')
  {
    match a
    case Acquire(t) => HolderIsActor(s', t);
    case Publish(t) => HolderIsActor(s, t);
    case Crash => ChainAfter(s.log, Crashed);
    case _ =>
  }

  lemma StepKeepsChain(cfg: Config, s: Sys, a: Action, s': Sys)
    requires OneHolder(s) && MemoryInStep(s) && ChainInStep(s) && Exec(cfg, s, a) == Some(s')
    ensures ChainInStep(s')
  {
    StepKeepsOneHolder(cfg, s, a, s');
    if a.Answer? {
      AnswerKeepsChain(cfg, s, a.thread, a.reply, s');
    } else if a.Recheck? || a.RenameFile? || a.WriteFails? {
      LoggedStepKeepsChain(cfg, s, a, s');
    } else {
      QuietStepKeepsChain(cfg, s, a, s');
    }
  }

  lemma DeadAfter(log: seq<Event>, e: Event)
    ensures Dead(log + [e]) <==>
      if e.Stored? then e.work.Tombstone? || (!e.work.Seed? && Dead(log)) else Dead(log)
  {
    Appended(log, e);
  }

  lemma LogGrows(cfg: Config, s: Sys, a: Action, s': Sys)
    requires Exec(cfg, s, a) == Some(s')
    ensures s'.log == s.log || (|s'.log| == |s.log| + 1 && s'.log == s.log + [s'.log[|s.log|]])
         || (a.Answer? && a.reply.RotatedLost? && s'.log == s.log + [Issued(a.reply.refreshToken)] + [ReplyLost])
  {
  }

  lemma DeadAfterStep(cfg: Config, s: Sys, a: Action, s': Sys)
    requires Exec(cfg, s, a) == Some(s') && !a.RenameFile?
    ensures Dead(s'.log) <==> Dead(s.log)
  {
    LogGrows(cfg, s, a, s');
    if a.Answer? && a.reply.RotatedLost? {
      DeadAfter(s.log, Issued(a.reply.refreshToken));
      DeadAfter(s.log + [Issued(a.reply.refreshToken)], ReplyLost);
    } else if s'.log != s.log {
      DeadAfter(s.log, s'.log[|s.log|]);
    }
  }

  lemma StepKeepsDead(cfg: Config, s: Sys, a: Action, s': Sys)
    requires OneHolder(s) && MemoryInStep(s) && DeadInStep(s) && Exec(cfg, s, a) == Some(s')
    ensures DeadInStep(s')
  {
    StepKeepsOneHolder(cfg, s, a, s');
    if a.RenameFile? {
      HolderIsActor(s, a.thread);
      HolderIsActor(s', a.thread);
      DeadAfter(s.log, s'.log[|s.log|]);
    } else {
      DeadAfterStep(cfg, s, a, s');
    }
  }

  lemma OrderlyGrows(log: seq<Event>, e: Event)
    requires Orderly(log) && Fits(log, e)
    ensures Orderly(log + [e])
  {
    forall i | 0 <= i < |log + [e]| ensures Fits((log + [e])[..i], (log + [e])[i]) {
      assert (log + [e])[..i] == log[..i];
      assert log[..|log|] == log;
    }
  }

  lemma StepKeepsOrderly(cfg: Config, s: Sys, a: Action, s': Sys)
    requires OneHolder(s) && MemoryInStep(s) && ChainInStep(s) && DeadInStep(s) && Orderly(s.log)
    requires Exec(cfg, s, a) == Some(s')
    ensures Orderly(s'.log)
  {
    LogGrows(cfg, s, a, s');
    if a.Answer? && a.reply.RotatedLost? {
      OrderlyGrows(s.log, Issued(a.reply.refreshToken));
      OrderlyGrows(s.log + [Issued(a.reply.refreshToken)], ReplyLost);
    } else if s'.log != s.log {
      OrderlyGrows(s.log, s'.log[|s.log|]);
    }
  }

  lemma TimesAfter(log: seq<Event>, e: Event)
    ensures CheckTimes(log + [e])
         == if e.Stored? && e.work.Refresh? then CheckTimes(log) + [e.work.checkedAt] else CheckTimes(log)
  {
    Appended(log, e);
  }

  lemma SpacedGrows(times: seq<int>, gap: int, next: int)
    requires Spaced(times, gap) && (times != [] ==> next - times[|times| - 1] >= gap)
    ensures Spaced(times + [next], gap)
  {
  }

  lemma RenameKeepsTimes(cfg: Config, s: Sys, t: nat, s': Sys)
    requires OneHolder(s) && OneHolder(s') && MemoryInStep(s) && TimesInStep(cfg, s)
    requires Exec(cfg, s, RenameFile(t)) == Some(s')
    ensures TimesInStep(cfg, s')
  {
    HolderIsActor(s, t);
    HolderIsActor(s', t);
    var work := PhaseOf(s, t).work;
    var times := CheckTimes(s.log);
    TimesAfter(s.log, s'.log[|s.log|]);
    if work.Refresh? {
      SpacedGrows(times, cfg.life - cfg.lead, work.checkedAt);
      assert CheckTimes(s'.log) == times + [work.checkedAt];
    }
  }

  // Every other step stores nothing, so the times stand.
  lemma OtherStepsKeepTimes(cfg: Config, s: Sys, a: Action, s': Sys)
    requires Exec(cfg, s, a) == Some(s') && !a.RenameFile?
    ensures CheckTimes(s'.log) == CheckTimes(s.log)
  {
    LogGrows(cfg, s, a, s');
    if a.Answer? && a.reply.RotatedLost? {
      TimesAfter(s.log, Issued(a.reply.refreshToken));
      TimesAfter(s.log + [Issued(a.reply.refreshToken)], ReplyLost);
    } else if s'.log != s.log {
      TimesAfter(s.log, s'.log[|s.log|]);
    }
  }

  lemma AnswerKeepsHolder(cfg: Config, s: Sys, t: nat, reply: Reply, s': Sys, last: Option<int>)
    requires OneHolder(s) && OneHolder(s') && Exec(cfg, s, Answer(t, reply)) == Some(s')
    requires HolderInTime(cfg, s, last) && FileInTime(cfg, s, last)
    ensures HolderInTime(cfg, s', last) && FileInTime(cfg, s', last)
  {
    HolderIsActor(s, t);
    if HoldsLock(PhaseOf(s', t)) {
      HolderIsActor(s', t);
    }
  }

  lemma OtherStepsKeepHolder(cfg: Config, s: Sys, a: Action, s': Sys, last: Option<int>)
    requires OneHolder(s) && OneHolder(s') && MemoryInStep(s) && Exec(cfg, s, a) == Some(s')
    requires !a.RenameFile? && !a.Answer?
    requires HolderInTime(cfg, s, last) && FileInTime(cfg, s, last)
    ensures HolderInTime(cfg, s', last) && FileInTime(cfg, s', last)
  {
    match a
    case Recheck(t) =>
      HolderIsActor(s, t);
      if HoldsLock(PhaseOf(s', t)) {
        HolderIsActor(s', t);
      }
    case _ =>
  }

  lemma StepKeepsTimes(cfg: Config, s: Sys, a: Action, s': Sys)
    requires OneHolder(s) && MemoryInStep(s) && TimesInStep(cfg, s)
    requires Exec(cfg, s, a) == Some(s')
    ensures TimesInStep(cfg, s')
  {
    StepKeepsOneHolder(cfg, s, a, s');
    if a.RenameFile? {
      RenameKeepsTimes(cfg, s, a.thread, s');
    } else {
      OtherStepsKeepTimes(cfg, s, a, s');
      var last := Last(CheckTimes(s.log));
      if a.Answer? {
        AnswerKeepsHolder(cfg, s, a.thread, a.reply, s', last);
      } else {
        OtherStepsKeepHolder(cfg, s, a, s', last);
      }
    }
  }

  lemma StepKeepsInv(cfg: Config, s: Sys, a: Action, s': Sys)
    requires Inv(cfg, s) && Exec(cfg, s, a) == Some(s')
    ensures Inv(cfg, s')
  {
    StepKeepsOneHolder(cfg, s, a, s');
    StepKeepsMemoryInStep(cfg, s, a, s');
    StepKeepsChain(cfg, s, a, s');
    StepKeepsDead(cfg, s, a, s');
    StepKeepsTimes(cfg, s, a, s');
    StepKeepsOrderly(cfg, s, a, s');
  }

  lemma {:induction false} RunKeepsInv(cfg: Config, s: Sys, actions: seq<Action>, s': Sys)
    requires Inv(cfg, s) && Run(cfg, s, actions) == Some(s')
    ensures Inv(cfg, s')
    decreases |actions|
  {
    if actions != [] {
      var next := Exec(cfg, s, actions[0]).value;
      StepKeepsInv(cfg, s, actions[0], next);
      RunKeepsInv(cfg, next, actions[1..], s');
    }
  }

  // ---- the promises, over every run ------------------------------------------------------

  ghost predicate Reachable(cfg: Config, s: Sys) {
    exists start: Sys, actions: seq<Action> :: Started(start) && Run(cfg, start, actions) == Some(s)
  }

  lemma ReachableKeepsInv(cfg: Config, s: Sys)
    requires Reachable(cfg, s)
    ensures Inv(cfg, s)
  {
    var start: Sys, actions: seq<Action> :| Started(start) && Run(cfg, start, actions) == Some(s);
    RunKeepsInv(cfg, start, actions, s);
  }

  // A caller goes for a refresh exactly when the record in memory is seeded, not rejected, and expires
  // within the lead, or, but for the keep-warm loop, has no access token.
  lemma AsksExactlyWhen(cfg: Config, s: Sys, t: nat, keepWarm: bool)
    requires PhaseOf(s, t).Idle? && !StoreBusy(s)
    ensures var next := Exec(cfg, s, Ask(t, keepWarm));
      && next.Some? && next.value.memory == s.memory && next.value.disk == s.disk && next.value.lock == s.lock
      && (PhaseOf(next.value, t).Waiting? <==>
            && s.memory.refreshToken != "" && s.memory.deviceHash != "" && s.memory.rejectedAt.None?
            && (s.memory.expiresAt <= s.now + cfg.lead || (!keepWarm && s.memory.accessToken == "")))
  {
  }

  // The process may die at any moment of any run, and comes back with what the disk holds.
  lemma AnyMomentMayBeTheLast(cfg: Config, s: Sys)
    requires Reachable(cfg, s)
    ensures var next := Exec(cfg, s, Crash);
      && next.Some? && Load(s.disk) == Ok(next.value.memory) && next.value.disk == s.disk
      && next.value.lock.None? && forall t: nat :: PhaseOf(next.value, t).Idle?
  {
    ReachableKeepsInv(cfg, s);
  }

  predicate WithFold(p: Phase) { p.Calling? || p.InitCalling? }

  // At most one caller of the running process waits for Fold, and outside a Set memory is what a
  // restart would load. Fold may still be working on a request whose caller has given up or died.
  lemma OneCallInFlight(cfg: Config, s: Sys, t: nat, u: nat)
    requires Reachable(cfg, s)
    ensures WithFold(PhaseOf(s, t)) && WithFold(PhaseOf(s, u)) ==> t == u
    ensures !StoreBusy(s) ==> Load(s.disk) == Ok(s.memory)
  {
    ReachableKeepsInv(cfg, s);
  }

  predicate IsFault(e: Event) {
    e.ReplyLost? || e.PersistFailed? || e.Crashed?
  }

  // The token issued at j was written to disk at some point before k.
  ghost predicate StoredBetween(log: seq<Event>, j: nat, k: nat)
    requires k <= |log|
  {
    exists m | j < m < k :: log[m].Stored? && !log[m].work.Tombstone?
  }

  // A fault hit the token issued at j before it reached the disk, and before i.
  ghost predicate LostBetween(log: seq<Event>, j: nat, i: nat)
    requires i <= |log|
  {
    exists k | j < k < i :: IsFault(log[k]) && !StoredBetween(log, j, k)
  }

  lemma {:induction false} ChainSince(log: seq<Event>, j: nat, n: nat)
    requires Orderly(log) && j < n <= |log| && log[j].Issued?
    requires forall k | j < k < n :: !log[k].Issued?
    requires !LostBetween(log, j, n)
    ensures Chain(log[..n]) ==
      if StoredBetween(log, j, n) then Kept(log[j].token) else InHand(log[j].token)
    decreases n
  {
    assert log[..n][..n - 1] == log[..n - 1];
    if n == j + 1 {
      return;
    }
    ChainSince(log, j, n - 1);
    assert Fits(log[..n - 1], log[n - 1]);
    if log[n - 1].Stored? && !log[n - 1].work.Tombstone? {
      assert StoredBetween(log, j, n);
    } else if StoredBetween(log, j, n) {
      assert StoredBetween(log, j, n - 1);
    } else {
      assert !StoredBetween(log, j, n - 1);
    }
  }

  // Every refresh presents the token Fold issued last, unless a reply was lost, a write
  // failed or the process died before that token had reached the disk.
  lemma RefreshPresentsLastToken(cfg: Config, s: Sys, j: nat, i: nat)
    requires Reachable(cfg, s)
    requires j < i < |s.log| && s.log[j].Issued? && s.log[i].Presented? && !s.log[i].byInit
    requires forall k | j < k < i :: !s.log[k].Issued?
    ensures s.log[i].token == s.log[j].token || LostBetween(s.log, j, i)
  {
    ReachableKeepsInv(cfg, s);
    if !LostBetween(s.log, j, i) {
      ChainSince(s.log, j, i);
      assert Fits(s.log[..i], s.log[i]);
    }
  }

  lemma {:induction false} DeadSince(log: seq<Event>, j: nat, n: nat)
    requires j < n <= |log| && log[j].Stored? && log[j].work.Tombstone?
    requires forall k | j < k < n :: !(log[k].Stored? && log[k].work.Seed?)
    ensures Dead(log[..n])
    decreases n
  {
    assert log[..n][..n - 1] == log[..n - 1];
    if n > j + 1 {
      DeadSince(log, j, n - 1);
    }
  }

  // Once a rejection is stored, nobody asks Fold for a refresh again, whatever threads
  // and restarts follow, until a new seed is stored.
  lemma NoRefreshAfterRejection(cfg: Config, s: Sys, j: nat, i: nat)
    requires Reachable(cfg, s)
    requires j < i < |s.log| && s.log[j].Stored? && s.log[j].work.Tombstone?
    requires s.log[i].Presented? && !s.log[i].byInit
    ensures exists k | j < k < i :: s.log[k].Stored? && s.log[k].work.Seed?
  {
    ReachableKeepsInv(cfg, s);
    assert Fits(s.log[..i], s.log[i]);
    if !(exists k | j < k < i :: s.log[k].Stored? && s.log[k].work.Seed?) {
      DeadSince(s.log, j, i);
    }
  }

  lemma {:induction false} LogOnlyGrows(cfg: Config, s: Sys, actions: seq<Action>, s': Sys)
    requires Run(cfg, s, actions) == Some(s')
    ensures s.log <= s'.log
    decreases |actions|
  {
    if actions != [] {
      LogOnlyGrows(cfg, Exec(cfg, s, actions[0]).value, actions[1..], s');
    }
  }

  lemma FileChangesByStoring(cfg: Config, s: Sys, a: Action, s': Sys)
    requires Exec(cfg, s, a) == Some(s')
    ensures s'.disk == s.disk || exists i | |s.log| <= i < |s'.log| :: s'.log[i].Stored?
  {
    if a.RenameFile? {
      assert s'.log[|s.log|].Stored?;
    }
  }

  lemma {:induction false} RunWithoutStoringKeepsFile(cfg: Config, s: Sys, actions: seq<Action>, s': Sys)
    requires Run(cfg, s, actions) == Some(s')
    requires forall i | |s.log| <= i < |s'.log| :: !s'.log[i].Stored?
    ensures s'.disk == s.disk
    decreases |actions|
  {
    if actions != [] {
      var next := Exec(cfg, s, actions[0]).value;
      LogOnlyGrows(cfg, next, actions[1..], s');
      FileChangesByStoring(cfg, s, actions[0], next);
      RunWithoutStoringKeepsFile(cfg, next, actions[1..], s');
    }
  }

  // Over a run of any threads in which no record reaches the disk, the broker's state stays
  // as it was, tombstone included.
  lemma OnlyStoringChangesState(cfg: Config, s: Sys, actions: seq<Action>, s': Sys)
    requires Reachable(cfg, s) && Run(cfg, s, actions) == Some(s')
    requires forall i | |s.log| <= i < |s'.log| :: !s'.log[i].Stored?
    ensures s'.disk == s.disk
    ensures !StoreBusy(s) && !StoreBusy(s') ==> s'.memory == s.memory
  {
    ReachableKeepsInv(cfg, s);
    RunKeepsInv(cfg, s, actions, s');
    RunWithoutStoringKeepsFile(cfg, s, actions, s');
  }

  // The lock is t's before each of these actions.
  predicate HeldThroughout(cfg: Config, s: Sys, t: nat, actions: seq<Action>)
    decreases |actions|
  {
    actions != [] ==>
      s.lock == Some(t) && (Exec(cfg, s, actions[0]).Some? ==> HeldThroughout(cfg, Exec(cfg, s, actions[0]).value, t, actions[1..]))
  }

  // One step of others, or of the holder short of its rename, while t is inside.
  lemma StepInsideKeepsState(cfg: Config, s: Sys, t: nat, a: Action, s': Sys)
    requires Inv(cfg, s) && s.lock == Some(t) && !PhaseOf(s, t).Written? && a != RenameFile(t)
    requires Exec(cfg, s, a) == Some(s')
    ensures s'.disk == s.disk && s'.memory == s.memory && !PhaseOf(s', t).Written?
  {
    if a.RenameFile? || a.Publish? {
      HolderIsActor(s, a.thread);
    }
  }

  // Whatever the others do meanwhile, a critical section, Token's or Init's, that ends without
  // its own rename (refused, unreachable, a failed write, a crash) leaves the record on disk and
  // in memory, a tombstone included, as they were when it took the lock.
  lemma {:induction false} SectionWithoutRenameKeepsState(cfg: Config, s: Sys, t: nat, actions: seq<Action>, s': Sys)
    requires Inv(cfg, s) && !PhaseOf(s, t).Written? && HeldThroughout(cfg, s, t, actions)
    requires Run(cfg, s, actions) == Some(s') && RenameFile(t) !in actions
    ensures s'.disk == s.disk && s'.memory == s.memory
    decreases |actions|
  {
    if actions != [] {
      var next := Exec(cfg, s, actions[0]).value;
      StepKeepsInv(cfg, s, actions[0], next);
      StepInsideKeepsState(cfg, s, t, actions[0], next);
      SectionWithoutRenameKeepsState(cfg, next, t, actions[1..], s');
    }
  }

  // While t holds the lock after its rename, nobody else stores, and it lets go by publishing what
  // it renamed, or with the process.
  lemma {:induction false} AfterRename(cfg: Config, s: Sys, t: nat, actions: seq<Action>, s': Sys, next: State)
    requires Inv(cfg, s) && HeldThroughout(cfg, s, t, actions) && Run(cfg, s, actions) == Some(s')
    requires s.disk == Whole(next) && if s.lock == Some(t) then PhaseOf(s, t).Written? && PhaseOf(s, t).next == next else s.memory == next
    ensures s'.disk == Whole(next) && (s'.lock != Some(t) ==> s'.memory == next) && (Dead(s'.log) <==> Dead(s.log))
    decreases |actions|
  {
    if actions != [] {
      var after := Exec(cfg, s, actions[0]).value;
      StepKeepsInv(cfg, s, actions[0], after);
      AfterRenameStep(cfg, s, t, actions[0], after);
      AfterRename(cfg, after, t, actions[1..], s', next);
    }
  }

  lemma AfterRenameStep(cfg: Config, s: Sys, t: nat, a: Action, s': Sys)
    requires Inv(cfg, s) && s.lock == Some(t) && PhaseOf(s, t).Written? && Exec(cfg, s, a) == Some(s')
    requires s.disk == Whole(PhaseOf(s, t).next)
    ensures s'.disk == s.disk && (Dead(s'.log) <==> Dead(s.log))
    ensures if s'.lock == Some(t) then PhaseOf(s', t) == PhaseOf(s, t) else s'.memory == PhaseOf(s, t).next
  {
    if a.RenameFile? || a.Publish? || a.WriteFails? || a.Recheck? || a.Answer? {
      HolderIsActor(s, a.thread);
    }
    DeadAfterStep(cfg, s, a, s');
  }

  // And one that does rename leaves its own record in both places once it is over, by publishing
  // or by dying: rejected exactly when it is a tombstone, so that an Init's seed ends a rejection.
  lemma SectionWithRenameLeavesItsRecord(cfg: Config, s: Sys, t: nat, actions: seq<Action>, s': Sys)
    requires Inv(cfg, s) && actions != [] && actions[0] == RenameFile(t)
    requires HeldThroughout(cfg, s, t, actions) && Run(cfg, s, actions) == Some(s') && s'.lock != Some(t)
    ensures PhaseOf(s, t).Writing? && s'.memory == PhaseOf(s, t).next && s'.disk == Whole(PhaseOf(s, t).next)
    ensures Dead(s'.log) <==> PhaseOf(s, t).work.Tombstone?
  {
    var after := Exec(cfg, s, actions[0]).value;
    HolderIsActor(s, t);
    StepKeepsInv(cfg, s, actions[0], after);
    DeadAfter(s.log, after.log[|s.log|]);
    AfterRename(cfg, after, t, actions[1..], s', PhaseOf(s, t).next);
  }

  lemma {:induction false} SpacedApart(times: seq<int>, gap: int, i: nat, k: nat)
    requires Spaced(times, gap) && i <= k < |times|
    ensures times[k] - times[i] >= (k - i) * gap
    decreases k
  {
    if i < k {
      SpacedApart(times, gap, i, k - 1);
    }
  }

  // If every minted token lives cfg.life, the checks behind stored refreshes are at least
  // life - lead apart, over any threads, ticks and restarts: a window of the given length
  // holds at most 1 + length / (life - lead) of them.
  lemma RefreshesAreRationed(cfg: Config, s: Sys, i: nat, k: nat, length: int)
    requires Reachable(cfg, s) && cfg.life > cfg.lead
    requires i <= k < |CheckTimes(s.log)| && CheckTimes(s.log)[k] - CheckTimes(s.log)[i] <= length
    ensures k > i ==> CheckTimes(s.log)[i + 1] - CheckTimes(s.log)[i] >= cfg.life - cfg.lead
    ensures k - i + 1 <= 1 + length / (cfg.life - cfg.lead)
  {
    ReachableKeepsInv(cfg, s);
    var gap := cfg.life - cfg.lead;
    SpacedApart(CheckTimes(s.log), gap, i, k);
    DivisionBound(k - i, gap, length);
  }

  lemma DivisionBound(n: nat, gap: int, length: int)
    requires gap > 0 && n * gap <= length
    ensures n <= length / gap
  {
    var q := length / gap;
    assert n > q ==> (n - q - 1) * gap >= 0;
  }

  // A rejection whose tombstone could not be written is forgotten: memory keeps the old
  // record, and the next caller presents the rejected token again.
  lemma UnwrittenTombstoneIsForgotten(cfg: Config, s: Sys, t: nat, s1: Sys, s2: Sys, s3: Sys, s4: Sys)
    requires Inv(cfg, s) && PhaseOf(s, t).Writing? && PhaseOf(s, t).work.Tombstone?
    requires WantsRefresh(s.memory, s.now, cfg.lead, false)
    requires Exec(cfg, s, WriteFails(t)) == Some(s1) && Exec(cfg, s1, Ask(t, false)) == Some(s2)
    requires Exec(cfg, s2, Acquire(t)) == Some(s3) && Exec(cfg, s3, Recheck(t)) == Some(s4)
    ensures !s1.memory.Rejected()
    ensures s4.log == s1.log + [Presented(PhaseOf(s, t).next.refreshToken, false)]
  {
    HolderIsActor(s, t);
  }
}
