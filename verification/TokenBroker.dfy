// The broker's own methods (broker.go), one caller at a time, over the Store object. Each
// is proved against an outcome function, and each outcome is one uninterrupted run of the
// concurrent machine.
module TokenBroker {
  import opened Wrappers
  import opened TokenStore
  import opened BrokerMachine

  datatype AccessToken = AccessToken(accessToken: string, deviceHash: string, userUuid: string, expiresAt: int)

  datatype BrokerError = NotSeeded | RefreshRejected(reason: string) | BadInput | Upstream | NotPersisted | NoSubject

  // What one call does: its answer, the record it leaves behind, and whether it asked Fold.
  datatype CallOutcome = CallOutcome(
    answer: Result<AccessToken, BrokerError>, record: State, calledFold: bool)

  // The subject claim of a refresh token, when it is a JWT that has one.
  type SubjectOf = string -> Option<string>

  function Served(subject: SubjectOf, s: State): Result<AccessToken, BrokerError> {
    match subject(s.refreshToken)
    case None => Err(NoSubject)
    case Some(user) => Ok(AccessToken(s.accessToken, s.deviceHash, user, s.expiresAt))
  }

  predicate Usable(b: Bundle) { b.refreshToken != "" && b.accessToken != "" }

  function Kept(subject: SubjectOf, before: State, next: State, fault: Fault): CallOutcome {
    if OutcomeOf(fault) == Done then CallOutcome(Served(subject, next), next, true)
    else CallOutcome(Err(NotPersisted), before, true)
  }

  function TokenOutcome(subject: SubjectOf, lead: int, s: State, now: int, reply: Reply, fault: Fault): CallOutcome {
    if !s.Seeded() then CallOutcome(Err(NotSeeded), s, false)
    else if s.Rejected() then CallOutcome(Err(RefreshRejected(s.rejectedReason)), s, false)
    else if s.Fresh(now, lead) then CallOutcome(Served(subject, s), s, false)
    else match reply
      case Refused(reason) =>
        CallOutcome(Err(RefreshRejected(reason)), if OutcomeOf(fault) == Done then Entombed(s, now, reason) else s, true)
      case Rotated(b) =>
        if Usable(b) then Kept(subject, s, FromBundle(b, s.deviceHash, now), fault)
        else CallOutcome(Err(Upstream), s, true)
      case _ => CallOutcome(Err(Upstream), s, true)
  }

  function InitOutcome(subject: SubjectOf, s: State, seed: string, device: string, now: int, reply: Reply, fault: Fault): CallOutcome {
    if seed == "" || device == "" || subject(seed).None? then CallOutcome(Err(BadInput), s, false)
    else match reply
      case Rotated(b) =>
        if Usable(b) then Kept(subject, s, FromBundle(b, device, now), fault)
        else CallOutcome(Err(Upstream), s, true)
      case Refused(reason) => CallOutcome(Err(RefreshRejected(reason)), s, true)
      case _ => CallOutcome(Err(Upstream), s, true)
  }

  class Broker {
    const store: Store
    const lead: int
    const subject: SubjectOf

    constructor (store: Store, lead: int, subject: SubjectOf)
      ensures this.store == store && this.lead == lead && this.subject == subject
    {
      this.store := store;
      this.lead := lead;
      this.subject := subject;
    }

    // Token: the fast path, else a refresh. The clock reads `now`; Fold would answer `reply`;
    // a write to the store would meet `fault`.
    method Token(now: int, reply: Reply, fault: Fault)
      returns (answer: Result<AccessToken, BrokerError>, calledFold: bool)
      requires store.InStep() && OutcomeOf(fault) != Died
      modifies store
      ensures store.InStep()
      ensures CallOutcome(answer, store.memory, calledFold)
           == TokenOutcome(subject, lead, old(store.memory), now, reply, fault)
    {
      var s := store.Get();
      if !s.Seeded() {
        return Err(NotSeeded), false;
      }
      if s.Rejected() {
        return Err(RefreshRejected(s.rejectedReason)), false;
      }
      if s.expiresAt - now > lead && s.accessToken != "" {
        return Served(subject, s), false;
      }
      answer, calledFold := RefreshLocked(now, reply, fault);
    }

    // refreshLocked: look again, call Fold, store what came back.
    method RefreshLocked(now: int, reply: Reply, fault: Fault)
      returns (answer: Result<AccessToken, BrokerError>, calledFold: bool)
      requires store.InStep() && OutcomeOf(fault) != Died
      modifies store
      ensures store.InStep()
      ensures CallOutcome(answer, store.memory, calledFold)
           == TokenOutcome(subject, lead, old(store.memory), now, reply, fault)
    {
      var s := store.Get();
      if !s.Seeded() {
        return Err(NotSeeded), false;
      }
      if s.Rejected() {
        return Err(RefreshRejected(s.rejectedReason)), false;
      }
      if s.expiresAt - now > lead && s.accessToken != "" {
        return Served(subject, s), false;
      }
      calledFold := true;
      match reply {
        case Refused(reason) =>
          TombstoneLocked(s, reason, now, fault);
          answer := Err(RefreshRejected(reason));
        case Rotated(b) =>
          if b.refreshToken == "" || b.accessToken == "" {
            return Err(Upstream), true;
          }
          var next := State(b.refreshToken, b.accessToken, b.expiresAt, s.deviceHash, now, None, "");
          var wrote := store.Set(next, fault);
          answer := if wrote == Done then Served(subject, next) else Err(NotPersisted);
        case _ =>
          answer := Err(Upstream);
      }
    }

    method TombstoneLocked(s: State, reason: string, now: int, fault: Fault)
      requires store.InStep() && store.memory == s && OutcomeOf(fault) != Died
      modifies store
      ensures store.InStep()
      ensures store.memory == if OutcomeOf(fault) == Done then Entombed(s, now, reason) else s
    {
      var next := s.(rejectedAt := Some(now), rejectedReason := reason, updatedAt := now);
      var _ := store.Set(next, fault);
    }

    // Init: a seed is exchanged with Fold first, and only what comes back is stored.
    method Init(seed: string, device: string, now: int, reply: Reply, fault: Fault)
      returns (answer: Result<AccessToken, BrokerError>, calledFold: bool)
      requires store.InStep() && OutcomeOf(fault) != Died
      modifies store
      ensures store.InStep()
      ensures CallOutcome(answer, store.memory, calledFold)
           == InitOutcome(subject, old(store.memory), seed, device, now, reply, fault)
    {
      if seed == "" || device == "" || subject(seed).None? {
        return Err(BadInput), false;
      }
      calledFold := true;
      match reply {
        case Rotated(b) =>
          if b.refreshToken == "" || b.accessToken == "" {
            return Err(Upstream), true;
          }
          var next := State(b.refreshToken, b.accessToken, b.expiresAt, device, now, None, "");
          var wrote := store.Set(next, fault);
          answer := if wrote == Done then Served(subject, next) else Err(NotPersisted);
        case Refused(reason) =>
          answer := Err(RefreshRejected(reason));
        case _ =>
          answer := Err(Upstream);
      }
    }
  }

  // ---- what a caller is handed -----------------------------------------------------------------

  // Whoever is answered is handed what the record left behind holds: its access token, never its
  // refresh token, with its device and its expiry, for the user its refresh token names.
  lemma HandedOutIsOnRecord(subject: SubjectOf, lead: int, s: State, seed: string, device: string, now: int, reply: Reply, fault: Fault)
    ensures forall o | o in {TokenOutcome(subject, lead, s, now, reply, fault), InitOutcome(subject, s, seed, device, now, reply, fault)}
        && o.answer.Ok? ::
      && o.answer.value.accessToken == o.record.accessToken && o.record.accessToken != ""
      && o.answer.value.deviceHash == o.record.deviceHash
      && o.answer.value.expiresAt == o.record.expiresAt
      && subject(o.record.refreshToken) == Some(o.answer.value.userUuid)
      && o.record.rejectedAt.None?
  {
  }

  // What a call stores: the pair Fold minted, under the device it was asked for with and with no
  // rejection; or, for Token alone, a rejection on the record as it was.
  lemma StoredIsWhatFoldSaid(subject: SubjectOf, lead: int, s: State, seed: string, device: string, now: int, reply: Reply, fault: Fault)
    ensures var token := TokenOutcome(subject, lead, s, now, reply, fault);
      if !token.calledFold || OutcomeOf(fault) != Done then token.record == s
      else if reply.Rotated? && reply.bundle.refreshToken != "" && reply.bundle.accessToken != "" then
        && token.record.refreshToken == reply.bundle.refreshToken && token.record.accessToken == reply.bundle.accessToken
        && token.record.expiresAt == reply.bundle.expiresAt && token.record.deviceHash == s.deviceHash
        && token.record.rejectedAt.None? && token.record.rejectedReason == "" && token.record.updatedAt == now
      else if reply.Refused? then
        && token.record.refreshToken == s.refreshToken && token.record.accessToken == s.accessToken
        && token.record.expiresAt == s.expiresAt && token.record.deviceHash == s.deviceHash
        && token.record.rejectedAt == Some(now) && token.record.rejectedReason == reply.reason && token.record.updatedAt == now
      else token.record == s
    ensures var init := InitOutcome(subject, s, seed, device, now, reply, fault);
      if init.calledFold && OutcomeOf(fault) == Done && reply.Rotated?
         && reply.bundle.refreshToken != "" && reply.bundle.accessToken != ""
      then
        && init.record.refreshToken == reply.bundle.refreshToken && init.record.accessToken == reply.bundle.accessToken
        && init.record.expiresAt == reply.bundle.expiresAt && init.record.deviceHash == device
        && init.record.rejectedAt.None? && init.record.rejectedReason == "" && init.record.updatedAt == now
      else init.record == s
  {
  }

  // Token asks Fold exactly when the record is seeded, not rejected, and has no access token that
  // lives longer than the lead; whatever it answers, and why.
  lemma TokenAnswersExactlyWhen(subject: SubjectOf, lead: int, s: State, now: int, reply: Reply, fault: Fault)
    ensures var o := TokenOutcome(subject, lead, s, now, reply, fault);
      var seeded := s.refreshToken != "" && s.deviceHash != "";
      var live := s.accessToken != "" && s.expiresAt > now + lead;
      && (o.calledFold <==> seeded && s.rejectedAt.None? && !live)
      && (o.answer == Err(NotSeeded) <==> !seeded)
      && (seeded && s.rejectedAt.Some? ==> o.answer == Err(RefreshRejected(s.rejectedReason)))
      && (o.calledFold ==>
            && (reply.Refused? <==> o.answer.Err? && o.answer.error.RefreshRejected?)
            && (reply.Refused? ==> o.answer == Err(RefreshRejected(reply.reason)))
            && (o.answer == Err(Upstream) <==>
                  reply.Unreachable? || reply.RotatedLost?
                  || (reply.Rotated? && (reply.bundle.refreshToken == "" || reply.bundle.accessToken == "")))
            && (o.answer == Err(NotPersisted) <==>
                  reply.Rotated? && reply.bundle.refreshToken != "" && reply.bundle.accessToken != "" && OutcomeOf(fault) != Done))
      && (o.answer.Ok? <==>
            && seeded && s.rejectedAt.None?
            && if live then subject(s.refreshToken).Some?
               else reply.Rotated? && reply.bundle.refreshToken != "" && reply.bundle.accessToken != ""
                    && OutcomeOf(fault) == Done && subject(reply.bundle.refreshToken).Some?)
  {
  }

  lemma InitAnswersExactlyWhen(subject: SubjectOf, s: State, seed: string, device: string, now: int, reply: Reply, fault: Fault)
    ensures var o := InitOutcome(subject, s, seed, device, now, reply, fault);
      var minted := reply.Rotated? && reply.bundle.refreshToken != "" && reply.bundle.accessToken != "";
      && (o.calledFold <==> seed != "" && device != "" && subject(seed).Some?)
      && (o.answer == Err(BadInput) <==> !o.calledFold)
      && (o.calledFold ==>
            && (reply.Refused? ==> o.answer == Err(RefreshRejected(reply.reason)))
            && (!reply.Refused? && !minted ==> o.answer == Err(Upstream))
            && (minted && OutcomeOf(fault) != Done ==> o.answer == Err(NotPersisted)))
      && (o.answer.Ok? <==> o.calledFold && minted && OutcomeOf(fault) == Done && subject(reply.bundle.refreshToken).Some?)
  {
  }

  // ---- what a call that fails leaves behind --------------------------------------------------

  // An Init that answers with an error changes the record exactly when everything went well but
  // for one thing: the refresh token Fold minted has no subject to answer with.
  lemma FailedInitChangesExactlyWhen(subject: SubjectOf, s: State, seed: string, device: string, now: int, reply: Reply, fault: Fault)
    requires InitOutcome(subject, s, seed, device, now, reply, fault).answer.Err?
    ensures InitOutcome(subject, s, seed, device, now, reply, fault).record != s <==>
      && seed != "" && device != "" && subject(seed).Some?
      && reply.Rotated? && Usable(reply.bundle) && OutcomeOf(fault) == Done
      && subject(reply.bundle.refreshToken).None? && FromBundle(reply.bundle, device, now) != s
  {
  }

  // A Token call that answers with an error changes the record exactly when it recorded a
  // rejection, or stored a refresh token without a subject.
  lemma FailedTokenChangesExactlyWhen(subject: SubjectOf, lead: int, s: State, now: int, reply: Reply, fault: Fault)
    requires TokenOutcome(subject, lead, s, now, reply, fault).answer.Err?
    ensures TokenOutcome(subject, lead, s, now, reply, fault).record != s <==>
      && WantsRefresh(s, now, lead, false) && OutcomeOf(fault) == Done
      && (reply.Refused?
          || (reply.Rotated? && Usable(reply.bundle) && subject(reply.bundle.refreshToken).None?
              && FromBundle(reply.bundle, s.deviceHash, now) != s))
  {
  }

  // A tombstone is then lifted all the same: the caller is told that Init failed, but the next
  // Token call is no longer refused; it serves, or fails to serve, what was stored, or asks Fold.
  lemma FailedInitLiftsTheTombstone(subject: SubjectOf, s: State, seed: string, device: string, now: int, b: Bundle, fault: Fault,
                                    lead: int, later: int, reply: Reply, again: Fault)
    requires s.Rejected() && seed != "" && device != "" && subject(seed).Some?
    requires Usable(b) && subject(b.refreshToken).None? && OutcomeOf(fault) == Done
    ensures var outcome := InitOutcome(subject, s, seed, device, now, Rotated(b), fault);
      var next := TokenOutcome(subject, lead, outcome.record, later, reply, again);
      && outcome.answer == Err(NoSubject) && outcome.record != s && !outcome.record.Rejected()
      && if outcome.record.Fresh(later, lead) then next.answer == Err(NoSubject) else next.calledFold
  {
  }

  // ---- each call is one run of the machine ------------------------------------------------

  // The rest of a call that has asked Fold and been answered.
  function StoreScript(t: nat, fault: Fault): seq<Action> {
    if OutcomeOf(fault) == Done then [RenameFile(t), Publish(t)] else [WriteFails(t)]
  }

  function TokenScript(lead: int, s: State, t: nat, now: int, reply: Reply, fault: Fault): seq<Action> {
    if !WantsRefresh(s, now, lead, false) then [Ask(t, false)]
    else [Ask(t, false), Acquire(t), Recheck(t), Answer(t, reply)]
         + if reply.Rotated? || reply.Refused? then StoreScript(t, fault) else []
  }

  function InitScript(subject: SubjectOf, t: nat, seed: string, device: string, reply: Reply, fault: Fault): seq<Action> {
    var ask := AskInit(t, seed, device, subject(seed).Some?);
    if seed == "" || device == "" || subject(seed).None? then [ask]
    else [ask, Acquire(t), Recheck(t), Answer(t, reply)]
         + if reply.Rotated? then StoreScript(t, fault) else []
  }

  // Nobody else is inside the broker.
  predicate Quiet(s: Sys, t: nat) {
    Load(s.disk) == Ok(s.memory) && s.lock.None? && PhaseOf(s, t).Idle?
  }

  predicate Answerable(cfg: Config, now: int, reply: Reply) {
    reply.Rotated? ==> Usable(reply.bundle) && reply.bundle.expiresAt >= now + cfg.life
  }

  lemma RunSplits(cfg: Config, s: Sys, first: seq<Action>, second: seq<Action>)
    ensures Run(cfg, s, first + second)
         == if Run(cfg, s, first).None? then None else Run(cfg, Run(cfg, s, first).value, second)
    decreases |first|
  {
    if first == [] {
      assert first + second == second;
    } else {
      assert (first + second)[0] == first[0] && (first + second)[1..] == first[1..] + second;
      var next := Exec(cfg, s, first[0]);
      if next.Some? {
        RunSplits(cfg, next.value, first[1..], second);
      }
    }
  }

  lemma RunOne(cfg: Config, s: Sys, a: Action)
    ensures Run(cfg, s, [a]) == Exec(cfg, s, a)
  {
    var next := Exec(cfg, s, a);
    if next.Some? {
      assert Run(cfg, next.value, [a][1..]) == Some(next.value);
    }
  }

  lemma StoreRuns(cfg: Config, s: Sys, t: nat, fault: Fault)
    requires PhaseOf(s, t).Writing? && OutcomeOf(fault) != Died && Load(s.disk) == Ok(s.memory)
    ensures Run(cfg, s, StoreScript(t, fault)).Some?
    ensures var s' := Run(cfg, s, StoreScript(t, fault)).value;
      && s'.lock.None? && PhaseOf(s', t).Idle?
      && s'.memory == (if OutcomeOf(fault) == Done then PhaseOf(s, t).next else s.memory)
      && Load(s'.disk) == Ok(s'.memory)
      && |s'.log| == |s.log| + 1 && s.log <= s'.log && !s'.log[|s.log|].Presented?
  {
    if OutcomeOf(fault) == Done {
      RunSplits(cfg, s, [RenameFile(t)], [Publish(t)]);
      RunOne(cfg, s, RenameFile(t));
      RunOne(cfg, Exec(cfg, s, RenameFile(t)).value, Publish(t));
      assert StoreScript(t, fault) == [RenameFile(t)] + [Publish(t)];
    } else {
      RunOne(cfg, s, WriteFails(t));
    }
  }

  // Asking Fold: the first three steps of a refresh, or of an Init.
  lemma FourSteps(cfg: Config, s: Sys, a: Action, b: Action, c: Action, d: Action, rest: seq<Action>,
                  s1: Sys, s2: Sys, s3: Sys, s4: Sys)
    requires Exec(cfg, s, a) == Some(s1) && Exec(cfg, s1, b) == Some(s2)
    requires Exec(cfg, s2, c) == Some(s3) && Exec(cfg, s3, d) == Some(s4)
    ensures Run(cfg, s, [a, b, c, d] + rest) == Run(cfg, s4, rest)
  {
    assert [a, b, c, d] + rest == [a] + ([b] + ([c] + ([d] + rest)));
    RunSplits(cfg, s, [a], [b] + ([c] + ([d] + rest)));
    RunSplits(cfg, s1, [b], [c] + ([d] + rest));
    RunSplits(cfg, s2, [c], [d] + rest);
    RunSplits(cfg, s3, [d], rest);
    RunOne(cfg, s, a);
    RunOne(cfg, s1, b);
    RunOne(cfg, s2, c);
    RunOne(cfg, s3, d);
  }

  predicate AskedFold(s: Sys, s': Sys) {
    |s'.log| > |s.log| && s'.log[|s.log|].Presented?
  }

  // A Token call nobody interrupts is a run of the machine: the same record in memory and
  // on disk, and Fold asked in the one exactly when it is asked in the other.
  lemma TokenIsARun(cfg: Config, subject: SubjectOf, s: Sys, t: nat, reply: Reply, fault: Fault)
    requires Quiet(s, t) && OutcomeOf(fault) != Died && Answerable(cfg, s.now, reply)
    ensures var outcome := TokenOutcome(subject, cfg.lead, s.memory, s.now, reply, fault);
      var run := Run(cfg, s, TokenScript(cfg.lead, s.memory, t, s.now, reply, fault));
      && run.Some? && Quiet(run.value, t)
      && run.value.memory == outcome.record && (AskedFold(s, run.value) <==> outcome.calledFold)
  {
    if !WantsRefresh(s.memory, s.now, cfg.lead, false) {
      RunOne(cfg, s, Ask(t, false));
    } else {
      var s1 := Exec(cfg, s, Ask(t, false)).value;
      var s2 := Exec(cfg, s1, Acquire(t)).value;
      var s3 := Exec(cfg, s2, Recheck(t)).value;
      var s4 := Exec(cfg, s3, Answer(t, reply)).value;
      if reply.Rotated? || reply.Refused? {
        FourSteps(cfg, s, Ask(t, false), Acquire(t), Recheck(t), Answer(t, reply), StoreScript(t, fault), s1, s2, s3, s4);
        StoreRuns(cfg, s4, t, fault);
      } else {
        FourSteps(cfg, s, Ask(t, false), Acquire(t), Recheck(t), Answer(t, reply), [], s1, s2, s3, s4);
      }
    }
  }

  lemma InitIsARun(cfg: Config, subject: SubjectOf, s: Sys, t: nat, seed: string, device: string, reply: Reply, fault: Fault)
    requires Quiet(s, t) && OutcomeOf(fault) != Died && Answerable(cfg, s.now, reply)
    ensures var outcome := InitOutcome(subject, s.memory, seed, device, s.now, reply, fault);
      var run := Run(cfg, s, InitScript(subject, t, seed, device, reply, fault));
      && run.Some? && Quiet(run.value, t)
      && run.value.memory == outcome.record && (AskedFold(s, run.value) <==> outcome.calledFold)
  {
    var ask := AskInit(t, seed, device, subject(seed).Some?);
    if seed == "" || device == "" || subject(seed).None? {
      RunOne(cfg, s, ask);
    } else {
      var s1 := Exec(cfg, s, ask).value;
      var s2 := Exec(cfg, s1, Acquire(t)).value;
      var s3 := Exec(cfg, s2, Recheck(t)).value;
      var s4 := Exec(cfg, s3, Answer(t, reply)).value;
      if reply.Rotated? {
        FourSteps(cfg, s, ask, Acquire(t), Recheck(t), Answer(t, reply), StoreScript(t, fault), s1, s2, s3, s4);
        StoreRuns(cfg, s4, t, fault);
      } else {
        FourSteps(cfg, s, ask, Acquire(t), Recheck(t), Answer(t, reply), [], s1, s2, s3, s4);
      }
    }
  }
}
