// The model client (llm/client.go): a call's retries, which adapt the request to what the host
// refuses without counting that as a try, and the breaker that rests the client after failures.
module LlmClient {
  import opened Wrappers
  import opened Text

  const SECOND := 1_000_000_000                      // in nanoseconds
  const MINUTE := 60 * SECOND
  const HOUR := 60 * MINUTE
  const MAX_RETRIES := 3
  const MAX_INLINE_WAIT := 30 * SECOND
  const MAX_REST := 6 * HOUR

  // How one request ends. Transport covers every failure below HTTP; a bad reply is one that
  // cannot be decoded, is empty, or was cut off.
  datatype Outcome =
    | Answered(text: string)
    | Api(status: int, body: string, retryAfter: int)
    | Transport(canceled: bool)
    | BadReply

  datatype CallError =
    | Unavailable
    | NoKey
    | NoPrompt
    | Stopped(canceled: bool)                        // the caller's context ended during a wait
    | Terminal(last: Outcome)
    | Exhausted(last: Outcome)

  datatype Config = Config(hasKey: bool, effort: string, fallback: string)

  // What the client remembers between calls.
  datatype State = State(openUntil: int, failStreak: nat, noTemperature: bool, thinkingRequired: bool)

  // What the k-th request of a call would meet: the wait before it, and its outcome.
  datatype Wait = Waited | ContextEnds(canceled: bool)
  datatype World = World(reply: nat -> Outcome, wait: nat -> Wait)

  predicate RefusesNoThinking(o: Outcome) {
    o.Api? && o.status == 400 && Contains(Lower(o.body), "thinking") && Contains(Lower(o.body), "disabled")
  }

  predicate RefusesTemperature(o: Outcome) { o.Api? && o.status == 400 && Contains(Lower(o.body), "temperature") }

  predicate Retryable(o: Outcome) {
    match o
    case Api(status, _, _) => status == 429 || status == 500 || status == 502 || status == 503 || status == 504 || status == 529
    case Transport(_) => true
    case _ => false
  }

  // ---- the breaker --------------------------------------------------------------------------------

  function Min(a: int, b: int): int { if a <= b then a else b }

  // Resting never shortens a rest, nor reaches further than six hours ahead.
  function Rested(s: State, now: int, d: int): State {
    var until := now + Min(d, MAX_REST);
    if until > s.openUntil then s.(openUntil := until) else s
  }

  function Pow2(n: nat): nat { if n == 0 then 1 else 2 * Pow2(n - 1) }

  // Set aside: not the host's failure.
  predicate Aside(e: CallError) {
    match e
    case Unavailable => true
    case Stopped(canceled) => canceled
    case Terminal(last) => last == Transport(true)
    case Exhausted(last) => last == Transport(true)
    case _ => false
  }

  predicate KeyRefused(e: CallError) { e.Terminal? && e.last.Api? && (e.last.status == 401 || e.last.status == 403) }

  function Settled(s: State, result: Result<string, CallError>, now: int): State {
    match result
    case Ok(_) => s.(failStreak := 0)
    case Err(e) =>
      if Aside(e) then s
      else
        var failed := s.(failStreak := s.failStreak + 1);
        if KeyRefused(e) then Rested(failed, now, 15 * MINUTE)
        else if failed.failStreak >= 3 then Rested(failed, now, Min(Pow2(Min(failed.failStreak - 2, 6)) * MINUTE, HOUR))
        else failed
  }

  // ---- the loop -----------------------------------------------------------------------------------------

  // The request as it would be sent next, and which try it is.
  datatype Loop = Loop(effort: string, temperature: bool, attempt: int, client: State)

  datatype Next = Again(loop: Loop) | Finished(client: State, result: Result<string, CallError>)

  function FirstLoop(cfg: Config, s: State): Loop {
    if cfg.effort == "none" && s.thinkingRequired && cfg.fallback != "" then Loop(cfg.fallback, false, 0, s)
    else if cfg.effort == "" || cfg.effort == "none" then
      Loop(if cfg.effort == "none" && !s.thinkingRequired then "none" else "", !s.noTemperature, 0, s)
    else Loop(cfg.effort, false, 0, s)
  }

  // After one request. A refusal is adapted to and the same try made again.
  function After(cfg: Config, l: Loop, o: Outcome, now: int): Next {
    if o.Answered? then Finished(l.client, Ok(o.text))
    else if l.effort == "none" && RefusesNoThinking(o) then
      Again(l.(effort := cfg.fallback, temperature := l.temperature && cfg.fallback == "",
               client := l.client.(thinkingRequired := true)))
    else if l.temperature && RefusesTemperature(o) then
      Again(l.(temperature := false, client := l.client.(noTemperature := true)))
    else if !Retryable(o) then Finished(l.client, Err(Terminal(o)))
    else if o.Api? && o.retryAfter > MAX_INLINE_WAIT then Finished(Rested(l.client, now, o.retryAfter), Err(Terminal(o)))
    else Again(l.(attempt := l.attempt + 1))
  }

  // How many more requests there can be.
  function Weight(l: Loop): int {
    (if l.effort == "none" then 1 else 0) + (if l.temperature then 1 else 0) + (MAX_RETRIES + 1 - l.attempt)
  }

  // From request k on: the client after, the requests sent, the result.
  function Requests(cfg: Config, w: World, l: Loop, last: Outcome, k: nat, now: int): (State, nat, Result<string, CallError>)
    requires cfg.fallback != "none"
    decreases Weight(l)
  {
    if l.attempt > MAX_RETRIES then (l.client, k, Err(Exhausted(last)))
    else if l.attempt > 0 && w.wait(k).ContextEnds? then (l.client, k, Err(Stopped(w.wait(k).canceled)))
    else match After(cfg, l, w.reply(k), now)
      case Finished(client, result) => (client, k + 1, result)
      case Again(l') => Requests(cfg, w, l', w.reply(k), k + 1, now)
  }

  datatype CallOutcome = CallOutcome(client: State, sent: nat, result: Result<string, CallError>)

  // GenerateJSON, from the moment its breaker is asked to the moment it has settled.
  function Call(cfg: Config, s: State, hasPrompt: bool, w: World, started: int, ended: int): CallOutcome
    requires cfg.fallback != "none"
  {
    if started < s.openUntil then CallOutcome(s, 0, Err(Unavailable))
    else if !cfg.hasKey then CallOutcome(Settled(s, Err(NoKey), ended), 0, Err(NoKey))
    else if !hasPrompt then CallOutcome(Settled(s, Err(NoPrompt), ended), 0, Err(NoPrompt))
    else
      var (client, sent, result) := Requests(cfg, w, FirstLoop(cfg, s), BadReply, 0, ended);
      CallOutcome(Settled(client, result, ended), sent, result)
  }

  class Client {
    const cfg: Config
    var openUntil: int
    var failStreak: nat
    var noTemperature: bool
    var thinkingRequired: bool

    constructor (cfg: Config)
      ensures this.cfg == cfg && Now() == State(0, 0, false, false)
    {
      this.cfg := cfg;
      openUntil, failStreak, noTemperature, thinkingRequired := 0, 0, false, false;
    }

    ghost function Now(): State
      reads this
    {
      State(openUntil, failStreak, noTemperature, thinkingRequired)
    }

    method Health(now: int) returns (available: bool)
      ensures available <==> now >= openUntil
    {
      return !(now < openUntil);
    }

    method Rest(now: int, d: int)
      modifies `openUntil
      ensures Now() == Rested(old(Now()), now, d)
    {
      var rest := if d > MAX_REST then MAX_REST else d;
      if now + rest > openUntil {
        openUntil := now + rest;
      }
    }

    method Settle(result: Result<string, CallError>, now: int)
      modifies this
      ensures Now() == Settled(old(Now()), result, now)
    {
      if result.Ok? {
        failStreak := 0;
        return;
      }
      if Aside(result.error) {
        return;
      }
      failStreak := failStreak + 1;
      if KeyRefused(result.error) {
        Rest(now, 15 * MINUTE);
      } else if failStreak >= 3 {
        Rest(now, Min(Pow2(Min(failStreak - 2, 6)) * MINUTE, HOUR));
      }
    }

    // The loop: its counter goes back a step wherever a refusal is adapted to.
    method Send(w: World, now: int) returns (sent: nat, result: Result<string, CallError>)
      requires cfg.fallback != "none"
      modifies this
      ensures (Now(), sent, result) == Requests(cfg, w, FirstLoop(cfg, old(Now())), BadReply, 0, now)
    {
      var first := FirstLoop(cfg, State(openUntil, failStreak, noTemperature, thinkingRequired));
      var effort, temperature := first.effort, first.temperature;
      var last := BadReply;
      sent := 0;
      var attempt := 0;
      while attempt <= MAX_RETRIES
        invariant attempt >= 0
        invariant Requests(cfg, w, first, BadReply, 0, now)
               == Requests(cfg, w, Loop(effort, temperature, attempt, Now()), last, sent, now)
        decreases Weight(Loop(effort, temperature, attempt, first.client))
      {
        if attempt > 0 && w.wait(sent).ContextEnds? {
          return sent, Err(Stopped(w.wait(sent).canceled));
        }
        last := w.reply(sent);
        sent := sent + 1;
        if last.Answered? {
          return sent, Ok(last.text);
        }
        if effort == "none" && RefusesNoThinking(last) {
          thinkingRequired := true;
          effort := cfg.fallback;
          if effort != "" {
            temperature := false;
          }
          attempt := attempt - 1;
        } else if temperature && RefusesTemperature(last) {
          noTemperature := true;
          temperature := false;
          attempt := attempt - 1;
        } else if !Retryable(last) {
          return sent, Err(Terminal(last));
        } else if last.Api? && last.retryAfter > MAX_INLINE_WAIT {
          Rest(now, last.retryAfter);
          return sent, Err(Terminal(last));
        }
        attempt := attempt + 1;
      }
      return sent, Err(Exhausted(last));
    }

    method GenerateJSON(hasPrompt: bool, w: World, started: int, ended: int) returns (sent: nat, result: Result<string, CallError>)
      requires cfg.fallback != "none"
      modifies this
      ensures CallOutcome(Now(), sent, result) == Call(cfg, old(Now()), hasPrompt, w, started, ended)
    {
      var available := Health(started);
      if !available {
        return 0, Err(Unavailable);
      }
      if !cfg.hasKey {
        sent, result := 0, Err(NoKey);
      } else if !hasPrompt {
        sent, result := 0, Err(NoPrompt);
      } else {
        sent, result := Send(w, ended);
      }
      Settle(result, ended);
    }
  }

  // ---- one call ---------------------------------------------------------------------------------------

  // Whatever the host answers, a call sends at most six requests: four tries, and one more for
  // each of the two things a host may refuse.
  lemma {:induction false} RequestsAreBounded(cfg: Config, w: World, l: Loop, last: Outcome, k: nat, now: int)
    requires cfg.fallback != "none"
    ensures k <= Requests(cfg, w, l, last, k, now).1
    ensures Weight(l) >= 0 ==> Requests(cfg, w, l, last, k, now).1 <= k + Weight(l)
    decreases Weight(l)
  {
    if l.attempt <= MAX_RETRIES && !(l.attempt > 0 && w.wait(k).ContextEnds?) {
      var next := After(cfg, l, w.reply(k), now);
      if next.Again? {
        RequestsAreBounded(cfg, w, next.loop, w.reply(k), k + 1, now);
      }
    }
  }

  lemma AtMostSixRequests(cfg: Config, s: State, hasPrompt: bool, w: World, started: int, ended: int)
    requires cfg.fallback != "none"
    ensures Call(cfg, s, hasPrompt, w, started, ended).sent <= 6
    ensures s.thinkingRequired && s.noTemperature ==> Call(cfg, s, hasPrompt, w, started, ended).sent <= 4
  {
    RequestsAreBounded(cfg, w, FirstLoop(cfg, s), BadReply, 0, ended);
  }

  // The bound needs its condition, exactly: a step that goes round again always brings the end
  // nearer if and only if the fallback is not itself "none", the very thing that was refused.
  lemma EndsUnlessFallbackIsNone(cfg: Config, now: int)
    ensures cfg.fallback != "none" <==>
      forall l: Loop, o: Outcome ::
        After(cfg, l, o, now).Again? ==> Weight(After(cfg, l, o, now).loop) < Weight(l)
  {
    if cfg.fallback == "none" {
      StuckOnNone(cfg, now);
    } else {
      forall l: Loop, o: Outcome | After(cfg, l, o, now).Again? ensures Weight(After(cfg, l, o, now).loop) < Weight(l) {
      }
    }
  }

  // Against a host that keeps refusing, such a call sends the same request for ever.
  lemma StuckOnNone(cfg: Config, now: int)
    requires cfg.fallback == "none"
    ensures var l := Loop("none", false, 0, State(0, 0, true, true));
      var o := Api(400, "thinking disabled", 0);
      After(cfg, l, o, now) == Again(l)
  {
    ReadsAsRefusal("thinking disabled");
  }

  lemma ReadsAsRefusal(body: string)
    requires body == "thinking disabled"
    ensures Contains(Lower(body), "thinking") && Contains(Lower(body), "disabled")
  {
    LowerKeeps(body);
    assert body[0..] == body && "thinking" <= body;
    ContainsAt(body, "thinking", 0);
    assert body[9..] == "disabled";
    ContainsAt(body, "disabled", 9);
  }

  lemma {:induction false} ContainsAt(s: string, part: string, i: nat)
    requires i <= |s| && part <= s[i..]
    ensures Contains(s, part)
  {
    if i > 0 {
      assert s[1..][i - 1..] == s[i..];
      ContainsAt(s[1..], part, i - 1);
    }
  }

  // What one answer does, in the host's own terms: the text is the result; a refused shape is given up
  // and the same try made again; overload and a broken line are tried again unless the host asks for
  // more than half a minute, which the client then rests; anything else is the call's failure.
  lemma AnswersMean(cfg: Config, l: Loop, o: Outcome, now: int)
    ensures var next := After(cfg, l, o, now);
      var thinks := o.Api? && o.status == 400 && Contains(Lower(o.body), "thinking") && Contains(Lower(o.body), "disabled")
        && l.effort == "none";
      var heats := o.Api? && o.status == 400 && Contains(Lower(o.body), "temperature") && l.temperature && !thinks;
      var passing := o.Transport? || (o.Api? && o.status in {429, 500, 502, 503, 504, 529});
      var asked := o.Api? && o.retryAfter > 30 * 1_000_000_000;
      && (o.Answered? ==> next == Finished(l.client, Ok(o.text)))
      && (thinks ==>
            && next.Again? && next.loop.attempt == l.attempt && next.loop.effort == cfg.fallback
            && (next.loop.temperature <==> l.temperature && cfg.fallback == "")
            && next.loop.client == l.client.(thinkingRequired := true))
      && (heats ==>
            && next.Again? && next.loop.attempt == l.attempt && next.loop.effort == l.effort && !next.loop.temperature
            && next.loop.client == l.client.(noTemperature := true))
      && (passing && !asked ==>
            next.Again? && next.loop == Loop(l.effort, l.temperature, l.attempt + 1, l.client))
      && (passing && asked ==>
            && next.Finished? && next.result == Err(Terminal(o)) && next.client.openUntil >= now + 30 * 1_000_000_000
            && next.client.openUntil >= l.client.openUntil
            && next.client == l.client.(openUntil := next.client.openUntil))
      && (!o.Answered? && !thinks && !heats && !passing ==> next == Finished(l.client, Err(Terminal(o))))
  {
  }

  // A rest ends where it was to end already, or as long from now as asked, but six hours at most.
  lemma RestMeans(s: State, now: int, d: int)
    ensures var asked := now + if d < 6 * 3600 * 1_000_000_000 then d else 6 * 3600 * 1_000_000_000;
      Rested(s, now, d) == s.(openUntil := if s.openUntil < asked then asked else s.openUntil)
  {
  }

  // What a whole call leaves: a success ends the streak, and being put off or called off counts for
  // nothing; any other failure adds to it, and rests a quarter of an hour over a refused key, or from the
  // third in a row on 2, 4, 8, 16, 32 and then 60 minutes.
  lemma SettledMeans(s: State, result: Result<string, CallError>, now: int)
    ensures result.Ok? ==> Settled(s, result, now) == s.(failStreak := 0)
    ensures result.Err? ==>
      var aside := result.error == Unavailable || result.error == Stopped(true)
        || result.error == Terminal(Transport(true)) || result.error == Exhausted(Transport(true));
      var key := result.error.Terminal? && result.error.last.Api? && result.error.last.status in {401, 403};
      var n := s.failStreak + 1;
      var minutes := if key then 15 else if n < 3 then 0 else if n == 3 then 2 else if n == 4 then 4 else if n == 5 then 8
                     else if n == 6 then 16 else if n == 7 then 32 else 60;
      Settled(s, result, now) ==
        if aside then s
        else if minutes == 0 then s.(failStreak := n)
        else
          var until := now + minutes * 60 * 1_000_000_000;
          s.(failStreak := n, openUntil := if s.openUntil < until then until else s.openUntil)
  {
    assert Pow2(1) == 2 && Pow2(2) == 4 && Pow2(3) == 8;
    assert Pow2(4) == 2 * Pow2(3) && Pow2(5) == 2 * Pow2(4) && Pow2(6) == 2 * Pow2(5);
  }

  // How a call starts: with the effort it is told to use; with thinking off only until the host has
  // refused that, and then with the fallback, if there is one, or nothing said; and with a temperature
  // exactly where no effort is asked for and none has been refused.
  lemma FirstRequestMeans(cfg: Config, s: State)
    ensures var first := FirstLoop(cfg, s);
      && first.attempt == 0 && first.client == s
      && (cfg.effort != "none" ==> first.effort == cfg.effort)
      && (cfg.effort == "none" && !s.thinkingRequired ==> first.effort == "none")
      && (cfg.effort == "none" && s.thinkingRequired ==> first.effort == cfg.fallback)
      && (first.temperature <==> !s.noTemperature && (first.effort == "" || (cfg.effort == "none" && !s.thinkingRequired)))
  {
  }

  // ---- over a run of calls -----------------------------------------------------------------------------

  // One call after another, each started when the one before has ended.
  datatype Request = Request(hasPrompt: bool, world: World, started: int, ended: int)

  predicate InTurn(calls: seq<Request>, from: int) {
    && (calls != [] ==> from <= calls[0].started)
    && (forall i | 0 <= i < |calls| :: calls[i].started <= calls[i].ended)
    && (forall i | 0 <= i < |calls| - 1 :: calls[i].ended <= calls[i + 1].started)
  }

  // No further ahead than six hours.
  predicate RestIsCapped(s: State, now: int) { s.openUntil <= now + MAX_REST }

  lemma {:induction false} RequestsKeepRest(cfg: Config, w: World, l: Loop, last: Outcome, k: nat, now: int)
    requires cfg.fallback != "none"
    ensures Requests(cfg, w, l, last, k, now).0.openUntil >= l.client.openUntil
    ensures Requests(cfg, w, l, last, k, now).0.failStreak == l.client.failStreak
    ensures RestIsCapped(l.client, now) ==> RestIsCapped(Requests(cfg, w, l, last, k, now).0, now)
    decreases Weight(l)
  {
    if l.attempt <= MAX_RETRIES && !(l.attempt > 0 && w.wait(k).ContextEnds?) {
      var next := After(cfg, l, w.reply(k), now);
      if next.Again? {
        RequestsKeepRest(cfg, w, next.loop, w.reply(k), k + 1, now);
      }
    }
  }

  lemma SettlingKeepsRest(s: State, result: Result<string, CallError>, now: int)
    ensures Settled(s, result, now).openUntil >= s.openUntil
    ensures RestIsCapped(s, now) ==> RestIsCapped(Settled(s, result, now), now)
    ensures result.Err? && !Aside(result.error) && Settled(s, result, now).failStreak >= 3 ==>
      Settled(s, result, now).openUntil >= now + 2 * MINUTE
    ensures result.Err? && KeyRefused(result.error) ==> Settled(s, result, now).openUntil >= now + 15 * MINUTE
  {
    if result.Err? && s.failStreak >= 2 {
      PowersGrow(Min(s.failStreak - 1, 6));
    }
  }

  lemma {:induction false} PowersGrow(n: nat)
    requires n >= 1
    ensures Pow2(n) >= 2
  {
    if n > 1 {
      PowersGrow(n - 1);
    }
  }

  // What a host has refused is remembered: no later call of the client asks for it again.
  lemma {:induction false} RequestsLearn(cfg: Config, w: World, l: Loop, last: Outcome, k: nat, now: int)
    requires cfg.fallback != "none"
    ensures l.client.noTemperature ==> Requests(cfg, w, l, last, k, now).0.noTemperature
    ensures l.client.thinkingRequired ==> Requests(cfg, w, l, last, k, now).0.thinkingRequired
    decreases Weight(l)
  {
    if l.attempt <= MAX_RETRIES && !(l.attempt > 0 && w.wait(k).ContextEnds?) {
      var next := After(cfg, l, w.reply(k), now);
      if next.Again? {
        RequestsLearn(cfg, w, next.loop, w.reply(k), k + 1, now);
      }
    }
  }

  // One call of a run: nothing is sent before openUntil, which never moves back nor further than
  // six hours ahead; and a failure from the third in a row on rests the client two minutes or more.
  lemma CallKeepsRest(cfg: Config, s: State, call: Request)
    requires cfg.fallback != "none" && call.started <= call.ended
    ensures var c := Call(cfg, s, call.hasPrompt, call.world, call.started, call.ended);
      && (call.started < s.openUntil ==> c.sent == 0 && c.client == s)
      && c.client.openUntil >= s.openUntil
      && (RestIsCapped(s, call.started) ==> RestIsCapped(c.client, call.ended))
      && (c.result.Err? && !Aside(c.result.error) && c.client.failStreak >= 3 ==> c.client.openUntil >= call.ended + 2 * MINUTE)
  {
    var c := Call(cfg, s, call.hasPrompt, call.world, call.started, call.ended);
    if call.started >= s.openUntil {
      if cfg.hasKey && call.hasPrompt {
        RequestsKeepRest(cfg, call.world, FirstLoop(cfg, s), BadReply, 0, call.ended);
        SettlingKeepsRest(Requests(cfg, call.world, FirstLoop(cfg, s), BadReply, 0, call.ended).0, c.result, call.ended);
      } else {
        SettlingKeepsRest(s, c.result, call.ended);
      }
    }
  }

  // The failures in a row that a run of results ends with, those set aside not counted.
  function Streak(results: seq<Result<string, CallError>>): nat {
    if results == [] then 0
    else match results[|results| - 1]
      case Ok(_) => 0
      case Err(e) => Streak(results[..|results| - 1]) + if Aside(e) then 0 else 1
  }

  // The client as a run of calls leaves it.
  function AfterCalls(cfg: Config, s: State, calls: seq<Request>): State
    requires cfg.fallback != "none"
  {
    if calls == [] then s
    else
      var front, last := calls[..|calls| - 1], calls[|calls| - 1];
      Call(cfg, AfterCalls(cfg, s, front), last.hasPrompt, last.world, last.started, last.ended).client
  }

  // One request as it went out, and its answer.
  datatype Sending = Sending(effort: string, temperature: bool, answer: Outcome)

  // The requests of a loop, in order.
  function Trace(cfg: Config, w: World, l: Loop, k: nat, now: int): seq<Sending>
    requires cfg.fallback != "none"
    decreases Weight(l)
  {
    if l.attempt > MAX_RETRIES || (l.attempt > 0 && w.wait(k).ContextEnds?) then []
    else [Sending(l.effort, l.temperature, w.reply(k))]
         + match After(cfg, l, w.reply(k), now)
           case Finished(_, _) => []
           case Again(l') => Trace(cfg, w, l', k + 1, now)
  }

  predicate Sends(cfg: Config, s: State, call: Request) { call.started >= s.openUntil && cfg.hasKey && call.hasPrompt }

  function CallTrace(cfg: Config, s: State, call: Request): seq<Sending>
    requires cfg.fallback != "none"
  {
    if Sends(cfg, s, call) then Trace(cfg, call.world, FirstLoop(cfg, s), 0, call.ended) else []
  }

  lemma {:induction false} TraceIsSent(cfg: Config, w: World, l: Loop, last: Outcome, k: nat, now: int)
    requires cfg.fallback != "none"
    ensures Requests(cfg, w, l, last, k, now).1 == k + |Trace(cfg, w, l, k, now)|
    decreases Weight(l)
  {
    if !(l.attempt > MAX_RETRIES || (l.attempt > 0 && w.wait(k).ContextEnds?)) {
      var next := After(cfg, l, w.reply(k), now);
      if next.Again? {
        TraceIsSent(cfg, w, next.loop, w.reply(k), k + 1, now);
      }
    }
  }

  // The two refusals a client learns from. One that speaks of both is taken for the first.
  predicate NeedsThinking(r: Sending) { r.effort == "none" && RefusesNoThinking(r.answer) }

  predicate NeedsNoTemperature(r: Sending) { r.temperature && RefusesTemperature(r.answer) && !NeedsThinking(r) }

  // What has been turned off stays off through a loop.
  lemma {:induction false} TraceKeepsOff(cfg: Config, w: World, l: Loop, k: nat, now: int)
    requires cfg.fallback != "none"
    ensures !l.temperature ==> forall r | r in Trace(cfg, w, l, k, now) :: !r.temperature
    ensures l.effort != "none" ==> forall r | r in Trace(cfg, w, l, k, now) :: r.effort != "none"
    decreases Weight(l)
  {
    if !(l.attempt > MAX_RETRIES || (l.attempt > 0 && w.wait(k).ContextEnds?)) {
      var next := After(cfg, l, w.reply(k), now);
      if next.Again? {
        TraceKeepsOff(cfg, w, next.loop, k + 1, now);
      }
    }
  }

  // Whatever request of a loop is refused so, none after it asks for the same, and the client has
  // learned it in the end.
  lemma {:induction false} TraceLearns(cfg: Config, w: World, l: Loop, last: Outcome, k: nat, now: int, i: nat)
    requires cfg.fallback != "none" && i < |Trace(cfg, w, l, k, now)|
    ensures var trace, end := Trace(cfg, w, l, k, now), Requests(cfg, w, l, last, k, now).0;
      && (NeedsNoTemperature(trace[i]) ==> end.noTemperature && forall j | i < j < |trace| :: !trace[j].temperature)
      && (NeedsThinking(trace[i]) ==> end.thinkingRequired && forall j | i < j < |trace| :: trace[j].effort != "none")
    decreases Weight(l)
  {
    var next := After(cfg, l, w.reply(k), now);
    var trace := Trace(cfg, w, l, k, now);
    if next.Again? {
      var rest := Trace(cfg, w, next.loop, k + 1, now);
      assert forall j | 0 < j < |trace| :: trace[j] == rest[j - 1];
      if i == 0 {
        RequestsLearn(cfg, w, next.loop, w.reply(k), k + 1, now);
        TraceKeepsOff(cfg, w, next.loop, k + 1, now);
      } else {
        TraceLearns(cfg, w, next.loop, w.reply(k), k + 1, now, i - 1);
      }
    } else {
      assert Retryable(w.reply(k)) ==> !RefusesTemperature(w.reply(k)) && !RefusesNoThinking(w.reply(k));
    }
  }

  // A call sends the requests of its trace, none that the client has already seen refused, and
  // forgets no refusal.
  lemma CallKeepsLearned(cfg: Config, s: State, call: Request)
    requires cfg.fallback != "none"
    ensures var c := Call(cfg, s, call.hasPrompt, call.world, call.started, call.ended);
      && c.sent == |CallTrace(cfg, s, call)|
      && (s.noTemperature ==> c.client.noTemperature && forall r | r in CallTrace(cfg, s, call) :: !r.temperature)
      && (s.thinkingRequired ==> c.client.thinkingRequired && forall r | r in CallTrace(cfg, s, call) :: r.effort != "none")
  {
    if Sends(cfg, s, call) {
      RequestsLearn(cfg, call.world, FirstLoop(cfg, s), BadReply, 0, call.ended);
      TraceIsSent(cfg, call.world, FirstLoop(cfg, s), BadReply, 0, call.ended);
      TraceKeepsOff(cfg, call.world, FirstLoop(cfg, s), 0, call.ended);
    }
  }

  // Every request a run of calls sends, in order.
  function RunTrace(cfg: Config, s: State, calls: seq<Request>): seq<Sending>
    requires cfg.fallback != "none"
  {
    if calls == [] then []
    else
      var front, last := calls[..|calls| - 1], calls[|calls| - 1];
      RunTrace(cfg, s, front) + CallTrace(cfg, AfterCalls(cfg, s, front), last)
  }

  lemma NothingIsLeftOut(cfg: Config, s: State, calls: seq<Request>, call: Request)
    requires cfg.fallback != "none"
    ensures |RunTrace(cfg, s, calls + [call])| == |RunTrace(cfg, s, calls)|
         + Call(cfg, AfterCalls(cfg, s, calls), call.hasPrompt, call.world, call.started, call.ended).sent
  {
    assert (calls + [call])[..|calls|] == calls;
    CallKeepsLearned(cfg, AfterCalls(cfg, s, calls), call);
  }

  lemma CallLearns(cfg: Config, s: State, call: Request, i: nat)
    requires cfg.fallback != "none" && i < |CallTrace(cfg, s, call)|
    ensures var trace, s' := CallTrace(cfg, s, call), Call(cfg, s, call.hasPrompt, call.world, call.started, call.ended).client;
      && (NeedsNoTemperature(trace[i]) ==> s'.noTemperature && forall j | i < j < |trace| :: !trace[j].temperature)
      && (NeedsThinking(trace[i]) ==> s'.thinkingRequired && forall j | i < j < |trace| :: trace[j].effort != "none")
  {
    TraceLearns(cfg, call.world, FirstLoop(cfg, s), BadReply, 0, call.ended, i);
  }

  // From the i-th request on: what it was refused is asked for no more, and learned in the end.
  predicate HeedsFrom(trace: seq<Sending>, end: State, i: nat)
    requires i < |trace|
  {
    && (NeedsNoTemperature(trace[i]) ==> end.noTemperature && forall j | i < j < |trace| :: !trace[j].temperature)
    && (NeedsThinking(trace[i]) ==> end.thinkingRequired && forall j | i < j < |trace| :: trace[j].effort != "none")
  }

  lemma HeedsOn(before: seq<Sending>, mid: State, later: seq<Sending>, end: State, i: nat)
    requires i < |before| && HeedsFrom(before, mid, i)
    requires mid.noTemperature ==> end.noTemperature && forall r | r in later :: !r.temperature
    requires mid.thinkingRequired ==> end.thinkingRequired && forall r | r in later :: r.effort != "none"
    ensures HeedsFrom(before + later, end, i)
  {
    forall j | i < j < |before + later| ensures
      && (NeedsNoTemperature(before[i]) ==> !(before + later)[j].temperature)
      && (NeedsThinking(before[i]) ==> (before + later)[j].effort != "none")
    {
      if j >= |before| {
        assert (before + later)[j] == later[j - |before|] && later[j - |before|] in later;
      }
    }
  }

  lemma HeedsAfter(before: seq<Sending>, later: seq<Sending>, end: State, i: nat)
    requires i < |later| && HeedsFrom(later, end, i)
    ensures HeedsFrom(before + later, end, |before| + i)
  {
    assert forall j | 0 <= j < |later| :: (before + later)[|before| + j] == later[j];
  }

  // Once refused is enough: over any run of calls, after the host has said that thinking cannot be
  // turned off, or that it takes no temperature, at whichever request of whichever call, no request
  // of that call or any later one asks for it again.
  lemma {:induction false} RefusalsAreRemembered(cfg: Config, s: State, calls: seq<Request>, i: nat)
    requires cfg.fallback != "none" && i < |RunTrace(cfg, s, calls)|
    ensures HeedsFrom(RunTrace(cfg, s, calls), AfterCalls(cfg, s, calls), i)
    decreases |calls|
  {
    var front, last := calls[..|calls| - 1], calls[|calls| - 1];
    var mid := AfterCalls(cfg, s, front);
    var before, later := RunTrace(cfg, s, front), CallTrace(cfg, mid, last);
    assert RunTrace(cfg, s, calls) == before + later;
    if i < |before| {
      RefusalsAreRemembered(cfg, s, front, i);
      CallKeepsLearned(cfg, mid, last);
      HeedsOn(before, mid, later, AfterCalls(cfg, s, calls), i);
    } else {
      CallLearns(cfg, mid, last, i - |before|);
      HeedsAfter(before, later, AfterCalls(cfg, s, calls), i - |before|);
    }
  }

  function ResultsOf(cfg: Config, s: State, calls: seq<Request>): (results: seq<Result<string, CallError>>)
    requires cfg.fallback != "none"
    ensures |results| == |calls|
  {
    if calls == [] then []
    else
      var front, last := calls[..|calls| - 1], calls[|calls| - 1];
      ResultsOf(cfg, s, front)
      + [Call(cfg, AfterCalls(cfg, s, front), last.hasPrompt, last.world, last.started, last.ended).result]
  }

  lemma CallCounts(cfg: Config, s: State, call: Request)
    requires cfg.fallback != "none"
    ensures var c := Call(cfg, s, call.hasPrompt, call.world, call.started, call.ended);
      c.client.failStreak
      == match c.result
         case Ok(_) => 0
         case Err(e) => s.failStreak + if Aside(e) then 0 else 1
  {
    if call.started >= s.openUntil && cfg.hasKey && call.hasPrompt {
      RequestsKeepRest(cfg, call.world, FirstLoop(cfg, s), BadReply, 0, call.ended);
    }
  }

  // A fresh client.
  const FRESH := State(0, 0, false, false)

  lemma {:induction false} StreakIsCounted(cfg: Config, calls: seq<Request>)
    requires cfg.fallback != "none"
    ensures AfterCalls(cfg, FRESH, calls).failStreak == Streak(ResultsOf(cfg, FRESH, calls))
  {
    if calls != [] {
      var front, last := calls[..|calls| - 1], calls[|calls| - 1];
      StreakIsCounted(cfg, front);
      CallCounts(cfg, AfterCalls(cfg, FRESH, front), last);
      assert ResultsOf(cfg, FRESH, calls)[..|front|] == ResultsOf(cfg, FRESH, front);
    }
  }

  lemma {:induction false} RunKeepsRest(cfg: Config, calls: seq<Request>)
    requires cfg.fallback != "none" && InTurn(calls, 0)
    ensures RestIsCapped(AfterCalls(cfg, FRESH, calls), if calls == [] then 0 else calls[|calls| - 1].ended)
  {
    if calls != [] {
      var front, last := calls[..|calls| - 1], calls[|calls| - 1];
      RunKeepsRest(cfg, front);
      if front != [] {
        assert front[|front| - 1].ended <= calls[|front|].started;
      }
      CallKeepsRest(cfg, AfterCalls(cfg, FRESH, front), last);
    }
  }

  // Over any run of calls, one after another: openUntil never moves back and is never more than
  // six hours ahead; while it lies ahead nothing is sent; and a failed call from the third in a
  // row on, cancellations aside, keeps the client resting for two minutes or more.
  lemma BreakerHolds(cfg: Config, calls: seq<Request>, next: Request)
    requires cfg.fallback != "none" && InTurn(calls + [next], 0)
    ensures var s, s' := AfterCalls(cfg, FRESH, calls), AfterCalls(cfg, FRESH, calls + [next]);
      var results := ResultsOf(cfg, FRESH, calls + [next]);
      var c := Call(cfg, s, next.hasPrompt, next.world, next.started, next.ended);
      && s' == c.client && |results| == |calls| + 1 && results[|calls|] == c.result
      && s.openUntil <= s'.openUntil <= next.ended + MAX_REST
      && (next.started < s.openUntil ==> c.sent == 0)
      && (c.result.Err? && !Aside(c.result.error) && Streak(results) >= 3 ==> s'.openUntil >= next.ended + 2 * MINUTE)
  {
    var all := calls + [next];
    assert all[..|all| - 1] == calls;
    assert InTurn(calls, 0) by {
      assert forall i | 0 <= i < |calls| :: all[i] == calls[i];
    }
    RunKeepsRest(cfg, calls);
    RunKeepsRest(cfg, all);
    StreakIsCounted(cfg, all);
    CallKeepsRest(cfg, AfterCalls(cfg, FRESH, calls), next);
  }
}
