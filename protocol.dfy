/**
 * One client connection of the proxy server, as a state machine: the request is routed, the
 * upstream transactions it needs are issued one at a time, and each completion of a
 * transaction or of the power-cycle timer runs the callback waiting for it, which either
 * answers the client or issues the next step.
 */
module Protocol {
  import opened PduTypes
  import opened CaseInsensitive
  import opened Registry
  import opened Status
  import opened Upstream
  import opened Router
  import opened Pages

  datatype Response = Response(status: int, contentType: string, body: string)

  /** The two pages built from the device's status. */
  datatype Page = Root | Show

  /** The callback a session is waiting on. */
  datatype Await =
    | StatusFor(page: Page)
    | SwitchDone(channels: set<Channel>, op: Op)
    | CycleOffDone(channels: set<Channel>)
    | CycleWait(channels: set<Channel>)
    | CycleOnDone(channels: set<Channel>)
    | SceneOffDone(scene: Scene)
    | SceneOnDone

  /** What a session asks of the outside world: an upstream request, or a timer wait in milliseconds. */
  datatype Activity = Request(call: Call) | Wait(millis: nat)

  /** What the outside world hands back: a transaction's result, or the timer firing (with an error or not). */
  datatype Event = UpstreamReply(reply: Reply) | TimerExpired(error: Option<string>)

  /** One call of a callback: with an error code and its message, or without one. */
  datatype Completion = Failed(message: string) | Succeeded(body: StatusDoc)

  /**
   * How `async_http_transaction` reports an answer with an unexpected status. As written, it
   * calls the callback with the status's error code and then falls through to call it again
   * with no error; corrected, it returns after the first call.
   */
  datatype Semantics = AsWritten | Corrected

  datatype State = State(pending: Option<Await>, log: seq<Activity>, responses: seq<Response>)

  /** `power_cycle` is called with a delay of five seconds. */
  const CycleDelay := 5000

  const Fresh := State(None, [], [])

  /**
   * The calls of the callback for one transaction result: one call for a transport error or the
   * expected status; for any other status, a failing call, and as written a succeeding one after it.
   */
  function Completions(sem: Semantics, reply: Reply): (cs: seq<Completion>)
    ensures 1 <= |cs| <= 2
    ensures cs[0].Succeeded? <==> Accepted(reply, StatusOk)
    ensures cs[0].Failed? ==> cs[0].message == ErrorMessage(reply)
    ensures |cs| == 2 <==> sem == AsWritten && reply.Answered? && !Accepted(reply, StatusOk)
    ensures |cs| == 2 ==> cs[1] == Succeeded(reply.body)
    ensures cs[0].Succeeded? ==> cs[0].body == reply.body
  {
    match reply
    case TransportError(message) => [Failed(message)]
    case Answered(status, reason, body) =>
      if status == StatusOk then [Succeeded(body)]
      else if sem == AsWritten then [Failed(reason), Succeeded(body)]
      else [Failed(reason)]
  }

  /** The timer's completion; a timer that fires normally carries no body. */
  function TimerCompletion(error: Option<string>): Completion
  {
    if error.Some? then Failed(error.value) else Succeeded(Document(map[]))
  }

  function Ok(contentType: string, body: string): Response
  {
    Response(200, contentType, body)
  }

  /** `bad_request(why)`. */
  function BadRequestResponse(why: string): Response
  {
    Response(400, "text/plain", why)
  }

  /** `not_found()`. */
  const NotFoundResponse := Response(404, "text/plain", "not found")

  /** `internal_server_error(operation, ec)`. */
  function InternalError(operation: string, error: Option<string>): Response
  {
    Response(500, "text/html", ErrorBody(operation, error))
  }

  /** `send_response`: the answer goes out and nothing more is awaited. */
  function Send(st: State, r: Response): State
  {
    State(None, st.log, st.responses + [r])
  }

  /** `async_http_transaction(call, cb)`: the request goes out and its callback is awaited. */
  function Issue(st: State, call: Call, w: Await): State
  {
    State(Some(w), st.log + [Request(call)], st.responses)
  }

  /** The `turn_on` step of `set_scene`: "Ok" at once for an empty on-set, else the on request. */
  function TurnOn(st: State, scene: Scene): State
  {
    if scene.on == {} then Send(st, Ok("text/plain", "Ok"))
    else Issue(st, SwitchCall(scene.on, On), SceneOnDone)
  }

  /** What the handler `process_request` picks does first. */
  function Start(cfg: Config, route: Route): State
  {
    match route
    case Ignored => Fresh
    case BadRequest(why) => Send(Fresh, BadRequestResponse(why))
    case RootDocument => Issue(Fresh, StatusCall, StatusFor(Root))
    case ShowStatus => Issue(Fresh, StatusCall, StatusFor(Show))
    case SetChannels(channels, query) =>
      (match Dispatch(query)
       case Switch(op) => Issue(Fresh, SwitchCall(channels, op), SwitchDone(channels, op))
       case Cycle => Issue(Fresh, SwitchCall(channels, Off), CycleOffDone(channels))
       case Illegal => Send(Fresh, BadRequestResponse("request error: illegal request")))
    case SetScene(name) =>
      (match Find(cfg.scenes, name)
       case None => Send(Fresh, NotFoundResponse)
       case Some(scene) =>
         if scene.off == {} then TurnOn(Fresh, scene)
         else Issue(Fresh, SwitchCall(scene.off, Off), SceneOffDone(scene)))
    case NotFound => Send(Fresh, NotFoundResponse)
  }

  /** A session after reading its request. */
  function Begin(cfg: Config, verb: Verb, target: string): State
  {
    Start(cfg, RouteRequest(cfg.names, verb, target))
  }

  /** The operation a failure of the awaited step is reported as. */
  function Operation(w: Await): string
  {
    match w
    case StatusFor(_) => "http-transaction status"
    case SwitchDone(_, _) => "http-transaction"
    case CycleOffDone(_) => "http-transaction off"
    case CycleWait(_) => "wait"
    case CycleOnDone(_) => "http-transaction on"
    case SceneOffDone(_) => "http-transaction off"
    case SceneOnDone => "http-transaction on"
  }

  /** The answer of a status page to a parsed (or unparsable) status document. */
  function StatusPage(cfg: Config, page: Page, doc: StatusDoc): Response
  {
    match ParseStatus(cfg.names, doc)
    case Err(what) => InternalError("xml parsing failed: " + what, None)
    case Ok(states) =>
      if page == Root then Ok("text/html", RootBody(cfg.scenes, states))
      else Ok("text/plain", ShowBody(states))
  }

  /** What the callback waiting as `w` does when it succeeds. */
  function Proceed(cfg: Config, w: Await, body: StatusDoc, st: State): State
  {
    match w
    case StatusFor(page) => Send(st, StatusPage(cfg, page, body))
    case SwitchDone(channels, op) => Send(st, Ok("text/plain", SetText(cfg.names, channels) + ": " + OpName(op)))
    case CycleOffDone(channels) => State(Some(CycleWait(channels)), st.log + [Wait(CycleDelay)], st.responses)
    case CycleWait(channels) => Issue(st, SwitchCall(channels, On), CycleOnDone(channels))
    case CycleOnDone(channels) => Send(st, Ok("text/plain", SetText(cfg.names, channels) + ": power cycled"))
    case SceneOffDone(scene) => TurnOn(st, scene)
    case SceneOnDone => Send(st, Ok("text/plain", "Ok"))
  }

  /** One call of the callback waiting as `w`: a failure answers 500 naming the step. */
  function Complete(cfg: Config, w: Await, c: Completion, st: State): State
  {
    match c
    case Failed(message) => Send(st, InternalError(Operation(w), Some(message)))
    case Succeeded(body) => Proceed(cfg, w, body, st)
  }

  /** The calls of one callback, in order. */
  function CompleteAll(cfg: Config, w: Await, cs: seq<Completion>, st: State): State
  {
    if cs == [] then st else CompleteAll(cfg, w, cs[1..], Complete(cfg, w, cs[0], st))
  }

  /** An event reaches the callback awaiting it; an event nobody awaits changes nothing. */
  function Step(cfg: Config, sem: Semantics, st: State, e: Event): State
  {
    match st.pending
    case None => st
    case Some(w) =>
      match e
      case UpstreamReply(reply) =>
        if w.CycleWait? then st else CompleteAll(cfg, w, Completions(sem, reply), st)
      case TimerExpired(error) =>
        if w.CycleWait? then Complete(cfg, w, TimerCompletion(error), st) else st
  }

  /** A session after its request and then `events`. */
  function Run(cfg: Config, sem: Semantics, verb: Verb, target: string, events: seq<Event>): State
  {
    if events == [] then Begin(cfg, verb, target)
    else Step(cfg, sem, Run(cfg, sem, verb, target, events[..|events| - 1]), events[|events| - 1])
  }

  /** The activities a route calls for when every step succeeds. */
  function Plan(cfg: Config, route: Route): seq<Activity>
  {
    match route
    case RootDocument => [Request(StatusCall)]
    case ShowStatus => [Request(StatusCall)]
    case SetChannels(channels, query) =>
      (match Dispatch(query)
       case Switch(op) => [Request(SwitchCall(channels, op))]
       case Cycle => [Request(SwitchCall(channels, Off)), Wait(CycleDelay), Request(SwitchCall(channels, On))]
       case Illegal => [])
    case SetScene(name) =>
      (match Find(cfg.scenes, name)
       case None => []
       case Some(scene) => Requests(SceneCalls(scene)))
    case _ => []
  }

  function Requests(calls: seq<Call>): seq<Activity>
  {
    seq(|calls|, i requires 0 <= i < |calls| => Request(calls[i]))
  }

  /** The activities still to come once the callback waiting as `w` succeeds. */
  function Remaining(w: Await): seq<Activity>
  {
    match w
    case CycleOffDone(channels) => [Wait(CycleDelay), Request(SwitchCall(channels, On))]
    case CycleWait(channels) => [Request(SwitchCall(channels, On))]
    case SceneOffDone(scene) => if scene.on == {} then [] else [Request(SwitchCall(scene.on, On))]
    case _ => []
  }

  /** The log is a prefix of the plan, and what is awaited accounts for the rest of it. */
  ghost predicate OnPlan(plan: seq<Activity>, st: State)
  {
    && |st.log| <= |plan|
    && st.log == plan[..|st.log|]
    && (st.pending.Some? ==> st.log + Remaining(st.pending.value) == plan)
  }

  /**
   * A dropped request is never answered and awaits nothing; any other is unanswered while a step
   * is awaited and answered exactly once when nothing is.
   */
  ghost predicate AnsweredOnce(route: Route, st: State)
  {
    if route == Ignored then st.pending.None? && st.responses == []
    else (st.pending.Some? ==> st.responses == []) && (st.pending.None? ==> |st.responses| == 1)
  }

  /** Every route starts on its plan, and a route that answers at once answers exactly once. */
  lemma StartOnPlan(cfg: Config, route: Route)
    ensures OnPlan(Plan(cfg, route), Start(cfg, route))
    ensures AnsweredOnce(route, Start(cfg, route))
  {
    if route.SetScene? && Find(cfg.scenes, route.name).Some? {
      var scene := Find(cfg.scenes, route.name).value;
      var calls := SceneCalls(scene);
      if scene.off != {} {
        assert Requests(calls) == [Request(calls[0])] + Requests(calls[1..]);
      }
    }
  }

  /** One call of a callback keeps the session on the plan that callback was part of. */
  lemma CompleteOnPlan(cfg: Config, w: Await, c: Completion, st: State, plan: seq<Activity>)
    requires st.log + Remaining(w) == plan
    ensures OnPlan(plan, Complete(cfg, w, c, st))
  {
    assert st.log == plan[..|st.log|];
  }

  /** The calls of a callback, failing ones first, keep the session on its plan. */
  lemma {:induction false} CompleteAllOnPlan(cfg: Config, w: Await, cs: seq<Completion>, st: State, plan: seq<Activity>)
    requires cs != [] ==> st.log + Remaining(w) == plan
    requires OnPlan(plan, st)
    requires forall i :: 0 <= i < |cs| - 1 ==> cs[i].Failed?
    ensures OnPlan(plan, CompleteAll(cfg, w, cs, st))
  {
    if cs != [] {
      var next := Complete(cfg, w, cs[0], st);
      CompleteOnPlan(cfg, w, cs[0], st, plan);
      if |cs| > 1 {
        assert next.log == st.log;
      }
      CompleteAllOnPlan(cfg, w, cs[1..], next, plan);
    }
  }

  lemma StepOnPlan(cfg: Config, sem: Semantics, st: State, e: Event, plan: seq<Activity>)
    requires OnPlan(plan, st)
    ensures OnPlan(plan, Step(cfg, sem, st, e))
  {
    if st.pending.Some? {
      var w := st.pending.value;
      match e
      case UpstreamReply(reply) =>
        if !w.CycleWait? {
          CompleteAllOnPlan(cfg, w, Completions(sem, reply), st, plan);
        }
      case TimerExpired(error) =>
        if w.CycleWait? {
          CompleteOnPlan(cfg, w, TimerCompletion(error), st, plan);
        }
    }
  }

  /**
   * Under either semantics, the activities a session has asked for are, in order, a prefix of
   * its route's plan: a power cycle switches off, waits five seconds and switches on; a scene
   * switches its off-set before its on-set; nothing is asked for after a step that failed.
   */
  lemma {:induction false} RunOnPlan(cfg: Config, sem: Semantics, verb: Verb, target: string, events: seq<Event>)
    ensures OnPlan(Plan(cfg, RouteRequest(cfg.names, verb, target)), Run(cfg, sem, verb, target, events))
  {
    var plan := Plan(cfg, RouteRequest(cfg.names, verb, target));
    if events == [] {
      StartOnPlan(cfg, RouteRequest(cfg.names, verb, target));
    } else {
      var prev := events[..|events| - 1];
      RunOnPlan(cfg, sem, verb, target, prev);
      StepOnPlan(cfg, sem, Run(cfg, sem, verb, target, prev), events[|events| - 1], plan);
    }
  }

  /** A callback call on an unanswered session either answers it once or awaits something new. */
  lemma CompleteAnswersOnce(cfg: Config, w: Await, c: Completion, st: State, route: Route)
    requires st.responses == [] && route != Ignored
    ensures AnsweredOnce(route, Complete(cfg, w, c, st))
  {
  }

  lemma StepAnswersOnce(cfg: Config, st: State, e: Event, route: Route)
    requires AnsweredOnce(route, st)
    ensures AnsweredOnce(route, Step(cfg, Corrected, st, e))
  {
    if st.pending.Some? {
      var w := st.pending.value;
      match e
      case UpstreamReply(reply) =>
        if !w.CycleWait? {
          var cs := Completions(Corrected, reply);
          assert CompleteAll(cfg, w, cs, st) == Complete(cfg, w, cs[0], st) by {
            assert cs[1..] == [];
          }
          CompleteAnswersOnce(cfg, w, cs[0], st, route);
        }
      case TimerExpired(error) =>
        if w.CycleWait? {
          CompleteAnswersOnce(cfg, w, TimerCompletion(error), st, route);
        }
    }
  }

  /**
   * With the corrected transaction, a session answers its client exactly once: nothing is sent
   * while a step is awaited, and once nothing is awaited exactly one response has gone out;
   * a non-GET request is never answered and awaits nothing.
   */
  lemma {:induction false} RunAnswersOnce(cfg: Config, verb: Verb, target: string, events: seq<Event>)
    ensures AnsweredOnce(RouteRequest(cfg.names, verb, target), Run(cfg, Corrected, verb, target, events))
  {
    var route := RouteRequest(cfg.names, verb, target);
    if events == [] {
      StartOnPlan(cfg, route);
    } else {
      var prev := events[..|events| - 1];
      RunAnswersOnce(cfg, verb, target, prev);
      StepAnswersOnce(cfg, Run(cfg, Corrected, verb, target, prev), events[|events| - 1], route);
    }
  }

  lemma CompleteAllOne(cfg: Config, w: Await, c: Completion, st: State)
    ensures CompleteAll(cfg, w, [c], st) == Complete(cfg, w, c, st)
  {
    assert [c][1..] == [];
  }

  lemma CompleteAllTwo(cfg: Config, w: Await, c: Completion, d: Completion, st: State)
    ensures CompleteAll(cfg, w, [c, d], st) == Complete(cfg, w, d, Complete(cfg, w, c, st))
  {
    assert [c, d][1..] == [d];
    CompleteAllOne(cfg, w, d, Complete(cfg, w, c, st));
  }

  /**
   * With the corrected transaction, a failing step answers 500, naming the step and carrying the
   * error's message, and asks for nothing more.
   */
  lemma FailureAnswersError(cfg: Config, st: State, reply: Reply)
    requires st.pending.Some? && !st.pending.value.CycleWait?
    requires !Accepted(reply, StatusOk)
    ensures var next := Step(cfg, Corrected, st, UpstreamReply(reply));
      && next.pending == None
      && next.log == st.log
      && next.responses == st.responses + [InternalError(Operation(st.pending.value), Some(ErrorMessage(reply)))]
  {
    var w := st.pending.value;
    var c := Failed(ErrorMessage(reply));
    assert Completions(Corrected, reply) == [c];
    CompleteAllOne(cfg, w, c, st);
  }

  /** A timer that fires with an error answers 500 for the step "wait" and never switches on. */
  lemma TimerFailureAnswersError(cfg: Config, sem: Semantics, st: State, message: string)
    requires st.pending.Some? && st.pending.value.CycleWait?
    ensures Step(cfg, sem, st, TimerExpired(Some(message)))
         == State(None, st.log, st.responses + [InternalError("wait", Some(message))])
  {
  }

  /** When the device answers as expected, or the transport fails, both semantics agree. */
  lemma SemanticsAgree(cfg: Config, st: State, reply: Reply)
    requires reply.TransportError? || Accepted(reply, StatusOk)
    ensures Step(cfg, AsWritten, st, UpstreamReply(reply)) == Step(cfg, Corrected, st, UpstreamReply(reply))
  {
    assert Completions(AsWritten, reply) == Completions(Corrected, reply);
  }

  /** A successful step proceeds the same way under both semantics. */
  lemma SuccessProceeds(cfg: Config, sem: Semantics, st: State, reply: Reply)
    requires st.pending.Some? && !st.pending.value.CycleWait?
    requires Accepted(reply, StatusOk)
    ensures Step(cfg, sem, st, UpstreamReply(reply)) == Proceed(cfg, st.pending.value, reply.body, st)
  {
    assert Completions(sem, reply) == [Succeeded(reply.body)];
    CompleteAllOne(cfg, st.pending.value, Succeeded(reply.body), st);
  }

  /** An unparsable status document answers 500 with the parser's message and no error code. */
  lemma UnparsableStatus(cfg: Config, page: Page, what: string)
    ensures StatusPage(cfg, page, Unparsable(what)) == InternalError("xml parsing failed: " + what, None)
    ensures StatusPage(cfg, page, Unparsable(what)).status == 500
  {
  }

  /** Switching answers with the channels' names and the operation's name once the device accepts. */
  lemma SwitchAnswer(cfg: Config, sem: Semantics, channels: set<Channel>, op: Op, reason: string, body: StatusDoc)
    ensures var st := Step(cfg, sem, Start(cfg, SetChannels(channels, OpName(op))), UpstreamReply(Answered(StatusOk, reason, body)));
      && st.log == [Request(SwitchCall(channels, op))]
      && st.responses == [Ok("text/plain", SetText(cfg.names, channels) + ": " + OpName(op))]
      && st.pending == None
  {
    DispatchOpName(op);
    SuccessProceeds(cfg, sem, Start(cfg, SetChannels(channels, OpName(op))), Answered(StatusOk, reason, body));
  }

  /**
   * As written, a switch request the device answers with any status but 200 is answered twice:
   * a 500 page naming the status, then the 200 of success.
   */
  lemma AsWrittenAnswersTwice(cfg: Config, channels: set<Channel>, op: Op, status: int, reason: string, body: StatusDoc)
    requires status != StatusOk
    ensures Step(cfg, AsWritten, Start(cfg, SetChannels(channels, OpName(op))), UpstreamReply(Answered(status, reason, body))).responses
         == [InternalError("http-transaction", Some(reason)), Ok("text/plain", SetText(cfg.names, channels) + ": " + OpName(op))]
  {
    DispatchOpName(op);
    var st := Start(cfg, SetChannels(channels, OpName(op)));
    var w := SwitchDone(channels, op);
    assert st == Issue(Fresh, SwitchCall(channels, op), w);
    var reply := Answered(status, reason, body);
    assert ErrorMessage(reply) == reason;
    assert Completions(AsWritten, reply) == [Failed(reason), Succeeded(body)];
    CompleteAllTwo(cfg, w, Failed(reason), Succeeded(body), st);
  }

  /** Corrected, the same request is answered once, with the 500 page. */
  lemma CorrectedAnswersOnce(cfg: Config, channels: set<Channel>, op: Op, status: int, reason: string, body: StatusDoc)
    requires status != StatusOk
    ensures Step(cfg, Corrected, Start(cfg, SetChannels(channels, OpName(op))), UpstreamReply(Answered(status, reason, body))).responses
         == [InternalError("http-transaction", Some(reason))]
  {
    DispatchOpName(op);
    FailureAnswersError(cfg, Start(cfg, SetChannels(channels, OpName(op))), Answered(status, reason, body));
  }

  lemma DispatchCycle()
    ensures Dispatch("cycle") == Cycle
  {
    IEqualsEquivalence("cycle", "cycle", "cycle");
  }

  /** The events of a power cycle whose switch-off the device refuses with `status`, then accepts the rest. */
  function RefusedCycle(status: int, reason: string, body: StatusDoc): seq<Event>
  {
    [UpstreamReply(Answered(status, reason, body)), TimerExpired(None), UpstreamReply(Answered(StatusOk, reason, body))]
  }

  /** The events run in turn on a state. */
  function Replay(cfg: Config, sem: Semantics, st: State, events: seq<Event>): State
    decreases |events|
  {
    if events == [] then st else Replay(cfg, sem, Step(cfg, sem, st, events[0]), events[1..])
  }

  /** As written, the refused switch-off answers 500 and still starts the wait. */
  lemma AsWrittenRefusedOff(cfg: Config, channels: set<Channel>, status: int, reason: string, body: StatusDoc)
    requires status != StatusOk
    ensures Step(cfg, AsWritten, Issue(Fresh, SwitchCall(channels, Off), CycleOffDone(channels)), UpstreamReply(Answered(status, reason, body)))
         == State(Some(CycleWait(channels)), [Request(SwitchCall(channels, Off)), Wait(CycleDelay)],
                  [InternalError("http-transaction off", Some(reason))])
  {
    var s0 := Issue(Fresh, SwitchCall(channels, Off), CycleOffDone(channels));
    assert Completions(AsWritten, Answered(status, reason, body)) == [Failed(reason), Succeeded(body)];
    CompleteAllTwo(cfg, CycleOffDone(channels), Failed(reason), Succeeded(body), s0);
  }

  /** The two steps after the wait: the on request, then its answer. */
  lemma AsWrittenWaitThenOn(cfg: Config, st: State, channels: set<Channel>, reason: string, body: StatusDoc)
    requires st.pending == Some(CycleWait(channels))
    ensures Replay(cfg, AsWritten, st, [TimerExpired(None), UpstreamReply(Answered(StatusOk, reason, body))])
         == State(None, st.log + [Request(SwitchCall(channels, On))],
                  st.responses + [Ok("text/plain", SetText(cfg.names, channels) + ": power cycled")])
  {
    var events := [TimerExpired(None), UpstreamReply(Answered(StatusOk, reason, body))];
    var s2 := Step(cfg, AsWritten, st, events[0]);
    assert s2 == Issue(st, SwitchCall(channels, On), CycleOnDone(channels));
    SuccessProceeds(cfg, AsWritten, s2, Answered(StatusOk, reason, body));
    var s3 := Step(cfg, AsWritten, s2, events[1]);
    assert events[1..] == [events[1]] && events[1..][1..] == [];
    assert Replay(cfg, AsWritten, s2, events[1..]) == Replay(cfg, AsWritten, s3, []);
  }

  /**
   * As written, a power cycle whose switch-off was refused still waits and switches the channels
   * back on after answering 500, and then answers a second time.
   */
  lemma AsWrittenCycleContinues(cfg: Config, channels: set<Channel>, status: int, reason: string, body: StatusDoc)
    requires status != StatusOk
    ensures var st := Replay(cfg, AsWritten, Start(cfg, SetChannels(channels, "cycle")), RefusedCycle(status, reason, body));
      && st.log == [Request(SwitchCall(channels, Off)), Wait(CycleDelay), Request(SwitchCall(channels, On))]
      && st.responses == [InternalError("http-transaction off", Some(reason)),
                          Ok("text/plain", SetText(cfg.names, channels) + ": power cycled")]
  {
    DispatchCycle();
    var events := RefusedCycle(status, reason, body);
    var s0 := Start(cfg, SetChannels(channels, "cycle"));
    assert s0 == Issue(Fresh, SwitchCall(channels, Off), CycleOffDone(channels));
    AsWrittenRefusedOff(cfg, channels, status, reason, body);
    var s1 := Step(cfg, AsWritten, s0, events[0]);
    AsWrittenWaitThenOn(cfg, s1, channels, reason, body);
    assert events[1..] == [TimerExpired(None), UpstreamReply(Answered(StatusOk, reason, body))];
  }

  /** Corrected, the refused switch-off ends the power cycle: one 500 answer, nothing switched on. */
  lemma CorrectedCycleStops(cfg: Config, channels: set<Channel>, status: int, reason: string, body: StatusDoc)
    requires status != StatusOk
    ensures var st := Replay(cfg, Corrected, Start(cfg, SetChannels(channels, "cycle")), RefusedCycle(status, reason, body));
      && st.log == [Request(SwitchCall(channels, Off))]
      && st.responses == [InternalError("http-transaction off", Some(reason))]
  {
    DispatchCycle();
    var events := RefusedCycle(status, reason, body);
    var s0 := Start(cfg, SetChannels(channels, "cycle"));
    FailureAnswersError(cfg, s0, Answered(status, reason, body));
    var s1 := Step(cfg, Corrected, s0, events[0]);
    assert s1.pending == None;
    assert events[1..][0] == events[1] && events[1..][1..][0] == events[2] && events[1..][1..][1..] == [];
    assert Replay(cfg, Corrected, s1, events[1..][1..]) == s1;
    assert Replay(cfg, Corrected, s1, events[1..]) == s1;
  }

  /** Handling a request and then any events never takes back an activity or a response. */
  lemma CompleteGrows(cfg: Config, w: Await, c: Completion, st: State)
    ensures |Complete(cfg, w, c, st).log| >= |st.log|
    ensures |Complete(cfg, w, c, st).responses| >= |st.responses|
  {
  }

  lemma {:induction false} CompleteAllGrows(cfg: Config, w: Await, cs: seq<Completion>, st: State)
    ensures |CompleteAll(cfg, w, cs, st).log| >= |st.log|
    ensures |CompleteAll(cfg, w, cs, st).responses| >= |st.responses|
  {
    if cs != [] {
      CompleteGrows(cfg, w, cs[0], st);
      CompleteAllGrows(cfg, w, cs[1..], Complete(cfg, w, cs[0], st));
    }
  }

  lemma StepGrows(cfg: Config, sem: Semantics, st: State, e: Event)
    ensures |Step(cfg, sem, st, e).log| >= |st.log|
    ensures |Step(cfg, sem, st, e).responses| >= |st.responses|
  {
    if st.pending.Some? {
      var w := st.pending.value;
      match e
      case UpstreamReply(reply) =>
        if !w.CycleWait? {
          CompleteAllGrows(cfg, w, Completions(sem, reply), st);
        }
      case TimerExpired(error) =>
        if w.CycleWait? {
          CompleteGrows(cfg, w, TimerCompletion(error), st);
        }
    }
  }

  /**
   * A request with any verb but GET leaves the session untouched whatever happens next: nothing
   * is asked of the device and nothing is answered. A GET request always does one or the other.
   */
  lemma {:induction false} OtherVerbsIgnored(cfg: Config, sem: Semantics, verb: Verb, target: string, events: seq<Event>)
    ensures Run(cfg, sem, verb, target, events) == Fresh <==> verb == OtherVerb
    ensures verb == Get ==> Run(cfg, sem, verb, target, events).log != [] || Run(cfg, sem, verb, target, events).responses != []
  {
    if events == [] {
      BeginTouched(cfg, verb, target);
    } else {
      var prev := events[..|events| - 1];
      OtherVerbsIgnored(cfg, sem, verb, target, prev);
      StepGrows(cfg, sem, Run(cfg, sem, verb, target, prev), events[|events| - 1]);
    }
  }

  /** A dropped request starts nothing; any other route asks for something or answers at once. */
  lemma BeginTouched(cfg: Config, verb: Verb, target: string)
    ensures verb == OtherVerb ==> Begin(cfg, verb, target) == Fresh
    ensures verb == Get ==> Begin(cfg, verb, target).log != [] || Begin(cfg, verb, target).responses != []
  {
    var route := RouteRequest(cfg.names, verb, target);
    if verb == Get {
      var (path, query) := SplitTarget(target);
      assert route == RoutePath(cfg.names, path, query);
      StartTouched(cfg, route);
    }
  }

  lemma StartTouched(cfg: Config, route: Route)
    requires route != Ignored
    ensures Start(cfg, route).log != [] || Start(cfg, route).responses != []
  {
  }

  /** Routes alike start alike: the action and the scene are looked up without regard to case. */
  lemma StartAlike(cfg: Config, a: Route, b: Route)
    requires KeysNulFree(cfg.scenes) && Alike(a, b)
    ensures Start(cfg, a) == Start(cfg, b)
  {
    match a
    case SetChannels(_, query) => DispatchIgnoresCase(query, b.query);
    case SetScene(name) => FindIgnoresCase(cfg.scenes, name, b.name);
    case _ =>
  }

  /**
   * A session handles requests whose targets agree case-insensitively, such as "/ch3?on" and
   * "/CH3?On", in the same way, whatever events follow.
   */
  lemma {:induction false} RequestIgnoresCase(cfg: Config, sem: Semantics, verb: Verb, t: string, u: string, events: seq<Event>)
    requires KeysNulFree(cfg.names) && KeysNulFree(cfg.scenes) && NulFree(t) && NulFree(u) && IEquals(t, u)
    ensures Run(cfg, sem, verb, t, events) == Run(cfg, sem, verb, u, events)
  {
    if events == [] {
      RouteRequestIgnoresCase(cfg.names, verb, t, u);
      StartAlike(cfg, RouteRequest(cfg.names, verb, t), RouteRequest(cfg.names, verb, u));
    } else {
      RequestIgnoresCase(cfg, sem, verb, t, u, events[..|events| - 1]);
    }
  }

  /**
   * The answers given at once, before anything is asked of the device: 400 for a bad path or an
   * illegal query, 404 for an unknown name or scene, and "Ok" for a scene with nothing to switch.
   * Every other route asks for exactly one activity and awaits it.
   */
  lemma ImmediateAnswers(cfg: Config, route: Route)
    ensures route.BadRequest? ==> Start(cfg, route) == State(None, [], [Response(400, "text/plain", route.why)])
    ensures route.SetChannels? && Dispatch(route.query) == Illegal ==>
      Start(cfg, route) == State(None, [], [Response(400, "text/plain", "request error: illegal request")])
    ensures route == NotFound || (route.SetScene? && Find(cfg.scenes, route.name).None?) ==>
      Start(cfg, route) == State(None, [], [Response(404, "text/plain", "not found")])
    ensures route.SetScene? && Find(cfg.scenes, route.name).Some? && SceneCalls(Find(cfg.scenes, route.name).value) == [] ==>
      Start(cfg, route) == State(None, [], [Response(200, "text/plain", "Ok")])
    ensures Start(cfg, route).pending.Some? <==> |Start(cfg, route).log| == 1
    ensures Start(cfg, route).pending.None? ==> Start(cfg, route).log == []
  {
  }
}
