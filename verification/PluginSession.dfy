/** A session together with its plugin: what wake-ups and replies ask of the plugin is
    not assumed here but follows from the proxy, for every plugin that waits for its
    first request and fails, if at all, while a request is active. */
module PluginSession {
  import opened SessionQueue
  import opened SessionEffects
  import SessionLiveness
  import SessionAnswers
  import PluginProxy
  import PluginSignals

  /** `begun` says that a request has been handed to the plugin process, and that it has
      not failed since. */
  datatype Pair = Pair(session: Session, proxy: PluginProxy.Proxy, begun: bool)

  datatype Input =
    | Client(event: Event)
    | Dispatch(pluginStarts: bool, policy: PluginProxy.UiPolicy)
    | Says(message: PluginProxy.Message)
    | NotifiesWithoutData
    | Exits(crashed: bool)
    | DialogAnswered(running: bool)

  /** Clients, the clock and the UI; the plugin's own events come through the proxy. */
  predicate FromOutside(e: Event) {
    !e.PluginAnswer? && !e.PluginUiRequest? && !e.StartNewRequest?
  }

  /** The session slot that a proxy signal is connected to, where it matters for
      the queue; the store and state-change slots do not touch it. */
  function Slot(signal: PluginProxy.Signal): seq<Event> {
    match signal
    case ResultReply => [PluginAnswer(false)]
    case ErrorReply(_) => [PluginAnswer(true)]
    case UiRequest => [PluginUiRequest]
    case RefreshRequest => [PluginUiRequest]
    case _ => []
  }

  /** The session event that a plugin message leads to, if any. */
  function Delivered(p: PluginProxy.Proxy, m: PluginProxy.Message): seq<Event> {
    var signals := PluginProxy.SignalFor(p.uiPolicy, m);
    if !p.listening || p.isResultObtained || signals == [] then [] else Slot(signals[0])
  }

  /** What an input is to the proxy, if it comes from the plugin process. */
  function Spoken(i: Input): seq<PluginProxy.Event> {
    match i
    case Says(m) => [PluginProxy.Arrives([m])]
    case NotifiesWithoutData => [PluginProxy.Arrives([])]
    case Exits(crashed) => [PluginProxy.Exit(crashed)]
    case _ => []
  }

  /** A crash, an exit while processing, a notification without data or a broken blob. */
  predicate Failing(c: Pair, i: Input) {
    Spoken(i) != [] && PluginProxy.Fails(c.proxy, Spoken(i)[0])
  }

  function StepPair(c: Pair, i: Input): Pair {
    match i
    case Client(e) => c.(session := Step(c.session, e))
    case Dispatch(ok, policy) =>
      var handed := Starts(c.session) && ok;
      Pair(Step(c.session, StartNewRequest(ok)),
           if handed then PluginProxy.AfterProcessCall(c.proxy, policy) else c.proxy,
           c.begun || handed)
    case DialogAnswered(running) => c.(proxy := PluginProxy.Resumed(c.proxy, running))
    case _ =>
      Pair(if SessionEvents(c, i) == [] then c.session else Step(c.session, SessionEvents(c, i)[0]),
           PluginProxy.StepProxy(c.proxy, Spoken(i)[0]),
           c.begun && !Failing(c, i))
  }

  /** The session's view of one input; a failure is an error of the plugin. */
  function SessionEvents(c: Pair, i: Input): seq<Event> {
    if Failing(c, i) then [PluginAnswer(true)]
    else
      match i
      case Client(e) => [e]
      case Dispatch(ok, policy) => [StartNewRequest(ok)]
      case Says(m) => Delivered(c.proxy, m)
      case _ => []
  }

  function AfterInputs(c: Pair, inputs: seq<Input>): Pair {
    if inputs == [] then c else StepPair(AfterInputs(c, Prefix(inputs)), Last(inputs))
  }

  function SessionRun(c: Pair, inputs: seq<Input>): seq<Event> {
    if inputs == [] then []
    else SessionRun(c, Prefix(inputs)) + SessionEvents(AfterInputs(c, Prefix(inputs)), Last(inputs))
  }

  /** Clients act as clients; the plugin does not speak before it has been given a
      request, nor after it failed before it is given another; and it fails only while a
      request is active. */
  predicate Admissible(c: Pair, i: Input) {
    && (i.Client? ==> FromOutside(i.event))
    && (i.Says? ==> c.begun)
    && (Failing(c, i) ==> c.session.active)
  }

  predicate AdmissibleInputs(c: Pair, inputs: seq<Input>) {
    inputs == [] ||
    (AdmissibleInputs(c, Prefix(inputs)) && Admissible(AfterInputs(c, Prefix(inputs)), Last(inputs)))
  }

  function InitPair(systemReady: bool, maxInactivity: int, now: int): Pair {
    Pair(Init(systemReady, maxInactivity, now), PluginProxy.Proxy(false, false, true, PluginProxy.DefaultPolicy, []),
        false)
  }

  /** The proxy still expects a result exactly while the session has an active
      request, until a fault stops the session. */
  predicate InStep(c: Pair) {
    && (c.begun && !c.session.faulted ==> (c.session.active <==> !c.proxy.isResultObtained))
    && (!c.begun && !c.session.faulted ==> !c.session.active)
    && SessionLiveness.Awake(c.session)
  }

  /** What the proxy lets through while the two are in step: answers and dialog
      requests reach the session only while a request is active. */
  predicate Orderly(s: Session, e: Event) {
    (e.PluginAnswer? || e.PluginUiRequest?) && !s.faulted ==> s.active
  }

  predicate OrderlyRun(init: Session, run: seq<Event>) {
    run == [] || (OrderlyRun(init, Prefix(run)) && Orderly(After(init, Prefix(run)), Last(run)))
  }

  lemma StepIsOrderly(c: Pair, i: Input)
    requires InStep(c) && Admissible(c, i)
    ensures forall e :: e in SessionEvents(c, i) ==> Orderly(c.session, e)
    ensures StepPair(c, i).session ==
            if SessionEvents(c, i) == [] then c.session else Step(c.session, SessionEvents(c, i)[0])
  {
  }

  lemma OneMessageRecords(p: PluginProxy.Proxy, m: PluginProxy.Message)
    ensures PluginProxy.Read(p, [m]).isResultObtained
        <==> p.isResultObtained || (p.listening && PluginProxy.IsTerminal(m))
  {
    assert [m][1..] == [];
    if !PluginProxy.Stops(m) {
      var q := PluginProxy.Handle(p, m);
      assert PluginProxy.Handled([m]) == [m] && PluginProxy.Drain(p, [m]) == PluginProxy.Drain(q, []);
    }
  }

  /** What a session event does to the active request. */
  lemma EventOnActive(s: Session, e: Event)
    requires SessionLiveness.Awake(s) && !s.faulted
    ensures FromOutside(e) || e.PluginUiRequest? ==> Step(s, e).active == s.active
    ensures e.StartNewRequest? ==> Step(s, e).active == (s.active || (Starts(s) && e.pluginStarts))
    ensures e.PluginAnswer? ==> !Step(s, e).active
  {
  }

  lemma FaultStays(s: Session, e: Event)
    requires s.faulted
    ensures Step(s, e) == s
  {
  }

  /** Record and session after an input that comes from the plugin process. */
  lemma SpokenStaysInStep(c: Pair, i: Input)
    requires InStep(c) && Admissible(c, i) && Spoken(i) != [] && !c.session.faulted
    ensures var d := StepPair(c, i);
            d.session.faulted ||
            (if d.begun then d.session.active <==> !d.proxy.isResultObtained else !d.session.active)
  {
    if i.Says? { OneMessageRecords(c.proxy, i.message); }
    if SessionEvents(c, i) != [] { EventOnActive(c.session, SessionEvents(c, i)[0]); }
  }

  lemma StepStaysInStep(c: Pair, i: Input)
    requires InStep(c) && Admissible(c, i)
    ensures InStep(StepPair(c, i))
  {
    StepIsOrderly(c, i);
    if SessionEvents(c, i) != [] {
      var e := SessionEvents(c, i)[0];
      SessionLiveness.StepKeepsAwake(c.session, e);
      if c.session.faulted { FaultStays(c.session, e); } else { EventOnActive(c.session, e); }
    }
    if Spoken(i) != [] && !c.session.faulted { SpokenStaysInStep(c, i); }
  }

  lemma OrderExtends(init: Session, run: seq<Event>, more: seq<Event>)
    requires OrderlyRun(init, run) && |more| <= 1
    requires forall e :: e in more ==> Orderly(After(init, run), e)
    ensures OrderlyRun(init, run + more)
    ensures After(init, run + more) == if more == [] then After(init, run) else Step(After(init, run), more[0])
  {
    if more == [] {
      assert run + more == run;
    } else {
      assert Prefix(run + more) == run && Last(run + more) == more[0];
    }
  }

  /** For every admissible input the session sees an orderly run: the plugin's answers
      and dialog requests reach it only while a request is active. */
  lemma {:induction false} ProxyKeepsPluginOrderly(systemReady: bool, maxInactivity: int, now: int, inputs: seq<Input>)
    requires AdmissibleInputs(InitPair(systemReady, maxInactivity, now), inputs)
    ensures var init := InitPair(systemReady, maxInactivity, now);
            && AfterInputs(init, inputs).session == After(init.session, SessionRun(init, inputs))
            && OrderlyRun(init.session, SessionRun(init, inputs))
            && InStep(AfterInputs(init, inputs))
  {
    if inputs != [] {
      var init := InitPair(systemReady, maxInactivity, now);
      var before := AfterInputs(init, Prefix(inputs));
      ProxyKeepsPluginOrderly(systemReady, maxInactivity, now, Prefix(inputs));
      StepIsOrderly(before, Last(inputs));
      StepStaysInStep(before, Last(inputs));
      OrderExtends(init.session, SessionRun(init, Prefix(inputs)), SessionEvents(before, Last(inputs)));
    }
  }

  /** What the plugin says while a request is active reaches it: its result or error, or a
      failure of the process, answers the request at the head, unless that is cancelled;
      and its dialogs, as far as the policy allows them, wait for the user. */
  lemma ActiveRequestHears(c: Pair, i: Input)
    requires InStep(c) && Runs(c.session) && c.session.active && c.begun
    requires i.NotifiesWithoutData? || i.Exits? || i.Says?
    ensures var s, t := c.session, StepPair(c, i).session;
            var id := s.requests[0].id;
            var kind := if i == Says(PluginProxy.ResultMessage) then PluginResult else PluginError;
            var answered := Failing(c, i) || (i.Says? && c.proxy.listening && PluginProxy.IsTerminal(i.message));
            && (answered ==> !t.active && t.log.left == s.log.left + [id])
            && (!answered ==> t.active && t.requests == s.requests && t.log == s.log)
            && (answered && s.canceled ==> t.log.replies == s.log.replies)
            && (answered && !s.canceled ==> t.log.replies == s.log.replies + [Reply(id, kind)])
  {
  }

  lemma NothingUnhandled(m: PluginProxy.Message)
    requires !PluginProxy.Stops(m)
    ensures PluginProxy.Unhandled([m]) == []
  {
    var one := [m];
    assert one[0] == m && one[1..] == [];
    assert PluginProxy.Unhandled(one) == PluginProxy.Unhandled(one[1..]);
  }

  /** It waits in a dialog exactly if it did, or the plugin asks for one that may open, and
      the request is not cancelled. */
  lemma ActiveRequestWaits(c: Pair, m: PluginProxy.Message)
    requires InStep(c) && Runs(c.session) && c.session.active && c.begun && c.proxy.listening
    requires m.UiMessage? || m.RefreshedMessage?
    ensures StepPair(c, Says(m)).session.watcher == Waiting <==>
            || c.session.watcher == Waiting
            || (!c.session.canceled && (m.RefreshedMessage? || PluginSignals.MayOpen(c.proxy.uiPolicy, m.query)))
  {
    var signals := PluginProxy.SignalFor(c.proxy.uiPolicy, m);
    PluginSignals.OneSignal(c.proxy.uiPolicy, m);
    NothingUnhandled(m);
    assert !Failing(c, Says(m)) && SessionEvents(c, Says(m)) == Slot(signals[0]);
    if Slot(signals[0]) != [] { DialogWaitsExactly(c.session, PluginUiRequest); }
  }

  lemma {:induction false} OrderDropsNothing(init: Session, run: seq<Event>, id: nat)
    requires OrderlyRun(init, run)
    ensures !SessionAnswers.Dropped(init, run, id)
  {
    if run != [] { OrderDropsNothing(init, Prefix(run), id); }
  }

  /** End to end: every request that leaves the queue of a session with such a plugin
      has been answered, exactly once if and only if after its cancellation while
      running it was not cancelled again or overtaken by a start event; and no request
      is ever stalled. */
  lemma EveryRequestIsAnswered(systemReady: bool, maxInactivity: int, now: int, inputs: seq<Input>, id: nat)
    requires AdmissibleInputs(InitPair(systemReady, maxInactivity, now), inputs)
    ensures var init := InitPair(systemReady, maxInactivity, now);
            var s := AfterInputs(init, inputs).session;
            var spoiled := SessionAnswers.Spoiled(init.session, SessionRun(init, inputs), id);
            && (id in s.log.left ==> SessionAnswers.Answers(s.log.replies, id) >= 1)
            && (id in s.log.left ==> (SessionAnswers.Answers(s.log.replies, id) == 1 <==> !spoiled))
            && SessionLiveness.Awake(s)
  {
    var init := InitPair(systemReady, maxInactivity, now);
    ProxyKeepsPluginOrderly(systemReady, maxInactivity, now, inputs);
    var run := SessionRun(init, inputs);
    OrderDropsNothing(init.session, run, id);
    if id in After(init.session, run).log.left {
      SessionAnswers.AnsweredExactlyOnce(systemReady, maxInactivity, now, run, id);
    }
  }
}
