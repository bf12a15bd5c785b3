/** The daemon's end of the plugin process: messages from the plugin become
    signals to the session. How the first page of a blob reads is part of a message;
    BlobIO says which it is. */
module PluginProxy {
  datatype UiPolicy = DefaultPolicy | RequestPasswordPolicy | NoUserInteractionPolicy | ValidationPolicy

  /** A dialog request says which of the four keys that matter its data holds. */
  datatype UiQuery = UiQuery(userName: bool, password: bool, captchaImage: bool, captchaUrl: bool)

  datatype Message =
    | ResultMessage
    | StoreMessage
    | UiMessage(query: UiQuery)
    | RefreshedMessage
    | ErrorMessage(code: nat)
    | SignalMessage(state: nat)
    | UnknownMessage
    // the first page of its blob cannot be read, or is not the whole blob
    | BrokenMessage
    | UnfinishedMessage

  /** Error::InternalServer of the client API. */
  const INTERNAL_SERVER: nat := 2

  /** What the session object and the plugin get to see. */
  datatype Signal =
    | ProcessStarted
    | ResultReply
    | ErrorReply(code: nat)
    | StoreRequest
    | UiRequest
    | RefreshRequest
    | StateChanged(state: nat)
    | UiForbidden

  /** `listening` says that the slot is connected to the read notification. */
  datatype Proxy = Proxy(
    isProcessing: bool,
    isResultObtained: bool,
    listening: bool,
    uiPolicy: UiPolicy,
    signals: seq<Signal>)

  predicate IsTerminal(m: Message) {
    m.ResultMessage? || m.ErrorMessage?
  }

  /** Reading goes no further than these. */
  predicate Stops(m: Message) {
    m.UnknownMessage? || m.BrokenMessage? || m.UnfinishedMessage?
  }

  predicate IsTerminalSignal(e: Signal) {
    e.ResultReply? || e.ErrorReply?
  }

  predicate UiAllowed(policy: UiPolicy, query: UiQuery) {
    && policy != NoUserInteractionPolicy
    && (policy == ValidationPolicy ==>
          !(query.userName || query.password) || query.captchaImage || query.captchaUrl)
  }

  /** The signal for a message that is still expected; those that stop have none. */
  function SignalFor(policy: UiPolicy, m: Message): seq<Signal> {
    match m
    case ResultMessage => [ResultReply]
    case StoreMessage => [StoreRequest]
    case UiMessage(query) => if UiAllowed(policy, query) then [UiRequest] else [UiForbidden]
    case RefreshedMessage => [RefreshRequest]
    case ErrorMessage(code) => [ErrorReply(code)]
    case SignalMessage(state) => [StateChanged(state)]
    case _ => []
  }

  /** The messages that get handled out of what is available, */
  function Handled(input: seq<Message>): seq<Message> {
    if input == [] || Stops(input[0]) then [] else [input[0]] + Handled(input[1..])
  }

  /** and the rest, from the one that stops. */
  function Unhandled(input: seq<Message>): seq<Message> {
    if input == [] || Stops(input[0]) then input else Unhandled(input[1..])
  }

  predicate EndsBroken(input: seq<Message>) {
    Unhandled(input) != [] && Unhandled(input)[0].BrokenMessage?
  }

  predicate EndsUnfinished(input: seq<Message>) {
    Unhandled(input) != [] && Unhandled(input)[0].UnfinishedMessage?
  }

  /** An unknown code flushes the channel, and a broken blob uses it up. */
  function Unread(input: seq<Message>): seq<Message> {
    if EndsUnfinished(input) then Unhandled(input)[1..] else []
  }

  /** The part of a message sequence up to and including its first terminal one. */
  function UpToTerminal(messages: seq<Message>): seq<Message> {
    if messages == [] then []
    else if IsTerminal(messages[0]) then [messages[0]]
    else [messages[0]] + UpToTerminal(messages[1..])
  }

  function SignalsFor(policy: UiPolicy, messages: seq<Message>): seq<Signal> {
    if messages == [] then []
    else SignalFor(policy, messages[0]) + SignalsFor(policy, messages[1..])
  }

  predicate SomeTerminal(messages: seq<Message>) {
    exists i :: 0 <= i < |messages| && IsTerminal(messages[i])
  }

  /** Terminal messages end processing; sending a refused dialog back to the
      plugin resumes it. */
  function ProcessingAfter(p: Proxy, m: Message): bool {
    if IsTerminal(m) then false
    else if m.UiMessage? && !p.isResultObtained && !UiAllowed(p.uiPolicy, m.query) then true
    else p.isProcessing
  }

  function Handle(p: Proxy, m: Message): Proxy {
    Proxy(ProcessingAfter(p, m),
          p.isResultObtained || IsTerminal(m),
          true,
          p.uiPolicy,
          if p.isResultObtained then p.signals else p.signals + SignalFor(p.uiPolicy, m))
  }

  function Drain(p: Proxy, messages: seq<Message>): Proxy
    decreases |messages|
  {
    if messages == [] then p else Drain(Handle(p, messages[0]), messages[1..])
  }

  function AfterProcessCall(p: Proxy, policy: UiPolicy): Proxy {
    Proxy(true, false, p.listening, policy, p.signals + [ProcessStarted])
  }

  /** An error that is emitted without being put on record as the result. */
  function Unrecorded(p: Proxy): Proxy {
    p.(isProcessing := false, signals := p.signals + [ErrorReply(INTERNAL_SERVER)])
  }

  /** A broken blob is an error without a record; an unfinished one leaves the slot
      disconnected, since the notifier that should bring its other pages is disabled. */
  function Stopped(p: Proxy, input: seq<Message>): Proxy {
    if EndsBroken(input) then p.(signals := p.signals + [ErrorReply(INTERNAL_SERVER)])
    else if EndsUnfinished(input) then p.(listening := false)
    else p
  }

  /** A read notification, if the slot is connected: with nothing to read it is
      reported as an error, and the slot stays disconnected for good. */
  function Read(p: Proxy, input: seq<Message>): Proxy {
    if !p.listening then p
    else if input == [] then Unrecorded(p).(listening := false)
    else Stopped(Drain(p, Handled(input)), input)
  }

  /** The answer to a dialog or refresh request goes to the plugin process. */
  function Resumed(p: Proxy, running: bool): Proxy {
    p.(isProcessing := p.isProcessing || running)
  }

  /** The plugin process has gone. */
  function Exited(p: Proxy, crashed: bool): Proxy {
    if p.isProcessing || crashed then Unrecorded(p) else p
  }

  class Plugin {
    var isProcessing: bool
    var isResultObtained: bool
    // the slot is connected to the read notification
    var listening: bool
    var uiPolicy: UiPolicy
    // bytes available on the process, as whole messages
    var input: seq<Message>
    ghost var signals: seq<Signal>

    ghost function State(): Proxy
      reads this
    {
      Proxy(isProcessing, isResultObtained, listening, uiPolicy, signals)
    }

    constructor ()
      ensures State() == Proxy(false, false, true, DefaultPolicy, []) && input == []
    {
      isProcessing, isResultObtained, listening, uiPolicy := false, false, true, DefaultPolicy;
      input, signals := [], [];
    }

    /** Hands a request to the plugin process; fails when it cannot be restarted. */
    method Process(policy: UiPolicy, running: bool) returns (ok: bool)
      modifies this
      ensures ok == running && input == old(input)
      ensures State() == if running then AfterProcessCall(old(State()), policy) else old(State())
    {
      if !running { return false; }
      isResultObtained := false;
      uiPolicy := policy;
      isProcessing := true;
      signals := signals + [ProcessStarted];
      return true;
    }

    method ProcessUi(running: bool) returns (ok: bool)
      modifies this
      ensures ok == running && input == old(input) && State() == Resumed(old(State()), running)
    {
      if !running { return false; }
      isProcessing := true;
      return true;
    }

    method ProcessRefresh(running: bool) returns (ok: bool)
      modifies this
      ensures ok == running && input == old(input) && State() == Resumed(old(State()), running)
    {
      if !running { return false; }
      isProcessing := true;
      return true;
    }

    method BlobIOError()
      modifies this
      ensures input == old(input)
      ensures State()
           == old(State()).(listening := true, signals := old(signals) + [ErrorReply(INTERNAL_SERVER)])
    {
      listening := true;
      signals := signals + [ErrorReply(INTERNAL_SERVER)];
    }

    /** Reads one operation code and handles its message; handling reads on while
        bytes remain. The remaining input bounds this recursion. */
    method OnReadStandardOutput()
      requires listening
      modifies this
      ensures State() == Read(old(State()), old(input))
      ensures input == Unread(old(input))
      decreases |input|, 0
    {
      listening := false;
      if input == [] {
        isProcessing := false;
        signals := signals + [ErrorReply(INTERNAL_SERVER)];
        return;
      }
      var m := input[0];
      input := input[1..];
      if m.UnknownMessage? {
        input := [];
        listening := true;
      } else if m.BrokenMessage? {
        input := [];
        BlobIOError();
      } else if !m.UnfinishedMessage? {
        HandlePluginResponse(m);
      }
    }

    method HandlePluginResponse(m: Message)
      requires !Stops(m)
      modifies this
      ensures State() == Stopped(Drain(Handle(old(State()), m), Handled(old(input))), old(input))
      ensures input == Unread(old(input))
      decreases |input|, 1
    {
      match m {
        case ResultMessage =>
          isProcessing := false;
          if !isResultObtained { signals := signals + [ResultReply]; }
          isResultObtained := true;
        case StoreMessage =>
          if !isResultObtained { signals := signals + [StoreRequest]; }
        case UiMessage(query) =>
          if !isResultObtained {
            var allowed := true;
            if uiPolicy == NoUserInteractionPolicy { allowed := false; }
            if uiPolicy == ValidationPolicy {
              var credentialsQueried := query.userName || query.password;
              var captchaQueried := query.captchaImage || query.captchaUrl;
              if credentialsQueried && !captchaQueried { allowed := false; }
            }
            if !allowed {
              isProcessing := true;
              signals := signals + [UiForbidden];
            } else {
              signals := signals + [UiRequest];
            }
          }
        case RefreshedMessage =>
          if !isResultObtained { signals := signals + [RefreshRequest]; }
        case ErrorMessage(code) =>
          isProcessing := false;
          if !isResultObtained { signals := signals + [ErrorReply(code)]; }
          isResultObtained := true;
        case SignalMessage(state) =>
          if !isResultObtained { signals := signals + [StateChanged(state)]; }
      }
      listening := true;
      if input != [] {
        OnReadStandardOutput();
      }
    }

    method OnExit(crashed: bool)
      modifies this
      ensures State() == Exited(old(State()), crashed) && input == old(input)
    {
      if isProcessing || crashed {
        signals := signals + [ErrorReply(INTERNAL_SERVER)];
      }
      isProcessing := false;
    }
  }

  datatype Event =
    | ProcessCall(policy: UiPolicy, running: bool)
    | DialogAnswered(running: bool)
    | Arrives(messages: seq<Message>)
    | Exit(crashed: bool)

  function StepProxy(p: Proxy, e: Event): Proxy {
    match e
    case ProcessCall(policy, running) => if running then AfterProcessCall(p, policy) else p
    case DialogAnswered(running) => Resumed(p, running)
    case Arrives(messages) => Read(p, messages)
    case Exit(crashed) => Exited(p, crashed)
  }

  function RunProxy(p: Proxy, run: seq<Event>): Proxy
    decreases |run|
  {
    if run == [] then p else RunProxy(StepProxy(p, run[0]), run[1..])
  }

  /** Nothing follows a terminal signal before the next process call. */
  ghost predicate TerminalIsLast(signals: seq<Signal>) {
    forall i :: 0 <= i < |signals| - 1 && IsTerminalSignal(signals[i]) ==> signals[i + 1] == ProcessStarted
  }

  predicate EndsTerminal(signals: seq<Signal>) {
    signals != [] && IsTerminalSignal(signals[|signals| - 1])
  }

  lemma SomeTerminalCons(m: Message, rest: seq<Message>)
    ensures SomeTerminal([m] + rest) <==> IsTerminal(m) || SomeTerminal(rest)
  {
    var all := [m] + rest;
    if IsTerminal(m) { assert IsTerminal(all[0]); }
    if SomeTerminal(rest) {
      var i :| 0 <= i < |rest| && IsTerminal(rest[i]);
      assert all[i + 1] == rest[i];
    }
    if SomeTerminal(all) && !IsTerminal(m) {
      var i :| 0 <= i < |all| && IsTerminal(all[i]);
      assert rest[i - 1] == all[i];
    }
  }

  lemma {:induction false} DrainRecordsResult(p: Proxy, messages: seq<Message>)
    ensures p.listening ==> Drain(p, messages).listening
    ensures Drain(p, messages).isResultObtained == (p.isResultObtained || SomeTerminal(messages))
    ensures Drain(p, messages).uiPolicy == p.uiPolicy
    decreases |messages|
  {
    if messages != [] {
      assert messages == [messages[0]] + messages[1..];
      SomeTerminalCons(messages[0], messages[1..]);
      DrainRecordsResult(Handle(p, messages[0]), messages[1..]);
    }
  }

  lemma {:induction false} DrainIsSilent(p: Proxy, messages: seq<Message>)
    requires p.isResultObtained
    ensures Drain(p, messages).signals == p.signals
    decreases |messages|
  {
    if messages != [] { DrainIsSilent(Handle(p, messages[0]), messages[1..]); }
  }

  lemma FirstEmits(policy: UiPolicy, messages: seq<Message>)
    requires messages != []
    ensures SignalsFor(policy, UpToTerminal(messages)) ==
            SignalFor(policy, messages[0])
            + if IsTerminal(messages[0]) then [] else SignalsFor(policy, UpToTerminal(messages[1..]))
  {
    var kept := UpToTerminal(messages);
    assert kept[1..] == if IsTerminal(messages[0]) then [] else UpToTerminal(messages[1..]);
  }

  /** Draining passes on exactly the signals of the messages up to the first
      terminal one, when no result was obtained before. */
  lemma {:induction false} DrainEmits(p: Proxy, messages: seq<Message>)
    requires !p.isResultObtained
    ensures Drain(p, messages).signals == p.signals + SignalsFor(p.uiPolicy, UpToTerminal(messages))
    decreases |messages|
  {
    if messages != [] {
      var q := Handle(p, messages[0]);
      FirstEmits(p.uiPolicy, messages);
      if IsTerminal(messages[0]) { DrainIsSilent(q, messages[1..]); } else { DrainEmits(q, messages[1..]); }
    }
  }

  lemma {:induction false} OnlyLastIsTerminal(policy: UiPolicy, messages: seq<Message>)
    ensures var s := SignalsFor(policy, UpToTerminal(messages));
            && (forall i :: 0 <= i < |s| - 1 ==> !IsTerminalSignal(s[i]))
            && (EndsTerminal(s) <==> SomeTerminal(messages))
    decreases |messages|
  {
    if messages != [] {
      var m, rest := messages[0], messages[1..];
      assert messages == [m] + rest;
      SomeTerminalCons(m, rest);
      OnlyLastIsTerminal(policy, rest);
      var kept := UpToTerminal(messages);
      assert kept[0] == m && kept[1..] == if IsTerminal(m) then [] else UpToTerminal(rest);
    }
  }

  lemma AppendingKeepsTerminalLast(signals: seq<Signal>, more: seq<Signal>)
    requires TerminalIsLast(signals) && !EndsTerminal(signals)
    requires forall i :: 0 <= i < |more| - 1 ==> !IsTerminalSignal(more[i])
    ensures TerminalIsLast(signals + more)
    ensures EndsTerminal(signals + more) <==> EndsTerminal(more)
  {
    if more == [] { assert signals + more == signals; }
  }

  /** What the messages emit that are handled when they arrive; */
  function Emitted(p: Proxy, messages: seq<Message>): seq<Signal> {
    if p.isResultObtained then [] else SignalsFor(p.uiPolicy, UpToTerminal(Handled(messages)))
  }

  /** and the error, not on record, that a notification without data or a broken blob
      ends with. */
  predicate ReadFails(messages: seq<Message>) {
    messages == [] || EndsBroken(messages)
  }

  function ErrorIf(fails: bool): seq<Signal> {
    if fails then [ErrorReply(INTERNAL_SERVER)] else []
  }

  /** The signals that an event adds. */
  function Added(p: Proxy, e: Event): seq<Signal> {
    match e
    case ProcessCall(_, running) => if running then [ProcessStarted] else []
    case DialogAnswered(_) => []
    case Arrives(messages) => if p.listening then Emitted(p, messages) + ErrorIf(ReadFails(messages)) else []
    case Exit(crashed) => ErrorIf(crashed || p.isProcessing)
  }

  lemma StepAdds(p: Proxy, e: Event)
    ensures StepProxy(p, e).signals == p.signals + Added(p, e)
  {
    if e.Arrives? && p.listening && e.messages != [] {
      if p.isResultObtained { DrainIsSilent(p, Handled(e.messages)); } else { DrainEmits(p, Handled(e.messages)); }
    }
  }

  /** Does this event emit anything but the start of a process call? An exit does while
      a request is on, or when it is a crash; a notification does unless the slot is
      disconnected, or no error comes with it and the result is on record or nothing is
      handled. */
  predicate Speaks(p: Proxy, e: Event) {
    match e
    case ProcessCall(_, _) => false
    case DialogAnswered(_) => false
    case Arrives(messages) =>
      p.listening && (ReadFails(messages) || (!p.isResultObtained && Handled(messages) != []))
    case Exit(crashed) => crashed || p.isProcessing
  }

  /** A broken blob follows the result among the messages that arrive. */
  predicate BrokenAfterResult(p: Proxy, e: Event) {
    && e.Arrives? && p.listening && !p.isResultObtained
    && EndsBroken(e.messages) && SomeTerminal(Handled(e.messages))
  }

  predicate OutOfTurn(p: Proxy, e: Event) {
    (EndsTerminal(p.signals) && Speaks(p, e)) || BrokenAfterResult(p, e)
  }

  ghost predicate OnlyLastTerminal(s: seq<Signal>) {
    forall i :: 0 <= i < |s| - 1 ==> !IsTerminalSignal(s[i])
  }

  lemma ErrorAppended(s: seq<Signal>, fails: bool)
    requires OnlyLastTerminal(s)
    ensures OnlyLastTerminal(s + ErrorIf(fails)) <==> !(fails && EndsTerminal(s))
  {
    if fails && EndsTerminal(s) { assert (s + ErrorIf(fails))[|s| - 1] == s[|s| - 1]; }
    if !fails { assert s + ErrorIf(fails) == s; }
  }

  lemma EmittedInOrder(p: Proxy, messages: seq<Message>)
    ensures OnlyLastTerminal(Emitted(p, messages)) && ProcessStarted !in Emitted(p, messages)
    ensures Emitted(p, messages) == [] <==> p.isResultObtained || Handled(messages) == []
    ensures EndsTerminal(Emitted(p, messages)) <==> !p.isResultObtained && SomeTerminal(Handled(messages))
  {
    OnlyLastIsTerminal(p.uiPolicy, Handled(messages));
    NoProcessStarted(p.uiPolicy, UpToTerminal(Handled(messages)));
    if Handled(messages) != [] { assert UpToTerminal(Handled(messages))[0] == Handled(messages)[0]; }
  }

  lemma {:induction false} NoProcessStarted(policy: UiPolicy, messages: seq<Message>)
    ensures ProcessStarted !in SignalsFor(policy, messages)
  {
    if messages != [] { NoProcessStarted(policy, messages[1..]); }
  }

  /** What a step adds is a process start or not, and has a terminal signal only at the
      end unless a broken blob follows the result. */
  lemma AddedInOrder(p: Proxy, e: Event)
    ensures OnlyLastTerminal(Added(p, e)) <==> !BrokenAfterResult(p, e)
    ensures Added(p, e) != [] <==> Speaks(p, e) || (e.ProcessCall? && e.running)
    ensures Added(p, e) != [] ==> (Added(p, e)[0] == ProcessStarted <==> e.ProcessCall?)
    ensures ProcessStarted in Added(p, e) ==> e.ProcessCall?
  {
    if e.Arrives? {
      EmittedInOrder(p, e.messages);
      ErrorAppended(Emitted(p, e.messages), ReadFails(e.messages));
    }
  }

  lemma DisorderAppended(signals: seq<Signal>, more: seq<Signal>)
    requires !OnlyLastTerminal(more) && ProcessStarted !in more
    ensures !TerminalIsLast(signals + more)
  {
    var i :| 0 <= i < |more| - 1 && IsTerminalSignal(more[i]);
    var all, n := signals + more, |signals|;
    assert all[n + i] == more[i] && all[n + i + 1] == more[i + 1] && more[i + 1] in more;
  }

  /** A step keeps the trace in order exactly when it does not speak after a terminal
      signal. */
  lemma StepKeepsTrace(p: Proxy, e: Event)
    requires TerminalIsLast(p.signals)
    ensures TerminalIsLast(StepProxy(p, e).signals) <==> !OutOfTurn(p, e)
  {
    StepAdds(p, e);
    AddedInOrder(p, e);
    var n, after := |p.signals|, StepProxy(p, e).signals;
    if BrokenAfterResult(p, e) {
      DisorderAppended(p.signals, Added(p, e));
    } else if OutOfTurn(p, e) {
      assert after[n - 1] == p.signals[n - 1] && after[n] == Added(p, e)[0];
    } else if !EndsTerminal(p.signals) {
      AppendingKeepsTerminalLast(p.signals, Added(p, e));
    }
  }

  predicate NeverOutOfTurn(p: Proxy, run: seq<Event>)
    decreases |run|
  {
    run == [] || (!OutOfTurn(p, run[0]) && NeverOutOfTurn(StepProxy(p, run[0]), run[1..]))
  }

  lemma {:induction false} DisorderStays(p: Proxy, run: seq<Event>)
    requires !TerminalIsLast(p.signals)
    ensures !TerminalIsLast(RunProxy(p, run).signals)
    decreases |run|
  {
    if run != [] {
      var i :| 0 <= i < |p.signals| - 1 && IsTerminalSignal(p.signals[i]) && p.signals[i + 1] != ProcessStarted;
      var q := StepProxy(p, run[0]);
      StepAdds(p, run[0]);
      assert q.signals[i] == p.signals[i] && q.signals[i + 1] == p.signals[i + 1];
      DisorderStays(q, run[1..]);
    }
  }

  /** For every run, failures included: between two process calls at most one result or
      error is emitted, and nothing after it, if and only if no event speaks after one. */
  lemma {:induction false} OneTerminalPerProcess(p: Proxy, run: seq<Event>)
    requires TerminalIsLast(p.signals)
    ensures TerminalIsLast(RunProxy(p, run).signals) <==> NeverOutOfTurn(p, run)
    decreases |run|
  {
    if run != [] {
      var q := StepProxy(p, run[0]);
      StepKeepsTrace(p, run[0]);
      if OutOfTurn(p, run[0]) { DisorderStays(q, run[1..]); } else { OneTerminalPerProcess(q, run[1..]); }
    }
  }

  // The plugin's part in that.

  /** The process exits while a request is on, crashes, signals data that it does not
      have, or sends a broken blob. */
  predicate Fails(p: Proxy, e: Event) {
    match e
    case ProcessCall(_, _) => false
    case DialogAnswered(_) => false
    case Arrives(messages) => p.listening && ReadFails(messages)
    case Exit(crashed) => crashed || p.isProcessing
  }

  /** A terminal signal ends the trace exactly when a result is on record. */
  ghost predicate Consistent(p: Proxy) {
    TerminalIsLast(p.signals) && (EndsTerminal(p.signals) <==> p.isResultObtained)
  }

  lemma ReadingRecords(p: Proxy, messages: seq<Message>)
    requires p.listening
    ensures Read(p, messages).isResultObtained <==> p.isResultObtained || SomeTerminal(Handled(messages))
  {
    DrainRecordsResult(p, Handled(messages));
  }

  lemma RecordAgrees(p: Proxy, e: Event)
    requires Consistent(p)
    ensures var q := StepProxy(p, e);
            (EndsTerminal(q.signals) <==> q.isResultObtained) <==> !Fails(p, e) || q.isResultObtained
  {
    StepAdds(p, e);
    if e.Arrives? && p.listening {
      EmittedInOrder(p, e.messages);
      ReadingRecords(p, e.messages);
      var emitted := Emitted(p, e.messages);
      if ReadFails(e.messages) {
        assert EndsTerminal(p.signals + (emitted + ErrorIf(true)));
      } else {
        assert emitted + ErrorIf(false) == emitted;
      }
    }
  }

  /** While trace and record agree: a step disturbs the trace exactly when the process
      fails and a result is on record by then, and one of the two exactly when it fails. */
  lemma FailureDisturbs(p: Proxy, e: Event)
    requires Consistent(p)
    ensures TerminalIsLast(StepProxy(p, e).signals) <==> !(Fails(p, e) && StepProxy(p, e).isResultObtained)
    ensures Consistent(StepProxy(p, e)) <==> !Fails(p, e)
  {
    StepKeepsTrace(p, e);
    RecordAgrees(p, e);
    if e.Arrives? && p.listening { ReadingRecords(p, e.messages); }
  }

  predicate NeverFails(p: Proxy, run: seq<Event>)
    decreases |run|
  {
    run == [] || (!Fails(p, run[0]) && NeverFails(StepProxy(p, run[0]), run[1..]))
  }

  /** So a process that never fails never speaks out of turn, whatever it sends. */
  lemma {:induction false} OnlyFailuresDisturb(p: Proxy, run: seq<Event>)
    requires Consistent(p) && NeverFails(p, run)
    ensures NeverOutOfTurn(p, run) && Consistent(RunProxy(p, run))
    decreases |run|
  {
    if run != [] {
      FailureDisturbs(p, run[0]);
      StepKeepsTrace(p, run[0]);
      OnlyFailuresDisturb(StepProxy(p, run[0]), run[1..]);
    }
  }

  /** The bad run: the process crashes after its result. */
  lemma CrashAfterResult(policy: UiPolicy)
    ensures var run := [ProcessCall(policy, true), Arrives([ResultMessage]), Exit(true)];
            var p := RunProxy(Proxy(false, false, true, DefaultPolicy, []), run);
            p.signals == [ProcessStarted, ResultReply, ErrorReply(INTERNAL_SERVER)]
  {
    var called := AfterProcessCall(Proxy(false, false, true, DefaultPolicy, []), policy);
    var run := [ProcessCall(policy, true), Arrives([ResultMessage]), Exit(true)];
    assert run[1..] == [Arrives([ResultMessage]), Exit(true)] && run[1..][1..] == [Exit(true)];
    assert [ResultMessage][1..] == [] && Handled([ResultMessage]) == [ResultMessage];
    var replied := Drain(called, [ResultMessage]);
    assert replied == Drain(Handle(called, ResultMessage), []) && Unhandled([ResultMessage]) == [];
    assert replied.signals == [ProcessStarted, ResultReply];
    assert RunProxy(called, run[1..]) == RunProxy(replied, [Exit(true)]);
    assert [Exit(true)][1..] == [];
    assert RunProxy(replied, [Exit(true)]) == RunProxy(Exited(replied, true), []);
  }

  /** The slot stays connected exactly until a notification comes without data, or a
      blob is not whole with its first page. */
  lemma DeafExactlyWhen(p: Proxy, e: Event)
    ensures StepProxy(p, e).listening <==>
            p.listening && !(e.Arrives? && (e.messages == [] || EndsUnfinished(e.messages)))
  {
    if e.Arrives? && p.listening { DrainRecordsResult(p, Handled(e.messages)); }
  }

  /** From then on nothing the plugin says is read again. */
  lemma {:induction false} EmptyReadDeafens(p: Proxy, run: seq<Event>)
    requires !p.listening
    ensures !RunProxy(p, run).listening
    ensures (forall e :: e in run ==> e.Arrives?) ==> RunProxy(p, run) == p
    decreases |run|
  {
    if run != [] {
      assert run[0] in run && forall e :: e in run[1..] ==> e in run;
      if run[0].Arrives? { assert StepProxy(p, run[0]) == p; }
      EmptyReadDeafens(StepProxy(p, run[0]), run[1..]);
    }
  }
}
