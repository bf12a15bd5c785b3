/** The request queue of one authentication session, as a state machine.

    Every slot of the session object is one step. The queue and the flags are
    the object's own fields; `posted` counts the start events waiting in the
    event loop, and the last fields record what clients can observe. */
module SessionQueue {

  /** `id` is the arrival number of the D-Bus message; clients choose `cancelKey`
      and may use one key for many requests. */
  datatype Request = Request(id: nat, cancelKey: string)

  /** The pending-call watcher of a UI dialog: absent, waiting for the reply, or
      finished with its slot not run yet. */
  datatype Watcher = NoWatcher | Waiting | Answered

  datatype ReplyKind = CanceledError | RuntimeError | PluginResult | PluginError

  datatype Reply = Reply(id: nat, kind: ReplyKind)

  datatype Session = Session(
    requests: seq<Request>,
    active: bool,
    canceled: bool,
    watcher: Watcher,
    posted: nat,
    systemReady: bool,
    log: Log,
    idle: Idle,
    faulted: bool)

  /** What clients have seen so far: how many requests arrived, which started and
      which left the queue, in order, and every reply. */
  datatype Log = Log(arrived: nat, started: seq<nat>, left: seq<nat>, replies: seq<Reply>)

  /** The disposable base object and the clock it reads. */
  datatype Idle = Idle(autoDestruct: bool, lastActivity: int, maxInactivity: int, listed: bool, alive: bool, now: int)

  datatype Event =
    | Process(cancelKey: string)
    | Cancel(key: string)
    | SystemReady
    | StartNewRequest(pluginStarts: bool)
    | PluginAnswer(isError: bool)
    | PluginUiRequest
    | UiReplies
    | QueryUi
    | DestroyUnused
    | Tick(seconds: nat)

  function Init(systemReady: bool, maxInactivity: int, now: int): Session {
    Session([], false, false, NoWatcher, 0, systemReady, Log(0, [], [], []),
            Idle(true, now, maxInactivity, true, true, now), false)
  }

  function KeepInUse(idle: Idle): Idle {
    idle.(lastActivity := idle.now)
  }

  /** The position of the first request with the given key, or the length. */
  function FirstWithKey(requests: seq<Request>, key: string): (i: nat)
    ensures i <= |requests|
    ensures i < |requests| ==> requests[i].cancelKey == key
    ensures forall j :: 0 <= j < i ==> requests[j].cancelKey != key
  {
    if requests == [] || requests[0].cancelKey == key then 0
    else 1 + FirstWithKey(requests[1..], key)
  }

  function AfterProcess(s: Session, key: string): Session {
    s.(idle := KeepInUse(s.idle),
       requests := s.requests + [Request(s.log.arrived, key)],
       log := s.log.(arrived := s.log.arrived + 1),
       posted := if s.systemReady then s.posted + 1 else s.posted)
  }

  function Replied(log: Log, id: nat, kind: ReplyKind): Log {
    log.(replies := log.replies + [Reply(id, kind)])
  }

  function DropWaiting(watcher: Watcher): Watcher {
    if watcher == Waiting then NoWatcher else watcher
  }

  /** Cancelling the active request answers it but keeps it in the queue until
      the plugin has replied; any other request is answered and taken out. */
  function AfterCancel(s: Session, key: string): Session {
    var i := FirstWithKey(s.requests, key);
    if i == |s.requests| then s
    else if i == 0 && s.active then
      s.(canceled := true,
         watcher := DropWaiting(s.watcher),
         log := Replied(s.log, s.requests[0].id, CanceledError))
    else
      var log := Replied(s.log, s.requests[i].id, CanceledError);
      s.(requests := s.requests[..i] + s.requests[i + 1..],
         log := log.(left := log.left + [s.requests[i].id]))
  }

  function RequestDone(s: Session): Session
    requires s.requests != []
  {
    s.(requests := s.requests[1..],
       log := s.log.(left := s.log.left + [s.requests[0].id]),
       active := false,
       posted := s.posted + 1)
  }

  /** The head becomes active and goes to the plugin. */
  function Started(s: Session): Session
    requires s.requests != []
  {
    s.(idle := s.idle.(autoDestruct := false),
       active := true,
       log := s.log.(started := s.log.started + [s.requests[0].id]))
  }

  function AfterStartNewRequest(s: Session, pluginStarts: bool): Session
    requires s.posted > 0
  {
    var t := s.(posted := s.posted - 1, idle := KeepInUse(s.idle), canceled := false);
    if t.requests == [] then t.(idle := t.idle.(autoDestruct := true))
    else if t.active then t
    else if t.watcher == Waiting then t
    else
      var u := Started(t);
      if pluginStarts then u
      else RequestDone(u.(log := Replied(u.log, u.requests[0].id, RuntimeError)))
  }

  /** A result or an error from the plugin. */
  function AfterPluginAnswer(s: Session, kind: ReplyKind): Session {
    var t := s.(idle := KeepInUse(s.idle));
    if t.requests == [] then t
    else if t.canceled then RequestDone(t)
    else
      RequestDone(t.(log := Replied(t.log, t.requests[0].id, kind), watcher := DropWaiting(t.watcher)))
  }

  /** A dialog or refresh request from the plugin. */
  function AfterUiRequest(s: Session): Session {
    var t := s.(idle := KeepInUse(s.idle));
    if !t.canceled && t.requests != [] then t.(watcher := Waiting) else t
  }

  /** The slot of the finished dialog; it reads the head of the queue. */
  function AfterQueryUi(s: Session): Session {
    var t := s.(idle := KeepInUse(s.idle));
    if t.requests == [] then t.(faulted := true) else t.(watcher := NoWatcher)
  }

  function AfterDestroyUnused(s: Session): Session {
    var idle := s.idle;
    if idle.listed && idle.autoDestruct && idle.now - idle.lastActivity > idle.maxInactivity then
      if s.active || s.watcher != NoWatcher
      then s.(idle := KeepInUse(idle.(listed := false)))
      else s.(idle := idle.(listed := false, alive := false))
    else s
  }

  function Step(s: Session, e: Event): Session {
    if !s.idle.alive || s.faulted then s
    else match e
      case Process(key) => AfterProcess(s, key)
      case Cancel(key) => AfterCancel(s, key)
      case SystemReady => s.(systemReady := true, posted := s.posted + 1)
      case StartNewRequest(ok) => if s.posted > 0 then AfterStartNewRequest(s, ok) else s
      case PluginAnswer(isError) => AfterPluginAnswer(s, if isError then PluginError else PluginResult)
      case PluginUiRequest => AfterUiRequest(s)
      case UiReplies => if s.watcher == Waiting then s.(watcher := Answered) else s
      case QueryUi => if s.watcher == Answered then AfterQueryUi(s) else s
      case DestroyUnused => AfterDestroyUnused(s)
      case Tick(n) => s.(idle := s.idle.(now := s.idle.now + n))
  }

  /** The state after a whole run. */
  function After(init: Session, run: seq<Event>): Session {
    if run == [] then init else Step(After(init, Prefix(run)), Last(run))
  }

  function Prefix<T>(run: seq<T>): seq<T>
    requires run != []
  {
    run[..|run| - 1]
  }

  function Last<T>(run: seq<T>): T
    requires run != []
  {
    run[|run| - 1]
  }

  lemma OneMore(init: Session, run: seq<Event>, e: Event)
    ensures After(init, run + [e]) == Step(After(init, run), e)
  {
    assert Prefix(run + [e]) == run;
  }
}
