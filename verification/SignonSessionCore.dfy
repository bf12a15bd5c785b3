/** The session object itself: its slots update the fields in place and refine
    the steps of SessionQueue. */
module SignonSessionCore {
  import opened SessionQueue

  class Core {
    var requests: seq<Request>
    var requestIsActive: bool
    var canceled: bool
    var watcher: Watcher
    // the disposable base object
    var autoDestruct: bool
    var lastActivity: int
    const maxInactivity: int
    // the monotonic clock and the credentials system
    var now: int
    var systemReady: bool
    // start events in the event loop, and what was observed so far
    ghost var posted: nat
    ghost var log: Log
    ghost var listed: bool
    ghost var alive: bool
    ghost var faulted: bool

    ghost function State(): Session
      reads this
    {
      Session(requests, requestIsActive, canceled, watcher, posted, systemReady, log,
              Idle(autoDestruct, lastActivity, maxInactivity, listed, alive, now), faulted)
    }

    constructor (maxInactivity: int, now: int, systemReady: bool)
      ensures State() == Init(systemReady, maxInactivity, now)
    {
      requests, requestIsActive, canceled, watcher := [], false, false, NoWatcher;
      autoDestruct, lastActivity, this.maxInactivity, this.now := true, now, maxInactivity, now;
      this.systemReady, posted, log := systemReady, 0, Log(0, [], [], []);
      listed, alive, faulted := true, true, false;
    }

    /** `message` is the D-Bus message to answer, named by its arrival number. */
    method Process(message: nat, cancelKey: string)
      requires message == log.arrived
      modifies this
      ensures State() == AfterProcess(old(State()), cancelKey)
    {
      lastActivity := now;
      requests := requests + [Request(message, cancelKey)];
      log := log.(arrived := log.arrived + 1);
      if systemReady {
        posted := posted + 1;
      }
    }

    method IndexOf(cancelKey: string) returns (requestIndex: nat)
      ensures requestIndex == FirstWithKey(requests, cancelKey)
    {
      requestIndex := 0;
      while requestIndex < |requests| && requests[requestIndex].cancelKey != cancelKey
        invariant requestIndex <= |requests|
        invariant forall j :: 0 <= j < requestIndex ==> requests[j].cancelKey != cancelKey
      {
        requestIndex := requestIndex + 1;
      }
    }

    method Cancel(cancelKey: string)
      modifies this
      ensures State() == AfterCancel(old(State()), cancelKey)
    {
      var requestIndex := IndexOf(cancelKey);
      if requestIndex < |requests| {
        var isActive := requestIndex == 0 && requestIsActive;
        if isActive {
          canceled := true;
          if watcher == Waiting {
            watcher := NoWatcher;
          }
        }
        ghost var answered := requests[requestIndex].id;
        log := Replied(log, answered, CanceledError);
        if !isActive {
          requests := requests[..requestIndex] + requests[requestIndex + 1..];
          log := log.(left := log.left + [answered]);
        }
      }
    }

    method FinishRequest()
      requires requests != []
      modifies this
      ensures State() == RequestDone(old(State()))
    {
      log := log.(left := log.left + [requests[0].id]);
      requests := requests[1..];
      requestIsActive := false;
      posted := posted + 1;
    }

    /** One posted start event is dispatched. */
    method DispatchStart(pluginStarts: bool)
      requires posted > 0
      modifies this
      ensures State() == AfterStartNewRequest(old(State()), pluginStarts)
    {
      posted := posted - 1;
      lastActivity := now;
      canceled := false;
      if requests == [] {
        autoDestruct := true;
        return;
      }
      if requestIsActive { return; }
      if watcher == Waiting { return; }
      autoDestruct := false;
      StartProcess(pluginStarts);
    }

    method StartProcess(pluginStarts: bool)
      requires requests != []
      modifies this
      ensures var s := old(State()).(active := true,
              log := old(log).(started := old(log).started + [old(requests)[0].id]));
              State() == if pluginStarts then s
                         else RequestDone(s.(log := Replied(s.log, old(requests)[0].id, RuntimeError)))
    {
      requestIsActive := true;
      log := log.(started := log.started + [requests[0].id]);
      if !pluginStarts {
        log := Replied(log, requests[0].id, RuntimeError);
        FinishRequest();
      }
    }

    /** The common shape of the result slot and the error slot. */
    method ProcessAnswer(kind: ReplyKind)
      modifies this
      ensures State() == AfterPluginAnswer(old(State()), kind)
    {
      lastActivity := now;
      if requests == [] { return; }
      if !canceled {
        log := Replied(log, requests[0].id, kind);
        if watcher == Waiting {
          watcher := NoWatcher;
        }
      }
      FinishRequest();
    }

    method ProcessUiRequest()
      modifies this
      ensures State() == AfterUiRequest(old(State()))
    {
      lastActivity := now;
      if !canceled && requests != [] {
        watcher := Waiting;
      }
    }

    method QueryUiSlot()
      modifies this
      ensures State() == AfterQueryUi(old(State()))
    {
      lastActivity := now;
      if requests == [] {
        faulted := true;
        return;
      }
      watcher := NoWatcher;
    }

    /** What the periodic collector does to this object. */
    method CollectUnused()
      requires listed
      modifies this
      ensures State() == AfterDestroyUnused(old(State()))
    {
      if autoDestruct && now - lastActivity > maxInactivity {
        if requestIsActive || watcher != NoWatcher {
          lastActivity := now;
        } else {
          alive := false;
        }
        listed := false;
      }
    }
  }
}
