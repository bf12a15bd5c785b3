/** No lost wake-up, as long as the plugin never asks for a dialog while idle; and no
    fault, as long as it never overtakes the slot of a finished dialog either. */
module SessionLiveness {
  import opened SessionQueue

  /** Some request waits, nothing runs, and no start event is posted. */
  predicate Stalled(s: Session) {
    s.systemReady && !s.active && s.requests != [] && s.posted == 0
  }

  /** When the credentials system is ready and nothing is active, a non-empty queue has a
      start event posted; an idle session that is not auto-destructible has one posted;
      and an active session is alive, has a request and is not auto-destructible. */
  predicate Awake(s: Session) {
    && !Stalled(s)
    && (!s.active && !s.idle.autoDestruct ==> s.posted > 0)
    && (s.active ==> s.requests != [] && !s.idle.autoDestruct && s.idle.alive)
    && (s.watcher == Waiting ==> s.active && !s.canceled)
  }

  /** The plugin asks for a dialog on behalf of a request that has not started. */
  predicate DialogWhileIdle(s: Session, e: Event) {
    && s.idle.alive && !s.faulted
    && e.PluginUiRequest? && !s.active && !s.canceled && s.requests != []
  }

  /** A step keeps the session awake exactly when it is not such a dialog request. */
  lemma StepKeepsAwake(s: Session, e: Event)
    requires Awake(s)
    ensures Awake(Step(s, e)) <==> !DialogWhileIdle(s, e)
  {
  }

  predicate NeverDialogWhileIdle(init: Session, run: seq<Event>) {
    run == [] ||
    (NeverDialogWhileIdle(init, Prefix(run)) && !DialogWhileIdle(After(init, Prefix(run)), Last(run)))
  }

  /** On every run without one, no wake-up is lost. */
  lemma {:induction false} NoLostWakeUp(systemReady: bool, maxInactivity: int, now: int, run: seq<Event>)
    requires NeverDialogWhileIdle(Init(systemReady, maxInactivity, now), run)
    ensures Awake(After(Init(systemReady, maxInactivity, now), run))
  {
    if run != [] {
      NoLostWakeUp(systemReady, maxInactivity, now, Prefix(run));
      StepKeepsAwake(After(Init(systemReady, maxInactivity, now), Prefix(run)), Last(run));
    }
  }

  lemma {:induction false} ReadyStays(init: Session, run: seq<Event>, i: nat)
    requires i < |run| && run[i] == SystemReady
    requires After(init, run[..i]).idle.alive && !After(init, run[..i]).faulted
    ensures After(init, run).systemReady
  {
    assert i == |run| - 1 ==> run[..i] == Prefix(run);
    if i < |run| - 1 {
      assert Prefix(run)[..i] == run[..i] && Prefix(run)[i] == run[i];
      ReadyStays(init, Prefix(run), i);
    }
  }

  /** So a request that came while the credentials system was not ready has a start event
      posted once the ready signal has come, or another request is active. */
  lemma ReadySignalWakes(systemReady: bool, maxInactivity: int, now: int, run: seq<Event>, i: nat)
    requires NeverDialogWhileIdle(Init(systemReady, maxInactivity, now), run) && i < |run| && run[i] == SystemReady
    requires var s := After(Init(systemReady, maxInactivity, now), run[..i]); s.idle.alive && !s.faulted
    ensures var s := After(Init(systemReady, maxInactivity, now), run);
            s.requests != [] ==> s.active || s.posted > 0
  {
    NoLostWakeUp(systemReady, maxInactivity, now, run);
    ReadyStays(Init(systemReady, maxInactivity, now), run, i);
  }

  // Faults and the list of disposable objects.

  /** A dialog has finished, and before its slot runs the plugin answers the request. */
  predicate OvertakesDialog(s: Session, e: Event) {
    s.idle.alive && e.PluginAnswer? && s.active && s.watcher == Answered
  }

  predicate Breaks(s: Session, e: Event) {
    DialogWhileIdle(s, e) || OvertakesDialog(s, e)
  }

  predicate NeverBreaks(init: Session, run: seq<Event>) {
    run == [] || (NeverBreaks(init, Prefix(run)) && !Breaks(After(init, Prefix(run)), Last(run)))
  }

  /** Awake, without a fault, and listed as disposable exactly while alive. */
  predicate Healthy(s: Session) {
    Awake(s) && !s.faulted && (s.idle.alive <==> s.idle.listed) && (s.watcher == Answered ==> s.active)
  }

  /** A step keeps the session healthy exactly when it does not break it. */
  lemma StepKeepsHealth(s: Session, e: Event)
    requires Healthy(s)
    ensures Healthy(Step(s, e)) <==> !Breaks(s, e)
  {
  }

  /** On every run that never breaks, the UI slot never meets an empty queue, and the
      session is taken off the list of disposable objects exactly when it is destroyed. */
  lemma {:induction false} NoFault(systemReady: bool, maxInactivity: int, now: int, run: seq<Event>)
    requires NeverBreaks(Init(systemReady, maxInactivity, now), run)
    ensures Healthy(After(Init(systemReady, maxInactivity, now), run))
  {
    if run != [] {
      NoFault(systemReady, maxInactivity, now, Prefix(run));
      StepKeepsHealth(After(Init(systemReady, maxInactivity, now), Prefix(run)), Last(run));
    }
  }

  // The collector.

  /** The collector drops waiting requests with a session, unanswered. */
  predicate DropsWaiting(s: Session) {
    s.requests != [] && s.idle.alive && !Step(s, DestroyUnused).idle.alive
  }

  predicate UnusedTooLong(idle: Idle) {
    idle.alive && idle.autoDestruct && idle.now - idle.lastActivity > idle.maxInactivity
  }

  /** It does so exactly when the session is auto-destructible and has not been used for
      too long while requests wait, unless it is lost to the list, faulted or left with
      the watcher of an overtaken dialog; and it can be so only when the credentials
      system is not ready or a start event has not been dispatched. */
  lemma CollectorDropsWaitingExactlyWhen(s: Session)
    requires Awake(s)
    ensures DropsWaiting(s) <==>
            && s.requests != [] && UnusedTooLong(s.idle)
            && s.idle.listed && !s.faulted && s.watcher != Answered
    ensures Healthy(s) ==> (DropsWaiting(s) <==> s.requests != [] && UnusedTooLong(s.idle))
    ensures DropsWaiting(s) ==> !s.active && (!s.systemReady || s.posted > 0)
  {
  }

  /** So, over every run without a dialog request while idle, no ready request is dropped. */
  lemma DestructionDropsNoReadyRequest(systemReady: bool, maxInactivity: int, now: int, run: seq<Event>)
    requires NeverDialogWhileIdle(Init(systemReady, maxInactivity, now), run)
    ensures var s := After(Init(systemReady, maxInactivity, now), run);
            DropsWaiting(s) ==> !s.active && (!s.systemReady || s.posted > 0)
  {
    NoLostWakeUp(systemReady, maxInactivity, now, run);
  }

  /** A request that arrives while the credentials system is not ready is dropped so. */
  lemma UnreadyRequestIsDropped()
    ensures var init := Init(false, 300, 0);
            && DropsWaiting(After(init, [Process("k"), Tick(301)]))
            && After(init, [Process("k"), Tick(301), DestroyUnused]).requests == [Request(0, "k")]
            && After(init, [Process("k"), Tick(301), DestroyUnused]).log.replies == []
  {
    var init := Init(false, 300, 0);
    OneMore(init, [], Process("k"));
    OneMore(init, [Process("k")], Tick(301));
    OneMore(init, [Process("k"), Tick(301)], DestroyUnused);
    assert [] + [Process("k")] == [Process("k")] && [Process("k")] + [Tick(301)] == [Process("k"), Tick(301)];
    assert [Process("k"), Tick(301)] + [DestroyUnused] == [Process("k"), Tick(301), DestroyUnused];
    assert After(init, [Process("k")]) == AfterProcess(init, "k");
  }

  /** The start events of a session, delivered one after the other. */
  function StartEvents(n: nat): seq<Event> {
    if n == 0 then [] else StartEvents(n - 1) + [StartNewRequest(true)]
  }

  lemma {:induction false} WaitingDialogSwallowsStarts(s: Session, n: nat)
    requires s.idle.alive && !s.faulted && !s.active && s.requests != [] && s.watcher == Waiting && n <= s.posted
    ensures var t := After(s, StartEvents(n));
            && t.requests == s.requests && t.systemReady == s.systemReady && t.posted == s.posted - n
            && t.idle.alive && !t.faulted && !t.active && t.watcher == Waiting
  {
    if n > 0 {
      WaitingDialogSwallowsStarts(s, n - 1);
      OneMore(s, StartEvents(n - 1), StartNewRequest(true));
    }
  }

  ghost predicate RunsUndisturbed(s: Session) {
    s.idle.alive && !s.faulted && s.active && s.requests != [] && s.watcher != Waiting
  }

  ghost predicate ReadyToStart(s: Session) {
    Awake(s) && s.idle.alive && !s.faulted && !s.active && s.requests != []
  }

  lemma StartRuns(s: Session)
    requires s.posted > 0 && (RunsUndisturbed(s) || ReadyToStart(s))
    ensures var t := Step(s, StartNewRequest(true)); RunsUndisturbed(t) && t.posted == s.posted - 1
  {
  }

  lemma {:induction false} StartsRun(s: Session, n: nat)
    requires ReadyToStart(s) && 0 < n <= s.posted
    ensures var t := After(s, StartEvents(n)); RunsUndisturbed(t) && t.posted == s.posted - n
  {
    OneMore(s, StartEvents(n - 1), StartNewRequest(true));
    if n > 1 { StartsRun(s, n - 1); }
    var t := After(s, StartEvents(n - 1));
    assert t.posted == s.posted - (n - 1) && (RunsUndisturbed(t) || ReadyToStart(t));
    StartRuns(t);
  }

  /** What a dialog request does to an idle session with a request waiting and the
      credentials system ready: unless an earlier cancellation still suppresses it, the
      dialog swallows the start events, and the request is stalled, */
  lemma IdleDialogStalls(s: Session)
    requires ReadyToStart(s) && s.systemReady
    ensures var held := After(Step(s, PluginUiRequest), StartEvents(s.posted));
            Stalled(Step(Step(held, UiReplies), QueryUi)) <==> DialogWhileIdle(s, PluginUiRequest)
  {
    var dialog := Step(s, PluginUiRequest);
    if DialogWhileIdle(s, PluginUiRequest) {
      WaitingDialogSwallowsStarts(dialog, s.posted);
    } else {
      StartsRun(dialog, s.posted);
    }
  }

  /** until another start event is posted, by a new request, the ready signal or a stray
      answer, or the client cancels it and no other waits. */
  lemma StallEndsExactlyWhen(s: Session, e: Event)
    requires Stalled(s) && s.idle.alive && !s.faulted
    ensures !Stalled(Step(s, e)) <==>
            || e.Process? || e.SystemReady? || e.PluginAnswer?
            || (e.Cancel? && |s.requests| == 1 && s.requests[0].cancelKey == e.key)
  {
  }

  /** The slot of a finished dialog faults exactly when the queue is empty, */
  lemma UiSlotFaultsExactlyWhen(s: Session)
    requires s.idle.alive && !s.faulted && s.watcher == Answered
    ensures Step(s, QueryUi).faulted <==> s.requests == []
  {
  }

  /** and a result that overtakes it brings that about exactly for the last request; */
  lemma OvertakenUiSlotFaults(s: Session, isError: bool)
    requires s.idle.alive && !s.faulted && s.active && s.requests != [] && s.watcher == Answered
    ensures Step(Step(s, PluginAnswer(isError)), QueryUi).faulted <==> |s.requests| == 1
  {
    UiSlotFaultsExactlyWhen(Step(s, PluginAnswer(isError)));
  }

  /** while a cancellation that overtakes it does no harm. */
  lemma OvertakingCancelIsHarmless(s: Session, key: string)
    requires Healthy(s) && s.idle.alive && s.watcher == Answered
    ensures var t := Step(Step(s, Cancel(key)), QueryUi); !t.faulted && Healthy(t)
  {
    StepKeepsHealth(s, Cancel(key));
    StepKeepsHealth(Step(s, Cancel(key)), QueryUi);
  }
}
