/** How often each request is answered: an exact account over every run, with no
    assumption on when the plugin speaks. */
module SessionAnswers {
  import opened SessionQueue
  import opened Lists
  import opened SessionOrder

  /** The number of D-Bus replies sent for one request. */
  function Answers(replies: seq<Reply>, id: nat): nat {
    if replies == [] then 0
    else Answers(Prefix(replies), id) + (if Last(replies).id == id then 1 else 0)
  }

  lemma AnswersAppend(replies: seq<Reply>, reply: Reply, id: nat)
    ensures Answers(replies + [reply], id) == Answers(replies, id) + (if reply.id == id then 1 else 0)
  {
    assert Prefix(replies + [reply]) == replies;
  }

  predicate IsRunning(s: Session, id: nat) {
    s.active && s.requests != [] && s.requests[0].id == id
  }

  /** The client has cancelled its running request, and now either cancels it
      again or a start event is dispatched, which clears the cancelled flag. */
  predicate Spoils(s: Session, e: Event, id: nat) {
    && s.idle.alive && !s.faulted
    && IsRunning(s, id) && Answers(s.log.replies, id) > 0
    && match e
       case Cancel(key) => s.requests[0].cancelKey == key
       case StartNewRequest(_) => s.posted > 0
       case _ => false
  }

  predicate Spoiled(init: Session, run: seq<Event>, id: nat) {
    run != [] &&
    (Spoiled(init, Prefix(run), id) || Spoils(After(init, Prefix(run)), Last(run), id))
  }

  /** The plugin speaks although nothing is running and the flag of an earlier
      cancellation is still set: the waiting head is thrown away silently. */
  predicate Drops(s: Session, e: Event, id: nat) {
    && s.idle.alive && !s.faulted
    && e.PluginAnswer? && !s.active && s.canceled
    && s.requests != [] && s.requests[0].id == id
  }

  predicate Dropped(init: Session, run: seq<Event>, id: nat) {
    run != [] &&
    (Dropped(init, Prefix(run), id) || Drops(After(init, Prefix(run)), Last(run), id))
  }

  datatype Phase = NotArrived | InQueue | Running(canceled: bool) | Gone

  function PhaseOf(s: Session, id: nat): Phase {
    if IsRunning(s, id) then Running(s.canceled)
    else if id in Ids(s.requests) then InQueue
    else if id in s.log.left then Gone
    else NotArrived
  }

  /** The history of one request, as far as replies go. */
  datatype View = View(answers: nat, phase: Phase, spoiled: bool, dropped: bool)

  function ViewOf(s: Session, id: nat, spoiled: bool, dropped: bool): View {
    View(Answers(s.log.replies, id), PhaseOf(s, id), spoiled, dropped)
  }

  /** Everything that one step can do to one request. */
  predicate Moves(v: View, w: View) {
    || w == v
    || (v.phase == NotArrived && w == v.(phase := InQueue))
    || (v.phase == InQueue && w == v.(phase := Running(false)))
    || (v.phase == InQueue && w == v.(phase := Gone, answers := v.answers + 1))
    || (v.phase == InQueue && w == v.(phase := Gone, dropped := true))
    || (v.phase.Running?
        && w == v.(phase := Running(true), answers := v.answers + 1, spoiled := v.spoiled || v.answers > 0))
    || (v.phase.Running? && w == v.(phase := Running(false), spoiled := v.spoiled || v.answers > 0))
    || (v.phase.Running? && w == v.(phase := Gone, answers := v.answers + if v.phase.canceled then 0 else 1))
  }

  /** What the reply count must be in each phase of a request's life. */
  predicate Accounted(v: View) {
    match v.phase
    case NotArrived => v.answers == 0 && !v.spoiled && !v.dropped
    case InQueue => v.answers == 0 && !v.spoiled && !v.dropped
    case Running(canceled) =>
      && !v.dropped
      && (if v.spoiled then v.answers >= (if canceled then 2 else 1) else v.answers == (if canceled then 1 else 0))
    case Gone =>
      && (v.dropped <==> v.answers == 0)
      && (v.answers == 1 <==> !v.spoiled && !v.dropped)
  }

  lemma MovesKeepAccount(v: View, w: View)
    requires Accounted(v) && Moves(v, w)
    ensures Accounted(w)
  {
  }

  lemma HeadIsAlone(s: Session)
    requires s.requests != [] && Increasing(Ids(s.requests))
    ensures Ids(s.requests)[0] == s.requests[0].id
    ensures s.requests[0].id !in Ids(s.requests[1..])
    ensures forall id :: id in Ids(s.requests) <==> id == s.requests[0].id || id in Ids(s.requests[1..])
  {
    IdsOfTail(s.requests);
    var queue := Ids(s.requests);
    assert queue == [queue[0]] + queue[1..];
  }

  lemma DonePhase(s: Session, id: nat)
    requires s.requests != [] && Increasing(Ids(s.requests))
    ensures PhaseOf(RequestDone(s), id) == if id == s.requests[0].id then Gone else PhaseOf(s, id)
  {
    HeadIsAlone(s);
  }

  lemma RemovalPhase(s: Session, t: Session, i: nat, id: nat)
    requires i < |s.requests| && !(i == 0 && s.active) && Increasing(Ids(s.requests))
    requires t.requests == s.requests[..i] + s.requests[i + 1..] && t.log.left == s.log.left + [s.requests[i].id]
    requires t.active == s.active && t.canceled == s.canceled
    ensures PhaseOf(t, id) == if id == s.requests[i].id then Gone else PhaseOf(s, id)
    ensures PhaseOf(s, s.requests[i].id) == InQueue
  {
    var queue := Ids(s.requests);
    var rest := queue[..i] + queue[i + 1..];
    IdsWithout(s.requests, i);
    assert queue == queue[..i] + [queue[i]] + queue[i + 1..];
    assert id in queue <==> id in rest || id == queue[i];
    assert queue[i] !in rest;
    assert s.active ==> t.requests[0] == s.requests[0];
    if i > 0 { assert queue[0] < queue[i]; }
  }

  /** The active head stays, flagged. */
  lemma CancelledPhase(s: Session, key: string, id: nat)
    requires s.requests != [] && s.active && FirstWithKey(s.requests, key) == 0 && Increasing(Ids(s.requests))
    ensures PhaseOf(AfterCancel(s, key), id) == if id == s.requests[0].id then Running(true) else PhaseOf(s, id)
  {
    HeadIsAlone(s);
  }

  lemma CancelMoves(s: Session, key: string, id: nat, spoiled: bool, dropped: bool)
    requires s.idle.alive && !s.faulted && Increasing(Ids(s.requests))
    ensures Moves(ViewOf(s, id, spoiled, dropped),
                  ViewOf(AfterCancel(s, key), id, spoiled || Spoils(s, Cancel(key), id), dropped))
  {
    var i := FirstWithKey(s.requests, key);
    var t := AfterCancel(s, key);
    if i < |s.requests| {
      AnswersAppend(s.log.replies, Reply(s.requests[i].id, CanceledError), id);
      if i == 0 && s.active { CancelledPhase(s, key, id); } else { RemovalPhase(s, t, i, id); }
    }
  }

  lemma StartMoves(s: Session, ok: bool, id: nat, spoiled: bool, dropped: bool)
    requires s.idle.alive && !s.faulted && s.posted > 0 && Increasing(Ids(s.requests))
    ensures Moves(ViewOf(s, id, spoiled, dropped),
                  ViewOf(AfterStartNewRequest(s, ok), id, spoiled || Spoils(s, StartNewRequest(ok), id), dropped))
  {
    var t := AfterStartNewRequest(s, ok);
    if s.requests != [] && !s.active && s.watcher != Waiting {
      AnswersAppend(s.log.replies, Reply(s.requests[0].id, RuntimeError), id);
      StartedPhase(s, ok, id);
    } else {
      assert PhaseOf(t, id) == if IsRunning(s, id) then Running(false) else PhaseOf(s, id);
    }
  }

  /** The head starts, or leaves at once. */
  lemma StartedPhase(s: Session, ok: bool, id: nat)
    requires s.posted > 0 && s.requests != [] && !s.active && s.watcher != Waiting && Increasing(Ids(s.requests))
    ensures PhaseOf(AfterStartNewRequest(s, ok), id)
         == if id != s.requests[0].id then PhaseOf(s, id) else if ok then Running(false) else Gone
    ensures PhaseOf(s, s.requests[0].id) == InQueue
  {
    HeadIsAlone(s);
    DonePhase(s, id);
    if !ok { assert PhaseOf(AfterStartNewRequest(s, ok), id) == PhaseOf(RequestDone(s), id); }
  }

  /** The head leaves. */
  lemma AnsweredPhase(s: Session, isError: bool, id: nat)
    requires s.idle.alive && !s.faulted && s.requests != [] && Increasing(Ids(s.requests))
    ensures PhaseOf(Step(s, PluginAnswer(isError)), id) == if id == s.requests[0].id then Gone else PhaseOf(s, id)
    ensures PhaseOf(s, s.requests[0].id) == if s.active then Running(s.canceled) else InQueue
  {
    HeadIsAlone(s);
    DonePhase(s, id);
    assert PhaseOf(Step(s, PluginAnswer(isError)), id) == PhaseOf(RequestDone(s), id);
  }

  lemma PluginAnswerMoves(s: Session, isError: bool, id: nat, spoiled: bool, dropped: bool)
    requires s.idle.alive && !s.faulted && Increasing(Ids(s.requests))
    ensures Moves(ViewOf(s, id, spoiled, dropped),
                  ViewOf(Step(s, PluginAnswer(isError)), id, spoiled, dropped || Drops(s, PluginAnswer(isError), id)))
  {
    if s.requests != [] {
      AnsweredPhase(s, isError, id);
      AnswersAppend(s.log.replies, Reply(s.requests[0].id, if isError then PluginError else PluginResult), id);
    }
  }

  lemma ProcessMoves(s: Session, key: string, id: nat, spoiled: bool, dropped: bool)
    requires Ordered(s)
    ensures Moves(ViewOf(s, id, spoiled, dropped), ViewOf(AfterProcess(s, key), id, spoiled, dropped))
  {
    var t := AfterProcess(s, key);
    assert Ids(t.requests) == Ids(s.requests) + [s.log.arrived];
    assert s.log.arrived !in s.log.left && s.log.arrived !in Ids(s.requests);
    assert PhaseOf(t, id) == if id == s.log.arrived then InQueue else PhaseOf(s, id);
  }

  lemma QuietMoves(s: Session, e: Event, id: nat, spoiled: bool, dropped: bool)
    requires !s.idle.alive || s.faulted || (e.StartNewRequest? && s.posted == 0)
          || e.SystemReady? || e.PluginUiRequest? || e.UiReplies? || e.QueryUi? || e.DestroyUnused? || e.Tick?
    ensures ViewOf(Step(s, e), id, spoiled || Spoils(s, e, id), dropped || Drops(s, e, id))
         == ViewOf(s, id, spoiled, dropped)
  {
    var t := Step(s, e);
    assert t.requests == s.requests && t.log == s.log && t.active == s.active && t.canceled == s.canceled;
  }

  lemma StepMoves(s: Session, e: Event, id: nat, spoiled: bool, dropped: bool)
    requires Ordered(s)
    ensures Moves(ViewOf(s, id, spoiled, dropped),
                  ViewOf(Step(s, e), id, spoiled || Spoils(s, e, id), dropped || Drops(s, e, id)))
  {
    if !s.idle.alive || s.faulted || (e.StartNewRequest? && s.posted == 0) {
      QuietMoves(s, e, id, spoiled, dropped);
    } else {
      match e {
        case Process(key) => ProcessMoves(s, key, id, spoiled, dropped);
        case Cancel(key) => CancelMoves(s, key, id, spoiled, dropped);
        case StartNewRequest(ok) => StartMoves(s, ok, id, spoiled, dropped);
        case PluginAnswer(isError) => PluginAnswerMoves(s, isError, id, spoiled, dropped);
        case _ => QuietMoves(s, e, id, spoiled, dropped);
      }
    }
  }

  lemma {:induction false} RunAccounts(systemReady: bool, maxInactivity: int, now: int, run: seq<Event>, id: nat)
    ensures var init := Init(systemReady, maxInactivity, now);
            Accounted(ViewOf(After(init, run), id, Spoiled(init, run, id), Dropped(init, run, id)))
  {
    if run != [] {
      var init := Init(systemReady, maxInactivity, now);
      var prefix := Prefix(run);
      var s := After(init, prefix);
      var spoiled, dropped := Spoiled(init, prefix, id), Dropped(init, prefix, id);
      RunAccounts(systemReady, maxInactivity, now, prefix, id);
      FifoAndConservation(systemReady, maxInactivity, now, prefix);
      StepMoves(s, Last(run), id, spoiled, dropped);
      MovesKeepAccount(ViewOf(s, id, spoiled, dropped),
                       ViewOf(After(init, run), id, Spoiled(init, run, id), Dropped(init, run, id)));
    }
  }

  /** Over every run, a request that left the queue was answered at least once
      unless the plugin spoke out of turn and dropped it, and it was answered
      exactly once if and only if it was neither dropped nor, after its
      cancellation while running, cancelled again or overtaken by a start event. */
  lemma AnsweredExactlyOnce(systemReady: bool, maxInactivity: int, now: int, run: seq<Event>, id: nat)
    requires id in After(Init(systemReady, maxInactivity, now), run).log.left
    ensures var init := Init(systemReady, maxInactivity, now);
            var n := Answers(After(init, run).log.replies, id);
            && (n >= 1 <==> !Dropped(init, run, id))
            && (n == 1 <==> !Dropped(init, run, id) && !Spoiled(init, run, id))
  {
    var init := Init(systemReady, maxInactivity, now);
    FifoAndConservation(systemReady, maxInactivity, now, run);
    RunAccounts(systemReady, maxInactivity, now, run, id);
    var s := After(init, run);
    assert PhaseOf(s, id) == Gone by {
      if s.active { assert s.requests[0].id == Ids(s.requests)[0]; }
    }
  }

  /** No request is answered while it waits in the queue. */
  lemma UnansweredWhileWaiting(systemReady: bool, maxInactivity: int, now: int, run: seq<Event>, id: nat)
    requires PhaseOf(After(Init(systemReady, maxInactivity, now), run), id) == InQueue
    ensures Answers(After(Init(systemReady, maxInactivity, now), run).log.replies, id) == 0
  {
    RunAccounts(systemReady, maxInactivity, now, run, id);
  }

  /** Two requests under one cancel key. The first is cancelled twice while it
      runs, so it is answered twice; then the plugin speaks out of turn and the
      second leaves with no answer. */
  lemma DoubleAnswerAndSilentDrop()
    ensures var s := After(Init(true, 300, 0),
                           [Process("k"), Process("k"), StartNewRequest(true), Cancel("k"), Cancel("k"),
                            PluginAnswer(true), PluginAnswer(true)]);
            s.log.left == [0, 1] && Answers(s.log.replies, 0) == 2 && Answers(s.log.replies, 1) == 0
  {
    var init, twice := Init(true, 300, 0), StartedThenCancelledTwice();
    var first := twice + [PluginAnswer(true)];
    CancelledTwice();
    OneMore(init, twice, PluginAnswer(true));
    OneMore(init, first, PluginAnswer(true));
    TwoStrayAnswers(After(init, twice));
    assert first + [PluginAnswer(true)] ==
      [Process("k"), Process("k"), StartNewRequest(true), Cancel("k"), Cancel("k"), PluginAnswer(true),
          PluginAnswer(true)];
    TwoAnswers(0);
    TwoAnswers(1);
  }

  lemma TwoStrayAnswers(s: Session)
    requires s.requests == [Request(0, "k"), Request(1, "k")] && s.active && s.canceled
    requires s.log.left == [] && s.idle.alive && !s.faulted
    ensures var t := Step(Step(s, PluginAnswer(true)), PluginAnswer(true));
            t.log.left == [0, 1] && t.log.replies == s.log.replies
  {
    var t := Step(s, PluginAnswer(true));
    assert t.requests == [Request(1, "k")] && t.log.left == [0] && t.canceled;
  }

  function StartedThenCancelledTwice(): seq<Event> {
    [Process("k"), Process("k"), StartNewRequest(true), Cancel("k"), Cancel("k")]
  }

  lemma TwoAnswers(id: nat)
    ensures Answers([Reply(0, CanceledError), Reply(0, CanceledError)], id) == if id == 0 then 2 else 0
  {
    AnswersAppend([Reply(0, CanceledError)], Reply(0, CanceledError), id);
    AnswersAppend([], Reply(0, CanceledError), id);
    assert [] + [Reply(0, CanceledError)] == [Reply(0, CanceledError)];
    assert [Reply(0, CanceledError)] + [Reply(0, CanceledError)] == [Reply(0, CanceledError), Reply(0, CanceledError)];
  }

  lemma CancelledTwice()
    ensures var s := After(Init(true, 300, 0), StartedThenCancelledTwice());
            && s.requests == [Request(0, "k"), Request(1, "k")] && s.active && s.canceled
            && s.log.replies == [Reply(0, CanceledError), Reply(0, CanceledError)]
            && s.log.left == [] && s.idle.alive && !s.faulted
  {
    var init, started := Init(true, 300, 0), [Process("k"), Process("k"), StartNewRequest(true)];
    FirstThreeSteps();
    OneMore(init, started, Cancel("k"));
    OneMore(init, started + [Cancel("k")], Cancel("k"));
    assert FirstWithKey([Request(0, "k"), Request(1, "k")], "k") == 0;
    assert started + [Cancel("k")] + [Cancel("k")] == StartedThenCancelledTwice();
  }

  lemma FirstThreeSteps()
    ensures var s := After(Init(true, 300, 0), [Process("k"), Process("k"), StartNewRequest(true)]);
            && s.requests == [Request(0, "k"), Request(1, "k")] && s.active && !s.canceled && s.log.replies == []
            && s.log.left == [] && s.idle.alive && !s.faulted
  {
    var init := Init(true, 300, 0);
    OneMore(init, [], Process("k"));
    OneMore(init, [Process("k")], Process("k"));
    OneMore(init, [Process("k"), Process("k")], StartNewRequest(true));
    assert [] + [Process("k")] == [Process("k")] && [Process("k")] + [Process("k")] == [Process("k"), Process("k")];
    assert [Process("k"), Process("k")] + [StartNewRequest(true)]
        == [Process("k"), Process("k"), StartNewRequest(true)];
    assert After(init, [Process("k"), Process("k")]).requests == [Request(0, "k"), Request(1, "k")];
  }
}
