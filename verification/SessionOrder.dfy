/** Order and conservation of requests, over every run and with no assumption on
    the environment. */
module SessionOrder {
  import opened SessionQueue
  import opened Lists

  function Ids(requests: seq<Request>): (ids: seq<nat>)
    ensures |ids| == |requests|
    ensures forall i :: 0 <= i < |ids| ==> ids[i] == requests[i].id
  {
    seq(|requests|, i requires 0 <= i < |requests| => requests[i].id)
  }

  /** Every arrival is queued or gone, never both, and leaves once. */
  ghost predicate Conserved(queue: seq<nat>, left: seq<nat>, arrived: nat) {
    && (forall id: nat :: id < arrived <==> id in queue || id in left)
    && (forall id: nat :: id in queue ==> id !in left)
    && Distinct(left)
  }

  /** The started requests arrived in that order, and before every request that
      still waits; the active request is the head and the last one started. */
  ghost predicate Fifo(queue: seq<nat>, active: bool, started: seq<nat>) {
    && Increasing(queue)
    && Increasing(started)
    && (active ==> queue != [] && started != [] && Last(started) == queue[0])
    && (forall i, j :: 0 <= i < |started| && (if active then 1 else 0) <= j < |queue| ==> started[i] < queue[j])
  }

  ghost predicate OrderedBy(queue: seq<nat>, active: bool, started: seq<nat>, left: seq<nat>, arrived: nat) {
    && Fifo(queue, active, started)
    && Conserved(queue, left, arrived)
    && (forall id :: id in started ==> id < arrived)
  }

  ghost predicate Ordered(s: Session) {
    OrderedBy(Ids(s.requests), s.active, s.log.started, s.log.left, s.log.arrived)
  }

  lemma RemovalConserves(queue: seq<nat>, left: seq<nat>, arrived: nat, i: nat)
    requires i < |queue| && Increasing(queue) && Conserved(queue, left, arrived)
    ensures Conserved(queue[..i] + queue[i + 1..], left + [queue[i]], arrived)
  {
    var rest := queue[..i] + queue[i + 1..];
    assert queue == queue[..i] + [queue[i]] + queue[i + 1..];
    forall id: nat
      ensures id in queue <==> id in rest || id == queue[i]
    {
      assert id in queue <==> id in queue[..i] || id == queue[i] || id in queue[i + 1..];
    }
    assert queue[i] !in rest;
    assert queue[i] in queue;
  }

  lemma RemovalKeepsOrder(queue: seq<nat>, active: bool, started: seq<nat>, left: seq<nat>, arrived: nat, i: nat)
    requires i < |queue| && !(i == 0 && active)
    requires OrderedBy(queue, active, started, left, arrived)
    ensures OrderedBy(queue[..i] + queue[i + 1..], active, started, left + [queue[i]], arrived)
  {
    RemovalConserves(queue, left, arrived, i);
    var rest := queue[..i] + queue[i + 1..];
    assert forall j :: 0 <= j < |rest| ==> rest[j] == if j < i then queue[j] else queue[j + 1];
  }

  lemma HeadLeaves(queue: seq<nat>, active: bool, started: seq<nat>, left: seq<nat>, arrived: nat)
    requires queue != [] && OrderedBy(queue, active, started, left, arrived)
    ensures OrderedBy(queue[1..], false, started, left + [queue[0]], arrived)
  {
    RemovalConserves(queue, left, arrived, 0);
    assert queue[..0] + queue[1..] == queue[1..];
    TailIsFifo(queue, active, started);
  }

  lemma TailIsFifo(queue: seq<nat>, active: bool, started: seq<nat>)
    requires queue != [] && Fifo(queue, active, started)
    ensures Fifo(queue[1..], false, started)
  {
    assert forall i :: 0 <= i < |started| ==> started[i] <= queue[0];
  }

  lemma IdsOfTail(requests: seq<Request>)
    requires requests != []
    ensures Ids(requests[1..]) == Ids(requests)[1..]
  {
  }

  lemma IdsWithout(requests: seq<Request>, i: nat)
    requires i < |requests|
    ensures Ids(requests[..i] + requests[i + 1..]) == Ids(requests)[..i] + Ids(requests)[i + 1..]
  {
  }

  lemma DoneKeepsOrder(s: Session)
    requires s.requests != [] && Ordered(s)
    ensures Ordered(RequestDone(s))
  {
    HeadLeaves(Ids(s.requests), s.active, s.log.started, s.log.left, s.log.arrived);
    IdsOfTail(s.requests);
  }

  lemma CancelKeepsOrder(s: Session, key: string)
    requires Ordered(s)
    ensures Ordered(AfterCancel(s, key))
  {
    var i := FirstWithKey(s.requests, key);
    var t := AfterCancel(s, key);
    if i == |s.requests| || (i == 0 && s.active) {
      assert t.requests == s.requests && t.log.left == s.log.left && t.log.started == s.log.started;
    } else {
      WaitingCancelKeepsOrder(s, t, i);
    }
  }

  lemma WaitingCancelKeepsOrder(s: Session, t: Session, i: nat)
    requires i < |s.requests| && !(i == 0 && s.active) && Ordered(s)
    requires t.requests == s.requests[..i] + s.requests[i + 1..] && t.log.left == s.log.left + [s.requests[i].id]
    requires t.active == s.active && t.log.started == s.log.started && t.log.arrived == s.log.arrived
    ensures Ordered(t)
  {
    RemovalKeepsOrder(Ids(s.requests), s.active, s.log.started, s.log.left, s.log.arrived, i);
    IdsWithout(s.requests, i);
  }

  lemma ProcessKeepsOrder(s: Session, key: string)
    requires Ordered(s)
    ensures Ordered(AfterProcess(s, key))
  {
    var queue := Ids(s.requests);
    assert Ids(AfterProcess(s, key).requests) == queue + [s.log.arrived];
    forall i | 0 <= i < |queue|
      ensures queue[i] < s.log.arrived
    {
      assert queue[i] in queue;
    }
    assert forall i :: 0 <= i < |s.log.started| ==> s.log.started[i] in s.log.started;
    assert forall id: nat :: id in queue + [s.log.arrived] <==> id in queue || id == s.log.arrived;
  }

  lemma HeadStarts(queue: seq<nat>, started: seq<nat>, left: seq<nat>, arrived: nat)
    requires queue != [] && OrderedBy(queue, false, started, left, arrived)
    ensures OrderedBy(queue, true, started + [queue[0]], left, arrived)
  {
    assert queue[0] in queue;
  }

  lemma StartKeepsOrder(s: Session, pluginStarts: bool)
    requires Ordered(s) && s.posted > 0
    ensures Ordered(AfterStartNewRequest(s, pluginStarts))
  {
    if s.requests != [] && !s.active && s.watcher != Waiting {
      var queue := Ids(s.requests);
      HeadStarts(queue, s.log.started, s.log.left, s.log.arrived);
      if !pluginStarts {
        HeadLeaves(queue, true, s.log.started + [queue[0]], s.log.left, s.log.arrived);
        IdsOfTail(s.requests);
      }
    }
  }

  lemma StepKeepsOrder(s: Session, e: Event)
    requires Ordered(s)
    ensures Ordered(Step(s, e))
  {
    match e {
      case Process(key) => ProcessKeepsOrder(s, key);
      case Cancel(key) => CancelKeepsOrder(s, key);
      case StartNewRequest(ok) => if s.posted > 0 { StartKeepsOrder(s, ok); }
      case PluginAnswer(_) => if s.requests != [] { DoneKeepsOrder(s); }
      case _ =>
    }
  }

  /** On every run: the one active request is the queue head; requests start in
      the order they arrived; and arrivals are exactly the requests still queued
      plus the requests that left, each once. */
  lemma {:induction false} FifoAndConservation(systemReady: bool, maxInactivity: int, now: int, run: seq<Event>)
    ensures Ordered(After(Init(systemReady, maxInactivity, now), run))
  {
    if run != [] {
      FifoAndConservation(systemReady, maxInactivity, now, Prefix(run));
      StepKeepsOrder(After(Init(systemReady, maxInactivity, now), Prefix(run)), Last(run));
    }
  }
}
