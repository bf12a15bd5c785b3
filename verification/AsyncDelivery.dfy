/** What becomes of a call: when it is sent, when it fails, and what it waits for. */
module AsyncDelivery {
  import opened Lists
  import opened AsyncProxy

  /** What the events say about connection and path, and the status that follows. */
  function ConnectionAfter(p: Proxy, e: Event): Connection {
    match e
    case SetConnection(connected) => if connected then Connected else Broken
    case SetDisconnected => NoConnection
    case _ => p.connection
  }

  predicate PathAfter(p: Proxy, e: Event) {
    match e
    case SetDisconnected => false
    case SetObjectPath(empty) => !empty
    case _ => p.hasPath
  }

  /** Setting the status, before the connection and the interface are looked at again. */
  lemma SetStatusEffect(p: Proxy, status: Status)
    ensures var t := SetStatus(p, status);
            && t == p.(status := status, queue := t.queue, sent := t.sent, finished := t.finished,
                       inFlight := t.inFlight, watched := t.watched, orphaned := t.orphaned)
            && t.queue == (if status == Incomplete then p.queue else [])
            && t.sent == (if status == Ready then p.sent + p.queue else p.sent)
            && t.finished == (if status == Invalid then p.finished + p.queue else p.finished)
            && t.inFlight == (if status == Ready then p.inFlight + Elements(p.queue) else p.inFlight)
            && t.watched == (if status == Ready then p.watched + Elements(p.queue) else p.watched)
            && t.orphaned == (if status == Ready then p.orphaned - Elements(p.queue) else p.orphaned)
  {
    var q := p.(status := status);
    DoAllEffect(q, q.queue);
    FailAllEffect(q, q.queue);
  }

  /** The status that connection and path call for. */
  function StatusFor(connection: Connection, hasPath: bool): Status {
    if connection == NoConnection || !hasPath then Incomplete else if connection == Connected then Ready else Invalid
  }

  lemma UpdateEffect(p: Proxy)
    ensures var t, status := Update(p), StatusFor(p.connection, p.hasPath);
            var lost := if p.hasInterface then p.orphaned + p.inFlight else p.orphaned;
            t == SetStatus(p.(hasInterface := status == Ready, orphaned := lost), status)
  {
  }

  function Changed(p: Proxy, e: Event): Proxy {
    p.(connection := ConnectionAfter(p, e), hasPath := PathAfter(p, e))
  }

  /** A call is sent as soon as there is a connection and a path; without either it waits;
      a connection that could not be made fails it. */
  lemma StatusExactly(p: Proxy, e: Event)
    ensures var t := Step(p, e);
            && t.connection == ConnectionAfter(p, e) && t.hasPath == PathAfter(p, e)
            && t.status == if e.SetError? then Invalid
                           else if ChangesStatus(e) then StatusFor(t.connection, t.hasPath) else p.status
  {
    if e.SetError? { SetStatusEffect(p, Invalid); } else if ChangesStatus(e) { ChangedStatus(p, e); }
  }

  lemma ChangedStatus(p: Proxy, e: Event)
    requires ChangesStatus(e) && !e.SetError?
    ensures var t, q := Step(p, e), Changed(p, e);
            t.connection == q.connection && t.hasPath == q.hasPath && t.status == StatusFor(q.connection, q.hasPath)
  {
    var q := Changed(p, e);
    var lost := if q.hasInterface then q.orphaned + q.inFlight else q.orphaned;
    var status := StatusFor(q.connection, q.hasPath);
    UpdateEffect(q);
    SetStatusEffect(q.(hasInterface := status == Ready, orphaned := lost), status);
  }

  /** Every event that sets the status: a ready proxy sends all calls that waited, in order,
      and each is in flight and watched; an invalid one fails them all; an incomplete one
      leaves them waiting. The interface of all other calls in flight is gone, except
      after an error. */
  lemma ChangeEffect(p: Proxy, e: Event)
    requires ChangesStatus(e)
    ensures var t := Step(p, e);
            && t.queue == (if t.status == Incomplete then p.queue else [])
            && t.sent == (if t.status == Ready then p.sent + p.queue else p.sent)
            && t.finished == (if t.status == Invalid then p.finished + p.queue else p.finished)
            && t.inFlight == (if t.status == Ready then p.inFlight + Elements(p.queue) else p.inFlight)
            && t.watched == (if t.status == Ready then p.watched + Elements(p.queue) else p.watched)
            && t.posted == p.posted && t.created == p.created
    ensures var lost := if p.hasInterface && !e.SetError? then p.orphaned + p.inFlight else p.orphaned;
            Step(p, e).orphaned == if Step(p, e).status == Ready then lost - Elements(p.queue) else lost
  {
    if e.SetError? {
      SetStatusEffect(p, Invalid);
    } else {
      var q := Changed(p, e);
      var lost := if p.hasInterface then p.orphaned + p.inFlight else p.orphaned;
      var status := StatusFor(q.connection, q.hasPath);
      UpdateEffect(q);
      SetStatusEffect(q.(hasInterface := status == Ready, orphaned := lost), status);
    }
  }

  /** Nothing is sent but by a proxy that is ready after the step: the calls that waited,
      or the one that is made then. */
  lemma SentExactly(p: Proxy, e: Event)
    ensures var t := Step(p, e);
            t.sent == if t.status == Ready && ChangesStatus(e) then p.sent + p.queue
                    else if t.status == Ready && e.QueueCall? then p.sent + [p.created] else p.sent
  {
    if ChangesStatus(e) { ChangeEffect(p, e); }
  }

  /** Does this event finish the call? A cancellation if it has no watcher yet, a posted
      failure, its reply unless the loss of the interface explains that, and a proxy that
      becomes invalid while it waits. */
  predicate Finishes(p: Proxy, e: Event, id: nat) {
    match e
    case Cancel(c) => c == id && id < p.created && id !in p.watched
    case FailPosted => p.posted != [] && p.posted[0] == id
    case Reply(c, isError, fromLoss) => c == id && id in p.inFlight && !(isError && fromLoss && id in p.orphaned)
    case QueueCall => false
    case _ => id in p.queue && Step(p, e).status == Invalid
  }

  lemma CountOne(list: seq<nat>, c: nat, id: nat)
    ensures multiset(list + [c])[id] == multiset(list)[id] + if c == id then 1 else 0
  {
    assert multiset(list + [c]) == multiset(list) + multiset{c};
  }

  /** A call finishes exactly when such an event comes, once for each. */
  lemma FinishesExactly(p: Proxy, e: Event, id: nat)
    requires AsyncProxy.Sound(p)
    ensures multiset(Step(p, e).finished)[id] == multiset(p.finished)[id] + if Finishes(p, e, id) then 1 else 0
  {
    match e {
      case Cancel(c) => CountOne(p.finished, c, id);
      case FailPosted => if p.posted != [] { CountOne(p.finished, p.posted[0], id); }
      case Reply(_, _, _) => ReplyFinishes(p, e, id);
      case QueueCall =>
      case _ => ChangeFinishes(p, e, id);
    }
  }

  lemma ReplyFinishes(p: Proxy, e: Event, id: nat)
    requires e.Reply?
    ensures multiset(Step(p, e).finished)[id] == multiset(p.finished)[id] + if Finishes(p, e, id) then 1 else 0
  {
    CountOne(p.finished, e.id, id);
  }

  lemma ChangeFinishes(p: Proxy, e: Event, id: nat)
    requires AsyncProxy.Sound(p) && ChangesStatus(e)
    ensures multiset(Step(p, e).finished)[id] == multiset(p.finished)[id] + if Finishes(p, e, id) then 1 else 0
  {
    ChangeEffect(p, e);
    assert multiset(p.finished + p.queue) == multiset(p.finished) + multiset(p.queue);
    assert Places(p, id) <= 1;
  }

  // Over runs.

  /** Every call that is anywhere has been made. */
  ghost predicate Known(p: Proxy) {
    && (forall c :: c in p.queue ==> c < p.created)
    && (forall c :: c in p.posted ==> c < p.created)
    && (forall c :: c in p.inFlight ==> c < p.created)
    && (forall c :: c in p.watched ==> c < p.created)
  }

  lemma FinishKnows(p: Proxy, id: nat)
    requires Known(p)
    ensures Known(Finish(p, id))
  {
    RemoveOneKeeps(p.queue, id);
  }

  lemma StepKnows(p: Proxy, e: Event)
    requires Known(p)
    ensures Known(Step(p, e))
  {
    match e {
      case Cancel(id) => FinishKnows(p, id);
      case FailPosted =>
        if p.posted != [] {
          var q := p.(posted := p.posted[1..]);
          assert forall c :: c in q.posted ==> c in p.posted;
          FinishKnows(q, p.posted[0]);
        }
      case Reply(id, _, _) => FinishKnows(p.(inFlight := p.inFlight - {id}), id);
      case QueueCall =>
      case _ => ChangeKnows(p, e);
    }
  }

  lemma ChangeKnows(p: Proxy, e: Event)
    requires Known(p) && ChangesStatus(e)
    ensures Known(Step(p, e))
  {
    ChangeEffect(p, e);
    var t := Step(p, e);
    assert forall c :: c in t.queue ==> c in p.queue;
    assert forall c :: c in t.inFlight ==> c in p.inFlight || c in p.queue;
    assert forall c :: c in t.watched ==> c in p.watched || c in p.queue;
  }

  /** The call waits in the queue and is nowhere else. */
  predicate Waits(p: Proxy, id: nat) {
    id in p.queue && id !in p.posted && id !in p.inFlight && id < p.created
  }

  lemma StillWaits(p: Proxy, e: Event, id: nat)
    requires Waits(p, id) && e != Cancel(id) && p.status == Incomplete && Step(p, e).status == Incomplete
    ensures Waits(Step(p, e), id)
  {
    match e {
      case Cancel(c) => OthersStayQueued(p.queue, c, id);
      case FailPosted => if p.posted != [] { OthersStayQueued(p.queue, p.posted[0], id); }
      case Reply(c, _, _) => if c != id { OthersStayQueued(p.queue, c, id); }
      case QueueCall =>
      case _ => ChangeEffect(p, e);
    }
  }

  lemma NewCallWaits(p: Proxy)
    requires Known(p) && p.status == Incomplete
    ensures Waits(Step(p, QueueCall), p.created)
  {
  }

  ghost predicate Follows(states: seq<Proxy>, run: seq<Event>) {
    && |states| == |run| + 1 && Known(states[0])
    && forall k :: 0 <= k < |run| ==> states[k + 1] == Step(states[k], run[k])
  }

  lemma {:induction false} AllKnown(states: seq<Proxy>, run: seq<Event>, n: nat)
    requires Follows(states, run) && n <= |run|
    ensures Known(states[n])
  {
    if n > 0 {
      AllKnown(states, run, n - 1);
      StepKnows(states[n - 1], run[n - 1]);
    }
  }

  /** From the call on the proxy has been incomplete, and the call has not been cancelled. */
  ghost predicate Waiting(states: seq<Proxy>, run: seq<Event>, i: nat, n: nat) {
    && i < n <= |run| && Follows(states, run) && run[i] == QueueCall
    && (forall k :: i <= k <= n ==> states[k].status == Incomplete)
    && (forall k :: i < k < n ==> run[k] != Cancel(states[i].created))
  }

  lemma {:induction false} CallWaits(states: seq<Proxy>, run: seq<Event>, i: nat, n: nat)
    requires Waiting(states, run, i, n)
    ensures Waits(states[n], states[i].created)
    decreases n
  {
    if n == i + 1 {
      AllKnown(states, run, i);
      NewCallWaits(states[i]);
    } else {
      CallWaits(states, run, i, n - 1);
      var k := n - 1;
      assert states[k + 1] == Step(states[k], run[k]);
      StillWaits(states[k], run[k], states[i].created);
    }
  }

  /** Over every run: a call made while the proxy is incomplete, and not cancelled, waits
      until the first step that makes it ready or invalid. The one sends it, and it is
      in flight; the other finishes it without its having been sent. */
  lemma WaitingCallIsDelivered(states: seq<Proxy>, run: seq<Event>, i: nat, n: nat)
    requires Waiting(states, run, i, n) && n < |run| && states[n + 1].status != Incomplete
    ensures var id, p, t := states[i].created, states[n], states[n + 1];
            && id in p.queue && id !in t.queue
            && (t.status == Ready ==> t.sent == p.sent + p.queue && id in t.inFlight && t.finished == p.finished)
            && (t.status == Invalid ==> t.finished == p.finished + p.queue && t.sent == p.sent && id !in t.inFlight)
  {
    CallWaits(states, run, i, n);
    StatusExactly(states[n], run[n]);
    ChangeEffect(states[n], run[n]);
  }

  /** A proxy begins with no calls at all. */
  lemma InitIsKnown()
    ensures Known(Init())
  {
  }
}
