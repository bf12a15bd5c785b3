/** The client's end of a remote object: calls wait for a connection and an object
    path, are sent, and finish or go back to the queue. Calls are named by the order
    in which they were made. */
module AsyncProxy {
  import opened Lists

  datatype Status = Incomplete | Ready | Invalid

  datatype Connection = NoConnection | Connected | Broken

  /** `watched` are the calls that have a watcher, `orphaned` those whose interface
      was destroyed under them. `sent` and `finished` are logs. */
  datatype Proxy = Proxy(
    status: Status,
    connection: Connection,
    hasPath: bool,
    hasInterface: bool,
    created: nat,
    queue: seq<nat>,
    inFlight: set<nat>,
    posted: seq<nat>,
    watched: set<nat>,
    orphaned: set<nat>,
    sent: seq<nat>,
    finished: seq<nat>)

  function Init(): Proxy {
    Proxy(Incomplete, NoConnection, false, false, 0, [], {}, [], {}, {}, [], [])
  }

  function DoCall(p: Proxy, id: nat): Proxy {
    p.(sent := p.sent + [id], inFlight := p.inFlight + {id}, watched := p.watched + {id}, orphaned := p.orphaned - {id})
  }

  /** A call that has finished leaves the queue. */
  function Finish(p: Proxy, id: nat): Proxy {
    p.(finished := p.finished + [id], queue := RemoveOne(p.queue, id))
  }

  function DoAll(p: Proxy, calls: seq<nat>): Proxy
    decreases |calls|
  {
    if calls == [] then p else DoAll(DoCall(p, calls[0]), calls[1..])
  }

  function FailAll(p: Proxy, calls: seq<nat>): Proxy
    decreases |calls|
  {
    if calls == [] then p else FailAll(Finish(p, calls[0]), calls[1..])
  }

  function SetStatus(p: Proxy, status: Status): Proxy {
    var q := p.(status := status);
    match status
    case Ready => DoAll(q, q.queue).(queue := [])
    case Invalid => FailAll(q, q.queue).(queue := [])
    case Incomplete => q
  }

  /** Deleting the interface tells the calls in flight. */
  function InterfaceDeleted(p: Proxy): Proxy {
    if p.hasInterface then p.(hasInterface := false, orphaned := p.orphaned + p.inFlight) else p
  }

  function Update(p: Proxy): Proxy {
    var q := InterfaceDeleted(p);
    if q.connection == NoConnection || !q.hasPath then SetStatus(q, Incomplete)
    else if q.connection == Broken then SetStatus(q, Invalid)
    else SetStatus(q.(hasInterface := true), Ready)
  }

  function Called(p: Proxy): Proxy {
    var id, q := p.created, p.(created := p.created + 1);
    match p.status
    case Ready => DoCall(q, id)
    case Incomplete => q.(queue := q.queue + [id])
    case Invalid => q.(posted := q.posted + [id])
  }

  /** The reply of a call in flight. Errors that the loss of the interface explains
      send the call back to the queue. */
  function Replied(p: Proxy, id: nat, isError: bool, fromLoss: bool): Proxy {
    var q := p.(inFlight := p.inFlight - {id});
    if id in p.orphaned && isError && fromLoss then q.(queue := q.queue + [id]) else Finish(q, id)
  }

  datatype Event =
    | QueueCall
    | Cancel(id: nat)
    | SetConnection(connected: bool)
    | SetDisconnected
    | SetObjectPath(empty: bool)
    | SetError
    | FailPosted
    | Reply(id: nat, isError: bool, fromLoss: bool)

  function Step(p: Proxy, e: Event): Proxy {
    match e
    case QueueCall => Called(p)
    case Cancel(id) => if id < p.created && id !in p.watched then Finish(p, id) else p
    case SetConnection(connected) => Update(p.(connection := if connected then Connected else Broken))
    case SetDisconnected => Update(p.(connection := NoConnection, hasPath := false))
    case SetObjectPath(empty) => Update(p.(hasPath := !empty))
    case SetError => SetStatus(p, Invalid)
    case FailPosted => if p.posted == [] then p else Finish(p.(posted := p.posted[1..]), p.posted[0])
    case Reply(id, isError, fromLoss) => if id in p.inFlight then Replied(p, id, isError, fromLoss) else p
  }

  function After(run: seq<Event>): Proxy {
    if run == [] then Init() else Step(After(run[..|run| - 1]), run[|run| - 1])
  }

  class AsyncDBusProxy {
    var status: Status
    var connection: Connection
    var hasPath: bool
    var hasInterface: bool
    var operationsQueue: seq<nat>
    // the state of the call objects
    var watched: set<nat>
    var interfaceWasDestroyed: set<nat>
    var created: nat
    var inFlight: set<nat>
    // failures waiting in the event loop, and what was observed
    ghost var posted: seq<nat>
    ghost var sent: seq<nat>
    ghost var finished: seq<nat>

    ghost function State(): Proxy
      reads this
    {
      Proxy(status, connection, hasPath, hasInterface, created, operationsQueue, inFlight, posted,
            watched, interfaceWasDestroyed, sent, finished)
    }

    constructor ()
      ensures State() == Init()
    {
      status, connection, hasPath, hasInterface, created := Incomplete, NoConnection, false, false, 0;
      operationsQueue, watched, interfaceWasDestroyed := [], {}, {};
      inFlight, posted, sent, finished := {}, [], [], [];
    }

    method SendCall(id: nat)
      modifies this
      ensures State() == DoCall(old(State()), id)
    {
      sent := sent + [id];
      inFlight := inFlight + {id};
      watched := watched + {id};
      interfaceWasDestroyed := interfaceWasDestroyed - {id};
    }

    method OnCallFinished(id: nat)
      modifies this
      ensures State() == Finish(old(State()), id)
    {
      finished := finished + [id];
      var rest := WithoutFirst(operationsQueue, id);
      operationsQueue := rest;
    }

    method ChangeStatus(newStatus: Status)
      modifies this
      ensures State() == SetStatus(old(State()), newStatus)
    {
      status := newStatus;
      if newStatus == Ready {
        SendAll(operationsQueue);
        operationsQueue := [];
      } else if newStatus == Invalid {
        FailQueued(operationsQueue);
        operationsQueue := [];
      }
    }

    method SendAll(calls: seq<nat>)
      modifies this
      ensures State() == DoAll(old(State()), calls)
    {
      ghost var start := State();
      for i := 0 to |calls|
        invariant DoAll(State(), calls[i..]) == DoAll(start, calls)
      {
        assert calls[i..][1..] == calls[i + 1..];
        SendCall(calls[i]);
      }
    }

    method FailQueued(calls: seq<nat>)
      modifies this
      ensures State() == FailAll(old(State()), calls)
    {
      ghost var start := State();
      for i := 0 to |calls|
        invariant FailAll(State(), calls[i..]) == FailAll(start, calls)
      {
        assert calls[i..][1..] == calls[i + 1..];
        OnCallFinished(calls[i]);
      }
    }

    method Refresh()
      modifies this
      ensures State() == Update(old(State()))
    {
      if hasInterface {
        hasInterface := false;
        interfaceWasDestroyed := interfaceWasDestroyed + inFlight;
      }
      if connection == NoConnection || !hasPath {
        ChangeStatus(Incomplete);
        return;
      }
      if connection == Broken {
        ChangeStatus(Invalid);
        return;
      }
      hasInterface := true;
      ChangeStatus(Ready);
    }

    method ConnectionSet(connected: bool)
      modifies this
      ensures State() == Step(old(State()), SetConnection(connected))
    {
      connection := if connected then Connected else Broken;
      Refresh();
    }

    method Disconnected()
      modifies this
      ensures State() == Step(old(State()), SetDisconnected)
    {
      connection := NoConnection;
      hasPath := false;
      Refresh();
    }

    method ObjectPathSet(empty: bool)
      modifies this
      ensures State() == Step(old(State()), SetObjectPath(empty))
    {
      hasPath := !empty;
      Refresh();
    }

    method Call() returns (id: nat)
      modifies this
      ensures id == old(created)
      ensures State() == Called(old(State()))
    {
      id := created;
      created := created + 1;
      match status {
        case Ready => SendCall(id);
        case Incomplete => operationsQueue := operationsQueue + [id];
        case Invalid => posted := posted + [id];
      }
    }

    /** A call that has a watcher cannot be cancelled any more. */
    method CancelCall(id: nat) returns (ok: bool)
      requires id < created
      modifies this
      ensures ok <==> id !in old(watched)
      ensures State() == Step(old(State()), Cancel(id))
    {
      if id in watched { return false; }
      OnCallFinished(id);
      return true;
    }

    method OnFinished(id: nat, isError: bool, fromLoss: bool)
      requires id in inFlight
      modifies this
      ensures State() == Replied(old(State()), id, isError, fromLoss)
    {
      inFlight := inFlight - {id};
      if id in interfaceWasDestroyed && isError && fromLoss {
        operationsQueue := operationsQueue + [id];
        return;
      }
      OnCallFinished(id);
    }
  }

  // Conservation.

  /** In how many places a call is. */
  function Places(p: Proxy, id: nat): nat {
    multiset(p.queue)[id] + multiset(p.posted)[id] + multiset(p.finished)[id] + (if id in p.inFlight then 1 else 0)
  }

  /** Every call made is in exactly one place: queued, in flight, about to fail, or
      finished. */
  ghost predicate Conserved(p: Proxy) {
    && (forall id: nat :: Places(p, id) == if id < p.created then 1 else 0)
    && (forall id :: id in p.inFlight ==> id in p.watched)
    && (forall id :: id in p.watched ==> id < p.created)
    && (forall id :: id in p.inFlight && !p.hasInterface ==> id in p.orphaned)
  }

  /** Cancelling a call that is no longer queued and was never sent: its failure is
      already posted, or it has finished. */
  predicate CancelsTooLate(p: Proxy, e: Event) {
    e.Cancel? && e.id < p.created && e.id !in p.watched && e.id !in p.queue
  }

  lemma FinishPlaces(p: Proxy, id: nat, other: nat)
    ensures Places(Finish(p, id), other) ==
            if other == id && id !in p.queue then Places(p, other) + 1 else Places(p, other)
  {
    RemoveOneCounts(p.queue, id);
    assert multiset(p.finished + [id]) == multiset(p.finished) + multiset{id};
  }

  /** What sending a list of calls does to the rest of the state. */
  lemma {:induction false} DoAllEffect(p: Proxy, calls: seq<nat>)
    ensures DoAll(p, calls) == p.(sent := p.sent + calls, inFlight := p.inFlight + Elements(calls),
                                  watched := p.watched + Elements(calls), orphaned := p.orphaned - Elements(calls))
    decreases |calls|
  {
    if calls == [] {
      assert p.sent + calls == p.sent && p.orphaned - Elements(calls) == p.orphaned;
    } else {
      DoAllEffect(DoCall(p, calls[0]), calls[1..]);
      assert calls == [calls[0]] + calls[1..];
      assert Elements(calls) == {calls[0]} + Elements(calls[1..]);
      assert p.sent + [calls[0]] + calls[1..] == p.sent + calls;
    }
  }

  lemma {:induction false} FailAllEffect(p: Proxy, calls: seq<nat>)
    ensures FailAll(p, calls) == p.(finished := p.finished + calls, queue := FailAll(p, calls).queue)
    decreases |calls|
  {
    if calls == [] {
      assert p.finished + calls == p.finished;
    } else {
      FailAllEffect(Finish(p, calls[0]), calls[1..]);
      assert p.finished + [calls[0]] + calls[1..] == p.finished + calls;
    }
  }

  lemma SetStatusFrame(p: Proxy, status: Status)
    ensures SetStatus(p, status).status == status && SetStatus(p, status).hasInterface == p.hasInterface
  {
    var q := p.(status := status);
    DoAllEffect(q, q.queue);
    FailAllEffect(q, q.queue);
  }

  lemma SetStatusConserves(p: Proxy, status: Status)
    requires Conserved(p) && (status == Ready ==> p.hasInterface)
    ensures Conserved(SetStatus(p, status))
  {
    var q, t := p.(status := status), SetStatus(p, status);
    DoAllEffect(q, q.queue);
    FailAllEffect(q, q.queue);
    forall id: nat
      ensures Places(t, id) == Places(p, id)
    {
      if status == Invalid { assert multiset(p.finished + p.queue) == multiset(p.finished) + multiset(p.queue); }
      if status == Ready { assert Places(p, id) <= 1 && (id in p.queue <==> multiset(p.queue)[id] > 0); }
    }
    if status == Ready {
      forall id | id in p.queue
        ensures id < p.created
      {
        assert multiset(p.queue)[id] > 0 && Places(p, id) > 0;
      }
    }
  }

  lemma UpdateConserves(p: Proxy)
    requires Conserved(p)
    ensures Conserved(Update(p))
  {
    var q := InterfaceDeleted(p);
    forall id: nat
      ensures Places(q, id) == Places(p, id)
    {
    }
    if q.connection == NoConnection || !q.hasPath {
      SetStatusConserves(q, Incomplete);
    } else if q.connection == Broken {
      SetStatusConserves(q, Invalid);
    } else {
      var r := q.(hasInterface := true);
      assert forall id: nat :: Places(r, id) == Places(q, id);
      SetStatusConserves(r, Ready);
    }
  }

  lemma CallConserves(p: Proxy)
    requires Conserved(p) && (p.status == Ready ==> p.hasInterface)
    ensures Conserved(Called(p))
  {
    var id, q := p.created, Called(p);
    assert multiset(p.queue + [id]) == multiset(p.queue) + multiset{id};
    assert multiset(p.posted + [id]) == multiset(p.posted) + multiset{id};
    assert Places(p, id) == 0;
    forall c: nat
      ensures Places(q, c) == if c == id then 1 else Places(p, c)
    {
    }
  }

  lemma FailPostedConserves(p: Proxy)
    requires Conserved(p) && p.posted != []
    ensures Conserved(Step(p, FailPosted))
  {
    var id, q := p.posted[0], p.(posted := p.posted[1..]);
    assert p.posted == [id] + p.posted[1..];
    assert multiset(p.posted)[id] > 0 && Places(p, id) == 1;
    forall c: nat
      ensures Places(Finish(q, id), c) == Places(p, c)
    {
      FinishPlaces(q, id, c);
    }
  }

  lemma ReplyConserves(p: Proxy, id: nat, isError: bool, fromLoss: bool)
    requires Conserved(p) && id in p.inFlight
    ensures Conserved(Replied(p, id, isError, fromLoss))
  {
    var q := p.(inFlight := p.inFlight - {id});
    assert Places(p, id) == 1;
    assert multiset(p.queue + [id]) == multiset(p.queue) + multiset{id};
    forall c: nat
      ensures Places(Replied(p, id, isError, fromLoss), c) == Places(p, c)
    {
      FinishPlaces(q, id, c);
    }
  }

  ghost predicate Sound(p: Proxy) {
    Conserved(p) && (p.status == Ready ==> p.hasInterface)
  }

  lemma CancelConserves(p: Proxy, id: nat)
    requires Conserved(p) && id < p.created && id !in p.watched
    ensures Conserved(Finish(p, id)) <==> id in p.queue
  {
    forall c: nat
      ensures Places(Finish(p, id), c) == if c == id && id !in p.queue then Places(p, c) + 1 else Places(p, c)
    {
      FinishPlaces(p, id, c);
    }
    assert Places(p, id) == 1;
  }

  /** A step keeps every call in exactly one place, except to cancel one too late. */
  lemma StepConserves(p: Proxy, e: Event)
    requires Sound(p)
    ensures Sound(Step(p, e)) <==> !CancelsTooLate(p, e)
  {
    match e {
      case QueueCall => CallConserves(p);
      case Cancel(id) =>
        if id < p.created && id !in p.watched { CancelConserves(p, id); }
      case SetConnection(connected) => UpdatedSound(p, p.(connection := if connected then Connected else Broken));
      case SetDisconnected => UpdatedSound(p, p.(connection := NoConnection, hasPath := false));
      case SetObjectPath(empty) => UpdatedSound(p, p.(hasPath := !empty));
      case SetError =>
        SetStatusConserves(p, Invalid);
        SetStatusFrame(p, Invalid);
      case FailPosted =>
        if p.posted != [] { FailPostedConserves(p); }
      case Reply(id, isError, fromLoss) =>
        if id in p.inFlight { ReplyConserves(p, id, isError, fromLoss); }
    }
  }

  lemma UpdatedSound(p: Proxy, q: Proxy)
    requires Sound(p) && q == p.(connection := q.connection, hasPath := q.hasPath)
    ensures Sound(Update(q))
  {
    assert forall id: nat :: Places(q, id) == Places(p, id);
    UpdateConserves(q);
    var r := InterfaceDeleted(q);
    SetStatusFrame(r, Incomplete);
    SetStatusFrame(r, Invalid);
    SetStatusFrame(r.(hasInterface := true), Ready);
  }

  predicate NeverTooLate(run: seq<Event>) {
    run == [] || (NeverTooLate(run[..|run| - 1]) && !CancelsTooLate(After(run[..|run| - 1]), run[|run| - 1]))
  }

  /** On every run that cancels no call too late, every call is in exactly one place
      and so finishes at most once. */
  lemma {:induction false} CallsAreConserved(run: seq<Event>, id: nat)
    requires NeverTooLate(run)
    ensures Sound(After(run)) && Places(After(run), id) == (if id < After(run).created then 1 else 0)
    ensures multiset(After(run).finished)[id] <= 1
  {
    if run != [] {
      CallsAreConserved(run[..|run| - 1], id);
      StepConserves(After(run[..|run| - 1]), run[|run| - 1]);
    }
  }

  /** The bad run: a call made on a broken connection is cancelled before its posted
      failure is delivered. */
  lemma CancelledTwiceFinished()
    ensures After([SetError, QueueCall, Cancel(0), FailPosted]).finished == [0, 0]
  {
    var run := [SetError, QueueCall, Cancel(0), FailPosted];
    assert run[..3] == [SetError, QueueCall, Cancel(0)];
    assert run[..3][..2] == [SetError, QueueCall] && run[..3][..2][..1] == [SetError];
    assert run[..3][..2][..1][..0] == [];
    assert After([SetError]) == Init().(status := Invalid);
    assert After([SetError, QueueCall]).posted == [0];
    assert After([SetError, QueueCall, Cancel(0)]).finished == [0];
  }

  // Order.

  predicate Requeues(p: Proxy, e: Event) {
    e.Reply? && e.id in p.inFlight && e.id in p.orphaned && e.isError && e.fromLoss
  }

  /** Calls were sent in the order made, and before those that wait, which are in order too. */
  ghost predicate InOrder(p: Proxy) {
    && Increasing(p.sent) && Increasing(p.queue)
    && (forall c, d :: c in p.sent && d in p.queue ==> c < d)
    && (forall c :: c in p.sent ==> c < p.created)
    && (forall c :: c in p.queue ==> c < p.created)
  }

  ghost predicate Ordered(p: Proxy) {
    && InOrder(p)
    && (p.status != Incomplete ==> p.queue == [])
  }

  lemma SetStatusOrders(p: Proxy, status: Status)
    requires InOrder(p)
    ensures Ordered(SetStatus(p, status))
  {
    var q := p.(status := status);
    DoAllEffect(q, q.queue);
    FailAllEffect(q, q.queue);
    JoinIncreases(p.sent, p.queue);
  }

  lemma FinishOrders(p: Proxy, id: nat)
    requires Ordered(p)
    ensures Ordered(Finish(p, id))
  {
    RemoveOneIncreases(p.queue, id);
  }

  lemma CallOrders(p: Proxy)
    requires Ordered(p)
    ensures Ordered(Called(p))
  {
    JoinIncreases(p.sent, [p.created]);
    JoinIncreases(p.queue, [p.created]);
  }

  lemma StepOrders(p: Proxy, e: Event)
    requires Ordered(p) && !Requeues(p, e)
    ensures Ordered(Step(p, e))
  {
    match e {
      case QueueCall => CallOrders(p);
      case Cancel(id) => FinishOrders(p, id);
      case SetConnection(connected) => UpdateOrders(p.(connection := if connected then Connected else Broken));
      case SetDisconnected => UpdateOrders(p.(connection := NoConnection, hasPath := false));
      case SetObjectPath(empty) => UpdateOrders(p.(hasPath := !empty));
      case SetError => SetStatusOrders(p, Invalid);
      case FailPosted =>
        if p.posted != [] { FinishOrders(p.(posted := p.posted[1..]), p.posted[0]); }
      case Reply(id, _, _) =>
        if id in p.inFlight { FinishOrders(p.(inFlight := p.inFlight - {id}), id); }
    }
  }

  lemma UpdateOrders(p: Proxy)
    requires InOrder(p)
    ensures Ordered(Update(p))
  {
    var q := InterfaceDeleted(p);
    SetStatusOrders(q, Incomplete);
    SetStatusOrders(q, Invalid);
    SetStatusOrders(q.(hasInterface := true), Ready);
  }

  predicate NeverRequeues(run: seq<Event>) {
    run == [] || (NeverRequeues(run[..|run| - 1]) && !Requeues(After(run[..|run| - 1]), run[|run| - 1]))
  }

  /** On every run in which no call goes back to the queue, calls are sent in the
      order they were made, and none waits while the proxy is ready. */
  lemma {:induction false} SentInOrder(run: seq<Event>)
    requires NeverRequeues(run)
    ensures Increasing(After(run).sent)
    ensures After(run).status == Ready ==> After(run).queue == []
    ensures Ordered(After(run))
  {
    if run != [] {
      SentInOrder(run[..|run| - 1]);
      StepOrders(After(run[..|run| - 1]), run[|run| - 1]);
    }
  }

  /** Calls wait only for a connection and a path. */
  ghost predicate NoneWaits(p: Proxy) {
    p.status != Incomplete ==> p.queue == []
  }

  /** With any run, a call comes to wait in a ready or an invalid proxy exactly when it is
      sent back to the queue there; nothing in that step sends it again or fails it. */
  lemma WaitsExactlyWhen(p: Proxy, e: Event)
    requires NoneWaits(p)
    ensures NoneWaits(Step(p, e)) <==> !(p.status != Incomplete && Requeues(p, e))
  {
  }

  predicate ChangesStatus(e: Event) {
    e.SetConnection? || e.SetDisconnected? || e.SetObjectPath? || e.SetError?
  }

  /** And there it stays, neither sent nor failed nor cancellable, until the status is
      set again. */
  lemma RequeuedCallIsStuck(p: Proxy, e: Event, id: nat)
    requires Sound(p) && p.status != Incomplete && id in p.queue && id in p.watched && !ChangesStatus(e)
    ensures id in Step(p, e).queue && id in Step(p, e).watched && Step(p, e).status == p.status
  {
    assert Places(p, id) <= 1 && multiset(p.queue)[id] > 0;
    match e {
      case Cancel(c) =>
        if c != id { OthersStayQueued(p.queue, c, id); }
      case FailPosted =>
        if p.posted != [] {
          assert multiset(p.posted)[p.posted[0]] > 0;
          OthersStayQueued(p.queue, p.posted[0], id);
        }
      case Reply(c, _, _) =>
        if c != id { OthersStayQueued(p.queue, c, id); }
      case _ =>
    }
  }

  lemma OneMore(run: seq<Event>, e: Event)
    ensures After(run + [e]) == Step(After(run), e)
  {
    assert (run + [e])[..|run|] == run;
  }

  /** The stuck state is reached: the path changes while a call is in flight, and the
      reply that explains the loss comes when the proxy is ready again. */
  lemma RequeuedWhileReady()
    ensures var p := After([SetConnection(true), SetObjectPath(false), QueueCall, SetObjectPath(true),
                            SetObjectPath(false), Reply(0, true, true)]);
            p.status == Ready && p.queue == [0] && 0 in p.watched
  {
    var sent := [SetConnection(true), SetObjectPath(false), QueueCall];
    CallSent();
    OneMore(sent, SetObjectPath(true));
    OneMore(sent + [SetObjectPath(true)], SetObjectPath(false));
    OneMore(sent + [SetObjectPath(true)] + [SetObjectPath(false)], Reply(0, true, true));
    assert sent + [SetObjectPath(true)] + [SetObjectPath(false)] + [Reply(0, true, true)]
        == [SetConnection(true), SetObjectPath(false), QueueCall, SetObjectPath(true), SetObjectPath(false),
            Reply(0, true, true)];
    var lost := After(sent + [SetObjectPath(true)]);
    assert lost == After(sent).(hasPath := false, hasInterface := false, status := Incomplete, orphaned := {0});
    assert After(sent + [SetObjectPath(true)] + [SetObjectPath(false)])
        == lost.(hasPath := true, hasInterface := true, status := Ready);
  }

  lemma CallSent()
    ensures After([SetConnection(true), SetObjectPath(false), QueueCall])
         == Proxy(Ready, Connected, true, true, 1, [], {0}, [], {0}, {}, [0], [])
  {
    OneMore([], SetConnection(true));
    OneMore([SetConnection(true)], SetObjectPath(false));
    OneMore([SetConnection(true), SetObjectPath(false)], QueueCall);
    assert [] + [SetConnection(true)] == [SetConnection(true)];
    assert [SetConnection(true)] + [SetObjectPath(false)] == [SetConnection(true), SetObjectPath(false)];
    assert [SetConnection(true), SetObjectPath(false)] + [QueueCall]
        == [SetConnection(true), SetObjectPath(false), QueueCall];
    assert After([SetConnection(true)]) == Init().(connection := Connected);
    assert After([SetConnection(true), SetObjectPath(false)])
        == Init().(connection := Connected, hasPath := true, hasInterface := true, status := Ready);
  }

  lemma OthersStayQueued(queue: seq<nat>, c: nat, id: nat)
    requires id in queue && c != id
    ensures id in RemoveOne(queue, c)
  {
    RemoveOneCounts(queue, c);
    assert id in multiset(RemoveOne(queue, c));
  }
}
