/** What clients and the collector observe of a session: which request an event answers,
    starts or takes out of the queue, and when the session is given up. */
module SessionEffects {
  import opened SessionQueue
  import opened SessionOrder
  import Lists

  predicate Runs(s: Session) {
    s.idle.alive && !s.faulted
  }

  predicate IsHead(s: Session, id: nat) {
    s.requests != [] && s.requests[0].id == id
  }

  /** The position of a request whose key no earlier one has. */
  predicate FirstAt(requests: seq<Request>, key: string, i: int) {
    0 <= i < |requests| && requests[i].cancelKey == key && forall j :: 0 <= j < i ==> requests[j].cancelKey != key
  }

  predicate Named(s: Session, key: string, id: nat) {
    exists i :: 0 <= i < |s.requests| && FirstAt(s.requests, key, i) && s.requests[i].id == id
  }

  /** Does dispatching a start event start a request? */
  predicate Starts(s: Session) {
    Runs(s) && s.posted > 0 && s.requests != [] && !s.active && s.watcher != Waiting
  }

  // Cancelling.

  /** A cancellation answers the first request that has the key. That leaves the queue,
      unless it is running; all others stay as they are. */
  lemma CancelAnswersTheFirst(s: Session, key: string, i: nat)
    requires Runs(s) && FirstAt(s.requests, key, i)
    ensures var t, x, running := Step(s, Cancel(key)), s.requests[i], i == 0 && s.active;
            && t.log.replies == s.log.replies + [Reply(x.id, CanceledError)]
            && t.requests == (if running then s.requests else s.requests[..i] + s.requests[i + 1..])
            && t.log.left == (if running then s.log.left else s.log.left + [x.id])
            && t.canceled == (s.canceled || running)
            && t.watcher == (if running && s.watcher == Waiting then NoWatcher else s.watcher)
            && t == s.(requests := t.requests, canceled := t.canceled, watcher := t.watcher,
                       log := s.log.(left := t.log.left, replies := t.log.replies))
  {
    assert FirstWithKey(s.requests, key) == i;
  }

  lemma UnknownKeyCancelsNothing(s: Session, key: string)
    requires forall i :: 0 <= i < |s.requests| ==> s.requests[i].cancelKey != key
    ensures Step(s, Cancel(key)) == s
  {
    assert FirstWithKey(s.requests, key) == |s.requests|;
  }

  lemma FirstIsUnique(requests: seq<Request>, key: string, i: int, k: int)
    requires FirstAt(requests, key, i) && FirstAt(requests, key, k)
    ensures i == k
  {
  }

  // Replies.

  /** The event that a reply answers with. */
  predicate Causes(s: Session, e: Event, r: Reply) {
    match r.kind
    case CanceledError => e.Cancel? && Named(s, e.key, r.id)
    case RuntimeError => e == StartNewRequest(false) && Starts(s) && IsHead(s, r.id)
    case PluginResult => e == PluginAnswer(false) && !s.canceled && IsHead(s, r.id)
    case PluginError => e == PluginAnswer(true) && !s.canceled && IsHead(s, r.id)
  }

  /** An event gives exactly the reply that it causes, and otherwise none. */
  lemma RepliesExactly(s: Session, e: Event, r: Reply)
    requires Runs(s)
    ensures Causes(s, e, r) <==> Step(s, e).log.replies == s.log.replies + [r]
    ensures Step(s, e).log.replies == s.log.replies
            || exists q :: Causes(s, e, q) && Step(s, e).log.replies == s.log.replies + [q]
  {
    if e.Cancel? {
      CancelReplies(s, e.key, r);
    } else if Step(s, e).log.replies != s.log.replies {
      OtherReplies(s, e, r);
    }
  }

  lemma CancelReplies(s: Session, key: string, r: Reply)
    requires Runs(s)
    ensures Causes(s, Cancel(key), r) <==> Step(s, Cancel(key)).log.replies == s.log.replies + [r]
    ensures Step(s, Cancel(key)).log.replies == s.log.replies
            || exists q :: Causes(s, Cancel(key), q) && Step(s, Cancel(key)).log.replies == s.log.replies + [q]
  {
    var i := FirstWithKey(s.requests, key);
    if i < |s.requests| {
      var q := Reply(s.requests[i].id, CanceledError);
      CancelAnswersTheFirst(s, key, i);
      assert Causes(s, Cancel(key), q);
      LastIsEqual(s.log.replies, q, r);
      if Named(s, key, r.id) {
        var k :| 0 <= k < |s.requests| && FirstAt(s.requests, key, k) && s.requests[k].id == r.id;
        FirstIsUnique(s.requests, key, i, k);
      }
    } else {
      assert forall k :: !FirstAt(s.requests, key, k);
      assert |s.log.replies + [r]| != |s.log.replies|;
    }
  }

  lemma OtherReplies(s: Session, e: Event, r: Reply)
    requires Runs(s) && !e.Cancel? && Step(s, e).log.replies != s.log.replies
    ensures Causes(s, e, r) <==> Step(s, e).log.replies == s.log.replies + [r]
    ensures exists q :: Causes(s, e, q) && Step(s, e).log.replies == s.log.replies + [q]
  {
    var kind := if e.StartNewRequest? then RuntimeError else if e
        == PluginAnswer(true) then PluginError else PluginResult;
    var q := Reply(s.requests[0].id, kind);
    assert Causes(s, e, q) && Step(s, e).log.replies == s.log.replies + [q];
    LastIsEqual(s.log.replies, q, r);
  }

  lemma LastIsEqual(replies: seq<Reply>, q: Reply, r: Reply)
    ensures replies + [q] == replies + [r] <==> q == r
  {
    assert (replies + [q])[|replies|] == q && (replies + [r])[|replies|] == r;
  }

  /** Over every run, each reply was caused: a result by a result of the plugin while that
      request was at the head and not cancelled, a cancellation by the request's own
      key, and so on. */
  lemma {:induction false} EveryReplyHasACause(init: Session, run: seq<Event>, r: Reply) returns (i: nat)
    requires init.log.replies == [] && r in After(init, run).log.replies
    ensures i < |run| && Runs(After(init, run[..i])) && Causes(After(init, run[..i]), run[i], r)
  {
    var s, e := After(init, Prefix(run)), Last(run);
    if r in s.log.replies {
      i := EveryReplyHasACause(init, Prefix(run), r);
      assert Prefix(run)[..i] == run[..i];
    } else {
      i := |run| - 1;
      RepliesExactly(s, e, r);
      if q :| Causes(s, e, q) && Step(s, e).log.replies == s.log.replies + [q] { assert q == r; }
    }
  }

  // Leaving and starting.

  /** Cancelled while waiting, failed to start, or answered by the plugin. */
  predicate Leaves(s: Session, e: Event, id: nat) {
    || (e.Cancel? && Named(s, e.key, id) && !(s.active && IsHead(s, id)))
    || (e == StartNewRequest(false) && Starts(s) && IsHead(s, id))
    || (e.PluginAnswer? && IsHead(s, id))
  }

  lemma OneLeaves(requests: seq<Request>, rest: seq<Request>, i: nat)
    requires i < |requests| && rest == requests[..i] + requests[i + 1..] && Lists.Increasing(Ids(requests))
    ensures forall x :: x in rest <==> x in requests && x.id != requests[i].id
  {
    var ids := Ids(requests);
    assert requests == requests[..i] + [requests[i]] + requests[i + 1..];
    forall x | x in requests && x != requests[i]
      ensures x.id != requests[i].id
    {
      var k :| 0 <= k < |requests| && requests[k] == x;
      assert ids[k] == x.id && ids[i] == requests[i].id;
    }
    forall k | 0 <= k < |requests| && k != i
      ensures requests[k] != requests[i]
    {
      assert ids[k] == requests[k].id && ids[i] == requests[i].id;
    }
  }

  /** Every step takes out exactly the request that leaves and adds exactly the one that
      arrives; with SessionOrder the order is that of arrival. */
  lemma QueueExactly(s: Session, e: Event, x: Request)
    requires Runs(s) && Ordered(s)
    ensures x in Step(s, e).requests <==>
            (x in s.requests && !Leaves(s, e, x.id)) || (e.Process? && x == Request(s.log.arrived, e.cancelKey))
  {
    match e {
      case Cancel(key) => CancelQueue(s, key, x);
      case StartNewRequest(_) => if s.requests != [] { HeadOut(s, x); }
      case PluginAnswer(_) => if s.requests != [] { HeadOut(s, x); }
      case _ =>
    }
  }

  lemma HeadOut(s: Session, x: Request)
    requires s.requests != [] && Ordered(s)
    ensures x in s.requests[1..] <==> x in s.requests && x.id != s.requests[0].id
  {
    OneLeaves(s.requests, s.requests[1..], 0);
  }

  lemma CancelLeaves(s: Session, key: string, i: nat, id: nat)
    requires Ordered(s) && FirstAt(s.requests, key, i)
    ensures Leaves(s, Cancel(key), id) <==> id == s.requests[i].id && !(s.active && i == 0)
  {
    forall k | FirstAt(s.requests, key, k)
      ensures k == i
    {
      FirstIsUnique(s.requests, key, i, k);
    }
    assert Ids(s.requests)[i] == Ids(s.requests)[0] ==> i == 0;
  }

  lemma CancelQueue(s: Session, key: string, x: Request)
    requires Runs(s) && Ordered(s)
    ensures x in Step(s, Cancel(key)).requests <==> x in s.requests && !Leaves(s, Cancel(key), x.id)
  {
    var i := FirstWithKey(s.requests, key);
    if i < |s.requests| {
      CancelAnswersTheFirst(s, key, i);
      CancelLeaves(s, key, i, x.id);
      OneLeaves(s.requests, s.requests[..i] + s.requests[i + 1..], i);
    } else {
      assert forall k :: !FirstAt(s.requests, key, k);
    }
  }

  /** A request starts exactly when a start event is dispatched that can start one, and it
      is the head; it runs until the plugin answers. */
  lemma StartsExactly(s: Session, e: Event)
    requires Runs(s)
    ensures Step(s, e).log.started
         == if e.StartNewRequest? && Starts(s) then s.log.started + [s.requests[0].id] else s.log.started
    ensures Step(s, e).active <==>
            (s.active && !(e.PluginAnswer? && s.requests != [])) || (e == StartNewRequest(true) && Starts(s))
  {
  }

  lemma QueuesOnly(s: Session, e: Event)
    requires !s.systemReady && s.posted == 0 && !s.active && !e.SystemReady? && !e.PluginAnswer?
    ensures var t := Step(s, e); !t.systemReady && t.posted == 0 && !t.active && t.log.started == s.log.started
  {
  }

  /** While the credentials system is not ready and the plugin keeps quiet, requests only
      queue up: no start event is posted and none starts. */
  lemma {:induction false} NothingStartsBeforeReady(maxInactivity: int, now: int, run: seq<Event>)
    requires forall e :: e in run ==> !e.SystemReady? && !e.PluginAnswer?
    ensures var s := After(Init(false, maxInactivity, now), run);
            !s.systemReady && s.posted == 0 && !s.active && s.log.started == []
  {
    if run != [] {
      assert forall e :: e in Prefix(run) ==> e in run;
      assert Last(run) in run;
      NothingStartsBeforeReady(maxInactivity, now, Prefix(run));
      QueuesOnly(After(Init(false, maxInactivity, now), Prefix(run)), Last(run));
    }
  }

  // Dialogs.

  /** A dialog waits from the plugin's request, unless the running request is cancelled or
      none is queued, until it is answered, the running request is cancelled, or the
      plugin answers a request that is not; and an answered one is noted until its slot
      runs or another dialog is asked for, while a request is queued. */
  lemma DialogWaitsExactly(s: Session, e: Event)
    requires Runs(s)
    ensures Step(s, e).watcher == Waiting <==>
            || (e.PluginUiRequest? && !s.canceled && s.requests != [])
            || (s.watcher == Waiting && !e.UiReplies?
                && !(e.Cancel? && s.active && s.requests != [] && s.requests[0].cancelKey == e.key)
                && !(e.PluginAnswer? && !s.canceled && s.requests != []))
    ensures Step(s, e).watcher == Answered <==>
            || (e.UiReplies? && s.watcher == Waiting)
            || (s.watcher == Answered && s.requests == [])
            || (s.watcher == Answered && !e.QueryUi? && !(e.PluginUiRequest? && !s.canceled))
  {
    if e.Cancel? {
      var i := FirstWithKey(s.requests, e.key);
      if i < |s.requests| { CancelAnswersTheFirst(s, e.key, i); }
    }
  }

  // Giving up.

  /** The events that keep a session in use. */
  predicate Uses(s: Session, e: Event) {
    Runs(s) && (|| e.Process? || e.PluginAnswer? || e.PluginUiRequest? || (e.StartNewRequest? && s.posted > 0)
                || (e.QueryUi? && s.watcher == Answered))
  }

  lemma ClockGoesOn(s: Session, e: Event)
    ensures Step(s, e).idle.now == s.idle.now + if e.Tick? && Runs(s) then e.seconds else 0
    ensures Step(s, e).idle.maxInactivity == s.idle.maxInactivity
  {
    match e {
      case StartNewRequest(ok) => StartClock(s, ok);
      case PluginAnswer(isError) => AnswerClock(s, isError);
      case _ =>
    }
  }

  lemma StartClock(s: Session, pluginStarts: bool)
    ensures var t := Step(s, StartNewRequest(pluginStarts)).idle;
            t.now == s.idle.now && t.maxInactivity == s.idle.maxInactivity
  {
  }

  lemma AnswerClock(s: Session, isError: bool)
    ensures var t := Step(s, PluginAnswer(isError)).idle;
            t.now == s.idle.now && t.maxInactivity == s.idle.maxInactivity
  {
  }

  /** The collector itself uses a busy session that it does not destroy. */
  lemma UseIsNoted(s: Session, e: Event)
    requires !e.DestroyUnused?
    ensures Step(s, e).idle.lastActivity == if Uses(s, e) then s.idle.now else s.idle.lastActivity
  {
  }

  lemma ActivityGoesOn(s: Session, e: Event)
    requires s.idle.lastActivity <= s.idle.now
    ensures var t := Step(s, e).idle;
            && s.idle.now <= t.now && t.lastActivity <= t.now && t.maxInactivity == s.idle.maxInactivity
            && (if Uses(s, e) then s.idle.now else s.idle.lastActivity) <= t.lastActivity
  {
    ClockGoesOn(s, e);
    if !e.DestroyUnused? { UseIsNoted(s, e); }
  }

  lemma {:induction false} ActivityIsLastUse(init: Session, run: seq<Event>, i: nat)
    requires init.idle.lastActivity <= init.idle.now && i <= |run|
    ensures var t, u := After(init, run).idle, After(init, run[..i]);
            && u.idle.now <= t.now && t.lastActivity <= t.now && t.maxInactivity == init.idle.maxInactivity
            && u.idle.lastActivity <= t.lastActivity
            && (i < |run| && Uses(u, run[i]) ==> u.idle.now <= t.lastActivity)
  {
    if i < |run| {
      var before := Prefix(run);
      ActivityIsLastUse(init, before, i);
      assert before[..i] == run[..i];
      ActivityGoesOn(After(init, before), Last(run));
      if i == |before| { assert run[..i] == before; } else { assert before[i] == run[i]; }
    } else {
      assert run[..i] == run;
      if run != [] {
        ActivityIsLastUse(init, Prefix(run), 0);
        ActivityGoesOn(After(init, Prefix(run)), Last(run));
      }
    }
  }

  /** Over every run: when the collector destroys a session, every use of it is longer ago
      than the limit, and so is its creation. */
  lemma DestroyedOnlyWhenUnused(systemReady: bool, maxInactivity: int, now: int, run: seq<Event>, i: nat)
    requires var s := After(Init(systemReady, maxInactivity, now), run);
             s.idle.alive && !Step(s, DestroyUnused).idle.alive
    requires i < |run| && Uses(After(Init(systemReady, maxInactivity, now), run[..i]), run[i])
    ensures var init := Init(systemReady, maxInactivity, now);
            && After(init, run).idle.now - After(init, run[..i]).idle.now > maxInactivity
            && After(init, run).idle.now - now > maxInactivity
  {
    ActivityIsLastUse(Init(systemReady, maxInactivity, now), run, i);
    ActivityIsLastUse(Init(systemReady, maxInactivity, now), run, 0);
  }
}
