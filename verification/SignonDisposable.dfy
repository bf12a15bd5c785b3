/** The collector of unused objects: all disposable objects, their clocks, and the timer
    that tells when none is left. */
module SignonDisposable {
  import Q = SessionQueue
  import opened Lists

  /** `busy` objects refuse to be destroyed and count as used again. */
  datatype Item = Item(autoDestruct: bool, lastActivity: int, maxInactivity: int, busy: bool)

  datatype Pool = Pool(objects: seq<nat>, items: map<nat, Item>, destroyed: set<nat>)

  predicate Unused(item: Item, now: int) {
    item.autoDestruct && now - item.lastActivity > item.maxInactivity
  }

  predicate Collects(p: Pool, h: nat, now: int) {
    h in p.items && Unused(p.items[h], now)
  }

  /** One object of the loop. It leaves the list even if it refused to be destroyed. */
  function CollectOne(p: Pool, h: nat, now: int): Pool {
    if !Collects(p, h, now) then p
    else
      var item := p.items[h];
      Pool(RemoveOne(p.objects, h),
           if item.busy then p.items[h := item.(lastActivity := now)] else p.items - {h},
           if item.busy then p.destroyed else p.destroyed + {h})
  }

  function CollectAll(p: Pool, todo: seq<nat>, now: int): Pool
    decreases |todo|
  {
    if todo == [] then p else CollectAll(CollectOne(p, todo[0], now), todo[1..], now)
  }

  /** The objects of the list have items. */
  ghost predicate Listed(p: Pool) {
    Distinct(p.objects) && forall h :: h in p.objects ==> h in p.items
  }

  class Collector {
    var disposableObjects: seq<nat>
    var items: map<nat, Item>
    var destroyed: set<nat>
    const hasNotifyTimer: bool
    var notifyTimerStarted: bool

    ghost function State(): Pool
      reads this
    {
      Pool(disposableObjects, items, destroyed)
    }

    constructor (hasNotifyTimer: bool)
      ensures State() == Pool([], map[], {}) && !notifyTimerStarted && this.hasNotifyTimer == hasNotifyTimer
    {
      disposableObjects, items, destroyed := [], map[], {};
      this.hasNotifyTimer, notifyTimerStarted := hasNotifyTimer, false;
    }

    /** The loop runs over the list as it was at the start. */
    method DestroyUnused(now: int)
      modifies this
      ensures State() == CollectAll(old(State()), old(disposableObjects), now)
      ensures notifyTimerStarted == (old(notifyTimerStarted) || (disposableObjects == [] && hasNotifyTimer))
    {
      var objects := disposableObjects;
      for i := 0 to |objects|
        invariant CollectAll(old(State()), objects, now) == CollectAll(State(), objects[i..], now)
        invariant notifyTimerStarted == old(notifyTimerStarted)
      {
        assert objects[i..][1..] == objects[i + 1..];
        var h := objects[i];
        if h in items && items[h].autoDestruct && now - items[h].lastActivity > items[h].maxInactivity {
          Destroy(h, now);
          var rest := WithoutFirst(disposableObjects, h);
          disposableObjects := rest;
        }
      }
      if disposableObjects == [] && hasNotifyTimer {
        notifyTimerStarted := true;
      }
    }

    method Destroy(h: nat, now: int)
      requires h in items
      modifies this`items, this`destroyed
      ensures items == if old(items)[h].busy then old(items)[h := old(items)[h].(lastActivity := now)]
              else old(items) - {h}
      ensures destroyed == if old(items)[h].busy then old(destroyed) else old(destroyed) + {h}
    {
      if items[h].busy {
        items := items[h := items[h].(lastActivity := now)];
        return;
      }
      items, destroyed := items - {h}, destroyed + {h};
    }
  }

  /** What becomes of each object: the unused ones leave the list, and of these the busy
      ones live on as if just used, while the others are destroyed. */
  ghost predicate Swept(p: Pool, q: Pool, todo: seq<nat>, h: nat, now: int) {
    var hit := h in todo && Collects(p, h, now);
    && (h in q.objects <==> h in p.objects && !hit)
    && (h in q.destroyed <==> h in p.destroyed || (hit && !p.items[h].busy))
    && (h in q.items <==> h in p.items && !(hit && !p.items[h].busy))
    && (h in q.items ==> q.items[h] == if hit then p.items[h].(lastActivity := now) else p.items[h])
  }

  lemma OneSwept(p: Pool, h: nat, g: nat, now: int)
    requires Listed(p)
    ensures var q := CollectOne(p, h, now);
            Listed(q) && Swept(p, q, [h], g, now)
  {
    RemoveOneRemoves(p.objects, h);
  }

  /** The sweep treats every object by its own state, whatever the order of the list. */
  lemma {:induction false} SweepIsPointwise(p: Pool, todo: seq<nat>, h: nat, now: int)
    requires Listed(p) && Distinct(todo) && forall g :: g in todo ==> g in p.items
    ensures Listed(CollectAll(p, todo, now)) && Swept(p, CollectAll(p, todo, now), todo, h, now)
    decreases |todo|
  {
    if todo != [] {
      var g, rest := todo[0], todo[1..];
      var q := CollectOne(p, g, now);
      assert todo == [g] + rest && g !in rest;
      OneSwept(p, g, h, now);
      forall k | k in rest
        ensures k in q.items
      {
        OneSwept(p, g, k, now);
      }
      SweepIsPointwise(q, rest, h, now);
    }
  }

  /** A busy object that is collected is lost to the collector: it lives on and will
      never be looked at again. That is exactly what auto-destruction while busy does. */
  lemma LostExactlyWhen(p: Pool, h: nat, now: int)
    requires Listed(p) && h in p.objects
    ensures var q := CollectAll(p, p.objects, now);
            h in q.items && h !in q.objects <==> p.items[h].busy && Unused(p.items[h], now)
  {
    SweepIsPointwise(p, p.objects, h, now);
  }

  /** For a session this is the step of SessionQueue. */
  lemma SweepOfSession(s: Q.Session, p: Pool, h: nat)
    requires Listed(p) && s.idle.alive && h in p.items && !(h in p.destroyed)
    requires s.idle.listed <==> h in p.objects
    requires p.items[h] == Item(s.idle.autoDestruct, s.idle.lastActivity, s.idle.maxInactivity,
            s.active || s.watcher != Q.NoWatcher)
    ensures var q, t := CollectAll(p, p.objects, s.idle.now), Q.AfterDestroyUnused(s);
            && (t.idle.listed <==> h in q.objects)
            && (t.idle.alive <==> h in q.items) && (t.idle.alive <==> h !in q.destroyed)
            && (t.idle.alive ==> q.items[h].lastActivity == t.idle.lastActivity)
  {
    SweepIsPointwise(p, p.objects, h, s.idle.now);
  }
}
