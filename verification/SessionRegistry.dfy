/** The two global registries of session objects: a map for identities with a
    stored id, keyed by session name, and a list for sessions without one. */
module SessionRegistry {
  import opened Lists

  function Digit(d: nat): char
    requires d < 10
  {
    '0' + d as char
  }

  predicate IsDigit(c: char) {
    '0' <= c <= '9'
  }

  /** QString::number of an unsigned id. */
  function Number(n: nat): (s: string)
    ensures |s| > 0 && forall i :: 0 <= i < |s| ==> IsDigit(s[i])
  {
    if n < 10 then [Digit(n)] else Number(n / 10) + [Digit(n % 10)]
  }

  function ValueOf(s: string): int {
    if s == [] then 0 else 10 * ValueOf(s[..|s| - 1]) + (s[|s| - 1] as int - '0' as int)
  }

  lemma {:induction false} NumberReadsBack(n: nat)
    ensures ValueOf(Number(n)) == n
  {
    var s := Number(n);
    if n < 10 {
      assert s[..|s| - 1] == [];
    } else {
      NumberReadsBack(n / 10);
      assert s[..|s| - 1] == Number(n / 10);
    }
  }

  function SessionName(id: nat, method': string): string {
    Number(id) + "+" + method'
  }

  /** The name determines the id and the method, whatever characters the method
      holds: the first plus sign ends the id. */
  lemma SessionNameIsInjective(id: nat, m: string, id': nat, m': string)
    ensures SessionName(id, m) == SessionName(id', m') <==> id == id' && m == m'
  {
    if SessionName(id, m) == SessionName(id', m') {
      var a, b := Number(id), Number(id');
      var name := SessionName(id, m);
      assert name[|a|] == '+' && name[|b|] == '+';
      assert |a| == |b|;
      assert a == name[..|a|] == b;
      NumberReadsBack(id);
      NumberReadsBack(id');
      assert m == name[|a| + 1..] == m';
    }
  }

  /** What a live session object knows about itself. */
  datatype CoreId = CoreId(id: nat, authMethod: string)

  /** Session objects are named by handles; 0 is the null pointer. */
  datatype Registries = Registries(stored: map<string, nat>, nonStored: seq<nat>, live: map<nat, CoreId>, next: nat)

  function Key(core: CoreId): string {
    SessionName(core.id, core.authMethod)
  }

  /** The session for an identity and a method: an existing one for a stored id,
      else a new one; null when its plugin cannot be loaded. */
  function SessionCore(r: Registries, core: CoreId, pluginLoads: bool): (Registries, nat) {
    if core.id != 0 && Key(core) in r.stored then (r, r.stored[Key(core)])
    else if !pluginLoads then (r.(next := r.next + 1), 0)
    else
      var registered := r.(live := r.live[r.next := core], next := r.next + 1);
      (if core.id != 0 then registered.(stored := r.stored[Key(core) := r.next])
       else registered.(nonStored := r.nonStored + [r.next]),
       r.next)
  }

  function SetId(r: Registries, h: nat, id: nat): Registries
    requires h in r.live
  {
    var core := r.live[h];
    var moved := r.live[h := core.(id := id)];
    if core.id == id then r
    else if id == 0 then
      var key := Key(core);
      r.(stored := r.stored - {key},
         nonStored := r.nonStored + [if key in r.stored then r.stored[key] else 0],
         live := moved)
    else
      var key := SessionName(id, core.authMethod);
      if key in r.stored then r
      else r.(stored := r.stored[key := h], nonStored := RemoveOne(r.nonStored, h), live := moved)
  }

  function Destroy(r: Registries, h: nat): Registries
    requires h in r.live
  {
    var core := r.live[h];
    if core.id != 0 then r.(stored := r.stored - {Key(core)}, live := r.live - {h})
    else r.(nonStored := RemoveOne(r.nonStored, h), live := r.live - {h})
  }

  function StopAll(r: Registries): Registries {
    Registries(map[], [], map h | h in r.live && h !in r.stored.Values && h !in r.nonStored :: r.live[h], r.next)
  }

  /** Each live session is registered once: under the key of its current id, or in
      the list when that id is zero. */
  ghost predicate Consistent(r: Registries) {
    && (forall h :: h in r.live ==> 0 < h < r.next)
    && (forall h :: h in r.live && r.live[h].id != 0 ==> Key(r.live[h]) in r.stored && r.stored[Key(r.live[h])] == h)
    && (forall h :: h in r.live && r.live[h].id == 0 ==> h in r.nonStored)
    && (forall k :: k in r.stored ==>
          r.stored[k] in r.live && r.live[r.stored[k]].id != 0 && k == Key(r.live[r.stored[k]]))
    && (forall h :: h in r.nonStored ==> h in r.live && r.live[h].id == 0)
    && Distinct(r.nonStored)
  }

  lemma NewStoredSession(r: Registries, core: CoreId)
    requires Consistent(r) && r.next > 0 && core.id != 0 && Key(core) !in r.stored
    ensures Consistent(r.(live := r.live[r.next := core], next := r.next + 1, stored := r.stored[Key(core) := r.next]))
  {
    assert r.next !in r.live;
    assert r.next !in r.nonStored;
  }

  lemma NewNonStoredSession(r: Registries, core: CoreId)
    requires Consistent(r) && r.next > 0 && core.id == 0
    ensures Consistent(r.(live := r.live[r.next := core], next := r.next + 1, nonStored := r.nonStored + [r.next]))
  {
    assert r.next !in r.live;
    assert r.next !in r.nonStored;
  }

  lemma SessionCoreStaysConsistent(r: Registries, core: CoreId, pluginLoads: bool)
    requires Consistent(r) && r.next > 0
    ensures Consistent(SessionCore(r, core, pluginLoads).0)
  {
    if core.id != 0 && Key(core) in r.stored {
    } else if pluginLoads {
      if core.id != 0 { NewStoredSession(r, core); } else { NewNonStoredSession(r, core); }
    }
  }

  /** Some live session serves this stored id and method. */
  ghost predicate Serves(r: Registries, core: CoreId) {
    core.id != 0 && core in r.live.Values
  }

  lemma ServedByKey(r: Registries, core: CoreId)
    requires Consistent(r)
    ensures Serves(r, core) <==> core.id != 0 && Key(core) in r.stored
    ensures Serves(r, core) ==> r.live[r.stored[Key(core)]] == core
  {
    if core.id != 0 && Key(core) in r.stored {
      var found := r.live[r.stored[Key(core)]];
      SessionNameIsInjective(core.id, core.authMethod, found.id, found.authMethod);
      assert found in r.live.Values;
    }
    if Serves(r, core) {
      var h :| h in r.live && r.live[h] == core;
    }
  }

  /** The session handed out belongs to the requested id and method. For a stored id that
      is served already it is the session that is there, and nothing changes; otherwise
      it is a new one, unless its plugin cannot be loaded; and the others stay. */
  lemma SessionCoreIsForCaller(r: Registries, core: CoreId, pluginLoads: bool)
    requires Consistent(r) && r.next > 0
    ensures var (t, h) := SessionCore(r, core, pluginLoads);
            && (h != 0 <==> Serves(r, core) || pluginLoads)
            && (h != 0 ==> h in t.live && t.live[h] == core && (h in r.live <==> Serves(r, core)))
            && (Serves(r, core) ==> t == r)
            && (forall g :: g in r.live ==> g in t.live && t.live[g] == r.live[g])
  {
    ServedByKey(r, core);
    assert r.next !in r.live;
  }

  /** A session gets the id, unless that is stored and another session has it already with
      the same method; and the others stay. */
  lemma SetIdReaches(r: Registries, h: nat, id: nat)
    requires Consistent(r) && h in r.live
    ensures var t, core := SetId(r, h, id), r.live[h].(id := id);
            && t.live.Keys == r.live.Keys
            && t.live[h] == (if core != r.live[h] && Serves(r, core) then r.live[h] else core)
            && (forall g :: g in r.live && g != h ==> t.live[g] == r.live[g])
  {
    ServedByKey(r, r.live[h].(id := id));
  }

  /** Only a session that is not busy goes, and it alone; stopping the daemon takes all. */
  lemma ReapingTakesOne(r: Registries, h: nat, busy: bool)
    requires Consistent(r)
    ensures Step(r, Reap(h, busy)).live == if busy then r.live else r.live - {h}
    ensures StopAll(r).live == map[]
  {
    forall g | g in r.live
      ensures g in r.stored.Values || g in r.nonStored
    {
      if r.live[g].id != 0 { assert r.stored[Key(r.live[g])] == g; }
    }
    if h !in r.live { assert r.live - {h} == r.live; }
  }

  /** setId keeps the registries consistent exactly when it does not take a
      session from one stored id straight to another, free one. */
  lemma SetIdConsistency(r: Registries, h: nat, id: nat)
    requires Consistent(r) && h in r.live
    ensures var core := r.live[h];
            var jumps := core.id != 0 && id != 0 && id != core.id && SessionName(id, core.authMethod) !in r.stored;
            Consistent(SetId(r, h, id)) <==> !jumps
  {
    var core := r.live[h];
    var t := SetId(r, h, id);
    RemoveOneRemoves(r.nonStored, h);
    SessionNameIsInjective(core.id, core.authMethod, id, core.authMethod);
    if core.id != 0 && id != 0 && id != core.id && SessionName(id, core.authMethod) !in r.stored {
      assert Key(core) in t.stored && t.stored[Key(core)] == h;
      assert t.live[h] == core.(id := id);
    } else if id != core.id && (id == 0 || core.id == 0) {
      SetIdKeepsRest(r, h, id);
    }
  }

  lemma SetIdKeepsRest(r: Registries, h: nat, id: nat)
    requires Consistent(r) && h in r.live && r.live[h].id != id && (id == 0 || r.live[h].id == 0)
    ensures Consistent(SetId(r, h, id))
  {
    RemoveOneRemoves(r.nonStored, h);
    var core := r.live[h];
    if id == 0 {
      forall g | g in r.live && g != h && r.live[g].id != 0
        ensures Key(r.live[g]) != Key(core)
      {
        assert r.stored[Key(r.live[g])] == g;
      }
      assert h !in r.nonStored;
    } else if SessionName(id, core.authMethod) !in r.stored {
      assert Key(core.(id := id)) == SessionName(id, core.authMethod);
    }
  }

  lemma DestroyStaysConsistent(r: Registries, h: nat)
    requires Consistent(r) && h in r.live
    ensures Consistent(Destroy(r, h))
  {
    RemoveOneRemoves(r.nonStored, h);
    forall g | g in r.live && g != h && r.live[g].id != 0 && r.live[h].id != 0
      ensures Key(r.live[g]) != Key(r.live[h])
    {
      assert r.stored[Key(r.live[g])] == g;
    }
  }

  datatype Event =
    | Open(core: CoreId, pluginLoads: bool)
    | ChangeId(h: nat, id: nat)
    | Reap(h: nat, busy: bool)
    | Stop

  function Step(r: Registries, e: Event): Registries {
    match e
    case Open(core, ok) => SessionCore(r, core, ok).0
    case ChangeId(h, id) => if h in r.live then SetId(r, h, id) else r
    case Reap(h, busy) => if h in r.live && !busy then Destroy(r, h) else r
    case Stop => StopAll(r)
  }

  /** The one call that breaks the registries. */
  predicate Jumps(r: Registries, e: Event) {
    && e.ChangeId? && e.h in r.live
    && r.live[e.h].id != 0 && e.id != 0 && e.id != r.live[e.h].id
    && SessionName(e.id, r.live[e.h].authMethod) !in r.stored
  }

  function After(r: Registries, run: seq<Event>): Registries {
    if run == [] then r else Step(After(r, run[..|run| - 1]), run[|run| - 1])
  }

  predicate NeverJumps(r: Registries, run: seq<Event>) {
    run == [] ||
    (NeverJumps(r, run[..|run| - 1]) && !Jumps(After(r, run[..|run| - 1]), run[|run| - 1]))
  }

  lemma StepConsistency(r: Registries, e: Event)
    requires Consistent(r) && r.next > 0
    ensures Consistent(Step(r, e)) <==> !Jumps(r, e)
    ensures Step(r, e).next > 0
  {
    match e {
      case Open(core, ok) => SessionCoreStaysConsistent(r, core, ok);
      case ChangeId(h, id) => if h in r.live { SetIdConsistency(r, h, id); }
      case Reap(h, _) => if h in r.live { DestroyStaysConsistent(r, h); }
      case Stop =>
    }
  }

  /** A run that reaches it: a session for identity 1 is given identity 2. Its old key
      still leads to it, so whoever asks for identity 1 gets the session of 2. */
  lemma JumpMisleads(m: string)
    ensures var run := [Open(CoreId(1, m), true), ChangeId(1, 2)];
            var r := After(Registries(map[], [], map[], 1), run);
            && !NeverJumps(Registries(map[], [], map[], 1), run) && !Consistent(r)
            && SessionCore(r, CoreId(1, m), true) == (r, 1) && 1 in r.live && r.live[1] == CoreId(2, m)
  {
    var init, run := Registries(map[], [], map[], 1), [Open(CoreId(1, m), true), ChangeId(1, 2)];
    assert run[..1] == [Open(CoreId(1, m), true)] && run[..1][..0] == [];
    var first := Step(init, Open(CoreId(1, m), true));
    assert After(init, run[..1]) == first;
    assert first == Registries(map[SessionName(1, m) := 1], [], map[1 := CoreId(1, m)], 2);
    SessionNameIsInjective(1, m, 2, m);
    assert SessionName(2, m) !in first.stored;
    StepConsistency(init, Open(CoreId(1, m), true));
    StepConsistency(first, ChangeId(1, 2));
    assert After(init, run) == SetId(first, 1, 2);
  }

  /** On every run without such a jump each live session is in exactly one
      registry, so there is one session for each stored id and method. */
  lemma {:induction false} OneSessionPerIdentity(run: seq<Event>, g: nat, h: nat)
    requires NeverJumps(Registries(map[], [], map[], 1), run)
    ensures var r := After(Registries(map[], [], map[], 1), run);
            && Consistent(r) && r.next > 0
            && (g in r.live && h in r.live && r.live[g] == r.live[h] && r.live[g].id != 0 ==> g == h)
  {
    var init := Registries(map[], [], map[], 1);
    if run != [] {
      OneSessionPerIdentity(run[..|run| - 1], g, h);
      StepConsistency(After(init, run[..|run| - 1]), run[|run| - 1]);
    }
  }

  /** The registries as the daemon keeps them. */
  class Sessions {
    var sessionsOfStoredCredentials: map<string, nat>
    var sessionsOfNonStoredCredentials: seq<nat>
    var cores: map<nat, CoreId>
    var nextHandle: nat

    ghost function State(): Registries
      reads this
    {
      Registries(sessionsOfStoredCredentials, sessionsOfNonStoredCredentials, cores, nextHandle)
    }

    constructor ()
      ensures State() == Registries(map[], [], map[], 1)
    {
      sessionsOfStoredCredentials, sessionsOfNonStoredCredentials, cores, nextHandle := map[], [], map[], 1;
    }

    method Find(core: CoreId, pluginLoads: bool) returns (h: nat)
      modifies this
      ensures (State(), h) == SessionCore(old(State()), core, pluginLoads)
    {
      var key := SessionName(core.id, core.authMethod);
      if core.id != 0 && key in sessionsOfStoredCredentials {
        return sessionsOfStoredCredentials[key];
      }
      h := nextHandle;
      nextHandle := nextHandle + 1;
      if !pluginLoads {
        return 0;
      }
      cores := cores[h := core];
      if core.id != 0 {
        sessionsOfStoredCredentials := sessionsOfStoredCredentials[key := h];
      } else {
        sessionsOfNonStoredCredentials := sessionsOfNonStoredCredentials + [h];
      }
    }

    method AssignId(h: nat, id: nat)
      requires h in cores
      modifies this
      ensures State() == SetId(old(State()), h, id)
    {
      var core := cores[h];
      if core.id == id { return; }
      if id == 0 {
        var key := SessionName(core.id, core.authMethod);
        var taken := if key in sessionsOfStoredCredentials then sessionsOfStoredCredentials[key] else 0;
        sessionsOfStoredCredentials := sessionsOfStoredCredentials - {key};
        sessionsOfNonStoredCredentials := sessionsOfNonStoredCredentials + [taken];
      } else {
        var key := SessionName(id, core.authMethod);
        if key in sessionsOfStoredCredentials { return; }
        DropNonStored(h);
        sessionsOfStoredCredentials := sessionsOfStoredCredentials[key := h];
      }
      cores := cores[h := core.(id := id)];
    }

    /** `removeOne` on the list. */
    method DropNonStored(h: nat)
      modifies this`sessionsOfNonStoredCredentials
      ensures sessionsOfNonStoredCredentials == RemoveOne(old(sessionsOfNonStoredCredentials), h)
    {
      var rest := WithoutFirst(sessionsOfNonStoredCredentials, h);
      sessionsOfNonStoredCredentials := rest;
    }

    /** A session with an active request or a dialog is kept. */
    method DestroyCore(h: nat, busy: bool)
      requires h in cores
      modifies this
      ensures State() == Step(old(State()), Reap(h, busy))
    {
      if busy { return; }
      var core := cores[h];
      if core.id != 0 {
        var key := SessionName(core.id, core.authMethod);
        sessionsOfStoredCredentials := sessionsOfStoredCredentials - {key};
      } else {
        DropNonStored(h);
      }
      cores := cores - {h};
    }
  }
}
