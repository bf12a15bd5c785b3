/** The metadata tables: names interned to ids, and an identity's methods,
    mechanisms and tokens spread over rows of ids. */
module MetaData {
  import opened Options
  import opened Lists
  import opened Identity

  /** One of the tables of unique names with autoincremented ids. */
  datatype Names = Names(ids: map<string, nat>, next: nat) {
    function Lookup(name: string): Option<nat> {
      if name in ids then Some(ids[name]) else None
    }

    function InsertOrIgnore(name: string): Names {
      if name in ids then this else Names(ids[name := next], next + 1)
    }

    ghost predicate WellFormed() {
      && (forall n :: n in ids ==> 0 < ids[n] < next)
      && (forall m, n :: m in ids && n in ids && ids[m] == ids[n] ==> m == n)
      && next > 0
    }

    function InsertAll(order: seq<string>): Names {
      if order == [] then this
      else InsertAll(order[..|order| - 1]).InsertOrIgnore(order[|order| - 1])
    }

    /** `later` comes from inserting the names of `added` in some order. */
    ghost predicate Extends(later: Names, added: set<string>) {
      exists order: seq<string> :: Elements(order) == added && later == InsertAll(order)
    }

    /** `later` has the same ids, and fresh ones for what is new in `added`. */
    ghost predicate GrowsTo(later: Names, added: set<string>) {
      && later.ids.Keys == ids.Keys + added
      && (forall n :: n in ids ==> later.ids[n] == ids[n])
      && (forall n :: n in later.ids && n !in ids ==> later.ids[n] >= next)
      && later.next >= next
      && later.WellFormed()
    }
  }

  lemma InsertOneGrows(names: Names, later: Names, added: set<string>, name: string)
    requires names.GrowsTo(later, added)
    ensures names.GrowsTo(later.InsertOrIgnore(name), added + {name})
  {
    InsertOneStaysWellFormed(later, name);
    if name in later.ids {
      assert names.ids.Keys + (added + {name}) == names.ids.Keys + added;
    } else {
      assert names.ids.Keys + (added + {name}) == later.ids.Keys + {name};
    }
  }

  lemma InsertOneStaysWellFormed(names: Names, name: string)
    requires names.WellFormed()
    ensures names.InsertOrIgnore(name).WellFormed()
  {
  }

  lemma ElementsOfFront(list: seq<string>)
    requires list != []
    ensures Elements(list) == Elements(list[..|list| - 1]) + {list[|list| - 1]}
  {
    assert list == list[..|list| - 1] + [list[|list| - 1]];
  }

  lemma {:induction false} InsertAllGrows(names: Names, order: seq<string>)
    requires names.WellFormed()
    ensures names.GrowsTo(names.InsertAll(order), Elements(order))
  {
    if order != [] {
      var front, last := order[..|order| - 1], order[|order| - 1];
      InsertAllGrows(names, front);
      InsertOneGrows(names, names.InsertAll(front), Elements(front), last);
      ElementsOfFront(order);
    }
  }

  lemma ExtendsMeansGrows(names: Names, later: Names, added: set<string>)
    requires names.WellFormed() && names.Extends(later, added)
    ensures names.GrowsTo(later, added)
  {
    var order: seq<string> :| Elements(order) == added && later == names.InsertAll(order);
    InsertAllGrows(names, order);
  }

  datatype CredentialsRow = CredentialsRow(caption: string, userName: string, flags: nat, kind: int)

  /** Ids are NULL where a method has no mechanisms or an identity no tokens. */
  datatype AclRow = AclRow(identity: nat, methodId: Option<nat>, mechanismId: Option<nat>, tokenId: Option<nat>)

  datatype OwnerRow = OwnerRow(identity: nat, tokenId: Option<nat>)

  datatype Tables = Tables(
    credentials: map<nat, CredentialsRow>,
    nextId: nat,
    methods: Names,
    mechanisms: Names,
    tokens: Names,
    realms: map<nat, multiset<string>>,
    acl: set<AclRow>,
    owners: set<OwnerRow>)

  function RealmsAt(realms: map<nat, multiset<string>>, id: nat): multiset<string> {
    if id in realms then realms[id] else multiset{}
  }

  predicate Below(id: Option<nat>, bound: nat) {
    id.Some? ==> id.value < bound
  }

  ghost predicate WellFormed(t: Tables) {
    && t.methods.WellFormed() && t.mechanisms.WellFormed() && t.tokens.WellFormed()
    && t.nextId > 0
    && (forall id :: id in t.credentials ==> 0 < id < t.nextId)
    && (forall id :: id in t.realms ==> id < t.nextId)
    && (forall r :: r in t.acl ==>
          && r.identity < t.nextId && Below(r.methodId, t.methods.next)
          && Below(r.mechanismId, t.mechanisms.next) && Below(r.tokenId, t.tokens.next))
    && (forall r :: r in t.owners ==> r.identity < t.nextId && Below(r.tokenId, t.tokens.next))
    && (forall r :: r in t.owners ==> NotTheEmptyToken(t.tokens, r))
  }

  predicate NotTheEmptyToken(tokens: Names, r: OwnerRow) {
    r.tokenId.Some? ==> tokens.Lookup("") != r.tokenId
  }

  // The flags column.

  function Bit(b: bool, weight: nat): nat {
    if b then weight else 0
  }

  function Flags(p: Profile): nat {
    Bit(p.validated, 1) + Bit(p.storePassword, 2) + Bit(p.userNameSecret, 4)
  }

  predicate IsSet(flags: nat, weight: nat)
    requires weight > 0
  {
    flags / weight % 2 == 1
  }

  lemma FlagsDecode(p: Profile)
    ensures IsSet(Flags(p), 1) == p.validated
    ensures IsSet(Flags(p), 2) == p.storePassword
    ensures IsSet(Flags(p), 4) == p.userNameSecret
  {
  }

  // Reading an identity back: the SELECT statements as comprehensions over the
  // rows of the identity.

  function RowsOf(t: Tables, id: nat): set<AclRow> {
    set r | r in t.acl && r.identity == id
  }

  predicate HasMethod(rows: set<AclRow>, methodId: nat) {
    exists r :: r in rows && r.methodId == Some(methodId)
  }

  predicate HasMechanism(rows: set<AclRow>, methodId: nat, mechanismId: nat) {
    exists r :: r in rows && r.methodId == Some(methodId) && r.mechanismId == Some(mechanismId)
  }

  predicate HasToken(rows: set<AclRow>, tokenId: nat) {
    exists r :: r in rows && r.tokenId == Some(tokenId)
  }

  function MechanismsIn(rows: set<AclRow>, mechanisms: Names, methodId: nat): set<string> {
    set k | k in mechanisms.ids && HasMechanism(rows, methodId, mechanisms.ids[k])
  }

  function MethodsIn(rows: set<AclRow>, methods: Names, mechanisms: Names): map<string, set<string>> {
    map m | m in methods.ids && HasMethod(rows, methods.ids[m]) :: MechanismsIn(rows, mechanisms, methods.ids[m])
  }

  function TokensIn(rows: set<AclRow>, tokens: Names): set<string> {
    set n | n in tokens.ids && HasToken(rows, tokens.ids[n])
  }

  function OwnersOf(t: Tables, id: nat): set<string> {
    set n | n in t.tokens.ids && OwnerRow(id, Some(t.tokens.ids[n])) in t.owners
  }

  function ReadBack(t: Tables, id: nat): Option<Profile> {
    if id !in t.credentials then None
    else
      var row := t.credentials[id];
      var secret := IsSet(row.flags, 4);
      Some(Profile(row.caption, if secret then "" else row.userName,
                   secret, IsSet(row.flags, 2), IsSet(row.flags, 1), row.kind,
                   MethodsIn(RowsOf(t, id), t.methods, t.mechanisms), RealmsAt(t.realms, id),
                   TokensIn(RowsOf(t, id), t.tokens), OwnersOf(t, id)))
  }

  predicate HasMethodFor(rows: set<AclRow>, methodId: nat, tokenId: Option<nat>) {
    tokenId.Some? && exists r :: r in rows && r.methodId == Some(methodId) && r.tokenId == tokenId
  }

  /** The methods a token may use; the empty token asks for all of them. */
  function MethodsFor(t: Tables, id: nat, token: string): set<string> {
    var rows := RowsOf(t, id);
    if token == "" then set m | m in t.methods.ids && HasMethod(rows, t.methods.ids[m])
    else set m | m in t.methods.ids && HasMethodFor(rows, t.methods.ids[m], t.tokens.Lookup(token))
  }

  // Writing an identity.

  function LookupAll(names: Names, list: seq<string>): set<Option<nat>> {
    if list == [] then {None} else set n | n in list :: names.Lookup(n)
  }

  /** The cross product of methods, mechanisms and tokens; tokens alone when there
      is no method. */
  function CrossProduct(methods: Names, mechanisms: Names, tokens: Names, id: nat, info: Info): set<AclRow> {
    if info.methods == map[] then
      set n | n in info.acl :: AclRow(id, None, None, tokens.Lookup(n))
    else
      set m, k, n | m in info.methods && k in LookupAll(mechanisms, info.methods[m])
          && n in LookupAll(tokens, info.acl) ::
        AclRow(id, methods.Lookup(m), k, n)
  }

  function AclRows(t: Tables, id: nat, info: Info): set<AclRow> {
    CrossProduct(t.methods, t.mechanisms, t.tokens, id, info)
  }

  function OwnerRows(tokens: Names, id: nat, info: Info): set<OwnerRow> {
    set n | n in info.owners && n != "" :: OwnerRow(id, tokens.Lookup(n))
  }

  function MechanismNames(info: Info): set<string> {
    set m, k | m in info.methods && k in info.methods[m] :: k
  }

  function TokenNames(info: Info): set<string> {
    Elements(info.acl) + (Elements(info.owners) - {""})
  }

  function RowFor(info: Info): CredentialsRow {
    var p := ProfileOf(info);
    CredentialsRow(info.caption, p.userName, Flags(p), info.kind)
  }

  /** `u` is a result of updating `t` with `info`; new names may be interned in any
      order. */
  ghost predicate Updated(t: Tables, info: Info, u: Tables, id: nat) {
    && id == (if info.IsNew() then t.nextId else info.id)
    && u.nextId == (if info.IsNew() then t.nextId + 1 else t.nextId)
    && u.credentials
    == (if info.IsNew() || id in t.credentials then t.credentials[id := RowFor(info)] else t.credentials)
    && t.methods.Extends(u.methods, info.methods.Keys)
    && t.mechanisms.Extends(u.mechanisms, MechanismNames(info))
    && t.tokens.Extends(u.tokens, TokenNames(info))
    && u.realms - {id} == t.realms - {id}
    && RealmsAt(u.realms, id) == (if info.IsNew() then RealmsAt(t.realms, id) else multiset{}) + multiset(info.realms)
    && u.acl == (set r | r in t.acl && (info.IsNew() || r.identity != id)) + AclRows(u, id, info)
    && u.owners == (set r | r in t.owners && (info.IsNew() || r.identity != id)) + OwnerRows(u.tokens, id, info)
  }

  lemma InternedLookup(names: Names, a: string, b: string)
    requires names.WellFormed() && a in names.ids && names.Lookup(b) == Some(names.ids[a])
    ensures a == b
  {
  }

  /** The rows of the updated identity are exactly the new cross product. */
  lemma OwnRows(t: Tables, info: Info, u: Tables, id: nat)
    requires WellFormed(t) && Updated(t, info, u, id)
    ensures RowsOf(u, id) == AclRows(u, id, info)
  {
  }

  lemma OtherRows(t: Tables, info: Info, u: Tables, id: nat, other: nat)
    requires Updated(t, info, u, id) && other != id
    ensures RowsOf(u, other) == RowsOf(t, other)
  {
    forall r: AclRow
      ensures r in RowsOf(u, other) <==> r in RowsOf(t, other)
    {
    }
  }

  /** Every name that the record uses has its own id. */
  ghost predicate Interned(u: Tables, info: Info) {
    && u.methods.WellFormed() && u.mechanisms.WellFormed() && u.tokens.WellFormed()
    && (forall m :: m in info.methods ==> m in u.methods.ids)
    && (forall m, k :: m in info.methods && k in info.methods[m] ==> k in u.mechanisms.ids)
    && (forall n :: n in info.acl ==> n in u.tokens.ids)
    && (forall n :: n in info.owners && n != "" ==> n in u.tokens.ids)
  }

  lemma NamesGrow(t: Tables, info: Info, u: Tables, id: nat)
    requires WellFormed(t) && Updated(t, info, u, id)
    ensures t.methods.GrowsTo(u.methods, info.methods.Keys)
    ensures t.mechanisms.GrowsTo(u.mechanisms, MechanismNames(info))
    ensures t.tokens.GrowsTo(u.tokens, TokenNames(info))
  {
    ExtendsMeansGrows(t.methods, u.methods, info.methods.Keys);
    ExtendsMeansGrows(t.mechanisms, u.mechanisms, MechanismNames(info));
    ExtendsMeansGrows(t.tokens, u.tokens, TokenNames(info));
  }

  lemma InternedByUpdate(t: Tables, info: Info, u: Tables, id: nat)
    requires WellFormed(t) && Updated(t, info, u, id)
    ensures Interned(u, info)
  {
    NamesGrow(t, info, u, id);
    forall m, k | m in info.methods && k in info.methods[m]
      ensures k in u.mechanisms.ids
    {
      assert k in MechanismNames(info);
    }
    assert forall n :: n in info.acl ==> n in TokenNames(info);
    assert forall n :: n in info.owners && n != "" ==> n in TokenNames(info);
  }

  /** A row of the cross product for each choice of method, mechanism and token. */
  lemma CrossRow(u: Tables, id: nat, info: Info, m: string, k: Option<nat>, n: Option<nat>)
    requires m in info.methods && k in LookupAll(u.mechanisms, info.methods[m]) && n in LookupAll(u.tokens, info.acl)
    ensures AclRow(id, u.methods.Lookup(m), k, n) in AclRows(u, id, info)
  {
    assert info.methods != map[];
  }

  lemma LookupAllIsNonEmpty(names: Names, list: seq<string>) returns (k: Option<nat>)
    ensures k in LookupAll(names, list)
  {
    if list == [] { k := None; } else { k := names.Lookup(list[0]); assert list[0] in list; }
  }

  /** Which method, mechanism and token a row of the cross product came from. */
  lemma RowOrigin(u: Tables, id: nat, info: Info, r: AclRow, m: string) returns (m': string)
    requires r in AclRows(u, id, info) && u.methods.WellFormed()
    requires m in u.methods.ids && r.methodId == Some(u.methods.ids[m])
    ensures m' == m && m in info.methods
    ensures r.mechanismId in LookupAll(u.mechanisms, info.methods[m]) && r.tokenId in LookupAll(u.tokens, info.acl)
  {
    var k: Option<nat>, n: Option<nat>;
    m', k, n :| m' in info.methods && k in LookupAll(u.mechanisms, info.methods[m'])
        && n in LookupAll(u.tokens, info.acl)
             && r == AclRow(id, u.methods.Lookup(m'), k, n);
    InternedLookup(u.methods, m, m');
  }

  lemma MethodReadsBack(u: Tables, info: Info, id: nat, m: string)
    requires Interned(u, info) && m in u.methods.ids
    ensures HasMethod(AclRows(u, id, info), u.methods.ids[m]) <==> m in info.methods
  {
    var rows := AclRows(u, id, info);
    if m in info.methods {
      var k := LookupAllIsNonEmpty(u.mechanisms, info.methods[m]);
      var n := LookupAllIsNonEmpty(u.tokens, info.acl);
      CrossRow(u, id, info, m, k, n);
    }
    if r :| r in rows && r.methodId == Some(u.methods.ids[m]) {
      var _ := RowOrigin(u, id, info, r, m);
    }
  }

  lemma MechanismsReadBack(u: Tables, info: Info, id: nat, m: string)
    requires Interned(u, info) && m in info.methods && m in u.methods.ids
    ensures MechanismsIn(AclRows(u, id, info), u.mechanisms, u.methods.ids[m]) == Elements(info.methods[m])
  {
    var x, rows := u.methods.ids[m], AclRows(u, id, info);
    forall k
      ensures k in MechanismsIn(rows, u.mechanisms, x) <==> k in info.methods[m]
    {
      if k in info.methods[m] {
        var n := LookupAllIsNonEmpty(u.tokens, info.acl);
        assert u.mechanisms.Lookup(k) in LookupAll(u.mechanisms, info.methods[m]);
        CrossRow(u, id, info, m, u.mechanisms.Lookup(k), n);
        assert HasMechanism(rows, x, u.mechanisms.ids[k]);
      }
      if k in MechanismsIn(rows, u.mechanisms, x) {
        var r :| r in rows && r.methodId == Some(x) && r.mechanismId == Some(u.mechanisms.ids[k]);
        var _ := RowOrigin(u, id, info, r, m);
        var k' :| k' in info.methods[m] && u.mechanisms.Lookup(k') == r.mechanismId;
        InternedLookup(u.mechanisms, k, k');
      }
    }
  }

  lemma MethodsReadBack(u: Tables, info: Info, id: nat)
    requires Interned(u, info)
    ensures MethodsIn(AclRows(u, id, info), u.methods, u.mechanisms) == ProfileOf(info).methods
  {
    var back := MethodsIn(AclRows(u, id, info), u.methods, u.mechanisms);
    var want := ProfileOf(info).methods;
    assert back.Keys == want.Keys by {
      forall m
        ensures m in back <==> m in want
      {
        if m in u.methods.ids { MethodReadsBack(u, info, id, m); }
      }
    }
    forall m | m in want
      ensures back[m] == want[m]
    {
      MechanismsReadBack(u, info, id, m);
    }
  }

  lemma AclReadsBack(u: Tables, info: Info, id: nat)
    requires Interned(u, info)
    ensures TokensIn(AclRows(u, id, info), u.tokens) == Elements(info.acl)
  {
    var rows := AclRows(u, id, info);
    forall n
      ensures n in TokensIn(rows, u.tokens) <==> n in info.acl
    {
      if n in info.acl {
        var x := u.tokens.Lookup(n);
        if m :| m in info.methods {
          var k := LookupAllIsNonEmpty(u.mechanisms, info.methods[m]);
          assert x in LookupAll(u.tokens, info.acl);
          CrossRow(u, id, info, m, k, x);
        } else {
          assert AclRow(id, None, None, x) in rows;
        }
        assert HasToken(rows, x.value);
      }
      if n in TokensIn(rows, u.tokens) {
        var r :| r in rows && r.tokenId == Some(u.tokens.ids[n]);
        var n' :| n' in info.acl && u.tokens.Lookup(n') == r.tokenId;
        InternedLookup(u.tokens, n, n');
      }
    }
  }

  lemma OwnersReadBack(t: Tables, info: Info, u: Tables, id: nat)
    requires WellFormed(t) && Updated(t, info, u, id)
    ensures OwnersOf(u, id) == Elements(info.owners) - {""}
  {
    InternedByUpdate(t, info, u, id);
    forall n | n in u.tokens.ids
      ensures OwnerRow(id, Some(u.tokens.ids[n])) in OwnerRows(u.tokens, id, info) <==> n in info.owners && n != ""
    {
      OwnerReadsBack(u.tokens, id, info, n);
    }
    OwnOwnerRows(t, info, u, id);
  }

  lemma OwnOwnerRows(t: Tables, info: Info, u: Tables, id: nat)
    requires WellFormed(t) && Updated(t, info, u, id)
    ensures forall row: OwnerRow :: row.identity == id ==> (row in u.owners <==> row in OwnerRows(u.tokens, id, info))
  {
  }

  lemma OwnerReadsBack(tokens: Names, id: nat, info: Info, n: string)
    requires tokens.WellFormed() && n in tokens.ids
    ensures OwnerRow(id, Some(tokens.ids[n])) in OwnerRows(tokens, id, info) <==> n in info.owners && n != ""
  {
    if o :| o in info.owners && o != "" && Some(tokens.ids[n]) == tokens.Lookup(o) {
      InternedLookup(tokens, n, o);
    }
    if n in info.owners && n != "" { assert tokens.Lookup(n) == Some(tokens.ids[n]); }
  }

  /** Writing an identity and reading it back gives its profile, for a new identity
      and for an existing one; with an id that is not in the table nothing can be
      read back. */
  lemma RoundTrip(t: Tables, info: Info, u: Tables, id: nat)
    requires WellFormed(t) && Updated(t, info, u, id)
    ensures ReadBack(u, id) == if info.IsNew() || info.id in t.credentials then Some(ProfileOf(info)) else None
  {
    OwnRows(t, info, u, id);
    InternedByUpdate(t, info, u, id);
    MethodsReadBack(u, info, id);
    AclReadsBack(u, info, id);
    OwnersReadBack(t, info, u, id);
    FlagsDecode(ProfileOf(info));
    assert RealmsAt(u.realms, id) == multiset(info.realms);
  }

  /** Interning more names resolves no id that was dangling. */
  lemma ExtensionKeepsReading(rows: set<AclRow>, t: Tables, u: Tables, a: set<string>, b: set<string>, c: set<string>)
    requires t.methods.GrowsTo(u.methods, a) && t.mechanisms.GrowsTo(u.mechanisms, b) && t.tokens.GrowsTo(u.tokens, c)
    requires forall r :: r in rows ==>
      Below(r.methodId, t.methods.next) && Below(r.mechanismId, t.mechanisms.next) && Below(r.tokenId, t.tokens.next)
    ensures MethodsIn(rows, u.methods, u.mechanisms) == MethodsIn(rows, t.methods, t.mechanisms)
    ensures TokensIn(rows, u.tokens) == TokensIn(rows, t.tokens)
  {
    assert forall x: nat :: MechanismsIn(rows, u.mechanisms, x) == MechanismsIn(rows, t.mechanisms, x);
  }

  lemma OtherRealms(t: Tables, info: Info, u: Tables, id: nat, other: nat)
    requires Updated(t, info, u, id) && other != id
    ensures RealmsAt(u.realms, other) == RealmsAt(t.realms, other) && (other in u.realms <==> other in t.realms)
  {
    assert other in u.realms <==> other in u.realms - {id};
    assert other in t.realms <==> other in t.realms - {id};
    if other in t.realms { assert (u.realms - {id})[other] == (t.realms - {id})[other]; }
  }

  lemma OtherOwnerRow(t: Tables, info: Info, u: Tables, id: nat, row: OwnerRow)
    requires Updated(t, info, u, id) && row.identity != id
    ensures row in u.owners <==> row in t.owners
  {
  }

  lemma OwnersKeepReading(t: Tables, u: Tables, added: set<string>, other: nat)
    requires t.tokens.GrowsTo(u.tokens, added)
    requires forall row :: row in t.owners ==> Below(row.tokenId, t.tokens.next)
    requires forall row: OwnerRow :: row.identity == other ==> (row in u.owners <==> row in t.owners)
    ensures OwnersOf(u, other) == OwnersOf(t, other)
  {
  }

  lemma OtherOwners(t: Tables, info: Info, u: Tables, id: nat, other: nat)
    requires WellFormed(t) && Updated(t, info, u, id) && other != id
    ensures OwnersOf(u, other) == OwnersOf(t, other)
  {
    NamesGrow(t, info, u, id);
    forall row: OwnerRow | row.identity == other
      ensures row in u.owners <==> row in t.owners
    {
      OtherOwnerRow(t, info, u, id, row);
    }
    OwnersKeepReading(t, u, TokenNames(info), other);
  }

  /** No other identity reads back differently. */
  lemma OthersAreUntouched(t: Tables, info: Info, u: Tables, id: nat, other: nat)
    requires WellFormed(t) && Updated(t, info, u, id) && other != id
    ensures ReadBack(u, other) == ReadBack(t, other)
  {
    OtherRows(t, info, u, id, other);
    OtherRealms(t, info, u, id, other);
    OtherOwners(t, info, u, id, other);
    NamesGrow(t, info, u, id);
    ExtensionKeepsReading(RowsOf(t, other), t, u, info.methods.Keys, MechanismNames(info), TokenNames(info));
  }

  lemma TokenInRows(u: Tables, info: Info, id: nat, token: string, m: string)
    requires Interned(u, info) && m in u.methods.ids
    ensures HasMethodFor(AclRows(u, id, info), u.methods.ids[m], u.tokens.Lookup(token)) <==>
            token in info.acl && m in info.methods
  {
    var rows := AclRows(u, id, info);
    if token in info.acl && m in info.methods {
      var k := LookupAllIsNonEmpty(u.mechanisms, info.methods[m]);
      assert u.tokens.Lookup(token) in LookupAll(u.tokens, info.acl);
      CrossRow(u, id, info, m, k, u.tokens.Lookup(token));
    }
    if HasMethodFor(rows, u.methods.ids[m], u.tokens.Lookup(token)) {
      var r :| r in rows && r.methodId == Some(u.methods.ids[m]) && r.tokenId == u.tokens.Lookup(token);
      var _ := RowOrigin(u, id, info, r, m);
      var n :| n in info.acl && u.tokens.Lookup(n) == r.tokenId;
      InternedLookup(u.tokens, token, n);
    }
  }

  /** After an update a token may use every method if it is in the access list, or empty,
      and none if it is not. */
  lemma TokensUnlockAllOrNothing(t: Tables, info: Info, u: Tables, id: nat, token: string)
    requires WellFormed(t) && Updated(t, info, u, id)
    ensures MethodsFor(u, id, token) == if token == "" || token in info.acl then info.methods.Keys else {}
  {
    OwnRows(t, info, u, id);
    InternedByUpdate(t, info, u, id);
    forall m
      ensures m in MethodsFor(u, id, token) <==> (token == "" || token in info.acl) && m in info.methods
    {
      if m in u.methods.ids {
        TokenInRows(u, info, id, token, m);
        MethodReadsBack(u, info, id, m);
      }
    }
  }

  lemma NewRowsAreBelow(t: Tables, info: Info, u: Tables, id: nat, r: AclRow)
    requires WellFormed(t) && Updated(t, info, u, id) && r in AclRows(u, id, info)
    ensures r.identity == id
    ensures Below(r.methodId, u.methods.next) && Below(r.mechanismId, u.mechanisms.next)
            && Below(r.tokenId, u.tokens.next)
  {
    InternedByUpdate(t, info, u, id);
  }

  lemma AclStaysBelow(t: Tables, info: Info, u: Tables, id: nat, r: AclRow)
    requires WellFormed(t) && Updated(t, info, u, id) && info.id < t.nextId && r in u.acl
    ensures r.identity < u.nextId && Below(r.methodId, u.methods.next)
         && Below(r.mechanismId, u.mechanisms.next) && Below(r.tokenId, u.tokens.next)
  {
    NamesGrow(t, info, u, id);
    if r in AclRows(u, id, info) { NewRowsAreBelow(t, info, u, id, r); }
  }

  lemma NewOwnersAreBelow(t: Tables, info: Info, u: Tables, id: nat, r: OwnerRow)
    requires WellFormed(t) && Updated(t, info, u, id) && r in OwnerRows(u.tokens, id, info)
    ensures r.identity == id && Below(r.tokenId, u.tokens.next) && NotTheEmptyToken(u.tokens, r)
  {
    InternedByUpdate(t, info, u, id);
    var n :| n in info.owners && n != "" && r.tokenId == u.tokens.Lookup(n);
    if r.tokenId == u.tokens.Lookup("") { InternedLookup(u.tokens, n, ""); }
  }

  lemma OldOwnersAreBelow(t: Tables, added: set<string>, tokens: Names, r: OwnerRow)
    requires WellFormed(t) && t.tokens.GrowsTo(tokens, added) && r in t.owners
    ensures Below(r.tokenId, tokens.next) && NotTheEmptyToken(tokens, r)
  {
    assert NotTheEmptyToken(t.tokens, r);
  }

  lemma OwnersStayBelow(t: Tables, info: Info, u: Tables, id: nat, r: OwnerRow)
    requires WellFormed(t) && Updated(t, info, u, id) && info.id < t.nextId && r in u.owners
    ensures r.identity < u.nextId && Below(r.tokenId, u.tokens.next) && NotTheEmptyToken(u.tokens, r)
  {
    if r in OwnerRows(u.tokens, id, info) {
      NewOwnersAreBelow(t, info, u, id, r);
    } else {
      NamesGrow(t, info, u, id);
      OldOwnersAreBelow(t, TokenNames(info), u.tokens, r);
    }
  }

  /** The tables stay well-formed as long as ids come from the table itself. */
  lemma UpdateStaysWellFormed(t: Tables, info: Info, u: Tables, id: nat)
    requires WellFormed(t) && Updated(t, info, u, id) && info.id < t.nextId
    ensures WellFormed(u)
  {
    InternedByUpdate(t, info, u, id);
    forall i | i in u.realms
      ensures i < u.nextId
    {
      if i != id { OtherRealms(t, info, u, id, i); }
    }
    forall r | r in u.acl
      ensures r.identity < u.nextId && Below(r.methodId, u.methods.next)
           && Below(r.mechanismId, u.mechanisms.next) && Below(r.tokenId, u.tokens.next)
    {
      AclStaysBelow(t, info, u, id, r);
    }
    forall r | r in u.owners
      ensures r.identity < u.nextId && Below(r.tokenId, u.tokens.next) && NotTheEmptyToken(u.tokens, r)
    {
      OwnersStayBelow(t, info, u, id, r);
    }
  }

  // An id that is not in the table: triggers on two of the tables roll back.

  /** A new record, a known id, or a record with nothing for the guarded tables. */
  predicate Accepted(t: Tables, info: Info) {
    info.IsNew() || info.id in t.credentials || (info.realms == [] && info.methods == map[] && info.acl == [])
  }

  /** What is left of an update that a trigger rolls back: nothing if that is seen at
      once, and otherwise the owner rows, which are written after the rollback. */
  function Refused(t: Tables, info: Info): Tables {
    if info.realms != [] then t else t.(owners := t.owners + OwnerRows(t.tokens, info.id, info))
  }

  /** `u` is a result of attempting an update; a refused one reports 0. */
  ghost predicate Attempted(t: Tables, info: Info, u: Tables, id: nat) {
    if Accepted(t, info) then Updated(t, info, u, id) else u == Refused(t, info) && id == 0
  }

  /** An unknown id changes no identity, whatever the record holds, and is reported
      exactly unless the record has nothing for the guarded tables. */
  lemma UnknownIdChangesNothing(t: Tables, info: Info, u: Tables, id: nat, other: nat)
    requires WellFormed(t) && Attempted(t, info, u, id) && !info.IsNew() && info.id !in t.credentials
    ensures ReadBack(u, other) == ReadBack(t, other)
    ensures id == 0 <==> !(info.realms == [] && info.methods == map[] && info.acl == [])
  {
    if Accepted(t, info) {
      RoundTrip(t, info, u, id);
      if other != id { OthersAreUntouched(t, info, u, id, other); }
    } else {
      assert RowsOf(u, other) == RowsOf(t, other);
      if other != info.id { assert OwnersOf(u, other) == OwnersOf(t, other); }
    }
  }

  /** A refused update without realms leaves its owner rows behind, as far as their tokens
      are known: they would belong to an identity that got this id. */
  lemma RefusedUpdateLeavesOwners(t: Tables, info: Info, u: Tables, id: nat, n: string)
    requires WellFormed(t) && Attempted(t, info, u, id) && !Accepted(t, info)
    ensures n in OwnersOf(u, info.id) <==>
            || n in OwnersOf(t, info.id)
            || (info.realms == [] && n in info.owners && n != "" && n in t.tokens.ids)
    ensures RowsOf(u, info.id) == RowsOf(t, info.id) && u.realms == t.realms && u.credentials == t.credentials
  {
    if n in t.tokens.ids { OwnerReadsBack(t.tokens, info.id, info, n); }
    assert RowsOf(u, info.id) == RowsOf(t, info.id);
  }

  /** The whole effect of an update that creates or finds its identity. */
  lemma UpdateEffect(t: Tables, info: Info, u: Tables, id: nat, other: nat)
    requires WellFormed(t) && Updated(t, info, u, id) && (info.IsNew() || info.id in t.credentials)
    ensures WellFormed(u) && ReadBack(u, id) == Some(ProfileOf(info))
    ensures id == (if info.IsNew() then t.nextId else info.id)
    ensures u.nextId == (if info.IsNew() then t.nextId + 1 else t.nextId)
    ensures other != id ==> ReadBack(u, other) == ReadBack(t, other)
  {
    RoundTrip(t, info, u, id);
    UpdateStaysWellFormed(t, info, u, id);
    if other != id { OthersAreUntouched(t, info, u, id, other); }
  }

  // Removing an identity.

  function Removed(t: Tables, id: nat): Tables {
    t.(credentials := t.credentials - {id},
       realms := t.realms - {id},
       acl := (set r | r in t.acl && r.identity != id),
       owners := (set r | r in t.owners && r.identity != id))
  }

  /** A removed identity is gone from every table and nothing else changes. */
  lemma RemovalIsClean(t: Tables, id: nat, other: nat)
    requires WellFormed(t)
    ensures WellFormed(Removed(t, id)) && ReadBack(Removed(t, id), id) == None
    ensures RowsOf(Removed(t, id), id) == {} && OwnersOf(Removed(t, id), id) == {}
    ensures RealmsAt(Removed(t, id).realms, id) == multiset{} && Removed(t, id).nextId == t.nextId
    ensures other != id ==> ReadBack(Removed(t, id), other) == ReadBack(t, other)
  {
    if other != id {
      assert RowsOf(Removed(t, id), other) == RowsOf(t, other);
      assert OwnersOf(Removed(t, id), other) == OwnersOf(t, other);
    }
  }
}
