/** The metadata database object: nested loops of single-row statements that
    together perform the update specified in MetaData. */
module MetaDataDB {
  import opened Options
  import opened Lists
  import opened Identity
  import opened MetaData

  lemma {:induction false} InsertedFurther(names: Names, a: seq<string>, b: seq<string>)
    ensures names.InsertAll(a).InsertAll(b) == names.InsertAll(a + b)
  {
    if b == [] {
      assert a + b == a;
    } else {
      var front := b[..|b| - 1];
      InsertedFurther(names, a, front);
      assert (a + b)[..|a + b| - 1] == a + front;
    }
  }

  lemma InsertedOneMore(names: Names, list: seq<string>, i: nat)
    requires i < |list|
    ensures names.InsertAll(list[..i + 1]) == names.InsertAll(list[..i]).InsertOrIgnore(list[i])
  {
    assert list[..i + 1][..i] == list[..i];
  }

  lemma ElementsOfBoth(a: seq<string>, b: seq<string>)
    ensures Elements(a + b) == Elements(a) + Elements(b)
  {
  }

  ghost function NamesUnder(info: Info, done: set<string>): set<string> {
    set m, k | m in done && m in info.methods && k in info.methods[m] :: k
  }

  lemma NamesUnderOneMore(info: Info, done: set<string>, m: string)
    requires m in info.methods
    ensures NamesUnder(info, done + {m}) == NamesUnder(info, done) + Elements(info.methods[m])
  {
  }

  lemma NamesUnderAll(info: Info)
    ensures NamesUnder(info, info.methods.Keys) == MechanismNames(info)
  {
  }

  /** The names of a list without the empty ones. */
  function NonEmpty(list: seq<string>): seq<string> {
    if list == [] then []
    else
      var last := list[|list| - 1];
      NonEmpty(list[..|list| - 1]) + (if last == "" then [] else [last])
  }

  lemma NonEmptyOneMore(list: seq<string>, i: nat)
    requires i < |list|
    ensures NonEmpty(list[..i + 1]) == if list[i] == "" then NonEmpty(list[..i]) else NonEmpty(list[..i]) + [list[i]]
  {
    assert list[..i + 1][..i] == list[..i];
  }

  lemma InsertedLast(names: Names, list: seq<string>, name: string)
    ensures names.InsertAll(list + [name]) == names.InsertAll(list).InsertOrIgnore(name)
  {
    assert (list + [name])[..|list|] == list;
  }

  lemma {:induction false} NonEmptyElements(list: seq<string>)
    ensures Elements(NonEmpty(list)) == Elements(list) - {""}
  {
    if list != [] {
      var front, last := list[..|list| - 1], list[|list| - 1];
      NonEmptyElements(front);
      ElementsOfFront(list);
      ElementsOfBoth(NonEmpty(front), if last == "" then [] else [last]);
      assert Elements([last]) == {last} && Elements<string>([]) == {};
    }
  }

  /** What the ghost orders of the two tables must become after one more method. */
  lemma OneMoreMethod(info: Info, order: seq<string>, mechOrder: seq<string>, m: string)
    requires m in info.methods && Elements(mechOrder) == NamesUnder(info, Elements(order))
    ensures Elements(order + [m]) == Elements(order) + {m}
    ensures Elements(mechOrder + info.methods[m]) == NamesUnder(info, Elements(order + [m]))
  {
    ElementsOfBoth(mechOrder, info.methods[m]);
    ElementsOfBoth(order, [m]);
    assert Elements([m]) == {m};
    NamesUnderOneMore(info, Elements(order), m);
  }

  function RowsOfMethod(id: nat, methodId: Option<nat>, mechanismIds: set<Option<nat>>,
                        tokenIds: set<Option<nat>>): set<AclRow> {
    set k, n | k in mechanismIds && n in tokenIds :: AclRow(id, methodId, k, n)
  }

  /** The part of the cross product that belongs to the methods already done. */
  ghost function RowsUnder(methods: Names, mechanisms: Names, tokens: Names, id: nat, info: Info,
                           done: set<string>): set<AclRow> {
    set m, k, n | m in done && m in info.methods && k in LookupAll(mechanisms, info.methods[m])
        && n in LookupAll(tokens, info.acl) ::
      AclRow(id, methods.Lookup(m), k, n)
  }

  lemma RowsUnderOneMore(methods: Names, mechanisms: Names, tokens: Names, id: nat, info: Info, done: set<string>,
                         m: string)
    requires m in info.methods
    ensures RowsUnder(methods, mechanisms, tokens, id, info, done + {m})
         == RowsUnder(methods, mechanisms, tokens, id, info, done)
          + RowsOfMethod(id, methods.Lookup(m), LookupAll(mechanisms, info.methods[m]), LookupAll(tokens, info.acl))
  {
  }

  lemma RowsUnderAll(methods: Names, mechanisms: Names, tokens: Names, id: nat, info: Info)
    ensures info.methods != map[] ==>
      RowsUnder(methods, mechanisms, tokens, id, info, info.methods.Keys)
          == CrossProduct(methods, mechanisms, tokens, id, info)
    ensures info.methods == map[] ==> RowsUnder(methods, mechanisms, tokens, id, info, info.methods.Keys) == {}
  {
  }

  /** A query result as a list, in whatever order the rows come. */
  method ListOf(names: set<string>) returns (list: seq<string>)
    ensures Elements(list) == names
  {
    list := [];
    var pending := names;
    while pending != {}
      invariant Elements(list) + pending == names
      decreases |pending|
    {
      var n :| n in pending;
      ElementsOfBoth(list, [n]);
      assert Elements([n]) == {n};
      list := list + [n];
      pending := pending - {n};
    }
  }

  method RealmList(realms: multiset<string>) returns (list: seq<string>)
    ensures multiset(list) == realms
  {
    list := [];
    var pending := realms;
    while pending != multiset{}
      invariant multiset(list) + pending == realms
      decreases |pending|
    {
      var r :| r in pending;
      list := list + [r];
      pending := pending - multiset{r};
    }
  }

  method MethodLists(methods: map<string, set<string>>) returns (lists: map<string, seq<string>>)
    ensures MethodSets(lists) == methods
  {
    lists := map[];
    var pending := methods.Keys;
    while pending != {}
      invariant pending <= methods.Keys
      invariant lists.Keys == methods.Keys - pending
      invariant forall m :: m in lists ==> Elements(lists[m]) == methods[m]
      decreases |pending|
    {
      var m :| m in pending;
      var mechanisms := ListOf(methods[m]);
      lists := lists[m := mechanisms];
      pending := pending - {m};
    }
  }

  lemma NoEmptyOwner(t: Tables, id: nat)
    requires WellFormed(t)
    ensures "" !in OwnersOf(t, id)
  {
  }

  /** `info` is a record that identity() may return. */
  ghost predicate Recorded(t: Tables, id: nat, info: Info) {
    match ReadBack(t, id)
    case None => info == BLANK
    case Some(p) =>
      && ProfileOf(info) == p
      && info.id == id && info.password == None
      && info.userName == if p.userNameSecret then None else Some(p.userName)
  }

  /** The parts of a successful update put together. */
  lemma MakeUpdated(t: Tables, info: Info, u: Tables, id: nat)
    requires id == (if info.IsNew() then t.nextId else info.id)
    requires u.nextId == (if info.IsNew() then t.nextId + 1 else t.nextId)
    requires u.credentials
            == (if info.IsNew() || id in t.credentials then t.credentials[id := RowFor(info)] else t.credentials)
    requires t.methods.Extends(u.methods, info.methods.Keys) && t.mechanisms.Extends(u.mechanisms, MechanismNames(info))
    requires t.tokens.Extends(u.tokens, TokenNames(info)) && u.realms - {id} == t.realms - {id}
    requires RealmsAt(u.realms, id)
            == (if info.IsNew() then RealmsAt(t.realms, id) else multiset{}) + multiset(info.realms)
    requires u.acl == (set r | r in t.acl && (info.IsNew() || r.identity != id))
                    + CrossProduct(u.methods, u.mechanisms, u.tokens, id, info)
    requires u.owners == (set r | r in t.owners && (info.IsNew() || r.identity != id)) + OwnerRows(u.tokens, id, info)
    ensures Updated(t, info, u, id)
  {
  }

  lemma RealmAdded(realms: map<nat, multiset<string>>, id: nat, kept: multiset<string>, list: seq<string>, i: nat)
    requires i < |list| && RealmsAt(realms, id) == kept + multiset(list[..i])
    ensures var added := RealmsAt(realms, id) + multiset{list[i]};
            added == kept + multiset(list[..i + 1]) && realms[id := added] - {id} == realms - {id}
  {
    assert list[..i + 1] == list[..i] + [list[i]];
  }

  class Database {
    var credentials: map<nat, CredentialsRow>
    var nextId: nat
    var methods: Names
    var mechanisms: Names
    var tokens: Names
    var realms: map<nat, multiset<string>>
    var acl: set<AclRow>
    var owners: set<OwnerRow>

    ghost function State(): Tables
      reads this
    {
      Tables(credentials, nextId, methods, mechanisms, tokens, realms, acl, owners)
    }

    constructor ()
      ensures WellFormed(State()) && State().credentials == map[]
    {
      credentials, nextId := map[], 1;
      methods, mechanisms, tokens := Names(map[], 1), Names(map[], 1), Names(map[], 1);
      realms, acl, owners := map[], {}, {};
    }

    method UpdateCredentials(info: Info) returns (id: nat)
      modifies this`credentials, this`nextId
      ensures id == (if info.IsNew() then old(nextId) else info.id)
      ensures nextId == (if info.IsNew() then old(nextId) + 1 else old(nextId))
      ensures credentials == (if info.IsNew() || id in old(credentials) then old(credentials)[id := RowFor(info)]
                              else old(credentials))
    {
      var flags := 0;
      if info.validated { flags := flags + 1; }
      if info.storePassword { flags := flags + 2; }
      if info.userNameSecret { flags := flags + 4; }
      var row := CredentialsRow(info.caption, if info.userNameSecret then "" else info.UserName(), flags, info.kind);
      if !info.IsNew() {
        id := info.id;
        if id in credentials {
          credentials := credentials[id := row];
        }
      } else {
        id := nextId;
        nextId := nextId + 1;
        credentials := credentials[id := row];
      }
    }

    method InsertMechanisms(list: seq<string>)
      modifies this`mechanisms
      ensures mechanisms == old(mechanisms).InsertAll(list)
    {
      for i := 0 to |list|
        invariant mechanisms == old(mechanisms).InsertAll(list[..i])
      {
        InsertedOneMore(old(mechanisms), list, i);
        mechanisms := mechanisms.InsertOrIgnore(list[i]);
      }
      assert list[..|list|] == list;
    }

    method InsertMethods(info: Info)
      modifies this`methods, this`mechanisms
      ensures old(methods).Extends(methods, info.methods.Keys)
      ensures old(mechanisms).Extends(mechanisms, MechanismNames(info))
    {
      var pending := info.methods.Keys;
      ghost var order: seq<string>, mechOrder: seq<string> := [], [];
      while pending != {}
        invariant Elements(order) + pending == info.methods.Keys
        invariant methods == old(methods).InsertAll(order)
        invariant mechanisms == old(mechanisms).InsertAll(mechOrder)
        invariant Elements(mechOrder) == NamesUnder(info, Elements(order))
        decreases |pending|
      {
        var m :| m in pending;
        methods := methods.InsertOrIgnore(m);
        InsertMechanisms(info.methods[m]);
        InsertedFurther(old(mechanisms), mechOrder, info.methods[m]);
        assert (order + [m])[..|order|] == order;
        OneMoreMethod(info, order, mechOrder, m);
        order, mechOrder := order + [m], mechOrder + info.methods[m];
        pending := pending - {m};
      }
      NamesUnderAll(info);
    }

    /** Fails when a trigger finds no identity for the first realm. */
    method UpdateRealms(id: nat, list: seq<string>, isNew: bool) returns (ok: bool)
      modifies this`realms
      ensures ok <==> id in credentials || list == []
      ensures ok ==> realms - {id} == old(realms) - {id}
      ensures ok ==> RealmsAt(realms, id) == (if isNew then RealmsAt(old(realms), id) else multiset{}) + multiset(list)
    {
      if !isNew {
        realms := realms - {id};
      }
      ghost var kept := RealmsAt(realms, id);
      if list != [] && id !in credentials { return false; }
      for i := 0 to |list|
        invariant RealmsAt(realms, id) == kept + multiset(list[..i])
        invariant realms - {id} == old(realms) - {id}
      {
        RealmAdded(realms, id, kept, list, i);
        realms := realms[id := RealmsAt(realms, id) + multiset{list[i]}];
      }
      assert list[..|list|] == list;
      return true;
    }

    method InsertTokens(list: seq<string>)
      modifies this`tokens
      ensures tokens == old(tokens).InsertAll(list)
    {
      for i := 0 to |list|
        invariant tokens == old(tokens).InsertAll(list[..i])
      {
        InsertedOneMore(old(tokens), list, i);
        tokens := tokens.InsertOrIgnore(list[i]);
      }
      assert list[..|list|] == list;
    }

    /** Owners without a name have no token. */
    method InsertOwnerTokens(list: seq<string>)
      modifies this`tokens
      ensures tokens == old(tokens).InsertAll(NonEmpty(list))
    {
      for i := 0 to |list|
        invariant tokens == old(tokens).InsertAll(NonEmpty(list[..i]))
      {
        NonEmptyOneMore(list, i);
        if list[i] != "" {
          InsertedLast(old(tokens), NonEmpty(list[..i]), list[i]);
          tokens := tokens.InsertOrIgnore(list[i]);
        }
      }
      assert list[..|list|] == list;
    }

    /** The rows of one method under one token, or under none. */
    method InsertMethodRows(id: nat, m: string, mechs: seq<string>, tokenId: Option<nat>)
      modifies this`acl
      ensures acl == old(acl) + RowsOfMethod(id, methods.Lookup(m), LookupAll(mechanisms, mechs), {tokenId})
    {
      for i := 0 to |mechs|
        invariant acl == old(acl)
                       + set k | k in mechs[..i] :: AclRow(id, methods.Lookup(m), mechanisms.Lookup(k), tokenId)
      {
        assert mechs[..i + 1] == mechs[..i] + [mechs[i]];
        acl := acl + {AclRow(id, methods.Lookup(m), mechanisms.Lookup(mechs[i]), tokenId)};
      }
      assert mechs[..|mechs|] == mechs;
      if mechs == [] {
        acl := acl + {AclRow(id, methods.Lookup(m), None, tokenId)};
      }
    }

    method InsertMethodAcl(id: nat, m: string, mechs: seq<string>, list: seq<string>)
      modifies this`acl
      ensures acl == old(acl)
              + RowsOfMethod(id, methods.Lookup(m), LookupAll(mechanisms, mechs), LookupAll(tokens, list))
    {
      if list != [] {
        ghost var done: set<Option<nat>> := {};
        for i := 0 to |list|
          invariant done == set n | n in list[..i] :: tokens.Lookup(n)
          invariant acl == old(acl) + RowsOfMethod(id, methods.Lookup(m), LookupAll(mechanisms, mechs), done)
        {
          assert list[..i + 1] == list[..i] + [list[i]];
          InsertMethodRows(id, m, mechs, tokens.Lookup(list[i]));
          done := done + {tokens.Lookup(list[i])};
        }
        assert list[..|list|] == list;
      } else {
        InsertMethodRows(id, m, mechs, None);
      }
    }

    method InsertAcl(id: nat, info: Info)
      modifies this`acl
      ensures acl == old(acl) + CrossProduct(methods, mechanisms, tokens, id, info)
    {
      var pending := info.methods.Keys;
      ghost var done: set<string> := {};
      while pending != {}
        invariant done + pending == info.methods.Keys
        invariant acl == old(acl) + RowsUnder(methods, mechanisms, tokens, id, info, done)
        decreases |pending|
      {
        var m :| m in pending;
        InsertMethodAcl(id, m, info.methods[m], info.acl);
        RowsUnderOneMore(methods, mechanisms, tokens, id, info, done, m);
        done := done + {m};
        pending := pending - {m};
      }
      assert done == info.methods.Keys;
      RowsUnderAll(methods, mechanisms, tokens, id, info);
      if info.methods == map[] {
        InsertTokenAcl(id, info.acl);
      }
    }

    /** The rows of an identity without methods. */
    method InsertTokenAcl(id: nat, list: seq<string>)
      modifies this`acl
      ensures acl == old(acl) + set n | n in list :: AclRow(id, None, None, tokens.Lookup(n))
    {
      for i := 0 to |list|
        invariant acl == old(acl) + set n | n in list[..i] :: AclRow(id, None, None, tokens.Lookup(n))
      {
        assert list[..i + 1] == list[..i] + [list[i]];
        acl := acl + {AclRow(id, None, None, tokens.Lookup(list[i]))};
      }
      assert list[..|list|] == list;
    }

    method InsertOwners(id: nat, info: Info)
      modifies this`owners
      ensures owners == old(owners) + OwnerRows(tokens, id, info)
    {
      var list := info.owners;
      for i := 0 to |list|
        invariant owners == old(owners) + set n | n in list[..i] && n != "" :: OwnerRow(id, tokens.Lookup(n))
      {
        assert list[..i + 1] == list[..i] + [list[i]];
        if list[i] != "" {
          owners := owners + {OwnerRow(id, tokens.Lookup(list[i]))};
        }
      }
      assert list[..|list|] == list;
    }

    /** All token names of the record. */
    method InsertTokenNames(info: Info)
      modifies this`tokens
      ensures old(tokens).Extends(tokens, TokenNames(info))
    {
      InsertTokens(info.acl);
      InsertOwnerTokens(info.owners);
      InsertedFurther(old(tokens), info.acl, NonEmpty(info.owners));
      ElementsOfBoth(info.acl, NonEmpty(info.owners));
      NonEmptyElements(info.owners);
    }

    /** The old rows of an existing identity go before the new ones come. */
    method ReplaceRows(id: nat, info: Info)
      requires !info.IsNew() ==> id == info.id
      modifies this`acl, this`owners
      ensures acl == (set r | r in old(acl) && (info.IsNew() || r.identity != id))
              + CrossProduct(methods, mechanisms, tokens, id, info)
      ensures owners == (set r | r in old(owners) && (info.IsNew() || r.identity != id)) + OwnerRows(tokens, id, info)
    {
      if !info.IsNew() {
        acl := set r | r in acl && r.identity != info.id;
        owners := set r | r in owners && r.identity != info.id;
      }
      assert acl == set r | r in old(acl) && (info.IsNew() || r.identity != id);
      assert owners == set r | r in old(owners) && (info.IsNew() || r.identity != id);
      InsertAcl(id, info);
      InsertOwners(id, info);
    }

    /** Credentials row, method names and realms. */
    method WriteRecord(info: Info) returns (id: nat, ok: bool)
      modifies this`credentials, this`nextId, this`methods, this`mechanisms, this`realms
      ensures id == (if info.IsNew() then old(nextId) else info.id)
      ensures nextId == (if info.IsNew() then old(nextId) + 1 else old(nextId))
      ensures credentials == (if info.IsNew() || id in old(credentials) then old(credentials)[id := RowFor(info)]
                              else old(credentials))
      ensures old(methods).Extends(methods, info.methods.Keys)
              && old(mechanisms).Extends(mechanisms, MechanismNames(info))
      ensures ok <==> info.IsNew() || info.id in old(credentials) || info.realms == []
      ensures ok ==> realms - {id} == old(realms) - {id}
      ensures ok ==>
        RealmsAt(realms, id) == (if info.IsNew() then RealmsAt(old(realms), id) else multiset{}) + multiset(info.realms)
    {
      id := UpdateCredentials(info);
      InsertMethods(info);
      ok := UpdateRealms(id, info.realms, info.IsNew());
    }

    /** Token names, access rows and owner rows. */
    method WriteRows(id: nat, info: Info) returns (ok: bool)
      requires !info.IsNew() ==> id == info.id
      modifies this`tokens, this`acl, this`owners
      ensures ok <==> id in credentials || (info.methods == map[] && info.acl == [])
      ensures old(tokens).Extends(tokens, TokenNames(info))
      ensures ok ==> acl == (set r | r in old(acl) && (info.IsNew() || r.identity != id))
                          + CrossProduct(methods, mechanisms, tokens, id, info)
      ensures ok ==>
        owners == (set r | r in old(owners) && (info.IsNew() || r.identity != id)) + OwnerRows(tokens, id, info)
    {
      InsertTokenNames(info);
      ok := id in credentials || (info.methods == map[] && info.acl == []);
      if ok {
        ReplaceRows(id, info);
      }
    }

    /** A refusal by the first realm ends the update; after one by an access row the
        owner rows are still written, outside the transaction that is gone. */
    method UpdateIdentity(info: Info) returns (id: nat)
      modifies this
      ensures Attempted(old(State()), info, State(), id)
    {
      var backup := Tables(credentials, nextId, methods, mechanisms, tokens, realms, acl, owners);
      var ok;
      id, ok := WriteRecord(info);
      if !ok {
        Rollback(backup);
        return 0;
      }
      ok := WriteRows(id, info);
      if !ok {
        Rollback(backup);
        InsertOwners(info.id, info);
        return 0;
      }
      MakeUpdated(backup, info, State(), id);
    }

    method Rollback(backup: Tables)
      modifies this
      ensures State() == backup
    {
      credentials, nextId, methods, mechanisms := backup.credentials, backup.nextId, backup.methods, backup.mechanisms;
      tokens, realms, acl, owners := backup.tokens, backup.realms, backup.acl, backup.owners;
    }

    /** The id of a method name, or 0. */
    method MethodId(name: string) returns (id: nat)
      requires WellFormed(State())
      ensures id == (if name in methods.ids then methods.ids[name] else 0)
      ensures id == 0 <==> methods.Lookup(name) == None
    {
      id := if name in methods.ids then methods.ids[name] else 0;
    }

    /** A new method name gets the next id. */
    method InsertMethod(name: string) returns (id: nat)
      requires name !in methods.ids
      modifies this`methods
      ensures methods == old(methods).InsertOrIgnore(name)
      ensures methods.Lookup(name) == Some(id)
    {
      methods := methods.InsertOrIgnore(name);
      id := methods.ids[name];
    }

    /** The record of an identity, or a blank one. */
    method Identity(id: nat) returns (info: Info)
      requires WellFormed(State())
      ensures Recorded(State(), id, info)
    {
      if id !in credentials { return BLANK; }
      var tables := Tables(credentials, nextId, methods, mechanisms, tokens, realms, acl, owners);
      var row := credentials[id];
      var secret := IsSet(row.flags, 4);
      var realmList := RealmList(RealmsAt(tables.realms, id));
      var ownerTokens := ListOf(OwnersOf(tables, id));
      var securityTokens := ListOf(TokensIn(RowsOf(tables, id), tokens));
      var methodLists := MethodLists(MethodsIn(RowsOf(tables, id), methods, mechanisms));
      var userName := if secret then None else Some(row.userName);
      info := Info(id, userName, None, secret, IsSet(row.flags, 2), IsSet(row.flags, 1),
                   row.caption, row.kind, methodLists, realmList, securityTokens, ownerTokens);
      NoEmptyOwner(tables, id);
      assert Elements(ownerTokens) - {""} == Elements(ownerTokens);
      assert ReadBack(tables, id) == Some(ProfileOf(info));
    }

    method RemoveIdentity(id: nat)
      modifies this
      ensures State() == Removed(old(State()), id)
    {
      credentials := credentials - {id};
      acl := set r | r in acl && r.identity != id;
      realms := realms - {id};
      owners := set r | r in owners && r.identity != id;
    }
  }
}
