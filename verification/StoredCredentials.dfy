/** What was written to the credentials database is read back, whether or not a password may
    be stored and whether or not the secrets database is open; and what becomes of it when
    the secrets database is opened, or the identity removed. */
module StoredCredentials {
  import opened Options
  import opened Identity
  import opened MetaData
  import opened Secrets
  import opened SecretsCache
  import opened Vaults
  import opened CredentialsDB

  lemma ReadableWasAccepted(s: Store, info: Info, t: Store, id: nat)
    requires Sound(s) && CredentialsUpdated(s, info, t, id) && ReadBack(t.tables, id).Some?
    ensures id != 0 && Updated(s.tables, info, t.tables, id) && ReadBack(t.tables, id) == Some(ProfileOf(info))
    ensures t.vaults == SecretsUpdated(s.vaults, info, id)
  {
    if Accepted(s.tables, info) { RoundTrip(s.tables, info, t.tables, id); }
  }

  /** The record of an identity that was just written comes back: its profile, its user
      name, secret or not, and its password; without secrets of its own, those that were
      found before. */
  lemma ReadAfterWrite(s: Store, info: Info, t: Store, id: nat, r: Info)
    requires Sound(s) && CredentialsUpdated(s, info, t, id) && ReadBack(t.tables, id).Some? && Loaded(t, id, r)
    ensures r.id == id && ProfileOf(r) == ProfileOf(info)
    ensures info.userName.Some? ==> r.userName == info.userName
    ensures info.password.Some? ==> r.password == info.password
    ensures info.HasSecrets() ==> r.password == Some(info.Password()) && r.userName == Some(info.UserName())
    ensures !info.HasSecrets() ==> r.password == Some(LoadedSecret(s.vaults, id, info.storePassword).password)
    ensures !info.userNameSecret ==> r.userName == Some(info.UserName())
  {
    ReadableWasAccepted(s, info, t, id);
  }

  /** What is read of another identity stays. */
  lemma WritingLeavesOthers(s: Store, info: Info, t: Store, id: nat, other: nat, r: Info)
    requires Sound(s) && CredentialsUpdated(s, info, t, id) && other != id
    ensures Loaded(t, other, r) <==> Loaded(s, other, r)
  {
    if !info.IsNew() && info.id !in s.tables.credentials {
      UnknownIdChangesNothing(s.tables, info, t.tables, id, other);
    } else {
      OthersAreUntouched(s.tables, info, t.tables, id, other);
    }
    SecretsElsewhere(s.vaults, info, id, other, true);
    SecretsElsewhere(s.vaults, info, id, other, false);
    assert t.vaults == s.vaults || t.vaults == SecretsUpdated(s.vaults, info, id);
    SameLoaded(s, t, other, r);
  }

  lemma SecretsElsewhere(v: Vaults, info: Info, id: nat, other: nat, storePassword: bool)
    requires other != id
    ensures LoadedSecret(SecretsUpdated(v, info, id), other, storePassword) == LoadedSecret(v, other, storePassword)
  {
  }

  lemma SameLoaded(s: Store, t: Store, id: nat, r: Info)
    requires ReadBack(t.tables, id) == ReadBack(s.tables, id)
    requires LoadedSecret(t.vaults, id, true) == LoadedSecret(s.vaults, id, true)
    requires LoadedSecret(t.vaults, id, false) == LoadedSecret(s.vaults, id, false)
    ensures Loaded(t, id, r) <==> Loaded(s, id, r)
  {
  }

  // Opening the secrets database.

  ghost function Reopened(s: Store): Store {
    s.(vaults := Opened(s.vaults, true))
  }

  /** What the next opening makes of the secrets of an identity. */
  ghost function FlushedSecret(v: Vaults, id: nat): Secret {
    match Persistable(EntryAt(v.cache, id))
    case Some(waiting) => waiting
    case None => if id in v.secrets.credentials then v.secrets.credentials[id] else Secret("", "")
  }

  /** After an opening a password that may not be stored is forgotten, and any other is
      what waited in the cache, if anything did, or else what was stored. */
  lemma ReadAfterOpening(s: Store, id: nat, r: Info)
    requires ReadBack(s.tables, id).Some? && Loaded(Reopened(s), id, r)
    ensures var p, secret := ReadBack(s.tables, id).value, FlushedSecret(s.vaults, id);
            && r.id == id && ProfileOf(r) == p
            && r.password == Some(if p.storePassword then secret.password else "")
            && r.userName == Some(if !p.userNameSecret then p.userName
                                  else if p.storePassword then secret.userName else "")
  {
  }

  /** An opening that fails closes the secrets database, and then only the cache is read. */
  lemma ReadAfterFailedOpening(s: Store, id: nat, r: Info)
    requires ReadBack(s.tables, id).Some? && Loaded(s.(vaults := Opened(s.vaults, false)), id, r)
    ensures r.password == Some(EntryAt(s.vaults.cache, id).password)
    ensures ReadBack(s.tables, id).value.userNameSecret ==> r.userName == Some(EntryAt(s.vaults.cache, id).userName)
  {
  }

  /** The secrets of a record that may be stored, as the table keeps them. */
  function SecretIn(info: Info): Secret {
    Secret(if info.userNameSecret then info.UserName() else "", info.Password())
  }

  /** A write of secrets that may be stored has been lost by the next opening exactly when
      it was made to the open database while the cache still held others of the same
      identity, or was empty and made to the closed one while others were stored. */
  lemma StoredSurvivesOpening(s: Store, info: Info, t: Store, id: nat)
    requires Sound(s) && CredentialsUpdated(s, info, t, id) && ReadBack(t.tables, id).Some?
    requires info.HasSecrets() && info.storePassword
    ensures FlushedSecret(t.vaults, id) != SecretIn(info) <==>
            if s.vaults.open then
              var waiting := Persistable(EntryAt(s.vaults.cache, id)); waiting.Some? && waiting.value != SecretIn(info)
            else
              && SecretIn(info) == Secret("", "") && id in s.vaults.secrets.credentials
              && s.vaults.secrets.credentials[id] != SecretIn(info)
  {
    ReadableWasAccepted(s, info, t, id);
  }

  // Removal.

  ghost function Without(s: Store, id: nat): Store {
    Store(Removed(s.tables, id), Step(s.vaults, Remove(id)))
  }

  /** A removed identity reads as blank, and nothing of it is left in the secrets database;
      what is read of others stays. */
  lemma RemovalLeavesNoSecrets(s: Store, id: nat, other: nat, b: BlobKey, r: Info)
    requires Sound(s) && s.vaults.open
    ensures var t := Without(s, id);
            && (Loaded(t, id, r) <==> r == BLANK)
            && id !in t.vaults.secrets.credentials && (b.identity == id ==> RowsAt(t.vaults.secrets, b) == map[])
            && (other != id ==> (Loaded(t, other, r) <==> Loaded(s, other, r)))
            && (b.identity != id ==> RowsAt(t.vaults.secrets, b) == RowsAt(s.vaults.secrets, b))
  {
    RemovalIsClean(s.tables, id, other);
    RemovalIsClean(s.tables, id, id);
    if other != id { SameLoaded(s, Without(s, id), other, r); }
  }

  /** The cache is not looked at: a secret that waits there, as the user name of an identity
      that does not store passwords, is written for the removed identity by the next
      opening; and nothing else is. */
  lemma RemovedSecretReturnsExactlyWhen(s: Store, id: nat)
    requires Sound(s) && s.vaults.open
    ensures id in Reopened(Without(s, id)).vaults.secrets.credentials
            <==> Persistable(EntryAt(s.vaults.cache, id)).Some?
  {
  }

  // Data of the methods.

  /** Data is kept only under method names that are in the tables. */
  ghost predicate DataKnown(s: Store) {
    && (forall b :: b in s.vaults.secrets.store ==> b.methodId < s.tables.methods.next)
    && (forall b :: b in CachedKeys(s.vaults.cache) ==> b.methodId < s.tables.methods.next)
  }

  lemma SameName(names: Names, name: string, other: string)
    requires names.WellFormed()
    ensures var grown := names.InsertOrIgnore(name);
            && grown.WellFormed() && names.next <= grown.next
            && (other != name ==> grown.Lookup(other) == names.Lookup(other))
            && (other in grown.ids && grown.ids[other] == grown.ids[name] ==> other == name)
            && (name !in names.ids ==> grown.ids[name] == names.next)
  {
  }

  /** What is stored for one method is loaded again: exactly if the database is closed, and
      without null values and only if it fits if it is open; and all other data stays. */
  lemma DataReadAfterWrite(s: Store, id: nat, name: string, data: Data, other: nat, otherName: string)
    requires Sound(s) && DataKnown(s) && id != 0
    ensures var t := BlobStored(s, id, name, data);
            && LoadedData(t, id, name) == (if !s.vaults.open then data
                                           else if Fits(data) then NonNull(data) else LoadedData(s, id, name))
            && ((other, otherName) != (id, name) ==> LoadedData(t, other, otherName) == LoadedData(s, other, otherName))
  {
    var t, methods := BlobStored(s, id, name, data), s.tables.methods.InsertOrIgnore(name);
    SameName(s.tables.methods, name, otherName);
    var b := BlobKey(id, methods.ids[name]);
    StoredOrCached(s.vaults, b, data, b);
    if otherName in methods.ids { StoredOrCached(s.vaults, b, data, BlobKey(other, methods.ids[otherName])); }
    assert name !in s.tables.methods.ids ==> b !in s.vaults.secrets.store;
  }

  /** Without an identity nothing is stored and nothing loaded. */
  lemma NoDataWithoutIdentity(s: Store, name: string, data: Data)
    ensures BlobStored(s, 0, name, data) == s && LoadedData(s, 0, name) == map[]
  {
  }

  /** The data under a key, in the database or in the cache. */
  function DataAt(v: Vaults, b: BlobKey): Data {
    if v.open then RowsAt(v.secrets, b)
    else
      var waiting := Waiting(v.cache, b);
      if waiting.Some? then waiting.value else map[]
  }

  lemma StoredOrCached(v: Vaults, b: BlobKey, data: Data, c: BlobKey)
    requires Canonical(v.secrets) && b.identity != 0
    ensures DataAt(DataWritten(v, b.identity, b.methodId, data), c)
         == if c != b then DataAt(v, c)
            else if !v.open then data else if Fits(data) then NonNull(data) else DataAt(v, c)
  {
    if v.open { StoreDataIsAllOrNothing(v.secrets, b, data, c); }
  }

  lemma DataStaysKnown(s: Store, id: nat, name: string, data: Data)
    requires Sound(s) && DataKnown(s)
    ensures DataKnown(BlobStored(s, id, name, data))
  {
    SameName(s.tables.methods, name, name);
    if id != 0 {
      var t, b := BlobStored(s, id, name, data), BlobKey(id, s.tables.methods.InsertOrIgnore(name).ids[name]);
      assert forall c :: c in t.vaults.secrets.store ==> c in s.vaults.secrets.store || c == b;
      assert forall c :: c in CachedKeys(t.vaults.cache) ==> c in CachedKeys(s.vaults.cache) || c == b;
    }
  }

  lemma OpeningKeepsDataKnown(s: Store)
    requires DataKnown(s)
    ensures DataKnown(Reopened(s))
  {
  }

  lemma RemovalKeepsDataKnown(s: Store, id: nat)
    requires DataKnown(s)
    ensures DataKnown(Without(s, id))
  {
  }

  lemma UpdateKeepsDataKnown(s: Store, info: Info, t: Store, id: nat)
    requires Sound(s) && DataKnown(s) && CredentialsUpdated(s, info, t, id)
    ensures DataKnown(t)
  {
    SecretsKeepKeys(s.vaults, info, id);
    MethodsOnlyGrow(s.tables, info, t.tables, id);
    SameKeys(s.vaults, t.vaults);
  }

  lemma SecretsKeepKeys(v: Vaults, info: Info, id: nat)
    ensures var w := SecretsUpdated(v, info, id);
            w.secrets.store == v.secrets.store && forall b :: Waiting(w.cache, b) == Waiting(v.cache, b)
  {
  }

  lemma MethodsOnlyGrow(t: Tables, info: Info, u: Tables, id: nat)
    requires WellFormed(t) && Attempted(t, info, u, id)
    ensures t.methods.next <= u.methods.next
  {
    if Accepted(t, info) { NamesGrow(t, info, u, id); }
  }

  lemma SameKeys(v: Vaults, w: Vaults)
    requires forall b :: Waiting(w.cache, b) == Waiting(v.cache, b)
    ensures CachedKeys(w.cache) == CachedKeys(v.cache)
  {
    forall b
      ensures b in CachedKeys(w.cache) <==> b in CachedKeys(v.cache)
    {
      assert b in CachedKeys(w.cache) <==> Waiting(w.cache, b).Some?;
      assert b in CachedKeys(v.cache) <==> Waiting(v.cache, b).Some?;
    }
  }
}
