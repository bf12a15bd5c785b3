/** The memory cache that stands in for a closed secrets database, and its flush
    when the database is opened. */
module SecretsCache {
  import opened Options
  import opened Secrets

  datatype AuthCache = AuthCache(userName: string, password: string, storePassword: bool, blobData: map<nat, Data>)

  type Cache = map<nat, AuthCache>

  const FRESH := AuthCache("", "", false, map[])

  function EntryAt(cache: Cache, id: nat): AuthCache {
    if id in cache then cache[id] else FRESH
  }

  function CredentialsCached(cache: Cache, id: nat, userName: string, password: string, storePassword: bool): Cache {
    if id == 0 then cache
    else cache[id := AuthCache(userName, password, storePassword, EntryAt(cache, id).blobData)]
  }

  function DataCached(cache: Cache, id: nat, methodId: nat, data: Data): Cache {
    if id == 0 then cache
    else
      var entry := EntryAt(cache, id);
      cache[id := entry.(blobData := entry.blobData[methodId := data])]
  }

  /** What a flush writes for one entry, if anything: a password only when it may be
      stored, and no row when both fields are empty. */
  function Persistable(entry: AuthCache): Option<Secret> {
    var password := if entry.storePassword then entry.password else "";
    if entry.userName != "" || password != "" then Some(Secret(entry.userName, password)) else None
  }

  /** The data waiting for one identity and method, if any. */
  function Waiting(cache: Cache, b: BlobKey): Option<Data> {
    if b.identity in cache && b.methodId in cache[b.identity].blobData
    then Some(cache[b.identity].blobData[b.methodId]) else None
  }

  function CachedKeys(cache: Cache): set<BlobKey> {
    BlobsOfAll(cache, cache.Keys)
  }

  function BlobsOfAll(cache: Cache, ids: set<nat>): set<BlobKey> {
    set id, m | id in ids && id in cache && m in cache[id].blobData :: BlobKey(id, m)
  }

  ghost function RowsAfterFlush(v: Vault, cache: Cache, b: BlobKey): Data {
    var waiting := Waiting(cache, b);
    if waiting.Some? && Fits(waiting.value) then NonNull(waiting.value) else RowsAt(v, b)
  }

  function CredentialsAfterFlush(v: Vault, cache: Cache): map<nat, Secret> {
    CredentialsFlushed(v, cache, cache.Keys)
  }

  function CredentialsFlushed(v: Vault, cache: Cache, ids: set<nat>): map<nat, Secret> {
    v.credentials + map id | id in ids && id in cache && Persistable(cache[id]).Some? :: Persistable(cache[id]).value
  }

  /** The flush as one simultaneous update, with no order in it. */
  ghost function Flushed(v: Vault, cache: Cache): Vault {
    Vault(CredentialsAfterFlush(v, cache),
          map b | b in v.store.Keys + CachedKeys(cache) && RowsAfterFlush(v, cache, b) != map[] ::
            RowsAfterFlush(v, cache, b))
  }

  /** Two databases are the same when every query answers the same. */
  lemma SameQueries(v: Vault, w: Vault)
    requires Canonical(v) && Canonical(w)
    requires v.credentials == w.credentials
    requires forall b :: RowsAt(v, b) == RowsAt(w, b)
    ensures v == w
  {
    forall b
      ensures b in v.store <==> b in w.store
    {
      assert RowsAt(v, b) == RowsAt(w, b);
    }
    forall b | b in v.store
      ensures v.store[b] == w.store[b]
    {
      assert RowsAt(v, b) == RowsAt(w, b);
    }
    assert v.store == w.store;
  }

  lemma FlushedRows(v: Vault, cache: Cache, b: BlobKey)
    requires Canonical(v)
    ensures Canonical(Flushed(v, cache)) && RowsAt(Flushed(v, cache), b) == RowsAfterFlush(v, cache, b)
  {
    if Waiting(cache, b).Some? { assert b in CachedKeys(cache); }
  }

  /** Part of a flush: the blobs in `done` have been handled, the others not yet. */
  ghost predicate BlobsFlushed(v: Vault, cache: Cache, w: Vault, done: set<BlobKey>) {
    && Canonical(w)
    && forall b :: RowsAt(w, b) == if b in done then RowsAfterFlush(v, cache, b) else RowsAt(v, b)
  }

  function BlobsOf(cache: Cache, id: nat): set<BlobKey> {
    set m | id in cache && m in cache[id].blobData :: BlobKey(id, m)
  }

  lemma FlushBlob(v: Vault, cache: Cache, w: Vault, done: set<BlobKey>, b: BlobKey)
    requires BlobsFlushed(v, cache, w, done) && Waiting(cache, b).Some?
    ensures BlobsFlushed(v, cache, Stored(w, b, Waiting(cache, b).value), done + {b})
  {
    forall c
      ensures RowsAt(Stored(w, b, Waiting(cache, b).value), c) ==
              if c in done + {b} then RowsAfterFlush(v, cache, c) else RowsAt(v, c)
    {
      StoreDataIsAllOrNothing(w, b, Waiting(cache, b).value, c);
    }
    StoreDataIsAllOrNothing(w, b, Waiting(cache, b).value, b);
  }

  /** The entries of `ids` have been written, credentials and blobs. */
  ghost predicate EntriesFlushed(v: Vault, cache: Cache, w: Vault, ids: set<nat>) {
    w.credentials == CredentialsFlushed(v, cache, ids) && BlobsFlushed(v, cache, w, BlobsOfAll(cache, ids))
  }

  lemma NoneFlushed(v: Vault, cache: Cache)
    requires Canonical(v)
    ensures EntriesFlushed(v, cache, v, {})
  {
    assert CredentialsFlushed(v, cache, {}) == v.credentials;
  }

  lemma BlobsOfOneMore(cache: Cache, ids: set<nat>, id: nat)
    ensures BlobsOfAll(cache, ids + {id}) == BlobsOfAll(cache, ids) + BlobsOf(cache, id)
  {
  }

  /** When every entry has been written the order no longer shows. */
  lemma AllFlushed(v: Vault, cache: Cache, w: Vault)
    requires Canonical(v) && EntriesFlushed(v, cache, w, cache.Keys)
    ensures w == Flushed(v, cache)
  {
    forall b
      ensures RowsAt(w, b) == RowsAt(Flushed(v, cache), b)
    {
      FlushedRows(v, cache, b);
      if Waiting(cache, b).Some? { assert b in CachedKeys(cache); }
    }
    FlushedRows(v, cache, BlobKey(0, 0));
    SameQueries(w, Flushed(v, cache));
  }

  lemma FlushOneMore(v: Vault, cache: Cache, ids: set<nat>, id: nat)
    requires id in cache
    ensures var secret := Persistable(cache[id]);
            CredentialsFlushed(v, cache, ids + {id}) ==
            if secret.Some? then CredentialsFlushed(v, cache, ids)[id := secret.value]
                else CredentialsFlushed(v, cache, ids)
  {
  }

  class MemoryCache {
    var cache: Cache

    constructor ()
      ensures cache == map[]
    {
      cache := map[];
    }

    method LookupCredentials(id: nat) returns (secret: Secret)
      ensures secret == Secret(EntryAt(cache, id).userName, EntryAt(cache, id).password)
    {
      secret := if id in cache then Secret(cache[id].userName, cache[id].password) else Secret("", "");
    }

    method LookupData(id: nat, methodId: nat) returns (data: Data)
      ensures data == match Waiting(cache, BlobKey(id, methodId)) case Some(d) => d case None => map[]
    {
      data := if id in cache && methodId in cache[id].blobData then cache[id].blobData[methodId] else map[];
    }

    method UpdateCredentials(id: nat, userName: string, password: string, storePassword: bool)
      modifies this
      ensures cache == CredentialsCached(old(cache), id, userName, password, storePassword)
    {
      if id == 0 { return; }
      var entry := EntryAt(cache, id);
      cache := cache[id := entry.(userName := userName, password := password, storePassword := storePassword)];
    }

    method UpdateData(id: nat, methodId: nat, data: Data)
      modifies this
      ensures cache == DataCached(old(cache), id, methodId, data)
    {
      if id == 0 { return; }
      var entry := EntryAt(cache, id);
      cache := cache[id := entry.(blobData := entry.blobData[methodId := data])];
    }

    /** Entries and their blobs are written one by one, in whatever order the hash
        tables give. */
    method StoreToDB(db: SecretsDB)
      requires Canonical(db.State())
      modifies db
      ensures db.State() == Flushed(old(db.State()), cache)
    {
      ghost var v := db.State();
      NoneFlushed(v, cache);
      var pending := cache.Keys;
      ghost var done: set<nat> := {};
      while pending != {}
        invariant done + pending == cache.Keys
        invariant EntriesFlushed(v, cache, db.State(), done)
        decreases |pending|
      {
        var id :| id in pending;
        StoreEntry(db, id, v, done);
        done := done + {id};
        pending := pending - {id};
      }
      AllFlushed(v, cache, db.State());
    }

    method StoreEntry(db: SecretsDB, id: nat, ghost v: Vault, ghost done: set<nat>)
      requires EntriesFlushed(v, cache, db.State(), done) && id in cache
      modifies db
      ensures EntriesFlushed(v, cache, db.State(), done + {id})
    {
      var entry := cache[id];
      var password := if entry.storePassword then entry.password else "";
      FlushOneMore(v, cache, done, id);
      BlobsOfOneMore(cache, done, id);
      if entry.userName != "" || password != "" {
        db.UpdateCredentials(id, entry.userName, password);
      }
      StoreBlobs(db, id, v, BlobsOfAll(cache, done));
    }

    method StoreBlobs(db: SecretsDB, id: nat, ghost v: Vault, ghost blobs: set<BlobKey>)
      requires BlobsFlushed(v, cache, db.State(), blobs) && id in cache
      modifies db
      ensures BlobsFlushed(v, cache, db.State(), blobs + BlobsOf(cache, id))
      ensures db.State().credentials == old(db.State()).credentials
    {
      var pending := cache[id].blobData.Keys;
      ghost var done := blobs;
      while pending != {}
        invariant pending <= cache[id].blobData.Keys
        invariant done == blobs + set m | m in cache[id].blobData && m !in pending :: BlobKey(id, m)
        invariant BlobsFlushed(v, cache, db.State(), done)
        invariant db.State().credentials == old(db.State()).credentials
        decreases |pending|
      {
        var methodId :| methodId in pending;
        FlushBlob(v, cache, db.State(), done, BlobKey(id, methodId));
        var _ := db.StoreData(id, methodId, cache[id].blobData[methodId]);
        done := done + {BlobKey(id, methodId)};
        pending := pending - {methodId};
      }
    }

    method Clear()
      modifies this
      ensures cache == map[]
    {
      cache := map[];
    }
  }
}
