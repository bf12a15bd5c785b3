/** The secrets database behind its cache, over whole runs: it opens and closes
    while credentials and data are written. */
module Vaults {
  import opened Options
  import opened Secrets
  import opened SecretsCache

  datatype Vaults = Vaults(open: bool, secrets: Vault, cache: Cache)

  /** `Open(false)` is a failed initialisation, which closes an open database. */
  datatype VaultEvent =
    | Write(id: nat, userName: string, password: string, storePassword: bool)
    | WriteData(id: nat, methodId: nat, data: Data)
    | Open(ok: bool)
    | Close
    | Remove(id: nat)

  function Written(s: Vaults, id: nat, userName: string, password: string, storePassword: bool): Vaults {
    if id == 0 then s
    else if storePassword && s.open then s.(secrets := CredentialsStored(s.secrets, id, Secret(userName, password)))
    else s.(cache := CredentialsCached(s.cache, id, userName, password, storePassword))
  }

  ghost function DataWritten(s: Vaults, id: nat, methodId: nat, data: Data): Vaults {
    if id == 0 then s
    else if s.open then s.(secrets := Stored(s.secrets, BlobKey(id, methodId), data))
    else s.(cache := DataCached(s.cache, id, methodId, data))
  }

  ghost function Opened(s: Vaults, ok: bool): Vaults {
    if ok then Vaults(true, Flushed(s.secrets, s.cache), map[]) else s.(open := false)
  }

  ghost function Step(s: Vaults, e: VaultEvent): Vaults {
    match e
    case Write(id, userName, password, storePassword) => Written(s, id, userName, password, storePassword)
    case WriteData(id, methodId, data) => DataWritten(s, id, methodId, data)
    case Open(ok) => Opened(s, ok)
    case Close => s.(open := false)
    case Remove(id) => if s.open then s.(secrets := CredentialsRemoved(s.secrets, id)) else s
  }

  ghost function After(s: Vaults, run: seq<VaultEvent>): Vaults {
    if run == [] then s else Step(After(s, run[..|run| - 1]), run[|run| - 1])
  }

  // Deferred writes against direct ones.

  predicate IsStoringWrite(e: VaultEvent) {
    match e
    case Write(id, _, _, storePassword) => id != 0 && storePassword
    case WriteData(id, _, _) => id != 0
    case _ => false
  }

  ghost predicate StoringWrites(run: seq<VaultEvent>) {
    forall i :: 0 <= i < |run| ==> IsStoringWrite(run[i])
  }

  function CredentialsAt(v: Vault, id: nat): Option<Secret> {
    if id in v.credentials then Some(v.credentials[id]) else None
  }

  /** The last credentials that a run writes for an identity. */
  function LastSecret(run: seq<VaultEvent>, id: nat): Option<Secret> {
    if run == [] then None
    else
      var e := run[|run| - 1];
      if e.Write? && e.id == id then Some(Secret(e.userName, e.password)) else LastSecret(run[..|run| - 1], id)
  }

  function LastData(run: seq<VaultEvent>, b: BlobKey): Option<Data> {
    if run == [] then None
    else
      var e := run[|run| - 1];
      if e.WriteData? && BlobKey(e.id, e.methodId) == b then Some(e.data) else LastData(run[..|run| - 1], b)
  }

  /** The last data below the size limit. */
  ghost function LastFitting(run: seq<VaultEvent>, b: BlobKey): Option<Data> {
    if run == [] then None
    else
      var e := run[|run| - 1];
      if e.WriteData? && BlobKey(e.id, e.methodId) == b && Fits(e.data) then Some(e.data)
      else LastFitting(run[..|run| - 1], b)
  }

  ghost predicate CacheHolds(cache: Cache, run: seq<VaultEvent>, id: nat) {
    var entry := EntryAt(cache, id);
    && (entry.userName, entry.password, entry.storePassword) ==
       (match LastSecret(run, id) case Some(s) => (s.userName, s.password, true) case None => ("", "", false))
    && forall m :: Waiting(cache, BlobKey(id, m)) == LastData(run, BlobKey(id, m))
  }

  /** A closed database leaves the last write of each kind in the cache. */
  lemma {:induction false} ClosedRun(v: Vault, run: seq<VaultEvent>, id: nat)
    requires StoringWrites(run)
    ensures var s := After(Vaults(false, v, map[]), run);
            !s.open && s.secrets == v && CacheHolds(s.cache, run, id)
  {
    if run != [] { ClosedRun(v, run[..|run| - 1], id); }
  }

  lemma {:induction false} OpenRun(v: Vault, run: seq<VaultEvent>, id: nat)
    requires StoringWrites(run)
    ensures var s := After(Vaults(true, v, map[]), run);
            && s.open && s.cache == map[]
            && CredentialsAt(s.secrets, id)
                 == if LastSecret(run, id).Some? then LastSecret(run, id) else CredentialsAt(v, id)
  {
    if run != [] { OpenRun(v, run[..|run| - 1], id); }
  }

  lemma {:induction false} OpenRunRows(v: Vault, run: seq<VaultEvent>, b: BlobKey)
    requires StoringWrites(run) && Canonical(v)
    ensures var w, fit := After(Vaults(true, v, map[]), run).secrets, LastFitting(run, b);
            Canonical(w) && RowsAt(w, b) == if fit.Some? then NonNull(fit.value) else RowsAt(v, b)
  {
    if run != [] {
      var front, e := run[..|run| - 1], run[|run| - 1];
      OpenRunRows(v, front, b);
      OpenRun(v, front, 0);
      if e.WriteData? {
        StoreDataIsAllOrNothing(After(Vaults(true, v, map[]), front).secrets, BlobKey(e.id, e.methodId), e.data, b);
      }
    }
  }

  /** What opening makes of the deferred credentials of one identity. */
  lemma DeferredCredentials(v: Vault, run: seq<VaultEvent>, id: nat)
    requires StoringWrites(run)
    ensures var w, last := Opened(After(Vaults(false, v, map[]), run), true).secrets, LastSecret(run, id);
            CredentialsAt(w, id) == if last.Some? && last.value != Secret("", "") then last else CredentialsAt(v, id)
  {
    ClosedRun(v, run, id);
  }

  lemma DeferredRows(v: Vault, run: seq<VaultEvent>, b: BlobKey)
    requires StoringWrites(run) && Canonical(v)
    ensures var w, last := Opened(After(Vaults(false, v, map[]), run), true).secrets, LastData(run, b);
            Canonical(w) && RowsAt(w, b) == if last.Some? && Fits(last.value) then NonNull(last.value) else RowsAt(v, b)
  {
    ClosedRun(v, run, b.identity);
    assert b == BlobKey(b.identity, b.methodId);
    FlushedRows(v, After(Vaults(false, v, map[]), run).cache, b);
  }

  /** The credentials that end up empty are empty already. */
  ghost predicate NothingErased(v: Vault, run: seq<VaultEvent>, id: nat) {
    LastSecret(run, id) == Some(Secret("", "")) ==> CredentialsAt(v, id) == Some(Secret("", ""))
  }

  /** Data over the limit hides no earlier data that was within it. */
  ghost predicate NothingHidden(v: Vault, run: seq<VaultEvent>, b: BlobKey) {
    var last, fit := LastData(run, b), LastFitting(run, b);
    last.Some? && !Fits(last.value) && fit.Some? ==> NonNull(fit.value) == RowsAt(v, b)
  }

  lemma {:induction false} FittingIsLast(run: seq<VaultEvent>, b: BlobKey)
    ensures var last := LastData(run, b);
            && (last == None ==> LastFitting(run, b) == None)
            && (last.Some? && Fits(last.value) ==> LastFitting(run, b) == last)
  {
    if run != [] { FittingIsLast(run[..|run| - 1], b); }
  }

  lemma SameCredentials(v: Vault, w: Vault)
    requires forall id :: CredentialsAt(v, id) == CredentialsAt(w, id)
    ensures v.credentials == w.credentials
  {
    forall id
      ensures id in v.credentials <==> id in w.credentials
      ensures id in v.credentials ==> v.credentials[id] == w.credentials[id]
    {
      assert CredentialsAt(v, id) == CredentialsAt(w, id);
    }
  }

  /** Writing while the database is closed and then opening it gives the same
      tables as writing to it directly, whatever the hash order, exactly when no
      identity's last write empties stored credentials and no oversized last data
      hides a fitting one. */
  lemma DeferredRefinesDirect(v: Vault, run: seq<VaultEvent>)
    requires StoringWrites(run) && Canonical(v)
    ensures Opened(After(Vaults(false, v, map[]), run), true) == After(Vaults(true, v, map[]), run) <==>
            (forall id :: NothingErased(v, run, id)) && (forall b :: NothingHidden(v, run, b))
  {
    var deferred, direct := Opened(After(Vaults(false, v, map[]), run), true), After(Vaults(true, v, map[]), run);
    forall id
      ensures CredentialsAt(deferred.secrets, id) == CredentialsAt(direct.secrets, id) <==> NothingErased(v, run, id)
    {
      OpenRun(v, run, id);
      DeferredCredentials(v, run, id);
    }
    forall b
      ensures Canonical(deferred.secrets) && Canonical(direct.secrets)
      ensures RowsAt(deferred.secrets, b) == RowsAt(direct.secrets, b) <==> NothingHidden(v, run, b)
    {
      OpenRunRows(v, run, b);
      DeferredRows(v, run, b);
      FittingIsLast(run, b);
    }
    OpenRun(v, run, 0);
    OpenRunRows(v, run, BlobKey(0, 0));
    DeferredRows(v, run, BlobKey(0, 0));
    if (forall id :: NothingErased(v, run, id)) && (forall b :: NothingHidden(v, run, b)) {
      SameCredentials(deferred.secrets, direct.secrets);
      SameQueries(deferred.secrets, direct.secrets);
    }
  }

  /** A cached entry with both fields empty never overwrites what is stored. */
  lemma EmptyEntryOverwritesNothing(v: Vault, cache: Cache, id: nat)
    requires EntryAt(cache, id).userName == "" && EntryAt(cache, id).password == ""
    ensures CredentialsAt(Flushed(v, cache), id) == CredentialsAt(v, id)
  {
  }

  // Only storable passwords persist.

  /** An update that allowed storing supplied this password. */
  ghost predicate Supplied(run: seq<VaultEvent>, id: nat, password: string) {
    exists i :: 0 <= i < |run| && run[i].Write? && run[i].id == id && run[i].storePassword
        && run[i].password == password
  }

  ghost predicate Accounted(s: Vaults, run: seq<VaultEvent>) {
    && (forall id :: id in s.secrets.credentials && s.secrets.credentials[id].password != "" ==>
          Supplied(run, id, s.secrets.credentials[id].password))
    && (forall id :: id in s.cache && s.cache[id].storePassword ==> Supplied(run, id, s.cache[id].password))
  }

  lemma SuppliedLater(run: seq<VaultEvent>, e: VaultEvent, id: nat, password: string)
    requires Supplied(run, id, password) || (e.Write? && e.id == id && e.storePassword && e.password == password)
    ensures Supplied(run + [e], id, password)
  {
    if Supplied(run, id, password) {
      var i :| 0 <= i < |run| && run[i].Write? && run[i].id == id && run[i].storePassword
          && run[i].password == password;
      assert (run + [e])[i] == run[i];
    } else {
      assert (run + [e])[|run|] == e;
    }
  }

  lemma AccountedLater(s: Vaults, run: seq<VaultEvent>, e: VaultEvent)
    requires Accounted(s, run)
    ensures Accounted(Step(s, e), run + [e])
  {
    var t := Step(s, e);
    forall id | id in t.secrets.credentials && t.secrets.credentials[id].password != ""
      ensures Supplied(run + [e], id, t.secrets.credentials[id].password)
    {
      SuppliedLater(run, e, id, t.secrets.credentials[id].password);
    }
    forall id | id in t.cache && t.cache[id].storePassword
      ensures Supplied(run + [e], id, t.cache[id].password)
    {
      SuppliedLater(run, e, id, t.cache[id].password);
    }
  }

  /** Over every interleaving of writes, openings, closings and removals from an
      empty store, a stored password was supplied for that identity by an update
      that allowed storing it. */
  lemma {:induction false} OnlyStorablePasswordsPersist(open: bool, run: seq<VaultEvent>)
    ensures Accounted(After(Vaults(open, Vault(map[], map[]), map[]), run), run)
  {
    if run != [] {
      var front, e := run[..|run| - 1], run[|run| - 1];
      OnlyStorablePasswordsPersist(open, front);
      AccountedLater(After(Vaults(open, Vault(map[], map[]), map[]), front), front, e);
      assert run == front + [e];
    }
  }
}
