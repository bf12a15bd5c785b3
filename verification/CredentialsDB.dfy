/** The credentials database: metadata tables, the secrets database and its cache
    behind one interface. */
module CredentialsDB {
  import opened Options
  import opened Identity
  import opened MetaData
  import opened MetaDataDB
  import opened Secrets
  import opened SecretsCache
  import opened Vaults

  datatype Store = Store(tables: Tables, vaults: Vaults)

  ghost predicate Sound(s: Store) {
    WellFormed(s.tables) && Canonical(s.vaults.secrets)
  }

  /** The user name and password that a query finds: from the database when it is
      open and they belong there, else from the cache. */
  function LoadedSecret(v: Vaults, id: nat, storePassword: bool): Secret {
    if storePassword && v.open then
      if id in v.secrets.credentials then v.secrets.credentials[id] else Secret("", "")
    else Secret(EntryAt(v.cache, id).userName, EntryAt(v.cache, id).password)
  }

  /** `info` is a record that credentials() may return. */
  ghost predicate Loaded(s: Store, id: nat, info: Info) {
    match ReadBack(s.tables, id)
    case None => info == BLANK
    case Some(p) =>
      var secret := LoadedSecret(s.vaults, id, p.storePassword);
      && ProfileOf(info) == p && info.id == id
      && info.userName == Some(if p.userNameSecret then secret.userName else p.userName)
      && info.password == Some(secret.password)
  }

  function SecretsUpdated(v: Vaults, info: Info, id: nat): Vaults {
    if info.HasSecrets()
    then Written(v, id, if info.userNameSecret then info.UserName() else "", info.Password(), info.storePassword)
    else v
  }

  /** `t` is a result of updateCredentials(). */
  ghost predicate CredentialsUpdated(s: Store, info: Info, t: Store, id: nat) {
    && Attempted(s.tables, info, t.tables, id)
    && t.vaults == if id == 0 then s.vaults else SecretsUpdated(s.vaults, info, id)
  }

  /** A method name is interned the first time that data is stored for it. */
  ghost function BlobStored(s: Store, id: nat, name: string, data: Data): Store {
    if id == 0 then s
    else
      var methods := s.tables.methods.InsertOrIgnore(name);
      Store(s.tables.(methods := methods), DataWritten(s.vaults, id, methods.ids[name], data))
  }

  /** The data that a query finds, in the database or in the cache. */
  function LoadedData(s: Store, id: nat, name: string): Data {
    var methodId := s.tables.methods.Lookup(name);
    if id == 0 || methodId == None then map[]
    else if s.vaults.open then RowsAt(s.vaults.secrets, BlobKey(id, methodId.value))
    else
      var waiting := Waiting(s.vaults.cache, BlobKey(id, methodId.value));
      if waiting.Some? then waiting.value else map[]
  }

  class Database {
    const metaDataDB: MetaDataDB.Database
    const secretsStorage: SecretsDB
    const secretsCache: MemoryCache
    var isSecretsDBOpen: bool

    ghost function State(): Store
      reads this, metaDataDB, secretsStorage, secretsCache
    {
      Store(metaDataDB.State(), Vaults(isSecretsDBOpen, secretsStorage.State(), secretsCache.cache))
    }

    constructor (secrets: Vault)
      requires Canonical(secrets)
      ensures Sound(State()) && State().vaults == Vaults(false, secrets, map[])
      ensures fresh(metaDataDB) && fresh(secretsStorage) && fresh(secretsCache)
    {
      metaDataDB := new MetaDataDB.Database();
      secretsStorage := new SecretsDB(secrets);
      secretsCache := new MemoryCache();
      isSecretsDBOpen := false;
    }

    method UpdateCredentials(info: Info) returns (id: nat)
      requires Sound(State())
      modifies metaDataDB, secretsStorage, secretsCache
      ensures CredentialsUpdated(old(State()), info, State(), id)
    {
      id := metaDataDB.UpdateIdentity(info);
      if id == 0 { return; }
      if info.HasSecrets() {
        var userName := "";
        if info.userNameSecret {
          userName := info.UserName();
        }
        if info.storePassword && isSecretsDBOpen {
          secretsStorage.UpdateCredentials(id, userName, info.Password());
        } else {
          secretsCache.UpdateCredentials(id, userName, info.Password(), info.storePassword);
        }
      }
    }

    method Credentials(id: nat) returns (info: Info)
      requires Sound(State())
      ensures Loaded(State(), id, info)
    {
      info := metaDataDB.Identity(id);
      if !info.IsNew() {
        var secret := Secret("", "");
        if info.storePassword && isSecretsDBOpen {
          secret := secretsStorage.LoadCredentials(id);
        } else {
          secret := secretsCache.LookupCredentials(id);
        }
        if info.userNameSecret {
          info := info.(userName := Some(secret.userName));
        }
        info := info.(password := Some(secret.password));
      }
    }

    method StoreData(id: nat, methodName: string, data: Data) returns (ok: bool)
      requires Sound(State())
      modifies metaDataDB, secretsStorage, secretsCache
      ensures State() == BlobStored(old(State()), id, methodName, data)
      ensures ok <==> id != 0 && (isSecretsDBOpen ==> TotalSize(data) < MAX_TOKEN_STORAGE)
    {
      if id == 0 { return false; }
      var methodId := metaDataDB.MethodId(methodName);
      if methodId == 0 {
        methodId := metaDataDB.InsertMethod(methodName);
      }
      if isSecretsDBOpen {
        ok := secretsStorage.StoreData(id, methodId, data);
      } else {
        secretsCache.UpdateData(id, methodId, data);
        ok := true;
      }
    }

    method LoadData(id: nat, methodName: string) returns (data: Data)
      requires Sound(State())
      ensures data == LoadedData(State(), id, methodName)
    {
      if id == 0 { return map[]; }
      var methodId := metaDataDB.MethodId(methodName);
      if methodId == 0 { return map[]; }
      if isSecretsDBOpen {
        data := secretsStorage.LoadData(id, methodId);
      } else {
        data := secretsCache.LookupData(id, methodId);
      }
    }

    method OpenSecretsDB(initialises: bool) returns (ok: bool)
      requires Sound(State())
      modifies this, secretsStorage, secretsCache
      ensures ok == initialises
      ensures State() == old(State()).(vaults := Opened(old(State()).vaults, initialises))
    {
      isSecretsDBOpen := initialises;
      if !initialises { return false; }
      secretsCache.StoreToDB(secretsStorage);
      secretsCache.Clear();
      return true;
    }

    method CloseSecretsDB()
      modifies this
      ensures State() == old(State()).(vaults := old(State()).vaults.(open := false))
    {
      isSecretsDBOpen := false;
    }

    method RemoveCredentials(id: nat) returns (ok: bool)
      modifies metaDataDB, secretsStorage
      ensures ok == isSecretsDBOpen
      ensures State() == if !ok then old(State())
              else Store(Removed(old(State()).tables, id), Step(old(State()).vaults, Remove(id)))
    {
      if !isSecretsDBOpen { return false; }
      secretsStorage.RemoveCredentials(id);
      metaDataDB.RemoveIdentity(id);
      return true;
    }
  }
}
