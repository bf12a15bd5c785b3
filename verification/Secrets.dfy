/** The secrets database: one table of user names and passwords, one of binary
    data per identity, method and key, with a size limit on the latter. */
module Secrets {
  const MAX_TOKEN_STORAGE: nat := 4096

  /** A stored value as its serialised form; null and invalid values have one too. */
  datatype Variant = Variant(bytes: string, isNull: bool)

  type Data = map<string, Variant>

  datatype Secret = Secret(userName: string, password: string)

  datatype BlobKey = BlobKey(identity: nat, methodId: nat)

  /** The STORE rows are grouped by identity and method; a group without rows is
      absent. */
  datatype Vault = Vault(credentials: map<nat, Secret>, store: map<BlobKey, Data>)

  ghost predicate Canonical(v: Vault) {
    forall b :: b in v.store ==> v.store[b] != map[]
  }

  /** What loadData returns. */
  function RowsAt(v: Vault, b: BlobKey): Data {
    if b in v.store then v.store[b] else map[]
  }

  function EntrySize(key: string, value: Variant): nat {
    |key| + |value.bytes|
  }

  /** The sum over all entries, in any order. */
  ghost function TotalSize(data: Data): nat
    decreases |data|
  {
    if data == map[] then 0
    else
      var k :| k in data;
      assert k !in data - {k} && |(data - {k}).Keys| < |data.Keys|;
      EntrySize(k, data[k]) + TotalSize(data - {k})
  }

  ghost predicate Fits(data: Data) {
    TotalSize(data) < MAX_TOKEN_STORAGE
  }

  function NonNull(data: Data): Data {
    map k | k in data && !data[k].isNull :: data[k]
  }

  function Put(store: map<BlobKey, Data>, b: BlobKey, rows: Data): map<BlobKey, Data> {
    if rows == map[] then store - {b} else store[b := rows]
  }

  /** storeData replaces all rows of the identity and method, or none. */
  ghost function Stored(v: Vault, b: BlobKey, data: Data): Vault {
    if Fits(data) then v.(store := Put(v.store, b, NonNull(data))) else v
  }

  function CredentialsStored(v: Vault, id: nat, secret: Secret): Vault {
    v.(credentials := v.credentials[id := secret])
  }

  /** The order of summation does not matter: any entry may be taken out first. */
  lemma {:induction false} TakeOut(data: Data, k: string)
    requires k in data
    ensures TotalSize(data) == |k| + |data[k].bytes| + TotalSize(data - {k})
    decreases |data|
  {
    var c :| c in data && TotalSize(data) == EntrySize(c, data[c]) + TotalSize(data - {c});
    assert EntrySize(c, data[c]) == |c| + |data[c].bytes|;
    if c != k {
      assert |(data - {c}).Keys| < |data.Keys| && |(data - {k}).Keys| < |data.Keys|;
      TakeOut(data - {c}, k);
      TakeOut(data - {k}, c);
      assert data - {c} - {k} == data - {k} - {c};
    }
  }

  /** On success loadData gives back exactly the non-null entries, on failure what
      was there before; success depends only on the summed sizes, nulls included;
      and no other identity or method is affected. */
  lemma StoreDataIsAllOrNothing(v: Vault, b: BlobKey, data: Data, c: BlobKey)
    requires Canonical(v)
    ensures var w := Stored(v, b, data);
            && Canonical(w) && w.credentials == v.credentials
            && RowsAt(w, b) == (if TotalSize(data) < MAX_TOKEN_STORAGE then NonNull(data) else RowsAt(v, b))
            && (c != b ==> RowsAt(w, c) == RowsAt(v, c))
  {
  }

  class SecretsDB {
    var credentials: map<nat, Secret>
    var store: map<BlobKey, Data>

    ghost function State(): Vault
      reads this
    {
      Vault(credentials, store)
    }

    constructor (v: Vault)
      ensures State() == v
    {
      credentials, store := v.credentials, v.store;
    }

    method UpdateCredentials(id: nat, userName: string, password: string)
      modifies this
      ensures State() == CredentialsStored(old(State()), id, Secret(userName, password))
    {
      credentials := credentials[id := Secret(userName, password)];
    }

    method LoadCredentials(id: nat) returns (secret: Secret)
      ensures secret == if id in credentials then credentials[id] else Secret("", "")
    {
      secret := if id in credentials then credentials[id] else Secret("", "");
    }

    method LoadData(id: nat, methodId: nat) returns (data: Data)
      ensures data == RowsAt(State(), BlobKey(id, methodId))
    {
      var b := BlobKey(id, methodId);
      data := if b in store then store[b] else map[];
    }

    /** One inserted row. */
    method InsertRow(b: BlobKey, key: string, value: Variant)
      modifies this`store
      ensures store == old(store)[b := RowsAt(old(State()), b)[key := value]]
    {
      var rows := if b in store then store[b] else map[];
      store := store[b := rows[key := value]];
    }

    /** Existing rows go first; the loop adds entries up to the limit, in any
        order, and a failure rolls the transaction back. */
    method StoreData(id: nat, methodId: nat, data: Data) returns (ok: bool)
      modifies this`store
      ensures ok <==> TotalSize(data) < MAX_TOKEN_STORAGE
      ensures State() == Stored(old(State()), BlobKey(id, methodId), data)
    {
      var b := BlobKey(id, methodId);
      var backup := store;
      store := store - {b};
      var dataCounter := 0;
      var pending := data.Keys;
      NothingTaken(data);
      while pending != {}
        invariant pending <= data.Keys
        invariant TotalSize(data) == dataCounter + TotalSize(Pending(data, pending))
        invariant dataCounter < MAX_TOKEN_STORAGE
        invariant store == Put(backup, b, RowsBesides(data, pending))
        decreases |pending|
      {
        var key :| key in pending;
        TakeOneMore(data, pending, key);
        ghost var rows := RowsBesides(data, pending);
        pending := pending - {key};
        dataCounter := dataCounter + EntrySize(key, data[key]);
        if dataCounter >= MAX_TOKEN_STORAGE {
          store := backup;
          return false;
        }
        if data[key].isNull {
          continue;
        }
        PutOneMore(backup, b, rows, key, data[key]);
        InsertRow(b, key, data[key]);
      }
      AllTaken(data);
      return true;
    }

    method RemoveCredentials(id: nat)
      modifies this
      ensures State() == CredentialsRemoved(old(State()), id)
    {
      credentials := credentials - {id};
      store := map b | b in store && b.identity != id :: store[b];
    }
  }

  function CredentialsRemoved(v: Vault, id: nat): Vault {
    Vault(v.credentials - {id}, map b | b in v.store && b.identity != id :: v.store[b])
  }

  // What the loop of StoreData has left, and what it has inserted.

  ghost function Pending(data: Data, pending: set<string>): Data {
    map k | k in data && k in pending :: data[k]
  }

  ghost function RowsBesides(data: Data, pending: set<string>): Data {
    map k | k in data && k !in pending && !data[k].isNull :: data[k]
  }

  lemma NothingTaken(data: Data)
    ensures Pending(data, data.Keys) == data && RowsBesides(data, data.Keys) == map[]
  {
  }

  lemma AllTaken(data: Data)
    ensures TotalSize(Pending(data, {})) == 0 && RowsBesides(data, {}) == NonNull(data)
  {
    assert Pending(data, {}) == map[];
  }

  lemma TakeOneMore(data: Data, pending: set<string>, key: string)
    requires key in data && key in pending
    ensures TotalSize(Pending(data, pending)) == EntrySize(key, data[key]) + TotalSize(Pending(data, pending - {key}))
    ensures RowsBesides(data, pending - {key}) ==
            if data[key].isNull then RowsBesides(data, pending) else RowsBesides(data, pending)[key := data[key]]
  {
    TakeOut(Pending(data, pending), key);
    assert Pending(data, pending) - {key} == Pending(data, pending - {key});
  }

  lemma PutOneMore(store: map<BlobKey, Data>, b: BlobKey, rows: Data, key: string, value: Variant)
    ensures var before := Put(store, b, rows);
            before[b := RowsAt(Vault(map[], before), b)[key := value]] == Put(store, b, rows[key := value])
  {
    var one := rows[key := value];
    assert key in one;
    assert RowsAt(Vault(map[], Put(store, b, rows)), b) == rows;
    assert Put(store, b, rows)[b := one] == store[b := one];
  }
}
