/** The objects of the encrypted storage: the crypto manager, the access manager
    that listens to its signals, and the key handler. Their methods refine the
    operations of EncryptedStorage. */
module CryptoManager {
  import opened EncryptedStorage
  import KR = KeyReadiness

  class AccessManager {
    var systemOpened: bool
    // the database object exists
    var hasDatabase: bool
    var secretsOpen: bool

    function State(): Access
      reads this
    {
      Access(systemOpened, hasDatabase, secretsOpen)
    }

    constructor ()
      ensures State() == Access(false, false, false)
    {
      systemOpened, hasDatabase, secretsOpen := false, false, false;
    }

    /** The slot runs when the file system has just become mounted. */
    method OnEncryptedFSMounted(dbInit: bool)
      modifies this
      ensures State() == FSMounted(old(State()), dbInit)
    {
      if !systemOpened { return; }
      if !secretsOpen {
        secretsOpen := dbInit;
      }
    }

    method OnEncryptedFSUnmounting()
      modifies this
      ensures State() == FSUnmounting(old(State()))
    {
      if !systemOpened { return; }
      secretsOpen := false;
    }

    method OpenCredentialsSystem(crypto: CryptoManager, metaOk: bool, o: Outcomes) returns (ok: bool)
      requires crypto.listener == this
      modifies this, crypto
      ensures Done(crypto.State(), ok) == EncryptedStorage.OpenCredentialsSystem(old(crypto.State()), metaOk, o)
    {
      hasDatabase := true;
      if !metaOk { return false; }
      systemOpened := true;
      if crypto.fileSystemIsMounted {
        secretsOpen := o.dbInit;
      } else {
        var _ := crypto.MountFileSystem(o);
      }
      return true;
    }

    method CloseSecretsDB(crypto: CryptoManager, o: Outcomes) returns (ok: bool)
      requires crypto.listener == this
      modifies this, crypto
      ensures Done(crypto.State(), ok) == EncryptedStorage.CloseSecretsDB(old(crypto.State()), o)
    {
      secretsOpen := false;
      ok := crypto.UnmountFileSystem(o);
    }

    method CloseCredentialsSystem(crypto: CryptoManager, o: Outcomes) returns (allClosed: bool)
      requires crypto.listener == this
      modifies this, crypto
      ensures Done(crypto.State(), allClosed) == EncryptedStorage.CloseCredentialsSystem(old(crypto.State()), o)
    {
      if !systemOpened { return true; }
      allClosed := true;
      if secretsOpen {
        var ok := CloseSecretsDB(crypto, o);
        if !ok { allClosed := false; }
      }
      hasDatabase := false;
      systemOpened := false;
    }
  }

  class CryptoManager {
    const listener: AccessManager
    var mountState: Stage
    var fileSystemIsMounted: bool
    var fileSystemIsSetup: bool
    var encryptionKey: Key
    // resources of the operating system, and the file with its header
    var held: Held
    var slots: multiset<Key>
    var keychain: map<nat, Key>
    var bare: map<nat, Key>

    function State(): Storage
      reads this, listener
    {
      Storage(Crypto(mountState, fileSystemIsMounted, fileSystemIsSetup, encryptionKey, held,
          Disk(slots, keychain, bare)),
              listener.State())
    }

    constructor (listener: AccessManager, fileExists: bool, disk: Disk)
      ensures this.listener == listener
      ensures State() == Storage(Crypto(Unmounted, false, fileExists, "", Held(false, false, false), disk),
              listener.State())
    {
      this.listener := listener;
      mountState, fileSystemIsMounted, fileSystemIsSetup, encryptionKey := Unmounted, false, fileExists, "";
      held, slots, keychain, bare := Held(false, false, false), disk.slots, disk.keychain, disk.bare;
    }

    method SetFileSystemMounted(isMounted: bool, dbInit: bool)
      modifies this`fileSystemIsMounted, listener
      ensures State() == SetMounted(old(State()), isMounted, dbInit)
    {
      if isMounted != fileSystemIsMounted {
        if fileSystemIsMounted {
          listener.OnEncryptedFSUnmounting();
        }
        fileSystemIsMounted := isMounted;
        if isMounted {
          listener.OnEncryptedFSMounted(dbInit);
        }
      }
    }

    method UpdateState(state: Stage, dbInit: bool)
      modifies this`mountState, this`fileSystemIsMounted, listener
      ensures State() == UpdateMountState(old(State()), state, dbInit)
    {
      if state == mountState { return; }
      mountState := state;
      SetFileSystemMounted(state == Mounted, dbInit);
    }

    method UnmountFileSystem(o: Outcomes) returns (isOk: bool)
      modifies this`mountState, this`fileSystemIsMounted, this`held, listener
      ensures Done(State(), isOk) == Unmount(old(State()), o)
    {
      if mountState == Unmounted { return true; }
      SetFileSystemMounted(false, o.dbInit);
      isOk := ReleaseAll(o);
      UpdateState(Unmounted, o.dbInit);
    }

    /** Everything that the stage says is released, whatever fails; umount reports
        success in any case. */
    method ReleaseAll(o: Outcomes) returns (isOk: bool)
      requires mountState != Unmounted
      modifies this`held
      ensures held == Released(old(held), mountState, o)
      ensures isOk <==> (mountState.Rank() >= 3 ==> o.close) && o.detach
    {
      isOk := true;
      if mountState == Mounted {
        held := held.(mount := held.mount && !o.umount);
      }
      if mountState.Rank() >= 3 {
        held := held.(mapping := held.mapping && !o.close);
        if !o.close { isOk := false; }
      }
      if mountState.Rank() >= 1 {
        held := held.(loop := held.loop && !o.detach);
        if !o.detach { isOk := false; }
      }
    }

    method ClearFileSystemResources(o: Outcomes)
      modifies this`held
      ensures held == Cleared(old(held), o)
    {
      held := held.(mount := held.mount && !o.clearUmount);
      if held.mapping {
        held := held.(mapping := !o.clearClose);
      }
    }

    method KeychainContainsKey(key: Key) returns (found: bool)
      ensures found <==> Contains(KeychainSeen(State().crypto), key)
    {
      var entries := if held.mount then keychain else bare;
      var pending := entries.Keys;
      while pending != {}
        invariant pending <= entries.Keys
        invariant forall i :: i in entries && i !in pending ==> entries[i] != key
        decreases |pending|
      {
        var i :| i in pending;
        if entries[i] == key { return true; }
        pending := pending - {i};
      }
      return false;
    }

    method AddKeyToKeychain(key: Key)
      modifies this`keychain, this`bare
      ensures State().crypto == old(WithKeychain(State().crypto, KeyAdded(KeychainSeen(State().crypto), key)))
    {
      var found := KeychainContainsKey(key);
      if found { return; }
      if held.mount {
        keychain := keychain[|keychain| + 1 := key];
      } else {
        bare := bare[|bare| + 1 := key];
      }
    }

    method RemoveKeyFromKeychain(key: Key) returns (ghost after: map<nat, Key>)
      modifies this`keychain, this`bare
      ensures KeyRemovedFrom(old(KeychainSeen(State().crypto)), key, after)
      ensures State().crypto == WithKeychain(old(State().crypto), after)
    {
      var entries := if held.mount then keychain else bare;
      var pending := entries.Keys;
      while pending != {}
        invariant pending <= entries.Keys
        invariant forall i :: i in entries && i !in pending ==> entries[i] != key
        invariant keychain == old(keychain) && bare == old(bare)
        decreases |pending|
      {
        var i :| i in pending;
        if entries[i] == key {
          if held.mount { keychain := keychain - {i}; } else { bare := bare - {i}; }
          return entries - {i};
        }
        pending := pending - {i};
      }
      return entries;
    }

    /** The result of the mount call is dropped; only the directory matters. */
    method MountMappedDevice(o: Outcomes) returns (ok: bool)
      modifies this`held
      ensures ok == o.mkdir
      ensures held == if ok then old(held).(mount := old(held).mount || o.mount) else old(held)
    {
      if !o.mkdir { return false; }
      held := held.(mount := held.mount || o.mount);
      return true;
    }

    method FinishMount(o: Outcomes) returns (ok: bool)
      modifies this, listener
      ensures Done(State(), ok) == Finish(old(State()), o)
    {
      ok := MountMappedDevice(o);
      if !ok {
        var _ := UnmountFileSystem(o);
        return;
      }
      AddKeyToKeychain(encryptionKey);
      UpdateState(Mounted, o.dbInit);
    }

    method OpenMappedDevice(o: Outcomes, format: bool) returns (ok: bool)
      modifies this, listener
      ensures Done(State(), ok) == OpenMapping(old(State()), o, format)
    {
      ok := Opens(State().crypto, o);
      // a leftover of the same name is closed first
      if held.mapping {
        held := held.(mapping := !o.leftoverClose);
      }
      if !ok {
        var _ := UnmountFileSystem(o);
        return;
      }
      held := held.(mapping := true);
      UpdateState(LoopLuksOpened, o.dbInit);
      if format && !o.mkfs {
        var _ := UnmountFileSystem(o);
        return false;
      }
      ok := FinishMount(o);
    }

    method SetupFileSystem(o: Outcomes) returns (ok: bool)
      modifies this, listener
      ensures Done(State(), ok) == Setup(old(State()), o)
    {
      if mountState == Mounted || encryptionKey == "" || !o.dmMod { return false; }
      ClearFileSystemResources(o);
      if !o.loopFound { return false; }
      if !o.partition {
        var _ := UnmountFileSystem(o);
        return false;
      }
      fileSystemIsSetup := true;
      if !o.loopSetup {
        var _ := UnmountFileSystem(o);
        return false;
      }
      held := held.(loop := true);
      UpdateState(LoopSet, o.dbInit);
      ok := FormatDevice(o);
    }

    method FormatDevice(o: Outcomes) returns (ok: bool)
      modifies this, listener
      ensures Done(State(), ok) == FormatAndOpen(old(State()), o)
    {
      match o.luksFormat {
        case Formatted => slots, keychain := multiset{encryptionKey}, map[];
        case Untouched =>
        case Wiped => slots, keychain := multiset{}, map[];
      }
      if o.luksFormat != Formatted {
        var _ := UnmountFileSystem(o);
        return false;
      }
      UpdateState(LoopLuksFormatted, o.dbInit);
      ok := OpenMappedDevice(o, true);
    }

    method MountFileSystem(o: Outcomes) returns (ok: bool)
      modifies this, listener
      ensures Done(State(), ok) == EncryptedStorage.Mount(old(State()), o)
    {
      if mountState == Mounted || encryptionKey == "" { return false; }
      ClearFileSystemResources(o);
      if !o.dmMod || !o.loopFound { return false; }
      if !o.loopSetup {
        var _ := UnmountFileSystem(o);
        return false;
      }
      held := held.(loop := true);
      UpdateState(LoopSet, o.dbInit);
      ok := OpenMappedDevice(o, false);
    }

    method SetKey(key: Key)
      modifies this`encryptionKey
      ensures State() == SetEncryptionKey(old(State()), key)
    {
      if fileSystemIsMounted { return; }
      encryptionKey := key;
    }

    method AddKey(key: Key, existing: Key, o: Outcomes) returns (ok: bool)
      modifies this`slots, this`keychain, this`bare
      ensures Done(State(), ok) == AddEncryptionKey(old(State()), key, existing, o)
    {
      if mountState.Rank() >= 3 {
        if o.slotChange && existing in slots {
          slots := slots + multiset{key};
          AddKeyToKeychain(key);
          return true;
        }
      }
      return false;
    }

    method RemoveKey(key: Key, o: Outcomes) returns (ok: bool)
      modifies this`slots, this`keychain, this`bare
      ensures EncryptionKeyRemoved(old(State()), key, o, Done(State(), ok))
    {
      if mountState.Rank() >= 3 {
        if o.slotChange && key in slots {
          slots := slots - multiset{key};
          ghost var written := State();
          assert written == WithDisk(old(State()), old(State()).crypto.disk.(slots := slots));
          ghost var after;
          after := RemoveKeyFromKeychain(key);
          assert KeyRemovedFrom(KeychainSeen(written.crypto), key, after);
          assert State() == written.(crypto := WithKeychain(written.crypto, after));
        }
        return true;
      }
      return false;
    }

    method KeyInUse(key: Key, o: Outcomes) returns (ok: bool)
      modifies this, listener
      ensures Done(State(), ok) == EncryptionKeyInUse(old(State()), key, o)
    {
      if fileSystemIsMounted && encryptionKey == key { return true; }
      if !fileSystemIsMounted {
        SetKey(key);
        ok := MountFileSystem(o);
        return;
      }
      ok := KeychainContainsKey(key);
    }
  }

  class KeyHandler {
    const crypto: CryptoManager
    const keyManagers: seq<nat>
    var readyKeyManagers: seq<nat>
    ghost var readySignals: nat
    var insertedKeys: set<Key>
    var authorizedKeys: set<Key>
    // a call through the null database pointer ended the process
    var crashed: bool

    ghost function State(): System
      reads this, crypto, crypto.listener
    {
      System(crypto.State(), Keys(insertedKeys, authorizedKeys), crashed)
    }

    ghost function Readiness(): KR.Readiness
      reads this
    {
      KR.Readiness(keyManagers, readyKeyManagers, readySignals)
    }

    constructor (crypto: CryptoManager, keyManagers: seq<nat>)
      ensures this.crypto == crypto
      ensures State() == System(crypto.State(), Keys({}, {}), false)
      ensures Readiness() == KR.AfterReports(keyManagers, [])
    {
      this.crypto, insertedKeys, authorizedKeys, crashed := crypto, {}, {}, false;
      this.keyManagers, readyKeyManagers, readySignals := keyManagers, [], 0;
    }

    /** A key manager reports a key, or, at first, that it has none. */
    method OnKeyInserted(manager: nat, key: Key, o: Outcomes)
      modifies this, crypto, crypto.listener
      ensures State() == KeyInserted(old(State()), key, o)
      ensures Readiness() == KR.Reported(old(Readiness()), manager)
    {
      if |readyKeyManagers| != |keyManagers| {
        if manager !in readyKeyManagers {
          readyKeyManagers := readyKeyManagers + [manager];
          if |readyKeyManagers| == |keyManagers| {
            readySignals := readySignals + 1;
          }
        }
      }
      if key == "" { return; }
      insertedKeys := insertedKeys + {key};
      if crypto.fileSystemIsSetup {
        var used := crypto.KeyInUse(key, o);
        if used {
          authorizedKeys := authorizedKeys + {key};
        }
      }
    }

    /** When no authorised key is left inserted, the access manager closes the
        storage. */
    method OnKeyDisabled(key: Key, o: Outcomes)
      modifies this, crypto, crypto.listener
      ensures State() == KeyDisabled(old(State()), key, o)
    {
      insertedKeys := insertedKeys - {key};
      if insertedKeys * authorizedKeys == {} && key in authorizedKeys {
        if !crypto.listener.hasDatabase {
          crashed := true;
          return;
        }
        if crypto.listener.secretsOpen || crypto.fileSystemIsMounted {
          var _ := crypto.listener.CloseSecretsDB(crypto, o);
        }
      }
    }

    method MountWith(key: Key, o: Outcomes) returns (ok: bool)
      modifies crypto, crypto.listener
      ensures Done(crypto.State(), ok) == MountedWith(old(crypto.State()), key, o)
    {
      if crypto.fileSystemIsMounted { return true; }
      crypto.SetKey(key);
      ok := crypto.MountFileSystem(o);
    }

    method Authorize(key: Key, format: bool, o: Outcomes) returns (ok: bool, ghost helper: Key)
      modifies this, crypto, crypto.listener
      ensures old(authorizedKeys) == {} || helper in old(authorizedKeys)
      ensures Verdict(State(), ok) == AuthorizeKey(old(State()), key, format, helper, o)
    {
      helper := key;
      if key in authorizedKeys { return true, helper; }
      if !crypto.fileSystemIsSetup || format {
        if authorizedKeys != {} { helper :| helper in authorizedKeys; }
        authorizedKeys := {};
        ok := Reformat(key, o);
      } else {
        if authorizedKeys == {} { return false, helper; }
        ok, helper := LetInWithAny(key, o);
      }
      if ok {
        authorizedKeys := authorizedKeys + {key};
      }
    }

    method Reformat(key: Key, o: Outcomes) returns (ok: bool)
      modifies crypto, crypto.listener
      ensures Done(crypto.State(), ok) == Reformatted(old(crypto.State()), key, o)
    {
      crypto.SetKey(key);
      ok := crypto.SetupFileSystem(o);
    }

    /** An authorised key lets the new one in. */
    method LetInWithAny(key: Key, o: Outcomes) returns (ok: bool, ghost helper: Key)
      requires authorizedKeys != {}
      modifies crypto, crypto.listener
      ensures helper in authorizedKeys && Done(crypto.State(), ok) == LetIn(old(crypto.State()), key, helper, o)
    {
      var authorizedKey :| authorizedKey in authorizedKeys;
      helper := authorizedKey;
      ok := LetInWith(key, authorizedKey, o);
    }

    method LetInWith(key: Key, authorizedKey: Key, o: Outcomes) returns (ok: bool)
      modifies crypto, crypto.listener
      ensures Done(crypto.State(), ok) == LetIn(old(crypto.State()), key, authorizedKey, o)
    {
      ok := MountWith(authorizedKey, o);
      if ok {
        ok := crypto.AddKey(key, authorizedKey, o);
      }
    }

    method Revoke(key: Key, o: Outcomes) returns (ok: bool, ghost helper: Key)
      modifies this, crypto, crypto.listener
      ensures old(authorizedKeys) == {} || helper in old(authorizedKeys)
      ensures KeyRevoked(old(State()), key, helper, o, Verdict(State(), ok))
    {
      helper := key;
      if !crypto.fileSystemIsSetup || authorizedKeys == {} {
        if authorizedKeys != {} { helper :| helper in authorizedKeys; }
        return false, helper;
      }
      var authorizedKey :| authorizedKey in authorizedKeys;
      helper := authorizedKey;
      ok := MountWith(authorizedKey, o);
      if !ok { return; }
      ghost var mounted := crypto.State();
      ok := crypto.RemoveKey(key, o);
      ghost var removed := Done(crypto.State(), ok);
      assert EncryptionKeyRemoved(mounted, key, o, removed);
      if ok {
        authorizedKeys := authorizedKeys - {key};
      }
      assert Verdict(State(), ok) == Revoked(old(State()), key, removed);
    }

    /** A removed key is disabled, and the access manager revokes it. */
    method OnKeyRemoved(key: Key, o: Outcomes, o2: Outcomes) returns (ghost helper: Key)
      requires !crashed
      modifies this, crypto, crypto.listener
      ensures Step(old(State()), Remove(key, helper, o, o2), State())
    {
      helper := key;
      OnKeyDisabled(key, o);
      if crashed { return; }
      if key in authorizedKeys {
        ghost var disabled := State();
        var ok;
        ok, helper := Revoke(key, o2);
        assert KeyRevoked(disabled, key, helper, o2, Verdict(State(), ok));
      }
    }
  }
}
