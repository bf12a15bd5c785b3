/** Every authorised key and every key in a keychain file has a LUKS key slot, whatever
    the system calls answer, except after the steps named here. */
module KeySlots {
  import opened EncryptedStorage
  import opened MountDiscipline

  ghost predicate Distinct(keychain: map<nat, Key>) {
    forall i, j :: i in keychain && j in keychain && keychain[i] == keychain[j] ==> i == j
  }

  ghost predicate ListSlotted(keychain: map<nat, Key>, slots: multiset<Key>) {
    (forall i :: i in keychain ==> keychain[i] in slots) && Distinct(keychain)
  }

  /** Both files of that name: on the encrypted file system, and on the directory under it. */
  ghost predicate FilesSlotted(d: Disk) {
    ListSlotted(d.keychain, d.slots) && ListSlotted(d.bare, d.slots)
  }

  ghost predicate StorageSlotted(s: Storage) {
    && FilesSlotted(s.crypto.disk) && Resting(s)
    && (s.crypto.mounted ==> s.crypto.encryptionKey in s.crypto.disk.slots)
  }

  ghost predicate Slotted(sys: System) {
    && StorageSlotted(sys.storage)
    && forall k :: k in sys.keys.authorized ==> k in sys.storage.crypto.disk.slots
  }

  // What the operations do to the files.

  /** Is it the encrypted file system that is seen once a mount has gone through? Yes if
      the unchecked mount call worked, or an older mount could not be cleared. */
  predicate SeesMount(c: Crypto, o: Outcomes) {
    o.mount || (c.held.mount && !o.clearUmount)
  }

  function KeychainUnseen(c: Crypto): map<nat, Key> {
    if c.held.mount then c.disk.bare else c.disk.keychain
  }

  /** The disk after a key is added to the file that is seen. */
  function Noted(d: Disk, seesMount: bool, key: Key): Disk {
    if seesMount then d.(keychain := KeyAdded(d.keychain, key)) else d.(bare := KeyAdded(d.bare, key))
  }

  lemma FinishEffect(s: Storage, o: Outcomes)
    requires s.crypto.stage == LoopLuksOpened
    ensures var done, sees := Finish(s, o), s.crypto.held.mount || o.mount;
            && done.s.crypto.encryptionKey == s.crypto.encryptionKey
            && done.s.crypto.disk
            == (if done.ok then Noted(s.crypto.disk, sees, s.crypto.encryptionKey) else s.crypto.disk)
            && (done.ok ==> done.s.crypto.held.mount == sees)
  {
  }

  lemma OpenMappingEffect(s: Storage, o: Outcomes, format: bool)
    requires s.crypto.stage == LoopSet || s.crypto.stage == LoopLuksFormatted
    ensures var done, sees := OpenMapping(s, o, format), s.crypto.held.mount || o.mount;
            && done.s.crypto.encryptionKey == s.crypto.encryptionKey
            && done.s.crypto.disk
            == (if done.ok then Noted(s.crypto.disk, sees, s.crypto.encryptionKey) else s.crypto.disk)
            && (done.ok ==> done.s.crypto.held.mount == sees && s.crypto.encryptionKey in s.crypto.disk.slots)
  {
    if Opens(s.crypto, o) {
      var open := WithHeld(s, s.crypto.held.(mapping := true));
      FinishEffect(UpdateMountState(open, LoopLuksOpened, o.dbInit), o);
    }
  }

  lemma MountEffect(s: Storage, o: Outcomes)
    ensures var done, sees := Mount(s, o), SeesMount(s.crypto, o);
            && done.s.crypto.encryptionKey == s.crypto.encryptionKey
            && done.s.crypto.disk
            == (if done.ok then Noted(s.crypto.disk, sees, s.crypto.encryptionKey) else s.crypto.disk)
            && (done.ok ==> done.s.crypto.held.mount == sees && s.crypto.encryptionKey in s.crypto.disk.slots)
  {
    if s.crypto.stage != Mounted && MountAttaches(s, o) {
      var attached := Attach(WithHeld(s, Cleared(s.crypto.held, o)), o);
      assert Mount(s, o) == OpenMapping(attached, o, false);
      OpenMappingEffect(attached, o, false);
    }
  }

  /** The setup gets as far as formatting. */
  predicate Formats(s: Storage, o: Outcomes) {
    s.crypto.stage == Unmounted && SetupAttaches(s, o)
  }

  lemma SetupEffect(s: Storage, o: Outcomes)
    requires Resting(s)
    ensures var done, key := Setup(s, o), s.crypto.encryptionKey;
            var written := FormattedDisk(s.crypto.disk, key, o.luksFormat);
            && done.s.crypto.encryptionKey == key
            && (done.ok ==> Formats(s, o) && o.luksFormat == Formatted)
            && done.s.crypto.disk == (if !Formats(s, o) then s.crypto.disk
                                      else if done.ok then Noted(written, SeesMount(s.crypto, o), key) else written)
            && (done.ok ==> done.s.crypto.held.mount == SeesMount(s.crypto, o))
  {
    if Formats(s, o) {
      var attached := Attach(PartitionCreated(WithHeld(s, Cleared(s.crypto.held, o))), o);
      var written := WithDisk(attached, FormattedDisk(s.crypto.disk, s.crypto.encryptionKey, o.luksFormat));
      if o.luksFormat == Formatted {
        OpenMappingEffect(UpdateMountState(written, LoopLuksFormatted, o.dbInit), o, true);
      }
    }
  }

  lemma AddedToList(keychain: map<nat, Key>, slots: multiset<Key>, key: Key)
    requires ListSlotted(keychain, slots) && key in slots
    ensures ListSlotted(KeyAdded(keychain, key), slots)
  {
    var added := KeyAdded(keychain, key);
    forall i | i in added && !Contains(keychain, key)
      ensures added[i] == key ==> i == |keychain| + 1
    {
      if i in keychain { assert keychain[i] != key; }
    }
  }

  lemma AddedIsContained(keychain: map<nat, Key>, key: Key)
    ensures Contains(KeyAdded(keychain, key), key)
  {
    if !Contains(keychain, key) { assert KeyAdded(keychain, key)[|keychain| + 1] == key; }
  }

  lemma NotedSlotted(d: Disk, seesMount: bool, key: Key)
    requires FilesSlotted(d) && key in d.slots
    ensures FilesSlotted(Noted(d, seesMount, key))
  {
    AddedToList(d.keychain, d.slots, key);
    AddedToList(d.bare, d.slots, key);
  }

  // Mounting and inserting keep all keys slotted.

  lemma MountSlotted(s: Storage, o: Outcomes)
    requires StorageSlotted(s)
    ensures StorageSlotted(Mount(s, o).s) && Mount(s, o).s.crypto.disk.slots == s.crypto.disk.slots
  {
    MountRests(s, o);
    MountEffect(s, o);
    if Mount(s, o).ok { NotedSlotted(s.crypto.disk, SeesMount(s.crypto, o), s.crypto.encryptionKey); }
  }

  lemma MountedWithSlotted(s: Storage, key: Key, o: Outcomes)
    requires StorageSlotted(s)
    ensures var done := MountedWith(s, key, o);
            && StorageSlotted(done.s) && done.s.crypto.disk.slots == s.crypto.disk.slots
            && (done.ok <==> done.s.crypto.mounted)
            && done.s.crypto.encryptionKey == if s.crypto.mounted then s.crypto.encryptionKey else key
  {
    MountedWithFine(s, key, o, false);
    if !s.crypto.mounted {
      MountSlotted(SetEncryptionKey(s, key), o);
      MountEffect(SetEncryptionKey(s, key), o);
    }
  }

  lemma UnmountSlotted(s: Storage, o: Outcomes)
    requires StorageSlotted(s)
    ensures StorageSlotted(CloseSecretsDB(s, o).s) && CloseSecretsDB(s, o).s.crypto.disk == s.crypto.disk
  {
    UnmountRests(s.(access := s.access.(secretsOpen := false)), o);
  }

  lemma KeyInsertedSlotted(sys: System, key: Key, o: Outcomes)
    requires Slotted(sys)
    ensures Slotted(KeyInserted(sys, key, o))
  {
    KeyInsertedFine(sys, key, o, false);
    MountedWithSlotted(sys.storage, key, o);
  }

  lemma KeyDisabledSlotted(sys: System, key: Key, o: Outcomes)
    requires Slotted(sys)
    ensures Slotted(KeyDisabled(sys, key, o))
  {
    KeyDisabledFine(sys, key, o, false);
    UnmountSlotted(sys.storage, o);
  }

  // Setting up.

  /** A setup leaves a key listed that has no slot: the new header lacks a key that the
      file on the directory lists, and the entry is not overwritten in the end. */
  predicate StrandsListedKey(s: Storage, o: Outcomes) {
    var bare, key := s.crypto.disk.bare, s.crypto.encryptionKey;
    Formats(s, o) &&
    match o.luksFormat
    case Untouched => false
    case Wiped => bare != map[]
    case Formatted => exists i :: i in bare && bare[i] != key && !OverwritesEntry(s, o, i)
  }

  predicate OverwritesEntry(s: Storage, o: Outcomes, i: nat) {
    var bare := s.crypto.disk.bare;
    && Setup(s, o).ok && !SeesMount(s.crypto, o)
    && i == |bare| + 1 && !Contains(bare, s.crypto.encryptionKey)
  }

  lemma ListOfOneKey(keychain: map<nat, Key>, key: Key)
    requires Distinct(keychain)
    ensures ListSlotted(keychain, multiset{key}) <==> forall i :: i in keychain ==> keychain[i] == key
  {
  }

  lemma ListAfterAdding(keychain: map<nat, Key>, key: Key)
    requires Distinct(keychain)
    ensures ListSlotted(KeyAdded(keychain, key), multiset{key}) <==>
            forall i :: i in keychain && !(i == |keychain| + 1 && !Contains(keychain, key)) ==> keychain[i] == key
  {
    if Contains(keychain, key) { ListOfOneKey(keychain, key); } else { ListWithNewKey(keychain, key); }
  }

  lemma ListWithNewKey(keychain: map<nat, Key>, key: Key)
    requires !Contains(keychain, key)
    ensures ListSlotted(KeyAdded(keychain, key), multiset{key}) <==> forall i :: i in keychain ==> i == |keychain| + 1
  {
    var added := KeyAdded(keychain, key);
    assert forall i :: i in keychain ==> keychain[i] != key;
    assert forall i :: i in added <==> i in keychain || i == |keychain| + 1;
    assert forall i :: i in added && i != |keychain| + 1 ==> added[i] == keychain[i];
  }

  lemma FormattedFiles(d: Disk, key: Key, seesMount: bool, done: bool)
    requires FilesSlotted(d)
    ensures var written := FormattedDisk(d, key, Formatted);
            FilesSlotted(if done then Noted(written, seesMount, key) else written) <==>
            forall i :: i in d.bare && !(done && !seesMount && i == |d.bare| + 1 && !Contains(d.bare, key)) ==>
              d.bare[i] == key
  {
    var written := FormattedDisk(d, key, Formatted);
    var after := if done then Noted(written, seesMount, key) else written;
    OnlyListedKey(key);
    assert FilesSlotted(after) <==> ListSlotted(after.bare, multiset{key});
    if done && !seesMount { ListAfterAdding(d.bare, key); } else { ListOfOneKey(d.bare, key); }
  }

  lemma OnlyListedKey(key: Key)
    ensures ListSlotted(map[], multiset{key}) && ListSlotted(KeyAdded(map[], key), multiset{key})
  {
    assert KeyAdded(map[], key) == map[1 := key];
  }

  lemma SetupSlotted(s: Storage, o: Outcomes)
    requires StorageSlotted(s)
    ensures StorageSlotted(Setup(s, o).s) <==> !StrandsListedKey(s, o)
    ensures Setup(s, o).ok ==> Setup(s, o).s.crypto.disk.slots == multiset{s.crypto.encryptionKey}
  {
    SetupRests(s, o);
    SetupEffect(s, o);
    var d, key, done := s.crypto.disk, s.crypto.encryptionKey, Setup(s, o);
    if Formats(s, o) && o.luksFormat == Formatted {
      FormattedFiles(d, key, SeesMount(s.crypto, o), done.ok);
    }
  }

  // Authorising.

  lemma AddKeySlotted(s: Storage, key: Key, existing: Key, o: Outcomes)
    requires StorageSlotted(s)
    ensures var done := AddEncryptionKey(s, key, existing, o);
            && StorageSlotted(done.s) && (done.ok ==> done.s.crypto.mounted)
            && done.s.crypto.disk.slots == if done.ok then s.crypto.disk.slots + multiset{key} else s.crypto.disk.slots
  {
    AddKeyFine(s, key, existing, o, false);
    var d := s.crypto.disk.(slots := s.crypto.disk.slots + multiset{key});
    NotedSlotted(d, s.crypto.held.mount, key);
  }

  lemma LetInSlotted(s: Storage, key: Key, helper: Key, o: Outcomes)
    requires StorageSlotted(s)
    ensures var done := LetIn(s, key, helper, o);
            && StorageSlotted(done.s) && (done.ok ==> done.s.crypto.mounted)
            && done.s.crypto.disk.slots == if done.ok then s.crypto.disk.slots + multiset{key} else s.crypto.disk.slots
  {
    MountedWithSlotted(s, helper, o);
    AddKeySlotted(MountedWith(s, helper, o).s, key, helper, o);
  }

  predicate Reformats(sys: System, key: Key, format: bool) {
    key !in sys.keys.authorized && (!sys.storage.crypto.isSetup || format)
  }

  lemma AuthorizeSlotted(sys: System, key: Key, format: bool, helper: Key, o: Outcomes)
    requires Slotted(sys)
    ensures Slotted(AuthorizeKey(sys, key, format, helper, o).sys)
            <==> !(Reformats(sys, key, format) && StrandsListedKey(SetEncryptionKey(sys.storage, key), o))
  {
    if Reformats(sys, key, format) {
      SetupRests(SetEncryptionKey(sys.storage, key), o);
      SetupSlotted(SetEncryptionKey(sys.storage, key), o);
    } else if key !in sys.keys.authorized {
      LetInSlotted(sys.storage, key, helper, o);
    }
  }

  // Revoking.

  /** Revoking takes the only slot of a key that is still needed: the key that mounted
      the file system, or one listed in the file that is not seen. */
  predicate TakesNeededSlot(sys: System, key: Key, helper: Key, o: Outcomes) {
    sys.storage.crypto.isSetup && sys.keys.authorized != {} &&
    var mounted := MountedWith(sys.storage, helper, o);
    && mounted.ok && SlotGoes(mounted.s, key, o) && mounted.s.crypto.disk.slots[key] == 1
    && (mounted.s.crypto.encryptionKey == key || Contains(KeychainUnseen(mounted.s.crypto), key))
  }

  lemma RemovedFromList(keychain: map<nat, Key>, slots: multiset<Key>, key: Key, after: map<nat, Key>)
    requires ListSlotted(keychain, slots) && KeyRemovedFrom(keychain, key, after)
    ensures ListSlotted(after, slots - multiset{key}) && !Contains(after, key)
  {
    assert forall i :: i in after ==> i in keychain && after[i] == keychain[i];
    forall i | i in after
      ensures after[i] != key
    {
      if Contains(keychain, key) {
        var j :| j in keychain && keychain[j] == key && after == keychain - {j};
      }
    }
  }

  lemma RemovedKeySlotted(s: Storage, key: Key, o: Outcomes, removed: Done)
    requires StorageSlotted(s) && s.crypto.mounted && EncryptionKeyRemoved(s, key, o, removed)
    ensures removed.ok && Resting(removed.s) && removed.s.crypto.(disk := s.crypto.disk) == s.crypto
    ensures removed.s.crypto.disk.slots
            == if SlotGoes(s, key, o) then s.crypto.disk.slots - multiset{key} else s.crypto.disk.slots
    ensures SlotGoes(s, key, o) ==> !Contains(KeychainSeen(removed.s.crypto), key)
    ensures KeychainUnseen(removed.s.crypto) == KeychainUnseen(s.crypto)
    ensures FilesSlotted(removed.s.crypto.disk)
            <==> !(SlotGoes(s, key, o) && s.crypto.disk.slots[key] == 1 && Contains(KeychainUnseen(s.crypto), key))
  {
    RemovedKeyFine(s, key, o, removed, false);
    if SlotGoes(s, key, o) {
      var slots := s.crypto.disk.slots;
      var written := WithDisk(s, s.crypto.disk.(slots := slots - multiset{key}));
      var keychain :| KeyRemovedFrom(KeychainSeen(written.crypto), key, keychain)
                   && removed.s == written.(crypto := WithKeychain(written.crypto, keychain));
      RemovedFromList(KeychainSeen(s.crypto), slots, key, keychain);
      UnseenStays(KeychainUnseen(s.crypto), slots, key);
    }
  }

  lemma UnseenStays(keychain: map<nat, Key>, slots: multiset<Key>, key: Key)
    requires ListSlotted(keychain, slots) && key in slots
    ensures ListSlotted(keychain, slots - multiset{key}) <==> !(slots[key] == 1 && Contains(keychain, key))
  {
  }

  /** Revoking keeps all of them slotted exactly when it does not take a needed slot. */
  lemma RevokeSlotted(sys: System, key: Key, helper: Key, o: Outcomes, after: Verdict)
    requires Slotted(sys) && KeyRevoked(sys, key, helper, o, after)
    ensures Slotted(after.sys) <==> !TakesNeededSlot(sys, key, helper, o)
  {
    MountedWithSlotted(sys.storage, helper, o);
    var mounted := MountedWith(sys.storage, helper, o);
    if sys.storage.crypto.isSetup && sys.keys.authorized != {} && mounted.ok {
      var removed :| EncryptionKeyRemoved(mounted.s, key, o, removed) && after == Revoked(sys, key, removed);
      RevokedSlotted(sys, mounted.s, key, o, removed);
    }
  }

  /** The same from the mounted state on. */
  lemma RevokedSlotted(sys: System, m: Storage, key: Key, o: Outcomes, removed: Done)
    requires StorageSlotted(m) && m.crypto.mounted && EncryptionKeyRemoved(m, key, o, removed)
    requires forall k :: k in sys.keys.authorized ==> k in m.crypto.disk.slots
    ensures Slotted(Revoked(sys, key, removed).sys) <==>
            !(SlotGoes(m, key, o) && m.crypto.disk.slots[key] == 1
              && (m.crypto.encryptionKey == key || Contains(KeychainUnseen(m.crypto), key)))
  {
    RemovedKeySlotted(m, key, o, removed);
  }

  // Every step, every run.

  predicate StrandsKey(sys: System, e: Event) {
    match e
    case Authorize(key, format, helper, o) =>
      Reformats(sys, key, format) && StrandsListedKey(SetEncryptionKey(sys.storage, key), o)
    case Revoke(key, helper, o) => TakesNeededSlot(sys, key, helper, o)
    case Remove(key, helper, o, o2) =>
      var disabled := KeyDisabled(sys, key, o);
      !disabled.crashed && key in disabled.keys.authorized && TakesNeededSlot(disabled, key, helper, o2)
    case _ => false
  }

  lemma OpenSystemSlotted(sys: System, metaOk: bool, o: Outcomes)
    requires Slotted(sys)
    ensures Slotted(sys.(storage := OpenCredentialsSystem(sys.storage, metaOk, o).s))
  {
    OpenSystemFine(sys.storage, metaOk, o, false);
    MountSlotted(sys.storage.(access := sys.storage.access.(hasDatabase := true, systemOpened := true)), o);
  }

  lemma CloseSystemSlotted(sys: System, o: Outcomes)
    requires Slotted(sys)
    ensures Slotted(sys.(storage := CloseCredentialsSystem(sys.storage, o).s))
  {
    CloseSystemFine(sys.storage, o, false);
    UnmountSlotted(sys.storage, o);
  }

  lemma RemoveSlotted(sys: System, key: Key, helper: Key, o: Outcomes, o2: Outcomes, t: System)
    requires Slotted(sys) && RemovalStep(KeyDisabled(sys, key, o), key, helper, o2, t)
    ensures Slotted(t) <==> !StrandsKey(sys, Remove(key, helper, o, o2))
  {
    KeyDisabledSlotted(sys, key, o);
    var disabled := KeyDisabled(sys, key, o);
    if !disabled.crashed && key in disabled.keys.authorized {
      var ok :| KeyRevoked(disabled, key, helper, o2, Verdict(t, ok));
      RevokeSlotted(disabled, key, helper, o2, Verdict(t, ok));
    }
  }

  /** A step keeps every authorised and every listed key in a slot, and the mounting key
      too, exactly when it strands none. */
  lemma StepSlotted(sys: System, e: Event, t: System)
    requires Slotted(sys) && Step(sys, e, t) && !sys.crashed
    ensures Slotted(t) <==> !StrandsKey(sys, e)
  {
    match e {
      case OpenSystem(metaOk, o) => OpenSystemSlotted(sys, metaOk, o);
      case CloseSystem(o) => CloseSystemSlotted(sys, o);
      case Insert(key, o) => KeyInsertedSlotted(sys, key, o);
      case Disable(key, o) => KeyDisabledSlotted(sys, key, o);
      case Remove(key, helper, o, o2) => RemoveSlotted(sys, key, helper, o, o2, t);
      case Authorize(key, format, helper, o) => AuthorizeSlotted(sys, key, format, helper, o);
      case Revoke(key, helper, o) =>
        var ok :| KeyRevoked(sys, key, helper, o, Verdict(t, ok));
        RevokeSlotted(sys, key, helper, o, Verdict(t, ok));
    }
  }

  /** On every run from a well-formed store that strands no key, whatever the system
      calls answer, every authorised key and every key of a keychain file has a slot. */
  lemma {:induction false} KeysKeepTheirSlots(states: seq<System>, run: seq<Event>, n: nat)
    requires Run(states, run) && n <= |run| && Slotted(states[0])
    requires forall i :: 0 <= i < n ==> !StrandsKey(states[i], run[i])
    ensures Slotted(states[n])
  {
    if n > 0 {
      KeysKeepTheirSlots(states, run, n - 1);
      assert Step(states[n - 1], run[n - 1], states[n]);
      if !states[n - 1].crashed { StepSlotted(states[n - 1], run[n - 1], states[n]); }
    }
  }
}
