/** What becomes of a key that is authorised, revoked, inserted or removed. */
module KeyAuthorization {
  import opened EncryptedStorage
  import opened MountDiscipline
  import opened KeySlots

  /** What a successful authorisation leaves: a mounted file system, the key authorised
      and in a slot, alone after formatting, and listed in the file that is seen. It is
      listed on the encrypted file system itself if that is really mounted, or if it
      was listed there before. */
  lemma AuthorizedKeyWorks(sys: System, key: Key, format: bool, helper: Key, o: Outcomes)
    requires Resting(sys.storage) && key !in sys.keys.authorized && AuthorizeKey(sys, key, format, helper, o).ok
    ensures var t, c := AuthorizeKey(sys, key, format, helper, o).sys, sys.storage.crypto;
            var alone := !c.isSetup || format;
            && t.storage.crypto.mounted && Contains(KeychainSeen(t.storage.crypto), key)
            && t.storage.crypto.held.mount == (if c.mounted then c.held.mount else SeesMount(c, o))
            && t.storage.crypto.disk.slots == (if alone then multiset{} else c.disk.slots) + multiset{key}
            && t.keys.authorized == (if alone then {} else sys.keys.authorized) + {key}
            && (Contains(t.storage.crypto.disk.keychain, key)
                <==> t.storage.crypto.held.mount || (!alone && Contains(c.disk.keychain, key)))
  {
    var s := sys.storage;
    if !s.crypto.isSetup || format {
      SetupRests(SetEncryptionKey(s, key), o);
      SetupEffect(SetEncryptionKey(s, key), o);
      AddedIsContained(map[], key);
      AddedIsContained(s.crypto.disk.bare, key);
    } else {
      MountedWithFine(s, helper, o, false);
      MountEffect(SetEncryptionKey(s, helper), o);
      AddedIsContained(KeychainSeen(MountedWith(s, helper, o).s.crypto), key);
    }
  }

  /** A successful revocation takes the authorisation, but the slot, and the entry in the
      file that is seen, only when the slot could really be cleared: success is reported
      anyway. The file that is not seen keeps its entries. */
  lemma RevokedKeyMayKeepItsSlot(sys: System, key: Key, helper: Key, o: Outcomes, after: Verdict)
    requires Slotted(sys) && key in sys.keys.authorized && KeyRevoked(sys, key, helper, o, after) && after.ok
    ensures var c, d := after.sys.storage.crypto, sys.storage.crypto.disk;
            && after.sys.keys.authorized == sys.keys.authorized - {key}
            && c.disk.slots == (if o.slotChange then d.slots - multiset{key} else d.slots)
            && (o.slotChange ==> !Contains(KeychainSeen(c), key))
            && KeychainUnseen(c) == if c.held.mount then d.bare else d.keychain
  {
    var s := sys.storage;
    MountedWithSlotted(s, helper, o);
    MountEffect(SetEncryptionKey(s, helper), o);
    var mounted := MountedWith(s, helper, o);
    var removed :| EncryptionKeyRemoved(mounted.s, key, o, removed) && after == Revoked(sys, key, removed);
    RemovedKeySlotted(mounted.s, key, o, removed);
  }

  /** A key without a slot becomes authorised when it is inserted exactly if it mounted
      the file system, or is listed in the file that is seen, while that is mounted. */
  lemma InsertedWithoutSlot(sys: System, key: Key, o: Outcomes)
    requires Resting(sys.storage) && key !in sys.keys.authorized && key !in sys.storage.crypto.disk.slots
    ensures var c := sys.storage.crypto;
            key in KeyInserted(sys, key, o).keys.authorized <==>
            key != "" && c.isSetup && c.mounted && (c.encryptionKey == key || Contains(KeychainSeen(c), key))
  {
    MountEffect(SetEncryptionKey(sys.storage, key), o);
  }

  /** Revoking the key that mounted the file system is undone by inserting it: it is
      authorised again in any case, and without a slot exactly if its only slot went. */
  lemma RevokedMountingKeyReturns(sys: System, key: Key, helper: Key, o: Outcomes, after: Verdict, o2: Outcomes)
    requires Slotted(sys) && sys.storage.crypto.mounted && sys.storage.crypto.isSetup
    requires sys.storage.crypto.encryptionKey == key && key != "" && key in sys.keys.authorized
    requires KeyRevoked(sys, key, helper, o, after)
    ensures var back := KeyInserted(after.sys, key, o2);
            && key in back.keys.authorized
            && (key !in back.storage.crypto.disk.slots <==> o.slotChange && sys.storage.crypto.disk.slots[key] == 1)
  {
    MountedWithSlotted(sys.storage, helper, o);
    var removed :| EncryptionKeyRemoved(sys.storage, key, o, removed) && after == Revoked(sys, key, removed);
    RemovedKeySlotted(sys.storage, key, o, removed);
  }

  /** Adding a key forgets another one exactly when its number is taken. */
  lemma AddingForgetsWhenNumberIsTaken(keychain: map<nat, Key>, key: Key)
    requires Distinct(keychain) && !Contains(keychain, key)
    ensures (forall k :: Contains(keychain, k) ==> Contains(KeyAdded(keychain, key), k))
            <==> |keychain| + 1 !in keychain
  {
    var number, added := |keychain| + 1, KeyAdded(keychain, key);
    if number in keychain {
      var lost := keychain[number];
      assert Contains(keychain, lost);
      assert forall i :: i in added && added[i] == lost ==> i in keychain && i != number;
    } else {
      forall k | Contains(keychain, k)
        ensures Contains(added, k)
      {
        var i :| i in keychain && keychain[i] == k;
        assert i in added && added[i] == k;
      }
    }
  }

  /** An authorisation fails and forgets authorised keys exactly when it formats, or has
      no storage yet, and the setup does not go through; it never does while mounted. */
  lemma FailedSetupForgetsKeys(sys: System, key: Key, format: bool, helper: Key, o: Outcomes)
    requires Resting(sys.storage) && Neat(sys.storage) && key !in sys.keys.authorized && sys.keys.authorized != {}
    ensures var v, s := AuthorizeKey(sys, key, format, helper, o), sys.storage;
            !v.ok && v.sys.keys.authorized != sys.keys.authorized <==>
            && (!s.crypto.isSetup || format)
            && (s.crypto.mounted || !(SetupOpens(SetEncryptionKey(s, key), o) && o.mkfs && o.mkdir))
  {
    if !sys.storage.crypto.mounted { SetupHoldsAllOrNothing(SetEncryptionKey(sys.storage, key), o); }
  }

  /** Removing the last inserted authorised key first closes and unmounts the storage,
      and then, to clear the slot, tries to mount it again: exactly when that succeeds
      the storage is left mounted, and open if the system is and the database opens, and
      without any slot if this was the last one. */
  lemma LastKeyRemovalReopens(sys: System, key: Key, helper: Key, o: Outcomes, o2: Outcomes, t: System)
    requires Resting(sys.storage) && Neat(sys.storage) && !sys.crashed && Releases(sys.storage, o)
    requires sys.storage.crypto.mounted && sys.storage.crypto.isSetup && sys.storage.access.hasDatabase
    requires key in sys.keys.authorized && sys.keys.inserted * sys.keys.authorized <= {key}
    requires Step(sys, Remove(key, helper, o, o2), t)
    ensures var c, slots := t.storage.crypto, sys.storage.crypto.disk.slots;
            && (c.mounted <==> helper != "" && helper in slots && o2.dmMod && o2.loopFound && o2.loopSetup
                               && o2.luksOpen && o2.mkdir)
            && (c.mounted ==> (t.storage.access.secretsOpen <==> sys.storage.access.systemOpened && o2.dbInit))
            && (c.mounted ==> (c.disk.slots == multiset{} <==> slots == multiset{key} && o2.slotChange))
  {
    var disabled := KeyDisabled(sys, key, o);
    assert (sys.keys.inserted - {key}) * sys.keys.authorized == {};
    CloseRests(sys.storage, o);
    UnmountRests(sys.storage.(access := sys.storage.access.(secretsOpen := false)), o);
    var s := disabled.storage;
    assert s == CloseSecretsDB(sys.storage, o).s && !disabled.crashed && key in disabled.keys.authorized;
    var ok :| KeyRevoked(disabled, key, helper, o2, Verdict(t, ok));
    var keyed := SetEncryptionKey(s, helper);
    MountHoldsAllOrNothing(keyed, o2);
    MountEffect(keyed, o2);
    var mounted := MountedWith(s, helper, o2);
    if mounted.ok {
      OpeningAtMount(keyed, o2);
      var removed :| EncryptionKeyRemoved(mounted.s, key, o2, removed)
          && Verdict(t, ok) == Revoked(disabled, key, removed);
      RemovalKeepsRest(mounted.s, key, o2, removed);
    }
  }

  lemma OpeningAtMount(s: Storage, o: Outcomes)
    requires Resting(s) && !s.crypto.mounted && Mount(s, o).ok
    ensures Mount(s, o).s.access.secretsOpen <==> s.access.systemOpened && o.dbInit
  {
    var attached := Attach(WithHeld(s, Cleared(s.crypto.held, o)), o);
    assert attached.access == s.access;
  }

  lemma RemovalKeepsRest(s: Storage, key: Key, o: Outcomes, removed: Done)
    requires s.crypto.stage == Mounted && EncryptionKeyRemoved(s, key, o, removed)
    ensures removed.ok && removed.s.access == s.access && removed.s.crypto.mounted == s.crypto.mounted
    ensures removed.s.crypto.disk.slots
            == if SlotGoes(s, key, o) then s.crypto.disk.slots - multiset{key} else s.crypto.disk.slots
  {
  }

  /** A store with two keys, not mounted, and calls that all work but the mount. */
  function StoreOfTwo(): System {
    var disk := Disk(multiset{"a", "b"}, map[1 := "a", 2 := "b"], map[]);
    System(Storage(Crypto(Unmounted, false, true, "", Held(false, false, false), disk), Access(false, false, false)),
           Keys({}, {"a", "b"}), false)
  }

  function AllButMount(): Outcomes {
    Outcomes(true, true, true, true, Formatted, true, true, true, false, true, true, true, true, true, true, true, true)
  }

  lemma TwoKeysSlotted()
    ensures Slotted(StoreOfTwo()) && Tidy(StoreOfTwo().storage)
  {
  }

  lemma UnslottedEntry(sys: System, i: nat)
    requires i in sys.storage.crypto.disk.keychain
            && sys.storage.crypto.disk.keychain[i] !in sys.storage.crypto.disk.slots
    ensures !Slotted(sys)
  {
  }

  lemma TwoKeysMounted()
    ensures var done := MountedWith(StoreOfTwo().storage, "a", AllButMount());
            && done.ok && done.s.crypto.stage == Mounted && !done.s.crypto.held.mount
            && done.s.crypto.disk == Disk(multiset{"a", "b"}, map[1 := "a", 2 := "b"], map[1 := "a"])
  {
    var keyed := SetEncryptionKey(StoreOfTwo().storage, "a");
    MountHoldsAllOrNothing(keyed, AllButMount());
    MountEffect(keyed, AllButMount());
    assert !Contains(map[], "a");
  }

  lemma SecondKeyRemoved(m: Storage) returns (removed: Done)
    requires m.crypto.stage == Mounted && !m.crypto.held.mount
    requires m.crypto.disk == Disk(multiset{"a", "b"}, map[1 := "a", 2 := "b"], map[1 := "a"])
    ensures EncryptionKeyRemoved(m, "b", AllButMount(), removed) && removed.ok
    ensures removed.s.crypto.disk == Disk(multiset{"a"}, map[1 := "a", 2 := "b"], map[1 := "a"])
  {
    var written := WithDisk(m, m.crypto.disk.(slots := multiset{"a", "b"} - multiset{"b"}));
    assert !Contains(KeychainSeen(written.crypto), "b");
    removed := Done(written.(crypto := WithKeychain(written.crypto, map[1 := "a"])), true);
    assert KeyRemovedFrom(KeychainSeen(written.crypto), "b", map[1 := "a"]);
  }

  /** A run that strands a key: while the unchecked mount call fails, "b" is revoked with
      the help of "a". Its slot goes, and its entry in the real keychain stays. */
  lemma FailedMountStrandsKey() returns (t: System)
    ensures Slotted(StoreOfTwo()) && Tidy(StoreOfTwo().storage)
            && Step(StoreOfTwo(), Revoke("b", "a", AllButMount()), t)
    ensures "b" !in t.storage.crypto.disk.slots && Contains(t.storage.crypto.disk.keychain, "b") && !Slotted(t)
  {
    TwoKeysSlotted();
    TwoKeysMounted();
    var mounted := MountedWith(StoreOfTwo().storage, "a", AllButMount());
    var removed := SecondKeyRemoved(mounted.s);
    t := Revoked(StoreOfTwo(), "b", removed).sys;
    assert KeyRevoked(StoreOfTwo(), "b", "a", AllButMount(), Verdict(t, true));
    assert t.storage.crypto.disk.keychain[2] == "b";
    UnslottedEntry(t, 2);
  }
}
