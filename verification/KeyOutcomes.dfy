/** When each operation on keys and on the storage succeeds, and what it leaves of the keys
    and of the mounted file system. */
module KeyOutcomes {
  import opened EncryptedStorage
  import opened MountDiscipline
  import opened KeySlots
  import opened KeyAuthorization

  /** A leftover mapping can be closed, by the clearing or when its name is needed. */
  predicate MappingIsFree(s: Storage, o: Outcomes) {
    s.crypto.held.mapping ==> o.clearClose || o.leftoverClose
  }

  /** A storage that is not mounted can be mounted with this key. */
  predicate MountsWith(s: Storage, key: Key, o: Outcomes) {
    && key != "" && key in s.crypto.disk.slots && MappingIsFree(s, o)
    && o.dmMod && o.loopFound && o.loopSetup && o.luksOpen && o.mkdir
  }

  /** A mount that does not get as far as the loop device gives back leftovers; a later
      failure gives back what it had got, too. */
  lemma LeftoversAreCleared(s: Storage, o: Outcomes)
    requires Resting(s) && !s.crypto.mounted && s.crypto.encryptionKey != "" && !MountAttaches(s, o)
    ensures Mount(s, o).s.crypto.held
         == Held(s.crypto.held.loop, s.crypto.held.mapping && !o.clearClose, s.crypto.held.mount && !o.clearUmount)
    ensures o.dmMod ==> Setup(s, o.(partition := false)).s.crypto.held == Mount(s, o).s.crypto.held
  {
  }

  /** A mount that fails later gives back a leftover mapping, or the one that it opened. */
  lemma FailedMountClosesMapping(s: Storage, o: Outcomes)
    requires Resting(s) && !s.crypto.mounted && MountAttaches(s, o) && !Mount(s, o).ok
    ensures Mount(s, o).s.crypto.held.mapping <==>
            if MountOpens(s, o) && MappingIsFree(s, o) then !o.close
            else s.crypto.held.mapping && !o.clearClose && !o.leftoverClose
  {
    var attached := Attach(WithHeld(s, Cleared(s.crypto.held, o)), o);
    assert Mount(s, o) == OpenMapping(attached, o, false);
    FailedOpeningClosesMapping(attached, o);
  }

  lemma FailedOpeningClosesMapping(s: Storage, o: Outcomes)
    requires Consistent(s) && s.crypto.stage == LoopSet && !OpenMapping(s, o, false).ok
    ensures OpenMapping(s, o, false).s.crypto.held.mapping <==>
            if Opens(s.crypto, o) then !o.close else s.crypto.held.mapping && !o.leftoverClose
  {
    var held := s.crypto.held;
    if Opens(s.crypto, o) {
      UnmountRests(UpdateMountState(WithHeld(s, held.(mapping := true)), LoopLuksOpened, o.dbInit), o);
    } else {
      UnmountRests(WithHeld(s, held.(mapping := held.mapping && !o.leftoverClose)), o);
    }
  }

  lemma MountsExactlyWhen(s: Storage, o: Outcomes)
    requires Resting(s) && !s.crypto.mounted
    ensures Mount(s, o).ok <==> MountsWith(s, s.crypto.encryptionKey, o)
    ensures Mount(s, o).s.crypto.mounted <==> Mount(s, o).ok
  {
    MountRests(s, o);
    if MountAttaches(s, o) {
      var attached := Attach(WithHeld(s, Cleared(s.crypto.held, o)), o);
      assert Mount(s, o) == OpenMapping(attached, o, false);
      OpenMappingRests(attached, o, false);
      OpensAfterClearing(s, o);
    }
  }

  lemma OpensAfterClearing(s: Storage, o: Outcomes)
    ensures Opens(Attach(WithHeld(s, Cleared(s.crypto.held, o)), o).crypto, o) <==>
            o.luksOpen && s.crypto.encryptionKey in s.crypto.disk.slots && MappingIsFree(s, o)
  {
  }

  lemma MountWithKey(s: Storage, key: Key, o: Outcomes)
    requires Resting(s) && !s.crypto.mounted
    ensures var done := Mount(SetEncryptionKey(s, key), o);
            && (done.ok <==> MountsWith(s, key, o)) && (done.s.crypto.mounted <==> done.ok)
            && done.s.crypto.disk.slots == s.crypto.disk.slots
            && done.s.access.(secretsOpen := false) == s.access
            && (done.s.access.secretsOpen <==> done.ok && s.access.systemOpened && o.dbInit)
  {
    var keyed := SetEncryptionKey(s, key);
    MountsExactlyWhen(keyed, o);
    MountEffect(keyed, o);
    if Mount(keyed, o).ok { OpeningAtMount(keyed, o); }
    MountLeavesAccess(keyed, o);
  }

  lemma MountLeavesAccess(s: Storage, o: Outcomes)
    requires Resting(s) && !s.crypto.mounted
    ensures Mount(s, o).s.access.(secretsOpen := false) == s.access
    ensures !Mount(s, o).ok ==> !Mount(s, o).s.access.secretsOpen
  {
    if MountAttaches(s, o) {
      var attached := Attach(WithHeld(s, Cleared(s.crypto.held, o)), o);
      assert Mount(s, o) == OpenMapping(attached, o, false);
      OpeningLeavesAccess(attached, o);
    }
  }

  lemma OpeningLeavesAccess(s: Storage, o: Outcomes)
    requires Consistent(s) && s.crypto.stage == LoopSet
    ensures OpenMapping(s, o, false).s.access.(secretsOpen := false) == s.access
    ensures !OpenMapping(s, o, false).ok ==> !OpenMapping(s, o, false).s.access.secretsOpen
  {
    OpenMappingRests(s, o, false);
  }

  /** The inserted key is authorised if it was before, or if the storage is set up and the
      key opens it: by mounting, or, while mounted, as the key that did so or one listed in
      the file that is seen. The storage is mounted then. No other key gains or loses. */
  lemma InsertedKeyIsAuthorized(sys: System, key: Key, o: Outcomes, other: Key)
    requires Resting(sys.storage)
    ensures var t, c := KeyInserted(sys, key, o), sys.storage.crypto;
            && t.keys.inserted == sys.keys.inserted + (if key == "" then {} else {key})
            && (other != key ==> (other in t.keys.authorized <==> other in sys.keys.authorized))
            && (key in t.keys.authorized <==>
                  || key in sys.keys.authorized
                  || (key != "" && c.isSetup &&
                      if c.mounted then c.encryptionKey == key || Contains(KeychainSeen(c), key)
                      else MountsWith(sys.storage, key, o)))
            && (t.storage.crypto.mounted <==> c.mounted || (c.isSetup && MountsWith(sys.storage, key, o)))
  {
    if !sys.storage.crypto.mounted { MountWithKey(sys.storage, key, o); }
  }

  /** Mounted, or mounted now with the helping key. */
  predicate IsOpenedBy(s: Storage, helper: Key, o: Outcomes) {
    s.crypto.mounted || MountsWith(s, helper, o)
  }

  lemma OpenedByHelper(s: Storage, helper: Key, o: Outcomes)
    requires Resting(s)
    ensures var done := MountedWith(s, helper, o);
            && (done.ok <==> IsOpenedBy(s, helper, o)) && (done.ok <==> done.s.crypto.mounted)
            && (done.ok <==> done.s.crypto.stage == Mounted)
            && done.s.crypto.disk.slots == s.crypto.disk.slots
  {
    MountedWithFine(s, helper, o, false);
    if !s.crypto.mounted { MountWithKey(s, helper, o); }
  }

  predicate SetsUp(s: Storage, key: Key, o: Outcomes) {
    && !s.crypto.mounted && key != "" && MappingIsFree(s, o) && o.dmMod && o.loopFound && o.partition && o.loopSetup
    && o.luksFormat == Formatted && o.luksOpen && o.mkfs && o.mkdir
  }

  lemma SetsUpExactlyWhen(s: Storage, o: Outcomes)
    requires Resting(s) && !s.crypto.mounted
    ensures Setup(s, o).ok <==> SetsUp(s, s.crypto.encryptionKey, o)
    ensures Setup(s, o).s.crypto.mounted <==> Setup(s, o).ok
  {
    SetupRests(s, o);
    if SetupAttaches(s, o) {
      FormatsAndOpens(Attach(PartitionCreated(WithHeld(s, Cleared(s.crypto.held, o))), o), o);
    }
  }

  lemma FormatsAndOpens(s: Storage, o: Outcomes)
    requires Consistent(s) && s.crypto.stage == LoopSet
    ensures FormatAndOpen(s, o).ok <==>
            && o.luksFormat == Formatted && o.luksOpen && o.mkfs && o.mkdir
            && (s.crypto.held.mapping ==> o.leftoverClose)
  {
    var written := WithDisk(s, FormattedDisk(s.crypto.disk, s.crypto.encryptionKey, o.luksFormat));
    if o.luksFormat == Formatted {
      OpenMappingRests(UpdateMountState(written, LoopLuksFormatted, o.dbInit), o, true);
    }
  }

  /** What a setup makes of the disk: nothing unless it gets to formatting. That leaves the
      key alone in the header and an empty keychain, a header without keys, or all as it
      was; at the end the key is listed in the file that is seen. And the storage counts
      as set up from the moment that the partition exists. */
  lemma SetupOnDisk(s: Storage, o: Outcomes)
    requires Resting(s)
    ensures var done, key, before := Setup(s, o), s.crypto.encryptionKey, s.crypto.disk;
            var d, sees := done.s.crypto.disk, SeesMount(s.crypto, o);
            && d.slots == (if !Formats(s, o) || o.luksFormat == Untouched then before.slots
                           else if o.luksFormat == Formatted then multiset{key} else multiset{})
            && d.bare == (if done.ok && !sees then KeyAdded(before.bare, key) else before.bare)
            && d.keychain == (if !Formats(s, o) || o.luksFormat == Untouched then before.keychain
                              else if done.ok && sees then map[1 := key] else map[])
  {
    SetupEffect(s, o);
    assert KeyAdded(map[], s.crypto.encryptionKey) == map[1 := s.crypto.encryptionKey];
  }

  lemma PartitionIsSetUp(s: Storage, o: Outcomes)
    requires Resting(s)
    ensures Setup(s, o).s.crypto.isSetup <==>
            || s.crypto.isSetup
            || (!s.crypto.mounted && s.crypto.encryptionKey != "" && o.dmMod && o.loopFound && o.partition)
    ensures Mount(s, o).s.crypto.isSetup == s.crypto.isSetup
  {
    var cleared := WithHeld(s, Cleared(s.crypto.held, o));
    if s.crypto.stage == Unmounted && MountAttaches(s, o) {
      OpeningKeepsSetUp(Attach(cleared, o), o, false);
      if SetupAttaches(s, o) { FormattingKeepsSetUp(Attach(PartitionCreated(cleared), o), o); }
    }
  }

  lemma UnmountKeepsSetUp(s: Storage, o: Outcomes)
    ensures Unmount(s, o).s.crypto.isSetup == s.crypto.isSetup
  {
  }

  lemma FinishKeepsSetUp(s: Storage, o: Outcomes)
    ensures Finish(s, o).s.crypto.isSetup == s.crypto.isSetup
  {
    if !o.mkdir { UnmountKeepsSetUp(s, o); }
  }

  lemma OpeningKeepsSetUp(s: Storage, o: Outcomes, format: bool)
    ensures OpenMapping(s, o, format).s.crypto.isSetup == s.crypto.isSetup
  {
    var held := s.crypto.held;
    if !Opens(s.crypto, o) {
      UnmountKeepsSetUp(WithHeld(s, held.(mapping := held.mapping && !o.leftoverClose)), o);
    } else {
      var open := UpdateMountState(WithHeld(s, held.(mapping := true)), LoopLuksOpened, o.dbInit);
      if format && !o.mkfs { UnmountKeepsSetUp(open, o); } else { FinishKeepsSetUp(open, o); }
    }
  }

  lemma FormattingKeepsSetUp(s: Storage, o: Outcomes)
    ensures FormatAndOpen(s, o).s.crypto.isSetup == s.crypto.isSetup
  {
    if o.luksFormat == Formatted {
      var written := WithDisk(s, FormattedDisk(s.crypto.disk, s.crypto.encryptionKey, o.luksFormat));
      OpeningKeepsSetUp(UpdateMountState(written, LoopLuksFormatted, o.dbInit), o, true);
    }
  }

  lemma SetUpWithKey(s: Storage, key: Key, o: Outcomes)
    requires Resting(s)
    ensures Setup(SetEncryptionKey(s, key), o).ok <==> SetsUp(s, key, o)
    ensures SetsUp(s, key, o) ==>
              Setup(SetEncryptionKey(s, key), o).s.crypto.mounted && Setup(SetEncryptionKey(s, key), o).s.crypto.isSetup
  {
    if !s.crypto.mounted {
      SetsUpExactlyWhen(SetEncryptionKey(s, key), o);
      if SetsUp(s, key, o) { PartitionIsSetUp(SetEncryptionKey(s, key), o); }
    }
  }

  /** An authorisation succeeds exactly if the key was authorised already; or the storage
      has to be set up, and is; or an authorised key helps, that has a slot and mounts the
      storage if need be, and the new slot can be written. */
  lemma AuthorizesExactlyWhen(sys: System, key: Key, format: bool, helper: Key, o: Outcomes)
    requires Resting(sys.storage)
    ensures var v, s := AuthorizeKey(sys, key, format, helper, o), sys.storage;
            && (v.ok <==>
                  || key in sys.keys.authorized
                  || (if Reformats(sys, key, format) then SetsUp(s, key, o)
                      else sys.keys.authorized != {} && IsOpenedBy(s, helper, o) && helper in s.crypto.disk.slots
                           && o.slotChange))
            && v.sys.keys.inserted == sys.keys.inserted
            && v.sys.keys.authorized
            == (if Reformats(sys, key, format) then {} else sys.keys.authorized) + (if v.ok then {key} else {})
            && (v.ok && key !in sys.keys.authorized ==> v.sys.storage.crypto.mounted)
  {
    if Reformats(sys, key, format) {
      SetUpWithKey(sys.storage, key, o);
    } else {
      LetsInExactlyWhen(sys.storage, key, helper, o);
    }
  }

  lemma LetsInExactlyWhen(s: Storage, key: Key, helper: Key, o: Outcomes)
    requires Resting(s)
    ensures LetIn(s, key, helper, o).ok <==>
            IsOpenedBy(s, helper, o) && helper in s.crypto.disk.slots && o.slotChange
    ensures LetIn(s, key, helper, o).ok ==> LetIn(s, key, helper, o).s.crypto.mounted
  {
    OpenedByHelper(s, helper, o);
    var mounted := MountedWith(s, helper, o);
    if mounted.ok { AddsExactlyWhen(mounted.s, key, helper, o); }
  }

  lemma AddsExactlyWhen(s: Storage, key: Key, existing: Key, o: Outcomes)
    requires s.crypto.stage == Mounted
    ensures var done := AddEncryptionKey(s, key, existing, o);
            (done.ok <==> existing in s.crypto.disk.slots && o.slotChange) && done.s.crypto.mounted == s.crypto.mounted
  {
  }

  /** A revocation succeeds exactly if the storage is set up, some key is authorised, and
      the storage is mounted or can be with the helping key. */
  lemma RevokesExactlyWhen(sys: System, key: Key, helper: Key, o: Outcomes, after: Verdict)
    requires Resting(sys.storage) && KeyRevoked(sys, key, helper, o, after)
    ensures after.ok <==>
            sys.storage.crypto.isSetup && sys.keys.authorized != {} && IsOpenedBy(sys.storage, helper, o)
    ensures after.sys.keys.inserted == sys.keys.inserted
    ensures after.sys.keys.authorized == sys.keys.authorized - (if after.ok then {key} else {})
  {
    OpenedByHelper(sys.storage, helper, o);
    var mounted := MountedWith(sys.storage, helper, o);
    if sys.storage.crypto.isSetup && sys.keys.authorized != {} && mounted.ok {
      var removed :| EncryptionKeyRemoved(mounted.s, key, o, removed) && after == Revoked(sys, key, removed);
    }
  }

  /** No other authorised key is inserted. */
  predicate IsLastAuthorized(keys: Keys, key: Key) {
    key in keys.authorized && forall k :: k in keys.inserted && k in keys.authorized ==> k == key
  }

  /** A disabled key is no longer inserted, and keeps its authorisation; the last one that
      was inserted closes and unmounts the storage, and no other touches it. */
  lemma LastKeyCloses(sys: System, key: Key, o: Outcomes)
    requires Resting(sys.storage) && !sys.crashed && sys.storage.access.hasDatabase
    ensures var t, s := KeyDisabled(sys, key, o), sys.storage;
            && t.keys == Keys(sys.keys.inserted - {key}, sys.keys.authorized) && !t.crashed
            && (if IsLastAuthorized(sys.keys, key)
                then !t.storage.crypto.mounted && t.storage.access == s.access.(secretsOpen := false)
                else t.storage == s)
  {
    CloseRests(sys.storage, o);
    var left := (sys.keys.inserted - {key}) * sys.keys.authorized;
    assert IsLastAuthorized(sys.keys, key) <==> key in sys.keys.authorized && left == {} by {
      forall k | k in sys.keys.inserted && k in sys.keys.authorized && k != key
        ensures k in left
      {
      }
    }
  }

  /** Opening the credentials system mounts the storage if it can, and the secrets database
      is open afterwards exactly if the storage is mounted and the database could be
      initialised. */
  lemma OpenedSystem(s: Storage, o: Outcomes)
    requires Resting(s)
    ensures var t := OpenCredentialsSystem(s, true, o).s;
            && t.access.systemOpened && t.access.hasDatabase
            && (t.crypto.mounted <==> s.crypto.mounted || MountsWith(s, s.crypto.encryptionKey, o))
            && (t.access.secretsOpen <==> t.crypto.mounted && o.dbInit)
  {
    var u := s.(access := s.access.(hasDatabase := true, systemOpened := true));
    if !s.crypto.mounted {
      MountWithKey(u, u.crypto.encryptionKey, o);
      assert SetEncryptionKey(u, u.crypto.encryptionKey) == u;
    }
  }

  /** Without its metadata the system is not opened, and nothing else happens. */
  lemma SystemStaysClosed(s: Storage, o: Outcomes)
    ensures OpenCredentialsSystem(s, false, o) == Done(s.(access := s.access.(hasDatabase := true)), false)
  {
  }

  /** Closing an open credentials system leaves neither database nor an open secrets
      database; the storage is unmounted only if its secrets database was open. Closing
      it again does nothing. */
  lemma ClosedSystem(s: Storage, o: Outcomes)
    requires Resting(s)
    ensures var t := CloseCredentialsSystem(s, o).s;
            if !s.access.systemOpened then t == s
            else t.access == Access(false, false, false)
                 && (t.crypto.mounted <==> s.crypto.mounted && !s.access.secretsOpen)
  {
    CloseRests(s, o);
  }
}
