/** The secrets database is open only on a mounted file system, and the mount stage
    tells what is held of the operating system. */
module MountDiscipline {
  import opened EncryptedStorage

  predicate Consistent(s: Storage) {
    && (s.access.secretsOpen ==> s.access.systemOpened && s.crypto.mounted)
    && (s.access.systemOpened ==> s.access.hasDatabase)
    && (s.crypto.mounted <==> s.crypto.stage == Mounted)
  }

  /** Between operations the stage is one of the two ends. */
  predicate Resting(s: Storage) {
    Consistent(s) && (s.crypto.stage == Unmounted || s.crypto.stage == Mounted)
  }

  /** What each stage holds. */
  function HeldAt(stage: Stage): Held {
    Held(stage.Rank() >= 1, stage.Rank() >= 3, stage == Mounted)
  }

  predicate Tidy(s: Storage) {
    s.crypto.held == HeldAt(s.crypto.stage)
  }

  /** The same but for a mount call that failed: its result is not looked at, so the
      stage is Mounted all the same. */
  predicate Neat(s: Storage) {
    && (s.crypto.held.loop <==> s.crypto.stage.Rank() >= 1)
    && (s.crypto.held.mapping <==> s.crypto.stage.Rank() >= 3)
    && (s.crypto.held.mount ==> s.crypto.stage == Mounted)
  }

  lemma NeatOrTidy(s: Storage)
    ensures Tidy(s) <==> Neat(s) && (s.crypto.stage == Mounted ==> s.crypto.held.mount)
  {
  }

  /** The calls that give back succeed; umount only if there is something mounted. */
  predicate Releases(s: Storage, o: Outcomes) {
    o.close && o.detach && (s.crypto.held.mount ==> o.umount)
  }

  lemma UnmountRests(s: Storage, o: Outcomes)
    requires Consistent(s)
    ensures var t := Unmount(s, o).s;
            && Resting(t) && t.crypto.stage == Unmounted
            && t.crypto
            == s.crypto.(stage := Unmounted, mounted := false, held := Released(s.crypto.held, s.crypto.stage, o))
            && (s.access.systemOpened <==> t.access.systemOpened)
            && !t.access.secretsOpen
  {
  }

  /** Unmounting from any stage gives back what that stage holds, except for the
      calls that fail; failing calls other than umount are reported. */
  lemma UnmountReleases(s: Storage, o: Outcomes)
    requires Consistent(s) && Neat(s)
    ensures var held, stage := Unmount(s, o).s.crypto.held, s.crypto.stage;
            held == Held(stage.Rank() >= 1 && !o.detach, stage.Rank() >= 3 && !o.close,
                         s.crypto.held.mount && !o.umount)
    ensures Unmount(s, o).ok <==> !Unmount(s, o).s.crypto.held.loop && !Unmount(s, o).s.crypto.held.mapping
  {
    UnmountRests(s, o);
  }

  lemma FinishRests(s: Storage, o: Outcomes)
    requires Consistent(s) && s.crypto.stage == LoopLuksOpened
    ensures var done := Finish(s, o);
            && Resting(done.s) && (done.ok <==> done.s.crypto.stage == Mounted) && (done.ok <==> o.mkdir)
            && (Tidy(s) && done.ok ==> Neat(done.s) && (Tidy(done.s) <==> o.mount))
            && (Tidy(s) && !done.ok ==> (Tidy(done.s) <==> o.close && o.detach))
  {
    if !o.mkdir {
      UnmountRests(s, o);
    } else {
      var mounted := WithHeld(s, s.crypto.held.(mount := s.crypto.held.mount || o.mount));
      var keychain := KeyAdded(KeychainSeen(mounted.crypto), mounted.crypto.encryptionKey);
      var noted := mounted.(crypto := WithKeychain(mounted.crypto, keychain));
      assert noted.crypto.stage == LoopLuksOpened && noted.crypto.held == mounted.crypto.held;
      assert Finish(s, o).s == UpdateMountState(noted, Mounted, o.dbInit);
    }
  }

  lemma OpenMappingRests(s: Storage, o: Outcomes, format: bool)
    requires Consistent(s) && (s.crypto.stage == LoopSet || s.crypto.stage == LoopLuksFormatted)
    ensures var done := OpenMapping(s, o, format);
            && Resting(done.s) && (done.ok <==> done.s.crypto.stage == Mounted)
            && (done.ok <==> Opens(s.crypto, o) && (format ==> o.mkfs) && o.mkdir)
            && (Tidy(s) && done.ok ==> Neat(done.s) && (Tidy(done.s) <==> o.mount))
            && (Tidy(s) && !done.ok ==> (Tidy(done.s) <==> o.detach && (Opens(s.crypto, o) ==> o.close)))
  {
    var held := s.crypto.held;
    if !Opens(s.crypto, o) {
      UnmountRests(WithHeld(s, held.(mapping := held.mapping && !o.leftoverClose)), o);
    } else {
      var open := UpdateMountState(WithHeld(s, held.(mapping := true)), LoopLuksOpened, o.dbInit);
      if format && !o.mkfs { UnmountRests(open, o); } else { FinishRests(open, o); }
    }
  }

  /** Which calls a mount must get through to attach the loop device, and to open
      the mapping. */
  predicate MountAttaches(s: Storage, o: Outcomes) {
    s.crypto.encryptionKey != "" && o.dmMod && o.loopFound && o.loopSetup
  }

  predicate MountOpens(s: Storage, o: Outcomes) {
    MountAttaches(s, o) && o.luksOpen && s.crypto.encryptionKey in s.crypto.disk.slots
  }

  /** A mount that fails leaves nothing behind exactly when the releases of what it
      had got so far succeed; one that succeeds holds everything exactly when the
      unchecked mount call worked. */
  lemma MountHoldsAllOrNothing(s: Storage, o: Outcomes)
    requires Resting(s) && Tidy(s) && s.crypto.stage == Unmounted
    ensures var done := Mount(s, o);
            && Resting(done.s) && (done.ok <==> MountOpens(s, o) && o.mkdir)
            && (done.ok <==> done.s.crypto.stage == Mounted)
            && (done.ok ==> Neat(done.s) && (Tidy(done.s) <==> o.mount))
            && (!done.ok ==> (Tidy(done.s) <==> (MountAttaches(s, o) ==> o.detach) && (MountOpens(s, o) ==> o.close)))
  {
    var cleared := WithHeld(s, Cleared(s.crypto.held, o));
    assert cleared == s;
    if MountAttaches(s, o) {
      assert !s.crypto.held.mapping;
      OpenMappingRests(Attach(s, o), o, false);
    }
  }

  predicate SetupAttaches(s: Storage, o: Outcomes) {
    MountAttaches(s, o) && o.partition
  }

  predicate SetupOpens(s: Storage, o: Outcomes) {
    SetupAttaches(s, o) && o.luksFormat == Formatted && o.luksOpen
  }

  lemma FormatAndOpenRests(s: Storage, o: Outcomes)
    requires Consistent(s) && s.crypto.stage == LoopSet
    ensures var done := FormatAndOpen(s, o);
            && Resting(done.s) && (done.ok <==> done.s.crypto.stage == Mounted)
            && (Tidy(s) ==> (done.ok <==> o.luksFormat == Formatted && o.luksOpen && o.mkfs && o.mkdir))
            && (Tidy(s) && done.ok ==> Neat(done.s) && (Tidy(done.s) <==> o.mount))
            && (Tidy(s) && !done.ok ==>
                  (Tidy(done.s) <==> o.detach && (o.luksFormat == Formatted && o.luksOpen ==> o.close)))
  {
    var written := WithDisk(s, FormattedDisk(s.crypto.disk, s.crypto.encryptionKey, o.luksFormat));
    if o.luksFormat != Formatted {
      UnmountRests(written, o);
    } else {
      OpenMappingRests(UpdateMountState(written, LoopLuksFormatted, o.dbInit), o, true);
    }
  }

  /** The same for setting up a new file system. */
  lemma SetupHoldsAllOrNothing(s: Storage, o: Outcomes)
    requires Resting(s) && Tidy(s) && s.crypto.stage == Unmounted
    ensures var done := Setup(s, o);
            && Resting(done.s) && (done.ok <==> SetupOpens(s, o) && o.mkfs && o.mkdir)
            && (done.ok <==> done.s.crypto.stage == Mounted)
            && (done.ok ==> Neat(done.s) && (Tidy(done.s) <==> o.mount))
            && (!done.ok ==> (Tidy(done.s) <==> (SetupAttaches(s, o) ==> o.detach) && (SetupOpens(s, o) ==> o.close)))
  {
    assert WithHeld(s, Cleared(s.crypto.held, o)) == s;
    if SetupAttaches(s, o) { FormatAndOpenRests(Attach(PartitionCreated(s), o), o); }
  }

  // Without any assumption on the calls.

  lemma MountRests(s: Storage, o: Outcomes)
    requires Resting(s)
    ensures Resting(Mount(s, o).s)
    ensures s.crypto.stage == Unmounted ==> (Mount(s, o).ok <==> Mount(s, o).s.crypto.stage == Mounted)
    ensures Releases(s, o) && Neat(s) ==> Neat(Mount(s, o).s)
  {
    if s.crypto.stage == Unmounted && MountAttaches(s, o) {
      OpenMappingRests(Attach(WithHeld(s, Cleared(s.crypto.held, o)), o), o, false);
    }
    if s.crypto.stage == Unmounted && Neat(s) { MountHoldsAllOrNothing(s, o); }
  }

  lemma SetupRests(s: Storage, o: Outcomes)
    requires Resting(s)
    ensures Resting(Setup(s, o).s)
    ensures s.crypto.stage == Unmounted ==> (Setup(s, o).ok <==> Setup(s, o).s.crypto.stage == Mounted)
    ensures Releases(s, o) && Neat(s) ==> Neat(Setup(s, o).s)
  {
    if s.crypto.stage == Unmounted && SetupAttaches(s, o) {
      FormatAndOpenRests(Attach(PartitionCreated(WithHeld(s, Cleared(s.crypto.held, o))), o), o);
    }
    if s.crypto.stage == Unmounted && Neat(s) { SetupHoldsAllOrNothing(s, o); }
  }

  lemma CloseRests(s: Storage, o: Outcomes)
    requires Resting(s)
    ensures Resting(CloseSecretsDB(s, o).s) && CloseSecretsDB(s, o).s.crypto.stage == Unmounted
    ensures CloseSecretsDB(s, o).s.access == s.access.(secretsOpen := false)
    ensures Releases(s, o) && Neat(s) ==> Neat(CloseSecretsDB(s, o).s)
  {
    var closing := s.(access := s.access.(secretsOpen := false));
    UnmountRests(closing, o);
    if Neat(s) { UnmountReleases(closing, o); }
  }

  ghost predicate Fine(s: Storage, neat: bool) {
    Resting(s) && (neat ==> Neat(s))
  }

  lemma KeyInsertedFine(sys: System, key: Key, o: Outcomes, neat: bool)
    requires Fine(sys.storage, neat) && (neat ==> Releases(sys.storage, o))
    ensures Fine(KeyInserted(sys, key, o).storage, neat)
  {
    MountRests(SetEncryptionKey(sys.storage, key), o);
  }

  lemma KeyDisabledFine(sys: System, key: Key, o: Outcomes, neat: bool)
    requires Fine(sys.storage, neat) && (neat ==> Releases(sys.storage, o))
    ensures Fine(KeyDisabled(sys, key, o).storage, neat)
  {
    CloseRests(sys.storage, o);
  }

  lemma MountedWithFine(s: Storage, key: Key, o: Outcomes, neat: bool)
    requires Fine(s, neat) && (neat ==> Releases(s, o))
    ensures Fine(MountedWith(s, key, o).s, neat)
    ensures MountedWith(s, key, o).ok <==> MountedWith(s, key, o).s.crypto.stage == Mounted
  {
    MountRests(SetEncryptionKey(s, key), o);
  }

  lemma AddKeyFine(s: Storage, key: Key, existing: Key, o: Outcomes, neat: bool)
    requires Fine(s, neat)
    ensures Fine(AddEncryptionKey(s, key, existing, o).s, neat)
  {
    var t := AddEncryptionKey(s, key, existing, o).s;
    assert t == Storage(t.crypto, s.access) && t.crypto.(disk := s.crypto.disk) == s.crypto;
  }

  lemma AuthorizeFine(sys: System, key: Key, format: bool, helper: Key, o: Outcomes, neat: bool)
    requires Fine(sys.storage, neat) && (neat ==> Releases(sys.storage, o))
    ensures Fine(AuthorizeKey(sys, key, format, helper, o).sys.storage, neat)
  {
    if !sys.storage.crypto.isSetup || format {
      SetupRests(SetEncryptionKey(sys.storage, key), o);
    } else {
      MountedWithFine(sys.storage, helper, o, neat);
      AddKeyFine(MountedWith(sys.storage, helper, o).s, key, helper, o, neat);
    }
  }

  lemma RemovedKeyFine(s: Storage, key: Key, o: Outcomes, removed: Done, neat: bool)
    requires Fine(s, neat) && EncryptionKeyRemoved(s, key, o, removed)
    ensures Fine(removed.s, neat)
  {
    assert removed.s.access == s.access && removed.s.crypto.(disk := s.crypto.disk) == s.crypto;
  }

  lemma RevokeFine(sys: System, key: Key, helper: Key, o: Outcomes, after: Verdict, neat: bool)
    requires Fine(sys.storage, neat) && (neat ==> Releases(sys.storage, o)) && KeyRevoked(sys, key, helper, o, after)
    ensures Fine(after.sys.storage, neat)
  {
    MountedWithFine(sys.storage, helper, o, neat);
    var mounted := MountedWith(sys.storage, helper, o);
    if sys.storage.crypto.isSetup && sys.keys.authorized != {} && mounted.ok {
      var removed :| EncryptionKeyRemoved(mounted.s, key, o, removed) && after == Revoked(sys, key, removed);
      RemovedKeyFine(mounted.s, key, o, removed, neat);
    }
  }

  lemma OpenSystemFine(s: Storage, metaOk: bool, o: Outcomes, neat: bool)
    requires Fine(s, neat) && (neat ==> Releases(s, o))
    ensures Fine(OpenCredentialsSystem(s, metaOk, o).s, neat)
  {
    MountRests(s.(access := s.access.(hasDatabase := true, systemOpened := true)), o);
  }

  lemma CloseSystemFine(s: Storage, o: Outcomes, neat: bool)
    requires Fine(s, neat) && (neat ==> Releases(s, o))
    ensures Fine(CloseCredentialsSystem(s, o).s, neat)
  {
    CloseRests(s, o);
  }

  predicate StepReleases(sys: System, e: Event) {
    && Releases(sys.storage, e.o)
    && (e.Remove? ==> Releases(KeyDisabled(sys, e.key, e.o).storage, e.o2))
  }

  lemma StepFine(sys: System, e: Event, t: System, neat: bool)
    requires Fine(sys.storage, neat) && (neat ==> StepReleases(sys, e)) && Step(sys, e, t)
    ensures Fine(t.storage, neat)
  {
    if !sys.crashed {
      match e {
        case OpenSystem(metaOk, o) => OpenSystemFine(sys.storage, metaOk, o, neat);
        case CloseSystem(o) => CloseSystemFine(sys.storage, o, neat);
        case Insert(key, o) => KeyInsertedFine(sys, key, o, neat);
        case Disable(key, o) => KeyDisabledFine(sys, key, o, neat);
        case Remove(key, helper, o, o2) =>
          KeyDisabledFine(sys, key, o, neat);
          var disabled := KeyDisabled(sys, key, o);
          if !(disabled.crashed || key !in disabled.keys.authorized) {
            var ok :| KeyRevoked(disabled, key, helper, o2, Verdict(t, ok));
            RevokeFine(disabled, key, helper, o2, Verdict(t, ok), neat);
          }
        case Authorize(key, format, helper, o) => AuthorizeFine(sys, key, format, helper, o, neat);
        case Revoke(key, helper, o) =>
          var ok :| KeyRevoked(sys, key, helper, o, Verdict(t, ok));
          RevokeFine(sys, key, helper, o, Verdict(t, ok), neat);
      }
    }
  }

  /** In every reachable state, an open secrets database implies an open system and
      a mounted file system, and mounted is the same as stage Mounted; and as long as
      the releases succeed, whatever the mount calls answered, the loop device and the
      mapping are held exactly in the stages that have them, nothing but the stage
      Mounted has a mount, and so an unmounted storage holds nothing. */
  lemma {:induction false} DisciplineOverRuns(states: seq<System>, run: seq<Event>, n: nat, neat: bool)
    requires Run(states, run) && n <= |run| && Fine(states[0].storage, neat)
    requires neat ==> forall i :: 0 <= i < n ==> StepReleases(states[i], run[i])
    ensures Fine(states[n].storage, neat)
    ensures neat && states[n].storage.crypto.stage == Unmounted ==>
              states[n].storage.crypto.held == Held(false, false, false)
  {
    if n > 0 {
      DisciplineOverRuns(states, run, n - 1, neat);
      StepFine(states[n - 1], run[n - 1], states[n], neat);
    }
  }

  /** The last authorised key going away while no database object exists is the one
      way to the null pointer. */
  lemma CrashesExactlyWhen(sys: System, key: Key, o: Outcomes)
    requires !sys.crashed
    ensures KeyDisabled(sys, key, o).crashed <==>
            && key in sys.keys.authorized && sys.keys.inserted * sys.keys.authorized <= {key}
            && !sys.storage.access.hasDatabase
  {
    var removed := sys.keys.inserted - {key};
    assert removed * sys.keys.authorized == {} <==> sys.keys.inserted * sys.keys.authorized <= {key};
  }
}
