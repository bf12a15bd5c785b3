/** The life cycle of the encrypted storage: the staged mount of the crypto
    manager, the signals it sends to the access manager, and the keys. What the
    system calls answer is a parameter of every operation. */
module EncryptedStorage {
  type Key = string

  datatype Stage = Unmounted | LoopSet | LoopLuksFormatted | LoopLuksOpened | Mounted
  {
    function Rank(): nat {
      match this
      case Unmounted => 0
      case LoopSet => 1
      case LoopLuksFormatted => 2
      case LoopLuksOpened => 3
      case Mounted => 4
    }
  }

  /** What the daemon holds of the operating system. */
  datatype Held = Held(loop: bool, mapping: bool, mount: bool)

  /** The keychain file is a numbered list. `bare` is the file of that name that is
      seen when nothing is mounted on the directory. */
  datatype Disk = Disk(slots: multiset<Key>, keychain: map<nat, Key>, bare: map<nat, Key>)

  datatype Crypto = Crypto(stage: Stage, mounted: bool, isSetup: bool, encryptionKey: Key, held: Held, disk: Disk)

  datatype Access = Access(systemOpened: bool, hasDatabase: bool, secretsOpen: bool)

  datatype Storage = Storage(crypto: Crypto, access: Access)

  /** A failed format may leave the header alone or have wiped it. */
  datatype FormatResult = Formatted | Untouched | Wiped

  /** The answers of the system calls in one operation. */
  datatype Outcomes = Outcomes(
    dmMod: bool, loopFound: bool, partition: bool, loopSetup: bool, luksFormat: FormatResult,
    luksOpen: bool, mkfs: bool, mkdir: bool, mount: bool,
    clearUmount: bool, clearClose: bool, leftoverClose: bool,
    umount: bool, close: bool, detach: bool,
    slotChange: bool, dbInit: bool)

  datatype Done = Done(s: Storage, ok: bool)

  // Signals of the crypto manager and their slots.

  /** A mounted file system opens the secrets database, if the system is open. */
  function FSMounted(a: Access, dbInit: bool): Access {
    if a.systemOpened && !a.secretsOpen then a.(secretsOpen := dbInit) else a
  }

  function FSUnmounting(a: Access): Access {
    if a.systemOpened then a.(secretsOpen := false) else a
  }

  function SetMounted(s: Storage, isMounted: bool, dbInit: bool): Storage {
    if isMounted == s.crypto.mounted then s
    else Storage(s.crypto.(mounted := isMounted),
                 if isMounted then FSMounted(s.access, dbInit) else FSUnmounting(s.access))
  }

  function UpdateMountState(s: Storage, stage: Stage, dbInit: bool): Storage {
    if stage == s.crypto.stage then s
    else SetMounted(s.(crypto := s.crypto.(stage := stage)), stage == Mounted, dbInit)
  }

  function WithHeld(s: Storage, held: Held): Storage {
    s.(crypto := s.crypto.(held := held))
  }

  function WithDisk(s: Storage, disk: Disk): Storage {
    s.(crypto := s.crypto.(disk := disk))
  }

  // Unmounting: every release is tried, and the state is Unmounted in any case.

  function Released(held: Held, stage: Stage, o: Outcomes): Held {
    Held(held.loop && !(stage.Rank() >= 1 && o.detach),
         held.mapping && !(stage.Rank() >= 3 && o.close),
         held.mount && !(stage == Mounted && o.umount))
  }

  function Unmount(s: Storage, o: Outcomes): Done {
    if s.crypto.stage == Unmounted then Done(s, true)
    else
      var closing := SetMounted(s, false, o.dbInit);
      Done(UpdateMountState(WithHeld(closing, Released(s.crypto.held, s.crypto.stage, o)), Unmounted, o.dbInit),
           (s.crypto.stage.Rank() >= 3 ==> o.close) && o.detach)
  }

  function Failed(s: Storage, o: Outcomes): Done {
    Done(Unmount(s, o).s, false)
  }

  // The keychain file.

  function KeychainSeen(c: Crypto): map<nat, Key> {
    if c.held.mount then c.disk.keychain else c.disk.bare
  }

  function WithKeychain(c: Crypto, keychain: map<nat, Key>): Crypto {
    if c.held.mount then c.(disk := c.disk.(keychain := keychain)) else c.(disk := c.disk.(bare := keychain))
  }

  predicate Contains(keychain: map<nat, Key>, key: Key) {
    exists i :: i in keychain && keychain[i] == key
  }

  /** A new key gets the number after the count of keys, even if that is taken. */
  function KeyAdded(keychain: map<nat, Key>, key: Key): map<nat, Key> {
    if Contains(keychain, key) then keychain else keychain[|keychain| + 1 := key]
  }

  /** One entry for the key goes, if there is one. */
  ghost predicate KeyRemovedFrom(keychain: map<nat, Key>, key: Key, after: map<nat, Key>) {
    if Contains(keychain, key) then exists i :: i in keychain && keychain[i] == key && after == keychain - {i}
    else after == keychain
  }

  // Setting up and mounting.

  function Cleared(held: Held, o: Outcomes): Held {
    held.(mapping := held.mapping && !o.clearClose, mount := held.mount && !o.clearUmount)
  }

  function FormattedDisk(disk: Disk, key: Key, result: FormatResult): Disk {
    match result
    case Formatted => disk.(slots := multiset{key}, keychain := map[])
    case Untouched => disk
    case Wiped => disk.(slots := multiset{}, keychain := map[])
  }

  /** Opening needs a key that is in a slot and a free mapping name. */
  predicate Opens(c: Crypto, o: Outcomes) {
    o.luksOpen && c.encryptionKey in c.disk.slots && !(c.held.mapping && !o.leftoverClose)
  }

  /** From the opened mapping to the mounted state; the result of the mount call
      itself is not looked at. */
  function Finish(s: Storage, o: Outcomes): Done {
    if !o.mkdir then Failed(s, o)
    else
      var mounted := WithHeld(s, s.crypto.held.(mount := s.crypto.held.mount || o.mount));
      var keychain := KeyAdded(KeychainSeen(mounted.crypto), mounted.crypto.encryptionKey);
      var noted := mounted.(crypto := WithKeychain(mounted.crypto, keychain));
      Done(UpdateMountState(noted, Mounted, o.dbInit), true)
  }

  /** From the attached loop device to the opened mapping; a leftover mapping of
      the same name is closed first. */
  function OpenMapping(s: Storage, o: Outcomes, format: bool): Done {
    var held := s.crypto.held;
    if !Opens(s.crypto, o) then Failed(WithHeld(s, held.(mapping := held.mapping && !o.leftoverClose)), o)
    else
      var open := UpdateMountState(WithHeld(s, held.(mapping := true)), LoopLuksOpened, o.dbInit);
      if format && !o.mkfs then Failed(open, o) else Finish(open, o)
  }

  function FormatAndOpen(s: Storage, o: Outcomes): Done {
    var written := WithDisk(s, FormattedDisk(s.crypto.disk, s.crypto.encryptionKey, o.luksFormat));
    if o.luksFormat != Formatted then Failed(written, o)
    else OpenMapping(UpdateMountState(written, LoopLuksFormatted, o.dbInit), o, true)
  }

  function Attach(s: Storage, o: Outcomes): Storage {
    UpdateMountState(WithHeld(s, s.crypto.held.(loop := true)), LoopSet, o.dbInit)
  }

  function PartitionCreated(s: Storage): Storage {
    s.(crypto := s.crypto.(isSetup := true))
  }

  function Setup(s: Storage, o: Outcomes): Done {
    if s.crypto.stage == Mounted || s.crypto.encryptionKey == "" || !o.dmMod then Done(s, false)
    else
      var cleared := WithHeld(s, Cleared(s.crypto.held, o));
      if !o.loopFound then Done(cleared, false)
      else if !o.partition then Failed(cleared, o)
      else if !o.loopSetup then Failed(PartitionCreated(cleared), o)
      else FormatAndOpen(Attach(PartitionCreated(cleared), o), o)
  }

  function Mount(s: Storage, o: Outcomes): Done {
    if s.crypto.stage == Mounted || s.crypto.encryptionKey == "" then Done(s, false)
    else
      var cleared := WithHeld(s, Cleared(s.crypto.held, o));
      if !o.dmMod || !o.loopFound then Done(cleared, false)
      else if !o.loopSetup then Failed(cleared, o)
      else OpenMapping(Attach(cleared, o), o, false)
  }

  // Keys.

  function SetEncryptionKey(s: Storage, key: Key): Storage {
    if s.crypto.mounted then s else s.(crypto := s.crypto.(encryptionKey := key))
  }

  function AddEncryptionKey(s: Storage, key: Key, existing: Key, o: Outcomes): Done {
    if s.crypto.stage.Rank() >= 3 && o.slotChange && existing in s.crypto.disk.slots then
      var written := WithDisk(s, s.crypto.disk.(slots := s.crypto.disk.slots + multiset{key}));
      Done(written.(crypto := WithKeychain(written.crypto, KeyAdded(KeychainSeen(written.crypto), key))), true)
    else Done(s, false)
  }

  predicate SlotGoes(s: Storage, key: Key, o: Outcomes) {
    o.slotChange && key in s.crypto.disk.slots
  }

  /** Removing a key reports success whenever the mapping is open, whether or not
      the slot could be cleared. */
  ghost predicate EncryptionKeyRemoved(s: Storage, key: Key, o: Outcomes, after: Done) {
    if s.crypto.stage.Rank() < 3 then after == Done(s, false)
    else
      && after.ok
      && if SlotGoes(s, key, o) then
           var written := WithDisk(s, s.crypto.disk.(slots := s.crypto.disk.slots - multiset{key}));
           exists keychain :: KeyRemovedFrom(KeychainSeen(written.crypto), key, keychain)
                           && after.s == written.(crypto := WithKeychain(written.crypto, keychain))
         else after.s == s
  }

  function EncryptionKeyInUse(s: Storage, key: Key, o: Outcomes): Done {
    if s.crypto.mounted then Done(s, s.crypto.encryptionKey == key || Contains(KeychainSeen(s.crypto), key))
    else Mount(SetEncryptionKey(s, key), o)
  }

  // The key handler and the access manager.

  datatype Keys = Keys(inserted: set<Key>, authorized: set<Key>)

  /** `crashed` marks a call through the null database pointer. */
  datatype System = System(storage: Storage, keys: Keys, crashed: bool)

  datatype Verdict = Verdict(sys: System, ok: bool)

  function KeyInserted(sys: System, key: Key, o: Outcomes): System {
    if key == "" then sys
    else
      var keys := sys.keys.(inserted := sys.keys.inserted + {key});
      if !sys.storage.crypto.isSetup then sys.(keys := keys)
      else
        var used := EncryptionKeyInUse(sys.storage, key, o);
        System(used.s, if used.ok then keys.(authorized := keys.authorized + {key}) else keys, sys.crashed)
  }

  function CloseSecretsDB(s: Storage, o: Outcomes): Done {
    Unmount(s.(access := s.access.(secretsOpen := false)), o)
  }

  function LastAuthorizedKeyRemoved(sys: System, o: Outcomes): System {
    if !sys.storage.access.hasDatabase then sys.(crashed := true)
    else if sys.storage.access.secretsOpen || sys.storage.crypto.mounted then
      sys.(storage := CloseSecretsDB(sys.storage, o).s)
    else sys
  }

  function KeyDisabled(sys: System, key: Key, o: Outcomes): System {
    var removed := sys.(keys := sys.keys.(inserted := sys.keys.inserted - {key}));
    if removed.keys.inserted * removed.keys.authorized == {} && key in removed.keys.authorized
    then LastAuthorizedKeyRemoved(removed, o)
    else removed
  }

  function MountedWith(s: Storage, key: Key, o: Outcomes): Done {
    if s.crypto.mounted then Done(s, true) else Mount(SetEncryptionKey(s, key), o)
  }

  function LetIn(s: Storage, key: Key, helper: Key, o: Outcomes): Done {
    var mounted := MountedWith(s, helper, o);
    if mounted.ok then AddEncryptionKey(mounted.s, key, helper, o) else mounted
  }

  function Reformatted(s: Storage, key: Key, o: Outcomes): Done {
    Setup(SetEncryptionKey(s, key), o)
  }

  function Authorized(sys: System, s: Storage, key: Key): Verdict {
    Verdict(sys.(storage := s, keys := sys.keys.(authorized := sys.keys.authorized + {key})), true)
  }

  /** Formatting makes the key the only one; otherwise an authorised key, the
      `helper`, lets the new one in. */
  function AuthorizeKey(sys: System, key: Key, format: bool, helper: Key, o: Outcomes): Verdict {
    if key in sys.keys.authorized then Verdict(sys, true)
    else if !sys.storage.crypto.isSetup || format then
      var none := sys.(keys := sys.keys.(authorized := {}));
      var setup := Reformatted(sys.storage, key, o);
      if !setup.ok then Verdict(none.(storage := setup.s), false) else Authorized(none, setup.s, key)
    else if sys.keys.authorized == {} then Verdict(sys, false)
    else
      var added := LetIn(sys.storage, key, helper, o);
      if !added.ok then Verdict(sys.(storage := added.s), false) else Authorized(sys, added.s, key)
  }

  /** `after` is a result of revoking a key with the help of an authorised one. */
  ghost predicate KeyRevoked(sys: System, key: Key, helper: Key, o: Outcomes, after: Verdict) {
    if !sys.storage.crypto.isSetup || sys.keys.authorized == {} then after == Verdict(sys, false)
    else
      var mounted := MountedWith(sys.storage, helper, o);
      if !mounted.ok then after == Verdict(sys.(storage := mounted.s), false)
      else exists removed :: EncryptionKeyRemoved(mounted.s, key, o, removed) && after == Revoked(sys, key, removed)
  }

  function Revoked(sys: System, key: Key, removed: Done): Verdict {
    if !removed.ok then Verdict(sys.(storage := removed.s), false)
    else Verdict(sys.(storage := removed.s, keys := sys.keys.(authorized := sys.keys.authorized - {key})), true)
  }

  function OpenSecretsDB(s: Storage, o: Outcomes): Storage {
    if s.crypto.mounted then s.(access := s.access.(secretsOpen := o.dbInit)) else s
  }

  function OpenCredentialsSystem(s: Storage, metaOk: bool, o: Outcomes): Done {
    var t := s.(access := s.access.(hasDatabase := true));
    if !metaOk then Done(t, false)
    else
      var u := t.(access := t.access.(systemOpened := true));
      Done(if u.crypto.mounted then OpenSecretsDB(u, o) else Mount(u, o).s, true)
  }

  function CloseCredentialsSystem(s: Storage, o: Outcomes): Done {
    if !s.access.systemOpened then Done(s, true)
    else
      var closed := if s.access.secretsOpen then CloseSecretsDB(s, o) else Done(s, true);
      Done(closed.s.(access := closed.s.access.(hasDatabase := false, systemOpened := false)), closed.ok)
  }

  // Runs.

  datatype Event =
    | OpenSystem(metaOk: bool, o: Outcomes)
    | CloseSystem(o: Outcomes)
    | Insert(key: Key, o: Outcomes)
    | Disable(key: Key, o: Outcomes)
    | Remove(key: Key, helper: Key, o: Outcomes, o2: Outcomes)
    | Authorize(key: Key, format: bool, helper: Key, o: Outcomes)
    | Revoke(key: Key, helper: Key, o: Outcomes)

  /** The helper of a call is one of the authorised keys, if there are any. */
  ghost predicate Step(sys: System, e: Event, t: System) {
    if sys.crashed then t == sys
    else match e
      case OpenSystem(metaOk, o) => t == sys.(storage := OpenCredentialsSystem(sys.storage, metaOk, o).s)
      case CloseSystem(o) => t == sys.(storage := CloseCredentialsSystem(sys.storage, o).s)
      case Insert(key, o) => t == KeyInserted(sys, key, o)
      case Disable(key, o) => t == KeyDisabled(sys, key, o)
      case Remove(key, helper, o, o2) => RemovalStep(KeyDisabled(sys, key, o), key, helper, o2, t)
      case Authorize(key, format, helper, o) =>
        && (sys.keys.authorized == {} || helper in sys.keys.authorized)
        && t == AuthorizeKey(sys, key, format, helper, o).sys
      case Revoke(key, helper, o) => RevokeStep(sys, key, helper, o, t)
  }

  ghost predicate RevokeStep(sys: System, key: Key, helper: Key, o: Outcomes, t: System) {
    && (sys.keys.authorized == {} || helper in sys.keys.authorized)
    && exists ok :: KeyRevoked(sys, key, helper, o, Verdict(t, ok))
  }

  /** A removed key is first disabled, which may unmount, and then revoked. */
  ghost predicate RemovalStep(disabled: System, key: Key, helper: Key, o: Outcomes, t: System) {
    if disabled.crashed || key !in disabled.keys.authorized then t == disabled
    else RevokeStep(disabled, key, helper, o, t)
  }

  ghost predicate Run(states: seq<System>, run: seq<Event>) {
    && |states| == |run| + 1
    && forall i :: 0 <= i < |run| ==> Step(states[i], run[i], states[i + 1])
  }
}
