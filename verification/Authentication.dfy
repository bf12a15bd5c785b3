/** What a finished authentication does to the stored identity: the session reads
    it, marks it as validated and writes it back. */
module Authentication {
  import opened Options
  import opened Lists
  import opened Identity
  import opened MetaData
  import opened Secrets
  import opened SecretsCache
  import opened Vaults
  import opened CredentialsDB

  function Authenticated(info: Info, tmpUserName: string, tmpPassword: string): Info {
    var named := if !info.validated && tmpUserName != "" then info.(userName := Some(tmpUserName)) else info;
    var keyed := if tmpPassword != "" then named.(password := Some(tmpPassword)) else named;
    keyed.(validated := true)
  }

  ghost predicate Rewritten(s: Store, id: nat, tmpUserName: string, tmpPassword: string, info: Info, t: Store,
                            writtenId: nat) {
    Loaded(s, id, info) && CredentialsUpdated(s, Authenticated(info, tmpUserName, tmpPassword), t, writtenId)
  }

  /** `t` is a result of finishing an authentication in the session of `id`. */
  ghost predicate Finished(s: Store, id: nat, tmpUserName: string, tmpPassword: string, t: Store) {
    if id == NEW_IDENTITY then t == s
    else exists info: Info, writtenId: nat :: Rewritten(s, id, tmpUserName, tmpPassword, info, t, writtenId)
  }

  method FinishAuthentication(db: CredentialsDB.Database, id: nat, tmpUserName: string, tmpPassword: string)
    requires Sound(db.State())
    modifies db.metaDataDB, db.secretsStorage, db.secretsCache
    ensures Finished(old(db.State()), id, tmpUserName, tmpPassword, db.State())
  {
    if id != NEW_IDENTITY {
      ghost var before := db.State();
      var info := db.Credentials(id);
      ghost var found := info;
      if !info.validated && tmpUserName != "" {
        info := info.(userName := Some(tmpUserName));
      }
      if tmpPassword != "" {
        info := info.(password := Some(tmpPassword));
      }
      info := info.(validated := true);
      var writtenId := db.UpdateCredentials(info);
      assert Rewritten(before, id, tmpUserName, tmpPassword, found, db.State(), writtenId);
    }
  }

  /** The profile after an authentication: the name entered in a dialog counts only
      the first time. */
  function ValidatedProfile(p: Profile, tmpUserName: string): Profile {
    p.(validated := true,
       userName := if p.validated || tmpUserName == "" || p.userNameSecret then p.userName else tmpUserName)
  }

  lemma ProfileOfAuthenticated(info: Info, p: Profile, tmpUserName: string, tmpPassword: string)
    requires ProfileOf(info) == p
    ensures var written := Authenticated(info, tmpUserName, tmpPassword);
            && ProfileOf(written) == ValidatedProfile(p, tmpUserName)
            && written.id == info.id
            && written.password == if tmpPassword != "" then Some(tmpPassword) else info.password
  {
  }

  lemma SessionIdentityExists(t: Tables, id: nat)
    requires WellFormed(t) && ReadBack(t, id).Some?
    ensures 0 < id < t.nextId && id in t.credentials
  {
  }

  /** The user name of a dialog that counts, if any. */
  function Entered(p: Profile, tmpUserName: string): string {
    if p.validated then "" else tmpUserName
  }

  /** The secrets after an authentication: a secret user name is written back as it was
      found, or as entered; a plain one is not written here. */
  function SecretsAfter(v: Vaults, id: nat, secret: bool, storePassword: bool, name: string, password: string): Vaults {
    var loaded := LoadedSecret(v, id, storePassword);
    Written(v, id,
            if !secret then "" else if name != "" then name else loaded.userName,
            if password != "" then password else loaded.password,
            storePassword)
  }

  lemma WrittenSecrets(v: Vaults, id: nat, info: Info, p: Profile, tmpUserName: string, tmpPassword: string)
    requires ProfileOf(info) == p
    requires var loaded := LoadedSecret(v, id, p.storePassword);
             && info.userName == Some(if p.userNameSecret then loaded.userName else p.userName)
             && info.password == Some(loaded.password)
    ensures SecretsUpdated(v, Authenticated(info, tmpUserName, tmpPassword), id)
         == SecretsAfter(v, id, p.userNameSecret, p.storePassword, Entered(p, tmpUserName), tmpPassword)
  {
  }

  /** The record that an authentication writes, and to which id. */
  lemma WhatIsWritten(s: Store, id: nat, tmpUserName: string, tmpPassword: string, t: Store)
    returns (written: Info, writtenId: nat)
    requires Finished(s, id, tmpUserName, tmpPassword, t) && id != NEW_IDENTITY
    ensures CredentialsUpdated(s, written, t, writtenId)
    ensures match ReadBack(s.tables, id)
            case None => written == Authenticated(BLANK, tmpUserName, tmpPassword)
            case Some(p) =>
              && written.id == id && ProfileOf(written) == ValidatedProfile(p, tmpUserName)
              && SecretsUpdated(s.vaults, written, id)
              == SecretsAfter(s.vaults, id, p.userNameSecret, p.storePassword, Entered(p, tmpUserName), tmpPassword)
  {
    var info: Info;
    info, writtenId :| Rewritten(s, id, tmpUserName, tmpPassword, info, t, writtenId);
    written := Authenticated(info, tmpUserName, tmpPassword);
    var found := ReadBack(s.tables, id);
    if found.Some? {
      ProfileOfAuthenticated(info, found.value, tmpUserName, tmpPassword);
      WrittenSecrets(s.vaults, id, info, found.value, tmpUserName, tmpPassword);
    }
  }

  /** One authentication of an existing identity. */
  lemma AuthenticationIsNeutral(s: Store, id: nat, tmpUserName: string, tmpPassword: string, t: Store, other: nat)
    requires Sound(s) && Finished(s, id, tmpUserName, tmpPassword, t) && ReadBack(s.tables, id).Some?
    ensures WellFormed(t.tables)
    ensures ReadBack(t.tables, id) == Some(ValidatedProfile(ReadBack(s.tables, id).value, tmpUserName))
    ensures other != id ==> ReadBack(t.tables, other) == ReadBack(s.tables, other)
  {
    SessionIdentityExists(s.tables, id);
    var written, writtenId := WhatIsWritten(s, id, tmpUserName, tmpPassword, t);
    UpdateEffect(s.tables, written, t.tables, writtenId, other);
  }

  /** An identity that was removed under its session comes back under a new id,
      with nothing but what this authentication brought. */
  lemma MissingIdentityIsRecreated(s: Store, id: nat, tmpUserName: string, tmpPassword: string, t: Store, other: nat)
    requires Sound(s) && Finished(s, id, tmpUserName, tmpPassword, t) && id != NEW_IDENTITY
            && ReadBack(s.tables, id) == None
    ensures WellFormed(t.tables) && t.tables.nextId == s.tables.nextId + 1
    ensures ReadBack(t.tables, s.tables.nextId) == Some(ValidatedProfile(ProfileOf(BLANK), tmpUserName))
    ensures other != s.tables.nextId ==> ReadBack(t.tables, other) == ReadBack(s.tables, other)
  {
    var written, writtenId := WhatIsWritten(s, id, tmpUserName, tmpPassword, t);
    ProfileOfAuthenticated(BLANK, ProfileOf(BLANK), tmpUserName, tmpPassword);
    UpdateEffect(s.tables, written, t.tables, writtenId, other);
  }

  // Runs: sessions finish and store data while the secrets database opens and
  // closes.

  datatype Event =
    | Finish(id: nat, tmpUserName: string, tmpPassword: string)
    | StoreBlob(id: nat, name: string, data: Data)
    | OpenSecrets(ok: bool)
    | CloseSecrets

  ghost predicate Goes(s: Store, e: Event, t: Store) {
    match e
    case Finish(id, tmpUserName, tmpPassword) => Finished(s, id, tmpUserName, tmpPassword, t)
    case StoreBlob(id, name, data) => t == BlobStored(s, id, name, data)
    case OpenSecrets(ok) => t == s.(vaults := Opened(s.vaults, ok))
    case CloseSecrets => t == s.(vaults := s.vaults.(open := false))
  }

  ghost predicate Chain(states: seq<Store>, run: seq<Event>) {
    && |states| == |run| + 1
    && forall i :: 0 <= i < |run| ==> Goes(states[i], run[i], states[i + 1])
  }

  lemma InterningKeepsReading(t: Tables, name: string, id: nat)
    requires WellFormed(t)
    ensures var u := t.(methods := t.methods.InsertOrIgnore(name));
            WellFormed(u) && ReadBack(u, id) == ReadBack(t, id)
  {
    var u := t.(methods := t.methods.InsertOrIgnore(name));
    assert t.methods.GrowsTo(t.methods, {}) && t.mechanisms.GrowsTo(t.mechanisms, {}) && t.tokens.GrowsTo(t.tokens, {});
    InsertOneGrows(t.methods, t.methods, {}, name);
    ExtensionKeepsReading(RowsOf(t, id), t, u, {} + {name}, {}, {});
    assert RowsOf(u, id) == RowsOf(t, id) && OwnersOf(u, id) == OwnersOf(t, id);
  }

  /** What one step does to an identity that exists. */
  lemma StepOnProfile(s: Store, e: Event, t: Store, id: nat)
    requires Sound(s) && Goes(s, e, t) && ReadBack(s.tables, id).Some?
    ensures WellFormed(t.tables)
    ensures var p := ReadBack(s.tables, id).value;
            ReadBack(t.tables, id) == Some(if e.Finish? && e.id == id then ValidatedProfile(p, e.tmpUserName) else p)
  {
    SessionIdentityExists(s.tables, id);
    if e.StoreBlob? { InterningKeepsReading(s.tables, e.name, id); }
    if e.Finish? && e.id != NEW_IDENTITY {
      if ReadBack(s.tables, e.id) == None {
        MissingIdentityIsRecreated(s, e.id, e.tmpUserName, e.tmpPassword, t, id);
      } else {
        AuthenticationIsNeutral(s, e.id, e.tmpUserName, e.tmpPassword, t, id);
      }
    }
  }

  lemma WritesStayCanonical(v: Vaults, e: VaultEvent)
    requires Canonical(v.secrets)
    ensures Canonical(Step(v, e).secrets)
  {
    match e {
      case WriteData(id, methodId, data) =>
        StoreDataIsAllOrNothing(v.secrets, BlobKey(id, methodId), data, BlobKey(0, 0));
      case Open(_) => FlushedRows(v.secrets, v.cache, BlobKey(0, 0));
      case _ =>
    }
  }

  lemma SecretsUpdateKeepsData(v: Vaults, info: Info, id: nat)
    ensures SecretsUpdated(v, info, id).secrets.store == v.secrets.store
  {
  }

  /** The step of the secrets side that a step of the store amounts to, if any. */
  lemma StaysCanonical(s: Store, e: Event, t: Store)
    requires Sound(s) && Goes(s, e, t)
    ensures Canonical(t.vaults.secrets)
  {
    match e {
      case Finish(id, tmpUserName, tmpPassword) =>
        if id != NEW_IDENTITY {
          var written, writtenId := WhatIsWritten(s, id, tmpUserName, tmpPassword, t);
          SecretsUpdateKeepsData(s.vaults, written, writtenId);
        }
      case StoreBlob(id, name, data) =>
        if id != 0 {
          WritesStayCanonical(s.vaults, WriteData(id, s.tables.methods.InsertOrIgnore(name).ids[name], data));
        }
      case OpenSecrets(ok) => WritesStayCanonical(s.vaults, Open(ok));
      case CloseSecrets =>
    }
  }

  /** The user name entered for the first authentication of an identity in a run. */
  function FirstEntered(run: seq<Event>, id: nat): Option<string> {
    if run == [] then None
    else
      var before, e := FirstEntered(run[..|run| - 1], id), run[|run| - 1];
      if before == None && e.Finish? && e.id == id then Some(e.tmpUserName) else before
  }

  function ProfileAfter(p: Profile, run: seq<Event>, id: nat): Profile {
    var name := FirstEntered(run, id);
    if name.Some? then ValidatedProfile(p, name.value) else p
  }

  lemma ProfileOneMore(p: Profile, run: seq<Event>, e: Event, id: nat)
    ensures ProfileAfter(p, run + [e], id) == ProfileNext(ProfileAfter(p, run, id), e, id)
  {
    assert (run + [e])[..|run|] == run;
  }

  /** The profile of an identity in a sound store. */
  ghost function ProfileIn(s: Store, id: nat): Option<Profile> {
    if Sound(s) then ReadBack(s.tables, id) else None
  }

  function ProfileNext(p: Profile, e: Event, id: nat): Profile {
    if e.Finish? && e.id == id then ValidatedProfile(p, e.tmpUserName) else p
  }

  lemma ProfileInChain(states: seq<Store>, run: seq<Event>, i: nat, id: nat)
    requires Chain(states, run) && i < |run| && ProfileIn(states[i], id).Some?
    ensures ProfileIn(states[i + 1], id) == Some(ProfileNext(ProfileIn(states[i], id).value, run[i], id))
  {
    StepOnProfile(states[i], run[i], states[i + 1], id);
    StaysCanonical(states[i], run[i], states[i + 1]);
  }

  /** Profiles that follow the events one by one are those of the whole run. */
  lemma {:induction false} ProfilesFollow(profiles: seq<Option<Profile>>, run: seq<Event>, n: nat, id: nat, p: Profile)
    requires |profiles| == |run| + 1 && n <= |run| && profiles[0] == Some(p)
    requires forall i :: 0 <= i < |run| && profiles[i].Some? ==>
               profiles[i + 1] == Some(ProfileNext(profiles[i].value, run[i], id))
    ensures profiles[n] == Some(ProfileAfter(p, run[..n], id))
  {
    if n > 0 {
      ProfilesFollow(profiles, run, n - 1, id, p);
      ProfileOneMore(p, run[..n - 1], run[n - 1], id);
      assert run[..n] == run[..n - 1] + [run[n - 1]];
    }
  }

  ghost function ProfilesIn(states: seq<Store>, id: nat): (profiles: seq<Option<Profile>>)
    ensures |profiles| == |states| && forall i :: 0 <= i < |states| ==> profiles[i] == ProfileIn(states[i], id)
  {
    seq(|states|, i requires 0 <= i < |states| => ProfileIn(states[i], id))
  }

  lemma ChainOfProfiles(states: seq<Store>, run: seq<Event>, id: nat)
    requires Chain(states, run)
    ensures var profiles := ProfilesIn(states, id);
            forall i :: 0 <= i < |run| && profiles[i].Some? ==>
              profiles[i + 1] == Some(ProfileNext(profiles[i].value, run[i], id))
  {
    forall i | 0 <= i < |run| && ProfileIn(states[i], id).Some?
      ensures ProfileIn(states[i + 1], id) == Some(ProfileNext(ProfileIn(states[i], id).value, run[i], id))
    {
      ProfileInChain(states, run, i, id);
    }
  }

  /** At every point of every run, an identity has kept its caption, methods, mechanisms,
      lists, realms, type and storage flag; its first authentication validates it for
      good, and from then on its user name is fixed. */
  lemma NeutralOverRuns(states: seq<Store>, run: seq<Event>, n: nat, id: nat, p: Profile)
    requires Chain(states, run) && n <= |run| && ProfileIn(states[0], id) == Some(p)
    ensures ProfileIn(states[n], id) == Some(ProfileAfter(p, run[..n], id))
  {
    ChainOfProfiles(states, run, id);
    ProfilesFollow(ProfilesIn(states, id), run, n, id, p);
  }

  // Secrets.

  /** The secrets on record, counting what the next opening will flush. */
  ghost function SecretOf(v: Vaults, id: nat): Secret {
    match CredentialsAt(Flushed(v.secrets, v.cache), id)
    case Some(secret) => secret
    case None => Secret("", "")
  }

  predicate NothingCached(v: Vaults, id: nat) {
    EntryAt(v.cache, id).userName == "" && EntryAt(v.cache, id).password == ""
  }

  /** The cache has nothing for the identity that contradicts its profile. */
  predicate InStep(v: Vaults, id: nat, secret: bool, storePassword: bool) {
    || NothingCached(v, id)
    || (&& EntryAt(v.cache, id).storePassword == storePassword && !(v.open && storePassword)
        && (secret || EntryAt(v.cache, id).userName == ""))
  }

  /** A secret user name is entered and goes to the cache with no password beside it,
      or with one that may not be stored: the flush empties the stored password. */
  ghost predicate ErasesPassword(v: Vaults, id: nat, storePassword: bool, name: string, password: string) {
    && name != "" && SecretOf(v, id).password != ""
    && (storePassword ==> !v.open && NothingCached(v, id) && password == "")
  }

  /** Only a password is entered and goes to the cache with no user name beside it:
      the flush empties the stored secret user name. */
  ghost predicate ErasesName(v: Vaults, id: nat, storePassword: bool, name: string, password: string) {
    && name == "" && SecretOf(v, id).userName != ""
    && storePassword && !v.open && NothingCached(v, id) && password != ""
  }

  lemma SecretIs(v: Vaults, id: nat)
    ensures var waiting, stored := Persistable(EntryAt(v.cache, id)), CredentialsAt(v.secrets, id);
            SecretOf(v, id) ==
            if waiting.Some? then waiting.value else if stored.Some? then stored.value else Secret("", "")
  {
  }

  /** One authentication leaves the password entered, or the one on record, exactly
      unless it erases the password; and likewise for a secret user name. */
  lemma RewriteOnSecrets(v: Vaults, id: nat, secret: bool, storePassword: bool, name: string, password: string)
    requires InStep(v, id, secret, storePassword) && id != 0
    ensures var w := SecretsAfter(v, id, secret, storePassword, name, password);
            && InStep(w, id, secret, storePassword)
            && (SecretOf(w, id).password
                == (if storePassword && password != "" then password else SecretOf(v, id).password)
                <==> !(secret && ErasesPassword(v, id, storePassword, name, password)))
            && (secret ==> (SecretOf(w, id).userName == (if name != "" then name else SecretOf(v, id).userName)
                            <==> !ErasesName(v, id, storePassword, name, password)))
  {
    SecretIs(v, id);
    SecretIs(SecretsAfter(v, id, secret, storePassword, name, password), id);
  }

  /** Opening and closing lose nothing, and after an opening the cache is in step. */
  lemma OpeningKeepsSecrets(v: Vaults, id: nat, secret: bool, storePassword: bool, ok: bool)
    ensures SecretOf(Opened(v, ok), id) == SecretOf(v, id) && SecretOf(v.(open := false), id) == SecretOf(v, id)
    ensures ok || InStep(v, id, secret, storePassword) ==> InStep(Opened(v, ok), id, secret, storePassword)
  {
  }

  lemma OtherWritesKeepSecrets(v: Vaults, w: Vaults, id: nat, secret: bool, storePassword: bool)
    requires InStep(v, id, secret, storePassword) && v.open == w.open
    requires CredentialsAt(v.secrets, id) == CredentialsAt(w.secrets, id)
    requires EntryAt(v.cache, id).(blobData := map[]) == EntryAt(w.cache, id).(blobData := map[])
    ensures InStep(w, id, secret, storePassword) && SecretOf(w, id) == SecretOf(v, id)
  {
    assert Persistable(EntryAt(v.cache, id)) == Persistable(EntryAt(w.cache, id));
    SecretIs(v, id);
    SecretIs(w, id);
  }

  lemma SecretsUpdatedElsewhere(v: Vaults, written: Info, writtenId: nat, id: nat, secret: bool, storePassword: bool)
    requires InStep(v, id, secret, storePassword) && writtenId != id
    ensures var w := SecretsUpdated(v, written, writtenId);
            InStep(w, id, secret, storePassword) && SecretOf(w, id) == SecretOf(v, id)
  {
    OtherWritesKeepSecrets(v, SecretsUpdated(v, written, writtenId), id, secret, storePassword);
  }

  /** An authentication in one session leaves the secrets of other identities. */
  lemma FinishElsewhere(s: Store, e: Event, t: Store, id: nat, secret: bool, storePassword: bool)
    requires Sound(s) && e.Finish? && Goes(s, e, t) && e.id != id && ReadBack(s.tables, id).Some?
    requires InStep(s.vaults, id, secret, storePassword)
    ensures InStep(t.vaults, id, secret, storePassword) && SecretOf(t.vaults, id) == SecretOf(s.vaults, id)
  {
    SessionIdentityExists(s.tables, id);
    if e.id != NEW_IDENTITY {
      var written, writtenId := WhatIsWritten(s, e.id, e.tmpUserName, e.tmpPassword, t);
      SecretsUpdatedElsewhere(s.vaults, written, writtenId, id, secret, storePassword);
    }
  }

  ghost predicate CacheInStep(s: Store, id: nat) {
    ReadBack(s.tables, id).Some? &&
    var p := ReadBack(s.tables, id).value; InStep(s.vaults, id, p.userNameSecret, p.storePassword)
  }

  /** The steps after which a secret is neither what was entered nor what was there. */
  ghost predicate LosesSecrets(s: Store, e: Event, id: nat) {
    e.Finish? && e.id == id && ReadBack(s.tables, id).Some? &&
    var p := ReadBack(s.tables, id).value;
    var name := Entered(p, e.tmpUserName);
    && p.userNameSecret
    && (|| ErasesPassword(s.vaults, id, p.storePassword, name, e.tmpPassword)
        || ErasesName(s.vaults, id, p.storePassword, name, e.tmpPassword))
  }

  /** The secrets that a step should leave: what is entered, where it may be stored,
      and otherwise what was there. */
  ghost function SecretDue(p: Profile, before: Secret, e: Event, id: nat): Secret {
    if !e.Finish? || e.id != id then before
    else Secret(if p.userNameSecret && Entered(p, e.tmpUserName) != "" then e.tmpUserName else before.userName,
                if p.storePassword && e.tmpPassword != "" then e.tmpPassword else before.password)
  }

  /** A plain user name is not kept among the secrets. */
  predicate SameSecret(p: Profile, a: Secret, b: Secret) {
    a.password == b.password && (p.userNameSecret ==> a.userName == b.userName)
  }

  lemma FinishOnSecrets(s: Store, e: Event, t: Store, id: nat)
    requires Sound(s) && e.Finish? && Goes(s, e, t) && e.id == id && CacheInStep(s, id)
    ensures var p := ReadBack(s.tables, id).value;
            && InStep(t.vaults, id, p.userNameSecret, p.storePassword)
            && (SameSecret(p, SecretOf(t.vaults, id), SecretDue(p, SecretOf(s.vaults, id), e, id))
                <==> !LosesSecrets(s, e, id))
  {
    SessionIdentityExists(s.tables, id);
    var p := ReadBack(s.tables, id).value;
    var written, writtenId := WhatIsWritten(s, id, e.tmpUserName, e.tmpPassword, t);
    assert writtenId == id;
    RewriteOnSecrets(s.vaults, id, p.userNameSecret, p.storePassword, Entered(p, e.tmpUserName), e.tmpPassword);
  }

  /** Every step leaves the secrets that are due exactly unless it loses them. */
  lemma StepOnSecrets(s: Store, e: Event, t: Store, id: nat)
    requires Sound(s) && Goes(s, e, t) && CacheInStep(s, id)
    ensures var p := ReadBack(s.tables, id).value;
            && InStep(t.vaults, id, p.userNameSecret, p.storePassword)
            && (SameSecret(p, SecretOf(t.vaults, id), SecretDue(p, SecretOf(s.vaults, id), e, id))
                <==> !LosesSecrets(s, e, id))
  {
    var p := ReadBack(s.tables, id).value;
    match e {
      case Finish(i, _, _) =>
        if i == id {
          FinishOnSecrets(s, e, t, id);
        } else {
          FinishElsewhere(s, e, t, id, p.userNameSecret, p.storePassword);
        }
      case StoreBlob(_, _, _) => OtherWritesKeepSecrets(s.vaults, t.vaults, id, p.userNameSecret, p.storePassword);
      case OpenSecrets(ok) => OpeningKeepsSecrets(s.vaults, id, p.userNameSecret, p.storePassword, ok);
      case CloseSecrets => OpeningKeepsSecrets(s.vaults, id, p.userNameSecret, p.storePassword, false);
    }
  }

  /** The last password entered for an identity in a run. */
  function LastEntered(run: seq<Event>, id: nat): Option<string> {
    if run == [] then None
    else
      var e := run[|run| - 1];
      if e.Finish? && e.id == id && e.tmpPassword != "" then Some(e.tmpPassword) else LastEntered(run[..|run| - 1], id)
  }

  /** The secrets due after a run: the user name of the first authentication of an
      identity not validated before, and the last password. */
  ghost function SecretDueAfter(p: Profile, before: Secret, run: seq<Event>, id: nat): Secret {
    var name, password := FirstEntered(run, id), LastEntered(run, id);
    Secret(if p.userNameSecret && name.Some? && Entered(p, name.value) != "" then name.value else before.userName,
           if p.storePassword && password.Some? then password.value else before.password)
  }

  lemma DueOneMore(p: Profile, before: Secret, run: seq<Event>, e: Event, id: nat)
    ensures SecretDueAfter(p, before, run + [e], id)
         == SecretDue(ProfileAfter(p, run, id), SecretDueAfter(p, before, run, id), e, id)
  {
    assert (run + [e])[..|run|] == run;
  }

  lemma DueIsSame(p: Profile, a: Secret, b: Secret, e: Event, id: nat)
    requires SameSecret(p, a, b)
    ensures SameSecret(p, SecretDue(p, a, e, id), SecretDue(p, b, e, id))
  {
  }

  /** One more step of a run that has left the profile and the secrets due. */
  lemma SecretsInChain(states: seq<Store>, run: seq<Event>, i: nat, id: nat, p: Profile, before: Secret)
    requires Chain(states, run) && i < |run| && !LosesSecrets(states[i], run[i], id)
    requires ProfileIn(states[i], id) == Some(ProfileAfter(p, run[..i], id))
    requires InStep(states[i].vaults, id, p.userNameSecret, p.storePassword)
    requires SameSecret(p, SecretOf(states[i].vaults, id), SecretDueAfter(p, before, run[..i], id))
    ensures InStep(states[i + 1].vaults, id, p.userNameSecret, p.storePassword)
    ensures SameSecret(p, SecretOf(states[i + 1].vaults, id), SecretDueAfter(p, before, run[..i + 1], id))
  {
    var now := ProfileAfter(p, run[..i], id);
    assert now.userNameSecret == p.userNameSecret && now.storePassword == p.storePassword;
    StepOnSecrets(states[i], run[i], states[i + 1], id);
    DueOneMore(p, before, run[..i], run[i], id);
    DueIsSame(now, SecretOf(states[i].vaults, id), SecretDueAfter(p, before, run[..i], id), run[i], id);
    assert run[..i + 1] == run[..i] + [run[i]];
  }

  /** At every point of every run that has lost no secrets, whether the secrets database is open or
      closed at each step, and for plain and secret user names alike: the password on
      record is the last one entered if it may be stored and else the initial one, and
      a secret user name is the one entered first, unless validated, or the initial one. */
  lemma {:induction false} SecretsOverRuns(states: seq<Store>, run: seq<Event>, n: nat, id: nat, p: Profile)
    requires Chain(states, run) && n <= |run| && ProfileIn(states[0], id) == Some(p)
    requires InStep(states[0].vaults, id, p.userNameSecret, p.storePassword)
    requires forall i :: 0 <= i < n ==> !LosesSecrets(states[i], run[i], id)
    ensures InStep(states[n].vaults, id, p.userNameSecret, p.storePassword)
    ensures SameSecret(p, SecretOf(states[n].vaults, id),
                       SecretDueAfter(p, SecretOf(states[0].vaults, id), run[..n], id))
  {
    if n > 0 {
      SecretsOverRuns(states, run, n - 1, id, p);
      NeutralOverRuns(states, run, n - 1, id, p);
      SecretsInChain(states, run, n - 1, id, p, SecretOf(states[0].vaults, id));
    }
  }

  /** With a plain user name nothing can be lost: at every point of every run the password
      on record is the last one entered if it may be stored, and else the initial one. */
  lemma PlainNamesKeepPasswords(states: seq<Store>, run: seq<Event>, n: nat, id: nat, p: Profile)
    requires Chain(states, run) && n <= |run| && ProfileIn(states[0], id) == Some(p) && !p.userNameSecret
    requires InStep(states[0].vaults, id, false, p.storePassword)
    ensures var entered := LastEntered(run[..n], id);
            SecretOf(states[n].vaults, id).password ==
            if p.storePassword && entered.Some? then entered.value else SecretOf(states[0].vaults, id).password
  {
    forall i | 0 <= i < n
      ensures !LosesSecrets(states[i], run[i], id)
    {
      NeutralOverRuns(states, run, i, id, p);
    }
    SecretsOverRuns(states, run, n, id, p);
  }

  /** A store with one identity whose secret user name and password are stored, and its
      secrets database closed. */
  function SecretStore(userName: string, password: string, flags: nat): Store {
    var names := Names(map[], 1);
    Store(Tables(map[1 := CredentialsRow("", "", flags, 0)], 2, names, names, names, map[], {}, {}),
          Vaults(false, Vault(map[1 := Secret(userName, password)], map[]), map[]))
  }

  /** Both losses happen: what is entered in a dialog while the secrets database is
      closed replaces both secrets, with nothing where nothing was entered. */
  lemma DialogErasesTheOther(userName: string, password: string, tmpUserName: string, tmpPassword: string)
    returns (s: Store, t: Store)
    requires userName != "" && password != "" && (tmpUserName == "" || tmpPassword == "") && tmpUserName != tmpPassword
    ensures Sound(s) && CacheInStep(s, 1) && SecretOf(s.vaults, 1) == Secret(userName, password)
    ensures Finished(s, 1, tmpUserName, tmpPassword, t) && SecretOf(t.vaults, 1) == Secret(tmpUserName, tmpPassword)
  {
    s := SecretStore(userName, password, 6);
    var info := Info(1, Some(""), Some(""), true, true, false, "", 0, map[], [], [], []);
    var written := Authenticated(info, tmpUserName, tmpPassword);
    t := Store(s.tables.(credentials := map[1 := RowFor(written)]), SecretsUpdated(s.vaults, written, 1));
    ReadBackSecretStore(userName, password, info);
    EmptyUpdate(s, written, t);
    assert Rewritten(s, 1, tmpUserName, tmpPassword, info, t, 1);
    WrittenSecrets(s.vaults, 1, info, ProfileOf(info), tmpUserName, tmpPassword);
    SecretIs(s.vaults, 1);
    SecretIs(t.vaults, 1);
  }

  lemma ReadBackSecretStore(userName: string, password: string, info: Info)
    requires info == Info(1, Some(""), Some(""), true, true, false, "", 0, map[], [], [], [])
    ensures Sound(SecretStore(userName, password, 6)) && Loaded(SecretStore(userName, password, 6), 1, info)
  {
    var t := SecretStore(userName, password, 6).tables;
    assert MethodsIn(RowsOf(t, 1), t.methods, t.mechanisms) == MethodSets(map[]);
    assert TokensIn(RowsOf(t, 1), t.tokens) == {} && OwnersOf(t, 1) == {} && Elements<string>([]) == {};
    assert RealmsAt(t.realms, 1) == multiset(info.realms);
    var p, want := ReadBack(t, 1).value, ProfileOf(info);
    assert !IsSet(6, 1) && IsSet(6, 2) && IsSet(6, 4);
    assert p.caption == want.caption && p.userName == want.userName && p.userNameSecret == want.userNameSecret;
    assert p.storePassword == want.storePassword && p.validated == want.validated && p.kind == want.kind;
    assert p.methods == want.methods && p.acl == want.acl && p.owners == want.owners;
  }

  lemma EmptyUpdate(s: Store, written: Info, t: Store)
    requires s.tables == SecretStore("", "", 6).tables && written.id == 1
    requires written.methods == map[] && written.acl == [] && written.owners == [] && written.realms == []
    requires t.tables == s.tables.(credentials := map[1 := RowFor(written)])
    ensures Updated(s.tables, written, t.tables, 1)
  {
    var names := s.tables.methods;
    assert Elements<string>([]) == {} && names.InsertAll([]) == names;
    assert names.Extends(names, {});
    assert written.methods.Keys == {} && MechanismNames(written) == {} && TokenNames(written) == {};
    assert CrossProduct(names, names, names, 1, written) == {} && OwnerRows(names, 1, written) == {};
    assert s.tables.credentials[1 := RowFor(written)] == map[1 := RowFor(written)];
  }
}
