/** The identity record that clients and the database exchange, and what of it
    the metadata tables can hold. */
module Identity {
  import opened Options
  import opened Lists

  const NEW_IDENTITY: nat := 0

  /** SignonIdentityInfo: a variant map, so user name and password may be absent. */
  datatype Info = Info(
    id: nat,
    userName: Option<string>,
    password: Option<string>,
    userNameSecret: bool,
    storePassword: bool,
    validated: bool,
    caption: string,
    kind: int,
    methods: map<string, seq<string>>,
    realms: seq<string>,
    acl: seq<string>,
    owners: seq<string>)
  {
    predicate IsNew() {
      id == NEW_IDENTITY
    }

    function UserName(): string {
      if userName.Some? then userName.value else ""
    }

    function Password(): string {
      if password.Some? then password.value else ""
    }

    predicate HasSecrets() {
      password.Some? || (userNameSecret && userName.Some?)
    }
  }

  const BLANK: Info := Info(NEW_IDENTITY, None, None, false, false, false, "", 0, map[], [], [], [])

  /** The lasting part of a record: lists as sets, since tables keep neither order
      nor repetition; realms as a multiset, since their rows may repeat; and no
      user name when that is secret. */
  datatype Profile = Profile(
    caption: string,
    userName: string,
    userNameSecret: bool,
    storePassword: bool,
    validated: bool,
    kind: int,
    methods: map<string, set<string>>,
    realms: multiset<string>,
    acl: set<string>,
    owners: set<string>)

  function MethodSets(methods: map<string, seq<string>>): map<string, set<string>> {
    map m | m in methods :: Elements(methods[m])
  }

  function ProfileOf(info: Info): Profile {
    Profile(info.caption,
            if info.userNameSecret then "" else info.UserName(),
            info.userNameSecret, info.storePassword, info.validated, info.kind,
            MethodSets(info.methods),
            multiset(info.realms),
            Elements(info.acl),
            Elements(info.owners) - {""})
  }
}
