/** The session authority (`AuthContext`): the current user, a loading flag,
    and the one browser-storage slot keyed `urbanplan_user`.

    Storage is an abstract slot holding a user or nothing; serialising a user
    to JSON and back is taken to be the identity. The one-second wait inside
    `login` splits it into `LoginStart` and `LoginFinish`. */
module Auth {
  import opened Domain

  /** The key of the storage slot. */
  const StorageKey: string := "urbanplan_user"

  /** The provider's state together with the storage slot it writes. */
  datatype Session = Session(user: Option<User>, isLoading: bool, stored: Option<User>)

  /** `demoUsers[r]`. Each demo user's `created_at` is the time its record was
      built when the module loaded; `stamps` supplies those three times. */
  function DemoUser(r: Role, stamps: Role -> string): (u: User)
    ensures u.role == r
    ensures u.createdAt == stamps(r)
    ensures u.empresaId.None? <==> r == Master
  {
    match r
    case Master => User("1", "master@urbanplan.gov", "Admin Master", Master, None, None, stamps(Master))
    case Admin => User("2", "secretario@florianopolis.gov", "João Silva", Admin, Some("emp-1"), None, stamps(Admin))
    case Analyst => User("3", "analista@florianopolis.gov", "Maria Santos", Analyst, Some("emp-1"), None, stamps(Analyst))
  }

  /** The three demo users are told apart by id; the operator belongs to no
      municipality, the other two to `emp-1`. */
  lemma DemoUsersShape(stamps: Role -> string)
    ensures forall a: Role, b: Role :: DemoUser(a, stamps).id == DemoUser(b, stamps).id ==> a == b
    ensures DemoUser(Master, stamps).empresaId == None
    ensures DemoUser(Admin, stamps).empresaId == Some("emp-1")
    ensures DemoUser(Analyst, stamps).empresaId == Some("emp-1")
    ensures DemoUser(Analyst, stamps).id == "3"
  {
  }

  /** The provider as first rendered over a storage slot: no user, loading. */
  function Provide(stored: Option<User>): (s: Session)
    ensures s.user == None && s.isLoading && s.stored == stored
  {
    Session(None, true, stored)
  }

  /** The mount effect: adopt the stored user if there is one, then stop
      loading. */
  function Mount(s: Session): (r: Session)
    ensures !r.isLoading
    ensures r.stored == s.stored
    ensures s.stored.Some? ==> r.user == s.stored
    ensures s.stored.None? ==> r.user == s.user
  {
    s.(user := if s.stored.Some? then s.stored else s.user, isLoading := false)
  }

  /** What a fresh page load finds: the provider mounted over the slot. */
  function Restore(stored: Option<User>): Session
  {
    Mount(Provide(stored))
  }

  /** Restoring yields exactly the stored user, and nothing when the slot is
      empty. */
  lemma RestoreYieldsStored(stored: Option<User>)
    ensures Restore(stored).user == stored
    ensures !Restore(stored).isLoading
  {
  }

  /** `login` up to its simulated wait: only the loading flag is raised. */
  function LoginStart(s: Session): (r: Session)
    ensures r.isLoading
    ensures r.user == s.user && r.stored == s.stored
  {
    s.(isLoading := true)
  }

  /** `login` after its wait: the analyst demo user becomes current and is
      persisted, and loading stops. */
  function LoginFinish(s: Session, stamps: Role -> string): (r: Session)
    ensures !r.isLoading
    ensures r.user == Some(DemoUser(Analyst, stamps)) && r.stored == r.user
  {
    Session(Some(DemoUser(Analyst, stamps)), false, Some(DemoUser(Analyst, stamps)))
  }

  /** `login` when its storage write throws. That write is the only step
      after the wait that can fail, and it runs after `setUser`: the analyst
      demo user is current, the slot keeps what it held, and the loading flag
      is never lowered. */
  function LoginStorageFails(s: Session, stamps: Role -> string): (r: Session)
    ensures r.user == Some(DemoUser(Analyst, stamps))
    ensures r.stored == s.stored && r.isLoading == s.isLoading
  {
    s.(user := Some(DemoUser(Analyst, stamps)))
  }

  /** The whole of `login(email, password)`. The credentials are accepted
      whatever they are. */
  function Login(s: Session, email: string, password: string, stamps: Role -> string): (r: Session)
    ensures r.user.Some? && r.user.value.role == Analyst && r.user.value.id == "3"
    ensures r.stored == r.user && !r.isLoading
  {
    LoginFinish(LoginStart(s), stamps)
  }

  /** `login` ignores its arguments. */
  lemma LoginIgnoresCredentials(s: Session, e1: string, p1: string, e2: string, p2: string, stamps: Role -> string)
    ensures Login(s, e1, p1, stamps) == Login(s, e2, p2, stamps)
  {
  }

  /** `logout`: no user and an empty slot. The loading flag is untouched. */
  function Logout(s: Session): (r: Session)
    ensures r.user == None && r.stored == None
    ensures r.isLoading == s.isLoading
  {
    s.(user := None, stored := None)
  }

  /** Logging out twice is logging out once. */
  lemma LogoutIdempotent(s: Session)
    ensures Logout(Logout(s)) == Logout(s)
  {
  }

  /** `setDemoRole(r)`: the demo user of role `r` becomes current and is
      persisted. */
  function SetDemoRole(s: Session, r: Role, stamps: Role -> string): (t: Session)
    ensures t.user.Some? && t.user.value.role == r
    ensures t.stored == t.user
    ensures t.isLoading == s.isLoading
  {
    var u := DemoUser(r, stamps);
    s.(user := Some(u), stored := Some(u))
  }

  /** The slot holds the current user. */
  predicate Persisted(s: Session)
  {
    s.stored == s.user
  }

  /** After `login`, `logout` or `setDemoRole` the slot holds the current user,
      so the next page load restores that same user. */
  lemma OperationsPersist(s: Session, r: Role, email: string, password: string, stamps: Role -> string)
    ensures Persisted(Login(s, email, password, stamps))
    ensures Persisted(Logout(s))
    ensures Persisted(SetDemoRole(s, r, stamps))
    ensures Restore(Login(s, email, password, stamps).stored).user == Login(s, email, password, stamps).user
    ensures Restore(Logout(s).stored).user == None
    ensures Restore(SetDemoRole(s, r, stamps).stored).user == Some(DemoUser(r, stamps))
  {
  }

  /** `useAuth`: the provider's session, or the error thrown outside a
      provider. */
  function UseAuth(context: Option<Session>): (r: Result<Session, string>)
    ensures context.None? <==> r.Err?
    ensures r.Err? ==> r.error == "useAuth must be used within an AuthProvider"
    ensures r.Ok? ==> Some(r.value) == context
  {
    match context
    case None => Err("useAuth must be used within an AuthProvider")
    case Some(s) => Ok(s)
  }
}
