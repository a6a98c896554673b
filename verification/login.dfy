/** The login page: the credential form and the three demo buttons.

    The form's submit handler awaits `login`; it is split at that await into
    `SubmitStart` and `SubmitFinish`. Whether the awaited call throws is an
    input: inside `login` only the write to browser storage can fail, and it
    runs after the user has been set (`Auth.LoginStorageFails`). */
module Login {
  import opened Domain
  import Auth

  const DashboardPath: string := "/dashboard"

  /** The form's own state; its loading flag disables the submit button. */
  datatype Form = Form(email: string, password: string, isLoading: bool)

  /** After the synchronous part of a submit: either the fields were
      incomplete (the toast 'Preencha todos os campos', and `login` is not
      called) or `login` is in flight. */
  datatype SubmitOutcome =
    | Incomplete
    | Awaiting(form: Form, session: Auth.Session)

  function SubmitStart(f: Form, s: Auth.Session): (r: SubmitOutcome)
    ensures r.Incomplete? <==> f.email == "" || f.password == ""
    ensures r.Awaiting? ==> r.form.isLoading && r.session.isLoading
    ensures r.Awaiting? ==> r.form.(isLoading := f.isLoading) == f && r.session == Auth.LoginStart(s)
  {
    if f.email == "" || f.password == "" then Incomplete
    else Awaiting(f.(isLoading := true), Auth.LoginStart(s))
  }

  /** The end of a submit attempt: the page state, the session, where the
      page navigates, and the error shown. */
  datatype Attempt = Attempt(form: Form, session: Auth.Session, navigateTo: Option<string>, error: Option<string>)

  /** The awaited `login` settles. On success the page goes to the dashboard;
      if it threw, an error toast and no navigation, with the session as the
      interrupted call left it: the analyst is current but not persisted and
      the provider still loading. Either way the form stops loading. */
  function SubmitFinish(f: Form, s: Auth.Session, threw: bool, stamps: Role -> string): (r: Attempt)
    ensures !r.form.isLoading
    ensures r.navigateTo.Some? <==> !threw
    ensures r.navigateTo.Some? ==> r.navigateTo.value == DashboardPath
    ensures r.error.Some? <==> threw
    ensures !threw ==> r.session == Auth.LoginFinish(s, stamps)
    ensures threw ==> r.session == s.(user := Some(Auth.DemoUser(Analyst, stamps)))
  {
    if threw then Attempt(f.(isLoading := false), Auth.LoginStorageFails(s, stamps), None, Some("Erro ao fazer login"))
    else Attempt(f.(isLoading := false), Auth.LoginFinish(s, stamps), Some(DashboardPath), None)
  }

  /** A whole submit attempt. */
  function HandleSubmit(f: Form, s: Auth.Session, threw: bool, stamps: Role -> string): (r: Attempt)
    ensures r.navigateTo.Some? <==> f.email != "" && f.password != "" && !threw
    ensures r.error.Some? <==> r.navigateTo.None?
    ensures f.email == "" || f.password == "" ==> r.session == s
    ensures f.email != "" && f.password != "" ==> r.session.user == Some(Auth.DemoUser(Analyst, stamps))
    ensures f.email != "" && f.password != "" && threw ==> r.session.stored == s.stored && r.session.isLoading
  {
    match SubmitStart(f, s)
    case Incomplete => Attempt(f, s, None, Some("Preencha todos os campos"))
    case Awaiting(f', s') => SubmitFinish(f', s', threw, stamps)
  }

  /** An incomplete form neither calls `login` nor navigates nor touches the
      loading flag; a complete one that succeeds logs the analyst in and goes
      to the dashboard; after every attempt started from an idle form the
      form is idle again. */
  lemma SubmitContract(f: Form, s: Auth.Session, threw: bool, stamps: Role -> string)
    ensures f.email == "" || f.password == "" ==>
              HandleSubmit(f, s, threw, stamps) == Attempt(f, s, None, Some("Preencha todos os campos"))
    ensures f.email != "" && f.password != "" && !threw ==>
              && HandleSubmit(f, s, threw, stamps).navigateTo == Some(DashboardPath)
              && HandleSubmit(f, s, threw, stamps).session.user == Some(Auth.DemoUser(Analyst, stamps))
    ensures f.email != "" && f.password != "" && threw ==>
              HandleSubmit(f, s, threw, stamps).navigateTo == None
    ensures !f.isLoading ==> !HandleSubmit(f, s, threw, stamps).form.isLoading
  {
  }

  /** The greeting role name of a demo login. */
  function DemoLabel(r: Role): string
  {
    match r
    case Master => "Master"
    case Admin => "Secretário"
    case Analyst => "Analista"
  }

  /** The demo buttons, in the order shown. */
  const DemoButtons: seq<(Role, string)> := [(Analyst, "Analista"), (Admin, "Secretário"), (Master, "Master")]

  /** The demo buttons carry each role exactly once, captioned as the
      greeting names it, and different roles get different names. */
  lemma DemoButtonsAgree()
    ensures forall i :: 0 <= i < |DemoButtons| ==> DemoButtons[i].1 == DemoLabel(DemoButtons[i].0)
    ensures forall r: Role :: (r, DemoLabel(r)) in DemoButtons
    ensures forall a: Role, b: Role :: DemoLabel(a) == DemoLabel(b) ==> a == b
  {
  }

  datatype DemoLogin = DemoLogin(session: Auth.Session, navigateTo: string, greeting: string)

  /** `handleDemoLogin(role)`: switch to the demo user of that role and go to
      the dashboard. */
  function HandleDemoLogin(s: Auth.Session, r: Role, stamps: Role -> string): (d: DemoLogin)
    ensures d.session.user == Some(Auth.DemoUser(r, stamps))
    ensures Auth.Persisted(d.session)
    ensures d.navigateTo == DashboardPath
    ensures d.greeting == "Logado como " + DemoLabel(r)
  {
    DemoLogin(Auth.SetDemoRole(s, r, stamps), DashboardPath, "Logado como " + DemoLabel(r))
  }
}
