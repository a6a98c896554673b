/** The start page (`Index`): once the session has loaded, send the visitor
    to the dashboard or to the login page. */
module StartPage {
  import opened Domain
  import Auth

  /** The navigation the start page's effect performs, if any. */
  function Redirect(s: Auth.Session): (r: Option<string>)
    ensures r.None? <==> s.isLoading
    ensures r == Some("/dashboard") <==> !s.isLoading && s.user.Some?
    ensures r == Some("/login") <==> !s.isLoading && s.user.None?
  {
    if s.isLoading then None
    else if s.user.Some? then Some("/dashboard")
    else Some("/login")
  }

  /** Before the mount effect nothing happens; after it, a stored user leads
      to the dashboard and an empty slot to the login page. */
  lemma RedirectAfterRestore(stored: Option<User>)
    ensures Redirect(Auth.Provide(stored)) == None
    ensures stored.Some? ==> Redirect(Auth.Restore(stored)) == Some("/dashboard")
    ensures stored.None? ==> Redirect(Auth.Restore(stored)) == Some("/login")
  {
  }

  /** After logging out, the next page load is sent to the login page. */
  lemma LogoutThenReload(s: Auth.Session)
    ensures Redirect(Auth.Restore(Auth.Logout(s).stored)) == Some("/login")
  {
  }
}
