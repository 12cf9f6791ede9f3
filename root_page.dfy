/** The landing page (src/app/page.tsx): once the auth state has settled, send the
    visitor to the barbershop list or to the login page. */
module RootPage {
  import opened Types

  /** The route the page replaces the current one with, or None while the session is still loading. */
  function Redirect(user: Option<User>, loading: bool): (r: Option<Navigation>)
    ensures r.None? <==> loading
    ensures r == Some(Replace(BarbershopsRoute)) <==> !loading && user.Some?
    ensures r == Some(Replace(LoginRoute)) <==> !loading && user.None?
  {
    if loading then None
    else if user.Some? then Some(Replace(BarbershopsRoute))
    else Some(Replace(LoginRoute))
  }

  /** Which user is signed in does not matter, only whether one is. */
  lemma RedirectDependsOnPresence(u1: Option<User>, u2: Option<User>, loading: bool)
    requires u1.Some? <==> u2.Some?
    ensures Redirect(u1, loading) == Redirect(u2, loading)
  {
  }
}
