/** The role guard wrapped around every protected page
    (src/components/auth/ProtectedRoute.tsx). */
module ProtectedRoute {
  import opened Rows

  /** What the guard renders: the permission spinner, a redirect, or the page. */
  datatype Outcome = Spinner | Redirect(to: string) | Children

  /** The signed-in role is one of `allowedRoles`; a missing or empty role is
      never admitted, since `!userRole` holds for both. */
  predicate Admitted(role: Option<string>, allowedRoles: seq<string>)
  {
    role.Some? && role.value != "" && role.value in allowedRoles
  }

  /** The guard's decision from the session state (`loading`, whether a user is
      signed in, and the user's role) and the roles the route allows. */
  function Decide(loading: bool, signedIn: bool, role: Option<string>, allowedRoles: seq<string>): (o: Outcome)
    ensures o == Spinner <==> loading
    ensures o == Redirect("/auth") <==> !loading && !signedIn
    ensures o == Redirect("/") <==> !loading && signedIn && !Admitted(role, allowedRoles)
    ensures o == Children <==> !loading && signedIn && Admitted(role, allowedRoles)
    ensures o.Redirect? ==> o.to == "/auth" || o.to == "/"
  {
    if loading then Spinner
    else if !signedIn then Redirect("/auth")
    else if role.None? || role.value == "" || role.value !in allowedRoles then Redirect("/")
    else Children
  }

  /** A route that allows no role never shows its page. */
  lemma EmptyAllowsNobody(loading: bool, signedIn: bool, role: Option<string>)
    ensures Decide(loading, signedIn, role, []) != Children
  {
  }

  /** Allowing more roles never turns an admitted user away, and allowing fewer
      never admits one who was turned away. */
  lemma AllowedRolesMonotone(loading: bool, signedIn: bool, role: Option<string>, fewer: seq<string>, more: seq<string>)
    requires forall r :: r in fewer ==> r in more
    ensures Decide(loading, signedIn, role, fewer) == Children ==> Decide(loading, signedIn, role, more) == Children
    ensures Decide(loading, signedIn, role, more) != Children ==> Decide(loading, signedIn, role, fewer) != Children
  {
  }

  /** The order of the allowed roles does not matter, only which they are. */
  lemma AllowedRolesAsSet(loading: bool, signedIn: bool, role: Option<string>, a: seq<string>, b: seq<string>)
    requires forall r :: r in a <==> r in b
    ensures Decide(loading, signedIn, role, a) == Decide(loading, signedIn, role, b)
  {
  }
}
