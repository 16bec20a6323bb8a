/** The root page, which only sends a signed-in user to the landing page of
    their role (src/pages/Index.tsx). */
module IndexPage {
  import opened Rows

  /** The landing page of each role. */
  function Landing(r: AppRole): (path: string)
    ensures r == Recepcionista ==> path == "/recepcao"
    ensures r == Medicacao ==> path == "/medicacao"
    ensures r == Doutor ==> path == "/doutor"
    ensures path != "/auth" && path != "/"
  {
    match r
    case Recepcionista => "/recepcao"
    case Medicacao => "/medicacao"
    case Doutor => "/doutor"
  }

  /** Where the effect navigates to; `None` when it does not navigate. */
  function RedirectTarget(loading: bool, signedIn: bool, role: Option<string>): (to: Option<string>)
    ensures loading ==> to == None
    ensures !loading && !signedIn ==> to == Some("/auth")
    ensures !loading && signedIn && (role.None? || role == Some("")) ==> to == None
    ensures forall r :: !loading && signedIn && role == Some(RoleText(r)) ==> to == Some(Landing(r))
    ensures !loading && signedIn && role.Some? && role.value != "" && ParseRole(role.value).None? ==>
      to == Some("/auth")
  {
    if loading then None
    else if !signedIn then Some("/auth")
    else if role.None? || role.value == "" then None
    else if role.value == "recepcionista" then Some("/recepcao")
    else if role.value == "medicacao" then Some("/medicacao")
    else if role.value == "doutor" then Some("/doutor")
    else Some("/auth")
  }

  /** The three roles land on three different pages, and each landing page is
      reached by its role alone. */
  lemma LandingInjective(a: AppRole, b: AppRole)
    ensures Landing(a) == Landing(b) <==> a == b
  {
  }

  /** What the page itself renders: the loading screen, or nothing. */
  datatype View = LoadingScreen | Nothing

  function Render(loading: bool): (v: View)
    ensures v == LoadingScreen <==> loading
  {
    if loading then LoadingScreen else Nothing
  }
}
