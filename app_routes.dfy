/** The application's route table: which page each path shows and which roles
    its guard allows (src/App.tsx). */
module AppRoutes {
  import opened Rows
  import opened ProtectedRoute
  import IndexPage

  datatype Page =
    | PainelPublico | Index | Auth | Recepcao | Medicacao | DoutorNew
    | Produtos | ClienteDetalhes | Financeiro | Painel | Chat | NotFound

  /** A route path: a fixed path, or a fixed prefix followed by one dynamic
      segment (`/cliente/:id`). */
  datatype Pattern = Exact(path: string) | WithParam(prefix: string)

  /** `guard` is `None` for a page outside `ProtectedRoute`, and its
      `allowedRoles` otherwise. */
  datatype Route = Route(pattern: Pattern, page: Page, guard: Option<seq<string>>)

  /** A dynamic segment is not empty and holds no `/`. */
  predicate Segment(s: string)
  {
    s != [] && '/' !in s
  }

  /** A fixed path matches only itself; a parameter route matches its prefix
      followed by one segment. */
  function Matches(p: Pattern, path: string): (m: bool)
    ensures p.Exact? ==> (m <==> path == p.path)
    ensures p.WithParam? && m ==> |path| > |p.prefix| && path == p.prefix + path[|p.prefix|..] && Segment(path[|p.prefix|..])
  {
    match p
    case Exact(q) => path == q
    case WithParam(prefix) => |path| > |prefix| && path[..|prefix|] == prefix && Segment(path[|prefix|..])
  }

  /** Every segment after a parameter route's prefix gives a matching path. */
  lemma MatchesEverySegment(prefix: string, id: string)
    requires Segment(id)
    ensures Matches(WithParam(prefix), prefix + id)
  {
    assert (prefix + id)[..|prefix|] == prefix && (prefix + id)[|prefix|..] == id;
  }

  const Routes: seq<Route> := [
    Route(Exact("/painel"), PainelPublico, None),
    Route(Exact("/"), Index, None),
    Route(Exact("/auth"), Auth, None),
    Route(Exact("/recepcao"), Recepcao, Some(["recepcionista", "doutor"])),
    Route(Exact("/medicacao"), Page.Medicacao, Some(["medicacao", "doutor"])),
    Route(Exact("/doutor"), DoutorNew, Some(["doutor"])),
    Route(Exact("/produtos"), Produtos, Some(["recepcionista", "doutor"])),
    Route(WithParam("/cliente/"), ClienteDetalhes, Some(["recepcionista", "medicacao", "doutor"])),
    Route(Exact("/financeiro"), Financeiro, Some(["doutor"])),
    Route(Exact("/painel-admin"), Painel, Some(["recepcionista", "doutor"])),
    Route(Exact("/chat"), Chat, Some(["recepcionista", "medicacao", "doutor"]))]

  /** No path starting with `/cliente/` is one of the fixed paths. */
  lemma ClientePrefixNotExact(path: string)
    requires |path| > 9 && path[..9] == "/cliente/"
    ensures forall i :: 0 <= i < |Routes| && Routes[i].pattern.Exact? ==> path != Routes[i].pattern.path
  {
    forall i | 0 <= i < |Routes| && Routes[i].pattern.Exact?
      ensures path != Routes[i].pattern.path
    {
      var q := Routes[i].pattern.path;
      assert path[1] == path[..9][1] == 'c';
      if |q| > 9 {
        assert q[1] != 'c';
      }
    }
  }

  /** No path matches two routes of the table, so the ranking react-router
      applies between routes never comes into play. */
  lemma RoutesDisjoint(path: string, i: int, j: int)
    requires 0 <= i < j < |Routes|
    ensures !(Matches(Routes[i].pattern, path) && Matches(Routes[j].pattern, path))
  {
    if Matches(Routes[i].pattern, path) && Matches(Routes[j].pattern, path) {
      if i == 7 || j == 7 {
        ClientePrefixNotExact(path);
        assert false;
      }
    }
  }

  /** The first route whose pattern matches `path`, as an index into the table. */
  function FirstMatch(path: string, from: nat): (r: Option<nat>)
    requires from <= |Routes|
    ensures r.Some? ==> from <= r.value < |Routes| && Matches(Routes[r.value].pattern, path)
    ensures r.Some? ==> forall i :: from <= i < r.value ==> !Matches(Routes[i].pattern, path)
    ensures r.None? <==> forall i :: from <= i < |Routes| ==> !Matches(Routes[i].pattern, path)
    decreases |Routes| - from
  {
    if from == |Routes| then None
    else if Matches(Routes[from].pattern, path) then Some(from)
    else FirstMatch(path, from + 1)
  }

  /** The page and guard `path` leads to; the catch-all route gives `NotFound`,
      unguarded. */
  function Resolve(path: string): (r: Route)
    ensures r.page == NotFound <==> forall i :: 0 <= i < |Routes| ==> !Matches(Routes[i].pattern, path)
    ensures forall i :: 0 <= i < |Routes| && Matches(Routes[i].pattern, path) ==> r == Routes[i]
    ensures r.page == NotFound ==> r.guard.None?
  {
    match FirstMatch(path, 0)
    case None => Route(Exact(path), NotFound, None)
    case Some(i) =>
      assert forall j :: 0 <= j < |Routes| && Matches(Routes[j].pattern, path) ==> j == i by {
        forall j | 0 <= j < |Routes| && Matches(Routes[j].pattern, path)
          ensures j == i
        {
          if j < i { RoutesDisjoint(path, j, i); }
          if i < j { RoutesDisjoint(path, i, j); }
        }
      }
      Routes[i]
  }

  /** What a visit to `path` renders: the page, and what its guard decided
      (`Children` for a page without a guard). */
  datatype View = View(page: Page, outcome: Outcome)

  function Visit(path: string, loading: bool, signedIn: bool, role: Option<string>): (v: View)
    ensures v.page == Resolve(path).page
    ensures Resolve(path).guard.None? ==> v.outcome == Children
    ensures Resolve(path).guard.Some? ==> v.outcome == Decide(loading, signedIn, role, Resolve(path).guard.value)
  {
    var r := Resolve(path);
    match r.guard
    case None => View(r.page, Children)
    case Some(allowed) => View(r.page, Decide(loading, signedIn, role, allowed))
  }

  /** A visit to a path that matches route `i` shows that route's page under its guard. */
  lemma VisitRoute(path: string, i: nat, loading: bool, signedIn: bool, role: Option<string>)
    requires i < |Routes| && Matches(Routes[i].pattern, path)
    ensures Visit(path, loading, signedIn, role).page == Routes[i].page
    ensures Routes[i].guard.None? ==> Visit(path, loading, signedIn, role).outcome == Children
    ensures Routes[i].guard.Some? ==>
      Visit(path, loading, signedIn, role).outcome == Decide(loading, signedIn, role, Routes[i].guard.value)
  {
  }

  /** The public panel, the root page and the sign-in page show whatever the session. */
  lemma UnguardedPages(loading: bool, signedIn: bool, role: Option<string>)
    ensures Visit("/painel", loading, signedIn, role) == View(PainelPublico, Children)
    ensures Visit("/", loading, signedIn, role) == View(Index, Children)
    ensures Visit("/auth", loading, signedIn, role) == View(Auth, Children)
  {
    VisitRoute("/painel", 0, loading, signedIn, role);
    VisitRoute("/", 1, loading, signedIn, role);
    VisitRoute("/auth", 2, loading, signedIn, role);
  }

  /** Only the doctor reaches the doctor's page and the financial report. */
  lemma DoctorOnlyPages(role: Option<string>)
    ensures Visit("/doutor", false, true, role).outcome == Children <==> role == Some("doutor")
    ensures Visit("/financeiro", false, true, role).outcome == Children <==> role == Some("doutor")
  {
    VisitRoute("/doutor", 5, false, true, role);
    VisitRoute("/financeiro", 8, false, true, role);
  }

  /** Every role reaches the client page and the chat. */
  lemma SharedPages(id: string, r: AppRole)
    requires Segment(id)
    ensures Visit("/cliente/" + id, false, true, Some(RoleText(r))) == View(ClienteDetalhes, Children)
    ensures Visit("/chat", false, true, Some(RoleText(r))) == View(Chat, Children)
  {
    MatchesEverySegment("/cliente/", id);
    VisitRoute("/cliente/" + id, 7, false, true, Some(RoleText(r)));
    VisitRoute("/chat", 10, false, true, Some(RoleText(r)));
  }

  /** The doctor is allowed by every guard: a signed-in doctor sees every page. */
  lemma DoctorAllowedEverywhere(path: string)
    ensures Visit(path, false, true, Some("doutor")).outcome == Children
  {
    var r := Resolve(path);
    if r.guard.Some? {
      assert r in Routes;
    }
  }

  /** The medication staff passes a guard only at the medication page, a client's
      page and the chat. */
  lemma MedicacaoPages(path: string)
    requires Resolve(path).guard.Some?
    requires Visit(path, false, true, Some("medicacao")).outcome == Children
    ensures Resolve(path).page in {Page.Medicacao, ClienteDetalhes, Chat}
  {
    var r := Resolve(path);
    assert r in Routes;
  }

  /** The landing page the root page picks for a role lets that role in. */
  lemma LandingAdmitsRole(r: AppRole)
    ensures IndexPage.RedirectTarget(false, true, Some(RoleText(r))) == Some(IndexPage.Landing(r))
    ensures Visit(IndexPage.Landing(r), false, true, Some(RoleText(r))).outcome == Children
    ensures Visit(IndexPage.Landing(r), false, true, Some(RoleText(r))).page != NotFound
  {
    if r.Recepcionista? {
      VisitRoute("/recepcao", 3, false, true, Some(RoleText(r)));
    } else if r.Medicacao? {
      VisitRoute("/medicacao", 4, false, true, Some(RoleText(r)));
    } else {
      VisitRoute("/doutor", 5, false, true, Some(RoleText(r)));
    }
  }

  /** A path no route names shows the not-found page, with no guard. */
  lemma UnknownPathNotFound(path: string, loading: bool, signedIn: bool, role: Option<string>)
    requires forall i :: 0 <= i < |Routes| ==> !Matches(Routes[i].pattern, path)
    ensures Visit(path, loading, signedIn, role) == View(NotFound, Children)
  {
  }
}
