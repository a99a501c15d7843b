/** Who may open which page: the guard of src/components/ProtectedRoute.tsx,
    the route table of src/App.tsx and the role menus of
    src/components/Sidebar.tsx, with the proof that every link a role is
    shown leads to a page that role may open. */
module Access {
  import opened Wrappers
  import opened Domain
  import opened Lists

  /** The three things the guard can do. */
  datatype Decision = ToLogin | ToUnauthorized | Render

  /** `ProtectedRoute`: nobody signed in goes to the login page; a role
      list that is given (even an empty one) and lacks the user's role
      sends to the unauthorized page; otherwise the page is shown. */
  function Guard(user: Option<User>, allowedTypes: Option<seq<UserType>>): (d: Decision)
    ensures d == ToLogin <==> user.None?
    ensures d == ToUnauthorized <==> user.Some? && allowedTypes.Some? && user.value.userType !in allowedTypes.value
    ensures d == Render <==> user.Some? && (allowedTypes.None? || user.value.userType in allowedTypes.value)
  {
    if user.None? then ToLogin
    else if allowedTypes.Some? && user.value.userType !in allowedTypes.value then ToUnauthorized
    else Render
  }

  /** How a path is handled: shown to anyone, guarded with an optional
      role list, or redirected to the login page. */
  datatype RouteRule = Open | Guarded(allowedTypes: Option<seq<UserType>>) | RedirectToLogin

  datatype Route = Route(path: string, rule: RouteRule)

  /** The routes in declaration order; "/" and every other path go to the
      login page. */
  const Routes: seq<Route> := [
    Route("/login", Open),
    Route("/unauthorized", Open),
    Route("/dashboard", Guarded(None)),
    Route("/mi-perfil", Guarded(None)),
    Route("/publicaciones", Guarded(None)),
    Route("/mensajeria", Guarded(None)),
    Route("/calificaciones", Guarded(Some([Alumno]))),
    Route("/calificaciones-profesor", Guarded(Some([Profesor]))),
    Route("/pagos", Guarded(None)),
    Route("/asistencia", Guarded(Some([Alumno]))),
    Route("/asistencia-profesor", Guarded(Some([Profesor]))),
    Route("/matricula-web", Guarded(None)),
    Route("/horario-escolar", Guarded(None)),
    Route("/mis-cursos", Guarded(Some([Alumno, Profesor]))),
    Route("/horario", Guarded(None)),
    Route("/usuarios", Guarded(None)),
    Route("/cursos", Guarded(None)),
    Route("/alumnos-matriculados", Guarded(None)),
    Route("/profesores-contratados", Guarded(None)),
    Route("/", RedirectToLogin)
  ]

  /** A path without its trailing slashes. */
  function StripSlashes(p: string): (r: string)
    ensures |r| <= |p| && r == p[..|r|]
    ensures forall k :: |r| <= k < |p| ==> p[k] == '/'
    ensures r == [] || r[|r| - 1] != '/'
  {
    if p != [] && p[|p| - 1] == '/' then
      var r := StripSlashes(p[..|p| - 1]);
      assert p[..|p| - 1][..|r|] == p[..|r|];
      r
    else p
  }

  /** The form in which the router compares a path with the table's
      paths: any number of trailing slashes match; the root is "/". */
  function RoutePath(p: string): string
  {
    var t := StripSlashes(p);
    if t == [] then "/" else t
  }

  /** The rule of the route whose path the router matches with `path`;
      the catch-all route redirects the rest. */
  function RuleFor(path: string): RouteRule
  {
    match Find(Routes, (rt: Route) => rt.path == RoutePath(path))
    case Some(rt) => rt.rule
    case None => RedirectToLogin
  }

  /** A path matching no table path gets the catch-all redirect; any other
      rule comes from the table entry the path matches. */
  lemma RuleForSpec(path: string)
    ensures (forall i :: 0 <= i < |Routes| ==> Routes[i].path != RoutePath(path)) ==> RuleFor(path) == RedirectToLogin
    ensures RuleFor(path) != RedirectToLogin ==>
              exists i :: 0 <= i < |Routes| && Routes[i].path == RoutePath(path) && Routes[i].rule == RuleFor(path)
  {
  }

  /** Every path of the table except the root ends in a letter, so the
      router reads each path of the table as itself. */
  lemma TablePathsFixed(i: nat)
    requires i < |Routes|
    ensures RoutePath(Routes[i].path) == Routes[i].path
  {
    if i < |Routes| - 1 {
      assert Routes[i].path != [] && Routes[i].path[|Routes[i].path| - 1] != '/';
    } else {
      assert StripSlashes("/") == [];
    }
  }

  /** A trailing slash leads where the path without it does. */
  lemma RouterIgnoresTrailingSlash(path: string, user: Option<User>)
    ensures Visit(path + "/", user) == Visit(path, user)
  {
    assert (path + "/")[..|path|] == path;
    assert StripSlashes(path + "/") == StripSlashes(path);
  }

  /** Reading a path twice gives what reading it once gives. */
  lemma RoutePathIdempotent(p: string)
    ensures RoutePath(RoutePath(p)) == RoutePath(p)
  {
    if StripSlashes(p) == [] {
      assert StripSlashes("/") == [];
    }
  }

  /** What visiting `path` ends in for the session user. */
  function Visit(path: string, user: Option<User>): Decision
  {
    match RuleFor(path)
    case Open => Render
    case RedirectToLogin => ToLogin
    case Guarded(allowed) => Guard(user, allowed)
  }

  /** The guard sends anyone not signed in to the login page, whatever
      the role list; it never sends a signed-in user there. */
  lemma GuardLogin(user: Option<User>, allowedTypes: Option<seq<UserType>>)
    ensures user.None? ==> Guard(user, allowedTypes) == ToLogin
    ensures user.Some? ==> Guard(user, allowedTypes) != ToLogin
  {
  }

  /** With no role list every signed-in user sees the page; an empty role
      list turns everyone away. */
  lemma GuardWithoutList(u: User)
    ensures Guard(Some(u), None) == Render
    ensures Guard(Some(u), Some([])) == ToUnauthorized
  {
  }

  /** No path is listed twice. */
  lemma RoutePathsDistinct()
    ensures forall i, j :: 0 <= i < j < |Routes| ==> Routes[i].path != Routes[j].path
  {
  }

  /** The student grade and attendance pages admit only students. */
  lemma StudentRoutes(u: User, path: string)
    requires path == "/calificaciones" || path == "/asistencia"
    ensures Visit(path, Some(u)) == Render <==> u.userType == Alumno
  {
    if path == "/calificaciones" {
      VisitGuarded(6, path, Some([Alumno]), Some(u));
    } else {
      VisitGuarded(9, path, Some([Alumno]), Some(u));
    }
  }

  /** The teacher grade and attendance pages admit only teachers. */
  lemma TeacherRoutes(u: User, path: string)
    requires path == "/calificaciones-profesor" || path == "/asistencia-profesor"
    ensures Visit(path, Some(u)) == Render <==> u.userType == Profesor
  {
    if path == "/calificaciones-profesor" {
      VisitGuarded(7, path, Some([Profesor]), Some(u));
    } else {
      VisitGuarded(10, path, Some([Profesor]), Some(u));
    }
  }

  /** "My courses" admits students and teachers, not administrators. */
  lemma MyCoursesRoute(u: User, path: string)
    requires path == "/mis-cursos"
    ensures Visit(path, Some(u)) == Render <==> u.userType != Administrativo
  {
    VisitGuarded(13, path, Some([Alumno, Profesor]), Some(u));
  }

  /** A visit to a guarded route is decided by that route's guard. */
  lemma VisitGuarded(i: nat, path: string, allowed: Option<seq<UserType>>, user: Option<User>)
    requires i < |Routes| && Routes[i] == Route(path, Guarded(allowed))
    ensures Visit(path, user) == Guard(user, allowed)
  {
    RuleIs(i, path);
  }

  /** The route at index `i` is the one a visit to its path finds. */
  lemma RuleIs(i: nat, path: string)
    requires i < |Routes| && Routes[i].path == path
    ensures RuleFor(path) == Routes[i].rule
  {
    TablePathsFixed(i);
    RoutePathsDistinct();
    FindIndexIs(Routes, (rt: Route) => rt.path == RoutePath(path), i);
  }

  /** A visit to an open route renders for anyone. */
  lemma VisitOpen(i: nat, path: string, user: Option<User>)
    requires i < |Routes| && Routes[i] == Route(path, Open)
    ensures Visit(path, user) == Render
  {
    RuleIs(i, path);
  }

  /** A visit to a path whose rule redirects ends at the login page. */
  lemma VisitRedirect(path: string, user: Option<User>)
    requires RuleFor(path) == RedirectToLogin
    ensures Visit(path, user) == ToLogin
  {
  }

  /** Any path that matches no table path, even without its trailing
      slashes, leads to the login page. */
  lemma UnlistedToLogin(path: string, user: Option<User>)
    requires forall i :: 0 <= i < |Routes| ==> Routes[i].path != RoutePath(path)
    ensures Visit(path, user) == ToLogin
  {
    RuleForSpec(path);
    VisitRedirect(path, user);
  }

  /** "/", and the empty path the router reads as "/", lead to the login
      page. */
  lemma RootToLogin(user: Option<User>)
    ensures Visit("/", user) == ToLogin
    ensures Visit("", user) == ToLogin
  {
    RuleIs(19, "/");
    assert RoutePath("") == RoutePath("/");
    VisitRedirect("/", user);
  }

  /** The login and unauthorized pages are open to anyone. */
  lemma OpenPages(user: Option<User>)
    ensures Visit("/login", user) == Render && Visit("/unauthorized", user) == Render
  {
    VisitOpen(0, "/login", user);
    VisitOpen(1, "/unauthorized", user);
  }

  /** Every other listed page needs a signed-in user of any role. */
  lemma AnyRoleRoutes(i: nat, u: User)
    requires i < |Routes| && Routes[i].rule == Guarded(None)
    ensures Visit(Routes[i].path, Some(u)) == Render
    ensures Visit(Routes[i].path, None) == ToLogin
  {
    RuleIs(i, Routes[i].path);
  }

  datatype MenuItem = MenuItem(path: string, caption: string)

  const StudentMenu: seq<MenuItem> := [
    MenuItem("/publicaciones", "Publicaciones"),
    MenuItem("/mensajeria", "Mensajer\U{00ED}a"),
    MenuItem("/calificaciones", "Calificaciones"),
    MenuItem("/pagos", "Pagos"),
    MenuItem("/asistencia", "Asistencia"),
    MenuItem("/mis-cursos", "Mis Cursos"),
    MenuItem("/matricula-web", "Matr\U{00ED}cula Web"),
    MenuItem("/horario-escolar", "Horario Escolar")
  ]

  const TeacherMenu: seq<MenuItem> := [
    MenuItem("/publicaciones", "Publicaciones"),
    MenuItem("/mis-cursos", "Mis Cursos"),
    MenuItem("/calificaciones-profesor", "Calificaciones"),
    MenuItem("/asistencia-profesor", "Asistencia"),
    MenuItem("/horario", "Horario"),
    MenuItem("/mensajeria", "Mensajer\U{00ED}a")
  ]

  const AdminMenu: seq<MenuItem> := [
    MenuItem("/publicaciones", "Publicaciones"),
    MenuItem("/usuarios", "Usuarios"),
    MenuItem("/alumnos-matriculados", "Alumnos Matriculados"),
    MenuItem("/profesores-contratados", "Profesores Contratados"),
    MenuItem("/cursos", "Cursos"),
    MenuItem("/pagos", "Pagos"),
    MenuItem("/mensajeria", "Mensajer\U{00ED}a")
  ]

  /** The sidebar's menu: the teacher or the administrator menu by role,
      and the student menu for anyone else, nobody included. */
  function MenuFor(user: Option<User>): (m: seq<MenuItem>)
    ensures user.Some? && user.value.userType == Profesor ==> m == TeacherMenu
    ensures user.Some? && user.value.userType == Administrativo ==> m == AdminMenu
    ensures user.None? || user.value.userType == Alumno ==> m == StudentMenu
  {
    if user.Some? && user.value.userType == Profesor then TeacherMenu
    else if user.Some? && user.value.userType == Administrativo then AdminMenu
    else StudentMenu
  }

  predicate DistinctPaths(menu: seq<MenuItem>) {
    forall i, j :: 0 <= i < j < |menu| ==> menu[i].path != menu[j].path
  }

  predicate HasPath(menu: seq<MenuItem>, path: string) {
    exists i :: 0 <= i < |menu| && menu[i].path == path
  }

  /** Each menu lists a page once, and each offers the publications and
      the messages. */
  lemma MenusWellFormed(user: Option<User>)
    ensures DistinctPaths(MenuFor(user))
    ensures HasPath(MenuFor(user), "/publicaciones") && HasPath(MenuFor(user), "/mensajeria")
  {
    var m := MenuFor(user);
    assert m[0].path == "/publicaciones";
    if m == StudentMenu {
      assert m[1].path == "/mensajeria";
    } else if m == TeacherMenu {
      assert m[5].path == "/mensajeria";
    } else {
      assert m[6].path == "/mensajeria";
    }
  }

  /** Every link in the menu a signed-in user is shown opens its page for
      that user. */
  lemma MenuLinksAdmitted(u: User)
    ensures forall i :: 0 <= i < |MenuFor(Some(u))| ==> Visit(MenuFor(Some(u))[i].path, Some(u)) == Render
  {
    var m := MenuFor(Some(u));
    forall i | 0 <= i < |m| ensures Visit(m[i].path, Some(u)) == Render {
      var k := MenuRoute(m, i);
      RuleIs(k, m[i].path);
    }
  }

  /** The route entry of a student menu link. */
  lemma StudentMenuRoute(i: nat) returns (k: nat)
    requires i < |StudentMenu|
    ensures k < |Routes| && Routes[k].path == StudentMenu[i].path
    ensures Routes[k].rule == Guarded(None) || Routes[k].rule == Guarded(Some([Alumno])) || Routes[k].rule == Guarded(Some([Alumno, Profesor]))
  {
    k := [4, 5, 6, 8, 9, 13, 11, 12][i];
  }

  /** The route entry of a teacher menu link. */
  lemma TeacherMenuRoute(i: nat) returns (k: nat)
    requires i < |TeacherMenu|
    ensures k < |Routes| && Routes[k].path == TeacherMenu[i].path
    ensures Routes[k].rule == Guarded(None) || Routes[k].rule == Guarded(Some([Profesor])) || Routes[k].rule == Guarded(Some([Alumno, Profesor]))
  {
    k := [4, 13, 7, 10, 14, 5][i];
  }

  /** The route entry of an administrator menu link. */
  lemma AdminMenuRoute(i: nat) returns (k: nat)
    requires i < |AdminMenu|
    ensures k < |Routes| && Routes[k].path == AdminMenu[i].path && Routes[k].rule == Guarded(None)
  {
    k := [4, 15, 17, 18, 16, 8, 5][i];
  }

  /** The route entry of a menu link. */
  lemma MenuRoute(m: seq<MenuItem>, i: nat) returns (k: nat)
    requires m == StudentMenu || m == TeacherMenu || m == AdminMenu
    requires i < |m|
    ensures k < |Routes| && Routes[k].path == m[i].path
    ensures Routes[k].rule == Guarded(None)
            || (m == StudentMenu && Routes[k].rule.Guarded? && Routes[k].rule.allowedTypes.Some? && Alumno in Routes[k].rule.allowedTypes.value)
            || (m == TeacherMenu && Routes[k].rule.Guarded? && Routes[k].rule.allowedTypes.Some? && Profesor in Routes[k].rule.allowedTypes.value)
  {
    if m == StudentMenu {
      k := StudentMenuRoute(i);
    } else if m == TeacherMenu {
      k := TeacherMenuRoute(i);
    } else {
      k := AdminMenuRoute(i);
    }
  }

  /** With nobody signed in, every link of the menu shown leads to the
      login page. */
  lemma SignedOutLinksToLogin()
    ensures forall i :: 0 <= i < |MenuFor(None)| ==> Visit(MenuFor(None)[i].path, None) == ToLogin
  {
    var m := MenuFor(None);
    forall i | 0 <= i < |m| ensures Visit(m[i].path, None) == ToLogin {
      var k := MenuRoute(m, i);
      RuleIs(k, m[i].path);
    }
  }

  /** `isActive`: the link is the current location. */
  predicate IsActive(pathname: string, path: string) {
    pathname == path
  }

  /** At most one link of a menu is highlighted at a time. */
  lemma AtMostOneActive(user: Option<User>, pathname: string)
    ensures forall i, j :: (&& 0 <= i < |MenuFor(user)| && 0 <= j < |MenuFor(user)|
                            && IsActive(pathname, MenuFor(user)[i].path) && IsActive(pathname, MenuFor(user)[j].path)) ==> i == j
  {
    MenusWellFormed(user);
  }
}
