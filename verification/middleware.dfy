/** `CashDrawerMiddleware.__call__` of pos/middleware.py as a pure decision over
    the request's user flags, its path and whether the user has an open session. */
module Middleware {
  import opened Text
  import opened Models
  import Sessions

  datatype Visitor = Visitor(authenticated: bool, staff: bool, superuser: bool)

  datatype Decision = PassThrough | RedirectToOpenSession

  const PosPrefix: string := "/pos/"
  const OpenSessionPath: string := "/pos/open-session/"
  const CloseSessionPath: string := "/pos/close-session/"

  /** The paths that never require an open session, in the order the middleware lists them. */
  const ExcludedPaths: seq<string> := [OpenSessionPath, CloseSessionPath, "/logout/", "/accounts/", "/admin/"]

  /** Cashiers are the authenticated users who are neither staff nor superusers. */
  predicate IsCashier(v: Visitor)
  {
    v.authenticated && !(v.staff || v.superuser)
  }

  /** The middleware's decision for a request, given the exclusion list it checks. */
  function GateWith(excluded: seq<string>, v: Visitor, path: string, hasOpenSession: bool): Decision
  {
    if IsCashier(v) && StartsWith(path, PosPrefix) && !StartsWithAny(path, excluded) && !hasOpenSession
    then RedirectToOpenSession
    else PassThrough
  }

  function Gate(v: Visitor, path: string, hasOpenSession: bool): Decision
  {
    GateWith(ExcludedPaths, v, path, hasOpenSession)
  }

  /** The gate redirects exactly the cashiers without an open session who ask for a
      `/pos/` page other than session opening and closing; everyone else passes. */
  lemma GateRedirectsIff(v: Visitor, path: string, hasOpenSession: bool)
    ensures Gate(v, path, hasOpenSession) == RedirectToOpenSession
        <==> && v.authenticated && !v.staff && !v.superuser
             && StartsWith(path, PosPrefix)
             && !StartsWith(path, OpenSessionPath) && !StartsWith(path, CloseSessionPath)
             && !hasOpenSession
  {
    ExclusionsOutsidePosAreInert(v, path, hasOpenSession);
    var pos := [OpenSessionPath, CloseSessionPath];
    if StartsWith(path, OpenSessionPath) { assert StartsWith(path, pos[0]); }
    if StartsWith(path, CloseSessionPath) { assert StartsWith(path, pos[1]); }
  }

  /** A path under `/pos/` cannot also begin with `/logout/`, `/accounts/` or `/admin/`,
      so those three entries of the exclusion list never change the decision. */
  lemma ExclusionsOutsidePosAreInert(v: Visitor, path: string, hasOpenSession: bool)
    ensures Gate(v, path, hasOpenSession) == GateWith([OpenSessionPath, CloseSessionPath], v, path, hasOpenSession)
  {
    if StartsWith(path, PosPrefix) {
      var short := [OpenSessionPath, CloseSessionPath];
      if StartsWithAny(path, ExcludedPaths) {
        assert path[1] == 'p' by { assert path[..|PosPrefix|][1] == path[1]; }
        var i :| 0 <= i < |ExcludedPaths| && StartsWith(path, ExcludedPaths[i]);
        assert ExcludedPaths[i][1] == path[1] by { assert path[..|ExcludedPaths[i]|][1] == path[1]; }
        assert i < 2;
        assert StartsWith(path, short[i]);
      }
      if StartsWithAny(path, short) {
        var i :| 0 <= i < |short| && StartsWith(path, short[i]);
        assert StartsWith(path, ExcludedPaths[i]);
      }
    }
  }

  /** Users who are not logged in are never redirected. */
  lemma AnonymousPassThrough(v: Visitor, path: string, hasOpenSession: bool)
    requires !v.authenticated
    ensures Gate(v, path, hasOpenSession) == PassThrough
  {
  }

  /** Staff and superusers are never redirected. */
  lemma StaffPassThrough(v: Visitor, path: string, hasOpenSession: bool)
    requires v.staff || v.superuser
    ensures Gate(v, path, hasOpenSession) == PassThrough
  {
  }

  /** Paths outside `/pos/` are never redirected. */
  lemma OutsidePosPassThrough(v: Visitor, path: string, hasOpenSession: bool)
    requires !StartsWith(path, PosPrefix)
    ensures Gate(v, path, hasOpenSession) == PassThrough
  {
  }

  /** The session pages themselves stay reachable without an open session. */
  lemma SessionPagesReachable(v: Visitor, path: string)
    requires StartsWith(path, OpenSessionPath) || StartsWith(path, CloseSessionPath)
    ensures Gate(v, path, false) == PassThrough
  {
    GateRedirectsIff(v, path, false);
  }

  /** The gate as the middleware runs it, with the open-session query answered by
      `get_active_session` over the session table. */
  function GateFor(sessions: seq<DrawerSession>, user: UserId, v: Visitor, path: string): Decision
  {
    Gate(v, path, Sessions.ActiveSession(sessions, user).Some?)
  }

  /** Opening a session lets the cashier through to the point of sale; closing it
      sends them back to the opening page. */
  lemma GateFollowsSessionLifecycle(sessions: seq<DrawerSession>, sales: seq<Sale>, user: UserId, v: Visitor,
                                    path: string, amount: Option<Cents>, counted: Option<Cents>, now: int)
    requires IsCashier(v) && StartsWith(path, PosPrefix)
    requires !StartsWith(path, OpenSessionPath) && !StartsWith(path, CloseSessionPath)
    requires Sessions.OneOpenPerUser(sessions)
    ensures Sessions.OpenSession(sessions, user, amount, now).Opened? ==>
      GateFor(Sessions.OpenSession(sessions, user, amount, now).sessions, user, v, path) == PassThrough
    ensures Sessions.CloseSession(sessions, sales, user, counted, "", now).Closed? ==>
      GateFor(Sessions.CloseSession(sessions, sales, user, counted, "", now).sessions, user, v, path) == RedirectToOpenSession
  {
    GateRedirectsIff(v, path, false);
  }
}
