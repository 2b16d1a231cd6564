/** The workspace guard: a request for a workspace passes only for a user of that
    workspace, carrying that user's role there. */
module WorkspaceGuard {
  import opened Common
  import opened Seqs
  import opened Store
  import opened Auth

  /** A workspace id as the request holds it: absent (undefined or null), the
      empty string, or an id. Only the first two are falsy. */
  datatype IdParam = Missing | Blank | Given(id: Id)

  /** `req.params.workspaceId ?? req.body?.workspace_id`: the body is consulted only
      when the route parameter is absent. */
  function Chosen(param: IdParam, body: IdParam): IdParam {
    if param.Missing? then body else param
  }

  predicate MemberRow(u: WorkspaceUser, uid: Id, wid: Id) {
    u.id == uid && u.workspaceId == wid
  }

  function MemberRowOf(uid: Id, wid: Id): WorkspaceUser -> bool {
    (u: WorkspaceUser) => MemberRow(u, uid, wid)
  }

  /** workspaceGuard: the role of the caller in the chosen workspace, 400 "Workspace
      ID required" without an id or a user, 403 "Access denied to this workspace"
      for a non-member. */
  function Guard(param: IdParam, body: IdParam, user: Option<Claims>, users: seq<WorkspaceUser>): (r: Result<Role>)
    ensures (!Chosen(param, body).Given? || user.None?) <==> r == Err(Fail(400, "Workspace ID required"))
    ensures Chosen(param, body).Given? && user.Some? ==>
      var wid := Chosen(param, body).id;
      && (r.Err? <==> forall u :: u in users ==> !MemberRow(u, user.value.userId, wid))
      && (r.Err? ==> r.error == Fail(403, "Access denied to this workspace"))
      && (r.Ok? ==> exists u :: u in users && MemberRow(u, user.value.userId, wid) && u.role == r.value)
  {
    var chosen := Chosen(param, body);
    if !chosen.Given? || user.None? then Err(Fail(400, "Workspace ID required"))
    else
      match FirstMatch(users, MemberRowOf(user.value.userId, chosen.id))
      case None => Err(Fail(403, "Access denied to this workspace"))
      case Some(u) => Ok(u.role)
  }

  /** The id in the route wins over one in the body, even an empty one. */
  lemma RouteIdWins(param: IdParam, body: IdParam, user: Option<Claims>, users: seq<WorkspaceUser>)
    requires !param.Missing?
    ensures Guard(param, body, user, users) == Guard(param, Missing, user, users)
  {
  }

  /** The decision reads only the id from the route and the membership table, never
      the workspace the token was issued for: a caller's token passes for exactly the
      workspaces where a user row has the token's user id. */
  lemma GuardIgnoresTokenWorkspace(wid: Id, c: Claims, users: seq<WorkspaceUser>)
    ensures Guard(Given(wid), Missing, Some(c), users) == Guard(Given(wid), Missing, Some(c.(workspaceId := wid)), users)
  {
  }
}
