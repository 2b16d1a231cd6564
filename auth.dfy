/** The auth service: owner sign-up (a draft workspace and its owner), login by
    email and password, and the current-user lookup. Password hashing, token
    signing and uuid generation are parameters or left to the store's counter. */
module Auth {
  import opened Common
  import opened Seqs
  import opened Store

  /** The claims a signed token carries. */
  datatype Claims = Claims(userId: Id, workspaceId: Id, email: string, role: Role)

  datatype UserView = UserView(id: Id, email: string, role: Role, fullName: Option<string>)
  datatype WorkspaceView = WorkspaceView(id: Id, name: string, status: WorkspaceStatus)

  /** The body of a sign-up or login response, with the token's claims in place of the token. */
  datatype Session = Session(claims: Claims, user: UserView, workspace: WorkspaceView)

  // ---------------------------------------------------------------------
  // registerOwner
  // ---------------------------------------------------------------------

  /** `SELECT id FROM workspace_users WHERE email = $1` found a row, in any workspace. */
  predicate EmailTaken(users: seq<WorkspaceUser>, email: string) {
    exists u :: u in users && u.email == email
  }

  /** The owner's session for a fresh workspace and user. */
  function OwnerSession(w: Workspace, u: WorkspaceUser): Session {
    Session(Claims(u.id, w.id, u.email, Owner), UserView(u.id, u.email, Owner, u.fullName), WorkspaceView(w.id, w.name, Draft))
  }

  /** registerOwner: 400 "Email already registered" for a known email; otherwise a
      draft workspace (timezone "UTC" unless given) and exactly one user in it, its
      owner, holding the password hash `hashed`. */
  method RegisterOwner(db: Db, email: string, hashed: string, fullName: Option<string>, workspaceName: string,
                       address: Option<string>, timezone: Option<string>) returns (r: Result<Session>)
    requires db.Valid()
    modifies db`workspaces, db`users, db`nextId
    ensures db.Valid()
    ensures EmailTaken(old(db.users), email) ==>
      && r == Err(Fail(400, "Email already registered"))
      && db.workspaces == old(db.workspaces) && db.users == old(db.users)
    ensures !EmailTaken(old(db.users), email) ==>
      && |db.workspaces| == |old(db.workspaces)| + 1 && |db.users| == |old(db.users)| + 1
      && var w := db.workspaces[|old(db.workspaces)|];
         var u := db.users[|old(db.users)|];
         && db.workspaces == old(db.workspaces) + [w] && db.users == old(db.users) + [u]
         && w == Workspace(w.id, workspaceName, address, timezone.GetOr("UTC"), None, Draft, false, false)
         && u == WorkspaceUser(u.id, w.id, email, Some(hashed), Owner, fullName, None)
         && (forall x :: x in old(db.workspaces) ==> x.id != w.id)
         && (forall x :: x in old(db.users) ==> x.id != u.id)
         && r == Ok(OwnerSession(w, u))
  {
    if exists u :: u in db.users && u.email == email {
      return Err(Fail(400, "Email already registered"));
    }
    var w := db.InsertWorkspace(Workspace(0, workspaceName, address, timezone.GetOr("UTC"), None, Draft, false, false));
    var u := db.InsertUser(WorkspaceUser(0, w.id, email, Some(hashed), Owner, fullName, None));
    r := Ok(OwnerSession(w, u));
  }

  // ---------------------------------------------------------------------
  // login
  // ---------------------------------------------------------------------

  /** The WHERE clause and the workspace join of login. */
  predicate SignsIn(u: WorkspaceUser, workspaces: seq<Workspace>, email: string) {
    u.email == email && u.passwordHash.Some? && HasWorkspace(workspaces, u.workspaceId)
  }

  function SignsInAs(workspaces: seq<Workspace>, email: string): WorkspaceUser -> bool {
    (u: WorkspaceUser) => SignsIn(u, workspaces, email)
  }

  /** The session login returns for a user row and its workspace. */
  function UserSession(u: WorkspaceUser, w: Workspace): Session {
    Session(Claims(u.id, u.workspaceId, u.email, u.role), UserView(u.id, u.email, u.role, u.fullName),
            WorkspaceView(u.workspaceId, w.name, w.status))
  }

  /** login: the first user with the email and a password whose workspace exists;
      `matches(password, hash)` stands for bcrypt.compare. An unknown email and a
      wrong password fail alike, with 401 "Invalid email or password". */
  function Login(users: seq<WorkspaceUser>, workspaces: seq<Workspace>, email: string, password: string,
                 matches: (string, string) -> bool): (r: Result<Session>)
    ensures r.Err? ==> r.error == Fail(401, "Invalid email or password")
    ensures (forall u :: u in users ==> !SignsIn(u, workspaces, email)) ==> r.Err?
    ensures r.Ok? ==>
      exists u, w :: u in users && SignsIn(u, workspaces, email) && matches(password, u.passwordHash.value)
                  && w in workspaces && w.id == u.workspaceId && r.value == UserSession(u, w)
    ensures var c := FirstMatch(users, SignsInAs(workspaces, email));
      && (r.Ok? <==> c.Some? && matches(password, c.value.passwordHash.value))
      && (r.Ok? ==> r.value == UserSession(c.value, FindWorkspace(workspaces, c.value.workspaceId).value))
  {
    match FirstMatch(users, SignsInAs(workspaces, email))
    case None => Err(Fail(401, "Invalid email or password"))
    case Some(u) =>
      if !matches(password, u.passwordHash.value) then Err(Fail(401, "Invalid email or password"))
      else Ok(UserSession(u, FindWorkspace(workspaces, u.workspaceId).value))
  }

  /** Only the first user row that may sign in is tried: its password alone decides,
      whatever later rows with the same email hold, and a success is that user's
      session in its workspace. */
  lemma LoginTriesFirstCandidate(users: seq<WorkspaceUser>, workspaces: seq<Workspace>, email: string, password: string,
                                 matches: (string, string) -> bool, k: nat)
    requires k < |users| && SignsIn(users[k], workspaces, email)
    requires forall j :: 0 <= j < k ==> !SignsIn(users[j], workspaces, email)
    ensures var r := Login(users, workspaces, email, password, matches);
      && (r.Ok? <==> matches(password, users[k].passwordHash.value))
      && (r.Ok? ==> r.value == UserSession(users[k], FindWorkspace(workspaces, users[k].workspaceId).value))
  {
    FirstMatchAt(users, SignsInAs(workspaces, email), k);
  }

  /** Signing up and then logging in with the same email and the password that
      hashed to the stored hash gives the owner's session back. */
  lemma RegisterThenLogin(users: seq<WorkspaceUser>, workspaces: seq<Workspace>, w: Workspace, u: WorkspaceUser,
                          password: string, matches: (string, string) -> bool)
    requires !EmailTaken(users, u.email)
    requires forall x :: x in workspaces ==> x.id != w.id
    requires u.workspaceId == w.id && u.role == Owner && u.passwordHash.Some? && w.status == Draft
    requires matches(password, u.passwordHash.value)
    ensures Login(users + [u], workspaces + [w], u.email, password, matches) == Ok(OwnerSession(w, u))
  {
    var ws := workspaces + [w];
    assert HasWorkspace(ws, w.id) by { assert w in ws; }
    FirstMatchSnoc(users, u, SignsInAs(ws, u.email));
    assert FirstMatch(users, SignsInAs(ws, u.email)).None? by {
      forall x | x in users ensures !SignsInAs(ws, u.email)(x) { }
    }
    FirstMatchSnoc(workspaces, w, (x: Workspace) => x.id == w.id);
  }

  // ---------------------------------------------------------------------
  // getMe
  // ---------------------------------------------------------------------

  datatype Me = Me(user: UserView, permissions: map<string, bool>, workspace: WorkspaceView)

  predicate IsUserOf(u: WorkspaceUser, workspaces: seq<Workspace>, uid: Id) {
    u.id == uid && HasWorkspace(workspaces, u.workspaceId)
  }

  function IsUserIn(workspaces: seq<Workspace>, uid: Id): WorkspaceUser -> bool {
    (u: WorkspaceUser) => IsUserOf(u, workspaces, uid)
  }

  /** getMe: the user joined with its workspace, 404 "User not found" without one;
      missing permissions read as the empty map. */
  function GetMe(users: seq<WorkspaceUser>, workspaces: seq<Workspace>, uid: Id): (r: Result<Me>)
    ensures r.Err? <==> forall u :: u in users ==> !IsUserOf(u, workspaces, uid)
    ensures r.Err? ==> r.error == Fail(404, "User not found")
    ensures r.Ok? ==>
      exists u :: u in users && IsUserOf(u, workspaces, uid)
               && r.value.user == UserView(u.id, u.email, u.role, u.fullName)
               && r.value.permissions == u.permissions.GetOr(map[])
               && r.value.workspace.id == u.workspaceId
  {
    match FirstMatch(users, IsUserIn(workspaces, uid))
    case None => Err(Fail(404, "User not found"))
    case Some(u) =>
      var w := FindWorkspace(workspaces, u.workspaceId).value;
      Ok(Me(UserView(u.id, u.email, u.role, u.fullName), u.permissions.GetOr(map[]), WorkspaceView(w.id, w.name, w.status)))
  }

  /** A user saved without permissions reads back with none granted. */
  lemma NoPermissionsByDefault(users: seq<WorkspaceUser>, workspaces: seq<Workspace>, uid: Id)
    requires forall u :: u in users ==> u.permissions.None?
    requires GetMe(users, workspaces, uid).Ok?
    ensures GetMe(users, workspaces, uid).value.permissions == map[]
  {
  }
}
