/** Login, refresh, logout and the admin handlers over the users table and the session store,
    one request at a time. */
module AuthSystem {
  import opened Entities
  import opened SessionStore
  import opened SessionProtocol
  import opened Middleware
  import opened Text
  import opened Uuid

  const BOOTSTRAP_EMAIL := "admin@localhost.com"

  datatype Config = Config(refreshTTL: int, accessTTL: int)

  datatype Sys = Sys(proto: State, users: map<string, User>)

  datatype Outcome =
    | Done
    | Issued(token: Token)
    | BadRequest
    | Unauthenticated
    | Denied
    | NotFound
    | Conflict
    | Unavailable
    | Failed

  /** `path` is the user id as it stands in the request path; `lag` is how long after the
      client's clock reading Redis runs the login's transaction. */
  datatype Request =
    | Bootstrap(id: string, password: string)
    | Login(email: string, password: string, sid: string, digest: string, jti: string, lag: nat)
    | Refresh(digest: string, nextDigest: string, nextJTI: string)
    | Logout(digest: string)
    | CreateUser(token: Token, id: string, email: string, remark: string, password: string, role: Role, active: Option<bool>)
    | UpdateUser(token: Token, path: string, newEmail: Option<string>, newRemark: Option<string>, newPassword: Option<string>, newRole: Option<Role>)
    | DeleteUser(token: Token, path: string)
    | SetActive(token: Token, path: string, newActive: Option<bool>)
    | Kick(token: Token, path: string)

  // ---------------------------------------------------------------- the users table

  /** Rows are found by UUID value, however the request spells it. */
  function FindUser(users: map<string, User>, id: string): Option<User> {
    if NormalUuid(id) in users then Some(users[NormalUuid(id)]) else None
  }

  /** The unique constraint, for a row with id `id`. */
  predicate EmailTaken(users: map<string, User>, id: string, email: string) {
    exists other :: other in users && other != id && users[other].email == email
  }

  ghost function FindByEmail(users: map<string, User>, email: string): (r: Option<User>)
    ensures r.Some? ==> r.value.email == email && r.value in users.Values
    ensures r.None? ==> forall id :: id in users ==> users[id].email != email
  {
    if exists id :: id in users && users[id].email == email then
      var id :| id in users && users[id].email == email;
      Some(users[id])
    else None
  }

  // ---------------------------------------------------------------- the store, one call at a time

  /** A Create call from start to finish: clock reading, `lag` milliseconds, transaction. */
  function DoCreate(s: State, sid: string, session: AuthSession, digest: string, ttl: int, lag: nat): (State, bool) {
    var s1 := BeginCreate(s, 0, sid, session, digest, ttl);
    if ValidCreate(sid, session, digest, ttl) then (CommitCreate(Apply(s1, Tick(lag)), 0), true) else (s1, false)
  }

  /** A Rotate call from start to finish: the session id it returns, if it succeeds. */
  function DoRotate(s: State, digest: string, nextDigest: string, nextJTI: string): (r: (State, Option<string>))
    requires s.procs == map[]
  {
    var s1 := LookupRotate(s, 0, digest, nextDigest, nextJTI);
    if 0 !in s1.procs then (s1, None)
    else
      var s2 := LoadRotate(s1, 0);
      if 0 !in s2.procs then (s2, None)
      else (CommitRotate(s2, 0), if CommitWins(s2, 0) then Some(s2.procs[0].sid) else None)
  }

  // ---------------------------------------------------------------- handlers

  /** The dates in a token are whole seconds: the last one that the lifetime reaches. */
  function Expiry(cfg: Config, now: int): (t: int)
    ensures t % 1000 == 0 && t <= now + cfg.accessTTL < t + 1000
  {
    (now + cfg.accessTTL) / 1000 * 1000
  }

  ghost function HandleBootstrap(sys: Sys, id: string, password: string): (Sys, Outcome) {
    var found := FindByEmail(sys.users, BOOTSTRAP_EMAIL);
    var row := if found.Some? then found.value.(password := password, remark := "admin", role := Admin, active := true)
               else User(id, BOOTSTRAP_EMAIL, "admin", password, true, Admin);
    (Sys(WipeUser(sys.proto, row.id), sys.users[row.id := row]), Done)
  }

  ghost function HandleLogin(cfg: Config, sys: Sys, email: string, password: string, sid: string, digest: string, jti: string,
                             lag: nat): (Sys, Outcome)
  {
    var e := NormalizeEmail(email);
    if e == "" || password == "" || |password| > 1024 then (sys, Unauthenticated)
    else
      var found := FindByEmail(sys.users, e);
      if found.None? || !found.value.active || found.value.password != password then (sys, Unauthenticated)
      else
        var out := DoCreate(sys.proto, sid, NewAuthSession(found.value, jti), digest, cfg.refreshTTL, lag);
        (sys.(proto := out.0),
         if out.1 then Issued(Token(found.value.id, sid, jti, Expiry(cfg, out.0.now))) else Unavailable)
  }

  function HandleRefresh(cfg: Config, sys: Sys, digest: string, nextDigest: string, nextJTI: string): (Sys, Outcome)
    requires sys.proto.procs == map[]
  {
    var out := DoRotate(sys.proto, digest, nextDigest, nextJTI);
    if out.1.None? || out.1.value !in out.0.store.sessions then (sys.(proto := out.0), Unauthenticated)
    else
      var session := out.0.store.sessions[out.1.value].value.session;
      if !session.active || !session.role.Valid() then (sys.(proto := DeleteSession(out.0, out.1.value)), Unauthenticated)
      else (sys.(proto := out.0), Issued(Token(session.userID, out.1.value, nextJTI, Expiry(cfg, sys.proto.now))))
  }

  function HandleLogout(sys: Sys, digest: string): (Sys, Outcome) {
    if digest != "" && digest in sys.proto.store.refresh
    then (sys.(proto := DeleteSession(sys.proto, sys.proto.store.refresh[digest].value)), Done)
    else (sys, Done)
  }

  function HandleCreate(sys: Sys, id: string, email: string, remark: string, password: string, role: Role, active: Option<bool>): (Sys, Outcome) {
    var e, r := NormalizeEmail(email), TrimSpace(remark);
    if !role.Valid() || e == "" || r == "" || |password| < 8 || |password| > 72 then (sys, BadRequest)
    else if EmailTaken(sys.users, id, e) then (sys, Conflict)
    else (sys.(users := sys.users[id := User(id, e, r, password, if active.Some? then active.value else true, role)]), Done)
  }

  function HandleUpdate(sys: Sys, who: Principal, path: string, email: Option<string>, remark: Option<string>,
                        password: Option<string>, role: Option<Role>): (Sys, Outcome)
  {
    var id := TrimSpace(path);
    if id == "" || (email.None? && remark.None? && password.None? && role.None?) || (role.Some? && !role.value.Valid()) then (sys, BadRequest)
    else if !IsUuid(id) then (sys, Failed)
    else
      var found := FindUser(sys.users, id);
      if found.None? then (sys, NotFound)
      else
        var row := found.value;
        if email.Some? && NormalizeEmail(email.value) == "" then (sys, BadRequest)
        else if remark.Some? && TrimSpace(remark.value) == "" then (sys, BadRequest)
        else if password.Some? && (|password.value| < 8 || |password.value| > 72) then (sys, BadRequest)
        else if role.Some? && role.value != row.role && who.id == id then (sys, BadRequest)
        else
          var next := row.(email := if email.Some? then NormalizeEmail(email.value) else row.email,
                           remark := if remark.Some? then TrimSpace(remark.value) else row.remark,
                           password := if password.Some? then password.value else row.password,
                           role := if role.Some? then role.value else row.role);
          var wiped := sys.(proto := WipeUser(sys.proto, id));
          if EmailTaken(sys.users, row.id, next.email) then (wiped, Conflict)
          else (wiped.(users := sys.users[row.id := next]), Done)
  }

  function HandleDelete(sys: Sys, who: Principal, path: string): (Sys, Outcome) {
    var id := TrimSpace(path);
    if id == "" then (sys, BadRequest)
    else if !IsUuid(id) then (sys, Failed)
    else
      var found := FindUser(sys.users, id);
      if found.None? then (sys, NotFound)
      else if who.id == id then (sys, BadRequest)
      else (Sys(WipeUser(sys.proto, id), sys.users - {found.value.id}), Done)
  }

  function HandleSetActive(sys: Sys, who: Principal, path: string, active: Option<bool>): (Sys, Outcome) {
    var id := TrimSpace(path);
    if id == "" || active.None? then (sys, BadRequest)
    else if !IsUuid(id) then (sys, Failed)
    else
      var found := FindUser(sys.users, id);
      if found.None? then (sys, NotFound)
      else if who.id == id then (sys, BadRequest)
      else (Sys(WipeUser(sys.proto, id), sys.users[found.value.id := found.value.(active := active.value)]), Done)
  }

  function HandleKick(sys: Sys, path: string): (Sys, Outcome) {
    var id := TrimSpace(path);
    if id == "" then (sys, BadRequest)
    else if !IsUuid(id) then (sys, Failed)
    else if FindUser(sys.users, id).None? then (sys, NotFound)
    else (sys.(proto := WipeUser(sys.proto, id)), Done)
  }

  predicate NeedsAdmin(r: Request) {
    r.CreateUser? || r.UpdateUser? || r.DeleteUser? || r.SetActive? || r.Kick?
  }

  function HandleAdmin(sys: Sys, who: Principal, r: Request): (Sys, Outcome)
    requires NeedsAdmin(r)
  {
    match r
    case CreateUser(_, id, email, remark, password, role, active) => HandleCreate(sys, id, email, remark, password, role, active)
    case UpdateUser(_, path, email, remark, password, role) => HandleUpdate(sys, who, path, email, remark, password, role)
    case DeleteUser(_, path) => HandleDelete(sys, who, path)
    case SetActive(_, path, active) => HandleSetActive(sys, who, path, active)
    case Kick(_, path) => HandleKick(sys, path)
  }

  /** One request; the user routes run behind the middleware with the admin role. */
  ghost function Handle(cfg: Config, sys: Sys, r: Request): (Sys, Outcome)
    requires sys.proto.procs == map[]
  {
    match r
    case Bootstrap(id, password) => HandleBootstrap(sys, id, password)
    case Login(email, password, sid, digest, jti, lag) => HandleLogin(cfg, sys, email, password, sid, digest, jti, lag)
    case Refresh(digest, nextDigest, nextJTI) => HandleRefresh(cfg, sys, digest, nextDigest, nextJTI)
    case Logout(digest) => HandleLogout(sys, digest)
    case _ =>
      match Required(sys.proto.store, sys.proto.now, r.token, {Admin})
      case Unauthorized => (sys, Unauthenticated)
      case Forbidden => (sys, Denied)
      case Allow(who) => HandleAdmin(sys, who, r)
  }

  // ---------------------------------------------------------------- runs

  /** Random values are new; so are generated user ids, which are printed UUIDs. */
  predicate Admissible(sys: Sys, r: Request) {
    match r
    case Bootstrap(id, _) => id !in sys.users && CanonicalUuid(id)
    case Login(_, _, sid, digest, jti, _) => sid !in sys.proto.drawnSids && digest !in sys.proto.drawnDigests && jti !in sys.proto.drawnJTIs
    case Refresh(_, nextDigest, nextJTI) => nextDigest !in sys.proto.drawnDigests && nextJTI !in sys.proto.drawnJTIs
    case CreateUser(_, id, _, _, _, _, _) => id !in sys.users && CanonicalUuid(id)
    case _ => true
  }

  /** Time passes, then a request is handled. */
  datatype Step = Step(dt: int, request: Request)

  function Wait(sys: Sys, dt: int): Sys
    requires 0 <= dt
  {
    sys.(proto := Apply(sys.proto, Tick(dt)))
  }

  ghost function Next(cfg: Config, sys: Sys, st: Step): Sys
    requires 0 <= st.dt && sys.proto.procs == map[]
  {
    Handle(cfg, Wait(sys, st.dt), st.request).0
  }

  /** A fresh installation is bootstrapped and then serves requests; a later Bootstrap is a restart. */
  ghost predicate IsRun(cfg: Config, ss: seq<Sys>, steps: seq<Step>) {
    && |ss| == |steps| + 1
    && ss[0] == Sys(Initial(ss[0].proto.now), map[])
    && (steps != [] ==> steps[0].request.Bootstrap?)
    && forall i :: 0 <= i < |steps| ==>
         && 0 <= steps[i].dt && ss[i].proto.procs == map[] && Admissible(ss[i], steps[i].request)
         && ss[i + 1] == Next(cfg, ss[i], steps[i])
  }
}
