/** Whole-run guarantees of the authentication system, for runs whose logins lag by at most
    `lag` and whose requests come at least `gap` after the one before. */
module AuthTheorems {
  import opened Entities
  import opened Numbers
  import opened SessionStore
  import opened SessionProtocol
  import opened Middleware
  import opened Text
  import opened Uuid
  import opened AuthSystem

  // ---------------------------------------------------------------- the store between requests

  /** No call is in flight. */
  ghost predicate Quiet(s: State) {
    Inv(s) && s.procs == map[]
  }

  ghost predicate AllListed(s: State) {
    forall sid :: sid in s.store.sessions ==> Listed(s.store, s.store.sessions[sid].value.session.userID, sid)
  }

  /** The same user snapshot; only the access jti may differ. */
  predicate SameUser(a: AuthSession, b: AuthSession) { a == b.(accessJTI := a.accessJTI) }

  ghost predicate SubSessions(s: State, s': State) {
    forall sid :: sid in s'.store.sessions ==>
      && sid in s.store.sessions && s'.store.sessions[sid].expireAt == s.store.sessions[sid].expireAt
      && SameUser(s'.store.sessions[sid].value.session, s.store.sessions[sid].value.session)
  }

  /** The same logins have happened. */
  ghost predicate SameBirths(s: State, s': State) {
    s'.born == s.born && s'.slack == s.slack && s.now <= s'.now
  }

  lemma TickQuiet(s: State, dt: nat)
    requires Quiet(s)
    ensures var s' := Apply(s, Tick(dt)); Quiet(s') && SubSessions(s, s') && SameBirths(s, s') && s'.now == s.now + dt
  {
    hide Inv;
    StepInv(s, Tick(dt));
  }

  lemma WipeQuiet(s: State, user: string)
    requires Quiet(s)
    ensures var s' := WipeUser(s, user); Quiet(s') && SubSessions(s, s') && SameBirths(s, s') && s'.now == s.now
  {
    hide Inv;
    StepInv(s, Wipe(user));
  }

  /** A wipe leaves of the user's sessions those that the index does not list. */
  lemma WipeLeaves(s: State, user: string, sid: string)
    requires user != "" && sid in WipeUser(s, user).store.sessions
    ensures !Listed(s.store, user, sid)
  {
  }

  lemma DeleteQuiet(s: State, sid: string)
    requires Quiet(s)
    ensures var s' := DeleteSession(s, sid); Quiet(s') && SubSessions(s, s') && SameBirths(s, s') && s'.now == s.now
  {
    hide Inv;
    StepInv(s, Delete(sid));
  }

  lemma CreateQuiet(s: State, sid: string, session: AuthSession, digest: string, ttl: int, lag: nat)
    requires Quiet(s) && Enabled(s, CreateBegin(0, sid, session, digest, ttl))
    ensures var out := DoCreate(s, sid, session, digest, ttl, lag); Quiet(out.0) && (out.1 ==> sid !in s.born)
  {
    hide Inv, Advance, CreateTx;
    var e := CreateBegin(0, sid, session, digest, ttl);
    StepInv(s, e);
    var s1 := Apply(s, e);
    if ValidCreate(sid, session, digest, ttl) {
      var s2 := Apply(s1, Tick(lag));
      StepInv(s1, Tick(lag));
      NotYetBorn(s2, 0);
      StepInv(s2, CreateCommit(0));
      assert s2.procs - {0} == map[];
    }
  }

  lemma CreateWrites(s: State, sid: string, session: AuthSession, digest: string, ttl: int, lag: nat)
    ensures var out := DoCreate(s, sid, session, digest, ttl, lag);
      && out.1 == ValidCreate(sid, session, digest, ttl) && out.0.now == s.now + (if out.1 then lag else 0)
      && out.0.born == (if out.1 then s.born[sid := Birth(session.userID, s.now, s.now + lag, ttl)] else s.born)
      && out.0.slack == (if out.1 then Max(s.slack, ttl - ExpireMillis(ttl)) else s.slack)
      && out.0.store.sessions == if out.1
           then Unexpired(s.store.sessions, s.now + lag)[sid := Timed(Record(session, digest), s.now + lag + ttl)] else s.store.sessions
  {
    hide CommitCreate, Unexpired, ExpireMillis, ValidCreate;
    var s1 := BeginCreate(s, 0, sid, session, digest, ttl);
    if ValidCreate(sid, session, digest, ttl) { CommitWrites(Apply(s1, Tick(lag)), 0); }
  }

  lemma CommitWrites(s: State, p: nat)
    requires p in s.procs && s.procs[p].Creating?
    ensures var c, s' := s.procs[p], CommitCreate(s, p);
      && s'.now == s.now && s'.born == s.born[c.sid := Birth(c.session.userID, c.clock, s.now, c.ttl)]
      && s'.slack == Max(s.slack, c.ttl - ExpireMillis(c.ttl))
      && s'.store.sessions == s.store.sessions[c.sid := Timed(Record(c.session, c.digest), s.now + c.ttl)]
  {
    hide IndexAfterCreate, ExpireMillis;
  }

  lemma NotYetBorn(s: State, p: nat)
    requires Inv(s) && p in s.procs && s.procs[p].Creating?
    ensures s.procs[p].sid !in s.born
  {
    assert ProcOk(s, s.procs[p]) && s.procs[p].sid in NewSid(s.procs[p]);
  }

  lemma RotateQuiet(s: State, digest: string, nextDigest: string, nextJTI: string)
    requires Quiet(s) && Enabled(s, RotateLookup(0, digest, nextDigest, nextJTI))
    ensures var s' := DoRotate(s, digest, nextDigest, nextJTI).0; Quiet(s') && SubSessions(s, s') && SameBirths(s, s') && s'.now == s.now
  {
    hide Inv;
    var s1 := LookupRotate(s, 0, digest, nextDigest, nextJTI);
    StepInv(s, RotateLookup(0, digest, nextDigest, nextJTI));
    if 0 in s1.procs {
      StepInv(s1, RotateLoad(0));
      var s2 := LoadRotate(s1, 0);
      if 0 in s2.procs {
        StepInv(s2, RotateCommit(0));
        assert s2.procs - {0} == map[];
      } else {
        assert s1.procs - {0} == map[];
      }
    }
  }

  // ---------------------------------------------------------------- the pace of the logins

  /** What EXPIRE cuts off a lifetime. */
  function Cut(ttl: int): (k: int)
    ensures k == 0 <==> WholeTtl(ttl)
    ensures 0 <= k < 1000 && (0 < k ==> k == ttl - ExpireMillis(ttl))
  {
    Max(0, ttl - ExpireMillis(ttl))
  }

  ghost predicate After(born: map<string, Birth>, x: string, y: string, gap: nat)
    requires x in born && y in born
  {
    born[x].at + gap <= born[y].clock
  }

  /** Every login asked for `ttl`, lagged by at most `lag`, and read its clock at least `gap`
      after the login before it had committed. */
  ghost predicate Pace(s: State, ttl: int, lag: nat, gap: nat) {
    && (forall x :: x in s.born ==> 0 < s.born[x].ttl == ttl && s.born[x].at <= s.born[x].clock + lag)
    && (forall x, y :: x in s.born && y in s.born && x != y ==> After(s.born, x, y, gap) || After(s.born, y, x, gap))
    && s.slack <= Cut(ttl)
  }

  /** No login committed less than `gap` ago. */
  ghost predicate Rested(s: State, gap: nat) {
    forall x :: x in s.born ==> s.born[x].at + gap <= s.now
  }

  lemma BirthsPaced(s: State, s': State, ttl: int, lag: nat, gap: nat)
    requires Pace(s, ttl, lag, gap) && SameBirths(s, s')
    ensures Pace(s', ttl, lag, gap) && (Rested(s, gap) ==> Rested(s', gap))
  {
    assert forall x, y :: x in s'.born && y in s'.born && x != y ==> After(s.born, x, y, gap) || After(s.born, y, x, gap);
  }

  lemma CreatePaced(s: State, s': State, sid: string, user: string, ttl: int, lag: nat, late: nat, gap: nat)
    requires Pace(s, ttl, lag, gap) && Rested(s, gap) && late <= lag && 0 < ttl && sid !in s.born
    requires s'.born == s.born[sid := Birth(user, s.now, s.now + late, ttl)] && s'.slack == Max(s.slack, ttl - ExpireMillis(ttl))
    ensures Pace(s', ttl, lag, gap)
  {
    forall x, y | x in s'.born && y in s'.born && x != y ensures After(s'.born, x, y, gap) || After(s'.born, y, x, gap) {
      if x != sid && y != sid { assert After(s.born, x, y, gap) || After(s.born, y, x, gap); }
    }
  }

  /** A readable session and its birth. */
  lemma ReadableBirth(s: State, sid: string)
    requires Inv(s) && sid in s.store.sessions
    ensures sid in s.born && s.born[sid].user == s.store.sessions[sid].value.session.userID
    ensures s.now <= s.store.sessions[sid].expireAt == s.born[sid].End() && s.born[sid].clock <= s.born[sid].at
  {
    assert SessionOk(s, sid) && BirthOk(s, sid);
  }

  /** A later login of the same user found the session due. */
  ghost predicate Follows(s: State, sid: string, y: string, gap: nat)
    requires sid in s.born
  {
    && y in s.born && y != sid && s.born[y].user == s.born[sid].user && s.born[y].at + gap <= s.now
    && s.born[sid].Due() <= s.born[y].clock <= s.born[y].at && s.born[sid].at + gap <= s.born[y].clock
  }

  /** Why a readable session is not in its user's index when a request comes: EXPIRE has cut
      the index short, or a later login has pruned the session. */
  lemma WhyUnlisted(s: State, ttl: int, lag: nat, gap: nat, sid: string) returns (y: string)
    requires Quiet(s) && Pace(s, ttl, lag, gap) && Rested(s, gap)
    requires sid in s.store.sessions && !Listed(s.store, s.store.sessions[sid].value.session.userID, sid)
    ensures sid in s.born && (s.born[sid].End() < s.now + Cut(ttl) || Follows(s, sid, y, gap))
  {
    y := sid;
    assert SessionOk(s, sid);
    if Overtaken(s.born, sid) {
      y :| y in s.born && y != sid && s.born[y].user == s.born[sid].user && s.born[sid].Due() <= s.born[y].clock;
      assert BirthOk(s, y) && BirthOk(s, sid);
      assert After(s.born, sid, y, gap) || After(s.born, y, sid, gap);
    }
  }

  /** The pace at which no readable session is ever out of its user's index when a request comes. */
  predicate Safe(ttl: int, lag: nat, gap: nat) {
    ttl < gap || (WholeTtl(ttl) && (lag < gap || ttl < 2 * gap))
  }

  lemma SafeListed(s: State, ttl: int, lag: nat, gap: nat)
    requires Quiet(s) && Pace(s, ttl, lag, gap) && Rested(s, gap) && Safe(ttl, lag, gap)
    ensures AllListed(s)
  {
    hide Inv;
    forall sid | sid in s.store.sessions ensures Listed(s.store, s.store.sessions[sid].value.session.userID, sid) {
      ReadableBirth(s, sid);
      if !Listed(s.store, s.store.sessions[sid].value.session.userID, sid) {
        var y := WhyUnlisted(s, ttl, lag, gap, sid);
      }
    }
  }

  // ---------------------------------------------------------------- the system between requests

  /** What the table's constraints and the id generator keep: keys, unique e-mails, known roles. */
  ghost predicate RowsOk(users: map<string, User>) {
    && (forall id :: id in users ==> users[id].id == id && CanonicalUuid(id) && users[id].role.Valid())
    && (forall a, b :: a in users && b in users && a != b ==> users[a].email != users[b].email)
  }

  /** The snapshot is the user's row, and that row exists. */
  ghost predicate Agrees(users: map<string, User>, session: AuthSession) {
    session.userID in users && session == NewAuthSession(users[session.userID], session.accessJTI)
  }

  ghost predicate Agreement(sys: Sys) {
    forall sid :: sid in sys.proto.store.sessions ==> Agrees(sys.users, sys.proto.store.sessions[sid].value.session)
  }

  predicate IsAdmin(users: map<string, User>, id: string) {
    id in users && users[id].active && users[id].role == Admin
  }

  ghost predicate HasAdmin(users: map<string, User>) {
    exists id :: IsAdmin(users, id)
  }

  /** What holds between requests at any pace. */
  ghost predicate Base(cfg: Config, sys: Sys, lag: nat, gap: nat) {
    Quiet(sys.proto) && Pace(sys.proto, cfg.refreshTTL, lag, gap) && RowsOk(sys.users)
  }

  ghost predicate Ready(sys: Sys) {
    Quiet(sys.proto) && RowsOk(sys.users) && Agreement(sys) && AllListed(sys.proto)
  }

  /** The user id of a request path, if it is one, is spelled the way the table prints ids. */
  predicate Canonical(path: string) { NormalUuid(TrimSpace(path)) == TrimSpace(path) }

  predicate OnUser(r: Request) { r.UpdateUser? || r.DeleteUser? || r.SetActive? || r.Kick? }

  predicate CanonicalPath(r: Request) { OnUser(r) ==> Canonical(r.path) }

  predicate InTime(r: Request, lag: nat) { r.Login? ==> r.lag <= lag }

  // ---------------------------------------------------------------- what each request does to the store

  /** Sessions at most go, and no login has happened. */
  ghost predicate Still(s: State, s': State) {
    Quiet(s') && SubSessions(s, s') && SameBirths(s, s') && s'.now == s.now
  }

  lemma StillBase(cfg: Config, sys: Sys, sys': Sys, lag: nat, gap: nat)
    requires Base(cfg, sys, lag, gap) && Still(sys.proto, sys'.proto) && RowsOk(sys'.users)
    ensures Base(cfg, sys', lag, gap)
  {
    hide Inv;
    BirthsPaced(sys.proto, sys'.proto, cfg.refreshTTL, lag, gap);
  }

  lemma StillSame(s: State)
    requires Quiet(s)
    ensures Still(s, s)
  {
  }

  /** A login leaves the table, adds at most one session, and that one is a copy of its row. */
  lemma LoginEffect(cfg: Config, sys: Sys, r: Request, lag: nat, gap: nat)
    requires Base(cfg, sys, lag, gap) && Rested(sys.proto, gap) && r.Login? && Admissible(sys, r) && r.lag <= lag
    ensures var out := HandleLogin(cfg, sys, r.email, r.password, r.sid, r.digest, r.jti, r.lag).0;
      && Base(cfg, out, lag, gap) && out.users == sys.users && sys.proto.now <= out.proto.now
      && (forall x :: x in out.proto.store.sessions ==>
            if x == r.sid && out.proto.born != sys.proto.born then Agrees(sys.users, out.proto.store.sessions[x].value.session)
            else x in sys.proto.store.sessions && out.proto.store.sessions[x] == sys.proto.store.sessions[x])
  {
    hide Inv, Pace, DoCreate;
    var found := FindByEmail(sys.users, NormalizeEmail(r.email));
    if found.Some? {
      var session := NewAuthSession(found.value, r.jti);
      CreateQuiet(sys.proto, r.sid, session, r.digest, cfg.refreshTTL, r.lag);
      CreateWrites(sys.proto, r.sid, session, r.digest, cfg.refreshTTL, r.lag);
      var out := DoCreate(sys.proto, r.sid, session, r.digest, cfg.refreshTTL, r.lag);
      assert Agrees(sys.users, session);
      if out.1 {
        CreatePaced(sys.proto, out.0, r.sid, session.userID, cfg.refreshTTL, lag, r.lag, gap);
      } else {
        BirthsPaced(sys.proto, out.0, cfg.refreshTTL, lag, gap);
      }
    }
  }

  lemma RefreshStill(cfg: Config, sys: Sys, r: Request)
    requires Quiet(sys.proto) && r.Refresh? && Admissible(sys, r)
    ensures var out := HandleRefresh(cfg, sys, r.digest, r.nextDigest, r.nextJTI).0;
      Still(sys.proto, out.proto) && out.users == sys.users
  {
    hide Inv, DoRotate, DeleteSession;
    RotateQuiet(sys.proto, r.digest, r.nextDigest, r.nextJTI);
    var out := DoRotate(sys.proto, r.digest, r.nextDigest, r.nextJTI);
    if out.1.Some? { DeleteQuiet(out.0, out.1.value); }
  }

  lemma LogoutStill(sys: Sys, digest: string)
    requires Quiet(sys.proto)
    ensures Still(sys.proto, HandleLogout(sys, digest).0.proto) && HandleLogout(sys, digest).0.users == sys.users
  {
    hide Inv;
    if digest in sys.proto.store.refresh { DeleteQuiet(sys.proto, sys.proto.store.refresh[digest].value); }
  }

  /** An admin request on a user touches that user's sessions and row only. */
  lemma AdminEffect(sys: Sys, who: Principal, r: Request)
    requires NeedsAdmin(r) && Admissible(sys, r) && CanonicalPath(r) && RowsOk(sys.users)
    ensures var out := HandleAdmin(sys, who, r).0;
      || out == sys
      || (r.CreateUser? && out.proto == sys.proto && out.users == sys.users[r.id := out.users[r.id]] && r.id !in sys.users)
      || (OnUser(r) && TrimSpace(r.path) != "" && out.proto == WipeUser(sys.proto, TrimSpace(r.path))
          && out.users - {TrimSpace(r.path)} == sys.users - {TrimSpace(r.path)})
  {
    hide TrimSpace, NormalizeEmail, WipeUser, EmailTaken, NormalUuid, IsUuid, CanonicalUuid;
    match r {
      case CreateUser(_, _, _, _, _, _, _) =>
      case UpdateUser(_, _, _, _, _, _) =>
      case DeleteUser(_, _) =>
      case SetActive(_, _, _) =>
      case Kick(_, _) =>
    }
  }

  lemma AdminStill(sys: Sys, who: Principal, r: Request)
    requires Quiet(sys.proto) && NeedsAdmin(r)
    ensures Still(sys.proto, HandleAdmin(sys, who, r).0.proto)
  {
    hide Quiet, SubSessions, WipeUser, TrimSpace, NormalizeEmail, EmailTaken, FindUser, IsUuid;
    StillSame(sys.proto);
    if !r.CreateUser? { WipeQuiet(sys.proto, TrimSpace(r.path)); }
  }

  lemma FoundRow(users: map<string, User>, id: string)
    requires RowsOk(users) && FindUser(users, id).Some?
    ensures var row := FindUser(users, id).value;
      row.id in users && users[row.id] == row && row.role.Valid() && !EmailTaken(users, row.id, row.email)
  {
  }

  lemma RowPut(users: map<string, User>, row: User)
    requires RowsOk(users) && row.id in users && row.role.Valid() && !EmailTaken(users, row.id, row.email)
    ensures RowsOk(users[row.id := row])
  {
  }

  lemma RowAdd(users: map<string, User>, row: User)
    requires RowsOk(users) && CanonicalUuid(row.id) && row.role.Valid() && !EmailTaken(users, row.id, row.email)
    ensures RowsOk(users[row.id := row])
  {
    hide CanonicalUuid;
  }

  lemma RowDrop(users: map<string, User>, id: string)
    requires RowsOk(users)
    ensures RowsOk(users - {id})
  {
    hide CanonicalUuid;
  }

  lemma UpdateRows(sys: Sys, who: Principal, r: Request)
    requires RowsOk(sys.users) && r.UpdateUser?
    ensures RowsOk(HandleAdmin(sys, who, r).0.users)
  {
    hide WipeUser, RowsOk, EmailTaken, FindUser, TrimSpace, NormalizeEmail, IsUuid;
    var out := HandleAdmin(sys, who, r).0;
    if out.users != sys.users {
      var row := FindUser(sys.users, TrimSpace(r.path)).value;
      FoundRow(sys.users, TrimSpace(r.path));
      RowPut(sys.users, out.users[row.id]);
    }
  }

  lemma AdminRowsInv(sys: Sys, who: Principal, r: Request)
    requires RowsOk(sys.users) && NeedsAdmin(r) && Admissible(sys, r)
    ensures RowsOk(HandleAdmin(sys, who, r).0.users)
  {
    hide WipeUser, TrimSpace, NormalizeEmail, NormalUuid, IsUuid, CanonicalUuid;
    if r.UpdateUser? {
      UpdateRows(sys, who, r);
    } else if r.SetActive? && FindUser(sys.users, TrimSpace(r.path)).Some? {
      FoundRow(sys.users, TrimSpace(r.path));
    }
  }

  lemma BootstrapRows(sys: Sys, id: string, password: string) returns (rid: string)
    requires RowsOk(sys.users) && Admissible(sys, Bootstrap(id, password))
    ensures var out := HandleBootstrap(sys, id, password).0;
      && RowsOk(out.users) && IsAdmin(out.users, rid) && rid != ""
      && out.proto == WipeUser(sys.proto, rid) && out.users - {rid} == sys.users - {rid}
  {
    hide WipeUser;
    var found := FindByEmail(sys.users, BOOTSTRAP_EMAIL);
    rid := if found.Some? then found.value.id else id;
  }

  /** A restart makes the bootstrap user an active admin and wipes it; nobody else is touched. */
  lemma BootstrapEffect(sys: Sys, id: string, password: string) returns (rid: string)
    requires Quiet(sys.proto) && RowsOk(sys.users) && Admissible(sys, Bootstrap(id, password))
    ensures var out := HandleBootstrap(sys, id, password).0;
      && Still(sys.proto, out.proto) && RowsOk(out.users) && IsAdmin(out.users, rid)
      && rid != "" && out.proto == WipeUser(sys.proto, rid) && out.users - {rid} == sys.users - {rid}
  {
    hide Inv, RowsOk, HandleBootstrap, WipeUser, IsAdmin;
    rid := BootstrapRows(sys, id, password);
    WipeQuiet(sys.proto, rid);
  }

  /** Every request keeps what holds at any pace. */
  lemma HandleBase(cfg: Config, sys: Sys, r: Request, lag: nat, gap: nat)
    requires Base(cfg, sys, lag, gap) && Rested(sys.proto, gap) && Admissible(sys, r) && InTime(r, lag)
    ensures Base(cfg, Handle(cfg, sys, r).0, lag, gap)
  {
    hide Inv, Pace, HandleLogin, HandleBootstrap, HandleRefresh, HandleLogout, HandleAdmin, RowsOk;
    var out := Handle(cfg, sys, r).0;
    match r {
      case Bootstrap(id, password) =>
        var _ := BootstrapEffect(sys, id, password);
        StillBase(cfg, sys, out, lag, gap);
      case Login(_, _, _, _, _, _) => LoginEffect(cfg, sys, r, lag, gap);
      case Refresh(_, _, _) => RefreshStill(cfg, sys, r); StillBase(cfg, sys, out, lag, gap);
      case Logout(digest) => LogoutStill(sys, digest); StillBase(cfg, sys, out, lag, gap);
      case _ =>
        var d := Required(sys.proto.store, sys.proto.now, r.token, {Admin});
        if d.Allow? {
          AdminStill(sys, d.principal, r);
          AdminRowsInv(sys, d.principal, r);
          StillBase(cfg, sys, out, lag, gap);
        }
    }
  }

  lemma WaitBase(cfg: Config, sys: Sys, dt: nat, r: Request, lag: nat, gap: nat)
    requires Base(cfg, sys, lag, gap) && gap <= dt && Admissible(sys, r)
    ensures var w := Wait(sys, dt);
      Base(cfg, w, lag, gap) && Rested(w.proto, gap) && Admissible(w, r) && SubSessions(sys.proto, w.proto) && w.proto.now == sys.proto.now + dt
  {
    hide Inv;
    TickQuiet(sys.proto, dt);
    BirthsPaced(sys.proto, Wait(sys, dt).proto, cfg.refreshTTL, lag, gap);
    CommittedByNow(sys.proto);
  }

  lemma CommittedByNow(s: State)
    requires Inv(s)
    ensures forall x :: x in s.born ==> s.born[x].at <= s.now
  {
    assert forall x :: x in s.born ==> BirthOk(s, x);
  }

  // ---------------------------------------------------------------- sessions mirror rows

  /** Keeping the rows and at most dropping sessions keeps the agreement. */
  lemma SubAgreement(sys: Sys, s': State)
    requires Agreement(sys) && SubSessions(sys.proto, s')
    ensures Agreement(sys.(proto := s'))
  {
  }

  /** Changing the row of a user whose sessions are all listed, and wiping it, keeps the agreement. */
  lemma RowChange(sys: Sys, id: string, users': map<string, User>)
    requires Quiet(sys.proto) && AllListed(sys.proto) && Agreement(sys) && id != ""
    requires users' - {id} == sys.users - {id}
    ensures Agreement(Sys(WipeUser(sys.proto, id), users'))
  {
    hide Inv, WipeUser;
    WipeQuiet(sys.proto, id);
    var s' := WipeUser(sys.proto, id);
    forall sid | sid in s'.store.sessions ensures Agrees(users', s'.store.sessions[sid].value.session) {
      var user := s'.store.sessions[sid].value.session.userID;
      if user == id { WipeLeaves(sys.proto, id, sid); }
      assert Agrees(sys.users, sys.proto.store.sessions[sid].value.session);
      assert user in users' - {id} && (users' - {id})[user] == users'[user];
    }
  }

  lemma AdminAgreement(sys: Sys, who: Principal, r: Request)
    requires Ready(sys) && NeedsAdmin(r) && Admissible(sys, r) && CanonicalPath(r)
    ensures Agreement(HandleAdmin(sys, who, r).0)
  {
    hide Inv, WipeUser, HandleAdmin, TrimSpace, RowsOk;
    AdminEffect(sys, who, r);
    var out := HandleAdmin(sys, who, r).0;
    if out != sys && OnUser(r) { RowChange(sys, TrimSpace(r.path), out.users); }
  }

  lemma HandleAgreement(cfg: Config, sys: Sys, r: Request, lag: nat, gap: nat)
    requires Ready(sys) && Base(cfg, sys, lag, gap) && Rested(sys.proto, gap) && Admissible(sys, r) && CanonicalPath(r) && InTime(r, lag)
    ensures Agreement(Handle(cfg, sys, r).0)
  {
    hide Inv, Pace, HandleLogin, HandleBootstrap, HandleRefresh, HandleLogout, HandleAdmin, RowsOk, WipeUser;
    var out := Handle(cfg, sys, r).0;
    match r {
      case Bootstrap(id, password) =>
        var rid := BootstrapEffect(sys, id, password);
        RowChange(sys, rid, out.users);
      case Login(_, _, _, _, _, _) => LoginEffect(cfg, sys, r, lag, gap);
      case Refresh(_, _, _) => RefreshStill(cfg, sys, r); SubAgreement(sys, out.proto);
      case Logout(digest) => LogoutStill(sys, digest); SubAgreement(sys, out.proto);
      case _ =>
        var d := Required(sys.proto.store, sys.proto.now, r.token, {Admin});
        if d.Allow? { AdminAgreement(sys, d.principal, r); }
    }
  }

  lemma NextAgreement(cfg: Config, sys: Sys, st: Step, lag: nat, gap: nat)
    requires Base(cfg, sys, lag, gap) && Agreement(sys) && Safe(cfg.refreshTTL, lag, gap)
    requires gap <= st.dt && Admissible(sys, st.request) && CanonicalPath(st.request) && InTime(st.request, lag)
    ensures Base(cfg, Next(cfg, sys, st), lag, gap) && Agreement(Next(cfg, sys, st))
  {
    hide Inv, Pace, Handle, RowsOk, Agreement, AllListed;
    WaitBase(cfg, sys, st.dt, st.request, lag, gap);
    var w := Wait(sys, st.dt);
    SubAgreement(sys, w.proto);
    SafeListed(w.proto, cfg.refreshTTL, lag, gap);
    HandleAgreement(cfg, w, st.request, lag, gap);
    HandleBase(cfg, w, st.request, lag, gap);
  }

  // ---------------------------------------------------------------- runs

  /** Logins lag by at most `lag`; each request comes at least `gap` after the one before. */
  ghost predicate Paced(steps: seq<Step>, lag: nat, gap: nat) {
    forall i :: 0 <= i < |steps| ==> gap <= steps[i].dt && InTime(steps[i].request, lag)
  }

  ghost predicate CanonicalPaths(steps: seq<Step>) {
    forall i :: 0 <= i < |steps| ==> CanonicalPath(steps[i].request)
  }

  lemma InitialBase(cfg: Config, t: int, lag: nat, gap: nat)
    ensures Base(cfg, Sys(Initial(t), map[]), lag, gap) && Agreement(Sys(Initial(t), map[]))
  {
    InitialInv(t);
  }

  lemma {:induction false} RunAgreement(cfg: Config, ss: seq<Sys>, steps: seq<Step>, lag: nat, gap: nat, i: nat)
    requires IsRun(cfg, ss, steps) && Paced(steps, lag, gap) && CanonicalPaths(steps) && Safe(cfg.refreshTTL, lag, gap) && i < |ss|
    ensures Base(cfg, ss[i], lag, gap) && Agreement(ss[i])
  {
    hide Next, Base, Agreement, CanonicalPath, InTime, Admissible;
    if i == 0 {
      InitialBase(cfg, ss[0].proto.now, lag, gap);
    } else {
      RunAgreement(cfg, ss, steps, lag, gap, i - 1);
      NextAgreement(cfg, ss[i - 1], steps[i - 1], lag, gap);
    }
  }

  /** Every readable session is a true copy of its user's row. */
  lemma SessionsMirrorRows(cfg: Config, ss: seq<Sys>, steps: seq<Step>, lag: nat, gap: nat, i: nat, sid: string)
    requires IsRun(cfg, ss, steps) && Paced(steps, lag, gap) && CanonicalPaths(steps) && Safe(cfg.refreshTTL, lag, gap) && i < |ss|
    requires sid in ss[i].proto.store.sessions
    ensures var session := ss[i].proto.store.sessions[sid].value.session;
      && session.userID in ss[i].users
      && var row := ss[i].users[session.userID];
         && row.id == session.userID && row.email == session.email && row.remark == session.remark
         && row.role == session.role && row.active == session.active
  {
    hide Inv, Pace;
    RunAgreement(cfg, ss, steps, lag, gap, i);
    assert Agrees(ss[i].users, ss[i].proto.store.sessions[sid].value.session);
  }

  /** The middleware's decision taken from the table instead: the session only says who is
      logged in, and with which token; the row says who that is and what they may do. */
  ghost function RequiredByTable(sys: Sys, token: Token, allowed: set<Role>): Decision {
    var st := sys.proto.store;
    if !(Parses(token, sys.proto.now) && token.sessionID in st.sessions
         && st.sessions[token.sessionID].value.session.userID == token.userID
         && st.sessions[token.sessionID].value.session.accessJTI == token.accessJTI
         && token.userID in sys.users && sys.users[token.userID].active && sys.users[token.userID].role.Valid())
    then Unauthorized
    else
      var row := sys.users[token.userID];
      if row.role !in allowed then Forbidden else Allow(Principal(row.id, row.email, row.remark, row.role, token.sessionID))
  }

  /** Deciding access from Redis alone is deciding it from the users table: in particular, who
      passes as an admin is an active admin there. */
  lemma DecisionMatchesTable(cfg: Config, ss: seq<Sys>, steps: seq<Step>, lag: nat, gap: nat, i: nat, token: Token, allowed: set<Role>)
    requires IsRun(cfg, ss, steps) && Paced(steps, lag, gap) && CanonicalPaths(steps) && Safe(cfg.refreshTTL, lag, gap) && i < |ss|
    ensures Required(ss[i].proto.store, ss[i].proto.now, token, allowed) == RequiredByTable(ss[i], token, allowed)
    ensures var d := Required(ss[i].proto.store, ss[i].proto.now, token, {Admin}); d.Allow? ==> IsAdmin(ss[i].users, d.principal.id)
  {
    hide IsRun;
    if token.sessionID in ss[i].proto.store.sessions {
      SessionsMirrorRows(cfg, ss, steps, lag, gap, i, token.sessionID);
    }
  }

  lemma {:induction false} RunBase(cfg: Config, ss: seq<Sys>, steps: seq<Step>, lag: nat, gap: nat, i: nat)
    requires IsRun(cfg, ss, steps) && Paced(steps, lag, gap) && i < |ss|
    ensures Base(cfg, ss[i], lag, gap)
  {
    hide Handle, Base, InTime, Admissible;
    if i == 0 {
      InitialBase(cfg, ss[0].proto.now, lag, gap);
    } else {
      RunBase(cfg, ss, steps, lag, gap, i - 1);
      WaitBase(cfg, ss[i - 1], steps[i - 1].dt, steps[i - 1].request, lag, gap);
      HandleBase(cfg, Wait(ss[i - 1], steps[i - 1].dt), steps[i - 1].request, lag, gap);
    }
  }
}
