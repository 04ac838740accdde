/** The handlers as the service runs them: ordered steps on the users table and on a Redis
    server with string keys, each proved to be the handler that AuthSystem describes. */
module Services {
  import opened Entities
  import opened SessionStore
  import opened SessionProtocol
  import opened Middleware
  import opened Text
  import opened Uuid
  import opened AuthSystem
  import opened AuthTheorems
  import opened AdminTheorems
  import opened Keyspace
  import opened RedisStores
  import SystemRuns

  /** A user as the list and detail routes return it. */
  datatype UserItem = UserItem(id: string, email: string, remark: string, role: Role, active: bool, online: bool)

  /** What a store call does to the store, whichever of its steps it stops at. */
  lemma RotateMatches(s: State, digest: string, nextDigest: string, nextJTI: string)
    requires s.procs == map[]
    ensures var out := DoRotate(s, digest, nextDigest, nextJTI);
      && out.0.now == s.now && out.0.procs == map[]
      && (out.1.Some? <==> digest != "" && nextDigest != "" && nextJTI != "" && RedisAuthSessionStore.LeadsToSession(s.store, s.now, digest))
      && (out.1.None? ==> out.0.store == s.store)
      && (out.1.Some? ==>
            var sid := s.store.refresh[digest].value;
            && out.1.value == sid && sid in out.0.store.sessions
            && out.0.store == RotateScript(s.store, s.now, sid, digest, nextDigest, s.store.sessions[sid].value,
                                           Rotated(s.store.sessions[sid].value, nextDigest, nextJTI)).0)
  {
    var s1 := LookupRotate(s, 0, digest, nextDigest, nextJTI);
    if 0 in s1.procs {
      var s2 := LoadRotate(s1, 0);
      assert s1.procs - {0} == map[] && s2.procs - {0} == map[];
    }
  }

  lemma CreateMatches(s: State, sid: string, session: AuthSession, digest: string, ttl: int, lag: nat)
    requires s.procs == map[]
    ensures var out := DoCreate(s, sid, session, digest, ttl, lag);
      && out.0.procs == map[] && (out.1 <==> ValidCreate(sid, session, digest, ttl))
      && out.0.now == s.now + (if out.1 then lag else 0)
      && out.0.store == if out.1
           then CreateTx(Advance(s.store, s.now + lag), s.now + lag, s.now, sid, session, digest, ttl) else s.store
  {
    hide CreateTx, Advance;
    var s1 := BeginCreate(s, 0, sid, session, digest, ttl);
    assert s1.procs - {0} == map[];
  }

  /** Wherever serving requests has led, index entries not yet due are readable sessions. */
  lemma ServedIndexSound(cfg: Config, ss: seq<Sys>, steps: seq<Step>)
    requires IsRun(cfg, ss, steps)
    ensures SessionTheorems.IndexSound(ss[|steps|].proto.store, ss[|steps|].proto.now)
  {
    hide Apply, Next;
    SystemRuns.RunReaches(cfg, ss, steps, |steps|);
    var ps: seq<State>, es: seq<Event> :| SessionTheorems.IsRun(ps, es) && ps[|es|] == ss[|steps|].proto;
    SessionTheorems.StoreStaysCoherent(ps, es, |es|);
  }

  /** Whom OnlineMap marks has a readable session that its index lists as not yet due. */
  lemma ShownListed(st: Store, now: int, ids: seq<string>, picks: seq<Option<string>>, online: map<string, bool>)
    requires RedisAuthSessionStore.Picked(st, now, ids, picks)
    requires forall id :: id in online ==> id in ids
    requires forall i :: 0 <= i < |ids| ==>
      && ids[i] in online
      && (online[ids[i]] <==> exists sid :: RedisAuthSessionStore.Claims(picks, i, sid) && sid in st.sessions)
    ensures forall id :: id in online && online[id] ==>
      exists sid :: sid in st.sessions && Listed(st, id, sid) && now <= st.index[id].value[sid]
  {
    forall id | id in online && online[id] ensures exists sid :: sid in st.sessions && Listed(st, id, sid) && now <= st.index[id].value[sid] {
      var i :| 0 <= i < |ids| && ids[i] == id;
      assert online[ids[i]];
      var sid :| RedisAuthSessionStore.Claims(picks, i, sid) && sid in st.sessions;
    }
  }

  class Server {
    const cfg: Config
    const sessions: RedisAuthSessionStore
    const captchas: RedisCaptchaStore
    const captchaEnabled: bool
    var users: map<string, User>
    ghost var proto: State

    /** The Redis server holds the session store of the model, and rows are as the table's
        constraints keep them. */
    ghost predicate Valid()
      reads this, sessions.client
    {
      && sessions.client.Valid() && captchas.client == sessions.client
      && proto.store == sessions.client.view.auth && proto.now == sessions.client.now && proto.procs == map[]
      && RowsOk(users)
    }

    ghost function Model(): Sys
      reads this
    {
      Sys(proto, users)
    }

    constructor (cfg: Config, sessions: RedisAuthSessionStore, captchas: RedisCaptchaStore, captchaEnabled: bool)
      requires sessions.client.Valid() && sessions.client.view.auth == EMPTY_STORE && captchas.client == sessions.client
      ensures Valid() && Model() == Sys(Initial(sessions.client.now), map[])
      ensures this.cfg == cfg && this.sessions == sessions && this.captchas == captchas && this.captchaEnabled == captchaEnabled
    {
      this.cfg, this.sessions, this.captchas, this.captchaEnabled, users := cfg, sessions, captchas, captchaEnabled, map[];
      proto := Initial(sessions.client.now);
    }

    /** The middleware in front of the user routes. */
    method Authorize(token: Token, allowed: set<Role>) returns (d: Decision)
      requires Valid()
      ensures d == Required(proto.store, proto.now, token, allowed)
    {
      hide Refines;
      if token.userID == "" || token.accessJTI == "" || token.sessionID == "" || token.expiresAt <= sessions.client.now {
        return Unauthorized;
      }
      var found := sessions.Get(token.sessionID);
      if found.None? { return Unauthorized; }
      var session := found.value;
      if !session.active || !session.role.Valid() || session.userID != token.userID || session.accessJTI != token.accessJTI {
        return Unauthorized;
      }
      if session.role !in allowed { return Forbidden; }
      d := Allow(Principal(session.userID, session.email, session.remark, session.role, token.sessionID));
    }

    method FindUserByEmail(email: string) returns (found: Option<User>)
      requires RowsOk(users)
      ensures found == FindByEmail(users, email)
    {
      if exists id :: id in users && users[id].email == email {
        var id :| id in users && users[id].email == email;
        found := Some(users[id]);
      } else {
        found := None;
      }
    }

    /** Deletes every session of the user. */
    method InvalidateSessions(id: string)
      requires Valid()
      modifies this`proto, sessions.client
      ensures Valid() && Model() == old(Model()).(proto := WipeUser(old(proto), id))
    {
      hide Refines;
      sessions.DeleteUserSessions(id);
      proto := WipeUser(proto, id);
    }

    method EnsureBootstrapAdmin(id: string, password: string) returns (o: Outcome)
      requires Valid() && Admissible(Model(), Bootstrap(id, password))
      modifies this, sessions.client
      ensures Valid() && Model() == HandleBootstrap(old(Model()), id, password).0 && o == HandleBootstrap(old(Model()), id, password).1
    {
      hide Refines, RowsOk, WipeUser, CanonicalUuid;
      ghost var _ := BootstrapRows(Model(), id, password);
      var existing := FindUserByEmail(BOOTSTRAP_EMAIL);
      var row := User(id, BOOTSTRAP_EMAIL, "admin", password, true, Admin);
      if existing.Some? {
        row := existing.value;
        row := row.(password := password, remark := "admin", role := Admin, active := true);
      }
      users := users[row.id := row];
      InvalidateSessions(row.id);
      o := Done;
    }

    /** The login handler: a captcha that does not pass ends the request with the account
        untouched; one that passes is used up, and the sign-in decides. */
    method Login(captchaID: string, captcha: string, email: string, password: string, sid: string, digest: string, jti: string,
                 lag: nat) returns (o: Outcome)
      requires Valid()
      modifies this`proto, sessions.client
      ensures Valid()
      ensures var out := Captcha.LoginCaptcha(old(sessions.client.view.captchas), captchaID, captcha);
        if captchaEnabled && out.1 != Captcha.Pass then
          o == BadRequest && Model() == old(Model()) && sessions.client.view.captchas == out.0
        else
          && o == HandleLogin(cfg, old(Model()), email, password, sid, digest, jti, lag).1
          && Model() == HandleLogin(cfg, old(Model()), email, password, sid, digest, jti, lag).0
          && (captchaEnabled ==> forall id :: id in sessions.client.view.captchas ==> id in out.0)
    {
      hide Refines, HandleLogin, Captcha.LoginCaptcha, RowsOk;
      var verdict := captchas.ConsumeLogin(captchaEnabled, captchaID, captcha);
      if verdict != Captcha.Pass { return BadRequest; }
      o := SignIn(email, password, sid, digest, jti, lag);
    }

    /** The sign-in behind the captcha.  Create reads the clock, and `lag` later Redis runs its
        transaction. */
    method SignIn(email: string, password: string, sid: string, digest: string, jti: string, lag: nat) returns (o: Outcome)
      requires Valid()
      modifies this`proto, sessions.client
      ensures Valid() && Model() == HandleLogin(cfg, old(Model()), email, password, sid, digest, jti, lag).0
      ensures o == HandleLogin(cfg, old(Model()), email, password, sid, digest, jti, lag).1
      ensures forall id :: id in sessions.client.view.captchas ==> id in old(sessions.client.view.captchas)
    {
      hide Refines, DoCreate, CreateTx, Advance, RowsOk;
      var e := NormalizeEmail(email);
      if e == "" || password == "" || |password| > 1024 { return Unauthenticated; }
      var user := FindUserByEmail(e);
      if user.None? { return Unauthenticated; }
      if !user.value.active || user.value.password != password { return Unauthenticated; }
      var session := NewAuthSession(user.value, jti);
      CreateMatches(proto, sid, session, digest, cfg.refreshTTL, lag);
      var clock := sessions.client.now;
      if ValidCreate(sid, session, digest, cfg.refreshTTL) { sessions.client.Tick(lag); }
      var ok := sessions.Create(sid, session, digest, cfg.refreshTTL, clock);
      proto := DoCreate(proto, sid, session, digest, cfg.refreshTTL, lag).0;
      if !ok { return Unavailable; }
      o := Issued(Token(user.value.id, sid, jti, Expiry(cfg, sessions.client.now)));
    }

    method Refresh(digest: string, nextDigest: string, nextJTI: string) returns (o: Outcome)
      requires Valid()
      modifies this`proto, sessions.client
      ensures Valid() && Model() == HandleRefresh(cfg, old(Model()), digest, nextDigest, nextJTI).0
      ensures o == HandleRefresh(cfg, old(Model()), digest, nextDigest, nextJTI).1
    {
      hide Refines, DoRotate;
      RotateMatches(proto, digest, nextDigest, nextJTI);
      var sid, session, remaining := sessions.Rotate(digest, nextDigest, nextJTI);
      proto := DoRotate(proto, digest, nextDigest, nextJTI).0;
      if session.None? { return Unauthenticated; }
      if !session.value.active || !session.value.role.Valid() {
        sessions.Delete(sid);
        proto := DeleteSession(proto, sid);
        return Unauthenticated;
      }
      o := Issued(Token(session.value.userID, sid, nextJTI, Expiry(cfg, sessions.client.now)));
    }

    method Logout(digest: string) returns (o: Outcome)
      requires Valid()
      modifies this`proto, sessions.client
      ensures Valid() && Model() == HandleLogout(old(Model()), digest).0 && o == HandleLogout(old(Model()), digest).1
    {
      hide Refines;
      ghost var before := proto;
      sessions.DeleteByRefreshDigest(digest);
      if digest != "" && digest in before.store.refresh { proto := DeleteSession(before, before.store.refresh[digest].value); }
      o := Done;
    }

    method CreateUser(id: string, email: string, remark: string, password: string, role: Role, active: Option<bool>) returns (o: Outcome)
      requires Valid() && id !in users && CanonicalUuid(id)
      modifies this`users
      ensures Valid() && Model() == HandleCreate(old(Model()), id, email, remark, password, role, active).0
      ensures o == HandleCreate(old(Model()), id, email, remark, password, role, active).1
    {
      hide Refines, RowsOk, NormalizeEmail, TrimSpace, EmailTaken, CanonicalUuid;
      if !role.Valid() { return BadRequest; }
      var e, r := NormalizeEmail(email), TrimSpace(remark);
      if e == "" || r == "" || |password| < 8 || |password| > 72 { return BadRequest; }
      var enabled := true;
      if active.Some? { enabled := active.value; }
      if EmailTaken(users, id, e) { return Conflict; }
      RowAdd(users, User(id, e, r, password, enabled, role));
      users := users[id := User(id, e, r, password, enabled, role)];
      o := Done;
    }

    /** The row with the new e-mail, remark and password; None when one of them is invalid. */
    method Edit(row: User, email: Option<string>, remark: Option<string>, password: Option<string>) returns (edited: Option<User>)
      ensures edited.None? <==>
        || (email.Some? && NormalizeEmail(email.value) == "")
        || (remark.Some? && TrimSpace(remark.value) == "")
        || (password.Some? && (|password.value| < 8 || |password.value| > 72))
      ensures edited.Some? ==> edited.value == row.(email := if email.Some? then NormalizeEmail(email.value) else row.email,
                                                    remark := if remark.Some? then TrimSpace(remark.value) else row.remark,
                                                    password := if password.Some? then password.value else row.password)
    {
      hide NormalizeEmail, TrimSpace;
      var user := row;
      if email.Some? {
        var e := NormalizeEmail(email.value);
        if e == "" { return None; }
        user := user.(email := e);
      }
      if remark.Some? {
        var r := TrimSpace(remark.value);
        if r == "" { return None; }
        user := user.(remark := r);
      }
      if password.Some? {
        if |password.value| < 8 || |password.value| > 72 { return None; }
        user := user.(password := password.value);
      }
      edited := Some(user);
    }

    method UpdateUser(who: Principal, path: string, email: Option<string>, remark: Option<string>, password: Option<string>,
                      role: Option<Role>) returns (o: Outcome)
      requires Valid()
      modifies this, sessions.client
      ensures Valid() && Model() == HandleUpdate(old(Model()), who, path, email, remark, password, role).0
      ensures o == HandleUpdate(old(Model()), who, path, email, remark, password, role).1
    {
      hide Refines, RowsOk, WipeUser, EmailTaken, FindUser, TrimSpace, NormalizeEmail, IsUuid;
      var id := TrimSpace(path);
      if id == "" { return BadRequest; }
      if (email.None? && remark.None? && password.None? && role.None?) || (role.Some? && !role.value.Valid()) { return BadRequest; }
      if !IsUuid(id) { return Failed; }
      var found := FindUser(users, id);
      if found.None? { return NotFound; }
      FoundRow(users, id);
      var edited := Edit(found.value, email, remark, password);
      if edited.None? { return BadRequest; }
      var user := edited.value;
      if role.Some? && role.value != user.role {
        if who.id == id { return BadRequest; }
        user := user.(role := role.value);
      }
      o := Replace(id, user);
    }

    /** Signs the user out, then writes the row unless its e-mail is taken. */
    method Replace(id: string, user: User) returns (o: Outcome)
      requires Valid() && user.id in users && user.role.Valid()
      modifies this, sessions.client
      ensures Valid() && o == if EmailTaken(old(users), user.id, user.email) then Conflict else Done
      ensures Model() == Sys(WipeUser(old(proto), id), if o == Done then old(users)[user.id := user] else old(users))
    {
      hide Refines, RowsOk, WipeUser, EmailTaken;
      InvalidateSessions(id);
      if EmailTaken(users, user.id, user.email) { return Conflict; }
      RowPut(users, user);
      users := users[user.id := user];
      o := Done;
    }

    method DeleteUser(who: Principal, path: string) returns (o: Outcome)
      requires Valid()
      modifies this, sessions.client
      ensures Valid() && Model() == HandleDelete(old(Model()), who, path).0 && o == HandleDelete(old(Model()), who, path).1
    {
      hide Refines, RowsOk, WipeUser, FindUser, TrimSpace, IsUuid;
      var id := TrimSpace(path);
      if id == "" { return BadRequest; }
      if !IsUuid(id) { return Failed; }
      var found := FindUser(users, id);
      if found.None? { return NotFound; }
      if who.id == id { return BadRequest; }
      InvalidateSessions(id);
      RowDrop(users, found.value.id);
      users := users - {found.value.id};
      o := Done;
    }

    method SetActive(who: Principal, path: string, active: Option<bool>) returns (o: Outcome)
      requires Valid()
      modifies this, sessions.client
      ensures Valid() && Model() == HandleSetActive(old(Model()), who, path, active).0 && o == HandleSetActive(old(Model()), who, path, active).1
    {
      hide Refines, RowsOk, WipeUser, FindUser, TrimSpace, IsUuid, EmailTaken;
      var id := TrimSpace(path);
      if id == "" { return BadRequest; }
      if active.None? { return BadRequest; }
      if !IsUuid(id) { return Failed; }
      var found := FindUser(users, id);
      if found.None? { return NotFound; }
      if who.id == id { return BadRequest; }
      InvalidateSessions(id);
      FoundRow(users, id);
      RowPut(users, found.value.(active := active.value));
      users := users[found.value.id := found.value.(active := active.value)];
      o := Done;
    }

    method Kick(path: string) returns (o: Outcome)
      requires Valid()
      modifies this`proto, sessions.client
      ensures Valid() && Model() == HandleKick(old(Model()), path).0 && o == HandleKick(old(Model()), path).1
    {
      hide Refines, RowsOk, WipeUser, FindUser, TrimSpace, IsUuid;
      var id := TrimSpace(path);
      if id == "" { return BadRequest; }
      if !IsUuid(id) { return Failed; }
      var found := FindUser(users, id);
      if found.None? { return NotFound; }
      InvalidateSessions(id);
      o := Done;
    }

    /** Waits, then serves one request: a step of the runs that AuthTheorems speaks about.  A
        login whose captcha did not pass is no step: `Login` leaves the model as it was. */
    method Serve(dt: int, r: Request) returns (o: Outcome)
      requires Valid() && 0 <= dt && Admissible(Model(), r)
      modifies this, sessions.client
      ensures Valid() && Model() == Next(cfg, old(Model()), Step(dt, r)) && o == Handle(cfg, Wait(old(Model()), dt), r).1
    {
      hide Refines, HandleLogin, HandleRefresh, HandleLogout, HandleBootstrap, HandleAdmin, RowsOk;
      Pause(dt);
      match r {
        case Bootstrap(id, password) => o := EnsureBootstrapAdmin(id, password);
        case Login(email, password, sid, digest, jti, lag) => o := SignIn(email, password, sid, digest, jti, lag);
        case Refresh(digest, nextDigest, nextJTI) => o := Refresh(digest, nextDigest, nextJTI);
        case Logout(digest) => o := Logout(digest);
        case _ =>
          var d := Authorize(r.token, {Admin});
          match d {
            case Unauthorized => o := Unauthenticated;
            case Forbidden => o := Denied;
            case Allow(who) => o := ServeAdmin(who, r);
          }
      }
    }

    method Pause(dt: int)
      requires Valid() && 0 <= dt
      modifies this`proto, sessions.client
      ensures Valid() && Model() == Wait(old(Model()), dt)
    {
      hide Refines, RowsOk;
      sessions.client.Tick(dt);
      proto := Wait(Model(), dt).proto;
    }

    /** Serves a list of requests on a new installation, at any pace: the table and Redis end in
        the run's last state, with the run's answers; the index is sound there; there is an active
        admin if the pace is guarded or, with issued tokens, leaves no room for a loss; and every
        session mirrors its row if the pace is safe or, with issued tokens, outlasts them. */
    method ServeAll(steps: seq<Step>, ghost ss: seq<Sys>, ghost lag: nat, ghost gap: nat) returns (answers: seq<Outcome>)
      requires Valid() && IsRun(cfg, ss, steps) && ss[0] == Model() && Paced(steps, lag, gap)
      modifies this, sessions.client
      ensures |answers| == |steps| && forall i :: 0 <= i < |steps| ==> answers[i] == Handle(cfg, Asked(ss, steps, i), steps[i].request).1
      ensures Valid() && Model() == ss[|steps|] && SessionTheorems.IndexSound(proto.store, proto.now)
      ensures CanonicalPaths(steps) && steps != [] && Guarded(cfg.refreshTTL, lag, gap) ==> HasAdmin(users)
      ensures CanonicalPaths(steps) && steps != [] && TokensIssued(cfg, ss, steps) && !LosesAdmin(cfg.refreshTTL, cfg.accessTTL, lag, gap) ==>
        HasAdmin(users)
      ensures CanonicalPaths(steps) && Safe(cfg.refreshTTL, lag, gap) ==> Agreement(Model())
      ensures TokensIssued(cfg, ss, steps) && cfg.accessTTL <= gap ==> Agreement(Model())
    {
      hide Refines, Handle, RowsOk, Admissible, HasAdmin, Agreement, Guarded, LosesAdmin, TokensIssued, Safe, SessionTheorems.IndexSound, Base;
      answers := [];
      for i := 0 to |steps|
        invariant Valid() && Model() == ss[i]
        invariant |answers| == i && forall j :: 0 <= j < i ==> answers[j] == Handle(cfg, Asked(ss, steps, j), steps[j].request).1
      {
        var o := Serve(steps[i].dt, steps[i].request);
        answers := answers + [o];
      }
      ServedIndexSound(cfg, ss, steps);
      if CanonicalPaths(steps) && steps != []
         && (Guarded(cfg.refreshTTL, lag, gap) || (TokensIssued(cfg, ss, steps) && !LosesAdmin(cfg.refreshTTL, cfg.accessTTL, lag, gap))) {
        AlwaysAnActiveAdmin(cfg, ss, steps, lag, gap, |steps|);
      }
      if TokensIssued(cfg, ss, steps) && cfg.accessTTL <= gap { ShortTokensChangeNothing(cfg, ss, steps, lag, gap, |steps|); }
      if CanonicalPaths(steps) && Safe(cfg.refreshTTL, lag, gap) { RunAgreement(cfg, ss, steps, lag, gap, |steps|); }
    }

    method ServeAdmin(who: Principal, r: Request) returns (o: Outcome)
      requires Valid() && NeedsAdmin(r) && Admissible(Model(), r)
      modifies this, sessions.client
      ensures Valid() && Model() == HandleAdmin(old(Model()), who, r).0 && o == HandleAdmin(old(Model()), who, r).1
    {
      hide Refines, HandleCreate, HandleUpdate, HandleDelete, HandleSetActive, HandleKick, RowsOk;
      match r {
        case CreateUser(_, id, email, remark, password, role, active) =>
          o := CreateUser(id, email, remark, password, role, active);
        case UpdateUser(_, path, email, remark, password, role) =>
          o := UpdateUser(who, path, email, remark, password, role);
        case DeleteUser(_, path) => o := DeleteUser(who, path);
        case SetActive(_, path, active) => o := SetActive(who, path, active);
        case Kick(_, path) => o := Kick(path);
      }
    }

    method ItemIDs(items: array<UserItem>) returns (ids: seq<string>)
      ensures |ids| == items.Length && forall i :: 0 <= i < items.Length ==> ids[i] == items[i].id
    {
      ids := [];
      for i := 0 to items.Length
        invariant |ids| == i && forall j :: 0 <= j < i ==> ids[j] == items[j].id
      {
        ids := ids + [items[i].id];
      }
    }

    /** Marks, in place, the listed users that are online, and changes nothing else of the
        items.  Whoever is marked has a readable session that its index lists as not yet due;
        with a sound index, as after any served requests, so has nobody else. */
    method WithOnline(items: array<UserItem>)
      requires Valid()
      modifies items
      ensures forall i :: 0 <= i < items.Length ==> items[i] == old(items[i]).(online := items[i].online)
      ensures forall i :: 0 <= i < items.Length && items[i].online ==>
        exists sid :: sid in proto.store.sessions && Listed(proto.store, items[i].id, sid)
                      && proto.now <= proto.store.index[items[i].id].value[sid]
      ensures SessionTheorems.IndexSound(proto.store, proto.now) ==>
        forall i :: 0 <= i < items.Length ==>
          (items[i].online <==> items[i].id != "" && SessionTheorems.Online(proto.store, proto.now, items[i].id))
    {
      hide Refines, RowsOk, SessionTheorems.IndexSound, SessionTheorems.Online, Distinct, RedisAuthSessionStore.Picked, RedisAuthSessionStore.Claims;
      if items.Length == 0 { return; }
      var ids := ItemIDs(items);
      var online, picks := sessions.OnlineMap(ids);
      ShownListed(proto.store, proto.now, Distinct(ids), picks, online);
      for i := 0 to items.Length
        invariant forall j :: 0 <= j < items.Length ==> items[j] == old(items[j]).(online := items[j].online)
        invariant forall j :: 0 <= j < i ==> (items[j].online <==> items[j].id in online && online[items[j].id])
      {
        var id := items[i].id;
        items[i] := items[i].(online := if id in online then online[id] else false);
      }
    }
  }
}
