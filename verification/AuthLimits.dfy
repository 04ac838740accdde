/** Where the guarantees of AuthTheorems and AdminTheorems end: runs, with tokens that they issue
    themselves, at every pace that breaks them, and with those the exact conditions. */
module AuthLimits {
  import opened Entities
  import opened Numbers
  import opened SessionStore
  import opened SessionProtocol
  import opened Middleware
  import opened Text
  import opened Uuid
  import opened AuthSystem
  import opened AuthTheorems
  import opened AdminTheorems

  // ---------------------------------------------------------------- what single requests do

  /** The clock, the table, and names among which are all values drawn so far. */
  ghost predicate At(sys: Sys, now: int, users: map<string, User>, drawn: set<string>) {
    && sys.proto.now == now && sys.users == users && sys.proto.procs == map[]
    && sys.proto.drawnSids <= drawn && sys.proto.drawnDigests <= drawn && sys.proto.drawnJTIs <= drawn
  }

  /** The session `name` of `user`, readable until `end`; its digest and its jti are both `key`. */
  ghost predicate Has(sys: Sys, name: string, user: User, key: string, end: int) {
    && name in sys.proto.store.sessions
    && sys.proto.store.sessions[name] == Timed(Record(NewAuthSession(user, key), key), end)
  }

  /** If listed at all, then as due at `due` or before. */
  ghost predicate DueBy(sys: Sys, user: string, name: string, due: int) {
    Listed(sys.proto.store, user, name) ==> sys.proto.store.index[user].value[name] <= due
  }

  /** The user's index, if any, ends at `end` or before. */
  ghost predicate IndexEnds(sys: Sys, user: string, end: int) {
    user in sys.proto.store.index ==> sys.proto.store.index[user].expireAt <= end
  }

  /** A wipe of `user` at time `t` does not find the session. */
  ghost predicate Missed(sys: Sys, user: string, name: string, t: int) {
    !Listed(sys.proto.store, user, name) || IndexEnds(sys, user, t - 1)
  }

  /** Until time `t` sessions other than `name` only end, and index entries other than its only go. */
  ghost predicate Carries(sys: Sys, sys': Sys, t: int, name: string) {
    && (forall x, u, k, e :: Has(sys, x, u, k, e) && x != name && t <= e ==> Has(sys', x, u, k, e))
    && (forall u, x, d :: DueBy(sys, u, x, d) && x != name ==> DueBy(sys', u, x, d))
    && (forall u, x :: !Listed(sys.proto.store, u, x) && x != name ==> !Listed(sys'.proto.store, u, x))
  }

  ghost predicate KeepsIndexEnds(sys: Sys, sys': Sys) {
    forall u, e :: IndexEnds(sys, u, e) ==> IndexEnds(sys', u, e)
  }

  function LoginOf(user: User, name: string, lag: nat): Request {
    Login(user.email, user.password, name, name, name, lag)
  }

  /** The token of session `name` under `key`, issued at time `t`. */
  function TokenAt(cfg: Config, user: User, name: string, key: string, t: int): Token {
    Token(user.id, name, key, Expiry(cfg, t))
  }

  /** A row that can sign in. */
  ghost predicate CanLogin(users: map<string, User>, user: User) {
    && user.id in users && users[user.id] == user && user.active && user.role.Valid() && user.id != ""
    && (forall x :: x in users && x != user.id ==> users[x].email != user.email)
    && NormalizeEmail(user.email) == user.email != "" && 0 < |user.password| <= 1024
  }

  lemma LoginStore(cfg: Config, sys: Sys, dt: nat, user: User, name: string, lag: nat, now: int, users: map<string, User>, drawn: set<string>)
    requires At(sys, now, users, drawn) && 0 < cfg.refreshTTL && name != "" && name !in drawn && CanLogin(users, user)
    ensures Admissible(sys, LoginOf(user, name, lag))
    ensures var out := Handle(cfg, Wait(sys, dt), LoginOf(user, name, lag)); var sys' := out.0;
      && At(sys', now + dt + lag, users, drawn + {name}) && out.1 == Issued(TokenAt(cfg, user, name, name, now + dt + lag))
      && sys'.proto.store == CreateTx(Advance(Advance(sys.proto.store, now + dt), now + dt + lag), now + dt + lag, now + dt,
                                      name, NewAuthSession(user, name), name, cfg.refreshTTL)
  {
    hide CreateTx, Advance, NormalizeEmail;
    assert FindByEmail(users, user.email) == Some(user);
    var s1 := BeginCreate(Wait(sys, dt).proto, 0, name, NewAuthSession(user, name), name, cfg.refreshTTL);
    assert s1.procs - {0} == map[];
  }

  ghost predicate Logs(sys: Sys, sys': Sys, clock: int, now: int, user: User, name: string, ttl: int) {
    sys'.proto.store == CreateTx(Advance(Advance(sys.proto.store, clock), now), now, clock, name, NewAuthSession(user, name), name, ttl)
  }

  lemma LogsSessions(sys: Sys, sys': Sys, clock: int, now: int, user: User, name: string, ttl: int)
    requires Logs(sys, sys', clock, now, user, name, ttl) && clock <= now
    ensures Has(sys', name, user, name, now + ttl)
    ensures forall x, u, k, e :: Has(sys, x, u, k, e) && x != name && now <= e ==> Has(sys', x, u, k, e)
  {
    hide IndexAfterCreate;
  }

  lemma LogsEntry(sys: Sys, sys': Sys, clock: int, now: int, user: User, name: string, ttl: int, u: string, x: string)
    requires Logs(sys, sys', clock, now, user, name, ttl) && Listed(sys'.proto.store, u, x)
    ensures x == name && u == user.id ==> sys'.proto.store.index[u].value[x] == clock + ttl
    ensures x != name ==> Listed(sys.proto.store, u, x) && sys'.proto.store.index[u].value[x] == sys.proto.store.index[u].value[x]
    ensures x != name && u == user.id ==> clock < sys.proto.store.index[u].value[x]
  {
  }

  lemma LogsEnd(sys: Sys, sys': Sys, clock: int, now: int, user: User, name: string, ttl: int, u: string, e: int)
    requires Logs(sys, sys', clock, now, user, name, ttl) && IndexEnds(sys, u, e)
    ensures IndexEnds(sys', u, if u == user.id then Max(e, now + ExpireMillis(ttl)) else e)
  {
    hide Surviving, ExpireMillis;
  }

  /** A login; an entry of its user that its clock shows as due goes. */
  lemma LoginStep(cfg: Config, sys: Sys, dt: nat, user: User, name: string, lag: nat, now: int, users: map<string, User>, drawn: set<string>)
    requires At(sys, now, users, drawn) && 0 < cfg.refreshTTL && name != "" && name !in drawn && CanLogin(users, user)
    ensures Admissible(sys, LoginOf(user, name, lag))
    ensures var out := Handle(cfg, Wait(sys, dt), LoginOf(user, name, lag)); var sys' := out.0;
      && At(sys', now + dt + lag, users, drawn + {name}) && out.1 == Issued(TokenAt(cfg, user, name, name, now + dt + lag))
      && Has(sys', name, user, name, now + dt + lag + cfg.refreshTTL) && DueBy(sys', user.id, name, now + dt + cfg.refreshTTL)
      && Carries(sys, sys', now + dt + lag, name)
      && (forall x, d :: DueBy(sys, user.id, x, d) && x != name && d <= now + dt ==> !Listed(sys'.proto.store, user.id, x))
      && (forall u, e :: IndexEnds(sys, u, e) ==> IndexEnds(sys', u, if u == user.id then Max(e, now + dt + lag + ExpireMillis(cfg.refreshTTL)) else e))
  {
    hide Handle, CanLogin, CreateTx, Advance, Admissible, Has, IndexEnds, ExpireMillis;
    LoginStore(cfg, sys, dt, user, name, lag, now, users, drawn);
    var sys' := Handle(cfg, Wait(sys, dt), LoginOf(user, name, lag)).0;
    var clock, end, ttl := now + dt, now + dt + lag, cfg.refreshTTL;
    LogsSessions(sys, sys', clock, end, user, name, ttl);
    forall u, x | Listed(sys'.proto.store, u, x)
      ensures x == name && u == user.id ==> sys'.proto.store.index[u].value[x] == clock + ttl
      ensures x != name ==> Listed(sys.proto.store, u, x) && sys'.proto.store.index[u].value[x] == sys.proto.store.index[u].value[x]
      ensures x != name && u == user.id ==> clock < sys.proto.store.index[u].value[x]
    {
      LogsEntry(sys, sys', clock, end, user, name, ttl, u, x);
    }
    forall u, e | IndexEnds(sys, u, e) ensures IndexEnds(sys', u, if u == user.id then Max(e, end + ExpireMillis(ttl)) else e) {
      LogsEnd(sys, sys', clock, end, user, name, ttl, u, e);
    }
  }

  lemma RotateStore(s: State, name: string, key: string, next: string)
    requires s.procs == map[] && key in s.store.refresh && s.store.refresh[key].value == name && name in s.store.sessions
    requires s.store.sessions[name].value.refreshDigest == key && s.now < s.store.sessions[name].expireAt
    requires name != "" && key != "" && next != ""
    ensures var out := DoRotate(s, key, next, next); var c := s.store.sessions[name];
      && out.1 == Some(name) && out.0.now == s.now && out.0.procs == map[]
      && out.0.drawnSids == s.drawnSids && out.0.drawnDigests == s.drawnDigests + {next} && out.0.drawnJTIs == s.drawnJTIs + {next}
      && out.0.store.sessions == s.store.sessions[name := Timed(Rotated(c.value, next, next), c.expireAt)]
      && out.0.store.index == s.store.index
  {
    var s1 := LookupRotate(s, 0, key, next, next);
    var s2 := LoadRotate(s1, 0);
    assert s2.procs - {0} == map[];
  }

  lemma ReadableKey(s: State, name: string)
    requires Inv(s) && name in s.store.sessions
    ensures var c := s.store.sessions[name];
      c.value.refreshDigest in s.store.refresh && s.store.refresh[c.value.refreshDigest] == Timed(name, c.expireAt)
  {
    assert SessionOk(s, name);
  }

  lemma RefreshStore(cfg: Config, sys: Sys, dt: nat, user: User, name: string, key: string, next: string, end: int, now: int, users: map<string, User>, drawn: set<string>)
    requires At(sys, now, users, drawn) && Quiet(sys.proto) && Has(sys, name, user, key, end) && now + dt < end
    requires name != "" && key != "" && next != "" && next !in drawn && user.active && user.role.Valid()
    ensures Admissible(sys, Refresh(key, next, next))
    ensures var out := Handle(cfg, Wait(sys, dt), Refresh(key, next, next)); var sys' := out.0;
      && At(sys', now + dt, users, drawn + {next}) && out.1 == Issued(TokenAt(cfg, user, name, next, now + dt))
      && sys'.proto.store.sessions == Unexpired(sys.proto.store.sessions, now + dt)[name := Timed(Record(NewAuthSession(user, next), next), end)]
      && sys'.proto.store.index == Unexpired(sys.proto.store.index, now + dt)
  {
    hide Inv, DoRotate;
    ReadableKey(sys.proto, name);
    RotateStore(Wait(sys, dt).proto, name, key, next);
  }

  /** A refresh of a session with time left. */
  lemma RefreshStep(cfg: Config, sys: Sys, dt: nat, user: User, name: string, key: string, next: string, end: int, now: int, users: map<string, User>, drawn: set<string>)
    requires At(sys, now, users, drawn) && Quiet(sys.proto) && Has(sys, name, user, key, end) && now + dt < end
    requires name != "" && key != "" && next != "" && next !in drawn && user.active && user.role.Valid()
    ensures Admissible(sys, Refresh(key, next, next))
    ensures var out := Handle(cfg, Wait(sys, dt), Refresh(key, next, next)); var sys' := out.0;
      && At(sys', now + dt, users, drawn + {next}) && out.1 == Issued(TokenAt(cfg, user, name, next, now + dt))
      && Has(sys', name, user, next, end) && Carries(sys, sys', now + dt, name) && KeepsIndexEnds(sys, sys')
      && (forall u, d :: DueBy(sys, u, name, d) ==> DueBy(sys', u, name, d))
      && (forall u :: !Listed(sys.proto.store, u, name) ==> !Listed(sys'.proto.store, u, name))
  {
    hide Handle, Inv;
    RefreshStore(cfg, sys, dt, user, name, key, next, end, now, users, drawn);
  }

  /** An active admin's session whose token is in time. */
  ghost predicate Acts(sys: Sys, token: Token, who: User, key: string, end: int, t: int) {
    && Has(sys, token.sessionID, who, key, end) && t <= end && t < token.expiresAt
    && token.userID == who.id != "" && token.accessJTI == key != "" && token.sessionID != "" && who.active && who.role == Admin
  }

  lemma ActsAllowed(sys: Sys, dt: nat, token: Token, who: User, key: string, end: int, now: int)
    requires sys.proto.now == now && Acts(sys, token, who, key, end, now + dt)
    ensures var w := Wait(sys, dt).proto;
      Required(w.store, w.now, token, {Admin}) == Allow(Principal(who.id, who.email, who.remark, Admin, token.sessionID))
  {
  }

  lemma CreateStep(cfg: Config, sys: Sys, dt: nat, token: Token, who: User, key: string, end: int, user: User, now: int, users: map<string, User>, drawn: set<string>)
    requires At(sys, now, users, drawn) && Acts(sys, token, who, key, end, now + dt)
    requires user.id !in users && CanonicalUuid(user.id) && user.active && user.role.Valid()
    requires forall x :: x in users ==> users[x].email != user.email
    requires NormalizeEmail(user.email) == user.email != "" && TrimSpace(user.remark) == user.remark != "" && 8 <= |user.password| <= 72
    ensures var r := CreateUser(token, user.id, user.email, user.remark, user.password, user.role, None);
      var sys' := Handle(cfg, Wait(sys, dt), r).0;
      && Admissible(sys, r) && At(sys', now + dt, users[user.id := user], drawn) && Carries(sys, sys', now + dt, "") && KeepsIndexEnds(sys, sys')
  {
    hide NormalizeEmail, TrimSpace, CanonicalUuid;
    ActsAllowed(sys, dt, token, who, key, end, now);
  }

  lemma DeleteStep(cfg: Config, sys: Sys, dt: nat, token: Token, who: User, key: string, end: int, path: string, now: int, users: map<string, User>, drawn: set<string>)
    requires At(sys, now, users, drawn) && Acts(sys, token, who, key, end, now + dt)
    requires who.id != TrimSpace(path) && IsUuid(TrimSpace(path)) && TrimSpace(path) != ""
    requires var id := NormalUuid(TrimSpace(path)); id in users && users[id].id == id
    ensures var sys' := Handle(cfg, Wait(sys, dt), DeleteUser(token, path)).0;
      && At(sys', now + dt, users - {NormalUuid(TrimSpace(path))}, drawn)
      && (forall x, u, k, e :: Has(sys, x, u, k, e) && now + dt <= e && Missed(sys, TrimSpace(path), x, now + dt) ==> Has(sys', x, u, k, e))
  {
    hide TrimSpace, NormalUuid, IsUuid;
    ActsAllowed(sys, dt, token, who, key, end, now);
  }

  /** An admin's edit of its own remark, by its id as printed: its other sessions stay as far as
      the wipe misses them. */
  lemma RemarkStep(cfg: Config, sys: Sys, dt: nat, token: Token, who: User, key: string, end: int, now: int, drawn: set<string>)
    requires At(sys, now, map[who.id := who], drawn) && Acts(sys, token, who, key, end, now + dt)
    requires TrimSpace(who.id) == who.id == NormalUuid(who.id) && IsUuid(who.id) && TrimSpace("x") == "x"
    ensures var sys' := Handle(cfg, Wait(sys, dt), UpdateUser(token, who.id, None, Some("x"), None, None)).0;
      && At(sys', now + dt, map[who.id := who.(remark := "x")], drawn)
      && (forall x, u, k, e :: Has(sys, x, u, k, e) && now + dt <= e && Missed(sys, who.id, x, now + dt) ==> Has(sys', x, u, k, e))
      && who.id !in sys'.proto.store.index
  {
    hide TrimSpace, NormalUuid, IsUuid;
    ActsAllowed(sys, dt, token, who, key, end, now);
    var sys' := Handle(cfg, Wait(sys, dt), UpdateUser(token, who.id, None, Some("x"), None, None)).0;
    assert map[who.id := who][who.id := who.(remark := "x")] == map[who.id := who.(remark := "x")];
  }

  function FirstAdmin(id: string): User { User(id, BOOTSTRAP_EMAIL, "admin", "p", true, Admin) }

  lemma BootstrapStep(cfg: Config, dt: nat, id: string)
    requires CanonicalUuid(id)
    ensures var sys, r := Sys(Initial(0), map[]), Bootstrap(id, "p");
      var sys' := Handle(cfg, Wait(sys, dt), r).0;
      && Admissible(sys, r) && At(sys', dt, map[id := FirstAdmin(id)], {}) && sys'.proto.store == EMPTY_STORE
  {
    hide CanonicalUuid;
    var s := Initial(dt);
    assert WipeUser(s, id) == s;
  }

  /** A restart resets the bootstrap user's remark; sessions that the wipe misses stay. */
  lemma RestartStep(cfg: Config, sys: Sys, dt: nat, id: string, user: User, now: int, drawn: set<string>)
    requires At(sys, now, map[user.id := user], drawn) && user.email == BOOTSTRAP_EMAIL && user.id != "" && user.id != id && CanonicalUuid(id)
    ensures var sys' := Handle(cfg, Wait(sys, dt), Bootstrap(id, "p")).0;
      && Admissible(sys, Bootstrap(id, "p")) && user.id in sys'.users && sys'.users[user.id].remark == "admin"
      && (forall x, u, k, e :: Has(sys, x, u, k, e) && now + dt <= e && Missed(sys, user.id, x, now + dt) ==> Has(sys', x, u, k, e))
  {
    hide CanonicalUuid;
    var users := map[user.id := user];
    assert FindByEmail(users, BOOTSTRAP_EMAIL) == Some(user) by { assert user.id in users; }
  }

  // ---------------------------------------------------------------- runs

  type Run = (seq<Sys>, seq<Step>)

  ghost function Last(r: Run): Sys {
    if r.0 == [] then Sys(Initial(0), map[]) else r.0[|r.0| - 1]
  }

  /** A run at the pace that presents only tokens it has issued. */
  ghost predicate Fair(cfg: Config, r: Run, lag: nat, gap: nat) {
    IsRun(cfg, r.0, r.1) && Paced(r.1, lag, gap) && TokensIssued(cfg, r.0, r.1)
  }

  ghost predicate Held(cfg: Config, r: Run, token: Token)
    requires IsRun(cfg, r.0, r.1)
  {
    exists j :: IssuesAt(cfg, r.0, r.1, j, token)
  }

  /** One more request at the end. */
  ghost predicate Extends(cfg: Config, r: Run, r': Run, st: Step, lag: nat, gap: nat)
    requires IsRun(cfg, r.0, r.1) && 0 <= st.dt && Last(r).proto.procs == map[]
  {
    && Fair(cfg, r', lag, gap) && r'.1 == r.1 + [st]
    && var out := Handle(cfg, Wait(Last(r), st.dt), st.request);
       && Last(r') == out.0
       && (forall t :: Held(cfg, r, t) ==> Held(cfg, r', t))
       && (out.1.Issued? ==> Held(cfg, r', out.1.token))
  }

  lemma PrefixIssues(cfg: Config, r: Run, r': Run, j: int, token: Token)
    requires IsRun(cfg, r.0, r.1) && IsRun(cfg, r'.0, r'.1) && r.0 <= r'.0 && r.1 <= r'.1 && 0 <= j < |r.1|
    ensures IssuesAt(cfg, r.0, r.1, j, token) <==> IssuesAt(cfg, r'.0, r'.1, j, token)
  {
    hide Handle;
  }

  lemma Extend(cfg: Config, r: Run, st: Step, lag: nat, gap: nat) returns (r': Run)
    requires Fair(cfg, r, lag, gap) && gap <= st.dt && InTime(st.request, lag) && Last(r).proto.procs == map[] && Admissible(Last(r), st.request)
    requires (r.1 == [] ==> st.request.Bootstrap?) && (NeedsAdmin(st.request) ==> Held(cfg, r, st.request.token))
    ensures Extends(cfg, r, r', st, lag, gap)
  {
    hide Handle, Admissible;
    var n := |r.1|;
    r' := (r.0 + [Next(cfg, Last(r), st)], r.1 + [st]);
    assert IsRun(cfg, r'.0, r'.1);
    forall t | Held(cfg, r, t) ensures exists j :: j < n && IssuesAt(cfg, r'.0, r'.1, j, t) {
      var j :| IssuesAt(cfg, r.0, r.1, j, t);
      PrefixIssues(cfg, r, r', j, t);
    }
    forall i | 0 <= i < |r'.1| && NeedsAdmin(r'.1[i].request) ensures exists j :: j < i && IssuesAt(cfg, r'.0, r'.1, j, r'.1[i].request.token) {
      if i < n {
        var j :| j < i && IssuesAt(cfg, r.0, r.1, j, r.1[i].request.token);
        PrefixIssues(cfg, r, r', j, r.1[i].request.token);
      }
    }
    var out := Handle(cfg, Wait(Last(r), st.dt), st.request);
    assert Asked(r'.0, r'.1, n) == Wait(Last(r), st.dt);
    if out.1.Issued? { assert IssuesAt(cfg, r'.0, r'.1, n, out.1.token); }
  }

  /** A fair run on canonical paths, and where it stands. */
  ghost predicate Scene(cfg: Config, r: Run, lag: nat, gap: nat, now: int, users: map<string, User>, drawn: set<string>) {
    Fair(cfg, r, lag, gap) && CanonicalPaths(r.1) && r.1 != [] && At(Last(r), now, users, drawn)
  }

  ghost predicate StillHeld(cfg: Config, r: Run, r': Run)
    requires IsRun(cfg, r.0, r.1) && IsRun(cfg, r'.0, r'.1)
  {
    forall t :: Held(cfg, r, t) ==> Held(cfg, r', t)
  }

  /** What a login leaves. */
  ghost predicate LoggedIn(sys: Sys, sys': Sys, clock: int, now: int, user: User, name: string, ttl: int) {
    && Has(sys', name, user, name, now + ttl) && DueBy(sys', user.id, name, clock + ttl) && Carries(sys, sys', now, name)
    && (forall x, d :: DueBy(sys, user.id, x, d) && x != name && d <= clock ==> !Listed(sys'.proto.store, user.id, x))
    && (forall u, e :: IndexEnds(sys, u, e) ==> IndexEnds(sys', u, if u == user.id then Max(e, now + ExpireMillis(ttl)) else e))
  }

  lemma DoLogin(cfg: Config, r: Run, dt: nat, user: User, name: string, late: nat, lag: nat, gap: nat, now: int, users: map<string, User>, drawn: set<string>)
    returns (r': Run)
    requires Scene(cfg, r, lag, gap, now, users, drawn) && gap <= dt && late <= lag && 0 < cfg.refreshTTL
    requires name != "" && name !in drawn && CanLogin(users, user)
    ensures Scene(cfg, r', lag, gap, now + dt + late, users, drawn + {name}) && StillHeld(cfg, r, r')
    ensures Held(cfg, r', TokenAt(cfg, user, name, name, now + dt + late)) && r'.1 == r.1 + [Step(dt, LoginOf(user, name, late))]
    ensures LoggedIn(Last(r), Last(r'), now + dt, now + dt + late, user, name, cfg.refreshTTL)
  {
    hide Handle, Admissible, CanLogin, Fair;
    FairParts(cfg, r, lag, gap);
    LoginStep(cfg, Last(r), dt, user, name, late, now, users, drawn);
    r' := Extend(cfg, r, Step(dt, LoginOf(user, name, late)), lag, gap);
  }

  lemma FairParts(cfg: Config, r: Run, lag: nat, gap: nat)
    requires Fair(cfg, r, lag, gap)
    ensures IsRun(cfg, r.0, r.1) && Quiet(Last(r).proto)
  {
    hide Next;
    RunBase(cfg, r.0, r.1, lag, gap, |r.1|);
  }

  /** What a refresh leaves. */
  ghost predicate Refreshed(sys: Sys, sys': Sys, now: int, user: User, name: string, next: string, end: int) {
    && Has(sys', name, user, next, end) && Carries(sys, sys', now, name) && KeepsIndexEnds(sys, sys')
    && (forall u, d :: DueBy(sys, u, name, d) ==> DueBy(sys', u, name, d))
    && (forall u :: !Listed(sys.proto.store, u, name) ==> !Listed(sys'.proto.store, u, name))
  }

  lemma DoRefresh(cfg: Config, r: Run, dt: nat, user: User, name: string, key: string, next: string, end: int, lag: nat, gap: nat, now: int,
                  users: map<string, User>, drawn: set<string>) returns (r': Run)
    requires Scene(cfg, r, lag, gap, now, users, drawn) && gap <= dt && Has(Last(r), name, user, key, end) && now + dt < end
    requires name != "" && key != "" && next != "" && next !in drawn && user.active && user.role.Valid()
    ensures Scene(cfg, r', lag, gap, now + dt, users, drawn + {next}) && StillHeld(cfg, r, r')
    ensures Held(cfg, r', TokenAt(cfg, user, name, next, now + dt))
    ensures Refreshed(Last(r), Last(r'), now + dt, user, name, next, end)
  {
    hide Handle, Admissible, Fair, Inv;
    FairParts(cfg, r, lag, gap);
    RefreshStep(cfg, Last(r), dt, user, name, key, next, end, now, users, drawn);
    r' := Extend(cfg, r, Step(dt, Refresh(key, next, next)), lag, gap);
  }

  lemma DeleteById(cfg: Config, sys: Sys, dt: nat, token: Token, who: User, key: string, end: int, id: string, now: int, users: map<string, User>, drawn: set<string>)
    requires At(sys, now, users, drawn) && Acts(sys, token, who, key, end, now + dt)
    requires CanonicalUuid(id) && who.id != id && id in users && users[id].id == id
    ensures var sys' := Handle(cfg, Wait(sys, dt), DeleteUser(token, id)).0;
      && At(sys', now + dt, users - {id}, drawn) && Canonical(id)
      && (forall x, u, k, e :: Has(sys, x, u, k, e) && now + dt <= e && Missed(sys, id, x, now + dt) ==> Has(sys', x, u, k, e))
  {
    assert id != "";
    hide Handle, TrimSpace, NormalUuid, IsUuid, CanonicalUuid, Acts, Has, Missed;
    CanonicalIsNormal(id);
    CanonicalTrims(id);
    DeleteStep(cfg, sys, dt, token, who, key, end, id, now, users, drawn);
  }

  lemma DoDelete(cfg: Config, r: Run, dt: nat, token: Token, who: User, key: string, end: int, id: string, lag: nat, gap: nat, now: int,
                 users: map<string, User>, drawn: set<string>) returns (r': Run)
    requires Scene(cfg, r, lag, gap, now, users, drawn) && gap <= dt && Held(cfg, r, token) && Acts(Last(r), token, who, key, end, now + dt)
    requires CanonicalUuid(id) && who.id != id && id in users && users[id].id == id
    ensures Scene(cfg, r', lag, gap, now + dt, users - {id}, drawn) && StillHeld(cfg, r, r')
    ensures forall x, u, k, e :: Has(Last(r), x, u, k, e) && now + dt <= e && Missed(Last(r), id, x, now + dt) ==> Has(Last(r'), x, u, k, e)
  {
    hide Handle, Fair, Canonical, CanonicalUuid, Acts, Has, Missed;
    FairParts(cfg, r, lag, gap);
    DeleteById(cfg, Last(r), dt, token, who, key, end, id, now, users, drawn);
    r' := Extend(cfg, r, Step(dt, DeleteUser(token, id)), lag, gap);
  }

  lemma Normal()
    ensures NormalizeEmail("b@b") == "b@b" && TrimSpace("b") == "b" && TrimSpace("x") == "x" && NormalizeEmail(BOOTSTRAP_EMAIL) == BOOTSTRAP_EMAIL
  {
    var e, f := "b@b", BOOTSTRAP_EMAIL;
    assert TrimSpace(e) == e;
    assert ToLower(e) == e;
    assert !IsSpace(f[0]) && !IsSpace(f[|f| - 1]);
    assert TrimSpace(f) == f;
    assert forall i :: 0 <= i < |f| ==> ToLower(f)[i] == f[i];
  }

  lemma InstalledCanLogin(id: string)
    requires CanonicalUuid(id)
    ensures CanLogin(map[id := FirstAdmin(id)], FirstAdmin(id))
  {
    hide NormalizeEmail;
    Normal();
  }

  /** A new installation, bootstrapped. */
  lemma Installed(cfg: Config, pad: nat, id: string, lag: nat, gap: nat) returns (r: Run)
    requires CanonicalUuid(id)
    ensures Scene(cfg, r, lag, gap, gap + pad, map[id := FirstAdmin(id)], {}) && Last(r).proto.store == EMPTY_STORE
    ensures CanLogin(map[id := FirstAdmin(id)], FirstAdmin(id)) && !exists i :: 0 <= i < |r.1| && OnUser(r.1[i].request)
  {
    InstalledCanLogin(id);
    hide Handle, CanonicalUuid, NormalizeEmail, CanLogin;
    BootstrapStep(cfg, gap + pad, id);
    var r0: Run := ([Sys(Initial(0), map[])], []);
    r := Extend(cfg, r0, Step(gap + pad, Bootstrap(id, "p")), lag, gap);
  }

  /** A token whose lifetime ends on a whole second can be used until then; any token until a
      second before. */
  lemma TokenInTime(cfg: Config, issued: int, t: int)
    requires t < issued + cfg.accessTTL && ((issued + cfg.accessTTL) % 1000 == 0 || t + 999 < issued + cfg.accessTTL)
    ensures t < Expiry(cfg, issued)
  {
  }

  // ---------------------------------------------------------------- when sessions mirror rows

  lemma Mismatch(sys: Sys, user: User, name: string, key: string, end: int)
    requires Has(sys, name, user, key, end) && (user.id in sys.users ==> sys.users[user.id].remark != user.remark)
    ensures !Agreement(sys)
  {
    assert !Agrees(sys.users, sys.proto.store.sessions[name].value.session);
  }

  /** An edit of the only admin's own remark. */
  lemma DoRemark(cfg: Config, r: Run, dt: nat, token: Token, who: User, key: string, end: int, lag: nat, gap: nat, now: int, drawn: set<string>) returns (r': Run)
    requires Scene(cfg, r, lag, gap, now, map[who.id := who], drawn) && gap <= dt && CanonicalUuid(who.id)
    requires Held(cfg, r, token) && Acts(Last(r), token, who, key, end, now + dt)
    ensures Scene(cfg, r', lag, gap, now + dt, map[who.id := who.(remark := "x")], drawn) && who.id !in Last(r').proto.store.index
    ensures forall x, u, k, e :: Has(Last(r), x, u, k, e) && now + dt <= e && Missed(Last(r), who.id, x, now + dt) ==> Has(Last(r'), x, u, k, e)
  {
    hide Handle, Fair, TrimSpace, NormalUuid, IsUuid, CanonicalUuid, Acts, Has, Missed;
    FairParts(cfg, r, lag, gap);
    Normal();
    CanonicalIsNormal(who.id);
    CanonicalTrims(who.id);
    RemarkStep(cfg, Last(r), dt, token, who, key, end, now, drawn);
    r' := Extend(cfg, r, Step(dt, UpdateUser(token, who.id, None, Some("x"), None, None)), lag, gap);
  }

  /** How long to wait for a token issued at `t` to end on a whole second. */
  function Pad(t: int): nat { (-t) % 1000 }

  /** A lag of a whole gap: the only admin signs in again when its first session is due, which
      prunes it, and edits its own remark while that session is still readable. */
  lemma LateLoginGoesStale(cfg: Config, lag: nat, gap: nat) returns (r: Run)
    requires gap < cfg.accessTTL && gap <= lag && 0 < cfg.refreshTTL && 2 * gap <= cfg.refreshTTL
    ensures Fair(cfg, r, lag, gap) && CanonicalPaths(r.1) && !Agreement(Last(r))
  {
    hide Fair, CanonicalUuid, CanLogin, Has, DueBy, Listed, IndexEnds, Held, Expiry, Last;
    var id, ttl := Sample('a'), cfg.refreshTTL;
    var a, users := FirstAdmin(id), map[id := FirstAdmin(id)];
    var pad := Pad(2 * gap + ttl + cfg.accessTTL);
    var t := pad + 2 * gap + ttl;
    var r1 := Installed(cfg, pad, id, lag, gap);
    var r2 := DoLogin(cfg, r1, gap, a, "x", gap, lag, gap, gap + pad, users, {});
    var r3 := DoLogin(cfg, r2, ttl - gap, a, "y", 0, lag, gap, 3 * gap + pad, users, {} + {"x"});
    assert Has(Last(r3), "x", a, "x", t + gap) && !Listed(Last(r3).proto.store, id, "x");
    TokenInTime(cfg, t, t + gap);
    r := DoRemark(cfg, r3, gap, TokenAt(cfg, a, "y", "y", t), a, "y", t + ttl, lag, gap, t, {} + {"x"} + {"y"});
    Mismatch(Last(r), a, "x", "x", t + gap);
  }

  lemma RemarkedCanLogin(id: string)
    requires CanonicalUuid(id)
    ensures CanLogin(map[id := FirstAdmin(id).(remark := "x")], FirstAdmin(id).(remark := "x"))
  {
    hide NormalizeEmail;
    Normal();
  }

  lemma NoIndexEnds(sys: Sys, user: string, end: int)
    requires user !in sys.proto.store.index
    ensures IndexEnds(sys, user, end)
  {
  }

  lemma DoRestart(cfg: Config, r: Run, dt: nat, id: string, user: User, lag: nat, gap: nat, now: int, drawn: set<string>) returns (r': Run)
    requires Scene(cfg, r, lag, gap, now, map[user.id := user], drawn) && gap <= dt
    requires user.email == BOOTSTRAP_EMAIL && user.id != "" && user.id != id && CanonicalUuid(id)
    ensures Fair(cfg, r', lag, gap) && CanonicalPaths(r'.1) && user.id in Last(r').users && Last(r').users[user.id].remark == "admin"
    ensures forall x, u, k, e :: Has(Last(r), x, u, k, e) && now + dt <= e && Missed(Last(r), user.id, x, now + dt) ==> Has(Last(r'), x, u, k, e)
  {
    hide Handle, Fair, CanonicalUuid, Has, Missed;
    FairParts(cfg, r, lag, gap);
    RestartStep(cfg, Last(r), dt, id, user, now, drawn);
    r' := Extend(cfg, r, Step(dt, Bootstrap(id, "p")), lag, gap);
  }

  /** A truncated lifetime: the only admin changes its remark and signs in again; a restart
      resets the remark after its index has expired and before its session has. */
  lemma TruncatedGoesStale(cfg: Config, lag: nat, gap: nat) returns (r: Run)
    requires gap < cfg.accessTTL && !WholeTtl(cfg.refreshTTL) && gap <= cfg.refreshTTL
    ensures Fair(cfg, r, lag, gap) && CanonicalPaths(r.1) && !Agreement(Last(r))
  {
    hide Fair, CanonicalUuid, CanLogin, Has, DueBy, Listed, IndexEnds, Held, Expiry, Last;
    var id, ttl := Sample('a'), cfg.refreshTTL;
    var a := FirstAdmin(id);
    var b := a.(remark := "x");
    var pad := Pad(2 * gap + cfg.accessTTL);
    var t := pad + 2 * gap;
    var r1 := Installed(cfg, pad, id, lag, gap);
    var r2 := DoLogin(cfg, r1, gap, a, "w", 0, lag, gap, gap + pad, map[id := a], {});
    TokenInTime(cfg, t, t + gap);
    var r3 := DoRemark(cfg, r2, gap, TokenAt(cfg, a, "w", "w", t), a, "w", t + ttl, lag, gap, t, {} + {"w"});
    NoIndexEnds(Last(r3), id, t);
    RemarkedCanLogin(id);
    var r4 := DoLogin(cfg, r3, gap, b, "x", 0, lag, gap, t + gap, map[id := b], {} + {"w"});
    assert IndexEnds(Last(r4), id, Max(t, t + 2 * gap + ExpireMillis(ttl)));
    var dt := Max(ExpireMillis(ttl) + 1, gap);
    LaterMiss(Last(r4), id, "x", t + 2 * gap + ExpireMillis(ttl), t + 2 * gap + dt);
    r := DoRestart(cfg, r4, dt, Sample('b'), b, lag, gap, t + 2 * gap, {} + {"w"} + {"x"});
    Mismatch(Last(r), b, "x", "x", t + 2 * gap + ttl);
  }

  lemma LaterMiss(sys: Sys, user: string, name: string, end: int, t: int)
    requires IndexEnds(sys, user, end) && end < t
    ensures Missed(sys, user, name, t)
  {
  }

  lemma LastState(cfg: Config, r: Run)
    requires IsRun(cfg, r.0, r.1)
    ensures Last(r) == r.0[|r.1|]
  {
  }

  /** In all runs at a pace, on canonical paths and with tokens that they issue, sessions mirror
      rows if and only if the pace is safe or no token outlasts the gap. */
  lemma AgreementIffSafe(cfg: Config, lag: nat, gap: nat)
    requires 0 < cfg.refreshTTL
    ensures (forall ss: seq<Sys>, steps: seq<Step> ::
               IsRun(cfg, ss, steps) && Paced(steps, lag, gap) && CanonicalPaths(steps) && TokensIssued(cfg, ss, steps) ==> Agreement(ss[|steps|]))
      <==> Safe(cfg.refreshTTL, lag, gap) || cfg.accessTTL <= gap
  {
    hide Base, Next, TokensIssued, Agreement;
    if Safe(cfg.refreshTTL, lag, gap) || cfg.accessTTL <= gap {
      forall ss: seq<Sys>, steps: seq<Step> | IsRun(cfg, ss, steps) && Paced(steps, lag, gap) && CanonicalPaths(steps) && TokensIssued(cfg, ss, steps)
        ensures Agreement(ss[|steps|])
      {
        if Safe(cfg.refreshTTL, lag, gap) {
          RunAgreement(cfg, ss, steps, lag, gap, |steps|);
        } else {
          ShortTokensChangeNothing(cfg, ss, steps, lag, gap, |steps|);
        }
      }
    } else {
      var r: Run;
      if WholeTtl(cfg.refreshTTL) { r := LateLoginGoesStale(cfg, lag, gap); } else { r := TruncatedGoesStale(cfg, lag, gap); }
      LastState(cfg, r);
    }
  }

  // ---------------------------------------------------------------- the spelling of path ids

  /** The only admin signs in and deletes the user at `path`, which is its own id in any spelling
      but the printed one. */
  lemma OtherSpellingDeletesSelf(cfg: Config, path: string, lag: nat, gap: nat) returns (r: Run)
    requires 0 < cfg.refreshTTL && gap <= cfg.refreshTTL && gap < cfg.accessTTL && !Canonical(path)
    ensures Fair(cfg, r, lag, gap) && OnlyPath(r.1, path) && r.1 != [] && !HasAdmin(Last(r).users)
  {
    hide Handle, Fair, CanonicalUuid, IsUuid, ReadUuid, PrintUuid, TrimSpace, CanLogin, Has, Listed, IndexEnds, Held, Expiry;
    var id, ttl := NormalUuid(TrimSpace(path)), cfg.refreshTTL;
    PrintsCanonical(TrimSpace(path));
    CanonicalTrims(id);
    NothingSpelled();
    var a := FirstAdmin(id);
    var pad := Pad(2 * gap + cfg.accessTTL);
    var t := pad + 2 * gap;
    var r1 := Installed(cfg, pad, id, lag, gap);
    var r2 := DoLogin(cfg, r1, gap, a, "x", 0, lag, gap, gap + pad, map[id := a], {});
    TokenInTime(cfg, t, t + gap);
    var token := TokenAt(cfg, a, "x", "x", t);
    DeleteStep(cfg, Last(r2), gap, token, a, "x", t + ttl, path, t, map[id := a], {} + {"x"});
    r := Extend(cfg, r2, Step(gap, DeleteUser(token, path)), lag, gap);
    assert Last(r).users == map[];
  }

  lemma NothingSpelled()
    ensures !IsUuid("")
  {
  }

  /** Requests that name users by one path keep an active admin in every run, at any pace, if and
      only if it spells the id as the table prints it, if it is an id at all, or no session or
      no token outlasts the gap: rows are found by UUID value, but the guard against acting on
      oneself and the wipe compare strings. */
  lemma AdminKeptIffCanonical(cfg: Config, path: string, lag: nat, gap: nat)
    requires 0 < cfg.refreshTTL
    ensures (forall ss: seq<Sys>, steps: seq<Step> ::
               IsRun(cfg, ss, steps) && Paced(steps, lag, gap) && OnlyPath(steps, path) && TokensIssued(cfg, ss, steps) && steps != [] ==>
                 HasAdmin(ss[|steps|].users))
      <==> Canonical(path) || cfg.refreshTTL < gap || cfg.accessTTL <= gap
  {
    hide Base, Next, TokensIssued, OthersBacked, Canonical, TrimSpace, HasAdmin;
    if Canonical(path) || cfg.refreshTTL < gap || cfg.accessTTL <= gap {
      forall ss: seq<Sys>, steps: seq<Step>
        | IsRun(cfg, ss, steps) && Paced(steps, lag, gap) && OnlyPath(steps, path) && TokensIssued(cfg, ss, steps) && steps != []
        ensures HasAdmin(ss[|steps|].users)
      {
        if cfg.accessTTL <= gap {
          ShortTokensChangeNothing(cfg, ss, steps, lag, gap, |steps|);
        } else {
          OnePathKeepsAdmin(cfg, ss, steps, lag, gap, path, |steps|);
        }
      }
    } else {
      var r := OtherSpellingDeletesSelf(cfg, path, lag, gap);
      LastState(cfg, r);
    }
  }

  // ---------------------------------------------------------------- when an admin remains

  const ID_A := Sample('a')
  const ID_B := Sample('b')
  const A := FirstAdmin(ID_A)
  const B := User(ID_B, "b@b", "b", "password", true, Admin)
  const BOTH := map[ID_A := A, ID_B := B]

  ghost predicate Lost(cfg: Config, r: Run, lag: nat, gap: nat) {
    Fair(cfg, r, lag, gap) && CanonicalPaths(r.1) && r.1 != [] && !HasAdmin(Last(r).users)
  }

  lemma Cast()
    ensures ID_A != ID_B && CanonicalUuid(ID_A) && CanonicalUuid(ID_B) && CanLogin(BOTH, A) && CanLogin(BOTH, B)
    ensures ID_A != "" && ID_B != ""
  {
    hide NormalizeEmail;
    Normal();
    assert ID_A[35] != ID_B[35];
  }

  lemma DoCreateB(cfg: Config, r: Run, dt: nat, token: Token, key: string, end: int, lag: nat, gap: nat, now: int, drawn: set<string>) returns (r': Run)
    requires Scene(cfg, r, lag, gap, now, map[ID_A := A], drawn) && gap <= dt && Held(cfg, r, token) && Acts(Last(r), token, A, key, end, now + dt)
    ensures Scene(cfg, r', lag, gap, now + dt, BOTH, drawn) && KeepsIndexEnds(Last(r), Last(r'))
  {
    hide Handle, Fair, Acts, Has, DueBy, Listed, IndexEnds, CanonicalUuid, CanLogin, NormalizeEmail, TrimSpace;
    FairParts(cfg, r, lag, gap);
    Cast();
    Normal();
    CreateStep(cfg, Last(r), dt, token, A, key, end, B, now, map[ID_A := A], drawn);
    r' := Extend(cfg, r, Step(dt, CreateUser(token, ID_B, "b@b", "b", "password", Admin, None)), lag, gap);
    assert map[ID_A := A][ID_B := B] == BOTH;
  }

  /** The first admin signs in and makes a second one. */
  lemma SecondAdmin(cfg: Config, lag: nat, gap: nat) returns (r: Run)
    requires 0 < cfg.refreshTTL && gap <= cfg.refreshTTL && gap + 999 < cfg.accessTTL
    ensures Scene(cfg, r, lag, gap, 3 * gap, BOTH, {"w"}) && IndexEnds(Last(r), ID_A, 2 * gap + ExpireMillis(cfg.refreshTTL))
  {
    hide Fair, CanonicalUuid, CanLogin, Has, DueBy, Listed, IndexEnds, Held, Expiry, Last, ExpireMillis;
    Cast();
    var r1 := Installed(cfg, 0, ID_A, lag, gap);
    NoIndexEnds(Last(r1), ID_A, gap);
    var r2 := DoLogin(cfg, r1, gap, A, "w", 0, lag, gap, gap, map[ID_A := A], {});
    assert IndexEnds(Last(r2), ID_A, Max(gap, 2 * gap + ExpireMillis(cfg.refreshTTL)));
    TokenInTime(cfg, 2 * gap, 3 * gap);
    assert {} + {"w"} == {"w"};
    r := DoCreateB(cfg, r2, gap, TokenAt(cfg, A, "w", "w", 2 * gap), "w", 2 * gap + cfg.refreshTTL, lag, gap, 2 * gap, {"w"});
    ExpireAtLeast(cfg.refreshTTL);
  }

  lemma ExpireAtLeast(ttl: int)
    ensures 0 < ttl ==> 1000 <= ExpireMillis(ttl)
  {
  }

  /** The second admin deletes the first by a token issued at `issued`; the wipe misses `x`. */
  lemma FirstDeleted(cfg: Config, r: Run, dt: nat, issued: int, end: int, key: string, endX: int, lag: nat, gap: nat, now: int, drawn: set<string>) returns (r': Run)
    requires Scene(cfg, r, lag, gap, now, BOTH, drawn) && gap <= dt && Held(cfg, r, TokenAt(cfg, B, "z", "z", issued))
    requires Has(Last(r), "z", B, "z", end) && now + dt <= end && now + dt - issued + 999 < cfg.accessTTL
    requires Has(Last(r), "x", A, key, endX) && now + dt <= endX && Missed(Last(r), ID_A, "x", now + dt)
    ensures Scene(cfg, r', lag, gap, now + dt, map[ID_B := B], drawn) && StillHeld(cfg, r, r') && Has(Last(r'), "x", A, key, endX)
  {
    hide Fair, CanonicalUuid, CanLogin, Has, Missed, Held, Expiry, Last;
    Cast();
    TokenInTime(cfg, issued, now + dt);
    r' := DoDelete(cfg, r, dt, TokenAt(cfg, B, "z", "z", issued), B, "z", end, ID_A, lag, gap, now, BOTH, drawn);
    assert BOTH - {ID_A} == map[ID_B := B];
  }

  /** Then `x` deletes the second. */
  lemma SecondDeleted(cfg: Config, r: Run, dt: nat, issued: int, key: string, endX: int, lag: nat, gap: nat, now: int, drawn: set<string>) returns (r': Run)
    requires Scene(cfg, r, lag, gap, now, map[ID_B := B], drawn) && gap <= dt && Held(cfg, r, TokenAt(cfg, A, "x", key, issued)) && key != ""
    requires Has(Last(r), "x", A, key, endX) && now + dt <= endX && now + dt - issued + 999 < cfg.accessTTL
    ensures Lost(cfg, r', lag, gap)
  {
    hide Fair, CanonicalUuid, CanLogin, Has, Missed, Held, Expiry, Last;
    Cast();
    TokenInTime(cfg, issued, now + dt);
    r' := DoDelete(cfg, r, dt, TokenAt(cfg, A, "x", key, issued), A, key, endX, ID_B, lag, gap, now, map[ID_B := B], drawn);
    assert map[ID_B := B] - {ID_B} == map[];
  }

  /** `x` uses the token of its login. */
  lemma PrunedOldToken(cfg: Config, lag: nat, gap: nat) returns (r: Run)
    requires 0 < cfg.refreshTTL && 2 * gap <= lag && 4 * gap <= cfg.refreshTTL && 4 * gap + 999 < cfg.accessTTL && cfg.refreshTTL - lag + 2 * gap + 999 < cfg.accessTTL
    ensures Lost(cfg, r, lag, gap)
  {
    hide Fair, CanonicalUuid, CanLogin, Has, DueBy, Listed, IndexEnds, Held, Expiry, Last, ExpireMillis;
    Cast();
    var ttl, late := cfg.refreshTTL, Min(lag, cfg.refreshTTL - 2 * gap);
    var r3 := SecondAdmin(cfg, lag, gap);
    var r4 := DoLogin(cfg, r3, gap, A, "x", late, lag, gap, 3 * gap, BOTH, {"w"});
    var now := 4 * gap + late;
    var r5 := DoLogin(cfg, r4, gap, B, "z", 0, lag, gap, now, BOTH, {"w"} + {"x"});
    var r6 := DoLogin(cfg, r5, ttl - late - gap, A, "y", 0, lag, gap, now + gap, BOTH, {"w"} + {"x"} + {"z"});
    assert Has(Last(r6), "x", A, "x", now + ttl) && Has(Last(r6), "z", B, "z", now + gap + ttl) && !Listed(Last(r6).proto.store, ID_A, "x");
    var drawn := {"w"} + {"x"} + {"z"} + {"y"};
    var r7 := FirstDeleted(cfg, r6, gap, now + gap, now + gap + ttl, "x", now + ttl, lag, gap, 4 * gap + ttl, drawn);
    r := SecondDeleted(cfg, r7, gap, now, "x", now + ttl, lag, gap, 5 * gap + ttl, drawn);
  }

  /** Both tokens are issued just before the login that prunes `x`. */
  lemma PrunedFreshTokens(cfg: Config, lag: nat, gap: nat) returns (r: Run)
    requires 0 < cfg.refreshTTL && 2 * gap <= lag && 5 * gap <= cfg.refreshTTL && 2 * gap + Max(gap, 1) + 999 < cfg.accessTTL
    ensures Lost(cfg, r, lag, gap)
  {
    hide Fair, CanonicalUuid, CanLogin, Has, DueBy, Listed, IndexEnds, Held, Expiry, Last, ExpireMillis;
    Cast();
    var ttl, u := cfg.refreshTTL, Max(gap, 1);
    var r3 := SecondAdmin(cfg, lag, gap);
    var r4 := DoLogin(cfg, r3, gap, A, "x", 2 * gap, lag, gap, 3 * gap, BOTH, {"w"});
    var due, end := 4 * gap + ttl, 6 * gap + ttl;
    var r5 := DoLogin(cfg, r4, ttl - 3 * gap - u, B, "z", 0, lag, gap, 6 * gap, BOTH, {"w"} + {"x"});
    var issuedZ := due - u - gap;
    assert Has(Last(r5), "x", A, "x", end) && DueBy(Last(r5), ID_A, "x", due);
    var r6 := DoRefresh(cfg, r5, gap, A, "x", "x", "q", end, lag, gap, issuedZ, BOTH, {"w"} + {"x"} + {"z"});
    assert Has(Last(r6), "z", B, "z", issuedZ + ttl) && DueBy(Last(r6), ID_A, "x", due);
    var r7 := DoLogin(cfg, r6, u, A, "y", 0, lag, gap, due - u, BOTH, {"w"} + {"x"} + {"z"} + {"q"});
    assert Has(Last(r7), "x", A, "q", end) && Has(Last(r7), "z", B, "z", issuedZ + ttl) && !Listed(Last(r7).proto.store, ID_A, "x");
    var drawn := {"w"} + {"x"} + {"z"} + {"q"} + {"y"};
    var r8 := FirstDeleted(cfg, r7, gap, issuedZ, issuedZ + ttl, "q", end, lag, gap, due, drawn);
    r := SecondDeleted(cfg, r8, gap, due - u, "q", end, lag, gap, due + gap, drawn);
  }

  /** The second admin's token is issued before the login that prunes `x`, and that of `x` after the first removal. */
  lemma PrunedRenewedLate(cfg: Config, lag: nat, gap: nat) returns (r: Run)
    requires 0 < cfg.refreshTTL && Max(3 * gap, 1) <= lag && 5 * gap <= cfg.refreshTTL && 2 * gap + 999 < cfg.accessTTL
    ensures Lost(cfg, r, lag, gap)
  {
    hide Fair, CanonicalUuid, CanLogin, Has, DueBy, Listed, IndexEnds, Held, Expiry, Last, ExpireMillis;
    Cast();
    var ttl, late := cfg.refreshTTL, Max(3 * gap, 1);
    var r3 := SecondAdmin(cfg, lag, gap);
    var r4 := DoLogin(cfg, r3, gap, A, "x", late, lag, gap, 3 * gap, BOTH, {"w"});
    var due, end := 4 * gap + ttl, 4 * gap + late + ttl;
    var r5 := DoLogin(cfg, r4, ttl - gap - late, B, "z", 0, lag, gap, 4 * gap + late, BOTH, {"w"} + {"x"});
    assert Has(Last(r5), "x", A, "x", end) && DueBy(Last(r5), ID_A, "x", due);
    var r6 := DoLogin(cfg, r5, gap, A, "y", 0, lag, gap, due - gap, BOTH, {"w"} + {"x"} + {"z"});
    assert Has(Last(r6), "x", A, "x", end) && Has(Last(r6), "z", B, "z", due - gap + ttl) && !Listed(Last(r6).proto.store, ID_A, "x");
    var drawn := {"w"} + {"x"} + {"z"} + {"y"};
    var r7 := FirstDeleted(cfg, r6, gap, due - gap, due - gap + ttl, "x", end, lag, gap, due, drawn);
    var r8 := DoRefresh(cfg, r7, gap, A, "x", "x", "q", end, lag, gap, due + gap, map[ID_B := B], drawn);
    r := SecondDeleted(cfg, r8, gap, due + 2 * gap, "q", end, lag, gap, due + 2 * gap, drawn + {"q"});
  }

  /** Both tokens are issued after the login that prunes `x`. */
  lemma PrunedLateTokens(cfg: Config, lag: nat, gap: nat) returns (r: Run)
    requires 0 < cfg.refreshTTL && Max(4 * gap, 1) <= lag && 5 * gap <= cfg.refreshTTL && gap + 999 < cfg.accessTTL
    ensures Lost(cfg, r, lag, gap)
  {
    hide Fair, CanonicalUuid, CanLogin, Has, DueBy, Listed, IndexEnds, Held, Expiry, Last, ExpireMillis;
    Cast();
    var ttl, late := cfg.refreshTTL, Max(4 * gap, 1);
    var r3 := SecondAdmin(cfg, lag, gap);
    var r4 := DoLogin(cfg, r3, gap, A, "x", late, lag, gap, 3 * gap, BOTH, {"w"});
    var due, end := 4 * gap + ttl, 4 * gap + late + ttl;
    var r5 := DoLogin(cfg, r4, ttl - late, A, "y", 0, lag, gap, 4 * gap + late, BOTH, {"w"} + {"x"});
    assert Has(Last(r5), "x", A, "x", end) && !Listed(Last(r5).proto.store, ID_A, "x");
    var r6 := DoLogin(cfg, r5, gap, B, "z", 0, lag, gap, due, BOTH, {"w"} + {"x"} + {"y"});
    assert Has(Last(r6), "x", A, "x", end) && !Listed(Last(r6).proto.store, ID_A, "x");
    var drawn := {"w"} + {"x"} + {"y"} + {"z"};
    var r7 := FirstDeleted(cfg, r6, gap, due + gap, due + gap + ttl, "x", end, lag, gap, due + gap, drawn);
    var r8 := DoRefresh(cfg, r7, gap, A, "x", "x", "q", end, lag, gap, due + 2 * gap, map[ID_B := B], drawn);
    r := SecondDeleted(cfg, r8, gap, due + 3 * gap, "q", end, lag, gap, due + 3 * gap, drawn + {"q"});
  }

  /** The index expires before `x` does; both admins use the tokens of their logins. */
  lemma LapsedOldTokens(cfg: Config, lag: nat, gap: nat) returns (r: Run)
    requires 0 < cfg.refreshTTL && gap < Cut(cfg.refreshTTL) && ExpireMillis(cfg.refreshTTL) + 1 + gap + 999 < cfg.accessTTL
    ensures Lost(cfg, r, lag, gap)
  {
    hide Fair, CanonicalUuid, CanLogin, Has, DueBy, Listed, IndexEnds, Held, Expiry, Last, ExpireMillis;
    Cast();
    var ttl, m := cfg.refreshTTL, ExpireMillis(cfg.refreshTTL);
    ExpireAtLeast(ttl);
    var r3 := SecondAdmin(cfg, lag, gap);
    var r4 := DoLogin(cfg, r3, gap, B, "z", 0, lag, gap, 3 * gap, BOTH, {"w"});
    assert IndexEnds(Last(r4), ID_A, 2 * gap + m);
    var r5 := DoLogin(cfg, r4, gap, A, "x", 0, lag, gap, 4 * gap, BOTH, {"w"} + {"z"});
    assert IndexEnds(Last(r5), ID_A, Max(2 * gap + m, 5 * gap + m)) && Has(Last(r5), "z", B, "z", 4 * gap + ttl);
    var drawn := {"w"} + {"z"} + {"x"};
    LaterMiss(Last(r5), ID_A, "x", 5 * gap + m, 5 * gap + m + 1);
    var r6 := FirstDeleted(cfg, r5, m + 1, 4 * gap, 4 * gap + ttl, "x", 5 * gap + ttl, lag, gap, 5 * gap, drawn);
    r := SecondDeleted(cfg, r6, gap, 5 * gap, "x", 5 * gap + ttl, lag, gap, 5 * gap + m + 1, drawn);
  }

  /** The index expires before `x` does; both tokens are issued just before. */
  lemma LapsedFreshTokens(cfg: Config, lag: nat, gap: nat) returns (r: Run)
    requires 0 < cfg.refreshTTL && Max(gap, 1) < Cut(cfg.refreshTTL) && 4 * gap <= cfg.refreshTTL && 2 * gap + 999 < cfg.accessTTL
    ensures Lost(cfg, r, lag, gap)
  {
    hide Fair, CanonicalUuid, CanLogin, Has, DueBy, Listed, IndexEnds, Held, Expiry, Last, ExpireMillis;
    Cast();
    var ttl, cut := cfg.refreshTTL, ExpireMillis(cfg.refreshTTL);
    var m, end := Max(cut + 1, 3 * gap), 4 * gap + cfg.refreshTTL;
    ExpireAtLeast(ttl);
    var r3 := SecondAdmin(cfg, lag, gap);
    var r4 := DoLogin(cfg, r3, gap, A, "x", 0, lag, gap, 3 * gap, BOTH, {"w"});
    assert IndexEnds(Last(r4), ID_A, Max(2 * gap + cut, 4 * gap + cut));
    var t := 4 * gap + m;
    var r5 := DoLogin(cfg, r4, m - 2 * gap, B, "z", 0, lag, gap, 4 * gap, BOTH, {"w"} + {"x"});
    assert Has(Last(r5), "x", A, "x", end) && IndexEnds(Last(r5), ID_A, 4 * gap + cut);
    var r6 := DoRefresh(cfg, r5, gap, A, "x", "x", "q", end, lag, gap, t - 2 * gap, BOTH, {"w"} + {"x"} + {"z"});
    assert Has(Last(r6), "z", B, "z", t - 2 * gap + ttl) && IndexEnds(Last(r6), ID_A, 4 * gap + cut);
    var drawn := {"w"} + {"x"} + {"z"} + {"q"};
    LaterMiss(Last(r6), ID_A, "x", 4 * gap + cut, t);
    var r7 := FirstDeleted(cfg, r6, gap, t - 2 * gap, t - 2 * gap + ttl, "q", end, lag, gap, t - gap, drawn);
    r := SecondDeleted(cfg, r7, gap, t - gap, "q", end, lag, gap, t, drawn);
  }

  /** The index expires before `x` does, whose token is issued after the first removal. */
  lemma LapsedRenewedLate(cfg: Config, lag: nat, gap: nat) returns (r: Run)
    requires 0 < cfg.refreshTTL && Max(2 * gap, 1) < Cut(cfg.refreshTTL) && 4 * gap <= cfg.refreshTTL && gap + 999 < cfg.accessTTL
    ensures Lost(cfg, r, lag, gap)
  {
    hide Fair, CanonicalUuid, CanLogin, Has, DueBy, Listed, IndexEnds, Held, Expiry, Last, ExpireMillis;
    Cast();
    var ttl, cut := cfg.refreshTTL, ExpireMillis(cfg.refreshTTL);
    var m, end := Max(cut + 1, 2 * gap), 4 * gap + cfg.refreshTTL;
    ExpireAtLeast(ttl);
    var r3 := SecondAdmin(cfg, lag, gap);
    var r4 := DoLogin(cfg, r3, gap, A, "x", 0, lag, gap, 3 * gap, BOTH, {"w"});
    assert IndexEnds(Last(r4), ID_A, Max(2 * gap + cut, 4 * gap + cut));
    var t := 4 * gap + m;
    var r5 := DoLogin(cfg, r4, m - gap, B, "z", 0, lag, gap, 4 * gap, BOTH, {"w"} + {"x"});
    assert Has(Last(r5), "x", A, "x", end) && IndexEnds(Last(r5), ID_A, 4 * gap + cut);
    var drawn := {"w"} + {"x"} + {"z"};
    LaterMiss(Last(r5), ID_A, "x", 4 * gap + cut, t);
    var r6 := FirstDeleted(cfg, r5, gap, t - gap, t - gap + ttl, "x", end, lag, gap, t - gap, drawn);
    var r7 := DoRefresh(cfg, r6, gap, A, "x", "x", "q", end, lag, gap, t, map[ID_B := B], drawn);
    r := SecondDeleted(cfg, r7, gap, t + gap, "q", end, lag, gap, t + gap, drawn + {"q"});
  }

  /** Wherever the schedule of a loss fits with a second to spare on the tokens, there is a run
      that ends without an admin. */
  lemma LosingRun(cfg: Config, lag: nat, gap: nat) returns (r: Run)
    requires 0 < cfg.refreshTTL && LosesAdmin(cfg.refreshTTL, cfg.accessTTL - 999, lag, gap)
    ensures Lost(cfg, r, lag, gap)
  {
    hide Lost, Cut, ExpireMillis;
    var ttl, access := cfg.refreshTTL, cfg.accessTTL - 999;
    if 2 * gap <= lag && 4 * gap <= ttl && 4 * gap < access && ttl - lag + 2 * gap < access {
      r := PrunedOldToken(cfg, lag, gap);
    } else if 2 * gap <= lag && 5 * gap <= ttl && 2 * gap + Max(gap, 1) < access {
      r := PrunedFreshTokens(cfg, lag, gap);
    } else if Max(3 * gap, 1) <= lag && 5 * gap <= ttl && 2 * gap < access {
      r := PrunedRenewedLate(cfg, lag, gap);
    } else if Max(4 * gap, 1) <= lag && 5 * gap <= ttl && gap < access {
      r := PrunedLateTokens(cfg, lag, gap);
    } else if gap < Cut(ttl) && ExpireMillis(ttl) + 1 + gap < access {
      r := LapsedOldTokens(cfg, lag, gap);
    } else if Max(gap, 1) < Cut(ttl) && 4 * gap <= ttl && 2 * gap < access {
      r := LapsedFreshTokens(cfg, lag, gap);
    } else {
      r := LapsedRenewedLate(cfg, lag, gap);
    }
  }

  /** An active admin is there after every run at the pace, on canonical paths and with tokens
      that the run issues. */
  ghost predicate AdminKept(cfg: Config, lag: nat, gap: nat) {
    forall ss: seq<Sys>, steps: seq<Step> ::
      IsRun(cfg, ss, steps) && Paced(steps, lag, gap) && CanonicalPaths(steps) && TokensIssued(cfg, ss, steps) && steps != [] ==>
        HasAdmin(ss[|steps|].users)
  }

  /** That is so where the schedule of a loss does not fit, and not so where it fits with a
      second to spare on the tokens. */
  lemma AdminKeptBounds(cfg: Config, lag: nat, gap: nat)
    requires 0 < cfg.refreshTTL
    ensures !LosesAdmin(cfg.refreshTTL, cfg.accessTTL, lag, gap) ==> AdminKept(cfg, lag, gap)
    ensures AdminKept(cfg, lag, gap) ==> !LosesAdmin(cfg.refreshTTL, cfg.accessTTL - 999, lag, gap)
  {
    hide Next, TokensIssued, HasAdmin, LosesAdmin;
    if !LosesAdmin(cfg.refreshTTL, cfg.accessTTL, lag, gap) {
      forall ss: seq<Sys>, steps: seq<Step>
        | IsRun(cfg, ss, steps) && Paced(steps, lag, gap) && CanonicalPaths(steps) && TokensIssued(cfg, ss, steps) && steps != []
        ensures HasAdmin(ss[|steps|].users)
      {
        AlwaysAnActiveAdmin(cfg, ss, steps, lag, gap, |steps|);
      }
    }
    if LosesAdmin(cfg.refreshTTL, cfg.accessTTL - 999, lag, gap) {
      var r := LosingRun(cfg, lag, gap);
      LastState(cfg, r);
    }
  }

  /** Exactly when the schedule of a loss does not fit, unless it fits by less than the second to
      which token dates are cut. */
  lemma AdminKeptIff(cfg: Config, lag: nat, gap: nat)
    requires 0 < cfg.refreshTTL
    requires LosesAdmin(cfg.refreshTTL, cfg.accessTTL, lag, gap) ==> LosesAdmin(cfg.refreshTTL, cfg.accessTTL - 999, lag, gap)
    ensures AdminKept(cfg, lag, gap) <==> !LosesAdmin(cfg.refreshTTL, cfg.accessTTL, lag, gap)
  {
    hide AdminKept, LosesAdmin;
    AdminKeptBounds(cfg, lag, gap);
  }

  /** For sessions of at least five gaps and tokens of more than three and a second, as the
      shipped 720 hours and 15 minutes are for any gap up to four minutes: exactly when no login
      lags by two gaps and EXPIRE cuts at most one gap off the sessions' lifetime. */
  lemma AdminKeptIffGuarded(cfg: Config, lag: nat, gap: nat)
    requires 0 < cfg.refreshTTL && 5 * gap <= cfg.refreshTTL && 2 * gap + Max(gap, 1) + 999 < cfg.accessTTL
    ensures AdminKept(cfg, lag, gap) <==> lag < 2 * gap && Cut(cfg.refreshTTL) <= gap
  {
    hide AdminKept;
    AdminKeptBounds(cfg, lag, gap);
  }
}
