/** What the admin handlers mean for the people they act on: how they can sign in next, and
    whom the middleware then sees. */
module AccountTheorems {
  import opened Entities
  import opened SessionStore
  import opened SessionProtocol
  import opened Middleware
  import opened Text
  import opened Uuid
  import opened AuthSystem
  import opened AuthTheorems
  import opened AdminTheorems
  import opened RequestTheorems

  /** The values that a login draws, and how long after its clock reading it commits. */
  datatype Drawn = Drawn(sid: string, digest: string, jti: string, lag: nat)

  predicate Usable(cfg: Config, s: State, d: Drawn) {
    && d.sid != "" && d.digest != "" && d.jti != "" && 0 < cfg.refreshTTL
    && d.sid !in s.drawnSids && d.digest !in s.drawnDigests && d.jti !in s.drawnJTIs
  }

  /** Signing in with an e-mail that normalizes to the row's and with any password: it works
      exactly for an active user and the row's password, and then, while the token lasts, every
      route decides for the person that the row describes, and the digest that was drawn is the
      refresh key of the session. */
  ghost predicate SignsInAs(cfg: Config, sys: Sys, row: User, email: string, password: string, d: Drawn, allowed: set<Role>)
  {
    var out := HandleLogin(cfg, sys, email, password, d.sid, d.digest, d.jti, d.lag);
    && (out.1.Issued? <==> row.active && password == row.password)
    && (!out.1.Issued? ==> out == (sys, Unauthenticated))
    && (out.1.Issued? ==>
          && out.1.token.expiresAt == Expiry(cfg, out.0.proto.now) && out.0.proto.now == sys.proto.now + d.lag
          && Writes(sys.proto.store, out.0.proto.store, sys.proto.now, out.0.proto.now, row, d.sid, d.digest, d.jti, cfg.refreshTTL)
          && Required(out.0.proto.store, out.0.proto.now, out.1.token, allowed) ==
               if out.1.token.expiresAt <= out.0.proto.now then Unauthorized
               else if row.role in allowed then Allow(Principal(row.id, row.email, row.remark, row.role, d.sid))
               else Forbidden)
  }

  /** What the middleware makes of a session that a login has just written. */
  lemma WrittenDecides(st: Store, st': Store, clock: int, now: int, row: User, d: Drawn, ttl: int, token: Token, allowed: set<Role>)
    requires Writes(st, st', clock, now, row, d.sid, d.digest, d.jti, ttl) && row.active && row.role.Valid() && row.id != "" && d.sid != "" && d.jti != ""
    requires token.userID == row.id && token.sessionID == d.sid && token.accessJTI == d.jti
    ensures Required(st', now, token, allowed) ==
      if token.expiresAt <= now then Unauthorized
      else if row.role in allowed then Allow(Principal(row.id, row.email, row.remark, row.role, d.sid))
      else Forbidden
  {
    hide Unexpired, Listed;
  }

  lemma LoginDecides(cfg: Config, sys: Sys, row: User, email: string, password: string, d: Drawn, allowed: set<Role>)
    requires Usable(cfg, sys.proto, d) && RowsOk(sys.users)
    requires row.id in sys.users && sys.users[row.id] == row
    requires NormalizeEmail(email) == row.email != "" && 0 < |password| <= 1024
    ensures SignsInAs(cfg, sys, row, email, password, d, allowed)
  {
    assert row.id != "";
    hide DoCreate, NormalizeEmail, Expiry, CanonicalUuid, Writes, Required;
    assert FindByEmail(sys.users, row.email) == Some(row);
    CreateDoes(sys.proto, row, d.sid, d.digest, d.jti, cfg.refreshTTL, d.lag);
    var out := HandleLogin(cfg, sys, email, password, d.sid, d.digest, d.jti, d.lag);
    if row.active && row.password == password {
      WrittenDecides(sys.proto.store, out.0.proto.store, sys.proto.now, out.0.proto.now, row, d, cfg.refreshTTL, out.1.token, allowed);
    }
  }

  /** What an update makes of a row. */
  function Updated(row: User, email: Option<string>, remark: Option<string>, password: Option<string>, role: Option<Role>): User {
    User(row.id,
         if email.Some? then NormalizeEmail(email.value) else row.email,
         if remark.Some? then TrimSpace(remark.value) else row.remark,
         if password.Some? then password.value else row.password,
         row.active,
         if role.Some? then role.value else row.role)
  }

  ghost predicate NoSessionOf(s: State, user: string) {
    forall sid :: sid in s.store.sessions ==> s.store.sessions[sid].value.session.userID != user
  }

  /** A wipe of a user all of whose sessions are listed leaves none. */
  lemma NobodyLeft(s: State, user: string)
    requires AllListed(s) && user != ""
    ensures NoSessionOf(WipeUser(s, user), user)
  {
    forall sid | sid in WipeUser(s, user).store.sessions ensures s.store.sessions[sid].value.session.userID != user {
      WipeLeaves(s, user, sid);
    }
  }

  lemma UpdateWrites(sys: Sys, who: Principal, r: Request)
    requires RowsOk(sys.users) && r.UpdateUser? && Canonical(r.path)
    requires HandleUpdate(sys, who, r.path, r.newEmail, r.newRemark, r.newPassword, r.newRole).1 == Done
    requires TrimSpace(r.path) in sys.users
    ensures var sys' := HandleUpdate(sys, who, r.path, r.newEmail, r.newRemark, r.newPassword, r.newRole).0;
      var row := Updated(sys.users[TrimSpace(r.path)], r.newEmail, r.newRemark, r.newPassword, r.newRole);
      && row.id == TrimSpace(r.path) != "" && row.role.Valid()
      && sys'.users == sys.users[row.id := row] && sys'.proto == WipeUser(sys.proto, row.id)
  {
  }

  lemma UpdateSignsOut(sys: Sys, who: Principal, r: Request)
    requires Ready(sys) && r.UpdateUser? && Canonical(r.path)
    requires HandleUpdate(sys, who, r.path, r.newEmail, r.newRemark, r.newPassword, r.newRole).1 == Done
    ensures TrimSpace(r.path) in sys.users
    ensures var sys' := HandleUpdate(sys, who, r.path, r.newEmail, r.newRemark, r.newPassword, r.newRole).0;
      var row := Updated(sys.users[TrimSpace(r.path)], r.newEmail, r.newRemark, r.newPassword, r.newRole);
      && row.id == TrimSpace(r.path) && NoSessionOf(sys'.proto, row.id) && RowsOk(sys'.users) && sys'.users == sys.users[row.id := row]
  {
    hide Inv, Updated, WipeUser, TrimSpace, NormalizeEmail, NormalUuid, IsUuid;
    assert TrimSpace(r.path) in sys.users;
    var row := Updated(sys.users[TrimSpace(r.path)], r.newEmail, r.newRemark, r.newPassword, r.newRole);
    UpdateWrites(sys, who, r);
    AdminRowsInv(sys, who, r);
    NobodyLeft(sys.proto, row.id);
  }

  /** A request that an admin makes in a run at a safe pace finds the system ready. */
  lemma AskedReady(cfg: Config, ss: seq<Sys>, steps: seq<Step>, lag: nat, gap: nat, i: nat)
    requires IsRun(cfg, ss, steps) && Paced(steps, lag, gap) && CanonicalPaths(steps) && Safe(cfg.refreshTTL, lag, gap) && i < |steps|
    ensures Ready(Asked(ss, steps, i)) && Asked(ss, steps, i).users == ss[i].users && Admissible(Asked(ss, steps, i), steps[i].request)
    ensures ss[i + 1] == Handle(cfg, Asked(ss, steps, i), steps[i].request).0
  {
    hide Handle, Pace, RowsOk, Agreement, AllListed, Inv, Adds, Renews;
    var w := Asked(ss, steps, i);
    StepHistory(cfg, ss, steps, lag, gap, i);
    RunAgreement(cfg, ss, steps, lag, gap, i);
    SubAgreement(ss[i], w.proto);
    SafeListed(w.proto, cfg.refreshTTL, lag, gap);
  }

  lemma AdminDone(cfg: Config, sys: Sys, r: Request)
    requires sys.proto.procs == map[] && NeedsAdmin(r) && Handle(cfg, sys, r).1 == Done
    ensures Admits(sys, r) && Handle(cfg, sys, r) == HandleAdmin(sys, Required(sys.proto.store, sys.proto.now, r.token, {Admin}).principal, r)
  {
  }

  lemma WaitDrawsNothing(cfg: Config, sys: Sys, dt: nat, d: Drawn)
    requires Usable(cfg, sys.proto, d)
    ensures Usable(cfg, Wait(sys, dt).proto, d) && Wait(sys, dt).users == sys.users
  {
  }

  /** In every run at a safe pace, a successful update signs the user out everywhere and leaves
      every other row as it was; and the next sign-in, whenever it comes, is decided by the new
      e-mail and password and sees the new remark and role. */
  lemma UpdateThenLogin(cfg: Config, ss: seq<Sys>, steps: seq<Step>, lag: nat, gap: nat, i: nat, dt: nat, email: string, password: string, d: Drawn, allowed: set<Role>)
    requires IsRun(cfg, ss, steps) && Paced(steps, lag, gap) && CanonicalPaths(steps) && Safe(cfg.refreshTTL, lag, gap)
    requires i < |steps| && steps[i].request.UpdateUser? && Handle(cfg, Asked(ss, steps, i), steps[i].request).1 == Done
    ensures var r := steps[i].request; var id := TrimSpace(r.path);
      && id in ss[i].users
      && var row := Updated(ss[i].users[id], r.newEmail, r.newRemark, r.newPassword, r.newRole);
         && NoSessionOf(ss[i + 1].proto, id) && ss[i + 1].users == ss[i].users[id := row]
         && (Usable(cfg, ss[i + 1].proto, d) && NormalizeEmail(email) == row.email != "" && 0 < |password| <= 1024 ==>
               SignsInAs(cfg, Wait(ss[i + 1], dt), row, email, password, d, allowed))
  {
    hide Handle, HandleUpdate, Inv, SignsInAs, Updated, Usable, RowsOk, Canonical, Ready, NormalizeEmail, TrimSpace;
    var w, r := Asked(ss, steps, i), steps[i].request;
    AskedReady(cfg, ss, steps, lag, gap, i);
    AdminDone(cfg, w, r);
    UpdateSignsOut(w, Required(w.proto.store, w.proto.now, r.token, {Admin}).principal, r);
    var row := Updated(ss[i].users[TrimSpace(r.path)], r.newEmail, r.newRemark, r.newPassword, r.newRole);
    if Usable(cfg, ss[i + 1].proto, d) && NormalizeEmail(email) == row.email != "" && 0 < |password| <= 1024 {
      WaitDrawsNothing(cfg, ss[i + 1], dt, d);
      LoginDecides(cfg, Wait(ss[i + 1], dt), row, email, password, d, allowed);
    }
  }

  /** In every run, at any pace: a created user can sign in, whenever it comes, with what the
      admin entered, up to trimming and case. */
  lemma CreateThenLogin(cfg: Config, ss: seq<Sys>, steps: seq<Step>, i: nat, dt: nat, email: string, password: string, d: Drawn, allowed: set<Role>)
    requires IsRun(cfg, ss, steps) && i < |steps| && steps[i].request.CreateUser? && Handle(cfg, Asked(ss, steps, i), steps[i].request).1 == Done
    requires Usable(cfg, ss[i + 1].proto, d) && NormalizeEmail(email) == NormalizeEmail(steps[i].request.email) && 0 < |password| <= 1024
    ensures var r := steps[i].request;
      SignsInAs(cfg, Wait(ss[i + 1], dt),
                User(r.id, NormalizeEmail(r.email), TrimSpace(r.remark), r.password, r.active != Some(false), r.role),
                email, password, d, allowed)
  {
    hide Handle, Next, Inv, RowsOk, NormalizeEmail, TrimSpace, SignsInAs, Usable, Admits, Names;
    var r := steps[i].request;
    AskedOk(cfg, ss, steps, i);
    AdminDone(cfg, Asked(ss, steps, i), r);
    CreateAnswers(cfg, ss, steps, i);
    RunQuiet(cfg, ss, steps, i + 1);
    WaitDrawsNothing(cfg, ss[i + 1], dt, d);
    LoginDecides(cfg, Wait(ss[i + 1], dt), ss[i + 1].users[r.id], email, password, d, allowed);
  }

  lemma WipedAll(s: State, s': State, user: string)
    requires AllListed(s) && Wipes(s.store, s'.store, user)
    ensures NoSessionOf(s', user)
  {
  }

  /** In every run at a safe pace, a kick that is answered Done ends every session of the user,
      and changes no row and no other user's session. */
  lemma KickSignsOut(cfg: Config, ss: seq<Sys>, steps: seq<Step>, lag: nat, gap: nat, i: nat)
    requires IsRun(cfg, ss, steps) && Paced(steps, lag, gap) && CanonicalPaths(steps) && Safe(cfg.refreshTTL, lag, gap)
    requires i < |steps| && steps[i].request.Kick? && Handle(cfg, Asked(ss, steps, i), steps[i].request).1 == Done
    ensures var id, st := TrimSpace(steps[i].request.path), Asked(ss, steps, i).proto.store;
      && id in ss[i].users && ss[i + 1].users == ss[i].users && NoSessionOf(ss[i + 1].proto, id)
      && forall x :: x in st.sessions && st.sessions[x].value.session.userID != id ==>
           x in ss[i + 1].proto.store.sessions && ss[i + 1].proto.store.sessions[x] == st.sessions[x]
  {
    hide Handle, Next, Inv, RowsOk, Agreement, TrimSpace, Canonical, Admits, Names;
    var w, r := Asked(ss, steps, i), steps[i].request;
    AskedReady(cfg, ss, steps, lag, gap, i);
    AdminDone(cfg, w, r);
    KickAnswers(cfg, ss, steps, i);
    WipedAll(w.proto, ss[i + 1].proto, TrimSpace(r.path));
  }

  /** In every run at a safe pace, a status change that is answered Done gives the row the flag
      that was asked for and leaves every other row as it was; the user is signed out everywhere,
      and its next sign-in, whenever it comes, goes by that flag and its old password. */
  lemma SetActiveThenLogin(cfg: Config, ss: seq<Sys>, steps: seq<Step>, lag: nat, gap: nat, i: nat, dt: nat, email: string, password: string, d: Drawn, allowed: set<Role>)
    requires IsRun(cfg, ss, steps) && Paced(steps, lag, gap) && CanonicalPaths(steps) && Safe(cfg.refreshTTL, lag, gap)
    requires i < |steps| && steps[i].request.SetActive? && Handle(cfg, Asked(ss, steps, i), steps[i].request).1 == Done
    ensures var r := steps[i].request; var id := TrimSpace(r.path);
      && id in ss[i].users && r.newActive.Some?
      && var row := ss[i].users[id].(active := r.newActive.value);
         && ss[i + 1].users == ss[i].users[id := row] && NoSessionOf(ss[i + 1].proto, id)
         && (Usable(cfg, ss[i + 1].proto, d) && NormalizeEmail(email) == row.email != "" && 0 < |password| <= 1024 ==>
               SignsInAs(cfg, Wait(ss[i + 1], dt), row, email, password, d, allowed))
  {
    hide Handle, Next, Inv, Agreement, NormalizeEmail, TrimSpace, SignsInAs, Usable, Admits, AllListed, Wipes, CanonicalUuid, IsUuid, NormalUuid;
    var w, r := Asked(ss, steps, i), steps[i].request;
    AskedReady(cfg, ss, steps, lag, gap, i);
    AdminDone(cfg, w, r);
    SetActiveAnswers(cfg, ss, steps, i);
    CanonicalNames(w.users, r.path);
    WipedAll(w.proto, ss[i + 1].proto, TrimSpace(r.path));
    RunQuiet(cfg, ss, steps, i + 1);
    var row := ss[i].users[TrimSpace(r.path)].(active := r.newActive.value);
    if Usable(cfg, ss[i + 1].proto, d) && NormalizeEmail(email) == row.email != "" && 0 < |password| <= 1024 {
      WaitDrawsNothing(cfg, ss[i + 1], dt, d);
      LoginDecides(cfg, Wait(ss[i + 1], dt), row, email, password, d, allowed);
    }
  }

  /** The id of the bootstrap user after a start: that of its row, if there is one. */
  ghost predicate BootstrapId(users: map<string, User>, id: string, rid: string) {
    if exists x :: x in users && users[x].email == BOOTSTRAP_EMAIL then rid in users && users[rid].email == BOOTSTRAP_EMAIL else rid == id
  }

  lemma RestartDoes(sys: Sys, id: string, password: string) returns (rid: string)
    requires RowsOk(sys.users)
    ensures BootstrapId(sys.users, id, rid)
    ensures HandleBootstrap(sys, id, password) == (Sys(WipeUser(sys.proto, rid), sys.users[rid := User(rid, BOOTSTRAP_EMAIL, "admin", password, true, Admin)]), Done)
  {
    hide WipeUser, CanonicalUuid;
    var found := FindByEmail(sys.users, BOOTSTRAP_EMAIL);
    rid := if found.Some? then found.value.id else id;
  }

  /** In every run, after every start with password `p`: the bootstrap user's row, the old one if
      there was one, is an active admin with password `p`, every other row is as it was, and of the
      user's sessions those stay that its index did not list.  Whoever signs in next with that
      e-mail needs `p`, and no earlier password will do. */
  lemma RestartThenLogin(cfg: Config, ss: seq<Sys>, steps: seq<Step>, i: nat, dt: nat, email: string, password: string, d: Drawn, allowed: set<Role>) returns (rid: string)
    requires IsRun(cfg, ss, steps) && i < |steps| && steps[i].request.Bootstrap?
    ensures BootstrapId(ss[i].users, steps[i].request.id, rid)
    ensures var row := User(rid, BOOTSTRAP_EMAIL, "admin", steps[i].request.password, true, Admin);
      && ss[i + 1].users == ss[i].users[rid := row]
      && Wipes(Asked(ss, steps, i).proto.store, ss[i + 1].proto.store, rid)
      && (Usable(cfg, ss[i + 1].proto, d) && NormalizeEmail(email) == BOOTSTRAP_EMAIL && 0 < |password| <= 1024 ==>
            SignsInAs(cfg, Wait(ss[i + 1], dt), row, email, password, d, allowed))
  {
    hide Next, Inv, NormalizeEmail, SignsInAs, Usable, Wipes, HandleBootstrap, BootstrapId, WipeUser;
    var w, r := Asked(ss, steps, i), steps[i].request;
    AskedOk(cfg, ss, steps, i);
    rid := RestartDoes(w, r.id, r.password);
    BootstrapNamed(w, r.id, rid);
    WipeDoes(w.proto, rid);
    RunQuiet(cfg, ss, steps, i + 1);
    if Usable(cfg, ss[i + 1].proto, d) && NormalizeEmail(email) == BOOTSTRAP_EMAIL && 0 < |password| <= 1024 {
      WaitDrawsNothing(cfg, ss[i + 1], dt, d);
      LoginDecides(cfg, Wait(ss[i + 1], dt), ss[i + 1].users[rid], email, password, d, allowed);
    }
  }

  lemma BootstrapNamed(sys: Sys, id: string, rid: string)
    requires RowsOk(sys.users) && CanonicalUuid(id) && BootstrapId(sys.users, id, rid)
    ensures rid != ""
  {
  }

  lemma RemovalShutsOut(cfg: Config, sys: Sys, who: Principal, r: Request, email: string, password: string, d: Drawn, dt: nat)
    requires Ready(sys) && ((r.SetActive? && r.newActive == Some(false)) || r.DeleteUser?) && Canonical(r.path)
    requires HandleAdmin(sys, who, r).1 == Done
    ensures TrimSpace(r.path) in sys.users
    ensures var sys' := HandleAdmin(sys, who, r).0;
      && NoSessionOf(sys'.proto, TrimSpace(r.path))
      && (NormalizeEmail(email) == sys.users[TrimSpace(r.path)].email ==>
            HandleLogin(cfg, Wait(sys', dt), email, password, d.sid, d.digest, d.jti, d.lag) == (Wait(sys', dt), Unauthenticated))
  {
    hide Inv, TrimSpace, NormalizeEmail, NormalUuid, IsUuid;
    var sys' := HandleAdmin(sys, who, r).0;
    NobodyLeft(sys.proto, TrimSpace(r.path));
    AdminRowsInv(sys, who, r);
    var found := FindByEmail(sys'.users, NormalizeEmail(email));
  }

  /** In every run at a safe pace, disabling or deleting a user signs it out everywhere, and it
      cannot sign in next, whenever it tries and whatever the password. */
  lemma ShutOut(cfg: Config, ss: seq<Sys>, steps: seq<Step>, lag: nat, gap: nat, i: nat, dt: nat, email: string, password: string, d: Drawn)
    requires IsRun(cfg, ss, steps) && Paced(steps, lag, gap) && CanonicalPaths(steps) && Safe(cfg.refreshTTL, lag, gap)
    requires i < |steps| && Handle(cfg, Asked(ss, steps, i), steps[i].request).1 == Done
    requires var r := steps[i].request; (r.SetActive? && r.newActive == Some(false)) || r.DeleteUser?
    ensures var id := TrimSpace(steps[i].request.path);
      && id in ss[i].users && NoSessionOf(ss[i + 1].proto, id)
      && (NormalizeEmail(email) == ss[i].users[id].email ==>
            HandleLogin(cfg, Wait(ss[i + 1], dt), email, password, d.sid, d.digest, d.jti, d.lag) == (Wait(ss[i + 1], dt), Unauthenticated))
  {
    hide Handle, HandleAdmin, HandleLogin, Inv, Canonical, Ready, NormalizeEmail, TrimSpace;
    var w, r := Asked(ss, steps, i), steps[i].request;
    AskedReady(cfg, ss, steps, lag, gap, i);
    AdminDone(cfg, w, r);
    RemovalShutsOut(cfg, w, Required(w.proto.store, w.proto.now, r.token, {Admin}).principal, r, email, password, d, dt);
  }
}
