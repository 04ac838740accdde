/** What each request answers and does, in every run: which answer is given exactly when, and
    what it leaves of sessions, refresh keys, indexes and rows. */
module RequestTheorems {
  import opened Entities
  import opened SessionStore
  import opened SessionProtocol
  import opened Middleware
  import opened Text
  import opened Uuid
  import opened AuthSystem
  import opened AuthTheorems
  import opened AdminTheorems
  import SessionTheorems

  // ---------------------------------------------------------------- the system when a request comes

  /** The longest lag of the logins. */
  ghost function LongestLag(steps: seq<Step>): (l: nat)
    ensures Paced(steps, l, 0) || exists i :: 0 <= i < |steps| && steps[i].dt < 0
  {
    if steps == [] then 0
    else
      var before, last := LongestLag(steps[..|steps| - 1]), steps[|steps| - 1].request;
      assert forall i :: 0 <= i < |steps| - 1 ==> steps[..|steps| - 1][i] == steps[i];
      if last.Login? && before < last.lag then last.lag else before
  }

  /** In every run, whatever the pace. */
  lemma AskedOk(cfg: Config, ss: seq<Sys>, steps: seq<Step>, i: nat)
    requires IsRun(cfg, ss, steps) && i < |steps|
    ensures var w := Asked(ss, steps, i);
      && Quiet(w.proto) && RowsOk(w.users) && w.users == ss[i].users && Admissible(w, steps[i].request)
      && ss[i + 1] == Handle(cfg, w, steps[i].request).0
  {
    hide Handle, Base, Adds, Renews, Rested, SubSessions, Next;
    var lag := LongestLag(steps);
    StepHistory(cfg, ss, steps, lag, 0, i);
    BaseParts(cfg, Asked(ss, steps, i), lag, 0);
  }

  lemma RunQuiet(cfg: Config, ss: seq<Sys>, steps: seq<Step>, i: nat)
    requires IsRun(cfg, ss, steps) && i < |ss|
    ensures Quiet(ss[i].proto) && RowsOk(ss[i].users)
  {
    hide Base, Next;
    var lag := LongestLag(steps);
    RunBase(cfg, ss, steps, lag, 0, i);
    BaseParts(cfg, ss[i], lag, 0);
  }

  /** What is revoked or retired stays so. */
  ghost predicate Remembers(s: State, s': State) {
    s.revoked <= s'.revoked && s.retired <= s'.retired
  }

  lemma HandleRemembers(cfg: Config, sys: Sys, r: Request)
    requires sys.proto.procs == map[]
    ensures Remembers(sys.proto, Handle(cfg, sys, r).0.proto)
  {
    hide CreateTx, RotateScript, DeleteScript, WipeScript, Advance, Wiped, NormalizeEmail, TrimSpace, IsUuid, NormalUuid, EmailTaken, Expiry, ExpireMillis;
    match r {
      case Bootstrap(_, _) =>
      case Login(_, _, _, _, _, _) =>
      case Refresh(digest, nextDigest, nextJTI) => RotateRemembers(sys.proto, digest, nextDigest, nextJTI);
      case Logout(_) =>
      case _ =>
    }
  }

  lemma RotateRemembers(s: State, digest: string, nextDigest: string, nextJTI: string)
    requires s.procs == map[]
    ensures Remembers(s, DoRotate(s, digest, nextDigest, nextJTI).0)
  {
    hide RotateScript;
  }

  lemma {:induction false} RunRemembers(cfg: Config, ss: seq<Sys>, steps: seq<Step>, i: nat, j: nat)
    requires IsRun(cfg, ss, steps) && i <= j < |ss|
    ensures Remembers(ss[i].proto, ss[j].proto)
    decreases j
  {
    hide Handle, Admissible;
    if i < j {
      RunRemembers(cfg, ss, steps, i, j - 1);
      HandleRemembers(cfg, Wait(ss[j - 1], steps[j - 1].dt), steps[j - 1].request);
    }
  }

  // ---------------------------------------------------------------- refresh

  /** The digest leads to a session with time left. */
  ghost predicate Leads(s: State, digest: string) {
    && digest != "" && digest in s.store.refresh && s.store.refresh[digest].value in s.store.sessions
    && s.now < s.store.sessions[s.store.refresh[digest].value].expireAt
  }

  /** A rotation moves the session to a new digest and a new jti and touches nothing else. */
  ghost predicate Moves(st: Store, st': Store, digest: string, nextDigest: string, nextJTI: string)
    requires digest in st.refresh && st.refresh[digest].value in st.sessions
  {
    var sid := st.refresh[digest].value;
    var c := st.sessions[sid];
    && st'.sessions == st.sessions[sid := Timed(Record(c.value.session.(accessJTI := nextJTI), nextDigest), c.expireAt)]
    && st'.refresh == (st.refresh - {digest})[nextDigest := Timed(sid, c.expireAt)]
    && st'.index == st.index
  }

  lemma RotateMoves(s: State, digest: string, nextDigest: string, nextJTI: string)
    requires s.procs == map[] && Leads(s, digest) && nextDigest != "" && nextJTI != "" && s.store.refresh[digest].value != ""
    requires s.store.sessions[s.store.refresh[digest].value].value.refreshDigest == digest
    ensures var out := DoRotate(s, digest, nextDigest, nextJTI); var sid := s.store.refresh[digest].value;
      && out.0.now == s.now && out.1 == Some(sid) && Moves(s.store, out.0.store, digest, nextDigest, nextJTI)
      && (sid, s.store.sessions[sid].value.session.accessJTI) in out.0.retired
  {
    var s1 := LookupRotate(s, 0, digest, nextDigest, nextJTI);
    var s2 := LoadRotate(s1, 0);
    assert CommitWins(s2, 0);
  }

  lemma RotateDoes(s: State, digest: string, nextDigest: string, nextJTI: string)
    requires Inv(s) && s.procs == map[]
    ensures var out := DoRotate(s, digest, nextDigest, nextJTI);
      && out.0.now == s.now
      && (out.1.Some? <==> Leads(s, digest) && nextDigest != "" && nextJTI != "")
      && (out.1.None? ==> out.0.store == s.store)
      && (out.1.Some? ==>
            && out.1.value == s.store.refresh[digest].value && Moves(s.store, out.0.store, digest, nextDigest, nextJTI)
            && (out.1.value, s.store.sessions[out.1.value].value.session.accessJTI) in out.0.retired)
  {
    hide Inv, Moves;
    if digest in s.store.refresh { RefreshPaired(s, digest); }
    if Leads(s, digest) && nextDigest != "" && nextJTI != "" { RotateMoves(s, digest, nextDigest, nextJTI); }
  }

  /** A refresh key and its session carry each other, and end together. */
  lemma RefreshPaired(s: State, digest: string)
    requires Inv(s) && digest in s.store.refresh
    ensures var sid := s.store.refresh[digest].value;
      && sid in s.store.sessions && sid != "" && s.store.sessions[sid].value.refreshDigest == digest
      && s.store.refresh[digest].expireAt == s.store.sessions[sid].expireAt
      && sid in s.born && s.store.sessions[sid].value.session.accessJTI in s.drawnJTIs && s.store.sessions[sid].value.session.userID != ""
  {
    var sid := s.store.refresh[digest].value;
    assert SessionOk(s, sid) && BirthOk(s, sid);
  }

  /** The snapshot lets its user in. */
  predicate LetsIn(session: AuthSession) { session.active && session.role.Valid() }

  lemma RefreshDoes(cfg: Config, sys: Sys, digest: string, nextDigest: string, nextJTI: string)
    requires Quiet(sys.proto)
    ensures var s, out := sys.proto, HandleRefresh(cfg, sys, digest, nextDigest, nextJTI);
      && out.0.users == sys.users && out.0.proto.now == s.now && (out.1.Issued? || out.1 == Unauthenticated)
      && (out.1.Issued? <==> Leads(s, digest) && nextDigest != "" && nextJTI != "" && LetsIn(s.store.sessions[s.store.refresh[digest].value].value.session))
      && (!(Leads(s, digest) && nextDigest != "" && nextJTI != "") ==> out.0.proto.store == s.store)
      && (!out.1.Issued? && Leads(s, digest) && nextDigest != "" && nextJTI != "" ==> EndsSession(s, out.0.proto, digest, nextDigest))
      && (out.1.Issued? ==>
            var sid := s.store.refresh[digest].value;
            var was := s.store.sessions[sid].value.session;
            && out.1.token == Token(was.userID, sid, nextJTI, Expiry(cfg, s.now)) && Moves(s.store, out.0.proto.store, digest, nextDigest, nextJTI)
            && (sid, was.accessJTI) in out.0.proto.retired)
  {
    hide Inv, DoRotate, Expiry;
    RotateDoes(sys.proto, digest, nextDigest, nextJTI);
    if Leads(sys.proto, digest) && nextDigest != "" && nextJTI != "" {
      RefreshPaired(sys.proto, digest);
      IndexesNonEmpty(sys.proto);
      MovedEnds(sys.proto, DoRotate(sys.proto, digest, nextDigest, nextJTI).0, digest, nextDigest, nextJTI);
    }
  }

  /** The session that the digest leads to is deleted, with its keys and its index entry. */
  ghost predicate EndsSession(s: State, s': State, digest: string, nextDigest: string)
    requires digest in s.store.refresh
  {
    var sid := s.store.refresh[digest].value;
    && sid in s'.revoked && s'.store.sessions == s.store.sessions - {sid} && s'.store.refresh == s.store.refresh - {digest, nextDigest}
    && IndexBut(s.store, s'.store, sid)
  }

  lemma MovedEnds(s: State, s1: State, digest: string, nextDigest: string, nextJTI: string)
    requires Leads(s, digest) && Moves(s.store, s1.store, digest, nextDigest, nextJTI) && s.store.refresh[digest].value != ""
    requires forall u :: u in s.store.index ==> s.store.index[u].value != map[]
    ensures EndsSession(s, DeleteSession(s1, s.store.refresh[digest].value), digest, nextDigest)
  {
    hide RemoveMember, IndexBut;
    var sid := s.store.refresh[digest].value;
    DeleteIndex(s1.store, sid);
    SameIndexBut(s.store, s1.store, DeleteScript(s1.store, sid), sid);
  }

  lemma SameIndexBut(st: Store, st1: Store, st': Store, sid: string)
    requires st1.index == st.index && IndexBut(st1, st', sid)
    ensures IndexBut(st, st', sid)
  {
    assert forall u, x :: Listed(st, u, x) <==> Listed(st1, u, x);
  }

  /** What the middleware decides at time `t` for a token of a session that ends at `end`. */
  function DecisionFor(session: AuthSession, token: Token, end: int, t: int, allowed: set<Role>): Decision {
    if token.expiresAt <= t || end < t then Unauthorized
    else if session.role !in allowed then Forbidden
    else Allow(Principal(session.userID, session.email, session.remark, session.role, token.sessionID))
  }

  /** In every run a refresh issues a token if and only if its digest leads to a session with
      time left whose snapshot lets its user in.  Any later moment the middleware decides for that
      token as the snapshot says, until the token or the session ends.  Every other session and
      refresh key, the indexes and the rows stay as they were.  A session whose snapshot does not
      let its user in is deleted; and where the digest leads to no session with time left nothing
      changes. */
  lemma RefreshDecides(cfg: Config, ss: seq<Sys>, steps: seq<Step>, i: nat, dt: nat, allowed: set<Role>)
    requires IsRun(cfg, ss, steps) && i < |steps| && steps[i].request.Refresh?
    ensures var w, r := Asked(ss, steps, i), steps[i].request;
      var s, s', o := w.proto, ss[i + 1].proto, Handle(cfg, w, r).1;
      && ss[i + 1].users == ss[i].users && (o.Issued? || o == Unauthenticated)
      && (o.Issued? <==> Leads(s, r.digest) && r.nextDigest != "" && r.nextJTI != "" && LetsIn(s.store.sessions[s.store.refresh[r.digest].value].value.session))
      && (!(Leads(s, r.digest) && r.nextDigest != "" && r.nextJTI != "") ==> s'.store == s.store)
      && (!o.Issued? && Leads(s, r.digest) && r.nextDigest != "" && r.nextJTI != "" ==> EndsSession(s, s', r.digest, r.nextDigest))
      && (o.Issued? ==>
            var sid := s.store.refresh[r.digest].value;
            var c := s.store.sessions[sid];
            && o.token.sessionID == sid && o.token.expiresAt % 1000 == 0 && o.token.expiresAt <= s.now + cfg.accessTTL < o.token.expiresAt + 1000
            && Moves(s.store, s'.store, r.digest, r.nextDigest, r.nextJTI)
            && Required(Wait(ss[i + 1], dt).proto.store, s.now + dt, o.token, allowed) == DecisionFor(c.value.session, o.token, c.expireAt, s.now + dt, allowed))
  {
    hide HandleRefresh, Inv, Next, Admissible, RowsOk, Expiry, EndsSession;
    var w, r := Asked(ss, steps, i), steps[i].request;
    AskedOk(cfg, ss, steps, i);
    RefreshDoes(cfg, w, r.digest, r.nextDigest, r.nextJTI);
    if Leads(w.proto, r.digest) { RefreshPaired(w.proto, r.digest); }
  }

  /** The token that a refresh replaces is refused in every later state of the run. */
  lemma RefreshReplaces(cfg: Config, ss: seq<Sys>, steps: seq<Step>, i: nat, j: nat, token: Token)
    requires IsRun(cfg, ss, steps) && i < |steps| && i < j < |ss| && steps[i].request.Refresh?
    requires Handle(cfg, Asked(ss, steps, i), steps[i].request).1.Issued?
    requires var s, digest := Asked(ss, steps, i).proto, steps[i].request.digest;
      && Leads(s, digest) && token.sessionID == s.store.refresh[digest].value
      && token.accessJTI == s.store.sessions[token.sessionID].value.session.accessJTI
    ensures !Authenticates(ss[j].proto.store, ss[j].proto.now, token)
  {
    hide HandleRefresh, Next, Admissible, RowsOk;
    var w, r := Asked(ss, steps, i), steps[i].request;
    AskedOk(cfg, ss, steps, i);
    RefreshDoes(cfg, w, r.digest, r.nextDigest, r.nextJTI);
    RunRemembers(cfg, ss, steps, i + 1, j);
    RunQuiet(cfg, ss, steps, j);
    RetiredRefused(ss[j].proto, token);
  }

  lemma RetiredRefused(s: State, token: Token)
    requires Inv(s) && (token.sessionID, token.accessJTI) in s.retired
    ensures !Authenticates(s.store, s.now, token)
  {
    assert token.sessionID in s.store.sessions ==> SessionOk(s, token.sessionID);
  }

  // ---------------------------------------------------------------- logout

  /** The indexes but for one session's entry. */
  ghost predicate IndexBut(st: Store, st': Store, sid: string) {
    forall u, x :: x != sid ==>
      && (Listed(st', u, x) <==> Listed(st, u, x))
      && (Listed(st, u, x) ==> st'.index[u].value[x] == st.index[u].value[x] && st'.index[u].expireAt == st.index[u].expireAt)
  }

  lemma DeleteIndex(st: Store, sid: string)
    requires sid in st.sessions && forall u :: u in st.index ==> st.index[u].value != map[]
    ensures IndexBut(st, DeleteScript(st, sid), sid)
  {
    var user := st.sessions[sid].value.session.userID;
    RemoveMemberLists(st, user, sid);
    hide RemoveMember;
    var st' := st.(index := RemoveMember(st.index, user, sid));
    assert DeleteScript(st, sid).index == st'.index;
    assert forall u, x :: Listed(DeleteScript(st, sid), u, x) <==> Listed(st', u, x);
  }

  lemma IndexesNonEmpty(s: State)
    requires Inv(s)
    ensures forall u :: u in s.store.index ==> s.store.index[u].value != map[]
  {
  }

  lemma DeleteDoes(s: State, sid: string)
    requires Inv(s) && sid != "" && sid in s.store.sessions
    ensures var s' := DeleteSession(s, sid);
      && sid in s'.revoked && s'.store.sessions == s.store.sessions - {sid}
      && s'.store.refresh == s.store.refresh - {s.store.sessions[sid].value.refreshDigest} && IndexBut(s.store, s'.store, sid)
  {
    hide Inv, IndexBut, RemoveMember;
    IndexesNonEmpty(s);
    DeleteIndex(s.store, sid);
  }

  /** In every run a logout is answered Done.  With a readable refresh key it deletes the session
      that the key leads to, that key and the session's index entry, and nothing else; with any
      other digest nothing changes. */
  lemma LogoutDeletes(cfg: Config, ss: seq<Sys>, steps: seq<Step>, i: nat)
    requires IsRun(cfg, ss, steps) && i < |steps| && steps[i].request.Logout?
    ensures var w, digest := Asked(ss, steps, i), steps[i].request.digest;
      && Handle(cfg, w, steps[i].request).1 == Done && ss[i + 1].users == ss[i].users
      && (digest != "" && digest in w.proto.store.refresh ==>
            var sid := w.proto.store.refresh[digest].value;
            && sid in w.proto.store.sessions && sid in ss[i + 1].proto.revoked
            && ss[i + 1].proto.store.sessions == w.proto.store.sessions - {sid}
            && ss[i + 1].proto.store.refresh == w.proto.store.refresh - {digest} && IndexBut(w.proto.store, ss[i + 1].proto.store, sid))
      && (digest == "" || digest !in w.proto.store.refresh ==> ss[i + 1] == w)
  {
    hide Next, Admissible, RowsOk, Inv, DeleteSession, IndexBut;
    var w, digest := Asked(ss, steps, i), steps[i].request.digest;
    AskedOk(cfg, ss, steps, i);
    if digest != "" && digest in w.proto.store.refresh {
      RefreshPaired(w.proto, digest);
      DeleteDoes(w.proto, w.proto.store.refresh[digest].value);
    }
  }

  /** From then on, in every later state of the run, the session is gone: no record, no refresh
      key to it, no index entry and no token of it that is accepted. */
  lemma LogoutEnds(cfg: Config, ss: seq<Sys>, steps: seq<Step>, i: nat, j: nat)
    requires IsRun(cfg, ss, steps) && i < |steps| && i < j < |ss| && steps[i].request.Logout?
    requires steps[i].request.digest != "" && steps[i].request.digest in Asked(ss, steps, i).proto.store.refresh
    ensures var sid := Asked(ss, steps, i).proto.store.refresh[steps[i].request.digest].value;
      SessionTheorems.Gone(ss[j].proto, sid) && SessionTheorems.Unlisted(ss[j].proto.store, sid)
  {
    hide Next, Inv, IndexBut, Handle;
    LogoutDeletes(cfg, ss, steps, i);
    RunRemembers(cfg, ss, steps, i + 1, j);
    RunQuiet(cfg, ss, steps, j);
    RevokedGone(ss[j].proto, Asked(ss, steps, i).proto.store.refresh[steps[i].request.digest].value);
  }

  lemma RevokedGone(s: State, sid: string)
    requires Inv(s) && sid in s.revoked
    ensures SessionTheorems.Gone(s, sid) && SessionTheorems.Unlisted(s.store, sid)
  {
    assert sid in s.store.sessions ==> SessionOk(s, sid);
    assert forall u :: Listed(s.store, u, sid) ==> MemberOk(s, u, sid);
  }

  // ---------------------------------------------------------------- login

  /** The row of an active user with this e-mail and password. */
  predicate Matches(users: map<string, User>, email: string, password: string, id: string) {
    id in users && users[id].email == NormalizeEmail(email) && users[id].active && users[id].password == password
  }

  ghost predicate Known(users: map<string, User>, email: string, password: string) {
    NormalizeEmail(email) != "" && 0 < |password| <= 1024 && exists id :: Matches(users, email, password, id)
  }

  /** A login at `clock` that commits at `now` writes the record and the refresh key of one
      session, with one end; the others only end. */
  ghost predicate Writes(st: Store, st': Store, clock: int, now: int, row: User, sid: string, digest: string, jti: string, ttl: int) {
    && st'.sessions == Unexpired(st.sessions, now)[sid := Timed(Record(NewAuthSession(row, jti), digest), now + ttl)]
    && st'.refresh == Unexpired(st.refresh, now)[digest := Timed(sid, now + ttl)]
    && Listed(st', row.id, sid) && st'.index[row.id].value[sid] == clock + ttl
  }

  lemma TxWrites(st: Store, clock: int, now: int, row: User, sid: string, digest: string, jti: string, ttl: int)
    ensures Writes(st, CreateTx(Advance(st, now), now, clock, sid, NewAuthSession(row, jti), digest, ttl), clock, now, row, sid, digest, jti, ttl)
  {
    hide Surviving;
  }

  lemma CreateDoes(s: State, row: User, sid: string, digest: string, jti: string, ttl: int, lag: nat)
    requires ValidCreate(sid, NewAuthSession(row, jti), digest, ttl)
    ensures var out := DoCreate(s, sid, NewAuthSession(row, jti), digest, ttl, lag);
      out.1 && out.0.now == s.now + lag && Writes(s.store, out.0.store, s.now, s.now + lag, row, sid, digest, jti, ttl)
  {
    hide ValidCreate, CreateTx, Advance, Writes, ExpireMillis;
    TxWrites(s.store, s.now, s.now + lag, row, sid, digest, jti, ttl);
  }

  /** The login signs in the user with this id. */
  ghost predicate SignsIn(cfg: Config, sys: Sys, out: (Sys, Outcome), r: Request, id: string)
    requires r.Login?
  {
    var now := sys.proto.now + r.lag;
    && Matches(sys.users, r.email, r.password, id) && out.1 == Issued(Token(id, r.sid, r.jti, Expiry(cfg, now))) && out.0.proto.now == now
    && Writes(sys.proto.store, out.0.proto.store, sys.proto.now, now, sys.users[id], r.sid, r.digest, r.jti, cfg.refreshTTL)
  }

  predicate DrawsNames(cfg: Config, r: Request)
    requires r.Login?
  {
    r.sid != "" && r.digest != "" && r.jti != "" && 0 < cfg.refreshTTL
  }

  lemma KnownRow(users: map<string, User>, email: string, password: string)
    requires RowsOk(users) && NormalizeEmail(email) != "" && 0 < |password| <= 1024
    ensures var found := FindByEmail(users, NormalizeEmail(email));
      && (Known(users, email, password) <==> found.Some? && found.value.active && found.value.password == password)
      && (found.Some? ==> found.value.id in users && users[found.value.id] == found.value && found.value.id != "" && found.value.role.Valid())
  {
    hide NormalizeEmail;
    var found := FindByEmail(users, NormalizeEmail(email));
    if found.Some? && found.value.active && found.value.password == password { assert Matches(users, email, password, found.value.id); }
  }

  lemma LoginDoes(cfg: Config, sys: Sys, r: Request)
    requires RowsOk(sys.users) && r.Login?
    ensures var out := HandleLogin(cfg, sys, r.email, r.password, r.sid, r.digest, r.jti, r.lag);
      var known := Known(sys.users, r.email, r.password);
      && out.0.users == sys.users && (out.1.Issued? || out.1 == Unavailable || out.1 == Unauthenticated)
      && (out.1.Issued? <==> known && DrawsNames(cfg, r)) && (out.1 == Unavailable <==> known && !DrawsNames(cfg, r))
      && (!out.1.Issued? ==> out.0.proto.store == sys.proto.store && out.0.proto.now == sys.proto.now)
      && (out.1.Issued? ==> exists id :: SignsIn(cfg, sys, out, r, id))
  {
    hide DoCreate, Writes, NormalizeEmail, Expiry, RowsOk, Known;
    if NormalizeEmail(r.email) != "" && 0 < |r.password| <= 1024 {
      KnownRow(sys.users, r.email, r.password);
      var found := FindByEmail(sys.users, NormalizeEmail(r.email));
      if Known(sys.users, r.email, r.password) {
        var row := found.value;
        if DrawsNames(cfg, r) {
          CreateDoes(sys.proto, row, r.sid, r.digest, r.jti, cfg.refreshTTL, r.lag);
          assert SignsIn(cfg, sys, HandleLogin(cfg, sys, r.email, r.password, r.sid, r.digest, r.jti, r.lag), r, row.id);
        } else {
          RefusesInvalid(sys.proto, r.sid, NewAuthSession(row, r.jti), r.digest, cfg.refreshTTL, r.lag);
        }
      }
    } else {
      NotKnown(sys.users, r.email, r.password);
    }
  }

  lemma NotKnown(users: map<string, User>, email: string, password: string)
    requires !(NormalizeEmail(email) != "" && 0 < |password| <= 1024)
    ensures !Known(users, email, password)
  {
  }

  /** In every run a login issues a token exactly for the e-mail and the password of an active
      row; it then writes that row's session, under the digest and the jti it drew, and the token
      names them.  In every other case nothing is written. */
  lemma LoginAnswers(cfg: Config, ss: seq<Sys>, steps: seq<Step>, i: nat)
    requires IsRun(cfg, ss, steps) && i < |steps| && steps[i].request.Login?
    ensures var w, r := Asked(ss, steps, i), steps[i].request;
      var o, known := Handle(cfg, w, r).1, Known(ss[i].users, r.email, r.password);
      && ss[i + 1].users == ss[i].users
      && (o.Issued? <==> known && DrawsNames(cfg, r)) && (o == Unavailable <==> known && !DrawsNames(cfg, r)) && (o == Unauthenticated <==> !known)
      && (!o.Issued? ==> ss[i + 1].proto.store == w.proto.store && ss[i + 1].proto.now == w.proto.now)
      && (o.Issued? ==> exists id :: SignsIn(cfg, w, Handle(cfg, w, r), r, id))
  {
    hide Next, HandleLogin, Inv, RowsOk, Known, SignsIn;
    AskedOk(cfg, ss, steps, i);
    LoginDoes(cfg, Asked(ss, steps, i), steps[i].request);
  }

  /** E-mails that differ at most in outer white space and the case of letters are one. */
  lemma LoginAlike(cfg: Config, sys: Sys, a: string, b: string, password: string, sid: string, digest: string, jti: string, lag: nat)
    requires Alike(a, b)
    ensures HandleLogin(cfg, sys, a, password, sid, digest, jti, lag) == HandleLogin(cfg, sys, b, password, sid, digest, jti, lag)
  {
    hide NormalizeEmail, DoCreate, Alike, Expiry;
    NormalizedAlike(a, b);
  }

  lemma RefusesInvalid(s: State, sid: string, session: AuthSession, digest: string, ttl: int, lag: nat)
    requires !ValidCreate(sid, session, digest, ttl)
    ensures var out := DoCreate(s, sid, session, digest, ttl, lag); !out.1 && out.0.store == s.store && out.0.now == s.now
  {
  }

  lemma WrittenLater(st: Store, st': Store, clock: int, now: int, row: User, sid: string, digest: string, jti: string, ttl: int, t: int)
    requires Writes(st, st', clock, now, row, sid, digest, jti, ttl)
    ensures var later := Advance(st', t);
      && (digest in later.refresh <==> t <= now + ttl) && (sid in later.sessions <==> t <= now + ttl)
      && (t <= now + ttl ==> later.refresh[digest].value == sid && later.sessions[sid] == Timed(Record(NewAuthSession(row, jti), digest), now + ttl))
  {
  }

  lemma RefreshAfterLogin(cfg: Config, sys: Sys, out: (Sys, Outcome), r: Request, id: string, dt: nat, nextDigest: string, nextJTI: string)
    requires RowsOk(sys.users) && r.Login? && SignsIn(cfg, sys, out, r, id) && DrawsNames(cfg, r) && Quiet(out.0.proto)
    requires nextDigest != "" && nextJTI != ""
    ensures Wait(out.0, dt).proto.procs == map[]
    ensures var later := Wait(out.0, dt);
      var o := HandleRefresh(cfg, later, r.digest, nextDigest, nextJTI).1;
      && (o.Issued? <==> dt < cfg.refreshTTL)
      && (o.Issued? ==> o.token == Token(id, r.sid, nextJTI, Expiry(cfg, later.proto.now)))
  {
    hide Inv, HandleRefresh, Expiry, Writes, NormalizeEmail, Advance, Moves;
    var now := sys.proto.now + r.lag;
    TickQuiet(out.0.proto, dt);
    WrittenLater(sys.proto.store, out.0.proto.store, sys.proto.now, now, sys.users[id], r.sid, r.digest, r.jti, cfg.refreshTTL, now + dt);
    RefreshDoes(cfg, Wait(out.0, dt), r.digest, nextDigest, nextJTI);
  }

  /** The digest that a login drew refreshes its session at any time before the session's end,
      and at no other; the new token is for the same user and session. */
  lemma LoginThenRefresh(cfg: Config, ss: seq<Sys>, steps: seq<Step>, i: nat, dt: nat, nextDigest: string, nextJTI: string)
    requires IsRun(cfg, ss, steps) && i < |steps| && steps[i].request.Login? && Handle(cfg, Asked(ss, steps, i), steps[i].request).1.Issued?
    requires nextDigest != "" && nextJTI != ""
    ensures Wait(ss[i + 1], dt).proto.procs == map[]
    ensures var r, token := steps[i].request, Handle(cfg, Asked(ss, steps, i), steps[i].request).1.token;
      var later := Wait(ss[i + 1], dt);
      var o := HandleRefresh(cfg, later, r.digest, nextDigest, nextJTI).1;
      && (o.Issued? <==> dt < cfg.refreshTTL)
      && (o.Issued? ==> o.token == Token(token.userID, r.sid, nextJTI, Expiry(cfg, later.proto.now)))
  {
    hide Next, Inv, Handle, HandleRefresh, Expiry, Known, Matches, Writes, RowsOk;
    var w, r := Asked(ss, steps, i), steps[i].request;
    LoginAnswers(cfg, ss, steps, i);
    AskedOk(cfg, ss, steps, i);
    RunQuiet(cfg, ss, steps, i + 1);
    var id :| SignsIn(cfg, w, Handle(cfg, w, r), r, id);
    RefreshAfterLogin(cfg, w, Handle(cfg, w, r), r, id, dt, nextDigest, nextJTI);
  }

  // ---------------------------------------------------------------- the admin routes

  /** The sessions that a user's index lists go, with their refresh keys and the index; every
      other user's stay, and so do all other sessions, refresh keys and indexes. */
  ghost predicate Wipes(st: Store, st': Store, user: string) {
    && (forall x :: x in st'.sessions <==> x in st.sessions && !Listed(st, user, x))
    && (forall x :: x in st'.sessions ==> st'.sessions[x] == st.sessions[x])
    && (forall x :: x in st.sessions && st.sessions[x].value.session.userID != user ==> x in st'.sessions)
    && (forall d :: d in st'.refresh <==> d in st.refresh && !Listed(st, user, st.refresh[d].value))
    && (forall d :: d in st'.refresh ==> st'.refresh[d] == st.refresh[d])
    && st'.index == st.index - {user}
  }

  lemma WipeDoes(s: State, user: string)
    requires Inv(s) && user != ""
    ensures Wipes(s.store, WipeUser(s, user).store, user)
  {
    hide Inv, Digests;
    var st, st' := s.store, WipeUser(s, user).store;
    forall x | x in st.sessions && st.sessions[x].value.session.userID != user ensures !Listed(st, user, x) {
      if Listed(st, user, x) { ListedOwn(s, user, x); }
    }
    forall d | d in st.refresh ensures d in st'.refresh <==> !Listed(st, user, st.refresh[d].value) { WipeKey(s, user, d); }
  }

  lemma ListedOwn(s: State, user: string, sid: string)
    requires Inv(s) && Listed(s.store, user, sid) && sid in s.store.sessions
    ensures s.store.sessions[sid].value.session.userID == user
  {
    assert MemberOk(s, user, sid) && SessionOk(s, sid);
  }

  lemma WipeKey(s: State, user: string, digest: string)
    requires Inv(s) && user != "" && digest in s.store.refresh
    ensures digest in WipeUser(s, user).store.refresh <==> !Listed(s.store, user, s.store.refresh[digest].value)
  {
    hide Inv;
    RefreshPaired(s, digest);
    var gone, sid := Wiped(s.store, user), s.store.refresh[digest].value;
    assert sid in gone ==> s.store.sessions[sid].value.refreshDigest in Digests(s.store, gone);
    if digest in Digests(s.store, gone) {
      var x :| x in gone && s.store.sessions[x].value.refreshDigest == digest;
      SessionKeyed(s, x);
    }
  }

  lemma SessionKeyed(s: State, sid: string)
    requires Inv(s) && sid in s.store.sessions
    ensures s.store.sessions[sid].value.refreshDigest in s.store.refresh && s.store.refresh[s.store.sessions[sid].value.refreshDigest].value == sid
  {
    assert SessionOk(s, sid);
  }

  /** In every run the admin routes answer Unauthenticated exactly when the token is not
      accepted, and Denied exactly when it is but its session is no admin's; then nothing changes.
      Otherwise the handler runs for the token's user. */
  lemma Admission(cfg: Config, ss: seq<Sys>, steps: seq<Step>, i: nat)
    requires IsRun(cfg, ss, steps) && i < |steps| && NeedsAdmin(steps[i].request)
    ensures var w, r := Asked(ss, steps, i), steps[i].request;
      var st, o := w.proto.store, Handle(cfg, w, r).1;
      && (o == Unauthenticated <==> !Authenticates(st, w.proto.now, r.token))
      && (o == Denied <==> Authenticates(st, w.proto.now, r.token) && st.sessions[r.token.sessionID].value.session.role != Admin)
      && (o == Unauthenticated || o == Denied ==> ss[i + 1] == w)
      && (Admits(w, r) <==> o != Unauthenticated && o != Denied)
      && (Admits(w, r) ==>
            var who := Required(st, w.proto.now, r.token, {Admin}).principal;
            who.id == r.token.userID && Handle(cfg, w, r) == HandleAdmin(w, who, r))
  {
    hide Next, HandleAdmin, Inv, RowsOk;
    AskedOk(cfg, ss, steps, i);
    var w, r := Asked(ss, steps, i), steps[i].request;
    if Admits(w, r) { AdmittedAnswers(w, Required(w.proto.store, w.proto.now, r.token, {Admin}).principal, r); }
  }

  lemma AdmittedAnswers(sys: Sys, who: Principal, r: Request)
    requires NeedsAdmin(r)
    ensures HandleAdmin(sys, who, r).1 != Unauthenticated && HandleAdmin(sys, who, r).1 != Denied
  {
    hide TrimSpace, NormalizeEmail, IsUuid, NormalUuid, EmailTaken, WipeUser;
  }

  /** The path names a row: it is a UUID, in whatever spelling, and the table has that id. */
  predicate Names(users: map<string, User>, path: string) {
    IsUuid(TrimSpace(path)) && NormalUuid(TrimSpace(path)) in users
  }

  predicate Malformed(path: string) { TrimSpace(path) != "" && !IsUuid(TrimSpace(path)) }

  lemma NothingIsUuid()
    ensures !IsUuid("")
  {
  }

  lemma CanonicalNames(users: map<string, User>, path: string)
    requires RowsOk(users) && Canonical(path)
    ensures Names(users, path) <==> TrimSpace(path) in users
  {
    if TrimSpace(path) in users { CanonicalIsNormal(TrimSpace(path)); }
  }

  /** In every run, at any pace: an admitted kick is answered Done exactly when its path names a
      row, and then wipes the user; otherwise nothing changes.  Rows never do. */
  lemma KickAnswers(cfg: Config, ss: seq<Sys>, steps: seq<Step>, i: nat)
    requires IsRun(cfg, ss, steps) && i < |steps| && steps[i].request.Kick? && Admits(Asked(ss, steps, i), steps[i].request)
    ensures var w, path := Asked(ss, steps, i), steps[i].request.path;
      var o := Handle(cfg, w, steps[i].request).1;
      && ss[i + 1].users == ss[i].users
      && (o == Done <==> Names(ss[i].users, path)) && (Canonical(path) ==> (o == Done <==> TrimSpace(path) in ss[i].users))
      && (o == BadRequest <==> TrimSpace(path) == "") && (o == Failed <==> Malformed(path))
      && (o == NotFound <==> IsUuid(TrimSpace(path)) && !Names(ss[i].users, path))
      && (o != Done ==> ss[i + 1] == w)
      && (o == Done ==> ss[i + 1].proto.now == w.proto.now && Wipes(w.proto.store, ss[i + 1].proto.store, TrimSpace(path)))
  {
    hide Next, Handle, Inv, RowsOk, Wipes, TrimSpace, IsUuid, NormalUuid, Canonical, Admits;
    var w, path := Asked(ss, steps, i), steps[i].request.path;
    Admission(cfg, ss, steps, i);
    AskedOk(cfg, ss, steps, i);
    NothingIsUuid();
    if Canonical(path) { CanonicalNames(w.users, path); }
    if TrimSpace(path) != "" { WipeDoes(w.proto, TrimSpace(path)); }
  }

  /** The same for deletions: Done exactly when the path names a row and is not the actor's own
      id; then that row goes, and no other. */
  lemma DeleteAnswers(cfg: Config, ss: seq<Sys>, steps: seq<Step>, i: nat)
    requires IsRun(cfg, ss, steps) && i < |steps| && steps[i].request.DeleteUser? && Admits(Asked(ss, steps, i), steps[i].request)
    ensures var w, r := Asked(ss, steps, i), steps[i].request;
      var o, self := Handle(cfg, w, r).1, TrimSpace(r.path) == r.token.userID;
      && (o == Done <==> Names(ss[i].users, r.path) && !self)
      && (o == BadRequest <==> TrimSpace(r.path) == "" || (Names(ss[i].users, r.path) && self)) && (o == Failed <==> Malformed(r.path))
      && (o == NotFound <==> IsUuid(TrimSpace(r.path)) && !Names(ss[i].users, r.path))
      && (o != Done ==> ss[i + 1] == w)
      && (o == Done ==>
            && ss[i + 1].users == ss[i].users - {NormalUuid(TrimSpace(r.path))}
            && ss[i + 1].proto.now == w.proto.now && Wipes(w.proto.store, ss[i + 1].proto.store, TrimSpace(r.path)))
  {
    hide Next, Handle, Inv, Wipes, TrimSpace, IsUuid, NormalUuid, Admits, CanonicalUuid;
    var w, path := Asked(ss, steps, i), steps[i].request.path;
    Admission(cfg, ss, steps, i);
    AskedOk(cfg, ss, steps, i);
    NothingIsUuid();
    if TrimSpace(path) != "" { WipeDoes(w.proto, TrimSpace(path)); }
  }

  /** The same for status changes: the named row gets the flag that was asked for. */
  lemma SetActiveAnswers(cfg: Config, ss: seq<Sys>, steps: seq<Step>, i: nat)
    requires IsRun(cfg, ss, steps) && i < |steps| && steps[i].request.SetActive? && Admits(Asked(ss, steps, i), steps[i].request)
    ensures var w, r := Asked(ss, steps, i), steps[i].request;
      var o, self, asked := Handle(cfg, w, r).1, TrimSpace(r.path) == r.token.userID, r.newActive.Some?;
      && (o == Done <==> asked && Names(ss[i].users, r.path) && !self)
      && (o == BadRequest <==> TrimSpace(r.path) == "" || !asked || (Names(ss[i].users, r.path) && self))
      && (o == Failed <==> asked && Malformed(r.path)) && (o == NotFound <==> asked && IsUuid(TrimSpace(r.path)) && !Names(ss[i].users, r.path))
      && (o != Done ==> ss[i + 1] == w)
      && (o == Done ==>
            var id := NormalUuid(TrimSpace(r.path));
            && ss[i + 1].users == ss[i].users[id := ss[i].users[id].(active := r.newActive.value)]
            && ss[i + 1].proto.now == w.proto.now && Wipes(w.proto.store, ss[i + 1].proto.store, TrimSpace(r.path)))
  {
    hide Next, Handle, Inv, Wipes, TrimSpace, IsUuid, NormalUuid, Admits, CanonicalUuid;
    var w, path := Asked(ss, steps, i), steps[i].request.path;
    Admission(cfg, ss, steps, i);
    AskedOk(cfg, ss, steps, i);
    NothingIsUuid();
    if TrimSpace(path) != "" { WipeDoes(w.proto, TrimSpace(path)); }
  }

  /** What a creation may enter. */
  predicate Acceptable(r: Request)
    requires r.CreateUser?
  {
    r.role.Valid() && NormalizeEmail(r.email) != "" && TrimSpace(r.remark) != "" && 8 <= |r.password| <= 72
  }

  predicate HasEmail(users: map<string, User>, email: string) {
    exists id :: id in users && users[id].email == email
  }

  /** In every run: an admitted creation is refused exactly for unacceptable entries, conflicts
      exactly when a row has the e-mail already, and otherwise adds the row that was entered. */
  lemma CreateAnswers(cfg: Config, ss: seq<Sys>, steps: seq<Step>, i: nat)
    requires IsRun(cfg, ss, steps) && i < |steps| && steps[i].request.CreateUser? && Admits(Asked(ss, steps, i), steps[i].request)
    ensures var w, r := Asked(ss, steps, i), steps[i].request;
      var o, taken := Handle(cfg, w, r).1, HasEmail(ss[i].users, NormalizeEmail(r.email));
      && (o == BadRequest <==> !Acceptable(r)) && (o == Conflict <==> Acceptable(r) && taken) && (o == Done <==> Acceptable(r) && !taken)
      && ss[i + 1].proto == w.proto && (o != Done ==> ss[i + 1] == w)
      && (o == Done ==>
            && r.id !in ss[i].users
            && ss[i + 1].users == ss[i].users[r.id := User(r.id, NormalizeEmail(r.email), TrimSpace(r.remark), r.password, r.active != Some(false), r.role)])
  {
    hide Next, Handle, Inv, RowsOk, TrimSpace, NormalizeEmail, Admits, CanonicalUuid;
    Admission(cfg, ss, steps, i);
    AskedOk(cfg, ss, steps, i);
  }

  /** What an update may ask for. */
  predicate Asks(r: Request)
    requires r.UpdateUser?
  {
    (r.newEmail.Some? || r.newRemark.Some? || r.newPassword.Some? || r.newRole.Some?) && (r.newRole.Some? ==> r.newRole.value.Valid())
  }

  predicate FieldsOk(r: Request)
    requires r.UpdateUser?
  {
    && (r.newEmail.Some? ==> NormalizeEmail(r.newEmail.value) != "") && (r.newRemark.Some? ==> TrimSpace(r.newRemark.value) != "")
    && (r.newPassword.Some? ==> 8 <= |r.newPassword.value| <= 72)
  }

  /** The update is for a row, with acceptable values, and is no change of the actor's own role. */
  predicate Applies(users: map<string, User>, r: Request)
    requires r.UpdateUser?
  {
    && TrimSpace(r.path) != "" && Asks(r) && Names(users, r.path) && FieldsOk(r)
    && !(r.newRole.Some? && r.newRole.value != users[NormalUuid(TrimSpace(r.path))].role && TrimSpace(r.path) == r.token.userID)
  }

  /** Another row has the e-mail that the update asks for. */
  predicate Clashes(users: map<string, User>, r: Request)
    requires r.UpdateUser?
  {
    r.newEmail.Some? && exists id :: id in users && id != NormalUuid(TrimSpace(r.path)) && users[id].email == NormalizeEmail(r.newEmail.value)
  }

  lemma UpdateClashes(users: map<string, User>, r: Request)
    requires RowsOk(users) && r.UpdateUser? && Names(users, r.path)
    ensures var row := users[NormalUuid(TrimSpace(r.path))];
      EmailTaken(users, row.id, if r.newEmail.Some? then NormalizeEmail(r.newEmail.value) else row.email) <==> Clashes(users, r)
  {
    hide IsUuid, NormalUuid, TrimSpace, NormalizeEmail, CanonicalUuid;
  }

  /** In every run: the exact condition of each answer to an admitted update.  A conflict has
      signed the user out already; any other refusal changes nothing. */
  lemma UpdateAnswers(cfg: Config, ss: seq<Sys>, steps: seq<Step>, i: nat)
    requires IsRun(cfg, ss, steps) && i < |steps| && steps[i].request.UpdateUser? && Admits(Asked(ss, steps, i), steps[i].request)
    ensures var w, r := Asked(ss, steps, i), steps[i].request;
      var o, users := Handle(cfg, w, r).1, ss[i].users;
      && (o == Done <==> Applies(users, r) && !Clashes(users, r)) && (o == Conflict <==> Applies(users, r) && Clashes(users, r))
      && (o == Failed <==> Asks(r) && Malformed(r.path)) && (o == NotFound <==> Asks(r) && IsUuid(TrimSpace(r.path)) && !Names(users, r.path))
      && (o == BadRequest <==> TrimSpace(r.path) == "" || !Asks(r) || (Names(users, r.path) && !Applies(users, r)))
      && (o == BadRequest || o == Failed || o == NotFound ==> ss[i + 1] == w)
      && (o == Conflict ==> ss[i + 1].users == users)
      && (o == Done || o == Conflict ==> ss[i + 1].proto.now == w.proto.now && Wipes(w.proto.store, ss[i + 1].proto.store, TrimSpace(r.path)))
  {
    hide Next, Handle, Inv, RowsOk, Wipes, TrimSpace, NormalizeEmail, IsUuid, NormalUuid, Admits, EmailTaken, Clashes, WipeUser;
    var w, r := Asked(ss, steps, i), steps[i].request;
    Admission(cfg, ss, steps, i);
    AskedOk(cfg, ss, steps, i);
    NothingIsUuid();
    if Names(w.users, r.path) { UpdateClashes(w.users, r); }
    WipeKeepsNow(w.proto, TrimSpace(r.path));
    if TrimSpace(r.path) != "" { WipeDoes(w.proto, TrimSpace(r.path)); }
  }

  lemma WipeKeepsNow(s: State, user: string)
    ensures WipeUser(s, user).now == s.now
  {
  }
}
