/** When an active admin remains: what a run does step by step, which tokens it issues, and
    what it takes for admins to remove each other until none is left. */
module AdminTheorems {
  import opened Entities
  import opened Numbers
  import opened SessionStore
  import opened SessionProtocol
  import opened Middleware
  import opened Text
  import opened Uuid
  import opened AuthSystem
  import opened AuthTheorems

  // ---------------------------------------------------------------- the steps of a run

  /** The system when the i-th request comes, and when it has been answered. */
  ghost function Asked(ss: seq<Sys>, steps: seq<Step>, i: int): Sys
    requires 0 <= i < |steps| < |ss| && 0 <= steps[i].dt
  {
    Wait(ss[i], steps[i].dt)
  }

  ghost function Starts(ss: seq<Sys>, steps: seq<Step>, i: int): int
    requires 0 <= i < |steps| < |ss|
  {
    ss[i].proto.now + steps[i].dt
  }

  ghost function Ends(ss: seq<Sys>, i: int): int
    requires 0 <= i < |ss| - 1
  {
    ss[i + 1].proto.now
  }

  /** Only a login takes time, and only a login adds to the history: one session, whose token
      it issues. */
  ghost predicate Adds(cfg: Config, sys: Sys, r: Request, out: (Sys, Outcome)) {
    && r.Login? && r.sid !in sys.proto.born && out.1.Issued? && out.1.token.sessionID == r.sid
    && out.1.token.expiresAt == Expiry(cfg, out.0.proto.now)
    && exists user :: out.0.proto.born == sys.proto.born[r.sid := Birth(user, sys.proto.now, out.0.proto.now, cfg.refreshTTL)]
  }

  lemma LoginHistory(cfg: Config, sys: Sys, r: Request)
    requires Quiet(sys.proto) && r.Login? && Admissible(sys, r)
    ensures var out := HandleLogin(cfg, sys, r.email, r.password, r.sid, r.digest, r.jti, r.lag);
      && sys.proto.now <= out.0.proto.now
      && (Adds(cfg, sys, r, out) || (out.0.proto.born == sys.proto.born && out.0.proto.now == sys.proto.now && !out.1.Issued?))
  {
    hide Inv, DoCreate, NormalizeEmail;
    var found := FindByEmail(sys.users, NormalizeEmail(r.email));
    if found.Some? {
      var session := NewAuthSession(found.value, r.jti);
      CreateQuiet(sys.proto, r.sid, session, r.digest, cfg.refreshTTL, r.lag);
      CreateWrites(sys.proto, r.sid, session, r.digest, cfg.refreshTTL, r.lag);
    }
  }

  /** A refresh issues a token only for a session with time left. */
  ghost predicate Renews(cfg: Config, sys: Sys, r: Request, o: Outcome) {
    && r.Refresh? && o.Issued? && o.token.expiresAt == Expiry(cfg, sys.proto.now)
    && o.token.sessionID in sys.proto.store.sessions && sys.proto.now < sys.proto.store.sessions[o.token.sessionID].expireAt
  }

  lemma RefreshHistory(cfg: Config, sys: Sys, r: Request)
    requires Quiet(sys.proto) && r.Refresh? && Admissible(sys, r)
    ensures var out := HandleRefresh(cfg, sys, r.digest, r.nextDigest, r.nextJTI);
      && SameBirths(sys.proto, out.0.proto) && out.0.proto.now == sys.proto.now
      && (out.1.Issued? ==> Renews(cfg, sys, r, out.1))
  {
    hide Inv;
    RefreshStill(cfg, sys, r);
  }

  lemma HandleHistory(cfg: Config, sys: Sys, r: Request)
    requires Quiet(sys.proto) && RowsOk(sys.users) && Admissible(sys, r)
    ensures var out := Handle(cfg, sys, r);
      && sys.proto.now <= out.0.proto.now
      && (Adds(cfg, sys, r, out)
          || (out.0.proto.born == sys.proto.born && out.0.proto.now == sys.proto.now && (out.1.Issued? ==> Renews(cfg, sys, r, out.1))))
  {
    hide Inv, RowsOk, Adds, Renews, HandleLogin, HandleRefresh;
    match r {
      case Bootstrap(id, password) => var _ := BootstrapEffect(sys, id, password);
      case Login(_, _, _, _, _, _) => LoginHistory(cfg, sys, r);
      case Refresh(_, _, _) => RefreshHistory(cfg, sys, r);
      case Logout(digest) => LogoutStill(sys, digest);
      case _ =>
        var d := Required(sys.proto.store, sys.proto.now, r.token, {Admin});
        if d.Allow? { AdminStill(sys, d.principal, r); AdminIssuesNothing(sys, d.principal, r); }
    }
  }

  lemma AdminIssuesNothing(sys: Sys, who: Principal, r: Request)
    requires NeedsAdmin(r)
    ensures !HandleAdmin(sys, who, r).1.Issued?
  {
  }

  lemma StepHistory(cfg: Config, ss: seq<Sys>, steps: seq<Step>, lag: nat, gap: nat, i: nat)
    requires IsRun(cfg, ss, steps) && Paced(steps, lag, gap) && i < |steps|
    ensures var w, r := Asked(ss, steps, i), steps[i].request;
      && Base(cfg, w, lag, gap) && Rested(w.proto, gap) && Admissible(w, r)
      && w.proto.born == ss[i].proto.born && w.proto.now == Starts(ss, steps, i) && SubSessions(ss[i].proto, w.proto)
      && ss[i + 1] == Handle(cfg, w, r).0 && Starts(ss, steps, i) <= Ends(ss, i)
      && (Adds(cfg, w, r, Handle(cfg, w, r))
          || (ss[i + 1].proto.born == w.proto.born && Ends(ss, i) == Starts(ss, steps, i)
              && (Handle(cfg, w, r).1.Issued? ==> Renews(cfg, w, r, Handle(cfg, w, r).1))))
  {
    hide Handle, Adds, Renews, Base, Rested, SubSessions;
    RunBase(cfg, ss, steps, lag, gap, i);
    WaitBase(cfg, ss[i], steps[i].dt, steps[i].request, lag, gap);
    BaseParts(cfg, Asked(ss, steps, i), lag, gap);
    HandleHistory(cfg, Asked(ss, steps, i), steps[i].request);
  }

  lemma BaseParts(cfg: Config, sys: Sys, lag: nat, gap: nat)
    requires Base(cfg, sys, lag, gap)
    ensures Quiet(sys.proto) && RowsOk(sys.users) && Pace(sys.proto, cfg.refreshTTL, lag, gap)
  {
    hide Inv, RowsOk, Pace;
  }

  lemma StepTakes(cfg: Config, ss: seq<Sys>, steps: seq<Step>, lag: nat, gap: nat, i: nat)
    requires IsRun(cfg, ss, steps) && Paced(steps, lag, gap) && i < |steps|
    ensures Starts(ss, steps, i) <= Ends(ss, i)
  {
    hide *;
    StepHistory(cfg, ss, steps, lag, gap, i);
  }

  lemma {:induction false} StepsApart(cfg: Config, ss: seq<Sys>, steps: seq<Step>, lag: nat, gap: nat, p: nat, q: nat)
    requires IsRun(cfg, ss, steps) && Paced(steps, lag, gap) && p < q < |steps|
    ensures Starts(ss, steps, p) <= Ends(ss, p) && Ends(ss, p) + gap <= Starts(ss, steps, q)
    decreases q
  {
    hide Next, Base, Admissible, InTime;
    StepTakes(cfg, ss, steps, lag, gap, p);
    StepTakes(cfg, ss, steps, lag, gap, q - 1);
    if p < q - 1 { StepsApart(cfg, ss, steps, lag, gap, p, q - 1); }
  }

  /** Births are never forgotten. */
  lemma {:induction false} BirthsKept(cfg: Config, ss: seq<Sys>, steps: seq<Step>, lag: nat, gap: nat, i: nat, j: nat, x: string)
    requires IsRun(cfg, ss, steps) && Paced(steps, lag, gap) && i <= j < |ss| && x in ss[i].proto.born
    ensures x in ss[j].proto.born && ss[j].proto.born[x] == ss[i].proto.born[x]
    decreases j
  {
    hide Next, Base;
    if i < j {
      BirthsKept(cfg, ss, steps, lag, gap, i, j - 1, x);
      StepHistory(cfg, ss, steps, lag, gap, j - 1);
    }
  }

  // ---------------------------------------------------------------- the tokens of a run

  /** The i-th request is answered with the token. */
  ghost predicate IssuesAt(cfg: Config, ss: seq<Sys>, steps: seq<Step>, i: int, token: Token)
    requires IsRun(cfg, ss, steps)
  {
    0 <= i < |steps| && Handle(cfg, Asked(ss, steps, i), steps[i].request).1 == Issued(token)
  }

  /** Every token that a request presents was issued in the run before. */
  ghost predicate TokensIssued(cfg: Config, ss: seq<Sys>, steps: seq<Step>)
    requires IsRun(cfg, ss, steps)
  {
    forall i :: 0 <= i < |steps| && NeedsAdmin(steps[i].request) ==> exists j :: j < i && IssuesAt(cfg, ss, steps, j, steps[i].request.token)
  }

  /** The login of a session is a step of the run, and issues its first token. */
  ghost predicate LoginAt(cfg: Config, ss: seq<Sys>, steps: seq<Step>, k: int, x: string)
    requires IsRun(cfg, ss, steps)
  {
    && 0 <= k < |steps| && x !in ss[k].proto.born && x in ss[k + 1].proto.born
    && ss[k + 1].proto.born[x].clock == Starts(ss, steps, k) && ss[k + 1].proto.born[x].at == Ends(ss, k)
    && exists token: Token :: token.sessionID == x && IssuesAt(cfg, ss, steps, k, token)
  }

  lemma {:induction false} BirthLogin(cfg: Config, ss: seq<Sys>, steps: seq<Step>, lag: nat, gap: nat, i: nat, x: string) returns (k: nat)
    requires IsRun(cfg, ss, steps) && Paced(steps, lag, gap) && i < |ss| && x in ss[i].proto.born
    ensures k < i && LoginAt(cfg, ss, steps, k, x) && ss[k + 1].proto.born[x] == ss[i].proto.born[x]
  {
    hide Next, Base, Handle;
    StepHistory(cfg, ss, steps, lag, gap, i - 1);
    if x in ss[i - 1].proto.born {
      k := BirthLogin(cfg, ss, steps, lag, gap, i - 1, x);
    } else {
      k := i - 1;
      assert IssuesAt(cfg, ss, steps, k, Handle(cfg, Asked(ss, steps, k), steps[k].request).1.token);
    }
  }

  /** What an issued token says of its step: a login's own end, or a time before the session's end. */
  lemma IssuedWhen(cfg: Config, ss: seq<Sys>, steps: seq<Step>, lag: nat, gap: nat, q: nat, token: Token)
    requires IsRun(cfg, ss, steps) && Paced(steps, lag, gap) && IssuesAt(cfg, ss, steps, q, token)
    ensures token.expiresAt <= Ends(ss, q) + cfg.accessTTL && token.sessionID in ss[q + 1].proto.born
    ensures token.sessionID !in ss[q].proto.born || Starts(ss, steps, q) == Ends(ss, q) < ss[q + 1].proto.born[token.sessionID].End()
  {
    hide Next, Base, Handle, Inv;
    StepHistory(cfg, ss, steps, lag, gap, q);
    var w, x := Asked(ss, steps, q), token.sessionID;
    BaseParts(cfg, w, lag, gap);
    if !Adds(cfg, w, steps[q].request, Handle(cfg, w, steps[q].request)) { ReadableBirth(w.proto, x); }
  }

  /** Where the steps that issue a session's tokens stand: at its login, or a gap after it. */
  lemma IssuedAfter(cfg: Config, ss: seq<Sys>, steps: seq<Step>, lag: nat, gap: nat, k: nat, q: nat, token: Token)
    requires IsRun(cfg, ss, steps) && Paced(steps, lag, gap) && IssuesAt(cfg, ss, steps, q, token) && LoginAt(cfg, ss, steps, k, token.sessionID)
    ensures q == k || (k < q && Ends(ss, k) + gap <= Starts(ss, steps, q) == Ends(ss, q) < ss[k + 1].proto.born[token.sessionID].End())
  {
    hide Next, Base, Handle;
    IssuedWhen(cfg, ss, steps, lag, gap, q, token);
    if q < k {
      BirthsKept(cfg, ss, steps, lag, gap, q + 1, k, token.sessionID);
    } else if k < q {
      StepsApart(cfg, ss, steps, lag, gap, k, q);
      BirthsKept(cfg, ss, steps, lag, gap, k + 1, q, token.sessionID);
      BirthsKept(cfg, ss, steps, lag, gap, k + 1, q + 1, token.sessionID);
    }
  }

  /** Steps that issue tokens of different sessions are apart. */
  lemma IssuesApart(cfg: Config, ss: seq<Sys>, steps: seq<Step>, lag: nat, gap: nat, p: nat, s: Token, q: nat, t: Token)
    requires IsRun(cfg, ss, steps) && Paced(steps, lag, gap)
    requires IssuesAt(cfg, ss, steps, p, s) && IssuesAt(cfg, ss, steps, q, t) && s.sessionID != t.sessionID
    ensures Ends(ss, p) + gap <= Starts(ss, steps, q) || Ends(ss, q) + gap <= Starts(ss, steps, p)
  {
    hide Next, Base, Handle;
    if p < q { StepsApart(cfg, ss, steps, lag, gap, p, q); } else { StepsApart(cfg, ss, steps, lag, gap, q, p); }
  }

  // ---------------------------------------------------------------- what losing the last admin takes

  /** The pace at which admins cannot remove each other, whatever tokens they present. */
  predicate Guarded(ttl: int, lag: nat, gap: nat) {
    (lag < 2 * gap || ttl < 4 * gap) && Cut(ttl) <= gap
  }

  /** Two admins remove each other although each wipe comes before its write.  It takes: login
      `x` of the first; a later login `y` of the first that prunes `x`; a token of the second, to
      remove the first, which leaves `x`; a token of `x`, to remove the second before `x` ends.
      Each line is one way to place the steps that issue the two tokens: `x` keeps the login's
      token; both are issued before `y`; the token of `x` after the first removal; both after `y`. */
  predicate PruningLoses(ttl: int, access: int, lag: nat, gap: nat) {
    || (2 * gap <= lag && 4 * gap <= ttl && 4 * gap < access && ttl - lag + 2 * gap < access)
    || (2 * gap <= lag && 5 * gap <= ttl && 2 * gap + Max(gap, 1) < access)
    || (Max(3 * gap, 1) <= lag && 5 * gap <= ttl && 2 * gap < access)
    || (Max(4 * gap, 1) <= lag && 5 * gap <= ttl && gap < access)
  }

  /** The same with an index that expires before `x` does in place of `y`: both tokens are old;
      both are issued after `x`; the token of `x` after the first removal. */
  predicate LapsingLoses(ttl: int, access: int, gap: nat) {
    || (gap < Cut(ttl) && ExpireMillis(ttl) + 1 + gap < access)
    || (Max(gap, 1) < Cut(ttl) && 4 * gap <= ttl && 2 * gap < access)
    || (Max(2 * gap, 1) < Cut(ttl) && 4 * gap <= ttl && gap < access)
  }

  predicate LosesAdmin(ttl: int, access: int, lag: nat, gap: nat) {
    PruningLoses(ttl, access, lag, gap) || LapsingLoses(ttl, access, gap)
  }

  /** From when to when a step lasts. */
  datatype Span = Span(from: int, to: int)

  predicate Apart(a: Span, b: Span, gap: nat) { a.to + gap <= b.from || b.to + gap <= a.from }

  /** The steps of such a loss: the logins `x` and `z` of the first and the second admin, the
      steps `q` and `p` that issue the tokens they use, and the two removals at `t1` and `t2`. */
  predicate Schedule(ttl: int, access: int, lag: nat, gap: nat, x: Span, z: Span, p: Span, q: Span, t1: int, t2: int) {
    && 0 < ttl && x.from <= x.to <= x.from + lag && z.from <= z.to && p.from <= p.to && q.from <= q.to
    && t1 + gap <= t2 <= x.to + ttl && t1 <= z.to + ttl
    && p.to + gap <= t1 < p.to + access && q.to + gap <= t2 < q.to + access
    && (p == z || z.to + gap <= p.from) && (q == x || x.to + gap <= q.from == q.to < x.to + ttl)
    && Apart(z, x, gap) && Apart(p, x, gap) && Apart(p, q, gap) && (q.to + gap <= t1 || t1 + gap <= q.from)
  }

  lemma PruningSchedule(ttl: int, access: int, lag: nat, gap: nat, x: Span, z: Span, p: Span, q: Span, y: Span, t1: int, t2: int)
    requires Schedule(ttl, access, lag, gap, x, z, p, q, t1, t2)
    requires y.from <= y.to && Apart(p, y, gap) && Apart(q, y, gap)
    requires x.from + ttl <= y.from && x.to + gap <= y.from && y.to + gap <= t1
    ensures PruningLoses(ttl, access, lag, gap)
  {
    if 0 < gap { assert x.to + gap <= p.from; }
  }

  lemma LapsingSchedule(ttl: int, access: int, lag: nat, gap: nat, x: Span, z: Span, p: Span, q: Span, t1: int, t2: int)
    requires Schedule(ttl, access, lag, gap, x, z, p, q, t1, t2)
    requires x.to + ttl < t1 + Cut(ttl)
    ensures LosesAdmin(ttl, access, lag, gap)
  {
  }

  // ---------------------------------------------------------------- an active admin remains

  /** A readable session whose snapshot is an active admin. */
  ghost predicate AdminSession(s: State, sid: string) {
    && sid in s.store.sessions
    && s.store.sessions[sid].value.session.active && s.store.sessions[sid].value.session.role == Admin
  }

  /** No row but the one a request names loses its admin, and never the actor's own: the
      guard on one's own id. */
  lemma ActorSurvives(sys: Sys, who: Principal, r: Request, id: string)
    requires RowsOk(sys.users) && NeedsAdmin(r) && Admissible(sys, r) && CanonicalPath(r) && IsAdmin(sys.users, id)
    requires OnUser(r) && TrimSpace(r.path) == id ==> who.id == id
    ensures IsAdmin(HandleAdmin(sys, who, r).0.users, id)
  {
    hide WipeUser, TrimSpace, NormalizeEmail, NormalUuid, IsUuid, CanonicalUuid, EmailTaken;
    match r {
      case CreateUser(_, _, _, _, _, _, _) =>
      case UpdateUser(_, _, _, _, _, _) =>
      case DeleteUser(_, _) =>
      case SetActive(_, _, _) =>
      case Kick(_, _) =>
    }
  }

  /** Who the middleware lets through as an admin has an admin session. */
  lemma ActorSession(sys: Sys, token: Token, who: Principal)
    requires Required(sys.proto.store, sys.proto.now, token, {Admin}) == Allow(who)
    ensures AdminSession(sys.proto, token.sessionID) && sys.proto.store.sessions[token.sessionID].value.session.userID == who.id
  {
  }

  ghost predicate Admits(sys: Sys, r: Request)
    requires NeedsAdmin(r)
  {
    Required(sys.proto.store, sys.proto.now, r.token, {Admin}).Allow?
  }

  /** An admin request of another user comes while the index does not list the session: a wipe
      leaves it. */
  ghost predicate Spares(sys: Sys, r: Request, x: string) {
    && NeedsAdmin(r) && Admits(sys, r) && x in sys.proto.store.sessions
    && var user := sys.proto.store.sessions[x].value.session.userID;
       !Listed(sys.proto.store, user, x) && sys.proto.store.sessions[r.token.sessionID].value.session.userID != user
  }

  /** Such a session ends before the next request, if the pace is guarded. */
  lemma SpareEndsSoon(s: State, ttl: int, lag: nat, gap: nat, x: string, z: string)
    requires Quiet(s) && Pace(s, ttl, lag, gap) && Rested(s, gap) && Guarded(ttl, lag, gap)
    requires x in s.store.sessions && !Listed(s.store, s.store.sessions[x].value.session.userID, x)
    requires z in s.store.sessions && s.store.sessions[z].value.session.userID != s.store.sessions[x].value.session.userID
    ensures s.store.sessions[x].expireAt < s.now + gap
  {
    hide Inv;
    ReadableBirth(s, x);
    ReadableBirth(s, z);
    var y := WhyUnlisted(s, ttl, lag, gap, x);
    if Follows(s, x, y, gap) {
      assert After(s.born, x, z, gap) || After(s.born, z, x, gap);
      assert After(s.born, y, z, gap) || After(s.born, z, y, gap);
    }
  }

  /** The births of the two sessions at such a request, and why the one is not listed. */
  ghost predicate Spared(s: State, ttl: int, lag: nat, gap: nat, x: string, z: string, y: string) {
    && x in s.born && z in s.born && x != z && 0 < s.born[x].ttl == ttl == s.born[z].ttl && s.born[x].at <= s.born[x].clock + lag
    && s.now <= s.born[z].End()
    && (s.born[x].End() < s.now + Cut(ttl) || (Follows(s, x, y, gap) && y != z))
  }

  lemma SparesWhy(cfg: Config, sys: Sys, r: Request, lag: nat, gap: nat, x: string) returns (y: string)
    requires Base(cfg, sys, lag, gap) && Rested(sys.proto, gap) && Spares(sys, r, x)
    ensures Spared(sys.proto, cfg.refreshTTL, lag, gap, x, r.token.sessionID, y)
    ensures Guarded(cfg.refreshTTL, lag, gap) ==> sys.proto.born[x].End() < sys.proto.now + gap
  {
    hide Inv;
    ReadableBirth(sys.proto, x);
    ReadableBirth(sys.proto, r.token.sessionID);
    y := WhyUnlisted(sys.proto, cfg.refreshTTL, lag, gap, x);
    if Guarded(cfg.refreshTTL, lag, gap) { SpareEndsSoon(sys.proto, cfg.refreshTTL, lag, gap, x, r.token.sessionID); }
  }

  ghost function SpanOf(ss: seq<Sys>, steps: seq<Step>, i: int): Span
    requires 0 <= i < |steps| < |ss|
  {
    Span(Starts(ss, steps, i), Ends(ss, i))
  }

  /** An accepted token was issued less than its lifetime ago, and its session has not ended. */
  lemma Accepted(cfg: Config, ss: seq<Sys>, steps: seq<Step>, lag: nat, gap: nat, i: nat, q: nat)
    requires IsRun(cfg, ss, steps) && Paced(steps, lag, gap) && q < i < |steps| && NeedsAdmin(steps[i].request)
    requires IssuesAt(cfg, ss, steps, q, steps[i].request.token) && Admits(Asked(ss, steps, i), steps[i].request)
    ensures Ends(ss, q) + gap <= Starts(ss, steps, i) < Ends(ss, q) + cfg.accessTTL
    ensures var x := steps[i].request.token.sessionID; x in ss[i].proto.born && Starts(ss, steps, i) <= ss[i].proto.born[x].End()
  {
    hide Next, Base, Handle, Admissible, Inv, Adds, Renews, Rested;
    IssuedWhen(cfg, ss, steps, lag, gap, q, steps[i].request.token);
    StepsApart(cfg, ss, steps, lag, gap, q, i);
    StepHistory(cfg, ss, steps, lag, gap, i);
    BaseParts(cfg, Asked(ss, steps, i), lag, gap);
    ReadableBirth(Asked(ss, steps, i).proto, steps[i].request.token.sessionID);
  }

  /** Logins of two sessions, and a step that issues a token of one and a login of the other. */
  lemma LoginsApart(cfg: Config, ss: seq<Sys>, steps: seq<Step>, lag: nat, gap: nat, k: nat, x: string, p: nat, token: Token)
    requires IsRun(cfg, ss, steps) && Paced(steps, lag, gap) && LoginAt(cfg, ss, steps, k, x)
    requires IssuesAt(cfg, ss, steps, p, token) && token.sessionID != x
    ensures Apart(SpanOf(ss, steps, p), SpanOf(ss, steps, k), gap)
  {
    hide Next, Handle;
    var t: Token :| t.sessionID == x && IssuesAt(cfg, ss, steps, k, t);
    IssuesApart(cfg, ss, steps, lag, gap, p, token, k, t);
  }

  lemma AdminStepIssuesNothing(cfg: Config, ss: seq<Sys>, steps: seq<Step>, i: nat, token: Token)
    requires IsRun(cfg, ss, steps) && i < |steps| && NeedsAdmin(steps[i].request)
    ensures !IssuesAt(cfg, ss, steps, i, token)
  {
    hide HandleAdmin;
    var w, r := Asked(ss, steps, i), steps[i].request;
    var d := Required(w.proto.store, w.proto.now, r.token, {Admin});
    if d.Allow? { AdminIssuesNothing(w, d.principal, r); }
  }

  /** A token that is accepted at step `i`, the step that issued it and its session's login. */
  lemma AcceptedWhen(cfg: Config, ss: seq<Sys>, steps: seq<Step>, lag: nat, gap: nat, i: nat, q: nat, k: nat)
    requires IsRun(cfg, ss, steps) && Paced(steps, lag, gap) && q < i < |steps| && k < i && NeedsAdmin(steps[i].request)
    requires IssuesAt(cfg, ss, steps, q, steps[i].request.token) && Admits(Asked(ss, steps, i), steps[i].request)
    requires LoginAt(cfg, ss, steps, k, steps[i].request.token.sessionID)
    ensures var b := ss[k + 1].proto.born[steps[i].request.token.sessionID];
      var x, y, t := SpanOf(ss, steps, k), SpanOf(ss, steps, q), Starts(ss, steps, i);
      && x.from <= x.to && y.from <= y.to && t <= b.End() == x.to + b.ttl && y.to + gap <= t < y.to + cfg.accessTTL
      && (y == x || x.to + gap <= y.from == y.to < x.to + b.ttl)
  {
    assert |ss| == |steps| + 1;
    hide IsRun, Next, Handle, Admits, IssuesAt, Paced;
    var token := steps[i].request.token;
    Accepted(cfg, ss, steps, lag, gap, i, q);
    BirthsKept(cfg, ss, steps, lag, gap, k + 1, i, token.sessionID);
    IssuedAfter(cfg, ss, steps, lag, gap, k, q, token);
    StepTakes(cfg, ss, steps, lag, gap, k);
    StepTakes(cfg, ss, steps, lag, gap, q);
  }

  lemma LossHasSchedule(cfg: Config, ss: seq<Sys>, steps: seq<Step>, lag: nat, gap: nat, j: nat, i: nat, p: nat, q: nat, kx: nat, kz: nat)
    requires IsRun(cfg, ss, steps) && Paced(steps, lag, gap) && j < i < |steps| && p < j && q < i && kx < j && kz < j
    requires NeedsAdmin(steps[i].request) && Admits(Asked(ss, steps, i), steps[i].request) && IssuesAt(cfg, ss, steps, q, steps[i].request.token)
    requires NeedsAdmin(steps[j].request) && Admits(Asked(ss, steps, j), steps[j].request) && IssuesAt(cfg, ss, steps, p, steps[j].request.token)
    requires var x, z := steps[i].request.token.sessionID, steps[j].request.token.sessionID;
      && x != z && LoginAt(cfg, ss, steps, kx, x) && LoginAt(cfg, ss, steps, kz, z)
      && 0 < ss[kx + 1].proto.born[x].ttl == cfg.refreshTTL == ss[kz + 1].proto.born[z].ttl && Ends(ss, kx) <= Starts(ss, steps, kx) + lag
    ensures Schedule(cfg.refreshTTL, cfg.accessTTL, lag, gap, SpanOf(ss, steps, kx), SpanOf(ss, steps, kz), SpanOf(ss, steps, p),
                     SpanOf(ss, steps, q), Starts(ss, steps, j), Starts(ss, steps, i))
  {
    hide IsRun, Next, Handle, Admits, IssuesAt, Paced;
    var s, t := steps[j].request.token, steps[i].request.token;
    AcceptedWhen(cfg, ss, steps, lag, gap, i, q, kx);
    AcceptedWhen(cfg, ss, steps, lag, gap, j, p, kz);
    LoginsApart(cfg, ss, steps, lag, gap, kx, t.sessionID, p, s);
    var first: Token :| first.sessionID == s.sessionID && IssuesAt(cfg, ss, steps, kz, first);
    LoginsApart(cfg, ss, steps, lag, gap, kx, t.sessionID, kz, first);
    IssuesApart(cfg, ss, steps, lag, gap, p, s, q, t);
    StepsApart(cfg, ss, steps, lag, gap, j, i);
    AdminStepIssuesNothing(cfg, ss, steps, j, t);
    if q < j { StepsApart(cfg, ss, steps, lag, gap, q, j); } else { StepsApart(cfg, ss, steps, lag, gap, j, q); }
  }

  /** A spared session at step `j`, and a token of it that was issued and is accepted at step
      `i`: the run has the steps of a loss. */
  lemma UseNeedsSchedule(cfg: Config, ss: seq<Sys>, steps: seq<Step>, lag: nat, gap: nat, j: nat, i: nat, x: string)
    requires IsRun(cfg, ss, steps) && Paced(steps, lag, gap) && j < i < |steps| && Spares(Asked(ss, steps, j), steps[j].request, x)
    requires NeedsAdmin(steps[i].request) && steps[i].request.token.sessionID == x && Admits(Asked(ss, steps, i), steps[i].request)
    requires TokensIssued(cfg, ss, steps)
    ensures LosesAdmin(cfg.refreshTTL, cfg.accessTTL, lag, gap)
  {
    hide Next, Base, Handle, Admissible, Inv, Adds, Renews, PruningLoses, LapsingLoses, IssuesAt, Cut;
    var ttl, access := cfg.refreshTTL, cfg.accessTTL;
    var s, z := steps[j].request.token, steps[j].request.token.sessionID;
    StepHistory(cfg, ss, steps, lag, gap, j);
    var y := SparesWhy(cfg, Asked(ss, steps, j), steps[j].request, lag, gap, x);
    var p :| p < j && IssuesAt(cfg, ss, steps, p, s);
    var q :| q < i && IssuesAt(cfg, ss, steps, q, steps[i].request.token);
    var kx := BirthLogin(cfg, ss, steps, lag, gap, j, x);
    var kz := BirthLogin(cfg, ss, steps, lag, gap, j, z);
    IssuesInRun(cfg, ss, steps, p, s);
    IssuesInRun(cfg, ss, steps, q, steps[i].request.token);
    LossHasSchedule(cfg, ss, steps, lag, gap, j, i, p, q, kx, kz);
    var a, b, c, d := SpanOf(ss, steps, kx), SpanOf(ss, steps, kz), SpanOf(ss, steps, p), SpanOf(ss, steps, q);
    if a.to + ttl < Starts(ss, steps, j) + Cut(ttl) {
      LapsingSchedule(ttl, access, lag, gap, a, b, c, d, Starts(ss, steps, j), Starts(ss, steps, i));
    } else {
      var ky := BirthLogin(cfg, ss, steps, lag, gap, j, y);
      LoginsApart(cfg, ss, steps, lag, gap, ky, y, p, s);
      LoginsApart(cfg, ss, steps, lag, gap, ky, y, q, steps[i].request.token);
      StepTakes(cfg, ss, steps, lag, gap, ky);
      PruningSchedule(ttl, access, lag, gap, a, b, c, d, SpanOf(ss, steps, ky), Starts(ss, steps, j), Starts(ss, steps, i));
    }
  }

  lemma IssuesInRun(cfg: Config, ss: seq<Sys>, steps: seq<Step>, i: int, token: Token)
    requires IsRun(cfg, ss, steps) && IssuesAt(cfg, ss, steps, i, token)
    ensures 0 <= i < |steps|
  {
  }

  lemma OtherRow(users: map<string, User>, users': map<string, User>, id: string, x: string)
    requires users' - {id} == users - {id} && IsAdmin(users, x) && x != id
    ensures IsAdmin(users', x)
  {
    assert x in users - {id} && x in users' - {id} && (users' - {id})[x] == users'[x];
  }

  /** A session that shows an active admin after a request: the table has that admin, or had not
      before, or the request spared the session. */
  ghost predicate Backs(sys: Sys, r: Request, sys': Sys, x: string)
    requires x in sys'.proto.store.sessions
  {
    var user := sys'.proto.store.sessions[x].value.session.userID;
    || IsAdmin(sys'.users, user)
    || (AdminSession(sys.proto, x) && sys.proto.store.sessions[x].value.session.userID == user && (!IsAdmin(sys.users, user) || Spares(sys, r, x)))
  }

  lemma AdminBacks(sys: Sys, r: Request, x: string)
    requires Quiet(sys.proto) && RowsOk(sys.users) && NeedsAdmin(r) && Admissible(sys, r) && CanonicalPath(r) && Admits(sys, r)
    requires var who := Required(sys.proto.store, sys.proto.now, r.token, {Admin}).principal;
      AdminSession(HandleAdmin(sys, who, r).0.proto, x)
    ensures var who := Required(sys.proto.store, sys.proto.now, r.token, {Admin}).principal; Backs(sys, r, HandleAdmin(sys, who, r).0, x)
  {
    hide Inv, HandleAdmin, WipeUser, TrimSpace, RowsOk;
    var who := Required(sys.proto.store, sys.proto.now, r.token, {Admin}).principal;
    ActorSession(sys, r.token, who);
    AdminStill(sys, who, r);
    AdminEffect(sys, who, r);
    var out := HandleAdmin(sys, who, r).0;
    var user := sys.proto.store.sessions[x].value.session.userID;
    if IsAdmin(sys.users, user) {
      if OnUser(r) && TrimSpace(r.path) == user && who.id != user {
        if out != sys { WipeLeaves(sys.proto, user, x); }
      } else {
        ActorSurvives(sys, who, r, user);
      }
    }
  }

  lemma BootstrapBacks(sys: Sys, id: string, password: string, x: string)
    requires Quiet(sys.proto) && RowsOk(sys.users) && Admissible(sys, Bootstrap(id, password))
    requires AdminSession(HandleBootstrap(sys, id, password).0.proto, x)
    ensures Backs(sys, Bootstrap(id, password), HandleBootstrap(sys, id, password).0, x)
  {
    hide Inv, HandleBootstrap, RowsOk, WipeUser;
    var rid := BootstrapEffect(sys, id, password);
    var out := HandleBootstrap(sys, id, password).0;
    var user := out.proto.store.sessions[x].value.session.userID;
    if user != rid && IsAdmin(sys.users, user) { OtherRow(sys.users, out.users, rid, user); }
  }

  lemma HandleBacks(cfg: Config, sys: Sys, r: Request, lag: nat, gap: nat, x: string)
    requires Base(cfg, sys, lag, gap) && Rested(sys.proto, gap) && Admissible(sys, r) && CanonicalPath(r) && InTime(r, lag)
    requires AdminSession(Handle(cfg, sys, r).0.proto, x)
    ensures Backs(sys, r, Handle(cfg, sys, r).0, x)
  {
    hide Inv, Pace, RowsOk, HandleLogin, HandleBootstrap, HandleRefresh, HandleLogout, HandleAdmin, Rested, Spares;
    match r {
      case Bootstrap(id, password) => BootstrapBacks(sys, id, password, x);
      case Login(_, _, _, _, _, _) => LoginEffect(cfg, sys, r, lag, gap);
      case Refresh(_, _, _) => RefreshStill(cfg, sys, r);
      case Logout(digest) => LogoutStill(sys, digest);
      case _ =>
        if Admits(sys, r) { AdminBacks(sys, r, x); }
    }
  }

  /** Whoever a session shows as an active admin is one in the table, or the session was spared. */
  ghost predicate BackedOrSpared(ss: seq<Sys>, steps: seq<Step>, i: int)
    requires 0 <= i < |ss| == |steps| + 1 && forall k :: 0 <= k < |steps| ==> 0 <= steps[k].dt
  {
    forall x :: AdminSession(ss[i].proto, x) ==>
      || IsAdmin(ss[i].users, ss[i].proto.store.sessions[x].value.session.userID)
      || exists j :: 0 <= j < i && Spares(Asked(ss, steps, j), steps[j].request, x)
  }

  lemma StepBacked(cfg: Config, ss: seq<Sys>, steps: seq<Step>, lag: nat, gap: nat, i: nat)
    requires IsRun(cfg, ss, steps) && Paced(steps, lag, gap) && CanonicalPaths(steps) && i < |steps| && BackedOrSpared(ss, steps, i)
    ensures BackedOrSpared(ss, steps, i + 1)
  {
    hide Next, Base, Handle, Admissible, Rested, Spares, Adds, Renews;
    StepHistory(cfg, ss, steps, lag, gap, i);
    var sys := ss[i + 1];
    forall x | AdminSession(sys.proto, x)
      ensures IsAdmin(sys.users, sys.proto.store.sessions[x].value.session.userID)
        || exists j :: 0 <= j < i + 1 && Spares(Asked(ss, steps, j), steps[j].request, x)
    {
      HandleBacks(cfg, Asked(ss, steps, i), steps[i].request, lag, gap, x);
      assert AdminSession(Asked(ss, steps, i).proto, x) ==> AdminSession(ss[i].proto, x);
    }
  }

  /** A spared session is not used at a guarded pace, and its issued tokens only if the
      schedule of a loss fits. */
  lemma SparedUnused(cfg: Config, ss: seq<Sys>, steps: seq<Step>, lag: nat, gap: nat, j: nat, i: nat)
    requires IsRun(cfg, ss, steps) && Paced(steps, lag, gap) && j < i < |steps|
    requires NeedsAdmin(steps[i].request) && Admits(Asked(ss, steps, i), steps[i].request)
    requires Spares(Asked(ss, steps, j), steps[j].request, steps[i].request.token.sessionID)
    ensures !Guarded(cfg.refreshTTL, lag, gap)
    ensures TokensIssued(cfg, ss, steps) ==> LosesAdmin(cfg.refreshTTL, cfg.accessTTL, lag, gap)
  {
    hide Next, Base, Handle, Admissible, Rested, Adds, Renews, TokensIssued, LosesAdmin, Guarded, Inv;
    var x := steps[i].request.token.sessionID;
    StepHistory(cfg, ss, steps, lag, gap, j);
    StepHistory(cfg, ss, steps, lag, gap, i);
    var _ := SparesWhy(cfg, Asked(ss, steps, j), steps[j].request, lag, gap, x);
    StepsApart(cfg, ss, steps, lag, gap, j, i);
    BirthsKept(cfg, ss, steps, lag, gap, j, i, x);
    BaseParts(cfg, Asked(ss, steps, i), lag, gap);
    ReadableBirth(Asked(ss, steps, i).proto, x);
    if TokensIssued(cfg, ss, steps) { UseNeedsSchedule(cfg, ss, steps, lag, gap, j, i, x); }
  }

  lemma StepKeepsAdmin(cfg: Config, ss: seq<Sys>, steps: seq<Step>, lag: nat, gap: nat, i: nat)
    requires IsRun(cfg, ss, steps) && Paced(steps, lag, gap) && CanonicalPaths(steps) && i < |steps| && BackedOrSpared(ss, steps, i)
    requires Guarded(cfg.refreshTTL, lag, gap) || (TokensIssued(cfg, ss, steps) && !LosesAdmin(cfg.refreshTTL, cfg.accessTTL, lag, gap))
    requires HasAdmin(ss[i].users) || steps[i].request.Bootstrap?
    ensures HasAdmin(ss[i + 1].users)
  {
    hide Next, Base, Rested, Spares, Adds, Renews, TokensIssued, LosesAdmin, Guarded, HandleLogin, HandleRefresh, HandleBootstrap, HandleAdmin, HasAdmin;
    StepHistory(cfg, ss, steps, lag, gap, i);
    var w, r := Asked(ss, steps, i), steps[i].request;
    BaseParts(cfg, w, lag, gap);
    match r {
      case Bootstrap(id, password) => var rid := BootstrapEffect(w, id, password); AdminThere(ss[i + 1].users, rid);
      case Login(_, _, _, _, _, _) => LoginEffect(cfg, w, r, lag, gap);
      case Refresh(_, _, _) => RefreshStill(cfg, w, r);
      case Logout(digest) => LogoutStill(w, digest);
      case _ =>
        if Admits(w, r) { AdminKeepsAdmin(cfg, ss, steps, lag, gap, i); }
    }
  }

  lemma AdminKeepsAdmin(cfg: Config, ss: seq<Sys>, steps: seq<Step>, lag: nat, gap: nat, i: nat)
    requires IsRun(cfg, ss, steps) && Paced(steps, lag, gap) && CanonicalPaths(steps) && i < |steps| && BackedOrSpared(ss, steps, i)
    requires Guarded(cfg.refreshTTL, lag, gap) || (TokensIssued(cfg, ss, steps) && !LosesAdmin(cfg.refreshTTL, cfg.accessTTL, lag, gap))
    requires NeedsAdmin(steps[i].request) && Admits(Asked(ss, steps, i), steps[i].request)
    ensures HasAdmin(HandleAdmin(Asked(ss, steps, i), Required(Asked(ss, steps, i).proto.store, Asked(ss, steps, i).proto.now,
                                                               steps[i].request.token, {Admin}).principal, steps[i].request).0.users)
  {
    hide Next, Base, Handle, Rested, Spares, Adds, Renews, TokensIssued, LosesAdmin, Guarded, HandleAdmin, HasAdmin, Admissible;
    StepHistory(cfg, ss, steps, lag, gap, i);
    var w, r := Asked(ss, steps, i), steps[i].request;
    BaseParts(cfg, w, lag, gap);
    var who := Required(w.proto.store, w.proto.now, r.token, {Admin}).principal;
    ActorSession(w, r.token, who);
    if !IsAdmin(w.users, who.id) {
      assert AdminSession(ss[i].proto, r.token.sessionID);
      var j :| 0 <= j < i && Spares(Asked(ss, steps, j), steps[j].request, r.token.sessionID);
      SparedUnused(cfg, ss, steps, lag, gap, j, i);
    }
    ActorSurvives(w, who, r, who.id);
    AdminThere(HandleAdmin(w, who, r).0.users, who.id);
  }

  lemma AdminThere(users: map<string, User>, id: string)
    requires IsAdmin(users, id)
    ensures HasAdmin(users)
  {
  }

  lemma {:induction false} RunKeepsAdmin(cfg: Config, ss: seq<Sys>, steps: seq<Step>, lag: nat, gap: nat, i: nat)
    requires IsRun(cfg, ss, steps) && Paced(steps, lag, gap) && CanonicalPaths(steps) && i < |ss|
    requires Guarded(cfg.refreshTTL, lag, gap) || (TokensIssued(cfg, ss, steps) && !LosesAdmin(cfg.refreshTTL, cfg.accessTTL, lag, gap))
    ensures BackedOrSpared(ss, steps, i) && (i > 0 ==> HasAdmin(ss[i].users))
  {
    hide Next, CanonicalPath, InTime, Admissible, Guarded, TokensIssued, LosesAdmin, HasAdmin;
    if i > 0 {
      RunKeepsAdmin(cfg, ss, steps, lag, gap, i - 1);
      StepBacked(cfg, ss, steps, lag, gap, i - 1);
      StepKeepsAdmin(cfg, ss, steps, lag, gap, i - 1);
    }
  }

  /** After bootstrap there is always an active admin, whatever the admins do to each other and
      whatever tokens they present, at a guarded pace; and with the tokens that the run issues,
      at every pace and lifetimes that have no room for the schedule of a loss. */
  lemma AlwaysAnActiveAdmin(cfg: Config, ss: seq<Sys>, steps: seq<Step>, lag: nat, gap: nat, i: nat)
    requires IsRun(cfg, ss, steps) && Paced(steps, lag, gap) && CanonicalPaths(steps) && 0 < i < |ss|
    requires Guarded(cfg.refreshTTL, lag, gap) || (TokensIssued(cfg, ss, steps) && !LosesAdmin(cfg.refreshTTL, cfg.accessTTL, lag, gap))
    ensures HasAdmin(ss[i].users)
  {
    RunKeepsAdmin(cfg, ss, steps, lag, gap, i);
  }

  // ---------------------------------------------------------------- requests on one path

  /** The requests on users all use this path. */
  ghost predicate OnlyPath(steps: seq<Step>, path: string) {
    forall i :: 0 <= i < |steps| && OnUser(steps[i].request) ==> steps[i].request.path == path
  }

  /** Whoever but `id` a session shows as an active admin is one in the table. */
  ghost predicate OthersBacked(sys: Sys, id: string) {
    forall sid :: AdminSession(sys.proto, sid) && sys.proto.store.sessions[sid].value.session.userID != id ==>
      IsAdmin(sys.users, sys.proto.store.sessions[sid].value.session.userID)
  }

  lemma SubOthers(sys: Sys, sys': Sys, id: string)
    requires OthersBacked(sys, id) && SubSessions(sys.proto, sys'.proto)
    requires forall x :: x != id && IsAdmin(sys.users, x) ==> IsAdmin(sys'.users, x)
    ensures OthersBacked(sys', id)
  {
    assert forall sid :: AdminSession(sys'.proto, sid) ==> AdminSession(sys.proto, sid);
  }

  lemma AdminOthers(sys: Sys, who: Principal, r: Request, path: string)
    requires Quiet(sys.proto) && RowsOk(sys.users) && OthersBacked(sys, TrimSpace(path)) && HasAdmin(sys.users)
    requires NeedsAdmin(r) && Admissible(sys, r) && Canonical(path) && (OnUser(r) ==> r.path == path)
    requires Required(sys.proto.store, sys.proto.now, r.token, {Admin}) == Allow(who)
    ensures OthersBacked(HandleAdmin(sys, who, r).0, TrimSpace(path)) && HasAdmin(HandleAdmin(sys, who, r).0.users)
  {
    hide Inv, RowsOk, HandleAdmin, TrimSpace;
    var out, id := HandleAdmin(sys, who, r).0, TrimSpace(path);
    AdminStill(sys, who, r);
    forall x | x != id && IsAdmin(sys.users, x) ensures IsAdmin(out.users, x) { ActorSurvives(sys, who, r, x); }
    SubOthers(sys, out, id);
    ActorSession(sys, r.token, who);
    if who.id == id {
      var a :| IsAdmin(sys.users, a);
      ActorSurvives(sys, who, r, a);
    }
  }

  lemma BootstrapOthers(sys: Sys, id: string, password: string, user: string)
    requires Quiet(sys.proto) && RowsOk(sys.users) && Admissible(sys, Bootstrap(id, password)) && OthersBacked(sys, user)
    ensures OthersBacked(HandleBootstrap(sys, id, password).0, user) && HasAdmin(HandleBootstrap(sys, id, password).0.users)
  {
    hide Inv, HandleBootstrap, RowsOk, WipeUser;
    var rid := BootstrapEffect(sys, id, password);
    var out := HandleBootstrap(sys, id, password).0;
    forall x | IsAdmin(sys.users, x) ensures IsAdmin(out.users, x) {
      if x != rid { OtherRow(sys.users, out.users, rid, x); }
    }
    SubOthers(sys, out, user);
  }

  lemma LoginOthers(cfg: Config, sys: Sys, r: Request, lag: nat, gap: nat, user: string)
    requires Base(cfg, sys, lag, gap) && Rested(sys.proto, gap) && OthersBacked(sys, user) && r.Login? && Admissible(sys, r) && r.lag <= lag
    ensures var out := HandleLogin(cfg, sys, r.email, r.password, r.sid, r.digest, r.jti, r.lag).0;
      OthersBacked(out, user) && out.users == sys.users
  {
    hide Base, HandleLogin;
    LoginEffect(cfg, sys, r, lag, gap);
    var out := HandleLogin(cfg, sys, r.email, r.password, r.sid, r.digest, r.jti, r.lag).0;
    assert forall sid :: AdminSession(out.proto, sid) && !Agrees(sys.users, out.proto.store.sessions[sid].value.session) ==> AdminSession(sys.proto, sid);
  }

  /** A gap longer than the lifetime outlasts every session. */
  lemma LongGapEndsAll(s: State, ttl: int, lag: nat, gap: nat, sid: string)
    requires Quiet(s) && Pace(s, ttl, lag, gap) && Rested(s, gap) && ttl < gap
    ensures sid !in s.store.sessions
  {
    if sid in s.store.sessions { ReadableBirth(s, sid); }
  }

  lemma HandleOthers(cfg: Config, sys: Sys, r: Request, lag: nat, gap: nat, path: string)
    requires Base(cfg, sys, lag, gap) && Rested(sys.proto, gap) && OthersBacked(sys, TrimSpace(path)) && Admissible(sys, r) && InTime(r, lag)
    requires (OnUser(r) ==> r.path == path) && (Canonical(path) || cfg.refreshTTL < gap) && (HasAdmin(sys.users) || r.Bootstrap?)
    ensures OthersBacked(Handle(cfg, sys, r).0, TrimSpace(path)) && HasAdmin(Handle(cfg, sys, r).0.users)
  {
    hide Inv, Pace, RowsOk, OthersBacked, HasAdmin, HandleLogin, HandleBootstrap, HandleRefresh, HandleLogout, HandleAdmin, Rested, TrimSpace, Canonical;
    var out := Handle(cfg, sys, r).0;
    match r {
      case Bootstrap(id, password) => BootstrapOthers(sys, id, password, TrimSpace(path));
      case Login(_, _, _, _, _, _) => LoginOthers(cfg, sys, r, lag, gap, TrimSpace(path));
      case Refresh(_, _, _) => RefreshStill(cfg, sys, r); SubOthers(sys, out, TrimSpace(path));
      case Logout(digest) => LogoutStill(sys, digest); SubOthers(sys, out, TrimSpace(path));
      case _ =>
        var d := Required(sys.proto.store, sys.proto.now, r.token, {Admin});
        if cfg.refreshTTL < gap { LongGapEndsAll(sys.proto, cfg.refreshTTL, lag, gap, r.token.sessionID); }
        if d.Allow? { AdminOthers(sys, d.principal, r, path); }
    }
  }

  lemma NextOthers(cfg: Config, sys: Sys, st: Step, lag: nat, gap: nat, path: string)
    requires Base(cfg, sys, lag, gap) && OthersBacked(sys, TrimSpace(path)) && gap <= st.dt && Admissible(sys, st.request) && InTime(st.request, lag)
    requires (OnUser(st.request) ==> st.request.path == path) && (Canonical(path) || cfg.refreshTTL < gap)
    requires HasAdmin(sys.users) || st.request.Bootstrap?
    ensures Base(cfg, Next(cfg, sys, st), lag, gap) && OthersBacked(Next(cfg, sys, st), TrimSpace(path)) && HasAdmin(Next(cfg, sys, st).users)
  {
    hide Inv, Pace, Handle, RowsOk, OthersBacked, HasAdmin, TrimSpace, Canonical;
    WaitBase(cfg, sys, st.dt, st.request, lag, gap);
    var w := Wait(sys, st.dt);
    SubOthers(sys, w, TrimSpace(path));
    HandleOthers(cfg, w, st.request, lag, gap, path);
    HandleBase(cfg, w, st.request, lag, gap);
  }

  /** Requests that all name one user, by an id spelled as the table does, never remove the
      last admin, at any pace. */
  lemma {:induction false} OnePathKeepsAdmin(cfg: Config, ss: seq<Sys>, steps: seq<Step>, lag: nat, gap: nat, path: string, i: nat)
    requires IsRun(cfg, ss, steps) && Paced(steps, lag, gap) && OnlyPath(steps, path) && i < |ss|
    requires Canonical(path) || cfg.refreshTTL < gap
    ensures Base(cfg, ss[i], lag, gap) && OthersBacked(ss[i], TrimSpace(path)) && (i > 0 ==> HasAdmin(ss[i].users))
  {
    hide Next, Base, HasAdmin, Canonical, InTime, Admissible, TrimSpace;
    if i == 0 {
      InitialBase(cfg, ss[0].proto.now, lag, gap);
    } else {
      OnePathKeepsAdmin(cfg, ss, steps, lag, gap, path, i - 1);
      NextOthers(cfg, ss[i - 1], steps[i - 1], lag, gap, path);
    }
  }

  // ---------------------------------------------------------------- tokens that do not outlast the gap

  /** A token that is issued for no longer than the gap has expired when the next request comes. */
  lemma NobodyEnters(cfg: Config, ss: seq<Sys>, steps: seq<Step>, lag: nat, gap: nat, i: nat)
    requires IsRun(cfg, ss, steps) && Paced(steps, lag, gap) && TokensIssued(cfg, ss, steps) && cfg.accessTTL <= gap && i < |steps|
    ensures NeedsAdmin(steps[i].request) ==> !Admits(Asked(ss, steps, i), steps[i].request)
  {
    hide Next, Handle, Admissible, IssuesAt;
    if NeedsAdmin(steps[i].request) && Admits(Asked(ss, steps, i), steps[i].request) {
      var q :| q < i && IssuesAt(cfg, ss, steps, q, steps[i].request.token);
      IssuesInRun(cfg, ss, steps, q, steps[i].request.token);
      Accepted(cfg, ss, steps, lag, gap, i, q);
    }
  }

  /** Only the bootstrap user is there, with the values that a restart gives it. */
  ghost predicate Pristine(users: map<string, User>) {
    forall id :: id in users ==> users[id] == User(users[id].id, BOOTSTRAP_EMAIL, "admin", users[id].password, true, Admin)
  }

  lemma BootstrapPristine(sys: Sys, id: string, password: string)
    requires Quiet(sys.proto) && RowsOk(sys.users) && Admissible(sys, Bootstrap(id, password)) && Pristine(sys.users) && Agreement(sys)
    ensures var out := HandleBootstrap(sys, id, password).0; Pristine(out.users) && Agreement(out) && HasAdmin(out.users)
  {
    hide Inv, WipeUser;
    var rid := BootstrapEffect(sys, id, password);
    var out := HandleBootstrap(sys, id, password).0;
    forall x | x in out.proto.store.sessions ensures Agrees(out.users, out.proto.store.sessions[x].value.session) {
      assert Agrees(sys.users, sys.proto.store.sessions[x].value.session);
    }
  }

  lemma StepPristine(cfg: Config, ss: seq<Sys>, steps: seq<Step>, lag: nat, gap: nat, i: nat)
    requires IsRun(cfg, ss, steps) && Paced(steps, lag, gap) && TokensIssued(cfg, ss, steps) && cfg.accessTTL <= gap && i < |steps|
    requires Pristine(ss[i].users) && Agreement(ss[i])
    ensures Pristine(ss[i + 1].users) && Agreement(ss[i + 1])
    ensures HasAdmin(ss[i].users) || steps[i].request.Bootstrap? ==> HasAdmin(ss[i + 1].users)
  {
    hide Next, Base, Rested, Adds, Renews, TokensIssued, HandleLogin, HandleRefresh, HandleBootstrap, HandleLogout, HandleAdmin, HasAdmin, Pristine;
    StepHistory(cfg, ss, steps, lag, gap, i);
    NobodyEnters(cfg, ss, steps, lag, gap, i);
    var w, r := Asked(ss, steps, i), steps[i].request;
    BaseParts(cfg, w, lag, gap);
    SubAgreement(ss[i], w.proto);
    match r {
      case Bootstrap(id, password) => BootstrapPristine(w, id, password);
      case Login(_, _, _, _, _, _) => LoginEffect(cfg, w, r, lag, gap);
      case Refresh(_, _, _) => RefreshStill(cfg, w, r); SubAgreement(w, ss[i + 1].proto);
      case Logout(digest) => LogoutStill(w, digest); SubAgreement(w, ss[i + 1].proto);
      case _ =>
    }
  }

  /** With tokens that were issued and do not outlast the gap no admin request is admitted:
      there is an admin and sessions mirror rows, whatever the rest of the pace and the paths. */
  lemma {:induction false} ShortTokensChangeNothing(cfg: Config, ss: seq<Sys>, steps: seq<Step>, lag: nat, gap: nat, i: nat)
    requires IsRun(cfg, ss, steps) && Paced(steps, lag, gap) && TokensIssued(cfg, ss, steps) && cfg.accessTTL <= gap && i < |ss|
    ensures Pristine(ss[i].users) && Agreement(ss[i]) && (i > 0 ==> HasAdmin(ss[i].users))
  {
    hide Next, InTime, Admissible, TokensIssued, HasAdmin;
    if i > 0 {
      ShortTokensChangeNothing(cfg, ss, steps, lag, gap, i - 1);
      StepPristine(cfg, ss, steps, lag, gap, i - 1);
    }
  }
}
