/** The session store under the handlers moves only by steps of the protocol: what
    SessionTheorems and IndexTheorems say of protocol runs holds of it. */
module SystemRuns {
  import opened Entities
  import opened SessionProtocol
  import opened Text
  import opened Uuid
  import opened AuthSystem
  import SessionTheorems

  /** The last state of some run of the protocol. */
  ghost predicate Reachable(s: State) {
    exists ss: seq<State>, es: seq<Event> :: SessionTheorems.IsRun(ss, es) && ss[|es|] == s
  }

  lemma ReachInitial(t: int)
    ensures Reachable(Initial(t))
  {
    var ss: seq<State>, es: seq<Event> := [Initial(t)], [];
    assert SessionTheorems.IsRun(ss, es) && ss[|es|] == Initial(t);
  }

  lemma ReachStep(s: State, e: Event)
    requires Reachable(s) && Enabled(s, e)
    ensures Reachable(Apply(s, e))
  {
    hide Apply;
    var ss: seq<State>, es: seq<Event> :| SessionTheorems.IsRun(ss, es) && ss[|es|] == s;
    var ss', es' := ss + [Apply(s, e)], es + [e];
    assert SessionTheorems.IsRun(ss', es') && ss'[|es'|] == Apply(s, e);
  }

  lemma ReachCreate(s: State, sid: string, session: AuthSession, digest: string, ttl: int, lag: nat)
    requires Reachable(s) && Enabled(s, CreateBegin(0, sid, session, digest, ttl))
    ensures Reachable(DoCreate(s, sid, session, digest, ttl, lag).0)
  {
    hide Reachable;
    var s1 := BeginCreate(s, 0, sid, session, digest, ttl);
    ReachStep(s, CreateBegin(0, sid, session, digest, ttl));
    if 0 in s1.procs {
      ReachStep(s1, Tick(lag));
      ReachStep(Apply(s1, Tick(lag)), CreateCommit(0));
    }
  }

  lemma ReachRotate(s: State, digest: string, nextDigest: string, nextJTI: string)
    requires Reachable(s) && s.procs == map[] && Enabled(s, RotateLookup(0, digest, nextDigest, nextJTI))
    ensures Reachable(DoRotate(s, digest, nextDigest, nextJTI).0)
  {
    hide Reachable;
    var s1 := LookupRotate(s, 0, digest, nextDigest, nextJTI);
    ReachStep(s, RotateLookup(0, digest, nextDigest, nextJTI));
    if 0 in s1.procs {
      ReachStep(s1, RotateLoad(0));
      var s2 := LoadRotate(s1, 0);
      if 0 in s2.procs { ReachStep(s2, RotateCommit(0)); }
    }
  }

  lemma ReachHandle(cfg: Config, sys: Sys, r: Request)
    requires Reachable(sys.proto) && sys.proto.procs == map[] && Admissible(sys, r)
    ensures Reachable(Handle(cfg, sys, r).0.proto)
  {
    hide Reachable, DoCreate, DoRotate, WipeUser, DeleteSession, HandleAdmin, NormalizeEmail, CanonicalUuid;
    forall user ensures Reachable(WipeUser(sys.proto, user)) { ReachStep(sys.proto, Wipe(user)); }
    match r {
      case Bootstrap(_, _) =>
      case Login(email, _, sid, digest, jti, lag) =>
        var found := FindByEmail(sys.users, NormalizeEmail(email));
        if found.Some? { ReachCreate(sys.proto, sid, NewAuthSession(found.value, jti), digest, cfg.refreshTTL, lag); }
      case Refresh(digest, nextDigest, nextJTI) =>
        ReachRotate(sys.proto, digest, nextDigest, nextJTI);
        var out := DoRotate(sys.proto, digest, nextDigest, nextJTI);
        if out.1.Some? { ReachStep(out.0, Delete(out.1.value)); }
      case Logout(digest) =>
        if digest in sys.proto.store.refresh { ReachStep(sys.proto, Delete(sys.proto.store.refresh[digest].value)); }
      case _ =>
        forall who ensures Reachable(HandleAdmin(sys, who, r).0.proto) { ReachAdmin(sys, who, r); }
    }
  }

  lemma ReachAdmin(sys: Sys, who: Principal, r: Request)
    requires Reachable(sys.proto) && NeedsAdmin(r)
    ensures Reachable(HandleAdmin(sys, who, r).0.proto)
  {
    hide Reachable, WipeUser, TrimSpace, NormalizeEmail, EmailTaken, FindUser, IsUuid;
    forall user ensures Reachable(WipeUser(sys.proto, user)) { ReachStep(sys.proto, Wipe(user)); }
  }

  /** In every run of the system the session store is in a state that the protocol reaches. */
  lemma {:induction false} RunReaches(cfg: Config, ss: seq<Sys>, steps: seq<Step>, i: nat)
    requires IsRun(cfg, ss, steps) && i < |ss|
    ensures Reachable(ss[i].proto)
  {
    hide Handle, Reachable, Admissible;
    if i == 0 {
      ReachInitial(ss[0].proto.now);
    } else {
      RunReaches(cfg, ss, steps, i - 1);
      ReachStep(ss[i - 1].proto, Tick(steps[i - 1].dt));
      WaitAdmits(ss[i - 1], steps[i - 1].dt, steps[i - 1].request);
      ReachHandle(cfg, Wait(ss[i - 1], steps[i - 1].dt), steps[i - 1].request);
    }
  }

  lemma WaitAdmits(sys: Sys, dt: int, r: Request)
    requires 0 <= dt && Admissible(sys, r)
    ensures Admissible(Wait(sys, dt), r) && Wait(sys, dt).proto.procs == sys.proto.procs
  {
  }
}
