/** Exactly which sessions a user's index lists, over whole runs, and what follows for wiping a
    user, for the index's own expiry, and for who is shown as online. */
module IndexTheorems {
  import opened Entities
  import opened SessionStore
  import opened SessionProtocol
  import opened Middleware
  import opened SessionTheorems

  // ---------------------------------------------------------------- what takes an entry out

  /** A login of the same user whose client's clock shows the session as due. */
  ghost predicate PrunesAt(s: State, e: Event, sid: string)
    requires sid in s.born
  {
    && e.CreateCommit? && e.p in s.procs && s.procs[e.p].Creating?
    && s.procs[e.p].session.userID == s.born[sid].user && s.born[sid].Due() <= s.procs[e.p].clock
  }

  /** The user's index expires. */
  ghost predicate LapsesAt(s: State, e: Event, sid: string)
    requires sid in s.born
  {
    e.Tick? && s.born[sid].user in s.store.index && s.store.index[s.born[sid].user].expireAt < s.now + e.dt
  }

  lemma StepListed(s: State, e: Event, sid: string)
    requires Inv(s) && Enabled(s, e) && sid in s.born && sid in s.store.sessions && sid in Apply(s, e).store.sessions
    ensures Listed(Apply(s, e).store, s.born[sid].user, sid) <==>
      Listed(s.store, s.born[sid].user, sid) && !PrunesAt(s, e, sid) && !LapsesAt(s, e, sid)
  {
    hide Inv, StoreInv, CreateTx, RotateScript, Distinct, FirstAtOrAfter, RangeNext, ExistsNext, ValidCreate;
    InvStore(s);
    match e {
      case CreateCommit(p) => CreateListed(s, p, sid);
      case Delete(x) => DeleteListed(s, x, sid);
      case LogoutCommit(p) =>
        var s1 := s.(procs := s.procs - {p});
        SameStoreInv(s, s1);
        DeleteListed(s1, s.procs[p].sid, sid);
      case Wipe(u) => WipeListed(s, u, sid);
      case Tick(_) =>
      case _ => SameIndex(s, e);
    }
  }

  lemma SameIndex(s: State, e: Event)
    requires Enabled(s, e) && !e.Tick? && !e.CreateCommit? && !e.Delete? && !e.LogoutCommit? && !e.Wipe?
    ensures Apply(s, e).store.index == s.store.index
  {
    hide Distinct, FirstAtOrAfter, RangeNext, ExistsNext, ValidCreate;
  }

  lemma InvStore(s: State)
    requires Inv(s)
    ensures StoreInv(s)
  {
  }

  lemma DeleteListed(s: State, x: string, sid: string)
    requires StoreInv(s) && sid in s.born && sid in s.store.sessions && sid in DeleteSession(s, x).store.sessions
    ensures Listed(DeleteSession(s, x).store, s.born[sid].user, sid) <==> Listed(s.store, s.born[sid].user, sid)
  {
    hide StoreInv;
    if x != "" && x in s.store.sessions { DeleteRemoves(s, x); }
  }

  lemma WipeListed(s: State, user: string, sid: string)
    requires StoreInv(s) && sid in s.born && sid in s.store.sessions && sid in WipeUser(s, user).store.sessions
    ensures Listed(WipeUser(s, user).store, s.born[sid].user, sid) <==> Listed(s.store, s.born[sid].user, sid)
  {
    if user != "" { WipeRemoves(s, user); }
  }

  lemma TxListed(st: Store, now: int, c: Proc, user: string, sid: string)
    requires c.Creating? && sid != c.sid
    ensures Listed(CreateTx(st, now, c.clock, c.sid, c.session, c.digest, c.ttl), user, sid) <==>
      Listed(st, user, sid) && (user == c.session.userID ==> c.clock < st.index[user].value[sid])
  {
    if user == c.session.userID && user in st.index {
      var kept := Surviving(st.index[user].value, c.clock);
      assert kept == map[] ==> sid !in kept;
    }
  }

  lemma CreateListed(s: State, p: nat, sid: string)
    requires Inv(s) && Enabled(s, CreateCommit(p)) && sid in s.born
    ensures Listed(CommitCreate(s, p).store, s.born[sid].user, sid) <==>
      Listed(s.store, s.born[sid].user, sid) && !PrunesAt(s, CreateCommit(p), sid)
  {
    hide CreateTx;
    var c, user := s.procs[p], s.born[sid].user;
    assert ProcOk(s, c) && c.sid in NewSid(c);
    assert Listed(s.store, user, sid) ==> MemberOk(s, user, sid);
    TxListed(s.store, s.now, c, user, sid);
  }

  /** Since the session was created, some step has taken its index entry out. */
  ghost predicate Dropped(ss: seq<State>, es: seq<Event>, i: nat, sid: string)
    requires i <= |es| < |ss|
  {
    exists j: nat :: j < i && sid in ss[j].born && (PrunesAt(ss[j], es[j], sid) || LapsesAt(ss[j], es[j], sid))
  }

  /** Some login of its user has pruned it. */
  ghost predicate Pruned(ss: seq<State>, es: seq<Event>, i: nat, sid: string)
    requires i <= |es| < |ss|
  {
    exists j: nat :: j < i && sid in ss[j].born && PrunesAt(ss[j], es[j], sid)
  }

  /** In every state of every run a readable session is listed by its user's index if and only
      if, since it was created, no login of that user has pruned it and the index has not expired. */
  lemma {:induction false} ListedIffNotDropped(ss: seq<State>, es: seq<Event>, i: nat, sid: string)
    requires IsRun(ss, es) && i < |ss| && sid in ss[i].store.sessions
    ensures Listed(ss[i].store, ss[i].store.sessions[sid].value.session.userID, sid) <==> !Dropped(ss, es, i, sid)
  {
    hide Apply;
    RunOwner(ss, es, i, sid);
    if i > 0 {
      if sid in ss[i - 1].born {
        StillReadable(ss, es, i - 1, i, sid);
        ListedIffNotDropped(ss, es, i - 1, sid);
        RunOwner(ss, es, i - 1, sid);
        RunLater(ss, es, i - 1, i);
        RunInv(ss, es, i - 1);
        StepListed(ss[i - 1], es[i - 1], sid);
        DroppedNext(ss, es, i - 1, sid);
      } else {
        NewlyListed(ss, es, i - 1, sid);
        forall j: nat | j < i ensures sid !in ss[j].born { RunLater(ss, es, j, i - 1); }
      }
    }
  }

  lemma DroppedNext(ss: seq<State>, es: seq<Event>, i: nat, sid: string)
    requires IsRun(ss, es) && i < |es| && sid in ss[i].born
    ensures Dropped(ss, es, i + 1, sid) <==> Dropped(ss, es, i, sid) || PrunesAt(ss[i], es[i], sid) || LapsesAt(ss[i], es[i], sid)
  {
  }

  lemma RunOwner(ss: seq<State>, es: seq<Event>, i: nat, sid: string)
    requires IsRun(ss, es) && i < |ss| && sid in ss[i].store.sessions
    ensures sid in ss[i].born && ss[i].born[sid].user == ss[i].store.sessions[sid].value.session.userID
    ensures ss[i].store.sessions[sid].expireAt == ss[i].born[sid].End() && ss[i].now <= ss[i].born[sid].End()
    ensures ss[i].born[sid].Due() <= ss[i].born[sid].End()
  {
    RunInv(ss, es, i);
    assert SessionOk(ss[i], sid) && BirthOk(ss[i], sid);
  }

  /** Readable later and created by now: readable now. */
  lemma StillReadable(ss: seq<State>, es: seq<Event>, i: nat, j: nat, sid: string)
    requires IsRun(ss, es) && i <= j < |ss| && sid in ss[i].born && sid in ss[j].store.sessions
    ensures sid in ss[i].store.sessions
  {
    if sid !in ss[i].store.sessions { AbsentForever(ss, es, i, j, sid); }
  }

  lemma NewlyListed(ss: seq<State>, es: seq<Event>, i: nat, sid: string)
    requires IsRun(ss, es) && i < |es| && sid !in ss[i].born && sid in ss[i + 1].store.sessions
    ensures Listed(ss[i + 1].store, ss[i + 1].store.sessions[sid].value.session.userID, sid)
  {
    RunOwner(ss, es, i + 1, sid);
    var e, s := es[i], ss[i];
    if !(e.CreateCommit? && s.procs[e.p].sid == sid) { BornOnlyByCreate(s, e, sid); }
  }

  /** Where EXPIRE has cut nothing off, an index never expires under a readable session: a
      session is unlisted if and only if a login of its user has pruned it. */
  lemma {:induction false} UnlistedIffPruned(ss: seq<State>, es: seq<Event>, i: nat, sid: string)
    requires IsRun(ss, es) && i < |ss| && sid in ss[i].store.sessions && ss[i].slack == 0
    ensures !Listed(ss[i].store, ss[i].store.sessions[sid].value.session.userID, sid) <==> Pruned(ss, es, i, sid)
    decreases i
  {
    hide Apply;
    ListedIffNotDropped(ss, es, i, sid);
    if Dropped(ss, es, i, sid) {
      var j: nat :| j < i && sid in ss[j].born && (PrunesAt(ss[j], es[j], sid) || LapsesAt(ss[j], es[j], sid));
      if !PrunesAt(ss[j], es[j], sid) {
        StillReadable(ss, es, j, i, sid);
        LapseNeedsUnlisted(ss, es, j, i, sid);
        UnlistedIffPruned(ss, es, j, sid);
      }
    }
  }

  lemma LapseNeedsUnlisted(ss: seq<State>, es: seq<Event>, j: nat, i: nat, sid: string)
    requires IsRun(ss, es) && j < i < |ss| && sid in ss[j].born && sid in ss[j].store.sessions && sid in ss[i].store.sessions
    requires ss[i].slack == 0 && LapsesAt(ss[j], es[j], sid)
    ensures ss[j].slack == 0 && !Listed(ss[j].store, ss[j].store.sessions[sid].value.session.userID, sid)
  {
    RunLater(ss, es, j, i);
    RunLater(ss, es, j + 1, i);
    RunOwner(ss, es, j, sid);
    RunOwner(ss, es, i, sid);
    RunInv(ss, es, j);
    assert Listed(ss[j].store, ss[j].born[sid].user, sid) ==> MemberOk(ss[j], ss[j].born[sid].user, sid);
  }

  // ---------------------------------------------------------------- wiping a user

  /** What a wipe of `user` does not touch, and that nothing is left dangling. */
  ghost predicate WipedClean(s: State, s': State, user: string) {
    && user !in s'.store.index
    && (forall d :: d in s'.store.refresh ==> s'.store.refresh[d].value in s'.store.sessions)
    && (forall sid :: sid in s.store.sessions && s.store.sessions[sid].value.session.userID != user ==>
          && sid in s'.store.sessions && s'.store.sessions[sid] == s.store.sessions[sid]
          && var d := s.store.sessions[sid].value.refreshDigest;
             d in s.store.refresh && d in s'.store.refresh && s'.store.refresh[d] == s.store.refresh[d])
    && (forall u :: u != user ==> (u in s'.store.index <==> u in s.store.index))
    && (forall u :: u != user && u in s.store.index ==> s'.store.index[u] == s.store.index[u])
  }

  lemma WipeKeepsOthers(s: State, user: string, sid: string)
    requires Inv(s) && user != "" && sid in s.store.sessions && s.store.sessions[sid].value.session.userID != user
    ensures var s' := WipeUser(s, user);
      && sid in s'.store.sessions && s'.store.sessions[sid] == s.store.sessions[sid]
      && var d := s.store.sessions[sid].value.refreshDigest;
         d in s.store.refresh && d in s'.store.refresh && s'.store.refresh[d] == s.store.refresh[d]
  {
    assert SessionOk(s, sid);
    var gone := Wiped(s.store, user);
    assert sid in gone ==> MemberOk(s, user, sid);
    forall x | x in gone ensures s.store.sessions[x].value.refreshDigest != s.store.sessions[sid].value.refreshDigest {
      assert SessionOk(s, x);
    }
  }

  lemma WipeCleans(s: State, user: string)
    requires Inv(s) && user != ""
    ensures WipedClean(s, WipeUser(s, user), user)
  {
    var s' := WipeUser(s, user);
    WipeStore(s, user);
    forall sid | sid in s.store.sessions && s.store.sessions[sid].value.session.userID != user
      ensures sid in s'.store.sessions && s'.store.sessions[sid] == s.store.sessions[sid]
      ensures var d := s.store.sessions[sid].value.refreshDigest;
        d in s.store.refresh && d in s'.store.refresh && s'.store.refresh[d] == s.store.refresh[d]
    {
      WipeKeepsOthers(s, user, sid);
    }
  }

  /** Kicking a user, at any moment of any run: of the user's sessions exactly those stay whose
      index entry a login or the index's expiry had taken out before; everything of everybody
      else stays, and nothing dangles. */
  lemma WipeLeavesExactlyDropped(ss: seq<State>, es: seq<Event>, i: nat, user: string)
    requires IsRun(ss, es) && i < |es| && es[i] == Wipe(user) && user != ""
    ensures WipedClean(ss[i], ss[i + 1], user)
    ensures forall sid :: sid in ss[i].store.sessions && ss[i].store.sessions[sid].value.session.userID == user ==>
      (sid in ss[i + 1].store.sessions <==> Dropped(ss, es, i, sid))
  {
    hide Dropped;
    RunInv(ss, es, i);
    WipeCleans(ss[i], user);
    forall sid | sid in ss[i].store.sessions && ss[i].store.sessions[sid].value.session.userID == user
      ensures sid in ss[i + 1].store.sessions <==> Dropped(ss, es, i, sid)
    {
      ListedIffNotDropped(ss, es, i, sid);
    }
  }

  // ---------------------------------------------------------------- lifetimes and lags of a run

  /** Every lifetime that a login of the run asks for is in `lifetimes`. */
  ghost predicate DrawsFrom(es: seq<Event>, lifetimes: iset<int>) {
    forall i :: 0 <= i < |es| && es[i].CreateBegin? ==> es[i].ttl in lifetimes
  }

  /** No transaction runs more than `lag` after its client read the clock. */
  ghost predicate LagsWithin(ss: seq<State>, es: seq<Event>, lag: int)
    requires IsRun(ss, es)
  {
    forall i :: 0 <= i < |es| && es[i].CreateCommit? ==> ss[i].now - ss[i].procs[es[i].p].clock <= lag
  }

  ghost predicate CreatesFrom(s: State, lifetimes: iset<int>) {
    forall p :: p in s.procs && s.procs[p].Creating? ==> s.procs[p].ttl in lifetimes && 0 < s.procs[p].ttl
  }

  lemma StepCreates(s: State, e: Event, lifetimes: iset<int>)
    requires Enabled(s, e) && CreatesFrom(s, lifetimes) && (e.CreateBegin? ==> e.ttl in lifetimes)
    ensures CreatesFrom(Apply(s, e), lifetimes)
  {
    hide CreateTx, RotateScript, DeleteScript, WipeScript, Advance, FirstAtOrAfter, RotateWins;
  }

  lemma {:induction false} RunCreatesFrom(ss: seq<State>, es: seq<Event>, lifetimes: iset<int>, i: nat)
    requires IsRun(ss, es) && DrawsFrom(es, lifetimes) && i < |ss|
    ensures CreatesFrom(ss[i], lifetimes)
  {
    hide Apply;
    if i > 0 {
      RunCreatesFrom(ss, es, lifetimes, i - 1);
      StepCreates(ss[i - 1], es[i - 1], lifetimes);
    }
  }

  lemma StepSlack(s: State, e: Event, cut: int)
    requires Enabled(s, e) && s.slack <= cut
    requires e.CreateCommit? ==> s.procs[e.p].ttl - ExpireMillis(s.procs[e.p].ttl) <= cut
    ensures Apply(s, e).slack <= cut
  {
  }

  lemma {:induction false} SlackWithin(ss: seq<State>, es: seq<Event>, lifetimes: iset<int>, cut: nat, i: nat)
    requires IsRun(ss, es) && DrawsFrom(es, lifetimes) && i < |ss|
    requires forall t :: t in lifetimes && 0 < t ==> t - ExpireMillis(t) <= cut
    ensures ss[i].slack <= cut
  {
    hide Apply;
    if i > 0 {
      SlackWithin(ss, es, lifetimes, cut, i - 1);
      RunCreatesFrom(ss, es, lifetimes, i - 1);
      StepSlack(ss[i - 1], es[i - 1], cut);
    }
  }

  lemma LagOf(ss: seq<State>, es: seq<Event>, lag: int, i: nat, sid: string)
    requires IsRun(ss, es) && LagsWithin(ss, es, lag) && i < |ss| && sid in ss[i].born
    ensures ss[i].born[sid].End() - ss[i].born[sid].Due() <= lag
  {
    var k := BirthStep(ss, es, i, sid);
  }

  // ---------------------------------------------------------------- the index outlives its sessions

  ghost predicate IndexCovers(s: State) {
    forall u, sid :: Listed(s.store, u, sid) ==> sid in s.born && s.born[sid].End() <= s.store.index[u].expireAt
  }

  /** One Create: the index reaches the new session's end exactly when the lifetime is whole
      or the index it found, after pruning, already reached that far. */
  lemma CreateCoversIffWhole(st: Store, now: int, clock: int, sid: string, session: AuthSession, digest: string, ttl: int)
    requires 0 < ttl
    ensures now + ttl <= CreateTx(st, now, clock, sid, session, digest, ttl).index[session.userID].expireAt
      <==> WholeTtl(ttl)
           || (session.userID in st.index && (exists m :: m in st.index[session.userID].value && clock < st.index[session.userID].value[m])
               && now + ttl <= st.index[session.userID].expireAt)
  {
    var u := session.userID;
    if u in st.index {
      var kept := Surviving(st.index[u].value, clock);
      assert kept != map[] <==> exists m :: m in kept;
    }
  }

  lemma WholeCovers(ss: seq<State>, es: seq<Event>, lifetimes: iset<int>, i: nat)
    requires IsRun(ss, es) && DrawsFrom(es, lifetimes) && i < |ss|
    requires forall t :: t in lifetimes && 0 < t ==> WholeTtl(t)
    ensures IndexCovers(ss[i])
  {
    SlackWithin(ss, es, lifetimes, 0, i);
    RunInv(ss, es, i);
    assert forall u, sid :: Listed(ss[i].store, u, sid) ==> MemberOk(ss[i], u, sid);
  }

  const ALICE := AuthSession("u", "u@example.com", "Alice", Member, true, "j")

  /** A first login with lifetime `ttl`, whose transaction runs `lag` after its clock reading. */
  ghost function OneLogin(ttl: int, lag: nat): (r: (seq<State>, seq<Event>))
    requires 0 < ttl
    ensures IsRun(r.0, r.1) && DrawsFrom(r.1, iset{ttl}) && LagsWithin(r.0, r.1, lag)
    ensures |r.0| == 4 && r.0[3].now == lag && r.0[3].store == CreateTx(EMPTY_STORE, lag, 0, "s", ALICE, "d", ttl)
    ensures r.0[3].born == map["s" := Birth("u", 0, lag, ttl)] && r.0[3].procs == map[]
    ensures r.0[3].drawnSids == {"s"} && r.0[3].drawnDigests == {"d"} && r.0[3].drawnJTIs == {"j"}
  {
    var e0, e1, e2 := CreateBegin(0, "s", ALICE, "d", ttl), Tick(lag), CreateCommit(0);
    var s0 := Initial(0);
    var s1 := Apply(s0, e0);
    var s2 := Apply(s1, e1);
    assert s2.store == EMPTY_STORE;
    ([s0, s1, s2, Apply(s2, e2)], [e0, e1, e2])
  }

  /** Logins may ask for any of a set of lifetimes.  In all such runs every index lasts at least
      as long as the sessions it lists if and only if EXPIRE truncates none of the lifetimes. */
  lemma IndexCoverageIffWhole(lifetimes: iset<int>)
    ensures (forall ss: seq<State>, es: seq<Event> :: IsRun(ss, es) && DrawsFrom(es, lifetimes) ==> IndexCovers(ss[|es|]))
      <==> (forall t :: t in lifetimes && 0 < t ==> WholeTtl(t))
  {
    if forall t :: t in lifetimes && 0 < t ==> WholeTtl(t) {
      forall ss: seq<State>, es: seq<Event> | IsRun(ss, es) && DrawsFrom(es, lifetimes) ensures IndexCovers(ss[|es|]) {
        WholeCovers(ss, es, lifetimes, |es|);
      }
    } else {
      var t :| t in lifetimes && 0 < t && !WholeTtl(t);
      var r := OneLogin(t, 0);
      assert DrawsFrom(r.1, lifetimes);
      assert Listed(r.0[3].store, "u", "s");
      assert !IndexCovers(r.0[|r.1|]);
    }
  }

  // ---------------------------------------------------------------- what a wipe misses

  /** A session of the user that is before its end. */
  ghost predicate Live(s: State, user: string, sid: string) {
    && sid in s.store.sessions && s.store.sessions[sid].value.session.userID == user
    && s.now < s.store.sessions[sid].expireAt
  }

  /** A session of the user that has not fallen due. */
  ghost predicate Undue(s: State, user: string, sid: string) {
    && sid in s.store.sessions && s.store.sessions[sid].value.session.userID == user
    && sid in s.born && s.now < s.born[sid].Due()
  }

  ghost predicate HasLive(s: State, user: string) { exists sid :: Live(s, user, sid) }

  ghost predicate HasUndue(s: State, user: string) { exists sid :: Undue(s, user, sid) }

  /** Step `i` wipes a user and leaves a live session of that user. */
  ghost predicate LeavesLive(ss: seq<State>, es: seq<Event>, i: int)
    requires IsRun(ss, es)
  {
    0 <= i < |es| && es[i].Wipe? && es[i].user != "" && HasLive(ss[i + 1], es[i].user)
  }

  ghost predicate LeavesUndue(ss: seq<State>, es: seq<Event>, i: int)
    requires IsRun(ss, es)
  {
    0 <= i < |es| && es[i].Wipe? && es[i].user != "" && HasUndue(ss[i + 1], es[i].user)
  }

  /** EXPIRE cuts at most one millisecond off the lifetime. */
  predicate NearlyWhole(ttl: int) { ttl < 1000 || ttl % 1000 <= 1 }

  lemma WipeTakesListed(s: State, user: string, sid: string)
    requires user != "" && sid in s.store.sessions && Listed(s.store, user, sid)
    ensures sid !in WipeUser(s, user).store.sessions
  {
  }

  lemma WipeTakesUndue(ss: seq<State>, es: seq<Event>, lifetimes: iset<int>, i: nat, user: string, sid: string)
    requires IsRun(ss, es) && DrawsFrom(es, lifetimes) && i < |es| && es[i] == Wipe(user) && user != ""
    requires forall t :: t in lifetimes && 0 < t ==> NearlyWhole(t)
    requires Undue(ss[i], user, sid)
    ensures sid !in ss[i + 1].store.sessions
  {
    hide WipeUser;
    SlackWithin(ss, es, lifetimes, 1, i);
    RunInv(ss, es, i);
    RunOwner(ss, es, i, sid);
    assert Listed(ss[i].store, user, sid) by { hide Inv; NotDueHeld(ss[i], sid); }
    WipeTakesListed(ss[i], user, sid);
  }

  lemma WipeLeavesOld(s: State, user: string, sid: string)
    requires sid in WipeUser(s, user).store.sessions
    ensures sid in s.store.sessions && WipeUser(s, user).store.sessions[sid] == s.store.sessions[sid]
    ensures WipeUser(s, user).now == s.now && WipeUser(s, user).born == s.born
  {
  }

  lemma NothingUndueLeft(ss: seq<State>, es: seq<Event>, lifetimes: iset<int>, i: int)
    requires IsRun(ss, es) && DrawsFrom(es, lifetimes)
    requires forall t :: t in lifetimes && 0 < t ==> NearlyWhole(t)
    ensures !LeavesUndue(ss, es, i)
  {
    hide WipeUser;
    if LeavesUndue(ss, es, i) {
      var sid :| Undue(ss[i + 1], es[i].user, sid);
      WipeLeavesOld(ss[i], es[i].user, sid);
      WipeTakesUndue(ss, es, lifetimes, i, es[i].user, sid);
    }
  }

  lemma NothingLiveLeft(ss: seq<State>, es: seq<Event>, lifetimes: iset<int>, i: int)
    requires IsRun(ss, es) && DrawsFrom(es, lifetimes) && LagsWithin(ss, es, 0)
    requires forall t :: t in lifetimes && 0 < t ==> NearlyWhole(t)
    ensures !LeavesLive(ss, es, i)
  {
    hide WipeUser;
    if LeavesLive(ss, es, i) {
      var sid :| Live(ss[i + 1], es[i].user, sid);
      WipeLeavesOld(ss[i], es[i].user, sid);
      RunOwner(ss, es, i, sid);
      LagOf(ss, es, 0, i, sid);
      WipeTakesUndue(ss, es, lifetimes, i, es[i].user, sid);
    }
  }

  /** One more event at the end of a run. */
  ghost function Extend(r: (seq<State>, seq<Event>), e: Event): (r': (seq<State>, seq<Event>))
    requires IsRun(r.0, r.1) && Enabled(r.0[|r.1|], e)
    ensures IsRun(r'.0, r'.1) && r'.1 == r.1 + [e] && r'.0 == r.0 + [Apply(r.0[|r.1|], e)]
  {
    (r.0 + [Apply(r.0[|r.1|], e)], r.1 + [e])
  }

  lemma TruncatedLapse(s: State, ttl: int)
    requires 0 < ttl && !NearlyWhole(ttl) && s.now == 0 && s.store == CreateTx(EMPTY_STORE, 0, 0, "s", ALICE, "d", ttl)
    requires s.born == map["s" := Birth("u", 0, 0, ttl)]
    ensures var s' := Apply(Apply(s, Tick(ExpireMillis(ttl) + 1)), Wipe("u")); Live(s', "u", "s") && Undue(s', "u", "s")
  {
    var s4 := Apply(s, Tick(ExpireMillis(ttl) + 1));
    assert "u" !in s4.store.index;
  }

  /** A lifetime that loses two milliseconds or more: in the last of them the index is gone
      while the session, not yet due, is there and survives the wipe. */
  lemma TruncatedMisses(ttl: int) returns (ss: seq<State>, es: seq<Event>)
    requires 0 < ttl && !NearlyWhole(ttl)
    ensures IsRun(ss, es) && DrawsFrom(es, iset{ttl}) && LagsWithin(ss, es, 0)
    ensures LeavesUndue(ss, es, |es| - 1) && LeavesLive(ss, es, |es| - 1)
  {
    hide Apply;
    var r := OneLogin(ttl, 0);
    TruncatedLapse(r.0[3], ttl);
    var r4 := Extend(r, Tick(ExpireMillis(ttl) + 1));
    var r5 := Extend(r4, Wipe("u"));
    ss, es := r5.0, r5.1;
  }

  lemma PrunedByLogin(index: map<string, Timed<Scores>>, clock: int, now: int, ttl: int)
    requires "u" in index ==> forall x :: x in index["u"].value ==> index["u"].value[x] <= clock
    ensures IndexAfterCreate(index, "u", "t", clock, now, ttl).value == map["t" := clock + ttl]
  {
    if "u" in index { assert Surviving(index["u"].value, clock) == map[]; }
  }

  const ALICE_AGAIN := ALICE.(accessJTI := "k")

  lemma LagPrunes(s: State, ttl: int, lag: nat) returns (s1: State, s2: State, s3: State)
    requires 0 < ttl && 0 < lag && s.now == lag && s.store == CreateTx(EMPTY_STORE, lag, 0, "s", ALICE, "d", ttl)
    requires s.procs == map[] && s.drawnSids == {"s"} && s.drawnDigests == {"d"} && s.drawnJTIs == {"j"}
    ensures var e1 := CreateBegin(0, "t", ALICE_AGAIN, "e", ttl);
      && s1 == Apply(s, Tick(ttl - 1)) && Enabled(s1, e1) && s2 == Apply(s1, e1) && Enabled(s2, CreateCommit(0))
      && s2.now == s2.procs[0].clock && s3 == Apply(s2, CreateCommit(0))
    ensures s3.now == lag + ttl - 1 && "s" in s3.store.sessions && s3.store.sessions["s"] == Timed(Record(ALICE, "d"), lag + ttl)
    ensures !Listed(s3.store, "u", "s")
  {
    s1 := Apply(s, Tick(ttl - 1));
    assert s1.store.sessions == map["s" := Timed(Record(ALICE, "d"), lag + ttl)];
    s2 := Apply(s1, CreateBegin(0, "t", ALICE_AGAIN, "e", ttl));
    PrunedByLogin(s2.store.index, s2.now, s2.now, ttl);
    s3 := Apply(s2, CreateCommit(0));
  }

  lemma WipeSkipsUnlisted(s: State, user: string, sid: string)
    requires user != "" && sid in s.store.sessions && !Listed(s.store, user, sid)
    ensures var s' := WipeUser(s, user); s'.now == s.now && sid in s'.store.sessions && s'.store.sessions[sid] == s.store.sessions[sid]
  {
  }

  /** Whatever the lifetime, and however short the lag of the first login: the user logs in
      again when the first session is due but not at its end, which prunes it; the wipe leaves
      it, and its token is accepted afterwards. */
  lemma LagMisses(ttl: int, lag: nat) returns (ss: seq<State>, es: seq<Event>, token: Token)
    requires 0 < ttl && 0 < lag
    ensures IsRun(ss, es) && DrawsFrom(es, iset{ttl}) && LagsWithin(ss, es, lag)
    ensures es != [] && LeavesLive(ss, es, |es| - 1) && token.userID == es[|es| - 1].user
    ensures Authenticates(ss[|es|].store, ss[|es|].now, token)
  {
    hide WipeUser, CommitCreate, BeginCreate, Advance;
    var r := OneLogin(ttl, lag);
    var s1, s2, s3 := LagPrunes(r.0[3], ttl, lag);
    var r4 := Extend(r, Tick(ttl - 1));
    var r5 := Extend(r4, CreateBegin(0, "t", ALICE_AGAIN, "e", ttl));
    var r6 := Extend(r5, CreateCommit(0));
    WipeSkipsUnlisted(s3, "u", "s");
    var r7 := Extend(r6, Wipe("u"));
    ss, es := r7.0, r7.1;
    assert Live(ss[|es|], "u", "s");
    token := Token("u", "s", "j", ss[|es|].now + 1);
  }

  /** In all runs with these lifetimes, whatever the lags, a wipe takes every session of its
      user that has not fallen due, if and only if EXPIRE cuts at most one millisecond. */
  lemma WipeTakesUndueIff(lifetimes: iset<int>)
    ensures (forall ss: seq<State>, es: seq<Event>, i :: IsRun(ss, es) && DrawsFrom(es, lifetimes) ==> !LeavesUndue(ss, es, i))
      <==> (forall t :: t in lifetimes && 0 < t ==> NearlyWhole(t))
  {
    if forall t :: t in lifetimes && 0 < t ==> NearlyWhole(t) {
      forall ss: seq<State>, es: seq<Event>, i | IsRun(ss, es) && DrawsFrom(es, lifetimes) ensures !LeavesUndue(ss, es, i) {
        NothingUndueLeft(ss, es, lifetimes, i);
      }
    } else {
      var t :| t in lifetimes && 0 < t && !NearlyWhole(t);
      var ss, es := TruncatedMisses(t);
      assert DrawsFrom(es, lifetimes);
    }
  }

  /** In all runs with these lifetimes and lags of at most `lag`, a wipe takes every session of
      its user that is before its end, if and only if no login lags and EXPIRE cuts at most one
      millisecond, or there are no logins. */
  lemma WipeCompleteIff(lifetimes: iset<int>, lag: nat)
    ensures (forall ss: seq<State>, es: seq<Event>, i ::
               IsRun(ss, es) && DrawsFrom(es, lifetimes) && LagsWithin(ss, es, lag) ==> !LeavesLive(ss, es, i))
      <==> (forall t :: t in lifetimes && 0 < t ==> lag == 0 && NearlyWhole(t))
  {
    if forall t :: t in lifetimes && 0 < t ==> lag == 0 && NearlyWhole(t) {
      forall ss: seq<State>, es: seq<Event>, i | IsRun(ss, es) && DrawsFrom(es, lifetimes) && LagsWithin(ss, es, lag)
        ensures !LeavesLive(ss, es, i)
      {
        if LeavesLive(ss, es, i) {
          var sid :| Live(ss[i + 1], es[i].user, sid);
          SomeLifetime(ss, es, lifetimes, i + 1, sid);
          NothingLiveLeft(ss, es, lifetimes, i);
        }
      }
    } else {
      var t :| t in lifetimes && 0 < t && !(lag == 0 && NearlyWhole(t));
      if lag > 0 {
        var ss, es, _ := LagMisses(t, lag);
        assert DrawsFrom(es, lifetimes);
      } else {
        var ss, es := TruncatedMisses(t);
        assert DrawsFrom(es, lifetimes);
      }
    }
  }

  lemma SomeLifetime(ss: seq<State>, es: seq<Event>, lifetimes: iset<int>, i: nat, sid: string)
    requires IsRun(ss, es) && DrawsFrom(es, lifetimes) && i < |ss| && sid in ss[i].store.sessions
    ensures exists t :: t in lifetimes && 0 < t
  {
    RunOwner(ss, es, i, sid);
    var k := BirthStep(ss, es, i, sid);
    RunCreatesFrom(ss, es, lifetimes, k);
    assert ss[k].procs[es[k].p].ttl in lifetimes;
  }

  // ---------------------------------------------------------------- who is shown as online

  /** A readable session of the user that has kept its index entry and is not past due. */
  ghost predicate Shown(ss: seq<State>, es: seq<Event>, i: nat, user: string, sid: string)
    requires i <= |es| < |ss|
  {
    && sid in ss[i].store.sessions && ss[i].store.sessions[sid].value.session.userID == user
    && sid in ss[i].born && ss[i].now <= ss[i].born[sid].Due() && !Dropped(ss, es, i, sid)
  }

  lemma ListedShown(ss: seq<State>, es: seq<Event>, i: nat, user: string, sid: string)
    requires IsRun(ss, es) && i < |ss|
    ensures Listed(ss[i].store, user, sid) && ss[i].now <= ss[i].store.index[user].value[sid] <==> Shown(ss, es, i, user, sid)
  {
    hide Dropped;
    StoreStaysCoherent(ss, es, i);
    if sid in ss[i].store.sessions {
      RunOwner(ss, es, i, sid);
      ListedIffNotDropped(ss, es, i, sid);
    }
  }

  /** In every state of every run, exactly the users with such a session are online; so being
      online is having a readable session if and only if one of the user's readable sessions, if
      any, is such. */
  lemma OnlineIffShown(ss: seq<State>, es: seq<Event>, i: nat, user: string)
    requires IsRun(ss, es) && i < |ss|
    ensures Online(ss[i].store, ss[i].now, user) <==> exists sid :: Shown(ss, es, i, user, sid)
    ensures (Online(ss[i].store, ss[i].now, user) <==> HasSession(ss[i].store, user))
      <==> (HasSession(ss[i].store, user) ==> exists sid :: Shown(ss, es, i, user, sid))
  {
    forall sid ensures Listed(ss[i].store, user, sid) && ss[i].now <= ss[i].store.index[user].value[sid] <==> Shown(ss, es, i, user, sid) {
      ListedShown(ss, es, i, user, sid);
    }
  }

  /** Time passes, or a call asks who is online. */
  predicate OnlyReads(e: Event) { e.Tick? || e.OnlineBegin? || e.OnlineRange? || e.OnlineExists? }

  lemma {:induction false} ReadsKeepHistory(ss: seq<State>, es: seq<Event>, i: nat, j: nat)
    requires IsRun(ss, es) && i <= j < |ss| && forall k :: i <= k < j ==> OnlyReads(es[k])
    ensures ss[j].born == ss[i].born && ss[j].revoked == ss[i].revoked
    decreases j
  {
    if i < j { ReadsKeepHistory(ss, es, i, j - 1); }
  }

  /** OnlineMap asks Redis twice.  With only time passing in between, a user whose first entry
      not yet due the first pipeline found is reported online by the second if and only if that
      session has not ended meanwhile; a later session of the user does not help. */
  lemma OnlineUnlessEnded(ss: seq<State>, es: seq<Event>, i: nat, j: nat, p: nat, sid: string)
    requires IsRun(ss, es) && i < j < |es| && (forall k :: i <= k < j ==> OnlyReads(es[k]))
    requires es[i] == OnlineRange(p, Some(sid)) && ss[i].procs[p].todo != []
    requires es[j] == OnlineExists(p) && ss[j].procs[p].left != [] && ss[j].procs[p].left[0] == sid
    ensures sid in ss[i].born && ss[i].born[sid].user == ss[i].procs[p].todo[0]
    ensures var user := ss[i].procs[p].todo[0];
      user in ss[j + 1].procs[p].online <==> user in ss[j].procs[p].online || ss[j].now <= ss[i].born[sid].End()
  {
    hide Apply;
    FoundEntry(ss, es, i, p, sid);
    ReadsKeepHistory(ss, es, i, j);
    CheckedEntry(ss, es, j, p, sid);
  }

  lemma FoundEntry(ss: seq<State>, es: seq<Event>, i: nat, p: nat, sid: string)
    requires IsRun(ss, es) && i < |es| && es[i] == OnlineRange(p, Some(sid)) && ss[i].procs[p].todo != []
    ensures sid in ss[i].born && sid !in ss[i].revoked && ss[i].born[sid].user == ss[i].procs[p].todo[0]
  {
    RunInv(ss, es, i);
    assert MemberOk(ss[i], ss[i].procs[p].todo[0], sid);
  }

  lemma EntryReadable(s: State, sid: string)
    requires Inv(s) && sid in s.born && sid !in s.revoked
    ensures sid in s.store.sessions <==> s.now <= s.born[sid].End()
  {
    assert sid in s.store.sessions ==> SessionOk(s, sid);
  }

  lemma OwnerOf(s: State, p: nat, sid: string)
    requires Inv(s) && p in s.procs && s.procs[p].Checking? && sid in s.procs[p].left && sid in s.born
    ensures sid in s.procs[p].owner && s.procs[p].owner[sid] == s.born[sid].user
  {
    assert ProcOk(s, s.procs[p]);
  }

  lemma CheckedEntry(ss: seq<State>, es: seq<Event>, j: nat, p: nat, sid: string)
    requires IsRun(ss, es) && j < |es| && es[j] == OnlineExists(p) && ss[j].procs[p].left != [] && ss[j].procs[p].left[0] == sid
    requires sid in ss[j].born && sid !in ss[j].revoked
    ensures var user := ss[j].born[sid].user;
      user in ss[j + 1].procs[p].online <==> user in ss[j].procs[p].online || ss[j].now <= ss[j].born[sid].End()
  {
    hide Inv;
    RunInv(ss, es, j);
    EntryReadable(ss[j], sid);
    OwnerOf(ss[j], p, sid);
  }

  // ---------------------------------------------------------------- an undisturbed OnlineMap

  /** Call `p` asks who is online. */
  predicate Asking(e: Event, p: nat) { (e.OnlineRange? || e.OnlineExists?) && e.p == p }

  /** Each user's first entry not yet due, for the users already asked about. */
  ghost predicate RangedOk(st: Store, now: int, all: seq<string>, c: Proc)
    requires c.Ranging?
  {
    && c.clock == now && |c.todo| <= |all| && c.todo == all[|all| - |c.todo|..]
    && (forall sid :: sid in c.found ==> sid in c.owner && sid in st.sessions)
    && (forall sid :: sid in c.owner ==> sid in st.sessions && st.sessions[sid].value.session.userID == c.owner[sid])
    && (forall sid :: sid in c.found ==> c.owner[sid] in all[..|all| - |c.todo|])
    && (forall u :: u in all[..|all| - |c.todo|] ==> (Online(st, now, u) <==> exists sid :: sid in c.found && c.owner[sid] == u))
  }

  /** The users found and not yet confirmed, and those confirmed. */
  ghost predicate CheckedOk(st: Store, now: int, all: seq<string>, c: Proc)
    requires c.Checking?
  {
    && (forall sid :: sid in c.left ==> sid in c.owner && sid in st.sessions)
    && (forall sid :: sid in c.left ==> c.owner[sid] in all) && (forall u :: u in c.online ==> u in all)
    && (forall u :: u in all ==> (Online(st, now, u) <==> u in c.online || exists sid :: sid in c.left && c.owner[sid] == u))
  }

  ghost predicate AnswersOk(st: Store, now: int, all: seq<string>, c: Proc) {
    match c
    case Ranging(_, _, _, _) => RangedOk(st, now, all, c)
    case Checking(_, _, _) => CheckedOk(st, now, all, c)
    case _ => false
  }

  lemma RangeAsks(st: Store, now: int, all: seq<string>, c: Proc, pick: Option<string>)
    requires IndexSound(st, now) && c.Ranging? && RangedOk(st, now, all, c) && c.todo != [] && FirstAtOrAfter(st.index, c.todo[0], now, pick)
    requires forall i, j :: 0 <= i < j < |all| ==> all[i] != all[j]
    ensures AnswersOk(st, now, all, RangeNext(c, pick))
  {
    var k, user, c' := |all| - |c.todo|, c.todo[0], RangeNext(c, pick);
    assert user == all[k] && all[..k + 1] == all[..k] + [user];
    assert pick.Some? ==> Listed(st, user, pick.value);
    assert Online(st, now, user) <==> pick.Some?;
    assert user !in all[..k];
    forall u | u in all[..k + 1] ensures Online(st, now, u) <==> exists sid :: sid in c'.found && c'.owner[sid] == u {
      if u == user {
        if pick.Some? { assert pick.value in c'.found && c'.owner[pick.value] == u; }
      } else {
        assert u in all[..k];
        if sid :| sid in c.found && c.owner[sid] == u { assert sid in c'.found && c'.owner[sid] == u; }
        if sid :| sid in c'.found && c'.owner[sid] == u { assert sid in c.found; }
      }
    }
  }

  lemma RangeDone(st: Store, now: int, all: seq<string>, c: Proc, pick: Option<string>)
    requires c.Ranging? && RangedOk(st, now, all, c) && c.todo == []
    ensures AnswersOk(st, now, all, RangeNext(c, pick))
  {
    assert all[..|all|] == all;
  }

  lemma ExistsAsks(st: Store, now: int, all: seq<string>, c: Proc)
    requires c.Checking? && CheckedOk(st, now, all, c)
    ensures AnswersOk(st, now, all, ExistsNext(c, st))
  {
    if c.left != [] {
      var c' := ExistsNext(c, st);
      assert forall sid :: sid in c.left <==> sid == c.left[0] || sid in c'.left;
    }
  }

  lemma {:induction false} AskingOk(ss: seq<State>, es: seq<Event>, i: nat, j: nat, p: nat, users: seq<string>)
    requires IsRun(ss, es) && i < j < |ss| && es[i] == OnlineBegin(p, users) && forall k :: i < k < j ==> Asking(es[k], p)
    ensures ss[j].store == ss[i].store && ss[j].now == ss[i].now && p in ss[j].procs
    ensures AnswersOk(ss[i].store, ss[i].now, Distinct(users), ss[j].procs[p])
    decreases j
  {
    hide Distinct, Inv;
    if j == i + 1 {
      assert Distinct(users)[0..] == Distinct(users);
    } else {
      AskingOk(ss, es, i, j - 1, p, users);
      StoreStaysCoherent(ss, es, i);
      var c, e := ss[j - 1].procs[p], es[j - 1];
      if e.OnlineExists? {
        ExistsAsks(ss[i].store, ss[i].now, Distinct(users), c);
      } else if c.todo == [] {
        RangeDone(ss[i].store, ss[i].now, Distinct(users), c, e.pick);
      } else {
        RangeAsks(ss[i].store, ss[i].now, Distinct(users), c, e.pick);
      }
    }
  }

  /** An OnlineMap call that nothing disturbs, in any state of any run, ends by reporting exactly
      those of the users asked about that are online. */
  lemma OnlineAnswersAll(ss: seq<State>, es: seq<Event>, i: nat, j: nat, p: nat, users: seq<string>)
    requires IsRun(ss, es) && i < j < |ss| && es[i] == OnlineBegin(p, users) && forall k :: i < k < j ==> Asking(es[k], p)
    requires p in ss[j].procs && ss[j].procs[p].Checking? && ss[j].procs[p].left == []
    ensures forall u :: u in ss[j].procs[p].online <==> u in users && u != "" && Online(ss[i].store, ss[i].now, u)
  {
    hide Online, Apply;
    AskingOk(ss, es, i, j, p, users);
  }
}
