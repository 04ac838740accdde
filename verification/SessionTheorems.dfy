/** What the session store guarantees over whole runs: any number of concurrent calls, in
    any interleaving, for any length of time. */
module SessionTheorems {
  import opened Entities
  import opened SessionStore
  import opened SessionProtocol
  import opened Middleware

  ghost predicate IsRun(ss: seq<State>, es: seq<Event>) {
    && |ss| == |es| + 1
    && ss[0] == Initial(ss[0].now)
    && forall i :: 0 <= i < |es| ==> Enabled(ss[i], es[i]) && ss[i + 1] == Apply(ss[i], es[i])
  }

  lemma {:induction false} RunInv(ss: seq<State>, es: seq<Event>, i: nat)
    requires IsRun(ss, es) && i < |ss|
    ensures Inv(ss[i])
  {
    if i == 0 {
      InitialInv(ss[0].now);
    } else {
      RunInv(ss, es, i - 1);
      StepInv(ss[i - 1], es[i - 1]);
    }
  }

  // ---------------------------------------------------------------- coherence

  /** Sessions and refresh keys pair off, with one common end. */
  ghost predicate Paired(s: State) {
    && (forall sid :: sid in s.store.sessions ==>
          var c := s.store.sessions[sid];
          && c.value.refreshDigest in s.store.refresh
          && s.store.refresh[c.value.refreshDigest].expireAt == c.expireAt
          && forall d :: d in s.store.refresh && s.store.refresh[d].value == sid ==> d == c.value.refreshDigest)
    && (forall d :: d in s.store.refresh ==>
          var sid := s.store.refresh[d].value;
          && sid in s.store.sessions && s.store.sessions[sid].value.refreshDigest == d)
  }

  /** An index entry that has not fallen due is a readable session of that user. */
  ghost predicate IndexSound(st: Store, now: int) {
    forall u, sid :: Listed(st, u, sid) && now <= st.index[u].value[sid] ==>
      sid != "" && sid in st.sessions && st.sessions[sid].value.session.userID == u
  }

  /** The user has a readable session that its index lists as not yet due. */
  ghost predicate Online(st: Store, now: int, user: string) {
    exists sid :: Listed(st, user, sid) && now <= st.index[user].value[sid]
  }

  ghost predicate HasSession(st: Store, user: string) {
    exists sid :: sid in st.sessions && st.sessions[sid].value.session.userID == user
  }

  /** A session that has not fallen due, and is not in the last milliseconds that EXPIRE cut
      off, is in its own user's index, scored by when it falls due, and in no other; it falls
      due at its end unless its client's clock reading was old. */
  ghost predicate Indexed(s: State) {
    forall sid :: sid in s.store.sessions ==>
      && sid in s.born && s.store.sessions[sid].expireAt == s.born[sid].End()
      && s.born[sid].Due() <= s.born[sid].End()
      && (s.born[sid].Due() == s.born[sid].End() <==> s.born[sid].clock == s.born[sid].at)
      && (forall u :: Listed(s.store, u, sid) ==>
            u == s.store.sessions[sid].value.session.userID && s.store.index[u].value[sid] == s.born[sid].Due())
      && (s.now < s.born[sid].Due() && s.now + s.slack <= s.born[sid].End() ==> Listed(s.store, s.store.sessions[sid].value.session.userID, sid))
  }

  lemma InvPaired(s: State)
    requires Inv(s)
    ensures Paired(s)
  {
    assert forall sid :: sid in s.store.sessions ==> SessionOk(s, sid);
  }

  lemma InvIndexed(s: State)
    requires Inv(s)
    ensures IndexSound(s.store, s.now) && Indexed(s)
  {
    forall u, sid | Listed(s.store, u, sid) && s.now <= s.store.index[u].value[sid]
      ensures sid != "" && sid in s.store.sessions && s.store.sessions[sid].value.session.userID == u
    {
      assert MemberOk(s, u, sid) && BirthOk(s, sid);
      assert SessionOk(s, sid);
    }
    forall sid | sid in s.store.sessions
      ensures sid in s.born && s.born[sid].Due() <= s.born[sid].End()
      ensures forall u :: Listed(s.store, u, sid) ==> u == s.born[sid].user && s.store.index[u].value[sid] == s.born[sid].Due()
    {
      assert SessionOk(s, sid) && BirthOk(s, sid);
      assert forall u :: Listed(s.store, u, sid) ==> MemberOk(s, u, sid);
    }
    forall sid | sid in s.store.sessions && s.now < s.born[sid].Due() && s.now + s.slack <= s.born[sid].End()
      ensures Listed(s.store, s.store.sessions[sid].value.session.userID, sid)
    {
      NotDueHeld(s, sid);
    }
  }

  /** No clock reading is ahead of Redis, so no login overtakes a session that is not due. */
  lemma NotDueHeld(s: State, sid: string)
    requires Inv(s) && sid in s.store.sessions && sid in s.born && s.now < s.born[sid].Due() && s.now + s.slack <= s.born[sid].End()
    ensures s.born[sid].user == s.store.sessions[sid].value.session.userID && Held(s, sid) && Listed(s.store, s.born[sid].user, sid)
  {
    assert SessionOk(s, sid);
    assert forall y :: y in s.born ==> BirthOk(s, y);
  }

  /** In every state of every run the three kinds of keys agree. */
  lemma StoreStaysCoherent(ss: seq<State>, es: seq<Event>, i: nat)
    requires IsRun(ss, es) && i < |ss|
    ensures Paired(ss[i]) && IndexSound(ss[i].store, ss[i].now) && Indexed(ss[i])
  {
    RunInv(ss, es, i);
    InvPaired(ss[i]);
    InvIndexed(ss[i]);
  }

  /** What a call is about to write, and what is stored, is complete. */
  ghost predicate Complete(s: State) {
    && (forall p :: p in s.procs ==>
          match s.procs[p]
          case Creating(_, session, digest, _, _) => session.role.Valid() && session.userID != "" && session.accessJTI != "" && digest != ""
          case RotateLooked(_, nextDigest, nextJTI, _) => nextDigest != "" && nextJTI != ""
          case RotateLoaded(_, nextDigest, nextJTI, _, _) => nextDigest != "" && nextJTI != ""
          case _ => true)
    && (forall sid :: sid in s.store.sessions ==> CompleteRecord(s.store.sessions[sid].value))
  }

  predicate CompleteRecord(r: Record) {
    r.session.role.Valid() && r.session.userID != "" && r.session.accessJTI != "" && r.refreshDigest != ""
  }

  lemma StepComplete(s: State, e: Event)
    requires Complete(s) && Enabled(s, e)
    ensures Complete(Apply(s, e))
  {
    hide IndexAfterCreate, RemoveMember, Wiped, Digests, Distinct, FirstAtOrAfter, CompleteRecord;
    match e {
      case CreateCommit(p) => CreateComplete(s, p);
      case RotateCommit(p) => RotateComplete(s, p);
      case _ =>
    }
  }

  lemma CreateComplete(s: State, p: nat)
    requires Complete(s) && Enabled(s, CreateCommit(p))
    ensures Complete(CommitCreate(s, p))
  {
    hide IndexAfterCreate;
  }

  lemma RotateComplete(s: State, p: nat)
    requires Complete(s) && Enabled(s, RotateCommit(p))
    ensures Complete(CommitRotate(s, p))
  {
  }

  /** No run ever stores a session with an unknown role, or without user, jti or digest. */
  lemma {:induction false} StoredComplete(ss: seq<State>, es: seq<Event>, i: nat)
    requires IsRun(ss, es) && i < |ss|
    ensures Complete(ss[i])
  {
    hide Apply;
    if i > 0 {
      StoredComplete(ss, es, i - 1);
      StepComplete(ss[i - 1], es[i - 1]);
    }
  }

  // ---------------------------------------------------------------- one winner per refresh token

  /** What never shrinks. */
  ghost predicate Later(s: State, s': State) {
    && Grows(s, s') && s.spent <= s'.spent && s.revoked <= s'.revoked && s.retired <= s'.retired && s.slack <= s'.slack
  }

  /** Session ids are not written twice. */
  ghost predicate WritesNewSid(s: State, e: Event) {
    e.CreateCommit? && e.p in s.procs && s.procs[e.p].Creating? ==> s.procs[e.p].sid !in s.born
  }

  lemma RunWritesNewSid(ss: seq<State>, es: seq<Event>, i: nat)
    requires IsRun(ss, es) && i < |es|
    ensures WritesNewSid(ss[i], es[i])
  {
    RunInv(ss, es, i);
    if es[i].CreateCommit? {
      var c := ss[i].procs[es[i].p];
      assert ProcOk(ss[i], c) && c.sid in NewSid(c);
    }
  }

  lemma StepLater(s: State, e: Event)
    requires Enabled(s, e) && WritesNewSid(s, e)
    ensures Later(s, Apply(s, e))
  {
    hide CreateTx, RotateScript, DeleteScript, WipeScript, Wiped, Advance, Distinct, FirstAtOrAfter, RangeNext, ExistsNext, ExpireMillis;
  }

  lemma {:induction false} RunLater(ss: seq<State>, es: seq<Event>, i: nat, j: nat)
    requires IsRun(ss, es) && i <= j < |ss|
    ensures Later(ss[i], ss[j])
    decreases j
  {
    hide Apply;
    if i < j {
      RunLater(ss, es, i, j - 1);
      RunWritesNewSid(ss, es, j - 1);
      StepLater(ss[j - 1], es[j - 1]);
    }
  }

  /** A rotation that commits at step `i`. */
  ghost predicate WinsAt(ss: seq<State>, es: seq<Event>, i: nat, digest: string)
    requires IsRun(ss, es)
  {
    i < |es| && es[i].RotateCommit? && CommitWins(ss[i], es[i].p) && ss[i].procs[es[i].p].digest == digest
  }

  /** A replaced digest is never readable again. */
  lemma SpentUnreadable(ss: seq<State>, es: seq<Event>, i: nat, digest: string)
    requires IsRun(ss, es) && i < |ss| && digest in ss[i].spent
    ensures digest !in ss[i].store.refresh
  {
    RunInv(ss, es, i);
    var s := ss[i];
    assert digest in s.store.refresh ==> SessionOk(s, s.store.refresh[digest].value);
  }

  lemma NoSecondWin(ss: seq<State>, es: seq<Event>, i: nat, j: nat, digest: string)
    requires IsRun(ss, es) && i < j < |es| && WinsAt(ss, es, i, digest)
    ensures !WinsAt(ss, es, j, digest)
  {
    RunLater(ss, es, i + 1, j);
    assert digest in ss[i + 1].spent;
    SpentUnreadable(ss, es, j, digest);
  }

  /** However many rotations hold the same refresh token, at most one ever commits; every
      other one that reaches its commit, before or after, leaves the store as it was. */
  lemma OneWinnerPerDigest(ss: seq<State>, es: seq<Event>, i: nat, j: nat, digest: string)
    requires IsRun(ss, es) && WinsAt(ss, es, i, digest)
    requires j < |es| && j != i && es[j].RotateCommit? && ss[j].procs[es[j].p].digest == digest
    ensures !WinsAt(ss, es, j, digest) && ss[j + 1].store == ss[j].store
  {
    if i < j {
      NoSecondWin(ss, es, i, j, digest);
    } else if WinsAt(ss, es, j, digest) {
      NoSecondWin(ss, es, j, i, digest);
    }
  }

  // ---------------------------------------------------------------- revocation is permanent

  /** Nothing in the store or behind a token leads to the session. */
  ghost predicate Gone(s: State, sid: string) {
    && sid !in s.store.sessions
    && (forall d :: d in s.store.refresh ==> s.store.refresh[d].value != sid)
    && (forall token: Token :: token.sessionID == sid ==> !Authenticates(s.store, s.now, token))
  }

  lemma StepKeepsAbsent(s: State, e: Event, sid: string)
    requires Enabled(s, e) && WritesNewSid(s, e) && sid in s.born && sid !in s.store.sessions
    ensures sid !in Apply(s, e).store.sessions
  {
  }

  lemma {:induction false} AbsentForever(ss: seq<State>, es: seq<Event>, i: nat, j: nat, sid: string)
    requires IsRun(ss, es) && i <= j < |ss|
    requires sid in ss[i].born && sid !in ss[i].store.sessions
    ensures sid !in ss[j].store.sessions
    decreases j
  {
    hide Apply;
    if i < j {
      AbsentForever(ss, es, i, j - 1, sid);
      RunWritesNewSid(ss, es, j - 1);
      RunLater(ss, es, i, j - 1);
      StepKeepsAbsent(ss[j - 1], es[j - 1], sid);
    }
  }

  /** A session that was created and is no longer readable, whether deleted, wiped or
      expired, never comes back, even if rotations or logouts that read it are in flight. */
  lemma GoneForever(ss: seq<State>, es: seq<Event>, i: nat, j: nat, sid: string)
    requires IsRun(ss, es) && i <= j < |ss|
    requires sid in ss[i].born && sid !in ss[i].store.sessions
    ensures Gone(ss[j], sid)
  {
    AbsentForever(ss, es, i, j, sid);
    RunInv(ss, es, j);
    InvPaired(ss[j]);
  }

  ghost predicate Removal(s: State, e: Event, sid: string) {
    e == Delete(sid) || (e.Wipe? && e.user != "" && sid in Wiped(s.store, e.user))
  }

  lemma RemovalRevokes(s: State, e: Event, sid: string)
    requires sid != "" && sid in s.store.sessions && Removal(s, e, sid)
    ensures sid in Apply(s, e).revoked && sid !in Apply(s, e).store.sessions && Apply(s, e).born == s.born
  {
  }

  lemma ReadableNamed(ss: seq<State>, es: seq<Event>, i: nat, sid: string)
    requires IsRun(ss, es) && i < |ss| && sid in ss[i].store.sessions
    ensures sid != "" && sid in ss[i].born
  {
    RunInv(ss, es, i);
    assert SessionOk(ss[i], sid) && BirthOk(ss[i], sid);
  }

  /** Deleting a readable session, at any moment, is such an end. */
  lemma DeletionIsFinal(ss: seq<State>, es: seq<Event>, i: nat, j: nat, sid: string)
    requires IsRun(ss, es) && i < j < |ss| && sid in ss[i].store.sessions && Removal(ss[i], es[i], sid)
    ensures sid in ss[j].revoked && Gone(ss[j], sid)
  {
    hide Apply, Removal;
    ReadableNamed(ss, es, i, sid);
    RemovalRevokes(ss[i], es[i], sid);
    RunLater(ss, es, i + 1, j);
    GoneForever(ss, es, i + 1, j, sid);
  }

  // ---------------------------------------------------------------- accepted tokens

  /** The access jti that step `i` writes for `sid`, read off the event alone. */
  ghost function WrittenJTI(s: State, e: Event, sid: string): Option<string>
    requires Enabled(s, e)
  {
    match e
    case CreateCommit(p) => if s.procs[p].sid == sid then Some(s.procs[p].session.accessJTI) else None
    case RotateCommit(p) => if CommitWins(s, p) && s.procs[p].sid == sid then Some(s.procs[p].nextJTI) else None
    case _ => None
  }

  /** The jti of the session's login or of its most recent successful rotation before state `i`. */
  ghost function LatestJTI(ss: seq<State>, es: seq<Event>, i: nat, sid: string): Option<string>
    requires IsRun(ss, es) && i < |ss|
  {
    if i == 0 then None
    else
      var w := WrittenJTI(ss[i - 1], es[i - 1], sid);
      if w.Some? then w else LatestJTI(ss, es, i - 1, sid)
  }

  lemma StepJTI(s: State, e: Event, sid: string)
    requires Enabled(s, e)
    ensures var s', w := Apply(s, e), WrittenJTI(s, e, sid);
      (sid in s'.jti <==> sid in s.jti || w.Some?) && (sid in s'.jti ==> s'.jti[sid] == if w.Some? then w.value else s.jti[sid])
  {
  }

  lemma {:induction false} LatestJTIRecorded(ss: seq<State>, es: seq<Event>, i: nat, sid: string)
    requires IsRun(ss, es) && i < |ss|
    ensures LatestJTI(ss, es, i, sid) == if sid in ss[i].jti then Some(ss[i].jti[sid]) else None
  {
    if i > 0 {
      LatestJTIRecorded(ss, es, i - 1, sid);
      StepJTI(ss[i - 1], es[i - 1], sid);
    }
  }

  /** The step at which a session's Create committed. */
  ghost predicate BornAt(ss: seq<State>, es: seq<Event>, k: nat, sid: string, b: Birth)
    requires IsRun(ss, es)
  {
    && k < |es| && es[k].CreateCommit? && ss[k].procs[es[k].p].sid == sid
    && b == Birth(ss[k].procs[es[k].p].session.userID, ss[k].procs[es[k].p].clock, ss[k].now, ss[k].procs[es[k].p].ttl)
  }

  lemma {:induction false} BirthStep(ss: seq<State>, es: seq<Event>, i: nat, sid: string) returns (k: nat)
    requires IsRun(ss, es) && i < |ss| && sid in ss[i].born
    ensures k < i && BornAt(ss, es, k, sid, ss[i].born[sid])
  {
    var e, s := es[i - 1], ss[i - 1];
    if e.CreateCommit? && s.procs[e.p].sid == sid {
      k := i - 1;
    } else {
      BornOnlyByCreate(s, e, sid);
      k := BirthStep(ss, es, i - 1, sid);
    }
  }

  lemma BornOnlyByCreate(s: State, e: Event, sid: string)
    requires Enabled(s, e) && !(e.CreateCommit? && s.procs[e.p].sid == sid)
    ensures sid in Apply(s, e).born <==> sid in s.born
    ensures sid in s.born ==> Apply(s, e).born[sid] == s.born[sid]
  {
  }

  /** A token accepted in any state of any run carries the jti of its session's login or most
      recent successful rotation, and the login's lifetime has not passed. */
  lemma AcceptedTokenIsCurrent(ss: seq<State>, es: seq<Event>, i: nat, token: Token)
    requires IsRun(ss, es) && i < |ss| && Authenticates(ss[i].store, ss[i].now, token)
    ensures LatestJTI(ss, es, i, token.sessionID) == Some(token.accessJTI)
    ensures exists k: nat, b: Birth :: k < i && BornAt(ss, es, k, token.sessionID, b)
              && b.user == token.userID && ss[i].now <= ss[k].now + b.ttl
  {
    RunInv(ss, es, i);
    assert SessionOk(ss[i], token.sessionID);
    LatestJTIRecorded(ss, es, i, token.sessionID);
    var k := BirthStep(ss, es, i, token.sessionID);
    assert BornAt(ss, es, k, token.sessionID, ss[i].born[token.sessionID]);
  }

  /** The access token that a successful rotation replaces is never accepted again. */
  lemma ReplacedTokenNeverAccepted(ss: seq<State>, es: seq<Event>, i: nat, j: nat, token: Token)
    requires IsRun(ss, es) && i < j < |ss| && es[i].RotateCommit? && CommitWins(ss[i], es[i].p)
    requires token.sessionID == ss[i].procs[es[i].p].sid
    requires token.accessJTI == ss[i].procs[es[i].p].record.session.accessJTI
    ensures !Authenticates(ss[j].store, ss[j].now, token)
  {
    RunLater(ss, es, i + 1, j);
    assert (token.sessionID, token.accessJTI) in ss[i + 1].retired;
    RunInv(ss, es, j);
    assert token.sessionID in ss[j].store.sessions ==> SessionOk(ss[j], token.sessionID);
  }

  // ---------------------------------------------------------------- absolute expiry

  /** Rotations neither extend nor shorten a session: record and refresh key keep the end set
      by the login, from any state to any later one. */
  lemma ExpiryConserved(ss: seq<State>, es: seq<Event>, i: nat, j: nat, sid: string)
    requires IsRun(ss, es) && i <= j < |ss| && sid in ss[i].store.sessions && sid in ss[j].store.sessions
    ensures ss[j].store.sessions[sid].expireAt == ss[i].store.sessions[sid].expireAt
    ensures ss[j].store.sessions[sid].value.refreshDigest in ss[j].store.refresh
    ensures ss[j].store.refresh[ss[j].store.sessions[sid].value.refreshDigest].expireAt == ss[i].store.sessions[sid].expireAt
  {
    RunInv(ss, es, i);
    RunInv(ss, es, j);
    RunLater(ss, es, i, j);
    assert SessionOk(ss[i], sid) && SessionOk(ss[j], sid);
  }

  /** A rotation that wins at step `i` of a run returns the login's time plus its lifetime minus
      now, which is positive, and both of its keys end then. */
  lemma RotationReturnsTimeLeft(ss: seq<State>, es: seq<Event>, i: nat)
    requires IsRun(ss, es) && i < |es| && es[i].RotateCommit? && CommitWins(ss[i], es[i].p)
    ensures var s, c := ss[i], ss[i].procs[es[i].p];
      var out := RotateScript(s.store, s.now, c.sid, c.digest, c.nextDigest, c.record, Rotated(c.record, c.nextDigest, c.nextJTI));
      && (exists k: nat, b: Birth :: k < i && BornAt(ss, es, k, c.sid, b) && out.1 == ss[k].now + b.ttl - s.now)
      && 0 < out.1 && ss[i + 1].store == out.0
      && c.sid in out.0.sessions && out.0.sessions[c.sid].expireAt == s.now + out.1
      && c.nextDigest in out.0.refresh && out.0.refresh[c.nextDigest] == Timed(c.sid, s.now + out.1)
  {
    var c := ss[i].procs[es[i].p];
    RunInv(ss, es, i);
    assert SessionOk(ss[i], c.sid);
    var k := BirthStep(ss, es, i, c.sid);
    assert BornAt(ss, es, k, c.sid, ss[i].born[c.sid]);
  }

  // ---------------------------------------------------------------- logout against rotation

  /** A logout keeps the session id it looked up until its own second step. */
  lemma StepKeepsLogout(s: State, e: Event, p: nat)
    requires Enabled(s, e) && p in s.procs && s.procs[p].LoggingOut? && e != LogoutCommit(p)
    ensures p in Apply(s, e).procs && Apply(s, e).procs[p] == s.procs[p]
  {
  }

  lemma {:induction false} LogoutWaits(ss: seq<State>, es: seq<Event>, i: nat, j: nat, p: nat)
    requires IsRun(ss, es) && i <= j < |ss| && p in ss[i].procs && ss[i].procs[p].LoggingOut?
    requires forall k :: i <= k < j ==> es[k] != LogoutCommit(p)
    ensures p in ss[j].procs && ss[j].procs[p] == ss[i].procs[p]
    decreases j
  {
    hide Apply;
    if i < j {
      LogoutWaits(ss, es, i, j - 1, p);
      StepKeepsLogout(ss[j - 1], es[j - 1], p);
    }
  }

  ghost predicate Unlisted(st: Store, sid: string) {
    forall u :: !Listed(st, u, sid)
  }

  lemma RevokedUnlisted(ss: seq<State>, es: seq<Event>, i: nat, sid: string)
    requires IsRun(ss, es) && i < |ss| && sid in ss[i].revoked
    ensures Unlisted(ss[i].store, sid)
  {
    RunInv(ss, es, i);
    assert forall u :: Listed(ss[i].store, u, sid) ==> MemberOk(ss[i], u, sid);
  }

  /** A logout looks its refresh token up at step `i` and deletes at step `j`.  Whatever
      happens in between, rotations of the same session included, from then on neither the
      session, nor any refresh key to it, nor an acceptable token is left; and if the session
      was still readable, no index ever lists it again. */
  lemma LogoutBeatsRotation(ss: seq<State>, es: seq<Event>, i: nat, j: nat, n: nat, p: nat, digest: string)
    requires IsRun(ss, es) && i < j < n < |ss|
    requires es[i] == LogoutLookup(p, digest) && digest != "" && digest in ss[i].store.refresh
    requires es[j] == LogoutCommit(p) && forall k :: i < k < j ==> es[k] != LogoutCommit(p)
    ensures var sid := ss[i].store.refresh[digest].value;
      && Gone(ss[n], sid)
      && (sid in ss[j].store.sessions ==> Unlisted(ss[n].store, sid))
  {
    var sid := ss[i].store.refresh[digest].value;
    LogoutWaits(ss, es, i + 1, j, p);
    RunInv(ss, es, i);
    RefreshBorn(ss[i], digest);
    assert BirthOk(ss[i], sid);
    RunLater(ss, es, i, j + 1);
    GoneForever(ss, es, j + 1, n, sid);
    if sid in ss[j].store.sessions {
      RunLater(ss, es, j + 1, n);
      RevokedUnlisted(ss, es, n, sid);
    }
  }

  // ---------------------------------------------------------------- who is online

  /** A user that OnlineMap reports online, under any interleaving, had a readable session at
      the moment the session was checked. */
  lemma OnlineMeansReadable(ss: seq<State>, es: seq<Event>, i: nat, p: nat, user: string)
    requires IsRun(ss, es) && i < |es| && es[i] == OnlineExists(p)
    requires user in ss[i + 1].procs[p].online && user !in ss[i].procs[p].online
    ensures exists sid :: sid in ss[i].store.sessions && ss[i].store.sessions[sid].value.session.userID == user
  {
    hide Inv;
    RunInv(ss, es, i);
    CheckedOwner(ss[i], p);
  }

  lemma CheckedOwner(s: State, p: nat)
    requires Inv(s) && p in s.procs && s.procs[p].Checking? && s.procs[p].left != [] && s.procs[p].left[0] in s.store.sessions
    ensures var c := s.procs[p]; c.left[0] in c.owner && s.store.sessions[c.left[0]].value.session.userID == c.owner[c.left[0]]
  {
    hide RefreshOk, SurviveOk, HistoryOk, IndexOk, IndexComplete, ProcsApart;
    assert ProcOk(s, s.procs[p]) && SessionOk(s, s.procs[p].left[0]);
  }
}
