/** Every call of the session store as a process that takes its Redis steps one at a time,
    in any interleaving with the other calls and with the clock. */
module SessionProtocol {
  import opened Entities
  import opened Numbers
  import opened SessionStore

  /** History of one login: its user, the clock its client read, and when the transaction ran. */
  datatype Birth = Birth(user: string, clock: int, at: int, ttl: int) {
    /** Its score in the user's index. */
    function Due(): int { clock + ttl }
    /** The absolute end of the session. */
    function End(): int { at + ttl }
  }

  /** A call in flight, named by the last Redis reply it has. */
  datatype Proc =
    | Creating(sid: string, session: AuthSession, digest: string, ttl: int, clock: int)
    | RotateLooked(digest: string, nextDigest: string, nextJTI: string, sid: string)
    | RotateLoaded(digest: string, nextDigest: string, nextJTI: string, sid: string, record: Record)
    | LoggingOut(sid: string)
    | Ranging(todo: seq<string>, clock: int, found: seq<string>, owner: map<string, string>)
    | Checking(left: seq<string>, owner: map<string, string>, online: set<string>)

  /** `now`, `store` and `procs` are the system; the rest only records what has happened and
      no step's effect on the store depends on it. */
  datatype State = State(
    now: int,
    store: Store,
    procs: map<nat, Proc>,
    born: map<string, Birth>,          // every session whose Create committed
    jti: map<string, string>,          // access jti last written for a session
    revoked: set<string>,              // sessions a delete or wipe script removed
    spent: set<string>,                // refresh digests a rotation replaced
    retired: set<(string, string)>,    // (session, jti) pairs a rotation replaced
    digests: set<string>,              // refresh digests ever written to the store
    jtis: set<string>,                 // access jtis ever written to the store
    drawnSids: set<string>,            // random values ever drawn
    drawnDigests: set<string>,
    drawnJTIs: set<string>,
    slack: int)                        // the most milliseconds EXPIRE has cut off a lifetime

  datatype Event =
    | Tick(dt: int)
    | CreateBegin(p: nat, sid: string, session: AuthSession, digest: string, ttl: int)
    | CreateCommit(p: nat)
    | RotateLookup(p: nat, digest: string, nextDigest: string, nextJTI: string)
    | RotateLoad(p: nat)
    | RotateCommit(p: nat)
    | Delete(sid: string)
    | LogoutLookup(p: nat, digest: string)
    | LogoutCommit(p: nat)
    | Wipe(user: string)
    | OnlineBegin(p: nat, users: seq<string>)
    | OnlineRange(p: nat, pick: Option<string>)
    | OnlineExists(p: nat)

  function Initial(t: int): State {
    State(t, EMPTY_STORE, map[], map[], map[], {}, {}, {}, {}, {}, {}, {}, {}, 0)
  }

  /** When an event can happen.  Random values are new; nothing else is assumed of arguments. */
  predicate Enabled(s: State, e: Event) {
    match e
    case Tick(dt) => 0 <= dt
    case CreateBegin(p, sid, session, digest, ttl) =>
      && p !in s.procs && sid !in s.drawnSids && digest !in s.drawnDigests && session.accessJTI !in s.drawnJTIs
    case CreateCommit(p) => p in s.procs && s.procs[p].Creating?
    case RotateLookup(p, digest, nextDigest, nextJTI) =>
      p !in s.procs && nextDigest !in s.drawnDigests && nextJTI !in s.drawnJTIs
    case RotateLoad(p) => p in s.procs && s.procs[p].RotateLooked?
    case RotateCommit(p) => p in s.procs && s.procs[p].RotateLoaded?
    case Delete(_) => true
    case LogoutLookup(p, _) => p !in s.procs
    case LogoutCommit(p) => p in s.procs && s.procs[p].LoggingOut?
    case Wipe(_) => true
    case OnlineBegin(p, users) => p !in s.procs
    case OnlineRange(p, pick) =>
      && p in s.procs && s.procs[p].Ranging?
      && (s.procs[p].todo != [] ==> FirstAtOrAfter(s.store.index, s.procs[p].todo[0], s.procs[p].clock, pick))
    case OnlineExists(p) => p in s.procs && s.procs[p].Checking?
  }

  function Apply(s: State, e: Event): State
    requires Enabled(s, e)
  {
    match e
    case Tick(dt) => s.(now := s.now + dt, store := Advance(s.store, s.now + dt))
    case CreateBegin(p, sid, session, digest, ttl) => BeginCreate(s, p, sid, session, digest, ttl)
    case CreateCommit(p) => CommitCreate(s, p)
    case RotateLookup(p, digest, nextDigest, nextJTI) => LookupRotate(s, p, digest, nextDigest, nextJTI)
    case RotateLoad(p) => LoadRotate(s, p)
    case RotateCommit(p) => CommitRotate(s, p)
    case Delete(sid) => DeleteSession(s, sid)
    case LogoutLookup(p, digest) =>
      if digest != "" && digest in s.store.refresh then s.(procs := s.procs[p := LoggingOut(s.store.refresh[digest].value)]) else s
    case LogoutCommit(p) => DeleteSession(s.(procs := s.procs - {p}), s.procs[p].sid)
    case Wipe(user) => WipeUser(s, user)
    case OnlineBegin(p, users) => s.(procs := s.procs[p := Ranging(Distinct(users), s.now, [], map[])])
    case OnlineRange(p, pick) => s.(procs := s.procs[p := RangeNext(s.procs[p], pick)])
    case OnlineExists(p) => s.(procs := s.procs[p := ExistsNext(s.procs[p], s.store)])
  }

  /** Draws the random values and reads the client clock; an invalid request stops there. */
  function BeginCreate(s: State, p: nat, sid: string, session: AuthSession, digest: string, ttl: int): State {
    var s1 := s.(drawnSids := s.drawnSids + {sid}, drawnDigests := s.drawnDigests + {digest},
                 drawnJTIs := s.drawnJTIs + {session.accessJTI});
    if ValidCreate(sid, session, digest, ttl)
    then s1.(procs := s.procs[p := Creating(sid, session, digest, ttl, s.now)])
    else s1
  }

  function CommitCreate(s: State, p: nat): State
    requires p in s.procs && s.procs[p].Creating?
  {
    var c := s.procs[p];
    s.(store := CreateTx(s.store, s.now, c.clock, c.sid, c.session, c.digest, c.ttl),
       procs := s.procs - {p},
       born := s.born[c.sid := Birth(c.session.userID, c.clock, s.now, c.ttl)],
       jti := s.jti[c.sid := c.session.accessJTI],
       digests := s.digests + {c.digest},
       jtis := s.jtis + {c.session.accessJTI},
       slack := Max(s.slack, c.ttl - ExpireMillis(c.ttl)))
  }

  /** The first GET of Rotate; a missing key ends the call with not-found. */
  function LookupRotate(s: State, p: nat, digest: string, nextDigest: string, nextJTI: string): State {
    var s1 := s.(drawnDigests := s.drawnDigests + {nextDigest}, drawnJTIs := s.drawnJTIs + {nextJTI});
    if digest != "" && nextDigest != "" && nextJTI != "" && digest in s.store.refresh
    then s1.(procs := s.procs[p := RotateLooked(digest, nextDigest, nextJTI, s.store.refresh[digest].value)])
    else s1
  }

  /** The second GET; a missing record or another digest ends the call with not-found. */
  function LoadRotate(s: State, p: nat): State
    requires p in s.procs && s.procs[p].RotateLooked?
  {
    var c := s.procs[p];
    if c.sid != "" && c.sid in s.store.sessions && s.store.sessions[c.sid].value.refreshDigest == c.digest
    then s.(procs := s.procs[p := RotateLoaded(c.digest, c.nextDigest, c.nextJTI, c.sid, s.store.sessions[c.sid].value)])
    else s.(procs := s.procs - {p})
  }

  predicate CommitWins(s: State, p: nat) {
    && p in s.procs && s.procs[p].RotateLoaded?
    && RotateWins(s.store, s.now, s.procs[p].sid, s.procs[p].digest, s.procs[p].record)
  }

  /** The compare-and-swap. */
  function CommitRotate(s: State, p: nat): State
    requires p in s.procs && s.procs[p].RotateLoaded?
  {
    var c := s.procs[p];
    var out := RotateScript(s.store, s.now, c.sid, c.digest, c.nextDigest, c.record, Rotated(c.record, c.nextDigest, c.nextJTI));
    var s1 := s.(procs := s.procs - {p});
    if 0 < out.1 then
      s1.(store := out.0,
          jti := s.jti[c.sid := c.nextJTI],
          spent := s.spent + {c.digest},
          retired := s.retired + {(c.sid, c.record.session.accessJTI)},
          digests := s.digests + {c.nextDigest},
          jtis := s.jtis + {c.nextJTI})
    else s1
  }

  function DeleteSession(s: State, sid: string): State {
    if sid != "" && sid in s.store.sessions
    then s.(store := DeleteScript(s.store, sid), revoked := s.revoked + {sid})
    else s
  }

  function WipeUser(s: State, user: string): State {
    if user == "" then s
    else s.(store := WipeScript(s.store, user), revoked := s.revoked + Wiped(s.store, user))
  }

  /** One ZRANGEBYSCORE reply of OnlineMap. */
  function RangeNext(c: Proc, pick: Option<string>): Proc
    requires c.Ranging?
  {
    if c.todo == [] then Checking(c.found, c.owner, {})
    else match pick
      case Some(sid) =>
        if sid == "" then c.(todo := c.todo[1..])
        else c.(todo := c.todo[1..], found := c.found + [sid], owner := c.owner[sid := c.todo[0]])
      case None => c.(todo := c.todo[1..])
  }

  /** One EXISTS reply of OnlineMap. */
  function ExistsNext(c: Proc, st: Store): Proc
    requires c.Checking?
  {
    if c.left == [] then c
    else if c.left[0] in st.sessions && c.left[0] in c.owner
    then Checking(c.left[1..], c.owner, c.online + {c.owner[c.left[0]]})
    else Checking(c.left[1..], c.owner, c.online)
  }

  // ---------------------------------------------------------------- the invariant

  /** A readable session is unrevoked, ends where its login said, carries the jti last
      written for it, and its digest is a refresh key with the same end that leads back. */
  ghost predicate SessionOk(s: State, sid: string)
    requires sid in s.store.sessions
  {
    var c := s.store.sessions[sid];
    && sid in s.born && sid in s.jti && sid !in s.revoked
    && c.value.session.userID == s.born[sid].user
    && c.value.session.accessJTI == s.jti[sid]
    && c.expireAt == s.born[sid].End() && s.now <= c.expireAt
    && c.value.refreshDigest in s.digests && c.value.refreshDigest !in s.spent
    && c.value.refreshDigest in s.store.refresh
    && s.store.refresh[c.value.refreshDigest] == Timed(sid, c.expireAt)
  }

  ghost predicate SessionsOk(s: State) {
    forall sid :: sid in s.store.sessions ==> SessionOk(s, sid)
  }

  ghost predicate RefreshOk(s: State) {
    forall d :: d in s.store.refresh ==>
      && s.store.refresh[d].value in s.store.sessions
      && s.store.sessions[s.store.refresh[d].value].value.refreshDigest == d
  }

  /** Sessions leave the store only by revocation or by reaching their end. */
  ghost predicate SurviveOk(s: State) {
    forall sid :: sid in s.born && sid !in s.revoked && s.now <= s.born[sid].End() ==> sid in s.store.sessions
  }

  ghost predicate BirthOk(s: State, sid: string)
    requires sid in s.born
  {
    && sid in s.drawnSids && sid in s.jti && s.jti[sid] in s.jtis
    && s.born[sid].clock <= s.born[sid].at <= s.now
    && s.born[sid].user != "" && sid != ""
  }

  ghost predicate HistoryOk(s: State) {
    && (forall sid :: sid in s.born ==> BirthOk(s, sid))
    && s.revoked <= s.born.Keys && 0 <= s.slack < 1000
    && s.spent <= s.digests <= s.drawnDigests
    && s.jtis <= s.drawnJTIs
    && (forall x :: x in s.retired ==> x.0 in s.born && x.1 in s.jtis && x.1 != s.jti[x.0])
  }

  /** An index lists only its own user's unrevoked sessions, scored by when they fall due,
      and it reaches the end of each of them but for what EXPIRE cut off. */
  ghost predicate MemberOk(s: State, user: string, sid: string)
    requires user in s.store.index && sid in s.store.index[user].value
  {
    && sid in s.born && sid !in s.revoked
    && s.born[sid].user == user
    && s.store.index[user].value[sid] == s.born[sid].Due()
    && s.born[sid].End() - s.slack <= s.store.index[user].expireAt
  }

  ghost predicate IndexOk(s: State) {
    forall u :: u in s.store.index ==>
      s.store.index[u].value != map[] && forall sid :: sid in s.store.index[u].value ==> MemberOk(s, u, sid)
  }

  predicate Listed(st: Store, user: string, sid: string) {
    user in st.index && sid in st.index[user].value
  }

  /** Another login of the same user whose client's clock showed the session as due: it may
      have pruned the session. */
  ghost predicate Overtaken(born: map<string, Birth>, sid: string)
    requires sid in born
  {
    exists y :: y in born && y != sid && born[y].user == born[sid].user && born[sid].Due() <= born[y].clock
  }

  /** Neither overtaken nor within the slack of its end. */
  ghost predicate Held(s: State, sid: string)
    requires sid in s.born
  {
    !Overtaken(s.born, sid) && s.now + s.slack <= s.born[sid].End()
  }

  /** Such a session is listed. */
  ghost predicate IndexComplete(s: State)
    requires SessionsOk(s)
  {
    forall sid :: sid in s.store.sessions && Held(s, sid) ==> Listed(s.store, s.born[sid].user, sid)
  }

  function NewDigest(c: Proc): set<string> {
    match c
    case Creating(_, _, d, _, _) => {d}
    case RotateLooked(_, d, _, _) => {d}
    case RotateLoaded(_, d, _, _, _) => {d}
    case _ => {}
  }

  function NewJTI(c: Proc): set<string> {
    match c
    case Creating(_, session, _, _, _) => {session.accessJTI}
    case RotateLooked(_, _, j, _) => {j}
    case RotateLoaded(_, _, j, _, _) => {j}
    case _ => {}
  }

  function NewSid(c: Proc): set<string> {
    if c.Creating? then {c.sid} else {}
  }

  /** The value a call in flight will write is drawn and not yet written; what a call has
      learnt about who owns a session stays true. */
  ghost predicate ProcOk(s: State, c: Proc) {
    && NewDigest(c) <= s.drawnDigests && NewDigest(c) !! s.digests
    && NewJTI(c) <= s.drawnJTIs && NewJTI(c) !! s.jtis
    && NewSid(c) <= s.drawnSids && NewSid(c) !! s.born.Keys
    && match c
       case Creating(sid, session, digest, ttl, clock) => clock <= s.now && ValidCreate(sid, session, digest, ttl)
       case RotateLooked(_, _, _, sid) => sid in s.born
       case RotateLoaded(digest, _, _, sid, record) => sid in s.born && record.refreshDigest == digest
       case LoggingOut(sid) => sid in s.born
       case Ranging(_, clock, found, owner) =>
         clock <= s.now && OwnersKnown(s, owner) && forall sid :: sid in found ==> sid in owner
       case Checking(left, owner, _) =>
         OwnersKnown(s, owner) && forall sid :: sid in left ==> sid in owner
  }

  ghost predicate OwnersKnown(s: State, owner: map<string, string>) {
    forall sid :: sid in owner ==> sid in s.born && s.born[sid].user == owner[sid]
  }

  ghost predicate ProcsOk(s: State) {
    forall p :: p in s.procs ==> ProcOk(s, s.procs[p])
  }

  ghost predicate Apart(c: Proc, d: Proc) {
    NewDigest(c) !! NewDigest(d) && NewJTI(c) !! NewJTI(d) && NewSid(c) !! NewSid(d)
  }

  ghost predicate ProcsApart(s: State) {
    forall p, q :: p in s.procs && q in s.procs && p != q ==> Apart(s.procs[p], s.procs[q])
  }

  ghost predicate StoreInv(s: State) {
    && SessionsOk(s) && RefreshOk(s) && SurviveOk(s) && HistoryOk(s)
    && IndexOk(s) && IndexComplete(s)
  }

  ghost predicate ProcInv(s: State) {
    ProcsOk(s) && ProcsApart(s)
  }

  ghost predicate Inv(s: State) {
    StoreInv(s) && ProcInv(s)
  }

  lemma InitialInv(t: int)
    ensures Inv(Initial(t))
  {
  }

  // ------------------------------------------------------- the store half of each step

  /** The same store and history, with more random values drawn. */
  ghost predicate SameStore(s: State, s': State) {
    && s'.now == s.now && s'.store == s.store && s'.born == s.born && s'.jti == s.jti && s'.revoked == s.revoked
    && s'.spent == s.spent && s'.retired == s.retired && s'.digests == s.digests && s'.jtis == s.jtis && s'.slack == s.slack
    && s.drawnSids <= s'.drawnSids && s.drawnDigests <= s'.drawnDigests && s.drawnJTIs <= s'.drawnJTIs
  }

  lemma SameStoreInv(s: State, s': State)
    requires StoreInv(s) && SameStore(s, s')
    ensures StoreInv(s')
  {
    assert forall sid :: sid in s'.born ==> BirthOk(s, sid);
    assert forall u, sid :: u in s'.store.index && sid in s'.store.index[u].value ==> MemberOk(s, u, sid);
    assert forall sid :: sid in s'.store.sessions ==> SessionOk(s, sid);
  }

  lemma TickSessions(s: State, dt: int)
    requires StoreInv(s) && 0 <= dt
    ensures var s' := Apply(s, Tick(dt)); SessionsOk(s') && RefreshOk(s') && SurviveOk(s') && HistoryOk(s')
  {
    var s' := Apply(s, Tick(dt));
    assert forall sid :: sid in s'.store.sessions ==> SessionOk(s, sid);
    assert forall sid :: sid in s'.born ==> BirthOk(s, sid);
  }

  lemma TickStore(s: State, dt: int)
    requires StoreInv(s) && 0 <= dt
    ensures StoreInv(Apply(s, Tick(dt)))
  {
    TickSessions(s, dt);
    hide RefreshOk, SurviveOk;
    var s' := Apply(s, Tick(dt));
    forall u, sid | u in s'.store.index && sid in s'.store.index[u].value ensures MemberOk(s', u, sid) {
      assert MemberOk(s, u, sid);
    }
    forall sid | sid in s'.store.sessions && Held(s', sid) ensures Listed(s'.store, s'.born[sid].user, sid) {
      assert SessionOk(s, sid) && SessionOk(s', sid);
      HeldFrame(s, s', sid);
      assert Listed(s.store, s.born[sid].user, sid);
      assert MemberOk(s, s.born[sid].user, sid);
    }
  }

  /** What Create's transaction needs of its call: new names, a clock not ahead of Redis. */
  ghost predicate CreateReady(s: State, c: Proc) {
    c.Creating? && ProcOk(s, c)
  }

  lemma CreateStore(s: State, p: nat)
    requires StoreInv(s) && p in s.procs && CreateReady(s, s.procs[p])
    ensures StoreInv(CommitCreate(s, p))
  {
    var c, s' := s.procs[p], CommitCreate(s, p);
    assert c.digest in NewDigest(c) && c.session.accessJTI in NewJTI(c) && c.sid in NewSid(c);
    CreateSessions(s, p);
    CreateIndex(s, p);
  }

  lemma CreateSessions(s: State, p: nat)
    requires StoreInv(s) && p in s.procs && CreateReady(s, s.procs[p])
    ensures var s' := CommitCreate(s, p); SessionsOk(s') && RefreshOk(s') && SurviveOk(s') && HistoryOk(s')
  {
    var c, s' := s.procs[p], CommitCreate(s, p);
    assert c.digest in NewDigest(c) && c.session.accessJTI in NewJTI(c) && c.sid in NewSid(c);
    forall sid | sid in s'.store.sessions ensures SessionOk(s', sid) {
      if sid != c.sid { assert SessionOk(s, sid); }
    }
    forall sid | sid in s'.born ensures BirthOk(s', sid) {
      if sid != c.sid { assert BirthOk(s, sid); }
    }
  }

  lemma CreateIndex(s: State, p: nat)
    requires StoreInv(s) && p in s.procs && CreateReady(s, s.procs[p]) && SessionsOk(CommitCreate(s, p))
    ensures var s' := CommitCreate(s, p); IndexOk(s') && IndexComplete(s')
  {
    var c, s' := s.procs[p], CommitCreate(s, p);
    assert c.sid in NewSid(c);
    CreateMembers(s, p);
    forall sid | sid in s'.store.sessions && Held(s', sid)
      ensures Listed(s'.store, s'.born[sid].user, sid)
    {
      if sid != c.sid { CreateKeepsHeld(s, p, sid); CreateKeepsListed(s, p, sid); }
    }
  }

  lemma CreateMembers(s: State, p: nat)
    requires IndexOk(s) && HistoryOk(s) && p in s.procs && CreateReady(s, s.procs[p])
    ensures IndexOk(CommitCreate(s, p))
  {
    var c, s' := s.procs[p], CommitCreate(s, p);
    assert c.sid in NewSid(c);
    forall u, sid | u in s'.store.index && sid in s'.store.index[u].value ensures MemberOk(s', u, sid) {
      if u != c.session.userID || sid != c.sid { assert MemberOk(s, u, sid); }
    }
    assert c.sid in s'.store.index[c.session.userID].value;
  }

  lemma CreateKeepsHeld(s: State, p: nat, sid: string)
    requires p in s.procs && s.procs[p].Creating? && s.procs[p].sid !in s.born && sid in s.born
    requires Held(CommitCreate(s, p), sid)
    ensures Held(s, sid) && (s.born[sid].user == s.procs[p].session.userID ==> s.procs[p].clock < s.born[sid].Due())
  {
    var born', c := CommitCreate(s, p).born, s.procs[p];
    assert born'[c.sid].clock == c.clock;
    assert forall y :: y in s.born ==> y in born' && born'[y] == s.born[y];
  }

  /** Pruning goes by the creating client's clock and spares what that clock shows as not due. */
  lemma CreateKeepsListed(s: State, p: nat, sid: string)
    requires StoreInv(s) && p in s.procs && CreateReady(s, s.procs[p])
    requires sid in s.store.sessions && Held(s, sid)
    requires s.born[sid].user == s.procs[p].session.userID ==> s.procs[p].clock < s.born[sid].Due()
    ensures Listed(CommitCreate(s, p).store, s.born[sid].user, sid)
  {
    hide RefreshOk, SurviveOk, HistoryOk;
    var c, user := s.procs[p], s.born[sid].user;
    assert SessionOk(s, sid) && Listed(s.store, user, sid);
    assert MemberOk(s, user, sid);
    if user == c.session.userID { assert sid in Surviving(s.store.index[user].value, c.clock); }
  }

  lemma RotateFrame(s: State, p: nat)
    requires CommitWins(s, p)
    ensures var s' := CommitRotate(s, p);
      && s'.store.index == s.store.index && s'.born == s.born && s'.revoked == s.revoked && s'.now == s.now && s'.slack == s.slack
      && s'.store.sessions.Keys == s.store.sessions.Keys
  {
  }

  lemma RotateStore(s: State, p: nat)
    requires StoreInv(s) && CommitWins(s, p) && ProcOk(s, s.procs[p])
    ensures StoreInv(CommitRotate(s, p))
  {
    RotateSessions(s, p);
    RotateHistory(s, p);
    RotateFrame(s, p);
    hide RefreshOk, SurviveOk, HistoryOk, CommitRotate, CommitWins, ProcOk;
    var s' := CommitRotate(s, p);
    forall u, sid | u in s'.store.index && sid in s'.store.index[u].value ensures MemberOk(s', u, sid) {
      assert MemberOk(s, u, sid);
    }
    forall sid | sid in s'.store.sessions && Held(s', sid) ensures Listed(s'.store, s'.born[sid].user, sid) {
      assert SessionOk(s, sid);
      HeldFrame(s, s', sid);
      assert Listed(s.store, s.born[sid].user, sid);
    }
  }

  lemma RotateSessions(s: State, p: nat)
    requires StoreInv(s) && CommitWins(s, p) && ProcOk(s, s.procs[p])
    ensures SessionsOk(CommitRotate(s, p)) && RefreshOk(CommitRotate(s, p))
  {
    var c, s' := s.procs[p], CommitRotate(s, p);
    assert c.nextDigest in NewDigest(c);
    assert SessionOk(s, c.sid);
    forall sid | sid in s'.store.sessions ensures SessionOk(s', sid) {
      assert SessionOk(s, sid);
    }
  }

  lemma RotateHistory(s: State, p: nat)
    requires StoreInv(s) && CommitWins(s, p) && ProcOk(s, s.procs[p])
    ensures SurviveOk(CommitRotate(s, p)) && HistoryOk(CommitRotate(s, p))
  {
    var c, s' := s.procs[p], CommitRotate(s, p);
    assert c.nextDigest in NewDigest(c) && c.nextJTI in NewJTI(c);
    assert SessionOk(s, c.sid);
    forall sid | sid in s'.born ensures BirthOk(s', sid) { assert BirthOk(s, sid); }
  }

  /** Taking sessions, their refresh keys and their index entries out together. */
  ghost predicate Removes(s: State, s': State, gone: set<string>)
    requires gone <= s.store.sessions.Keys
  {
    && s' == s.(store := s'.store, revoked := s.revoked + gone)
    && s'.store.sessions == s.store.sessions - gone
    && s'.store.refresh == s.store.refresh - Digests(s.store, gone)
    && (forall u, sid :: Listed(s'.store, u, sid) ==>
          && sid !in gone && Listed(s.store, u, sid)
          && s'.store.index[u].value[sid] == s.store.index[u].value[sid] && s'.store.index[u].expireAt == s.store.index[u].expireAt)
    && (forall u :: u in s'.store.index ==> s'.store.index[u].value != map[])
    && (forall u, sid :: Listed(s.store, u, sid) && sid in s.store.sessions && sid !in gone ==> Listed(s'.store, u, sid))
  }

  lemma RemovesSessions(s: State, s': State, gone: set<string>)
    requires StoreInv(s) && gone <= s.store.sessions.Keys && Removes(s, s', gone)
    ensures SessionsOk(s') && RefreshOk(s')
  {
    forall sid | sid in s'.store.sessions ensures SessionOk(s', sid) {
      assert SessionOk(s, sid);
      assert forall y :: y in gone ==> SessionOk(s, y);
    }
    assert forall y :: y in gone ==> s.store.sessions[y].value.refreshDigest in Digests(s.store, gone);
  }

  /** What is held depends on the history alone. */
  lemma HeldFrame(s: State, s': State, sid: string)
    requires s'.born == s.born && s.now <= s'.now && s'.slack == s.slack && sid in s.born && Held(s', sid)
    ensures Held(s, sid)
  {
  }

  lemma RemovesInv(s: State, s': State, gone: set<string>)
    requires StoreInv(s) && gone <= s.store.sessions.Keys && Removes(s, s', gone)
    ensures StoreInv(s')
  {
    RemovesSessions(s, s', gone);
    assert forall y :: y in gone ==> SessionOk(s, y);
    forall sid | sid in s'.born ensures BirthOk(s', sid) { assert BirthOk(s, sid); }
    forall u, sid | u in s'.store.index && sid in s'.store.index[u].value ensures MemberOk(s', u, sid) {
      assert Listed(s'.store, u, sid);
      assert MemberOk(s, u, sid);
    }
    forall sid | sid in s'.store.sessions && Held(s', sid)
      ensures Listed(s'.store, s'.born[sid].user, sid)
    {
      assert SessionOk(s, sid);
      HeldFrame(s, s', sid);
      assert Listed(s.store, s.born[sid].user, sid);
    }
  }

  /** ZREM takes out one entry and nothing else. */
  lemma RemoveMemberLists(st: Store, user: string, sid: string)
    requires forall u :: u in st.index ==> st.index[u].value != map[]
    ensures var st' := st.(index := RemoveMember(st.index, user, sid));
      && (forall u, x :: Listed(st', u, x) <==> Listed(st, u, x) && !(u == user && x == sid))
      && (forall u, x :: Listed(st', u, x) ==>
            st'.index[u].value[x] == st.index[u].value[x] && st'.index[u].expireAt == st.index[u].expireAt)
      && (forall u :: u in st'.index ==> st'.index[u].value != map[])
  {
    if user in st.index {
      var rest := st.index[user].value - {sid};
      assert forall x :: x in rest <==> x in st.index[user].value && x != sid;
      assert rest == map[] ==> forall x :: x in st.index[user].value ==> x == sid;
    }
  }

  lemma DeleteRemoves(s: State, sid: string)
    requires StoreInv(s) && sid != "" && sid in s.store.sessions
    ensures Removes(s, DeleteSession(s, sid), {sid})
  {
    var s', user := DeleteSession(s, sid), s.store.sessions[sid].value.session.userID;
    assert SessionOk(s, sid);
    assert Digests(s.store, {sid}) == {s.store.sessions[sid].value.refreshDigest};
    RemoveMemberLists(s.store, user, sid);
    var st' := s.store.(index := RemoveMember(s.store.index, user, sid));
    assert forall u, x :: Listed(s'.store, u, x) <==> Listed(st', u, x);
    forall u, x | Listed(s.store, u, x) ensures x == sid ==> u == user {
      assert MemberOk(s, u, x);
    }
  }

  lemma DeleteStore(s: State, sid: string)
    requires StoreInv(s)
    ensures StoreInv(DeleteSession(s, sid))
  {
    if sid != "" && sid in s.store.sessions {
      DeleteRemoves(s, sid);
      RemovesInv(s, DeleteSession(s, sid), {sid});
    }
  }

  lemma WipeUnlists(s: State, user: string)
    requires IndexOk(s) && user != ""
    ensures forall u, x :: Listed(WipeUser(s, user).store, u, x) ==> x !in Wiped(s.store, user)
  {
    var s', gone := WipeUser(s, user), Wiped(s.store, user);
    forall u, x | Listed(s'.store, u, x) ensures x !in gone {
      assert MemberOk(s, u, x);
      assert x in gone ==> MemberOk(s, user, x);
    }
  }

  lemma WipeRemoves(s: State, user: string)
    requires IndexOk(s) && user != ""
    ensures Removes(s, WipeUser(s, user), Wiped(s.store, user))
  {
    WipeUnlists(s, user);
  }

  lemma WipeStore(s: State, user: string)
    requires StoreInv(s)
    ensures StoreInv(WipeUser(s, user))
  {
    if user != "" {
      WipeRemoves(s, user);
      RemovesInv(s, WipeUser(s, user), Wiped(s.store, user));
    }
  }

  // ------------------------------------------------------- the calls in flight

  /** What every step does to what a call in flight relies on. */
  ghost predicate Grows(s: State, s': State) {
    && s.now <= s'.now
    && s.drawnSids <= s'.drawnSids && s.drawnDigests <= s'.drawnDigests && s.drawnJTIs <= s'.drawnJTIs
    && (forall sid :: sid in s.born ==> sid in s'.born && s'.born[sid] == s.born[sid])
  }

  lemma ProcFrame(s: State, s': State, c: Proc)
    requires ProcOk(s, c) && Grows(s, s')
    requires NewDigest(c) !! s'.digests && NewJTI(c) !! s'.jtis && NewSid(c) !! s'.born.Keys
    ensures ProcOk(s', c)
  {
  }

  /** A step that removes call `p` (or none) and writes at most what `p` had drawn. */
  lemma ProcsShrink(s: State, s': State, p: nat)
    requires ProcInv(s) && Grows(s, s') && s'.procs == s.procs - {p}
    requires p in s.procs ==> s'.digests <= s.digests + NewDigest(s.procs[p]) && s'.jtis <= s.jtis + NewJTI(s.procs[p]) && s'.born.Keys <= s.born.Keys + NewSid(s.procs[p])
    requires p !in s.procs ==> s'.digests == s.digests && s'.jtis == s.jtis && s'.born == s.born
    ensures ProcInv(s')
  {
    forall q | q in s'.procs ensures ProcOk(s', s'.procs[q]) {
      assert ProcOk(s, s.procs[q]);
      if p in s.procs { assert Apart(s.procs[p], s.procs[q]); }
      ProcFrame(s, s', s.procs[q]);
    }
  }

  /** A step that puts call `p` at `c`, writing nothing. */
  lemma ProcsPut(s: State, s': State, p: nat, c: Proc)
    requires ProcInv(s) && Grows(s, s') && s'.procs == s.procs[p := c]
    requires s'.digests == s.digests && s'.jtis == s.jtis && s'.born == s.born
    requires ProcOk(s', c)
    requires forall q :: q in s.procs && q != p ==> Apart(c, s.procs[q])
    ensures ProcInv(s')
  {
    forall q | q in s'.procs ensures ProcOk(s', s'.procs[q]) {
      if q != p {
        assert ProcOk(s, s.procs[q]);
        ProcFrame(s, s', s.procs[q]);
      }
    }
  }

  /** Values drawn now are apart from those of every call in flight. */
  lemma DrawnApart(s: State, c: Proc)
    requires ProcInv(s)
    requires NewDigest(c) !! s.drawnDigests && NewJTI(c) !! s.drawnJTIs && NewSid(c) !! s.drawnSids
    ensures forall q :: q in s.procs ==> Apart(c, s.procs[q])
  {
    assert forall q :: q in s.procs ==> ProcOk(s, s.procs[q]);
  }

  /** Values drawn now have not been written. */
  lemma DrawnUnwritten(s: State, c: Proc)
    requires StoreInv(s)
    requires NewDigest(c) !! s.drawnDigests && NewJTI(c) !! s.drawnJTIs && NewSid(c) !! s.drawnSids
    ensures NewDigest(c) !! s.digests && NewJTI(c) !! s.jtis && NewSid(c) !! s.born.Keys
  {
    assert forall sid :: sid in s.born ==> BirthOk(s, sid);
  }

  // ------------------------------------------------------- every step

  /** Call `p` starts with `c`, whose values have just been drawn. */
  ghost predicate Starts(s: State, s': State, p: nat, c: Proc) {
    && SameStore(s, s') && p !in s.procs
    && (s'.procs == s.procs || (s'.procs == s.procs[p := c] && ProcOk(s', c)))
    && NewDigest(c) !! s.drawnDigests && NewJTI(c) !! s.drawnJTIs && NewSid(c) !! s.drawnSids
  }

  lemma StartsProcs(s: State, s': State, p: nat, c: Proc)
    requires ProcInv(s) && Starts(s, s', p, c)
    ensures ProcInv(s')
  {
    if s'.procs == s.procs {
      assert s.procs - {p} == s.procs;
      ProcsShrink(s, s', p);
    } else {
      DrawnApart(s, c);
      ProcsPut(s, s', p, c);
    }
  }

  lemma CreateBeginStarts(s: State, e: Event)
    requires e.CreateBegin? && Enabled(s, e)
    requires e.digest !in s.digests && e.session.accessJTI !in s.jtis && e.sid !in s.born
    ensures Starts(s, Apply(s, e), e.p, Creating(e.sid, e.session, e.digest, e.ttl, s.now))
  {
  }

  lemma CreateBeginInv(s: State, e: Event)
    requires Inv(s) && e.CreateBegin? && Enabled(s, e)
    ensures Inv(Apply(s, e))
  {
    DrawnUnwritten(s, Creating(e.sid, e.session, e.digest, e.ttl, s.now));
    CreateBeginStarts(s, e);
    StartsProcs(s, Apply(s, e), e.p, Creating(e.sid, e.session, e.digest, e.ttl, s.now));
    SameStoreInv(s, Apply(s, e));
  }

  /** A refresh key leads to a session whose Create committed. */
  lemma RefreshBorn(s: State, digest: string)
    requires StoreInv(s) && digest in s.store.refresh
    ensures s.store.refresh[digest].value in s.born
  {
    assert SessionOk(s, s.store.refresh[digest].value);
  }

  function LookedUp(s: State, e: Event): Proc
    requires e.RotateLookup?
  {
    RotateLooked(e.digest, e.nextDigest, e.nextJTI, if e.digest in s.store.refresh then s.store.refresh[e.digest].value else "")
  }

  lemma RotateLookupStarts(s: State, e: Event)
    requires e.RotateLookup? && Enabled(s, e)
    requires e.nextDigest !in s.digests && e.nextJTI !in s.jtis
    requires e.digest in s.store.refresh ==> s.store.refresh[e.digest].value in s.born
    ensures Starts(s, Apply(s, e), e.p, LookedUp(s, e))
  {
  }

  lemma RotateLookupInv(s: State, e: Event)
    requires Inv(s) && e.RotateLookup? && Enabled(s, e)
    ensures Inv(Apply(s, e))
  {
    DrawnUnwritten(s, LookedUp(s, e));
    if e.digest in s.store.refresh { RefreshBorn(s, e.digest); }
    RotateLookupStarts(s, e);
    StartsProcs(s, Apply(s, e), e.p, LookedUp(s, e));
    SameStoreInv(s, Apply(s, e));
  }

  lemma LogoutLookupInv(s: State, e: Event)
    requires Inv(s) && e.LogoutLookup? && Enabled(s, e)
    ensures Inv(Apply(s, e))
  {
    if e.digest != "" && e.digest in s.store.refresh {
      var s' := Apply(s, e);
      SameStoreInv(s, s');
      RefreshBorn(s, e.digest);
      ProcsPut(s, s', e.p, s'.procs[e.p]);
    }
  }

  lemma RotateLoadProcs(s: State, p: nat)
    requires ProcInv(s) && Enabled(s, RotateLoad(p))
    ensures ProcInv(LoadRotate(s, p)) && SameStore(s, LoadRotate(s, p))
  {
    var c, s' := s.procs[p], LoadRotate(s, p);
    assert ProcOk(s, c);
    if p in s'.procs {
      assert forall q :: q in s.procs && q != p ==> Apart(c, s.procs[q]);
      ProcsPut(s, s', p, s'.procs[p]);
    } else {
      ProcsShrink(s, s', p);
    }
  }

  lemma RotateLoadInv(s: State, p: nat)
    requires Inv(s) && Enabled(s, RotateLoad(p))
    ensures Inv(LoadRotate(s, p))
  {
    RotateLoadProcs(s, p);
    SameStoreInv(s, LoadRotate(s, p));
  }

  lemma OnlineRangeOk(s: State, p: nat, pick: Option<string>)
    requires Inv(s) && Enabled(s, OnlineRange(p, pick))
    ensures ProcOk(s, RangeNext(s.procs[p], pick))
  {
    hide SessionsOk, RefreshOk, SurviveOk, HistoryOk, ProcsApart;
    var c := s.procs[p];
    assert ProcOk(s, c);
    if c.todo != [] && pick.Some? { assert MemberOk(s, c.todo[0], pick.value); }
  }

  /** Calls that draw nothing move without disturbing the others. */
  lemma QuietPut(s: State, p: nat, c: Proc)
    requires Inv(s) && ProcOk(s, c) && (c.Ranging? || c.Checking?)
    ensures Inv(s.(procs := s.procs[p := c]))
  {
    var s' := s.(procs := s.procs[p := c]);
    SameStoreInv(s, s');
    ProcFrame(s, s', c);
    ProcsPut(s, s', p, c);
  }

  lemma OnlineExistsOk(s: State, p: nat)
    requires ProcInv(s) && Enabled(s, OnlineExists(p))
    ensures ProcOk(s, ExistsNext(s.procs[p], s.store))
  {
    assert ProcOk(s, s.procs[p]);
  }

  lemma CreateCommitInv(s: State, p: nat)
    requires Inv(s) && Enabled(s, CreateCommit(p))
    ensures Inv(CommitCreate(s, p))
  {
    assert ProcOk(s, s.procs[p]);
    CreateStore(s, p);
    var s' := CommitCreate(s, p);
    assert s.procs[p].sid in NewSid(s.procs[p]);
    ProcsShrink(s, s', p);
  }

  lemma RotateCommitInv(s: State, p: nat)
    requires Inv(s) && Enabled(s, RotateCommit(p))
    ensures Inv(CommitRotate(s, p))
  {
    assert ProcOk(s, s.procs[p]);
    var s' := CommitRotate(s, p);
    if CommitWins(s, p) { RotateStore(s, p); } else { SameStoreInv(s, s'); }
    ProcsShrink(s, s', p);
  }

  lemma LogoutCommitProcs(s: State, p: nat)
    requires ProcInv(s) && Enabled(s, LogoutCommit(p))
    ensures ProcInv(Apply(s, LogoutCommit(p)))
  {
    ProcsShrink(s, Apply(s, LogoutCommit(p)), p);
  }

  lemma LogoutCommitInv(s: State, p: nat)
    requires Inv(s) && Enabled(s, LogoutCommit(p))
    ensures Inv(Apply(s, LogoutCommit(p)))
  {
    LogoutCommitProcs(s, p);
    var s1 := s.(procs := s.procs - {p});
    SameStoreInv(s, s1);
    DeleteStore(s1, s.procs[p].sid);
  }

  lemma ScriptProcs(s: State, e: Event)
    requires ProcInv(s) && Enabled(s, e) && (e.Tick? || e.Delete? || e.Wipe?)
    ensures ProcInv(Apply(s, e))
  {
    hide Advance, DeleteScript, WipeScript, Wiped;
    var s' := Apply(s, e);
    forall q | q in s'.procs ensures ProcOk(s', s'.procs[q]) {
      assert ProcOk(s, s.procs[q]);
      ProcFrame(s, s', s.procs[q]);
    }
  }

  lemma ScriptInv(s: State, e: Event)
    requires Inv(s) && Enabled(s, e) && (e.Tick? || e.Delete? || e.Wipe?)
    ensures Inv(Apply(s, e))
  {
    hide StoreInv, ProcInv;
    ScriptProcs(s, e);
    match e {
      case Tick(dt) => TickStore(s, dt);
      case Delete(sid) => DeleteStore(s, sid);
      case Wipe(user) => WipeStore(s, user);
    }
  }

  /** Every step of every call keeps the invariant. */
  lemma StepInv(s: State, e: Event)
    requires Inv(s) && Enabled(s, e)
    ensures Inv(Apply(s, e))
  {
    hide StoreInv;
    match e {
      case Tick(_) => ScriptInv(s, e);
      case CreateBegin(_, _, _, _, _) => CreateBeginInv(s, e);
      case CreateCommit(p) => CreateCommitInv(s, p);
      case RotateLookup(_, _, _, _) => RotateLookupInv(s, e);
      case RotateLoad(p) => RotateLoadInv(s, p);
      case RotateCommit(p) => RotateCommitInv(s, p);
      case Delete(_) => ScriptInv(s, e);
      case LogoutLookup(_, _) => LogoutLookupInv(s, e);
      case LogoutCommit(p) => LogoutCommitInv(s, p);
      case Wipe(_) => ScriptInv(s, e);
      case OnlineBegin(p, users) => QuietPut(s, p, Ranging(Distinct(users), s.now, [], map[]));
      case OnlineRange(p, pick) => OnlineRangeOk(s, p, pick); QuietPut(s, p, RangeNext(s.procs[p], pick));
      case OnlineExists(p) => OnlineExistsOk(s, p); QuietPut(s, p, ExistsNext(s.procs[p], s.store));
    }
  }
}
