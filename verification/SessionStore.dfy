/** The session store as three maps, and each atomic block that Redis runs on it as a
    function of the whole store.

    A key is readable while `now <= expireAt`; expired keys leave the maps when the clock
    moves (`Advance`), so membership in a map is readability.  Times are milliseconds. */
module SessionStore {
  import opened Entities
  import opened Numbers

  datatype Timed<+V> = Timed(value: V, expireAt: int)

  /** A sorted set: member to score. */
  type Scores = map<string, int>

  datatype Store = Store(
    sessions: map<string, Timed<Record>>,  // session id -> record
    refresh: map<string, Timed<string>>,   // refresh digest -> session id
    index: map<string, Timed<Scores>>)     // user id -> session ids scored by expiry

  const EMPTY_STORE := Store(map[], map[], map[])

  /** What is still readable at time `t`. */
  function Unexpired<V>(m: map<string, Timed<V>>, t: int): (r: map<string, Timed<V>>)
    ensures forall k :: k in r <==> k in m && t <= m[k].expireAt
    ensures forall k :: k in r ==> r[k] == m[k]
  {
    map k | k in m && t <= m[k].expireAt :: m[k]
  }

  function Advance(st: Store, t: int): Store {
    Store(Unexpired(st.sessions, t), Unexpired(st.refresh, t), Unexpired(st.index, t))
  }

  // ---------------------------------------------------------------- Create

  predicate ValidCreate(sid: string, session: AuthSession, digest: string, ttl: int) {
    && sid != "" && digest != "" && 0 < ttl
    && session.userID != "" && session.accessJTI != "" && session.role.Valid()
  }

  /** EXPIRE takes whole seconds: the client rounds a duration below one second up to one
      second and truncates every other duration. */
  function ExpireMillis(ttl: int): int {
    if ttl < 1000 then 1000 else ttl / 1000 * 1000
  }

  /** The lifetimes that EXPIRE does not cut short. */
  predicate WholeTtl(ttl: int) {
    ttl < 1000 || ttl % 1000 == 0
  }

  /** ZREMRANGEBYSCORE -inf clock. */
  function Surviving(members: Scores, clock: int): (r: Scores)
    ensures forall m :: m in r <==> m in members && clock < members[m]
    ensures forall m :: m in r ==> r[m] == members[m]
  {
    map m | m in members && clock < members[m] :: members[m]
  }

  /** The user's index after the prune, the ZADD and the two EXPIREs.  A sorted set that
      loses its last member is deleted together with its expiry. */
  function IndexAfterCreate(index: map<string, Timed<Scores>>, user: string, sid: string,
                            clock: int, now: int, ttl: int): Timed<Scores>
  {
    var until := now + ExpireMillis(ttl);
    if user in index && Surviving(index[user].value, clock) != map[] then
      Timed(Surviving(index[user].value, clock)[sid := clock + ttl], Max(index[user].expireAt, until))
    else
      Timed(map[sid := clock + ttl], until)
  }

  /** The Create transaction, executed at `now` by a client that read its own clock at `clock`. */
  function CreateTx(st: Store, now: int, clock: int, sid: string, session: AuthSession, digest: string, ttl: int): Store {
    Store(
      st.sessions[sid := Timed(Record(session, digest), now + ttl)],
      st.refresh[digest := Timed(sid, now + ttl)],
      st.index[session.userID := IndexAfterCreate(st.index, session.userID, sid, clock, now, ttl)])
  }

  // ---------------------------------------------------------------- Rotate

  /** The condition under which the compare-and-swap script writes. */
  predicate RotateWins(st: Store, now: int, sid: string, digest: string, expected: Record) {
    && digest in st.refresh && st.refresh[digest].value == sid
    && sid in st.sessions && st.sessions[sid].value == expected
    && now < st.sessions[sid].expireAt
  }

  /** rotateSessionScript: the new store and the remaining milliseconds, 0 when it refuses. */
  function RotateScript(st: Store, now: int, sid: string, digest: string, nextDigest: string,
                        expected: Record, next: Record): (Store, int)
  {
    if RotateWins(st, now, sid, digest, expected) then
      var ttl := st.sessions[sid].expireAt - now;
      (st.(sessions := st.sessions[sid := Timed(next, now + ttl)],
           refresh := (st.refresh - {digest})[nextDigest := Timed(sid, now + ttl)]),
       ttl)
    else (st, 0)
  }

  function Rotated(record: Record, nextDigest: string, nextJTI: string): Record {
    Record(record.session.(accessJTI := nextJTI), nextDigest)
  }

  // ---------------------------------------------------------------- Delete

  /** ZREM: the set goes when its last member goes. */
  function RemoveMember(index: map<string, Timed<Scores>>, user: string, sid: string): map<string, Timed<Scores>> {
    if user !in index then index
    else
      var rest := index[user].value - {sid};
      if rest == map[] then index - {user} else index[user := index[user].(value := rest)]
  }

  /** deleteSessionScript. */
  function DeleteScript(st: Store, sid: string): Store {
    if sid !in st.sessions then st
    else
      var record := st.sessions[sid].value;
      Store(st.sessions - {sid},
            st.refresh - {record.refreshDigest},
            RemoveMember(st.index, record.session.userID, sid))
  }

  /** The sessions that a user wipe finds: members of the index whose record is readable. */
  function Wiped(st: Store, user: string): set<string> {
    if user in st.index then st.index[user].value.Keys * st.sessions.Keys else {}
  }

  function Digests(st: Store, sids: set<string>): (ds: set<string>)
    requires sids <= st.sessions.Keys
  {
    set sid | sid in sids :: st.sessions[sid].value.refreshDigest
  }

  /** deleteUserSessionsScript. */
  function WipeScript(st: Store, user: string): Store {
    var gone := Wiped(st, user);
    Store(st.sessions - gone, st.refresh - Digests(st, gone), st.index - {user})
  }

  // ---------------------------------------------------------------- reads

  /** The non-empty ids, each once, in the order of their first occurrence. */
  function Distinct(ids: seq<string>): (r: seq<string>)
    ensures forall id :: id in r <==> id in ids && id != ""
    ensures forall i, j :: 0 <= i < j < |r| ==> r[i] != r[j]
  {
    if ids == [] then []
    else
      var before, last := Distinct(ids[..|ids| - 1]), ids[|ids| - 1];
      assert ids == ids[..|ids| - 1] + [last];
      if last == "" || last in before then before else before + [last]
  }

  /** One answer of ZRANGEBYSCORE min +inf LIMIT 0 1: a member of least score among those
      not below `min`, or nothing when there is none. */
  predicate FirstAtOrAfter(index: map<string, Timed<Scores>>, user: string, min: int, pick: Option<string>) {
    match pick
    case None =>
      user in index ==> forall m :: m in index[user].value ==> index[user].value[m] < min
    case Some(sid) =>
      && user in index && sid in index[user].value && min <= index[user].value[sid]
      && forall m :: m in index[user].value && min <= index[user].value[m] ==> index[user].value[sid] <= index[user].value[m]
  }
}
