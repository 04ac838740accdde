/** The stores as the service writes them: sequences of Redis commands on string keys, each
    proved to do to the separate maps what the value-level scripts say. */
module RedisStores {
  import opened Entities
  import opened SessionStore
  import opened SessionProtocol
  import opened SessionTheorems
  import opened Text
  import opened Keyspace
  import Captcha

  /** A Redis server.  Expired keys are never observable, so they leave when time passes. */
  class Redis {
    var now: int
    var keys: Keys
    ghost var view: View

    ghost predicate Valid()
      reads this
    {
      Refines(keys, view)
    }

    constructor (t: int)
      ensures Valid() && now == t && view == View(EMPTY_STORE, map[], map[])
    {
      now, keys := t, map[];
      view := View(EMPTY_STORE, map[], map[]);
      EmptyRefines();
    }

    method Tick(dt: int)
      requires Valid() && 0 <= dt
      modifies this
      ensures Valid() && now == old(now) + dt && view == AdvanceView(old(view), now)
    {
      now := now + dt;
      TimePasses(keys, view, now);
      keys := Readable(keys, now);
      view := AdvanceView(view, now);
    }

    method Get(k: string) returns (v: Option<Value>)
      ensures v == if k in keys then Some(keys[k].value) else None
    {
      if k in keys { v := Some(keys[k].value); } else { v := None; }
    }

    method Exists(k: string) returns (n: nat)
      ensures n == if k in keys then 1 else 0
    {
      n := if k in keys then 1 else 0;
    }

    /** Milliseconds left; -2 without the key, -1 without an expiry. */
    method PTTL(k: string) returns (ms: int)
      ensures ms == if k !in keys then -2 else if keys[k].expireAt.None? then -1 else keys[k].expireAt.value - now
    {
      ms := if k !in keys then -2 else if keys[k].expireAt.None? then -1 else keys[k].expireAt.value - now;
    }

    method SetPX(k: string, v: Value, ms: int)
      requires 0 < ms
      modifies this`keys
      ensures keys == old(keys)[k := Cell(v, Some(now + ms))]
    {
      keys := keys[k := Cell(v, Some(now + ms))];
    }

    method Del(k: string)
      modifies this`keys
      ensures keys == old(keys) - {k}
    {
      keys := keys - {k};
    }

    method ZAdd(k: string, member: string, score: int)
      requires k in keys ==> keys[k].value.ScoresValue?
      modifies this`keys
      ensures keys == if k in old(keys)
        then old(keys)[k := old(keys)[k].(value := ScoresValue(old(keys)[k].value.scores[member := score]))]
        else old(keys)[k := Cell(ScoresValue(map[member := score]), None)]
    {
      if k in keys {
        keys := keys[k := keys[k].(value := ScoresValue(keys[k].value.scores[member := score]))];
      } else {
        keys := keys[k := Cell(ScoresValue(map[member := score]), None)];
      }
    }

    /** Replaces a sorted set; an empty one is deleted. */
    method Keep(k: string, z: Scores)
      requires k in keys
      modifies this`keys
      ensures keys == if z == map[] then old(keys) - {k} else old(keys)[k := old(keys)[k].(value := ScoresValue(z))]
    {
      if z == map[] {
        keys := keys - {k};
      } else {
        keys := keys[k := keys[k].(value := ScoresValue(z))];
      }
    }

    method ZRem(k: string, member: string)
      requires k in keys ==> keys[k].value.ScoresValue?
      modifies this`keys
      ensures k !in old(keys) ==> keys == old(keys)
      ensures k in old(keys) ==>
        var z := old(keys)[k].value.scores - {member};
        keys == if z == map[] then old(keys) - {k} else old(keys)[k := old(keys)[k].(value := ScoresValue(z))]
    {
      if k in keys { Keep(k, keys[k].value.scores - {member}); }
    }

    method ZRemRangeByScore(k: string, max: int)
      requires k in keys ==> keys[k].value.ScoresValue?
      modifies this`keys
      ensures k !in old(keys) ==> keys == old(keys)
      ensures k in old(keys) ==>
        var z := Surviving(old(keys)[k].value.scores, max);
        keys == if z == map[] then old(keys) - {k} else old(keys)[k := old(keys)[k].(value := ScoresValue(z))]
    {
      if k in keys { Keep(k, Surviving(keys[k].value.scores, max)); }
    }

    /** EXPIRE NX: only where there is no expiry. */
    method ExpireNX(k: string, ms: int)
      modifies this`keys
      ensures keys == if k in old(keys) && old(keys)[k].expireAt.None?
        then old(keys)[k := old(keys)[k].(expireAt := Some(now + ms))] else old(keys)
    {
      if k in keys && keys[k].expireAt.None? { keys := keys[k := keys[k].(expireAt := Some(now + ms))]; }
    }

    /** EXPIRE GT: only later than the present expiry; no expiry counts as never. */
    method ExpireGT(k: string, ms: int)
      modifies this`keys
      ensures keys == if k in old(keys) && old(keys)[k].expireAt.Some? && old(keys)[k].expireAt.value < now + ms
        then old(keys)[k := old(keys)[k].(expireAt := Some(now + ms))] else old(keys)
    {
      if k in keys && keys[k].expireAt.Some? && keys[k].expireAt.value < now + ms {
        keys := keys[k := keys[k].(expireAt := Some(now + ms))];
      }
    }

    /** EXPIRE. */
    method Expire(k: string, ms: int)
      modifies this`keys
      ensures keys == if k in old(keys) then old(keys)[k := old(keys)[k].(expireAt := Some(now + ms))] else old(keys)
    {
      if k in keys { keys := keys[k := keys[k].(expireAt := Some(now + ms))]; }
    }

    /** INCR: a new counter starts at 1 without an expiry. */
    method Incr(k: string) returns (n: nat)
      requires k in keys ==> keys[k].value.CountValue?
      modifies this`keys
      ensures n == if k in old(keys) then old(keys)[k].value.count + 1 else 1
      ensures keys == if k in old(keys) then old(keys)[k := old(keys)[k].(value := CountValue(n))]
                      else old(keys)[k := Cell(CountValue(1), None)]
    {
      if k in keys {
        n := keys[k].value.count + 1;
        keys := keys[k := keys[k].(value := CountValue(n))];
      } else {
        n := 1;
        keys := keys[k := Cell(CountValue(1), None)];
      }
    }

    /** ZRANGE 0 -1, every member once. */
    method ZRange(k: string) returns (members: seq<string>)
      requires k in keys ==> keys[k].value.ScoresValue?
      ensures forall m :: m in members <==> k in keys && m in keys[k].value.scores
    {
      members := [];
      var rest: set<string> := if k in keys then keys[k].value.scores.Keys else {};
      while rest != {}
        invariant forall m :: m in members || m in rest <==> k in keys && m in keys[k].value.scores
        decreases rest
      {
        var m :| m in rest;
        members, rest := members + [m], rest - {m};
      }
    }

    /** ZRANGEBYSCORE min +inf LIMIT 0 1. */
    method ZFirst(k: string, min: int) returns (pick: Option<string>)
      requires k in keys ==> keys[k].value.ScoresValue?
      ensures pick.None? ==> k in keys ==> forall m :: m in keys[k].value.scores ==> keys[k].value.scores[m] < min
      ensures pick.Some? ==>
        && k in keys && pick.value in keys[k].value.scores && min <= keys[k].value.scores[pick.value]
        && forall m :: m in keys[k].value.scores && min <= keys[k].value.scores[m] ==>
             keys[k].value.scores[pick.value] <= keys[k].value.scores[m]
    {
      pick := None;
      if k !in keys { return; }
      var z := keys[k].value.scores;
      var rest: set<string> := z.Keys;
      while rest != {}
        invariant rest <= z.Keys
        invariant pick.None? ==> forall m :: m in z && m !in rest ==> z[m] < min
        invariant pick.Some? ==> pick.value in z && min <= z[pick.value]
        invariant pick.Some? ==> forall m :: m in z && m !in rest && min <= z[m] ==> z[pick.value] <= z[m]
        decreases rest
      {
        var m :| m in rest;
        if min <= z[m] && (pick.None? || z[m] < z[pick.value]) { pick := Some(m); }
        rest := rest - {m};
      }
    }
  }

  class RedisAuthSessionStore {
    const client: Redis

    constructor (client: Redis)
      ensures this.client == client
    {
      this.client := client;
    }

    // One command on one key, with what it does to the view.

    method SetSession(sid: string, record: Record, ms: int)
      requires client.Valid() && 0 < ms
      modifies client
      ensures client.Valid() && client.now == old(client.now)
      ensures client.view == PutSession(old(client.view), sid, Timed(record, client.now + ms))
    {
      hide Refines;
      SessionPut(client.keys, client.view, sid, Timed(record, client.now + ms));
      client.SetPX(SessionKey(sid), RecordValue(record), ms);
      client.view := PutSession(client.view, sid, Timed(record, client.now + ms));
    }

    method DelSession(sid: string)
      requires client.Valid()
      modifies client
      ensures client.Valid() && client.now == old(client.now) && client.view == DropSession(old(client.view), sid)
    {
      hide Refines;
      SessionDrop(client.keys, client.view, sid);
      client.Del(SessionKey(sid));
      client.view := DropSession(client.view, sid);
    }

    method SetRefresh(digest: string, sid: string, ms: int)
      requires client.Valid() && 0 < ms
      modifies client
      ensures client.Valid() && client.now == old(client.now)
      ensures client.view == PutRefresh(old(client.view), digest, Timed(sid, client.now + ms))
    {
      hide Refines;
      RefreshPut(client.keys, client.view, digest, Timed(sid, client.now + ms));
      client.SetPX(RefreshKey(digest), TextValue(sid), ms);
      client.view := PutRefresh(client.view, digest, Timed(sid, client.now + ms));
    }

    method DelRefresh(digest: string)
      requires client.Valid()
      modifies client
      ensures client.Valid() && client.now == old(client.now) && client.view == DropRefresh(old(client.view), digest)
    {
      hide Refines;
      RefreshDrop(client.keys, client.view, digest);
      client.Del(RefreshKey(digest));
      client.view := DropRefresh(client.view, digest);
    }

    method DelIndex(user: string)
      requires client.Valid()
      modifies client
      ensures client.Valid() && client.now == old(client.now) && client.view == DropIndex(old(client.view), user)
    {
      hide Refines;
      IndexDrop(client.keys, client.view, user);
      client.Del(UserSessionsKey(user));
      client.view := DropIndex(client.view, user);
    }

    /** ZREM. */
    method RemoveFromIndex(user: string, sid: string)
      requires client.Valid()
      modifies client
      ensures client.Valid() && client.now == old(client.now)
      ensures client.view == WithIndex(old(client.view), RemoveMember(old(client.view).auth.index, user, sid))
    {
      ghost var v, index := client.view, client.view.auth.index;
      hide Refines;
      IndexRead(client.keys, v, user);
      if user in index {
        IndexDrop(client.keys, v, user);
        IndexPut(client.keys, v, user, index[user].(value := index[user].value - {sid}));
      }
      client.ZRem(UserSessionsKey(user), sid);
      client.view := WithIndex(v, RemoveMember(index, user, sid));
    }

    /** The four index commands of the Create transaction. */
    method TouchIndex(user: string, sid: string, clock: int, ttl: int)
      requires client.Valid() && 0 < ttl
      modifies client
      ensures client.Valid() && client.now == old(client.now)
      ensures client.view == PutIndex(old(client.view), user, IndexAfterCreate(old(client.view).auth.index, user, sid, clock, client.now, ttl))
    {
      hide Refines;
      ghost var v := client.view;
      ghost var entry := IndexAfterCreate(v.auth.index, user, sid, clock, client.now, ttl);
      var k := UserSessionsKey(user);
      IndexRead(client.keys, v, user);
      IndexPut(client.keys, v, user, entry);
      client.ZRemRangeByScore(k, clock);
      client.ZAdd(k, sid, clock + ttl);
      client.ExpireNX(k, ExpireMillis(ttl));
      client.ExpireGT(k, ExpireMillis(ttl));
      assert client.keys == old(client.keys)[k := Cell(ScoresValue(entry.value), Some(entry.expireAt))];
      client.view := PutIndex(v, user, entry);
    }

    static function WithIndex(v: View, index: map<string, Timed<Scores>>): View {
      v.(auth := v.auth.(index := index))
    }

    // The operations of the store.

    /** Writes a new session with its refresh key and its index entry; `clock` is what the
        caller's own clock showed before the transaction was sent. */
    method Create(sid: string, session: AuthSession, digest: string, ttl: int, clock: int) returns (ok: bool)
      requires client.Valid()
      modifies client
      ensures client.Valid() && client.now == old(client.now)
      ensures ok <==> ValidCreate(sid, session, digest, ttl)
      ensures client.view == if ok
        then old(client.view).(auth := CreateTx(old(client.view.auth), client.now, clock, sid, session, digest, ttl))
        else old(client.view)
    {
      hide Refines, IndexAfterCreate;
      if sid == "" || session.userID == "" || session.accessJTI == "" || digest == "" || ttl <= 0 || !session.role.Valid() {
        return false;
      }
      SetSession(sid, Record(session, digest), ttl);
      SetRefresh(digest, sid, ttl);
      TouchIndex(session.userID, sid, clock, ttl);
      return true;
    }

    method Get(sid: string) returns (session: Option<AuthSession>)
      requires client.Valid()
      ensures session == if sid != "" && sid in client.view.auth.sessions
        then Some(client.view.auth.sessions[sid].value.session) else None
    {
      var record := GetRecord(sid);
      session := if record.Some? then Some(record.value.session) else None;
    }

    method GetRecord(sid: string) returns (record: Option<Record>)
      requires client.Valid()
      ensures record == if sid != "" && sid in client.view.auth.sessions
        then Some(client.view.auth.sessions[sid].value) else None
    {
      if sid == "" { return None; }
      hide Refines;
      SessionRead(client.keys, client.view, sid);
      var raw := client.Get(SessionKey(sid));
      record := if raw.Some? then Some(raw.value.record) else None;
    }

    method Lookup(digest: string) returns (sid: Option<string>)
      requires client.Valid()
      ensures sid == if digest in client.view.auth.refresh then Some(client.view.auth.refresh[digest].value) else None
    {
      hide Refines;
      RefreshRead(client.keys, client.view, digest);
      var raw := client.Get(RefreshKey(digest));
      sid := if raw.Some? then Some(raw.value.text) else None;
    }

    /** The compare-and-swap script. */
    method RunRotateScript(sid: string, digest: string, nextDigest: string, expected: Record, next: Record) returns (ttl: int)
      requires client.Valid()
      modifies client
      ensures client.Valid() && client.now == old(client.now)
      ensures var out := RotateScript(old(client.view.auth), client.now, sid, digest, nextDigest, expected, next);
        ttl == out.1 && client.view == old(client.view).(auth := out.0)
    {
      hide Refines;
      RefreshRead(client.keys, client.view, digest);
      SessionRead(client.keys, client.view, sid);
      var current := client.Get(RefreshKey(digest));
      if current != Some(TextValue(sid)) { return 0; }
      var raw := client.Get(SessionKey(sid));
      if raw != Some(RecordValue(expected)) { return 0; }
      ttl := client.PTTL(SessionKey(sid));
      if ttl <= 0 { return 0; }
      SetSession(sid, next, ttl);
      DelRefresh(digest);
      SetRefresh(nextDigest, sid, ttl);
    }

    /** Rotate with no other client in between: it succeeds exactly when the token leads to a
        session that still carries it and has time left, and returns that session, the new
        jti in it, and the time left. */
    method Rotate(digest: string, nextDigest: string, nextJTI: string)
      returns (sid: string, session: Option<AuthSession>, remaining: int)
      requires client.Valid()
      modifies client
      ensures client.Valid() && client.now == old(client.now)
      ensures var st := old(client.view.auth);
        && (session.Some? <==> digest != "" && nextDigest != "" && nextJTI != "" && LeadsToSession(st, client.now, digest))
        && (session.None? ==> client.view == old(client.view))
        && (session.Some? ==>
              && sid == st.refresh[digest].value
              && session.value == st.sessions[sid].value.session.(accessJTI := nextJTI)
              && remaining == st.sessions[sid].expireAt - client.now
              && client.view == old(client.view).(auth := st.(
                   sessions := st.sessions[sid := Timed(Record(session.value, nextDigest), st.sessions[sid].expireAt)],
                   refresh := (st.refresh - {digest})[nextDigest := Timed(sid, st.sessions[sid].expireAt)])))
    {
      sid, session, remaining := "", None, 0;
      if digest == "" || nextDigest == "" || nextJTI == "" { return; }
      var found := Lookup(digest);
      if found.None? { return; }
      var record := GetRecord(found.value);
      if record.None? || record.value.refreshDigest != digest { return; }
      var next := Rotated(record.value, nextDigest, nextJTI);
      var ttl := RunRotateScript(found.value, digest, nextDigest, record.value, next);
      if ttl <= 0 { return; }
      sid, session, remaining := found.value, Some(next.session), ttl;
    }

    /** The token's key names a session with time left that still carries the token. */
    static predicate LeadsToSession(st: Store, now: int, digest: string) {
      && digest in st.refresh
      && var sid := st.refresh[digest].value;
         sid != "" && sid in st.sessions && st.sessions[sid].value.refreshDigest == digest && now < st.sessions[sid].expireAt
    }

    method Delete(sid: string)
      requires client.Valid()
      modifies client
      ensures client.Valid() && client.now == old(client.now)
      ensures client.view == if sid == "" then old(client.view) else old(client.view).(auth := DeleteScript(old(client.view.auth), sid))
    {
      hide Refines;
      if sid == "" { return; }
      SessionRead(client.keys, client.view, sid);
      var raw := client.Get(SessionKey(sid));
      if raw.None? { return; }
      var record := raw.value.record;
      DelSession(sid);
      DelRefresh(record.refreshDigest);
      RemoveFromIndex(record.session.userID, sid);
    }

    method DeleteByRefreshDigest(digest: string)
      requires client.Valid()
      modifies client
      ensures client.Valid() && client.now == old(client.now)
      ensures var st := old(client.view.auth);
        client.view == if digest != "" && digest in st.refresh && st.refresh[digest].value != ""
          then old(client.view).(auth := DeleteScript(st, st.refresh[digest].value)) else old(client.view)
    {
      if digest == "" { return; }
      var sid := Lookup(digest);
      if sid.None? { return; }
      Delete(sid.value);
    }

    /** Deletes each listed session and its refresh key in turn, then the list. */
    method DeleteUserSessions(user: string)
      requires client.Valid()
      modifies client
      ensures client.Valid() && client.now == old(client.now)
      ensures client.view == if user == "" then old(client.view) else old(client.view).(auth := WipeScript(old(client.view.auth), user))
    {
      hide Refines;
      if user == "" { return; }
      ghost var v0 := client.view;
      IndexRead(client.keys, client.view, user);
      var sids := client.ZRange(UserSessionsKey(user));
      for i := 0 to |sids|
        invariant client.Valid() && client.now == old(client.now)
        invariant client.view == WipedSome(v0, Among(sids[..i], v0.auth.sessions.Keys))
      {
        DeleteListed(v0, Among(sids[..i], v0.auth.sessions.Keys), sids[i]);
        AmongNext(sids, i, v0.auth.sessions.Keys);
      }
      assert sids[..|sids|] == sids;
      assert Among(sids, v0.auth.sessions.Keys) == Wiped(v0.auth, user);
      DelIndex(user);
    }

    /** One turn of the script's loop. */
    method DeleteListed(ghost v0: View, ghost done: set<string>, sid: string)
      requires client.Valid() && done <= v0.auth.sessions.Keys && client.view == WipedSome(v0, done)
      modifies client
      ensures client.Valid() && client.now == old(client.now)
      ensures client.view == WipedSome(v0, if sid in v0.auth.sessions then done + {sid} else done)
    {
      hide Refines;
      SessionRead(client.keys, client.view, sid);
      var raw := client.Get(SessionKey(sid));
      if raw.Some? {
        DelRefresh(raw.value.record.refreshDigest);
        DelSession(sid);
        WipedOneMore(v0, done, sid);
      } else if sid in v0.auth.sessions {
        assert done + {sid} == done;
      }
    }

    static ghost function Among(sids: seq<string>, all: set<string>): (r: set<string>)
      ensures r <= all
    {
      set x | x in sids && x in all
    }

    static lemma AmongNext(sids: seq<string>, i: nat, all: set<string>)
      requires i < |sids|
      ensures Among(sids[..i + 1], all) == if sids[i] in all then Among(sids[..i], all) + {sids[i]} else Among(sids[..i], all)
    {
      assert sids[..i + 1] == sids[..i] + [sids[i]];
    }

    static ghost function WipedSome(v: View, gone: set<string>): View
      requires gone <= v.auth.sessions.Keys
    {
      v.(auth := v.auth.(sessions := v.auth.sessions - gone, refresh := v.auth.refresh - Digests(v.auth, gone)))
    }

    static lemma WipedOneMore(v: View, gone: set<string>, sid: string)
      requires gone <= v.auth.sessions.Keys && sid in v.auth.sessions
      ensures DropSession(DropRefresh(WipedSome(v, gone), v.auth.sessions[sid].value.refreshDigest), sid) == WipedSome(v, gone + {sid})
    {
      var st := v.auth;
      assert Digests(st, gone + {sid}) == Digests(st, gone) + {st.sessions[sid].value.refreshDigest};
      assert st.refresh - Digests(st, gone) - {st.sessions[sid].value.refreshDigest} == st.refresh - Digests(st, gone + {sid});
      assert st.sessions - gone - {sid} == st.sessions - (gone + {sid});
    }

    /** Which users are online.  One index entry per user is looked at, the first not yet due;
        the user is online if that session is readable and no user later in the list has the
        same entry.  With a sound index these are the users with a listed session not yet due. */
    method OnlineMap(userIDs: seq<string>) returns (online: map<string, bool>, ghost picks: seq<Option<string>>)
      requires client.Valid()
      ensures forall id :: id in online <==> id in userIDs && id != ""
      ensures var ids := Distinct(userIDs);
        && Picked(client.view.auth, client.now, ids, picks)
        && (forall i :: 0 <= i < |ids| ==>
              && ids[i] in online
              && (online[ids[i]] <==> exists sid :: Claims(picks, i, sid) && sid in client.view.auth.sessions))
      ensures IndexSound(client.view.auth, client.now) ==>
        forall id :: id in online ==> (online[id] <==> Online(client.view.auth, client.now, id))
    {
      hide Refines, Distinct, IndexSound, Online, FirstAtOrAfter, Claims, ByOwner;
      var ids := UniqueUserIDs(userIDs);
      var sids, owner;
      sids, owner, picks := FirstSessions(ids);
      online := CheckSessions(ids, sids, owner);
      forall i | 0 <= i < |ids|
        ensures online[ids[i]] <==> exists sid :: Claims(picks, i, sid) && sid in client.view.auth.sessions
        ensures IndexSound(client.view.auth, client.now) ==> (online[ids[i]] <==> Online(client.view.auth, client.now, ids[i]))
      {
        OwnerClaims(ids, picks, sids, owner, i, client.view.auth.sessions.Keys);
        if IndexSound(client.view.auth, client.now) { SoundPick(client.view.auth, client.now, ids, picks, i); }
      }
    }

    /** The sessions found, each with the last user it was found for. */
    static ghost predicate ByOwner(ids: seq<string>, picks: seq<Option<string>>, sids: seq<string>, owner: map<string, string>) {
      && |picks| == |ids|
      && (forall s :: s in sids <==> s in owner)
      && (forall s :: s in owner ==> exists i :: 0 <= i < |ids| && Claims(picks, i, s) && owner[s] == ids[i])
      && (forall i, s :: 0 <= i < |ids| && Claims(picks, i, s) ==> s in owner && owner[s] == ids[i])
    }

    static lemma OwnerClaims(ids: seq<string>, picks: seq<Option<string>>, sids: seq<string>, owner: map<string, string>, i: nat, readable: set<string>)
      requires ByOwner(ids, picks, sids, owner) && i < |ids|
      requires forall j, k :: 0 <= j < k < |ids| ==> ids[j] != ids[k]
      ensures (exists s :: s in sids && owner[s] == ids[i] && s in readable) <==> exists s :: Claims(picks, i, s) && s in readable
    {
      if s :| s in sids && owner[s] == ids[i] && s in readable {
        var j :| 0 <= j < |ids| && Claims(picks, j, s) && owner[s] == ids[j];
        assert i == j;
      }
      if s :| Claims(picks, i, s) && s in readable {
        assert s in sids && owner[s] == ids[i];
      }
    }

    /** One reply of the first pipeline per user. */
    static ghost predicate Picked(st: Store, now: int, ids: seq<string>, picks: seq<Option<string>>) {
      |picks| == |ids| && forall i :: 0 <= i < |ids| ==> FirstAtOrAfter(st.index, ids[i], now, picks[i])
    }

    /** The session found for the i-th user, and for no later one. */
    static ghost predicate Claims(picks: seq<Option<string>>, i: int, sid: string)
      requires 0 <= i < |picks|
    {
      picks[i] == Some(sid) && sid != "" && forall j :: i < j < |picks| ==> picks[j] != Some(sid)
    }

    static lemma ClaimsMore(picks: seq<Option<string>>, pick: Option<string>, i: int, sid: string)
      requires 0 <= i < |picks|
      ensures Claims(picks + [pick], i, sid) <==> Claims(picks, i, sid) && pick != Some(sid)
    {
      var more := picks + [pick];
      assert more[|picks|] == pick && forall j :: 0 <= j < |picks| ==> more[j] == picks[j];
    }

    static lemma SoundPick(st: Store, now: int, ids: seq<string>, picks: seq<Option<string>>, i: nat)
      requires IndexSound(st, now) && Picked(st, now, ids, picks) && i < |ids|
      requires forall j, k :: 0 <= j < k < |ids| ==> ids[j] != ids[k]
      ensures Online(st, now, ids[i]) <==> exists sid :: Claims(picks, i, sid) && sid in st.sessions
    {
      assert forall j :: 0 <= j < |ids| && picks[j].Some? ==> Listed(st, ids[j], picks[j].value);
      if Online(st, now, ids[i]) {
        assert picks[i].Some?;
        assert Claims(picks, i, picks[i].value) && picks[i].value in st.sessions;
      }
    }

    /** The second pipeline: a user is online when the session found for it exists. */
    method CheckSessions(ids: seq<string>, sids: seq<string>, owner: map<string, string>) returns (online: map<string, bool>)
      requires client.Valid() && forall s :: s in sids ==> s in owner && owner[s] in ids
      ensures forall id :: id in online <==> id in ids
      ensures forall id :: id in online ==> (online[id] <==> exists s :: s in sids && owner[s] == id && s in client.view.auth.sessions)
    {
      hide Refines;
      online := map id | id in ids :: false;
      for j := 0 to |sids|
        invariant forall id :: id in online <==> id in ids
        invariant forall id :: id in online ==>
          (online[id] <==> exists s :: s in sids[..j] && owner[s] == id && s in client.view.auth.sessions)
      {
        SessionRead(client.keys, client.view, sids[j]);
        var n := client.Exists(SessionKey(sids[j]));
        if n > 0 { online := online[owner[sids[j]] := true]; }
      }
      assert sids[..|sids|] == sids;
    }

    /** The first pipeline, and the map from the sessions it finds back to their users. */
    method FirstSessions(ids: seq<string>) returns (sids: seq<string>, owner: map<string, string>, ghost picks: seq<Option<string>>)
      requires client.Valid()
      ensures Picked(client.view.auth, client.now, ids, picks) && ByOwner(ids, picks, sids, owner)
      ensures forall s :: s in sids ==> s in owner && owner[s] in ids
    {
      hide Refines, FirstAtOrAfter;
      sids, owner, picks := [], map[], [];
      ghost var st, now := client.view.auth, client.now;
      for i := 0 to |ids|
        invariant Picked(st, now, ids[..i], picks)
        invariant forall s :: s in sids <==> s in owner
        invariant forall s :: s in owner ==> exists j :: 0 <= j < i && Claims(picks, j, s) && owner[s] == ids[j]
        invariant forall j, s :: 0 <= j < i && Claims(picks, j, s) ==> s in owner && owner[s] == ids[j]
      {
        var id := ids[i];
        IndexRead(client.keys, client.view, id);
        var pick := client.ZFirst(UserSessionsKey(id), client.now);
        PickIs(client.keys, client.view, id, now, pick);
        ghost var owner0, picks0 := owner, picks;
        picks := picks + [pick];
        forall j, s | 0 <= j < i ensures Claims(picks, j, s) <==> Claims(picks0, j, s) && pick != Some(s) {
          ClaimsMore(picks0, pick, j, s);
        }
        if pick.Some? && pick.value != "" {
          sids, owner := sids + [pick.value], owner[pick.value := id];
          assert Claims(picks, i, pick.value);
        }
        assert Picked(st, now, ids[..i + 1], picks);
        forall s | s in owner ensures exists j :: 0 <= j < i + 1 && Claims(picks, j, s) && owner[s] == ids[j] {
          if pick != Some(s) {
            var j :| 0 <= j < i && Claims(picks0, j, s) && owner0[s] == ids[j];
            assert Claims(picks, j, s);
          }
        }
      }
      assert ids[..|ids|] == ids;
    }

    static lemma PickIs(keys: Keys, v: View, id: string, now: int, pick: Option<string>)
      requires Holds(keys, UserSessionsKey(id), v.auth.index, id, OfScores)
      requires var k := UserSessionsKey(id);
        match pick
        case None => k in keys ==> forall m :: m in keys[k].value.scores ==> keys[k].value.scores[m] < now
        case Some(sid) =>
          && k in keys && sid in keys[k].value.scores && now <= keys[k].value.scores[sid]
          && forall m :: m in keys[k].value.scores && now <= keys[k].value.scores[m] ==> keys[k].value.scores[sid] <= keys[k].value.scores[m]
      ensures FirstAtOrAfter(v.auth.index, id, now, pick)
    {
    }
  }

  class RedisCaptchaStore {
    const client: Redis

    constructor (client: Redis)
      ensures this.client == client
    {
      this.client := client;
    }

    /** Stores an answer under an id.  An id that starts with the mark of the IP counters
        overwrites such a counter; any other is a captcha of the view. */
    method Put(id: string, answer: string, ttl: int) returns (ok: bool)
      requires client.Valid()
      modifies client
      ensures client.now == old(client.now) && (ok <==> Captcha.ValidPut(id, answer, ttl))
      ensures client.keys == if ok then old(client.keys)[CaptchaKey(id) := Cell(TextValue(answer), Some(client.now + ttl))] else old(client.keys)
      ensures Owns(CAPTCHA_PREFIX, id) || !ok ==>
        && client.Valid()
        && client.view == old(client.view).(captchas := Captcha.PutCaptcha(old(client.view.captchas), client.now, id, answer, ttl))
    {
      hide Refines;
      if id == "" || answer == "" || ttl <= 0 { return false; }
      if Owns(CAPTCHA_PREFIX, id) { CaptchaPut(client.keys, client.view, id, Timed(answer, client.now + ttl)); }
      client.SetPX(CaptchaKey(id), TextValue(answer), ttl);
      client.view := client.view.(captchas := client.view.captchas[id := Timed(answer, client.now + ttl)]);
      return true;
    }

    /** Takes the captcha out, then compares.  An id that starts with the mark of the IP
        counters takes out such a counter, and compares its digits. */
    method Consume(id: string, answer: string) returns (ok: bool)
      requires client.Valid()
      modifies client
      ensures client.Valid() && client.now == old(client.now)
      ensures Owns(CAPTCHA_PREFIX, id) ==>
        var out := Captcha.ConsumeCaptcha(old(client.view.captchas), id, answer);
        ok == out.1 && client.view == old(client.view).(captchas := out.0)
      ensures !Owns(CAPTCHA_PREFIX, id) ==>
        var name := id[|IP_MARK|..];
        && client.view == old(client.view).(counters := if answer == "" then old(client.view.counters) else old(client.view.counters) - {name})
        && (ok <==> answer != "" && name in old(client.view.counters)
                    && Decimal(old(client.view.counters)[name].value) == NormalizeCaptcha(answer))
    {
      hide Refines, Decimal;
      if id == "" || answer == "" { return false; }
      CaptchaKeyRead(client.keys, client.view, id);
      var stored := client.Get(CaptchaKey(id));
      CaptchaKeyDrop(client.keys, client.view, id);
      client.view := WithoutCaptchaKey(client.view, id);
      if stored.None? {
        assert client.keys - {CaptchaKey(id)} == client.keys;
        return false;
      }
      client.Del(CaptchaKey(id));
      var current := if stored.value.CountValue? then Decimal(stored.value.count) else stored.value.text;
      var normalized := NormalizeCaptcha(answer);
      if |current| != |normalized| { return false; }
      return current == normalized;
    }

    /** The login's check: only trimmed, short answers to canonical ids reach the store. */
    method ConsumeLogin(enabled: bool, id: string, captcha: string) returns (verdict: Captcha.Verdict)
      requires client.Valid()
      modifies client
      ensures client.Valid() && client.now == old(client.now)
      ensures !enabled ==> verdict == Captcha.Pass && client.view == old(client.view)
      ensures enabled ==>
        var out := Captcha.LoginCaptcha(old(client.view.captchas), id, captcha);
        verdict == out.1 && client.view == old(client.view).(captchas := out.0)
    {
      hide Refines;
      if !enabled { return Captcha.Pass; }
      var trimmedID, trimmed := TrimSpace(id), TrimSpace(captcha);
      if trimmedID == "" || trimmed == "" || |trimmed| > 16 { return Captcha.InvalidRequest; }
      if !CanonicalUuid(trimmedID) { return Captcha.InvalidRequest; }
      CanonicalNotIp(trimmedID);
      var ok := Consume(trimmedID, trimmed);
      verdict := if ok then Captcha.Pass else Captcha.InvalidCaptcha;
    }

    /** Counts a request of `ip` and says whether it is within the limit; None is the error on
        a limit or window that is not positive, or shorter than a second. */
    method AllowIssue(ip: string, limit: int, window: int) returns (allowed: Option<bool>)
      requires client.Valid()
      modifies client
      ensures client.Valid() && client.now == old(client.now)
      ensures allowed.None? <==> limit <= 0 || window < 1000
      ensures allowed.None? ==> client.view == old(client.view)
      ensures allowed.Some? ==>
        var c := Captcha.CountIssue(old(client.view.counters), client.now, NormalIp(ip), window / 1000);
        && client.view == old(client.view).(counters := old(client.view.counters)[NormalIp(ip) := c])
        && (allowed.value <==> c.value <= limit)
    {
      hide Refines;
      if limit <= 0 || window <= 0 { return None; }
      var seconds := window / 1000;
      if seconds <= 0 { return None; }
      var n := CountRequest(NormalIp(ip), seconds);
      return Some(n <= limit);
    }

    /** issueCaptchaScript: only the first request of a window sets the expiry. */
    method CountRequest(name: string, seconds: int) returns (n: nat)
      requires client.Valid()
      modifies client
      ensures client.Valid() && client.now == old(client.now)
      ensures var c := Captcha.CountIssue(old(client.view.counters), client.now, name, seconds);
        n == c.value && client.view == old(client.view).(counters := old(client.view.counters)[name := c])
    {
      hide Refines;
      ghost var c := Captcha.CountIssue(client.view.counters, client.now, name, seconds);
      var k := Key(CAPTCHA_IP_PREFIX, name);
      CounterRead(client.keys, client.view, name);
      CounterPut(client.keys, client.view, name, c);
      n := client.Incr(k);
      if n == 1 { client.Expire(k, seconds * 1000); }
      assert client.keys == old(client.keys)[k := Cell(CountValue(c.value), Some(c.expireAt))];
      client.view := client.view.(counters := client.view.counters[name := c]);
    }
  }

  /** The ids to ask about, without repetition. */
  method UniqueUserIDs(userIDs: seq<string>) returns (ids: seq<string>)
    ensures ids == Distinct(userIDs)
  {
    var seen: set<string> := {};
    ids := [];
    for i := 0 to |userIDs|
      invariant ids == Distinct(userIDs[..i])
      invariant forall id :: id in seen <==> id in ids
    {
      assert userIDs[..i + 1][..i] == userIDs[..i];
      if userIDs[i] != "" && userIDs[i] !in seen {
        seen, ids := seen + {userIDs[i]}, ids + [userIDs[i]];
      }
    }
    assert userIDs[..|userIDs|] == userIDs;
  }
}
