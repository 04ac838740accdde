/** Redis is one map from strings to values.  This module shows how the service's five kinds
    of keys share it without meeting: a flat keyspace refines a view of separate maps. */
module Keyspace {
  import opened Entities
  import opened SessionStore
  import opened Text

  const SESSION_PREFIX := "auth:v2:session:"
  const REFRESH_PREFIX := "auth:v2:refresh:"
  const USER_SESSIONS_PREFIX := "auth:v2:user-sessions:"
  const CAPTCHA_PREFIX := "captcha:v1:"
  const CAPTCHA_IP_PREFIX := "captcha:v1:ip:"
  const IP_MARK := "ip:"

  function Key(prefix: string, name: string): string { prefix + name }

  function SessionKey(sid: string): string { Key(SESSION_PREFIX, sid) }
  function RefreshKey(digest: string): string { Key(REFRESH_PREFIX, digest) }
  function UserSessionsKey(user: string): string { Key(USER_SESSIONS_PREFIX, user) }
  function CaptchaKey(id: string): string { Key(CAPTCHA_PREFIX, id) }

  function NormalIp(ip: string): string {
    var t := TrimSpace(ip);
    if t == "" then "unknown" else t
  }

  function CaptchaIPKey(ip: string): string { Key(CAPTCHA_IP_PREFIX, NormalIp(ip)) }

  predicate IsPrefix(p: string) {
    p in {SESSION_PREFIX, REFRESH_PREFIX, USER_SESSIONS_PREFIX, CAPTCHA_PREFIX, CAPTCHA_IP_PREFIX}
  }

  /** The names under a prefix that are its own: the captcha prefix is a prefix of the IP one. */
  predicate Owns(prefix: string, name: string) {
    prefix == CAPTCHA_PREFIX ==> !(IP_MARK <= name)
  }

  // ---------------------------------------------------------------- keys do not meet

  lemma KeyInjective(prefix: string, a: string, b: string)
    ensures Key(prefix, a) == Key(prefix, b) <==> a == b
  {
    assert Key(prefix, a)[|prefix|..] == a && Key(prefix, b)[|prefix|..] == b;
  }

  /** A captcha key is an IP counter's key exactly when the captcha id is spelled that way. */
  lemma CaptchaMeetsIp(id: string, name: string)
    ensures Key(CAPTCHA_PREFIX, id) == Key(CAPTCHA_IP_PREFIX, name) <==> id == IP_MARK + name
  {
    assert Key(CAPTCHA_IP_PREFIX, name) == Key(CAPTCHA_PREFIX, IP_MARK + name);
    KeyInjective(CAPTCHA_PREFIX, id, IP_MARK + name);
  }

  lemma KeysDisjoint(p: string, a: string, q: string, b: string)
    requires IsPrefix(p) && IsPrefix(q) && p != q && Owns(p, a) && Owns(q, b)
    ensures Key(p, a) != Key(q, b)
  {
    var x, y := Key(p, a), Key(q, b);
    assert x[0] == p[0] && y[0] == q[0] && x[8] == p[8] && y[8] == q[8];
    if p == CAPTCHA_PREFIX && q == CAPTCHA_IP_PREFIX {
      CaptchaMeetsIp(a, b);
    } else if p == CAPTCHA_IP_PREFIX && q == CAPTCHA_PREFIX {
      CaptchaMeetsIp(b, a);
    }
  }

  /** The key builders of the service: each is injective (IP keys up to trimming and the
      default), and no two of them meet, provided captcha ids are canonical UUIDs. */
  lemma BuildersNeverCollide(sid: string, digest: string, user: string, id: string, ip: string,
                             sid': string, digest': string, user': string, id': string, ip': string)
    requires CanonicalUuid(id) && CanonicalUuid(id')
    ensures SessionKey(sid) == SessionKey(sid') <==> sid == sid'
    ensures RefreshKey(digest) == RefreshKey(digest') <==> digest == digest'
    ensures UserSessionsKey(user) == UserSessionsKey(user') <==> user == user'
    ensures CaptchaKey(id) == CaptchaKey(id') <==> id == id'
    ensures CaptchaIPKey(ip) == CaptchaIPKey(ip') <==>
      TrimSpace(ip) == TrimSpace(ip') || (TrimSpace(ip) in {"", "unknown"} && TrimSpace(ip') in {"", "unknown"})
    ensures |{SessionKey(sid), RefreshKey(digest), UserSessionsKey(user), CaptchaKey(id), CaptchaIPKey(ip)}| == 5
  {
    KeyInjective(SESSION_PREFIX, sid, sid');
    KeyInjective(REFRESH_PREFIX, digest, digest');
    KeyInjective(USER_SESSIONS_PREFIX, user, user');
    KeyInjective(CAPTCHA_PREFIX, id, id');
    KeyInjective(CAPTCHA_IP_PREFIX, NormalIp(ip), NormalIp(ip'));
    CanonicalNotIp(id);
    var names := map[SESSION_PREFIX := sid, REFRESH_PREFIX := digest, USER_SESSIONS_PREFIX := user,
                     CAPTCHA_PREFIX := id, CAPTCHA_IP_PREFIX := NormalIp(ip)];
    forall p, q | p in names && q in names && p != q ensures Key(p, names[p]) != Key(q, names[q]) {
      KeysDisjoint(p, names[p], q, names[q]);
    }
    assert SESSION_PREFIX in names && REFRESH_PREFIX in names && USER_SESSIONS_PREFIX in names
           && CAPTCHA_PREFIX in names && CAPTCHA_IP_PREFIX in names;
  }

  lemma CanonicalNotIp(id: string)
    requires CanonicalUuid(id)
    ensures Owns(CAPTCHA_PREFIX, id)
  {
    assert HexLower(id[0]);
  }

  // ---------------------------------------------------------------- the flat store

  datatype Value =
    | RecordValue(record: Record)
    | TextValue(text: string)
    | ScoresValue(scores: Scores)
    | CountValue(count: nat)

  datatype Cell = Cell(value: Value, expireAt: Option<int>)

  type Keys = map<string, Cell>

  datatype View = View(auth: Store, captchas: map<string, Timed<string>>, counters: map<string, Timed<nat>>)

  function OfRecord(r: Record): Value { RecordValue(r) }
  function OfText(t: string): Value { TextValue(t) }
  function OfScores(z: Scores): Value { ScoresValue(z) }
  function OfCount(n: nat): Value { CountValue(n) }

  /** The keys under `prefix` hold exactly `m`, every one with an expiry. */
  ghost predicate Mirrors<V>(keys: Keys, prefix: string, m: map<string, Timed<V>>, wrap: V -> Value) {
    && (forall k :: k in m ==> Owns(prefix, k))
    && (forall k :: Owns(prefix, k) ==> (Key(prefix, k) in keys <==> k in m))
    && (forall k :: k in m && Key(prefix, k) in keys ==> keys[Key(prefix, k)] == Cell(wrap(m[k].value), Some(m[k].expireAt)))
  }

  ghost predicate Refines(keys: Keys, v: View) {
    && Mirrors(keys, SESSION_PREFIX, v.auth.sessions, OfRecord)
    && Mirrors(keys, REFRESH_PREFIX, v.auth.refresh, OfText)
    && Mirrors(keys, USER_SESSIONS_PREFIX, v.auth.index, OfScores)
    && Mirrors(keys, CAPTCHA_PREFIX, v.captchas, OfText)
    && Mirrors(keys, CAPTCHA_IP_PREFIX, v.counters, OfCount)
  }

  ghost predicate AgreeBut(keys: Keys, keys': Keys, x: string) {
    && (forall k :: k != x ==> (k in keys' <==> k in keys))
    && (forall k :: k != x && k in keys ==> keys'[k] == keys[k])
  }

  lemma MirrorsFrame<V>(keys: Keys, keys': Keys, q: string, b: string, p: string, m: map<string, Timed<V>>, wrap: V -> Value)
    requires Mirrors(keys, p, m, wrap) && AgreeBut(keys, keys', Key(q, b))
    requires IsPrefix(p) && IsPrefix(q) && p != q && Owns(q, b)
    ensures Mirrors(keys', p, m, wrap)
  {
    forall k | Owns(p, k) ensures Key(p, k) != Key(q, b) {
      KeysDisjoint(p, k, q, b);
    }
  }

  lemma MirrorsPut<V>(keys: Keys, p: string, m: map<string, Timed<V>>, wrap: V -> Value, k: string, c: Timed<V>)
    requires Mirrors(keys, p, m, wrap) && Owns(p, k)
    ensures Mirrors(keys[Key(p, k) := Cell(wrap(c.value), Some(c.expireAt))], p, m[k := c], wrap)
  {
    var keys', m' := keys[Key(p, k) := Cell(wrap(c.value), Some(c.expireAt))], m[k := c];
    forall x | Owns(p, x)
      ensures Key(p, x) in keys' <==> x in m'
      ensures x in m' ==> keys'[Key(p, x)] == Cell(wrap(m'[x].value), Some(m'[x].expireAt))
    {
      KeyInjective(p, x, k);
    }
  }

  lemma MirrorsDel<V>(keys: Keys, p: string, m: map<string, Timed<V>>, wrap: V -> Value, k: string)
    requires Mirrors(keys, p, m, wrap) && Owns(p, k)
    ensures Mirrors(keys - {Key(p, k)}, p, m - {k}, wrap)
  {
    forall x | x != k ensures Key(p, x) != Key(p, k) { KeyInjective(p, x, k); }
  }

  /** Changing one key leaves the other four kinds as they were. */
  lemma OthersKept(keys: Keys, keys': Keys, v: View, q: string, b: string)
    requires Refines(keys, v) && AgreeBut(keys, keys', Key(q, b)) && IsPrefix(q) && Owns(q, b)
    ensures q != SESSION_PREFIX ==> Mirrors(keys', SESSION_PREFIX, v.auth.sessions, OfRecord)
    ensures q != REFRESH_PREFIX ==> Mirrors(keys', REFRESH_PREFIX, v.auth.refresh, OfText)
    ensures q != USER_SESSIONS_PREFIX ==> Mirrors(keys', USER_SESSIONS_PREFIX, v.auth.index, OfScores)
    ensures q != CAPTCHA_PREFIX ==> Mirrors(keys', CAPTCHA_PREFIX, v.captchas, OfText)
    ensures q != CAPTCHA_IP_PREFIX ==> Mirrors(keys', CAPTCHA_IP_PREFIX, v.counters, OfCount)
  {
    if q != SESSION_PREFIX { MirrorsFrame(keys, keys', q, b, SESSION_PREFIX, v.auth.sessions, OfRecord); }
    if q != REFRESH_PREFIX { MirrorsFrame(keys, keys', q, b, REFRESH_PREFIX, v.auth.refresh, OfText); }
    if q != USER_SESSIONS_PREFIX { MirrorsFrame(keys, keys', q, b, USER_SESSIONS_PREFIX, v.auth.index, OfScores); }
    if q != CAPTCHA_PREFIX { MirrorsFrame(keys, keys', q, b, CAPTCHA_PREFIX, v.captchas, OfText); }
    if q != CAPTCHA_IP_PREFIX { MirrorsFrame(keys, keys', q, b, CAPTCHA_IP_PREFIX, v.counters, OfCount); }
  }

  lemma EmptyRefines()
    ensures Refines(map[], View(EMPTY_STORE, map[], map[]))
  {
  }

  // ---------------------------------------------------------------- reads, seen through the view

  predicate Holds<V>(keys: Keys, key: string, m: map<string, Timed<V>>, k: string, wrap: V -> Value) {
    && (key in keys <==> k in m)
    && (key in keys && k in m ==> keys[key] == Cell(wrap(m[k].value), Some(m[k].expireAt)))
  }

  lemma SessionRead(keys: Keys, v: View, sid: string)
    requires Refines(keys, v)
    ensures Holds(keys, SessionKey(sid), v.auth.sessions, sid, OfRecord)
  {
    assert Owns(SESSION_PREFIX, sid);
  }

  lemma RefreshRead(keys: Keys, v: View, digest: string)
    requires Refines(keys, v)
    ensures Holds(keys, RefreshKey(digest), v.auth.refresh, digest, OfText)
  {
    assert Owns(REFRESH_PREFIX, digest);
  }

  lemma IndexRead(keys: Keys, v: View, user: string)
    requires Refines(keys, v)
    ensures Holds(keys, UserSessionsKey(user), v.auth.index, user, OfScores)
  {
    assert Owns(USER_SESSIONS_PREFIX, user);
  }

  lemma CaptchaRead(keys: Keys, v: View, id: string)
    requires Refines(keys, v) && Owns(CAPTCHA_PREFIX, id)
    ensures Holds(keys, CaptchaKey(id), v.captchas, id, OfText)
  {
  }

  lemma CounterRead(keys: Keys, v: View, name: string)
    requires Refines(keys, v)
    ensures Holds(keys, Key(CAPTCHA_IP_PREFIX, name), v.counters, name, OfCount)
  {
    assert Owns(CAPTCHA_IP_PREFIX, name);
  }

  // ---------------------------------------------------------------- writes, seen through the view

  function PutSession(v: View, sid: string, c: Timed<Record>): View {
    v.(auth := v.auth.(sessions := v.auth.sessions[sid := c]))
  }
  function DropSession(v: View, sid: string): View {
    v.(auth := v.auth.(sessions := v.auth.sessions - {sid}))
  }
  function PutRefresh(v: View, digest: string, c: Timed<string>): View {
    v.(auth := v.auth.(refresh := v.auth.refresh[digest := c]))
  }
  function DropRefresh(v: View, digest: string): View {
    v.(auth := v.auth.(refresh := v.auth.refresh - {digest}))
  }
  function PutIndex(v: View, user: string, c: Timed<Scores>): View {
    v.(auth := v.auth.(index := v.auth.index[user := c]))
  }
  function DropIndex(v: View, user: string): View {
    v.(auth := v.auth.(index := v.auth.index - {user}))
  }

  lemma SessionPut(keys: Keys, v: View, sid: string, c: Timed<Record>)
    requires Refines(keys, v)
    ensures Refines(keys[SessionKey(sid) := Cell(RecordValue(c.value), Some(c.expireAt))], PutSession(v, sid, c))
  {
    var keys' := keys[SessionKey(sid) := Cell(RecordValue(c.value), Some(c.expireAt))];
    OthersKept(keys, keys', v, SESSION_PREFIX, sid);
    MirrorsPut(keys, SESSION_PREFIX, v.auth.sessions, OfRecord, sid, c);
  }

  lemma SessionDrop(keys: Keys, v: View, sid: string)
    requires Refines(keys, v)
    ensures Refines(keys - {SessionKey(sid)}, DropSession(v, sid))
  {
    OthersKept(keys, keys - {SessionKey(sid)}, v, SESSION_PREFIX, sid);
    MirrorsDel(keys, SESSION_PREFIX, v.auth.sessions, OfRecord, sid);
  }

  lemma RefreshPut(keys: Keys, v: View, digest: string, c: Timed<string>)
    requires Refines(keys, v)
    ensures Refines(keys[RefreshKey(digest) := Cell(TextValue(c.value), Some(c.expireAt))], PutRefresh(v, digest, c))
  {
    var keys' := keys[RefreshKey(digest) := Cell(TextValue(c.value), Some(c.expireAt))];
    OthersKept(keys, keys', v, REFRESH_PREFIX, digest);
    MirrorsPut(keys, REFRESH_PREFIX, v.auth.refresh, OfText, digest, c);
  }

  lemma RefreshDrop(keys: Keys, v: View, digest: string)
    requires Refines(keys, v)
    ensures Refines(keys - {RefreshKey(digest)}, DropRefresh(v, digest))
  {
    OthersKept(keys, keys - {RefreshKey(digest)}, v, REFRESH_PREFIX, digest);
    MirrorsDel(keys, REFRESH_PREFIX, v.auth.refresh, OfText, digest);
  }

  lemma IndexPut(keys: Keys, v: View, user: string, c: Timed<Scores>)
    requires Refines(keys, v)
    ensures Refines(keys[UserSessionsKey(user) := Cell(ScoresValue(c.value), Some(c.expireAt))], PutIndex(v, user, c))
  {
    var keys' := keys[UserSessionsKey(user) := Cell(ScoresValue(c.value), Some(c.expireAt))];
    OthersKept(keys, keys', v, USER_SESSIONS_PREFIX, user);
    MirrorsPut(keys, USER_SESSIONS_PREFIX, v.auth.index, OfScores, user, c);
  }

  lemma IndexDrop(keys: Keys, v: View, user: string)
    requires Refines(keys, v)
    ensures Refines(keys - {UserSessionsKey(user)}, DropIndex(v, user))
  {
    OthersKept(keys, keys - {UserSessionsKey(user)}, v, USER_SESSIONS_PREFIX, user);
    MirrorsDel(keys, USER_SESSIONS_PREFIX, v.auth.index, OfScores, user);
  }

  lemma CaptchaPut(keys: Keys, v: View, id: string, c: Timed<string>)
    requires Refines(keys, v) && Owns(CAPTCHA_PREFIX, id)
    ensures Refines(keys[CaptchaKey(id) := Cell(TextValue(c.value), Some(c.expireAt))], v.(captchas := v.captchas[id := c]))
  {
    var keys' := keys[CaptchaKey(id) := Cell(TextValue(c.value), Some(c.expireAt))];
    OthersKept(keys, keys', v, CAPTCHA_PREFIX, id);
    MirrorsPut(keys, CAPTCHA_PREFIX, v.captchas, OfText, id, c);
  }

  lemma CaptchaDrop(keys: Keys, v: View, id: string)
    requires Refines(keys, v) && Owns(CAPTCHA_PREFIX, id)
    ensures Refines(keys - {CaptchaKey(id)}, v.(captchas := v.captchas - {id}))
  {
    OthersKept(keys, keys - {CaptchaKey(id)}, v, CAPTCHA_PREFIX, id);
    MirrorsDel(keys, CAPTCHA_PREFIX, v.captchas, OfText, id);
  }

  /** The captcha key of `id` is a captcha's or, with the counters' mark, a counter's. */
  lemma CaptchaKeyRead(keys: Keys, v: View, id: string)
    requires Refines(keys, v)
    ensures Owns(CAPTCHA_PREFIX, id) ==> Holds(keys, CaptchaKey(id), v.captchas, id, OfText)
    ensures !Owns(CAPTCHA_PREFIX, id) ==> Holds(keys, CaptchaKey(id), v.counters, id[|IP_MARK|..], OfCount)
  {
    if Owns(CAPTCHA_PREFIX, id) {
      CaptchaRead(keys, v, id);
    } else {
      CaptchaMeetsIp(id, id[|IP_MARK|..]);
      CounterRead(keys, v, id[|IP_MARK|..]);
    }
  }

  function WithoutCaptchaKey(v: View, id: string): View {
    if Owns(CAPTCHA_PREFIX, id) then v.(captchas := v.captchas - {id})
    else v.(counters := v.counters - {id[|IP_MARK|..]})
  }

  lemma CaptchaKeyDrop(keys: Keys, v: View, id: string)
    requires Refines(keys, v)
    ensures Refines(keys - {CaptchaKey(id)}, WithoutCaptchaKey(v, id))
  {
    if Owns(CAPTCHA_PREFIX, id) {
      CaptchaDrop(keys, v, id);
    } else {
      var name := id[|IP_MARK|..];
      CaptchaMeetsIp(id, name);
      OthersKept(keys, keys - {CaptchaKey(id)}, v, CAPTCHA_IP_PREFIX, name);
      MirrorsDel(keys, CAPTCHA_IP_PREFIX, v.counters, OfCount, name);
    }
  }

  lemma CounterPut(keys: Keys, v: View, name: string, c: Timed<nat>)
    requires Refines(keys, v)
    ensures Refines(keys[Key(CAPTCHA_IP_PREFIX, name) := Cell(CountValue(c.value), Some(c.expireAt))], v.(counters := v.counters[name := c]))
  {
    var keys' := keys[Key(CAPTCHA_IP_PREFIX, name) := Cell(CountValue(c.value), Some(c.expireAt))];
    OthersKept(keys, keys', v, CAPTCHA_IP_PREFIX, name);
    MirrorsPut(keys, CAPTCHA_IP_PREFIX, v.counters, OfCount, name, c);
  }

  // ---------------------------------------------------------------- time

  function Readable(keys: Keys, t: int): (r: Keys)
    ensures forall k :: k in r <==> k in keys && (keys[k].expireAt.None? || t <= keys[k].expireAt.value)
    ensures forall k :: k in r ==> r[k] == keys[k]
  {
    map k | k in keys && (keys[k].expireAt.None? || t <= keys[k].expireAt.value) :: keys[k]
  }

  function AdvanceView(v: View, t: int): View {
    View(Advance(v.auth, t), Unexpired(v.captchas, t), Unexpired(v.counters, t))
  }

  lemma MirrorsReadable<V>(keys: Keys, p: string, m: map<string, Timed<V>>, wrap: V -> Value, t: int)
    requires Mirrors(keys, p, m, wrap)
    ensures Mirrors(Readable(keys, t), p, Unexpired(m, t), wrap)
  {
  }

  lemma TimePasses(keys: Keys, v: View, t: int)
    requires Refines(keys, v)
    ensures Refines(Readable(keys, t), AdvanceView(v, t))
  {
    MirrorsReadable(keys, SESSION_PREFIX, v.auth.sessions, OfRecord, t);
    MirrorsReadable(keys, REFRESH_PREFIX, v.auth.refresh, OfText, t);
    MirrorsReadable(keys, USER_SESSIONS_PREFIX, v.auth.index, OfScores, t);
    MirrorsReadable(keys, CAPTCHA_PREFIX, v.captchas, OfText, t);
    MirrorsReadable(keys, CAPTCHA_IP_PREFIX, v.counters, OfCount, t);
  }
}
