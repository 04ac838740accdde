/** One-time captchas and the fixed-window limiter on issuing them, over whole traces. */
module Captcha {
  import opened Entities
  import opened Numbers
  import opened SessionStore
  import opened Text
  import opened Keyspace

  // ---------------------------------------------------------------- the store's operations

  predicate ValidPut(id: string, answer: string, ttl: int) { id != "" && answer != "" && 0 < ttl }

  function PutCaptcha(captchas: map<string, Timed<string>>, now: int, id: string, answer: string, ttl: int): map<string, Timed<string>> {
    if ValidPut(id, answer, ttl) then captchas[id := Timed(answer, now + ttl)] else captchas
  }

  /** consumeCaptchaScript and the comparison: the captcha goes, right or wrong. */
  function ConsumeCaptcha(captchas: map<string, Timed<string>>, id: string, answer: string): (map<string, Timed<string>>, bool) {
    if id == "" || answer == "" || id !in captchas then (captchas, false)
    else (captchas - {id}, captchas[id].value == NormalizeCaptcha(answer))
  }

  /** issueCaptchaScript: the counter after one more request. */
  function CountIssue(counters: map<string, Timed<nat>>, now: int, name: string, seconds: int): Timed<nat> {
    var n := if name in counters then counters[name].value + 1 else 1;
    Timed(n, if n == 1 then now + seconds * 1000 else counters[name].expireAt)
  }

  // ---------------------------------------------------------------- the login's use of it

  datatype Verdict = Pass | InvalidRequest | InvalidCaptcha

  /** What a login submits, after trimming, reaches the store only in this form. */
  predicate WellFormed(id: string, captcha: string) {
    && TrimSpace(captcha) != "" && |TrimSpace(captcha)| <= 16
    && CanonicalUuid(TrimSpace(id))
  }

  function LoginCaptcha(captchas: map<string, Timed<string>>, id: string, captcha: string): (map<string, Timed<string>>, Verdict) {
    if !WellFormed(id, captcha) then (captchas, InvalidRequest)
    else
      var out := ConsumeCaptcha(captchas, TrimSpace(id), TrimSpace(captcha));
      (out.0, if out.1 then Pass else InvalidCaptcha)
  }

  // ---------------------------------------------------------------- traces

  datatype Config = Config(limit: int, seconds: int) {
    predicate Valid() { 0 < limit && 0 < seconds }
    function Window(): int { seconds * 1000 }
  }

  datatype State = State(now: int, captchas: map<string, Timed<string>>, counters: map<string, Timed<nat>>)

  datatype Event =
    | Wait(dt: nat)
    | Put(id: string, answer: string, ttl: int)
    | Login(id: string, captcha: string)
    | Issue(ip: string)

  function Step(cfg: Config, s: State, e: Event): State {
    match e
    case Wait(dt) => State(s.now + dt, Unexpired(s.captchas, s.now + dt), Unexpired(s.counters, s.now + dt))
    case Put(id, answer, ttl) => s.(captchas := PutCaptcha(s.captchas, s.now, id, answer, ttl))
    case Login(id, captcha) => s.(captchas := LoginCaptcha(s.captchas, id, captcha).0)
    case Issue(ip) => s.(counters := s.counters[NormalIp(ip) := CountIssue(s.counters, s.now, NormalIp(ip), cfg.seconds)])
  }

  ghost predicate IsTrace(cfg: Config, ss: seq<State>, es: seq<Event>) {
    && |ss| == |es| + 1 && cfg.Valid()
    && ss[0] == State(ss[0].now, map[], map[])
    && forall i :: 0 <= i < |es| ==> ss[i + 1] == Step(cfg, ss[i], es[i])
  }

  // ---------------------------------------------------------------- a captcha serves once

  /** A login attempt that reaches the store for captcha `id`. */
  predicate Attempts(e: Event, id: string) {
    e.Login? && WellFormed(e.id, e.captcha) && TrimSpace(e.id) == id
  }

  predicate Stores(e: Event, id: string) {
    e.Put? && ValidPut(e.id, e.answer, e.ttl) && e.id == id
  }

  /** The captcha waiting under `id` before event `i`, read off the trace: the latest one put
      there, unless an attempt has come since.  Expiry is left to the reader. */
  ghost function Pending(ss: seq<State>, es: seq<Event>, i: nat, id: string): Option<Timed<string>>
    requires i <= |es| < |ss|
  {
    if i == 0 then None
    else if Stores(es[i - 1], id) then Some(Timed(es[i - 1].answer, ss[i - 1].now + es[i - 1].ttl))
    else if Attempts(es[i - 1], id) then None
    else Pending(ss, es, i - 1, id)
  }

  lemma {:induction false} StoreHoldsPending(cfg: Config, ss: seq<State>, es: seq<Event>, i: nat, id: string)
    requires IsTrace(cfg, ss, es) && i < |ss|
    ensures var w := Pending(ss, es, i, id);
      && (id in ss[i].captchas <==> w.Some? && ss[i].now <= w.value.expireAt)
      && (id in ss[i].captchas ==> w.value == ss[i].captchas[id])
  {
    if i > 0 { StoreHoldsPending(cfg, ss, es, i - 1, id); }
  }

  ghost predicate PassesAt(cfg: Config, ss: seq<State>, es: seq<Event>, i: nat, id: string)
    requires IsTrace(cfg, ss, es)
  {
    && i < |es| && es[i].Login? && TrimSpace(es[i].id) == id
    && LoginCaptcha(ss[i].captchas, es[i].id, es[i].captcha).1 == Pass
  }

  /** A login passes exactly when its id is a printed UUID, its answer has 1 to 16 characters
      without outer white space, and it is the first such attempt on the captcha put last under
      that id, in time, with that captcha's answer in upper case. */
  lemma PassesIff(cfg: Config, ss: seq<State>, es: seq<Event>, i: nat, id: string)
    requires IsTrace(cfg, ss, es) && i < |es| && es[i].Login? && TrimSpace(es[i].id) == id
    ensures PassesAt(cfg, ss, es, i, id) <==>
      CanonicalUuid(id) && 1 <= |TrimSpace(es[i].captcha)| <= 16 &&
      var w := Pending(ss, es, i, id);
      w.Some? && ss[i].now <= w.value.expireAt && w.value.value == NormalizeCaptcha(TrimSpace(es[i].captcha))
  {
    StoreHoldsPending(cfg, ss, es, i, id);
    assert CanonicalUuid(id) ==> id != "";
  }

  /** Every attempt that reaches the store burns the captcha, whatever the answer. */
  lemma AttemptBurns(cfg: Config, ss: seq<State>, es: seq<Event>, i: nat, id: string)
    requires IsTrace(cfg, ss, es) && i < |es| && Attempts(es[i], id)
    ensures id !in ss[i + 1].captchas && Pending(ss, es, i + 1, id) == None
  {
    assert CanonicalUuid(id) ==> id != "";
  }

  lemma {:induction false} PutInBetween(cfg: Config, ss: seq<State>, es: seq<Event>, i: nat, j: nat, id: string)
    requires IsTrace(cfg, ss, es) && i <= j < |ss| && id !in ss[i].captchas && id in ss[j].captchas
    ensures exists k :: i <= k < j && Stores(es[k], id)
    decreases j
  {
    if !Stores(es[j - 1], id) { PutInBetween(cfg, ss, es, i, j - 1, id); }
  }

  /** Between two logins that pass on the same id a captcha was put there: no stored captcha
      lets two logins through. */
  lemma OnePassPerCaptcha(cfg: Config, ss: seq<State>, es: seq<Event>, i: nat, j: nat, id: string)
    requires IsTrace(cfg, ss, es) && i < j && PassesAt(cfg, ss, es, i, id) && PassesAt(cfg, ss, es, j, id)
    ensures exists k :: i < k < j && Stores(es[k], id)
  {
    AttemptBurns(cfg, ss, es, i, id);
    PutInBetween(cfg, ss, es, i + 1, j, id);
  }

  // ---------------------------------------------------------------- the limiter

  predicate AsksFor(e: Event, name: string) { e.Issue? && NormalIp(e.ip) == name }

  /** Event `i` asks for a captcha from `name` and gets it. */
  ghost predicate AllowedAt(cfg: Config, ss: seq<State>, es: seq<Event>, i: nat, name: string)
    requires i < |es| < |ss|
  {
    AsksFor(es[i], name) && CountIssue(ss[i].counters, ss[i].now, name, cfg.seconds).value <= cfg.limit
  }

  /** How many of the first `n` events are allowed requests from `name` at times in [a, b]. */
  ghost function AllowedIn(cfg: Config, ss: seq<State>, es: seq<Event>, n: nat, name: string, a: int, b: int): nat
    requires n <= |es| < |ss|
  {
    if n == 0 then 0
    else AllowedIn(cfg, ss, es, n - 1, name, a, b) +
         if AllowedAt(cfg, ss, es, n - 1, name) && a <= ss[n - 1].now <= b then 1 else 0
  }

  /** The request that finds no counter opens a window. */
  ghost predicate OpensAt(ss: seq<State>, es: seq<Event>, i: nat, name: string)
    requires i < |es| < |ss|
  {
    AsksFor(es[i], name) && name !in ss[i].counters
  }

  ghost predicate Opened(ss: seq<State>, es: seq<Event>, n: nat, name: string, a: int)
    requires n <= |es| < |ss|
  {
    exists i: nat :: i < n && OpensAt(ss, es, i, name) && ss[i].now == a
  }

  /** When the latest window opened. */
  ghost function LastOpened(ss: seq<State>, es: seq<Event>, n: nat, name: string): Option<int>
    requires n <= |es| < |ss|
  {
    if n == 0 then None
    else if OpensAt(ss, es, n - 1, name) then Some(ss[n - 1].now)
    else LastOpened(ss, es, n - 1, name)
  }

  /** The counter is the latest window's, and lives as long as the window: later requests,
      allowed or not, never move its end, and it never lacks one. */
  ghost predicate CounterOk(cfg: Config, s: State, last: Option<int>, name: string) {
    && (name in s.counters <==> last.Some? && s.now <= last.value + cfg.Window())
    && (name in s.counters ==> s.counters[name].expireAt == last.value + cfg.Window() && 0 < s.counters[name].value)
    && (last.Some? ==> last.value <= s.now)
  }

  lemma {:induction false} CounterFollowsWindow(cfg: Config, ss: seq<State>, es: seq<Event>, n: nat, name: string)
    requires IsTrace(cfg, ss, es) && n <= |es|
    ensures CounterOk(cfg, ss[n], LastOpened(ss, es, n, name), name)
  {
    if n > 0 {
      CounterFollowsWindow(cfg, ss, es, n - 1, name);
      assert ss[n] == Step(cfg, ss[n - 1], es[n - 1]);
    }
  }

  /** The requests allowed by the latest window so far, or a bound on them once it has closed. */
  ghost function Current(cfg: Config, s: State, name: string): int {
    if name in s.counters then Min(s.counters[name].value, cfg.limit) else cfg.limit
  }

  /** Bounds on the allowed requests in [a, a + window], by where the latest window opened. */
  ghost predicate Bounded(cfg: Config, s: State, last: Option<int>, begun: bool, count: int, name: string, a: int) {
    (s.now < a ==> count == 0) &&
    match last
    case None => count == 0 && !begun
    case Some(t) =>
      && (t + cfg.Window() < a ==> count == 0)
      && (begun ==> a <= t)
      && (t <= a ==> count <= Current(cfg, s, name))
      && (a < t <= a + cfg.Window() ==> count <= cfg.limit + Current(cfg, s, name) && !begun)
      && (a + cfg.Window() < t ==> count <= 2 * cfg.limit)
      && (begun ==> count <= cfg.limit)
  }

  lemma BoundedStep(cfg: Config, s: State, e: Event, last: Option<int>, begun: bool, count: int, name: string, a: int)
    requires cfg.Valid() && CounterOk(cfg, s, last, name) && Bounded(cfg, s, last, begun, count, name, a)
    ensures var opens := AsksFor(e, name) && name !in s.counters;
      var allowed := AsksFor(e, name) && CountIssue(s.counters, s.now, name, cfg.seconds).value <= cfg.limit;
      Bounded(cfg, Step(cfg, s, e), if opens then Some(s.now) else last, begun || (opens && s.now == a),
              count + if allowed && a <= s.now <= a + cfg.Window() then 1 else 0, name, a)
  {
  }

  lemma {:induction false} TraceBounded(cfg: Config, ss: seq<State>, es: seq<Event>, n: nat, name: string, a: int)
    requires IsTrace(cfg, ss, es) && n <= |es|
    ensures Bounded(cfg, ss[n], LastOpened(ss, es, n, name), Opened(ss, es, n, name, a),
                    AllowedIn(cfg, ss, es, n, name, a, a + cfg.Window()), name, a)
  {
    if n > 0 {
      TraceBounded(cfg, ss, es, n - 1, name, a);
      CounterFollowsWindow(cfg, ss, es, n - 1, name);
      BoundedStep(cfg, ss[n - 1], es[n - 1], LastOpened(ss, es, n - 1, name), Opened(ss, es, n - 1, name, a),
                  AllowedIn(cfg, ss, es, n - 1, name, a, a + cfg.Window()), name, a);
      assert Opened(ss, es, n, name, a) <==> Opened(ss, es, n - 1, name, a) || (OpensAt(ss, es, n - 1, name) && ss[n - 1].now == a);
      assert ss[n] == Step(cfg, ss[n - 1], es[n - 1]);
    }
  }

  /** Per address: at most `limit` requests are allowed in a window that some request opened,
      and at most twice that in any stretch of time as long as a window, over any trace. */
  lemma LimiterBound(cfg: Config, ss: seq<State>, es: seq<Event>, name: string, a: int)
    requires IsTrace(cfg, ss, es)
    ensures AllowedIn(cfg, ss, es, |es|, name, a, a + cfg.Window()) <= 2 * cfg.limit
    ensures Opened(ss, es, |es|, name, a) ==> AllowedIn(cfg, ss, es, |es|, name, a, a + cfg.Window()) <= cfg.limit
  {
    TraceBounded(cfg, ss, es, |es|, name, a);
    CounterFollowsWindow(cfg, ss, es, |es|, name);
  }

  /** How many of the events from `k` up to `n` ask for a captcha from `name`. */
  ghost function Requests(es: seq<Event>, k: nat, n: nat, name: string): nat
    requires k <= n <= |es|
  {
    if k == n then 0 else Requests(es, k, n - 1, name) + if AsksFor(es[n - 1], name) then 1 else 0
  }

  /** Event `k` opened the latest window before event `n`. */
  ghost predicate OpenedLast(ss: seq<State>, es: seq<Event>, k: nat, n: nat, name: string)
    requires k < n <= |es| < |ss|
  {
    OpensAt(ss, es, k, name) && forall m :: k < m < n ==> !OpensAt(ss, es, m, name)
  }

  /** A counter counts every request since the one that opened its window. */
  lemma {:induction false} CounterCounts(cfg: Config, ss: seq<State>, es: seq<Event>, n: nat, name: string) returns (k: nat)
    requires IsTrace(cfg, ss, es) && n <= |es| && name in ss[n].counters
    ensures k < n && OpenedLast(ss, es, k, n, name)
    ensures ss[n].counters[name] == Timed(Requests(es, k, n, name), ss[k].now + cfg.Window()) && ss[n].now <= ss[k].now + cfg.Window()
  {
    hide Step, CounterOk, CountIssue;
    assert ss[n] == Step(cfg, ss[n - 1], es[n - 1]);
    CounterInTime(cfg, ss, es, n - 1, name);
    CounterStep(cfg, ss[n - 1], es[n - 1], name);
    if OpensAt(ss, es, n - 1, name) {
      k := n - 1;
      assert Requests(es, k, n - 1, name) == 0;
    } else {
      k := CounterCounts(cfg, ss, es, n - 1, name);
    }
  }

  lemma CounterStep(cfg: Config, s: State, e: Event, name: string)
    requires cfg.Valid() && name in Step(cfg, s, e).counters && (name in s.counters ==> 0 < s.counters[name].value)
    ensures var s' := Step(cfg, s, e); var c := s'.counters[name];
      && (AsksFor(e, name) && name !in s.counters ==> c == Timed(1, s.now + cfg.Window()) && s'.now == s.now)
      && (name in s.counters ==> c == Timed(s.counters[name].value + (if AsksFor(e, name) then 1 else 0), s.counters[name].expireAt))
      && (name in s.counters || AsksFor(e, name)) && (s.now <= c.expireAt ==> s'.now <= c.expireAt)
  {
  }

  lemma CounterInTime(cfg: Config, ss: seq<State>, es: seq<Event>, n: nat, name: string)
    requires IsTrace(cfg, ss, es) && n <= |es|
    ensures name in ss[n].counters ==> 0 < ss[n].counters[name].value && ss[n].now <= ss[n].counters[name].expireAt
  {
    CounterFollowsWindow(cfg, ss, es, n, name);
  }

  /** A request is allowed if and only if it opens a window, or fewer than `limit` requests have
      come since the one that opened the window it falls into. */
  lemma AllowedIffFew(cfg: Config, ss: seq<State>, es: seq<Event>, i: nat, name: string)
    requires IsTrace(cfg, ss, es) && i < |es| && AsksFor(es[i], name)
    ensures OpensAt(ss, es, i, name) ==> AllowedAt(cfg, ss, es, i, name)
    ensures !OpensAt(ss, es, i, name) ==>
      exists k :: 0 <= k < i && OpenedLast(ss, es, k, i, name) && ss[i].now <= ss[k].now + cfg.Window()
                  && (AllowedAt(cfg, ss, es, i, name) <==> Requests(es, k, i, name) < cfg.limit)
  {
    if !OpensAt(ss, es, i, name) {
      var k := CounterCounts(cfg, ss, es, i, name);
      assert OpenedLast(ss, es, k, i, name);
    }
  }

  /** Answers that differ at most in outer white space and the case of letters get the same verdict. */
  lemma AnswersAlike(captchas: map<string, Timed<string>>, id: string, a: string, b: string)
    requires Alike(a, b)
    ensures LoginCaptcha(captchas, id, a) == LoginCaptcha(captchas, id, b)
  {
    TrimAlike(a, b);
    NormalizedAlike(TrimSpace(a), TrimSpace(b));
    var p, q := TrimParts(TrimSpace(a));
    var p', q' := TrimParts(TrimSpace(b));
    assert TrimSpace(a) == "" + TrimSpace(a) + "" && TrimSpace(b) == "" + TrimSpace(b) + "";
    assert Padded(TrimSpace(a), "", TrimSpace(a), "") && Padded(TrimSpace(b), "", TrimSpace(b), "");
  }
}
