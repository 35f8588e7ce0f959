/** Rate limits stated on the full log of allowed requests. Instants are microseconds. */
module LimiterSpec {
  import opened Basics

  datatype RateRule = RateRule(
    id: Id, scopeType: string, scopeId: Id, operation: string, limit: nat, window: nat, burst: nat, enabled: bool)

  datatype ConcurrencyRule = ConcurrencyRule(
    id: Id, scopeType: string, scopeId: Id, operation: string, maximumActive: nat, serializeByTarget: bool, enabled: bool)

  datatype Request = Request(scopeType: string, scopeId: Id, operation: string, active: int, at: Instant)

  datatype Outcome = Allow | Delay

  datatype Rules = Rules(rates: seq<RateRule>, concurrency: seq<ConcurrencyRule>)

  /** What the rules' data models validate. */
  predicate ValidRate(r: RateRule) { r.limit >= 1 && r.window >= 1 }

  predicate Matches(r: RateRule, q: Request) {
    r.enabled && r.scopeType == q.scopeType && r.scopeId == q.scopeId && (r.operation == q.operation || r.operation == "*")
  }

  predicate Guards(c: ConcurrencyRule, q: Request) {
    c.enabled && c.scopeType == q.scopeType && c.scopeId == q.scopeId && (c.operation == q.operation || c.operation == "*")
  }

  function Cutoff(r: RateRule, now: Instant): Instant { now - r.window * SECOND }

  /** The instants of the allowed requests that `r` matches. */
  function Times(r: RateRule, log: seq<Request>): seq<Instant> {
    if log == [] then []
    else
      var q := log[|log| - 1];
      Times(r, log[..|log| - 1]) + if Matches(r, q) then [q.at] else []
  }

  function Later(cutoff: Instant): Instant -> bool { t => t > cutoff }

  /** Those of them that the window ending at `now` still counts. */
  function Window(r: RateRule, log: seq<Request>, now: Instant): seq<Instant> {
    Filter(Times(r, log), Later(Cutoff(r, now)))
  }

  predicate Exceeded(r: RateRule, log: seq<Request>, now: Instant) {
    |Window(r, log, now)| >= r.limit + r.burst
  }

  /** No matching rate rule is used up and no matching concurrency rule reached. */
  ghost predicate Allowed(rules: Rules, log: seq<Request>, q: Request) {
    && (forall r :: r in rules.rates && Matches(r, q) ==> !Exceeded(r, log, q.at))
    && (forall c :: c in rules.concurrency && Guards(c, q) ==> q.active < c.maximumActive)
  }

  ghost predicate AllowedLog(rules: Rules, log: seq<Request>) {
    forall i :: 0 <= i < |log| ==> Allowed(rules, log[..i], log[i])
  }

  ghost predicate Chronological(log: seq<Request>) {
    forall i, j :: 0 <= i < j < |log| ==> log[i].at <= log[j].at
  }

  /** How many of `ts` lie in the half-open window `(from, to]`. */
  function CountIn(ts: seq<Instant>, from: Instant, to: Instant): nat {
    if ts == [] then 0
    else CountIn(ts[..|ts| - 1], from, to) + if from < ts[|ts| - 1] <= to then 1 else 0
  }

  lemma {:induction false} CountsAtMostLater(ts: seq<Instant>, from: Instant, to: Instant, cutoff: Instant)
    requires cutoff <= from
    ensures CountIn(ts, from, to) <= |Filter(ts, Later(cutoff))|
  {
    if ts != [] { CountsAtMostLater(ts[..|ts| - 1], from, to, cutoff); }
  }

  /**
   The rate bound: at every instant `t`, whether or not anything is evaluated then, the requests that a
   rule matched and that were allowed in `(t - window, t]` are at most `limit + burst`.
   */
  lemma {:induction false} RateIsBounded(rules: Rules, log: seq<Request>, r: RateRule, t: Instant)
    requires AllowedLog(rules, log) && r in rules.rates
    ensures CountIn(Times(r, log), Cutoff(r, t), t) <= r.limit + r.burst
    decreases |log|
  {
    if log != [] {
      var n := |log| - 1;
      var init, q := log[..n], log[n];
      forall i | 0 <= i < n ensures Allowed(rules, init[..i], init[i]) { assert init[..i] == log[..i]; }
      RateIsBounded(rules, init, r, t);
      if Matches(r, q) {
        var ts := Times(r, init);
        assert Times(r, log) == ts + [q.at];
        assert (ts + [q.at])[..|ts|] == ts;
        assert Allowed(rules, init, q);
        if q.at <= t { CountsAtMostLater(ts, Cutoff(r, t), t, Cutoff(r, q.at)); }
      } else {
        assert Times(r, log) == Times(r, init);
      }
    }
  }

  // ---- the whole decision ----

  datatype Reason = RateExceeded(id: Id) | ConcurrencyReached(id: Id)

  datatype Decision = Decision(outcome: Outcome, reasons: seq<Reason>, retryAfter: Option<int>, matched: seq<Id>)

  function MatchedRates(rs: seq<RateRule>, q: Request): seq<Id> {
    if rs == [] then []
    else MatchedRates(rs[..|rs| - 1], q) + if Matches(rs[|rs| - 1], q) then [rs[|rs| - 1].id] else []
  }

  function MatchedLimits(cs: seq<ConcurrencyRule>, q: Request): seq<Id> {
    if cs == [] then []
    else MatchedLimits(cs[..|cs| - 1], q) + if Guards(cs[|cs| - 1], q) then [cs[|cs| - 1].id] else []
  }

  predicate Blocks(r: RateRule, log: seq<Request>, q: Request) { Matches(r, q) && Exceeded(r, log, q.at) }

  function RateReasons(rs: seq<RateRule>, log: seq<Request>, q: Request): seq<Reason> {
    if rs == [] then []
    else
      var r := rs[|rs| - 1];
      RateReasons(rs[..|rs| - 1], log, q) + if Blocks(r, log, q) then [RateExceeded(r.id)] else []
  }

  /** The last rule that blocks gives the hint. */
  function RateRetry(rs: seq<RateRule>, log: seq<Request>, q: Request): Option<int> {
    if rs == [] then None
    else
      var r := rs[|rs| - 1];
      if Blocks(r, log, q) && Window(r, log, q.at) != [] then
        Some(RetryAfter(r, Oldest(Window(r, log, q.at)), q.at))
      else RateRetry(rs[..|rs| - 1], log, q)
  }

  function LimitReasons(cs: seq<ConcurrencyRule>, q: Request): seq<Reason> {
    if cs == [] then []
    else
      var c := cs[|cs| - 1];
      LimitReasons(cs[..|cs| - 1], q) +
      if Guards(c, q) && q.active >= c.maximumActive then [ConcurrencyReached(c.id)] else []
  }

  function Decide(rules: Rules, log: seq<Request>, q: Request): Decision {
    var reasons := RateReasons(rules.rates, log, q) + LimitReasons(rules.concurrency, q);
    Decision(if reasons == [] then Allow else Delay, reasons, RateRetry(rules.rates, log, q),
             MatchedRates(rules.rates, q) + MatchedLimits(rules.concurrency, q))
  }

  lemma {:induction false} NoRateReason(rs: seq<RateRule>, log: seq<Request>, q: Request)
    ensures RateReasons(rs, log, q) == [] <==> forall r :: r in rs ==> !Blocks(r, log, q)
  {
    if rs != [] {
      NoRateReason(rs[..|rs| - 1], log, q);
      assert rs == rs[..|rs| - 1] + [rs[|rs| - 1]];
    }
  }

  lemma {:induction false} NoLimitReason(cs: seq<ConcurrencyRule>, q: Request)
    ensures LimitReasons(cs, q) == [] <==> forall c :: c in cs && Guards(c, q) ==> q.active < c.maximumActive
  {
    if cs != [] {
      NoLimitReason(cs[..|cs| - 1], q);
      assert cs == cs[..|cs| - 1] + [cs[|cs| - 1]];
    }
  }

  lemma AllowedWhenNoReason(rules: Rules, log: seq<Request>, q: Request)
    ensures Decide(rules, log, q).outcome == Allow <==> Allowed(rules, log, q)
  {
    NoRateReason(rules.rates, log, q);
    NoLimitReason(rules.concurrency, q);
  }

  // ---- retrying after the suggested wait ----

  ghost predicate Ascending(ts: seq<Instant>) { forall i, j :: 0 <= i < j < |ts| ==> ts[i] <= ts[j] }

  lemma {:induction false} TimesAscend(r: RateRule, log: seq<Request>)
    requires Chronological(log)
    ensures Ascending(Times(r, log))
    ensures forall t :: t in Times(r, log) ==> exists i :: 0 <= i < |log| && log[i].at == t
  {
    if log != [] {
      var init := log[..|log| - 1];
      TimesAscend(r, init);
      forall t | t in Times(r, log) ensures exists i :: 0 <= i < |log| && log[i].at == t {
        if t in Times(r, init) {
          var i :| 0 <= i < |init| && init[i].at == t;
          assert log[i].at == t;
        } else {
          assert log[|log| - 1].at == t;
        }
      }
      forall t | t in Times(r, init) ensures t <= log[|log| - 1].at {
        var i :| 0 <= i < |init| && init[i].at == t;
      }
      var ts := Times(r, init);
      assert forall i :: 0 <= i < |ts| ==> ts[i] in ts;
    }
  }

  /** On ascending instants the window is a suffix. */
  lemma {:induction false} WindowIsSuffix(ts: seq<Instant>, cutoff: Instant) returns (k: nat)
    requires Ascending(ts)
    ensures k <= |ts| && Filter(ts, Later(cutoff)) == ts[k..]
    ensures forall i :: 0 <= i < k ==> ts[i] <= cutoff
    ensures forall i :: k <= i < |ts| ==> ts[i] > cutoff
  {
    if ts == [] {
      k := 0;
    } else {
      var n := |ts| - 1;
      k := WindowIsSuffix(ts[..n], cutoff);
      if ts[n] > cutoff {
        assert ts[k..] == ts[..n][k..] + [ts[n]];
      } else {
        forall i | 0 <= i < n ensures ts[..n][i] <= cutoff { assert ts[i] <= ts[n]; }
        assert k == n;
        k := n + 1;
      }
    }
  }

  /** `min(bucket)` */
  function Oldest(ts: seq<Instant>): Instant
    requires ts != []
  {
    if |ts| == 1 then ts[0]
    else
      var rest := Oldest(ts[1..]);
      if ts[0] <= rest then ts[0] else rest
  }

  lemma {:induction false} OldestOfAscending(ts: seq<Instant>)
    requires ts != [] && Ascending(ts)
    ensures Oldest(ts) == ts[0]
  {
    if |ts| > 1 {
      OldestOfAscending(ts[1..]);
      assert ts[1..][0] == ts[1];
    }
  }

  /** `max(0, int(seconds))` of the time until the oldest counted request leaves the window. */
  function RetryAfter(r: RateRule, oldest: Instant, now: Instant): int {
    var left := oldest + r.window * SECOND - now;
    if left < 0 then 0 else left / SECOND
  }

  /** A chronological allowed log never holds more than the limit in any window that ends at or after its last entry. */
  lemma WindowAtMostFull(rules: Rules, log: seq<Request>, r: RateRule, now: Instant)
    requires AllowedLog(rules, log) && Chronological(log) && r in rules.rates
    requires forall i :: 0 <= i < |log| ==> log[i].at <= now
    ensures |Window(r, log, now)| <= r.limit + r.burst
  {
    RateIsBounded(rules, log, r, now);
    TimesAscend(r, log);
    CountsAllLater(Times(r, log), Cutoff(r, now), now);
  }

  lemma {:induction false} CountsAllLater(ts: seq<Instant>, from: Instant, to: Instant)
    requires forall t :: t in ts ==> t <= to
    ensures CountIn(ts, from, to) == |Filter(ts, Later(from))|
  {
    if ts != [] {
      var n := |ts| - 1;
      assert ts[n] in ts;
      forall t | t in ts[..n] ensures t <= to { assert t in ts; }
      CountsAllLater(ts[..n], from, to);
    }
  }

  /**
   A request delayed by the only rule and repeated exactly `retry_after_seconds` later, with nothing in
   between, is allowed if and only if the remaining wait was a whole number of seconds: the hint is cut down
   to whole seconds, so otherwise the oldest request is still inside the window.
   */
  lemma RetryIsExact(r: RateRule, log: seq<Request>, q: Request)
    requires ValidRate(r) && Matches(r, q)
    requires AllowedLog(Rules([r], []), log) && Chronological(log)
    requires forall i :: 0 <= i < |log| ==> log[i].at <= q.at
    requires Exceeded(r, log, q.at)
    ensures var oldest := Oldest(Window(r, log, q.at));
      var again := q.(at := q.at + RetryAfter(r, oldest, q.at) * SECOND);
      Allowed(Rules([r], []), log, again) <==> (oldest + r.window * SECOND - q.at) % SECOND == 0
  {
    var ts := Times(r, log);
    TimesAscend(r, log);
    WindowAtMostFull(Rules([r], []), log, r, q.at);
    hide Times, Filter, AllowedLog, Chronological, Allowed, Ascending, Matches, RetryAfter, Cutoff, Oldest;
    var from, oldest := Cutoff(r, q.at), Oldest(Window(r, log, q.at));
    var again := q.(at := q.at + RetryAfter(r, oldest, q.at) * SECOND);
    OldestCounts(ts, from);
    RetryInstant(r, oldest, q.at);
    WindowShrinks(ts, from, Cutoff(r, again.at));
    OnlyRule(r, log, again);
  }

  lemma OldestCounts(ts: seq<Instant>, from: Instant)
    requires Ascending(ts) && Filter(ts, Later(from)) != []
    ensures Oldest(Filter(ts, Later(from))) > from
  {
    var k := WindowIsSuffix(ts, from);
    SuffixAscends(ts, k);
    OldestOfAscending(ts[k..]);
    hide Filter, Ascending, Oldest;
  }

  /** A later window start drops instants exactly if it has reached the oldest one counted before. */
  lemma WindowShrinks(ts: seq<Instant>, from: Instant, to: Instant)
    requires Ascending(ts) && from <= to && Filter(ts, Later(from)) != []
    ensures |Filter(ts, Later(to))| < |Filter(ts, Later(from))| <==> Oldest(Filter(ts, Later(from))) <= to
  {
    var k := WindowIsSuffix(ts, from);
    SuffixAscends(ts, k);
    OldestOfAscending(ts[k..]);
    var j := WindowIsSuffix(ts, to);
    hide Filter, Ascending, Oldest;
  }

  /** At the hinted instant the window begins where the oldest counted request is, less the fraction of a second cut off. */
  lemma RetryInstant(r: RateRule, oldest: Instant, now: Instant)
    requires oldest > Cutoff(r, now)
    ensures var left := oldest + r.window * SECOND - now;
      Cutoff(r, now + RetryAfter(r, oldest, now) * SECOND) == oldest - left % SECOND && 0 <= left % SECOND
      && Cutoff(r, now) <= Cutoff(r, now + RetryAfter(r, oldest, now) * SECOND)
  {
  }

  lemma SuffixAscends(ts: seq<Instant>, k: nat)
    requires Ascending(ts) && k <= |ts|
    ensures Ascending(ts[k..])
  {
  }

  lemma OnlyRule(r: RateRule, log: seq<Request>, q: Request)
    requires Matches(r, q)
    ensures Allowed(Rules([r], []), log, q) <==> !Exceeded(r, log, q.at)
  {
    assert r in Rules([r], []).rates;
  }
}
