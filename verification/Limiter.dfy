/** The in-memory limiter: one bucket of recent instants per rate rule, pruned at every evaluation. */
module Limiter {
  import opened Basics
  import opened LimiterSpec

  function Bucket(usage: map<Id, seq<Instant>>, id: Id): seq<Instant> { if id in usage then usage[id] else [] }

  /** For every window that a later evaluation can ask about, the bucket counts what the full log counts. */
  ghost predicate Tracks(bucket: seq<Instant>, r: RateRule, log: seq<Request>, clock: Instant) {
    forall c :: c >= Cutoff(r, clock) ==> Filter(bucket, Later(c)) == Filter(Times(r, log), Later(c))
  }

  ghost predicate AllTrack(usage: map<Id, seq<Instant>>, rules: Rules, log: seq<Request>, clock: Instant) {
    forall r :: r in rules.rates ==> Tracks(Bucket(usage, r.id), r, log, clock)
  }

  ghost predicate ValidRules(rules: Rules) {
    && (forall r :: r in rules.rates ==> ValidRate(r))
    && (forall i, j :: 0 <= i < j < |rules.rates| ==> rules.rates[i].id != rules.rates[j].id)
    && (forall r, c :: r in rules.rates && c in rules.concurrency ==> r.id != c.id)
  }

  lemma {:induction false} FilterTwice(ts: seq<Instant>, c: Instant, d: Instant)
    requires c <= d
    ensures Filter(Filter(ts, Later(c)), Later(d)) == Filter(ts, Later(d))
  {
    if ts != [] {
      var n := |ts| - 1;
      FilterTwice(ts[..n], c, d);
      if ts[n] > c {
        FilterSnoc(Filter(ts[..n], Later(c)), ts[n], Later(d));
      } else {
        assert Filter(ts, Later(c)) == Filter(ts[..n], Later(c));
      }
    }
  }

  lemma PruneTracks(bucket: seq<Instant>, r: RateRule, log: seq<Request>, clock: Instant, now: Instant)
    requires Tracks(bucket, r, log, clock) && clock <= now
    ensures Filter(bucket, Later(Cutoff(r, now))) == Window(r, log, now)
    ensures Tracks(Window(r, log, now), r, log, now)
  {
    forall c | c >= Cutoff(r, now)
      ensures Filter(Window(r, log, now), Later(c)) == Filter(Times(r, log), Later(c))
    {
      FilterTwice(Times(r, log), Cutoff(r, now), c);
    }
  }

  lemma LaterStillTracks(bucket: seq<Instant>, r: RateRule, log: seq<Request>, clock: Instant, now: Instant)
    requires Tracks(bucket, r, log, clock) && clock <= now
    ensures Tracks(bucket, r, log, now)
  {
  }

  lemma RecordTracks(bucket: seq<Instant>, r: RateRule, log: seq<Request>, q: Request)
    requires Tracks(bucket, r, log, q.at)
    ensures Tracks(if Matches(r, q) then bucket + [q.at] else bucket, r, log + [q], q.at)
  {
    assert (log + [q])[..|log|] == log;
    forall c | c >= Cutoff(r, q.at)
      ensures Filter(if Matches(r, q) then bucket + [q.at] else bucket, Later(c)) == Filter(Times(r, log + [q]), Later(c))
    {
      FilterSnoc(bucket, q.at, Later(c));
      FilterSnoc(Times(r, log), q.at, Later(c));
      assert Times(r, log) + [] == Times(r, log);
    }
  }

  /** The buckets after the rate rules in `rs` have pruned theirs. */
  ghost predicate Pruned(
    before: map<Id, seq<Instant>>, after: map<Id, seq<Instant>>, rs: seq<RateRule>, log: seq<Request>, q: Request)
  {
    && (forall r :: r in rs && Matches(r, q) ==> r.id in after && after[r.id] == Window(r, log, q.at))
    && (forall id :: (forall r :: r in rs && Matches(r, q) ==> r.id != id) ==> Same(before, after, id))
  }

  ghost predicate Same(before: map<Id, seq<Instant>>, after: map<Id, seq<Instant>>, id: Id) {
    (id in after <==> id in before) && Bucket(after, id) == Bucket(before, id)
  }

  /** A rule's bucket is as before until its turn comes. */
  lemma Untouched(
    before: map<Id, seq<Instant>>, after: map<Id, seq<Instant>>, rules: Rules, i: nat, log: seq<Request>, q: Request)
    requires ValidRules(rules) && i < |rules.rates| && Pruned(before, after, rules.rates[..i], log, q)
    ensures Same(before, after, rules.rates[i].id)
  {
    hide ValidRules, Window, Matches, Same;
    var rs, r := rules.rates, rules.rates[i];
    forall s | s in rs[..i] && Matches(s, q) ensures s.id != r.id {
      var j :| 0 <= j < i && rs[j] == s;
      DistinctRates(rules, j, i);
    }
  }

  lemma PruneOne(
    before: map<Id, seq<Instant>>, after: map<Id, seq<Instant>>, rules: Rules, i: nat, log: seq<Request>, q: Request,
    clock: Instant)
    requires ValidRules(rules) && i < |rules.rates| && Pruned(before, after, rules.rates[..i], log, q)
    requires AllTrack(before, rules, log, clock) && clock <= q.at
    ensures var r := rules.rates[i];
      var kept := Filter(Bucket(after, r.id), Later(Cutoff(r, q.at)));
      if Matches(r, q) then kept == Window(r, log, q.at) && Pruned(before, after[r.id := kept], rules.rates[..i + 1], log, q)
      else Pruned(before, after, rules.rates[..i + 1], log, q)
  {
    hide Filter, Window, Tracks, AllTrack, ValidRules, Matches;
    var rs, r := rules.rates, rules.rates[i];
    assert rs[..i + 1] == rs[..i] + [r];
    Untouched(before, after, rules, i, log, q);
    assert r in rules.rates;
    TrackedRate(before, rules, log, clock, r);
    PruneTracks(Bucket(before, r.id), r, log, clock, q.at);
    if Matches(r, q) {
      var kept := Window(r, log, q.at);
      var next := after[r.id := kept];
      forall s | s in rs[..i] && Matches(s, q) ensures next[s.id] == Window(s, log, q.at) {
        var j :| 0 <= j < i && rs[j] == s;
        DistinctRates(rules, j, i);
      }
      forall id | forall s :: s in rs[..i + 1] && Matches(s, q) ==> s.id != id ensures Same(before, next, id) {
        assert forall s :: s in rs[..i] && Matches(s, q) ==> s.id != id;
        assert Same(before, after, id);
        assert r.id != id;
      }
    } else {
      forall id | forall s :: s in rs[..i + 1] && Matches(s, q) ==> s.id != id ensures Same(before, after, id) {
        assert forall s :: s in rs[..i] && Matches(s, q) ==> s.id != id;
      }
    }
  }

  lemma RateIsValid(rules: Rules, i: nat)
    requires ValidRules(rules) && i < |rules.rates|
    ensures ValidRate(rules.rates[i])
  {
  }

  lemma DistinctRates(rules: Rules, i: nat, j: nat)
    requires ValidRules(rules) && i < j < |rules.rates|
    ensures rules.rates[i].id != rules.rates[j].id
  {
  }

  /** Only rate rules have buckets. */
  ghost predicate KeysAreRates(usage: map<Id, seq<Instant>>, rules: Rules) {
    forall id :: id in usage ==> exists r :: r in rules.rates && r.id == id
  }

  lemma PrunedAllTrack(
    before: map<Id, seq<Instant>>, after: map<Id, seq<Instant>>, rules: Rules, log: seq<Request>, q: Request, clock: Instant)
    requires ValidRules(rules) && AllTrack(before, rules, log, clock) && clock <= q.at
    requires Pruned(before, after, rules.rates, log, q)
    ensures AllTrack(after, rules, log, q.at)
  {
    forall r | r in rules.rates ensures Tracks(Bucket(after, r.id), r, log, q.at) {
      if Matches(r, q) {
        PruneTracks(Bucket(before, r.id), r, log, clock, q.at);
      } else {
        forall s | s in rules.rates && Matches(s, q) ensures s.id != r.id { SameIdSameRate(rules, r, s); }
        assert Same(before, after, r.id);
        LaterStillTracks(Bucket(before, r.id), r, log, clock, q.at);
      }
    }
  }

  lemma SameIdSameRate(rules: Rules, r: RateRule, s: RateRule)
    requires ValidRules(rules) && r in rules.rates && s in rules.rates
    ensures r.id == s.id ==> r == s
  {
    var i, j :| 0 <= i < |rules.rates| && 0 <= j < |rules.rates| && rules.rates[i] == r && rules.rates[j] == s;
  }

  lemma PrunedKeys(
    before: map<Id, seq<Instant>>, after: map<Id, seq<Instant>>, rules: Rules, log: seq<Request>, q: Request)
    requires KeysAreRates(before, rules) && Pruned(before, after, rules.rates, log, q)
    ensures KeysAreRates(after, rules)
  {
    forall id | id in after ensures exists r :: r in rules.rates && r.id == id {
      if forall r :: r in rules.rates && Matches(r, q) ==> r.id != id { assert Same(before, after, id); }
    }
  }

  lemma {:induction false} RateIds(rs: seq<RateRule>, q: Request)
    ensures forall id :: id in MatchedRates(rs, q) <==> exists r :: r in rs && Matches(r, q) && r.id == id
  {
    if rs != [] {
      var n := |rs| - 1;
      RateIds(rs[..n], q);
      assert rs == rs[..n] + [rs[n]];
      forall id ensures id in MatchedRates(rs, q) <==> exists r :: r in rs && Matches(r, q) && r.id == id {
        if r :| r in rs && Matches(r, q) && r.id == id { assert r in rs[..n] || r == rs[n]; }
        if r :| r in rs[..n] && Matches(r, q) && r.id == id { assert r in rs; }
        assert rs[n] in rs;
      }
    }
  }

  lemma {:induction false} LimitIds(cs: seq<ConcurrencyRule>, q: Request)
    ensures forall id :: id in MatchedLimits(cs, q) ==> exists c :: c in cs && c.id == id
  {
    if cs != [] {
      var n := |cs| - 1;
      LimitIds(cs[..n], q);
      forall id | id in MatchedLimits(cs, q) ensures exists c :: c in cs && c.id == id {
        if id in MatchedLimits(cs[..n], q) {
          var c :| c in cs[..n] && c.id == id;
          assert c in cs;
        } else {
          assert cs[n] in cs;
        }
      }
    }
  }

  lemma {:induction false} RateIdsDistinct(rules: Rules, n: nat, q: Request)
    requires ValidRules(rules) && n <= |rules.rates|
    ensures Distinct(MatchedRates(rules.rates[..n], q))
  {
    if n > 0 {
      var rs := rules.rates;
      assert rs[..n][..n - 1] == rs[..n - 1];
      RateIdsDistinct(rules, n - 1, q);
      RateIds(rs[..n - 1], q);
      forall r | r in rs[..n - 1] ensures r.id != rs[n - 1].id {
        var i :| 0 <= i < n - 1 && rs[i] == r;
        DistinctRates(rules, i, n - 1);
      }
      var ids := MatchedRates(rs[..n - 1], q);
      assert rs[n - 1].id !in ids;
      assert forall k :: 0 <= k < |ids| ==> ids[k] in ids;
    }
  }

  /** No identifier that has a bucket is listed twice. */
  ghost predicate BucketsOnce(ids: seq<Id>, usage: map<Id, seq<Instant>>) {
    forall i, j :: 0 <= i < j < |ids| && ids[i] in usage ==> ids[i] != ids[j]
  }

  lemma MatchedOnce(rules: Rules, q: Request, usage: map<Id, seq<Instant>>)
    requires ValidRules(rules) && KeysAreRates(usage, rules)
    ensures BucketsOnce(MatchedRates(rules.rates, q) + MatchedLimits(rules.concurrency, q), usage)
  {
    var a, b := MatchedRates(rules.rates, q), MatchedLimits(rules.concurrency, q);
    assert rules.rates[..|rules.rates|] == rules.rates;
    RateIdsDistinct(rules, |rules.rates|, q);
    LimitIds(rules.concurrency, q);
    forall id | id in b ensures id !in usage {
      var c :| c in rules.concurrency && c.id == id;
    }
    assert forall j :: 0 <= j < |b| ==> b[j] in b;
  }

  ghost predicate Appended(before: map<Id, seq<Instant>>, after: map<Id, seq<Instant>>, ids: seq<Id>, now: Instant) {
    after.Keys == before.Keys
    && forall id :: id in before ==> after[id] == before[id] + if id in ids then [now] else []
  }

  lemma AppendOne(before: map<Id, seq<Instant>>, after: map<Id, seq<Instant>>, ids: seq<Id>, i: nat, now: Instant)
    requires i < |ids| && BucketsOnce(ids, before) && Appended(before, after, ids[..i], now)
    ensures var id := ids[i];
      Appended(before, if id in after then after[id := after[id] + [now]] else after, ids[..i + 1], now)
  {
    assert ids[..i + 1] == ids[..i] + [ids[i]];
    forall j | 0 <= j < i ensures ids[i] in before ==> ids[j] != ids[i] {
    }
  }

  lemma AppendedAllTrack(
    before: map<Id, seq<Instant>>, after: map<Id, seq<Instant>>, rules: Rules, log: seq<Request>, q: Request)
    requires ValidRules(rules) && AllTrack(before, rules, log, q.at)
    requires forall r :: r in rules.rates && Matches(r, q) ==> r.id in before
    requires Appended(before, after, MatchedRates(rules.rates, q) + MatchedLimits(rules.concurrency, q), q.at)
    ensures AllTrack(after, rules, log + [q], q.at)
  {
    hide Matches, Tracks, AllTrack, MatchedRates, MatchedLimits, ValidRules;
    forall r | r in rules.rates ensures Tracks(Bucket(after, r.id), r, log + [q], q.at) {
      ListedWhenMatched(rules, r, q);
      TrackedRate(before, rules, log, q.at, r);
      RecordTracks(Bucket(before, r.id), r, log, q);
      assert Bucket(before, r.id) + [] == Bucket(before, r.id);
      assert Bucket(after, r.id) == if Matches(r, q) then Bucket(before, r.id) + [q.at] else Bucket(before, r.id);
    }
    assert AllTrack(after, rules, log + [q], q.at) by { AllTrackIs(after, rules, log + [q], q.at); }
  }

  lemma AllTrackIs(usage: map<Id, seq<Instant>>, rules: Rules, log: seq<Request>, clock: Instant)
    requires forall r :: r in rules.rates ==> Tracks(Bucket(usage, r.id), r, log, clock)
    ensures AllTrack(usage, rules, log, clock)
  {
  }

  lemma TrackedRate(usage: map<Id, seq<Instant>>, rules: Rules, log: seq<Request>, clock: Instant, r: RateRule)
    requires AllTrack(usage, rules, log, clock) && r in rules.rates
    ensures Tracks(Bucket(usage, r.id), r, log, clock)
  {
  }

  lemma ListedWhenMatched(rules: Rules, r: RateRule, q: Request)
    requires ValidRules(rules) && r in rules.rates
    ensures r.id in MatchedRates(rules.rates, q) + MatchedLimits(rules.concurrency, q) <==> Matches(r, q)
  {
    RateIds(rules.rates, q);
    LimitIds(rules.concurrency, q);
    if r.id in MatchedRates(rules.rates, q) {
      var s :| s in rules.rates && Matches(s, q) && s.id == r.id;
      SameIdSameRate(rules, r, s);
    }
  }

  lemma AppendedKeys(before: map<Id, seq<Instant>>, after: map<Id, seq<Instant>>, ids: seq<Id>, rules: Rules, now: Instant)
    requires KeysAreRates(before, rules) && Appended(before, after, ids, now)
    ensures KeysAreRates(after, rules)
  {
  }

  lemma MatchedHaveBuckets(
    before: map<Id, seq<Instant>>, after: map<Id, seq<Instant>>, rs: seq<RateRule>, log: seq<Request>, q: Request)
    requires Pruned(before, after, rs, log, q)
    ensures forall r :: r in rs && Matches(r, q) ==> r.id in after
  {
  }

  lemma LogGrows(rules: Rules, log: seq<Request>, q: Request)
    requires AllowedLog(rules, log) && Allowed(rules, log, q)
    ensures AllowedLog(rules, log + [q])
  {
    var more := log + [q];
    forall i | 0 <= i < |more| ensures Allowed(rules, more[..i], more[i]) {
      assert more[..i] == log[..i];
      assert log[..|log|] == log;
    }
  }

  class GovernanceLimiter {
    const rules: Rules
    var usage: map<Id, seq<Instant>>
    ghost var log: seq<Request>
    ghost var clock: Instant

    ghost predicate Valid()
      reads this
    {
      && ValidRules(rules) && KeysAreRates(usage, rules)
      && AllTrack(usage, rules, log, clock) && AllowedLog(rules, log)
    }

    constructor (rules: Rules, ghost start: Instant)
      requires ValidRules(rules)
      ensures Valid() && log == [] && clock == start && this.rules == rules
    {
      this.rules := rules;
      usage := map[];
      log := [];
      clock := start;
    }

    /** The loop over the rate rules. */
    method PruneAndCount(q: Request) returns (reasons: seq<Reason>, retry: Option<int>, matched: seq<Id>)
      requires ValidRules(rules) && AllTrack(usage, rules, log, clock) && clock <= q.at
      modifies this`usage
      ensures Pruned(old(usage), usage, rules.rates, log, q)
      ensures reasons == RateReasons(rules.rates, log, q)
      ensures retry == RateRetry(rules.rates, log, q)
      ensures matched == MatchedRates(rules.rates, q)
    {
      hide Filter, Pruned, AllTrack, ValidRules, Window;
      ghost var before := usage;
      reasons, retry, matched := [], None, [];
      assert rules.rates[..0] == [];
      NothingPruned(usage, log, q);
      for i := 0 to |rules.rates|
        invariant Pruned(before, usage, rules.rates[..i], log, q)
        invariant reasons == RateReasons(rules.rates[..i], log, q)
        invariant retry == RateRetry(rules.rates[..i], log, q)
        invariant matched == MatchedRates(rules.rates[..i], q)
      {
        var rule := rules.rates[i];
        assert rules.rates[..i + 1][..i] == rules.rates[..i];
        assert ValidRate(rule) by { RateIsValid(rules, i); }
        PruneOne(before, usage, rules, i, log, q, clock);
        if Matches(rule, q) {
          matched := matched + [rule.id];
          var cutoff := q.at - rule.window * SECOND;
          var bucket := Filter(Bucket(usage, rule.id), Later(cutoff));
          usage := usage[rule.id := bucket];
          if |bucket| >= rule.limit + rule.burst {
            retry := Some(RetryAfter(rule, Oldest(bucket), q.at));
            reasons := reasons + [RateExceeded(rule.id)];
          }
        }
      }
      assert rules.rates[..|rules.rates|] == rules.rates;
    }

    /** The loop over the concurrency rules. */
    method CheckConcurrency(q: Request) returns (reasons: seq<Reason>, matched: seq<Id>)
      ensures reasons == LimitReasons(rules.concurrency, q)
      ensures matched == MatchedLimits(rules.concurrency, q)
    {
      reasons, matched := [], [];
      for i := 0 to |rules.concurrency|
        invariant reasons == LimitReasons(rules.concurrency[..i], q)
        invariant matched == MatchedLimits(rules.concurrency[..i], q)
      {
        var rule := rules.concurrency[i];
        assert rules.concurrency[..i + 1][..i] == rules.concurrency[..i];
        if Guards(rule, q) {
          matched := matched + [rule.id];
          if q.active >= rule.maximumActive {
            reasons := reasons + [ConcurrencyReached(rule.id)];
          }
        }
      }
      assert rules.concurrency[..|rules.concurrency|] == rules.concurrency;
    }

    method Record(matched: seq<Id>, now: Instant)
      requires BucketsOnce(matched, usage)
      modifies this`usage
      ensures Appended(old(usage), usage, matched, now)
    {
      ghost var before := usage;
      for i := 0 to |matched|
        invariant Appended(before, usage, matched[..i], now)
      {
        AppendOne(before, usage, matched, i, now);
        var ruleId := matched[i];
        if ruleId in usage {
          usage := usage[ruleId := usage[ruleId] + [now]];
        }
      }
      assert matched[..|matched|] == matched;
    }

    /** `evaluate`: decides on pruned buckets exactly as counting the whole log would. */
    method Evaluate(q: Request) returns (d: Decision)
      requires Valid() && clock <= q.at
      modifies this
      ensures Valid() && clock == q.at
      ensures d == Decide(rules, old(log), q)
      ensures log == if d.outcome == Allow then old(log) + [q] else old(log)
    {
      hide *;
      assert ValidRules(rules) && KeysAreRates(usage, rules) && AllTrack(usage, rules, log, clock) && AllowedLog(rules, log)
        by { ValidMeans(); }
      ghost var before := usage;
      var rateReasons, retry, matchedRates := PruneAndCount(q);
      var limitReasons, matchedLimits := CheckConcurrency(q);
      PrunedAllTrack(before, usage, rules, log, q, clock);
      PrunedKeys(before, usage, rules, log, q);
      MatchedHaveBuckets(before, usage, rules.rates, log, q);
      var reasons, matched := rateReasons + limitReasons, matchedRates + matchedLimits;
      var outcome := if reasons == [] then Allow else Delay;
      d := Decision(outcome, reasons, retry, matched);
      assert d == Decide(rules, log, q) by { DecideIs(rules, log, q); }
      AllowedWhenNoReason(rules, log, q);
      if reasons == [] {
        ghost var pruned := usage;
        MatchedOnce(rules, q, usage);
        Record(matched, q.at);
        AppendedAllTrack(pruned, usage, rules, log, q);
        AppendedKeys(pruned, usage, matched, rules, q.at);
        LogGrows(rules, log, q);
        log := log + [q];
      }
      clock := q.at;
      MeansValid();
    }

    lemma ValidMeans()
      requires Valid()
      ensures ValidRules(rules) && KeysAreRates(usage, rules)
      ensures AllTrack(usage, rules, log, clock) && AllowedLog(rules, log)
    {
    }

    lemma MeansValid()
      requires ValidRules(rules) && KeysAreRates(usage, rules)
      requires AllTrack(usage, rules, log, clock) && AllowedLog(rules, log)
      ensures Valid()
    {
    }
  }

  lemma DecideIs(rules: Rules, log: seq<Request>, q: Request)
    ensures var reasons := RateReasons(rules.rates, log, q) + LimitReasons(rules.concurrency, q);
      Decide(rules, log, q) == Decision(if reasons == [] then Allow else Delay, reasons, RateRetry(rules.rates, log, q),
        MatchedRates(rules.rates, q) + MatchedLimits(rules.concurrency, q))
  {
  }

  lemma NothingPruned(usage: map<Id, seq<Instant>>, log: seq<Request>, q: Request)
    ensures Pruned(usage, usage, [], log, q)
  {
  }
}
