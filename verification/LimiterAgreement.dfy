/** When the in-memory limiter and the durable one decide alike, and a case in which they do not. */
module LimiterAgreement {
  import opened Basics
  import opened LimiterSpec
  import Limiter
  import Store = GovernanceStore

  datatype Ask = Ask(operation: string, active: int, target: Option<string>, at: Instant)

  function ToRequest(rules: Scoped, a: Ask): Request { Request(rules.scopeType, rules.scopeId, a.operation, a.active, a.at) }

  function ToCall(a: Ask): Store.Call { Store.Call(a.operation, a.active, a.target, a.at) }

  /** The rules of one workspace. */
  datatype Scoped = Scoped(scopeType: string, scopeId: Id, rules: Rules)

  ghost predicate InScope(s: Scoped) {
    && (forall r :: r in s.rules.rates ==> r.scopeType == s.scopeType && r.scopeId == s.scopeId)
    && (forall l :: l in s.rules.concurrency ==> l.scopeType == s.scopeType && l.scopeId == s.scopeId)
  }

  ghost predicate NoWildcardRates(s: Scoped) { forall r :: r in s.rules.rates ==> r.operation != "*" }

  ghost predicate NoSerialization(s: Scoped, asks: seq<Ask>) {
    forall l, a :: l in s.rules.concurrency && a in asks ==> !Store.Serializes(l, ToCall(a))
  }

  /** What the in-memory limiter has allowed, and what the durable one has recorded, after a history. */
  function MemoryLog(s: Scoped, asks: seq<Ask>): seq<Request> {
    if asks == [] then []
    else
      var log, q := MemoryLog(s, asks[..|asks| - 1]), ToRequest(s, asks[|asks| - 1]);
      if Decide(s.rules, log, q).outcome == Allow then log + [q] else log
  }

  function DurableLog(s: Scoped, asks: seq<Ask>): seq<Store.Usage> {
    if asks == [] then []
    else Store.AfterJudge(s.rules, DurableLog(s, asks[..|asks| - 1]), ToCall(asks[|asks| - 1]), true)
  }

  ghost predicate SameCounts(s: Scoped, log: seq<Request>, usage: seq<Store.Usage>) {
    forall r :: r in s.rules.rates && r.enabled ==> Times(r, log) == Store.UsageTimes(usage, r.operation)
  }

  lemma SameOutcome(s: Scoped, log: seq<Request>, usage: seq<Store.Usage>, a: Ask)
    requires InScope(s) && NoWildcardRates(s) && SameCounts(s, log, usage)
    requires forall l :: l in s.rules.concurrency ==> !Store.Serializes(l, ToCall(a))
    ensures Decide(s.rules, log, ToRequest(s, a)).outcome == Store.Judge(s.rules, usage, ToCall(a)).outcome
  {
    var q, c := ToRequest(s, a), ToCall(a);
    AllowedWhenNoReason(s.rules, log, q);
    Store.AllowMeansFree(s.rules, usage, c);
    hide Filter, Times, Store.UsageTimes, Store.Busy, Decide, Store.Judge;
    forall r | r in s.rules.rates ensures (Matches(r, q) && Exceeded(r, log, q.at)) <==> Store.UsedUp(r, usage, c) {
    }
    forall l | l in s.rules.concurrency ensures Guards(l, q) <==> Store.Governs(l, c.operation) {
    }
  }

  lemma {:induction false} ApplyingIsMatched(rs: seq<RateRule>, operation: string, r: RateRule)
    requires r in rs && Store.Applies(r, operation)
    ensures Store.RateIds(rs, operation) != {}
  {
    if r != rs[|rs| - 1] { ApplyingIsMatched(rs[..|rs| - 1], operation, r); }
    assert r.id in {r.id};
  }

  lemma SameCountsAfter(s: Scoped, log: seq<Request>, usage: seq<Store.Usage>, a: Ask)
    requires InScope(s) && NoWildcardRates(s) && SameCounts(s, log, usage)
    requires Store.Judge(s.rules, usage, ToCall(a)).outcome == Allow
    ensures SameCounts(s, log + [ToRequest(s, a)], Store.AfterJudge(s.rules, usage, ToCall(a), true))
  {
    var q, c := ToRequest(s, a), ToCall(a);
    var more, next := log + [q], Store.AfterJudge(s.rules, usage, c, true);
    assert more[..|log|] == log;
    var entry := Store.Usage(c.operation, c.target, c.at, false);
    assert (usage + [entry])[..|usage|] == usage;
    forall r | r in s.rules.rates && r.enabled ensures Times(r, more) == Store.UsageTimes(next, r.operation) {
      if r.operation == a.operation {
        ApplyingIsMatched(s.rules.rates, a.operation, r);
        MatchedIsListed(s.rules, usage, c, r);
      } else {
        assert Times(r, more) == Times(r, log);
        assert Store.UsageTimes(usage + [entry], r.operation) == Store.UsageTimes(usage, r.operation);
      }
    }
  }

  lemma MatchedIsListed(rules: Rules, usage: seq<Store.Usage>, c: Store.Call, r: RateRule)
    requires Store.RateIds(rules.rates, c.operation) != {}
    ensures Store.Judge(rules, usage, c).matched != []
  {
    var x :| x in Store.RateIds(rules.rates, c.operation);
    assert x in Store.RateIds(rules.rates, c.operation) + Store.LimitIds(rules.concurrency, c.operation);
    assert x in Store.Judge(rules, usage, c).matched;
  }

  lemma {:induction false} CountsAgree(s: Scoped, asks: seq<Ask>)
    requires InScope(s) && NoWildcardRates(s) && NoSerialization(s, asks)
    ensures SameCounts(s, MemoryLog(s, asks), DurableLog(s, asks))
  {
    if asks != [] {
      var n := |asks| - 1;
      var log, usage, a := MemoryLog(s, asks[..n]), DurableLog(s, asks[..n]), asks[n];
      assert a in asks && forall b :: b in asks[..n] ==> b in asks;
      CountsAgree(s, asks[..n]);
      SameOutcome(s, log, usage, a);
      hide SameCounts, Decide, Store.Judge;
      if Decide(s.rules, log, ToRequest(s, a)).outcome == Allow {
        SameCountsAfter(s, log, usage, a);
      }
    }
  }

  /**
   With no `*` rate rule and no target serialization in play, the pruned buckets and the usage table allow and
   delay exactly the same requests of any history.
   */
  lemma LimitersAgree(s: Scoped, asks: seq<Ask>, i: nat)
    requires InScope(s) && NoWildcardRates(s) && NoSerialization(s, asks) && i < |asks|
    ensures Decide(s.rules, MemoryLog(s, asks[..i]), ToRequest(s, asks[i])).outcome
         == Store.Judge(s.rules, DurableLog(s, asks[..i]), ToCall(asks[i])).outcome
  {
    assert asks[i] in asks && forall a :: a in asks[..i] ==> a in asks;
    CountsAgree(s, asks[..i]);
    SameOutcome(s, MemoryLog(s, asks[..i]), DurableLog(s, asks[..i]), asks[i]);
  }

  /** The instant of the request before the `i`-th. */
  ghost function Before(asks: seq<Ask>, start: Instant, i: nat): Instant
    requires i <= |asks|
  {
    if i == 0 then start else asks[i - 1].at
  }

  /** Both limiters, given the same history: the one with its pruned buckets, the other with its usage table. */
  method Replay(s: Scoped, asks: seq<Ask>, ghost start: Instant) returns (memory: seq<Outcome>, durable: seq<Outcome>)
    requires Limiter.ValidRules(s.rules) && InScope(s) && NoWildcardRates(s) && NoSerialization(s, asks)
    requires forall i :: 0 <= i < |asks| ==> Before(asks, start, i) <= asks[i].at
    ensures memory == durable && |memory| == |asks|
    ensures forall i :: 0 <= i < |asks| ==>
      memory[i] == Decide(s.rules, MemoryLog(s, asks[..i]), ToRequest(s, asks[i])).outcome
  {
    hide Decide, Store.Judge, Store.AfterJudge, InScope, NoWildcardRates, NoSerialization, MemoryLog, DurableLog;
    LogsBegin(s, asks);
    var buckets := new Limiter.GovernanceLimiter(s.rules, start);
    var table := new Store.WorkspaceGovernance(s.rules);
    memory, durable := [], [];
    for i := 0 to |asks|
      invariant buckets.Valid() && buckets.rules == s.rules && buckets.log == MemoryLog(s, asks[..i])
      invariant buckets.clock == Before(asks, start, i)
      invariant table.Valid() && table.rules == s.rules && table.usage == DurableLog(s, asks[..i])
      invariant |memory| == i && memory == durable
      invariant forall k :: 0 <= k < i ==> memory[k] == Decide(s.rules, MemoryLog(s, asks[..k]), ToRequest(s, asks[k])).outcome
    {
      LogsGoOn(s, asks, i);
      LimitersAgree(s, asks, i);
      RatesAreValid(s.rules);
      assert Before(asks, start, i) <= ToRequest(s, asks[i]).at;
      var decision := buckets.Evaluate(ToRequest(s, asks[i]));
      var verdict := table.Evaluate(ToCall(asks[i]), true);
      memory, durable := memory + [decision.outcome], durable + [verdict.outcome];
    }
  }

  lemma LogsBegin(s: Scoped, asks: seq<Ask>)
    ensures MemoryLog(s, asks[..0]) == [] && DurableLog(s, asks[..0]) == []
  {
  }

  lemma LogsGoOn(s: Scoped, asks: seq<Ask>, i: nat)
    requires i < |asks|
    ensures var log, q := MemoryLog(s, asks[..i]), ToRequest(s, asks[i]);
      MemoryLog(s, asks[..i + 1]) == if Decide(s.rules, log, q).outcome == Allow then log + [q] else log
    ensures DurableLog(s, asks[..i + 1]) == Store.AfterJudge(s.rules, DurableLog(s, asks[..i]), ToCall(asks[i]), true)
  {
    hide Decide, Store.AfterJudge;
    assert asks[..i + 1][..i] == asks[..i];
  }

  lemma RatesAreValid(rules: Rules)
    requires Limiter.ValidRules(rules)
    ensures forall r :: r in rules.rates ==> ValidRate(r)
  {
  }

  /** A workspace whose only rule lets one request of any operation through per window. */
  ghost predicate OnePooledRule(s: Scoped, r: RateRule) {
    && s.rules == Rules([r], []) && r.scopeType == s.scopeType && r.scopeId == s.scopeId
    && r.enabled && r.operation == "*" && r.window >= 1 && r.limit + r.burst == 1
  }

  lemma TimesOfOne(r: RateRule, q: Request)
    ensures Times(r, [q]) == if Matches(r, q) then [q.at] else []
  {
    assert [q][..0] == [] && Times(r, []) == [];
  }

  lemma MemoryPools(s: Scoped, r: RateRule, first: Ask, second: Ask)
    requires OnePooledRule(s, r) && first.at <= second.at < first.at + r.window * SECOND
    ensures Decide(s.rules, MemoryLog(s, [first]), ToRequest(s, second)).outcome == Delay
  {
    var q, p := ToRequest(s, first), ToRequest(s, second);
    assert [first][..0] == [];
    AllowedWhenNoReason(s.rules, [], q);
    OnlyRule(r, [], q);
    assert MemoryLog(s, [first]) == [] + [q] == [q];
    TimesOfOne(r, q);
    FilterOne(q.at, Later(Cutoff(r, p.at)));
    AllowedWhenNoReason(s.rules, [q], p);
    OnlyRule(r, [q], p);
  }

  lemma DurableDoesNotPool(s: Scoped, r: RateRule, first: Ask, second: Ask)
    requires OnePooledRule(s, r) && first.operation != second.operation
    ensures Store.Judge(s.rules, DurableLog(s, [first]), ToCall(second)).outcome == Allow
  {
    FirstUse(s, first);
    hide DurableLog, Store.Judge, Filter;
    var usage := DurableLog(s, [first]);
    assert Store.UsageTimes(usage, second.operation) == [];
    NothingLater(Cutoff(r, second.at));
    Store.AllowMeansFree(s.rules, usage, ToCall(second));
  }

  lemma NothingLater(cutoff: Instant)
    ensures Filter([], Later(cutoff)) == []
  {
  }

  lemma FirstUse(s: Scoped, first: Ask)
    ensures forall operation :: operation != first.operation ==> Store.UsageTimes(DurableLog(s, [first]), operation) == []
  {
    var usage, entry := DurableLog(s, [first]), Store.Usage(first.operation, first.target, first.at, false);
    assert [first][..0] == [] && DurableLog(s, []) == [];
    hide Store.Judge;
    assert usage == [] || usage == [] + [entry];
    forall operation | operation != first.operation ensures Store.UsageTimes(usage, operation) == [] {
      NoUseOf(operation, entry);
    }
  }

  lemma NoUseOf(operation: string, entry: Store.Usage)
    requires entry.operation != operation
    ensures Store.UsageTimes([entry], operation) == []
  {
    assert [entry][..0] == [];
  }

  /** A `*` rule pools all operations in memory but is counted for each operation separately in the table. */
  lemma WildcardsDisagree(s: Scoped, r: RateRule, first: Ask, second: Ask)
    requires OnePooledRule(s, r) && first.operation != second.operation
    requires first.at <= second.at < first.at + r.window * SECOND
    ensures InScope(s) && NoSerialization(s, [first, second])
    ensures Decide(s.rules, MemoryLog(s, [first]), ToRequest(s, second)).outcome
         != Store.Judge(s.rules, DurableLog(s, [first]), ToCall(second)).outcome
  {
    hide Decide, Store.Judge, MemoryLog, DurableLog;
    MemoryPools(s, r, first, second);
    DurableDoesNotPool(s, r, first, second);
  }
}
