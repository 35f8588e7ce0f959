/** The database-backed limiter of one workspace: every decision counts the whole usage log. */
module GovernanceStore {
  import opened Basics
  import opened LimiterSpec
  import Text

  datatype Usage = Usage(operation: string, target: Option<string>, at: Instant, terminal: bool)

  datatype Call = Call(operation: string, active: int, target: Option<string>, at: Instant)

  predicate Applies(r: RateRule, operation: string) { r.enabled && (r.operation == operation || r.operation == "*") }

  predicate Governs(c: ConcurrencyRule, operation: string) { c.enabled && (c.operation == operation || c.operation == "*") }

  /** The instants of the usage recorded for `operation`. */
  function UsageTimes(usage: seq<Usage>, operation: string): seq<Instant> {
    if usage == [] then []
    else
      var u := usage[|usage| - 1];
      UsageTimes(usage[..|usage| - 1], operation) + if u.operation == operation then [u.at] else []
  }

  function Recent(r: RateRule, usage: seq<Usage>, c: Call): seq<Instant> {
    Filter(UsageTimes(usage, c.operation), Later(Cutoff(r, c.at)))
  }

  predicate UsedUp(r: RateRule, usage: seq<Usage>, c: Call) {
    Applies(r, c.operation) && |Recent(r, usage, c)| >= r.limit + r.burst
  }

  /** A target name that Python takes for true. */
  predicate Named(target: Option<string>) { target.Some? && target.value != "" }

  predicate Busy(usage: seq<Usage>, c: Call) {
    exists u :: u in usage && u.operation == c.operation && u.target == c.target && !u.terminal
  }

  predicate Serializes(l: ConcurrencyRule, c: Call) {
    Governs(l, c.operation) && l.serializeByTarget && Named(c.target)
  }

  datatype Fault = OverRate(id: Id) | OverLimit(id: Id) | TargetBusy(id: Id)

  function RateFaults(rs: seq<RateRule>, usage: seq<Usage>, c: Call): seq<Fault> {
    if rs == [] then []
    else
      var r := rs[|rs| - 1];
      RateFaults(rs[..|rs| - 1], usage, c) + if UsedUp(r, usage, c) then [OverRate(r.id)] else []
  }

  /** The longest of the blocking rules' waits. */
  function LongestRetry(rs: seq<RateRule>, usage: seq<Usage>, c: Call): Option<int> {
    if rs == [] then None
    else
      var r, rest := rs[|rs| - 1], LongestRetry(rs[..|rs| - 1], usage, c);
      if !UsedUp(r, usage, c) || Recent(r, usage, c) == [] then rest
      else
        var wait := RetryAfter(r, Oldest(Recent(r, usage, c)), c.at);
        Some(if rest.Some? && rest.value > wait then rest.value else wait)
  }

  function LimitFaults(ls: seq<ConcurrencyRule>, usage: seq<Usage>, c: Call): seq<Fault> {
    if ls == [] then []
    else
      var l := ls[|ls| - 1];
      LimitFaults(ls[..|ls| - 1], usage, c)
      + (if Governs(l, c.operation) && c.active >= l.maximumActive then [OverLimit(l.id)] else [])
      + (if Serializes(l, c) && Busy(usage, c) then [TargetBusy(l.id)] else [])
  }

  function RateIds(rs: seq<RateRule>, operation: string): set<Id> {
    if rs == [] then {}
    else
      var r := rs[|rs| - 1];
      RateIds(rs[..|rs| - 1], operation) + if Applies(r, operation) then {r.id} else {}
  }

  function LimitIds(ls: seq<ConcurrencyRule>, operation: string): set<Id> {
    if ls == [] then {}
    else
      var l := ls[|ls| - 1];
      LimitIds(ls[..|ls| - 1], operation) + if Governs(l, operation) then {l.id} else {}
  }

  datatype Verdict = Verdict(outcome: Outcome, reasons: seq<Fault>, retryAfter: Option<int>, matched: seq<Id>)

  function Judge(rules: Rules, usage: seq<Usage>, c: Call): Verdict {
    var reasons := RateFaults(rules.rates, usage, c) + LimitFaults(rules.concurrency, usage, c);
    Verdict(if reasons == [] then Allow else Delay, reasons, LongestRetry(rules.rates, usage, c),
             Text.Sorted(RateIds(rules.rates, c.operation) + LimitIds(rules.concurrency, c.operation)))
  }

  function AfterJudge(rules: Rules, usage: seq<Usage>, c: Call, record: bool): seq<Usage> {
    var d := Judge(rules, usage, c);
    if d.outcome == Allow && record && d.matched != [] then usage + [Usage(c.operation, c.target, c.at, false)] else usage
  }

  function Marked(usage: seq<Usage>, operation: string, target: string): seq<Usage> {
    seq(|usage|, i requires 0 <= i < |usage| =>
      if usage[i].operation == operation && usage[i].target == Some(target) then usage[i].(terminal := true) else usage[i])
  }

  // ---- what a decision without reasons means ----

  ghost predicate RatesFree(rules: Rules, usage: seq<Usage>, c: Call) {
    forall r :: r in rules.rates ==> !UsedUp(r, usage, c)
  }

  ghost predicate LimitsFree(rules: Rules, usage: seq<Usage>, c: Call) {
    forall l :: l in rules.concurrency && Governs(l, c.operation) ==>
      c.active < l.maximumActive && !(Serializes(l, c) && Busy(usage, c))
  }

  lemma {:induction false} NoRateFault(rs: seq<RateRule>, usage: seq<Usage>, c: Call)
    ensures RateFaults(rs, usage, c) == [] <==> forall r :: r in rs ==> !UsedUp(r, usage, c)
  {
    if rs != [] {
      NoRateFault(rs[..|rs| - 1], usage, c);
      assert rs == rs[..|rs| - 1] + [rs[|rs| - 1]];
    }
  }

  lemma {:induction false} NoLimitFault(ls: seq<ConcurrencyRule>, usage: seq<Usage>, c: Call)
    ensures LimitFaults(ls, usage, c) == [] <==> forall l :: l in ls && Governs(l, c.operation) ==>
      c.active < l.maximumActive && !(Serializes(l, c) && Busy(usage, c))
  {
    hide Busy;
    if ls != [] {
      NoLimitFault(ls[..|ls| - 1], usage, c);
      assert ls == ls[..|ls| - 1] + [ls[|ls| - 1]];
    }
  }

  lemma AllowMeansFree(rules: Rules, usage: seq<Usage>, c: Call)
    ensures Judge(rules, usage, c).outcome == Allow <==> RatesFree(rules, usage, c) && LimitsFree(rules, usage, c)
  {
    NoRateFault(rules.rates, usage, c);
    NoLimitFault(rules.concurrency, usage, c);
    hide RateFaults, LimitFaults, LongestRetry, Busy, UsedUp, RateIds, LimitIds;
  }

  // ---- what every decision and every completion keeps ----

  /** Each recorded use was within every rate that applied to it. */
  ghost predicate WithinRates(rules: Rules, usage: seq<Usage>) {
    forall i :: 0 <= i < |usage| ==>
      RatesFree(rules, usage[..i], Call(usage[i].operation, 0, None, usage[i].at))
  }

  ghost predicate Serialized(rules: Rules, operation: string) {
    exists l :: l in rules.concurrency && Governs(l, operation) && l.serializeByTarget
  }

  /** Where a rule serializes by target, a target has at most one use that is not finished. */
  ghost predicate OneAtATime(rules: Rules, usage: seq<Usage>) {
    forall i, j :: 0 <= i < j < |usage| && Clash(usage[i], usage[j]) ==> !Serialized(rules, usage[i].operation)
  }

  ghost predicate Clash(u: Usage, v: Usage) {
    u.operation == v.operation && u.target == v.target && Named(u.target) && !u.terminal && !v.terminal
  }

  lemma RatesFreeIgnoresRest(rules: Rules, usage: seq<Usage>, c: Call, d: Call)
    requires c.operation == d.operation && c.at == d.at
    ensures RatesFree(rules, usage, c) <==> RatesFree(rules, usage, d)
  {
    assert forall r :: UsedUp(r, usage, c) == UsedUp(r, usage, d);
  }

  lemma JudgeKeepsRates(rules: Rules, usage: seq<Usage>, c: Call, record: bool)
    requires WithinRates(rules, usage)
    ensures WithinRates(rules, AfterJudge(rules, usage, c, record))
  {
    AllowMeansFree(rules, usage, c);
    var next := AfterJudge(rules, usage, c, record);
    RatesFreeIgnoresRest(rules, usage, c, Call(c.operation, 0, None, c.at));
    hide Judge, RatesFree;
    if next != usage {
      forall i | 0 <= i < |next| ensures RatesFree(rules, next[..i], Call(next[i].operation, 0, None, next[i].at)) {
        assert usage[..|usage|] == usage;
        assert next[..i] == usage[..i];
      }
    }
  }

  lemma JudgeKeepsSerial(rules: Rules, usage: seq<Usage>, c: Call, record: bool)
    requires OneAtATime(rules, usage)
    ensures OneAtATime(rules, AfterJudge(rules, usage, c, record))
  {
    AllowMeansFree(rules, usage, c);
    var next := AfterJudge(rules, usage, c, record);
    hide Judge;
    if next != usage {
      forall i, j | 0 <= i < j < |next| && Clash(next[i], next[j]) ensures !Serialized(rules, next[i].operation) {
        if j == |usage| {
          assert next[i] == usage[i] && usage[i] in usage;
          assert Busy(usage, c);
        }
      }
    }
  }

  lemma {:induction false} SameTimes(a: seq<Usage>, b: seq<Usage>, operation: string)
    requires |a| == |b| && forall i :: 0 <= i < |a| ==> a[i].operation == b[i].operation && a[i].at == b[i].at
    ensures UsageTimes(a, operation) == UsageTimes(b, operation)
  {
    if a != [] { SameTimes(a[..|a| - 1], b[..|b| - 1], operation); }
  }

  lemma MarkKeeps(rules: Rules, usage: seq<Usage>, operation: string, target: string)
    requires WithinRates(rules, usage) && OneAtATime(rules, usage)
    ensures WithinRates(rules, Marked(usage, operation, target)) && OneAtATime(rules, Marked(usage, operation, target))
  {
    var next := Marked(usage, operation, target);
    forall i | 0 <= i < |next| ensures RatesFree(rules, next[..i], Call(next[i].operation, 0, None, next[i].at)) {
      assert RatesFree(rules, usage[..i], Call(usage[i].operation, 0, None, usage[i].at));
      SameTimes(usage[..i], next[..i], next[i].operation);
      assert forall r, c: Call :: c.operation == next[i].operation ==> UsedUp(r, usage[..i], c) == UsedUp(r, next[..i], c);
    }
    forall i, j | 0 <= i < j < |next| && Clash(next[i], next[j]) ensures !Serialized(rules, next[i].operation) {
      assert Clash(usage[i], usage[j]);
    }
  }

  /** The rate bound of the durable limiter, for every instant and every operation a rule applies to. */
  lemma {:induction false} DurableRateIsBounded(rules: Rules, usage: seq<Usage>, r: RateRule, operation: string, t: Instant)
    requires WithinRates(rules, usage) && r in rules.rates && Applies(r, operation)
    ensures CountIn(UsageTimes(usage, operation), Cutoff(r, t), t) <= r.limit + r.burst
    decreases |usage|
  {
    if usage != [] {
      var n := |usage| - 1;
      var init, u := usage[..n], usage[n];
      forall i | 0 <= i < n ensures RatesFree(rules, init[..i], Call(init[i].operation, 0, None, init[i].at)) {
        assert init[..i] == usage[..i];
      }
      DurableRateIsBounded(rules, init, r, operation, t);
      var ts := UsageTimes(init, operation);
      if u.operation == operation {
        assert (ts + [u.at])[..|ts|] == ts;
        var c := Call(operation, 0, None, u.at);
        assert RatesFree(rules, init, c);
        assert !UsedUp(r, init, c);
        if u.at <= t { CountsAtMostLater(ts, Cutoff(r, t), t, Cutoff(r, u.at)); }
      } else {
        assert UsageTimes(usage, operation) == ts;
      }
    }
  }

  class WorkspaceGovernance {
    const rules: Rules
    var usage: seq<Usage>

    ghost predicate Valid()
      reads this
    {
      WithinRates(rules, usage) && OneAtATime(rules, usage)
    }

    constructor (rules: Rules)
      ensures Valid() && usage == [] && this.rules == rules
    {
      this.rules := rules;
      usage := [];
    }

    method CheckRates(c: Call) returns (reasons: seq<Fault>, retry: Option<int>, matched: set<Id>)
      requires forall r :: r in rules.rates ==> ValidRate(r)
      ensures reasons == RateFaults(rules.rates, usage, c) && retry == LongestRetry(rules.rates, usage, c)
      ensures matched == RateIds(rules.rates, c.operation)
    {
      hide Recent;
      reasons, retry, matched := [], None, {};
      var rs := rules.rates;
      for i := 0 to |rs|
        invariant reasons == RateFaults(rs[..i], usage, c) && retry == LongestRetry(rs[..i], usage, c)
        invariant matched == RateIds(rs[..i], c.operation)
      {
        var rule := rs[i];
        assert rs[..i + 1][..i] == rs[..i];
        if Applies(rule, c.operation) {
          matched := matched + {rule.id};
          var recent := Recent(rule, usage, c);
          if |recent| >= rule.limit + rule.burst {
            assert rule in rs;
            var wait := RetryAfter(rule, Oldest(recent), c.at);
            retry := Some(if retry.Some? && retry.value > wait then retry.value else wait);
            reasons := reasons + [OverRate(rule.id)];
          }
        }
      }
      assert rs[..|rs|] == rs;
    }

    method CheckLimits(c: Call) returns (reasons: seq<Fault>, matched: set<Id>)
      ensures reasons == LimitFaults(rules.concurrency, usage, c)
      ensures matched == LimitIds(rules.concurrency, c.operation)
    {
      hide Busy;
      reasons, matched := [], {};
      var ls := rules.concurrency;
      for i := 0 to |ls|
        invariant reasons == LimitFaults(ls[..i], usage, c)
        invariant matched == LimitIds(ls[..i], c.operation)
      {
        var rule := ls[i];
        assert ls[..i + 1][..i] == ls[..i];
        if Governs(rule, c.operation) {
          matched := matched + {rule.id};
          if c.active >= rule.maximumActive {
            reasons := reasons + [OverLimit(rule.id)];
          }
          if rule.serializeByTarget && Named(c.target) && Busy(usage, c) {
            reasons := reasons + [TargetBusy(rule.id)];
          }
        }
      }
      assert ls[..|ls|] == ls;
    }

    /** `evaluate_governance`, one transaction under the workspace's row lock. */
    method Evaluate(c: Call, record: bool) returns (d: Verdict)
      requires Valid() && forall r :: r in rules.rates ==> ValidRate(r)
      modifies this
      ensures Valid()
      ensures d == Judge(rules, old(usage), c)
      ensures usage == AfterJudge(rules, old(usage), c, record)
    {
      JudgeKeepsRates(rules, usage, c, record);
      JudgeKeepsSerial(rules, usage, c, record);
      hide WithinRates, OneAtATime, RateFaults, LimitFaults, LongestRetry, RateIds, LimitIds;
      var rateReasons, retry, rateIds := CheckRates(c);
      var limitReasons, limitIds := CheckLimits(c);
      var reasons := rateReasons + limitReasons;
      d := Verdict(if reasons == [] then Allow else Delay, reasons, retry, Text.Sorted(rateIds + limitIds));
      if d.outcome == Allow && record && d.matched != [] {
        usage := usage + [Usage(c.operation, c.target, c.at, false)];
      }
    }

    /** `mark_governance_usage_terminal`. */
    method MarkTerminal(operation: string, target: string) returns (count: nat)
      requires Valid()
      modifies this
      ensures Valid() && usage == Marked(old(usage), operation, target)
      ensures count == |set i | 0 <= i < |usage| && usage[i] != old(usage)[i]|
    {
      MarkKeeps(rules, usage, operation, target);
      ghost var before := usage;
      var next := Marked(usage, operation, target);
      var changed := set i | 0 <= i < |usage| && usage[i] != next[i];
      usage := next;
      count := |changed|;
      assert changed == set i | 0 <= i < |usage| && usage[i] != before[i];
    }
  }
}
