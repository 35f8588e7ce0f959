/** When no agent holds more unexpired active leases than it allows: exactly when no re-registration undercuts them. */
module DispatchCapacity {
  import opened Basics
  import opened DispatchState
  import opened DispatchRuns
  import Sorting

  ghost predicate WithinCapacity(s: State, now: Instant) {
    forall a :: a in s.agents ==> ActiveCount(s, a, now) <= s.agents[a].maxConcurrency
  }

  function Instants(c: Call): Option<Instant> {
    match c
    case Dispatch(_, now, _, _) => Some(now)
    case Renew(_, _, now) => Some(now)
    case Complete(_, _, _, now) => Some(now)
    case Expire(now) => Some(now)
    case _ => None
  }

  function Clock(c: Call, before: Instant): Instant {
    if Instants(c).Some? then Instants(c).value else before
  }

  /** A re-registration that is accepted does not allow less than the agent already holds. */
  ghost predicate KeepsLimit(s: State, c: Call, now: Instant) {
    c.Register? && c.id in s.agents && SameIdentity(s.agents[c.id], c.agent) ==>
      ActiveCount(s, c.id, now) <= c.agent.maxConcurrency
  }

  /** No call is earlier than the one before it. */
  ghost predicate Orderly(s: State, calls: seq<Call>, clock: Instant)
    decreases calls
  {
    calls == [] || (
      && Lawful(s, calls[0]) && clock <= Clock(calls[0], clock)
      && Orderly(Next(s, calls[0]), calls[1..], Clock(calls[0], clock)))
  }

  ghost predicate LimitsKept(s: State, calls: seq<Call>, clock: Instant)
    decreases calls
  {
    calls == []
    || (KeepsLimit(s, calls[0], clock) && LimitsKept(Next(s, calls[0]), calls[1..], Clock(calls[0], clock)))
  }

  /** The bound holds at the start and after every call. */
  ghost predicate StaysWithin(s: State, calls: seq<Call>, clock: Instant)
    decreases calls
  {
    WithinCapacity(s, clock) && (calls == [] || StaysWithin(Next(s, calls[0]), calls[1..], Clock(calls[0], clock)))
  }

  /** Time alone only lets leases run out. */
  lemma LaterIsFewer(s: State, a: Id, now: Instant, later: Instant)
    requires now <= later
    ensures ActiveCount(s, a, later) <= ActiveCount(s, a, now)
  {
    SubsetCount(LiveLeases(s, a, later), LiveLeases(s, a, now));
  }

  /** A call that adds no live lease keeps every agent within its limit. */
  lemma FewerKeeps(s: State, n: State, now: Instant)
    requires WithinCapacity(s, now)
    requires forall a :: a in n.agents ==> LiveLeases(n, a, now) <= LiveLeases(s, a, now)
    requires forall a :: a in n.agents && a in s.agents ==> s.agents[a].maxConcurrency <= n.agents[a].maxConcurrency
    requires forall a :: a in n.agents && a !in s.agents ==> LiveLeases(s, a, now) == {} && 0 <= n.agents[a].maxConcurrency
    ensures WithinCapacity(n, now)
  {
    forall a | a in n.agents ensures ActiveCount(n, a, now) <= n.agents[a].maxConcurrency {
      SubsetCount(LiveLeases(n, a, now), LiveLeases(s, a, now));
    }
  }

  lemma SameLeasesSameCount(s: State, n: State, a: Id, now: Instant)
    requires n.leases == s.leases
    ensures ActiveCount(n, a, now) == ActiveCount(s, a, now)
  {
    assert LiveLeases(n, a, now) == LiveLeases(s, a, now);
  }

  lemma StrangersHoldNothing(s: State, id: Id, now: Instant)
    requires Inv(s) && id !in s.agents
    ensures ActiveCount(s, id, now) == 0
  {
    assert LiveLeases(s, id, now) == {};
  }

  lemma RegisterWithin(s: State, id: Id, agent: Agent, now: Instant)
    requires Inv(s) && WithinCapacity(s, now) && ValidAgent(agent)
    ensures WithinCapacity(AfterRegister(s, id, agent), now) <==> KeepsLimit(s, Register(id, agent), now)
  {
    var n := AfterRegister(s, id, agent);
    if id !in s.agents { StrangersHoldNothing(s, id, now); }
    forall a ensures ActiveCount(n, a, now) == ActiveCount(s, a, now) { SameLeasesSameCount(s, n, a, now); }
    hide Inv, ActiveCount;
    if n != s {
      assert n.agents == s.agents[id := agent];
      assert WithinCapacity(n, now) ==> ActiveCount(n, id, now) <= n.agents[id].maxConcurrency;
    }
  }

  lemma OneMoreWithin(s: State, n: State, now: Instant, chosen: Id, l: Id)
    requires WithinCapacity(s, now) && n.agents == s.agents
    requires chosen in s.agents && ActiveCount(s, chosen, now) < s.agents[chosen].maxConcurrency
    requires forall a :: a in s.agents ==>
      LiveLeases(n, a, now) <= LiveLeases(s, a, now) + if a == chosen then {l} else {}
    ensures WithinCapacity(n, now)
  {
    forall a | a in n.agents ensures ActiveCount(n, a, now) <= n.agents[a].maxConcurrency {
      SubsetCount(LiveLeases(n, a, now), LiveLeases(s, a, now) + if a == chosen then {l} else {});
    }
  }

  lemma DispatchWithin(s: State, taskId: Id, now: Instant, leaseId: Id, nonce: string)
    requires WithinCapacity(s, now)
    ensures WithinCapacity(AfterDispatch(s, taskId, now, leaseId, nonce), now)
  {
    var n := AfterDispatch(s, taskId, now, leaseId, nonce);
    if taskId in s.tasks && Decide(s, taskId, now).reason == LeastLoaded {
      var chosen := Candidates(s, s.tasks[taskId], now)[0];
      assert chosen in s.agents && ActiveCount(s, chosen, now) < s.agents[chosen].maxConcurrency by {
        CandidatesAreEligible(s, s.tasks[taskId], now);
        assert Eligible(s, s.tasks[taskId], chosen, now);
      }
      OneMoreWithin(s, n, now, chosen, leaseId);
    } else {
      FewerKeeps(s, n, now);
    }
  }

  lemma ExpireWithin(s: State, now: Instant)
    requires WithinCapacity(s, now)
    ensures WithinCapacity(AfterExpire(s, now), now)
  {
    FewerKeeps(s, AfterExpire(s, now), now);
  }

  lemma RenewWithin(s: State, l: Id, nonce: string, now: Instant)
    requires WithinCapacity(s, now)
    ensures WithinCapacity(AfterRenew(s, l, nonce, now), now)
  {
    if HoldsLive(s, l, nonce, now) {
      var n := AfterRenew(s, l, nonce, now);
      forall a | a in n.agents ensures LiveLeases(n, a, now) <= LiveLeases(s, a, now) {
      }
      FewerKeeps(s, n, now);
    } else {
      ExpireWithin(s, now);
    }
  }

  lemma CompleteWithin(s: State, l: Id, nonce: string, success: bool, now: Instant)
    requires WithinCapacity(s, now)
    ensures WithinCapacity(AfterComplete(s, l, nonce, success, now), now)
  {
    if HoldsLive(s, l, nonce, now) {
      FewerKeeps(s, AfterComplete(s, l, nonce, success, now), now);
    } else {
      ExpireWithin(s, now);
    }
  }

  lemma OtherCallsKeepCapacity(s: State, c: Call, now: Instant)
    requires Inv(s) && WithinCapacity(s, now) && Lawful(s, c) && !c.Register? && now == Clock(c, now)
    ensures WithinCapacity(Next(s, c), now)
  {
    match c
    case Beat(h) => FewerKeeps(s, AfterHeartbeat(s, h), now);
    case Enqueue(id, task) => FewerKeeps(s, AfterEnqueue(s, id, task), now);
    case Dispatch(t, _, l, nonce) => DispatchWithin(s, t, now, l, nonce);
    case Renew(l, nonce, _) => RenewWithin(s, l, nonce, now);
    case Complete(l, nonce, success, _) => CompleteWithin(s, l, nonce, success, now);
    case Expire(_) => ExpireWithin(s, now);
  }

  /** A call on time keeps the bound, unless it is an accepted re-registration that allows less than is held. */
  lemma CallKeepsCapacity(s: State, c: Call, clock: Instant)
    requires Inv(s) && WithinCapacity(s, clock) && Lawful(s, c) && clock <= Clock(c, clock)
    ensures WithinCapacity(Next(s, c), Clock(c, clock)) <==> KeepsLimit(s, c, clock)
  {
    var now := Clock(c, clock);
    forall a | a in s.agents ensures ActiveCount(s, a, now) <= s.agents[a].maxConcurrency {
      LaterIsFewer(s, a, clock, now);
    }
    hide Inv, ActiveCount;
    if c.Register? {
      RegisterWithin(s, c.id, c.agent, now);
    } else {
      OtherCallsKeepCapacity(s, c, now);
    }
  }

  /** So over a run: the bound holds throughout if and only if no re-registration undercuts what is held. */
  lemma {:induction false} StaysWithinExactly(s: State, calls: seq<Call>, clock: Instant)
    requires Inv(s) && WithinCapacity(s, clock) && Orderly(s, calls, clock)
    ensures StaysWithin(s, calls, clock) <==> LimitsKept(s, calls, clock)
    decreases calls
  {
    hide Inv, WithinCapacity, KeepsLimit;
    if calls != [] {
      NextKeeps(s, calls[0]);
      CallKeepsCapacity(s, calls[0], clock);
      if KeepsLimit(s, calls[0], clock) { StaysWithinExactly(Next(s, calls[0]), calls[1..], Clock(calls[0], clock)); }
    }
  }

  lemma {:induction false} OrderlyRunKeepsCapacity(s: State, calls: seq<Call>, clock: Instant, t: Instant)
    requires Inv(s) && WithinCapacity(s, clock) && Orderly(s, calls, clock) && LimitsKept(s, calls, clock)
    requires clock <= t && forall i :: 0 <= i < |calls| && Instants(calls[i]).Some? ==> Instants(calls[i]).value <= t
    ensures WithinCapacity(Run(s, calls), t)
    decreases calls
  {
    hide Inv;
    if calls == [] {
      forall a | a in s.agents ensures ActiveCount(s, a, t) <= s.agents[a].maxConcurrency {
        LaterIsFewer(s, a, clock, t);
      }
    } else {
      NextKeeps(s, calls[0]);
      CallKeepsCapacity(s, calls[0], clock);
      OrderlyRunKeepsCapacity(Next(s, calls[0]), calls[1..], Clock(calls[0], clock), t);
    }
  }

  /** Capacity over whole runs: at the last call's instant and at any later one. */
  lemma CapacityIsNeverExceeded(calls: seq<Call>, start: Instant, t: Instant, a: Id)
    requires Orderly(EMPTY, calls, start) && LimitsKept(EMPTY, calls, start) && start <= t
    requires forall i :: 0 <= i < |calls| && Instants(calls[i]).Some? ==> Instants(calls[i]).value <= t
    requires a in Run(EMPTY, calls).agents
    ensures ActiveCount(Run(EMPTY, calls), a, t) <= Run(EMPTY, calls).agents[a].maxConcurrency
  {
    OrderlyRunKeepsCapacity(EMPTY, calls, start, t);
  }

  // ---- why the clock matters ----

  const SOLO := AgentRecord("o", "w", None, Online, {}, {"x"}, {}, 1, 5, None, None)
  const WORK := TaskRecord("o", "w", "e", "x", {}, Queued, 1, 1, None, None, None, "h", 0)

  lemma OnlyCandidate(s: State, limit: int, now: Instant)
    requires s.agentIds == ["a"] && s.agents == map["a" := SOLO.(maxConcurrency := limit)]
    requires ActiveCount(s, "a", now) < limit
    ensures Candidates(s, WORK, now) == ["a"]
  {
    var f, leq := EligibleFor(s, WORK, now), LoadOrder(s, now);
    assert AvailableCapacity(s, "a", now) >= 1;
    assert f("a");
    FilterOne("a", f);
    Sorting.SortKeeps(["a"], leq);
    assert Sorting.Sort(["a"], leq)[0] in ["a"];
  }

  /** `calls` lead lawfully from nothing to `s`. */
  ghost predicate Leads(calls: seq<Call>, s: State) { LawfulRun(EMPTY, calls) && Run(EMPTY, calls) == s }

  lemma {:induction false} OneMoreCall(s: State, calls: seq<Call>, c: Call)
    requires LawfulRun(s, calls) && Lawful(Run(s, calls), c)
    ensures LawfulRun(s, calls + [c]) && Run(s, calls + [c]) == Next(Run(s, calls), c)
    decreases calls
  {
    if calls == [] {
      assert [c][1..] == [];
    } else {
      assert (calls + [c])[1..] == calls[1..] + [c];
      OneMoreCall(Next(s, calls[0]), calls[1..], c);
    }
  }

  lemma Grow(calls: seq<Call>, s: State, c: Call, n: State)
    requires Leads(calls, s) && Lawful(s, c) && Next(s, c) == n
    ensures Leads(calls + [c], n)
  {
    OneMoreCall(EMPTY, calls, c);
  }

  function Held(start: Instant, t: Id): Lease { Lease(t, "a", Active, start, start + 5 * SECOND, start, "n") }

  function TwoTasks(t: Task, u: Task, ids: seq<Id>, leases: map<Id, Lease>): State {
    State(["a"], map["a" := SOLO], map["t" := t, "u" := u], ids, leases)
  }

  function OnLease(at: Instant): Task { WORK.(status := Leased, holder := Some("a"), updatedAt := at) }

  const LATER: Instant := 10 * SECOND
  const S1 := State(["a"], map["a" := SOLO], map[], [], map[])
  const S2 := State(["a"], map["a" := SOLO], map["t" := WORK], [], map[])
  const S3 := TwoTasks(WORK, WORK, [], map[])
  const S4 := TwoTasks(OnLease(0), WORK, ["l"], map["l" := Held(0, "t")])
  const S5 := TwoTasks(OnLease(0), OnLease(LATER), ["l", "m"], map["l" := Held(0, "t"), "m" := Held(LATER, "u")])

  lemma FirstLease()
    ensures Next(S3, Dispatch("t", 0, "l", "n")) == S4
  {
    assert LiveLeases(S3, "a", 0) == {};
    OnlyCandidate(S3, 1, 0);
  }

  lemma SecondLease()
    ensures Next(S4, Dispatch("u", LATER, "m", "n")) == S5
  {
    assert LiveLeases(S4, "a", LATER) == {};
    OnlyCandidate(S4, 1, LATER);
  }

  lemma BothAreLive()
    ensures ActiveCount(S5, "a", 0) == 2
  {
    assert LiveLeases(S5, "a", 0) == {"l", "m"};
  }

  lemma Setup()
    ensures Leads([Register("a", SOLO), Enqueue("t", WORK), Enqueue("u", WORK)], S3)
  {
    assert Leads([], EMPTY);
    assert Next(EMPTY, Register("a", SOLO)) == S1 && Next(S1, Enqueue("t", WORK)) == S2;
    assert Next(S2, Enqueue("u", WORK)) == S3;
    Grow([], EMPTY, Register("a", SOLO), S1);
    assert [] + [Register("a", SOLO)] == [Register("a", SOLO)];
    Grow([Register("a", SOLO)], S1, Enqueue("t", WORK), S2);
    assert [Register("a", SOLO)] + [Enqueue("t", WORK)] == [Register("a", SOLO), Enqueue("t", WORK)];
    Grow([Register("a", SOLO), Enqueue("t", WORK)], S2, Enqueue("u", WORK), S3);
    assert [Register("a", SOLO), Enqueue("t", WORK)] + [Enqueue("u", WORK)]
        == [Register("a", SOLO), Enqueue("t", WORK), Enqueue("u", WORK)];
  }

  /** With a last call dated before the one it follows, an agent that allows one lease holds two live ones. */
  lemma CapacityNeedsTheClock()
    ensures exists calls, now, s ::
      Leads(calls + [Expire(now)], s) && "a" in s.agents && s.agents["a"].maxConcurrency < ActiveCount(s, "a", now)
  {
    var c4, c5 := Dispatch("t", 0, "l", "n"), Dispatch("u", LATER, "m", "n");
    var setup := [Register("a", SOLO), Enqueue("t", WORK), Enqueue("u", WORK)];
    NothingStale();
    hide Next, Leads, ActiveCount;
    Setup();
    FirstLease();
    SecondLease();
    Grow(setup, S3, c4, S4);
    Grow(setup + [c4], S4, c5, S5);
    Grow(setup + [c4] + [c5], S5, Expire(0), S5);
    BothAreLive();
  }

  lemma NothingStale()
    ensures Next(S5, Expire(0)) == S5
  {
    assert SweptLeases(S5, S5.leases.Keys, 0) == S5.leases;
    assert forall t :: !LosesLease(S5, S5.leases.Keys, t, 0);
    assert SweptTasks(S5, S5.leases.Keys, 0) == S5.tasks;
  }

  // ---- why a limit must not be lowered below what is held ----

  const DUO := SOLO.(maxConcurrency := 2)

  function Duo(t: Task, u: Task, ids: seq<Id>, leases: map<Id, Lease>): State {
    TwoTasks(t, u, ids, leases).(agents := map["a" := DUO])
  }

  const D1 := State(["a"], map["a" := DUO], map[], [], map[])
  const D2 := State(["a"], map["a" := DUO], map["t" := WORK], [], map[])
  const D3 := Duo(WORK, WORK, [], map[])
  const D4 := Duo(OnLease(0), WORK, ["l"], map["l" := Held(0, "t")])
  const D5 := Duo(OnLease(0), OnLease(0), ["l", "m"], map["l" := Held(0, "t"), "m" := Held(0, "u")])

  lemma FirstOfTwo()
    ensures Next(D3, Dispatch("t", 0, "l", "n")) == D4
  {
    assert LiveLeases(D3, "a", 0) == {};
    OnlyCandidate(D3, 2, 0);
  }

  lemma SecondOfTwo()
    ensures Next(D4, Dispatch("u", 0, "m", "n")) == D5
  {
    assert LiveLeases(D4, "a", 0) == {"l"};
    OnlyCandidate(D4, 2, 0);
  }

  lemma TwoAreHeld()
    ensures ActiveCount(D5, "a", 0) == 2 && ActiveCount(AfterRegister(D5, "a", SOLO), "a", 0) == 2
    ensures AfterRegister(D5, "a", SOLO).agents == map["a" := SOLO]
  {
    assert LiveLeases(D5, "a", 0) == {"l", "m"};
    assert LiveLeases(AfterRegister(D5, "a", SOLO), "a", 0) == {"l", "m"};
  }

  const LOWERING := [
    Register("a", DUO), Enqueue("t", WORK), Enqueue("u", WORK), Dispatch("t", 0, "l", "n"), Dispatch("u", 0, "m", "n"),
    Register("a", SOLO)]

  lemma OrderlyOne(s: State, c: Call, rest: seq<Call>, n: State)
    requires Lawful(s, c) && Next(s, c) == n && Clock(c, 0) == 0 && Orderly(n, rest, 0)
    ensures Orderly(s, [c] + rest, 0) && Run(s, [c] + rest) == Run(n, rest)
  {
    assert ([c] + rest)[1..] == rest;
  }

  lemma DuoBegins()
    ensures Next(EMPTY, Register("a", DUO)) == D1 && Next(D1, Enqueue("t", WORK)) == D2
    ensures Next(D2, Enqueue("u", WORK)) == D3 && Next(D5, Register("a", SOLO)) == AfterRegister(D5, "a", SOLO)
    ensures var n := AfterRegister(D5, "a", SOLO); Orderly(n, [], 0) && Run(n, []) == n
  {
  }

  /** An agent that allows two, holds two, and registers again for one: on time all along, and over its limit. */
  lemma LoweringBreaksTheBound()
    ensures Orderly(EMPTY, LOWERING, 0)
    ensures var s := Run(EMPTY, LOWERING); "a" in s.agents && s.agents["a"].maxConcurrency < ActiveCount(s, "a", 0)
  {
    var n := AfterRegister(D5, "a", SOLO);
    DuoBegins();
    FirstOfTwo();
    SecondOfTwo();
    TwoAreHeld();
    hide Next, ActiveCount, AfterRegister, Run, Orderly;
    OrderlyOne(D5, Register("a", SOLO), [], n);
    OrderlyOne(D4, Dispatch("u", 0, "m", "n"), [Register("a", SOLO)] + [], D5);
    OrderlyOne(D3, Dispatch("t", 0, "l", "n"), [Dispatch("u", 0, "m", "n")] + ([Register("a", SOLO)] + []), D4);
    var late := [Dispatch("t", 0, "l", "n")] + ([Dispatch("u", 0, "m", "n")] + ([Register("a", SOLO)] + []));
    OrderlyOne(D2, Enqueue("u", WORK), late, D3);
    OrderlyOne(D1, Enqueue("t", WORK), [Enqueue("u", WORK)] + late, D2);
    OrderlyOne(EMPTY, Register("a", DUO), [Enqueue("t", WORK)] + ([Enqueue("u", WORK)] + late), D1);
    assert [Register("a", DUO)] + ([Enqueue("t", WORK)] + ([Enqueue("u", WORK)] + late)) == LOWERING;
  }
}
