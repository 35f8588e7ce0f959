/** Choosing evidence collectors for the questions of a diagnosis, best first, until the required facts are covered. */
module EvidencePlanner {
  import opened Basics
  import Sorting
  import Text

  datatype CostClass = Negligible | LowCost | MediumCost | HighCost

  datatype Authority = Heuristic | LowAuthority | MediumAuthority | HighAuthority | Authoritative

  datatype Collector = Collector(
    id: Id, questions: seq<string>, factTypes: seq<string>, modes: set<string>, capabilities: set<string>,
    inputs: set<string>, authority: Authority, cost: CostClass)

  datatype Stopping = FirstAuthoritativeAnswer | AllRequiredFacts | AllCollectors

  datatype Intent = Intent(
    id: Id, questions: seq<string>, subjects: seq<Id>, required: seq<string>, preferred: seq<Id>,
    authority: Authority, stopping: Stopping)

  datatype Context = Context(mode: string, capabilities: set<string>)

  datatype Step = Step(
    id: string, collector: Id, intent: Id, subjects: seq<Id>, questions: seq<string>, expected: seq<string>, score: real)

  datatype Plan = Plan(steps: seq<Step>, unresolved: seq<Id>, cost: real)

  function CostOf(c: CostClass): real {
    match c case Negligible => 0.25 case LowCost => 1.0 case MediumCost => 3.0 case HighCost => 8.0
  }

  function Rank(a: Authority): int {
    match a case Heuristic => 0 case LowAuthority => 1 case MediumAuthority => 2 case HighAuthority => 3 case Authoritative => 4
  }

  // ---- fact types ----

  predicate Wildcard(required: string) { |required| >= 2 && required[|required| - 2..] == ".*" }

  /** `_fact_type_matches`: equal, under the wildcard's prefix, or one a dotted extension of the other. */
  predicate Matches(required: string, provided: string) {
    required == provided
    || if Wildcard(required) then required[..|required| - 1] <= provided
       else required + "." <= provided || provided + "." <= required
  }

  predicate MatchedBy(required: string, provided: seq<string>) { exists x :: x in provided && Matches(required, x) }

  // ---- candidates ----

  predicate Admissible(c: Collector, context: Context) {
    context.mode in c.modes && c.capabilities <= context.capabilities && c.inputs <= context.capabilities
  }

  function Overlap(a: seq<string>, b: seq<string>): set<string> { set q | q in a && q in b }

  function IsMatchedBy(provided: seq<string>): string -> bool { (r: string) => MatchedBy(r, provided) }

  function FactOverlap(c: Collector, intent: Intent): nat { |Filter(intent.required, IsMatchedBy(c.factTypes))| }

  predicate Relevant(c: Collector, intent: Intent) {
    Overlap(c.questions, intent.questions) != {} || FactOverlap(c, intent) != 0 || c.id in intent.preferred
  }

  function Score(c: Collector, intent: Intent): real {
    var delta := Rank(c.authority) - Rank(intent.authority);
    |Overlap(c.questions, intent.questions)| as real * 3.0 + FactOverlap(c, intent) as real * 4.0
    + (if c.id in intent.preferred then 3.0 else 0.0) + (if delta > -2 then delta else -2) as real * 0.5
    - CostOf(c.cost) * 0.25
  }

  function ByScore(intent: Intent): (Collector, Collector) -> bool {
    (a: Collector, b: Collector) =>
      Score(a, intent) > Score(b, intent) || (Score(a, intent) == Score(b, intent) && Text.Leq(a.id, b.id))
  }

  function Suits(intent: Intent, context: Context): Collector -> bool {
    (c: Collector) => Admissible(c, context) && Relevant(c, intent)
  }

  function Candidates(catalog: seq<Collector>, intent: Intent, context: Context): seq<Collector> {
    Sorting.Sort(Filter(catalog, Suits(intent, context)), ByScore(intent))
  }

  /** A collector that provides a required fact is a candidate as soon as it is admissible. */
  lemma ProvidersAreCandidates(catalog: seq<Collector>, intent: Intent, context: Context, c: Collector)
    ensures c in Candidates(catalog, intent, context) <==> c in catalog && Admissible(c, context) && Relevant(c, intent)
    ensures (exists f :: f in intent.required && MatchedBy(f, c.factTypes)) ==> Relevant(c, intent)
  {
    FilterMembers(catalog, Suits(intent, context));
    Sorting.SortKeeps(Filter(catalog, Suits(intent, context)), ByScore(intent));
    if f :| f in intent.required && MatchedBy(f, c.factTypes) {
      FilterMembers(intent.required, IsMatchedBy(c.factTypes));
      assert IsMatchedBy(c.factTypes)(f);
    }
  }

  /** `_candidates` */
  method FindCandidates(catalog: seq<Collector>, intent: Intent, context: Context) returns (r: seq<Collector>)
    ensures r == Candidates(catalog, intent, context)
  {
    hide Overlap, FactOverlap, ByScore, Sorting.Sort;
    var found: seq<Collector> := [];
    for i := 0 to |catalog|
      invariant found == Filter(catalog[..i], Suits(intent, context))
    {
      var definition := catalog[i];
      FilterStep(catalog, i, Suits(intent, context));
      if context.mode !in definition.modes {
        continue;
      }
      if !(definition.capabilities <= context.capabilities) {
        continue;
      }
      if !(definition.inputs <= context.capabilities) {
        continue;
      }
      if Overlap(definition.questions, intent.questions) == {} && FactOverlap(definition, intent) == 0
         && definition.id !in intent.preferred
      {
        continue;
      }
      found := found + [definition];
    }
    assert catalog[..|catalog|] == catalog;
    r := Sorting.Sort(found, ByScore(intent));
  }

  // ---- one intent ----

  predicate MatchedIn(required: string, provided: set<string>) { exists x :: x in provided && Matches(required, x) }

  /** The required fact types that nothing existing matches. */
  function Open(intent: Intent, existing: set<string>): set<string> {
    set f | f in intent.required && !MatchedIn(f, existing)
  }

  function Wanted(required: set<string>): string -> bool {
    (t: string) => required == {} || exists r :: r in required && Matches(r, t)
  }

  function Alphabetical(): (string, string) -> bool { (a: string, b: string) => Text.Leq(a, b) }

  function Expected(required: set<string>, c: Collector): seq<string> {
    Sorting.Sort(Filter(c.factTypes, Wanted(required)), Alphabetical())
  }

  predicate Covered(required: set<string>, covered: set<string>) { forall r :: r in required ==> MatchedIn(r, covered) }

  predicate Useful(required: set<string>, c: Collector) { required == {} || Expected(required, c) != [] }

  datatype Identity = Identity(collector: Id, intent: Id, subjects: seq<Id>)

  function IdentityOf(c: Collector, intent: Intent): Identity {
    Identity(c.id, intent.id, Sorting.Sort(intent.subjects, Alphabetical()))
  }

  function AsSet(xs: seq<string>): set<string> { set x | x in xs }

  predicate StopsEarly(intent: Intent, c: Collector) {
    intent.stopping == FirstAuthoritativeAnswer && c.authority == Authoritative
  }

  /** The collectors the greedy pass takes for an intent. */
  function Picks(
    intent: Intent, required: set<string>, cands: seq<Collector>, covered: set<string>, selected: set<Identity>)
    : seq<Collector>
  {
    if cands == [] then []
    else
      var c, rest := cands[0], cands[1..];
      if !Useful(required, c) || IdentityOf(c, intent) in selected then Picks(intent, required, rest, covered, selected)
      else
        var now := covered + AsSet(Expected(required, c));
        [c] +
        if StopsEarly(intent, c) || (required != {} && Covered(required, now)) then []
        else Picks(intent, required, rest, now, selected + {IdentityOf(c, intent)})
  }

  function CoverOf(required: set<string>, picks: seq<Collector>): set<string> {
    if picks == [] then {} else AsSet(Expected(required, picks[0])) + CoverOf(required, picks[1..])
  }

  /** The candidates that the pass can get to: all, unless it ends at the first useful authoritative one. */
  function Reach(intent: Intent, required: set<string>, cands: seq<Collector>): seq<Collector> {
    if cands == [] then []
    else if Useful(required, cands[0]) && StopsEarly(intent, cands[0]) then [cands[0]]
    else [cands[0]] + Reach(intent, required, cands[1..])
  }

  lemma CoverMore(required: set<string>, a: set<string>, b: set<string>)
    requires Covered(required, a) && a <= b
    ensures Covered(required, b)
  {
    forall r | r in required ensures MatchedIn(r, b) {
      assert MatchedIn(r, a);
    }
  }

  ghost predicate DistinctCollectors(cands: seq<Collector>) {
    forall i, j :: 0 <= i < j < |cands| ==> cands[i].id != cands[j].id
  }

  lemma UselessAddsNothing(required: set<string>, c: Collector)
    requires !Useful(required, c)
    ensures AsSet(Expected(required, c)) == {}
  {
  }

  /** The candidates that no earlier copy of the intent has selected. */
  function Left(intent: Intent, cands: seq<Collector>, selected: set<Identity>): seq<Collector> {
    if cands == [] then []
    else (if IdentityOf(cands[0], intent) in selected then [] else [cands[0]]) + Left(intent, cands[1..], selected)
  }

  lemma {:induction false} LeftMembers(intent: Intent, cands: seq<Collector>, selected: set<Identity>)
    ensures forall c :: c in Left(intent, cands, selected) <==> c in cands && IdentityOf(c, intent) !in selected
  {
    hide IdentityOf;
    if cands != [] {
      LeftMembers(intent, cands[1..], selected);
      assert cands == [cands[0]] + cands[1..];
    }
  }

  lemma {:induction false} LeftAlike(intent: Intent, cands: seq<Collector>, a: set<Identity>, b: set<Identity>)
    requires forall c :: c in cands ==> (IdentityOf(c, intent) in a <==> IdentityOf(c, intent) in b)
    ensures Left(intent, cands, a) == Left(intent, cands, b)
  {
    hide IdentityOf;
    if cands != [] {
      assert cands == [cands[0]] + cands[1..];
      LeftAlike(intent, cands[1..], a, b);
    }
  }

  /** The greedy pass covers what its reach covers: taking the best first and stopping when done loses nothing. */
  lemma {:induction false} GreedyCoversItsReach(
    intent: Intent, required: set<string>, cands: seq<Collector>, covered: set<string>, selected: set<Identity>)
    requires DistinctCollectors(cands)
    ensures Covered(required, covered + CoverOf(required, Picks(intent, required, cands, covered, selected)))
      <==> Covered(required, covered + CoverOf(required, Reach(intent, required, Left(intent, cands, selected))))
    decreases |cands|, 1
  {
    hide Covered, Expected, StopsEarly, IdentityOf;
    if cands != [] {
      var c, rest := cands[0], cands[1..];
      if IdentityOf(c, intent) in selected {
        GreedyCoversItsReach(intent, required, rest, covered, selected);
        assert Left(intent, cands, selected) == Left(intent, rest, selected);
      } else {
        GreedyTakes(intent, required, cands, covered, selected);
      }
    }
  }

  lemma GreedyTakes(
    intent: Intent, required: set<string>, cands: seq<Collector>, covered: set<string>, selected: set<Identity>)
    requires DistinctCollectors(cands) && cands != [] && IdentityOf(cands[0], intent) !in selected
    ensures Covered(required, covered + CoverOf(required, Picks(intent, required, cands, covered, selected)))
      <==> Covered(required, covered + CoverOf(required, Reach(intent, required, Left(intent, cands, selected))))
    decreases |cands|, 0
  {
    hide Covered, Expected, StopsEarly, IdentityOf;
    var c, rest := cands[0], cands[1..];
    var left := Left(intent, rest, selected);
    assert Left(intent, cands, selected) == [c] + left && ([c] + left)[1..] == left;
    var reach := Reach(intent, required, left);
    var mine := AsSet(Expected(required, c));
    var now := covered + mine;
    CoverOne(required, c);
    CoverFirst(required, c, reach);
    assert covered + (mine + CoverOf(required, reach)) == now + CoverOf(required, reach);
    if !Useful(required, c) {
      UselessAddsNothing(required, c);
      assert now == covered;
      GreedyCoversItsReach(intent, required, rest, covered, selected);
    } else if StopsEarly(intent, c) {
    } else if required != {} && Covered(required, now) {
      CoverMore(required, now, now + CoverOf(required, reach));
    } else {
      var after := selected + {IdentityOf(c, intent)};
      DistinctRest(intent, cands, selected);
      GreedyCoversItsReach(intent, required, rest, now, after);
      var picks := Picks(intent, required, rest, now, after);
      CoverFirst(required, c, picks);
      assert covered + (mine + CoverOf(required, picks)) == now + CoverOf(required, picks);
    }
  }

  lemma CoverOne(required: set<string>, c: Collector)
    ensures CoverOf(required, [c]) == AsSet(Expected(required, c))
  {
    hide Expected;
    assert [c][1..] == [];
  }

  lemma CoverFirst(required: set<string>, c: Collector, rest: seq<Collector>)
    ensures CoverOf(required, [c] + rest) == AsSet(Expected(required, c)) + CoverOf(required, rest)
  {
    hide Expected;
    assert ([c] + rest)[1..] == rest;
  }

  lemma DistinctRest(intent: Intent, cands: seq<Collector>, selected: set<Identity>)
    requires cands != [] && DistinctCollectors(cands)
    ensures DistinctCollectors(cands[1..])
    ensures Left(intent, cands[1..], selected + {IdentityOf(cands[0], intent)}) == Left(intent, cands[1..], selected)
  {
    hide Sorting.Sort, Left;
    forall c | c in cands[1..] ensures c.id != cands[0].id {
      var j :| 0 <= j < |cands[1..]| && cands[1..][j] == c;
      assert cands[j + 1] == c;
    }
    LeftAlike(intent, cands[1..], selected + {IdentityOf(cands[0], intent)}, selected);
  }

  lemma ExpectedAre(required: set<string>, c: Collector, t: string)
    ensures t in Expected(required, c) <==> t in c.factTypes && Wanted(required)(t)
  {
    FilterMembers(c.factTypes, Wanted(required));
    Sorting.SortKeeps(Filter(c.factTypes, Wanted(required)), Alphabetical());
  }

  lemma {:induction false} CoverIsProvided(required: set<string>, cs: seq<Collector>, f: string)
    requires f in required
    ensures MatchedIn(f, CoverOf(required, cs)) <==> exists c :: c in cs && MatchedBy(f, c.factTypes)
  {
    if cs != [] {
      var c, rest := cs[0], cs[1..];
      assert cs == [c] + rest;
      CoverIsProvided(required, rest, f);
      hide Matches, Expected, Wanted;
      assert forall x :: x in CoverOf(required, rest) ==> x in CoverOf(required, cs);
      if MatchedBy(f, c.factTypes) {
        var x :| x in c.factTypes && Matches(f, x);
        WantedIfMatched(required, f, x);
        ExpectedAre(required, c, x);
        assert c in cs && x in CoverOf(required, cs);
      }
      if MatchedIn(f, CoverOf(required, cs)) {
        var x :| x in CoverOf(required, cs) && Matches(f, x);
        if x in Expected(required, c) {
          ExpectedAre(required, c, x);
          assert c in cs && MatchedBy(f, c.factTypes);
        } else {
          assert x in CoverOf(required, rest);
          var d :| d in rest && MatchedBy(f, d.factTypes);
          assert d in cs;
        }
      }
    }
  }

  lemma WantedIfMatched(required: set<string>, f: string, x: string)
    requires f in required && Matches(f, x)
    ensures Wanted(required)(x)
  {
  }

  // ---- the whole plan ----

  function CostSum(picks: seq<Collector>): real {
    if picks == [] then 0.0 else CostSum(picks[..|picks| - 1]) + CostOf(picks[|picks| - 1].cost)
  }

  function Identities(intent: Intent, picks: seq<Collector>): set<Identity> {
    if picks == [] then {}
    else Identities(intent, picks[..|picks| - 1]) + {IdentityOf(picks[|picks| - 1], intent)}
  }

  function StepFor(intent: Intent, required: set<string>, c: Collector, id: string): Step {
    var expected := Expected(required, c);
    Step(id, c.id, intent.id, intent.subjects, Text.Sorted(Overlap(c.questions, intent.questions)),
      if expected != [] then expected else c.factTypes, Score(c, intent))
  }

  function StepsFor(intent: Intent, required: set<string>, picks: seq<Collector>, ids: nat -> string, from: nat): seq<Step> {
    seq(|picks|, i requires 0 <= i < |picks| => StepFor(intent, required, picks[i], ids(from + i)))
  }

  datatype Draft = Draft(steps: seq<Step>, unresolved: seq<Id>, cost: real, selected: set<Identity>)

  datatype Setting = Setting(catalog: seq<Collector>, context: Context, existing: set<string>, ids: nat -> string)

  function PicksFor(s: Setting, intent: Intent, selected: set<Identity>): seq<Collector> {
    Picks(intent, Open(intent, s.existing), Candidates(s.catalog, intent, s.context), {}, selected)
  }

  predicate Satisfied(s: Setting, intent: Intent) { Open(intent, s.existing) == {} && intent.required != [] }

  function AfterIntent(d: Draft, s: Setting, intent: Intent): Draft {
    if Satisfied(s, intent) then d
    else
      var required, picks := Open(intent, s.existing), PicksFor(s, intent, d.selected);
      Draft(
        d.steps + StepsFor(intent, required, picks, s.ids, |d.steps|),
        d.unresolved + if required != {} && !Covered(required, CoverOf(required, picks)) then [intent.id] else [],
        d.cost + CostSum(picks), d.selected + Identities(intent, picks))
  }

  function AfterIntents(s: Setting, intents: seq<Intent>): Draft {
    if intents == [] then Draft([], [], 0.0, {})
    else AfterIntent(AfterIntents(s, intents[..|intents| - 1]), s, intents[|intents| - 1])
  }

  function ByStepScore(): (Step, Step) -> bool {
    (a: Step, b: Step) => a.score > b.score || (a.score == b.score && Text.Leq(a.id, b.id))
  }

  lemma CoverSnoc(required: set<string>, picks: seq<Collector>, c: Collector)
    ensures CoverOf(required, picks + [c]) == CoverOf(required, picks) + AsSet(Expected(required, c))
  {
    hide Expected;
    if picks == [] {
      assert picks + [c] == [c];
      CoverOne(required, c);
    } else {
      CoverSnoc(required, picks[1..], c);
      assert (picks + [c])[1..] == picks[1..] + [c];
    }
  }

  lemma SnocSums(intent: Intent, picks: seq<Collector>, c: Collector)
    ensures CostSum(picks + [c]) == CostSum(picks) + CostOf(c.cost)
    ensures Identities(intent, picks + [c]) == Identities(intent, picks) + {IdentityOf(c, intent)}
  {
    hide CostOf, IdentityOf;
    assert (picks + [c])[..|picks|] == picks;
  }

  lemma StepsSnoc(
    intent: Intent, required: set<string>, picks: seq<Collector>, c: Collector, ids: nat -> string, from: nat)
    ensures StepsFor(intent, required, picks + [c], ids, from)
      == StepsFor(intent, required, picks, ids, from) + [StepFor(intent, required, c, ids(from + |picks|))]
  {
    hide StepFor;
  }

  lemma PicksStep(
    intent: Intent, required: set<string>, cands: seq<Collector>, i: nat, covered: set<string>, selected: set<Identity>)
    requires i < |cands|
    ensures var c, all := cands[i], Picks(intent, required, cands[i..], covered, selected);
      var now := covered + AsSet(Expected(required, c));
      if !Useful(required, c) || IdentityOf(c, intent) in selected
      then all == Picks(intent, required, cands[i + 1..], covered, selected)
      else if StopsEarly(intent, c) || (required != {} && Covered(required, now)) then all == [c]
      else all == [c] + Picks(intent, required, cands[i + 1..], now, selected + {IdentityOf(c, intent)})
  {
    hide Useful, Expected, IdentityOf, StopsEarly, Covered;
    assert cands[i..][1..] == cands[i + 1..];
  }

  /** The inner loop of `plan`: what it takes for one intent, and the draft with the steps for it. */
  method PlanIntent(d: Draft, s: Setting, intent: Intent) returns (r: Draft)
    ensures r == AfterIntent(d, s, intent)
  {
    hide *;
    SatisfiedIs(s, intent);
    var required := Open(intent, s.existing);
    if required == {} && intent.required != [] {
      SatisfiedChangesNothing(d, s, intent);
      return d;
    }
    var candidates := FindCandidates(s.catalog, intent, s.context);
    var picks: seq<Collector> := [];
    var steps, covered, selected, cost := d.steps, {}, d.selected, d.cost;
    NothingPicked(d, s, intent);
    ghost var all := PicksFor(s, intent, d.selected);
    assert candidates[0..] == candidates;
    var i, open := 0, true;
    while i < |candidates| && open
      invariant i <= |candidates|
      invariant all == picks + if open then Picks(intent, required, candidates[i..], covered, selected) else []
      invariant steps == d.steps + StepsFor(intent, required, picks, s.ids, |d.steps|)
      invariant |steps| == |d.steps| + |picks|
      invariant covered == CoverOf(required, picks) && cost == d.cost + CostSum(picks)
      invariant selected == d.selected + Identities(intent, picks)
      decreases |candidates| - i, open
    {
      var definition := candidates[i];
      PicksStep(intent, required, candidates, i, covered, selected);
      i := i + 1;
      if !Useful(required, definition) {
        continue;
      }
      var identity := IdentityOf(definition, intent);
      if identity in selected {
        continue;
      }
      StepsSnoc(intent, required, picks, definition, s.ids, |d.steps|);
      CoverSnoc(required, picks, definition);
      SnocSums(intent, picks, definition);
      selected := selected + {identity};
      steps := steps + [StepFor(intent, required, definition, s.ids(|steps|))];
      cost := cost + CostOf(definition.cost);
      covered := covered + AsSet(Expected(required, definition));
      picks := picks + [definition];
      open := !StopsEarly(intent, definition) && !(required != {} && Covered(required, covered));
    }
    NothingLeft(intent, required, candidates, i, covered, selected);
    assert all == picks;
    var unresolved := d.unresolved + if required != {} && !Covered(required, covered) then [intent.id] else [];
    r := Draft(steps, unresolved, cost, selected);
    AfterIntentIs(d, s, intent);
  }

  lemma SatisfiedIs(s: Setting, intent: Intent)
    ensures Satisfied(s, intent) <==> Open(intent, s.existing) == {} && intent.required != []
  {
  }

  lemma SatisfiedChangesNothing(d: Draft, s: Setting, intent: Intent)
    requires Satisfied(s, intent)
    ensures AfterIntent(d, s, intent) == d
  {
  }

  lemma NothingPicked(d: Draft, s: Setting, intent: Intent)
    ensures StepsFor(intent, Open(intent, s.existing), [], s.ids, |d.steps|) == []
    ensures CoverOf(Open(intent, s.existing), []) == {} && CostSum([]) == 0.0 && Identities(intent, []) == {}
    ensures PicksFor(s, intent, d.selected)
      == Picks(intent, Open(intent, s.existing), Candidates(s.catalog, intent, s.context), {}, d.selected)
  {
  }

  lemma NothingLeft(
    intent: Intent, required: set<string>, cands: seq<Collector>, i: nat, covered: set<string>, selected: set<Identity>)
    requires i <= |cands|
    ensures i == |cands| ==> Picks(intent, required, cands[i..], covered, selected) == []
  {
  }

  lemma AfterIntentIs(d: Draft, s: Setting, intent: Intent)
    requires !Satisfied(s, intent)
    ensures var required, picks := Open(intent, s.existing), PicksFor(s, intent, d.selected);
      AfterIntent(d, s, intent) == Draft(
        d.steps + StepsFor(intent, required, picks, s.ids, |d.steps|),
        d.unresolved + (if required != {} && !Covered(required, CoverOf(required, picks)) then [intent.id] else []),
        d.cost + CostSum(picks), d.selected + Identities(intent, picks))
  {
    hide Open, PicksFor, StepsFor, Covered, CoverOf, CostSum, Identities;
  }

  /** `plan` */
  method MakePlan(s: Setting, intents: seq<Intent>) returns (plan: Plan)
    ensures var d := AfterIntents(s, intents);
      plan == Plan(Sorting.Sort(d.steps, ByStepScore()), d.unresolved, d.cost)
  {
    hide AfterIntent, Sorting.Sort;
    var d := Draft([], [], 0.0, {});
    for i := 0 to |intents|
      invariant d == AfterIntents(s, intents[..i])
    {
      assert intents[..i + 1][..i] == intents[..i];
      d := PlanIntent(d, s, intents[i]);
    }
    assert intents[..|intents|] == intents;
    plan := Plan(Sorting.Sort(d.steps, ByStepScore()), d.unresolved, d.cost);
  }
}
