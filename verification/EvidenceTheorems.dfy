/** What an evidence plan promises: an intent is reported unresolved exactly when its facts are out of reach. */
module EvidenceTheorems {
  import opened Basics
  import opened EvidencePlanner
  import Sorting

  // ---- soundness ----

  /** Something existing, or a step planned for the intent, is expected to provide the fact type. */
  ghost predicate Answered(s: Setting, steps: seq<Step>, intent: Intent, f: string) {
    MatchedIn(f, s.existing) || exists p :: p in steps && p.intent == intent.id && MatchedBy(f, p.expected)
  }

  lemma {:induction false} CoverHasPick(required: set<string>, picks: seq<Collector>, x: string) returns (i: nat)
    requires x in CoverOf(required, picks)
    ensures i < |picks| && x in Expected(required, picks[i])
  {
    hide Expected;
    if x in AsSet(Expected(required, picks[0])) {
      i := 0;
    } else {
      var j := CoverHasPick(required, picks[1..], x);
      i := j + 1;
    }
  }

  lemma StepOf(intent: Intent, required: set<string>, picks: seq<Collector>, ids: nat -> string, from: nat, i: nat, x: string)
    requires i < |picks| && x in Expected(required, picks[i])
    ensures var p := StepsFor(intent, required, picks, ids, from)[i]; p.intent == intent.id && x in p.expected
  {
    hide Expected, Score, Overlap;
  }

  lemma CoveredIsMatched(required: set<string>, covered: set<string>, f: string)
    requires Covered(required, covered) && f in required
    ensures MatchedIn(f, covered)
  {
  }

  lemma OpenIs(intent: Intent, existing: set<string>, f: string)
    ensures f in Open(intent, existing) <==> f in intent.required && !MatchedIn(f, existing)
  {
  }

  lemma ResolvedIsAnswered(d: Draft, s: Setting, intent: Intent, f: string)
    requires f in intent.required && intent.id !in AfterIntent(d, s, intent).unresolved
    ensures Answered(s, AfterIntent(d, s, intent).steps, intent, f)
  {
    hide MatchedIn, Covered, Open, PicksFor, StepsFor, CoverOf, CostSum, Identities, Matches;
    var required, picks := Open(intent, s.existing), PicksFor(s, intent, d.selected);
    OpenIs(intent, s.existing, f);
    if f in required {
      assert !Satisfied(s, intent);
      CoveredIsMatched(required, CoverOf(required, picks), f);
      StepCovers(s, intent, required, picks, |d.steps|, f);
      var p :| p in StepsFor(intent, required, picks, s.ids, |d.steps|) && p.intent == intent.id && MatchedBy(f, p.expected);
      assert p in AfterIntent(d, s, intent).steps;
    }
  }

  lemma StepCovers(s: Setting, intent: Intent, required: set<string>, picks: seq<Collector>, from: nat, f: string)
    requires MatchedIn(f, CoverOf(required, picks))
    ensures exists p :: p in StepsFor(intent, required, picks, s.ids, from) && p.intent == intent.id && MatchedBy(f, p.expected)
  {
    hide Matches, Expected, CoverOf, StepFor;
    var x :| x in CoverOf(required, picks) && Matches(f, x);
    var i := CoverHasPick(required, picks, x);
    StepOf(intent, required, picks, s.ids, from, i, x);
    var p := StepsFor(intent, required, picks, s.ids, from)[i];
    assert p in StepsFor(intent, required, picks, s.ids, from) && MatchedBy(f, p.expected);
  }

  lemma DraftsGrow(d: Draft, s: Setting, intent: Intent)
    ensures d.steps <= AfterIntent(d, s, intent).steps && d.unresolved <= AfterIntent(d, s, intent).unresolved
  {
    hide PicksFor, StepsFor, Covered, CoverOf, CostSum, Identities, Open;
  }

  /**
   Soundness. An intent that the plan does not report unresolved has each of its required fact types matched by an
   existing one or by one that a step of its own is expected to provide.
   */
  lemma {:induction false} ResolvedIntentsAreAnswered(s: Setting, intents: seq<Intent>, i: nat, f: string)
    requires i < |intents| && f in intents[i].required
    requires intents[i].id !in AfterIntents(s, intents).unresolved
    ensures Answered(s, AfterIntents(s, intents).steps, intents[i], f)
  {
    hide AfterIntent, MatchedIn, MatchedBy;
    var n := |intents| - 1;
    var before := AfterIntents(s, intents[..n]);
    DraftsGrow(before, s, intents[n]);
    if i == n {
      ResolvedIsAnswered(before, s, intents[n], f);
    } else {
      ResolvedIntentsAreAnswered(s, intents[..n], i, f);
    }
  }

  /** The final order of the steps does not matter for that. */
  lemma PlanKeepsSteps(s: Setting, intents: seq<Intent>, f: string, intent: Intent)
    ensures Answered(s, Sorting.Sort(AfterIntents(s, intents).steps, ByStepScore()), intent, f)
      <==> Answered(s, AfterIntents(s, intents).steps, intent, f)
  {
    Sorting.SortKeeps(AfterIntents(s, intents).steps, ByStepScore());
    hide AfterIntents, MatchedIn, MatchedBy, Sorting.Sort;
  }

  // ---- completeness ----

  /** The candidates within the pass's reach, but for those that earlier copies of the intent have selected. */
  function Reachable(s: Setting, intent: Intent, selected: set<Identity>): seq<Collector> {
    var required := Open(intent, s.existing);
    Reach(intent, required, Left(intent, Candidates(s.catalog, intent, s.context), selected))
  }

  /** Some required fact type is matched by nothing existing and by no reachable collector. */
  ghost predicate Unmet(s: Setting, intent: Intent, selected: set<Identity>) {
    exists f :: f in Open(intent, s.existing) && forall c :: c in Reachable(s, intent, selected) ==> !MatchedBy(f, c.factTypes)
  }

  lemma CandidatesAreDistinct(s: Setting, intent: Intent)
    requires DistinctCollectors(s.catalog)
    ensures DistinctCollectors(Candidates(s.catalog, intent, s.context))
  {
    hide Sorting.Sort, Filter, Suits, DistinctCollectors, ByScore;
    var kept := Filter(s.catalog, Suits(intent, s.context));
    DistinctElements(s.catalog);
    FilterMembers(s.catalog, Suits(intent, s.context));
    FilterDistinct(s.catalog, Suits(intent, s.context));
    Sorting.SortKeeps(kept, ByScore(intent));
    Sorting.SortDistinct(kept, ByScore(intent));
    DistinctAmong(s.catalog, Sorting.Sort(kept, ByScore(intent)));
  }

  lemma DistinctElements(cs: seq<Collector>)
    requires DistinctCollectors(cs)
    ensures Distinct(cs)
  {
  }

  lemma DistinctAmong(catalog: seq<Collector>, cs: seq<Collector>)
    requires DistinctCollectors(catalog) && Distinct(cs) && forall c :: c in cs ==> c in catalog
    ensures DistinctCollectors(cs)
  {
    forall i, j | 0 <= i < j < |cs| ensures cs[i].id != cs[j].id {
      assert cs[i] in cs && cs[j] in cs;
      var k :| 0 <= k < |catalog| && catalog[k] == cs[i];
      var l :| 0 <= l < |catalog| && catalog[l] == cs[j];
    }
  }

  lemma CoveredUnlessUnmet(s: Setting, intent: Intent, selected: set<Identity>)
    requires DistinctCollectors(s.catalog)
    ensures Covered(Open(intent, s.existing), CoverOf(Open(intent, s.existing), PicksFor(s, intent, selected)))
      <==> !Unmet(s, intent, selected)
  {
    var required, cands := Open(intent, s.existing), Candidates(s.catalog, intent, s.context);
    CandidatesAreDistinct(s, intent);
    GreedyCoversItsReach(intent, required, cands, {}, selected);
    var reach := Reachable(s, intent, selected);
    assert {} + CoverOf(required, PicksFor(s, intent, selected)) == CoverOf(required, PicksFor(s, intent, selected));
    assert {} + CoverOf(required, reach) == CoverOf(required, reach);
    forall f | f in required
      ensures MatchedIn(f, CoverOf(required, reach)) <==> exists c :: c in reach && MatchedBy(f, c.factTypes)
    {
      CoverIsProvided(required, reach, f);
    }
    hide Open, Candidates, CoverOf, Picks, Reachable, MatchedIn, MatchedBy, IdentityOf;
  }

  predicate SameIntent(a: Intent, b: Intent) {
    a.id == b.id && Sorting.Sort(a.subjects, Alphabetical()) == Sorting.Sort(b.subjects, Alphabetical())
  }

  /** What has been selected by the time a list of intents is planned. */
  function Taken(s: Setting, intents: seq<Intent>): set<Identity> { AfterIntents(s, intents).selected }

  /** An earlier copy of the intent has chosen a collector of that name. */
  ghost predicate TakenByCopy(s: Setting, intents: seq<Intent>, intent: Intent, c: Collector) {
    exists i, d ::
      0 <= i < |intents| && SameIntent(intents[i], intent) && !Satisfied(s, intents[i])
      && d in PicksFor(s, intents[i], Taken(s, intents[..i])) && d.id == c.id
  }

  lemma {:induction false} IdentitiesAre(intent: Intent, picks: seq<Collector>, x: Identity)
    ensures x in Identities(intent, picks) <==> exists d :: d in picks && x == IdentityOf(d, intent)
  {
    hide IdentityOf;
    if picks != [] {
      var n := |picks| - 1;
      IdentitiesAre(intent, picks[..n], x);
      assert picks == picks[..n] + [picks[n]];
    }
  }

  lemma TakenSnoc(s: Setting, intents: seq<Intent>, x: Identity)
    requires intents != []
    ensures var n := |intents| - 1;
      var mine := Identities(intents[n], PicksFor(s, intents[n], Taken(s, intents[..n])));
      x in Taken(s, intents) <==> x in Taken(s, intents[..n]) || (!Satisfied(s, intents[n]) && x in mine)
  {
    hide PicksFor, StepsFor, Covered, CoverOf, CostSum, Identities, Open;
  }

  lemma SameIdentity(a: Intent, b: Intent, c: Collector, d: Collector)
    ensures IdentityOf(c, a) == IdentityOf(d, b) <==> SameIntent(a, b) && c.id == d.id
  {
    hide Sorting.Sort;
  }

  /** A candidate is out of the running exactly when an earlier copy of the intent has chosen it. */
  lemma {:induction false} TakenExactly(s: Setting, intents: seq<Intent>, intent: Intent, c: Collector)
    ensures IdentityOf(c, intent) in Taken(s, intents) <==> TakenByCopy(s, intents, intent, c)
  {
    hide Taken, PicksFor, IdentityOf, SameIntent, Satisfied;
    if intents == [] {
      NothingTaken(s);
    } else {
      var n := |intents| - 1;
      var x, picks := IdentityOf(c, intent), PicksFor(s, intents[n], Taken(s, intents[..n]));
      TakenExactly(s, intents[..n], intent, c);
      TakenSnoc(s, intents, x);
      IdentitiesAre(intents[n], picks, x);
      forall d { SameIdentity(intents[n], intent, d, c); }
      assert forall i :: 0 <= i <= n ==> intents[..n][..i] == intents[..i];
      if TakenByCopy(s, intents[..n], intent, c) {
        var i, d :|
          0 <= i < n && SameIntent(intents[..n][i], intent) && !Satisfied(s, intents[..n][i])
          && d in PicksFor(s, intents[..n][i], Taken(s, intents[..n][..i])) && d.id == c.id;
        assert SameIntent(intents[i], intent) && d in PicksFor(s, intents[i], Taken(s, intents[..i]));
      }
      if TakenByCopy(s, intents, intent, c) {
        var i, d :|
          0 <= i < |intents| && SameIntent(intents[i], intent) && !Satisfied(s, intents[i])
          && d in PicksFor(s, intents[i], Taken(s, intents[..i])) && d.id == c.id;
        if i < n {
          assert SameIntent(intents[..n][i], intent) && d in PicksFor(s, intents[..n][i], Taken(s, intents[..n][..i]));
        } else {
          assert x == IdentityOf(d, intents[n]);
        }
      }
    }
  }

  lemma NothingTaken(s: Setting)
    ensures Taken(s, []) == {}
  {
  }

  ghost function UnmetIds(s: Setting, intents: seq<Intent>): seq<Id> {
    if intents == [] then []
    else
      var n := |intents| - 1;
      UnmetIds(s, intents[..n]) + if Unmet(s, intents[n], Taken(s, intents[..n])) then [intents[n].id] else []
  }

  lemma OneMoreIntent(d: Draft, s: Setting, intent: Intent)
    requires DistinctCollectors(s.catalog)
    ensures AfterIntent(d, s, intent).unresolved == d.unresolved + if Unmet(s, intent, d.selected) then [intent.id] else []
  {
    hide DistinctCollectors, PicksFor, StepsFor, CostSum, Identities, Covered, CoverOf, IdentityOf, Reachable, Open;
    CoveredUnlessUnmet(s, intent, d.selected);
    assert d.unresolved + [] == d.unresolved;
  }

  /**
   Exactness, for every list of intents, repeated ones included. The report lists, in order, exactly the intents with a
   required fact type that nothing existing matches and that no candidate within reach provides, where the candidates
   that earlier copies of the intent have chosen do not count.
   */
  lemma {:induction false} ReportIsExact(s: Setting, intents: seq<Intent>)
    requires DistinctCollectors(s.catalog)
    ensures AfterIntents(s, intents).unresolved == UnmetIds(s, intents)
  {
    hide AfterIntent, Unmet, DistinctCollectors;
    if intents != [] {
      var n := |intents| - 1;
      ReportIsExact(s, intents[..n]);
      OneMoreIntent(AfterIntents(s, intents[..n]), s, intents[n]);
    }
  }

  /** An intent that is the first of its kind loses no candidate. */
  lemma FirstCopiesLoseNothing(s: Setting, intents: seq<Intent>, intent: Intent)
    requires forall i :: 0 <= i < |intents| ==> !SameIntent(intents[i], intent)
    ensures Unmet(s, intent, Taken(s, intents)) <==> Unmet(s, intent, {})
  {
    var cands := Candidates(s.catalog, intent, s.context);
    forall c | c in cands ensures IdentityOf(c, intent) !in Taken(s, intents) { TakenExactly(s, intents, intent, c); }
    LeftAlike(intent, cands, Taken(s, intents), {});
    hide Open, Candidates, Taken, MatchedBy, IdentityOf, Left, Reach;
  }

  /** Alone, an intent is reported exactly when it is unmet with every candidate in the running. */
  lemma FirstReport(s: Setting, intent: Intent)
    requires DistinctCollectors(s.catalog)
    ensures AfterIntents(s, [intent]).unresolved == if Unmet(s, intent, {}) then [intent.id] else []
  {
    ReportIsExact(s, [intent]);
    NothingTaken(s);
    assert [intent][..0] == [];
    hide AfterIntents, Unmet, Taken;
  }

  lemma {:induction false} ReachIsAll(intent: Intent, required: set<string>, cands: seq<Collector>)
    requires intent.stopping != FirstAuthoritativeAnswer
    ensures Reach(intent, required, cands) == cands
  {
    hide Useful;
    if cands != [] { ReachIsAll(intent, required, cands[1..]); }
  }

  /** Without the early stop, unmet means that no admissible collector provides the type, but for those chosen before. */
  lemma UnmetMeansNoProvider(s: Setting, intent: Intent, selected: set<Identity>)
    requires intent.stopping != FirstAuthoritativeAnswer
    ensures Unmet(s, intent, selected) <==>
      exists f :: f in intent.required && !MatchedIn(f, s.existing)
        && forall c :: c in s.catalog && Admissible(c, s.context) && IdentityOf(c, intent) !in selected ==>
             !MatchedBy(f, c.factTypes)
  {
    var cands := Candidates(s.catalog, intent, s.context);
    ReachIsAll(intent, Open(intent, s.existing), Left(intent, cands, selected));
    forall f ensures f in Open(intent, s.existing) <==> f in intent.required && !MatchedIn(f, s.existing) {
      OpenIs(intent, s.existing, f);
    }
    forall f | f in intent.required
      ensures (forall c :: c in Reachable(s, intent, selected) ==> !MatchedBy(f, c.factTypes))
        <==> forall c :: c in s.catalog && Admissible(c, s.context) && IdentityOf(c, intent) !in selected ==>
               !MatchedBy(f, c.factTypes)
    {
      NoProvider(s, intent, selected, f);
    }
    hide Candidates, Reach, Left, MatchedBy, MatchedIn, Admissible, Open, Reachable, IdentityOf;
  }

  lemma NoProvider(s: Setting, intent: Intent, selected: set<Identity>, f: string)
    requires f in intent.required
    requires Reachable(s, intent, selected) == Left(intent, Candidates(s.catalog, intent, s.context), selected)
    ensures (forall c :: c in Reachable(s, intent, selected) ==> !MatchedBy(f, c.factTypes))
      <==> forall c :: c in s.catalog && Admissible(c, s.context) && IdentityOf(c, intent) !in selected ==>
             !MatchedBy(f, c.factTypes)
  {
    LeftMembers(intent, Candidates(s.catalog, intent, s.context), selected);
    forall c
      ensures c in Reachable(s, intent, selected) && MatchedBy(f, c.factTypes)
        <==> c in s.catalog && Admissible(c, s.context) && IdentityOf(c, intent) !in selected && MatchedBy(f, c.factTypes)
    {
      ProvidersAreCandidates(s.catalog, intent, s.context, c);
    }
    hide Candidates, MatchedBy, Admissible, Reachable, IdentityOf;
  }

  /** With it, a fact type can be left out although an admissible collector provides it. */
  lemma EarlyStopMisses(s: Setting, intent: Intent, first: Collector, second: Collector, f: string)
    requires intent.stopping == FirstAuthoritativeAnswer && first.authority == Authoritative
    requires Candidates(s.catalog, intent, s.context) == [first, second]
    requires f in Open(intent, s.existing) && MatchedBy(f, second.factTypes) && !MatchedBy(f, first.factTypes)
    requires Useful(Open(intent, s.existing), first)
    ensures Unmet(s, intent, {}) && second in s.catalog && Admissible(second, s.context)
  {
    var required, cands := Open(intent, s.existing), Candidates(s.catalog, intent, s.context);
    assert second in cands;
    ProvidersAreCandidates(s.catalog, intent, s.context, second);
    hide Candidates, Open, Useful, MatchedBy, Admissible, IdentityOf;
    LeftOfTwo(intent, first, second);
    assert Reach(intent, required, [first, second]) == [first];
  }

  lemma LeftOfTwo(intent: Intent, first: Collector, second: Collector)
    ensures Left(intent, [first, second], {}) == [first, second]
  {
    hide IdentityOf;
    assert [first, second][1..] == [second] && [second][1..] == [];
    assert Left(intent, [second], {}) == [second];
  }

  // ---- an early stop ----

  const EXPERT := Collector("a", [], ["f"], {"fixture"}, {}, {}, Authoritative, LowCost)
  const OTHER := Collector("b", [], ["g"], {"fixture"}, {}, {}, HighAuthority, LowCost)
  const BOTH := Intent("i", [], [], ["f", "g"], [], HighAuthority, FirstAuthoritativeAnswer)
  const PAIR := Setting([EXPERT, OTHER], Context("fixture", {}), {}, n => "s")

  lemma ProvideOneEach()
    ensures MatchedBy("f", EXPERT.factTypes) && !MatchedBy("g", EXPERT.factTypes)
    ensures MatchedBy("g", OTHER.factTypes) && !MatchedBy("f", OTHER.factTypes)
  {
    assert Matches("f", "f") && Matches("g", "g") && !Matches("f", "g") && !Matches("g", "f");
    assert "f" in EXPERT.factTypes && "g" in OTHER.factTypes;
  }

  lemma OneFactEach()
    ensures FactOverlap(EXPERT, BOTH) == 1 && FactOverlap(OTHER, BOTH) == 1
    ensures Overlap(EXPERT.questions, BOTH.questions) == {} == Overlap(OTHER.questions, BOTH.questions)
  {
    ProvideOneEach();
    hide MatchedBy;
    assert ["f", "g"] == ["f"] + ["g"] && ["f"] == [] + ["f"];
    FilterSnoc(["f"], "g", IsMatchedBy(EXPERT.factTypes));
    FilterSnoc(["f"], "g", IsMatchedBy(OTHER.factTypes));
    FilterOne("f", IsMatchedBy(EXPERT.factTypes));
    FilterOne("f", IsMatchedBy(OTHER.factTypes));
  }

  lemma ExpertFirst()
    ensures Candidates(PAIR.catalog, BOTH, PAIR.context) == [EXPERT, OTHER]
  {
    OneFactEach();
    hide FactOverlap, Overlap, Sorting.Sort, Filter;
    var p, leq := Suits(BOTH, PAIR.context), ByScore(BOTH);
    assert p(EXPERT) && p(OTHER);
    FilterOne(EXPERT, p);
    FilterSnoc([EXPERT], OTHER, p);
    assert [EXPERT, OTHER] == [EXPERT] + [OTHER];
    assert Score(EXPERT, BOTH) > Score(OTHER, BOTH);
    hide Score;
    Sorting.SortedPair(EXPERT, OTHER, leq);
  }

  lemma BothAreOpen()
    ensures "f" in Open(BOTH, PAIR.existing) && "g" in Open(BOTH, PAIR.existing)
    ensures Useful(Open(BOTH, PAIR.existing), EXPERT) && DistinctCollectors(PAIR.catalog)
  {
    assert forall x :: !MatchedIn(x, {});
    assert "f" in BOTH.required && "g" in BOTH.required;
    var required := Open(BOTH, PAIR.existing);
    assert "f" in EXPERT.factTypes && Matches("f", "f");
    WantedIfMatched(required, "f", "f");
    ExpectedAre(required, EXPERT, "f");
  }

  /** Two facts and a collector for each: the plan stops at the authoritative one and reports the intent. */
  lemma EarlyStopLeavesOneOut()
    ensures AfterIntents(PAIR, [BOTH]).unresolved == ["i"]
    ensures OTHER in PAIR.catalog && Admissible(OTHER, PAIR.context) && MatchedBy("g", OTHER.factTypes)
  {
    ExpertFirst();
    ProvideOneEach();
    BothAreOpen();
    hide Candidates, Open, Useful, MatchedBy, Admissible, AfterIntents, DistinctCollectors;
    EarlyStopMisses(PAIR, BOTH, EXPERT, OTHER, "g");
    FirstReport(PAIR, BOTH);
  }

  // ---- a repeated intent ----

  const WATCHER := Collector("c", [], ["f"], {"fixture"}, {}, {}, HighAuthority, LowCost)
  const ASK := Intent("i", [], [], ["f"], [], HighAuthority, AllRequiredFacts)
  const ALONE := Setting([WATCHER], Context("fixture", {}), {}, n => "s")

  lemma AskIsOpen()
    ensures Open(ASK, {}) == {"f"} && !Satisfied(ALONE, ASK) && DistinctCollectors(ALONE.catalog)
  {
    assert "f" in ASK.required && !MatchedIn("f", {});
  }

  lemma WatcherProvides()
    ensures MatchedBy("f", WATCHER.factTypes) && Admissible(WATCHER, ALONE.context)
  {
    assert "f" in WATCHER.factTypes && Matches("f", "f");
  }

  /** With one collector and no early stop, an intent for one type is unmet exactly when the collector is taken. */
  lemma AskIsUnmet(selected: set<Identity>)
    ensures Unmet(ALONE, ASK, selected) <==> IdentityOf(WATCHER, ASK) in selected
  {
    UnmetMeansNoProvider(ALONE, ASK, selected);
    WatcherProvides();
    assert !MatchedIn("f", ALONE.existing);
    hide Unmet, IdentityOf, MatchedBy, Admissible, MatchedIn;
    assert "f" in ASK.required && WATCHER in ALONE.catalog;
  }

  lemma FirstCopyTakes()
    ensures IdentityOf(WATCHER, ASK) in Taken(ALONE, [ASK])
  {
    AskIsOpen();
    AskIsUnmet({});
    FirstReport(ALONE, ASK);
    CoveredUnlessUnmet(ALONE, ASK, {});
    hide Unmet, IdentityOf;
    NothingTaken(ALONE);
    var picks := PicksFor(ALONE, ASK, {});
    assert CoverOf({"f"}, []) == {} && !MatchedIn("f", {});
    assert Covered({"f"}, CoverOf({"f"}, picks)) && !Covered({"f"}, {});
    assert picks != [];
    PicksAreCatalogued(picks[0]);
    assert [ASK][..0] == [];
    TakenExactly(ALONE, [ASK], ASK, WATCHER);
    assert SameIntent([ASK][0], ASK) && picks[0] in PicksFor(ALONE, [ASK][0], Taken(ALONE, [ASK][..0]));
  }

  lemma PicksAreCatalogued(c: Collector)
    requires c in PicksFor(ALONE, ASK, {})
    ensures c == WATCHER
  {
    var required, cands := Open(ASK, ALONE.existing), Candidates(ALONE.catalog, ASK, ALONE.context);
    PicksAmong(ASK, required, cands, {}, {}, c);
    ProvidersAreCandidates(ALONE.catalog, ASK, ALONE.context, c);
  }

  lemma {:induction false} PicksAmong(
    intent: Intent, required: set<string>, cands: seq<Collector>, covered: set<string>, selected: set<Identity>, c: Collector)
    requires c in Picks(intent, required, cands, covered, selected)
    ensures c in cands
  {
    hide Useful, IdentityOf, StopsEarly, Covered, Expected;
    if c != cands[0] {
      var now := covered + AsSet(Expected(required, cands[0]));
      if c in Picks(intent, required, cands[1..], covered, selected) {
        PicksAmong(intent, required, cands[1..], covered, selected, c);
      } else {
        PicksAmong(intent, required, cands[1..], now, selected + {IdentityOf(cands[0], intent)}, c);
      }
      assert c in cands[1..];
    }
  }

  /** Asking twice for what one collector provides: the first copy is resolved, the second is reported. */
  lemma RepeatedIntentIsUnresolved()
    ensures AfterIntents(ALONE, [ASK]).unresolved == []
    ensures AfterIntents(ALONE, [ASK, ASK]).unresolved == ["i"]
  {
    AskIsOpen();
    AskIsUnmet({});
    NothingTaken(ALONE);
    FirstReport(ALONE, ASK);
    FirstCopyTakes();
    AskIsUnmet(Taken(ALONE, [ASK]));
    ReportIsExact(ALONE, [ASK, ASK]);
    ReportIsExact(ALONE, [ASK]);
    hide AfterIntents, Unmet, IdentityOf, Taken;
    assert [ASK, ASK][..1] == [ASK];
  }
}
