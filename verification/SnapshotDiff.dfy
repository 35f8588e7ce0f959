/** Comparing two snapshots of one environment, entity by entity and field by field. */
module SnapshotDiff {
  import opened Basics
  import opened JsonTree
  import opened Snapshots
  import Text

  /** An entity, or a relationship, with the digest of its content. */
  datatype Record = Record(id: Id, hash: string, body: Json)

  datatype Snapshot = Snapshot(environment: Id, entities: seq<Record>, relationships: seq<Record>)

  datatype FieldChange = FieldChange(path: string, before: Json, after: Json)

  datatype Kind = Added | Removed | Changed

  datatype Change = Change(
    id: Id, kind: Kind, beforeHash: Option<string>, afterHash: Option<string>, fields: seq<FieldChange>)

  datatype Summary = Summary(added: nat, removed: nat, changed: nat)

  datatype Diff = Diff(entities: seq<Change>, relationships: seq<Change>, entitySummary: Summary, relationshipSummary: Summary)

  // ---- fields ----

  const NULL := Leaf("null")

  /** Python's `==` on values, which takes 1, 1.0 and True as equal though they are different JSON. */
  type Same = (Json, Json) -> bool

  /** All that is used of it. */
  ghost predicate Equality(same: Same) { (forall x :: same(x, x)) && forall x, y :: same(x, y) <==> same(y, x) }

  lemma EqualBothWays(same: Same, x: Json, y: Json)
    requires Equality(same)
    ensures same(x, x) && (same(x, y) <==> same(y, x))
  {
  }

  /** `flat.get(path)`: a missing path reads like JSON's null. */
  function Lookup(flat: map<string, Json>, path: string): Json { if path in flat then flat[path] else NULL }

  function Differs(same: Same, b: map<string, Json>, a: map<string, Json>): string -> bool {
    (p: string) => !same(Lookup(b, p), Lookup(a, p))
  }

  /** `sorted(set(b) | set(a))` */
  function Union<V>(b: map<string, V>, a: map<string, V>): seq<string> { Text.Sorted(b.Keys + a.Keys) }

  lemma UnionIsUnion<V>(b: map<string, V>, a: map<string, V>)
    ensures Distinct(Union(b, a)) && Union(b, a) == Union(a, b)
    ensures forall p :: p in Union(b, a) <==> p in b || p in a
  {
    assert b.Keys + a.Keys == a.Keys + b.Keys;
  }

  function Paths(same: Same, b: map<string, Json>, a: map<string, Json>): seq<string> {
    Filter(Union(b, a), Differs(same, b, a))
  }

  function Changes(same: Same, b: map<string, Json>, a: map<string, Json>): seq<FieldChange> {
    ChangesAt(Paths(same, b, a), b, a)
  }

  function ChangesAt(paths: seq<string>, b: map<string, Json>, a: map<string, Json>): seq<FieldChange> {
    seq(|paths|, i requires 0 <= i < |paths| => FieldChange(paths[i], Lookup(b, paths[i]), Lookup(a, paths[i])))
  }

  function Patched(flat: map<string, Json>, changes: seq<FieldChange>): map<string, Json> {
    if changes == [] then flat
    else
      var n := |changes| - 1;
      Patched(flat, changes[..n])[changes[n].path := changes[n].after]
  }

  lemma PathsDiffer(same: Same, b: map<string, Json>, a: map<string, Json>)
    requires Equality(same)
    ensures forall p :: p in Paths(same, b, a) <==> !same(Lookup(b, p), Lookup(a, p))
    ensures Distinct(Paths(same, b, a))
  {
    hide Union, Filter, Equality;
    UnionIsUnion(b, a);
    EqualBothWays(same, NULL, NULL);
    FilterMembers(Union(b, a), Differs(same, b, a));
    FilterDistinct(Union(b, a), Differs(same, b, a));
  }

  /** The reported changes are exactly the paths at which Python sees a difference, each once, with what is read there. */
  lemma ChangesAreExact(same: Same, b: map<string, Json>, a: map<string, Json>, p: string)
    requires Equality(same)
    ensures (exists c :: c in Changes(same, b, a) && c.path == p) <==> !same(Lookup(b, p), Lookup(a, p))
    ensures forall c :: c in Changes(same, b, a) && c.path == p ==> c.before == Lookup(b, p) && c.after == Lookup(a, p)
    ensures forall i, j :: 0 <= i < j < |Changes(same, b, a)| ==> Changes(same, b, a)[i].path != Changes(same, b, a)[j].path
  {
    hide Lookup, Paths, Equality;
    PathsDiffer(same, b, a);
    var paths, changes := Paths(same, b, a), Changes(same, b, a);
    if p in paths {
      var i :| 0 <= i < |paths| && paths[i] == p;
      assert changes[i] in changes && changes[i].path == p;
    }
    forall c | c in changes ensures c.path in paths {
      var i :| 0 <= i < |changes| && changes[i] == c;
      assert paths[i] in paths;
    }
  }

  lemma {:induction false} PatchedReads(flat: map<string, Json>, changes: seq<FieldChange>, p: string)
    requires forall i, j :: 0 <= i < j < |changes| ==> changes[i].path != changes[j].path
    ensures (forall c :: c in changes ==> c.path != p) ==> Lookup(Patched(flat, changes), p) == Lookup(flat, p)
    ensures forall c :: c in changes && c.path == p ==> Lookup(Patched(flat, changes), p) == c.after
  {
    if changes != [] {
      var n := |changes| - 1;
      PatchedReads(flat, changes[..n], p);
      assert changes == changes[..n] + [changes[n]];
      assert forall c :: c in changes[..n] ==> c in changes;
      LookupUpdated(Patched(flat, changes[..n]), changes[n].path, changes[n].after, p);
      hide Lookup, Patched;
      forall c | c in changes && c.path == p && c != changes[n] ensures c in changes[..n] && c.path != changes[n].path {
        var i :| 0 <= i < n && changes[i] == c;
        assert changes[..n][i] == c;
      }
    }
  }

  lemma LookupUpdated(flat: map<string, Json>, q: string, v: Json, p: string)
    ensures Lookup(flat[q := v], p) == if p == q then v else Lookup(flat, p)
  {
  }

  /** Applying the changes to what was before gives what was after, as far as can be read and Python tells apart. */
  lemma PatchingReproduces(same: Same, b: map<string, Json>, a: map<string, Json>, p: string)
    requires Equality(same)
    ensures same(Lookup(Patched(b, Changes(same, b, a)), p), Lookup(a, p))
  {
    hide Changes, Patched, Equality;
    ChangesAreExact(same, b, a, p);
    PatchedReads(b, Changes(same, b, a), p);
    EqualBothWays(same, Lookup(a, p), Lookup(a, p));
    if !same(Lookup(b, p), Lookup(a, p)) {
      var c :| c in Changes(same, b, a) && c.path == p;
    }
  }

  /** Comparing the other way round swaps before and after. */
  lemma DiffReverses(same: Same, b: map<string, Json>, a: map<string, Json>)
    requires Equality(same)
    ensures |Changes(same, a, b)| == |Changes(same, b, a)|
    ensures forall i :: 0 <= i < |Changes(same, b, a)| ==>
      var c := Changes(same, b, a)[i];
      Changes(same, a, b)[i] == FieldChange(c.path, c.after, c.before)
  {
    hide Union, Filter, Equality;
    UnionIsUnion(b, a);
    forall p | p in Union(b, a) ensures Differs(same, b, a)(p) == Differs(same, a, b)(p) {
      EqualBothWays(same, Lookup(b, p), Lookup(a, p));
    }
    FilterAlike(Union(b, a), Differs(same, b, a), Differs(same, a, b));
    hide Lookup;
  }

  /** A field whose value is null is not told from a missing one. */
  lemma NullIsMissing(same: Same, flat: map<string, Json>, p: string)
    requires p !in flat && Equality(same)
    ensures Changes(same, flat, flat[p := NULL]) == []
  {
    hide Union, Filter, Equality;
    var after := flat[p := NULL];
    forall q | q in Union(flat, after) ensures !Differs(same, flat, after)(q) {
      LookupUpdated(flat, p, NULL, q);
      EqualBothWays(same, Lookup(flat, q), Lookup(flat, q));
    }
    FilterNothing(Union(flat, after), Differs(same, flat, after));
  }

  // ---- entities and relationships ----

  function ById(records: seq<Record>): map<Id, Record> {
    if records == [] then map[]
    else
      var last := records[|records| - 1];
      ById(records[..|records| - 1])[last.id := last]
  }

  predicate Differ(b: map<Id, Record>, a: map<Id, Record>, id: Id) {
    id !in b || id !in a || b[id].hash != a[id].hash
  }

  function DifferTest(b: map<Id, Record>, a: map<Id, Record>): Id -> bool { (id: Id) => Differ(b, a, id) }

  function KindOf(b: map<Id, Record>, a: map<Id, Record>, id: Id): Kind {
    if id !in b then Added else if id !in a then Removed else Changed
  }

  function HashIn(m: map<Id, Record>, id: Id): Option<string> { if id in m then Some(m[id].hash) else None }

  /** The fields are those in which the flat forms of two bodies differ. */
  ghost predicate FieldsOf(same: Same, fields: seq<FieldChange>, b: Json, a: Json) {
    exists fb, fa :: Lists(b, "", fb) && Lists(a, "", fa) && fields == Changes(same, fb, fa)
  }

  ghost predicate Describes(same: Same, c: Change, b: map<Id, Record>, a: map<Id, Record>, detailed: bool) {
    && (c.id in b || c.id in a) && c.kind == KindOf(b, a, c.id)
    && c.beforeHash == HashIn(b, c.id) && c.afterHash == HashIn(a, c.id)
    && if detailed && c.id in b && c.id in a then FieldsOf(same, c.fields, b[c.id].body, a[c.id].body) else c.fields == []
  }

  function ChangedIds(b: map<Id, Record>, a: map<Id, Record>): seq<Id> {
    Filter(Union(b, a), DifferTest(b, a))
  }

  function IdsOf(changes: seq<Change>): seq<Id> { seq(|changes|, i requires 0 <= i < |changes| => changes[i].id) }

  /** `_entity_change` and `_relationship_change` */
  method Compare(same: Same, b: map<Id, Record>, a: map<Id, Record>, id: Id, detailed: bool) returns (c: Change)
    requires id in b || id in a
    ensures c.id == id && Describes(same, c, b, a, detailed)
  {
    hide Lists, Changes;
    if id !in b {
      return Change(id, Added, None, Some(a[id].hash), []);
    }
    if id !in a {
      return Change(id, Removed, Some(b[id].hash), None, []);
    }
    var fields := [];
    if detailed {
      var before := Flatten(b[id].body, "");
      var after := Flatten(a[id].body, "");
      fields := Changes(same, before, after);
    }
    c := Change(id, Changed, Some(b[id].hash), Some(a[id].hash), fields);
  }

  method DiffRecords(same: Same, before: seq<Record>, after: seq<Record>, detailed: bool) returns (changes: seq<Change>)
    ensures IdsOf(changes) == ChangedIds(ById(before), ById(after))
    ensures forall c :: c in changes ==> Describes(same, c, ById(before), ById(after), detailed)
  {
    hide Describes, Filter, Union, ById;
    var b, a := ById(before), ById(after);
    var ids := Union(b, a);
    UnionIsUnion(b, a);
    FilterNothing(ids[..0], DifferTest(b, a));
    changes := [];
    for i := 0 to |ids|
      invariant IdsOf(changes) == Filter(ids[..i], DifferTest(b, a))
      invariant forall c :: c in changes ==> Describes(same, c, b, a, detailed)
    {
      FilterStep(ids, i, DifferTest(b, a));
      assert ids[i] in ids;
      if Differ(b, a, ids[i]) {
        var c := Compare(same, b, a, ids[i], detailed);
        assert IdsOf(changes + [c]) == IdsOf(changes) + [ids[i]];
        changes := changes + [c];
      }
    }
    assert ids[..|ids|] == ids;
  }

  function IsKind(k: Kind): Change -> bool { (c: Change) => c.kind == k }

  function Counts(changes: seq<Change>): Summary {
    Summary(|Filter(changes, IsKind(Added))|, |Filter(changes, IsKind(Removed))|, |Filter(changes, IsKind(Changed))|)
  }

  /** `diff_snapshots` */
  method DiffSnapshots(same: Same, before: Snapshot, after: Snapshot) returns (r: Result<Diff>)
    ensures r.Err? <==> before.environment != after.environment
    ensures r.Ok? ==>
      && IdsOf(r.value.entities) == ChangedIds(ById(before.entities), ById(after.entities))
      && (forall c :: c in r.value.entities ==> Describes(same, c, ById(before.entities), ById(after.entities), true))
      && IdsOf(r.value.relationships) == ChangedIds(ById(before.relationships), ById(after.relationships))
      && (forall c :: c in r.value.relationships ==>
           Describes(same, c, ById(before.relationships), ById(after.relationships), false))
      && r.value.entitySummary == Counts(r.value.entities) && r.value.relationshipSummary == Counts(r.value.relationships)
  {
    hide Describes, ChangedIds, ById;
    if before.environment != after.environment {
      return Err(ValueError);
    }
    var entities := DiffRecords(same, before.entities, after.entities, true);
    var relationships := DiffRecords(same, before.relationships, after.relationships, false);
    r := Ok(Diff(entities, relationships, Counts(entities), Counts(relationships)));
  }

  // ---- what the summary counts ----

  lemma {:induction false} DistinctSize(xs: seq<Id>, s: set<Id>)
    requires Distinct(xs) && forall x :: x in xs <==> x in s
    ensures |xs| == |s|
  {
    if xs == [] {
      assert s == {};
    } else {
      var n := |xs| - 1;
      assert xs == xs[..n] + [xs[n]];
      assert xs[n] in s && forall x :: x in xs[..n] <==> x in s - {xs[n]};
      DistinctSize(xs[..n], s - {xs[n]});
    }
  }

  lemma ChangedIdsAre(b: map<Id, Record>, a: map<Id, Record>)
    ensures Distinct(ChangedIds(b, a))
    ensures forall id :: id in ChangedIds(b, a) <==> (id in b || id in a) && Differ(b, a, id)
  {
    hide Union, Filter;
    UnionIsUnion(b, a);
    FilterMembers(Union(b, a), DifferTest(b, a));
    FilterDistinct(Union(b, a), DifferTest(b, a));
  }

  ghost predicate Exact(same: Same, changes: seq<Change>, b: map<Id, Record>, a: map<Id, Record>, detailed: bool) {
    IdsOf(changes) == ChangedIds(b, a) && forall c :: c in changes ==> Describes(same, c, b, a, detailed)
  }

  lemma DistinctChanges(changes: seq<Change>)
    requires Distinct(IdsOf(changes))
    ensures Distinct(changes)
    ensures forall c, d :: c in changes && d in changes && c.id == d.id ==> c == d
  {
    var ids := IdsOf(changes);
    assert forall i :: 0 <= i < |changes| ==> ids[i] == changes[i].id;
    forall c, d | c in changes && d in changes && c.id == d.id ensures c == d {
      var i, j :| 0 <= i < |changes| && 0 <= j < |changes| && changes[i] == c && changes[j] == d;
      assert ids[i] == ids[j];
    }
  }

  lemma KindSize(changes: seq<Change>, k: Kind, s: set<Id>)
    requires Distinct(IdsOf(changes))
    requires forall c :: c in changes && c.kind == k ==> c.id in s
    requires forall id :: id in s ==> exists c :: c in changes && c.kind == k && c.id == id
    ensures |Filter(changes, IsKind(k))| == |s|
  {
    DistinctChanges(changes);
    FilterMembers(changes, IsKind(k));
    FilterDistinct(changes, IsKind(k));
    var kept := Filter(changes, IsKind(k));
    hide Filter;
    var ids := IdsOf(kept);
    forall i, j | 0 <= i < j < |ids| ensures ids[i] != ids[j] { assert kept[i] in kept && kept[j] in kept; }
    forall id ensures id in ids <==> id in s {
      if id in ids {
        var i :| 0 <= i < |ids| && ids[i] == id;
        assert kept[i] in kept;
      }
      if id in s {
        var c :| c in changes && c.kind == k && c.id == id;
        assert c in kept;
        var i :| 0 <= i < |kept| && kept[i] == c;
        assert ids[i] == id;
      }
    }
    DistinctSize(ids, s);
  }

  lemma Listed(changes: seq<Change>, id: Id) returns (c: Change)
    requires id in IdsOf(changes)
    ensures c in changes && c.id == id
  {
    var i :| 0 <= i < |changes| && IdsOf(changes)[i] == id;
    c := changes[i];
  }

  lemma IdListed(changes: seq<Change>, c: Change)
    requires c in changes
    ensures c.id in IdsOf(changes)
  {
    var i :| 0 <= i < |changes| && changes[i] == c;
    assert IdsOf(changes)[i] == c.id;
  }

  lemma KindOfDescribed(same: Same, c: Change, b: map<Id, Record>, a: map<Id, Record>, detailed: bool)
    requires Describes(same, c, b, a, detailed)
    ensures c.kind == KindOf(b, a, c.id) && (c.id in b || c.id in a)
  {
    hide FieldsOf;
  }

  function KeysOfKind(b: map<Id, Record>, a: map<Id, Record>, k: Kind): set<Id> {
    match k
    case Added => a.Keys - b.Keys
    case Removed => b.Keys - a.Keys
    case Changed => set id | id in a && id in b && a[id].hash != b[id].hash
  }

  lemma KeysAre(b: map<Id, Record>, a: map<Id, Record>, k: Kind)
    ensures forall id :: id in KeysOfKind(b, a, k) <==> (id in b || id in a) && Differ(b, a, id) && KindOf(b, a, id) == k
  {
  }

  lemma KindCount(same: Same, changes: seq<Change>, b: map<Id, Record>, a: map<Id, Record>, detailed: bool, k: Kind)
    requires Exact(same, changes, b, a, detailed)
    ensures |Filter(changes, IsKind(k))| == |KeysOfKind(b, a, k)|
  {
    var s := KeysOfKind(b, a, k);
    KeysAre(b, a, k);
    ChangedIdsAre(b, a);
    hide ChangedIds, Describes, IdsOf, Filter, Differ, KindOf, KeysOfKind;
    forall c | c in changes && c.kind == k ensures c.id in s {
      KindOfDescribed(same, c, b, a, detailed);
      IdListed(changes, c);
    }
    forall id | id in s ensures exists c :: c in changes && c.kind == k && c.id == id {
      var c := Listed(changes, id);
      KindOfDescribed(same, c, b, a, detailed);
    }
    KindSize(changes, k, s);
  }

  lemma Sizes(b: set<Id>, a: set<Id>)
    ensures |a| + |b - a| == |b| + |a - b|
  {
    assert a == (a - b) + (a * b) && b == (b - a) + (a * b);
  }

  /** The summary is exact, and accounts for the difference in size: what came minus what went. */
  lemma SummaryIsExact(same: Same, changes: seq<Change>, b: map<Id, Record>, a: map<Id, Record>, detailed: bool)
    requires Exact(same, changes, b, a, detailed)
    ensures Counts(changes).added == |a.Keys - b.Keys| && Counts(changes).removed == |b.Keys - a.Keys|
    ensures Counts(changes).changed == |set id | id in a && id in b && a[id].hash != b[id].hash|
    ensures |a.Keys| + Counts(changes).removed == |b.Keys| + Counts(changes).added
  {
    hide Exact, Filter;
    KindCount(same, changes, b, a, detailed, Added);
    KindCount(same, changes, b, a, detailed, Removed);
    KindCount(same, changes, b, a, detailed, Changed);
    Sizes(b.Keys, a.Keys);
  }

  /** Comparing the snapshots the other way round lists the same records, additions and removals exchanged. */
  lemma RecordsDiffReverses(b: map<Id, Record>, a: map<Id, Record>, id: Id)
    ensures ChangedIds(a, b) == ChangedIds(b, a)
    ensures (id in b || id in a) ==>
      KindOf(a, b, id) == match KindOf(b, a, id) case Added => Removed case Removed => Added case Changed => Changed
  {
    hide Union, Filter;
    UnionIsUnion(b, a);
    FilterAlike(Union(b, a), DifferTest(b, a), DifferTest(a, b));
  }
}
