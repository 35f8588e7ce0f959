/** Flattening observed state to dotted paths, and comparing two snapshots of an environment. */
module Snapshots {
  import opened Basics
  import opened JsonTree
  import Text

  predicate Clean(j: Json) { j.Obj? ==> forall k :: k in j.fields ==> CleanKey(k) && Clean(j.fields[k]) }

  predicate LeafAt(j: Json, segs: seq<string>) { GetAt(j, segs).Some? && GetAt(j, segs).value.Leaf? }

  /** `f"{prefix}.{key}" if prefix else str(key)` */
  function Extend(prefix: string, key: string): string { if prefix == "" then key else prefix + "." + key }

  /** The path under which `_flatten` lists what it finds along the keys `segs`. */
  function Under(prefix: string, segs: seq<string>): string
    decreases |segs|
  {
    if segs == [] then prefix else Under(Extend(prefix, segs[0]), segs[1..])
  }

  ghost predicate LeadsTo(j: Json, prefix: string, segs: seq<string>, p: string) {
    LeafAt(j, segs) && Under(prefix, segs) == p
  }

  /** The flat form lists the paths of the leaves and nothing else, each with the value of some leaf at that path. */
  ghost predicate Lists(j: Json, prefix: string, flat: map<string, Json>) {
    && (forall segs :: LeafAt(j, segs) ==> Under(prefix, segs) in flat)
    && (forall p :: p in flat ==> exists segs :: LeadsTo(j, prefix, segs, p) && GetAt(j, segs) == Some(flat[p]))
  }

  /** Leaves at the same dotted path have the same value. */
  ghost predicate Unambiguous(j: Json, prefix: string) {
    forall a, b :: LeafAt(j, a) && LeafAt(j, b) && Under(prefix, a) == Under(prefix, b) ==> GetAt(j, a) == GetAt(j, b)
  }

  /** The flat form lists every leaf with its own value. */
  ghost predicate IsFlat(j: Json, prefix: string, flat: map<string, Json>) {
    && (forall p :: p in flat <==> exists segs :: LeafAt(j, segs) && Under(prefix, segs) == p)
    && (forall segs :: LeafAt(j, segs) && Under(prefix, segs) in flat ==> flat[Under(prefix, segs)] == GetAt(j, segs).value)
  }

  lemma {:induction false} LeavesAreClean(j: Json, segs: seq<string>)
    requires Clean(j) && LeafAt(j, segs)
    ensures forall k :: k in segs ==> CleanKey(k)
  {
    if segs != [] {
      LeavesAreClean(j.fields[segs[0]], segs[1..]);
      assert segs == [segs[0]] + segs[1..];
    }
  }

  lemma {:induction false} UnderIsJoin(prefix: string, segs: seq<string>)
    requires segs != [] && forall k :: k in segs ==> CleanKey(k)
    ensures Under(prefix, segs) == Extend(prefix, Join(segs))
    decreases |segs|
  {
    var k, rest := segs[0], segs[1..];
    assert segs == [k] + rest;
    if rest == [] {
      assert Under(Extend(prefix, k), []) == Extend(prefix, k);
    } else {
      var step, below := Extend(prefix, k), Join(rest);
      UnderIsJoin(step, rest);
      assert k in segs && step != "" && |step| >= 1;
      assert Under(prefix, segs) == step + "." + below && Join(segs) == k + "." + below;
      hide Under, Join;
      if prefix != "" { assert (prefix + "." + k) + "." + below == prefix + "." + (k + "." + below); }
    }
  }

  lemma UnderIsInjective(prefix: string, a: seq<string>, b: seq<string>)
    requires (forall k :: k in a ==> CleanKey(k)) && (forall k :: k in b ==> CleanKey(k))
    requires a != [] && b != [] && Under(prefix, a) == Under(prefix, b)
    ensures a == b
  {
    UnderIsJoin(prefix, a);
    UnderIsJoin(prefix, b);
    SplitOfJoin(a);
    SplitOfJoin(b);
    hide Under;
    if prefix != "" {
      assert Join(a) == (prefix + "." + Join(a))[|prefix| + 1..];
      assert Join(b) == (prefix + "." + Join(b))[|prefix| + 1..];
    }
  }

  lemma LeafStep(d: map<string, Json>, segs: seq<string>)
    requires segs != []
    ensures LeafAt(Obj(d), segs) <==> segs[0] in d && LeafAt(d[segs[0]], segs[1..])
    ensures segs[0] in d ==> GetAt(Obj(d), segs) == GetAt(d[segs[0]], segs[1..])
  {
  }

  // ---- flattening ----

  /** The flat form of the fields in `done` of a dictionary. */
  ghost predicate PartlyLists(d: map<string, Json>, prefix: string, done: set<string>, flat: map<string, Json>) {
    && (forall segs :: segs != [] && segs[0] in done && LeafAt(Obj(d), segs) ==> Under(prefix, segs) in flat)
    && (forall p :: p in flat ==>
         exists segs :: LeadsTo(Obj(d), prefix, segs, p) && GetAt(Obj(d), segs) == Some(flat[p]))
  }

  lemma ChildListed(d: map<string, Json>, prefix: string, k: string, sub: map<string, Json>, segs: seq<string>)
    requires k in d && Lists(d[k], Extend(prefix, k), sub)
    requires segs != [] && segs[0] == k && LeafAt(Obj(d), segs)
    ensures Under(prefix, segs) in sub
  {
    LeafStep(d, segs);
    assert LeafAt(d[k], segs[1..]);
  }

  lemma ChildOnly(d: map<string, Json>, prefix: string, k: string, sub: map<string, Json>, p: string)
    returns (segs: seq<string>)
    requires k in d && Lists(d[k], Extend(prefix, k), sub) && p in sub
    ensures LeadsTo(Obj(d), prefix, segs, p) && GetAt(Obj(d), segs) == Some(sub[p])
  {
    var rest :| LeadsTo(d[k], Extend(prefix, k), rest, p) && GetAt(d[k], rest).value == sub[p];
    segs := [k] + rest;
    assert segs[1..] == rest;
    LeafStep(d, segs);
  }

  lemma ListOne(
    d: map<string, Json>, prefix: string, done: set<string>, flat: map<string, Json>, k: string, sub: map<string, Json>)
    requires PartlyLists(d, prefix, done, flat) && k in d && Lists(d[k], Extend(prefix, k), sub)
    ensures PartlyLists(d, prefix, done + {k}, flat + sub)
  {
    hide Lists, Under, LeafAt, GetAt;
    var all := flat + sub;
    forall p | p in all
      ensures exists segs :: LeadsTo(Obj(d), prefix, segs, p) && GetAt(Obj(d), segs) == Some(all[p])
    {
      if p in sub {
        var segs := ChildOnly(d, prefix, k, sub, p);
      } else {
        var segs :| LeadsTo(Obj(d), prefix, segs, p) && GetAt(Obj(d), segs) == Some(flat[p]);
      }
    }
    forall segs | segs != [] && segs[0] in done + {k} && LeafAt(Obj(d), segs) ensures Under(prefix, segs) in all {
      if segs[0] == k { ChildListed(d, prefix, k, sub, segs); }
    }
  }

  lemma ListAll(d: map<string, Json>, prefix: string, flat: map<string, Json>)
    requires PartlyLists(d, prefix, d.Keys, flat)
    ensures Lists(Obj(d), prefix, flat)
  {
    hide Under;
    forall segs | LeafAt(Obj(d), segs) ensures segs != [] && segs[0] in d.Keys {
      assert segs == [] ==> GetAt(Obj(d), segs) == Some(Obj(d));
      LeafStep(d, segs);
    }
  }

  lemma LeafLists(j: Json, prefix: string)
    requires j.Leaf?
    ensures Lists(j, prefix, map[prefix := j])
  {
    forall segs | LeafAt(j, segs) ensures segs == [] {
    }
    assert LeadsTo(j, prefix, [], prefix);
  }

  lemma NothingListed(d: map<string, Json>, prefix: string)
    ensures PartlyLists(d, prefix, {}, map[])
  {
  }

  /** `_flatten`, for any keys and any order of the fields. */
  method Flatten(value: Json, prefix: string) returns (flat: map<string, Json>)
    ensures Lists(value, prefix, flat)
    decreases value
  {
    hide *;
    if value.Leaf? {
      LeafLists(value, prefix);
      return map[prefix := value];
    }
    var d := value.fields;
    var keys: set<string>, done: set<string> := d.Keys, {};
    flat := map[];
    NothingListed(d, prefix);
    while keys != {}
      invariant keys <= d.Keys && done == d.Keys - keys
      invariant PartlyLists(d, prefix, done, flat)
      decreases |keys|
    {
      var key :| key in keys;
      var path := Extend(prefix, key);
      var sub := Flatten(d[key], path);
      ListOne(d, prefix, done, flat, key, sub);
      flat := flat + sub;
      keys := keys - {key};
      done := done + {key};
      assert done == d.Keys - keys;
    }
    assert done == d.Keys;
    ListAll(d, prefix, flat);
  }

  // ---- when the flat form is well defined ----

  lemma FlatExactly(j: Json, prefix: string, flat: map<string, Json>)
    requires Lists(j, prefix, flat)
    ensures IsFlat(j, prefix, flat) <==> Unambiguous(j, prefix)
  {
    hide GetAt, Under;
    if Unambiguous(j, prefix) {
      forall segs | LeafAt(j, segs) && Under(prefix, segs) in flat
        ensures flat[Under(prefix, segs)] == GetAt(j, segs).value
      {
        var other :| LeadsTo(j, prefix, other, Under(prefix, segs)) && GetAt(j, other) == Some(flat[Under(prefix, segs)]);
      }
    }
  }

  lemma OtherValueListed(j: Json, prefix: string, flat: map<string, Json>, segs: seq<string>)
    requires Lists(j, prefix, flat) && LeafAt(j, segs)
    ensures Lists(j, prefix, flat[Under(prefix, segs) := GetAt(j, segs).value])
  {
    hide GetAt, Under;
    var p, v := Under(prefix, segs), GetAt(j, segs).value;
    var other := flat[p := v];
    assert LeadsTo(j, prefix, segs, p);
    forall q | q in other
      ensures exists s :: LeadsTo(j, prefix, s, q) && GetAt(j, s) == Some(other[q])
    {
      if q != p { var s :| LeadsTo(j, prefix, s, q) && GetAt(j, s) == Some(flat[q]); }
    }
  }

  lemma SomeOther(j: Json, prefix: string, flat: map<string, Json>) returns (other: map<string, Json>)
    requires Lists(j, prefix, flat) && !Unambiguous(j, prefix)
    ensures Lists(j, prefix, other) && other != flat
  {
    hide GetAt, Under, Lists;
    var a, b :| LeafAt(j, a) && LeafAt(j, b) && Under(prefix, a) == Under(prefix, b) && GetAt(j, a) != GetAt(j, b);
    OtherValueListed(j, prefix, flat, a);
    OtherValueListed(j, prefix, flat, b);
    var p := Under(prefix, a);
    var x, y := flat[p := GetAt(j, a).value], flat[p := GetAt(j, b).value];
    assert x[p] != y[p];
    other := if x == flat then y else x;
  }

  /**
   The flat form lists every leaf with its own value, and is the only one that lists the leaves, if and only if no two
   leaves share a dotted path and differ.
   */
  lemma FlatIsDetermined(j: Json, prefix: string, flat: map<string, Json>)
    requires Lists(j, prefix, flat)
    ensures IsFlat(j, prefix, flat) <==> Unambiguous(j, prefix)
    ensures Unambiguous(j, prefix) <==> forall other :: Lists(j, prefix, other) ==> other == flat
  {
    FlatExactly(j, prefix, flat);
    hide Unambiguous, Lists, IsFlat;
    if Unambiguous(j, prefix) {
      forall other | Lists(j, prefix, other) ensures other == flat { SameFlat(j, prefix, flat, other); }
    } else {
      var other := SomeOther(j, prefix, flat);
    }
  }

  lemma SameFlat(j: Json, prefix: string, a: map<string, Json>, b: map<string, Json>)
    requires Lists(j, prefix, a) && Lists(j, prefix, b) && Unambiguous(j, prefix)
    ensures a == b
  {
    hide GetAt, Under;
    forall p | p in a || p in b ensures p in a && p in b && a[p] == b[p] {
      if p in a { var s :| LeadsTo(j, prefix, s, p) && GetAt(j, s) == Some(a[p]); assert Under(prefix, s) in b; }
      if p in b { var s :| LeadsTo(j, prefix, s, p) && GetAt(j, s) == Some(b[p]); assert Under(prefix, s) in a; }
      var s :| LeadsTo(j, prefix, s, p) && GetAt(j, s) == Some(a[p]);
      var r :| LeadsTo(j, prefix, r, p) && GetAt(j, r) == Some(b[p]);
    }
    assert a.Keys == b.Keys;
  }

  /** Clean keys are enough, but not needed: a label key with dots does no harm as long as it collides with nothing. */
  lemma CleanIsUnambiguous(j: Json)
    requires Clean(j)
    ensures Unambiguous(j, "")
  {
    forall a, b | LeafAt(j, a) && LeafAt(j, b) && Under("", a) == Under("", b) ensures a == b {
      LeavesAreClean(j, a);
      LeavesAreClean(j, b);
      if a != [] && b != [] {
        UnderIsInjective("", a, b);
      } else {
        assert GetAt(j, []) == Some(j);
        assert a == [] || b == [];
        assert j.Leaf?;
      }
    }
  }

  const COLLIDING := Obj(map["a" := Obj(map["b" := Leaf("1")]), "a.b" := Leaf("2")])

  /** A dotted key can collide with a nested one, and then one of the two values is lost. */
  lemma DottedKeysCollide()
    ensures LeafAt(COLLIDING, ["a", "b"]) && LeafAt(COLLIDING, ["a.b"]) && !Unambiguous(COLLIDING, "")
  {
    var a, b := ["a", "b"], ["a.b"];
    assert a[1..] == ["b"] && ["b"][1..] == [] && b[1..] == [];
    assert GetAt(COLLIDING, a) == GetAt(Obj(map["b" := Leaf("1")]), ["b"]) == GetAt(Leaf("1"), []);
    assert GetAt(COLLIDING, b) == GetAt(Leaf("2"), []);
    assert Under("", a) == Under("a", ["b"]) == Under("a.b", []);
    assert Under("", b) == Under("a.b", []);
  }

  /** `_flatten` and `get_path` agree: the listed paths are exactly those at which `get_path` finds no dictionary. */
  lemma FlatAgreesWithRead(t: Json, flat: map<string, Json>, p: string)
    requires t.Obj? && Clean(t) && IsFlat(t, "", flat)
    ensures p in flat <==> Read(t, p, None).Ok? && Read(t, p, None).value.Leaf?
    ensures p in flat ==> Read(t, p, None) == Ok(flat[p])
  {
    JoinOfSplit(p);
    if LeafAt(t, Split(p)) {
      LeavesAreClean(t, Split(p));
      UnderIsJoin("", Split(p));
    }
    hide Clean, CleanKey, Split, Join, Under;
    if p in flat {
      var segs :| LeafAt(t, segs) && Under("", segs) == p;
      LeavesAreClean(t, segs);
      CleanPath(segs);
      if segs != [] { UnderIsJoin("", segs); }
    }
  }

  lemma CleanPath(segs: seq<string>)
    requires forall k :: k in segs ==> CleanKey(k)
    ensures segs != [] ==> Split(Join(segs)) == segs && Join(segs) != ""
  {
    if segs != [] {
      SplitOfJoin(segs);
      assert Split("") == [""] && CleanKey(segs[0]);
    }
  }

  /** Two leaves at different places are listed under different paths. */
  lemma LeavesAreListedOnce(t: Json, a: seq<string>, b: seq<string>)
    requires t.Obj? && Clean(t) && LeafAt(t, a) && LeafAt(t, b) && Under("", a) == Under("", b)
    ensures a == b
  {
    LeavesAreClean(t, a);
    LeavesAreClean(t, b);
    UnderIsInjective("", a, b);
  }

  // ---- a flat form determines its tree, but for empty dictionaries ----

  predicate NoEmpty(j: Json) { j.Obj? ==> j.fields != map[] && forall k :: k in j.fields ==> NoEmpty(j.fields[k]) }

  lemma {:induction false} HasLeaf(j: Json) returns (segs: seq<string>)
    requires NoEmpty(j)
    ensures LeafAt(j, segs)
    decreases j
  {
    if j.Leaf? {
      segs := [];
    } else {
      var k :| k in j.fields;
      var rest := HasLeaf(j.fields[k]);
      segs := [k] + rest;
      assert segs[1..] == rest;
    }
  }

  lemma {:induction false} SameLeavesSameTree(a: Json, b: Json)
    requires NoEmpty(a) && NoEmpty(b)
    requires forall segs :: (LeafAt(a, segs) || LeafAt(b, segs)) ==> GetAt(a, segs) == GetAt(b, segs)
    ensures a == b
    decreases a
  {
    if a.Leaf? || b.Leaf? {
      assert LeafAt(a, []) || LeafAt(b, []);
      assert GetAt(a, []) == GetAt(b, []);
    } else {
      SameKeys(a.fields, b.fields);
      forall k | k in a.fields ensures a.fields[k] == b.fields[k] {
        forall segs | LeafAt(a.fields[k], segs) || LeafAt(b.fields[k], segs)
          ensures GetAt(a.fields[k], segs) == GetAt(b.fields[k], segs)
        {
          assert ([k] + segs)[1..] == segs;
          LeafStep(a.fields, [k] + segs);
          LeafStep(b.fields, [k] + segs);
        }
        SameLeavesSameTree(a.fields[k], b.fields[k]);
      }
      assert a.fields == b.fields;
    }
  }

  lemma SameKeys(a: map<string, Json>, b: map<string, Json>)
    requires NoEmpty(Obj(a)) && NoEmpty(Obj(b))
    requires forall segs :: (LeafAt(Obj(a), segs) || LeafAt(Obj(b), segs)) ==> GetAt(Obj(a), segs) == GetAt(Obj(b), segs)
    ensures a.Keys == b.Keys
  {
    forall k | k in a.Keys || k in b.Keys ensures k in a.Keys && k in b.Keys {
      var rest := HasLeaf(if k in a then a[k] else b[k]);
      var segs := [k] + rest;
      assert segs[1..] == rest;
      LeafStep(a, segs);
      LeafStep(b, segs);
    }
  }

  /** Two trees of clean keys and without empty dictionaries that flatten alike are the same. */
  lemma FlatDetermines(a: Json, b: Json, flat: map<string, Json>)
    requires Clean(a) && Clean(b) && NoEmpty(a) && NoEmpty(b) && a.Obj? && b.Obj?
    requires IsFlat(a, "", flat) && IsFlat(b, "", flat)
    ensures a == b
  {
    forall segs | LeafAt(a, segs) || LeafAt(b, segs) ensures GetAt(a, segs) == GetAt(b, segs) {
      hide NoEmpty, Clean, Under;
      if LeafAt(a, segs) { SameLeaf(a, b, flat, segs); } else { SameLeaf(b, a, flat, segs); }
    }
    hide LeafAt, GetAt, IsFlat, Clean, NoEmpty;
    SameLeavesSameTree(a, b);
  }

  lemma SameLeaf(a: Json, b: Json, flat: map<string, Json>, segs: seq<string>)
    requires Clean(a) && Clean(b) && a.Obj? && b.Obj? && IsFlat(a, "", flat) && IsFlat(b, "", flat) && LeafAt(a, segs)
    ensures GetAt(a, segs) == GetAt(b, segs)
  {
    hide Clean, CleanKey, Under;
    assert Under("", segs) in flat;
    var other :| LeafAt(b, other) && Under("", other) == Under("", segs);
    LeavesAreClean(a, segs);
    LeavesAreClean(b, other);
    UnderIsInjective("", segs, other);
  }
}
