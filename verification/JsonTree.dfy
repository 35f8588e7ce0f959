/** Nested dictionaries addressed by dotted paths: reading, writing, deleting and merging. */
module JsonTree {
  import opened Basics

  /** A `Leaf` is any value that is not a dictionary, in canonical JSON. */
  datatype Json = Leaf(value: string) | Obj(fields: map<string, Json>)

  // ---- paths ----

  /** `path.split(".")` */
  function Split(path: string): (r: seq<string>)
    ensures |r| >= 1
  {
    if path == "" then [""]
    else
      var rest := Split(path[1..]);
      if path[0] == '.' then [""] + rest else [[path[0]] + rest[0]] + rest[1..]
  }

  function Join(segs: seq<string>): string {
    if segs == [] then "" else if |segs| == 1 then segs[0] else segs[0] + "." + Join(segs[1..])
  }

  predicate DotFree(s: string) { '.' !in s }

  predicate CleanKey(s: string) { s != "" && DotFree(s) }

  lemma {:induction false} JoinOfSplit(path: string)
    ensures Join(Split(path)) == path
  {
    if path != "" {
      JoinOfSplit(path[1..]);
      var rest := Split(path[1..]);
      assert path == [path[0]] + path[1..];
      if path[0] == '.' {
        assert ([""] + rest)[1..] == rest;
      } else {
        var segs := [[path[0]] + rest[0]] + rest[1..];
        assert segs[1..] == rest[1..];
      }
    }
  }

  lemma {:induction false} SplitHead(a: string, rest: string)
    requires DotFree(a)
    ensures Split(a) == [a] && Split(a + "." + rest) == [a] + Split(rest)
  {
    if a == "" {
      assert (a + "." + rest)[1..] == rest;
    } else {
      SplitHead(a[1..], rest);
      assert a == [a[0]] + a[1..];
      assert (a + "." + rest)[1..] == a[1..] + "." + rest;
      assert ([a[1..]] + Split(rest))[1..] == Split(rest);
    }
  }

  lemma {:induction false} SplitOfJoin(segs: seq<string>)
    requires segs != [] && forall k :: k in segs ==> DotFree(k)
    ensures Split(Join(segs)) == segs
  {
    assert segs == [segs[0]] + segs[1..];
    assert forall k :: k in segs[1..] ==> k in segs;
    if |segs| == 1 {
      SplitHead(segs[0], "");
    } else {
      SplitHead(segs[0], Join(segs[1..]));
      SplitOfJoin(segs[1..]);
    }
  }

  // ---- reading ----

  function GetAt(j: Json, segs: seq<string>): Option<Json> {
    if segs == [] then Some(j)
    else if j.Obj? && segs[0] in j.fields then GetAt(j.fields[segs[0]], segs[1..]) else None
  }

  /** `get_path`; without a default a missing path raises. */
  method GetPath(data: Json, path: string, default: Option<Json>) returns (r: Result<Json>)
    ensures r == Read(data, path, default)
  {
    var current := data;
    if path == "" {
      return Ok(current);
    }
    var parts := Split(path);
    for i := 0 to |parts|
      invariant GetAt(data, parts) == GetAt(current, parts[i..])
    {
      var part := parts[i];
      assert parts[i..][1..] == parts[i + 1..];
      if current.Obj? && part in current.fields {
        current := current.fields[part];
      } else {
        return if default.Some? then Ok(default.value) else Err(KeyError);
      }
    }
    r := Ok(current);
  }

  function Read(data: Json, path: string, default: Option<Json>): Result<Json> {
    if path == "" then Ok(data)
    else
      var found := GetAt(data, Split(path));
      if found.Some? then Ok(found.value) else if default.Some? then Ok(default.value) else Err(KeyError)
  }

  // ---- writing ----

  /** `set_path`: dictionaries are created on the way, over anything that is not one. */
  function SetAt(d: map<string, Json>, segs: seq<string>, v: Json): map<string, Json>
    requires segs != []
    decreases |segs|
  {
    if |segs| == 1 then d[segs[0] := v]
    else
      var child := if segs[0] in d && d[segs[0]].Obj? then d[segs[0]].fields else map[];
      d[segs[0] := Obj(SetAt(child, segs[1..], v))]
  }

  /** Neither path leads through the other. */
  predicate Apart(p: seq<string>, q: seq<string>) { !(p <= q) && !(q <= p) }

  lemma {:induction false} NothingInEmpty(segs: seq<string>)
    requires segs != []
    ensures GetAt(Obj(map[]), segs) == None
  {
  }

  lemma OneStep(d: map<string, Json>, q: seq<string>)
    requires q != []
    ensures GetAt(Obj(d), q) == if q[0] in d then GetAt(d[q[0]], q[1..]) else None
  {
  }

  /**
   What is read after a write: below the written path the new value, and paths apart from it as before. Only paths
   that lead to the written one change besides, and those lead to dictionaries.
   */
  lemma {:induction false} ReadAfterSet(d: map<string, Json>, p: seq<string>, v: Json, q: seq<string>)
    requires p != []
    ensures p <= q ==> GetAt(Obj(SetAt(d, p, v)), q) == GetAt(v, q[|p|..])
    ensures Apart(p, q) ==> GetAt(Obj(SetAt(d, p, v)), q) == GetAt(Obj(d), q)
    ensures q < p ==> GetAt(Obj(SetAt(d, p, v)), q).Some? && GetAt(Obj(SetAt(d, p, v)), q).value.Obj?
    decreases |p|
  {
    if q != [] {
      OneStep(SetAt(d, p, v), q);
      OneStep(d, q);
      assert p == [p[0]] + p[1..] && q == [q[0]] + q[1..];
      if q[0] == p[0] {
        if |p| == 1 {
          assert p <= q;
        } else {
          var child := if p[0] in d && d[p[0]].Obj? then d[p[0]].fields else map[];
          ReadAfterSet(child, p[1..], v, q[1..]);
          assert (p <= q <==> p[1..] <= q[1..]) && (q <= p <==> q[1..] <= p[1..]);
          if p <= q { assert q[|p|..] == q[1..][|p[1..]|..]; }
          if Apart(p, q) && !(p[0] in d && d[p[0]].Obj?) { NothingInEmpty(q[1..]); }
        }
      }
    }
  }

  // ---- deleting ----

  /** `delete_path`: nothing happens if the way there is missing. */
  function DeleteAt(d: map<string, Json>, segs: seq<string>): map<string, Json>
    requires segs != []
    decreases |segs|
  {
    if |segs| == 1 then d - {segs[0]}
    else if segs[0] in d && d[segs[0]].Obj? then d[segs[0] := Obj(DeleteAt(d[segs[0]].fields, segs[1..]))]
    else d
  }

  /** What is read after a deletion: nothing at or below the deleted path, and paths apart from it as before. */
  lemma {:induction false} ReadAfterDelete(d: map<string, Json>, p: seq<string>, q: seq<string>)
    requires p != []
    ensures p <= q ==> GetAt(Obj(DeleteAt(d, p)), q) == None
    ensures Apart(p, q) ==> GetAt(Obj(DeleteAt(d, p)), q) == GetAt(Obj(d), q)
    ensures q < p ==> (GetAt(Obj(DeleteAt(d, p)), q).Some? <==> GetAt(Obj(d), q).Some?)
    decreases |p|
  {
    if q != [] {
      OneStep(DeleteAt(d, p), q);
      OneStep(d, q);
      assert p == [p[0]] + p[1..] && q == [q[0]] + q[1..];
      if q[0] == p[0] && |p| > 1 {
        assert (p <= q <==> p[1..] <= q[1..]) && (q <= p <==> q[1..] <= p[1..]);
        if p[0] in d && d[p[0]].Obj? { ReadAfterDelete(d[p[0]].fields, p[1..], q[1..]); }
      }
    }
  }

  // ---- on dotted paths ----

  /** The dotted path `q` is `p` or leads through it. */
  predicate Through(p: string, q: string) { q == p || p + "." <= q }

  lemma {:induction false} JoinBoth(a: seq<string>, b: seq<string>)
    requires a != [] && b != []
    ensures Join(a + b) == Join(a) + "." + Join(b)
  {
    if |a| == 1 {
      assert (a + b)[1..] == b;
    } else {
      assert (a + b)[1..] == a[1..] + b;
      JoinBoth(a[1..], b);
    }
  }

  lemma {:induction false} PartsAreDotFree(path: string)
    ensures forall k :: k in Split(path) ==> DotFree(k)
  {
    if path != "" {
      PartsAreDotFree(path[1..]);
      var rest := Split(path[1..]);
      assert rest[0] in rest;
      forall k | k in Split(path) ensures DotFree(k) {
        assert k in rest || k == "" || k == [path[0]] + rest[0];
      }
    }
  }

  lemma SplitAtDot(p: string, r: string)
    ensures Split(p + "." + r) == Split(p) + Split(r)
  {
    PartsAreDotFree(p);
    PartsAreDotFree(r);
    JoinOfSplit(p);
    JoinOfSplit(r);
    hide Split, Join, DotFree;
    JoinBoth(Split(p), Split(r));
    SplitOfJoin(Split(p) + Split(r));
  }

  /** What dotted paths lead through which can be seen on the strings. */
  lemma ThroughIsPrefix(p: string, q: string)
    ensures Split(p) <= Split(q) <==> Through(p, q)
  {
    JoinOfSplit(p);
    JoinOfSplit(q);
    hide Split, Join;
    if p + "." <= q {
      SplitAtDot(p, q[|p| + 1..]);
      assert q == p + "." + q[|p| + 1..];
    }
    if Split(p) <= Split(q) && Split(p) != Split(q) {
      var rest := Split(q)[|Split(p)|..];
      assert Split(q) == Split(p) + rest;
      JoinBoth(Split(p), rest);
    }
  }

  /** No tree is its own child. */
  lemma {:induction false} NotItsOwnChild(j: Json, k: string)
    ensures j.Obj? && k in j.fields ==> j.fields[k] != j
    decreases j
  {
    if j.Obj? && k in j.fields && j.fields[k] == j { NotItsOwnChild(j.fields[k], k); }
  }

  /**
   `get_path` after `set_path`, on the dotted paths that callers pass: the value comes back if and only if the path is
   not empty, for reading "" returns the whole tree while writing it fills the key "". Paths of which neither leads
   through the other are independent.
   */
  lemma GetAfterSet(d: map<string, Json>, path: string, v: Json, q: string, default: Option<Json>)
    ensures Read(Obj(SetAt(d, Split(path), v)), path, default) == Ok(v) <==> path != ""
    ensures q != "" && !Through(path, q) && !Through(q, path) ==>
      Read(Obj(SetAt(d, Split(path), v)), q, default) == Read(Obj(d), q, default)
  {
    ReadAfterSet(d, Split(path), v, Split(path));
    ReadAfterSet(d, Split(path), v, Split(q));
    ThroughIsPrefix(path, q);
    ThroughIsPrefix(q, path);
    if path == "" { NotItsOwnChild(Obj(SetAt(d, Split(path), v)), ""); }
  }

  /** `get_path` after `delete_path`: nothing is there if and only if the path is not empty. */
  lemma GetAfterDelete(d: map<string, Json>, path: string, q: string, default: Option<Json>)
    ensures Read(Obj(DeleteAt(d, Split(path))), path, None) == Err(KeyError) <==> path != ""
    ensures path != "" && default.Some? ==> Read(Obj(DeleteAt(d, Split(path))), path, default) == Ok(default.value)
    ensures q != "" && !Through(path, q) && !Through(q, path) ==>
      Read(Obj(DeleteAt(d, Split(path))), q, default) == Read(Obj(d), q, default)
  {
    ReadAfterDelete(d, Split(path), Split(path));
    ReadAfterDelete(d, Split(path), Split(q));
    ThroughIsPrefix(path, q);
    ThroughIsPrefix(q, path);
  }

  /** The empty path, written into the empty tree and read back. */
  lemma EmptyPathIsTheWholeTree(v: Json)
    ensures Read(Obj(SetAt(map[], Split(""), v)), "", None) == Ok(Obj(map["" := v])) != Ok(v)
    ensures GetAt(Obj(SetAt(map[], Split(""), v)), [""]) == Some(v)
  {
    ReadAfterSet(map[], [""], v, [""]);
    NotItsOwnChild(Obj(map["" := v]), "");
  }

  /** Deleting what was just added at a path where a dictionary lacked it restores the tree. */
  lemma {:induction false} DeleteUndoesSet(d: map<string, Json>, p: seq<string>, v: Json)
    requires p != [] && GetAt(Obj(d), p) == None
    requires GetAt(Obj(d), p[..|p| - 1]).Some? && GetAt(Obj(d), p[..|p| - 1]).value.Obj?
    ensures DeleteAt(SetAt(d, p, v), p) == d
    decreases |p|
  {
    if |p| == 1 {
      assert SetAt(d, p, v) - {p[0]} == d;
    } else {
      assert p[..|p| - 1][1..] == p[1..][..|p[1..]| - 1];
      DeleteUndoesSet(d[p[0]].fields, p[1..], v);
      assert d[p[0] := d[p[0]]] == d;
    }
  }

  // ---- merging ----

  function Merge(base: map<string, Json>, overlay: map<string, Json>): map<string, Json>
    decreases Obj(overlay)
  {
    map k | k in base.Keys + overlay.Keys ::
      if k !in overlay then base[k]
      else if k in base && base[k].Obj? && overlay[k].Obj? then Obj(Merge(base[k].fields, overlay[k].fields))
      else overlay[k]
  }

  /** Merging the same overlay a second time changes nothing. */
  lemma {:induction false} MergeIsIdempotent(base: map<string, Json>, overlay: map<string, Json>)
    ensures Merge(Merge(base, overlay), overlay) == Merge(base, overlay)
    decreases Obj(overlay)
  {
    var once := Merge(base, overlay);
    var twice := Merge(once, overlay);
    forall k | k in twice ensures twice[k] == once[k] {
      if k in overlay && overlay[k].Obj? {
        if k in base && base[k].Obj? {
          MergeIsIdempotent(base[k].fields, overlay[k].fields);
        } else {
          MergeWithItself(overlay[k].fields);
        }
      }
    }
    assert twice.Keys == once.Keys;
  }

  lemma {:induction false} MergeWithItself(d: map<string, Json>)
    ensures Merge(d, d) == d
    decreases Obj(d)
  {
    forall k | k in d ensures Merge(d, d)[k] == d[k] {
      if d[k].Obj? { MergeWithItself(d[k].fields); }
    }
    assert Merge(d, d).Keys == d.Keys;
  }

  /** How far the overlay knows a path: it has a value there, lacks a key on the way, or stops at a leaf before. */
  datatype Reach = Found(value: Json) | Lacking | Stopped

  function Follow(j: Json, segs: seq<string>): Reach {
    if segs == [] then Found(j)
    else if j.Leaf? then Stopped
    else if segs[0] !in j.fields then Lacking else Follow(j.fields[segs[0]], segs[1..])
  }

  /** What is read from a merge: the overlay where it has a leaf, the base where it lacks a key, else nothing. */
  lemma {:induction false} ReadAfterMerge(base: map<string, Json>, overlay: map<string, Json>, q: seq<string>)
    ensures match Follow(Obj(overlay), q)
      case Found(Leaf(v)) => GetAt(Obj(Merge(base, overlay)), q) == Some(Leaf(v))
      case Found(Obj(_)) => GetAt(Obj(Merge(base, overlay)), q).Some? && GetAt(Obj(Merge(base, overlay)), q).value.Obj?
      case Lacking => GetAt(Obj(Merge(base, overlay)), q) == GetAt(Obj(base), q)
      case Stopped => GetAt(Obj(Merge(base, overlay)), q) == None
    decreases |q|
  {
    if q != [] {
      OneStep(Merge(base, overlay), q);
      OneStep(base, q);
      if q[0] in overlay {
        if q[0] in base && base[q[0]].Obj? && overlay[q[0]].Obj? {
          ReadAfterMerge(base[q[0]].fields, overlay[q[0]].fields, q[1..]);
        } else {
          FollowIsGet(overlay[q[0]], q[1..]);
          if q[0] in base && q[1..] != [] { FollowLeaf(overlay[q[0]], q[1..]); }
        }
      }
    }
  }

  lemma {:induction false} FollowIsGet(j: Json, segs: seq<string>)
    ensures GetAt(j, segs) == if Follow(j, segs).Found? then Some(Follow(j, segs).value) else None
  {
    if segs != [] && j.Obj? && segs[0] in j.fields { FollowIsGet(j.fields[segs[0]], segs[1..]); }
  }

  lemma FollowLeaf(j: Json, segs: seq<string>)
    requires segs != []
    ensures j.Leaf? ==> Follow(j, segs) == Stopped
  {
  }
}
