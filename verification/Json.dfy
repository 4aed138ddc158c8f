/** JSON values and the merge that accumulates provider metadata. */
module Json {
  import opened Wrappers

  /** Object members are unordered, so equal objects are equal values. */
  datatype Value = Null | Bool(b: bool) | Number(text: string) | String(s: string)
                 | Array(items: seq<Value>) | Object(members: map<string, Value>)

  /** What merging `overlay` into `target` leaves in `target`. Null is a value like any other. */
  function Merge(target: Value, overlay: Value): Value
    decreases overlay
  {
    if target.Object? && overlay.Object? then
      Object(map k | k in target.members.Keys + overlay.members.Keys :: MergeMember(target, overlay, k))
    else overlay
  }

  function MergeMember(target: Value, overlay: Value, k: string): Value
    requires target.Object? && overlay.Object? && (k in target.members || k in overlay.members)
    decreases overlay, 0
  {
    if k !in overlay.members then target.members[k]
    else if k !in target.members then overlay.members[k]
    else Merge(target.members[k], overlay.members[k])
  }

  /** The merge of the overlay keys visited so far. */
  ghost predicate MergedSoFar(target: map<string, Value>, overlay: map<string, Value>, done: set<string>,
                              now: map<string, Value>) {
    && done <= overlay.Keys
    && now.Keys == target.Keys + done
    && forall k :: k in now ==>
         now[k] == if k !in done then target[k] else MergeMember(Object(target), Object(overlay), k)
  }

  /**
   * Merges member by member, in whatever order the overlay yields its keys; a key
   * the target lacks starts out as null.
   */
  method MergeInto(target: Value, overlay: Value) returns (merged: Value)
    ensures merged == Merge(target, overlay)
    decreases overlay
  {
    if target.Object? && overlay.Object? {
      var members := target.members;
      var todo := overlay.members.Keys;
      while todo != {}
        invariant todo <= overlay.members.Keys
        invariant MergedSoFar(target.members, overlay.members, overlay.members.Keys - todo, members)
        decreases todo
      {
        var key :| key in todo;
        var entry := if key in members then members[key] else Null;
        entry := MergeInto(entry, overlay.members[key]);
        members := members[key := entry];
        todo := todo - {key};
      }
      merged := Object(members);
    } else {
      merged := overlay;
    }
  }

  // ---------- the algebra of merging ----------

  lemma MergeAt(a: Value, b: Value, k: string)
    requires a.Object? && b.Object?
    ensures Merge(a, b).Object?
    ensures k in Merge(a, b).members <==> k in a.members || k in b.members
    ensures k in a.members || k in b.members ==> Merge(a, b).members[k] == MergeMember(a, b, k)
  {
  }

  lemma {:induction false} MergeIdempotent(a: Value)
    ensures Merge(a, a) == a
  {
    if a.Object? {
      forall k | k in a.members ensures Merge(a.members[k], a.members[k]) == a.members[k] {
        MergeIdempotent(a.members[k]);
      }
      assert Merge(a, a).members == a.members;
    }
  }

  /** Merging the same overlay twice is merging it once. */
  lemma {:induction false} MergeAbsorbs(a: Value, b: Value)
    ensures Merge(Merge(a, b), b) == Merge(a, b)
    decreases b
  {
    if a.Object? && b.Object? {
      var ab := Merge(a, b);
      forall k | k in ab.members ensures Merge(ab, b).members[k] == ab.members[k] {
        MergeAt(a, b, k);
        MergeAt(ab, b, k);
        if k in b.members {
          if k in a.members {
            MergeAbsorbs(a.members[k], b.members[k]);
          } else {
            MergeIdempotent(b.members[k]);
          }
        }
      }
      assert Merge(ab, b).members == ab.members;
    } else {
      MergeIdempotent(b);
    }
  }

  // ---------- where a merged value comes from ----------

  /** What stands at the end of a path of keys. */
  function At(v: Value, path: seq<string>): Option<Value>
    decreases |path|
  {
    if path == [] then Some(v)
    else if v.Object? && path[0] in v.members then At(v.members[path[0]], path[1..])
    else None
  }

  /** The value says nothing about the path: on the way down it is an object without the next key. */
  predicate Silent(v: Value, path: seq<string>)
    decreases |path|
  {
    path != [] && v.Object? && (path[0] in v.members ==> Silent(v.members[path[0]], path[1..]))
  }

  /** A leaf of a merge is one of the overlay, or one of the target on which the overlay is silent. */
  lemma {:induction false} MergeLeafIff(a: Value, b: Value, path: seq<string>, leaf: Value)
    requires !leaf.Object?
    ensures At(Merge(a, b), path) == Some(leaf) <==>
              At(b, path) == Some(leaf) || (At(a, path) == Some(leaf) && Silent(b, path))
    decreases |path|
  {
    if path != [] && a.Object? && b.Object? {
      MergeAt(a, b, path[0]);
      if path[0] in a.members && path[0] in b.members {
        MergeLeafIff(a.members[path[0]], b.members[path[0]], path[1..], leaf);
      }
    }
  }

  /** Every object `a` holds is matched in `c`, key by key: merging `c` over `a` leaves nothing of `a`. */
  predicate Covered(a: Value, c: Value)
    decreases c
  {
    a.Object? && c.Object? ==>
      forall k :: k in a.members ==> k in c.members && Covered(a.members[k], c.members[k])
  }

  lemma {:induction false} CoveredIffOverwritten(a: Value, c: Value)
    ensures Merge(a, c) == c <==> Covered(a, c)
    decreases c
  {
    if a.Object? && c.Object? {
      forall k | k in a.members && k in c.members
        ensures Merge(a.members[k], c.members[k]) == c.members[k] <==> Covered(a.members[k], c.members[k])
      {
        CoveredIffOverwritten(a.members[k], c.members[k]);
      }
      if Covered(a, c) {
        assert Merge(a, c).members == c.members;
      }
      if Merge(a, c) == c {
        forall k | k in a.members ensures k in c.members && Covered(a.members[k], c.members[k]) {
          assert k in Merge(a, c).members;
          assert Merge(a, c).members[k] == c.members[k];
        }
      }
    }
  }

  /**
   * Grouping matters at a path where the outer values are objects and the middle
   * one is not, unless the last one covers the first there.
   */
  predicate Clash(a: Value, b: Value, c: Value)
    decreases b
  {
    a.Object? && c.Object? &&
    if b.Object? then
      exists k :: k in b.members && k in a.members && k in c.members && Clash(a.members[k], b.members[k], c.members[k])
    else !Covered(a, c)
  }

  /** No path has objects in both outer values and something else in the middle. */
  predicate Layered(a: Value, b: Value, c: Value)
    decreases b
  {
    a.Object? && c.Object? ==>
      b.Object? && forall k :: k in b.members && k in a.members && k in c.members ==>
                     Layered(a.members[k], b.members[k], c.members[k])
  }

  lemma {:induction false} LayeredNeverClashes(a: Value, b: Value, c: Value)
    requires Layered(a, b, c)
    ensures !Clash(a, b, c)
    decreases b
  {
    if a.Object? && c.Object? {
      forall k | k in b.members && k in a.members && k in c.members
        ensures !Clash(a.members[k], b.members[k], c.members[k])
      {
        LayeredNeverClashes(a.members[k], b.members[k], c.members[k]);
      }
    }
  }

  /** Merging is associative exactly when nothing clashes. */
  lemma {:induction false} MergeAssociativeIff(a: Value, b: Value, c: Value)
    ensures Merge(Merge(a, b), c) == Merge(a, Merge(b, c)) <==> !Clash(a, b, c)
    decreases b
  {
    if a.Object? && b.Object? && c.Object? {
      var left, right := Merge(Merge(a, b), c), Merge(a, Merge(b, c));
      forall k | k in left.members ensures k in right.members
      ensures left.members[k] == right.members[k] <==>
                !(k in b.members && k in a.members && k in c.members && Clash(a.members[k], b.members[k], c.members[k]))
      {
        MergeAt(a, b, k);
        MergeAt(b, c, k);
        MergeAt(Merge(a, b), c, k);
        MergeAt(a, Merge(b, c), k);
        if k in b.members && k in a.members && k in c.members {
          MergeAssociativeIff(a.members[k], b.members[k], c.members[k]);
        }
      }
      assert left.members.Keys == right.members.Keys;
      if !Clash(a, b, c) {
        assert left.members == right.members;
      }
    } else if a.Object? && c.Object? {
      CoveredIffOverwritten(a, c);
    }
  }

  /** A null between two objects: merged first with the one before it, it hides what that held. */
  lemma MergeDependsOnGrouping(key: string)
    ensures var a, b, c := Object(map[key := Null]), Null, Object(map[]);
            Merge(Merge(a, b), c) == c && Merge(a, Merge(b, c)) == a && a != c
  {
    var a, c := Object(map[key := Null]), Object(map[]);
    assert Merge(a, c).members == a.members;
    assert key in a.members && key !in c.members;
  }
}
