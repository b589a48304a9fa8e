/** Deep merge of two decoded JSON values: objects are unioned key by key, and at any other
    position the story side ("theirs") wins. */
module JsonMerge {
  import opened Strings

  datatype Json =
    | Null
    | Bool(b: bool)
    | Num(n: real)
    | Str(s: string)
    | Arr(items: seq<Json>)
    | Obj(fields: map<string, Json>)

  function Merge(ours: Json, theirs: Json): Json
    decreases theirs
  {
    if ours.Obj? && theirs.Obj? then
      Obj(map k | k in ours.fields.Keys + theirs.fields.Keys ::
        if k !in theirs.fields then ours.fields[k]
        else if k in ours.fields then Merge(ours.fields[k], theirs.fields[k])
        else theirs.fields[k])
    else theirs
  }

  /** The merge as it runs: the maps are walked in no particular order, into a fresh one. */
  method DeepMergeJSON(ours: Json, theirs: Json) returns (merged: Json)
    ensures merged == Merge(ours, theirs)
    decreases theirs
  {
    if !ours.Obj? || !theirs.Obj? {
      return theirs;
    }
    var result: map<string, Json> := map[];
    var todo := ours.fields.Keys;
    while todo != {}
      invariant todo <= ours.fields.Keys && result.Keys == ours.fields.Keys - todo
      invariant forall k :: k in result ==> result[k] == ours.fields[k]
    {
      var k :| k in todo;
      result := result[k := ours.fields[k]];
      todo := todo - {k};
    }
    todo := theirs.fields.Keys;
    while todo != {}
      invariant todo <= theirs.fields.Keys
      invariant result.Keys == ours.fields.Keys + (theirs.fields.Keys - todo)
      invariant forall k :: k in result ==>
        result[k] == if k in todo || k !in theirs.fields then ours.fields[k]
                     else if k in ours.fields then Merge(ours.fields[k], theirs.fields[k])
                     else theirs.fields[k]
    {
      var k :| k in todo;
      if k in result {
        var both := DeepMergeJSON(result[k], theirs.fields[k]);
        result := result[k := both];
      } else {
        result := result[k := theirs.fields[k]];
      }
      todo := todo - {k};
    }
    merged := Obj(result);
  }

  // ----- Position by position -----

  /** The value at a path of keys. */
  function Get(v: Json, path: seq<string>): Option<Json> {
    if path == [] then Some(v)
    else if v.Obj? && path[0] in v.fields then Get(v.fields[path[0]], path[1..])
    else None
  }

  /** Some value on the way to the path, or at it, is not an object. */
  predicate Blocked(v: Json, path: seq<string>) {
    !v.Obj? || (path != [] && path[0] in v.fields && Blocked(v.fields[path[0]], path[1..]))
  }

  /** What the merge holds at every path: theirs where theirs has a value (merged with ours
      if both have one), otherwise ours unless theirs put a non-object in the way. */
  lemma {:induction false} MergeAt(ours: Json, theirs: Json, path: seq<string>)
    ensures Get(Merge(ours, theirs), path) ==
            match Get(theirs, path)
            case Some(t) => Some(if Get(ours, path).Some? then Merge(Get(ours, path).value, t) else t)
            case None => if Blocked(theirs, path) then None else Get(ours, path)
    decreases |path|
  {
    if path != [] && ours.Obj? && theirs.Obj? && path[0] in ours.fields && path[0] in theirs.fields {
      MergeAt(ours.fields[path[0]], theirs.fields[path[0]], path[1..]);
    }
  }

  /** Every leaf of theirs survives, and every key of either object does. */
  lemma NothingOfTheirsIsLost(ours: Json, theirs: Json, path: seq<string>)
    requires Get(theirs, path).Some?
    ensures Get(Merge(ours, theirs), path).Some?
    ensures !Get(theirs, path).value.Obj? ==> Get(Merge(ours, theirs), path) == Get(theirs, path)
    ensures Get(theirs, path).value.Obj? && Get(ours, path).Some? && Get(ours, path).value.Obj? ==>
              Get(Merge(ours, theirs), path).value.Obj? &&
              Get(Merge(ours, theirs), path).value.fields.Keys
              == Get(ours, path).value.fields.Keys + Get(theirs, path).value.fields.Keys
  {
    MergeAt(ours, theirs, path);
  }

  // ----- Algebra -----

  lemma {:induction false} MergeIdempotent(a: Json)
    ensures Merge(a, a) == a
  {
    if a.Obj? {
      forall k | k in a.fields ensures Merge(a.fields[k], a.fields[k]) == a.fields[k] {
        MergeIdempotent(a.fields[k]);
      }
    }
  }

  /** Merging either side in again changes nothing: theirs on top, or ours underneath. */
  lemma {:induction false} MergeAbsorbs(a: Json, b: Json)
    ensures Merge(Merge(a, b), b) == Merge(a, b)
    ensures Merge(a, Merge(a, b)) == Merge(a, b)
    decreases b
  {
    MergeIdempotent(b);
    if a.Obj? && b.Obj? {
      forall k | k in a.fields.Keys + b.fields.Keys
        ensures k in a.fields && k in b.fields ==>
                  var m := Merge(a.fields[k], b.fields[k]);
                  Merge(m, b.fields[k]) == m && Merge(a.fields[k], m) == m
        ensures k in a.fields ==> Merge(a.fields[k], a.fields[k]) == a.fields[k]
        ensures k in b.fields ==> Merge(b.fields[k], b.fields[k]) == b.fields[k]
      {
        if k in a.fields {
          MergeIdempotent(a.fields[k]);
        }
        if k in b.fields {
          MergeIdempotent(b.fields[k]);
          if k in a.fields {
            MergeAbsorbs(a.fields[k], b.fields[k]);
          }
        }
      }
      assert Merge(Merge(a, b), b).fields == Merge(a, b).fields;
      assert Merge(a, Merge(a, b)).fields == Merge(a, b).fields;
    }
  }

  /** Somewhere b puts a non-object over a non-empty object of a. */
  predicate Replaces(a: Json, b: Json)
    decreases a
  {
    a.Obj? &&
    if !b.Obj? then a.fields != map[]
    else exists k :: k in a.fields && k in b.fields && Replaces(a.fields[k], b.fields[k])
  }

  lemma {:induction false} AssociativeIfNothingReplaced(a: Json, b: Json, c: Json)
    requires !Replaces(a, b)
    ensures Merge(Merge(a, b), c) == Merge(a, Merge(b, c))
    decreases c
  {
    if c.Obj? && a.Obj? && b.Obj? {
      forall k | k in a.fields && k in b.fields && k in c.fields
        ensures Merge(Merge(a.fields[k], b.fields[k]), c.fields[k])
                == Merge(a.fields[k], Merge(b.fields[k], c.fields[k]))
      {
        AssociativeIfNothingReplaced(a.fields[k], b.fields[k], c.fields[k]);
      }
      assert Merge(Merge(a, b), c).fields == Merge(a, Merge(b, c)).fields;
    }
  }

  lemma {:induction false} ReplacementBreaksAssociativity(a: Json, b: Json) returns (c: Json)
    requires Replaces(a, b)
    ensures Merge(Merge(a, b), c) != Merge(a, Merge(b, c))
    decreases a
  {
    if !b.Obj? {
      c := Obj(map[]);
      assert Merge(a, c).fields == a.fields;
    } else {
      var k :| k in a.fields && k in b.fields && Replaces(a.fields[k], b.fields[k]);
      var inner := ReplacementBreaksAssociativity(a.fields[k], b.fields[k]);
      c := Obj(map[k := inner]);
      assert Merge(Merge(a, b), c).fields[k] == Merge(Merge(a.fields[k], b.fields[k]), inner);
      assert Merge(a, Merge(b, c)).fields[k] == Merge(a.fields[k], Merge(b.fields[k], inner));
    }
  }

  /** Merging a, b and then anything can be regrouped exactly when b replaces no non-empty
      object of a by something that is not an object. */
  lemma AssociativeIff(a: Json, b: Json)
    ensures (forall c :: Merge(Merge(a, b), c) == Merge(a, Merge(b, c))) <==> !Replaces(a, b)
  {
    if Replaces(a, b) {
      var c := ReplacementBreaksAssociativity(a, b);
    } else {
      forall c ensures Merge(Merge(a, b), c) == Merge(a, Merge(b, c)) {
        AssociativeIfNothingReplaced(a, b, c);
      }
    }
  }
}
