/** The recursive manifest merge (pkg/k8sclient/apply.go, mergeObject), on values. */
module MergeObject {
  import opened Wrappers

  /** A decoded JSON value; a `resource.Quantity` counts as a scalar. */
  datatype Value = Scalar(s: string) | List(items: seq<Value>) | Obj(fields: map<string, Value>)

  /** The live object `d` after the manifest `s` is merged into it. */
  function Merge(d: Value, s: Value): Value
    requires d.Obj? && s.Obj?
    decreases s
  {
    Obj(map k | k in d.fields.Keys + s.fields.Keys ::
          if k !in s.fields then d.fields[k]
          else if s.fields[k].Obj? && k in d.fields && d.fields[k].Obj? then Merge(d.fields[k], s.fields[k])
          else s.fields[k])
  }

  // ---------- Reading a tree at a path ----------

  function Lookup(v: Value, path: seq<string>): Option<Value> {
    if path == [] then Some(v)
    else if v.Obj? && path[0] in v.fields then Lookup(v.fields[path[0]], path[1..])
    else None
  }

  /** The path runs into a scalar or a list of `v`, so nothing below it can survive. */
  predicate CutsOff(v: Value, path: seq<string>) {
    path != [] && (!v.Obj? || (path[0] in v.fields && CutsOff(v.fields[path[0]], path[1..])))
  }

  /** The merge at every path: what the manifest says wins, lists and scalars replaced whole;
      where both sides hold an object they are merged; a live path that the manifest neither
      mentions nor cuts off is unchanged. */
  lemma {:induction false} MergeAtEveryPath(d: Value, s: Value, path: seq<string>)
    requires d.Obj? && s.Obj?
    ensures var there, live := Lookup(s, path), Lookup(d, path);
            Lookup(Merge(d, s), path) ==
              if there.Some? then
                if there.value.Obj? && live.Some? && live.value.Obj? then Some(Merge(live.value, there.value)) else there
              else if CutsOff(s, path) then None
              else live
    decreases path
  {
    if path != [] {
      var k, rest := path[0], path[1..];
      if k in s.fields && s.fields[k].Obj? && k in d.fields && d.fields[k].Obj? {
        MergeAtEveryPath(d.fields[k], s.fields[k], rest);
      } else if k in s.fields {
        ReplacedSubtree(s.fields[k], if k in d.fields then d.fields[k] else Scalar(""), rest);
      }
    }
  }

  /** Below a replaced key the result is the manifest's, and it cuts off whatever it lacks. */
  lemma {:induction false} ReplacedSubtree(there: Value, live: Value, path: seq<string>)
    requires !(there.Obj? && live.Obj?)
    ensures Lookup(there, path).None? && !CutsOff(there, path) ==> Lookup(live, path).None?
    ensures Lookup(there, path).Some? && Lookup(there, path).value.Obj? ==>
              Lookup(live, path).None? || !Lookup(live, path).value.Obj?
  {
  }

  /** Applying a manifest to itself changes nothing. */
  lemma {:induction false} MergeSelf(s: Value)
    requires s.Obj?
    ensures Merge(s, s) == s
  {
    forall k | k in s.fields && s.fields[k].Obj? ensures Merge(s.fields[k], s.fields[k]) == s.fields[k] {
      MergeSelf(s.fields[k]);
    }
  }

  /** Applying a manifest twice is applying it once. */
  lemma {:induction false} MergeTwice(d: Value, s: Value)
    requires d.Obj? && s.Obj?
    ensures Merge(Merge(d, s), s) == Merge(d, s)
    decreases s
  {
    var once := Merge(d, s);
    forall k | k in s.fields && s.fields[k].Obj?
      ensures once.fields[k].Obj? && Merge(once.fields[k], s.fields[k]) == once.fields[k]
    {
      if k in d.fields && d.fields[k].Obj? {
        MergeTwice(d.fields[k], s.fields[k]);
      } else {
        MergeSelf(s.fields[k]);
      }
    }
    var twice := Merge(once, s);
    assert twice.fields.Keys == once.fields.Keys;
    forall k | k in once.fields ensures twice.fields[k] == once.fields[k] {
    }
  }
}
