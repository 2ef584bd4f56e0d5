/** `mergeObject` and `sanitizeObjectValue` on mutable maps and slices (pkg/k8sclient/apply.go):
    the in-place merge computes `MergeObject.Merge` and shares no mutable node with the source. */
module MergeInPlace {
  import opened MergeObject

  /** A Go `any` holding a scalar, a slice or a map. */
  datatype Any = AScalar(s: string) | AList(list: ListNode) | AMap(node: MapNode)

  class ListNode {
    var items: seq<Any>

    constructor (items: seq<Any>)
      ensures this.items == items
    {
      this.items := items;
    }
  }

  class MapNode {
    var fields: map<string, Any>

    constructor ()
      ensures fields == map[]
    {
      fields := map[];
    }
  }

  /** A snapshot of a tree of nodes: which node stands where, and a set that holds at least the
      mutable nodes of the tree. */
  datatype Tree =
    | TScalar(s: string)
    | TList(list: ListNode, items: seq<Tree>, repr: set<object>)
    | TMap(node: MapNode, fields: map<string, Tree>, repr: set<object>)

  ghost function Root(h: Tree): Any {
    match h
    case TScalar(s) => AScalar(s)
    case TList(list, _, _) => AList(list)
    case TMap(node, _, _) => AMap(node)
  }

  ghost function Repr(h: Tree): set<object> { if h.TScalar? then {} else h.repr }

  ghost function ListRoots(items: seq<Tree>): seq<Any> {
    seq(|items|, i requires 0 <= i < |items| => Root(items[i]))
  }

  ghost function Roots(fields: map<string, Tree>): map<string, Any> { map k | k in fields :: Root(fields[k]) }

  ghost function Abs(h: Tree): Value {
    match h
    case TScalar(s) => Scalar(s)
    case TList(_, items, _) => List(seq(|items|, i requires 0 <= i < |items| => Abs(items[i])))
    case TMap(_, fields, _) => Obj(map k | k in fields :: Abs(fields[k]))
  }

  ghost function AbsForest(fields: map<string, Tree>): map<string, Value> { map k | k in fields :: Abs(fields[k]) }

  /** The heap holds exactly this tree; the nodes of different subtrees are disjoint. */
  ghost predicate Holds(h: Tree)
    reads Repr(h)
    decreases h
  {
    match h
    case TScalar(_) => true
    case TList(list, items, repr) =>
      && list in repr && list.items == ListRoots(items)
      && (forall i :: 0 <= i < |items| ==> Repr(items[i]) <= repr - {list} && Holds(items[i]))
      && forall i, j :: 0 <= i < j < |items| ==> Repr(items[i]) !! Repr(items[j])
    case TMap(node, fields, repr) =>
      && node in repr && node.fields == Roots(fields)
      && (forall k :: k in fields ==> Repr(fields[k]) <= repr - {node} && Holds(fields[k]))
      && forall k, l :: k in fields && l in fields && k != l ==> Repr(fields[k]) !! Repr(fields[l])
  }

  // ---------- Forests: the disjoint subtrees of a node, within a region ----------

  ghost predicate Forest(fields: map<string, Tree>, region: set<object>)
    reads region
  {
    && (forall k :: k in fields ==> Repr(fields[k]) <= region && Holds(fields[k]))
    && forall k, l :: k in fields && l in fields && k != l ==> Repr(fields[k]) !! Repr(fields[l])
  }

  ghost predicate ListForest(items: seq<Tree>, region: set<object>)
    reads region
  {
    && (forall i :: 0 <= i < |items| ==> Repr(items[i]) <= region && Holds(items[i]))
    && forall i, j :: 0 <= i < j < |items| ==> Repr(items[i]) !! Repr(items[j])
  }

  lemma MapHolds(node: MapNode, fields: map<string, Tree>, repr: set<object>)
    ensures Holds(TMap(node, fields, repr)) <==>
            node in repr && node.fields == Roots(fields) && Forest(fields, repr - {node})
    ensures Abs(TMap(node, fields, repr)) == Obj(AbsForest(fields))
  {
    hide Root, Repr, Roots;
  }

  lemma ListHolds(list: ListNode, items: seq<Tree>, repr: set<object>)
    ensures Holds(TList(list, items, repr)) <==>
            list in repr && list.items == ListRoots(items) && ListForest(items, repr - {list})
  {
    hide Root, Repr, ListRoots;
  }

  /** The subtrees other than one live outside its nodes. */
  lemma ForestWithout(fields: map<string, Tree>, key: string, region: set<object>)
    requires Forest(fields, region) && key in fields
    ensures Holds(fields[key]) && Repr(fields[key]) <= region
    ensures Forest(fields - {key}, region - Repr(fields[key]))
  {
    hide Repr, Holds;
  }

  lemma ForestWith(fields: map<string, Tree>, key: string, t: Tree, region: set<object>)
    requires Forest(fields, region) && key !in fields && Holds(t) && region !! Repr(t)
    ensures Forest(fields[key := t], region + Repr(t))
  {
    hide Repr, Holds;
  }

  lemma ListForestWith(items: seq<Tree>, t: Tree, region: set<object>)
    requires ListForest(items, region) && Holds(t) && region !! Repr(t)
    ensures ListForest(items + [t], region + Repr(t))
  {
    hide Repr, Holds;
  }

  lemma RootsWith(fields: map<string, Tree>, key: string, t: Tree)
    ensures Roots(fields[key := t]) == Roots(fields)[key := Root(t)]
    ensures AbsForest(fields[key := t]) == AbsForest(fields)[key := Abs(t)]
    ensures Roots(fields).Keys == fields.Keys == AbsForest(fields).Keys
  {
    hide Root, Abs;
  }

  lemma RootsAt(fields: map<string, Tree>, key: string)
    requires key in fields
    ensures Roots(fields)[key] == Root(fields[key]) && AbsForest(fields)[key] == Abs(fields[key])
  {
  }

  lemma EmptyForests()
    ensures ListForest([], {}) && Forest(map[], {})
    ensures Roots(map[]) == map[]
  {
  }

  lemma RootOf(h: Tree)
    ensures h.TList? ==> Root(h) == AList(h.list) && Repr(h) == h.repr
    ensures h.TMap? ==> Root(h) == AMap(h.node) && Repr(h) == h.repr
    ensures h.TMap? <==> Root(h).AMap?
    ensures h.TMap? <==> Abs(h).Obj?
  {
  }

  // ---------- sanitizeObjectValue ----------

  /** A deep copy in fresh nodes. */
  method Sanitize(value: Any, ghost h: Tree) returns (copy: Any, ghost c: Tree)
    requires Holds(h) && Root(h) == value
    ensures Holds(c) && Root(c) == copy && fresh(Repr(c))
    ensures Abs(c) == Abs(h)
    decreases h, 4
  {
    match value
    case AScalar(s) =>
      copy, c := value, h;
    case AList(list) =>
      copy, c := SanitizeList(list, h);
    case AMap(node) =>
      copy, c := SanitizeMap(node, h);
  }

  method SanitizeList(list: ListNode, ghost h: Tree) returns (copy: Any, ghost c: Tree)
    requires Holds(h) && Root(h) == AList(list)
    ensures Holds(c) && Root(c) == copy && fresh(Repr(c))
    ensures Abs(c) == Abs(h)
    decreases h, 0
  {
    ghost var sources, inner := h.items, h.repr - {list};
    ListHolds(list, sources, h.repr);
    assert h == TList(list, sources, h.repr);
    hide Repr, Holds, Root, ListRoots, Abs;
    var items: seq<Any> := [];
    ghost var trees: seq<Tree> := [];
    ghost var region: set<object> := {};
    EmptyForests();
    ListRootsAt(sources);
    for i := 0 to |list.items|
      invariant ListForest(sources, inner) && |list.items| == |sources| && list.items == ListRoots(sources)
      invariant |items| == |trees| == i
      invariant ListForest(trees, region) && fresh(region)
      invariant forall j :: 0 <= j < i ==> items[j] == Root(trees[j]) && Abs(trees[j]) == Abs(sources[j])
    {
      var item, tree := Sanitize(list.items[i], sources[i]);
      ListForestWith(trees, tree, region);
      region := region + Repr(tree);
      items := items + [item];
      trees := trees + [tree];
    }
    var node := new ListNode(items);
    copy := AList(node);
    c := TList(node, trees, region + {node});
    ListRootsAt(trees);
    assert node.items == ListRoots(trees);
    assert region + {node} - {node} == region;
    ListHolds(node, trees, region + {node});
    SameItems(h, c);
    RootOf(c);
  }

  lemma ListRootsAt(items: seq<Tree>)
    ensures |ListRoots(items)| == |items|
    ensures forall i :: 0 <= i < |items| ==> ListRoots(items)[i] == Root(items[i])
  {
  }

  lemma SameItems(h: Tree, c: Tree)
    requires h.TList? && c.TList? && |h.items| == |c.items|
    requires forall i :: 0 <= i < |h.items| ==> Abs(h.items[i]) == Abs(c.items[i])
    ensures Abs(h) == Abs(c)
  {
    assert Abs(h).items == Abs(c).items;
  }

  /** Each tree stands for the same value as the source entry of its key. */
  ghost predicate CopiesOf(sources: map<string, Tree>, trees: map<string, Tree>) {
    forall k :: k in trees ==> k in sources && Abs(trees[k]) == Abs(sources[k])
  }

  /** The node holds copies of some source entries, and nothing else. */
  ghost predicate Copying(out: MapNode, sources: map<string, Tree>, trees: map<string, Tree>, region: set<object>)
    reads out, region
  {
    out !in region && out.fields == Roots(trees) && Forest(trees, region) && CopiesOf(sources, trees)
  }

  lemma MoreCopies(sources: map<string, Tree>, trees: map<string, Tree>, key: string, tree: Tree)
    requires CopiesOf(sources, trees) && key in sources && Abs(tree) == Abs(sources[key])
    ensures CopiesOf(sources, trees[key := tree])
  {
    hide Abs;
  }

  lemma NoCopies(out: MapNode, sources: map<string, Tree>)
    requires out.fields == map[]
    ensures Copying(out, sources, map[], {})
  {
  }

  /** Copies one entry of the source map into the copy. */
  method CopyEntry(out: MapNode, key: string, value: Any, ghost h: Tree, ghost sources: map<string, Tree>,
                   ghost trees: map<string, Tree>, ghost region: set<object>)
    returns (ghost tree: Tree)
    requires h.TMap? && sources == h.fields
    requires key in sources && Holds(sources[key]) && Root(sources[key]) == value
    requires key !in trees && Copying(out, sources, trees, region)
    modifies out
    ensures Copying(out, sources, trees[key := tree], region + Repr(tree)) && fresh(Repr(tree))
    decreases h, 1
  {
    assert out !in region && Forest(trees, region) && CopiesOf(sources, trees) && out.fields == Roots(trees);
    hide Holds, Abs, Root, Repr, Roots, Forest, CopiesOf;
    var item;
    item, tree := Sanitize(value, sources[key]);
    ForestWith(trees, key, tree, region);
    RootsWith(trees, key, tree);
    MoreCopies(sources, trees, key, tree);
    out.fields := out.fields[key := item];
  }

  /** The loop of `sanitizeObjectValue`: copies every entry of a map into a fresh one. */
  method CopyEntries(node: MapNode, out: MapNode, ghost h: Tree, ghost sources: map<string, Tree>, ghost inner: set<object>)
    returns (ghost trees: map<string, Tree>, ghost region: set<object>)
    requires h.TMap? && sources == h.fields
    requires out.fields == map[] && node.fields == Roots(sources) && node.fields.Keys == sources.Keys
    requires Forest(sources, inner) && out !in inner && out != node
    modifies out
    ensures trees.Keys == sources.Keys && Copying(out, sources, trees, region) && fresh(region)
    decreases h, 2
  {
    NoCopies(out, sources);
    hide *;
    trees, region := map[], {};
    var todo := node.fields.Keys;
    while todo != {}
      invariant todo <= sources.Keys && node.fields == Roots(sources)
      invariant Copying(out, sources, trees, region) && fresh(region) && trees.Keys == sources.Keys - todo
    {
      var key :| key in todo;
      ForestWithout(sources, key, inner);
      RootsAt(sources, key);
      ghost var tree := CopyEntry(out, key, node.fields[key], h, sources, trees, region);
      region := region + Repr(tree);
      trees := trees[key := tree];
      todo := todo - {key};
    }
  }

  method SanitizeMap(node: MapNode, ghost h: Tree) returns (copy: Any, ghost c: Tree)
    requires Holds(h) && Root(h) == AMap(node)
    ensures Holds(c) && Root(c) == copy && fresh(Repr(c))
    ensures Abs(c) == Abs(h)
    decreases h, 3
  {
    RootOf(h);
    MapHolds(node, h.fields, h.repr);
    assert h == TMap(node, h.fields, h.repr);
    hide *;
    var out := new MapNode();
    ghost var trees, region := CopyEntries(node, out, h, h.fields, h.repr - {node});
    copy := AMap(out);
    c := TMap(out, trees, region + {out});
    MapCopied(h, c, region);
  }

  lemma MapCopied(h: Tree, c: Tree, region: set<object>)
    requires h.TMap? && c.TMap? && c.repr == region + {c.node} && c.node !in region
    requires c.fields.Keys == h.fields.Keys && Copying(c.node, h.fields, c.fields, region)
    ensures Holds(c) && Root(c) == AMap(c.node) && Repr(c) == c.repr && Abs(c) == Abs(h)
  {
    assert region + {c.node} - {c.node} == region;
    MapHolds(c.node, c.fields, c.repr);
    MapHolds(h.node, h.fields, h.repr);
    SameForest(c.fields, h.fields);
  }

  lemma RootsKeys(fields: map<string, Tree>)
    ensures Roots(fields).Keys == fields.Keys == AbsForest(fields).Keys
  {
  }

  lemma SameForest(a: map<string, Tree>, b: map<string, Tree>)
    requires a.Keys == b.Keys && forall k :: k in a ==> Abs(a[k]) == Abs(b[k])
    ensures AbsForest(a) == AbsForest(b)
  {
    hide Abs;
  }

  // ---------- mergeObject ----------

  /** Keys already merged hold the merged value, the others what they held. */
  ghost predicate MergedSoFar(d: map<string, Value>, s: map<string, Value>, now: map<string, Value>, todo: set<string>) {
    && now.Keys == d.Keys + (s.Keys - todo)
    && forall k :: k in now ==> now[k] == if k in s && k !in todo then Merge(Obj(d), Obj(s)).fields[k] else d[k]
  }

  lemma MergedOne(d: map<string, Value>, s: map<string, Value>, now: map<string, Value>, todo: set<string>, key: string, v: Value)
    requires MergedSoFar(d, s, now, todo) && todo <= s.Keys && key in todo
    requires v == if s[key].Obj? && key in d && d[key].Obj? then Merge(d[key], s[key]) else s[key]
    ensures MergedSoFar(d, s, now[key := v], todo - {key})
  {
  }

  lemma NotYetMerged(d: map<string, Value>, s: map<string, Value>, now: map<string, Value>, todo: set<string>, key: string)
    requires MergedSoFar(d, s, now, todo) && key in todo
    ensures key in now <==> key in d
    ensures key in now ==> now[key] == d[key]
  {
    hide Merge;
  }

  /** Merges one key of the source into the destination. */
  method MergeEntry(dst: MapNode, key: string, srcValue: Any, ghost source: Tree, ghost fields: map<string, Tree>, ghost region: set<object>)
    returns (ghost child: Tree, ghost region': set<object>)
    requires Holds(source) && Root(source) == srcValue
    requires Forest(fields, region) && dst.fields == Roots(fields) && dst !in region
    requires Repr(source) !! region + {dst}
    modifies dst, region
    ensures Forest(fields[key := child], region') && dst.fields == Roots(fields[key := child])
    ensures fresh(region' - region) && dst !in region'
    ensures Abs(child) == if Abs(source).Obj? && key in fields && Abs(fields[key]).Obj?
                          then Merge(Abs(fields[key]), Abs(source)) else Abs(source)
    decreases source, 1
  {
    hide *;
    RootOf(source);
    RootsKeys(fields);
    ghost var rest := fields - {key};
    ghost var outside := region;
    if key in fields {
      ForestWithout(fields, key, region);
      RootOf(fields[key]);
      RootsAt(fields, key);
      outside := region - Repr(fields[key]);
    } else {
      assert rest == fields;
    }
    if srcValue.AMap? && key in dst.fields && dst.fields[key].AMap? {
      child := MergeObjectInPlace(dst.fields[key].node, srcValue.node, fields[key], source);
    } else {
      var copy;
      copy, child := Sanitize(srcValue, source);
      dst.fields := dst.fields[key := copy];
    }
    RootOf(child);
    ForestWith(rest, key, child, outside);
    assert fields[key := child] == rest[key := child];
    RootsWith(fields, key, child);
    region' := outside + Repr(child);
  }

  /** The in-place merge computes `Merge`, changes only nodes of the destination, leaves the
      source intact, and ends with no mutable node in common with it. */
  method MergeObjectInPlace(dst: MapNode, src: MapNode, ghost hd: Tree, ghost hs: Tree) returns (ghost h: Tree)
    requires Holds(hd) && Root(hd) == AMap(dst)
    requires Holds(hs) && Root(hs) == AMap(src)
    requires Repr(hd) !! Repr(hs)
    modifies Repr(hd)
    ensures Holds(h) && Root(h) == AMap(dst)
    ensures Abs(h) == Merge(Abs(hd), Abs(hs))
    ensures fresh(Repr(h) - Repr(hd))
    ensures Holds(hs) && Repr(h) !! Repr(hs)
    decreases hs, 0
  {
    ghost var fields, sources := hd.fields, hs.fields;
    ghost var region, inner := hd.repr - {dst}, hs.repr - {src};
    ghost var d, s := AbsForest(fields), AbsForest(sources);
    MapHolds(dst, fields, hd.repr);
    MapHolds(src, sources, hs.repr);
    assert hd == TMap(dst, fields, hd.repr) && hs == TMap(src, sources, hs.repr);
    RootOf(hd);
    RootOf(hs);
    NothingMerged(d, s);
    RootsKeys(sources);
    hide *;
    var todo := src.fields.Keys;
    while todo != {}
      invariant todo <= sources.Keys
      invariant Forest(sources, inner) && src.fields == Roots(sources)
      invariant Forest(fields, region) && dst.fields == Roots(fields) && dst !in region
      invariant fresh(region - hd.repr)
      invariant MergedSoFar(d, s, AbsForest(fields), todo)
    {
      var key :| key in todo;
      ForestWithout(sources, key, inner);
      RootsAt(sources, key);
      ghost var child, region' := MergeEntry(dst, key, src.fields[key], sources[key], fields, region);
      MergedEntry(d, s, fields, todo, key, child);
      fields := fields[key := child];
      region := region';
      todo := todo - {key};
    }
    h := TMap(dst, fields, region + {dst});
    MergeDone(h, hd, hs, region);
    assert Holds(TMap(src, sources, hs.repr)) by { MapHolds(src, sources, hs.repr); }
  }

  lemma MergedEntry(d: map<string, Value>, s: map<string, Value>, fields: map<string, Tree>, todo: set<string>, key: string, child: Tree)
    requires MergedSoFar(d, s, AbsForest(fields), todo) && todo <= s.Keys && key in todo
    requires Abs(child) == if s[key].Obj? && key in fields && Abs(fields[key]).Obj? then Merge(Abs(fields[key]), s[key]) else s[key]
    ensures MergedSoFar(d, s, AbsForest(fields[key := child]), todo - {key})
  {
    hide Abs, MergedSoFar;
    NotYetMerged(d, s, AbsForest(fields), todo, key);
    RootsWith(fields, key, child);
    MergedOne(d, s, AbsForest(fields), todo, key, Abs(child));
  }

  lemma MergeDone(h: Tree, hd: Tree, hs: Tree, region: set<object>)
    requires h.TMap? && hd.TMap? && hs.TMap? && h.repr == region + {h.node} && h.node !in region
    requires h.node.fields == Roots(h.fields) && Forest(h.fields, region)
    requires MergedSoFar(AbsForest(hd.fields), AbsForest(hs.fields), AbsForest(h.fields), {})
    ensures Holds(h) && Root(h) == AMap(h.node) && Repr(h) == h.repr
    ensures Abs(hd).Obj? && Abs(hs).Obj? && Abs(h) == Merge(Abs(hd), Abs(hs))
  {
    hide MergedSoFar, Merge;
    assert region + {h.node} - {h.node} == region;
    MapHolds(h.node, h.fields, h.repr);
    MapHolds(hd.node, hd.fields, hd.repr);
    MapHolds(hs.node, hs.fields, hs.repr);
    AllMerged(AbsForest(hd.fields), AbsForest(hs.fields), AbsForest(h.fields));
  }

  lemma NothingMerged(d: map<string, Value>, s: map<string, Value>)
    ensures MergedSoFar(d, s, d, s.Keys)
  {
  }

  lemma AllMerged(d: map<string, Value>, s: map<string, Value>, now: map<string, Value>)
    requires MergedSoFar(d, s, now, {})
    ensures Obj(now) == Merge(Obj(d), Obj(s))
  {
  }
}
