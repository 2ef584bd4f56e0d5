/** Get / merge / Update with conflict retries (pkg/access/manager.go, applyUnstructured). */
module OptimisticApply {
  import opened Text
  import opened Wrappers

  type StringMap = map<string, string>

  datatype OwnerReference = OwnerReference(apiVersion: string, kind: string, name: string, uid: string, controller: bool)

  datatype Meta = Meta(labels: StringMap, annotations: StringMap, finalizers: seq<string>, owners: seq<OwnerReference>)

  /** A stored object; `body` is everything outside the merged metadata. */
  datatype Object = Object(meta: Meta, body: string, rv: nat)

  // ---------- Merging metadata ----------

  function OwnerReferenceKey(o: OwnerReference): string {
    if o.uid != "" then o.uid else o.apiVersion + "/" + o.kind + "/" + o.name
  }

  function Same(s: string): string { s }

  function Keys<T>(s: seq<T>, key: T -> string): seq<string> {
    seq(|s|, i requires 0 <= i < |s| => key(s[i]))
  }

  /** The first element of every key, in order. */
  function DedupBy<T>(s: seq<T>, key: T -> string): seq<T> {
    if s == [] then []
    else
      var n := |s| - 1;
      var d := DedupBy(s[..n], key);
      if key(s[n]) in Keys(d, key) then d else d + [s[n]]
  }

  /** `mergeStringSlice` and `mergeOwnerReferences`. */
  function MergeBy<T>(existing: seq<T>, desired: seq<T>, key: T -> string): seq<T> {
    if |existing| == 0 then desired else DedupBy(existing + desired, key)
  }

  function MergeMeta(existing: Meta, desired: Meta): Meta {
    Meta(existing.labels + desired.labels,
         existing.annotations + desired.annotations,
         MergeBy(existing.finalizers, desired.finalizers, Same),
         MergeBy(existing.owners, desired.owners, OwnerReferenceKey))
  }

  method CopyInto(base: StringMap, entries: StringMap) returns (merged: StringMap)
    ensures merged == base + entries
  {
    merged := base;
    var todo := entries.Keys;
    while todo != {}
      invariant todo <= entries.Keys && merged.Keys == base.Keys + (entries.Keys - todo)
      invariant forall k :: k in merged ==> merged[k] == if k in entries && k !in todo then entries[k] else base[k]
    {
      var key :| key in todo;
      merged := merged[key := entries[key]];
      todo := todo - {key};
    }
  }

  method MergeStringMap(existing: StringMap, desired: StringMap) returns (merged: StringMap)
    ensures merged == existing + desired
  {
    assert map[] + existing == existing;
    if |existing| == 0 && |desired| == 0 {
      return map[];
    }
    merged := CopyInto(map[], existing);
    merged := CopyInto(merged, desired);
  }

  method MergeSlices<T>(existing: seq<T>, desired: seq<T>, key: T -> string) returns (merged: seq<T>)
    ensures merged == MergeBy(existing, desired, key)
  {
    if |existing| == 0 {
      return desired;
    }
    var seen: set<string> := {};
    merged := [];
    ghost var all := existing + desired;
    hide DedupBy, Keys, Elements;
    DedupStart(key);
    for i := 0 to |existing|
      invariant merged == DedupBy(all[..i], key) && seen == Elements(Keys(merged, key))
    {
      var value := existing[i];
      assert all[..i + 1] == all[..i] + [value];
      DedupSnoc(all[..i], value, key);
      KeysMember(merged, key, key(value));
      if key(value) in seen {
        continue;
      }
      KeysSnoc(merged, value, key);
      seen := seen + {key(value)};
      merged := merged + [value];
    }
    ghost var n := |existing|;
    for i := 0 to |desired|
      invariant merged == DedupBy(all[..n + i], key) && seen == Elements(Keys(merged, key))
    {
      var value := desired[i];
      assert all[..n + i + 1] == all[..n + i] + [value];
      DedupSnoc(all[..n + i], value, key);
      KeysMember(merged, key, key(value));
      if key(value) in seen {
        continue;
      }
      KeysSnoc(merged, value, key);
      seen := seen + {key(value)};
      merged := merged + [value];
    }
    assert all[..|all|] == all;
  }

  lemma DedupStart<T>(key: T -> string)
    ensures DedupBy([], key) == [] && Elements(Keys([], key)) == {}
  {
  }

  lemma DedupSnoc<T>(s: seq<T>, x: T, key: T -> string)
    ensures var d := DedupBy(s, key); DedupBy(s + [x], key) == if key(x) in Keys(d, key) then d else d + [x]
  {
    assert (s + [x])[..|s|] == s;
  }

  lemma KeysMember<T>(s: seq<T>, key: T -> string, k: string)
    ensures k in Keys(s, key) <==> k in Elements(Keys(s, key))
    ensures k in Keys(s, key) <==> exists i :: 0 <= i < |s| && key(s[i]) == k
  {
    assert forall i :: 0 <= i < |s| ==> Keys(s, key)[i] == key(s[i]);
  }

  lemma KeysSnoc<T>(s: seq<T>, x: T, key: T -> string)
    ensures Keys(s + [x], key) == Keys(s, key) + [key(x)]
    ensures Elements(Keys(s + [x], key)) == Elements(Keys(s, key)) + {key(x)}
  {
    assert Keys(s + [x], key) == Keys(s, key) + [key(x)];
    ElementsSnoc(Keys(s, key), key(x));
  }

  // ---------- What a merge keeps ----------

  /** No key twice; the same keys; and a longer list only extends the result. */
  lemma {:induction false} DedupFacts<T>(s: seq<T>, key: T -> string)
    ensures Distinct(Keys(DedupBy(s, key), key))
    ensures Elements(Keys(DedupBy(s, key), key)) == Elements(Keys(s, key))
    ensures Distinct(Keys(s, key)) ==> DedupBy(s, key) == s
    ensures forall x :: x in DedupBy(s, key) ==> x in s
  {
    if s != [] {
      var n := |s| - 1;
      var d := DedupBy(s[..n], key);
      DedupFacts(s[..n], key);
      assert s == s[..n] + [s[n]];
      KeysSnoc(s[..n], s[n], key);
      KeysSnoc(d, s[n], key);
      DedupSnoc(s[..n], s[n], key);
      DistinctSnoc(Keys(d, key), key(s[n]));
      KeysMember(d, key, key(s[n]));
      KeysMember(s[..n], key, key(s[n]));
      DistinctSnoc(Keys(s[..n], key), key(s[n]));
      hide DedupBy, Keys, Elements, Distinct;
    }
  }

  lemma DistinctSnoc<T>(s: seq<T>, x: T)
    ensures Distinct(s + [x]) <==> Distinct(s) && x !in s
  {
    var r := s + [x];
    assert r[|s|] == x;
    assert forall i :: 0 <= i < |s| ==> r[i] == s[i];
    if Distinct(r) {
      assert forall i :: 0 <= i < |s| ==> r[i] != r[|s|];
    }
  }

  lemma {:induction false} DedupExtends<T>(s: seq<T>, t: seq<T>, key: T -> string)
    ensures DedupBy(s, key) <= DedupBy(s + t, key)
  {
    if t == [] {
      assert s + t == s;
    } else {
      var n := |t| - 1;
      DedupExtends(s, t[..n], key);
      assert (s + t)[..|s + t| - 1] == s + t[..n];
    }
  }

  /** Where a key first occurs. */
  function FirstAt<T>(s: seq<T>, k: string, key: T -> string): (i: nat)
    ensures i <= |s| && (i < |s| ==> key(s[i]) == k)
    ensures forall j :: 0 <= j < i ==> key(s[j]) != k
  {
    if s == [] || key(s[0]) == k then 0 else 1 + FirstAt(s[1..], k, key)
  }

  /** The list holds the first element of every key of s, in the order in which the keys first
      occur there, and nothing else. */
  ghost predicate FirstOccurrences<T>(r: seq<T>, s: seq<T>, key: T -> string) {
    && (forall i :: 0 <= i < |r| ==> FirstAt(s, key(r[i]), key) < |s| && r[i] == s[FirstAt(s, key(r[i]), key)])
    && (forall i, j :: 0 <= i < j < |r| ==> FirstAt(s, key(r[i]), key) < FirstAt(s, key(r[j]), key))
    && HoldsKeysOf(r, s, key)
  }

  ghost predicate HoldsKeysOf<T>(r: seq<T>, s: seq<T>, key: T -> string) {
    forall x :: x in s ==> exists i :: 0 <= i < |r| && key(r[i]) == key(x)
  }

  lemma {:induction false} FirstAtSnoc<T>(s: seq<T>, x: T, k: string, key: T -> string)
    ensures FirstAt(s + [x], k, key)
            == if FirstAt(s, k, key) < |s| || key(x) == k then FirstAt(s, k, key) else |s| + 1
  {
    var i, j := FirstAt(s, k, key), FirstAt(s + [x], k, key);
    assert forall l :: 0 <= l < |s| ==> (s + [x])[l] == s[l];
    assert (s + [x])[|s|] == x;
    hide FirstAt;
    assert i < |s| ==> key((s + [x])[i]) == k;
    assert j < |s| ==> key(s[j]) == k;
  }

  lemma {:induction false} DedupOccurs<T>(s: seq<T>, key: T -> string)
    ensures FirstOccurrences(DedupBy(s, key), s, key)
  {
    if s != [] {
      var n := |s| - 1;
      var t, x := s[..n], s[n];
      var d := DedupBy(t, key);
      assert s == t + [x];
      DedupOccurs(t, key);
      DedupSnoc(t, x, key);
      KeysMember(d, key, key(x));
      hide DedupBy, FirstOccurrences, Keys, Elements;
      if key(x) in Keys(d, key) {
        KnownKey(d, t, x, key);
      } else {
        NewKey(d, t, x, key);
      }
    }
  }

  lemma HeadsKept<T>(d: seq<T>, s: seq<T>, x: T, key: T -> string)
    requires FirstOccurrences(d, s, key)
    ensures forall i :: 0 <= i < |d| ==> FirstAt(s + [x], key(d[i]), key) == FirstAt(s, key(d[i]), key) < |s|
  {
    hide FirstAt, HoldsKeysOf;
    forall i | 0 <= i < |d| ensures FirstAt(s + [x], key(d[i]), key) == FirstAt(s, key(d[i]), key) {
      FirstAtSnoc(s, x, key(d[i]), key);
    }
  }

  lemma KnownKey<T>(d: seq<T>, s: seq<T>, x: T, key: T -> string)
    requires FirstOccurrences(d, s, key) && exists i :: 0 <= i < |d| && key(d[i]) == key(x)
    ensures FirstOccurrences(d, s + [x], key)
  {
    HeadsKept(d, s, x, key);
    hide FirstAt;
  }

  lemma NewIsLast<T>(d: seq<T>, s: seq<T>, x: T, key: T -> string)
    requires HoldsKeysOf(d, s, key) && forall i :: 0 <= i < |d| ==> key(d[i]) != key(x)
    ensures FirstAt(s + [x], key(x), key) == |s| && HoldsKeysOf(d + [x], s + [x], key)
  {
    hide FirstAt;
    assert forall i :: 0 <= i < |s| ==> s[i] in s && key(s[i]) != key(x);
    FirstAtSnoc(s, x, key(x), key);
    var r := d + [x];
    assert r[|d|] == x && forall i :: 0 <= i < |d| ==> r[i] == d[i];
    forall y | y in s ensures exists i :: 0 <= i < |r| && key(r[i]) == key(y) {
      var i :| 0 <= i < |d| && key(d[i]) == key(y);
      assert r[i] == d[i];
    }
  }

  lemma NewKey<T>(d: seq<T>, s: seq<T>, x: T, key: T -> string)
    requires FirstOccurrences(d, s, key) && forall i :: 0 <= i < |d| ==> key(d[i]) != key(x)
    ensures FirstOccurrences(d + [x], s + [x], key)
  {
    HeadsKept(d, s, x, key);
    NewIsLast(d, s, x, key);
    hide FirstAt, HoldsKeysOf;
    var r, all := d + [x], s + [x];
    forall i | 0 <= i < |r|
      ensures FirstAt(all, key(r[i]), key) < |all| && r[i] == all[FirstAt(all, key(r[i]), key)]
      ensures forall j :: i < j < |r| ==> FirstAt(all, key(r[i]), key) < FirstAt(all, key(r[j]), key)
    {
      if i < |d| {
        assert r[i] == d[i] && all[FirstAt(s, key(d[i]), key)] == s[FirstAt(s, key(d[i]), key)];
        forall j | i < j < |r| ensures FirstAt(all, key(r[i]), key) < FirstAt(all, key(r[j]), key) {
          assert r[j] == if j < |d| then d[j] else x;
        }
      }
    }
  }

  /** Two owner references are one when their UIDs are equal, or, when neither has one, when they
      name the same object. */
  lemma SameOwner(a: OwnerReference, b: OwnerReference)
    requires '/' !in a.kind && '/' !in a.name && '/' !in b.kind && '/' !in b.name
    ensures a.uid != "" && b.uid != "" ==> (OwnerReferenceKey(a) == OwnerReferenceKey(b) <==> a.uid == b.uid)
    ensures a.uid == "" && b.uid == "" ==>
              (OwnerReferenceKey(a) == OwnerReferenceKey(b) <==> a.apiVersion == b.apiVersion && a.kind == b.kind && a.name == b.name)
    ensures '/' !in a.uid && a.uid != "" && b.uid == "" ==> OwnerReferenceKey(a) != OwnerReferenceKey(b)
  {
    if a.uid == "" && b.uid == "" && OwnerReferenceKey(a) == OwnerReferenceKey(b) {
      TailsAgree(a.apiVersion + "/" + a.kind, a.name, b.apiVersion + "/" + b.kind, b.name);
      TailsAgree(a.apiVersion, a.kind, b.apiVersion, b.kind);
    }
    if b.uid == "" {
      assert OwnerReferenceKey(b)[|b.apiVersion|] == '/';
    }
  }

  lemma TailsAgree(a: string, b: string, c: string, d: string)
    requires '/' !in b && '/' !in d && a + "/" + b == c + "/" + d
    ensures a == c && b == d
  {
    var s, t := a + "/" + b, c + "/" + d;
    assert s[|a|] == '/' && t[|c|] == '/';
    assert forall i :: |a| < i < |s| ==> s[i] == b[i - |a| - 1];
    assert forall i :: |c| < i < |t| ==> t[i] == d[i - |c| - 1];
    assert s[..|a|] == a && t[..|c|] == c;
    assert s[|a| + 1..] == b && t[|c| + 1..] == d;
  }

  /** Every existing finalizer or owner key survives, in order and first; nothing appears that
      is in neither list; and no key appears twice once some existed. */
  lemma MergeKeepsExisting<T>(existing: seq<T>, desired: seq<T>, key: T -> string)
    ensures DedupBy(existing, key) <= MergeBy(existing, desired, key)
    ensures Distinct(Keys(existing, key)) ==> existing <= MergeBy(existing, desired, key)
    ensures Elements(Keys(MergeBy(existing, desired, key), key)) == Elements(Keys(existing, key)) + Elements(Keys(desired, key))
    ensures Distinct(Keys(MergeBy(existing, desired, key), key)) <==> existing != [] || Distinct(Keys(desired, key))
    ensures forall x :: x in MergeBy(existing, desired, key) ==> x in existing || x in desired
  {
    DedupExtends(existing, desired, key);
    DedupFacts(existing, key);
    DedupFacts(existing + desired, key);
    KeysConcat(existing, desired, key);
    hide Distinct, DedupBy;
    if existing == [] {
      DedupEmpty(key);
    }
  }

  lemma DedupEmpty<T>(key: T -> string)
    ensures DedupBy([], key) == [] && Keys([], key) == [] && Distinct(Keys([], key))
  {
  }

  lemma KeysConcat<T>(s: seq<T>, t: seq<T>, key: T -> string)
    ensures Keys(s + t, key) == Keys(s, key) + Keys(t, key)
    ensures Elements(Keys(s + t, key)) == Elements(Keys(s, key)) + Elements(Keys(t, key))
  {
    assert Keys(s + t, key) == Keys(s, key) + Keys(t, key);
  }

  lemma {:induction false} DedupAbsorbs<T>(s: seq<T>, t: seq<T>, key: T -> string)
    requires Distinct(Keys(s, key)) && Elements(Keys(t, key)) <= Elements(Keys(s, key))
    ensures DedupBy(s + t, key) == s
  {
    if t == [] {
      assert s + t == s;
      DedupFacts(s, key);
    } else {
      var n := |t| - 1;
      assert t == t[..n] + [t[n]];
      KeysSnoc(t[..n], t[n], key);
      DedupAbsorbs(s, t[..n], key);
      assert (s + t)[..|s + t| - 1] == s + t[..n];
      KeysMember(s, key, key(t[n]));
    }
  }

  /** Applying the same desired list again changes nothing, exactly when the first apply met
      existing entries or the desired list has no duplicate: an empty live list takes the
      desired one verbatim, duplicates included. */
  lemma MergeIdempotentIff<T>(existing: seq<T>, desired: seq<T>, key: T -> string)
    ensures var once := MergeBy(existing, desired, key);
            MergeBy(once, desired, key) == once <==> existing != [] || Distinct(Keys(desired, key))
  {
    var once := MergeBy(existing, desired, key);
    MergeKeepsExisting(existing, desired, key);
    MergeKeepsExisting(once, desired, key);
    if existing != [] || Distinct(Keys(desired, key)) {
      if once != [] {
        DedupAbsorbs(once, desired, key);
      }
    }
  }

  /** A finalizer listed twice is stored twice when none existed, and once after a second apply. */
  lemma DuplicateKept<T>(x: T, key: T -> string)
    ensures MergeBy([], [x, x], key) == [x, x] && MergeBy([x, x], [x, x], key) == [x]
  {
    hide DedupBy;
    assert Keys([x], key) == [key(x)] && Keys([x, x, x], key) == [key(x), key(x), key(x)];
    DedupAbsorbs([x], [x, x, x], key);
    assert [x] + [x, x, x] == [x, x] + [x, x];
  }

  // ---------- The API server ----------

  /** What another writer may do between two calls. */
  datatype Write = Put(meta: Meta, body: string) | Remove

  datatype Fault = Fine | Refused | AppliedThenLost

  datatype Turn = Turn(before: seq<Write>, fault: Fault)

  /** What the n-th coming call meets; after the last turn nobody acts and nothing fails. */
  function TurnAt(turns: seq<Turn>, n: nat): Turn { if n < |turns| then turns[n] else Turn([], Fine) }

  function Rest(turns: seq<Turn>, n: nat): seq<Turn> { if n <= |turns| then turns[n..] else [] }

  /** Whether the object exists after the writes. */
  predicate Present(present: bool, writes: seq<Write>) {
    if writes == [] then present else writes[|writes| - 1].Put?
  }

  /** Whether it exists after the first n turns. */
  predicate PresentAt(present: bool, turns: seq<Turn>, n: nat) {
    if n == 0 then present else Present(PresentAt(present, turns, n - 1), TurnAt(turns, n - 1).before)
  }

  lemma RestAt(turns: seq<Turn>, n: nat)
    ensures TurnAt(Rest(turns, n), 0) == TurnAt(turns, n) && Rest(Rest(turns, n), 1) == Rest(turns, n + 1)
  {
  }

  datatype ApiError = NotFound | Conflict | AlreadyExists | Other

  /** One accepted write of this client: what it replaced and what it stored. */
  datatype Accepted = Accepted(replaced: Option<Object>, stored: Object)

  /** A call that writes logs at most what it was given, and exactly that when it succeeds; a
      failing one may have been accepted, unless it is a conflict. */
  ghost predicate Wrote(r: Result<Object, ApiError>, before: seq<Accepted>, after: seq<Accepted>, live: Option<Object>,
                        replaced: Option<Object>, meta: Meta, body: string) {
    && (after == before || exists o :: after == before + [Accepted(replaced, o)] && o.meta == meta && o.body == body)
    && (r.Ok? ==> after == before + [Accepted(replaced, r.value)] && live == Some(r.value)
                  && r.value.meta == meta && r.value.body == body)
    && (r == Err(Conflict) ==> after == before)
  }

  class Api {
    var live: Option<Object>
    var lastRv: nat
    var turns: seq<Turn>
    var updateCalls: nat
    ghost var accepted: seq<Accepted>

    constructor (live: Option<Object>, lastRv: nat, turns: seq<Turn>)
      requires live.Some? ==> 0 < live.value.rv <= lastRv
      ensures Valid() && this.live == live && this.turns == turns && accepted == [] && updateCalls == 0
    {
      this.live, this.lastRv, this.turns := live, lastRv, turns;
      updateCalls := 0;
      accepted := [];
    }

    ghost predicate Valid()
      reads this
    {
      live.Some? ==> 0 < live.value.rv <= lastRv
    }

    /** Other writers act; every write they make takes a new resource version. */
    method NextTurn() returns (fault: Fault)
      requires Valid()
      modifies this`live, this`lastRv, this`turns
      ensures Valid() && lastRv >= old(lastRv)
      ensures turns == Rest(old(turns), 1) && fault == TurnAt(old(turns), 0).fault
      ensures var writes := TurnAt(old(turns), 0).before;
              && (live.Some? <==> Present(old(live.Some?), writes))
              && if writes == [] then live == old(live) else live.Some? ==> live.value.rv > old(lastRv)
    {
      if turns == [] {
        return Fine;
      }
      fault := turns[0].fault;
      var writes := turns[0].before;
      turns := turns[1..];
      for i := 0 to |writes|
        invariant Valid() && lastRv >= old(lastRv) && turns == Rest(old(turns), 1)
        invariant live.Some? <==> Present(old(live.Some?), writes[..i])
        invariant if i == 0 then live == old(live) else live.Some? ==> live.value.rv > old(lastRv)
      {
        match writes[i]
        case Put(meta, body) =>
          lastRv := lastRv + 1;
          live := Some(Object(meta, body, lastRv));
        case Remove =>
          live := None;
      }
      assert writes[..|writes|] == writes;
    }

    method Get() returns (r: Result<Object, ApiError>)
      requires Valid()
      modifies this`live, this`lastRv, this`turns
      ensures Valid() && lastRv >= old(lastRv)
      ensures r.Ok? ==> live == Some(r.value)
      ensures r != Err(Conflict)
      ensures turns == Rest(old(turns), 1)
      ensures live.Some? <==> Present(old(live.Some?), TurnAt(old(turns), 0).before)
      ensures r.Ok? <==> TurnAt(old(turns), 0).fault == Fine && live.Some?
      ensures r == Err(NotFound) <==> TurnAt(old(turns), 0).fault == Fine && live.None?
    {
      var fault := NextTurn();
      if fault != Fine {
        return Err(Other);
      }
      return if live.Some? then Ok(live.value) else Err(NotFound);
    }

    /** Refuses an object that names a resource version. */
    method Create(meta: Meta, body: string, rv: nat) returns (r: Result<Object, ApiError>)
      requires Valid()
      modifies this
      ensures Valid() && updateCalls == old(updateCalls)
      ensures Wrote(r, old(accepted), accepted, live, None, meta, body)
      ensures rv != 0 ==> r.Err? && accepted == old(accepted)
      ensures r != Err(Conflict)
      ensures r.Ok? <==> TurnAt(old(turns), 0).fault == Fine && rv == 0
                         && !Present(old(live.Some?), TurnAt(old(turns), 0).before)
    {
      var fault := NextTurn();
      if fault == Refused || rv != 0 {
        return Err(Other);
      }
      if live.Some? {
        return Err(AlreadyExists);
      }
      ghost var replaced := live;
      lastRv := lastRv + 1;
      var o := Object(meta, body, lastRv);
      live := Some(o);
      accepted := accepted + [Accepted(replaced, o)];
      return if fault == Fine then Ok(o) else Err(Other);
    }

    /** Optimistic locking: accepted only against the resource version it names. The log records
        the object that was live when the write landed; it is the one the caller read because no
        other write can have kept that resource version. */
    method Update(meta: Meta, body: string, rv: nat, ghost read: Object) returns (r: Result<Object, ApiError>)
      requires Valid() && live.Some? && live.value == read && read.rv == rv
      modifies this
      ensures Valid() && updateCalls == old(updateCalls) + 1
      ensures Wrote(r, old(accepted), accepted, live, Some(read), meta, body)
      ensures turns == Rest(old(turns), 1)
      ensures r.Ok? <==> TurnAt(old(turns), 0).fault == Fine && TurnAt(old(turns), 0).before == []
      ensures r == Err(Conflict) <==> TurnAt(old(turns), 0).fault != Refused && TurnAt(old(turns), 0).before != []
                                      && Present(true, TurnAt(old(turns), 0).before)
      ensures r == Err(Conflict) ==> live.Some?
    {
      var fault := NextTurn();
      updateCalls := updateCalls + 1;
      if fault == Refused {
        return Err(Other);
      }
      if live.None? {
        return Err(NotFound);
      }
      if live.value.rv != rv {
        return Err(Conflict);
      }
      ghost var replaced := live;
      lastRv := lastRv + 1;
      var o := Object(meta, body, lastRv);
      live := Some(o);
      accepted := accepted + [Accepted(replaced, o)];
      return if fault == Fine then Ok(o) else Err(Other);
    }
  }

  // ---------- applyUnstructured ----------

  const MAX_APPLY_CONFLICT_RETRIES := 3

  /** The caller's object, which the retry loop mutates. */
  class Unstructured {
    var meta: Meta
    var body: string
    var rv: nat

    constructor (meta: Meta, body: string, rv: nat)
      ensures this.meta == meta && this.body == body && this.rv == rv
    {
      this.meta, this.body, this.rv := meta, body, rv;
    }

    method PreserveExistingObjectMeta(existing: Object)
      modifies this`meta
      ensures meta == MergeMeta(existing.meta, old(meta))
      ensures meta.labels.Keys == existing.meta.labels.Keys + old(meta).labels.Keys
      ensures forall k :: k in meta.labels ==>
                meta.labels[k] == if k in old(meta).labels then old(meta).labels[k] else existing.meta.labels[k]
      ensures meta.annotations.Keys == existing.meta.annotations.Keys + old(meta).annotations.Keys
      ensures forall k :: k in meta.annotations ==>
                meta.annotations[k] == if k in old(meta).annotations then old(meta).annotations[k] else existing.meta.annotations[k]
      ensures if existing.meta.finalizers == [] then meta.finalizers == old(meta).finalizers
              else FirstOccurrences(meta.finalizers, existing.meta.finalizers + old(meta).finalizers, Same)
      ensures if existing.meta.owners == [] then meta.owners == old(meta).owners
              else FirstOccurrences(meta.owners, existing.meta.owners + old(meta).owners, OwnerReferenceKey)
    {
      hide FirstOccurrences, DedupBy, FirstAt;
      var labels := MergeStringMap(existing.meta.labels, meta.labels);
      var annotations := MergeStringMap(existing.meta.annotations, meta.annotations);
      var finalizers := MergeSlices(existing.meta.finalizers, meta.finalizers, Same);
      var owners := MergeSlices(existing.meta.owners, meta.owners, OwnerReferenceKey);
      DedupOccurs(existing.meta.finalizers + meta.finalizers, Same);
      DedupOccurs(existing.meta.owners + meta.owners, OwnerReferenceKey);
      meta := Meta(labels, annotations, finalizers, owners);
    }
  }

  /** A write is exact: a create stores the caller's metadata, an update stores the merge of the
      state it replaced and the caller's original metadata. */
  ghost predicate Exact(a: Accepted, desired: Meta, body: string) {
    && a.stored.body == body
    && a.stored.meta == if a.replaced.Some? then MergeMeta(a.replaced.value.meta, desired) else desired
  }

  /** The two calls of a round read the object and then lose the race for its version. */
  predicate RoundCollides(get: Turn, update: Turn, present: bool) {
    && get.fault == Fine && Present(present, get.before)
    && update.fault != Refused && update.before != [] && Present(true, update.before)
  }

  /** Neither call fails, and nobody writes between them on a live object, or the object may be
      created and nobody else does. */
  predicate RoundLands(get: Turn, update: Turn, present: bool, creatable: bool) {
    && get.fault == Fine && update.fault == Fine
    && if Present(present, get.before) then update.before == [] else creatable && !Present(false, update.before)
  }

  predicate Collides(present: bool, turns: seq<Turn>, round: nat) {
    RoundCollides(TurnAt(turns, 2 * round), TurnAt(turns, 2 * round + 1), PresentAt(present, turns, 2 * round))
  }

  /** Creation works in the first round only, for a caller that names no version. */
  predicate Lands(present: bool, turns: seq<Turn>, rv: nat, round: nat) {
    RoundLands(TurnAt(turns, 2 * round), TurnAt(turns, 2 * round + 1), PresentAt(present, turns, 2 * round), round == 0 && rv == 0)
  }

  /** The round follows collisions only. */
  predicate ReachesRound(present: bool, turns: seq<Turn>, round: nat) {
    forall j: nat :: j < round ==> Collides(present, turns, j)
  }

  predicate Applies(present: bool, turns: seq<Turn>, rv: nat) {
    exists round: nat :: round < MAX_APPLY_CONFLICT_RETRIES && ReachesRound(present, turns, round) && Lands(present, turns, rv, round)
  }

  lemma CollisionDoesNotLand(present: bool, turns: seq<Turn>, rv: nat, round: nat)
    ensures !(Collides(present, turns, round) && Lands(present, turns, rv, round))
  {
    hide PresentAt, TurnAt;
  }

  lemma AppliesHere(present: bool, turns: seq<Turn>, rv: nat, round: nat)
    requires round < MAX_APPLY_CONFLICT_RETRIES
    requires ReachesRound(present, turns, round) && Lands(present, turns, rv, round)
    ensures Applies(present, turns, rv) && !ReachesRound(present, turns, MAX_APPLY_CONFLICT_RETRIES)
  {
    hide Collides, Lands;
    CollisionDoesNotLand(present, turns, rv, round);
  }

  lemma FailsHere(present: bool, turns: seq<Turn>, rv: nat, round: nat)
    requires ReachesRound(present, turns, round)
    requires round == MAX_APPLY_CONFLICT_RETRIES || !(Collides(present, turns, round) || Lands(present, turns, rv, round))
    ensures !Applies(present, turns, rv)
    ensures round < MAX_APPLY_CONFLICT_RETRIES ==> !ReachesRound(present, turns, MAX_APPLY_CONFLICT_RETRIES)
  {
    hide Collides, Lands;
    forall other: nat | other < MAX_APPLY_CONFLICT_RETRIES
      ensures !(ReachesRound(present, turns, other) && Lands(present, turns, rv, other))
    {
      CollisionDoesNotLand(present, turns, rv, other);
      assert round < other && ReachesRound(present, turns, other) ==> Collides(present, turns, round);
    }
  }

  lemma {:induction false} StaysPresent(turns: seq<Turn>, n: nat)
    requires forall t :: t in turns ==> Remove !in t.before
    ensures PresentAt(true, turns, n)
  {
    if n > 0 {
      StaysPresent(turns, n - 1);
    }
  }

  /** While nobody removes the object and nothing fails, an apply succeeds exactly when in one of
      its three rounds nobody writes between the Get and the Update. */
  lemma AppliesIffQuietRound(turns: seq<Turn>, rv: nat)
    requires forall t :: t in turns ==> t.fault == Fine && Remove !in t.before
    ensures Applies(true, turns, rv) <==>
            exists round: nat :: round < 3 && TurnAt(turns, 2 * round + 1).before == []
  {
    hide PresentAt;
    forall n: nat ensures PresentAt(true, turns, n) && TurnAt(turns, n).fault == Fine {
      StaysPresent(turns, n);
    }
    hide TurnAt;
    if TurnAt(turns, 1).before == [] {
      assert TurnAt(turns, 2 * 0 + 1).before == [];
      AppliesHere(true, turns, rv, 0);
    } else if TurnAt(turns, 3).before == [] {
      assert TurnAt(turns, 2 * 1 + 1).before == [];
      AppliesHere(true, turns, rv, 1);
    } else if TurnAt(turns, 5).before == [] {
      assert TurnAt(turns, 2 * 2 + 1).before == [];
      AppliesHere(true, turns, rv, 2);
    }
  }

  lemma PresentNext(present: bool, turns: seq<Turn>, n: nat)
    ensures PresentAt(present, turns, n + 1) <==> Present(PresentAt(present, turns, n), TurnAt(turns, n).before)
  {
  }

  lemma TwoTurns(present: bool, turns: seq<Turn>, n: nat, left: seq<Turn>, now: bool)
    requires left == Rest(turns, n) && now == PresentAt(present, turns, n)
    ensures TurnAt(left, 0) == TurnAt(turns, n) && TurnAt(Rest(left, 1), 0) == TurnAt(turns, n + 1)
    ensures Rest(Rest(left, 1), 1) == Rest(turns, n + 2)
    ensures PresentAt(present, turns, n + 2) == Present(Present(now, TurnAt(left, 0).before), TurnAt(Rest(left, 1), 0).before)
  {
    RestAt(turns, n);
    RestAt(turns, n + 1);
    PresentNext(present, turns, n);
    PresentNext(present, turns, n + 1);
    hide PresentAt, Present, TurnAt, Rest;
  }

  /** A round is reached, with these turns left and the object there or not. */
  predicate AtRound(present: bool, turns: seq<Turn>, round: nat, left: seq<Turn>, now: bool) {
    && ReachesRound(present, turns, round)
    && left == Rest(turns, 2 * round) && now == PresentAt(present, turns, 2 * round)
  }

  lemma AtStart(present: bool, turns: seq<Turn>)
    ensures AtRound(present, turns, 0, turns, present)
  {
  }

  /** What is absent, and stays so, is created for a caller that names no version. */
  lemma CreatesWhatIsAbsent(turns: seq<Turn>, rv: nat)
    requires TurnAt(turns, 0) == TurnAt(turns, 1) == Turn([], Fine)
    ensures Applies(false, turns, rv) <==> rv == 0
  {
    assert TurnAt(turns, 2 * 0) == TurnAt(turns, 2 * 0 + 1) == Turn([], Fine);
    assert ReachesRound(false, turns, 0) && !Collides(false, turns, 0);
    assert Lands(false, turns, rv, 0) <==> rv == 0;
    hide Collides, Lands, TurnAt;
    if rv == 0 {
      AppliesHere(false, turns, rv, 0);
    } else {
      FailsHere(false, turns, rv, 0);
    }
  }

  /** How an apply ends, by what its calls meet. */
  predicate Answers(r: Result<Object, ApiError>, present: bool, turns: seq<Turn>, rv: nat) {
    && (r.Ok? <==> Applies(present, turns, rv))
    && (r == Err(Conflict) <==> ReachesRound(present, turns, MAX_APPLY_CONFLICT_RETRIES))
  }

  /** A round that is reached and does not collide decides the answer. */
  lemma Decided(present: bool, turns: seq<Turn>, rv: nat, round: nat, left: seq<Turn>, now: bool, r: Result<Object, ApiError>)
    requires round < MAX_APPLY_CONFLICT_RETRIES && AtRound(present, turns, round, left, now)
    requires !RoundCollides(TurnAt(left, 0), TurnAt(Rest(left, 1), 0), now) && r != Err(Conflict)
    requires r.Ok? <==> RoundLands(TurnAt(left, 0), TurnAt(Rest(left, 1), 0), now, round == 0 && rv == 0)
    ensures Answers(r, present, turns, rv)
  {
    TwoTurns(present, turns, 2 * round, left, now);
    hide Applies, PresentAt, Present, TurnAt, Rest, ReachesRound, RoundCollides, RoundLands;
    if r.Ok? {
      AppliesHere(present, turns, rv, round);
    } else {
      FailsHere(present, turns, rv, round);
    }
  }

  lemma NoRoundLeft(present: bool, turns: seq<Turn>, rv: nat, left: seq<Turn>, now: bool)
    requires AtRound(present, turns, MAX_APPLY_CONFLICT_RETRIES, left, now)
    ensures Answers(Err(Conflict), present, turns, rv)
  {
    hide Applies, ReachesRound;
    FailsHere(present, turns, rv, MAX_APPLY_CONFLICT_RETRIES);
  }

  /** One that collides leads to the next. */
  lemma Continues(present: bool, turns: seq<Turn>, round: nat, left: seq<Turn>, now: bool)
    requires AtRound(present, turns, round, left, now)
    requires RoundCollides(TurnAt(left, 0), TurnAt(Rest(left, 1), 0), now)
    ensures AtRound(present, turns, round + 1, Rest(Rest(left, 1), 1), true)
  {
    TwoTurns(present, turns, 2 * round, left, now);
    hide PresentAt, Present, TurnAt, Rest;
    assert Collides(present, turns, round);
    hide Collides;
    assert 2 * (round + 1) == 2 * round + 2;
  }

  /** The log gains at most one exact write, and the answer is that write while it is live. */
  ghost predicate Logged(r: Result<Object, ApiError>, before: seq<Accepted>, after: seq<Accepted>, live: Option<Object>,
                         desired: Meta, body: string) {
    && (after == before || exists a :: after == before + [a] && Exact(a, desired, body))
    && (r.Ok? ==> exists replaced :: after == before + [Accepted(replaced, r.value)]
                    && Exact(Accepted(replaced, r.value), desired, body) && live == Some(r.value))
    && (r == Err(Conflict) ==> after == before)
  }

  lemma WroteIsLogged(r: Result<Object, ApiError>, before: seq<Accepted>, after: seq<Accepted>, live: Option<Object>,
                      replaced: Option<Object>, meta: Meta, desired: Meta, body: string)
    requires Wrote(r, before, after, live, replaced, meta, body)
    requires meta == if replaced.Some? then MergeMeta(replaced.value.meta, desired) else desired
    ensures Logged(r, before, after, live, desired, body) && (r == Err(Conflict) ==> after == before)
  {
    hide MergeMeta;
    if o :| after == before + [Accepted(replaced, o)] && o.meta == meta && o.body == body {
      assert Exact(Accepted(replaced, o), desired, body);
    }
  }

  /** One round of the loop: create what does not exist, or update what was read. */
  method Attempt(api: Api, obj: Unstructured, desired: Meta) returns (r: Result<Object, ApiError>)
    requires api.Valid() && (obj.rv == 0 ==> obj.meta == desired)
    modifies api, obj
    ensures api.Valid() && obj.body == old(obj.body) && api.updateCalls <= old(api.updateCalls) + 1
    ensures Logged(r, old(api.accepted), api.accepted, api.live, desired, obj.body)
    ensures r.Ok? <==> RoundLands(TurnAt(old(api.turns), 0), TurnAt(Rest(old(api.turns), 1), 0), old(api.live.Some?), old(obj.rv) == 0)
    ensures r == Err(Conflict) <==> RoundCollides(TurnAt(old(api.turns), 0), TurnAt(Rest(old(api.turns), 1), 0), old(api.live.Some?))
    ensures r == Err(Conflict) ==> && api.turns == Rest(Rest(old(api.turns), 1), 1) && api.live.Some? && obj.rv != 0
                                   && api.accepted == old(api.accepted) && api.updateCalls == old(api.updateCalls) + 1
  {
    hide MergeMeta, Present, TurnAt, Rest, Wrote;
    var got := api.Get();
    if got == Err(NotFound) {
      r := api.Create(obj.meta, obj.body, obj.rv);
      if obj.rv == 0 {
        WroteIsLogged(r, old(api.accepted), api.accepted, api.live, None, desired, desired, obj.body);
      }
      return;
    }
    if got.Err? {
      return Err(got.error);
    }
    var existing := got.value;
    obj.meta := desired;
    obj.rv := existing.rv;
    obj.PreserveExistingObjectMeta(existing);
    r := api.Update(obj.meta, obj.body, obj.rv, existing);
    WroteIsLogged(r, old(api.accepted), api.accepted, api.live, Some(existing), obj.meta, desired, obj.body);
  }

  method ApplyLoop(api: Api, obj: Unstructured) returns (r: Result<Object, ApiError>)
    requires api.Valid()
    modifies api, obj
    ensures api.Valid() && api.updateCalls <= old(api.updateCalls) + MAX_APPLY_CONFLICT_RETRIES
    ensures Logged(r, old(api.accepted), api.accepted, api.live, old(obj.meta), old(obj.body))
    ensures r == Err(Conflict) ==> api.updateCalls == old(api.updateCalls) + MAX_APPLY_CONFLICT_RETRIES
    ensures Answers(r, old(api.live.Some?), old(api.turns), old(obj.rv))
  {
    hide AtRound, ReachesRound, Applies, Collides, Lands, PresentAt, Present, TurnAt, Rest, Answers, RoundLands, RoundCollides;
    ghost var present, turns, rv := api.live.Some?, api.turns, obj.rv;
    AtStart(present, turns);
    var desired := obj.meta;
    var attempt := 0;
    while attempt < MAX_APPLY_CONFLICT_RETRIES
      invariant 0 <= attempt <= MAX_APPLY_CONFLICT_RETRIES
      invariant api.Valid() && api.accepted == old(api.accepted) && api.updateCalls == old(api.updateCalls) + attempt
      invariant if attempt == 0 then obj.meta == desired && obj.rv == rv else obj.rv != 0
      invariant obj.body == old(obj.body)
      invariant AtRound(present, turns, attempt, api.turns, api.live.Some?)
    {
      ghost var left, now := api.turns, api.live.Some?;
      r := Attempt(api, obj, desired);
      if r != Err(Conflict) {
        Decided(present, turns, rv, attempt, left, now, r);
        return;
      }
      Continues(present, turns, attempt, left, now);
      attempt := attempt + 1;
    }
    NoRoundLeft(present, turns, rv, api.turns, api.live.Some?);
    return Err(Conflict);
  }

  /** What an accepted write stores: what the caller asked for on a create; on an update the
      caller's value under each of its labels and annotations, the replaced object's under every
      other key, and the replaced finalizers and owners before new ones, each key once. */
  lemma StoredMeta(a: Accepted, desired: Meta, body: string)
    requires Exact(a, desired, body)
    ensures a.stored.body == body && (a.replaced.None? ==> a.stored.meta == desired)
    ensures a.replaced.Some? ==>
              var was, got := a.replaced.value.meta, a.stored.meta;
              && got.labels.Keys == was.labels.Keys + desired.labels.Keys
              && (forall k :: k in got.labels ==> got.labels[k] == if k in desired.labels then desired.labels[k] else was.labels[k])
              && got.annotations.Keys == was.annotations.Keys + desired.annotations.Keys
              && (forall k :: k in got.annotations ==>
                    got.annotations[k] == if k in desired.annotations then desired.annotations[k] else was.annotations[k])
              && (if was.finalizers == [] then got.finalizers == desired.finalizers
                  else FirstOccurrences(got.finalizers, was.finalizers + desired.finalizers, Same))
              && (if was.owners == [] then got.owners == desired.owners
                  else FirstOccurrences(got.owners, was.owners + desired.owners, OwnerReferenceKey))
  {
    if a.replaced.Some? {
      DedupOccurs(a.replaced.value.meta.finalizers + desired.finalizers, Same);
      DedupOccurs(a.replaced.value.meta.owners + desired.owners, OwnerReferenceKey);
    }
    hide FirstOccurrences, DedupBy, FirstAt;
  }

  /** Whatever other writers do between Get and Update, at most one write of this apply is
      accepted, it is exact, nothing leaks into it from earlier attempts, and there are at most
      three updates. */
  method ApplyUnstructured(api: Api, obj: Unstructured) returns (r: Result<Object, ApiError>)
    requires api.Valid()
    modifies api, obj
    ensures api.Valid() && api.updateCalls <= old(api.updateCalls) + 3
    ensures old(api.accepted) <= api.accepted && |api.accepted| <= |old(api.accepted)| + 1
    ensures r.Ok? ==> |api.accepted| == |old(api.accepted)| + 1 && api.live == Some(r.value)
                      && api.accepted[|old(api.accepted)|].stored == r.value
    ensures r == Err(Conflict) ==> api.accepted == old(api.accepted) && api.updateCalls == old(api.updateCalls) + 3
    ensures api.accepted != old(api.accepted) ==>
              var a, want := api.accepted[|old(api.accepted)|], old(obj.meta);
              && a.stored.body == old(obj.body) && (a.replaced.None? ==> a.stored.meta == want)
              && (a.replaced.Some? ==>
                    var was, got := a.replaced.value.meta, a.stored.meta;
                    && got.labels.Keys == was.labels.Keys + want.labels.Keys
                    && (forall k :: k in got.labels ==> got.labels[k] == if k in want.labels then want.labels[k] else was.labels[k])
                    && got.annotations.Keys == was.annotations.Keys + want.annotations.Keys
                    && (forall k :: k in got.annotations ==>
                          got.annotations[k] == if k in want.annotations then want.annotations[k] else was.annotations[k])
                    && (if was.finalizers == [] then got.finalizers == want.finalizers
                        else FirstOccurrences(got.finalizers, was.finalizers + want.finalizers, Same))
                    && if was.owners == [] then got.owners == want.owners
                       else FirstOccurrences(got.owners, was.owners + want.owners, OwnerReferenceKey))
    ensures Answers(r, old(api.live.Some?), old(api.turns), old(obj.rv))
    ensures old(api.live.Some?) && (forall t :: t in old(api.turns) ==> t.fault == Fine && Remove !in t.before) ==>
              (r.Ok? <==> exists round: nat :: round < 3 && TurnAt(old(api.turns), 2 * round + 1).before == [])
    ensures old(api.live.None?) && TurnAt(old(api.turns), 0) == TurnAt(old(api.turns), 1) == Turn([], Fine) ==>
              (r.Ok? <==> old(obj.rv) == 0)
  {
    hide Exact, FirstOccurrences, Applies, ReachesRound, TurnAt;
    ghost var turns := api.turns;
    if api.live.Some? && forall t :: t in turns ==> t.fault == Fine && Remove !in t.before {
      AppliesIffQuietRound(turns, obj.rv);
    }
    if TurnAt(turns, 0) == TurnAt(turns, 1) == Turn([], Fine) {
      CreatesWhatIsAbsent(turns, obj.rv);
    }
    r := ApplyLoop(api, obj);
    if a :| api.accepted == old(api.accepted) + [a] && Exact(a, old(obj.meta), old(obj.body)) {
      assert api.accepted[|old(api.accepted)|] == a;
      StoredMeta(a, old(obj.meta), old(obj.body));
    }
  }
}
