/** Two-phase retirement of a server's authorization (pkg/access/retirement.go). */
module Retirement {
  import opened Text

  datatype Key = Key(ns: string, name: string)

  /** A grant (`off` = disabled) or a session (`off` = revoked). */
  datatype Record = Record(uid: nat, rv: nat, refNs: string, refName: string, off: bool)

  type Rows = map<Key, Record>

  datatype Kind = Grants | Sessions

  /** Where sessions live: in Kubernetes, or with the platform, whose backend revokes by name and
      deletes either by UID or by name. */
  datatype Backend = Kubernetes | Versioned | ByName

  datatype Store = Store(grants: Rows, sessions: Rows, nextUid: nat) {
    function Of(kind: Kind): Rows { if kind == Grants then grants else sessions }

    function With(kind: Kind, rows: Rows): Store {
      if kind == Grants then this.(grants := rows) else this.(sessions := rows)
    }
  }

  /** The server identity being retired. */
  datatype Server = Server(ns: string, name: string)

  predicate Matches(t: Server, key: Key, r: Record) {
    (if TrimSpace(r.refNs) == "" then key.ns else TrimSpace(r.refNs)) == t.ns && r.refName == t.name
  }

  predicate Holds(t: Server, rows: Rows, key: Key) { key in rows && Matches(t, key, rows[key]) }

  // ---------- The API server, with failures and concurrent writers ----------

  /** `Lost` fails without effect; `AppliedThenLost` takes effect and still reports an error. */
  datatype Fault = Fine | Lost | AppliedThenLost

  datatype Outcome = Done | NotFound | Failed

  /** What others may do between two calls: no new issuance for the server, no re-enabling.
      A matching record may be dropped, switched off, touched, or re-pointed to another server
      under its UID; other records may be put under a new UID, or edited under the one they have. */
  datatype Interference =
    | Drop(kind: Kind, key: Key)
    | SwitchOff(kind: Kind, key: Key)
    | Touch(kind: Kind, key: Key)
    | Repoint(kind: Kind, key: Key, record: Record)
    | PutOther(kind: Kind, key: Key, record: Record)
    | EditOther(kind: Kind, key: Key, record: Record)

  /** Acts that leave the records of other servers alone. */
  predicate OnOwn(a: Interference) { a.Drop? || a.SwitchOff? || a.Touch? }

  /** Every update gives the record its next version. */
  function Update(r: Record, r': Record): Record { r'.(uid := r.uid, rv := r.rv + 1) }

  function InterfereRows(t: Server, rows: Rows, a: Interference, nextUid: nat): Rows {
    if !OnOwn(a) && Matches(t, a.key, a.record) then rows
    else if Holds(t, rows, a.key) then
      match a
      case Drop(_, key) => rows - {key}
      case SwitchOff(_, key) => rows[key := Update(rows[key], rows[key].(off := true))]
      case Touch(_, key) => rows[key := Update(rows[key], rows[key])]
      case Repoint(_, key, record) => rows[key := Update(rows[key], record)]
      case PutOther(_, _, _) => rows
      case EditOther(_, _, _) => rows
    else match a
      case PutOther(_, key, record) => rows[key := record.(uid := nextUid)]
      case EditOther(_, key, record) => if key in rows then rows[key := Update(rows[key], record)] else rows
      case _ => rows
  }

  function Interfere(t: Server, s: Store, a: Interference): Store {
    s.With(a.kind, InterfereRows(t, s.Of(a.kind), a, s.nextUid)).(nextUid := s.nextUid + 1)
  }

  function InterfereAll(t: Server, s: Store, acts: seq<Interference>): Store
    decreases |acts|
  {
    if acts == [] then s else InterfereAll(t, Interfere(t, s, acts[0]), acts[1..])
  }

  datatype Turn = Turn(before: seq<Interference>, fault: Fault)

  /** A preconditioned merge patch that disables or revokes. */
  function PatchOff(rows: Rows, key: Key, uid: nat, rv: nat, fault: Fault): (Rows, Outcome) {
    if fault == Lost then (rows, Failed)
    else if key !in rows then (rows, NotFound)
    else if rows[key].uid != uid || rows[key].rv != rv then (rows, Failed)
    else (rows[key := rows[key].(off := true, rv := rv + 1)], if fault == Fine then Done else Failed)
  }

  /** A delete with a UID precondition. */
  function DeleteRow(rows: Rows, key: Key, uid: nat, fault: Fault): (Rows, Outcome) {
    if fault == Lost then (rows, Failed)
    else if key !in rows then (rows, NotFound)
    else if rows[key].uid != uid then (rows, Failed)
    else (rows - {key}, if fault == Fine then Done else Failed)
  }

  /** The platform backend's revoke and delete address whatever has the name. */
  function RevokeByName(rows: Rows, key: Key, fault: Fault): (Rows, Outcome) {
    if fault == Lost then (rows, Failed)
    else if key !in rows then (rows, NotFound)
    else (rows[key := rows[key].(off := true, rv := rows[key].rv + 1)], if fault == Fine then Done else Failed)
  }

  function DeleteByName(rows: Rows, key: Key, fault: Fault): (Rows, Outcome) {
    if fault == Lost then (rows, Failed)
    else if key !in rows then (rows, NotFound)
    else (rows - {key}, if fault == Fine then Done else Failed)
  }

  function SwitchedOff(backend: Backend, kind: Kind, rows: Rows, item: Item, fault: Fault): (Rows, Outcome) {
    if kind == Sessions && backend != Kubernetes then RevokeByName(rows, item.key, fault)
    else PatchOff(rows, item.key, item.record.uid, item.record.rv, fault)
  }

  function Deleted(backend: Backend, kind: Kind, rows: Rows, item: Item, fault: Fault): (Rows, Outcome) {
    if kind == Sessions && backend == ByName then DeleteByName(rows, item.key, fault)
    else DeleteRow(rows, item.key, item.record.uid, fault)
  }

  datatype Item = Item(key: Key, record: Record)

  // ---------- What every call keeps ----------

  ghost predicate UidsBelow(rows: Rows, n: nat) { forall k :: k in rows ==> rows[k].uid < n }

  ghost predicate UidsIssued(s: Store) { UidsBelow(s.grants, s.nextUid) && UidsBelow(s.sessions, s.nextUid) }

  /** A later state of the same record: one version has one content. */
  predicate Descends(r: Record, r': Record) { r'.uid == r.uid && r.rv <= r'.rv && (r'.rv == r.rv ==> r' == r) }

  /** No matching record appears, changes identity or is switched back on, and every record
      descends from the one that had its name or carries a new UID. */
  ghost predicate EvolvesRows(t: Server, rows: Rows, rows': Rows, nextUid: nat) {
    && (forall k :: Holds(t, rows', k) ==>
          Holds(t, rows, k) && rows'[k].uid == rows[k].uid && (rows[k].off ==> rows'[k].off))
    && forall k :: k in rows' ==> (k in rows && Descends(rows[k], rows'[k])) || rows'[k].uid >= nextUid
  }

  /** No matching record has been re-pointed under its UID. */
  ghost predicate UnmovedRows(t: Server, rows: Rows, rows': Rows) {
    forall k :: Holds(t, rows, k) && k in rows' && rows'[k].uid == rows[k].uid ==> Holds(t, rows', k)
  }

  ghost predicate Unmoved(t: Server, s: Store, s': Store) {
    UnmovedRows(t, s.grants, s'.grants) && UnmovedRows(t, s.sessions, s'.sessions)
  }

  lemma UnmovedTransitive(t: Server, a: Store, b: Store, c: Store)
    requires UidsIssued(a) && Evolves(t, a, b) && Evolves(t, b, c)
    ensures Unmoved(t, a, b) && Unmoved(t, b, c) ==> Unmoved(t, a, c)
  {
    hide Matches;
  }

  ghost predicate Evolves(t: Server, s: Store, s': Store) {
    && s.nextUid <= s'.nextUid
    && EvolvesRows(t, s.grants, s'.grants, s.nextUid)
    && EvolvesRows(t, s.sessions, s'.sessions, s.nextUid)
  }

  lemma EvolvesTransitive(t: Server, a: Store, b: Store, c: Store)
    requires Evolves(t, a, b) && Evolves(t, b, c)
    ensures Evolves(t, a, c)
  {
    hide Matches;
  }

  ghost predicate AllOff(t: Server, rows: Rows) { forall k :: Holds(t, rows, k) ==> rows[k].off }

  ghost predicate EverythingOff(t: Server, s: Store) { AllOff(t, s.grants) && AllOff(t, s.sessions) }

  function Others(t: Server, rows: Rows): Rows { map k | k in rows && !Matches(t, k, rows[k]) :: rows[k] }

  ghost predicate SameOthers(t: Server, s: Store, s': Store) {
    Others(t, s'.grants) == Others(t, s.grants) && Others(t, s'.sessions) == Others(t, s.sessions)
  }

  /** One call of the retirement, with the state it met and the state it left. */
  datatype Call = Call(before: Store, after: Store)

  ghost predicate Removes(c: Call) {
    !(c.before.grants.Keys <= c.after.grants.Keys) || !(c.before.sessions.Keys <= c.after.sessions.Keys)
  }

  /** A call removes a record only when every matching grant and session that is still there is
      already disabled or revoked, and switches none back on. */
  ghost predicate SafeCall(t: Server, c: Call) {
    Evolves(t, c.before, c.after) && (Removes(c) ==> EverythingOff(t, c.before))
  }

  ghost predicate AllSafe(t: Server, calls: seq<Call>) {
    forall i :: 0 <= i < |calls| ==> SafeCall(t, calls[i])
  }

  /** Every call touches matching records only. */
  ghost predicate AllPrecise(t: Server, calls: seq<Call>) {
    forall i :: 0 <= i < |calls| ==> SameOthers(t, calls[i].before, calls[i].after)
  }

  lemma MatchesIgnoresState(t: Server, key: Key, r: Record, rv: nat)
    ensures Matches(t, key, r.(off := true, rv := rv)) <==> Matches(t, key, r)
    ensures Matches(t, key, r.(rv := rv)) <==> Matches(t, key, r)
  {
    hide TrimSpace;
  }

  lemma MatchesIgnoresUid(t: Server, key: Key, r: Record, uid: nat)
    ensures Matches(t, key, r.(uid := uid)) <==> Matches(t, key, r)
  {
    hide TrimSpace;
  }

  lemma MatchesIgnoresUpdate(t: Server, key: Key, r: Record, r': Record)
    ensures Matches(t, key, Update(r, r')) <==> Matches(t, key, r')
  {
    hide TrimSpace;
  }

  lemma ReplacedRow(t: Server, rows: Rows, key: Key, r: Record, nextUid: nat)
    requires (key in rows && Descends(rows[key], r)) || r.uid == nextUid
    requires Matches(t, key, r) ==> Holds(t, rows, key) && r.uid == rows[key].uid && (rows[key].off ==> r.off)
    ensures EvolvesRows(t, rows, rows[key := r], nextUid)
    ensures UidsBelow(rows, nextUid) ==> UidsBelow(rows[key := r], nextUid + 1)
    ensures Holds(t, rows, key) && Matches(t, key, r) ==> Others(t, rows[key := r]) == Others(t, rows)
    ensures !Holds(t, rows, key) || Matches(t, key, r) ==> UnmovedRows(t, rows, rows[key := r])
  {
    hide Matches;
  }

  lemma DroppedRow(t: Server, rows: Rows, key: Key, nextUid: nat)
    ensures EvolvesRows(t, rows, rows - {key}, nextUid) && UnmovedRows(t, rows, rows - {key}) && Keeps(rows, rows - {key}, {})
    ensures UidsBelow(rows, nextUid) ==> UidsBelow(rows - {key}, nextUid + 1)
    ensures Holds(t, rows, key) ==> Others(t, rows - {key}) == Others(t, rows)
  {
    hide Matches;
  }

  lemma SameRows(t: Server, rows: Rows, nextUid: nat)
    ensures EvolvesRows(t, rows, rows, nextUid) && UnmovedRows(t, rows, rows) && Keeps(rows, rows, {})
    ensures UidsBelow(rows, nextUid) ==> UidsBelow(rows, nextUid + 1)
  {
    hide Matches;
  }

  lemma InterfereRowsOnce(t: Server, rows: Rows, a: Interference, nextUid: nat)
    ensures var rows' := InterfereRows(t, rows, a, nextUid);
            && EvolvesRows(t, rows, rows', nextUid)
            && (UidsBelow(rows, nextUid) ==> UidsBelow(rows', nextUid + 1))
            && (OnOwn(a) ==> Others(t, rows') == Others(t, rows))
            && (!a.Repoint? ==> UnmovedRows(t, rows, rows'))
            && (a.Drop? ==> Keeps(rows, rows', {}))
  {
    hide Matches, EvolvesRows, UidsBelow, Others, UnmovedRows, Keeps;
    var rows' := InterfereRows(t, rows, a, nextUid);
    SameRows(t, rows, nextUid);
    if rows' != rows && a.Drop? {
      DroppedRow(t, rows, a.key, nextUid);
    } else if rows' != rows {
      if !OnOwn(a) {
        MatchesIgnoresUid(t, a.key, a.record, nextUid);
      }
      if a.key in rows {
        MatchesIgnoresState(t, a.key, rows[a.key], rows[a.key].rv + 1);
        if !OnOwn(a) {
          MatchesIgnoresUpdate(t, a.key, rows[a.key], a.record);
        }
      }
      ReplacedRow(t, rows, a.key, rows'[a.key], nextUid);
    }
  }

  lemma InterfereOnce(t: Server, s: Store, a: Interference)
    ensures Evolves(t, s, Interfere(t, s, a))
    ensures UidsIssued(s) ==> UidsIssued(Interfere(t, s, a))
    ensures OnOwn(a) ==> SameOthers(t, s, Interfere(t, s, a))
    ensures !a.Repoint? ==> Unmoved(t, s, Interfere(t, s, a))
    ensures a.Drop? ==> KeepsBoth(s, Interfere(t, s, a), Grants, {})
  {
    hide InterfereRows, EvolvesRows, Others, OnOwn, Holds;
    InterfereRowsOnce(t, s.Of(a.kind), a, s.nextUid);
    SameRows(t, s.grants, s.nextUid);
    SameRows(t, s.sessions, s.nextUid);
  }

  lemma {:induction false} InterferenceEvolves(t: Server, s: Store, acts: seq<Interference>)
    ensures Evolves(t, s, InterfereAll(t, s, acts))
    ensures UidsIssued(s) ==> UidsIssued(InterfereAll(t, s, acts))
    decreases |acts|
  {
    hide Evolves, UidsIssued, Interfere;
    if acts == [] {
      EvolvesReflexive(t, s);
    } else {
      var s1 := Interfere(t, s, acts[0]);
      InterfereOnce(t, s, acts[0]);
      InterferenceEvolves(t, s1, acts[1..]);
      EvolvesTransitive(t, s, s1, InterfereAll(t, s, acts));
    }
  }

  /** What a run of acts keeps when each of them is of one sort. */
  lemma {:induction false} InterferenceKeeps(t: Server, s: Store, acts: seq<Interference>)
    requires UidsIssued(s)
    ensures (forall i :: 0 <= i < |acts| ==> OnOwn(acts[i])) ==> SameOthers(t, s, InterfereAll(t, s, acts))
    ensures (forall i :: 0 <= i < |acts| ==> !acts[i].Repoint?) ==> Unmoved(t, s, InterfereAll(t, s, acts))
    ensures (forall i :: 0 <= i < |acts| ==> acts[i].Drop?) ==> KeepsBoth(s, InterfereAll(t, s, acts), Grants, {})
    decreases |acts|
  {
    hide Interfere, Others, Evolves, UnmovedRows, UidsIssued, Keeps;
    if acts == [] {
      EvolvesReflexive(t, s);
    } else {
      var s1 := Interfere(t, s, acts[0]);
      InterfereOnce(t, s, acts[0]);
      InterferenceEvolves(t, s1, acts[1..]);
      InterferenceKeeps(t, s1, acts[1..]);
      assert forall i :: 0 <= i < |acts[1..]| ==> acts[1..][i] == acts[i + 1];
      var s' := InterfereAll(t, s, acts);
      UnmovedTransitive(t, s, s1, s');
      KeepsTransitive(s.grants, s1.grants, s'.grants, {}, {});
      KeepsTransitive(s.sessions, s1.sessions, s'.sessions, {}, {});
    }
  }

  /** Nothing is added, every UID stays, and only the given keys change. */
  ghost predicate Keeps(rows: Rows, rows': Rows, changed: set<Key>) {
    forall k :: k in rows' ==> k in rows && rows'[k].uid == rows[k].uid && (k !in changed ==> rows'[k] == rows[k])
  }

  ghost predicate KeepsBoth(s: Store, s': Store, kind: Kind, changed: set<Key>) {
    && Keeps(s.grants, s'.grants, if kind == Grants then changed else {})
    && Keeps(s.sessions, s'.sessions, if kind == Sessions then changed else {})
  }

  lemma KeepsTransitive(a: Rows, b: Rows, c: Rows, changed: set<Key>, changed': set<Key>)
    ensures Keeps(a, b, changed) && Keeps(b, c, changed') ==> Keeps(a, c, changed + changed')
    ensures Keeps(a, b, changed) && Keeps(b, c, changed) ==> Keeps(a, c, changed)
  {
  }

  // ---------- The manager ----------

  /** The items are the rows, in some order. */
  predicate ListsRows(items: seq<Item>, rows: Rows) {
    && (forall k :: k in rows ==> Item(k, rows[k]) in items)
    && (forall i :: 0 <= i < |items| ==> items[i].key in rows && items[i].record == rows[items[i].key])
    && DistinctKeys(items)
  }

  predicate DistinctKeys(items: seq<Item>) { forall i, j :: 0 <= i < j < |items| ==> items[i].key != items[j].key }

  method ItemsOf(rows: Rows) returns (items: seq<Item>)
    ensures ListsRows(items, rows)
  {
    items := [];
    var todo := rows.Keys;
    while todo != {}
      invariant todo <= rows.Keys
      invariant forall k :: k in rows && k !in todo ==> Item(k, rows[k]) in items
      invariant forall i :: 0 <= i < |items| ==> items[i].key in rows && items[i].record == rows[items[i].key]
      invariant DistinctKeys(items) && forall i :: 0 <= i < |items| ==> items[i].key !in todo
    {
      var k :| k in todo;
      items := items + [Item(k, rows[k])];
      assert items[|items| - 1] in items;
      todo := todo - {k};
    }
  }

  /** The item was a matching record of an earlier state of the store. */
  ghost predicate ListedIn(t: Server, s: Store, kind: Kind, item: Item) {
    Holds(t, s.Of(kind), item.key) && s.Of(kind)[item.key] == item.record && item.record.uid < s.nextUid
  }

  /** What a call may do to the rows it addresses. */
  ghost predicate SafeRows(t: Server, rows: Rows, rows': Rows, nextUid: nat) {
    EvolvesRows(t, rows, rows', nextUid) && UidsBelow(rows', nextUid) && UnmovedRows(t, rows, rows')
  }

  /** A patch that names UID and version is always safe for the server's own records, and
      touches another's exactly when that very version is another's. */
  lemma PatchByVersionIff(t: Server, rows: Rows, key: Key, uid: nat, rv: nat, fault: Fault, nextUid: nat)
    requires UidsBelow(rows, nextUid)
    ensures var r := PatchOff(rows, key, uid, rv, fault);
            && SafeRows(t, rows, r.0, nextUid) && r.0.Keys == rows.Keys
            && (r.1 != Failed && Holds(t, r.0, key) ==> r.0[key].off)
            && (Others(t, r.0) == Others(t, rows) <==>
                fault == Lost || key !in rows || rows[key].uid != uid || rows[key].rv != rv || Holds(t, rows, key))
  {
    hide Matches;
    if key in rows {
      var after := PatchOff(rows, key, uid, rv, fault).0;
      MatchesIgnoresState(t, key, rows[key], rv + 1);
      if fault != Lost && rows[key].uid == uid && rows[key].rv == rv && !Holds(t, rows, key) {
        assert key in Others(t, rows) && key in Others(t, after) && Others(t, after)[key].rv != Others(t, rows)[key].rv;
      }
    }
  }

  /** A delete that names the UID alone is always safe for the server's own records, and removes
      another's exactly when the record of that UID is another's by now. */
  lemma DeleteByUidIff(t: Server, rows: Rows, key: Key, uid: nat, fault: Fault, nextUid: nat)
    requires UidsBelow(rows, nextUid)
    ensures var r := DeleteRow(rows, key, uid, fault);
            && SafeRows(t, rows, r.0, nextUid)
            && (r.1 != Failed ==> !Holds(t, r.0, key))
            && (Others(t, r.0) == Others(t, rows) <==>
                fault == Lost || key !in rows || rows[key].uid != uid || Holds(t, rows, key))
  {
    hide Matches;
    if key in rows && rows[key].uid == uid && fault != Lost && !Holds(t, rows, key) {
      assert key in Others(t, rows) && key !in Others(t, DeleteRow(rows, key, uid, fault).0);
    }
  }

  /** Revoking by name is always safe for the server's own records, and touches another's
      exactly when one of another has taken the name. */
  lemma RevokeByNameIff(t: Server, rows: Rows, key: Key, fault: Fault, nextUid: nat)
    requires UidsBelow(rows, nextUid)
    ensures var r := RevokeByName(rows, key, fault);
            && SafeRows(t, rows, r.0, nextUid) && r.0.Keys == rows.Keys
            && (r.1 != Failed && Holds(t, r.0, key) ==> r.0[key].off)
            && (Others(t, r.0) == Others(t, rows) <==> fault == Lost || key !in rows || Holds(t, rows, key))
  {
    hide Matches;
    if key in rows && fault != Lost {
      var after := RevokeByName(rows, key, fault).0;
      MatchesIgnoresState(t, key, rows[key], rows[key].rv + 1);
      if !Holds(t, rows, key) {
        assert key in Others(t, rows) && key in Others(t, after) && Others(t, after)[key].rv != Others(t, rows)[key].rv;
      }
    }
  }

  lemma DeleteByNameIff(t: Server, rows: Rows, key: Key, fault: Fault, nextUid: nat)
    requires UidsBelow(rows, nextUid)
    ensures var r := DeleteByName(rows, key, fault);
            && SafeRows(t, rows, r.0, nextUid)
            && (r.1 != Failed ==> !Holds(t, r.0, key))
            && (Others(t, r.0) == Others(t, rows) <==> fault == Lost || key !in rows || Holds(t, rows, key))
  {
    hide Matches;
    if key in rows && fault != Lost && !Holds(t, rows, key) {
      assert key in Others(t, rows) && key !in Others(t, DeleteByName(rows, key, fault).0);
    }
  }

  /** A record that a call would change if it reached the server. */
  predicate Addressed(byName: bool, versioned: bool, rows: Rows, item: Item) {
    && item.key in rows
    && (byName || rows[item.key].uid == item.record.uid)
    && (versioned ==> rows[item.key].rv == item.record.rv)
  }

  predicate RevokesByName(backend: Backend, kind: Kind) { kind == Sessions && backend != Kubernetes }

  predicate DeletesByName(backend: Backend, kind: Kind) { kind == Sessions && backend == ByName }

  lemma SwitchedOffSafe(t: Server, backend: Backend, kind: Kind, rows: Rows, item: Item, fault: Fault, nextUid: nat)
    requires UidsBelow(rows, nextUid)
    ensures var r := SwitchedOff(backend, kind, rows, item, fault);
            var byName := RevokesByName(backend, kind);
            && SafeRows(t, rows, r.0, nextUid) && rows.Keys <= r.0.Keys
            && (r.1 != Failed && Holds(t, r.0, item.key) ==> r.0[item.key].off)
            && (Others(t, r.0) == Others(t, rows) <==>
                fault == Lost || !Addressed(byName, !byName, rows, item) || Holds(t, rows, item.key))
  {
    hide SafeRows, Holds, Others, PatchOff, RevokeByName, UidsBelow;
    if RevokesByName(backend, kind) {
      RevokeByNameIff(t, rows, item.key, fault, nextUid);
    } else {
      PatchByVersionIff(t, rows, item.key, item.record.uid, item.record.rv, fault, nextUid);
    }
  }

  lemma DeletedSafe(t: Server, backend: Backend, kind: Kind, rows: Rows, item: Item, fault: Fault, nextUid: nat)
    requires UidsBelow(rows, nextUid)
    ensures var r := Deleted(backend, kind, rows, item, fault);
            && SafeRows(t, rows, r.0, nextUid)
            && (r.1 != Failed ==> !Holds(t, r.0, item.key))
            && (Others(t, r.0) == Others(t, rows) <==>
                fault == Lost || !Addressed(DeletesByName(backend, kind), false, rows, item) || Holds(t, rows, item.key))
  {
    hide SafeRows, Holds, Others, DeleteRow, DeleteByName, UidsBelow;
    if DeletesByName(backend, kind) {
      DeleteByNameIff(t, rows, item.key, fault, nextUid);
    } else {
      DeleteByUidIff(t, rows, item.key, item.record.uid, fault, nextUid);
    }
  }

  predicate AsListed(rows: Rows, item: Item) { item.key in rows ==> rows[item.key] == item.record }

  predicate UidAsListed(rows: Rows, item: Item) { item.key in rows ==> rows[item.key].uid == item.record.uid }

  ghost predicate AllAsListed(rows: Rows, items: seq<Item>) {
    forall i :: 0 <= i < |items| ==> AsListed(rows, items[i])
  }

  ghost predicate AllUidsAsListed(rows: Rows, items: seq<Item>) {
    forall i :: 0 <= i < |items| ==> UidAsListed(rows, items[i])
  }

  /** With nothing failing, a call on a row that is as listed or gone does what it is for. */
  lemma SwitchedOffFine(backend: Backend, kind: Kind, rows: Rows, item: Item)
    ensures var r := SwitchedOff(backend, kind, rows, item, Fine);
            && Keeps(rows, r.0, {item.key})
            && (AsListed(rows, item) ==> r.1 != Failed)
  {
  }

  lemma DeletedFine(backend: Backend, kind: Kind, rows: Rows, item: Item)
    ensures var r := Deleted(backend, kind, rows, item, Fine);
            && Keeps(rows, r.0, {})
            && (UidAsListed(rows, item) ==> r.1 != Failed)
  {
  }

  lemma StoreCallSafe(t: Server, s: Store, kind: Kind, rows': Rows)
    requires UidsIssued(s) && SafeRows(t, s.Of(kind), rows', s.nextUid)
    requires s.Of(kind).Keys <= rows'.Keys || EverythingOff(t, s)
    ensures SafeCall(t, Call(s, s.With(kind, rows'))) && UidsIssued(s.With(kind, rows'))
    ensures Others(t, rows') == Others(t, s.Of(kind)) ==> SameOthers(t, s, s.With(kind, rows'))
    ensures s.With(kind, rows').Of(kind) == rows'
    ensures Unmoved(t, s, s.With(kind, rows'))
  {
    hide EvolvesRows, Others, UidsBelow, EverythingOff, Holds;
    SameRows(t, s.grants, s.nextUid);
    SameRows(t, s.sessions, s.nextUid);
  }

  /** In every later state the listed version of a record is the server's, and so is the record
      of the listed UID unless it was re-pointed, and that of the listed name while nobody
      else's records change. */
  lemma ListedStays(t: Server, listed: Store, s: Store, kind: Kind, item: Item)
    requires ListedIn(t, listed, kind, item) && Evolves(t, listed, s)
    ensures Addressed(false, true, s.Of(kind), item) ==> Holds(t, s.Of(kind), item.key)
    ensures Unmoved(t, listed, s) && Addressed(false, false, s.Of(kind), item) ==> Holds(t, s.Of(kind), item.key)
    ensures SameOthers(t, listed, s) && item.key in s.Of(kind) ==> Holds(t, s.Of(kind), item.key)
    ensures UidsIssued(s) ==> UidsBelow(s.Of(kind), s.nextUid)
  {
    hide Matches;
    if SameOthers(t, listed, s) {
      assert Others(t, s.Of(kind)) == Others(t, listed.Of(kind));
      assert item.key !in Others(t, listed.Of(kind));
      assert item.key !in Others(t, s.Of(kind));
    }
  }

  /** Revocation by name can miss its session: dropped and replaced by another server's session
      of the same name after the listing, the replacement is the one revoked. */
  lemma RevokeHitsReplacement(t: Server, listed: Store, item: Item, other: Record)
    requires ListedIn(t, listed, Sessions, item) && !Matches(t, item.key, other) && !other.off
    ensures var s := InterfereAll(t, listed, [Drop(Sessions, item.key), PutOther(Sessions, item.key, other)]);
            && item.key in s.sessions && !s.sessions[item.key].off && !Holds(t, s.sessions, item.key)
            && RevokeByName(s.sessions, item.key, Fine).0[item.key].off
  {
    hide Matches;
    var drop, put := Drop(Sessions, item.key), PutOther(Sessions, item.key, other);
    var s1 := Interfere(t, listed, drop);
    assert s1.sessions == listed.sessions - {item.key};
    var s2 := Interfere(t, s1, put);
    MatchesIgnoresUid(t, item.key, other, s1.nextUid);
    assert [drop, put][1..] == [put] && [put][1..] == [];
    assert InterfereAll(t, listed, [drop, put]) == InterfereAll(t, s1, [put]) == InterfereAll(t, s2, []) == s2;
  }

  /** So can a delete by UID: listed, disabled, and then re-pointed to another server, the grant
      keeps its UID, and the delete removes that server's grant. */
  lemma DeleteHitsRepointed(t: Server, listed: Store, item: Item, other: Record)
    requires ListedIn(t, listed, Grants, item) && !Matches(t, item.key, other)
    ensures var off := PatchOff(listed.grants, item.key, item.record.uid, item.record.rv, Fine);
            var s := InterfereAll(t, listed.With(Grants, off.0), [Repoint(Grants, item.key, other)]);
            var gone := DeleteRow(s.grants, item.key, item.record.uid, Fine);
            && off.1 == Done && item.key in Others(t, s.grants)
            && gone.1 == Done && item.key !in gone.0
  {
    hide Matches;
    var off := PatchOff(listed.grants, item.key, item.record.uid, item.record.rv, Fine).0;
    var s := listed.With(Grants, off);
    var move := Repoint(Grants, item.key, other);
    MatchesIgnoresState(t, item.key, item.record, item.record.rv + 1);
    assert Holds(t, off, item.key);
    MatchesIgnoresUpdate(t, item.key, off[item.key], other);
    assert [move][1..] == [];
    assert InterfereAll(t, s, [move]) == InterfereAll(t, Interfere(t, s, move), []) == Interfere(t, s, move);
  }

  /** Nobody else creates, edits or re-points records. */
  predicate Quiet(turns: seq<Turn>) {
    forall i, j :: 0 <= i < |turns| && 0 <= j < |turns[i].before| ==> OnOwn(turns[i].before[j])
  }

  /** Nobody re-points a matching record to another server. */
  predicate NoRepoint(turns: seq<Turn>) {
    forall i, j :: 0 <= i < |turns| && 0 <= j < |turns[i].before| ==> !turns[i].before[j].Repoint?
  }

  /** No call fails, and others at most drop matching records. */
  predicate Smooth(turns: seq<Turn>) {
    forall i :: 0 <= i < |turns| ==>
      turns[i].fault == Fine && forall j :: 0 <= j < |turns[i].before| ==> turns[i].before[j].Drop?
  }

  /** What makes every call precise. */
  predicate Undisturbed(backend: Backend, turns: seq<Turn>) { Quiet(turns) || (backend == Kubernetes && NoRepoint(turns)) }

  class Manager {
    var store: Store
    /** What the cluster does before, and answers to, each coming call. */
    var turns: seq<Turn>
    ghost var calls: seq<Call>
    const backend: Backend

    constructor (store: Store, turns: seq<Turn>, backend: Backend)
      ensures this.store == store && this.turns == turns && this.backend == backend && calls == []
    {
      this.store, this.turns, this.backend := store, turns, backend;
      calls := [];
    }

    /** Lets the others act, then says how the coming call will fare. */
    method NextTurn(t: Server) returns (fault: Fault)
      requires UidsIssued(store)
      modifies this`store, this`turns
      ensures Proceeds(t, old(store), old(turns), store, turns)
      ensures turns == if old(turns) == [] then [] else old(turns)[1..]
      ensures Quiet(old(turns)) ==> Quiet(turns) && SameOthers(t, old(store), store)
      ensures Smooth(old(turns)) ==> Smooth(turns) && fault == Fine && KeepsBoth(old(store), store, Grants, {})
      ensures old(turns) == [] ==> fault == Fine && store == old(store)
      ensures old(turns) != [] ==> fault == old(turns)[0].fault && store == InterfereAll(t, old(store), old(turns)[0].before)
    {
      hide Evolves, UidsIssued, SameOthers, Unmoved, KeepsBoth, InterfereAll;
      if turns == [] {
        EvolvesReflexive(t, store);
        SameOthersReflexive(t, store);
        return Fine;
      }
      fault := turns[0].fault;
      InterferenceEvolves(t, store, turns[0].before);
      InterferenceKeeps(t, store, turns[0].before);
      store := InterfereAll(t, store, turns[0].before);
      turns := turns[1..];
    }

    method List(t: Server, kind: Kind) returns (ok: bool, items: seq<Item>)
      requires UidsIssued(store)
      modifies this`store, this`turns
      ensures Proceeds(t, old(store), old(turns), store, turns)
      ensures turns == if old(turns) == [] then [] else old(turns)[1..]
      ensures Quiet(old(turns)) ==> Quiet(turns) && SameOthers(t, old(store), store)
      ensures Smooth(old(turns)) ==> ok && Smooth(turns) && KeepsBoth(old(store), store, Grants, {})
      ensures ok ==> ListsRows(items, store.Of(kind))
    {
      hide SameOthers, Quiet, Smooth, KeepsBoth, Proceeds, ListsRows;
      var fault := NextTurn(t);
      items := [];
      if fault != Fine {
        return false, items;
      }
      items := ItemsOf(store.Of(kind));
      return true, items;
    }

    /** Nobody else has written since the listing, or will. */
    ghost predicate QuietSince(t: Server, listed: Store)
      reads this
    {
      Quiet(turns) && SameOthers(t, listed, store)
    }

    /** With Kubernetes sessions it is enough that nothing is re-pointed. */
    ghost predicate PreciseSince(t: Server, listed: Store)
      reads this
    {
      QuietSince(t, listed) || (backend == Kubernetes && NoRepoint(turns) && Unmoved(t, listed, store))
    }

    /** The preconditioned patches of grants and Kubernetes sessions, or the backend's revoke. */
    method SwitchOffOne(t: Server, kind: Kind, item: Item, ghost listed: Store) returns (o: Outcome)
      requires UidsIssued(store) && ListedIn(t, listed, kind, item) && Evolves(t, listed, store)
      modifies this
      ensures Proceeds(t, old(store), old(turns), store, turns) && Evolves(t, listed, store)
      ensures old(QuietSince(t, listed)) ==> QuietSince(t, listed)
      ensures AllSafe(t, old(calls)) ==> AllSafe(t, calls)
      ensures (backend == Kubernetes || old(QuietSince(t, listed))) && AllPrecise(t, old(calls)) ==> AllPrecise(t, calls)
      ensures o != Failed && Holds(t, store.Of(kind), item.key) ==> store.Of(kind)[item.key].off
      ensures Smooth(old(turns)) ==> Smooth(turns) && KeepsBoth(old(store), store, kind, {item.key})
                                     && (AsListed(old(store).Of(kind), item) ==> o != Failed)
    {
      hide Others, Evolves, SafeCall, UidsIssued, SafeRows, UidsBelow, ListedIn, SwitchedOff, Holds, Quiet, Smooth,
           NoRepoint, Unmoved, Keeps;
      ghost var first, turns0 := store, turns;
      var fault := NextTurn(t);
      ghost var before := store;
      EvolvesTransitive(t, listed, first, before);
      ListedStays(t, listed, before, kind, item);
      SwitchedOffSafe(t, backend, kind, store.Of(kind), item, fault, store.nextUid);
      StoreCallSafe(t, store, kind, SwitchedOff(backend, kind, store.Of(kind), item, fault).0);
      SwitchedOffFine(backend, kind, store.Of(kind), item);
      var r := SwitchedOff(backend, kind, store.Of(kind), item, fault);
      store := store.With(kind, r.0);
      o := r.1;
      calls := calls + [Call(before, store)];
      SafeCallEvolves(t, Call(before, store));
      ProceedsByCall(t, first, turns0, before, turns, store);
      EvolvesTransitive(t, listed, before, store);
      KeepsThen(first, before, store, kind, item, {item.key});
    }

    /** `Delete` with a UID precondition, or the backend's delete. */
    method DeleteOne(t: Server, kind: Kind, item: Item, ghost listed: Store) returns (o: Outcome)
      requires UidsIssued(listed) && UidsIssued(store) && ListedIn(t, listed, kind, item) && Evolves(t, listed, store)
      requires EverythingOff(t, store)
      modifies this
      ensures Proceeds(t, old(store), old(turns), store, turns) && Evolves(t, listed, store) && EverythingOff(t, store)
      ensures old(QuietSince(t, listed)) ==> QuietSince(t, listed)
      ensures AllSafe(t, old(calls)) ==> AllSafe(t, calls)
      ensures old(PreciseSince(t, listed)) && AllPrecise(t, old(calls)) ==> AllPrecise(t, calls)
      ensures o != Failed ==> !Holds(t, store.Of(kind), item.key)
      ensures Smooth(old(turns)) ==> Smooth(turns) && KeepsBoth(old(store), store, kind, {})
                                     && (UidAsListed(old(store).Of(kind), item) ==> o != Failed)
    {
      hide Others, Evolves, SafeCall, UidsIssued, EverythingOff, SafeRows, UidsBelow, ListedIn, Deleted, Holds, Quiet,
           Smooth, NoRepoint, Unmoved, Keeps;
      ghost var first, turns0 := store, turns;
      var fault := NextTurn(t);
      ghost var before := store;
      EvolvesTransitive(t, listed, first, before);
      UnmovedTransitive(t, listed, first, before);
      StaysOff(t, first, before);
      ListedStays(t, listed, before, kind, item);
      DeletedSafe(t, backend, kind, store.Of(kind), item, fault, store.nextUid);
      StoreCallSafe(t, store, kind, Deleted(backend, kind, store.Of(kind), item, fault).0);
      DeletedFine(backend, kind, store.Of(kind), item);
      var r := Deleted(backend, kind, store.Of(kind), item, fault);
      store := store.With(kind, r.0);
      o := r.1;
      calls := calls + [Call(before, store)];
      SafeCallEvolves(t, Call(before, store));
      ProceedsByCall(t, first, turns0, before, turns, store);
      EvolvesTransitive(t, listed, before, store);
      StaysOff(t, before, store);
      KeepsThen(first, before, store, kind, item, {});
    }

    /** Success leaves every matching record off. It is certain when nothing fails, nobody else
        interferes but by dropping, and the records are as listed. */
    method SwitchOffAll(t: Server, kind: Kind, items: seq<Item>, ghost listed: Store) returns (ok: bool)
      requires UidsIssued(store) && Evolves(t, listed, store) && ListingOf(t, items, listed, kind)
      modifies this
      ensures Proceeds(t, old(store), old(turns), store, turns)
      ensures old(QuietSince(t, listed)) ==> QuietSince(t, listed)
      ensures AllSafe(t, old(calls)) ==> AllSafe(t, calls)
      ensures (backend == Kubernetes || old(QuietSince(t, listed))) && AllPrecise(t, old(calls)) ==> AllPrecise(t, calls)
      ensures ok ==> AllOff(t, store.Of(kind))
      ensures Smooth(old(turns)) && AllAsListed(old(store).Of(kind), items) ==>
                ok && Smooth(turns) && KeepsBoth(old(store), store, kind, KeysOf(items))
    {
      hide Quiet, Smooth, Proceeds, Evolves, UidsIssued, AllSafe, AllPrecise, ListedIn, Matches, SameOthers, Keeps, KeepsBoth,
           AsListed, AllAsListed, KeysOf, DistinctKeys;
      ghost var first, turns0 := store, turns;
      ProceedsReflexive(t, store, turns);
      KeepsNothing(store, kind, items);
      for i := 0 to |items|
        invariant Proceeds(t, first, turns0, store, turns) && Evolves(t, listed, store)
        invariant old(QuietSince(t, listed)) ==> QuietSince(t, listed)
        invariant AllSafe(t, old(calls)) ==> AllSafe(t, calls)
        invariant (backend == Kubernetes || old(QuietSince(t, listed))) && AllPrecise(t, old(calls)) ==> AllPrecise(t, calls)
        invariant forall j :: 0 <= j < i && Holds(t, store.Of(kind), items[j].key) ==> store.Of(kind)[items[j].key].off
        invariant Smooth(turns0) && AllAsListed(first.Of(kind), items) ==>
                    Smooth(turns) && KeepsBoth(first, store, kind, KeysOf(items[..i]))
      {
        var item := items[i];
        ghost var now, turns1 := store, turns;
        ProceedsEvolves(t, first, turns0, now, turns1);
        StillOff(t, listed, now, kind, item);
        StillAsListed(first, now, kind, items, i);
        EvolvesReflexive(t, now);
        if Matches(t, item.key, item.record) && !item.record.off {
          var o := SwitchOffOne(t, kind, item, listed);
          ProceedsEvolves(t, now, turns1, store, turns);
          OffStaysOff(t, now, store, kind);
          ProceedsTransitive(t, first, turns0, now, turns1, store, turns);
          if o == Failed {
            return false;
          }
          KeepsStep(first, now, store, kind, items, i);
        } else {
          KeepsSkip(first, now, kind, items, i);
        }
      }
      ListingCovers(t, listed, store, kind, items);
      assert items[..|items|] == items;
      return true;
    }

    /** Success leaves no matching record. It is certain when nothing fails, nobody else interferes
        but by dropping, and the UIDs are as listed. */
    method DeleteAll(t: Server, kind: Kind, items: seq<Item>, ghost listed: Store) returns (ok: bool)
      requires UidsIssued(listed) && UidsIssued(store) && Evolves(t, listed, store) && ListingOf(t, items, listed, kind)
      requires EverythingOff(t, store)
      modifies this
      ensures Proceeds(t, old(store), old(turns), store, turns) && EverythingOff(t, store)
      ensures old(QuietSince(t, listed)) ==> QuietSince(t, listed)
      ensures AllSafe(t, old(calls)) ==> AllSafe(t, calls)
      ensures old(PreciseSince(t, listed)) && AllPrecise(t, old(calls)) ==> AllPrecise(t, calls)
      ensures ok ==> forall k :: !Holds(t, store.Of(kind), k)
      ensures Smooth(old(turns)) && AllUidsAsListed(old(store).Of(kind), items) ==>
                ok && Smooth(turns) && KeepsBoth(old(store), store, kind, {})
    {
      hide Quiet, Smooth, Proceeds, Evolves, UidsIssued, AllSafe, AllPrecise, ListedIn, Matches, EverythingOff, SameOthers,
           Keeps, KeepsBoth, UidAsListed, AllUidsAsListed, NoRepoint, Unmoved;
      ghost var first, turns0 := store, turns;
      ProceedsReflexive(t, store, turns);
      KeepsNothing(store, kind, items);
      for i := 0 to |items|
        invariant Proceeds(t, first, turns0, store, turns) && Evolves(t, listed, store) && EverythingOff(t, store)
        invariant old(QuietSince(t, listed)) ==> QuietSince(t, listed)
        invariant old(PreciseSince(t, listed)) ==> PreciseSince(t, listed)
        invariant AllSafe(t, old(calls)) ==> AllSafe(t, calls)
        invariant old(PreciseSince(t, listed)) && AllPrecise(t, old(calls)) ==> AllPrecise(t, calls)
        invariant forall j :: 0 <= j < i ==> !Holds(t, store.Of(kind), items[j].key)
        invariant Smooth(turns0) && AllUidsAsListed(first.Of(kind), items) ==>
                    Smooth(turns) && KeepsBoth(first, store, kind, {})
      {
        var item := items[i];
        ghost var now, turns1 := store, turns;
        ProceedsEvolves(t, first, turns0, now, turns1);
        StillOff(t, listed, now, kind, item);
        UidStillAsListed(first, now, kind, items, i);
        if Matches(t, item.key, item.record) {
          var o := DeleteOne(t, kind, item, listed);
          ProceedsEvolves(t, now, turns1, store, turns);
          OffStaysOff(t, now, store, kind);
          ProceedsTransitive(t, first, turns0, now, turns1, store, turns);
          UnmovedTransitive(t, listed, now, store);
          if o == Failed {
            return false;
          }
          KeepsBothTransitive(first, now, store, kind, {}, {});
        }
      }
      ListingCovers(t, listed, store, kind, items);
      return true;
    }

    method RetireOnce(t: Server) returns (ok: bool)
      requires UidsIssued(store)
      modifies this
      ensures Proceeds(t, old(store), old(turns), store, turns)
      ensures Quiet(old(turns)) ==> Quiet(turns) && SameOthers(t, old(store), store)
      ensures AllSafe(t, old(calls)) ==> AllSafe(t, calls)
      ensures Undisturbed(backend, old(turns)) && AllPrecise(t, old(calls)) ==> AllPrecise(t, calls)
      ensures ok ==> forall kind: Kind, k :: !Holds(t, store.Of(kind), k)
      ensures Smooth(old(turns)) ==> ok
      ensures old(turns) != [] ==> |turns| < |old(turns)|
    {
      hide Quiet, Smooth, NoRepoint, Proceeds, Evolves, Unmoved, UidsIssued, AllSafe, AllPrecise, Matches, Others, ListsRows,
           Keeps, AllAsListed, AllUidsAsListed, KeysOf;
      ghost var s0, turns0 := store, turns;
      var listedGrants, grants := List(t, Grants);
      if !listedGrants { return false; }
      ghost var s1, turns1 := store, turns;
      ProceedsEvolves(t, s0, turns0, s1, turns1);
      ListingHolds(t, grants, s1, Grants);
      var listedSessions, sessions := List(t, Sessions);
      ghost var s2, turns2 := store, turns;
      ProceedsEvolves(t, s1, turns1, s2, turns2);
      ProceedsTransitive(t, s0, turns0, s1, turns1, s2, turns2);
      if !listedSessions { return false; }
      ListingHolds(t, sessions, s2, Sessions);
      ListingKept(grants, s1.grants, s2.grants, {});

      ok := SwitchOffAll(t, Grants, grants, s1);
      ghost var s3, turns3 := store, turns;
      ProceedsEvolves(t, s2, turns2, s3, turns3);
      ProceedsTransitive(t, s0, turns0, s2, turns2, s3, turns3);
      if !ok { return; }
      ProceedsTransitive(t, s1, turns1, s2, turns2, s3, turns3);
      ListingKept(sessions, s2.sessions, s3.sessions, {});
      ok := SwitchOffAll(t, Sessions, sessions, s2);
      ghost var s4, turns4 := store, turns;
      ProceedsEvolves(t, s3, turns3, s4, turns4);
      ProceedsTransitive(t, s0, turns0, s3, turns3, s4, turns4);
      if !ok { return; }
      ProceedsTransitive(t, s1, turns1, s3, turns3, s4, turns4);
      ProceedsTransitive(t, s2, turns2, s3, turns3, s4, turns4);
      ProceedsEvolves(t, s1, turns1, s4, turns4);
      ProceedsEvolves(t, s2, turns2, s4, turns4);
      OffStaysOff(t, s3, s4, Grants);
      assert s4.Of(Grants) == s4.grants && s3.Of(Grants) == s3.grants && s4.Of(Sessions) == s4.sessions;
      assert EverythingOff(t, s4);
      KeepsTransitive(s2.sessions, s3.sessions, s4.sessions, {}, KeysOf(sessions));
      ListingKept(sessions, s2.sessions, s4.sessions, {} + KeysOf(sessions));
      ok := DeleteAll(t, Sessions, sessions, s2);
      ghost var s5, turns5 := store, turns;
      ProceedsEvolves(t, s4, turns4, s5, turns5);
      ProceedsTransitive(t, s0, turns0, s4, turns4, s5, turns5);
      if !ok { return; }
      ProceedsTransitive(t, s1, turns1, s4, turns4, s5, turns5);
      ProceedsEvolves(t, s1, turns1, s5, turns5);
      GrantsKept(grants, s1.grants, s2.grants, s3.grants, s4.grants, s5.grants);
      ok := DeleteAll(t, Grants, grants, s1);
      ProceedsEvolves(t, s5, turns5, store, turns);
      ProceedsTransitive(t, s0, turns0, s5, turns5, store, turns);
      OffStaysOff(t, s5, store, Sessions);
    }

    /** Every call of a retirement is safe whatever fails and whatever the others do; when it
        reports success no matching grant or session is left. Calls touch matching records only,
        wherever sessions live while nobody else writes, and with Kubernetes sessions while
        nobody re-points a record. A smooth run succeeds. */
    method RetireServerAccess(t: Server) returns (ok: bool)
      requires UidsIssued(store)
      modifies this
      ensures ok ==> forall rows: Rows, k: Key :: rows in {store.grants, store.sessions} && k in rows ==>
                rows[k].refName != t.name || (if TrimSpace(rows[k].refNs) == "" then k.ns else TrimSpace(rows[k].refNs)) != t.ns
      ensures Quiet(old(turns)) ==>
                forall rows: Rows, rows': Rows, k: Key :: (rows, rows') in {(old(store).grants, store.grants), (old(store).sessions, store.sessions)} && k in rows ==>
                  || (rows[k].refName == t.name && (if TrimSpace(rows[k].refNs) == "" then k.ns else TrimSpace(rows[k].refNs)) == t.ns)
                  || (k in rows' && rows'[k] == rows[k])
      ensures AllSafe(t, old(calls)) ==>
                forall c, rows: Rows, k: Key ::
                  && c in calls && !(c.before.grants.Keys <= c.after.grants.Keys && c.before.sessions.Keys <= c.after.sessions.Keys)
                  && rows in {c.before.grants, c.before.sessions} && k in rows && rows[k].refName == t.name
                  && (if TrimSpace(rows[k].refNs) == "" then k.ns else TrimSpace(rows[k].refNs)) == t.ns ==>
                    rows[k].off
      ensures (Quiet(old(turns)) || (backend == Kubernetes && NoRepoint(old(turns)))) && AllPrecise(t, old(calls)) ==>
                forall c, k {:trigger c in calls, k in c.before.grants} ::
                  c in calls && k in c.before.grants ==>
                    || (c.before.grants[k].refName == t.name
                        && (if TrimSpace(c.before.grants[k].refNs) == "" then k.ns else TrimSpace(c.before.grants[k].refNs)) == t.ns)
                    || (k in c.after.grants && c.after.grants[k] == c.before.grants[k])
      ensures (Quiet(old(turns)) || (backend == Kubernetes && NoRepoint(old(turns)))) && AllPrecise(t, old(calls)) ==>
                forall c, k {:trigger c in calls, k in c.before.sessions} ::
                  c in calls && k in c.before.sessions ==>
                    || (c.before.sessions[k].refName == t.name
                        && (if TrimSpace(c.before.sessions[k].refNs) == "" then k.ns else TrimSpace(c.before.sessions[k].refNs)) == t.ns)
                    || (k in c.after.sessions && c.after.sessions[k] == c.before.sessions[k])
      ensures Proceeds(t, old(store), old(turns), store, turns)
      ensures Quiet(old(turns)) ==> Quiet(turns) && SameOthers(t, old(store), store)
      ensures AllSafe(t, old(calls)) ==> AllSafe(t, calls)
      ensures Undisturbed(backend, old(turns)) && AllPrecise(t, old(calls)) ==> AllPrecise(t, calls)
      ensures ok ==> forall kind: Kind, k :: !Holds(t, store.Of(kind), k)
      ensures Smooth(old(turns)) ==> ok
      ensures old(turns) != [] ==> |turns| < |old(turns)|
    {
      hide Quiet, NoRepoint, Smooth, Proceeds, AllSafe, AllPrecise, Matches, Others, Holds, TrimSpace;
      ghost var before, turns0 := store, turns;
      ok := RetireOnce(t);
      if ok {
        assert store.Of(Grants) == store.grants && store.Of(Sessions) == store.sessions;
        NoneMatches(t, store.grants);
        NoneMatches(t, store.sessions);
      }
      if AllSafe(t, calls) {
        SafeMeans(t, calls);
      }
      if AllPrecise(t, calls) {
        PreciseMeans(t, calls);
      }
      if Quiet(turns0) {
        OthersMean(t, before.grants, store.grants);
        OthersMean(t, before.sessions, store.sessions);
      }
    }

    /** Any number of failing attempts followed by one success. Every failing attempt uses up a
        turn, so finitely much trouble is overcome by retrying. */
    method RetireWithRetries(t: Server, attempts: nat) returns (ok: bool)
      requires UidsIssued(store) && calls == []
      modifies this
      ensures AllSafe(t, calls) && Evolves(t, old(store), store)
      ensures Undisturbed(backend, old(turns)) ==> AllPrecise(t, calls)
      ensures Quiet(old(turns)) ==> SameOthers(t, old(store), store)
      ensures ok ==> forall kind: Kind, k :: !Holds(t, store.Of(kind), k)
      ensures attempts > 0 && Smooth(old(turns)) ==> ok
      ensures attempts > |old(turns)| ==> ok
    {
      hide Quiet, NoRepoint, SameOthers, Evolves, UidsIssued, Holds, Unmoved;
      ok := false;
      ghost var first, turns0 := store, turns;
      ProceedsReflexive(t, store, turns);
      SameOthersReflexive(t, store);
      for i := 0 to attempts
        invariant Proceeds(t, first, turns0, store, turns) && AllSafe(t, calls)
        invariant Undisturbed(backend, turns0) ==> Undisturbed(backend, turns) && AllPrecise(t, calls)
        invariant Quiet(turns0) ==> Quiet(turns) && SameOthers(t, first, store)
        invariant !ok && i + |turns| <= |turns0|
        invariant if i == 0 then turns == turns0 else !Smooth(turns0)
      {
        ghost var now, turns1 := store, turns;
        ok := RetireServerAccess(t);
        ProceedsTransitive(t, first, turns0, now, turns1, store, turns);
        SameOthersTransitive(t, first, now, store);
        if ok { return; }
      }
    }
  }

  // ---------- Supporting facts ----------

  lemma NoneMatches(t: Server, rows: Rows)
    requires forall k :: !Holds(t, rows, k)
    ensures forall k :: k in rows ==>
              rows[k].refName != t.name || (if TrimSpace(rows[k].refNs) == "" then k.ns else TrimSpace(rows[k].refNs)) != t.ns
  {
    hide TrimSpace;
    forall k | k in rows
      ensures rows[k].refName != t.name || (if TrimSpace(rows[k].refNs) == "" then k.ns else TrimSpace(rows[k].refNs)) != t.ns
    {
      assert !Holds(t, rows, k);
    }
  }

  lemma OthersMean(t: Server, rows: Rows, rows': Rows)
    requires Others(t, rows') == Others(t, rows)
    ensures forall k :: k in rows ==>
              || (rows[k].refName == t.name && (if TrimSpace(rows[k].refNs) == "" then k.ns else TrimSpace(rows[k].refNs)) == t.ns)
              || (k in rows' && rows'[k] == rows[k])
  {
    hide TrimSpace;
    forall k | k in rows && !Matches(t, k, rows[k]) ensures k in rows' && rows'[k] == rows[k] {
      assert k in Others(t, rows);
    }
  }

  /** A call that removes any record meets every grant and session of the server already off. */
  lemma SafeMeans(t: Server, calls: seq<Call>)
    requires AllSafe(t, calls)
    ensures forall c, rows: Rows, k: Key ::
              && c in calls && !(c.before.grants.Keys <= c.after.grants.Keys && c.before.sessions.Keys <= c.after.sessions.Keys)
              && rows in {c.before.grants, c.before.sessions} && k in rows && rows[k].refName == t.name
              && (if TrimSpace(rows[k].refNs) == "" then k.ns else TrimSpace(rows[k].refNs)) == t.ns ==>
                rows[k].off
  {
    forall c | c in calls && !(c.before.grants.Keys <= c.after.grants.Keys && c.before.sessions.Keys <= c.after.sessions.Keys)
      ensures AllOff(t, c.before.grants) && AllOff(t, c.before.sessions)
    {
      hide AllOff, Evolves;
      assert SafeCall(t, c);
    }
    hide AllSafe, AllOff, TrimSpace, Matches, Holds;
    forall rows: Rows | AllOff(t, rows) {
      AllOffMeans(t, rows);
    }
  }

  lemma AllOffMeans(t: Server, rows: Rows)
    requires AllOff(t, rows)
    ensures forall k ::
              && k in rows && rows[k].refName == t.name
              && (if TrimSpace(rows[k].refNs) == "" then k.ns else TrimSpace(rows[k].refNs)) == t.ns ==>
                rows[k].off
  {
    hide TrimSpace;
    forall k | k in rows && Matches(t, k, rows[k]) ensures rows[k].off {
      assert Holds(t, rows, k);
    }
  }

  /** No call changes or removes a record of another server. */
  lemma PreciseMeans(t: Server, calls: seq<Call>)
    requires AllPrecise(t, calls)
    ensures forall c, k {:trigger c in calls, k in c.before.grants} ::
              c in calls && k in c.before.grants ==>
                || (c.before.grants[k].refName == t.name
                    && (if TrimSpace(c.before.grants[k].refNs) == "" then k.ns else TrimSpace(c.before.grants[k].refNs)) == t.ns)
                || (k in c.after.grants && c.after.grants[k] == c.before.grants[k])
    ensures forall c, k {:trigger c in calls, k in c.before.sessions} ::
              c in calls && k in c.before.sessions ==>
                || (c.before.sessions[k].refName == t.name
                    && (if TrimSpace(c.before.sessions[k].refNs) == "" then k.ns else TrimSpace(c.before.sessions[k].refNs)) == t.ns)
                || (k in c.after.sessions && c.after.sessions[k] == c.before.sessions[k])
  {
    forall c | c in calls
      ensures SameOthers(t, c.before, c.after)
    {
    }
    hide AllPrecise, Others, TrimSpace, Matches;
    forall c | c in calls {
      OthersMean(t, c.before.grants, c.after.grants);
    }
    forall c | c in calls {
      OthersMean(t, c.before.sessions, c.after.sessions);
    }
  }

  /** What holds of every step of the manager, from one state and what is to come to another. */
  ghost predicate Proceeds(t: Server, s: Store, turns: seq<Turn>, s': Store, turns': seq<Turn>) {
    && UidsIssued(s') && Evolves(t, s, s') && |turns'| <= |turns|
    && (NoRepoint(turns) ==> NoRepoint(turns') && Unmoved(t, s, s'))
  }

  lemma ProceedsReflexive(t: Server, s: Store, turns: seq<Turn>)
    requires UidsIssued(s)
    ensures Proceeds(t, s, turns, s, turns)
  {
    hide Evolves, UidsIssued, Unmoved;
    EvolvesReflexive(t, s);
  }

  lemma ProceedsEvolves(t: Server, s: Store, turns: seq<Turn>, s': Store, turns': seq<Turn>)
    requires Proceeds(t, s, turns, s', turns')
    ensures UidsIssued(s') && Evolves(t, s, s') && |turns'| <= |turns|
    ensures NoRepoint(turns) ==> NoRepoint(turns') && Unmoved(t, s, s')
  {
    hide Evolves, UidsIssued, Unmoved, NoRepoint;
  }

  lemma ProceedsTransitive(t: Server, a: Store, ta: seq<Turn>, b: Store, tb: seq<Turn>, c: Store, tc: seq<Turn>)
    requires UidsIssued(a) && Proceeds(t, a, ta, b, tb) && Proceeds(t, b, tb, c, tc)
    ensures Proceeds(t, a, ta, c, tc)
  {
    hide Evolves, UidsIssued, Unmoved, NoRepoint;
    EvolvesTransitive(t, a, b, c);
    UnmovedTransitive(t, a, b, c);
  }

  lemma ProceedsByCall(t: Server, a: Store, ta: seq<Turn>, b: Store, tb: seq<Turn>, c: Store)
    requires UidsIssued(a) && Proceeds(t, a, ta, b, tb)
    requires UidsIssued(c) && Evolves(t, b, c) && Unmoved(t, b, c)
    ensures Proceeds(t, a, ta, c, tb)
  {
    hide Evolves, UidsIssued, Unmoved, NoRepoint;
    EvolvesTransitive(t, a, b, c);
    UnmovedTransitive(t, a, b, c);
  }

  lemma SameOthersReflexive(t: Server, s: Store)
    ensures SameOthers(t, s, s)
  {
    hide Matches;
  }

  lemma SameOthersTransitive(t: Server, a: Store, b: Store, c: Store)
    ensures SameOthers(t, a, b) && SameOthers(t, b, c) ==> SameOthers(t, a, c)
  {
    hide Others;
  }

  function KeysOf(items: seq<Item>): set<Key> { set i | 0 <= i < |items| :: items[i].key }

  lemma KeepsBothTransitive(a: Store, b: Store, c: Store, kind: Kind, changed: set<Key>, changed': set<Key>)
    ensures KeepsBoth(a, b, kind, changed) && KeepsBoth(b, c, kind, changed') ==> KeepsBoth(a, c, kind, changed + changed')
    ensures KeepsBoth(a, b, kind, changed) && KeepsBoth(b, c, kind, changed) ==> KeepsBoth(a, c, kind, changed)
  {
  }

  /** The turn of the others, and then a call on one row. */
  lemma KeepsThen(s: Store, s1: Store, s': Store, kind: Kind, item: Item, changed: set<Key>)
    requires s' == s1.With(kind, s'.Of(kind))
    ensures KeepsBoth(s, s1, Grants, {}) && Keeps(s1.Of(kind), s'.Of(kind), changed) ==> KeepsBoth(s, s', kind, changed)
    ensures KeepsBoth(s, s1, Grants, {}) ==>
              && (AsListed(s.Of(kind), item) ==> AsListed(s1.Of(kind), item))
              && (UidAsListed(s.Of(kind), item) ==> UidAsListed(s1.Of(kind), item))
  {
  }

  lemma KeepsNothing(s: Store, kind: Kind, items: seq<Item>)
    ensures KeepsBoth(s, s, kind, {}) && KeepsBoth(s, s, kind, KeysOf(items[..0]))
  {
  }

  lemma KeepsStep(s: Store, s1: Store, s': Store, kind: Kind, items: seq<Item>, i: nat)
    requires i < |items|
    ensures KeepsBoth(s, s1, kind, KeysOf(items[..i])) && KeepsBoth(s1, s', kind, {items[i].key}) ==>
              KeepsBoth(s, s', kind, KeysOf(items[..i + 1]))
  {
    hide KeepsBoth;
    KeepsBothTransitive(s, s1, s', kind, KeysOf(items[..i]), {items[i].key});
    assert KeysOf(items[..i + 1]) == KeysOf(items[..i]) + {items[i].key} by {
      assert forall j :: 0 <= j < i ==> items[..i][j] == items[..i + 1][j];
      assert items[..i + 1][i] == items[i];
    }
  }

  lemma KeepsSkip(s: Store, s': Store, kind: Kind, items: seq<Item>, i: nat)
    requires i < |items|
    ensures KeepsBoth(s, s', kind, KeysOf(items[..i])) ==> KeepsBoth(s, s', kind, KeysOf(items[..i + 1]))
  {
    hide KeysOf;
    assert KeepsBoth(s', s', kind, {items[i].key});
    KeepsStep(s, s', s', kind, items, i);
  }

  lemma StillAsListed(s: Store, s': Store, kind: Kind, items: seq<Item>, i: nat)
    requires i < |items| && DistinctKeys(items)
    ensures AllAsListed(s.Of(kind), items) && KeepsBoth(s, s', kind, KeysOf(items[..i])) ==> AsListed(s'.Of(kind), items[i])
  {
    assert items[i].key !in KeysOf(items[..i]);
  }

  lemma UidStillAsListed(s: Store, s': Store, kind: Kind, items: seq<Item>, i: nat)
    requires i < |items|
    ensures AllUidsAsListed(s.Of(kind), items) && KeepsBoth(s, s', kind, {}) ==> UidAsListed(s'.Of(kind), items[i])
  {
  }

  lemma ListingKept(items: seq<Item>, listed: Rows, rows: Rows, changed: set<Key>)
    requires ListsRows(items, listed)
    ensures Keeps(listed, rows, {}) ==> AllAsListed(rows, items)
    ensures Keeps(listed, rows, changed) ==> AllUidsAsListed(rows, items)
  {
  }

  lemma GrantsKept(items: seq<Item>, r1: Rows, r2: Rows, r3: Rows, r4: Rows, r5: Rows)
    requires ListsRows(items, r1)
    ensures Keeps(r1, r2, {}) && Keeps(r2, r3, KeysOf(items)) && Keeps(r3, r4, {}) && Keeps(r4, r5, {}) ==>
              AllUidsAsListed(r5, items)
  {
    hide Keeps, AllUidsAsListed, KeysOf, ListsRows;
    var keys := KeysOf(items);
    KeepsTransitive(r1, r2, r3, {}, keys);
    KeepsTransitive(r1, r3, r4, {} + keys, {});
    KeepsTransitive(r1, r4, r5, {} + keys + {}, {});
    ListingKept(items, r1, r5, {} + keys + {} + {});
  }

  ghost predicate ListingOf(t: Server, items: seq<Item>, listed: Store, kind: Kind) {
    && DistinctKeys(items)
    && (forall k :: Holds(t, listed.Of(kind), k) ==> exists i :: 0 <= i < |items| && items[i].key == k)
    && forall i :: 0 <= i < |items| ==>
         items[i].key in listed.Of(kind) && items[i].record == listed.Of(kind)[items[i].key]
         && (Matches(t, items[i].key, items[i].record) ==> ListedIn(t, listed, kind, items[i]))
  }

  lemma ListingHolds(t: Server, items: seq<Item>, listed: Store, kind: Kind)
    requires UidsIssued(listed)
    requires ListsRows(items, listed.Of(kind))
    ensures ListingOf(t, items, listed, kind)
  {
    hide Matches;
    forall k | Holds(t, listed.Of(kind), k) ensures exists i :: 0 <= i < |items| && items[i].key == k {
      assert Item(k, listed.Of(kind)[k]) in items;
    }
  }

  lemma ListingCovers(t: Server, listed: Store, s: Store, kind: Kind, items: seq<Item>)
    requires ListingOf(t, items, listed, kind) && Evolves(t, listed, s)
    ensures forall k :: Holds(t, s.Of(kind), k) ==> exists i :: 0 <= i < |items| && items[i].key == k
  {
    hide Matches;
    OffStaysOff(t, listed, s, kind);
  }

  lemma EvolvesReflexive(t: Server, s: Store)
    ensures Evolves(t, s, s) && Unmoved(t, s, s) && KeepsBoth(s, s, Grants, {})
  {
    hide Matches;
  }

  lemma SafeCallEvolves(t: Server, c: Call)
    requires SafeCall(t, c)
    ensures Evolves(t, c.before, c.after)
  {
    hide Evolves, SameOthers;
  }

  lemma StaysOff(t: Server, s: Store, s': Store)
    requires Evolves(t, s, s') && EverythingOff(t, s)
    ensures EverythingOff(t, s')
  {
    hide Matches;
  }

  lemma OffStaysOff(t: Server, s: Store, s': Store, kind: Kind)
    requires Evolves(t, s, s')
    ensures forall k :: Holds(t, s'.Of(kind), k) ==> Holds(t, s.Of(kind), k) && (s.Of(kind)[k].off ==> s'.Of(kind)[k].off)
  {
    hide Matches;
  }

  lemma StillOff(t: Server, listed: Store, s: Store, kind: Kind, item: Item)
    requires Evolves(t, listed, s) && item.key in listed.Of(kind) && listed.Of(kind)[item.key] == item.record
    ensures Holds(t, s.Of(kind), item.key) ==> Matches(t, item.key, item.record)
                                               && (item.record.off ==> s.Of(kind)[item.key].off)
  {
    hide TrimSpace;
  }
}
