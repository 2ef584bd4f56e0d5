/** The server-UID fence between authorization writes and rendered policies
    (pkg/access/retirement.go, pkg/access/manager.go, internal/operator/policy.go). */
module ServerFence {
  import opened Text
  import opened Wrappers

  datatype Key = Key(ns: string, name: string)

  /** An MCPServer: its UID (none when blank), whether it carries the retiring annotation, and
      whether it has a deletion time. */
  datatype Server = Server(uid: Option<nat>, retiring: bool, deleting: bool)

  /** A grant as stored or sent; `bound` is its server-uid annotation. */
  datatype Grant = Grant(refNs: string, refName: string, bound: Option<nat>, disabled: bool)

  const DEFAULT_NAMESPACE := "mcp-servers"

  // ---------- Binding ----------

  datatype BindError = NameRequired | LookupFailed | ServerRetiring | BelongsToRetiredServer

  /** `GetMCPServerRef` after `bindServerUID` filled in the object's namespace. */
  function BindTarget(objectNs: string, g: Grant): Key {
    var ns := if TrimSpace(g.refNs) == "" then TrimSpace(objectNs) else TrimSpace(g.refNs);
    Key(if ns == "" then DEFAULT_NAMESPACE else ns, TrimSpace(g.refName))
  }

  /** `GetActiveMCPServerRef`: a retiring server and one being deleted take no new access. */
  predicate Active(server: Server) { !server.retiring && !server.deleting }

  function Bind(servers: map<Key, Server>, objectNs: string, g: Grant): Result<Grant, BindError> {
    var target := BindTarget(objectNs, g);
    if target.name == "" then Err(NameRequired)
    else if target !in servers then Ok(g)
    else if !Active(servers[target]) then Err(ServerRetiring)
    else if servers[target].uid.None? then Ok(g)
    else if g.bound.Some? && g.bound != servers[target].uid then Err(BelongsToRetiredServer)
    else Ok(g.(bound := servers[target].uid))
  }

  /** Binding when the lookup of the server may fail. */
  function BindOver(servers: map<Key, Server>, lookupFails: bool, objectNs: string, g: Grant): Result<Grant, BindError> {
    if lookupFails && BindTarget(objectNs, g).name != "" then Err(LookupFailed) else Bind(servers, objectNs, g)
  }

  class GrantObject {
    const ns: string
    var grant: Grant

    constructor (ns: string, grant: Grant)
      ensures this.ns == ns && this.grant == grant
    {
      this.ns, this.grant := ns, grant;
    }

    method BindServerUID(servers: map<Key, Server>, lookupFails: bool) returns (err: Option<BindError>)
      modifies this
      ensures grant == match BindOver(servers, lookupFails, ns, old(grant)) case Ok(g) => g case Err(_) => old(grant)
      ensures err == match BindOver(servers, lookupFails, ns, old(grant)) case Ok(_) => None case Err(e) => Some(e)
      ensures var own := if TrimSpace(old(grant).refNs) == "" then TrimSpace(ns) else TrimSpace(old(grant).refNs);
              var target := Key(if own == "" then "mcp-servers" else own, TrimSpace(old(grant).refName));
              && (err == Some(NameRequired) <==> target.name == "")
              && (err == Some(LookupFailed) <==> target.name != "" && lookupFails)
              && (target.name != "" && !lookupFails && target !in servers ==> err == None && grant == old(grant))
              && (target.name != "" && !lookupFails && target in servers ==>
                    var server := servers[target];
                    && (err == Some(ServerRetiring) <==> server.retiring || server.deleting)
                    && (err == Some(BelongsToRetiredServer) <==>
                          !server.retiring && !server.deleting && server.uid.Some? && old(grant).bound.Some?
                          && old(grant).bound != server.uid)
                    && (err == None && server.uid.Some? ==> grant == old(grant).(bound := server.uid))
                    && (err == None && server.uid.None? ==> grant == old(grant)))
      ensures err.Some? ==> grant == old(grant)
    {
      hide TrimSpace;
      var target := BindTarget(ns, grant);
      if target.name == "" {
        return Some(NameRequired);
      }
      if lookupFails {
        return Some(LookupFailed);
      }
      if target !in servers {
        return None;
      }
      var server := servers[target];
      if server.retiring || server.deleting {
        return Some(ServerRetiring);
      }
      if server.uid == None {
        return None;
      }
      if grant.bound.Some? && grant.bound != server.uid {
        return Some(BelongsToRetiredServer);
      }
      grant := grant.(bound := server.uid);
      return None;
    }
  }

  // ---------- Rendering ----------

  datatype Item = Item(key: Key, grant: Grant)

  /** `effectiveServerReference`. */
  function EffectiveRef(key: Key, g: Grant): Key {
    Key(if TrimSpace(g.refNs) == "" then key.ns else TrimSpace(g.refNs), g.refName)
  }

  predicate Renders(key: Key, server: Server, item: Item) {
    && !server.retiring
    && (item.grant.bound.Some? ==> item.grant.bound == server.uid)
    && EffectiveRef(item.key, item.grant) == key
  }

  function Selected(key: Key, server: Server, items: seq<Item>): seq<Item> {
    if items == [] then []
    else
      var n := |items| - 1;
      Selected(key, server, items[..n]) + if Renders(key, server, items[n]) then [items[n]] else []
  }

  /** The grant loop of `renderGatewayPolicy`. */
  method SelectGrants(key: Key, server: Server, items: seq<Item>) returns (doc: seq<Item>)
    ensures doc == Selected(key, server, items)
    ensures forall it :: it in doc <==>
              && it in items && !server.retiring && (it.grant.bound == None || it.grant.bound == server.uid)
              && it.grant.refName == key.name
              && key.ns == if TrimSpace(it.grant.refNs) == "" then it.key.ns else TrimSpace(it.grant.refNs)
  {
    SelectedMembers(key, server, items);
    hide TrimSpace;
    doc := [];
    for i := 0 to |items|
      invariant doc == Selected(key, server, items[..i])
    {
      var item := items[i];
      assert items[..i + 1][..i] == items[..i];
      if server.retiring {
        continue;
      }
      if item.grant.bound.Some? && item.grant.bound != server.uid {
        continue;
      }
      if EffectiveRef(item.key, item.grant) != key {
        continue;
      }
      doc := doc + [item];
    }
    assert items[..|items|] == items;
  }

  /** Selection goes through the listing grant by grant, keeping its order. */
  lemma {:induction false} SelectedOneByOne(key: Key, server: Server, items: seq<Item>, more: seq<Item>)
    ensures Selected(key, server, items + more) == Selected(key, server, items) + Selected(key, server, more)
  {
    hide Renders;
    if more == [] {
      assert items + more == items;
    } else {
      var n := |more| - 1;
      SelectedOneByOne(key, server, items, more[..n]);
      assert (items + more)[..|items + more| - 1] == items + more[..n];
    }
  }

  lemma {:induction false} SelectedMembers(key: Key, server: Server, items: seq<Item>)
    ensures forall it :: it in Selected(key, server, items) <==> it in items && Renders(key, server, it)
  {
    hide Renders;
    if items != [] {
      var n := |items| - 1;
      SelectedMembers(key, server, items[..n]);
      assert items == items[..n] + [items[n]];
    }
  }

  // ---------- Histories of publishing, retiring, applying and rendering ----------

  /** An apply that has been bound and not yet written. */
  datatype Pending = Pending(key: Key, grant: Grant)

  datatype Cluster = Cluster(
    servers: map<Key, Server>,
    nextUid: nat,
    grants: map<Key, Grant>,
    pending: map<nat, Pending>,
    fetched: Option<(Key, Server)>,
    ghost lastBound: map<Key, nat>)

  datatype Action =
    | Publish(server: Key)
    | MarkRetiring(server: Key)
    | MarkDeleting(server: Key)
    | DeleteServer(server: Key)
    | BeginApply(id: nat, key: Key, grant: Grant)
    | CompleteApply(id: nat)
    | FailApply(id: nat)
    | SetDisabled(key: Key, disabled: bool)
    | DeleteGrant(key: Key)
    | FetchServer(server: Key)
    | Render(listing: seq<Item>)

  /** The stored grant after an apply: annotations merge right-biased, the rest is replaced. */
  function Written(s: Cluster, p: Pending): Grant {
    if p.key in s.grants && p.grant.bound.None? then p.grant.(bound := s.grants[p.key].bound) else p.grant
  }

  ghost predicate Lists(items: seq<Item>, grants: map<Key, Grant>) {
    && (forall it :: it in items ==> it.key in grants && it.grant == grants[it.key])
    && forall k :: k in grants ==> Item(k, grants[k]) in items
  }

  ghost predicate Step(s: Cluster, a: Action, s': Cluster) {
    match a
    case Publish(k) =>
      k !in s.servers && s' == s.(servers := s.servers[k := Server(Some(s.nextUid), false, false)], nextUid := s.nextUid + 1)
    case MarkRetiring(k) => k in s.servers && s' == s.(servers := s.servers[k := s.servers[k].(retiring := true)])
    case MarkDeleting(k) => k in s.servers && s' == s.(servers := s.servers[k := s.servers[k].(deleting := true)])
    case DeleteServer(k) => k in s.servers && s' == s.(servers := s.servers - {k})
    case BeginApply(id, key, grant) =>
      var b := Bind(s.servers, key.ns, grant);
      id !in s.pending && s' == if b.Ok? then s.(pending := s.pending[id := Pending(key, b.value)]) else s
    case CompleteApply(id) =>
      && id in s.pending
      && var p := s.pending[id];
         s' == s.(grants := s.grants[p.key := Written(s, p)],
                  pending := s.pending - {id},
                  lastBound := if p.grant.bound.Some? then s.lastBound[p.key := p.grant.bound.value]
                               else if p.key in s.grants then s.lastBound else s.lastBound - {p.key})
    case FailApply(id) => id in s.pending && s' == s.(pending := s.pending - {id})
    case SetDisabled(k, d) => k in s.grants && s' == s.(grants := s.grants[k := s.grants[k].(disabled := d)])
    case DeleteGrant(k) => s' == s.(grants := s.grants - {k}, lastBound := s.lastBound - {k})
    case FetchServer(k) => k in s.servers && s' == s.(fetched := Some((k, s.servers[k])))
    case Render(listing) => s.fetched.Some? && Lists(listing, s.grants) && s' == s.(fetched := None)
  }

  datatype Run = Run(states: seq<Cluster>, actions: seq<Action>)

  ghost predicate IsRun(r: Run) {
    && |r.states| == |r.actions| + 1
    && forall i :: 0 <= i < |r.actions| ==> Step(r.states[i], r.actions[i], r.states[i + 1])
  }

  /** The grants that step i, a render, writes into the policy of the server it fetched. */
  function Policy(r: Run, i: nat): seq<Item>
    requires i < |r.states| && i < |r.actions| && r.actions[i].Render? && r.states[i].fetched.Some?
  {
    Selected(r.states[i].fetched.value.0, r.states[i].fetched.value.1, r.actions[i].listing)
  }

  ghost predicate RendersAt(r: Run, i: nat) { i < |r.actions| < |r.states| && r.actions[i].Render? && r.states[i].fetched.Some? }

  // ---------- The fence ----------

  /** The stored annotation is the UID of the last apply that bound the grant. */
  ghost predicate BoundByLastApply(s: Cluster) {
    forall k :: k in s.lastBound ==> k in s.grants && s.grants[k].bound == Some(s.lastBound[k])
  }

  lemma BoundByLastApplyStep(s: Cluster, a: Action, s': Cluster)
    requires Step(s, a, s') && BoundByLastApply(s)
    ensures BoundByLastApply(s')
  {
    hide Bind;
  }

  lemma {:induction false} BoundByLastApplyAlways(r: Run, i: nat)
    requires IsRun(r) && BoundByLastApply(r.states[0]) && i < |r.states|
    ensures BoundByLastApply(r.states[i])
  {
    hide Step, BoundByLastApply;
    if i > 0 {
      BoundByLastApplyAlways(r, i - 1);
      assert Step(r.states[i - 1], r.actions[i - 1], r.states[i]);
      BoundByLastApplyStep(r.states[i - 1], r.actions[i - 1], r.states[i]);
    }
  }

  /** Whatever the history, a grant bound by its last successful apply to UID u is rendered only
      into the policy of a server it names, with UID u, that was not marked retiring when the
      reconcile fetched it. */
  lemma RenderedOnlyForItsServer(r: Run, i: nat, item: Item)
    requires IsRun(r) && BoundByLastApply(r.states[0]) && RendersAt(r, i)
    requires item in Policy(r, i)
    ensures var (key, server) := r.states[i].fetched.value;
            && item.grant.refName == key.name
            && key.ns == (if TrimSpace(item.grant.refNs) == "" then item.key.ns else TrimSpace(item.grant.refNs))
            && !server.retiring && (item.grant.bound == None || item.grant.bound == server.uid)
            && (item.key in r.states[i].lastBound ==> server.uid == Some(r.states[i].lastBound[item.key]))
  {
    hide TrimSpace, Bind;
    BoundByLastApplyAlways(r, i);
    assert Step(r.states[i], r.actions[i], r.states[i + 1]);
    SelectedMembers(r.states[i].fetched.value.0, r.states[i].fetched.value.1, r.actions[i].listing);
  }

  // ---------- Retirement is final ----------

  predicate HasUid(server: Server, u: nat) { server.uid == Some(u) }

  /** The incarnation u is over or on its way out: no server has UID u without being marked
      retiring, and u has already been issued. */
  ghost predicate Retired(s: Cluster, u: nat) {
    && u < s.nextUid
    && forall k :: k in s.servers && HasUid(s.servers[k], u) ==> s.servers[k].retiring
  }

  /** The API server has issued every UID once. */
  ghost predicate UidsIssued(s: Cluster) {
    && (forall k :: k in s.servers ==> s.servers[k].uid.Some? && s.servers[k].uid.value < s.nextUid)
    && forall k, l :: k in s.servers && l in s.servers && s.servers[k].uid == s.servers[l].uid ==> k == l
  }

  /** UIDs are never reissued and a retiring server is never unmarked. */
  lemma RetiredStep(s: Cluster, a: Action, s': Cluster, u: nat)
    requires Step(s, a, s')
    ensures Retired(s, u) ==> Retired(s', u)
    ensures s.nextUid <= s'.nextUid
  {
    hide Bind, Written, Lists;
  }

  lemma UidsIssuedStep(s: Cluster, a: Action, s': Cluster)
    requires Step(s, a, s') && UidsIssued(s)
    ensures UidsIssued(s')
  {
    hide Bind, Written, Lists;
  }

  lemma {:induction false} RetiredForever(r: Run, u: nat, i: nat, j: nat)
    requires IsRun(r) && i <= j < |r.states|
    ensures Retired(r.states[i], u) ==> Retired(r.states[j], u)
    ensures UidsIssued(r.states[i]) ==> UidsIssued(r.states[j])
    ensures r.states[i].nextUid <= r.states[j].nextUid
    decreases j - i
  {
    hide Step, Retired, UidsIssued;
    if i < j {
      RetiredForever(r, u, i, j - 1);
      assert Step(r.states[j - 1], r.actions[j - 1], r.states[j]);
      RetiredStep(r.states[j - 1], r.actions[j - 1], r.states[j], u);
      if UidsIssued(r.states[j - 1]) {
        UidsIssuedStep(r.states[j - 1], r.actions[j - 1], r.states[j]);
      }
    }
  }

  // ---------- The reconcile in flight ----------

  /** Step f fetched the server that a render at step i would use. */
  ghost predicate LastFetch(r: Run, f: nat, i: nat) {
    && f < i <= |r.actions| && r.actions[f].FetchServer?
    && forall j :: f < j < i ==> !r.actions[j].FetchServer? && !r.actions[j].Render?
  }

  /** Step m retires the incarnation u: its server is marked or removed. */
  ghost predicate RetiresAt(r: Run, m: nat, u: nat) {
    m < |r.actions| && m < |r.states| && Retires(r.states[m], r.actions[m], u)
  }

  ghost predicate FetchedUid(r: Run, f: nat, u: nat) {
    && f < |r.actions| && f < |r.states| && r.actions[f].FetchServer?
    && r.actions[f].server in r.states[f].servers && HasUid(r.states[f].servers[r.actions[f].server], u)
  }

  /** The last fetch before step i took the incarnation u, which was retired only after it. */
  ghost predicate FetchedBeforeRetirement(r: Run, i: nat, u: nat) {
    exists f: nat, m: nat :: LastFetch(r, f, i) && FetchedUid(r, f, u) && f < m < i && RetiresAt(r, m, u)
  }

  lemma FetchedStep(s: Cluster, a: Action, s': Cluster)
    requires Step(s, a, s')
    ensures a.FetchServer? ==> a.server in s.servers && s'.fetched == Some((a.server, s.servers[a.server]))
    ensures a.Render? ==> s'.fetched.None?
    ensures !a.FetchServer? && !a.Render? ==> s'.fetched == s.fetched
  {
    hide Bind;
  }

  lemma {:induction false} FetchedSince(r: Run, f: nat, i: nat)
    requires IsRun(r) && LastFetch(r, f, i)
    ensures r.actions[f].server in r.states[f].servers
    ensures r.states[i].fetched == Some((r.actions[f].server, r.states[f].servers[r.actions[f].server]))
    decreases i
  {
    hide Step;
    assert Step(r.states[f], r.actions[f], r.states[f + 1]);
    FetchedStep(r.states[f], r.actions[f], r.states[f + 1]);
    if f + 1 < i {
      FetchedSince(r, f, i - 1);
      assert Step(r.states[i - 1], r.actions[i - 1], r.states[i]);
      FetchedStep(r.states[i - 1], r.actions[i - 1], r.states[i]);
    }
  }

  /** What is in flight at step i was fetched in this run, or was in flight all along. */
  lemma {:induction false} FetchExists(r: Run, i: nat)
    requires IsRun(r) && i < |r.states| && r.states[i].fetched.Some?
    ensures (exists f: nat :: LastFetch(r, f, i))
      || (r.states[0].fetched == r.states[i].fetched
          && forall j :: 0 <= j < i ==> !r.actions[j].FetchServer? && !r.actions[j].Render?)
  {
    hide Step;
    if i > 0 {
      assert Step(r.states[i - 1], r.actions[i - 1], r.states[i]);
      FetchedStep(r.states[i - 1], r.actions[i - 1], r.states[i]);
      if r.actions[i - 1].FetchServer? {
        assert LastFetch(r, i - 1, i);
      } else {
        FetchExists(r, i - 1);
        var before := i - 1;
        if exists f: nat :: LastFetch(r, f, before) {
          var f: nat :| LastFetch(r, f, before);
          assert LastFetch(r, f, i);
        }
      }
    }
  }

  predicate Retires(s: Cluster, a: Action, u: nat) {
    && (a.MarkRetiring? || a.DeleteServer?) && a.server in s.servers
    && HasUid(s.servers[a.server], u) && !s.servers[a.server].retiring
  }

  lemma RetiringStep(s: Cluster, a: Action, s': Cluster, u: nat)
    requires Step(s, a, s') && u < s.nextUid && !Retired(s, u) && Retired(s', u)
    ensures Retires(s, a, u)
  {
    hide Bind, Written, Lists;
    var k :| k in s.servers && HasUid(s.servers[k], u) && !s.servers[k].retiring;
    assert k in s'.servers ==> HasUid(s'.servers[k], u);
  }

  lemma {:induction false} RetiredMeanwhile(r: Run, f: nat, i: nat, u: nat) returns (m: nat)
    requires IsRun(r) && f < i < |r.states| && u < r.states[f].nextUid
    requires !Retired(r.states[f], u) && Retired(r.states[i], u)
    ensures f <= m < i && RetiresAt(r, m, u)
  {
    hide Step, Retired, Retires, UidsIssued;
    RetiredForever(r, u, f, i - 1);
    if Retired(r.states[i - 1], u) {
      m := RetiredMeanwhile(r, f, i - 1, u);
    } else {
      assert Step(r.states[i - 1], r.actions[i - 1], r.states[i]);
      RetiringStep(r.states[i - 1], r.actions[i - 1], r.states[i], u);
      m := i - 1;
    }
  }

  /** The incarnation was live when fetched exactly when it was retired after the fetch. */
  lemma LiveWhenFetched(r: Run, f: nat, i: nat, u: nat)
    requires IsRun(r) && UidsIssued(r.states[0]) && f < i < |r.states|
    requires FetchedUid(r, f, u) && Retired(r.states[i], u)
    ensures !r.states[f].servers[r.actions[f].server].retiring <==> exists m: nat :: f < m < i && RetiresAt(r, m, u)
  {
    RetiredForever(r, u, 0, f);
    var k := r.actions[f].server;
    if !r.states[f].servers[k].retiring {
      var m := RetiredMeanwhile(r, f, i, u);
      assert m != f;
    } else {
      assert Retired(r.states[f], u);
      forall m: nat | f < m < i ensures !RetiresAt(r, m, u) {
        RetiredForever(r, u, f, m);
      }
    }
  }

  /** While the incarnation u is retired, a listed grant that is bound to u and refers to the
      fetched server is rendered exactly when the last fetch took u and preceded the step that
      retired it: only a reconcile already in flight gets past the fence. */
  lemma RenderedWhileRetiredIff(r: Run, i: nat, u: nat, item: Item)
    requires IsRun(r) && UidsIssued(r.states[0]) && r.states[0].fetched.None? && RendersAt(r, i)
    requires Retired(r.states[i], u)
    requires item in r.actions[i].listing && item.grant.bound == Some(u)
    requires EffectiveRef(item.key, item.grant) == r.states[i].fetched.value.0
    ensures item in Policy(r, i) <==> FetchedBeforeRetirement(r, i, u)
  {
    hide EffectiveRef, Step, Retired, UidsIssued, RetiresAt, LastFetch;
    SelectedMembers(r.states[i].fetched.value.0, r.states[i].fetched.value.1, r.actions[i].listing);
    FetchExists(r, i);
    var f: nat :| LastFetch(r, f, i);
    FetchIsUnique(r, f, i);
    FetchedSince(r, f, i);
    if FetchedUid(r, f, u) {
      LiveWhenFetched(r, f, i, u);
    }
  }

  lemma FetchIsUnique(r: Run, f: nat, i: nat)
    requires LastFetch(r, f, i)
    ensures f < i <= |r.actions| && r.actions[f].FetchServer?
    ensures forall g: nat :: LastFetch(r, g, i) ==> g == f
  {
  }

  /** Once the incarnation u is marked retiring or gone, and whatever is published under its
      name afterwards, a grant bound to u, even one written by an apply that was bound before
      the retirement and completes arbitrarily late, is rendered by at most the one reconcile
      that was already in flight: nothing was fetched or rendered before that render. */
  lemma DelayedApplyIsFenced(r: Run, u: nat, i: nat, item: Item)
    requires IsRun(r) && Retired(r.states[0], u) && RendersAt(r, i)
    requires item in Policy(r, i) && item.grant.bound == Some(u)
    ensures forall j :: 0 <= j < i ==> !r.actions[j].FetchServer? && !r.actions[j].Render?
    ensures r.states[0].fetched == r.states[i].fetched
  {
    hide EffectiveRef, Step, LastFetch;
    SelectedMembers(r.states[i].fetched.value.0, r.states[i].fetched.value.1, r.actions[i].listing);
    FetchExists(r, i);
    forall f: nat | LastFetch(r, f, i)
      ensures HasUid(r.states[i].fetched.value.1, u) ==> r.states[i].fetched.value.1.retiring
    {
      FetchIsUnique(r, f, i);
      FetchedSince(r, f, i);
      RetiredForever(r, u, 0, f);
    }
  }

  /** The window is real: a server fetched, then marked retiring, still gets its grant. */
  lemma InFlightRender(k: Key, g: Grant) returns (r: Run)
    requires EffectiveRef(k, g) == k && g.bound == Some(0)
    ensures IsRun(r) && UidsIssued(r.states[0]) && r.states[0].fetched.None? && RendersAt(r, 2)
    ensures Retired(r.states[2], 0) && k in r.states[2].servers && r.states[2].servers[k].retiring
    ensures Item(k, g) in Policy(r, 2)
  {
    hide EffectiveRef;
    var live, retiring := Server(Some(0), false, false), Server(Some(0), true, false);
    var s0 := Cluster(map[k := live], 1, map[k := g], map[], None, map[]);
    var s1 := s0.(fetched := Some((k, live)));
    var s2 := s1.(servers := map[k := retiring]);
    var listing := [Item(k, g)];
    r := Run([s0, s1, s2, s2.(fetched := None)], [FetchServer(k), MarkRetiring(k), Render(listing)]);
    assert s1.servers[k := retiring] == s2.servers;
    assert listing[0] == Item(k, g);
    assert Step(r.states[0], r.actions[0], r.states[1]) && Step(r.states[1], r.actions[1], r.states[2]);
    assert Step(r.states[2], r.actions[2], r.states[3]);
    SelectedMembers(k, live, listing);
  }

  /** A binding made now names a live server that is neither retiring nor being deleted, unless
      the request already carried it. */
  lemma FreshBindingIsToActiveServer(servers: map<Key, Server>, objectNs: string, g: Grant)
    requires Bind(servers, objectNs, g).Ok?
    ensures var b := Bind(servers, objectNs, g).value;
            var target := BindTarget(objectNs, g);
            && b == g.(bound := b.bound)
            && (g.bound.Some? ==> b.bound == g.bound)
            && (b.bound != g.bound ==>
                  target in servers && !servers[target].retiring && !servers[target].deleting && b.bound == servers[target].uid)
  {
    hide TrimSpace, DEFAULT_NAMESPACE;
  }

  /** So a request still carrying the UID of a retired incarnation is refused exactly while its
      server name is published again, unless by an active server without a UID. */
  lemma StaleRequestRefused(s: Cluster, objectNs: string, g: Grant, u: nat)
    requires Retired(s, u) && g.bound == Some(u) && BindTarget(objectNs, g).name != ""
    ensures var target := BindTarget(objectNs, g);
            Bind(s.servers, objectNs, g).Err?
            <==> target in s.servers && (s.servers[target].uid.Some? || !Active(s.servers[target]))
  {
    hide TrimSpace, DEFAULT_NAMESPACE, BindTarget;
    var target := BindTarget(objectNs, g);
    assert target in s.servers && HasUid(s.servers[target], u) ==> s.servers[target].retiring;
  }
}
