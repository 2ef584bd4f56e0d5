/** Who owns which egress policy of the ingress controller: writing one per server, deleting a
    server's policies, sweeping orphans, and telling whether somebody else restricts egress
    (internal/operator/traefik_egress.go). */
module EgressPolicies {
  import opened Text
  import opened Wrappers

  datatype Key = Key(ns: string, name: string)

  datatype PolicyType = Ingress | Egress

  datatype EgressRule = EgressRule(serverNamespace: string, app: string, ports: seq<int>)

  /** A NetworkPolicy; `selector` is its pod selector's labels, or none when it does not convert. */
  datatype Policy = Policy(labels: map<string, string>, selector: Option<map<string, string>>,
    policyTypes: seq<PolicyType>, egress: seq<EgressRule>)

  type Policies = map<Key, Policy>

  /** Operator settings; `hash` stands for the first eight hexadecimal digits of SHA-256. */
  datatype Config = Config(traefikNamespace: string, podLabels: map<string, string>, hash: string -> string)

  function Component(): string { "mcpruntime.org/component" }
  function ServerName(): string { "mcpruntime.org/server" }
  function ServerNamespace(): string { "mcpruntime.org/server-namespace" }
  function ManagedBy(): string { "app.kubernetes.io/managed-by" }
  function TraefikEgress(): string { "traefik-egress" }
  function OperatorName(): string { "mcp-runtime" }

  lemma LabelKeysDiffer()
    ensures Component() != ServerName() && Component() != ServerNamespace() && Component() != ManagedBy()
    ensures ServerName() != ServerNamespace() && ServerName() != ManagedBy() && ServerNamespace() != ManagedBy()
  {
    assert |Component()| == 24 && |ServerName()| == 21 && |ServerNamespace()| == 31 && |ManagedBy()| == 28;
  }

  // ---------- Labels and ownership ----------

  /** A label as Go reads it: blank when absent. */
  function Label(p: Policy, key: string): string { if key in p.labels then p.labels[key] else "" }

  predicate Has(p: Policy, key: string, value: string) { key in p.labels && p.labels[key] == value }

  predicate Managed(p: Policy) { Has(p, Component(), TraefikEgress()) }

  predicate OwnedBy(p: Policy, server: Key) {
    Managed(p) && Has(p, ServerName(), server.name) && Has(p, ServerNamespace(), server.ns)
  }

  function OwnedKeys(policies: Policies, server: Key): set<Key> {
    set k | k in policies && OwnedBy(policies[k], server)
  }

  predicate IsolatesEgress(p: Policy) {
    if p.policyTypes == [] then p.egress != [] else Egress in p.policyTypes
  }

  predicate SelectsTraefik(cfg: Config, p: Policy) {
    p.selector.Some? && forall k :: k in p.selector.value ==> k in cfg.podLabels && cfg.podLabels[k] == p.selector.value[k]
  }

  /** A policy of somebody else that isolates the Traefik pods for egress. */
  predicate Restricting(cfg: Config, k: Key, p: Policy) {
    k.ns == cfg.traefikNamespace && !Managed(p) && IsolatesEgress(p) && SelectsTraefik(cfg, p)
  }

  ghost predicate Restricted(cfg: Config, policies: Policies) {
    exists k :: k in policies && Restricting(cfg, k, policies[k])
  }

  // ---------- The policy of a server ----------

  const NAME_LIMIT := 253

  predicate DashOrDot(c: char) { c == '-' || c == '.' }

  function PolicyName(cfg: Config, server: Key): string {
    var suffix := cfg.hash(server.ns + "/" + server.name);
    var base := "mcp-egress-" + server.ns + "-" + server.name;
    var limit := NAME_LIMIT - |suffix| - 1;
    (if 0 <= limit < |base| then TrimRight(base[..limit], DashOrDot) else base) + "-" + suffix
  }

  /** Names stay within the limit of DNS subdomains, and only servers whose hashes collide can
      share one. */
  lemma PolicyNamesDiffer(cfg: Config, a: Key, b: Key)
    requires |cfg.hash(a.ns + "/" + a.name)| == 8 && |cfg.hash(b.ns + "/" + b.name)| == 8
    ensures |PolicyName(cfg, a)| <= NAME_LIMIT
    ensures PolicyName(cfg, a) == PolicyName(cfg, b) ==> cfg.hash(a.ns + "/" + a.name) == cfg.hash(b.ns + "/" + b.name)
  {
    var m, n := PolicyName(cfg, a), PolicyName(cfg, b);
    assert m[|m| - 8..] == cfg.hash(a.ns + "/" + a.name) && n[|n| - 8..] == cfg.hash(b.ns + "/" + b.name);
  }

  /** The hash ends the name; what stands before it is cut only where the limit asks for it, and
      then loses the dashes and dots it would end in. */
  lemma PolicyNameMeans(cfg: Config, server: Key)
    requires |cfg.hash(server.ns + "/" + server.name)| == 8
    ensures var hash := cfg.hash(server.ns + "/" + server.name);
            var base := "mcp-egress-" + server.ns + "-" + server.name;
            var name := PolicyName(cfg, server);
            && (|base| <= 244 ==> name == base + "-" + hash)
            && (|base| > 244 ==>
                  exists cut :: 0 <= cut <= 244 && name == base[..cut] + "-" + hash
                    && (cut > 0 ==> base[cut - 1] != '-' && base[cut - 1] != '.')
                    && forall i :: cut <= i < 244 ==> base[i] == '-' || base[i] == '.')
  {
    var base := "mcp-egress-" + server.ns + "-" + server.name;
    if |base| > 244 {
      var kept := base[..244];
      TrimRightCuts(kept, DashOrDot);
      var cut := |TrimRight(kept, DashOrDot)|;
      hide TrimRight;
      assert base[..cut] == kept[..cut];
      forall i | cut <= i < 244 ensures base[i] == '-' || base[i] == '.' {
        assert kept[cut..][i - cut] == base[i] && base[i] in kept[cut..];
        assert DashOrDot(base[i]);
      }
    }
  }

  function PolicyKey(cfg: Config, server: Key): Key { Key(cfg.traefikNamespace, PolicyName(cfg, server)) }

  function PolicyOf(cfg: Config, server: Key, ports: seq<int>): Policy {
    Policy(map[ManagedBy() := OperatorName(), Component() := TraefikEgress(),
               ServerName() := server.name, ServerNamespace() := server.ns],
           Some(cfg.podLabels), [Egress], [EgressRule(server.ns, server.name, ports)])
  }

  lemma PolicyOfIsOwned(cfg: Config, server: Key, ports: seq<int>, other: Key)
    ensures Managed(PolicyOf(cfg, server, ports))
    ensures OwnedBy(PolicyOf(cfg, server, ports), other) <==> other == server
  {
    LabelKeysDiffer();
    hide Component, ServerName, ServerNamespace, ManagedBy, TraefikEgress, OperatorName;
  }

  lemma LabelTexts()
    ensures Component() == "mcpruntime.org/component" && TraefikEgress() == "traefik-egress"
    ensures ServerName() == "mcpruntime.org/server" && ServerNamespace() == "mcpruntime.org/server-namespace"
    ensures ManagedBy() == "app.kubernetes.io/managed-by" && OperatorName() == "mcp-runtime"
  {
  }

  /** What the policy of a server says, in full: who owns it, whose pods it binds, and that these
      may reach the server's pods on the given ports. */
  lemma PolicyMeans(cfg: Config, server: Key, ports: seq<int>)
    ensures var k, p := PolicyKey(cfg, server), PolicyOf(cfg, server, ports);
            && k.ns == cfg.traefikNamespace
            && (|server.ns| + |server.name| <= 200 && |cfg.hash(server.ns + "/" + server.name)| == 8 ==>
                  k.name == "mcp-egress-" + server.ns + "-" + server.name + "-" + cfg.hash(server.ns + "/" + server.name))
            && p.labels == map["app.kubernetes.io/managed-by" := "mcp-runtime", "mcpruntime.org/component" := "traefik-egress",
                               "mcpruntime.org/server" := server.name, "mcpruntime.org/server-namespace" := server.ns]
            && p.selector == Some(cfg.podLabels) && p.policyTypes == [Egress]
            && p.egress == [EgressRule(server.ns, server.name, ports)]
  {
    hide TrimRight;
  }

  lemma RestrictedMeans(cfg: Config, policies: Policies)
    ensures Restricted(cfg, policies) <==>
            exists k ::
              && k in policies && k.ns == cfg.traefikNamespace && !Has(policies[k], Component(), TraefikEgress())
              && (if policies[k].policyTypes == [] then policies[k].egress != [] else Egress in policies[k].policyTypes)
              && policies[k].selector.Some?
              && forall l :: l in policies[k].selector.value ==> l in cfg.podLabels && cfg.podLabels[l] == policies[k].selector.value[l]
  {
    hide Component, TraefikEgress;
    forall k | k in policies ensures Restricting(cfg, k, policies[k]) <==>
        && k.ns == cfg.traefikNamespace && !Has(policies[k], Component(), TraefikEgress())
        && (if policies[k].policyTypes == [] then policies[k].egress != [] else Egress in policies[k].policyTypes)
        && policies[k].selector.Some?
        && forall l :: l in policies[k].selector.value ==> l in cfg.podLabels && cfg.podLabels[l] == policies[k].selector.value[l]
    {
    }
    hide Restricting, Has;
  }

  lemma OwnedMeans(policies: Policies, server: Key)
    ensures forall k :: k in policies ==>
              (k in OwnedKeys(policies, server) <==>
                 && Has(policies[k], Component(), TraefikEgress())
                 && Has(policies[k], ServerName(), server.name) && Has(policies[k], ServerNamespace(), server.ns))
  {
    hide Has;
  }

  lemma OrphansMean(cfg: Config, policies: Policies, servers: map<Key, bool>)
    ensures forall k :: k in policies ==>
              var labels := policies[k].labels;
              (k !in Orphans(cfg, policies, servers) <==>
                 || !Has(policies[k], Component(), TraefikEgress())
                 || (&& k.ns == cfg.traefikNamespace && ServerName() in labels && ServerNamespace() in labels
                     && labels[ServerName()] != "" && labels[ServerNamespace()] != ""
                     && Key(labels[ServerNamespace()], labels[ServerName()]) in servers
                     && !servers[Key(labels[ServerNamespace()], labels[ServerName()])]))
  {
    hide Component, TraefikEgress, ServerName, ServerNamespace;
  }

  // ---------- What the operations leave ----------

  /** Some allowed policies are gone, nothing else changed. */
  predicate Removed(before: Policies, after: Policies, allowed: set<Key>) {
    && after.Keys <= before.Keys && before.Keys - after.Keys <= allowed
    && forall k :: k in after ==> after[k] == before[k]
  }

  /** The policies after a reconcile that does not fail. */
  ghost function Reconciled(cfg: Config, policies: Policies, server: Key, routes: bool, ports: seq<int>): Policies {
    if routes && Restricted(cfg, policies) then policies[PolicyKey(cfg, server) := PolicyOf(cfg, server, ports)]
    else policies - OwnedKeys(policies, server)
  }

  predicate Orphaned(cfg: Config, k: Key, p: Policy, servers: map<Key, bool>) {
    var server := Key(Label(p, ServerNamespace()), Label(p, ServerName()));
    && Managed(p)
    && (k.ns != cfg.traefikNamespace || server.name == "" || server.ns == ""
        || server !in servers || servers[server])
  }

  function Orphans(cfg: Config, policies: Policies, servers: map<Key, bool>): set<Key> {
    set k | k in policies && Orphaned(cfg, k, policies[k], servers)
  }

  datatype Operation =
    | Reconcile(server: Key, routes: bool, ports: seq<int>)
    | ServerGone(server: Key)
    | Sweep

  /** The policies after an operation none of whose calls fails. */
  ghost function After(cfg: Config, policies: Policies, servers: map<Key, bool>, op: Operation): Policies {
    match op
    case Reconcile(server, routes, ports) => Reconciled(cfg, policies, server, routes, ports)
    case ServerGone(server) => policies - OwnedKeys(policies, server)
    case Sweep => policies - Orphans(cfg, policies, servers)
  }

  ghost function AfterAll(cfg: Config, policies: Policies, servers: map<Key, bool>, ops: seq<Operation>): Policies {
    if ops == [] then policies
    else After(cfg, AfterAll(cfg, policies, servers, ops[..|ops| - 1]), servers, ops[|ops| - 1])
  }

  lemma AfterNone(cfg: Config, policies: Policies, servers: map<Key, bool>)
    ensures AfterAll(cfg, policies, servers, []) == policies
  {
  }

  lemma AfterSnoc(cfg: Config, policies: Policies, servers: map<Key, bool>, ops: seq<Operation>, op: Operation)
    ensures AfterAll(cfg, policies, servers, ops + [op]) == After(cfg, AfterAll(cfg, policies, servers, ops), servers, op)
  {
    hide After;
    assert (ops + [op])[..|ops|] == ops;
  }

  lemma AfterEach(cfg: Config, policies: Policies, servers: map<Key, bool>, op: Operation)
    ensures op.Reconcile? ==> After(cfg, policies, servers, op) == Reconciled(cfg, policies, op.server, op.routes, op.ports)
    ensures op.ServerGone? ==> After(cfg, policies, servers, op) == policies - OwnedKeys(policies, op.server)
    ensures op.Sweep? ==> After(cfg, policies, servers, op) == policies - Orphans(cfg, policies, servers)
  {
  }

  /** The API server: its policies, its servers (true while being deleted), and which of the
      coming calls fail. */
  class Cluster {
    var policies: Policies
    var servers: map<Key, bool>
    var faults: seq<bool>

    constructor (policies: Policies, servers: map<Key, bool>, faults: seq<bool>)
      ensures this.policies == policies && this.servers == servers && this.faults == faults
    {
      this.policies, this.servers, this.faults := policies, servers, faults;
    }

    predicate NoFaults()
      reads this
    {
      forall i :: 0 <= i < |faults| ==> !faults[i]
    }

    method NextFault() returns (fails: bool)
      modifies this`faults
      ensures old(NoFaults()) ==> !fails && NoFaults()
    {
      fails := faults != [] && faults[0];
      faults := if faults == [] then [] else faults[1..];
    }

    /** Deletes the listed policies one by one, stopping at the first failure. */
    method DeleteAll(listed: set<Key>) returns (ok: bool)
      requires listed <= policies.Keys
      modifies this`policies, this`faults
      ensures Removed(old(policies), policies, listed)
      ensures ok ==> policies == old(policies) - listed
      ensures old(NoFaults()) ==> ok && NoFaults()
    {
      var todo := listed;
      while todo != {}
        invariant todo <= listed && policies == old(policies) - (listed - todo)
        invariant old(NoFaults()) ==> NoFaults()
      {
        var k :| k in todo;
        var fails := NextFault();
        if fails {
          return false;
        }
        policies := policies - {k};
        todo := todo - {k};
      }
      return true;
    }

    method DeleteTraefikEgressPolicy(server: Key) returns (ok: bool)
      modifies this`policies, this`faults
      ensures forall k :: k in policies ==> k in old(policies) && policies[k] == old(policies)[k]
      ensures ok ==> forall k :: k in old(policies) ==>
                var p := old(policies)[k];
                (k !in policies <==> (Has(p, Component(), TraefikEgress()) && Has(p, ServerName(), server.name) && Has(p, ServerNamespace(), server.ns)))
      ensures Removed(old(policies), policies, OwnedKeys(old(policies), server))
      ensures ok ==> policies == old(policies) - OwnedKeys(old(policies), server)
      ensures old(NoFaults()) ==> ok && NoFaults()
    {
      OwnedMeans(policies, server);
      hide OwnedBy, Has, Component, TraefikEgress, ServerName, ServerNamespace;
      var fails := NextFault();
      if fails {
        return false;
      }
      ok := DeleteAll(OwnedKeys(policies, server));
    }

    /** Asks for the server of a managed policy, and deletes the policy if it is an orphan. */
    method SweepOne(cfg: Config, k: Key, p: Policy) returns (ok: bool)
      requires Managed(p)
      modifies this`policies, this`faults
      ensures policies == if ok && Orphaned(cfg, k, p, servers) then old(policies) - {k} else old(policies)
      ensures old(NoFaults()) ==> ok && NoFaults()
    {
      hide Component, ServerName, ServerNamespace, TraefikEgress;
      var fails;
      var orphaned := k.ns != cfg.traefikNamespace;
      if !orphaned {
        var server := Key(Label(p, ServerNamespace()), Label(p, ServerName()));
        if server.name == "" || server.ns == "" {
          orphaned := true;
        } else {
          fails := NextFault();
          if fails {
            return false;
          }
          orphaned := server !in servers || servers[server];
        }
      }
      if !orphaned {
        return true;
      }
      fails := NextFault();
      if fails {
        return false;
      }
      policies := policies - {k};
      return true;
    }

    method SweepTraefikEgressPolicies(cfg: Config) returns (ok: bool)
      modifies this`policies, this`faults
      ensures forall k :: k in policies ==> k in old(policies) && policies[k] == old(policies)[k]
      ensures ok ==> forall k :: k in old(policies) ==>
                var labels := old(policies)[k].labels;
                (k in policies <==>
                   || !Has(old(policies)[k], Component(), TraefikEgress())
                   || (&& k.ns == cfg.traefikNamespace && ServerName() in labels && ServerNamespace() in labels
                       && labels[ServerName()] != "" && labels[ServerNamespace()] != ""
                       && Key(labels[ServerNamespace()], labels[ServerName()]) in servers
                       && !servers[Key(labels[ServerNamespace()], labels[ServerName()])]))
      ensures Removed(old(policies), policies, Orphans(cfg, old(policies), servers))
      ensures ok ==> policies == old(policies) - Orphans(cfg, old(policies), servers)
      ensures old(NoFaults()) ==> ok && NoFaults()
    {
      OrphansMean(cfg, policies, servers);
      hide Managed, Orphaned, Has, Component, TraefikEgress, ServerName, ServerNamespace;
      var fails := NextFault();
      if fails {
        return false;
      }
      var listed := policies;
      var todo := set k | k in policies && Managed(policies[k]);
      OrphansAreManaged(cfg, listed, servers);
      while todo != {}
        invariant todo <= listed.Keys && forall k :: k in todo ==> Managed(listed[k])
        invariant policies == listed - (Orphans(cfg, listed, servers) - todo)
        invariant old(NoFaults()) ==> NoFaults()
      {
        var k :| k in todo;
        ok := SweepOne(cfg, k, listed[k]);
        if !ok {
          return;
        }
        todo := todo - {k};
      }
      return true;
    }

    method TraefikEgressRestricted(cfg: Config) returns (r: Option<bool>)
      modifies this`faults
      ensures r.Some? ==> r.value == Restricted(cfg, policies)
      ensures r.Some? ==>
                (r.value <==>
                 exists k ::
                   && k in policies && k.ns == cfg.traefikNamespace && !Has(policies[k], Component(), TraefikEgress())
                   && (if policies[k].policyTypes == [] then policies[k].egress != [] else Egress in policies[k].policyTypes)
                   && policies[k].selector.Some?
                   && forall l :: l in policies[k].selector.value ==> l in cfg.podLabels && cfg.podLabels[l] == policies[k].selector.value[l])
      ensures old(NoFaults()) ==> r.Some? && NoFaults()
    {
      RestrictedMeans(cfg, policies);
      hide Managed, IsolatesEgress, SelectsTraefik, Has;
      var fails := NextFault();
      if fails {
        return None;
      }
      var todo := set k | k in policies && k.ns == cfg.traefikNamespace;
      while todo != {}
        invariant todo <= policies.Keys && (old(NoFaults()) ==> NoFaults())
        invariant forall k :: k in policies && k !in todo ==> !Restricting(cfg, k, policies[k])
      {
        var k :| k in todo;
        if !Managed(policies[k]) && IsolatesEgress(policies[k]) && SelectsTraefik(cfg, policies[k]) && k.ns == cfg.traefikNamespace {
          return Some(true);
        }
        todo := todo - {k};
      }
      return Some(false);
    }

    method ReconcileTraefikEgress(cfg: Config, server: Key, routes: bool, ports: seq<int>) returns (ok: bool)
      modifies this`policies, this`faults
      ensures ok && routes && Restricted(cfg, old(policies)) ==>
                exists name :: policies == old(policies)[Key(cfg.traefikNamespace, name) :=
                  Policy(map["app.kubernetes.io/managed-by" := "mcp-runtime", "mcpruntime.org/component" := "traefik-egress",
                             "mcpruntime.org/server" := server.name, "mcpruntime.org/server-namespace" := server.ns],
                         Some(cfg.podLabels), [Egress], [EgressRule(server.ns, server.name, ports)])]
      ensures ok && !(routes && Restricted(cfg, old(policies))) ==>
                && (forall k :: k in policies ==> k in old(policies) && policies[k] == old(policies)[k])
                && forall k :: k in old(policies) ==>
                     (k !in policies <==>
                        && Has(old(policies)[k], Component(), TraefikEgress())
                        && Has(old(policies)[k], ServerName(), server.name) && Has(old(policies)[k], ServerNamespace(), server.ns))
      ensures ok ==> policies == Reconciled(cfg, old(policies), server, routes, ports)
      ensures !ok ==> Removed(old(policies), policies, OwnedKeys(old(policies), server))
      ensures old(NoFaults()) ==> ok && NoFaults()
    {
      PolicyMeans(cfg, server, ports);
      assert PolicyKey(cfg, server) == Key(cfg.traefikNamespace, PolicyName(cfg, server));
      assert PolicyOf(cfg, server, ports) ==
             Policy(map["app.kubernetes.io/managed-by" := "mcp-runtime", "mcpruntime.org/component" := "traefik-egress",
                        "mcpruntime.org/server" := server.name, "mcpruntime.org/server-namespace" := server.ns],
                    Some(cfg.podLabels), [Egress], [EgressRule(server.ns, server.name, ports)]);
      hide Restricted, OwnedBy, PolicyOf, PolicyKey, PolicyName, Has, Component, TraefikEgress, ServerName, ServerNamespace;
      if !routes {
        ok := DeleteTraefikEgressPolicy(server);
        return;
      }
      var fails := NextFault();
      if fails {
        return false;
      }
      var restricted := TraefikEgressRestricted(cfg);
      if restricted == None {
        return false;
      }
      if !restricted.value {
        ok := DeleteTraefikEgressPolicy(server);
        return;
      }
      fails := NextFault();
      if fails {
        return false;
      }
      fails := NextFault();
      if fails {
        return false;
      }
      policies := policies[PolicyKey(cfg, server) := PolicyOf(cfg, server, ports)];
      return true;
    }

    method RunOne(cfg: Config, op: Operation, ghost taken: set<Key>)
      requires op.Reconcile? ==> PolicyKey(cfg, op.server) in taken
      modifies this`policies, this`faults
      ensures SameForeignBut(old(policies), policies, taken)
      ensures old(NoFaults()) ==> NoFaults() && policies == After(cfg, old(policies), servers, op)
    {
      ghost var now := policies;
      AfterEach(cfg, now, servers, op);
      hide OwnedKeys, Orphans, PolicyKey, PolicyOf, Reconciled, After, Removed, SameForeignBut, Restricted;
      match op
      case Reconcile(server, routes, ports) =>
        OwnedAreManaged(now, server);
        var ok := ReconcileTraefikEgress(cfg, server, routes, ports);
        if ok {
          ReconciledKeepsForeign(cfg, now, server, routes, ports, taken);
        } else {
          RemovedKeepsForeign(now, policies, OwnedKeys(now, server), taken);
        }
      case ServerGone(server) =>
        OwnedAreManaged(now, server);
        var _ := DeleteTraefikEgressPolicy(server);
        RemovedKeepsForeign(now, policies, OwnedKeys(now, server), taken);
      case Sweep =>
        OrphansAreManaged(cfg, now, servers);
        var _ := SweepTraefikEgressPolicies(cfg);
        RemovedKeepsForeign(now, policies, Orphans(cfg, now, servers), taken);
    }

    /** Whatever the operator does and whatever fails: no policy of somebody else appears or
        changes, and one disappears only under the name that a reconciled server's policy takes.
        So while those names are free, the operator never changes whether egress counts as
        restricted. When nothing fails, every operation takes its full effect. */
    method RunOperations(cfg: Config, ops: seq<Operation>)
      modifies this`policies, this`faults
      ensures SameForeignBut(old(policies), policies, TakenKeys(cfg, ops))
      ensures KeysAreFree(cfg, old(policies), ops) ==>
                SameForeign(old(policies), policies) && (Restricted(cfg, policies) <==> Restricted(cfg, old(policies)))
      ensures old(NoFaults()) ==> policies == AfterAll(cfg, old(policies), servers, ops)
    {
      ghost var first, taken := policies, TakenKeys(cfg, ops);
      SameForeignReflexive(policies, taken);
      AfterNone(cfg, first, servers);
      assert ops[..0] == [];
      hide TakenKeys, SameForeignBut, After, AfterAll, Restricted, KeysAreFree, SameForeign;
      for i := 0 to |ops|
        invariant SameForeignBut(first, policies, taken)
        invariant old(NoFaults()) ==> NoFaults() && policies == AfterAll(cfg, first, servers, ops[..i])
      {
        AfterSnoc(cfg, first, servers, ops[..i], ops[i]);
        assert ops[..i + 1] == ops[..i] + [ops[i]];
        ghost var now := policies;
        if ops[i].Reconcile? {
          TakesItsKey(cfg, ops, i);
        }
        RunOne(cfg, ops[i], taken);
        SameForeignTransitive(first, now, policies, taken);
      }
      assert ops[..|ops|] == ops;
      FreeKeysKeepForeign(cfg, first, policies, ops);
    }
  }

  // ---------- Policies of others ----------

  predicate Foreign(policies: Policies, k: Key) { k in policies && !Managed(policies[k]) }

  /** The two clusters hold the same policies that the operator does not manage, except that
      some of the given names may have been taken over. */
  ghost predicate SameForeignBut(a: Policies, b: Policies, taken: set<Key>) {
    && (forall k :: Foreign(a, k) && k !in taken ==> Foreign(b, k))
    && (forall k :: Foreign(b, k) ==> k in a && b[k] == a[k])
  }

  ghost predicate SameForeign(a: Policies, b: Policies) { SameForeignBut(a, b, {}) }

  /** The names that the policies of the reconciled servers take. */
  function TakenKeys(cfg: Config, ops: seq<Operation>): set<Key> {
    set i | 0 <= i < |ops| && ops[i].Reconcile? :: PolicyKey(cfg, ops[i].server)
  }

  lemma TakesItsKey(cfg: Config, ops: seq<Operation>, i: nat)
    requires i < |ops| && ops[i].Reconcile?
    ensures PolicyKey(cfg, ops[i].server) in TakenKeys(cfg, ops)
  {
    hide PolicyKey;
  }

  /** No policy of somebody else holds the name the server's policy would take. */
  predicate KeyIsFree(cfg: Config, policies: Policies, server: Key) { !Foreign(policies, PolicyKey(cfg, server)) }

  predicate KeysAreFree(cfg: Config, policies: Policies, ops: seq<Operation>) {
    forall i :: 0 <= i < |ops| && ops[i].Reconcile? ==> KeyIsFree(cfg, policies, ops[i].server)
  }

  lemma FreeKeysKeepForeign(cfg: Config, a: Policies, b: Policies, ops: seq<Operation>)
    requires SameForeignBut(a, b, TakenKeys(cfg, ops))
    ensures KeysAreFree(cfg, a, ops) ==> SameForeign(a, b) && (Restricted(cfg, b) <==> Restricted(cfg, a))
  {
    hide Foreign, PolicyKey, Restricted;
    if KeysAreFree(cfg, a, ops) {
      assert SameForeign(a, b);
      RestrictedByForeign(cfg, a, b);
    }
  }

  lemma SameForeignReflexive(a: Policies, taken: set<Key>)
    ensures SameForeignBut(a, a, taken)
  {
  }

  lemma SameForeignTransitive(a: Policies, b: Policies, c: Policies, taken: set<Key>)
    requires SameForeignBut(a, b, taken) && SameForeignBut(b, c, taken)
    ensures SameForeignBut(a, c, taken)
  {
    hide Managed;
  }

  lemma OwnedAreManaged(policies: Policies, server: Key)
    ensures forall k :: k in OwnedKeys(policies, server) ==> k in policies && Managed(policies[k])
  {
  }

  lemma OrphansAreManaged(cfg: Config, policies: Policies, servers: map<Key, bool>)
    ensures forall k :: k in Orphans(cfg, policies, servers) ==> k in policies && Managed(policies[k])
  {
  }

  lemma RemovedKeepsForeign(before: Policies, after: Policies, allowed: set<Key>, taken: set<Key>)
    requires Removed(before, after, allowed)
    requires forall k :: k in allowed ==> k in before && Managed(before[k])
    ensures SameForeignBut(before, after, taken)
  {
    hide Managed;
  }

  lemma ReconciledKeepsForeign(cfg: Config, policies: Policies, server: Key, routes: bool, ports: seq<int>, taken: set<Key>)
    requires PolicyKey(cfg, server) in taken || KeyIsFree(cfg, policies, server)
    ensures SameForeignBut(policies, Reconciled(cfg, policies, server, routes, ports), taken)
  {
    PolicyOfIsOwned(cfg, server, ports, server);
    OwnedAreManaged(policies, server);
    hide Managed, PolicyOf, PolicyKey, Restricted, OwnedKeys;
  }

  lemma RestrictedByForeign(cfg: Config, a: Policies, b: Policies)
    requires SameForeign(a, b)
    ensures Restricted(cfg, a) <==> Restricted(cfg, b)
  {
    hide Managed, IsolatesEgress, SelectsTraefik;
  }

  /** Somebody else's policy under another name than the server's restricts egress. */
  ghost predicate RestrictedElsewhere(cfg: Config, policies: Policies, server: Key) {
    exists k :: k in policies && k != PolicyKey(cfg, server) && Restricting(cfg, k, policies[k])
  }

  /** A reconcile that takes over the name of somebody else's policy leaves egress restricted
      exactly when another such policy remains. */
  lemma StaysRestrictedIff(cfg: Config, policies: Policies, server: Key, ports: seq<int>)
    requires Restricted(cfg, policies)
    ensures Restricted(cfg, Reconciled(cfg, policies, server, true, ports)) <==> RestrictedElsewhere(cfg, policies, server)
  {
    PolicyOfIsOwned(cfg, server, ports, server);
    hide Managed, PolicyOf, PolicyKey, IsolatesEgress, SelectsTraefik;
    var after := Reconciled(cfg, policies, server, true, ports);
    var key := PolicyKey(cfg, server);
    assert key in after && !Restricting(cfg, key, after[key]);
    assert forall k :: k in policies && k != key ==> k in after && after[k] == policies[k];
    if k :| k in policies && k != key && Restricting(cfg, k, policies[k]) {
      assert Restricting(cfg, k, after[k]);
    }
  }

  /** It can happen: a default-deny policy that already has the server's policy name is the only
      one restricting egress, and the reconcile that relies on it overwrites it. */
  lemma TakeoverLiftsRestriction(cfg: Config, server: Key, ports: seq<int>) returns (policies: Policies)
    ensures Restricted(cfg, policies) && !Restricted(cfg, Reconciled(cfg, policies, server, true, ports))
  {
    var key := PolicyKey(cfg, server);
    var deny := Policy(map[], Some(map[]), [Egress], []);
    policies := map[key := deny];
    hide PolicyName, PolicyOf;
    assert Restricting(cfg, key, policies[key]);
    StaysRestrictedIff(cfg, policies, server, ports);
  }

  /** Reconciling twice writes what reconciling once wrote, exactly when the first reconcile did
      not overwrite the last policy that restricted egress: otherwise the second deletes it. */
  lemma ReconcileIsIdempotentIff(cfg: Config, policies: Policies, server: Key, routes: bool, ports: seq<int>)
    ensures var once := Reconciled(cfg, policies, server, routes, ports);
            Reconciled(cfg, once, server, routes, ports) == once
            <==> (routes && Restricted(cfg, policies) ==> RestrictedElsewhere(cfg, policies, server))
  {
    if routes && Restricted(cfg, policies) {
      WrittenTwice(cfg, policies, server, ports);
    } else {
      DeletedTwice(cfg, policies, server, routes, ports);
    }
  }

  lemma WrittenTwice(cfg: Config, policies: Policies, server: Key, ports: seq<int>)
    requires Restricted(cfg, policies)
    ensures var once := Reconciled(cfg, policies, server, true, ports);
            Reconciled(cfg, once, server, true, ports) == once <==> RestrictedElsewhere(cfg, policies, server)
  {
    var once, key := Reconciled(cfg, policies, server, true, ports), PolicyKey(cfg, server);
    StaysRestrictedIff(cfg, policies, server, ports);
    PolicyOfIsOwned(cfg, server, ports, server);
    hide PolicyOf, PolicyKey, Restricted, OwnedBy, Managed, RestrictedElsewhere;
    assert key in OwnedKeys(once, server);
    assert once[key := PolicyOf(cfg, server, ports)] == once;
  }

  lemma DeletedTwice(cfg: Config, policies: Policies, server: Key, routes: bool, ports: seq<int>)
    requires !(routes && Restricted(cfg, policies))
    ensures var once := Reconciled(cfg, policies, server, routes, ports);
            Reconciled(cfg, once, server, routes, ports) == once
  {
    var once := Reconciled(cfg, policies, server, routes, ports);
    OwnedAreManaged(policies, server);
    RemovedKeepsForeign(policies, once, OwnedKeys(policies, server), {});
    RestrictedByForeign(cfg, policies, once);
    hide OwnedBy, Restricted, Managed;
    assert OwnedKeys(once, server) == {};
  }

  /** Reconciling one server touches no other server's policy, as long as their hashes differ. */
  lemma OtherServersUntouched(cfg: Config, policies: Policies, server: Key, other: Key, routes: bool, ports: seq<int>, k: Key)
    requires server != other && k in policies && OwnedBy(policies[k], other) && k == PolicyKey(cfg, other)
    requires |cfg.hash(server.ns + "/" + server.name)| == 8 && |cfg.hash(other.ns + "/" + other.name)| == 8
    requires cfg.hash(server.ns + "/" + server.name) != cfg.hash(other.ns + "/" + other.name)
    ensures var after := Reconciled(cfg, policies, server, routes, ports); k in after && after[k] == policies[k]
  {
    PolicyNamesDiffer(cfg, server, other);
    hide PolicyName, PolicyOf, Restricted, Component, ServerName, ServerNamespace, TraefikEgress;
    assert !OwnedBy(policies[k], server);
  }

  /** A sweep spares the policy of every live server in the ingress controller's namespace. */
  lemma SweepSparesLiveServers(cfg: Config, policies: Policies, servers: map<Key, bool>, server: Key, k: Key)
    requires k in policies && k.ns == cfg.traefikNamespace && OwnedBy(policies[k], server)
    requires server in servers && !servers[server] && server.name != "" && server.ns != ""
    ensures k !in Orphans(cfg, policies, servers)
  {
    hide Component, ServerName, ServerNamespace, TraefikEgress;
  }

  /** After a successful sweep every managed policy is in the ingress controller's namespace and
      belongs to a live server. */
  lemma SweptIsClean(cfg: Config, policies: Policies, servers: map<Key, bool>, k: Key)
    requires k in policies - Orphans(cfg, policies, servers) && Managed(policies[k])
    ensures k.ns == cfg.traefikNamespace
    ensures exists server :: server in servers && !servers[server] && OwnedBy(policies[k], server)
  {
    hide Component, ServerName, ServerNamespace, TraefikEgress;
    var p := policies[k];
    var server := Key(Label(p, ServerNamespace()), Label(p, ServerName()));
    assert !Orphaned(cfg, k, p, servers);
    assert OwnedBy(p, server);
  }
}
