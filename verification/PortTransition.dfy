/** Moving a server to a new listening port: Deployments, Service and Traefik egress policy
    (internal/operator/service.go, deployment.go, traefik_egress.go, controller.go). */
module PortTransition {
  import opened Text
  import opened Wrappers

  datatype IntOrString = IntVal(n: int) | StrVal(s: string)

  datatype RolloutKind = Unset | RollingUpdateKind | CanaryKind | RecreateKind

  datatype Rollout = Rollout(kind: RolloutKind, maxUnavailable: Option<IntOrString>, maxSurge: Option<IntOrString>,
                             canaryReplicas: Option<int>)

  /** The part of a defaulted MCPServer spec that the protocol reads. */
  datatype Spec = Spec(port: int, gatewayPort: Option<int>, replicas: Option<int>, rollout: Option<Rollout>,
                       routesThroughTraefik: bool)

  datatype Strategy = RollingUpdate(maxUnavailable: IntOrString, maxSurge: IntOrString) | Recreate

  datatype Deployment = Deployment(replicas: int, strategy: Strategy, templatePort: int)

  /** `target` is the target of the first port, if any; `pinned` is the serving-port label of
      the selector, if any. */
  datatype Service = Service(target: Option<IntOrString>, pinned: Option<int>, metricsPort: bool)

  datatype Track = Stable | Canary

  /** A pod with the labels of this server; `containers` lists each container's ports. */
  datatype Pod = Pod(track: Track, portLabel: Option<int>, containers: seq<seq<int>>,
                     running: bool, ready: bool, deleting: bool)

  // ---------- Decisions computed from the spec ----------

  function ServingPort(spec: Spec): int {
    if spec.gatewayPort.Some? then spec.gatewayPort.value else spec.port
  }

  predicate CanaryEnabled(spec: Spec) { spec.rollout.Some? && spec.rollout.value.kind == CanaryKind }

  function DesiredStableReplicas(spec: Spec): int {
    if spec.replicas.None? then 1
    else
      var canary := if CanaryEnabled(spec) && spec.rollout.value.canaryReplicas.Some?
                    then spec.rollout.value.canaryReplicas.value else 0;
      var replicas := spec.replicas.value - canary;
      if replicas < 0 then 0 else replicas
  }

  function CanaryReplicas(spec: Spec): int {
    if spec.rollout.Some? && spec.rollout.value.canaryReplicas.Some? then spec.rollout.value.canaryReplicas.value else 0
  }

  function UserStrategy(spec: Spec): Strategy {
    if spec.rollout.None? then RollingUpdate(StrVal("25%"), StrVal("25%"))
    else if spec.rollout.value.kind == RecreateKind then Recreate
    else
      var r := spec.rollout.value;
      RollingUpdate(if r.maxUnavailable.Some? then r.maxUnavailable.value else StrVal("25%"),
                    if r.maxSurge.Some? then r.maxSurge.value else StrVal("25%"))
  }

  const SURGE_FIRST := RollingUpdate(IntVal(0), IntVal(1))

  /** The Service exists, has ports, and its first port does not yet target the desired port. */
  predicate InTransition(spec: Spec, service: Option<Service>) {
    service.Some? && service.value.target.Some? && service.value.target.value != IntVal(ServingPort(spec))
  }

  function StrategyFor(spec: Spec, service: Option<Service>): Strategy {
    if InTransition(spec, service) then SURGE_FIRST else UserStrategy(spec)
  }

  function StableDeployment(spec: Spec, service: Option<Service>): Deployment {
    Deployment(DesiredStableReplicas(spec), StrategyFor(spec, service), ServingPort(spec))
  }

  function CanaryDeployment(spec: Spec, service: Option<Service>): Option<Deployment> {
    if CanaryEnabled(spec) then Some(Deployment(CanaryReplicas(spec), StrategyFor(spec, service), ServingPort(spec)))
    else None
  }

  function ServingTrack(spec: Spec): Track {
    if DesiredStableReplicas(spec) == 0 && CanaryEnabled(spec) then Canary else Stable
  }

  predicate DeclaresPort(pod: Pod, port: int) {
    exists c, p :: 0 <= c < |pod.containers| && 0 <= p < |pod.containers[c]| && pod.containers[c][p] == port
  }

  /** The pod the protocol waits for: it carries the label of the desired port, declares it,
      runs, is ready and is not being deleted. */
  predicate ServesDesiredPort(spec: Spec, pod: Pod) {
    && pod.portLabel == Some(ServingPort(spec))
    && pod.track == ServingTrack(spec)
    && !pod.deleting && pod.running && pod.ready
    && DeclaresPort(pod, ServingPort(spec))
  }

  method HasReadyServingPod(spec: Spec, pods: seq<Pod>) returns (ready: bool)
    ensures ready <==> exists i :: 0 <= i < |pods| && ServesDesiredPort(spec, pods[i])
    ensures var port := if spec.gatewayPort.Some? then spec.gatewayPort.value else spec.port;
            var canary := spec.rollout.Some? && spec.rollout.value.kind == CanaryKind;
            var share := if canary && spec.rollout.value.canaryReplicas.Some? then spec.rollout.value.canaryReplicas.value else 0;
            var track := if canary && spec.replicas.Some? && spec.replicas.value <= share then Canary else Stable;
            ready <==> exists pod :: pod in pods && pod.portLabel == Some(port) && pod.track == track
                         && pod.running && pod.ready && !pod.deleting && exists ports :: ports in pod.containers && port in ports
  {
    ServesMeans(spec, pods);
    hide ServesDesiredPort, DeclaresPort, ServingTrack, ServingPort;
    ready := FindServingPod(spec, pods);
  }

  lemma ServesMeans(spec: Spec, pods: seq<Pod>)
    ensures var port := if spec.gatewayPort.Some? then spec.gatewayPort.value else spec.port;
            var canary := spec.rollout.Some? && spec.rollout.value.kind == CanaryKind;
            var share := if canary && spec.rollout.value.canaryReplicas.Some? then spec.rollout.value.canaryReplicas.value else 0;
            var track := if canary && spec.replicas.Some? && spec.replicas.value <= share then Canary else Stable;
            (exists i :: 0 <= i < |pods| && ServesDesiredPort(spec, pods[i])) <==>
            exists pod :: pod in pods && pod.portLabel == Some(port) && pod.track == track
              && pod.running && pod.ready && !pod.deleting && exists ports :: ports in pod.containers && port in ports
  {
    forall pod: Pod {
      ServingPodMeans(spec, pod);
    }
    hide ServesDesiredPort;
  }

  lemma ServingPodMeans(spec: Spec, pod: Pod)
    ensures var port := if spec.gatewayPort.Some? then spec.gatewayPort.value else spec.port;
            var canary := spec.rollout.Some? && spec.rollout.value.kind == CanaryKind;
            var share := if canary && spec.rollout.value.canaryReplicas.Some? then spec.rollout.value.canaryReplicas.value else 0;
            var track := if canary && spec.replicas.Some? && spec.replicas.value <= share then Canary else Stable;
            ServesDesiredPort(spec, pod) <==>
              pod.portLabel == Some(port) && pod.track == track
              && pod.running && pod.ready && !pod.deleting && exists ports :: ports in pod.containers && port in ports
  {
    forall port ensures DeclaresPort(pod, port) <==> exists ports :: ports in pod.containers && port in ports {
      if c, p :| 0 <= c < |pod.containers| && 0 <= p < |pod.containers[c]| && pod.containers[c][p] == port {
        assert pod.containers[c] in pod.containers && port in pod.containers[c];
      }
    }
    hide DeclaresPort;
  }

  method FindServingPod(spec: Spec, pods: seq<Pod>) returns (ready: bool)
    ensures ready <==> exists i :: 0 <= i < |pods| && ServesDesiredPort(spec, pods[i])
  {
    for i := 0 to |pods|
      invariant forall k :: 0 <= k < i ==> !ServesDesiredPort(spec, pods[k])
    {
      var pod := pods[i];
      if pod.portLabel != Some(ServingPort(spec)) || pod.track != ServingTrack(spec) {
        continue;
      }
      if pod.deleting || !pod.running {
        continue;
      }
      var declaresPort := false;
      for c := 0 to |pod.containers|
        invariant declaresPort <==> exists d, p :: 0 <= d < c && 0 <= p < |pod.containers[d]| && pod.containers[d][p] == ServingPort(spec)
      {
        ghost var before := declaresPort;
        for p := 0 to |pod.containers[c]|
          invariant declaresPort <==> before || exists q :: 0 <= q < p && pod.containers[c][q] == ServingPort(spec)
        {
          if pod.containers[c][p] == ServingPort(spec) {
            declaresPort := true;
          }
        }
      }
      if !declaresPort {
        continue;
      }
      if pod.ready {
        return true;
      }
    }
    return false;
  }

  /** The Service after one reconcile that found `ready`. */
  function ServiceAfter(spec: Spec, service: Option<Service>, ready: bool): Service {
    if InTransition(spec, service) && !ready then service.value
    else
      var pin := service.None? || service.value.pinned.Some? || InTransition(spec, service);
      Service(Some(IntVal(ServingPort(spec))), if pin then Some(ServingPort(spec)) else None, spec.gatewayPort.Some?)
  }

  /** The ports Traefik must reach: the desired port and the Service's current target. */
  function EgressPorts(spec: Spec, service: Option<Service>): seq<int> {
    var desired := ServingPort(spec);
    if service.Some? && service.value.target.Some? && service.value.target.value.IntVal?
       && service.value.target.value.n > 0 && service.value.target.value.n != desired then
      var target := service.value.target.value.n;
      if target < desired then [target, desired] else [desired, target]
    else [desired]
  }

  predicate Targets(service: Option<Service>, port: int) {
    service.Some? && service.value.target == Some(IntVal(port))
  }

  predicate StrictlyIncreasing(s: seq<int>) { forall i, j :: 0 <= i < j < |s| ==> s[i] < s[j] }

  /** Sorted, duplicate-free, and equal to {desired port} + {Service target}. */
  lemma EgressPortsExact(spec: Spec, service: Option<Service>)
    ensures StrictlyIncreasing(EgressPorts(spec, service))
    ensures var ports := EgressPorts(spec, service);
            |ports| == 1 || (|ports| == 2 && ports[0] < ports[1])
    ensures forall p :: p in EgressPorts(spec, service) <==> p == ServingPort(spec) || (p > 0 && Targets(service, p))
  {
  }

  function PolicyAfter(spec: Spec, service: Option<Service>, restricted: bool): Option<seq<int>> {
    if spec.routesThroughTraefik && restricted then Some(EgressPorts(spec, service)) else None
  }

  // ---------- The reconcile methods ----------

  /** The API objects of one server. Each call may fail, leaving them unchanged. */
  class Objects {
    var stable: Option<Deployment>
    var canary: Option<Deployment>
    var service: Option<Service>
    var policy: Option<seq<int>>

    constructor ()
      ensures stable == None && canary == None && service == None && policy == None
    {
      stable, canary, service, policy := None, None, None, None;
    }

    /** `servingDeploymentStrategy`: surge first while the Service has yet to move. */
    method ServingDeploymentStrategy(spec: Spec) returns (strategy: Strategy)
      ensures strategy == StrategyFor(spec, service)
      ensures var port := if spec.gatewayPort.Some? then spec.gatewayPort.value else spec.port;
              strategy ==
                var r := spec.rollout;
                if service.Some? && service.value.target.Some? && service.value.target.value != IntVal(port) then
                  RollingUpdate(IntVal(0), IntVal(1))
                else if r.Some? && r.value.kind == RecreateKind then Recreate
                else RollingUpdate(if r.Some? && r.value.maxUnavailable.Some? then r.value.maxUnavailable.value else StrVal("25%"),
                                   if r.Some? && r.value.maxSurge.Some? then r.value.maxSurge.value else StrVal("25%"))
    {
      strategy := UserStrategy(spec);
      if service.Some? && service.value.target.Some? && service.value.target.value != IntVal(ServingPort(spec)) {
        strategy := RollingUpdate(IntVal(0), IntVal(1));
      }
    }

    method ReconcileDeployment(spec: Spec, fails: bool) returns (ok: bool)
      modifies this`stable
      ensures ok == !fails
      ensures stable == if ok then Some(StableDeployment(spec, service)) else old(stable)
      ensures ok ==> var port := if spec.gatewayPort.Some? then spec.gatewayPort.value else spec.port;
                stable.value.templatePort == port && stable.value.replicas ==
                  (if spec.replicas.None? then 1
                   else
                     var share := if spec.rollout.Some? && spec.rollout.value.kind == CanaryKind
                                     && spec.rollout.value.canaryReplicas.Some? then spec.rollout.value.canaryReplicas.value else 0;
                     if spec.replicas.value < share then 0 else spec.replicas.value - share)
    {
      if fails {
        return false;
      }
      var strategy := ServingDeploymentStrategy(spec);
      stable := Some(Deployment(DesiredStableReplicas(spec), strategy, ServingPort(spec)));
      return true;
    }

    method ReconcileCanaryDeployment(spec: Spec, fails: bool) returns (ok: bool)
      modifies this`canary
      ensures ok == !fails
      ensures canary == if ok then CanaryDeployment(spec, service) else old(canary)
      ensures ok ==> var port := if spec.gatewayPort.Some? then spec.gatewayPort.value else spec.port;
                && (canary.Some? <==> spec.rollout.Some? && spec.rollout.value.kind == CanaryKind)
                && (canary.Some? ==> canary.value.templatePort == port
                                     && canary.value.replicas == if spec.rollout.value.canaryReplicas.Some?
                                                                 then spec.rollout.value.canaryReplicas.value else 0)
    {
      if fails {
        return false;
      }
      if !CanaryEnabled(spec) {
        canary := None;
        return true;
      }
      var strategy := ServingDeploymentStrategy(spec);
      canary := Some(Deployment(CanaryReplicas(spec), strategy, ServingPort(spec)));
      return true;
    }

    method ReconcileService(spec: Spec, pods: seq<Pod>, fails: bool) returns (ok: bool)
      modifies this`service
      ensures ok == !fails
      ensures !ok ==> service == old(service)
      ensures ok ==> service == Some(ServiceAfter(spec, old(service), exists i :: 0 <= i < |pods| && ServesDesiredPort(spec, pods[i])))
      ensures ok ==> var port := if spec.gatewayPort.Some? then spec.gatewayPort.value else spec.port;
                var moving := old(service.Some? && service.value.target.Some?) && old(service).value.target.value != IntVal(port);
                if moving && !(exists i :: 0 <= i < |pods| && ServesDesiredPort(spec, pods[i])) then service == old(service)
                else service == Some(Service(Some(IntVal(port)),
                                             if moving || old(service.None? || service.value.pinned.Some?) then Some(port) else None,
                                             spec.gatewayPort.Some?))
    {
      if fails {
        return false;
      }
      if service.Some? && service.value.target.Some? && service.value.target.value != IntVal(ServingPort(spec)) {
        var ready := HasReadyServingPod(spec, pods);
        if !ready {
          return true;
        }
      }
      var selector := None;
      if service.None? || service.value.pinned.Some?
         || (service.value.target.Some? && service.value.target.value != IntVal(ServingPort(spec))) {
        selector := Some(ServingPort(spec));
      }
      service := Some(Service(Some(IntVal(ServingPort(spec))), selector, spec.gatewayPort.Some?));
      return true;
    }

    method ReconcileTraefikEgress(spec: Spec, restricted: bool, fails: bool) returns (ok: bool)
      modifies this`policy
      ensures ok == !fails
      ensures policy == if ok then PolicyAfter(spec, service, restricted) else old(policy)
      ensures ok ==> (policy.Some? <==> spec.routesThroughTraefik && restricted)
      ensures ok && policy.Some? ==> var port := if spec.gatewayPort.Some? then spec.gatewayPort.value else spec.port;
                && (forall i, j :: 0 <= i < j < |policy.value| ==> policy.value[i] < policy.value[j])
                && forall p :: p in policy.value <==>
                     p == port || (p > 0 && service.Some? && service.value.target == Some(IntVal(p)))
    {
      if fails {
        return false;
      }
      if !spec.routesThroughTraefik || !restricted {
        policy := None;
        return true;
      }
      var ports := [ServingPort(spec)];
      if service.Some? && service.value.target.Some? {
        var target := service.value.target.value;
        if target.IntVal? && target.n > 0 && target.n !in ports {
          ports := if target.n < ports[0] then [target.n, ports[0]] else [ports[0], target.n];
        }
      }
      assert ports == EgressPorts(spec, service);
      policy := Some(ports);
      return true;
    }

    /** The steps of one reconcile in source order; an error ends it where it happens. */
    method ReconcileResources(spec: Spec, pods: seq<Pod>, restricted: bool, failsAt: int) returns (ok: bool)
      modifies this
      ensures ok <==> !(0 <= failsAt < 4)
      ensures ok ==> service == Some(ServiceAfter(spec, old(service), exists i :: 0 <= i < |pods| && ServesDesiredPort(spec, pods[i])))
      ensures ok && !(spec.routesThroughTraefik && restricted) ==> policy == None
      ensures ok ==> var port := if spec.gatewayPort.Some? then spec.gatewayPort.value else spec.port;
                var moving := old(service.Some? && service.value.target.Some?) && old(service).value.target.value != IntVal(port);
                && service.Some? && stable.Some? && stable.value.templatePort == port && (canary.Some? ==> canary.value.templatePort == port)
                && (policy.Some? ==> port in policy.value)
                && (!moving || (exists i :: 0 <= i < |pods| && ServesDesiredPort(spec, pods[i])) ==>
                      service.value.target == Some(IntVal(port)) && (service.value.pinned.Some? ==> service.value.pinned == Some(port)))
                && (moving ==> stable.value.strategy == RollingUpdate(IntVal(0), IntVal(1)))
      ensures ok && spec.routesThroughTraefik && restricted ==>
                policy.Some? && StrictlyIncreasing(policy.value)
                && forall p :: p in policy.value <==> p == ServingPort(spec) || (p > 0 && Targets(service, p))
      ensures ok ==> service.Some? && stable == Some(StableDeployment(spec, old(service)))
                     && canary == CanaryDeployment(spec, old(service))
      ensures !ok ==> policy == old(policy) && (failsAt < 3 ==> service == old(service))
      ensures failsAt == 1 ==> canary == old(canary) && stable == Some(StableDeployment(spec, service))
      ensures ok && old(service).Some? && old(service).value.pinned.Some? ==> service.value.pinned.Some?
      ensures service != old(service) && InTransition(spec, old(service)) ==>
                exists i :: 0 <= i < |pods| && ServesDesiredPort(spec, pods[i])
    {
      ok := ReconcileDeployment(spec, failsAt == 0);
      if !ok { return; }
      ok := ReconcileCanaryDeployment(spec, failsAt == 1);
      if !ok { return; }
      ok := ReconcileService(spec, pods, failsAt == 2);
      if !ok { return; }
      ok := ReconcileTraefikEgress(spec, restricted, failsAt == 3);
      if !ok { return; }
      EgressPortsExact(spec, service);
    }
  }

  // ---------- The protocol as a step relation ----------

  /** Where the operator is within a reconcile of its fetched spec. */
  datatype Phase = Idle | Fetched | StableDone | DeploymentsDone | PodsChecked(found: bool) | ServiceDone | PortsRead(ports: seq<int>)

  datatype Cluster = Cluster(
    spec: Spec,
    stable: Option<Deployment>,
    canary: Option<Deployment>,
    service: Option<Service>,
    policy: Option<seq<int>>,
    pods: map<nat, Pod>,
    phase: Phase,
    fetched: Spec)

  ghost predicate SomeReadyServingPod(spec: Spec, pods: map<nat, Pod>) {
    exists id :: id in pods && ServesDesiredPort(spec, pods[id])
  }

  datatype Action =
    | EditSpec(spec: Spec)
    | ChangePods(pods: map<nat, Pod>)
    | Crash
    | Fetch
    | WriteStable
    | WriteCanary
    | CheckPods
    | WriteService
    | ReadPorts(restricted: bool)
    | WritePolicy

  /** Spec edits, pod changes and crashes may fall between any two steps of a reconcile. A
      failed API call ends the reconcile, exactly as a crash does. */
  ghost predicate Step(s: Cluster, a: Action, s': Cluster) {
    match a
    case EditSpec(spec) => s' == s.(spec := spec)
    case ChangePods(pods) => s' == s.(pods := pods)
    case Crash => s' == s.(phase := Idle)
    case Fetch => s.phase.Idle? && s' == s.(phase := Fetched, fetched := s.spec)
    case WriteStable =>
      s.phase.Fetched? && s' == s.(stable := Some(StableDeployment(s.fetched, s.service)), phase := StableDone)
    case WriteCanary =>
      s.phase.StableDone? && s' == s.(canary := CanaryDeployment(s.fetched, s.service), phase := DeploymentsDone)
    case CheckPods =>
      s.phase.DeploymentsDone? && s' == s.(phase := PodsChecked(SomeReadyServingPod(s.fetched, s.pods)))
    case WriteService =>
      s.phase.PodsChecked? && s' == s.(service := Some(ServiceAfter(s.fetched, s.service, s.phase.found)), phase := ServiceDone)
    case ReadPorts(restricted) =>
      && s.phase.ServiceDone?
      && s' == if s.fetched.routesThroughTraefik && restricted then s.(phase := PortsRead(EgressPorts(s.fetched, s.service)))
               else s.(policy := None, phase := Idle)
    case WritePolicy => s.phase.PortsRead? && s' == s.(policy := Some(s.phase.ports), phase := Idle)
  }

  datatype Run = Run(states: seq<Cluster>, actions: seq<Action>)

  ghost predicate IsRun(r: Run) {
    && |r.states| == |r.actions| + 1
    && forall i :: 0 <= i < |r.actions| ==> Step(r.states[i], r.actions[i], r.states[i + 1])
  }

  // ---------- Egress keeps reaching the Service's target ----------

  /** Every reconcile that fetched anything fetched a Traefik-class spec for port `d`, and
      egress stays restricted. */
  ghost predicate DesiredStays(r: Run, d: int) {
    && (forall i :: 0 <= i < |r.states| && r.states[i].phase != Idle ==>
          ServingPort(r.states[i].fetched) == d && r.states[i].fetched.routesThroughTraefik)
    && forall i :: 0 <= i < |r.actions| && r.actions[i].ReadPorts? ==> r.actions[i].restricted
  }

  /** The policy admits the desired port and whatever int port the Service targets. */
  ghost predicate Reachable(s: Cluster, d: int) {
    && s.policy.Some? && d in s.policy.value
    && (forall p :: p > 0 && Targets(s.service, p) ==> p in s.policy.value)
    && (s.phase.PortsRead? ==> s.phase.ports == EgressPorts(s.fetched, s.service))
  }

  /** A reconcile that reaches its end leaves exactly the ports Traefik needs. */
  lemma CompletedReconcileCovers(s: Cluster, s': Cluster)
    requires Step(s, WritePolicy, s')
    requires s.phase.ports == EgressPorts(s.fetched, s.service)
    ensures Reachable(s', ServingPort(s.fetched))
    ensures StrictlyIncreasing(s'.policy.value)
    ensures forall p :: p in s'.policy.value <==> p == ServingPort(s.fetched) || (p > 0 && Targets(s'.service, p))
  {
    EgressPortsExact(s.fetched, s.service);
  }

  /** The ports read are still those of the Service when they are written. */
  lemma {:induction false} PortsStayCurrent(r: Run, i: nat)
    requires IsRun(r) && i < |r.states| && !r.states[0].phase.PortsRead?
    ensures r.states[i].phase.PortsRead? ==> r.states[i].phase.ports == EgressPorts(r.states[i].fetched, r.states[i].service)
  {
    if i > 0 {
      PortsStayCurrent(r, i - 1);
      assert Step(r.states[i - 1], r.actions[i - 1], r.states[i]);
    }
  }

  lemma ReachableStep(s: Cluster, a: Action, s': Cluster, d: int)
    requires Step(s, a, s') && Reachable(s, d)
    requires s.phase != Idle ==> ServingPort(s.fetched) == d && s.fetched.routesThroughTraefik
    requires a.ReadPorts? ==> a.restricted
    ensures Reachable(s', d)
  {
    EgressPortsExact(s.fetched, s.service);
  }

  /** After a completed reconcile, and for as long as the desired port is unchanged, the
      Service's target stays in the policy in every state of the run: between any two steps,
      across pod changes, and after a crash anywhere. */
  lemma {:induction false} TargetStaysReachable(r: Run, d: int, i: nat)
    requires IsRun(r) && DesiredStays(r, d) && Reachable(r.states[0], d)
    requires i < |r.states|
    ensures Reachable(r.states[i], d)
    ensures var s := r.states[i];
            && s.policy.Some? && d in s.policy.value
            && forall p :: p > 0 && s.service.Some? && s.service.value.target == Some(IntVal(p)) ==> p in s.policy.value
  {
    if i > 0 {
      TargetStaysReachable(r, d, i - 1);
      ReachableStep(r.states[i - 1], r.actions[i - 1], r.states[i], d);
    }
  }

  /** The hypothesis is needed: a Service switched to a port that the last completed reconcile
      did not desire is unreachable until the policy is written, and only then. */
  lemma SwitchBeforePolicyGap(s: Cluster, s': Cluster)
    requires Step(s, WriteService, s') && s.policy.Some? && ServingPort(s.fetched) > 0
    requires forall p :: p > 0 && Targets(s.service, p) ==> p in s.policy.value
    ensures (forall p :: p > 0 && Targets(s'.service, p) ==> p in s'.policy.value)
            <==> (InTransition(s.fetched, s.service) && !s.phase.found) || ServingPort(s.fetched) in s.policy.value
  {
    if !(InTransition(s.fetched, s.service) && !s.phase.found) {
      assert Targets(s'.service, ServingPort(s.fetched));
    }
  }

  // A run into the gap: the port is edited from 1 to 2, the first reconcile crashes after the
  // Deployments, a pod of the new port becomes ready, and the next reconcile moves the Service.

  function GapSpec(port: int): Spec { Spec(port, None, None, None, true) }

  function GapPod(port: int): Pod { Pod(Stable, Some(port), [[port]], true, true, false) }

  /** Spec for port 1, reconciled and idle. */
  function GapStart(): Cluster {
    Cluster(GapSpec(1), Some(Deployment(1, UserStrategy(GapSpec(1)), 1)), None, Some(Service(Some(IntVal(1)), Some(1), false)),
            Some([1]), map[0 := GapPod(1)], Idle, GapSpec(1))
  }

  /** After the crash: the spec and the Deployment are for port 2, everything else for port 1. */
  function GapCrashed(): Cluster {
    GapStart().(spec := GapSpec(2), fetched := GapSpec(2), stable := Some(Deployment(1, SURGE_FIRST, 2)))
  }

  function GapPods(): map<nat, Pod> { map[0 := GapPod(1), 1 := GapPod(2)] }

  lemma GapReconcile(s: Cluster) returns (s1: Cluster, s2: Cluster, s3: Cluster)
    requires s.phase == Idle && s.spec == GapSpec(2) && Targets(s.service, 1) && s.canary == None
    ensures Step(s, Fetch, s1) && Step(s1, WriteStable, s2) && Step(s2, WriteCanary, s3)
    ensures s3 == s.(fetched := GapSpec(2), stable := Some(Deployment(1, SURGE_FIRST, 2)), phase := DeploymentsDone)
  {
    s1 := s.(phase := Fetched, fetched := GapSpec(2));
    s2 := s1.(stable := Some(Deployment(1, SURGE_FIRST, 2)), phase := StableDone);
    s3 := s2.(phase := DeploymentsDone);
  }

  lemma GapMove(s: Cluster) returns (s1: Cluster, s2: Cluster)
    requires s.phase == DeploymentsDone && s.fetched == GapSpec(2) && s.pods == GapPods()
    ensures Step(s, CheckPods, s1) && Step(s1, WriteService, s2)
    ensures Targets(s2.service, 2) && s2.policy == s.policy
  {
    assert GapPod(2).containers[0][0] == 2;
    assert ServesDesiredPort(GapSpec(2), GapPods()[1]);
    s1 := s.(phase := PodsChecked(true));
    s2 := s1.(service := Some(ServiceAfter(GapSpec(2), s.service, true)), phase := ServiceDone);
  }

  /** The gap is reached from an idle, fully reconciled cluster. */
  lemma GapExample() returns (r: Run)
    ensures IsRun(r) && |r.states| == 12 && |r.actions| == 11
    ensures r.states[0].phase == Idle && Reachable(r.states[0], 1) && ServingPort(r.states[0].spec) == 1
    ensures r.actions[4] == Crash && r.actions[10] == WriteService
    ensures Targets(r.states[11].service, 2) && r.states[11].policy.Some? && 2 !in r.states[11].policy.value
  {
    var s0 := GapStart();
    assert Reachable(s0, 1);
    hide Step, Reachable, EgressPorts;
    var s1 := s0.(spec := GapSpec(2));
    var s2, s3, s4 := GapReconcile(s1);
    var s5 := s4.(phase := Idle);
    var s6 := s5.(pods := GapPods());
    var s7, s8, s9 := GapReconcile(s6);
    var s10, s11 := GapMove(s9);
    SmallSteps(s0, s4, s5);
    hide *;
    r := Extend(Run([s0], []), EditSpec(GapSpec(2)), s1);
    r := Extend(r, Fetch, s2);
    r := Extend(r, WriteStable, s3);
    r := Extend(r, WriteCanary, s4);
    r := Extend(r, Crash, s5);
    r := Extend(r, ChangePods(GapPods()), s6);
    r := Extend(r, Fetch, s7);
    r := Extend(r, WriteStable, s8);
    r := Extend(r, WriteCanary, s9);
    r := Extend(r, CheckPods, s10);
    r := Extend(r, WriteService, s11);
  }

  lemma SmallSteps(a: Cluster, b: Cluster, c: Cluster)
    ensures forall spec :: Step(a, EditSpec(spec), a.(spec := spec))
    ensures Step(b, Crash, b.(phase := Idle))
    ensures forall pods :: Step(c, ChangePods(pods), c.(pods := pods))
    ensures IsRun(Run([a], []))
  {
  }

  /** A run made one step longer. */
  lemma Extend(r: Run, a: Action, s': Cluster) returns (longer: Run)
    requires IsRun(r) && Step(r.states[|r.states| - 1], a, s')
    ensures longer == Run(r.states + [s'], r.actions + [a])
    ensures IsRun(longer)
    ensures |longer.states| == |r.states| + 1 && |longer.actions| == |r.actions| + 1
    ensures longer.states[0] == r.states[0] && longer.states[|r.states|] == s' && longer.actions[|r.actions|] == a
    ensures forall k :: 0 <= k < |r.actions| ==> longer.actions[k] == r.actions[k]
  {
    hide Step;
    longer := Run(r.states + [s'], r.actions + [a]);
  }

  /** The first reconcile of a server on port 8080 behind a gateway on 8091: Service, Deployment and
      policy are for the gateway, and nothing for the port behind it. */
  lemma GatewayIsServed() returns (r: Run)
    ensures IsRun(r) && |r.states| == 8 && r.states[0].phase == Idle == r.states[7].phase && r.states[0].service == None
    ensures r.states[0].spec.port == 8080 && r.states[0].spec.gatewayPort == Some(8091)
    ensures Targets(r.states[7].service, 8091) && r.states[7].service.value.pinned == Some(8091)
    ensures r.states[7].stable.Some? && r.states[7].stable.value.templatePort == 8091 && r.states[7].policy == Some([8091])
  {
    var spec := Spec(8080, Some(8091), None, None, true);
    var s0 := Cluster(spec, None, None, None, None, map[], Idle, spec);
    var s1 := s0.(phase := Fetched);
    var s2 := s1.(stable := Some(Deployment(1, UserStrategy(spec), 8091)), phase := StableDone);
    var s3 := s2.(phase := DeploymentsDone);
    var s4 := s3.(phase := PodsChecked(SomeReadyServingPod(spec, map[])));
    var s5 := s4.(service := Some(Service(Some(IntVal(8091)), Some(8091), true)), phase := ServiceDone);
    var s6 := s5.(phase := PortsRead([8091]));
    var s7 := s6.(policy := Some([8091]), phase := Idle);
    hide SomeReadyServingPod, UserStrategy;
    assert Step(s0, Fetch, s1) && Step(s1, WriteStable, s2) && Step(s2, WriteCanary, s3) && Step(s3, CheckPods, s4);
    assert Step(s4, WriteService, s5) && Step(s5, ReadPorts(true), s6) && Step(s6, WritePolicy, s7);
    SmallSteps(s0, s0, s0);
    hide *;
    r := Extend(Run([s0], []), Fetch, s1);
    r := Extend(r, WriteStable, s2);
    r := Extend(r, WriteCanary, s3);
    r := Extend(r, CheckPods, s4);
    r := Extend(r, WriteService, s5);
    r := Extend(r, ReadPorts(true), s6);
    r := Extend(r, WritePolicy, s7);
  }

  // ---------- When the Service moves ----------

  predicate Selects(service: Service, pod: Pod) {
    service.pinned.Some? ==> pod.portLabel == service.pinned
  }

  /** In the state where this reconcile checked the pods, some pod served the new port. */
  ghost predicate CheckedBefore(r: Run, i: nat)
    requires i < |r.states|
  {
    exists j :: 0 <= j <= i && r.states[j].fetched == r.states[i].fetched
                && SomeReadyServingPod(r.states[j].fetched, r.states[j].pods)
                && forall k :: j < k <= i ==> r.states[k].phase.PodsChecked?
  }

  /** What the check of the protocol looks for. */
  lemma ReadyPodMeans(spec: Spec, pods: map<nat, Pod>)
    ensures var port := if spec.gatewayPort.Some? then spec.gatewayPort.value else spec.port;
            var canary := spec.rollout.Some? && spec.rollout.value.kind == CanaryKind;
            var share := if canary && spec.rollout.value.canaryReplicas.Some? then spec.rollout.value.canaryReplicas.value else 0;
            var track := if canary && spec.replicas.Some? && spec.replicas.value <= share then Canary else Stable;
            SomeReadyServingPod(spec, pods) <==>
            exists id :: id in pods && pods[id].portLabel == Some(port) && pods[id].track == track
              && pods[id].running && pods[id].ready && !pods[id].deleting
              && exists ports :: ports in pods[id].containers && port in ports
  {
    forall pod: Pod {
      ServingPodMeans(spec, pod);
    }
    hide ServesDesiredPort;
  }

  lemma {:induction false} FoundMeansChecked(r: Run, i: nat)
    requires IsRun(r) && i < |r.states| && r.states[0].phase == Idle
    ensures r.states[i].phase == PodsChecked(true) ==> CheckedBefore(r, i)
  {
    hide ServesDesiredPort, EgressPorts, StableDeployment, CanaryDeployment, ServiceAfter;
    if i > 0 {
      var s, a := r.states[i - 1], r.actions[i - 1];
      assert Step(s, a, r.states[i]);
      FoundMeansChecked(r, i - 1);
      if r.states[i].phase == PodsChecked(true) {
        if a.CheckPods? {
          assert SomeReadyServingPod(r.states[i - 1].fetched, r.states[i - 1].pods);
        } else {
          var j :| 0 <= j <= i - 1 && r.states[j].fetched == r.states[i - 1].fetched
                   && SomeReadyServingPod(r.states[j].fetched, r.states[j].pods)
                   && forall k :: j < k <= i - 1 ==> r.states[k].phase.PodsChecked?;
          assert forall k :: j < k <= i ==> r.states[k].phase.PodsChecked?;
        }
      }
    }
  }

  /** Over every run, a Service that has a target moves to another one only in a reconcile that
      saw a ready, running pod labelled with and declaring the new port, and then its selector
      is pinned to the new port, so it selects that pod. */
  lemma TargetMovesOnlyToReadyPort(r: Run, i: nat)
    requires IsRun(r) && i < |r.actions| && r.states[0].phase == Idle
    requires r.states[i].service.Some? && r.states[i].service.value.target.Some?
    requires r.states[i + 1].service.None? || r.states[i + 1].service.value.target != r.states[i].service.value.target
    ensures var s, s' := r.states[i], r.states[i + 1];
            && s'.service.Some? && Targets(s'.service, ServingPort(s.fetched))
            && s'.service.value.pinned == Some(ServingPort(s.fetched))
            && CheckedBefore(r, i)
            && forall pod :: ServesDesiredPort(s.fetched, pod) ==> Selects(s'.service.value, pod)
    ensures var spec := r.states[i].fetched;
            var port := if spec.gatewayPort.Some? then spec.gatewayPort.value else spec.port;
            && r.states[i + 1].service == Some(Service(Some(IntVal(port)), Some(port), spec.gatewayPort.Some?))
            && exists j, id: nat :: 0 <= j <= i && id in r.states[j].pods
                 && var pod := r.states[j].pods[id];
                    pod.portLabel == Some(port) && pod.running && pod.ready && !pod.deleting
                    && exists ports :: ports in pod.containers && port in ports
  {
    assert Step(r.states[i], r.actions[i], r.states[i + 1]);
    FoundMeansChecked(r, i);
    var spec := r.states[i].fetched;
    var j :| 0 <= j <= i && r.states[j].fetched == spec && SomeReadyServingPod(spec, r.states[j].pods);
    hide SomeReadyServingPod, ServesDesiredPort, CheckedBefore, Step;
    ReadyPodMeans(spec, r.states[j].pods);
  }

  // The check and the write are two steps. What may change the pods in between is another's
  // write, and the last one decides.

  /** The last change of the pods between the steps j and i. */
  ghost predicate LastChange(r: Run, j: nat, i: nat, k: int)
    requires i <= |r.actions|
  {
    j < k < i && r.actions[k].ChangePods? && forall l :: k < l < i ==> !r.actions[l].ChangePods?
  }

  lemma LastChangeExists(r: Run, j: nat, i: nat) returns (k: int)
    requires j < i <= |r.actions|
    ensures j <= k < i && forall l :: k < l < i ==> !r.actions[l].ChangePods?
    ensures k > j ==> LastChange(r, j, i, k)
  {
    k := i - 1;
    while k > j && !r.actions[k].ChangePods?
      invariant j <= k < i && forall l :: k < l < i ==> !r.actions[l].ChangePods?
    {
      k := k - 1;
    }
  }

  lemma {:induction false} PodsUnchanged(r: Run, j: nat, i: nat)
    requires IsRun(r) && j <= i < |r.states| && forall k :: j <= k < i ==> !r.actions[k].ChangePods?
    ensures r.states[i].pods == r.states[j].pods
  {
    hide ServesDesiredPort, SomeReadyServingPod;
    if j < i {
      PodsUnchanged(r, j, i - 1);
      assert Step(r.states[i - 1], r.actions[i - 1], r.states[i]);
    }
  }

  /** When the Service is moved after a check that found a pod, a pod of the new port is there
      exactly when nobody has changed the pods since the check, or the last change leaves one. */
  lemma ServedWhenMovedIff(r: Run, j: nat, i: nat)
    requires IsRun(r) && j < i < |r.actions| && r.actions[j] == CheckPods && r.actions[i] == WriteService
    requires forall k :: j < k <= i ==> r.states[k].phase == PodsChecked(true)
    ensures var after := r.states[i + 1];
            && Targets(after.service, ServingPort(after.fetched))
            && (SomeReadyServingPod(after.fetched, after.pods) <==>
                forall k :: LastChange(r, j, i, k) ==> SomeReadyServingPod(after.fetched, r.actions[k].pods))
  {
    assert Step(r.states[j], r.actions[j], r.states[j + 1]) && Step(r.states[i], r.actions[i], r.states[i + 1]);
    FetchedStays(r, j + 1, i);
    var k := LastChangeExists(r, j, i);
    PodsUnchanged(r, k + 1, i);
    assert Step(r.states[k], r.actions[k], r.states[k + 1]);
    hide ServesDesiredPort, SomeReadyServingPod, ServingPort, InTransition;
    assert forall other :: LastChange(r, j, i, other) ==> other == k;
  }

  lemma {:induction false} FetchedStays(r: Run, j: nat, i: nat)
    requires IsRun(r) && j <= i < |r.states| && forall k :: j <= k <= i ==> r.states[k].phase.PodsChecked?
    ensures r.states[i].fetched == r.states[j].fetched
  {
    hide ServesDesiredPort, SomeReadyServingPod;
    if j < i {
      FetchedStays(r, j, i - 1);
      assert Step(r.states[i - 1], r.actions[i - 1], r.states[i]);
    }
  }

  /** The pod of the new port goes between the check and the write, and the Service then selects
      nothing, with a controller that honours the strategy. */
  lemma PodGoesBeforeMove() returns (r: Run)
    ensures IsRun(r) && HonouredRollout(r) && |r.actions| == 3
    ensures r.actions[0] == CheckPods && r.actions[1].ChangePods? && r.actions[2] == WriteService
    ensures SomeReadyServingPod(r.states[0].fetched, r.states[0].pods) && Targets(r.states[0].service, 1)
    ensures Targets(r.states[3].service, 2) && forall id :: id in r.states[3].pods ==> !Selects(r.states[3].service.value, r.states[3].pods[id])
  {
    var s0 := GapCrashed().(phase := DeploymentsDone, pods := GapPods());
    var rest := map[0 := GapPod(1)];
    var s1 := s0.(phase := PodsChecked(true));
    var s2 := s1.(pods := rest);
    var s3 := s2.(service := Some(Service(Some(IntVal(2)), Some(2), false)), phase := ServiceDone);
    NewPodServes();
    NewPodGoes(s1.stable.value, rest);
    hide SomeReadyServingPod, ServesDesiredPort, UserStrategy, ControllerStep;
    assert Step(s0, CheckPods, s1) && Step(s1, ChangePods(rest), s2) && Step(s2, WriteService, s3);
    assert Targets(s0.service, 1) && Targets(s3.service, 2) && !Selects(s3.service.value, rest[0]);
    hide Step, GapCrashed, GapPods, GapPod, Targets, Selects;
    r := Run([s0, s1, s2, s3], [CheckPods, ChangePods(rest), WriteService]);
  }

  lemma NewPodServes()
    ensures SomeReadyServingPod(GapSpec(2), GapPods())
  {
    assert GapPod(2).containers[0][0] == 2;
    assert ServesDesiredPort(GapSpec(2), GapPods()[1]);
  }

  lemma NewPodGoes(d: Deployment, rest: map<nat, Pod>)
    requires d.replicas == 1 && rest == map[0 := GapPod(1)]
    ensures ControllerStep(d, GapPods(), rest)
  {
    var both := GapPods();
    assert both - {1} == rest && ReadyIds(both) == {0, 1};
    assert MayRemoveReady(d, both, both[1]);
  }

  ghost predicate PinMatchesTarget(s: Cluster) {
    s.service.Some? && s.service.value.pinned.Some? ==> Targets(s.service, s.service.value.pinned.value)
  }

  /** A pinned selector always equals the target port and never becomes unpinned. */
  lemma {:induction false} PinnedForever(r: Run, i: nat, j: nat)
    requires IsRun(r) && i <= j < |r.states| && PinMatchesTarget(r.states[0])
    ensures PinMatchesTarget(r.states[j])
    ensures r.states[i].service.Some? && r.states[i].service.value.pinned.Some? ==>
              r.states[j].service.Some? && r.states[j].service.value.pinned.Some?
    decreases j
  {
    if j > 0 {
      assert Step(r.states[j - 1], r.actions[j - 1], r.states[j]);
      PinnedForever(r, if i < j then i else j - 1, j - 1);
    }
  }

  // ---------- The rollout keeps a serving pod ----------

  predicate ReadyStable(p: Pod) { p.track == Stable && p.ready }

  function ReadyIds(pods: map<nat, Pod>): set<nat> {
    set id | id in pods && ReadyStable(pods[id])
  }

  /** A Deployment controller that honours the strategy, and no spontaneous pod loss. It adds
      unready pods of the current template, lets a pod become ready, and removes a ready stable
      pod only while more than `replicas` are ready or, under a strategy that permits
      unavailability, when the pod is of an older template. */
  ghost predicate ControllerStep(d: Deployment, pods: map<nat, Pod>, pods': map<nat, Pod>) {
    || (exists id: nat, p: Pod ::
          id !in pods && !p.ready && (p.track == Stable ==> p.portLabel == Some(d.templatePort)) && pods' == pods[id := p])
    || (exists id: nat :: id in pods && pods' == pods[id := pods[id].(ready := true, running := true)])
    || (exists id: nat :: id in pods && pods' == pods - {id} && (ReadyStable(pods[id]) ==> MayRemoveReady(d, pods, pods[id])))
  }

  predicate MayRemoveReady(d: Deployment, pods: map<nat, Pod>, pod: Pod) {
    || |ReadyIds(pods)| > d.replicas
    || (d.strategy != SURGE_FIRST && pod.portLabel != Some(d.templatePort))
  }

  /** Pods only change by steps of that controller. */
  ghost predicate HonouredRollout(r: Run)
    requires IsRun(r)
  {
    forall i :: 0 <= i < |r.actions| && r.actions[i].ChangePods? ==>
      r.states[i].stable.Some? && ControllerStep(r.states[i].stable.value, r.states[i].pods, r.actions[i].pods)
  }

  /** The Service targets port `t` and has not moved; the operator may meanwhile have fetched
      any number of other ports. The last Deployment written is for `t` or surges first. */
  ghost predicate Waiting(s: Cluster, t: int) {
    && Targets(s.service, t)
    && (s.phase != Idle ==> DesiredStableReplicas(s.fetched) >= 1)
    && s.stable.Some? && s.stable.value.replicas >= 1
    && (s.stable.value.templatePort == t || s.stable.value.strategy == SURGE_FIRST)
    && ReadyIds(s.pods) != {}
  }

  /** A stable pod of neither the Service's target nor the Deployment's current port: what an
      earlier edit of the port leaves behind. */
  predicate StrayPod(p: Pod, t: int, port: int) {
    p.track == Stable && p.portLabel != Some(t) && p.portLabel != Some(port)
  }

  ghost predicate NoReadyStray(s: Cluster, t: int)
    requires s.stable.Some?
  {
    forall id :: id in s.pods && s.pods[id].ready ==> !StrayPod(s.pods[id], t, s.stable.value.templatePort)
  }

  /** Some stable pod of the target or of the Deployment's current port is ready. */
  predicate Serving(pods: map<nat, Pod>, t: int, port: int) {
    exists id :: id in pods && ReadyStable(pods[id]) && (pods[id].portLabel == Some(t) || pods[id].portLabel == Some(port))
  }

  lemma ControllerKeepsReady(d: Deployment, pods: map<nat, Pod>, pods': map<nat, Pod>)
    requires ControllerStep(d, pods, pods') && d.replicas >= 1 && ReadyIds(pods) != {}
    requires d.strategy == SURGE_FIRST
             || forall id :: id in pods && ReadyStable(pods[id]) ==> pods[id].portLabel == Some(d.templatePort)
    ensures ReadyIds(pods') != {}
  {
    if exists id: nat :: id in pods && pods' == pods - {id} && (ReadyStable(pods[id]) ==> MayRemoveReady(d, pods, pods[id])) {
      var id: nat :| id in pods && pods' == pods - {id} && (ReadyStable(pods[id]) ==> MayRemoveReady(d, pods, pods[id]));
      assert ReadyIds(pods') == ReadyIds(pods) - {id};
      assert |ReadyIds(pods)| > 1 ==> |ReadyIds(pods) - {id}| > 0;
    } else {
      var id :| id in ReadyIds(pods);
      assert id in ReadyIds(pods');
    }
  }

  lemma WaitingStep(s: Cluster, a: Action, s': Cluster, t: int)
    requires Step(s, a, s') && Waiting(s, t) && NoReadyStray(s, t)
    requires a.ChangePods? ==> ControllerStep(s.stable.value, s.pods, a.pods)
    requires s'.phase != Idle ==> DesiredStableReplicas(s'.fetched) >= 1
    requires Targets(s'.service, t)
    ensures Waiting(s', t)
  {
    if a.ChangePods? {
      ControllerKeepsReady(s.stable.value, s.pods, s'.pods);
    }
  }

  /** Over every run, while the Service targets `t`, with crashes, fetched and unfetched edits of
      the port, and pod changes falling anywhere: as long as no ready stable pod is a stray, a
      ready pod of the Deployment's current port exists, or a ready pod of the old port that the
      Service selects. */
  lemma {:induction false} OldPortServesUntilNewIsReady(r: Run, t: int, i: nat)
    requires IsRun(r) && HonouredRollout(r) && i < |r.states|
    requires Waiting(r.states[0], t) && PinMatchesTarget(r.states[0])
    requires forall k :: 0 <= k <= i ==> Targets(r.states[k].service, t)
    requires forall k :: 0 <= k <= i && r.states[k].phase != Idle ==> DesiredStableReplicas(r.states[k].fetched) >= 1
    requires forall k :: 0 <= k <= i && r.states[k].stable.Some? ==> NoReadyStray(r.states[k], t)
    ensures Waiting(r.states[i], t)
    ensures var s := r.states[i];
            (exists id :: id in s.pods && ReadyStable(s.pods[id]) && s.pods[id].portLabel == Some(s.stable.value.templatePort))
            || (exists id :: id in s.pods && ReadyStable(s.pods[id]) && s.pods[id].portLabel == Some(t)
                             && Selects(s.service.value, s.pods[id]))
  {
    hide Step, ControllerStep, StrayPod;
    if i > 0 {
      OldPortServesUntilNewIsReady(r, t, i - 1);
      WaitingStep(r.states[i - 1], r.actions[i - 1], r.states[i], t);
    }
    PinnedForever(r, i, i);
    var s := r.states[i];
    var id :| id in ReadyIds(s.pods);
    assert id in s.pods && ReadyStable(s.pods[id]);
    assert !StrayPod(s.pods[id], t, s.stable.value.templatePort);
    NotStray(s.pods[id], t, s.stable.value.templatePort);
  }

  lemma NotStray(p: Pod, t: int, port: int)
    requires ReadyStable(p) && !StrayPod(p, t, port)
    ensures p.portLabel == Some(t) || p.portLabel == Some(port)
  {
  }

  lemma OldPodGoes(d: Deployment, pod1: Pod, pod2: Pod)
    requires d.replicas == 1 && ReadyStable(pod1) && ReadyStable(pod2)
    ensures ControllerStep(d, map[0 := pod1, 1 := pod2], map[1 := pod2])
    ensures ReadyIds(map[0 := pod1, 1 := pod2]) != {}
  {
    var both := map[0 := pod1, 1 := pod2];
    assert both[0] == pod1 && both[1] == pod2 && ReadyIds(both) == {0, 1};
    assert both - {0} == map[1 := pod2];
    assert MayRemoveReady(d, both, both[0]);
  }

  /** Without that condition it fails: the Service targets port 1, pods of ports 1 and 2 are
      ready, and a second edit to port 3 is fetched before the Service moves. The controller may
      then take the pod of port 1, and neither port 1 nor port 3 has a ready pod. */
  lemma SecondEditStarves() returns (r: Run)
    ensures IsRun(r) && HonouredRollout(r) && |r.states| == 4
    ensures Waiting(r.states[0], 1) && PinMatchesTarget(r.states[0]) && NoReadyStray(r.states[0], 1)
    ensures forall k :: 0 <= k < 4 ==> Targets(r.states[k].service, 1) && r.states[k].stable.Some?
                                       && (r.states[k].phase != Idle ==> DesiredStableReplicas(r.states[k].fetched) == 1)
    ensures r.states[3].stable.value.templatePort == 3 && !Serving(r.states[3].pods, 1, 3)
  {
    var spec3 := Spec(3, None, None, None, true);
    var pod1, pod2 := Pod(Stable, Some(1), [[1]], true, true, false), Pod(Stable, Some(2), [[2]], true, true, false);
    var both, rest := map[0 := pod1, 1 := pod2], map[1 := pod2];
    var s0 := Cluster(spec3, Some(Deployment(1, SURGE_FIRST, 2)), None, Some(Service(Some(IntVal(1)), Some(1), false)),
                      Some([1, 2]), both, Idle, spec3);
    var s1 := s0.(phase := Fetched);
    var s2 := s1.(stable := Some(Deployment(1, SURGE_FIRST, 3)), phase := StableDone);
    var s3 := s2.(pods := rest);
    OldPodGoes(s2.stable.value, pod1, pod2);
    hide ControllerStep;
    assert Step(s0, Fetch, s1) && Step(s1, WriteStable, s2) && Step(s2, ChangePods(rest), s3);
    r := Run([s0, s1, s2, s3], [Fetch, WriteStable, ChangePods(rest)]);
  }

  // ---------- Exactly when a rollout can starve the server ----------

  function Strays(pods: map<nat, Pod>, t: int, port: int): set<nat> {
    set id | id in pods && StrayPod(pods[id], t, port)
  }

  function ServingIds(pods: map<nat, Pod>, t: int, port: int): set<nat> {
    set id | id in pods && ReadyStable(pods[id]) && !StrayPod(pods[id], t, port)
  }

  /** A run of the controller on one Deployment. */
  ghost predicate ControllerRun(d: Deployment, ps: seq<map<nat, Pod>>) {
    ps != [] && forall i :: 0 <= i < |ps| - 1 ==> ControllerStep(d, ps[i], ps[i + 1])
  }

  ghost predicate CanStarve(d: Deployment, pods: map<nat, Pod>, t: int) {
    exists ps :: ControllerRun(d, ps) && ps[0] == pods && !Serving(ps[|ps| - 1], t, d.templatePort)
  }

  lemma ServingMeansIds(pods: map<nat, Pod>, t: int, port: int)
    ensures Serving(pods, t, port) <==> ServingIds(pods, t, port) != {}
    ensures ReadyIds(pods) <= ServingIds(pods, t, port) + Strays(pods, t, port)
    ensures ServingIds(pods, t, port) <= ReadyIds(pods) && ServingIds(pods, t, port) !! Strays(pods, t, port)
  {
    if id :| id in ServingIds(pods, t, port) {
      assert id in pods && ReadyStable(pods[id]);
    }
    if Serving(pods, t, port) {
      var id :| id in pods && ReadyStable(pods[id]) && (pods[id].portLabel == Some(t) || pods[id].portLabel == Some(port));
      assert id in ServingIds(pods, t, port);
    }
  }

  /** The controller makes no strays, and with fewer strays than replicas it never takes the last
      serving pod. */
  lemma FewStraysStep(d: Deployment, pods: map<nat, Pod>, pods': map<nat, Pod>, t: int)
    requires ControllerStep(d, pods, pods') && (d.strategy == SURGE_FIRST || d.templatePort == t)
    requires |Strays(pods, t, d.templatePort)| < d.replicas && Serving(pods, t, d.templatePort)
    ensures |Strays(pods', t, d.templatePort)| < d.replicas && Serving(pods', t, d.templatePort)
  {
    if exists id: nat :: id in pods && pods' == pods - {id} && (ReadyStable(pods[id]) ==> MayRemoveReady(d, pods, pods[id])) {
      var id: nat :| id in pods && pods' == pods - {id} && (ReadyStable(pods[id]) ==> MayRemoveReady(d, pods, pods[id]));
      FewStraysRemoval(d, pods, id, t);
    } else {
      var strays, strays' := Strays(pods, t, d.templatePort), Strays(pods', t, d.templatePort);
      assert strays' <= strays;
      SubsetSize(strays', strays);
      var id :| id in pods && ReadyStable(pods[id]) && !StrayPod(pods[id], t, d.templatePort);
      assert id in pods' && ReadyStable(pods'[id]) && pods'[id].portLabel == pods[id].portLabel;
    }
  }

  lemma FewStraysRemoval(d: Deployment, pods: map<nat, Pod>, id: nat, t: int)
    requires id in pods && (ReadyStable(pods[id]) ==> MayRemoveReady(d, pods, pods[id]))
    requires d.strategy == SURGE_FIRST || d.templatePort == t
    requires |Strays(pods, t, d.templatePort)| < d.replicas && Serving(pods, t, d.templatePort)
    ensures |Strays(pods - {id}, t, d.templatePort)| < d.replicas && Serving(pods - {id}, t, d.templatePort)
  {
    hide *;
    var port, pods' := d.templatePort, pods - {id};
    var strays, up := Strays(pods, t, port), ServingIds(pods, t, port);
    ServingMeansIds(pods, t, port);
    ServingMeansIds(pods', t, port);
    IdsWithout(pods, id, t, port);
    SubsetSize(strays - {id}, strays);
    if id in up {
      ServingRemoval(d, pods, id, t);
      OneOfMany(up, strays, ReadyIds(pods), d.replicas, id);
    } else {
      assert up - {id} == up;
    }
  }

  lemma IdsWithout(pods: map<nat, Pod>, id: nat, t: int, port: int)
    ensures Strays(pods - {id}, t, port) == Strays(pods, t, port) - {id}
    ensures ServingIds(pods - {id}, t, port) == ServingIds(pods, t, port) - {id}
  {
    hide ReadyStable, StrayPod;
  }

  lemma ServingRemoval(d: Deployment, pods: map<nat, Pod>, id: nat, t: int)
    requires id in ServingIds(pods, t, d.templatePort) && (d.strategy == SURGE_FIRST || d.templatePort == t)
    requires ReadyStable(pods[id]) ==> MayRemoveReady(d, pods, pods[id])
    ensures |ReadyIds(pods)| > d.replicas
  {
    hide ReadyIds, SURGE_FIRST;
  }

  lemma OneOfMany(up: set<nat>, strays: set<nat>, ready: set<nat>, n: int, id: nat)
    requires ready <= up + strays && |strays| < n < |ready| && id in up
    ensures up - {id} != {}
  {
    SubsetSize(ready, up + strays);
    assert |up + strays| <= |up| + |strays|;
    assert |up - {id}| == |up| - 1;
  }

  lemma {:induction false} FewStraysRun(d: Deployment, ps: seq<map<nat, Pod>>, t: int, i: nat)
    requires ControllerRun(d, ps) && (d.strategy == SURGE_FIRST || d.templatePort == t) && i < |ps|
    requires |Strays(ps[0], t, d.templatePort)| < d.replicas && Serving(ps[0], t, d.templatePort)
    ensures |Strays(ps[i], t, d.templatePort)| < d.replicas && Serving(ps[i], t, d.templatePort)
  {
    hide ControllerStep, Serving, Strays;
    if i > 0 {
      FewStraysRun(d, ps, t, i - 1);
      assert ControllerStep(d, ps[i - 1], ps[i - 1 + 1]);
      FewStraysStep(d, ps[i - 1], ps[i], t);
    }
  }

  // ---------- Few strays at every write of the Deployment ----------

  /** A ready stable pod of the Service's target, or at least m ready stable pods of any port. */
  predicate EnoughReady(pods: map<nat, Pod>, t: int, m: nat) {
    (exists id :: id in pods && ReadyStable(pods[id]) && pods[id].portLabel == Some(t)) || |ReadyIds(pods)| >= m
  }

  /** The Service targets `t`; the last Deployment written asks for m pods at least, is for `t` or
      surges first, and leaves fewer than m strays. */
  ghost predicate Guarded(s: Cluster, t: int, m: nat) {
    && Targets(s.service, t) && (s.phase != Idle ==> DesiredStableReplicas(s.fetched) >= m)
    && s.stable.Some? && s.stable.value.replicas >= m
    && (s.stable.value.templatePort == t || s.stable.value.strategy == SURGE_FIRST)
    && |Strays(s.pods, t, s.stable.value.templatePort)| < m
    && EnoughReady(s.pods, t, m)
  }

  /** With fewer strays than ready pods one of them serves. */
  lemma EnoughReadyServe(pods: map<nat, Pod>, t: int, port: int, m: nat)
    requires EnoughReady(pods, t, m) && |Strays(pods, t, port)| < m
    ensures Serving(pods, t, port)
    ensures port == t ==> exists id :: id in pods && ReadyStable(pods[id]) && pods[id].portLabel == Some(t)
  {
    if id :| id in pods && ReadyStable(pods[id]) && pods[id].portLabel == Some(t) {
    } else {
      ServingMeansIds(pods, t, port);
      OneIsNotStray(ReadyIds(pods), Strays(pods, t, port), ServingIds(pods, t, port));
    }
  }

  lemma OneIsNotStray(ready: set<nat>, strays: set<nat>, up: set<nat>)
    requires ready <= up + strays && |strays| < |ready|
    ensures up != {}
  {
    if up == {} {
      assert ready <= strays;
      SubsetSize(ready, strays);
    }
  }

  lemma EnoughReadyStep(d: Deployment, pods: map<nat, Pod>, pods': map<nat, Pod>, t: int, m: nat)
    requires ControllerStep(d, pods, pods') && d.replicas >= m && (d.strategy == SURGE_FIRST || d.templatePort == t)
    requires EnoughReady(pods, t, m) && |Strays(pods, t, d.templatePort)| < m
    ensures EnoughReady(pods', t, m) && |Strays(pods', t, d.templatePort)| < m
  {
    var strays, strays' := Strays(pods, t, d.templatePort), Strays(pods', t, d.templatePort);
    assert strays' <= strays;
    SubsetSize(strays', strays);
    EnoughReadyServe(pods, t, d.templatePort, m);
    hide Strays, Serving;
    if id: nat :| id in pods && pods' == pods - {id} && (ReadyStable(pods[id]) ==> MayRemoveReady(d, pods, pods[id])) {
      EnoughReadyRemoval(d, pods, id, t, m);
    } else {
      ReadyOnlyGrow(pods, pods', t, m);
    }
  }

  lemma ReadyOnlyGrow(pods: map<nat, Pod>, pods': map<nat, Pod>, t: int, m: nat)
    requires EnoughReady(pods, t, m)
    requires forall id :: id in pods && ReadyStable(pods[id]) ==>
               id in pods' && ReadyStable(pods'[id]) && pods'[id].portLabel == pods[id].portLabel
    ensures EnoughReady(pods', t, m)
  {
    if id :| id in pods && ReadyStable(pods[id]) && pods[id].portLabel == Some(t) {
      assert id in pods' && ReadyStable(pods'[id]);
    } else {
      SubsetSize(ReadyIds(pods), ReadyIds(pods'));
    }
  }

  lemma EnoughReadyRemoval(d: Deployment, pods: map<nat, Pod>, id: nat, t: int, m: nat)
    requires id in pods && (ReadyStable(pods[id]) ==> MayRemoveReady(d, pods, pods[id]))
    requires d.replicas >= m && (d.strategy == SURGE_FIRST || d.templatePort == t) && EnoughReady(pods, t, m)
    requires d.templatePort == t ==> exists id :: id in pods && ReadyStable(pods[id]) && pods[id].portLabel == Some(t)
    ensures EnoughReady(pods - {id}, t, m)
  {
    hide SURGE_FIRST;
    var pods' := pods - {id};
    assert ReadyIds(pods') == ReadyIds(pods) - {id};
    if kept :| kept in pods && ReadyStable(pods[kept]) && pods[kept].portLabel == Some(t) && kept != id {
      assert kept in pods' && pods'[kept] == pods[kept];
    } else if ReadyStable(pods[id]) {
      assert |ReadyIds(pods)| > d.replicas;
    } else {
      assert ReadyIds(pods') == ReadyIds(pods);
    }
  }

  lemma GuardedStep(s: Cluster, a: Action, s': Cluster, t: int, m: nat)
    requires Step(s, a, s') && Guarded(s, t, m)
    requires a.ChangePods? ==> ControllerStep(s.stable.value, s.pods, a.pods)
    requires s'.phase != Idle ==> DesiredStableReplicas(s'.fetched) >= m
    requires Targets(s'.service, t)
    requires a.WriteStable? ==> |Strays(s'.pods, t, s'.stable.value.templatePort)| < m
    ensures Guarded(s', t, m)
  {
    hide Strays, EnoughReady, ControllerStep, SomeReadyServingPod, EgressPorts;
    if a.ChangePods? {
      EnoughReadyStep(s.stable.value, s.pods, s'.pods, t, m);
    }
  }

  /** Over every run, while the Service targets `t`, with crashes, edits and pod changes falling
      anywhere: when every Deployment written asks for at least m pods, and meets fewer than m
      strays at the moment it is written, a ready pod of the target or of the Deployment's current
      port exists in every state. The strays are counted at the writes only. */
  lemma {:induction false} FewStraysAtWritesServe(r: Run, t: int, m: nat, i: nat)
    requires IsRun(r) && HonouredRollout(r) && i < |r.states|
    requires Guarded(r.states[0], t, m)
    requires forall k :: 0 <= k <= i ==> Targets(r.states[k].service, t)
    requires forall k :: 0 <= k <= i && r.states[k].phase != Idle ==> DesiredStableReplicas(r.states[k].fetched) >= m
    requires forall k :: 0 <= k < i && r.actions[k].WriteStable? && r.states[k + 1].stable.Some? ==>
               |Strays(r.states[k + 1].pods, t, r.states[k + 1].stable.value.templatePort)| < m
    ensures Guarded(r.states[i], t, m)
    ensures Serving(r.states[i].pods, t, r.states[i].stable.value.templatePort)
  {
    hide Step, ControllerStep, Strays, EnoughReady, Serving;
    if i > 0 {
      FewStraysAtWritesServe(r, t, m, i - 1);
      StableWritten(r.states[i - 1], r.actions[i - 1], r.states[i]);
      GuardedStep(r.states[i - 1], r.actions[i - 1], r.states[i], t, m);
    }
    EnoughReadyServe(r.states[i].pods, t, r.states[i].stable.value.templatePort, m);
  }

  lemma StableWritten(s: Cluster, a: Action, s': Cluster)
    requires Step(s, a, s')
    ensures a.WriteStable? ==> s'.stable.Some?
  {
  }

  lemma ScaleUpPods(both: map<nat, Pod>, rest: map<nat, Pod>)
    requires both == map[0 := GapPod(1), 1 := GapPod(2)] && rest == map[1 := GapPod(2)]
    ensures Strays(both, 1, 2) == {} && Strays(rest, 1, 2) == {} && Strays(rest, 1, 3) == {1}
    ensures EnoughReady(both, 1, 1) && !Serving(rest, 1, 3)
  {
    assert both[0] == GapPod(1) && ReadyStable(both[0]);
    hide ReadyIds;
  }

  /** One bound for all writes is needed: fewer strays than the replicas just written is not
      enough. With one replica the pod of port 1 goes once one of port 2 is ready; an edit to port
      3 and two replicas then meets one stray, and nothing serves. */
  lemma ScaleUpStarves() returns (r: Run)
    ensures IsRun(r) && HonouredRollout(r) && |r.states| == 4
    ensures Guarded(r.states[0], 1, 1)
    ensures forall k :: 0 <= k < 4 ==>
              && Targets(r.states[k].service, 1) && r.states[k].stable.Some?
              && |Strays(r.states[k].pods, 1, r.states[k].stable.value.templatePort)| < r.states[k].stable.value.replicas
    ensures r.states[3].stable.value.templatePort == 3 && !Serving(r.states[3].pods, 1, 3)
  {
    var spec3 := Spec(3, None, Some(2), None, true);
    var pod1, pod2 := GapPod(1), GapPod(2);
    var both, rest := map[0 := pod1, 1 := pod2], map[1 := pod2];
    var s0 := Cluster(spec3, Some(Deployment(1, SURGE_FIRST, 2)), None, Some(Service(Some(IntVal(1)), Some(1), false)),
                      Some([1, 2]), both, Idle, spec3);
    var s1 := s0.(pods := rest);
    var s2 := s1.(phase := Fetched);
    var s3 := s2.(stable := Some(Deployment(2, SURGE_FIRST, 3)), phase := StableDone);
    OldPodGoes(s0.stable.value, pod1, pod2);
    ScaleUpPods(both, rest);
    hide ControllerStep, Strays, EnoughReady, Serving, ServesDesiredPort, SomeReadyServingPod, EgressPorts, UserStrategy;
    assert Step(s0, ChangePods(rest), s1) && Step(s1, Fetch, s2) && Step(s2, WriteStable, s3);
    r := Run([s0, s1, s2, s3], [ChangePods(rest), Fetch, WriteStable]);
  }

  function Unready(pods: map<nat, Pod>, t: int, port: int): set<nat> {
    set id | id in pods && StrayPod(pods[id], t, port) && !pods[id].ready
  }

  lemma StrayGetsReady(d: Deployment, pods: map<nat, Pod>, id: nat, t: int, port: int)
    requires id in Unready(pods, t, port)
    ensures var pods' := pods[id := pods[id].(ready := true, running := true)];
            && ControllerStep(d, pods, pods') && Strays(pods', t, port) == Strays(pods, t, port)
            && Unready(pods', t, port) == Unready(pods, t, port) - {id} && ServingIds(pods', t, port) == ServingIds(pods, t, port)
  {
  }

  lemma ServingGoes(d: Deployment, pods: map<nat, Pod>, id: nat, t: int, port: int)
    requires id in ServingIds(pods, t, port) && |ReadyIds(pods)| > d.replicas
    ensures var pods' := pods - {id};
            && ControllerStep(d, pods, pods') && Strays(pods', t, port) == Strays(pods, t, port)
            && Unready(pods', t, port) == Unready(pods, t, port) && ServingIds(pods', t, port) == ServingIds(pods, t, port) - {id}
  {
    hide ReadyIds;
    assert MayRemoveReady(d, pods, pods[id]);
  }

  /** One step towards starvation: an unready stray becomes ready, or, once all are, a serving
      pod goes. */
  lemma StarveStep(d: Deployment, pods: map<nat, Pod>, t: int) returns (pods': map<nat, Pod>)
    requires d.replicas >= 1 && |Strays(pods, t, d.templatePort)| >= d.replicas && Serving(pods, t, d.templatePort)
    ensures ControllerStep(d, pods, pods') && |Strays(pods', t, d.templatePort)| >= d.replicas
    ensures |Unready(pods', t, d.templatePort)| + |ServingIds(pods', t, d.templatePort)|
            < |Unready(pods, t, d.templatePort)| + |ServingIds(pods, t, d.templatePort)|
  {
    hide ControllerStep, Strays, ServingIds, ReadyIds, Serving;
    var port := d.templatePort;
    ServingMeansIds(pods, t, port);
    if id :| id in Unready(pods, t, port) {
      pods' := pods[id := pods[id].(ready := true, running := true)];
      StrayGetsReady(d, pods, id, t, port);
    } else {
      var id :| id in ServingIds(pods, t, port);
      pods' := pods - {id};
      AllStraysReady(pods, t, port, id);
      ServingGoes(d, pods, id, t, port);
    }
  }

  lemma AllStraysReady(pods: map<nat, Pod>, t: int, port: int, id: nat)
    requires Unready(pods, t, port) == {} && id in ServingIds(pods, t, port)
    ensures |ReadyIds(pods)| > |Strays(pods, t, port)|
  {
    forall x | x in Strays(pods, t, port) ensures x in ReadyIds(pods) {
      assert x !in Unready(pods, t, port);
    }
    SubsetSize(Strays(pods, t, port) + {id}, ReadyIds(pods));
  }

  lemma {:induction false} Starve(d: Deployment, pods: map<nat, Pod>, t: int) returns (ps: seq<map<nat, Pod>>)
    requires d.replicas >= 1 && |Strays(pods, t, d.templatePort)| >= d.replicas
    ensures ControllerRun(d, ps) && ps[0] == pods && !Serving(ps[|ps| - 1], t, d.templatePort)
    decreases |Unready(pods, t, d.templatePort)| + |ServingIds(pods, t, d.templatePort)|
  {
    hide ControllerStep, Serving, Strays, Unready, ServingIds;
    if !Serving(pods, t, d.templatePort) {
      ps := [pods];
    } else {
      var pods' := StarveStep(d, pods, t);
      var rest := Starve(d, pods', t);
      ps := [pods] + rest;
      forall i | 0 <= i < |ps| - 1 ensures ControllerStep(d, ps[i], ps[i + 1]) {
        assert i > 0 ==> ps[i] == rest[i - 1] && ps[i + 1] == rest[i - 1 + 1];
      }
    }
  }

  /** A controller that honours the strategy can leave the server without a ready pod of the
      target and of the current port exactly when there are at least as many stray pods as
      replicas; with one replica, exactly when there is a stray. */
  lemma CanStarveIff(d: Deployment, pods: map<nat, Pod>, t: int)
    requires d.replicas >= 1 && (d.strategy == SURGE_FIRST || d.templatePort == t)
    requires Serving(pods, t, d.templatePort)
    ensures CanStarve(d, pods, t) <==> |Strays(pods, t, d.templatePort)| >= d.replicas
  {
    hide ControllerStep, Serving, Strays;
    if |Strays(pods, t, d.templatePort)| >= d.replicas {
      var ps := Starve(d, pods, t);
    } else {
      forall ps | ControllerRun(d, ps) && ps[0] == pods ensures Serving(ps[|ps| - 1], t, d.templatePort) {
        FewStraysRun(d, ps, t, |ps| - 1);
      }
    }
  }
}
