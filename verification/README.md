# MCP Runtime: verified models of its protocols and codecs

This project models the parts of the MCP Runtime repository where a mistake would be hard to see
in review: the operator's multi-step reconciles, the retirement of a server's access, the local
adapter daemon and its retrying transport, and the parsers, orders and validators that decide what
a release may do. Each module follows one source file or one protocol. Operations that change
state step by step are methods on classes, proved against specification functions; what those
functions mean is proved as lemmas, over every input, every run and every pattern of failing calls.
The contracts of the main operations also say outright, down to literal names, codes and limits, what
is stored, sent, returned or refused.

| module | models |
|---|---|
| `EgressCidrs`, `EgressPrivate`, `EgressDuplicates` | subtracting except prefixes from allow prefixes of an egress policy, which allows open private space, and when two entries name one network |
| `RouteOwnership` | the election of the server that owns a public route |
| `OAuthResources` | publication of OAuth resources into the mcp-auth Deployment |
| `PortTransition` | moving a server to a new port across Deployment, Service and egress policy |
| `EgressPolicies` | which egress policies the operator writes, deletes and sweeps, and whether others restrict egress |
| `Retirement` | disabling, then deleting, every grant and session of a retired server |
| `ServerFence` | binding grants to a server UID, and rendering only bound grants |
| `OptimisticApply` | the Get, merge, Update loop against concurrent writers |
| `MergeObject`, `MergeInPlace` | the recursive merge of a manifest into a live object, as a function on trees and on the heap |
| `ProfileSlugs`, `AdapterDaemon` | local path segments, the profile store, the router, and the daemon's operations |
| `RetryTransport` | the retry loop of the runtime transport and the request capture that feeds it |
| `ReleaseVersion`, `VersionPatterns` | parsing and ordering versions, tags made from a version and a commit, and the pattern the parser stands for |
| `ImageReference`, `ImagePatterns` | parsing and printing image references, and the patterns the parser stands for |
| `ReleaseObjects`, `Rbac`, `BundleRbac` | the validator of a release's platform bundle, the evaluation rules of Kubernetes RBAC, and what an accepted bundle adds to a cluster |
| `SessionIdentity` | SPIFFE IDs of adapter sessions |

`Text` and `Wrappers` hold shared strings, sorting and result types; `Patterns` says what a regular
expression matches.

Where the code does not do what its comments or a standard suggest, the model keeps the code. One
lemma shows or constructs an input, and another gives the exact condition:

| what happens | input | exact condition |
|---|---|---|
| An allow prefix whose base address is public but which holds private space passes without an exception. | `EgressPrivate.ShortPrefixPasses` | `EgressPrivate.OpensPrivateIff` |
| A list may name one network twice, since prefixes keep their host bits and are compared as written. | `EgressDuplicates.HostBitsPass` | `EgressDuplicates.ListedTwiceIff` |
| Two servers that publish one audience with different scopes make the scopes entry depend on list order; the resource list does not. | `OAuthResources.SharedAudienceExample` | `OAuthResources.ScopesCanonicalIffAgreed` |
| Setting an environment entry rewrites the first of its name, while the container reads the last. | `OAuthResources.DuplicateStaysInForce` | `OAuthResources.UpsertTakesEffectIff` |
| The Service moves to a new port before the egress policy lists it. | `PortTransition.GapExample` | `PortTransition.SwitchBeforePolicyGap` |
| A second edit of the port before the Service has moved can leave neither the old nor the desired port with a ready pod. | `PortTransition.SecondEditStarves` | `PortTransition.CanStarveIff` |
| Deployments written with fewer strays than replicas can still starve the server when the replicas grow; a bound common to all writes is needed. | `PortTransition.ScaleUpStarves` | `PortTransition.FewStraysAtWritesServe` (the bound that suffices) |
| The pod that lets the Service move can go between the check and the write. | `PortTransition.PodGoesBeforeMove` | `PortTransition.ServedWhenMovedIff` |
| A reconcile can overwrite the very policy that restricts egress, and the next one then deletes its own. | `EgressPolicies.TakeoverLiftsRestriction` | `EgressPolicies.StaysRestrictedIff`, `EgressPolicies.ReconcileIsIdempotentIff` |
| A server refused by an older one still refuses younger ones, so the served set is not maximal. | `RouteOwnership.RefusedServerExample` | `RouteOwnership.RefusedServerStillRefuses` (a family of such inputs) |
| With platform sessions, revocation and unversioned deletion go by name and can hit another server's session. | `Retirement.RevokeHitsReplacement` | `Retirement.RevokeByNameIff`, `Retirement.DeleteByNameIff` |
| A grant re-pointed to another server keeps its UID, and the delete by UID removes it. | `Retirement.DeleteHitsRepointed` | `Retirement.DeleteByUidIff` |
| A reconcile that fetched a server before it was marked retiring still renders its grants. | `ServerFence.InFlightRender` | `ServerFence.RenderedWhileRetiredIff` |
| Merged finalizers and owners may hold duplicates. | `OptimisticApply.DuplicateKept` | `OptimisticApply.MergeKeepsExisting`, `OptimisticApply.MergeIdempotentIff` |
| `RoundTrip` can return neither a response nor an error; the proxy always captures a replayable body. | `RetryTransport.NeitherReturned` | `RetryTransport.ExactlyOneIff` |
| Version comparison reads a hyphen followed by digits as a negative number, and clamps numbers an int cannot hold. | `ReleaseVersion.NotPlainPre`, `ReleaseVersion.NotPlainCore` | `ReleaseVersion.AgreesWithSemverIffPlain` |
| The bundle validator compares list entries with `*` alone, so an entry such as `*/status` passes. | `BundleRbac.StatusOfEveryResource` | `BundleRbac.NamesEveryResourceIff` |
| It does not look at aggregation rules, so a bundled cluster role can take over any rules of the cluster. | `BundleRbac.AggregatingBundleEscalates` | `BundleRbac.NarrowWhenDetachedIff`, `BundleRbac.NobodyEscalatesIff` |
| It does not look at labels, so a role of the cluster can take over bundled rules, for whoever is bound to it. | `BundleRbac.LabelledRoleLeaks` | `BundleRbac.OnlyPlatformGainsIff` |
| The session parser lets outer white space through that the printer trims. | `SessionIdentity.EncodedSpaceIsAccepted` | `SessionIdentity.ReprintIff` |

## Model

| member | source | states |
|---|---|---|
| EgressCidrs.NestedOrDisjoint | pkg/egresscidrs/cidrs.go:86-88 | two prefixes are nested or share no address, and the code's containment test decides which |
| EgressCidrs.Blocks | pkg/egresscidrs/cidrs.go:61-84 | fails exactly when some allow prefix with a private base address neither lies in an except prefix nor holds one, and names it; otherwise the entries open exactly the addresses some allow prefix holds and no except prefix does, and each except is longer than its CIDR and inside it |
| EgressCidrs.OpensExactly | pkg/egresscidrs/cidrs.go:58-84 | an address is opened by the returned blocks exactly when some allow prefix holds it and no except prefix does |
| EgressCidrs.ExceptsStrictlyInside | pkg/egresscidrs/cidrs.go:70-80 | every except of a block is longer than its CIDR and lies inside it, as Kubernetes demands |
| EgressCidrs.Parse | pkg/egresscidrs/cidrs.go:23-56 | accepts exactly the lists of at most 16 non-blank fields that are distinct prefixes, not multicast or unspecified, of at least 8 bits (32 for IPv6), and returns the prefix of each field in order; each error names a field that has that fault |
| EgressCidrs.FieldsConcat | pkg/egresscidrs/cidrs.go:24-31 | the fields of a list are those of its parts, in order |
| EgressPrivate.ContainsMeans | pkg/egresscidrs/cidrs.go:86-88 | a prefix holds the addresses of its family from its base address, host bits cleared, through the next power of two of its size |
| EgressPrivate.MulticastMeans | pkg/egresscidrs/cidrs.go:36-38 | the multicast test holds exactly of 224.0.0.0/4, of ff00::/8 and of the IPv4-mapped form of the former |
| EgressPrivate.PrivateIsRanges | pkg/egresscidrs/cidrs.go:90-93 | the address tests hold exactly of the listed private ranges of both families, IPv4-mapped ones included |
| EgressPrivate.HoldsPrivateIff | pkg/egresscidrs/cidrs.go:90-93 | a prefix holds a private address exactly when its base address is private or it encloses a private range |
| EgressPrivate.OpensPrivateIff | pkg/egresscidrs/cidrs.go:78-80 | an allow that passes with no exception of its own opens private addresses exactly when it encloses a private range |
| EgressPrivate.ShortPrefixPasses | pkg/egresscidrs/cidrs.go:78-80 | 172.0.0.0/8 passes without exceptions and opens 172.16.0.1 |
| EgressDuplicates.SameNetworkIff | pkg/egresscidrs/cidrs.go:32-49 | two prefixes hold the same addresses exactly when they agree in family, length and leading bits |
| EgressDuplicates.CanonicalIsUnique | pkg/egresscidrs/cidrs.go:21-49 | prefixes without host bits that name one network are equal, so comparing them as written is enough |
| EgressDuplicates.ListedTwiceIff | pkg/egresscidrs/cidrs.go:21-49 | an accepted list names a network twice exactly when two of its prefixes agree in family, length and leading bits; never when no host bit is set |
| EgressDuplicates.HostBitsPass | pkg/egresscidrs/cidrs.go:32-49 | 10.0.0.0/8 and 10.0.0.1/8 are accepted side by side and are one network |
| RouteOwnership.OlderIsStrictTotalOrder | internal/operator/route_ownership.go:40-48 | the age order is irreflexive, asymmetric, transitive and total on servers of distinct namespace and name |
| RouteOwnership.PublicRouteOwner | internal/operator/route_ownership.go:55-71 | returns the oldest live older server whose route conflicts, or nobody when there is none |
| RouteOwnership.OwnerMeans | internal/operator/route_ownership.go:23-71 | the owner is another, live server of the same non-empty route, on the same host unless one of the two names none, created earlier or at the same time and smaller in namespace or name; and no such server is older than it |
| RouteOwnership.ClaimMeans | internal/operator/route_ownership.go:23-48 | the same conditions decide whether one server claims the route of another |
| RouteOwnership.OwnerIgnoresListOrder | internal/operator/route_ownership.go:50-71 | any two answers over permutations of one listing are the same owner |
| RouteOwnership.UnownedDoNotOverlap | internal/operator/route_ownership.go:50-71 | two live servers that nobody owns never serve overlapping routes |
| RouteOwnership.OverlapsIsNotTransitive | internal/operator/route_ownership.go:31-36 | a host-less route overlaps two routes that do not overlap each other |
| RouteOwnership.OldestIsUnowned | internal/operator/route_ownership.go:55-71 | the oldest live server is never refused |
| RouteOwnership.SomeLiveServerIsUnowned | internal/operator/route_ownership.go:55-71 | whenever a live server exists, some live server is served |
| RouteOwnership.DeletionKeepsUnowned | internal/operator/route_ownership.go:55-71 | removing or deleting other servers never makes a served server refused |
| RouteOwnership.YoungerServersKeepUnowned | internal/operator/route_ownership.go:55-71 | adding younger servers never makes a served server refused |
| RouteOwnership.RefusedServerStillRefuses | internal/operator/route_ownership.go:31-71 | a refused host-less server keeps refusing a younger server that conflicts with no served one, so the served set is not maximal |
| RouteOwnership.RefusedServerExample | internal/operator/route_ownership.go:23-71 | three concrete servers in that position |
| OAuthResources.CollectResources | internal/operator/oauth_resources.go:54-84 | an audience is collected exactly when some server that owns its route asks for OAuth of this issuer, not by a header, and names as audience a URL of its own public path, not plain HTTP under a secure issuer, on its own host, on the default host or, when neither is set, on the issuer's; its scopes are those of the first listed publisher, sorted |
| OAuthResources.EligibleMeans | internal/operator/oauth_resources.go:57-74 | the same conditions for one server, path cleaning and case folding included |
| OAuthResources.AddRegistered | internal/operator/oauth_resources.go:98-110 | refuses exactly when a registered resource is already published by a server, else adds all registered ones without duplicates |
| OAuthResources.EnvList.UpsertEnv | internal/operator/oauth_resources.go:114-123 | replaces the first entry of a name or appends one, and touches nothing else |
| OAuthResources.EnvList.RemoveEnv | internal/operator/oauth_resources.go:124-132 | drops every entry of a name and keeps the others in order |
| OAuthResources.WriteEnv | internal/operator/oauth_resources.go:112-153 | succeeds exactly when the patch does not fail or nothing changes; leaves the Deployment at the published environment or, on failure, as it was; a patch is issued exactly when the environment changes |
| OAuthResources.ReconcileBundledOAuthResources | internal/operator/oauth_resources.go:41-153 | each outcome is exact: no issuer, a missing Deployment or no container end well and change nothing; a failing list, lookup, annotation or a resource registered twice is reported as such and changes nothing; a failing patch is reported exactly when one is needed; success publishes the canonical environment, with a patch exactly when it differs |
| OAuthResources.OtherEntriesUntouched | internal/operator/oauth_resources.go:112-148 | every unmanaged entry survives a run verbatim and in order |
| OAuthResources.EnvAfterLookup | internal/operator/oauth_resources.go:133-148 | what the server reads after a run: removed names are absent, and a set name reads as published when at most one entry of it was there, else as its last entry did before |
| OAuthResources.UpsertTakesEffectIff | internal/operator/oauth_resources.go:114-123 | setting a name takes effect, whatever the value, exactly when at most one entry of it was there |
| OAuthResources.DuplicateStaysInForce | internal/operator/oauth_resources.go:114-148 | with two entries of the resource list the server still reads the second after a run |
| OAuthResources.SecondRunIsFixedPoint | internal/operator/oauth_resources.go:133-152 | running again on the same listing changes no entry, hence issues no patch |
| OAuthResources.PublishedListIsCanonical | internal/operator/oauth_resources.go:41-111 | the published list is strictly sorted, holds exactly the published and registered resources and is the same for every permutation of the servers |
| OAuthResources.ScopesCanonicalIffAgreed | internal/operator/oauth_resources.go:74-83 | the scopes are independent of list order exactly when all publishers of an audience agree on them |
| OAuthResources.SharedAudienceExample | internal/operator/oauth_resources.go:57-83 | two live servers with different ingress hosts publish one audience of the default host, and two orders of the listing publish different scopes |
| OAuthResources.SharedAudienceIsOnDefaultHost | internal/operator/oauth_resources.go:163-190 | two live servers can publish one audience only on the default ingress host, from two routes with different hosts |
| PortTransition.HasReadyServingPod | internal/operator/service.go:130-168 | true exactly when some running, ready, not deleted pod of the serving track is labelled with and declares the desired port |
| PortTransition.EgressPortsExact | internal/operator/traefik_egress.go:228-246 | the policy's ports are strictly increasing and are exactly the desired port and a numeric Service target |
| PortTransition.Objects.ServingDeploymentStrategy | internal/operator/service.go:112-128 | while the Service targets another port than the gateway's, or the spec's where there is no gateway, one pod more and none unavailable; else recreation when the rollout asks for it, or the rollout's own maxUnavailable and maxSurge, each 25% when absent |
| PortTransition.Objects.ReconcileDeployment | internal/operator/deployment.go:29-113 | writes the stable Deployment for the gateway's port, or the spec's where there is no gateway, with the stable share of the replicas and the strategy the Service state asks for, or nothing |
| PortTransition.Objects.ReconcileCanaryDeployment | internal/operator/deployment.go:115-198 | writes the canary Deployment likewise, removes it when there is no canary, or changes nothing |
| PortTransition.Objects.ReconcileService | internal/operator/service.go:21-101 | moves target and selector to the gateway's port, or the spec's where there is no gateway, unless the move must wait for a ready pod of it; on failure nothing changes |
| PortTransition.Objects.ReconcileTraefikEgress | internal/operator/traefik_egress.go:96-178 | leaves the policy listing exactly the gateway's port, or the spec's where there is no gateway, and the target of the Service it reads, or removed, or unchanged on failure |
| PortTransition.Objects.ReconcileResources | internal/operator/controller.go:310-394 | completes exactly when none of the four steps fails; then, unless it waits for a pod, Service target, pinned selector, Deployment label and policy all carry the gateway's port where the spec has a gateway and the spec's port otherwise; a failure leaves every later object alone; a reconcile during a transition moves the Service only past a ready new-port pod; a pin is never lost |
| PortTransition.GatewayIsServed | internal/operator/service.go:105-110 | a run from an empty cluster in which a server on 8080 with a gateway on 8091 is served on 8091, by Service, Deployment and policy alike |
| PortTransition.CompletedReconcileCovers | internal/operator/controller.go:349-376 | the last write of a reconcile lists exactly the desired port and the current target, whatever happened before |
| PortTransition.PortsStayCurrent | internal/operator/traefik_egress.go:228-246 | in every run the ports read are still right when they are written, though spec and pods change meanwhile |
| PortTransition.TargetStaysReachable | internal/operator/controller.go:349-376 | while the desired port stays, every intermediate state and every crash point keeps the Service target in the policy |
| PortTransition.SwitchBeforePolicyGap | internal/operator/service.go:33-90 | the exact condition under which writing the Service keeps its target covered by the policy of the moment |
| PortTransition.GapExample | internal/operator/controller.go:349-376 | a run from an idle, reconciled cluster, with a crash after the Deployments, into a Service target the policy does not list |
| PortTransition.TargetMovesOnlyToReadyPort | internal/operator/service.go:33-90 | over every run a Service with a target moves only to the reconciled port, pinned, after the check of that reconcile saw a ready pod of that port, and its new selector matches such pods |
| PortTransition.ServedWhenMovedIff | internal/operator/service.go:33-90 | when it moves after such a check, a ready pod of the new port is there exactly when nobody has changed the pods since, or the last change leaves one |
| PortTransition.PodGoesBeforeMove | internal/operator/service.go:33-90 | a run in which the pod goes between the check and the write, and the Service then selects no pod |
| PortTransition.FoundMeansChecked | internal/operator/service.go:130-168 | a run acts on a ready pod only if one existed at the check of the same reconcile |
| PortTransition.PinnedForever | internal/operator/service.go:33-90 | in every run the pinned label equals the target port and a pinned Service never becomes unpinned |
| PortTransition.OldPortServesUntilNewIsReady | internal/operator/deployment.go:57-84 | over every run, with any edits of the port fetched at any time, while the Service keeps its target and no ready pod is of neither its port nor the Deployment's current one: a ready pod of the current port exists, or one of the old port that the Service selects |
| PortTransition.FewStraysAtWritesServe | internal/operator/deployment.go:57-84 | over every run, when every Deployment written asks for at least m pods and meets fewer than m strays at that moment, a ready pod of the target or of the current port exists in every state |
| PortTransition.ScaleUpStarves | internal/operator/deployment.go:57-84 | a run in which every Deployment has fewer strays than its own replicas, and nothing serves in the end: one bound m is needed |
| PortTransition.SecondEditStarves | internal/operator/service.go:112-128 | a run in which a second edit is fetched before the Service moves, and the controller may then take the last pod the Service selects |
| PortTransition.CanStarveIff | internal/operator/service.go:112-128 | a controller that honours maxUnavailable 0 and maxSurge 1 can leave the target and the current port without a ready pod exactly when there are at least as many stray pods as replicas |
| EgressPolicies.PolicyMeans | internal/operator/traefik_egress.go:62-161 | the policy written for a server has its name and labels, selects the Traefik pods for egress only, and opens the given ports of that server's pods and nothing else |
| EgressPolicies.PolicyNameMeans | internal/operator/traefik_egress.go:62-72 | the hash ends each name; what stands before it is cut only to stay within 253 characters, and then loses the dashes and dots it would end in |
| EgressPolicies.PolicyNamesDiffer | internal/operator/traefik_egress.go:62-72 | policy names fit a DNS subdomain, and two servers can share one only if their hashes collide |
| EgressPolicies.Cluster.DeleteTraefikEgressPolicy | internal/operator/traefik_egress.go:285-302 | success removes exactly the policies labelled for the server, in any namespace; a failure removes some of those and nothing else; when no call fails it succeeds |
| EgressPolicies.Cluster.SweepTraefikEgressPolicies | internal/operator/traefik_egress.go:304-337 | success removes exactly the managed policies outside Traefik's namespace, without server labels, or of a server that is gone or being deleted; a failure removes some of those and nothing else; when no call fails it succeeds |
| EgressPolicies.Cluster.TraefikEgressRestricted | internal/operator/traefik_egress.go:248-282 | true exactly when a policy in Traefik's namespace that the operator does not manage selects the Traefik pods and has the type Egress, or no type but egress rules; answers whenever no call fails |
| EgressPolicies.Cluster.ReconcileTraefikEgress | internal/operator/traefik_egress.go:96-178 | success leaves the server's policy written when egress is restricted and the server routes through Traefik, with its literal labels, for the Traefik pods, to that server's pods and on the given ports only, else exactly its policies gone; a failure loses at most policies of that server; when no call fails it succeeds |
| EgressPolicies.Cluster.RunOperations | internal/operator/traefik_egress.go:96-337 | through any reconciles, deletions and sweeps with any failures, no policy of somebody else appears or changes, and one goes only under a name that a reconciled server's policy takes; while those names are free, whether egress counts as restricted never changes; when nothing fails, every operation takes its full effect |
| EgressPolicies.StaysRestrictedIff | internal/operator/traefik_egress.go:127-168 | a reconcile leaves egress restricted exactly when a restricting policy other than the one it overwrites exists |
| EgressPolicies.TakeoverLiftsRestriction | internal/operator/traefik_egress.go:127-168 | a cluster in which the reconcile overwrites the only policy that restricts egress |
| EgressPolicies.ReconcileIsIdempotentIff | internal/operator/traefik_egress.go:96-178 | a second reconcile leaves what the first one wrote exactly when the first did not overwrite the last policy that restricts egress |
| EgressPolicies.OtherServersUntouched | internal/operator/traefik_egress.go:62-178 | reconciling one server keeps every other server's policy when their hashes differ |
| EgressPolicies.SweepSparesLiveServers | internal/operator/traefik_egress.go:304-337 | a sweep never deletes a live server's policy in the ingress controller's namespace |
| EgressPolicies.SweptIsClean | internal/operator/traefik_egress.go:304-337 | after a sweep every managed policy is in that namespace and belongs to a live server |
| Retirement.InterferenceEvolves | pkg/access/retirement.go:52-121 | whatever others do between calls, re-pointing a record included, short of issuing or re-enabling for the server: off records stay off, no matching record appears, and every record descends from the one of its name, one content to a version, or has a new UID |
| Retirement.ListedStays | pkg/access/retirement.go:68-119 | in every later state the listed version of a record is still the server's; the record of its UID is unless it was re-pointed; and the record of its name is while nobody else's change |
| Retirement.PatchByVersionIff | pkg/access/retirement.go:68-89 | a patch by UID and version never re-enables or loses a matching record, and touches another's exactly when that version is another's, whichever way the call fails |
| Retirement.DeleteByUidIff | pkg/access/retirement.go:90-119 | a delete by UID leaves other servers' records alone exactly when it is lost, the record is gone or has another UID, or it still refers to the server |
| Retirement.DeleteHitsRepointed | pkg/access/retirement.go:111-117 | a listed grant is disabled, re-pointed to another server under its UID as an apply may do, and then deleted |
| Retirement.RevokeByNameIff | pkg/access/retirement.go:78-83 | the platform backend's revoke never re-enables or loses a matching session, and touches another's exactly when one has taken the name |
| Retirement.DeleteByNameIff | pkg/access/retirement.go:92-106 | the same for deletion by name |
| Retirement.RevokeHitsReplacement | pkg/access/retirement.go:78-83 | a session dropped and replaced by another server's after the listing: the replacement is revoked |
| Retirement.Manager.SwitchOffAll | pkg/access/retirement.go:68-89 | success leaves every matching record off; any failure keeps all calls safe; it succeeds when nothing fails and records are as listed or dropped |
| Retirement.Manager.DeleteAll | pkg/access/retirement.go:90-119 | success leaves no matching record; it is only ever called when everything is off; it succeeds when nothing fails and UIDs are as listed or dropped |
| Retirement.Manager.RetireServerAccess | pkg/access/retirement.go:52-121 | wherever sessions live, success leaves no grant or session that refers to the server, a blank reference namespace meaning the record's own, and no such record is deleted while another is still on; calls touch such records only, with Kubernetes sessions while nobody re-points a record and with any backend while others leave other records alone; it succeeds when no call fails and others at most drop records |
| Retirement.Manager.RetireWithRetries | pkg/access/retirement.go:48-121 | any number of failing attempts keeps the same guarantees under any pattern of failures; every failing attempt uses up a turn of the cluster, so attempts that outnumber the turns of trouble end in success |
| ServerFence.GrantObject.BindServerUID | pkg/access/retirement.go:20-46 | binds to the active server's UID and keeps an existing binding; a failing lookup, a retiring or deleted server and a stale binding are refused without changing the object; a missing server or one without UID leaves it as it is |
| ServerFence.SelectedMembers | internal/operator/policy.go:264-273 | the selected grants are exactly the listed ones that refer to the server and whose binding is absent or equals its UID, and none while it is retiring |
| ServerFence.SelectGrants | internal/operator/policy.go:260-299 | the rendering loop collects, in listing order, the grants that name the server, a blank reference namespace meaning the grant's own, and are bound to nobody or to its UID; none while it is retiring |
| ServerFence.SelectedOneByOne | internal/operator/policy.go:260-299 | each listed grant is selected or not on its own, and the order is that of the listing |
| ServerFence.FreshBindingIsToActiveServer | pkg/access/manager.go:130-139 | a binding created by an apply names the UID of a published server that is neither retiring nor being deleted; nothing else of the grant changes |
| ServerFence.StaleRequestRefused | pkg/access/retirement.go:38-44 | a request bound to a retired UID is refused exactly while its server name is published, unless by an active server without a UID |
| ServerFence.BoundByLastApplyAlways | pkg/access/retirement.go:20-46 | in every run the stored annotation of a grant is the one its last successful apply carried |
| ServerFence.RenderedOnlyForItsServer | internal/operator/policy.go:264-273 | in every run a rendered grant refers to the server rendered, which had the UID bound by the grant's last apply and was not retiring when the reconcile fetched it |
| ServerFence.RenderedWhileRetiredIff | internal/operator/policy.go:264-273 | while a UID is retired, a listed grant bound to it is rendered exactly when the last fetch took that UID and preceded the step that retired it |
| ServerFence.InFlightRender | internal/operator/policy.go:264-273 | a run in which the live server is marked retiring after the fetch and its grant is still rendered |
| ServerFence.RetiredForever | pkg/access/retirement.go:20-46 | once a UID is gone or retiring it never becomes active again, across republishing |
| ServerFence.DelayedApplyIsFenced | pkg/access/retirement.go:12-46 | once a UID is retired, a grant bound to it, however late its apply completes, is rendered by at most the one reconcile that was already in flight |
| OptimisticApply.MergeStringMap | pkg/access/manager.go:427-439 | labels and annotations merge right-biased |
| OptimisticApply.MergeSlices | pkg/access/manager.go:441-487 | finalizers and owner references merge as the specified order-preserving union |
| OptimisticApply.SameOwner | pkg/access/manager.go:489-494 | two owner references count as one exactly when they have the same UID or, both without, the same version, kind and name |
| OptimisticApply.DedupOccurs | pkg/access/manager.go:441-487 | deduplication keeps the first occurrence of each key, in order, and nothing else |
| OptimisticApply.MergeKeepsExisting | pkg/access/manager.go:441-487 | existing entries survive as a prefix, the keys are the union, and the result is duplicate-free exactly when something existed or the desired keys were |
| OptimisticApply.MergeIdempotentIff | pkg/access/manager.go:441-487 | merging twice equals merging once exactly under that condition |
| OptimisticApply.DuplicateKept | pkg/access/manager.go:441-462 | a finalizer listed twice is stored twice at first and once after the next apply |
| OptimisticApply.Unstructured.PreserveExistingObjectMeta | pkg/access/manager.go:420-425 | labels and annotations: the object's own value wins, other live keys stay, nothing else; finalizers and owners: the live ones first, then the object's, first occurrences only, or the object's as they are when none was live |
| OptimisticApply.ApplyUnstructured | pkg/access/manager.go:384-418 | whatever concurrent writers do and whatever fails, at most one write is accepted: it carries every label and annotation of the caller's original, every other one of the object it replaces, and no more, with finalizers and owners the first occurrences of the replaced ones followed by the caller's; there are at most three updates; it succeeds exactly when some round, after rounds that only collided, lands, and answers with a conflict exactly when all three collide |
| OptimisticApply.CreatesWhatIsAbsent | pkg/access/manager.go:388-399 | an absent object is created exactly when the caller's carries no resource version |
| OptimisticApply.StoredMeta | pkg/access/manager.go:384-487 | what an accepted write stores of labels, annotations, finalizers and owners, key by key |
| OptimisticApply.AppliesIffQuietRound | pkg/access/manager.go:384-418 | while nothing fails and nobody removes the object, an apply succeeds exactly when in one of three rounds nobody writes between Get and Update |
| MergeObject.MergeAtEveryPath | pkg/k8sclient/apply.go:177-187 | reads of the merged object at every path: the manifest's value, nothing where the manifest cuts off, else the live value |
| MergeObject.MergeSelf | pkg/k8sclient/apply.go:177-187 | merging an object into itself changes nothing |
| MergeObject.MergeTwice | pkg/k8sclient/apply.go:177-187 | applying a manifest twice equals applying it once |
| MergeInPlace.Sanitize | pkg/k8sclient/apply.go:189-208 | the copy has the same value and shares no node with anything that existed |
| MergeInPlace.MergeObjectInPlace | pkg/k8sclient/apply.go:177-187 | the in-place merge computes the specified merge, leaves the source intact and shares no node with it |
| ProfileSlugs.SlugFromServer | internal/adapterd/profile.go:57-73 | the slug is the trimmed image of the lowered name, of slug characters only, with no outer dash, never empty or the reserved word |
| ProfileSlugs.SlugIsFixed | internal/adapterd/profile.go:57-73 | a name that is a slug already, without outer dashes, is its own slug, unless it is the reserved word |
| ProfileSlugs.ProbedAreDistinct | internal/adapterd/profile.go:75-85 | the first n probes are n different slugs, so the search measure is real |
| ProfileSlugs.UniqueSlug | internal/adapterd/profile.go:75-85 | ends within one probe more than there are taken slugs, with the base if it is free and else with base, dash and the least number from 2 up whose slug is free |
| ProfileSlugs.RoutesBackIff | internal/adapterd/router.go:90-102 | a local path routes back to its slug exactly when the slug is non-empty, without slash and without two dots in a row |
| ProfileSlugs.SlugsRouteBack | internal/adapterd/profile.go:48-85 | every slug the daemon makes routes back |
| ProfileSlugs.DeeperPathsRouteBack | internal/adapterd/router.go:90-102 | what follows a slug's local path is passed on behind /mcp, unchanged |
| AdapterDaemon.WithoutIsFilter | internal/adapterd/store.go:48-62 | dropping an ID keeps every profile of another ID, in order, and no profile of that one |
| AdapterDaemon.DropId | internal/adapterd/store.go:48-62 | the in-place filter leaves exactly the profiles of other IDs, in order |
| AdapterDaemon.Store.Put | internal/adapterd/store.go:27-46 | replaces the profile of that ID in place or appends it; a failed save changes nothing |
| AdapterDaemon.Store.Delete | internal/adapterd/store.go:48-62 | removes every profile of that ID; a failed save changes nothing |
| AdapterDaemon.MountKeepsAgreement | internal/adapterd/daemon.go:409-431 | mounting a stored profile keeps store and router in agreement |
| AdapterDaemon.DeleteKeepsAgreement | internal/adapterd/daemon.go:249-277 | dropping a profile and its slug's route keeps them in agreement |
| AdapterDaemon.NewTokenKeepsTokens | internal/adapterd/daemon.go:229-237 | a token stored under a new ID changes the token of no mounted route |
| AdapterDaemon.Daemon.StoreMaterial | internal/adapterd/daemon.go:433-444 | success stores exactly certificate, key and any CA of that profile, each under its own account, and is certain when no call fails; no other account and no local token is touched |
| AdapterDaemon.Daemon.Enroll | internal/adapterd/daemon.go:325-374 | a profile takes over new material, field by field, only once its certificate, key and any CA are stored; a failure leaves its session, its expiry and its trust domain; when no call fails the result is fixed by the enrolment's answer |
| AdapterDaemon.Daemon.Mount | internal/adapterd/daemon.go:409-431 | success mounts the profile under its slug with its stored token, failure changes no route; when no call fails it succeeds exactly when a token is stored and a stored key pair is valid |
| AdapterDaemon.Daemon.AddProfile | internal/adapterd/daemon.go:207-247 | whatever call fails, IDs and slugs stay distinct and every route is one stored profile's with that profile's token; success appends one profile with the least free slug and keeps other routes; when no call fails it succeeds exactly on usable requests, with the enrolled profile, mounted if it can be |
| AdapterDaemon.Daemon.DeleteProfile | internal/adapterd/daemon.go:249-277 | success removes that ID and its route only, purging touches no other profile's token, failure changes nothing; when no call fails it succeeds exactly when the ID is stored, and a purge drops its four secrets |
| AdapterDaemon.Daemon.RestartProfile | internal/adapterd/daemon.go:299-323 | agreement is kept, no other profile changes, and success leaves the stored profile mounted; when no call fails the profile is re-enrolled, without a dead session, and success means it could be mounted |
| AdapterDaemon.Daemon.RenewAll | internal/adapterd/daemon.go:489-530 | agreement is kept and no profile's session, session expiry or trust domain changes, whatever fails, and a certificate expiry changes only with the new certificate, key and CA stored; when no call fails each profile that is due, has a session and is granted material becomes enrolled with it stored and its route mounted from it, where one can be; profiles not due keep profile, secrets and route |
| AdapterDaemon.Daemon.RunOperations | internal/adapterd/daemon.go:207-323 | agreement holds after any sequence of additions, deletions, restarts and renewals with any failures; when nothing fails exactly the profiles added and not deleted since are stored, in order |
| AdapterDaemon.Daemon.Reload | internal/adapterd/daemon.go:396-407 | start-up mounting keeps agreement, and mounts every profile that can be mounted when no call fails |
| AdapterDaemon.LocalPathReachesItsProfile | internal/adapterd/router.go:55-102 | in every agreed state a request on a profile's local path reaches that profile's route and no other |
| RetryTransport.RetryBackoff | internal/agentadapter/transport.go:263-275 | the doubling loop computes min(100 ms times 2 to the n-1, 1 s) |
| RetryTransport.RoundTrip | internal/agentadapter/transport.go:99-191 | every answer before the last send is a 502, a 504, a net error that is no timeout or a reset connection; a status other than those two at some send ends the run there and is returned, and so does any other error; only tools/list, resources/list, prompts/list, ping and server/discover are sent more than once; retries wait 100 ms, then 200 ms, send the original bytes first and only replayed bytes after; no response body stays open but the returned one |
| RetryTransport.AttemptsStop | internal/agentadapter/transport.go:99-191 | on any network the loop goes on past retryable answers only, and ends at the first other answer, at the last send, at the end of the context or for want of a replayable body, with the outcome of each |
| RetryTransport.SendCounts | internal/agentadapter/transport.go:99-191 | one to three sends for any method, exactly one and no wait for a method that is not retryable |
| RetryTransport.SendBounds | internal/agentadapter/transport.go:99-191 | a returned retryable status or error means every allowed send was used up |
| RetryTransport.ExactlyOneIff | internal/agentadapter/transport.go:99-191 | every run returns exactly one of response and error precisely when the method is not retryable or the body can be replayed |
| RetryTransport.NeitherReturned | internal/agentadapter/transport.go:99-191 | a retryable request without a replayable body that is answered 502 gets neither |
| RetryTransport.Inbound.Capture | internal/agentadapter/proxy.go:219-244 | an accepted request keeps its bytes, gets a factory that replays them and the right length; only unreadable or oversized bodies are refused |
| RetryTransport.ForwardCaptured | internal/agentadapter/proxy.go:219-244 | captured requests always get exactly one of response and error, in at most three sends of identical bytes |
| ReleaseVersion.ComparePrerelease | internal/platformrelease/version.go:51-89 | the early-return loop computes the specified list comparison |
| ReleaseVersion.CompareVersions | internal/platformrelease/version.go:39-49 | the method computes the specified version comparison |
| ReleaseVersion.CompareIsTotalPreorder | internal/platformrelease/version.go:39-89 | comparison is reflexive, antisymmetric in sign and transitive on all versions, and is zero exactly on versions with the same key |
| ReleaseVersion.CompareKeysOrder | internal/platformrelease/version.go:51-89 | identifier lists are totally ordered |
| ReleaseVersion.AgreesWithSemverIffPlain | internal/platformrelease/version.go:20-89 | a version compares as section 11 of Semantic Versioning 2.0.0 says against every plain version exactly when it is plain: numbers fit in an int and no identifier is a hyphen and in-range digits |
| ReleaseVersion.AgreesOnPlain | internal/platformrelease/version.go:39-89 | two plain versions compare as section 11 says |
| ReleaseVersion.MatchRender | internal/platformrelease/version.go:14-31 | every well-formed version text parses back to its pieces |
| VersionPatterns.VersionMatches | internal/platformrelease/version.go:17-25 | a text is read as a version exactly when the regular expression of the source matches it from end to end |
| VersionPatterns.MatchIff | internal/platformrelease/version.go:17-31 | and the pieces found are the groups of that match, on every text |
| ReleaseVersion.IsReleaseCommitSuffix | internal/platformrelease/version.go:132-142 | accepts exactly a `g` and forty lower-case hexadecimal digits |
| VersionPatterns.CommitSuffixMatches | internal/platformrelease/version.go:132-142 | which are the texts of `g[0-9a-f]{40}` |
| ReleaseVersion.GeneratedTagRecovered | internal/platformrelease/manifest.go:285-301 | version and commit are recovered from every generated tag |
| ReleaseVersion.RecognisedTagIsGenerated | internal/platformrelease/version.go:108-130 | every tag that yields a commit is the generated tag of a valid version and that commit |
| ImageReference.ParseImageRef | internal/platformrelease/image.go:34-70 | the step-by-step parser computes the specified parse |
| ImagePatterns.RepoPathMatches | internal/platformrelease/image.go:21 | the recursive recogniser of repository paths accepts exactly what the regular expression of the source matches |
| ImagePatterns.HostMatches | internal/platformrelease/image.go:22 | the same for registry hosts |
| ImagePatterns.TagMatches | internal/platformrelease/image.go:23 | the same for tags |
| ImagePatterns.DigestMatches | internal/platformrelease/image.go:24 | the same for digests |
| ImageReference.StringOfParse | internal/platformrelease/image.go:34-90 | printing a parsed reference gives the trimmed input |
| ImageReference.ReparseIsStable | internal/platformrelease/image.go:34-90 | parsing the printed form gives the same reference |
| ImageReference.RoundTripIff | internal/platformrelease/image.go:34-90 | printing then parsing returns a reference exactly when it is canonical, which every parsed one is |
| ImageReference.ParseIsCanonical | internal/platformrelease/image.go:34-70 | parsed references have valid parts, and a registry only where it reads as a host |
| ReleaseObjects.ValidateList | internal/platformrelease/objects.go:255-268 | no error exactly when the list has no `*` and, for verbs, none of escalate, bind and impersonate |
| ReleaseObjects.ValidateBinding | internal/platformrelease/objects.go:289-318 | no error exactly when the role reference is valid and defined and there are subjects, all of them accounts of platform namespaces |
| ReleaseObjects.KeyIdentifies | internal/platformrelease/objects.go:126-131 | among placed objects, equal keys mean equal kind, namespace and name |
| ReleaseObjects.DefinedMeansResolved | internal/platformrelease/objects.go:184-188 | finding a role by its joined key is finding it by kind, namespace and name |
| ReleaseObjects.ValidateNetworkPolicy | internal/platformrelease/objects.go:222-248 | no error exactly when the policy is one of the four shipped ones, of the networking API, has a spec that converts and a valid pod selector, and names policy types, each Ingress or Egress |
| ReleaseObjects.ValidatePlatformObjects | internal/platformrelease/objects.go:181-220 | the loops report no error exactly when the bundle is closed, narrow, placed and free of duplicates |
| ReleaseObjects.ParsePlatformObjects | internal/platformrelease/objects.go:151-179 | succeeds exactly on bundles of shipped kinds without duplicates whose service accounts, roles, bindings and policies each meet the stated requirements, down to the literal names of wildcards, verbs, kinds and policy types, and returns their objects in order |
| ReleaseObjects.AcceptedMeans | internal/platformrelease/objects.go:181-318 | a bundle is accepted exactly when each of its objects is lawful by itself, in literal terms, and no two share kind, namespace and name |
| ReleaseObjects.ObjectsOneByOne | internal/platformrelease/objects.go:151-179 | each document gives one object of its kind, trimmed namespace and name, and an empty document none |
| BundleRbac.BindingsResolveUniquely | internal/platformrelease/objects.go:144-150 | each binding of an accepted bundle resolves to exactly one role, in the same bundle |
| BundleRbac.StoredIsAccepted | internal/platformrelease/objects.go:181-220 | acceptance depends on neither labels nor aggregation rules, so it holds of the objects as the cluster stores them |
| BundleRbac.AddedIsThrough | internal/cli/update/objects.go:222-330 | on every cluster, what callers can do after an apply is what they could do without the bundle and what comes through it: a bundled binding, a bundled role, or a bundled role that an aggregation picks up |
| BundleRbac.OnlyPlatformGainsIff | internal/platformrelease/objects.go:144-150 | on a given cluster only platform service accounts gain anything through an accepted bundle exactly when no binding of somebody else gives out a rule through a bundled role or an aggregation that selects one |
| BundleRbac.LabelledRoleLeaks | internal/platformrelease/objects.go:250-269 | an accepted bundle without aggregation whose labelled role is picked up by an existing role, so that a user bound to that one may newly read secrets |
| BundleRbac.NarrowWhenDetachedIff | internal/platformrelease/objects.go:144-150 | on every cluster without such bindings an accepted bundle adds exactly the permissions its rules spell out, without wildcard groups, resources and verbs, for platform accounts: exactly when no binding of it gives out an aggregating cluster role |
| BundleRbac.NobodyEscalatesIff | internal/platformrelease/objects.go:250-269 | for each of the verbs `*`, escalate, bind and impersonate: on every cluster nobody makes a request with it through an accepted bundle: exactly when it holds no aggregating cluster role |
| BundleRbac.AggregateEscalates | internal/platformrelease/objects.go:250-269 | for every accepted bundle with an aggregating role, bound or not, and each of those verbs, a cluster on which a group makes a request with it through that role |
| BundleRbac.BoundAggregateEscalates | internal/platformrelease/objects.go:250-269 | for every accepted bundle with a bound aggregating role, a cluster without outside bindings to it on which its account escalates |
| BundleRbac.AggregatingBundleEscalates | internal/platformrelease/objects.go:250-269 | a concrete accepted bundle whose account escalates |
| BundleRbac.RoleBindingsStayInPlace | internal/platformrelease/objects.go:271-287 | a role binding reaches only its platform namespace, except the operator's account in the managed namespace through one of two named roles |
| BundleRbac.NamesEveryResourceIff | internal/platformrelease/objects.go:250-269 | a rule that can allow something names every resource it allows exactly when it holds no any-resource subresource entry |
| BundleRbac.StatusOfEveryResource | internal/platformrelease/objects.go:250-269 | an accepted bundle whose account reads the status of every resource of a group |
| SessionIdentity.UnescapeEscape | pkg/identity/session.go:13-18 | percent-decoding undoes percent-encoding for every string, as section 2.1 of RFC 3986 intends |
| SessionIdentity.PathIsKept | pkg/identity/session.go:23-35 | a path of escaped segments comes back from the URL unchanged, canonical or not |
| SessionIdentity.SessionRoundTrip | pkg/identity/session.go:13-49 | parsing a printed ID gives the trimmed namespace and session when the trust domains agree up to case and neither is blank, and refuses otherwise |
| SessionIdentity.IdentityIsInjective | pkg/identity/session.go:13-18 | two sessions share an ID exactly when their trimmed namespace and session are equal |
| SessionIdentity.ReprintIff | pkg/identity/session.go:23-49 | an accepted ID is printed back to one that reads the same exactly when its parts carry no outer white space |
| SessionIdentity.EncodedSpaceIsAccepted | pkg/identity/session.go:23-49 | an accepted ID whose namespace starts with an encoded space is printed back as another namespace's |

## Left out

- White space, case folding and lower-casing are ASCII; Unicode forms of `strings.TrimSpace`, `EqualFold` and `ToLower` are not modelled.
- Textual prefix parsing, URL parsing of audiences, JSON encoding of scopes and method names, and YAML decoding are parameters or start from decoded values.
- EgressCidrs.Blocks: works on zone-less addresses; address zones are not part of this model.
- PortTransition.Objects.ReconcileResources: covers the Deployment, Service and egress policy steps; configuration maps, ingress, certificates, status and conditions are not part of this model.
- PortTransition.OldPortServesUntilNewIsReady: pods change only by the Deployment controller's steps, and every fetched spec asks for at least one stable replica; so too for `FewStraysAtWritesServe`, with m.
- PortTransition.TargetStaysReachable: assumes one operator worker per server and that only the operator edits the Service.
- EgressPolicies.Cluster.SweepTraefikEgressPolicies: nobody else changes policies or servers between its calls; pod selectors are label maps, without expressions.
- Retirement.Manager.RetireServerAccess: the platform session backend is its interface here; its database transactions are not part of this model. Issuing or re-enabling access for the server while it is retired is kept out by the fence that `ServerFence` models.
- ServerFence.SelectGrants: covers which grants are rendered; tool rules, sessions, teams and the rest of the policy document are not.
- OptimisticApply.ApplyUnstructured: a create that comes back as a conflict does not occur in the model; objects carry labels, annotations, finalizers, owner references (UID, version, kind, name) and a body; other metadata is part of the body.
- MergeInPlace.MergeObjectInPlace: the source and destination are trees without internal sharing, as decoded JSON is.
- AdapterDaemon.Daemon.RunOperations: covers operations that hold the profiles lock; the unlocked probe is outside the invariant. Files, sockets and the key chain are plain fields whose calls may fail.
- AdapterDaemon.Daemon.RenewAll: time is one instant per call, and the texts that ask for a new sign-in are an answer of the enrolment parameter.
- RetryTransport.RoundTrip: credential lookup, tracing and metrics are not modelled; the context's end is an oracle asked before each wait.
- ReleaseObjects.ValidatePlatformObjects: platform namespaces are a parameter, non-blank and without a slash, since the component catalog is not part of this model; conversion of a network policy and its pod selector are answers of the Kubernetes libraries.
- BundleRbac.AddedIsThrough: aggregation selectors are label maps, without expressions; an aggregating role keeps its own rules beside those it selects, as before the aggregation controller runs; the rest of the cluster holds nothing under an identity of the bundle.
- SessionIdentity.SessionRoundTrip: trust domains hold unreserved characters only. A URL whose authority has user information, a port, an IPv6 literal or percent-encoding counts as unparsable in the model.
- HTTP servers, TLS, certificates, the registry, analytics, the website, the command line and field-by-field defaulting would add only easy members.
