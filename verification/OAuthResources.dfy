/** The resource list of the bundled authorization server (internal/operator/oauth_resources.go). */
module OAuthResources {
  import opened Text
  import opened Wrappers
  import opened RouteOwnership

  type Scopes = map<string, seq<string>>

  datatype Url = Url(scheme: string, host: string, path: string)

  /** Operator settings, with `url.Parse` and the JSON encoder as parameters. */
  datatype Config = Config(
    issuerURL: string,
    defaultIngressHost: string,
    parseUrl: string -> Option<Url>,
    encode: Scopes -> string)

  datatype EnvVar = EnvVar(name: string, value: string, valueFrom: Option<string>)

  const RESOURCES := "MCP_AUTH_RESOURCES"
  const SCOPES := "MCP_AUTH_RESOURCE_SCOPES"
  const RESOURCE := "MCP_AUTH_RESOURCE"

  // ---------- Which server publishes which audience ----------

  predicate EqualFold(a: string, b: string) { ToLower(a) == ToLower(b) }

  function AllowedHosts(cfg: Config, s: Server): seq<string> {
    var hosts := [TrimSpace(s.ingressHost), TrimSpace(cfg.defaultIngressHost)];
    var issuer := cfg.parseUrl(TrimSpace(cfg.issuerURL));
    if hosts[0] == "" && hosts[1] == "" && issuer.Some? then hosts + [issuer.value.host] else hosts
  }

  predicate AudienceServedByPlatform(cfg: Config, s: Server, audience: string) {
    var parsed := cfg.parseUrl(audience);
    var issuer := cfg.parseUrl(TrimSpace(cfg.issuerURL));
    var publicPath := TrimSpace(EffectivePublicPath(s));
    && parsed.Some? && parsed.value.host != "" && parsed.value.scheme in {"https", "http"}
    && !(issuer.Some? && issuer.value.scheme == "https" && parsed.value.scheme != "https")
    && publicPath != "" && CleanRooted(parsed.value.path) == CleanRooted(publicPath)
    && exists h :: h in AllowedHosts(cfg, s) && h != "" && EqualFold(h, parsed.value.host)
  }

  function TrimIssuer(s: string): string { TrimRight(TrimSpace(s), Slash) }

  /** The checks of the collection loop other than route ownership. */
  predicate Eligible(cfg: Config, s: Server) {
    && s.auth.Some? && !s.auth.value.headerMode
    && TrimIssuer(s.auth.value.issuerURL) == TrimIssuer(cfg.issuerURL)
    && Audience(s) != "" && AudienceServedByPlatform(cfg, s, Audience(s))
  }

  function Audience(s: Server): string {
    if s.auth.Some? then TrimSpace(s.auth.value.audience) else ""
  }

  /** Which audience a server may publish, in full: it asks for OAuth of this issuer, and its audience
      is a URL of its own public path, on its own host, on the default host, or, when neither is
      set, on the issuer's; not over plain HTTP when the issuer is secure. */
  lemma EligibleMeans(cfg: Config, s: Server, audience: string)
    ensures Eligible(cfg, s) && Audience(s) == audience <==>
            && s.auth.Some? && !s.auth.value.headerMode && audience == TrimSpace(s.auth.value.audience) != ""
            && TrimRight(TrimSpace(s.auth.value.issuerURL), Slash) == TrimRight(TrimSpace(cfg.issuerURL), Slash)
            && cfg.parseUrl(audience).Some?
            && var url := cfg.parseUrl(audience).value;
               var issuer := cfg.parseUrl(TrimSpace(cfg.issuerURL));
               && url.host != "" && (url.scheme == "https" || (url.scheme == "http" && !(issuer.Some? && issuer.value.scheme == "https")))
               && TrimSpace(EffectivePublicPath(s)) != "" && CleanRooted(url.path) == CleanRooted(TrimSpace(EffectivePublicPath(s)))
               && (|| (TrimSpace(s.ingressHost) != "" && ToLower(TrimSpace(s.ingressHost)) == ToLower(url.host))
                   || (TrimSpace(cfg.defaultIngressHost) != "" && ToLower(TrimSpace(cfg.defaultIngressHost)) == ToLower(url.host))
                   || (TrimSpace(s.ingressHost) == "" == TrimSpace(cfg.defaultIngressHost)
                       && issuer.Some? && issuer.value.host != "" && ToLower(issuer.value.host) == ToLower(url.host)))
  {
    hide TrimSpace, TrimRight, CleanRooted, EffectivePublicPath, ToLower;
    if cfg.parseUrl(audience).Some? {
      HostAllowed(cfg, s, cfg.parseUrl(audience).value.host);
    }
    hide AllowedHosts;
  }

  lemma HostAllowed(cfg: Config, s: Server, host: string)
    ensures var issuer := cfg.parseUrl(TrimSpace(cfg.issuerURL));
            (exists h :: h in AllowedHosts(cfg, s) && h != "" && EqualFold(h, host)) <==>
              || (TrimSpace(s.ingressHost) != "" && ToLower(TrimSpace(s.ingressHost)) == ToLower(host))
              || (TrimSpace(cfg.defaultIngressHost) != "" && ToLower(TrimSpace(cfg.defaultIngressHost)) == ToLower(host))
              || (TrimSpace(s.ingressHost) == "" == TrimSpace(cfg.defaultIngressHost)
                  && issuer.Some? && issuer.value.host != "" && ToLower(issuer.value.host) == ToLower(host))
  {
    hide TrimSpace, ToLower;
    var hosts := AllowedHosts(cfg, s);
    assert hosts[0] in hosts && hosts[1] in hosts && (|hosts| == 3 ==> hosts[2] in hosts);
    assert EqualFold(hosts[0], host) == (ToLower(hosts[0]) == ToLower(host));
    assert EqualFold(hosts[1], host) == (ToLower(hosts[1]) == ToLower(host));
    assert |hosts| == 3 ==> EqualFold(hosts[2], host) == (ToLower(hosts[2]) == ToLower(host));
  }

  function ScopesOf(s: Server): seq<string> {
    if s.auth.Some? then SortStrings(s.auth.value.scopes) else []
  }

  ghost predicate Publishes(cfg: Config, s: Server, all: seq<Server>) {
    Eligible(cfg, s) && Unowned(s, all)
  }

  ghost function Audiences(cfg: Config, servers: seq<Server>, all: seq<Server>): set<string> {
    set s | s in servers && Publishes(cfg, s, all) :: Audience(s)
  }

  /** The scopes the loop keeps: those of the first listed publisher of each audience. */
  ghost function CollectedScopes(cfg: Config, servers: seq<Server>, all: seq<Server>): Scopes {
    if servers == [] then map[]
    else
      var n := |servers| - 1;
      var before := CollectedScopes(cfg, servers[..n], all);
      var s := servers[n];
      if Publishes(cfg, s, all) && Audience(s) !in Audiences(cfg, servers[..n], all) && s.auth.value.scopes != [] then
        before[Audience(s) := ScopesOf(s)]
      else before
  }

  // ---------- Environment edits ----------

  function Upsert(env: seq<EnvVar>, name: string, value: string): seq<EnvVar> {
    if env == [] then [EnvVar(name, value, None)]
    else if env[0].name == name then [EnvVar(name, value, None)] + env[1..]
    else [env[0]] + Upsert(env[1..], name, value)
  }

  function Remove(env: seq<EnvVar>, name: string): seq<EnvVar> {
    if env == [] then []
    else if env[0].name == name then Remove(env[1..], name)
    else [env[0]] + Remove(env[1..], name)
  }

  /** The entries the reconciler does not manage. */
  function Others(env: seq<EnvVar>): seq<EnvVar> {
    if env == [] then []
    else if env[0].name in {RESOURCES, SCOPES, RESOURCE} then Others(env[1..])
    else [env[0]] + Others(env[1..])
  }

  function EnvAfter(cfg: Config, env: seq<EnvVar>, resources: seq<string>, scopes: Scopes): seq<EnvVar> {
    var env1 := Upsert(env, RESOURCES, Join(resources, ","));
    var env2 := if |scopes| == 0 then Remove(env1, SCOPES) else Upsert(env1, SCOPES, cfg.encode(scopes));
    if |resources| == 0 then Remove(env2, RESOURCE) else Upsert(env2, RESOURCE, resources[0])
  }

  /** Upsert passes over entries of other names. */
  lemma {:induction false} UpsertSkips(env: seq<EnvVar>, i: nat, name: string, value: string)
    requires i <= |env| && forall j :: 0 <= j < i ==> env[j].name != name
    ensures i == |env| ==> Upsert(env, name, value) == env + [EnvVar(name, value, None)]
    ensures i < |env| && env[i].name == name ==> Upsert(env, name, value) == env[i := EnvVar(name, value, None)]
  {
    if i > 0 {
      UpsertSkips(env[1..], i - 1, name, value);
    }
  }

  class EnvList {
    var envs: seq<EnvVar>

    constructor (envs: seq<EnvVar>)
      ensures this.envs == envs
    {
      this.envs := envs;
    }

    method UpsertEnv(name: string, value: string)
      modifies this
      ensures envs == Upsert(old(envs), name, value)
    {
      hide Upsert;
      var i := 0;
      while i < |envs|
        invariant 0 <= i <= |envs| && envs == old(envs)
        invariant forall j :: 0 <= j < i ==> envs[j].name != name
      {
        if envs[i].name == name {
          UpsertSkips(envs, i, name, value);
          envs := envs[i := EnvVar(name, value, None)];
          return;
        }
        i := i + 1;
      }
      UpsertSkips(envs, i, name, value);
      envs := envs + [EnvVar(name, value, None)];
    }

    method RemoveEnv(name: string)
      modifies this
      ensures envs == Remove(old(envs), name)
    {
      var filtered: seq<EnvVar> := [];
      ghost var all := Remove(envs, name);
      assert envs[0..] == envs;
      for i := 0 to |envs|
        invariant envs == old(envs)
        invariant all == filtered + Remove(envs[i..], name)
      {
        ghost var rest := envs[i..];
        assert rest[0] == envs[i] && rest[1..] == envs[i + 1..];
        if envs[i].name != name {
          assert Remove(rest, name) == [envs[i]] + Remove(envs[i + 1..], name);
          filtered := filtered + [envs[i]];
        }
      }
      envs := filtered;
    }
  }

  // ---------- The reconciler ----------

  /** The strictly sorted list of a set of strings. */
  ghost function SortedList(names: set<string>): (r: seq<string>)
    ensures StrictlySorted(r) && Elements(r) == names
  {
    SortedListExists(names);
    var r :| StrictlySorted(r) && Elements(r) == names;
    r
  }

  lemma SetAsList(names: set<string>) returns (s: seq<string>)
    ensures Distinct(s) && Elements(s) == names
  {
    s := [];
    var rest := names;
    while rest != {}
      invariant rest <= names && Distinct(s) && Elements(s) == names - rest
    {
      var x :| x in rest;
      assert x !in Elements(s);
      ElementsSnoc(s, x);
      s := s + [x];
      rest := rest - {x};
    }
  }

  lemma SortedListExists(names: set<string>)
    ensures exists r :: StrictlySorted(r) && Elements(r) == names
  {
    var s := SetAsList(names);
    SortDistinct(s);
  }

  datatype Failure = ListFailed | GetFailed | RegisteredUnreadable | ResourceConflict | PatchFailed

  /** The mcp-auth Deployment: the environment of its first container and the number of
      patches the API server accepted. */
  class AuthDeployment {
    var env: seq<EnvVar>
    var patches: nat

    constructor (env: seq<EnvVar>)
      ensures this.env == env && patches == 0
    {
      this.env := env;
      patches := 0;
    }
  }

  /** The answer to the lookup of that Deployment. */
  datatype Found = Present | NoContainers | Missing | Unreadable

  /** The list of published resources and their scopes for one listing. */
  ghost function PublishedResources(cfg: Config, servers: seq<Server>, registered: Scopes): seq<string> {
    SortedList(Audiences(cfg, servers, servers) + registered.Keys)
  }

  ghost function PublishedEnv(cfg: Config, env: seq<EnvVar>, servers: seq<Server>, registered: Scopes): seq<EnvVar> {
    EnvAfter(cfg, env, PublishedResources(cfg, servers, registered), CollectedScopes(cfg, servers, servers) + registered)
  }

  /** `audienceServedByPlatform`. */
  method CheckAudience(cfg: Config, s: Server, audience: string) returns (served: bool)
    ensures served == AudienceServedByPlatform(cfg, s, audience)
  {
    hide TrimSpace, ToLower, CleanRooted, EffectivePublicPath;
    var parsed := cfg.parseUrl(audience);
    if parsed.None? || parsed.value.host == "" || (parsed.value.scheme != "https" && parsed.value.scheme != "http") {
      return false;
    }
    var issuer := cfg.parseUrl(TrimSpace(cfg.issuerURL));
    if issuer.Some? && issuer.value.scheme == "https" && parsed.value.scheme != "https" {
      return false;
    }
    var publicPath := TrimSpace(EffectivePublicPath(s));
    if publicPath == "" || CleanRooted(parsed.value.path) != CleanRooted(publicPath) {
      return false;
    }
    var hosts := [TrimSpace(s.ingressHost), TrimSpace(cfg.defaultIngressHost)];
    if hosts[0] == "" && hosts[1] == "" && issuer.Some? {
      hosts := hosts + [issuer.value.host];
    }
    for i := 0 to |hosts|
      invariant forall j :: 0 <= j < i ==> !(hosts[j] != "" && EqualFold(hosts[j], parsed.value.host))
    {
      if hosts[i] != "" && EqualFold(hosts[i], parsed.value.host) {
        assert hosts[i] in AllowedHosts(cfg, s);
        return true;
      }
    }
    return false;
  }

  method CollectLoop(cfg: Config, servers: seq<Server>) returns (resources: seq<string>, scopes: Scopes)
    ensures Distinct(resources) && Elements(resources) == Audiences(cfg, servers, servers)
    ensures scopes == CollectedScopes(cfg, servers, servers)
  {
    hide Unowned, Audience, ScopesOf, Eligible, IsOwner, Audiences, CollectedScopes, OneObjectPerKey, AudienceServedByPlatform,
         TrimSpace, TrimRight;
    NoAudiences(cfg, servers);
    CollectedEmpty(cfg, servers);
    resources, scopes := [], map[];
    var seen: set<string> := {};
    for i := 0 to |servers|
      invariant Distinct(resources) && Elements(resources) == seen == Audiences(cfg, servers[..i], servers)
      invariant scopes == CollectedScopes(cfg, servers[..i], servers)
    {
      var server := servers[i];
      assert servers[..i + 1] == servers[..i] + [server];
      AudiencesSnoc(cfg, servers[..i], server, servers);
      CollectedSnoc(cfg, servers[..i], server, servers);
      var owner := PublicRouteOwner(server, servers);
      OwnerNone(owner, server, servers);
      EligibleTests(cfg, server);
      if owner != None {
        continue;
      }
      if server.auth == None || server.auth.value.headerMode {
        continue;
      }
      if TrimRight(TrimSpace(server.auth.value.issuerURL), Slash) != TrimRight(TrimSpace(cfg.issuerURL), Slash) {
        continue;
      }
      var audience := TrimSpace(server.auth.value.audience);
      var served := CheckAudience(cfg, server, audience);
      if audience == "" || !served {
        continue;
      }
      assert Publishes(cfg, server, servers);
      PublisherHasAuth(cfg, server, servers);
      if audience in seen {
        continue;
      }
      ElementsSnoc(resources, audience);
      seen := seen + {audience};
      resources := resources + [audience];
      if |server.auth.value.scopes| > 0 {
        scopes := scopes[audience := ScopesOf(server)];
      }
    }
    assert servers[..|servers|] == servers;
  }

  /** The audiences collected are those of the servers that own their route, ask for OAuth of this
      issuer, and name a URL of their own public path as `EligibleMeans` says. */
  method CollectResources(cfg: Config, servers: seq<Server>) returns (resources: seq<string>, scopes: Scopes)
    ensures Distinct(resources) && Elements(resources) == Audiences(cfg, servers, servers)
    ensures scopes == CollectedScopes(cfg, servers, servers)
    ensures forall audience ::
              audience in resources <==>
              exists s :: s in servers && Unowned(s, servers)
                && s.auth.Some? && !s.auth.value.headerMode && audience == TrimSpace(s.auth.value.audience) != ""
                && TrimRight(TrimSpace(s.auth.value.issuerURL), Slash) == TrimRight(TrimSpace(cfg.issuerURL), Slash)
                && cfg.parseUrl(audience).Some?
                && var url := cfg.parseUrl(audience).value;
                   var issuer := cfg.parseUrl(TrimSpace(cfg.issuerURL));
                   && url.host != "" && (url.scheme == "https" || (url.scheme == "http" && !(issuer.Some? && issuer.value.scheme == "https")))
                   && TrimSpace(EffectivePublicPath(s)) != "" && CleanRooted(url.path) == CleanRooted(TrimSpace(EffectivePublicPath(s)))
                   && (|| (TrimSpace(s.ingressHost) != "" && ToLower(TrimSpace(s.ingressHost)) == ToLower(url.host))
                       || (TrimSpace(cfg.defaultIngressHost) != "" && ToLower(TrimSpace(cfg.defaultIngressHost)) == ToLower(url.host))
                       || (TrimSpace(s.ingressHost) == "" == TrimSpace(cfg.defaultIngressHost)
                           && issuer.Some? && issuer.value.host != "" && ToLower(issuer.value.host) == ToLower(url.host)))
    ensures scopes.Keys <= Elements(resources)
    ensures forall audience :: audience in resources ==>
              exists i :: FirstPublisher(cfg, servers, servers, audience, i) && servers[i].auth.Some?
                && SortedStrings(ScopeList(scopes, audience))
                && multiset(ScopeList(scopes, audience)) == multiset(servers[i].auth.value.scopes)
  {
    resources, scopes := CollectLoop(cfg, servers);
    KeptScopes(cfg, servers);
    forall audience: string, s: Server {
      EligibleMeans(cfg, s, audience);
    }
    hide Eligible, Audience, Unowned, CollectedScopes, TrimSpace, TrimRight, ToLower, CleanRooted, EffectivePublicPath, Distinct,
         SortedStrings, ScopeList, FirstPublisher;
    assert forall audience :: audience in resources <==> audience in Elements(resources);
  }

  lemma EligibleTests(cfg: Config, s: Server)
    ensures Eligible(cfg, s) <==>
            && s.auth.Some? && !s.auth.value.headerMode
            && TrimRight(TrimSpace(s.auth.value.issuerURL), Slash) == TrimRight(TrimSpace(cfg.issuerURL), Slash)
            && TrimSpace(s.auth.value.audience) != "" && AudienceServedByPlatform(cfg, s, TrimSpace(s.auth.value.audience))
    ensures s.auth.Some? ==> Audience(s) == TrimSpace(s.auth.value.audience)
  {
    hide TrimSpace, TrimRight, AudienceServedByPlatform;
  }

  lemma CollectedEmpty(cfg: Config, all: seq<Server>)
    ensures CollectedScopes(cfg, [], all) == map[]
  {
  }

  lemma CollectedSnoc(cfg: Config, servers: seq<Server>, s: Server, all: seq<Server>)
    ensures CollectedScopes(cfg, servers + [s], all)
            == var before := CollectedScopes(cfg, servers, all);
               if Publishes(cfg, s, all) && Audience(s) !in Audiences(cfg, servers, all) && s.auth.value.scopes != [] then
                 before[Audience(s) := ScopesOf(s)]
               else before
  {
    hide Unowned, Audience, ScopesOf, AudienceServedByPlatform, TrimIssuer, Audiences;
    assert (servers + [s])[..|servers|] == servers;
  }

  lemma OwnerNone(owner: Option<Server>, server: Server, all: seq<Server>)
    requires IsOwner(owner, server, all)
    ensures owner == None <==> Unowned(server, all)
  {
  }

  lemma AddedScopes(scopes: Scopes, registered: Scopes, todo: set<string>, resource: string)
    requires resource in todo && resource in registered
    ensures scopes + (registered - (todo - {resource})) == (scopes + (registered - todo))[resource := registered[resource]]
  {
  }

  /** Adds the gateway's registered resources, refusing one a server already publishes. */
  method AddRegistered(seen: seq<string>, scopes: Scopes, registered: Scopes)
    returns (r: Option<(seq<string>, Scopes)>)
    requires Distinct(seen)
    ensures r == None <==> Elements(seen) * registered.Keys != {}
    ensures r.Some? ==> Distinct(r.value.0) && Elements(r.value.0) == Elements(seen) + registered.Keys
    ensures r.Some? ==> r.value.1 == scopes + registered
  {
    var resources, resourceScopes := seen, scopes;
    var todo := registered.Keys;
    while todo != {}
      invariant todo <= registered.Keys
      invariant Distinct(resources) && Elements(resources) == Elements(seen) + (registered.Keys - todo)
      invariant Elements(seen) * (registered.Keys - todo) == {}
      invariant resourceScopes == scopes + (registered - todo)
    {
      var resource :| resource in todo;
      if resource in seen {
        assert resource in Elements(seen) * registered.Keys;
        return None;
      }
      ElementsSnoc(resources, resource);
      assert resource !in resources;
      AddedScopes(scopes, registered, todo, resource);
      resources := resources + [resource];
      resourceScopes := resourceScopes[resource := registered[resource]];
      todo := todo - {resource};
    }
    assert registered - todo == registered;
    return Some((resources, resourceScopes));
  }

  /** Writes the three managed entries, skipping the patch when nothing changes. */
  method WriteEnv(cfg: Config, deployment: AuthDeployment, resources: seq<string>, scopes: Scopes, patchFails: bool)
    returns (ok: bool)
    modifies deployment
    ensures ok <==> !patchFails || EnvAfter(cfg, old(deployment.env), resources, scopes) == old(deployment.env)
    ensures ok ==> deployment.env == EnvAfter(cfg, old(deployment.env), resources, scopes)
    ensures !ok ==> deployment.env == old(deployment.env)
    ensures deployment.patches == old(deployment.patches) + if deployment.env == old(deployment.env) then 0 else 1
  {
    hide Upsert, Remove, Join, RESOURCES, SCOPES, RESOURCE;
    var local := new EnvList(deployment.env);
    local.UpsertEnv(RESOURCES, Join(resources, ","));
    if |scopes| == 0 {
      local.RemoveEnv(SCOPES);
    } else {
      local.UpsertEnv(SCOPES, cfg.encode(scopes));
    }
    if |resources| == 0 {
      local.RemoveEnv(RESOURCE);
    } else {
      local.UpsertEnv(RESOURCE, resources[0]);
    }
    assert local.envs == EnvAfter(cfg, deployment.env, resources, scopes);
    if local.envs == deployment.env {
      return true;
    }
    if patchFails {
      return false;
    }
    deployment.env := local.envs;
    deployment.patches := deployment.patches + 1;
    return true;
  }

  /** `listed` is the listing of servers, or none when it fails; `registered` is what the
      Deployment's annotation registers, or none when it is unreadable; `patchFails` is the API
      server's answer to the patch. */
  method ReconcileBundledOAuthResources(cfg: Config, listed: Option<seq<Server>>, found: Found, registered: Option<Scopes>,
                                        deployment: AuthDeployment, patchFails: bool)
    returns (r: Result<(), Failure>)
    modifies deployment
    ensures r.Err? || TrimSpace(cfg.issuerURL) == "" || found != Present ==> deployment.env == old(deployment.env)
    ensures deployment.patches == old(deployment.patches) + if deployment.env == old(deployment.env) then 0 else 1
    ensures TrimSpace(cfg.issuerURL) == "" ==> r.Ok?
    ensures TrimSpace(cfg.issuerURL) != "" ==>
              && (r == Err(ListFailed) <==> listed == None)
              && (r == Err(GetFailed) <==> listed.Some? && found == Unreadable)
              && (listed.Some? && found in {Missing, NoContainers} ==> r.Ok?)
    ensures TrimSpace(cfg.issuerURL) != "" && listed.Some? && found == Present ==>
              && (r == Err(RegisteredUnreadable) <==> registered == None)
              && (registered.Some? ==>
                    (r == Err(ResourceConflict) <==> Audiences(cfg, listed.value, listed.value) * registered.value.Keys != {}))
              && (r.Ok? ==> deployment.env == PublishedEnv(cfg, old(deployment.env), listed.value, registered.value))
              && (r == Err(PatchFailed) <==>
                    && registered.Some? && Audiences(cfg, listed.value, listed.value) * registered.value.Keys == {}
                    && patchFails && PublishedEnv(cfg, old(deployment.env), listed.value, registered.value) != old(deployment.env))
  {
    hide TrimSpace, CollectedScopes, Audiences, EnvAfter, SortStrings;
    if TrimSpace(cfg.issuerURL) == "" {
      return Ok(());
    }
    if listed == None {
      return Err(ListFailed);
    }
    var servers := listed.value;
    var resources, scopes := CollectResources(cfg, servers);
    match found {
      case Unreadable => return Err(GetFailed);
      case Missing => return Ok(());
      case NoContainers => return Ok(());
      case Present =>
    }
    if registered == None {
      return Err(RegisteredUnreadable);
    }
    var added := AddRegistered(resources, scopes, registered.value);
    if added == None {
      return Err(ResourceConflict);
    }
    SortDistinct(added.value.0);
    StrictlySortedUnique(SortStrings(added.value.0), PublishedResources(cfg, servers, registered.value));
    var ok := WriteEnv(cfg, deployment, SortStrings(added.value.0), added.value.1, patchFails);
    return if ok then Ok(()) else Err(PatchFailed);
  }

  // ---------- What a run leaves alone, and fixed points ----------

  lemma {:induction false} UpsertKeepsOthers(env: seq<EnvVar>, name: string, value: string)
    requires name in {RESOURCES, SCOPES, RESOURCE}
    ensures Others(Upsert(env, name, value)) == Others(env)
  {
    if env != [] && env[0].name != name {
      UpsertKeepsOthers(env[1..], name, value);
    }
  }

  lemma {:induction false} RemoveKeepsOthers(env: seq<EnvVar>, name: string)
    requires name in {RESOURCES, SCOPES, RESOURCE}
    ensures Others(Remove(env, name)) == Others(env)
  {
    if env != [] {
      RemoveKeepsOthers(env[1..], name);
    }
  }

  /** Every unmanaged entry is kept verbatim and in order. */
  lemma OtherEntriesUntouched(cfg: Config, env: seq<EnvVar>, resources: seq<string>, scopes: Scopes)
    ensures Others(EnvAfter(cfg, env, resources, scopes)) == Others(env)
  {
    hide Others, Upsert, Remove, RESOURCES, SCOPES, RESOURCE;
    var env1 := Upsert(env, RESOURCES, Join(resources, ","));
    UpsertKeepsOthers(env, RESOURCES, Join(resources, ","));
    var env2 := if |scopes| == 0 then Remove(env1, SCOPES) else Upsert(env1, SCOPES, cfg.encode(scopes));
    if |scopes| == 0 { RemoveKeepsOthers(env1, SCOPES); } else { UpsertKeepsOthers(env1, SCOPES, cfg.encode(scopes)); }
    if |resources| == 0 { RemoveKeepsOthers(env2, RESOURCE); } else { UpsertKeepsOthers(env2, RESOURCE, resources[0]); }
  }

  /** The entry the edits look at: the first of its name. */
  function FirstEntry(env: seq<EnvVar>, name: string): Option<EnvVar> {
    if env == [] then None
    else if env[0].name == name then Some(env[0])
    else FirstEntry(env[1..], name)
  }

  lemma {:induction false} UpsertFirst(env: seq<EnvVar>, name: string, value: string, other: string)
    ensures FirstEntry(Upsert(env, name, value), other)
            == if other == name then Some(EnvVar(name, value, None)) else FirstEntry(env, other)
    ensures FirstEntry(env, name) == Some(EnvVar(name, value, None)) ==> Upsert(env, name, value) == env
  {
    if env != [] {
      UpsertFirst(env[1..], name, value, other);
    }
  }

  lemma {:induction false} RemoveFirst(env: seq<EnvVar>, name: string, other: string)
    ensures FirstEntry(Remove(env, name), other) == if other == name then None else FirstEntry(env, other)
    ensures FirstEntry(env, name) == None ==> Remove(env, name) == env
  {
    if env != [] {
      RemoveFirst(env[1..], name, other);
    }
  }

  lemma ManagedNamesDiffer()
    ensures RESOURCES != SCOPES && RESOURCES != RESOURCE && SCOPES != RESOURCE
  {
    assert |RESOURCES| == 18 && |SCOPES| == 24 && |RESOURCE| == 17;
  }

  lemma EnvAfterFirst(cfg: Config, env: seq<EnvVar>, resources: seq<string>, scopes: Scopes)
    ensures var after := EnvAfter(cfg, env, resources, scopes);
            && FirstEntry(after, RESOURCES) == Some(EnvVar(RESOURCES, Join(resources, ","), None))
            && FirstEntry(after, SCOPES) == (if |scopes| == 0 then None else Some(EnvVar(SCOPES, cfg.encode(scopes), None)))
            && FirstEntry(after, RESOURCE) == (if |resources| == 0 then None else Some(EnvVar(RESOURCE, resources[0], None)))
  {
    ManagedNamesDiffer();
    hide FirstEntry, Upsert, Remove, Join, RESOURCES, SCOPES, RESOURCE;
    var env1 := Upsert(env, RESOURCES, Join(resources, ","));
    UpsertFirst(env, RESOURCES, Join(resources, ","), RESOURCES);
    var env2 := if |scopes| == 0 then Remove(env1, SCOPES) else Upsert(env1, SCOPES, cfg.encode(scopes));
    forall other | other in {RESOURCES, SCOPES, RESOURCE}
      ensures FirstEntry(env2, other) == if other != SCOPES then FirstEntry(env1, other)
                                         else if |scopes| == 0 then None else Some(EnvVar(SCOPES, cfg.encode(scopes), None))
    {
      if |scopes| == 0 { RemoveFirst(env1, SCOPES, other); } else { UpsertFirst(env1, SCOPES, cfg.encode(scopes), other); }
    }
    forall other | other in {RESOURCES, SCOPES, RESOURCE}
      ensures FirstEntry(EnvAfter(cfg, env, resources, scopes), other)
              == if other != RESOURCE then FirstEntry(env2, other)
                 else if |resources| == 0 then None else Some(EnvVar(RESOURCE, resources[0], None))
    {
      if |resources| == 0 { RemoveFirst(env2, RESOURCE, other); } else { UpsertFirst(env2, RESOURCE, resources[0], other); }
    }
  }

  /** A second run on the same listing changes nothing, so it sends no patch. */
  lemma SecondRunIsFixedPoint(cfg: Config, env: seq<EnvVar>, resources: seq<string>, scopes: Scopes)
    ensures var once := EnvAfter(cfg, env, resources, scopes);
            EnvAfter(cfg, once, resources, scopes) == once
  {
    var once := EnvAfter(cfg, env, resources, scopes);
    EnvAfterFirst(cfg, env, resources, scopes);
    hide FirstEntry, Upsert, Remove, Join, RESOURCES, SCOPES, RESOURCE;
    UpsertFirst(once, RESOURCES, Join(resources, ","), RESOURCES);
    if |scopes| == 0 { RemoveFirst(once, SCOPES, SCOPES); } else { UpsertFirst(once, SCOPES, cfg.encode(scopes), SCOPES); }
    if |resources| == 0 { RemoveFirst(once, RESOURCE, RESOURCE); } else { UpsertFirst(once, RESOURCE, resources[0], RESOURCE); }
  }

  // ---------- What the authorization server reads ----------

  /** The entry in force in the container: of several of one name, the last. */
  function Lookup(env: seq<EnvVar>, name: string): Option<EnvVar> {
    if env == [] then None
    else
      var later := Lookup(env[1..], name);
      if later.None? && env[0].name == name then Some(env[0]) else later
  }

  function Entries(env: seq<EnvVar>, name: string): nat {
    if env == [] then 0 else Entries(env[1..], name) + if env[0].name == name then 1 else 0
  }

  lemma {:induction false} NoEntry(env: seq<EnvVar>, name: string)
    ensures Entries(env, name) == 0 <==> Lookup(env, name) == None
  {
    if env != [] {
      NoEntry(env[1..], name);
    }
  }

  /** What is read of a name after `value` was upserted: a second entry hides the first. */
  function ReadAfter(env: seq<EnvVar>, name: string, value: string): Option<EnvVar> {
    if Entries(env, name) <= 1 then Some(EnvVar(name, value, None)) else Lookup(env, name)
  }

  lemma {:induction false} UpsertLookup(env: seq<EnvVar>, name: string, value: string, other: string)
    ensures Lookup(Upsert(env, name, value), other) == if other == name then ReadAfter(env, name, value) else Lookup(env, other)
    ensures other != name ==> Entries(Upsert(env, name, value), other) == Entries(env, other)
  {
    if env != [] {
      NoEntry(env[1..], name);
      UpsertLookup(env[1..], name, value, other);
    }
  }

  lemma {:induction false} RemoveLookup(env: seq<EnvVar>, name: string, other: string)
    ensures Lookup(Remove(env, name), other) == if other == name then None else Lookup(env, other)
    ensures other != name ==> Entries(Remove(env, name), other) == Entries(env, other)
  {
    if env != [] {
      RemoveLookup(env[1..], name, other);
    }
  }

  /** What the authorization server reads after a run: removed names are gone, and a name that
      is set reads as published or, when several entries of it were there, as before. */
  lemma EnvAfterLookup(cfg: Config, env: seq<EnvVar>, resources: seq<string>, scopes: Scopes)
    ensures var after := EnvAfter(cfg, env, resources, scopes);
            && Lookup(after, RESOURCES) == ReadAfter(env, RESOURCES, Join(resources, ","))
            && Lookup(after, SCOPES) == (if |scopes| == 0 then None else ReadAfter(env, SCOPES, cfg.encode(scopes)))
            && Lookup(after, RESOURCE) == (if |resources| == 0 then None else ReadAfter(env, RESOURCE, resources[0]))
  {
    ManagedNamesDiffer();
    hide Lookup, Entries, Upsert, Remove, Join, RESOURCES, SCOPES, RESOURCE;
    var env1 := Upsert(env, RESOURCES, Join(resources, ","));
    var env2 := if |scopes| == 0 then Remove(env1, SCOPES) else Upsert(env1, SCOPES, cfg.encode(scopes));
    forall other | other in {RESOURCES, SCOPES, RESOURCE}
      ensures Lookup(env1, other) == if other == RESOURCES then ReadAfter(env, other, Join(resources, ",")) else Lookup(env, other)
      ensures other != RESOURCES ==> Entries(env1, other) == Entries(env, other)
    {
      UpsertLookup(env, RESOURCES, Join(resources, ","), other);
    }
    forall other | other in {RESOURCES, SCOPES, RESOURCE}
      ensures Lookup(env2, other) == if other != SCOPES then Lookup(env1, other)
                                     else if |scopes| == 0 then None else ReadAfter(env1, SCOPES, cfg.encode(scopes))
      ensures other != SCOPES ==> Entries(env2, other) == Entries(env1, other)
    {
      if |scopes| == 0 { RemoveLookup(env1, SCOPES, other); } else { UpsertLookup(env1, SCOPES, cfg.encode(scopes), other); }
    }
    forall other | other in {RESOURCES, SCOPES, RESOURCE}
      ensures Lookup(EnvAfter(cfg, env, resources, scopes), other)
              == if other != RESOURCE then Lookup(env2, other)
                 else if |resources| == 0 then None else ReadAfter(env2, RESOURCE, resources[0])
    {
      if |resources| == 0 { RemoveLookup(env2, RESOURCE, other); } else { UpsertLookup(env2, RESOURCE, resources[0], other); }
    }
  }

  /** Setting a name takes effect, whatever the value, exactly when at most one entry of it was
      there: the edit rewrites the first entry, and a later one stays in force. */
  lemma UpsertTakesEffectIff(env: seq<EnvVar>, name: string)
    ensures (forall value :: Lookup(Upsert(env, name, value), name) == Some(EnvVar(name, value, None)))
            <==> Entries(env, name) <= 1
  {
    hide Lookup, Entries, Upsert;
    forall value ensures Lookup(Upsert(env, name, value), name) == ReadAfter(env, name, value) {
      UpsertLookup(env, name, value, name);
    }
    if Entries(env, name) > 1 {
      var stuck := Lookup(env, name);
      var other := if stuck.Some? then stuck.value.value + "x" else "";
      assert stuck.Some? ==> |other| != |stuck.value.value|;
      assert Lookup(Upsert(env, name, other), name) == stuck != Some(EnvVar(name, other, None));
    }
  }

  /** Two entries of the resource list, and a run with nothing to publish: the server still
      reads the second. */
  lemma DuplicateStaysInForce(cfg: Config)
    ensures var env := [EnvVar(RESOURCES, "old1", None), EnvVar(RESOURCES, "old2", None)];
            Lookup(EnvAfter(cfg, env, [], map[]), RESOURCES) == Some(EnvVar(RESOURCES, "old2", None))
  {
    var env := [EnvVar(RESOURCES, "old1", None), EnvVar(RESOURCES, "old2", None)];
    EnvAfterLookup(cfg, env, [], map[]);
    hide RESOURCES, EnvAfter;
    assert env[1..] == [env[1]] && env[1..][1..] == [];
    assert Lookup(env[1..], RESOURCES) == Some(env[1]) && Entries(env[1..], RESOURCES) == 1;
  }

  // ---------- Independence of list order ----------

  lemma UnownedIgnoresOrder(s: Server, all: seq<Server>, all': seq<Server>)
    requires multiset(all) == multiset(all')
    ensures Unowned(s, all) <==> Unowned(s, all')
  {
    hide Claims;
    MultisetMembers(all, all');
    assert forall o :: o in all <==> o in Elements(all);
    assert forall o :: o in all' <==> o in Elements(all');
  }

  lemma PublishesIgnoresOrder(cfg: Config, all: seq<Server>, all': seq<Server>)
    requires multiset(all) == multiset(all')
    ensures forall s :: (s in all && Publishes(cfg, s, all)) <==> (s in all' && Publishes(cfg, s, all'))
    ensures Audiences(cfg, all, all) == Audiences(cfg, all', all')
  {
    hide Unowned, Eligible, Audience;
    MultisetMembers(all, all');
    forall s ensures (s in all && Publishes(cfg, s, all)) <==> (s in all' && Publishes(cfg, s, all')) {
      assert s in all <==> s in Elements(all);
      assert s in all' <==> s in Elements(all');
      UnownedIgnoresOrder(s, all, all');
    }
  }

  /** The published list is strictly sorted, holds exactly the audiences and registered
      resources, and is the same for every order of the listing. */
  lemma PublishedListIsCanonical(cfg: Config, servers: seq<Server>, servers': seq<Server>, registered: Scopes)
    requires multiset(servers) == multiset(servers')
    ensures PublishedResources(cfg, servers, registered) == PublishedResources(cfg, servers', registered)
    ensures StrictlySorted(PublishedResources(cfg, servers, registered))
    ensures Elements(PublishedResources(cfg, servers, registered)) == Audiences(cfg, servers, servers) + registered.Keys
  {
    PublishesIgnoresOrder(cfg, servers, servers');
  }

  // ---------- Scopes: canonical exactly when publishers agree ----------

  ghost predicate PublishersAgree(cfg: Config, servers: seq<Server>) {
    forall p, q | p in servers && q in servers && Publishes(cfg, p, servers) && Publishes(cfg, q, servers) ::
      Audience(p) == Audience(q) ==> ScopesOf(p) == ScopesOf(q)
  }

  /** The scopes of an audience, with a missing entry standing for "no scopes". */
  function ScopeList(m: Scopes, audience: string): seq<string> {
    if audience in m then m[audience] else []
  }

  ghost predicate FirstPublisher(cfg: Config, servers: seq<Server>, all: seq<Server>, a: string, i: int) {
    && 0 <= i < |servers| && Publishes(cfg, servers[i], all) && Audience(servers[i]) == a
    && a !in Audiences(cfg, servers[..i], all)
  }

  lemma AudiencesSnoc(cfg: Config, servers: seq<Server>, s: Server, all: seq<Server>)
    ensures Audiences(cfg, servers + [s], all)
            == Audiences(cfg, servers, all) + if Publishes(cfg, s, all) then {Audience(s)} else {}
  {
    hide Publishes, Audience;
  }

  predicate NoEmptyEntry(m: Scopes) { forall a :: a in m ==> m[a] != [] }

  /** The kept scopes are those of the first listed publisher. */
  lemma {:induction false} CollectedFromFirst(cfg: Config, servers: seq<Server>, all: seq<Server>)
    ensures var m := CollectedScopes(cfg, servers, all);
            && m.Keys <= Audiences(cfg, servers, all) && NoEmptyEntry(m)
            && forall a :: a in Audiences(cfg, servers, all) ==>
                 exists i :: FirstPublisher(cfg, servers, all, a, i) && ScopeList(m, a) == ScopesOf(servers[i])
  {
    hide Publishes, Audience, ScopesOf, Audiences;
    if servers != [] {
      var n := |servers| - 1;
      var before, s := servers[..n], servers[n];
      CollectedFromFirst(cfg, before, all);
      assert servers == before + [s];
      AudiencesSnoc(cfg, before, s, all);
      var m, m0 := CollectedScopes(cfg, servers, all), CollectedScopes(cfg, before, all);
      if Publishes(cfg, s, all) {
        PublisherHasAuth(cfg, s, all);
      }
      forall a | a in Audiences(cfg, servers, all)
        ensures exists i :: FirstPublisher(cfg, servers, all, a, i) && ScopeList(m, a) == ScopesOf(servers[i])
      {
        if a in Audiences(cfg, before, all) {
          var i :| FirstPublisher(cfg, before, all, a, i) && ScopeList(m0, a) == ScopesOf(before[i]);
          assert before[..i] == servers[..i] && before[i] == servers[i];
          assert FirstPublisher(cfg, servers, all, a, i);
        } else {
          assert FirstPublisher(cfg, servers, all, a, n);
        }
      }
    } else {
      NoAudiences(cfg, all);
    }
  }

  /** Each kept list holds the scopes of the first listed publisher, sorted. */
  lemma KeptScopes(cfg: Config, servers: seq<Server>)
    ensures var m := CollectedScopes(cfg, servers, servers);
            && m.Keys <= Audiences(cfg, servers, servers)
            && forall a :: a in Audiences(cfg, servers, servers) ==>
                 exists i :: FirstPublisher(cfg, servers, servers, a, i) && servers[i].auth.Some?
                   && SortedStrings(ScopeList(m, a)) && multiset(ScopeList(m, a)) == multiset(servers[i].auth.value.scopes)
  {
    hide Audience, Audiences, Eligible, Unowned, CollectedScopes, SortedStrings, ScopeList;
    CollectedFromFirst(cfg, servers, servers);
    var m := CollectedScopes(cfg, servers, servers);
    forall a | a in Audiences(cfg, servers, servers)
      ensures exists i ::
                FirstPublisher(cfg, servers, servers, a, i) && servers[i].auth.Some?
                && SortedStrings(ScopeList(m, a)) && multiset(ScopeList(m, a)) == multiset(servers[i].auth.value.scopes)
    {
      var i :| FirstPublisher(cfg, servers, servers, a, i) && ScopeList(m, a) == ScopesOf(servers[i]);
      PublisherHasAuth(cfg, servers[i], servers);
      SortStringsSorts(servers[i].auth.value.scopes);
    }
  }

  lemma NoAudiences(cfg: Config, all: seq<Server>)
    ensures Audiences(cfg, [], all) == {}
  {
  }

  lemma PublisherHasAuth(cfg: Config, s: Server, all: seq<Server>)
    requires Publishes(cfg, s, all)
    ensures s.auth.Some? && |ScopesOf(s)| == |s.auth.value.scopes|
  {
    MultisetMembers(s.auth.value.scopes, SortStrings(s.auth.value.scopes));
  }

  lemma ScopesEqualByList(m: Scopes, m': Scopes)
    requires NoEmptyEntry(m) && NoEmptyEntry(m')
    requires forall a :: ScopeList(m, a) == ScopeList(m', a)
    ensures m == m'
  {
    assert forall a :: a in m <==> ScopeList(m, a) != [];
    assert forall a :: a in m' <==> ScopeList(m', a) != [];
    assert forall a :: a in m ==> ScopeList(m, a) == m[a];
    assert forall a :: a in m' ==> ScopeList(m', a) == m'[a];
  }

  /** When publishers of one audience agree on its scopes, the published scopes do not depend
      on list order. */
  lemma AgreedScopesAreCanonical(cfg: Config, servers: seq<Server>, servers': seq<Server>)
    requires multiset(servers) == multiset(servers') && PublishersAgree(cfg, servers)
    ensures CollectedScopes(cfg, servers, servers) == CollectedScopes(cfg, servers', servers')
  {
    hide Publishes, Audience, ScopesOf, Audiences;
    PublishesIgnoresOrder(cfg, servers, servers');
    CollectedFromFirst(cfg, servers, servers);
    CollectedFromFirst(cfg, servers', servers');
    var m, m' := CollectedScopes(cfg, servers, servers), CollectedScopes(cfg, servers', servers');
    forall a ensures ScopeList(m, a) == ScopeList(m', a) {
      if a in Audiences(cfg, servers, servers) {
        var i :| FirstPublisher(cfg, servers, servers, a, i) && ScopeList(m, a) == ScopesOf(servers[i]);
        var j :| FirstPublisher(cfg, servers', servers', a, j) && ScopeList(m', a) == ScopesOf(servers'[j]);
        assert servers[i] in servers && servers'[j] in servers;
      }
    }
    ScopesEqualByList(m, m');
  }

  /** A publisher moved to the front of the listing decides the scopes of its audience. */
  lemma FrontPublisherDecides(cfg: Config, servers: seq<Server>, p: Server) returns (order: seq<Server>)
    requires p in servers && Publishes(cfg, p, servers)
    ensures multiset(order) == multiset(servers)
    ensures ScopeList(CollectedScopes(cfg, order, order), Audience(p)) == ScopesOf(p)
  {
    hide Publishes, Audience, ScopesOf, Audiences;
    var k :| 0 <= k < |servers| && servers[k] == p;
    order := [p] + servers[..k] + servers[k + 1..];
    assert servers == servers[..k] + [p] + servers[k + 1..];
    PublishesIgnoresOrder(cfg, servers, order);
    assert order[0] == p && p in order && Publishes(cfg, p, order);
    PublisherInAudiences(cfg, order, p, order);
    CollectedFromFirst(cfg, order, order);
    var i :| FirstPublisher(cfg, order, order, Audience(p), i)
             && ScopeList(CollectedScopes(cfg, order, order), Audience(p)) == ScopesOf(order[i]);
    FirstInPrefix(order, i);
    PublisherInAudiences(cfg, order[..i], p, order);
  }

  lemma FirstInPrefix<T>(s: seq<T>, i: nat)
    requires i <= |s| && s != []
    ensures i > 0 ==> s[0] in s[..i]
  {
    assert i > 0 ==> s[..i][0] == s[0];
  }

  lemma PublisherInAudiences(cfg: Config, servers: seq<Server>, p: Server, all: seq<Server>)
    ensures p in servers && Publishes(cfg, p, all) ==> Audience(p) in Audiences(cfg, servers, all)
  {
  }

  /** The published scopes are independent of list order exactly when publishers agree: the
      first listed publisher of an audience wins, and two servers may publish one audience. */
  lemma ScopesCanonicalIffAgreed(cfg: Config, servers: seq<Server>)
    ensures PublishersAgree(cfg, servers) <==>
            forall a, b :: multiset(a) == multiset(servers) && multiset(b) == multiset(servers) ==>
                             CollectedScopes(cfg, a, a) == CollectedScopes(cfg, b, b)
  {
    hide Publishes, CollectedScopes;
    if PublishersAgree(cfg, servers) {
      forall a, b | multiset(a) == multiset(servers) && multiset(b) == multiset(servers)
        ensures CollectedScopes(cfg, a, a) == CollectedScopes(cfg, b, b)
      {
        AgreedScopesAreCanonical(cfg, servers, a);
        AgreedScopesAreCanonical(cfg, servers, b);
      }
    } else {
      var p, q :| p in servers && q in servers && Publishes(cfg, p, servers) && Publishes(cfg, q, servers)
                  && Audience(p) == Audience(q) && ScopesOf(p) != ScopesOf(q);
      var a := FrontPublisherDecides(cfg, servers, p);
      var b := FrontPublisherDecides(cfg, servers, q);
      assert CollectedScopes(cfg, a, a) != CollectedScopes(cfg, b, b);
    }
  }

  // ---------- Who can share an audience ----------

  /** Two live servers can publish one audience only under the operator's default host, each
      serving its own, different, ingress host. */
  lemma SharedAudienceIsOnDefaultHost(cfg: Config, a: Server, b: Server, all: seq<Server>)
    requires a in all && b in all && a.Key() != b.Key() && !a.deleting && !b.deleting
    requires Publishes(cfg, a, all) && Publishes(cfg, b, all) && Audience(a) == Audience(b)
    ensures EqualFold(TrimSpace(cfg.defaultIngressHost), cfg.parseUrl(Audience(a)).value.host)
    ensures PublicRouteOf(a).host != "" && PublicRouteOf(b).host != "" && PublicRouteOf(a).host != PublicRouteOf(b).host
  {
    UnownedDoNotOverlap(a, b, all);
    var host := cfg.parseUrl(Audience(a)).value.host;
    PublisherHost(cfg, a, all, host);
    PublisherHost(cfg, b, all, host);
  }

  lemma PublisherHost(cfg: Config, s: Server, all: seq<Server>, host: string)
    requires Publishes(cfg, s, all) && host == cfg.parseUrl(Audience(s)).value.host
    ensures PublicRouteOf(s).path == CleanRooted(cfg.parseUrl(Audience(s)).value.path) != ""
    ensures PublicRouteOf(s).host == "" || PublicRouteOf(s).host == ToLower(host)
            || EqualFold(TrimSpace(cfg.defaultIngressHost), host)
  {
    hide CleanRooted, TrimSpace, EffectivePublicPath, Unowned, TrimIssuer;
    CleanNotEmpty(cfg.parseUrl(Audience(s)).value.path);
    var h :| h in AllowedHosts(cfg, s) && h != "" && EqualFold(h, host);
    LowerEmpty(TrimSpace(s.ingressHost));
  }

  lemma CleanNotEmpty(p: string)
    ensures CleanRooted(p) != ""
  {
  }

  lemma LowerEmpty(s: string)
    ensures ToLower(s) == "" <==> s == ""
  {
    assert |ToLower(s)| == |s|;
  }

  // ---------- Two servers, one audience ----------

  predicate ExampleConfig(cfg: Config) {
    && cfg.issuerURL == "i" && cfg.defaultIngressHost == "d"
    && cfg.parseUrl("i") == None && cfg.parseUrl("u") == Some(Url("https", "d", "/m"))
  }

  /** A server on its own ingress host that asks for the audience of the default host. */
  predicate ExampleServer(s: Server, host: string, scope: string) {
    && s.name == host && s.ingressHost == host && s.ingressPath == "/m" && s.publicPathPrefix == "" && !s.deleting
    && s.auth == Some(Auth(false, "i", "u", [scope]))
  }

  lemma ExampleTrims()
    ensures TrimSpace("/m") == "/m" && TrimSpace("u") == "u" && TrimSpace("d") == "d" && TrimSpace("i") == "i"
    ensures "u" != "" && "/m" != "" && "d" != "" && "https" != "" && ["r"] != ["w"]
  {
    hide TrimSpace, Trim;
    TrimSpaceFixed("/m");
    TrimSpaceFixed("u");
    TrimSpaceFixed("d");
    TrimSpaceFixed("i");
  }

  lemma Served(cfg: Config, s: Server, audience: string, url: Url)
    requires cfg.parseUrl(audience) == Some(url) && cfg.parseUrl(TrimSpace(cfg.issuerURL)) == None
    requires url.scheme == "https" && url.host != "" && TrimSpace(cfg.defaultIngressHost) == url.host
    requires TrimSpace(EffectivePublicPath(s)) == url.path != ""
    ensures AudienceServedByPlatform(cfg, s, audience)
  {
    hide TrimSpace, CleanRooted, EffectivePublicPath, ToLower;
    assert AllowedHosts(cfg, s)[1] == url.host;
    assert url.host in AllowedHosts(cfg, s) && EqualFold(url.host, url.host);
  }

  lemma EligibleParts(cfg: Config, s: Server, auth: Auth)
    requires s.auth == Some(auth) && !auth.headerMode && auth.issuerURL == cfg.issuerURL
    requires TrimSpace(auth.audience) != "" && AudienceServedByPlatform(cfg, s, TrimSpace(auth.audience))
    ensures Eligible(cfg, s) && Audience(s) == TrimSpace(auth.audience)
    ensures |auth.scopes| == 1 ==> ScopesOf(s) == auth.scopes
  {
    hide TrimSpace, AudienceServedByPlatform, TrimIssuer;
    if |auth.scopes| == 1 {
      SortOne(auth.scopes);
    }
  }

  lemma SortOne(s: seq<string>)
    requires |s| == 1
    ensures SortStrings(s) == s
  {
    assert s[1..] == [] && s == [s[0]];
    assert InsertSorted(s[0], SortStrings(s[1..])) == [s[0]];
  }

  lemma ExampleEligible(cfg: Config, s: Server, host: string, scope: string)
    requires ExampleConfig(cfg) && ExampleServer(s, host, scope)
    ensures Eligible(cfg, s) && Audience(s) == "u" && ScopesOf(s) == [scope]
  {
    hide TrimSpace, Trim, CleanRooted, EffectivePublicPath, ToLower, Eligible, Audience, ScopesOf, AudienceServedByPlatform;
    ExampleTrims();
    ExamplePath(s);
    Served(cfg, s, "u", Url("https", "d", "/m"));
    EligibleParts(cfg, s, s.auth.value);
  }

  lemma ApartUnowned(a: Server, c: Server, all: seq<Server>)
    requires all == [a, c] && !PublicRouteOf(a).Overlaps(PublicRouteOf(c))
    ensures Unowned(a, all) && Unowned(c, all)
  {
    hide PublicRouteOf, OlderServer;
    OverlapsSymmetric(PublicRouteOf(a), PublicRouteOf(c));
  }

  lemma ExampleApart(a: Server, c: Server)
    requires ExampleServer(a, "a", "r") && ExampleServer(c, "c", "w")
    ensures !PublicRouteOf(a).Overlaps(PublicRouteOf(c))
  {
    hide PublicRouteOf;
    ExampleRoute(a);
    ExampleRoute(c);
    assert "a" != "c" && "a" != "" && "c" != "";
  }

  lemma Disagreement(cfg: Config, servers: seq<Server>, a: Server, c: Server)
    requires servers == [a, c] && Eligible(cfg, a) && Eligible(cfg, c) && Unowned(a, servers) && Unowned(c, servers)
    requires Audience(a) == Audience(c) && ScopesOf(a) != ScopesOf(c)
    ensures Publishes(cfg, a, servers) && Publishes(cfg, c, servers) && !PublishersAgree(cfg, servers)
  {
    hide Eligible, Unowned, Audience, ScopesOf;
    assert a in servers && c in servers;
  }

  /** Two live servers on different ingress hosts that publish one audience of the default host
      with different scopes: the published scopes depend on which is listed first. */
  lemma SharedAudienceExample(cfg: Config, a: Server, c: Server)
    requires ExampleConfig(cfg) && ExampleServer(a, "a", "r") && ExampleServer(c, "c", "w")
    ensures Publishes(cfg, a, [a, c]) && Publishes(cfg, c, [a, c]) && Audience(a) == Audience(c)
    ensures exists x, y :: multiset(x) == multiset([a, c]) && multiset(y) == multiset([a, c])
                           && CollectedScopes(cfg, x, x) != CollectedScopes(cfg, y, y)
  {
    hide *;
    ExampleTrims();
    ExampleEligible(cfg, a, "a", "r");
    ExampleEligible(cfg, c, "c", "w");
    ExampleApart(a, c);
    ApartUnowned(a, c, [a, c]);
    Disagreement(cfg, [a, c], a, c);
    ScopesCanonicalIffAgreed(cfg, [a, c]);
  }
}
