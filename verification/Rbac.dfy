/** Evaluation by the rules of Kubernetes RBAC: a binding applies to a caller, its role is looked
    up, with what it aggregates, and one of its rules allows the request. */
module Rbac {
  import opened ReleaseObjects
  import opened Text

  /** An authenticated caller; service accounts are users with a reserved name. */
  datatype Caller = Caller(userName: string, groups: set<string>)

  datatype Request =
    | ResourceRequest(namespace: string, apiGroup: string, resource: string, subresource: string,
        name: string, verb: string)
    | PathRequest(path: string, verb: string)

  function AccountName(namespace: string, name: string): string {
    "system:serviceaccount:" + namespace + ":" + name
  }

  // ---------- RBAC evaluation ----------

  function Combined(resource: string, subresource: string): string {
    if subresource == "" then resource else resource + "/" + subresource
  }

  // "*/status" in a rule: any resource, that one subresource.
  function AnySubresource(subresource: string): string { "*/" + subresource }

  predicate LiteralResource(rule: Rule, resource: string, subresource: string) {
    Combined(resource, subresource) in rule.resources
  }

  predicate SubresourceEntry(rule: Rule, subresource: string) {
    subresource != "" && AnySubresource(subresource) in rule.resources
  }

  predicate ResourceMatches(rule: Rule, resource: string, subresource: string) {
    "*" in rule.resources || LiteralResource(rule, resource, subresource) || SubresourceEntry(rule, subresource)
  }

  predicate NameMatches(rule: Rule, name: string) {
    rule.resourceNames == [] || name in rule.resourceNames
  }

  predicate PathMatches(rule: Rule, path: string) {
    exists u :: u in rule.nonResourceURLs
      && (u == "*" || u == path
          || (u != "" && u[|u| - 1] == '*' && TrimRight(u, c => c == '*') <= path))
  }

  predicate RuleAllows(rule: Rule, q: Request) {
    && (q.verb in rule.verbs || "*" in rule.verbs)
    && match q
       case ResourceRequest(_, group, resource, subresource, name, _) =>
         && (group in rule.apiGroups || "*" in rule.apiGroups)
         && ResourceMatches(rule, resource, subresource)
         && NameMatches(rule, name)
       case PathRequest(path, _) => PathMatches(rule, path)
  }

  predicate AppliesTo(s: Subject, caller: Caller, bindingNamespace: string) {
    var namespace := if s.namespace != "" then s.namespace else bindingNamespace;
    || (s.kind == "User" && caller.userName == s.name)
    || (s.kind == "Group" && s.name in caller.groups)
    || (s.kind == "ServiceAccount" && namespace != "" && caller.userName == AccountName(namespace, s.name))
  }

  function RequestNamespace(q: Request): string {
    if q.ResourceRequest? then q.namespace else ""
  }

  /** Cluster bindings count for every request, role bindings only inside their namespace. */
  predicate Visited(o: PlatformObject, q: Request) {
    || o.kind.ClusterRoleBinding?
    || (o.kind.RoleBinding? && RequestNamespace(q) != "" && o.namespace == RequestNamespace(q))
  }

  predicate SelectsLabels(selector: map<string, string>, labels: map<string, string>) {
    forall k :: k in selector ==> k in labels && labels[k] == selector[k]
  }

  /** The texts and the selection of labels as the Kubernetes documentation gives them. */
  lemma KubernetesTexts()
    ensures AccountName("a", "b") == "system:serviceaccount:a:b"
    ensures Combined("pods", "") == "pods" && Combined("pods", "log") == "pods/log" && AnySubresource("status") == "*/status"
    ensures SelectsLabels(map["k" := "v"], map["k" := "v", "l" := "w"]) && !SelectsLabels(map["k" := "v"], map["k" := "w"])
  {
    var selector := map["k" := "v"];
    assert "k" in selector && selector["k"] == "v";
    assert "v" != "w" && "k" != "l";
  }

  predicate Aggregates(o: PlatformObject) { o.kind.ClusterRole? && o.content.aggregates != [] }

  /** The aggregation rule of one cluster role selects another. */
  predicate Selects(o: PlatformObject, other: PlatformObject) {
    && o.kind.ClusterRole? && other.kind.ClusterRole? && other != o
    && exists i :: 0 <= i < |o.content.aggregates| && SelectsLabels(o.content.aggregates[i], other.content.labels)
  }

  /** The rules a role of a cluster ends up with: its own, and for an aggregating cluster role
      those of every cluster role it selects, through a chain of at most n selections. */
  ghost predicate GivesRule(cluster: set<PlatformObject>, role: PlatformObject, rule: Rule, n: nat)
    decreases n
  {
    || rule in role.content.rules
    || (n > 0 && exists other :: other in cluster && Selects(role, other) && GivesRule(cluster, other, rule, n - 1))
  }

  /** The binding lets the caller use the role for the request. */
  predicate Reaches(binding: PlatformObject, role: PlatformObject, caller: Caller, q: Request) {
    && Visited(binding, q)
    && (exists s :: s in binding.content.subjects && AppliesTo(s, caller, binding.namespace))
    && ResolvesTo(binding, role)
  }

  ghost predicate Grants(cluster: set<PlatformObject>, binding: PlatformObject, role: PlatformObject, rule: Rule, n: nat,
                         caller: Caller, q: Request)
  {
    && binding in cluster && role in cluster
    && Reaches(binding, role, caller, q) && GivesRule(cluster, role, rule, n) && RuleAllows(rule, q)
  }

  ghost predicate Authorized(cluster: set<PlatformObject>, caller: Caller, q: Request) {
    exists binding, role, rule, n: nat :: Grants(cluster, binding, role, rule, n, caller, q)
  }
}
