/** The platform bundle of a release manifest: what the validator accepts, and what
    Kubernetes RBAC then lets anybody do with the accepted objects.

    Documents are taken after YAML decoding; a field of another type than the one read
    here counts as absent, as in the source. */
module ReleaseObjects {
  import opened Wrappers
  import opened Text

  datatype Kind = ServiceAccount | Role | RoleBinding | ClusterRole | ClusterRoleBinding | NetworkPolicy

  datatype Rule = Rule(
    apiGroups: seq<string>, resources: seq<string>, verbs: seq<string>,
    resourceNames: seq<string>, nonResourceURLs: seq<string>)

  datatype RoleRef = RoleRef(apiGroup: string, kind: string, name: string)

  datatype Subject = Subject(kind: string, namespace: string, name: string)

  /** A decoded network policy: whether it converts to the typed form and whether its pod
      selector is valid are answers of the Kubernetes libraries. */
  datatype Policy = Policy(apiVersion: string, hasSpec: bool, converts: bool, selectorValid: bool,
    policyTypes: seq<string>)

  /** The rest of a document. `aggregates` holds the selectors of a cluster role's aggregation
      rule, each a map of labels; the validator looks at neither it nor the labels. */
  datatype Content = Content(rules: seq<Rule>, roleRef: RoleRef, subjects: seq<Subject>, policy: Policy,
    labels: map<string, string>, aggregates: seq<map<string, string>>)

  datatype Document = Document(kind: string, namespace: string, name: string, content: Content)

  datatype PlatformObject = PlatformObject(kind: Kind, namespace: string, name: string, content: Content)

  datatype Field = ApiGroups | Resources | Verbs

  datatype Problem =
    | UnsupportedKind(found: string)
    | MissingName(of: Kind)
    | DefinedTwice(key: string)
    | SetsNamespace(key: string)
    | ForeignName(key: string)
    | ForeignNamespace(key: string)
    | UnsupportedPolicy(key: string)
    | Wildcard(key: string, rule: nat, field: Field)
    | ForbiddenVerb(key: string, rule: nat, verb: string)
    | InvalidRoleRef(key: string)
    | UndefinedRole(key: string)
    | NoSubjects(key: string)
    | SubjectKind(key: string)
    | SubjectNamespace(key: string)

  // ---------- Constants of the source ----------

  function KindName(k: Kind): string {
    match k
    case ServiceAccount => "ServiceAccount"
    case Role => "Role"
    case RoleBinding => "RoleBinding"
    case ClusterRole => "ClusterRole"
    case ClusterRoleBinding => "ClusterRoleBinding"
    case NetworkPolicy => "NetworkPolicy"
  }

  function KindOf(s: string): Option<Kind> {
    if s == "ServiceAccount" then Some(ServiceAccount)
    else if s == "Role" then Some(Role)
    else if s == "RoleBinding" then Some(RoleBinding)
    else if s == "ClusterRole" then Some(ClusterRole)
    else if s == "ClusterRoleBinding" then Some(ClusterRoleBinding)
    else if s == "NetworkPolicy" then Some(NetworkPolicy)
    else None
  }

  function RbacGroup(): string { "rbac.authorization.k8s.io" }

  function ManagedNamespace(): string { "mcp-servers" }

  function OperatorNamespace(): string { "mcp-runtime" }

  function OperatorAccount(): string { "mcp-runtime-operator-controller-manager" }

  predicate ManagedRole(name: string) {
    name == "mcp-runtime-operator-managed-secrets" || name == "mcp-runtime-operator-managed-workloads"
  }

  predicate OwnedName(name: string) { "mcp-" <= name }

  predicate EscalatingVerb(v: string) { v == "escalate" || v == "bind" || v == "impersonate" }

  predicate SupportedPolicy(namespace: string, name: string) {
    var key := namespace + "/" + name;
    || key == "mcp-observability/kafka-client-ingress"
    || key == "mcp-observability/mcp-scoped-observability-ingress"
    || key == "mcp-platform/mcp-runtime-api-grafana-egress"
    || key == "mcp-platform/mcp-runtime-api-resource-history-egress"
  }

  /** What the catalog gives: its namespaces are never blank (blank ones are skipped) and,
      being Kubernetes names, hold no slash. */
  ghost predicate CatalogNamespaces(namespaces: set<string>) {
    forall ns :: ns in namespaces ==> ns != "" && '/' !in ns
  }

  // ---------- Keys ----------

  function Key(o: PlatformObject): string {
    if o.namespace == "" then KindName(o.kind) + "/" + o.name
    else KindName(o.kind) + "/" + o.namespace + "/" + o.name
  }

  function DefinedKey(kind: string, namespace: string, name: string): string {
    kind + "/" + namespace + "/" + name
  }

  predicate ClusterScoped(k: Kind) { k.ClusterRole? || k.ClusterRoleBinding? }

  predicate IsRole(k: Kind) { k.Role? || k.ClusterRole? }

  predicate IsBinding(k: Kind) { k.RoleBinding? || k.ClusterRoleBinding? }

  // ---------- What each check asks ----------

  predicate NarrowList(field: Field, list: seq<string>) {
    && "*" !in list
    && (field.Verbs? ==> forall v :: v in list ==> !EscalatingVerb(v))
  }

  predicate NarrowRule(rule: Rule) {
    && NarrowList(ApiGroups, rule.apiGroups)
    && NarrowList(Resources, rule.resources)
    && NarrowList(Verbs, rule.verbs)
  }

  predicate NarrowRules(rules: seq<Rule>) {
    forall i :: 0 <= i < |rules| ==> NarrowRule(rules[i])
  }

  predicate ManagedOperatorBinding(o: PlatformObject) {
    var subjects := o.content.subjects;
    && o.kind.RoleBinding?
    && o.namespace == ManagedNamespace()
    && o.content.roleRef.kind == "ClusterRole"
    && o.content.roleRef.name == o.name
    && |subjects| == 1
    && ManagedRole(o.name)
    && subjects[0] == Subject("ServiceAccount", OperatorNamespace(), OperatorAccount())
  }

  predicate Placed(o: PlatformObject, namespaces: set<string>) {
    if ClusterScoped(o.kind) then o.namespace == "" && OwnedName(o.name)
    else o.namespace in namespaces || ManagedOperatorBinding(o)
  }

  predicate PolicyAccepted(o: PlatformObject) {
    var p := o.content.policy;
    && SupportedPolicy(o.namespace, o.name)
    && p.apiVersion == "networking.k8s.io/v1"
    && p.hasSpec && p.converts && p.selectorValid
    && p.policyTypes != []
    && forall t :: t in p.policyTypes ==> t == "Ingress" || t == "Egress"
  }

  predicate ValidRef(o: PlatformObject) {
    var ref := o.content.roleRef;
    && ref.apiGroup == RbacGroup()
    && (ref.kind == "Role" || ref.kind == "ClusterRole")
    && (o.kind.ClusterRoleBinding? ==> ref.kind == "ClusterRole")
  }

  function RefNamespace(o: PlatformObject): string {
    if o.content.roleRef.kind == "Role" then o.namespace else ""
  }

  predicate SubjectAccepted(s: Subject, namespaces: set<string>) {
    s.kind == "ServiceAccount" && s.namespace in namespaces
  }

  predicate SubjectsAccepted(subjects: seq<Subject>, namespaces: set<string>) {
    subjects != [] && forall i :: 0 <= i < |subjects| ==> SubjectAccepted(subjects[i], namespaces)
  }

  // ---------- The validator ----------

  method ValidateList(key: string, rule: nat, field: Field, list: seq<string>) returns (errs: seq<Problem>)
    ensures errs == [] <==> NarrowList(field, list)
    ensures errs == [] <==> "*" !in list
                            && (field.Verbs? ==> "escalate" !in list && "bind" !in list && "impersonate" !in list)
  {
    NarrowListMeans(field, list);
    hide EscalatingVerb;
    errs := [];
    for k := 0 to |list|
      invariant errs == [] <==> NarrowList(field, list[..k])
    {
      assert list[..k + 1] == list[..k] + [list[k]];
      if list[k] == "*" {
        errs := errs + [Wildcard(key, rule, field)];
      }
      if field.Verbs? && EscalatingVerb(list[k]) {
        errs := errs + [ForbiddenVerb(key, rule, list[k])];
      }
    }
    assert list[..|list|] == list;
  }

  lemma NarrowListMeans(field: Field, list: seq<string>)
    ensures NarrowList(field, list) <==>
            "*" !in list && (field.Verbs? ==> "escalate" !in list && "bind" !in list && "impersonate" !in list)
  {
  }

  /** Rules without wildcards and without the three verbs that widen or borrow permissions. */
  lemma NarrowRulesMean(rules: seq<Rule>)
    ensures NarrowRules(rules) <==>
            forall rule :: rule in rules ==>
              && "*" !in rule.apiGroups && "*" !in rule.resources && "*" !in rule.verbs
              && "escalate" !in rule.verbs && "bind" !in rule.verbs && "impersonate" !in rule.verbs
  {
    forall rule: Rule ensures NarrowRule(rule) <==>
        && "*" !in rule.apiGroups && "*" !in rule.resources && "*" !in rule.verbs
        && "escalate" !in rule.verbs && "bind" !in rule.verbs && "impersonate" !in rule.verbs
    {
      NarrowListMeans(ApiGroups, rule.apiGroups);
      NarrowListMeans(Resources, rule.resources);
      NarrowListMeans(Verbs, rule.verbs);
    }
    hide NarrowRule;
    if NarrowRules(rules) {
      assert forall i :: 0 <= i < |rules| ==> NarrowRule(rules[i]);
    } else {
      var i :| 0 <= i < |rules| && !NarrowRule(rules[i]);
      assert rules[i] in rules;
    }
  }

  method ValidateRules(key: string, rules: seq<Rule>) returns (errs: seq<Problem>)
    ensures errs == [] <==> NarrowRules(rules)
    ensures errs == [] <==>
            forall rule :: rule in rules ==>
              && "*" !in rule.apiGroups && "*" !in rule.resources && "*" !in rule.verbs
              && "escalate" !in rule.verbs && "bind" !in rule.verbs && "impersonate" !in rule.verbs
  {
    NarrowRulesMean(rules);
    hide NarrowList;
    errs := [];
    for i := 0 to |rules|
      invariant errs == [] <==> forall j :: 0 <= j < i ==> NarrowRule(rules[j])
    {
      var groups := ValidateList(key, i, ApiGroups, rules[i].apiGroups);
      var resources := ValidateList(key, i, Resources, rules[i].resources);
      var verbs := ValidateList(key, i, Verbs, rules[i].verbs);
      errs := errs + groups + resources + verbs;
    }
  }

  method ValidateBinding(key: string, o: PlatformObject, defined: set<string>, namespaces: set<string>)
    returns (errs: seq<Problem>)
    ensures errs == [] <==>
      && ValidRef(o)
      && DefinedKey(o.content.roleRef.kind, RefNamespace(o), o.content.roleRef.name) in defined
      && SubjectsAccepted(o.content.subjects, namespaces)
    ensures var ref := o.content.roleRef;
            errs == [] <==>
            && ref.apiGroup == "rbac.authorization.k8s.io"
            && (if o.kind.ClusterRoleBinding? then ref.kind == "ClusterRole" else ref.kind in {"Role", "ClusterRole"})
            && DefinedKey(ref.kind, if ref.kind == "Role" then o.namespace else "", ref.name) in defined
            && o.content.subjects != []
            && forall s :: s in o.content.subjects ==> s.kind == "ServiceAccount" && s.namespace in namespaces
  {
    SubjectsMean(o.content.subjects, namespaces);
    GroupName();
    hide DefinedKey, RbacGroup, SubjectsAccepted;
    errs := [];
    var ref := o.content.roleRef;
    if ref.apiGroup != RbacGroup() || (ref.kind != "Role" && ref.kind != "ClusterRole")
       || (o.kind.ClusterRoleBinding? && ref.kind != "ClusterRole") {
      errs := errs + [InvalidRoleRef(key)];
    }
    var refNamespace := "";
    if ref.kind == "Role" {
      refNamespace := o.namespace;
    }
    if DefinedKey(ref.kind, refNamespace, ref.name) !in defined {
      errs := errs + [UndefinedRole(key)];
    }
    var fromSubjects := ValidateSubjects(key, o.content.subjects, namespaces);
    errs := errs + fromSubjects;
  }

  lemma GroupName()
    ensures RbacGroup() == "rbac.authorization.k8s.io"
  {
  }

  lemma SubjectsMean(subjects: seq<Subject>, namespaces: set<string>)
    ensures SubjectsAccepted(subjects, namespaces) <==>
            subjects != [] && forall s :: s in subjects ==> s.kind == "ServiceAccount" && s.namespace in namespaces
  {
    if SubjectsAccepted(subjects, namespaces) {
      assert forall i :: 0 <= i < |subjects| ==> SubjectAccepted(subjects[i], namespaces);
    } else if subjects != [] {
      var i :| 0 <= i < |subjects| && !SubjectAccepted(subjects[i], namespaces);
      assert subjects[i] in subjects;
    }
  }

  method ValidateSubjects(key: string, subjects: seq<Subject>, namespaces: set<string>)
    returns (errs: seq<Problem>)
    ensures errs == [] <==> SubjectsAccepted(subjects, namespaces)
  {
    errs := [];
    if |subjects| == 0 {
      errs := errs + [NoSubjects(key)];
    }
    for k := 0 to |subjects|
      invariant errs == [] <==>
        subjects != [] && forall j :: 0 <= j < k ==> SubjectAccepted(subjects[j], namespaces)
    {
      if subjects[k].kind != "ServiceAccount" {
        errs := errs + [SubjectKind(key)];
      }
      if subjects[k].namespace !in namespaces {
        errs := errs + [SubjectNamespace(key)];
      }
    }
  }

  /** The checks of one object beyond its name, its key and its place. */
  predicate ContentAccepted(o: PlatformObject, defined: set<string>, namespaces: set<string>) {
    match o.kind
    case NetworkPolicy => PolicyAccepted(o)
    case Role => NarrowRules(o.content.rules)
    case ClusterRole => NarrowRules(o.content.rules)
    case RoleBinding => BindingAccepted(o, defined, namespaces)
    case ClusterRoleBinding => BindingAccepted(o, defined, namespaces)
    case ServiceAccount => true
  }

  predicate BindingAccepted(o: PlatformObject, defined: set<string>, namespaces: set<string>) {
    && ValidRef(o)
    && DefinedKey(o.content.roleRef.kind, RefNamespace(o), o.content.roleRef.name) in defined
    && SubjectsAccepted(o.content.subjects, namespaces)
  }

  /** Every check of a network policy returns at once. */
  method ValidateNetworkPolicy(o: PlatformObject) returns (errs: seq<Problem>)
    ensures errs == [] <==> PolicyAccepted(o)
    ensures errs == [] <==>
            && o.namespace + "/" + o.name in {"mcp-observability/kafka-client-ingress", "mcp-observability/mcp-scoped-observability-ingress",
                                              "mcp-platform/mcp-runtime-api-grafana-egress", "mcp-platform/mcp-runtime-api-resource-history-egress"}
            && o.content.policy.apiVersion == "networking.k8s.io/v1"
            && o.content.policy.hasSpec && o.content.policy.converts && o.content.policy.selectorValid
            && o.content.policy.policyTypes != [] && forall t :: t in o.content.policy.policyTypes ==> t in {"Ingress", "Egress"}
  {
    PolicyMeans(o);
    hide Key, SupportedPolicy;
    errs := [UnsupportedPolicy(Key(o))];
    var p := o.content.policy;
    if !SupportedPolicy(o.namespace, o.name) || p.apiVersion != "networking.k8s.io/v1" || !p.hasSpec {
      return;
    }
    if !p.converts || !p.selectorValid || |p.policyTypes| == 0 {
      return;
    }
    for i := 0 to |p.policyTypes|
      invariant forall j :: 0 <= j < i ==> p.policyTypes[j] == "Ingress" || p.policyTypes[j] == "Egress"
    {
      if p.policyTypes[i] != "Ingress" && p.policyTypes[i] != "Egress" {
        assert p.policyTypes[i] in p.policyTypes;
        return;
      }
    }
    errs := [];
  }

  lemma PolicyMeans(o: PlatformObject)
    ensures PolicyAccepted(o) <==>
            && o.namespace + "/" + o.name in {"mcp-observability/kafka-client-ingress", "mcp-observability/mcp-scoped-observability-ingress",
                                              "mcp-platform/mcp-runtime-api-grafana-egress", "mcp-platform/mcp-runtime-api-resource-history-egress"}
            && o.content.policy.apiVersion == "networking.k8s.io/v1"
            && o.content.policy.hasSpec && o.content.policy.converts && o.content.policy.selectorValid
            && o.content.policy.policyTypes != [] && forall t :: t in o.content.policy.policyTypes ==> t in {"Ingress", "Egress"}
  {
  }

  method ValidateContent(o: PlatformObject, defined: set<string>, namespaces: set<string>)
    returns (errs: seq<Problem>)
    ensures errs == [] <==> ContentAccepted(o, defined, namespaces)
  {
    hide PolicyAccepted, NarrowRules, ValidRef, SubjectsAccepted, DefinedKey, Key;
    match o.kind {
      case NetworkPolicy => errs := ValidateNetworkPolicy(o);
      case Role => errs := ValidateRules(Key(o), o.content.rules);
      case ClusterRole => errs := ValidateRules(Key(o), o.content.rules);
      case RoleBinding => errs := ValidateBinding(Key(o), o, defined, namespaces);
      case ClusterRoleBinding => errs := ValidateBinding(Key(o), o, defined, namespaces);
      case ServiceAccount => errs := [];
    }
  }

  /** The keys of the roles the bundle itself defines. */
  function DefinedRoles(objs: seq<PlatformObject>): set<string> {
    set i | 0 <= i < |objs| && IsRole(objs[i].kind) ::
      DefinedKey(KindName(objs[i].kind), objs[i].namespace, objs[i].name)
  }

  predicate FreshKey(objs: seq<PlatformObject>, i: nat)
    requires i < |objs|
  {
    forall j :: 0 <= j < i && objs[j].name != "" ==> Key(objs[j]) != Key(objs[i])
  }

  predicate Passes(objs: seq<PlatformObject>, i: nat, namespaces: set<string>)
    requires i < |objs|
  {
    && objs[i].name != ""
    && FreshKey(objs, i)
    && Placed(objs[i], namespaces)
    && ContentAccepted(objs[i], DefinedRoles(objs), namespaces)
  }

  method CollectDefined(objs: seq<PlatformObject>) returns (defined: set<string>)
    ensures defined == DefinedRoles(objs)
  {
    hide DefinedKey, KindName;
    defined := {};
    for i := 0 to |objs|
      invariant defined == DefinedRoles(objs[..i])
    {
      var was := defined;
      if objs[i].kind.Role? || objs[i].kind.ClusterRole? {
        defined := defined + {DefinedKey(KindName(objs[i].kind), objs[i].namespace, objs[i].name)};
      }
      DefinedSnoc(objs[..i], objs[i]);
      assert objs[..i + 1] == objs[..i] + [objs[i]];
    }
    assert objs[..|objs|] == objs;
  }

  lemma DefinedSnoc(objs: seq<PlatformObject>, o: PlatformObject)
    ensures DefinedRoles(objs + [o]) == DefinedRoles(objs) +
      if IsRole(o.kind) then {DefinedKey(KindName(o.kind), o.namespace, o.name)} else {}
  {
    hide DefinedKey, KindName;
    var all := objs + [o];
    assert all[|objs|] == o;
    assert forall i :: 0 <= i < |objs| ==> all[i] == objs[i];
  }

  method ValidatePlace(o: PlatformObject, namespaces: set<string>) returns (errs: seq<Problem>)
    ensures errs == [] <==> Placed(o, namespaces)
    ensures errs == [] <==>
            if o.kind.ClusterRole? || o.kind.ClusterRoleBinding? then o.namespace == "" && "mcp-" <= o.name
            else
              || o.namespace in namespaces
              || (&& o.kind.RoleBinding? && o.namespace == "mcp-servers"
                  && o.name in {"mcp-runtime-operator-managed-secrets", "mcp-runtime-operator-managed-workloads"}
                  && o.content.roleRef.kind == "ClusterRole" && o.content.roleRef.name == o.name
                  && o.content.subjects == [Subject("ServiceAccount", "mcp-runtime", "mcp-runtime-operator-controller-manager")])
  {
    PlaceMeans(o, namespaces);
    hide OwnedName, ManagedOperatorBinding, Key;
    var clusterScoped := o.kind.ClusterRole? || o.kind.ClusterRoleBinding?;
    errs := [];
    if clusterScoped && o.namespace != "" {
      errs := [SetsNamespace(Key(o))];
    } else if clusterScoped && !OwnedName(o.name) {
      errs := [ForeignName(Key(o))];
    } else if !clusterScoped && o.namespace !in namespaces && !ManagedOperatorBinding(o) {
      errs := [ForeignNamespace(Key(o))];
    }
  }

  lemma PlaceMeans(o: PlatformObject, namespaces: set<string>)
    ensures Placed(o, namespaces) <==>
            if o.kind.ClusterRole? || o.kind.ClusterRoleBinding? then o.namespace == "" && "mcp-" <= o.name
            else
              || o.namespace in namespaces
              || (&& o.kind.RoleBinding? && o.namespace == "mcp-servers"
                  && o.name in {"mcp-runtime-operator-managed-secrets", "mcp-runtime-operator-managed-workloads"}
                  && o.content.roleRef.kind == "ClusterRole" && o.content.roleRef.name == o.name
                  && o.content.subjects == [Subject("ServiceAccount", "mcp-runtime", "mcp-runtime-operator-controller-manager")])
  {
  }

  function NamedKeys(objs: seq<PlatformObject>): set<string> {
    set i | 0 <= i < |objs| && objs[i].name != "" :: Key(objs[i])
  }

  lemma NamedSnoc(objs: seq<PlatformObject>, o: PlatformObject)
    ensures NamedKeys(objs + [o]) == NamedKeys(objs) + if o.name != "" then {Key(o)} else {}
  {
    hide Key;
    var all := objs + [o];
    assert all[|objs|] == o;
    assert forall i :: 0 <= i < |objs| ==> all[i] == objs[i];
  }

  /** The errors the validator joins: none exactly when every object passes every check. */
  method CollectErrors(objs: seq<PlatformObject>, namespaces: set<string>) returns (errs: seq<Problem>)
    ensures errs == [] <==> forall i :: 0 <= i < |objs| ==> Passes(objs, i, namespaces)
  {
    hide Key, Placed, ContentAccepted, DefinedRoles;
    errs := [];
    var defined := CollectDefined(objs);
    var seen: set<string> := {};
    for i := 0 to |objs|
      invariant seen == NamedKeys(objs[..i])
      invariant errs == [] <==> forall j :: 0 <= j < i ==> Passes(objs, j, namespaces)
    {
      var o := objs[i];
      assert objs[..i + 1] == objs[..i] + [o];
      NamedSnoc(objs[..i], o);
      if o.name == "" {
        errs := errs + [MissingName(o.kind)];
        assert !Passes(objs, i, namespaces);
        continue;
      }
      ghost var before := errs;
      assert Key(o) in seen <==> !FreshKey(objs, i) by {
        if Key(o) in seen {
          var j :| 0 <= j < i && objs[..i][j].name != "" && Key(objs[..i][j]) == Key(o);
          assert objs[j] == objs[..i][j];
        }
        if j :| 0 <= j < i && objs[j].name != "" && Key(objs[j]) == Key(o) {
          assert objs[j] == objs[..i][j];
        }
      }
      if Key(o) in seen {
        errs := errs + [DefinedTwice(Key(o))];
      }
      seen := seen + {Key(o)};
      var place := ValidatePlace(o, namespaces);
      var content := ValidateContent(o, defined, namespaces);
      errs := errs + place + content;
      assert errs == [] <==> before == [] && Passes(objs, i, namespaces);
    }
  }

  // ---------- What acceptance means, without keys ----------

  /** The binding's reference names the role. */
  predicate ResolvesTo(binding: PlatformObject, role: PlatformObject) {
    var ref := binding.content.roleRef;
    && IsRole(role.kind)
    && KindName(role.kind) == ref.kind
    && role.namespace == RefNamespace(binding)
    && role.name == ref.name
  }

  predicate Resolves(objs: seq<PlatformObject>, b: int, r: int)
    requires 0 <= b < |objs| && 0 <= r < |objs|
  {
    ResolvesTo(objs[b], objs[r])
  }

  predicate SameIdentity(a: PlatformObject, b: PlatformObject) {
    a.kind == b.kind && a.namespace == b.namespace && a.name == b.name
  }

  predicate BindingClosed(objs: seq<PlatformObject>, b: int, namespaces: set<string>)
    requires 0 <= b < |objs|
  {
    && ValidRef(objs[b])
    && SubjectsAccepted(objs[b].content.subjects, namespaces)
    && exists r :: 0 <= r < |objs| && Resolves(objs, b, r)
  }

  predicate ContentClosed(objs: seq<PlatformObject>, i: int, namespaces: set<string>)
    requires 0 <= i < |objs|
  {
    match objs[i].kind
    case NetworkPolicy => PolicyAccepted(objs[i])
    case Role => NarrowRules(objs[i].content.rules)
    case ClusterRole => NarrowRules(objs[i].content.rules)
    case RoleBinding => BindingClosed(objs, i, namespaces)
    case ClusterRoleBinding => BindingClosed(objs, i, namespaces)
    case ServiceAccount => true
  }

  predicate NamedAndPlaced(objs: seq<PlatformObject>, namespaces: set<string>) {
    forall i :: 0 <= i < |objs| ==> objs[i].name != "" && Placed(objs[i], namespaces)
  }

  predicate Unique(objs: seq<PlatformObject>) {
    forall i, j :: 0 <= i < j < |objs| ==> !SameIdentity(objs[i], objs[j])
  }

  /** The bundle is closed and narrow: every object is named, in its place and the only one
      of its identity, roles are narrow, and bindings give roles of the same bundle to
      platform accounts. */
  predicate Accepted(objs: seq<PlatformObject>, namespaces: set<string>) {
    && NamedAndPlaced(objs, namespaces)
    && Unique(objs)
    && forall i :: 0 <= i < |objs| ==> ContentClosed(objs, i, namespaces)
  }

  lemma KindNamesAreSlashFree(k: Kind)
    ensures '/' !in KindName(k)
  {
  }

  lemma KindNamesDiffer(a: Kind, b: Kind)
    ensures KindName(a) == KindName(b) <==> a == b
  {
    assert |KindName(ServiceAccount)| == 14 && |KindName(Role)| == 4 && |KindName(RoleBinding)| == 11;
    assert |KindName(ClusterRole)| == 11 && |KindName(ClusterRoleBinding)| == 18;
    assert |KindName(NetworkPolicy)| == 13;
    assert KindName(RoleBinding)[0] == 'R' && KindName(ClusterRole)[0] == 'C';
  }

  lemma HeadOfKey(a: string, b: string, c: string, d: string)
    requires '/' !in a && '/' !in c
    requires a + "/" + b == c + "/" + d
    ensures a == c && b == d
  {
    IndexOfFirst(a, '/', b);
    IndexOfFirst(c, '/', d);
    var s := a + "/" + b;
    assert s[..|a|] == a && s[..|c|] == c;
    assert s[|a| + 1..] == b && s[|c| + 1..] == d;
  }

  /** Where a placed object lives: its namespace is blank exactly for cluster-scoped kinds,
      and never holds a slash. */
  lemma PlacedNamespace(o: PlatformObject, namespaces: set<string>)
    requires CatalogNamespaces(namespaces) && Placed(o, namespaces)
    ensures o.namespace == "" <==> ClusterScoped(o.kind)
    ensures '/' !in o.namespace
  {
    hide OwnedName, OperatorNamespace, OperatorAccount, ManagedRole;
  }

  lemma DefinedKeyInjective(k1: string, n1: string, m1: string, k2: string, n2: string, m2: string)
    requires '/' !in k1 && '/' !in k2 && '/' !in n1 && '/' !in n2
    requires DefinedKey(k1, n1, m1) == DefinedKey(k2, n2, m2)
    ensures k1 == k2 && n1 == n2 && m1 == m2
  {
    assert DefinedKey(k1, n1, m1) == k1 + "/" + (n1 + "/" + m1);
    assert DefinedKey(k2, n2, m2) == k2 + "/" + (n2 + "/" + m2);
    HeadOfKey(k1, n1 + "/" + m1, k2, n2 + "/" + m2);
    HeadOfKey(n1, m1, n2, m2);
  }

  lemma KeyIdentifies(a: PlatformObject, b: PlatformObject, namespaces: set<string>)
    requires CatalogNamespaces(namespaces) && Placed(a, namespaces) && Placed(b, namespaces)
    ensures Key(a) == Key(b) <==> SameIdentity(a, b)
  {
    PlacedNamespace(a, namespaces);
    PlacedNamespace(b, namespaces);
    KindNamesAreSlashFree(a.kind);
    KindNamesAreSlashFree(b.kind);
    KindNamesDiffer(a.kind, b.kind);
    hide Placed, KindName;
    if Key(a) == Key(b) {
      var tailA := if a.namespace == "" then a.name else a.namespace + "/" + a.name;
      var tailB := if b.namespace == "" then b.name else b.namespace + "/" + b.name;
      assert Key(a) == KindName(a.kind) + "/" + tailA;
      assert Key(b) == KindName(b.kind) + "/" + tailB;
      HeadOfKey(KindName(a.kind), tailA, KindName(b.kind), tailB);
      if a.namespace != "" {
        HeadOfKey(a.namespace, a.name, b.namespace, b.name);
      }
    }
  }

  /** A binding finds its role by key exactly when it finds it by kind, namespace and name. */
  lemma DefinedMeansResolved(objs: seq<PlatformObject>, b: int, namespaces: set<string>)
    requires CatalogNamespaces(namespaces) && 0 <= b < |objs| && ValidRef(objs[b])
    requires forall i :: 0 <= i < |objs| ==> Placed(objs[i], namespaces)
    ensures DefinedKey(objs[b].content.roleRef.kind, RefNamespace(objs[b]), objs[b].content.roleRef.name)
              in DefinedRoles(objs)
            <==> exists r :: 0 <= r < |objs| && Resolves(objs, b, r)
  {
    forall i | 0 <= i < |objs| ensures '/' !in objs[i].namespace {
      PlacedNamespace(objs[i], namespaces);
    }
    var ref := objs[b].content.roleRef;
    var ns := RefNamespace(objs[b]);
    assert '/' !in ref.kind && '/' !in ns;
    hide Placed, DefinedKey, KindName, RbacGroup, ValidRef, RefNamespace;
    var key := DefinedKey(ref.kind, ns, ref.name);
    if key in DefinedRoles(objs) {
      var r :| 0 <= r < |objs| && IsRole(objs[r].kind)
        && key == DefinedKey(KindName(objs[r].kind), objs[r].namespace, objs[r].name);
      KindNamesAreSlashFree(objs[r].kind);
      DefinedKeyInjective(ref.kind, ns, ref.name, KindName(objs[r].kind), objs[r].namespace, objs[r].name);
      assert Resolves(objs, b, r);
    }
    if r :| 0 <= r < |objs| && Resolves(objs, b, r) {
      assert key == DefinedKey(KindName(objs[r].kind), objs[r].namespace, objs[r].name);
    }
  }

  lemma ContentMeans(objs: seq<PlatformObject>, i: nat, namespaces: set<string>)
    requires CatalogNamespaces(namespaces) && NamedAndPlaced(objs, namespaces) && i < |objs|
    ensures ContentAccepted(objs[i], DefinedRoles(objs), namespaces) <==> ContentClosed(objs, i, namespaces)
  {
    hide Placed, DefinedRoles, DefinedKey, ValidRef, SubjectsAccepted, NarrowRules, PolicyAccepted;
    hide Resolves, RefNamespace;
    if ValidRef(objs[i]) {
      DefinedMeansResolved(objs, i, namespaces);
    }
  }

  lemma FreshMeansUnique(objs: seq<PlatformObject>, namespaces: set<string>)
    requires CatalogNamespaces(namespaces) && NamedAndPlaced(objs, namespaces)
    ensures (forall i :: 0 <= i < |objs| ==> FreshKey(objs, i)) <==> Unique(objs)
  {
    hide Placed, Key, SameIdentity;
    forall i, j | 0 <= i < j < |objs|
      ensures Key(objs[i]) == Key(objs[j]) <==> SameIdentity(objs[i], objs[j])
    {
      KeyIdentifies(objs[i], objs[j], namespaces);
    }
    if forall i :: 0 <= i < |objs| ==> FreshKey(objs, i) {
      forall i, j | 0 <= i < j < |objs| ensures !SameIdentity(objs[i], objs[j]) {
        assert FreshKey(objs, j);
      }
    }
  }

  lemma PassingIsAccepted(objs: seq<PlatformObject>, namespaces: set<string>)
    requires CatalogNamespaces(namespaces)
    ensures (forall i :: 0 <= i < |objs| ==> Passes(objs, i, namespaces)) <==> Accepted(objs, namespaces)
  {
    hide Placed, DefinedRoles, ContentAccepted, ContentClosed, FreshKey, Unique, CatalogNamespaces;
    if NamedAndPlaced(objs, namespaces) {
      FreshMeansUnique(objs, namespaces);
      forall i | 0 <= i < |objs|
        ensures ContentAccepted(objs[i], DefinedRoles(objs), namespaces) <==> ContentClosed(objs, i, namespaces)
      {
        ContentMeans(objs, i, namespaces);
      }
    }
    if forall i :: 0 <= i < |objs| ==> Passes(objs, i, namespaces) {
      forall i | 0 <= i < |objs|
        ensures objs[i].name != "" && Placed(objs[i], namespaces) && FreshKey(objs, i)
        ensures ContentAccepted(objs[i], DefinedRoles(objs), namespaces)
      {
        assert Passes(objs, i, namespaces);
      }
      assert Accepted(objs, namespaces);
    }
  }

  // What acceptance asks of an object, in the texts a manifest holds.

  predicate LawfulPlace(o: PlatformObject, namespaces: set<string>) {
    if o.kind.ClusterRole? || o.kind.ClusterRoleBinding? then o.namespace == "" && "mcp-" <= o.name
    else
      || o.namespace in namespaces
      || (&& o.kind.RoleBinding? && o.namespace == "mcp-servers"
          && o.name in {"mcp-runtime-operator-managed-secrets", "mcp-runtime-operator-managed-workloads"}
          && o.content.roleRef.kind == "ClusterRole" && o.content.roleRef.name == o.name
          && o.content.subjects == [Subject("ServiceAccount", "mcp-runtime", "mcp-runtime-operator-controller-manager")])
  }

  predicate LawfulRule(rule: Rule) {
    && "*" !in rule.apiGroups && "*" !in rule.resources && "*" !in rule.verbs
    && "escalate" !in rule.verbs && "bind" !in rule.verbs && "impersonate" !in rule.verbs
  }

  predicate LawfulPolicy(o: PlatformObject) {
    && o.namespace + "/" + o.name in {"mcp-observability/kafka-client-ingress", "mcp-observability/mcp-scoped-observability-ingress",
                                      "mcp-platform/mcp-runtime-api-grafana-egress", "mcp-platform/mcp-runtime-api-resource-history-egress"}
    && o.content.policy.apiVersion == "networking.k8s.io/v1"
    && o.content.policy.hasSpec && o.content.policy.converts && o.content.policy.selectorValid
    && o.content.policy.policyTypes != [] && forall t :: t in o.content.policy.policyTypes ==> t in {"Ingress", "Egress"}
  }

  ghost predicate LawfulBinding(objs: seq<PlatformObject>, o: PlatformObject, namespaces: set<string>) {
    && o.content.roleRef.apiGroup == "rbac.authorization.k8s.io"
    && (o.kind.ClusterRoleBinding? ==> o.content.roleRef.kind == "ClusterRole")
    && o.content.subjects != []
    && (forall s :: s in o.content.subjects ==> s.kind == "ServiceAccount" && s.namespace in namespaces)
    && exists role :: role in objs && role.name == o.content.roleRef.name
         && ((role.kind.Role? && o.content.roleRef.kind == "Role" && role.namespace == o.namespace)
             || (role.kind.ClusterRole? && o.content.roleRef.kind == "ClusterRole" && role.namespace == ""))
  }

  ghost predicate Lawful(objs: seq<PlatformObject>, o: PlatformObject, namespaces: set<string>) {
    && o.name != "" && LawfulPlace(o, namespaces)
    && (o.kind.Role? || o.kind.ClusterRole? ==> forall rule :: rule in o.content.rules ==> LawfulRule(rule))
    && (o.kind.NetworkPolicy? ==> LawfulPolicy(o))
    && (o.kind.RoleBinding? || o.kind.ClusterRoleBinding? ==> LawfulBinding(objs, o, namespaces))
  }

  lemma ReferenceMeans(objs: seq<PlatformObject>, b: nat)
    requires b < |objs|
    ensures (exists r :: 0 <= r < |objs| && Resolves(objs, b, r)) <==>
            exists role :: role in objs && role.name == objs[b].content.roleRef.name
              && ((role.kind.Role? && objs[b].content.roleRef.kind == "Role" && role.namespace == objs[b].namespace)
                  || (role.kind.ClusterRole? && objs[b].content.roleRef.kind == "ClusterRole" && role.namespace == ""))
    ensures (exists r :: 0 <= r < |objs| && Resolves(objs, b, r)) ==> objs[b].content.roleRef.kind in {"Role", "ClusterRole"}
  {
    assert KindName(Role) == "Role" && KindName(ClusterRole) == "ClusterRole" && |"Role"| != |"ClusterRole"|;
    if r :| 0 <= r < |objs| && Resolves(objs, b, r) {
      assert objs[r] in objs;
    }
    if role :| role in objs && ResolvesTo(objs[b], role) {
      var r :| 0 <= r < |objs| && objs[r] == role;
      assert Resolves(objs, b, r);
    }
  }

  lemma BindingMeans(objs: seq<PlatformObject>, b: nat, namespaces: set<string>)
    requires b < |objs|
    ensures BindingClosed(objs, b, namespaces) <==> LawfulBinding(objs, objs[b], namespaces)
  {
    SubjectsMean(objs[b].content.subjects, namespaces);
    ReferenceMeans(objs, b);
    GroupName();
    hide SubjectsAccepted, Resolves, RbacGroup;
  }

  lemma PartsMean(o: PlatformObject, namespaces: set<string>)
    ensures LawfulPlace(o, namespaces) <==> Placed(o, namespaces)
    ensures LawfulPolicy(o) <==> PolicyAccepted(o)
    ensures (forall rule :: rule in o.content.rules ==> LawfulRule(rule)) <==> NarrowRules(o.content.rules)
  {
    PlaceMeans(o, namespaces);
    PolicyMeans(o);
    NarrowRulesMean(o.content.rules);
    hide Placed, PolicyAccepted, NarrowRules;
  }

  lemma ObjectMeans(objs: seq<PlatformObject>, i: nat, namespaces: set<string>)
    requires i < |objs|
    ensures objs[i].name != "" && Placed(objs[i], namespaces) && ContentClosed(objs, i, namespaces) <==>
            Lawful(objs, objs[i], namespaces)
  {
    hide NarrowRules, PolicyAccepted, BindingClosed, Placed, LawfulPlace, LawfulPolicy, LawfulBinding, LawfulRule;
    PartsMean(objs[i], namespaces);
    BindingMeans(objs, i, namespaces);
  }

  /** Acceptance in those texts. */
  lemma AcceptedMeans(objs: seq<PlatformObject>, namespaces: set<string>)
    ensures Accepted(objs, namespaces) <==>
            && (forall o :: o in objs ==> Lawful(objs, o, namespaces))
            && forall i, j :: 0 <= i < j < |objs| ==>
                 !(objs[i].kind == objs[j].kind && objs[i].namespace == objs[j].namespace && objs[i].name == objs[j].name)
  {
    hide ContentClosed, Placed, Lawful;
    forall i | 0 <= i < |objs|
      ensures objs[i].name != "" && Placed(objs[i], namespaces) && ContentClosed(objs, i, namespaces) <==> Lawful(objs, objs[i], namespaces)
    {
      ObjectMeans(objs, i, namespaces);
    }
    assert forall i :: 0 <= i < |objs| ==> objs[i] in objs;
  }

  method ValidatePlatformObjects(objs: seq<PlatformObject>, namespaces: set<string>)
    returns (errs: seq<Problem>)
    requires CatalogNamespaces(namespaces)
    ensures errs == [] <==> Accepted(objs, namespaces)
  {
    hide *;
    errs := CollectErrors(objs, namespaces);
    PassingIsAccepted(objs, namespaces);
  }

  // ---------- From documents to objects ----------

  /** The objects of the documents that are not blank, names trimmed, when every kind is one
      a release may ship. */
  function ObjectOf(d: Document): Option<PlatformObject> {
    match KindOf(d.kind)
    case None => None
    case Some(k) => Some(PlatformObject(k, TrimSpace(d.namespace), TrimSpace(d.name), d.content))
  }

  function ObjectsOf(docs: seq<Option<Document>>): Option<seq<PlatformObject>>
    decreases |docs|
  {
    if docs == [] then Some([])
    else
      var before := ObjectsOf(docs[..|docs| - 1]);
      var last := docs[|docs| - 1];
      if before.None? || last.None? then before
      else match ObjectOf(last.value)
           case None => None
           case Some(o) => Some(before.value + [o])
  }

  lemma {:induction false} PrefixRefused(docs: seq<Option<Document>>, k: nat)
    requires k <= |docs| && ObjectsOf(docs[..k]).None?
    ensures ObjectsOf(docs).None?
    decreases |docs| - k
  {
    if k < |docs| {
      assert docs[..k + 1][..k] == docs[..k];
      PrefixRefused(docs, k + 1);
    } else {
      assert docs[..k] == docs;
    }
  }

  lemma KindOfMeans(s: string)
    ensures KindOf(s).Some? <==> s in {"ServiceAccount", "Role", "RoleBinding", "ClusterRole", "ClusterRoleBinding", "NetworkPolicy"}
    ensures KindOf(s).Some? ==> KindName(KindOf(s).value) == s
  {
  }

  lemma ObjectsSnoc(docs: seq<Option<Document>>, d: Option<Document>)
    ensures ObjectsOf(docs + [d])
            == if ObjectsOf(docs).None? || (d.Some? && ObjectOf(d.value).None?) then None
               else Some(ObjectsOf(docs).value + if d.Some? then [ObjectOf(d.value).value] else [])
  {
    hide ObjectOf;
    assert (docs + [d])[..|docs|] == docs;
    assert ObjectsOf(docs).Some? ==> ObjectsOf(docs).value + [] == ObjectsOf(docs).value;
  }

  lemma {:induction false} KnownKinds(docs: seq<Option<Document>>)
    ensures ObjectsOf(docs).Some? <==> forall d :: Some(d) in docs ==> KindOf(d.kind).Some?
    decreases |docs|
  {
    hide KindOf;
    if docs != [] {
      hide ObjectsOf;
      var n := |docs| - 1;
      var rest, last := docs[..n], docs[n];
      KnownKinds(rest);
      ObjectsSnoc(rest, last);
      assert docs == rest + [last];
      assert last.Some? ==> (ObjectOf(last.value).None? <==> KindOf(last.value.kind).None?);
      hide ObjectOf;
      assert forall d :: d in docs <==> d in rest || d == last;
    }
  }

  lemma SupportedKinds(docs: seq<Option<Document>>)
    ensures ObjectsOf(docs).Some? <==> forall d :: Some(d) in docs ==>
              d.kind in {"ServiceAccount", "Role", "RoleBinding", "ClusterRole", "ClusterRoleBinding", "NetworkPolicy"}
  {
    KnownKinds(docs);
    hide *;
    forall d: Document ensures KindOf(d.kind).Some? <==>
        d.kind in {"ServiceAccount", "Role", "RoleBinding", "ClusterRole", "ClusterRoleBinding", "NetworkPolicy"}
    {
      KindOfMeans(d.kind);
    }
  }

  /** Documents become objects one by one, each under its own kind and trimmed names; a blank
      document gives none, and one of another kind spoils the bundle. */
  lemma {:induction false} ObjectsConcat(docs: seq<Option<Document>>, more: seq<Option<Document>>)
    ensures ObjectsOf(docs + more)
            == if ObjectsOf(docs).Some? && ObjectsOf(more).Some? then Some(ObjectsOf(docs).value + ObjectsOf(more).value) else None
    decreases |more|
  {
    if more == [] {
      assert docs + more == docs;
      assert ObjectsOf(docs).Some? ==> ObjectsOf(docs).value + [] == ObjectsOf(docs).value;
    } else {
      hide *;
      var n := |more| - 1;
      var rest, last := more[..n], more[n];
      assert more == rest + [last] && docs + more == (docs + rest) + [last];
      ObjectsConcat(docs, rest);
      ObjectsSnoc(docs + rest, last);
      ObjectsSnoc(rest, last);
      JoinedThrice(docs, rest, last);
    }
  }

  lemma JoinedThrice(docs: seq<Option<Document>>, rest: seq<Option<Document>>, last: Option<Document>)
    ensures ObjectsOf(docs).Some? && ObjectsOf(rest).Some? ==>
              var a, b, c := ObjectsOf(docs).value, ObjectsOf(rest).value, if last.Some? && ObjectOf(last.value).Some? then [ObjectOf(last.value).value] else [];
              (a + b) + c == a + (b + c)
  {
    hide *;
  }

  lemma ObjectsOneByOne(d: Document)
    ensures ObjectsOf([None]) == Some([])
    ensures ObjectsOf([Some(d)]).Some? ==>
              var o := ObjectsOf([Some(d)]).value;
              |o| == 1 && KindName(o[0].kind) == d.kind && o[0].namespace == TrimSpace(d.namespace) && o[0].name == TrimSpace(d.name)
              && o[0].content == d.content
  {
    KindOfMeans(d.kind);
    hide TrimSpace, KindOf, KindName;
    var docs: seq<Option<Document>> := [];
    ObjectsSnoc(docs, None);
    ObjectsSnoc(docs, Some(d));
    assert docs + [None] == [None] && docs + [Some(d)] == [Some(d)];
  }

  /** The whole parser: it succeeds exactly on bundles whose objects are all of a shipped
      kind and together accepted, and then returns those objects in order. */
  method ParsePlatformObjects(docs: seq<Option<Document>>, namespaces: set<string>)
    returns (r: Result<seq<PlatformObject>, seq<Problem>>)
    requires CatalogNamespaces(namespaces)
    ensures r.Ok? <==> ObjectsOf(docs).Some? && Accepted(ObjectsOf(docs).value, namespaces)
    ensures r.Ok? ==> r.value == ObjectsOf(docs).value
    ensures r.Ok? ==> forall d :: Some(d) in docs ==>
              d.kind in {"ServiceAccount", "Role", "RoleBinding", "ClusterRole", "ClusterRoleBinding", "NetworkPolicy"}
    ensures r.Ok? ==> forall i, j :: 0 <= i < j < |r.value| ==>
              !(r.value[i].kind == r.value[j].kind && r.value[i].namespace == r.value[j].namespace && r.value[i].name == r.value[j].name)
    ensures r.Ok? ==> var objs := r.value; forall o :: o in objs ==>
            && o.name != ""
            && (o.kind.ClusterRole? || o.kind.ClusterRoleBinding? ==> o.namespace == "" && "mcp-" <= o.name)
            && (!o.kind.ClusterRole? && !o.kind.ClusterRoleBinding? ==>
                  || o.namespace in namespaces
                  || (&& o.kind.RoleBinding? && o.namespace == "mcp-servers"
                      && o.name in {"mcp-runtime-operator-managed-secrets", "mcp-runtime-operator-managed-workloads"}
                      && o.content.roleRef.kind == "ClusterRole" && o.content.roleRef.name == o.name
                      && o.content.subjects == [Subject("ServiceAccount", "mcp-runtime", "mcp-runtime-operator-controller-manager")]))
            && (o.kind.Role? || o.kind.ClusterRole? ==> forall rule :: rule in o.content.rules ==>
                  && "*" !in rule.apiGroups && "*" !in rule.resources && "*" !in rule.verbs
                  && "escalate" !in rule.verbs && "bind" !in rule.verbs && "impersonate" !in rule.verbs)
            && (o.kind.NetworkPolicy? ==>
                  && o.namespace + "/" + o.name in {"mcp-observability/kafka-client-ingress", "mcp-observability/mcp-scoped-observability-ingress",
                                                    "mcp-platform/mcp-runtime-api-grafana-egress", "mcp-platform/mcp-runtime-api-resource-history-egress"}
                  && o.content.policy.apiVersion == "networking.k8s.io/v1"
                  && o.content.policy.hasSpec && o.content.policy.converts && o.content.policy.selectorValid
                  && o.content.policy.policyTypes != [] && forall t :: t in o.content.policy.policyTypes ==> t in {"Ingress", "Egress"})
            && (o.kind.RoleBinding? || o.kind.ClusterRoleBinding? ==>
                  && o.content.roleRef.apiGroup == "rbac.authorization.k8s.io"
                  && (o.kind.ClusterRoleBinding? ==> o.content.roleRef.kind == "ClusterRole")
                  && o.content.subjects != []
                  && (forall s :: s in o.content.subjects ==> s.kind == "ServiceAccount" && s.namespace in namespaces)
                  && exists role :: role in objs && role.name == o.content.roleRef.name
                       && ((role.kind.Role? && o.content.roleRef.kind == "Role" && role.namespace == o.namespace)
                           || (role.kind.ClusterRole? && o.content.roleRef.kind == "ClusterRole" && role.namespace == "")))
  {
    SupportedKinds(docs);
    hide Accepted, ObjectOf, CatalogNamespaces;
    var objs: seq<PlatformObject> := [];
    for i := 0 to |docs|
      invariant ObjectsOf(docs[..i]) == Some(objs)
    {
      assert docs[..i + 1][..i] == docs[..i];
      if docs[i].None? {
        continue;
      }
      var o := ObjectOf(docs[i].value);
      if o.None? {
        PrefixRefused(docs, i + 1);
        return Err([UnsupportedKind(docs[i].value.kind)]);
      }
      objs := objs + [o.value];
    }
    assert docs[..|docs|] == docs;
    var errs := ValidatePlatformObjects(objs, namespaces);
    AcceptedMeans(objs, namespaces);
    r := if errs == [] then Ok(objs) else Err(errs);
  }
}
