/** What an accepted platform bundle lets anybody do on a cluster that holds other roles and
    bindings, some of which may select its roles by label. */
module BundleRbac {
  import opened Rbac
  import opened ReleaseObjects
  import opened Text

  // ---------- A bundle on a cluster ----------

  /** The bundle as the cluster stores it. An object that is created is stored as shipped; one
      that is updated keeps the labels and the aggregation rule it had. */
  predicate Stored(shipped: seq<PlatformObject>, objs: seq<PlatformObject>) {
    |objs| == |shipped| && forall i :: 0 <= i < |objs| ==> SameButLabels(shipped[i], objs[i])
  }

  predicate SameButLabels(a: PlatformObject, b: PlatformObject) {
    b == a.(content := a.content.(labels := b.content.labels, aggregates := b.content.aggregates))
  }

  /** The validator looks at neither labels nor aggregation rules, so what it says of the
      shipped bundle it says of the stored one. */
  lemma StoredIsAccepted(shipped: seq<PlatformObject>, objs: seq<PlatformObject>, namespaces: set<string>)
    requires Stored(shipped, objs)
    ensures Accepted(shipped, namespaces) <==> Accepted(objs, namespaces)
  {
    hide ContentClosed, Placed;
    forall i | 0 <= i < |objs|
      ensures ContentClosed(shipped, i, namespaces) <==> ContentClosed(objs, i, namespaces)
      ensures Placed(shipped[i], namespaces) <==> Placed(objs[i], namespaces)
    {
      assert SameButLabels(shipped[i], objs[i]);
      SamePlace(shipped[i], objs[i], namespaces);
      SameClosure(shipped, objs, i, namespaces);
    }
    assert forall i :: 0 <= i < |objs| ==> SameButLabels(shipped[i], objs[i]);
  }

  lemma SamePlace(a: PlatformObject, b: PlatformObject, namespaces: set<string>)
    requires SameButLabels(a, b)
    ensures Placed(a, namespaces) <==> Placed(b, namespaces)
  {
    hide ManagedRole, ManagedNamespace, OperatorNamespace, OperatorAccount, OwnedName;
  }

  lemma SameClosure(shipped: seq<PlatformObject>, objs: seq<PlatformObject>, i: int, namespaces: set<string>)
    requires Stored(shipped, objs) && 0 <= i < |objs|
    ensures ContentClosed(shipped, i, namespaces) <==> ContentClosed(objs, i, namespaces)
  {
    hide RbacGroup, SupportedPolicy, KindName, NarrowRules, SubjectsAccepted;
    assert SameButLabels(shipped[i], objs[i]);
    forall r | 0 <= r < |objs| ensures Resolves(shipped, i, r) <==> Resolves(objs, i, r) {
      assert SameButLabels(shipped[r], objs[r]);
    }
    hide Resolves;
  }

  /** What else the cluster holds: nothing under an identity of the bundle. */
  ghost predicate Apart(objs: seq<PlatformObject>, rest: set<PlatformObject>) {
    forall i, o :: 0 <= i < |objs| && o in rest ==> !SameIdentity(objs[i], o)
  }

  ghost function Together(objs: seq<PlatformObject>, rest: set<PlatformObject>): set<PlatformObject> {
    (set o | o in objs) + rest
  }

  // ---------- Without wildcards ----------

  /** The rule names the request's verb and group outright, and its resource outright or
      through an entry for that very subresource. */
  predicate AllowsLiterally(rule: Rule, q: Request) {
    && q.verb in rule.verbs && q.verb !in {"*", "escalate", "bind", "impersonate"}
    && match q
       case ResourceRequest(_, group, resource, subresource, name, _) =>
         && group in rule.apiGroups && group != "*"
         && (LiteralResource(rule, resource, subresource) || SubresourceEntry(rule, subresource))
         && NameMatches(rule, name)
       case PathRequest(path, _) => PathMatches(rule, path)
  }

  lemma NarrowRuleAllowsLiterally(rule: Rule, q: Request)
    requires NarrowRule(rule)
    ensures RuleAllows(rule, q) <==> AllowsLiterally(rule, q)
  {
    NarrowListMeans(Verbs, rule.verbs);
    hide LiteralResource, SubresourceEntry, NameMatches, PathMatches;
    assert NarrowList(ApiGroups, rule.apiGroups);
    assert NarrowList(Resources, rule.resources);
    assert NarrowList(Verbs, rule.verbs);
  }

  predicate PlatformAccount(caller: Caller, s: Subject, namespaces: set<string>) {
    s.namespace in namespaces && caller.userName == AccountName(s.namespace, s.name)
  }

  lemma AcceptedSubjectIsPlatformAccount(s: Subject, caller: Caller, ns: string, namespaces: set<string>)
    requires CatalogNamespaces(namespaces) && SubjectAccepted(s, namespaces)
    ensures AppliesTo(s, caller, ns) <==> PlatformAccount(caller, s, namespaces)
  {
    hide AccountName;
    assert s.kind == "ServiceAccount" && s.kind != "User" && s.kind != "Group";
  }

  // ---------- Closed ----------

  /** Every binding of an accepted bundle resolves to exactly one role, and that role is in
      the same bundle. */
  lemma BindingsResolveUniquely(objs: seq<PlatformObject>, b: int, namespaces: set<string>) returns (r: int)
    requires Accepted(objs, namespaces) && 0 <= b < |objs| && IsBinding(objs[b].kind)
    ensures 0 <= r < |objs| && Resolves(objs, b, r)
    ensures forall j :: 0 <= j < |objs| && Resolves(objs, b, j) ==> j == r
  {
    hide NamedAndPlaced, ValidRef, SubjectsAccepted, RefNamespace, KindName;
    assert ContentClosed(objs, b, namespaces);
    r :| 0 <= r < |objs| && Resolves(objs, b, r);
    forall j | 0 <= j < |objs| && Resolves(objs, b, j) ensures j == r {
      KindNamesDiffer(objs[j].kind, objs[r].kind);
      assert SameIdentity(objs[j], objs[r]) && SameIdentity(objs[r], objs[j]);
    }
  }

  // ---------- The bundle's own bindings ----------

  lemma AcceptedBinding(objs: seq<PlatformObject>, binding: PlatformObject, namespaces: set<string>)
    requires Accepted(objs, namespaces) && binding in objs && IsBinding(binding.kind)
    ensures ValidRef(binding) && SubjectsAccepted(binding.content.subjects, namespaces)
    ensures Placed(binding, namespaces)
    ensures exists role :: role in objs && ResolvesTo(binding, role)
  {
    hide ValidRef, SubjectsAccepted, Placed, Unique, ResolvesTo;
    var b :| 0 <= b < |objs| && objs[b] == binding;
    assert ContentClosed(objs, b, namespaces);
    var r :| 0 <= r < |objs| && Resolves(objs, b, r);
    assert objs[r] in objs && ResolvesTo(binding, objs[r]);
  }

  lemma AcceptedRole(objs: seq<PlatformObject>, role: PlatformObject, rule: Rule, namespaces: set<string>)
    requires Accepted(objs, namespaces) && role in objs && IsRole(role.kind) && rule in role.content.rules
    ensures NarrowRule(rule)
  {
    hide NamedAndPlaced, Unique, NarrowRule;
    var r :| 0 <= r < |objs| && objs[r] == role;
    assert ContentClosed(objs, r, namespaces);
    var k :| 0 <= k < |role.content.rules| && role.content.rules[k] == rule;
  }

  lemma AccountsOnly(objs: seq<PlatformObject>, namespaces: set<string>, binding: PlatformObject, caller: Caller)
    requires CatalogNamespaces(namespaces) && Accepted(objs, namespaces)
    requires binding in objs && IsBinding(binding.kind)
    ensures forall s :: s in binding.content.subjects ==>
              (AppliesTo(s, caller, binding.namespace) <==> PlatformAccount(caller, s, namespaces))
  {
    AcceptedBinding(objs, binding, namespaces);
    var subjects := binding.content.subjects;
    hide AppliesTo, PlatformAccount, Accepted, SubjectAccepted, ValidRef, Placed;
    forall s | s in subjects
      ensures AppliesTo(s, caller, binding.namespace) <==> PlatformAccount(caller, s, namespaces)
    {
      var i :| 0 <= i < |subjects| && subjects[i] == s;
      assert SubjectAccepted(subjects[i], namespaces);
      AcceptedSubjectIsPlatformAccount(s, caller, binding.namespace, namespaces);
    }
  }

  lemma SameRole(binding: PlatformObject, a: PlatformObject, b: PlatformObject)
    requires ResolvesTo(binding, a) && ResolvesTo(binding, b)
    ensures SameIdentity(a, b)
  {
    KindNamesDiffer(a.kind, b.kind);
    hide KindName;
  }

  /** On a cluster that holds nothing else under the bundle's identities, a bundled binding
      still resolves into the bundle. */
  lemma BindingsStayInBundle(objs: seq<PlatformObject>, rest: set<PlatformObject>, namespaces: set<string>,
                             binding: PlatformObject, role: PlatformObject)
    requires Accepted(objs, namespaces) && Apart(objs, rest) && binding in objs && IsBinding(binding.kind)
    requires role in Together(objs, rest) && ResolvesTo(binding, role)
    ensures role in objs && role !in rest
  {
    AcceptedBinding(objs, binding, namespaces);
    var own :| own in objs && ResolvesTo(binding, own);
    SameRole(binding, own, role);
    ApartFrom(objs, rest, own, role);
  }

  lemma ApartFrom(objs: seq<PlatformObject>, rest: set<PlatformObject>, own: PlatformObject, other: PlatformObject)
    requires Apart(objs, rest) && own in objs && SameIdentity(own, other)
    ensures other !in rest
  {
    var i :| 0 <= i < |objs| && objs[i] == own;
    hide SameIdentity;
  }

  lemma NotInBoth(objs: seq<PlatformObject>, rest: set<PlatformObject>, o: PlatformObject)
    requires Apart(objs, rest)
    ensures !(o in objs && o in rest)
  {
    if o in objs {
      var i :| 0 <= i < |objs| && objs[i] == o;
      assert SameIdentity(objs[i], o);
    }
  }

  /** Role bindings reach no namespace but the platform's own, with one exception: the
      operator's account, in the managed namespace, through one of two named roles. */
  lemma RoleBindingsStayInPlace(objs: seq<PlatformObject>, namespaces: set<string>, binding: PlatformObject,
                                role: PlatformObject, caller: Caller, q: Request)
    requires CatalogNamespaces(namespaces) && Accepted(objs, namespaces)
    requires binding in objs && binding.kind.RoleBinding? && Reaches(binding, role, caller, q)
    ensures q.ResourceRequest? && q.namespace == binding.namespace
    ensures q.namespace in namespaces
      || (q.namespace == ManagedNamespace()
          && caller.userName == AccountName(OperatorNamespace(), OperatorAccount())
          && role.kind.ClusterRole? && ManagedRole(role.name))
  {
    AccountsOnly(objs, namespaces, binding, caller);
    AcceptedBinding(objs, binding, namespaces);
    var s :| s in binding.content.subjects && AppliesTo(s, caller, binding.namespace);
    assert PlatformAccount(caller, s, namespaces);
    hide Accepted, AppliesTo, ManagedNamespace, OperatorNamespace, OperatorAccount;
    hide AccountName, ManagedRole, CatalogNamespaces, SubjectsAccepted, ValidRef;
    if binding.namespace !in namespaces {
      ManagedBindingParts(binding, role, namespaces);
    }
  }

  lemma ManagedBindingParts(binding: PlatformObject, role: PlatformObject, namespaces: set<string>)
    requires binding.kind.RoleBinding? && Placed(binding, namespaces) && binding.namespace !in namespaces
    requires ResolvesTo(binding, role)
    ensures binding.namespace == ManagedNamespace()
    ensures binding.content.subjects == [Subject("ServiceAccount", OperatorNamespace(), OperatorAccount())]
    ensures role.kind.ClusterRole? && ManagedRole(role.name)
  {
    hide ManagedNamespace, OperatorNamespace, OperatorAccount, ManagedRole;
    KindNamesDiffer(role.kind, ClusterRole);
  }

  // ---------- What the bundle adds to a cluster ----------

  /** The role gives the rule through the bundle: it is bundled, or a chain of selections from
      it meets a bundled role. */
  ghost predicate GivesThrough(objs: seq<PlatformObject>, rest: set<PlatformObject>, role: PlatformObject, rule: Rule, n: nat)
    decreases n
  {
    if role in objs then GivesRule(Together(objs, rest), role, rule, n)
    else n > 0 && exists other :: other in Together(objs, rest) && Selects(role, other)
                                  && GivesThrough(objs, rest, other, rule, n - 1)
  }

  /** What a bundled binding gives, or a bundled role on the way. */
  ghost predicate ThroughBundle(objs: seq<PlatformObject>, rest: set<PlatformObject>, binding: PlatformObject,
                                role: PlatformObject, rule: Rule, n: nat)
  {
    && binding in Together(objs, rest) && role in Together(objs, rest)
    && (if binding in objs then GivesRule(Together(objs, rest), role, rule, n)
        else GivesThrough(objs, rest, role, rule, n))
  }

  ghost predicate Through(objs: seq<PlatformObject>, rest: set<PlatformObject>, caller: Caller, q: Request) {
    exists binding, role, rule, n: nat ::
      ThroughBundle(objs, rest, binding, role, rule, n) && Reaches(binding, role, caller, q) && RuleAllows(rule, q)
  }

  lemma {:induction false} RuleOrigins(objs: seq<PlatformObject>, rest: set<PlatformObject>, role: PlatformObject, rule: Rule, n: nat)
    requires Apart(objs, rest) && role in rest
    ensures GivesRule(Together(objs, rest), role, rule, n)
      <==> GivesRule(rest, role, rule, n) || GivesThrough(objs, rest, role, rule, n)
    decreases n
  {
    NotInBoth(objs, rest, role);
    hide Selects, Apart;
    if n > 0 {
      forall other | other in rest
        ensures GivesRule(Together(objs, rest), other, rule, n - 1)
          <==> GivesRule(rest, other, rule, n - 1) || GivesThrough(objs, rest, other, rule, n - 1)
      {
        RuleOrigins(objs, rest, other, rule, n - 1);
      }
      assert forall other :: other in objs ==>
        (GivesThrough(objs, rest, other, rule, n - 1) <==> GivesRule(Together(objs, rest), other, rule, n - 1));
      if GivesRule(Together(objs, rest), role, rule, n) && rule !in role.content.rules {
        var other :| other in Together(objs, rest) && Selects(role, other)
          && GivesRule(Together(objs, rest), other, rule, n - 1);
        assert other in objs || other in rest;
      }
      if GivesRule(rest, role, rule, n) && rule !in role.content.rules {
        var other :| other in rest && Selects(role, other) && GivesRule(rest, other, rule, n - 1);
        assert other in Together(objs, rest);
      }
      if GivesThrough(objs, rest, role, rule, n) {
        var other :| other in Together(objs, rest) && Selects(role, other) && GivesThrough(objs, rest, other, rule, n - 1);
        assert other in objs || other in rest;
      }
    }
  }

  /** What callers can do once the bundle is applied is what they could do without it, and what
      goes through it. */
  lemma AddedIsThrough(objs: seq<PlatformObject>, rest: set<PlatformObject>, namespaces: set<string>, caller: Caller, q: Request)
    requires Accepted(objs, namespaces) && Apart(objs, rest)
    ensures Authorized(Together(objs, rest), caller, q)
      <==> Authorized(rest, caller, q) || Through(objs, rest, caller, q)
  {
    hide Accepted, Apart, GivesRule, GivesThrough, RuleAllows, AppliesTo, ResolvesTo, Visited;
    var all := Together(objs, rest);
    if Authorized(all, caller, q) {
      var binding, role, rule, n: nat :| Grants(all, binding, role, rule, n, caller, q);
      NotInBoth(objs, rest, role);
      if binding in objs || role in objs {
        BundledIsThrough(objs, rest, binding, role, rule, n);
        assert ThroughBundle(objs, rest, binding, role, rule, n);
      } else {
        RuleOrigins(objs, rest, role, rule, n);
        assert Grants(rest, binding, role, rule, n, caller, q) || ThroughBundle(objs, rest, binding, role, rule, n);
      }
    }
    if Authorized(rest, caller, q) {
      var binding, role, rule, n: nat :| Grants(rest, binding, role, rule, n, caller, q);
      RuleOrigins(objs, rest, role, rule, n);
      assert Grants(all, binding, role, rule, n, caller, q);
    }
    if Through(objs, rest, caller, q) {
      var binding, role, rule, n: nat :|
        ThroughBundle(objs, rest, binding, role, rule, n) && Reaches(binding, role, caller, q) && RuleAllows(rule, q);
      if role in rest {
        RuleOrigins(objs, rest, role, rule, n);
      } else {
        BundledIsThrough(objs, rest, binding, role, rule, n);
      }
      assert Grants(all, binding, role, rule, n, caller, q);
    }
  }

  lemma BundledIsThrough(objs: seq<PlatformObject>, rest: set<PlatformObject>, binding: PlatformObject,
                         role: PlatformObject, rule: Rule, n: nat)
    requires binding in Together(objs, rest) && role in Together(objs, rest)
    ensures role in objs ==> (GivesThrough(objs, rest, role, rule, n) <==> GivesRule(Together(objs, rest), role, rule, n))
    ensures role in objs || binding in objs ==>
      (ThroughBundle(objs, rest, binding, role, rule, n) <==> GivesRule(Together(objs, rest), role, rule, n))
  {
  }

  // ---------- Who gains ----------

  ghost predicate PlatformCaller(userName: string, namespaces: set<string>) {
    exists ns, name :: ns in namespaces && userName == AccountName(ns, name)
  }

  /** A subject that stands for somebody other than a platform account. */
  ghost predicate ForeignSubject(s: Subject, bindingNamespace: string, namespaces: set<string>) {
    var namespace := if s.namespace != "" then s.namespace else bindingNamespace;
    || s.kind == "Group"
    || (s.kind == "User" && !PlatformCaller(s.name, namespaces))
    || (s.kind == "ServiceAccount" && namespace != "" && !PlatformCaller(AccountName(namespace, s.name), namespaces))
  }

  /** The binding can give something of the rule: a resource, or outside namespaces a path. */
  predicate AllowsSomething(binding: PlatformObject, rule: Rule) {
    && rule.verbs != []
    && ((binding.kind.ClusterRoleBinding? && rule.nonResourceURLs != [])
        || (rule.apiGroups != [] && rule.resources != []
            && (binding.kind.ClusterRoleBinding? || (binding.kind.RoleBinding? && binding.namespace != ""))))
  }

  /** Somebody else is bound to a role that is bundled or aggregates a bundled one, and gets a
      rule through it that allows something. */
  ghost predicate Leaks(objs: seq<PlatformObject>, rest: set<PlatformObject>, namespaces: set<string>, binding: PlatformObject) {
    && binding in rest
    && (exists s :: s in binding.content.subjects && ForeignSubject(s, binding.namespace, namespaces))
    && exists role, rule, n: nat :: role in Together(objs, rest) && ResolvesTo(binding, role)
         && GivesThrough(objs, rest, role, rule, n) && AllowsSomething(binding, rule)
  }

  ghost predicate OnlyPlatformGains(objs: seq<PlatformObject>, rest: set<PlatformObject>, namespaces: set<string>) {
    forall caller, q :: Through(objs, rest, caller, q) ==> PlatformCaller(caller.userName, namespaces)
  }

  lemma SomeRequest(binding: PlatformObject, rule: Rule) returns (q: Request)
    requires AllowsSomething(binding, rule)
    ensures Visited(binding, q) && RuleAllows(rule, q)
  {
    hide TrimRight;
    if rule.apiGroups != [] && rule.resources != [] && (binding.kind.ClusterRoleBinding? || binding.namespace != "") {
      var name := if rule.resourceNames == [] then "" else rule.resourceNames[0];
      q := ResourceRequest(binding.namespace, rule.apiGroups[0], rule.resources[0], "", name, rule.verbs[0]);
      assert LiteralResource(rule, rule.resources[0], "") && NameMatches(rule, name);
    } else {
      q := PathRequest(rule.nonResourceURLs[0], rule.verbs[0]);
      assert rule.nonResourceURLs[0] in rule.nonResourceURLs;
    }
  }

  lemma RequestShowsRule(binding: PlatformObject, rule: Rule, q: Request)
    requires Visited(binding, q) && RuleAllows(rule, q)
    ensures AllowsSomething(binding, rule)
  {
    hide TrimRight;
  }

  lemma SomeForeigner(s: Subject, bindingNamespace: string, namespaces: set<string>) returns (caller: Caller)
    requires ForeignSubject(s, bindingNamespace, namespaces)
    ensures AppliesTo(s, caller, bindingNamespace) && !PlatformCaller(caller.userName, namespaces)
  {
    if s.kind == "Group" {
      caller := Caller("", {s.name});
    } else if s.kind == "User" {
      caller := Caller(s.name, {});
    } else {
      caller := Caller(AccountName(if s.namespace != "" then s.namespace else bindingNamespace, s.name), {});
    }
  }

  lemma ForeignerShowsSubject(s: Subject, bindingNamespace: string, namespaces: set<string>, caller: Caller)
    requires AppliesTo(s, caller, bindingNamespace) && !PlatformCaller(caller.userName, namespaces)
    ensures ForeignSubject(s, bindingNamespace, namespaces)
  {
    hide AccountName;
  }

  /** On a given cluster only platform service accounts gain anything through an accepted bundle
      exactly when no binding of somebody else names a bundled role, or a role whose aggregation
      selects one, that gives a rule allowing something. */
  lemma OnlyPlatformGainsIff(objs: seq<PlatformObject>, rest: set<PlatformObject>, namespaces: set<string>)
    requires CatalogNamespaces(namespaces) && Accepted(objs, namespaces) && Apart(objs, rest)
    ensures OnlyPlatformGains(objs, rest, namespaces) <==> forall binding :: !Leaks(objs, rest, namespaces, binding)
  {
    if binding :| Leaks(objs, rest, namespaces, binding) {
      var caller, q := LeakExample(objs, rest, namespaces, binding);
      assert !OnlyPlatformGains(objs, rest, namespaces);
    } else {
      forall caller, q | Through(objs, rest, caller, q) ensures PlatformCaller(caller.userName, namespaces) {
        GainerIsPlatform(objs, rest, namespaces, caller, q);
      }
    }
  }

  lemma LeakExample(objs: seq<PlatformObject>, rest: set<PlatformObject>, namespaces: set<string>, binding: PlatformObject)
    returns (caller: Caller, q: Request)
    requires Apart(objs, rest) && Leaks(objs, rest, namespaces, binding)
    ensures Through(objs, rest, caller, q) && !PlatformCaller(caller.userName, namespaces)
  {
    hide GivesThrough, RuleAllows, AppliesTo, Visited, ResolvesTo, ForeignSubject, AllowsSomething, PlatformCaller, Apart;
    NotInBoth(objs, rest, binding);
    var s :| s in binding.content.subjects && ForeignSubject(s, binding.namespace, namespaces);
    var role, rule, n: nat :| role in Together(objs, rest) && ResolvesTo(binding, role)
      && GivesThrough(objs, rest, role, rule, n) && AllowsSomething(binding, rule);
    caller := SomeForeigner(s, binding.namespace, namespaces);
    q := SomeRequest(binding, rule);
    assert ThroughBundle(objs, rest, binding, role, rule, n) && Reaches(binding, role, caller, q);
  }

  lemma GainerIsPlatform(objs: seq<PlatformObject>, rest: set<PlatformObject>, namespaces: set<string>, caller: Caller, q: Request)
    requires CatalogNamespaces(namespaces) && Accepted(objs, namespaces) && Apart(objs, rest)
    requires forall binding :: !Leaks(objs, rest, namespaces, binding)
    requires Through(objs, rest, caller, q)
    ensures PlatformCaller(caller.userName, namespaces)
  {
    hide GivesThrough, GivesRule, RuleAllows, AppliesTo, ResolvesTo, ForeignSubject, AllowsSomething, Accepted, Apart, CatalogNamespaces, AccountName;
    var binding, role, rule, n: nat :|
      ThroughBundle(objs, rest, binding, role, rule, n) && Reaches(binding, role, caller, q) && RuleAllows(rule, q);
    var s :| s in binding.content.subjects && AppliesTo(s, caller, binding.namespace);
    if binding in objs {
      AccountsOnly(objs, namespaces, binding, caller);
      assert PlatformAccount(caller, s, namespaces);
    } else {
      GainsOrLeaks(objs, rest, namespaces, binding, role, rule, n, s, caller, q);
    }
  }

  lemma GainsOrLeaks(objs: seq<PlatformObject>, rest: set<PlatformObject>, namespaces: set<string>, binding: PlatformObject,
                     role: PlatformObject, rule: Rule, n: nat, s: Subject, caller: Caller, q: Request)
    requires binding in rest && role in Together(objs, rest) && GivesThrough(objs, rest, role, rule, n)
    requires Reaches(binding, role, caller, q) && RuleAllows(rule, q)
    requires s in binding.content.subjects && AppliesTo(s, caller, binding.namespace)
    ensures PlatformCaller(caller.userName, namespaces) || Leaks(objs, rest, namespaces, binding)
  {
    hide GivesThrough, RuleAllows, AppliesTo, ResolvesTo, ForeignSubject, AllowsSomething, PlatformCaller;
    RequestShowsRule(binding, rule, q);
    if !PlatformCaller(caller.userName, namespaces) {
      ForeignerShowsSubject(s, binding.namespace, namespaces, caller);
    }
  }

  // ---------- What is gained ----------

  /** The bundle read on its own and without wildcards, for platform accounts only. */
  predicate GrantsLiterally(objs: seq<PlatformObject>, namespaces: set<string>, binding: PlatformObject, role: PlatformObject,
                            rule: Rule, caller: Caller, q: Request)
  {
    && binding in objs && role in objs && rule in role.content.rules
    && Visited(binding, q)
    && (exists s :: s in binding.content.subjects && PlatformAccount(caller, s, namespaces))
    && ResolvesTo(binding, role)
    && AllowsLiterally(rule, q)
  }

  ghost predicate AuthorizedLiterally(objs: seq<PlatformObject>, namespaces: set<string>, caller: Caller, q: Request) {
    exists binding, role, rule :: GrantsLiterally(objs, namespaces, binding, role, rule, caller, q)
  }

  /** No binding of the bundle gives out a cluster role that aggregates others. */
  predicate NoBoundAggregate(objs: seq<PlatformObject>) {
    forall binding, role :: binding in objs && role in objs && IsBinding(binding.kind) && ResolvesTo(binding, role) ==>
      !Aggregates(role)
  }

  predicate NoAggregate(objs: seq<PlatformObject>) { forall role :: role in objs ==> !Aggregates(role) }

  /** No other binding names a bundled role or one that aggregates it. */
  ghost predicate Detached(objs: seq<PlatformObject>, rest: set<PlatformObject>) {
    forall binding, role, rule, n: nat :: binding in rest && role in Together(objs, rest) && ResolvesTo(binding, role) ==>
      !GivesThrough(objs, rest, role, rule, n)
  }

  lemma PlainRoleRules(cluster: set<PlatformObject>, role: PlatformObject, rule: Rule, n: nat)
    requires !Aggregates(role)
    ensures GivesRule(cluster, role, rule, n) <==> rule in role.content.rules
  {
  }

  /** On a detached cluster a bundle whose bindings give out no aggregating role adds exactly
      what it says literally. */
  lemma PlainBundleIsNarrow(objs: seq<PlatformObject>, rest: set<PlatformObject>, namespaces: set<string>,
                            caller: Caller, q: Request)
    requires CatalogNamespaces(namespaces) && Accepted(objs, namespaces) && Apart(objs, rest)
    requires NoBoundAggregate(objs) && Detached(objs, rest)
    ensures Through(objs, rest, caller, q) <==> AuthorizedLiterally(objs, namespaces, caller, q)
  {
    hide GivesThrough, GivesRule, RuleAllows, AllowsLiterally, AppliesTo, PlatformAccount, ResolvesTo, Accepted, Apart, Aggregates;
    hide CatalogNamespaces, NarrowRule;
    if Through(objs, rest, caller, q) {
      var binding, role, rule, n: nat :|
        ThroughBundle(objs, rest, binding, role, rule, n) && Reaches(binding, role, caller, q) && RuleAllows(rule, q);
      assert binding in objs;
      BindingsStayInBundle(objs, rest, namespaces, binding, role);
      PlainRoleRules(Together(objs, rest), role, rule, n);
      LiteralGrant(objs, namespaces, binding, role, rule, caller, q);
    }
    if AuthorizedLiterally(objs, namespaces, caller, q) {
      var binding, role, rule :| GrantsLiterally(objs, namespaces, binding, role, rule, caller, q);
      PlainRoleRules(Together(objs, rest), role, rule, 0);
      LiteralGrant(objs, namespaces, binding, role, rule, caller, q);
      assert ThroughBundle(objs, rest, binding, role, rule, 0);
    }
  }

  lemma ResolvedIsRole(binding: PlatformObject, role: PlatformObject)
    requires ResolvesTo(binding, role)
    ensures IsRole(role.kind)
  {
  }

  lemma LiteralGrant(objs: seq<PlatformObject>, namespaces: set<string>, binding: PlatformObject, role: PlatformObject,
                     rule: Rule, caller: Caller, q: Request)
    requires CatalogNamespaces(namespaces) && Accepted(objs, namespaces)
    requires binding in objs && role in objs && rule in role.content.rules && ResolvesTo(binding, role) && Visited(binding, q)
    ensures Reaches(binding, role, caller, q) && RuleAllows(rule, q)
      <==> GrantsLiterally(objs, namespaces, binding, role, rule, caller, q)
  {
    hide RuleAllows, AllowsLiterally, AppliesTo, PlatformAccount, ResolvesTo, Accepted, CatalogNamespaces, NarrowRule;
    AccountsOnly(objs, namespaces, binding, caller);
    ResolvedIsRole(binding, role);
    AcceptedRole(objs, role, rule, namespaces);
    NarrowRuleAllowsLiterally(rule, q);
  }

  function AnyRule(): Rule { Rule(["*"], ["*"], ["*"], [], []) }

  lemma AnyRuleAllows(q: Request)
    requires q.ResourceRequest?
    ensures RuleAllows(AnyRule(), q)
  {
  }

  /** A cluster role of the cluster that allows everything and carries the given labels. */
  function WildRole(labels: map<string, string>): PlatformObject {
    PlatformObject(ClusterRole, "", "wild",
      Content([AnyRule()], RoleRef("", "", ""), [], Policy("", false, false, false, []), labels, []))
  }

  /** A binding of everybody in a group to the named cluster role. */
  function GroupBinding(role: string): PlatformObject {
    PlatformObject(ClusterRoleBinding, "", "wild",
      Content([], RoleRef(RbacGroup(), "ClusterRole", role), [Subject("Group", "", "g")],
              Policy("", false, false, false, []), map[], []))
  }

  lemma WildIsApart(objs: seq<PlatformObject>, namespaces: set<string>, labels: map<string, string>, role: string)
    requires Accepted(objs, namespaces)
    ensures Apart(objs, {WildRole(labels), GroupBinding(role)}) && Apart(objs, {WildRole(labels)})
  {
    hide ContentClosed, Unique, RbacGroup, AnyRule, ManagedOperatorBinding;
    assert "wild"[0] != "mcp-"[0];
    forall i | 0 <= i < |objs| ensures ClusterScoped(objs[i].kind) ==> objs[i].name != "wild" {
      assert Placed(objs[i], namespaces);
    }
  }

  /** An aggregating bundled role takes over the wild role with the labels it selects. */
  lemma TakesWildRule(objs: seq<PlatformObject>, rest: set<PlatformObject>, role: PlatformObject)
    requires role in objs && Aggregates(role) && WildRole(role.content.aggregates[0]) in rest && Apart(objs, rest)
    ensures GivesRule(Together(objs, rest), role, AnyRule(), 1)
  {
    var wild := WildRole(role.content.aggregates[0]);
    NotInBoth(objs, rest, wild);
    hide AnyRule, Apart;
    assert SelectsLabels(role.content.aggregates[0], wild.content.labels);
    assert Selects(role, wild) && wild in Together(objs, rest);
    assert GivesRule(Together(objs, rest), wild, AnyRule(), 0);
  }

  ghost predicate NarrowWhenDetached(objs: seq<PlatformObject>, namespaces: set<string>) {
    forall rest, caller, q :: Apart(objs, rest) && Detached(objs, rest) ==>
      (Through(objs, rest, caller, q) <==> AuthorizedLiterally(objs, namespaces, caller, q))
  }

  lemma LiteralNeverEscalates(objs: seq<PlatformObject>, namespaces: set<string>, caller: Caller, q: Request)
    ensures AuthorizedLiterally(objs, namespaces, caller, q) ==> q.verb !in {"*", "escalate", "bind", "impersonate"}
  {
    hide Visited, ResolvesTo, PlatformAccount, LiteralResource, SubresourceEntry, NameMatches, PathMatches;
  }

  /** A bound aggregating role lets its account escalate on a cluster that nobody else's binding
      ties to the bundle. */
  lemma BoundAggregateEscalates(objs: seq<PlatformObject>, namespaces: set<string>, binding: PlatformObject, role: PlatformObject)
    returns (rest: set<PlatformObject>, caller: Caller, q: Request)
    requires CatalogNamespaces(namespaces) && Accepted(objs, namespaces)
    requires binding in objs && role in objs && IsBinding(binding.kind) && ResolvesTo(binding, role) && Aggregates(role)
    ensures Apart(objs, rest) && Detached(objs, rest) && q.verb == "escalate" && Through(objs, rest, caller, q)
  {
    AcceptedBinding(objs, binding, namespaces);
    PlacedNamespace(binding, namespaces);
    var labels := role.content.aggregates[0];
    rest := {WildRole(labels)};
    WildIsApart(objs, namespaces, labels, "");
    TakesWildRule(objs, rest, role);
    var subject := binding.content.subjects[0];
    assert SubjectAccepted(subject, namespaces);
    caller := Caller(AccountName(subject.namespace, subject.name), {});
    q := ResourceRequest(binding.namespace, "", "secrets", "", "", "escalate");
    AnyRuleAllows(q);
    AcceptedSubjectIsPlatformAccount(subject, caller, binding.namespace, namespaces);
    WildIsNoBinding(objs, rest, labels);
    hide Accepted, Apart, AppliesTo, ResolvesTo, RuleAllows, AnyRule, AccountName, Placed, ValidRef, GivesRule, WildRole;
    assert Reaches(binding, role, caller, q);
    assert ThroughBundle(objs, rest, binding, role, AnyRule(), 1);
  }

  lemma WildIsNoBinding(objs: seq<PlatformObject>, rest: set<PlatformObject>, labels: map<string, string>)
    requires rest == {WildRole(labels)}
    ensures Detached(objs, rest)
  {
    hide AnyRule, GivesThrough;
    assert forall role :: !ResolvesTo(WildRole(labels), role);
  }

  /** On every detached cluster an accepted bundle adds exactly its literal permissions, to
      platform accounts, if and only if no binding of it gives out an aggregating role. */
  lemma NarrowWhenDetachedIff(objs: seq<PlatformObject>, namespaces: set<string>)
    requires CatalogNamespaces(namespaces) && Accepted(objs, namespaces)
    ensures NarrowWhenDetached(objs, namespaces) <==> NoBoundAggregate(objs)
  {
    hide Through, AuthorizedLiterally, Accepted, CatalogNamespaces, ResolvesTo, Aggregates, Apart, Detached;
    if NoBoundAggregate(objs) {
      forall rest, caller, q | Apart(objs, rest) && Detached(objs, rest)
        ensures Through(objs, rest, caller, q) <==> AuthorizedLiterally(objs, namespaces, caller, q)
      {
        PlainBundleIsNarrow(objs, rest, namespaces, caller, q);
      }
    } else {
      var binding, role :| binding in objs && role in objs && IsBinding(binding.kind) && ResolvesTo(binding, role) && Aggregates(role);
      var rest, caller, q := BoundAggregateEscalates(objs, namespaces, binding, role);
      LiteralNeverEscalates(objs, namespaces, caller, q);
    }
  }

  lemma {:induction false} ThroughEndsInBundle(objs: seq<PlatformObject>, rest: set<PlatformObject>, role: PlatformObject,
                                               rule: Rule, n: nat) returns (own: PlatformObject)
    requires NoAggregate(objs) && GivesThrough(objs, rest, role, rule, n) && (role in objs ==> IsRole(role.kind))
    ensures own in objs && IsRole(own.kind) && rule in own.content.rules
    decreases n
  {
    if role in objs {
      PlainRoleRules(Together(objs, rest), role, rule, n);
      own := role;
    } else {
      var other :| other in Together(objs, rest) && Selects(role, other) && GivesThrough(objs, rest, other, rule, n - 1);
      own := ThroughEndsInBundle(objs, rest, other, rule, n - 1);
    }
  }

  lemma PlainBundleNeverEscalates(objs: seq<PlatformObject>, rest: set<PlatformObject>, namespaces: set<string>,
                                  caller: Caller, q: Request)
    requires Accepted(objs, namespaces) && Apart(objs, rest) && NoAggregate(objs) && Through(objs, rest, caller, q)
    ensures q.verb !in {"*", "escalate", "bind", "impersonate"}
  {
    hide GivesThrough, GivesRule, RuleAllows, AppliesTo, ResolvesTo, Accepted, Apart, Aggregates, NarrowRule;
    var binding, role, rule, n: nat :|
      ThroughBundle(objs, rest, binding, role, rule, n) && Reaches(binding, role, caller, q) && RuleAllows(rule, q);
    ResolvedIsRole(binding, role);
    if binding in objs {
      VisitedIsBinding(binding, q);
      BindingsStayInBundle(objs, rest, namespaces, binding, role);
      BundledIsThrough(objs, rest, binding, role, rule, n);
    }
    var own := ThroughEndsInBundle(objs, rest, role, rule, n);
    AcceptedRole(objs, own, rule, namespaces);
    NarrowVerb(rule, q);
  }

  lemma VisitedIsBinding(binding: PlatformObject, q: Request)
    requires Visited(binding, q)
    ensures IsBinding(binding.kind)
  {
  }

  lemma NarrowVerb(rule: Rule, q: Request)
    requires NarrowRule(rule) && RuleAllows(rule, q)
    ensures q.verb !in {"*", "escalate", "bind", "impersonate"}
  {
    NarrowRuleAllowsLiterally(rule, q);
    hide NarrowRule, RuleAllows;
  }

  /** With an aggregating role, bound by the bundle or not, some cluster lets a whole group use
      any verb through it. */
  lemma AggregateEscalates(objs: seq<PlatformObject>, namespaces: set<string>, role: PlatformObject, verb: string)
    returns (rest: set<PlatformObject>, caller: Caller, q: Request)
    requires Accepted(objs, namespaces) && role in objs && Aggregates(role)
    ensures Apart(objs, rest) && q.verb == verb && Through(objs, rest, caller, q)
  {
    var labels := role.content.aggregates[0];
    var binding := GroupBinding(role.name);
    rest := {WildRole(labels), binding};
    WildIsApart(objs, namespaces, labels, role.name);
    TakesWildRule(objs, rest, role);
    NotInBoth(objs, rest, binding);
    caller := Caller("", {"g"});
    q := ResourceRequest("", "", "secrets", "", "", verb);
    AnyRuleAllows(q);
    GroupReaches(objs, role, caller, q, namespaces);
    hide Accepted, Apart, ResolvesTo, RuleAllows, AnyRule, GivesRule, WildRole, GroupBinding, Reaches;
    assert binding in rest && ThroughBundle(objs, rest, binding, role, AnyRule(), 1);
  }

  lemma GroupReaches(objs: seq<PlatformObject>, role: PlatformObject, caller: Caller, q: Request, namespaces: set<string>)
    requires Accepted(objs, namespaces) && role in objs && role.kind.ClusterRole? && "g" in caller.groups
    ensures Reaches(GroupBinding(role.name), role, caller, q)
  {
    hide ContentClosed, Unique, RbacGroup, OwnedName, ManagedOperatorBinding, AccountName;
    var i :| 0 <= i < |objs| && objs[i] == role;
    assert Placed(objs[i], namespaces);
    var binding := GroupBinding(role.name);
    assert binding.content.subjects[0] in binding.content.subjects;
    assert AppliesTo(binding.content.subjects[0], caller, "");
  }

  /** On every cluster nobody escalates, binds or impersonates through an accepted bundle, if
      and only if no cluster role of it aggregates: for each of those verbs, and for the request
      of all verbs. */
  lemma NobodyEscalatesIff(objs: seq<PlatformObject>, namespaces: set<string>, verb: string)
    requires CatalogNamespaces(namespaces) && Accepted(objs, namespaces)
    requires verb in {"escalate", "bind", "impersonate", "*"}
    ensures (forall rest, caller, q :: Apart(objs, rest) && Through(objs, rest, caller, q) ==> q.verb != verb) <==>
            forall role :: role in objs && role.kind.ClusterRole? ==> role.content.aggregates == []
  {
    assert NoAggregate(objs) <==> forall role :: role in objs && role.kind.ClusterRole? ==> role.content.aggregates == [];
    hide Through, Accepted, CatalogNamespaces, Aggregates, Apart;
    if NoAggregate(objs) {
      forall rest, caller, q | Apart(objs, rest) && Through(objs, rest, caller, q)
        ensures q.verb !in {"*", "escalate", "bind", "impersonate"}
      {
        PlainBundleNeverEscalates(objs, rest, namespaces, caller, q);
      }
    } else {
      var role :| role in objs && Aggregates(role);
      var rest, caller, q := AggregateEscalates(objs, namespaces, role, verb);
    }
  }

  // ---------- The one wildcard that passes ----------

  function Longest(names: seq<string>): (n: nat)
    ensures forall x :: x in names ==> |x| <= n
  {
    if names == [] then 0
    else
      var rest := Longest(names[1..]);
      assert forall x :: x in names ==> x == names[0] || x in names[1..];
      if |names[0]| > rest then |names[0]| else rest
  }

  ghost predicate NamesEveryResource(rule: Rule) {
    forall q: Request :: q.ResourceRequest? && RuleAllows(rule, q) ==>
      LiteralResource(rule, q.resource, q.subresource)
  }

  ghost predicate NoSubresourceEntry(rule: Rule) {
    forall sub :: !SubresourceEntry(rule, sub)
  }

  // The validator compares list entries with "*" alone, so an entry such as "*/status"
  // passes: a rule that can allow anything names every resource it allows exactly when it
  // holds no entry of that shape.
  lemma NamesEveryResourceIff(rule: Rule)
    requires NarrowRule(rule) && rule.verbs != [] && rule.apiGroups != []
    ensures NamesEveryResource(rule) <==> NoSubresourceEntry(rule)
  {
    hide LiteralResource, SubresourceEntry, NameMatches, PathMatches;
    assert NarrowList(Resources, rule.resources);
    if sub :| SubresourceEntry(rule, sub) {
      var q := StrayRequest(rule, sub);
      assert !NamesEveryResource(rule);
    }
  }

  /** A request for a resource longer than any entry of the rule. */
  lemma StrayRequest(rule: Rule, sub: string) returns (q: Request)
    requires NarrowRule(rule) && rule.verbs != [] && rule.apiGroups != []
    requires SubresourceEntry(rule, sub)
    ensures q.ResourceRequest? && RuleAllows(rule, q)
    ensures !LiteralResource(rule, q.resource, q.subresource)
  {
    var n := Longest(rule.resources) + 1;
    var resource := seq(n, i => 'r');
    var name := if rule.resourceNames == [] then "" else rule.resourceNames[0];
    q := ResourceRequest("", rule.apiGroups[0], resource, sub, name, rule.verbs[0]);
    assert |Combined(resource, sub)| >= n;
    assert NameMatches(rule, name);
  }

  // ---------- Concrete bundles ----------

  function NoPolicy(): Policy { Policy("", false, false, false, []) }

  /** A cluster role bound to one platform account, everywhere. */
  function BoundRole(rules: seq<Rule>, labels: map<string, string>, aggregates: seq<map<string, string>>): seq<PlatformObject> {
    [ PlatformObject(ClusterRole, "", "mcp-a", Content(rules, RoleRef("", "", ""), [], NoPolicy(), labels, aggregates)),
      PlatformObject(ClusterRoleBinding, "", "mcp-b",
        Content([], RoleRef(RbacGroup(), "ClusterRole", "mcp-a"), [Subject("ServiceAccount", "p", "x")], NoPolicy(), map[], [])) ]
  }

  lemma BoundRoleResolves(rules: seq<Rule>, labels: map<string, string>, aggregates: seq<map<string, string>>)
    ensures var objs := BoundRole(rules, labels, aggregates); Resolves(objs, 1, 0) && ResolvesTo(objs[1], objs[0])
  {
    hide RbacGroup;
  }

  lemma BoundRoleClosed(rules: seq<Rule>, labels: map<string, string>, aggregates: seq<map<string, string>>)
    requires NarrowRules(rules)
    ensures var objs := BoundRole(rules, labels, aggregates);
            ContentClosed(objs, 0, {"p"}) && ContentClosed(objs, 1, {"p"})
  {
    var objs := BoundRole(rules, labels, aggregates);
    BoundRoleResolves(rules, labels, aggregates);
    hide RbacGroup, PolicyAccepted, NarrowRules, Resolves;
    assert SubjectAccepted(objs[1].content.subjects[0], {"p"});
  }

  lemma BoundRoleAccepted(rules: seq<Rule>, labels: map<string, string>, aggregates: seq<map<string, string>>)
    requires NarrowRules(rules)
    ensures CatalogNamespaces({"p"}) && Accepted(BoundRole(rules, labels, aggregates), {"p"})
  {
    var objs := BoundRole(rules, labels, aggregates);
    BoundRoleClosed(rules, labels, aggregates);
    hide RbacGroup, ManagedOperatorBinding, ContentClosed, KindName, NarrowRules;
    assert NamedAndPlaced(objs, {"p"}) by {
      assert Placed(objs[0], {"p"}) && Placed(objs[1], {"p"});
    }
    assert Unique(objs);
  }

  function Reads(resource: string): Rule { Rule([""], [resource], ["get"], [], []) }

  lemma ReadsIsNarrow(resource: string)
    requires resource != "*"
    ensures NarrowRules([Reads(resource)])
  {
    assert NarrowRule(Reads(resource));
  }

  /** An accepted bundle whose account reads the status of every resource of a group. */
  lemma StatusOfEveryResource(namespace: string, resource: string, name: string)
    ensures var objs := BoundRole([Reads("*/status")], map[], []);
            && Accepted(objs, {"p"})
            && Through(objs, {}, Caller(AccountName("p", "x"), {}), ResourceRequest(namespace, "", resource, "status", name, "get"))
  {
    var rule := Reads("*/status");
    var objs := BoundRole([rule], map[], []);
    var caller := Caller(AccountName("p", "x"), {});
    var q := ResourceRequest(namespace, "", resource, "status", name, "get");
    ReadsIsNarrow("*/status");
    BoundRoleAccepted([rule], map[], []);
    BoundRoleResolves([rule], map[], []);
    assert RuleAllows(rule, q) by {
      assert AnySubresource("status") == "*/status";
      assert SubresourceEntry(rule, "status");
    }
    hide RbacGroup, AccountName, Accepted, CatalogNamespaces, RuleAllows, Resolves, ResolvesTo;
    assert objs[0] in objs && objs[1] in objs;
    assert AppliesTo(objs[1].content.subjects[0], caller, "");
    assert Reaches(objs[1], objs[0], caller, q);
    assert GivesRule(Together(objs, {}), objs[0], rule, 0);
    assert ThroughBundle(objs, {}, objs[1], objs[0], rule, 0);
  }

  /** An accepted bundle whose account escalates, on a cluster that keeps a role allowing
      everything under the selected label. */
  lemma AggregatingBundleEscalates() returns (rest: set<PlatformObject>, caller: Caller, q: Request)
    ensures var objs := BoundRole([], map[], [map["rbac" := "admin"]]);
            Accepted(objs, {"p"}) && q.verb == "escalate" && Through(objs, rest, caller, q)
  {
    var objs := BoundRole([], map[], [map["rbac" := "admin"]]);
    BoundRoleAccepted([], map[], [map["rbac" := "admin"]]);
    BoundRoleResolves([], map[], [map["rbac" := "admin"]]);
    hide Accepted, CatalogNamespaces, Resolves, ResolvesTo, RbacGroup;
    assert objs[0] in objs && objs[1] in objs;
    rest, caller, q := BoundAggregateEscalates(objs, {"p"}, objs[1], objs[0]);
  }

  /** The role `view` of a cluster, which aggregates by a key, and somebody bound to it. */
  function ViewRole(key: string): PlatformObject {
    PlatformObject(ClusterRole, "", "view", Content([], RoleRef("", "", ""), [], NoPolicy(), map[], [map[key := "true"]]))
  }

  function ViewBinding(user: string): PlatformObject {
    PlatformObject(ClusterRoleBinding, "", "viewers",
      Content([], RoleRef(RbacGroup(), "ClusterRole", "view"), [Subject("User", "", user)], NoPolicy(), map[], []))
  }

  /** An accepted bundle without any aggregation whose labelled role is picked up by a role of
      the cluster: a user bound to that one may read secrets, and could not before. */
  lemma LabelledRoleLeaks(key: string, user: string, namespace: string)
    ensures var objs := BoundRole([Reads("secrets")], map[key := "true"], []);
            var rest := {ViewRole(key), ViewBinding(user)};
            var caller, q := Caller(user, {}), ResourceRequest(namespace, "", "secrets", "", "", "get");
            && Accepted(objs, {"p"}) && NoAggregate(objs) && Apart(objs, rest)
            && !Authorized(rest, caller, q) && Through(objs, rest, caller, q)
  {
    var rule := Reads("secrets");
    var objs := BoundRole([rule], map[key := "true"], []);
    var view, viewers := ViewRole(key), ViewBinding(user);
    var rest := {view, viewers};
    var caller, q := Caller(user, {}), ResourceRequest(namespace, "", "secrets", "", "", "get");
    ReadsIsNarrow("secrets");
    BoundRoleAccepted([rule], map[key := "true"], []);
    ViewReaches(key, user, caller, q);
    ViewIsApart(objs, rest, [rule], key, user);
    ViewGivesNothing(rest, key, user, caller, q);
    assert RuleAllows(rule, q) by {
      assert LiteralResource(rule, "secrets", "");
    }
    hide RbacGroup, Accepted, CatalogNamespaces, RuleAllows, Reaches, ViewBinding, Authorized, Apart;
    assert objs[0] in objs && view in Together(objs, rest);
    assert SelectsLabels(view.content.aggregates[0], objs[0].content.labels);
    assert Selects(view, objs[0]);
    assert GivesRule(Together(objs, rest), objs[0], rule, 0) && GivesThrough(objs, rest, objs[0], rule, 0);
    NotInBoth(objs, rest, view);
    NotInBoth(objs, rest, viewers);
    assert GivesThrough(objs, rest, view, rule, 1);
    assert ThroughBundle(objs, rest, viewers, view, rule, 1);
  }

  lemma ViewReaches(key: string, user: string, caller: Caller, q: Request)
    requires caller == Caller(user, {})
    ensures Reaches(ViewBinding(user), ViewRole(key), caller, q)
  {
    hide RbacGroup;
    var binding := ViewBinding(user);
    assert binding.content.subjects[0] in binding.content.subjects;
    assert AppliesTo(binding.content.subjects[0], caller, "");
  }

  lemma ViewIsApart(objs: seq<PlatformObject>, rest: set<PlatformObject>, rules: seq<Rule>, key: string, user: string)
    requires objs == BoundRole(rules, map[key := "true"], []) && rest == {ViewRole(key), ViewBinding(user)}
    ensures Apart(objs, rest)
  {
    hide RbacGroup, NoPolicy;
    assert "view"[0] == 'v' && "viewers"[0] == 'v' && "mcp-a"[0] == 'm' && "mcp-b"[0] == 'm';
  }

  lemma ViewGivesNothing(rest: set<PlatformObject>, key: string, user: string, caller: Caller, q: Request)
    requires rest == {ViewRole(key), ViewBinding(user)}
    ensures !Authorized(rest, caller, q)
  {
    hide Reaches, RuleAllows, RbacGroup;
    forall role, rule, n: nat | role in rest ensures !GivesRule(rest, role, rule, n) {
    }
  }
}
