/** The adapter daemon's profile store, router and the operations that hold `profilesMu`
    (internal/adapterd/daemon.go, store.go, router.go). Times are numbers; 0 is the zero time. */
module AdapterDaemon {
  import opened Text
  import opened Wrappers
  import opened ProfileSlugs

  datatype AuthState = Enrolled | SignInRequired | RenewalFailed | NotEnrolled

  datatype Profile = Profile(
    id: string, slug: string, server: string, ns: string, team: string, agent: string,
    platformURL: string, runtimeURL: string, human: string,
    session: string, sessionExpires: nat, trustDomain: string,
    createdAt: nat, certExpires: nat, authState: AuthState, oauthRequired: Option<bool>,
    lastError: string, renewalError: string)

  datatype Material = Material(
    certPEM: string, keyPEM: string, ca: string, expires: nat, platformURL: string, human: string, team: string,
    session: string, sessionExpires: nat, trustDomain: string, ns: string, oauthRequired: Option<bool>)

  datatype Route = Route(profile: Profile, token: string, enrolled: bool)

  // ---------- Store ----------

  function IndexOfId(items: seq<Profile>, id: string): (i: nat)
    ensures i <= |items|
    ensures i < |items| ==> items[i].id == id
    ensures forall j :: 0 <= j < i ==> items[j].id != id
  {
    if items == [] || items[0].id == id then 0 else 1 + IndexOfId(items[1..], id)
  }

  function PutIn(items: seq<Profile>, p: Profile): seq<Profile> {
    var i := IndexOfId(items, p.id);
    if i < |items| then items[i := p] else items + [p]
  }

  function Without(items: seq<Profile>, id: string): seq<Profile> {
    if items == [] then []
    else Without(items[..|items| - 1], id) + if items[|items| - 1].id != id then [items[|items| - 1]] else []
  }

  /** The calls that can fail, each taking its turn from a schedule. */
  class Faults {
    var turns: seq<bool>

    constructor (turns: seq<bool>)
      ensures this.turns == turns
    {
      this.turns := turns;
    }

    predicate NoFaults()
      reads this
    {
      forall i :: 0 <= i < |turns| ==> !turns[i]
    }

    method Next() returns (fails: bool)
      modifies this
      ensures old(NoFaults()) ==> !fails && NoFaults()
    {
      if turns == [] {
        return false;
      }
      fails := turns[0];
      turns := turns[1..];
    }
  }

  /** `profiles.json`; a failed save leaves the file as it was. */
  class Store {
    var items: seq<Profile>

    constructor (items: seq<Profile>)
      ensures this.items == items
    {
      this.items := items;
    }

    method Put(p: Profile, fails: bool) returns (ok: bool)
      modifies this
      ensures ok == !fails
      ensures items == if ok then PutIn(old(items), p) else old(items)
      ensures ok && (forall q :: q in old(items) ==> q.id != p.id) ==> items == old(items) + [p]
      ensures ok && (exists q :: q in old(items) && q.id == p.id) ==>
                exists i :: 0 <= i < |old(items)| && old(items)[i].id == p.id && items == old(items)[i := p]
                            && forall j :: 0 <= j < i ==> old(items)[j].id != p.id
    {
      var loaded := items;
      var replaced := false;
      for i := 0 to |loaded|
        invariant !replaced && loaded == items
        invariant forall j :: 0 <= j < i ==> loaded[j].id != p.id
      {
        if loaded[i].id == p.id {
          assert IndexOfId(loaded, p.id) == i;
          loaded := loaded[i := p];
          replaced := true;
          break;
        }
      }
      if !replaced {
        loaded := loaded + [p];
      }
      if fails {
        return false;
      }
      items := loaded;
      return true;
    }

    method Delete(id: string, fails: bool) returns (ok: bool)
      modifies this
      ensures ok == !fails
      ensures items == if ok then Without(old(items), id) else old(items)
    {
      var loaded := new Profile[|items|](i requires 0 <= i < |items| reads this => items[i]);
      assert loaded[..] == items;
      var n := DropId(loaded, id);
      if fails {
        return false;
      }
      items := loaded[..n];
      return true;
    }
  }

  /** The filter of `Store.Delete`, which overwrites the slice it reads. */
  method DropId(items: array<Profile>, id: string) returns (n: nat)
    modifies items
    ensures n <= items.Length
    ensures items[..n] == Without(old(items[..]), id)
  {
    ghost var before := items[..];
    n := 0;
    for i := 0 to items.Length
      invariant n <= i
      invariant items[..n] == Without(before[..i], id)
      invariant forall j :: i <= j < items.Length ==> items[j] == before[j]
    {
      assert before[..i + 1][..i] == before[..i];
      if items[i].id != id {
        items[n] := items[i];
        n := n + 1;
      }
    }
    assert before[..items.Length] == before;
  }

  // ---------- Router ----------

  class Router {
    var routes: map<string, Route>

    constructor ()
      ensures routes == map[]
    {
      routes := map[];
    }

    method Set(route: Route)
      modifies this
      ensures routes == old(routes)[route.profile.slug := route]
    {
      routes := routes[route.profile.slug := route];
    }

    method Delete(slug: string)
      modifies this
      ensures routes == old(routes) - {slug}
    {
      routes := routes - {slug};
    }

    /** The route that serves a request path, if any. */
    function RouteFor(path: string): Option<Route>
      reads this
    {
      var split := SplitProfilePath(path);
      if split.Some? && split.value.0 in routes then Some(routes[split.value.0]) else None
    }
  }

  // ---------- Agreement of store and router ----------

  ghost predicate DistinctIds(items: seq<Profile>) { forall i, j :: 0 <= i < j < |items| ==> items[i].id != items[j].id }

  ghost predicate DistinctSlugs(items: seq<Profile>) { forall i, j :: 0 <= i < j < |items| ==> items[i].slug != items[j].slug }

  ghost predicate RouteOfStored(items: seq<Profile>, slug: string, route: Route) {
    route.profile.slug == slug && exists i :: 0 <= i < |items| && items[i].slug == slug && items[i].id == route.profile.id
  }

  /** IDs and slugs are pairwise distinct, every slug is a routable segment, and every mounted
      route carries the slug and ID of one stored profile. */
  ghost predicate Agree(items: seq<Profile>, routes: map<string, Route>) {
    && DistinctIds(items) && DistinctSlugs(items)
    && (forall i :: 0 <= i < |items| ==> SlugText(items[i].slug))
    && forall s :: s in routes ==> RouteOfStored(items, s, routes[s])
  }

  /** The same profiles under the same names, in the same order. */
  ghost predicate SameNames(items: seq<Profile>, items': seq<Profile>) {
    |items| == |items'| && forall i :: 0 <= i < |items| ==> items'[i].id == items[i].id && items'[i].slug == items[i].slug
  }

  lemma AgreeKept(items: seq<Profile>, items': seq<Profile>, routes: map<string, Route>)
    requires Agree(items, routes) && SameNames(items, items')
    ensures Agree(items', routes)
  {
    hide SlugText;
    forall s | s in routes ensures RouteOfStored(items', s, routes[s]) {
      var i :| 0 <= i < |items| && items[i].slug == s && items[i].id == routes[s].profile.id;
      assert items'[i].slug == s;
    }
  }

  lemma IdsDistinct(items: seq<Profile>, routes: map<string, Route>)
    requires Agree(items, routes)
    ensures DistinctIds(items) && DistinctSlugs(items)
  {
    hide SlugText;
  }

  lemma NamesKept(items: seq<Profile>)
    ensures SameNames(items, items)
  {
  }

  lemma PutKeepsNames(items: seq<Profile>, i: nat, p: Profile)
    requires DistinctIds(items) && i < |items| && items[i].id == p.id && items[i].slug == p.slug
    ensures PutIn(items, p) == items[i := p] && SameNames(items, PutIn(items, p))
  {
    assert IndexOfId(items, p.id) == i;
  }

  lemma MountKeepsAgreement(items: seq<Profile>, routes: map<string, Route>, i: nat, route: Route)
    requires Agree(items, routes) && i < |items|
    requires items[i].id == route.profile.id && items[i].slug == route.profile.slug
    ensures Agree(items, routes[route.profile.slug := route])
  {
    hide SlugText;
  }

  lemma AddKeepsAgreement(items: seq<Profile>, routes: map<string, Route>, p: Profile)
    requires Agree(items, routes) && SlugText(p.slug)
    requires forall i :: 0 <= i < |items| ==> items[i].id != p.id && items[i].slug != p.slug
    ensures PutIn(items, p) == items + [p] && Agree(items + [p], routes)
  {
    hide SlugText;
    forall s | s in routes ensures RouteOfStored(items + [p], s, routes[s]) {
      var i :| 0 <= i < |items| && items[i].slug == s && items[i].id == routes[s].profile.id;
      assert (items + [p])[i] == items[i];
    }
  }

  lemma MountNew(items: seq<Profile>, routes: map<string, Route>, p: Profile, route: Route)
    requires Agree(items, routes) && Agree(items + [p], routes) && route.profile == p
    requires forall i :: 0 <= i < |items| ==> items[i].slug != p.slug
    ensures Agree(items + [p], routes[p.slug := route]) && p.slug !in routes
  {
    hide SlugText;
    assert (items + [p])[|items|] == p;
    MountKeepsAgreement(items + [p], routes, |items|, route);
    assert p.slug in routes ==> RouteOfStored(items, p.slug, routes[p.slug]);
  }

  /** Deletion goes through the list profile by profile and drops those of the ID. */
  lemma {:induction false} WithoutIsFilter(items: seq<Profile>, more: seq<Profile>, p: Profile, id: string)
    ensures Without(items + more, id) == Without(items, id) + Without(more, id)
    ensures Without([p], id) == if p.id == id then [] else [p]
  {
    assert [p][..0] == [];
    if more == [] {
      assert items + more == items;
    } else {
      var n := |more| - 1;
      WithoutIsFilter(items, more[..n], p, id);
      assert (items + more)[..|items + more| - 1] == items + more[..n];
    }
  }

  lemma {:induction false} WithoutMembers(items: seq<Profile>, id: string)
    ensures forall p :: p in Without(items, id) <==> p in items && p.id != id
  {
    if items != [] {
      var n := |items| - 1;
      WithoutMembers(items[..n], id);
      assert items == items[..n] + [items[n]];
    }
  }

  lemma DistinctWith(items: seq<Profile>, p: Profile)
    requires DistinctIds(items) && DistinctSlugs(items)
    requires forall q :: q in items ==> q.id != p.id && q.slug != p.slug
    ensures DistinctIds(items + [p]) && DistinctSlugs(items + [p])
  {
  }

  lemma DistinctPrefix(items: seq<Profile>, n: nat)
    requires DistinctIds(items) && DistinctSlugs(items) && n < |items|
    ensures DistinctIds(items[..n]) && DistinctSlugs(items[..n])
    ensures forall q :: q in items[..n] ==> q.id != items[n].id && q.slug != items[n].slug
  {
  }

  lemma {:induction false} WithoutDistinct(items: seq<Profile>, id: string)
    requires DistinctIds(items) && DistinctSlugs(items)
    ensures DistinctIds(Without(items, id)) && DistinctSlugs(Without(items, id))
  {
    if items != [] {
      var n := |items| - 1;
      var rest := Without(items[..n], id);
      DistinctPrefix(items, n);
      WithoutDistinct(items[..n], id);
      WithoutMembers(items[..n], id);
      DistinctWith(rest, items[n]);
      assert rest + [] == rest;
      hide DistinctIds, DistinctSlugs;
    }
  }

  lemma SlugsNotEmpty(items: seq<Profile>, routes: map<string, Route>)
    requires Agree(items, routes)
    ensures forall i :: 0 <= i < |items| ==> items[i].slug != ""
  {
  }

  lemma DeleteKeepsAgreement(items: seq<Profile>, routes: map<string, Route>, i: nat)
    requires Agree(items, routes) && i < |items|
    ensures Agree(Without(items, items[i].id), routes - {items[i].slug})
  {
    hide SlugText, Without;
    var rest := Without(items, items[i].id);
    WithoutMembers(items, items[i].id);
    WithoutDistinct(items, items[i].id);
    DeletedRoutes(items, routes, i, rest);
    DeletedSlugs(items, rest);
  }

  lemma DeletedRoutes(items: seq<Profile>, routes: map<string, Route>, i: nat, rest: seq<Profile>)
    requires Agree(items, routes) && i < |items|
    requires forall p :: p in rest <==> p in items && p.id != items[i].id
    ensures forall s :: s in routes && s != items[i].slug ==> RouteOfStored(rest, s, routes[s])
  {
    hide SlugText;
    forall s | s in routes && s != items[i].slug ensures RouteOfStored(rest, s, routes[s]) {
      var k :| 0 <= k < |items| && items[k].slug == s && items[k].id == routes[s].profile.id;
      assert items[k] in rest;
      var m :| 0 <= m < |rest| && rest[m] == items[k];
    }
  }

  lemma DeletedSlugs(items: seq<Profile>, rest: seq<Profile>)
    requires forall i :: 0 <= i < |items| ==> SlugText(items[i].slug)
    requires forall p :: p in rest ==> p in items
    ensures forall k :: 0 <= k < |rest| ==> SlugText(rest[k].slug)
  {
    hide SlugText;
    forall k | 0 <= k < |rest| ensures SlugText(rest[k].slug) {
      assert rest[k] in rest;
      var m :| 0 <= m < |items| && items[m] == rest[k];
    }
  }

  /** Background renewal must not touch the session binding. */
  ghost predicate SameBinding(items: seq<Profile>, items': seq<Profile>) {
    && SameNames(items, items')
    && forall i :: 0 <= i < |items| ==>
         items'[i].session == items[i].session && items'[i].sessionExpires == items[i].sessionExpires
         && items'[i].trustDomain == items[i].trustDomain
  }

  // ---------- The daemon ----------

  /** An empty secret counts as missing. */
  function Lookup(entries: map<string, string>, account: string): Option<string> {
    if account in entries && entries[account] != "" then Some(entries[account]) else None
  }

  /** Credentials by account name, in the order the source writes them. */
  class Secrets {
    var entries: map<string, string>

    constructor ()
      ensures entries == map[]
    {
      entries := map[];
    }

    method Put(account: string, secret: string, fails: bool) returns (ok: bool)
      modifies this
      ensures ok == !fails
      ensures entries == if ok then old(entries)[account := secret] else old(entries)
    {
      if !fails {
        entries := entries[account := secret];
      }
      return !fails;
    }

    method Get(account: string, fails: bool) returns (r: Option<string>)
      ensures r == if fails then None else Lookup(entries, account)
    {
      if fails || account !in entries || entries[account] == "" {
        return None;
      }
      return Some(entries[account]);
    }

    method Delete(account: string, fails: bool)
      modifies this
      ensures entries == if fails then old(entries) else old(entries) - {account}
    {
      if !fails {
        entries := entries - {account};
      }
    }
  }

  function TokenAccount(id: string): string { "local-token:" + id }
  function CertAccount(id: string): string { "cert:" + id }
  function KeyAccount(id: string): string { "key:" + id }
  function CaAccount(id: string): string { "ca:" + id }

  function AccountsOf(id: string): set<string> { {TokenAccount(id), CertAccount(id), KeyAccount(id), CaAccount(id)} }

  lemma AccountsDiffer(a: string, b: string)
    ensures TokenAccount(a) !in {CertAccount(b), KeyAccount(b), CaAccount(b)}
    ensures CertAccount(a) !in {KeyAccount(b), CaAccount(b)} && KeyAccount(a) != CaAccount(b)
    ensures TokenAccount(a) == TokenAccount(b) <==> a == b
    ensures CertAccount(a) == CertAccount(b) <==> a == b
    ensures KeyAccount(a) == KeyAccount(b) <==> a == b
    ensures CaAccount(a) == CaAccount(b) <==> a == b
  {
    assert CertAccount(a)[5..] == a && CertAccount(b)[5..] == b && KeyAccount(a)[4..] == a && KeyAccount(b)[4..] == b;
    assert CaAccount(a)[3..] == a && CaAccount(b)[3..] == b;
    assert TokenAccount(a)[0] == 'l' && KeyAccount(b)[0] == 'k' && KeyAccount(a)[0] == 'k';
    assert CertAccount(b)[..2] == "ce" && CaAccount(b)[..2] == "ca" && CertAccount(a)[1] == 'e' && CaAccount(b)[1] == 'a';
    var n := |TokenAccount("")|;
    assert TokenAccount(a)[n..] == a && TokenAccount(b)[n..] == b;
  }

  lemma FourAccounts(id: string)
    ensures AccountsOf(id) == {TokenAccount(id), CertAccount(id), KeyAccount(id), CaAccount(id)}
  {
  }

  /** Profiles of different IDs share no account. */
  lemma AccountsApart(a: string, b: string)
    requires a != b
    ensures AccountsOf(a) !! AccountsOf(b)
  {
    AccountsDiffer(a, b);
    AccountsDiffer(b, a);
    hide TokenAccount, CertAccount, KeyAccount, CaAccount;
  }

  /** The two stores agree on the given accounts. */
  ghost predicate SameSecrets(entries: map<string, string>, entries': map<string, string>, accounts: set<string>) {
    forall a :: a in accounts ==> (a in entries <==> a in entries') && (a in entries ==> entries[a] == entries'[a])
  }

  /** They agree everywhere else. */
  ghost predicate SameSecretsBut(entries: map<string, string>, entries': map<string, string>, accounts: set<string>) {
    forall a :: a !in accounts ==> (a in entries <==> a in entries') && (a in entries ==> entries[a] == entries'[a])
  }

  ghost predicate SameRoute(routes: map<string, Route>, routes': map<string, Route>, slug: string) {
    (slug in routes <==> slug in routes') && (slug in routes ==> routes[slug] == routes'[slug])
  }

  /** Every mounted route asks for the token stored for its profile. */
  ghost predicate TokensAgree(routes: map<string, Route>, entries: map<string, string>) {
    forall s :: s in routes ==>
      TokenAccount(routes[s].profile.id) in entries && routes[s].token == entries[TokenAccount(routes[s].profile.id)]
  }

  ghost predicate SameTokens(entries: map<string, string>, entries': map<string, string>) {
    forall id :: (TokenAccount(id) in entries <==> TokenAccount(id) in entries')
                 && (TokenAccount(id) in entries ==> entries[TokenAccount(id)] == entries'[TokenAccount(id)])
  }

  lemma MaterialKeepsTokens(entries: map<string, string>, account: string, id: string, secret: string)
    requires account in {CertAccount(id), KeyAccount(id), CaAccount(id)}
    ensures SameTokens(entries, entries[account := secret])
  {
    forall other ensures TokenAccount(other) != account {
      AccountsDiffer(other, id);
    }
    hide TokenAccount;
  }

  lemma SameTokensReflexive(entries: map<string, string>)
    ensures SameTokens(entries, entries)
  {
  }

  lemma SameTokensAgree(routes: map<string, Route>, entries: map<string, string>, entries': map<string, string>, id: string)
    requires TokensAgree(routes, entries) && SameTokens(entries, entries')
    ensures TokensAgree(routes, entries')
    ensures TokenAccount(id) in entries ==>
              TokenAccount(id) in entries' && entries'[TokenAccount(id)] == entries[TokenAccount(id)]
  {
    hide TokenAccount;
  }

  /** A token stored under an ID that no stored profile has changes no route's token. */
  lemma NewTokenKeepsTokens(items: seq<Profile>, routes: map<string, Route>, entries: map<string, string>, id: string, token: string)
    requires Agree(items, routes) && TokensAgree(routes, entries)
    requires forall i :: 0 <= i < |items| ==> items[i].id != id
    ensures TokensAgree(routes, entries[TokenAccount(id) := token])
  {
    hide TokenAccount, SlugText;
    forall s | s in routes ensures routes[s].profile.id != id && TokenAccount(routes[s].profile.id) != TokenAccount(id) {
      assert RouteOfStored(items, s, routes[s]);
      AccountsDiffer(routes[s].profile.id, id);
    }
  }

  /** Purging the secrets of an ID that no route has changes no route's token. */
  lemma PurgeKeepsTokens(routes: map<string, Route>, entries: map<string, string>, account: string, id: string)
    requires TokensAgree(routes, entries) && account in {TokenAccount(id), CertAccount(id), KeyAccount(id), CaAccount(id)}
    requires forall s :: s in routes ==> routes[s].profile.id != id
    ensures TokensAgree(routes, entries - {account})
  {
    forall s | s in routes ensures TokenAccount(routes[s].profile.id) != account {
      AccountsDiffer(routes[s].profile.id, id);
    }
    hide TokenAccount;
  }

  lemma WithoutTokens(routes: map<string, Route>, entries: map<string, string>, slug: string)
    requires TokensAgree(routes, entries)
    ensures TokensAgree(routes - {slug}, entries)
  {
    hide TokenAccount;
  }

  /** After a deletion no route belongs to the deleted ID. */
  lemma NoRouteHas(rest: seq<Profile>, routes: map<string, Route>, id: string, items: seq<Profile>)
    requires rest == Without(items, id) && Agree(rest, routes)
    ensures forall s :: s in routes ==> routes[s].profile.id != id
  {
    hide SlugText, Without;
    WithoutMembers(items, id);
    forall s | s in routes ensures routes[s].profile.id != id {
      assert RouteOfStored(rest, s, routes[s]);
    }
  }

  /** What enrolling changes in a profile: never its ID or slug. */
  function EnrolledProfile(p: Profile, m: Material): (q: Profile)
    ensures q.id == p.id && q.slug == p.slug
  {
    p.(authState := Enrolled, certExpires := m.expires, oauthRequired := m.oauthRequired,
       ns := if m.ns != "" then m.ns else p.ns,
       platformURL := if m.platformURL != "" then m.platformURL else p.platformURL,
       human := if m.human != "" then m.human else p.human,
       team := if m.team != "" then m.team else p.team,
       session := if m.session != "" then m.session else p.session,
       sessionExpires := if m.sessionExpires != 0 then m.sessionExpires else p.sessionExpires,
       trustDomain := if m.trustDomain != "" then m.trustDomain else p.trustDomain,
       lastError := "", renewalError := "")
  }

  /** What a refused enrolment leaves: the session binding stays, and so does the state's hint
      that a certificate is still valid. */
  function RefusedProfile(p: Profile, error: string, now: nat): (q: Profile)
    ensures q.id == p.id && q.slug == p.slug
  {
    if p.certExpires > now then p.(authState := RenewalFailed, lastError := error, renewalError := error)
    else p.(authState := SignInRequired, lastError := error)
  }

  type Enroller = (Profile, nat) -> Result<Material, (string, bool)>

  /** An enrolment none of whose calls to the secret store fails. */
  function AfterEnroll(enroll: Option<Enroller>, p: Profile, now: nat): (q: Profile)
    ensures q.id == p.id && q.slug == p.slug
  {
    if enroll == None then p
    else match enroll.value(p, now)
      case Ok(m) => EnrolledProfile(p, m)
      case Err(e) => RefusedProfile(p, e.0, now)
  }

  /** A user-triggered reconnect drops a session that cannot be used any more. */
  function Reconnecting(p: Profile, now: nat): (q: Profile)
    ensures q.id == p.id && q.slug == p.slug
  {
    if p.authState == SignInRequired || p.session == "" || p.sessionExpires <= now then
      p.(session := "", sessionExpires := 0, trustDomain := "")
    else p
  }

  /** The route a profile gets from what is stored: none without a token or with keys that make
      no proxy handler, and one without a handler while a certificate or key is missing. */
  function RouteFromSecrets(valid: (string, string, string, string) -> bool, p: Profile, entries: map<string, string>): (r: Option<Route>)
    ensures r.Some? ==> r.value.profile == p
  {
    var token, cert, key := Lookup(entries, TokenAccount(p.id)), Lookup(entries, CertAccount(p.id)), Lookup(entries, KeyAccount(p.id));
    if token == None then None
    else if cert == None || key == None then Some(Route(p, token.value, false))
    else
      var ca := Lookup(entries, CaAccount(p.id));
      if valid(p.runtimeURL, cert.value, key.value, if ca.Some? then ca.value else "") then Some(Route(p, token.value, true))
      else None
  }

  function WithRoute(routes: map<string, Route>, route: Option<Route>): map<string, Route> {
    if route.Some? then routes[route.value.profile.slug := route.value] else routes
  }

  const FIVE_MINUTES := 300

  predicate DueForRenewal(p: Profile, now: nat) { p.certExpires != 0 && p.certExpires <= now + FIVE_MINUTES }

  /** What a renewal none of whose calls fails makes of a profile. */
  function Renewed(enroll: Enroller, p: Profile, now: nat): (q: Profile)
    ensures q.id == p.id && q.slug == p.slug
    ensures q.session == p.session && q.sessionExpires == p.sessionExpires && q.trustDomain == p.trustDomain
  {
    if !DueForRenewal(p, now) then p
    else if p.session == "" || p.sessionExpires <= now + FIVE_MINUTES then
      p.(authState := SignInRequired, renewalError := "session authorization expires soon")
    else match enroll(p, now)
      case Err(e) => p.(authState := if p.sessionExpires <= now || e.1 then SignInRequired else RenewalFailed, renewalError := e.0)
      case Ok(m) => p.(authState := Enrolled, certExpires := m.expires, oauthRequired := m.oauthRequired, renewalError := "")
  }

  predicate HasSecret(entries: map<string, string>, account: string, secret: string) {
    account in entries && entries[account] == secret
  }

  /** Certificate, key and any CA of the profile are those of the material. */
  predicate HasMaterial(entries: map<string, string>, id: string, m: Material) {
    && HasSecret(entries, CertAccount(id), m.certPEM) && HasSecret(entries, KeyAccount(id), m.keyPEM)
    && (m.ca != "" ==> HasSecret(entries, CaAccount(id), m.ca))
  }

  /** The profile is due, its session outlasts the next five minutes, and the enrolment answers
      with new material. */
  predicate Renews(enroll: Enroller, p: Profile, now: nat) {
    DueForRenewal(p, now) && p.session != "" && p.sessionExpires > now + FIVE_MINUTES && enroll(p, now).Ok?
  }

  /** What a renewal makes of one profile, its secrets and its route; `calm` when nothing failed. */
  ghost predicate RenewalDone(valid: (string, string, string, string) -> bool, enroll: Enroller, p: Profile, q: Profile, now: nat,
                        entries: map<string, string>, entries': map<string, string>,
                        routes: map<string, Route>, routes': map<string, Route>, calm: bool)
    requires q.slug == p.slug
  {
    var renews := Renews(enroll, p, now);
    && (!renews ==> SameSecrets(entries, entries', AccountsOf(p.id)) && SameRoute(routes, routes', p.slug))
    && (q.certExpires != p.certExpires ==>
          renews && q.certExpires == enroll(p, now).value.expires && HasMaterial(entries', p.id, enroll(p, now).value))
    && (!DueForRenewal(p, now) ==> q == p)
    && (calm ==> q == Renewed(enroll, p, now))
    && (calm && renews ==>
          && HasMaterial(entries', p.id, enroll(p, now).value)
          && match RouteFromSecrets(valid, q, entries')
             case Some(route) => p.slug in routes' && routes'[p.slug] == route
             case None => SameRoute(routes, routes', p.slug))
  }

  /** It stays so while others' secrets and routes change. */
  lemma RenewalStays(valid: (string, string, string, string) -> bool, enroll: Enroller, p: Profile, q: Profile, now: nat,
                     entries: map<string, string>, e1: map<string, string>, e2: map<string, string>,
                     routes: map<string, Route>, r1: map<string, Route>, r2: map<string, Route>, calm: bool)
    requires q.slug == p.slug && q.id == p.id
    requires SameSecrets(e1, e2, AccountsOf(p.id)) && SameRoute(r1, r2, p.slug)
    ensures RenewalDone(valid, enroll, p, q, now, entries, e1, routes, r1, calm) ==>
              RenewalDone(valid, enroll, p, q, now, entries, e2, routes, r2, calm)
  {
    assert forall a :: a in AccountsOf(p.id) ==> Lookup(e1, a) == Lookup(e2, a);
    hide TokenAccount, CertAccount, KeyAccount, CaAccount, Renewed, DueForRenewal;
  }

  /** Changing the secrets of one profile touches no account of another. */
  lemma OthersKeepSecrets(entries: map<string, string>, entries': map<string, string>, id: string, other: string)
    requires SameSecretsBut(entries, entries', {CertAccount(id), KeyAccount(id), CaAccount(id)}) && other != id
    ensures SameSecrets(entries, entries', AccountsOf(other))
  {
    AccountsApart(id, other);
    hide TokenAccount, CertAccount, KeyAccount, CaAccount;
  }

  /** The first i profiles are done, and nothing of the others has changed. */
  ghost predicate RenewalsDone(valid: (string, string, string, string) -> bool, enroll: Enroller, items: seq<Profile>,
                               items': seq<Profile>, i: nat, now: nat, entries: map<string, string>, entries': map<string, string>,
                               routes: map<string, Route>, routes': map<string, Route>, calm: bool)
  {
    && |items'| == |items| && SameNames(items, items')
    && (forall j :: 0 <= j < i && j < |items| ==>
          RenewalDone(valid, enroll, items[j], items'[j], now, entries, entries', routes, routes', calm))
    && forall j :: i <= j < |items| ==>
         && items'[j] == items[j] && SameSecrets(entries, entries', AccountsOf(items[j].id))
         && SameRoute(routes, routes', items[j].slug)
  }

  lemma RenewalStart(valid: (string, string, string, string) -> bool, enroll: Enroller, items: seq<Profile>, now: nat,
                     entries: map<string, string>, routes: map<string, Route>, calm: bool)
    ensures RenewalsDone(valid, enroll, items, items, 0, now, entries, entries, routes, routes, calm)
  {
    hide RenewalDone, AccountsOf;
  }

  lemma RenewalAt(valid: (string, string, string, string) -> bool, enroll: Enroller, items: seq<Profile>, items': seq<Profile>,
                  i: nat, now: nat, entries: map<string, string>, entries': map<string, string>,
                  routes: map<string, Route>, routes': map<string, Route>, calm: bool)
    requires RenewalsDone(valid, enroll, items, items', i, now, entries, entries', routes, routes', calm) && i < |items|
    ensures |items'| == |items| && items'[i] == items[i]
  {
    hide RenewalDone, AccountsOf;
  }

  lemma RenewalEnd(valid: (string, string, string, string) -> bool, enroll: Enroller, items: seq<Profile>, items': seq<Profile>,
                   now: nat, entries: map<string, string>, entries': map<string, string>,
                   routes: map<string, Route>, routes': map<string, Route>, calm: bool)
    requires RenewalsDone(valid, enroll, items, items', |items|, now, entries, entries', routes, routes', calm)
    ensures |items'| == |items| && SameNames(items, items')
    ensures forall j :: 0 <= j < |items| ==>
              RenewalDone(valid, enroll, items[j], items'[j], now, entries, entries', routes, routes', calm)
  {
    hide RenewalDone, AccountsOf;
  }

  /** Renewing one profile leaves the others as they were. */
  lemma RenewalNext(valid: (string, string, string, string) -> bool, enroll: Enroller, items: seq<Profile>, s1: seq<Profile>,
                    s2: seq<Profile>, i: nat, now: nat, e0: map<string, string>, e1: map<string, string>, e2: map<string, string>,
                    r0: map<string, Route>, r1: map<string, Route>, r2: map<string, Route>, calm: bool, calm1: bool)
    requires DistinctIds(items) && DistinctSlugs(items) && i < |items| && |s2| == |s1| == |items|
    requires RenewalsDone(valid, enroll, items, s1, i, now, e0, e1, r0, r1, calm)
    requires s2 == s1[i := s2[i]] && s2[i].id == items[i].id && s2[i].slug == items[i].slug
    requires SameSecretsBut(e1, e2, {CertAccount(items[i].id), KeyAccount(items[i].id), CaAccount(items[i].id)})
    requires forall s :: s != items[i].slug ==> SameRoute(r1, r2, s)
    requires RenewalDone(valid, enroll, items[i], s2[i], now, e1, e2, r1, r2, calm1) && (calm ==> calm1)
    ensures RenewalsDone(valid, enroll, items, s2, i + 1, now, e0, e2, r0, r2, calm)
  {
    hide RenewalDone, CertAccount, KeyAccount, CaAccount, AccountsOf;
    RenewalSince(valid, enroll, items[i], s2[i], now, e0, e1, e2, r0, r1, r2, calm, calm1);
    OthersUntouched(items, i, e1, e2, r1, r2);
    forall j | 0 <= j < i ensures RenewalDone(valid, enroll, items[j], s2[j], now, e0, e2, r0, r2, calm) {
      RenewalStays(valid, enroll, items[j], s1[j], now, e0, e1, e2, r0, r1, r2, calm);
    }
    forall j | i < j < |items|
      ensures SameSecrets(e0, e2, AccountsOf(items[j].id)) && SameRoute(r0, r2, items[j].slug)
    {
      SecretsSince(e0, e1, e2, AccountsOf(items[j].id));
    }
    hide SameSecrets, SameRoute;
  }

  lemma SecretsSince(e0: map<string, string>, e1: map<string, string>, e2: map<string, string>, accounts: set<string>)
    requires SameSecrets(e0, e1, accounts) && SameSecrets(e1, e2, accounts)
    ensures SameSecrets(e0, e2, accounts)
  {
  }

  lemma OthersUntouched(items: seq<Profile>, i: nat, e1: map<string, string>, e2: map<string, string>,
                        r1: map<string, Route>, r2: map<string, Route>)
    requires DistinctIds(items) && DistinctSlugs(items) && i < |items|
    requires SameSecretsBut(e1, e2, {CertAccount(items[i].id), KeyAccount(items[i].id), CaAccount(items[i].id)})
    requires forall s :: s != items[i].slug ==> SameRoute(r1, r2, s)
    ensures forall j :: 0 <= j < |items| && j != i ==>
              SameSecrets(e1, e2, AccountsOf(items[j].id)) && SameRoute(r1, r2, items[j].slug)
  {
    hide CertAccount, KeyAccount, CaAccount, AccountsOf;
    forall j | 0 <= j < |items| && j != i
      ensures SameSecrets(e1, e2, AccountsOf(items[j].id)) && SameRoute(r1, r2, items[j].slug)
    {
      assert items[j].id != items[i].id && items[j].slug != items[i].slug;
      OthersKeepSecrets(e1, e2, items[i].id, items[j].id);
    }
  }

  lemma RenewalSince(valid: (string, string, string, string) -> bool, enroll: Enroller, p: Profile, q: Profile, now: nat,
                     e0: map<string, string>, e1: map<string, string>, e2: map<string, string>,
                     r0: map<string, Route>, r1: map<string, Route>, r2: map<string, Route>, calm: bool, calm1: bool)
    requires q.slug == p.slug && RenewalDone(valid, enroll, p, q, now, e1, e2, r1, r2, calm1) && (calm ==> calm1)
    requires SameSecrets(e0, e1, AccountsOf(p.id)) && SameRoute(r0, r1, p.slug)
    ensures RenewalDone(valid, enroll, p, q, now, e0, e2, r0, r2, calm)
  {
    hide CertAccount, KeyAccount, CaAccount, AccountsOf, Renewed, RouteFromSecrets, DueForRenewal;
  }

  lemma SameBindingTransitive(a: seq<Profile>, b: seq<Profile>, c: seq<Profile>)
    requires SameBinding(a, b) && SameBinding(b, c)
    ensures SameBinding(a, c)
  {
  }

  lemma SameBindingReflexive(items: seq<Profile>)
    ensures SameBinding(items, items)
  {
  }

  function Slugs(items: seq<Profile>): set<string> { set p | p in items :: p.slug }

  predicate UsableRequest(req: AddRequest) {
    TrimSpace(req.server) != "" && TrimSpace(req.runtimeURL) != "" && SlugOf(req.server).Some?
  }

  function NewProfile(req: AddRequest, id: string, slug: string, now: nat): Profile {
    Profile(id, slug, req.server, req.ns, req.team, req.agent, req.platformURL, req.runtimeURL, "",
            "", 0, "", now, 0, NotEnrolled, None, "", "")
  }

  datatype AddRequest = AddRequest(server: string, ns: string, team: string, agent: string, platformURL: string, runtimeURL: string)

  datatype Operation =
    | Add(req: AddRequest, id: string, token: string, now: nat)
    | Delete(id: string, purge: bool)
    | Restart(id: string, now: nat)
    | Renew(now: nat)

  function Ids(items: seq<Profile>): seq<string> { seq(|items|, i requires 0 <= i < |items| => items[i].id) }

  function DropString(ids: seq<string>, id: string): seq<string> {
    if ids == [] then []
    else DropString(ids[..|ids| - 1], id) + if ids[|ids| - 1] != id then [ids[|ids| - 1]] else []
  }

  /** The stored IDs after an operation in which nothing fails. */
  function IdsAfterOne(ids: seq<string>, op: Operation): seq<string> {
    match op
    case Add(req, id, _, _) => if id !in ids && UsableRequest(req) then ids + [id] else ids
    case Delete(id, _) => DropString(ids, id)
    case Restart(_, _) => ids
    case Renew(_) => ids
  }

  function IdsAfter(ids: seq<string>, ops: seq<Operation>): seq<string> {
    if ops == [] then ids else IdsAfterOne(IdsAfter(ids, ops[..|ops| - 1]), ops[|ops| - 1])
  }

  lemma IdsAfterNone(ids: seq<string>, ops: seq<Operation>)
    ensures IdsAfter(ids, ops[..0]) == ids && ops[..|ops|] == ops
  {
  }

  lemma IdsAfterNext(ids: seq<string>, ops: seq<Operation>, i: nat)
    requires i < |ops|
    ensures IdsAfter(ids, ops[..i + 1]) == IdsAfterOne(IdsAfter(ids, ops[..i]), ops[i])
  {
    hide IdsAfterOne;
    assert ops[..i + 1][..i] == ops[..i];
  }

  lemma IdsHave(items: seq<Profile>, id: string)
    ensures id in Ids(items) <==> exists i :: 0 <= i < |items| && items[i].id == id
  {
    if i :| 0 <= i < |items| && items[i].id == id {
      assert Ids(items)[i] == id;
    }
  }

  lemma IdsSnoc(items: seq<Profile>, p: Profile)
    ensures Ids(items + [p]) == Ids(items) + [p.id]
  {
  }

  lemma {:induction false} IdsWithout(items: seq<Profile>, id: string)
    ensures Ids(Without(items, id)) == DropString(Ids(items), id)
  {
    if items != [] {
      var n := |items| - 1;
      IdsWithout(items[..n], id);
      assert items == items[..n] + [items[n]];
      IdsSnoc(items[..n], items[n]);
      IdsSnoc(Without(items[..n], id), items[n]);
      assert Ids(items)[..n] == Ids(items[..n]);
    }
  }

  lemma {:induction false} DropAbsent(ids: seq<string>, id: string)
    ensures id !in ids ==> DropString(ids, id) == ids
  {
    if ids != [] {
      var n := |ids| - 1;
      assert ids == ids[..n] + [ids[n]];
      DropAbsent(ids[..n], id);
    }
  }

  lemma IdsOfSameNames(items: seq<Profile>, items': seq<Profile>)
    requires SameNames(items, items')
    ensures Ids(items') == Ids(items)
  {
  }

  /** `enroll` answers each enrolment: material or an error text and whether that text asks for
      a new sign-in. `validKeys` says whether a runtime URL and stored PEM text make a proxy handler. */
  class Daemon {
    const store: Store
    const router: Router
    const secrets: Secrets
    const faults: Faults
    const enroll: Option<Enroller>
    const validKeys: (string, string, string, string) -> bool

    constructor (items: seq<Profile>, faults: seq<bool>, enroll: Option<Enroller>,
                 validKeys: (string, string, string, string) -> bool)
      ensures fresh(store) && fresh(router) && fresh(secrets) && fresh(this.faults)
      ensures store.items == items && router.routes == map[]
    {
      store := new Store(items);
      router := new Router();
      secrets := new Secrets();
      this.faults := new Faults(faults);
      this.enroll, this.validKeys := enroll, validKeys;
    }

    ghost predicate Agreed()
      reads store, router, secrets
    {
      Agree(store.items, router.routes) && TokensAgree(router.routes, secrets.entries)
    }

    /** Stores a new certificate and key under the profile's own accounts, and a CA when there is
        one; no other account changes. */
    method StoreMaterial(id: string, m: Material) returns (ok: bool)
      modifies secrets, faults
      ensures SameTokens(old(secrets.entries), secrets.entries)
      ensures SameSecretsBut(old(secrets.entries), secrets.entries, {CertAccount(id), KeyAccount(id), CaAccount(id)})
      ensures ok ==> Holds(CertAccount(id), m.certPEM) && Holds(KeyAccount(id), m.keyPEM)
      ensures ok && m.ca != "" ==> Holds(CaAccount(id), m.ca)
      ensures ok && m.ca == "" ==> SameSecrets(old(secrets.entries), secrets.entries, {CaAccount(id)})
      ensures old(faults.NoFaults()) ==> ok && faults.NoFaults()
    {
      hide TokenAccount, CertAccount, KeyAccount, CaAccount;
      AccountsDiffer(id, id);
      var fails := faults.Next();
      MaterialKeepsTokens(secrets.entries, CertAccount(id), id, m.certPEM);
      ok := secrets.Put(CertAccount(id), m.certPEM, fails);
      if !ok { return; }
      fails := faults.Next();
      MaterialKeepsTokens(secrets.entries, KeyAccount(id), id, m.keyPEM);
      ok := secrets.Put(KeyAccount(id), m.keyPEM, fails);
      if !ok || m.ca == "" { return; }
      fails := faults.Next();
      MaterialKeepsTokens(secrets.entries, CaAccount(id), id, m.ca);
      ok := secrets.Put(CaAccount(id), m.ca, fails);
    }

    /** An empty secret counts as missing. */
    ghost predicate Stored(account: string)
      reads secrets
    {
      account in secrets.entries && secrets.entries[account] != ""
    }

    ghost predicate Holds(account: string, secret: string)
      reads secrets
    {
      account in secrets.entries && secrets.entries[account] == secret
    }

    /** What the profile takes over from its new material. */
    static method TakeOver(p: Profile, m: Material) returns (q: Profile)
      ensures q == EnrolledProfile(p, m)
    {
      q := p.(authState := Enrolled, certExpires := m.expires, oauthRequired := m.oauthRequired);
      if m.ns != "" { q := q.(ns := m.ns); }
      if m.platformURL != "" { q := q.(platformURL := m.platformURL); }
      if m.human != "" { q := q.(human := m.human); }
      if m.team != "" { q := q.(team := m.team); }
      if m.session != "" { q := q.(session := m.session); }
      if m.sessionExpires != 0 { q := q.(sessionExpires := m.sessionExpires); }
      if m.trustDomain != "" { q := q.(trustDomain := m.trustDomain); }
      q := q.(lastError := "", renewalError := "");
    }

    /** Enrols a profile. The profile takes over new material only once the material is in the
        secret store; any failure leaves its session binding as it was. */
    method Enroll(p: Profile, now: nat) returns (q: Profile)
      modifies secrets, faults
      ensures q.id == p.id && q.slug == p.slug && q.server == p.server && q.agent == p.agent
      ensures q.runtimeURL == p.runtimeURL && q.createdAt == p.createdAt
      ensures SameTokens(old(secrets.entries), secrets.entries)
      ensures enroll == None ==> q == p
      ensures enroll.Some? && q.authState == Enrolled ==>
                && enroll.value(p, now).Ok?
                && var m := enroll.value(p, now).value;
                   && Holds(CertAccount(p.id), m.certPEM) && Holds(KeyAccount(p.id), m.keyPEM)
                   && (m.ca != "" ==> Holds(CaAccount(p.id), m.ca))
                   && q.certExpires == m.expires && q.oauthRequired == m.oauthRequired && q.lastError == q.renewalError == ""
                   && q.ns == (if m.ns == "" then p.ns else m.ns) && q.human == (if m.human == "" then p.human else m.human)
                   && q.platformURL == (if m.platformURL == "" then p.platformURL else m.platformURL)
                   && q.team == (if m.team == "" then p.team else m.team)
                   && q.session == (if m.session == "" then p.session else m.session)
                   && q.sessionExpires == (if m.sessionExpires == 0 then p.sessionExpires else m.sessionExpires)
                   && q.trustDomain == (if m.trustDomain == "" then p.trustDomain else m.trustDomain)
      ensures enroll.Some? && q.authState != Enrolled ==>
                && q == p.(authState := q.authState, lastError := q.lastError, renewalError := q.renewalError)
                && q.authState in {SignInRequired, RenewalFailed}
                && (enroll.value(p, now).Err? ==>
                      q.lastError == enroll.value(p, now).error.0 && (q.authState == RenewalFailed <==> p.certExpires > now))
      ensures old(faults.NoFaults()) ==> q == AfterEnroll(enroll, p, now) && faults.NoFaults()
      ensures old(faults.NoFaults()) && enroll.Some? ==> (q.authState == Enrolled <==> enroll.value(p, now).Ok?)
    {
      hide CertAccount, KeyAccount, CaAccount, TokenAccount;
      if enroll == None {
        return p;
      }
      var answer := enroll.value(p, now);
      if answer.Err? {
        q := p.(authState := SignInRequired, lastError := answer.error.0);
        if p.certExpires > now {
          q := q.(authState := RenewalFailed, renewalError := q.lastError);
        }
        return q;
      }
      var m := answer.value;
      var ok := StoreMaterial(p.id, m);
      if !ok {
        return p.(authState := RenewalFailed, renewalError := "secret store");
      }
      q := TakeOver(p, m);
    }

    /** Mounts a profile that is in the store; on error the router is unchanged. */
    method Mount(p: Profile) returns (ok: bool)
      modifies router, faults
      ensures !ok ==> router.routes == old(router.routes)
      ensures ok ==> exists token, enrolled :: router.routes == old(router.routes)[p.slug := Route(p, token, enrolled)]
      ensures ok ==> p.slug in router.routes && router.routes[p.slug].profile == p
      ensures TokensAgree(old(router.routes), secrets.entries) ==> TokensAgree(router.routes, secrets.entries)
      ensures old(faults.NoFaults()) ==>
                && faults.NoFaults() && ok == RouteFromSecrets(validKeys, p, secrets.entries).Some?
                && router.routes == WithRoute(old(router.routes), RouteFromSecrets(validKeys, p, secrets.entries))
      ensures old(faults.NoFaults()) ==>
                var pair := Stored(CertAccount(p.id)) && Stored(KeyAccount(p.id));
                && (ok <==> Stored(TokenAccount(p.id))
                            && (pair ==> validKeys(p.runtimeURL, secrets.entries[CertAccount(p.id)], secrets.entries[KeyAccount(p.id)],
                                                   if Stored(CaAccount(p.id)) then secrets.entries[CaAccount(p.id)] else "")))
                && (ok ==> router.routes == old(router.routes)[p.slug := Route(p, secrets.entries[TokenAccount(p.id)], pair)])
    {
      hide TokenAccount, CertAccount, KeyAccount, CaAccount;
      var fails := faults.Next();
      var token := secrets.Get(TokenAccount(p.id), fails);
      if token == None {
        return false;
      }
      var enrolled := false;
      fails := faults.Next();
      var cert := secrets.Get(CertAccount(p.id), fails);
      fails := faults.Next();
      var key := secrets.Get(KeyAccount(p.id), fails);
      fails := faults.Next();
      var ca := secrets.Get(CaAccount(p.id), fails);
      if cert.Some? && key.Some? {
        if !validKeys(p.runtimeURL, cert.value, key.value, if ca.Some? then ca.value else "") {
          return false;
        }
        enrolled := true;
      }
      router.Set(Route(p, token.value, enrolled));
      return true;
    }

    /** The first free slug after `base`, as the closure of `AddProfile` asks for it. */
    static method FreeSlug(items: seq<Profile>, base: string) returns (slug: string, probes: nat)
      requires SlugText(base)
      ensures LeastFree(base, Slugs(items), slug, probes)
      ensures SlugText(slug) && forall i :: 0 <= i < |items| ==> items[i].slug != slug
    {
      hide SlugText, Candidate;
      slug, probes := UniqueSlug(base, Slugs(items));
      UniqueSlugIsSlugText(base, slug);
      assert forall i :: 0 <= i < |items| ==> items[i] in items && items[i].slug != slug;
    }

    /** Stores a profile under a new ID and slug, and mounts it if it can be. */
    method Register(p: Profile) returns (ok: bool)
      requires Agreed() && SlugText(p.slug)
      requires forall i :: 0 <= i < |store.items| ==> store.items[i].id != p.id && store.items[i].slug != p.slug
      modifies store, router, faults
      ensures Agreed()
      ensures store.items == if ok then old(store.items) + [p] else old(store.items)
      ensures !ok ==> router.routes == old(router.routes)
      ensures ok ==> forall s :: s in old(router.routes) ==> s in router.routes && router.routes[s] == old(router.routes)[s]
      ensures old(faults.NoFaults()) ==>
                ok && faults.NoFaults() && router.routes == WithRoute(old(router.routes), RouteFromSecrets(validKeys, p, secrets.entries))
    {
      hide SlugText, Agree, PutIn, TokensAgree, RouteFromSecrets, WithRoute;
      ghost var items, before := store.items, router.routes;
      var fails := faults.Next();
      AddKeepsAgreement(items, before, p);
      ok := store.Put(p, fails);
      if !ok {
        return;
      }
      var mounted := Mount(p);
      if mounted {
        ghost var t, e :| router.routes == before[p.slug := Route(p, t, e)];
        MountNew(items, before, p, Route(p, t, e));
      }
    }

    /** `id` and `token` stand for `newID`: random, so `id` is not in use. */
    method AddProfile(req: AddRequest, id: string, token: string, now: nat) returns (r: Option<Profile>)
      requires Agreed()
      requires forall i :: 0 <= i < |store.items| ==> store.items[i].id != id
      modifies store, router, secrets, faults
      ensures Agreed()
      ensures r.Some? ==> store.items == old(store.items) + [r.value] && r.value.id == id
      ensures r.Some? ==> TokenAccount(id) in secrets.entries && secrets.entries[TokenAccount(id)] == token
      ensures r.Some? ==> UsableRequest(req) && TrimSpace(req.server) != "" && TrimSpace(req.runtimeURL) != ""
      ensures r.Some? ==> r.value.server == req.server && r.value.agent == req.agent && r.value.runtimeURL == req.runtimeURL
                          && r.value.createdAt == now
      ensures r.Some? && enroll.None? ==>
                r.value == Profile(id, r.value.slug, req.server, req.ns, req.team, req.agent, req.platformURL, req.runtimeURL, "",
                                   "", 0, "", now, 0, NotEnrolled, None, "", "")
      ensures r.Some? ==> exists probes :: LeastFree(SlugOf(req.server).value, Slugs(old(store.items)), r.value.slug, probes)
      ensures r.None? ==> store.items == old(store.items) && router.routes == old(router.routes)
      ensures r.Some? ==> forall s :: s in old(router.routes) ==> s in router.routes && router.routes[s] == old(router.routes)[s]
      ensures old(faults.NoFaults()) ==> faults.NoFaults()
      ensures old(faults.NoFaults()) && UsableRequest(req) ==>
                && r.Some? && r.value == AfterEnroll(enroll, NewProfile(req, id, r.value.slug, now), now)
                && router.routes == WithRoute(old(router.routes), RouteFromSecrets(validKeys, r.value, secrets.entries))
    {
      hide SlugText, TrimSpace, Trim, Agree, TokenAccount;
      hide TokensAgree, SameTokens, EnrolledProfile, CertAccount, KeyAccount, CaAccount;
      hide AfterEnroll, RouteFromSecrets, WithRoute, SlugOf, Slugs, LeastFree;
      if TrimSpace(req.server) == "" || TrimSpace(req.runtimeURL) == "" {
        return None;
      }
      var base := SlugFromServer(req.server);
      if base == None {
        return None;
      }
      var fails := faults.Next();
      if fails {
        return None;
      }
      var items := store.items;
      ghost var before := router.routes;
      var slug, _ := FreeSlug(items, base.value);
      var p := NewProfile(req, id, slug, now);
      fails := faults.Next();
      NewTokenKeepsTokens(items, before, secrets.entries, id, token);
      var ok := secrets.Put(TokenAccount(id), token, fails);
      if !ok {
        return None;
      }
      ghost var stored := secrets.entries;
      p := Enroll(p, now);
      SameTokensAgree(before, stored, secrets.entries, id);
      ok := Register(p);
      if !ok {
        return None;
      }
      return Some(p);
    }

    /** Deletes the secrets of a profile that is no longer mounted, ignoring failures. */
    method Purge(id: string)
      requires TokensAgree(router.routes, secrets.entries)
      requires forall s :: s in router.routes ==> router.routes[s].profile.id != id
      modifies secrets, faults
      ensures TokensAgree(router.routes, secrets.entries)
      ensures old(faults.NoFaults()) ==> faults.NoFaults() && secrets.entries == old(secrets.entries) - AccountsOf(id)
    {
      hide TokensAgree;
      var accounts := [TokenAccount(id), CertAccount(id), KeyAccount(id), CaAccount(id)];
      assert Elements(accounts) == AccountsOf(id) && Elements(accounts[..0]) == {};
      hide TokenAccount, CertAccount, KeyAccount, CaAccount, Elements;
      for k := 0 to |accounts|
        invariant TokensAgree(router.routes, secrets.entries)
        invariant old(faults.NoFaults()) ==>
                    faults.NoFaults() && secrets.entries == old(secrets.entries) - Elements(accounts[..k])
      {
        var fails := faults.Next();
        PurgeKeepsTokens(router.routes, secrets.entries, accounts[k], id);
        ElementsSnoc(accounts[..k], accounts[k]);
        assert accounts[..k + 1] == accounts[..k] + [accounts[k]];
        secrets.Delete(accounts[k], fails);
      }
      assert accounts[..|accounts|] == accounts;
    }

    /** The slug of the last profile of an ID, or blank. */
    static method SlugOfId(items: seq<Profile>, id: string) returns (slug: string, ghost at: nat)
      requires forall i :: 0 <= i < |items| ==> items[i].slug != ""
      ensures slug != "" ==> at < |items| && items[at].id == id && items[at].slug == slug
      ensures slug != "" <==> exists i :: 0 <= i < |items| && items[i].id == id
    {
      slug, at := "", 0;
      for i := 0 to |items|
        invariant slug != "" ==> at < i && items[at].id == id && items[at].slug == slug
        invariant slug == "" ==> forall j :: 0 <= j < i ==> items[j].id != id
      {
        if items[i].id == id {
          slug := items[i].slug;
          at := i;
        }
      }
    }

    method DeleteProfile(id: string, purge: bool) returns (ok: bool)
      requires Agreed()
      modifies store, router, secrets, faults
      ensures Agreed()
      ensures ok ==> store.items == Without(old(store.items), id)
                     && exists i :: 0 <= i < |old(store.items)| && old(store.items)[i].id == id
                                    && router.routes == old(router.routes) - {old(store.items)[i].slug}
      ensures !ok ==> store.items == old(store.items) && router.routes == old(router.routes)
      ensures !(ok && purge) ==> secrets.entries == old(secrets.entries)
      ensures old(faults.NoFaults()) ==> faults.NoFaults()
      ensures old(faults.NoFaults()) ==>
                && (ok <==> exists i :: 0 <= i < |old(store.items)| && old(store.items)[i].id == id)
                && (ok && purge ==> secrets.entries == old(secrets.entries) - AccountsOf(id))
      ensures old(faults.NoFaults()) && ok && purge ==>
                secrets.entries.Keys !! {TokenAccount(id), CertAccount(id), KeyAccount(id), CaAccount(id)}
    {
      FourAccounts(id);
      hide SlugText, TokenAccount, CertAccount, KeyAccount, CaAccount, AccountsOf, Agree, Without;
      var fails := faults.Next();
      if fails {
        return false;
      }
      var items := store.items;
      SlugsNotEmpty(items, router.routes);
      var slug, at := SlugOfId(items, id);
      if slug == "" {
        return false;
      }
      fails := faults.Next();
      DeleteKeepsAgreement(items, router.routes, at);
      WithoutTokens(router.routes, secrets.entries, slug);
      ok := store.Delete(id, fails);
      if !ok {
        return;
      }
      router.Delete(slug);
      if purge {
        NoRouteHas(store.items, router.routes, id, items);
        hide TokensAgree;
        Purge(id);
      }
    }

    /** Enrols a stored profile again, stores what came of it and mounts that. */
    method Reconnect(i: nat, p: Profile, now: nat) returns (ok: bool)
      requires Agreed() && i < |store.items| && store.items[i].id == p.id && store.items[i].slug == p.slug
      modifies store, router, secrets, faults
      ensures Agreed() && |store.items| == |old(store.items)| && SameNames(old(store.items), store.items)
      ensures store.items == old(store.items)[i := store.items[i]]
      ensures ok ==> p.slug in router.routes && router.routes[p.slug].profile == store.items[i]
      ensures old(faults.NoFaults()) ==>
                && faults.NoFaults() && store.items[i] == AfterEnroll(enroll, p, now)
                && ok == RouteFromSecrets(validKeys, store.items[i], secrets.entries).Some?
    {
      hide SlugText, SameTokens, TokensAgree, TokenAccount, CertAccount, KeyAccount, CaAccount, EnrolledProfile, Agree,
           AfterEnroll, RouteFromSecrets, WithRoute;
      ghost var items, before, stored := store.items, router.routes, secrets.entries;
      var item := Enroll(p, now);
      SameTokensAgree(before, stored, secrets.entries, p.id);
      IdsDistinct(items, before);
      PutKeepsNames(items, i, item);
      var fails := faults.Next();
      ok := store.Put(item, fails);
      if !ok {
        NamesKept(items);
        return;
      }
      AgreeKept(items, store.items, before);
      ok := Mount(item);
      if ok {
        ghost var t, e :| router.routes == before[item.slug := Route(item, t, e)];
        MountKeepsAgreement(store.items, before, i, Route(item, t, e));
      }
    }

    method RestartProfile(id: string, now: nat) returns (ok: bool)
      requires Agreed()
      modifies store, router, secrets, faults
      ensures Agreed() && SameNames(old(store.items), store.items)
      ensures ok ==> exists i :: 0 <= i < |store.items| && store.items[i].id == id && store.items[i].slug in router.routes
                                 && router.routes[store.items[i].slug].profile == store.items[i]
      ensures forall i :: 0 <= i < |store.items| && store.items[i].id != id ==> store.items[i] == old(store.items)[i]
      ensures old(faults.NoFaults()) ==> faults.NoFaults()
      ensures old(faults.NoFaults()) && enroll.None? ==> forall i :: 0 <= i < |store.items| && store.items[i].id == id ==>
                var p := old(store.items)[i];
                if p.authState == SignInRequired || p.session == "" || p.sessionExpires <= now then
                  store.items[i] == p.(session := "", sessionExpires := 0, trustDomain := "")
                else store.items[i] == p
      ensures old(faults.NoFaults()) ==> forall i :: 0 <= i < |store.items| && store.items[i].id == id ==>
                && store.items[i] == AfterEnroll(enroll, Reconnecting(old(store.items)[i], now), now)
                && ok == RouteFromSecrets(validKeys, store.items[i], secrets.entries).Some?
    {
      hide SlugText, TokensAgree, Agree, RouteFromSecrets, EnrolledProfile, RefusedProfile;
      var fails := faults.Next();
      if fails {
        return false;
      }
      var items := store.items;
      for i := 0 to |items|
        invariant store.items == items == old(store.items) && unchanged(router) && unchanged(secrets)
        invariant old(faults.NoFaults()) ==> faults.NoFaults()
        invariant forall j :: 0 <= j < i ==> items[j].id != id
      {
        var item := items[i];
        if item.id == id {
          if item.authState == SignInRequired || item.session == "" || item.sessionExpires <= now {
            item := item.(session := "", sessionExpires := 0, trustDomain := "");
          }
          IdsDistinct(items, router.routes);
          ok := Reconnect(i, item, now);
          return;
        }
      }
      return false;
    }

    /** Stores a renewed profile, and mounts it when it got new material; failures are ignored. */
    method KeepRenewal(i: nat, q: Profile, renewed: bool)
      requires Agreed() && i < |store.items| && store.items[i].id == q.id && store.items[i].slug == q.slug
      modifies store, router, faults
      ensures Agreed()
      ensures store.items == old(store.items) || store.items == old(store.items)[i := q]
      ensures forall s :: s != q.slug || !renewed ==> SameRoute(old(router.routes), router.routes, s)
      ensures old(faults.NoFaults()) ==> faults.NoFaults() && store.items == old(store.items)[i := q]
      ensures old(faults.NoFaults()) && renewed ==>
                router.routes == WithRoute(old(router.routes), RouteFromSecrets(validKeys, q, secrets.entries))
    {
      hide SlugText, TokensAgree, Agree, RouteFromSecrets, WithRoute;
      ghost var items, before := store.items, router.routes;
      IdsDistinct(items, before);
      PutKeepsNames(items, i, q);
      NamesKept(items);
      var fails := faults.Next();
      var _ := store.Put(q, fails);
      AgreeKept(items, store.items, before);
      if renewed {
        var ok := Mount(q);
        if ok {
          ghost var t, e :| router.routes == before[q.slug := Route(q, t, e)];
          MountKeepsAgreement(store.items, before, i, Route(q, t, e));
        }
      }
    }

    method RenewOne(i: nat, p: Profile, now: nat)
      requires Agreed() && i < |store.items| && store.items[i] == p && enroll.Some?
      modifies store, router, secrets, faults
      ensures Agreed() && |store.items| == |old(store.items)| && store.items == old(store.items)[i := store.items[i]]
      ensures SameBinding(old(store.items), store.items)
      ensures forall s :: s != p.slug ==> SameRoute(old(router.routes), router.routes, s)
      ensures SameSecretsBut(old(secrets.entries), secrets.entries, {CertAccount(p.id), KeyAccount(p.id), CaAccount(p.id)})
      ensures old(faults.NoFaults()) ==> faults.NoFaults()
      ensures RenewalDone(validKeys, enroll.value, p, store.items[i], now, old(secrets.entries), secrets.entries,
                          old(router.routes), router.routes, old(faults.NoFaults()))
    {
      hide SlugText, SameTokens, TokensAgree, Agree, RouteFromSecrets, CertAccount, KeyAccount, CaAccount, TokenAccount;
      if p.certExpires == 0 || p.certExpires > now + FIVE_MINUTES {
        return;
      }
      ghost var before, stored := router.routes, secrets.entries;
      SameTokensReflexive(stored);
      var q := p;
      var renewed := false;
      if p.session == "" || p.sessionExpires <= now + FIVE_MINUTES {
        q := p.(authState := SignInRequired, renewalError := "session authorization expires soon");
      } else {
        var answer := enroll.value(p, now);
        if answer.Err? {
          q := p.(authState := RenewalFailed, renewalError := answer.error.0);
          if p.sessionExpires <= now || answer.error.1 {
            q := q.(authState := SignInRequired);
          }
        } else {
          var ok := StoreMaterial(p.id, answer.value);
          if !ok {
            q := p.(renewalError := "secret store");
          } else {
            q := p.(authState := Enrolled, certExpires := answer.value.expires, oauthRequired := answer.value.oauthRequired,
                    renewalError := "");
            renewed := true;
          }
        }
      }
      SameTokensAgree(before, stored, secrets.entries, p.id);
      KeepRenewal(i, q, renewed);
    }

    /** Renewal of every profile. Whatever fails, session bindings stay, profiles without new
        material keep their secrets and routes, and a certificate's end moves only when that
        certificate is in the secret store. When nothing fails, every profile whose enrolment
        answers has its new material stored and is served with it. */
    method RenewAll(now: nat)
      requires Agreed()
      modifies store, router, secrets, faults
      ensures Agreed() && SameBinding(old(store.items), store.items) && |store.items| == |old(store.items)|
      ensures old(faults.NoFaults()) ==> faults.NoFaults()
      ensures old(faults.NoFaults()) && enroll.Some? ==>
                forall i :: 0 <= i < |store.items| ==> store.items[i] == Renewed(enroll.value, old(store.items)[i], now)
      ensures forall i :: 0 <= i < |store.items| ==>
                var p, q := old(store.items)[i], store.items[i];
                var renews := enroll.Some? && 0 < p.certExpires <= now + 300 && p.session != "" && p.sessionExpires > now + 300
                              && enroll.value(p, now).Ok?;
                && q.id == p.id && q.slug == p.slug
                && q.session == p.session && q.sessionExpires == p.sessionExpires && q.trustDomain == p.trustDomain
                && (!renews ==> && SameSecrets(old(secrets.entries), secrets.entries, AccountsOf(p.id))
                                && SameRoute(old(router.routes), router.routes, p.slug))
                && (p.certExpires == 0 || p.certExpires > now + 300 ==> q == p)
                && (old(faults.NoFaults()) && enroll.Some? && 0 < p.certExpires <= now + 300 && !renews ==>
                      var soon := p.session == "" || p.sessionExpires <= now + 300;
                      && q == p.(authState := q.authState, renewalError := q.renewalError)
                      && q.authState == if soon || enroll.value(p, now).error.1 then SignInRequired else RenewalFailed)
                && (q.certExpires != p.certExpires ==>
                      && renews && q.certExpires == enroll.value(p, now).value.expires
                      && Holds(CertAccount(p.id), enroll.value(p, now).value.certPEM)
                      && Holds(KeyAccount(p.id), enroll.value(p, now).value.keyPEM))
                && (old(faults.NoFaults()) && renews ==>
                      var m := enroll.value(p, now).value;
                      && Holds(CertAccount(p.id), m.certPEM) && Holds(KeyAccount(p.id), m.keyPEM)
                      && (m.ca != "" ==> Holds(CaAccount(p.id), m.ca))
                      && q == p.(authState := Enrolled, certExpires := m.expires, oauthRequired := m.oauthRequired, renewalError := "")
                      && var route := RouteFromSecrets(validKeys, q, secrets.entries);
                         if route.Some? then p.slug in router.routes && router.routes[p.slug] == route.value
                         else SameRoute(old(router.routes), router.routes, p.slug))
    {
      hide Agree, TokensAgree, RouteFromSecrets, WithRoute, CertAccount, KeyAccount, CaAccount, TokenAccount, AccountsOf;
      ghost var before, entries, routes, calm := store.items, secrets.entries, router.routes, faults.NoFaults();
      SameBindingReflexive(before);
      if enroll == None {
        return;
      }
      var fails := faults.Next();
      if fails {
        return;
      }
      var items := store.items;
      RenewEach(items, now, calm);
    }

    method RenewEach(items: seq<Profile>, now: nat, ghost calm: bool)
      requires Agreed() && enroll.Some? && items == store.items && (calm ==> faults.NoFaults())
      modifies store, router, secrets, faults
      ensures Agreed() && SameBinding(items, store.items) && (calm ==> faults.NoFaults())
      ensures forall j :: 0 <= j < |items| ==>
                RenewalDone(validKeys, enroll.value, items[j], store.items[j], now, old(secrets.entries), secrets.entries,
                            old(router.routes), router.routes, calm)
    {
      IdsDistinct(items, router.routes);
      hide *;
      SameBindingReflexive(items);
      ghost var e0, r0 := secrets.entries, router.routes;
      RenewalStart(validKeys, enroll.value, items, now, e0, r0, calm);
      for i := 0 to |items|
        invariant Agreed() && SameBinding(items, store.items) && (calm ==> faults.NoFaults()) && |store.items| == |items|
        invariant RenewalsDone(validKeys, enroll.value, items, store.items, i, now, e0, secrets.entries, r0, router.routes, calm)
      {
        ghost var s1, e1, r1, calm1 := store.items, secrets.entries, router.routes, faults.NoFaults();
        RenewalAt(validKeys, enroll.value, items, s1, i, now, e0, e1, r0, r1, calm);
        RenewOne(i, items[i], now);
        RenewalNext(validKeys, enroll.value, items, s1, store.items, i, now, e0, e1, secrets.entries, r0, r1, router.routes, calm, calm1);
        SameBindingTransitive(items, s1, store.items);
      }
      RenewalEnd(validKeys, enroll.value, items, store.items, now, e0, secrets.entries, r0, router.routes, calm);
    }

    /** Any sequence of operations that hold the profiles lock, whatever fails in them. When
        nothing fails, exactly the profiles added and not deleted since are stored. */
    method RunOperations(ops: seq<Operation>)
      requires Agreed()
      modifies store, router, secrets, faults
      ensures Agreed()
      ensures forall i, j :: 0 <= i < j < |store.items| ==>
                store.items[i].id != store.items[j].id && store.items[i].slug != store.items[j].slug
      ensures forall slug :: slug in router.routes ==>
                exists p :: p in store.items && p.slug == slug && p.id == router.routes[slug].profile.id
                  && "local-token:" + p.id in secrets.entries && router.routes[slug].token == secrets.entries["local-token:" + p.id]
      ensures old(faults.NoFaults()) ==> Ids(store.items) == IdsAfter(old(Ids(store.items)), ops)
    {
      hide *;
      ghost var before := Ids(store.items);
      IdsAfterNone(before, ops);
      for i := 0 to |ops|
        invariant Agreed()
        invariant old(faults.NoFaults()) ==> faults.NoFaults() && Ids(store.items) == IdsAfter(before, ops[..i])
      {
        IdsAfterNext(before, ops, i);
        RunOne(ops[i]);
      }
      AgreedMeans();
    }

    lemma AgreedMeans()
      requires Agreed()
      ensures forall i, j :: 0 <= i < j < |store.items| ==>
                store.items[i].id != store.items[j].id && store.items[i].slug != store.items[j].slug
      ensures forall slug :: slug in router.routes ==>
                exists p :: p in store.items && p.slug == slug && p.id == router.routes[slug].profile.id
                  && "local-token:" + p.id in secrets.entries && router.routes[slug].token == secrets.entries["local-token:" + p.id]
    {
      hide SlugText;
      forall slug | slug in router.routes
        ensures exists p :: p in store.items && p.slug == slug && p.id == router.routes[slug].profile.id
      {
        assert RouteOfStored(store.items, slug, router.routes[slug]);
      }
      forall id ensures TokenAccount(id) == "local-token:" + id {
      }
      hide TokenAccount;
    }

    method RunOne(op: Operation)
      requires Agreed()
      modifies store, router, secrets, faults
      ensures Agreed()
      ensures old(faults.NoFaults()) ==> faults.NoFaults() && Ids(store.items) == IdsAfterOne(old(Ids(store.items)), op)
    {
      hide UsableRequest, Agree, TokensAgree, Without, SlugOf, LeastFree, Slugs, AfterEnroll, Renewed, RouteFromSecrets,
           WithRoute, Reconnecting, DropString, AccountsOf, TokenAccount, CertAccount, KeyAccount, CaAccount;
      ghost var before := store.items;
      match op
      case Add(req, id, token, now) =>
        IdsHave(before, id);
        if forall k | 0 <= k < |store.items| :: store.items[k].id != id {
          var added := AddProfile(req, id, token, now);
          if added.Some? {
            IdsSnoc(before, added.value);
          }
        }
      case Delete(id, purge) =>
        IdsHave(before, id);
        DropAbsent(Ids(before), id);
        IdsWithout(before, id);
        var _ := DeleteProfile(id, purge);
      case Restart(id, now) =>
        var _ := RestartProfile(id, now);
        IdsOfSameNames(before, store.items);
      case Renew(now) =>
        RenewAll(now);
        IdsOfSameNames(before, store.items);
    }

    /** `reload` at start-up: mounts whatever the store holds. */
    method Reload() returns (ok: bool)
      requires Agreed()
      modifies router, faults
      ensures Agreed()
      ensures old(faults.NoFaults()) ==> ok && forall i :: 0 <= i < |store.items| ==>
                var route := RouteFromSecrets(validKeys, store.items[i], secrets.entries);
                route.Some? ==> store.items[i].slug in router.routes && router.routes[store.items[i].slug] == route.value
    {
      hide SlugText, RouteFromSecrets;
      var fails := faults.Next();
      if fails {
        return false;
      }
      var items := store.items;
      for i := 0 to |items|
        invariant store.items == items && Agreed()
        invariant old(faults.NoFaults()) ==> faults.NoFaults() && forall j :: 0 <= j < i ==>
                    var route := RouteFromSecrets(validKeys, items[j], secrets.entries);
                    route.Some? ==> items[j].slug in router.routes && router.routes[items[j].slug] == route.value
      {
        ghost var before := router.routes;
        var mounted := Mount(items[i]);
        if mounted {
          ghost var t, e :| router.routes == before[items[i].slug := Route(items[i], t, e)];
          MountKeepsAgreement(items, before, i, Route(items[i], t, e));
        }
      }
      return true;
    }
  }

  /** In every agreed state a request on a mounted profile's local path reaches the route of
      that profile and no other. */
  lemma LocalPathReachesItsProfile(items: seq<Profile>, router: Router, i: nat)
    requires Agree(items, router.routes) && i < |items|
    ensures items[i].slug in router.routes <==> router.RouteFor(LocalPath(items[i].slug)).Some?
    ensures items[i].slug in router.routes ==>
              router.RouteFor(LocalPath(items[i].slug)).value.profile.id == items[i].id
  {
    SlugsRouteBack(items[i].slug);
    hide SlugText, SplitProfilePath, LocalPath;
    var slug := items[i].slug;
    if slug in router.routes {
      assert RouteOfStored(items, slug, router.routes[slug]);
    }
  }
}
