/** Which MCPServer owns a public route (internal/operator/route_ownership.go). */
module RouteOwnership {
  import opened Text
  import opened Wrappers

  datatype Auth = Auth(headerMode: bool, issuerURL: string, audience: string, scopes: seq<string>)

  /** A defaulted MCPServer, as far as routing and OAuth publication read it. */
  datatype Server = Server(
    ns: string,
    name: string,
    created: int,
    deleting: bool,
    ingressHost: string,
    ingressPath: string,
    publicPathPrefix: string,
    auth: Option<Auth>)
  {
    function Key(): (string, string) { (ns, name) }
  }

  datatype PublicRoute = PublicRoute(host: string, path: string)
  {
    predicate Overlaps(b: PublicRoute) {
      path != "" && path == b.path && (host == "" || b.host == "" || host == b.host)
    }
  }

  // ---------- The route of a server ----------

  function CleanParts(parts: seq<string>, done: seq<string>): seq<string> {
    if parts == [] then done
    else if parts[0] == "" || parts[0] == "." then CleanParts(parts[1..], done)
    else if parts[0] == ".." then CleanParts(parts[1..], if done == [] then [] else done[..|done| - 1])
    else CleanParts(parts[1..], done + [parts[0]])
  }

  /** `path.Clean("/" + strings.TrimLeft(p, "/"))`. */
  function CleanRooted(p: string): string {
    "/" + Join(CleanParts(Split(p, '/'), []), "/")
  }

  predicate Slash(c: char) { c == '/' }

  function EffectivePublicPath(s: Server): string {
    var prefix := Trim(TrimSpace(s.publicPathPrefix), Slash);
    if prefix == "" then s.ingressPath else "/" + prefix + "/mcp"
  }

  function PublicRouteOf(s: Server): PublicRoute {
    var path := TrimSpace(EffectivePublicPath(s));
    PublicRoute(ToLower(TrimSpace(s.ingressHost)), if path != "" then CleanRooted(path) else path)
  }

  /** Cleaning leaves no empty, "." or ".." segment, */
  lemma {:induction false} CleanLeavesNames(parts: seq<string>, done: seq<string>)
    requires forall d :: d in done ==> d != "" && d != "." && d != ".."
    ensures forall d :: d in CleanParts(parts, done) ==> d != "" && d != "." && d != ".."
    decreases |parts|
  {
    if parts == [] {
    } else if parts[0] == "" || parts[0] == "." {
      CleanLeavesNames(parts[1..], done);
    } else if parts[0] == ".." {
      var kept := if done == [] then [] else done[..|done| - 1];
      assert forall d :: d in kept ==> d in done;
      CleanLeavesNames(parts[1..], kept);
    } else {
      CleanLeavesNames(parts[1..], done + [parts[0]]);
    }
  }

  /** changes nothing where there is none, */
  lemma {:induction false} CleanKeepsNames(parts: seq<string>, done: seq<string>)
    requires forall d :: d in parts ==> d != "" && d != "." && d != ".."
    ensures CleanParts(parts, done) == done + parts
    decreases |parts|
  {
    if parts == [] {
      assert done + [] == done;
    } else {
      assert parts[0] in parts && forall d :: d in parts[1..] ==> d in parts;
      CleanKeepsNames(parts[1..], done + [parts[0]]);
      assert done + [parts[0]] + parts[1..] == done + parts;
    }
  }

  /** drops empty and "." segments, and takes a name away with the ".." after it. */
  lemma CleanSteps(name: string, rest: seq<string>, done: seq<string>)
    requires name != "" && name != "." && name != ".."
    ensures CleanParts([""] + rest, done) == CleanParts(["."] + rest, done) == CleanParts([name, ".."] + rest, done) == CleanParts(rest, done)
    ensures done == [] ==> CleanParts([".."] + rest, done) == CleanParts(rest, done)
  {
    assert ([name, ".."] + rest)[1..] == [".."] + rest && ([".."] + rest)[1..] == rest;
    assert ([""] + rest)[1..] == rest && (["."] + rest)[1..] == rest;
    assert (done + [name])[..|done|] == done;
    assert ([name, ".."] + rest)[0] == name;
  }

  /** Where a server is reached: its host in small letters, and the cleaned path of its prefix,
      or of its ingress when it has none. */
  lemma RouteMeans(s: Server, prefix: string)
    requires prefix == Trim(TrimSpace(s.publicPathPrefix), Slash)
    ensures PublicRouteOf(s).host == ToLower(TrimSpace(s.ingressHost))
    ensures prefix == "" && TrimSpace(s.ingressPath) == "" ==> PublicRouteOf(s).path == ""
    ensures prefix == "" && TrimSpace(s.ingressPath) != "" ==>
              PublicRouteOf(s).path == "/" + Join(CleanParts(Split(TrimSpace(s.ingressPath), '/'), []), "/")
    ensures prefix != "" ==> PublicRouteOf(s).path == "/" + Join(CleanParts(Split("/" + prefix + "/mcp", '/'), []), "/")
  {
    hide Trim, Split, CleanParts, Join, ToLower;
    if prefix != "" {
      var path := "/" + prefix + "/mcp";
      assert path[0] == '/' && path[|path| - 1] == 'p' && !IsSpace('/') && !IsSpace('p');
      TrimSpaceFixed(path);
      assert EffectivePublicPath(s) == path;
    }
  }

  // ---------- Age ----------

  predicate OlderServer(a: Server, b: Server) {
    if a.created != b.created then a.created < b.created
    else if a.ns != b.ns then LexLess(a.ns, b.ns)
    else LexLess(a.name, b.name)
  }

  /** `OlderServer` is a strict total order on servers with distinct namespace/name. */
  lemma OlderIsStrictTotalOrder(a: Server, b: Server, c: Server)
    ensures !OlderServer(a, a)
    ensures OlderServer(a, b) ==> !OlderServer(b, a)
    ensures OlderServer(a, b) && OlderServer(b, c) ==> OlderServer(a, c)
    ensures a.Key() != b.Key() ==> OlderServer(a, b) || OlderServer(b, a)
  {
    LexLessTotal(a.ns, a.ns);
    LexLessTotal(a.name, a.name);
    LexLessTotal(a.ns, b.ns);
    LexLessTotal(a.name, b.name);
    LexLessTotal(a.ns, c.ns);
    if LexLess(a.ns, b.ns) && LexLess(b.ns, c.ns) { LexLessTransitive(a.ns, b.ns, c.ns); }
    if LexLess(a.name, b.name) && LexLess(b.name, c.name) { LexLessTransitive(a.name, b.name, c.name); }
  }

  // ---------- The election ----------

  /** `other` is live, older than `server` and serves an overlapping route. */
  predicate Claims(other: Server, server: Server) {
    && other.Key() != server.Key()
    && !other.deleting
    && PublicRouteOf(other).Overlaps(PublicRouteOf(server))
    && OlderServer(other, server)
  }

  ghost predicate Unowned(server: Server, all: seq<Server>) {
    forall o :: o in all ==> !Claims(o, server)
  }

  /** The oldest claimant, or none when there is no claimant. */
  ghost predicate IsOwner(owner: Option<Server>, server: Server, all: seq<Server>) {
    match owner
    case None => Unowned(server, all)
    case Some(w) =>
      && w in all
      && Claims(w, server)
      && forall o :: o in all && Claims(o, server) ==> !OlderServer(o, w)
  }

  /** A claimant is another live server, on the same cleaned path, of the same host or one of them of
      any host, and created earlier or, at the same time, first by namespace and name. */
  lemma ClaimMeans(other: Server, server: Server)
    ensures Claims(other, server) <==>
            && (other.ns != server.ns || other.name != server.name) && !other.deleting
            && PublicRouteOf(other).path == PublicRouteOf(server).path != ""
            && (TrimSpace(other.ingressHost) == "" || TrimSpace(server.ingressHost) == ""
                || ToLower(TrimSpace(other.ingressHost)) == ToLower(TrimSpace(server.ingressHost)))
            && (other.created < server.created
                || (other.created == server.created && (LexLess(other.ns, server.ns) || (other.ns == server.ns && LexLess(other.name, server.name)))))
  {
    hide EffectivePublicPath, CleanRooted, TrimSpace;
    LexLessTotal(other.ns, server.ns);
  }

  /** The owner has a claim, and whoever has one does not come before the owner. */
  lemma OwnerMeans(owner: Option<Server>, server: Server, all: seq<Server>, o: Server)
    requires IsOwner(owner, server, all)
    ensures owner.Some? ==>
              var w := owner.value;
              && w in all
              && (w.ns != server.ns || w.name != server.name) && !w.deleting
              && PublicRouteOf(w).path == PublicRouteOf(server).path != ""
              && (TrimSpace(w.ingressHost) == "" || TrimSpace(server.ingressHost) == ""
                  || ToLower(TrimSpace(w.ingressHost)) == ToLower(TrimSpace(server.ingressHost)))
              && (w.created < server.created
                  || (w.created == server.created && (LexLess(w.ns, server.ns) || (w.ns == server.ns && LexLess(w.name, server.name)))))
    ensures && o in all
            && (o.ns != server.ns || o.name != server.name) && !o.deleting
            && PublicRouteOf(o).path == PublicRouteOf(server).path != ""
            && (TrimSpace(o.ingressHost) == "" || TrimSpace(server.ingressHost) == ""
                || ToLower(TrimSpace(o.ingressHost)) == ToLower(TrimSpace(server.ingressHost)))
            && (o.created < server.created
                || (o.created == server.created && (LexLess(o.ns, server.ns) || (o.ns == server.ns && LexLess(o.name, server.name))))) ==>
              owner.Some? && (owner.value.created < o.created
                              || (owner.value.created == o.created && !LexLess(o.ns, owner.value.ns)
                                  && (o.ns == owner.value.ns ==> !LexLess(o.name, owner.value.name))))
  {
    ClaimMeans(o, server);
    if owner.Some? {
      ClaimMeans(owner.value, server);
      LexLessTotal(o.ns, owner.value.ns);
    }
    hide PublicRouteOf, Claims, LexLess, ToLower, TrimSpace;
  }

  method PublicRouteOwner(server: Server, all: seq<Server>) returns (owner: Option<Server>)
    ensures IsOwner(owner, server, all)
  {
    hide PublicRouteOf, OlderServer;
    var route := PublicRouteOf(server);
    owner := None;
    for i := 0 to |all|
      invariant IsOwner(owner, server, all[..i])
    {
      var other := all[i];
      assert all[..i + 1] == all[..i] + [other];
      if other.Key() == server.Key() {
        continue;
      }
      if other.deleting || !PublicRouteOf(other).Overlaps(route) {
        continue;
      }
      if OlderServer(other, server) && (owner == None || OlderServer(other, owner.value)) {
        forall o | o in all[..i] && Claims(o, server) ensures !OlderServer(o, other) {
          OlderIsStrictTotalOrder(o, other, owner.value);
        }
        OlderIsStrictTotalOrder(other, other, other);
        owner := Some(other);
      }
    }
    assert all[..|all|] == all;
  }

  /** A list as the API server returns it: one object per namespace/name. */
  ghost predicate OneObjectPerKey(all: seq<Server>) {
    forall a, b :: a in all && b in all && a.Key() == b.Key() ==> a == b
  }

  /** The answer depends on the set of listed servers, not on list order. */
  lemma OwnerIgnoresListOrder(server: Server, all: seq<Server>, all': seq<Server>, w: Option<Server>, w': Option<Server>)
    requires OneObjectPerKey(all)
    requires multiset(all) == multiset(all')
    requires IsOwner(w, server, all) && IsOwner(w', server, all')
    ensures w == w'
  {
    hide PublicRouteOf, OlderServer;
    MultisetMembers(all, all');
    assert forall o :: o in all <==> o in Elements(all);
    assert forall o :: o in all' <==> o in Elements(all');
    if w.Some? && w'.Some? {
      OlderIsStrictTotalOrder(w.value, w'.value, w.value);
    }
  }

  lemma OverlapsSymmetric(a: PublicRoute, b: PublicRoute)
    ensures a.Overlaps(b) <==> b.Overlaps(a)
  {
  }

  /** Live servers without an owner never share a route, although `Overlaps` is not transitive. */
  lemma UnownedDoNotOverlap(a: Server, b: Server, all: seq<Server>)
    requires a in all && b in all && a.Key() != b.Key()
    requires !a.deleting && !b.deleting
    requires Unowned(a, all) && Unowned(b, all)
    ensures !PublicRouteOf(a).Overlaps(PublicRouteOf(b))
  {
    hide PublicRouteOf, OlderServer;
    OlderIsStrictTotalOrder(a, b, a);
    OverlapsSymmetric(PublicRouteOf(a), PublicRouteOf(b));
    assert !Claims(a, b) && !Claims(b, a);
  }

  lemma OverlapsIsNotTransitive()
    ensures exists a: PublicRoute, b: PublicRoute, c: PublicRoute ::
              a.Overlaps(b) && b.Overlaps(c) && !a.Overlaps(c)
  {
    var a, b, c := PublicRoute("a", "/mcp"), PublicRoute("", "/mcp"), PublicRoute("c", "/mcp");
    assert a.Overlaps(b) && b.Overlaps(c) && !a.Overlaps(c);
  }

  /** The oldest live server always owns its route. */
  lemma OldestIsUnowned(server: Server, all: seq<Server>)
    requires forall o :: o in all && !o.deleting && o.Key() != server.Key() ==> OlderServer(server, o)
    ensures Unowned(server, all)
  {
    hide PublicRouteOf, OlderServer;
    forall o | o in all ensures !Claims(o, server) {
      OlderIsStrictTotalOrder(server, o, server);
    }
  }

  /** So as long as some server is live, some live server serves its route. */
  lemma {:induction false} SomeLiveServerIsUnowned(all: seq<Server>, live: Server)
    requires live in all && !live.deleting && OneObjectPerKey(all)
    ensures exists s :: s in all && !s.deleting && Unowned(s, all)
  {
    hide PublicRouteOf, OlderServer;
    var oldest := OldestLive(all, live);
    OldestIsUnowned(oldest, all);
  }

  lemma {:induction false} OldestLive(all: seq<Server>, live: Server) returns (oldest: Server)
    requires live in all && !live.deleting && OneObjectPerKey(all)
    ensures oldest in all && !oldest.deleting
    ensures forall o :: o in all && !o.deleting && o.Key() != oldest.Key() ==> OlderServer(oldest, o)
  {
    hide OlderServer;
    oldest := live;
    for i := 0 to |all|
      invariant oldest in all && !oldest.deleting
      invariant forall o :: o in all[..i] && !o.deleting && o.Key() != oldest.Key() ==> OlderServer(oldest, o)
    {
      var other := all[i];
      assert all[..i + 1] == all[..i] + [other];
      forall o | o in all[..i] && !o.deleting
        ensures OlderServer(oldest, o) && OlderServer(other, oldest) ==> OlderServer(other, o)
      {
        OlderIsStrictTotalOrder(other, oldest, o);
      }
      OlderIsStrictTotalOrder(other, oldest, other);
      if !other.deleting && OlderServer(other, oldest) {
        oldest := other;
      }
    }
    assert all[..|all|] == all;
  }

  /** Deleting any servers never takes a route away from a server that owns it. */
  lemma DeletionKeepsUnowned(server: Server, all: seq<Server>, fewer: seq<Server>)
    requires Unowned(server, all)
    requires forall o :: o in fewer && !o.deleting ==> o in all
    ensures Unowned(server, fewer)
  {
    hide PublicRouteOf, OlderServer;
  }

  /** Nor does adding servers that come later in the order. */
  lemma YoungerServersKeepUnowned(server: Server, all: seq<Server>, more: seq<Server>)
    requires Unowned(server, all)
    requires forall o :: o in more ==> o in all || OlderServer(server, o)
    ensures Unowned(server, more)
  {
    hide PublicRouteOf, OlderServer;
    forall o | o in more ensures !Claims(o, server) {
      OlderIsStrictTotalOrder(server, o, server);
    }
  }

  /** The served set is independent but not maximal: a refused host-less server still refuses
      a younger one that conflicts with nobody who is served. */
  lemma RefusedServerStillRefuses(a: Server, b: Server, c: Server)
    requires OlderServer(a, b) && OlderServer(b, c)
    requires !a.deleting && !b.deleting && !c.deleting
    requires a.Key() != b.Key() && b.Key() != c.Key()
    requires PublicRouteOf(b).host == "" && PublicRouteOf(a).path == PublicRouteOf(b).path == PublicRouteOf(c).path != ""
    requires PublicRouteOf(a).host != "" && PublicRouteOf(c).host != "" && PublicRouteOf(a).host != PublicRouteOf(c).host
    ensures var all := [a, b, c];
            && Unowned(a, all) && !Unowned(b, all) && !Unowned(c, all)
            && forall o :: o in all && Unowned(o, all) ==> !PublicRouteOf(o).Overlaps(PublicRouteOf(c))
  {
    hide PublicRouteOf, OlderServer;
    OlderIsStrictTotalOrder(a, b, c);
    OlderIsStrictTotalOrder(a, c, a);
    var all := [a, b, c];
    assert a in all && b in all;
    assert Claims(a, b) && Claims(b, c);
    assert !Claims(b, a) && !Claims(c, a);
    assert forall o :: o in all ==> o == a || o == b || o == c;
  }

  /** Three such servers exist. */
  lemma RefusedServerExample(a: Server, b: Server, c: Server)
    requires ExampleServer(a, "a", "a", 1) && ExampleServer(b, "b", "", 2) && ExampleServer(c, "c", "c", 3)
    ensures !Unowned(c, [a, b, c]) && Unowned(a, [a, b, c])
    ensures forall o :: o in [a, b, c] && Unowned(o, [a, b, c]) ==> !PublicRouteOf(o).Overlaps(PublicRouteOf(c))
  {
    ExampleFacts(a, b, c);
    hide *;
    RefusedServerStillRefuses(a, b, c);
  }

  /** A live server with one path on the given ingress host. */
  predicate ExampleServer(s: Server, name: string, host: string, created: int) {
    && s.ns == "n" && s.name == name && s.created == created && !s.deleting
    && s.ingressHost == host && s.ingressPath == "/m" && s.publicPathPrefix == ""
  }

  lemma ExampleFacts(a: Server, b: Server, c: Server)
    requires ExampleServer(a, "a", "a", 1) && ExampleServer(b, "b", "", 2) && ExampleServer(c, "c", "c", 3)
    ensures OlderServer(a, b) && OlderServer(b, c) && a.Key() != b.Key() && b.Key() != c.Key()
    ensures !a.deleting && !b.deleting && !c.deleting
    ensures PublicRouteOf(b).host == "" && PublicRouteOf(a).path == PublicRouteOf(b).path == PublicRouteOf(c).path != ""
    ensures PublicRouteOf(a).host != "" && PublicRouteOf(c).host != "" && PublicRouteOf(a).host != PublicRouteOf(c).host
  {
    hide PublicRouteOf, OlderServer;
    ExampleOrder(a, b);
    ExampleOrder(b, c);
    ExampleRoute(a);
    ExampleRoute(b);
    ExampleRoute(c);
  }

  lemma ExampleOrder(a: Server, b: Server)
    requires a.created < b.created && a.name != b.name
    ensures OlderServer(a, b) && a.Key() != b.Key()
  {
  }

  lemma ExampleRoute(s: Server)
    requires s.ingressHost == "" || s.ingressHost == "a" || s.ingressHost == "c"
    requires s.ingressPath == "/m" && s.publicPathPrefix == ""
    ensures PublicRouteOf(s) == PublicRoute(s.ingressHost, "/m")
  {
    TrimSpaceFixed("/m");
    TrimSpaceFixed(s.ingressHost);
    hide *;
    ExamplePath(s);
    CleanExample();
    LowerExample(s.ingressHost);
    RouteOfParts(s);
  }

  lemma RouteOfParts(s: Server)
    ensures var path := TrimSpace(EffectivePublicPath(s));
            PublicRouteOf(s) == PublicRoute(ToLower(TrimSpace(s.ingressHost)), if path != "" then CleanRooted(path) else path)
  {
  }

  lemma ExamplePath(s: Server)
    requires s.ingressPath == "/m" && s.publicPathPrefix == ""
    ensures EffectivePublicPath(s) == "/m"
  {
  }

  lemma LowerExample(h: string)
    requires h == "" || h == "a" || h == "c"
    ensures ToLower(h) == h
  {
  }

  lemma CleanExample()
    ensures CleanRooted("/m") == "/m"
  {
    SplitCons("", "m", '/');
    SplitPlain("m", '/');
    assert "/m" == "" + ['/'] + "m";
    assert Split("/m", '/') == ["", "m"];
    assert ["", "m"][1..] == ["m"];
    assert CleanParts(["", "m"], []) == CleanParts(["m"], []);
    assert ["m"][1..] == [] && [] + ["m"] == ["m"];
    assert CleanParts(["m"], []) == CleanParts([], ["m"]);
  }
}
