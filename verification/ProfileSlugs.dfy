/** Local path segments of adapter profiles (internal/adapterd/profile.go, router.go). */
module ProfileSlugs {
  import opened Text
  import opened Wrappers

  predicate SlugChar(c: char) { 'a' <= c <= 'z' || '0' <= c <= '9' || c == '-' }

  predicate SlugText(s: string) { s != "" && forall c :: c in s ==> SlugChar(c) }

  predicate IsDash(c: char) { c == '-' }

  predicate IsSlash(c: char) { c == '/' }

  // ---------- SlugFromServer ----------

  function SlugRune(c: char): string {
    if SlugChar(c) then [c] else if c == '_' || c == '.' || c == ' ' then "-" else ""
  }

  function SlugRunes(s: string): (r: string)
    ensures forall c :: c in r ==> SlugChar(c)
  {
    if s == "" then "" else SlugRunes(s[..|s| - 1]) + SlugRune(s[|s| - 1])
  }

  lemma NoSlugRunes()
    ensures SlugRunes("") == ""
  {
  }

  lemma SlugRunesSnoc(s: string, c: char)
    ensures SlugRunes(s + [c]) == SlugRunes(s) + SlugRune(c)
  {
    assert (s + [c])[..|s|] == s;
  }

  /** Slug characters stay, the three separators become a dash, everything else goes. */
  lemma SlugRuneMeans(c: char)
    ensures SlugRunes([c]) ==
            if 'a' <= c <= 'z' || '0' <= c <= '9' || c == '-' then [c]
            else if c in {'_', '.', ' '} then "-"
            else ""
  {
    NoSlugRunes();
    SlugRunesSnoc("", c);
    assert "" + [c] == [c];
  }

  lemma {:induction false} SlugRunesConcat(a: string, b: string)
    ensures SlugRunes(a + b) == SlugRunes(a) + SlugRunes(b)
  {
    NoSlugRunes();
    hide SlugRunes, SlugRune;
    if b == "" {
      assert a + b == a;
    } else {
      var n := |b| - 1;
      SlugRunesConcat(a, b[..n]);
      assert a + b == (a + b[..n]) + [b[n]] && b == b[..n] + [b[n]];
      SlugRunesSnoc(a + b[..n], b[n]);
      SlugRunesSnoc(b[..n], b[n]);
    }
  }

  /** The slug a server name gives, unless nothing is left of it or it is the reserved one. */
  function SlugOf(server: string): Option<string> {
    var slug := Trim(SlugRunes(ToLower(TrimSpace(server))), IsDash);
    if slug == "" || slug == "mcp" then None else Some(slug)
  }

  method SlugFromServer(server: string) returns (r: Option<string>)
    ensures r == SlugOf(server)
    ensures r.Some? ==> SlugText(r.value) && r.value != "mcp" && r.value[0] != '-' && r.value[|r.value| - 1] != '-'
  {
    hide TrimSpace, Trim, ToLower, SlugRunes;
    var lowered := ToLower(TrimSpace(server));
    var b := "";
    NoSlugRunes();
    for i := 0 to |lowered|
      invariant b == SlugRunes(lowered[..i])
    {
      var c := lowered[i];
      SlugRunesSnoc(lowered[..i], c);
      assert lowered[..i + 1] == lowered[..i] + [c];
      if 'a' <= c <= 'z' || '0' <= c <= '9' || c == '-' {
        b := b + [c];
      } else if c == '_' || c == '.' || c == ' ' {
        b := b + "-";
      }
    }
    assert lowered[..|lowered|] == lowered;
    var slug := Trim(b, IsDash);
    if slug == "" || slug == "mcp" {
      return None;
    }
    return Some(slug);
  }

  lemma {:induction false} SlugRunesKeep(s: string)
    requires forall c :: c in s ==> SlugChar(c)
    ensures SlugRunes(s) == s
  {
    NoSlugRunes();
    hide SlugRunes, SlugChar;
    if s != "" {
      var n := |s| - 1;
      SlugRunesKeep(s[..n]);
      SlugRunesSnoc(s[..n], s[n]);
      assert s == s[..n] + [s[n]] && s[n] in s;
    }
  }

  lemma LowerKeepsSlugs(s: string)
    requires forall c :: c in s ==> SlugChar(c)
    ensures ToLower(s) == s
  {
    forall i | 0 <= i < |s| ensures ToLower(s)[i] == s[i] {
      assert s[i] in s;
    }
  }

  lemma TrimDashFixed(s: string)
    requires s != "" && s[0] != '-' && s[|s| - 1] != '-'
    ensures Trim(s, IsDash) == s
  {
  }

  /** A name that is a slug already is its own slug, whatever white space is around it. */
  lemma SlugIsFixed(s: string)
    requires SlugText(s) && s[0] != '-' && s[|s| - 1] != '-'
    ensures SlugOf(s) == if s == "mcp" then None else Some(s)
  {
    assert SlugChar(s[0]) && SlugChar(s[|s| - 1]);
    hide TrimSpace, Trim, ToLower, SlugRunes;
    TrimSpaceFixed(s);
    TrimDashFixed(s);
    LowerKeepsSlugs(s);
    SlugRunesKeep(s);
  }

  // ---------- UniqueSlug ----------

  function Candidate(base: string, n: nat): string { base + "-" + Decimal(n) }

  lemma CandidatesDiffer(base: string, m: nat, n: nat)
    requires m != n
    ensures Candidate(base, m) != Candidate(base, n) && Candidate(base, m) != base
  {
    NatOfDecimal(m);
    NatOfDecimal(n);
    assert Candidate(base, m)[|base| + 1..] == Decimal(m);
    assert Candidate(base, n)[|base| + 1..] == Decimal(n);
    assert |Candidate(base, m)| > |base|;
  }

  /** The names probed before suffix n. */
  ghost function Probed(base: string, n: nat): set<string>
    requires n >= 2
  {
    if n == 2 then {base} else Probed(base, n - 1) + {Candidate(base, n - 1)}
  }

  lemma {:induction false} ProbedAreDistinct(base: string, n: nat)
    requires n >= 2
    ensures |Probed(base, n)| == n - 1
    ensures forall m :: m >= n ==> Candidate(base, m) !in Probed(base, n)
    ensures forall x :: x in Probed(base, n) <==> x == base || exists m :: 2 <= m < n && x == Candidate(base, m)
  {
    hide Candidate;
    forall m | m >= n ensures Candidate(base, m) != base && (n > 2 ==> Candidate(base, m) != Candidate(base, n - 1)) {
      CandidatesDiffer(base, m, n - 1);
    }
    if n > 2 {
      ProbedAreDistinct(base, n - 1);
    }
  }

  /** The base if it is free, and else its free candidate of least suffix from 2 up. */
  ghost predicate LeastFree(base: string, taken: set<string>, slug: string, probes: nat) {
    && slug !in taken
    && if base !in taken then slug == base && probes == 1
       else probes >= 2 && slug == Candidate(base, probes) && forall m :: 2 <= m < probes ==> Candidate(base, m) in taken
  }

  lemma LeastFreeMeans(base: string, taken: set<string>, slug: string, probes: nat)
    requires LeastFree(base, taken, slug, probes)
    ensures base in taken ==>
              && probes >= 2 && slug == base + "-" + Decimal(probes)
              && forall m: nat :: 2 <= m < probes ==> base + "-" + Decimal(m) in taken
  {
    hide Decimal;
    if base in taken {
      forall m: nat | 2 <= m < probes ensures base + "-" + Decimal(m) in taken {
        assert Candidate(base, m) in taken;
      }
    }
  }

  method ProbeLoop(base: string, taken: set<string>) returns (slug: string, probes: nat)
    ensures LeastFree(base, taken, slug, probes) && probes <= |taken| + 1
  {
    if base !in taken {
      return base, 1;
    }
    var n := 2;
    var candidate := Candidate(base, n);
    ProbedAreDistinct(base, n);
    SubsetSize(Probed(base, n), taken);
    while candidate in taken
      invariant n >= 2 && candidate == Candidate(base, n)
      invariant Probed(base, n) <= taken && n - 1 <= |taken|
      decreases |taken| + 1 - n
    {
      n := n + 1;
      candidate := Candidate(base, n);
      ProbedAreDistinct(base, n);
      SubsetSize(Probed(base, n), taken);
    }
    ProbedAreDistinct(base, n);
    return candidate, n;
  }

  /** Found within |taken| + 1 probes. */
  method UniqueSlug(base: string, taken: set<string>) returns (slug: string, probes: nat)
    ensures LeastFree(base, taken, slug, probes) && probes <= |taken| + 1
    ensures base !in taken ==> slug == base
    ensures base in taken ==>
              && slug !in taken && probes >= 2 && slug == base + "-" + Decimal(probes)
              && forall m: nat :: 2 <= m < probes ==> base + "-" + Decimal(m) in taken
  {
    slug, probes := ProbeLoop(base, taken);
    LeastFreeMeans(base, taken, slug, probes);
    hide Decimal, Candidate;
  }

  lemma UniqueSlugIsSlugText(base: string, slug: string)
    requires SlugText(base) && (slug == base || exists n: nat :: slug == Candidate(base, n))
    ensures SlugText(slug)
  {
    if slug != base {
      var n: nat :| slug == Candidate(base, n);
      assert forall c :: c in Decimal(n) ==> IsDigit(c);
      assert '-' in "-";
    }
  }

  // ---------- Routing a path back to its slug ----------

  predicate HasDotDot(s: string) { exists i :: 0 <= i < |s| - 1 && s[i] == '.' && s[i + 1] == '.' }

  function SplitProfilePath(path: string): Option<(string, string)> {
    var parts := Split(Trim(path, IsSlash), '/');
    if |parts| < 2 || parts[1] != "mcp" then None
    else if parts[0] == "" || HasDotDot(parts[0]) then None
    else Some((parts[0], "/" + Join(parts[1..], "/")))
  }

  function LocalPath(slug: string): string { "/" + slug + "/mcp" }

  /** `Profile.LocalURL`. */
  function LocalURL(listenAddr: string, slug: string): string {
    "http://" + (if listenAddr == "" then "127.0.0.1:8099" else listenAddr) + LocalPath(slug)
  }

  lemma TrimLocalPath(slug: string)
    requires slug != "" && slug[0] != '/'
    ensures Trim(LocalPath(slug), IsSlash) == slug + ['/'] + "mcp"
  {
    var path := LocalPath(slug);
    var inner := slug + ['/'] + "mcp";
    assert path[1..] == inner && path[0] == '/';
    assert TrimLeft(inner, IsSlash) == inner;
    assert TrimLeft(path, IsSlash) == TrimLeft(path[1..], IsSlash);
    assert inner[|inner| - 1] == 'p';
  }

  lemma LocalPathParts(slug: string)
    requires slug != "" && '/' !in slug
    ensures Split(Trim(LocalPath(slug), IsSlash), '/') == [slug, "mcp"]
  {
    hide *;
    assert slug[0] in slug;
    assert '/' !in "mcp";
    TrimLocalPath(slug);
    SplitCons(slug, "mcp", '/');
    SplitPlain("mcp", '/');
  }

  lemma SplitOf(path: string, slug: string)
    requires Split(Trim(path, IsSlash), '/') == [slug, "mcp"]
    ensures SplitProfilePath(path) == if slug == "" || HasDotDot(slug) then None else Some((slug, "/mcp"))
  {
    hide Split, Trim, HasDotDot;
    assert [slug, "mcp"][1..] == ["mcp"];
    assert Join(["mcp"], "/") == "mcp";
    assert "/" + "mcp" == "/mcp";
    assert [slug, "mcp"][1] == "mcp" && [slug, "mcp"][0] == slug;
  }

  lemma SplitGivesSegment(path: string)
    requires SplitProfilePath(path).Some?
    ensures var slug := SplitProfilePath(path).value.0;
            slug != "" && '/' !in slug && !HasDotDot(slug)
  {
  }

  /** The local path of a slug is routed to that slug with "/mcp" exactly when the slug is a
      single, non-empty segment without "..". */
  lemma RoutesBackIff(slug: string)
    ensures SplitProfilePath(LocalPath(slug)) == Some((slug, "/mcp")) <==> slug != "" && '/' !in slug && !HasDotDot(slug)
  {
    hide SplitProfilePath, LocalPath, HasDotDot;
    if slug != "" && '/' !in slug {
      LocalPathParts(slug);
      SplitOf(LocalPath(slug), slug);
    }
    if SplitProfilePath(LocalPath(slug)).Some? {
      SplitGivesSegment(LocalPath(slug));
    }
  }

  /** Every slug the daemon hands out routes back to itself. */
  lemma SlugsRouteBack(slug: string)
    requires SlugText(slug)
    ensures SplitProfilePath(LocalPath(slug)) == Some((slug, "/mcp"))
  {
    assert '/' !in slug;
    forall i | 0 <= i < |slug| ensures slug[i] != '.' {
      assert slug[i] in slug;
    }
    RoutesBackIff(slug);
  }

  /** Whatever follows "/mcp" in the path goes on to the server behind the slug. */
  lemma DeeperPathsRouteBack(slug: string, rest: string)
    requires SlugText(slug) && rest != "" && rest[|rest| - 1] != '/'
    ensures SplitProfilePath("/" + slug + "/mcp/" + rest) == Some((slug, "/mcp/" + rest))
  {
    hide *;
    var path, tail := "/" + slug + "/mcp/" + rest, "mcp" + ['/'] + rest;
    SlugSegment(slug);
    assert path == "/" + (slug + ['/'] + tail);
    TrimFirst(path, slug + ['/'] + tail);
    SplitCons(slug, tail, '/');
    SplitCons("mcp", rest, '/');
    JoinSplit(tail, '/');
    SplitParts(path, slug, Split(tail, '/'));
    assert "/" + tail == "/mcp/" + rest;
  }

  lemma SlugSegment(slug: string)
    requires SlugText(slug)
    ensures slug != "" && slug[0] != '/' && '/' !in slug && !HasDotDot(slug) && '/' !in "mcp"
  {
    assert slug[0] in slug;
    forall i | 0 <= i < |slug| ensures slug[i] != '.' {
      assert slug[i] in slug;
    }
  }

  lemma SplitParts(path: string, slug: string, parts: seq<string>)
    requires Split(Trim(path, IsSlash), '/') == [slug] + parts && parts != [] && parts[0] == "mcp"
    requires slug != "" && !HasDotDot(slug)
    ensures SplitProfilePath(path) == Some((slug, "/" + Join(parts, ['/'])))
  {
    hide Split, Trim, HasDotDot, Join;
    assert ([slug] + parts)[1..] == parts && ['/'] == "/";
  }

  lemma TrimFirst(path: string, inner: string)
    requires path == "/" + inner && inner != "" && inner[0] != '/' && inner[|inner| - 1] != '/'
    ensures Trim(path, IsSlash) == inner
  {
    assert path[1..] == inner;
    assert TrimLeft(inner, IsSlash) == inner;
  }
}
