/** `ReleaseVersion.Match` accepts what the pattern of internal/platformrelease/version.go (17)
    matches, and its pieces are the groups of the pattern. */
module VersionPatterns {
  import opened ReleaseVersion
  import opened Patterns
  import opened Text
  import opened Wrappers

  const PRE := [('0', '9'), ('A', 'Z'), ('a', 'z'), ('.', '.'), ('-', '-')]

  /** `0|[1-9]\d*` */
  function NumberPattern(): Re { Alt(Literal("0"), Cat(Class([('1', '9')]), Star(Class([('0', '9')])))) }

  function CorePattern(): Re {
    Cat(NumberPattern(), Cat(Literal("."), Cat(NumberPattern(), Cat(Literal("."), NumberPattern()))))
  }

  function SuffixPattern(mark: string): Re { Opt(Cat(Literal(mark), Plus(Class(PRE)))) }

  /** `v?N\.N\.N(?:-([0-9A-Za-z.-]+))?(?:\+[0-9A-Za-z.-]+)?` */
  function VersionPattern(): Re {
    Cat(Opt(Literal("v")), Cat(CorePattern(), Cat(SuffixPattern("-"), SuffixPattern("+"))))
  }

  // ---------- What the recogniser accepts ----------

  predicate Suffix(s: string) { s == "" || PreText(s) }

  function Marked(mark: string, s: string): string { if s == "" then "" else mark + s }

  function Core(p: Pieces): string { p.major + ("." + (p.minor + ("." + p.patch))) }

  function Full(v: string, p: Pieces, build: string): string { v + (Core(p) + (Marked("-", p.pre) + Marked("+", build))) }

  lemma RenderIs(p: Pieces)
    ensures Render(p) == Core(p) + Marked("-", p.pre)
  {
    assert p.major + "." + p.minor + "." + p.patch == Core(p);
  }

  lemma MatchV(t: string)
    requires t != "" && t[0] != 'v'
    ensures Match("v" + t) == Match(t)
  {
    hide CorePieces, PreText, IndexOf;
    assert ("v" + t)[1..] == t;
  }

  lemma MatchBuild(base: string, build: string)
    requires base != "" && base[0] != 'v' && '+' !in base && PreText(build)
    ensures Match(base + ['+'] + build) == Match(base)
  {
    IndexOfFirst(base, '+', build);
    hide CorePieces, PreText, IndexOf;
    var s := base + ['+'] + build;
    assert s[0] == base[0] && s[..|base|] == base && s[|base| + 1..] == build;
    assert base[..|base|] == base;
  }

  lemma MatchFull(v: string, p: Pieces, build: string)
    requires v in {"", "v"} && WellFormed(p) && Suffix(build)
    ensures Match(Full(v, p, build)) == Some(p)
  {
    var base := Render(p);
    hide Match, WellFormed, PreText, Render;
    RenderIs(p);
    MatchRender(p);
    RenderText(p);
    hide Core;
    var t := base + Marked("+", build);
    Regroup(Core(p), Marked("-", p.pre), Marked("+", build));
    assert t[0] == base[0];
    if build == "" {
      assert t == base;
    } else {
      MatchBuild(base, build);
      assert t == base + ['+'] + build;
    }
    if v == "v" {
      MatchV(t);
    } else {
      assert "" + t == t;
    }
  }

  lemma CoreOf(core: string, pre: string)
    requires Suffix(pre) && CorePieces(core, pre).Some?
    ensures var p := CorePieces(core, pre).value;
            core == Core(p) && p.pre == pre
  {
    hide PreText, CoreNumber;
    var parts := Split(core, '.');
    JoinSplit(core, '.');
    hide Split;
    assert parts[1..] == [parts[1], parts[2]] && [parts[1], parts[2]][1..] == [parts[2]];
    assert Join([parts[1], parts[2]], ['.']) == parts[1] + ['.'] + Join([parts[2]], ['.']);
    assert Join(parts, ['.']) == parts[0] + ['.'] + (parts[1] + ['.'] + parts[2]);
    Dots(parts[0], parts[1], parts[2]);
  }

  lemma Dots(a: string, b: string, c: string)
    ensures a + ['.'] + (b + ['.'] + c) == a + ("." + (b + ("." + c)))
  {
  }

  function Before(s: string, c: char): string { s[..IndexOf(s, c)] }

  function After(s: string, c: char): string { if IndexOf(s, c) < |s| then s[IndexOf(s, c) + 1..] else "" }

  /** Nothing stands behind a mark, or a suffix does. */
  predicate CutsSuffix(s: string, c: char) { c in s ==> PreText(After(s, c)) }

  lemma MarkedCut(s: string, c: char)
    requires CutsSuffix(s, c)
    ensures s == Before(s, c) + Marked([c], After(s, c)) && Suffix(After(s, c))
  {
    PreTextIsText();
    hide IndexOf, PreText;
    var i := IndexOf(s, c);
    if i < |s| {
      assert s == s[..i] + ([c] + s[i + 1..]);
    } else {
      assert s[..|s|] == s;
    }
  }

  lemma MatchSteps(s: string, u: string)
    requires Match(s).Some? && u == if s != "" && s[0] == 'v' then s[1..] else s
    ensures CutsSuffix(u, '+') && CutsSuffix(Before(u, '+'), '-')
    ensures Match(s) == CorePieces(Before(Before(u, '+'), '-'), After(Before(u, '+'), '-'))
  {
    hide CorePieces, PreText, IndexOf;
    var rest := Before(u, '+');
    assert rest[..|rest|] == rest;
  }

  /** How the recogniser cuts a text it accepts. */
  lemma MatchCuts(s: string) returns (v: string, core: string, pre: string, build: string)
    requires Match(s).Some?
    ensures v in {"", "v"} && Suffix(pre) && Suffix(build) && Match(s) == CorePieces(core, pre)
    ensures s == v + ((core + Marked("-", pre)) + Marked("+", build))
  {
    var u;
    v, u := StripV(s);
    MatchSteps(s, u);
    hide *;
    var rest := Before(u, '+');
    MarkedCut(u, '+');
    MarkedCut(rest, '-');
    core, pre, build := Before(rest, '-'), After(rest, '-'), After(u, '+');
  }

  lemma StripV(s: string) returns (v: string, u: string)
    ensures v in {"", "v"} && s == v + u && u == if s != "" && s[0] == 'v' then s[1..] else s
  {
    v := if s != "" && s[0] == 'v' then "v" else "";
    u := s[|v|..];
  }

  lemma MatchGives(s: string) returns (v: string, build: string)
    requires Match(s).Some?
    ensures v in {"", "v"} && WellFormed(Match(s).value) && Suffix(build) && s == Full(v, Match(s).value, build)
  {
    hide Match, CorePieces, PreText, WellFormed, Core, Marked;
    var core, pre;
    v, core, pre, build := MatchCuts(s);
    CoreOf(core, pre);
    Regroup(core, Marked("-", pre), Marked("+", build));
  }

  lemma PreTextIsText()
    ensures !PreText("")
  {
  }

  /** A text is a version exactly when it is a "v" or nothing, well-formed pieces, and a build or
      nothing; the pieces are the ones found. */
  lemma MatchIff(s: string, p: Pieces)
    ensures Match(s) == Some(p) <==>
            WellFormed(p) && exists v, build :: v in {"", "v"} && Suffix(build) && s == Full(v, p, build)
  {
    hide Match, WellFormed, PreText, Full;
    if Match(s) == Some(p) {
      var v, build := MatchGives(s);
    }
    if v, build :| WellFormed(p) && v in {"", "v"} && Suffix(build) && s == Full(v, p, build) {
      MatchFull(v, p, build);
    }
  }

  // ---------- The pattern ----------

  lemma PreClass(c: char)
    ensures InRanges(c, PRE) <==> PreChar(c)
    ensures InRanges(c, [('0', '9')]) <==> IsDigit(c)
    ensures InRanges(c, [('1', '9')]) <==> IsDigit(c) && c != '0'
  {
    assert ('0', '9') in PRE && ('A', 'Z') in PRE && ('a', 'z') in PRE && ('.', '.') in PRE && ('-', '-') in PRE;
    assert ('0', '9') in [('0', '9')] && ('1', '9') in [('1', '9')];
  }

  lemma NumberMatches(s: string)
    ensures CoreNumber(s) <==> In(s, NumberPattern())
  {
    var digits := [('0', '9')];
    forall c {
      PreClass(c);
    }
    LiteralIs("0", s);
    ClassFirst(s, [('1', '9')], Star(Class(digits)));
    hide InRanges, Literal;
    if s != "" {
      StarClass(s[1..], digits);
      assert s == [s[0]] + s[1..];
      assert s[0] == '0' && |s| == 1 ==> s == "0";
    }
  }

  lemma SuffixMatches(mark: string, s: string)
    requires |mark| == 1
    ensures In(s, SuffixPattern(mark)) <==> exists text :: Suffix(text) && s == Marked(mark, text)
  {
    forall c {
      PreClass(c);
    }
    OptMeans(s, Cat(Literal(mark), Plus(Class(PRE))));
    LiteralThen(mark, s, Plus(Class(PRE)));
    assert Suffix("") && Marked(mark, "") == "";
    if s != "" {
      PlusClass(s[1..], PRE);
      hide InRanges, In, PreChar;
      if In(s, SuffixPattern(mark)) {
        assert Suffix(s[1..]) && s == Marked(mark, s[1..]);
      }
      if text :| Suffix(text) && s == Marked(mark, text) {
        assert s[..1] == mark && s[1..] == text;
      }
    }
  }

  lemma CoreMatches(p: Pieces)
    requires CoreNumber(p.major) && CoreNumber(p.minor) && CoreNumber(p.patch)
    ensures In(Core(p), CorePattern())
  {
    NumberMatches(p.major);
    NumberMatches(p.minor);
    NumberMatches(p.patch);
    LiteralIs(".", ".");
    hide In, NumberPattern, Literal, CoreNumber;
    var n, dot := NumberPattern(), Literal(".");
    CatJoin(".", p.patch, dot, n);
    CatJoin(p.minor, "." + p.patch, n, Cat(dot, n));
    CatJoin(".", p.minor + ("." + p.patch), dot, Cat(n, Cat(dot, n)));
    CatJoin(p.major, "." + (p.minor + ("." + p.patch)), n, Cat(dot, Cat(n, Cat(dot, n))));
  }

  lemma CoreGives(s: string, pre: string) returns (p: Pieces)
    requires In(s, CorePattern()) && Suffix(pre)
    ensures WellFormed(p) && s == Core(p) && p.pre == pre
  {
    hide In, NumberPattern, Literal, CoreNumber, PreText;
    var n, dot := NumberPattern(), Literal(".");
    var major, t1 := CatSplit(s, n, Cat(dot, Cat(n, Cat(dot, n))));
    var d1, t2 := CatSplit(t1, dot, Cat(n, Cat(dot, n)));
    var minor, t3 := CatSplit(t2, n, Cat(dot, n));
    var d2, patch := CatSplit(t3, dot, n);
    LiteralIs(".", d1);
    LiteralIs(".", d2);
    NumberMatches(major);
    NumberMatches(minor);
    NumberMatches(patch);
    p := Pieces(major, minor, patch, pre);
  }

  lemma VMatches(v: string)
    ensures In(v, Opt(Literal("v"))) <==> v in {"", "v"}
  {
    OptMeans(v, Literal("v"));
    LiteralIs("v", v);
  }

  /** A text is a version exactly when the pattern matches it from end to end. */
  lemma VersionMatches(s: string)
    ensures Match(s).Some? <==> In(s, VersionPattern())
  {
    hide Match, In, CorePattern, SuffixPattern, PreText, Core, Marked, CoreNumber;
    if Match(s).Some? {
      var v, build := MatchGives(s);
      var p := Match(s).value;
      VMatches(v);
      CoreMatches(p);
      SuffixMatches("-", Marked("-", p.pre));
      SuffixMatches("+", Marked("+", build));
      CatJoin(Marked("-", p.pre), Marked("+", build), SuffixPattern("-"), SuffixPattern("+"));
      CatJoin(Core(p), Marked("-", p.pre) + Marked("+", build), CorePattern(), Cat(SuffixPattern("-"), SuffixPattern("+")));
      CatJoin(v, Core(p) + (Marked("-", p.pre) + Marked("+", build)), Opt(Literal("v")),
              Cat(CorePattern(), Cat(SuffixPattern("-"), SuffixPattern("+"))));
    }
    if In(s, VersionPattern()) {
      var v, t1 := CatSplit(s, Opt(Literal("v")), Cat(CorePattern(), Cat(SuffixPattern("-"), SuffixPattern("+"))));
      var core, t2 := CatSplit(t1, CorePattern(), Cat(SuffixPattern("-"), SuffixPattern("+")));
      var d, b := CatSplit(t2, SuffixPattern("-"), SuffixPattern("+"));
      VMatches(v);
      SuffixMatches("-", d);
      SuffixMatches("+", b);
      var pre :| Suffix(pre) && d == Marked("-", pre);
      var build :| Suffix(build) && b == Marked("+", build);
      var p := CoreGives(core, pre);
      MatchFull(v, p, build);
    }
  }

  // ---------- Commit suffixes ----------

  /** `g[0-9a-f]{40}` */
  function CommitPattern(): Re { Cat(Literal("g"), Times(40, Class([('0', '9'), ('a', 'f')]))) }

  lemma CommitSuffixMatches(s: string)
    ensures CommitSuffix(s) <==> In(s, CommitPattern())
  {
    var hex := [('0', '9'), ('a', 'f')];
    assert ('0', '9') in hex && ('a', 'f') in hex;
    assert forall c :: InRanges(c, hex) <==> Hex(c);
    LiteralThen("g", s, Times(40, Class(hex)));
    hide InRanges, In, Times, Literal, Hex;
    if s != "" {
      var tail := s[1..];
      TimesClass(tail, 40, hex);
      assert s[..1] == [s[0]] && forall i :: 1 <= i < |s| ==> s[i] == tail[i - 1] && s[i] in tail;
    }
  }
}
