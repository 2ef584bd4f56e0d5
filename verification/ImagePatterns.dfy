/** The recognisers of `ImageReference` accept what the patterns of
    internal/platformrelease/image.go (20-25) match. */
module ImagePatterns {
  import opened ImageReference
  import opened Patterns
  import opened Text

  function WordChar(): Re { Class([('a', 'z'), ('0', '9')]) }

  function Separator(): Re { Alt(Class([('.', '.'), ('_', '_')]), Alt(Literal("__"), Plus(Class([('-', '-')])))) }

  function SeparatedWords(): Re { Star(Cat(Separator(), Plus(WordChar()))) }

  /** `[a-z0-9]+(?:(?:[._]|__|-+)[a-z0-9]+)*` */
  function ComponentPattern(): Re { Cat(Plus(WordChar()), SeparatedWords()) }

  function MoreComponents(): Re { Star(Cat(Literal("/"), ComponentPattern())) }

  function RepoPathPattern(): Re { Cat(ComponentPattern(), MoreComponents()) }

  const ALNUM := [('A', 'Z'), ('a', 'z'), ('0', '9')]

  function HostNamePattern(): Re {
    Cat(Class(ALNUM), Opt(Cat(Star(Class(ALNUM + [('.', '.'), ('-', '-')])), Class(ALNUM))))
  }

  /** `[A-Za-z0-9](?:[A-Za-z0-9.-]*[A-Za-z0-9])?(?::[0-9]+)?` */
  function RegistryPattern(): Re { Cat(HostNamePattern(), Opt(Cat(Literal(":"), Plus(Class([('0', '9')]))))) }

  /** `[A-Za-z0-9_][A-Za-z0-9_.-]{0,127}` */
  function TagPattern(): Re {
    Cat(Class(ALNUM + [('_', '_')]), UpTo(127, Class(ALNUM + [('_', '_'), ('.', '.'), ('-', '-')])))
  }

  /** `sha256:[a-f0-9]{64}` */
  function DigestPattern(): Re { Cat(Literal("sha256:"), Times(64, Class([('a', 'f'), ('0', '9')]))) }

  // ---------- Classes ----------

  lemma Classes(c: char)
    ensures InRanges(c, [('a', 'z'), ('0', '9')]) <==> Lower(c)
    ensures InRanges(c, [('.', '.'), ('_', '_')]) <==> c == '.' || c == '_'
    ensures InRanges(c, [('-', '-')]) <==> c == '-'
    ensures InRanges(c, [('0', '9')]) <==> IsDigit(c)
    ensures InRanges(c, [('a', 'f'), ('0', '9')]) <==> '0' <= c <= '9' || 'a' <= c <= 'f'
  {
    assert ('a', 'z') in [('a', 'z'), ('0', '9')] && ('0', '9') in [('a', 'z'), ('0', '9')];
    assert ('.', '.') in [('.', '.'), ('_', '_')] && ('_', '_') in [('.', '.'), ('_', '_')];
    assert ('-', '-') in [('-', '-')] && ('0', '9') in [('0', '9')];
    assert ('a', 'f') in [('a', 'f'), ('0', '9')] && ('0', '9') in [('a', 'f'), ('0', '9')];
  }

  lemma AlnumClasses(c: char)
    ensures InRanges(c, ALNUM) <==> Alnum(c)
    ensures InRanges(c, ALNUM + [('.', '.'), ('-', '-')]) <==> Alnum(c) || c == '.' || c == '-'
    ensures InRanges(c, ALNUM + [('_', '_')]) <==> Alnum(c) || c == '_'
    ensures InRanges(c, ALNUM + [('_', '_'), ('.', '.'), ('-', '-')]) <==> TagChar(c)
  {
    AlnumRanges(c);
    hide Alnum;
    MoreRanges(c, ALNUM, [('.', '.'), ('-', '-')]);
    MoreRanges(c, ALNUM, [('_', '_')]);
    MoreRanges(c, ALNUM, [('_', '_'), ('.', '.'), ('-', '-')]);
    FewRanges(c);
    hide InRanges;
  }

  lemma AlnumRanges(c: char)
    ensures InRanges(c, ALNUM) <==> Alnum(c)
  {
    assert ('A', 'Z') in ALNUM && ('a', 'z') in ALNUM && ('0', '9') in ALNUM;
  }

  lemma FewRanges(c: char)
    ensures InRanges(c, [('.', '.'), ('-', '-')]) <==> c == '.' || c == '-'
    ensures InRanges(c, [('_', '_')]) <==> c == '_'
    ensures InRanges(c, [('_', '_'), ('.', '.'), ('-', '-')]) <==> c == '_' || c == '.' || c == '-'
  {
    assert ('.', '.') in [('.', '.'), ('-', '-')] && ('-', '-') in [('.', '.'), ('-', '-')] && ('_', '_') in [('_', '_')];
    var all := [('_', '_'), ('.', '.'), ('-', '-')];
    assert ('_', '_') in all && ('.', '.') in all && ('-', '-') in all;
  }

  lemma MoreRanges(c: char, a: seq<(char, char)>, b: seq<(char, char)>)
    ensures InRanges(c, a + b) <==> InRanges(c, a) || InRanges(c, b)
  {
    assert forall r :: r in a + b <==> r in a || r in b;
  }

  // ---------- Tags and digests ----------

  lemma TagMatches(s: string)
    ensures ValidTag(s) <==> In(s, TagPattern())
  {
    var first, more := ALNUM + [('_', '_')], ALNUM + [('_', '_'), ('.', '.'), ('-', '-')];
    forall c {
      AlnumClasses(c);
    }
    ClassFirst(s, first, UpTo(127, Class(more)));
    hide InRanges, In, Alnum, UpTo, ALNUM;
    if s != "" {
      UpToClass(s[1..], 127, more);
      assert s == [s[0]] + s[1..] && s[0] in s;
    }
  }

  lemma DigestMatches(s: string)
    ensures ValidDigest(s) <==> In(s, DigestPattern())
  {
    var hex := [('a', 'f'), ('0', '9')];
    forall c {
      Classes(c);
    }
    LiteralThen("sha256:", s, Times(64, Class(hex)));
    hide InRanges, In, Times, Literal;
    if |s| >= 7 {
      TimesClass(s[7..], 64, hex);
      HexTail(s);
    }
  }

  lemma HexTail(s: string)
    requires |s| >= 7
    ensures |s| == 71 && (forall i :: 7 <= i < 71 ==> '0' <= s[i] <= '9' || 'a' <= s[i] <= 'f') <==>
            |s[7..]| == 64 && AllIn(s[7..], [('a', 'f'), ('0', '9')])
  {
    forall c {
      Classes(c);
    }
    hide InRanges;
    var tail := s[7..];
    assert forall i :: 7 <= i < |s| ==> s[i] == tail[i - 7] && s[i] in tail;
  }

  // ---------- Registry hosts ----------

  lemma HostNameMatches(s: string)
    ensures HostName(s) <==> In(s, HostNamePattern())
  {
    var middle := ALNUM + [('.', '.'), ('-', '-')];
    forall c {
      AlnumClasses(c);
    }
    ClassFirst(s, ALNUM, Opt(Cat(Star(Class(middle)), Class(ALNUM))));
    if s != "" {
      EndsInClass(s[1..], middle);
      hide InRanges, In, Alnum, ALNUM;
      assert s == [s[0]] + s[1..] && s[0] in s;
      if |s| > 1 {
        assert s[1..] == s[1..|s| - 1] + [s[|s| - 1]] && s[|s| - 1] in s;
      }
    }
  }

  lemma EndsInClass(s: string, middle: seq<(char, char)>)
    ensures In(s, Opt(Cat(Star(Class(middle)), Class(ALNUM)))) <==>
            s == "" || (InRanges(s[|s| - 1], ALNUM) && AllIn(s[..|s| - 1], middle))
  {
    OptMeans(s, Cat(Star(Class(middle)), Class(ALNUM)));
    if s != "" {
      var head, last := s[..|s| - 1], [s[|s| - 1]];
      assert s == head + last;
      StarClass(head, middle);
      assert In(last, Class(ALNUM)) <==> InRanges(last[0], ALNUM);
      assert forall y :: In(y, Class(ALNUM)) ==> |y| == 1;
      hide In, InRanges, AllIn;
      if In(head, Star(Class(middle))) && In(last, Class(ALNUM)) {
        CatJoin(head, last, Star(Class(middle)), Class(ALNUM));
      }
      if In(s, Cat(Star(Class(middle)), Class(ALNUM))) {
        var x, y := CatSplit(s, Star(Class(middle)), Class(ALNUM));
        assert x == head && y == last;
      }
    }
  }

  /** No host name holds a colon. */
  lemma HostMatches(s: string)
    ensures HostPattern(s) <==> In(s, RegistryPattern())
  {
    var port := Cat(Literal(":"), Plus(Class([('0', '9')])));
    hide In, HostName, HostNamePattern, CutFirst, RegistryPattern;
    if HostPattern(s) {
      var cut := CutFirst(s, ':');
      HostNameMatches(cut.head);
      if cut.tail.Some? {
        PortMatches([':'] + cut.tail.value);
        assert ([':'] + cut.tail.value)[1..] == cut.tail.value;
        OptMeans([':'] + cut.tail.value, port);
        CatJoin(cut.head, [':'] + cut.tail.value, HostNamePattern(), Opt(port));
        assert s == cut.head + ([':'] + cut.tail.value);
      } else {
        OptMeans("", port);
        CatJoin(cut.head, "", HostNamePattern(), Opt(port));
        assert s == cut.head + "";
      }
      RegistryIs();
    }
    if In(s, RegistryPattern()) {
      RegistryIs();
      var x, y := CatSplit(s, HostNamePattern(), Opt(port));
      HostNameMatches(x);
      NoColon(x);
      OptMeans(y, port);
      PortMatches(y);
      if y != "" {
        assert s == x + [':'] + y[1..];
        CutFirstAt(x, ':', y[1..]);
      } else {
        assert s == x;
        CutFirstAt(x, ':', "");
      }
    }
  }

  lemma RegistryIs()
    ensures RegistryPattern() == Cat(HostNamePattern(), Opt(Cat(Literal(":"), Plus(Class([('0', '9')])))))
  {
  }

  lemma PortMatches(s: string)
    ensures In(s, Cat(Literal(":"), Plus(Class([('0', '9')])))) <==> |s| >= 2 && s[0] == ':' && AllDigits(s[1..])
  {
    var digits := [('0', '9')];
    forall c {
      Classes(c);
    }
    LiteralThen(":", s, Plus(Class(digits)));
    hide InRanges, In, Plus;
    if s != "" {
      PlusClass(s[1..], digits);
      assert s[..1] == [s[0]];
    }
  }

  lemma NoColon(s: string)
    requires HostName(s)
    ensures ':' !in s
  {
  }

  // ---------- Repository paths ----------

  lemma WordMatches(s: string)
    ensures In(s, Plus(WordChar())) <==> s != "" && Letters(s)
  {
    forall c {
      Classes(c);
    }
    PlusClass(s, [('a', 'z'), ('0', '9')]);
  }

  lemma SeparatorMatches(s: string)
    ensures In(s, Separator()) <==> s != "" && SeparatorRun(s)
  {
    forall c {
      Classes(c);
    }
    PlusClass(s, [('-', '-')]);
    LiteralIs("__", s);
    hide InRanges, Plus;
    assert In(s, Class([('.', '.'), ('_', '_')])) <==> s == "." || s == "_";
  }

  predicate SeparatorChars(s: string) { forall c :: c in s ==> c == '.' || c == '_' || c == '-' }

  predicate Letters(s: string) { forall c :: c in s ==> Lower(c) }

  /** Reading on from the separator `run`. */
  lemma {:induction false} TailSplits(s: string, run: string) returns (word: string, rest: string)
    requires ComponentTail(s, run)
    ensures run == "" ==>
              s == word + rest && Letters(word) && In(rest, SeparatedWords()) && (s != "" && Lower(s[0]) ==> word != "")
    ensures run != "" ==> In(run + s, SeparatedWords())
  {
    TailStep(s, run);
    if s == "" {
      NoWords();
      word, rest := "", "";
    } else if Lower(s[0]) {
      hide *;
      var more, left := TailSplits(s[1..], "");
      word, rest := [s[0]] + more, left;
      LettersFirst(s[0], more);
      assert s == word + rest;
      if run != "" {
        OneMoreWord(run, word, rest);
      }
    } else {
      hide *;
      var _, _ := TailSplits(s[1..], run + [s[0]]);
      word, rest := "", s;
      NoLetters();
      assert run + s == (run + [s[0]]) + s[1..];
      assert run == "" ==> run + s == s;
      assert s == word + rest;
    }
  }

  lemma NoLetters()
    ensures Letters("")
  {
  }

  lemma LettersFirst(c: char, more: string)
    requires Lower(c) && Letters(more)
    ensures Letters([c] + more)
  {
  }

  lemma TailStep(s: string, run: string)
    requires ComponentTail(s, run)
    ensures s == "" ==> run == ""
    ensures s != "" && Lower(s[0]) ==> SeparatorRun(run) && ComponentTail(s[1..], "")
    ensures s != "" && !Lower(s[0]) ==> ComponentTail(s[1..], run + [s[0]])
  {
    hide SeparatorRun, Lower;
  }

  lemma NoWords()
    ensures In("", SeparatedWords())
  {
  }

  lemma OneMoreWord(run: string, word: string, rest: string)
    requires run != "" && SeparatorRun(run) && word != "" && Letters(word)
    requires In(rest, SeparatedWords())
    ensures In(run + (word + rest), SeparatedWords())
  {
    hide In, SeparatorRun, Lower, Separator, WordChar;
    SeparatorMatches(run);
    WordMatches(word);
    CatJoin(run, word, Separator(), Plus(WordChar()));
    StarJoin(run + word, rest, Cat(Separator(), Plus(WordChar())));
    assert run + (word + rest) == (run + word) + rest;
  }

  lemma {:induction false} WordReads(word: string, rest: string, run: string)
    requires word != "" && Letters(word) && SeparatorRun(run)
    ensures ComponentTail(word + rest, run) == ComponentTail(rest, "")
  {
    var s := word + rest;
    assert s[0] == word[0] && s[1..] == word[1..] + rest && word[0] in word;
    if |word| > 1 {
      WordReads(word[1..], rest, "");
    } else {
      assert s[1..] == rest;
    }
  }

  lemma {:induction false} SeparatorReads(sep: string, rest: string, run: string)
    requires SeparatorChars(sep)
    ensures ComponentTail(sep + rest, run) == ComponentTail(rest, run + sep)
  {
    if sep == "" {
      assert sep + rest == rest && run + sep == run;
    } else {
      var s := sep + rest;
      hide SeparatorRun;
      assert s[0] == sep[0] && s[1..] == sep[1..] + rest && sep[0] in sep && sep == [sep[0]] + sep[1..];
      assert forall c :: c in sep[1..] ==> c in sep;
      SeparatorReads(sep[1..], rest, run + [sep[0]]);
      assert run + [sep[0]] + sep[1..] == run + sep;
    }
  }

  lemma {:induction false} SeparatedWordsRead(s: string)
    requires In(s, SeparatedWords())
    ensures ComponentTail(s, "")
    decreases |s|
  {
    if s != "" {
      assert SeparatedWords() == Star(Cat(Separator(), Plus(WordChar())));
      hide *;
      var first, rest := StarSplit(s, Cat(Separator(), Plus(WordChar())));
      var sep, word := CatSplit(first, Separator(), Plus(WordChar()));
      SeparatedWordsRead(rest);
      SeparatorMatches(sep);
      WordMatches(word);
      RunChars(sep);
      SeparatorReads(sep, word + rest, "");
      WordReads(word, rest, sep);
      Regroup(sep, word, rest);
    }
  }

  lemma RunChars(sep: string)
    requires SeparatorRun(sep)
    ensures SeparatorChars(sep)
  {
  }

  lemma ComponentMatches(s: string)
    ensures Component(s) <==> In(s, ComponentPattern())
  {
    hide In, ComponentTail, Lower, WordChar, SeparatedWords;
    if Component(s) {
      var word, rest := TailSplits(s, "");
      WordMatches(word);
      CatJoin(word, rest, Plus(WordChar()), SeparatedWords());
    }
    if In(s, ComponentPattern()) {
      var word, rest := CatSplit(s, Plus(WordChar()), SeparatedWords());
      WordMatches(word);
      SeparatedWordsRead(rest);
      assert SeparatorRun("");
      WordReads(word, rest, "");
      assert s[0] == word[0] && word[0] in word;
    }
  }

  lemma {:induction false} NoSlash(s: string, run: string)
    requires ComponentTail(s, run)
    ensures '/' !in s
  {
    if s != "" {
      hide SeparatorRun;
      NoSlash(s[1..], if Lower(s[0]) then "" else run + [s[0]]);
      assert s == [s[0]] + s[1..];
    }
  }

  lemma {:induction false} JoinMatches(parts: seq<string>)
    requires |parts| >= 1 && forall p :: p in parts ==> Component(p)
    ensures In(Join(parts, "/"), RepoPathPattern())
  {
    hide In, Component, ComponentPattern;
    ComponentMatches(parts[0]);
    if |parts| == 1 {
      NoMore();
      CatJoin(parts[0], "", ComponentPattern(), MoreComponents());
      assert parts[0] + "" == parts[0];
    } else {
      JoinMatches(parts[1..]);
      var first, more := CatSplit(Join(parts[1..], "/"), ComponentPattern(), MoreComponents());
      LiteralIs("/", "/");
      CatJoin("/", first, Literal("/"), ComponentPattern());
      StarJoin("/" + first, more, Cat(Literal("/"), ComponentPattern()));
      CatJoin(parts[0], "/" + first + more, ComponentPattern(), MoreComponents());
      assert Join(parts, "/") == parts[0] + ("/" + first + more);
    }
  }

  lemma NoMore()
    ensures In("", MoreComponents())
  {
  }

  lemma RepoPathCons(first: string, rest: string)
    requires Split(first + ['/'] + rest, '/') == [first] + Split(rest, '/')
    ensures RepoPath(first + ['/'] + rest) <==> Component(first) && RepoPath(rest)
  {
    hide Split, Component;
    var parts := Split(rest, '/');
    assert ([first] + parts)[0] == first && forall i :: 0 <= i < |parts| ==> ([first] + parts)[i + 1] == parts[i];
  }

  lemma {:induction false} SplitMatches(first: string, more: string)
    requires In(first, ComponentPattern()) && In(more, MoreComponents())
    ensures RepoPath(first + more)
    decreases |more|
  {
    ComponentMatches(first);
    NoSlash(first, "");
    if more == "" {
      assert first + more == first;
      SplitPlain(first, '/');
    } else {
      assert MoreComponents() == Star(Cat(Literal("/"), ComponentPattern()));
      hide *;
      var step, rest := StarSplit(more, Cat(Literal("/"), ComponentPattern()));
      var slash, next := CatSplit(step, Literal("/"), ComponentPattern());
      LiteralIs("/", slash);
      SplitMatches(next, rest);
      SplitCons(first, next + rest, '/');
      Regroup(slash, next, rest);
      Regroup(first, slash, next + rest);
      RepoPathCons(first, next + rest);
    }
  }

  lemma RepoPathMatches(s: string)
    ensures RepoPath(s) <==> In(s, RepoPathPattern())
  {
    hide In, Component, ComponentPattern, MoreComponents, Join;
    if RepoPath(s) {
      JoinMatches(Split(s, '/'));
      JoinSplit(s, '/');
      assert "/" == ['/'];
    }
    if In(s, RepoPathPattern()) {
      var first, more := CatSplit(s, ComponentPattern(), MoreComponents());
      SplitMatches(first, more);
    }
  }
}
