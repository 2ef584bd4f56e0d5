/** Regular expressions and the texts they match from end to end. */
module Patterns {
  datatype Re =
    | Eps
    | Class(ranges: seq<(char, char)>)
    | Cat(first: Re, second: Re)
    | Alt(left: Re, right: Re)
    | Star(each: Re)

  predicate InRanges(c: char, ranges: seq<(char, char)>) { exists r :: r in ranges && r.0 <= c <= r.1 }

  ghost predicate In(s: string, r: Re)
    decreases r, |s|
  {
    match r
    case Eps => s == ""
    case Class(ranges) => |s| == 1 && InRanges(s[0], ranges)
    case Cat(a, b) => exists i :: 0 <= i <= |s| && In(s[..i], a) && In(s[i..], b)
    case Alt(a, b) => In(s, a) || In(s, b)
    case Star(a) => s == "" || exists i :: 0 < i <= |s| && In(s[..i], a) && In(s[i..], r)
  }

  function Opt(a: Re): Re { Alt(Eps, a) }

  function Plus(a: Re): Re { Cat(a, Star(a)) }

  function Times(n: nat, a: Re): Re { if n == 0 then Eps else Cat(a, Times(n - 1, a)) }

  function UpTo(n: nat, a: Re): Re { if n == 0 then Eps else Opt(Cat(a, UpTo(n - 1, a))) }

  function Literal(t: string): Re { if t == "" then Eps else Cat(Class([(t[0], t[0])]), Literal(t[1..])) }

  // ---------- Joining ----------

  lemma Regroup(a: string, b: string, c: string)
    ensures (a + b) + c == a + (b + c) && "" + a == a
  {
  }

  lemma CatJoin(x: string, y: string, a: Re, b: Re)
    requires In(x, a) && In(y, b)
    ensures In(x + y, Cat(a, b))
  {
    assert (x + y)[..|x|] == x && (x + y)[|x|..] == y;
  }

  lemma StarJoin(x: string, y: string, a: Re)
    requires In(x, a) && In(y, Star(a))
    ensures In(x + y, Star(a))
  {
    assert (x + y)[..|x|] == x && (x + y)[|x|..] == y;
    assert x == "" ==> x + y == y;
  }

  lemma CatSplit(s: string, a: Re, b: Re) returns (x: string, y: string)
    requires In(s, Cat(a, b))
    ensures s == x + y && In(x, a) && In(y, b)
  {
    var i :| 0 <= i <= |s| && In(s[..i], a) && In(s[i..], b);
    x, y := s[..i], s[i..];
  }

  lemma StarSplit(s: string, a: Re) returns (x: string, y: string)
    requires s != "" && In(s, Star(a))
    ensures s == x + y && x != "" && In(x, a) && In(y, Star(a))
  {
    var i :| 0 < i <= |s| && In(s[..i], a) && In(s[i..], Star(a));
    x, y := s[..i], s[i..];
  }

  lemma OptMeans(s: string, a: Re)
    ensures In(s, Opt(a)) <==> s == "" || In(s, a)
  {
  }

  // ---------- Classes of characters ----------

  predicate AllIn(s: string, ranges: seq<(char, char)>) { forall c :: c in s ==> InRanges(c, ranges) }

  lemma ClassFirst(s: string, ranges: seq<(char, char)>, rest: Re)
    ensures In(s, Cat(Class(ranges), rest)) <==> s != "" && InRanges(s[0], ranges) && In(s[1..], rest)
  {
    if s != "" && InRanges(s[0], ranges) && In(s[1..], rest) {
      CatJoin([s[0]], s[1..], Class(ranges), rest);
      assert s == [s[0]] + s[1..];
    }
  }

  lemma AllInFirst(s: string, ranges: seq<(char, char)>)
    requires s != ""
    ensures AllIn(s, ranges) <==> InRanges(s[0], ranges) && AllIn(s[1..], ranges)
  {
    hide InRanges;
    assert s == [s[0]] + s[1..];
  }

  lemma {:induction false} StarClass(s: string, ranges: seq<(char, char)>)
    ensures In(s, Star(Class(ranges))) <==> AllIn(s, ranges)
  {
    hide InRanges;
    if s != "" {
      AllInFirst(s, ranges);
      StarClass(s[1..], ranges);
      if AllIn(s, ranges) {
        StarJoin([s[0]], s[1..], Class(ranges));
        assert s == [s[0]] + s[1..];
      }
    }
  }

  lemma PlusClass(s: string, ranges: seq<(char, char)>)
    ensures In(s, Plus(Class(ranges))) <==> s != "" && AllIn(s, ranges)
  {
    ClassFirst(s, ranges, Star(Class(ranges)));
    if s != "" {
      StarClass(s[1..], ranges);
      AllInFirst(s, ranges);
    }
  }

  lemma {:induction false} TimesClass(s: string, n: nat, ranges: seq<(char, char)>)
    ensures In(s, Times(n, Class(ranges))) <==> |s| == n && AllIn(s, ranges)
  {
    if n > 0 {
      ClassFirst(s, ranges, Times(n - 1, Class(ranges)));
      hide InRanges, In;
      if s != "" {
        TimesClass(s[1..], n - 1, ranges);
        AllInFirst(s, ranges);
      }
    }
  }

  lemma {:induction false} UpToClass(s: string, n: nat, ranges: seq<(char, char)>)
    ensures In(s, UpTo(n, Class(ranges))) <==> |s| <= n && AllIn(s, ranges)
  {
    if n > 0 {
      OptCat(s, n, ranges);
      hide InRanges, In;
      if s != "" {
        UpToClass(s[1..], n - 1, ranges);
        AllInFirst(s, ranges);
      }
    }
  }

  lemma OptCat(s: string, n: nat, ranges: seq<(char, char)>)
    requires n > 0
    ensures In(s, UpTo(n, Class(ranges))) <==>
            s == "" || (InRanges(s[0], ranges) && In(s[1..], UpTo(n - 1, Class(ranges))))
  {
    ClassFirst(s, ranges, UpTo(n - 1, Class(ranges)));
  }

  // ---------- Fixed texts ----------

  lemma {:induction false} LiteralThen(t: string, s: string, rest: Re)
    ensures In(s, Cat(Literal(t), rest)) <==> |t| <= |s| && s[..|t|] == t && In(s[|t|..], rest)
  {
    if t == "" {
      EpsFirst(s, rest);
      assert s[0..] == s;
    } else {
      var c := [(t[0], t[0])];
      assert Literal(t) == Cat(Class(c), Literal(t[1..]));
      assert s != "" ==> (InRanges(s[0], c) <==> s[0] == t[0]);
      hide In, InRanges, Literal;
      CatRight(s, Class(c), Literal(t[1..]), rest);
      CatLeft(s, Class(c), Literal(t[1..]), rest);
      ClassFirst(s, c, Cat(Literal(t[1..]), rest));
      if s != "" {
        LiteralThen(t[1..], s[1..], rest);
        PrefixFirst(t, s);
      }
    }
  }

  lemma PrefixFirst(t: string, s: string)
    requires t != "" && s != ""
    ensures |t| <= |s| && s[..|t|] == t <==> s[0] == t[0] && |t[1..]| <= |s[1..]| && s[1..][..|t[1..]|] == t[1..]
    ensures |t| <= |s| ==> s[1..][|t[1..]|..] == s[|t|..]
  {
    if |t| <= |s| {
      assert s[..|t|] == [s[0]] + s[1..][..|t| - 1];
      assert t == [t[0]] + t[1..];
    }
  }

  lemma EpsFirst(s: string, rest: Re)
    ensures In(s, Cat(Eps, rest)) <==> In(s, rest)
  {
    if In(s, rest) {
      CatJoin("", s, Eps, rest);
      assert "" + s == s;
    }
    if In(s, Cat(Eps, rest)) {
      var x, y := CatSplit(s, Eps, rest);
      assert s == y;
    }
  }

  lemma CatRight(s: string, a: Re, b: Re, c: Re)
    ensures In(s, Cat(Cat(a, b), c)) ==> In(s, Cat(a, Cat(b, c)))
  {
    hide In;
    if In(s, Cat(Cat(a, b), c)) {
      var xy, z := CatSplit(s, Cat(a, b), c);
      var x, y := CatSplit(xy, a, b);
      CatJoin(y, z, b, c);
      CatJoin(x, y + z, a, Cat(b, c));
      assert s == x + (y + z);
    }
  }

  lemma CatLeft(s: string, a: Re, b: Re, c: Re)
    ensures In(s, Cat(a, Cat(b, c))) ==> In(s, Cat(Cat(a, b), c))
  {
    hide In;
    if In(s, Cat(a, Cat(b, c))) {
      var x, yz := CatSplit(s, a, Cat(b, c));
      var y, z := CatSplit(yz, b, c);
      CatJoin(x, y, a, b);
      CatJoin(x + y, z, Cat(a, b), c);
      assert s == (x + y) + z;
    }
  }

  lemma LiteralIs(t: string, s: string)
    ensures In(s, Literal(t)) <==> s == t
  {
    LiteralThen(t, s, Eps);
    if In(s, Literal(t)) {
      CatJoin(s, "", Literal(t), Eps);
      assert s + "" == s;
    }
    if s == t {
      var x, y := CatSplit(s, Literal(t), Eps);
      assert s == x;
    }
  }
}
