/** Release versions: parsing, ordering and commit tags (internal/platformrelease/version.go). */
module ReleaseVersion {
  import opened Text
  import opened Wrappers

  // ---------- Parsing ----------

  /** Go's int on the supported platforms. */
  const MAX_INT := 0x7fff_ffff_ffff_ffff

  predicate CoreNumber(s: string) { s != "" && AllDigits(s) && (s[0] == '0' ==> |s| == 1) }

  predicate PreChar(c: char) { '0' <= c <= '9' || 'A' <= c <= 'Z' || 'a' <= c <= 'z' || c == '.' || c == '-' }

  predicate PreText(s: string) { s != "" && forall c :: c in s ==> PreChar(c) }

  /** The capture groups of the version pattern. */
  datatype Pieces = Pieces(major: string, minor: string, patch: string, pre: string)

  predicate WellFormed(p: Pieces) {
    CoreNumber(p.major) && CoreNumber(p.minor) && CoreNumber(p.patch) && (p.pre == "" || PreText(p.pre))
  }

  function CorePieces(core: string, pre: string): (r: Option<Pieces>)
    requires pre == "" || PreText(pre)
    ensures r.Some? ==> WellFormed(r.value)
  {
    var parts := Split(core, '.');
    if |parts| == 3 && CoreNumber(parts[0]) && CoreNumber(parts[1]) && CoreNumber(parts[2]) then
      Some(Pieces(parts[0], parts[1], parts[2], pre))
    else None
  }

  /** Matches `v?N.N.N(-pre)?(+build)?`: only the build may hold a `+`, and only the pre-release
      and the build may hold a `-`. */
  function Match(s: string): (r: Option<Pieces>)
    ensures r.Some? ==> WellFormed(r.value)
  {
    var u := if s != "" && s[0] == 'v' then s[1..] else s;
    var plus := IndexOf(u, '+');
    var rest := u[..plus];
    var dash := IndexOf(rest, '-');
    if plus < |u| && !PreText(u[plus + 1..]) then None
    else if dash == |rest| then CorePieces(rest, "")
    else if !PreText(rest[dash + 1..]) then None
    else CorePieces(rest[..dash], rest[dash + 1..])
  }

  function Clamp(n: nat): nat { if n > MAX_INT then MAX_INT else n }

  datatype Version = Version(major: nat, minor: nat, patch: nat, pre: string)

  /** `ParseVersion` ignores the range error of `Atoi`, which then yields the largest int. */
  function VersionOf(p: Pieces): Version
    requires WellFormed(p)
  {
    Version(Clamp(NatOf(p.major)), Clamp(NatOf(p.minor)), Clamp(NatOf(p.patch)), p.pre)
  }

  function ParseVersion(s: string): Option<Version> {
    var m := Match(TrimSpace(s));
    if m.Some? then Some(VersionOf(m.value)) else None
  }

  // ---------- Comparing ----------

  /** `strconv.Atoi`, `None` for any error. */
  function Atoi(s: string): Option<int> {
    var signed := s != "" && (s[0] == '-' || s[0] == '+');
    var digits := if signed then s[1..] else s;
    if digits == "" || !AllDigits(digits) then None
    else
      var n: int := if signed && s[0] == '-' then 0 - NatOf(digits) else NatOf(digits);
      if -MAX_INT - 1 <= n <= MAX_INT then Some(n) else None
  }

  function Sign(less: bool, more: bool): int { if less then -1 else if more then 1 else 0 }

  function CompareStrings(a: string, b: string): int { Sign(LexLess(a, b), LexLess(b, a)) }

  function CompareIdent(x: string, y: string): int {
    var xn, yn := Atoi(x), Atoi(y);
    if xn.Some? && yn.Some? then Sign(xn.value < yn.value, xn.value > yn.value)
    else if xn.Some? then -1
    else if yn.Some? then 1
    else CompareStrings(x, y)
  }

  function CompareLists(a: seq<string>, b: seq<string>): int {
    if a == [] || b == [] then Sign(|a| < |b|, |a| > |b|)
    else
      var c := CompareIdent(a[0], b[0]);
      if c != 0 then c else CompareLists(a[1..], b[1..])
  }

  function ComparePre(a: string, b: string): int {
    if a == b then 0
    else if a == "" then 1
    else if b == "" then -1
    else CompareLists(Split(a, '.'), Split(b, '.'))
  }

  function Compare(v: Version, o: Version): int {
    if v.major != o.major then Sign(v.major < o.major, v.major > o.major)
    else if v.minor != o.minor then Sign(v.minor < o.minor, v.minor > o.minor)
    else if v.patch != o.patch then Sign(v.patch < o.patch, v.patch > o.patch)
    else ComparePre(v.pre, o.pre)
  }

  method ComparePrerelease(a: string, b: string) returns (r: int)
    ensures r == ComparePre(a, b)
  {
    hide CompareIdent, Split;
    if a == b { return 0; }
    if a == "" { return 1; }
    if b == "" { return -1; }
    var ap, bp := Split(a, '.'), Split(b, '.');
    var i := 0;
    while i < |ap| && i < |bp|
      invariant 0 <= i <= |ap| && i <= |bp|
      invariant CompareLists(ap, bp) == CompareLists(ap[i..], bp[i..])
    {
      var c := CompareIdent(ap[i], bp[i]);
      assert ap[i..][1..] == ap[i + 1..] && bp[i..][1..] == bp[i + 1..];
      if c != 0 {
        return c;
      }
      i := i + 1;
    }
    return if |ap| < |bp| then -1 else if |ap| > |bp| then 1 else 0;
  }

  method CompareVersions(v: Version, o: Version) returns (r: int)
    ensures r == Compare(v, o)
  {
    var pairs := [(v.major, o.major), (v.minor, o.minor), (v.patch, o.patch)];
    for i := 0 to 3
      invariant i > 0 ==> v.major == o.major
      invariant i > 1 ==> v.minor == o.minor
      invariant i > 2 ==> v.patch == o.patch
    {
      if pairs[i].0 != pairs[i].1 {
        return if pairs[i].0 < pairs[i].1 then -1 else 1;
      }
    }
    r := ComparePrerelease(v.pre, o.pre);
  }

  // ---------- The order behind the comparison ----------

  /** What an identifier is compared by. */
  datatype Ident = Num(n: int) | Txt(s: string)

  function CompareKey(x: Ident, y: Ident): int {
    if x.Num? && y.Num? then Sign(x.n < y.n, x.n > y.n)
    else if x.Num? then -1
    else if y.Num? then 1
    else CompareStrings(x.s, y.s)
  }

  function CompareKeys(a: seq<Ident>, b: seq<Ident>): int {
    if a == [] || b == [] then Sign(|a| < |b|, |a| > |b|)
    else
      var c := CompareKey(a[0], b[0]);
      if c != 0 then c else CompareKeys(a[1..], b[1..])
  }

  lemma CompareKeyOrder(x: Ident, y: Ident, z: Ident)
    ensures CompareKey(x, y) == -CompareKey(y, x)
    ensures CompareKey(x, y) == 0 <==> x == y
    ensures CompareKey(x, y) < 0 && CompareKey(y, z) < 0 ==> CompareKey(x, z) < 0
    ensures -1 <= CompareKey(x, y) <= 1
  {
    if x.Txt? && y.Txt? {
      LexLessTotal(x.s, y.s);
      if z.Txt? && LexLess(x.s, y.s) && LexLess(y.s, z.s) {
        LexLessTransitive(x.s, y.s, z.s);
        LexLessTotal(x.s, z.s);
      }
    }
  }

  lemma {:induction false} CompareKeysOrder(a: seq<Ident>, b: seq<Ident>, c: seq<Ident>)
    ensures CompareKeys(a, b) == -CompareKeys(b, a)
    ensures CompareKeys(a, b) == 0 <==> a == b
    ensures CompareKeys(a, b) < 0 && CompareKeys(b, c) < 0 ==> CompareKeys(a, c) < 0
    decreases |a| + |b| + |c|
  {
    hide CompareKey;
    if a != [] && b != [] {
      CompareKeyOrder(a[0], b[0], if c == [] then a[0] else c[0]);
      CompareKeysOrder(a[1..], b[1..], if c == [] then [] else c[1..]);
      assert a == [a[0]] + a[1..] && b == [b[0]] + b[1..];
      if c != [] {
        CompareKeyOrder(b[0], c[0], a[0]);
        CompareKeyOrder(a[0], c[0], a[0]);
      }
    }
  }

  function KeyOf(x: string): Ident { if Atoi(x).Some? then Num(Atoi(x).value) else Txt(x) }

  function KeysOf(a: seq<string>): seq<Ident> { if a == [] then [] else [KeyOf(a[0])] + KeysOf(a[1..]) }

  lemma {:induction false} ListsByKeys(a: seq<string>, b: seq<string>)
    ensures CompareLists(a, b) == CompareKeys(KeysOf(a), KeysOf(b))
    ensures |KeysOf(a)| == |a|
  {
    hide Atoi;
    KeysLength(a);
    KeysLength(b);
    if a != [] && b != [] {
      ListsByKeys(a[1..], b[1..]);
    }
  }

  lemma {:induction false} KeysLength(a: seq<string>)
    ensures |KeysOf(a)| == |a|
  {
    if a != [] { KeysLength(a[1..]); }
  }

  /** Versions are ordered by their numbers and then by this key: `None` for a release. */
  function PreKey(pre: string): Option<seq<Ident>> { if pre == "" then None else Some(KeysOf(Split(pre, '.'))) }

  function ComparePreKeys(a: Option<seq<Ident>>, b: Option<seq<Ident>>): int {
    if a == None || b == None then Sign(b == None && a != None, a == None && b != None)
    else CompareKeys(a.value, b.value)
  }

  lemma PreByKeys(a: string, b: string)
    ensures ComparePre(a, b) == ComparePreKeys(PreKey(a), PreKey(b))
  {
    hide CompareLists, CompareKeys, KeysOf, Split;
    ListsByKeys(Split(a, '.'), Split(b, '.'));
    if a != "" {
      CompareKeysOrder(KeysOf(Split(a, '.')), KeysOf(Split(a, '.')), []);
    }
  }

  lemma ComparePreKeysOrder(a: Option<seq<Ident>>, b: Option<seq<Ident>>, c: Option<seq<Ident>>)
    ensures ComparePreKeys(a, b) == -ComparePreKeys(b, a)
    ensures ComparePreKeys(a, b) == 0 <==> a == b
    ensures ComparePreKeys(a, b) < 0 && ComparePreKeys(b, c) < 0 ==> ComparePreKeys(a, c) < 0
  {
    hide CompareKeys;
    if a.Some? && b.Some? {
      CompareKeysOrder(a.value, b.value, if c.Some? then c.value else []);
    }
  }

  ghost predicate SameKey(v: Version, o: Version) {
    v.major == o.major && v.minor == o.minor && v.patch == o.patch && PreKey(v.pre) == PreKey(o.pre)
  }

  /** `Compare` is a total preorder on all versions: antisymmetric in sign, zero exactly on
      versions with equal keys, and transitive, identifiers too large for an int included. */
  lemma CompareIsTotalPreorder(a: Version, b: Version, c: Version)
    ensures Compare(a, a) == 0
    ensures Compare(a, b) == -Compare(b, a)
    ensures Compare(a, b) == 0 <==> SameKey(a, b)
    ensures Compare(a, b) <= 0 && Compare(b, c) <= 0 ==> Compare(a, c) <= 0
  {
    hide ComparePre, ComparePreKeys, PreKey;
    PreByKeys(a.pre, a.pre);
    PreByKeys(a.pre, b.pre);
    PreByKeys(b.pre, a.pre);
    PreByKeys(b.pre, c.pre);
    PreByKeys(a.pre, c.pre);
    ComparePreKeysOrder(PreKey(a.pre), PreKey(a.pre), PreKey(a.pre));
    ComparePreKeysOrder(PreKey(a.pre), PreKey(b.pre), PreKey(c.pre));
    ComparePreKeysOrder(PreKey(b.pre), PreKey(c.pre), PreKey(a.pre));
  }

  // ---------- Semantic Versioning 2.0.0, section 11 ----------

  /** 11.4.1, 11.4.2: digits-only identifiers compare as numbers, others in ASCII order. */
  function SemverKey(x: string): Ident { if x != "" && AllDigits(x) then Num(NatOf(x)) else Txt(x) }

  function SemverKeys(a: seq<string>): seq<Ident> { if a == [] then [] else [SemverKey(a[0])] + SemverKeys(a[1..]) }

  /** 11.3, 11.4: a pre-release is lower than the release; identifiers left to right. */
  function SemverPre(a: string, b: string): int {
    ComparePreKeys(if a == "" then None else Some(SemverKeys(Split(a, '.'))),
                   if b == "" then None else Some(SemverKeys(Split(b, '.'))))
  }

  /** 11.2: major, minor and patch numerically, whatever their size. */
  function SemverPrecedence(p: Pieces, q: Pieces): int
    requires WellFormed(p) && WellFormed(q)
  {
    if NatOf(p.major) != NatOf(q.major) then Sign(NatOf(p.major) < NatOf(q.major), true)
    else if NatOf(p.minor) != NatOf(q.minor) then Sign(NatOf(p.minor) < NatOf(q.minor), true)
    else if NatOf(p.patch) != NatOf(q.patch) then Sign(NatOf(p.patch) < NatOf(q.patch), true)
    else SemverPre(p.pre, q.pre)
  }

  /** An identifier the code reads as the standard does: digits that fit in an int, or not of the
      form hyphen-digits with a value that fits in an int. */
  predicate PlainIdent(x: string) {
    && (x != "" && AllDigits(x) ==> NatOf(x) <= MAX_INT)
    && (|x| >= 2 && x[0] == '-' && AllDigits(x[1..]) ==> NatOf(x[1..]) > MAX_INT + 1)
  }

  predicate Plain(p: Pieces)
    requires WellFormed(p)
  {
    && NatOf(p.major) <= MAX_INT && NatOf(p.minor) <= MAX_INT && NatOf(p.patch) <= MAX_INT
    && (p.pre == "" || forall i :: 0 <= i < |Split(p.pre, '.')| ==> PlainIdent(Split(p.pre, '.')[i]))
  }

  lemma PlainIdentIff(x: string)
    requires forall c :: c in x ==> PreChar(c)
    ensures PlainIdent(x) <==> KeyOf(x) == SemverKey(x)
  {
    assert |x| > 0 ==> x[0] in x;
    if |x| > 0 && x[0] == '-' {
      assert !IsDigit(x[0]);
      assert !AllDigits(x);
    }
  }

  lemma {:induction false} PlainKeys(a: seq<string>)
    requires forall i :: 0 <= i < |a| ==> PlainIdent(a[i]) && forall c :: c in a[i] ==> PreChar(c)
    ensures KeysOf(a) == SemverKeys(a)
  {
    hide KeyOf, SemverKey, PlainIdent;
    if a != [] {
      PlainIdentIff(a[0]);
      PlainKeys(a[1..]);
    }
  }

  lemma {:induction false} SplitChars(s: string, sep: char, i: nat)
    requires i < |Split(s, sep)|
    ensures forall c :: c in Split(s, sep)[i] ==> c in s
  {
    if s != "" {
      var rest := Split(s[1..], sep);
      if s[0] == sep {
        if i > 0 { SplitChars(s[1..], sep, i - 1); }
      } else {
        SplitChars(s[1..], sep, i);
      }
    }
  }

  lemma PlainPre(pre: string)
    requires PreText(pre) && forall i :: 0 <= i < |Split(pre, '.')| ==> PlainIdent(Split(pre, '.')[i])
    ensures KeysOf(Split(pre, '.')) == SemverKeys(Split(pre, '.'))
  {
    hide Split, PlainIdent, KeysOf, SemverKeys;
    var a := Split(pre, '.');
    forall i, c | 0 <= i < |a| && c in a[i] ensures PreChar(c) {
      SplitChars(pre, '.', i);
    }
    PlainKeys(a);
  }

  /** On plain versions the comparison is the precedence of the standard. */
  lemma AgreesOnPlain(p: Pieces, q: Pieces)
    requires WellFormed(p) && WellFormed(q) && Plain(p) && Plain(q)
    ensures Compare(VersionOf(p), VersionOf(q)) == SemverPrecedence(p, q)
  {
    PreByKeys(p.pre, q.pre);
    if p.pre != "" { PlainPre(p.pre); }
    if q.pre != "" { PlainPre(q.pre); }
    hide PlainIdent, Split, NatOf, KeysOf, SemverKeys, CompareKeys, ComparePre;
  }

  // ---------- Exactly the plain versions agree ----------

  lemma DecimalIsCoreNumber(n: nat)
    ensures CoreNumber(Decimal(n)) && NatOf(Decimal(n)) == n
  {
    NatOfDecimal(n);
    if n == 0 {
      assert Decimal(0) == "0";
    }
  }

  lemma {:induction false} CommonPrefix(a: seq<Ident>, x: Ident, b: seq<Ident>, y: Ident)
    requires CompareKey(x, y) != 0
    ensures CompareKeys(a + [x] + b, a + [y]) == CompareKey(x, y)
  {
    hide CompareKey;
    if a != [] {
      CompareKeyOrder(a[0], a[0], a[0]);
      CommonPrefix(a[1..], x, b, y);
      assert (a + [x] + b)[1..] == a[1..] + [x] + b && (a + [y])[1..] == a[1..] + [y];
    }
  }

  lemma {:induction false} KeysConcat(a: seq<string>, b: seq<string>)
    ensures KeysOf(a + b) == KeysOf(a) + KeysOf(b)
  {
    hide KeyOf;
    if a == [] {
      assert a + b == b;
    } else {
      KeysConcat(a[1..], b);
      assert (a + b)[1..] == a[1..] + b && (a + b)[0] == a[0];
    }
  }

  lemma {:induction false} SemverKeysConcat(a: seq<string>, b: seq<string>)
    ensures SemverKeys(a + b) == SemverKeys(a) + SemverKeys(b)
  {
    hide SemverKey;
    if a == [] {
      assert a + b == b;
    } else {
      SemverKeysConcat(a[1..], b);
      assert (a + b)[1..] == a[1..] + b && (a + b)[0] == a[0];
    }
  }

  lemma {:induction false} JoinChars(parts: seq<string>)
    requires forall i, c :: 0 <= i < |parts| && c in parts[i] ==> PreChar(c)
    ensures forall c :: c in Join(parts, ".") ==> PreChar(c)
    ensures |parts| > 0 && parts[|parts| - 1] != "" ==> Join(parts, ".") != ""
  {
    if |parts| > 1 {
      JoinChars(parts[1..]);
    }
  }

  /** A plain identifier that the code and the standard order differently against a given
      identifier that is not plain. */
  lemma DisputedIdent(x: string) returns (w: string)
    requires !PlainIdent(x) && forall c :: c in x ==> PreChar(c)
    ensures w == "1" || w == "-"
    ensures PlainIdent(w) && CompareKey(KeyOf(x), KeyOf(w)) * CompareKey(SemverKey(x), SemverKey(w)) == -1
  {
    assert |x| > 0 ==> x[0] in x;
    assert NatOf("1") == 10 * NatOf("") + 1 == 1;
    assert KeyOf("1") == SemverKey("1") == Num(1);
    assert KeyOf("-") == SemverKey("-") == Txt("-");
    if x != "" && AllDigits(x) {
      w := "-";
      assert KeyOf(x) == Txt(x) && SemverKey(x) == Num(NatOf(x));
      assert LexLess("-", x) && !LexLess(x, "-");
    } else {
      w := "1";
      assert x[0] == '-' && !IsDigit('-');
      assert KeyOf(x) == Num(0 - NatOf(x[1..])) && SemverKey(x) == Txt(x);
    }
  }

  /** A version whose pre-release has an identifier that is not plain is misplaced against some
      plain version with the same numbers. */
  lemma NotPlainPre(p: Pieces) returns (q: Pieces)
    requires WellFormed(p) && p.pre != "" && NatOf(p.major) <= MAX_INT && NatOf(p.minor) <= MAX_INT && NatOf(p.patch) <= MAX_INT
    requires exists i :: 0 <= i < |Split(p.pre, '.')| && !PlainIdent(Split(p.pre, '.')[i])
    ensures WellFormed(q) && Plain(q) && Compare(VersionOf(p), VersionOf(q)) != SemverPrecedence(p, q)
  {
    hide Split, Join, PlainIdent, NatOf, KeyOf, SemverKey, CompareKey, CompareKeys, KeysOf, SemverKeys;
    var parts := Split(p.pre, '.');
    var n := 0;
    while PlainIdent(parts[n])
      invariant n < |parts| && forall i :: 0 <= i < n ==> PlainIdent(parts[i])
      invariant exists i :: n <= i < |parts| && !PlainIdent(parts[i])
      decreases |parts| - n
    {
      n := n + 1;
    }
    forall i, c | 0 <= i < |parts| && c in parts[i] ensures PreChar(c) {
      SplitChars(p.pre, '.', i);
    }
    var w := DisputedIdent(parts[n]);
    var shared := parts[..n];
    var qparts := shared + [w];
    assert forall i :: 0 <= i < |qparts| ==> PlainIdent(qparts[i]);
    forall i, c | 0 <= i < |qparts| && c in qparts[i] ensures PreChar(c) {
      assert i < n ==> qparts[i] == parts[i];
    }
    JoinChars(qparts);
    SplitJoin(qparts, '.');
    q := p.(pre := Join(qparts, "."));
    KeysConcat(shared, [parts[n]]);
    KeysConcat(shared + [parts[n]], parts[n + 1..]);
    KeysConcat(shared, [w]);
    SemverKeysConcat(shared, [parts[n]]);
    SemverKeysConcat(shared + [parts[n]], parts[n + 1..]);
    SemverKeysConcat(shared, [w]);
    assert parts == shared + [parts[n]] + parts[n + 1..];
    OneKey(parts[n]);
    OneKey(w);
    CommonPrefix(KeysOf(shared), KeyOf(parts[n]), KeysOf(parts[n + 1..]), KeyOf(w));
    CommonPrefix(SemverKeys(shared), SemverKey(parts[n]), SemverKeys(parts[n + 1..]), SemverKey(w));
    PreByKeys(p.pre, q.pre);
  }

  lemma OneKey(x: string)
    ensures KeysOf([x]) == [KeyOf(x)] && SemverKeys([x]) == [SemverKey(x)]
  {
    hide KeyOf, SemverKey;
  }

  /** A number that does not fit in an int is read as the largest int, so the version is not
      above the plain release that follows it. */
  lemma NotPlainCore(p: Pieces) returns (q: Pieces)
    requires WellFormed(p) && !(NatOf(p.major) <= MAX_INT && NatOf(p.minor) <= MAX_INT && NatOf(p.patch) <= MAX_INT)
    ensures WellFormed(q) && Plain(q) && Compare(VersionOf(p), VersionOf(q)) != SemverPrecedence(p, q)
  {
    var max := Decimal(MAX_INT);
    DecimalIsCoreNumber(MAX_INT);
    hide NatOf, Decimal, CoreNumber, Compare, SemverPrecedence;
    if NatOf(p.major) > MAX_INT {
      q := Pieces(max, max, max, "");
    } else if NatOf(p.minor) > MAX_INT {
      q := Pieces(p.major, max, max, "");
    } else {
      q := Pieces(p.major, p.minor, max, "");
    }
    ClampedBelow(VersionOf(p), VersionOf(q));
    AboveByCore(p, q);
  }

  lemma ClampedBelow(v: Version, w: Version)
    requires w.pre == "" && v.major <= w.major
    requires v.major == w.major ==> v.minor <= w.minor
    requires v.major == w.major && v.minor == w.minor ==> v.patch <= w.patch
    ensures Compare(v, w) <= 0
  {
  }

  lemma AboveByCore(p: Pieces, q: Pieces)
    requires WellFormed(p) && WellFormed(q) && NatOf(p.major) >= NatOf(q.major)
    requires NatOf(p.major) == NatOf(q.major) ==> NatOf(p.minor) >= NatOf(q.minor)
    requires NatOf(p.major) == NatOf(q.major) && NatOf(p.minor) == NatOf(q.minor) ==> NatOf(p.patch) > NatOf(q.patch)
    ensures SemverPrecedence(p, q) > 0
  {
    hide NatOf;
  }

  /** The comparison agrees with section 11 against every plain version exactly when the version
      is plain itself. */
  lemma AgreesWithSemverIffPlain(p: Pieces)
    requires WellFormed(p)
    ensures Plain(p) <==> forall q: Pieces :: WellFormed(q) && Plain(q) ==> Compare(VersionOf(p), VersionOf(q)) == SemverPrecedence(p, q)
  {
    var fits := NatOf(p.major) <= MAX_INT && NatOf(p.minor) <= MAX_INT && NatOf(p.patch) <= MAX_INT;
    assert !Plain(p) && fits ==>
      p.pre != "" && exists i :: 0 <= i < |Split(p.pre, '.')| && !PlainIdent(Split(p.pre, '.')[i]);
    hide VersionOf, Compare, SemverPrecedence, WellFormed, PlainIdent, Split;
    if Plain(p) {
      forall q: Pieces | WellFormed(q) && Plain(q) ensures Compare(VersionOf(p), VersionOf(q)) == SemverPrecedence(p, q) {
        AgreesOnPlain(p, q);
      }
    } else if fits {
      var q := NotPlainPre(p);
    } else {
      var q := NotPlainCore(p);
    }
  }

  // ---------- Every well-formed version is the parse of a text ----------

  function Render(p: Pieces): string {
    p.major + "." + p.minor + "." + p.patch + if p.pre == "" then "" else "-" + p.pre
  }

  lemma CoreText(p: Pieces)
    requires WellFormed(p)
    ensures var core := p.major + "." + p.minor + "." + p.patch;
            && CorePieces(core, p.pre) == Some(p) && core != ""
            && (forall c :: c in core ==> IsDigit(c) || c == '.')
            && core[0] in p.major && core[|core| - 1] in p.patch
  {
    var core := p.major + "." + p.minor + "." + p.patch;
    var tail := p.minor + ['.'] + p.patch;
    assert core == p.major + ['.'] + tail;
    assert '.' !in p.major && '.' !in p.minor && '.' !in p.patch;
    SplitCons(p.major, tail, '.');
    SplitCons(p.minor, p.patch, '.');
    SplitPlain(p.patch, '.');
    assert Split(core, '.') == [p.major, p.minor, p.patch];
  }

  lemma RenderText(p: Pieces)
    requires WellFormed(p)
    ensures var core, s := p.major + "." + p.minor + "." + p.patch, Render(p);
            && s == (if p.pre == "" then core else core + ['-'] + p.pre)
            && s != "" && !IsSpace(s[0]) && !IsSpace(s[|s| - 1]) && s[0] != 'v' && '+' !in s && '-' !in core
  {
    CoreText(p);
    hide CorePieces, Split;
    var core, s := p.major + "." + p.minor + "." + p.patch, Render(p);
    assert s == if p.pre == "" then core else core + ['-'] + p.pre;
    assert s[|s| - 1] in s && core[0] in core && s[0] == core[0];
    assert p.major != "" && forall c :: c in p.major ==> IsDigit(c);
  }

  /** Parsing undoes rendering. */
  lemma MatchRender(p: Pieces)
    requires WellFormed(p)
    ensures Match(Render(p)) == Some(p) && TrimSpace(Render(p)) == Render(p)
  {
    var core, s := p.major + "." + p.minor + "." + p.patch, Render(p);
    hide *;
    CoreText(p);
    RenderText(p);
    TrimSpaceFixed(s);
    MatchWithoutBuild(s);
    WellFormedPre(p);
    if p.pre == "" {
      assert s[..|s|] == s;
    } else {
      IndexOfFirst(core, '-', p.pre);
      assert s[..|core|] == core && s[|core| + 1..] == p.pre;
    }
  }

  lemma WellFormedPre(p: Pieces)
    requires WellFormed(p)
    ensures p.pre == "" || PreText(p.pre)
  {
  }

  /** Without a "v" and a build the pattern looks for the first hyphen only. */
  lemma MatchWithoutBuild(s: string)
    requires s != "" && s[0] != 'v' && '+' !in s
    ensures var dash := IndexOf(s, '-');
            Match(s) == if dash == |s| then CorePieces(s[..dash], "")
                        else if !PreText(s[dash + 1..]) then None
                        else CorePieces(s[..dash], s[dash + 1..])
  {
    hide CorePieces, PreText, IndexOf;
    assert s[..|s|] == s;
  }

  // ---------- Commit tags ----------

  predicate Hex(c: char) { '0' <= c <= '9' || 'a' <= c <= 'f' }

  predicate CommitSuffix(s: string) { |s| == 41 && s[0] == 'g' && forall i :: 1 <= i < 41 ==> Hex(s[i]) }

  method IsReleaseCommitSuffix(s: string) returns (ok: bool)
    ensures ok == CommitSuffix(s)
  {
    if s == "" || s[0] != 'g' || |s| != 41 {
      return false;
    }
    for i := 1 to |s|
      invariant forall k :: 1 <= k < i ==> Hex(s[k])
    {
      var ch := s[i];
      if (ch < '0' || ch > '9') && (ch < 'a' || ch > 'f') {
        return false;
      }
    }
    return true;
  }

  function ReleaseCommitFromImageTag(tag: string): Option<string> {
    var lastDash := LastIndexOf(tag, '-');
    if lastDash < 0 then None
    else if !CommitSuffix(tag[lastDash + 1..]) then None
    else if ParseVersion(tag[..lastDash]) == None then None
    else Some(tag[lastDash + 2..])
  }

  function ReleaseVersionFromImageTag(tag: string): string {
    if ReleaseCommitFromImageTag(tag) == None then tag else tag[..LastIndexOf(tag, '-')]
  }

  predicate Commit(c: string) { |c| == 40 && forall i :: 0 <= i < 40 ==> Hex(c[i]) }

  lemma CommitSuffixIff(commit: string)
    ensures CommitSuffix("g" + commit) <==> Commit(commit)
  {
    var s := "g" + commit;
    assert forall i :: 0 <= i < |commit| ==> s[i + 1] == commit[i];
    if CommitSuffix(s) {
      assert forall i :: 0 <= i < 40 ==> commit[i] == s[i + 1];
    }
  }

  lemma NoDashInSuffix(commit: string)
    requires Commit(commit)
    ensures '-' !in "g" + commit
  {
  }

  /** Every generated tag gives back its version and its commit. */
  lemma GeneratedTagRecovered(version: string, commit: string)
    requires ParseVersion(version).Some? && Commit(commit)
    ensures ReleaseCommitFromImageTag(version + "-g" + commit) == Some(commit)
    ensures ReleaseVersionFromImageTag(version + "-g" + commit) == version
  {
    CommitSuffixIff(commit);
    NoDashInSuffix(commit);
    hide *;
    assert version + "-g" + commit == version + ['-'] + ("g" + commit);
    TagAtLastDash(version, "g" + commit);
    assert ("g" + commit)[1..] == commit;
  }

  lemma TagAtLastDash(version: string, suffix: string)
    requires '-' !in suffix && suffix != ""
    ensures var tag := version + ['-'] + suffix;
            && ReleaseCommitFromImageTag(tag) == (if CommitSuffix(suffix) && ParseVersion(version).Some? then Some(suffix[1..]) else None)
            && (ReleaseCommitFromImageTag(tag).Some? ==> ReleaseVersionFromImageTag(tag) == version)
  {
    hide ParseVersion, CommitSuffix, LastIndexOf;
    var tag := version + ['-'] + suffix;
    LastIndexOfLast(version, '-', suffix);
    assert tag[..|version|] == version && tag[|version| + 1..] == suffix && tag[|version| + 2..] == suffix[1..];
  }

  /** And no other tag is recognised: a recognised tag is its version, "-g" and a full commit. */
  lemma RecognisedTagIsGenerated(tag: string)
    requires ReleaseCommitFromImageTag(tag).Some?
    ensures var version, commit := ReleaseVersionFromImageTag(tag), ReleaseCommitFromImageTag(tag).value;
            tag == version + "-g" + commit && Commit(commit) && ParseVersion(version).Some?
  {
    hide ParseVersion;
    var lastDash := LastIndexOf(tag, '-');
    var suffix, commit := tag[lastDash + 1..], tag[lastDash + 2..];
    assert suffix == "g" + commit;
    CommitSuffixIff(commit);
    assert tag == tag[..lastDash] + ['-'] + suffix;
  }
}
