/** Session identities: the SPIFFE ID of an adapter session, printed with percent-encoded
    path segments and parsed back by a strict reader. A Go string is a string of bytes: a
    character below 256 stands for one byte, and larger characters, which do not occur there,
    are copied by every function here. */
module SessionIdentity {
  import opened Wrappers
  import opened Text

  // ---------- Percent-encoding (section 2.1 of RFC 3986, as `net/url` applies it) ----------

  datatype Mode = Path | Segment

  predicate Alphanumeric(c: char) { 'a' <= c <= 'z' || 'A' <= c <= 'Z' || '0' <= c <= '9' }

  predicate Unreserved(c: char) { Alphanumeric(c) || c == '-' || c == '_' || c == '.' || c == '~' }

  predicate ShouldEscape(c: char, mode: Mode) {
    if Unreserved(c) || c as int >= 256 then false
    else if c in "$&+:=@" then false
    else if c in "/;," then mode.Segment?
    else true
  }

  function HexDigit(n: nat): (c: char)
    requires n < 16
    ensures Unreserved(c)
  {
    if n < 10 then ('0' as int + n) as char else ('A' as int + n - 10) as char
  }

  function HexValue(c: char): (v: int)
    ensures -1 <= v < 16
  {
    if '0' <= c <= '9' then c as int - '0' as int
    else if 'a' <= c <= 'f' then c as int - 'a' as int + 10
    else if 'A' <= c <= 'F' then c as int - 'A' as int + 10
    else -1
  }

  function EscapeByte(c: char, mode: Mode): (r: string)
    ensures |r| == 1 || |r| == 3
  {
    if ShouldEscape(c, mode) then ['%', HexDigit(c as int / 16), HexDigit(c as int % 16)] else [c]
  }

  function Escape(s: string, mode: Mode): (r: string)
    ensures |s| <= |r|
  {
    if s == [] then [] else EscapeByte(s[0], mode) + Escape(s[1..], mode)
  }

  function Unescape(s: string): Option<string>
    decreases |s|
  {
    if s == [] then Some([])
    else if s[0] != '%' then
      match Unescape(s[1..])
      case None => None
      case Some(rest) => Some([s[0]] + rest)
    else if |s| < 3 || HexValue(s[1]) < 0 || HexValue(s[2]) < 0 then None
    else
      match Unescape(s[3..])
      case None => None
      case Some(rest) => Some([(16 * HexValue(s[1]) + HexValue(s[2])) as char] + rest)
  }

  lemma HexRoundTrip(n: nat)
    requires n < 256
    ensures HexValue(HexDigit(n / 16)) == n / 16 && HexValue(HexDigit(n % 16)) == n % 16
    ensures 16 * (n / 16) + n % 16 == n
  {
  }

  lemma UnescapeByte(c: char, mode: Mode, rest: string)
    ensures Unescape(EscapeByte(c, mode) + rest) ==
      match Unescape(rest) case None => None case Some(r) => Some([c] + r)
  {
    var s := EscapeByte(c, mode) + rest;
    assert s[|EscapeByte(c, mode)|..] == rest;
    assert ShouldEscape('%', mode);
    if ShouldEscape(c, mode) {
      HexRoundTrip(c as int);
      assert s[0] == '%' && s[1] == HexDigit(c as int / 16) && s[2] == HexDigit(c as int % 16);
    } else {
      assert s[0] == c;
    }
  }

  /** Percent-coding is undone by decoding, for every string and both encodings. */
  lemma {:induction false} UnescapeEscape(s: string, mode: Mode)
    ensures Unescape(Escape(s, mode)) == Some(s)
  {
    if s != [] {
      UnescapeEscape(s[1..], mode);
      UnescapeByte(s[0], mode, Escape(s[1..], mode));
      assert [s[0]] + s[1..] == s;
    }
  }

  /** Whether a string starts with a complete code, and what it stands for. */
  predicate Coded(s: string) { |s| >= 3 && s[0] == '%' && HexValue(s[1]) >= 0 && HexValue(s[2]) >= 0 }

  function Decoded(s: string): char
    requires Coded(s)
  {
    (16 * HexValue(s[1]) + HexValue(s[2])) as char
  }

  function Prepend(c: char, rest: Option<string>): Option<string> {
    if rest.None? then None else Some([c] + rest.value)
  }

  lemma UnescapeChar(c: char, rest: string)
    requires c != '%'
    ensures Unescape([c] + rest) == Prepend(c, Unescape(rest))
  {
    assert ([c] + rest)[1..] == rest;
  }

  lemma UnescapeCode(code: string, rest: string)
    requires |code| == 3 && Coded(code)
    ensures Unescape(code + rest) == Prepend(Decoded(code), Unescape(rest))
  {
    var s := code + rest;
    assert s[0] == '%' && s[1] == code[1] && s[2] == code[2] && s[3..] == rest;
  }

  lemma UnescapeShape(s: string)
    requires s != [] && s[0] == '%' && Unescape(s).Some?
    ensures |s| >= 3 && Coded(s[..3]) && Unescape(s[3..]).Some?
  {
  }

  lemma PrependAppend(c: char, x: string, y: string)
    ensures Prepend(c, Some(x + y)) == Some(Prepend(c, Some(x)).value + y)
  {
    assert [c] + (x + y) == ([c] + x) + y;
  }

  lemma AppendAfterChar(c: char, rest: string, b: string)
    requires c != '%' && Unescape(rest).Some? && Unescape(b).Some?
    requires Unescape(rest + b) == Some(Unescape(rest).value + Unescape(b).value)
    ensures Unescape([c] + rest + b) == Some(Unescape([c] + rest).value + Unescape(b).value)
  {
    hide Unescape;
    UnescapeChar(c, rest);
    UnescapeChar(c, rest + b);
    assert [c] + rest + b == [c] + (rest + b);
    PrependAppend(c, Unescape(rest).value, Unescape(b).value);
  }

  lemma AppendAfterCode(code: string, rest: string, b: string)
    requires |code| == 3 && Coded(code) && Unescape(rest).Some? && Unescape(b).Some?
    requires Unescape(rest + b) == Some(Unescape(rest).value + Unescape(b).value)
    ensures Unescape(code + rest).Some?
    ensures Unescape(code + rest + b) == Some(Unescape(code + rest).value + Unescape(b).value)
  {
    hide Unescape, Coded, Decoded;
    UnescapeCode(code, rest);
    UnescapeCode(code, rest + b);
    assert code + rest + b == code + (rest + b);
    PrependAppend(Decoded(code), Unescape(rest).value, Unescape(b).value);
  }

  lemma {:induction false} UnescapeAppend(a: string, b: string)
    requires Unescape(a).Some? && Unescape(b).Some?
    ensures Unescape(a + b) == Some(Unescape(a).value + Unescape(b).value)
    decreases |a|
  {
    hide HexValue, Coded;
    if a == [] {
      assert a + b == b && Unescape(a).value + Unescape(b).value == Unescape(b).value;
    } else if a[0] == '%' {
      UnescapeShape(a);
      hide Unescape;
      UnescapeAppend(a[3..], b);
      AppendAfterCode(a[..3], a[3..], b);
      assert a[..3] + a[3..] == a;
    } else {
      assert Unescape(a[1..]).Some?;
      hide Unescape;
      UnescapeAppend(a[1..], b);
      AppendAfterChar(a[0], a[1..], b);
      assert [a[0]] + a[1..] == a;
    }
  }

  lemma {:induction false} UnescapePlain(s: string)
    requires '%' !in s
    ensures Unescape(s) == Some(s)
  {
    if s != [] {
      UnescapePlain(s[1..]);
      assert [s[0]] + s[1..] == s;
    }
  }

  /** What an escaped segment is made of. */
  predicate SegmentChar(c: char) { c == '%' || !ShouldEscape(c, Segment) }

  lemma {:induction false} EscapedSegment(s: string)
    ensures forall c :: c in Escape(s, Segment) ==> SegmentChar(c)
    ensures Escape(s, Segment) == [] <==> s == []
  {
    if s != [] {
      EscapedSegment(s[1..]);
    }
  }

  // ---------- URLs ----------

  datatype Url = Url(scheme: string, host: string, rawQuery: string, fragment: string,
    path: string, rawPath: string)

  function Before(s: string, c: char): string { s[..IndexOf(s, c)] }

  function After(s: string, c: char): string {
    if IndexOf(s, c) == |s| then [] else s[IndexOf(s, c) + 1..]
  }

  predicate Control(c: char) { c < ' ' || c == 0x7f as char }

  predicate HasControl(s: string) { exists c :: c in s && Control(c) }

  predicate SchemeShaped(s: string) {
    && s != []
    && ('a' <= s[0] <= 'z' || 'A' <= s[0] <= 'Z')
    && forall c :: c in s ==> Alphanumeric(c) || c == '+' || c == '-' || c == '.'
  }

  predicate HostShaped(s: string) { forall c :: c in s ==> Unreserved(c) }

  /** Whether a raw path may be kept as it is. */
  predicate ValidEncoded(s: string) {
    forall c :: c in s ==> c in "!$&'()*+,;=:@[]%" || !ShouldEscape(c, Path)
  }

  function WithPath(u: Url, p: string): Option<Url> {
    match Unescape(p)
    case None => None
    case Some(path) => Some(u.(path := path, rawPath := if Escape(path, Path) == p then "" else p))
  }

  /** An authority up to the first slash, and the path after it. */
  function WithAuthority(u: Url, rest: string): Option<Url> {
    var authority := Before(rest, '/');
    if HostShaped(authority) then WithPath(u.(host := authority), rest[|authority|..]) else None
  }

  function EscapedPath(u: Url): string {
    if u.rawPath != "" && ValidEncoded(u.rawPath) && Unescape(u.rawPath) == Some(u.path) then u.rawPath
    else if u.path == "*" then "*"
    else Escape(u.path, Path)
  }

  /** The part of URL parsing this package depends on. A URL without a scheme is refused
      here already, since every caller refuses it. */
  function ParseUrl(raw: string): Option<Url> {
    var body := Before(raw, '#');
    var scheme := Before(body, ':');
    var rest := Before(After(body, ':'), '?');
    var u := Url(ToLower(scheme), "", After(After(body, ':'), '?'), After(raw, '#'), "", "");
    if HasControl(body) || ':' !in body || !SchemeShaped(scheme) then None
    else if "//" <= rest then
      WithAuthority(u, rest[2..])
    else if "/" <= rest then WithPath(u, rest)
    else WithPath(u, "")
  }

  // ---------- Session identities ----------

  function SessionSPIFFEID(trustDomain: string, namespace: string, session: string): string {
    "spiffe://" + TrimSpace(trustDomain)
    + "/ns/" + Escape(TrimSpace(namespace), Segment) + "/session/" + Escape(TrimSpace(session), Segment)
  }

  predicate EqualFold(a: string, b: string) { ToLower(a) == ToLower(b) }

  function ParseSessionSPIFFE(raw: string, trustDomain: string): Option<(string, string)> {
    match ParseUrl(raw)
    case None => None
    case Some(u) =>
      if !EqualFold(u.scheme, "spiffe") || !EqualFold(u.host, TrimSpace(trustDomain)) then None
      else if u.rawQuery != "" || u.fragment != "" then None
      else ParsePath(EscapedPath(u))
  }

  predicate Slash(c: char) { c == '/' }

  function ParsePath(path: string): Option<(string, string)> {
    var parts := Split(Trim(path, Slash), '/');
    if |parts| != 4 || parts[0] != "ns" || parts[2] != "session" then None
    else
      match (Unescape(parts[1]), Unescape(parts[3]))
      case (Some(namespace), Some(session)) =>
        if TrimSpace(namespace) == "" || TrimSpace(session) == "" then None else Some((namespace, session))
      case _ => None
  }

  // ---------- Reading the path of a session identity ----------

  function SessionPath(ns: string, session: string): string {
    "/ns/" + ns + "/session/" + session
  }

  lemma SplitSegments(a: string, b: string, c: string, d: string)
    requires '/' !in a && '/' !in b && '/' !in c && '/' !in d
    ensures Split(a + ['/'] + (b + ['/'] + (c + ['/'] + d)), '/') == [a, b, c, d]
    ensures Split(a + ['/'] + (b + ['/'] + c), '/') == [a, b, c]
  {
    hide Split;
    SplitPlain(d, '/');
    SplitPlain(c, '/');
    SplitCons(c, d, '/');
    SplitCons(b, c + ['/'] + d, '/');
    SplitCons(b, c, '/');
    SplitCons(a, b + ['/'] + (c + ['/'] + d), '/');
    SplitCons(a, b + ['/'] + c, '/');
  }

  lemma SplitPath(ns: string, session: string)
    requires '/' !in ns && '/' !in session
    ensures Split("ns/" + ns + "/session/" + session, '/') == ["ns", ns, "session", session]
    ensures Split("ns/" + ns + "/session", '/') == ["ns", ns, "session"]
  {
    SplitSegments("ns", ns, "session", session);
    hide Split;
    assert "ns/" == "ns" + ['/'];
    assert "/session/" == ['/'] + "session" + ['/'];
    assert "/session" == ['/'] + "session";
    Regroup("ns", ns, "session", session);
  }

  lemma Regroup(a: string, b: string, c: string, d: string)
    ensures (a + ['/']) + b + (['/'] + c + ['/']) + d == a + ['/'] + (b + ['/'] + (c + ['/'] + d))
    ensures (a + ['/']) + b + (['/'] + c) == a + ['/'] + (b + ['/'] + c)
  {
  }

  lemma TrimLeftSlash(x: string)
    requires x != [] && x[0] != '/'
    ensures TrimLeft(['/'] + x, Slash) == x
  {
    assert (['/'] + x)[1..] == x;
    assert TrimLeft(x, Slash) == x;
  }

  lemma TrimRightSlash(x: string)
    requires x != [] && x[|x| - 1] != '/'
    ensures TrimRight(x, Slash) == x && TrimRight(x + ['/'], Slash) == x
  {
    assert (x + ['/'])[..|x|] == x;
  }

  lemma TrimOuterSlashes(x: string)
    requires x != [] && x[0] != '/' && x[|x| - 1] != '/'
    ensures Trim("/" + x, Slash) == x
    ensures Trim("/" + x + "/", Slash) == x
  {
    hide TrimLeft, TrimRight;
    TrimLeftSlash(x);
    TrimLeftSlash(x + ['/']);
    TrimRightSlash(x);
    assert "/" + x + "/" == ['/'] + (x + ['/']);
  }

  lemma ParseParts(path: string, a: string, b: string, c: string, d: string)
    requires Split(Trim(path, Slash), '/') == [a, b, c, d] && a == "ns" && c == "session"
    requires Unescape(b).Some? && Unescape(d).Some?
    ensures ParsePath(path) ==
      var ns, session := Unescape(b).value, Unescape(d).value;
      if TrimSpace(ns) == "" || TrimSpace(session) == "" then None else Some((ns, session))
  {
    hide Split, Trim, TrimSpace, Unescape, Slash;
  }

  lemma SegmentHasNoSlash(s: string)
    ensures '/' !in Escape(s, Segment) && Unescape(Escape(s, Segment)) == Some(s)
    ensures Escape(s, Segment) == "" <==> s == ""
  {
    EscapedSegment(s);
    UnescapeEscape(s, Segment);
    hide Escape, Unescape;
  }

  lemma ParseShortPath(n: string)
    requires '/' !in n
    ensures ParsePath(SessionPath(n, "")) == None
  {
    SessionPathWithoutSession(n);
    hide *;
    var x := "ns/" + n + "/session";
    SplitPath(n, "");
    TrimOuterSlashes(x);
    ShortPath(SessionPath(n, ""));
  }

  lemma ParseFullPath(n: string, s: string)
    requires '/' !in n && '/' !in s && s != "" && Unescape(n).Some? && Unescape(s).Some?
    ensures ParsePath(SessionPath(n, s)) ==
      var ns, session := Unescape(n).value, Unescape(s).value;
      if TrimSpace(ns) == "" || TrimSpace(session) == "" then None else Some((ns, session))
  {
    SessionPathWithSession(n, s);
    assert s[|s| - 1] != '/';
    hide *;
    SplitPath(n, s);
    TrimOuterSlashes("ns/" + n + "/session/" + s);
    ParseParts(SessionPath(n, s), "ns", n, "session", s);
  }

  /** Reading a path of escaped segments: exactly those segments, and nothing when either is
      blank. */
  lemma ParseSessionPath(ns: string, session: string)
    ensures ParsePath(SessionPath(Escape(ns, Segment), Escape(session, Segment))) ==
      if TrimSpace(ns) == "" || TrimSpace(session) == "" then None else Some((ns, session))
  {
    SegmentHasNoSlash(ns);
    SegmentHasNoSlash(session);
    NothingToTrim();
    hide *;
    if session == "" {
      ParseShortPath(Escape(ns, Segment));
    } else {
      ParseFullPath(Escape(ns, Segment), Escape(session, Segment));
    }
  }

  lemma NothingToTrim()
    ensures TrimSpace("") == ""
  {
  }

  lemma SessionPathWithoutSession(n: string)
    ensures ("ns/" + n + "/session")[0] == 'n' && ("ns/" + n + "/session")[|n| + 10] == 'n'
    ensures SessionPath(n, "") == "/" + ("ns/" + n + "/session") + "/"
  {
  }

  lemma SessionPathWithSession(n: string, s: string)
    requires s != ""
    ensures var x := "ns/" + n + "/session/" + s;
      x[0] == 'n' && x[|x| - 1] == s[|s| - 1] && SessionPath(n, s) == "/" + x
  {
  }

  lemma ShortPath(path: string)
    requires |Split(Trim(path, Slash), '/')| != 4
    ensures ParsePath(path) == None
  {
    hide Split, Trim, Slash;
  }

  // ---------- The URL of a session identity ----------

  predicate PathChar(c: char) { c == '/' || SegmentChar(c) }

  predicate PathShaped(p: string) {
    && p != [] && p[0] == '/'
    && Unescape(p).Some?
    && forall c :: c in p ==> PathChar(c)
  }

  lemma PathCharsArePlain(c: char)
    requires PathChar(c) || Unreserved(c)
    ensures c != '#' && c != '?' && !Control(c)
    ensures PathChar(c) ==> c in "!$&'()*+,;=:@[]%" || !ShouldEscape(c, Path)
  {
  }

  lemma SessionPathShaped(ns: string, session: string)
    ensures PathShaped(SessionPath(Escape(ns, Segment), Escape(session, Segment)))
  {
    var n, s := Escape(ns, Segment), Escape(session, Segment);
    EscapedSegment(ns);
    EscapedSegment(session);
    UnescapeEscape(ns, Segment);
    UnescapeEscape(session, Segment);
    hide Unescape, Escape, SegmentChar;
    SessionPathUnescapes(n, s);
    SessionPathChars(n, s);
  }

  lemma SessionPathUnescapes(n: string, s: string)
    requires Unescape(n).Some? && Unescape(s).Some?
    ensures Unescape(SessionPath(n, s)).Some?
  {
    hide Unescape;
    UnescapePlain("/ns/");
    UnescapePlain("/session/");
    UnescapeAppend("/ns/", n);
    UnescapeAppend("/ns/" + n, "/session/");
    UnescapeAppend("/ns/" + n + "/session/", s);
  }

  lemma SessionPathChars(n: string, s: string)
    requires forall c :: c in n || c in s ==> SegmentChar(c)
    ensures SessionPath(n, s) != [] && SessionPath(n, s)[0] == '/'
    ensures forall c :: c in SessionPath(n, s) ==> PathChar(c)
  {
    assert forall c :: c in "/ns/" ==> PathChar(c);
    assert forall c :: c in "/session/" ==> PathChar(c);
    hide SegmentChar;
    forall c | c in SessionPath(n, s) ensures PathChar(c) {
      assert c in "/ns/" || c in n || c in "/session/" || c in s;
    }
  }

  /** A path of escaped segments survives decoding and re-encoding unchanged, whether or not
      the canonical encoding of the decoded path is the same. */
  lemma PathIsKept(u: Url, p: string)
    requires PathShaped(p)
    ensures WithPath(u, p).Some?
    ensures var v := WithPath(u, p).value;
      && EscapedPath(v) == p
      && v.scheme == u.scheme && v.host == u.host && v.rawQuery == u.rawQuery && v.fragment == u.fragment
  {
    forall c | c in p ensures c in "!$&'()*+,;=:@[]%" || !ShouldEscape(c, Path) {
      PathCharsArePlain(c);
    }
    assert ValidEncoded(p);
    UnescapeChar('/', p[1..]);
    assert ['/'] + p[1..] == p;
    hide Unescape, Escape, ShouldEscape, PathChar;
  }

  lemma BeforeFirst(a: string, c: char, b: string)
    requires c !in a
    ensures Before(a + [c] + b, c) == a && After(a + [c] + b, c) == b
  {
    IndexOfFirst(a, c, b);
    var s := a + [c] + b;
    assert s[..|a|] == a && s[|a| + 1..] == b;
  }

  lemma BeforeNone(a: string, c: char)
    requires c !in a
    ensures Before(a, c) == a && After(a, c) == ""
  {
    assert a[..|a|] == a;
  }

  predicate UrlChar(c: char) { c != '#' && c != '?' && !Control(c) }

  lemma AuthorityOf(u: Url, td: string, p: string)
    requires HostShaped(td) && p != [] && p[0] == '/'
    ensures WithAuthority(u, td + p) == WithPath(u.(host := td), p)
  {
    hide HostShaped, WithPath;
    assert p == ['/'] + p[1..];
    assert td + p == td + ['/'] + p[1..];
    assert '/' !in td by { HostHasNoSlash(td); }
    BeforeFirst(td, '/', p[1..]);
    assert (td + p)[|td|..] == p;
  }

  lemma HostHasNoSlash(td: string)
    requires HostShaped(td)
    ensures '/' !in td
  {
  }

  lemma SchemeHasNoColon(scheme: string)
    requires SchemeShaped(scheme)
    ensures ':' !in scheme
  {
  }

  lemma UrlCharsAreClean(s: string)
    requires forall c :: c in s ==> UrlChar(c)
    ensures !HasControl(s) && Before(s, '#') == s && After(s, '#') == ""
    ensures Before(s, '?') == s && After(s, '?') == ""
  {
    BeforeNone(s, '#');
    BeforeNone(s, '?');
  }

  lemma ParseUrlParts(scheme: string, td: string, p: string)
    requires SchemeShaped(scheme) && HostShaped(td) && p != [] && p[0] == '/'
    requires forall c :: c in scheme || c in td || c in p ==> UrlChar(c)
    ensures ParseUrl(scheme + [':'] + ("//" + (td + p))) ==
      WithPath(Url(ToLower(scheme), td, "", "", "", ""), p)
  {
    var rest := "//" + (td + p);
    var raw := scheme + [':'] + rest;
    assert UrlChar('/') && UrlChar(':');
    hide UrlChar;
    assert forall c :: c in rest ==> c == '/' || c in td || c in p;
    UrlCharsAreClean(rest);
    UrlCharsAreClean(raw);
    SchemeHasNoColon(scheme);
    BeforeFirst(scheme, ':', rest);
    var u := Url(ToLower(scheme), "", "", "", "", "");
    AuthorityOf(u, td, p);
    hide Before, After, SchemeShaped, HostShaped, WithPath, WithAuthority, ToLower, HasControl;
    assert rest[2..] == td + p && "//" <= rest;
  }

  lemma SpiffeScheme()
    ensures forall c :: c in "spiffe" ==> UrlChar(c)
    ensures SchemeShaped("spiffe") && ToLower("spiffe") == "spiffe"
  {
  }

  lemma SessionUrl(td: string, p: string)
    requires HostShaped(td) && PathShaped(p)
    ensures ParseUrl("spiffe://" + td + p).Some?
    ensures var u := ParseUrl("spiffe://" + td + p).value;
      u.scheme == "spiffe" && u.host == td && u.rawQuery == "" && u.fragment == "" && EscapedPath(u) == p
  {
    SpiffeScheme();
    SpiffePrefix(td, p);
    SessionChars(td, p);
    var scheme := "spiffe";
    hide *;
    ParseUrlParts(scheme, td, p);
    PathIsKept(Url(scheme, td, "", "", "", ""), p);
  }

  lemma SessionChars(td: string, p: string)
    requires HostShaped(td) && PathShaped(p)
    ensures p != [] && p[0] == '/'
    ensures forall c :: c in td || c in p ==> UrlChar(c)
  {
    hide UrlChar, Unescape, PathChar, Unreserved;
    forall c | c in td || c in p ensures UrlChar(c) {
      UrlCharOf(c);
    }
  }

  lemma UrlCharOf(c: char)
    requires PathChar(c) || Unreserved(c)
    ensures UrlChar(c)
  {
    PathCharsArePlain(c);
  }

  lemma SpiffePrefix(td: string, p: string)
    ensures "spiffe" + [':'] + ("//" + (td + p)) == "spiffe://" + td + p
  {
    assert "spiffe://" == "spiffe" + [':'] + "//";
  }

  // ---------- The round trip ----------

  lemma TrimSpaceTwice(s: string)
    ensures TrimSpace(TrimSpace(s)) == TrimSpace(s)
  {
    TrimSpaceFixed(TrimSpace(s));
  }

  /** Reading an identity with a path of escaped segments, under any expected trust domain. */
  lemma ParseRaw(td: string, ns: string, session: string, expected: string)
    requires HostShaped(td)
    ensures ParseSessionSPIFFE("spiffe://" + td + SessionPath(Escape(ns, Segment), Escape(session, Segment)), expected) ==
      if EqualFold(td, TrimSpace(expected)) && TrimSpace(ns) != "" && TrimSpace(session) != "" then Some((ns, session)) else None
  {
    hide Escape, TrimSpace, HostShaped, PathShaped, ParseUrl, EscapedPath, ParsePath, ToLower, SessionPath;
    SessionPathShaped(ns, session);
    ParseSessionPath(ns, session);
    SessionUrl(td, SessionPath(Escape(ns, Segment), Escape(session, Segment)));
  }

  /** Reading back a printed identity, under any expected trust domain: the trimmed
      namespace and session when the domains agree up to case and neither part is blank, a
      refusal otherwise. */
  lemma SessionRoundTrip(td: string, ns: string, session: string, expected: string)
    requires HostShaped(TrimSpace(td))
    ensures ParseSessionSPIFFE(SessionSPIFFEID(td, ns, session), expected) ==
      if EqualFold(TrimSpace(td), TrimSpace(expected)) && TrimSpace(ns) != "" && TrimSpace(session) != ""
      then Some((TrimSpace(ns), TrimSpace(session)))
      else None
  {
    PrintedIdentity(td, ns, session);
    hide *;
    TrimSpaceTwice(ns);
    TrimSpaceTwice(session);
    ParseRaw(TrimSpace(td), TrimSpace(ns), TrimSpace(session), expected);
  }

  lemma PrintedIdentity(td: string, ns: string, session: string)
    ensures SessionSPIFFEID(td, ns, session) ==
      "spiffe://" + TrimSpace(td) + SessionPath(Escape(TrimSpace(ns), Segment), Escape(TrimSpace(session), Segment))
  {
    hide TrimSpace, Escape;
  }

  /** Under one trust domain, two sessions share an identity exactly when their trimmed
      namespaces and sessions are the same. */
  lemma IdentityIsInjective(td: string, ns1: string, s1: string, ns2: string, s2: string)
    requires HostShaped(TrimSpace(td))
    requires TrimSpace(ns1) != "" && TrimSpace(s1) != ""
    ensures SessionSPIFFEID(td, ns1, s1) == SessionSPIFFEID(td, ns2, s2)
      <==> TrimSpace(ns1) == TrimSpace(ns2) && TrimSpace(s1) == TrimSpace(s2)
  {
    SessionRoundTrip(td, ns1, s1, td);
    SessionRoundTrip(td, ns2, s2, td);
    hide ParseSessionSPIFFE, Escape, TrimSpace, HostShaped;
  }

  /** Whatever the reader accepts is printed back to an identity that reads the same exactly
      when neither decoded part carries outer white space, which the reader lets through. */
  lemma ReprintIff(raw: string, td: string)
    requires HostShaped(TrimSpace(td)) && ParseSessionSPIFFE(raw, td).Some?
    ensures var (ns, session) := ParseSessionSPIFFE(raw, td).value;
      ParseSessionSPIFFE(SessionSPIFFEID(td, ns, session), td) == Some((ns, session))
      <==> TrimSpace(ns) == ns && TrimSpace(session) == session
  {
    var (ns, session) := ParseSessionSPIFFE(raw, td).value;
    AcceptedIsNotBlank(raw, td);
    SessionRoundTrip(td, ns, session, td);
    hide ParseSessionSPIFFE, SessionSPIFFEID, TrimSpace, HostShaped;
  }

  lemma AcceptedIsNotBlank(raw: string, td: string)
    requires ParseSessionSPIFFE(raw, td).Some?
    ensures var (ns, session) := ParseSessionSPIFFE(raw, td).value;
      TrimSpace(ns) != "" && TrimSpace(session) != ""
  {
    hide ParseUrl, EscapedPath, EqualFold, TrimSpace, Unescape, Split, Trim;
  }

  /** An identity whose namespace starts with an encoded space: it is accepted, but printed back
      as the identity of another namespace. */
  lemma EncodedSpaceIsAccepted(td: string, letter: char) returns (raw: string)
    requires HostShaped(td) && TrimSpace(td) == td && !IsSpace(letter)
    ensures ParseSessionSPIFFE(raw, td) == Some(([' ', letter], [letter]))
    ensures ParseSessionSPIFFE(SessionSPIFFEID(td, [' ', letter], [letter]), td) == Some(([letter], [letter]))
  {
    var ns, session := [' ', letter], [letter];
    TrimLetter(letter);
    assert EqualFold(td, TrimSpace(td));
    hide *;
    raw := "spiffe://" + td + SessionPath(Escape(ns, Segment), Escape(session, Segment));
    ParseRaw(td, ns, session, td);
    SessionRoundTrip(td, ns, session, td);
  }

  lemma TrimLetter(c: char)
    requires !IsSpace(c)
    ensures TrimSpace([c]) == [c] && TrimSpace([' ', c]) == [c] && [c] != ""
  {
    hide TrimLeft, TrimRight;
    LeadingSpace([c]);
    assert [' ', c] == [' '] + [c];
  }

  lemma LeadingSpace(x: string)
    requires x != [] && !IsSpace(x[0]) && !IsSpace(x[|x| - 1])
    ensures TrimLeft([' '] + x, IsSpace) == x && TrimLeft(x, IsSpace) == x && TrimRight(x, IsSpace) == x
  {
    assert ([' '] + x)[1..] == x;
  }
}
