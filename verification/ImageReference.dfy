/** OCI image references (internal/platformrelease/image.go). */
module ImageReference {
  import opened Text
  import opened Wrappers

  datatype ImageRef = ImageRef(registry: string, path: string, tag: string, digest: string)

  // ---------- The patterns ----------

  predicate Lower(c: char) { 'a' <= c <= 'z' || '0' <= c <= '9' }

  predicate Alnum(c: char) { Lower(c) || 'A' <= c <= 'Z' }

  predicate SeparatorRun(s: string) { s == "." || s == "_" || s == "__" || forall c :: c in s ==> c == '-' }

  /** Alphanumeric runs joined by separators; `run` is the separator being read. */
  predicate ComponentTail(s: string, run: string) {
    if s == "" then run == ""
    else if Lower(s[0]) then SeparatorRun(run) && ComponentTail(s[1..], "")
    else (s[0] == '.' || s[0] == '_' || s[0] == '-') && ComponentTail(s[1..], run + [s[0]])
  }

  predicate Component(s: string) { s != "" && Lower(s[0]) && ComponentTail(s, "") }

  predicate RepoPath(s: string) {
    var parts := Split(s, '/');
    forall i :: 0 <= i < |parts| ==> Component(parts[i])
  }

  predicate HostName(s: string) {
    s != "" && Alnum(s[0]) && Alnum(s[|s| - 1]) && forall c :: c in s ==> Alnum(c) || c == '.' || c == '-'
  }

  predicate HostPattern(s: string) {
    var cut := CutFirst(s, ':');
    HostName(cut.head) && (cut.tail.Some? ==> cut.tail.value != "" && AllDigits(cut.tail.value))
  }

  predicate TagChar(c: char) { Alnum(c) || c == '_' || c == '.' || c == '-' }

  predicate ValidTag(s: string) {
    1 <= |s| <= 128 && (Alnum(s[0]) || s[0] == '_') && forall c :: c in s ==> TagChar(c)
  }

  predicate ValidDigest(s: string) {
    |s| == 71 && s[..7] == "sha256:" && forall i :: 7 <= i < 71 ==> '0' <= s[i] <= '9' || 'a' <= s[i] <= 'f'
  }

  /** The first path component that makes a name start with a registry. */
  predicate HostLike(first: string) { '.' in first || ':' in first || first == "localhost" }

  // ---------- Cutting text at a separator ----------

  datatype Cut = Cut(head: string, tail: Option<string>)

  predicate CutsBack(cut: Cut, s: string, c: char) {
    s == if cut.tail.Some? then cut.head + [c] + cut.tail.value else cut.head
  }

  function CutFirst(s: string, c: char): (cut: Cut)
    ensures CutsBack(cut, s, c)
  {
    var i := IndexOf(s, c);
    if i < |s| then Cut(s[..i], Some(s[i + 1..])) else Cut(s, None)
  }

  /** At the last colon, unless a slash follows it. */
  function CutTag(s: string): (cut: Cut)
    ensures CutsBack(cut, s, ':')
  {
    var i := LastIndexOf(s, ':');
    if i >= 0 && '/' !in s[i + 1..] then Cut(s[..i], Some(s[i + 1..])) else Cut(s, None)
  }

  lemma CutFirstAt(a: string, c: char, b: string)
    requires c !in a
    ensures CutFirst(a + [c] + b, c) == Cut(a, Some(b))
    ensures CutFirst(a, c) == Cut(a, None)
  {
    IndexOfFirst(a, c, b);
    var s := a + [c] + b;
    assert s[..|a|] == a && s[|a| + 1..] == b;
  }

  lemma CutTagAt(a: string, b: string)
    requires ':' !in b && '/' !in b
    ensures CutTag(a + [':'] + b) == Cut(a, Some(b))
  {
    LastIndexOfLast(a, ':', b);
    var s := a + [':'] + b;
    assert s[..|a|] == a && s[|a| + 1..] == b;
  }

  /** A colon in the registry is not a tag separator. */
  lemma CutTagNone(registry: string, path: string)
    requires ':' !in path
    ensures CutTag(registry + ['/'] + path) == Cut(registry + ['/'] + path, None)
    ensures CutTag(path) == Cut(path, None)
  {
    hide LastIndexOf;
    var s, tail := registry + ['/'] + path, ['/'] + path;
    var i := LastIndexOf(s, ':');
    assert forall k :: |registry| <= k < |s| ==> s[k] == tail[k - |registry|];
    assert forall k :: |registry| <= k < |s| ==> s[k] != ':';
    if i >= 0 {
      assert s[i + 1..][|registry| - i - 1] == '/';
    }
  }

  // ---------- Parsing and printing ----------

  function ParseRepo(name: string, tag: string, digest: string): Option<ImageRef> {
    var cut := CutFirst(name, '/');
    if cut.tail.Some? && HostLike(cut.head) then
      if HostPattern(cut.head) && RepoPath(cut.tail.value) then
        Some(ImageRef(cut.head, cut.tail.value, tag, digest))
      else None
    else if RepoPath(name) then Some(ImageRef("", name, tag, digest))
    else None
  }

  function ParseTagged(name: string, digest: string): Option<ImageRef> {
    var cut := CutTag(name);
    if cut.tail.None? then ParseRepo(name, "", digest)
    else if ValidTag(cut.tail.value) then ParseRepo(cut.head, cut.tail.value, digest)
    else None
  }

  function ParseText(text: string): Option<ImageRef> {
    var cut := CutFirst(text, '@');
    if text == "" then None
    else if cut.tail.None? then ParseTagged(text, "")
    else if ValidDigest(cut.tail.value) then ParseTagged(cut.head, cut.tail.value)
    else None
  }

  function Parse(s: string): Option<ImageRef> { ParseText(TrimSpace(s)) }

  /** `repo[:tag][@digest]` with an optional registry host. */
  method ParseImageRef(s: string) returns (r: Option<ImageRef>)
    ensures r == Parse(s)
  {
    hide CutFirst, CutTag, ValidDigest, ValidTag, HostPattern, RepoPath, HostLike, TrimSpace;
    var name := TrimSpace(s);
    if name == "" {
      return None;
    }
    var ref := ImageRef("", "", "", "");
    var cut := CutFirst(name, '@');
    if cut.tail.Some? {
      ref := ref.(digest := cut.tail.value);
      name := cut.head;
      if !ValidDigest(ref.digest) {
        return None;
      }
    }
    cut := CutTag(name);
    if cut.tail.Some? {
      ref := ref.(tag := cut.tail.value);
      name := cut.head;
      if !ValidTag(ref.tag) {
        return None;
      }
    }
    cut := CutFirst(name, '/');
    if cut.tail.Some? && HostLike(cut.head) {
      ref := ref.(registry := cut.head);
      name := cut.tail.value;
      if !HostPattern(ref.registry) {
        return None;
      }
    }
    ref := ref.(path := name);
    if !RepoPath(ref.path) {
      return None;
    }
    return Some(ref);
  }

  function Name(r: ImageRef): string { if r.registry == "" then r.path else r.registry + ['/'] + r.path }

  function WithTag(name: string, tag: string): string { if tag == "" then name else name + [':'] + tag }

  function WithDigest(name: string, digest: string): string { if digest == "" then name else name + ['@'] + digest }

  /** `ImageRef.String`. */
  function String(r: ImageRef): string { WithDigest(WithTag(Name(r), r.tag), r.digest) }

  // ---------- Printing undoes parsing ----------

  lemma NotEmpty()
    ensures !HostLike("") && !ValidTag("") && !ValidDigest("")
  {
  }

  /** A parsed reference prints as the trimmed text it came from. */
  lemma StringOfParse(s: string)
    requires Parse(s).Some?
    ensures String(Parse(s).value) == TrimSpace(s)
  {
    NotEmpty();
    hide CutFirst, CutTag, ValidDigest, ValidTag, HostPattern, RepoPath, HostLike, TrimSpace;
  }

  /** So re-parsing what a parsed reference prints gives the same reference. */
  lemma ReparseIsStable(s: string)
    requires Parse(s).Some?
    ensures Parse(String(Parse(s).value)) == Parse(s)
  {
    StringOfParse(s);
    TrimSpaceFixed(TrimSpace(s));
    hide TrimSpace, String, ParseText;
  }

  // ---------- Exactly the canonical references survive printing and parsing ----------

  /** The references the parser can produce: valid parts, and a registry exactly when the first
      component reads as a host. */
  predicate Canonical(r: ImageRef) {
    && RepoPath(r.path)
    && (r.tag == "" || ValidTag(r.tag))
    && (r.digest == "" || ValidDigest(r.digest))
    && (if r.registry != "" then HostLike(r.registry) && HostPattern(r.registry)
        else var cut := CutFirst(r.path, '/'); cut.tail.Some? ==> !HostLike(cut.head))
  }

  lemma ParseIsCanonical(s: string)
    requires Parse(s).Some?
    ensures Canonical(Parse(s).value)
  {
    NotEmpty();
    hide CutFirst, CutTag, ValidDigest, ValidTag, HostPattern, RepoPath, HostLike, TrimSpace;
  }

  lemma {:induction false} ComponentChars(s: string, run: string)
    requires ComponentTail(s, run)
    ensures forall c :: c in s ==> TagChar(c)
    ensures s != "" ==> Lower(s[|s| - 1])
  {
    hide SeparatorRun;
    if s != "" {
      ComponentChars(s[1..], if Lower(s[0]) then "" else run + [s[0]]);
      assert s == [s[0]] + s[1..];
    }
  }

  lemma {:induction false} JoinedParts(parts: seq<string>)
    requires |parts| >= 1 && forall i :: 0 <= i < |parts| ==> Component(parts[i])
    ensures var s := Join(parts, "/");
            s != "" && Lower(s[0]) && Lower(s[|s| - 1]) && forall c :: c in s ==> TagChar(c) || c == '/'
  {
    hide ComponentTail;
    ComponentEnds(parts[0]);
    if |parts| > 1 {
      JoinedParts(parts[1..]);
    }
  }

  lemma ComponentEnds(s: string)
    requires Component(s)
    ensures s != "" && Lower(s[0]) && Lower(s[|s| - 1]) && forall c :: c in s ==> TagChar(c)
  {
    ComponentChars(s, "");
  }

  lemma PathText(path: string)
    requires RepoPath(path)
    ensures NameText(path) && ':' !in path
  {
    hide Component;
    JoinSplit(path, '/');
    JoinedParts(Split(path, '/'));
  }

  /** What a name can hold, and how it starts and ends. */
  predicate NameText(s: string) {
    && s != "" && Alnum(s[0]) && Alnum(s[|s| - 1])
    && forall c :: c in s ==> TagChar(c) || c == '/' || c == ':'
  }

  lemma HostText(s: string)
    requires HostPattern(s)
    ensures s != "" && Alnum(s[0]) && '/' !in s && forall c :: c in s ==> TagChar(c) || c == ':'
  {
    var cut := CutFirst(s, ':');
    hide CutFirst;
    assert s[0] == cut.head[0];
  }

  lemma NameIsText(r: ImageRef)
    requires Canonical(r)
    ensures NameText(Name(r)) && (r.registry != "" ==> '/' !in r.registry) && ':' !in r.path
  {
    PathText(r.path);
    if r.registry != "" {
      HostText(r.registry);
    }
    hide Canonical, TagChar, Alnum;
    var s := Name(r);
    assert s[|s| - 1] == r.path[|r.path| - 1];
  }

  lemma RepoParses(r: ImageRef)
    requires Canonical(r)
    ensures ParseRepo(Name(r), r.tag, r.digest) == Some(r) && CutTag(Name(r)) == Cut(Name(r), None)
  {
    NameIsText(r);
    CutTagNone(r.registry, r.path);
    if r.registry != "" {
      CutFirstAt(r.registry, '/', r.path);
    }
    hide CutFirst, CutTag, ValidDigest, ValidTag, HostPattern, RepoPath, HostLike, NameText;
  }

  lemma TaggedParses(r: ImageRef)
    requires Canonical(r)
    ensures ParseTagged(WithTag(Name(r), r.tag), r.digest) == Some(r)
  {
    RepoParses(r);
    if r.tag != "" {
      TagEnds(r.tag);
      CutTagAt(Name(r), r.tag);
    }
    hide Name, ParseRepo, CutTag, ValidDigest, ValidTag, HostPattern, RepoPath, HostLike;
  }

  lemma DigestEnds(s: string)
    requires ValidDigest(s)
    ensures s != "" && !IsSpace(s[|s| - 1])
  {
  }

  lemma TagEnds(s: string)
    requires ValidTag(s)
    ensures s != "" && !IsSpace(s[|s| - 1]) && '@' !in s && ':' !in s && '/' !in s
  {
    assert s[|s| - 1] in s;
  }

  lemma NameEnds(s: string)
    requires NameText(s)
    ensures s != "" && !IsSpace(s[0]) && !IsSpace(s[|s| - 1]) && '@' !in s
  {
  }

  lemma DigestParses(tagged: string, digest: string)
    requires tagged != "" && '@' !in tagged && (digest == "" || ValidDigest(digest))
    ensures ParseText(WithDigest(tagged, digest)) == ParseTagged(tagged, digest)
  {
    CutFirstAt(tagged, '@', digest);
    hide CutFirst, ValidDigest, ParseTagged;
  }

  lemma PartsOf(r: ImageRef)
    requires Canonical(r)
    ensures (r.tag == "" || ValidTag(r.tag)) && (r.digest == "" || ValidDigest(r.digest))
    ensures String(r) == WithDigest(WithTag(Name(r), r.tag), r.digest)
    ensures Parse(String(r)) == ParseText(TrimSpace(String(r)))
  {
    hide ValidDigest, ValidTag, HostPattern, RepoPath, HostLike, WithTag, WithDigest, Name, ParseText, CutFirst, TrimSpace;
  }

  lemma StringParses(r: ImageRef)
    requires Canonical(r)
    ensures Parse(String(r)) == Some(r)
  {
    hide *;
    PartsOf(r);
    NameIsText(r);
    NameEnds(Name(r));
    TaggedParses(r);
    if r.tag != "" { TagEnds(r.tag); }
    if r.digest != "" { DigestEnds(r.digest); }
    EndsOfText(Name(r), r.tag, r.digest);
    TrimSpaceFixed(String(r));
    TagNotLost(Name(r), r.tag);
    DigestParses(WithTag(Name(r), r.tag), r.digest);
  }

  lemma TagNotLost(name: string, tag: string)
    requires name != ""
    ensures WithTag(name, tag) != ""
  {
  }

  lemma EndsOfText(name: string, tag: string, digest: string)
    requires name != "" && !IsSpace(name[0]) && !IsSpace(name[|name| - 1]) && '@' !in name
    requires tag != "" ==> !IsSpace(tag[|tag| - 1]) && '@' !in tag
    requires digest != "" ==> !IsSpace(digest[|digest| - 1])
    ensures var tagged := WithTag(name, tag);
            var text := WithDigest(tagged, digest);
            '@' !in tagged && text != "" && !IsSpace(text[0]) && !IsSpace(text[|text| - 1])
  {
    hide IsSpace;
  }

  /** A reference survives printing and parsing exactly when it is canonical. */
  lemma RoundTripIff(r: ImageRef)
    ensures Parse(String(r)) == Some(r) <==> Canonical(r)
  {
    hide Parse, Canonical, String;
    if Canonical(r) { StringParses(r); }
    if Parse(String(r)) == Some(r) { ParseIsCanonical(String(r)); }
  }
}
