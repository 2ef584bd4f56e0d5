/** Cluster-admin destination prefixes for pod egress (pkg/egresscidrs/cidrs.go). */
module EgressCidrs {
  import opened Text
  import opened Wrappers

  const MAX_PREFIXES := 16

  function Pow2(n: nat): (r: nat)
    ensures r > 0
  {
    if n == 0 then 1 else 2 * Pow2(n - 1)
  }

  /** `v >> k`. */
  function Shift(v: nat, k: nat): nat {
    if k == 0 then v else Shift(v / 2, k - 1)
  }

  datatype Family = V4 | V6

  function Width(family: Family): nat { if family.V4? then 32 else 128 }

  datatype RawAddr = Addr(family: Family, value: nat)

  /** A zone-less `netip.Addr`. */
  type Addr = a: RawAddr | a.value < Pow2(Width(a.family)) witness RawAddr.Addr(V4, 0)

  datatype RawPrefix = Prefix(addr: Addr, bits: nat)

  /** A valid `netip.Prefix`; host bits may be set, as `ParsePrefix` keeps them. */
  type Prefix = p: RawPrefix | p.bits <= Width(p.addr.family) witness RawPrefix.Prefix(RawAddr.Addr(V4, 0), 0)

  /** The first n bits of an address, as a number. */
  function TopBits(a: Addr, n: nat): nat
    requires n <= Width(a.family)
  {
    Shift(a.value, Width(a.family) - n)
  }

  predicate Contains(p: Prefix, a: Addr) {
    p.addr.family == a.family && TopBits(p.addr, p.bits) == TopBits(a, p.bits)
  }

  predicate PrefixContains(outer: Prefix, inner: Prefix) {
    Contains(outer, inner.addr) && inner.bits >= outer.bits
  }

  // ---------- Address classes ----------

  predicate Is4In6(a: Addr) { a.family.V6? && Shift(a.value, 32) == 0xffff }

  function Unmap(a: Addr): Addr {
    if Is4In6(a) then RawAddr.Addr(V4, a.value % Pow2(32)) else a
  }

  predicate IsPrivateAddr(addr: Addr) {
    var a := Unmap(addr);
    match a.family
    case V4 => TopBits(a, 8) == 10 || TopBits(a, 12) == 0xac1 || TopBits(a, 16) == 0xc0a8
    case V6 => TopBits(a, 7) == 0x7e
  }

  predicate IsLoopback(addr: Addr) {
    var a := Unmap(addr);
    match a.family
    case V4 => TopBits(a, 8) == 127
    case V6 => a.value == 1
  }

  predicate IsLinkLocalUnicast(addr: Addr) {
    var a := Unmap(addr);
    match a.family
    case V4 => TopBits(a, 16) == 0xa9fe
    case V6 => TopBits(a, 10) == 0x3fa
  }

  predicate IsLinkLocalMulticast(addr: Addr) {
    var a := Unmap(addr);
    match a.family
    case V4 => TopBits(a, 24) == 0xe00000
    case V6 => TopBits(a, 8) == 0xff && TopBits(a, 16) % 16 == 2
  }

  predicate IsMulticast(addr: Addr) {
    var a := Unmap(addr);
    match a.family
    case V4 => TopBits(a, 4) == 0xe
    case V6 => TopBits(a, 8) == 0xff
  }

  predicate IsPrivate(p: Prefix) {
    IsPrivateAddr(p.addr) || IsLoopback(p.addr) || IsLinkLocalUnicast(p.addr) || IsLinkLocalMulticast(p.addr)
  }

  // ---------- Two prefixes are nested or disjoint ----------

  lemma {:induction false} ShiftTwice(v: nat, j: nat, k: nat)
    ensures Shift(v, j + k) == Shift(Shift(v, j), k)
  {
    if j > 0 {
      ShiftTwice(v / 2, j - 1, k);
    }
  }

  /** The first n bits are a function of the first m bits for every m >= n. */
  lemma TopBitsNested(a: Addr, n: nat, m: nat)
    requires n <= m <= Width(a.family)
    ensures TopBits(a, n) == Shift(TopBits(a, m), m - n)
  {
    ShiftTwice(a.value, Width(a.family) - m, m - n);
  }

  /** If two prefixes share one address, the one with at least as many bits lies inside the
      other, whole; and only then. */
  lemma NestedOrDisjoint(p: Prefix, q: Prefix)
    requires p.bits <= q.bits
    ensures PrefixContains(p, q) ==> forall a: Addr :: Contains(q, a) ==> Contains(p, a)
    ensures !PrefixContains(p, q) ==> forall a: Addr :: !(Contains(p, a) && Contains(q, a))
  {
    forall a: Addr | Contains(q, a)
      ensures Contains(p, a) <==> PrefixContains(p, q)
    {
      if p.addr.family == q.addr.family {
        TopBitsNested(a, p.bits, q.bits);
        TopBitsNested(q.addr, p.bits, q.bits);
      }
    }
  }

  // ---------- Blocks ----------

  /** One NetworkPolicy ipBlock. */
  datatype Block = Block(cidr: Prefix, except: seq<Prefix>)

  ghost predicate InAny(prefixes: seq<Prefix>, a: Addr) {
    exists p :: p in prefixes && Contains(p, a)
  }

  /** An address that the ipBlock entries let through. */
  ghost predicate Opened(blocks: seq<Block>, a: Addr) {
    exists b :: b in blocks && Contains(b.cidr, a) && !InAny(b.except, a)
  }

  ghost predicate Covered(allow: Prefix, except: seq<Prefix>) {
    exists e :: e in except && PrefixContains(e, allow)
  }

  ghost predicate Subtracts(allow: Prefix, except: seq<Prefix>) {
    exists e :: e in except && PrefixContains(allow, e)
  }

  /** The one allow that makes `Blocks` fail: private, not swallowed by an exception, and with
      no exception inside. */
  ghost predicate Unguarded(allow: Prefix, except: seq<Prefix>) {
    IsPrivate(allow) && !Covered(allow, except) && !Subtracts(allow, except)
  }

  /** `inside` is what the inner loop collects for one allow. */
  function Inside(allow: Prefix, except: seq<Prefix>): seq<Prefix> {
    if except == [] then []
    else
      var n := |except| - 1;
      Inside(allow, except[..n]) + (if PrefixContains(allow, except[n]) then [except[n]] else [])
  }

  lemma {:induction false} InsideMembers(allow: Prefix, except: seq<Prefix>)
    ensures forall e :: e in Inside(allow, except) <==> e in except && PrefixContains(allow, e)
  {
    if except != [] {
      var n := |except| - 1;
      InsideMembers(allow, except[..n]);
      assert except == except[..n] + [except[n]];
    }
  }

  /** One emitted block opens exactly its allow minus all exceptions. */
  lemma BlockOpens(allow: Prefix, except: seq<Prefix>, a: Addr)
    requires !Covered(allow, except)
    ensures Contains(allow, a) && !InAny(Inside(allow, except), a) <==> Contains(allow, a) && !InAny(except, a)
  {
    InsideMembers(allow, except);
    forall e | e in except && Contains(e, a) && Contains(allow, a)
      ensures e in Inside(allow, except)
    {
      if e.bits < allow.bits {
        NestedOrDisjoint(e, allow);
      } else {
        NestedOrDisjoint(allow, e);
      }
    }
  }

  lemma SelfContains(p: Prefix)
    ensures PrefixContains(p, p)
  {
  }

  /** The blocks the outer loop emits. */
  ghost function BlocksOf(allows: seq<Prefix>, except: seq<Prefix>): seq<Block> {
    if allows == [] then []
    else
      var n := |allows| - 1;
      BlocksOf(allows[..n], except)
      + (if Covered(allows[n], except) then [] else [Block(allows[n], Inside(allows[n], except))])
  }

  lemma {:induction false} BlocksOfMembers(allows: seq<Prefix>, except: seq<Prefix>)
    ensures forall b :: b in BlocksOf(allows, except) ==>
              b.cidr in allows && !Covered(b.cidr, except) && b.except == Inside(b.cidr, except)
    ensures forall p :: p in allows && !Covered(p, except) ==> Block(p, Inside(p, except)) in BlocksOf(allows, except)
  {
    if allows != [] {
      var n := |allows| - 1;
      BlocksOfMembers(allows[..n], except);
      assert allows == allows[..n] + [allows[n]];
    }
  }

  method BlocksLoop(allows: seq<Prefix>, except: seq<Prefix>) returns (r: Result<seq<Block>, Prefix>)
    ensures r.Ok? <==> forall p :: p in allows ==> !Unguarded(p, except)
    ensures r.Ok? ==> r.value == BlocksOf(allows, except)
    ensures r.Err? ==> r.error in allows && Unguarded(r.error, except)
  {
    hide IsPrivate, PrefixContains;
    var blocks: seq<Block> := [];
    for i := 0 to |allows|
      invariant blocks == BlocksOf(allows[..i], except)
      invariant forall p :: p in allows[..i] ==> !Unguarded(p, except)
    {
      var allow := allows[i];
      assert allows[..i + 1] == allows[..i] + [allow];
      assert allows[..i + 1][..i] == allows[..i];
      var inside: seq<Prefix> := [];
      var skip := false;
      for k := 0 to |except|
        invariant !skip && inside == Inside(allow, except[..k])
        invariant forall e :: e in except[..k] ==> !PrefixContains(e, allow)
      {
        var exception := except[k];
        assert except[..k + 1] == except[..k] + [exception];
        assert except[..k + 1][..k] == except[..k];
        if exception == allow || PrefixContains(exception, allow) {
          assert PrefixContains(exception, allow) by { SelfContains(exception); }
          skip := true;
          break;
        }
        if PrefixContains(allow, exception) {
          inside := inside + [exception];
        }
      }
      if skip {
        assert Covered(allow, except);
        continue;
      }
      assert except[..|except|] == except;
      InsideMembers(allow, except);
      assert !Covered(allow, except);
      assert |inside| > 0 ==> inside[0] in except && PrefixContains(allow, inside[0]);
      if IsPrivate(allow) && |inside| == 0 {
        assert Unguarded(allow, except);
        return Err(allow);
      }
      assert !Unguarded(allow, except);
      blocks := blocks + [Block(allow, inside)];
    }
    assert allows[..|allows|] == allows;
    r := Ok(blocks);
  }

  /** Subtraction as a set equation: the emitted blocks open exactly the allowed addresses
      that no exception holds. */
  lemma OpensExactly(allows: seq<Prefix>, except: seq<Prefix>, a: Addr)
    ensures Opened(BlocksOf(allows, except), a) <==> InAny(allows, a) && !InAny(except, a)
  {
    var blocks := BlocksOf(allows, except);
    BlocksOfMembers(allows, except);
    if Opened(blocks, a) {
      var b :| b in blocks && Contains(b.cidr, a) && !InAny(b.except, a);
      BlockOpens(b.cidr, except, a);
    }
    if InAny(allows, a) && !InAny(except, a) {
      var p :| p in allows && Contains(p, a);
      forall e | e in except ensures !PrefixContains(e, p) {
        if e.bits <= p.bits { NestedOrDisjoint(e, p); }
      }
      BlockOpens(p, except, a);
      assert Block(p, Inside(p, except)) in blocks;
    }
  }

  /** Every Except is a strictly longer prefix inside its CIDR, as ipBlock validation demands. */
  lemma ExceptsStrictlyInside(allows: seq<Prefix>, except: seq<Prefix>, b: Block, e: Prefix)
    requires b in BlocksOf(allows, except) && e in b.except
    ensures PrefixContains(b.cidr, e) && e.bits > b.cidr.bits
    ensures forall a: Addr :: Contains(e, a) ==> Contains(b.cidr, a)
  {
    BlocksOfMembers(allows, except);
    InsideMembers(b.cidr, except);
    assert !PrefixContains(e, b.cidr);
    NestedOrDisjoint(b.cidr, e);
  }

  /** Fails exactly on an allow with a private base address that no exception touches; otherwise
      the entries open the allowed addresses that no exception holds, and no others. */
  method Blocks(allows: seq<Prefix>, except: seq<Prefix>) returns (r: Result<seq<Block>, Prefix>)
    ensures r.Ok? <==>
            forall p :: p in allows && IsPrivate(p) ==>
              exists e :: e in except && (PrefixContains(e, p) || PrefixContains(p, e))
    ensures r.Ok? ==> r.value == BlocksOf(allows, except)
    ensures r.Ok? ==> forall a: Addr :: Opened(r.value, a) <==> InAny(allows, a) && !InAny(except, a)
    ensures r.Ok? ==> forall b, e :: b in r.value && e in b.except ==>
              && b.cidr in allows && e in except && e.bits > b.cidr.bits
              && forall a: Addr :: Contains(e, a) ==> Contains(b.cidr, a)
    ensures r.Err? ==>
              && r.error in allows && IsPrivate(r.error)
              && forall e :: e in except ==> !PrefixContains(e, r.error) && !PrefixContains(r.error, e)
  {
    r := BlocksLoop(allows, except);
    UnguardedMeans(except);
    hide Unguarded, Covered, Subtracts, IsPrivate, Contains, PrefixContains, BlocksOf, Inside, Opened, InAny;
    if r.Ok? {
      forall a: Addr {
        OpensExactly(allows, except, a);
      }
      forall b, e | b in r.value && e in b.except
        ensures b.cidr in allows && e in except && e.bits > b.cidr.bits
        ensures forall a: Addr :: Contains(e, a) ==> Contains(b.cidr, a)
      {
        BlocksOfMembers(allows, except);
        InsideMembers(b.cidr, except);
        ExceptsStrictlyInside(allows, except, b, e);
      }
    }
  }

  lemma UnguardedMeans(except: seq<Prefix>)
    ensures forall p :: Unguarded(p, except) <==>
              IsPrivate(p) && forall e :: e in except ==> !PrefixContains(e, p) && !PrefixContains(p, e)
  {
    hide IsPrivate, PrefixContains;
  }

  // ---------- Parse ----------

  datatype ParseError =
    | NotAPrefix(field: string)
    | NotUsable(field: string)
    | TooWide(field: string)
    | ListedTwice(field: string)
    | TooMany

  predicate Usable(p: Prefix) { !IsMulticast(p.addr) && p.addr.value != 0 }

  predicate NarrowEnough(p: Prefix) { p.bits >= if p.addr.family.V6? then 32 else 8 }

  /** The non-empty, trimmed fields of the comma-separated list. */
  function Fields(raw: seq<string>): seq<string> {
    if raw == [] then []
    else
      var n := |raw| - 1;
      var field := TrimSpace(raw[n]);
      Fields(raw[..n]) + (if field == "" then [] else [field])
  }

  predicate Good(parsePrefix: string -> Option<Prefix>, field: string) {
    var p := parsePrefix(field);
    p.Some? && Usable(p.value) && NarrowEnough(p.value)
  }

  predicate Parsed(parsePrefix: string -> Option<Prefix>, fields: seq<string>, out: seq<Prefix>) {
    && |out| == |fields|
    && forall i :: 0 <= i < |fields| ==> Good(parsePrefix, fields[i]) && parsePrefix(fields[i]) == Some(out[i])
  }

  /** The lists of fields that `Parse` accepts. */
  predicate Acceptable(parsePrefix: string -> Option<Prefix>, fields: seq<string>) {
    && (forall i :: 0 <= i < |fields| ==> Good(parsePrefix, fields[i]))
    && (forall i, j :: 0 <= i < j < |fields| ==> parsePrefix(fields[i]) != parsePrefix(fields[j]))
    && |fields| <= MAX_PREFIXES
  }

  method ParseLoop(raw: string, parsePrefix: string -> Option<Prefix>) returns (r: Result<seq<Prefix>, ParseError>)
    ensures r.Ok? <==> Acceptable(parsePrefix, Fields(Split(raw, ',')))
    ensures r.Ok? ==> Parsed(parsePrefix, Fields(Split(raw, ',')), r.value)
    ensures match r
            case Err(NotAPrefix(f)) => parsePrefix(f) == None
            case Err(NotUsable(f)) => parsePrefix(f).Some? && !Usable(parsePrefix(f).value)
            case Err(TooWide(f)) => parsePrefix(f).Some? && Usable(parsePrefix(f).value) && !NarrowEnough(parsePrefix(f).value)
            case Err(ListedTwice(f)) => Good(parsePrefix, f)
            case _ => true
  {
    hide IsMulticast, TrimSpace, Split, Fields;
    var parts := Split(raw, ',');
    NoFields();
    ghost var fields := Fields(parts);
    ghost var done: seq<string> := [];
    var out: seq<Prefix> := [];
    var seen: set<Prefix> := {};
    for i := 0 to |parts|
      invariant done == Fields(parts[..i])
      invariant |out| <= MAX_PREFIXES && seen == Elements(out) && Distinct(out)
      invariant Parsed(parsePrefix, done, out)
    {
      FieldsSnoc(parts, i);
      FieldsPrefix(parts, i + 1);
      var field := TrimSpace(parts[i]);
      if field == "" {
        continue;
      }
      done := done + [field];
      ghost var n := |out|;
      assert done <= fields && fields[n] == field;
      var parsed := parsePrefix(field);
      if parsed.None? {
        assert !Good(parsePrefix, fields[n]);
        return Err(NotAPrefix(field));
      }
      var prefix := parsed.value;
      if !Usable(prefix) {
        assert !Good(parsePrefix, fields[n]);
        return Err(NotUsable(field));
      }
      if !NarrowEnough(prefix) {
        assert !Good(parsePrefix, fields[n]);
        return Err(TooWide(field));
      }
      if prefix in seen {
        ghost var k :| 0 <= k < |out| && out[k] == prefix;
        assert parsePrefix(done[k]) == parsePrefix(fields[n]) && fields[k] == done[k];
        return Err(ListedTwice(field));
      }
      seen := seen + {prefix};
      out := out + [prefix];
      if |out| > MAX_PREFIXES {
        return Err(TooMany);
      }
    }
    assert parts[..|parts|] == parts;
    r := Ok(out);
  }

  /** `parsePrefix` stands for `netip.ParsePrefix`. A list is accepted when it names at most 16
      prefixes, no two the same as written, each a usable destination of at least 8 bits, or 32
      bits for IPv6. The result keeps their order. */
  method Parse(raw: string, parsePrefix: string -> Option<Prefix>) returns (r: Result<seq<Prefix>, ParseError>)
    ensures var fields := Fields(Split(raw, ','));
            r.Ok? <==>
            && |fields| <= 16
            && (forall i :: 0 <= i < |fields| ==>
                  && parsePrefix(fields[i]).Some?
                  && var p := parsePrefix(fields[i]).value;
                     !IsMulticast(p.addr) && p.addr.value != 0 && p.bits >= (if p.addr.family == V4 then 8 else 32))
            && (forall i, j :: 0 <= i < j < |fields| ==> parsePrefix(fields[i]) != parsePrefix(fields[j]))
    ensures r.Ok? ==> Parsed(parsePrefix, Fields(Split(raw, ',')), r.value)
    ensures r.Ok? ==>
              var fields := Fields(Split(raw, ','));
              |r.value| == |fields| && forall i :: 0 <= i < |fields| ==> parsePrefix(fields[i]) == Some(r.value[i])
    ensures match r
            case Err(NotAPrefix(f)) => parsePrefix(f) == None
            case Err(NotUsable(f)) =>
              parsePrefix(f).Some? && (IsMulticast(parsePrefix(f).value.addr) || parsePrefix(f).value.addr.value == 0)
            case Err(TooWide(f)) => parsePrefix(f).Some? && parsePrefix(f).value.bits < 32
            case Err(ListedTwice(f)) => parsePrefix(f).Some?
            case _ => true
  {
    r := ParseLoop(raw, parsePrefix);
    hide IsMulticast, Split, Fields;
  }

  /** The fields are the trimmed pieces that are not blank, in their order. */
  lemma {:induction false} FieldsConcat(a: seq<string>, b: seq<string>)
    ensures Fields(a + b) == Fields(a) + Fields(b)
  {
    NoFields();
    hide Fields, TrimSpace;
    if b == [] {
      assert a + b == a;
    } else {
      var n := |b| - 1;
      FieldsConcat(a, b[..n]);
      FieldsLast(b);
      FieldsLast(a + b);
      assert (a + b)[..|a| + n] == a + b[..n];
    }
  }

  lemma FieldsLast(parts: seq<string>)
    requires parts != []
    ensures var n := |parts| - 1;
            var field := TrimSpace(parts[n]);
            Fields(parts) == Fields(parts[..n]) + (if field == "" then [] else [field])
  {
    hide TrimSpace;
  }

  lemma FieldsOfOne(piece: string)
    ensures Fields([piece]) == if TrimSpace(piece) == "" then [] else [TrimSpace(piece)]
  {
    hide TrimSpace;
    assert [piece][..0] == [];
  }

  lemma NoFields()
    ensures Fields([]) == []
  {
  }

  lemma FieldsSnoc(parts: seq<string>, i: nat)
    requires i < |parts|
    ensures var field := TrimSpace(parts[i]);
            Fields(parts[..i + 1]) == Fields(parts[..i]) + (if field == "" then [] else [field])
  {
    hide TrimSpace;
    assert parts[..i + 1][..i] == parts[..i];
  }

  lemma {:induction false} FieldsPrefix(parts: seq<string>, n: nat)
    requires n <= |parts|
    ensures Fields(parts[..n]) <= Fields(parts)
    decreases |parts|
  {
    if n == |parts| {
      assert parts[..n] == parts;
    } else {
      var m := |parts| - 1;
      FieldsPrefix(parts[..m], n);
      assert parts[..m][..n] == parts[..n];
    }
  }
}
