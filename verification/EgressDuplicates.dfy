/** When two prefixes of an accepted list name one network: `Parse` compares them as written, and
    `netip.ParsePrefix` keeps host bits (pkg/egresscidrs/cidrs.go 21-56). */
module EgressDuplicates {
  import opened EgressCidrs
  import opened EgressPrivate
  import opened Text
  import opened Wrappers

  /** The two prefixes hold the same addresses. */
  ghost predicate SameNetwork(p: Prefix, q: Prefix) { forall a: Addr :: Contains(p, a) <==> Contains(q, a) }

  /** They agree in family, length and leading bits: what masking the host bits would compare. */
  predicate SameHead(p: Prefix, q: Prefix) {
    p.addr.family == q.addr.family && p.bits == q.bits && TopBits(p.addr, p.bits) == TopBits(q.addr, q.bits)
  }

  /** No host bit is set. */
  predicate Canonical(p: Prefix) { p.addr.value % Pow2(Width(p.addr.family) - p.bits) == 0 }

  lemma {:induction false} ShiftBelow(v: nat, j: nat, k: nat)
    requires v < Pow2(j + k)
    ensures Shift(v, k) < Pow2(j)
  {
    if k > 0 {
      assert Pow2(j + k) == 2 * Pow2(j + (k - 1));
      ShiftBelow(v / 2, j, k - 1);
    }
  }

  /** Another number of n bits that agrees in all of them but the last. */
  lemma FlipLast(s: nat, n: nat) returns (t: nat)
    requires n > 0 && s < Pow2(n)
    ensures t != s && t < Pow2(n) && t / 2 == s / 2
  {
    t := if s % 2 == 0 then s + 1 else s - 1;
    assert Pow2(n) == 2 * Pow2(n - 1);
  }

  /** A longer prefix misses some address of a shorter one. */
  lemma ShorterHoldsMore(p: Prefix, q: Prefix) returns (a: Addr)
    requires p.addr.family == q.addr.family && p.bits < q.bits
    ensures Contains(p, a) && !Contains(q, a)
  {
    var k, j := Width(q.addr.family) - q.bits, q.bits - p.bits;
    var s := TopBits(p.addr, q.bits);
    if s != TopBits(q.addr, q.bits) {
      a := p.addr;
    } else {
      ShiftBelow(p.addr.value, q.bits, k);
      var t := FlipLast(s, q.bits);
      a := AddressOf(q.addr.family, q.bits, t);
      TopBitsNested(a, p.bits, q.bits);
      TopBitsNested(p.addr, p.bits, q.bits);
      assert Shift(t, j) == Shift(t / 2, j - 1) == Shift(s / 2, j - 1) == Shift(s, j);
    }
  }

  /** Two prefixes hold the same addresses exactly when they agree in family, length and leading
      bits. */
  lemma SameNetworkIff(p: Prefix, q: Prefix)
    ensures SameNetwork(p, q) <==> SameHead(p, q)
  {
    hide TopBits, Shift;
    assert Contains(p, p.addr) && Contains(q, q.addr);
    if p.addr.family == q.addr.family && p.bits < q.bits {
      var a := ShorterHoldsMore(p, q);
    } else if p.addr.family == q.addr.family && q.bits < p.bits {
      var a := ShorterHoldsMore(q, p);
    }
  }

  /** Prefixes without host bits that name one network are equal. */
  lemma CanonicalIsUnique(p: Prefix, q: Prefix)
    requires Canonical(p) && Canonical(q)
    ensures SameNetwork(p, q) <==> p == q
  {
    SameNetworkIff(p, q);
    ShiftDiv(p.addr.value, Width(p.addr.family) - p.bits);
    ShiftDiv(q.addr.value, Width(q.addr.family) - q.bits);
    hide Shift, Pow2, SameNetwork;
  }

  /** An accepted list names some network twice exactly when two of its prefixes agree in family,
      length and leading bits, which a caller may compare; so never when no host bit is set. */
  lemma ListedTwiceIff(parsePrefix: string -> Option<Prefix>, fields: seq<string>, out: seq<Prefix>)
    requires Acceptable(parsePrefix, fields) && Parsed(parsePrefix, fields, out)
    ensures (exists i, j :: 0 <= i < j < |out| && SameNetwork(out[i], out[j]))
            <==> (exists i, j :: 0 <= i < j < |out| && SameHead(out[i], out[j]))
    ensures (forall i :: 0 <= i < |out| ==> Canonical(out[i])) ==>
              forall i, j :: 0 <= i < j < |out| ==> !SameNetwork(out[i], out[j])
  {
    hide SameNetwork, SameHead, Canonical, Good;
    forall i, j | 0 <= i < j < |out|
      ensures SameNetwork(out[i], out[j]) <==> SameHead(out[i], out[j])
      ensures Canonical(out[i]) && Canonical(out[j]) ==> !SameNetwork(out[i], out[j])
    {
      SameNetworkIff(out[i], out[j]);
      assert parsePrefix(fields[i]) == Some(out[i]) && parsePrefix(fields[j]) == Some(out[j]);
      if Canonical(out[i]) && Canonical(out[j]) {
        CanonicalIsUnique(out[i], out[j]);
      }
    }
  }

  /** 10.0.0.0/8 and 10.0.0.1/8 are accepted side by side. */
  lemma HostBitsPass(parsePrefix: string -> Option<Prefix>, f: string, g: string, p: Prefix, q: Prefix)
    requires p.addr.family == V4 && p.addr.value == 0x0a000000 && p.bits == 8 && parsePrefix(f) == Some(p)
    requires q.addr.family == V4 && q.addr.value == 0x0a000001 && q.bits == 8 && parsePrefix(g) == Some(q)
    ensures Acceptable(parsePrefix, [f, g]) && SameNetwork(p, q)
  {
    ClassTen(p.addr.value);
    ClassTen(q.addr.value);
    assert TopBits(p.addr, 8) == TopBits(q.addr, 8) == 10 && TopBits(p.addr, 4) == TopBits(q.addr, 4) == 0;
    hide Shift, TopBits;
    SameNetworkIff(p, q);
  }

  lemma ClassTen(v: nat)
    requires 0x0a000000 <= v < 0x0b000000
    ensures Shift(v, 24) == 10 && Shift(v, 28) == 0
  {
    ShiftByteOff(v, 24);
    ShiftByteOff(v / 256, 16);
    ShiftByte(v / 256 / 256);
    ShiftTwice(v, 24, 4);
    ShiftNibble(10);
    hide Shift;
  }
}
