/** Which allow prefixes of an egress policy open private space: `Blocks` asks for an exception
    when the base address of an allow is private (pkg/egresscidrs/cidrs.go 78-80, 90-93). */
module EgressPrivate {
  import opened EgressCidrs

  predicate PrivateAddress(a: Addr) {
    IsPrivateAddr(a) || IsLoopback(a) || IsLinkLocalUnicast(a) || IsLinkLocalMulticast(a)
  }

  /** The addresses of a family whose first bits are `top`. */
  datatype Range = Range(family: Family, bits: nat, top: nat)

  predicate InRange(r: Range, a: Addr) {
    a.family == r.family && r.bits <= Width(a.family) && TopBits(a, r.bits) == r.top
  }

  predicate PrivateV4(bits: nat, top: nat) {
    || (bits == 8 && (top == 10 || top == 127))
    || (bits == 12 && top == 0xac1)
    || (bits == 16 && (top == 0xc0a8 || top == 0xa9fe))
    || (bits == 24 && top == 0xe00000)
  }

  predicate PrivateV6(bits: nat, top: nat) {
    || (bits == 7 && top == 0x7e)
    || (bits == 128 && top == 1)
    || (bits == 10 && top == 0x3fa)
    || (bits == 16 && 0xff00 <= top < 0x10000 && top % 16 == 2)
  }

  /** The private ranges of both families, IPv4-mapped ones included. */
  predicate PrivateRange(r: Range) {
    match r.family
    case V4 => PrivateV4(r.bits, r.top)
    case V6 =>
      || PrivateV6(r.bits, r.top)
      || (96 <= r.bits <= 128 && r.top >= 0xffff * Pow2(r.bits - 96)
          && PrivateV4(r.bits - 96, r.top - 0xffff * Pow2(r.bits - 96)))
  }

  // ---------- Arithmetic of prefixes ----------

  lemma {:induction false} ShiftSmall(v: nat, k: nat)
    requires v < Pow2(k)
    ensures Shift(v, k) == 0
  {
    if k > 0 {
      ShiftSmall(v / 2, k - 1);
    }
  }

  lemma {:induction false} ShiftUp(t: nat, k: nat)
    ensures Shift(t * Pow2(k), k) == t
  {
    if k > 0 {
      assert t * Pow2(k) == 2 * (t * Pow2(k - 1));
      ShiftUp(t, k - 1);
    }
  }

  lemma {:induction false} Pow2Sum(j: nat, k: nat)
    ensures Pow2(j + k) == Pow2(j) * Pow2(k)
  {
    if j > 0 {
      Pow2Sum(j - 1, k);
    }
  }

  lemma HalfMod(v: nat, m: nat)
    requires m > 0
    ensures (v % (2 * m)) / 2 == (v / 2) % m && (v % (2 * m)) % 2 == v % 2
  {
    var q, r := v / (2 * m), v % (2 * m);
    assert v == 2 * (m * q) + r;
    assert v / 2 == m * q + r / 2 && r / 2 < m;
    ModOf(m, q, r / 2);
  }

  lemma AtLeastOnce(m: int, k: int)
    requires m > 0 && k >= 1
    ensures m * k >= m
  {
  }

  lemma Distribute(m: int, a: int, b: int)
    ensures m * (a - b) == m * a - m * b
  {
  }

  lemma SameDivision(m: int, s: int, t: int, q: int, r: int)
    requires 0 <= t < m && 0 <= r < m && m * s + t == m * q + r
    ensures s == q && t == r
  {
    Distribute(m, s, q);
    Distribute(m, q, s);
    if s > q {
      AtLeastOnce(m, s - q);
    } else if s < q {
      AtLeastOnce(m, q - s);
    }
  }

  lemma DivMod(x: nat, m: nat)
    requires m > 0
    ensures m * (x / m) + x % m == x && x % m < m
  {
  }

  lemma ModOf(m: nat, q: nat, r: nat)
    requires r < m
    ensures (m * q + r) % m == r
  {
    var x := m * q + r;
    DivMod(x, m);
    SameDivision(m, x / m, x % m, q, r);
  }

  /** The bits of v above k are those above j, followed by those of its last j bits above k. */
  lemma {:induction false} ShiftMod(v: nat, j: nat, k: nat)
    requires k <= j
    ensures Shift(v, k) == Shift(v, j) * Pow2(j - k) + Shift(v % Pow2(j), k)
  {
    if k > 0 {
      HalfMod(v, Pow2(j - 1));
      ShiftMod(v / 2, j - 1, k - 1);
    } else {
      ShiftDiv(v, j);
    }
  }

  lemma {:induction false} ShiftDiv(v: nat, j: nat)
    ensures v == Shift(v, j) * Pow2(j) + v % Pow2(j)
  {
    if j > 0 {
      ShiftDiv(v / 2, j - 1);
      Recompose(v, Shift(v / 2, j - 1), Pow2(j - 1));
    }
  }

  lemma Recompose(v: nat, q: nat, m: nat)
    requires m > 0 && v / 2 == q * m + (v / 2) % m
    ensures v == q * (2 * m) + v % (2 * m)
  {
    HalfMod(v, m);
    var r, h := v % (2 * m), (v / 2) % m;
    assert r == 2 * h + v % 2;
    assert v == 2 * (q * m + h) + v % 2;
    assert q * (2 * m) == 2 * (q * m);
  }

  /** The first n bits of an address, as a range of numbers. */
  lemma TopBitsMeans(a: Addr, n: nat, top: nat)
    requires n <= Width(a.family)
    ensures var size := Pow2((if a.family == V4 then 32 else 128) - n);
            TopBits(a, n) == top <==> top * size <= a.value < (top + 1) * size
  {
    var k := Width(a.family) - n;
    ShiftDiv(a.value, k);
    QuotientMeans(Pow2(k), Shift(a.value, k), a.value % Pow2(k), top);
  }

  lemma QuotientMeans(m: nat, s: nat, r: nat, top: nat)
    requires r < m
    ensures s == top <==> top * m <= s * m + r < (top + 1) * m
  {
    Distribute(m, top + 1, 1);
    if s < top {
      Distribute(m, top, s);
      AtLeastOnce(m, top - s);
    } else if s > top {
      Distribute(m, s, top);
      AtLeastOnce(m, s - top);
    }
  }

  /** A prefix holds the addresses of its family from its base, host bits cleared, on. */
  lemma ContainsMeans(p: Prefix, a: Addr)
    ensures var size := Pow2((if p.addr.family == V4 then 32 else 128) - p.bits);
            var base := p.addr.value - p.addr.value % size;
            Contains(p, a) <==> p.addr.family == a.family && base <= a.value < base + size
  {
    var k := Width(p.addr.family) - p.bits;
    var top := TopBits(p.addr, p.bits);
    ShiftDiv(p.addr.value, k);
    if a.family == p.addr.family {
      TopBitsMeans(a, p.bits, top);
    }
    assert Contains(p, a) <==> p.addr.family == a.family && TopBits(a, p.bits) == top;
    hide *;
    NextMultiple(top, Pow2(k));
  }

  lemma NextMultiple(top: nat, m: nat)
    ensures (top + 1) * m == top * m + m
  {
  }

  /** 224.0.0.0/4, ff00::/8, and ::ffff:224.0.0.0/100. */
  lemma MulticastMeans(a: Addr)
    ensures a.family == V4 ==> (IsMulticast(a) <==> 0xe0000000 <= a.value <= 0xefffffff)
    ensures a.family == V6 ==>
              (IsMulticast(a) <==> 0xff * Pow2(120) <= a.value || 0xffff_e0000000 <= a.value <= 0xffff_efffffff)
  {
    if a.family == V4 {
      ClassD(a);
    } else {
      var u := Unmap(a);
      ClassD(u);
      assert IsMulticast(a) == if Is4In6(a) then TopBits(u, 4) == 0xe else TopBits(a, 8) == 0xff;
      assert Is4In6(a) ==> u == RawAddr.Addr(V4, a.value % Pow2(32));
      InMappedBlock(a);
      hide *;
    }
  }

  lemma InMappedBlock(a: Addr)
    requires a.family == V6
    ensures TopBits(a, 8) == 0xff <==> 0xff * Pow2(120) <= a.value
    ensures Is4In6(a) <==> 0xffff_00000000 <= a.value < 0x1_0000_00000000
    ensures Is4In6(a) ==> TopBits(a, 8) != 0xff
    ensures Is4In6(a) ==>
              (0xe0000000 <= a.value % Pow2(32) <= 0xefffffff <==> 0xffff_e0000000 <= a.value <= 0xffff_efffffff)
  {
    MulticastSizes();
    TopBitsMeans(a, 8, 0xff);
    TopBitsMeans(a, 96, 0xffff);
    assert Is4In6(a) == (TopBits(a, 96) == 0xffff);
    hide *;
    MappedClassD(a.value, Pow2(120));
  }

  lemma ClassD(a: Addr)
    ensures a.family == V4 ==> (TopBits(a, 4) == 0xe <==> 0xe0000000 <= a.value <= 0xefffffff)
  {
    MulticastSizes();
    if a.family == V4 {
      TopBitsMeans(a, 4, 0xe);
    }
  }

  lemma MappedClassD(v: nat, high: nat)
    requires high >= 0x1_0000_00000000
    ensures 0xffff_00000000 <= v < 0x1_0000_00000000 ==> v < 0xff * high
    ensures 0xffff_00000000 <= v < 0x1_0000_00000000 ==>
              (0xe0000000 <= v % 0x1_00000000 <= 0xefffffff <==> 0xffff_e0000000 <= v <= 0xffff_efffffff)
  {
    if 0xffff_00000000 <= v < 0x1_0000_00000000 {
      assert v == 0x1_00000000 * 0xffff + (v - 0xffff_00000000);
      ModOf(0x1_00000000, 0xffff, v - 0xffff_00000000);
    }
  }

  lemma MulticastSizes()
    ensures Pow2(28) == 0x10000000 && Pow2(32) == 0x1_00000000 && Pow2(120) >= 0x1_0000_00000000 && Pow2(128) == 0x100 * Pow2(120)
  {
    Pow2Values();
    assert Pow2(4) == 16;
    Pow2Sum(4, 24);
    Pow2Sum(16, 16);
    Pow2Sum(16, 32);
    Pow2Sum(48, 72);
    Pow2Sum(8, 120);
    hide Pow2;
  }

  // ---------- Private addresses are the private ranges ----------

  lemma MappedTop(a: Addr, n: nat)
    requires Is4In6(a) && n <= 32
    ensures TopBits(a, 96 + n) == 0xffff * Pow2(n) + TopBits(Unmap(a), n)
  {
    hide Shift, Pow2;
    ShiftMod(a.value, 32, 32 - n);
  }

  lemma ShiftOfSum(q: nat, n: nat, low: nat)
    requires low < Pow2(n)
    ensures Shift(q * Pow2(n) + low, n) == q
  {
    var v := q * Pow2(n) + low;
    ShiftDiv(v, n);
    var m, s, t := Pow2(n), Shift(v, n), v % Pow2(n);
    hide *;
    assert m * s + t == m * q + low;
    SameDivision(m, s, t, q, low);
  }

  /** An IPv6 address in an IPv4-mapped range is an IPv4-mapped address. */
  lemma MappedRange(a: Addr, n: nat, low: nat)
    requires a.family == V6 && n <= 32 && low < Pow2(n) && TopBits(a, 96 + n) == 0xffff * Pow2(n) + low
    ensures Is4In6(a)
  {
    hide Shift, Pow2;
    TopBitsNested(a, 96, 96 + n);
    ShiftOfSum(0xffff, n, low);
  }

  predicate PrivateUnmapped(a: Addr) {
    match a.family
    case V4 => PrivateV4(8, TopBits(a, 8)) || PrivateV4(12, TopBits(a, 12)) || PrivateV4(16, TopBits(a, 16)) || PrivateV4(24, TopBits(a, 24))
    case V6 => TopBits(a, 7) == 0x7e || a.value == 1 || TopBits(a, 10) == 0x3fa
               || (TopBits(a, 8) == 0xff && TopBits(a, 16) % 16 == 2)
  }

  lemma PrivateByUnmap(a: Addr)
    ensures PrivateAddress(a) <==> PrivateUnmapped(Unmap(a))
  {
    hide TopBits, Unmap, Pow2;
  }

  lemma PrivateV4Ranges(a: Addr)
    requires a.family == V4
    ensures PrivateUnmapped(a) <==> exists r :: PrivateRange(r) && InRange(r, a)
  {
    hide TopBits;
    if PrivateUnmapped(a) {
      var n: nat := if PrivateV4(8, TopBits(a, 8)) then 8 else if PrivateV4(12, TopBits(a, 12)) then 12
                    else if PrivateV4(16, TopBits(a, 16)) then 16 else 24;
      assert PrivateV4(n, TopBits(a, n));
      assert PrivateRange(Range(V4, n, TopBits(a, n))) && InRange(Range(V4, n, TopBits(a, n)), a);
    }
    if r :| PrivateRange(r) && InRange(r, a) {
      assert PrivateV4(r.bits, TopBits(a, r.bits));
      assert r.bits == 8 || r.bits == 12 || r.bits == 16 || r.bits == 24;
    }
  }

  lemma PrivateV6Ranges(a: Addr)
    requires a.family == V6
    ensures PrivateUnmapped(a) <==> exists n: nat :: n <= 128 && PrivateV6(n, TopBits(a, n))
  {
    TopBitsNested(a, 8, 16);
    var t := TopBits(a, 16);
    assert Shift(t, 8) == t / 256 by { ShiftByte(t); }
    assert TopBits(a, 128) == a.value;
    hide TopBits, Shift;
    if PrivateUnmapped(a) {
      assert PrivateV6(7, TopBits(a, 7)) || PrivateV6(128, TopBits(a, 128)) || PrivateV6(10, TopBits(a, 10)) || PrivateV6(16, TopBits(a, 16));
    }
  }

  lemma ShiftNibble(v: nat)
    ensures Shift(v, 4) == v / 16
  {
    assert Shift(v, 4) == Shift(v / 2, 3) == Shift(v / 4, 2) == Shift(v / 8, 1) == v / 16;
  }

  lemma ShiftByte(v: nat)
    ensures Shift(v, 8) == v / 256
  {
    hide Shift;
    ShiftTwice(v, 4, 4);
    ShiftNibble(v);
    ShiftNibble(v / 16);
  }

  lemma Pow2Values()
    ensures Pow2(7) == 0x80 && Pow2(8) == 0x100 && Pow2(10) == 0x400 && Pow2(12) == 0x1000
    ensures Pow2(16) == 0x10000 && Pow2(24) == 0x1000000
  {
    assert Pow2(4) == 16 && Pow2(8) == 256;
    Pow2Sum(4, 8);
    Pow2Sum(8, 8);
    Pow2Sum(8, 16);
  }

  lemma PrivateV4Fits(bits: nat, top: nat)
    requires PrivateV4(bits, top)
    ensures bits <= 32 && top < Pow2(bits)
  {
    Pow2Values();
  }

  lemma PrivateV6Fits(bits: nat, top: nat)
    requires PrivateV6(bits, top)
    ensures bits <= 128 && top < Pow2(bits)
  {
    Pow2Values();
    Pow2Sum(7, 121);
    assert Pow2(128) >= 2;
  }

  lemma MappedIsLow(a: Addr, n: nat)
    requires Is4In6(a) && n <= 80
    ensures TopBits(a, n) == 0
  {
    TopBitsNested(a, n, 96);
    Pow2Values();
    Pow2Sum(16, 80 - n);
    AtLeastOnce(Pow2(16), Pow2(80 - n));
    ShiftSmall(0xffff, 96 - n);
  }

  lemma MappedIsNotNative(a: Addr, n: nat)
    requires Is4In6(a) && n <= 128
    ensures !PrivateV6(n, TopBits(a, n))
  {
    if n <= 80 {
      MappedIsLow(a, n);
    } else {
      assert TopBits(a, 128) == a.value;
      Pow2Values();
      Pow2Sum(16, 16);
      assert a.value == 1 ==> a.value < Pow2(32);
      if a.value < Pow2(32) {
        ShiftSmall(a.value, 32);
      }
      hide TopBits, Shift, Pow2;
    }
  }

  /** An IPv4 range as a range of IPv4-mapped addresses. */
  function Mapped(n: nat, low: nat): Range { Range(V6, 96 + n, 0xffff * Pow2(n) + low) }

  lemma MappedIsPrivate(n: nat, low: nat)
    requires PrivateV4(n, low)
    ensures PrivateRange(Mapped(n, low)) && n <= 32
  {
    hide Pow2;
  }

  lemma InNativeRange(a: Addr, r: Range)
    requires a.family == V6 && PrivateRange(r) && InRange(r, a) && !Is4In6(a)
    ensures PrivateV6(r.bits, TopBits(a, r.bits))
  {
    if 96 <= r.bits <= 128 && r.top >= 0xffff * Pow2(r.bits - 96) && PrivateV4(r.bits - 96, r.top - 0xffff * Pow2(r.bits - 96)) {
      PrivateV4Fits(r.bits - 96, r.top - 0xffff * Pow2(r.bits - 96));
      MappedRange(a, r.bits - 96, r.top - 0xffff * Pow2(r.bits - 96));
    }
  }

  lemma InMappedRange(a: Addr, r: Range)
    requires PrivateRange(r) && InRange(r, a) && Is4In6(a)
    ensures exists n: nat :: n <= 32 && PrivateV4(n, TopBits(Unmap(a), n))
  {
    MappedIsNotNative(a, r.bits);
    var n := r.bits - 96;
    MappedTop(a, n);
    hide TopBits, Pow2, Unmap;
    assert PrivateV4(n, TopBits(Unmap(a), n));
  }

  /** The address tests of the source hold exactly of the addresses in a private range. */
  lemma PrivateIsRanges(a: Addr)
    ensures PrivateAddress(a) <==> exists r :: PrivateRange(r) && InRange(r, a)
  {
    PrivateByUnmap(a);
    if a.family == V4 {
      PrivateV4Ranges(a);
    } else if Is4In6(a) {
      MappedPrivate(a);
    } else {
      NativePrivate(a);
    }
  }

  lemma MappedPrivate(a: Addr)
    requires Is4In6(a)
    ensures PrivateUnmapped(Unmap(a)) <==> exists r :: PrivateRange(r) && InRange(r, a)
  {
    var u := Unmap(a);
    PrivateV4Ranges(u);
    hide TopBits, Unmap, PrivateUnmapped, Is4In6;
    if r :| PrivateRange(r) && InRange(r, u) {
      var n := r.bits;
      MappedTop(a, n);
      MappedIsPrivate(n, TopBits(u, n));
      assert InRange(Mapped(n, TopBits(u, n)), a);
    }
    if r :| PrivateRange(r) && InRange(r, a) {
      InMappedRange(a, r);
      var n: nat :| n <= 32 && PrivateV4(n, TopBits(u, n));
      assert PrivateRange(Range(V4, n, TopBits(u, n))) && InRange(Range(V4, n, TopBits(u, n)), u);
    }
  }

  lemma NativePrivate(a: Addr)
    requires a.family == V6 && !Is4In6(a)
    ensures PrivateUnmapped(Unmap(a)) <==> exists r :: PrivateRange(r) && InRange(r, a)
  {
    PrivateV6Ranges(a);
    hide TopBits, PrivateUnmapped, Is4In6, Pow2;
    if n: nat :| n <= 128 && PrivateV6(n, TopBits(a, n)) {
      assert PrivateRange(Range(V6, n, TopBits(a, n))) && InRange(Range(V6, n, TopBits(a, n)), a);
    }
    if r :| PrivateRange(r) && InRange(r, a) {
      InNativeRange(a, r);
    }
  }

  // ---------- Allows that open private space ----------

  /** The prefix holds the whole range. */
  predicate Encloses(p: Prefix, r: Range) {
    && p.addr.family == r.family && p.bits <= r.bits
    && Shift(r.top, r.bits - p.bits) == TopBits(p.addr, p.bits)
  }

  ghost predicate HoldsPrivate(p: Prefix) { exists a: Addr :: Contains(p, a) && PrivateAddress(a) }

  ghost predicate EnclosesPrivate(p: Prefix) { exists r :: PrivateRange(r) && Encloses(p, r) }

  lemma RangeFits(r: Range)
    requires PrivateRange(r)
    ensures r.bits <= Width(r.family) && r.top < Pow2(r.bits)
  {
    if r.family == V4 {
      PrivateV4Fits(r.bits, r.top);
    } else if PrivateV6(r.bits, r.top) {
      PrivateV6Fits(r.bits, r.top);
    } else {
      MappedFits(r.bits - 96, r.top - 0xffff * Pow2(r.bits - 96));
    }
  }

  lemma MappedFits(n: nat, low: nat)
    requires PrivateV4(n, low)
    ensures n <= 32 && 0xffff * Pow2(n) + low < Pow2(96 + n)
  {
    PrivateV4Fits(n, low);
    Pow2Values();
    hide *;
    Pow2Sum(16, n);
    Pow2Sum(80, 16 + n);
    MappedBelow(Pow2(n), Pow2(80), low);
  }

  lemma MappedBelow(m: nat, k: nat, low: nat)
    requires low < m && k >= 1
    ensures 0xffff * m + low < k * (0x10000 * m)
  {
    AtLeastOnce(0x10000 * m, k);
  }

  /** Some address starts with the given bits. */
  lemma AddressOf(family: Family, bits: nat, top: nat) returns (a: Addr)
    requires bits <= Width(family) && top < Pow2(bits)
    ensures a.family == family && TopBits(a, bits) == top
  {
    var k := Width(family) - bits;
    ShiftUp(top, k);
    Pow2Sum(bits, k);
    hide Pow2, Shift;
    Below(top, Pow2(bits), Pow2(k));
    a := RawAddr.Addr(family, top * Pow2(k));
  }

  /** Every private range holds an address. */
  lemma RangeHoldsAddress(r: Range) returns (a: Addr)
    requires PrivateRange(r)
    ensures InRange(r, a)
  {
    hide PrivateRange, Pow2, Shift;
    RangeFits(r);
    a := AddressOf(r.family, r.bits, r.top);
  }

  lemma Below(t: nat, m: nat, k: nat)
    requires t < m && k > 0
    ensures t * k < m * k
  {
  }

  /** A prefix holds a private address exactly when its base address is private or it encloses
      a private range. */
  lemma HoldsPrivateIff(p: Prefix)
    ensures HoldsPrivate(p) <==> IsPrivate(p) || EnclosesPrivate(p)
  {
    hide PrivateRange, IsPrivateAddr, IsLoopback, IsLinkLocalUnicast, IsLinkLocalMulticast, Shift;
    assert Contains(p, p.addr) && (IsPrivate(p) <==> PrivateAddress(p.addr));
    if r :| PrivateRange(r) && Encloses(p, r) {
      var a := RangeHoldsAddress(r);
      TopBitsNested(a, p.bits, r.bits);
      PrivateIsRanges(a);
      assert Contains(p, a) && PrivateAddress(a);
    }
    if a: Addr :| Contains(p, a) && PrivateAddress(a) {
      PrivateIsRanges(a);
      var r :| PrivateRange(r) && InRange(r, a);
      if p.bits <= r.bits {
        TopBitsNested(a, p.bits, r.bits);
        assert Encloses(p, r);
      } else {
        TopBitsNested(a, r.bits, p.bits);
        TopBitsNested(p.addr, r.bits, p.bits);
        assert InRange(r, p.addr);
        PrivateIsRanges(p.addr);
      }
    }
  }

  /** An allow that passes without any exception of its own opens private addresses exactly when
      it encloses a private range: the source tests the base address alone. */
  lemma OpensPrivateIff(p: Prefix, except: seq<Prefix>)
    requires !Unguarded(p, except) && !Covered(p, except) && !Subtracts(p, except)
    ensures (exists a: Addr :: PrivateAddress(a) && Opened([Block(p, [])], a)) <==> EnclosesPrivate(p)
  {
    HoldsPrivateIff(p);
    var blocks := [Block(p, [])];
    hide PrivateAddress, EnclosesPrivate, IsPrivate, Contains;
    forall a: Addr ensures Opened(blocks, a) <==> Contains(p, a) {
      assert blocks[0] == Block(p, []) && blocks[0] in blocks;
    }
  }

  /** 172.0.0.0/8 passes with no exception at all and opens 172.16.0.1. */
  lemma ShortPrefixPasses(p: Prefix, a: Addr)
    requires p.addr.family == V4 && p.addr.value == 0xac000000 && p.bits == 8
    requires a.family == V4 && a.value == 0xac100001
    ensures !Unguarded(p, []) && Opened(BlocksOf([p], []), a) && PrivateAddress(a)
  {
    ShortPrefixBits();
    assert TopBits(p.addr, 8) == 0xac && TopBits(a, 8) == 0xac && TopBits(a, 12) == 0xac1;
    assert TopBits(p.addr, 12) == 0xac0 && TopBits(p.addr, 16) == 0xac00 && TopBits(p.addr, 24) == 0xac0000;
    hide TopBits, Shift, Pow2;
    OpensExactly([p], [], a);
    assert p in [p] && Contains(p, a);
  }

  lemma ShiftByteOff(v: nat, k: nat)
    requires k >= 8
    ensures Shift(v, k) == Shift(v / 256, k - 8)
  {
    ShiftTwice(v, 8, k - 8);
    ShiftByte(v);
  }

  lemma ShortPrefixBits()
    ensures Shift(0xac000000, 24) == 0xac && Shift(0xac100001, 24) == 0xac && Shift(0xac100001, 20) == 0xac1
    ensures Shift(0xac000000, 20) == 0xac0 && Shift(0xac000000, 16) == 0xac00 && Shift(0xac000000, 8) == 0xac0000
  {
    hide Shift;
    ShiftByteOff(0xac000000, 24);
    ShiftByteOff(0xac0000, 16);
    ShiftByte(0xac00);
    ShiftByteOff(0xac100001, 24);
    ShiftByteOff(0xac1000, 16);
    ShiftByte(0xac10);
    ShiftByteOff(0xac100001, 20);
    ShiftByteOff(0xac1000, 12);
    ShiftNibble(0xac10);
    ShiftByteOff(0xac000000, 20);
    ShiftByteOff(0xac0000, 12);
    ShiftNibble(0xac00);
    ShiftByteOff(0xac000000, 16);
    ShiftByte(0xac0000);
    ShiftByte(0xac000000);
  }
}
