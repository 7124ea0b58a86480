/**
 Addresses bit by bit. Which addresses a prefix holds, and what masking clears, is said here in terms of
 the bits that halving an address lays bare, and found to be what the arithmetic of `Net` computes.
 */
module Bits {
  import opened Net

  /** `n` halved `k` times. */
  function Halved(n: nat, k: nat): nat {
    if k == 0 then n else Halved(n / 2, k - 1)
  }

  /** The `i`-th bit of an address, the most significant first. */
  predicate Bit(a: Addr, i: nat)
    requires i < Width(a)
  {
    Halved(a.bits, Width(a) - 1 - i) % 2 == 1
  }

  /** An address of 32 bits, or of 128. */
  predicate Fits(a: Addr) {
    Halved(a.bits, Width(a)) == 0
  }

  predicate SameFamily(a: Addr, b: Addr) {
    a.V4? == b.V4?
  }

  /** The first `n` bits of two addresses of one family agree. */
  ghost predicate AgreeOn(a: Addr, b: Addr, n: nat)
    requires SameFamily(a, b) && n <= Width(a)
  {
    forall i: nat :: i < n ==> Bit(a, i) == Bit(b, i)
  }

  // ---------- halving ----------

  lemma {:induction false} HalvedTwice(n: nat, a: nat, b: nat)
    ensures Halved(Halved(n, a), b) == Halved(n, a + b)
  {
    if a > 0 { HalvedTwice(n / 2, a - 1, b); }
  }

  lemma {:induction false} HalvedZero(k: nat)
    ensures Halved(0, k) == 0
  {
    if k > 0 { HalvedZero(k - 1); }
  }

  lemma Doubled(q: nat, d: nat)
    ensures q * (2 * d) == 2 * (q * d)
  {
  }

  /** Halving a number halves what it is a multiple of. */
  lemma HalfParts(n: nat, d: nat)
    requires 0 < d
    ensures n == Leading(n / 2, d) * (2 * d) + (2 * (n / 2 % d) + n % 2)
    ensures 2 * (n / 2 % d) + n % 2 < 2 * d
  {
    Doubled(n / 2 / d, d);
    assert n / 2 == n / 2 / d * d + n / 2 % d && n == 2 * (n / 2) + n % 2;
  }

  lemma DivTwice(n: nat, d: nat)
    requires 0 < d
    ensures Leading(n / 2, d) == Leading(n, 2 * d)
  {
    HalfParts(n, d);
    hide Leading;
    Quotient(n, Leading(n / 2, d), 2 * d, 2 * (n / 2 % d) + n % 2);
  }

  lemma Quotient(n: nat, q: nat, e: nat, s: nat)
    requires 0 < e && n == q * e + s && s < e
    ensures Leading(n, e) == q
  {
    var d := n / e;
    assert n == d * e + n % e && 0 <= n % e < e;
    if d < q { Apart(q, d, e); } else if q < d { Apart(d, q, e); }
  }

  /** Dividing by a power of two is halving. */
  lemma {:induction false} HalvedDivides(n: nat, k: nat)
    ensures Halved(n, k) == Leading(n, Pow2(k))
  {
    if k > 0 {
      HalvedDivides(n / 2, k - 1);
      DivTwice(n, Pow2(k - 1));
    }
  }

  /** A number of `n` bits is what its bits say. */
  lemma {:induction false} SameBits(x: nat, y: nat, n: nat)
    requires Halved(x, n) == 0 && Halved(y, n) == 0
    requires forall k: nat :: k < n ==> Halved(x, k) % 2 == Halved(y, k) % 2
    ensures x == y
  {
    if n > 0 {
      assert Halved(x, 0) % 2 == Halved(y, 0) % 2;
      forall k: nat | k < n - 1 ensures Halved(x / 2, k) % 2 == Halved(y / 2, k) % 2 {
        assert Halved(x, k + 1) % 2 == Halved(y, k + 1) % 2;
      }
      SameBits(x / 2, y / 2, n - 1);
    }
  }

  lemma {:induction false} HalvedTimes(q: nat, m: nat, k: nat)
    requires k <= m
    ensures Halved(Times(q, Pow2(m)), k) == Times(q, Pow2(m - k))
  {
    if k > 0 {
      HalfTimes(q, Pow2(m - 1));
      HalvedTimes(q, m - 1, k - 1);
    }
  }

  lemma HalfTimes(q: nat, n: nat)
    ensures Times(q, 2 * n) / 2 == Times(q, n) && Times(q, 2 * n) % 2 == 0
  {
    assert Times(q, 2 * n) == 2 * Times(q, n);
  }

  // ---------- prefixes ----------

  lemma SpanHalves(p: Prefix, bits: nat)
    requires p.len <= Width(p.addr)
    ensures Leading(bits, Span(p)) == Halved(bits, Width(p.addr) - p.len)
  {
    HalvedDivides(bits, Width(p.addr) - p.len);
  }

  /** The bits of the address that stand for the first `n`. */
  lemma LeadingBit(a: Addr, n: nat, i: nat)
    requires i < n <= Width(a)
    ensures Bit(a, i) == (Halved(Halved(a.bits, Width(a) - n), n - 1 - i) % 2 == 1)
  {
    HalvedTwice(a.bits, Width(a) - n, n - 1 - i);
  }

  lemma AgreementExactly(a: Addr, b: Addr, n: nat)
    requires SameFamily(a, b) && n <= Width(a) && Fits(a) && Fits(b)
    ensures AgreeOn(a, b, n) <==> Halved(a.bits, Width(a) - n) == Halved(b.bits, Width(a) - n)
  {
    var x, y := Halved(a.bits, Width(a) - n), Halved(b.bits, Width(a) - n);
    HalvedTwice(a.bits, Width(a) - n, n);
    HalvedTwice(b.bits, Width(a) - n, n);
    forall i: nat | i < n
      ensures Bit(a, i) == (Halved(x, n - 1 - i) % 2 == 1) && Bit(b, i) == (Halved(y, n - 1 - i) % 2 == 1)
    {
      LeadingBit(a, n, i);
      LeadingBit(b, n, i);
    }
    if AgreeOn(a, b, n) {
      forall k: nat | k < n ensures Halved(x, k) % 2 == Halved(y, k) % 2 {
        assert Bit(a, n - 1 - k) == Bit(b, n - 1 - k);
      }
      SameBits(x, y, n);
    }
  }

  /** A prefix holds exactly the addresses of its family whose first bits are its own. */
  lemma HoldsExactly(p: Prefix, a: Addr)
    requires p.len <= Width(p.addr) && Fits(p.addr) && Fits(a)
    ensures Holds(p, a) <==> SameFamily(p.addr, a) && AgreeOn(p.addr, a, p.len)
  {
    SpanHalves(p, a.bits);
    SpanHalves(p, p.addr.bits);
    if SameFamily(p.addr, a) { AgreementExactly(p.addr, a, p.len); }
  }

  /** Masking keeps the first bits of the prefix and clears the others. */
  lemma MaskedExactly(p: Prefix)
    requires p.len <= Width(p.addr) && Fits(p.addr)
    ensures var q := Masked(p);
      && q.len == p.len && SameFamily(q.addr, p.addr) && Fits(q.addr)
      && AgreeOn(q.addr, p.addr, p.len)
      && (forall i: nat :: p.len <= i < Width(q.addr) ==> !Bit(q.addr, i))
  {
    var q, w := Masked(p), Width(p.addr);
    var m := w - p.len;
    var x := Leading(p.addr.bits, Pow2(m));
    HalvedDivides(p.addr.bits, m);
    HalvedTimes(x, m, m);
    assert Times(x, 1) == x;
    assert Halved(q.addr.bits, m) == x == Halved(p.addr.bits, m);
    HalvedTwice(q.addr.bits, m, p.len);
    HalvedTwice(p.addr.bits, m, p.len);
    AgreementExactly(q.addr, p.addr, p.len);
    forall i: nat | p.len <= i < w ensures !Bit(q.addr, i) {
      HalvedTimes(x, m, w - 1 - i);
      HalfTimes(x, Pow2(m - (w - 1 - i) - 1));
    }
  }

  // ---------- the fixed prefixes ----------

  lemma {:induction false} PowAdd(a: nat, b: nat)
    ensures Pow2(a + b) == Times(Pow2(a), Pow2(b))
  {
    if a > 0 {
      PowAdd(a - 1, b);
      assert Times(Pow2(a), Pow2(b)) == 2 * Times(Pow2(a - 1), Pow2(b));
    }
  }

  lemma Powers()
    ensures Pow2(32) == 0x1_0000_0000
    ensures Pow2(118) == 0x40_0000_0000_0000_0000_0000_0000_0000
  {
    assert Pow2(8) == 0x100;
    PowAdd(8, 8);
    PowAdd(16, 16);
    PowAdd(32, 32);
    PowAdd(64, 32);
    PowAdd(96, 16);
    PowAdd(112, 6);
    assert Pow2(6) == 0x40;
    hide Pow2;
    assert Pow2(16) == Times(0x100, 0x100) == 0x1_0000;
    assert Pow2(32) == Times(0x1_0000, 0x1_0000) == 0x1_0000_0000;
    assert Pow2(64) == Times(0x1_0000_0000, 0x1_0000_0000) == 0x1_0000_0000_0000_0000;
    assert Pow2(96) == Times(0x1_0000_0000_0000_0000, 0x1_0000_0000) == 0x1_0000_0000_0000_0000_0000_0000;
    assert Pow2(112) == Times(0x1_0000_0000_0000_0000_0000_0000, 0x1_0000)
        == 0x1_0000_0000_0000_0000_0000_0000_0000;
    assert Pow2(118) == Times(0x1_0000_0000_0000_0000_0000_0000_0000, 0x40);
  }

  /** The link-local prefix is the addresses from fe80:: to febf:ffff:ffff:ffff:ffff:ffff:ffff:ffff. */
  lemma LinkLocalExactly(a: Addr)
    ensures Holds(Prefix(V6(0xfe80_0000_0000_0000_0000_0000_0000_0000), 10), a) <==>
      && a.V6?
      && 0xfe80_0000_0000_0000_0000_0000_0000_0000 <= a.bits <= 0xfebf_ffff_ffff_ffff_ffff_ffff_ffff_ffff
  {
    Powers();
    hide Pow2;
  }

  function Remainder(n: nat, d: nat): nat
    requires 0 < d
  {
    n % d
  }

  lemma HalfRemainder(n: nat, d: nat)
    requires 0 < d
    ensures Remainder(n, 2 * d) / 2 == Remainder(n / 2, d) && Remainder(n, 2 * d) % 2 == n % 2
  {
    var e, s := 2 * d, 2 * (n / 2 % d) + n % 2;
    HalfParts(n, d);
    Quotient(n, Leading(n / 2, d), e, s);
    assert n == n / e * e + n % e;
  }

  /** A remainder of a power of two keeps the last bits and no others. */
  lemma {:induction false} RemainderBits(n: nat, m: nat, k: nat)
    ensures k < m ==> Halved(Remainder(n, Pow2(m)), k) % 2 == Halved(n, k) % 2
    ensures Halved(Remainder(n, Pow2(m)), m) == 0
  {
    if m > 0 {
      HalfRemainder(n, Pow2(m - 1));
      RemainderBits(n / 2, m - 1, if k > 0 then k - 1 else 0);
    }
  }

  /** The mapped addresses are ::ffff:0:0/96, and unmapping one keeps its last 32 bits. */
  lemma MappedExactly(a: Addr)
    requires a.V6?
    ensures Mapped(a) <==> Holds(Prefix(V6(0xffff_0000_0000), 96), a)
    ensures Mapped(a) ==>
      Unmap(a).V4? && Fits(Unmap(a)) && forall i: nat :: i < 32 ==> Bit(Unmap(a), i) == Bit(a, 96 + i)
  {
    Powers();
    hide Pow2;
    if Mapped(a) {
      assert Unmap(a) == V4(Remainder(a.bits, Pow2(32)));
      RemainderBits(a.bits, 32, 0);
      forall i: nat | i < 32 ensures Bit(Unmap(a), i) == Bit(a, 96 + i) {
        RemainderBits(a.bits, 32, 31 - i);
      }
    }
  }
}
