/** Internet addresses and prefixes. */
module Net {
  /** An address without a zone. */
  datatype Addr = V4(bits: nat) | V6(bits: nat)

  datatype Prefix = Prefix(addr: Addr, len: nat)

  function Pow2(n: nat): (p: nat)
    ensures 0 < p
  {
    if n == 0 then 1 else 2 * Pow2(n - 1)
  }

  function Width(a: Addr): nat {
    if a.V4? then 32 else 128
  }

  /** The number of addresses in a prefix. */
  function Span(p: Prefix): (n: nat)
    ensures 0 < n
  {
    if p.len <= Width(p.addr) then Pow2(Width(p.addr) - p.len) else 1
  }

  /** An IPv4 address written as an IPv6 one, in ::ffff:0:0/96. */
  predicate Mapped(a: Addr) {
    a.V6? && a.bits / 0x1_0000_0000 == 0xffff
  }

  function Unmap(a: Addr): Addr {
    if Mapped(a) then V4(a.bits % 0x1_0000_0000) else a
  }

  function WithBits(a: Addr, bits: nat): Addr {
    if a.V4? then V4(bits) else V6(bits)
  }

  function Times(q: nat, n: nat): nat {
    q * n
  }

  /** The bits that stand for the prefix among those of an address. */
  function Leading(bits: nat, n: nat): nat
    requires 0 < n
  {
    bits / n
  }

  /** The bits after the prefix cleared. */
  function Masked(p: Prefix): Prefix {
    Prefix(WithBits(p.addr, Times(Leading(p.addr.bits, Span(p)), Span(p))), p.len)
  }

  /** A prefix holds the addresses of its family that agree with it on its first bits. */
  predicate Holds(p: Prefix, a: Addr) {
    p.addr.V4? == a.V4? && p.len <= Width(a) && Leading(a.bits, Span(p)) == Leading(p.addr.bits, Span(p))
  }

  lemma MulDiv(q: nat, n: nat)
    requires 0 < n
    ensures Leading(Times(q, n), n) == q
  {
    var m := Times(q, n);
    var d := m / n;
    assert m == d * n + m % n && 0 <= m % n < n;
    if d < q {
      Apart(q, d, n);
    } else if q < d {
      Apart(d, q, n);
    }
  }

  lemma Apart(a: nat, b: nat, n: nat)
    requires b < a && 0 < n
    ensures a * n >= b * n + n
  {
    assert a * n == (a - b - 1) * n + b * n + n;
  }

  /** Masking keeps what a prefix holds, and is done once and for all. */
  lemma MaskedHolds(p: Prefix, a: Addr)
    ensures Holds(Masked(p), a) == Holds(p, a)
    ensures Masked(Masked(p)) == Masked(p)
  {
    hide Pow2;
    MulDiv(Leading(p.addr.bits, Span(p)), Span(p));
    hide Times, Leading;
    assert Span(Masked(p)) == Span(p);
  }

  /** Two masked prefixes of one length that share an address are the same. */
  lemma SharedAddress(p: Prefix, q: Prefix, a: Addr)
    requires p == Masked(p) && q == Masked(q) && p.len == q.len
    requires Holds(p, a) && Holds(q, a)
    ensures p == q
  {
  }
}
