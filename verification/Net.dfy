/** Addresses and prefixes as a family and a bit string. */
module Net {

  datatype Family = IPv4 | IPv6

  datatype Addr = Addr(family: Family, bits: seq<bool>)

  function Width(family: Family): nat {
    match family
    case IPv4 => 32
    case IPv6 => 128
  }

  predicate Whole(a: Addr) {
    |a.bits| == Width(a.family)
  }

  /** An address and how many of its leading bits count. */
  datatype Prefix = Prefix(addr: Addr, bits: nat)

  function Zeros(n: nat): seq<bool> {
    seq(n, _ => false)
  }

  /** The 16-byte form both families share, an IPv4 address mapped into it. */
  function As16(a: Addr): seq<bool> {
    match a.family
    case IPv4 => Zeros(80) + seq(16, _ => true) + a.bits
    case IPv6 => a.bits
  }

  /** The prefix with the bits that do not count cleared. */
  function Masked(p: Prefix): Prefix
    requires p.bits <= |p.addr.bits|
  {
    p.(addr := p.addr.(bits := p.addr.bits[..p.bits] + Zeros(|p.addr.bits| - p.bits)))
  }

  /** A prefix in the one spelling its map keys take. */
  predicate Proper(p: Prefix) {
    Whole(p.addr) && p.bits <= Width(p.addr.family) && p == Masked(p)
  }

  predicate Covers(p: Prefix, a: Addr) {
    && p.addr.family == a.family
    && p.bits <= |p.addr.bits| && p.bits <= |a.bits|
    && p.addr.bits[..p.bits] == a.bits[..p.bits]
  }

  /** Rounding an address to a prefix's length finds that prefix exactly when it
      covers the address. */
  lemma RoundingFinds(p: Prefix, a: Addr)
    requires Proper(p) && Whole(a) && a.family == p.addr.family
    ensures Masked(Prefix(a, p.bits)) == p <==> Covers(p, a)
  {
    var rounded := Masked(Prefix(a, p.bits));
    assert rounded.addr.bits[..p.bits] == a.bits[..p.bits];
  }

  /** Prefixes of one length that cover one address are the same prefix. */
  lemma CoversByLength(p: Prefix, q: Prefix, a: Addr)
    requires Proper(p) && Proper(q) && Whole(a) && p.bits == q.bits && Covers(p, a) && Covers(q, a)
    ensures p == q
  {
    RoundingFinds(p, a);
    RoundingFinds(q, a);
  }
}
