/** IPv4 prefix arithmetic of the REST router. Addresses are 32-bit words, most significant
    bit first; their textual form is not modelled. */
module RouterPrefix {
  import opened Bits

  type Ip = w: Word | |w| == 32 witness seq(32, _ => false)

  /** `w` moved to the left within its width. */
  function ShiftLeft(w: Word, n: nat): Word
    requires n <= |w|
  {
    w[n..] + Zeros(n)
  }

  function MaskNtob(len: nat): Ip
    requires len <= 32
  {
    ShiftLeft(Ones(32), 32 - len)
  }

  function ApplyMask(ip: Ip, len: nat): Ip
    requires len <= 32
  {
    And(ip, MaskNtob(len))
  }

  // ---------------------------------------------------------------- prefixes

  /** Two addresses agree in their first `len` bits. */
  predicate SamePrefix(a: Ip, b: Ip, len: nat)
    requires len <= 32
  {
    a[..len] == b[..len]
  }

  /** A masked address has the first bits of the address and no others. */
  lemma MaskingKeepsPrefix(a: Ip, len: nat)
    requires len <= 32
    ensures ApplyMask(a, len) == a[..len] + Zeros(32 - len)
    ensures SamePrefix(ApplyMask(a, len), a, len)
  {
  }

  /** Masks find out whether addresses agree in a prefix. */
  lemma MaskComparesPrefixes(a: Ip, b: Ip, len: nat)
    requires len <= 32
    ensures ApplyMask(a, len) == ApplyMask(b, len) <==> SamePrefix(a, b, len)
  {
    MaskingKeepsPrefix(a, len);
    MaskingKeepsPrefix(b, len);
  }

  /** The test of an address against a network, given by some address in it. */
  lemma MaskTestIff(ip: Ip, gw: Ip, len: nat)
    requires len <= 32
    ensures ApplyMask(ip, len) == ApplyMask(gw, len) <==> SamePrefix(ip, ApplyMask(gw, len), len)
  {
    MaskComparesPrefixes(ip, gw, len);
    MaskingKeepsPrefix(gw, len);
  }

  lemma ShorterPrefix(a: Ip, b: Ip, m: nat, n: nat)
    requires m <= n <= 32 && SamePrefix(a, b, n)
    ensures SamePrefix(a, b, m)
  {
    assert a[..m] == a[..n][..m] && b[..m] == b[..n][..m];
  }

  lemma MaskingTwice(ip: Ip, m: nat, n: nat)
    requires m <= n <= 32
    ensures ApplyMask(ApplyMask(ip, n), m) == ApplyMask(ip, m)
  {
    MaskingKeepsPrefix(ip, n);
    ShorterPrefix(ApplyMask(ip, n), ip, m, n);
    MaskComparesPrefixes(ApplyMask(ip, n), ip, m);
  }

  /** Read as a number: a multiple of the size of the network, and a place in it. */
  lemma PlaceInNetwork(ip: Ip, len: nat)
    requires len <= 32
    ensures FromBits(ip) == Shifted(FromBits(ip[..len]), 32 - len) + FromBits(ip[len..])
    ensures FromBits(ip[len..]) < Pow2(32 - len)
  {
    assert ip == ip[..len] + ip[len..];
    ParseConcat(ip[..len], ip[len..]);
    ParseIsBounded(ip[len..]);
  }

  lemma {:induction false} ShiftedKeepsDistance(a: nat, b: nat, n: nat)
    requires a < b
    ensures Shifted(a, n) + Pow2(n) <= Shifted(b, n)
  {
    if n > 0 {
      ShiftedKeepsDistance(a, b, n - 1);
    }
  }

  /** A network is an interval of addresses: as many as the bits behind the prefix can count,
      from the network's own address on. */
  lemma NetworkIsInterval(ip: Ip, gw: Ip, len: nat)
    requires len <= 32
    ensures var nw := ApplyMask(gw, len);
            SamePrefix(ip, nw, len) <==> FromBits(nw) <= FromBits(ip) < FromBits(nw) + Pow2(32 - len)
  {
    var nw := ApplyMask(gw, len);
    MaskingKeepsPrefix(gw, len);
    PlaceInNetwork(ip, len);
    PlaceInNetwork(nw, len);
    assert nw[len..] == Zeros(32 - len);
    ParseZerosOnes(32 - len);
    ParseIsInjective(ip[..len], nw[..len]);
    var p, q := FromBits(ip[..len]), FromBits(nw[..len]);
    if p < q {
      ShiftedKeepsDistance(p, q, 32 - len);
    } else if q < p {
      ShiftedKeepsDistance(q, p, 32 - len);
    }
  }

  // ---------------------------------------------------------------- overlap

  /** The overlap test of the address table, for networks given by a member address each. */
  predicate OverlapTest(gw1: Ip, len1: nat, gw2: Ip, len2: nat)
    requires len1 <= 32 && len2 <= 32
  {
    || ApplyMask(gw2, len2) == ApplyMask(gw1, len2)
    || ApplyMask(gw1, len1) == ApplyMask(gw2, len1)
  }

  /** The networks of two addresses share an address. */
  ghost predicate Intersect(a: Ip, len1: nat, b: Ip, len2: nat)
    requires len1 <= 32 && len2 <= 32
  {
    exists ip: Ip :: SamePrefix(ip, a, len1) && SamePrefix(ip, b, len2)
  }

  /** The test finds exactly the networks that share an address. */
  lemma OverlapTestIsIntersection(gw1: Ip, len1: nat, gw2: Ip, len2: nat)
    requires len1 <= 32 && len2 <= 32
    ensures OverlapTest(gw1, len1, gw2, len2) <==> Intersect(gw1, len1, gw2, len2)
  {
    MaskComparesPrefixes(gw2, gw1, len2);
    MaskComparesPrefixes(gw1, gw2, len1);
    assert SamePrefix(gw1, gw1, len1) && SamePrefix(gw2, gw2, len2);
    if Intersect(gw1, len1, gw2, len2) {
      var ip: Ip :| SamePrefix(ip, gw1, len1) && SamePrefix(ip, gw2, len2);
      if len1 <= len2 {
        ShorterPrefix(ip, gw2, len1, len2);
      } else {
        ShorterPrefix(ip, gw1, len2, len1);
      }
    }
  }
}
