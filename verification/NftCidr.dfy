/** Address prefixes: the load-mask-compare program against bit-by-bit prefix membership. */
module NftCidr {
  import opened Nft

  /** Bit `i` of an address, most significant first. */
  predicate Bit(addr: seq<Octet>, i: nat)
    requires i < 8 * |addr|
  {
    addr[i / 8].Bit(i % 8)
  }

  /** The first `ones` bits of two addresses of one length agree (section 3.1 of RFC 4632). */
  ghost predicate InPrefix(addr: seq<Octet>, ip: seq<Octet>, ones: nat)
    requires |addr| == |ip| && ones <= 8 * |ip|
  {
    forall i :: 0 <= i < ones ==> (Bit(addr, i) <==> Bit(ip, i))
  }

  /** A byte with its `k` leading bits set. */
  function MaskByte(k: int): Octet
  {
    Octet(k > 0, k > 1, k > 2, k > 3, k > 4, k > 5, k > 6, k > 7)
  }

  function CidrMask(ones: nat, size: nat): (r: seq<Octet>)
    ensures |r| == size
  {
    seq(size, i requires 0 <= i < size => MaskByte(ones - 8 * i))
  }

  /** Two bytes agree on their `k` leading bits. */
  ghost predicate SameBits(a: Octet, b: Octet, k: int)
  {
    forall i :: 0 <= i < 8 && i < k ==> (a.Bit(i) <==> b.Bit(i))
  }

  lemma EqualByBits(a: Octet, b: Octet)
    requires SameBits(a, b, 8)
    ensures a == b
  {
    assert a.Bit(0) == b.Bit(0) && a.Bit(1) == b.Bit(1) && a.Bit(2) == b.Bit(2) && a.Bit(3) == b.Bit(3);
    assert a.Bit(4) == b.Bit(4) && a.Bit(5) == b.Bit(5) && a.Bit(6) == b.Bit(6) && a.Bit(7) == b.Bit(7);
  }

  lemma MaskedBit(a: Octet, k: int, i: int)
    requires 0 <= i < 8
    ensures a.And(MaskByte(k)).Bit(i) <==> a.Bit(i) && i < k
  {
  }

  /** Masked bytes agree exactly when their unmasked bits do. */
  lemma MaskedByte(a: Octet, b: Octet, k: int)
    ensures a.And(MaskByte(k)) == b.And(MaskByte(k)) <==> SameBits(a, b, k)
  {
    var x, y := a.And(MaskByte(k)), b.And(MaskByte(k));
    forall i | 0 <= i < 8 ensures (x.Bit(i) <==> a.Bit(i) && i < k) && (y.Bit(i) <==> b.Bit(i) && i < k) {
      MaskedBit(a, k, i);
      MaskedBit(b, k, i);
    }
    if SameBits(a, b, k) {
      assert SameBits(x, y, 8);
      EqualByBits(x, y);
    }
  }

  /** Masked addresses are equal exactly when they share the prefix. */
  lemma MaskedAddress(addr: seq<Octet>, ip: seq<Octet>, ones: nat)
    requires |addr| == |ip| && ones <= 8 * |ip|
    ensures AndBytes(addr, CidrMask(ones, |ip|)) == AndBytes(ip, CidrMask(ones, |ip|))
       <==> InPrefix(addr, ip, ones)
  {
    var mask := CidrMask(ones, |ip|);
    var a, b := AndBytes(addr, mask), AndBytes(ip, mask);
    forall j | 0 <= j < |ip|
      ensures a[j] == b[j] <==> SameBits(addr[j], ip[j], ones - 8 * j)
    {
      MaskedByte(addr[j], ip[j], ones - 8 * j);
    }
    if InPrefix(addr, ip, ones) {
      forall j | 0 <= j < |ip| ensures a[j] == b[j] {
        forall i | 0 <= i < 8 && i < ones - 8 * j ensures addr[j].Bit(i) <==> ip[j].Bit(i) {
          assert Bit(addr, 8 * j + i) <==> Bit(ip, 8 * j + i);
          assert (8 * j + i) / 8 == j && (8 * j + i) % 8 == i;
        }
      }
    }
    if a == b {
      forall i | 0 <= i < ones ensures Bit(addr, i) <==> Bit(ip, i) {
        assert a[i / 8] == b[i / 8];
        assert i % 8 < ones - 8 * (i / 8);
      }
    }
  }
}
