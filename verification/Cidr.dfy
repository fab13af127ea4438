/**
 IP networks: the bit arithmetic of CIDR masks, and the intervals of addresses it stands for.

 Addresses are numbers below 2^32 or 2^128. Masking is done the way the program does it, by shifting a word of ones
 and taking a bitwise conjunction; what that amounts to is proved for every word width.
 */
module Cidr {
  import opened Wrappers

  function Pow2(n: nat): (r: nat)
    ensures r >= 1
  {
    if n == 0 then 1 else 2 * Pow2(n - 1)
  }

  // ── Words ──

  /** Bitwise conjunction, bit by bit. */
  function BitAnd(a: nat, b: nat): nat
    decreases a
  {
    if a == 0 || b == 0 then 0
    else (if a % 2 == 1 && b % 2 == 1 then 1 else 0) + 2 * BitAnd(a / 2, b / 2)
  }

  /** The word of `width` ones. */
  function AllOnes(width: nat): nat {
    Pow2(width) - 1
  }

  /** Left shift of a word, one place at a time: a bit pushed out at the top is lost. */
  function ShiftLeft(x: nat, places: nat, width: nat): nat
    decreases places
  {
    if places == 0 then x
    else ShiftLeft(if 2 * x >= Pow2(width) then 2 * x - Pow2(width) else 2 * x, places - 1, width)
  }

  function ShiftRight(x: nat, places: nat): nat {
    if places == 0 then x else ShiftRight(x / 2, places - 1)
  }

  function LowBits(x: nat, n: nat): (r: nat)
    ensures r < Pow2(n)
  {
    if n == 0 then 0 else x % 2 + 2 * LowBits(x / 2, n - 1)
  }

  function MaskBits(prefix: nat, width: nat): nat
    requires prefix <= width
  {
    if prefix == 0 then 0 else ShiftLeft(AllOnes(width), width - prefix, width)
  }

  function MaskWord(x: nat, prefix: nat, width: nat): nat
    requires prefix <= width
  {
    BitAnd(x, MaskBits(prefix, width))
  }

  // ── What masking computes ──

  /** `x` with its `n` lowest bits cleared. */
  function ClearLow(x: nat, n: nat): (r: nat)
    ensures r <= x
  {
    if n == 0 then x else 2 * ClearLow(x / 2, n - 1)
  }

  lemma {:induction false} Pow2Monotone(a: nat, b: nat)
    requires a <= b
    ensures Pow2(a) <= Pow2(b)
  {
    if a < b {
      Pow2Monotone(a, b - 1);
    }
  }

  /** Shifting a word of ones leaves zeros below. */
  lemma {:induction false} ShiftOnes(cleared: nat, places: nat, width: nat)
    requires cleared + places <= width
    ensures Pow2(cleared) <= Pow2(width) && Pow2(cleared + places) <= Pow2(width)
    ensures ShiftLeft(Pow2(width) - Pow2(cleared), places, width) == Pow2(width) - Pow2(cleared + places)
    decreases places
  {
    Pow2Monotone(cleared, width);
    if places > 0 {
      Pow2Monotone(cleared + 1, width);
      ShiftOnes(cleared + 1, places - 1, width);
    }
  }

  lemma {:induction false} AndAllOnes(x: nat, width: nat)
    requires x < Pow2(width)
    ensures BitAnd(x, AllOnes(width)) == x
    decreases width
  {
    if x > 0 {
      AndAllOnes(x / 2, width - 1);
      assert AllOnes(width) / 2 == AllOnes(width - 1);
    }
  }

  /** Conjunction with ones above the `n` lowest places clears those places. */
  lemma {:induction false} AndHighOnes(x: nat, n: nat, width: nat)
    requires n <= width && x < Pow2(width)
    ensures Pow2(n) <= Pow2(width)
    ensures BitAnd(x, Pow2(width) - Pow2(n)) == ClearLow(x, n)
    decreases n
  {
    Pow2Monotone(n, width);
    if n == 0 {
      AndAllOnes(x, width);
    } else {
      AndHighOnes(x / 2, n - 1, width - 1);
      assert (Pow2(width) - Pow2(n)) / 2 == Pow2(width - 1) - Pow2(n - 1);
    }
  }

  /** Masking clears the host bits. */
  lemma MaskClearsHostBits(x: nat, prefix: nat, width: nat)
    requires prefix <= width && x < Pow2(width)
    ensures MaskWord(x, prefix, width) == ClearLow(x, width - prefix)
  {
    AndHighOnes(x, width - prefix, width);
    if prefix > 0 {
      ShiftOnes(0, width - prefix, width);
    }
  }

  lemma {:induction false} ClearTwice(x: nat, few: nat, many: nat)
    requires few <= many
    ensures ClearLow(ClearLow(x, few), many) == ClearLow(x, many)
  {
    if few > 0 {
      ClearTwice(x / 2, few - 1, many - 1);
    }
  }

  /** Masking twice is masking once. */
  lemma MaskIsIdempotent(x: nat, prefix: nat, width: nat)
    requires prefix <= width && x < Pow2(width)
    ensures MaskWord(MaskWord(x, prefix, width), prefix, width) == MaskWord(x, prefix, width)
  {
    MaskClearsHostBits(x, prefix, width);
    MaskClearsHostBits(ClearLow(x, width - prefix), prefix, width);
    ClearTwice(x, width - prefix, width - prefix);
  }

  /** Among numbers with their low bits cleared, one names the interval that starts at it. */
  lemma {:induction false} ClearedIntoIff(base: nat, n: nat, x: nat)
    requires ClearLow(base, n) == base
    ensures ClearLow(x, n) == base <==> base <= x <= base + (Pow2(n) - 1)
  {
    if n > 0 {
      ClearedIntoIff(base / 2, n - 1, x / 2);
    }
  }

  /** For a network base with its host bits cleared, the addresses that mask to it are an interval. */
  lemma MaskedIntoIff(net: nat, prefix: nat, width: nat, x: nat)
    requires prefix <= width && net < Pow2(width) && x < Pow2(width)
    requires MaskWord(net, prefix, width) == net
    ensures MaskWord(x, prefix, width) == net <==> net <= x <= net + (Pow2(width - prefix) - 1)
  {
    MaskClearsHostBits(net, prefix, width);
    MaskClearsHostBits(x, prefix, width);
    ClearedIntoIff(net, width - prefix, x);
  }

  // ── Addresses ──

  const OCTET: nat := 8

  // 32 and 128 bits.
  function Ipv4Bits(): nat { OCTET * 4 }
  function Ipv6Bits(): nat { OCTET * 16 }

  datatype IpAddr = V4(bits: nat) | V6(bits: nat) {
    function Width(): nat {
      if V4? then Ipv4Bits() else Ipv6Bits()
    }

    predicate Valid() {
      bits < Pow2(Width())
    }
  }

  function Mask(addr: IpAddr, prefix: nat): IpAddr
    requires prefix <= addr.Width()
  {
    addr.(bits := MaskWord(addr.bits, prefix, addr.Width()))
  }

  /** `::ffff:a.b.c.d` holds the IPv4 address `a.b.c.d`. */
  function ToIpv4Mapped(v6: nat): Option<nat> {
    if ShiftRight(v6, Ipv4Bits()) == 0xffff then Some(LowBits(v6, Ipv4Bits())) else None
  }

  function NetworkContains(net: IpAddr, prefix: nat, ip: IpAddr): bool
    requires prefix <= net.Width()
  {
    match (net, ip)
    case (V4(_), V4(_)) => Mask(ip, prefix) == net
    case (V6(_), V6(_)) => Mask(ip, prefix) == net
    case (V4(_), V6(v6)) => ToIpv4Mapped(v6).Some? && Mask(V4(ToIpv4Mapped(v6).value), prefix) == net
    case (V6(_), V4(_)) => false
  }

  ghost predicate InInterval(x: nat, net: IpAddr, prefix: nat)
    requires prefix <= net.Width()
  {
    net.bits <= x <= net.bits + (Pow2(net.Width() - prefix) - 1)
  }

  lemma MasksToIffInInterval(net: IpAddr, prefix: nat, ip: IpAddr)
    requires prefix <= net.Width() && net.Valid() && ip.Valid() && net.V4? == ip.V4? && Mask(net, prefix) == net
    ensures Mask(ip, prefix) == net <==> InInterval(ip.bits, net, prefix)
  {
    MaskedIntoIff(net.bits, prefix, net.Width(), ip.bits);
  }

  /** A stored network contains exactly the hosts of its interval: its own family's, and for an IPv4 network also the
      IPv6 hosts that hold an IPv4 address of the interval. */
  lemma ContainsIffInInterval(net: IpAddr, prefix: nat, ip: IpAddr)
    requires prefix <= net.Width() && net.Valid() && ip.Valid() && Mask(net, prefix) == net
    ensures NetworkContains(net, prefix, ip) <==>
            match (net, ip)
            case (V4(_), V4(x)) => InInterval(x, net, prefix)
            case (V6(_), V6(x)) => InInterval(x, net, prefix)
            case (V4(_), V6(x)) => ToIpv4Mapped(x).Some? && InInterval(ToIpv4Mapped(x).value, net, prefix)
            case (V6(_), V4(_)) => false
  {
    match (net, ip)
    case (V4(_), V6(x)) =>
      if ToIpv4Mapped(x).Some? {
        MasksToIffInInterval(net, prefix, V4(ToIpv4Mapped(x).value));
      }
    case (V6(_), V4(_)) =>
    case (_, _) => MasksToIffInInterval(net, prefix, ip);
  }

  lemma ShorterMaskAgrees(x: nat, y: nat, shorter: nat, longer: nat, width: nat)
    requires shorter <= longer <= width && x < Pow2(width) && y < Pow2(width)
    requires MaskWord(x, longer, width) == MaskWord(y, longer, width)
    ensures MaskWord(x, shorter, width) == MaskWord(y, shorter, width)
  {
    MaskClearsHostBits(x, longer, width);
    MaskClearsHostBits(y, longer, width);
    MaskClearsHostBits(x, shorter, width);
    MaskClearsHostBits(y, shorter, width);
    ClearTwice(x, width - longer, width - shorter);
    ClearTwice(y, width - longer, width - shorter);
  }

  /** A longer prefix of the same address accepts a subset. */
  lemma LongerPrefixIsNarrower(addr: IpAddr, shorter: nat, longer: nat, ip: IpAddr)
    requires shorter <= longer <= addr.Width() && addr.Valid() && ip.Valid()
    requires NetworkContains(Mask(addr, longer), longer, ip)
    ensures NetworkContains(Mask(addr, shorter), shorter, ip)
  {
    var x := if addr.V4? && ip.V6? then ToIpv4Mapped(ip.bits).value else ip.bits;
    ShorterMaskAgrees(x, addr.bits, shorter, longer, addr.Width());
  }

  // ── IPv4 networks seen from IPv6 ──

  /** The word with `tag` above the `n` lowest bits of `low`. */
  function Stack(tag: nat, n: nat, low: nat): nat {
    if n == 0 then tag else low % 2 + 2 * Stack(tag, n - 1, low / 2)
  }

  lemma {:induction false} StackFits(tag: nat, n: nat, low: nat, t: nat)
    requires tag < Pow2(t)
    ensures Stack(tag, n, low) < Pow2(n + t)
  {
    if n > 0 {
      StackFits(tag, n - 1, low / 2, t);
    }
  }

  lemma {:induction false} StackIsInjective(tag: nat, tag': nat, n: nat, low: nat, low': nat)
    requires low < Pow2(n) && low' < Pow2(n) && Stack(tag, n, low) == Stack(tag', n, low')
    ensures tag == tag' && low == low'
  {
    if n > 0 {
      StackIsInjective(tag, tag', n - 1, low / 2, low' / 2);
    }
  }

  /** Clearing low bits of a word clears them in its low part. */
  lemma {:induction false} ClearInLowPart(x: nat, n: nat, cleared: nat)
    requires cleared <= n
    ensures ClearLow(x, cleared) == Stack(ShiftRight(x, n), n, ClearLow(LowBits(x, n), cleared))
  {
    if n > 0 {
      ClearInLowPart(x / 2, n - 1, if cleared == 0 then 0 else cleared - 1);
    }
  }

  /** A word masks to a tag stacked on a base exactly when its high part is the tag and its low part masks to the
      base. */
  lemma StackedNetwork(net: nat, n: nat, tag: nat, prefix: nat, width: nat, x: nat)
    requires prefix <= n <= width && net < Pow2(n) && x < Pow2(width)
    ensures (ShiftRight(x, n) == tag && MaskWord(LowBits(x, n), prefix, n) == net)
            <==> MaskWord(x, width - n + prefix, width) == Stack(tag, n, net)
  {
    var low := ClearLow(LowBits(x, n), n - prefix);
    MaskClearsHostBits(x, width - n + prefix, width);
    MaskClearsHostBits(LowBits(x, n), prefix, n);
    ClearInLowPart(x, n, n - prefix);
    if Stack(ShiftRight(x, n), n, low) == Stack(tag, n, net) {
      StackIsInjective(ShiftRight(x, n), tag, n, low, net);
    }
  }

  /** The IPv6 form of an IPv4 address. */
  function MappedBase(net: nat): nat {
    Stack(0xffff, Ipv4Bits(), net)
  }

  function LongerBy(prefix: nat): nat {
    Ipv6Bits() - Ipv4Bits() + prefix
  }

  lemma FourMoreBits(n: nat)
    ensures Pow2(n + 4) == 16 * Pow2(n)
  {
    assert Pow2(n + 3) == 2 * Pow2(n + 2);
  }

  lemma TagFits(t: nat)
    requires t == 16
    ensures 0xffff < Pow2(t)
  {
    FourMoreBits(t - 16);
    FourMoreBits(t - 12);
    FourMoreBits(t - 8);
    FourMoreBits(t - 4);
  }

  lemma StackFitsIn(tag: nat, n: nat, low: nat, t: nat, width: nat)
    requires tag < Pow2(t) && n + t <= width
    ensures Stack(tag, n, low) < Pow2(width)
  {
    StackFits(tag, n, low, t);
    Pow2Monotone(n + t, width);
  }

  /** An IPv4 network treats an IPv6 host as the IPv6 network of its mapped base, 96 bits longer, does; and that network
      is one. */
  lemma MappedHostsAsIpv6Network(net: nat, prefix: nat, x: nat)
    requires prefix <= Ipv4Bits() && V4(net).Valid() && V6(x).Valid()
    ensures V6(MappedBase(net)).Valid()
    ensures NetworkContains(V4(net), prefix, V6(x)) <==> NetworkContains(V6(MappedBase(net)), LongerBy(prefix), V6(x))
  {
    TagFits(OCTET + OCTET);
    StackFitsIn(0xffff, Ipv4Bits(), net, OCTET + OCTET, Ipv6Bits());
    StackedNetwork(net, Ipv4Bits(), 0xffff, prefix, Ipv6Bits(), x);
  }
}
