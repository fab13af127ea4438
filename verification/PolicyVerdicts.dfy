/**
 What an allow-list admits, told from the entries and the address alone: networks by the intervals they stand for,
 prefixes component by component.
 */
module PolicyVerdicts {
  import opened Wrappers
  import opened Identity
  import opened Cidr
  import opened Policy
  import opened NetworkPolicy

  // ── Names ──

  predicate Dots(s: string) {
    forall i | 0 <= i < |s| :: s[i] == '.'
  }

  predicate EndsInDot(s: string) {
    s != [] && s[|s| - 1] == '.'
  }

  /** Equal but for the case of ASCII letters. */
  predicate SameLetter(c: char, d: char) {
    c == d || ('A' <= c <= 'Z' && d == c - 'A' + 'a') || ('A' <= d <= 'Z' && c == d - 'A' + 'a')
  }

  predicate SameLetters(x: string, y: string) {
    |x| == |y| && forall i | 0 <= i < |x| :: SameLetter(x[i], y[i])
  }

  lemma {:induction false} TrimmedIff(s: string, x: string, dots: string)
    requires s == x + dots && Dots(dots) && !EndsInDot(x)
    ensures TrimDots(s) == x
  {
    if dots == [] {
      assert s == x;
    } else {
      var n := |dots| - 1;
      assert s[..|s| - 1] == x + dots[..n];
      TrimmedIff(s[..|s| - 1], x, dots[..n]);
    }
  }

  lemma {:induction false} TrimmedSplits(s: string)
    ensures var x := TrimDots(s);
            x <= s && Dots(s[|x|..]) && !EndsInDot(x)
  {
    if EndsInDot(s) {
      TrimmedSplits(s[..|s| - 1]);
      var x := TrimDots(s);
      assert s[|x|..] == s[..|s| - 1][|x|..] + ['.'];
    } else {
      assert s[|s|..] == [];
    }
  }

  lemma LowerIff(x: string, y: string)
    ensures AsciiLower(x) == AsciiLower(y) <==> SameLetters(x, y)
  {
    if AsciiLower(x) == AsciiLower(y) {
      forall i | 0 <= i < |x| ensures SameLetter(x[i], y[i]) {
        assert AsciiLower(x)[i] == AsciiLower(y)[i];
      }
    }
  }

  /** The name is this one followed by dots. */
  predicate NameIs(s: string, x: string) {
    x <= s && Dots(s[|x|..]) && !EndsInDot(x)
  }

  /** Two names are equal when, without their trailing dots, they differ at most in case. */
  lemma DnsEqIff(a: string, b: string)
    ensures DnsEq(a, b) <==> exists x, y :: NameIs(a, x) && NameIs(b, y) && SameLetters(x, y)
  {
    TrimmedSplits(a);
    TrimmedSplits(b);
    LowerIff(TrimDots(a), TrimDots(b));
    if x, y :| NameIs(a, x) && NameIs(b, y) && SameLetters(x, y) {
      assert a == x + a[|x|..] && b == y + b[|y|..];
      TrimmedIff(a, x, a[|x|..]);
      TrimmedIff(b, y, b[|y|..]);
    } else {
      assert !(NameIs(a, TrimDots(a)) && NameIs(b, TrimDots(b)) && SameLetters(TrimDots(a), TrimDots(b)));
    }
  }

  /** The listed component and the address's are the same, or DNS names of one kind that are equal. */
  ghost predicate SameAsListed(listed: Component, c: Component) {
    || listed == c
    || (((listed.Dns? && c.Dns?) || (listed.Dns4? && c.Dns4?) || (listed.Dns6? && c.Dns6?)
         || (listed.Dnsaddr? && c.Dnsaddr?))
        && exists x, y :: NameIs(listed.name, x) && NameIs(c.name, y) && SameLetters(x, y))
  }

  lemma SameComponentIff(listed: Component, c: Component)
    ensures SameComponent(listed, c) <==> SameAsListed(listed, c)
  {
    if (listed.Dns? && c.Dns?) || (listed.Dns4? && c.Dns4?) || (listed.Dns6? && c.Dns6?)
       || (listed.Dnsaddr? && c.Dnsaddr?) {
      DnsEqIff(listed.name, c.name);
    }
  }

  // ── Networks ──

  /** A network as it is stored: an address of its family with its host bits cleared. */
  predicate Normal(e: AllowEntry) {
    e.Network? ==> e.addr.Valid() && Mask(e.addr, e.prefix) == e.addr
  }

  /** A network is accepted exactly when its length fits; it is stored in normal form and contains the address given. */
  lemma ParsedNetworkIsNormal(addr: IpAddr, length: Option<nat>)
    requires addr.Valid()
    ensures ParseNetwork(addr, length).Some? <==> (length.Some? ==> length.value <= addr.Width())
    ensures ParseNetwork(addr, length).Some? ==>
              var e := ParseNetwork(addr, length).value;
              && e.Network? && Normal(e) && e.prefix == (if length.Some? then length.value else addr.Width())
              && e.addr.V4? == addr.V4? && InInterval(addr.bits, e.addr, e.prefix)
  {
    if ParseNetwork(addr, length).Some? {
      var e := ParseNetwork(addr, length).value;
      MaskClearsHostBits(addr.bits, e.prefix, addr.Width());
      MaskIsIdempotent(addr.bits, e.prefix, addr.Width());
      MasksToIffInInterval(e.addr, e.prefix, addr);
    }
  }

  /** The component is a host whose number lies in the network's interval: of its family, or IPv4-mapped. */
  ghost predicate HostIn(e: AllowEntry, c: Component)
    requires e.Network?
  {
    match (e.addr, c)
    case (V4(_), Ip4(x)) => InInterval(x, e.addr, e.prefix)
    case (V6(_), Ip6(x)) => InInterval(x, e.addr, e.prefix)
    case (V4(_), Ip6(x)) => ToIpv4Mapped(x).Some? && InInterval(ToIpv4Mapped(x).value, e.addr, e.prefix)
    case _ => false
  }

  /** IP components hold numbers of their width. */
  predicate RealIps(addr: Multiaddr) {
    forall c | c in addr :: (c.Ip4? ==> V4(c.bits).Valid()) && (c.Ip6? ==> V6(c.bits).Valid())
  }

  // ── What an entry admits ──

  ghost predicate Admits(e: AllowEntry, body: seq<Component>, peer: Option<PeerId>, pin: PeerPin) {
    match e
    case Network(_, _) => body != [] && HostIn(e, body[0])
    case Prefix(components, pinned) =>
      && |components| <= |body| && (forall i | 0 <= i < |components| :: SameAsListed(components[i], body[i]))
      && (pinned.None? || pinned == peer || (peer.None? && pin.Defer?))
  }

  lemma Ip4InIff(e: AllowEntry, x: nat)
    requires e.Network? && Normal(e) && V4(x).Valid()
    ensures NetworkContains(e.addr, e.prefix, V4(x)) <==> HostIn(e, Ip4(x))
  {
    ContainsIffInInterval(e.addr, e.prefix, V4(x));
  }

  lemma Ip6InIff(e: AllowEntry, x: nat)
    requires e.Network? && Normal(e) && V6(x).Valid()
    ensures NetworkContains(e.addr, e.prefix, V6(x)) <==> HostIn(e, Ip6(x))
  {
    ContainsIffInInterval(e.addr, e.prefix, V6(x));
  }

  lemma NetworkMatchesIff(e: AllowEntry, body: seq<Component>, peer: Option<PeerId>, pin: PeerPin)
    requires e.Network? && Normal(e) && RealIps(body)
    ensures Matches(e, body, peer, pin) <==> Admits(e, body, peer, pin)
  {
    if body != [] {
      assert body[0] in body;
      if body[0].Ip4? {
        Ip4InIff(e, body[0].bits);
      } else if body[0].Ip6? {
        Ip6InIff(e, body[0].bits);
      }
    }
  }

  lemma PrefixMatchesIff(e: AllowEntry, body: seq<Component>, peer: Option<PeerId>, pin: PeerPin)
    requires e.Prefix?
    ensures Matches(e, body, peer, pin) <==> Admits(e, body, peer, pin)
  {
    forall i | 0 <= i < |e.components| && i < |body|
      ensures SameComponent(e.components[i], body[i]) <==> SameAsListed(e.components[i], body[i])
    {
      SameComponentIff(e.components[i], body[i]);
    }
  }

  ghost predicate SomeoneAdmits(entries: seq<AllowEntry>, body: seq<Component>, peer: Option<PeerId>, pin: PeerPin) {
    exists i :: 0 <= i < |entries| && Admits(entries[i], body, peer, pin)
  }

  lemma SomeoneAdmitsIff(entries: seq<AllowEntry>, body: seq<Component>, peer: Option<PeerId>, pin: PeerPin)
    requires RealIps(body) && forall i | 0 <= i < |entries| :: Normal(entries[i])
    ensures SomeEntryMatches(entries, body, peer, pin) <==> SomeoneAdmits(entries, body, peer, pin)
  {
    forall i | 0 <= i < |entries|
      ensures Matches(entries[i], body, peer, pin) <==> Admits(entries[i], body, peer, pin)
    {
      if entries[i].Network? {
        NetworkMatchesIff(entries[i], body, peer, pin);
      } else {
        PrefixMatchesIff(entries[i], body, peer, pin);
      }
    }
  }

  // ── The verdict ──

  function Named(peer: Option<PeerId>): seq<Component> {
    match peer case None => [] case Some(p) => [P2p(p)]
  }

  /** The judged part of an address, its peer if it names one, and what follows from the first circuit on. */
  predicate Splits(addr: Multiaddr, body: seq<Component>, named: Option<PeerId>, rest: seq<Component>) {
    && addr == body + Named(named) + rest
    && (forall c | c in body :: !c.P2p? && !c.P2pCircuit?)
    && (rest != [] ==> rest[0].P2pCircuit?)
  }

  /** Whom a pin is held against: the peer the address names, or, for a direct address that names none, the hint. */
  function Against(named: Option<PeerId>, rest: seq<Component>, hint: Option<PeerId>): Option<PeerId> {
    if named.Some? then named else if rest == [] then hint else None
  }

  lemma SplitAtCircuit(addr: Multiaddr, body: seq<Component>, named: Option<PeerId>, rest: seq<Component>)
    requires Splits(addr, body, named, rest)
    ensures CircuitAt(addr) == |body| + |Named(named)|
    ensures IsRelayed(addr) <==> rest != []
  {
    var n := |body| + |Named(named)|;
    forall i | 0 <= i < n ensures !addr[i].P2pCircuit? {
      if i < |body| {
        assert addr[i] == body[i] && body[i] in body;
      }
    }
    if rest != [] {
      assert addr[n] == rest[0];
      CircuitIsAt(addr, n);
    }
  }

  lemma SplitPeer(body: seq<Component>, named: Option<PeerId>)
    requires forall c | c in body :: !c.P2p?
    ensures TransportOf(body + Named(named)) == body
    ensures forall o :: PeerOf(body + Named(named), o) == if named.Some? then named else o
  {
    if named.None? {
      assert body + Named(named) == body;
      assert body != [] ==> body[|body| - 1] in body;
    } else {
      NamedPeer(body, named.value);
    }
  }

  lemma SplitSegment(addr: Multiaddr, body: seq<Component>, named: Option<PeerId>, rest: seq<Component>)
    requires Splits(addr, body, named, rest)
    ensures addr[..CircuitAt(addr)] == body + Named(named) && (IsRelayed(addr) <==> rest != [])
    ensures TransportOf(body + Named(named)) == body
    ensures forall o :: PeerOf(body + Named(named), o) == if named.Some? then named else o
  {
    SplitAtCircuit(addr, body, named, rest);
    SplitPeer(body, named);
  }

  /** A judgeable address splits. */
  lemma JudgeableSplits(addr: Multiaddr)
    requires Judgeable(TransportOf(addr[..CircuitAt(addr)]))
    ensures var segment := addr[..CircuitAt(addr)];
            Splits(addr, TransportOf(segment), PeerOf(segment, None), addr[CircuitAt(addr)..])
  {
    var n := CircuitAt(addr);
    BodyAndPeer(addr[..n]);
    assert addr == addr[..n] + addr[n..];
    forall c | c in TransportOf(addr[..n]) ensures !c.P2p? && !c.P2pCircuit? {
      var i :| 0 <= i < |TransportOf(addr[..n])| && TransportOf(addr[..n])[i] == c;
      assert c == addr[i];
    }
  }

  /** The verdict on any address: it splits into a body that begins with a host and names no peer, an optional final
      peer, and what follows from the first circuit on; and some entry admits the body for the peer. */
  lemma VerdictIff(entries: seq<AllowEntry>, addr: Multiaddr, hint: Option<PeerId>, pin: PeerPin)
    requires RealIps(addr) && forall i | 0 <= i < |entries| :: Normal(entries[i])
    ensures Decide(entries, addr, hint, pin)
            <==> exists body, named, rest :: Splits(addr, body, named, rest) && body != [] && IsHost(body[0])
                                             && SomeoneAdmits(entries, body, Against(named, rest, hint), pin)
  {
    if Decide(entries, addr, hint, pin) {
      var segment := addr[..CircuitAt(addr)];
      var body, named, rest := TransportOf(segment), PeerOf(segment, None), addr[CircuitAt(addr)..];
      JudgeableSplits(addr);
      SplitVerdict(entries, addr, hint, pin, body, named, rest);
    }
    forall body, named, rest | Splits(addr, body, named, rest) && body != [] && IsHost(body[0])
                               && SomeoneAdmits(entries, body, Against(named, rest, hint), pin)
      ensures Decide(entries, addr, hint, pin)
    {
      SplitVerdict(entries, addr, hint, pin, body, named, rest);
    }
  }

  /** However it splits, the verdict is that of the parts. */
  lemma SplitVerdict(entries: seq<AllowEntry>, addr: Multiaddr, hint: Option<PeerId>, pin: PeerPin,
                     body: seq<Component>, named: Option<PeerId>, rest: seq<Component>)
    requires RealIps(addr) && forall i | 0 <= i < |entries| :: Normal(entries[i])
    requires Splits(addr, body, named, rest)
    ensures Decide(entries, addr, hint, pin)
            <==> body != [] && IsHost(body[0]) && SomeoneAdmits(entries, body, Against(named, rest, hint), pin)
  {
    SplitDecision(entries, addr, hint, pin, body, named, rest);
    assert RealIps(body) by {
      assert forall c | c in body :: c in addr;
    }
    SomeoneAdmitsIff(entries, body, Against(named, rest, hint), pin);
  }

  lemma SplitDecision(entries: seq<AllowEntry>, addr: Multiaddr, hint: Option<PeerId>, pin: PeerPin,
                      body: seq<Component>, named: Option<PeerId>, rest: seq<Component>)
    requires Splits(addr, body, named, rest)
    ensures Decide(entries, addr, hint, pin)
            <==> body != [] && IsHost(body[0]) && SomeEntryMatches(entries, body, Against(named, rest, hint), pin)
  {
    SplitSegment(addr, body, named, rest);
    assert forall i | 0 <= i < |body| :: body[i] in body;
  }

  /** Over a list of networks, a direct address that splits is allowed exactly when its host lies in one of them,
      whoever the peer. */
  lemma NetworksVerdict(entries: seq<AllowEntry>, addr: Multiaddr, hint: Option<PeerId>, body: seq<Component>,
                        named: Option<PeerId>)
    requires RealIps(addr) && forall i | 0 <= i < |entries| :: entries[i].Network? && Normal(entries[i])
    requires Splits(addr, body, named, [])
    ensures Allows(entries, addr, hint)
            <==> body != [] && exists i :: 0 <= i < |entries| && HostIn(entries[i], body[0])
  {
    SplitVerdict(entries, addr, hint, Enforce, body, named, []);
    if i :| body != [] && 0 <= i < |entries| && HostIn(entries[i], body[0]) {
      assert Admits(entries[i], body, Against(named, [], hint), Enforce);
    }
  }

  /** An address one of whose components differs from the only entry's is not allowed. */
  lemma OtherHostIsRefused(e: AllowEntry, addr: Multiaddr, hint: Option<PeerId>, body: seq<Component>,
                           named: Option<PeerId>, i: nat)
    requires e.Prefix? && RealIps(addr) && Splits(addr, body, named, [])
    requires i < |e.components| && (i < |body| ==> !SameAsListed(e.components[i], body[i]))
    ensures !Allows([e], addr, hint)
  {
    SplitVerdict([e], addr, hint, Enforce, body, named, []);
  }

  // ── What can be listed ──

  /** Nothing, a TCP port, a UDP port, or QUIC on one; the port is not zero. */
  ghost predicate ListablePort(rest: seq<Component>) {
    || rest == []
    || (exists n: nat :: n != 0 && rest == [Tcp(n)])
    || (exists n: nat :: n != 0 && (rest == [Udp(n)] || rest == [Udp(n), QuicV1]))
  }

  ghost predicate ListedAs(listed: Multiaddr, host: Component, port: seq<Component>, named: Option<PeerId>) {
    listed == [host] + port + Named(named) && IsHost(host) && ListablePort(port)
  }

  /** The addresses accepted as entries are exactly a host, optionally a port, and optionally a peer. */
  lemma ParsesIff(listed: Multiaddr)
    ensures ParsePrefix(listed).Some?
            <==> exists host, port, named :: ListedAs(listed, host, port, named)
  {
    if ParsePrefix(listed).Some? {
      var body := TransportOf(listed);
      BodyAndPeer(listed);
      PortIff(body[1..]);
      assert ListedAs(listed, body[0], body[1..], PeerOf(listed, None));
    }
    if host, port, named :| ListedAs(listed, host, port, named) {
      ListableParses(listed, host, port, named);
    }
  }

  lemma PortIff(rest: seq<Component>)
    ensures PortPart(rest) <==> ListablePort(rest)
  {
    if PortPart(rest) && rest != [] {
      assert rest == [Tcp(rest[0].port)] || rest == [Udp(rest[0].port)] || rest == [Udp(rest[0].port), QuicV1];
    }
  }

  lemma ListableParses(listed: Multiaddr, host: Component, port: seq<Component>, named: Option<PeerId>)
    requires ListedAs(listed, host, port, named)
    ensures ParsePrefix(listed).Some?
  {
    PortIff(port);
    var body := [host] + port;
    assert body[1..] == port;
    PortPartNamesNoPeer(body);
    assert Splits(listed, body, named, []) by {
      assert listed == body + Named(named) + [];
      assert forall c | c in body :: exists i :: 0 <= i < |body| && body[i] == c;
    }
    SplitSegment(listed, body, named, []);
    assert listed == body + Named(named);
  }

  /** What a policy lets pass: everything without a list, and under a list what the verdict on the address says, with
      the peer for a hint. */
  lemma JudgesIff(allow: AllowList, addr: Multiaddr, peer: Option<PeerId>)
    requires RealIps(addr) && (allow.Some? ==> forall i | 0 <= i < |allow.value| :: Normal(allow.value[i]))
    ensures Judges(allow, addr, peer)
            <==> allow.Some? ==>
                   exists body, named, rest :: Splits(addr, body, named, rest) && body != [] && IsHost(body[0])
                                               && SomeoneAdmits(allow.value, body, Against(named, rest, peer), Enforce)
  {
    if allow.Some? {
      VerdictIff(allow.value, addr, peer, Enforce);
    }
  }

  // ── Connections that come in ──

  /** The address a refusal is recorded under is the one the verdict was about. */
  lemma InboundJudgedIff(entries: seq<AllowEntry>, localAddr: Multiaddr, remoteAddr: Multiaddr, peer: Option<PeerId>)
    ensures var judged := InboundJudged(localAddr, remoteAddr);
            InboundVerdict(Some(entries), localAddr, remoteAddr, peer)
            <==> Decide(entries, judged, peer, if IsRelayed(localAddr) || peer.Some? then Enforce else Defer)
  {
  }

  /** A connection through a relay is judged by the circuit listened on, whoever the peer. A direct one is judged,
      once the peer is known, as that peer's; before that, one that names no peer is let in exactly when it could be
      allowed of somebody, and one that names a peer is judged as it stands. */
  lemma InboundVerdictIff(entries: seq<AllowEntry>, localAddr: Multiaddr, remoteAddr: Multiaddr, peer: Option<PeerId>)
    ensures var verdict := InboundVerdict(Some(entries), localAddr, remoteAddr, peer);
            if IsRelayed(localAddr) then forall hint :: verdict <==> Allows(entries, localAddr, hint)
            else if peer.Some? then verdict <==> Allows(entries, remoteAddr, peer)
            else if !IsRelayed(remoteAddr) && (remoteAddr != [] ==> !remoteAddr[|remoteAddr| - 1].P2p?)
            then verdict <==> exists p :: Allows(entries, remoteAddr, Some(p))
            else !IsRelayed(remoteAddr) ==> (verdict <==> Allows(entries, remoteAddr, None))
    ensures InboundVerdict(None, localAddr, remoteAddr, peer)
  {
    if !IsRelayed(localAddr) && peer.None? && !IsRelayed(remoteAddr) {
      if remoteAddr != [] && remoteAddr[|remoteAddr| - 1].P2p? {
        NamedIsNotDeferred(entries, remoteAddr);
      } else {
        DeferredIffSomePeer(entries, remoteAddr);
      }
    }
  }

  lemma NamedIsNotDeferred(entries: seq<AllowEntry>, addr: Multiaddr)
    requires !IsRelayed(addr) && addr != [] && addr[|addr| - 1].P2p?
    ensures Decide(entries, addr, None, Defer) <==> Allows(entries, addr, None)
  {
    assert addr[..CircuitAt(addr)] == addr;
    var t, p := TransportOf(addr), PeerOf(addr, None);
    forall i | 0 <= i < |entries| ensures Matches(entries[i], t, p, Defer) <==> Matches(entries[i], t, p, Enforce) {
    }
  }

  // ── Addresses dialed over the open network ──

  predicate Between(low: nat, x: nat, high: nat) {
    low <= x <= high
  }

  /** IPv4: not loopback, link-local, private or carrier-grade address space, and not the unspecified address. */
  lemma DialableIp4Iff(bits: nat)
    requires bits <= 0xffff_ffff
    ensures DialableIp4(bits)
            <==> && bits != 0
                 && !Between(0x7f00_0000, bits, 0x7fff_ffff)
                 && !Between(0xa9fe_0000, bits, 0xa9fe_ffff)
                 && !Between(0x0a00_0000, bits, 0x0aff_ffff)
                 && !Between(0xac10_0000, bits, 0xac1f_ffff)
                 && !Between(0xc0a8_0000, bits, 0xc0a8_ffff)
                 && !Between(0x6440_0000, bits, 0x647f_ffff)
  {
  }

  predicate IsName(c: Component) {
    c.Dns? || c.Dns4? || c.Dns6? || c.Dnsaddr?
  }

  predicate DialableHost(c: Component) {
    IsName(c) || (c.Ip4? && DialableIp4(c.bits)) || (c.Ip6? && DialableIp6(c.bits))
  }

  predicate FirstHostAt(addr: Multiaddr, i: nat) {
    i < |addr| && IsHost(addr[i]) && forall j | 0 <= j < i :: !IsHost(addr[j])
  }

  lemma FirstHostShifts(addr: Multiaddr, i: nat)
    requires addr != [] && !IsHost(addr[0])
    ensures FirstHostAt(addr, i + 1) <==> FirstHostAt(addr[1..], i)
  {
    var tail := addr[1..];
    assert forall j | 0 <= j < |tail| :: tail[j] == addr[j + 1];
    if FirstHostAt(tail, i) {
      assert forall j | 1 <= j < i + 1 :: addr[j] == tail[j - 1];
    }
  }

  /** The first host of an address settles it: a name always will do, an IP if it is dialable. */
  lemma {:induction false} DialableIff(addr: Multiaddr)
    ensures DialableOverWan(addr) <==> exists i: nat :: FirstHostAt(addr, i) && DialableHost(addr[i])
  {
    if addr != [] {
      if IsHost(addr[0]) {
        assert FirstHostAt(addr, 0);
        assert forall i: nat | FirstHostAt(addr, i) :: i == 0;
      } else {
        DialableIff(addr[1..]);
        if i: nat :| FirstHostAt(addr[1..], i) && DialableHost(addr[1..][i]) {
          FirstHostShifts(addr, i);
          assert FirstHostAt(addr, i + 1) && addr[i + 1] == addr[1..][i];
        }
        if i: nat :| FirstHostAt(addr, i) && DialableHost(addr[i]) {
          FirstHostShifts(addr, i - 1);
          assert FirstHostAt(addr[1..], i - 1) && addr[1..][i - 1] == addr[i];
        }
      }
    }
  }

  /** A candidate for a direct dial is dialable and goes through no relay. */
  lemma CandidateIff(addr: Multiaddr)
    ensures Candidate(addr) <==> DialableOverWan(addr) && forall i | 0 <= i < |addr| :: !addr[i].P2pCircuit?
  {
    if IsRelayed(addr) {
      assert addr[CircuitAt(addr)].P2pCircuit?;
    }
  }

  lemma FewPowers(n: nat)
    requires n == 0
    ensures Pow2(n + 6) == 64 && Pow2(n + 9) == 512 && Pow2(n + 16) == 0x1_0000
  {
    FourMoreBits(n);
    FourMoreBits(n + 4);
    FourMoreBits(n + 8);
    FourMoreBits(n + 12);
    assert Pow2(n + 5) == 2 * Pow2(n + 4) && Pow2(n + 9) == 2 * Pow2(n + 8);
  }

  /** A conjunction with ones above the `n` lowest of sixteen bits is a base exactly over the base's interval. */
  lemma SegmentIff(segment: nat, n: nat, base: nat)
    requires n <= 16 && segment < Pow2(16) && ClearLow(base, n) == base
    ensures Pow2(n) <= Pow2(16)
    ensures BitAnd(segment, Pow2(16) - Pow2(n)) == base <==> base <= segment <= base + (Pow2(n) - 1)
  {
    AndHighOnes(segment, n, 16);
    ClearedIntoIff(base, n, segment);
  }

  /** IPv6: not loopback, unspecified, link-local (the first ten bits of fe80) or unique local (the first seven of
      fc00). */
  lemma DialableIp6Iff(bits: nat)
    requires bits <= 0xffff_ffff_ffff_ffff_ffff_ffff_ffff_ffff
    ensures var segment := bits / 0x1_0000_0000_0000_0000_0000_0000_0000;
            DialableIp6(bits)
            <==> bits != 0 && bits != 1 && !Between(0xfe80, segment, 0xfebf) && !Between(0xfc00, segment, 0xfdff)
  {
    var segment := bits / 0x1_0000_0000_0000_0000_0000_0000_0000;
    FewPowers(0);
    BasesAreClear();
    SegmentIff(segment, 6, 0xfe80);
    SegmentIff(segment, 9, 0xfc00);
  }

  lemma BasesAreClear()
    ensures ClearLow(0xfe80, 6) == 0xfe80 && ClearLow(0xfc00, 9) == 0xfc00
  {
    assert ClearLow(0xfe80 / 64, 0) == 0xfe80 / 64;
    assert ClearLow(0xfe80 / 16, 2) == 0xfe80 / 16;
    assert ClearLow(0xfe80 / 4, 4) == 0xfe80 / 4;
    assert ClearLow(0xfc00 / 128, 2) == 0xfc00 / 128;
    assert ClearLow(0xfc00 / 32, 4) == 0xfc00 / 32;
    assert ClearLow(0xfc00 / 8, 6) == 0xfc00 / 8;
    assert ClearLow(0xfc00 / 2, 8) == 0xfc00 / 2;
  }
}
