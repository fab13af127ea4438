/**
 The outbound allow-list: which addresses an entry matches, how an address is judged, and why the checks made at
 different layers agree. Addresses are sequences of components.
 */
module Policy {
  import opened Wrappers
  import opened Identity
  import opened Cidr

  datatype Component =
    | Ip4(bits: nat)
    | Ip6(bits: nat)
    | Dns(name: string)
    | Dns4(name: string)
    | Dns6(name: string)
    | Dnsaddr(name: string)
    | Tcp(port: nat)
    | Udp(port: nat)
    | QuicV1
    | P2p(peer: PeerId)
    | P2pCircuit
    | OtherComponent(code: nat)

  type Multiaddr = seq<Component>

  predicate IsHost(c: Component) {
    c.Ip4? || c.Ip6? || c.Dns? || c.Dns4? || c.Dns6? || c.Dnsaddr?
  }

  // ── Comparing components ──

  function TrimDots(s: string): string {
    if s != [] && s[|s| - 1] == '.' then TrimDots(s[..|s| - 1]) else s
  }

  function AsciiLower(s: string): string {
    seq(|s|, i requires 0 <= i < |s| => if 'A' <= s[i] <= 'Z' then s[i] - 'A' + 'a' else s[i])
  }

  predicate DnsEq(a: string, b: string) {
    AsciiLower(TrimDots(a)) == AsciiLower(TrimDots(b))
  }

  predicate SameComponent(entry: Component, addr: Component) {
    match (entry, addr)
    case (Dns(a), Dns(b)) => DnsEq(a, b)
    case (Dns4(a), Dns4(b)) => DnsEq(a, b)
    case (Dns6(a), Dns6(b)) => DnsEq(a, b)
    case (Dnsaddr(a), Dnsaddr(b)) => DnsEq(a, b)
    case _ => entry == addr
  }

  // ── Entries ──

  datatype RawEntry =
    | Network(addr: IpAddr, prefix: nat)
    | Prefix(components: seq<Component>, pinned: Option<PeerId>)

  /** A parsed entry: a prefix length fits its family. */
  type AllowEntry = e: RawEntry | e.Network? ==> e.prefix <= e.addr.Width() witness Prefix([], None)

  /** How a peer pin is treated when the remote peer is not known. */
  datatype PeerPin = Enforce | Defer

  predicate PeerMatches(pinned: Option<PeerId>, peer: Option<PeerId>, pin: PeerPin) {
    match (pinned, peer)
    case (None, _) => true
    case (Some(w), Some(p)) => w == p
    case (Some(_), None) => pin.Defer?
  }

  predicate BeginsWith(addr: seq<Component>, components: seq<Component>) {
    && |components| <= |addr|
    && forall i :: 0 <= i < |components| ==> SameComponent(components[i], addr[i])
  }

  predicate Matches(e: AllowEntry, transport: seq<Component>, peer: Option<PeerId>, pin: PeerPin) {
    match e
    case Network(net, prefix) =>
      transport != [] && (
        match transport[0]
        case Ip4(bits) => NetworkContains(net, prefix, V4(bits))
        case Ip6(bits) => NetworkContains(net, prefix, V6(bits))
        case _ => false)
    case Prefix(components, pinned) =>
      BeginsWith(transport, components) && PeerMatches(pinned, peer, pin)
  }

  // ── Judging an address ──

  /** The position of the first `/p2p-circuit`, or the length. */
  function CircuitAt(addr: Multiaddr): (r: nat)
    ensures r <= |addr|
    ensures forall i :: 0 <= i < r ==> !addr[i].P2pCircuit?
    ensures r < |addr| ==> addr[r].P2pCircuit?
  {
    if addr == [] || addr[0].P2pCircuit? then 0 else 1 + CircuitAt(addr[1..])
  }

  predicate IsRelayed(addr: Multiaddr) {
    CircuitAt(addr) < |addr|
  }

  /** What is left of a segment without a final `/p2p`, and the peer to hold a pin against. */
  function TransportOf(segment: seq<Component>): seq<Component> {
    if segment != [] && segment[|segment| - 1].P2p? then segment[..|segment| - 1] else segment
  }

  function PeerOf(segment: seq<Component>, otherwise: Option<PeerId>): Option<PeerId> {
    if segment != [] && segment[|segment| - 1].P2p? then Some(segment[|segment| - 1].peer) else otherwise
  }

  predicate Judgeable(transport: seq<Component>) {
    && transport != []
    && IsHost(transport[0])
    && forall i :: 0 <= i < |transport| ==> !transport[i].P2p?
  }

  predicate SomeEntryMatches(entries: seq<AllowEntry>, transport: seq<Component>, peer: Option<PeerId>, pin: PeerPin) {
    exists i :: 0 <= i < |entries| && Matches(entries[i], transport, peer, pin)
  }

  /** A segment names its peer at its end, or leaves it to `otherwise`. */
  predicate JudgeSegment(entries: seq<AllowEntry>, segment: seq<Component>, otherwise: Option<PeerId>, pin: PeerPin) {
    && Judgeable(TransportOf(segment))
    && SomeEntryMatches(entries, TransportOf(segment), PeerOf(segment, otherwise), pin)
  }

  predicate Decide(entries: seq<AllowEntry>, addr: Multiaddr, hint: Option<PeerId>, pin: PeerPin) {
    JudgeSegment(entries, addr[..CircuitAt(addr)], if IsRelayed(addr) then None else hint, pin)
  }

  predicate Allows(entries: seq<AllowEntry>, addr: Multiaddr, hint: Option<PeerId>) {
    Decide(entries, addr, hint, Enforce)
  }

  lemma DirectDecision(entries: seq<AllowEntry>, addr: Multiaddr, hint: Option<PeerId>, pin: PeerPin)
    requires !IsRelayed(addr)
    ensures Decide(entries, addr, hint, pin) == JudgeSegment(entries, addr, hint, pin)
  {
    assert addr[..CircuitAt(addr)] == addr;
  }

  lemma NamedPeer(body: seq<Component>, p: PeerId)
    ensures TransportOf(body + [P2p(p)]) == body
    ensures forall o :: PeerOf(body + [P2p(p)], o) == Some(p)
  {
  }

  // ── The verdicts are ordered ──

  lemma MatchesMore(entries: seq<AllowEntry>, transport: seq<Component>, p: Option<PeerId>, pin: PeerPin,
                    p': Option<PeerId>, pin': PeerPin)
    requires forall e: AllowEntry :: Matches(e, transport, p, pin) ==> Matches(e, transport, p', pin')
    requires SomeEntryMatches(entries, transport, p, pin)
    ensures SomeEntryMatches(entries, transport, p', pin')
  {
    var i :| 0 <= i < |entries| && Matches(entries[i], transport, p, pin);
    assert Matches(entries[i], transport, p', pin');
  }

  /** What is allowed of an unknown peer is allowed of any, and what is allowed of some peer is not refused while the
      peer is unknown. So the check before a handshake never refuses what the check after it keeps, and a dial the
      transport let through is not refused once established. */
  lemma VerdictsAreOrdered(entries: seq<AllowEntry>, addr: Multiaddr, p: PeerId)
    ensures Allows(entries, addr, None) ==> Allows(entries, addr, Some(p))
    ensures Allows(entries, addr, Some(p)) ==> Decide(entries, addr, None, Defer)
  {
    var segment := addr[..CircuitAt(addr)];
    var t := TransportOf(segment);
    var relayed := IsRelayed(addr);
    var unknown, known := PeerOf(segment, None), PeerOf(segment, if relayed then None else Some(p));
    if Allows(entries, addr, None) {
      MatchesMore(entries, t, unknown, Enforce, known, Enforce);
    }
    if Allows(entries, addr, Some(p)) {
      MatchesMore(entries, t, known, Enforce, unknown, Defer);
    }
  }

  /** The deferred answer is no more generous than it has to be: for a direct address that names no peer it is yes
      exactly when some peer would be allowed. */
  lemma DeferredIffSomePeer(entries: seq<AllowEntry>, addr: Multiaddr)
    requires !IsRelayed(addr) && (addr != [] ==> !addr[|addr| - 1].P2p?)
    ensures Decide(entries, addr, None, Defer) <==> exists p :: Allows(entries, addr, Some(p))
  {
    assert addr[..CircuitAt(addr)] == addr;
    if Decide(entries, addr, None, Defer) {
      var i :| 0 <= i < |entries| && Matches(entries[i], addr, None, Defer);
      var p := if entries[i].Prefix? && entries[i].pinned.Some? then entries[i].pinned.value else 0;
      assert Matches(entries[i], addr, Some(p), Enforce);
      assert Allows(entries, addr, Some(p));
    }
    forall p | Allows(entries, addr, Some(p)) ensures Decide(entries, addr, None, Defer) {
      VerdictsAreOrdered(entries, addr, p);
    }
  }

  lemma CircuitIsAt(addr: Multiaddr, n: nat)
    requires n < |addr| && addr[n].P2pCircuit? && forall i :: 0 <= i < n ==> !addr[i].P2pCircuit?
    ensures CircuitAt(addr) == n
  {
  }

  lemma RelayPartStays(addr: Multiaddr, rest: seq<Component>)
    requires IsRelayed(addr)
    ensures var cut := addr[..CircuitAt(addr) + 1] + rest;
            IsRelayed(cut) && cut[..CircuitAt(cut)] == addr[..CircuitAt(addr)]
  {
    var cut := addr[..CircuitAt(addr) + 1] + rest;
    assert cut[CircuitAt(addr)] == addr[CircuitAt(addr)] && forall i :: 0 <= i < CircuitAt(addr) ==> cut[i] == addr[i];
    CircuitIsAt(cut, CircuitAt(addr));
  }

  /** A relayed address is judged by its relay part alone: nothing after the first circuit counts, and no peer hint. */
  lemma RelayPartDecides(entries: seq<AllowEntry>, addr: Multiaddr, rest: seq<Component>, h: Option<PeerId>,
                         h': Option<PeerId>, pin: PeerPin)
    requires IsRelayed(addr)
    ensures Decide(entries, addr[..CircuitAt(addr) + 1] + rest, h, pin) == Decide(entries, addr, h', pin)
  {
    RelayPartStays(addr, rest);
  }

  // ── What is listed is allowed ──

  /** A listed network, once its text is read: without a length it is one host, and host bits are cleared. */
  function ParseNetwork(addr: IpAddr, length: Option<nat>): Option<AllowEntry> {
    var prefix := if length.Some? then length.value else addr.Width();
    if prefix > addr.Width() then None else Some(Network(Mask(addr, prefix), prefix))
  }

  /** A listed address, once read: an optional final peer, then a host and optionally a port. */
  function ParsePrefix(all: Multiaddr): Option<AllowEntry> {
    var body := TransportOf(all);
    if IsRelayed(all) || body == [] || !IsHost(body[0]) || !PortPart(body[1..]) then None
    else Some(Prefix(body, PeerOf(all, None)))
  }

  lemma BodyAndPeer(segment: seq<Component>)
    ensures var peer := PeerOf(segment, None);
            segment == TransportOf(segment) + (if peer.Some? then [P2p(peer.value)] else [])
  {
  }

  lemma PortPartNamesNoPeer(body: seq<Component>)
    requires body != [] && IsHost(body[0]) && PortPart(body[1..])
    ensures Judgeable(body) && forall i :: 0 <= i < |body| ==> !body[i].P2pCircuit?
  {
    assert forall i :: 0 < i < |body| ==> body[i] == body[1..][i - 1];
  }

  /** An entry reads back as the address that was listed, and its components are ones a judged address can have. */
  lemma ParsedEntryReadsBack(listed: Multiaddr)
    requires ParsePrefix(listed).Some?
    ensures var e := ParsePrefix(listed).value;
            && e.Prefix? && Judgeable(e.components) && !IsRelayed(e.components)
            && listed == e.components + (if e.pinned.Some? then [P2p(e.pinned.value)] else [])
  {
    BodyAndPeer(listed);
    PortPartNamesNoPeer(TransportOf(listed));
  }

  /** Nothing, `/tcp/<port>`, `/udp/<port>` or `/udp/<port>/quic-v1`, with a port that is not zero. */
  predicate PortPart(rest: seq<Component>) {
    || rest == []
    || (|rest| == 1 && rest[0].Tcp? && rest[0].port != 0)
    || (|rest| == 1 && rest[0].Udp? && rest[0].port != 0)
    || (|rest| == 2 && rest[0].Udp? && rest[1].QuicV1? && rest[0].port != 0)
  }

  /** An address that is accepted as an entry is allowed by that entry, and so is anything reached by adding to it
      before a final peer: every port on a listed host, QUIC on a listed UDP port. */
  lemma ListedIsAllowed(listed: Multiaddr, more: seq<Component>, entries: seq<AllowEntry>)
    requires ParsePrefix(listed).Some? && ParsePrefix(listed).value in entries
    requires forall i :: 0 <= i < |more| ==> !more[i].P2p? && !more[i].P2pCircuit?
    ensures var e := ParsePrefix(listed).value;
            Allows(entries, e.components + more + (if e.pinned.Some? then [P2p(e.pinned.value)] else []), None)
  {
    var e := ParsePrefix(listed).value;
    ParsedEntryReadsBack(listed);
    var transport := e.components + more;
    var addr := transport + (if e.pinned.Some? then [P2p(e.pinned.value)] else []);
    assert CircuitAt(e.components) == |e.components|;
    assert forall i :: 0 <= i < |transport| ==> !transport[i].P2p? && !transport[i].P2pCircuit?;
    assert forall i :: 0 <= i < |addr| ==> !addr[i].P2pCircuit?;
    assert !IsRelayed(addr) && addr[..CircuitAt(addr)] == addr;
    assert TransportOf(addr) == transport;
    var i :| 0 <= i < |entries| && entries[i] == e;
    assert forall k :: 0 <= k < |e.components| ==> transport[k] == e.components[k];
    assert Matches(entries[i], transport, e.pinned, Enforce);
    assert PeerOf(addr, None) == e.pinned;
  }

  // ── Addresses built from admitted ones ──

  function WithoutPeers(addr: Multiaddr): (r: Multiaddr)
    ensures forall i :: 0 <= i < |r| ==> !r[i].P2p?
    ensures |r| <= |addr|
  {
    if addr == [] then []
    else
      var front, last := WithoutPeers(addr[..|addr| - 1]), addr[|addr| - 1];
      if last.P2p? then front else front + [last]
  }

  /** The address to listen on through a relay. */
  function CircuitListenAddr(base: Multiaddr, relay: PeerId): Multiaddr {
    if IsRelayed(base) then base else WithoutPeers(base) + [P2p(relay), P2pCircuit]
  }

  /** The loop that builds it. */
  method BuildCircuitListenAddr(base: Multiaddr, relay: PeerId) returns (result: Multiaddr)
    ensures result == CircuitListenAddr(base, relay)
  {
    var i := 0;
    while i < |base|
      invariant 0 <= i <= |base|
      invariant forall j :: 0 <= j < i ==> !base[j].P2pCircuit?
    {
      if base[i].P2pCircuit? {
        return base;
      }
      i := i + 1;
    }
    result, i := [], 0;
    while i < |base|
      invariant 0 <= i <= |base|
      invariant result == WithoutPeers(base[..i])
    {
      assert base[..i + 1][..i] == base[..i];
      if !base[i].P2p? {
        result := result + [base[i]];
      }
      i := i + 1;
    }
    assert base[..i] == base;
    result := result + [P2p(relay)];
    result := result + [P2pCircuit];
  }

  lemma {:induction false} WithoutPeersOf(addr: Multiaddr)
    ensures (forall i :: 0 <= i < |addr| ==> !addr[i].P2pCircuit?) ==>
              forall i :: 0 <= i < |WithoutPeers(addr)| ==> !WithoutPeers(addr)[i].P2pCircuit?
    ensures (forall i :: 0 <= i < |addr| ==> !addr[i].P2p?) ==> WithoutPeers(addr) == addr
  {
    if addr != [] {
      WithoutPeersOf(addr[..|addr| - 1]);
    }
  }

  /** Building twice changes nothing more, whichever relay is named. */
  lemma CircuitListenAddrIsIdempotent(base: Multiaddr, relay: PeerId, again: PeerId)
    ensures CircuitListenAddr(CircuitListenAddr(base, relay), again) == CircuitListenAddr(base, relay)
  {
    var built := CircuitListenAddr(base, relay);
    assert built != [] && IsRelayed(built) by {
      if !IsRelayed(base) {
        assert built[|built| - 1].P2pCircuit?;
      }
    }
  }

  lemma BuiltSegment(base: Multiaddr, relay: PeerId)
    requires !IsRelayed(base)
    ensures var built := CircuitListenAddr(base, relay);
            IsRelayed(built) && built[..CircuitAt(built)] == WithoutPeers(base) + [P2p(relay)]
    ensures !IsRelayed(WithoutPeers(base))
  {
    var body := WithoutPeers(base);
    var built := CircuitListenAddr(base, relay);
    WithoutPeersOf(base);
    var n := |body| + 1;
    assert built[n].P2pCircuit? && built[n - 1] == P2p(relay);
    assert forall i :: 0 <= i < |body| ==> built[i] == body[i];
    assert CircuitAt(built) == n;
  }

  /** The exact verdict on a built address: it is the verdict on the base with its peers taken out, for the relay. */
  lemma CircuitListenVerdict(entries: seq<AllowEntry>, base: Multiaddr, relay: PeerId, hint: Option<PeerId>)
    requires !IsRelayed(base)
    ensures Allows(entries, CircuitListenAddr(base, relay), hint) == Allows(entries, WithoutPeers(base), Some(relay))
  {
    var body := WithoutPeers(base);
    BuiltSegment(base, relay);
    NamedPeer(body, relay);
    DirectDecision(entries, body, Some(relay), Enforce);
    assert TransportOf(body) == body;
  }

  /** So an admitted relay base that names no peer, or the relay itself, gives an allowed listen address. */
  lemma AdmittedBaseGivesAllowedCircuit(entries: seq<AllowEntry>, base: Multiaddr, relay: PeerId)
    requires !IsRelayed(base) && Allows(entries, base, Some(relay))
    requires base != [] && base[|base| - 1].P2p? ==> base[|base| - 1].peer == relay
    ensures Allows(entries, CircuitListenAddr(base, relay), None)
  {
    CircuitListenVerdict(entries, base, relay, None);
    AdmittedIsBodyForPeer(entries, base, relay);
  }

  /** A judgeable address has a peer only at its end. */
  lemma PeerOnlyAtTheEnd(addr: Multiaddr)
    requires !IsRelayed(addr) && Judgeable(TransportOf(addr))
    ensures addr != [] && WithoutPeers(addr) == TransportOf(addr) && !IsRelayed(TransportOf(addr))
  {
    var body := TransportOf(addr);
    WithoutPeersOf(body);
    assert forall i :: 0 <= i < |body| ==> body[i] == addr[i];
  }

  /** So judging an admitted direct address is judging its body for that peer. */
  lemma AdmittedIsBodyForPeer(entries: seq<AllowEntry>, addr: Multiaddr, hint: PeerId)
    requires !IsRelayed(addr) && Allows(entries, addr, Some(hint))
    ensures addr != [] && !IsRelayed(WithoutPeers(addr))
    ensures Allows(entries, WithoutPeers(addr), Some(if addr[|addr| - 1].P2p? then addr[|addr| - 1].peer else hint))
  {
    DirectDecision(entries, addr, Some(hint), Enforce);
    PeerOnlyAtTheEnd(addr);
    var body := TransportOf(addr);
    var peer := if addr[|addr| - 1].P2p? then addr[|addr| - 1].peer else hint;
    DirectDecision(entries, body, Some(peer), Enforce);
    assert TransportOf(body) == body;
  }

  lemma PinnedPrefixVerdict(host: Multiaddr, pinned: PeerId, peer: PeerId)
    requires Judgeable(host) && !IsRelayed(host)
    ensures Allows([Prefix(host, Some(pinned))], host, Some(peer)) <==> pinned == peer
  {
    var entries: seq<AllowEntry> := [Prefix(host, Some(pinned))];
    DirectDecision(entries, host, Some(peer), Enforce);
    assert TransportOf(host) == host;
    assert Matches(entries[0], host, Some(peer), Enforce) <==> pinned == peer;
  }

  /** A mismatched peer is the exception: for every listed host, the base that names the pinned peer is admitted, and
      the listen address rewritten for another relay is refused. */
  lemma MismatchedBaseIsRefused(host: Multiaddr, pinned: PeerId, relay: PeerId)
    requires Judgeable(host) && !IsRelayed(host) && pinned != relay
    ensures var entries: seq<AllowEntry> := [Prefix(host, Some(pinned))];
            && Allows(entries, host + [P2p(pinned)], Some(relay))
            && !Allows(entries, CircuitListenAddr(host + [P2p(pinned)], relay), None)
  {
    var entries: seq<AllowEntry> := [Prefix(host, Some(pinned))];
    var base := host + [P2p(pinned)];
    assert !IsRelayed(base) by {
      assert forall i :: 0 <= i < |base| ==> !base[i].P2pCircuit?;
    }
    NamedPeer(host, pinned);
    DirectDecision(entries, base, Some(relay), Enforce);
    PinnedPrefixVerdict(host, pinned, pinned);
    DirectDecision(entries, host, Some(pinned), Enforce);
    CircuitListenVerdict(entries, base, relay, None);
    PeerOnlyAtTheEnd(base);
    PinnedPrefixVerdict(host, pinned, relay);
  }

  // ── The direct-dial shortcut ──

  /** The addresses a peer advertised that the policy admits, in the order advertised. */
  function AdmittedListenAddrs(entries: seq<AllowEntry>, peer: PeerId, advertised: seq<Multiaddr>): (r: seq<Multiaddr>)
    ensures forall a :: a in r <==> a in advertised && Allows(entries, a, Some(peer))
  {
    if advertised == [] then []
    else if Allows(entries, advertised[0], Some(peer))
    then [advertised[0]] + AdmittedListenAddrs(entries, peer, advertised[1..])
    else AdmittedListenAddrs(entries, peer, advertised[1..])
  }

  predicate DialableIp4(bits: nat) {
    var o0, o1 := bits / 0x1000000, bits / 0x10000 % 0x100;
    && o0 != 127
    && !(o0 == 169 && o1 == 254)
    && bits != 0
    && o0 != 10
    && !(o0 == 172 && 16 <= o1 <= 31)
    && !(o0 == 192 && o1 == 168)
    && !(o0 == 100 && 64 <= o1 <= 127)
  }

  predicate DialableIp6(bits: nat) {
    var segment := bits / 0x1_0000_0000_0000_0000_0000_0000_0000;
    && bits != 1
    && bits != 0
    && BitAnd(segment, 0xffc0) != 0xfe80
    && BitAnd(segment, 0xfe00) != 0xfc00
  }

  /** The first component that settles it: a host decides, and no host at all is no. */
  predicate DialableOverWan(addr: Multiaddr) {
    addr != [] && (
      match addr[0]
      case Ip4(bits) => DialableIp4(bits)
      case Ip6(bits) => DialableIp6(bits)
      case Dns(_) => true
      case Dns4(_) => true
      case Dns6(_) => true
      case Dnsaddr(_) => true
      case _ => DialableOverWan(addr[1..]))
  }

  predicate HasPeer(addr: Multiaddr) {
    exists i :: 0 <= i < |addr| && addr[i].P2p?
  }

  predicate Candidate(addr: Multiaddr) {
    DialableOverWan(addr) && !IsRelayed(addr)
  }

  /** The first usable listen address, with the peer named. */
  method PickDirectDialCandidate(listenAddrs: seq<Multiaddr>, peer: PeerId) returns (r: Option<Multiaddr>)
    ensures r.None? <==> forall i :: 0 <= i < |listenAddrs| ==> !Candidate(listenAddrs[i])
    ensures r.Some? ==> exists i :: 0 <= i < |listenAddrs| && Candidate(listenAddrs[i])
                                    && (forall j :: 0 <= j < i ==> !Candidate(listenAddrs[j]))
                                    && r.value == listenAddrs[i] + (if HasPeer(listenAddrs[i]) then [] else [P2p(peer)])
  {
    var i := 0;
    while i < |listenAddrs|
      invariant 0 <= i <= |listenAddrs|
      invariant forall j :: 0 <= j < i ==> !Candidate(listenAddrs[j])
    {
      var addr := listenAddrs[i];
      if DialableOverWan(addr) && !IsRelayed(addr) {
        if HasPeer(addr) {
          assert addr + [] == addr;
          return Some(addr);
        }
        return Some(addr + [P2p(peer)]);
      }
      i := i + 1;
    }
    r := None;
  }

  /** Whatever the shortcut picks from admitted addresses, the transport lets it be dialed. */
  lemma PickedCandidateMayBeDialed(entries: seq<AllowEntry>, addr: Multiaddr, peer: PeerId)
    requires Allows(entries, addr, Some(peer)) && !IsRelayed(addr)
    ensures Allows(entries, addr + (if HasPeer(addr) then [] else [P2p(peer)]), None)
  {
    assert addr[..CircuitAt(addr)] == addr;
    if HasPeer(addr) {
      assert addr + [] == addr;
      assert addr[|addr| - 1].P2p?;
    } else {
      var dialed := addr + [P2p(peer)];
      assert forall i :: 0 <= i < |dialed| ==> !dialed[i].P2pCircuit?;
      assert !IsRelayed(dialed) && dialed[..CircuitAt(dialed)] == dialed;
      assert TransportOf(dialed) == addr == TransportOf(addr);
    }
  }

  /** The two steps together, over every advertisement. */
  method DirectDialCandidate(entries: seq<AllowEntry>, advertised: seq<Multiaddr>, peer: PeerId)
    returns (r: Option<Multiaddr>)
    ensures r.Some? ==> Allows(entries, r.value, None)
    ensures r.None? <==> forall a | a in advertised && Allows(entries, a, Some(peer)) :: !Candidate(a)
  {
    var admitted := AdmittedListenAddrs(entries, peer, advertised);
    r := PickDirectDialCandidate(admitted, peer);
    if r.Some? {
      ghost var i :| 0 <= i < |admitted| && Candidate(admitted[i])
                     && r.value == admitted[i] + (if HasPeer(admitted[i]) then [] else [P2p(peer)]);
      assert admitted[i] in admitted;
      PickedCandidateMayBeDialed(entries, admitted[i], peer);
    }
  }
}
