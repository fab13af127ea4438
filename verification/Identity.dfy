/** Who is who on the network and on the chain. */
module Identity {
  import opened Wrappers

  // A libp2p peer id; only equality matters.
  type PeerId = nat

  // An L1 address: twenty bytes read as one big-endian number, so `<` is the byte order.
  type Address = nat

  /** Looking a peer up by address, over the peers known: where two claim one address, either may be found. */
  ghost predicate Inverts(addrToPeer: map<Address, PeerId>, peers: map<PeerId, Address>) {
    && addrToPeer.Keys == peers.Values
    && forall a | a in addrToPeer :: addrToPeer[a] in peers && peers[addrToPeer[a]] == a
  }

  lemma InverseExists(peers: map<PeerId, Address>) returns (m: map<Address, PeerId>)
    ensures Inverts(m, peers)
  {
    m := map a | a in peers.Values :: var p :| p in peers && peers[p] == a; p;
  }

  // ── What is known of a peer ──

  datatype PeerNews = Identified(peer: PeerId, address: Address) | Disconnected(peer: PeerId) | NoNews

  /** The address a peer last identified as, if it has not disconnected since; `start` is who was known at first. */
  function LastIdentity(p: PeerId, start: map<PeerId, Address>, news: seq<PeerNews>): Option<Address> {
    if news == [] then if p in start then Some(start[p]) else None
    else
      var before := LastIdentity(p, start, news[..|news| - 1]);
      match news[|news| - 1]
      case Identified(q, a) => if q == p then Some(a) else before
      case Disconnected(q) => if q == p then None else before
      case NoNews => before
  }

  lemma LastIdentityGrows(p: PeerId, start: map<PeerId, Address>, news: seq<PeerNews>, next: PeerNews)
    ensures LastIdentity(p, start, news + [next])
            == match next
               case Identified(q, a) => if q == p then Some(a) else LastIdentity(p, start, news)
               case Disconnected(q) => if q == p then None else LastIdentity(p, start, news)
               case NoNews => LastIdentity(p, start, news)
  {
    assert (news + [next])[..|news|] == news;
  }

  /** The map holds exactly that of every peer. */
  ghost predicate KeepsUp(peers: map<PeerId, Address>, start: map<PeerId, Address>, news: seq<PeerNews>) {
    forall p :: LastIdentity(p, start, news) == if p in peers then Some(peers[p]) else None
  }
}
