/**
 Which archives a push has to reach, and when they have all been identified.
 */
module PeerDiscovery {
  import opened Wrappers
  import opened Identity
  import opened Assignment

  /** Every early exit returns what the plain union would. `rankingOf` is the chain's own function. */
  method RequiredArchives(snapshot: seq<Address>, chunks: seq<nat>, r: nat, rankingOf: nat -> seq<Address>)
    returns (required: set<Address>)
    requires forall c :: TopOf(rankingOf(c), ToSet(snapshot), r)
    ensures required == Union(rankingOf, chunks)
  {
    var all := ToSet(snapshot);
    UnionAtTheEnds(rankingOf, all, chunks, r);
    if chunks == [] || r == 0 {
      return {};
    }
    if r >= |all| {
      return all;
    }
    required := {};
    for i := 0 to |chunks|
      invariant required == Union(rankingOf, chunks[..i])
    {
      required := required + ToSet(rankingOf(chunks[i]));
      UnionGrows(rankingOf, chunks, i);
      if |required| == |all| {
        FullUnionStays(rankingOf, all, chunks, i + 1);
        return;
      }
    }
    assert chunks[..|chunks|] == chunks;
  }

  // ── Waiting for them ──

  datatype Status = Complete | Waiting(missingCount: nat) | TimedOut(missing: set<Address>)

  /** Some connected peer is identified as this archive. */
  ghost predicate Reachable(archive: Address, events: seq<PeerNews>) {
    exists p :: LastIdentity(p, map[], events) == Some(archive)
  }

  class ArchiveDiscovery {
    const required: set<Address>
    const deadline: nat
    var live: map<PeerId, Address>
    ghost var seen: seq<PeerNews>

    ghost predicate Valid()
      reads this
    {
      KeepsUp(live, map[], seen)
    }

    constructor (required: set<Address>, deadline: nat)
      ensures Valid() && this.required == required && this.deadline == deadline && seen == []
    {
      this.required, this.deadline, live, seen := required, deadline, map[], [];
    }

    method Observe(event: PeerNews) returns (changed: bool)
      requires Valid()
      modifies this
      ensures Valid() && seen == old(seen) + [event]
      ensures live != old(live) ==> changed
      ensures changed
              <==> event.Identified? || (event.Disconnected? && LastIdentity(event.peer, map[], old(seen)).Some?)
    {
      assert (seen + [event])[..|seen|] == seen;
      seen := seen + [event];
      match event
      case Identified(p, a) =>
        live := live[p := a];
        changed := true;
      case Disconnected(p) =>
        changed := p in live;
        live := live - {p};
      case NoNews =>
        changed := false;
    }

    function Missing(): set<Address>
      reads this
    {
      required - live.Values
    }

    /** Complete exactly when every required archive is reachable, even at or after the deadline; otherwise timed out
        exactly from the deadline on, naming the archives that are not. */
    method GetStatus(now: nat) returns (status: Status)
      requires Valid()
      ensures status.Complete? <==> forall a | a in required :: Reachable(a, seen)
      ensures status.TimedOut? <==> !status.Complete? && now >= deadline
      ensures status.TimedOut? ==> forall a :: a in status.missing <==> a in required && !Reachable(a, seen)
      ensures status.Waiting? ==> status.missingCount == |Missing()| > 0
    {
      MissingIff();
      var missing := Missing();
      if missing == {} {
        assert forall a | a in required :: a !in missing;
        return Complete;
      }
      var a :| a in missing;
      if now >= deadline {
        return TimedOut(missing);
      }
      return Waiting(|missing|);
    }

    lemma MissingIff()
      requires Valid()
      ensures forall a :: a in Missing() <==> a in required && !Reachable(a, seen)
    {
      forall a ensures a in live.Values <==> Reachable(a, seen) {
        if a in live.Values {
          var p :| p in live && live[p] == a;
          assert LastIdentity(p, map[], seen) == Some(a);
        }
      }
    }
  }
}
