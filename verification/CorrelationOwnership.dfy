/**
 Whose answer is it? A world of requests on the wire, some sharing an id, each ending in at most one terminal event
 within a bounded time of being sent. The swarm sees only the ids. Whatever it surfaces is nevertheless about the
 request that caused the event, provided the bound is below the time a record is kept, and only then.
 */
module CorrelationOwnership {
  import opened Wrappers
  import opened Identity
  import opened Correlation

  /** A request on the wire, known to the environment by its position in the order of sending. */
  datatype Sent = Sent(key: OutboundKey, peer: PeerId, kind: RequestKind, at: nat)

  datatype World = World(slots: Slots, now: nat, sent: seq<Sent>, ended: set<int>)

  /** What happens; `queued` says that the queue to the consumer has room for what the event may surface. */
  datatype Event =
    | Send(key: OutboundKey, peer: PeerId, kind: RequestKind)
    | AnswerArrives(request: nat, from: PeerId, response: Response, queued: bool)
    | FailureArrives(request: nat, from: PeerId, queued: bool)
    | ReaperTicks
    | TimePasses(elapsed: nat)

  datatype Surfaced = Nothing | ResponseOf(origin: Origin) | FailureOf(origin: Origin)

  const Start := World(map[], 0, [], {})

  /** A terminal event can still come for the request. */
  ghost predicate Open(w: World, request: int, latency: nat) {
    && 0 <= request < |w.sent|
    && request !in w.ended
    && w.now - w.sent[request].at <= latency
  }

  /** What the environment may do: ids may be reissued at will, but a request goes out on its own protocol's behaviour
      and ends at most once, at most `latency` after it was sent. */
  ghost predicate Allowed(w: World, e: Event, latency: nat) {
    match e
    case Send(key, _, kind) => kind.Protocol() == key.domain.Protocol()
    case AnswerArrives(r, _, _, _) => Open(w, r, latency)
    case FailureArrives(r, _, _) => Open(w, r, latency)
    case ReaperTicks => true
    case TimePasses(_) => true
  }

  function Next(w: World, e: Event): World {
    match e
    case Send(key, peer, kind) =>
      w.(slots := RecordSlots(w.slots, key, peer, kind, w.now), sent := w.sent + [Sent(key, peer, kind, w.now)])
    case AnswerArrives(r, _, _, _) =>
      if r < |w.sent| then w.(slots := SpendSlots(w.slots, w.sent[r].key), ended := w.ended + {r}) else w
    case FailureArrives(r, _, _) =>
      if r < |w.sent| then w.(slots := SpendSlots(w.slots, w.sent[r].key), ended := w.ended + {r}) else w
    case ReaperTicks => w.(slots := ReapSlots(w.slots, w.now, OUTBOUND_RECORD_TTL))
    case TimePasses(elapsed) => w.(now := w.now + elapsed)
  }

  /** What the swarm passes on: an accepted response, or a failure whose peer agrees with the record, and either only
      while the queue has room for it. */
  function Surfaces(w: World, e: Event): Surfaced {
    match e
    case AnswerArrives(r, from, response, queued) =>
      if r >= |w.sent| || !queued then Nothing
      else (match ResponseOutcome(w.slots, w.sent[r].key, from, response)
            case Accepted(origin) => ResponseOf(origin)
            case Rejected(_) => Nothing)
    case FailureArrives(r, from, queued) =>
      if r >= |w.sent| || !queued then Nothing
      else (match FailureOutcome(w.slots, w.sent[r].key)
            case Retained(origin) => if origin.peer == from then FailureOf(origin) else Nothing
            case Unknown => Nothing
            case PoisonedKey => Nothing)
    case _ => Nothing
  }

  function IdentityOf(s: Sent): Origin {
    Origin(s.peer, s.kind)
  }

  /** What is surfaced carries the identity of the request the event is about. */
  ghost predicate RightlyAttributed(w: World, e: Event) {
    match e
    case AnswerArrives(r, _, _, _) => r < |w.sent| && Surfaces(w, e).ResponseOf? ==>
      Surfaces(w, e).origin == IdentityOf(w.sent[r])
    case FailureArrives(r, _, _) => r < |w.sent| && Surfaces(w, e).FailureOf? ==>
      Surfaces(w, e).origin == IdentityOf(w.sent[r])
    case _ => true
  }

  ghost predicate SoundRun(w: World, events: seq<Event>, latency: nat)
    decreases |events|
  {
    events == [] || (Allowed(w, events[0], latency) ==>
                       RightlyAttributed(w, events[0]) && SoundRun(Next(w, events[0]), events[1..], latency))
  }

  // ── The invariant ──

  ghost predicate HeldBy(slot: Slot, s: Sent) {
    match slot
    case Pending(peer, kind, issuedAt) => peer == s.peer && kind == s.kind && issuedAt == s.at
    case Poisoned(at, _, _) => s.at <= at
  }

  /** Every open request is held by its key's slot: as the one pending record there, or under a poison no older than
      its own sending, and under a poison if it shares the key with another open request. */
  ghost predicate OpenRequestsAreHeld(w: World, latency: nat) {
    && (forall r :: 0 <= r < |w.sent| ==> w.sent[r].at <= w.now)
    && (forall key | key in w.slots && w.slots[key].Poisoned? :: w.slots[key].at <= w.now)
    && (forall r :: Open(w, r, latency) ==> w.sent[r].key in w.slots && HeldBy(w.slots[w.sent[r].key], w.sent[r]))
    && (forall q, r :: Open(w, q, latency) && Open(w, r, latency) && q != r && w.sent[q].key == w.sent[r].key ==>
          w.slots[w.sent[q].key].Poisoned?)
  }

  lemma SendKeepsHeld(w: World, key: OutboundKey, peer: PeerId, kind: RequestKind, latency: nat)
    requires OpenRequestsAreHeld(w, latency)
    requires kind.Protocol() == key.domain.Protocol()
    ensures OpenRequestsAreHeld(Next(w, Send(key, peer, kind)), latency)
  {
    var w' := Next(w, Send(key, peer, kind));
    var n := |w.sent|;
    forall r | Open(w', r, latency) ensures w'.sent[r].key in w'.slots && HeldBy(w'.slots[w'.sent[r].key], w'.sent[r]) {
      assert r == n || Open(w, r, latency);
    }
    forall q, r | Open(w', q, latency) && Open(w', r, latency) && q != r && w'.sent[q].key == w'.sent[r].key
      ensures w'.slots[w'.sent[q].key].Poisoned?
    {
      assert q == n || Open(w, q, latency);
      assert r == n || Open(w, r, latency);
    }
  }

  lemma EndKeepsHeld(w: World, r: int, latency: nat)
    requires OpenRequestsAreHeld(w, latency) && Open(w, r, latency)
    ensures OpenRequestsAreHeld(w.(slots := SpendSlots(w.slots, w.sent[r].key), ended := w.ended + {r}), latency)
  {
    var w' := w.(slots := SpendSlots(w.slots, w.sent[r].key), ended := w.ended + {r});
    forall q | Open(w', q, latency) ensures w'.sent[q].key in w'.slots && HeldBy(w'.slots[w'.sent[q].key], w'.sent[q]) {
      assert Open(w, q, latency);
    }
    forall p, q | Open(w', p, latency) && Open(w', q, latency) && p != q && w'.sent[p].key == w'.sent[q].key
      ensures w'.slots[w'.sent[p].key].Poisoned?
    {
      assert Open(w, p, latency) && Open(w, q, latency);
    }
  }

  /** The reaper frees no slot that an event can still come for: a pending record is too young or its request is past
      its time, and a poison is younger than any collider's last moment. */
  lemma ReaperKeepsHeld(w: World, latency: nat)
    requires OpenRequestsAreHeld(w, latency) && latency < OUTBOUND_RECORD_TTL
    ensures OpenRequestsAreHeld(Next(w, ReaperTicks), latency)
  {
    var w' := Next(w, ReaperTicks);
    forall r | Open(w', r, latency) ensures w'.sent[r].key in w'.slots && HeldBy(w'.slots[w'.sent[r].key], w'.sent[r]) {
      assert Open(w, r, latency);
      assert Survives(w.slots[w.sent[r].key], w.now, OUTBOUND_RECORD_TTL);
    }
    forall q, r | Open(w', q, latency) && Open(w', r, latency) && q != r && w'.sent[q].key == w'.sent[r].key
      ensures w'.slots[w'.sent[q].key].Poisoned?
    {
      assert Open(w, q, latency) && Open(w, r, latency);
    }
  }

  lemma TimeKeepsHeld(w: World, elapsed: nat, latency: nat)
    requires OpenRequestsAreHeld(w, latency)
    ensures OpenRequestsAreHeld(Next(w, TimePasses(elapsed)), latency)
  {
    var w' := Next(w, TimePasses(elapsed));
    assert forall r :: Open(w', r, latency) ==> Open(w, r, latency);
  }

  lemma NextKeepsHeld(w: World, e: Event, latency: nat)
    requires OpenRequestsAreHeld(w, latency) && Allowed(w, e, latency) && latency < OUTBOUND_RECORD_TTL
    ensures OpenRequestsAreHeld(Next(w, e), latency)
  {
    match e
    case Send(key, peer, kind) => SendKeepsHeld(w, key, peer, kind, latency);
    case AnswerArrives(r, _, _, _) => EndKeepsHeld(w, r, latency);
    case FailureArrives(r, _, _) => EndKeepsHeld(w, r, latency);
    case ReaperTicks => ReaperKeepsHeld(w, latency);
    case TimePasses(elapsed) => TimeKeepsHeld(w, elapsed, latency);
  }

  /** In a world whose open requests are held, an answer is surfaced exactly when its request's key is not poisoned, it
      comes from the peer that was asked, it answers what was asked, and the queue has room; and it is surfaced as the
      answer to that. */
  lemma SurfacedIff(w: World, r: int, from: PeerId, response: Response, queued: bool, latency: nat)
    requires OpenRequestsAreHeld(w, latency) && Open(w, r, latency)
    ensures var s := w.sent[r];
            Surfaces(w, AnswerArrives(r, from, response, queued))
            == if w.slots[s.key].Pending? && from == s.peer && CheckResponse(s.kind, response).Answers? && queued
               then ResponseOf(IdentityOf(s)) else Nothing
  {
  }

  /** And so is a failure: in such a world it is surfaced exactly when its request's key is not poisoned, the peer it
      names is the one asked, and the queue has room; and it is surfaced as the failure of that request. */
  lemma FailureSurfacedIff(w: World, r: int, from: PeerId, queued: bool, latency: nat)
    requires OpenRequestsAreHeld(w, latency) && Open(w, r, latency)
    ensures var s := w.sent[r];
            Surfaces(w, FailureArrives(r, from, queued))
            == if w.slots[s.key].Pending? && from == s.peer && queued then FailureOf(IdentityOf(s)) else Nothing
  {
  }

  lemma {:induction false} HeldRunsAreSound(w: World, events: seq<Event>, latency: nat)
    requires OpenRequestsAreHeld(w, latency) && latency < OUTBOUND_RECORD_TTL
    ensures SoundRun(w, events, latency)
    decreases |events|
  {
    if events != [] && Allowed(w, events[0], latency) {
      NextKeepsHeld(w, events[0], latency);
      HeldRunsAreSound(Next(w, events[0]), events[1..], latency);
      assert RightlyAttributed(w, events[0]) by {
        match events[0]
        case AnswerArrives(r, _, _, _) => assert HeldBy(w.slots[w.sent[r].key], w.sent[r]);
        case FailureArrives(r, _, _) => assert HeldBy(w.slots[w.sent[r].key], w.sent[r]);
        case _ =>
      }
    }
  }

  // ── The exact condition ──

  /** An event a record's whole lifetime late is surfaced as being about the next request under the id. */
  lemma LateEventsAreMisattributed(latency: nat) returns (events: seq<Event>)
    requires latency >= OUTBOUND_RECORD_TTL
    ensures !SoundRun(Start, events, latency)
  {
    var key := OutboundKey(ShardXferV1, 0);
    var e0, e1, e2 := Send(key, 0, V1Chunk("a")), TimePasses(OUTBOUND_RECORD_TTL), ReaperTicks;
    var e3, e4 := Send(key, 0, V1Chunk("b")), FailureArrives(0, 0, true);
    var w1 := Next(Start, e0);
    var w2 := Next(w1, e1);
    var w3 := Next(w2, e2);
    var w4 := Next(w3, e3);
    assert w2.slots == map[key := Pending(0, V1Chunk("a"), 0)];
    assert w3.slots == map[];
    assert w4.slots == map[key := Pending(0, V1Chunk("b"), OUTBOUND_RECORD_TTL)];
    assert Open(w4, 0, latency);
    assert Surfaces(w4, e4) == FailureOf(Origin(0, V1Chunk("b")));
    assert IdentityOf(w4.sent[0]) == Origin(0, V1Chunk("a"));
    assert ("a")[0] != ("b")[0];
    assert !RightlyAttributed(w4, e4);
    NotSoundStep(w4, e4, [], latency);
    NotSoundStep(w3, e3, [e4], latency);
    NotSoundStep(w2, e2, [e3] + [e4], latency);
    NotSoundStep(w1, e1, [e2] + ([e3] + [e4]), latency);
    NotSoundStep(Start, e0, [e1] + ([e2] + ([e3] + [e4])), latency);
    events := [e0] + ([e1] + ([e2] + ([e3] + [e4])));
  }

  lemma NotSoundStep(w: World, e: Event, rest: seq<Event>, latency: nat)
    requires Allowed(w, e, latency)
    requires RightlyAttributed(w, e) ==> !SoundRun(Next(w, e), rest, latency)
    ensures !SoundRun(w, [e] + rest, latency)
  {
    assert ([e] + rest)[0] == e && ([e] + rest)[1..] == rest;
  }

  /** Attribution is right in every run, ids reissued or not, if and only if terminal events come sooner after their
      request than a record is kept. */
  lemma SoundIff(latency: nat)
    ensures (forall events :: SoundRun(Start, events, latency)) <==> latency < OUTBOUND_RECORD_TTL
  {
    if latency < OUTBOUND_RECORD_TTL {
      forall events ensures SoundRun(Start, events, latency) {
        HeldRunsAreSound(Start, events, latency);
      }
    } else {
      var events := LateEventsAreMisattributed(latency);
    }
  }

  /** As configured, every run is sound. */
  lemma ConfiguredSwarmIsSound(events: seq<Event>)
    ensures SoundRun(Start, events, SHARD_XFER_REQUEST_TIMEOUT)
  {
    HeldRunsAreSound(Start, events, SHARD_XFER_REQUEST_TIMEOUT);
  }

  // ── And nothing answerable is lost ──

  function WorldAfter(events: seq<Event>): World {
    if events == [] then Start else Next(WorldAfter(events[..|events| - 1]), events[|events| - 1])
  }

  ghost predicate AllAllowed(events: seq<Event>, latency: nat) {
    events == [] || (
      && AllAllowed(events[..|events| - 1], latency)
      && Allowed(WorldAfter(events[..|events| - 1]), events[|events| - 1], latency))
  }

  /** Some request was sent under the key, and two were if `twice`. */
  ghost predicate Issued(sent: seq<Sent>, key: OutboundKey, twice: bool) {
    exists q, r :: 0 <= q < |sent| && 0 <= r < |sent| && sent[q].key == key && sent[r].key == key && (twice ==> q != r)
  }

  lemma IssuedStays(sent: seq<Sent>, s: Sent, key: OutboundKey, twice: bool)
    requires Issued(sent, key, twice)
    ensures Issued(sent + [s], key, twice)
    ensures s.key == key ==> Issued(sent + [s], key, true)
  {
    var q, r :| 0 <= q < |sent| && 0 <= r < |sent| && sent[q].key == key && sent[r].key == key && (twice ==> q != r);
    assert (sent + [s])[q].key == key && (sent + [s])[r].key == key;
    assert (sent + [s])[|sent|] == s;
  }

  /** A slot stands for a request that was sent, and a poison for two of them. */
  ghost predicate SlotsAreEarned(w: World) {
    forall key | key in w.slots :: Issued(w.sent, key, w.slots[key].Poisoned?)
  }

  lemma SendKeepsEarned(w: World, key: OutboundKey, peer: PeerId, kind: RequestKind)
    requires SlotsAreEarned(w)
    ensures SlotsAreEarned(Next(w, Send(key, peer, kind)))
  {
    var w' := Next(w, Send(key, peer, kind));
    var s := Sent(key, peer, kind, w.now);
    forall k | k in w'.slots ensures Issued(w'.sent, k, w'.slots[k].Poisoned?) {
      if k in w.slots {
        IssuedStays(w.sent, s, k, w.slots[k].Poisoned?);
      } else {
        assert w'.sent[|w.sent|].key == k;
      }
    }
  }

  lemma NextKeepsEarned(w: World, e: Event)
    requires SlotsAreEarned(w)
    ensures SlotsAreEarned(Next(w, e))
  {
    if e.Send? {
      SendKeepsEarned(w, e.key, e.peer, e.kind);
    }
  }

  /** Both invariants hold after every run. */
  lemma {:induction false} EveryWorldHolds(events: seq<Event>, latency: nat)
    requires AllAllowed(events, latency) && latency < OUTBOUND_RECORD_TTL
    ensures OpenRequestsAreHeld(WorldAfter(events), latency) && SlotsAreEarned(WorldAfter(events))
  {
    if events != [] {
      var before, e := events[..|events| - 1], events[|events| - 1];
      EveryWorldHolds(before, latency);
      NextKeepsHeld(WorldAfter(before), e, latency);
      NextKeepsEarned(WorldAfter(before), e);
    }
  }

  /** The request's id was never issued to another. */
  ghost predicate Alone(w: World, r: int) {
    && 0 <= r < |w.sent|
    && forall q :: 0 <= q < |w.sent| && q != r ==> w.sent[q].key != w.sent[r].key
  }

  lemma AloneIsUnpoisoned(w: World, r: int)
    requires SlotsAreEarned(w) && Alone(w, r) && w.sent[r].key in w.slots
    ensures w.slots[w.sent[r].key].Pending?
  {
    assert forall p, q | 0 <= p < |w.sent| && 0 <= q < |w.sent| && p != q ::
        !(w.sent[p].key == w.sent[r].key && w.sent[q].key == w.sent[r].key);
  }

  /** A request whose id was never issued to another: its answer, from the peer it was sent to, is surfaced as its own
      however long the run and whatever the reaper did, if and only if the queue has room for it. */
  lemma AloneIsAnswered(events: seq<Event>, latency: nat, r: int, response: Response, queued: bool)
    requires AllAllowed(events, latency) && latency < OUTBOUND_RECORD_TTL
    requires Open(WorldAfter(events), r, latency)
    requires var w := WorldAfter(events); Alone(w, r) && CheckResponse(w.sent[r].kind, response).Answers?
    ensures var w := WorldAfter(events);
            Surfaces(w, AnswerArrives(r, w.sent[r].peer, response, queued))
            == if queued then ResponseOf(IdentityOf(w.sent[r])) else Nothing
  {
    EveryWorldHolds(events, latency);
    var w := WorldAfter(events);
    AloneIsUnpoisoned(w, r);
    SurfacedIff(w, r, w.sent[r].peer, response, queued, latency);
  }

  /** Its failure, too, from the peer it was sent to, is surfaced as its own, if and only if the queue has room. */
  lemma AloneFailureIsHeard(events: seq<Event>, latency: nat, r: int, queued: bool)
    requires AllAllowed(events, latency) && latency < OUTBOUND_RECORD_TTL
    requires Open(WorldAfter(events), r, latency)
    requires Alone(WorldAfter(events), r)
    ensures var w := WorldAfter(events);
            Surfaces(w, FailureArrives(r, w.sent[r].peer, queued))
            == if queued then FailureOf(IdentityOf(w.sent[r])) else Nothing
  {
    EveryWorldHolds(events, latency);
    var w := WorldAfter(events);
    AloneIsUnpoisoned(w, r);
    FailureSurfacedIff(w, r, w.sent[r].peer, queued, latency);
  }
}
