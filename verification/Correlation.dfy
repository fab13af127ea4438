/**
 Outbound request correlation: what was asked is filed when a request is sent, under the id libp2p gave it and the
 behaviour that gave it, and an answer is accepted only as the answer to what is filed. An id claimed twice while
 occupied is poisoned, since no answer to it can be attributed.
 */
module Correlation {
  import opened Wrappers
  import opened Identity

  type Root = nat

  datatype Protocol = StorageV1 | StorageV2

  datatype RequestDomain = ShardXferV1 | ShardXferV2 {
    function Protocol(): Protocol {
      match this case ShardXferV1 => StorageV1 case ShardXferV2 => StorageV2
    }
  }

  datatype OutboundKey = OutboundKey(domain: RequestDomain, id: nat)

  // ── Requests and what is kept of them ──

  datatype ShardRequest = ShardRequest(cid: string, pushData: Option<seq<bv8>>)

  datatype ShardRequestV2 =
    | Pull(cid: string, offset: nat, maxBytes: nat)
    | Push(root: Root, chunkIndex: nat, data: seq<bv8>)
    | ManifestPush(root: Root, manifest: seq<bv8>)
    | ManifestPull(root: Root)

  datatype RequestKind =
    | V1Chunk(cid: string)
    | V1Manifest(rootHex: string, cid: string)
    | V1Push(cid: string)
    | V2Pull(cid: string)
    | V2Push(root: Root, chunkIndex: nat)
    | V2ManifestPush(root: Root)
    | V2ManifestPull(root: Root)
  {
    function Protocol(): Protocol {
      if V1Chunk? || V1Manifest? || V1Push? then StorageV1 else StorageV2
    }

    function Label(): Label {
      match this
      case V1Chunk(_) => V1ChunkPull
      case V1Manifest(_, _) => V1ManifestPull
      case V1Push(_) => V1ChunkPush
      case V2Pull(_) => V2ChunkPull
      case V2Push(_, _) => V2ChunkPush
      case V2ManifestPush(_) => V2ManifestPushed
      case V2ManifestPull(_) => V2ManifestPulled
    }
  }

  datatype Label =
    | V1ChunkPull | V1ManifestPull | V1ChunkPush | V2ChunkPull | V2ChunkPush | V2ManifestPushed | V2ManifestPulled

  /** Two kinds of request go by the same label only if they are the same kind. */
  lemma LabelNamesKind(a: RequestKind, b: RequestKind)
    requires a.Label() == b.Label()
    ensures a.V1Chunk? == b.V1Chunk? && a.V1Manifest? == b.V1Manifest? && a.V1Push? == b.V1Push?
    ensures a.V2Pull? == b.V2Pull? && a.V2Push? == b.V2Push?
    ensures a.V2ManifestPush? == b.V2ManifestPush? && a.V2ManifestPull? == b.V2ManifestPull?
  {
  }

  const MANIFEST_CID_PREFIX := "manifest:"

  function FromV1(req: ShardRequest): RequestKind {
    if req.pushData.Some? then V1Push(req.cid)
    else if MANIFEST_CID_PREFIX <= req.cid then V1Manifest(req.cid[|MANIFEST_CID_PREFIX|..], req.cid)
    else V1Chunk(req.cid)
  }

  function FromV2(req: ShardRequestV2): RequestKind {
    match req
    case Pull(cid, _, _) => V2Pull(cid)
    case Push(root, index, _) => V2Push(root, index)
    case ManifestPush(root, _) => V2ManifestPush(root)
    case ManifestPull(root) => V2ManifestPull(root)
  }

  // ── Responses ──

  datatype Response =
    | V1Response(cid: string)
    | DataResponse(cid: string)
    | PushAck(root: Root, chunkIndex: nat)
    | ManifestPushAck(root: Root)
    | ManifestData(root: Root)

  datatype CorrelationError =
    | UnknownRequestId
    | PoisonedRequestId(first: Label, second: Label)
    | PeerMismatch(expectedPeer: PeerId, gotPeer: PeerId)
    | ResponseKindMismatch
    | CidMismatch
    | RootMismatch
    | ChunkIndexMismatch

  datatype Check = Answers | Refused(error: CorrelationError)

  /** Does the response answer the request? Every comparison is of a kept value with a wire value. */
  function CheckResponse(kind: RequestKind, response: Response): Check {
    match (kind, response)
    case (V1Chunk(cid), V1Response(got)) => if cid == got then Answers else Refused(CidMismatch)
    case (V1Manifest(_, cid), V1Response(got)) => if cid == got then Answers else Refused(CidMismatch)
    case (V1Push(cid), V1Response(got)) => if cid == got then Answers else Refused(CidMismatch)
    case (V2Pull(cid), DataResponse(got)) => if cid == got then Answers else Refused(CidMismatch)
    case (V2Push(root, index), PushAck(gotRoot, gotIndex)) =>
      if root != gotRoot then Refused(RootMismatch)
      else if index != gotIndex then Refused(ChunkIndexMismatch)
      else Answers
    case (V2ManifestPush(root), ManifestPushAck(got)) => if root == got then Answers else Refused(RootMismatch)
    case (V2ManifestPull(root), ManifestData(got)) => if root == got then Answers else Refused(RootMismatch)
    case _ => Refused(ResponseKindMismatch)
  }

  /** The two requests cannot be told apart by any answer. */
  predicate SameSubject(a: RequestKind, b: RequestKind) {
    if a.Protocol().StorageV1? && b.Protocol().StorageV1? then a.cid == b.cid else a == b
  }

  /** Some response answers both requests exactly when they have the same subject. On V2 that means the same request;
      on V1 a chunk pull, a manifest pull and a push of one CID look alike, which is why a key two requests claimed
      cannot be given to either. */
  lemma AnswersBothIff(a: RequestKind, b: RequestKind)
    ensures (exists r :: CheckResponse(a, r).Answers? && CheckResponse(b, r).Answers?) <==> SameSubject(a, b)
  {
    if SameSubject(a, b) {
      var r := CanonicalAnswer(a);
      assert CheckResponse(a, r).Answers? && CheckResponse(b, r).Answers?;
    }
  }

  function CanonicalAnswer(kind: RequestKind): (r: Response)
    ensures CheckResponse(kind, r).Answers?
  {
    match kind
    case V1Chunk(cid) => V1Response(cid)
    case V1Manifest(_, cid) => V1Response(cid)
    case V1Push(cid) => V1Response(cid)
    case V2Pull(cid) => DataResponse(cid)
    case V2Push(root, index) => PushAck(root, index)
    case V2ManifestPush(root) => ManifestPushAck(root)
    case V2ManifestPull(root) => ManifestData(root)
  }

  /** The one response that answers a request; any other is refused for the first thing that differs: its kind, the CID,
      the root, or the chunk. */
  lemma AnswersIffCanonical(kind: RequestKind, response: Response)
    ensures var expected, check := CanonicalAnswer(kind), CheckResponse(kind, response);
            && (check.Answers? <==> response == expected)
            && (check == Refused(ResponseKindMismatch) <==> !SameForm(expected, response))
            && (check == Refused(CidMismatch) <==>
                SameForm(expected, response) && (expected.V1Response? || expected.DataResponse?)
                && response.cid != expected.cid)
            && (check == Refused(RootMismatch) <==>
                SameForm(expected, response) && !expected.V1Response? && !expected.DataResponse?
                && response.root != expected.root)
            && (check == Refused(ChunkIndexMismatch) <==>
                expected.PushAck? && response.PushAck? && response.root == expected.root && response != expected)
  {
  }

  predicate SameForm(a: Response, b: Response) {
    match (a, b)
    case (V1Response(_), V1Response(_)) => true
    case (DataResponse(_), DataResponse(_)) => true
    case (PushAck(_, _), PushAck(_, _)) => true
    case (ManifestPushAck(_), ManifestPushAck(_)) => true
    case (ManifestData(_), ManifestData(_)) => true
    case _ => false
  }

  /** What is kept of a V1 request gives back its CID and whether it pushed; it is a manifest pull exactly for a pull
      under the manifest prefix, and then the root asked for is what follows the prefix. */
  lemma FromV1IsFaithful(req: ShardRequest)
    ensures FromV1(req).Protocol().StorageV1? && FromV1(req).cid == req.cid
    ensures FromV1(req).V1Push? <==> req.pushData.Some?
    ensures FromV1(req).V1Manifest? <==> req.pushData.None? && exists root :: req.cid == MANIFEST_CID_PREFIX + root
    ensures FromV1(req).V1Manifest? ==> req.cid == MANIFEST_CID_PREFIX + FromV1(req).rootHex
  {
    if MANIFEST_CID_PREFIX <= req.cid {
      assert req.cid == MANIFEST_CID_PREFIX + req.cid[|MANIFEST_CID_PREFIX|..];
    }
  }

  /** Two V2 requests that ask for the same thing: of a pull the window, of a push the bytes, do not matter. */
  predicate SameQuestion(a: ShardRequestV2, b: ShardRequestV2) {
    match (a, b)
    case (Pull(c, _, _), Pull(d, _, _)) => c == d
    case (Push(q, i, _), Push(r, j, _)) => q == r && i == j
    case (ManifestPush(q, _), ManifestPush(r, _)) => q == r
    case (ManifestPull(q), ManifestPull(r)) => q == r
    case _ => false
  }

  /** What is kept of a V2 request is enough to tell its answers from those of any other: some response answers two
      requests if and only if they ask for the same thing. */
  lemma FromV2IsFaithful(a: ShardRequestV2, b: ShardRequestV2)
    ensures FromV2(a).Protocol().StorageV2?
    ensures (exists r :: CheckResponse(FromV2(a), r).Answers? && CheckResponse(FromV2(b), r).Answers?)
            <==> SameQuestion(a, b)
  {
    AnswersBothIff(FromV2(a), FromV2(b));
  }

  // ── The table ──

  // Instants and durations, in nanoseconds.
  const SECOND: nat := 1_000_000_000
  const OUTBOUND_RECORD_TTL: nat := 300 * SECOND
  const POISON_TTL: nat := 600 * SECOND
  const SHARD_XFER_REQUEST_TIMEOUT: nat := 120 * SECOND

  datatype Slot =
    | Pending(peer: PeerId, kind: RequestKind, issuedAt: nat)
    | Poisoned(at: nat, first: Label, second: Label)

  type Slots = map<OutboundKey, Slot>

  datatype Origin = Origin(peer: PeerId, kind: RequestKind)

  datatype RecordResult = Filed | Collision(key: OutboundKey, first: Label, second: Label) | DomainProtocolMismatch

  datatype ResponseResult = Accepted(origin: Origin) | Rejected(error: CorrelationError)

  datatype FailureResult = Retained(origin: Origin) | Unknown | PoisonedKey

  /** The label a poisoned slot reports as the first claim. */
  function FirstLabel(slot: Slot): Label {
    match slot
    case Pending(_, kind, _) => kind.Label()
    case Poisoned(_, first, _) => first
  }

  function RecordSlots(slots: Slots, key: OutboundKey, peer: PeerId, kind: RequestKind, now: nat): Slots {
    if kind.Protocol() != key.domain.Protocol() then slots
    else if key !in slots then slots[key := Pending(peer, kind, now)]
    else slots[key := Poisoned(now, FirstLabel(slots[key]), kind.Label())]
  }

  function RecordOutcome(slots: Slots, key: OutboundKey, kind: RequestKind): RecordResult {
    if kind.Protocol() != key.domain.Protocol() then DomainProtocolMismatch
    else if key !in slots then Filed
    else Collision(key, FirstLabel(slots[key]), kind.Label())
  }

  /** A terminal event spends a pending record, whatever becomes of the event, and leaves a poisoned slot. */
  function SpendSlots(slots: Slots, key: OutboundKey): Slots {
    if key in slots && slots[key].Pending? then slots - {key} else slots
  }

  function ResponseOutcome(slots: Slots, key: OutboundKey, peer: PeerId, response: Response): ResponseResult {
    if key !in slots then Rejected(UnknownRequestId)
    else
      match slots[key]
      case Poisoned(_, first, second) => Rejected(PoisonedRequestId(first, second))
      case Pending(asked, kind, _) =>
        if asked != peer then Rejected(PeerMismatch(asked, peer))
        else match CheckResponse(kind, response)
             case Answers => Accepted(Origin(asked, kind))
             case Refused(e) => Rejected(e)
  }

  function FailureOutcome(slots: Slots, key: OutboundKey): FailureResult {
    if key !in slots then Unknown
    else
      match slots[key]
      case Poisoned(_, _, _) => PoisonedKey
      case Pending(peer, kind, _) => Retained(Origin(peer, kind))
  }

  /** `duration_since` does not go below zero. */
  function Age(now: nat, then_: nat): nat {
    if now < then_ then 0 else now - then_
  }

  predicate Survives(slot: Slot, now: nat, ttl: nat) {
    match slot
    case Pending(_, _, issuedAt) => Age(now, issuedAt) < ttl
    case Poisoned(at, _, _) => Age(now, at) < POISON_TTL
  }

  function ReapSlots(slots: Slots, now: nat, ttl: nat): Slots {
    map key | key in slots && Survives(slots[key], now, ttl) :: slots[key]
  }

  /** The table as the swarm holds it. */
  class OutboundTracker {
    var slots: Slots

    constructor ()
      ensures slots == map[]
    {
      slots := map[];
    }

    method Record(key: OutboundKey, peer: PeerId, kind: RequestKind, now: nat) returns (r: RecordResult)
      modifies this
      ensures slots == RecordSlots(old(slots), key, peer, kind, now)
      ensures r == RecordOutcome(old(slots), key, kind)
    {
      if kind.Protocol() != key.domain.Protocol() {
        return DomainProtocolMismatch;
      }
      if key !in slots {
        slots := slots[key := Pending(peer, kind, now)];
        return Filed;
      }
      var first := match slots[key] case Pending(_, k, _) => k.Label() case Poisoned(_, f, _) => f;
      var second := kind.Label();
      slots := slots[key := Poisoned(now, first, second)];
      r := Collision(key, first, second);
    }

    method CorrelateResponse(key: OutboundKey, peer: PeerId, response: Response) returns (r: ResponseResult)
      modifies this
      ensures slots == SpendSlots(old(slots), key)
      ensures r == ResponseOutcome(old(slots), key, peer, response)
    {
      if key !in slots {
        return Rejected(UnknownRequestId);
      }
      var slot := slots[key];
      if slot.Poisoned? {
        return Rejected(PoisonedRequestId(slot.first, slot.second));
      }
      slots := slots - {key};
      if slot.peer != peer {
        return Rejected(PeerMismatch(slot.peer, peer));
      }
      var check := CheckResponse(slot.kind, response);
      if check.Refused? {
        return Rejected(check.error);
      }
      r := Accepted(Origin(slot.peer, slot.kind));
    }

    method OnFailure(key: OutboundKey) returns (r: FailureResult)
      modifies this
      ensures slots == SpendSlots(old(slots), key)
      ensures r == FailureOutcome(old(slots), key)
    {
      if key !in slots {
        return Unknown;
      }
      var slot := slots[key];
      if slot.Poisoned? {
        return PoisonedKey;
      }
      slots := slots - {key};
      r := Retained(Origin(slot.peer, slot.kind));
    }

    method Reap(now: nat, ttl: nat) returns (reaped: nat)
      modifies this
      ensures slots == ReapSlots(old(slots), now, ttl)
      ensures reaped == |old(slots)| - |slots|
    {
      var before := slots;
      slots := map key | key in slots && Survives(slots[key], now, ttl) :: slots[key];
      ReapShrinks(before, now, ttl);
      reaped := |before| - |slots|;
    }
  }

  lemma ReapShrinks(slots: Slots, now: nat, ttl: nat)
    ensures |ReapSlots(slots, now, ttl)| <= |slots|
  {
    var kept := ReapSlots(slots, now, ttl);
    var gone := slots.Keys - kept.Keys;
    assert slots.Keys == kept.Keys + gone && kept.Keys !! gone;
    assert |slots| == |slots.Keys| && |kept| == |kept.Keys|;
  }
}
