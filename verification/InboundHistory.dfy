/**
 Inbound channels from the operations alone: which are still pending, how each that is not ended, and what was refused,
 without looking at the table.
 */
module InboundHistory {
  import opened Wrappers
  import opened Correlation
  import opened InboundChannels

  // ── The history of one id ──

  /** A request whose version fits its behaviour. */
  predicate Files(op: Op) {
    op.InboundRequest? && op.version == op.domain.Protocol()
  }

  /** The operation at `k` brought the request that was given this id: as many were given one before. */
  predicate FiledBy(ops: seq<Op>, id: nat, k: nat) {
    k < |ops| && Files(ops[k]) && FilingCount(ops[..k]) == id
  }

  /** The operation ends the channel `request` brought under `id`: an answer of the behaviour it arrived on, or a reap
      more than the timeout after it. */
  predicate Ends(op: Op, id: nat, request: Op)
    requires request.InboundRequest?
  {
    match op
    case InboundRequest(_, _, _, _, _) => false
    case Respond(channelId, want, _) => channelId == id && want == request.domain
    case ReapChannels(now) => now > request.now + PENDING_CHANNEL_TIMEOUT
  }

  /** How the operation that ends it leaves it. */
  function EndingBy(op: Op, request: Op): ChannelFate
    requires request.InboundRequest? && !op.InboundRequest?
  {
    match op
    case Respond(_, _, open) =>
      if open then AnsweredOn(request.domain, request.channel) else ClosedBeforehand(request.domain, request.channel)
    case ReapChannels(_) => ReapedUnanswered
  }

  /** Filed with room to announce it, and nothing has ended it since. */
  ghost predicate StillOpen(ops: seq<Op>, id: nat, k: nat) {
    && FiledBy(ops, id, k) && !ops[k].eventsFull
    && forall j | k < j < |ops| :: !Ends(ops[j], id, ops[k])
  }

  /** The first thing to end it, if it was announced, is at `j`. */
  ghost predicate EndedAt(ops: seq<Op>, id: nat, k: nat, j: nat) {
    && FiledBy(ops, id, k) && !ops[k].eventsFull
    && k < j < |ops| && Ends(ops[j], id, ops[k])
    && forall i | k < i < j :: !Ends(ops[i], id, ops[k])
  }

  /** Filed when there was no room to announce it. */
  ghost predicate NeverSeen(ops: seq<Op>, id: nat) {
    exists k: nat :: FiledBy(ops, id, k) && ops[k].eventsFull
  }

  ghost predicate EndedWith(ops: seq<Op>, id: nat, fate: ChannelFate) {
    exists k: nat, j: nat :: EndedAt(ops, id, k, j) && fate == EndingBy(ops[j], ops[k])
  }

  ghost predicate HasFate(ops: seq<Op>, id: nat, fate: ChannelFate) {
    (NeverSeen(ops, id) && fate == DroppedUnseen) || EndedWith(ops, id, fate)
  }

  // ── One operation more ──

  lemma FiledByGrows(ops: seq<Op>, op: Op, id: nat, k: nat)
    ensures FiledBy(ops + [op], id, k)
            <==> FiledBy(ops, id, k) || (k == |ops| && Files(op) && FilingCount(ops) == id)
  {
    if k < |ops| {
      assert (ops + [op])[..k] == ops[..k];
    } else if k == |ops| {
      assert (ops + [op])[..k] == ops;
    }
  }

  /** Ids are given out in order, so an id is filed once. */
  lemma {:induction false} FilingsGrow(ops: seq<Op>, k: nat)
    requires k < |ops| && Files(ops[k])
    ensures FilingCount(ops[..k]) < FilingCount(ops)
    decreases |ops|
  {
    var n := |ops| - 1;
    if k < n {
      FilingsGrow(ops[..n], k);
      assert ops[..n][..k] == ops[..k];
    } else {
      assert ops[..k] == ops[..n];
    }
  }

  lemma LaterFilingsAreMore(ops: seq<Op>, j: nat, k: nat)
    requires j < k <= |ops| && Files(ops[j])
    ensures FilingCount(ops[..j]) < FilingCount(ops[..k])
  {
    FilingsGrow(ops[..k], j);
    assert ops[..k][..j] == ops[..j];
  }

  lemma FiledOnce(ops: seq<Op>, id: nat, j: nat, k: nat)
    requires FiledBy(ops, id, j) && FiledBy(ops, id, k)
    ensures j == k
  {
    if j < k {
      LaterFilingsAreMore(ops, j, k);
    } else if k < j {
      LaterFilingsAreMore(ops, k, j);
    }
  }

  lemma StillOpenGrows(ops: seq<Op>, op: Op, id: nat, k: nat)
    ensures StillOpen(ops + [op], id, k)
            <==> (StillOpen(ops, id, k) && !Ends(op, id, ops[k]))
                 || (k == |ops| && Files(op) && FilingCount(ops) == id && !op.eventsFull)
  {
    FiledByGrows(ops, op, id, k);
    var more := ops + [op];
    assert forall j | 0 <= j < |ops| :: more[j] == ops[j];
    if StillOpen(more, id, k) && k < |ops| {
      assert more[|ops|] == op;
    }
  }

  lemma EndedAtGrows(ops: seq<Op>, op: Op, id: nat, k: nat, j: nat)
    ensures EndedAt(ops + [op], id, k, j)
            <==> EndedAt(ops, id, k, j) || (j == |ops| && StillOpen(ops, id, k) && Ends(op, id, ops[k]))
  {
    FiledByGrows(ops, op, id, k);
    var more := ops + [op];
    assert forall i | 0 <= i < |ops| :: more[i] == ops[i];
    assert more[|ops|] == op;
  }

  /** The filing an id's channel stands for. */
  function FilingOf(request: Op): Filing
    requires request.InboundRequest?
  {
    Filing(PendingChannel(request.domain, request.channel), request.now)
  }

  /** An announced channel is pending until something ends it, as it was filed; and nothing else is. */
  ghost predicate PendingTells(ops: seq<Op>, t: Table, id: nat) {
    && (id in t.pending <==> exists k: nat :: StillOpen(ops, id, k))
    && (forall k: nat | StillOpen(ops, id, k) :: id in t.pending && t.pending[id] == FilingOf(ops[k]))
  }

  lemma FiledIdsAreBelow(ops: seq<Op>, id: nat, k: nat)
    requires FiledBy(ops, id, k)
    ensures id < FilingCount(ops)
  {
    FilingsGrow(ops, k);
  }

  lemma RequestTells(ops: seq<Op>, op: Op, id: nat)
    requires op.InboundRequest? && PendingTells(ops, After(ops), id)
    ensures PendingTells(ops + [op], Apply(After(ops), op), id)
  {
    var t, t' := After(ops), Apply(After(ops), op);
    EveryChannelIsAccounted(ops);
    var filed := Files(op) && FilingCount(ops) == id && !op.eventsFull;
    forall k: nat
      ensures StillOpen(ops + [op], id, k) <==> StillOpen(ops, id, k) || (k == |ops| && filed)
    {
      StillOpenGrows(ops, op, id, k);
    }
    if k: nat :| StillOpen(ops, id, k) {
      FiledIdsAreBelow(ops, id, k);
      assert StillOpen(ops + [op], id, k) && (ops + [op])[k] == ops[k];
    }
    if Files(op) && FilingCount(ops) == id && !op.eventsFull {
      assert StillOpen(ops + [op], id, |ops|) && (ops + [op])[|ops|] == op;
    }
    forall k: nat | StillOpen(ops + [op], id, k)
      ensures id in t'.pending && t'.pending[id] == FilingOf((ops + [op])[k])
    {
      if k < |ops| {
        assert StillOpen(ops, id, k);
      }
    }
  }

  lemma OtherOpTells(ops: seq<Op>, op: Op, id: nat)
    requires !op.InboundRequest? && PendingTells(ops, After(ops), id)
    ensures PendingTells(ops + [op], Apply(After(ops), op), id)
  {
    var t' := Apply(After(ops), op);
    forall k: nat ensures StillOpen(ops + [op], id, k) <==> StillOpen(ops, id, k) && !Ends(op, id, ops[k]) {
      StillOpenGrows(ops, op, id, k);
    }
    if k: nat :| StillOpen(ops, id, k) {
      assert id in t'.pending <==> !Ends(op, id, ops[k]);
      forall j: nat | StillOpen(ops, id, j) ensures j == k {
        FiledOnce(ops, id, j, k);
      }
      if id in t'.pending {
        assert StillOpen(ops + [op], id, k);
      }
      assert (ops + [op])[k] == ops[k];
    }
  }

  /** Over every history, from the operations alone: an id is pending exactly when a request of the right version
      brought it with room to announce it, and since then nobody answered it on the behaviour it arrived on and no
      reap came more than the timeout after it. */
  lemma {:induction false} PendingIff(ops: seq<Op>, id: nat)
    ensures PendingTells(ops, After(ops), id)
  {
    if ops != [] {
      var before, op := ops[..|ops| - 1], ops[|ops| - 1];
      assert ops == before + [op];
      PendingIff(before, id);
      if op.InboundRequest? {
        RequestTells(before, op, id);
      } else {
        OtherOpTells(before, op, id);
      }
    }
  }

  // ── Fates ──

  lemma NeverSeenGrows(ops: seq<Op>, op: Op, id: nat)
    ensures NeverSeen(ops + [op], id)
            <==> NeverSeen(ops, id) || (Files(op) && FilingCount(ops) == id && op.eventsFull)
  {
    var more := ops + [op];
    if k: nat :| FiledBy(more, id, k) && more[k].eventsFull {
      FiledByGrows(ops, op, id, k);
    }
    if k: nat :| FiledBy(ops, id, k) && ops[k].eventsFull {
      FiledByGrows(ops, op, id, k);
      assert FiledBy(more, id, k) && more[k].eventsFull;
    }
    FiledByGrows(ops, op, id, |ops|);
    assert more[|ops|] == op;
  }

  ghost predicate EndsNow(ops: seq<Op>, op: Op, id: nat, fate: ChannelFate) {
    exists k: nat :: StillOpen(ops, id, k) && Ends(op, id, ops[k]) && fate == EndingBy(op, ops[k])
  }

  lemma EndedWithGrows(ops: seq<Op>, op: Op, id: nat, fate: ChannelFate)
    ensures EndedWith(ops + [op], id, fate) <==> EndedWith(ops, id, fate) || EndsNow(ops, op, id, fate)
  {
    var more := ops + [op];
    if k: nat, j: nat :| EndedAt(more, id, k, j) && fate == EndingBy(more[j], more[k]) {
      EndedAtGrows(ops, op, id, k, j);
      assert more[k] == ops[k] && (j < |ops| ==> more[j] == ops[j]);
    }
    if k: nat, j: nat :| EndedAt(ops, id, k, j) && fate == EndingBy(ops[j], ops[k]) {
      EndedAtGrows(ops, op, id, k, j);
      assert more[k] == ops[k] && more[j] == ops[j];
    }
    if k: nat :| StillOpen(ops, id, k) && Ends(op, id, ops[k]) && fate == EndingBy(op, ops[k]) {
      EndedAtGrows(ops, op, id, k, |ops|);
      assert more[k] == ops[k] && more[|ops|] == op;
    }
  }

  ghost predicate FateTells(ops: seq<Op>, t: Table, id: nat, fate: ChannelFate) {
    id in t.fates && t.fates[id] == fate <==> HasFate(ops, id, fate)
  }

  lemma RequestFateTells(ops: seq<Op>, op: Op, id: nat, fate: ChannelFate)
    requires op.InboundRequest? && FateTells(ops, After(ops), id, fate)
    ensures FateTells(ops + [op], Apply(After(ops), op), id, fate)
  {
    EveryChannelIsAccounted(ops);
    NeverSeenGrows(ops, op, id);
    EndedWithGrows(ops, op, id, fate);
    if Files(op) && FilingCount(ops) == id {
      NotFiledYet(ops, id);
    }
  }

  /** The next id has no history. */
  lemma NotFiledYet(ops: seq<Op>, id: nat)
    requires FilingCount(ops) <= id
    ensures !NeverSeen(ops, id) && forall fate :: !EndedWith(ops, id, fate)
  {
    forall k: nat | FiledBy(ops, id, k) ensures false {
      FiledIdsAreBelow(ops, id, k);
    }
  }

  lemma OtherOpFateTells(ops: seq<Op>, op: Op, id: nat, fate: ChannelFate)
    requires !op.InboundRequest? && FateTells(ops, After(ops), id, fate)
    ensures FateTells(ops + [op], Apply(After(ops), op), id, fate)
  {
    NeverSeenGrows(ops, op, id);
    EndedWithGrows(ops, op, id, fate);
    EveryChannelIsAccounted(ops);
    NowEnds(ops, op, id, fate);
  }

  /** What the operation does to the fate of a channel that is pending. */
  lemma NowEnds(ops: seq<Op>, op: Op, id: nat, fate: ChannelFate)
    requires !op.InboundRequest?
    ensures var t, t' := After(ops), Apply(After(ops), op);
            && (EndsNow(ops, op, id, fate) ==> id in t.pending && id in t'.fates && t'.fates[id] == fate)
            && (id in t'.fates && t'.fates[id] == fate ==>
                  EndsNow(ops, op, id, fate) || (id in t.fates && t.fates[id] == fate))
            && (id !in t.pending && id in t.fates ==> id in t'.fates && t'.fates[id] == t.fates[id])
  {
    PendingIff(ops, id);
    if id in After(ops).pending {
      var k: nat :| StillOpen(ops, id, k);
      forall j: nat | StillOpen(ops, id, j) ensures j == k {
        FiledOnce(ops, id, j, k);
      }
      assert After(ops).pending[id] == FilingOf(ops[k]);
    }
  }

  /** And how it ended: dropped exactly when there was no room to announce it; otherwise as the first operation that
      ended it left it, answered on the behaviour and the channel of its own request. */
  lemma {:induction false} FateIff(ops: seq<Op>, id: nat, fate: ChannelFate)
    ensures FateTells(ops, After(ops), id, fate)
  {
    if ops != [] {
      var before, op := ops[..|ops| - 1], ops[|ops| - 1];
      assert ops == before + [op];
      FateIff(before, id, fate);
      if op.InboundRequest? {
        RequestFateTells(before, op, id, fate);
      } else {
        OtherOpFateTells(before, op, id, fate);
      }
    }
  }

  /** So an announced request can be answered, on the channel it brought, until something ends it. */
  lemma OpenChannelAnswers(ops: seq<Op>, id: nat, k: nat)
    requires StillOpen(ops, id, k)
    ensures var answered := After(ops + [Respond(id, ops[k].domain, true)]);
            && TakeOf(After(ops).pending, id, ops[k].domain) == Taken(ops[k].channel)
            && id in answered.fates && answered.fates[id] == AnsweredOn(ops[k].domain, ops[k].channel)
            && answered.refusals == After(ops).refusals
  {
    PendingIff(ops, id);
    assert (ops + [Respond(id, ops[k].domain, true)])[..|ops|] == ops;
    assert After(ops).pending[id] == FilingOf(ops[k]);
  }

  // ── Refusals ──

  datatype Reason = V1OnV2 | V2OnV1 | NoChannel | WrongVersion

  /** Why an operation is refused, if it is. */
  ghost predicate RefusedFor(before: seq<Op>, op: Op, reason: Reason) {
    match op
    case InboundRequest(domain, version, _, _, _) => reason.WrongVersion? && version != domain.Protocol()
    case Respond(id, want, _) =>
      (match reason
       case V1OnV2 => want.ShardXferV1? && exists k: nat :: StillOpen(before, id, k) && before[k].domain.ShardXferV2?
       case V2OnV1 => want.ShardXferV2? && exists k: nat :: StillOpen(before, id, k) && before[k].domain.ShardXferV1?
       case NoChannel => forall k: nat :: !StillOpen(before, id, k)
       case WrongVersion => false)
    case ReapChannels(_) => false
  }

  ghost function RefusedCount(ops: seq<Op>, reason: Reason): nat {
    if ops == [] then 0
    else
      var before, op := ops[..|ops| - 1], ops[|ops| - 1];
      RefusedCount(before, reason) + if RefusedFor(before, op, reason) then 1 else 0
  }

  function CounterFor(r: Refusals, reason: Reason): nat {
    match reason
    case V1OnV2 => r.v1ResponseOnV2Channel
    case V2OnV1 => r.v2ResponseOnV1Channel
    case NoChannel => r.responseWithoutChannel
    case WrongVersion => r.inboundVersionDomainMismatch
  }

  lemma OneMoreRefusal(ops: seq<Op>, op: Op, reason: Reason)
    ensures CounterFor(Apply(After(ops), op).refusals, reason)
            == CounterFor(After(ops).refusals, reason) + if RefusedFor(ops, op, reason) then 1 else 0
  {
    if op.Respond? {
      var t := After(ops);
      PendingIff(ops, op.channelId);
      if k: nat :| StillOpen(ops, op.channelId, k) {
        forall j: nat | StillOpen(ops, op.channelId, j) ensures j == k {
          FiledOnce(ops, op.channelId, j, k);
        }
        assert t.pending[op.channelId] == FilingOf(ops[k]);
      }
    }
  }

  /** Each counter counts the operations refused for its reason, and those only. */
  lemma {:induction false} RefusalsTell(ops: seq<Op>, reason: Reason)
    ensures CounterFor(After(ops).refusals, reason) == RefusedCount(ops, reason)
  {
    if ops != [] {
      var before, op := ops[..|ops| - 1], ops[|ops| - 1];
      RefusalsTell(before, reason);
      OneMoreRefusal(before, op, reason);
    }
  }
}
