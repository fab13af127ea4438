/**
 Response channels of inbound requests. Both behaviours hand over channels of one type, so each channel is filed with
 the behaviour it came from, under an id allocated here, and can be taken only for that behaviour.
 */
module InboundChannels {
  import opened Correlation

  // A response channel; only its identity matters.
  type Channel = nat

  const PENDING_CHANNEL_TIMEOUT: nat := 120 * SECOND

  datatype PendingChannel = PendingChannel(domain: RequestDomain, channel: Channel)

  datatype Filing = Filing(pending: PendingChannel, filedAt: nat)

  datatype ChannelTake = Taken(channel: Channel) | WrongDomain(have: RequestDomain) | Missing

  datatype Refusals = Refusals(
    v1ResponseOnV2Channel: nat,
    v2ResponseOnV1Channel: nat,
    responseWithoutChannel: nat,
    inboundVersionDomainMismatch: nat)

  /** What became of a filed channel. */
  datatype ChannelFate =
    | AnsweredOn(domain: RequestDomain, channel: Channel)
    | ClosedBeforehand(domain: RequestDomain, channel: Channel)
    | DroppedUnseen
    | ReapedUnanswered
  {
    predicate WasTaken() {
      AnsweredOn? || ClosedBeforehand?
    }
  }

  /** How an answer on a taken channel ends: the peer may have closed it. */
  function Ending(domain: RequestDomain, channel: Channel, open: bool): ChannelFate {
    if open then AnsweredOn(domain, channel) else ClosedBeforehand(domain, channel)
  }

  /** The swarm's table, with the history of every id: what was filed under it and how it ended. */
  datatype Table = Table(
    pending: map<nat, Filing>,
    nextChannelId: nat,
    refusals: Refusals,
    filed: map<nat, PendingChannel>,
    fates: map<nat, ChannelFate>)

  const EmptyTable := Table(map[], 0, Refusals(0, 0, 0, 0), map[], map[])

  datatype Op =
    | InboundRequest(domain: RequestDomain, version: Protocol, channel: Channel, now: nat, eventsFull: bool)
    | Respond(channelId: nat, want: RequestDomain, open: bool)
    | ReapChannels(now: nat)

  predicate Stale(f: Filing, now: nat) {
    Age(now, f.filedAt) > PENDING_CHANNEL_TIMEOUT
  }

  function CountRefusal(r: Refusals, take: ChannelTake, want: RequestDomain): Refusals {
    match take
    case Taken(_) => r
    case WrongDomain(_) =>
      if want.ShardXferV1? then r.(v1ResponseOnV2Channel := r.v1ResponseOnV2Channel + 1)
      else r.(v2ResponseOnV1Channel := r.v2ResponseOnV1Channel + 1)
    case Missing => r.(responseWithoutChannel := r.responseWithoutChannel + 1)
  }

  function TakeOf(pending: map<nat, Filing>, channelId: nat, want: RequestDomain): ChannelTake {
    if channelId !in pending then Missing
    else if pending[channelId].pending.domain != want then WrongDomain(pending[channelId].pending.domain)
    else Taken(pending[channelId].pending.channel)
  }

  function Apply(t: Table, op: Op): Table {
    match op
    case InboundRequest(domain, version, channel, now, eventsFull) =>
      if version != domain.Protocol() then
        t.(refusals := t.refusals.(inboundVersionDomainMismatch := t.refusals.inboundVersionDomainMismatch + 1))
      else
        var id, p := t.nextChannelId, PendingChannel(domain, channel);
        t.(nextChannelId := id + 1,
        filed := t.filed[id := p],
        pending := if eventsFull then t.pending - {id} else t.pending[id := Filing(p, now)],
        fates := if eventsFull then t.fates[id := DroppedUnseen] else t.fates)
    case Respond(id, want, open) =>
      var take := TakeOf(t.pending, id, want);
      t.(refusals := CountRefusal(t.refusals, take, want),
      pending := if take.Taken? then t.pending - {id} else t.pending,
      fates := if take.Taken? then t.fates[id := Ending(want, take.channel, open)] else t.fates)
    case ReapChannels(now) =>
      t.(pending := map id | id in t.pending && !Stale(t.pending[id], now) :: t.pending[id],
      fates := t.fates + map id | id in t.pending && Stale(t.pending[id], now) :: ReapedUnanswered)
  }

  class ShardChannels {
    var pendingShardChannels: map<nat, Filing>
    var nextChannelId: nat
    var refusals: Refusals
    ghost var filed: map<nat, PendingChannel>
    ghost var fates: map<nat, ChannelFate>

    ghost function View(): Table
      reads this
    {
      Table(pendingShardChannels, nextChannelId, refusals, filed, fates)
    }

    constructor ()
      ensures View() == EmptyTable
    {
      pendingShardChannels, nextChannelId, refusals := map[], 0, Refusals(0, 0, 0, 0);
      filed, fates := map[], map[];
    }

    /** File the channel, then announce the request; if the announcement cannot be queued, unfile it. */
    method OnInboundRequest(domain: RequestDomain, version: Protocol, channel: Channel, now: nat, eventsFull: bool)
      modifies this
      ensures View() == Apply(old(View()), InboundRequest(domain, version, channel, now, eventsFull))
    {
      if version != domain.Protocol() {
        refusals := refusals.(inboundVersionDomainMismatch := refusals.inboundVersionDomainMismatch + 1);
        return;
      }
      var channelId := nextChannelId;
      nextChannelId := nextChannelId + 1;
      pendingShardChannels := pendingShardChannels[channelId := Filing(PendingChannel(domain, channel), now)];
      filed := filed[channelId := PendingChannel(domain, channel)];
      if eventsFull {
        pendingShardChannels := pendingShardChannels - {channelId};
        fates := fates[channelId := DroppedUnseen];
      }
    }

    /** Take the channel for the behaviour `want`. A channel of the other behaviour stays where it is. */
    method TakeChannel(channelId: nat, want: RequestDomain) returns (take: ChannelTake)
      modifies this`pendingShardChannels
      ensures take == TakeOf(old(pendingShardChannels), channelId, want)
      ensures pendingShardChannels
              == if take.Taken? then old(pendingShardChannels) - {channelId} else old(pendingShardChannels)
    {
      if channelId !in pendingShardChannels {
        return Missing;
      }
      var p := pendingShardChannels[channelId].pending;
      if p.domain != want {
        return WrongDomain(p.domain);
      }
      pendingShardChannels := pendingShardChannels - {channelId};
      take := Taken(p.channel);
    }

    /** Answer on a channel with a response of the behaviour `want`. A channel the peer has closed is spent all the
        same. */
    method SendShardResponse(channelId: nat, want: RequestDomain, open: bool) returns (take: ChannelTake)
      modifies this
      ensures View() == Apply(old(View()), Respond(channelId, want, open))
      ensures take == TakeOf(old(pendingShardChannels), channelId, want)
    {
      take := TakeChannel(channelId, want);
      match take
      case Taken(channel) =>
        fates := fates[channelId := Ending(want, channel, open)];
      case WrongDomain(_) =>
        if want.ShardXferV1? {
          refusals := refusals.(v1ResponseOnV2Channel := refusals.v1ResponseOnV2Channel + 1);
        } else {
          refusals := refusals.(v2ResponseOnV1Channel := refusals.v2ResponseOnV1Channel + 1);
        }
      case Missing =>
        refusals := refusals.(responseWithoutChannel := refusals.responseWithoutChannel + 1);
    }

    method ReapOrphanedChannels(now: nat)
      modifies this
      ensures View() == Apply(old(View()), ReapChannels(now))
    {
      fates := fates + map id | id in pendingShardChannels && Stale(pendingShardChannels[id], now) :: ReapedUnanswered;
      pendingShardChannels :=
        map id | id in pendingShardChannels && !Stale(pendingShardChannels[id], now) :: pendingShardChannels[id];
    }
  }

  // ── Provenance over whole runs ──

  function After(ops: seq<Op>): Table {
    if ops == [] then EmptyTable else Apply(After(ops[..|ops| - 1]), ops[|ops| - 1])
  }

  /** The inbound requests that were given an id. */
  function FilingCount(ops: seq<Op>): nat {
    if ops == [] then 0
    else
      var op := ops[|ops| - 1];
      FilingCount(ops[..|ops| - 1]) + if op.InboundRequest? && op.version == op.domain.Protocol() then 1 else 0
  }

  function RespondCount(ops: seq<Op>): nat {
    if ops == [] then 0 else RespondCount(ops[..|ops| - 1]) + if ops[|ops| - 1].Respond? then 1 else 0
  }

  ghost function TakenIds(fates: map<nat, ChannelFate>): set<nat> {
    set id | id in fates && fates[id].WasTaken()
  }

  /** Every id up to the counter was filed once and is either pending, as filed, or has ended, never both; an answer
      went to the channel filed under the id, on the behaviour it arrived on; and every attempt to answer took its
      channel or was counted as one refusal. */
  ghost predicate Accounted(t: Table, filings: nat, responds: nat) {
    && t.nextChannelId == filings
    && (forall id: nat :: id in t.filed <==> id < t.nextChannelId)
    && (forall id :: id in t.filed <==> id in t.pending || id in t.fates)
    && (forall id | id in t.pending :: id !in t.fates)
    && (forall id | id in t.pending :: t.pending[id].pending == t.filed[id])
    && (forall id | id in t.fates && t.fates[id].WasTaken() ::
          t.filed[id] == PendingChannel(t.fates[id].domain, t.fates[id].channel))
    && responds == |TakenIds(t.fates)| + t.refusals.v1ResponseOnV2Channel + t.refusals.v2ResponseOnV1Channel
                   + t.refusals.responseWithoutChannel
  }

  lemma RequestKeepsAccounted(t: Table, op: Op, filings: nat, responds: nat)
    requires Accounted(t, filings, responds)
    requires op.InboundRequest? && op.version == op.domain.Protocol()
    ensures Accounted(Apply(t, op), filings + 1, responds)
  {
    assert t.nextChannelId !in t.filed;
    assert TakenIds(Apply(t, op).fates) == TakenIds(t.fates);
  }

  lemma TakeKeepsAccounted(t: Table, op: Op, filings: nat, responds: nat)
    requires Accounted(t, filings, responds)
    requires op.Respond? && TakeOf(t.pending, op.channelId, op.want).Taken?
    ensures Accounted(Apply(t, op), filings, responds + 1)
  {
    assert op.channelId !in t.fates && op.channelId in t.filed;
    assert TakenIds(Apply(t, op).fates) == TakenIds(t.fates) + {op.channelId};
  }

  lemma ReapKeepsAccounted(t: Table, op: Op, filings: nat, responds: nat)
    requires Accounted(t, filings, responds)
    requires op.ReapChannels?
    ensures Accounted(Apply(t, op), filings, responds)
  {
    assert TakenIds(Apply(t, op).fates) == TakenIds(t.fates);
  }

  lemma ApplyKeepsAccounted(t: Table, op: Op, filings: nat, responds: nat)
    requires Accounted(t, filings, responds)
    ensures Accounted(Apply(t, op),
                      filings + (if op.InboundRequest? && op.version == op.domain.Protocol() then 1 else 0),
                      responds + if op.Respond? then 1 else 0)
  {
    match op
    case InboundRequest(_, _, _, _, _) =>
      if op.version == op.domain.Protocol() {
        RequestKeepsAccounted(t, op, filings, responds);
      }
    case Respond(id, want, _) =>
      if TakeOf(t.pending, id, want).Taken? {
        TakeKeepsAccounted(t, op, filings, responds);
      }
    case ReapChannels(_) =>
      ReapKeepsAccounted(t, op, filings, responds);
  }

  lemma {:induction false} EveryChannelIsAccounted(ops: seq<Op>)
    ensures Accounted(After(ops), FilingCount(ops), RespondCount(ops))
  {
    if ops != [] {
      EveryChannelIsAccounted(ops[..|ops| - 1]);
      ApplyKeepsAccounted(After(ops[..|ops| - 1]), ops[|ops| - 1], FilingCount(ops[..|ops| - 1]),
                          RespondCount(ops[..|ops| - 1]));
    } else {
      assert TakenIds(map[]) == {};
    }
  }

  /** What is filed under an id and how it ended never change: no id is used twice, no channel answered twice. */
  lemma HistoryIsFinal(ops: seq<Op>, op: Op)
    ensures var t, t' := After(ops), After(ops + [op]);
            && (forall id | id in t.filed :: id in t'.filed && t'.filed[id] == t.filed[id])
            && (forall id | id in t.fates :: id in t'.fates && t'.fates[id] == t.fates[id])
  {
    assert (ops + [op])[..|ops|] == ops;
    EveryChannelIsAccounted(ops);
    var t := After(ops);
    assert forall id | id in t.fates :: id !in t.pending && id in t.filed;
  }
}
