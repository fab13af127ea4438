/**
 The network policy at run time: the verdicts at each layer, and the counting and attribution of refusals.
 */
module NetworkPolicy {
  import opened Wrappers
  import opened Identity
  import opened Policy

  datatype Source = Bootstrap | Mdns | Identify | Kad | Autodial | Inbound | Other

  datatype Stage = Admission | AtDial | AtInbound

  datatype Refusal = Refusal(source: Source, stage: Stage, addr: Multiaddr)

  datatype Role = Dialer | Listener

  type ConnectionId = nat

  const WARN_DEDUP_CAP: nat := 1024
  const DIAL_LABEL_CAP: nat := 4096

  // ── What each layer answers ──

  type AllowList = Option<seq<AllowEntry>>

  predicate Judges(allow: AllowList, addr: Multiaddr, peer: Option<PeerId>) {
    allow.Some? ==> Allows(allow.value, addr, peer)
  }

  /** A relayed inbound connection is judged by the circuit listened on, a direct one by where it comes from. */
  function InboundJudged(localAddr: Multiaddr, remoteAddr: Multiaddr): Multiaddr {
    if IsRelayed(localAddr) then localAddr else remoteAddr
  }

  predicate InboundVerdict(allow: AllowList, localAddr: Multiaddr, remoteAddr: Multiaddr, peer: Option<PeerId>) {
    allow.Some? ==>
      if IsRelayed(localAddr) then Decide(allow.value, localAddr, None, Enforce)
      else Decide(allow.value, remoteAddr, peer, if peer.Some? then Enforce else Defer)
  }

  /** The check before the handshake refuses no inbound connection that the check after it would keep. */
  lemma PendingInboundIsNotStricter(allow: AllowList, localAddr: Multiaddr, remoteAddr: Multiaddr, p: PeerId)
    requires InboundVerdict(allow, localAddr, remoteAddr, Some(p))
    ensures InboundVerdict(allow, localAddr, remoteAddr, None)
  {
    if allow.Some? {
      VerdictsAreOrdered(allow.value, remoteAddr, p);
    }
  }

  /** A dial the transport let through is kept once established, whoever answered. */
  lemma EstablishedIsNotStricter(allow: AllowList, addr: Multiaddr, p: PeerId)
    requires Judges(allow, addr, None)
    ensures Judges(allow, addr, Some(p))
  {
    if allow.Some? {
      VerdictsAreOrdered(allow.value, addr, p);
    }
  }

  // ── Counting ──

  function CountOf(refused: seq<Refusal>, s: Source): nat {
    if refused == [] then 0
    else CountOf(refused[..|refused| - 1], s) + if refused[|refused| - 1].source == s then 1 else 0
  }

  lemma CountGrows(refused: seq<Refusal>, r: Refusal, s: Source)
    ensures CountOf(refused + [r], s) == CountOf(refused, s) + if r.source == s then 1 else 0
  {
    assert (refused + [r])[..|refused|] == refused;
  }

  function Total(refusals: map<Source, nat>): nat
    requires forall s: Source :: s in refusals
  {
    refusals[Bootstrap] + refusals[Mdns] + refusals[Identify] + refusals[Kad] + refusals[Autodial] + refusals[Inbound]
    + refusals[Other]
  }

  lemma {:induction false} CountsAddUp(refused: seq<Refusal>)
    ensures CountOf(refused, Bootstrap) + CountOf(refused, Mdns) + CountOf(refused, Identify) + CountOf(refused, Kad)
            + CountOf(refused, Autodial) + CountOf(refused, Inbound) + CountOf(refused, Other) == |refused|
  {
    if refused != [] {
      CountsAddUp(refused[..|refused| - 1]);
    }
  }

  datatype DialOp = Label(id: ConnectionId, source: Source) | Begin(id: ConnectionId) | Forget(id: ConnectionId)

  datatype DialState = DialState(labels: map<ConnectionId, Source>, current: Source)

  /** What labelling, beginning and forgetting a dial do under an allow-list. */
  function DialStep(s: DialState, op: DialOp): DialState {
    match op
    case Label(id, source) => s.(labels := (if |s.labels| >= DIAL_LABEL_CAP then map[] else s.labels)[id := source])
    case Begin(id) => DialState(s.labels - {id}, if id in s.labels then s.labels[id] else Other)
    case Forget(id) => s.(labels := s.labels - {id})
  }

  class NetPolicy {
    const allow: AllowList
    var refusals: map<Source, nat>
    var warned: set<(Source, Multiaddr)>
    var labels: map<ConnectionId, Source>
    var current: Source
    // every refusal so far, as sent to the audit stream
    ghost var refused: seq<Refusal>

    /** The counters count the audited refusals, source by source; an unrestricted policy refuses nothing; and the two
        bounded collections are within their bounds. */
    ghost predicate Valid()
      reads this
    {
      && (forall s: Source :: s in refusals && refusals[s] == CountOf(refused, s))
      && (allow.None? ==> refused == [])
      && |warned| <= WARN_DEDUP_CAP
      && |labels| <= DIAL_LABEL_CAP
    }

    constructor (allow: AllowList)
      ensures Valid() && this.allow == allow && refused == [] && labels == map[] && current == Other
    {
      this.allow := allow;
      refusals := map[Bootstrap := 0, Mdns := 0, Identify := 0, Kad := 0, Autodial := 0, Inbound := 0, Other := 0];
      warned, labels, current, refused := {}, map[], Other, [];
      new;
      forall s: Source ensures s in refusals && refusals[s] == 0 {
        match s
        case Bootstrap => case Mdns => case Identify => case Kad => case Autodial => case Inbound => case Other =>
      }
    }

    /** The total is the number of refusals made. */
    method TotalRefusals() returns (total: nat)
      requires Valid()
      ensures total == |refused|
    {
      CountsAddUp(refused);
      total := Total(refusals);
    }

    method Record(source: Source, stage: Stage, addr: Multiaddr)
      requires Valid() && allow.Some?
      modifies this`refusals, this`warned, this`refused
      ensures Valid()
      ensures refused == old(refused) + [Refusal(source, stage, addr)]
    {
      ghost var r := Refusal(source, stage, addr);
      forall s ensures CountOf(refused + [r], s) == CountOf(refused, s) + if r.source == s then 1 else 0 {
        CountGrows(refused, r, s);
      }
      refusals := refusals[source := refusals[source] + 1];
      if |warned| < WARN_DEDUP_CAP {
        warned := warned + {(source, addr)};
      }
      refused := refused + [r];
    }

    /** Admit an address or count one refusal of it, never both. */
    method Judge(source: Source, stage: Stage, addr: Multiaddr, peer: Option<PeerId>) returns (ok: bool)
      requires Valid()
      modifies this`refusals, this`warned, this`refused
      ensures Valid()
      ensures ok == Judges(allow, addr, peer)
      ensures refused == if ok then old(refused) else old(refused) + [Refusal(source, stage, addr)]
    {
      if allow.None? {
        return true;
      }
      if Allows(allow.value, addr, peer) {
        return true;
      }
      Record(source, stage, addr);
      ok := false;
    }

    /** The source a refused dial is put down to: the label of the dial being started, or, for a dial in the listener
        role that carries none, a hole punch. */
    function DialSource(role: Role): (r: Source)
      reads this`current
      ensures r == Autodial <==> current.Autodial? || (current.Other? && role.Listener?)
      ensures r != Autodial ==> r == current
    {
      if current.Other? && role.Listener? then Autodial else current
    }

    method CheckTransportDial(addr: Multiaddr, role: Role) returns (refusedFor: Option<Source>)
      requires Valid()
      modifies this`refusals, this`warned, this`refused
      ensures Valid()
      ensures refusedFor.None? <==> Judges(allow, addr, None)
      ensures refusedFor.Some? ==> refusedFor.value == DialSource(role)
      ensures refused == if refusedFor.None? then old(refused)
              else old(refused) + [Refusal(DialSource(role), AtDial, addr)]
    {
      if allow.None? {
        return None;
      }
      if Allows(allow.value, addr, None) {
        return None;
      }
      var source := current;
      if source.Other? && role.Listener? {
        source := Autodial;
      }
      Record(source, AtDial, addr);
      refusedFor := Some(source);
    }

    method InboundAllowed(localAddr: Multiaddr, remoteAddr: Multiaddr, peer: Option<PeerId>) returns (ok: bool)
      requires Valid()
      modifies this`refusals, this`warned, this`refused
      ensures Valid()
      ensures ok == InboundVerdict(allow, localAddr, remoteAddr, peer)
      ensures refused == if ok then old(refused)
                         else old(refused) + [Refusal(Inbound, AtInbound, InboundJudged(localAddr, remoteAddr))]
    {
      if allow.None? {
        return true;
      }
      var judged;
      if IsRelayed(localAddr) {
        judged, ok := localAddr, Decide(allow.value, localAddr, None, Enforce);
      } else {
        var pin := if peer.Some? then Enforce else Defer;
        judged, ok := remoteAddr, Decide(allow.value, remoteAddr, peer, pin);
      }
      if !ok {
        Record(Inbound, AtInbound, judged);
      }
    }

    method OutboundEstablishedAllowed(addr: Multiaddr, peer: PeerId) returns (ok: bool)
      requires Valid()
      modifies this`refusals, this`warned, this`refused
      ensures Valid()
      ensures ok == Judges(allow, addr, Some(peer))
      ensures refused == if ok then old(refused) else old(refused) + [Refusal(Other, AtDial, addr)]
    {
      ok := Judge(Other, AtDial, addr, Some(peer));
    }

    // ── Attributing dials ──

    function Dials(): DialState
      reads this`labels, this`current
    {
      DialState(labels, current)
    }

    /** Label the dial. When too many labels wait, all of them are forgotten first. */
    method LabelDial(id: ConnectionId, source: Source)
      requires Valid()
      modifies this`labels
      ensures Valid()
      ensures labels == if allow.None? then old(labels)
                        else (if |old(labels)| >= DIAL_LABEL_CAP then map[] else old(labels))[id := source]
      ensures allow.Some? ==> Dials() == DialStep(old(Dials()), Label(id, source))
    {
      if allow.None? {
        return;
      }
      if |labels| >= DIAL_LABEL_CAP {
        labels := map[];
      }
      ghost var before := labels;
      labels := labels[id := source];
      assert labels.Keys == before.Keys + {id};
      assert |labels| == |labels.Keys| && |before| == |before.Keys|;
    }

    method BeginDial(id: ConnectionId)
      requires Valid()
      modifies this`labels, this`current
      ensures Valid()
      ensures allow.None? ==> labels == old(labels) && current == old(current)
      ensures allow.Some? ==>
                && labels == old(labels) - {id}
                && current == if id in old(labels) then old(labels)[id] else Other
      ensures allow.Some? ==> Dials() == DialStep(old(Dials()), Begin(id))
    {
      if allow.None? {
        return;
      }
      current := if id in labels then labels[id] else Other;
      RemovalShrinks(labels, id);
      labels := labels - {id};
    }

    method ForgetDial(id: ConnectionId)
      requires Valid()
      modifies this`labels
      ensures Valid()
      ensures labels == if allow.None? then old(labels) else old(labels) - {id}
      ensures allow.Some? ==> Dials() == DialStep(old(Dials()), Forget(id))
    {
      if allow.None? {
        return;
      }
      RemovalShrinks(labels, id);
      labels := labels - {id};
    }
  }

  lemma RemovalShrinks(labels: map<ConnectionId, Source>, id: ConnectionId)
    ensures |labels - {id}| <= |labels|
  {
    var less := labels - {id};
    assert less.Keys == labels.Keys - {id};
    assert |less| == |less.Keys| && |labels| == |labels.Keys|;
  }

  // ── Attribution over runs ──

  function DialRun(s: DialState, ops: seq<DialOp>): DialState {
    if ops == [] then s else DialStep(DialRun(s, ops[..|ops| - 1]), ops[|ops| - 1])
  }

  function LabelCount(ops: seq<DialOp>): nat {
    if ops == [] then 0 else LabelCount(ops[..|ops| - 1]) + if ops[|ops| - 1].Label? then 1 else 0
  }

  /** The label a dial was last given, unless it began or was forgotten since. */
  function LastLabel(ops: seq<DialOp>, id: ConnectionId): Option<Source> {
    if ops == [] then None
    else
      var before, op := LastLabel(ops[..|ops| - 1], id), ops[|ops| - 1];
      if op.id != id then before else if op.Label? then Some(op.source) else None
  }

  /** The source of the dial that began last, as labelled then. */
  function LastBegun(ops: seq<DialOp>): Source {
    if ops == [] then Other
    else
      var before, op := ops[..|ops| - 1], ops[|ops| - 1];
      if !op.Begin? then LastBegun(before)
      else match LastLabel(before, op.id)
           case None => Other
           case Some(source) => source
  }

  /** Over any operations that bring in no more labels than there is room for, the table holds each dial's last label,
      and the current source is that of the dial begun last. */
  lemma {:induction false} LabelsTell(ops: seq<DialOp>)
    requires LabelCount(ops) <= DIAL_LABEL_CAP
    ensures var t := DialRun(DialState(map[], Other), ops);
            && (forall id :: LastLabel(ops, id) == if id in t.labels then Some(t.labels[id]) else None)
            && t.current == LastBegun(ops) && |t.labels| <= LabelCount(ops)
  {
    if ops != [] {
      var front, op := ops[..|ops| - 1], ops[|ops| - 1];
      LabelsTell(front);
      var t := DialRun(DialState(map[], Other), front);
      match op
      case Label(id, source) =>
        assert (t.labels[id := source]).Keys == t.labels.Keys + {id};
        assert |t.labels| == |t.labels.Keys| && |t.labels[id := source]| == |(t.labels[id := source]).Keys|;
      case Begin(id) => RemovalShrinks(t.labels, id);
      case Forget(id) => RemovalShrinks(t.labels, id);
    }
  }

  /** A label lasts until its dial begins: after labelling a dial, and any operations about other dials that bring in
      fewer labels than there is room for, beginning it makes its label current. */
  lemma {:induction false} LabelReachesItsDial(s: DialState, id: ConnectionId, source: Source, ops: seq<DialOp>)
    requires forall i :: 0 <= i < |ops| ==> ops[i].id != id
    requires |DialStep(s, Label(id, source)).labels| + LabelCount(ops) <= DIAL_LABEL_CAP
    ensures var t := DialRun(DialStep(s, Label(id, source)), ops);
            && id in t.labels && t.labels[id] == source
            && |t.labels| <= |DialStep(s, Label(id, source)).labels| + LabelCount(ops)
            && DialStep(t, Begin(id)).current == source
            && id !in DialStep(t, Begin(id)).labels
  {
    if ops != [] {
      var front, op := ops[..|ops| - 1], ops[|ops| - 1];
      LabelReachesItsDial(s, id, source, front);
      var t := DialRun(DialStep(s, Label(id, source)), front);
      assert op.id != id;
      match op
      case Label(other, other_) =>
        assert (t.labels[other := other_]).Keys == t.labels.Keys + {other};
        assert |t.labels| == |t.labels.Keys| && |t.labels[other := other_]| == |(t.labels[other := other_]).Keys|;
      case Begin(other) => RemovalShrinks(t.labels, other);
      case Forget(other) => RemovalShrinks(t.labels, other);
    }
  }
}
