/**
 The table against its history: after any sequence of operations a slot says exactly what the claims made on its key
 since it was last vacant say, every filed record meets exactly one fate, and neither domain can see the other.
 */
module CorrelationClaims {
  import opened Wrappers
  import opened Identity
  import opened Correlation

  // ── Runs ──

  datatype Op =
    | Record(key: OutboundKey, peer: PeerId, kind: RequestKind, now: nat)
    | Respond(key: OutboundKey, peer: PeerId, response: Response)
    | Fail(key: OutboundKey)
    | Reap(now: nat, ttl: nat)

  datatype Result = OfRecord(r: RecordResult) | OfResponse(s: ResponseResult) | OfFailure(f: FailureResult) | OfReap

  function Apply(slots: Slots, op: Op): Slots {
    match op
    case Record(key, peer, kind, now) => RecordSlots(slots, key, peer, kind, now)
    case Respond(key, _, _) => SpendSlots(slots, key)
    case Fail(key) => SpendSlots(slots, key)
    case Reap(now, ttl) => ReapSlots(slots, now, ttl)
  }

  function ResultOf(slots: Slots, op: Op): Result {
    match op
    case Record(key, _, kind, _) => OfRecord(RecordOutcome(slots, key, kind))
    case Respond(key, peer, response) => OfResponse(ResponseOutcome(slots, key, peer, response))
    case Fail(key) => OfFailure(FailureOutcome(slots, key))
    case Reap(_, _) => OfReap
  }

  /** The table after a history of operations. */
  function After(ops: seq<Op>): Slots {
    if ops == [] then map[] else Apply(After(ops[..|ops| - 1]), ops[|ops| - 1])
  }

  // ── The claims specification ──

  /** A request for a key, made by the operation at position `filing` of the history. */
  datatype Claim = Claim(peer: PeerId, kind: RequestKind, at: nat, filing: nat)

  type Claims = map<OutboundKey, seq<Claim>>

  predicate Stands(claims: seq<Claim>, now: nat, ttl: nat)
    requires claims != []
  {
    if |claims| == 1 then Age(now, claims[0].at) < ttl
    else Age(now, claims[|claims| - 1].at) < POISON_TTL
  }

  predicate Sole(claims: Claims, key: OutboundKey) {
    key in claims && |claims[key]| == 1
  }

  /** The claims after one more operation, the `n`-th. A key is vacated by the end of its only request, or by age: the
      only claim's, or the latest of several. */
  function ClaimsOf(claims: Claims, op: Op, n: nat): (r: Claims)
    requires forall key | key in claims :: claims[key] != []
    ensures forall key | key in r :: r[key] != []
  {
    match op
    case Record(key, peer, kind, now) =>
      if kind.Protocol() != key.domain.Protocol() then claims
      else claims[key := (if key in claims then claims[key] else []) + [Claim(peer, kind, now, n)]]
    case Respond(key, _, _) => if Sole(claims, key) then claims - {key} else claims
    case Fail(key) => if Sole(claims, key) then claims - {key} else claims
    case Reap(now, ttl) => map key | key in claims && Stands(claims[key], now, ttl) :: claims[key]
  }

  /** The claims made on each key since it was last vacant. */
  function ClaimsAfter(ops: seq<Op>): (r: Claims)
    ensures forall key | key in r :: r[key] != []
  {
    if ops == [] then map[] else ClaimsOf(ClaimsAfter(ops[..|ops| - 1]), ops[|ops| - 1], |ops| - 1)
  }

  /** What a slot says of the claims on its key: one is kept, several keep only the labels of the first and the latest
      and the time of the latest. */
  function SlotOf(claims: seq<Claim>): Slot
    requires claims != []
  {
    var first, last := claims[0], claims[|claims| - 1];
    if |claims| == 1 then Pending(first.peer, first.kind, first.at)
    else Poisoned(last.at, first.kind.Label(), last.kind.Label())
  }

  ghost predicate Represents(slots: Slots, claims: Claims) {
    && slots.Keys == claims.Keys
    && forall key | key in claims :: claims[key] != [] && slots[key] == SlotOf(claims[key])
  }

  /** The table refines the claims, over every history. */
  lemma {:induction false} TableRefinesClaims(ops: seq<Op>)
    ensures Represents(After(ops), ClaimsAfter(ops))
  {
    if ops != [] {
      var n := |ops| - 1;
      TableRefinesClaims(ops[..n]);
      ApplyRefinesClaims(After(ops[..n]), ClaimsAfter(ops[..n]), ops[n], n);
    }
  }

  lemma ApplyRefinesClaims(slots: Slots, claims: Claims, op: Op, n: nat)
    requires Represents(slots, claims)
    ensures Represents(Apply(slots, op), ClaimsOf(claims, op, n))
  {
    match op
    case Record(key, peer, kind, now) => RecordRefinesClaims(slots, claims, key, peer, kind, now, n);
    case Respond(_, _, _) =>
    case Fail(_) =>
    case Reap(_, _) =>
  }

  lemma RecordRefinesClaims(slots: Slots, claims: Claims, key: OutboundKey, peer: PeerId, kind: RequestKind, now: nat,
                            n: nat)
    requires Represents(slots, claims)
    ensures Represents(RecordSlots(slots, key, peer, kind, now), ClaimsOf(claims, Record(key, peer, kind, now), n))
  {
  }

  /** Only requests of the domain's own protocol ever hold a key. */
  lemma {:induction false} ClaimsKeepToTheirProtocol(ops: seq<Op>, key: OutboundKey)
    requires key in ClaimsAfter(ops)
    ensures forall c | c in ClaimsAfter(ops)[key] :: c.kind.Protocol() == key.domain.Protocol()
  {
    var n := |ops| - 1;
    if key in ClaimsAfter(ops[..n]) {
      ClaimsKeepToTheirProtocol(ops[..n], key);
    }
  }

  /** A response is accepted exactly when one request alone claims its id, that request went to the peer that answers,
      and the response answers it; and what is handed on is that request's identity. */
  lemma AcceptedIff(ops: seq<Op>, key: OutboundKey, peer: PeerId, response: Response, origin: Origin)
    ensures ResponseOutcome(After(ops), key, peer, response) == Accepted(origin)
            <==> && Sole(ClaimsAfter(ops), key)
                 && var c := ClaimsAfter(ops)[key][0];
                 c.peer == peer && CheckResponse(c.kind, response).Answers? && origin == Origin(c.peer, c.kind)
  {
    TableRefinesClaims(ops);
  }

  /** Why a response is not accepted: nobody claims its id, several do, the one that does was sent to another peer, or
      it does not answer what was asked. */
  lemma RejectedIff(ops: seq<Op>, key: OutboundKey, peer: PeerId, response: Response, error: CorrelationError)
    ensures var claims := ClaimsAfter(ops);
            ResponseOutcome(After(ops), key, peer, response) == Rejected(error)
            <==> if key !in claims then error == UnknownRequestId
                 else
                   var first, last := claims[key][0], claims[key][|claims[key]| - 1];
                   if |claims[key]| > 1 then error == PoisonedRequestId(first.kind.Label(), last.kind.Label())
                   else if first.peer != peer then error == PeerMismatch(first.peer, peer)
                   else CheckResponse(first.kind, response) == Refused(error)
  {
    TableRefinesClaims(ops);
  }

  /** What a failure of a request is answered with: the identity of the one request that claims its id, or why there is
      none: nobody does, or several do. */
  lemma FailureIff(ops: seq<Op>, key: OutboundKey)
    ensures var claims, r := ClaimsAfter(ops), FailureOutcome(After(ops), key);
            && (forall origin :: r == Retained(origin)
                                 <==> Sole(claims, key)
                                      && origin == Origin(claims[key][0].peer, claims[key][0].kind))
            && (r.PoisonedKey? <==> key in claims && |claims[key]| > 1)
            && (r.Unknown? <==> key !in claims)
  {
    TableRefinesClaims(ops);
  }

  /** What filing a request is answered with: another protocol's request is refused, a vacant key is filed, and a
      claimed one names the first claim and the new one. */
  lemma RecordedIff(ops: seq<Op>, key: OutboundKey, kind: RequestKind)
    ensures var claims, r := ClaimsAfter(ops), RecordOutcome(After(ops), key, kind);
            && (r.DomainProtocolMismatch? <==> kind.Protocol() != key.domain.Protocol())
            && (r.Filed? <==> kind.Protocol() == key.domain.Protocol() && key !in claims)
            && (r.Collision? ==> key in claims && r == Collision(key, claims[key][0].kind.Label(), kind.Label()))
  {
    TableRefinesClaims(ops);
  }

  // ── Every filed record meets exactly one fate ──

  datatype Fate = WasAccepted | WasRefused | HadFailed | WasReaped | WasPoisoned

  /** The filing of the sole claim on a key. */
  function SoleFiling(claims: Claims, key: OutboundKey): nat
    requires Sole(claims, key)
  {
    claims[key][0].filing
  }

  /** The operation ends the record that holds `key` alone. */
  predicate Ends(claims: Claims, key: OutboundKey, op: Op)
    requires Sole(claims, key)
  {
    match op
    case Record(k, _, kind, _) => k == key && kind.Protocol() == key.domain.Protocol()
    case Respond(k, _, _) => k == key
    case Fail(k) => k == key
    case Reap(now, ttl) => !Stands(claims[key], now, ttl)
  }

  function EndedBy(claims: Claims, op: Op): set<nat> {
    set key | key in claims && Sole(claims, key) && Ends(claims, key, op) :: SoleFiling(claims, key)
  }

  /** What an operation means for the records it ends. */
  function FateDealt(before: seq<Op>, op: Op): Fate {
    match op
    case Record(_, _, _, _) => WasPoisoned
    case Respond(key, peer, response) =>
      if ResponseOutcome(After(before), key, peer, response).Accepted? then WasAccepted else WasRefused
    case Fail(_) => HadFailed
    case Reap(_, _) => WasReaped
  }

  function Decided(before: seq<Op>, op: Op): map<nat, Fate> {
    map f | f in EndedBy(ClaimsAfter(before), op) :: FateDealt(before, op)
  }

  function Fates(ops: seq<Op>): map<nat, Fate> {
    if ops == [] then map[]
    else Fates(ops[..|ops| - 1]) + Decided(ops[..|ops| - 1], ops[|ops| - 1])
  }

  /** The operations that filed a record. */
  function FiledBy(ops: seq<Op>): set<nat> {
    if ops == [] then {}
    else
      var n := |ops| - 1;
      if ResultOf(After(ops[..n]), ops[n]) == OfRecord(Filed) then FiledBy(ops[..n]) + {n} else FiledBy(ops[..n])
  }

  /** The records still waiting for their terminal event. */
  ghost function StillPending(claims: Claims): set<nat> {
    set key | key in claims && Sole(claims, key) :: SoleFiling(claims, key)
  }

  ghost predicate DistinctFilings(claims: Claims, n: nat) {
    && (forall key | key in claims && Sole(claims, key) :: SoleFiling(claims, key) < n)
    && (forall j, k | j in claims && k in claims && Sole(claims, j) && Sole(claims, k)
        && SoleFiling(claims, j) == SoleFiling(claims, k)
          :: j == k)
  }

  lemma {:induction false} FilingsAreDistinct(ops: seq<Op>)
    ensures DistinctFilings(ClaimsAfter(ops), |ops|)
  {
    if ops != [] {
      FilingsAreDistinct(ops[..|ops| - 1]);
    }
  }

  /** Whether the operation, appended to the history, files a record under `key`. */
  ghost predicate Files(before: seq<Op>, op: Op, key: OutboundKey) {
    op.Record? && op.key == key && ResultOf(After(before), op) == OfRecord(Filed)
  }

  lemma FilesIff(before: seq<Op>, op: Op, key: OutboundKey)
    ensures Files(before, op, key)
            <==> op.Record? && op.key == key && op.kind.Protocol() == key.domain.Protocol()
                 && key !in ClaimsAfter(before)
  {
    TableRefinesClaims(before);
  }

  lemma SoleAfter(claims: Claims, op: Op, key: OutboundKey, n: nat)
    requires forall k | k in claims :: claims[k] != []
    ensures var claims' := ClaimsOf(claims, op, n);
            var files := op.Record? && op.key == key && op.kind.Protocol() == key.domain.Protocol() && key !in claims;
            && (Sole(claims', key) <==> (Sole(claims, key) && !Ends(claims, key, op)) || files)
            && (Sole(claims', key) && files ==> SoleFiling(claims', key) == n)
            && (Sole(claims', key) && !files ==> SoleFiling(claims', key) == SoleFiling(claims, key))
  {
  }

  /** Key by key: a record is pending afterwards if it was and was not ended, or if it was just filed. */
  lemma PendingAfter(before: seq<Op>, op: Op, key: OutboundKey)
    ensures var claims, claims' := ClaimsAfter(before), ClaimsAfter(before + [op]);
            && (Sole(claims', key) <==> (Sole(claims, key) && !Ends(claims, key, op)) || Files(before, op, key))
            && (Sole(claims', key) && Files(before, op, key) ==>
                !Sole(claims, key) && SoleFiling(claims', key) == |before|)
            && (Sole(claims', key) && !Files(before, op, key) ==> SoleFiling(claims', key) == SoleFiling(claims, key))
  {
    assert (before + [op])[..|before|] == before;
    FilesIff(before, op, key);
    SoleAfter(ClaimsAfter(before), op, key, |before|);
  }

  /** One operation moves the records it ends from pending to decided, and adds the one it files, if it files one. */
  lemma PendingMoves(before: seq<Op>, op: Op)
    ensures var claims, filed := ClaimsAfter(before), FiledBy(before + [op]) - FiledBy(before);
            && EndedBy(claims, op) <= StillPending(claims)
            && StillPending(ClaimsAfter(before + [op])) == (StillPending(claims) - EndedBy(claims, op)) + filed
  {
    var claims, claims' := ClaimsAfter(before), ClaimsAfter(before + [op]);
    var pending, pending', ended := StillPending(claims), StillPending(claims'), EndedBy(claims, op);
    var filed := FiledBy(before + [op]) - FiledBy(before);
    assert (before + [op])[..|before|] == before;
    FilingsAreDistinct(before);
    FiledAreEarlier(before);
    forall key ensures Sole(claims', key) <==> (Sole(claims, key) && !Ends(claims, key, op)) || Files(before, op, key) {
      PendingAfter(before, op, key);
    }
    forall f | f in pending' ensures f in (pending - ended) + filed {
      var key :| key in claims' && Sole(claims', key) && SoleFiling(claims', key) == f;
      PendingAfter(before, op, key);
    }
    forall f | f in (pending - ended) + filed ensures f in pending' {
      if f in filed {
        PendingAfter(before, op, op.key);
      } else {
        var key :| key in claims && Sole(claims, key) && SoleFiling(claims, key) == f;
        PendingAfter(before, op, key);
      }
    }
  }

  lemma {:induction false} FiledAreEarlier(ops: seq<Op>)
    ensures forall f | f in FiledBy(ops) :: f < |ops|
  {
    if ops != [] {
      FiledAreEarlier(ops[..|ops| - 1]);
    }
  }

  /** Conservation: after any history, each filed record is either pending or has met a fate, never both, and nothing
      else has. */
  lemma {:induction false} RecordsAreConserved(ops: seq<Op>)
    ensures FiledBy(ops) == Fates(ops).Keys + StillPending(ClaimsAfter(ops))
    ensures Fates(ops).Keys !! StillPending(ClaimsAfter(ops))
  {
    if ops != [] {
      var n := |ops| - 1;
      var before, op := ops[..n], ops[n];
      assert ops == before + [op];
      RecordsAreConserved(before);
      PendingMoves(before, op);
      FiledAreEarlier(before);
      var fresh_ := FiledBy(ops) - FiledBy(before);
      assert FiledBy(ops) == FiledBy(before) + fresh_ && fresh_ <= {n};
    }
  }

  /** A fate is final: later operations add fates and change none. */
  lemma FatesAreFinal(ops: seq<Op>, op: Op)
    ensures forall f | f in Fates(ops) :: f in Fates(ops + [op]) && Fates(ops + [op])[f] == Fates(ops)[f]
  {
    assert (ops + [op])[..|ops|] == ops;
    RecordsAreConserved(ops);
    PendingMoves(ops, op);
  }

  // ── The domains do not interfere ──

  predicate Concerns(op: Op, d: RequestDomain) {
    match op
    case Record(key, _, _, _) => key.domain == d
    case Respond(key, _, _) => key.domain == d
    case Fail(key) => key.domain == d
    case Reap(_, _) => true
  }

  /** The operations a domain sees: its own, and the reaper's. */
  function Only(ops: seq<Op>, d: RequestDomain): seq<Op> {
    if ops == [] then []
    else
      var rest := Only(ops[..|ops| - 1], d);
      if Concerns(ops[|ops| - 1], d) then rest + [ops[|ops| - 1]] else rest
  }

  function Part(slots: Slots, d: RequestDomain): Slots {
    map key | key in slots && key.domain == d :: slots[key]
  }

  /** Dropping every operation of the other domain from a history changes neither this domain's part of the table nor
      the result of any operation of this domain. */
  lemma {:induction false} DomainsDoNotInterfere(ops: seq<Op>, d: RequestDomain)
    ensures Part(After(ops), d) == After(Only(ops, d))
    ensures forall op | Concerns(op, d) && !op.Reap? :: ResultOf(After(ops), op) == ResultOf(After(Only(ops, d)), op)
  {
    if ops != [] {
      var n := |ops| - 1;
      DomainsDoNotInterfere(ops[..n], d);
      var mine := Only(ops[..n], d);
      if Concerns(ops[n], d) {
        assert (mine + [ops[n]])[..|mine|] == mine;
        assert Part(Apply(After(ops[..n]), ops[n]), d) == Apply(Part(After(ops[..n]), d), ops[n]);
      } else {
        assert Part(Apply(After(ops[..n]), ops[n]), d) == Part(After(ops[..n]), d);
      }
    }
    PartDecidesResults(After(ops), d);
  }

  lemma PartDecidesResults(slots: Slots, d: RequestDomain)
    ensures forall op | Concerns(op, d) && !op.Reap? :: ResultOf(slots, op) == ResultOf(Part(slots, d), op)
  {
  }
}
