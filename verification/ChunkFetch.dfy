/**
 The chunk phase of a V2 Public download, as a state machine over network events.

 Every chunk has the list of archives assigned to it. It is asked of one archive at a time; a good answer
 finishes it, anything else moves it on to its next archive. `Step` is one turn of the event loop, `Run` the
 loop itself. What the loop puts on the network and what it concludes from the answers is kept in `trace`.
 */
module ChunkFetch {
  import opened Wrappers
  import opened Identity
  import opened Routing

  type Bytes = seq<bv8>

  // The binary form of a content identifier, which its text form encodes one to one.
  type Cid = seq<bv8>

  type Digest = seq<bv8>

  // ── What is being downloaded ──

  datatype ChunkDescriptor = ChunkDescriptor(size: nat, hash: Digest, cid: Cid)

  /** A validated manifest (chunk `i` is at position `i`), the archives assigned to each chunk, the cap on
      requests in flight, and the two content-addressing functions. */
  datatype Job = Job(
    chunks: seq<ChunkDescriptor>,
    rankings: map<nat, seq<Address>>,
    maxConcurrent: nat,
    hashOf: Bytes -> Digest,
    cidOf: Digest -> Cid)
  {
    /** The assigned archives of chunk `i` in chain order; a chunk the view does not know has none. */
    function Ranking(i: nat): seq<Address> {
      if i in rankings then rankings[i] else []
    }

    /** The least number of places that is at least one and at least what the operator set. */
    function Cap(): (r: nat)
      ensures r >= 1 && r >= maxConcurrent && (r == 1 || r == maxConcurrent)
    {
      if maxConcurrent == 0 then 1 else maxConcurrent
    }

    /** What manifest validation and the assignment function guarantee. */
    ghost predicate Valid() {
      && (forall i :: 0 <= i < |chunks| ==> chunks[i].cid == cidOf(chunks[i].hash))
      && (forall i :: 0 <= i < |chunks| ==> NoDuplicates(Ranking(i)))
    }

    /** A content identifier names one digest. */
    ghost predicate FaithfulCids() {
      forall g, h :: cidOf(g) == cidOf(h) ==> g == h
    }
  }

  // ── State ──

  datatype Request = Request(peer: PeerId, archive: Address)

  datatype ChunkState = ChunkState(order: seq<Address>, next: nat, inFlight: Option<Request>, done: bool)

  datatype Output =
    | Pull(chunk: nat, request: Request)
    | Delivered(chunk: nat, request: Request)
    | Rejected(chunk: nat, request: Request)

  datatype FetchState = FetchState(
    chunks: seq<ChunkState>,
    peers: map<PeerId, Address>,
    skipUnresolved: bool,
    store: map<Cid, Bytes>,
    fetched: nat,
    skipped: nat,
    attribution: map<PeerId, nat>,
    trace: seq<Output>)
  {
    predicate AllDone() {
      forall i :: 0 <= i < |chunks| ==> chunks[i].done
    }
  }

  // ── Events ──

  datatype Event =
    | PeerIdentified(peer: PeerId, address: Address)
    | PeerDisconnected(peer: PeerId)
    | ChunkData(peer: PeerId, cid: Cid, offset: nat, total: nat, data: Bytes, peerError: bool)
    | RequestFailed(peer: PeerId, requestedCid: Option<Cid>)
    | GraceElapsed
    | DeadlinePassed
    | NetworkClosed
    | Unrelated

  /** One turn's event, with what the environment contributes to it: an inverse of the peer map (two peers may
      claim one address, and either may be found), which send of this turn fails, if any, and whether the
      store accepts a write. */
  datatype Input = Input(event: Event, addrToPeer: map<Address, PeerId>, sendFailsAt: Option<nat>, storeAccepts: bool)

  datatype FetchError =
    | TimedOut(chunk: nat)
    | Exhausted(chunk: nat, archives: nat)
    | SendFailed(chunk: nat)
    | StoreFailed(cid: Cid)
    | ShutDown

  datatype Verdict = Running | Stopped(error: FetchError)

  datatype StepResult = StepResult(state: FetchState, verdict: Verdict)

  function PeersAfter(peers: map<PeerId, Address>, event: Event): map<PeerId, Address> {
    match event
    case PeerIdentified(p, a) => peers[p := a]
    case PeerDisconnected(p) => peers - {p}
    case _ => peers
  }

  ghost predicate ValidInput(s: FetchState, input: Input) {
    Inverts(input.addrToPeer, PeersAfter(s.peers, input.event))
  }

  // ── Dispatch ──

  datatype Dispatch = Dispatch(chunk: nat, peer: PeerId, pos: nat)

  function InFlightCount(chunks: seq<ChunkState>): nat {
    if chunks == [] then 0
    else InFlightCount(chunks[..|chunks| - 1]) + if chunks[|chunks| - 1].inFlight.Some? then 1 else 0
  }

  /** A chunk that is neither finished nor in flight has an archive it may be asked of. */
  ghost predicate Askable(c: ChunkState, identified: set<Address>, skip: bool) {
    && !c.done
    && c.inFlight.None?
    && exists pos :: MayAsk(c.order, c.next, identified, skip, pos)
  }

  /** The request a chunk is due, if any. */
  function DueDispatch(chunks: seq<ChunkState>, i: nat, addrToPeer: map<Address, PeerId>, skip: bool)
    : (r: Option<Dispatch>)
    requires i < |chunks|
    ensures r.Some? <==> Askable(chunks[i], addrToPeer.Keys, skip)
    ensures r.Some? ==>
              && r.value.chunk == i
              && MayAsk(chunks[i].order, chunks[i].next, addrToPeer.Keys, skip, r.value.pos)
              && r.value.peer == addrToPeer[chunks[i].order[r.value.pos]]
              && forall pos | MayAsk(chunks[i].order, chunks[i].next, addrToPeer.Keys, skip, pos) :: r.value.pos <= pos
  {
    if chunks[i].done || chunks[i].inFlight.Some? then None
    else
      match NextAssignedArchive(chunks[i].order, chunks[i].next, addrToPeer, skip)
      case None => None
      case Some((pos, peer)) => Some(Dispatch(i, peer, pos))
  }

  /** Every due request from chunk `from` on, in manifest order, ignoring the cap. */
  function DueFrom(chunks: seq<ChunkState>, from: nat, addrToPeer: map<Address, PeerId>, skip: bool): seq<Dispatch>
    requires from <= |chunks|
    decreases |chunks| - from
  {
    if from == |chunks| then []
    else
      var rest := DueFrom(chunks, from + 1, addrToPeer, skip);
      match DueDispatch(chunks, from, addrToPeer, skip)
      case None => rest
      case Some(d) => [d] + rest
  }

  ghost predicate Mentions(ds: seq<Dispatch>, i: nat) {
    exists k :: 0 <= k < |ds| && ds[k].chunk == i
  }

  /** Each request listed is the one its chunk is due, and they come in manifest order. */
  ghost predicate DueInOrder(ds: seq<Dispatch>, chunks: seq<ChunkState>, from: nat, addrToPeer: map<Address, PeerId>,
                             skip: bool)
  {
    && (forall k :: 0 <= k < |ds| ==>
          from <= ds[k].chunk < |chunks| && DueDispatch(chunks, ds[k].chunk, addrToPeer, skip) == Some(ds[k]))
    && (forall k, l :: 0 <= k < l < |ds| ==> ds[k].chunk < ds[l].chunk)
  }

  lemma {:induction false} DueFromSound(chunks: seq<ChunkState>, from: nat, addrToPeer: map<Address, PeerId>,
                                        skip: bool)
    requires from <= |chunks|
    ensures DueInOrder(DueFrom(chunks, from, addrToPeer, skip), chunks, from, addrToPeer, skip)
    decreases |chunks| - from
  {
    if from < |chunks| {
      DueFromSound(chunks, from + 1, addrToPeer, skip);
      var ds, rest := DueFrom(chunks, from, addrToPeer, skip), DueFrom(chunks, from + 1, addrToPeer, skip);
      var due := DueDispatch(chunks, from, addrToPeer, skip);
      if due.Some? {
        assert ds == [due.value] + rest;
        assert forall k :: 0 < k < |ds| ==> ds[k] == rest[k - 1];
      } else {
        assert ds == rest;
      }
    }
  }

  /** No chunk that could be asked is left out. */
  lemma {:induction false} DueFromComplete(chunks: seq<ChunkState>, from: nat, addrToPeer: map<Address, PeerId>,
                                           skip: bool, i: nat)
    requires from <= i < |chunks| && Askable(chunks[i], addrToPeer.Keys, skip)
    ensures Mentions(DueFrom(chunks, from, addrToPeer, skip), i)
    decreases i - from
  {
    var ds := DueFrom(chunks, from, addrToPeer, skip);
    if from == i {
      assert ds[0].chunk == i;
    } else {
      DueFromComplete(chunks, from + 1, addrToPeer, skip, i);
      var rest := DueFrom(chunks, from + 1, addrToPeer, skip);
      var k :| 0 <= k < |rest| && rest[k].chunk == i;
      assert ds[k].chunk == i || ds[k + 1].chunk == i;
    }
  }

  function Take<T>(s: seq<T>, n: int): (r: seq<T>) {
    if n <= 0 then [] else if n >= |s| then s else s[..n]
  }

  /** The requests to send now: the due ones in manifest order, as many as the cap has room for. */
  function SelectDispatches(chunks: seq<ChunkState>, addrToPeer: map<Address, PeerId>, cap: nat, skip: bool)
    : seq<Dispatch>
  {
    Take(DueFrom(chunks, 0, addrToPeer, skip), cap - InFlightCount(chunks))
  }

  lemma SelectedAreSendable(chunks: seq<ChunkState>, addrToPeer: map<Address, PeerId>, cap: nat, skip: bool)
    ensures Sendable(chunks, SelectDispatches(chunks, addrToPeer, cap, skip), addrToPeer.Keys, skip)
  {
    DueFromSound(chunks, 0, addrToPeer, skip);
    var due, ds := DueFrom(chunks, 0, addrToPeer, skip), SelectDispatches(chunks, addrToPeer, cap, skip);
    assert |ds| <= |due| && forall k :: 0 <= k < |ds| ==> ds[k] == due[k];
  }

  function Ask(s: FetchState, d: Dispatch): FetchState
    requires d.chunk < |s.chunks|
    requires s.chunks[d.chunk].next <= d.pos < |s.chunks[d.chunk].order|
  {
    var c := s.chunks[d.chunk];
    var request := Request(d.peer, c.order[d.pos]);
    var c' := ChunkState(MarkAsked(c.order, c.next, d.pos), c.next + 1, Some(request), c.done);
    s.(chunks := s.chunks[d.chunk := c'], trace := s.trace + [Pull(d.chunk, request)])
  }

  /** The request fits the state it is about to be sent from. */
  ghost predicate CanSend(chunks: seq<ChunkState>, d: Dispatch, identified: set<Address>, skip: bool) {
    && d.chunk < |chunks|
    && !chunks[d.chunk].done
    && chunks[d.chunk].inFlight.None?
    && MayAsk(chunks[d.chunk].order, chunks[d.chunk].next, identified, skip, d.pos)
  }

  ghost predicate Sendable(chunks: seq<ChunkState>, ds: seq<Dispatch>, identified: set<Address>, skip: bool) {
    && (forall k :: 0 <= k < |ds| ==> CanSend(chunks, ds[k], identified, skip))
    && (forall k, l :: 0 <= k < l < |ds| ==> ds[k].chunk != ds[l].chunk)
  }

  /** Send the requests in order; the first send that fails ends the fetch with its chunk unmarked. */
  function SendAll(s: FetchState, ds: seq<Dispatch>, failsAt: Option<nat>, identified: set<Address>): StepResult
    requires Sendable(s.chunks, ds, identified, s.skipUnresolved)
    decreases |ds|
  {
    if ds == [] then StepResult(s, Running)
    else if failsAt == Some(0) then StepResult(s, Stopped(SendFailed(ds[0].chunk)))
    else
      assert forall k :: 0 <= k < |ds[1..]| ==> ds[1..][k] == ds[k + 1];
      SendAll(Ask(s, ds[0]), ds[1..], if failsAt.Some? then Some(failsAt.value - 1) else None, identified)
  }

  function TryDispatch(job: Job, s: FetchState, input: Input): StepResult {
    var ds := SelectDispatches(s.chunks, input.addrToPeer, job.Cap(), s.skipUnresolved);
    SelectedAreSendable(s.chunks, input.addrToPeer, job.Cap(), s.skipUnresolved);
    SendAll(s, ds, input.sendFailsAt, input.addrToPeer.Keys)
  }

  // ── Settling an answer ──

  /** The chunk a CID's answers are credited to: the last one in the manifest that carries it. */
  function CidToIndex(chunks: seq<ChunkDescriptor>): (r: map<Cid, nat>)
    ensures forall cid | cid in r :: r[cid] < |chunks| && chunks[r[cid]].cid == cid
    ensures forall i | 0 <= i < |chunks| :: chunks[i].cid in r && i <= r[chunks[i].cid]
  {
    if chunks == [] then map[]
    else
      var n := |chunks| - 1;
      CidToIndex(chunks[..n])[chunks[n].cid := n]
  }

  /** The whole chunk in one piece, with the bytes the manifest commits to. */
  predicate GoodAnswer(job: Job, cd: ChunkDescriptor, e: Event)
    requires e.ChunkData?
  {
    && !e.peerError
    && e.offset == 0 && e.total == cd.size && |e.data| == cd.size
    && job.hashOf(e.data) == cd.hash
  }

  function Increment(counts: map<PeerId, nat>, p: PeerId): map<PeerId, nat> {
    counts[p := (if p in counts then counts[p] else 0) + 1]
  }

  function Finish(job: Job, s: FetchState, i: nat, data: Bytes): FetchState
    requires i < |s.chunks| == |job.chunks| && s.chunks[i].inFlight.Some?
  {
    var request := s.chunks[i].inFlight.value;
    var cid := job.chunks[i].cid;
    s.(chunks := s.chunks[i := s.chunks[i].(inFlight := None, done := true)],
    store := if cid in s.store then s.store else s.store[cid := data],
    fetched := s.fetched + 1,
    attribution := Increment(s.attribution, request.peer),
    trace := s.trace + [Delivered(i, request)])
  }

  function Release(s: FetchState, i: nat): FetchState
    requires i < |s.chunks| && s.chunks[i].inFlight.Some?
  {
    s.(chunks := s.chunks[i := s.chunks[i].(inFlight := None)],
    trace := s.trace + [Rejected(i, s.chunks[i].inFlight.value)])
  }

  /** Chunk `i` was let go: its next archive is asked, or there is none left. */
  function MoveOn(job: Job, s: FetchState, i: nat, input: Input): StepResult
    requires i < |s.chunks|
  {
    if s.chunks[i].next >= |s.chunks[i].order| then StepResult(s, Stopped(Exhausted(i, |s.chunks[i].order|)))
    else TryDispatch(job, s, input)
  }

  /** Give up on the archive chunk `i` is in flight to. */
  function Reject(job: Job, s: FetchState, i: nat, input: Input): StepResult
    requires i < |s.chunks| && s.chunks[i].inFlight.Some?
  {
    MoveOn(job, Release(s, i), i, input)
  }

  /** The chunk an answer or failure from `peer` about `cid` settles, if any. */
  function Settles(job: Job, s: FetchState, peer: PeerId, cid: Cid): (r: Option<nat>)
    requires |s.chunks| == |job.chunks|
    ensures r.Some? ==>
              && r.value < |s.chunks|
              && job.chunks[r.value].cid == cid
              && s.chunks[r.value].inFlight.Some?
              && s.chunks[r.value].inFlight.value.peer == peer
  {
    var index := CidToIndex(job.chunks);
    if cid !in index then None
    else
      var c := s.chunks[index[cid]];
      if c.inFlight.Some? && c.inFlight.value.peer == peer then Some(index[cid]) else None
  }

  function FirstPending(chunks: seq<ChunkState>): nat {
    if chunks == [] || !chunks[0].done then 0 else 1 + FirstPending(chunks[1..])
  }

  /** The chunk a timeout names: the first unfinished one. */
  function TimedOutChunk(chunks: seq<ChunkState>): nat {
    if FirstPending(chunks) < |chunks| then FirstPending(chunks) else 0
  }

  // ── The event loop ──

  function Step(job: Job, s: FetchState, input: Input): StepResult
    requires |s.chunks| == |job.chunks|
  {
    match input.event
    case PeerIdentified(_, _) => TryDispatch(job, s.(peers := PeersAfter(s.peers, input.event)), input)
    case PeerDisconnected(_) => TryDispatch(job, s.(peers := PeersAfter(s.peers, input.event)), input)
    case GraceElapsed =>
      if s.skipUnresolved then StepResult(s, Running)
      else TryDispatch(job, s.(skipUnresolved := true), input)
    case ChunkData(peer, cid, _, _, data, _) =>
      (match Settles(job, s, peer, cid)
       case None => StepResult(s, Running)
       case Some(i) =>
         if s.chunks[i].done then StepResult(s, Running)
         else if !GoodAnswer(job, job.chunks[i], input.event) then Reject(job, s, i, input)
         else if !input.storeAccepts then StepResult(s, Stopped(StoreFailed(cid)))
         else TryDispatch(job, Finish(job, s, i, data), input))
    case RequestFailed(peer, None) => StepResult(s, Running)
    case RequestFailed(peer, Some(cid)) =>
      (match Settles(job, s, peer, cid)
       case None => StepResult(s, Running)
       case Some(i) => Reject(job, s, i, input))
    case DeadlinePassed => StepResult(s, Stopped(TimedOut(TimedOutChunk(s.chunks))))
    case NetworkClosed => StepResult(s, Stopped(ShutDown))
    case Unrelated => StepResult(s, Running)
  }

  datatype Outcome = Completed | Failed(error: FetchError) | Waiting

  datatype RunResult = RunResult(state: FetchState, outcome: Outcome)

  /** The loop: it ends when every chunk is done or a turn stops it, and otherwise waits for the next event. */
  function Run(job: Job, s: FetchState, inputs: seq<Input>): RunResult
    requires |s.chunks| == |job.chunks|
    decreases |inputs|
  {
    if s.AllDone() then RunResult(s, Completed)
    else if inputs == [] then RunResult(s, Waiting)
    else
      var r := Step(job, s, inputs[0]);
      if r.verdict.Stopped? then RunResult(r.state, Failed(r.verdict.error))
      else
        StepKeepsLength(job, s, inputs[0]);
        Run(job, r.state, inputs[1..])
  }

  ghost predicate ValidRun(job: Job, s: FetchState, inputs: seq<Input>)
    requires |s.chunks| == |job.chunks|
    decreases |inputs|
  {
    inputs == [] || s.AllDone() || (
      && ValidInput(s, inputs[0])
      && var r := Step(job, s, inputs[0]);
      (StepKeepsLength(job, s, inputs[0]);
       r.verdict.Stopped? || ValidRun(job, r.state, inputs[1..])))
  }

  function InitialChunk(job: Job, store: map<Cid, Bytes>, i: nat): ChunkState
    requires i < |job.chunks|
  {
    ChunkState(job.Ranking(i), 0, None, job.chunks[i].cid in store)
  }

  /** Before the first dispatch: a chunk already in the store is done. */
  function InitialState(job: Job, peers: map<PeerId, Address>, store: map<Cid, Bytes>): FetchState {
    FetchState(
      seq(|job.chunks|, i requires 0 <= i < |job.chunks| => InitialChunk(job, store, i)),
      peers, false, store, 0, Present(job.chunks, store), map[], [])
  }

  function Present(chunks: seq<ChunkDescriptor>, store: map<Cid, Bytes>): nat {
    if chunks == [] then 0
    else Present(chunks[..|chunks| - 1], store) + if chunks[|chunks| - 1].cid in store then 1 else 0
  }

  /** The whole phase: one dispatch from the initial state, then the loop. */
  function Fetch(job: Job, peers: map<PeerId, Address>, store: map<Cid, Bytes>, first: Input, inputs: seq<Input>)
    : RunResult
  {
    var s0 := InitialState(job, peers, store);
    var r := TryDispatch(job, s0, first);
    if r.verdict.Stopped? then RunResult(r.state, Failed(r.verdict.error))
    else
      DispatchKeepsLength(job, s0, first);
      Run(job, r.state, inputs)
  }

  /** A fetch whose every turn is given an inverse of the peer map it acts on. The first dispatch acts on the
      peers known at the start. */
  ghost predicate ValidFetch(job: Job, peers: map<PeerId, Address>, store: map<Cid, Bytes>, first: Input,
                             inputs: seq<Input>)
  {
    && Inverts(first.addrToPeer, peers)
    && var r := TryDispatch(job, InitialState(job, peers, store), first);
    (DispatchKeepsLength(job, InitialState(job, peers, store), first);
     r.verdict.Stopped? || ValidRun(job, r.state, inputs))
  }

  lemma {:induction false} SendAllKeepsLength(s: FetchState, ds: seq<Dispatch>, failsAt: Option<nat>,
                                              identified: set<Address>)
    requires Sendable(s.chunks, ds, identified, s.skipUnresolved)
    ensures |SendAll(s, ds, failsAt, identified).state.chunks| == |s.chunks|
    decreases |ds|
  {
    if ds != [] && failsAt != Some(0) {
      assert forall k :: 0 <= k < |ds[1..]| ==> ds[1..][k] == ds[k + 1];
      SendAllKeepsLength(Ask(s, ds[0]), ds[1..], if failsAt.Some? then Some(failsAt.value - 1) else None, identified);
    }
  }

  lemma DispatchKeepsLength(job: Job, s: FetchState, input: Input)
    ensures |TryDispatch(job, s, input).state.chunks| == |s.chunks|
  {
    var ds := SelectDispatches(s.chunks, input.addrToPeer, job.Cap(), s.skipUnresolved);
    SelectedAreSendable(s.chunks, input.addrToPeer, job.Cap(), s.skipUnresolved);
    SendAllKeepsLength(s, ds, input.sendFailsAt, input.addrToPeer.Keys);
  }

  lemma StepKeepsLength(job: Job, s: FetchState, input: Input)
    requires |s.chunks| == |job.chunks|
    ensures |Step(job, s, input).state.chunks| == |s.chunks|
  {
    forall t: FetchState ensures |TryDispatch(job, t, input).state.chunks| == |t.chunks| {
      DispatchKeepsLength(job, t, input);
    }
  }
}
