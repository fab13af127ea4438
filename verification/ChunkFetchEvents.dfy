/**
 What every event does to a chunk fetch, Public or Private, told from the event and the state alone: when a fetch fails
 and with which error, which answer settles which request, and what is known of the peers.
 */
module ChunkFetchEvents {
  import opened Wrappers
  import opened Identity
  import opened Routing
  import opened ChunkFetch
  import opened ChunkFetchSafety
  import opened PrivateFetch

  datatype Loop = Public | Private

  function StepOf(loop: Loop, job: Job, s: FetchState, input: Input): StepResult
    requires |s.chunks| == |job.chunks|
  {
    match loop case Public => Step(job, s, input) case Private => PrivateStep(job, s, input)
  }

  function RunOf(loop: Loop, job: Job, s: FetchState, inputs: seq<Input>): RunResult
    requires |s.chunks| == |job.chunks|
  {
    match loop case Public => Run(job, s, inputs) case Private => PrivateRun(job, s, inputs)
  }

  /** A Private fetch starts from an empty store. */
  function FetchOf(loop: Loop, job: Job, peers: map<PeerId, Address>, store: map<Cid, Bytes>, first: Input,
                   inputs: seq<Input>): RunResult
  {
    match loop
    case Public => Fetch(job, peers, store, first, inputs)
    case Private => FetchCiphertext(job, peers, first, inputs)
  }

  function StoreOf(loop: Loop, store: map<Cid, Bytes>): map<Cid, Bytes> {
    if loop.Public? then store else map[]
  }

  lemma StepOfKeepsLength(loop: Loop, job: Job, s: FetchState, input: Input)
    requires |s.chunks| == |job.chunks|
    ensures |StepOf(loop, job, s, input).state.chunks| == |s.chunks|
  {
    StepKeepsLength(job, s, input);
    PrivateStepKeepsLength(job, s, input);
  }

  // ── What an event is about ──

  /** Chunk `i` is in flight to the peer, and what comes under the CID is credited to it: no later chunk has that CID.
      */
  predicate Awaits(job: Job, s: FetchState, i: nat, peer: PeerId, cid: Cid) {
    && i < |s.chunks| == |job.chunks|
    && s.chunks[i].inFlight.Some? && s.chunks[i].inFlight.value.peer == peer
    && job.chunks[i].cid == cid
    && forall j | i < j < |job.chunks| :: job.chunks[j].cid != cid
  }

  /** The event carries the whole chunk in one piece, with the bytes committed to, and reports no error. */
  predicate Carries(job: Job, i: nat, e: Event) {
    && e.ChunkData? && i < |job.chunks| && !e.peerError
    && e.offset == 0 && e.total == job.chunks[i].size == |e.data|
    && job.hashOf(e.data) == job.chunks[i].hash
  }

  predicate Delivers(job: Job, s: FetchState, e: Event, i: nat) {
    e.ChunkData? && Awaits(job, s, i, e.peer, e.cid) && !s.chunks[i].done && Carries(job, i, e)
  }

  /** A bad answer, or, in the Public loop, a failure that names its request. */
  predicate LetsDown(loop: Loop, job: Job, s: FetchState, e: Event, i: nat) {
    || (e.ChunkData? && Awaits(job, s, i, e.peer, e.cid) && !s.chunks[i].done && !Carries(job, i, e))
    || (loop.Public? && e.RequestFailed? && e.requestedCid.Some? && Awaits(job, s, i, e.peer, e.requestedCid.value))
  }

  lemma SettlesIff(job: Job, s: FetchState, peer: PeerId, cid: Cid, i: nat)
    requires |s.chunks| == |job.chunks|
    ensures Settles(job, s, peer, cid) == Some(i) <==> Awaits(job, s, i, peer, cid)
  {
    var index := CidToIndex(job.chunks);
    if Awaits(job, s, i, peer, cid) {
      assert index[cid] == i;
    }
  }

  // ── Sending ──

  /** The pulls of a trace. */
  function Pulls(trace: seq<Output>): seq<Output> {
    if trace == [] then []
    else
      var rest, o := Pulls(trace[..|trace| - 1]), trace[|trace| - 1];
      if o.Pull? then rest + [o] else rest
  }

  lemma PullsGrow(trace: seq<Output>, o: Output)
    ensures Pulls(trace + [o]) == if o.Pull? then Pulls(trace) + [o] else Pulls(trace)
  {
    assert (trace + [o])[..|trace|] == trace;
  }

  /** The pulls that lead from one state to another. */
  function NewPulls(before: FetchState, after: FetchState): seq<Output> {
    if |Pulls(before.trace)| <= |Pulls(after.trace)| then Pulls(after.trace)[|Pulls(before.trace)|..] else []
  }

  function Calm(input: Input): Input {
    input.(sendFailsAt := None)
  }

  ghost predicate SendsInOrder(before: seq<Output>, after: seq<Output>, ds: seq<Dispatch>) {
    && |Pulls(after)| == |Pulls(before)| + |ds| && Pulls(before) <= Pulls(after)
    && forall k | 0 <= k < |ds| :: Pulls(after)[|Pulls(before)| + k].chunk == ds[k].chunk
  }

  lemma {:induction false} SendAllSends(s: FetchState, ds: seq<Dispatch>, identified: set<Address>)
    requires Sendable(s.chunks, ds, identified, s.skipUnresolved)
    ensures SendAll(s, ds, None, identified).verdict.Running?
    ensures SendsInOrder(s.trace, SendAll(s, ds, None, identified).state.trace, ds)
    decreases |ds|
  {
    if ds != [] {
      var s1 := Ask(s, ds[0]);
      RestIsSendable(s, ds, identified);
      SendAllSends(s1, ds[1..], identified);
      AskSends(s, ds[0]);
      OneMoreSent(s.trace, s1.trace, SendAll(s1, ds[1..], None, identified).state.trace, ds);
    }
  }

  lemma AskSends(s: FetchState, d: Dispatch)
    requires d.chunk < |s.chunks| && s.chunks[d.chunk].next <= d.pos < |s.chunks[d.chunk].order|
    ensures SendsInOrder(s.trace, Ask(s, d).trace, [d])
  {
    var c := s.chunks[d.chunk];
    PullsGrow(s.trace, Pull(d.chunk, Request(d.peer, c.order[d.pos])));
  }

  lemma OneMoreSent(before: seq<Output>, mid: seq<Output>, after: seq<Output>, ds: seq<Dispatch>)
    requires ds != [] && SendsInOrder(before, mid, [ds[0]]) && SendsInOrder(mid, after, ds[1..])
    ensures SendsInOrder(before, after, ds)
  {
    var n := |Pulls(before)|;
    assert Pulls(mid)[n].chunk == [ds[0]][0].chunk;
    forall k | 0 <= k < |ds| ensures Pulls(after)[n + k].chunk == ds[k].chunk {
      if k > 0 {
        assert ds[1..][k - 1] == ds[k];
      }
    }
  }

  lemma {:induction false} SendAllCut(s: FetchState, ds: seq<Dispatch>, k: nat, identified: set<Address>)
    requires Sendable(s.chunks, ds, identified, s.skipUnresolved)
    ensures var r := SendAll(s, ds, Some(k), identified);
            if k < |ds| then r.verdict == Stopped(SendFailed(ds[k].chunk)) else r == SendAll(s, ds, None, identified)
    decreases |ds|
  {
    if ds != [] && k > 0 {
      RestIsSendable(s, ds, identified);
      SendAllCut(Ask(s, ds[0]), ds[1..], k - 1, identified);
    }
  }

  /** The send that is to fail is one that would be made. */
  ghost predicate FailsSending(input: Input, before: FetchState, calmly: FetchState, i: nat) {
    var sent := NewPulls(before, calmly);
    input.sendFailsAt.Some? && input.sendFailsAt.value < |sent| && sent[input.sendFailsAt.value].chunk == i
  }

  /** A dispatch stops exactly at the send that fails, and is otherwise as if none did. */
  lemma DispatchStopsIff(job: Job, s: FetchState, input: Input)
    ensures var r, calmly := TryDispatch(job, s, input), TryDispatch(job, s, Calm(input));
            && calmly.verdict.Running?
            && (r.verdict.Running? ==> r == calmly)
            && forall error :: r.verdict == Stopped(error)
                               <==> error.SendFailed? && FailsSending(input, s, calmly.state, error.chunk)
  {
    var ids := input.addrToPeer.Keys;
    var ds := SelectDispatches(s.chunks, input.addrToPeer, job.Cap(), s.skipUnresolved);
    SelectedAreSendable(s.chunks, input.addrToPeer, job.Cap(), s.skipUnresolved);
    SendAllSends(s, ds, ids);
    if input.sendFailsAt.Some? {
      SendAllCut(s, ds, input.sendFailsAt.value, ids);
    }
  }

  // ── One turn ──

  /** What a turn does before it sends anything, and whether it gets to sending. */
  datatype Plan = SendFrom(state: FetchState) | EndAt(state: FetchState, verdict: Verdict)

  function Rejection(s: FetchState, i: nat): Plan
    requires i < |s.chunks| && s.chunks[i].inFlight.Some?
  {
    var released, n := Release(s, i), |s.chunks[i].order|;
    if s.chunks[i].next >= n then EndAt(released, Stopped(Exhausted(i, n))) else SendFrom(released)
  }

  function PlanFor(loop: Loop, job: Job, s: FetchState, input: Input): Plan
    requires |s.chunks| == |job.chunks|
  {
    match input.event
    case PeerIdentified(p, a) => SendFrom(s.(peers := PeersAfter(s.peers, input.event)))
    case PeerDisconnected(p) => SendFrom(s.(peers := PeersAfter(s.peers, input.event)))
    case GraceElapsed => if s.skipUnresolved then EndAt(s, Running) else SendFrom(s.(skipUnresolved := true))
    case ChunkData(peer, cid, _, _, data, _) =>
      var settled := Settles(job, s, peer, cid);
      if settled.None? || s.chunks[settled.value].done then EndAt(s, Running)
      else if !GoodAnswer(job, job.chunks[settled.value], input.event) then Rejection(s, settled.value)
      else if loop.Private? then EndAt(Finish(job, s, settled.value, data), Running)
      else if !input.storeAccepts then EndAt(s, Stopped(StoreFailed(cid)))
      else SendFrom(Finish(job, s, settled.value, data))
    case RequestFailed(peer, cid) =>
      if loop.Private? || cid.None? || Settles(job, s, peer, cid.value).None? then EndAt(s, Running)
      else Rejection(s, Settles(job, s, peer, cid.value).value)
    case DeadlinePassed => EndAt(s, Stopped(TimedOut(TimedOutChunk(s.chunks))))
    case NetworkClosed => EndAt(s, Stopped(ShutDown))
    case Unrelated => EndAt(s, Running)
  }

  lemma StepFollowsPlan(loop: Loop, job: Job, s: FetchState, input: Input)
    requires |s.chunks| == |job.chunks|
    ensures StepOf(loop, job, s, input)
            == match PlanFor(loop, job, s, input)
               case SendFrom(t) => TryDispatch(job, t, input)
               case EndAt(t, verdict) => StepResult(t, verdict)
  {
    match input.event
    case ChunkData(_, _, _, _, _, _) => AnswerFollowsPlan(loop, job, s, input);
    case RequestFailed(_, cid) => if cid.None? || loop.Private? {}
    case _ =>
  }

  lemma AnswerFollowsPlan(loop: Loop, job: Job, s: FetchState, input: Input)
    requires |s.chunks| == |job.chunks| && input.event.ChunkData?
    ensures StepOf(loop, job, s, input)
            == match PlanFor(loop, job, s, input)
               case SendFrom(t) => TryDispatch(job, t, input)
               case EndAt(t, verdict) => StepResult(t, verdict)
  {
    var settled := Settles(job, s, input.event.peer, input.event.cid);
    if settled.Some? && !s.chunks[settled.value].done {
      assert GoodAnswer(job, job.chunks[settled.value], input.event)
             || !GoodAnswer(job, job.chunks[settled.value], input.event);
    }
  }

  // ── When a turn ends the fetch ──

  /** Chunk `i` is the first in the manifest that is missing. */
  predicate FirstMissing(s: FetchState, i: nat) {
    i < |s.chunks| && !s.chunks[i].done && forall j | 0 <= j < i :: s.chunks[j].done
  }

  /** Why a turn ends the fetch before it sends anything. */
  ghost predicate Causes(loop: Loop, job: Job, s: FetchState, input: Input, error: FetchError)
    requires |s.chunks| == |job.chunks|
  {
    match error
    case TimedOut(i) => input.event.DeadlinePassed? && FirstMissing(s, i)
    case ShutDown => input.event.NetworkClosed?
    case StoreFailed(cid) =>
      && loop.Public? && !input.storeAccepts
      && exists i: nat :: Delivers(job, s, input.event, i) && job.chunks[i].cid == cid
    case Exhausted(i, n) =>
      LetsDown(loop, job, s, input.event, i) && s.chunks[i].next >= |s.chunks[i].order| == n
    case SendFailed(i) =>
      FailsSending(input, s, StepOf(loop, job, s, Calm(input)).state, i)
  }

  lemma {:induction false} FirstPendingIs(chunks: seq<ChunkState>)
    ensures var i := FirstPending(chunks);
            && (forall j | 0 <= j < i && j < |chunks| :: chunks[j].done)
            && (i < |chunks| ==> !chunks[i].done) && i <= |chunks|
  {
    if chunks != [] && chunks[0].done {
      FirstPendingIs(chunks[1..]);
      forall j | 0 <= j < FirstPending(chunks) && j < |chunks| ensures chunks[j].done {
        assert j > 0 ==> chunks[j] == chunks[1..][j - 1];
      }
    }
  }

  lemma TimedOutChunkIff(s: FetchState, i: nat)
    requires !s.AllDone()
    ensures TimedOutChunk(s.chunks) == i <==> FirstMissing(s, i)
  {
    FirstPendingIs(s.chunks);
  }

  lemma AnswerEndsIff(loop: Loop, job: Job, s: FetchState, input: Input, error: FetchError)
    requires |s.chunks| == |job.chunks| && input.event.ChunkData? && !error.SendFailed?
    ensures var plan := PlanFor(loop, job, s, input);
            (plan.EndAt? && plan.verdict == Stopped(error)) <==> Causes(loop, job, s, input, error)
  {
    var peer, cid := input.event.peer, input.event.cid;
    forall i: nat ensures Settles(job, s, peer, cid) == Some(i) <==> Awaits(job, s, i, peer, cid) {
      SettlesIff(job, s, peer, cid, i);
    }
    var settled := Settles(job, s, peer, cid);
    if settled.Some? {
      assert GoodAnswer(job, job.chunks[settled.value], input.event) <==> Carries(job, settled.value, input.event);
      assert Delivers(job, s, input.event, settled.value)
             <==> !s.chunks[settled.value].done && Carries(job, settled.value, input.event);
    }
  }

  lemma FailureEndsIff(loop: Loop, job: Job, s: FetchState, input: Input, error: FetchError)
    requires |s.chunks| == |job.chunks| && input.event.RequestFailed? && !error.SendFailed?
    ensures var plan := PlanFor(loop, job, s, input);
            (plan.EndAt? && plan.verdict == Stopped(error)) <==> Causes(loop, job, s, input, error)
  {
    if input.event.requestedCid.Some? {
      var cid := input.event.requestedCid.value;
      forall i: nat
        ensures Settles(job, s, input.event.peer, cid) == Some(i) <==> Awaits(job, s, i, input.event.peer, cid)
      {
        SettlesIff(job, s, input.event.peer, cid, i);
      }
    }
  }

  lemma PlanEndsIff(loop: Loop, job: Job, s: FetchState, input: Input, error: FetchError)
    requires |s.chunks| == |job.chunks| && !s.AllDone() && !error.SendFailed?
    ensures var plan := PlanFor(loop, job, s, input);
            (plan.EndAt? && plan.verdict == Stopped(error)) <==> Causes(loop, job, s, input, error)
  {
    match input.event
    case ChunkData(_, _, _, _, _, _) => AnswerEndsIff(loop, job, s, input, error);
    case RequestFailed(_, _) => FailureEndsIff(loop, job, s, input, error);
    case DeadlinePassed =>
      if error.TimedOut? {
        TimedOutChunkIff(s, error.chunk);
      }
    case _ =>
  }

  lemma FinishSendsNothing(job: Job, s: FetchState, i: nat, data: Bytes)
    requires i < |s.chunks| == |job.chunks| && s.chunks[i].inFlight.Some?
    ensures Pulls(Finish(job, s, i, data).trace) == Pulls(s.trace)
  {
    PullsGrow(s.trace, Delivered(i, s.chunks[i].inFlight.value));
  }

  lemma ReleaseSendsNothing(s: FetchState, i: nat)
    requires i < |s.chunks| && s.chunks[i].inFlight.Some?
    ensures Pulls(Release(s, i).trace) == Pulls(s.trace)
  {
    PullsGrow(s.trace, Rejected(i, s.chunks[i].inFlight.value));
  }

  lemma PlanSendsNothing(loop: Loop, job: Job, s: FetchState, input: Input)
    requires |s.chunks| == |job.chunks|
    ensures Pulls(PlanFor(loop, job, s, input).state.trace) == Pulls(s.trace)
  {
    match input.event
    case ChunkData(_, _, _, _, _, _) => AnswerSendsNothing(loop, job, s, input);
    case RequestFailed(_, _) => FailureSendsNothing(loop, job, s, input);
    case _ =>
  }

  lemma FailureSendsNothing(loop: Loop, job: Job, s: FetchState, input: Input)
    requires |s.chunks| == |job.chunks| && input.event.RequestFailed?
    ensures Pulls(PlanFor(loop, job, s, input).state.trace) == Pulls(s.trace)
  {
    if input.event.requestedCid.Some? {
      var settled := Settles(job, s, input.event.peer, input.event.requestedCid.value);
      if settled.Some? {
        ReleaseSendsNothing(s, settled.value);
      }
    }
  }

  lemma AnswerSendsNothing(loop: Loop, job: Job, s: FetchState, input: Input)
    requires |s.chunks| == |job.chunks| && input.event.ChunkData?
    ensures Pulls(PlanFor(loop, job, s, input).state.trace) == Pulls(s.trace)
  {
    var settled := Settles(job, s, input.event.peer, input.event.cid);
    if settled.Some? {
      var i, data := settled.value, input.event.data;
      FinishSendsNothing(job, s, i, data);
      ReleaseSendsNothing(s, i);
      var t := PlanFor(loop, job, s, input).state;
      assert t == s || t == Finish(job, s, i, data) || t == Release(s, i);
    }
  }

  lemma PlanIgnoresSends(loop: Loop, job: Job, s: FetchState, input: Input)
    requires |s.chunks| == |job.chunks|
    ensures PlanFor(loop, job, s, Calm(input)) == PlanFor(loop, job, s, input)
    ensures forall i ::
            PlanFor(loop, job, s, input) != EndAt(PlanFor(loop, job, s, input).state, Stopped(SendFailed(i)))
  {
  }

  /** A turn ends the fetch with an error if and only if it has cause to. */
  lemma StepStopsIff(loop: Loop, job: Job, s: FetchState, input: Input, error: FetchError)
    requires |s.chunks| == |job.chunks| && !s.AllDone()
    ensures StepOf(loop, job, s, input).verdict == Stopped(error) <==> Causes(loop, job, s, input, error)
  {
    var plan := PlanFor(loop, job, s, input);
    StepFollowsPlan(loop, job, s, input);
    StepFollowsPlan(loop, job, s, Calm(input));
    PlanSendsNothing(loop, job, s, input);
    PlanIgnoresSends(loop, job, s, input);
    if !error.SendFailed? {
      PlanEndsIff(loop, job, s, input, error);
    }
    if plan.SendFrom? {
      DispatchStopsIff(job, plan.state, input);
    }
  }

  // ── Over whole runs ──

  /** The run takes its `k`-th input in state `t`. */
  ghost predicate Takes(loop: Loop, job: Job, s: FetchState, inputs: seq<Input>, k: nat, t: FetchState)
    decreases k
  {
    && |s.chunks| == |job.chunks| && !s.AllDone() && k < |inputs|
    && if k == 0 then t == s
       else
         var r := StepOf(loop, job, s, inputs[0]);
         r.verdict.Running? && Takes(loop, job, r.state, inputs[1..], k - 1, t)
  }

  lemma RunTurns(loop: Loop, job: Job, s: FetchState, inputs: seq<Input>)
    requires |s.chunks| == |job.chunks|
    ensures |StepOf(loop, job, s, if inputs == [] then Input(Unrelated, map[], None, true) else inputs[0]).state.chunks|
            == |job.chunks|
    ensures RunOf(loop, job, s, inputs)
            == if s.AllDone() then RunResult(s, Completed)
               else if inputs == [] then RunResult(s, Waiting)
               else
                 var r := StepOf(loop, job, s, inputs[0]);
                 if r.verdict.Stopped? then RunResult(r.state, Failed(r.verdict.error))
                 else RunOf(loop, job, r.state, inputs[1..])
  {
    StepOfKeepsLength(loop, job, s, if inputs == [] then Input(Unrelated, map[], None, true) else inputs[0]);
  }

  /** The run takes an input that gives it cause for the error. */
  ghost predicate MeetsCause(loop: Loop, job: Job, s: FetchState, inputs: seq<Input>, error: FetchError, k: nat,
                             t: FetchState)
  {
    Takes(loop, job, s, inputs, k, t) && |t.chunks| == |job.chunks| && Causes(loop, job, t, inputs[k], error)
  }

  /** A run fails with an error if and only if it takes an input that gives it cause. */
  lemma {:induction false} RunFailsIff(loop: Loop, job: Job, s: FetchState, inputs: seq<Input>, error: FetchError)
    requires |s.chunks| == |job.chunks|
    ensures RunOf(loop, job, s, inputs).outcome == Failed(error)
            <==> exists k: nat, t :: MeetsCause(loop, job, s, inputs, error, k, t)
    decreases |inputs|
  {
    RunTurns(loop, job, s, inputs);
    if !s.AllDone() && inputs != [] {
      var r := StepOf(loop, job, s, inputs[0]);
      StepStopsIff(loop, job, s, inputs[0], error);
      if r.verdict.Running? {
        RunFailsIff(loop, job, r.state, inputs[1..], error);
        LaterCause(loop, job, s, inputs, error);
      } else {
        FirstCause(loop, job, s, inputs, error);
      }
    }
  }

  lemma FirstCause(loop: Loop, job: Job, s: FetchState, inputs: seq<Input>, error: FetchError)
    requires |s.chunks| == |job.chunks| && !s.AllDone() && inputs != []
    requires StepOf(loop, job, s, inputs[0]).verdict.Stopped?
    ensures Causes(loop, job, s, inputs[0], error)
            <==> exists k: nat, t :: MeetsCause(loop, job, s, inputs, error, k, t)
  {
    if Causes(loop, job, s, inputs[0], error) {
      assert MeetsCause(loop, job, s, inputs, error, 0, s);
    }
  }

  lemma LaterCause(loop: Loop, job: Job, s: FetchState, inputs: seq<Input>, error: FetchError)
    requires |s.chunks| == |job.chunks| && !s.AllDone() && inputs != []
    requires StepOf(loop, job, s, inputs[0]).verdict.Running?
    ensures var s' := StepOf(loop, job, s, inputs[0]).state;
            (exists k: nat, t :: MeetsCause(loop, job, s, inputs, error, k, t))
            <==> exists k: nat, t :: MeetsCause(loop, job, s', inputs[1..], error, k, t)
  {
    var s' := StepOf(loop, job, s, inputs[0]).state;
    StepStopsIff(loop, job, s, inputs[0], error);
    if k: nat, t :| MeetsCause(loop, job, s, inputs, error, k, t) {
      assert k > 0 && MeetsCause(loop, job, s', inputs[1..], error, k - 1, t);
    }
    if k: nat, t :| MeetsCause(loop, job, s', inputs[1..], error, k, t) {
      assert MeetsCause(loop, job, s, inputs, error, k + 1, t);
    }
  }

  /** The first dispatch of a fetch, when no send fails. */
  function FirstState(job: Job, peers: map<PeerId, Address>, store: map<Cid, Bytes>, first: Input): FetchState {
    TryDispatch(job, InitialState(job, peers, store), Calm(first)).state
  }

  /** The first dispatch has a send to make that is to fail. */
  ghost predicate FirstSendFails(job: Job, peers: map<PeerId, Address>, store: map<Cid, Bytes>, first: Input) {
    && first.sendFailsAt.Some?
    && first.sendFailsAt.value < |NewPulls(InitialState(job, peers, store), FirstState(job, peers, store, first))|
  }

  /** Every way a whole fetch fails: its first dispatch meets a send that fails, or its loop takes an input that gives
      it cause for that very error. */
  lemma FetchFailsIff(loop: Loop, job: Job, peers: map<PeerId, Address>, store: map<Cid, Bytes>, first: Input,
                      inputs: seq<Input>, error: FetchError)
    ensures var start, s := StoreOf(loop, store), FirstState(job, peers, StoreOf(loop, store), first);
            FetchOf(loop, job, peers, store, first, inputs).outcome == Failed(error)
            <==> if FirstSendFails(job, peers, start, first)
                 then error == SendFailed(NewPulls(InitialState(job, peers, start), s)[first.sendFailsAt.value].chunk)
                 else exists k: nat, t :: MeetsCause(loop, job, s, inputs, error, k, t)
  {
    var start := StoreOf(loop, store);
    var s0, s := InitialState(job, peers, start), FirstState(job, peers, start, first);
    var r := TryDispatch(job, s0, first);
    DispatchStopsIff(job, s0, first);
    DispatchKeepsLength(job, s0, first);
    if FirstSendFails(job, peers, start, first) {
      assert FailsSending(first, s0, s, NewPulls(s0, s)[first.sendFailsAt.value].chunk);
    } else {
      assert forall i: nat :: !FailsSending(first, s0, s, i);
      assert r.verdict.Running?;
      RunFailsIff(loop, job, s, inputs, error);
    }
  }

  // ── What a turn settles, stores and learns ──

  /** A whole chunk arrives and is kept. */
  ghost predicate Keeps(loop: Loop, job: Job, s: FetchState, input: Input, i: nat) {
    Delivers(job, s, input.event, i) && (loop.Private? || input.storeAccepts)
  }

  /** The one request a turn settles, and how. */
  ghost predicate Marked(loop: Loop, job: Job, s: FetchState, input: Input, mark: Option<Output>)
    requires |s.chunks| == |job.chunks|
  {
    match mark
    case None => forall i: nat :: !Keeps(loop, job, s, input, i) && !LetsDown(loop, job, s, input.event, i)
    case Some(Delivered(i, request)) => Keeps(loop, job, s, input, i) && s.chunks[i].inFlight == Some(request)
    case Some(Rejected(i, request)) =>
      LetsDown(loop, job, s, input.event, i) && s.chunks[i].inFlight == Some(request)
    case Some(Pull(_, _)) => false
  }

  /** Only pulls are added from one state to the other; store and peers stay. */
  ghost predicate OnlyPulls(before: FetchState, after: FetchState) {
    && before.trace <= after.trace
    && (forall k | |before.trace| <= k < |after.trace| :: after.trace[k].Pull?)
    && after.store == before.store && after.peers == before.peers && after.skipUnresolved == before.skipUnresolved
  }

  lemma DispatchOnlyPulls(job: Job, s: FetchState, input: Input)
    ensures OnlyPulls(s, TryDispatch(job, s, input).state)
  {
    var inv := (t: FetchState) => OnlyPulls(s, t);
    var ds := SelectDispatches(s.chunks, input.addrToPeer, job.Cap(), s.skipUnresolved);
    SelectedAreSendable(s.chunks, input.addrToPeer, job.Cap(), s.skipUnresolved);
    SendAllKeeps(inv, s, ds, input.sendFailsAt, input.addrToPeer.Keys);
  }

  function WithMark(trace: seq<Output>, mark: Option<Output>): seq<Output> {
    match mark case None => trace case Some(o) => trace + [o]
  }

  function StoreAfter(job: Job, s: FetchState, i: nat, data: Bytes): map<Cid, Bytes>
    requires i < |job.chunks|
  {
    var cid := job.chunks[i].cid;
    if cid in s.store then s.store else s.store[cid := data]
  }

  lemma PlanWhenKept(loop: Loop, job: Job, s: FetchState, input: Input, i: nat)
    requires |s.chunks| == |job.chunks| && Keeps(loop, job, s, input, i)
    ensures PlanFor(loop, job, s, input).state == Finish(job, s, i, input.event.data)
  {
    SettlesIff(job, s, input.event.peer, input.event.cid, i);
    assert GoodAnswer(job, job.chunks[i], input.event);
  }

  lemma PlanWhenLetDown(loop: Loop, job: Job, s: FetchState, input: Input, i: nat)
    requires |s.chunks| == |job.chunks| && LetsDown(loop, job, s, input.event, i)
    ensures PlanFor(loop, job, s, input).state == Release(s, i)
  {
    if input.event.ChunkData? {
      SettlesIff(job, s, input.event.peer, input.event.cid, i);
      assert !GoodAnswer(job, job.chunks[i], input.event);
    } else {
      SettlesIff(job, s, input.event.peer, input.event.requestedCid.value, i);
    }
  }

  lemma PlanOtherwise(loop: Loop, job: Job, s: FetchState, input: Input)
    requires |s.chunks| == |job.chunks|
    requires forall i: nat :: !Keeps(loop, job, s, input, i) && !LetsDown(loop, job, s, input.event, i)
    ensures PlanFor(loop, job, s, input).state.trace == s.trace && PlanFor(loop, job, s, input).state.store == s.store
  {
    match input.event
    case ChunkData(peer, cid, _, _, _, _) =>
      var settled := Settles(job, s, peer, cid);
      if settled.Some? {
        SettlesIff(job, s, peer, cid, settled.value);
        assert !Keeps(loop, job, s, input, settled.value) && !LetsDown(loop, job, s, input.event, settled.value);
      }
    case RequestFailed(peer, cid) =>
      if loop.Public? && cid.Some? && Settles(job, s, peer, cid.value).Some? {
        HeardFailureLetsDown(job, s, input.event, Settles(job, s, peer, cid.value).value);
        assert false;
      }
    case _ =>
  }

  lemma HeardFailureLetsDown(job: Job, s: FetchState, e: Event, i: nat)
    requires |s.chunks| == |job.chunks| && e.RequestFailed? && e.requestedCid.Some?
    requires Settles(job, s, e.peer, e.requestedCid.value) == Some(i)
    ensures LetsDown(Public, job, s, e, i)
  {
    SettlesIff(job, s, e.peer, e.requestedCid.value, i);
  }

  /** Why the trace gains what it gains. */
  ghost predicate Adds(loop: Loop, job: Job, s: FetchState, input: Input, mark: Option<Output>, after: seq<Output>)
    requires |s.chunks| == |job.chunks|
  {
    && Marked(loop, job, s, input, mark) && WithMark(s.trace, mark) <= after
    && forall k | |WithMark(s.trace, mark)| <= k < |after| :: after[k].Pull?
  }

  lemma StepExtendsPlan(loop: Loop, job: Job, s: FetchState, input: Input)
    requires |s.chunks| == |job.chunks|
    ensures OnlyPulls(PlanFor(loop, job, s, input).state, StepOf(loop, job, s, input).state)
  {
    StepFollowsPlan(loop, job, s, input);
    DispatchOnlyPulls(job, PlanFor(loop, job, s, input).state, input);
  }

  /** A chunk that is kept: its request is delivered and the store has its bytes. */
  lemma KeptStep(loop: Loop, job: Job, s: FetchState, input: Input, i: nat)
    requires |s.chunks| == |job.chunks| && Keeps(loop, job, s, input, i)
    ensures var t := StepOf(loop, job, s, input).state;
            && Adds(loop, job, s, input, Some(Delivered(i, s.chunks[i].inFlight.value)), t.trace)
            && t.store == StoreAfter(job, s, i, input.event.data)
  {
    PlanWhenKept(loop, job, s, input, i);
    StepExtendsPlan(loop, job, s, input);
  }

  lemma LetDownStep(loop: Loop, job: Job, s: FetchState, input: Input, i: nat)
    requires |s.chunks| == |job.chunks| && LetsDown(loop, job, s, input.event, i)
    ensures var t := StepOf(loop, job, s, input).state;
            && Adds(loop, job, s, input, Some(Rejected(i, s.chunks[i].inFlight.value)), t.trace)
            && t.store == s.store
  {
    PlanWhenLetDown(loop, job, s, input, i);
    StepExtendsPlan(loop, job, s, input);
  }

  lemma OtherStep(loop: Loop, job: Job, s: FetchState, input: Input)
    requires |s.chunks| == |job.chunks|
    requires forall i: nat :: !Keeps(loop, job, s, input, i) && !LetsDown(loop, job, s, input.event, i)
    ensures var t := StepOf(loop, job, s, input).state;
            Adds(loop, job, s, input, None, t.trace) && t.store == s.store
  {
    PlanOtherwise(loop, job, s, input);
    StepExtendsPlan(loop, job, s, input);
  }

  /** What a turn adds to the history is the settling of the one request the event is about, if it is about one, and
      then pulls; the store gains the bytes of a chunk that was kept and nothing else. */
  lemma StepSettles(loop: Loop, job: Job, s: FetchState, input: Input)
    requires |s.chunks| == |job.chunks|
    ensures var t := StepOf(loop, job, s, input).state;
            && (exists mark :: Adds(loop, job, s, input, mark, t.trace))
            && (forall i: nat | Keeps(loop, job, s, input, i) :: t.store == StoreAfter(job, s, i, input.event.data))
            && ((forall i: nat :: !Keeps(loop, job, s, input, i)) ==> t.store == s.store)
  {
    if i: nat :| Keeps(loop, job, s, input, i) {
      KeptStep(loop, job, s, input, i);
      forall j: nat | Keeps(loop, job, s, input, j) ensures j == i {
      }
    } else if i: nat :| LetsDown(loop, job, s, input.event, i) {
      LetDownStep(loop, job, s, input, i);
    } else {
      OtherStep(loop, job, s, input);
    }
  }

  function NewsIn(e: Event): PeerNews {
    match e
    case PeerIdentified(p, a) => Identified(p, a)
    case PeerDisconnected(p) => Disconnected(p)
    case _ => NoNews
  }

  function NewsOf(inputs: seq<Input>): seq<PeerNews> {
    seq(|inputs|, i requires 0 <= i < |inputs| => NewsIn(inputs[i].event))
  }

  predicate GraceEnded(inputs: seq<Input>) {
    exists k :: 0 <= k < |inputs| && inputs[k].event.GraceElapsed?
  }

  ghost predicate Knows(t: FetchState, start: map<PeerId, Address>, inputs: seq<Input>) {
    KeepsUp(t.peers, start, NewsOf(inputs)) && (t.skipUnresolved <==> GraceEnded(inputs))
  }

  lemma PlanLearns(loop: Loop, job: Job, s: FetchState, input: Input)
    requires |s.chunks| == |job.chunks|
    ensures var t := PlanFor(loop, job, s, input).state;
            t.peers == PeersAfter(s.peers, input.event)
            && (t.skipUnresolved <==> s.skipUnresolved || input.event.GraceElapsed?)
  {
    match input.event
    case ChunkData(_, _, _, _, _, _) => AnswerLearnsNothing(loop, job, s, input);
    case RequestFailed(_, _) => FailureLearnsNothing(loop, job, s, input);
    case _ =>
  }

  lemma AnswerLearnsNothing(loop: Loop, job: Job, s: FetchState, input: Input)
    requires |s.chunks| == |job.chunks| && input.event.ChunkData?
    ensures var t := PlanFor(loop, job, s, input).state;
            t.peers == s.peers && t.skipUnresolved == s.skipUnresolved
  {
    var settled := Settles(job, s, input.event.peer, input.event.cid);
    if settled.Some? {
      var t := PlanFor(loop, job, s, input).state;
      assert t == s || t == Finish(job, s, settled.value, input.event.data) || t == Release(s, settled.value);
    }
  }

  lemma FailureLearnsNothing(loop: Loop, job: Job, s: FetchState, input: Input)
    requires |s.chunks| == |job.chunks| && input.event.RequestFailed?
    ensures var t := PlanFor(loop, job, s, input).state;
            t.peers == s.peers && t.skipUnresolved == s.skipUnresolved
  {
  }

  lemma StepLearns(loop: Loop, job: Job, s: FetchState, input: Input, start: map<PeerId, Address>, before: seq<Input>)
    requires |s.chunks| == |job.chunks| && Knows(s, start, before)
    ensures Knows(StepOf(loop, job, s, input).state, start, before + [input])
  {
    PlanLearns(loop, job, s, input);
    StepExtendsPlan(loop, job, s, input);
    assert NewsOf(before + [input]) == NewsOf(before) + [NewsIn(input.event)];
    forall p {
      LastIdentityGrows(p, start, NewsOf(before), NewsIn(input.event));
    }
    GraceGrows(before, input);
  }

  lemma GraceGrows(inputs: seq<Input>, input: Input)
    ensures GraceEnded(inputs + [input]) <==> GraceEnded(inputs) || input.event.GraceElapsed?
  {
    if k :| 0 <= k < |inputs| && inputs[k].event.GraceElapsed? {
      assert (inputs + [input])[k].event.GraceElapsed?;
    }
    assert (inputs + [input])[|inputs|] == input;
  }

  lemma TakesOn(loop: Loop, job: Job, s: FetchState, inputs: seq<Input>, k: nat, t: FetchState)
    requires Takes(loop, job, s, inputs, k, t) && k > 0
    ensures Takes(loop, job, StepOf(loop, job, s, inputs[0]).state, inputs[1..], k - 1, t)
  {
  }

  lemma TakenSoFar(before: seq<Input>, inputs: seq<Input>, k: nat)
    requires 0 < k < |inputs|
    ensures before + [inputs[0]] + inputs[1..][..k - 1] == before + inputs[..k]
  {
  }

  /** In every state a run takes an input in, the peers are those last identified and not gone since, and the ranking
      has stopped binding exactly if the grace period was reported over. */
  lemma {:induction false} TakenKnows(loop: Loop, job: Job, s: FetchState, inputs: seq<Input>, k: nat, t: FetchState,
                                      start: map<PeerId, Address>, before: seq<Input>)
    requires Takes(loop, job, s, inputs, k, t) && Knows(s, start, before)
    ensures Knows(t, start, before + inputs[..k])
    decreases k
  {
    if k == 0 {
      assert before + inputs[..k] == before;
    } else {
      var s' := StepOf(loop, job, s, inputs[0]).state;
      TakesOn(loop, job, s, inputs, k, t);
      StepLearns(loop, job, s, inputs[0], start, before);
      TakenKnows(loop, job, s', inputs[1..], k - 1, t, start, before + [inputs[0]]);
      TakenSoFar(before, inputs, k);
    }
  }
}
