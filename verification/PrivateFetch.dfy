/**
 The chunk phase of a V2 Private download: the Public machine's twin, with two differences. A good answer is kept
 without asking for anything more, and a failed request is not heard at all. What that leaves true, and what it costs.

 Received ciphertext is kept under its CID, in the place of the Public machine's store, which starts out empty.
 */
module PrivateFetch {
  import opened Wrappers
  import opened Identity
  import opened Routing
  import opened ChunkFetch
  import opened ChunkFetchSafety
  import opened ChunkFetchLiveness
  import opened ChunkFetchLoop

  // ── The machine ──

  function PrivateStep(job: Job, s: FetchState, input: Input): StepResult
    requires |s.chunks| == |job.chunks|
  {
    match input.event
    case ChunkData(peer, cid, _, _, data, _) =>
      (match Settles(job, s, peer, cid)
       case None => StepResult(s, Running)
       case Some(i) =>
         if s.chunks[i].done then StepResult(s, Running)
         else if GoodAnswer(job, job.chunks[i], input.event) then StepResult(Finish(job, s, i, data), Running)
         else ChunkFetch.Reject(job, s, i, input))
    case RequestFailed(_, _) => StepResult(s, Running)
    case _ => Step(job, s, input)
  }

  /** The chunk a good answer finishes in this turn. */
  predicate Finishes(job: Job, s: FetchState, input: Input, i: nat)
    requires |s.chunks| == |job.chunks|
  {
    && input.event.ChunkData?
    && Settles(job, s, input.event.peer, input.event.cid) == Some(i)
    && !s.chunks[i].done
    && GoodAnswer(job, job.chunks[i], input.event)
  }

  lemma PrivateStepKeepsLength(job: Job, s: FetchState, input: Input)
    requires |s.chunks| == |job.chunks|
    ensures |PrivateStep(job, s, input).state.chunks| == |s.chunks|
  {
    StepKeepsLength(job, s, input);
  }

  function PrivateRun(job: Job, s: FetchState, inputs: seq<Input>): RunResult
    requires |s.chunks| == |job.chunks|
    decreases |inputs|
  {
    if s.AllDone() then RunResult(s, Completed)
    else if inputs == [] then RunResult(s, Waiting)
    else
      var r := PrivateStep(job, s, inputs[0]);
      if r.verdict.Stopped? then RunResult(r.state, Failed(r.verdict.error))
      else
        PrivateStepKeepsLength(job, s, inputs[0]);
        PrivateRun(job, r.state, inputs[1..])
  }

  ghost predicate ValidPrivateRun(job: Job, s: FetchState, inputs: seq<Input>)
    requires |s.chunks| == |job.chunks|
    decreases |inputs|
  {
    inputs == [] || s.AllDone() || (
      && ValidInput(s, inputs[0])
      && var r := PrivateStep(job, s, inputs[0]);
      (PrivateStepKeepsLength(job, s, inputs[0]);
       r.verdict.Stopped? || ValidPrivateRun(job, r.state, inputs[1..])))
  }

  function FetchCiphertext(job: Job, peers: map<PeerId, Address>, first: Input, inputs: seq<Input>): RunResult {
    var s0 := InitialState(job, peers, map[]);
    var r := ChunkFetch.TryDispatch(job, s0, first);
    if r.verdict.Stopped? then RunResult(r.state, Failed(r.verdict.error))
    else
      DispatchKeepsLength(job, s0, first);
      PrivateRun(job, r.state, inputs)
  }

  ghost predicate ValidPrivateFetch(job: Job, peers: map<PeerId, Address>, first: Input, inputs: seq<Input>) {
    && Inverts(first.addrToPeer, peers)
    && var r := ChunkFetch.TryDispatch(job, InitialState(job, peers, map[]), first);
    (DispatchKeepsLength(job, InitialState(job, peers, map[]), first);
     r.verdict.Stopped? || ValidPrivateRun(job, r.state, inputs))
  }

  // ── What it shares with its twin ──

  /** Everything the Public machine keeps, except that it may wait with room to spare. */
  ghost predicate PrivateTurnOk(job: Job, r: StepResult) {
    && Safe(job, map[], r.state)
    && InFlightCount(r.state.chunks) <= job.Cap()
    && (r.verdict.Running? ==> NoneLost(job, r.state))
    && (r.verdict.Stopped? && r.verdict.error.Exhausted? ==>
          TrulyExhausted(job, r.verdict.error.chunk, r.verdict.error.archives, r.state.trace))
  }

  ghost predicate PrivateHead(job: Job, s: FetchState) {
    Safe(job, map[], s) && NoneLost(job, s) && InFlightCount(s.chunks) <= job.Cap()
  }

  lemma FinishFreesPlace(job: Job, s: FetchState, i: nat, data: Bytes)
    requires i < |s.chunks| == |job.chunks| && s.chunks[i].inFlight.Some?
    ensures InFlightCount(Finish(job, s, i, data).chunks) == InFlightCount(s.chunks) - 1
  {
    CountsAfterUpdate(s.chunks, i, s.chunks[i].(inFlight := None, done := true));
  }

  lemma FinishedOk(job: Job, s: FetchState, i: nat, data: Bytes)
    requires job.Valid() && PrivateHead(job, s)
    requires i < |s.chunks| && s.chunks[i].inFlight.Some? && job.hashOf(data) == job.chunks[i].hash
    ensures PrivateTurnOk(job, StepResult(Finish(job, s, i, data), Running))
  {
    FinishKeepsSafe(job, map[], s, i, data);
    SettledLeavesNoneLost(job, s, i, data);
    FinishFreesPlace(job, s, i, data);
  }

  lemma TurnIsPrivateTurn(job: Job, r: StepResult)
    requires TurnOk(job, map[], r)
    ensures PrivateTurnOk(job, r)
  {
  }

  lemma UnchangedOk(job: Job, s: FetchState, v: Verdict)
    requires PrivateHead(job, s) && (v.Stopped? ==> !v.error.Exhausted?)
    ensures PrivateTurnOk(job, StepResult(s, v))
  {
  }

  lemma PrivateRejectOk(job: Job, s: FetchState, i: nat, input: Input)
    requires job.Valid() && PrivateHead(job, s) && Inverts(input.addrToPeer, s.peers)
    requires i < |s.chunks| && s.chunks[i].inFlight.Some?
    ensures PrivateTurnOk(job, ChunkFetch.Reject(job, s, i, input))
  {
    RejectOk(job, map[], s, i, input);
    TurnIsPrivateTurn(job, ChunkFetch.Reject(job, s, i, input));
  }

  lemma PrivateDispatchOk(job: Job, s: FetchState, input: Input)
    requires job.Valid() && PrivateHead(job, s) && Inverts(input.addrToPeer, s.peers)
    ensures PrivateTurnOk(job, ChunkFetch.TryDispatch(job, s, input))
  {
    DispatchOk(job, map[], s, input);
    TurnIsPrivateTurn(job, ChunkFetch.TryDispatch(job, s, input));
  }

  // The arms of an answer.

  lemma PrivateGoodStep(job: Job, s: FetchState, input: Input, i: nat)
    requires |s.chunks| == |job.chunks| && Finishes(job, s, input, i)
    ensures i < |s.chunks| && s.chunks[i].inFlight.Some?
    ensures PrivateStep(job, s, input) == StepResult(Finish(job, s, i, input.event.data), Running)
  {
  }

  lemma PrivateRejectingStep(job: Job, s: FetchState, input: Input, i: nat)
    requires |s.chunks| == |job.chunks| && input.event.ChunkData?
    requires Settles(job, s, input.event.peer, input.event.cid) == Some(i) && !s.chunks[i].done
    requires !GoodAnswer(job, job.chunks[i], input.event)
    ensures i < |s.chunks| && s.chunks[i].inFlight.Some?
    ensures PrivateStep(job, s, input) == ChunkFetch.Reject(job, s, i, input)
  {
  }

  lemma PrivateIgnoredStep(job: Job, s: FetchState, input: Input)
    requires |s.chunks| == |job.chunks| && input.event.ChunkData?
    requires var settled := Settles(job, s, input.event.peer, input.event.cid);
             settled.None? || s.chunks[settled.value].done
    ensures PrivateStep(job, s, input) == StepResult(s, Running)
  {
  }

  lemma PrivateAnswerOk(job: Job, s: FetchState, input: Input)
    requires job.Valid() && PrivateHead(job, s) && ValidInput(s, input) && input.event.ChunkData?
    ensures PrivateTurnOk(job, PrivateStep(job, s, input))
  {
    var settled := Settles(job, s, input.event.peer, input.event.cid);
    if settled.None? || s.chunks[settled.value].done {
      PrivateIgnoredStep(job, s, input);
      UnchangedOk(job, s, Running);
    } else if GoodAnswer(job, job.chunks[settled.value], input.event) {
      PrivateGoodStep(job, s, input, settled.value);
      FinishedOk(job, s, settled.value, input.event.data);
    } else {
      PrivateRejectingStep(job, s, input, settled.value);
      PrivateRejectOk(job, s, settled.value, input);
    }
  }

  lemma PrivatePeersOk(job: Job, s: FetchState, input: Input)
    requires job.Valid() && PrivateHead(job, s) && ValidInput(s, input)
    requires input.event.PeerIdentified? || input.event.PeerDisconnected?
    ensures PrivateTurnOk(job, PrivateStep(job, s, input))
  {
    var s' := s.(peers := PeersAfter(s.peers, input.event));
    PeerChangeKeepsSafe(job, map[], s, s'.peers);
    PrivateDispatchOk(job, s', input);
  }

  lemma GraceKeepsHead(job: Job, s: FetchState)
    requires PrivateHead(job, s)
    ensures PrivateHead(job, s.(skipUnresolved := true))
  {
    var s' := s.(skipUnresolved := true);
    forall i | 0 <= i < |s.chunks|
      ensures ChunkOk(job.Ranking(i), i, false, s'.chunks[i], s'.trace, true)
    {
      assert ChunkOk(job.Ranking(i), i, false, s.chunks[i], s.trace, s.skipUnresolved);
    }
    assert ChunksOk(job, map[], s') && CountersOk(job, s');
  }

  lemma GraceStep(job: Job, s: FetchState, input: Input)
    requires |s.chunks| == |job.chunks| && input.event.GraceElapsed? && !s.skipUnresolved
    ensures PrivateStep(job, s, input) == ChunkFetch.TryDispatch(job, s.(skipUnresolved := true), input)
  {
  }

  lemma PrivateGraceOk(job: Job, s: FetchState, input: Input)
    requires job.Valid() && PrivateHead(job, s) && Inverts(input.addrToPeer, s.peers)
    requires input.event.GraceElapsed? && !s.skipUnresolved
    ensures PrivateTurnOk(job, PrivateStep(job, s, input))
  {
    GraceStep(job, s, input);
    GraceKeepsHead(job, s);
    PrivateDispatchOk(job, s.(skipUnresolved := true), input);
  }

  lemma PrivateSilenceOk(job: Job, s: FetchState, input: Input)
    requires PrivateHead(job, s)
    requires match input.event
             case ChunkData(_, _, _, _, _, _) => false
             case PeerIdentified(_, _) => false
             case PeerDisconnected(_) => false
             case GraceElapsed => s.skipUnresolved
             case _ => true
    ensures PrivateTurnOk(job, PrivateStep(job, s, input))
  {
    UnchangedOk(job, s, PrivateStep(job, s, input).verdict);
  }

  lemma PrivateStepOk(job: Job, s: FetchState, input: Input)
    requires job.Valid() && PrivateHead(job, s) && ValidInput(s, input)
    ensures PrivateTurnOk(job, PrivateStep(job, s, input))
  {
    if input.event.ChunkData? {
      PrivateAnswerOk(job, s, input);
    } else if input.event.PeerIdentified? || input.event.PeerDisconnected? {
      PrivatePeersOk(job, s, input);
    } else if input.event.GraceElapsed? && !s.skipUnresolved {
      PrivateGraceOk(job, s, input);
    } else {
      PrivateSilenceOk(job, s, input);
    }
  }

  ghost predicate PrivateOutcomeOk(job: Job, r: RunResult) {
    && Safe(job, map[], r.state)
    && InFlightCount(r.state.chunks) <= job.Cap()
    && (r.outcome.Waiting? ==> NoneLost(job, r.state) && !r.state.AllDone())
    && (r.outcome.Completed? ==> r.state.AllDone())
    && (r.outcome.Failed? && r.outcome.error.Exhausted? ==>
          TrulyExhausted(job, r.outcome.error.chunk, r.outcome.error.archives, r.state.trace))
  }

  lemma PrivateEndings(job: Job, r: StepResult)
    requires PrivateTurnOk(job, r)
    ensures r.verdict.Running? ==>
            PrivateOutcomeOk(job, RunResult(r.state, if r.state.AllDone() then Completed else Waiting))
    ensures r.verdict.Stopped? ==> PrivateOutcomeOk(job, RunResult(r.state, Failed(r.verdict.error)))
  {
  }

  lemma {:induction false} PrivateRunKeepsSafe(job: Job, s: FetchState, inputs: seq<Input>)
    requires job.Valid() && PrivateHead(job, s) && ValidPrivateRun(job, s, inputs)
    ensures PrivateOutcomeOk(job, PrivateRun(job, s, inputs))
    decreases |inputs|
  {
    if s.AllDone() || inputs == [] {
      PrivateEndings(job, StepResult(s, Running));
    } else {
      PrivateStepOk(job, s, inputs[0]);
      var r := PrivateStep(job, s, inputs[0]);
      if r.verdict.Running? {
        PrivateRunKeepsSafe(job, r.state, inputs[1..]);
      } else {
        PrivateEndings(job, r);
      }
    }
  }

  /** The ask history, the cap and the truth of an exhaustion report hold over every Private fetch. */
  lemma EveryPrivateFetchIsSafe(job: Job, peers: map<PeerId, Address>, first: Input, inputs: seq<Input>)
    requires job.Valid() && ValidPrivateFetch(job, peers, first, inputs)
    ensures PrivateOutcomeOk(job, FetchCiphertext(job, peers, first, inputs))
  {
    var s0 := InitialState(job, peers, map[]);
    InitialStateIsSafe(job, peers, map[]);
    DispatchOk(job, map[], s0, first);
    var r := ChunkFetch.TryDispatch(job, s0, first);
    if r.verdict.Running? {
      PrivateRunKeepsSafe(job, r.state, inputs);
    } else {
      PrivateEndings(job, r);
    }
  }

  // ── The room a good answer leaves unused ──

  lemma {:induction false} EveryoneInFlight(chunks: seq<ChunkState>)
    ensures InFlightCount(chunks) <= |chunks|
    ensures InFlightCount(chunks) == |chunks| <==> forall i | 0 <= i < |chunks| :: chunks[i].inFlight.Some?
  {
    if chunks != [] {
      var n := |chunks| - 1;
      EveryoneInFlight(chunks[..n]);
      assert forall i | 0 <= i < n :: chunks[..n][i] == chunks[i];
    }
  }

  /** After a good answer there is room, so the machine is saturated exactly when no chunk could be asked. */
  lemma SaturatedAfterGoodAnswerIff(job: Job, s: FetchState, i: nat, data: Bytes)
    requires i < |s.chunks| == |job.chunks| && s.chunks[i].inFlight.Some? && InFlightCount(s.chunks) <= job.Cap()
    ensures var s' := Finish(job, s, i, data);
            (Saturated(job, s')
             <==> forall k | 0 <= k < |s.chunks| :: !Askable(s'.chunks[k], s'.peers.Values, s'.skipUnresolved))
  {
    FinishFreesPlace(job, s, i, data);
  }

  /** With room for every chunk, a freed place is a place nobody was waiting for. */
  lemma AmpleCapStaysSaturated(job: Job, s: FetchState, i: nat, data: Bytes)
    requires Saturated(job, s) && job.Cap() >= |job.chunks|
    requires i < |s.chunks| == |job.chunks| && s.chunks[i].inFlight.Some?
    ensures Saturated(job, Finish(job, s, i, data))
  {
    EveryoneInFlight(s.chunks);
    SaturatedAfterGoodAnswerIff(job, s, i, data);
  }

  predicate GoodAnswerComes(job: Job, s: FetchState, input: Input)
    requires |s.chunks| == |job.chunks|
  {
    && input.event.ChunkData?
    && var settled := Settles(job, s, input.event.peer, input.event.cid);
    settled.Some? && Finishes(job, s, input, settled.value)
  }

  /** The two machines take the same step unless a good answer or a failure comes in. */
  lemma SharesStep(job: Job, s: FetchState, input: Input)
    requires |s.chunks| == |job.chunks| && !input.event.RequestFailed? && !GoodAnswerComes(job, s, input)
    ensures PrivateStep(job, s, input) == Step(job, s, input)
  {
  }

  lemma SharedStepSaturates(job: Job, s: FetchState, input: Input)
    requires job.Valid() && PrivateHead(job, s) && Saturated(job, s) && ValidInput(s, input)
    requires PrivateStep(job, s, input) == Step(job, s, input) && Step(job, s, input).verdict.Running?
    ensures Saturated(job, PrivateStep(job, s, input).state)
  {
    StepOk(job, map[], s, input);
  }

  lemma AmpleCapAnswer(job: Job, s: FetchState, input: Input)
    requires |s.chunks| == |job.chunks| && Saturated(job, s) && job.Cap() >= |job.chunks|
             && GoodAnswerComes(job, s, input)
    ensures Saturated(job, PrivateStep(job, s, input).state)
  {
    AmpleCapStaysSaturated(job, s, Settles(job, s, input.event.peer, input.event.cid).value, input.event.data);
  }

  lemma AmpleCapStep(job: Job, s: FetchState, input: Input)
    requires job.Valid() && PrivateHead(job, s) && Saturated(job, s) && job.Cap() >= |job.chunks|
             && ValidInput(s, input)
    requires PrivateStep(job, s, input).verdict.Running?
    ensures Saturated(job, PrivateStep(job, s, input).state)
  {
    if GoodAnswerComes(job, s, input) {
      AmpleCapAnswer(job, s, input);
    } else if !input.event.RequestFailed? {
      SharesStep(job, s, input);
      SharedStepSaturates(job, s, input);
    }
  }

  lemma {:induction false} AmpleCapRun(job: Job, s: FetchState, inputs: seq<Input>)
    requires job.Valid() && PrivateHead(job, s) && Saturated(job, s) && job.Cap() >= |job.chunks|
             && ValidPrivateRun(job, s, inputs)
    ensures PrivateRun(job, s, inputs).outcome.Waiting? ==> Saturated(job, PrivateRun(job, s, inputs).state)
    decreases |inputs|
  {
    if !s.AllDone() && inputs != [] {
      var r := PrivateStep(job, s, inputs[0]);
      PrivateStepOk(job, s, inputs[0]);
      if r.verdict.Running? {
        AmpleCapStep(job, s, inputs[0]);
        AmpleCapRun(job, r.state, inputs[1..]);
      }
    }
  }

  /** The fetch never waits with a place free while an identified archive could be asked. */
  ghost predicate NeverIdles(job: Job) {
    forall peers, first, inputs | ValidPrivateFetch(job, peers, first, inputs) ::
      FetchCiphertext(job, peers, first, inputs).outcome.Waiting? ==>
        Saturated(job, FetchCiphertext(job, peers, first, inputs).state)
  }

  lemma AmpleCapNeverIdles(job: Job, peers: map<PeerId, Address>, first: Input, inputs: seq<Input>)
    requires job.Valid() && job.Cap() >= |job.chunks| && ValidPrivateFetch(job, peers, first, inputs)
    ensures var r := FetchCiphertext(job, peers, first, inputs);
            r.outcome.Waiting? ==> Saturated(job, r.state)
  {
    var s0 := InitialState(job, peers, map[]);
    InitialStateIsSafe(job, peers, map[]);
    DispatchOk(job, map[], s0, first);
    var r := ChunkFetch.TryDispatch(job, s0, first);
    if r.verdict.Running? {
      AmpleCapRun(job, r.state, inputs);
    }
  }

  /** The best-ranked archive of every chunk is known from the start, each as its own peer. */
  function BestArchives(job: Job): map<PeerId, Address> {
    var firsts := set i | 0 <= i < |job.chunks| && job.Ranking(i) != [] :: job.Ranking(i)[0];
    map a | a in firsts :: a
  }

  lemma BestArchivesKnown(job: Job, i: nat)
    requires i < |job.chunks| && job.Ranking(i) != []
    ensures job.Ranking(i)[0] in BestArchives(job).Values
  {
    assert BestArchives(job)[job.Ranking(i)[0]] == job.Ranking(i)[0];
  }

  /** Nothing stands in the way of any chunk. */
  ghost predicate Unhindered(job: Job) {
    && Deliverable(job)
    && forall i | 0 <= i < |job.chunks| :: job.Ranking(i) != [] && OwnsCid(job, i)
  }

  /** Everyone could be asked, so after the first wave whoever is not in flight still could be. */
  lemma LeftOutCouldBeAsked(job: Job, first: Input, j: nat)
    requires Unhindered(job) && first.sendFailsAt.None? && j < |job.chunks|
    ensures var s := ChunkFetch.TryDispatch(job, InitialState(job, BestArchives(job), map[]), first).state;
            |s.chunks| == |job.chunks|
            && (s.chunks[j].inFlight.None? ==>
                  Askable(s.chunks[j], BestArchives(job).Values, false) && s.chunks[j] == InitialChunk(job, map[], j))
  {
    var s0 := InitialState(job, BestArchives(job), map[]);
    SmoothDispatch(job, s0, first);
    DispatchLeavesOrAsks(job, s0, first, j);
    BestArchivesKnown(job, j);
    assert MayAsk(s0.chunks[j].order, 0, BestArchives(job).Values, false, 0);
  }

  lemma FirstWave(job: Job, first: Input)
    requires Inverts(first.addrToPeer, BestArchives(job)) && first.sendFailsAt.None?
    ensures var r := ChunkFetch.TryDispatch(job, InitialState(job, BestArchives(job), map[]), first);
            && r.verdict.Running? && |r.state.chunks| == |job.chunks| && Saturated(job, r.state)
            && r.state.peers == BestArchives(job) && !r.state.skipUnresolved
            && forall i | 0 <= i < |job.chunks| :: !r.state.chunks[i].done
  {
    var s0 := InitialState(job, BestArchives(job), map[]);
    SmoothDispatch(job, s0, first);
    SomethingInFlight(s0.chunks);
    TryDispatchSaturates(job, s0, first);
  }

  lemma ScarceCapFirstWave(job: Job, first: Input) returns (i: nat, j: nat)
    requires Unhindered(job) && job.Cap() < |job.chunks|
    requires Inverts(first.addrToPeer, BestArchives(job)) && first.sendFailsAt.None?
    ensures var s := ChunkFetch.TryDispatch(job, InitialState(job, BestArchives(job), map[]), first).state;
            && |s.chunks| == |job.chunks| && i < |job.chunks| && j < |job.chunks|
            && s.chunks[i].inFlight.Some? && s.chunks[j].inFlight.None?
            && Askable(s.chunks[j], BestArchives(job).Values, false)
  {
    FirstWave(job, first);
    var s := ChunkFetch.TryDispatch(job, InitialState(job, BestArchives(job), map[]), first).state;
    EveryoneInFlight(s.chunks);
    j :| 0 <= j < |s.chunks| && s.chunks[j].inFlight.None?;
    LeftOutCouldBeAsked(job, first, j);
    SomethingInFlight(s.chunks);
    i :| 0 <= i < |s.chunks| && s.chunks[i].inFlight.Some?;
  }

  lemma OneTurn(job: Job, s: FetchState, input: Input)
    requires |s.chunks| == |job.chunks| && !s.AllDone() && ValidInput(s, input)
    requires PrivateStep(job, s, input).verdict.Running? && !PrivateStep(job, s, input).state.AllDone()
    ensures PrivateRun(job, s, [input]) == RunResult(PrivateStep(job, s, input).state, Waiting)
    ensures ValidPrivateRun(job, s, [input])
  {
    PrivateStepKeepsLength(job, s, input);
    assert [input][1..] == [];
  }

  lemma GoodInputTurn(job: Job, s: FetchState, i: nat, input: Input)
    requires i < |s.chunks| == |job.chunks| && s.chunks[i].inFlight.Some? && !s.chunks[i].done
    requires OwnsCid(job, i) && IsGoodInput(job, s, i, input)
    ensures PrivateStep(job, s, input) == StepResult(Finish(job, s, i, input.event.data), Running)
  {
    assert Settles(job, s, input.event.peer, input.event.cid) == Some(i);
  }

  lemma AfterFirstWave(job: Job, peers: map<PeerId, Address>, first: Input, inputs: seq<Input>)
    requires Inverts(first.addrToPeer, peers)
    requires ChunkFetch.TryDispatch(job, InitialState(job, peers, map[]), first).verdict.Running?
    ensures var s := ChunkFetch.TryDispatch(job, InitialState(job, peers, map[]), first).state;
            && |s.chunks| == |job.chunks|
            && FetchCiphertext(job, peers, first, inputs) == PrivateRun(job, s, inputs)
            && (ValidPrivateRun(job, s, inputs) ==> ValidPrivateFetch(job, peers, first, inputs))
  {
    DispatchKeepsLength(job, InitialState(job, peers, map[]), first);
  }

  lemma GoodAnswerIdles(job: Job, s: FetchState, i: nat, j: nat) returns (input: Input)
    requires Deliverable(job) && |s.chunks| == |job.chunks| && InFlightCount(s.chunks) <= job.Cap()
    requires i < |s.chunks| && s.chunks[i].inFlight.Some? && !s.chunks[i].done && OwnsCid(job, i)
    requires j < |s.chunks| && s.chunks[j].inFlight.None? && Askable(s.chunks[j], s.peers.Values, s.skipUnresolved)
    ensures ValidPrivateRun(job, s, [input])
    ensures PrivateRun(job, s, [input]).outcome.Waiting? && !Saturated(job, PrivateRun(job, s, [input]).state)
  {
    input := GoodInputExists(job, s, i);
    GoodInputTurn(job, s, i, input);
    IdleAfter(job, s, i, j, input.event.data);
    OneTurn(job, s, input);
  }

  lemma ScarceCapIdles(job: Job) returns (first: Input, input: Input)
    requires job.Valid() && Unhindered(job) && job.Cap() < |job.chunks|
    ensures ValidPrivateFetch(job, BestArchives(job), first, [input])
    ensures var r := FetchCiphertext(job, BestArchives(job), first, [input]);
            r.outcome.Waiting? && !Saturated(job, r.state)
  {
    var inverse := InverseExists(BestArchives(job));
    first := Input(Unrelated, inverse, None, true);
    FirstWave(job, first);
    var i, j := ScarceCapFirstWave(job, first);
    var sent := ChunkFetch.TryDispatch(job, InitialState(job, BestArchives(job), map[]), first);
    input := GoodAnswerIdles(job, sent.state, i, j);
    AfterFirstWave(job, BestArchives(job), first, [input]);
  }

  lemma IdleAfter(job: Job, s: FetchState, i: nat, j: nat, data: Bytes)
    requires i < |s.chunks| == |job.chunks| && s.chunks[i].inFlight.Some? && InFlightCount(s.chunks) <= job.Cap()
    requires j < |s.chunks| && j != i && !s.chunks[j].done && Askable(s.chunks[j], s.peers.Values, s.skipUnresolved)
    ensures !Finish(job, s, i, data).AllDone() && !Saturated(job, Finish(job, s, i, data))
  {
    SaturatedAfterGoodAnswerIff(job, s, i, data);
    assert Finish(job, s, i, data).chunks[j] == s.chunks[j];
  }

  /** The exact condition, for a download with nothing in its way: the Private fetch keeps its places full exactly when
      it has a place for every chunk. */
  lemma NeverIdlesIff(job: Job)
    requires job.Valid() && Unhindered(job)
    ensures NeverIdles(job) <==> job.Cap() >= |job.chunks|
  {
    if job.Cap() >= |job.chunks| {
      forall peers, first, inputs | ValidPrivateFetch(job, peers, first, inputs)
        ensures FetchCiphertext(job, peers, first, inputs).outcome.Waiting? ==>
                Saturated(job, FetchCiphertext(job, peers, first, inputs).state)
      {
        AmpleCapNeverIdles(job, peers, first, inputs);
      }
    } else {
      var first, input := ScarceCapIdles(job);
    }
  }

  // ── What wakes it, and what does not ──

  /** Only news about peers, or the end of the grace period, makes an idle fetch ask for anything again. */
  predicate Wakes(s: FetchState, e: Event) {
    e.PeerIdentified? || e.PeerDisconnected? || (e.GraceElapsed? && !s.skipUnresolved)
  }

  lemma IdleStep(job: Job, s: FetchState, input: Input)
    requires |s.chunks| == |job.chunks| && InFlightCount(s.chunks) == 0 && !Wakes(s, input.event)
    ensures PrivateStep(job, s, input).state == s
  {
    SomethingInFlight(s.chunks);
  }

  /** With one place and one chunk delivered, the rest of the file waits for a peer to come or go, or for the
      deadline. */
  lemma {:induction false} IdleFetchNeverCompletes(job: Job, s: FetchState, inputs: seq<Input>)
    requires |s.chunks| == |job.chunks| && InFlightCount(s.chunks) == 0 && !s.AllDone()
    requires forall k | 0 <= k < |inputs| :: !Wakes(s, inputs[k].event)
    ensures PrivateRun(job, s, inputs).state == s && !PrivateRun(job, s, inputs).outcome.Completed?
    decreases |inputs|
  {
    if inputs != [] {
      IdleStep(job, s, inputs[0]);
      IdleFetchNeverCompletes(job, s, inputs[1..]);
    }
  }

  lemma WaitingAnswer(job: Job, s: FetchState, input: Input, i: nat)
    requires |s.chunks| == |job.chunks| && i < |s.chunks| && s.chunks[i].inFlight.Some? && input.event.ChunkData?
    requires !Answers(job, i, s.chunks[i].inFlight.value.peer, input.event)
    ensures var s' := PrivateStep(job, s, input).state;
            |s'.chunks| == |s.chunks| && s'.chunks[i] == s.chunks[i]
  {
    var settled := Settles(job, s, input.event.peer, input.event.cid);
    if settled.Some? && !Finishes(job, s, input, settled.value) {
      RejectLeavesWaiting(job, s, input, settled.value, i);
    }
  }

  lemma WaitingStep(job: Job, s: FetchState, input: Input, i: nat)
    requires |s.chunks| == |job.chunks| && i < |s.chunks| && s.chunks[i].inFlight.Some?
    requires !Answers(job, i, s.chunks[i].inFlight.value.peer, input.event)
    ensures var s' := PrivateStep(job, s, input).state;
            |s'.chunks| == |s.chunks| && s'.chunks[i] == s.chunks[i]
  {
    match input.event
    case ChunkData(_, _, _, _, _, _) => WaitingAnswer(job, s, input, i);
    case GraceElapsed => DispatchLeavesWaiting(job, s.(skipUnresolved := true), input, i);
    case _ => DispatchLeavesWaiting(job, s.(peers := PeersAfter(s.peers, input.event)), input, i);
  }

  /** A request whose answer never comes keeps its chunk, and its place, to the end: the fetch does not complete, no
      matter how many of the chunk's other archives are left and what failures are reported. */
  lemma {:induction false} DeadRequestNeverCompletes(job: Job, s: FetchState, inputs: seq<Input>, i: nat)
    requires |s.chunks| == |job.chunks| && i < |s.chunks| && s.chunks[i].inFlight.Some? && !s.chunks[i].done
    requires forall k | 0 <= k < |inputs| :: !Answers(job, i, s.chunks[i].inFlight.value.peer, inputs[k].event)
    ensures !PrivateRun(job, s, inputs).outcome.Completed?
    ensures var s' := PrivateRun(job, s, inputs).state; |s'.chunks| == |s.chunks| && s'.chunks[i] == s.chunks[i]
    decreases |inputs|
  {
    if inputs != [] {
      WaitingStep(job, s, inputs[0], i);
      if PrivateStep(job, s, inputs[0]).verdict.Running? {
        DeadRequestNeverCompletes(job, PrivateStep(job, s, inputs[0]).state, inputs[1..], i);
      }
    }
  }

  // ── The loop as it runs ──

  method OnPrivateEvent(fetch: PublicChunkFetch, input: Input) returns (verdict: Verdict)
    requires |fetch.state| == |fetch.job.chunks|
    modifies fetch
    ensures StepResult(fetch.View(), verdict) == PrivateStep(fetch.job, old(fetch.View()), input)
  {
    var e := input.event;
    if e.RequestFailed? {
      return Running;
    }
    if !e.ChunkData? {
      verdict := fetch.OnEvent(input);
      return;
    }
    var settled := Settles(fetch.job, fetch.View(), e.peer, e.cid);
    if settled.None? || fetch.state[settled.value].done {
      return Running;
    }
    if GoodAnswer(fetch.job, fetch.job.chunks[settled.value], e) {
      fetch.Deliver(settled.value, e.data);
      return Running;
    }
    verdict := fetch.Reject(settled.value, input);
  }

  method FetchAllCiphertextChunks(job: Job, peers: map<PeerId, Address>, first: Input, inputs: seq<Input>)
    returns (r: RunResult)
    ensures r == FetchCiphertext(job, peers, first, inputs)
  {
    var fetch := new PublicChunkFetch(job, peers, map[]);
    DispatchKeepsLength(job, fetch.View(), first);
    var verdict := fetch.TryDispatch(first);
    if verdict.Stopped? {
      return RunResult(fetch.View(), Failed(verdict.error));
    }
    var k := 0;
    while exists i :: 0 <= i < |fetch.state| && !fetch.state[i].done
      invariant 0 <= k <= |inputs|
      invariant fetch.job == job && |fetch.state| == |job.chunks|
      invariant PrivateRun(job, fetch.View(), inputs[k..]) == FetchCiphertext(job, peers, first, inputs)
      decreases |inputs| - k
    {
      if k == |inputs| {
        return RunResult(fetch.View(), Waiting);
      }
      PrivateStepKeepsLength(job, fetch.View(), inputs[k]);
      assert inputs[k..][0] == inputs[k] && inputs[k..][1..] == inputs[k + 1..];
      verdict := OnPrivateEvent(fetch, inputs[k]);
      if verdict.Stopped? {
        return RunResult(fetch.View(), Failed(verdict.error));
      }
      k := k + 1;
    }
    r := RunResult(fetch.View(), Completed);
  }
}
