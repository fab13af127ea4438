/**
 When a Private chunk fetch can still finish, and what a failure it does not hear of costs.
 */
module PrivateFetchLiveness {
  import opened Wrappers
  import opened Identity
  import opened Routing
  import opened ChunkFetch
  import opened ChunkFetchSafety
  import opened ChunkFetchLiveness
  import opened PrivateFetch

  // ── Obstructed chunks stay unfinished ──

  lemma PrivateAnswerKeepsDoomed(job: Job, s: FetchState, i: nat, input: Input)
    requires Doomed(job, s, i) && GoodAnswerComes(job, s, input)
    ensures Doomed(job, PrivateStep(job, s, input).state, i)
  {
    var k := Settles(job, s, input.event.peer, input.event.cid).value;
    SettledOwnsCid(job, s, input.event.peer, input.event.cid);
    SettlingKeepsDoomed(job, s, i, k, input.event.data);
  }

  lemma PrivateStepKeepsDoomed(job: Job, s: FetchState, i: nat, input: Input)
    requires Doomed(job, s, i)
    ensures Doomed(job, PrivateStep(job, s, input).state, i)
  {
    if GoodAnswerComes(job, s, input) {
      PrivateAnswerKeepsDoomed(job, s, i, input);
    } else if !input.event.RequestFailed? {
      SharesStep(job, s, input);
      StepKeepsDoomed(job, s, i, input);
    }
  }

  lemma {:induction false} PrivateDoomedNeverCompletes(job: Job, s: FetchState, i: nat, inputs: seq<Input>)
    requires Doomed(job, s, i)
    ensures !PrivateRun(job, s, inputs).outcome.Completed?
    decreases |inputs|
  {
    if inputs != [] {
      PrivateStepKeepsDoomed(job, s, i, inputs[0]);
      var r := PrivateStep(job, s, inputs[0]);
      if r.verdict.Running? {
        PrivateDoomedNeverCompletes(job, r.state, i, inputs[1..]);
      }
    }
  }

  // ── Without obstacles a way to finish stays open ──

  ghost predicate PrivateOnTrack(job: Job, s: FetchState) {
    PrivateHead(job, s) && Unobstructed(job, s)
  }

  /** A turn that keeps the fetch on track, and finishes `finished` more chunks. */
  ghost predicate PrivateProgress(job: Job, s: FetchState, input: Input, finished: nat) {
    && |s.chunks| == |job.chunks|
    && ValidInput(s, input)
    && PrivateStep(job, s, input).verdict.Running?
    && PrivateOnTrack(job, PrivateStep(job, s, input).state)
    && DoneCount(PrivateStep(job, s, input).state.chunks) == DoneCount(s.chunks) + finished
  }

  lemma TurnStaysOnTrack(job: Job, s: FetchState, s': FetchState)
    requires |s.chunks| == |job.chunks| && Unobstructed(job, s)
    requires PrivateTurnOk(job, StepResult(s', Running))
    requires forall i :: 0 <= i < |s.chunks| && s.chunks[i].done ==> s'.chunks[i].done
    ensures PrivateOnTrack(job, s')
  {
  }

  lemma DoneCountFollows(job: Job, s: FetchState, s': FetchState, finished: nat)
    requires CountersOk(job, s) && CountersOk(job, s') && s'.fetched == s.fetched + finished && s'.skipped == s.skipped
    ensures DoneCount(s'.chunks) == DoneCount(s.chunks) + finished
  {
  }

  lemma AnswerFinishes(job: Job, s: FetchState, i: nat, input: Input)
    requires i < |s.chunks| == |job.chunks| && s.chunks[i].inFlight.Some? && !s.chunks[i].done
    requires OwnsCid(job, i) && IsGoodInput(job, s, i, input)
    ensures var r := PrivateStep(job, s, input);
            && r.verdict.Running? && |r.state.chunks| == |s.chunks| && ValidInput(s, input)
            && r.state.fetched == s.fetched + 1 && r.state.skipped == s.skipped
            && forall k :: 0 <= k < |s.chunks| && s.chunks[k].done ==> r.state.chunks[k].done
  {
    GoodInputTurn(job, s, i, input);
  }

  lemma AnswerProgress(job: Job, s: FetchState, i: nat, input: Input)
    requires job.Valid() && PrivateOnTrack(job, s)
    requires i < |s.chunks| && s.chunks[i].inFlight.Some? && IsGoodInput(job, s, i, input)
    ensures PrivateProgress(job, s, input, 1)
  {
    InFlightIsNotDone(job, map[], s, i);
    AnswerFinishes(job, s, i, input);
    PrivateStepOk(job, s, input);
    TurnStaysOnTrack(job, s, PrivateStep(job, s, input).state);
    DoneCountFollows(job, s, PrivateStep(job, s, input).state, 1);
  }

  lemma IdentifyProgress(job: Job, s: FetchState, i: nat, input: Input)
    requires job.Valid() && PrivateOnTrack(job, s) && InFlightCount(s.chunks) == 0
    requires i < |s.chunks| && !s.chunks[i].done && s.chunks[i].next < |s.chunks[i].order|
    requires ValidInput(s, input) && input.sendFailsAt.None?
    requires input.event.PeerIdentified? && input.event.address == s.chunks[i].order[s.chunks[i].next]
    ensures PrivateProgress(job, s, input, 0)
    ensures InFlightCount(PrivateStep(job, s, input).state.chunks) > 0
  {
    SharesStep(job, s, input);
    IdentifyProgresses(job, s, i, input);
    PrivateStepOk(job, s, input);
    TurnStaysOnTrack(job, s, PrivateStep(job, s, input).state);
    DoneCountFollows(job, s, PrivateStep(job, s, input).state, 0);
  }

  lemma AnsweringTurn(job: Job, s: FetchState) returns (input: Input)
    requires job.Valid() && PrivateOnTrack(job, s) && Deliverable(job) && InFlightCount(s.chunks) > 0
    ensures PrivateProgress(job, s, input, 1)
  {
    var i;
    i, input := AnswerInput(job, s);
    AnswerProgress(job, s, i, input);
  }

  lemma IdentifyingTurn(job: Job, s: FetchState) returns (input: Input)
    requires job.Valid() && PrivateOnTrack(job, s) && !s.AllDone() && InFlightCount(s.chunks) == 0
    ensures PrivateProgress(job, s, input, 0)
    ensures InFlightCount(PrivateStep(job, s, input).state.chunks) > 0
  {
    var i := SomeoneIsNextInLine(job, s);
    input := IdentifyInput(s, s.chunks[i].order[s.chunks[i].next]);
    IdentifyProgress(job, s, i, input);
  }

  lemma ExtendPrivateRun(job: Job, s: FetchState, input: Input, rest: seq<Input>)
    requires |s.chunks| == |job.chunks| && !s.AllDone()
    requires ValidInput(s, input) && PrivateStep(job, s, input).verdict.Running?
    requires |PrivateStep(job, s, input).state.chunks| == |job.chunks|
    requires ValidPrivateRun(job, PrivateStep(job, s, input).state, rest)
    ensures ValidPrivateRun(job, s, [input] + rest)
    ensures PrivateRun(job, s, [input] + rest) == PrivateRun(job, PrivateStep(job, s, input).state, rest)
  {
    assert ([input] + rest)[1..] == rest;
  }

  /** A way to finish, constructed. */
  lemma {:induction false} PrivateWayToFinish(job: Job, s: FetchState) returns (inputs: seq<Input>)
    requires job.Valid() && PrivateOnTrack(job, s) && Deliverable(job)
    ensures ValidPrivateRun(job, s, inputs) && PrivateRun(job, s, inputs).outcome.Completed?
    decreases |job.chunks| - DoneCount(s.chunks), if InFlightCount(s.chunks) == 0 then 1 else 0
  {
    if s.AllDone() {
      inputs := [];
      return;
    }
    DoneCountBound(s.chunks);
    var input;
    if InFlightCount(s.chunks) > 0 {
      input := AnsweringTurn(job, s);
    } else {
      input := IdentifyingTurn(job, s);
    }
    var s' := PrivateStep(job, s, input).state;
    DoneCountBound(s'.chunks);
    var rest := PrivateWayToFinish(job, s');
    inputs := [input] + rest;
    ExtendPrivateRun(job, s, input, rest);
  }

  /** The exact condition: from any state a Private fetch can wait in, some continuation finishes it if and only if
      every chunk still missing owns its CID and has an assigned archive. So what it lacks against the Public one it
      can make up for, as long as every request that is out is answered in the end; `DeadRequestNeverCompletes` is the
      rest. */
  lemma PrivateCanFinishIff(job: Job, s: FetchState)
    requires job.Valid() && PrivateHead(job, s) && Deliverable(job)
    ensures (exists inputs :: ValidPrivateRun(job, s, inputs) && PrivateRun(job, s, inputs).outcome.Completed?)
            <==> Unobstructed(job, s)
  {
    if Unobstructed(job, s) {
      var inputs := PrivateWayToFinish(job, s);
    } else {
      var i :| 0 <= i < |s.chunks| && !s.chunks[i].done && !(OwnsCid(job, i) && job.Ranking(i) != []);
      ObstructedIsDoomed(job, map[], s, i);
      forall inputs | ValidPrivateRun(job, s, inputs) ensures !PrivateRun(job, s, inputs).outcome.Completed? {
        PrivateDoomedNeverCompletes(job, s, i, inputs);
      }
    }
  }

  // ── A reported failure ──

  /** Some chunk is in flight after the first wave. */
  lemma SomeoneIsAsked(job: Job, first: Input) returns (i: nat)
    requires Unhindered(job) && job.chunks != []
    requires Inverts(first.addrToPeer, BestArchives(job)) && first.sendFailsAt.None?
    ensures var s := ChunkFetch.TryDispatch(job, InitialState(job, BestArchives(job), map[]), first).state;
            |s.chunks| == |job.chunks| && i < |s.chunks| && s.chunks[i].inFlight.Some?
  {
    FirstWave(job, first);
    var s := ChunkFetch.TryDispatch(job, InitialState(job, BestArchives(job), map[]), first).state;
    LeftOutCouldBeAsked(job, first, 0);
    SomethingInFlight(s.chunks);
    if s.chunks[0].inFlight.Some? {
      i := 0;
    } else {
      i :| 0 <= i < |s.chunks| && s.chunks[i].inFlight.Some?;
    }
  }

  /** The failure of what chunk `i` is waiting for, reported under its CID by its peer. */
  predicate ReportsFailureOf(job: Job, s: FetchState, i: nat, e: Event)
    requires i < |s.chunks| == |job.chunks| && s.chunks[i].inFlight.Some?
  {
    e == RequestFailed(s.chunks[i].inFlight.value.peer, Some(job.chunks[i].cid))
  }

  lemma FailureTurn(job: Job, s: FetchState, i: nat) returns (input: Input)
    requires i < |s.chunks| == |job.chunks| && s.chunks[i].inFlight.Some? && OwnsCid(job, i) && !s.chunks[i].done
    ensures ReportsFailureOf(job, s, i, input.event)
    ensures ValidPrivateRun(job, s, [input]) && PrivateRun(job, s, [input]) == RunResult(s, Waiting)
    ensures Step(job, s, input) == ChunkFetch.Reject(job, s, i, input)
  {
    var inverse := InverseExists(s.peers);
    input := Input(RequestFailed(s.chunks[i].inFlight.value.peer, Some(job.chunks[i].cid)), inverse, None, true);
    assert Settles(job, s, input.event.peer, job.chunks[i].cid) == Some(i);
    OneTurn(job, s, input);
  }

  /** For every download with nothing in its way there is a run in which the failure of a request is reported and the
      request stands as if it had not been, where the Public fetch would turn to the next archive. */
  lemma ReportedFailureIsIgnored(job: Job) returns (first: Input, input: Input, i: nat)
    requires Unhindered(job) && job.chunks != []
    ensures ValidPrivateFetch(job, BestArchives(job), first, [input])
    ensures var r := FetchCiphertext(job, BestArchives(job), first, [input]);
            && r.outcome.Waiting? && |r.state.chunks| == |job.chunks|
            && i < |r.state.chunks| && r.state.chunks[i].inFlight.Some?
            && ReportsFailureOf(job, r.state, i, input.event)
            && Step(job, r.state, input) == ChunkFetch.Reject(job, r.state, i, input)
  {
    var inverse := InverseExists(BestArchives(job));
    first := Input(Unrelated, inverse, None, true);
    FirstWave(job, first);
    i := SomeoneIsAsked(job, first);
    var s := ChunkFetch.TryDispatch(job, InitialState(job, BestArchives(job), map[]), first).state;
    input := FailureTurn(job, s, i);
    AfterFirstWave(job, BestArchives(job), first, [input]);
  }
}
