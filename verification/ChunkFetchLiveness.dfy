/**
 When a chunk fetch can finish, from any point of any run, and what a finished or bounded run amounts to.

 Answers are credited by content identifier, and of two chunks with the same bytes only the later one is found by
 that lookup. So an earlier chunk that is still missing while a later one repeats it can never be finished, and
 neither can a missing chunk no archive was assigned to. These are the only two obstacles: without them, a way to
 finish remains open from every state a fetch can wait in.
 */
module ChunkFetchLiveness {
  import opened Wrappers
  import opened Identity
  import opened Routing
  import opened ChunkFetch
  import opened ChunkFetchSafety

  // ── Bounds ──

  lemma {:induction false} BudgetCoversFlight(chunks: seq<ChunkState>)
    requires forall i :: 0 <= i < |chunks| ==> chunks[i].next <= |chunks[i].order|
    ensures Budget(chunks) >= InFlightCount(chunks)
  {
    if chunks != [] {
      BudgetCoversFlight(chunks[..|chunks| - 1]);
    }
  }

  lemma CursorsInRange(job: Job, store0: map<Cid, Bytes>, s: FetchState)
    requires ChunksOk(job, store0, s)
    ensures forall i :: 0 <= i < |s.chunks| ==> s.chunks[i].next <= |s.chunks[i].order|
  {
    forall i | 0 <= i < |s.chunks| ensures s.chunks[i].next <= |s.chunks[i].order| {
      assert ChunkOk(job.Ranking(i), i, job.chunks[i].cid in store0, s.chunks[i], s.trace, s.skipUnresolved);
    }
  }

  /** No run sends more pulls than there are (chunk, assigned archive) pairs, nor exchanges more than two messages
      for each of them. */
  lemma PullsAreBounded(job: Job, store0: map<Cid, Bytes>, s: FetchState)
    requires Safe(job, store0, s)
    ensures PullCount(s.trace) <= AssignedPairs(job, |job.chunks|)
    ensures |s.trace| <= 2 * AssignedPairs(job, |job.chunks|)
  {
    CursorsInRange(job, store0, s);
    BudgetCoversFlight(s.chunks);
  }

  /** The public reading of the per-chunk invariant: the list is a permutation of the ranking, its first part is the
      archives asked in the order asked, its rest is the ranking without them, and no archive was asked twice. */
  lemma AskHistory(job: Job, store0: map<Cid, Bytes>, s: FetchState, i: nat)
    requires job.Valid() && Safe(job, store0, s) && i < |s.chunks|
    ensures var c, asked := s.chunks[i], Archives(Asks(i, s.trace));
            && multiset(c.order) == multiset(job.Ranking(i))
            && c.next <= |c.order|
            && c.order[..c.next] == asked
            && c.order[c.next..] == Without(job.Ranking(i), asked)
            && NoDuplicates(asked)
            && (!s.skipUnresolved ==> asked <= job.Ranking(i))
            && (c.inFlight.Some? ==> c.next > 0 && c.inFlight.value.archive == c.order[c.next - 1])
  {
    assert ChunkOk(job.Ranking(i), i, job.chunks[i].cid in store0, s.chunks[i], s.trace, s.skipUnresolved);
    ChunkHistory(job.Ranking(i), s.chunks[i], Asks(i, s.trace), s.skipUnresolved);
  }

  lemma ChunkHistory(ranking: seq<Address>, c: ChunkState, asks: seq<Request>, skip: bool)
    requires NoDuplicates(ranking) && OrderOk(ranking, Archives(asks), c.order, skip) && c.next == |asks|
    requires c.inFlight.Some? ==> asks != [] && c.inFlight.value == asks[|asks| - 1]
    ensures var asked := Archives(asks);
            && multiset(c.order) == multiset(ranking)
            && c.next <= |c.order|
            && c.order[..c.next] == asked
            && c.order[c.next..] == Without(ranking, asked)
            && NoDuplicates(asked)
            && (c.inFlight.Some? ==> c.next > 0 && c.inFlight.value.archive == c.order[c.next - 1])
  {
    PickedOnce(ranking, Archives(asks));
    PickedPartition(ranking, Archives(asks));
  }

  lemma PickedPartition(ranking: seq<Address>, asked: seq<Address>)
    requires NoDuplicates(ranking) && NoDuplicates(asked)
    requires forall a | a in asked :: a in ranking
    ensures multiset(asked + Without(ranking, asked)) == multiset(ranking)
  {
    var rest := Without(ranking, asked);
    WithoutKeepsDistinct(ranking, asked);
    assert multiset(asked + rest) == multiset(asked) + multiset(rest);
    forall a ensures multiset(asked + rest)[a] == multiset(ranking)[a] {
      DistinctMultiplicity(asked, a);
      DistinctMultiplicity(rest, a);
      DistinctMultiplicity(ranking, a);
    }
  }

  // ── The two obstacles ──

  /** Answers for chunk `i`'s CID are credited to chunk `i`. */
  ghost predicate OwnsCid(job: Job, i: nat)
    requires i < |job.chunks|
  {
    CidToIndex(job.chunks)[job.chunks[i].cid] == i
  }

  /** In terms of content: a chunk owns its CID exactly when no later chunk has the same bytes' hash. */
  lemma OwnsCidIffLastOfItsHash(job: Job, i: nat)
    requires job.Valid() && job.FaithfulCids() && i < |job.chunks|
    ensures OwnsCid(job, i) <==> forall j :: i < j < |job.chunks| ==> job.chunks[j].hash != job.chunks[i].hash
  {
    var owner := CidToIndex(job.chunks)[job.chunks[i].cid];
    assert job.chunks[owner].cid == job.chunks[i].cid && i <= owner;
    if owner == i {
      forall j | i < j < |job.chunks| ensures job.chunks[j].hash != job.chunks[i].hash {
        assert j <= CidToIndex(job.chunks)[job.chunks[j].cid];
      }
    } else {
      assert job.chunks[owner].hash == job.chunks[i].hash;
    }
  }

  /** A missing chunk that no event can finish. */
  ghost predicate Doomed(job: Job, s: FetchState, i: nat) {
    && i < |s.chunks| == |job.chunks|
    && !s.chunks[i].done
    && (OwnsCid(job, i) ==> s.chunks[i].order == [] && s.chunks[i].inFlight.None?)
  }

  lemma DispatchKeepsDoomed(job: Job, s: FetchState, i: nat, input: Input)
    requires Doomed(job, s, i)
    ensures Doomed(job, TryDispatch(job, s, input).state, i)
  {
    var ids := input.addrToPeer.Keys;
    var inv := (t: FetchState) => Doomed(job, t, i);
    forall t: FetchState, d | inv(t) && CanSend(t.chunks, d, ids, t.skipUnresolved) ensures inv(Ask(t, d)) {
    }
    SelectedAreSendable(s.chunks, input.addrToPeer, job.Cap(), s.skipUnresolved);
    var ds := SelectDispatches(s.chunks, input.addrToPeer, job.Cap(), s.skipUnresolved);
    SendAllKeeps(inv, s, ds, input.sendFailsAt, ids);
  }

  lemma SettlingKeepsDoomed(job: Job, s: FetchState, i: nat, k: nat, data: Bytes)
    requires Doomed(job, s, i)
    requires k < |s.chunks| && s.chunks[k].inFlight.Some? && OwnsCid(job, k)
    ensures Doomed(job, Release(s, k), i) && Doomed(job, Finish(job, s, k, data), i)
  {
  }

  lemma SettledOwnsCid(job: Job, s: FetchState, peer: PeerId, cid: Cid)
    requires |s.chunks| == |job.chunks| && Settles(job, s, peer, cid).Some?
    ensures OwnsCid(job, Settles(job, s, peer, cid).value)
  {
  }

  lemma MoveOnKeepsDoomed(job: Job, s: FetchState, i: nat, k: nat, input: Input)
    requires Doomed(job, s, i) && k < |s.chunks|
    ensures Doomed(job, MoveOn(job, s, k, input).state, i)
  {
    DispatchKeepsDoomed(job, s, i, input);
  }

  lemma RejectKeepsDoomed(job: Job, s: FetchState, i: nat, k: nat, input: Input)
    requires Doomed(job, s, i)
    requires k < |s.chunks| && s.chunks[k].inFlight.Some? && OwnsCid(job, k)
    ensures Doomed(job, Reject(job, s, k, input).state, i)
  {
    SettlingKeepsDoomed(job, s, i, k, []);
    MoveOnKeepsDoomed(job, Release(s, k), i, k, input);
  }

  lemma AnswerKeepsDoomed(job: Job, s: FetchState, i: nat, input: Input)
    requires Doomed(job, s, i) && input.event.ChunkData?
    ensures Doomed(job, Step(job, s, input).state, i)
  {
    var settled := Settles(job, s, input.event.peer, input.event.cid);
    if settled.Some? && !s.chunks[settled.value].done {
      SettledOwnsCid(job, s, input.event.peer, input.event.cid);
      if GoodAnswer(job, job.chunks[settled.value], input.event) {
        SettlingKeepsDoomed(job, s, i, settled.value, input.event.data);
        DispatchKeepsDoomed(job, Finish(job, s, settled.value, input.event.data), i, input);
      } else {
        RejectKeepsDoomed(job, s, i, settled.value, input);
      }
    }
  }

  lemma StepKeepsDoomed(job: Job, s: FetchState, i: nat, input: Input)
    requires Doomed(job, s, i)
    ensures Doomed(job, Step(job, s, input).state, i)
  {
    match input.event
    case ChunkData(_, _, _, _, _, _) => AnswerKeepsDoomed(job, s, i, input);
    case RequestFailed(peer, requested) =>
      if requested.Some? && Settles(job, s, peer, requested.value).Some? {
        SettledOwnsCid(job, s, peer, requested.value);
        RejectKeepsDoomed(job, s, i, Settles(job, s, peer, requested.value).value, input);
      }
    case PeerIdentified(_, _) => DispatchKeepsDoomed(job, s.(peers := PeersAfter(s.peers, input.event)), i, input);
    case PeerDisconnected(_) => DispatchKeepsDoomed(job, s.(peers := PeersAfter(s.peers, input.event)), i, input);
    case GraceElapsed => DispatchKeepsDoomed(job, s.(skipUnresolved := true), i, input);
    case _ =>
  }

  /** No run finishes a doomed chunk, whatever the network does. */
  lemma {:induction false} DoomedNeverCompletes(job: Job, s: FetchState, i: nat, inputs: seq<Input>)
    requires Doomed(job, s, i)
    ensures var r := Run(job, s, inputs);
            Doomed(job, r.state, i) && !r.outcome.Completed?
    decreases |inputs|
  {
    if inputs != [] {
      StepKeepsDoomed(job, s, i, inputs[0]);
      var r := Step(job, s, inputs[0]);
      if r.verdict.Running? {
        DoomedNeverCompletes(job, r.state, i, inputs[1..]);
      }
    }
  }

  // ── Without them, a way to finish stays open ──

  /** The manifest commits to bytes that exist. */
  ghost predicate Deliverable(job: Job) {
    forall i :: 0 <= i < |job.chunks| ==>
      exists data: Bytes :: |data| == job.chunks[i].size && job.hashOf(data) == job.chunks[i].hash
  }

  /** Every chunk still missing owns its CID and has an archive. */
  ghost predicate Unobstructed(job: Job, s: FetchState)
    requires |s.chunks| == |job.chunks|
  {
    forall i :: 0 <= i < |s.chunks| && !s.chunks[i].done ==> OwnsCid(job, i) && job.Ranking(i) != []
  }

  /** A turn whose sends all succeed goes on waiting, and finishes or unfinishes nothing by dispatching. */
  lemma SmoothDispatch(job: Job, s: FetchState, input: Input)
    requires input.sendFailsAt.None?
    ensures var r := TryDispatch(job, s, input);
            && r.verdict.Running?
            && |r.state.chunks| == |s.chunks|
            && r.state.fetched == s.fetched && r.state.skipped == s.skipped
            && forall i :: 0 <= i < |s.chunks| ==> r.state.chunks[i].done == s.chunks[i].done
  {
    var ids := input.addrToPeer.Keys;
    var ds := SelectDispatches(s.chunks, input.addrToPeer, job.Cap(), s.skipUnresolved);
    SelectedAreSendable(s.chunks, input.addrToPeer, job.Cap(), s.skipUnresolved);
    var inv := (t: FetchState) =>
        && |t.chunks| == |s.chunks|
        && t.fetched == s.fetched && t.skipped == s.skipped
        && forall i :: 0 <= i < |s.chunks| ==> t.chunks[i].done == s.chunks[i].done;
    forall t: FetchState, d | inv(t) && CanSend(t.chunks, d, ids, t.skipUnresolved) ensures inv(Ask(t, d)) {
    }
    SendAllKeeps(inv, s, ds, None, ids);
    SmoothSends(s, ds, ids);
  }

  lemma {:induction false} SmoothSends(s: FetchState, ds: seq<Dispatch>, identified: set<Address>)
    requires Sendable(s.chunks, ds, identified, s.skipUnresolved)
    ensures SendAll(s, ds, None, identified).verdict.Running?
    decreases |ds|
  {
    if ds != [] {
      RestIsSendable(s, ds, identified);
      SmoothSends(Ask(s, ds[0]), ds[1..], identified);
    }
  }

  /** A waiting state with nothing in the way. */
  ghost predicate OnTrack(job: Job, store0: map<Cid, Bytes>, s: FetchState) {
    Safe(job, store0, s) && LoopHead(job, s) && Unobstructed(job, s)
  }

  /** A turn that goes on waiting, with nothing put in the way. */
  lemma StaysOnTrack(job: Job, store0: map<Cid, Bytes>, s: FetchState, s': FetchState)
    requires |s.chunks| == |job.chunks| && Unobstructed(job, s)
    requires TurnOk(job, store0, StepResult(s', Running))
    requires forall i :: 0 <= i < |s.chunks| && s.chunks[i].done ==> s'.chunks[i].done
    ensures OnTrack(job, store0, s')
  {
  }

  ghost predicate IsGoodInput(job: Job, s: FetchState, i: nat, input: Input)
    requires i < |s.chunks| == |job.chunks| && s.chunks[i].inFlight.Some?
  {
    && Inverts(input.addrToPeer, s.peers)
    && input.sendFailsAt.None?
    && input.storeAccepts
    && input.event.ChunkData?
    && input.event.peer == s.chunks[i].inFlight.value.peer
    && input.event.cid == job.chunks[i].cid
    && GoodAnswer(job, job.chunks[i], input.event)
  }

  /** The good answer to what chunk `i` is waiting for. */
  lemma GoodInputExists(job: Job, s: FetchState, i: nat) returns (input: Input)
    requires Deliverable(job)
    requires i < |s.chunks| == |job.chunks| && s.chunks[i].inFlight.Some?
    ensures IsGoodInput(job, s, i, input)
  {
    var cd := job.chunks[i];
    var data: Bytes :| |data| == cd.size && job.hashOf(data) == cd.hash;
    var m := InverseExists(s.peers);
    input := Input(ChunkData(s.chunks[i].inFlight.value.peer, cd.cid, 0, cd.size, data, false), m, None, true);
  }

  /** What the step does with it. */
  lemma GoodInputFinishes(job: Job, s: FetchState, i: nat, input: Input)
    requires i < |s.chunks| == |job.chunks| && s.chunks[i].inFlight.Some? && !s.chunks[i].done
    requires OwnsCid(job, i) && IsGoodInput(job, s, i, input)
    ensures var r := Step(job, s, input);
            && r.verdict.Running?
            && |r.state.chunks| == |s.chunks|
            && r.state.fetched == s.fetched + 1 && r.state.skipped == s.skipped
            && forall k :: 0 <= k < |s.chunks| && s.chunks[k].done ==> r.state.chunks[k].done
  {
    assert Settles(job, s, input.event.peer, input.event.cid) == Some(i);
    SmoothDispatch(job, Finish(job, s, i, input.event.data), input);
  }

  /** From a loop head with something in flight, one good answer finishes one more chunk. */
  lemma GoodAnswerStep(job: Job, store0: map<Cid, Bytes>, s: FetchState, i: nat, input: Input)
    requires job.Valid() && OnTrack(job, store0, s)
    requires i < |s.chunks| && s.chunks[i].inFlight.Some? && IsGoodInput(job, s, i, input)
    ensures Step(job, s, input).verdict.Running?
    ensures OnTrack(job, store0, Step(job, s, input).state)
    ensures Step(job, s, input).state.fetched == s.fetched + 1 && Step(job, s, input).state.skipped == s.skipped
  {
    InFlightIsNotDone(job, store0, s, i);
    GoodInputFinishes(job, s, i, input);
    StepOk(job, store0, s, input);
    StaysOnTrack(job, store0, s, Step(job, s, input).state);
  }

  /** After the archive next in line for a pending chunk is identified, the dispatch puts something in flight. */
  lemma IdentifiedIsAsked(job: Job, s: FetchState, input: Input, i: nat)
    requires Inverts(input.addrToPeer, s.peers) && input.sendFailsAt.None?
    requires InFlightCount(s.chunks) == 0
    requires i < |s.chunks| && !s.chunks[i].done && s.chunks[i].next < |s.chunks[i].order|
    requires s.chunks[i].order[s.chunks[i].next] in s.peers.Values
    ensures InFlightCount(TryDispatch(job, s, input).state.chunks) > 0
  {
    SmoothDispatch(job, s, input);
    var r := TryDispatch(job, s, input);
    TryDispatchSaturates(job, s, input);
    DispatchLeavesOrAsks(job, s, input, i);
    SomethingInFlight(s.chunks);
    SomethingInFlight(r.state.chunks);
    if r.state.chunks[i] == s.chunks[i] {
      assert MayAsk(s.chunks[i].order, s.chunks[i].next, s.peers.Values, s.skipUnresolved, s.chunks[i].next);
      assert Askable(r.state.chunks[i], r.state.peers.Values, r.state.skipUnresolved);
    }
  }

  lemma IdentifyProgresses(job: Job, s: FetchState, i: nat, input: Input)
    requires |s.chunks| == |job.chunks| && InFlightCount(s.chunks) == 0
    requires i < |s.chunks| && !s.chunks[i].done && s.chunks[i].next < |s.chunks[i].order|
    requires ValidInput(s, input) && input.sendFailsAt.None?
    requires input.event.PeerIdentified? && input.event.address == s.chunks[i].order[s.chunks[i].next]
    ensures var r := Step(job, s, input);
            && r.verdict.Running?
            && |r.state.chunks| == |s.chunks|
            && r.state.fetched == s.fetched && r.state.skipped == s.skipped
            && InFlightCount(r.state.chunks) > 0
            && forall k :: 0 <= k < |s.chunks| && s.chunks[k].done ==> r.state.chunks[k].done
  {
    var s1 := s.(peers := PeersAfter(s.peers, input.event));
    SmoothDispatch(job, s1, input);
    assert s1.peers[input.event.peer] == input.event.address;
    IdentifiedIsAsked(job, s1, input, i);
  }

  /** A loop head with nothing in flight and chunks missing: some archive is next in line. */
  lemma SomeoneIsNextInLine(job: Job, s: FetchState) returns (i: nat)
    requires |s.chunks| == |job.chunks| && NoneLost(job, s) && Unobstructed(job, s)
    requires !s.AllDone() && InFlightCount(s.chunks) == 0
    ensures i < |s.chunks| && !s.chunks[i].done && s.chunks[i].next < |s.chunks[i].order|
  {
    i :| 0 <= i < |s.chunks| && !s.chunks[i].done;
    SomethingInFlight(s.chunks);
  }

  /** From a loop head with nothing in flight, identifying the archive next in line gets a chunk in flight. */
  lemma IdentifyStep(job: Job, store0: map<Cid, Bytes>, s: FetchState, i: nat, input: Input)
    requires job.Valid() && OnTrack(job, store0, s) && InFlightCount(s.chunks) == 0
    requires i < |s.chunks| && !s.chunks[i].done && s.chunks[i].next < |s.chunks[i].order|
    requires ValidInput(s, input) && input.sendFailsAt.None?
    requires input.event.PeerIdentified? && input.event.address == s.chunks[i].order[s.chunks[i].next]
    ensures Step(job, s, input).verdict.Running?
    ensures OnTrack(job, store0, Step(job, s, input).state)
    ensures Step(job, s, input).state.fetched == s.fetched && Step(job, s, input).state.skipped == s.skipped
    ensures InFlightCount(Step(job, s, input).state.chunks) > 0
  {
    IdentifyProgresses(job, s, i, input);
    StepOk(job, store0, s, input);
    StaysOnTrack(job, store0, s, Step(job, s, input).state);
  }

  lemma AnswerInput(job: Job, s: FetchState) returns (i: nat, input: Input)
    requires |s.chunks| == |job.chunks| && Deliverable(job) && InFlightCount(s.chunks) > 0
    ensures i < |s.chunks| && s.chunks[i].inFlight.Some? && IsGoodInput(job, s, i, input)
  {
    SomethingInFlight(s.chunks);
    i :| 0 <= i < |s.chunks| && s.chunks[i].inFlight.Some?;
    input := GoodInputExists(job, s, i);
  }

  lemma IdentifyInput(s: FetchState, a: Address) returns (input: Input)
    ensures ValidInput(s, input) && input.sendFailsAt.None?
    ensures input.event.PeerIdentified? && input.event.address == a
  {
    var m := InverseExists(s.peers[0 := a]);
    input := Input(PeerIdentified(0, a), m, None, true);
  }

  /** A turn that keeps the fetch on track, and finishes `fetched` more chunks. */
  ghost predicate ProgressTurn(job: Job, store0: map<Cid, Bytes>, s: FetchState, input: Input, fetched: nat) {
    && |s.chunks| == |job.chunks|
    && ValidInput(s, input)
    && Step(job, s, input).verdict.Running?
    && OnTrack(job, store0, Step(job, s, input).state)
    && Step(job, s, input).state.skipped == s.skipped
    && Step(job, s, input).state.fetched == s.fetched + fetched
  }

  lemma ProgressInFlight(job: Job, store0: map<Cid, Bytes>, s: FetchState) returns (input: Input)
    requires job.Valid() && OnTrack(job, store0, s) && Deliverable(job)
    requires InFlightCount(s.chunks) > 0
    ensures ProgressTurn(job, store0, s, input, 1)
  {
    var i;
    i, input := AnswerInput(job, s);
    GoodAnswerStep(job, store0, s, i, input);
  }

  lemma ProgressIdle(job: Job, store0: map<Cid, Bytes>, s: FetchState) returns (input: Input)
    requires job.Valid() && OnTrack(job, store0, s) && !s.AllDone()
    requires InFlightCount(s.chunks) == 0
    ensures ProgressTurn(job, store0, s, input, 0)
    ensures InFlightCount(Step(job, s, input).state.chunks) > 0
  {
    var i := SomeoneIsNextInLine(job, s);
    input := IdentifyInput(s, s.chunks[i].order[s.chunks[i].next]);
    IdentifyStep(job, store0, s, i, input);
  }

  lemma DispatchLeavesOrAsks(job: Job, s: FetchState, input: Input, i: nat)
    requires i < |s.chunks|
    requires TryDispatch(job, s, input).verdict.Running?
    ensures var r := TryDispatch(job, s, input);
            && |r.state.chunks| == |s.chunks|
            && (r.state.chunks[i].inFlight.Some? || r.state.chunks[i] == s.chunks[i])
  {
    var ids := input.addrToPeer.Keys;
    var ds := SelectDispatches(s.chunks, input.addrToPeer, job.Cap(), s.skipUnresolved);
    SelectedAreSendable(s.chunks, input.addrToPeer, job.Cap(), s.skipUnresolved);
    SendAllEffect(s, ds, input.sendFailsAt, ids);
  }

  lemma ExtendRun(job: Job, s: FetchState, input: Input, rest: seq<Input>)
    requires |s.chunks| == |job.chunks| && !s.AllDone()
    requires ValidInput(s, input) && Step(job, s, input).verdict.Running?
    requires |Step(job, s, input).state.chunks| == |job.chunks|
    requires ValidRun(job, Step(job, s, input).state, rest)
    ensures ValidRun(job, s, [input] + rest)
    ensures Run(job, s, [input] + rest) == Run(job, Step(job, s, input).state, rest)
  {
    assert ([input] + rest)[1..] == rest;
  }

  /** A way to finish, constructed. */
  lemma {:induction false} WayToFinish(job: Job, store0: map<Cid, Bytes>, s: FetchState) returns (inputs: seq<Input>)
    requires job.Valid() && OnTrack(job, store0, s) && Deliverable(job)
    ensures ValidRun(job, s, inputs) && Run(job, s, inputs).outcome.Completed?
    decreases |job.chunks| - DoneCount(s.chunks), if InFlightCount(s.chunks) == 0 then 1 else 0
  {
    if s.AllDone() {
      inputs := [];
      return;
    }
    DoneCountBound(s.chunks);
    var input;
    if InFlightCount(s.chunks) > 0 {
      input := ProgressInFlight(job, store0, s);
    } else {
      input := ProgressIdle(job, store0, s);
    }
    var s' := Step(job, s, input).state;
    DoneCountBound(s'.chunks);
    var rest := WayToFinish(job, store0, s');
    inputs := [input] + rest;
    ExtendRun(job, s, input, rest);
  }

  lemma {:induction false} DoneCountBound(chunks: seq<ChunkState>)
    ensures DoneCount(chunks) <= |chunks|
  {
    if chunks != [] {
      DoneCountBound(chunks[..|chunks| - 1]);
    }
  }

  lemma ObstructedIsDoomed(job: Job, store0: map<Cid, Bytes>, s: FetchState, i: nat)
    requires ChunksOk(job, store0, s)
    requires i < |s.chunks| && !s.chunks[i].done && !(OwnsCid(job, i) && job.Ranking(i) != [])
    ensures Doomed(job, s, i)
  {
    if job.Ranking(i) == [] {
      assert ChunkOk(job.Ranking(i), i, job.chunks[i].cid in store0, s.chunks[i], s.trace, s.skipUnresolved);
      PickedOnce(job.Ranking(i), Archives(Asks(i, s.trace)));
      NothingToPick(Asks(i, s.trace));
    }
  }

  /** The exact condition: from any state a fetch can wait in, some continuation finishes it if and only if every chunk
      still missing is the last one with its bytes and has an assigned archive. */
  lemma CanFinishIff(job: Job, store0: map<Cid, Bytes>, s: FetchState)
    requires job.Valid() && Safe(job, store0, s) && LoopHead(job, s) && Deliverable(job)
    ensures (exists inputs :: ValidRun(job, s, inputs) && Run(job, s, inputs).outcome.Completed?)
            <==> Unobstructed(job, s)
  {
    if Unobstructed(job, s) {
      var inputs := WayToFinish(job, store0, s);
    } else {
      var i :| 0 <= i < |s.chunks| && !s.chunks[i].done && !(OwnsCid(job, i) && job.Ranking(i) != []);
      ObstructedIsDoomed(job, store0, s, i);
      forall inputs | ValidRun(job, s, inputs) ensures !Run(job, s, inputs).outcome.Completed? {
        DoomedNeverCompletes(job, s, i, inputs);
      }
    }
  }

  lemma NothingToPick(asks: seq<Request>)
    requires Picked([], Archives(asks))
    ensures asks == []
  {
    assert |Archives(asks)| == |asks|;
  }

  /** No missing chunk is repeated later in the manifest, and each has an assigned archive. */
  ghost predicate Fetchable(job: Job, store: map<Cid, Bytes>) {
    forall i :: 0 <= i < |job.chunks| && job.chunks[i].cid !in store ==>
                  && job.Ranking(i) != []
                  && forall j :: i < j < |job.chunks| ==> job.chunks[j].hash != job.chunks[i].hash
  }

  lemma FetchableCanComplete(job: Job, store: map<Cid, Bytes>) returns (first: Input, inputs: seq<Input>)
    requires job.Valid() && job.FaithfulCids() && ContentAddressed(job, store) && Deliverable(job)
             && Fetchable(job, store)
    ensures ValidFetch(job, map[], store, first, inputs)
    ensures Fetch(job, map[], store, first, inputs).outcome.Completed?
  {
    first := Input(Unrelated, map[], None, true);
    var s0 := InitialState(job, map[], store);
    forall i | 0 <= i < |s0.chunks| && !s0.chunks[i].done ensures OwnsCid(job, i) && job.Ranking(i) != [] {
      OwnsCidIffLastOfItsHash(job, i);
    }
    InitialStateIsSafe(job, map[], store);
    DispatchOk(job, store, s0, first);
    SmoothDispatch(job, s0, first);
    var s := TryDispatch(job, s0, first).state;
    StaysOnTrack(job, store, s0, s);
    inputs := WayToFinish(job, store, s);
  }

  lemma DoomedFetchNeverCompletes(job: Job, store: map<Cid, Bytes>, peers: map<PeerId, Address>, first: Input,
                                  inputs: seq<Input>, i: nat)
    requires Doomed(job, InitialState(job, peers, store), i)
    ensures !Fetch(job, peers, store, first, inputs).outcome.Completed?
  {
    var s0 := InitialState(job, peers, store);
    DispatchKeepsDoomed(job, s0, i, first);
    var r := TryDispatch(job, s0, first);
    if r.verdict.Running? {
      DoomedNeverCompletes(job, r.state, i, inputs);
    }
  }

  lemma UnfetchableNeverCompletes(job: Job, store: map<Cid, Bytes>, peers: map<PeerId, Address>, first: Input,
                                  inputs: seq<Input>)
    requires job.Valid() && job.FaithfulCids() && !Fetchable(job, store)
    ensures !Fetch(job, peers, store, first, inputs).outcome.Completed?
  {
    var i := SomeObstacle(job, store);
    DoomedFetchNeverCompletes(job, store, peers, first, inputs, i);
  }

  lemma SomeObstacle(job: Job, store: map<Cid, Bytes>) returns (i: nat)
    requires job.Valid() && job.FaithfulCids() && !Fetchable(job, store)
    ensures i < |job.chunks| && job.chunks[i].cid !in store && !(OwnsCid(job, i) && job.Ranking(i) != [])
  {
    i :| && 0 <= i < |job.chunks| && job.chunks[i].cid !in store
         && !(job.Ranking(i) != [] && forall j :: i < j < |job.chunks| ==> job.chunks[j].hash != job.chunks[i].hash);
    OwnsCidIffLastOfItsHash(job, i);
  }

  /** The same for a whole fetch, in terms of what its caller holds. */
  lemma FetchCanCompleteIff(job: Job, store: map<Cid, Bytes>)
    requires job.Valid() && job.FaithfulCids() && ContentAddressed(job, store) && Deliverable(job)
    ensures (exists peers, first, inputs ::
               && ValidFetch(job, peers, store, first, inputs)
               && Fetch(job, peers, store, first, inputs).outcome.Completed?)
            <==> Fetchable(job, store)
  {
    if Fetchable(job, store) {
      var first, inputs := FetchableCanComplete(job, store);
    } else {
      forall peers, first, inputs | ValidFetch(job, peers, store, first, inputs)
        ensures !Fetch(job, peers, store, first, inputs).outcome.Completed?
      {
        UnfetchableNeverCompletes(job, store, peers, first, inputs);
      }
    }
  }

  /** The obstacle is real: a valid, deliverable two-chunk file whose chunks are the same byte, each with an archive. */
  lemma RepeatedChunkExample() returns (job: Job)
    ensures job.Valid() && job.FaithfulCids() && Deliverable(job) && |job.chunks| == 2
    ensures forall i :: 0 <= i < 2 ==> job.Ranking(i) != []
    ensures forall peers, first, inputs :: !Fetch(job, peers, map[], first, inputs).outcome.Completed?
  {
    var cd := ChunkDescriptor(1, [7], [7]);
    job := Job([cd, cd], map[0 := [5], 1 := [5]], 4, (b: Bytes) => b, (d: Digest) => d);
    assert |[7 as bv8]| == 1 && job.hashOf([7]) == [7];
    assert job.chunks[1].hash == job.chunks[0].hash;
    forall peers, first, inputs ensures !Fetch(job, peers, map[], first, inputs).outcome.Completed? {
      UnfetchableNeverCompletes(job, map[], peers, first, inputs);
    }
  }

  /** The loop never waits in silence on chunks whose archives are all identified: something is in flight. */
  lemma NoSilentStall(job: Job, store0: map<Cid, Bytes>, s: FetchState, i: nat)
    requires job.Valid() && Safe(job, store0, s) && LoopHead(job, s)
    requires i < |s.chunks| && !s.chunks[i].done && job.Ranking(i) != []
    requires forall a | a in job.Ranking(i) :: a in s.peers.Values
    ensures InFlightCount(s.chunks) > 0
  {
    SomethingInFlight(s.chunks);
    if InFlightCount(s.chunks) == 0 {
      var c := s.chunks[i];
      AskHistory(job, store0, s, i);
      assert c.order[c.next] in multiset(c.order);
      assert MayAsk(c.order, c.next, s.peers.Values, s.skipUnresolved, c.next);
      assert false;
    }
  }

  // ── What never arrives ──

  /** An answer for chunk `i` from the peer its request is out to. */
  predicate Answers(job: Job, i: nat, peer: PeerId, e: Event)
    requires i < |job.chunks|
  {
    e.ChunkData? && e.peer == peer && e.cid == job.chunks[i].cid
  }

  /** Or the report that the request failed. */
  predicate Ends(job: Job, i: nat, peer: PeerId, e: Event)
    requires i < |job.chunks|
  {
    Answers(job, i, peer, e) || (e.RequestFailed? && e.peer == peer && e.requestedCid == Some(job.chunks[i].cid))
  }

  lemma DispatchLeavesWaiting(job: Job, s: FetchState, input: Input, i: nat)
    requires i < |s.chunks| && s.chunks[i].inFlight.Some?
    ensures var s' := TryDispatch(job, s, input).state;
            |s'.chunks| == |s.chunks| && s'.chunks[i] == s.chunks[i]
  {
    var ids := input.addrToPeer.Keys;
    var ds := SelectDispatches(s.chunks, input.addrToPeer, job.Cap(), s.skipUnresolved);
    SelectedAreSendable(s.chunks, input.addrToPeer, job.Cap(), s.skipUnresolved);
    var inv := (t: FetchState) => |t.chunks| == |s.chunks| && t.chunks[i] == s.chunks[i];
    forall t: FetchState, d | inv(t) && CanSend(t.chunks, d, ids, t.skipUnresolved) ensures inv(Ask(t, d)) {
    }
    SendAllKeeps(inv, s, ds, input.sendFailsAt, ids);
  }

  lemma RejectLeavesWaiting(job: Job, s: FetchState, input: Input, k: nat, i: nat)
    requires i < |s.chunks| && s.chunks[i].inFlight.Some?
    requires k < |s.chunks| && k != i && s.chunks[k].inFlight.Some?
    ensures var s' := Reject(job, s, k, input).state;
            |s'.chunks| == |s.chunks| && s'.chunks[i] == s.chunks[i]
  {
    DispatchLeavesWaiting(job, Release(s, k), input, i);
  }

  lemma UnheardAnswer(job: Job, s: FetchState, input: Input, i: nat)
    requires |s.chunks| == |job.chunks| && i < |s.chunks| && s.chunks[i].inFlight.Some? && input.event.ChunkData?
    requires !Answers(job, i, s.chunks[i].inFlight.value.peer, input.event)
    ensures var s' := Step(job, s, input).state;
            |s'.chunks| == |s.chunks| && s'.chunks[i] == s.chunks[i]
  {
    var settled := Settles(job, s, input.event.peer, input.event.cid);
    if settled.Some? && GoodAnswer(job, job.chunks[settled.value], input.event) {
      DispatchLeavesWaiting(job, Finish(job, s, settled.value, input.event.data), input, i);
    } else if settled.Some? {
      RejectLeavesWaiting(job, s, input, settled.value, i);
    }
  }

  lemma UnheardFailure(job: Job, s: FetchState, input: Input, i: nat)
    requires |s.chunks| == |job.chunks| && i < |s.chunks| && s.chunks[i].inFlight.Some? && input.event.RequestFailed?
    requires !Ends(job, i, s.chunks[i].inFlight.value.peer, input.event)
    ensures var s' := Step(job, s, input).state;
            |s'.chunks| == |s.chunks| && s'.chunks[i] == s.chunks[i]
  {
    if input.event.requestedCid.Some? {
      var settled := Settles(job, s, input.event.peer, input.event.requestedCid.value);
      if settled.Some? {
        RejectLeavesWaiting(job, s, input, settled.value, i);
      }
    }
  }

  lemma UnheardStep(job: Job, s: FetchState, input: Input, i: nat)
    requires |s.chunks| == |job.chunks| && i < |s.chunks| && s.chunks[i].inFlight.Some?
    requires !Ends(job, i, s.chunks[i].inFlight.value.peer, input.event)
    ensures var s' := Step(job, s, input).state;
            |s'.chunks| == |s.chunks| && s'.chunks[i] == s.chunks[i]
  {
    match input.event
    case ChunkData(_, _, _, _, _, _) => UnheardAnswer(job, s, input, i);
    case RequestFailed(_, _) => UnheardFailure(job, s, input, i);
    case GraceElapsed => DispatchLeavesWaiting(job, s.(skipUnresolved := true), input, i);
    case _ => DispatchLeavesWaiting(job, s.(peers := PeersAfter(s.peers, input.event)), input, i);
  }

  /** A request of which neither an answer nor a failure arrives keeps its chunk, and its place, to the end. */
  lemma {:induction false} UnheardRequestNeverCompletes(job: Job, s: FetchState, inputs: seq<Input>, i: nat)
    requires |s.chunks| == |job.chunks| && i < |s.chunks| && s.chunks[i].inFlight.Some? && !s.chunks[i].done
    requires forall k | 0 <= k < |inputs| :: !Ends(job, i, s.chunks[i].inFlight.value.peer, inputs[k].event)
    ensures !Run(job, s, inputs).outcome.Completed?
    ensures var s' := Run(job, s, inputs).state; |s'.chunks| == |s.chunks| && s'.chunks[i] == s.chunks[i]
    decreases |inputs|
  {
    if inputs != [] {
      UnheardStep(job, s, inputs[0], i);
      if Step(job, s, inputs[0]).verdict.Running? {
        UnheardRequestNeverCompletes(job, Step(job, s, inputs[0]).state, inputs[1..], i);
      }
    }
  }
}
