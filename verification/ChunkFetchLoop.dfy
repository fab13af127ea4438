/**
 The chunk phase as the downloader runs it: local tables updated event by event, proved to compute `ChunkFetch`.
 */
module ChunkFetchLoop {
  import opened Wrappers
  import opened Identity
  import opened Routing
  import opened ChunkFetch
  import opened ChunkFetchSafety
  import Spec = ChunkFetch

  /** What one turn of the selection loop moves from the part still to be walked to the part selected. */
  lemma SelectionStep(chunks: seq<ChunkState>, i: nat, addrToPeer: map<Address, PeerId>, skip: bool, room: int,
                      out: seq<Dispatch>)
    requires i < |chunks| && room > 0
    ensures var due, rest := DueDispatch(chunks, i, addrToPeer, skip), DueFrom(chunks, i + 1, addrToPeer, skip);
            out + Take(DueFrom(chunks, i, addrToPeer, skip), room)
            == if due.Some? then out + [due.value] + Take(rest, room - 1) else out + Take(rest, room)
  {
    var due, rest := DueDispatch(chunks, i, addrToPeer, skip), DueFrom(chunks, i + 1, addrToPeer, skip);
    if due.Some? {
      assert Take([due.value] + rest, room) == [due.value] + Take(rest, room - 1);
      assert out + ([due.value] + Take(rest, room - 1)) == out + [due.value] + Take(rest, room - 1);
    }
  }

  /** The walk may stop at the end of the list and wherever the cap has no room. */
  lemma SelectionEnds(chunks: seq<ChunkState>, i: nat, addrToPeer: map<Address, PeerId>, skip: bool, room: int,
                      out: seq<Dispatch>)
    requires i <= |chunks| && (i == |chunks| || room <= 0)
    ensures out + Take(DueFrom(chunks, i, addrToPeer, skip), room) == out
  {
    assert Take(DueFrom(chunks, i, addrToPeer, skip), room) == [];
  }

  /** Walk the chunks in manifest order until there is no room left. */
  method SelectDue(chunks: seq<ChunkState>, addrToPeer: map<Address, PeerId>, skip: bool, free: int)
    returns (out: seq<Dispatch>)
    ensures out == Take(DueFrom(chunks, 0, addrToPeer, skip), free)
  {
    ghost var goal := Take(DueFrom(chunks, 0, addrToPeer, skip), free);
    var room := free;
    out := [];
    assert [] + goal == goal;
    var i: nat := 0;
    while i < |chunks| && room > 0
      invariant i <= |chunks|
      invariant goal == out + Take(DueFrom(chunks, i, addrToPeer, skip), room)
    {
      SelectionStep(chunks, i, addrToPeer, skip, room, out);
      var due := DueDispatch(chunks, i, addrToPeer, skip);
      if due.Some? {
        out := out + [due.value];
        room := room - 1;
      }
      i := i + 1;
    }
    SelectionEnds(chunks, i, addrToPeer, skip, room, out);
  }

  /** The requests to send now, as many as the cap has room for. */
  method SelectPublicChunkDispatches(chunks: seq<ChunkState>, addrToPeer: map<Address, PeerId>, cap: nat, skip: bool)
    returns (out: seq<Dispatch>)
    ensures out == SelectDispatches(chunks, addrToPeer, cap, skip)
  {
    var inFlight := InFlightCount(chunks);
    out := SelectDue(chunks, addrToPeer, skip, cap - inFlight);
  }

  class PublicChunkFetch {
    const job: Job
    var state: seq<ChunkState>
    var peerAddresses: map<PeerId, Address>
    var skipUnresolved: bool
    var store: map<Cid, Bytes>
    var chunksFetched: nat
    var chunksSkipped: nat
    var attribution: map<PeerId, nat>
    var trace: seq<Output>

    function View(): FetchState
      reads this
    {
      FetchState(state, peerAddresses, skipUnresolved, store, chunksFetched, chunksSkipped, attribution, trace)
    }

    /** Chunks already on disk are done before anything is asked. */
    constructor (job: Job, peers: map<PeerId, Address>, store: map<Cid, Bytes>)
      ensures this.job == job && View() == InitialState(job, peers, store)
    {
      this.job := job;
      this.peerAddresses, this.store, this.skipUnresolved := peers, store, false;
      this.chunksFetched, this.attribution, this.trace := 0, map[], [];
      var chunks, skipped, i := [], 0, 0;
      while i < |job.chunks|
        invariant 0 <= i <= |job.chunks|
        invariant chunks == seq(i, k requires 0 <= k < |job.chunks| => InitialChunk(job, store, k))
        invariant skipped == Present(job.chunks[..i], store)
      {
        var alreadyHave := job.chunks[i].cid in store;
        assert job.chunks[..i + 1][..i] == job.chunks[..i];
        if alreadyHave {
          skipped := skipped + 1;
        }
        chunks := chunks + [ChunkState(job.Ranking(i), 0, None, alreadyHave)];
        i := i + 1;
      }
      assert job.chunks[..i] == job.chunks;
      this.state, this.chunksSkipped := chunks, skipped;
    }

    /** Put one request on the wire and mark its chunk. */
    method Send(d: Dispatch, ghost identified: set<Address>)
      requires CanSend(state, d, identified, skipUnresolved)
      modifies this
      ensures View() == Ask(old(View()), d)
    {
      var c := state[d.chunk];
      var request := Request(d.peer, c.order[d.pos]);
      state := state[d.chunk := ChunkState(MarkAsked(c.order, c.next, d.pos), c.next + 1, Some(request), c.done)];
      trace := trace + [Pull(d.chunk, request)];
    }

    /** Send what was selected, in order, up to the first send that fails. */
    method TryDispatch(input: Input) returns (verdict: Verdict)
      modifies this
      ensures StepResult(View(), verdict) == Spec.TryDispatch(job, old(View()), input)
    {
      var ds := SelectPublicChunkDispatches(state, input.addrToPeer, job.Cap(), skipUnresolved);
      SelectedAreSendable(state, input.addrToPeer, job.Cap(), skipUnresolved);
      verdict := SendEach(ds, input.sendFailsAt, input.addrToPeer.Keys);
    }

    method SendEach(ds: seq<Dispatch>, sendFailsAt: Option<nat>, ghost ids: set<Address>) returns (verdict: Verdict)
      requires Sendable(state, ds, ids, skipUnresolved)
      modifies this
      ensures StepResult(View(), verdict) == SendAll(old(View()), ds, sendFailsAt, ids)
    {
      ghost var goal := SendAll(View(), ds, sendFailsAt, ids);
      var left, failsAt := ds, sendFailsAt;
      while left != []
        invariant Sendable(state, left, ids, skipUnresolved)
        invariant SendAll(View(), left, failsAt, ids) == goal
        decreases |left|
      {
        if failsAt == Some(0) {
          return Stopped(SendFailed(left[0].chunk));
        }
        RestIsSendable(View(), left, ids);
        Send(left[0], ids);
        failsAt := if failsAt.Some? then Some(failsAt.value - 1) else None;
        left := left[1..];
      }
      verdict := Running;
    }

    /** The archive chunk `i` is in flight to is given up on. */
    method Reject(i: nat, input: Input) returns (verdict: Verdict)
      requires i < |state| && state[i].inFlight.Some?
      modifies this
      ensures StepResult(View(), verdict) == Spec.Reject(job, old(View()), i, input)
    {
      trace := trace + [Rejected(i, state[i].inFlight.value)];
      state := state[i := state[i].(inFlight := None)];
      if state[i].next >= |state[i].order| {
        return Stopped(Exhausted(i, |state[i].order|));
      }
      verdict := TryDispatch(input);
    }

    method OnChunkData(input: Input) returns (verdict: Verdict)
      requires |state| == |job.chunks| && input.event.ChunkData?
      modifies this
      ensures StepResult(View(), verdict) == Step(job, old(View()), input)
    {
      var e := input.event;
      var settled := Settles(job, View(), e.peer, e.cid);
      if settled.None? || state[settled.value].done {
        return Running;
      }
      var i, cd := settled.value, job.chunks[settled.value];
      if !GoodAnswer(job, cd, e) {
        verdict := Reject(i, input);
        return;
      }
      if !input.storeAccepts {
        return Stopped(StoreFailed(e.cid));
      }
      Deliver(i, e.data);
      verdict := TryDispatch(input);
    }

    /** A good answer for chunk `i` is stored, credited to its peer, and ends the chunk. */
    method Deliver(i: nat, data: Bytes)
      requires i < |state| == |job.chunks| && state[i].inFlight.Some?
      modifies this
      ensures View() == Finish(job, old(View()), i, data)
    {
      var cid := job.chunks[i].cid;
      if cid !in store {
        store := store[cid := data];
      }
      trace := trace + [Delivered(i, state[i].inFlight.value)];
      attribution := Increment(attribution, state[i].inFlight.value.peer);
      chunksFetched := chunksFetched + 1;
      state := state[i := state[i].(inFlight := None, done := true)];
    }

    method OnRequestFailed(input: Input) returns (verdict: Verdict)
      requires |state| == |job.chunks| && input.event.RequestFailed?
      modifies this
      ensures StepResult(View(), verdict) == Step(job, old(View()), input)
    {
      var e := input.event;
      if e.requestedCid.None? {
        return Running;
      }
      var settled := Settles(job, View(), e.peer, e.requestedCid.value);
      if settled.None? {
        return Running;
      }
      verdict := Reject(settled.value, input);
    }

    /** One turn of the loop. */
    method OnEvent(input: Input) returns (verdict: Verdict)
      requires |state| == |job.chunks|
      modifies this
      ensures StepResult(View(), verdict) == Step(job, old(View()), input)
    {
      match input.event
      case PeerIdentified(p, a) =>
        peerAddresses := peerAddresses[p := a];
        verdict := TryDispatch(input);
      case PeerDisconnected(p) =>
        peerAddresses := peerAddresses - {p};
        verdict := TryDispatch(input);
      case GraceElapsed =>
        if skipUnresolved {
          return Running;
        }
        skipUnresolved := true;
        verdict := TryDispatch(input);
      case ChunkData(_, _, _, _, _, _) =>
        verdict := OnChunkData(input);
      case RequestFailed(_, _) =>
        verdict := OnRequestFailed(input);
      case DeadlinePassed =>
        verdict := Stopped(TimedOut(TimedOutChunk(state)));
      case NetworkClosed =>
        verdict := Stopped(ShutDown);
      case Unrelated =>
        verdict := Running;
    }

    /** The loop: until every chunk is done, a turn stops it, or there is nothing to hear. */
    method Drive(inputs: seq<Input>) returns (outcome: Outcome)
      requires |state| == |job.chunks|
      modifies this
      ensures RunResult(View(), outcome) == Run(job, old(View()), inputs)
    {
      ghost var goal := Run(job, View(), inputs);
      var k := 0;
      while exists i :: 0 <= i < |state| && !state[i].done
        invariant 0 <= k <= |inputs|
        invariant |state| == |job.chunks|
        invariant Run(job, View(), inputs[k..]) == goal
        decreases |inputs| - k
      {
        if k == |inputs| {
          return Waiting;
        }
        StepKeepsLength(job, View(), inputs[k]);
        assert inputs[k..][0] == inputs[k] && inputs[k..][1..] == inputs[k + 1..];
        var verdict := OnEvent(inputs[k]);
        if verdict.Stopped? {
          return Failed(verdict.error);
        }
        k := k + 1;
      }
      outcome := Completed;
    }
  }

  /** The whole phase, as its caller sees it. */
  method FetchV2PublicChunks(job: Job, peers: map<PeerId, Address>, store: map<Cid, Bytes>, first: Input,
                             inputs: seq<Input>)
    returns (r: RunResult)
    ensures r == Fetch(job, peers, store, first, inputs)
  {
    var fetch := new PublicChunkFetch(job, peers, store);
    DispatchKeepsLength(job, fetch.View(), first);
    var verdict := fetch.TryDispatch(first);
    var outcome;
    if verdict.Stopped? {
      outcome := Failed(verdict.error);
    } else {
      outcome := fetch.Drive(inputs);
    }
    r := RunResult(fetch.View(), outcome);
  }
}
