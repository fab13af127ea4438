/**
 What every reachable state of the chunk phase keeps, proved over whole runs: who was asked, in which order and
 with what outcome; the in-flight cap and work conservation; an exact budget for the messages of a run; and what a
 finished or exhausted fetch has established.
 */
module ChunkFetchSafety {
  import opened Wrappers
  import opened Identity
  import opened Routing
  import opened ChunkFetch

  // ── Reading the trace ──

  /** The requests sent for chunk `i`, in order. */
  function Asks(i: nat, trace: seq<Output>): seq<Request> {
    if trace == [] then []
    else
      var o, rest := trace[|trace| - 1], Asks(i, trace[..|trace| - 1]);
      if o.Pull? && o.chunk == i then rest + [o.request] else rest
  }

  /** Everything the trace says about chunk `i`. */
  function Project(i: nat, trace: seq<Output>): seq<Output> {
    if trace == [] then []
    else
      var o, rest := trace[|trace| - 1], Project(i, trace[..|trace| - 1]);
      if o.chunk == i then rest + [o] else rest
  }

  function Archives(asks: seq<Request>): seq<Address> {
    seq(|asks|, k requires 0 <= k < |asks| => asks[k].archive)
  }

  /** Each of these requests was sent, then rejected, before the next was sent. */
  function AllRejected(i: nat, asks: seq<Request>): seq<Output> {
    if asks == [] then []
    else
      var last := asks[|asks| - 1];
      AllRejected(i, asks[..|asks| - 1]) + [Pull(i, last), Rejected(i, last)]
  }

  /** The only history a chunk with these requests can have: all but the last were rejected in turn, and the last
      is still open, was delivered, or was rejected too. */
  function History(i: nat, asks: seq<Request>, c: ChunkState): seq<Output> {
    if asks == [] then []
    else
      var last := asks[|asks| - 1];
      var open := AllRejected(i, asks[..|asks| - 1]) + [Pull(i, last)];
      if c.inFlight.Some? then open
      else if c.done then open + [Delivered(i, last)]
      else open + [Rejected(i, last)]
  }

  lemma TraceGrows(i: nat, trace: seq<Output>, o: Output)
    ensures Asks(i, trace + [o]) == if o.Pull? && o.chunk == i then Asks(i, trace) + [o.request] else Asks(i, trace)
    ensures Project(i, trace + [o]) == if o.chunk == i then Project(i, trace) + [o] else Project(i, trace)
  {
    assert (trace + [o])[..|trace|] == trace;
  }

  // ── The invariant of one chunk ──

  /** The list is the archives asked, in the order asked, followed by the ranking without them; and while the
      ranking is binding, it has been followed. */
  ghost predicate OrderOk(ranking: seq<Address>, asked: seq<Address>, order: seq<Address>, skip: bool) {
    && order == asked + Without(ranking, asked)
    && Picked(ranking, asked)
    && (!skip ==> asked <= ranking)
  }

  /** The chunk's history is the one its requests allow, and a request in flight is the last one sent. */
  ghost predicate HistoryOk(i: nat, onDisk: bool, c: ChunkState, trace: seq<Output>) {
    var asks := Asks(i, trace);
    && c.next == |asks|
    && (c.inFlight.Some? ==> !c.done && asks != [] && c.inFlight.value == asks[|asks| - 1])
    && (onDisk <==> c.done && asks == [])
    && Project(i, trace) == History(i, asks, c)
  }

  ghost predicate ChunkOk(ranking: seq<Address>, i: nat, onDisk: bool, c: ChunkState, trace: seq<Output>, skip: bool) {
    && OrderOk(ranking, Archives(Asks(i, trace)), c.order, skip)
    && HistoryOk(i, onDisk, c, trace)
  }

  lemma OtherChunkOk(ranking: seq<Address>, i: nat, onDisk: bool, c: ChunkState, trace: seq<Output>, skip: bool,
                     o: Output)
    requires ChunkOk(ranking, i, onDisk, c, trace, skip) && o.chunk != i
    ensures ChunkOk(ranking, i, onDisk, c, trace + [o], skip)
  {
    TraceGrows(i, trace, o);
  }

  /** The archive at `pos` may be asked next: it is the k-th of those left. */
  lemma AskedOrderOk(ranking: seq<Address>, asked: seq<Address>, order: seq<Address>, skip: bool,
                     identified: set<Address>, pos: nat)
    requires NoDuplicates(ranking)
    requires OrderOk(ranking, asked, order, skip)
    requires MayAsk(order, |asked|, identified, skip, pos)
    ensures OrderOk(ranking, asked + [order[pos]], MarkAsked(order, |asked|, pos), skip)
  {
    AskingRefines(ranking, asked, pos - |asked|);
    AskedInOrder(ranking, asked, order[pos], skip);
  }

  lemma AskedInOrder(ranking: seq<Address>, asked: seq<Address>, a: Address, skip: bool)
    requires NoDuplicates(ranking) && Picked(ranking, asked) && (!skip ==> asked <= ranking)
    requires a in Without(ranking, asked) && (!skip ==> a == Without(ranking, asked)[0])
    ensures Picked(ranking, asked + [a]) && (!skip ==> asked + [a] <= ranking)
  {
    PickedOneMore(ranking, asked, a);
    if !skip {
      NextInRanking(ranking, asked);
    }
  }

  lemma PickedOneMore(ranking: seq<Address>, asked: seq<Address>, a: Address)
    requires Picked(ranking, asked) && a in ranking && a !in asked
    ensures Picked(ranking, asked + [a])
  {
    assert (asked + [a])[..|asked|] == asked;
  }

  /** What is left of a ranking after a prefix begins with the next of it. */
  lemma NextInRanking(ranking: seq<Address>, asked: seq<Address>)
    requires NoDuplicates(ranking) && asked <= ranking && Without(ranking, asked) != []
    ensures asked + [Without(ranking, asked)[0]] <= ranking
  {
    assert asked == ranking[..|asked|];
    WithoutPrefix(ranking, |asked|);
    assert asked + [ranking[|asked|]] == ranking[..|asked| + 1];
  }

  lemma ClosedHistory(i: nat, c: ChunkState, trace: seq<Output>)
    requires HistoryOk(i, false, c, trace) && !c.done && c.inFlight.None?
    ensures Project(i, trace) == AllRejected(i, Asks(i, trace))
  {
    var asks := Asks(i, trace);
    if asks != [] {
      var last := asks[|asks| - 1];
      assert [Pull(i, last)] + [Rejected(i, last)] == [Pull(i, last), Rejected(i, last)];
      assert Project(i, trace) == AllRejected(i, asks[..|asks| - 1]) + [Pull(i, last)] + [Rejected(i, last)];
    }
  }

  lemma AskedHistoryOk(i: nat, c: ChunkState, trace: seq<Output>, request: Request, order: seq<Address>)
    requires HistoryOk(i, false, c, trace)
    requires !c.done && c.inFlight.None?
    ensures HistoryOk(i, false, ChunkState(order, c.next + 1, Some(request), false), trace + [Pull(i, request)])
  {
    var asks := Asks(i, trace);
    TraceGrows(i, trace, Pull(i, request));
    assert (asks + [request])[..|asks|] == asks;
    ClosedHistory(i, c, trace);
  }

  lemma AskedArchives(i: nat, trace: seq<Output>, request: Request)
    ensures Archives(Asks(i, trace + [Pull(i, request)])) == Archives(Asks(i, trace)) + [request.archive]
  {
    TraceGrows(i, trace, Pull(i, request));
  }

  lemma AskedChunkOk(ranking: seq<Address>, i: nat, c: ChunkState, trace: seq<Output>, skip: bool,
                     identified: set<Address>, pos: nat, peer: PeerId)
    requires NoDuplicates(ranking)
    requires ChunkOk(ranking, i, false, c, trace, skip)
    requires !c.done && c.inFlight.None? && MayAsk(c.order, c.next, identified, skip, pos)
    ensures var request := Request(peer, c.order[pos]);
            var c' := ChunkState(MarkAsked(c.order, c.next, pos), c.next + 1, Some(request), false);
            ChunkOk(ranking, i, false, c', trace + [Pull(i, request)], skip)
  {
    var request := Request(peer, c.order[pos]);
    var asks := Asks(i, trace);
    AskedHistoryOk(i, c, trace, request, MarkAsked(c.order, c.next, pos));
    AskedOrderOk(ranking, Archives(asks), c.order, skip, identified, pos);
    AskedArchives(i, trace, request);
  }

  lemma SettledChunkOk(ranking: seq<Address>, i: nat, c: ChunkState, trace: seq<Output>, skip: bool, delivered: bool)
    requires ChunkOk(ranking, i, false, c, trace, skip) && c.inFlight.Some?
    ensures var o := if delivered then Delivered(i, c.inFlight.value) else Rejected(i, c.inFlight.value);
            ChunkOk(ranking, i, false, c.(inFlight := None, done := delivered), trace + [o], skip)
  {
    TraceGrows(i, trace, if delivered then Delivered(i, c.inFlight.value) else Rejected(i, c.inFlight.value));
  }

  // ── Counting ──

  function DoneCount(chunks: seq<ChunkState>): nat {
    if chunks == [] then 0
    else DoneCount(chunks[..|chunks| - 1]) + if chunks[|chunks| - 1].done then 1 else 0
  }

  /** The messages still possible: a request and its answer for every archive not asked, an answer for one in flight. */
  function Budget(chunks: seq<ChunkState>): int {
    if chunks == [] then 0
    else
      var c := chunks[|chunks| - 1];
      Budget(chunks[..|chunks| - 1]) + 2 * (|c.order| - c.next) + if c.inFlight.Some? then 1 else 0
  }

  function Weight(c: ChunkState): int {
    2 * (|c.order| - c.next) + if c.inFlight.Some? then 1 else 0
  }

  lemma {:induction false} CountsAfterUpdate(chunks: seq<ChunkState>, i: nat, c: ChunkState)
    requires i < |chunks|
    ensures InFlightCount(chunks[i := c]) == InFlightCount(chunks)
                                             - (if chunks[i].inFlight.Some? then 1 else 0)
                                             + (if c.inFlight.Some? then 1 else 0)
    ensures DoneCount(chunks[i := c]) == DoneCount(chunks)
                                         - (if chunks[i].done then 1 else 0) + (if c.done then 1 else 0)
    ensures Budget(chunks[i := c]) == Budget(chunks) - Weight(chunks[i]) + Weight(c)
  {
    var n := |chunks| - 1;
    if i < n {
      CountsAfterUpdate(chunks[..n], i, c);
      assert chunks[i := c][..n] == chunks[..n][i := c];
    } else {
      assert chunks[i := c][..n] == chunks[..n];
    }
  }

  lemma {:induction false} AllDoneCounts(chunks: seq<ChunkState>)
    requires forall i :: 0 <= i < |chunks| ==> chunks[i].done
    ensures DoneCount(chunks) == |chunks|
  {
    if chunks != [] {
      AllDoneCounts(chunks[..|chunks| - 1]);
    }
  }

  lemma {:induction false} SomethingInFlight(chunks: seq<ChunkState>)
    ensures InFlightCount(chunks) > 0 <==> exists i :: 0 <= i < |chunks| && chunks[i].inFlight.Some?
  {
    if chunks != [] {
      var n := |chunks| - 1;
      SomethingInFlight(chunks[..n]);
      if i :| 0 <= i < |chunks| && chunks[i].inFlight.Some? {
        assert i == n || chunks[..n][i].inFlight.Some?;
      }
    }
  }

  function DeliveredBy(trace: seq<Output>, p: PeerId): nat {
    if trace == [] then 0
    else
      var o := trace[|trace| - 1];
      DeliveredBy(trace[..|trace| - 1], p) + if o.Delivered? && o.request.peer == p then 1 else 0
  }

  function PullCount(trace: seq<Output>): nat {
    if trace == [] then 0
    else PullCount(trace[..|trace| - 1]) + if trace[|trace| - 1].Pull? then 1 else 0
  }

  function DeliveredCount(trace: seq<Output>): nat {
    if trace == [] then 0
    else DeliveredCount(trace[..|trace| - 1]) + if trace[|trace| - 1].Delivered? then 1 else 0
  }

  /** How many (chunk, assigned archive) pairs the first `n` chunks have. */
  function AssignedPairs(job: Job, n: nat): nat {
    if n == 0 then 0 else AssignedPairs(job, n - 1) + |job.Ranking(n - 1)|
  }

  lemma CountsGrow(trace: seq<Output>, o: Output, p: PeerId)
    ensures DeliveredBy(trace + [o], p) == DeliveredBy(trace, p) + if o.Delivered? && o.request.peer == p then 1 else 0
    ensures PullCount(trace + [o]) == PullCount(trace) + if o.Pull? then 1 else 0
    ensures DeliveredCount(trace + [o]) == DeliveredCount(trace) + if o.Delivered? then 1 else 0
  {
    assert (trace + [o])[..|trace|] == trace;
  }

  // ── The invariant of the fetch ──

  ghost predicate ContentAddressed(job: Job, store: map<Cid, Bytes>) {
    forall cid | cid in store :: job.cidOf(job.hashOf(store[cid])) == cid
  }

  ghost predicate ChunksOk(job: Job, store0: map<Cid, Bytes>, s: FetchState) {
    && |s.chunks| == |job.chunks|
    && forall i :: 0 <= i < |s.chunks| ==>
         ChunkOk(job.Ranking(i), i, job.chunks[i].cid in store0, s.chunks[i], s.trace, s.skipUnresolved)
  }

  ghost predicate StoreHoldsDone(job: Job, store0: map<Cid, Bytes>, s: FetchState)
    requires |s.chunks| == |job.chunks|
  {
    && ContentAddressed(job, s.store)
    && (forall cid | cid in store0 :: cid in s.store && s.store[cid] == store0[cid])
    && forall i :: 0 <= i < |s.chunks| && s.chunks[i].done ==> job.chunks[i].cid in s.store
  }

  ghost predicate CountersOk(job: Job, s: FetchState) {
    && |s.trace| + Budget(s.chunks) == 2 * AssignedPairs(job, |job.chunks|)
    && PullCount(s.trace) * 2 == |s.trace| + InFlightCount(s.chunks)
    && s.fetched == DeliveredCount(s.trace)
    && s.fetched + s.skipped == DoneCount(s.chunks)
    && forall p :: (if p in s.attribution then s.attribution[p] else 0) == DeliveredBy(s.trace, p)
  }

  ghost predicate Safe(job: Job, store0: map<Cid, Bytes>, s: FetchState) {
    && ChunksOk(job, store0, s)
    && StoreHoldsDone(job, store0, s)
    && CountersOk(job, s)
  }

  /** No chunk with archives is lost: it is done, in flight, or has an archive left to ask. */
  ghost predicate NoneLost(job: Job, s: FetchState) {
    forall i :: 0 <= i < |s.chunks| && job.Ranking(i) != [] ==>
                  s.chunks[i].done || s.chunks[i].inFlight.Some? || s.chunks[i].next < |s.chunks[i].order|
  }

  /** The cap is respected, and it is full unless no chunk can be asked of anyone. */
  ghost predicate Saturated(job: Job, s: FetchState) {
    && InFlightCount(s.chunks) <= job.Cap()
    && (InFlightCount(s.chunks) < job.Cap() ==>
          forall i :: 0 <= i < |s.chunks| ==> !Askable(s.chunks[i], s.peers.Values, s.skipUnresolved))
  }

  /** Where the loop waits for its next event. */
  ghost predicate LoopHead(job: Job, s: FetchState) {
    Saturated(job, s) && NoneLost(job, s)
  }

  // ── Each operation keeps it ──

  lemma UnfinishedIsNotOnDisk(ranking: seq<Address>, i: nat, onDisk: bool, c: ChunkState, trace: seq<Output>,
                              skip: bool)
    requires ChunkOk(ranking, i, onDisk, c, trace, skip) && !c.done
    ensures !onDisk
  {
  }

  lemma AskKeepsAskedChunk(job: Job, store0: map<Cid, Bytes>, s: FetchState, d: Dispatch, identified: set<Address>)
    requires job.Valid() && ChunksOk(job, store0, s)
    requires CanSend(s.chunks, d, identified, s.skipUnresolved)
    ensures var i, s' := d.chunk, Ask(s, d);
            ChunkOk(job.Ranking(i), i, job.chunks[i].cid in store0, s'.chunks[i], s'.trace, s.skipUnresolved)
  {
    var i, c := d.chunk, s.chunks[d.chunk];
    UnfinishedIsNotOnDisk(job.Ranking(i), i, job.chunks[i].cid in store0, c, s.trace, s.skipUnresolved);
    AskedChunkOk(job.Ranking(i), i, c, s.trace, s.skipUnresolved, identified, d.pos, d.peer);
  }

  lemma AskKeepsChunks(job: Job, store0: map<Cid, Bytes>, s: FetchState, d: Dispatch, identified: set<Address>)
    requires job.Valid() && ChunksOk(job, store0, s)
    requires CanSend(s.chunks, d, identified, s.skipUnresolved)
    ensures ChunksOk(job, store0, Ask(s, d))
  {
    var c := s.chunks[d.chunk];
    var s' := Ask(s, d);
    var o := Pull(d.chunk, Request(d.peer, c.order[d.pos]));
    forall i | 0 <= i < |s.chunks|
      ensures ChunkOk(job.Ranking(i), i, job.chunks[i].cid in store0, s'.chunks[i], s'.trace, s'.skipUnresolved)
    {
      if i == d.chunk {
        AskKeepsAskedChunk(job, store0, s, d, identified);
      } else {
        OtherChunkOk(job.Ranking(i), i, job.chunks[i].cid in store0, s.chunks[i], s.trace, s.skipUnresolved, o);
      }
    }
  }

  lemma AskKeepsCounters(job: Job, s: FetchState, d: Dispatch, identified: set<Address>)
    requires CountersOk(job, s)
    requires CanSend(s.chunks, d, identified, s.skipUnresolved)
    ensures CountersOk(job, Ask(s, d))
    ensures InFlightCount(Ask(s, d).chunks) == InFlightCount(s.chunks) + 1
  {
    var s' := Ask(s, d);
    var o := Pull(d.chunk, Request(d.peer, s.chunks[d.chunk].order[d.pos]));
    CountsAfterUpdate(s.chunks, d.chunk, s'.chunks[d.chunk]);
    forall p ensures DeliveredBy(s'.trace, p) == DeliveredBy(s.trace, p) {
      CountsGrow(s.trace, o, p);
    }
    CountsGrow(s.trace, o, 0);
  }

  lemma AskKeepsStore(job: Job, store0: map<Cid, Bytes>, s: FetchState, d: Dispatch, identified: set<Address>)
    requires |s.chunks| == |job.chunks| && StoreHoldsDone(job, store0, s) && NoneLost(job, s)
    requires CanSend(s.chunks, d, identified, s.skipUnresolved)
    ensures StoreHoldsDone(job, store0, Ask(s, d)) && NoneLost(job, Ask(s, d))
  {
  }

  lemma AskKeepsSafe(job: Job, store0: map<Cid, Bytes>, s: FetchState, d: Dispatch, identified: set<Address>)
    requires job.Valid() && Safe(job, store0, s) && NoneLost(job, s)
    requires CanSend(s.chunks, d, identified, s.skipUnresolved)
    ensures Safe(job, store0, Ask(s, d))
    ensures NoneLost(job, Ask(s, d))
    ensures InFlightCount(Ask(s, d).chunks) == InFlightCount(s.chunks) + 1
  {
    AskKeepsChunks(job, store0, s, d, identified);
    AskKeepsStore(job, store0, s, d, identified);
    AskKeepsCounters(job, s, d, identified);
  }

  /** A batch that can be sent can still be sent after its first request was. */
  lemma RestIsSendable(s: FetchState, ds: seq<Dispatch>, identified: set<Address>)
    requires ds != [] && Sendable(s.chunks, ds, identified, s.skipUnresolved)
    ensures CanSend(s.chunks, ds[0], identified, s.skipUnresolved)
    ensures Sendable(Ask(s, ds[0]).chunks, ds[1..], identified, s.skipUnresolved)
  {
    assert forall k :: 0 <= k < |ds[1..]| ==> ds[1..][k] == ds[k + 1];
  }

  /** Whatever every single request keeps, a batch keeps. */
  lemma {:induction false} SendAllKeeps(inv: FetchState -> bool, s: FetchState, ds: seq<Dispatch>, failsAt: Option<nat>,
                                        identified: set<Address>)
    requires inv(s)
    requires forall t: FetchState, d | inv(t) && CanSend(t.chunks, d, identified, t.skipUnresolved) :: inv(Ask(t, d))
    requires Sendable(s.chunks, ds, identified, s.skipUnresolved)
    ensures inv(SendAll(s, ds, failsAt, identified).state)
    decreases |ds|
  {
    if ds != [] && failsAt != Some(0) {
      RestIsSendable(s, ds, identified);
      SendAllKeeps(inv, Ask(s, ds[0]), ds[1..], if failsAt.Some? then Some(failsAt.value - 1) else None, identified);
    }
  }

  /** A batch that went through put exactly the chunks it mentions in flight. */
  ghost predicate BatchSent(before: seq<ChunkState>, after: seq<ChunkState>, ds: seq<Dispatch>) {
    && |after| == |before|
    && InFlightCount(after) == InFlightCount(before) + |ds|
    && forall i :: 0 <= i < |before| ==>
         if Mentions(ds, i) then after[i].inFlight.Some? else after[i] == before[i]
  }

  lemma BatchGrows(before: seq<ChunkState>, mid: seq<ChunkState>, after: seq<ChunkState>, ds: seq<Dispatch>)
    requires ds != [] && ds[0].chunk < |before|
    requires BatchSent(mid, after, ds[1..])
    requires |mid| == |before| && InFlightCount(mid) == InFlightCount(before) + 1
    requires mid[ds[0].chunk].inFlight.Some?
    requires forall i :: 0 <= i < |before| && i != ds[0].chunk ==> mid[i] == before[i]
    ensures BatchSent(before, after, ds)
  {
    var rest := ds[1..];
    forall i | 0 <= i < |before| ensures Mentions(ds, i) <==> i == ds[0].chunk || Mentions(rest, i) {
      if k :| 0 <= k < |ds| && ds[k].chunk == i {
        assert k == 0 || rest[k - 1].chunk == i;
      }
      if k :| 0 <= k < |rest| && rest[k].chunk == i {
        assert ds[k + 1].chunk == i;
      }
    }
  }

  lemma AskOccupies(s: FetchState, d: Dispatch, identified: set<Address>)
    requires CanSend(s.chunks, d, identified, s.skipUnresolved)
    ensures InFlightCount(Ask(s, d).chunks) == InFlightCount(s.chunks) + 1
  {
    CountsAfterUpdate(s.chunks, d.chunk, Ask(s, d).chunks[d.chunk]);
  }

  lemma {:induction false} SendAllEffect(s: FetchState, ds: seq<Dispatch>, failsAt: Option<nat>,
                                         identified: set<Address>)
    requires Sendable(s.chunks, ds, identified, s.skipUnresolved)
    ensures var r := SendAll(s, ds, failsAt, identified);
            && r.state.peers == s.peers && r.state.skipUnresolved == s.skipUnresolved
            && InFlightCount(r.state.chunks) <= InFlightCount(s.chunks) + |ds|
            && (r.verdict.Running? ==> BatchSent(s.chunks, r.state.chunks, ds))
            && (r.verdict.Stopped? ==> r.verdict.error.SendFailed?)
    decreases |ds|
  {
    if ds == [] {
      assert BatchSent(s.chunks, s.chunks, ds);
    } else if failsAt != Some(0) {
      RestIsSendable(s, ds, identified);
      var s1 := Ask(s, ds[0]);
      AskOccupies(s, ds[0], identified);
      var failsAt1 := if failsAt.Some? then Some(failsAt.value - 1) else None;
      var r := SendAll(s1, ds[1..], failsAt1, identified);
      assert SendAll(s, ds, failsAt, identified) == r;
      SendAllEffect(s1, ds[1..], failsAt1, identified);
      if r.verdict.Running? {
        BatchGrows(s.chunks, s1.chunks, r.state.chunks, ds);
      }
    }
  }

  /** After a dispatch that went through, selecting again would send nothing more. */
  lemma TryDispatchSaturates(job: Job, s: FetchState, input: Input)
    requires InFlightCount(s.chunks) <= job.Cap()
    requires Inverts(input.addrToPeer, s.peers)
    ensures var r := TryDispatch(job, s, input);
            && InFlightCount(r.state.chunks) <= job.Cap()
            && r.state.peers == s.peers
            && r.state.skipUnresolved == s.skipUnresolved
            && (r.verdict.Running? ==> Saturated(job, r.state))
            && (r.verdict.Stopped? ==> r.verdict.error.SendFailed?)
  {
    var ids := input.addrToPeer.Keys;
    var due := DueFrom(s.chunks, 0, input.addrToPeer, s.skipUnresolved);
    var ds := SelectDispatches(s.chunks, input.addrToPeer, job.Cap(), s.skipUnresolved);
    SelectedAreSendable(s.chunks, input.addrToPeer, job.Cap(), s.skipUnresolved);
    SendAllEffect(s, ds, input.sendFailsAt, ids);
    var r := TryDispatch(job, s, input);
    if r.verdict.Running? && InFlightCount(r.state.chunks) < job.Cap() {
      assert ds == due;
      forall i | 0 <= i < |s.chunks| ensures !Askable(r.state.chunks[i], s.peers.Values, s.skipUnresolved) {
        if Askable(s.chunks[i], ids, s.skipUnresolved) {
          DueFromComplete(s.chunks, 0, input.addrToPeer, s.skipUnresolved, i);
        }
      }
    }
  }

  lemma TryDispatchKeepsSafe(job: Job, store0: map<Cid, Bytes>, s: FetchState, input: Input)
    requires job.Valid() && Safe(job, store0, s) && NoneLost(job, s)
    ensures Safe(job, store0, TryDispatch(job, s, input).state)
    ensures NoneLost(job, TryDispatch(job, s, input).state)
  {
    var ds := SelectDispatches(s.chunks, input.addrToPeer, job.Cap(), s.skipUnresolved);
    SelectedAreSendable(s.chunks, input.addrToPeer, job.Cap(), s.skipUnresolved);
    var inv := (t: FetchState) => Safe(job, store0, t) && NoneLost(job, t);
    forall t: FetchState, d | inv(t) && CanSend(t.chunks, d, input.addrToPeer.Keys, t.skipUnresolved)
      ensures inv(Ask(t, d))
    {
      AskKeepsSafe(job, store0, t, d, input.addrToPeer.Keys);
    }
    SendAllKeeps(inv, s, ds, input.sendFailsAt, input.addrToPeer.Keys);
  }

  lemma SettleKeepsChunks(job: Job, store0: map<Cid, Bytes>, s: FetchState, i: nat, delivered: bool, s': FetchState)
    requires ChunksOk(job, store0, s)
    requires i < |s.chunks| && s.chunks[i].inFlight.Some?
    requires s'.chunks == s.chunks[i := s.chunks[i].(inFlight := None, done := delivered)]
    requires s'.skipUnresolved == s.skipUnresolved
    requires var request := s.chunks[i].inFlight.value;
             s'.trace == s.trace + [if delivered then Delivered(i, request) else Rejected(i, request)]
    ensures ChunksOk(job, store0, s')
  {
    var request := s.chunks[i].inFlight.value;
    forall j | 0 <= j < |s.chunks|
      ensures ChunkOk(job.Ranking(j), j, job.chunks[j].cid in store0, s'.chunks[j], s'.trace, s'.skipUnresolved)
    {
      if j == i {
        SettledChunkOk(job.Ranking(i), i, s.chunks[i], s.trace, s.skipUnresolved, delivered);
      } else {
        OtherChunkOk(job.Ranking(j), j, job.chunks[j].cid in store0, s.chunks[j], s.trace, s.skipUnresolved,
                     if delivered then Delivered(i, request) else Rejected(i, request));
      }
    }
  }

  lemma InFlightIsNotDone(job: Job, store0: map<Cid, Bytes>, s: FetchState, i: nat)
    requires ChunksOk(job, store0, s) && i < |s.chunks| && s.chunks[i].inFlight.Some?
    ensures !s.chunks[i].done
  {
    assert ChunkOk(job.Ranking(i), i, job.chunks[i].cid in store0, s.chunks[i], s.trace, s.skipUnresolved);
  }

  lemma ReleaseKeepsCounters(job: Job, s: FetchState, i: nat)
    requires CountersOk(job, s)
    requires i < |s.chunks| && s.chunks[i].inFlight.Some?
    ensures CountersOk(job, Release(s, i))
    ensures InFlightCount(Release(s, i).chunks) == InFlightCount(s.chunks) - 1
  {
    var s' := Release(s, i);
    var o := Rejected(i, s.chunks[i].inFlight.value);
    CountsAfterUpdate(s.chunks, i, s'.chunks[i]);
    forall p ensures DeliveredBy(s'.trace, p) == DeliveredBy(s.trace, p) {
      CountsGrow(s.trace, o, p);
    }
    CountsGrow(s.trace, o, 0);
  }

  lemma ReleaseKeepsChunks(job: Job, store0: map<Cid, Bytes>, s: FetchState, i: nat)
    requires ChunksOk(job, store0, s)
    requires i < |s.chunks| && s.chunks[i].inFlight.Some?
    ensures ChunksOk(job, store0, Release(s, i)) && !s.chunks[i].done
  {
    InFlightIsNotDone(job, store0, s, i);
    SettleKeepsChunks(job, store0, s, i, false, Release(s, i));
  }

  lemma ReleaseKeepsStore(job: Job, store0: map<Cid, Bytes>, s: FetchState, i: nat)
    requires |s.chunks| == |job.chunks| && StoreHoldsDone(job, store0, s)
    requires i < |s.chunks| && s.chunks[i].inFlight.Some?
    ensures StoreHoldsDone(job, store0, Release(s, i))
  {
  }

  lemma ReleaseKeepsSafe(job: Job, store0: map<Cid, Bytes>, s: FetchState, i: nat)
    requires Safe(job, store0, s)
    requires i < |s.chunks| && s.chunks[i].inFlight.Some?
    ensures Safe(job, store0, Release(s, i))
    ensures InFlightCount(Release(s, i).chunks) == InFlightCount(s.chunks) - 1
    ensures !s.chunks[i].done
  {
    ReleaseKeepsChunks(job, store0, s, i);
    ReleaseKeepsStore(job, store0, s, i);
    ReleaseKeepsCounters(job, s, i);
  }

  lemma FinishKeepsCounters(job: Job, s: FetchState, i: nat, data: Bytes)
    requires CountersOk(job, s)
    requires i < |s.chunks| == |job.chunks| && s.chunks[i].inFlight.Some? && !s.chunks[i].done
    ensures CountersOk(job, Finish(job, s, i, data))
    ensures InFlightCount(Finish(job, s, i, data).chunks) == InFlightCount(s.chunks) - 1
  {
    var s' := Finish(job, s, i, data);
    var o := Delivered(i, s.chunks[i].inFlight.value);
    CountsAfterUpdate(s.chunks, i, s'.chunks[i]);
    forall p ensures (if p in s'.attribution then s'.attribution[p] else 0) == DeliveredBy(s'.trace, p) {
      CountsGrow(s.trace, o, p);
    }
    CountsGrow(s.trace, o, 0);
  }

  lemma FinishKeepsStore(job: Job, store0: map<Cid, Bytes>, s: FetchState, i: nat, data: Bytes)
    requires job.Valid() && |s.chunks| == |job.chunks| && StoreHoldsDone(job, store0, s)
    requires i < |s.chunks| && s.chunks[i].inFlight.Some?
    requires job.hashOf(data) == job.chunks[i].hash
    ensures StoreHoldsDone(job, store0, Finish(job, s, i, data))
  {
  }

  lemma FinishKeepsSafe(job: Job, store0: map<Cid, Bytes>, s: FetchState, i: nat, data: Bytes)
    requires job.Valid() && Safe(job, store0, s)
    requires i < |s.chunks| && s.chunks[i].inFlight.Some?
    requires job.hashOf(data) == job.chunks[i].hash
    ensures Safe(job, store0, Finish(job, s, i, data))
    ensures InFlightCount(Finish(job, s, i, data).chunks) == InFlightCount(s.chunks) - 1
  {
    InFlightIsNotDone(job, store0, s, i);
    SettleKeepsChunks(job, store0, s, i, true, Finish(job, s, i, data));
    FinishKeepsStore(job, store0, s, i, data);
    FinishKeepsCounters(job, s, i, data);
  }

  // ── One turn ──

  /** What a turn that reports exhaustion has established: every archive assigned to the chunk was asked exactly
      once, and each one was asked, and rejected, before the next. */
  ghost predicate TrulyExhausted(job: Job, i: nat, archives: nat, trace: seq<Output>) {
    var asks := Asks(i, trace);
    && archives == |job.Ranking(i)|
    && multiset(Archives(asks)) == multiset(job.Ranking(i))
    && Project(i, trace) == AllRejected(i, asks)
  }

  lemma AllAsked(ranking: seq<Address>, asked: seq<Address>, order: seq<Address>, skip: bool)
    requires NoDuplicates(ranking) && OrderOk(ranking, asked, order, skip) && |asked| >= |order|
    ensures multiset(asked) == multiset(ranking) && |order| == |asked| == |ranking|
  {
    PickedOnce(ranking, asked);
    NothingLeft(ranking, asked);
    assert |multiset(asked)| == |asked|;
    assert |multiset(ranking)| == |ranking|;
  }

  lemma ExhaustionIsTrue(job: Job, store0: map<Cid, Bytes>, s: FetchState, i: nat)
    requires job.Valid() && ChunksOk(job, store0, s)
    requires i < |s.chunks| && !s.chunks[i].done && s.chunks[i].inFlight.None?
    requires s.chunks[i].next >= |s.chunks[i].order|
    ensures TrulyExhausted(job, i, |s.chunks[i].order|, s.trace)
  {
    var asks := Asks(i, s.trace);
    assert ChunkOk(job.Ranking(i), i, job.chunks[i].cid in store0, s.chunks[i], s.trace, s.skipUnresolved);
    AllAsked(job.Ranking(i), Archives(asks), s.chunks[i].order, s.skipUnresolved);
    ClosedHistory(i, s.chunks[i], s.trace);
  }

  /** What every turn leaves behind. */
  ghost predicate TurnOk(job: Job, store0: map<Cid, Bytes>, r: StepResult) {
    && Safe(job, store0, r.state)
    && InFlightCount(r.state.chunks) <= job.Cap()
    && (r.verdict.Running? ==> LoopHead(job, r.state))
    && (r.verdict.Stopped? && r.verdict.error.Exhausted? ==>
          TrulyExhausted(job, r.verdict.error.chunk, r.verdict.error.archives, r.state.trace))
  }

  lemma DispatchOk(job: Job, store0: map<Cid, Bytes>, s: FetchState, input: Input)
    requires job.Valid() && Safe(job, store0, s) && NoneLost(job, s)
    requires InFlightCount(s.chunks) <= job.Cap() && Inverts(input.addrToPeer, s.peers)
    ensures TurnOk(job, store0, TryDispatch(job, s, input))
  {
    TryDispatchKeepsSafe(job, store0, s, input);
    TryDispatchSaturates(job, s, input);
  }

  lemma SettledLeavesNoneLost(job: Job, s: FetchState, i: nat, data: Bytes)
    requires NoneLost(job, s) && i < |s.chunks| == |job.chunks| && s.chunks[i].inFlight.Some?
    ensures Release(s, i).chunks[i].next < |Release(s, i).chunks[i].order| ==> NoneLost(job, Release(s, i))
    ensures NoneLost(job, Finish(job, s, i, data))
  {
  }

  lemma ExhaustedOk(job: Job, store0: map<Cid, Bytes>, s: FetchState, i: nat)
    requires job.Valid() && Safe(job, store0, s) && InFlightCount(s.chunks) <= job.Cap()
    requires i < |s.chunks| && !s.chunks[i].done && s.chunks[i].inFlight.None?
    requires s.chunks[i].next >= |s.chunks[i].order|
    ensures TurnOk(job, store0, StepResult(s, Stopped(Exhausted(i, |s.chunks[i].order|))))
  {
    ExhaustionIsTrue(job, store0, s, i);
  }

  lemma NothingChangedOk(job: Job, store0: map<Cid, Bytes>, s: FetchState, v: Verdict)
    requires Safe(job, store0, s) && LoopHead(job, s)
    requires v.Stopped? ==> !v.error.Exhausted?
    ensures TurnOk(job, store0, StepResult(s, v))
  {
  }

  lemma ReleasedOk(job: Job, store0: map<Cid, Bytes>, s: FetchState, i: nat, input: Input)
    requires job.Valid() && Safe(job, store0, s) && InFlightCount(s.chunks) <= job.Cap()
    requires i < |s.chunks| && !s.chunks[i].done && s.chunks[i].inFlight.None?
    requires s.chunks[i].next < |s.chunks[i].order| ==> NoneLost(job, s)
    requires Inverts(input.addrToPeer, s.peers)
    ensures TurnOk(job, store0, MoveOn(job, s, i, input))
  {
    if s.chunks[i].next >= |s.chunks[i].order| {
      ExhaustedOk(job, store0, s, i);
    } else {
      DispatchOk(job, store0, s, input);
    }
  }

  lemma RejectOk(job: Job, store0: map<Cid, Bytes>, s: FetchState, i: nat, input: Input)
    requires job.Valid() && Safe(job, store0, s) && NoneLost(job, s) && InFlightCount(s.chunks) <= job.Cap()
    requires i < |s.chunks| && s.chunks[i].inFlight.Some?
    requires Inverts(input.addrToPeer, s.peers)
    ensures TurnOk(job, store0, Reject(job, s, i, input))
  {
    ReleaseKeepsSafe(job, store0, s, i);
    SettledLeavesNoneLost(job, s, i, []);
    ReleasedOk(job, store0, Release(s, i), i, input);
  }

  lemma FinishOk(job: Job, store0: map<Cid, Bytes>, s: FetchState, i: nat, data: Bytes, input: Input)
    requires job.Valid() && Safe(job, store0, s) && NoneLost(job, s) && InFlightCount(s.chunks) <= job.Cap()
    requires i < |s.chunks| && s.chunks[i].inFlight.Some?
    requires job.hashOf(data) == job.chunks[i].hash
    requires Inverts(input.addrToPeer, s.peers)
    ensures TurnOk(job, store0, TryDispatch(job, Finish(job, s, i, data), input))
  {
    FinishKeepsSafe(job, store0, s, i, data);
    SettledLeavesNoneLost(job, s, i, data);
    DispatchOk(job, store0, Finish(job, s, i, data), input);
  }

  lemma GraceOk(job: Job, store0: map<Cid, Bytes>, s: FetchState, input: Input)
    requires job.Valid() && Safe(job, store0, s) && NoneLost(job, s) && InFlightCount(s.chunks) <= job.Cap()
    requires Inverts(input.addrToPeer, s.peers)
    ensures TurnOk(job, store0, TryDispatch(job, s.(skipUnresolved := true), input))
  {
    var s' := s.(skipUnresolved := true);
    forall i | 0 <= i < |s.chunks|
      ensures ChunkOk(job.Ranking(i), i, job.chunks[i].cid in store0, s'.chunks[i], s'.trace, s'.skipUnresolved)
    {
      assert ChunkOk(job.Ranking(i), i, job.chunks[i].cid in store0, s.chunks[i], s.trace, s.skipUnresolved);
    }
    assert ChunksOk(job, store0, s') && CountersOk(job, s');
    DispatchOk(job, store0, s', input);
  }

  lemma PeerChangeKeepsSafe(job: Job, store0: map<Cid, Bytes>, s: FetchState, peers: map<PeerId, Address>)
    requires Safe(job, store0, s) && NoneLost(job, s)
    ensures Safe(job, store0, s.(peers := peers)) && NoneLost(job, s.(peers := peers))
  {
    var s' := s.(peers := peers);
    assert ChunksOk(job, store0, s') by {
      assert s'.chunks == s.chunks && s'.trace == s.trace;
    }
  }

  lemma PeersOk(job: Job, store0: map<Cid, Bytes>, s: FetchState, input: Input)
    requires job.Valid() && Safe(job, store0, s) && NoneLost(job, s) && InFlightCount(s.chunks) <= job.Cap()
             && ValidInput(s, input)
    ensures TurnOk(job, store0, TryDispatch(job, s.(peers := PeersAfter(s.peers, input.event)), input))
  {
    PeerChangeKeepsSafe(job, store0, s, PeersAfter(s.peers, input.event));
    DispatchOk(job, store0, s.(peers := PeersAfter(s.peers, input.event)), input);
  }

  // The arms of the two events that can settle a chunk.

  lemma IgnoredStep(job: Job, s: FetchState, input: Input)
    requires |s.chunks| == |job.chunks|
    requires match input.event
             case ChunkData(peer, cid, _, _, _, _) =>
               Settles(job, s, peer, cid).None? || s.chunks[Settles(job, s, peer, cid).value].done
             case RequestFailed(peer, requested) => requested.None? || Settles(job, s, peer, requested.value).None?
             case _ => false
    ensures Step(job, s, input) == StepResult(s, Running)
  {
  }

  lemma RejectingStep(job: Job, s: FetchState, input: Input, i: nat)
    requires |s.chunks| == |job.chunks|
    requires match input.event
             case ChunkData(peer, cid, _, _, _, _) =>
               && Settles(job, s, peer, cid) == Some(i) && !s.chunks[i].done
               && !GoodAnswer(job, job.chunks[i], input.event)
             case RequestFailed(peer, requested) => requested.Some? && Settles(job, s, peer, requested.value) == Some(i)
             case _ => false
    ensures i < |s.chunks| && s.chunks[i].inFlight.Some?
    ensures Step(job, s, input) == Reject(job, s, i, input)
  {
  }

  lemma FinishingStep(job: Job, s: FetchState, input: Input, i: nat)
    requires |s.chunks| == |job.chunks| && input.event.ChunkData?
    requires Settles(job, s, input.event.peer, input.event.cid) == Some(i) && !s.chunks[i].done
    requires GoodAnswer(job, job.chunks[i], input.event)
    ensures i < |s.chunks| && s.chunks[i].inFlight.Some?
    ensures Step(job, s, input)
            == if input.storeAccepts then TryDispatch(job, Finish(job, s, i, input.event.data), input)
                                   else StepResult(s, Stopped(StoreFailed(input.event.cid)))
  {
  }

  lemma GoodAnswerOk(job: Job, store0: map<Cid, Bytes>, s: FetchState, input: Input, i: nat)
    requires job.Valid() && Safe(job, store0, s) && LoopHead(job, s) && Inverts(input.addrToPeer, s.peers)
    requires i < |s.chunks| && s.chunks[i].inFlight.Some?
    requires input.event.ChunkData? && job.hashOf(input.event.data) == job.chunks[i].hash
    ensures TurnOk(job, store0, if input.storeAccepts then TryDispatch(job, Finish(job, s, i, input.event.data), input)
                                else StepResult(s, Stopped(StoreFailed(input.event.cid))))
  {
    if input.storeAccepts {
      FinishOk(job, store0, s, i, input.event.data, input);
    } else {
      NothingChangedOk(job, store0, s, Stopped(StoreFailed(input.event.cid)));
    }
  }

  lemma AnswerOk(job: Job, store0: map<Cid, Bytes>, s: FetchState, input: Input)
    requires job.Valid() && Safe(job, store0, s) && LoopHead(job, s) && ValidInput(s, input)
    requires input.event.ChunkData?
    ensures TurnOk(job, store0, Step(job, s, input))
  {
    var settled := Settles(job, s, input.event.peer, input.event.cid);
    if settled.None? || s.chunks[settled.value].done {
      IgnoredStep(job, s, input);
      NothingChangedOk(job, store0, s, Running);
    } else if GoodAnswer(job, job.chunks[settled.value], input.event) {
      FinishingStep(job, s, input, settled.value);
      GoodAnswerOk(job, store0, s, input, settled.value);
    } else {
      RejectingStep(job, s, input, settled.value);
      RejectOk(job, store0, s, settled.value, input);
    }
  }

  lemma FailureOk(job: Job, store0: map<Cid, Bytes>, s: FetchState, input: Input)
    requires job.Valid() && Safe(job, store0, s) && LoopHead(job, s) && ValidInput(s, input)
    requires input.event.RequestFailed?
    ensures TurnOk(job, store0, Step(job, s, input))
  {
    var requested := input.event.requestedCid;
    if requested.Some? && Settles(job, s, input.event.peer, requested.value).Some? {
      var i := Settles(job, s, input.event.peer, requested.value).value;
      RejectingStep(job, s, input, i);
      RejectOk(job, store0, s, i, input);
    } else {
      IgnoredStep(job, s, input);
      NothingChangedOk(job, store0, s, Running);
    }
  }

  /** One turn from a loop head: the state stays safe, and the loop waits again only at a loop head. */
  lemma StepOk(job: Job, store0: map<Cid, Bytes>, s: FetchState, input: Input)
    requires job.Valid() && Safe(job, store0, s) && LoopHead(job, s) && ValidInput(s, input)
    ensures TurnOk(job, store0, Step(job, s, input))
  {
    match input.event
    case PeerIdentified(_, _) => PeersOk(job, store0, s, input);
    case PeerDisconnected(_) => PeersOk(job, store0, s, input);
    case GraceElapsed =>
      if s.skipUnresolved {
        NothingChangedOk(job, store0, s, Running);
      } else {
        GraceOk(job, store0, s, input);
      }
    case ChunkData(_, _, _, _, _, _) => AnswerOk(job, store0, s, input);
    case RequestFailed(_, _) => FailureOk(job, store0, s, input);
    case DeadlinePassed => NothingChangedOk(job, store0, s, Stopped(TimedOut(TimedOutChunk(s.chunks))));
    case NetworkClosed => NothingChangedOk(job, store0, s, Stopped(ShutDown));
    case Unrelated => NothingChangedOk(job, store0, s, Running);
  }

  // ── Whole runs ──

  /** Everything proved of the state a fetch ends in, or waits in. */
  ghost predicate OutcomeOk(job: Job, store0: map<Cid, Bytes>, r: RunResult) {
    && Safe(job, store0, r.state)
    && InFlightCount(r.state.chunks) <= job.Cap()
    && (r.outcome.Waiting? ==> LoopHead(job, r.state) && !r.state.AllDone())
    && (r.outcome.Completed? ==> r.state.AllDone())
    && (r.outcome.Failed? && r.outcome.error.Exhausted? ==>
          TrulyExhausted(job, r.outcome.error.chunk, r.outcome.error.archives, r.state.trace))
  }

  lemma LoopHeadOutcome(job: Job, store0: map<Cid, Bytes>, s: FetchState)
    requires Safe(job, store0, s) && LoopHead(job, s)
    ensures OutcomeOk(job, store0, RunResult(s, if s.AllDone() then Completed else Waiting))
  {
  }

  lemma StoppedOutcome(job: Job, store0: map<Cid, Bytes>, r: StepResult)
    requires TurnOk(job, store0, r) && r.verdict.Stopped?
    ensures OutcomeOk(job, store0, RunResult(r.state, Failed(r.verdict.error)))
  {
  }

  lemma {:induction false} RunKeepsSafe(job: Job, store0: map<Cid, Bytes>, s: FetchState, inputs: seq<Input>)
    requires job.Valid() && Safe(job, store0, s) && LoopHead(job, s) && ValidRun(job, s, inputs)
    ensures OutcomeOk(job, store0, Run(job, s, inputs))
    decreases |inputs|
  {
    if s.AllDone() || inputs == [] {
      LoopHeadOutcome(job, store0, s);
    } else {
      StepOk(job, store0, s, inputs[0]);
      var r := Step(job, s, inputs[0]);
      if r.verdict.Running? {
        RunKeepsSafe(job, store0, r.state, inputs[1..]);
      } else {
        StoppedOutcome(job, store0, r);
      }
    }
  }

  lemma {:induction false} InitialCounts(job: Job, peers: map<PeerId, Address>, store: map<Cid, Bytes>, n: nat)
    requires n <= |job.chunks|
    ensures var cs := InitialState(job, peers, store).chunks[..n];
            && InFlightCount(cs) == 0
            && DoneCount(cs) == Present(job.chunks[..n], store)
            && Budget(cs) == 2 * AssignedPairs(job, n)
  {
    if n > 0 {
      InitialCounts(job, peers, store, n - 1);
      var cs := InitialState(job, peers, store).chunks;
      assert cs[..n][..n - 1] == cs[..n - 1];
      assert job.chunks[..n][..n - 1] == job.chunks[..n - 1];
    }
  }

  lemma InitialChunkIsOk(job: Job, store: map<Cid, Bytes>, i: nat)
    requires i < |job.chunks|
    ensures ChunkOk(job.Ranking(i), i, job.chunks[i].cid in store, InitialChunk(job, store, i), [], false)
  {
    WithoutNothing(job.Ranking(i));
    assert Archives([]) == [];
    assert Asks(i, []) == [] && Project(i, []) == [];
  }

  lemma InitialChunksAreOk(job: Job, peers: map<PeerId, Address>, store: map<Cid, Bytes>)
    ensures ChunksOk(job, store, InitialState(job, peers, store))
  {
    var s := InitialState(job, peers, store);
    forall i | 0 <= i < |s.chunks|
      ensures ChunkOk(job.Ranking(i), i, job.chunks[i].cid in store, s.chunks[i], s.trace, s.skipUnresolved)
    {
      InitialChunkIsOk(job, store, i);
    }
  }

  lemma InitialCountersAreOk(job: Job, peers: map<PeerId, Address>, store: map<Cid, Bytes>)
    ensures var s := InitialState(job, peers, store);
            CountersOk(job, s) && InFlightCount(s.chunks) == 0
  {
    var s := InitialState(job, peers, store);
    InitialCounts(job, peers, store, |job.chunks|);
    assert s.chunks[..|job.chunks|] == s.chunks;
    assert job.chunks[..|job.chunks|] == job.chunks;
  }

  lemma InitialStateIsSafe(job: Job, peers: map<PeerId, Address>, store: map<Cid, Bytes>)
    requires job.Valid() && ContentAddressed(job, store)
    ensures var s := InitialState(job, peers, store);
            Safe(job, store, s) && NoneLost(job, s) && InFlightCount(s.chunks) == 0
  {
    InitialChunksAreOk(job, peers, store);
    InitialCountersAreOk(job, peers, store);
  }

  /** The main safety theorem: every fetch, under every sequence of events and failures, keeps all of the above. */
  lemma EveryFetchIsSafe(job: Job, peers: map<PeerId, Address>, store: map<Cid, Bytes>, first: Input,
                         inputs: seq<Input>)
    requires job.Valid() && ContentAddressed(job, store)
    requires ValidFetch(job, peers, store, first, inputs)
    ensures OutcomeOk(job, store, Fetch(job, peers, store, first, inputs))
  {
    var s0 := InitialState(job, peers, store);
    InitialStateIsSafe(job, peers, store);
    DispatchOk(job, store, s0, first);
    var r := TryDispatch(job, s0, first);
    if r.verdict.Running? {
      RunKeepsSafe(job, store, r.state, inputs);
    }
  }
}
