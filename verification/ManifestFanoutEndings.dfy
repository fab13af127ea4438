/**
 How a manifest fetch ends, in either fan-out, told from the events and the history of pulls; and what its reports
 count.
 */
module ManifestFanoutEndings {
  import opened Wrappers
  import opened Identity
  import opened ManifestFanout
  import opened ManifestFanoutSafety
  import opened PrivateManifest
  import opened ManifestLoops

  // ── What a report counts ──

  function WithStatus(archives: seq<Address>, status: map<Address, Status>, st: Status): set<Address> {
    set a | a in archives && a in status && status[a] == st
  }

  /** The archives something was done about. */
  function Touched(archives: seq<Address>, trace: seq<Output>): set<Address> {
    set a | a in archives && Project(a, trace) != []
  }

  function KnownOnes(archives: seq<Address>, addrToPeer: map<Address, PeerId>): set<Address> {
    set a | a in archives && a in addrToPeer
  }

  function UnknownOnes(archives: seq<Address>, addrToPeer: map<Address, PeerId>): set<Address> {
    set a | a in archives && a !in addrToPeer
  }

  function If(b: bool, a: Address): set<Address> {
    if b then {a} else {}
  }

  /** One archive more, not among the others. */
  lemma OneMore(archives: seq<Address>, status: map<Address, Status>, st: Status, addrToPeer: map<Address, PeerId>,
                trace: seq<Output>)
    requires Distinct(archives) && archives != []
    ensures var n, a := |archives| - 1, archives[|archives| - 1];
            && Distinct(archives[..n]) && a !in archives[..n]
              && (forall b :: b in archives <==> b in archives[..n] || b == a)
            && WithStatus(archives, status, st)
               == WithStatus(archives[..n], status, st) + If(a in status && status[a] == st, a)
            && KnownOnes(archives, addrToPeer) == KnownOnes(archives[..n], addrToPeer) + If(a in addrToPeer, a)
            && UnknownOnes(archives, addrToPeer) == UnknownOnes(archives[..n], addrToPeer) + If(a !in addrToPeer, a)
            && Touched(archives, trace) == Touched(archives[..n], trace) + If(Project(a, trace) != [], a)
  {
    var n := |archives| - 1;
    assert archives == archives[..n] + [archives[n]];
  }

  lemma AddedSize(s: set<Address>, b: bool, a: Address)
    requires a !in s
    ensures |s + If(b, a)| == |s| + if b then 1 else 0
  {
    if !b {
      assert s + If(b, a) == s;
    }
  }

  lemma {:induction false} CountIsSize(archives: seq<Address>, status: map<Address, Status>, st: Status)
    requires Distinct(archives)
    ensures Count(archives, status, st) == |WithStatus(archives, status, st)|
  {
    if archives == [] {
      assert WithStatus(archives, status, st) == {};
    } else {
      var n, a := |archives| - 1, archives[|archives| - 1];
      OneMore(archives, status, st, map[], []);
      CountIsSize(archives[..n], status, st);
      AddedSize(WithStatus(archives[..n], status, st), a in status && status[a] == st, a);
    }
  }

  lemma {:induction false} ResolvableIsSize(archives: seq<Address>, addrToPeer: map<Address, PeerId>)
    requires Distinct(archives)
    ensures Resolvable(archives, addrToPeer) == |KnownOnes(archives, addrToPeer)|
    ensures |KnownOnes(archives, addrToPeer)| + |UnknownOnes(archives, addrToPeer)| == |archives|
  {
    if archives == [] {
      assert KnownOnes(archives, addrToPeer) == {} && UnknownOnes(archives, addrToPeer) == {};
    } else {
      var n, a := |archives| - 1, archives[|archives| - 1];
      OneMore(archives, map[], Untried, addrToPeer, []);
      ResolvableIsSize(archives[..n], addrToPeer);
      AddedSize(KnownOnes(archives[..n], addrToPeer), a in addrToPeer, a);
      AddedSize(UnknownOnes(archives[..n], addrToPeer), a !in addrToPeer, a);
    }
  }

  lemma {:induction false} TouchedAreTried(archives: seq<Address>, status: map<Address, Status>, trace: seq<Output>)
    requires Distinct(archives)
    requires forall a | a in archives :: a in status && StatusIsHistory(a, status[a], trace)
    ensures |Touched(archives, trace)| + |WithStatus(archives, status, Untried)| == |archives|
  {
    if archives == [] {
      assert Touched(archives, trace) == {} && WithStatus(archives, status, Untried) == {};
    } else {
      var n, a := |archives| - 1, archives[|archives| - 1];
      OneMore(archives, status, Untried, map[], trace);
      TouchedAreTried(archives[..n], status, trace);
      assert StatusIsHistory(a, status[a], trace);
      AddedSize(Touched(archives[..n], trace), Project(a, trace) != [], a);
      AddedSize(WithStatus(archives[..n], status, Untried), a in status && status[a] == Untried, a);
    }
  }

  /** The archives something was done about, those whose peer is known, and the others. */
  predicate Reports(archives: seq<Address>, s: Fanout, addrToPeer: map<Address, PeerId>, report: Report) {
    && report.tried == |Touched(archives, s.trace)|
    && report.resolvable == |KnownOnes(archives, addrToPeer)|
    && report.unresolvable == |UnknownOnes(archives, addrToPeer)|
  }

  lemma ReportTells(archives: seq<Address>, s: Fanout, addrToPeer: map<Address, PeerId>)
    requires Distinct(archives) && Safe(archives, s)
    ensures Reports(archives, s, addrToPeer, MakeReport(archives, s, addrToPeer))
  {
    CountIsSize(archives, s.status, Untried);
    ResolvableIsSize(archives, addrToPeer);
    TouchedAreTried(archives, s.status, s.trace);
  }

  lemma ReportIsUnique(archives: seq<Address>, s: Fanout, addrToPeer: map<Address, PeerId>, report: Report)
    requires Distinct(archives) && Safe(archives, s)
    ensures report == MakeReport(archives, s, addrToPeer) <==> Reports(archives, s, addrToPeer, report)
  {
    ReportTells(archives, s, addrToPeer);
  }

  // ── When a turn ends the fetch ──

  /** Why a turn of either loop ends the fetch. */
  ghost predicate Causes(archives: seq<Address>, s: Fanout, input: Input, o: Outcome) {
    match o
    case Accepted(manifest) => Accepts(input.event, manifest) && PullStillOut(archives, s, input.event.peer)
    case DeadlineExceeded(report) => input.event.DeadlinePassed? && Reports(archives, s, input.addrToPeer, report)
    case ShutDown(report) => input.event.NetworkClosed? && Reports(archives, s, input.addrToPeer, report)
    case AllFailed(_) => false
    case Waiting => false
  }

  /** The machine's own record of whom a peer was last asked as agrees with the history. */
  lemma AwaitedIffStillOut(archives: seq<Address>, s: Fanout, p: PeerId)
    requires Safe(archives, s)
    ensures AwaitedFrom(s, p).Some? <==> PullStillOut(archives, s, p)
    ensures AwaitedFrom(s, p).Some? ==> LastAsked(p, s.trace) == AwaitedFrom(s, p)
  {
    var last := LastAsked(p, s.trace);
    assert last == if p in s.dispatchedPeers then Some(s.dispatchedPeers[p]) else None;
    if last.Some? && last.value in s.status {
      assert StatusIsHistory(last.value, s.status[last.value], s.trace);
    }
  }

  /** A turn ends the fetch with an outcome if and only if it has cause to. */
  lemma StepEndsIff(loop: Loop, archives: seq<Address>, fanout: nat, s: Fanout, input: Input, o: Outcome)
    requires Distinct(archives) && Safe(archives, s) && !o.Waiting?
    ensures StepOf(loop, archives, fanout, s, input).outcome == o <==> Causes(archives, s, input, o)
  {
    match input.event
    case ManifestAnswer(p, _, _) => AwaitedIffStillOut(archives, s, p);
    case DeadlinePassed =>
      if o.DeadlineExceeded? {
        ReportIsUnique(archives, s, input.addrToPeer, o.report);
      }
    case NetworkClosed =>
      if o.ShutDown? {
        ReportIsUnique(archives, s, input.addrToPeer, o.report);
      }
    case _ =>
  }

  // ── Over whole fetches ──

  /** The run takes its `k`-th input in state `t`. */
  ghost predicate Takes(loop: Loop, archives: seq<Address>, fanout: nat, s: Fanout, inputs: seq<Input>, k: nat,
                        t: Fanout)
    decreases k
  {
    && AnyAlive(archives, s) && k < |inputs|
    && if k == 0 then t == s
       else
         var turn := StepOf(loop, archives, fanout, s, inputs[0]);
         turn.outcome.Waiting? && Takes(loop, archives, fanout, turn.state, inputs[1..], k - 1, t)
  }

  ghost predicate MeetsCause(loop: Loop, archives: seq<Address>, fanout: nat, s: Fanout, inputs: seq<Input>, o: Outcome,
                             k: nat, t: Fanout)
  {
    Takes(loop, archives, fanout, s, inputs, k, t) && Causes(archives, t, inputs[k], o)
  }

  lemma {:induction false} RunEndsIff(loop: Loop, archives: seq<Address>, fanout: nat, s: Fanout,
                                      last: map<Address, PeerId>, inputs: seq<Input>, o: Outcome)
    requires Distinct(archives) && LoopOk(archives, fanout, s) && !o.Waiting? && !o.AllFailed?
    ensures RunOf(loop, archives, fanout, s, last, inputs).outcome == o
            <==> exists k: nat, t :: MeetsCause(loop, archives, fanout, s, inputs, o, k, t)
    decreases |inputs|
  {
    RunTurns(loop, archives, fanout, s, last, inputs);
    if AnyAlive(archives, s) && inputs != [] {
      var turn := StepOf(loop, archives, fanout, s, inputs[0]);
      StepEndsIff(loop, archives, fanout, s, inputs[0], o);
      if turn.outcome.Waiting? {
        StepOfOk(loop, archives, fanout, s, inputs[0]);
        RunEndsIff(loop, archives, fanout, turn.state, inputs[0].addrToPeer, inputs[1..], o);
        LaterCause(loop, archives, fanout, s, inputs, o);
      } else {
        FirstCause(loop, archives, fanout, s, inputs, o);
      }
    }
  }

  lemma FirstCause(loop: Loop, archives: seq<Address>, fanout: nat, s: Fanout, inputs: seq<Input>, o: Outcome)
    requires AnyAlive(archives, s) && inputs != []
    requires !StepOf(loop, archives, fanout, s, inputs[0]).outcome.Waiting?
    ensures Causes(archives, s, inputs[0], o)
            <==> exists k: nat, t :: MeetsCause(loop, archives, fanout, s, inputs, o, k, t)
  {
    if Causes(archives, s, inputs[0], o) {
      assert MeetsCause(loop, archives, fanout, s, inputs, o, 0, s);
    }
  }

  lemma LaterCause(loop: Loop, archives: seq<Address>, fanout: nat, s: Fanout, inputs: seq<Input>, o: Outcome)
    requires Distinct(archives) && Safe(archives, s) && !o.Waiting? && AnyAlive(archives, s) && inputs != []
    requires StepOf(loop, archives, fanout, s, inputs[0]).outcome.Waiting?
    ensures var s' := StepOf(loop, archives, fanout, s, inputs[0]).state;
            (exists k: nat, t :: MeetsCause(loop, archives, fanout, s, inputs, o, k, t))
            <==> exists k: nat, t :: MeetsCause(loop, archives, fanout, s', inputs[1..], o, k, t)
  {
    var s' := StepOf(loop, archives, fanout, s, inputs[0]).state;
    StepEndsIff(loop, archives, fanout, s, inputs[0], o);
    if k: nat, t :| MeetsCause(loop, archives, fanout, s, inputs, o, k, t) {
      assert k > 0 && MeetsCause(loop, archives, fanout, s', inputs[1..], o, k - 1, t);
    }
    if k: nat, t :| MeetsCause(loop, archives, fanout, s', inputs[1..], o, k, t) {
      assert MeetsCause(loop, archives, fanout, s, inputs, o, k + 1, t);
    }
  }

  /** Every way a manifest fetch of either fan-out ends before its archives are exhausted: with a manifest if and only
      if it hears, while it waits, an answer for its root that carries that manifest, from a peer whose pull is still
      out; at its deadline; and at the end of the network, with what its report counts. */
  lemma FetchEndsIff(loop: Loop, archives: seq<Address>, maxConcurrent: nat, peers: map<PeerId, Address>, first: Input,
                     inputs: seq<Input>, o: Outcome)
    requires Distinct(archives) && !o.Waiting? && !o.AllFailed?
    ensures var fanout, s := CapOf(loop, maxConcurrent, archives), FirstState(loop, archives, maxConcurrent, peers,
                                                                              first);
            FetchOf(loop, archives, maxConcurrent, peers, first, inputs).outcome == o
            <==> exists k: nat, t :: MeetsCause(loop, archives, fanout, s, inputs, o, k, t)
  {
    var fanout, s := CapOf(loop, maxConcurrent, archives), FirstState(loop, archives, maxConcurrent, peers, first);
    StartOfOk(loop, archives, maxConcurrent, peers, first);
    FetchRuns(loop, archives, maxConcurrent, peers, first, inputs);
    RunEndsIff(loop, archives, fanout, s, first.addrToPeer, inputs, o);
  }

  // ── When a turn fails an archive ──

  /** A bad answer for the root, or, in the Public loop, a failure of its pull, from a peer last asked as the archive.
      */
  ghost predicate LetsDown(loop: Loop, archives: seq<Address>, s: Fanout, e: Event, a: Address) {
    && ((e.ManifestAnswer? && e.ourRoot && e.manifest.None?) || (loop.Public? && e.PullFailed? && e.ourRoot))
    && PullStillOut(archives, s, e.peer) && LastAsked(e.peer, s.trace) == Some(a)
  }

  /** The turn adds the rejection the event brings, if it brings one, and then only sends. */
  ghost predicate Rejects(loop: Loop, archives: seq<Address>, s: Fanout, e: Event, rejected: seq<Output>) {
    if rejected == [] then forall a :: !LetsDown(loop, archives, s, e, a)
    else |rejected| == 1 && rejected[0].Rejected? && LetsDown(loop, archives, s, e, rejected[0].archive)
  }

  ghost predicate OnlySends(before: seq<Output>, after: seq<Output>) {
    before <= after && forall k | |before| <= k < |after| :: !after[k].Rejected?
  }

  /** Who is rejected in a turn, and for what. */
  lemma StepRejects(loop: Loop, archives: seq<Address>, fanout: nat, s: Fanout, input: Input)
    requires Distinct(archives) && Safe(archives, s)
    ensures exists rejected :: && Rejects(loop, archives, s, input.event, rejected)
                               && OnlySends(s.trace + rejected, StepOf(loop, archives, fanout, s, input).state.trace)
  {
    var e, opening := input.event, Opening(loop, s, input.event);
    if e.ManifestAnswer? || e.PullFailed? {
      AwaitedIffStillOut(archives, s, e.peer);
    }
    StepOpens(loop, archives, fanout, s, input);
    var rejected := if opening.Some? then opening.value.trace[|s.trace|..] else [];
    assert Rejects(loop, archives, s, e, rejected);
    assert s.trace + rejected == if opening.Some? then opening.value.trace else s.trace;
    if opening.Some? {
      var inv := (t: Fanout) => OnlySends(s.trace + rejected, t.trace);
      WaveOfKeeps(loop, inv, archives, fanout, opening.value, input);
    }
  }

  // ── Places are used ──

  /** No identified archive is left untried while there is a place. */
  ghost predicate PlacesUsed(archives: seq<Address>, fanout: nat, s: Fanout) {
    Count(archives, s.status, Dispatched) < fanout ==>
      forall a | a in archives && a in s.status && s.status[a] == Untried :: a !in s.peers.Values
  }

  /** In the Public loop every turn of a run over peers as they are known leaves the places used; in the Private one it
      does while everybody who is known can be sent to. */
  lemma StepUsesPlaces(loop: Loop, archives: seq<Address>, fanout: nat, s: Fanout, input: Input)
    requires Distinct(archives) && LoopOk(archives, fanout, s) && PlacesUsed(archives, fanout, s)
             && Consistent(s, input)
    requires loop.Private? ==> input.addrToPeer.Keys <= input.queues
    ensures PlacesUsed(archives, fanout, StepOf(loop, archives, fanout, s, input).state)
  {
    var opening := Opening(loop, s, input.event);
    StepOpens(loop, archives, fanout, s, input);
    if opening.Some? {
      OpeningCounts(loop, archives, fanout, s, input.event);
      if loop.Private? {
        WavesAgree(loop, archives, fanout, opening.value, input);
      }
      WaveSaturates(archives, fanout, opening.value, input);
      WaveFrame(opening.value, archives, 0, input);
      WaveKeepsPeerMap(archives, fanout, opening.value, input);
    }
  }

  /** So a Public fetch never waits with a place that an identified archive could have; a Private one does not while
      everybody who is known can be sent to. */
  lemma {:induction false} RunUsesPlaces(loop: Loop, archives: seq<Address>, fanout: nat, s: Fanout,
                                         last: map<Address, PeerId>, inputs: seq<Input>)
    requires Distinct(archives) && LoopOk(archives, fanout, s) && PlacesUsed(archives, fanout, s)
    requires ValidRun(loop, archives, fanout, s, inputs) && AllCanBeSentTo(loop, inputs)
    ensures var t := RunOf(loop, archives, fanout, s, last, inputs);
            t.outcome.Waiting? ==> PlacesUsed(archives, fanout, t.state)
    decreases |inputs|
  {
    RunTurns(loop, archives, fanout, s, last, inputs);
    if AnyAlive(archives, s) && inputs != [] {
      var turn := StepOf(loop, archives, fanout, s, inputs[0]);
      StepUsesPlaces(loop, archives, fanout, s, inputs[0]);
      StepOfOk(loop, archives, fanout, s, inputs[0]);
      if turn.outcome.Waiting? {
        RunUsesPlaces(loop, archives, fanout, turn.state, inputs[0].addrToPeer, inputs[1..]);
      }
    }
  }

  predicate AllCanBeSentTo(loop: Loop, inputs: seq<Input>) {
    loop.Private? ==> forall k | 0 <= k < |inputs| :: inputs[k].addrToPeer.Keys <= inputs[k].queues
  }

  lemma FetchUsesPlaces(loop: Loop, archives: seq<Address>, maxConcurrent: nat, peers: map<PeerId, Address>,
                        first: Input, inputs: seq<Input>)
    requires Distinct(archives) && ValidFetch(loop, archives, maxConcurrent, peers, first, inputs)
    requires AllCanBeSentTo(loop, [first] + inputs)
    ensures var t := FetchOf(loop, archives, maxConcurrent, peers, first, inputs);
            t.outcome.Waiting? ==> PlacesUsed(archives, CapOf(loop, maxConcurrent, archives), t.state)
  {
    var fanout, s0 := CapOf(loop, maxConcurrent, archives), Start(archives, peers);
    var s := FirstState(loop, archives, maxConcurrent, peers, first);
    var all := [first] + inputs;
    assert all[0] == first && forall k | 0 <= k < |inputs| :: inputs[k] == all[k + 1];
    StartIsOk(archives, fanout, peers);
    if loop.Private? {
      WavesAgree(loop, archives, fanout, s0, first);
    }
    WaveSaturates(archives, fanout, s0, first);
    WaveKeepsPeerMap(archives, fanout, s0, first);
    StartOfOk(loop, archives, maxConcurrent, peers, first);
    FetchRuns(loop, archives, maxConcurrent, peers, first, inputs);
    RunUsesPlaces(loop, archives, fanout, s, first.addrToPeer, inputs);
  }

  lemma WaveKeepsPeerMap(archives: seq<Address>, fanout: nat, s: Fanout, input: Input)
    ensures Wave(archives, fanout, s, input).peers == s.peers
  {
    var inFlight := Count(archives, s.status, Dispatched);
    WaveFrame(s, archives, if inFlight < fanout then fanout - inFlight else 0, input);
  }

  lemma OpeningCounts(loop: Loop, archives: seq<Address>, fanout: nat, s: Fanout, e: Event)
    requires Distinct(archives) && Count(archives, s.status, Dispatched) <= fanout && Opening(loop, s, e).Some?
    ensures Count(archives, Opening(loop, s, e).value.status, Dispatched) <= fanout
  {
    if e.ManifestAnswer? || e.PullFailed? {
      MoveCounts(archives, s, ToRejected(AwaitedFrom(s, e.peer).value), Dispatched);
    }
  }

  // ── What is known of the peers ──

  function NewsIn(e: Event): PeerNews {
    match e
    case PeerIdentified(p, a) => Identified(p, a)
    case PeerDisconnected(p) => Disconnected(p)
    case _ => NoNews
  }

  function NewsOf(inputs: seq<Input>): seq<PeerNews> {
    seq(|inputs|, i requires 0 <= i < |inputs| => NewsIn(inputs[i].event))
  }

  lemma StepLearns(loop: Loop, archives: seq<Address>, fanout: nat, s: Fanout, input: Input,
                   start: map<PeerId, Address>, news: seq<PeerNews>)
    requires Distinct(archives) && KeepsUp(s.peers, start, news)
    ensures KeepsUp(StepOf(loop, archives, fanout, s, input).state.peers, start, news + [NewsIn(input.event)])
  {
    var opening := Opening(loop, s, input.event);
    StepOpens(loop, archives, fanout, s, input);
    forall p {
      LastIdentityGrows(p, start, news, NewsIn(input.event));
    }
    if opening.Some? {
      var inv := (t: Fanout) => t.peers == opening.value.peers;
      WaveOfKeeps(loop, inv, archives, fanout, opening.value, input);
    }
  }

  /** In every state a run takes an input in, the peers are those last identified and not gone since. */
  lemma {:induction false} TakenKnows(loop: Loop, archives: seq<Address>, fanout: nat, s: Fanout, inputs: seq<Input>,
                                      k: nat, t: Fanout, start: map<PeerId, Address>, news: seq<PeerNews>)
    requires Distinct(archives) && Takes(loop, archives, fanout, s, inputs, k, t) && KeepsUp(s.peers, start, news)
    ensures KeepsUp(t.peers, start, news + NewsOf(inputs[..k]))
    decreases k
  {
    if k == 0 {
      assert news + NewsOf(inputs[..k]) == news;
    } else {
      StepLearns(loop, archives, fanout, s, inputs[0], start, news);
      TakenKnows(loop, archives, fanout, StepOf(loop, archives, fanout, s, inputs[0]).state, inputs[1..], k - 1, t,
                 start,
                 news + [NewsIn(inputs[0].event)]);
      assert news + [NewsIn(inputs[0].event)] + NewsOf(inputs[1..][..k - 1]) == news + NewsOf(inputs[..k]);
    }
  }
}
