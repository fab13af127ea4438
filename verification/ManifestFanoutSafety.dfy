/**
 What the manifest fan-out keeps over every run, and when a request that is out can still be answered.
 */
module ManifestFanoutSafety {
  import opened Wrappers
  import opened Identity
  import opened ManifestFanout

  ghost predicate Distinct(archives: seq<Address>) {
    forall i, j :: 0 <= i < j < |archives| ==> archives[i] != archives[j]
  }

  // ── The history of one archive ──

  function Project(a: Address, trace: seq<Output>): seq<Output> {
    if trace == [] then []
    else
      var rest, o := Project(a, trace[..|trace| - 1]), trace[|trace| - 1];
      if o.archive == a then rest + [o] else rest
  }

  /** An archive's status is its whole history: nothing, one pull, or a failure to queue, or one pull and its rejection.
      So it is sent at most one pull and never goes back. */
  ghost predicate StatusIsHistory(a: Address, status: Status, trace: seq<Output>) {
    var h := Project(a, trace);
    match status
    case Untried => h == []
    case Dispatched => |h| == 1 && h[0].Pull?
    case Failed => (|h| == 1 && h[0].NotQueued?) || (|h| == 2 && h[0].Pull? && h[1].Rejected?)
  }

  lemma TraceGrows(a: Address, trace: seq<Output>, o: Output)
    ensures Project(a, trace + [o]) == if o.archive == a then Project(a, trace) + [o] else Project(a, trace)
  {
    assert (trace + [o])[..|trace|] == trace;
  }

  /** The archive a peer was last asked as. */
  function LastAsked(p: PeerId, trace: seq<Output>): Option<Address> {
    if trace == [] then None
    else
      var o := trace[|trace| - 1];
      if o.Pull? && o.peer == p then Some(o.archive) else LastAsked(p, trace[..|trace| - 1])
  }

  lemma LastAskedGrows(p: PeerId, trace: seq<Output>, o: Output)
    ensures LastAsked(p, trace + [o]) == if o.Pull? && o.peer == p then Some(o.archive) else LastAsked(p, trace)
  {
    assert (trace + [o])[..|trace|] == trace;
  }

  ghost predicate HistoriesOk(archives: seq<Address>, s: Fanout) {
    && (forall a :: a in s.status <==> a in archives)
    && (forall a | a in s.status :: StatusIsHistory(a, s.status[a], s.trace))
  }

  ghost predicate PeersOk(s: Fanout) {
    forall p :: (if p in s.dispatchedPeers then Some(s.dispatchedPeers[p]) else None) == LastAsked(p, s.trace)
  }

  ghost predicate Safe(archives: seq<Address>, s: Fanout) {
    HistoriesOk(archives, s) && PeersOk(s)
  }

  // ── Moves ──

  /** The three ways a status changes. */
  datatype Move = ToDispatched(a: Address, p: PeerId) | ToNotQueued(a: Address) | ToRejected(a: Address)

  function Apply(s: Fanout, m: Move): Fanout {
    match m
    case ToDispatched(a, p) => Dispatch(s, a, p)
    case ToNotQueued(a) => FailQueueing(s, a)
    case ToRejected(a) => Fail(s, a)
  }

  predicate Enabled(s: Fanout, m: Move) {
    m.a in s.status && s.status[m.a] == if m.ToRejected? then Dispatched else Untried
  }

  function OutputOf(m: Move): Output {
    match m
    case ToDispatched(a, p) => Pull(a, p)
    case ToNotQueued(a) => NotQueued(a)
    case ToRejected(a) => Rejected(a)
  }

  lemma MoveKeepsHistories(archives: seq<Address>, s: Fanout, m: Move)
    requires HistoriesOk(archives, s) && Enabled(s, m)
    ensures HistoriesOk(archives, Apply(s, m))
  {
    var s' := Apply(s, m);
    forall a | a in s'.status ensures StatusIsHistory(a, s'.status[a], s'.trace) {
      TraceGrows(a, s.trace, OutputOf(m));
      assert StatusIsHistory(a, s.status[a], s.trace);
    }
  }

  lemma MoveKeepsPeers(s: Fanout, m: Move)
    requires PeersOk(s)
    ensures PeersOk(Apply(s, m))
  {
    forall p
      ensures LastAsked(p, Apply(s, m).trace)
              == if m.ToDispatched? && m.p == p then Some(m.a) else LastAsked(p, s.trace)
    {
      LastAskedGrows(p, s.trace, OutputOf(m));
    }
  }

  lemma {:induction false} UntouchedCounts(archives: seq<Address>, status: map<Address, Status>, a: Address, to: Status,
                                           st: Status)
    requires a !in archives
    ensures Count(archives, status[a := to], st) == Count(archives, status, st)
  {
    if archives != [] {
      UntouchedCounts(archives[..|archives| - 1], status, a, to, st);
      assert archives[|archives| - 1] in archives;
    }
  }

  lemma {:induction false} UpdateCounts(archives: seq<Address>, status: map<Address, Status>, i: nat, to: Status,
                                        st: Status)
    requires Distinct(archives) && i < |archives| && archives[i] in status
    ensures Count(archives, status[archives[i] := to], st)
            == Count(archives, status, st) + (if to == st then 1 else 0) - (if status[archives[i]] == st then 1 else 0)
  {
    var n := |archives| - 1;
    if i == n {
      assert archives[n] !in archives[..n];
      UntouchedCounts(archives[..n], status, archives[n], to, st);
    } else {
      UpdateCounts(archives[..n], status, i, to, st);
    }
  }

  lemma MoveCounts(archives: seq<Address>, s: Fanout, m: Move, st: Status)
    requires Distinct(archives) && Enabled(s, m)
    ensures Count(archives, Apply(s, m).status, st)
            == Count(archives, s.status, st)
               + (if m.a in archives && Apply(s, m).status[m.a] == st then 1 else 0)
               - (if m.a in archives && s.status[m.a] == st then 1 else 0)
  {
    var to := if m.ToDispatched? then Dispatched else Failed;
    if m.a in archives {
      var i :| 0 <= i < |archives| && archives[i] == m.a;
      UpdateCounts(archives, s.status, i, to, st);
    } else {
      UntouchedCounts(archives, s.status, m.a, to, st);
    }
  }

  // ── A wave is a sequence of moves ──

  /** A wave asks the peer it looked up, or fails an archive whose request cannot be queued. */
  predicate Picks(m: Move, input: Input) {
    && m.a in input.addrToPeer
    && match m
       case ToDispatched(a, p) => input.addrToPeer[a] == p && a in input.queues
       case ToNotQueued(a) => a !in input.queues
       case ToRejected(_) => false
  }

  /** Whatever every move of a wave keeps, the wave keeps. */
  lemma {:induction false} WaveKeeps(inv: Fanout -> bool, s: Fanout, archives: seq<Address>, remaining: nat,
                                     input: Input)
    requires inv(s)
    requires forall t: Fanout, m: Move | inv(t) && Enabled(t, m) && Picks(m, input) :: inv(Apply(t, m))
    ensures inv(WaveFrom(s, archives, remaining, input))
    decreases |archives|
  {
    if archives != [] && remaining > 0 {
      var a := archives[0];
      if a in s.status && s.status[a] == Untried && a in input.addrToPeer {
        if a in input.queues {
          assert Apply(s, ToDispatched(a, input.addrToPeer[a])) == Dispatch(s, a, input.addrToPeer[a]);
          assert Enabled(s, ToDispatched(a, input.addrToPeer[a]));
          WaveKeeps(inv, Dispatch(s, a, input.addrToPeer[a]), archives[1..], remaining - 1, input);
        } else {
          assert Apply(s, ToNotQueued(a)) == FailQueueing(s, a);
          assert Enabled(s, ToNotQueued(a));
          WaveKeeps(inv, FailQueueing(s, a), archives[1..], remaining, input);
        }
      } else {
        WaveKeeps(inv, s, archives[1..], remaining, input);
      }
    }
  }

  lemma WaveKeepsSafe(archives: seq<Address>, fanout: nat, s: Fanout, input: Input)
    requires Safe(archives, s)
    ensures Safe(archives, Wave(archives, fanout, s, input))
  {
    var inv := (t: Fanout) => Safe(archives, t);
    forall t: Fanout, m: Move | inv(t) && Enabled(t, m) ensures inv(Apply(t, m)) {
      MoveKeepsHistories(archives, t, m);
      MoveKeepsPeers(t, m);
    }
    var inFlight := Count(archives, s.status, Dispatched);
    WaveKeeps(inv, s, archives, if inFlight < fanout then fanout - inFlight else 0, input);
  }

  /** A wave touches only the archives it walks. */
  lemma {:induction false} WaveFrame(s: Fanout, archives: seq<Address>, remaining: nat, input: Input)
    ensures var s' := WaveFrom(s, archives, remaining, input);
            && s'.peers == s.peers && s'.status.Keys == s.status.Keys
            && forall a | a in s.status && a !in archives :: s'.status[a] == s.status[a]
    decreases |archives|
  {
    if archives != [] && remaining > 0 {
      var a, rest := archives[0], archives[1..];
      assert archives == [a] + rest;
      if a in s.status && s.status[a] == Untried && a in input.addrToPeer {
        if a in input.queues {
          WaveFrame(Dispatch(s, a, input.addrToPeer[a]), rest, remaining - 1, input);
        } else {
          WaveFrame(FailQueueing(s, a), rest, remaining, input);
        }
      } else {
        WaveFrame(s, rest, remaining, input);
      }
    }
  }

  /** A wave uses up no more than the room it has, and leaves room only when every untried archive it walked is
      unidentified. */
  ghost predicate Filled(all: seq<Address>, before: Fanout, after: Fanout, archives: seq<Address>, remaining: nat,
                         input: Input)
  {
    && Count(all, after.status, Dispatched) <= Count(all, before.status, Dispatched) + remaining
    && (Count(all, after.status, Dispatched) < Count(all, before.status, Dispatched) + remaining ==>
          forall a | a in archives && a in after.status && after.status[a] == Untried :: a !in input.addrToPeer)
  }

  lemma {:induction false} WaveFills(all: seq<Address>, s: Fanout, archives: seq<Address>, remaining: nat, input: Input)
    requires Distinct(all) && Distinct(archives) && forall a | a in archives :: a in all
    ensures Filled(all, s, WaveFrom(s, archives, remaining, input), archives, remaining, input)
    decreases |archives|
  {
    if archives != [] && remaining > 0 {
      var a, rest := archives[0], archives[1..];
      assert archives == [a] + rest && a !in rest;
      if a in s.status && s.status[a] == Untried && a in input.addrToPeer {
        var m := if a in input.queues then ToDispatched(a, input.addrToPeer[a]) else ToNotQueued(a);
        var left := if a in input.queues then remaining - 1 else remaining;
        MoveCounts(all, s, m, Dispatched);
        WaveFills(all, Apply(s, m), rest, left, input);
        WaveFrame(Apply(s, m), rest, left, input);
      } else {
        WaveFills(all, s, rest, remaining, input);
        WaveFrame(s, rest, remaining, input);
      }
    }
  }

  /** The cap is respected, and it is full unless no untried archive is identified. */
  ghost predicate Saturated(archives: seq<Address>, fanout: nat, s: Fanout, addrToPeer: map<Address, PeerId>) {
    && Count(archives, s.status, Dispatched) <= fanout
    && (Count(archives, s.status, Dispatched) < fanout ==>
          forall a | a in archives && a in s.status && s.status[a] == Untried :: a !in addrToPeer)
  }

  lemma WaveSaturates(archives: seq<Address>, fanout: nat, s: Fanout, input: Input)
    requires Distinct(archives) && Count(archives, s.status, Dispatched) <= fanout
    ensures Saturated(archives, fanout, Wave(archives, fanout, s, input), input.addrToPeer)
  {
    WaveFills(archives, s, archives, fanout - Count(archives, s.status, Dispatched), input);
  }

  // ── Turns and runs ──

  ghost predicate LoopOk(archives: seq<Address>, fanout: nat, s: Fanout) {
    Safe(archives, s) && Count(archives, s.status, Dispatched) <= fanout
  }

  lemma WaveOk(archives: seq<Address>, fanout: nat, s: Fanout, input: Input)
    requires Distinct(archives) && LoopOk(archives, fanout, s)
    ensures LoopOk(archives, fanout, Wave(archives, fanout, s, input))
  {
    WaveKeepsSafe(archives, fanout, s, input);
    WaveSaturates(archives, fanout, s, input);
  }

  lemma FailOk(archives: seq<Address>, fanout: nat, s: Fanout, a: Address, input: Input)
    requires Distinct(archives) && LoopOk(archives, fanout, s) && a in s.status && s.status[a] == Dispatched
    ensures LoopOk(archives, fanout, Wave(archives, fanout, Fail(s, a), input))
  {
    var m := ToRejected(a);
    MoveKeepsHistories(archives, s, m);
    MoveKeepsPeers(s, m);
    MoveCounts(archives, s, m, Dispatched);
    WaveOk(archives, fanout, Fail(s, a), input);
  }

  lemma StepOk(archives: seq<Address>, fanout: nat, s: Fanout, input: Input)
    requires Distinct(archives) && LoopOk(archives, fanout, s)
    ensures LoopOk(archives, fanout, Step(archives, fanout, s, input).state)
  {
    match input.event
    case PeerIdentified(p, a) => WaveOk(archives, fanout, s.(peers := s.peers[p := a]), input);
    case PeerDisconnected(p) => WaveOk(archives, fanout, s.(peers := s.peers - {p}), input);
    case ManifestAnswer(p, _, _) =>
      if AwaitedFrom(s, p).Some? {
        FailOk(archives, fanout, s, AwaitedFrom(s, p).value, input);
      }
    case PullFailed(p, _) =>
      if AwaitedFrom(s, p).Some? {
        FailOk(archives, fanout, s, AwaitedFrom(s, p).value, input);
      }
    case _ =>
  }

  /** Statuses only move forward. */
  function Rank(st: Status): nat {
    match st case Untried => 0 case Dispatched => 1 case Failed => 2
  }

  lemma StepMovesForward(archives: seq<Address>, fanout: nat, s: Fanout, input: Input)
    ensures var s' := Step(archives, fanout, s, input).state;
            forall a | a in s.status :: a in s'.status && Rank(s.status[a]) <= Rank(s'.status[a])
  {
    var inv := (t: Fanout) => forall a | a in s.status :: a in t.status && Rank(s.status[a]) <= Rank(t.status[a]);
    forall t: Fanout | inv(t) ensures inv(Wave(archives, fanout, t, input)) {
      var inFlight := Count(archives, t.status, Dispatched);
      WaveKeeps(inv, t, archives, if inFlight < fanout then fanout - inFlight else 0, input);
    }
    match input.event
    case PeerIdentified(p, a) => assert inv(s.(peers := s.peers[p := a]));
    case PeerDisconnected(p) => assert inv(s.(peers := s.peers - {p}));
    case ManifestAnswer(p, _, _) => assert AwaitedFrom(s, p).Some? ==> inv(Fail(s, AwaitedFrom(s, p).value));
    case PullFailed(p, _) => assert AwaitedFrom(s, p).Some? ==> inv(Fail(s, AwaitedFrom(s, p).value));
    case _ =>
  }

  /** The peer was last asked as an assigned archive whose one pull is still out. */
  ghost predicate PullStillOut(archives: seq<Address>, s: Fanout, p: PeerId) {
    var a := LastAsked(p, s.trace);
    && a.Some? && a.value in archives
    && a.value in s.status && s.status[a.value] == Dispatched
    && |Project(a.value, s.trace)| == 1
  }

  /** A manifest is accepted only from a peer whose one pull, as the archive it was last asked as, is still out. */
  lemma AcceptedWasAsked(archives: seq<Address>, fanout: nat, s: Fanout, input: Input)
    requires Safe(archives, s) && Step(archives, fanout, s, input).outcome.Accepted?
    ensures Step(archives, fanout, s, input).state == s
    ensures Accepts(input.event, Step(archives, fanout, s, input).outcome.manifest)
    ensures PullStillOut(archives, s, input.event.peer)
  {
    assert LastAsked(input.event.peer, s.trace) == AwaitedFrom(s, input.event.peer);
    assert StatusIsHistory(AwaitedFrom(s, input.event.peer).value, Dispatched, s.trace);
  }

  predicate Accepts(e: Event, manifest: Manifest) {
    e.ManifestAnswer? && e.ourRoot && e.manifest == Some(manifest)
  }

  lemma AcceptedRunMoves(archives: seq<Address>, fanout: nat, s: Fanout, last: map<Address, PeerId>, inputs: seq<Input>)
    requires Run(archives, fanout, s, last, inputs).outcome.Accepted?
    ensures inputs != []
    ensures var t := Step(archives, fanout, s, inputs[0]);
            Run(archives, fanout, s, last, inputs)
            == if t.outcome.Waiting? then Run(archives, fanout, t.state, inputs[0].addrToPeer, inputs[1..]) else t
  {
  }

  /** The answer of the run that carried the manifest. */
  ghost predicate CarriedIt(archives: seq<Address>, t: Turn, inputs: seq<Input>, k: int) {
    && t.outcome.Accepted? && 0 <= k < |inputs|
    && Accepts(inputs[k].event, t.outcome.manifest) && PullStillOut(archives, t.state, inputs[k].event.peer)
  }

  /** The turn that accepted, and the state it met, of which everything holds that every turn keeps. */
  lemma {:induction false} AcceptingTurn(inv: Fanout -> bool, archives: seq<Address>, fanout: nat, s: Fanout,
                                         last: map<Address, PeerId>, inputs: seq<Input>)
    returns (k: nat, met: Fanout)
    requires inv(s) && forall t: Fanout, input: Input | inv(t) :: inv(Step(archives, fanout, t, input).state)
    requires Run(archives, fanout, s, last, inputs).outcome.Accepted?
    ensures k < |inputs| && inv(met)
    ensures Run(archives, fanout, s, last, inputs) == Step(archives, fanout, met, inputs[k])
    decreases |inputs|
  {
    AcceptedRunMoves(archives, fanout, s, last, inputs);
    var t := Step(archives, fanout, s, inputs[0]);
    if t.outcome.Waiting? {
      k, met := AcceptingTurn(inv, archives, fanout, t.state, inputs[0].addrToPeer, inputs[1..]);
      k := k + 1;
    } else {
      k, met := 0, s;
    }
  }

  lemma AcceptedOverRun(archives: seq<Address>, fanout: nat, s: Fanout, last: map<Address, PeerId>,
                        inputs: seq<Input>) returns (k: nat)
    requires Distinct(archives) && LoopOk(archives, fanout, s)
    requires Run(archives, fanout, s, last, inputs).outcome.Accepted?
    ensures CarriedIt(archives, Run(archives, fanout, s, last, inputs), inputs, k)
  {
    var inv := (t: Fanout) => LoopOk(archives, fanout, t);
    forall t: Fanout, input: Input | inv(t) ensures inv(Step(archives, fanout, t, input).state) {
      StepOk(archives, fanout, t, input);
    }
    var met: Fanout;
    k, met := AcceptingTurn(inv, archives, fanout, s, last, inputs);
    AcceptedWasAsked(archives, fanout, met, inputs[k]);
  }

  /** Over every fetch: a manifest it returns was carried by an answer for its root, from a peer whose one pull, as the
      archive it was last asked as, was still out. */
  lemma EveryAcceptedManifestWasAsked(archives: seq<Address>, maxConcurrent: nat, peers: map<PeerId, Address>,
                                      first: Input, inputs: seq<Input>)
    requires Distinct(archives) && Fetch(archives, maxConcurrent, peers, first, inputs).outcome.Accepted?
    ensures exists k :: CarriedIt(archives, Fetch(archives, maxConcurrent, peers, first, inputs), inputs, k)
  {
    var fanout, s := FanoutCap(maxConcurrent, archives), Start(archives, peers);
    StartIsOk(archives, fanout, peers);
    WaveOk(archives, fanout, s, first);
    var k := AcceptedOverRun(archives, fanout, Wave(archives, fanout, s, first), first.addrToPeer, inputs);
  }

  /** What an outcome has established. The fetch gives up before its deadline if and only if every archive has failed,
      its report then says that all were tried, and in every report the archives split into resolvable and
      unresolvable. */
  ghost predicate OutcomeOk(archives: seq<Address>, fanout: nat, t: Turn) {
    && LoopOk(archives, fanout, t.state)
    && (t.outcome.AllFailed? <==> forall a | a in archives :: t.state.status[a] == Failed)
    && (t.outcome.AllFailed? ==> t.outcome.report.tried == |archives|)
    && (t.outcome.AllFailed? || t.outcome.DeadlineExceeded? || t.outcome.ShutDown? ==>
          t.outcome.report.resolvable + t.outcome.report.unresolvable == |archives|)
    && (t.outcome.Accepted? ==> exists p :: PullStillOut(archives, t.state, p))
  }

  lemma {:induction false} NoneCounted(archives: seq<Address>, status: map<Address, Status>, st: Status)
    requires forall a | a in archives && a in status :: status[a] != st
    ensures Count(archives, status, st) == 0
  {
    if archives != [] {
      assert archives == archives[..|archives| - 1] + [archives[|archives| - 1]];
      NoneCounted(archives[..|archives| - 1], status, st);
    }
  }

  lemma TestedOk(archives: seq<Address>, fanout: nat, s: Fanout, last: map<Address, PeerId>)
    requires LoopOk(archives, fanout, s)
    ensures var o := if AnyAlive(archives, s) then Waiting else AllFailed(MakeReport(archives, s, last));
            OutcomeOk(archives, fanout, Turn(s, o))
  {
    if AnyAlive(archives, s) {
      var i :| 0 <= i < |archives| && archives[i] in s.status && s.status[archives[i]] != Failed;
      assert archives[i] in archives;
    } else {
      forall a | a in archives ensures a in s.status && s.status[a] == Failed {
        var i :| 0 <= i < |archives| && archives[i] == a;
      }
      NoneCounted(archives, s.status, Untried);
    }
  }

  /** A fetch told to stop while an archive is alive. */
  lemma StoppedOk(archives: seq<Address>, fanout: nat, s: Fanout, input: Input, o: Outcome)
    requires LoopOk(archives, fanout, s) && AnyAlive(archives, s)
    requires var report := MakeReport(archives, s, input.addrToPeer);
             o == DeadlineExceeded(report) || o == ShutDown(report)
    ensures OutcomeOk(archives, fanout, Turn(s, o))
  {
    var i :| 0 <= i < |archives| && archives[i] in s.status && s.status[archives[i]] != Failed;
    assert archives[i] in archives;
  }

  lemma AcceptedOk(archives: seq<Address>, fanout: nat, s: Fanout, manifest: Manifest, p: PeerId)
    requires LoopOk(archives, fanout, s) && AnyAlive(archives, s) && PullStillOut(archives, s, p)
    ensures OutcomeOk(archives, fanout, Turn(s, Accepted(manifest)))
  {
    var i :| 0 <= i < |archives| && archives[i] in s.status && s.status[archives[i]] != Failed;
    assert archives[i] in archives;
  }

  lemma HowTurnsEnd(archives: seq<Address>, fanout: nat, s: Fanout, input: Input)
    requires !Step(archives, fanout, s, input).outcome.Waiting?
    ensures var t := Step(archives, fanout, s, input);
            var report := MakeReport(archives, s, input.addrToPeer);
            t == Turn(s, DeadlineExceeded(report)) || t == Turn(s, ShutDown(report))
            || (t.outcome.Accepted? && t == Turn(s, Accepted(t.outcome.manifest)))
  {
  }

  /** A turn that ends the loop. */
  lemma EndingOk(archives: seq<Address>, fanout: nat, s: Fanout, input: Input)
    requires Distinct(archives) && LoopOk(archives, fanout, s) && AnyAlive(archives, s)
    requires !Step(archives, fanout, s, input).outcome.Waiting?
    ensures OutcomeOk(archives, fanout, Step(archives, fanout, s, input))
  {
    HowTurnsEnd(archives, fanout, s, input);
    var t := Step(archives, fanout, s, input);
    if t.outcome.Accepted? {
      AcceptedWasAsked(archives, fanout, s, input);
      AcceptedOk(archives, fanout, s, t.outcome.manifest, input.event.peer);
    } else {
      StoppedOk(archives, fanout, s, input, t.outcome);
    }
  }

  lemma {:induction false} RunOk(archives: seq<Address>, fanout: nat, s: Fanout, last: map<Address, PeerId>,
                                 inputs: seq<Input>)
    requires Distinct(archives) && LoopOk(archives, fanout, s)
    ensures OutcomeOk(archives, fanout, Run(archives, fanout, s, last, inputs))
    decreases |inputs|
  {
    TestedOk(archives, fanout, s, last);
    if AnyAlive(archives, s) && inputs != [] {
      var t := Step(archives, fanout, s, inputs[0]);
      if !t.outcome.Waiting? {
        EndingOk(archives, fanout, s, inputs[0]);
      } else {
        StepOk(archives, fanout, s, inputs[0]);
        RunOk(archives, fanout, t.state, inputs[0].addrToPeer, inputs[1..]);
      }
    }
  }

  lemma StartIsOk(archives: seq<Address>, fanout: nat, peers: map<PeerId, Address>)
    ensures LoopOk(archives, fanout, Start(archives, peers))
  {
    NoneCounted(archives, Start(archives, peers).status, Dispatched);
  }

  /** Every manifest fetch, under every sequence of events. */
  lemma EveryFetchIsSafe(archives: seq<Address>, maxConcurrent: nat, peers: map<PeerId, Address>, first: Input,
                         inputs: seq<Input>)
    requires Distinct(archives)
    ensures OutcomeOk(archives, FanoutCap(maxConcurrent, archives),
                      Fetch(archives, maxConcurrent, peers, first, inputs))
  {
    var fanout, s := FanoutCap(maxConcurrent, archives), Start(archives, peers);
    StartIsOk(archives, fanout, peers);
    WaveOk(archives, fanout, s, first);
    RunOk(archives, fanout, Wave(archives, fanout, s, first), first.addrToPeer, inputs);
  }
}
