/**
 The Private download's manifest fan-out, twin of the Public one: it picks a whole wave before it sends any of it, asks
 at most three archives at once, and does not hear of failed requests.
 */
module PrivateManifest {
  import opened Wrappers
  import opened Identity
  import opened ManifestFanout
  import opened ManifestFanoutSafety

  const MAX_MANIFEST_FANOUT: nat := 3

  datatype Target = Target(archive: Address, peer: PeerId)

  function ComputeManifestFanout(maxConcurrent: nat, assignedSize: nat): (r: nat)
    ensures r <= MAX_MANIFEST_FANOUT && r <= assignedSize
    ensures r == 0 <==> assignedSize == 0
    ensures 1 <= maxConcurrent <= MAX_MANIFEST_FANOUT && maxConcurrent <= assignedSize ==> r == maxConcurrent
  {
    var clamped :=
      if maxConcurrent < 1 then 1
      else if maxConcurrent > MAX_MANIFEST_FANOUT then MAX_MANIFEST_FANOUT
      else maxConcurrent;
    if clamped < assignedSize then clamped else assignedSize
  }

  // ── The wave ──

  predicate Candidate(status: map<Address, Status>, addrToPeer: map<Address, PeerId>, a: Address) {
    a in status && status[a] == Untried && a in addrToPeer
  }

  function SelectFrom(archives: seq<Address>, status: map<Address, Status>, addrToPeer: map<Address, PeerId>,
                      remaining: nat): seq<Target>
  {
    if archives == [] || remaining == 0 then []
    else if Candidate(status, addrToPeer, archives[0]) then
      [Target(archives[0], addrToPeer[archives[0]])] + SelectFrom(archives[1..], status, addrToPeer, remaining - 1)
    else SelectFrom(archives[1..], status, addrToPeer, remaining)
  }

  function SelectManifestDispatch(archives: seq<Address>, status: map<Address, Status>,
                                  addrToPeer: map<Address, PeerId>, fanout: nat): seq<Target>
  {
    var inFlight := Count(archives, status, Dispatched);
    if inFlight >= fanout then [] else SelectFrom(archives, status, addrToPeer, fanout - inFlight)
  }

  function SendOne(s: Fanout, t: Target, queues: set<Address>): Fanout {
    if t.archive in queues then Dispatch(s, t.archive, t.peer) else FailQueueing(s, t.archive)
  }

  function SendTargets(s: Fanout, targets: seq<Target>, queues: set<Address>): Fanout
    decreases |targets|
  {
    if targets == [] then s else SendTargets(SendOne(s, targets[0], queues), targets[1..], queues)
  }

  function PrivateWave(archives: seq<Address>, fanout: nat, s: Fanout, input: Input): Fanout {
    SendTargets(s, SelectManifestDispatch(archives, s.status, input.addrToPeer, fanout), input.queues)
  }

  lemma {:induction false} SelectionIgnores(archives: seq<Address>, status: map<Address, Status>,
                                            addrToPeer: map<Address, PeerId>, remaining: nat, a: Address, st: Status)
    requires a !in archives
    ensures SelectFrom(archives, status[a := st], addrToPeer, remaining)
            == SelectFrom(archives, status, addrToPeer, remaining)
    decreases |archives|
  {
    if archives != [] && remaining > 0 {
      assert archives[0] in archives && forall b | b in archives[1..] :: b in archives;
      SelectionIgnores(archives[1..], status, addrToPeer,
                       if Candidate(status, addrToPeer, archives[0]) then remaining - 1 else remaining, a, st);
    }
  }

  predicate AllQueue(targets: seq<Target>, queues: set<Address>) {
    forall t | t in targets :: t.archive in queues
  }

  /** When every request of the wave can be queued, picking first and sending as one goes are the same. */
  lemma {:induction false} TwinWavesFrom(s: Fanout, archives: seq<Address>, remaining: nat, input: Input)
    requires Distinct(archives) && AllQueue(SelectFrom(archives, s.status, input.addrToPeer, remaining), input.queues)
    ensures SendTargets(s, SelectFrom(archives, s.status, input.addrToPeer, remaining), input.queues)
            == WaveFrom(s, archives, remaining, input)
    decreases |archives|
  {
    if archives != [] && remaining > 0 {
      var a, rest := archives[0], archives[1..];
      assert archives == [a] + rest && a !in rest;
      if Candidate(s.status, input.addrToPeer, a) {
        var targets := SelectFrom(rest, s.status, input.addrToPeer, remaining - 1);
        var all := [Target(a, input.addrToPeer[a])] + targets;
        assert all[0] in all && all[1..] == targets && forall t | t in targets :: t in all;
        SelectionIgnores(rest, s.status, input.addrToPeer, remaining - 1, a, Dispatched);
        TwinWavesFrom(Dispatch(s, a, input.addrToPeer[a]), rest, remaining - 1, input);
      } else {
        TwinWavesFrom(s, rest, remaining, input);
      }
    }
  }

  lemma TwinWaves(archives: seq<Address>, fanout: nat, s: Fanout, input: Input)
    requires Distinct(archives)
    requires AllQueue(SelectManifestDispatch(archives, s.status, input.addrToPeer, fanout), input.queues)
    ensures PrivateWave(archives, fanout, s, input) == Wave(archives, fanout, s, input)
  {
    var inFlight := Count(archives, s.status, Dispatched);
    if inFlight < fanout {
      TwinWavesFrom(s, archives, fanout - inFlight, input);
    }
  }

  // ── A wave is again a sequence of moves ──

  predicate StillUntried(s: Fanout, targets: seq<Target>) {
    && (forall k | 0 <= k < |targets| :: targets[k].archive in s.status && s.status[targets[k].archive] == Untried)
    && (forall k, l | 0 <= k < l < |targets| :: targets[k].archive != targets[l].archive)
  }

  lemma {:induction false} SelectedAreUntried(archives: seq<Address>, s: Fanout, addrToPeer: map<Address, PeerId>,
                                              remaining: nat)
    requires Distinct(archives)
    ensures var targets := SelectFrom(archives, s.status, addrToPeer, remaining);
            && StillUntried(s, targets) && |targets| <= remaining
            && forall k | 0 <= k < |targets| :: targets[k].archive in archives
    decreases |archives|
  {
    if archives != [] && remaining > 0 {
      var rest := archives[1..];
      assert archives == [archives[0]] + rest && archives[0] !in rest;
      SelectedAreUntried(rest, s, addrToPeer,
                         if Candidate(s.status, addrToPeer, archives[0]) then remaining - 1 else remaining);
    }
  }

  predicate LookedUp(targets: seq<Target>, addrToPeer: map<Address, PeerId>) {
    forall k | 0 <= k < |targets| ::
      targets[k].archive in addrToPeer && addrToPeer[targets[k].archive] == targets[k].peer
  }

  lemma {:induction false} SelectedAreLookedUp(archives: seq<Address>, status: map<Address, Status>,
                                               addrToPeer: map<Address, PeerId>, remaining: nat)
    ensures LookedUp(SelectFrom(archives, status, addrToPeer, remaining), addrToPeer)
    decreases |archives|
  {
    if archives != [] && remaining > 0 {
      SelectedAreLookedUp(archives[1..], status, addrToPeer,
                          if Candidate(status, addrToPeer, archives[0]) then remaining - 1 else remaining);
    }
  }

  lemma {:induction false} SendTargetsKeeps(inv: Fanout -> bool, s: Fanout, targets: seq<Target>, input: Input)
    requires inv(s) && StillUntried(s, targets) && LookedUp(targets, input.addrToPeer)
    requires forall t: Fanout, m: Move | inv(t) && Enabled(t, m) && Picks(m, input) :: inv(Apply(t, m))
    ensures inv(SendTargets(s, targets, input.queues))
    decreases |targets|
  {
    if targets != [] {
      var t := targets[0];
      var m := if t.archive in input.queues then ToDispatched(t.archive, t.peer) else ToNotQueued(t.archive);
      assert Enabled(s, m) && Picks(m, input) && Apply(s, m) == SendOne(s, t, input.queues);
      assert forall k | 0 <= k < |targets[1..]| :: targets[1..][k] == targets[k + 1];
      SendTargetsKeeps(inv, Apply(s, m), targets[1..], input);
    }
  }

  /** Whatever every move of a wave keeps, a Private wave keeps too. */
  lemma PrivateWaveKeeps(inv: Fanout -> bool, archives: seq<Address>, fanout: nat, s: Fanout, input: Input)
    requires Distinct(archives) && inv(s)
    requires forall t: Fanout, m: Move | inv(t) && Enabled(t, m) && Picks(m, input) :: inv(Apply(t, m))
    ensures inv(PrivateWave(archives, fanout, s, input))
  {
    var inFlight := Count(archives, s.status, Dispatched);
    if inFlight < fanout {
      SelectedAreUntried(archives, s, input.addrToPeer, fanout - inFlight);
      SelectedAreLookedUp(archives, s.status, input.addrToPeer, fanout - inFlight);
    }
    SendTargetsKeeps(inv, s, SelectManifestDispatch(archives, s.status, input.addrToPeer, fanout), input);
  }

  lemma {:induction false} SendTargetsCounts(all: seq<Address>, s: Fanout, targets: seq<Target>, queues: set<Address>)
    requires Distinct(all) && StillUntried(s, targets)
    ensures Count(all, SendTargets(s, targets, queues).status, Dispatched)
            <= Count(all, s.status, Dispatched) + |targets|
    decreases |targets|
  {
    if targets != [] {
      var t := targets[0];
      var m := if t.archive in queues then ToDispatched(t.archive, t.peer) else ToNotQueued(t.archive);
      assert Enabled(s, m) && Apply(s, m) == SendOne(s, t, queues);
      MoveCounts(all, s, m, Dispatched);
      assert forall k | 0 <= k < |targets[1..]| :: targets[1..][k] == targets[k + 1];
      SendTargetsCounts(all, Apply(s, m), targets[1..], queues);
    }
  }

  /** A target is asked or fails, everyone else stays as they were. */
  lemma {:induction false} SendTargetsFrame(s: Fanout, targets: seq<Target>, queues: set<Address>, a: Address)
    requires StillUntried(s, targets)
    ensures var s' := SendTargets(s, targets, queues);
            && s'.status.Keys == s.status.Keys
            && (a in s.status && Asked(a, targets) ==> s'.status[a] != Untried)
            && (a in s.status && !Asked(a, targets) ==> s'.status[a] == s.status[a])
    decreases |targets|
  {
    if targets != [] {
      var t, rest := targets[0], targets[1..];
      var s1 := SendOne(s, t, queues);
      assert forall k | 0 <= k < |rest| :: rest[k] == targets[k + 1];
      assert StillUntried(s1, rest);
      SendTargetsFrame(s1, rest, queues, a);
      assert Asked(a, targets) <==> a == t.archive || Asked(a, rest);
    }
  }

  predicate Asked(a: Address, targets: seq<Target>) {
    exists k :: 0 <= k < |targets| && targets[k].archive == a
  }

  lemma {:induction false} FailedTargetLeavesRoom(all: seq<Address>, s: Fanout, targets: seq<Target>,
                                                  queues: set<Address>)
    requires Distinct(all) && StillUntried(s, targets) && !AllQueue(targets, queues)
    ensures Count(all, SendTargets(s, targets, queues).status, Dispatched)
            < Count(all, s.status, Dispatched) + |targets|
    decreases |targets|
  {
    var t, rest := targets[0], targets[1..];
    var m := if t.archive in queues then ToDispatched(t.archive, t.peer) else ToNotQueued(t.archive);
    assert Enabled(s, m) && Apply(s, m) == SendOne(s, t, queues);
    MoveCounts(all, s, m, Dispatched);
    assert forall k | 0 <= k < |rest| :: rest[k] == targets[k + 1];
    if t.archive in queues {
      assert targets == [t] + rest;
      FailedTargetLeavesRoom(all, Apply(s, m), rest, queues);
    } else {
      SendTargetsCounts(all, Apply(s, m), rest, queues);
    }
  }

  /** Every untried archive that is identified is among the targets. */
  ghost predicate NobodyLeft(archives: seq<Address>, s: Fanout, addrToPeer: map<Address, PeerId>, targets: seq<Target>)
  {
    forall a | a in archives && Candidate(s.status, addrToPeer, a) :: Asked(a, targets)
  }

  /** The exact condition for a Private wave to use its places well: every request it picked can be queued, or it picked
      everybody there was. Otherwise it leaves a place empty that an identified archive could have. */
  lemma PrivateWaveSaturatesIff(archives: seq<Address>, fanout: nat, s: Fanout, input: Input)
    requires Distinct(archives) && Count(archives, s.status, Dispatched) <= fanout
    ensures var targets := SelectManifestDispatch(archives, s.status, input.addrToPeer, fanout);
            Saturated(archives, fanout, PrivateWave(archives, fanout, s, input), input.addrToPeer)
            <==> AllQueue(targets, input.queues) || NobodyLeft(archives, s, input.addrToPeer, targets)
  {
    var inFlight := Count(archives, s.status, Dispatched);
    var targets := SelectManifestDispatch(archives, s.status, input.addrToPeer, fanout);
    SelectedAreUntried(archives, s, input.addrToPeer, fanout - inFlight);
    SendTargetsCounts(archives, s, targets, input.queues);
    if AllQueue(targets, input.queues) {
      TwinWaves(archives, fanout, s, input);
      WaveSaturates(archives, fanout, s, input);
    } else {
      FailedTargetLeavesRoom(archives, s, targets, input.queues);
      UntriedAfterWave(archives, s, input, targets);
    }
  }

  lemma UntriedAfterWave(archives: seq<Address>, s: Fanout, input: Input, targets: seq<Target>)
    requires StillUntried(s, targets)
    ensures var s' := SendTargets(s, targets, input.queues);
            (forall a | a in archives && a in s'.status && s'.status[a] == Untried :: a !in input.addrToPeer)
            <==> NobodyLeft(archives, s, input.addrToPeer, targets)
  {
    var s' := SendTargets(s, targets, input.queues);
    forall a
      ensures (a in s'.status && s'.status[a] == Untried)
              <==> (a in s.status && s.status[a] == Untried && !Asked(a, targets))
    {
      SendTargetsFrame(s, targets, input.queues, a);
    }
  }

  lemma PrivateWaveOk(archives: seq<Address>, fanout: nat, s: Fanout, input: Input)
    requires Distinct(archives) && LoopOk(archives, fanout, s)
    ensures LoopOk(archives, fanout, PrivateWave(archives, fanout, s, input))
  {
    var inFlight := Count(archives, s.status, Dispatched);
    var targets := SelectManifestDispatch(archives, s.status, input.addrToPeer, fanout);
    SelectedAreUntried(archives, s, input.addrToPeer, fanout - inFlight);
    var inv := (t: Fanout) => Safe(archives, t);
    forall t: Fanout, m: Move | inv(t) && Enabled(t, m) ensures inv(Apply(t, m)) {
      MoveKeepsHistories(archives, t, m);
      MoveKeepsPeers(t, m);
    }
    PrivateWaveKeeps(inv, archives, fanout, s, input);
    SendTargetsCounts(archives, s, targets, input.queues);
  }

  // ── The loop ──

  function PrivateStep(archives: seq<Address>, fanout: nat, s: Fanout, input: Input): Turn {
    match input.event
    case PeerIdentified(p, a) => Turn(PrivateWave(archives, fanout, s.(peers := s.peers[p := a]), input), Waiting)
    case PeerDisconnected(p) => Turn(PrivateWave(archives, fanout, s.(peers := s.peers - {p}), input), Waiting)
    case ManifestAnswer(p, ourRoot, manifest) =>
      if !ourRoot || AwaitedFrom(s, p).None? then Turn(s, Waiting)
      else if manifest.Some? then Turn(s, Accepted(manifest.value))
      else Turn(PrivateWave(archives, fanout, Fail(s, AwaitedFrom(s, p).value), input), Waiting)
    case PullFailed(_, _) => Turn(s, Waiting)
    case DeadlinePassed => Turn(s, DeadlineExceeded(MakeReport(archives, s, input.addrToPeer)))
    case NetworkClosed => Turn(s, ShutDown(MakeReport(archives, s, input.addrToPeer)))
    case Unrelated => Turn(s, Waiting)
  }

  function PrivateRun(archives: seq<Address>, fanout: nat, s: Fanout, last: map<Address, PeerId>, inputs: seq<Input>)
    : Turn
    decreases |inputs|
  {
    if !AnyAlive(archives, s) then Turn(s, AllFailed(MakeReport(archives, s, last)))
    else if inputs == [] then Turn(s, Waiting)
    else
      var t := PrivateStep(archives, fanout, s, inputs[0]);
      if !t.outcome.Waiting? then t else PrivateRun(archives, fanout, t.state, inputs[0].addrToPeer, inputs[1..])
  }

  function FetchManifest(archives: seq<Address>, maxConcurrent: nat, peers: map<PeerId, Address>, first: Input,
                         inputs: seq<Input>): Turn
  {
    var fanout := ComputeManifestFanout(maxConcurrent, |archives|);
    PrivateRun(archives, fanout, PrivateWave(archives, fanout, Start(archives, peers), first), first.addrToPeer, inputs)
  }

  lemma FailKeepsLoop(archives: seq<Address>, fanout: nat, s: Fanout, a: Address)
    requires Distinct(archives) && LoopOk(archives, fanout, s) && a in s.status && s.status[a] == Dispatched
    ensures LoopOk(archives, fanout, Fail(s, a))
  {
    var m := ToRejected(a);
    MoveKeepsHistories(archives, s, m);
    MoveKeepsPeers(s, m);
    MoveCounts(archives, s, m, Dispatched);
  }

  lemma PrivateStepOk(archives: seq<Address>, fanout: nat, s: Fanout, input: Input)
    requires Distinct(archives) && LoopOk(archives, fanout, s)
    ensures LoopOk(archives, fanout, PrivateStep(archives, fanout, s, input).state)
  {
    match input.event
    case PeerIdentified(p, a) => PrivateWaveOk(archives, fanout, s.(peers := s.peers[p := a]), input);
    case PeerDisconnected(p) => PrivateWaveOk(archives, fanout, s.(peers := s.peers - {p}), input);
    case ManifestAnswer(p, _, _) =>
      if AwaitedFrom(s, p).Some? {
        FailKeepsLoop(archives, fanout, s, AwaitedFrom(s, p).value);
        PrivateWaveOk(archives, fanout, Fail(s, AwaitedFrom(s, p).value), input);
      }
    case _ =>
  }

  lemma PrivateEndingOk(archives: seq<Address>, fanout: nat, s: Fanout, input: Input)
    requires Distinct(archives) && LoopOk(archives, fanout, s) && AnyAlive(archives, s)
    requires !PrivateStep(archives, fanout, s, input).outcome.Waiting?
    ensures OutcomeOk(archives, fanout, PrivateStep(archives, fanout, s, input))
  {
    EndsAsThePublicLoop(archives, fanout, s, input);
    EndingOk(archives, fanout, s, input);
  }

  lemma EndsAsThePublicLoop(archives: seq<Address>, fanout: nat, s: Fanout, input: Input)
    requires !PrivateStep(archives, fanout, s, input).outcome.Waiting?
    ensures PrivateStep(archives, fanout, s, input) == Step(archives, fanout, s, input)
  {
  }

  lemma {:induction false} PrivateRunOk(archives: seq<Address>, fanout: nat, s: Fanout, last: map<Address, PeerId>,
                                        inputs: seq<Input>)
    requires Distinct(archives) && LoopOk(archives, fanout, s)
    ensures OutcomeOk(archives, fanout, PrivateRun(archives, fanout, s, last, inputs))
    decreases |inputs|
  {
    TestedOk(archives, fanout, s, last);
    if AnyAlive(archives, s) && inputs != [] {
      var t := PrivateStep(archives, fanout, s, inputs[0]);
      if !t.outcome.Waiting? {
        PrivateEndingOk(archives, fanout, s, inputs[0]);
      } else {
        PrivateStepOk(archives, fanout, s, inputs[0]);
        PrivateRunOk(archives, fanout, t.state, inputs[0].addrToPeer, inputs[1..]);
      }
    }
  }

  lemma AtMostThreeOut(archives: seq<Address>, fanout: nat, r: Turn)
    requires OutcomeOk(archives, fanout, r) && fanout <= MAX_MANIFEST_FANOUT
    ensures Count(archives, r.state.status, Dispatched) <= MAX_MANIFEST_FANOUT
  {
  }

  /** Every Private manifest fetch keeps what the Public one keeps, at most three pulls out at a time. */
  lemma EveryPrivateManifestFetchIsSafe(archives: seq<Address>, maxConcurrent: nat, peers: map<PeerId, Address>,
                                        first: Input, inputs: seq<Input>)
    requires Distinct(archives)
    ensures var r := FetchManifest(archives, maxConcurrent, peers, first, inputs);
            && OutcomeOk(archives, ComputeManifestFanout(maxConcurrent, |archives|), r)
            && Count(archives, r.state.status, Dispatched) <= MAX_MANIFEST_FANOUT
  {
    var fanout, s := ComputeManifestFanout(maxConcurrent, |archives|), Start(archives, peers);
    StartIsOk(archives, fanout, peers);
    PrivateWaveOk(archives, fanout, s, first);
    PrivateRunOk(archives, fanout, PrivateWave(archives, fanout, s, first), first.addrToPeer, inputs);
    AtMostThreeOut(archives, fanout, FetchManifest(archives, maxConcurrent, peers, first, inputs));
  }

  // ── As it runs ──

  method SelectTargets(archives: seq<Address>, status: map<Address, Status>, addrToPeer: map<Address, PeerId>,
                       fanout: nat)
    returns (out: seq<Target>)
    ensures out == SelectManifestDispatch(archives, status, addrToPeer, fanout)
  {
    var inFlight := Count(archives, status, Dispatched);
    if inFlight >= fanout {
      return [];
    }
    ghost var goal := SelectFrom(archives, status, addrToPeer, fanout - inFlight);
    var remaining: nat, i: nat := fanout - inFlight, 0;
    out := [];
    assert archives[i..] == archives;
    while i < |archives| && remaining > 0
      invariant i <= |archives|
      invariant out + SelectFrom(archives[i..], status, addrToPeer, remaining) == goal
    {
      assert archives[i..][0] == archives[i] && archives[i..][1..] == archives[i + 1..];
      if Candidate(status, addrToPeer, archives[i]) {
        out := out + [Target(archives[i], addrToPeer[archives[i]])];
        remaining := remaining - 1;
      }
      i := i + 1;
    }
  }
}
