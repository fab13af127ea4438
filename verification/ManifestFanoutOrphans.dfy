/**
 Manifest pulls that no event can settle any more, in either fan-out: how they come about, when they cannot, and when a
 fetch can still find all its archives failed.
 */
module ManifestFanoutOrphans {
  import opened Wrappers
  import opened Identity
  import opened ManifestFanout
  import opened ManifestFanoutSafety
  import opened PrivateManifest
  import opened ManifestLoops

  /** The archive's pull is out, and every peer that is down as last asked as it is silent. */
  ghost predicate Stuck(s: Fanout, a: Address, silent: set<PeerId>) {
    && a in s.status && s.status[a] == Dispatched
    && forall p | p in s.dispatchedPeers && s.dispatchedPeers[p] == a :: p in silent
  }

  ghost predicate NoneStuck(s: Fanout, silent: set<PeerId>) {
    forall a :: !Stuck(s, a, silent)
  }

  /** The archive's pull is out, and no peer is down as last asked as it. */
  ghost predicate Orphaned(s: Fanout, a: Address) {
    Stuck(s, a, {})
  }

  ghost predicate NoOrphans(s: Fanout) {
    NoneStuck(s, {})
  }

  /** A silent peer says nothing that its request waits for; the Private loop would not hear of a failure either. */
  predicate BreaksSilence(loop: Loop, silent: set<PeerId>, e: Event) {
    && (e.ManifestAnswer? || (loop.Public? && e.PullFailed?))
    && e.peer in silent
  }

  predicate KeepSilent(loop: Loop, silent: set<PeerId>, inputs: seq<Input>) {
    forall k | 0 <= k < |inputs| :: !BreaksSilence(loop, silent, inputs[k].event)
  }

  // ── What it means ──

  lemma StuckStays(loop: Loop, silent: set<PeerId>, archives: seq<Address>, fanout: nat, s: Fanout, a: Address,
                   input: Input)
    requires Distinct(archives) && Stuck(s, a, silent) && !BreaksSilence(loop, silent, input.event)
    ensures Stuck(StepOf(loop, archives, fanout, s, input).state, a, silent)
  {
    var inv := (t: Fanout) => Stuck(t, a, silent);
    StepOfKeeps(loop, inv, archives, fanout, s, input);
  }

  /** Over whole runs: while the silent peers keep silent, such a pull holds its place to the end, and the fetch cannot
      report its archives exhausted. */
  lemma {:induction false} StuckPullsStay(loop: Loop, silent: set<PeerId>, archives: seq<Address>, fanout: nat,
                                          s: Fanout, last: map<Address, PeerId>, inputs: seq<Input>, a: Address)
    requires Distinct(archives) && Stuck(s, a, silent) && a in archives && KeepSilent(loop, silent, inputs)
    ensures Stuck(RunOf(loop, archives, fanout, s, last, inputs).state, a, silent)
    ensures !RunOf(loop, archives, fanout, s, last, inputs).outcome.AllFailed?
    decreases |inputs|
  {
    var i :| 0 <= i < |archives| && archives[i] == a;
    assert AnyAlive(archives, s);
    RunTurns(loop, archives, fanout, s, last, inputs);
    if inputs != [] {
      StuckStays(loop, silent, archives, fanout, s, a, inputs[0]);
      StepOpens(loop, archives, fanout, s, inputs[0]);
      var t := StepOf(loop, archives, fanout, s, inputs[0]);
      if t.outcome.Waiting? {
        StuckPullsStay(loop, silent, archives, fanout, t.state, inputs[0].addrToPeer, inputs[1..], a);
      }
    }
  }

  predicate FailsIt(loop: Loop, archives: seq<Address>, fanout: nat, s: Fanout, a: Address, input: Input) {
    var s' := StepOf(loop, archives, fanout, s, input).state;
    a in s'.status && s'.status[a] == Failed
  }

  /** Some event can still fail an archive whose pull is out, and so free its place, if and only if the pull is not
      orphaned. */
  lemma SettleableIff(loop: Loop, archives: seq<Address>, fanout: nat, s: Fanout, a: Address)
    requires Distinct(archives) && a in s.status && s.status[a] == Dispatched
    ensures (exists input :: FailsIt(loop, archives, fanout, s, a, input)) <==> !Orphaned(s, a)
  {
    if Orphaned(s, a) {
      forall input ensures !FailsIt(loop, archives, fanout, s, a, input) {
        StuckStays(loop, {}, archives, fanout, s, a, input);
      }
    } else {
      var p :| p in s.dispatchedPeers && s.dispatchedPeers[p] == a;
      var input := Input(ManifestAnswer(p, true, None), map[], {});
      var inv := (t: Fanout) => a in t.status && t.status[a] == Failed;
      StepOpens(loop, archives, fanout, s, input);
      WaveOfKeeps(loop, inv, archives, fanout, Fail(s, a), input);
      assert FailsIt(loop, archives, fanout, s, a, input);
    }
  }

  // ── One archive for each peer: no orphans ──

  /** Which peers may be identified as which address. */
  type Identities = (PeerId, Address) -> bool

  predicate KnownPeers(known: Identities, peers: map<PeerId, Address>) {
    forall p | p in peers :: known(p, peers[p])
  }

  predicate KnownEvent(known: Identities, e: Event) {
    e.PeerIdentified? ==> known(e.peer, e.address)
  }

  predicate KnownEvents(known: Identities, inputs: seq<Input>) {
    forall k | 0 <= k < |inputs| :: KnownEvent(known, inputs[k].event)
  }

  ghost predicate OneArchiveEach(known: Identities, archives: seq<Address>) {
    forall p, a, b | known(p, a) && known(p, b) && a in archives && b in archives :: a == b
  }

  ghost predicate PullsKnown(known: Identities, archives: seq<Address>, s: Fanout) {
    && (forall a | a in s.status :: a in archives)
    && forall i | 0 <= i < |s.trace| && s.trace[i].Pull? ::
         s.trace[i].archive in archives && known(s.trace[i].peer, s.trace[i].archive)
  }

  lemma WaveKeepsKnown(loop: Loop, known: Identities, archives: seq<Address>, fanout: nat, s: Fanout, input: Input)
    requires Distinct(archives)
    requires PullsKnown(known, archives, s) && KnownPeers(known, s.peers) && Inverts(input.addrToPeer, s.peers)
    ensures var s' := WaveOf(loop, archives, fanout, s, input); PullsKnown(known, archives, s') && s'.peers == s.peers
  {
    var inv := (t: Fanout) => PullsKnown(known, archives, t) && t.peers == s.peers;
    forall t: Fanout, m: Move | inv(t) && Enabled(t, m) && Picks(m, input) ensures inv(Apply(t, m)) {
      assert m.ToDispatched? ==> known(m.p, m.a);
    }
    WaveOfKeeps(loop, inv, archives, fanout, s, input);
  }

  lemma StepKeepsKnown(loop: Loop, known: Identities, archives: seq<Address>, fanout: nat, s: Fanout, input: Input)
    requires Distinct(archives)
    requires PullsKnown(known, archives, s) && KnownPeers(known, s.peers) && Consistent(s, input)
             && KnownEvent(known, input.event)
    ensures var s' := StepOf(loop, archives, fanout, s, input).state;
            PullsKnown(known, archives, s') && KnownPeers(known, s'.peers)
  {
    StepOpens(loop, archives, fanout, s, input);
    var opening := Opening(loop, s, input.event);
    if opening.Some? {
      WaveKeepsKnown(loop, known, archives, fanout, opening.value, input);
    }
  }

  lemma {:induction false} RunKeepsKnown(loop: Loop, known: Identities, archives: seq<Address>, fanout: nat, s: Fanout,
                                         last: map<Address, PeerId>, inputs: seq<Input>)
    requires Distinct(archives)
    requires PullsKnown(known, archives, s) && KnownPeers(known, s.peers) && ValidRun(loop, archives, fanout, s, inputs)
    requires KnownEvents(known, inputs)
    ensures var s' := RunOf(loop, archives, fanout, s, last, inputs).state;
            PullsKnown(known, archives, s') && KnownPeers(known, s'.peers)
    decreases |inputs|
  {
    RunTurns(loop, archives, fanout, s, last, inputs);
    if AnyAlive(archives, s) && inputs != [] {
      StepKeepsKnown(loop, known, archives, fanout, s, inputs[0]);
      var t := StepOf(loop, archives, fanout, s, inputs[0]);
      if t.outcome.Waiting? {
        RunKeepsKnown(loop, known, archives, fanout, t.state, inputs[0].addrToPeer, inputs[1..]);
      }
    }
  }

  lemma {:induction false} LastAskedExists(p: PeerId, i: nat, trace: seq<Output>) returns (k: nat)
    requires i < |trace| && trace[i].Pull? && trace[i].peer == p
    ensures k < |trace| && trace[k].Pull? && trace[k].peer == p && LastAsked(p, trace) == Some(trace[k].archive)
  {
    var n := |trace| - 1;
    if trace[n].Pull? && trace[n].peer == p {
      k := n;
    } else {
      k := LastAskedExists(p, i, trace[..n]);
    }
  }

  lemma {:induction false} ProjectedIsInTrace(a: Address, o: Output, trace: seq<Output>) returns (i: nat)
    requires o in Project(a, trace)
    ensures i < |trace| && trace[i] == o && o.archive == a
  {
    var n := |trace| - 1;
    if o in Project(a, trace[..n]) {
      i := ProjectedIsInTrace(a, o, trace[..n]);
    } else {
      i := n;
    }
  }

  /** A peer that is one archive only was last asked as it, so a pull that is out is answerable. */
  lemma KnownHaveNoOrphans(known: Identities, archives: seq<Address>, s: Fanout, a: Address)
    requires Safe(archives, s) && PullsKnown(known, archives, s) && OneArchiveEach(known, archives)
    ensures !Orphaned(s, a)
  {
    if a in s.status && s.status[a] == Dispatched {
      assert StatusIsHistory(a, Dispatched, s.trace);
      var o := Project(a, s.trace)[0];
      var i := ProjectedIsInTrace(a, o, s.trace);
      var k := LastAskedExists(o.peer, i, s.trace);
      assert s.trace[i].archive == s.trace[k].archive;
    }
  }

  // ── One place: no orphans ──

  predicate NoneOut(s: Fanout) {
    forall a | a in s.status :: s.status[a] != Dispatched
  }

  lemma {:induction false} CountedIsOut(archives: seq<Address>, status: map<Address, Status>, i: nat)
    requires i < |archives| && archives[i] in status && status[archives[i]] == Dispatched
    ensures Count(archives, status, Dispatched) > 0
  {
    if i < |archives| - 1 {
      CountedIsOut(archives[..|archives| - 1], status, i);
    }
  }

  lemma NoneCountedNoneOut(archives: seq<Address>, s: Fanout)
    requires (forall a | a in s.status :: a in archives) && Count(archives, s.status, Dispatched) == 0
    ensures NoneOut(s)
  {
    forall a | a in s.status ensures s.status[a] != Dispatched {
      var i :| 0 <= i < |archives| && archives[i] == a;
      if s.status[a] == Dispatched {
        CountedIsOut(archives, s.status, i);
      }
    }
  }

  lemma {:induction false} SinglePullWave(s: Fanout, archives: seq<Address>, remaining: nat, input: Input)
    requires NoOrphans(s) && remaining <= 1 && (remaining == 1 ==> NoneOut(s))
    ensures NoOrphans(WaveFrom(s, archives, remaining, input))
    decreases |archives|
  {
    if archives != [] && remaining > 0 {
      var a := archives[0];
      if a in s.status && s.status[a] == Untried && a in input.addrToPeer {
        if a in input.queues {
          var s' := Dispatch(s, a, input.addrToPeer[a]);
          assert input.addrToPeer[a] in s'.dispatchedPeers;
          SinglePullWave(s', archives[1..], 0, input);
        } else {
          SinglePullWave(FailQueueing(s, a), archives[1..], 1, input);
        }
      } else {
        SinglePullWave(s, archives[1..], remaining, input);
      }
    }
  }

  lemma SinglePullPrivateWave(archives: seq<Address>, s: Fanout, input: Input)
    requires Distinct(archives) && NoneOut(s)
    ensures NoOrphans(SendTargets(s, SelectFrom(archives, s.status, input.addrToPeer, 1), input.queues))
  {
    var targets := SelectFrom(archives, s.status, input.addrToPeer, 1);
    SelectedAreUntried(archives, s, input.addrToPeer, 1);
    if targets != [] {
      var t := targets[0];
      assert targets[1..] == [];
      assert SendTargets(s, targets, input.queues) == SendOne(s, t, input.queues);
      assert t.archive in input.queues ==> t.peer in Dispatch(s, t.archive, t.peer).dispatchedPeers;
    }
  }

  lemma SinglePlaceWave(loop: Loop, archives: seq<Address>, s: Fanout, fanout: nat, input: Input)
    requires Distinct(archives) && fanout <= 1 && NoOrphans(s) && forall a | a in s.status :: a in archives
    ensures NoOrphans(WaveOf(loop, archives, fanout, s, input))
  {
    var inFlight := Count(archives, s.status, Dispatched);
    if inFlight == 0 {
      NoneCountedNoneOut(archives, s);
      SinglePullPrivateWave(archives, s, input);
    }
    SinglePullWave(s, archives, if inFlight < fanout then fanout - inFlight else 0, input);
  }

  lemma FailFreesThePlace(archives: seq<Address>, fanout: nat, s: Fanout, a: Address)
    requires Distinct(archives) && LoopOk(archives, fanout, s) && fanout <= 1
    requires a in s.status && s.status[a] == Dispatched
    ensures NoOrphans(Fail(s, a))
  {
    MoveCounts(archives, s, ToRejected(a), Dispatched);
    NoneCountedNoneOut(archives, Fail(s, a));
  }

  lemma PeersOrphanNobody(s: Fanout, peers: map<PeerId, Address>)
    requires NoOrphans(s)
    ensures NoOrphans(s.(peers := peers))
  {
    forall b ensures !Stuck(s.(peers := peers), b, {}) {
      assert !Stuck(s, b, {});
    }
  }

  lemma SinglePlaceStep(loop: Loop, archives: seq<Address>, fanout: nat, s: Fanout, input: Input)
    requires Distinct(archives) && LoopOk(archives, fanout, s) && fanout <= 1 && NoOrphans(s)
    ensures NoOrphans(StepOf(loop, archives, fanout, s, input).state)
  {
    StepOpens(loop, archives, fanout, s, input);
    var opening := Opening(loop, s, input.event);
    if opening.Some? {
      if input.event.PeerIdentified? || input.event.PeerDisconnected? {
        PeersOrphanNobody(s, opening.value.peers);
      } else {
        FailFreesThePlace(archives, fanout, s, AwaitedFrom(s, input.event.peer).value);
      }
      SinglePlaceWave(loop, archives, opening.value, fanout, input);
    }
  }

  lemma {:induction false} SinglePlaceRun(loop: Loop, archives: seq<Address>, fanout: nat, s: Fanout,
                                          last: map<Address, PeerId>, inputs: seq<Input>)
    requires Distinct(archives) && LoopOk(archives, fanout, s) && fanout <= 1 && NoOrphans(s)
    ensures NoOrphans(RunOf(loop, archives, fanout, s, last, inputs).state)
    decreases |inputs|
  {
    RunTurns(loop, archives, fanout, s, last, inputs);
    if AnyAlive(archives, s) && inputs != [] {
      SinglePlaceStep(loop, archives, fanout, s, inputs[0]);
      StepOfOk(loop, archives, fanout, s, inputs[0]);
      var t := StepOf(loop, archives, fanout, s, inputs[0]);
      if t.outcome.Waiting? {
        SinglePlaceRun(loop, archives, fanout, t.state, inputs[0].addrToPeer, inputs[1..]);
      }
    }
  }

  // ── Two places and a peer that is two archives: an orphan ──

  lemma {:induction false} NobodyToAsk(s: Fanout, archives: seq<Address>, remaining: nat, input: Input)
    requires forall a | a in s.status && s.status[a] == Untried :: a !in input.addrToPeer
    ensures WaveFrom(s, archives, remaining, input) == s
    decreases |archives|
  {
    if archives != [] {
      NobodyToAsk(s, archives[1..], remaining, input);
    }
  }

  /** A wave in which one untried archive is known asks it and nobody else. */
  lemma {:induction false} OneToAsk(s: Fanout, archives: seq<Address>, remaining: nat, a: Address, p: PeerId,
                                    input: Input)
    requires remaining > 0 && a in archives && a in s.status && s.status[a] == Untried
    requires input.addrToPeer == map[a := p] && a in input.queues
    ensures WaveFrom(s, archives, remaining, input) == Dispatch(s, a, p)
    decreases |archives|
  {
    if archives[0] == a {
      NobodyToAsk(Dispatch(s, a, p), archives[1..], remaining - 1, input);
    } else {
      OneToAsk(s, archives[1..], remaining, a, p, input);
    }
  }

  function FirstSight(p: PeerId, a: Address, b: Address): Input {
    Input(Unrelated, map[a := p], {a, b})
  }

  function SecondSight(p: PeerId, a: Address, b: Address): Input {
    Input(PeerIdentified(p, b), map[b := p], {a, b})
  }

  lemma FirstSightState(loop: Loop, archives: seq<Address>, maxConcurrent: nat, p: PeerId, a: Address, b: Address)
    requires Distinct(archives) && a in archives
    ensures var s := AfterFirstSight(archives, p, a);
            && FirstState(loop, archives, maxConcurrent, map[p := a], FirstSight(p, a, b)) == s
            && Count(archives, s.status, Dispatched) == 1
  {
    var s, fanout := Start(archives, map[p := a]), CapOf(loop, maxConcurrent, archives);
    NoneCounted(archives, s.status, Dispatched);
    OneToAsk(s, archives, fanout, a, p, FirstSight(p, a, b));
    MoveCounts(archives, s, ToDispatched(a, p), Dispatched);
    WavesAgree(loop, archives, fanout, s, FirstSight(p, a, b));
  }

  function AfterFirstSight(archives: seq<Address>, p: PeerId, a: Address): Fanout
    requires a in archives
  {
    Dispatch(Start(archives, map[p := a]), a, p)
  }

  function AfterSecondSight(archives: seq<Address>, p: PeerId, a: Address, b: Address): Fanout
    requires a in archives && b in archives
  {
    Dispatch(AfterFirstSight(archives, p, a).(peers := map[p := b]), b, p)
  }

  lemma SecondSightStep(loop: Loop, archives: seq<Address>, fanout: nat, p: PeerId, a: Address, b: Address)
    requires Distinct(archives) && a in archives && b in archives && a != b && fanout >= 2
    requires Count(archives, AfterFirstSight(archives, p, a).status, Dispatched) == 1
    ensures StepOf(loop, archives, fanout, AfterFirstSight(archives, p, a), SecondSight(p, a, b))
            == Turn(AfterSecondSight(archives, p, a, b), Waiting)
  {
    var s1 := AfterFirstSight(archives, p, a).(peers := map[p := b]);
    assert map[p := a][p := b] == map[p := b];
    OneToAsk(s1, archives, fanout - 1, b, p, SecondSight(p, a, b));
    StepOpens(loop, archives, fanout, AfterFirstSight(archives, p, a), SecondSight(p, a, b));
    WavesAgree(loop, archives, fanout, s1, SecondSight(p, a, b));
  }

  lemma OnePeerInverts(p: PeerId, a: Address)
    ensures Inverts(map[a := p], map[p := a])
  {
    var peers := map[p := a];
    assert p in peers && peers[p] == a;
    assert peers.Values == {a} && map[a := p].Keys == {a};
  }

  lemma SecondSightOrphans(archives: seq<Address>, p: PeerId, a: Address, b: Address)
    requires a in archives && b in archives && a != b
    ensures Orphaned(AfterSecondSight(archives, p, a, b), a)
    ensures Consistent(AfterFirstSight(archives, p, a), SecondSight(p, a, b))
    ensures AnyAlive(archives, AfterFirstSight(archives, p, a))
            && AnyAlive(archives, AfterSecondSight(archives, p, a, b))
  {
    assert map[p := a][p := b] == map[p := b];
    OnePeerInverts(p, b);
    var i :| 0 <= i < |archives| && archives[i] == a;
    assert AfterFirstSight(archives, p, a).status[archives[i]] == Dispatched;
    assert AfterSecondSight(archives, p, a, b).status[archives[i]] == Dispatched;
  }

  lemma OneTurn(loop: Loop, archives: seq<Address>, fanout: nat, s: Fanout, last: map<Address, PeerId>, input: Input)
    requires AnyAlive(archives, s) && Consistent(s, input)
    ensures var t := StepOf(loop, archives, fanout, s, input);
            && RunOf(loop, archives, fanout, s, last, [input]).state == t.state
            && (t.outcome.Waiting? && AnyAlive(archives, t.state) ==>
                  RunOf(loop, archives, fanout, s, last, [input]).outcome.Waiting?)
    ensures ValidRun(loop, archives, fanout, s, [input])
  {
    assert [input][1..] == [];
    RunTurns(loop, archives, fanout, s, last, [input]);
    RunTurns(loop, archives, fanout, StepOf(loop, archives, fanout, s, input).state, input.addrToPeer, []);
  }

  /** A peer identified as one archive and then as another orphans the first pull. */
  lemma ReidentifiedPeerOrphans(loop: Loop, archives: seq<Address>, maxConcurrent: nat, p: PeerId, a: Address,
                                b: Address)
    requires Distinct(archives) && a in archives && b in archives && a != b && CapOf(loop, maxConcurrent, archives) >= 2
    ensures ValidFetch(loop, archives, maxConcurrent, map[p := a], FirstSight(p, a, b), [SecondSight(p, a, b)])
    ensures var t := FetchOf(loop, archives, maxConcurrent, map[p := a], FirstSight(p, a, b), [SecondSight(p, a, b)]);
            Orphaned(t.state, a) && t.outcome.Waiting?
  {
    var fanout, s := CapOf(loop, maxConcurrent, archives), AfterFirstSight(archives, p, a);
    FirstSightState(loop, archives, maxConcurrent, p, a, b);
    SecondSightStep(loop, archives, fanout, p, a, b);
    SecondSightOrphans(archives, p, a, b);
    OnePeerInverts(p, a);
    OneTurn(loop, archives, fanout, s, map[a := p], SecondSight(p, a, b));
    FetchRuns(loop, archives, maxConcurrent, map[p := a], FirstSight(p, a, b), [SecondSight(p, a, b)]);
  }

  // ── The exact condition ──

  ghost predicate KnownFetch(loop: Loop, known: Identities, archives: seq<Address>, maxConcurrent: nat,
                             peers: map<PeerId, Address>, first: Input, inputs: seq<Input>)
  {
    && ValidFetch(loop, archives, maxConcurrent, peers, first, inputs)
    && KnownPeers(known, peers)
    && KnownEvents(known, inputs)
  }

  lemma KnownFetchPullsKnown(loop: Loop, known: Identities, archives: seq<Address>, maxConcurrent: nat,
                             peers: map<PeerId, Address>, first: Input, inputs: seq<Input>)
    requires Distinct(archives) && KnownFetch(loop, known, archives, maxConcurrent, peers, first, inputs)
    ensures var s := FetchOf(loop, archives, maxConcurrent, peers, first, inputs).state;
            PullsKnown(known, archives, s) && KnownPeers(known, s.peers)
  {
    var fanout, s := CapOf(loop, maxConcurrent, archives), Start(archives, peers);
    WaveKeepsKnown(loop, known, archives, fanout, s, first);
    RunKeepsKnown(loop, known, archives, fanout, WaveOf(loop, archives, fanout, s, first), first.addrToPeer, inputs);
    FetchRuns(loop, archives, maxConcurrent, peers, first, inputs);
  }

  lemma KnownFetchHasNoOrphans(loop: Loop, known: Identities, archives: seq<Address>, maxConcurrent: nat,
                               peers: map<PeerId, Address>, first: Input, inputs: seq<Input>)
    requires Distinct(archives) && KnownFetch(loop, known, archives, maxConcurrent, peers, first, inputs)
    requires OneArchiveEach(known, archives)
    ensures NoOrphans(FetchOf(loop, archives, maxConcurrent, peers, first, inputs).state)
  {
    KnownFetchPullsKnown(loop, known, archives, maxConcurrent, peers, first, inputs);
    FetchOfOk(loop, archives, maxConcurrent, peers, first, inputs);
    var r := FetchOf(loop, archives, maxConcurrent, peers, first, inputs);
    forall a ensures !Stuck(r.state, a, {}) {
      KnownHaveNoOrphans(known, archives, r.state, a);
    }
  }

  lemma SinglePlaceHasNoOrphans(loop: Loop, archives: seq<Address>, maxConcurrent: nat, peers: map<PeerId, Address>,
                                first: Input, inputs: seq<Input>)
    requires Distinct(archives) && CapOf(loop, maxConcurrent, archives) <= 1
    ensures NoOrphans(FetchOf(loop, archives, maxConcurrent, peers, first, inputs).state)
  {
    var fanout, s := CapOf(loop, maxConcurrent, archives), Start(archives, peers);
    StartOfOk(loop, archives, maxConcurrent, peers, first);
    SinglePlaceWave(loop, archives, s, fanout, first);
    SinglePlaceRun(loop, archives, fanout, WaveOf(loop, archives, fanout, s, first), first.addrToPeer, inputs);
    FetchRuns(loop, archives, maxConcurrent, peers, first, inputs);
  }

  /** For peers that may be identified in given ways: no fetch ever orphans a pull if and only if it has a single place,
      or no peer can be identified as two of the archives. */
  lemma NeverOrphansIff(loop: Loop, known: Identities, archives: seq<Address>, maxConcurrent: nat)
    requires Distinct(archives)
    ensures (forall peers, first, inputs | KnownFetch(loop, known, archives, maxConcurrent, peers, first, inputs) ::
               NoOrphans(FetchOf(loop, archives, maxConcurrent, peers, first, inputs).state))
            <==> CapOf(loop, maxConcurrent, archives) <= 1 || OneArchiveEach(known, archives)
  {
    if CapOf(loop, maxConcurrent, archives) <= 1 || OneArchiveEach(known, archives) {
      forall peers, first, inputs | KnownFetch(loop, known, archives, maxConcurrent, peers, first, inputs)
        ensures NoOrphans(FetchOf(loop, archives, maxConcurrent, peers, first, inputs).state)
      {
        if CapOf(loop, maxConcurrent, archives) <= 1 {
          SinglePlaceHasNoOrphans(loop, archives, maxConcurrent, peers, first, inputs);
        } else {
          KnownFetchHasNoOrphans(loop, known, archives, maxConcurrent, peers, first, inputs);
        }
      }
    } else {
      var p, a, b :| known(p, a) && known(p, b) && a in archives && b in archives && a != b;
      ReidentifiedPeerOrphans(loop, archives, maxConcurrent, p, a, b);
      assert KnownFetch(loop, known, archives, maxConcurrent, map[p := a], FirstSight(p, a, b), [SecondSight(p, a, b)]);
    }
  }
}
