/**
 The two manifest fan-outs side by side. They differ in how a wave is sent, in how many places there are, and in whether
 a reported failure is heard; what is proved here and of both of them needs no more than this module tells.
 */
module ManifestLoops {
  import opened Wrappers
  import opened Identity
  import opened ManifestFanout
  import opened ManifestFanoutSafety
  import opened PrivateManifest

  datatype Loop = Public | Private

  function CapOf(loop: Loop, maxConcurrent: nat, archives: seq<Address>): nat {
    match loop
    case Public => FanoutCap(maxConcurrent, archives)
    case Private => ComputeManifestFanout(maxConcurrent, |archives|)
  }

  function WaveOf(loop: Loop, archives: seq<Address>, fanout: nat, s: Fanout, input: Input): Fanout {
    match loop
    case Public => Wave(archives, fanout, s, input)
    case Private => PrivateWave(archives, fanout, s, input)
  }

  function StepOf(loop: Loop, archives: seq<Address>, fanout: nat, s: Fanout, input: Input): Turn {
    match loop
    case Public => Step(archives, fanout, s, input)
    case Private => PrivateStep(archives, fanout, s, input)
  }

  function RunOf(loop: Loop, archives: seq<Address>, fanout: nat, s: Fanout, last: map<Address, PeerId>,
                 inputs: seq<Input>): Turn
  {
    match loop
    case Public => Run(archives, fanout, s, last, inputs)
    case Private => PrivateRun(archives, fanout, s, last, inputs)
  }

  function FetchOf(loop: Loop, archives: seq<Address>, maxConcurrent: nat, peers: map<PeerId, Address>, first: Input,
                   inputs: seq<Input>): Turn
  {
    match loop
    case Public => Fetch(archives, maxConcurrent, peers, first, inputs)
    case Private => FetchManifest(archives, maxConcurrent, peers, first, inputs)
  }

  function FirstState(loop: Loop, archives: seq<Address>, maxConcurrent: nat, peers: map<PeerId, Address>,
                      first: Input): Fanout
  {
    WaveOf(loop, archives, CapOf(loop, maxConcurrent, archives), Start(archives, peers), first)
  }

  lemma FetchRuns(loop: Loop, archives: seq<Address>, maxConcurrent: nat, peers: map<PeerId, Address>, first: Input,
                  inputs: seq<Input>)
    ensures FetchOf(loop, archives, maxConcurrent, peers, first, inputs)
            == RunOf(loop, archives, CapOf(loop, maxConcurrent, archives),
                     FirstState(loop, archives, maxConcurrent, peers, first), first.addrToPeer, inputs)
  {
  }

  lemma RunTurns(loop: Loop, archives: seq<Address>, fanout: nat, s: Fanout, last: map<Address, PeerId>,
                 inputs: seq<Input>)
    ensures RunOf(loop, archives, fanout, s, last, inputs)
            == if !AnyAlive(archives, s) then Turn(s, AllFailed(MakeReport(archives, s, last)))
               else if inputs == [] then Turn(s, Waiting)
               else
                 var t := StepOf(loop, archives, fanout, s, inputs[0]);
                 if !t.outcome.Waiting? then t
                 else RunOf(loop, archives, fanout, t.state, inputs[0].addrToPeer, inputs[1..])
  {
  }

  // ── One turn ──

  /** The state a turn sends a wave from, if it sends one. */
  function Opening(loop: Loop, s: Fanout, e: Event): Option<Fanout> {
    match e
    case PeerIdentified(p, a) => Some(s.(peers := s.peers[p := a]))
    case PeerDisconnected(p) => Some(s.(peers := s.peers - {p}))
    case ManifestAnswer(p, ourRoot, manifest) =>
      if ourRoot && manifest.None? && AwaitedFrom(s, p).Some? then Some(Fail(s, AwaitedFrom(s, p).value)) else None
    case PullFailed(p, ourRoot) =>
      if loop.Public? && ourRoot && AwaitedFrom(s, p).Some? then Some(Fail(s, AwaitedFrom(s, p).value)) else None
    case _ => None
  }

  lemma StepOpens(loop: Loop, archives: seq<Address>, fanout: nat, s: Fanout, input: Input)
    ensures var t, opening := StepOf(loop, archives, fanout, s, input), Opening(loop, s, input.event);
            && (opening.Some? ==> t == Turn(WaveOf(loop, archives, fanout, opening.value, input), Waiting))
            && (opening.None? ==> t.state == s)
            && !t.outcome.AllFailed?
  {
  }

  /** Whatever every move of a wave keeps, a wave of either loop keeps. */
  lemma WaveOfKeeps(loop: Loop, inv: Fanout -> bool, archives: seq<Address>, fanout: nat, s: Fanout, input: Input)
    requires Distinct(archives) && inv(s)
    requires forall t: Fanout, m: Move | inv(t) && Enabled(t, m) && Picks(m, input) :: inv(Apply(t, m))
    ensures inv(WaveOf(loop, archives, fanout, s, input))
  {
    match loop
    case Public =>
      var inFlight := Count(archives, s.status, Dispatched);
      WaveKeeps(inv, s, archives, if inFlight < fanout then fanout - inFlight else 0, input);
    case Private =>
      PrivateWaveKeeps(inv, archives, fanout, s, input);
  }

  lemma StepOfKeeps(loop: Loop, inv: Fanout -> bool, archives: seq<Address>, fanout: nat, s: Fanout, input: Input)
    requires Distinct(archives) && inv(s)
    requires Opening(loop, s, input.event).Some? ==> inv(Opening(loop, s, input.event).value)
    requires forall t: Fanout, m: Move | inv(t) && Enabled(t, m) && Picks(m, input) :: inv(Apply(t, m))
    ensures inv(StepOf(loop, archives, fanout, s, input).state)
  {
    StepOpens(loop, archives, fanout, s, input);
    var opening := Opening(loop, s, input.event);
    if opening.Some? {
      WaveOfKeeps(loop, inv, archives, fanout, opening.value, input);
    }
  }

  /** When everyone who can be looked up can be sent to, the two waves are the same. */
  lemma WavesAgree(loop: Loop, archives: seq<Address>, fanout: nat, s: Fanout, input: Input)
    requires Distinct(archives) && input.addrToPeer.Keys <= input.queues
    ensures WaveOf(loop, archives, fanout, s, input) == Wave(archives, fanout, s, input)
  {
    var inFlight := Count(archives, s.status, Dispatched);
    if inFlight < fanout {
      SelectedAreLookedUp(archives, s.status, input.addrToPeer, fanout - inFlight);
    }
    TwinWaves(archives, fanout, s, input);
  }

  lemma {:induction false} CandidateIsSelected(archives: seq<Address>, status: map<Address, Status>,
                                               addrToPeer: map<Address, PeerId>, remaining: nat, a: Address)
    requires a in archives && Candidate(status, addrToPeer, a) && remaining > 0
    ensures SelectFrom(archives, status, addrToPeer, remaining) != []
    decreases |archives|
  {
    if !Candidate(status, addrToPeer, archives[0]) {
      CandidateIsSelected(archives[1..], status, addrToPeer, remaining, a);
    }
  }

  /** A wave with room and somebody to ask does something. */
  lemma WaveMoves(loop: Loop, archives: seq<Address>, fanout: nat, s: Fanout, input: Input, a: Address)
    requires Distinct(archives) && Count(archives, s.status, Dispatched) < fanout
    requires a in archives && Candidate(s.status, input.addrToPeer, a)
    ensures WaveOf(loop, archives, fanout, s, input) != s
  {
    match loop
    case Public =>
      WaveSaturates(archives, fanout, s, input);
    case Private =>
      var room: nat := fanout - Count(archives, s.status, Dispatched);
      var targets := SelectFrom(archives, s.status, input.addrToPeer, room);
      CandidateIsSelected(archives, s.status, input.addrToPeer, room, a);
      SelectedAreUntried(archives, s, input.addrToPeer, room);
      assert Asked(targets[0].archive, targets);
      SendTargetsFrame(s, targets, input.queues, targets[0].archive);
  }

  // ── What both keep ──

  lemma StartOfOk(loop: Loop, archives: seq<Address>, maxConcurrent: nat, peers: map<PeerId, Address>, first: Input)
    requires Distinct(archives)
    ensures LoopOk(archives, CapOf(loop, maxConcurrent, archives),
                   FirstState(loop, archives, maxConcurrent, peers, first))
  {
    var fanout, s := CapOf(loop, maxConcurrent, archives), Start(archives, peers);
    StartIsOk(archives, fanout, peers);
    match loop
    case Public => WaveOk(archives, fanout, s, first);
    case Private => PrivateWaveOk(archives, fanout, s, first);
  }

  lemma StepOfOk(loop: Loop, archives: seq<Address>, fanout: nat, s: Fanout, input: Input)
    requires Distinct(archives) && LoopOk(archives, fanout, s)
    ensures LoopOk(archives, fanout, StepOf(loop, archives, fanout, s, input).state)
  {
    match loop
    case Public => StepOk(archives, fanout, s, input);
    case Private => PrivateStepOk(archives, fanout, s, input);
  }

  lemma FetchOfOk(loop: Loop, archives: seq<Address>, maxConcurrent: nat, peers: map<PeerId, Address>, first: Input,
                  inputs: seq<Input>)
    requires Distinct(archives)
    ensures LoopOk(archives, CapOf(loop, maxConcurrent, archives),
                   FetchOf(loop, archives, maxConcurrent, peers, first, inputs).state)
  {
    match loop
    case Public => EveryFetchIsSafe(archives, maxConcurrent, peers, first, inputs);
    case Private => EveryPrivateManifestFetchIsSafe(archives, maxConcurrent, peers, first, inputs);
  }

  // ── Runs over peers as they are known ──

  /** The events and the lookups fit: each turn looks peers up among those known then. */
  ghost predicate Consistent(s: Fanout, input: Input) {
    match input.event
    case PeerIdentified(p, a) => Inverts(input.addrToPeer, s.peers[p := a])
    case PeerDisconnected(p) => Inverts(input.addrToPeer, s.peers - {p})
    case _ => Inverts(input.addrToPeer, s.peers)
  }

  ghost predicate ValidRun(loop: Loop, archives: seq<Address>, fanout: nat, s: Fanout, inputs: seq<Input>)
    decreases |inputs|
  {
    inputs == [] || (
      && Consistent(s, inputs[0])
      && var t := StepOf(loop, archives, fanout, s, inputs[0]);
      t.outcome.Waiting? ==> ValidRun(loop, archives, fanout, t.state, inputs[1..]))
  }

  ghost predicate ValidFetch(loop: Loop, archives: seq<Address>, maxConcurrent: nat, peers: map<PeerId, Address>,
                             first: Input, inputs: seq<Input>)
  {
    && Inverts(first.addrToPeer, peers)
    && ValidRun(loop, archives, CapOf(loop, maxConcurrent, archives),
                FirstState(loop, archives, maxConcurrent, peers, first), inputs)
  }
}
