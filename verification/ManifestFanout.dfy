/**
 Fetching the manifest: the same question to several assigned archives at once, the first valid answer wins.

 Every archive is Untried, then Dispatched, then Failed, or fails at once when its request cannot be queued. A wave
 fills the free places with untried identified archives, in the order in which the archives are given.
 */
module ManifestFanout {
  import opened Wrappers
  import opened Identity

  datatype Status = Untried | Dispatched | Failed

  datatype Output =
    | Pull(archive: Address, peer: PeerId)
    | NotQueued(archive: Address)
    | Rejected(archive: Address)

  datatype Fanout = Fanout(
    status: map<Address, Status>,
    dispatchedPeers: map<PeerId, Address>,
    peers: map<PeerId, Address>,
    trace: seq<Output>)

  /** An event of the loop; `addrToPeer` is the inverse of the peer map found for its wave, and `queues` the archives
      whose request can be queued. A manifest answer either is for another root, or carries a manifest, or is bad. */
  datatype Event =
    | PeerIdentified(peer: PeerId, address: Address)
    | PeerDisconnected(peer: PeerId)
    | ManifestAnswer(peer: PeerId, ourRoot: bool, manifest: Option<Manifest>)
    | PullFailed(peer: PeerId, ourRoot: bool)
    | DeadlinePassed
    | NetworkClosed
    | Unrelated

  type Manifest = nat

  datatype Input = Input(event: Event, addrToPeer: map<Address, PeerId>, queues: set<Address>)

  datatype Report = Report(tried: nat, resolvable: nat, unresolvable: nat)

  datatype Outcome =
    | Accepted(manifest: Manifest)
    | AllFailed(report: Report)
    | DeadlineExceeded(report: Report)
    | ShutDown(report: Report)
    | Waiting

  datatype Turn = Turn(state: Fanout, outcome: Outcome)

  // ── The wave ──

  function Count(archives: seq<Address>, status: map<Address, Status>, s: Status): (n: nat)
    ensures n <= |archives|
  {
    if archives == [] then 0
    else
      var a := archives[|archives| - 1];
      Count(archives[..|archives| - 1], status, s) + if a in status && status[a] == s then 1 else 0
  }

  function Dispatch(s: Fanout, a: Address, p: PeerId): Fanout {
    s.(status := s.status[a := Dispatched], dispatchedPeers := s.dispatchedPeers[p := a],
       trace := s.trace + [Pull(a, p)])
  }

  function FailQueueing(s: Fanout, a: Address): Fanout {
    s.(status := s.status[a := Failed], trace := s.trace + [NotQueued(a)])
  }

  function Fail(s: Fanout, a: Address): Fanout {
    s.(status := s.status[a := Failed], trace := s.trace + [Rejected(a)])
  }

  function WaveFrom(s: Fanout, archives: seq<Address>, remaining: nat, input: Input): Fanout
    decreases |archives|
  {
    if archives == [] || remaining == 0 then s
    else
      var a := archives[0];
      if a in s.status && s.status[a] == Untried && a in input.addrToPeer then
        if a in input.queues then WaveFrom(Dispatch(s, a, input.addrToPeer[a]), archives[1..], remaining - 1, input)
        else WaveFrom(FailQueueing(s, a), archives[1..], remaining, input)
      else WaveFrom(s, archives[1..], remaining, input)
  }

  function Wave(archives: seq<Address>, fanout: nat, s: Fanout, input: Input): Fanout {
    var inFlight := Count(archives, s.status, Dispatched);
    WaveFrom(s, archives, if inFlight < fanout then fanout - inFlight else 0, input)
  }

  /** The operator's number where it fits; at least one place while there are archives, and at most one for each. */
  function FanoutCap(maxConcurrent: nat, archives: seq<Address>): (r: nat)
    ensures r <= |archives| && (r == 0 <==> archives == [])
    ensures 1 <= maxConcurrent <= |archives| ==> r == maxConcurrent
    ensures maxConcurrent > |archives| ==> r == |archives|
    ensures maxConcurrent == 0 ==> r <= 1
  {
    var atLeastOne := if maxConcurrent == 0 then 1 else maxConcurrent;
    if atLeastOne < |archives| then atLeastOne else |archives|
  }

  // ── The loop ──

  function MakeReport(archives: seq<Address>, s: Fanout, addrToPeer: map<Address, PeerId>): Report {
    var resolvable := Resolvable(archives, addrToPeer);
    Report(|archives| - Count(archives, s.status, Untried), resolvable, |archives| - resolvable)
  }

  function Resolvable(archives: seq<Address>, addrToPeer: map<Address, PeerId>): (r: nat)
    ensures r <= |archives|
  {
    if archives == [] then 0
    else Resolvable(archives[..|archives| - 1], addrToPeer) + if archives[|archives| - 1] in addrToPeer then 1 else 0
  }

  /** The archive an event from `peer` is about: the one it was last asked as, if that request is still out. */
  function AwaitedFrom(s: Fanout, peer: PeerId): Option<Address> {
    if peer in s.dispatchedPeers && s.dispatchedPeers[peer] in s.status
       && s.status[s.dispatchedPeers[peer]] == Dispatched
    then Some(s.dispatchedPeers[peer]) else None
  }

  function Step(archives: seq<Address>, fanout: nat, s: Fanout, input: Input): Turn {
    match input.event
    case PeerIdentified(p, a) => Turn(Wave(archives, fanout, s.(peers := s.peers[p := a]), input), Waiting)
    case PeerDisconnected(p) => Turn(Wave(archives, fanout, s.(peers := s.peers - {p}), input), Waiting)
    case ManifestAnswer(p, ourRoot, manifest) =>
      if !ourRoot || AwaitedFrom(s, p).None? then Turn(s, Waiting)
      else if manifest.Some? then Turn(s, Accepted(manifest.value))
      else Turn(Wave(archives, fanout, Fail(s, AwaitedFrom(s, p).value), input), Waiting)
    case PullFailed(p, ourRoot) =>
      if !ourRoot || AwaitedFrom(s, p).None? then Turn(s, Waiting)
      else Turn(Wave(archives, fanout, Fail(s, AwaitedFrom(s, p).value), input), Waiting)
    case DeadlinePassed => Turn(s, DeadlineExceeded(MakeReport(archives, s, input.addrToPeer)))
    case NetworkClosed => Turn(s, ShutDown(MakeReport(archives, s, input.addrToPeer)))
    case Unrelated => Turn(s, Waiting)
  }

  predicate AnyAlive(archives: seq<Address>, s: Fanout) {
    exists i :: 0 <= i < |archives| && archives[i] in s.status && s.status[archives[i]] != Failed
  }

  /** The loop, from a state it is about to test; `last` is the inverse of the peer map at that point. */
  function Run(archives: seq<Address>, fanout: nat, s: Fanout, last: map<Address, PeerId>, inputs: seq<Input>): Turn
    decreases |inputs|
  {
    if !AnyAlive(archives, s) then Turn(s, AllFailed(MakeReport(archives, s, last)))
    else if inputs == [] then Turn(s, Waiting)
    else
      var t := Step(archives, fanout, s, inputs[0]);
      if !t.outcome.Waiting? then t else Run(archives, fanout, t.state, inputs[0].addrToPeer, inputs[1..])
  }

  function Start(archives: seq<Address>, peers: map<PeerId, Address>): Fanout {
    Fanout(map a | a in archives :: Untried, map[], peers, [])
  }

  function Fetch(archives: seq<Address>, maxConcurrent: nat, peers: map<PeerId, Address>, first: Input,
                 inputs: seq<Input>): Turn
  {
    var fanout := FanoutCap(maxConcurrent, archives);
    Run(archives, fanout, Wave(archives, fanout, Start(archives, peers), first), first.addrToPeer, inputs)
  }

  /** The machine as the downloader runs it. */
  class ManifestFetch {
    const archives: seq<Address>
    const fanout: nat
    var status: map<Address, Status>
    var dispatchedPeers: map<PeerId, Address>
    var peers: map<PeerId, Address>
    var trace: seq<Output>

    function View(): Fanout
      reads this
    {
      Fanout(status, dispatchedPeers, peers, trace)
    }

    constructor (archives: seq<Address>, maxConcurrent: nat, peers: map<PeerId, Address>)
      ensures this.archives == archives && fanout == FanoutCap(maxConcurrent, archives)
      ensures View() == Start(archives, peers)
    {
      this.archives, this.fanout, this.peers := archives, FanoutCap(maxConcurrent, archives), peers;
      status, dispatchedPeers, trace := map a | a in archives :: Untried, map[], [];
    }

    method DispatchWave(input: Input)
      modifies this
      ensures View() == Wave(archives, fanout, old(View()), input)
    {
      var inFlight := Count(archives, status, Dispatched);
      var remaining: nat := if inFlight < fanout then fanout - inFlight else 0;
      ghost var goal := WaveFrom(View(), archives, remaining, input);
      var i: nat := 0;
      assert archives[i..] == archives;
      while i < |archives| && remaining > 0
        invariant 0 <= i <= |archives|
        invariant WaveFrom(View(), archives[i..], remaining, input) == goal
      {
        var a := archives[i];
        assert archives[i..][0] == a && archives[i..][1..] == archives[i + 1..];
        if a in status && status[a] == Untried && a in input.addrToPeer {
          if a in input.queues {
            status := status[a := Dispatched];
            dispatchedPeers := dispatchedPeers[input.addrToPeer[a] := a];
            trace := trace + [Pull(a, input.addrToPeer[a])];
            remaining := remaining - 1;
          } else {
            status := status[a := Failed];
            trace := trace + [NotQueued(a)];
          }
        }
        i := i + 1;
      }
    }

    method MarkFailed(a: Address, input: Input)
      modifies this
      ensures View() == Wave(archives, fanout, Fail(old(View()), a), input)
    {
      status := status[a := Failed];
      trace := trace + [Rejected(a)];
      DispatchWave(input);
    }

    method OnEvent(input: Input) returns (outcome: Outcome)
      modifies this
      ensures Turn(View(), outcome) == Step(archives, fanout, old(View()), input)
    {
      outcome := Waiting;
      match input.event
      case PeerIdentified(p, a) =>
        peers := peers[p := a];
        DispatchWave(input);
      case PeerDisconnected(p) =>
        peers := peers - {p};
        DispatchWave(input);
      case ManifestAnswer(p, ourRoot, manifest) =>
        if ourRoot && p in dispatchedPeers && dispatchedPeers[p] in status && status[dispatchedPeers[p]] == Dispatched {
          if manifest.Some? {
            return Accepted(manifest.value);
          }
          MarkFailed(dispatchedPeers[p], input);
        }
      case PullFailed(p, ourRoot) =>
        if ourRoot && p in dispatchedPeers && dispatchedPeers[p] in status && status[dispatchedPeers[p]] == Dispatched {
          MarkFailed(dispatchedPeers[p], input);
        }
      case DeadlinePassed =>
        outcome := DeadlineExceeded(MakeReport(archives, View(), input.addrToPeer));
      case NetworkClosed =>
        outcome := ShutDown(MakeReport(archives, View(), input.addrToPeer));
      case Unrelated =>
    }

    method Drive(last: map<Address, PeerId>, inputs: seq<Input>) returns (outcome: Outcome)
      modifies this
      ensures Turn(View(), outcome) == Run(archives, fanout, old(View()), last, inputs)
    {
      ghost var goal := Run(archives, fanout, View(), last, inputs);
      var k, addrToPeer := 0, last;
      while AnyAlive(archives, View())
        invariant 0 <= k <= |inputs|
        invariant Run(archives, fanout, View(), addrToPeer, inputs[k..]) == goal
        decreases |inputs| - k
      {
        if k == |inputs| {
          return Waiting;
        }
        assert inputs[k..][0] == inputs[k] && inputs[k..][1..] == inputs[k + 1..];
        outcome := OnEvent(inputs[k]);
        if !outcome.Waiting? {
          return;
        }
        addrToPeer := inputs[k].addrToPeer;
        k := k + 1;
      }
      outcome := AllFailed(MakeReport(archives, View(), addrToPeer));
    }
  }

  method FetchV2PublicManifest(archives: seq<Address>, maxConcurrent: nat, peers: map<PeerId, Address>, first: Input,
                               inputs: seq<Input>)
    returns (r: Turn)
    ensures r == Fetch(archives, maxConcurrent, peers, first, inputs)
  {
    var fetch := new ManifestFetch(archives, maxConcurrent, peers);
    fetch.DispatchWave(first);
    var outcome := fetch.Drive(first.addrToPeer, inputs);
    r := Turn(fetch.View(), outcome);
  }
}
