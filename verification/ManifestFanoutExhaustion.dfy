/**
 When a manifest fetch can still find that all its archives failed, which is the only way it gives up before its
 deadline, and what a silent peer costs either fan-out.
 */
module ManifestFanoutExhaustion {
  import opened Wrappers
  import opened Identity
  import opened ManifestFanout
  import opened ManifestFanoutSafety
  import opened ManifestLoops
  import opened ManifestFanoutOrphans
  import opened PrivateManifest

  /** A run over peers that are identified in the ways they may be, which ends with every archive failed and in which
      silent peers say nothing. */
  ghost predicate Exhausts(loop: Loop, known: Identities, silent: set<PeerId>, archives: seq<Address>, fanout: nat,
                           s: Fanout, last: map<Address, PeerId>, inputs: seq<Input>)
  {
    && ValidRun(loop, archives, fanout, s, inputs)
    && KnownEvents(known, inputs)
    && KeepSilent(loop, silent, inputs)
    && RunOf(loop, archives, fanout, s, last, inputs).outcome.AllFailed?
  }

  // ── A turn closer ──

  /** The statuses are the archives', and no pull waits for silent peers alone. */
  ghost predicate Open(archives: seq<Address>, s: Fanout, silent: set<PeerId>) {
    (forall a :: a in s.status <==> a in archives) && NoneStuck(s, silent)
  }

  /** Every archive still untried is one that some peer may be identified as. */
  ghost predicate AllCanCome(known: Identities, s: Fanout) {
    forall a | a in s.status && s.status[a] == Untried :: exists p :: known(p, a)
  }

  function FailedCount(archives: seq<Address>, s: Fanout): (n: nat)
    ensures n <= |archives|
  {
    Count(archives, s.status, Failed)
  }

  /** Failing an archive in a move that asks nobody. */
  lemma FailingMove(archives: seq<Address>, s: Fanout, silent: set<PeerId>, m: Move)
    requires Distinct(archives) && Open(archives, s, silent) && Enabled(s, m) && !m.ToDispatched?
    ensures Open(archives, Apply(s, m), silent)
    ensures FailedCount(archives, Apply(s, m)) == FailedCount(archives, s) + 1
  {
    MoveCounts(archives, s, m, Failed);
    forall a ensures !Stuck(Apply(s, m), a, silent) {
      assert !Stuck(s, a, silent);
    }
  }

  /** Who is untried was so before. */
  ghost predicate UntriedWere(after: Fanout, before: Fanout) {
    forall a | a in after.status && after.status[a] == Untried :: a in before.status && before.status[a] == Untried
  }

  /** A wave in which nothing can be queued fails whom it picks, and asks nobody. */
  lemma DeafWave(loop: Loop, silent: set<PeerId>, archives: seq<Address>, fanout: nat, s: Fanout, input: Input)
    requires Distinct(archives) && Open(archives, s, silent) && input.queues == {}
    ensures var s' := WaveOf(loop, archives, fanout, s, input);
            && Open(archives, s', silent) && (s' == s || FailedCount(archives, s') > FailedCount(archives, s))
            && UntriedWere(s', s)
  {
    var inv := (t: Fanout) =>
        Open(archives, t, silent) && (t == s || FailedCount(archives, t) > FailedCount(archives, s))
          && UntriedWere(t, s);
    forall t: Fanout, m: Move | inv(t) && Enabled(t, m) && Picks(m, input) ensures inv(Apply(t, m)) {
      FailingMove(archives, t, silent, m);
    }
    WaveOfKeeps(loop, inv, archives, fanout, s, input);
  }

  lemma BadAnswerTurn(loop: Loop, known: Identities, silent: set<PeerId>, archives: seq<Address>, fanout: nat,
                      s: Fanout, a: Address)
    returns (input: Input)
    requires Distinct(archives) && Open(archives, s, silent) && a in s.status && s.status[a] == Dispatched
    ensures Closer(loop, known, silent, archives, fanout, s, input)
  {
    assert !Stuck(s, a, silent);
    var p :| p in s.dispatchedPeers && s.dispatchedPeers[p] == a && p !in silent;
    var inverse := InverseExists(s.peers);
    input := Input(ManifestAnswer(p, true, None), inverse, {});
    FailingMove(archives, s, silent, ToRejected(a));
    DeafWave(loop, silent, archives, fanout, Fail(s, a), input);
    StepOpens(loop, archives, fanout, s, input);
  }

  lemma IdentifiedTurn(loop: Loop, known: Identities, silent: set<PeerId>, archives: seq<Address>, fanout: nat,
                       s: Fanout, a: Address)
    returns (input: Input)
    requires Distinct(archives) && fanout > 0 && Open(archives, s, silent) && NoneOut(s)
    requires a in s.status && s.status[a] == Untried && exists p :: known(p, a)
    ensures Closer(loop, known, silent, archives, fanout, s, input)
  {
    var p :| known(p, a);
    var s1 := s.(peers := s.peers[p := a]);
    var inverse := InverseExists(s1.peers);
    assert s1.peers[p] == a && a in inverse;
    input := Input(PeerIdentified(p, a), inverse, {});
    NoneCounted(archives, s.status, Dispatched);
    SamePulls(archives, s, s1.peers, silent);
    DeafWave(loop, silent, archives, fanout, s1, input);
    WaveMoves(loop, archives, fanout, s1, input, a);
    StepOpens(loop, archives, fanout, s, input);
  }

  lemma SamePulls(archives: seq<Address>, s: Fanout, peers: map<PeerId, Address>, silent: set<PeerId>)
    requires Open(archives, s, silent)
    ensures Open(archives, s.(peers := peers), silent)
  {
    forall a ensures !Stuck(s.(peers := peers), a, silent) {
      assert !Stuck(s, a, silent);
    }
  }

  /** The turn fails another archive and strands nobody. */
  ghost predicate Closer(loop: Loop, known: Identities, silent: set<PeerId>, archives: seq<Address>, fanout: nat,
                         s: Fanout, input: Input)
  {
    var t := StepOf(loop, archives, fanout, s, input);
    && Consistent(s, input) && KnownEvent(known, input.event) && !BreaksSilence(loop, silent, input.event)
    && t.outcome.Waiting? && Open(archives, t.state, silent)
    && FailedCount(archives, t.state) > FailedCount(archives, s)
    && (AllCanCome(known, s) ==> AllCanCome(known, t.state))
  }

  lemma SomeTurnIsCloser(loop: Loop, known: Identities, silent: set<PeerId>, archives: seq<Address>, fanout: nat,
                         s: Fanout)
    returns (input: Input)
    requires Distinct(archives) && fanout > 0 && Open(archives, s, silent) && AnyAlive(archives, s)
    requires AllCanCome(known, s)
    ensures Closer(loop, known, silent, archives, fanout, s, input)
  {
    if NoneOut(s) {
      var i :| 0 <= i < |archives| && archives[i] in s.status && s.status[archives[i]] != Failed;
      input := IdentifiedTurn(loop, known, silent, archives, fanout, s, archives[i]);
    } else {
      var a :| a in s.status && s.status[a] == Dispatched;
      input := BadAnswerTurn(loop, known, silent, archives, fanout, s, a);
    }
  }

  lemma ExtendExhausts(loop: Loop, known: Identities, silent: set<PeerId>, archives: seq<Address>, fanout: nat,
                       s: Fanout, last: map<Address, PeerId>, input: Input, rest: seq<Input>)
    requires AnyAlive(archives, s) && Closer(loop, known, silent, archives, fanout, s, input)
    requires var s' := StepOf(loop, archives, fanout, s, input).state;
             Exhausts(loop, known, silent, archives, fanout, s', input.addrToPeer, rest)
    ensures Exhausts(loop, known, silent, archives, fanout, s, last, [input] + rest)
  {
    var inputs := [input] + rest;
    assert inputs[0] == input && inputs[1..] == rest;
    assert forall k | 1 <= k < |inputs| :: inputs[k] == rest[k - 1];
    RunTurns(loop, archives, fanout, s, last, inputs);
  }

  lemma {:induction false} WayToExhaustion(loop: Loop, known: Identities, silent: set<PeerId>, archives: seq<Address>,
                                           fanout: nat, s: Fanout, last: map<Address, PeerId>)
    returns (inputs: seq<Input>)
    requires Distinct(archives) && (archives != [] ==> fanout > 0) && Open(archives, s, silent) && AllCanCome(known, s)
    ensures Exhausts(loop, known, silent, archives, fanout, s, last, inputs)
    decreases |archives| - FailedCount(archives, s)
  {
    if AnyAlive(archives, s) {
      var input := SomeTurnIsCloser(loop, known, silent, archives, fanout, s);
      var s' := StepOf(loop, archives, fanout, s, input).state;
      var rest := WayToExhaustion(loop, known, silent, archives, fanout, s', input.addrToPeer);
      ExtendExhausts(loop, known, silent, archives, fanout, s, last, input, rest);
      inputs := [input] + rest;
    } else {
      inputs := [];
      RunTurns(loop, archives, fanout, s, last, []);
    }
  }

  // ── The exact condition ──

  lemma StuckCannotExhaust(loop: Loop, known: Identities, silent: set<PeerId>, archives: seq<Address>, fanout: nat,
                           s: Fanout, last: map<Address, PeerId>, a: Address)
    requires Distinct(archives) && a in archives && Stuck(s, a, silent)
    ensures forall inputs :: !Exhausts(loop, known, silent, archives, fanout, s, last, inputs)
  {
    forall inputs | KeepSilent(loop, silent, inputs)
      ensures !Exhausts(loop, known, silent, archives, fanout, s, last, inputs)
    {
      StuckPullsStay(loop, silent, archives, fanout, s, last, inputs, a);
    }
  }

  /** An archive that nobody can be identified as stays untried. */
  lemma AbsentStays(loop: Loop, known: Identities, archives: seq<Address>, fanout: nat, s: Fanout, input: Input,
                    a: Address)
    requires Distinct(archives) && KnownPeers(known, s.peers) && Consistent(s, input) && KnownEvent(known, input.event)
    requires a in s.status && s.status[a] == Untried && forall p :: !known(p, a)
    ensures var s' := StepOf(loop, archives, fanout, s, input).state;
            KnownPeers(known, s'.peers) && a in s'.status && s'.status[a] == Untried
  {
    StepOpens(loop, archives, fanout, s, input);
    var opening := Opening(loop, s, input.event);
    if opening.Some? {
      var inv := (t: Fanout) => t.peers == opening.value.peers && a in t.status && t.status[a] == Untried;
      assert KnownPeers(known, opening.value.peers) && a !in input.addrToPeer;
      WaveOfKeeps(loop, inv, archives, fanout, opening.value, input);
    }
  }

  lemma {:induction false} AbsentNeverFails(loop: Loop, known: Identities, archives: seq<Address>, fanout: nat,
                                            s: Fanout, last: map<Address, PeerId>, inputs: seq<Input>, a: Address)
    requires Distinct(archives) && KnownPeers(known, s.peers) && ValidRun(loop, archives, fanout, s, inputs)
    requires KnownEvents(known, inputs) && a in archives
    requires a in s.status && s.status[a] == Untried && forall p :: !known(p, a)
    ensures !RunOf(loop, archives, fanout, s, last, inputs).outcome.AllFailed?
    decreases |inputs|
  {
    var i :| 0 <= i < |archives| && archives[i] == a;
    assert AnyAlive(archives, s);
    RunTurns(loop, archives, fanout, s, last, inputs);
    if inputs != [] {
      StepOpens(loop, archives, fanout, s, inputs[0]);
      var t := StepOf(loop, archives, fanout, s, inputs[0]);
      if t.outcome.Waiting? {
        AbsentStays(loop, known, archives, fanout, s, inputs[0], a);
        AbsentNeverFails(loop, known, archives, fanout, t.state, inputs[0].addrToPeer, inputs[1..], a);
      }
    }
  }

  lemma AbsentCannotExhaust(loop: Loop, known: Identities, silent: set<PeerId>, archives: seq<Address>, fanout: nat,
                            s: Fanout, last: map<Address, PeerId>, a: Address)
    requires Distinct(archives) && KnownPeers(known, s.peers) && a in archives
    requires a in s.status && s.status[a] == Untried && forall p :: !known(p, a)
    ensures forall inputs :: !Exhausts(loop, known, silent, archives, fanout, s, last, inputs)
  {
    forall inputs | ValidRun(loop, archives, fanout, s, inputs) && KnownEvents(known, inputs)
      ensures !Exhausts(loop, known, silent, archives, fanout, s, last, inputs)
    {
      AbsentNeverFails(loop, known, archives, fanout, s, last, inputs, a);
    }
  }

  /** For peers that may be identified in given ways, some of them silent from here on: the fetch can still report its
      archives exhausted if and only if no pull that is out waits for silent peers alone, and every archive still
      untried is one that some peer can be. With nobody silent, the first says that no pull is orphaned. */
  lemma CanExhaustIff(loop: Loop, known: Identities, silent: set<PeerId>, archives: seq<Address>, fanout: nat,
                      s: Fanout, last: map<Address, PeerId>)
    requires Distinct(archives) && (archives != [] ==> fanout > 0) && forall a :: a in s.status <==> a in archives
    requires KnownPeers(known, s.peers)
    ensures (exists inputs :: Exhausts(loop, known, silent, archives, fanout, s, last, inputs))
            <==> NoneStuck(s, silent) && AllCanCome(known, s)
  {
    if !NoneStuck(s, silent) {
      var a :| Stuck(s, a, silent);
      StuckCannotExhaust(loop, known, silent, archives, fanout, s, last, a);
    } else if !AllCanCome(known, s) {
      var a :| a in s.status && s.status[a] == Untried && !exists p :: known(p, a);
      AbsentCannotExhaust(loop, known, silent, archives, fanout, s, last, a);
    } else {
      var inputs := WayToExhaustion(loop, known, silent, archives, fanout, s, last);
    }
  }

  // ── In terms of who the peers are ──

  ghost predicate CanExhaust(loop: Loop, known: Identities, silent: set<PeerId>, archives: seq<Address>, fanout: nat,
                             s: Fanout)
  {
    exists inputs :: Exhausts(loop, known, silent, archives, fanout, s, map[], inputs)
  }

  lemma {:induction false} LastAskedPulled(p: PeerId, a: Address, trace: seq<Output>) returns (i: nat)
    requires LastAsked(p, trace) == Some(a)
    ensures i < |trace| && trace[i] == Pull(a, p)
  {
    var n := |trace| - 1;
    if trace[n].Pull? && trace[n].peer == p {
      i := n;
    } else {
      i := LastAskedPulled(p, a, trace[..n]);
    }
  }

  /** No silent peer can be identified as one of the archives. */
  ghost predicate NoSilentArchive(known: Identities, silent: set<PeerId>, archives: seq<Address>) {
    forall p, a | p in silent && a in archives :: !known(p, a)
  }

  /** Every archive is one that some peer can be. */
  ghost predicate EveryArchiveKnown(known: Identities, archives: seq<Address>) {
    forall a | a in archives :: exists p :: known(p, a)
  }

  /** A peer that was asked is known as an archive, so it is not silent. */
  lemma AskedAreNotSilent(known: Identities, silent: set<PeerId>, archives: seq<Address>, s: Fanout, a: Address)
    requires Safe(archives, s) && PullsKnown(known, archives, s) && NoSilentArchive(known, silent, archives)
    requires !Orphaned(s, a)
    ensures !Stuck(s, a, silent)
  {
    if a in s.status && s.status[a] == Dispatched {
      var p :| p in s.dispatchedPeers && s.dispatchedPeers[p] == a;
      assert LastAsked(p, s.trace) == Some(a);
      var i := LastAskedPulled(p, a, s.trace);
    }
  }

  lemma FetchedCanExhaust(loop: Loop, known: Identities, silent: set<PeerId>, archives: seq<Address>,
                          maxConcurrent: nat, peers: map<PeerId, Address>, first: Input, inputs: seq<Input>)
    requires Distinct(archives) && KnownFetch(loop, known, archives, maxConcurrent, peers, first, inputs)
    requires CapOf(loop, maxConcurrent, archives) <= 1 || OneArchiveEach(known, archives)
    requires NoSilentArchive(known, silent, archives) && EveryArchiveKnown(known, archives)
    ensures CanExhaust(loop, known, silent, archives, CapOf(loop, maxConcurrent, archives),
                       FetchOf(loop, archives, maxConcurrent, peers, first, inputs).state)
  {
    var fanout, s := CapOf(loop, maxConcurrent, archives),
                     FetchOf(loop, archives, maxConcurrent, peers, first, inputs).state;
    FetchOfOk(loop, archives, maxConcurrent, peers, first, inputs);
    KnownFetchPullsKnown(loop, known, archives, maxConcurrent, peers, first, inputs);
    NeverOrphansIff(loop, known, archives, maxConcurrent);
    assert NoOrphans(s);
    forall a ensures !Stuck(s, a, silent) {
      assert !Stuck(s, a, {});
      AskedAreNotSilent(known, silent, archives, s, a);
    }
    CanExhaustIff(loop, known, silent, archives, fanout, s, map[]);
  }

  /** A fetch that knows nobody yet. */
  lemma NobodyComes(loop: Loop, archives: seq<Address>, maxConcurrent: nat)
    requires Distinct(archives) && archives != []
    ensures var nobody := Input(Unrelated, map[], {});
            && ValidFetch(loop, archives, maxConcurrent, map[], nobody, [])
            && FetchOf(loop, archives, maxConcurrent, map[], nobody, []) == Turn(Start(archives, map[]), Waiting)
  {
    var nobody, s := Input(Unrelated, map[], {}), Start(archives, map[]);
    WavesAgree(loop, archives, CapOf(loop, maxConcurrent, archives), s, nobody);
    NobodyToAsk(s, archives, CapOf(loop, maxConcurrent, archives), nobody);
    NoneCounted(archives, s.status, Dispatched);
    FetchRuns(loop, archives, maxConcurrent, map[], nobody, []);
    assert archives[0] in s.status;
    RunTurns(loop, archives, CapOf(loop, maxConcurrent, archives), s, map[], []);
  }

  /** A fetch that waits for a silent peer. */
  lemma SilentArchiveHangs(loop: Loop, silent: set<PeerId>, archives: seq<Address>, maxConcurrent: nat, p: PeerId,
                           a: Address)
    requires Distinct(archives) && a in archives && p in silent
    ensures ValidFetch(loop, archives, maxConcurrent, map[p := a], FirstSight(p, a, a), [])
    ensures var t := FetchOf(loop, archives, maxConcurrent, map[p := a], FirstSight(p, a, a), []);
            Stuck(t.state, a, silent) && t.outcome.Waiting?
  {
    var s, fanout := AfterFirstSight(archives, p, a), CapOf(loop, maxConcurrent, archives);
    FirstSightState(loop, archives, maxConcurrent, p, a, a);
    FetchRuns(loop, archives, maxConcurrent, map[p := a], FirstSight(p, a, a), []);
    OnePeerInverts(p, a);
    var i :| 0 <= i < |archives| && archives[i] == a;
    assert AnyAlive(archives, s);
    RunTurns(loop, archives, fanout, s, map[a := p], []);
  }

  /** For peers that may be identified in given ways, some of which may fall silent: wherever a fetch waits it can
      still report its archives exhausted if and only if every archive is one that some peer can be, no peer that may
      fall silent can be an archive, and it has a single place or no peer can be two of the archives. */
  lemma EveryFetchCanExhaustIff(loop: Loop, known: Identities, silent: set<PeerId>, archives: seq<Address>,
                                maxConcurrent: nat)
    requires Distinct(archives)
    ensures (forall peers, first, inputs |
               && KnownFetch(loop, known, archives, maxConcurrent, peers, first, inputs)
               && FetchOf(loop, archives, maxConcurrent, peers, first, inputs).outcome.Waiting? ::
               CanExhaust(loop, known, silent, archives, CapOf(loop, maxConcurrent, archives),
                          FetchOf(loop, archives, maxConcurrent, peers, first, inputs).state))
            <==> EveryArchiveKnown(known, archives) && NoSilentArchive(known, silent, archives)
                 && (CapOf(loop, maxConcurrent, archives) <= 1 || OneArchiveEach(known, archives))
  {
    var fanout := CapOf(loop, maxConcurrent, archives);
    if !EveryArchiveKnown(known, archives) {
      var a :| a in archives && forall p :: !known(p, a);
      NobodyComes(loop, archives, maxConcurrent);
      assert KnownFetch(loop, known, archives, maxConcurrent, map[], Input(Unrelated, map[], {}), []);
      AbsentCannotExhaust(loop, known, silent, archives, fanout, Start(archives, map[]), map[], a);
    } else if !NoSilentArchive(known, silent, archives) {
      var p, a :| p in silent && a in archives && known(p, a);
      SilentArchiveHangs(loop, silent, archives, maxConcurrent, p, a);
      assert KnownFetch(loop, known, archives, maxConcurrent, map[p := a], FirstSight(p, a, a), []);
      StuckCannotExhaust(loop, known, silent, archives, fanout,
                         FetchOf(loop, archives, maxConcurrent, map[p := a], FirstSight(p, a, a), []).state, map[],
                         a);
    } else if fanout > 1 && !OneArchiveEach(known, archives) {
      var p, a, b :| known(p, a) && known(p, b) && a in archives && b in archives && a != b;
      ReidentifiedPeerOrphans(loop, archives, maxConcurrent, p, a, b);
      assert KnownFetch(loop, known, archives, maxConcurrent, map[p := a], FirstSight(p, a, b), [SecondSight(p, a, b)]);
      StuckCannotExhaust(loop, known, silent, archives, fanout,
                         FetchOf(loop, archives, maxConcurrent, map[p := a], FirstSight(p, a, b),
                                 [SecondSight(p, a, b)]).state, map[], a);
    } else {
      forall peers, first, inputs | KnownFetch(loop, known, archives, maxConcurrent, peers, first, inputs)
        ensures CanExhaust(loop, known, silent, archives, fanout,
                           FetchOf(loop, archives, maxConcurrent, peers, first, inputs).state)
      {
        FetchedCanExhaust(loop, known, silent, archives, maxConcurrent, peers, first, inputs);
      }
    }
  }

  // ── A reported failure ──

  function Failure(p: PeerId, a: Address): Input {
    Input(PullFailed(p, true), map[a := p], {a})
  }

  /** One archive is asked, its peer silent but for a failure that is reported: the Private fan-out goes on waiting for
      that peer, where the Public one has failed the archive. */
  lemma ReportedFailureHeardIff(loop: Loop, archives: seq<Address>, maxConcurrent: nat, p: PeerId, a: Address)
    requires Distinct(archives) && a in archives
    ensures ValidFetch(loop, archives, maxConcurrent, map[p := a], FirstSight(p, a, a), [Failure(p, a)])
    ensures var s := FetchOf(loop, archives, maxConcurrent, map[p := a], FirstSight(p, a, a), [Failure(p, a)]).state;
            && a in s.status && s.status[a] == (if loop.Public? then Failed else Dispatched)
            && (Stuck(s, a, {p}) <==> loop.Private?)
  {
    var s, fanout := AfterFirstSight(archives, p, a), CapOf(loop, maxConcurrent, archives);
    FirstSightState(loop, archives, maxConcurrent, p, a, a);
    FetchRuns(loop, archives, maxConcurrent, map[p := a], FirstSight(p, a, a), [Failure(p, a)]);
    OnePeerInverts(p, a);
    var i :| 0 <= i < |archives| && archives[i] == a;
    assert AnyAlive(archives, s);
    OneTurn(loop, archives, fanout, s, map[a := p], Failure(p, a));
    StepOpens(loop, archives, fanout, s, Failure(p, a));
    if loop.Public? {
      var inv := (t: Fanout) => a in t.status && t.status[a] == Failed;
      WaveOfKeeps(loop, inv, archives, fanout, Fail(s, a), Failure(p, a));
    }
  }
}
