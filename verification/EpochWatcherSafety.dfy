/**
 The watcher's retry budget over every run, and how it depends on the chain's epochs never going back.
 */
module EpochWatcherSafety {
  import opened Wrappers
  import opened EpochWatcher

  // ── One file at a time ──

  /** What the watcher remembers of one file, and the attestation runs it started for it. */
  datatype File = File(st: Option<EpochState>, runs: seq<AttestRun>)

  function Project(root: Root, runs: seq<AttestRun>): seq<AttestRun> {
    if runs == [] then []
    else
      var before, r := Project(root, runs[..|runs| - 1]), runs[|runs| - 1];
      if r.root == root then before + [r] else before
  }

  function FileOf(root: Root, w: Watcher): File {
    File(Memory(w, root), Project(root, w.runs))
  }

  lemma ProjectGrows(root: Root, runs: seq<AttestRun>, r: AttestRun)
    ensures Project(root, runs + [r]) == if r.root == root then Project(root, runs) + [r] else Project(root, runs)
  {
    assert (runs + [r])[..|runs|] == runs;
  }

  function FileDecide(f: File, v: Visit, epoch: Epoch): File
    requires v.coverage.Row?
  {
    var st := Start(f.st, epoch);
    match DecisionFor(f.st, v, epoch)
    case LeaveIt => f
    case CannotTell => f
    case NothingToDo => File(Some(st.(handled := true)), f.runs)
    case Attempt =>
      var st' := EpochState(epoch, v.run.Ran? && v.run.full, st.attempts + 1);
      File(Some(st'), f.runs + [AttestRun(v.root, epoch, v.run)])
  }

  lemma DecideMemory(w: Watcher, v: Visit, epoch: Epoch)
    requires v.coverage.Row?
    ensures Memory(Decide(w, v, epoch).watcher, v.root) == FileDecide(FileOf(v.root, w), v, epoch).st
  {
  }

  lemma DecideRuns(w: Watcher, v: Visit, epoch: Epoch)
    requires v.coverage.Row?
    ensures Project(v.root, Decide(w, v, epoch).watcher.runs) == FileDecide(FileOf(v.root, w), v, epoch).runs
  {
    ProjectGrows(v.root, w.runs, AttestRun(v.root, epoch, v.run));
  }

  lemma DecideIsAFileStep(w: Watcher, v: Visit, epoch: Epoch)
    requires v.coverage.Row?
    ensures FileOf(v.root, Decide(w, v, epoch).watcher) == FileDecide(FileOf(v.root, w), v, epoch)
  {
    DecideMemory(w, v, epoch);
    DecideRuns(w, v, epoch);
  }

  lemma DecideElsewhere(root: Root, w: Watcher, v: Visit, epoch: Epoch)
    requires v.coverage.Row? && v.root != root
    ensures FileOf(root, Decide(w, v, epoch).watcher) == FileOf(root, w)
  {
    ProjectGrows(root, w.runs, AttestRun(v.root, epoch, v.run));
  }

  /** Files do not interfere: a look changes only the file it is at, and only by that file's own memory. */
  lemma LookIsAFileStep(root: Root, w: Watcher, v: Visit)
    ensures FileOf(root, Look(w, v).watcher)
            == if v.root == root && root !in w.notV2 && Decided(v).Some?
               then FileDecide(FileOf(root, w), v, Decided(v).value)
               else FileOf(root, w)
  {
    if v.root !in w.notV2 && Decided(v).Some? {
      assert Look(w, v) == Decide(w, v, Decided(v).value);
      if v.root == root {
        DecideIsAFileStep(w, v, Decided(v).value);
      } else {
        DecideElsewhere(root, w, v, Decided(v).value);
      }
    } else {
      assert Look(w, v).watcher.state == w.state && Look(w, v).watcher.runs == w.runs;
    }
  }

  predicate Dropped(root: Root, visits: seq<Visit>) {
    visits != []
    && (Dropped(root, visits[..|visits| - 1])
        || (visits[|visits| - 1].root == root && visits[|visits| - 1].coverage.NoRow?))
  }

  /** One file's memory on its own. */
  function FileRun(root: Root, visits: seq<Visit>): File {
    if visits == [] then File(None, [])
    else
      var before, v := visits[..|visits| - 1], visits[|visits| - 1];
      if v.root == root && !Dropped(root, before) && Decided(v).Some?
      then FileDecide(FileRun(root, before), v, Decided(v).value) else FileRun(root, before)
  }

  /** The whole watcher, seen from one file, is that file's run. */
  lemma {:induction false} FilesDoNotInterfere(root: Root, visits: seq<Visit>)
    ensures FileOf(root, Tick(FRESH, visits).watcher) == FileRun(root, visits)
    ensures root in Tick(FRESH, visits).watcher.notV2 <==> Dropped(root, visits)
  {
    if visits != [] {
      var n := |visits| - 1;
      FilesDoNotInterfere(root, visits[..n]);
      LookIsAFileStep(root, Tick(FRESH, visits[..n]).watcher, visits[n]);
    }
  }

  /** The epochs the watcher acts on for one file, in order. */
  function Epochs(root: Root, visits: seq<Visit>): seq<Epoch> {
    if visits == [] then []
    else
      var before, v := Epochs(root, visits[..|visits| - 1]), visits[|visits| - 1];
      if v.root == root && Decided(v).Some? then before + [Decided(v).value] else before
  }

  ghost predicate NonDecreasing(s: seq<Epoch>) {
    forall i, j | 0 <= i < j < |s| :: s[i] <= s[j]
  }

  // ── The budget ──

  function Tries(runs: seq<AttestRun>, epoch: Epoch): nat {
    if runs == [] then 0
    else Tries(runs[..|runs| - 1], epoch) + if runs[|runs| - 1].watched == epoch then 1 else 0
  }

  lemma TriesGrow(runs: seq<AttestRun>, r: AttestRun, epoch: Epoch)
    ensures Tries(runs + [r], epoch) == Tries(runs, epoch) + if r.watched == epoch then 1 else 0
  {
    assert (runs + [r])[..|runs|] == runs;
  }

  lemma {:induction false} NoTriesBeyond(runs: seq<AttestRun>, epoch: Epoch)
    requires forall i | 0 <= i < |runs| :: runs[i].watched != epoch
    ensures Tries(runs, epoch) == 0
  {
    if runs != [] {
      NoTriesBeyond(runs[..|runs| - 1], epoch);
    }
  }

  predicate Full(r: AttestRun) {
    r.result.Ran? && r.result.full
  }

  /** No superseded epoch is attested again. */
  ghost predicate Ordered(runs: seq<AttestRun>) {
    forall i, j | 0 <= i < j < |runs| :: runs[i].watched <= runs[j].watched
  }

  /** Nothing is attested again after a full success. */
  ghost predicate FullEnds(runs: seq<AttestRun>) {
    forall i, j | 0 <= i < j < |runs| && Full(runs[i]) :: runs[i].watched < runs[j].watched
  }

  ghost predicate BudgetKept(runs: seq<AttestRun>) {
    && Ordered(runs)
    && FullEnds(runs)
    && forall e :: Tries(runs, e) <= MAX_ATTEMPTS_PER_EPOCH
  }

  /** The memory explains the runs. */
  ghost predicate MemoryOk(f: File) {
    match f.st
    case None => f.runs == []
    case Some(st) =>
      && Tries(f.runs, st.epoch) == st.attempts
      && (forall i | 0 <= i < |f.runs| :: f.runs[i].watched <= st.epoch)
      && (!st.handled ==> forall i | 0 <= i < |f.runs| && Full(f.runs[i]) :: f.runs[i].watched < st.epoch)
  }

  predicate NotBefore(f: File, epoch: Epoch) {
    f.st.Some? ==> f.st.value.epoch <= epoch
  }

  lemma StartCounts(f: File, epoch: Epoch)
    requires MemoryOk(f) && NotBefore(f, epoch)
    ensures Tries(f.runs, epoch) == Start(f.st, epoch).attempts
    ensures forall i | 0 <= i < |f.runs| :: f.runs[i].watched <= epoch
    ensures !Start(f.st, epoch).handled ==> forall i | 0 <= i < |f.runs| && Full(f.runs[i]) :: f.runs[i].watched < epoch
  {
    if f.st.None? || f.st.value.epoch != epoch {
      NoTriesBeyond(f.runs, epoch);
    }
  }

  lemma DecideKeepsMemory(f: File, v: Visit, epoch: Epoch)
    requires v.coverage.Row? && MemoryOk(f) && NotBefore(f, epoch)
    ensures MemoryOk(FileDecide(f, v, epoch))
  {
    StartCounts(f, epoch);
    TriesGrow(f.runs, AttestRun(v.root, epoch, v.run), epoch);
  }

  lemma OneMoreRunKeepsOrder(runs: seq<AttestRun>, r: AttestRun)
    requires Ordered(runs) && FullEnds(runs)
    requires forall i | 0 <= i < |runs| ::
               runs[i].watched <= r.watched && (Full(runs[i]) ==> runs[i].watched < r.watched)
    ensures Ordered(runs + [r]) && FullEnds(runs + [r])
  {
  }

  lemma OneMoreRunKeepsBudget(runs: seq<AttestRun>, r: AttestRun)
    requires BudgetKept(runs) && Tries(runs, r.watched) < MAX_ATTEMPTS_PER_EPOCH
    requires forall i | 0 <= i < |runs| ::
               runs[i].watched <= r.watched && (Full(runs[i]) ==> runs[i].watched < r.watched)
    ensures BudgetKept(runs + [r])
  {
    OneMoreRunKeepsOrder(runs, r);
    forall e ensures Tries(runs + [r], e) <= MAX_ATTEMPTS_PER_EPOCH {
      TriesGrow(runs, r, e);
    }
  }

  lemma DecideKeepsBudget(f: File, v: Visit, epoch: Epoch)
    requires v.coverage.Row? && MemoryOk(f) && NotBefore(f, epoch) && BudgetKept(f.runs)
    ensures BudgetKept(FileDecide(f, v, epoch).runs)
  {
    StartCounts(f, epoch);
    if DecisionFor(f.st, v, epoch).Attempt? {
      OneMoreRunKeepsBudget(f.runs, AttestRun(v.root, epoch, v.run));
    }
  }

  lemma {:induction false} RunKeepsBudget(root: Root, visits: seq<Visit>)
    requires NonDecreasing(Epochs(root, visits))
    ensures var f := FileRun(root, visits);
            && MemoryOk(f) && BudgetKept(f.runs)
            && (f.st.Some? ==> f.st.value.epoch in Epochs(root, visits))
  {
    if visits != [] {
      var n := |visits| - 1;
      var es, before, v := Epochs(root, visits), Epochs(root, visits[..n]), visits[n];
      assert forall i | 0 <= i < |before| :: before[i] == es[i];
      RunKeepsBudget(root, visits[..n]);
      if v.root == root && Decided(v).Some? {
        var f, e := FileRun(root, visits[..n]), Decided(v).value;
        assert NotBefore(f, e) by {
          assert es == before + [e];
          assert forall i | 0 <= i < |before| :: before[i] <= es[|before|];
        }
        DecideKeepsMemory(f, v, e);
        DecideKeepsBudget(f, v, e);
      }
    }
  }

  // ── When epochs go back ──

  /** The worst answers for a sequence of epochs: every run fails to start. */
  function FailingVisit(root: Root, epoch: Epoch): Visit {
    Visit(root, Row(epoch, map[]), Shape(0, false), {0}, Some({0}), NotStarted)
  }

  function FailingVisits(root: Root, epochs: seq<Epoch>): seq<Visit> {
    if epochs == [] then []
    else
      FailingVisits(root, epochs[..|epochs| - 1])
      + [FailingVisit(root, epochs[|epochs| - 1])]
  }

  lemma {:induction false} FailingVisitsShow(root: Root, epochs: seq<Epoch>)
    ensures Epochs(root, FailingVisits(root, epochs)) == epochs
  {
    if epochs != [] {
      var n := |epochs| - 1;
      var before := FailingVisits(root, epochs[..n]);
      FailingVisitsShow(root, epochs[..n]);
      assert FailingVisits(root, epochs)[..|before|] == before;
      assert epochs == epochs[..n] + [epochs[n]];
    }
  }

  /** Under them every epoch read is attested at least once, in order. */
  predicate Follows(f: File, last: Epoch) {
    && f.st.Some? && f.st.value.epoch == last && !f.st.value.handled && f.st.value.attempts > 0
    && f.runs != [] && f.runs[|f.runs| - 1].watched == last
  }

  lemma FailingVisitFollows(f: File, root: Root, epoch: Epoch)
    requires f == File(None, []) || (f.runs != [] && Follows(f, f.runs[|f.runs| - 1].watched))
    ensures var f' := FileDecide(f, FailingVisit(root, epoch), epoch);
            Follows(f', epoch) && f.runs <= f'.runs
  {
    assert {0} * {0} == {0};
  }

  function FailingFile(root: Root, epochs: seq<Epoch>): File {
    if epochs == [] then File(None, [])
    else
      var e := epochs[|epochs| - 1];
      FileDecide(FailingFile(root, epochs[..|epochs| - 1]), FailingVisit(root, e), e)
  }

  lemma {:induction false} FailingVisitsBuildIt(root: Root, epochs: seq<Epoch>)
    ensures FileRun(root, FailingVisits(root, epochs)) == FailingFile(root, epochs)
            && !Dropped(root, FailingVisits(root, epochs))
  {
    if epochs != [] {
      var before := FailingVisits(root, epochs[..|epochs| - 1]);
      FailingVisitsBuildIt(root, epochs[..|epochs| - 1]);
      assert FailingVisits(root, epochs)[..|before|] == before;
    }
  }

  lemma {:induction false} FailingFileFollows(root: Root, epochs: seq<Epoch>)
    requires epochs != []
    ensures Follows(FailingFile(root, epochs), epochs[|epochs| - 1])
  {
    var n := |epochs| - 1;
    if n > 0 {
      FailingFileFollows(root, epochs[..n]);
    }
    FailingVisitFollows(FailingFile(root, epochs[..n]), root, epochs[n]);
  }

  lemma {:induction false} FailingFileGrows(root: Root, epochs: seq<Epoch>, k: nat)
    requires k <= |epochs|
    ensures FailingFile(root, epochs[..k]).runs <= FailingFile(root, epochs).runs
    decreases |epochs|
  {
    if k == |epochs| {
      assert epochs[..k] == epochs;
    } else {
      var n := |epochs| - 1;
      FailingFileGrows(root, epochs[..n], k);
      assert epochs[..n][..k] == epochs[..k];
      if n > 0 {
        FailingFileFollows(root, epochs[..n]);
      }
      FailingVisitFollows(FailingFile(root, epochs[..n]), root, epochs[n]);
    }
  }

  lemma BackwardEpochsAreAttestedAgain(root: Root, epochs: seq<Epoch>, i: nat, j: nat)
    requires i < j < |epochs| && epochs[i] > epochs[j]
    ensures !Ordered(FailingFile(root, epochs).runs)
  {
    var upToI, upToJ := epochs[..i + 1], epochs[..j + 1];
    FailingFileFollows(root, upToI);
    FailingFileFollows(root, upToJ);
    assert upToJ[..i + 1] == upToI;
    FailingFileGrows(root, upToJ, i + 1);
    FailingFileGrows(root, epochs, j + 1);
    OutOfOrder(FailingFile(root, upToI).runs, FailingFile(root, upToJ).runs, FailingFile(root, epochs).runs);
  }

  lemma OutOfOrder(a: seq<AttestRun>, b: seq<AttestRun>, c: seq<AttestRun>)
    requires a != [] && a <= b <= c && a[|a| - 1].watched > b[|b| - 1].watched
    ensures !Ordered(c)
  {
    assert c[|a| - 1] == a[|a| - 1] && c[|b| - 1] == b[|b| - 1] && |a| < |b|;
  }

  /** The exact condition: whatever else fails, the budget of a file holds over a run if the epochs read for it never go
      back, and if they do go back there are answers under which a superseded epoch is attested again. */
  lemma BudgetIff(root: Root, epochs: seq<Epoch>)
    ensures (forall visits | Epochs(root, visits) == epochs ::
             BudgetKept(FileOf(root, Tick(FRESH, visits).watcher).runs))
            <==> NonDecreasing(epochs)
  {
    if NonDecreasing(epochs) {
      forall visits | Epochs(root, visits) == epochs
        ensures BudgetKept(FileOf(root, Tick(FRESH, visits).watcher).runs)
      {
        FilesDoNotInterfere(root, visits);
        RunKeepsBudget(root, visits);
      }
    } else {
      var i, j :| 0 <= i < j < |epochs| && epochs[i] > epochs[j];
      BackwardEpochsAreAttestedAgain(root, epochs, i, j);
      FailingVisitsBuildIt(root, epochs);
      FilesDoNotInterfere(root, FailingVisits(root, epochs));
      FailingVisitsShow(root, epochs);
    }
  }

  // ── The epochs the runs themselves attest ──

  /** The chain's clock for one file: each read, by a look or by the run it starts, is no older than the reads before.
      */
  ghost predicate ReadsInOrder(runs: seq<AttestRun>) {
    && (forall i | 0 <= i < |runs| && runs[i].result.Ran? :: runs[i].watched <= runs[i].result.epoch)
    && (forall i, j | 0 <= i < j < |runs| && runs[i].result.Ran? :: runs[i].result.epoch <= runs[j].watched)
  }

  function RunsAt(runs: seq<AttestRun>, epoch: Epoch): nat {
    if runs == [] then 0
    else
      var r := runs[|runs| - 1];
      RunsAt(runs[..|runs| - 1], epoch) + if r.result.Ran? && r.result.epoch == epoch then 1 else 0
  }

  lemma {:induction false} SomeRunAt(runs: seq<AttestRun>, epoch: Epoch)
    requires RunsAt(runs, epoch) > 0
    ensures exists i | 0 <= i < |runs| :: runs[i].result.Ran? && runs[i].result.epoch == epoch
  {
    var n := |runs| - 1;
    if !(runs[n].result.Ran? && runs[n].result.epoch == epoch) {
      SomeRunAt(runs[..n], epoch);
      var i :| 0 <= i < n && runs[..n][i].result.Ran? && runs[..n][i].result.epoch == epoch;
      assert runs[i] == runs[..n][i];
    }
  }

  /** A run reads its epoch again after the look that started it, so at most one run attests an epoch the watcher has
      not seen yet: the chain sees at most one run more per epoch than the budget. */
  lemma {:induction false} OneEarlyRunPerEpoch(runs: seq<AttestRun>, epoch: Epoch)
    requires ReadsInOrder(runs)
    ensures RunsAt(runs, epoch) <= Tries(runs, epoch) + 1
  {
    if runs != [] {
      var n := |runs| - 1;
      OneEarlyRunPerEpoch(runs[..n], epoch);
      if RunsAt(runs[..n], epoch) > 0 {
        SomeRunAt(runs[..n], epoch);
      }
    }
  }

  /** The chain's latest epoch for one file never goes back, from one read of it to the next: the look's, then the one
      of the run it may start, then the next look's. */
  ghost predicate ClockMovesForward(root: Root, visits: seq<Visit>) {
    && (forall i | 0 <= i < |visits| && AtFile(root, visits[i]) :: visits[i].coverage.latest <= LastRead(visits[i]))
    && (forall i, j | 0 <= i < j < |visits| && AtFile(root, visits[i]) && AtFile(root, visits[j]) ::
          LastRead(visits[i]) <= visits[j].coverage.latest)
  }

  predicate AtFile(root: Root, v: Visit) {
    v.root == root && Decided(v).Some?
  }

  function LastRead(v: Visit): Epoch
    requires Decided(v).Some?
  {
    if v.run.Ran? then v.run.epoch else v.coverage.latest
  }

  predicate StartedBy(r: AttestRun, v: Visit) {
    Decided(v) == Some(r.watched) && r.result == v.run
  }

  lemma {:induction false} RunsComeFromVisits(root: Root, visits: seq<Visit>, r: AttestRun)
    requires r in FileRun(root, visits).runs
    ensures exists i | 0 <= i < |visits| :: AtFile(root, visits[i]) && StartedBy(r, visits[i])
  {
    var n := |visits| - 1;
    if r in FileRun(root, visits[..n]).runs {
      RunsComeFromVisits(root, visits[..n], r);
      var i :| 0 <= i < n && AtFile(root, visits[..n][i]) && StartedBy(r, visits[..n][i]);
      assert visits[i] == visits[..n][i];
    } else {
      assert AtFile(root, visits[n]) && StartedBy(r, visits[n]);
    }
  }

  lemma {:induction false} EpochsComeFromVisits(root: Root, visits: seq<Visit>, e: Epoch)
    requires e in Epochs(root, visits)
    ensures exists i | 0 <= i < |visits| :: AtFile(root, visits[i]) && Decided(visits[i]) == Some(e)
  {
    var n := |visits| - 1;
    if e in Epochs(root, visits[..n]) {
      EpochsComeFromVisits(root, visits[..n], e);
      var i :| 0 <= i < n && AtFile(root, visits[..n][i]) && Decided(visits[..n][i]) == Some(e);
      assert visits[i] == visits[..n][i];
    } else {
      assert AtFile(root, visits[n]);
    }
  }

  lemma ClockOfPrefix(root: Root, visits: seq<Visit>)
    requires visits != [] && ClockMovesForward(root, visits)
    ensures ClockMovesForward(root, visits[..|visits| - 1])
  {
    var before := visits[..|visits| - 1];
    assert forall i | 0 <= i < |before| :: before[i] == visits[i];
  }

  lemma {:induction false} ClockOrdersEpochs(root: Root, visits: seq<Visit>)
    requires ClockMovesForward(root, visits)
    ensures NonDecreasing(Epochs(root, visits))
  {
    if visits != [] {
      var n := |visits| - 1;
      ClockOfPrefix(root, visits);
      ClockOrdersEpochs(root, visits[..n]);
      var before := Epochs(root, visits[..n]);
      forall e | e in before && AtFile(root, visits[n]) ensures e <= visits[n].coverage.latest {
        EpochsComeFromVisits(root, visits[..n], e);
        var i :| 0 <= i < n && AtFile(root, visits[..n][i]) && Decided(visits[..n][i]) == Some(e);
        assert visits[i] == visits[..n][i];
      }
      assert forall i | 0 <= i < |before| :: before[i] in before;
    }
  }

  lemma {:induction false} ClockOrdersReads(root: Root, visits: seq<Visit>)
    requires ClockMovesForward(root, visits)
    ensures ReadsInOrder(FileRun(root, visits).runs)
  {
    if visits != [] {
      var n := |visits| - 1;
      ClockOfPrefix(root, visits);
      ClockOrdersReads(root, visits[..n]);
      var before := FileRun(root, visits[..n]).runs;
      forall r | r in before && r.result.Ran? && AtFile(root, visits[n])
        ensures r.result.epoch <= visits[n].coverage.latest
      {
        RunsComeFromVisits(root, visits[..n], r);
        var i :| 0 <= i < n && AtFile(root, visits[..n][i]) && StartedBy(r, visits[..n][i]);
        assert visits[i] == visits[..n][i];
      }
    }
  }

  /** Over every run of the watcher: the epochs its runs attest never go back, and no epoch is attested more than four
      times, the three of its budget and one started just before the watcher saw it. */
  lemma AttestedEpochsAreBounded(root: Root, visits: seq<Visit>, epoch: Epoch)
    requires ClockMovesForward(root, visits)
    ensures var runs := FileOf(root, Tick(FRESH, visits).watcher).runs;
            && BudgetKept(runs)
            && RunsAt(runs, epoch) <= MAX_ATTEMPTS_PER_EPOCH + 1
            && forall i, j | 0 <= i < j < |runs| && runs[i].result.Ran? && runs[j].result.Ran? ::
                 runs[i].result.epoch <= runs[j].result.epoch
  {
    FilesDoNotInterfere(root, visits);
    ClockOrdersEpochs(root, visits);
    RunKeepsBudget(root, visits);
    ClockOrdersReads(root, visits);
    OneEarlyRunPerEpoch(FileRun(root, visits).runs, epoch);
  }

  // ── The budget in the epochs the runs read ──

  /** No epoch gets more than its three runs, or another run after a full one, counting by what the runs read. */
  ghost predicate OwnBudgetKept(runs: seq<AttestRun>) {
    && (forall e :: RunsAt(runs, e) <= MAX_ATTEMPTS_PER_EPOCH)
    && (forall i, j | 0 <= i < j < |runs| && Full(runs[i]) && runs[j].result.Ran? ::
          runs[i].result.epoch < runs[j].result.epoch)
  }

  /** What a run may read after a look; `lags(l, r)` says that it may read `r` after a look at `l`. */
  type Lags = (Epoch, Epoch) -> bool

  ghost predicate ReadsAllowed(root: Root, visits: seq<Visit>, lags: Lags) {
    forall i | 0 <= i < |visits| && AtFile(root, visits[i]) && visits[i].run.Ran? ::
      lags(visits[i].coverage.latest, visits[i].run.epoch)
  }

  lemma {:induction false} RunsAtAreTries(runs: seq<AttestRun>, epoch: Epoch)
    requires forall i | 0 <= i < |runs| && runs[i].result.Ran? :: runs[i].result.epoch == runs[i].watched
    ensures RunsAt(runs, epoch) <= Tries(runs, epoch)
  {
    if runs != [] {
      var n := |runs| - 1;
      assert forall i | 0 <= i < n :: runs[..n][i] == runs[i];
      RunsAtAreTries(runs[..n], epoch);
    }
  }

  lemma NoLagKeepsOwnBudget(runs: seq<AttestRun>)
    requires BudgetKept(runs)
    requires forall i | 0 <= i < |runs| && runs[i].result.Ran? :: runs[i].result.epoch == runs[i].watched
    ensures OwnBudgetKept(runs)
  {
    forall e ensures RunsAt(runs, e) <= MAX_ATTEMPTS_PER_EPOCH {
      RunsAtAreTries(runs, e);
    }
  }

  lemma RunsReadWhatLooksRead(root: Root, visits: seq<Visit>, lags: Lags)
    requires ClockMovesForward(root, visits) && ReadsAllowed(root, visits, lags)
    requires forall l, r | l < r :: !lags(l, r)
    ensures var runs := FileRun(root, visits).runs;
            forall i | 0 <= i < |runs| && runs[i].result.Ran? :: runs[i].result.epoch == runs[i].watched
  {
    var runs := FileRun(root, visits).runs;
    forall i | 0 <= i < |runs| && runs[i].result.Ran? ensures runs[i].result.epoch == runs[i].watched {
      RunsComeFromVisits(root, visits, runs[i]);
      var k :| 0 <= k < |visits| && AtFile(root, visits[k]) && StartedBy(runs[i], visits[k]);
    }
  }

  // The witness: a look at `l` whose run reads `r` and does not finish, then three looks at `r`, the last run in full.

  function OneChunkVisit(root: Root, latest: Epoch, counted: nat, run: RunResult): Visit {
    Visit(root, Row(latest, map[latest := counted]), Shape(0, false), {0}, Some({0}), run)
  }

  function LaggingVisits(root: Root, l: Epoch, r: Epoch): seq<Visit> {
    [OneChunkVisit(root, l, 0, Ran(r, false)), OneChunkVisit(root, r, 0, Ran(r, false)),
     OneChunkVisit(root, r, 0, Ran(r, false)), OneChunkVisit(root, r, 0, Ran(r, true))]
  }

  lemma LaggingFile(root: Root, l: Epoch, r: Epoch, n: nat)
    requires l < r && n <= 4
    ensures !Dropped(root, LaggingVisits(root, l, r)[..n])
    ensures FileRun(root, LaggingVisits(root, l, r)[..n])
            == if n == 0 then File(None, [])
               else File(Some(EpochState(if n == 1 then l else r, n == 4, if n == 1 then 1 else n - 1)),
                         LaggingRuns(root, l, r)[..n])
  {
    var visits := LaggingVisits(root, l, r);
    if n > 0 {
      assert visits[..n][..n - 1] == visits[..n - 1];
      LaggingFile(root, l, r, n - 1);
      assert {0} * {0} == {0};
      assert LaggingRuns(root, l, r)[..n] == LaggingRuns(root, l, r)[..n - 1] + [LaggingRuns(root, l, r)[n - 1]];
    }
  }

  function LaggingRuns(root: Root, l: Epoch, r: Epoch): seq<AttestRun> {
    [AttestRun(root, l, Ran(r, false)), AttestRun(root, r, Ran(r, false)),
     AttestRun(root, r, Ran(r, false)), AttestRun(root, r, Ran(r, true))]
  }

  lemma LaggingCount(root: Root, l: Epoch, r: Epoch, n: nat)
    requires n <= 4
    ensures RunsAt(LaggingRuns(root, l, r)[..n], r) == n
  {
    if n > 0 {
      assert LaggingRuns(root, l, r)[..n][..n - 1] == LaggingRuns(root, l, r)[..n - 1];
      LaggingCount(root, l, r, n - 1);
    }
  }

  lemma LaggingClock(root: Root, l: Epoch, r: Epoch)
    requires l < r
    ensures ClockMovesForward(root, LaggingVisits(root, l, r))
  {
  }

  /** The fourth run is real: whenever a run reads a later epoch than its look, that epoch can be attested four times.
      */
  lemma FourRunsAtOneEpoch(root: Root, l: Epoch, r: Epoch)
    requires l < r
    ensures ClockMovesForward(root, LaggingVisits(root, l, r))
    ensures RunsAt(FileOf(root, Tick(FRESH, LaggingVisits(root, l, r)).watcher).runs, r) == MAX_ATTEMPTS_PER_EPOCH + 1
  {
    LaggingClock(root, l, r);
    LaggingFile(root, l, r, 4);
    LaggingCount(root, l, r, 4);
    assert LaggingVisits(root, l, r)[..4] == LaggingVisits(root, l, r);
    assert LaggingRuns(root, l, r)[..4] == LaggingRuns(root, l, r);
    FilesDoNotInterfere(root, LaggingVisits(root, l, r));
  }

  /** The exact condition for the budget in the epochs the runs read: it holds over every run of the watcher if and only
      if no run can read a later epoch than the look that started it. */
  lemma OwnBudgetIff(root: Root, lags: Lags)
    requires forall e :: lags(e, e)
    ensures (forall visits | ClockMovesForward(root, visits) && ReadsAllowed(root, visits, lags) ::
               OwnBudgetKept(FileOf(root, Tick(FRESH, visits).watcher).runs))
            <==> (forall l, r | l < r :: !lags(l, r))
  {
    if l, r :| l < r && lags(l, r) {
      FourRunsAtOneEpoch(root, l, r);
      assert ReadsAllowed(root, LaggingVisits(root, l, r), lags);
    } else {
      forall visits | ClockMovesForward(root, visits) && ReadsAllowed(root, visits, lags)
        ensures OwnBudgetKept(FileOf(root, Tick(FRESH, visits).watcher).runs)
      {
        FilesDoNotInterfere(root, visits);
        ClockOrdersEpochs(root, visits);
        RunKeepsBudget(root, visits);
        RunsReadWhatLooksRead(root, visits, lags);
        NoLagKeepsOwnBudget(FileRun(root, visits).runs);
      }
    }
  }

  lemma EarlyLooks()
    ensures Look(FRESH, OneChunkVisit(0, 5, 0, Ran(6, true)))
            == Looked(Watcher(map[0 := EpochState(5, true, 1)], {}, [AttestRun(0, 5, Ran(6, true))]),
                      Report(1, [(0, 5)], []))
    ensures Look(Watcher(map[0 := EpochState(5, true, 1)], {}, [AttestRun(0, 5, Ran(6, true))]),
                 OneChunkVisit(0, 6, 1, Ran(6, true)))
            == Looked(Watcher(map[0 := EpochState(6, true, 1)], {},
                              [AttestRun(0, 5, Ran(6, true)), AttestRun(0, 6, Ran(6, true))]),
                      Report(1, [(0, 6)], []))
  {
    assert {0} * {0} == {0};
  }

  /** And even a full success is repeated: an epoch change between the look and its run is attested in full and reported
      under the old epoch's name, and then attested once more under its own. */
  lemma EpochMovesMidRunExample()
    ensures Tick(FRESH, [OneChunkVisit(0, 5, 0, Ran(6, true)), OneChunkVisit(0, 6, 1, Ran(6, true))])
            == Looked(Watcher(map[0 := EpochState(6, true, 1)], {},
                              [AttestRun(0, 5, Ran(6, true)), AttestRun(0, 6, Ran(6, true))]),
                      Report(2, [(0, 5), (0, 6)], []))
  {
    EarlyLooks();
    var look, again := OneChunkVisit(0, 5, 0, Ran(6, true)), OneChunkVisit(0, 6, 1, Ran(6, true));
    TickGrows(FRESH, [], look);
    TickGrows(FRESH, [look], again);
    assert [] + [look] == [look] && [look] + [again] == [look, again];
  }

  // ── Counting instead of comparing ──

  lemma SizesCompareByDifference(a: set<nat>, b: set<nat>)
    ensures |a| >= |b| <==> |a - b| >= |b - a|
    ensures b <= a ==> |a| >= |b|
  {
    assert a == (a - b) + (a * b) && b == (b - a) + (a * b);
    assert |a| == |a - b| + |a * b| && |b| == |b - a| + |a * b|;
    if b <= a {
      assert b - a == {};
    }
  }

  /** At first sight the watcher compares counts. For whatever chunks this archive has attested in the epoch, that tells
      whether all wanted ones are among them if and only if they are, or the attested chunks no longer wanted are fewer
      than the wanted ones not attested. */
  lemma CountTellsIff(v: Visit, epoch: Epoch, attested: set<nat>)
    requires v.coverage.Row? && v.assignment.Some?
    requires |attested| == if epoch in v.coverage.attested then v.coverage.attested[epoch] else 0
    ensures var wanted := v.assignment.value * v.held;
            AlreadyAttested(v, epoch) == Some(wanted <= attested)
            <==> wanted <= attested || |attested - wanted| < |wanted - attested|
  {
    var wanted := v.assignment.value * v.held;
    SizesCompareByDifference(attested, wanted);
    if wanted == {} {
      assert wanted <= attested;
    }
  }

  /** It does go wrong: chunk 0 attested and lost, chunk 1 held and unattested. */
  lemma LostChunkExample()
    ensures var v := Visit(0, Row(5, map[5 := 1]), Shape(0, false), {1}, Some({0, 1}), NotStarted);
            && AlreadyAttested(v, 5) == Some(true)
            && Tick(FRESH, [v]).watcher == Watcher(map[0 := EpochState(5, true, 0)], {}, [])
            && v.assignment.value * v.held == {1}
  {
    var v := Visit(0, Row(5, map[5 := 1]), Shape(0, false), {1}, Some({0, 1}), NotStarted);
    assert v.assignment.value * v.held == {1};
    assert [v][..0] == [];
  }
}
