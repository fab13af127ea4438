/**
 Attesting again when a file's assignment epoch changes: a retry budget per file and epoch, over chain answers that may
 fail at any point.
 */
module EpochWatcher {
  import opened Wrappers

  const MAX_ATTEMPTS_PER_EPOCH: nat := 3

  type Root = nat
  type Epoch = nat

  datatype EpochState = EpochState(epoch: Epoch, handled: bool, attempts: nat)

  /** A coverage answer; `attested` is this archive's attested count in each epoch that lists it. */
  datatype Coverage =
    | CoverageUnavailable
    | NoRow
    | NoEpochList
    | Row(latest: Epoch, attested: map<Epoch, nat>)

  datatype Shape = ShapeUnavailable | Shape(assignmentHeight: nat, abandoned: bool)

  /** What an attestation run did: it could not start, or it ran for the epoch it read itself. */
  datatype RunResult = NotStarted | Ran(epoch: Epoch, full: bool)

  /** One look at one held root and everything the outside answers during it. */
  datatype Visit = Visit(
    root: Root,
    coverage: Coverage,
    shape: Shape,
    held: set<nat>,
    assignment: Option<set<nat>>,
    run: RunResult)

  datatype AttestRun = AttestRun(root: Root, watched: Epoch, result: RunResult)

  datatype Watcher = Watcher(state: map<Root, EpochState>, notV2: set<Root>, runs: seq<AttestRun>)

  datatype Report = Report(checked: nat, attested: seq<(Root, Epoch)>, retry: seq<Root>)

  datatype Looked = Looked(watcher: Watcher, report: Report)

  // ── One look ──

  /** The epoch a visit decides about, if it gets that far. */
  function Decided(v: Visit): Option<Epoch> {
    if v.coverage.Row? && v.shape.Shape? && !v.shape.abandoned && v.coverage.latest >= v.shape.assignmentHeight
    then Some(v.coverage.latest) else None
  }

  /** Whether the chain counts at least as many attested chunks as would be attested now; None if it cannot be told. */
  function AlreadyAttested(v: Visit, epoch: Epoch): Option<bool>
    requires v.coverage.Row?
  {
    if v.assignment.None? then None
    else
      var wanted := |v.assignment.value * v.held|;
      var attested := if epoch in v.coverage.attested then v.coverage.attested[epoch] else 0;
      Some(wanted == 0 || attested >= wanted)
  }

  function Memory(w: Watcher, root: Root): Option<EpochState> {
    if root in w.state then Some(w.state[root]) else None
  }

  function Start(previous: Option<EpochState>, epoch: Epoch): EpochState {
    if previous.Some? && previous.value.epoch == epoch then previous.value else EpochState(epoch, false, 0)
  }

  datatype Decision = LeaveIt | CannotTell | NothingToDo | Attempt

  /** Only the first sight of a file asks whether the chain already counts enough. */
  function DecisionFor(previous: Option<EpochState>, v: Visit, epoch: Epoch): Decision
    requires v.coverage.Row?
  {
    var st := Start(previous, epoch);
    if st.handled || st.attempts >= MAX_ATTEMPTS_PER_EPOCH then LeaveIt
    else if v.held == {} then NothingToDo
    else if previous.Some? then Attempt
    else
      match AlreadyAttested(v, epoch)
      case None => CannotTell
      case Some(enough) => if enough then NothingToDo else Attempt
  }

  function RunAttestation(w: Watcher, v: Visit, st: EpochState): Looked {
    var full := v.run.Ran? && v.run.full;
    Looked(
      w.(state := w.state[v.root := EpochState(st.epoch, full, st.attempts + 1)],
         runs := w.runs + [AttestRun(v.root, st.epoch, v.run)]),
      Report(1, if full then [(v.root, st.epoch)] else [], if full then [] else [v.root]))
  }

  function Decide(w: Watcher, v: Visit, epoch: Epoch): Looked
    requires v.coverage.Row?
  {
    var st := Start(Memory(w, v.root), epoch);
    match DecisionFor(Memory(w, v.root), v, epoch)
    case LeaveIt => Looked(w, Report(1, [], []))
    case CannotTell => Looked(w, Report(1, [], [v.root]))
    case NothingToDo => Looked(w.(state := w.state[v.root := st.(handled := true)]), Report(1, [], []))
    case Attempt => RunAttestation(w, v, st)
  }

  function Look(w: Watcher, v: Visit): Looked {
    if v.root in w.notV2 then Looked(w, Report(0, [], []))
    else
      match v.coverage
      case CoverageUnavailable => Looked(w, Report(0, [], [v.root]))
      case NoRow => Looked(w.(notV2 := w.notV2 + {v.root}), Report(0, [], []))
      case NoEpochList => Looked(w, Report(1, [], []))
      case Row(latest, _) =>
        if v.shape.ShapeUnavailable? then Looked(w, Report(1, [], [v.root]))
        else if v.shape.abandoned then Looked(w, Report(1, [], []))
        else if latest < v.shape.assignmentHeight then Looked(w, Report(1, [], [v.root]))
        else Decide(w, v, latest)
  }

  function Plus(a: Report, b: Report): Report {
    Report(a.checked + b.checked, a.attested + b.attested, a.retry + b.retry)
  }

  /** A tick over the held roots; any number of ticks in a row is one over all their visits. */
  function Tick(w: Watcher, visits: seq<Visit>): Looked {
    if visits == [] then Looked(w, Report(0, [], []))
    else
      var before := Tick(w, visits[..|visits| - 1]);
      AndThen(before, Look(before.watcher, visits[|visits| - 1]))
  }

  function AndThen(before: Looked, last: Looked): Looked {
    Looked(last.watcher, Plus(before.report, last.report))
  }

  lemma AndThenIsAssociative(a: Looked, b: Looked, c: Looked)
    ensures AndThen(AndThen(a, b), c) == AndThen(a, AndThen(b, c))
  {
    assert (a.report.attested + b.report.attested) + c.report.attested
           == a.report.attested + (b.report.attested + c.report.attested);
    assert (a.report.retry + b.report.retry) + c.report.retry == a.report.retry + (b.report.retry + c.report.retry);
  }

  lemma NothingAfter(a: Looked)
    ensures AndThen(a, Looked(a.watcher, Report(0, [], []))) == a
  {
    assert a.report.attested + [] == a.report.attested && a.report.retry + [] == a.report.retry;
  }

  lemma TickGrows(w: Watcher, visits: seq<Visit>, v: Visit)
    ensures Tick(w, visits + [v]) == AndThen(Tick(w, visits), Look(Tick(w, visits).watcher, v))
  {
    assert (visits + [v])[..|visits|] == visits;
  }

  lemma TicksComposeWith(w: Watcher, a: seq<Visit>, b: seq<Visit>, v: Visit)
    requires Tick(w, a + b) == AndThen(Tick(w, a), Tick(Tick(w, a).watcher, b))
    ensures Tick(w, a + b + [v]) == AndThen(Tick(w, a), Tick(Tick(w, a).watcher, b + [v]))
  {
    var mid := Tick(w, a).watcher;
    TickGrows(w, a + b, v);
    TickGrows(mid, b, v);
    AndThenIsAssociative(Tick(w, a), Tick(mid, b), Look(Tick(mid, b).watcher, v));
  }

  /** Two ticks one after the other are one longer tick, states and reports alike. */
  lemma {:induction false} TicksCompose(w: Watcher, a: seq<Visit>, b: seq<Visit>)
    ensures Tick(w, a + b) == AndThen(Tick(w, a), Tick(Tick(w, a).watcher, b))
  {
    if b == [] {
      assert a + b == a;
      NothingAfter(Tick(w, a));
    } else {
      TicksCompose(w, a, b[..|b| - 1]);
      TicksComposeWith(w, a, b[..|b| - 1], b[|b| - 1]);
      LastApart(a, b);
    }
  }

  lemma LastApart<T>(a: seq<T>, b: seq<T>)
    requires b != []
    ensures a + b == a + b[..|b| - 1] + [b[|b| - 1]] && b == b[..|b| - 1] + [b[|b| - 1]]
  {
  }

  const FRESH := Watcher(map[], {}, [])

  /** The worker, with its per-file memory. */
  class Worker {
    var state: map<Root, EpochState>
    var notV2: set<Root>
    var runs: seq<AttestRun>

    function View(): Watcher
      reads this
    {
      Watcher(state, notV2, runs)
    }

    constructor ()
      ensures View() == FRESH
    {
      state, notV2, runs := map[], {}, [];
    }

    /** Ok is false where the watcher meets an error, which the tick turns into a retry. */
    method Check(v: Visit, report: Report) returns (ok: bool, after: Report)
      requires v.root !in notV2
      modifies this
      ensures var l := Look(old(View()), v);
              View() == l.watcher
              && Plus(report, l.report) == if ok then after else after.(retry := after.retry + [v.root])
    {
      after := report;
      match v.coverage
      case CoverageUnavailable => return false, after;
      case NoRow =>
        notV2 := notV2 + {v.root};
        return true, after;
      case NoEpochList => return true, after.(checked := after.checked + 1);
      case Row(latest, _) =>
        after := after.(checked := after.checked + 1);
        if v.shape.ShapeUnavailable? {
          return false, after;
        }
        if v.shape.abandoned {
          return true, after;
        }
        if latest < v.shape.assignmentHeight {
          return false, after;
        }
        ok, after := CheckEpoch(v, latest, after);
    }

    method CheckEpoch(v: Visit, epoch: Epoch, report: Report) returns (ok: bool, after: Report)
      requires v.coverage.Row?
      modifies this
      ensures var l := Decide(old(View()), v, epoch);
              View() == l.watcher && Plus(report, l.report)
                                     == var kept := if ok then after else after.(retry := after.retry + [v.root]);
                                        kept.(checked := after.checked + 1)
    {
      after := report;
      var st := Start(Memory(View(), v.root), epoch);
      if st.handled || st.attempts >= MAX_ATTEMPTS_PER_EPOCH {
        return true, after;
      }
      var firstSight := v.root !in state;
      var nothingToDo := v.held == {};
      if !nothingToDo && firstSight {
        var already := AlreadyAttested(v, epoch);
        if already.None? {
          return false, after;
        }
        nothingToDo := already.value;
      }
      if nothingToDo {
        state := state[v.root := st.(handled := true)];
        return true, after;
      }
      st := st.(attempts := st.attempts + 1);
      runs := runs + [AttestRun(v.root, epoch, v.run)];
      if v.run.Ran? && v.run.full {
        st := st.(handled := true);
        after := after.(attested := after.attested + [(v.root, epoch)]);
      } else {
        after := after.(retry := after.retry + [v.root]);
      }
      state := state[v.root := st];
      ok := true;
    }

    method RunTick(visits: seq<Visit>) returns (report: Report)
      modifies this
      ensures Looked(View(), report) == Tick(old(View()), visits)
    {
      report := Report(0, [], []);
      for i := 0 to |visits|
        invariant Looked(View(), report) == Tick(old(View()), visits[..i])
      {
        assert visits[..i + 1][..i] == visits[..i];
        if visits[i].root !in notV2 {
          var ok;
          ok, report := Check(visits[i], report);
          if !ok {
            report := report.(retry := report.retry + [visits[i].root]);
          }
        }
      }
      assert visits[..|visits|] == visits;
    }
  }
}
