/**
 What one look of the watcher does, told from the chain's answers and what is remembered of the file: when it attests,
 what it remembers, what it reports and what it wants to try again.
 */
module EpochWatcherLooks {
  import opened Wrappers
  import opened EpochWatcher

  /** The chain has a row for the file in a state that can be attested in its latest epoch. */
  predicate Attestable(w: Watcher, v: Visit) {
    && v.root !in w.notV2 && v.coverage.Row?
    && v.shape.Shape? && !v.shape.abandoned && v.coverage.latest >= v.shape.assignmentHeight
  }

  /** What is remembered of the file at the epoch: the runs made, and whether it was settled. */
  function AttemptsAt(w: Watcher, root: Root, epoch: Epoch): nat {
    if root in w.state && w.state[root].epoch == epoch then w.state[root].attempts else 0
  }

  predicate SettledAt(w: Watcher, root: Root, epoch: Epoch) {
    root in w.state && w.state[root].epoch == epoch && w.state[root].handled
  }

  /** There is something to decide: the epoch is neither settled nor out of runs. */
  predicate Undecided(w: Watcher, v: Visit) {
    && Attestable(w, v)
    && !SettledAt(w, v.root, v.coverage.latest)
    && AttemptsAt(w, v.root, v.coverage.latest) < MAX_ATTEMPTS_PER_EPOCH
  }

  /** The chain's count of attested chunks at the latest epoch. */
  function CountedNow(v: Visit): nat
    requires v.coverage.Row?
  {
    if v.coverage.latest in v.coverage.attested then v.coverage.attested[v.coverage.latest] else 0
  }

  /** The chain counts fewer chunks than are assigned and held. */
  predicate CountsTooFew(v: Visit)
    requires v.coverage.Row?
  {
    v.assignment.Some? && CountedNow(v) < |v.assignment.value * v.held|
  }

  /** A run is started: for a file seen before always, at first sight only when the chain counts too few. */
  predicate StartsRun(w: Watcher, v: Visit) {
    Undecided(w, v) && v.held != {} && (v.root in w.state || CountsTooFew(v))
  }

  /** There is nothing to attest: nothing is held, or at first sight the chain counts enough. */
  predicate FindsNothing(w: Watcher, v: Visit) {
    Undecided(w, v) && (v.held == {} || (v.root !in w.state && v.assignment.Some? && !CountsTooFew(v)))
  }

  predicate Full(v: Visit) {
    v.run.Ran? && v.run.full
  }

  /** The chain, or the run, gave no usable answer. */
  predicate WantsRetry(w: Watcher, v: Visit) {
    || (v.root !in w.notV2 && v.coverage.CoverageUnavailable?)
    || (v.root !in w.notV2 && v.coverage.Row? && v.shape.ShapeUnavailable?)
    || (v.root !in w.notV2 && v.coverage.Row? && v.shape.Shape? && !v.shape.abandoned
        && v.coverage.latest < v.shape.assignmentHeight)
    || (Undecided(w, v) && v.held != {} && v.root !in w.state && v.assignment.None?)
    || (StartsRun(w, v) && !Full(v))
  }

  lemma WhatIsDecided(w: Watcher, v: Visit)
    requires Attestable(w, v)
    ensures var d := DecisionFor(Memory(w, v.root), v, v.coverage.latest);
            && (d.Attempt? <==> StartsRun(w, v)) && (d.NothingToDo? <==> FindsNothing(w, v))
            && (d.LeaveIt? <==> !Undecided(w, v))
            && (d.CannotTell? <==> Undecided(w, v) && v.held != {} && v.root !in w.state && v.assignment.None?)
  {
  }

  /** What a look starts and what it remembers. */
  lemma LookTells(w: Watcher, v: Visit)
    ensures var after, n := Look(w, v).watcher, AttemptsAt(w, v.root, if v.coverage.Row? then v.coverage.latest else 0);
            && after.runs
              == (if StartsRun(w, v) then w.runs + [AttestRun(v.root, v.coverage.latest, v.run)] else w.runs)
            && after.state == (if StartsRun(w, v) then w.state[v.root := EpochState(v.coverage.latest, Full(v), n + 1)]
                               else if FindsNothing(w, v) then w.state[v.root := EpochState(v.coverage.latest, true, n)]
                               else w.state)
            && after.notV2 == (if v.root !in w.notV2 && v.coverage.NoRow? then w.notV2 + {v.root} else w.notV2)
  {
    if Attestable(w, v) {
      WhatIsDecided(w, v);
    }
  }

  /** What it reports: a file is counted when the chain has it, reported attested when a run was full, and listed for
      another try exactly when something was unavailable, not ready yet, or not full. */
  lemma LookReports(w: Watcher, v: Visit)
    ensures var report := Look(w, v).report;
            && report.checked == (if v.root !in w.notV2 && (v.coverage.Row? || v.coverage.NoEpochList?) then 1 else 0)
            && report.attested == (if StartsRun(w, v) && Full(v) then [(v.root, v.coverage.latest)] else [])
            && report.retry == (if WantsRetry(w, v) then [v.root] else [])
  {
    if Attestable(w, v) {
      WhatIsDecided(w, v);
    }
  }

  // ── Over a tick ──

  ghost predicate Met(w: Watcher, visits: seq<Visit>, i: nat, before: Watcher) {
    i < |visits| && before == Tick(w, visits[..i]).watcher
  }

  /** The looks at files the chain had a row for, with or without an epoch list. */
  function CheckedCount(w: Watcher, visits: seq<Visit>): nat {
    if visits == [] then 0
    else
      var before, v := Tick(w, visits[..|visits| - 1]).watcher, visits[|visits| - 1];
      CheckedCount(w, visits[..|visits| - 1])
      + if v.root !in before.notV2 && (v.coverage.Row? || v.coverage.NoEpochList?) then 1 else 0
  }

  /** The files some look wanted to try again, in the order of the looks. */
  function Retries(w: Watcher, visits: seq<Visit>): seq<Root> {
    if visits == [] then []
    else
      var before, v := Tick(w, visits[..|visits| - 1]).watcher, visits[|visits| - 1];
      Retries(w, visits[..|visits| - 1]) + if WantsRetry(before, v) then [v.root] else []
  }

  /** The files and epochs some look attested in full, in the order of the looks. */
  function Attestations(w: Watcher, visits: seq<Visit>): seq<(Root, Epoch)> {
    if visits == [] then []
    else
      var before, v := Tick(w, visits[..|visits| - 1]).watcher, visits[|visits| - 1];
      Attestations(w, visits[..|visits| - 1])
      + if StartsRun(before, v) && Full(v) then [(v.root, v.coverage.latest)] else []
  }

  /** The whole report of a tick, in the order of its looks. */
  lemma {:induction false} TickTells(w: Watcher, visits: seq<Visit>)
    ensures Tick(w, visits).report
            == Report(CheckedCount(w, visits), Attestations(w, visits), Retries(w, visits))
  {
    if visits != [] {
      TickTells(w, visits[..|visits| - 1]);
      LookReports(Tick(w, visits[..|visits| - 1]).watcher, visits[|visits| - 1]);
    }
  }

  /** The tick lists a file for another try exactly when some look at it wanted one, and reports it attested for an
      epoch exactly when some look started a full run for it. */
  lemma {:induction false} TickReportsIff(w: Watcher, visits: seq<Visit>, root: Root, epoch: Epoch)
    ensures root in Tick(w, visits).report.retry
            <==> exists i: nat, before ::
                   Met(w, visits, i, before) && visits[i].root == root && WantsRetry(before, visits[i])
    ensures (root, epoch) in Tick(w, visits).report.attested
            <==> exists i: nat, before ::
                   Met(w, visits, i, before) && AttestsIn(before, visits[i], root, epoch)
  {
    if visits != [] {
      var n := |visits| - 1;
      TickReportsIff(w, visits[..n], root, epoch);
      LookReports(Tick(w, visits[..n]).watcher, visits[n]);
      var last := Tick(w, visits[..n]).watcher;
      forall i: nat, before
        ensures Met(w, visits, i, before) <==> Met(w, visits[..n], i, before) || (i == n && before == last)
      {
        if i < n {
          assert visits[..n][..i] == visits[..i];
        }
      }
      assert forall i | 0 <= i < n :: visits[..n][i] == visits[i];
      assert Met(w, visits, n, last);
    }
  }

  predicate AttestsIn(w: Watcher, v: Visit, root: Root, epoch: Epoch) {
    StartsRun(w, v) && Full(v) && v.root == root && v.coverage.latest == epoch
  }
}
