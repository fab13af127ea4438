/**
 Attestation runs over the chain's bitmap, which only ever gains bits: what any number of partial runs add up to.
 */
module AttestConvergence {
  import opened Wrappers
  import opened Identity
  import opened Attestor

  /** One run: what it set out to attest, what it returned, and whether the transaction it gave up waiting for was
      included all the same. */
  datatype Attempt = Attempt(wanted: seq<ChunkIndex>, cap: nat, start: nat, chain: Chain, summary: Summary,
                             landed: bool)

  /** Only a timeout or a lost status answer leaves the transaction's fate open. */
  ghost predicate Sound(a: Attempt) {
    && RunOk(a.wanted, a.cap, a.start, a.chain, a.summary)
    && (a.landed ==>
        a.summary.error.Some? && a.summary.error.value.Wait? && a.summary.error.value.why in {TimedOut, RpcError})
  }

  /** What the run set on the chain, in order. */
  function Effect(a: Attempt): seq<ChunkIndex> {
    match a.summary.error
    case Some(Wait(_, chunkIndices, _, _)) =>
      if a.landed then Flatten(a.summary.batches) + chunkIndices else Flatten(a.summary.batches)
    case _ => Flatten(a.summary.batches)
  }

  function Reach(a: Attempt): nat {
    |Effect(a)|
  }

  function Bits(a: Attempt): set<ChunkIndex> {
    set i | i in Effect(a)
  }

  /** The bitmap after the runs: each merges in its own bits. */
  function Covered(bits: set<ChunkIndex>, runs: seq<Attempt>): set<ChunkIndex> {
    if runs == [] then bits
    else Covered(bits, runs[..|runs| - 1]) + Bits(runs[|runs| - 1])
  }

  lemma EffectIsPrefix(a: Attempt)
    requires Sound(a)
    ensures Reach(a) <= |a.wanted| && Effect(a) == a.wanted[..Reach(a)]
    ensures a.summary.FullyAttested() ==> Effect(a) == a.wanted
    ensures Reach(a) == a.summary.AttestedCount() + if a.landed then |a.summary.error.value.chunkIndices| else 0
  {
    RunIsPrefix(a.wanted, a.cap, a.start, a.chain, a.summary);
    if a.landed {
      FailedSliceFollows(a.wanted, a.cap, a.start, a.chain, a.summary);
    }
  }

  lemma {:induction false} CoveredOnlyGrows(bits: set<ChunkIndex>, runs: seq<Attempt>, n: nat)
    requires n <= |runs|
    ensures bits <= Covered(bits, runs[..n]) <= Covered(bits, runs)
  {
    if n < |runs| {
      CoveredOnlyGrows(bits, runs[..|runs| - 1], n);
      assert runs[..|runs| - 1][..n] == runs[..n];
    } else {
      assert runs[..n] == runs;
      if n > 0 {
        CoveredOnlyGrows(bits, runs[..n - 1], n - 1);
      }
    }
  }

  lemma CoveredAfter(bits: set<ChunkIndex>, runs: seq<Attempt>, k: nat)
    requires k < |runs|
    ensures Covered(bits, runs[..k + 1]) == Covered(bits, runs[..k]) + Bits(runs[k])
  {
    assert runs[..k + 1][..k] == runs[..k] && runs[..k + 1][k] == runs[k];
  }

  lemma ReachedIsCovered(bits: set<ChunkIndex>, runs: seq<Attempt>, i: ChunkIndex, k: nat)
    requires k < |runs| && i in Bits(runs[k])
    ensures i in Covered(bits, runs)
  {
    CoveredOnlyGrows(bits, runs, k + 1);
    CoveredAfter(bits, runs, k);
  }

  lemma {:induction false} CoveredWasReached(bits: set<ChunkIndex>, runs: seq<Attempt>, i: ChunkIndex) returns (k: nat)
    requires i in Covered(bits, runs) && i !in bits
    ensures k < |runs| && i in Effect(runs[k])
  {
    var n := |runs| - 1;
    if i in Covered(bits, runs[..n]) {
      k := CoveredWasReached(bits, runs[..n], i);
    } else {
      k := n;
    }
  }

  /** A bit is set if and only if it was before or some run reached it. */
  lemma CoveredIff(bits: set<ChunkIndex>, runs: seq<Attempt>, i: ChunkIndex)
    ensures i in Covered(bits, runs) <==> i in bits || exists a | a in runs :: i in Effect(a)
  {
    if i in Covered(bits, runs) && i !in bits {
      var k := CoveredWasReached(bits, runs, i);
    }
    CoveredOnlyGrows(bits, runs, 0);
    if a :| a in runs && i in Effect(a) {
      var k :| 0 <= k < |runs| && runs[k] == a;
      ReachedIsCovered(bits, runs, i, k);
    }
  }

  /** No run sets a bit outside the assignment or outside what is held. */
  lemma NeverOutsideTheAssignment(bits: set<ChunkIndex>, runs: seq<Attempt>, chunkCount: nat,
                                  assignees: ChunkIndex -> set<Address>,
                                  me: Address, held: set<ChunkIndex>, i: ChunkIndex)
    requires forall a | a in runs ::
               && Sound(a)
               && exists h: set<ChunkIndex> :: h <= held && a.wanted == ToAttest(chunkCount, assignees, me, h)
    requires i in Covered(bits, runs) && i !in bits
    ensures i < chunkCount && me in assignees(i) && i in held
  {
    CoveredIff(bits, runs, i);
    var a :| a in runs && i in Effect(a);
    EffectIsPrefix(a);
    var h: set<ChunkIndex> :| h <= held && a.wanted == ToAttest(chunkCount, assignees, me, h);
    assert i in a.wanted;
    ToAttestIsSortedIntersection(chunkCount, assignees, me, h);
  }

  ghost predicate Ascending(s: seq<ChunkIndex>) {
    forall k, l | 0 <= k < l < |s| :: s[k] < s[l]
  }

  /** When every run starts over from the same set, as the triggers do, the chunks covered are those before the furthest
      point any run reached. */
  lemma RestartedRunsCover(bits: set<ChunkIndex>, runs: seq<Attempt>, wanted: seq<ChunkIndex>, j: nat)
    requires forall a | a in runs :: Sound(a) && a.wanted == wanted
    requires Ascending(wanted)
    requires j < |wanted| && wanted[j] !in bits
    ensures wanted[j] in Covered(bits, runs) <==> exists a | a in runs :: j < Reach(a)
  {
    CoveredIff(bits, runs, wanted[j]);
    forall a | a in runs ensures wanted[j] in Effect(a) <==> j < Reach(a) {
      EffectIsPrefix(a);
      if j < Reach(a) {
        assert Effect(a)[j] == wanted[j];
      }
    }
  }

  /** The run reaches past every wanted chunk that was not covered before. */
  predicate ReachesPastUncovered(a: Attempt, wanted: seq<ChunkIndex>, bits: set<ChunkIndex>) {
    forall j | 0 <= j < |wanted| && wanted[j] !in bits :: j < Reach(a)
  }

  lemma {:induction false} LastUncovered(wanted: seq<ChunkIndex>, bits: set<ChunkIndex>, n: nat) returns (last: nat)
    requires n <= |wanted| && exists j :: 0 <= j < n && wanted[j] !in bits
    ensures last < n && wanted[last] !in bits && forall j | last < j < n :: wanted[j] in bits
  {
    if wanted[n - 1] !in bits {
      last := n - 1;
    } else {
      last := LastUncovered(wanted, bits, n - 1);
    }
  }

  /** So the set is covered if and only if it was before, or some single run got past the last chunk that was not. */
  lemma RestartedRunsFinishIff(bits: set<ChunkIndex>, runs: seq<Attempt>, wanted: seq<ChunkIndex>)
    requires forall a | a in runs :: Sound(a) && a.wanted == wanted
    requires Ascending(wanted)
    ensures (forall i | i in wanted :: i in Covered(bits, runs))
            <==> (forall i | i in wanted :: i in bits) || exists a | a in runs :: ReachesPastUncovered(a, wanted, bits)
  {
    if i :| i in wanted && i !in bits {
      var k :| 0 <= k < |wanted| && wanted[k] == i;
      var last := LastUncovered(wanted, bits, |wanted|);
      RestartedRunsCover(bits, runs, wanted, last);
      forall a | a in runs ensures last < Reach(a) <==> ReachesPastUncovered(a, wanted, bits) {
      }
      forall j: nat | j < |wanted| ensures wanted[j] in Covered(bits, runs)
                                           <==> wanted[j] in bits || exists a | a in runs :: j < Reach(a) {
        if wanted[j] in bits {
          CoveredIff(bits, runs, wanted[j]);
        } else {
          RestartedRunsCover(bits, runs, wanted, j);
        }
      }
      assert wanted[last] in wanted;
    } else {
      forall i | i in wanted ensures i in Covered(bits, runs) {
        CoveredIff(bits, runs, i);
      }
    }
  }

  // ── Resuming on what is left ──

  function Remaining(wanted: seq<ChunkIndex>, bits: set<ChunkIndex>): seq<ChunkIndex> {
    if wanted == [] then []
    else
      var before, i := Remaining(wanted[..|wanted| - 1], bits), wanted[|wanted| - 1];
      if i in bits then before else before + [i]
  }

  /** Asking for the held chunks the chain does not have yet is asking for the remainder of the original set. */
  lemma {:induction false} RemainderIsTheRemainingHeld(chunkCount: nat, assignees: ChunkIndex -> set<Address>,
                                                       me: Address, held: set<ChunkIndex>, bits: set<ChunkIndex>)
    ensures ToAttest(chunkCount, assignees, me, held - bits)
            == Remaining(ToAttest(chunkCount, assignees, me, held), bits)
  {
    if chunkCount > 0 {
      var i := chunkCount - 1;
      var before := ToAttest(i, assignees, me, held);
      RemainderIsTheRemainingHeld(i, assignees, me, held, bits);
      assert (before + [i])[..|before|] == before;
    }
  }

  lemma {:induction false} RemainingMembers(wanted: seq<ChunkIndex>, bits: set<ChunkIndex>, i: ChunkIndex)
    ensures i in Remaining(wanted, bits) <==> i in wanted && i !in bits
  {
    if wanted != [] {
      var n := |wanted| - 1;
      assert wanted == wanted[..n] + [wanted[n]];
      RemainingMembers(wanted[..n], bits, i);
    }
  }

  /** Merging in more bits leaves the remainder of the remainder. */
  lemma {:induction false} RemainingTwice(wanted: seq<ChunkIndex>, bits: set<ChunkIndex>, more: set<ChunkIndex>)
    ensures Remaining(wanted, bits + more) == Remaining(Remaining(wanted, bits), more)
  {
    if wanted != [] {
      var n := |wanted| - 1;
      var before := Remaining(wanted[..n], bits);
      RemainingTwice(wanted[..n], bits, more);
      assert (before + [wanted[n]])[..|before|] == before;
    }
  }

  lemma {:induction false} RemainingAfterPrefix(wanted: seq<ChunkIndex>, done: set<ChunkIndex>, n: nat)
    requires n <= |wanted| && forall j | 0 <= j < |wanted| :: wanted[j] in done <==> j < n
    ensures Remaining(wanted, done) == wanted[n..]
  {
    if wanted != [] {
      var m := |wanted| - 1;
      if n <= m {
        RemainingAfterPrefix(wanted[..m], done, n);
        assert wanted[n..] == wanted[..m][n..] + [wanted[m]];
      } else {
        RemainingAfterPrefix(wanted[..m], done, m);
      }
    }
  }

  lemma {:induction false} RemainingAscends(wanted: seq<ChunkIndex>, bits: set<ChunkIndex>)
    requires Ascending(wanted)
    ensures Ascending(Remaining(wanted, bits))
  {
    if wanted != [] {
      var n := |wanted| - 1;
      var before := Remaining(wanted[..n], bits);
      RemainingAscends(wanted[..n], bits);
      forall k | 0 <= k < |before| ensures before[k] < wanted[n] {
        RemainingMembers(wanted[..n], bits, before[k]);
      }
    }
  }

  /** A run over the remainder takes exactly its reach off the front. */
  lemma ResumedRunShrinksRemainder(a: Attempt, wanted: seq<ChunkIndex>, bits: set<ChunkIndex>)
    requires Sound(a) && Ascending(wanted) && a.wanted == Remaining(wanted, bits)
    ensures Reach(a) <= |a.wanted| && Remaining(wanted, bits + Bits(a)) == a.wanted[Reach(a)..]
  {
    var effect := Bits(a);
    EffectIsPrefix(a);
    RemainingAscends(wanted, bits);
    RemainingTwice(wanted, bits, effect);
    forall j | 0 <= j < |a.wanted| ensures a.wanted[j] in effect <==> j < Reach(a) {
      if j < Reach(a) {
        assert Effect(a)[j] == a.wanted[j];
      }
    }
    RemainingAfterPrefix(a.wanted, effect, Reach(a));
  }

  /** Every run is over what the runs before it left. */
  predicate Resumed(wanted: seq<ChunkIndex>, bits: set<ChunkIndex>, runs: seq<Attempt>) {
    forall k | 0 <= k < |runs| :: runs[k].wanted == Remaining(wanted, Covered(bits, runs[..k]))
  }

  function TotalReach(runs: seq<Attempt>): nat {
    if runs == [] then 0 else TotalReach(runs[..|runs| - 1]) + Reach(runs[|runs| - 1])
  }

  /** Conservation: what was left at the start is what the runs covered plus what is left, so nothing is attested twice,
      and the set is covered exactly when the reaches add up to it. */
  lemma {:induction false} ResumedRunsAddUp(wanted: seq<ChunkIndex>, bits: set<ChunkIndex>, runs: seq<Attempt>)
    requires forall a | a in runs :: Sound(a)
    requires Ascending(wanted) && Resumed(wanted, bits, runs)
    ensures TotalReach(runs) + |Remaining(wanted, Covered(bits, runs))| == |Remaining(wanted, bits)|
  {
    if runs != [] {
      var n := |runs| - 1;
      ResumedPrefix(wanted, bits, runs);
      ResumedRunsAddUp(wanted, bits, runs[..n]);
      ResumedRunShrinksRemainder(runs[n], wanted, Covered(bits, runs[..n]));
    }
  }

  /** So if every resumed run finalizes at least one batch while anything is left, as many runs as there are chunks left
      are enough. */
  lemma {:induction false} ProductiveRunsFinish(wanted: seq<ChunkIndex>, bits: set<ChunkIndex>, runs: seq<Attempt>)
    requires forall a | a in runs :: Sound(a)
    requires Ascending(wanted) && Resumed(wanted, bits, runs)
    requires forall a | a in runs :: a.wanted == [] || a.summary.batches != []
    requires |runs| >= |Remaining(wanted, bits)|
    ensures forall i | i in wanted :: i in Covered(bits, runs)
  {
    ResumedRunsAddUp(wanted, bits, runs);
    if Remaining(wanted, Covered(bits, runs)) != [] {
      EachRunMoves(wanted, bits, runs);
      assert false;
    }
    forall i | i in wanted ensures i in Covered(bits, runs) {
      RemainingMembers(wanted, Covered(bits, runs), i);
    }
  }

  lemma ProductiveRunReaches(a: Attempt)
    requires Sound(a) && a.summary.batches != []
    ensures Reach(a) >= 1
  {
    BatchSizes(a.wanted, a.cap, a.start, a.chain, a.summary, 0);
    FlattenedHolds(a.summary.batches);
  }

  lemma ResumedPrefix(wanted: seq<ChunkIndex>, bits: set<ChunkIndex>, runs: seq<Attempt>)
    requires runs != [] && Resumed(wanted, bits, runs)
    ensures Resumed(wanted, bits, runs[..|runs| - 1])
    ensures runs[|runs| - 1].wanted == Remaining(wanted, Covered(bits, runs[..|runs| - 1]))
  {
    var before := runs[..|runs| - 1];
    forall k | 0 <= k < |before| ensures before[k].wanted == Remaining(wanted, Covered(bits, before[..k])) {
      assert before[..k] == runs[..k];
    }
  }

  lemma {:induction false} EachRunMoves(wanted: seq<ChunkIndex>, bits: set<ChunkIndex>, runs: seq<Attempt>)
    requires forall a | a in runs :: Sound(a)
    requires Ascending(wanted) && Resumed(wanted, bits, runs)
    requires forall a | a in runs :: a.wanted == [] || a.summary.batches != []
    requires Remaining(wanted, Covered(bits, runs)) != []
    ensures TotalReach(runs) >= |runs|
  {
    if runs != [] {
      var n := |runs| - 1;
      ResumedPrefix(wanted, bits, runs);
      assert runs[n] in runs;
      ResumedRunShrinksRemainder(runs[n], wanted, Covered(bits, runs[..n]));
      EachRunMoves(wanted, bits, runs[..n]);
      ProductiveRunReaches(runs[n]);
    }
  }

  lemma {:induction false} FlattenedHolds(batches: seq<Batch>)
    requires batches != []
    ensures |Flatten(batches)| >= |batches[0].chunkIndices|
  {
    if |batches| > 1 {
      FlattenedHolds(batches[..|batches| - 1]);
    }
  }
}
