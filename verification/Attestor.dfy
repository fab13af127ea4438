/**
 Attesting held chunks on chain: one transaction per slice of at most `cap` chunk indices, each finalized before the
 next, stopping at the first that is not.
 */
module Attestor {
  import opened Wrappers
  import opened Identity

  type ChunkIndex = nat
  type TxHash = nat

  datatype WaitError = Failed | Dropped | TimedOut | RpcError

  /** What becomes of one transaction. */
  datatype Reply =
    | Finalized(txHash: TxHash, height: nat)
    | Refused
    | NotFinalized(failedHash: TxHash, why: WaitError)

  datatype Batch = Batch(chunkIndices: seq<ChunkIndex>, nonce: nat, txHash: TxHash, finalizedAtHeight: nat)

  datatype AttestError =
    | BadParams
    | Submit(nonce: nat, chunkIndices: seq<ChunkIndex>)
    | Wait(nonce: nat, chunkIndices: seq<ChunkIndex>, txHash: TxHash, why: WaitError)

  datatype Summary = Summary(batches: seq<Batch>, error: Option<AttestError>) {
    predicate FullyAttested() {
      error.None?
    }

    function AttestedCount(): nat {
      Total(batches)
    }

    function LastFinalizedNonce(): Option<nat> {
      if batches == [] then None else Some(batches[|batches| - 1].nonce)
    }

    function LastNonceAttempted(): Option<nat> {
      match error
      case Some(Submit(nonce, _)) => Some(nonce)
      case Some(Wait(nonce, _, _, _)) => Some(nonce)
      case _ => LastFinalizedNonce()
    }
  }

  function Total(batches: seq<Batch>): nat {
    if batches == [] then 0 else Total(batches[..|batches| - 1]) + |batches[|batches| - 1].chunkIndices|
  }

  /** Everything the batches attested, in order. */
  function Flatten(batches: seq<Batch>): seq<ChunkIndex> {
    if batches == [] then [] else Flatten(batches[..|batches| - 1]) + batches[|batches| - 1].chunkIndices
  }

  // ── What there is to attest ──

  /** The ascending walk over the file's chunks, keeping those assigned to `me` and held. */
  function ToAttest(chunkCount: nat, assignees: ChunkIndex -> set<Address>, me: Address, held: set<ChunkIndex>)
    : seq<ChunkIndex>
  {
    if chunkCount == 0 then []
    else
      var before, i := ToAttest(chunkCount - 1, assignees, me, held), chunkCount - 1;
      if me in assignees(i) && i in held then before + [i] else before
  }

  /** It is the intersection of assignment and held set, sorted and without repeats. */
  lemma {:induction false} ToAttestIsSortedIntersection(chunkCount: nat, assignees: ChunkIndex -> set<Address>,
                                                        me: Address, held: set<ChunkIndex>)
    ensures var w := ToAttest(chunkCount, assignees, me, held);
            && (forall i: nat :: i in w <==> i < chunkCount && me in assignees(i) && i in held)
            && (forall j, k :: 0 <= j < k < |w| ==> w[j] < w[k])
  {
    if chunkCount > 0 {
      var before, i := ToAttest(chunkCount - 1, assignees, me, held), chunkCount - 1;
      ToAttestIsSortedIntersection(i, assignees, me, held);
      assert ToAttest(chunkCount, assignees, me, held)
             == if me in assignees(i) && i in held then before + [i] else before;
      assert forall j | 0 <= j < |before| :: before[j] in before;
    }
  }

  // ── What a run must return ──

  /** `chain(nonce, indices)` is what becomes of the transaction with this nonce and these indices. */
  type Chain = (nat, seq<ChunkIndex>) -> Reply

  /** The slice that follows the first `k` batches of `cap`. */
  function Slice(wanted: seq<ChunkIndex>, cap: nat, k: nat): seq<ChunkIndex> {
    if k * cap >= |wanted| then []
    else if (k + 1) * cap >= |wanted| then wanted[k * cap..]
    else wanted[k * cap..(k + 1) * cap]
  }

  /** Batch `k` is the `k`-th slice, finalized with the `k`-th nonce. */
  predicate BatchOk(wanted: seq<ChunkIndex>, cap: nat, start: nat, chain: Chain, b: Batch, k: nat) {
    && b.chunkIndices == Slice(wanted, cap, k) != []
    && b.nonce == start + k
    && chain(b.nonce, b.chunkIndices) == Finalized(b.txHash, b.finalizedAtHeight)
  }

  predicate ErrorOk(wanted: seq<ChunkIndex>, cap: nat, start: nat, chain: Chain, error: Option<AttestError>, k: nat) {
    var next := Slice(wanted, cap, k);
    match error
    case None => next == []
    case Some(BadParams) => false
    case Some(Submit(n, c)) => c == next != [] && n == start + k && chain(n, c) == Refused
    case Some(Wait(n, c, h, why)) => c == next != [] && n == start + k && chain(n, c) == NotFinalized(h, why)
  }

  /** The batches are the first slices in order, and the error is about the slice and the nonce right after them. */
  ghost predicate RunOk(wanted: seq<ChunkIndex>, cap: nat, start: nat, chain: Chain, r: Summary) {
    if cap == 0 then r == Summary([], Some(BadParams))
    else
      && (forall k | 0 <= k < |r.batches| :: BatchOk(wanted, cap, start, chain, r.batches[k], k))
      && ErrorOk(wanted, cap, start, chain, r.error, |r.batches|)
  }

  /** `chain(nonce, indices)` is what becomes of the transaction with this nonce and these indices. */
  method Attest(chunkCount: nat, assignees: ChunkIndex -> set<Address>, me: Address, held: set<ChunkIndex>, cap: nat,
                startingNonce: nat, chain: Chain) returns (r: Summary)
    ensures RunOk(ToAttest(chunkCount, assignees, me, held), cap, startingNonce, chain, r)
  {
    if cap == 0 {
      return Summary([], Some(BadParams));
    }
    var wanted := ToAttest(chunkCount, assignees, me, held);
    if wanted == [] {
      return Summary([], None);
    }
    var batches: seq<Batch>, nonce, rest := [], startingNonce, wanted;
    while rest != []
      invariant nonce == startingNonce + |batches|
      invariant rest == if |batches| * cap < |wanted| then wanted[|batches| * cap..] else []
      invariant forall k | 0 <= k < |batches| :: BatchOk(wanted, cap, startingNonce, chain, batches[k], k)
      decreases |rest|
    {
      var chunkIndices := if |rest| <= cap then rest else rest[..cap];
      NextSlice(wanted, cap, |batches|);
      match chain(nonce, chunkIndices)
      case Refused =>
        return Summary(batches, Some(Submit(nonce, chunkIndices)));
      case NotFinalized(h, why) =>
        return Summary(batches, Some(Wait(nonce, chunkIndices, h, why)));
      case Finalized(h, height) =>
        batches := batches + [Batch(chunkIndices, nonce, h, height)];
        rest := if |rest| <= cap then [] else rest[cap..];
        nonce := nonce + 1;
    }
    r := Summary(batches, None);
  }

  lemma NextSlice(wanted: seq<ChunkIndex>, cap: nat, k: nat)
    requires cap > 0 && k * cap < |wanted|
    ensures (k + 1) * cap == k * cap + cap
    ensures var rest := wanted[k * cap..];
            && Slice(wanted, cap, k) == (if |rest| <= cap then rest else rest[..cap])
            && ((k + 1) * cap < |wanted| ==> |rest| > cap && wanted[(k + 1) * cap..] == rest[cap..])
  {
    assert (k + 1) * cap == k * cap + cap;
  }

  // ── What a run that meets this means ──

  function Min(a: nat, b: nat): nat {
    if a < b then a else b
  }

  lemma SliceExtendsPrefix(wanted: seq<ChunkIndex>, cap: nat, k: nat)
    requires cap > 0 && Slice(wanted, cap, k) != []
    ensures k * cap < |wanted|
    ensures wanted[..Min(k * cap, |wanted|)] + Slice(wanted, cap, k) == wanted[..Min((k + 1) * cap, |wanted|)]
  {
    NextSlice(wanted, cap, k);
  }

  lemma {:induction false} BatchesArePrefix(wanted: seq<ChunkIndex>, cap: nat, start: nat, chain: Chain,
                                            batches: seq<Batch>)
    requires cap > 0 && forall k | 0 <= k < |batches| :: BatchOk(wanted, cap, start, chain, batches[k], k)
    ensures Flatten(batches) == wanted[..Min(|batches| * cap, |wanted|)]
    ensures Total(batches) == |Flatten(batches)|
  {
    if batches != [] {
      var k := |batches| - 1;
      assert forall j | 0 <= j < k :: batches[..k][j] == batches[j];
      BatchesArePrefix(wanted, cap, start, chain, batches[..k]);
      assert batches[k].chunkIndices == Slice(wanted, cap, k) && Slice(wanted, cap, k) != [] by {
        assert BatchOk(wanted, cap, start, chain, batches[k], k);
      }
      SliceExtendsPrefix(wanted, cap, k);
    }
  }

  /** How far into the wanted sequence the run got. */
  lemma {:induction false} RunIsPrefix(wanted: seq<ChunkIndex>, cap: nat, start: nat, chain: Chain, r: Summary)
    requires RunOk(wanted, cap, start, chain, r)
    ensures r.AttestedCount() <= |wanted| && Flatten(r.batches) == wanted[..r.AttestedCount()]
    ensures cap > 0 ==> (r.FullyAttested() <==> r.AttestedCount() == |wanted|)
    ensures cap == 0 ==> r.error == Some(BadParams)
  {
    if cap > 0 {
      BatchesArePrefix(wanted, cap, start, chain, r.batches);
      var k := |r.batches|;
      assert k * cap >= |wanted| <==> Slice(wanted, cap, k) == [] by {
        if k * cap < |wanted| {
          NextSlice(wanted, cap, k);
        }
      }
    }
  }

  /** Every batch has between 1 and `cap` indices and only the last may have fewer than `cap`; a failed slice follows
      the batches without a gap. */
  lemma BatchSizes(wanted: seq<ChunkIndex>, cap: nat, start: nat, chain: Chain, r: Summary, k: nat)
    requires RunOk(wanted, cap, start, chain, r) && k < |r.batches|
    ensures 1 <= |r.batches[k].chunkIndices| <= cap
    ensures k + 1 < |r.batches| || r.error.Some? ==> |r.batches[k].chunkIndices| == cap
  {
    assert BatchOk(wanted, cap, start, chain, r.batches[k], k);
    NextSlice(wanted, cap, k);
    if k + 1 < |r.batches| {
      assert BatchOk(wanted, cap, start, chain, r.batches[k + 1], k + 1);
    }
  }

  /** What a run attested together with the slice it failed at is again a prefix. */
  lemma FailedSliceFollows(wanted: seq<ChunkIndex>, cap: nat, start: nat, chain: Chain, r: Summary)
    requires RunOk(wanted, cap, start, chain, r) && r.error.Some? && !r.error.value.BadParams?
    ensures var reach := r.AttestedCount() + |r.error.value.chunkIndices|;
            r.AttestedCount() < reach <= |wanted| && Flatten(r.batches) + r.error.value.chunkIndices == wanted[..reach]
  {
    BatchesArePrefix(wanted, cap, start, chain, r.batches);
    SliceFollows(wanted, cap, |r.batches|);
  }

  lemma SliceFollows(wanted: seq<ChunkIndex>, cap: nat, k: nat)
    requires cap > 0 && Slice(wanted, cap, k) != []
    ensures k * cap < |wanted|
    ensures var reach := k * cap + |Slice(wanted, cap, k)|;
            k * cap < reach <= |wanted| && wanted[..k * cap] + Slice(wanted, cap, k) == wanted[..reach]
  {
    NextSlice(wanted, cap, k);
  }

  /** The nonces a caller reads off a summary: the last finalized one counts the batches, and the last attempted one is
      the failed one if there is one. */
  lemma SummaryNonces(wanted: seq<ChunkIndex>, cap: nat, start: nat, chain: Chain, r: Summary)
    requires RunOk(wanted, cap, start, chain, r)
    ensures r.LastFinalizedNonce() == if r.batches == [] then None else Some(start + |r.batches| - 1)
    ensures cap > 0 ==>
              match r.LastNonceAttempted()
              case None => r == Summary([], None) && wanted == []
              case Some(n) => n == start + |r.batches| - if r.FullyAttested() then 1 else 0
  {
    if r.batches != [] {
      assert BatchOk(wanted, cap, start, chain, r.batches[|r.batches| - 1], |r.batches| - 1);
    }
    RunIsPrefix(wanted, cap, start, chain, r);
  }

  predicate Finalizes(wanted: seq<ChunkIndex>, cap: nat, start: nat, chain: Chain, k: nat) {
    Slice(wanted, cap, k) != [] && chain(start + k, Slice(wanted, cap, k)).Finalized?
  }

  /** A run stops at the first slice that does not finalize, and nowhere else. */
  lemma StopsAtFirstFailure(wanted: seq<ChunkIndex>, cap: nat, start: nat, chain: Chain, r: Summary)
    requires cap > 0 && RunOk(wanted, cap, start, chain, r)
    ensures forall k: nat | k < |r.batches| :: Finalizes(wanted, cap, start, chain, k)
    ensures !Finalizes(wanted, cap, start, chain, |r.batches|)
  {
    forall k: nat | k < |r.batches| ensures Finalizes(wanted, cap, start, chain, k) {
      assert BatchOk(wanted, cap, start, chain, r.batches[k], k);
    }
  }

  /** A summary tells the replies: every batch carries what its transaction was finalized with; the error names a
      transaction that was refused, or one that was not finalized and why; bad parameters are a cap of zero; and
      without an error every slice was finalized. */
  lemma SummaryTellsReplies(wanted: seq<ChunkIndex>, cap: nat, start: nat, chain: Chain, r: Summary)
    requires RunOk(wanted, cap, start, chain, r)
    ensures forall k | 0 <= k < |r.batches| ::
              var b := r.batches[k];
              chain(start + k, b.chunkIndices) == Finalized(b.txHash, b.finalizedAtHeight) && b.nonce == start + k
    ensures r.error == Some(BadParams) <==> cap == 0
    ensures cap > 0 ==>
              var n, next := start + |r.batches|, Slice(wanted, cap, |r.batches|);
              && (r.error.None? <==> next == [])
              && (forall m, c :: r.error == Some(Submit(m, c)) <==>
                    next != [] && chain(n, next).Refused? && m == n && c == next)
              && (forall m, c, h, why :: r.error == Some(Wait(m, c, h, why)) <==>
                    next != [] && chain(n, next) == NotFinalized(h, why) && m == n && c == next)
  {
    if cap > 0 {
      StopsAtFirstFailure(wanted, cap, start, chain, r);
      forall k | 0 <= k < |r.batches|
        ensures chain(start + k, r.batches[k].chunkIndices)
                == Finalized(r.batches[k].txHash, r.batches[k].finalizedAtHeight) && r.batches[k].nonce == start + k
      {
        assert BatchOk(wanted, cap, start, chain, r.batches[k], k);
      }
    }
  }

  /** The specification leaves no choice: it names one summary. */
  lemma RunIsDetermined(wanted: seq<ChunkIndex>, cap: nat, start: nat, chain: Chain, r: Summary, s: Summary)
    requires RunOk(wanted, cap, start, chain, r) && RunOk(wanted, cap, start, chain, s)
    ensures r == s
  {
    if cap > 0 {
      StopsAtFirstFailure(wanted, cap, start, chain, r);
      StopsAtFirstFailure(wanted, cap, start, chain, s);
      forall k | 0 <= k < |r.batches| ensures r.batches[k] == s.batches[k] {
        assert BatchOk(wanted, cap, start, chain, r.batches[k], k)
               && BatchOk(wanted, cap, start, chain, s.batches[k], k);
      }
    }
  }
}
