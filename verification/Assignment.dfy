/**
 Which archives the chain assigns to which chunk, and the views the push and the download side build from it.
 */
module Assignment {
  import opened Wrappers
  import opened Identity
  import opened Routing

  // ── The chain's assignment of one chunk ──

  type Score = Address -> nat

  /** Lower score first, then lower address. */
  predicate Before(score: Score, a: Address, b: Address) {
    score(a) < score(b) || (score(a) == score(b) && a < b)
  }

  predicate IsFirst(score: Score, archives: set<Address>, a: Address) {
    a in archives && forall b | b in archives && b != a :: Before(score, a, b)
  }

  lemma {:induction false} SomeoneIsFirst(score: Score, archives: set<Address>)
    requires archives != {}
    ensures exists a :: IsFirst(score, archives, a)
  {
    var a :| a in archives;
    if archives == {a} {
      assert IsFirst(score, archives, a);
    } else {
      SomeoneIsFirst(score, archives - {a});
      var b :| IsFirst(score, archives - {a}, b);
      if Before(score, a, b) {
        assert forall c | c in archives && c != a :: c in archives - {a};
        assert IsFirst(score, archives, a);
      } else {
        assert forall c | c in archives && c != b && c != a :: c in archives - {a};
        assert IsFirst(score, archives, b);
      }
    }
  }

  /** The candidates in rank order. */
  ghost function Ranked(score: Score, archives: set<Address>): seq<Address> {
    if archives == {} then []
    else
      SomeoneIsFirst(score, archives);
      var a :| IsFirst(score, archives, a);
      [a] + Ranked(score, archives - {a})
  }

  /** The ranking lists every candidate once, in rank order. */
  lemma {:induction false} RankedIsPermutation(score: Score, archives: set<Address>)
    ensures var s := Ranked(score, archives);
            && |s| == |archives|
            && (forall a :: a in s <==> a in archives)
            && NoDuplicates(s)
  {
    if archives != {} {
      SomeoneIsFirst(score, archives);
      var a := Ranked(score, archives)[0];
      RankedIsPermutation(score, archives - {a});
    }
  }

  lemma {:induction false} RankedIsInOrder(score: Score, archives: set<Address>, i: nat, j: nat)
    requires i < j < |Ranked(score, archives)|
    ensures var a, b := Ranked(score, archives)[i], Ranked(score, archives)[j];
            score(a) < score(b) || (score(a) == score(b) && a < b)
  {
    SomeoneIsFirst(score, archives);
    var a := Ranked(score, archives)[0];
    assert IsFirst(score, archives, a);
    if i > 0 {
      RankedIsInOrder(score, archives - {a}, i - 1, j - 1);
    } else {
      RankedIsPermutation(score, archives - {a});
      assert Ranked(score, archives)[j] in Ranked(score, archives - {a});
    }
  }

  /** The `r` best archives of the snapshot, or all of them if there are no more than `r`. */
  ghost function Assigned(score: Score, archives: set<Address>, r: nat): seq<Address> {
    var s := Ranked(score, archives);
    if r < |s| then s[..r] else s
  }

  function ToSet(s: seq<Address>): set<Address> {
    set a | a in s
  }

  lemma {:induction false} DistinctSize(s: seq<Address>)
    requires NoDuplicates(s)
    ensures |ToSet(s)| == |s|
  {
    if s != [] {
      var n := |s| - 1;
      DistinctSize(s[..n]);
      assert ToSet(s) == ToSet(s[..n]) + {s[n]} by {
        assert s == s[..n] + [s[n]];
      }
    }
  }

  /** Distinct archives of the snapshot, `r` of them or all. */
  ghost predicate TopOf(assignment: seq<Address>, archives: set<Address>, r: nat) {
    && NoDuplicates(assignment)
    && ToSet(assignment) <= archives
    && |assignment| == if r < |archives| then r else |archives|
  }

  lemma AssignedIsTop(score: Score, archives: set<Address>, r: nat)
    ensures TopOf(Assigned(score, archives, r), archives, r)
  {
    RankedIsPermutation(score, archives);
  }

  lemma TopAtTheEnds(assignment: seq<Address>, archives: set<Address>, r: nat)
    requires TopOf(assignment, archives, r)
    ensures r == 0 ==> ToSet(assignment) == {}
    ensures r >= |archives| ==> ToSet(assignment) == archives
  {
    DistinctSize(assignment);
    if r >= |archives| {
      SubsetOfSameSize(ToSet(assignment), archives);
    }
  }

  lemma SubsetOfSameSize(a: set<Address>, b: set<Address>)
    requires a <= b && |a| == |b|
    ensures a == b
  {
    assert |b - a| == |b| - |a|;
  }

  // ── The archives a set of chunks needs ──

  /** The plain union of what the chunks are assigned. */
  function Union(rankingOf: nat -> seq<Address>, chunks: seq<nat>): set<Address> {
    if chunks == [] then {} else Union(rankingOf, chunks[..|chunks| - 1]) + ToSet(rankingOf(chunks[|chunks| - 1]))
  }

  /** An archive is in the union exactly when some chunk is assigned to it. */
  lemma {:induction false} UnionIff(rankingOf: nat -> seq<Address>, chunks: seq<nat>, a: Address)
    ensures a in Union(rankingOf, chunks) <==> exists c | c in chunks :: a in ToSet(rankingOf(c))
  {
    if chunks != [] {
      var n := |chunks| - 1;
      UnionIff(rankingOf, chunks[..n], a);
      assert chunks == chunks[..n] + [chunks[n]];
    }
  }

  lemma UnionGrows(rankingOf: nat -> seq<Address>, chunks: seq<nat>, i: nat)
    requires i < |chunks|
    ensures Union(rankingOf, chunks[..i + 1]) == Union(rankingOf, chunks[..i]) + ToSet(rankingOf(chunks[i]))
  {
    assert chunks[..i + 1][..i] == chunks[..i];
  }

  /** Once the union of some chunks has as many archives as there are, it is the union of all chunks. */
  lemma FullUnionStays(rankingOf: nat -> seq<Address>, archives: set<Address>, chunks: seq<nat>, k: nat)
    requires forall c :: ToSet(rankingOf(c)) <= archives
    requires k <= |chunks| && |Union(rankingOf, chunks[..k])| == |archives|
    ensures Union(rankingOf, chunks) == Union(rankingOf, chunks[..k]) == archives
  {
    forall a ensures a in Union(rankingOf, chunks[..k]) ==> a in archives
             ensures a in Union(rankingOf, chunks) ==> a in archives
             ensures a in Union(rankingOf, chunks[..k]) ==> a in Union(rankingOf, chunks) {
      UnionIff(rankingOf, chunks[..k], a);
      UnionIff(rankingOf, chunks, a);
    }
    SubsetOfSameSize(Union(rankingOf, chunks[..k]), archives);
  }

  /** With no replicas the union is empty, and with as many as there are archives one chunk needs them all. */
  lemma UnionAtTheEnds(rankingOf: nat -> seq<Address>, archives: set<Address>, chunks: seq<nat>, r: nat)
    requires forall c :: TopOf(rankingOf(c), archives, r)
    ensures r == 0 ==> Union(rankingOf, chunks) == {}
    ensures r >= |archives| && chunks != [] ==> Union(rankingOf, chunks) == archives
  {
    forall c ensures r == 0 ==> ToSet(rankingOf(c)) == {} ensures r >= |archives| ==> ToSet(rankingOf(c)) == archives {
      TopAtTheEnds(rankingOf(c), archives, r);
    }
    forall a ensures a in Union(rankingOf, chunks) <==> exists c | c in chunks :: a in ToSet(rankingOf(c)) {
      UnionIff(rankingOf, chunks, a);
    }
    if chunks != [] {
      assert chunks[0] in chunks;
    }
  }

  // ── The download side's view ──

  datatype View = View(distinctAssigned: set<Address>, perChunk: map<nat, seq<Address>>)

  /** A node record of the chain's snapshot; the address is None when its text cannot be read. */
  datatype NodeRecord = NodeRecord(isArchive: bool, isActive: bool, address: Option<Address>)

  datatype ViewResult =
    | Built(view: View)
    | SnapshotFailed
    | SnapshotAddrParse(index: nat)
    | SnapshotEmpty
    | ChainParamsFailed
    | EmptyAssignedSet(chunk: nat)

  /** Only active archives take part, and only their addresses are read. */
  predicate Eligible(n: NodeRecord) {
    n.isArchive && n.isActive
  }

  predicate Unreadable(n: NodeRecord) {
    Eligible(n) && n.address.None?
  }

  function EligibleAddresses(records: seq<NodeRecord>): set<Address> {
    set n | n in records && Eligible(n) && n.address.Some? :: n.address.value
  }

  /** A view lists every chunk's ranking and their union. */
  ghost predicate ViewOk(view: View, rankingOf: nat -> seq<Address>, chunks: seq<nat>) {
    && view.distinctAssigned == Union(rankingOf, chunks)
    && (forall c :: c in view.perChunk <==> c in chunks)
    && (forall c | c in view.perChunk :: view.perChunk[c] == rankingOf(c))
  }

  /** The addresses of the eligible records, or the first that cannot be read. */
  method ReadSnapshot(records: seq<NodeRecord>) returns (addresses: set<Address>, unreadable: Option<nat>)
    ensures unreadable.None? <==> forall n | n in records :: !Unreadable(n)
    ensures unreadable.None? ==> addresses == EligibleAddresses(records)
    ensures unreadable.Some? ==> unreadable.value < |records| && Unreadable(records[unreadable.value])
                                 && forall j | 0 <= j < unreadable.value :: !Unreadable(records[j])
  {
    addresses := {};
    for i := 0 to |records|
      invariant forall j | 0 <= j < i :: !Unreadable(records[j])
      invariant addresses == EligibleAddresses(records[..i])
    {
      assert records[..i + 1] == records[..i] + [records[i]];
      if Eligible(records[i]) {
        if records[i].address.None? {
          assert records[i] in records;
          return addresses, Some(i);
        }
        addresses := addresses + {records[i].address.value};
      }
    }
    assert records[..|records|] == records;
    unreadable := None;
  }

  /** The view and its errors, in the order they are met. */
  ghost predicate ViewResultOk(snapshot: Option<seq<NodeRecord>>, params: Option<nat>, chunks: seq<nat>,
                               assign: (set<Address>, nat) -> nat -> seq<Address>, result: ViewResult)
  {
    if snapshot.None? then result == SnapshotFailed
    else if exists n :: n in snapshot.value && Unreadable(n) then
      result.SnapshotAddrParse? && result.index < |snapshot.value| && Unreadable(snapshot.value[result.index])
      && forall j | 0 <= j < result.index :: !Unreadable(snapshot.value[j])
    else
      var archives := EligibleAddresses(snapshot.value);
      if archives == {} then result == SnapshotEmpty
      else if params.None? then result == ChainParamsFailed
      else if params.value == 0 && chunks != [] then result == EmptyAssignedSet(chunks[0])
      else result.Built? && ViewOk(result.view, assign(archives, params.value), chunks)
  }

  /** `snapshot` and `params` are None when the RPC that reads them fails; `assign` is the chain's own function, which
      sorts its candidates itself. */
  method BuildV2AssignmentView(snapshot: Option<seq<NodeRecord>>, params: Option<nat>, chunks: seq<nat>,
                               assign: (set<Address>, nat) -> nat -> seq<Address>)
    returns (result: ViewResult)
    requires forall s, r, c :: TopOf(assign(s, r)(c), s, r)
    ensures ViewResultOk(snapshot, params, chunks, assign, result)
  {
    if snapshot.None? {
      return SnapshotFailed;
    }
    var archives, unreadable := ReadSnapshot(snapshot.value);
    if unreadable.Some? {
      assert snapshot.value[unreadable.value] in snapshot.value;
      return SnapshotAddrParse(unreadable.value);
    }
    if archives == {} {
      return SnapshotEmpty;
    }
    if params.None? {
      return ChainParamsFailed;
    }
    result := ViewOver(archives, params.value, chunks, assign(archives, params.value));
  }

  method ViewOver(archives: set<Address>, r: nat, chunks: seq<nat>, rankingOf: nat -> seq<Address>)
    returns (result: ViewResult)
    requires archives != {} && forall c :: TopOf(rankingOf(c), archives, r)
    ensures if r == 0 && chunks != [] then result == EmptyAssignedSet(chunks[0])
            else result.Built? && ViewOk(result.view, rankingOf, chunks)
  {
    var view := View({}, map[]);
    for i := 0 to |chunks|
      invariant r == 0 ==> i == 0
      invariant ViewOk(view, rankingOf, chunks[..i])
    {
      var ranking := rankingOf(chunks[i]);
      assert TopOf(ranking, archives, r);
      if ranking == [] {
        return EmptyAssignedSet(chunks[i]);
      }
      UnionGrows(rankingOf, chunks, i);
      view := View(view.distinctAssigned + ToSet(ranking), view.perChunk[chunks[i] := ranking]);
    }
    assert chunks[..|chunks|] == chunks;
    return Built(view);
  }

  /** What a chunk fetch relies on: every chunk of the view has somebody to ask, nobody twice, and the manifest fan-out
      walks exactly the archives some chunk is assigned to. */
  lemma ViewGivesRankings(view: View, rankingOf: nat -> seq<Address>, archives: set<Address>, chunks: seq<nat>, r: nat)
    requires ViewOk(view, rankingOf, chunks) && archives != {} && r > 0
    requires forall c :: TopOf(rankingOf(c), archives, r)
    ensures forall c | c in view.perChunk :: view.perChunk[c] != [] && NoDuplicates(view.perChunk[c])
    ensures forall a :: a in view.distinctAssigned <==> exists c | c in view.perChunk :: a in view.perChunk[c]
  {
    forall a ensures a in view.distinctAssigned <==> exists c | c in view.perChunk :: a in view.perChunk[c] {
      UnionIff(rankingOf, chunks, a);
    }
    assert forall c :: TopOf(rankingOf(c), archives, r);
  }

  /** A record of an active archive, and the address it gives. */
  predicate Gives(n: NodeRecord, a: Option<Address>) {
    n.isArchive && n.isActive && n.address == a
  }

  /** What a result tells of the records: each error its cause, and a view lists for every chunk, and for no other, as
      many addresses of active archives as the replication factor or all of them. */
  lemma ViewTells(snapshot: Option<seq<NodeRecord>>, params: Option<nat>, chunks: seq<nat>,
                  assign: (set<Address>, nat) -> nat -> seq<Address>, result: ViewResult)
    requires forall s, r, c :: TopOf(assign(s, r)(c), s, r)
    requires ViewResultOk(snapshot, params, chunks, assign, result)
    ensures result.SnapshotFailed? <==> snapshot.None?
    ensures result.SnapshotAddrParse? <==> snapshot.Some? && exists n | n in snapshot.value :: Gives(n, None)
    ensures result.SnapshotEmpty? <==>
              snapshot.Some? && forall n | n in snapshot.value :: !(n.isArchive && n.isActive)
    ensures result.ChainParamsFailed? ==> params.None?
    ensures result.EmptyAssignedSet? ==> params == Some(0) && chunks != [] && result.chunk == chunks[0]
    ensures result.Built? ==>
              && snapshot.Some? && params.Some? && (chunks == [] || params.value > 0)
              && (forall c :: c in result.view.perChunk <==> c in chunks)
              && forall c | c in chunks ::
                   var listed := result.view.perChunk[c];
                   && NoDuplicates(listed)
                     && (forall a | a in listed :: exists n | n in snapshot.value :: Gives(n, Some(a)))
                   && |listed| == Min(params.value, |EligibleAddresses(snapshot.value)|)
  {
    if snapshot.Some? {
      var archives := EligibleAddresses(snapshot.value);
      forall n | n in snapshot.value ensures Unreadable(n) <==> Gives(n, None) {
      }
      forall n | n in snapshot.value && n.isArchive && n.isActive
        ensures Unreadable(n) || (n.address.Some? && n.address.value in archives)
      {
      }
      if result.Built? {
        forall c | c in chunks ensures TopOf(result.view.perChunk[c], EligibleAddresses(snapshot.value), params.value) {
          assert TopOf(assign(EligibleAddresses(snapshot.value), params.value)(c), EligibleAddresses(snapshot.value),
                       params.value);
        }
        forall c, a | c in chunks && a in result.view.perChunk[c]
          ensures exists n | n in snapshot.value :: Gives(n, Some(a))
        {
          assert a in ToSet(result.view.perChunk[c]);
          var n :| n in snapshot.value && Eligible(n) && n.address.Some? && n.address.value == a;
          assert Gives(n, Some(a));
        }
      }
    }
  }

  function Min(a: nat, b: nat): nat {
    if a < b then a else b
  }
}
