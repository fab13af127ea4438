/**
 The choice of the archive a chunk is asked of next, and the cursor that records who has been asked.

 A chunk's archives are kept in one list. The first `next` entries have been asked, the rest have not.
 Asking the archive at `pos` rotates `order[next..=pos]` right by one, so it lands at `next`, and bumps `next`.
 */
module Routing {
  import opened Wrappers
  import opened Identity

  ghost predicate NoDuplicates<T>(s: seq<T>) {
    forall i, j :: 0 <= i < j < |s| ==> s[i] != s[j]
  }

  /** The position in `order` a chunk may be asked at: not asked yet, identified, and, while the
      ranking is still binding, the one next in line. */
  ghost predicate MayAsk(order: seq<Address>, next: nat, identified: set<Address>, skip: bool, pos: nat) {
    && next <= pos < |order|
    && order[pos] in identified
    && (skip || pos == next)
  }

  /** The archive to ask: its position in `order` and the peer that speaks for it. */
  function NextAssignedArchive(order: seq<Address>, next: nat, addrToPeer: map<Address, PeerId>, skip: bool)
    : (r: Option<(nat, PeerId)>)
    ensures r.Some? ==>
              && MayAsk(order, next, addrToPeer.Keys, skip, r.value.0)
              && r.value.1 == addrToPeer[order[r.value.0]]
              && forall pos | MayAsk(order, next, addrToPeer.Keys, skip, pos) :: r.value.0 <= pos
    ensures r.None? ==> forall pos :: !MayAsk(order, next, addrToPeer.Keys, skip, pos)
    decreases |order| - next
  {
    if next >= |order| then
      None
    else if order[next] in addrToPeer then
      Some((next, addrToPeer[order[next]]))
    else if !skip then
      None
    else
      var r := NextAssignedArchive(order, next + 1, addrToPeer, skip);
      assert forall pos :: MayAsk(order, next, addrToPeer.Keys, skip, pos)
                           <==> MayAsk(order, next + 1, addrToPeer.Keys, skip, pos);
      r
  }

  /** `order` after the archive at `pos` has been asked. */
  function MarkAsked(order: seq<Address>, next: nat, pos: nat): (r: seq<Address>)
    requires next <= pos < |order|
  {
    order[..next] + [order[pos]] + order[next..pos] + order[pos + 1..]
  }

  /** The in-place form: rotate `order[next..=pos]` right by one, and advance the cursor. */
  method MarkArchiveAsked(order: array<Address>, next: nat, pos: nat) returns (next': nat)
    requires next <= pos < order.Length
    modifies order
    ensures order[..] == MarkAsked(old(order[..]), next, pos)
    ensures next' == next + 1
  {
    var asked := order[pos];
    var i := pos;
    while i > next
      invariant next <= i <= pos
      invariant order[..i] == old(order[..i])
      invariant forall k :: i < k <= pos ==> order[k] == old(order[k - 1])
      invariant order[pos + 1..] == old(order[pos + 1..])
    {
      order[i] := order[i - 1];
      i := i - 1;
    }
    order[next] := asked;
    next' := next + 1;
    ghost var was := old(order[..]);
    assert forall k :: next < k <= pos ==> order[k] == was[k - 1];
    RotatedIsMarked(was, order[..], next, pos);
  }

  lemma RotatedIsMarked(was: seq<Address>, now: seq<Address>, next: nat, pos: nat)
    requires next <= pos < |was| == |now|
    requires now[..next] == was[..next] && now[next] == was[pos] && now[pos + 1..] == was[pos + 1..]
    requires forall k :: next < k <= pos ==> now[k] == was[k - 1]
    ensures now == MarkAsked(was, next, pos)
  {
    assert now[next + 1..pos + 1] == was[next..pos];
    assert now == now[..next] + [now[next]] + now[next + 1..pos + 1] + now[pos + 1..];
  }

  // ── The cursor list refines "asked so far, then the ranking without them" ──

  /** `ranking` with the members of `gone` removed, the others in their order. */
  function Without(ranking: seq<Address>, gone: seq<Address>): (r: seq<Address>)
    ensures forall a :: a in r <==> a in ranking && a !in gone
  {
    if ranking == [] then []
    else if ranking[0] in gone then Without(ranking[1..], gone)
    else [ranking[0]] + Without(ranking[1..], gone)
  }

  lemma WithoutNothing(ranking: seq<Address>)
    ensures Without(ranking, []) == ranking
  {
    if ranking != [] {
      WithoutNothing(ranking[1..]);
    }
  }

  lemma {:induction false} WithoutKeepsDistinct(ranking: seq<Address>, gone: seq<Address>)
    requires NoDuplicates(ranking)
    ensures NoDuplicates(Without(ranking, gone))
  {
    if ranking != [] {
      WithoutKeepsDistinct(ranking[1..], gone);
      assert ranking[0] !in Without(ranking[1..], gone);
    }
  }

  /** Removing one more archive cuts exactly its position out of what is left. */
  lemma {:induction false} WithoutOneMore(ranking: seq<Address>, gone: seq<Address>, k: nat)
    requires NoDuplicates(ranking)
    requires k < |Without(ranking, gone)|
    ensures var rest := Without(ranking, gone);
            Without(ranking, gone + [rest[k]]) == rest[..k] + rest[k + 1..]
  {
    var rest := Without(ranking, gone);
    var a := rest[k];
    var tail := Without(ranking[1..], gone);
    if ranking[0] in gone {
      WithoutOneMore(ranking[1..], gone, k);
    } else if k == 0 {
      WithoutAbsent(ranking[1..], gone, a);
      assert rest[1..] == tail;
    } else {
      WithoutOneMore(ranking[1..], gone, k - 1);
      assert a in ranking[1..] && a != ranking[0];
      CutBehindFirst(ranking[0], tail, k);
    }
  }

  lemma CutBehindFirst(first: Address, tail: seq<Address>, k: nat)
    requires 0 < k <= |tail|
    ensures var s := [first] + tail; s[k] == tail[k - 1] && s[..k] + s[k + 1..] == [first] + (tail[..k - 1] + tail[k..])
  {
  }

  lemma {:induction false} WithoutAbsent(ranking: seq<Address>, gone: seq<Address>, a: Address)
    requires a !in ranking
    ensures Without(ranking, gone + [a]) == Without(ranking, gone)
  {
    if ranking != [] {
      WithoutAbsent(ranking[1..], gone, a);
    }
  }

  /** `asked` was picked from the ranking, no archive twice. */
  ghost predicate Picked(ranking: seq<Address>, asked: seq<Address>) {
    asked == [] || (
      var n := |asked| - 1;
      Picked(ranking, asked[..n]) && asked[n] in ranking && asked[n] !in asked[..n])
  }

  lemma {:induction false} PickedOnce(ranking: seq<Address>, asked: seq<Address>)
    requires Picked(ranking, asked)
    ensures NoDuplicates(asked)
    ensures forall a | a in asked :: a in ranking
  {
    if asked != [] {
      var n := |asked| - 1;
      PickedOnce(ranking, asked[..n]);
      assert asked == asked[..n] + [asked[n]];
      assert forall i :: 0 <= i < n ==> asked[i] in asked[..n];
    }
  }

  /** One ask, seen abstractly: the archive at place `k` of what is left joins the asked list and leaves the rest of the
      ranking, in which the archives it passed over keep their order. */
  lemma AskingRefines(ranking: seq<Address>, asked: seq<Address>, k: nat)
    requires NoDuplicates(ranking) && k < |Without(ranking, asked)|
    ensures var rest := Without(ranking, asked);
            && (asked + rest)[|asked| + k] == rest[k]
            && MarkAsked(asked + rest, |asked|, |asked| + k) == asked + [rest[k]] + Without(ranking, asked + [rest[k]])
  {
    MarkBehind(asked, Without(ranking, asked), k);
    WithoutOneMore(ranking, asked, k);
  }

  lemma MarkBehind(asked: seq<Address>, rest: seq<Address>, k: nat)
    requires k < |rest|
    ensures (asked + rest)[|asked| + k] == rest[k]
    ensures MarkAsked(asked + rest, |asked|, |asked| + k) == asked + [rest[k]] + (rest[..k] + rest[k + 1..])
  {
    var order := asked + rest;
    assert order[..|asked|] == asked;
    assert order[|asked|..|asked| + k] == rest[..k];
    assert order[|asked| + k + 1..] == rest[k + 1..];
  }

  /** While the ranking is binding the asked list is a prefix of it. */
  lemma {:induction false} WithoutPrefix(ranking: seq<Address>, n: nat)
    requires NoDuplicates(ranking) && n <= |ranking|
    ensures Without(ranking, ranking[..n]) == ranking[n..]
  {
    if n == 0 {
      WithoutNothing(ranking);
    } else {
      WithoutPrefix(ranking, n - 1);
      assert Without(ranking, ranking[..n - 1])[0] == ranking[n - 1];
      WithoutOneMore(ranking, ranking[..n - 1], 0);
      assert ranking[..n - 1] + [ranking[n - 1]] == ranking[..n];
    }
  }

  /** When nothing is left the asked list is the whole ranking, each archive once. */
  lemma NothingLeft(ranking: seq<Address>, asked: seq<Address>)
    requires NoDuplicates(ranking) && NoDuplicates(asked)
    requires forall a | a in asked :: a in ranking
    requires Without(ranking, asked) == []
    ensures multiset(asked) == multiset(ranking)
  {
    assert forall a | a in ranking :: a in asked by {
      forall a | a in ranking ensures a in asked {
        assert a !in Without(ranking, asked);
      }
    }
    forall a ensures multiset(asked)[a] == multiset(ranking)[a] {
      DistinctMultiplicity(asked, a);
      DistinctMultiplicity(ranking, a);
    }
  }

  lemma {:induction false} DistinctMultiplicity(s: seq<Address>, a: Address)
    requires NoDuplicates(s)
    ensures multiset(s)[a] == if a in s then 1 else 0
  {
    if s != [] {
      DistinctMultiplicity(s[1..], a);
      assert s == [s[0]] + s[1..];
      assert s[0] !in s[1..];
    }
  }
}
