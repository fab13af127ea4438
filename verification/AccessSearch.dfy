/**
 Searching a file's access list, which the chain hands out in pages: two searches written apart, and the plain linear
 search both stand for.
 */
module AccessSearch {
  import opened Wrappers

  const PAGE_SIZE: nat := 256
  const MAX_PAGES: nat := 64

  type Account = nat

  datatype Entry = Entry(account: Account, bundle: nat)

  /** The answer to one page request. `NoFile` is the chain's null. */
  datatype PageReply = PageFailed | NoFile | Page(entries: seq<Entry>)

  datatype AccessResult = AccessOk(entry: Option<Entry>) | AccessRpcError

  datatype MyAccess = Granted(entry: Entry) | NoAccess | MyRpcError

  // ── The plain search ──

  function FirstMatch(entries: seq<Entry>, target: Account): (r: Option<nat>)
    ensures r.Some? ==> r.value < |entries| && entries[r.value].account == target
    ensures forall i | 0 <= i < (if r.Some? then r.value else |entries|) :: entries[i].account != target
  {
    if entries == [] then None
    else
      var before := FirstMatch(entries[..|entries| - 1], target);
      if before.Some? then before
      else if entries[|entries| - 1].account == target then Some(|entries| - 1)
      else None
  }

  function Find(entries: seq<Entry>, target: Account): Option<Entry> {
    match FirstMatch(entries, target)
    case None => None
    case Some(i) => Some(entries[i])
  }

  /** The first match is the only index with a match and none before it. */
  lemma FirstMatchIs(entries: seq<Entry>, target: Account, i: nat)
    requires i < |entries| && entries[i].account == target
    requires forall j | 0 <= j < i :: entries[j].account != target
    ensures FirstMatch(entries, target) == Some(i)
  {
  }

  // ── The two searches ──

  /** The owner's search: an error unless the pages could be read. */
  method FindAccessEntry(target: Account, seed: seq<Entry>, fetch: nat -> PageReply) returns (r: AccessResult)
    ensures r == match Search(target, seed, fetch)
                 case Found(e) => AccessOk(Some(e))
                 case Exhausted => AccessOk(None)
                 case Failed => AccessRpcError
  {
    var inSeed := Find(seed, target);
    if inSeed.Some? {
      return AccessOk(inSeed);
    }
    if |seed| < PAGE_SIZE {
      return AccessOk(None);
    }
    for page := 1 to MAX_PAGES
      invariant Search(target, seed, fetch) == SearchFrom(target, page, fetch)
    {
      match fetch(page * PAGE_SIZE)
      case PageFailed => return AccessRpcError;
      case NoFile => return AccessOk(None);
      case Page(entries) =>
        var found := Find(entries, target);
        if found.Some? {
          return AccessOk(found);
        }
        if |entries| < PAGE_SIZE {
          return AccessOk(None);
        }
    }
    r := AccessOk(None);
  }

  /** The reader's search: the same walk, leaving the loop where the other returns. */
  method FindMyAccessEntry(me: Account, first: seq<Entry>, fetch: nat -> PageReply) returns (r: MyAccess)
    ensures r == match Search(me, first, fetch)
                 case Found(e) => Granted(e)
                 case Exhausted => NoAccess
                 case Failed => MyRpcError
  {
    var inFirst := Find(first, me);
    if inFirst.Some? {
      return Granted(inFirst.value);
    }
    if |first| < PAGE_SIZE {
      return NoAccess;
    }
    for page := 1 to MAX_PAGES
      invariant Search(me, first, fetch) == SearchFrom(me, page, fetch)
    {
      match fetch(page * PAGE_SIZE)
      case PageFailed => return MyRpcError;
      case NoFile => break;
      case Page(entries) =>
        var found := Find(entries, me);
        if found.Some? {
          return Granted(found.value);
        }
        if |entries| < PAGE_SIZE {
          break;
        }
    }
    r := NoAccess;
  }

  datatype Outcome = Found(entry: Entry) | Exhausted | Failed

  function AsOutcome(found: Option<Entry>): Outcome {
    match found case None => Exhausted case Some(e) => Found(e)
  }

  function SearchFrom(target: Account, page: nat, fetch: nat -> PageReply): Outcome
    decreases MAX_PAGES - page
  {
    if page >= MAX_PAGES then Exhausted
    else
      match fetch(page * PAGE_SIZE)
      case PageFailed => Failed
      case NoFile => Exhausted
      case Page(entries) =>
        if Find(entries, target).Some? then Found(Find(entries, target).value)
        else if |entries| < PAGE_SIZE then Exhausted
        else SearchFrom(target, page + 1, fetch)
  }

  function Search(target: Account, seed: seq<Entry>, fetch: nat -> PageReply): Outcome {
    if Find(seed, target).Some? then Found(Find(seed, target).value)
    else if |seed| < PAGE_SIZE then Exhausted
    else SearchFrom(target, 1, fetch)
  }

  // ── What the walk means, whatever the chain answers ──

  function ReplyTo(seed: seq<Entry>, fetch: nat -> PageReply, page: nat): PageReply {
    if page == 0 then Page(seed) else fetch(page * PAGE_SIZE)
  }

  /** A page that keeps the search going. */
  predicate GoesOn(target: Account, reply: PageReply) {
    reply.Page? && |reply.entries| >= PAGE_SIZE && Find(reply.entries, target).None?
  }

  /** The search reads page `page`. */
  ghost predicate Reaches(target: Account, seed: seq<Entry>, fetch: nat -> PageReply, page: nat) {
    page < MAX_PAGES && forall p: nat | p < page :: GoesOn(target, ReplyTo(seed, fetch, p))
  }

  predicate Ends(target: Account, seed: seq<Entry>, fetch: nat -> PageReply, page: nat, outcome: Outcome) {
    match outcome
    case Found(e) => ReplyTo(seed, fetch, page).Page? && Find(ReplyTo(seed, fetch, page).entries, target) == Some(e)
    case Failed => ReplyTo(seed, fetch, page) == PageFailed
    case Exhausted =>
      && ReplyTo(seed, fetch, page) != PageFailed
      && (ReplyTo(seed, fetch, page).Page? ==>
            && Find(ReplyTo(seed, fetch, page).entries, target).None?
            && (|ReplyTo(seed, fetch, page).entries| < PAGE_SIZE || page == MAX_PAGES - 1))
  }

  /** The outcome is the one of the last page it reads: an entry only from that page, a failure if and only if that page
      failed, and exhaustion only at a short page, at a missing file, or at the page limit. */
  lemma SearchEndsIff(target: Account, seed: seq<Entry>, fetch: nat -> PageReply, outcome: Outcome)
    ensures Search(target, seed, fetch) == outcome
            <==> exists page: nat :: Reaches(target, seed, fetch, page) && Ends(target, seed, fetch, page, outcome)
  {
    var end := SearchEnds(target, seed, fetch);
    if page: nat :| Reaches(target, seed, fetch, page) && Ends(target, seed, fetch, page, outcome) {
      EndsOnce(target, seed, fetch, page, outcome, end, Search(target, seed, fetch));
    }
  }

  lemma EndsOnce(target: Account, seed: seq<Entry>, fetch: nat -> PageReply, page: nat, outcome: Outcome, end: nat,
                 other: Outcome)
    requires Reaches(target, seed, fetch, page) && Ends(target, seed, fetch, page, outcome)
    requires Reaches(target, seed, fetch, end) && Ends(target, seed, fetch, end, other)
    ensures page == end && outcome == other
  {
    assert page < end ==> GoesOn(target, ReplyTo(seed, fetch, page));
    assert end < page ==> GoesOn(target, ReplyTo(seed, fetch, end));
  }

  lemma SearchEnds(target: Account, seed: seq<Entry>, fetch: nat -> PageReply) returns (page: nat)
    ensures Reaches(target, seed, fetch, page) && Ends(target, seed, fetch, page, Search(target, seed, fetch))
  {
    if GoesOn(target, Page(seed)) {
      page := SearchFromEnds(target, seed, 1, fetch);
    } else {
      page := 0;
    }
  }

  lemma {:induction false} SearchFromEnds(target: Account, seed: seq<Entry>, page: nat, fetch: nat -> PageReply)
    returns (end: nat)
    requires page > 0 && Reaches(target, seed, fetch, page)
    ensures Reaches(target, seed, fetch, end) && Ends(target, seed, fetch, end, SearchFrom(target, page, fetch))
    decreases MAX_PAGES - page
  {
    var reply := fetch(page * PAGE_SIZE);
    assert ReplyTo(seed, fetch, page) == reply;
    if GoesOn(target, reply) && page < MAX_PAGES - 1 {
      assert SearchFrom(target, page, fetch) == SearchFrom(target, page + 1, fetch);
      end := SearchFromEnds(target, seed, page + 1, fetch);
    } else {
      end := page;
      LastPageDecides(target, page, fetch);
    }
  }

  lemma LastPageDecides(target: Account, page: nat, fetch: nat -> PageReply)
    requires page < MAX_PAGES && (GoesOn(target, fetch(page * PAGE_SIZE)) ==> page == MAX_PAGES - 1)
    ensures SearchFrom(target, page, fetch)
            == match fetch(page * PAGE_SIZE)
               case PageFailed => Failed
               case NoFile => Exhausted
               case Page(entries) => AsOutcome(Find(entries, target))
  {
    match fetch(page * PAGE_SIZE)
    case PageFailed =>
    case NoFile =>
    case Page(entries) =>
      if Find(entries, target).None? && |entries| >= PAGE_SIZE {
        assert SearchFrom(target, page + 1, fetch) == Exhausted;
      }
  }

  // ── Over a list that holds still ──

  function Clip(n: nat, length: nat): nat {
    if n < length then n else length
  }

  function PageAt(list: seq<Entry>, offset: nat): seq<Entry> {
    list[Clip(offset, |list|)..Clip(offset + PAGE_SIZE, |list|)]
  }

  ghost predicate Serves(list: seq<Entry>, seed: seq<Entry>, fetch: nat -> PageReply) {
    && seed == PageAt(list, 0)
    && forall page: nat | 0 < page < MAX_PAGES :: fetch(page * PAGE_SIZE) == Page(PageAt(list, page * PAGE_SIZE))
  }

  /** The part of the list the page limit lets the search see. */
  function Visible(list: seq<Entry>): seq<Entry> {
    list[..Clip(MAX_PAGES * PAGE_SIZE, |list|)]
  }

  predicate NoneBefore(list: seq<Entry>, target: Account, n: nat) {
    forall i | 0 <= i < n && i < |list| :: list[i].account != target
  }

  lemma PageElement(list: seq<Entry>, offset: nat, k: nat)
    requires k < |PageAt(list, offset)|
    ensures k < PAGE_SIZE && offset + k < |list| && PageAt(list, offset)[k] == list[offset + k]
  {
  }

  /** The first match of a page after pages without one is the first match of all. */
  lemma PageShowsMatch(list: seq<Entry>, target: Account, offset: nat)
    requires offset + PAGE_SIZE <= MAX_PAGES * PAGE_SIZE && NoneBefore(list, target, offset)
    requires FirstMatch(PageAt(list, offset), target).Some?
    ensures Find(Visible(list), target) == Find(PageAt(list, offset), target)
  {
    var m := FirstMatch(PageAt(list, offset), target).value;
    PageElement(list, offset, m);
    forall j | 0 <= j < offset + m ensures Visible(list)[j].account != target {
      if j >= offset {
        PageElement(list, offset, j - offset);
      }
    }
    FirstMatchIs(Visible(list), target, offset + m);
  }

  lemma PageShowsNoMatch(list: seq<Entry>, target: Account, offset: nat)
    requires NoneBefore(list, target, offset) && FirstMatch(PageAt(list, offset), target).None?
    ensures NoneBefore(list, target, offset + PAGE_SIZE)
  {
    forall i | 0 <= i < offset + PAGE_SIZE && i < |list| ensures list[i].account != target {
      if i >= offset {
        assert i - offset < |PageAt(list, offset)|;
        PageElement(list, offset, i - offset);
      }
    }
  }

  /** A list without a match before an offset has none in a part that ends there. */
  lemma ExhaustedIsNone(list: seq<Entry>, target: Account, n: nat)
    requires NoneBefore(list, target, n) && |Visible(list)| <= n
    ensures Find(Visible(list), target).None?
  {
  }

  lemma {:induction false} SearchFromIsLinear(target: Account, list: seq<Entry>, seed: seq<Entry>,
                                              fetch: nat -> PageReply, page: nat)
    requires Serves(list, seed, fetch) && 0 < page <= MAX_PAGES && NoneBefore(list, target, page * PAGE_SIZE)
    ensures SearchFrom(target, page, fetch) == AsOutcome(Find(Visible(list), target))
    decreases MAX_PAGES - page
  {
    var offset := page * PAGE_SIZE;
    if page == MAX_PAGES {
      ExhaustedIsNone(list, target, offset);
    } else if FirstMatch(PageAt(list, offset), target).Some? {
      PageShowsMatch(list, target, offset);
    } else {
      PageShowsNoMatch(list, target, offset);
      if |PageAt(list, offset)| >= PAGE_SIZE {
        SearchFromIsLinear(target, list, seed, fetch, page + 1);
      } else {
        ExhaustedIsNone(list, target, offset + PAGE_SIZE);
      }
    }
  }

  /** Over a list that holds still, the paged search is the linear search of what the page limit shows. */
  lemma SearchIsLinear(target: Account, list: seq<Entry>, seed: seq<Entry>, fetch: nat -> PageReply)
    requires Serves(list, seed, fetch)
    ensures Search(target, seed, fetch) == AsOutcome(Find(Visible(list), target))
  {
    if FirstMatch(seed, target).Some? {
      PageShowsMatch(list, target, 0);
    } else {
      PageShowsNoMatch(list, target, 0);
      if |seed| >= PAGE_SIZE {
        SearchFromIsLinear(target, list, seed, fetch, 1);
      } else {
        ExhaustedIsNone(list, target, PAGE_SIZE);
      }
    }
  }

  /** The exact condition for it to be the linear search of the whole list: no match, or one before the page limit. */
  lemma AgreesWithWholeListIff(target: Account, list: seq<Entry>, seed: seq<Entry>, fetch: nat -> PageReply)
    requires Serves(list, seed, fetch)
    ensures Search(target, seed, fetch) == AsOutcome(Find(list, target))
            <==> (FirstMatch(list, target).Some? ==> FirstMatch(list, target).value < 16_384)
  {
    SearchIsLinear(target, list, seed, fetch);
    var m := FirstMatch(list, target);
    if m.Some? && m.value < MAX_PAGES * PAGE_SIZE {
      FirstMatchIs(Visible(list), target, m.value);
    }
  }

  // ── Over a list that changes between pages ──

  /** Every page is read from a list that has the original one in front. */
  ghost predicate ServesGrowing(list: seq<Entry>, seed: seq<Entry>, fetch: nat -> PageReply, later: nat -> seq<Entry>) {
    && seed == PageAt(list, 0)
    && forall page: nat | 0 < page < MAX_PAGES ::
         list <= later(page) && fetch(page * PAGE_SIZE) == Page(PageAt(later(page), page * PAGE_SIZE))
  }

  lemma GrownPageShowsMatch(target: Account, list: seq<Entry>, now: seq<Entry>, offset: nat, m: nat)
    requires list <= now && FirstMatch(list, target) == Some(m) && offset <= m < offset + PAGE_SIZE
    ensures Find(PageAt(now, offset), target) == Some(list[m])
  {
    var p := PageAt(now, offset);
    assert p[m - offset] == list[m];
    forall j | 0 <= j < m - offset ensures p[j].account != target {
      assert p[j] == list[offset + j];
    }
    FirstMatchIs(p, target, m - offset);
  }

  lemma GrownPageHasNoMatch(target: Account, list: seq<Entry>, now: seq<Entry>, offset: nat, m: nat)
    requires list <= now && FirstMatch(list, target) == Some(m) && offset + PAGE_SIZE <= m
    ensures FirstMatch(PageAt(now, offset), target).None? && |PageAt(now, offset)| == PAGE_SIZE
  {
    var p := PageAt(now, offset);
    forall j | 0 <= j < |p| ensures p[j].account != target {
      assert p[j] == list[offset + j];
    }
  }

  lemma GrownPageShows(target: Account, list: seq<Entry>, now: seq<Entry>, offset: nat, m: nat)
    requires list <= now && FirstMatch(list, target) == Some(m) && offset <= m
    ensures var p := PageAt(now, offset);
            if m < offset + PAGE_SIZE then Find(p, target) == Some(list[m])
            else Find(p, target).None? && |p| >= PAGE_SIZE
  {
    if m < offset + PAGE_SIZE {
      GrownPageShowsMatch(target, list, now, offset, m);
    } else {
      GrownPageHasNoMatch(target, list, now, offset, m);
    }
  }

  lemma {:induction false} SearchFromFinds(target: Account, list: seq<Entry>, fetch: nat -> PageReply,
                                           later: nat -> seq<Entry>, seed: seq<Entry>, page: nat, m: nat)
    requires ServesGrowing(list, seed, fetch, later) && 0 < page <= MAX_PAGES
    requires FirstMatch(list, target) == Some(m) && page * PAGE_SIZE <= m
    ensures SearchFrom(target, page, fetch) == if m < MAX_PAGES * PAGE_SIZE then Found(list[m]) else Exhausted
    decreases MAX_PAGES - page
  {
    if page < MAX_PAGES {
      GrownPageShows(target, list, later(page), page * PAGE_SIZE, m);
      if m >= (page + 1) * PAGE_SIZE {
        SearchFromFinds(target, list, fetch, later, seed, page + 1, m);
      }
    }
  }

  /** Entries added behind the list while the search runs do not hide one that was in it: it is found if and only if
      it is before the page limit. */
  lemma AppendsHideNothing(target: Account, list: seq<Entry>, seed: seq<Entry>, fetch: nat -> PageReply,
                           later: nat -> seq<Entry>, m: nat)
    requires ServesGrowing(list, seed, fetch, later)
    requires FirstMatch(list, target) == Some(m)
    ensures Search(target, seed, fetch) == if m < MAX_PAGES * PAGE_SIZE then Found(list[m]) else Exhausted
  {
    GrownPageShows(target, list, list, 0, m);
    if m >= PAGE_SIZE {
      SearchFromFinds(target, list, fetch, later, seed, 1, m);
    }
  }

  // ── Over a list whose entries also move ──

  /** The target is listed at `at` and nowhere else. */
  ghost predicate EntryAt(list: seq<Entry>, target: Account, at: nat) {
    && at < |list|
    && forall i | 0 <= i < |list| :: list[i].account == target <==> i == at
  }

  predicate ListedAt(list: seq<Entry>, at: nat, e: Entry) {
    at < |list| && list[at] == e
  }

  predicate InWindow(at: nat, page: nat) {
    page * PAGE_SIZE <= at < (page + 1) * PAGE_SIZE
  }

  /** Every page that is read comes from `later(p)`, whatever happens to the list in between; the target is at `at(p)`
      then. */
  ghost predicate ServesMoving(target: Account, seed: seq<Entry>, fetch: nat -> PageReply, later: nat -> seq<Entry>,
                               at: nat -> nat)
  {
    forall page: nat | Reaches(target, seed, fetch, page) ::
      && ReplyTo(seed, fetch, page) == Page(PageAt(later(page), page * PAGE_SIZE))
      && EntryAt(later(page), target, at(page))
  }

  /** The search reads on past page `page`: the target is elsewhere and the page is full. */
  ghost predicate Passes(later: nat -> seq<Entry>, at: nat -> nat, page: nat) {
    !InWindow(at(page), page) && |later(page)| >= (page + 1) * PAGE_SIZE
  }

  ghost predicate MeetsAt(later: nat -> seq<Entry>, at: nat -> nat, page: nat) {
    page < MAX_PAGES && InWindow(at(page), page) && forall q: nat | q < page :: Passes(later, at, q)
  }

  lemma PageShowsEntryIff(list: seq<Entry>, target: Account, at: nat, page: nat)
    requires EntryAt(list, target, at)
    ensures var entries := PageAt(list, page * PAGE_SIZE);
            && Find(entries, target) == (if InWindow(at, page) then Some(list[at]) else None)
            && (|entries| >= PAGE_SIZE <==> |list| >= (page + 1) * PAGE_SIZE)
  {
    var offset := page * PAGE_SIZE;
    var entries := PageAt(list, offset);
    forall k | 0 <= k < |entries| ensures entries[k].account == target <==> offset + k == at {
      PageElement(list, offset, k);
    }
    if InWindow(at, page) {
      assert entries[at - offset] == list[at];
      FirstMatchIs(entries, target, at - offset);
    }
  }

  lemma ReplyShowsEntryIff(target: Account, seed: seq<Entry>, fetch: nat -> PageReply, later: nat -> seq<Entry>,
                           at: nat -> nat, page: nat)
    requires ServesMoving(target, seed, fetch, later, at) && Reaches(target, seed, fetch, page)
    ensures GoesOn(target, ReplyTo(seed, fetch, page)) <==> Passes(later, at, page)
    ensures forall e ::
              Ends(target, seed, fetch, page, Found(e))
              <==> InWindow(at(page), page) && ListedAt(later(page), at(page), e)
    ensures !Ends(target, seed, fetch, page, Failed)
  {
    PageShowsEntryIff(later(page), target, at(page), page);
  }

  /** The exact condition for an entry listed at every read to be found: some page is read while the entry is in it, and
      every page before was full and read while the entry was elsewhere. */
  lemma MovingEntryFoundIff(target: Account, seed: seq<Entry>, fetch: nat -> PageReply, later: nat -> seq<Entry>,
                            at: nat -> nat)
    requires ServesMoving(target, seed, fetch, later, at)
    ensures !Search(target, seed, fetch).Failed?
    ensures Search(target, seed, fetch).Found? <==> exists page :: MeetsAt(later, at, page)
    ensures forall page | MeetsAt(later, at, page) ::
              Search(target, seed, fetch).Found? && ListedAt(later(page), at(page), Search(target, seed, fetch).entry)
  {
    var end := SearchEnds(target, seed, fetch);
    forall q: nat | q <= end ensures GoesOn(target, ReplyTo(seed, fetch, q)) <==> Passes(later, at, q) {
      assert Reaches(target, seed, fetch, q);
      ReplyShowsEntryIff(target, seed, fetch, later, at, q);
    }
    ReplyShowsEntryIff(target, seed, fetch, later, at, end);
    if Search(target, seed, fetch).Found? {
      assert MeetsAt(later, at, end);
    }
    forall page | MeetsAt(later, at, page)
      ensures Search(target, seed, fetch).Found? && ListedAt(later(page), at(page), Search(target, seed, fetch).entry)
    {
      MetEntryIsFound(target, seed, fetch, later, at, page);
    }
  }

  lemma ReachesNext(target: Account, seed: seq<Entry>, fetch: nat -> PageReply, page: nat)
    requires Reaches(target, seed, fetch, page) && page + 1 < MAX_PAGES
    requires GoesOn(target, ReplyTo(seed, fetch, page))
    ensures Reaches(target, seed, fetch, page + 1)
  {
  }

  lemma {:induction false} PassedIsReached(target: Account, seed: seq<Entry>, fetch: nat -> PageReply,
                                           later: nat -> seq<Entry>, at: nat -> nat, page: nat)
    requires ServesMoving(target, seed, fetch, later, at)
    requires page < MAX_PAGES && forall q: nat | q < page :: Passes(later, at, q)
    ensures Reaches(target, seed, fetch, page)
  {
    if page > 0 {
      PassedIsReached(target, seed, fetch, later, at, page - 1);
      ReplyShowsEntryIff(target, seed, fetch, later, at, page - 1);
      assert Passes(later, at, page - 1);
      ReachesNext(target, seed, fetch, page - 1);
    }
  }

  lemma MetEntryIsFound(target: Account, seed: seq<Entry>, fetch: nat -> PageReply, later: nat -> seq<Entry>,
                        at: nat -> nat, page: nat)
    requires ServesMoving(target, seed, fetch, later, at) && MeetsAt(later, at, page)
    ensures Search(target, seed, fetch).Found?
    ensures ListedAt(later(page), at(page), Search(target, seed, fetch).entry)
  {
    PassedIsReached(target, seed, fetch, later, at, page);
    ReplyShowsEntryIff(target, seed, fetch, later, at, page);
    SearchEndsIff(target, seed, fetch, Found(later(page)[at(page)]));
  }

  /** Entries are removed anywhere and added behind: the entry never moves back. */
  ghost predicate NeverMovesBack(at: nat -> nat) {
    forall p: nat, q: nat | p <= q < MAX_PAGES :: at(q) <= at(p)
  }

  /** While the entry is still to come in the page of a later read, the search reads on. */
  lemma {:induction false} AheadIsPassed(target: Account, seed: seq<Entry>, fetch: nat -> PageReply,
                                         later: nat -> seq<Entry>, at: nat -> nat, page: nat, p: nat)
    requires ServesMoving(target, seed, fetch, later, at) && NeverMovesBack(at)
    requires p <= page < MAX_PAGES && InWindow(at(page), page)
    ensures forall q: nat | q < p :: Passes(later, at, q)
  {
    if p > 0 {
      AheadIsPassed(target, seed, fetch, later, at, page, p - 1);
      PassedIsReached(target, seed, fetch, later, at, p - 1);
      assert at(page) <= at(p - 1) < |later(p - 1)|;
    }
  }

  /** Then the pages before take care of themselves: it is found if and only if it is in the page of some read. */
  lemma ForwardEntryFoundIff(target: Account, seed: seq<Entry>, fetch: nat -> PageReply, later: nat -> seq<Entry>,
                             at: nat -> nat)
    requires ServesMoving(target, seed, fetch, later, at) && NeverMovesBack(at)
    ensures Search(target, seed, fetch).Found? <==> exists page: nat :: page < MAX_PAGES && InWindow(at(page), page)
  {
    MovingEntryFoundIff(target, seed, fetch, later, at);
    if page: nat :| page < MAX_PAGES && InWindow(at(page), page) {
      AheadIsPassed(target, seed, fetch, later, at, page, page);
      assert MeetsAt(later, at, page);
    }
  }

  /** The entry starts at `m`, and at most `k` entries in front of it are removed while the search runs. */
  ghost predicate LosesInFront(target: Account, seed: seq<Entry>, fetch: nat -> PageReply, later: nat -> seq<Entry>,
                               at: nat -> nat, m: nat, k: nat)
  {
    && ServesMoving(target, seed, fetch, later, at) && NeverMovesBack(at)
    && at(0) == m && forall p: nat | p < MAX_PAGES :: m - at(p) <= k
  }

  lemma FewRemovalsHideNothing(target: Account, seed: seq<Entry>, fetch: nat -> PageReply, later: nat -> seq<Entry>,
                               at: nat -> nat, m: nat, k: nat)
    requires LosesInFront(target, seed, fetch, later, at, m, k)
    requires m < PAGE_SIZE || (m < MAX_PAGES * PAGE_SIZE && k <= m % PAGE_SIZE)
    ensures Search(target, seed, fetch).Found?
  {
    ForwardEntryFoundIff(target, seed, fetch, later, at);
    var page: nat := m / PAGE_SIZE;
    assert at(page) <= at(0);
    assert InWindow(at(page), page);
  }

  // The witness: the entry stays until the page before its own was read, then falls back into that page.

  function Filler(at: nat): seq<Entry> {
    seq(at, _ => Entry(0, 0)) + [Entry(1, 0)]
  }

  lemma FillerEntry(at: nat)
    ensures EntryAt(Filler(at), 1, at)
  {
  }

  function SlipsAt(m: nat, to: nat, page: nat): nat -> nat {
    (p: nat) => if p < page then m else to
  }

  function Fillers(at: nat -> nat): nat -> seq<Entry> {
    (p: nat) => Filler(at(p))
  }

  function PagesOf(later: nat -> seq<Entry>): nat -> PageReply {
    (offset: nat) => Page(PageAt(later(offset / PAGE_SIZE), offset))
  }

  lemma FillersServe(at: nat -> nat)
    ensures ServesMoving(1, PageAt(Filler(at(0)), 0), PagesOf(Fillers(at)), Fillers(at), at)
  {
    forall p: nat | p < MAX_PAGES
      ensures ReplyTo(PageAt(Filler(at(0)), 0), PagesOf(Fillers(at)), p) == Page(PageAt(Filler(at(p)), p * PAGE_SIZE))
      ensures EntryAt(Filler(at(p)), 1, at(p))
    {
      FillerEntry(at(p));
      assert p * PAGE_SIZE / PAGE_SIZE == p;
    }
  }

  lemma SlipsNeverBack(m: nat, to: nat, page: nat)
    requires to <= m && page > 0
    ensures var at := SlipsAt(m, to, page);
            NeverMovesBack(at) && at(0) == m && forall p: nat :: m - at(p) <= m - to
  {
  }

  lemma MissedEntry(m: nat, to: nat, page: nat, k: nat)
    returns (seed: seq<Entry>, fetch: nat -> PageReply, later: nat -> seq<Entry>)
    requires to <= m <= to + k && page > 0
    requires forall p: nat | p < MAX_PAGES :: !InWindow(SlipsAt(m, to, page)(p), p)
    ensures LosesInFront(1, seed, fetch, later, SlipsAt(m, to, page), m, k) && !Search(1, seed, fetch).Found?
  {
    var at := SlipsAt(m, to, page);
    seed, fetch, later := PageAt(Filler(at(0)), 0), PagesOf(Fillers(at)), Fillers(at);
    FillersServe(at);
    SlipsNeverBack(m, to, page);
    ForwardEntryFoundIff(1, seed, fetch, later, at);
  }

  /** What the caller can check: an entry at `m` is found over every such run if and only if it is in the first page, or
      before the page limit and no more entries are removed in front of it than stand before it in its page. */
  lemma RemovalsHideIff(m: nat, k: nat)
    ensures (forall target, seed, fetch, later, at | LosesInFront(target, seed, fetch, later, at, m, k) ::
               Search(target, seed, fetch).Found?)
            <==> m < PAGE_SIZE || (m < MAX_PAGES * PAGE_SIZE && k <= m % PAGE_SIZE)
  {
    if m < PAGE_SIZE || (m < MAX_PAGES * PAGE_SIZE && k <= m % PAGE_SIZE) {
      forall target, seed, fetch, later, at | LosesInFront(target, seed, fetch, later, at, m, k)
        ensures Search(target, seed, fetch).Found?
      {
        FewRemovalsHideNothing(target, seed, fetch, later, at, m, k);
      }
    } else if m >= MAX_PAGES * PAGE_SIZE {
      var seed, fetch, later := MissedEntry(m, m, 1, k);
    } else {
      var page: nat := m / PAGE_SIZE;
      var seed, fetch, later := MissedEntry(m, page * PAGE_SIZE - 1, page, k);
    }
  }

  /** The smallest case: account 1 is in the list at both reads, and is not found. */
  lemma RemovalHidesExample(list: seq<Entry>, seed: seq<Entry>, fetch: nat -> PageReply)
    requires |list| == PAGE_SIZE + 1 && list[PAGE_SIZE].account == 1
    requires forall i | 0 <= i < PAGE_SIZE :: list[i].account != 1
    requires seed == PageAt(list, 0) && fetch(PAGE_SIZE) == Page(PageAt(list[1..], PAGE_SIZE))
    ensures FirstMatch(list, 1) == Some(PAGE_SIZE) && FirstMatch(list[1..], 1) == Some(PAGE_SIZE - 1)
    ensures Search(1, seed, fetch) == Exhausted
  {
    FirstMatchIs(list, 1, PAGE_SIZE);
    FirstMatchIs(list[1..], 1, PAGE_SIZE - 1);
    assert forall i | 0 <= i < |seed| :: seed[i] == list[i];
  }
}
