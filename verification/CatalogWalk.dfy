/**
The page walk of scripts/index_catalog_hashes.py: `index_game`.

The upstream is a function of the page and the attempt (each is fetched at most once), and the database
and the image hasher are oracles per page. A fetch that raises ends the run and is not modelled.
*/
module CatalogWalk {
  import opened Wrappers

  const ATTEMPTS := 3
  const EMPTY_LIMIT := 3

  datatype Card = Card(id: Option<string>)

  datatype Page = Page(cards: seq<Card>, total: int)

  datatype Counts = Counts(indexed: nat, skipped: nat, failed: nat)

  /**
  The world `index_game` runs in, and its arguments. `hashes` says whether the card at a position of a page yields
  a hash when it is tried.
  */
  datatype Job = Job(
    fetch: (int, nat) -> Page,
    already: int -> set<string>,
    hashes: (int, nat) -> bool,
    pageSize: int, maxPages: int, startPage: int)

  // ---- One page of cards ------------------------------------------------------------------------

  datatype Fate = Skipped | Indexed | Failed

  /** A card whose id the index has already is skipped; of the others, those that yield a hash are indexed. */
  function FateOf(job: Job, page: int, cards: seq<Card>, i: nat): Fate
    requires i < |cards|
  {
    if cards[i].id.Some? && cards[i].id.value in job.already(page) then Skipped
    else if job.hashes(page, i) then Indexed
    else Failed
  }

  /** How many of the first n positions of a page meet a fate. */
  function Tally(job: Job, page: int, cards: seq<Card>, n: nat, fate: Fate): nat
    requires n <= |cards|
  {
    if n == 0 then 0
    else Tally(job, page, cards, n - 1, fate) + if FateOf(job, page, cards, n - 1) == fate then 1 else 0
  }

  /** The counts of a page: how many of its positions meet each fate. */
  function PageCounts(job: Job, page: int, cards: seq<Card>): Counts {
    Counts(Tally(job, page, cards, |cards|, Indexed), Tally(job, page, cards, |cards|, Skipped),
           Tally(job, page, cards, |cards|, Failed))
  }

  /** Every position meets one fate. */
  lemma {:induction false} TalliesAdd(job: Job, page: int, cards: seq<Card>, n: nat)
    requires n <= |cards|
    ensures Tally(job, page, cards, n, Indexed) + Tally(job, page, cards, n, Skipped) + Tally(job, page, cards, n, Failed) == n
  {
    if n > 0 {
      TalliesAdd(job, page, cards, n - 1);
    }
  }

  function SkippedAt(job: Job, page: int, cards: seq<Card>, n: nat): set<nat>
    requires n <= |cards|
  {
    set i | 0 <= i < n && cards[i].id.Some? && cards[i].id.value in job.already(page)
  }

  function TriedAt(job: Job, page: int, cards: seq<Card>, n: nat, hashed: bool): set<nat>
    requires n <= |cards|
  {
    set i | 0 <= i < n && (cards[i].id.None? || cards[i].id.value !in job.already(page)) && job.hashes(page, i) == hashed
  }

  lemma GrowsByOne(earlier: set<nat>, now: set<nat>, n: nat)
    requires n !in earlier && forall i :: i in now && i != n <==> i in earlier
    ensures |now| == |earlier| + if n in now then 1 else 0
  {
    assert now == if n in now then earlier + {n} else earlier;
  }

  lemma SkippedSnoc(job: Job, page: int, cards: seq<Card>, n: nat)
    requires n < |cards|
    ensures |SkippedAt(job, page, cards, n + 1)|
         == |SkippedAt(job, page, cards, n)| + if FateOf(job, page, cards, n) == Skipped then 1 else 0
  {
    GrowsByOne(SkippedAt(job, page, cards, n), SkippedAt(job, page, cards, n + 1), n);
  }

  lemma TriedSnoc(job: Job, page: int, cards: seq<Card>, n: nat, hashed: bool)
    requires n < |cards|
    ensures |TriedAt(job, page, cards, n + 1, hashed)|
         == |TriedAt(job, page, cards, n, hashed)|
            + if FateOf(job, page, cards, n) == (if hashed then Indexed else Failed) then 1 else 0
  {
    var earlier, now := TriedAt(job, page, cards, n, hashed), TriedAt(job, page, cards, n + 1, hashed);
    GrowsByOne(earlier, now, n);
  }

  lemma {:induction false} TallyCounts(job: Job, page: int, cards: seq<Card>, n: nat)
    requires n <= |cards|
    ensures Tally(job, page, cards, n, Skipped) == |SkippedAt(job, page, cards, n)|
    ensures Tally(job, page, cards, n, Indexed) == |TriedAt(job, page, cards, n, true)|
    ensures Tally(job, page, cards, n, Failed) == |TriedAt(job, page, cards, n, false)|
  {
    if n > 0 {
      TallyCounts(job, page, cards, n - 1);
      SkippedSnoc(job, page, cards, n - 1);
      TriedSnoc(job, page, cards, n - 1, true);
      TriedSnoc(job, page, cards, n - 1, false);
    }
  }

  /**
  The counts of a page, by its positions: skipped are those whose id the index has, indexed those of the others that
  yield a hash, and failed those of the others that yield none.
  */
  lemma CountsArePositions(job: Job, page: int, cards: seq<Card>)
    ensures
      PageCounts(job, page, cards)
      == Counts(|TriedAt(job, page, cards, |cards|, true)|, |SkippedAt(job, page, cards, |cards|)|,
                |TriedAt(job, page, cards, |cards|, false)|)
  {
    TallyCounts(job, page, cards, |cards|);
  }

  /** `_process_cards`: leave out the cards already indexed, hash the rest; those that yield no hash failed. */
  method ProcessCards(job: Job, page: int, cards: seq<Card>) returns (counts: Counts)
    ensures counts == PageCounts(job, page, cards)
    ensures counts.indexed + counts.skipped + counts.failed == |cards|
  {
    var todo: seq<nat>, records := [], 0;
    for i := 0 to |cards|
      invariant i - |todo| == Tally(job, page, cards, i, Skipped)
      invariant records == Tally(job, page, cards, i, Indexed)
    {
      if cards[i].id.None? || cards[i].id.value !in job.already(page) {
        todo := todo + [i];
        records := records + if job.hashes(page, i) then 1 else 0;
      }
    }
    TalliesAdd(job, page, cards, |cards|);
    counts := Counts(records, |cards| - |todo|, |todo| - records);
  }

  function Add(a: Counts, b: Counts): Counts {
    Counts(a.indexed + b.indexed, a.skipped + b.skipped, a.failed + b.failed)
  }

  // ---- What the walk should do, page by page -------------------------------------------------------

  /** The cards a page yields within its attempts: those of the first attempt that has any. */
  function CardsFrom(job: Job, page: int, attempt: nat): seq<Card>
    decreases ATTEMPTS - attempt, page
  {
    if attempt >= ATTEMPTS then []
    else if job.fetch(page, attempt).cards != [] then job.fetch(page, attempt).cards
    else CardsFrom(job, page, attempt + 1)
  }

  function CardsOf(job: Job, page: int): seq<Card> {
    CardsFrom(job, page, 0)
  }

  /** The first total an attempt at the page reports; attempts end with the first that has cards. */
  function TotalFrom(job: Job, page: int, attempt: nat): int
    decreases ATTEMPTS - attempt, page
  {
    if attempt >= ATTEMPTS then 0
    else
      var result := job.fetch(page, attempt);
      if result.total != 0 then result.total
      else if result.cards != [] then 0
      else TotalFrom(job, page, attempt + 1)
  }

  function TotalOf(job: Job, page: int): int {
    TotalFrom(job, page, 0)
  }

  /** Attempt a at the page is made: all before it found no cards. */
  predicate Attempted(job: Job, page: int, a: int) {
    0 <= a < 3 && forall b :: 0 <= b < a ==> job.fetch(page, b).cards == []
  }

  lemma {:induction false} CardsFromIs(job: Job, page: int, attempt: nat)
    requires attempt <= 3 && forall b :: 0 <= b < attempt ==> job.fetch(page, b).cards == []
    ensures
      var cards := CardsFrom(job, page, attempt);
      && (cards == [] <==> forall a :: 0 <= a < 3 ==> job.fetch(page, a).cards == [])
      && (cards != [] ==> exists a :: Attempted(job, page, a) && cards == job.fetch(page, a).cards)
    decreases 3 - attempt
  {
    if attempt < 3 {
      assert Attempted(job, page, attempt);
      if job.fetch(page, attempt).cards == [] {
        CardsFromIs(job, page, attempt + 1);
      }
    }
  }

  lemma {:induction false} TotalFromIs(job: Job, page: int, attempt: nat)
    requires attempt <= 3 && forall b :: 0 <= b < attempt ==> job.fetch(page, b).cards == [] && job.fetch(page, b).total == 0
    ensures
      var total := TotalFrom(job, page, attempt);
      && (total == 0 <==> forall a :: 0 <= a < 3 && Attempted(job, page, a) ==> job.fetch(page, a).total == 0)
      && (total != 0 ==> exists a :: Attempted(job, page, a) && total == job.fetch(page, a).total
                                     && forall b :: 0 <= b < a ==> job.fetch(page, b).total == 0)
    decreases 3 - attempt
  {
    if attempt < 3 {
      assert Attempted(job, page, attempt);
      if job.fetch(page, attempt).cards == [] && job.fetch(page, attempt).total == 0 {
        TotalFromIs(job, page, attempt + 1);
      } else if job.fetch(page, attempt).cards != [] {
        assert forall a :: Attempted(job, page, a) ==> a <= attempt;
      }
    }
  }

  /**
  What a page yields in three attempts, each made only while the earlier ones found no cards: the cards of the one
  that found some, and the first total any of them reports.
  */
  lemma PageYields(job: Job, page: int)
    ensures CardsOf(job, page) == [] <==> forall a :: 0 <= a < 3 ==> job.fetch(page, a).cards == []
    ensures CardsOf(job, page) != [] ==> exists a :: Attempted(job, page, a) && CardsOf(job, page) == job.fetch(page, a).cards
    ensures TotalOf(job, page) == 0 <==> forall a :: 0 <= a < 3 && Attempted(job, page, a) ==> job.fetch(page, a).total == 0
    ensures TotalOf(job, page) != 0 ==>
      exists a :: Attempted(job, page, a) && TotalOf(job, page) == job.fetch(page, a).total
                  && forall b :: 0 <= b < a ==> job.fetch(page, b).total == 0
  {
    CardsFromIs(job, page, 0);
    TotalFromIs(job, page, 0);
  }

  /** The k-th page the walk would try, counting from 0: its cards, and the total it reports. */
  function CardsNth(job: Job, k: nat): seq<Card> {
    CardsOf(job, job.startPage + k)
  }

  function TotalNth(job: Job, k: nat): int {
    TotalOf(job, job.startPage + k)
  }

  /** The first total reported by the first n pages, 0 when there is none. */
  function Reported(job: Job, n: nat): int {
    if n == 0 then 0
    else
      var earlier := Reported(job, n - 1);
      if earlier != 0 then earlier else TotalNth(job, n - 1)
  }

  /** Two pages past the reported end. */
  function LastPage(job: Job, total: int): int
    requires job.pageSize > 0
  {
    total / job.pageSize + 2
  }

  predicate EmptyTail(job: Job, n: nat) {
    n >= EMPTY_LIMIT && forall k :: n - EMPTY_LIMIT <= k < n ==> CardsNth(job, k) == []
  }

  /** Having tried n pages, the walk is over. */
  predicate StopsAt(job: Job, n: nat)
    requires job.pageSize > 0
  {
    || (job.maxPages != 0 && n >= job.maxPages)
    || (Reported(job, n) != 0 && job.startPage + n > LastPage(job, Reported(job, n)))
    || EmptyTail(job, n)
  }

  /** The counts of the first n pages. */
  function CountsAt(job: Job, n: nat): Counts {
    if n == 0 then Counts(0, 0, 0)
    else
      Add(CountsAt(job, n - 1), PageCounts(job, job.startPage + n - 1, CardsNth(job, n - 1)))
  }

  function CardsAt(job: Job, n: nat): nat {
    if n == 0 then 0 else CardsAt(job, n - 1) + |CardsNth(job, n - 1)|
  }

  // ---- The loop -------------------------------------------------------------------------------------

  /** The last page to try, once a page has been fetched. */
  function NextKnown(job: Job, page: int, known: Option<int>): Option<int>
    requires job.pageSize > 0
  {
    if known.Some? || TotalOf(job, page) == 0 then known else Some(LastPage(job, TotalOf(job, page)))
  }

  /** The retries of one page: up to three attempts, learning the last page from the first total. */
  method FetchPage(job: Job, page: int, known: Option<int>) returns (cards: seq<Card>, maxPage: Option<int>)
    requires job.pageSize > 0
    ensures cards == CardsOf(job, page) && maxPage == NextKnown(job, page, known)
  {
    cards, maxPage := [], known;
    var attempt := 0;
    while attempt < ATTEMPTS
      invariant attempt <= ATTEMPTS && cards == []
      invariant CardsOf(job, page) == CardsFrom(job, page, attempt)
      invariant maxPage == known || (known.None? && TotalOf(job, page) != 0 && maxPage == Some(LastPage(job, TotalOf(job, page))))
      invariant maxPage.None? ==> TotalOf(job, page) == TotalFrom(job, page, attempt)
    {
      var result := job.fetch(page, attempt);
      cards := result.cards;
      if result.total != 0 && maxPage.None? {
        maxPage := Some(result.total / job.pageSize + 2);
      }
      if cards != [] {
        break;
      }
      attempt := attempt + 1;
    }
  }

  /** The locals of the loop, with the number of pages tried. */
  datatype Progress = Progress(tried: nat, counts: Counts, streak: nat, maxPage: Option<int>)

  /** The counts after a page. */
  function Counted(job: Job, page: int, counts: Counts, cards: seq<Card>): Counts {
    if cards == [] then counts else Add(counts, PageCounts(job, page, cards))
  }

  /** One page tried. */
  function Try(job: Job, p: Progress): Progress
    requires job.pageSize > 0
  {
    var page, cards := job.startPage + p.tried, CardsNth(job, p.tried);
    Progress(p.tried + 1,
             Counted(job, page, p.counts, cards),
             if cards == [] then p.streak + 1 else 0,
             NextKnown(job, page, p.maxPage))
  }

  /** The two guards at the top of the loop. */
  predicate Over(job: Job, p: Progress) {
    || (job.maxPages != 0 && p.tried >= job.maxPages)
    || (p.maxPage.Some? && job.startPage + p.tried > p.maxPage.value)
  }

  /** Exactly the last `streak` of the first n pages were empty. */
  predicate Streak(job: Job, n: nat, streak: nat) {
    && streak <= n
    && (forall k :: n - streak <= k < n ==> CardsNth(job, k) == [])
    && (streak < n ==> CardsNth(job, n - streak - 1) != [])
  }

  ghost predicate NotStoppedBefore(job: Job, n: nat)
    requires job.pageSize > 0
  {
    forall k: nat :: k < n ==> !StopsAt(job, k)
  }

  ghost predicate Ends(job: Job)
    requires job.pageSize > 0
  {
    exists n :: StopsAt(job, n)
  }

  /** n is the least number of pages at which the walk is over, and these are its counts. */
  ghost predicate Finished(job: Job, n: nat, counts: Counts)
    requires job.pageSize > 0
  {
    StopsAt(job, n) && NotStoppedBefore(job, n) && counts == CountsAt(job, n)
  }

  /** What the loop knows before it tries the next page. */
  ghost predicate Walking(job: Job, p: Progress)
    requires job.pageSize > 0
  {
    && p.counts == CountsAt(job, p.tried) && NotStoppedBefore(job, p.tried)
    && p.streak < EMPTY_LIMIT && Streak(job, p.tried, p.streak)
    && p.maxPage == KnownAfter(job, p.tried)
  }

  /** The last page to try, after n pages. */
  function KnownAfter(job: Job, n: nat): Option<int>
    requires job.pageSize > 0
  {
    if Reported(job, n) == 0 then None else Some(LastPage(job, Reported(job, n)))
  }

  lemma KnownSnoc(job: Job, n: nat)
    requires job.pageSize > 0
    ensures KnownAfter(job, n + 1) == NextKnown(job, job.startPage + n, KnownAfter(job, n))
  {
  }

  lemma StreakStops(job: Job, n: nat, streak: nat)
    requires Streak(job, n, streak)
    ensures EmptyTail(job, n) <==> streak >= EMPTY_LIMIT
  {
    if streak < EMPTY_LIMIT <= n {
      assert CardsNth(job, n - streak - 1) != [];
    }
  }

  lemma StreakGoesOn(job: Job, n: nat, streak: nat)
    requires Streak(job, n, streak)
    ensures Streak(job, n + 1, if CardsNth(job, n) == [] then streak + 1 else 0)
  {
  }

  lemma EmptyPageCounts(job: Job, n: nat)
    requires CardsNth(job, n) == []
    ensures CountsAt(job, n + 1) == CountsAt(job, n)
  {
    assert PageCounts(job, job.startPage + n, []) == Counts(0, 0, 0);
  }

  /** The guards are the two conditions they stand for. */
  lemma GuardsDecide(job: Job, p: Progress)
    requires job.pageSize > 0 && Walking(job, p)
    ensures StopsAt(job, p.tried) <==> Over(job, p)
    ensures Over(job, p) ==> Finished(job, p.tried, p.counts)
  {
    StreakStops(job, p.tried, p.streak);
  }

  lemma NotStoppedSnoc(job: Job, n: nat)
    requires job.pageSize > 0 && NotStoppedBefore(job, n) && !StopsAt(job, n)
    ensures NotStoppedBefore(job, n + 1)
  {
    forall k: nat | k < n + 1 ensures !StopsAt(job, k) {}
  }

  lemma CountsSnoc(job: Job, n: nat)
    ensures CountsAt(job, n + 1)
         == Counted(job, job.startPage + n, CountsAt(job, n), CardsNth(job, n))
  {
    if CardsNth(job, n) == [] {
      EmptyPageCounts(job, n);
    }
  }

  lemma TryCounts(job: Job, p: Progress)
    requires job.pageSize > 0 && p.counts == CountsAt(job, p.tried)
    ensures Try(job, p).counts == CountsAt(job, p.tried + 1)
  {
    CountsSnoc(job, p.tried);
  }

  lemma TryKnown(job: Job, p: Progress)
    requires job.pageSize > 0 && p.maxPage == KnownAfter(job, p.tried)
    ensures Try(job, p).maxPage == KnownAfter(job, p.tried + 1)
  {
    KnownSnoc(job, p.tried);
  }

  lemma TryStreak(job: Job, p: Progress)
    requires job.pageSize > 0 && Streak(job, p.tried, p.streak)
    ensures Streak(job, p.tried + 1, Try(job, p).streak)
  {
    StreakGoesOn(job, p.tried, p.streak);
  }

  lemma TryIs(job: Job, p: Progress)
    requires job.pageSize > 0 && Walking(job, p)
    ensures
      var next := Try(job, p);
      && next.tried == p.tried + 1
      && next.counts == CountsAt(job, next.tried) && next.maxPage == KnownAfter(job, next.tried)
      && Streak(job, next.tried, next.streak)
  {
    TryCounts(job, p);
    TryKnown(job, p);
    TryStreak(job, p);
  }

  lemma TryGoesOn(job: Job, p: Progress)
    requires job.pageSize > 0 && Walking(job, p) && !Over(job, p)
    ensures NotStoppedBefore(job, p.tried + 1)
  {
    GuardsDecide(job, p);
    NotStoppedSnoc(job, p.tried);
  }

  lemma StreakEnds(job: Job, n: nat, streak: nat)
    requires job.pageSize > 0 && Streak(job, n, streak) && streak >= EMPTY_LIMIT
    ensures StopsAt(job, n)
  {
    StreakStops(job, n, streak);
  }

  lemma PageTried(job: Job, p: Progress)
    requires job.pageSize > 0 && Walking(job, p) && !Over(job, p)
    ensures
      var next := Try(job, p);
      if next.streak >= EMPTY_LIMIT then Finished(job, next.tried, next.counts) else Walking(job, next)
  {
    TryGoesOn(job, p);
    TryIs(job, p);
    var next := Try(job, p);
    if next.streak >= EMPTY_LIMIT {
      StreakEnds(job, next.tried, next.streak);
    }
  }

  lemma StillAhead(job: Job, p: Progress, bound: nat)
    requires job.pageSize > 0 && StopsAt(job, bound) && Walking(job, p)
    ensures p.tried <= bound && (!Over(job, p) ==> p.tried < bound)
  {
    GuardsDecide(job, p);
  }

  /** The body of the loop: one page, with its retries. */
  method TryPage(job: Job, page: int, counts: Counts, emptyStreak: nat, known: Option<int>, ghost tried: nat)
    returns (newCounts: Counts, newStreak: nat, maxPage: Option<int>)
    requires job.pageSize > 0 && page == job.startPage + tried
    requires Walking(job, Progress(tried, counts, emptyStreak, known))
    requires !Over(job, Progress(tried, counts, emptyStreak, known))
    ensures
      if newStreak >= EMPTY_LIMIT then Finished(job, tried + 1, newCounts)
      else Walking(job, Progress(tried + 1, newCounts, newStreak, maxPage))
  {
    ghost var before := Progress(tried, counts, emptyStreak, known);
    var cards;
    cards, maxPage := FetchPage(job, page, known);
    if cards == [] {
      newCounts, newStreak := counts, emptyStreak + 1;
    } else {
      var here := ProcessCards(job, page, cards);
      newCounts, newStreak := Add(counts, here), 0;
    }
    assert Progress(tried + 1, newCounts, newStreak, maxPage) == Try(job, before);
    PageTried(job, before);
  }

  lemma WalkBegins(job: Job)
    requires job.pageSize > 0
    ensures Walking(job, Progress(0, Counts(0, 0, 0), 0, None))
  {
  }

  /**
  `index_game`. It tries the pages start, start + 1, ... and stops after the least number of them at which
  the declarative condition holds. It terminates when there is such a number; the counts are those of the
  pages tried.
  */
  method IndexGame(job: Job) returns (counts: Counts)
    requires job.pageSize > 0 && Ends(job)
    ensures exists tried :: Finished(job, tried, counts)
  {
    ghost var bound: nat :| StopsAt(job, bound);
    ghost var tried := 0;
    WalkBegins(job);
    counts := Counts(0, 0, 0);
    var page, emptyStreak: nat, maxPage: Option<int> := job.startPage, 0, None;
    while true
      invariant Walking(job, Progress(tried, counts, emptyStreak, maxPage)) && page == job.startPage + tried
      decreases bound - tried
    {
      ghost var p := Progress(tried, counts, emptyStreak, maxPage);
      GuardsDecide(job, p);
      StillAhead(job, p, bound);
      if job.maxPages != 0 && page - job.startPage >= job.maxPages {
        break;
      }
      if maxPage.Some? && page > maxPage.value {
        break;
      }
      counts, emptyStreak, maxPage := TryPage(job, page, counts, emptyStreak, maxPage, tried);
      tried := tried + 1;
      if emptyStreak >= EMPTY_LIMIT {
        break;
      }
      page := page + 1;
    }
  }

  /** Every card of every page tried is counted once: indexed, skipped or failed. */
  lemma {:induction false} CountsConserve(job: Job, n: nat)
    ensures CountsAt(job, n).indexed + CountsAt(job, n).skipped + CountsAt(job, n).failed == CardsAt(job, n)
  {
    if n > 0 {
      CountsConserve(job, n - 1);
      TalliesAdd(job, job.startPage + n - 1, CardsNth(job, n - 1), |CardsNth(job, n - 1)|);
    }
  }

  /** How many cards of the first n pages tried meet a fate. */
  function TallyAll(job: Job, n: nat, fate: Fate): nat {
    if n == 0 then 0
    else
      var cards := CardsNth(job, n - 1);
      TallyAll(job, n - 1, fate) + Tally(job, job.startPage + n - 1, cards, |cards|, fate)
  }

  /** The counts of a run are the numbers of cards, on all the pages tried, that meet each fate. */
  lemma {:induction false} RunCounts(job: Job, n: nat)
    ensures CountsAt(job, n) == Counts(TallyAll(job, n, Indexed), TallyAll(job, n, Skipped), TallyAll(job, n, Failed))
  {
    if n > 0 {
      RunCounts(job, n - 1);
    }
  }

  // ---- When it ends, and what it covers --------------------------------------------------------------

  lemma {:induction false} ReportedStays(job: Job, n: nat, m: nat)
    requires n <= m && Reported(job, n) != 0
    ensures Reported(job, m) == Reported(job, n)
    decreases m - n
  {
    if n < m {
      ReportedStays(job, n, m - 1);
    }
  }

  lemma {:induction false} ReportedBySome(job: Job, n: nat)
    ensures Reported(job, n) != 0 <==> exists k :: 0 <= k < n && TotalNth(job, k) != 0
  {
    if n > 0 {
      ReportedBySome(job, n - 1);
      if Reported(job, n) != 0 {
        if Reported(job, n - 1) == 0 {
          assert TotalNth(job, n - 1) != 0;
        }
      } else {
        assert TotalNth(job, n - 1) == 0;
      }
    }
  }

  /**
  The walk terminates exactly when `max_pages` is set, or some page reports a total within its attempts, or
  three pages in a row stay empty through all theirs. In particular it does when the upstream has finitely
  many non-empty pages.
  */
  lemma TerminatesIff(job: Job)
    requires job.pageSize > 0
    ensures Ends(job)
       <==> || job.maxPages != 0
            || (exists k: nat :: TotalNth(job, k) != 0)
            || (exists n :: EmptyTail(job, n))
  {
    if job.maxPages != 0 {
      assert StopsAt(job, if job.maxPages < 0 then 0 else job.maxPages);
    }
    if k: nat :| TotalNth(job, k) != 0 {
      ReportedBySome(job, k + 1);
      var last := LastPage(job, Reported(job, k + 1));
      var n := if last - job.startPage + 1 > k + 1 then last - job.startPage + 1 else k + 1;
      ReportedStays(job, k + 1, n);
      assert StopsAt(job, n);
    }
    if n :| EmptyTail(job, n) {
      assert StopsAt(job, n);
    }
    if n :| StopsAt(job, n) {
      ReportedBySome(job, n);
    }
  }

  lemma FinitelyManyPagesTerminate(job: Job, beyond: nat)
    requires job.pageSize > 0
    requires forall k: nat :: k >= beyond ==> CardsNth(job, k) == []
    ensures StopsAt(job, beyond + 3)
  {
    assert EmptyTail(job, beyond + EMPTY_LIMIT);
  }

  /**
  Coverage. Without `max_pages`, once a total T has been reported, the walk tries every page from the start
  through one past ceil(T / page_size), unless three pages in a row stayed empty through all retries.
  */
  lemma CoversTheCatalog(job: Job, tried: nat, page: int)
    requires job.pageSize > 0 && job.maxPages == 0
    requires StopsAt(job, tried) && Reported(job, tried) > 0
    requires job.startPage <= page <= (Reported(job, tried) + job.pageSize - 1) / job.pageSize + 1
    ensures page < job.startPage + tried || (tried >= 3 && forall k :: tried - 3 <= k < tried ==> CardsNth(job, k) == [])
  {
    CeilingIsNear(Reported(job, tried), job.pageSize);
  }

  /** And not much more: once a total is known, no page further than two past total / page_size is tried. */
  lemma TriesNoFurther(job: Job, tried: nat, k: nat)
    requires job.pageSize > 0 && NotStoppedBefore(job, tried) && k < tried && Reported(job, k) != 0
    ensures job.startPage + k <= Reported(job, k) / job.pageSize + 2
  {
    assert !StopsAt(job, k);
  }

  lemma CeilingIsNear(total: int, size: int)
    requires size > 0
    ensures (total + size - 1) / size <= total / size + 1
  {
    var q := total / size;
    assert total < (q + 1) * size;
    var c := (total + size - 1) / size;
    assert c * size <= total + size - 1;
    if c > q + 1 {
      MulOrder(q + 2, c, size);
      assert false;
    }
  }

  lemma MulOrder(a: int, b: int, each: nat)
    requires a <= b
    ensures a * each <= b * each
  {
  }
}
