/**
 * The paginated fetchers of `ScoreSaberAPI` (src/scoresaber/api/index.ts),
 * over an abstract page source: `source(p)` is what the `fetchPage` call for
 * page p resolves to, None when it throws. What a fetcher returns is paired
 * with the `fetchPage` calls it makes, in the order it makes them.
 *
 * The fan-out fetchers append each page when its response arrives. Arrival
 * order is modelled by a latency per page: pages arrive in increasing latency,
 * ties in the order they were requested. Every order of arrival is the
 * outcome of some latency assignment.
 */
module ScoreSaberApi {
  import opened Js
  import opened Seqs

  const PlayersPerPage := 50
  const ScoresPerPage := 100

  /** A call of `fetchPage`, named by the resource and page it asks for. */
  datatype Request =
    | PlayersPage(page: int)
    | FullPlayer
    | ScoresPage(page: int)
    | LeaderboardsPage(page: int)
    | RankingTop
    | RankingBelowTop

  /** What a fetcher resolves to (None: it rejects), and the calls it made. */
  datatype Aggregate<T> = Aggregate(items: Option<seq<T>>, calls: seq<Request>)

  /** The page numbers 1, 2, ..., n. */
  function Pages(n: nat): (ps: seq<int>)
    ensures |ps| == n
    ensures forall i :: 0 <= i < n ==> ps[i] == i + 1
  {
    seq(n, i => i + 1)
  }

  function PlayersRequests(n: nat): seq<Request> {
    seq(n, i => PlayersPage(i + 1))
  }

  function ScoresRequests(n: nat): seq<Request> {
    seq(n, i => ScoresPage(i + 1))
  }

  function LeaderboardsRequests(n: nat): seq<Request> {
    seq(n, i => LeaderboardsPage(i + 1))
  }

  /**
   * The number of turns of a loop over pages 1..Math.ceil(total / perPage):
   * the least number of pages of `perPage` items that hold `total` items.
   */
  function PageCount(total: int, perPage: int): (n: nat)
    requires perPage > 0
    ensures total <= 0 ==> n == 0
    ensures total > 0 ==> (n - 1) * perPage < total <= n * perPage
  {
    var q := CeilDiv(total, perPage);
    if q <= 0 then 0 else q
  }

  // ---------------------------------------------------------------------------
  // Concatenating pages
  // ---------------------------------------------------------------------------

  /**
   * The items of `pages`, concatenated in the order listed; None as soon as
   * one of those pages fails.
   */
  function Gather<T>(source: int -> Option<seq<T>>, pages: seq<int>): (r: Option<seq<T>>)
    ensures r.Some? <==> forall i :: 0 <= i < |pages| ==> source(pages[i]).Some?
    decreases |pages|
  {
    if |pages| == 0 then Some([])
    else
      var rest := Gather(source, pages[..|pages| - 1]);
      var last := source(pages[|pages| - 1]);
      if rest.Some? && last.Some? then Some(rest.value + last.value) else None
  }

  /** Gathering succeeds exactly when every page listed succeeds. */
  lemma GatherSucceeds<T>(source: int -> Option<seq<T>>, pages: seq<int>)
    ensures Gather(source, pages).Some? <==> forall p :: p in pages ==> source(p).Some?
  {
    if Gather(source, pages).Some? {
      forall p | p in pages
        ensures source(p).Some?
      {
        var i :| 0 <= i < |pages| && pages[i] == p;
      }
    } else {
      var i :| 0 <= i < |pages| && source(pages[i]).None?;
      var p := pages[i];
      assert p in pages && source(p).None?;
    }
  }

  lemma GatherSingle<T>(source: int -> Option<seq<T>>, x: int)
    ensures Gather(source, [x]) == if source(x).Some? then Some(source(x).value) else None
  {
    assert [x][..0] == [];
    if source(x).Some? {
      assert [] + source(x).value == source(x).value;
    }
  }

  /** Gathering a concatenation concatenates the two gatherings. */
  lemma {:induction false} GatherAppend<T>(source: int -> Option<seq<T>>, a: seq<int>, b: seq<int>)
    ensures Gather(source, a + b) ==
            if Gather(source, a).Some? && Gather(source, b).Some?
            then Some(Gather(source, a).value + Gather(source, b).value)
            else None
    decreases |b|
  {
    if |b| == 0 {
      assert a + b == a;
      assert Gather(source, a).Some? ==> Gather(source, a).value + [] == Gather(source, a).value;
    } else {
      var b' := b[..|b| - 1];
      assert (a + b)[..|a + b| - 1] == a + b';
      assert (a + b)[|a + b| - 1] == b[|b| - 1];
      GatherAppend(source, a, b');
      if Gather(source, a + b).Some? {
        var x := Gather(source, a).value;
        var y := Gather(source, b').value;
        var z := source(b[|b| - 1]).value;
        assert x + y + z == x + (y + z);
      }
    }
  }

  /** Taking one page out of the middle of a gathering takes out exactly its items. */
  lemma GatherWithout<T>(source: int -> Option<seq<T>>, b1: seq<int>, x: int, b2: seq<int>)
    requires Gather(source, b1 + [x] + b2).Some?
    ensures Gather(source, b1 + b2).Some? && source(x).Some?
    ensures multiset(Gather(source, b1 + [x] + b2).value)
            == multiset(Gather(source, b1 + b2).value) + multiset(source(x).value)
  {
    GatherSingle(source, x);
    GatherAppend(source, b1, [x]);
    GatherAppend(source, b1 + [x], b2);
    GatherAppend(source, b1, b2);
    var g1 := Gather(source, b1).value;
    var g2 := Gather(source, b2).value;
    var sx := source(x).value;
    assert Gather(source, b1 + [x] + b2).value == g1 + sx + g2;
    assert Gather(source, b1 + b2).value == g1 + g2;
  }

  lemma GatherSameSuccess<T>(source: int -> Option<seq<T>>, a: seq<int>, b: seq<int>)
    requires multiset(a) == multiset(b)
    ensures Gather(source, a).Some? <==> Gather(source, b).Some?
  {
    GatherSucceeds(source, a);
    GatherSucceeds(source, b);
    forall p
      ensures p in a <==> p in b
    {
      assert p in a <==> p in multiset(a);
      assert p in b <==> p in multiset(b);
    }
  }

  /** Gathering the same pages in any order yields the same items, as a multiset. */
  lemma {:induction false} GatherPermutation<T>(source: int -> Option<seq<T>>, a: seq<int>, b: seq<int>)
    requires multiset(a) == multiset(b)
    ensures Gather(source, a).Some? <==> Gather(source, b).Some?
    ensures Gather(source, a).Some? ==>
              multiset(Gather(source, a).value) == multiset(Gather(source, b).value)
    decreases |a|
  {
    GatherSameSuccess(source, a, b);
    if |a| > 0 && Gather(source, a).Some? {
      var x := a[|a| - 1];
      var k := RemoveMatching(a, b);
      GatherPermutation(source, a[..|a| - 1], b[..k] + b[k + 1..]);
      GatherWithout(source, b[..k], x, b[k + 1..]);
      GatherSingle(source, x);
      GatherAppend(source, a[..|a| - 1], [x]);
      assert a[..|a| - 1] + [x] == a;
    }
  }

  // ---------------------------------------------------------------------------
  // Arrival order of concurrently requested pages
  // ---------------------------------------------------------------------------

  /** Each page arrives no earlier than the one before it. */
  ghost predicate ArrivesInOrder(order: seq<int>, latency: int -> nat) {
    forall i :: 0 < i < |order| ==> latency(order[i - 1]) <= latency(order[i])
  }

  /** Places page p behind every page of `order` that arrives no later than it. */
  function InsertByLatency(p: int, order: seq<int>, latency: int -> nat): (r: seq<int>)
    requires ArrivesInOrder(order, latency)
    ensures ArrivesInOrder(r, latency)
    ensures multiset(r) == multiset(order) + multiset{p}
    ensures |r| == |order| + 1
    ensures r[0] == p || (|order| > 0 && r[0] == order[0])
    decreases |order|
  {
    if |order| == 0 then [p]
    else if latency(p) < latency(order[0]) then [p] + order
    else
      assert order == [order[0]] + order[1..];
      [order[0]] + InsertByLatency(p, order[1..], latency)
  }

  /** The order in which responses to `pages`, all requested at once, arrive. */
  function Arrival(pages: seq<int>, latency: int -> nat): (order: seq<int>)
    ensures ArrivesInOrder(order, latency)
    ensures multiset(order) == multiset(pages)
    decreases |pages|
  {
    if |pages| == 0 then []
    else
      assert pages == pages[..|pages| - 1] + [pages[|pages| - 1]];
      InsertByLatency(pages[|pages| - 1], Arrival(pages[..|pages| - 1], latency), latency)
  }

  /**
   * Pages 1..n requested at once, each appended when it arrives, joined by
   * `Promise.all`: whatever the arrival order, the same items as fetching
   * them one after another, as a multiset, and a rejection exactly when one
   * of the pages fails.
   */
  lemma FanOutGathersAllPages<T>(source: int -> Option<seq<T>>, n: nat, latency: int -> nat)
    ensures Gather(source, Arrival(Pages(n), latency)).Some? <==> Gather(source, Pages(n)).Some?
    ensures Gather(source, Pages(n)).Some? ==>
              multiset(Gather(source, Arrival(Pages(n), latency)).value) == multiset(Gather(source, Pages(n)).value)
  {
    GatherPermutation(source, Arrival(Pages(n), latency), Pages(n));
  }

  // ---------------------------------------------------------------------------
  // fetchPlayerByRank
  // ---------------------------------------------------------------------------

  /** `players[i]`: undefined outside the array. */
  datatype Lookup<T> = Failed | Undefined | Found(value: T)

  function At<T>(items: seq<T>, i: int): Lookup<T> {
    if 0 <= i < |items| then Found(items[i]) else Undefined
  }

  /** The page `Math.ceil(rank / 50)` that holds a global rank. */
  function PlayerPage(rank: int): int {
    CeilDiv(rank, PlayersPerPage)
  }

  /** `fetchPlayerByRank` as written: slot `rank % 50 - 1` of the rank's page. */
  function FetchPlayerByRankAsWritten<T>(rank: int, players: int -> Option<seq<T>>): (r: Lookup<T>)
    ensures r.Failed? <==> players(PlayerPage(rank)).None?
    ensures rank % PlayersPerPage == 0 ==> !r.Found?
  {
    match players(PlayerPage(rank))
    case None => Failed
    case Some(ps) => At(ps, Rem(rank, PlayersPerPage) - 1)
  }

  /** `fetchPlayerByRank` with the slot `(rank - 1) % 50`, which every rank of the page can reach. */
  function FetchPlayerByRank<T>(rank: int, players: int -> Option<seq<T>>): (r: Lookup<T>)
    ensures r.Failed? <==> players(PlayerPage(rank)).None?
    ensures rank >= 1 && players(PlayerPage(rank)).Some? && |players(PlayerPage(rank)).value| == PlayersPerPage
            ==> r.Found?
  {
    match players(PlayerPage(rank))
    case None => Failed
    case Some(ps) => At(ps, Rem(rank - 1, PlayersPerPage))
  }

  /**
   * Page and slot address a rank: for every rank from 1 the page is at least
   * 1 and the corrected slot lies in the page, at global position rank - 1;
   * the slot as written agrees with it except on multiples of 50, where it is
   * -1.
   */
  lemma PlayerAddress(rank: int)
    requires rank >= 1
    ensures PlayerPage(rank) >= 1
    ensures 0 <= Rem(rank - 1, PlayersPerPage) < PlayersPerPage
    ensures (PlayerPage(rank) - 1) * PlayersPerPage + Rem(rank - 1, PlayersPerPage) == rank - 1
    ensures rank % PlayersPerPage != 0 ==> Rem(rank, PlayersPerPage) - 1 == Rem(rank - 1, PlayersPerPage)
    ensures rank % PlayersPerPage == 0 ==> Rem(rank, PlayersPerPage) - 1 == -1
  {
    var q := PlayerPage(rank);
    assert (q - 1) * 50 < rank <= q * 50;
    assert rank - 1 == 50 * ((rank - 1) / 50) + (rank - 1) % 50;
  }

  /** Every page from 1 to n succeeds and holds a full 50 players. */
  ghost predicate FullPages<T>(players: int -> Option<seq<T>>, n: int) {
    forall p :: 1 <= p <= n ==> players(p).Some? && |players(p).value| == PlayersPerPage
  }

  lemma {:induction false} FullPagesLength<T>(players: int -> Option<seq<T>>, n: nat)
    requires FullPages(players, n)
    ensures Gather(players, Pages(n)).Some?
    ensures |Gather(players, Pages(n)).value| == n * PlayersPerPage
  {
    if n > 0 {
      assert Pages(n) == Pages(n - 1) + [n];
      FullPagesLength(players, n - 1);
      GatherAppend(players, Pages(n - 1), [n]);
    }
  }

  /**
   * With full pages, the corrected lookup finds the player at position
   * rank - 1 of the listing `fetchPlayersUnderRank(rank)` returns.
   */
  lemma PlayerByRankMatchesUnderRank<T>(rank: int, players: int -> Option<seq<T>>)
    requires rank >= 1 && FullPages(players, PlayerPage(rank))
    ensures var all := Gather(players, Pages(PlayerPage(rank)));
            && all.Some?
            && rank <= |all.value|
            && FetchPlayerByRank(rank, players) == Found(all.value[rank - 1])
  {
    PlayerAddress(rank);
    var n := PlayerPage(rank);
    var slot := Rem(rank - 1, PlayersPerPage);
    assert Pages(n) == Pages(n - 1) + [n];
    FullPagesLength(players, n - 1);
    FullPagesLength(players, n);
    GatherAppend(players, Pages(n - 1), [n]);
    var front := Gather(players, Pages(n - 1)).value;
    var page := players(n).value;
    assert Gather(players, Pages(n)).value == front + page;
    assert |front| == (n - 1) * PlayersPerPage;
    assert (front + page)[rank - 1] == page[slot];
  }

  /** The lookup as written misses the last player of every full page. */
  lemma AsWrittenMissesEveryFiftiethRank<T>(k: int, players: int -> Option<seq<T>>)
    requires k >= 1 && FullPages(players, k)
    ensures FetchPlayerByRankAsWritten(PlayersPerPage * k, players) == Undefined
    ensures FetchPlayerByRank(PlayersPerPage * k, players) == Found(players(k).value[PlayersPerPage - 1])
  {
    var rank := PlayersPerPage * k;
    PlayerAddress(rank);
    assert PlayerPage(rank) == k;
  }

  /** Off the multiples of 50 the lookup as written and the corrected one agree. */
  lemma AsWrittenAgreesOffMultiples<T>(rank: int, players: int -> Option<seq<T>>)
    requires rank >= 1 && rank % PlayersPerPage != 0
    ensures FetchPlayerByRankAsWritten(rank, players) == FetchPlayerByRank(rank, players)
  {
    PlayerAddress(rank);
  }

  // ---------------------------------------------------------------------------
  // fetchPlayersUnderRank: pages 1..ceil(rank / 50), one after another
  // ---------------------------------------------------------------------------

  method FetchPlayersUnderRank<T>(rank: int, players: int -> Option<seq<T>>)
    returns (r: Option<seq<T>>, calls: seq<Request>)
    ensures var n := PageCount(rank, PlayersPerPage);
            r == Gather(players, Pages(n))
    ensures var n := PageCount(rank, PlayersPerPage);
            r.Some? ==> calls == PlayersRequests(n)
    ensures var n := PageCount(rank, PlayersPerPage);
            r.None? ==> exists k :: 1 <= k <= n && players(k).None? && calls == PlayersRequests(k)
                                 && forall p :: 1 <= p < k ==> players(p).Some?
  {
    var n := PageCount(rank, PlayersPerPage);
    var items: seq<T> := [];
    calls := [];
    var i := 0;
    while i < n
      invariant 0 <= i <= n
      invariant calls == PlayersRequests(i)
      invariant Gather(players, Pages(i)) == Some(items)
    {
      calls := calls + [PlayersPage(i + 1)];
      assert Pages(i + 1) == Pages(i) + [i + 1];
      assert Pages(n)[i] == i + 1;
      var page := players(i + 1);
      if page.None? {
        forall p | 1 <= p < i + 1
          ensures players(p).Some?
        {
          assert Pages(i)[p - 1] == p;
        }
        return None, calls;
      }
      items := items + page.value;
      i := i + 1;
    }
    assert Pages(i) == Pages(n);
    r := Some(items);
  }

  // ---------------------------------------------------------------------------
  // fetchRankedBetweenStars and fetchAllScores: pages requested all at once
  // ---------------------------------------------------------------------------

  /** A page of the leaderboard listing with its metadata. */
  datatype LeaderboardPage<T> = LeaderboardPage(leaderboards: seq<T>, total: int, itemsPerPage: int)

  function LeaderboardItems<T>(boards: int -> Option<LeaderboardPage<T>>): int -> Option<seq<T>> {
    p => if boards(p).Some? then Some(boards(p).value.leaderboards) else None
  }

  /**
   * The number of turns of `for (i = 1; i <= Math.ceil(total / perPage); i++)`;
   * None when the bound is +Infinity (perPage 0, total positive). A bound of
   * NaN (0 / 0) or -Infinity stops the loop at once.
   */
  function LoopBound(total: int, perPage: int): (n: Option<nat>)
    ensures n.None? <==> perPage == 0 && total > 0
    ensures perPage > 0 ==> n == Some(PageCount(total, perPage))
  {
    if perPage > 0 then Some(PageCount(total, perPage))
    else if perPage < 0 then Some(PageCount(-total, -perPage))
    else if total > 0 then None
    else Some(0)
  }

  /**
   * `fetchRankedBetweenStars`: page 1 for its metadata, then pages
   * 1..ceil(total / itemsPerPage) all at once, page 1 again included.
   * None: the request loop never ends.
   */
  function FetchRankedBetweenStars<T>(boards: int -> Option<LeaderboardPage<T>>, latency: int -> nat)
    : (r: Option<Aggregate<T>>)
    ensures boards(1).None? ==> r == Some(Aggregate(None, [LeaderboardsPage(1)]))
    ensures boards(1).Some? ==>
              (r.None? <==> boards(1).value.itemsPerPage == 0 && boards(1).value.total > 0)
    ensures boards(1).Some? && r.Some? ==>
              var n := LoopBound(boards(1).value.total, boards(1).value.itemsPerPage).value;
              && r.value.calls == [LeaderboardsPage(1)] + LeaderboardsRequests(n)
              && |r.value.calls| == 1 + n
              && (r.value.items.Some? <==> Gather(LeaderboardItems(boards), Pages(n)).Some?)
              && (r.value.items.Some? ==>
                    multiset(r.value.items.value) == multiset(Gather(LeaderboardItems(boards), Pages(n)).value))
  {
    match boards(1)
    case None => Some(Aggregate(None, [LeaderboardsPage(1)]))
    case Some(first) =>
      match LoopBound(first.total, first.itemsPerPage)
      case None => None
      case Some(n) =>
        FanOutGathersAllPages(LeaderboardItems(boards), n, latency);
        Some(Aggregate(Gather(LeaderboardItems(boards), Arrival(Pages(n), latency)),
                       [LeaderboardsPage(1)] + LeaderboardsRequests(n)))
  }

  /**
   * `fetchAllScores`: the full player record (None: that call threw) for
   * `totalPlayCount`, then score pages 1..ceil(totalPlayCount / 100) all at once.
   */
  function FetchAllScores<T>(totalPlayCount: Option<int>, scores: int -> Option<seq<T>>, latency: int -> nat)
    : (r: Aggregate<T>)
    ensures totalPlayCount.None? ==> r == Aggregate(None, [FullPlayer])
    ensures totalPlayCount.Some? ==>
              var n := PageCount(totalPlayCount.value, ScoresPerPage);
              && r.calls == [FullPlayer] + ScoresRequests(n)
              && |r.calls| == 1 + n
              && (r.items.Some? <==> Gather(scores, Pages(n)).Some?)
              && (r.items.Some? ==> multiset(r.items.value) == multiset(Gather(scores, Pages(n)).value))
  {
    match totalPlayCount
    case None => Aggregate(None, [FullPlayer])
    case Some(total) =>
      var n := PageCount(total, ScoresPerPage);
      FanOutGathersAllPages(scores, n, latency);
      Aggregate(Gather(scores, Arrival(Pages(n), latency)), [FullPlayer] + ScoresRequests(n))
  }

  // ---------------------------------------------------------------------------
  // fetchRankingQueue: two single calls, one after the other
  // ---------------------------------------------------------------------------

  /** The top of the queue followed by the rest, with no reordering and no deduplication. */
  function FetchRankingQueue<T>(top: Option<seq<T>>, belowTop: Option<seq<T>>): (r: Aggregate<T>)
    ensures r.calls == if top.Some? then [RankingTop, RankingBelowTop] else [RankingTop]
    ensures r.items.Some? <==> top.Some? && belowTop.Some?
    ensures r.items.Some? ==>
              && |r.items.value| == |top.value| + |belowTop.value|
              && r.items.value[..|top.value|] == top.value
              && r.items.value[|top.value|..] == belowTop.value
              && multiset(r.items.value) == multiset(top.value) + multiset(belowTop.value)
  {
    match top
    case None => Aggregate(None, [RankingTop])
    case Some(t) =>
      match belowTop
      case None => Aggregate(None, [RankingTop, RankingBelowTop])
      case Some(b) => Aggregate(Some(t + b), [RankingTop, RankingBelowTop])
  }
}
