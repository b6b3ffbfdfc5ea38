# BSSniper rate-limited ScoreSaber client and playlist derivations, in Dafny

This project models the core of BSSniper, a tool that fetches a Beat Saber
player's scores from the ScoreSaber API and turns them into playlists. It
covers three parts:

- **`ScoreSaberAPI.fetchPage` rate limiting** (`ratelimit.dfy`). The two
  class-level fields `rateLimitRemaining` (starts at 400) and `rateLimitReset`
  (starts at the sentinel -1) form a `Limiter` record. The record also holds
  the refresh timers that are pending, each stored by its due instant in
  milliseconds. A call is split where it awaits the request:
  - `Begin` initialises the first window.
  - `Admit` runs `Begin` and the gate. It either waits or sends the request.
  - `Settle` handles what the request got back. It gives `RequestFailed`
    when the request rejects, `MissingResetHeader` when the response lacks
    the reset header, or `Completed`.
  - `FetchPage` is a whole call with nothing in between: `Blocked` with the
    wait the gate imposes, or `Settle`'s outcome.
  - `Advance` means the clock reaches an instant, and every refresh timer
    due by then fires.
  - `Run` folds a sequence of events from one caller: a `Call` reaching the
    gate, the `Reply` to the request in flight, and clock `Tick`s. A
    `Session` pairs the record with whether a request is in flight, so a
    refresh can fire between a request and its response.

  The invariant `ValidSession` holds along every single-caller run.
- **The paginated fetchers** (`scoresaber_api.dfy`). A page source is a
  function from the page number to the page's items, with `None` when that
  `fetchPage` call throws. The fetchers are:
  - `fetchPlayerByRank`: page/slot arithmetic.
  - `fetchPlayersUnderRank`: a sequential loop.
  - `fetchRankedBetweenStars` and `fetchAllScores`: fan-out. Pages are
    appended in arrival order, and a latency per page decides that order.
  - `fetchRankingQueue`: two calls, one after the other.

  Each fetcher except `fetchPlayerByRank` also returns the `fetchPage`
  calls it makes. `fetchPlayerByRank` returns only its lookup.
- **Playlist derivation** (`playlist.dfy`, `playlist_builders.dfy`). This
  covers:
  - the `Playlist` constructor and its description default;
  - the song lists of the #1s, snipe and ranking-queue playlists;
  - the count of #1 scores;
  - stripping non-ASCII characters from player names;
  - mapping the `svg` extension to `svg+xml`;
  - the image data URL, with its literal `$` before `;base64,`.

`js.dfy` holds the JavaScript semantics the source relies on:
- string truthiness;
- `Math.ceil` of a quotient;
- the truncating `%`;
- `parseInt` with no radix: leading white space, one sign, a `0x` prefix, the
  longest digit run, and `NaN` when there are no digits;
- `String(n)`.

Time is integer milliseconds since the Unix epoch, given as an argument.
`Math.floor(Date.now() / 1000)` is `now / 1000`, because Dafny's division by
a positive divisor rounds down.

## Model

| member | source | states |
|---|---|---|
| `Js.CeilDiv` | src/scoresaber/api/index.ts:49 | `Math.ceil(a / b)` is the least q with `a <= q * b`: `(q - 1) * b < a <= q * b` |
| `Js.ParseInt` | src/scoresaber/api/index.ts:40 | After leading white space, `parseInt` gives a number only when a decimal digit comes next, alone or after one sign. The number is negative only after a `-`. A decimal digit not followed by `x` or `X` always gives a non-negative number |
| `Js.Rem` | src/scoresaber/api/index.ts:53 | JavaScript `%` keeps the sign of the dividend, stays strictly inside (-b, b), and differs from the dividend by a multiple of b |
| `Js.RemUnique` | src/scoresaber/api/index.ts:53 | Sign, bound and congruence fix the remainder: any r meeting them is `Rem(a, b)`, so `Rem(-3, 50) == -3` |
| `Js.RemIsOdd` | src/scoresaber/api/index.ts:53 | JavaScript `%` truncates toward zero, so negating the dividend negates the remainder |
| `Js.ParseShowRoundTrip` | src/scoresaber/api/index.ts:40 | `parseInt` reads back any integer written in decimal: `parseInt(String(n)) == n` |
| `Js.ParseIgnoresLeadingWhiteSpace` | src/scoresaber/api/index.ts:40 | Leading white space never changes what `parseInt` reads from a header |
| `RateLimit.Begin` | src/scoresaber/api/index.ts:18-22 | While the reset is the sentinel -1, the first call sets it to the second 61 s after now (`now + 60000 < reset*1000 <= now + 61000`) and schedules a refresh at that instant. Otherwise it changes nothing |
| `RateLimit.NewReset` | src/scoresaber/api/index.ts:40-44 | The reset time after a response is never earlier than before. It is either unchanged or the parsed header, and at least the parsed header when there is one |
| `RateLimit.Admit` | src/scoresaber/api/index.ts:17-28 | The first half of a call initialises the limiter. It waits exactly when `remaining <= 10`, and the wait ends at `reset*1000 + 1000`. Otherwise the request is sent with the state unchanged |
| `RateLimit.Settle` | src/scoresaber/api/index.ts:31-45 | The second half leaves the state untouched exactly when the request rejected. Every answer lowers `remaining` by exactly 1, and the call throws on a falsy header |
| `RateLimit.Respond` | src/scoresaber/api/index.ts:31-45 | Every response decrements `remaining` by exactly 1, before the header check. The call throws exactly when the header is absent or empty, with the reset unchanged. Otherwise the reset becomes the larger of itself and the parsed header, and a refresh is scheduled at `reset*1000 + 500` exactly when it grew |
| `RateLimit.FetchPage` | src/scoresaber/api/index.ts:17-46 | The gate is closed exactly when `remaining <= 10`, and then no request is made: the wait ends at `reset*1000 + 1000`. A rejected request throws before the decrement, leaving the state as initialised. Every answered request lowers `remaining` by exactly 1. The reset time never decreases, and a first call leaves it at least `now/1000 + 61`. `MissingResetHeader` happens exactly when the gate is open, the request is answered, and the header is falsy |
| `RateLimit.Advance` | src/scoresaber/api/index.ts:21 | When the clock reaches an instant, the timers due by then fire. If any fired, `remaining` is exactly 400; if none did, it is unchanged. The reset is untouched, and exactly the later timers stay pending |
| `RateLimit.Apply` | src/scoresaber/api/index.ts:17-46 | One event of a single caller never moves the reset back. A call reaches the gate and leaves a request in flight exactly when more than 10 remain. A reply settles the request in flight. A tick only fires timers. A reply with nothing in flight, or a call while a request is in flight, cannot come from one caller and changes nothing |
| `RateLimit.RunAppend` | src/scoresaber/api/index.ts:17-46 | `Run` applies events in order: running two sequences one after the other is running their concatenation |
| `RateLimit.ApplyKeepsValid` | src/scoresaber/api/index.ts:14-44 | Every event keeps the invariant and never moves the reset time back. The invariant says: `remaining` is in [10, 400]; nothing is pending before the first call; once set, the reset is at least 61; no timer is due after `reset*1000 + 500`; while a request is in flight, `remaining > 10` and the reset is set |
| `RateLimit.CallThenReplyIsFetchPage` | src/scoresaber/api/index.ts:17-46 | A call whose reply comes before any tick ends where `FetchPage` does, and a request is in flight exactly when `FetchPage` does not block |
| `RateLimit.RefreshDuringFirstRequest` | src/scoresaber/api/index.ts:19-44 | The first window's refresh can fire while the first request is in flight, so a reply after 61 s finds the full quota. A rejected reply leaves 400. Any answer leaves 399. At most one refresh is pending afterwards: the one the reply scheduled for a newer reset. There is none when the request was rejected or the header is missing |
| `RateLimit.RunKeepsValid` | src/scoresaber/api/index.ts:14-44 | Every single-caller run of calls, replies and clock ticks keeps the invariant, including ticks while a request is in flight. The reset time never moves back |
| `RateLimit.RunResetNeverDecreases` | src/scoresaber/api/index.ts:41-44 | From any state, the reset time after any run is at least the one before it |
| `RateLimit.ReachableWithinQuota` | src/scoresaber/api/index.ts:14-32 | From the initial state (400, -1), `remaining` stays within [10, 400] whatever the calls, replies, headers and ticks of one caller |
| `RateLimit.ResetNeverUnset` | src/scoresaber/api/index.ts:15-22 | Once a call has set the reset time, no run brings it back to the sentinel: it stays at least 61 |
| `RateLimit.WaitReopensGate` | src/scoresaber/api/index.ts:25-28 | The wait ends strictly after every refresh scheduled so far. So if one is pending when the gate closes, the gate is open again when the wait ends |
| `ScoreSaberApi.PageCount` | src/scoresaber/api/index.ts:58 | The number of loop turns over `Math.ceil(total / perPage)` is 0 for no items. Otherwise it is the least n with `total <= n * perPage` |
| `ScoreSaberApi.Gather` | src/scoresaber/api/index.ts:56-66 | Concatenating a list of pages succeeds exactly when every page listed succeeds |
| `ScoreSaberApi.GatherAppend` | src/scoresaber/api/index.ts:63 | Gathering two runs of pages gives the first run's items followed by the second's |
| `ScoreSaberApi.GatherPermutation` | src/scoresaber/api/index.ts:105-113 | Gathering the same pages in any order gives the same success and the same items, as a multiset |
| `ScoreSaberApi.Arrival` | src/scoresaber/api/index.ts:106-108 | Pages requested together arrive in order of latency, and every page requested arrives exactly once |
| `ScoreSaberApi.FanOutGathersAllPages` | src/scoresaber/api/index.ts:105-113 | Whatever the arrival order, fan-out returns each page's items exactly once, as a multiset. It rejects exactly when some page fails |
| `ScoreSaberApi.FetchPlayerByRankAsWritten` | src/scoresaber/api/index.ts:48-54 | The lookup as written fails exactly when page `ceil(rank/50)` fails. It never finds a player whose rank is a multiple of 50 |
| `ScoreSaberApi.FetchPlayerByRank` | src/scoresaber/api/index.ts:48-54 | The corrected lookup fails exactly when the rank's page fails. It finds a player for every rank from 1 whose page is full |
| `ScoreSaberApi.PlayerAddress` | src/scoresaber/api/index.ts:49-53 | For rank >= 1, the page is at least 1 and slot `(rank-1) % 50` lies in [0, 50). Page and slot address global position rank - 1. The slot as written, `rank % 50 - 1`, equals that slot except on multiples of 50, where it is -1 |
| `ScoreSaberApi.PlayerByRankMatchesUnderRank` | src/scoresaber/api/index.ts:48-66 | With full pages, the corrected lookup returns the player at position rank - 1 of the listing that `fetchPlayersUnderRank(rank)` gathers |
| `ScoreSaberApi.AsWrittenMissesEveryFiftiethRank` | src/scoresaber/api/index.ts:53 | For rank 50k with full pages, the lookup as written reads `players[-1]`, which is undefined. The corrected lookup finds the last player of page k |
| `ScoreSaberApi.AsWrittenAgreesOffMultiples` | src/scoresaber/api/index.ts:53 | On every rank from 1 that is not a multiple of 50, the lookup as written and the corrected one agree |
| `ScoreSaberApi.FetchPlayersUnderRank` | src/scoresaber/api/index.ts:56-66 | Pages 1..ceil(rank/50) are fetched one at a time and concatenated in page order. On success the calls are exactly those pages, ascending. On failure the calls stop at the first failing page k: pages 1..k, with all before k succeeding |
| `ScoreSaberApi.LoopBound` | src/scoresaber/api/index.ts:102-105 | The loop over pages never ends exactly when `itemsPerPage` is 0 and `total` is positive. With a positive `itemsPerPage` it runs `PageCount` turns |
| `ScoreSaberApi.FetchRankedBetweenStars` | src/scoresaber/api/index.ts:100-116 | The calls are page 1, then pages 1..n again: 1 + n calls. The result rejects exactly when a page of 1..n fails. Otherwise it holds the leaderboards of pages 1..n, each exactly once, as a multiset. A failing first page stops after one call |
| `ScoreSaberApi.FetchAllScores` | src/scoresaber/api/index.ts:125-140 | The calls are the full player record, then score pages 1..ceil(totalPlayCount/100): 1 + n calls. The result rejects exactly when a page fails. Otherwise it holds every page's scores exactly once, as a multiset |
| `ScoreSaberApi.FetchRankingQueue` | src/scoresaber/api/index.ts:119-123 | The top of the queue is followed by the rest, with no reordering and no deduplication: the multiset is the sum of both. The second call happens only after the first succeeds |
| `Playlists.NewPlaylist` | src/playlists/Playlist.ts:10-16 | Title, author, image and songs are stored as given. A non-empty description is stored as given. An omitted or empty description becomes "", and "" is stored only then |
| `Playlists.DescriptionIsGivenOrEmpty` | src/playlists/Playlist.ts:13 | The stored description is the argument when one is given, and "" otherwise |
| `PlaylistBuilders.Number1Songs` | src/main.ts:15-20 | The #1s playlist has at most as many songs as there are scores |
| `PlaylistBuilders.Number1SongsAppend` | src/main.ts:16-20 | The #1 songs of consecutive runs of scores follow each other, so the playlist keeps input order |
| `PlaylistBuilders.Number1SongsExact` | src/main.ts:16-19 | A song is on the #1s playlist exactly when some score with `rank === 1` gives it |
| `PlaylistBuilders.Number1SongsPermutation` | src/main.ts:14-20 | Scores fetched in any arrival order give the same #1 songs, as a multiset |
| `PlaylistBuilders.CollectNumber1Songs` | src/main.ts:15-20 | The loop builds exactly the #1 songs of the scores, in order |
| `PlaylistBuilders.CountNumber1s` | src/main.ts:71-76 | The count of #1s equals the length of the #1s song list and is at most `scores.length` |
| `PlaylistBuilders.Snipes` | src/main.ts:46-50 | For one player-1 score: every song emitted is that score's song. There is exactly one song per same-id player-2 score that is strictly higher, so repeated matches give duplicates. There are none exactly when no player-2 score beats it, so equal scores give nothing |
| `PlaylistBuilders.SnipeSongs` | src/main.ts:44-51 | The snipe join takes each player-1 score's `Snipes`, in player-1 order. It is non-empty only when both players have scores. Its exact contents and count are in the lemma rows below |
| `PlaylistBuilders.SnipeSongsCount` | src/main.ts:44-51 | The snipe list has exactly as many songs as there are index pairs (i, j) where player 2's score j beats player 1's score i, duplicates included |
| `PlaylistBuilders.SnipeSongsBound` | src/main.ts:44-51 | The snipe list never has more songs than there are pairs of scores |
| `PlaylistBuilders.SnipeSongsEmpty` | src/main.ts:44-51 | The snipe list is empty exactly when no player-1 score is beaten by a same-id player-2 score |
| `PlaylistBuilders.SnipeSongsAppend` | src/main.ts:45-51 | The snipe playlist follows player 1's order: consecutive runs of player-1 scores give consecutive songs |
| `PlaylistBuilders.SnipeSongsSound` | src/main.ts:47-48 | Every snipe song comes from a player-1 score that some same-id player-2 score beats strictly |
| `PlaylistBuilders.SnipeSongsComplete` | src/main.ts:45-51 | Every player-1 score that a same-id player-2 score beats strictly puts its song on the playlist |
| `PlaylistBuilders.CollectSnipes` | src/main.ts:45-50 | The inner loop over player 2's scores builds exactly the snipes of one player-1 score |
| `PlaylistBuilders.CollectSnipeSongs` | src/main.ts:44-51 | The nested loops build exactly the snipe song list, duplicates included |
| `PlaylistBuilders.RequestSongs` | src/main.ts:86-89 | One song per rank request, in the same order, with the request's name and id |
| `PlaylistBuilders.RequestSongsAppend` | src/main.ts:86-89 | The songs of consecutive runs of requests follow each other |
| `PlaylistBuilders.RankingQueueSongs` | src/main.ts:86-89 | The loop builds exactly the request songs |
| `PlaylistBuilders.RankingQueuePlaylistFollowsFetch` | src/main.ts:85-89 | The ranking-queue playlist lists the top requests' songs, then the rest's |
| `PlaylistBuilders.StripNonAscii` | src/main.ts:29 | The stripped name is all ASCII and never longer than the original. It holds a character exactly when the name holds it and it is at most 0x7F |
| `PlaylistBuilders.StripKeepsAscii` | src/main.ts:29 | An all-ASCII name is left unchanged |
| `PlaylistBuilders.StripIdempotent` | src/main.ts:29 | Stripping twice is stripping once |
| `PlaylistBuilders.StripAppend` | src/main.ts:29 | Stripping works piece by piece, so kept characters stay in their order |
| `PlaylistBuilders.ImageSubtype` | src/main.ts:22-23 | Every extension other than `svg` stands for itself. The subtype is `svg+xml` exactly for `svg` and `svg+xml` |
| `PlaylistBuilders.ImageSubtypeIdempotent` | src/main.ts:22-23 | Mapping an extension that is already mapped changes nothing, so `svg+xml` is never mapped twice |
| `PlaylistBuilders.DataUrl` | src/main.ts:26 | The image string starts with `data:image/`, then the mapped subtype, and ends with the payload. Its length is the sum of the four parts |
| `PlaylistBuilders.DataUrlRoundTrip` | src/main.ts:26 | The image string is `data:image/` + subtype + `$;base64,` + payload. Reading it back gives the mapped subtype and the payload, for any extension without a `$` |
| `PlaylistBuilders.Number1sPlaylist` | src/main.ts:22-34 | The #1s playlist has the #1 songs and the title `<ASCII name>'s #1s`, which is all ASCII. The author is the package name and the description is empty. The file is the title plus `.json`. The image reads back as png with the given payload |
| `PlaylistBuilders.SnipePlaylist` | src/main.ts:53-65 | The snipe playlist has the snipe songs and the title `Snipe <ASCII name>`, which is all ASCII. The author is the package name and the description is empty. The file is the title plus `.json`. The image reads back as png with the given payload |
| `PlaylistBuilders.RankingQueuePlaylist` | src/main.ts:91-101 | The ranking-queue playlist has the request songs and the title `SS Ranking Queue`, written to `SS Ranking Queue.json`. The author and description are empty. The image reads back as png with the given payload |

## Findings

| source | as written | input that shows it | evidently intended | confidence | as-written member | corrected member |
|---|---|---|---|---|---|---|
| src/scoresaber/api/index.ts:53 | `playerCollection.players[rank % 50 - 1]` | rank 50 (or any multiple of 50) with a full page 1: the index is -1, so the result is `undefined` | `players[(rank - 1) % 50]`: the 50th player of the page | high (not executed) | `ScoreSaberApi.AsWrittenMissesEveryFiftiethRank` | `ScoreSaberApi.PlayerByRankMatchesUnderRank` |

`ScoreSaberApi.FetchPlayerByRankAsWritten` keeps the source's slot.
`ScoreSaberApi.FetchPlayerByRank` uses the corrected one.
`ScoreSaberApi.AsWrittenAgreesOffMultiples` proves the two agree on every
other rank from 1.

## Left out

- The HTTP call and the `axios-retry` configuration (src/scoresaber/api/index.ts:8-10, 31) are foreign library behaviour. A request reduces to its outcome: `Rejected`, or `Answered` with the `x-ratelimit-reset` header. In the fetchers, a call that throws is a `None` page.
- Wall-clock scheduling is left out. Each `setTimeout` refresh is a pending due instant, and `Tick` events fire it.
- `RateLimit.Respond`, `RateLimit.Begin`, `RateLimit.Admit`, `RateLimit.FetchPage`: Node clamps a `setTimeout` delay to 1 ms when it is below 1 or above 2147483647 ms (about 24.8 days). The model keeps the due instant the source computes (src/scoresaber/api/index.ts:21, 27, 43). So a reset header more than about 24.8 days ahead makes the refresh at line 43 fire at once in Node, restoring the quota early. The model instead schedules it at `reset*1000 + 500`. A wait longer than that limit likewise ends after 1 ms in Node.
- Concurrent interleavings of `fetchPage` (the `Promise.all` fan-outs) are left out. The limiter is modelled for one caller at a time, whose requests can overlap clock ticks but not each other. Across an `await`, concurrent callers can drive `remaining` below 10, and no invariant here covers that.
- `RateLimit.WaitReopensGate`: the gate reopens after a wait only if a refresh is pending. If the server keeps sending a reset time that is not newer, no refresh is scheduled and the wait loop spins. This depends on server behaviour that the model does not fix.
- `ScoreSaberApi.FetchRankedBetweenStars`: page 1 is fetched twice, and the model assumes both fetches answer the same, because a page source is a function. The arrival order of the fan-out fetchers is only given as a multiset.
- `ScoreSaberApi.FetchAllScores`: the full player record is reduced to `totalPlayCount`.
- The single-request wrappers `fetchBasicPlayer`, `fetchFullPlayer`, `fetchScoresPage`, `fetchLeaderboards`, `fetchLeaderboardScores` and `fetchLeaderboardInfo` (src/scoresaber/api/index.ts:68-97) are each one `fetchPage` call with an opaque path. Their results are the page sources' values.
- Request paths, the `region` query parameter and the base URL are not modelled. A page source stands for one resource path.
- JavaScript numbers are doubles, exact on integers up to 2^53. The model uses unbounded integers, so rounding past 2^53 is left out, and so is parseInt's rounding of very long digit runs. Non-integer metadata values are not modelled. The timer-delay clamp is the separate item above.
- `Js.ParseInt` covers ASCII digits and the white space set of ECMAScript. The `-0` result of `parseInt("-0")` is the integer 0.
- `PlaylistBuilders.StripNonAscii` works on Unicode scalar values. JavaScript strips UTF-16 code units above 0x7F. A character outside the Basic Multilingual Plane is two such units, and both are removed, so the result is the same. Lone surrogates cannot occur in a Dafny string.
- Reading the image file, base64 encoding, `path.extname`, `JSON.stringify` and writing the file are I/O or library calls. The image's base64 text is an input. The extension of the fixed image paths is the constant `png`.
- The percentage `totalNum1s / scores.length * 100` (src/main.ts:78) is floating point and only printed. The model stops at the count.
- `fetchBasicPlayerInfo` and `new Song(...)` in src/main.ts do not match the API class and the `Song` interface shown. A song is modelled as a `(name, id)` pair, and the player name is an input.
- Type-only interface files and src/test.ts have no behaviour of their own.
