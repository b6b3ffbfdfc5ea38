/**
 * The list and string work inside the playlist builders of src/main.ts:
 * which songs go into each playlist, the ASCII-only player name, the image
 * subtype, and the data URL of the image. The scores, rank requests, player
 * names and base64 image text are inputs; reading and writing files and
 * fetching are not modelled here.
 */
module PlaylistBuilders {
  import opened Js
  import opened Playlists
  import ScoreSaberApi
  import Seqs

  /** The fields of a fetched player score that the builders read. */
  datatype Score = Score(name: string, id: string, rank: int, score: int)

  /** The fields of a ranking-queue entry that the builders read. */
  datatype RankRequest = RankRequest(name: string, id: string)

  function SongOf(s: Score): Song {
    Song(s.name, s.id)
  }

  // ---------------------------------------------------------------------------
  // createPlaylistOfNumber1s and percentageOfNMumber1s
  // ---------------------------------------------------------------------------

  predicate IsNumber1(s: Score) {
    s.rank == 1
  }

  /** One song per score ranked #1, in the order of the scores. */
  function Number1Songs(scores: seq<Score>): (songs: seq<Song>)
    ensures |songs| <= |scores|
    decreases |scores|
  {
    if |scores| == 0 then []
    else
      var last := scores[|scores| - 1];
      Number1Songs(scores[..|scores| - 1]) + (if IsNumber1(last) then [SongOf(last)] else [])
  }

  /** The #1 songs of consecutive runs of scores follow each other. */
  lemma {:induction false} Number1SongsAppend(a: seq<Score>, b: seq<Score>)
    ensures Number1Songs(a + b) == Number1Songs(a) + Number1Songs(b)
    decreases |b|
  {
    if |b| == 0 {
      assert a + b == a;
    } else {
      var b' := b[..|b| - 1];
      assert (a + b)[..|a + b| - 1] == a + b';
      assert (a + b)[|a + b| - 1] == b[|b| - 1];
      Number1SongsAppend(a, b');
    }
  }

  /** A song is on the #1s playlist exactly when some #1 score gives it. */
  lemma {:induction false} Number1SongsExact(scores: seq<Score>, song: Song)
    ensures song in Number1Songs(scores) <==>
            exists i :: 0 <= i < |scores| && IsNumber1(scores[i]) && SongOf(scores[i]) == song
    decreases |scores|
  {
    if |scores| > 0 {
      var front := scores[..|scores| - 1];
      Number1SongsExact(front, song);
      if exists i :: 0 <= i < |front| && IsNumber1(front[i]) && SongOf(front[i]) == song {
        var i :| 0 <= i < |front| && IsNumber1(front[i]) && SongOf(front[i]) == song;
        assert scores[i] == front[i];
      }
      if exists i :: 0 <= i < |scores| && IsNumber1(scores[i]) && SongOf(scores[i]) == song {
        var i :| 0 <= i < |scores| && IsNumber1(scores[i]) && SongOf(scores[i]) == song;
        if i < |front| {
          assert front[i] == scores[i];
        }
      }
    }
  }

  /** Taking one score out of the middle takes out exactly its own #1 song. */
  lemma Number1SongsWithout(b1: seq<Score>, x: Score, b2: seq<Score>)
    ensures multiset(Number1Songs(b1 + [x] + b2))
            == multiset(Number1Songs(b1 + b2)) + multiset(Number1Songs([x]))
  {
    Number1SongsAppend(b1, [x]);
    Number1SongsAppend(b1 + [x], b2);
    Number1SongsAppend(b1, b2);
    assert b1 + [x] + [] == b1 + [x] && b1 + [] == b1;
  }

  /**
   * The #1s playlist of scores fetched in any arrival order holds the same
   * songs, as a multiset: only their order depends on the arrival order.
   */
  lemma {:induction false} Number1SongsPermutation(a: seq<Score>, b: seq<Score>)
    requires multiset(a) == multiset(b)
    ensures multiset(Number1Songs(a)) == multiset(Number1Songs(b))
    decreases |a|
  {
    if |a| > 0 {
      var x := a[|a| - 1];
      var a' := a[..|a| - 1];
      var k := Seqs.RemoveMatching(a, b);
      Number1SongsPermutation(a', b[..k] + b[k + 1..]);
      assert a == a' + [x];
      Number1SongsWithout(a', x, []);
      Number1SongsWithout(b[..k], x, b[k + 1..]);
    } else {
      assert b == [];
    }
  }

  /** The loop of createPlaylistOfNumber1s. */
  method CollectNumber1Songs(scores: seq<Score>) returns (songs: seq<Song>)
    ensures songs == Number1Songs(scores)
  {
    songs := [];
    var i := 0;
    while i < |scores|
      invariant 0 <= i <= |scores|
      invariant songs == Number1Songs(scores[..i])
    {
      assert scores[..i + 1][..i] == scores[..i];
      if scores[i].rank == 1 {
        songs := songs + [Song(scores[i].name, scores[i].id)];
      }
      i := i + 1;
    }
    assert scores[..i] == scores;
  }

  /** The counting loop of percentageOfNMumber1s. */
  method CountNumber1s(scores: seq<Score>) returns (total: nat)
    ensures total == |Number1Songs(scores)|
    ensures total <= |scores|
  {
    total := 0;
    var i := 0;
    while i < |scores|
      invariant 0 <= i <= |scores|
      invariant total == |Number1Songs(scores[..i])|
    {
      assert scores[..i + 1][..i] == scores[..i];
      if scores[i].rank == 1 {
        total := total + 1;
      }
      i := i + 1;
    }
    assert scores[..i] == scores;
  }

  // ---------------------------------------------------------------------------
  // createSnipePlaylist
  // ---------------------------------------------------------------------------

  /** Player 2 has a higher score than player 1 on the same map. */
  predicate Beats(mine: Score, theirs: Score) {
    mine.id == theirs.id && mine.score < theirs.score
  }

  /** The positions of the scores of `others` that beat `mine`. */
  ghost function Beaters(mine: Score, others: seq<Score>): set<int> {
    set j | 0 <= j < |others| && Beats(mine, others[j])
  }

  /** The beaters of a sequence are those of its front, plus its last position if that one beats. */
  lemma BeatersOfFront(mine: Score, others: seq<Score>)
    requires |others| > 0
    ensures var n := |others| - 1;
            && n !in Beaters(mine, others[..n])
            && Beaters(mine, others)
               == Beaters(mine, others[..n]) + (if Beats(mine, others[n]) then {n} else {})
  {
    var n := |others| - 1;
    var front := others[..n];
    forall j | 0 <= j < n
      ensures front[j] == others[j]
    {
    }
  }

  /** One copy of `mine`'s song per score of `others` that beats it. */
  function Snipes(mine: Score, others: seq<Score>): (songs: seq<Song>)
    ensures |songs| <= |others|
    ensures |songs| == |Beaters(mine, others)|
    ensures forall k :: 0 <= k < |songs| ==> songs[k] == SongOf(mine)
    ensures songs == [] <==> forall j :: 0 <= j < |others| ==> !Beats(mine, others[j])
    decreases |others|
  {
    if |others| == 0 then
      assert Beaters(mine, others) == {};
      []
    else
      var last := others[|others| - 1];
      BeatersOfFront(mine, others);
      Snipes(mine, others[..|others| - 1]) + (if Beats(mine, last) then [SongOf(mine)] else [])
  }

  /** The index pairs (i, j) where player 2's score j beats player 1's score i. */
  ghost function BeatenPairs(player1: seq<Score>, player2: seq<Score>): set<(int, int)> {
    set i, j | 0 <= i < |player1| && 0 <= j < |player2| && Beats(player1[i], player2[j]) :: (i, j)
  }

  /** The pairs with first component `i` and second component in `js`. */
  ghost function Row(i: int, js: set<int>): set<(int, int)> {
    set j | j in js :: (i, j)
  }

  lemma {:induction false} RowSize(i: int, js: set<int>)
    ensures |Row(i, js)| == |js|
    decreases |js|
  {
    if js != {} {
      var j := Seqs.Pick(js);
      RowSize(i, js - {j});
      assert Row(i, js) == Row(i, js - {j}) + {(i, j)};
    }
  }

  /** The beaten pairs of a sequence are those of its front plus the last score's row, which is disjoint from them. */
  lemma BeatenPairsOfFront(player1: seq<Score>, player2: seq<Score>)
    requires |player1| > 0
    ensures var n := |player1| - 1;
            |BeatenPairs(player1, player2)| == |BeatenPairs(player1[..n], player2)| + |Beaters(player1[n], player2)|
  {
    var n := |player1| - 1;
    var front := player1[..n];
    var before, row := BeatenPairs(front, player2), Row(n, Beaters(player1[n], player2));
    forall i | 0 <= i < n
      ensures front[i] == player1[i]
    {
    }
    assert BeatenPairs(player1, player2) == before + row;
    assert before * row == {};
    RowSize(n, Beaters(player1[n], player2));
  }

  /** For each score of player 1 in order, its snipes. */
  function SnipeSongs(player1: seq<Score>, player2: seq<Score>): (songs: seq<Song>)
    ensures |songs| > 0 ==> |player1| > 0 && |player2| > 0
    decreases |player1|
  {
    if |player1| == 0 then []
    else SnipeSongs(player1[..|player1| - 1], player2) + Snipes(player1[|player1| - 1], player2)
  }

  /** One snipe song per beaten pair, duplicates kept. */
  lemma {:induction false} SnipeSongsCount(player1: seq<Score>, player2: seq<Score>)
    ensures |SnipeSongs(player1, player2)| == |BeatenPairs(player1, player2)|
    decreases |player1|
  {
    if |player1| == 0 {
      assert BeatenPairs(player1, player2) == {};
    } else {
      SnipeSongsCount(player1[..|player1| - 1], player2);
      BeatenPairsOfFront(player1, player2);
    }
  }

  /** At most one snipe song per pair of a player-1 score and a player-2 score. */
  lemma {:induction false} SnipeSongsBound(player1: seq<Score>, player2: seq<Score>)
    ensures |SnipeSongs(player1, player2)| <= |player1| * |player2|
    decreases |player1|
  {
    if |player1| > 0 {
      var n, m := |player1| - 1, |player2|;
      SnipeSongsBound(player1[..n], player2);
      SnipeSongsLast(player1, player2);
      var front, last := SnipeSongs(player1[..n], player2), Snipes(player1[n], player2);
      assert |front| <= n * m && |last| <= m;
      assert |SnipeSongs(player1, player2)| == |front| + |last|;
      assert n * m + m == (n + 1) * m;
    }
  }

  /** The last score of player 1 adds its snipes after those of the others. */
  lemma SnipeSongsLast(player1: seq<Score>, player2: seq<Score>)
    requires |player1| > 0
    ensures SnipeSongs(player1, player2)
            == SnipeSongs(player1[..|player1| - 1], player2) + Snipes(player1[|player1| - 1], player2)
  {
  }

  /** The snipe playlist follows player 1's order: consecutive runs of scores give consecutive songs. */
  lemma {:induction false} SnipeSongsAppend(a: seq<Score>, b: seq<Score>, player2: seq<Score>)
    ensures SnipeSongs(a + b, player2) == SnipeSongs(a, player2) + SnipeSongs(b, player2)
    decreases |b|
  {
    if |b| == 0 {
      assert a + b == a;
    } else {
      var b', x := b[..|b| - 1], b[|b| - 1];
      var front, last := SnipeSongs(a, player2) + SnipeSongs(b', player2), Snipes(x, player2);
      assert (a + b)[..|a + b| - 1] == a + b';
      assert (a + b)[|a + b| - 1] == x;
      SnipeSongsLast(a + b, player2);
      SnipeSongsAppend(a, b', player2);
      assert SnipeSongs(a + b, player2) == front + last;
      SnipeSongsLast(b, player2);
      assert front + last == SnipeSongs(a, player2) + (SnipeSongs(b', player2) + last);
    }
  }

  /** Every snipe song is the song of a player-1 score that some player-2 score beats. */
  lemma {:induction false} SnipeSongsSound(player1: seq<Score>, player2: seq<Score>, song: Song)
    requires song in SnipeSongs(player1, player2)
    ensures exists i, j :: 0 <= i < |player1| && 0 <= j < |player2|
                           && Beats(player1[i], player2[j]) && song == SongOf(player1[i])
    decreases |player1|
  {
    var n := |player1|;
    var front := player1[..n - 1];
    var mine := player1[n - 1];
    if song in SnipeSongs(front, player2) {
      SnipeSongsSound(front, player2, song);
      var i, j :| 0 <= i < |front| && 0 <= j < |player2|
                  && Beats(front[i], player2[j]) && song == SongOf(front[i]);
      assert player1[i] == front[i];
    } else {
      var s := Snipes(mine, player2);
      assert song in s;
      var j :| 0 <= j < |player2| && Beats(mine, player2[j]);
      assert Beats(player1[n - 1], player2[j]);
    }
  }

  /** A score that some score of the other player beats is sniped. */
  lemma SnipesOfBeaten(mine: Score, others: seq<Score>, j: int)
    requires 0 <= j < |others| && Beats(mine, others[j])
    ensures SongOf(mine) in Snipes(mine, others)
  {
    var songs := Snipes(mine, others);
    assert songs != [];
    assert songs[0] == SongOf(mine);
  }

  /** Every player-1 score that a player-2 score beats gives a snipe song. */
  lemma {:induction false} SnipeSongsComplete(player1: seq<Score>, player2: seq<Score>, i: int, j: int)
    requires 0 <= i < |player1| && 0 <= j < |player2|
    requires Beats(player1[i], player2[j])
    ensures SongOf(player1[i]) in SnipeSongs(player1, player2)
  {
    var before, at, after := player1[..i], [player1[i]], player1[i + 1..];
    assert player1 == before + at + after;
    SnipeSongsAppend(before + at, after, player2);
    SnipeSongsAppend(before, at, player2);
    assert at[..0] == [];
    assert SnipeSongs(at, player2) == Snipes(player1[i], player2);
    SnipesOfBeaten(player1[i], player2, j);
  }

  /** One more score of player 2 adds at most its own snipe. */
  lemma SnipesStep(mine: Score, others: seq<Score>, j: int)
    requires 0 <= j < |others|
    ensures Snipes(mine, others[..j + 1])
            == Snipes(mine, others[..j]) + (if Beats(mine, others[j]) then [SongOf(mine)] else [])
  {
    assert others[..j + 1][..j] == others[..j];
  }

  /** One more score of player 1 adds its snipes. */
  lemma SnipeSongsStep(player1: seq<Score>, player2: seq<Score>, i: int)
    requires 0 <= i < |player1|
    ensures SnipeSongs(player1[..i + 1], player2) == SnipeSongs(player1[..i], player2) + Snipes(player1[i], player2)
  {
    assert player1[..i + 1][..i] == player1[..i];
  }

  /** The snipe playlist is empty exactly when no score of player 1 is beaten. */
  lemma SnipeSongsEmpty(player1: seq<Score>, player2: seq<Score>)
    ensures SnipeSongs(player1, player2) == [] <==>
            forall i, j :: 0 <= i < |player1| && 0 <= j < |player2| ==> !Beats(player1[i], player2[j])
  {
    var songs := SnipeSongs(player1, player2);
    if songs != [] {
      SnipeSongsSound(player1, player2, songs[0]);
    }
    if exists i, j :: 0 <= i < |player1| && 0 <= j < |player2| && Beats(player1[i], player2[j]) {
      var i, j :| 0 <= i < |player1| && 0 <= j < |player2| && Beats(player1[i], player2[j]);
      SnipeSongsComplete(player1, player2, i, j);
    }
  }

  /** The inner loop of createSnipePlaylist: the snipes of one score of player 1. */
  method CollectSnipes(mine: Score, others: seq<Score>) returns (songs: seq<Song>)
    ensures songs == Snipes(mine, others)
  {
    songs := [];
    var j := 0;
    while j < |others|
      invariant 0 <= j <= |others|
      invariant songs == Snipes(mine, others[..j])
    {
      SnipesStep(mine, others, j);
      if mine.id == others[j].id && mine.score < others[j].score {
        songs := songs + [Song(mine.name, mine.id)];
      }
      j := j + 1;
    }
    assert others[..j] == others;
  }

  /** The nested loops of createSnipePlaylist. */
  method CollectSnipeSongs(player1: seq<Score>, player2: seq<Score>) returns (songs: seq<Song>)
    ensures songs == SnipeSongs(player1, player2)
  {
    songs := [];
    var i := 0;
    while i < |player1|
      invariant 0 <= i <= |player1|
      invariant songs == SnipeSongs(player1[..i], player2)
    {
      var snipes := CollectSnipes(player1[i], player2);
      SnipeSongsStep(player1, player2, i);
      songs := songs + snipes;
      i := i + 1;
    }
    assert player1[..i] == player1;
  }

  // ---------------------------------------------------------------------------
  // createRankingQueuePlaylist
  // ---------------------------------------------------------------------------

  /** One song per rank request, in order, named and identified as the request. */
  function RequestSongs(requests: seq<RankRequest>): (songs: seq<Song>)
    ensures |songs| == |requests|
    ensures forall k :: 0 <= k < |requests| ==> songs[k] == Song(requests[k].name, requests[k].id)
    decreases |requests|
  {
    if |requests| == 0 then []
    else
      var last := requests[|requests| - 1];
      RequestSongs(requests[..|requests| - 1]) + [Song(last.name, last.id)]
  }

  /** The songs of consecutive runs of requests follow each other. */
  lemma {:induction false} RequestSongsAppend(a: seq<RankRequest>, b: seq<RankRequest>)
    ensures RequestSongs(a + b) == RequestSongs(a) + RequestSongs(b)
    decreases |b|
  {
    if |b| == 0 {
      assert a + b == a;
    } else {
      var b' := b[..|b| - 1];
      assert (a + b)[..|a + b| - 1] == a + b';
      assert (a + b)[|a + b| - 1] == b[|b| - 1];
      RequestSongsAppend(a, b');
    }
  }

  /** The loop of createRankingQueuePlaylist. */
  method RankingQueueSongs(requests: seq<RankRequest>) returns (songs: seq<Song>)
    ensures songs == RequestSongs(requests)
  {
    songs := [];
    var i := 0;
    while i < |requests|
      invariant 0 <= i <= |requests|
      invariant songs == RequestSongs(requests[..i])
    {
      assert requests[..i + 1][..i] == requests[..i];
      songs := songs + [Song(requests[i].name, requests[i].id)];
      i := i + 1;
    }
    assert requests[..i] == requests;
  }

  // ---------------------------------------------------------------------------
  // Player names
  // ---------------------------------------------------------------------------

  predicate IsAscii(c: char) {
    c as int <= 0x7F
  }

  predicate AllAscii(s: string) {
    forall i :: 0 <= i < |s| ==> IsAscii(s[i])
  }

  /** `name.replace(/[^\x00-\x7F]/g, '')`: drops every character above 0x7F. */
  function StripNonAscii(s: string): (r: string)
    ensures |r| <= |s|
    ensures AllAscii(r)
    ensures forall c :: c in r <==> c in s && IsAscii(c)
    decreases |s|
  {
    if |s| == 0 then ""
    else
      var last := s[|s| - 1];
      assert s == s[..|s| - 1] + [last];
      StripNonAscii(s[..|s| - 1]) + (if IsAscii(last) then [last] else "")
  }

  lemma AsciiConcat(a: string, b: string)
    requires AllAscii(a) && AllAscii(b)
    ensures AllAscii(a + b)
  {
  }

  /** Stripping keeps an ASCII name as it is. */
  lemma {:induction false} StripKeepsAscii(s: string)
    requires AllAscii(s)
    ensures StripNonAscii(s) == s
    decreases |s|
  {
    if |s| > 0 {
      StripKeepsAscii(s[..|s| - 1]);
      assert s == s[..|s| - 1] + [s[|s| - 1]];
    }
  }

  /** Stripping twice is stripping once. */
  lemma StripIdempotent(s: string)
    ensures StripNonAscii(StripNonAscii(s)) == StripNonAscii(s)
  {
    StripKeepsAscii(StripNonAscii(s));
  }

  /** Stripping works piece by piece, so the kept characters stay in order. */
  lemma {:induction false} StripAppend(a: string, b: string)
    ensures StripNonAscii(a + b) == StripNonAscii(a) + StripNonAscii(b)
    decreases |b|
  {
    if |b| == 0 {
      assert a + b == a;
    } else {
      var b' := b[..|b| - 1];
      assert (a + b)[..|a + b| - 1] == a + b';
      assert (a + b)[|a + b| - 1] == b[|b| - 1];
      StripAppend(a, b');
    }
  }

  // ---------------------------------------------------------------------------
  // The playlist image
  // ---------------------------------------------------------------------------

  /** The extension of both fixed image paths, ./resources/sniped.png and ./resources/SSRankQueue.png. */
  const ImageExtension := "png"

  /** The media subtype for an image extension: `svg` is `svg+xml`, every other extension stands for itself. */
  function ImageSubtype(ext: string): (t: string)
    ensures ext != "svg" ==> t == ext
    ensures t == "svg+xml" <==> ext == "svg" || ext == "svg+xml"
  {
    if ext == "svg" then "svg+xml" else ext
  }

  /** Mapping an extension twice is mapping it once. */
  lemma ImageSubtypeIdempotent(ext: string)
    ensures ImageSubtype(ImageSubtype(ext)) == ImageSubtype(ext)
  {
  }

  const DataUrlPrefix := "data:image/"
  /** The separator the builders write, with its stray `$` before `;base64,`. */
  const Base64Marker := "$;base64,"

  /** The image string: the prefix, the mapped subtype, the marker, and the payload last. */
  function DataUrl(ext: string, payload: string): (url: string)
    ensures |url| == |DataUrlPrefix| + |ImageSubtype(ext)| + |Base64Marker| + |payload|
    ensures url[..|DataUrlPrefix|] == DataUrlPrefix
    ensures url[|DataUrlPrefix|..|DataUrlPrefix| + |ImageSubtype(ext)|] == ImageSubtype(ext)
    ensures url[|url| - |payload|..] == payload
  {
    DataUrlPrefix + ImageSubtype(ext) + Base64Marker + payload
  }

  datatype DataImage = DataImage(subtype: string, payload: string)

  /** The position of the first c in s, or -1. */
  function IndexOf(s: string, c: char): (i: int)
    ensures -1 <= i < |s|
    ensures i == -1 <==> c !in s
    ensures 0 <= i ==> s[i] == c && c !in s[..i]
    decreases |s|
  {
    if |s| == 0 then -1
    else if s[0] == c then 0
    else
      var k := IndexOf(s[1..], c);
      assert s == [s[0]] + s[1..];
      if k == -1 then -1
      else
        assert s[..k + 1] == [s[0]] + s[1..][..k];
        k + 1
  }

  /** Reads a data URL as the builders write it: subtype up to the first `$`, payload after the marker. */
  function ParseDataUrl(url: string): Option<DataImage> {
    if |url| < |DataUrlPrefix| || url[..|DataUrlPrefix|] != DataUrlPrefix then None
    else
      var rest := url[|DataUrlPrefix|..];
      var k := IndexOf(rest, '$');
      if 0 <= k && k + |Base64Marker| <= |rest| && rest[k..k + |Base64Marker|] == Base64Marker
      then Some(DataImage(rest[..k], rest[k + |Base64Marker|..]))
      else None
  }

  /** The image string gives back the mapped subtype and the payload, for any extension without a `$`. */
  lemma DataUrlRoundTrip(ext: string, payload: string)
    requires '$' !in ext
    ensures ParseDataUrl(DataUrl(ext, payload)) == Some(DataImage(ImageSubtype(ext), payload))
  {
    var sub := ImageSubtype(ext);
    var url := DataUrl(ext, payload);
    assert url == DataUrlPrefix + (sub + Base64Marker + payload);
    var rest := url[|DataUrlPrefix|..];
    assert rest == sub + Base64Marker + payload;
    assert '$' !in sub;
    assert rest[..|sub|] == sub;
    assert rest[|sub|] == '$';
    var k := IndexOf(rest, '$');
    assert k == |sub|;
    assert rest[k..k + |Base64Marker|] == Base64Marker;
    assert rest[k + |Base64Marker|..] == payload;
  }

  // ---------------------------------------------------------------------------
  // The playlists and their files
  // ---------------------------------------------------------------------------

  /**
   * The ranking-queue playlist lists the songs of the top of the queue, then
   * those of the rest, just as the fetched queue lists the requests.
   */
  lemma RankingQueuePlaylistFollowsFetch(top: seq<RankRequest>, belowTop: seq<RankRequest>, imageBase64: string)
    ensures var queue := ScoreSaberApi.FetchRankingQueue(Some(top), Some(belowTop));
            && queue.items.Some?
            && RankingQueuePlaylist(queue.items.value, imageBase64).playlist.songs
               == RankingQueuePlaylist(top, imageBase64).playlist.songs
                  + RankingQueuePlaylist(belowTop, imageBase64).playlist.songs
  {
    var queue := ScoreSaberApi.FetchRankingQueue(Some(top), Some(belowTop));
    assert queue.items.value == top + belowTop;
    RequestSongsAppend(top, belowTop);
  }

  /** A playlist and the path of the JSON file it is written to. */
  datatype PlaylistFile = PlaylistFile(path: string, playlist: Playlist)

  /** createPlaylistOfNumber1s, given the fetched scores, the player's name and the image's base64 text. */
  function Number1sPlaylist(scores: seq<Score>, playerName: string, packageName: string, imageBase64: string)
    : (f: PlaylistFile)
    ensures f.playlist.songs == Number1Songs(scores)
    ensures f.playlist.title == StripNonAscii(playerName) + "'s #1s"
    ensures f.path == f.playlist.title + ".json"
    ensures AllAscii(f.playlist.title)
    ensures f.playlist.author == packageName && f.playlist.description == ""
    ensures ParseDataUrl(f.playlist.image) == Some(DataImage(ImageExtension, imageBase64))
  {
    var title := StripNonAscii(playerName) + "'s #1s";
    assert AllAscii("'s #1s");
    AsciiConcat(StripNonAscii(playerName), "'s #1s");
    DataUrlRoundTrip(ImageExtension, imageBase64);
    PlaylistFile(title + ".json",
                 NewPlaylist(title, packageName, DataUrl(ImageExtension, imageBase64), Number1Songs(scores), None))
  }

  /** createSnipePlaylist, given both players' scores, player 2's name and the image's base64 text. */
  function SnipePlaylist(player1: seq<Score>, player2: seq<Score>, player2Name: string, packageName: string,
                         imageBase64: string): (f: PlaylistFile)
    ensures f.playlist.songs == SnipeSongs(player1, player2)
    ensures f.playlist.title == "Snipe " + StripNonAscii(player2Name)
    ensures f.path == f.playlist.title + ".json"
    ensures AllAscii(f.playlist.title)
    ensures f.playlist.author == packageName && f.playlist.description == ""
    ensures ParseDataUrl(f.playlist.image) == Some(DataImage(ImageExtension, imageBase64))
  {
    var title := "Snipe " + StripNonAscii(player2Name);
    assert AllAscii("Snipe ");
    AsciiConcat("Snipe ", StripNonAscii(player2Name));
    DataUrlRoundTrip(ImageExtension, imageBase64);
    PlaylistFile(title + ".json",
                 NewPlaylist(title, packageName, DataUrl(ImageExtension, imageBase64),
                             SnipeSongs(player1, player2), None))
  }

  /** createRankingQueuePlaylist, given the fetched queue and the image's base64 text. */
  function RankingQueuePlaylist(requests: seq<RankRequest>, imageBase64: string): (f: PlaylistFile)
    ensures f.playlist.songs == RequestSongs(requests)
    ensures f.playlist.title == "SS Ranking Queue"
    ensures f.path == f.playlist.title + ".json"
    ensures f.playlist.author == "" && f.playlist.description == ""
    ensures ParseDataUrl(f.playlist.image) == Some(DataImage(ImageExtension, imageBase64))
  {
    var title := "SS Ranking Queue";
    DataUrlRoundTrip(ImageExtension, imageBase64);
    PlaylistFile(title + ".json",
                 NewPlaylist(title, "", DataUrl(ImageExtension, imageBase64),
                             RequestSongs(requests),
                             None))
  }
}
