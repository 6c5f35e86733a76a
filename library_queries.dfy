/**
  The read side of the store (src/main/DB/DB.js, `getLibrary`, `getAlbum`, `getAlbumTracks`): each query
  is a function of the tables. `LIKE '%q%'` is modelled as a case-insensitive substring test over the
  ASCII fold of `Text.Lower`; a NULL operand never matches.
*/
module LibraryQueries {
  import opened Wrappers
  import opened Seqs
  import opened Text
  import opened Sorting
  import opened LibrarySchema

  /** The search box state that `getLibrary` receives. */
  datatype SearchParameters = SearchParameters(query: string, genre: string)

  /** A row of the album search: `DISTINCT(albums.id), albums.title, coverPath`. */
  datatype AlbumSummary = AlbumSummary(id: nat, title: string, coverPath: Option<string>)

  /**
    What `getLibrary` returns: the whole album table when nothing is searched (and no tracks), the
    search hits otherwise; the distinct genre names in both cases.
  */
  datatype LibraryView =
    | WholeLibrary(albums: seq<Album>, genres: seq<string>)
    | SearchResult(found: seq<AlbumSummary>, tracks: seq<Track>, genres: seq<string>)

  /** What `getAlbum` returns: the album row with its genre names and its artist's name. */
  datatype AlbumInfo = AlbumInfo(album: Album, genres: seq<string>, artist: Option<string>)

  /** `value LIKE '%query%'`; NULL is never like anything. */
  predicate Like(value: Option<string>, query: string) {
    value.Some? && ContainsFolded(value.value, query)
  }

  function Summary(a: Album): AlbumSummary {
    AlbumSummary(a.id, a.title, a.coverPath)
  }

  function Summaries(albums: seq<Album>): (r: seq<AlbumSummary>)
    ensures |r| == |albums|
    ensures forall i :: 0 <= i < |albums| ==> r[i] == Summary(albums[i])
  {
    seq(|albums|, i requires 0 <= i < |albums| => Summary(albums[i]))
  }

  /** `ORDER BY albums.id DESC` */
  predicate AlbumBefore(a: Album, b: Album) {
    a.id >= b.id
  }

  /** SQLite sorts NULL before every number. */
  predicate OrderBefore(x: Option<int>, y: Option<int>) {
    x.None? || (y.Some? && x.value <= y.value)
  }

  /** `ORDER BY disc, trackOrder` */
  predicate TrackBefore(a: Track, b: Track) {
    a.disc < b.disc || (a.disc == b.disc && OrderBefore(a.trackOrder, b.trackOrder))
  }

  // ---------------------------------------------------------------------------------------------
  // getLibrary

  /** `SELECT DISTINCT(genre) FROM genres` */
  function LibraryGenres(genres: seq<Genre>): seq<string> {
    Distinct(seq(|genres|, i requires 0 <= i < |genres| => genres[i].genre))
  }

  /**
    The WHERE clause holds on some row of `albums JOIN tracks ON albums.id = tracks.albumId JOIN artists
    ON albums.artistId = artists.id` for this album.
  */
  predicate JoinRowMatches(t: Tables, a: Album, query: string) {
    exists i, j :: 0 <= i < |t.tracks| && 0 <= j < |t.artists| &&
      t.tracks[i].albumID == a.id && t.artists[j].id == a.artistID &&
      (Like(Some(a.title), query) || Like(Some(t.tracks[i].title), query) || Like(t.artists[j].name, query))
  }

  /** `albums.id IN (SELECT albumID FROM genres WHERE genres.genre = ?)` */
  predicate HasGenre(genres: seq<Genre>, albumID: nat, genre: string) {
    exists i :: 0 <= i < |genres| && genres[i].albumID == albumID && genres[i].genre == genre
  }

  /** The album filter; the genre condition is added only for a non-empty genre. */
  predicate Selected(t: Tables, a: Album, params: SearchParameters) {
    JoinRowMatches(t, a, params.query) && (params.genre == "" || HasGenre(t.genres, a.id, params.genre))
  }

  /** The album search: matching albums by descending id, each summary once. */
  function SearchAlbums(t: Tables, params: SearchParameters): seq<AlbumSummary> {
    Distinct(Summaries(SortBy(Filter(t.albums, (a: Album) => Selected(t, a, params)), AlbumBefore)))
  }

  predicate TrackMatches(k: Track, query: string) {
    Like(Some(k.title), query) || Like(k.composer, query)
  }

  /** `SELECT * FROM tracks WHERE title LIKE ? OR composer LIKE ? LIMIT 10` */
  function SearchTracks(tracks: seq<Track>, query: string): seq<Track> {
    Take(Filter(tracks, (k: Track) => TrackMatches(k, query)), 10)
  }

  function GetLibrary(t: Tables, params: SearchParameters): (r: LibraryView)
    ensures r.genres == LibraryGenres(t.genres)
    ensures r.WholeLibrary? <==> params.query == "" && params.genre == ""
  {
    var genres := LibraryGenres(t.genres);
    if params.query == "" && params.genre == "" then WholeLibrary(SortBy(t.albums, AlbumBefore), genres)
    else SearchResult(SearchAlbums(t, params), SearchTracks(t.tracks, params.query), genres)
  }

  // ---------------------------------------------------------------------------------------------
  // getAlbum and getAlbumTracks

  /** `SELECT * FROM genres WHERE albumID = ?`, mapped to the names. */
  function GenresOf(genres: seq<Genre>, albumID: nat): seq<string> {
    var rows := Filter(genres, (g: Genre) => g.albumID == albumID);
    seq(|rows|, i requires 0 <= i < |rows| => rows[i].genre)
  }

  /**
    `getAlbum(albumID)`: the first album with the id, its genre names and the name of the first artist
    with its `artistID`. A missing album or artist makes the code read a property of `undefined`, a
    TypeError, modelled as `None`.
  */
  function GetAlbum(t: Tables, albumID: nat): Option<AlbumInfo> {
    match AlbumWithId(t.albums, albumID)
    case None => None
    case Some(i) =>
      var album := t.albums[i];
      match ArtistWithId(t.artists, album.artistID)
      case None => None
      case Some(j) => Some(AlbumInfo(album, GenresOf(t.genres, albumID), t.artists[j].name))
  }

  /** `SELECT * FROM tracks WHERE albumID = ? ORDER BY disc, trackOrder` */
  function GetAlbumTracks(t: Tables, albumID: nat): seq<Track> {
    SortBy(Filter(t.tracks, (k: Track) => k.albumID == albumID), TrackBefore)
  }
}

module QueryProperties {
  import opened Wrappers
  import opened Seqs
  import opened Text
  import opened Sorting
  import opened LibrarySchema
  import opened LibraryQueries

  lemma AlbumOrderTotal()
    ensures TotalPreorder(AlbumBefore)
  {
  }

  lemma TrackOrderTotal()
    ensures TotalPreorder(TrackBefore)
  {
  }

  /** Membership in a filtered-then-sorted table is membership in the table plus the filter. */
  lemma SortedFilterMembers<T(!new)>(s: seq<T>, p: T -> bool, le: (T, T) -> bool, x: T)
    requires TotalPreorder(le)
    ensures x in SortBy(Filter(s, p), le) <==> x in s && p(x)
  {
    SortByCorrect(Filter(s, p), le);
    FilterMultiset(s, p, x);
    assert x in SortBy(Filter(s, p), le) <==> x in multiset(SortBy(Filter(s, p), le));
    assert x in Filter(s, p) <==> x in multiset(Filter(s, p));
  }

  /** `SELECT DISTINCT(genre)` lists every genre name of the table, once. */
  lemma LibraryGenresSpec(genres: seq<Genre>)
    ensures NoDuplicates(LibraryGenres(genres))
    ensures forall name :: name in LibraryGenres(genres) <==>
      exists i :: 0 <= i < |genres| && genres[i].genre == name
  {
    var names := seq(|genres|, i requires 0 <= i < |genres| => genres[i].genre);
    forall name | name in LibraryGenres(genres)
      ensures exists i :: 0 <= i < |genres| && genres[i].genre == name
    {
      var k :| 0 <= k < |names| && names[k] == name;
    }
    forall name | exists i :: 0 <= i < |genres| && genres[i].genre == name
      ensures name in LibraryGenres(genres)
    {
      var i :| 0 <= i < |genres| && genres[i].genre == name;
      assert names[i] == name;
    }
  }

  /**
    With neither query nor genre, `getLibrary` returns every album, each as often as in the table,
    by descending id.
  */
  lemma WholeLibrarySpec(t: Tables)
    ensures var r := GetLibrary(t, SearchParameters("", ""));
      && r.WholeLibrary?
      && multiset(r.albums) == multiset(t.albums)
      && forall i, j :: 0 <= i < j < |r.albums| ==> r.albums[i].id >= r.albums[j].id
  {
    AlbumOrderTotal();
    SortByCorrect(t.albums, AlbumBefore);
  }

  /** Over a table in increasing id order, as AUTOINCREMENT keeps it, that is the table reversed. */
  lemma {:induction false} NewestFirst(albums: seq<Album>)
    requires forall i, j :: 0 <= i < j < |albums| ==> albums[i].id < albums[j].id
    ensures SortBy(albums, AlbumBefore) == Reverse(albums)
  {
    if |albums| > 0 {
      NewestFirst(albums[1..]);
      var rest := Reverse(albums[1..]);
      forall k | 0 <= k < |rest| ensures !AlbumBefore(albums[0], rest[k]) {
        assert rest[k] == albums[|albums| - 1 - k];
      }
      InsertLast(albums[0], rest, AlbumBefore);
    }
  }

  /**
    The WHERE over the join, taken apart: the album has a track and an artist row, and its title,
    one of its tracks' titles or one of its artist rows' names contains the query.
  */
  lemma JoinRowMatchesIff(t: Tables, a: Album, query: string)
    ensures JoinRowMatches(t, a, query) <==>
      && (exists i :: 0 <= i < |t.tracks| && t.tracks[i].albumID == a.id)
      && (exists j :: 0 <= j < |t.artists| && t.artists[j].id == a.artistID)
      && (|| Like(Some(a.title), query)
          || (exists i :: 0 <= i < |t.tracks| && t.tracks[i].albumID == a.id && Like(Some(t.tracks[i].title), query))
          || (exists j :: 0 <= j < |t.artists| && t.artists[j].id == a.artistID && Like(t.artists[j].name, query)))
  {
  }

  /**
    The album search returns the summaries of exactly the selected albums, each once, by descending
    id.
  */
  lemma SearchAlbumsSpec(t: Tables, params: SearchParameters)
    ensures var r := SearchAlbums(t, params);
      && NoDuplicates(r)
      && (forall s :: s in r <==> exists a :: a in t.albums && Selected(t, a, params) && Summary(a) == s)
      && (forall i, j :: 0 <= i < j < |r| ==> r[i].id >= r[j].id)
  {
    var sorted := SortBy(Filter(t.albums, (a: Album) => Selected(t, a, params)), AlbumBefore);
    AlbumOrderTotal();
    SortByCorrect(Filter(t.albums, (a: Album) => Selected(t, a, params)), AlbumBefore);
    DistinctPairwise(Summaries(sorted), (x: AlbumSummary, y: AlbumSummary) => x.id >= y.id);
    SearchAlbumsMembers(t, params);
  }

  lemma SearchAlbumsMembers(t: Tables, params: SearchParameters)
    ensures forall s :: s in SearchAlbums(t, params) <==>
      exists a :: a in t.albums && Selected(t, a, params) && Summary(a) == s
  {
    var p := (a: Album) => Selected(t, a, params);
    var sorted := SortBy(Filter(t.albums, p), AlbumBefore);
    var sums := Summaries(sorted);
    AlbumOrderTotal();
    forall s | s in Distinct(sums) ensures exists a :: a in t.albums && Selected(t, a, params) && Summary(a) == s {
      var k :| 0 <= k < |sums| && sums[k] == s;
      SortedFilterMembers(t.albums, p, AlbumBefore, sorted[k]);
    }
    forall s | exists a :: a in t.albums && Selected(t, a, params) && Summary(a) == s
      ensures s in Distinct(sums)
    {
      var a :| a in t.albums && Selected(t, a, params) && Summary(a) == s;
      SortedFilterMembers(t.albums, p, AlbumBefore, a);
      var k :| 0 <= k < |sorted| && sorted[k] == a;
      assert sums[k] == s;
    }
  }

  /** Under AUTOINCREMENT ids each found album appears once, so the ids strictly decrease. */
  lemma SearchAlbumsNewestFirst(t: Tables, params: SearchParameters)
    requires IdsIncreasing(AlbumIdList(t.albums), t.albumSeq)
    ensures var r := SearchAlbums(t, params);
      forall i, j :: 0 <= i < j < |r| ==> r[i].id > r[j].id
  {
    var r := SearchAlbums(t, params);
    SearchAlbumsSpec(t, params);
    forall i, j | 0 <= i < j < |r| ensures r[i].id > r[j].id {
      assert r[i] in r && r[j] in r;
      var a :| a in t.albums && Selected(t, a, params) && Summary(a) == r[i];
      var b :| b in t.albums && Selected(t, b, params) && Summary(b) == r[j];
      SameIdSameAlbum(t.albums, t.albumSeq, a, b);
    }
  }

  /** AUTOINCREMENT ids identify rows. */
  lemma SameIdSameAlbum(albums: seq<Album>, last: nat, a: Album, b: Album)
    requires IdsIncreasing(AlbumIdList(albums), last) && a in albums && b in albums
    ensures a.id == b.id ==> a == b
  {
    var m :| 0 <= m < |albums| && albums[m] == a;
    var n :| 0 <= n < |albums| && albums[n] == b;
    assert AlbumIdList(albums)[m] == a.id && AlbumIdList(albums)[n] == b.id;
  }

  /**
    The track search returns at most ten tracks, all matching, in table order; when it returns fewer
    than ten, they are all the matching tracks.
  */
  lemma SearchTracksSpec(tracks: seq<Track>, query: string)
    ensures var r := SearchTracks(tracks, query);
      && |r| <= 10
      && (forall k :: k in r ==> k in tracks && TrackMatches(k, query))
      && (|r| < 10 ==> forall k :: k in tracks && TrackMatches(k, query) ==> k in r)
      && ((forall i, j :: 0 <= i < j < |tracks| ==> tracks[i].id < tracks[j].id) ==>
            forall i, j :: 0 <= i < j < |r| ==> r[i].id < r[j].id)
  {
    var p := (k: Track) => TrackMatches(k, query);
    var f := Filter(tracks, p);
    var r := SearchTracks(tracks, query);
    forall k | k in r ensures k in tracks && TrackMatches(k, query) {
      var i :| 0 <= i < |r| && r[i] == k;
      assert r[i] == f[i];
    }
    if |r| < 10 {
      assert r == f;
    }
    if forall i, j :: 0 <= i < j < |tracks| ==> tracks[i].id < tracks[j].id {
      FilterPairwise(tracks, p, (a: Track, b: Track) => a.id < b.id);
      forall i, j | 0 <= i < j < |r| ensures r[i].id < r[j].id {
        assert r[i] == f[i] && r[j] == f[j];
      }
    }
  }

  /**
    `getAlbum` fails exactly when no album has the id or no artist has the album's `artistID`;
    otherwise it returns that album, the names of its genre rows and its artist's name.
  */
  lemma GetAlbumSpec(t: Tables, albumID: nat)
    ensures var r := GetAlbum(t, albumID);
      && (r.Some? <==> (AlbumWithId(t.albums, albumID).Some? &&
            ArtistWithId(t.artists, t.albums[AlbumWithId(t.albums, albumID).value].artistID).Some?))
      && (r.Some? ==>
            && r.value.album in t.albums && r.value.album.id == albumID
            && (forall name :: name in r.value.genres <==> Genre(albumID, name) in t.genres)
            && exists j :: 0 <= j < |t.artists| && t.artists[j].id == r.value.album.artistID
                 && t.artists[j].name == r.value.artist)
  {
    var r := GetAlbum(t, albumID);
    if r.Some? {
      GenresOfSpec(t.genres, albumID);
    }
  }

  lemma GenresOfSpec(genres: seq<Genre>, albumID: nat)
    ensures forall name :: name in GenresOf(genres, albumID) <==> Genre(albumID, name) in genres
  {
    var rows := Filter(genres, (g: Genre) => g.albumID == albumID);
    var names := GenresOf(genres, albumID);
    forall name | name in names ensures Genre(albumID, name) in genres {
      var k :| 0 <= k < |names| && names[k] == name;
      assert rows[k] == Genre(albumID, name);
    }
    forall name | Genre(albumID, name) in genres ensures name in names {
      var i :| 0 <= i < |genres| && genres[i] == Genre(albumID, name);
      var k :| 0 <= k < |rows| && rows[k] == genres[i];
      assert names[k] == name;
    }
  }

  /** In a consistent store every album's artist exists, so `getAlbum` fails only for an unknown id. */
  lemma GetAlbumOfKnownAlbum(t: Tables, albumID: nat)
    requires Consistent(t)
    ensures GetAlbum(t, albumID).Some? <==> albumID in AlbumIdList(t.albums)
  {
    match AlbumWithId(t.albums, albumID) {
      case None =>
        forall m | 0 <= m < |t.albums| ensures AlbumIdList(t.albums)[m] != albumID {
          assert AlbumIdList(t.albums)[m] == t.albums[m].id;
        }
      case Some(i) =>
        assert AlbumIdList(t.albums)[i] == albumID;
        var x := t.albums[i].artistID;
        assert x in ArtistIdList(t.artists);
        var n :| 0 <= n < |t.artists| && ArtistIdList(t.artists)[n] == x;
        assert t.artists[n].id == x;
    }
  }

  /**
    `getAlbumTracks` returns exactly the album's tracks, with their multiplicities, ordered by disc and
    then by track number, tracks without a number first.
  */
  lemma GetAlbumTracksSpec(t: Tables, albumID: nat)
    ensures var r := GetAlbumTracks(t, albumID);
      && (forall k :: multiset(r)[k] == if k.albumID == albumID then multiset(t.tracks)[k] else 0)
      && (forall i, j :: 0 <= i < j < |r| ==> r[i].disc <= r[j].disc)
      && (forall i, j :: 0 <= i < j < |r| && r[i].disc == r[j].disc ==>
            r[i].trackOrder.None? || (r[j].trackOrder.Some? && r[i].trackOrder.value <= r[j].trackOrder.value))
  {
    var p := (k: Track) => k.albumID == albumID;
    var r := GetAlbumTracks(t, albumID);
    TrackOrderTotal();
    SortByCorrect(Filter(t.tracks, p), TrackBefore);
    TrackOrderSpelled(r);
    forall k: Track ensures multiset(r)[k] == if k.albumID == albumID then multiset(t.tracks)[k] else 0 {
      FilterMultiset(t.tracks, p, k);
    }
  }

  /** A list sorted by `ORDER BY disc, trackOrder`, spelled out. */
  lemma TrackOrderSpelled(r: seq<Track>)
    requires SortedBy(r, TrackBefore)
    ensures forall i, j :: 0 <= i < j < |r| ==> r[i].disc <= r[j].disc
    ensures forall i, j :: 0 <= i < j < |r| && r[i].disc == r[j].disc ==>
      r[i].trackOrder.None? || (r[j].trackOrder.Some? && r[i].trackOrder.value <= r[j].trackOrder.value)
  {
    forall i, j | 0 <= i < j < |r|
      ensures r[i].disc <= r[j].disc
      ensures r[i].disc == r[j].disc ==>
        r[i].trackOrder.None? || (r[j].trackOrder.Some? && r[i].trackOrder.value <= r[j].trackOrder.value)
    {
      assert TrackBefore(r[i], r[j]);
    }
  }
}
