/**
  The relational store of the music library (src/main/DB/DB.js): the four tables of the schema
  `structure`, the AUTOINCREMENT counters behind their ids, the first-row lookups that `db.get`
  performs, and the consistency the ingestion and editing operations keep.

  A table is a sequence of rows in rowid order, which is the order SQLite's table scan visits them
  in; a lookup without ORDER BY returns the first matching row of that scan.
*/
module LibrarySchema {
  import opened Wrappers
  import opened Seqs

  /** A row of `albums`. `coverPath` is NULL until a cover is stored. */
  datatype Album = Album(
    id: nat, title: string, directory: string, artistID: nat, discCount: int, coverPath: Option<string>)

  /** A row of `tracks`. `composer` and `trackOrder` are NULL when the tags lack them. */
  datatype Track = Track(
    id: nat, title: string, composer: Option<string>, albumID: nat, trackOrder: Option<int>, disc: int,
    path: string)

  /** A row of `artists`; the name is NULL for an album whose tags carry no album artist. */
  datatype Artist = Artist(id: nat, name: Option<string>)

  /** A row of `genres`; the pair is UNIQUE. */
  datatype Genre = Genre(albumID: nat, genre: string)

  /**
    The database: the four tables and, per AUTOINCREMENT table, the largest id handed out so far
    (what SQLite keeps in `sqlite_sequence`); the next row gets that value plus one.
  */
  datatype Tables = Tables(
    albums: seq<Album>, tracks: seq<Track>, artists: seq<Artist>, genres: seq<Genre>,
    albumSeq: nat, trackSeq: nat, artistSeq: nat)

  /** The database `create` builds from the schema. */
  const EmptyTables: Tables := Tables([], [], [], [], 0, 0, 0)

  function AlbumIdList(albums: seq<Album>): (ids: seq<nat>)
    ensures |ids| == |albums|
  {
    seq(|albums|, i requires 0 <= i < |albums| => albums[i].id)
  }

  function TrackIdList(tracks: seq<Track>): (ids: seq<nat>)
    ensures |ids| == |tracks|
  {
    seq(|tracks|, i requires 0 <= i < |tracks| => tracks[i].id)
  }

  function ArtistIdList(artists: seq<Artist>): (ids: seq<nat>)
    ensures |ids| == |artists|
  {
    seq(|artists|, i requires 0 <= i < |artists| => artists[i].id)
  }

  /** AUTOINCREMENT ids: increasing in rowid order, from 1, never above the counter. */
  ghost predicate IdsIncreasing(ids: seq<nat>, last: nat) {
    && (forall i, j :: 0 <= i < j < |ids| ==> ids[i] < ids[j])
    && (forall i :: 0 <= i < |ids| ==> 1 <= ids[i] <= last)
  }

  ghost predicate UniqueTrackPaths(tracks: seq<Track>) {
    forall i, j :: 0 <= i < j < |tracks| ==> tracks[i].path != tracks[j].path
  }

  /** No two artists share a name; NULL names never compare equal and may repeat. */
  ghost predicate UniqueArtistNames(artists: seq<Artist>) {
    forall i, j :: 0 <= i < j < |artists| && artists[i].name.Some? ==> artists[i].name != artists[j].name
  }

  /**
    What every operation of the store keeps: AUTOINCREMENT ids, one track per path, one artist per
    name, one row per (album, genre) pair, and every album and track reference resolving.
  */
  ghost predicate Consistent(t: Tables) {
    && IdsIncreasing(AlbumIdList(t.albums), t.albumSeq)
    && IdsIncreasing(TrackIdList(t.tracks), t.trackSeq)
    && IdsIncreasing(ArtistIdList(t.artists), t.artistSeq)
    && UniqueTrackPaths(t.tracks)
    && UniqueArtistNames(t.artists)
    && NoDuplicates(t.genres)
    && (forall i :: 0 <= i < |t.albums| ==> t.albums[i].artistID in ArtistIdList(t.artists))
    && (forall i :: 0 <= i < |t.tracks| ==> t.tracks[i].albumID in AlbumIdList(t.albums))
  }

  lemma EmptyTablesConsistent()
    ensures Consistent(EmptyTables)
  {
  }

  // ---------------------------------------------------------------------------------------------
  // The rows `db.get` finds

  /** `SELECT id FROM tracks WHERE path = ?` */
  function TrackWithPath(tracks: seq<Track>, path: string): Option<nat> {
    FirstIndex(tracks, (k: Track) => k.path == path)
  }

  /** `SELECT id FROM albums WHERE title = ? AND directory = ?` */
  function AlbumWithIdentity(albums: seq<Album>, title: string, directory: string): Option<nat> {
    FirstIndex(albums, (a: Album) => a.title == title && a.directory == directory)
  }

  /** `SELECT * FROM artists WHERE name = ?`; comparing with NULL is never true. */
  function ArtistNamed(artists: seq<Artist>, name: Option<string>): Option<nat> {
    if name.None? then None else FirstIndex(artists, (a: Artist) => a.name == name)
  }

  /** `SELECT * FROM albums WHERE id = ?` */
  function AlbumWithId(albums: seq<Album>, id: nat): Option<nat> {
    FirstIndex(albums, (a: Album) => a.id == id)
  }

  /** `SELECT * FROM artists WHERE id = ?` */
  function ArtistWithId(artists: seq<Artist>, id: nat): Option<nat> {
    FirstIndex(artists, (a: Artist) => a.id == id)
  }

  /** `SELECT * FROM tracks WHERE albumID = ?` */
  function TrackOfAlbum(tracks: seq<Track>, albumID: nat): Option<nat> {
    FirstIndex(tracks, (k: Track) => k.albumID == albumID)
  }
}
