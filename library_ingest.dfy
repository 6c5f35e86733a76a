/**
  Adding music to the library (src/main/DB/DB.js, `openPath` through `addCover`): which files become
  tracks, how a track finds or creates its album, artist, genres and cover, and how a directory tree
  is walked.

  What lies outside the database is a parameter, `Env`: the tags `music-metadata` would parse from
  each file (a file missing from the map cannot be parsed), the set of existing file paths probed by
  `fs.existsSync`, the cover folder and the clock value written into cover paths.
*/
module LibraryIngest {
  import opened Wrappers
  import opened Seqs
  import opened Text
  import opened LibrarySchema

  const SupportedAudioFormats: seq<string> := [".flac", ".mp3", ".opus", ".ogg", ".aac", ".m4a"]
  const SupportedImageFormats: seq<string> := [".png", ".jpeg", ".jpg", ".jfif"]

  /** The common tags of a file, as far as the library reads them; absent tags are `None`. */
  datatype Metadata = Metadata(
    title: Option<string>, album: Option<string>, albumArtist: Option<string>, composer: Option<string>,
    trackNo: Option<int>, diskNo: Option<int>, diskOf: Option<int>,
    genre: seq<string>, picture: Option<string>)
  // `picture` is the MIME type of the first embedded picture.

  datatype Env = Env(coverFolder: string, tags: map<string, Metadata>, existing: set<string>, now: nat)

  /** A directory entry as `fs.statSync` classifies it: a file, a directory, or neither. */
  datatype Node = File(name: string) | Directory(name: string, children: seq<Node>) | Other(name: string)

  /** Where a cover is read from: an image file, or a picture embedded in the tags (its MIME type). */
  datatype CoverSource = CoverFile(path: string) | EmbeddedPicture(format: string)

  /** The identity of the album a track belongs to, and the artist a new album would get. */
  datatype AlbumKey = AlbumKey(title: string, directory: string, artist: Option<string>)

  /** A table state together with the id an insertion handed out. */
  datatype WithId = WithId(tables: Tables, id: nat)

  /** A walk's resulting tables, and whether some file on the way could not be parsed. */
  datatype Walked = Walked(tables: Tables, failed: bool)

  // ---------------------------------------------------------------------------------------------
  // JavaScript truthiness of the tag values

  predicate Truthy(s: Option<string>) {
    s.Some? && s.value != ""
  }

  predicate TruthyNumber(n: Option<int>) {
    n.Some? && n.value != 0
  }

  function TrackTitle(m: Metadata): string {
    if Truthy(m.title) then m.title.value else "Unknown"
  }

  function DiscNumber(m: Metadata): int {
    if TruthyNumber(m.diskNo) then m.diskNo.value else 1
  }

  function DiscCount(m: Metadata): int {
    if TruthyNumber(m.diskOf) then m.diskOf.value else 1
  }

  /** Tracks without an album tag all go to the album "Unknown album" in "/" by "Unknown artist". */
  function AlbumKeyOf(m: Metadata, path: string): AlbumKey {
    if Truthy(m.album) then AlbumKey(m.album.value, DirName(path), m.albumArtist)
    else AlbumKey("Unknown album", "/", Some("Unknown artist"))
  }

  predicate IsAudioFile(path: string) {
    ExtName(path) in SupportedAudioFormats
  }

  // ---------------------------------------------------------------------------------------------
  // Insertions

  function InsertArtist(t: Tables, name: Option<string>): (r: WithId)
    ensures r.id == t.artistSeq + 1 == r.tables.artistSeq
    ensures r.tables == t.(artists := t.artists + [Artist(r.id, name)], artistSeq := r.id)
  {
    WithId(t.(artists := t.artists + [Artist(t.artistSeq + 1, name)], artistSeq := t.artistSeq + 1),
      t.artistSeq + 1)
  }

  function InsertAlbum(t: Tables, title: string, directory: string, artistID: nat, discCount: int): (r: WithId)
    ensures r.id == t.albumSeq + 1 == r.tables.albumSeq
    ensures r.tables == t.(albums := t.albums + [Album(r.id, title, directory, artistID, discCount, None)],
                           albumSeq := r.id)
  {
    var id := t.albumSeq + 1;
    WithId(t.(albums := t.albums + [Album(id, title, directory, artistID, discCount, None)], albumSeq := id), id)
  }

  function InsertTrack(
    t: Tables, title: string, composer: Option<string>, albumID: nat, trackOrder: Option<int>, disc: int,
    path: string): (r: WithId)
    ensures r.id == t.trackSeq + 1 == r.tables.trackSeq
    ensures r.tables == t.(tracks := t.tracks + [Track(r.id, title, composer, albumID, trackOrder, disc, path)],
                           trackSeq := r.id)
  {
    var id := t.trackSeq + 1;
    WithId(t.(tracks := t.tracks + [Track(id, title, composer, albumID, trackOrder, disc, path)], trackSeq := id), id)
  }

  /** `findOrCreate`-style artist resolution of `createAlbum`: the first artist of that name, or a new one. */
  function ResolveArtist(t: Tables, name: Option<string>): (r: WithId)
    ensures ArtistNamed(t.artists, name).Some? ==> r.tables == t && r.id == t.artists[ArtistNamed(t.artists, name).value].id
    ensures ArtistNamed(t.artists, name).None? ==> r == InsertArtist(t, name)
  {
    match ArtistNamed(t.artists, name)
    case Some(i) => WithId(t, t.artists[i].id)
    case None => InsertArtist(t, name)
  }

  // ---------------------------------------------------------------------------------------------
  // Genres

  /** `INSERT OR IGNORE` into a table with UNIQUE(albumID, genre). */
  function InsertGenre(genres: seq<Genre>, row: Genre): seq<Genre> {
    if row in genres then genres else genres + [row]
  }

  /** One `INSERT OR IGNORE` per token, left to right. */
  function InsertGenres(genres: seq<Genre>, albumID: nat, tokens: seq<string>): seq<Genre>
    decreases |tokens|
  {
    if |tokens| == 0 then genres
    else InsertGenres(InsertGenre(genres, Genre(albumID, tokens[0])), albumID, tokens[1..])
  }

  /** The genre names in one tag value: split on ',' and '/', each piece trimmed. */
  function GenreTokens(tag: string): (r: seq<string>)
    ensures |r| == DelimiterCount(tag) + 1
  {
    var parts := SplitGenres(tag);
    SplitGenresCount(tag);
    seq(|parts|, k requires 0 <= k < |parts| => Trim(parts[k]))
  }

  /** `createGenre(tag, albumID)`. */
  function CreateGenre(genres: seq<Genre>, albumID: nat, tag: string): seq<Genre> {
    InsertGenres(genres, albumID, GenreTokens(tag))
  }

  /** The genre loop of `createTrack`: every genre tag of the file, in order. */
  function AddTagGenres(genres: seq<Genre>, albumID: nat, tags: seq<string>): seq<Genre>
    decreases |tags|
  {
    if |tags| == 0 then genres else AddTagGenres(CreateGenre(genres, albumID, tags[0]), albumID, tags[1..])
  }

  // ---------------------------------------------------------------------------------------------
  // Covers

  /** The file-name extension `addCover` gives an embedded picture; unknown types give "undefined". */
  function ImageExtension(format: string): string {
    if format == "image/jpeg" then "jpg" else if format == "image/png" then "png" else "undefined"
  }

  function CoverExtension(source: CoverSource): string {
    match source
    case CoverFile(p) => ExtName(p)
    case EmbeddedPicture(f) => ImageExtension(f)
  }

  /** The path `addCover` stores: the copy in the cover folder, with a cache-busting query. */
  function CoverPath(folder: string, albumID: nat, extension: string, now: nat): string {
    folder + "/" + Decimal(albumID) + extension + "?t=" + Decimal(now)
  }

  /** `UPDATE albums SET coverPath = ? WHERE id = ?` */
  function SetCoverPath(albums: seq<Album>, albumID: nat, coverPath: string): (r: seq<Album>)
    ensures |r| == |albums|
    ensures forall i :: 0 <= i < |albums| ==>
      r[i] == if albums[i].id == albumID then albums[i].(coverPath := Some(coverPath)) else albums[i]
  {
    seq(|albums|, i requires 0 <= i < |albums| =>
      if albums[i].id == albumID then albums[i].(coverPath := Some(coverPath)) else albums[i])
  }

  /**
    `addCover(source, type, albumID, directory)`. Without a directory, the album's directory is read
    from its first track; an album without tracks makes that lookup fail before anything is written.
  */
  function StoreCover(t: Tables, source: CoverSource, albumID: nat, directory: Option<string>, env: Env): Tables {
    if !Truthy(directory) && TrackOfAlbum(t.tracks, albumID).None? then t
    else t.(albums := SetCoverPath(t.albums, albumID, CoverPath(env.coverFolder, albumID, CoverExtension(source), env.now)))
  }

  /** The file names probed for a cover, with the title of the album's first track last. */
  function CoverNames(title: Option<string>): seq<string> {
    ["cover", "Cover", title.GetOr("undefined")]
  }

  /** The probed cover files, image format by image format, each with every name. */
  function CoverCandidates(directory: string, title: Option<string>): (r: seq<string>)
    ensures |r| == |SupportedImageFormats| * |CoverNames(title)|
  {
    seq(12, k requires 0 <= k < 12 => directory + "/" + CoverNames(title)[k % 3] + SupportedImageFormats[k / 3])
  }

  /** The first candidate that exists. */
  function ScanCover(directory: string, title: Option<string>, existing: set<string>): Option<string> {
    var candidates := CoverCandidates(directory, title);
    match FirstIndex(candidates, (c: string) => c in existing)
    case Some(i) => Some(candidates[i])
    case None => None
  }

  // ---------------------------------------------------------------------------------------------
  // Albums and tracks

  /**
    `createAlbum(firstTrack, directory)`: resolve the artist, insert the album, store the embedded
    picture and then the first cover file found in the directory, later writes overwriting earlier.
  */
  function NewAlbum(t: Tables, m: Metadata, k: AlbumKey, env: Env): WithId {
    var artist := ResolveArtist(t, k.artist);
    var inserted := InsertAlbum(artist.tables, k.title, k.directory, artist.id, DiscCount(m));
    var id := inserted.id;
    var embedded :=
      if m.picture.Some? then StoreCover(inserted.tables, EmbeddedPicture(m.picture.value), id, Some(k.directory), env)
      else inserted.tables;
    var scanned :=
      match ScanCover(k.directory, m.title, env.existing)
      case Some(p) => StoreCover(embedded, CoverFile(p), id, Some(k.directory), env)
      case None => embedded;
    WithId(scanned, id)
  }

  /** The album a track with key `k` joins: the first with that title and directory, or a new one. */
  function FindOrCreateAlbum(t: Tables, m: Metadata, k: AlbumKey, env: Env): WithId {
    match AlbumWithIdentity(t.albums, k.title, k.directory)
    case Some(i) => WithId(t, t.albums[i].id)
    case None => NewAlbum(t, m, k, env)
  }

  /** The files `createTrack` reads tags from: supported and not in the library yet. */
  predicate Admits(t: Tables, path: string) {
    IsAudioFile(path) && TrackWithPath(t.tracks, path).None?
  }

  /**
    `createTrack(path)`. Unsupported and known paths change nothing; a file whose tags cannot be
    parsed fails (`None`) before any write.
  */
  function Ingest(t: Tables, path: string, env: Env): Option<Tables> {
    if !Admits(t, path) then Some(t)
    else if path !in env.tags then None
    else
      var m := env.tags[path];
      var album := FindOrCreateAlbum(t, m, AlbumKeyOf(m, path), env);
      var track := InsertTrack(album.tables, TrackTitle(m), m.composer, album.id, m.trackNo, DiscNumber(m), path);
      Some(track.tables.(genres := AddTagGenres(track.tables.genres, album.id, m.genre)))
  }

  // ---------------------------------------------------------------------------------------------
  // Walking paths

  function ChildPath(path: string, name: string): string {
    path + "/" + name
  }

  /** `processDirectoryFiles`: the files one by one; the first that fails ends the batch. */
  function WalkFiles(t: Tables, paths: seq<string>, env: Env): Walked
    decreases |paths|
  {
    if |paths| == 0 then Walked(t, false)
    else match Ingest(t, paths[0], env)
      case None => Walked(t, true)
      case Some(t1) => WalkFiles(t1, paths[1..], env)
  }

  /** The paths of the entries of a listing that are files, in listing order. */
  function FilePaths(path: string, children: seq<Node>): seq<string> {
    if |children| == 0 then []
    else (if children[0].File? then [ChildPath(path, children[0].name)] else []) + FilePaths(path, children[1..])
  }

  /** `openPath` on a node: a file is ingested, a directory walked, anything else ignored. */
  function WalkTree(t: Tables, node: Node, path: string, env: Env): Walked
    decreases node
  {
    match node
    case File(_) =>
      (match Ingest(t, path, env) case None => Walked(t, true) case Some(t1) => Walked(t1, false))
    case Directory(_, children) =>
      var sub := WalkSubdirectories(t, path, children, env);
      var files := WalkFiles(sub.tables, FilePaths(path, children), env);
      Walked(files.tables, sub.failed || files.failed)
    case Other(_) => Walked(t, false)
  }

  /** The subdirectories of a listing, walked in listing order; a failure in one does not stop the others. */
  function WalkSubdirectories(t: Tables, path: string, children: seq<Node>, env: Env): Walked
    decreases children
  {
    if |children| == 0 then Walked(t, false)
    else
      var first :=
        if children[0].Directory? then WalkTree(t, children[0], ChildPath(path, children[0].name), env)
        else Walked(t, false);
      var rest := WalkSubdirectories(first.tables, path, children[1..], env);
      Walked(rest.tables, first.failed || rest.failed)
  }
}
