/**
  The `DB` class of src/main/DB/DB.js as an object whose fields are the tables. Every method runs the
  statements of its JavaScript counterpart one after the other and leaves the tables as the matching
  function of `LibraryIngest` or `LibraryEdits` says; the lemmas about those functions then tell what
  the methods achieve. Awaited or not, the statements are taken in program order.
*/
module LibraryStore {
  import opened Wrappers
  import opened Seqs
  import opened Text
  import opened LibrarySchema
  import opened LibraryIngest
  import opened LibraryEdits
  import IngestProperties
  import WalkProperties
  import EditProperties

  /**
    The labelled loop of `createAlbum`: image formats in order, for each the names "cover", "Cover"
    and the track title, stopping at the first file that exists.
  */
  method FindCoverFile(directory: string, title: Option<string>, existing: set<string>) returns (found: Option<string>)
    ensures found == ScanCover(directory, title, existing)
  {
    var names := CoverNames(title);
    ghost var candidates := CoverCandidates(directory, title);
    found := None;
    var f := 0;
    label formats: while f < |SupportedImageFormats|
      invariant 0 <= f <= |SupportedImageFormats|
      invariant found.None?
      invariant forall k :: 0 <= k < 3 * f ==> candidates[k] !in existing
    {
      var n := 0;
      while n < |names|
        invariant 0 <= n <= |names|
        invariant found.None?
        invariant forall k :: 0 <= k < 3 * f + n ==> candidates[k] !in existing
      {
        var candidate := directory + "/" + names[n] + SupportedImageFormats[f];
        CandidateAt(directory, title, f, n);
        if candidate in existing {
          found := Some(candidate);
          FirstIndexAt(candidates, (c: string) => c in existing, 3 * f + n);
          break formats;
        }
        n := n + 1;
      }
      f := f + 1;
    }
  }

  /** The candidate probed for format `f` and name `n`. */
  lemma CandidateAt(directory: string, title: Option<string>, f: nat, n: nat)
    requires f < |SupportedImageFormats| && n < |CoverNames(title)|
    ensures CoverCandidates(directory, title)[3 * f + n] == directory + "/" + CoverNames(title)[n] + SupportedImageFormats[f]
  {
    var k := 3 * f + n;
    assert k % 3 == n && k / 3 == f;
  }

  /** The loop of `createGenre`: the trimmed pieces of the tag, inserted one after the other. */
  method GenreRows(genres: seq<Genre>, albumID: nat, tag: string) returns (rows: seq<Genre>)
    ensures rows == LibraryIngest.CreateGenre(genres, albumID, tag)
  {
    var pieces := SplitGenres(tag);
    ghost var tokens := GenreTokens(tag);
    ghost var target := InsertGenres(genres, albumID, tokens);
    rows := genres;
    for i := 0 to |pieces|
      invariant |pieces| == |tokens|
      invariant InsertGenres(rows, albumID, tokens[i..]) == target
    {
      var token := Trim(pieces[i]);
      GenreTokenAt(tag, i);
      InsertGenresStep(rows, albumID, tokens, i);
      rows := InsertGenre(rows, Genre(albumID, token));
    }
    assert tokens[|pieces|..] == [];
  }

  class Store {
    var albums: seq<Album>
    var tracks: seq<Track>
    var artists: seq<Artist>
    var genres: seq<Genre>
    var albumSeq: nat
    var trackSeq: nat
    var artistSeq: nat

    /** The database the object holds. */
    function State(): Tables
      reads this
    {
      Tables(albums, tracks, artists, genres, albumSeq, trackSeq, artistSeq)
    }

    ghost predicate Valid()
      reads this
    {
      Consistent(State())
    }

    /** `create`: the empty tables of the schema. */
    constructor()
      ensures State() == EmptyTables && Valid()
    {
      albums, tracks, artists, genres := [], [], [], [];
      albumSeq, trackSeq, artistSeq := 0, 0, 0;
    }

    /**
      `createArtist(name)`: insert the row and return its id. The schema puts no UNIQUE on the name;
      names stay unique because every caller looks the name up first.
    */
    method CreateArtist(name: Option<string>) returns (id: nat)
      modifies this
      ensures WithId(State(), id) == InsertArtist(old(State()), name)
      ensures old(Valid()) && ArtistNamed(old(artists), name).None? ==> Valid()
    {
      if Valid() && ArtistNamed(artists, name).None? {
        IngestProperties.ResolveArtistFacts(State(), name);
      }
      artistSeq := artistSeq + 1;
      id := artistSeq;
      artists := artists + [Artist(id, name)];
    }

    /** `createGenre(tag, albumID)`: one `INSERT OR IGNORE` per trimmed piece of the tag. */
    method CreateGenre(tag: string, albumID: nat)
      modifies this
      ensures State() == old(State()).(genres := LibraryIngest.CreateGenre(old(genres), albumID, tag))
      ensures old(Valid()) ==> Valid()
    {
      ghost var t0, wasValid := State(), Valid();
      genres := GenreRows(genres, albumID, tag);
      if wasValid {
        IngestProperties.CreateGenreKeepsConsistent(t0, albumID, tag);
      }
    }

    /**
      `addCover(source, type, albumID, directory)`, its database write: the cover folder path of the
      copy. Without a directory the album's first track is looked up, and its absence is an error.
    */
    method AddCover(source: CoverSource, albumID: nat, directory: Option<string>, env: Env)
      modifies this
      ensures State() == StoreCover(old(State()), source, albumID, directory, env)
      ensures old(Valid()) ==> Valid()
    {
      IngestProperties.StoreCoverFrame(State(), source, albumID, directory, env);
      if !Truthy(directory) {
        var first := TrackOfAlbum(tracks, albumID);
        if first.None? {
          return;
        }
      }
      var extension := CoverExtension(source);
      albums := SetCoverPath(albums, albumID, CoverPath(env.coverFolder, albumID, extension, env.now));
    }

    /**
      `createAlbum(firstTrack, directory)`: the artist by name or a new one, the album row, then the
      embedded picture and the first cover file of the directory.
    */
    method CreateAlbum(m: Metadata, k: AlbumKey, env: Env) returns (id: nat)
      modifies this
      ensures WithId(State(), id) == NewAlbum(old(State()), m, k, env)
      ensures old(Valid()) ==> Valid()
    {
      ghost var t0, wasValid := State(), Valid();
      ghost var resolved := ResolveArtist(t0, k.artist);
      var artistID: nat;
      var artist := ArtistNamed(artists, k.artist);
      if artist.Some? {
        artistID := artists[artist.value].id;
      } else {
        artistID := CreateArtist(k.artist);
      }
      assert State() == resolved.tables && artistID == resolved.id;
      albumSeq := albumSeq + 1;
      id := albumSeq;
      albums := albums + [Album(id, k.title, k.directory, artistID, DiscCount(m), None)];
      ghost var inserted := InsertAlbum(resolved.tables, k.title, k.directory, artistID, DiscCount(m));
      assert State() == inserted.tables && id == inserted.id;
      if m.picture.Some? {
        AddCover(EmbeddedPicture(m.picture.value), id, Some(k.directory), env);
      }
      var cover := FindCoverFile(k.directory, m.title, env.existing);
      if cover.Some? {
        AddCover(CoverFile(cover.value), id, Some(k.directory), env);
      }
      if wasValid {
        IngestProperties.NewAlbumKeepsConsistent(t0, m, k, env);
      }
    }

    /**
      `createTrack(path)`: `ok` is false when the tags cannot be parsed, and then nothing was written.
    */
    method CreateTrack(path: string, env: Env) returns (ok: bool)
      modifies this
      ensures ok <==> Ingest(old(State()), path, env).Some?
      ensures State() == Ingest(old(State()), path, env).GetOr(old(State()))
      ensures old(Valid()) ==> Valid()
    {
      if Valid() {
        IngestProperties.IngestPreservesConsistent(State(), path, env);
      }
      if ExtName(path) !in SupportedAudioFormats {
        return true;
      }
      if TrackWithPath(tracks, path).Some? {
        return true;
      }
      if path !in env.tags {
        return false;
      }
      AddParsedTrack(path, env);
      ok := true;
    }

    /** The part of `createTrack` after the tags were parsed: album, track row, genres. */
    method AddParsedTrack(path: string, env: Env)
      requires Admits(State(), path) && path in env.tags
      modifies this
      ensures Ingest(old(State()), path, env) == Some(State())
      ensures old(Valid()) ==> Valid()
    {
      if Valid() {
        IngestProperties.IngestPreservesConsistent(State(), path, env);
      }
      ghost var t0 := State();
      var m := env.tags[path];
      var key := AlbumKeyOf(m, path);
      var albumID := FindOrCreateAlbumOf(m, key, env);
      ghost var w := FindOrCreateAlbum(t0, m, key, env);
      AddTrackRow(TrackTitle(m), m.composer, albumID, m.trackNo, DiscNumber(m), path);
      ghost var t1 := InsertTrack(w.tables, TrackTitle(m), m.composer, w.id, m.trackNo, DiscNumber(m), path).tables;
      assert State() == t1;
      AddGenres(albumID, m.genre);
    }

    /** The album lookup of `createTrack`: the album with the file's identity, or a new one. */
    method FindOrCreateAlbumOf(m: Metadata, key: AlbumKey, env: Env) returns (albumID: nat)
      modifies this
      ensures WithId(State(), albumID) == FindOrCreateAlbum(old(State()), m, key, env)
      ensures old(Valid()) ==> Valid()
    {
      if Valid() {
        IngestProperties.FindOrCreateAlbumFacts(State(), m, key, env);
      }
      var album := AlbumWithIdentity(albums, key.title, key.directory);
      if album.Some? {
        albumID := albums[album.value].id;
      } else {
        albumID := CreateAlbum(m, key, env);
      }
    }

    /** The `INSERT INTO tracks` of `createTrack`. */
    method AddTrackRow(title: string, composer: Option<string>, albumID: nat, trackOrder: Option<int>, disc: int, path: string)
      modifies this
      ensures State() == InsertTrack(old(State()), title, composer, albumID, trackOrder, disc, path).tables
      ensures old(Valid()) && albumID in AlbumIdList(old(albums)) && TrackWithPath(old(tracks), path).None? ==> Valid()
    {
      if Valid() && albumID in AlbumIdList(albums) && TrackWithPath(tracks, path).None? {
        IngestProperties.InsertTrackFacts(State(), title, composer, albumID, trackOrder, disc, path);
      }
      trackSeq := trackSeq + 1;
      tracks := tracks + [Track(trackSeq, title, composer, albumID, trackOrder, disc, path)];
    }

    /** The genre loop of `createTrack`: `createGenre` for every genre tag, in order. */
    method AddGenres(albumID: nat, tags: seq<string>)
      modifies this
      ensures State() == old(State()).(genres := AddTagGenres(old(genres), albumID, tags))
      ensures old(Valid()) ==> Valid()
    {
      IngestProperties.AddTagGenresContents(genres, albumID, tags);
      ghost var target := AddTagGenres(genres, albumID, tags);
      var i := 0;
      while i < |tags|
        invariant 0 <= i <= |tags|
        invariant State() == old(State()).(genres := genres)
        invariant AddTagGenres(genres, albumID, tags[i..]) == target
      {
        assert tags[i..][0] == tags[i] && tags[i..][1..] == tags[i + 1..];
        CreateGenre(tags[i], albumID);
        i := i + 1;
      }
    }

    /** `processDirectoryFiles(paths)`: the files in order; a file that cannot be parsed ends the batch. */
    method ProcessDirectoryFiles(paths: seq<string>, env: Env) returns (failed: bool)
      modifies this
      ensures Walked(State(), failed) == WalkFiles(old(State()), paths, env)
      ensures old(Valid()) ==> Valid()
    {
      if Valid() {
        WalkProperties.WalkFilesPreservesConsistent(State(), paths, env);
      }
      failed := false;
      var i := 0;
      while i < |paths|
        invariant 0 <= i <= |paths|
        invariant WalkFiles(State(), paths[i..], env) == WalkFiles(old(State()), paths, env)
      {
        assert paths[i..][0] == paths[i] && paths[i..][1..] == paths[i + 1..];
        var ok := CreateTrack(paths[i], env);
        if !ok {
          failed := true;
          return;
        }
        i := i + 1;
      }
    }

    /**
      `openDirectory(path)`: each subdirectory walked in listing order, the files collected, then the
      files processed. `failed` says that some file below could not be parsed.
    */
    method OpenDirectory(path: string, node: Node, env: Env) returns (failed: bool)
      requires node.Directory?
      modifies this
      decreases node, 1
      ensures Walked(State(), failed) == WalkTree(old(State()), node, path, env)
      ensures old(Valid()) ==> Valid()
    {
      ghost var t0 := State();
      ghost var wasValid := Valid();
      var subFailed, filePaths := OpenSubdirectories(path, node, env);
      var f := ProcessDirectoryFiles(filePaths, env);
      DirectoryWalk(t0, node, path, env);
      failed := subFailed || f;
      if wasValid {
        WalkProperties.WalkPreservesConsistent(t0, node, path, env);
      }
    }

    /** The loop of `openDirectory`: subdirectories are walked at once, file paths collected for later. */
    method OpenSubdirectories(path: string, node: Node, env: Env) returns (failed: bool, filePaths: seq<string>)
      requires node.Directory?
      modifies this
      decreases node, 0
      ensures Walked(State(), failed) == WalkSubdirectories(old(State()), path, node.children, env)
      ensures filePaths == FilePaths(path, node.children)
    {
      var children := node.children;
      ghost var sub := WalkSubdirectories(State(), path, children, env);
      filePaths := [];
      failed := false;
      var i := 0;
      while i < |children|
        invariant 0 <= i <= |children|
        invariant var rest := WalkSubdirectories(State(), path, children[i..], env);
          Walked(rest.tables, failed || rest.failed) == sub
        invariant filePaths + FilePaths(path, children[i..]) == FilePaths(path, children)
      {
        var child := children[i];
        SubdirectoryStep(State(), path, children, i, env);
        var childPath := ChildPath(path, child.name);
        if child.Directory? {
          var f := OpenDirectory(childPath, child, env);
          failed := failed || f;
        } else if child.File? {
          filePaths := filePaths + [childPath];
        }
        i := i + 1;
      }
      assert children[i..] == [];
    }

    /** `openPath(path)`: a file is added, a directory walked, anything else ignored. */
    method OpenPath(path: string, node: Node, env: Env) returns (failed: bool)
      modifies this
      ensures Walked(State(), failed) == WalkTree(old(State()), node, path, env)
      ensures old(Valid()) ==> Valid()
    {
      match node
      case File(_) =>
        var ok := CreateTrack(path, env);
        failed := !ok;
      case Directory(_, _) =>
        failed := OpenDirectory(path, node, env);
      case Other(_) =>
        failed := false;
    }

    /**
      `deleteAlbum(albumID)`: the album's tracks, then the album row. The artist row and the genre rows
      stay; an unknown id makes the code fail after the tracks' DELETE.
    */
    method DeleteAlbum(albumID: nat)
      modifies this
      ensures State() == RemoveAlbum(old(State()), albumID)
      ensures old(Valid()) ==> Valid()
    {
      if Valid() {
        EditProperties.RemoveAlbumPreservesConsistent(State(), albumID);
      }
      tracks := Filter(tracks, (k: Track) => k.albumID != albumID);
      var album := AlbumWithId(albums, albumID);
      if album.None? {
        FilterKeepsAll(albums, (a: Album) => a.id != albumID);
        return;
      }
      albums := Filter(albums, (a: Album) => a.id != albumID);
    }

    /**
      `updateAlbumInfo(albumID, info)`, its database half: the artist by name or a new one, the album's
      title and artist, then its genres replaced by those of the names joined with ", ".
    */
    method UpdateAlbumInfo(albumID: nat, title: string, artist: string, genreNames: seq<string>)
      modifies this
      ensures State() == EditAlbum(old(State()), albumID, title, artist, genreNames)
      ensures old(Valid()) ==> Valid()
    {
      if Valid() {
        EditProperties.EditAlbumPreservesConsistent(State(), albumID, title, artist, genreNames);
      }
      var artistID: nat;
      var found := ArtistNamed(artists, Some(artist));
      if found.None? {
        artistID := CreateArtist(Some(artist));
      } else {
        artistID := artists[found.value].id;
      }
      albums := RetitleAlbum(albums, albumID, title, artistID);
      genres := Filter(genres, (g: Genre) => g.albumID != albumID);
      if |genreNames| > 0 {
        CreateGenre(Join(genreNames, ", "), albumID);
      }
    }

    /** `updateTrackInfo(trackID, info)`, its database half. */
    method UpdateTrackInfo(trackID: nat, title: string, composer: Option<string>)
      modifies this
      ensures State() == EditTrack(old(State()), trackID, title, composer)
      ensures old(Valid()) ==> Valid()
    {
      if Valid() {
        EditProperties.EditTrackEffect(State(), trackID, title, composer);
      }
      var rows := tracks;
      tracks := seq(|rows|, i requires 0 <= i < |rows| =>
        if rows[i].id == trackID then rows[i].(title := title, composer := composer) else rows[i]);
    }
  }

  lemma GenreTokenAt(tag: string, i: nat)
    requires i < |SplitGenres(tag)|
    ensures |GenreTokens(tag)| == |SplitGenres(tag)| && GenreTokens(tag)[i] == Trim(SplitGenres(tag)[i])
  {
  }

  lemma InsertGenresStep(genres: seq<Genre>, albumID: nat, tokens: seq<string>, i: nat)
    requires i < |tokens|
    ensures InsertGenres(genres, albumID, tokens[i..]) ==
      InsertGenres(InsertGenre(genres, Genre(albumID, tokens[i])), albumID, tokens[i + 1..])
  {
    assert tokens[i..][0] == tokens[i] && tokens[i..][1..] == tokens[i + 1..];
  }

  /** One step of the subdirectory loop of `openDirectory`. */
  lemma SubdirectoryStep(t: Tables, path: string, children: seq<Node>, i: nat, env: Env)
    requires i < |children|
    ensures FilePaths(path, children[i..]) ==
      (if children[i].File? then [ChildPath(path, children[i].name)] else []) + FilePaths(path, children[i + 1..])
    ensures WalkSubdirectories(t, path, children[i..], env) ==
      var first := if children[i].Directory? then WalkTree(t, children[i], ChildPath(path, children[i].name), env)
                   else Walked(t, false);
      var rest := WalkSubdirectories(first.tables, path, children[i + 1..], env);
      Walked(rest.tables, first.failed || rest.failed)
  {
    assert children[i..][0] == children[i] && children[i..][1..] == children[i + 1..];
  }

  lemma DirectoryWalk(t: Tables, node: Node, path: string, env: Env)
    requires node.Directory?
    ensures WalkTree(t, node, path, env) ==
      var sub := WalkSubdirectories(t, path, node.children, env);
      var files := WalkFiles(sub.tables, FilePaths(path, node.children), env);
      Walked(files.tables, sub.failed || files.failed)
  {
  }
}
