/**
  What ingestion guarantees: the tables stay consistent, a file is ingested at most once, tracks of
  one album identity share one album row, genres collapse per album, and the newest cover wins.
*/
module IngestProperties {
  import opened Wrappers
  import opened Seqs
  import opened Text
  import opened LibrarySchema
  import opened LibraryIngest

  // ---------------------------------------------------------------------------------------------
  // Genres

  /**
    `INSERT OR IGNORE` for a list of tokens keeps the old rows in place and adds exactly the missing
    pairs: the rows afterwards are the old ones plus one per token, each once.
  */
  lemma {:induction false} InsertGenresContents(genres: seq<Genre>, albumID: nat, tokens: seq<string>)
    ensures genres <= InsertGenres(genres, albumID, tokens)
    ensures forall g :: g in InsertGenres(genres, albumID, tokens) <==>
      g in genres || (g.albumID == albumID && g.genre in tokens)
    ensures NoDuplicates(genres) ==> NoDuplicates(InsertGenres(genres, albumID, tokens))
    decreases |tokens|
  {
    if |tokens| > 0 {
      var next := InsertGenre(genres, Genre(albumID, tokens[0]));
      InsertGenresContents(next, albumID, tokens[1..]);
      forall g ensures g in tokens[1..] || g == tokens[0] <==> g in tokens {
        if g in tokens {
          var k :| 0 <= k < |tokens| && tokens[k] == g;
          if k > 0 { assert tokens[1..][k - 1] == g; }
        }
      }
    }
  }

  /** The rows of one more genre tag keep the tables consistent. */
  lemma CreateGenreKeepsConsistent(t: Tables, albumID: nat, tag: string)
    requires Consistent(t)
    ensures Consistent(t.(genres := CreateGenre(t.genres, albumID, tag)))
  {
    InsertGenresContents(t.genres, albumID, GenreTokens(tag));
  }

  /** Inserting pairs that are all present already changes nothing. */
  lemma {:induction false} InsertGenresPresent(genres: seq<Genre>, albumID: nat, tokens: seq<string>)
    requires forall k :: 0 <= k < |tokens| ==> Genre(albumID, tokens[k]) in genres
    ensures InsertGenres(genres, albumID, tokens) == genres
    decreases |tokens|
  {
    if |tokens| > 0 {
      InsertGenresPresent(genres, albumID, tokens[1..]);
    }
  }

  /** Creating a genre tag for an album a second time adds no rows. */
  lemma CreateGenreIdempotent(genres: seq<Genre>, albumID: nat, tag: string)
    ensures CreateGenre(CreateGenre(genres, albumID, tag), albumID, tag) == CreateGenre(genres, albumID, tag)
  {
    var tokens := GenreTokens(tag);
    InsertGenresContents(genres, albumID, tokens);
    InsertGenresPresent(CreateGenre(genres, albumID, tag), albumID, tokens);
  }

  /** Every genre name stored is a trimmed piece of a tag: no delimiter, no white space at its ends. */
  lemma GenreTokensNormalized(tag: string)
    ensures forall k :: 0 <= k < |GenreTokens(tag)| ==>
      var g := GenreTokens(tag)[k];
      (forall c :: c in g ==> !IsGenreDelimiter(c)) && (|g| == 0 || (!IsSpace(g[0]) && !IsSpace(g[|g| - 1])))
  {
    var parts := SplitGenres(tag);
    forall k | 0 <= k < |parts|
      ensures forall c :: c in Trim(parts[k]) ==> !IsGenreDelimiter(c)
    {
      var s := TrimStart(parts[k]);
      assert forall c :: c in s ==> c in parts[k];
      assert forall c :: c in TrimEnd(s) ==> c in s;
    }
  }

  /** The genres of all tags of a file end up as rows of its album, and nothing else is added. */
  lemma {:induction false} AddTagGenresContents(genres: seq<Genre>, albumID: nat, tags: seq<string>)
    ensures genres <= AddTagGenres(genres, albumID, tags)
    ensures forall g :: g in AddTagGenres(genres, albumID, tags) <==>
      g in genres || (g.albumID == albumID && exists i :: 0 <= i < |tags| && g.genre in GenreTokens(tags[i]))
    ensures NoDuplicates(genres) ==> NoDuplicates(AddTagGenres(genres, albumID, tags))
    decreases |tags|
  {
    if |tags| > 0 {
      var next := CreateGenre(genres, albumID, tags[0]);
      InsertGenresContents(genres, albumID, GenreTokens(tags[0]));
      AddTagGenresContents(next, albumID, tags[1..]);
      forall g: Genre
        ensures (g.genre in GenreTokens(tags[0]) || exists i :: 0 <= i < |tags[1..]| && g.genre in GenreTokens(tags[1..][i]))
          <==> exists i :: 0 <= i < |tags| && g.genre in GenreTokens(tags[i])
      {
        TokensSplit(tags, g.genre);
      }
    }
  }

  /** A token of some tag is a token of the first tag or of some later one. */
  lemma TokensSplit(tags: seq<string>, s: string)
    requires |tags| > 0
    ensures (s in GenreTokens(tags[0]) || exists i :: 0 <= i < |tags[1..]| && s in GenreTokens(tags[1..][i]))
      <==> exists i :: 0 <= i < |tags| && s in GenreTokens(tags[i])
  {
    ExistsWithHead(tags, (tag: string) => s in GenreTokens(tag));
  }

  // ---------------------------------------------------------------------------------------------
  // Covers

  /** Storing a cover at another time gives another path, so a changed cover is never served from cache. */
  lemma CoverPathCacheBusting(folder: string, albumID: nat, extension: string, now1: nat, now2: nat)
    requires now1 != now2
    ensures CoverPath(folder, albumID, extension, now1) != CoverPath(folder, albumID, extension, now2)
  {
    var prefix := folder + "/" + Decimal(albumID) + extension + "?t=";
    assert CoverPath(folder, albumID, extension, now1) == prefix + Decimal(now1);
    assert CoverPath(folder, albumID, extension, now2) == prefix + Decimal(now2);
    if prefix + Decimal(now1) == prefix + Decimal(now2) {
      assert (prefix + Decimal(now1))[|prefix|..] == Decimal(now1);
      assert (prefix + Decimal(now2))[|prefix|..] == Decimal(now2);
      DecimalRoundTrip(now1);
      DecimalRoundTrip(now2);
    }
  }

  /** `addCover` touches only the coverPath of the rows with that id. */
  lemma StoreCoverFrame(t: Tables, source: CoverSource, albumID: nat, directory: Option<string>, env: Env)
    ensures var r := StoreCover(t, source, albumID, directory, env);
      && r.tracks == t.tracks && r.artists == t.artists && r.genres == t.genres
      && r.albumSeq == t.albumSeq && r.trackSeq == t.trackSeq && r.artistSeq == t.artistSeq
      && AlbumIdList(r.albums) == AlbumIdList(t.albums)
      && (forall i :: 0 <= i < |t.albums| && t.albums[i].id != albumID ==> r.albums[i] == t.albums[i])
      && (forall i :: 0 <= i < |t.albums| ==> r.albums[i].(coverPath := t.albums[i].coverPath) == t.albums[i])
    ensures Consistent(t) ==> Consistent(StoreCover(t, source, albumID, directory, env))
  {
    var r := StoreCover(t, source, albumID, directory, env);
    assert AlbumIdList(r.albums) == AlbumIdList(t.albums);
  }

  /** A candidate that exists and is probed no later than another existing one is the one found. */
  lemma ScanCoverPrefersEarlier(directory: string, title: Option<string>, existing: set<string>, j: nat)
    requires j < 12 && CoverCandidates(directory, title)[j] in existing
    ensures ScanCover(directory, title, existing).Some?
    ensures exists i :: 0 <= i <= j && ScanCover(directory, title, existing) == Some(CoverCandidates(directory, title)[i])
    ensures ScanCover(directory, title, existing).value in existing
  {
    var candidates := CoverCandidates(directory, title);
    var found := FirstIndex(candidates, (c: string) => c in existing);
    assert found.Some?;
    assert found.value <= j;
  }

  // ---------------------------------------------------------------------------------------------
  // Albums

  /** The artist `createAlbum` resolves exists afterwards; only the artists table may grow. */
  lemma ResolveArtistFacts(t: Tables, name: Option<string>)
    requires Consistent(t)
    ensures var r := ResolveArtist(t, name);
      && Consistent(r.tables) && r.id in ArtistIdList(r.tables.artists)
      && r.tables.albums == t.albums && r.tables.tracks == t.tracks && r.tables.genres == t.genres
      && r.tables.albumSeq == t.albumSeq && r.tables.trackSeq == t.trackSeq
  {
    var r := ResolveArtist(t, name);
    match ArtistNamed(t.artists, name) {
      case Some(i) =>
        assert ArtistIdList(t.artists)[i] == r.id;
      case None =>
        assert ArtistIdList(r.tables.artists) == ArtistIdList(t.artists) + [r.id];
    }
  }

  /** An inserted album gets an id no earlier album has, and keeps the tables consistent. */
  lemma InsertAlbumFacts(t: Tables, title: string, directory: string, artistID: nat, discCount: int)
    requires Consistent(t) && artistID in ArtistIdList(t.artists)
    ensures var r := InsertAlbum(t, title, directory, artistID, discCount);
      && Consistent(r.tables)
      && forall i :: 0 <= i < |t.albums| ==> t.albums[i].id != r.id
  {
    var r := InsertAlbum(t, title, directory, artistID, discCount);
    assert AlbumIdList(r.tables.albums) == AlbumIdList(t.albums) + [r.id];
    forall i | 0 <= i < |t.albums| ensures t.albums[i].id != r.id {
      assert AlbumIdList(t.albums)[i] == t.albums[i].id;
    }
  }

  /** Storing a cover for `id` leaves every album of another id as it was. */
  lemma StoreCoverKeepsOthers(t: Tables, prefix: seq<Album>, source: CoverSource, id: nat, directory: Option<string>, env: Env)
    requires prefix <= t.albums && forall i :: 0 <= i < |prefix| ==> prefix[i].id != id
    ensures prefix <= StoreCover(t, source, id, directory, env).albums
  {
    StoreCoverFrame(t, source, id, directory, env);
  }

  /** A new album row, with its artist and covers, keeps the tables consistent. */
  lemma NewAlbumKeepsConsistent(t: Tables, m: Metadata, k: AlbumKey, env: Env)
    requires Consistent(t)
    ensures Consistent(NewAlbum(t, m, k, env).tables)
  {
    NewAlbumFacts(t, m, k, env);
  }

  /**
    `createAlbum` appends exactly one album, with the next id, the key's title and directory and an
    existing artist (the first one with that name, or a new one), and leaves tracks and genres alone.
  */
  lemma NewAlbumFacts(t: Tables, m: Metadata, k: AlbumKey, env: Env)
    requires Consistent(t)
    ensures var w := NewAlbum(t, m, k, env);
      && w.id == t.albumSeq + 1 == w.tables.albumSeq
      && w.tables.tracks == t.tracks && w.tables.genres == t.genres && w.tables.trackSeq == t.trackSeq
      && |w.tables.albums| == |t.albums| + 1 && t.albums <= w.tables.albums
      && w.tables.albums[|t.albums|].id == w.id
      && w.tables.albums[|t.albums|].title == k.title
      && w.tables.albums[|t.albums|].directory == k.directory
      && w.tables.albums[|t.albums|].discCount == DiscCount(m)
      && w.tables.albums[|t.albums|].artistID == ResolveArtist(t, k.artist).id
      && w.tables.artists == ResolveArtist(t, k.artist).tables.artists
      && Consistent(w.tables)
  {
    var artist := ResolveArtist(t, k.artist);
    ResolveArtistFacts(t, k.artist);
    var inserted := InsertAlbum(artist.tables, k.title, k.directory, artist.id, DiscCount(m));
    InsertAlbumFacts(artist.tables, k.title, k.directory, artist.id, DiscCount(m));
    var id := inserted.id;
    var t2 := inserted.tables;
    var embedded := t2;
    if m.picture.Some? {
      StoreCoverFrame(t2, EmbeddedPicture(m.picture.value), id, Some(k.directory), env);
      StoreCoverKeepsOthers(t2, t.albums, EmbeddedPicture(m.picture.value), id, Some(k.directory), env);
      embedded := StoreCover(t2, EmbeddedPicture(m.picture.value), id, Some(k.directory), env);
    }
    match ScanCover(k.directory, m.title, env.existing) {
      case Some(p) =>
        StoreCoverFrame(embedded, CoverFile(p), id, Some(k.directory), env);
        StoreCoverKeepsOthers(embedded, t.albums, CoverFile(p), id, Some(k.directory), env);
      case None =>
    }
  }

  /**
    The cover of a new album: the first cover file found in its directory if there is one, otherwise
    the embedded picture, otherwise none.
  */
  lemma NewAlbumCover(t: Tables, m: Metadata, k: AlbumKey, env: Env)
    requires Consistent(t) && k.directory != ""
    ensures var w := NewAlbum(t, m, k, env);
      w.tables.albums[|t.albums|].coverPath ==
        match ScanCover(k.directory, m.title, env.existing)
        case Some(p) => Some(CoverPath(env.coverFolder, w.id, ExtName(p), env.now))
        case None =>
          if m.picture.Some? then Some(CoverPath(env.coverFolder, w.id, ImageExtension(m.picture.value), env.now))
          else None
  {
    NewAlbumFacts(t, m, k, env);
  }

  /** The album `createTrack` files a track under is the first album with the track's identity. */
  lemma FindOrCreateAlbumFacts(t: Tables, m: Metadata, k: AlbumKey, env: Env)
    requires Consistent(t)
    ensures var w := FindOrCreateAlbum(t, m, k, env);
      && Consistent(w.tables)
      && w.tables.tracks == t.tracks && w.tables.genres == t.genres && w.tables.trackSeq == t.trackSeq
      && |w.tables.albums| <= |t.albums| + 1 && t.albums <= w.tables.albums
      && AlbumWithIdentity(w.tables.albums, k.title, k.directory).Some?
      && w.tables.albums[AlbumWithIdentity(w.tables.albums, k.title, k.directory).value].id == w.id
      && w.id in AlbumIdList(w.tables.albums)
      && (AlbumWithIdentity(t.albums, k.title, k.directory).Some? ==> w.tables == t)
  {
    var w := FindOrCreateAlbum(t, m, k, env);
    match AlbumWithIdentity(t.albums, k.title, k.directory) {
      case Some(i) =>
        assert AlbumIdList(t.albums)[i] == w.id;
      case None =>
        NewAlbumFacts(t, m, k, env);
        var albums := w.tables.albums;
        assert AlbumIdList(albums)[|t.albums|] == w.id;
        var found := AlbumWithIdentity(albums, k.title, k.directory);
        assert found == Some(|t.albums|) by {
          forall j | 0 <= j < |t.albums|
            ensures !(albums[j].title == k.title && albums[j].directory == k.directory)
          {
            assert albums[j] == t.albums[j];
          }
        }
    }
  }

  // ---------------------------------------------------------------------------------------------
  // Ingesting one file

  /**
    A newly admitted file becomes exactly one new track at the end of the table, with the next id,
    the defaulted title and disc, and the first album of its identity; its album gets the file's genres.
  */
  lemma IngestNewTrack(t: Tables, path: string, env: Env)
    requires Consistent(t) && Admits(t, path) && path in env.tags
    ensures Ingest(t, path, env).Some?
    ensures var r := Ingest(t, path, env).value;
      var m := env.tags[path];
      var k := AlbumKeyOf(m, path);
      && |r.tracks| == |t.tracks| + 1 && t.tracks <= r.tracks
      && t.albums <= r.albums && |r.albums| <= |t.albums| + 1
      && var nt := r.tracks[|t.tracks|];
      && nt.id == t.trackSeq + 1 && nt.path == path
      && nt.title == TrackTitle(m) && nt.composer == m.composer && nt.trackOrder == m.trackNo
      && nt.disc == DiscNumber(m)
      && AlbumWithIdentity(r.albums, k.title, k.directory).Some?
      && r.albums[AlbumWithIdentity(r.albums, k.title, k.directory).value].id == nt.albumID
      && (AlbumWithIdentity(t.albums, k.title, k.directory).None? ==>
            && |r.albums| == |t.albums| + 1 && r.albums[|t.albums|].id == nt.albumID
            && r.albums[|t.albums|].artistID == ResolveArtist(t, k.artist).id)
      && t.genres <= r.genres
      && (forall g :: g in r.genres <==>
            g in t.genres ||
            (g.albumID == nt.albumID && exists i :: 0 <= i < |m.genre| && g.genre in GenreTokens(m.genre[i])))
  {
    var m := env.tags[path];
    var k := AlbumKeyOf(m, path);
    FindOrCreateAlbumFacts(t, m, k, env);
    if AlbumWithIdentity(t.albums, k.title, k.directory).None? {
      NewAlbumFacts(t, m, k, env);
    }
    var album := FindOrCreateAlbum(t, m, k, env);
    AddTagGenresContents(album.tables.genres, album.id, m.genre);
  }

  /** A track inserted with a new path and an existing album keeps the tables consistent. */
  lemma InsertTrackFacts(
    t: Tables, title: string, composer: Option<string>, albumID: nat, trackOrder: Option<int>, disc: int, path: string)
    requires Consistent(t) && albumID in AlbumIdList(t.albums) && TrackWithPath(t.tracks, path).None?
    ensures Consistent(InsertTrack(t, title, composer, albumID, trackOrder, disc, path).tables)
  {
    var r := InsertTrack(t, title, composer, albumID, trackOrder, disc, path);
    assert TrackIdList(r.tables.tracks) == TrackIdList(t.tracks) + [r.id];
  }

  /** Ingesting keeps the tables consistent. */
  lemma IngestPreservesConsistent(t: Tables, path: string, env: Env)
    requires Consistent(t)
    ensures Ingest(t, path, env).Some? ==> Consistent(Ingest(t, path, env).value)
  {
    if Admits(t, path) && path in env.tags {
      var m := env.tags[path];
      var k := AlbumKeyOf(m, path);
      FindOrCreateAlbumFacts(t, m, k, env);
      var album := FindOrCreateAlbum(t, m, k, env);
      var t1 := album.tables;
      InsertTrackFacts(t1, TrackTitle(m), m.composer, album.id, m.trackNo, DiscNumber(m), path);
      var t2 := InsertTrack(t1, TrackTitle(m), m.composer, album.id, m.trackNo, DiscNumber(m), path).tables;
      AddTagGenresContents(t2.genres, album.id, m.genre);
    }
  }

  /** A successful ingest only appends tracks. */
  lemma IngestExtendsTracks(t: Tables, path: string, env: Env)
    requires Ingest(t, path, env).Some?
    ensures t.tracks <= Ingest(t, path, env).value.tracks
  {
    if Admits(t, path) {
      var m := env.tags[path];
      var album := FindOrCreateAlbum(t, m, AlbumKeyOf(m, path), env);
      assert album.tables.tracks == t.tracks by {
        match AlbumWithIdentity(t.albums, AlbumKeyOf(m, path).title, AlbumKeyOf(m, path).directory) {
          case Some(_) =>
          case None =>
            var k := AlbumKeyOf(m, path);
            var artist := ResolveArtist(t, k.artist);
            var inserted := InsertAlbum(artist.tables, k.title, k.directory, artist.id, DiscCount(m));
            StoreCoverFrame(inserted.tables, EmbeddedPicture(m.picture.GetOr("")), inserted.id, Some(k.directory), env);
            var embedded :=
              if m.picture.Some? then StoreCover(inserted.tables, EmbeddedPicture(m.picture.value), inserted.id, Some(k.directory), env)
              else inserted.tables;
            match ScanCover(k.directory, m.title, env.existing) {
              case Some(p) => StoreCoverFrame(embedded, CoverFile(p), inserted.id, Some(k.directory), env);
              case None =>
            }
        }
      }
    }
  }

  /** A file already in the library is skipped: ingesting the same file again changes nothing. */
  lemma IngestIdempotent(t: Tables, path: string, env: Env)
    requires Ingest(t, path, env).Some?
    ensures !Admits(Ingest(t, path, env).value, path)
    ensures Ingest(Ingest(t, path, env).value, path, env) == Ingest(t, path, env)
  {
    var r := Ingest(t, path, env).value;
    if Admits(t, path) {
      IngestExtendsTracks(t, path, env);
      var m := env.tags[path];
      var album := FindOrCreateAlbum(t, m, AlbumKeyOf(m, path), env);
      assert r.tracks[|r.tracks| - 1].path == path;
      assert !Admits(r, path);
    }
  }

  /** A table that has a match in its prefix has the same first match in every extension. */
  lemma FirstMatchInPrefix(prefix: seq<Album>, albums: seq<Album>, title: string, directory: string)
    requires prefix <= albums && AlbumWithIdentity(prefix, title, directory).Some?
    ensures AlbumWithIdentity(albums, title, directory) == AlbumWithIdentity(prefix, title, directory)
  {
    var i := AlbumWithIdentity(prefix, title, directory).value;
    assert albums[i] == prefix[i];
    forall j | 0 <= j < i ensures !(albums[j].title == title && albums[j].directory == directory) {
      assert albums[j] == prefix[j];
    }
  }

  /** The facts about one admitted file that the lemmas on several files build on. */
  lemma Ingested(t: Tables, path: string, env: Env) returns (r: Tables, j: nat)
    requires Consistent(t) && Admits(t, path) && path in env.tags
    ensures Ingest(t, path, env) == Some(r) && Consistent(r)
    ensures |r.tracks| == |t.tracks| + 1 && t.tracks <= r.tracks && t.albums <= r.albums
    ensures AlbumWithIdentity(r.albums, AlbumKeyOf(env.tags[path], path).title, AlbumKeyOf(env.tags[path], path).directory) == Some(j)
    ensures j < |r.albums| && r.albums[j].id == r.tracks[|t.tracks|].albumID
  {
    IngestNewTrack(t, path, env);
    IngestPreservesConsistent(t, path, env);
    r := Ingest(t, path, env).value;
    var k := AlbumKeyOf(env.tags[path], path);
    j := AlbumWithIdentity(r.albums, k.title, k.directory).value;
  }

  /**
    Two files with the same album identity, ingested one after the other, are filed under the same
    album, whether that album existed before or was created by the first of them.
  */
  lemma SameIdentitySameAlbum(t: Tables, p1: string, p2: string, env: Env, t1: Tables, t2: Tables)
    requires Consistent(t) && Admits(t, p1) && p1 in env.tags && p2 in env.tags
    requires Ingest(t, p1, env) == Some(t1) && Admits(t1, p2) && Ingest(t1, p2, env) == Some(t2)
    requires AlbumKeyOf(env.tags[p1], p1).title == AlbumKeyOf(env.tags[p2], p2).title
    requires AlbumKeyOf(env.tags[p1], p1).directory == AlbumKeyOf(env.tags[p2], p2).directory
    ensures |t1.tracks| == |t.tracks| + 1 && |t2.tracks| == |t1.tracks| + 1
    ensures t2.tracks[|t.tracks|].albumID == t2.tracks[|t1.tracks|].albumID
  {
    var r1, j1 := Ingested(t, p1, env);
    var r2, j2 := Ingested(t1, p2, env);
    var k := AlbumKeyOf(env.tags[p1], p1);
    FirstMatchInPrefix(t1.albums, t2.albums, k.title, k.directory);
    assert t2.albums[j1] == t1.albums[j1];
    assert t2.tracks[|t.tracks|] == t1.tracks[|t.tracks|];
  }

  /** After resolving, the first artist with the name is the resolved one. */
  lemma ResolvedArtistNamed(t: Tables, artist: string)
    ensures var resolved := ResolveArtist(t, Some(artist));
      && ArtistNamed(resolved.tables.artists, Some(artist)).Some?
      && resolved.tables.artists[ArtistNamed(resolved.tables.artists, Some(artist)).value].id == resolved.id
      && resolved.tables.albums == t.albums && resolved.tables.tracks == t.tracks
  {
    var resolved := ResolveArtist(t, Some(artist));
    if ArtistNamed(t.artists, Some(artist)).None? {
      var n := |t.artists|;
      var artists := resolved.tables.artists;
      assert artists == t.artists + [Artist(resolved.id, Some(artist))];
      assert artists[n].name == Some(artist);
      assert FirstIndex(artists, (a: Artist) => a.name == Some(artist)) == Some(n) by {
        forall k | 0 <= k < n ensures artists[k].name != Some(artist) {
          assert artists[k] == t.artists[k];
        }
      }
    }
  }

  /**
    The first file without an album tag creates the album "Unknown album" in "/", filed under the
    first artist named "Unknown artist", which is created when there is none.
  */
  lemma UntaggedAlbumArtist(t: Tables, path: string, env: Env)
    requires Consistent(t) && Admits(t, path) && path in env.tags && !Truthy(env.tags[path].album)
    requires AlbumWithIdentity(t.albums, "Unknown album", "/").None?
    ensures Ingest(t, path, env).Some?
    ensures var r := Ingest(t, path, env).value;
      && |r.albums| == |t.albums| + 1 && |r.tracks| == |t.tracks| + 1
      && var a := r.albums[|t.albums|];
      && a.title == "Unknown album" && a.directory == "/" && a.id == r.tracks[|t.tracks|].albumID
      && ArtistNamed(r.artists, Some("Unknown artist")).Some?
      && r.artists[ArtistNamed(r.artists, Some("Unknown artist")).value].id == a.artistID
  {
    var m := env.tags[path];
    var k := AlbumKeyOf(m, path);
    NewAlbumFacts(t, m, k, env);
    ResolvedArtistNamed(t, "Unknown artist");
    IngestNewTrack(t, path, env);
  }

  /** All files without an album tag end up in one album, "Unknown album" in "/". */
  lemma UntaggedFilesShareAlbum(t: Tables, p1: string, p2: string, env: Env, t1: Tables, t2: Tables)
    requires Consistent(t) && Admits(t, p1) && p1 in env.tags && p2 in env.tags
    requires Ingest(t, p1, env) == Some(t1) && Admits(t1, p2) && Ingest(t1, p2, env) == Some(t2)
    requires !Truthy(env.tags[p1].album) && !Truthy(env.tags[p2].album)
    ensures |t1.tracks| == |t.tracks| + 1 && |t2.tracks| == |t1.tracks| + 1
    ensures t2.tracks[|t.tracks|].albumID == t2.tracks[|t1.tracks|].albumID
    ensures AlbumWithIdentity(t2.albums, "Unknown album", "/").Some?
    ensures t2.albums[AlbumWithIdentity(t2.albums, "Unknown album", "/").value].id == t2.tracks[|t1.tracks|].albumID
  {
    SameIdentitySameAlbum(t, p1, p2, env, t1, t2);
    var r1, j1 := Ingested(t, p1, env);
    var r2, j2 := Ingested(t1, p2, env);
  }

  /** Tagged files with the same album title in different directories get different albums. */
  lemma DifferentDirectoriesDifferentAlbums(t: Tables, p1: string, p2: string, env: Env, t1: Tables, t2: Tables)
    requires Consistent(t) && Admits(t, p1) && p1 in env.tags && p2 in env.tags
    requires Ingest(t, p1, env) == Some(t1) && Admits(t1, p2) && Ingest(t1, p2, env) == Some(t2)
    requires Truthy(env.tags[p1].album) && Truthy(env.tags[p2].album)
    requires DirName(p1) != DirName(p2)
    ensures |t1.tracks| == |t.tracks| + 1 && |t2.tracks| == |t1.tracks| + 1
    ensures t2.tracks[|t.tracks|].albumID != t2.tracks[|t1.tracks|].albumID
  {
    var r1, j1 := Ingested(t, p1, env);
    var r2, j2 := Ingested(t1, p2, env);
    assert t2.albums[j1] == t1.albums[j1];
    assert j1 != j2;
    assert AlbumIdList(t2.albums)[j1] != AlbumIdList(t2.albums)[j2];
    assert t2.tracks[|t.tracks|] == t1.tracks[|t.tracks|];
  }
}
