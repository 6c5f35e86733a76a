/**
  Changing and removing library entries (src/main/DB/DB.js, `deleteAlbum`, `updateAlbumInfo`,
  `updateTrackInfo`), the database half only: the rows as they are after the statements run.
*/
module LibraryEdits {
  import opened Wrappers
  import opened Seqs
  import opened Text
  import opened LibrarySchema
  import opened LibraryIngest

  /**
    `deleteAlbum(albumID)`: the album's tracks and the album row go. The artist row stays (the
    guard reads a column the COUNT row does not have), and so do the album's genre rows. When no
    album has that id the statements after the lookup fail, but there is then no album row to remove.
  */
  function RemoveAlbum(t: Tables, albumID: nat): Tables {
    t.(tracks := Filter(t.tracks, (k: Track) => k.albumID != albumID),
       albums := Filter(t.albums, (a: Album) => a.id != albumID))
  }

  /** `UPDATE albums SET title = ?, artistID = ? WHERE id = ?` */
  function RetitleAlbum(albums: seq<Album>, albumID: nat, title: string, artistID: nat): (r: seq<Album>)
    ensures |r| == |albums|
  {
    seq(|albums|, i requires 0 <= i < |albums| =>
      if albums[i].id == albumID then albums[i].(title := title, artistID := artistID) else albums[i])
  }

  /**
    `updateAlbumInfo` on the database: resolve the artist by name, set title and artist, then replace
    the album's genres by the tokens of the names joined with ", ".
  */
  function EditAlbum(t: Tables, albumID: nat, title: string, artist: string, genres: seq<string>): Tables {
    var resolved := ResolveArtist(t, Some(artist));
    resolved.tables.(albums := RetitleAlbum(resolved.tables.albums, albumID, title, resolved.id),
                     genres := ReplaceGenres(resolved.tables.genres, albumID, genres))
  }

  /**
    The genre half of `updateAlbumInfo`: delete the album's genre rows, then, when names were given,
    create the genres of their ", "-joined string.
  */
  function ReplaceGenres(rows: seq<Genre>, albumID: nat, names: seq<string>): seq<Genre> {
    var cleared := Filter(rows, (g: Genre) => g.albumID != albumID);
    if |names| > 0 then CreateGenre(cleared, albumID, Join(names, ", ")) else cleared
  }

  /** `UPDATE tracks SET title = ?, composer = ? WHERE id = ?` */
  function EditTrack(t: Tables, trackID: nat, title: string, composer: Option<string>): Tables {
    t.(tracks := seq(|t.tracks|, i requires 0 <= i < |t.tracks| =>
      if t.tracks[i].id == trackID then t.tracks[i].(title := title, composer := composer) else t.tracks[i]))
  }
}

module EditProperties {
  import opened Wrappers
  import opened Seqs
  import opened Text
  import opened LibrarySchema
  import opened LibraryIngest
  import opened IngestProperties
  import opened LibraryEdits

  // ---------------------------------------------------------------------------------------------
  // Deleting an album

  /**
    After `deleteAlbum`, exactly the tracks of other albums and the other albums remain, in order;
    artists and genres are untouched.
  */
  lemma RemoveAlbumEffect(t: Tables, albumID: nat)
    ensures var r := RemoveAlbum(t, albumID);
      && (forall k :: k in r.tracks <==> k in t.tracks && k.albumID != albumID)
      && (forall a :: a in r.albums <==> a in t.albums && a.id != albumID)
      && r.artists == t.artists && r.genres == t.genres
      && AlbumWithId(r.albums, albumID).None?
  {
    var r := RemoveAlbum(t, albumID);
    forall k | k in t.tracks && k.albumID != albumID ensures k in r.tracks {
      var i :| 0 <= i < |t.tracks| && t.tracks[i] == k;
    }
    forall a | a in t.albums && a.id != albumID ensures a in r.albums {
      var i :| 0 <= i < |t.albums| && t.albums[i] == a;
    }
  }

  /** Deleting an album keeps the tables consistent. */
  lemma RemoveAlbumPreservesConsistent(t: Tables, albumID: nat)
    requires Consistent(t)
    ensures Consistent(RemoveAlbum(t, albumID))
  {
    RemoveAlbumKeepsIds(t, albumID);
    RemoveAlbumKeepsReferences(t, albumID);
  }

  lemma RemoveAlbumKeepsIds(t: Tables, albumID: nat)
    requires Consistent(t)
    ensures var r := RemoveAlbum(t, albumID);
      && IdsIncreasing(AlbumIdList(r.albums), r.albumSeq)
      && IdsIncreasing(TrackIdList(r.tracks), r.trackSeq)
      && UniqueTrackPaths(r.tracks)
  {
    RemoveAlbumKeepsAlbumIds(t, albumID);
    RemoveAlbumKeepsTrackIds(t, albumID);
  }

  lemma RemoveAlbumKeepsAlbumIds(t: Tables, albumID: nat)
    requires IdsIncreasing(AlbumIdList(t.albums), t.albumSeq)
    ensures var r := RemoveAlbum(t, albumID);
      IdsIncreasing(AlbumIdList(r.albums), r.albumSeq)
  {
    var r := RemoveAlbum(t, albumID);
    forall i, j | 0 <= i < j < |t.albums| ensures t.albums[i].id < t.albums[j].id {
      assert AlbumIdList(t.albums)[i] < AlbumIdList(t.albums)[j];
    }
    FilterPairwise(t.albums, (a: Album) => a.id != albumID, (a: Album, b: Album) => a.id < b.id);
    forall i | 0 <= i < |r.albums| ensures 1 <= AlbumIdList(r.albums)[i] <= r.albumSeq {
      var j :| 0 <= j < |t.albums| && t.albums[j] == r.albums[i];
      assert AlbumIdList(t.albums)[j] == r.albums[i].id;
    }
  }

  lemma RemoveAlbumKeepsTrackIds(t: Tables, albumID: nat)
    requires IdsIncreasing(TrackIdList(t.tracks), t.trackSeq) && UniqueTrackPaths(t.tracks)
    ensures var r := RemoveAlbum(t, albumID);
      IdsIncreasing(TrackIdList(r.tracks), r.trackSeq) && UniqueTrackPaths(r.tracks)
  {
    var r := RemoveAlbum(t, albumID);
    var keepTrack := (k: Track) => k.albumID != albumID;
    forall i, j | 0 <= i < j < |t.tracks| ensures t.tracks[i].id < t.tracks[j].id {
      assert TrackIdList(t.tracks)[i] < TrackIdList(t.tracks)[j];
    }
    FilterPairwise(t.tracks, keepTrack, (a: Track, b: Track) => a.id < b.id);
    FilterPairwise(t.tracks, keepTrack, (a: Track, b: Track) => a.path != b.path);
    forall i | 0 <= i < |r.tracks| ensures 1 <= TrackIdList(r.tracks)[i] <= r.trackSeq {
      var j :| 0 <= j < |t.tracks| && t.tracks[j] == r.tracks[i];
      assert TrackIdList(t.tracks)[j] == r.tracks[i].id;
    }
  }

  lemma RemoveAlbumKeepsReferences(t: Tables, albumID: nat)
    requires Consistent(t)
    ensures var r := RemoveAlbum(t, albumID);
      && (forall i :: 0 <= i < |r.albums| ==> r.albums[i].artistID in ArtistIdList(r.artists))
      && (forall i :: 0 <= i < |r.tracks| ==> r.tracks[i].albumID in AlbumIdList(r.albums))
  {
    var r := RemoveAlbum(t, albumID);
    forall i | 0 <= i < |r.albums| ensures r.albums[i].artistID in ArtistIdList(r.artists) {
      var j :| 0 <= j < |t.albums| && t.albums[j] == r.albums[i];
    }
    forall i | 0 <= i < |r.tracks| ensures r.tracks[i].albumID in AlbumIdList(r.albums) {
      RemainingTrackResolves(t, albumID, r.tracks[i]);
    }
  }

  /** A track that survives the deletion points to an album that also survives. */
  lemma RemainingTrackResolves(t: Tables, albumID: nat, k: Track)
    requires forall i :: 0 <= i < |t.tracks| ==> t.tracks[i].albumID in AlbumIdList(t.albums)
    requires k in RemoveAlbum(t, albumID).tracks
    ensures k.albumID in AlbumIdList(RemoveAlbum(t, albumID).albums)
  {
    var r := RemoveAlbum(t, albumID);
    var j :| 0 <= j < |t.tracks| && t.tracks[j] == k;
    var x := k.albumID;
    assert x in AlbumIdList(t.albums);
    var m :| 0 <= m < |t.albums| && AlbumIdList(t.albums)[m] == x;
    assert t.albums[m].id == x && t.albums[m].id != albumID;
    var n :| 0 <= n < |r.albums| && r.albums[n] == t.albums[m];
    assert AlbumIdList(r.albums)[n] == x;
  }

  /**
    The artist of an album that was its only album is left behind by `deleteAlbum`, with no album
    pointing to it, and the album's genre rows stay, pointing to an album that no longer exists.
  */
  lemma RemoveAlbumLeavesOrphans(t: Tables, i: nat, g: Genre)
    requires Consistent(t) && i < |t.albums|
    requires forall j :: 0 <= j < |t.albums| && j != i ==> t.albums[j].artistID != t.albums[i].artistID
    requires g in t.genres && g.albumID == t.albums[i].id
    ensures var r := RemoveAlbum(t, t.albums[i].id);
      && t.albums[i].artistID in ArtistIdList(r.artists)
      && (forall a :: a in r.albums ==> a.artistID != t.albums[i].artistID)
      && g in r.genres && AlbumWithId(r.albums, g.albumID).None?
  {
    RemoveAlbumEffect(t, t.albums[i].id);
    var r := RemoveAlbum(t, t.albums[i].id);
    forall a | a in r.albums ensures a.artistID != t.albums[i].artistID {
      var j :| 0 <= j < |t.albums| && t.albums[j] == a;
      assert j != i;
      assert AlbumIdList(t.albums)[j] != AlbumIdList(t.albums)[i];
    }
  }

  // ---------------------------------------------------------------------------------------------
  // Editing an album

  /**
    `updateAlbumInfo` changes exactly the title and artist of the albums with that id, to the first
    artist with the new name, creating one only when the name is new.
  */
  lemma EditAlbumEffect(t: Tables, albumID: nat, title: string, artist: string, genres: seq<string>)
    ensures var r := EditAlbum(t, albumID, title, artist, genres);
      && |r.albums| == |t.albums| && r.tracks == t.tracks
      && ArtistNamed(r.artists, Some(artist)).Some?
      && var artistID := r.artists[ArtistNamed(r.artists, Some(artist)).value].id;
      && (forall i :: 0 <= i < |t.albums| ==>
            r.albums[i] == if t.albums[i].id == albumID then t.albums[i].(title := title, artistID := artistID)
                           else t.albums[i])
      && (ArtistNamed(t.artists, Some(artist)).Some? ==> r.artists == t.artists)
      && (ArtistNamed(t.artists, Some(artist)).None? ==>
            r.artists == t.artists + [Artist(t.artistSeq + 1, Some(artist))])
  {
    var resolved := ResolveArtist(t, Some(artist));
    var r := EditAlbum(t, albumID, title, artist, genres);
    assert r.artists == resolved.tables.artists && r.tracks == t.tracks;
    assert r.albums == RetitleAlbum(t.albums, albumID, title, resolved.id);
    ResolvedArtistNamed(t, artist);
  }

  /** Editing an album keeps the tables consistent. */
  lemma EditAlbumPreservesConsistent(t: Tables, albumID: nat, title: string, artist: string, genres: seq<string>)
    requires Consistent(t)
    ensures Consistent(EditAlbum(t, albumID, title, artist, genres))
  {
    var resolved := ResolveArtist(t, Some(artist));
    ResolveArtistFacts(t, Some(artist));
    var t0 := resolved.tables;
    var r := EditAlbum(t, albumID, title, artist, genres);
    assert AlbumIdList(r.albums) == AlbumIdList(t0.albums);
    ReplaceGenresNoDuplicates(t0.genres, albumID, genres);
  }

  lemma ReplaceGenresNoDuplicates(rows: seq<Genre>, albumID: nat, names: seq<string>)
    requires NoDuplicates(rows)
    ensures NoDuplicates(ReplaceGenres(rows, albumID, names))
  {
    var cleared := Filter(rows, (g: Genre) => g.albumID != albumID);
    FilterPairwise(rows, (g: Genre) => g.albumID != albumID, (a: Genre, b: Genre) => a != b);
    if |names| > 0 {
      InsertGenresContents(cleared, albumID, GenreTokens(Join(names, ", ")));
    }
  }

  /** A genre name as the edit form should hold it: no delimiter, no white space at either end. */
  predicate PlainGenre(name: string) {
    (forall k :: 0 <= k < |name| ==> !IsGenreDelimiter(name[k])) && Trim(name) == name
  }

  /** Joining plain names with ", " and splitting again, as `updateAlbumInfo` does, returns them. */
  lemma JoinedGenreTokens(names: seq<string>)
    requires |names| >= 1 && forall i :: 0 <= i < |names| ==> PlainGenre(names[i])
    ensures GenreTokens(Join(names, ", ")) == names
  {
    var joined := Join(names, ", ");
    SplitJoinedNames(names);
    var tokens := GenreTokens(joined);
    forall i | 0 <= i < |names| ensures tokens[i] == names[i] {
      JoinedToken(joined, names, i);
    }
  }

  lemma JoinedToken(joined: string, names: seq<string>, i: nat)
    requires i < |names| && PlainGenre(names[i]) && |SplitGenres(joined)| == |names|
    requires SplitGenres(joined)[i] == if i == 0 then names[i] else " " + names[i]
    ensures GenreTokens(joined)[i] == names[i]
  {
    if i > 0 {
      TrimAfterSpace(names[i]);
    }
  }

  /** The genre tokens of every name, in order. */
  function NameTokens(names: seq<string>): seq<string> {
    if |names| == 0 then [] else GenreTokens(names[0]) + NameTokens(names[1..])
  }

  lemma {:induction false} NameTokensMembers(names: seq<string>, s: string)
    ensures s in NameTokens(names) <==> exists i :: 0 <= i < |names| && s in GenreTokens(names[i])
  {
    if |names| > 0 {
      NameTokensMembers(names[1..], s);
      if s in NameTokens(names[1..]) {
        var i :| 0 <= i < |names[1..]| && s in GenreTokens(names[1..][i]);
        assert names[i + 1] == names[1..][i];
      }
      forall i | 1 <= i < |names| && s in GenreTokens(names[i]) ensures s in NameTokens(names[1..]) {
        assert names[1..][i - 1] == names[i];
      }
    }
  }

  /** The tokens on both sides of a comma. */
  lemma GenreTokensAtComma(a: string, b: string)
    ensures GenreTokens(a + "," + b) == GenreTokens(a) + GenreTokens(b)
  {
    SplitGenresAtComma(a, b);
    var p, pa, pb := SplitGenres(a + "," + b), SplitGenres(a), SplitGenres(b);
    var tp, ta, tb := GenreTokens(a + "," + b), GenreTokens(a), GenreTokens(b);
    assert |tp| == |p| && |ta| == |pa| && |tb| == |pb|;
    forall k | 0 <= k < |p| ensures tp[k] == (ta + tb)[k] {
      if k < |pa| {
        assert tp[k] == Trim(p[k]) && p[k] == pa[k] && ta[k] == Trim(pa[k]);
      } else {
        assert tp[k] == Trim(p[k]) && p[k] == pb[k - |pa|] && tb[k - |pa|] == Trim(pb[k - |pa|]);
      }
    }
  }

  /** A blank in front changes no token. */
  lemma GenreTokensAfterSpace(b: string)
    ensures GenreTokens(" " + b) == GenreTokens(b)
  {
    SplitGenresAfterSpace(b);
    TrimAfterSpace(SplitGenres(b)[0]);
    var p, pb := SplitGenres(" " + b), SplitGenres(b);
    forall k | 0 <= k < |p| ensures GenreTokens(" " + b)[k] == GenreTokens(b)[k] {
      if k > 0 {
        assert p[k] == p[1..][k - 1] == pb[1..][k - 1] == pb[k];
      }
    }
  }

  /**
    The tokens of names joined with ", " are the tokens of each name in turn: the separator's blank
    is trimmed away, and a name holding ',' or '/' gives several tokens.
  */
  lemma {:induction false} JoinedNameTokens(names: seq<string>)
    requires |names| >= 1
    ensures GenreTokens(Join(names, ", ")) == NameTokens(names)
    decreases |names|
  {
    if |names| == 1 {
      assert names[1..] == [];
      assert GenreTokens(names[0]) + [] == GenreTokens(names[0]);
    } else {
      var rest := names[1..];
      assert Join(names, ", ") == names[0] + "," + (" " + Join(rest, ", "));
      GenreTokensAtComma(names[0], " " + Join(rest, ", "));
      GenreTokensAfterSpace(Join(rest, ", "));
      JoinedNameTokens(rest);
    }
  }

  /**
    The rows `ReplaceGenres` leaves: the other albums' rows and, when names were given, one row per
    token of their ", "-joined string; with no names the album keeps no genre.
  */
  lemma ReplaceGenresContents(rows: seq<Genre>, albumID: nat, names: seq<string>)
    ensures forall g :: g in ReplaceGenres(rows, albumID, names) <==>
      (g in rows && g.albumID != albumID) ||
      (|names| > 0 && g.albumID == albumID && g.genre in GenreTokens(Join(names, ", ")))
    ensures names == [] ==> forall g :: g in ReplaceGenres(rows, albumID, names) ==> g.albumID != albumID
  {
    var cleared := Filter(rows, (g: Genre) => g.albumID != albumID);
    if |names| > 0 {
      InsertGenresContents(cleared, albumID, GenreTokens(Join(names, ", ")));
    }
  }

  /**
    After editing, the album carries exactly the tokens of the given names (none when no names are
    given), and every other album keeps its genre rows.
  */
  lemma EditAlbumGenres(t: Tables, albumID: nat, title: string, artist: string, genres: seq<string>)
    ensures forall g :: g in EditAlbum(t, albumID, title, artist, genres).genres <==>
      (g in t.genres && g.albumID != albumID) ||
      (g.albumID == albumID && exists i :: 0 <= i < |genres| && g.genre in GenreTokens(genres[i]))
  {
    assert ResolveArtist(t, Some(artist)).tables.genres == t.genres;
    ReplaceGenresContents(t.genres, albumID, genres);
    if |genres| > 0 {
      JoinedNameTokens(genres);
    }
    forall g: Genre ensures g.genre in NameTokens(genres) <==> exists i :: 0 <= i < |genres| && g.genre in GenreTokens(genres[i]) {
      NameTokensMembers(genres, g.genre);
    }
  }

  /** With plain names, as the edit form gives them, the album carries exactly those names. */
  lemma EditAlbumPlainGenres(t: Tables, albumID: nat, title: string, artist: string, genres: seq<string>)
    requires forall i :: 0 <= i < |genres| ==> PlainGenre(genres[i])
    ensures forall g :: g in EditAlbum(t, albumID, title, artist, genres).genres <==>
      (g in t.genres && g.albumID != albumID) || (g.albumID == albumID && g.genre in genres)
  {
    assert ResolveArtist(t, Some(artist)).tables.genres == t.genres;
    ReplaceGenresContents(t.genres, albumID, genres);
    if |genres| > 0 {
      JoinedGenreTokens(genres);
    }
  }

  // ---------------------------------------------------------------------------------------------
  // Editing a track

  /** `updateTrackInfo` changes title and composer of the tracks with that id and nothing else. */
  lemma EditTrackEffect(t: Tables, trackID: nat, title: string, composer: Option<string>)
    ensures var r := EditTrack(t, trackID, title, composer);
      && |r.tracks| == |t.tracks|
      && (forall i :: 0 <= i < |t.tracks| && t.tracks[i].id == trackID ==>
            r.tracks[i].title == title && r.tracks[i].composer == composer)
      && (forall i :: 0 <= i < |t.tracks| ==>
            r.tracks[i].(title := t.tracks[i].title, composer := t.tracks[i].composer) == t.tracks[i])
      && r.albums == t.albums && r.artists == t.artists && r.genres == t.genres
    ensures Consistent(t) ==> Consistent(EditTrack(t, trackID, title, composer))
  {
    var r := EditTrack(t, trackID, title, composer);
    assert TrackIdList(r.tracks) == TrackIdList(t.tracks);
  }
}
