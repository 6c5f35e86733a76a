# Musicly core, modelled in Dafny

This project models the logic at the heart of the Musicly desktop music player and proves what it
guarantees:

- **The library store** (`src/main/DB/DB.js`). This is the part that turns audio files into rows of
  four SQLite tables (albums, tracks, artists, genres) and answers the searches of the library view.
  It covers:
  - ingesting a file or a directory tree;
  - creating albums, artists and genres;
  - storing cover paths;
  - deleting and editing albums and tracks;
  - the read queries `getLibrary`, `getAlbum` and `getAlbumTracks`.
- **The playback queue** (`src/renderer/Controller/playbackmanager.js`). This covers the queue,
  the position, the current track and album, and the transitions `start`, `stop`, `skipFwd`,
  `skipBwd`, `playTracks`, `addNext`, `addToQueue` and the `getTracks` dispatch.
- **The two registries of the renderer.**
  - The event bus `Events` (`on`, `fire`, `remove`), with its global id counter.
  - The keyboard shortcut map `Shortcuts` (`add`, `remove`, and the combination string that
    `handleKeyDown` looks up).
- **Small rules embedded in the UI.**
  - The genre suggestion and the search-parameter updates of `SearchBox`.
  - The per-track layout of `TrackList`: disc separators, top and bottom classes, the playing flag
    and the tracks a click plays.
  - The `logs` reducer of `App.js`.
  - The `limitTitle` truncation of `Library` and `MiniPlayer`.

## How the model is organised

**Tables.** A table is a sequence of rows in rowid order. This is the order SQLite's table scan
visits them in, so a `db.get` without ORDER BY returns the first matching row (`Seqs.FirstIndex`).
The AUTOINCREMENT counters are kept beside the tables (`LibrarySchema.Tables`).
`LibrarySchema.Consistent` states the invariant every operation keeps:
- ids are increasing and bounded by the counters;
- track paths are unique;
- artist names are unique (NULL names may repeat);
- `(albumID, genre)` pairs are unique;
- every album points to an existing artist;
- every track points to an existing album.

**Store operations.** Every operation of the store is specified by a function:
- `LibraryIngest` and `LibraryEdits` hold the functions for ingestion and edits;
- `LibraryQueries` holds the read side;
- `IngestProperties`, `WalkProperties`, `EditProperties` and `QueryProperties` hold what is proved
  about these functions.

**The store class.** `LibraryStore.Store` is the store as a class, whose methods change its fields
step by step the way `DB.js` does. Each method's postcondition ties the new state to the
specification function applied to the old state, and keeps `Consistent`. Two methods keep it
only under the lookup their callers make first, since the schema has no UNIQUE constraint there:
`CreateArtist` for a name no artist has, and `AddTrackRow` for a new path and an existing album.

**The directory walk** is sequential. Each directory first walks its subdirectories in listing
order, then handles its files one by one in listing order.

**Outside data.** What comes from outside the database is a parameter (`LibraryIngest.Env`):
- the tags `music-metadata` would parse from each file (a file missing from the map cannot be
  parsed);
- the set of existing files probed by `fs.existsSync`;
- the cover folder;
- the clock value written into cover paths.

The directory tree that `statSync`/`readdirSync` would reveal is a `LibraryIngest.Node`.

**Renderer state.** `Playback.PlaybackManager`, `Events.Registry`, `Shortcuts.Keymap` and
`SearchBox.SearchBoxState` are classes over the fields the source mutates. Each method is specified
by a function of the old state, or states its new state outright. The properties are lemmas about
those functions.

**Behaviour that the model keeps as the code does it:**
- `deleteAlbum` deletes the album's tracks and the album row. It never deletes genre rows. It never
  deletes the artist either, because the test reads `count.count`, which the `COUNT(*)` row does
  not have, and the delete uses `album.artisID`.
- `createAlbum` applies an embedded picture and then the directory scan. When both exist, the scanned
  file's path is the one left stored.
- An embedded picture's extension has no leading dot (`jpg`, `png`). A picture of any other type
  gets the text `undefined`.
- `Events.on` stores every listener with the id 0, but returns the incremented counter. So `remove`
  with an id that `on` returned removes nothing.
- `limitTitle` discards the result of `trim()`, so surrounding white space is kept.
- `start` with a position outside the queue clears the track and fails before anything else
  changes.
- `start` for a track whose album row (or that album's artist row) is gone sets the track, and then
  `getAlbum` throws: the previous album stays on display and no new howl is made.

## Model

| member | source | states |
|---|---|---|
| LibrarySchema.EmptyTablesConsistent | src/main/DB/DB.js:429-455 | the freshly created schema (four empty tables, counters at 0) satisfies the store invariant |
| LibraryIngest.ResolveArtist | src/main/DB/DB.js:183-186 | the id of the first artist with that name and no change when there is one; otherwise a new artist row |
| LibraryIngest.GenreTokens | src/main/DB/DB.js:254 | a genre tag gives one token more than it has ',' and '/' delimiters |
| LibraryIngest.CoverCandidates | src/main/DB/DB.js:201-204 | the scan probes 4 formats times 3 names |
| LibraryStore.FindCoverFile | src/main/DB/DB.js:201-210 | the labelled nested loop finds the same file as the specification: the first existing candidate, formats outside and names inside |
| LibraryStore.CandidateAt | src/main/DB/DB.js:202-204 | candidate `3 * f + n` is the directory, '/', name `n` and format `f` |
| LibraryStore.Store.constructor | src/main/DB/DB.js:429-455 | a new store holds the empty schema and is consistent |
| LibraryStore.Store.CreateArtist | src/main/DB/DB.js:242-245 | the new state and the returned id are those of `InsertArtist`: one row with the next id; for a name no artist has, consistency is kept |
| LibraryStore.Store.CreateGenre | src/main/DB/DB.js:252-258 | only the genre table changes, to the rows `CreateGenre` specifies; consistency is kept |
| LibraryStore.GenreRows | src/main/DB/DB.js:253-257 | the loop over the split tag performs one INSERT OR IGNORE per trimmed token, which is what `CreateGenre` specifies |
| LibraryStore.Store.AddCover | src/main/DB/DB.js:270-303 | the state becomes `StoreCover` of the old state: no change when no directory is given and the album has no track (the lookup throws), else the cover path is set; consistency is kept |
| LibraryStore.Store.CreateAlbum | src/main/DB/DB.js:180-213 | artist resolution, album insert, embedded cover and directory scan in this order give `NewAlbum` of the old state, and the returned id is the new album's; consistency is kept |
| LibraryStore.Store.CreateTrack | src/main/DB/DB.js:126-169 | succeeds exactly when the specification does; the new state is `Ingest` of the old one (unchanged for a rejected or known path); consistency is kept |
| LibraryStore.Store.AddParsedTrack | src/main/DB/DB.js:135-168 | for an admitted, parseable file the album lookup or creation, the track insert and the genre loop give `Ingest`; consistency is kept |
| LibraryStore.Store.FindOrCreateAlbumOf | src/main/DB/DB.js:148-154 | the album lookup reuses the first album with that title and directory, or creates one, as `FindOrCreateAlbum` says; consistency is kept |
| LibraryStore.Store.AddTrackRow | src/main/DB/DB.js:157-162 | the INSERT gives the tables of `InsertTrack`: one row with the next id and the given columns; with a new path and an existing album, consistency is kept |
| LibraryStore.Store.AddGenres | src/main/DB/DB.js:166-168 | the loop over the genre tags gives `AddTagGenres`; consistency is kept |
| LibraryStore.Store.ProcessDirectoryFiles | src/main/DB/DB.js:115-119 | the files are ingested one by one in order; the state and the failure flag are those of `WalkFiles` |
| LibraryStore.Store.OpenDirectory | src/main/DB/DB.js:91-113 | subdirectories then the directory's files give `WalkTree` of the old state; consistency is kept |
| LibraryStore.Store.OpenSubdirectories | src/main/DB/DB.js:104-110 | the loop over the listing walks each subdirectory and collects the file paths in listing order |
| LibraryStore.Store.OpenPath | src/main/DB/DB.js:81-89 | a directory is walked, a file ingested, anything else ignored, as `WalkTree` says; consistency is kept |
| LibraryStore.Store.DeleteAlbum | src/main/DB/DB.js:220-235 | the state becomes `RemoveAlbum` of the old one; consistency is kept |
| LibraryStore.Store.UpdateAlbumInfo | src/main/DB/DB.js:375-392 | the state becomes `EditAlbum` of the old one; consistency is kept |
| LibraryStore.Store.UpdateTrackInfo | src/main/DB/DB.js:411-417 | the state becomes `EditTrack` of the old one; consistency is kept |
| LibraryStore.GenreTokenAt | src/main/DB/DB.js:254-256 | token `i` of a tag is piece `i` of the split, trimmed |
| LibraryStore.DirectoryWalk | src/main/DB/DB.js:104-112 | walking a directory is walking its subdirectories and then its files, failing when either fails |
| IngestProperties.InsertGenresContents | src/main/DB/DB.js:255-256 | INSERT OR IGNORE of tokens only adds rows; a row is present afterwards iff it was before or it is (albumID, some token); pairs stay unique |
| IngestProperties.InsertGenresPresent | src/main/DB/DB.js:454 | inserting pairs that are all present leaves the genres table unchanged |
| IngestProperties.CreateGenreKeepsConsistent | src/main/DB/DB.js:252-258 | the rows of one more genre tag keep the tables consistent |
| IngestProperties.CreateGenreIdempotent | src/main/DB/DB.js:252-258 | running `createGenre` twice with the same tag and album is the same as running it once |
| IngestProperties.GenreTokensNormalized | src/main/DB/DB.js:254-256 | no stored token contains ',' or '/', and none starts or ends with white space |
| IngestProperties.AddTagGenresContents | src/main/DB/DB.js:166-168 | after the genre loop the album carries exactly the old rows plus a row for every token of every genre tag; pairs stay unique |
| IngestProperties.CoverPathCacheBusting | src/main/DB/DB.js:299-302 | cover paths written at different times differ, which is what defeats the image cache |
| IngestProperties.StoreCoverFrame | src/main/DB/DB.js:270-303 | storing a cover changes only the `coverPath` of the album with that id, and keeps consistency |
| IngestProperties.ScanCoverPrefersEarlier | src/main/DB/DB.js:201-210 | when some candidate exists the scan finds an existing file no later than it in probe order |
| IngestProperties.ResolveArtistFacts | src/main/DB/DB.js:183-186 | resolving an artist keeps consistency, yields an existing artist id and changes no other table |
| IngestProperties.ResolvedArtistNamed | src/main/DB/DB.js:184-187 | after resolution the first artist with the name carries the resolved id |
| IngestProperties.InsertAlbumFacts | src/main/DB/DB.js:189-194 | inserting an album with an existing artist keeps consistency and hands out an id no album had |
| IngestProperties.NewAlbumFacts | src/main/DB/DB.js:180-213 | `createAlbum` appends exactly one album with the next id, the track's title and directory, the disc count (1 when `disk.of` is falsy) and the resolved artist; tracks and genres are untouched; consistency is kept |
| IngestProperties.NewAlbumCover | src/main/DB/DB.js:197-210 | the new album's cover path is the scanned file's when one exists, else the embedded picture's (extension without a dot), else NULL |
| IngestProperties.NewAlbumKeepsConsistent | src/main/DB/DB.js:180-213 | a new album row, with its artist and covers, keeps the tables consistent |
| IngestProperties.FindOrCreateAlbumFacts | src/main/DB/DB.js:148-154 | afterwards the first album with that title and directory has the returned id; at most one album is added; an existing one leaves the tables unchanged |
| IngestProperties.IngestNewTrack | src/main/DB/DB.js:126-169 | an admitted file adds exactly one track with the next id, its path, title ('Unknown' when untitled), composer, track number and disc (1 when falsy), referencing the album of its (title, directory); an album created for it is the last row and has the artist resolved by name; the genres table gains exactly its tokens |
| IngestProperties.InsertTrackFacts | src/main/DB/DB.js:157-162 | inserting a track with a new path into an existing album keeps consistency |
| IngestProperties.IngestPreservesConsistent | src/main/DB/DB.js:126-169 | `createTrack` keeps the store invariant, unique paths included |
| IngestProperties.IngestExtendsTracks | src/main/DB/DB.js:126-169 | `createTrack` never changes or removes an existing track row |
| IngestProperties.IngestIdempotent | src/main/DB/DB.js:129-133 | after a successful ingest the path is known, and ingesting it again changes nothing |
| IngestProperties.Ingested | src/main/DB/DB.js:148-162 | a successful ingest adds one track, keeps the earlier albums, and the new track references the first album with its identity |
| IngestProperties.SameIdentitySameAlbum | src/main/DB/DB.js:146-154 | two files with the same album title and directory end up in the same album |
| IngestProperties.UntaggedFilesShareAlbum | src/main/DB/DB.js:139-144 | files without an album tag all go to the one album 'Unknown album' in '/', wherever they are |
| IngestProperties.UntaggedAlbumArtist | src/main/DB/DB.js:139-144 | the first untagged file creates 'Unknown album' in '/' under the first artist named 'Unknown artist', creating that artist when there is none |
| IngestProperties.DifferentDirectoriesDifferentAlbums | src/main/DB/DB.js:136-154 | tagged files in different directories never share an album |
| WalkProperties.WalkFilesPreservesConsistent | src/main/DB/DB.js:115-119 | a batch of files keeps the store invariant |
| WalkProperties.WalkPreservesConsistent | src/main/DB/DB.js:81-113 | walking any tree keeps the store invariant |
| WalkProperties.SubdirectoriesPreserveConsistent | src/main/DB/DB.js:104-106 | walking the subdirectories of a listing keeps the store invariant |
| WalkProperties.WalkFilesSettles | src/main/DB/DB.js:115-119 | after a batch without a parse failure no file of the batch would be ingested again |
| WalkProperties.WalkFilesPreservesTracks | src/main/DB/DB.js:115-119 | a batch only appends tracks |
| WalkProperties.WalkPreservesTracks | src/main/DB/DB.js:81-113 | a walk only appends tracks |
| WalkProperties.SubdirectoriesPreserveTracks | src/main/DB/DB.js:104-106 | walking subdirectories only appends tracks |
| WalkProperties.FilePathsListed | src/main/DB/DB.js:107-109 | every file entry of a listing is in the directory's batch |
| WalkProperties.WalkSettles | src/main/DB/DB.js:81-113 | after a walk without a parse failure every file of the tree is settled: unsupported or already known |
| WalkProperties.DirectorySettles | src/main/DB/DB.js:104-112 | settled subdirectories plus a successful file batch settle the whole listing |
| WalkProperties.SubdirectoriesSettle | src/main/DB/DB.js:104-106 | every subdirectory is settled after the subdirectories are walked |
| WalkProperties.WalkFilesSettled | src/main/DB/DB.js:115-119 | a batch of settled files changes nothing and does not fail |
| WalkProperties.SettledWalkUnchanged | src/main/DB/DB.js:81-113 | walking a settled tree changes nothing |
| WalkProperties.SettledSubdirectoriesUnchanged | src/main/DB/DB.js:104-106 | walking settled subdirectories changes nothing |
| WalkProperties.RescanUnchanged | src/main/DB/DB.js:81-113 | opening the same tree again after a successful walk leaves the library unchanged |
| EditProperties.RemoveAlbumEffect | src/main/DB/DB.js:223-234 | `deleteAlbum` removes exactly the album's tracks and the album row; artists and genres are untouched; the id is then unknown |
| EditProperties.RemoveAlbumPreservesConsistent | src/main/DB/DB.js:220-235 | deleting an album keeps the store invariant |
| EditProperties.RemoveAlbumKeepsIds | src/main/DB/DB.js:223-234 | ids stay increasing and paths unique after the deletion |
| EditProperties.RemoveAlbumKeepsReferences | src/main/DB/DB.js:223-234 | surviving albums still point to existing artists and surviving tracks to existing albums |
| EditProperties.RemainingTrackResolves | src/main/DB/DB.js:223 | a track that survives the deletion references an album that survives |
| EditProperties.RemoveAlbumLeavesOrphans | src/main/DB/DB.js:227-228 | deleting an artist's only album leaves the artist row, and the album's genre rows stay with no album |
| EditProperties.EditAlbumEffect | src/main/DB/DB.js:377-386 | the album with that id gets the new title and the artist of that name; the other album rows and the tracks are unchanged; an artist is added only when the name is unseen |
| EditProperties.EditAlbumPreservesConsistent | src/main/DB/DB.js:375-392 | editing an album keeps the store invariant |
| EditProperties.ReplaceGenresNoDuplicates | src/main/DB/DB.js:390-392 | replacing the genres keeps pairs unique |
| EditProperties.JoinedGenreTokens | src/main/DB/DB.js:392 | joining plain genre names with ', ' and splitting them again gives the names back |
| EditProperties.EditAlbumGenres | src/main/DB/DB.js:388-392 | after the edit the album's genre rows are exactly the trimmed ','/'/'-tokens of each given name (none when no names are given); other albums' rows stay |
| EditProperties.EditAlbumPlainGenres | src/main/DB/DB.js:388-392 | with plain names, as the edit form gives them, the album's genres become exactly those names |
| EditProperties.JoinedNameTokens | src/main/DB/DB.js:392 | the tokens of names joined with ', ' are the tokens of each name in turn; the separator's blank is trimmed away |
| EditProperties.ReplaceGenresContents | src/main/DB/DB.js:390-392 | delete, then `createGenre` of the names joined with ', ' when there are any, leaves the other albums' rows and one row per token of the joined string; with no names the album keeps no genre |
| EditProperties.EditTrackEffect | src/main/DB/DB.js:413-417 | the tracks with that id get the new title and composer, nothing else changes, and consistency is kept |
| LibraryQueries.GetLibrary | src/main/DB/DB.js:312-345 | the genre list is always the distinct genre names; the whole library is returned iff query and genre are both empty |
| QueryProperties.AlbumOrderTotal | src/main/DB/DB.js:339 | ORDER BY id DESC is a total preorder |
| QueryProperties.TrackOrderTotal | src/main/DB/DB.js:368 | ORDER BY disc, trackOrder (NULL first) is a total preorder |
| QueryProperties.LibraryGenresSpec | src/main/DB/DB.js:317-318 | the genre list has no repeats and holds exactly the names that occur in the genres table |
| QueryProperties.WholeLibrarySpec | src/main/DB/DB.js:321-324 | with an empty search every album is returned once, by descending id |
| QueryProperties.NewestFirst | src/main/DB/DB.js:322 | on albums in rowid order, descending id order is the reversed table |
| QueryProperties.JoinRowMatchesIff | src/main/DB/DB.js:330-337 | an album matches the join iff it has a track, its artist exists, and its title, some track title or its artist name contains the query |
| QueryProperties.SearchAlbumsSpec | src/main/DB/DB.js:327-340 | the hits are distinct, exactly the summaries of the albums selected by query and genre, by descending id |
| QueryProperties.SearchAlbumsMembers | src/main/DB/DB.js:330-338 | a summary is a hit iff it is the summary of an album that matches the query and, when a genre is set, carries that genre |
| QueryProperties.SearchAlbumsNewestFirst | src/main/DB/DB.js:339 | on a consistent table the hits have strictly descending ids |
| QueryProperties.SearchTracksSpec | src/main/DB/DB.js:342 | at most 10 tracks, each matching on title or composer; fewer than 10 means all matches; rowid order is kept |
| QueryProperties.GetAlbumSpec | src/main/DB/DB.js:352-360 | the album is found iff the id and its artist exist; then it is that row, with exactly its genre names and its artist's name |
| QueryProperties.GenresOfSpec | src/main/DB/DB.js:354-355 | the genre names of an album are exactly those paired with it |
| QueryProperties.GetAlbumOfKnownAlbum | src/main/DB/DB.js:352-360 | in a consistent store `getAlbum` succeeds exactly for existing album ids |
| QueryProperties.GetAlbumTracksSpec | src/main/DB/DB.js:367-369 | the result is a permutation of the album's tracks, sorted by disc and then by track number |
| Text.Lower | src/renderer/Shortcuts/Shortcuts.js:43 | `toLowerCase` keeps the length and folds each letter |
| Text.Trim | src/main/DB/DB.js:256 | `trim()` leaves no white space at either end |
| Text.TrimOfTrimmed | src/main/DB/DB.js:256 | trimming a string without surrounding white space leaves it unchanged |
| Text.TrimIsSlice | src/main/DB/DB.js:256 | the trimmed string is a substring of the original |
| Text.SplitGenres | src/main/DB/DB.js:254 | `split(/[,\/]/)` gives at least one piece and no piece contains a delimiter |
| Text.SplitGenresCount | src/main/DB/DB.js:254 | the split has one piece more than the string has delimiters |
| Text.SplitGenresJoin | src/main/DB/DB.js:254 | joining the pieces of a string without '/' with ',' gives the string back |
| Text.SplitJoinedNames | src/main/DB/DB.js:392 | splitting names joined with ', ' gives the first name and then each further name with one leading space |
| Text.Decimal | src/main/DB/DB.js:302 | an id or a timestamp prints as digits without a leading zero |
| Text.DecimalRoundTrip | src/main/DB/DB.js:302 | the printed number reads back as the same number |
| Text.ExtName | src/main/DB/DB.js:129 | `path.extname` is empty or a dot followed by no dot and no slash |
| Text.ExtNameOfFile | src/main/DB/DB.js:129 | the extension of `stem + ext` is `ext` |
| Text.DirName | src/main/DB/DB.js:136 | `path.dirname` is never empty |
| Text.DirNameOfChild | src/main/DB/DB.js:94 | the directory of `dir + '/' + name` is `dir` |
| Seqs.SpliceStart | src/renderer/App.js:68 | where `splice` starts: an in-range start as given, a negative one counted from the end, clamped to the array |
| Playback.Started | src/renderer/Controller/playbackmanager.js:53-60 | inside the queue `start` plays `queue[position]`; when `getAlbum` finds its album that album is shown and a howl made, when it throws album and howl stay as they were; outside the queue it clears the track and changes nothing else |
| Playback.SourceTracks | src/renderer/Controller/playbackmanager.js:272-283 | an album source gives its tracks in `getAlbumTracks` order, a track gives `[track]`, a list itself, anything else nothing |
| Playback.PlaybackManager.constructor | src/renderer/Controller/playbackmanager.js:11-18 | the initial state: no album, no track, empty queue, position 0, no howl |
| Playback.PlaybackManager.Start | src/renderer/Controller/playbackmanager.js:53-108 | the new state is `Started` of the old state; coherence is kept |
| Playback.PlaybackManager.Stop | src/renderer/Controller/playbackmanager.js:136-149 | the new state is `Stopped` of the old state, which is coherent |
| Playback.PlaybackManager.SkipFwd | src/renderer/Controller/playbackmanager.js:169-190 | the new state is `SkippedFwd` of the old state; coherence is kept |
| Playback.PlaybackManager.SkipBwd | src/renderer/Controller/playbackmanager.js:197-208 | the new state is `SkippedBwd` of the old state; coherence is kept |
| Playback.PlaybackManager.PlayTracks | src/renderer/Controller/playbackmanager.js:223-229 | the new state is `TracksPlayed` of the old state; with a jump within the list it is coherent |
| Playback.PlaybackManager.AddNext | src/renderer/Controller/playbackmanager.js:235-252 | the new state is `AddedNext` of the old state; coherence is kept |
| Playback.PlaybackManager.AddToQueue | src/renderer/Controller/playbackmanager.js:257-264 | the new state is `AddedToQueue` of the old state; coherence is kept |
| Playback.PlaybackManager.GetTracks | src/renderer/Controller/playbackmanager.js:271-295 | the new state is `TracksFetched` of the old state, with `jump` 0 when the caller leaves it out; coherence is kept |
| PlaybackProperties.InitialCoherent | src/renderer/Controller/playbackmanager.js:11-18 | the initial state is coherent, shows no album and plays nothing |
| PlaybackProperties.SkipWithoutHowl | src/renderer/Controller/playbackmanager.js:171 | without a loaded howl both skips change nothing |
| PlaybackProperties.StartSpec | src/renderer/Controller/playbackmanager.js:53-60 | `start` inside the queue sets the track; when `getAlbum` finds the album it shows that stored album, of the track's id, and makes a howl; when it throws only the track has changed |
| PlaybackProperties.SkipFwdSpec | src/renderer/Controller/playbackmanager.js:173-186 | the position moves to min(length, position + 1); inside the queue that track plays, past the end the queue is emptied and the position reset |
| PlaybackProperties.SkipBwdSpec | src/renderer/Controller/playbackmanager.js:201-207 | past five seconds the position is kept, otherwise it becomes max(0, position - 1); the queue is kept and the track at the position plays |
| PlaybackProperties.PlayTracksSpec | src/renderer/Controller/playbackmanager.js:223-228 | with a jump inside the list the queue is the list, the position the jump, and `tracks[jump]` plays, with its album when `getAlbum` finds it |
| PlaybackProperties.AddNextSpec | src/renderer/Controller/playbackmanager.js:240-247 | one track is inserted right after the position (clamped), keeping the rest in order; otherwise the queue is cut after the position and the tracks appended; a playing track is left alone |
| PlaybackProperties.AddNextWhilePlaying | src/renderer/Controller/playbackmanager.js:241 | while playing, the added track comes right after the current one |
| PlaybackProperties.AddToQueueSpec | src/renderer/Controller/playbackmanager.js:257-263 | the tracks are appended and the position kept; playback starts only when nothing was playing |
| PlaybackProperties.StopSpec | src/renderer/Controller/playbackmanager.js:136-146 | `stop` restores the initial state apart from the howl |
| PlaybackProperties.TransitionsKeepCoherent | src/renderer/Controller/playbackmanager.js:53-264 | whatever `getAlbum` does, every transition keeps the position within the queue and the track at the position the playing one |
| PlaybackProperties.AddNextKeepsCoherent | src/renderer/Controller/playbackmanager.js:235-252 | `addNext` keeps the position within the queue and the playing track at it |
| PlaybackProperties.TransitionsKeepAlbum | src/renderer/Controller/playbackmanager.js:53-264 | while `getAlbum` finds the album of every queued and added track, every transition keeps the album shown the playing track's, and the queue stays fetchable |
| PlaybackProperties.StartedAgrees | src/renderer/Controller/playbackmanager.js:58-60 | starting a track whose album `getAlbum` finds shows that album |
| PlaybackProperties.AddNextAgrees | src/renderer/Controller/playbackmanager.js:235-252 | `addNext` with fetchable tracks keeps the album shown the playing track's and the queue fetchable |
| PlaybackProperties.FailedFetchStalls | src/renderer/Controller/playbackmanager.js:59-60 | when `getAlbum` throws for the first added track, `addToQueue` on a player that never had a howl sets the track but no album and no howl, so `skipFwd` then does nothing |
| PlaybackProperties.StoredTracksFetchable | src/main/DB/DB.js:352-360 | in a consistent database `getAlbum` finds the album of every stored track |
| PlaybackProperties.AlbumSourceFetchable | src/renderer/Controller/playbackmanager.js:274-276 | the tracks of an album source of a consistent database have fetchable albums |
| PlaybackProperties.GetTracksDispatch | src/renderer/Controller/playbackmanager.js:277-292 | a single track is dispatched as a one-element list; 'addToQueue' appends the list, and no source appends nothing |
| Events.ListenersOf | src/renderer/Events/Events.js:17-19 | an event without a list has no listeners |
| Events.RemoveAt | src/renderer/Events/Events.js:53 | `splice(i, 1)` removes element `i` and keeps the others in order |
| Events.Registry.constructor | src/renderer/Events/Events.js:2-3 | no listeners and the counter at 0 |
| Events.Registry.On | src/renderer/Events/Events.js:15-30 | the counter is incremented and returned; the event's list (created when missing) gains one listener with id 0; other lists are unchanged |
| Events.Registry.Fire | src/renderer/Events/Events.js:37-42 | no calls for an unknown event; otherwise one call per listener, in registration order, with the arguments; nothing is removed |
| Events.Registry.Remove | src/renderer/Events/Events.js:48-58 | the labelled search removes what `RemoveFirst` specifies: the first listener with that stored id; events and counter stay, and the registry stays valid |
| EventProperties.RemoveFirstSpec | src/renderer/Events/Events.js:48-58 | at most one event's list loses at most one listener, one whose id matches; nothing changes iff no listener matches |
| EventProperties.RemoveFirstTakesFirst | src/renderer/Events/Events.js:50-54 | when a listener is removed it is the first match: in the first event, in key order, whose list holds one, at the first matching index of that list |
| EventProperties.RemoveReturnedIdIsNoOp | src/renderer/Events/Events.js:25 | since stored ids are 0, removing by any id `on` returned removes nothing |
| EventProperties.RemoveZeroTakesFirst | src/renderer/Events/Events.js:51-54 | `remove(0)` takes out the first listener of the first event |
| Shortcuts.Keymap.constructor | src/renderer/Shortcuts/Shortcuts.js:1 | no shortcut is bound |
| Shortcuts.Keymap.Add | src/renderer/Shortcuts/Shortcuts.js:11-15 | every given string is bound to the callback, replacing earlier bindings; other bindings are unchanged |
| Shortcuts.Keymap.Remove | src/renderer/Shortcuts/Shortcuts.js:21-25 | exactly the given strings are unbound; other bindings are unchanged |
| Shortcuts.Keymap.HandleKeyDown | src/renderer/Shortcuts/Shortcuts.js:33-52 | nothing runs in an INPUT; otherwise the bound callback runs iff the combination string is bound, and the default is prevented exactly then |
| ShortcutProperties.ShortcutSpelling | src/renderer/Shortcuts/Shortcuts.js:39-45 | the combination is 'ctrl+', 'shift+', 'alt+' for the held modifiers, in that order, then the lowercased key |
| ShortcutProperties.ShortcutDeterminesCombo | src/renderer/Shortcuts/Shortcuts.js:39-45 | for keys whose name holds no '+', two presses give the same shortcut exactly when they hold the same modifiers and the keys lowercase alike |
| SearchBox.SearchBoxState.constructor | src/renderer/Components/SearchBox/SearchBox.js:14 | the component holds the search parameters it is given |
| SearchBox.SearchBoxState.SetQuery | src/renderer/Components/SearchBox/SearchBox.js:17-20 | only the query changes, and the new parameters are searched |
| SearchBox.SearchBoxState.SetGenre | src/renderer/Components/SearchBox/SearchBox.js:22-26 | the genre is set and the query cleared, and the new parameters are searched |
| SearchBox.SearchBoxState.RemoveGenre | src/renderer/Components/SearchBox/SearchBox.js:28-31 | only the genre is cleared, and the new parameters are searched |
| SearchBox.SearchBoxState.ClickChip | src/renderer/Components/SearchBox/SearchBox.js:58-63 | clicking the chip removes a selected genre, or selects the suggestion and clears the query |
| SearchBoxProperties.ShortestSpec | src/renderer/Components/SearchBox/SearchBox.js:54 | the reduce yields a string of minimal length, and no later string is as short (the last shortest wins) |
| SearchBoxProperties.SuggestionSpec | src/renderer/Components/SearchBox/SearchBox.js:46-55 | a suggestion exists iff no genre is set, the query is non-empty and some genre contains it case-insensitively; it is then such a genre of minimal length |
| SearchBoxProperties.SuggestionLastShortest | src/renderer/Components/SearchBox/SearchBox.js:54 | among the matching genres the suggestion is the last of the shortest |
| SearchBoxProperties.DisplayedChipSpec | src/renderer/Components/SearchBox/SearchBox.js:57-64 | the chip shows the selected genre with a delete button when one is set, otherwise the (non-empty) suggestion without one |
| TrackList.Classes | src/renderer/Components/TrackList/TrackList.js:39-43 | 'track-top' iff first or opening a disc in the album details; 'track-bottom' iff last or, in the album details, followed by another disc |
| TrackList.Render | src/renderer/Components/TrackList/TrackList.js:22-50 | the loop pushes, for each track in order, an optional separator and the track element, as `Rendered` describes |
| TrackList.RenderTrack | src/renderer/Components/TrackList/TrackList.js:25-49 | the element built for track `i` carries its classes, its playing flag and the suffix from `i` |
| TrackListProperties.RenderedTrackItems | src/renderer/Components/TrackList/TrackList.js:47-49 | the track elements of the list are those of the tracks from the start index on, in order |
| TrackListProperties.OneEntryPerTrack | src/renderer/Components/TrackList/TrackList.js:24-49 | exactly one track element per input track, in input order, each playing the suffix from its own index |
| TrackListProperties.SeparatorsOpenDiscs | src/renderer/Components/TrackList/TrackList.js:30-37 | every separator is followed by the element of a track opening that disc, and every such element is preceded by a separator |
| TrackListProperties.QueuePlaysOneEntry | src/renderer/Components/TrackList/TrackList.js:26 | in the queue only the entry at the playback position can be marked playing |
| TrackListProperties.PlayingMarksCurrentTrack | src/renderer/Components/TrackList/TrackList.js:26 | outside the queue an entry is marked iff playback is playing a track with its id |
| LogProperties.ResetEmpties | src/renderer/App.js:65-66 | 'reset' gives the empty list |
| LogProperties.RemoveInRange | src/renderer/App.js:67-69 | 'remove' with an index in range takes out exactly that entry and keeps the others in order |
| LogProperties.RemoveFromEnd | src/renderer/App.js:67-69 | a negative index removes the entry counted from the end |
| LogProperties.RemovePastEnd | src/renderer/App.js:67-69 | an index past the end removes nothing |
| LogProperties.OtherMessagesAppend | src/renderer/App.js:71 | any other message appends its detail, not the message |
| LogProperties.LengthChange | src/renderer/App.js:62-72 | the length becomes 0, drops by at most one (removing only existing entries), or grows by one, for reset, remove and other messages |
| Titles.Truncate | src/renderer/Components/Library/Library.js:84-89 | a title within the limit is returned unchanged; a longer one becomes its first `limit` characters and '...'; never longer than limit + 3 |
| TitleProperties.TruncateKeepsPrefix | src/renderer/Components/Library/Library.js:85 | the result starts with the title's first min(limit, length) characters, white space included |
| TitleProperties.TruncateIdempotent | src/renderer/Components/Library/Library.js:84-89 | truncating a truncated title changes nothing |
| TitleProperties.Limits | src/renderer/Components/MiniPlayer/MiniPlayer.js:56-62 | the library cuts at 20 characters, the mini player at 25, and the mini player shows '' for a missing title |

## Left out

- Concurrency: the `Promise.all` fan-out of `openDirectory` and the un-awaited `createGenre`, `addCover` and DELETE calls are taken in program order. The race in which two concurrently walked directories each create an 'Unknown album' row is not modelled.
- SQLite and the files: `init`, `create`, `delete`, `close` and the signal handlers are replaced by tables held in memory.
- Foreign calls are inputs. The tags `music-metadata` parses are a `Metadata` record per path. A file it cannot parse is a path missing from the map; it ends its directory's batch, as the rejected promise does.
- I/O is not modelled: cover copies and writes, tag writes through `node-id3` in `updateAlbumInfo` and `updateTrackInfo`, and the `fs.rm` of a deleted cover. Only the stored `coverPath` string is kept.
- `statSync` and `readdirSync` are replaced by a given tree. A path that does not exist, and so makes `statSync` throw, is not modelled.
- The unused `Select * from albums` of `openPath` is not modelled.
- `path.join` normalisation in `addCover` is not modelled: the cover path is the folder, '/', and the file name.
- `LIKE '%q%'` is a case-insensitive substring test. '%' and '_' inside the query are not treated as wildcards.
- Case folding, in `LIKE` and `toLowerCase`, covers ASCII letters only.
- Rows that tie under ORDER BY disc, trackOrder keep their table order. SQLite leaves that order unspecified.
- `getLibrary` returns the whole library with no track list rather than the empty object `{}`.
- Integers are unbounded. SQLite's 64-bit ids and JavaScript numbers cannot overflow here.
- Playback effects are not modelled: Howler, media session metadata and `ipcRenderer` calls.
- `play`, `pause`, `seekFwd`, `seekBwd`, `setProgress` and `getCover` are not modelled. They act only on the howl, with floating-point times.
- Playback.PlaybackManager.SkipBwd: whether more than five seconds have elapsed is a boolean parameter. It is not computed from `howl.seek()`.
- Playback.Started: `getAlbum` is read from the table state given when `start` runs. Events handled while it is awaited are not interleaved.
- TransitionsKeepAlbum: that the album shown is the playing track's is promised only while `getAlbum` finds the album of every queued and added track. When it throws, `start` keeps the previous album, as `FailedFetchStalls` states.
- `getTracks` with sourceType 'albumID' reads `getAlbumTracks` from a given table state rather than over IPC.
- Event callbacks and shortcut callbacks are numbers naming them. Their effects are not modelled, so `fire` returns the calls it would make.
- `for ... in` visits event names in registration order here. JavaScript lists integer-like keys first, in numeric order.
- The listeners that the playback manager and `TrackList` register at construction or render are not modelled.
- `search()` returns the searched parameters instead of firing 'getLibrary'. The `dummy` path through `setLibrary` is not modelled.
- React rendering is represented only by the props of each element. The CD icon, the element keys and the CSS margins are not modelled; the separator's `mt-4` appears only as the `spaced` flag.
- `logs` with a 'remove' whose detail is not a number: JavaScript converts the detail to an integer; the model starts at 0 for any detail that is not an index.
- The reducer's in-place `splice` of the previous React state is not modelled. The model returns the new list only.
- `substring` and `length` count UTF-16 code units. The model counts characters.
