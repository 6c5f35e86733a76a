/**
  The playback queue of src/renderer/Controller/playbackmanager.js. The state is what the class keeps
  in `this.playback` (queue, position, playing track, its album) and whether `this.howl` has ever been
  set: `unload` stops a howl but leaves the field set, so the flag never goes back to false.

  `start` reads `queue[position]`; with the position outside the queue that is `undefined`, and
  reading its `albumID` is a TypeError that ends `start` there, with the track cleared and nothing
  else changed. Otherwise it awaits `getAlbum` on the database, given here as `library`: when the
  album row or its artist row is missing, `getAlbum` throws and `start` ends with the track set and
  the album and howl as they were.
*/
module Playback {
  import opened Wrappers
  import opened Seqs
  import opened LibrarySchema
  import opened LibraryQueries

  datatype PlaybackState = PlaybackState(
    album: Option<AlbumInfo>, track: Option<Track>, queue: seq<Track>, position: int, howl: bool)

  /** The state the constructor sets up. */
  const Initial: PlaybackState := PlaybackState(None, None, [], 0, false)

  /** Something is playing or paused: the position is inside the queue. */
  predicate Playing(p: PlaybackState) {
    0 <= p.position < |p.queue|
  }

  /**
    What every transition keeps: the position stays between 0 and the queue's length, and a playing
    position holds the playing track.
  */
  ghost predicate Coherent(p: PlaybackState) {
    && 0 <= p.position <= |p.queue|
    && (Playing(p) ==> p.track == Some(p.queue[p.position]))
  }

  /** The album on display is the playing track's. */
  ghost predicate AlbumAgrees(p: PlaybackState) {
    p.track.Some? ==> p.album.Some? && p.album.value.album.id == p.track.value.albumID
  }

  /** `getAlbum` succeeds for the album of every track of `tracks`. */
  ghost predicate Fetchable(tracks: seq<Track>, library: Tables) {
    forall i :: 0 <= i < |tracks| ==> GetAlbum(library, tracks[i].albumID).Some?
  }

  /** `start`: the track at the position, and when `getAlbum` resolves its album and a new howl. */
  function Started(p: PlaybackState, library: Tables): (r: PlaybackState)
    ensures r.queue == p.queue && r.position == p.position
    ensures Playing(p) ==> r.track == Some(p.queue[p.position])
    ensures Playing(p) && GetAlbum(library, p.queue[p.position].albumID).Some? ==>
      r.album == GetAlbum(library, p.queue[p.position].albumID) && r.howl
    ensures Playing(p) && GetAlbum(library, p.queue[p.position].albumID).None? ==>
      r.album == p.album && r.howl == p.howl
    ensures !Playing(p) ==> r == p.(track := None)
  {
    if Playing(p) then
      var track := p.queue[p.position];
      var fetched := GetAlbum(library, track.albumID);
      if fetched.Some? then p.(track := Some(track), album := fetched, howl := true)
      else p.(track := Some(track))
    else p.(track := None)
  }

  /** `stop`: back to the empty playback; only the howl field survives. */
  function Stopped(p: PlaybackState): PlaybackState {
    Initial.(howl := p.howl)
  }

  /** JavaScript's `Math.min` and `Math.max` on two integers. */
  function Min(a: int, b: int): int {
    if a < b then a else b
  }

  function Max(a: int, b: int): int {
    if a < b then b else a
  }

  /** `skipFwd`: the next track, or the empty playback after the last one. */
  function SkippedFwd(p: PlaybackState, library: Tables): PlaybackState {
    if !p.howl then p
    else
      var moved := p.(position := Min(|p.queue|, p.position + 1));
      if moved.position < |moved.queue| then Started(moved, library)
      else moved.(album := None, track := None, queue := [], position := 0)
  }

  /**
    `skipBwd`: more than five seconds into the track restarts it, otherwise the previous track.
    `pastFiveSeconds` stands for `this.howl.seek() > 5`.
  */
  function SkippedBwd(p: PlaybackState, pastFiveSeconds: bool, library: Tables): PlaybackState {
    if !p.howl then p
    else if pastFiveSeconds then Started(p, library)
    else Started(p.(position := Max(0, p.position - 1)), library)
  }

  /** `playTracks(tracks, jump)` */
  function TracksPlayed(p: PlaybackState, tracks: seq<Track>, jump: int, library: Tables): PlaybackState {
    Started(p.(queue := tracks, position := jump), library)
  }

  /**
    `addNext(tracks)`: a single track goes right after the position; more (or none) replace what
    follows the position. Playback starts when nothing was playing.
  */
  function AddedNext(p: PlaybackState, tracks: seq<Track>, library: Tables): PlaybackState {
    var playing := p.position != |p.queue|;
    var k := SpliceStart(p.position + 1, |p.queue|);
    var queue := if |tracks| == 1 then p.queue[..k] + [tracks[0]] + p.queue[k..] else p.queue[..k] + tracks;
    var q := p.(queue := queue);
    if !playing then Started(q, library) else q
  }

  /** `addToQueue(tracks)`: the tracks at the end; playback starts when nothing was playing. */
  function AddedToQueue(p: PlaybackState, tracks: seq<Track>, library: Tables): PlaybackState {
    var playing := p.position != |p.queue|;
    var q := p.(queue := p.queue + tracks);
    if !playing then Started(q, library) else q
  }

  /** The `sourceType`/`detail` pair of `getTracks`. */
  datatype TrackSource = AlbumSource(albumID: nat) | OneTrack(track: Track) | SomeTracks(tracks: seq<Track>) | NoSource

  datatype Destination = ToPlayTracks | ToAddNext | ToAddToQueue | NoDestination

  /**
    The first switch of `getTracks`: an album's tracks come from `getAlbumTracks` on `library`, a
    track becomes a one-track list, a list is taken as it is, anything else gives no tracks.
  */
  function SourceTracks(source: TrackSource, library: Tables): (r: seq<Track>)
    ensures source.OneTrack? ==> r == [source.track]
    ensures source.SomeTracks? ==> r == source.tracks
    ensures source.AlbumSource? ==> r == GetAlbumTracks(library, source.albumID)
    ensures source.NoSource? ==> r == []
  {
    match source
    case AlbumSource(id) => GetAlbumTracks(library, id)
    case OneTrack(track) => [track]
    case SomeTracks(tracks) => tracks
    case NoSource => []
  }

  /**
    The second switch of `getTracks`; `jump` is the caller's, 0 when the caller leaves it out.
  */
  function TracksFetched(p: PlaybackState, source: TrackSource, destination: Destination, jump: int, library: Tables): PlaybackState {
    var tracks := SourceTracks(source, library);
    match destination
    case ToPlayTracks => TracksPlayed(p, tracks, jump, library)
    case ToAddNext => AddedNext(p, tracks, library)
    case ToAddToQueue => AddedToQueue(p, tracks, library)
    case NoDestination => p
  }

  /**
    The object `this.playback` and `this.howl` live in. Every method that may reach `start` takes
    the database `getAlbum` reads as `library`.
  */
  class PlaybackManager {
    var album: Option<AlbumInfo>
    var track: Option<Track>
    var queue: seq<Track>
    var position: int
    var howl: bool

    function State(): PlaybackState
      reads this
    {
      PlaybackState(album, track, queue, position, howl)
    }

    ghost predicate Valid()
      reads this
    {
      Coherent(State())
    }

    constructor()
      ensures State() == Initial && Valid()
    {
      album, track, queue, position, howl := None, None, [], 0, false;
    }

    method Start(library: Tables)
      modifies this
      ensures State() == Started(old(State()), library)
      ensures old(Valid()) ==> Valid()
    {
      if 0 <= position < |queue| {
        track := Some(queue[position]);
        var fetched := GetAlbum(library, track.value.albumID);
        if fetched.Some? {
          album := fetched;
          howl := true;
        }
      } else {
        track := None;
      }
    }

    method Stop()
      modifies this
      ensures State() == Stopped(old(State()))
      ensures Valid()
    {
      album, track, queue, position := None, None, [], 0;
    }

    method SkipFwd(library: Tables)
      modifies this
      ensures State() == SkippedFwd(old(State()), library)
      ensures old(Valid()) ==> Valid()
    {
      if !howl {
        return;
      }
      position := Min(|queue|, position + 1);
      if position < |queue| {
        Start(library);
      } else {
        album, track, queue, position := None, None, [], 0;
      }
    }

    method SkipBwd(pastFiveSeconds: bool, library: Tables)
      modifies this
      ensures State() == SkippedBwd(old(State()), pastFiveSeconds, library)
      ensures old(Valid()) ==> Valid()
    {
      if !howl {
        return;
      }
      if pastFiveSeconds {
        Start(library);
        return;
      }
      position := Max(0, position - 1);
      Start(library);
    }

    method PlayTracks(tracks: seq<Track>, jump: int, library: Tables)
      modifies this
      ensures State() == TracksPlayed(old(State()), tracks, jump, library)
      ensures 0 <= jump <= |tracks| ==> Valid()
    {
      queue := tracks;
      position := jump;
      Start(library);
    }

    method AddNext(tracks: seq<Track>, library: Tables)
      modifies this
      ensures State() == AddedNext(old(State()), tracks, library)
      ensures old(Valid()) ==> Valid()
    {
      var playing := position != |queue|;
      var k := SpliceStart(position + 1, |queue|);
      ghost var current := if 0 <= position < |queue| then Some(queue[position]) else None;
      if |tracks| == 1 {
        queue := queue[..k] + [tracks[0]] + queue[k..];
      } else {
        queue := queue[..k];
        queue := queue + tracks;
      }
      if !playing {
        Start(library);
      } else if current.Some? {
        assert queue[position] == current.value;
      }
    }

    method AddToQueue(tracks: seq<Track>, library: Tables)
      modifies this
      ensures State() == AddedToQueue(old(State()), tracks, library)
      ensures old(Valid()) ==> Valid()
    {
      var playing := position != |queue|;
      queue := queue + tracks;
      if !playing {
        Start(library);
      }
    }

    method GetTracks(source: TrackSource, destination: Destination, jump: int, library: Tables)
      modifies this
      ensures State() == TracksFetched(old(State()), source, destination, jump, library)
      ensures old(Valid()) && (destination == ToPlayTracks ==> 0 <= jump <= |SourceTracks(source, library)|) ==> Valid()
    {
      var tracks := SourceTracks(source, library);
      match destination {
        case ToPlayTracks => PlayTracks(tracks, jump, library);
        case ToAddNext => AddNext(tracks, library);
        case ToAddToQueue => AddToQueue(tracks, library);
        case NoDestination =>
      }
    }
  }
}

module PlaybackProperties {
  import opened Wrappers
  import opened LibrarySchema
  import opened LibraryQueries
  import opened QueryProperties
  import opened Seqs
  import opened Playback

  lemma InitialCoherent()
    ensures Coherent(Initial) && AlbumAgrees(Initial) && !Playing(Initial)
  {
  }

  /** Without a howl, skipping either way changes nothing. */
  lemma SkipWithoutHowl(p: PlaybackState, pastFiveSeconds: bool, library: Tables)
    requires !p.howl
    ensures SkippedFwd(p, library) == p && SkippedBwd(p, pastFiveSeconds, library) == p
  {
  }

  /**
    `start` inside the queue shows the album `getAlbum` returns, which is the playing track's; when
    `getAlbum` throws, only the track has changed.
  */
  lemma StartSpec(p: PlaybackState, library: Tables)
    requires Playing(p)
    ensures var r := Started(p, library);
      var t := p.queue[p.position];
      && r.track == Some(t)
      && (GetAlbum(library, t.albumID).Some? ==>
            r.howl && r.album.Some? && r.album.value.album.id == t.albumID && r.album.value.album in library.albums)
      && (GetAlbum(library, t.albumID).None? ==> r == p.(track := Some(t)))
  {
    GetAlbumSpec(library, p.queue[p.position].albumID);
  }

  /**
    `skipFwd` moves to `min(|queue|, position + 1)`: inside the queue it plays that track, past the
    end it empties the playback.
  */
  lemma SkipFwdSpec(p: PlaybackState, library: Tables)
    requires p.howl
    ensures var r := SkippedFwd(p, library);
      var next := if p.position + 1 < |p.queue| then p.position + 1 else |p.queue|;
      && (0 <= next < |p.queue| ==>
            r.position == next && r.queue == p.queue && r.track == Some(p.queue[next]) && r.howl)
      && (next == |p.queue| ==> r == Stopped(p))
  {
  }

  /**
    `skipBwd` restarts the track after five seconds, otherwise moves back one place but never below
    zero; either way it starts the track at the new position.
  */
  lemma SkipBwdSpec(p: PlaybackState, pastFiveSeconds: bool, library: Tables)
    requires p.howl
    ensures var r := SkippedBwd(p, pastFiveSeconds, library);
      && r.queue == p.queue && r.howl
      && r.position == (if pastFiveSeconds then p.position else if p.position >= 1 then p.position - 1 else 0)
      && (0 <= r.position < |r.queue| ==> r.track == Some(r.queue[r.position]))
      && (!pastFiveSeconds ==> r.position >= 0)
  {
  }

  /** `playTracks` makes the list the queue and plays the chosen track of it. */
  lemma PlayTracksSpec(p: PlaybackState, tracks: seq<Track>, jump: int, library: Tables)
    requires 0 <= jump < |tracks|
    ensures var r := TracksPlayed(p, tracks, jump, library);
      && r.queue == tracks && r.position == jump && r.track == Some(tracks[jump])
      && (GetAlbum(library, tracks[jump].albumID).Some? ==> r.album.Some? && r.album.value.album.id == tracks[jump].albumID)
  {
    GetAlbumSpec(library, tracks[jump].albumID);
  }

  /**
    `addNext` with a single track inserts it at the spliced place and keeps every other track in
    order; with any other number it keeps the queue up to the place and appends the tracks.
  */
  lemma AddNextSpec(p: PlaybackState, tracks: seq<Track>, library: Tables)
    ensures var r := AddedNext(p, tracks, library);
      var k := SpliceStart(p.position + 1, |p.queue|);
      && r.position == p.position
      && (|tracks| == 1 ==>
            && |r.queue| == |p.queue| + 1 && r.queue[k] == tracks[0]
            && r.queue[..k] + r.queue[k + 1..] == p.queue)
      && (|tracks| != 1 ==> r.queue == p.queue[..k] + tracks)
      && (p.position != |p.queue| ==> r.track == p.track && r.album == p.album && r.howl == p.howl)
  {
    var k := SpliceStart(p.position + 1, |p.queue|);
    var r := AddedNext(p, tracks, library);
    if |tracks| == 1 {
      assert r.queue[..k] == p.queue[..k];
      assert r.queue[k + 1..] == p.queue[k..];
      assert p.queue == p.queue[..k] + p.queue[k..];
    }
  }

  /** While a track plays, `addNext` puts a single track right after it. */
  lemma AddNextWhilePlaying(p: PlaybackState, x: Track, library: Tables)
    requires Playing(p)
    ensures var r := AddedNext(p, [x], library);
      r.queue[p.position + 1] == x && r.queue[p.position] == p.queue[p.position]
  {
  }

  /** `addToQueue` appends, keeps the position, and starts only when nothing was playing. */
  lemma AddToQueueSpec(p: PlaybackState, tracks: seq<Track>, library: Tables)
    ensures var r := AddedToQueue(p, tracks, library);
      && r.queue == p.queue + tracks && r.position == p.position
      && (p.position != |p.queue| ==> r == p.(queue := p.queue + tracks))
      && (p.position == |p.queue| && |tracks| > 0 ==> r.track == Some(tracks[0]))
  {
  }

  /** `stop` returns to the constructor's state apart from the howl. */
  lemma StopSpec(p: PlaybackState)
    ensures Stopped(p).(howl := false) == Initial
  {
  }

  /**
    Every transition keeps the position within the queue and the playing track at the position,
    whatever `getAlbum` does; `playTracks` needs a jump inside the list.
  */
  lemma TransitionsKeepCoherent(p: PlaybackState, tracks: seq<Track>, jump: int, pastFiveSeconds: bool, library: Tables)
    requires Coherent(p)
    ensures Coherent(Started(p, library)) && Coherent(Stopped(p))
    ensures Coherent(SkippedFwd(p, library)) && Coherent(SkippedBwd(p, pastFiveSeconds, library))
    ensures Coherent(AddedNext(p, tracks, library)) && Coherent(AddedToQueue(p, tracks, library))
    ensures 0 <= jump <= |tracks| ==> Coherent(TracksPlayed(p, tracks, jump, library))
  {
    AddNextKeepsCoherent(p, tracks, library);
  }

  lemma AddNextKeepsCoherent(p: PlaybackState, tracks: seq<Track>, library: Tables)
    requires Coherent(p)
    ensures Coherent(AddedNext(p, tracks, library))
  {
    var k := SpliceStart(p.position + 1, |p.queue|);
    var r := AddedNext(p, tracks, library);
    if Playing(p) {
      assert k == p.position + 1;
      assert r.queue[p.position] == p.queue[p.position];
    }
  }

  /** Starting a track whose album `getAlbum` finds shows that album. */
  lemma StartedAgrees(p: PlaybackState, library: Tables)
    requires AlbumAgrees(p) && Fetchable(p.queue, library)
    ensures AlbumAgrees(Started(p, library))
  {
    if Playing(p) {
      GetAlbumSpec(library, p.queue[p.position].albumID);
    }
  }

  /**
    While `getAlbum` finds the album of every queued and every added track, every transition keeps
    the album on display the playing track's, and the queue stays fetchable.
  */
  lemma TransitionsKeepAlbum(p: PlaybackState, tracks: seq<Track>, jump: int, pastFiveSeconds: bool, library: Tables)
    requires Coherent(p) && AlbumAgrees(p) && Fetchable(p.queue, library) && Fetchable(tracks, library)
    ensures AlbumAgrees(Started(p, library)) && AlbumAgrees(Stopped(p))
    ensures AlbumAgrees(SkippedFwd(p, library)) && AlbumAgrees(SkippedBwd(p, pastFiveSeconds, library))
    ensures AlbumAgrees(AddedNext(p, tracks, library)) && Fetchable(AddedNext(p, tracks, library).queue, library)
    ensures AlbumAgrees(AddedToQueue(p, tracks, library)) && Fetchable(AddedToQueue(p, tracks, library).queue, library)
    ensures AlbumAgrees(TracksPlayed(p, tracks, jump, library))
  {
    StartedAgrees(p, library);
    StartedAgrees(p.(position := Min(|p.queue|, p.position + 1)), library);
    StartedAgrees(p.(position := Max(0, p.position - 1)), library);
    StartedAgrees(p.(queue := tracks, position := jump), library);
    AddNextAgrees(p, tracks, library);
    FetchableAppend(p.queue, tracks, library);
    StartedAgrees(p.(queue := p.queue + tracks), library);
  }

  lemma AddNextAgrees(p: PlaybackState, tracks: seq<Track>, library: Tables)
    requires AlbumAgrees(p) && Fetchable(p.queue, library) && Fetchable(tracks, library)
    ensures AlbumAgrees(AddedNext(p, tracks, library)) && Fetchable(AddedNext(p, tracks, library).queue, library)
  {
    var k := SpliceStart(p.position + 1, |p.queue|);
    FetchableSlice(p.queue, 0, k, library);
    FetchableSlice(p.queue, k, |p.queue|, library);
    assert p.queue[0..k] == p.queue[..k] && p.queue[k..|p.queue|] == p.queue[k..];
    if |tracks| == 1 {
      FetchableSlice(tracks, 0, 1, library);
      assert tracks[0..1] == [tracks[0]];
      FetchableAppend(p.queue[..k], [tracks[0]], library);
      FetchableAppend(p.queue[..k] + [tracks[0]], p.queue[k..], library);
      StartedAgrees(p.(queue := p.queue[..k] + [tracks[0]] + p.queue[k..]), library);
    } else {
      FetchableAppend(p.queue[..k], tracks, library);
      StartedAgrees(p.(queue := p.queue[..k] + tracks), library);
    }
  }

  lemma FetchableAppend(a: seq<Track>, b: seq<Track>, library: Tables)
    requires Fetchable(a, library) && Fetchable(b, library)
    ensures Fetchable(a + b, library)
  {
    forall i | 0 <= i < |a + b| ensures GetAlbum(library, (a + b)[i].albumID).Some? {
      if i < |a| {
        assert (a + b)[i] == a[i];
      } else {
        assert (a + b)[i] == b[i - |a|];
      }
    }
  }

  lemma FetchableSlice(a: seq<Track>, lo: int, hi: int, library: Tables)
    requires Fetchable(a, library) && 0 <= lo <= hi <= |a|
    ensures Fetchable(a[lo..hi], library)
  {
    forall i | 0 <= i < hi - lo ensures GetAlbum(library, a[lo..hi][i].albumID).Some? {
      assert a[lo..hi][i] == a[lo + i];
    }
  }

  /**
    When `getAlbum` throws for the first added track, `addToQueue` on an idle player that never had
    a howl sets the track but leaves the album and creates no howl, so a later `skipFwd` does nothing.
  */
  lemma FailedFetchStalls(p: PlaybackState, tracks: seq<Track>, library: Tables)
    requires !p.howl && p.position == |p.queue| && |tracks| > 0
    requires GetAlbum(library, tracks[0].albumID).None?
    ensures var r := AddedToQueue(p, tracks, library);
      && r.track == Some(tracks[0]) && r.album == p.album && !r.howl
      && SkippedFwd(r, library) == r
  {
    var q := p.(queue := p.queue + tracks);
    assert q.queue[q.position] == tracks[0];
  }

  /** In a consistent database `getAlbum` finds the album of every stored track. */
  lemma StoredTracksFetchable(library: Tables, tracks: seq<Track>)
    requires Consistent(library)
    requires forall i :: 0 <= i < |tracks| ==> tracks[i] in library.tracks
    ensures Fetchable(tracks, library)
  {
    forall i | 0 <= i < |tracks| ensures GetAlbum(library, tracks[i].albumID).Some? {
      var n :| 0 <= n < |library.tracks| && library.tracks[n] == tracks[i];
      GetAlbumOfKnownAlbum(library, tracks[i].albumID);
    }
  }

  /** So the tracks of an album source of a consistent database are fetchable. */
  lemma AlbumSourceFetchable(library: Tables, albumID: nat)
    requires Consistent(library)
    ensures Fetchable(SourceTracks(AlbumSource(albumID), library), library)
  {
    var r := GetAlbumTracks(library, albumID);
    GetAlbumTracksSpec(library, albumID);
    forall i | 0 <= i < |r| ensures r[i] in library.tracks {
      assert r[i] in multiset(r);
      assert multiset(library.tracks)[r[i]] > 0;
    }
    StoredTracksFetchable(library, r);
  }

  /** `getTracks` forwards a single track as a one-track list and a list as it is. */
  lemma GetTracksDispatch(p: PlaybackState, x: Track, xs: seq<Track>, destination: Destination, jump: int, library: Tables)
    ensures TracksFetched(p, OneTrack(x), destination, jump, library) == TracksFetched(p, SomeTracks([x]), destination, jump, library)
    ensures TracksFetched(p, SomeTracks(xs), ToAddToQueue, jump, library) == AddedToQueue(p, xs, library)
    ensures TracksFetched(p, NoSource, ToAddToQueue, jump, library) == AddedToQueue(p, [], library)
  {
  }
}
