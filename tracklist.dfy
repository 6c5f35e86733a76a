/**
  The list layout of src/renderer/Components/TrackList/TrackList.js: for every track, in order, an
  optional disc separator and a track entry with its CSS classes, its playing flag and the tracks
  that clicking it plays. React elements are modelled by the props they are given.
*/
module TrackList {
  import opened Wrappers
  import opened LibrarySchema

  const AlbumDetailsParent := "albumDetails"
  const QueueParent := "queue"
  const TopClass := "track-top"
  const BottomClass := "track-bottom"

  /** What the list reads of the playback manager: `track`, `playing()` and `position`. */
  datatype PlaybackView = PlaybackView(track: Option<Track>, playing: bool, position: int)

  /** A disc separator (with the extra top margin `mt-4` past the first disc) or a `Track` element. */
  datatype Entry =
    | DiscSeparator(disc: int, spaced: bool)
    | TrackItem(track: Track, classes: seq<string>, playing: bool, tracksToPlay: seq<Track>)

  /** Inside the album details, a track numbered 1 opens a disc. */
  predicate OpensDisc(t: Track, parent: string) {
    t.trackOrder == Some(1) && parent == AlbumDetailsParent
  }

  /** Track `i` closes a block: it is the last one, or in the album details the next one is on another disc. */
  predicate ClosesBlock(tracks: seq<Track>, i: nat, parent: string)
    requires i < |tracks|
  {
    i == |tracks| - 1 || (tracks[i + 1].disc != tracks[i].disc && parent == AlbumDetailsParent)
  }

  function Classes(tracks: seq<Track>, i: nat, parent: string): (r: seq<string>)
    requires i < |tracks|
    ensures TopClass in r <==> i == 0 || OpensDisc(tracks[i], parent)
    ensures BottomClass in r <==> ClosesBlock(tracks, i, parent)
  {
    (if i == 0 || OpensDisc(tracks[i], parent) then [TopClass] else [])
    + (if ClosesBlock(tracks, i, parent) then [BottomClass] else [])
  }

  /** The queue marks the entry at the playing position; every other list marks the playing track's id. */
  predicate IsPlaying(playback: PlaybackView, tracks: seq<Track>, i: nat, parent: string)
    requires i < |tracks|
  {
    && playback.track.Some? && playback.playing
    && ((parent != QueueParent && playback.track.value.id == tracks[i].id) || (parent == QueueParent && i == playback.position))
  }

  /** The `Track` element of track `i`. */
  function ItemAt(tracks: seq<Track>, playback: PlaybackView, parent: string, i: nat): Entry
    requires i < |tracks|
  {
    TrackItem(tracks[i], Classes(tracks, i, parent), IsPlaying(playback, tracks, i, parent), tracks[i..])
  }

  /** What one iteration pushes. */
  function EntriesAt(tracks: seq<Track>, playback: PlaybackView, parent: string, i: nat): seq<Entry>
    requires i < |tracks|
  {
    (if OpensDisc(tracks[i], parent) then [DiscSeparator(tracks[i].disc, tracks[i].disc > 1)] else [])
    + [ItemAt(tracks, playback, parent, i)]
  }

  /** What the iterations from `i` on push. */
  function Rendered(tracks: seq<Track>, playback: PlaybackView, parent: string, i: nat): seq<Entry>
    requires i <= |tracks|
    decreases |tracks| - i
  {
    if i == |tracks| then [] else EntriesAt(tracks, playback, parent, i) + Rendered(tracks, playback, parent, i + 1)
  }

  /** The `for` loop of `TrackList`. */
  method Render(tracks: seq<Track>, playback: PlaybackView, parent: string) returns (trackList: seq<Entry>)
    ensures trackList == Rendered(tracks, playback, parent, 0)
  {
    trackList := [];
    for i := 0 to |tracks|
      invariant trackList + Rendered(tracks, playback, parent, i) == Rendered(tracks, playback, parent, 0)
    {
      var track := tracks[i];
      var pushed: seq<Entry> := [];
      if track.trackOrder == Some(1) && parent == AlbumDetailsParent {
        pushed := pushed + [DiscSeparator(track.disc, track.disc > 1)];
      }
      var item := RenderTrack(tracks, playback, parent, i);
      pushed := pushed + [item];
      RenderStep(trackList, pushed, tracks, playback, parent, i);
      trackList := trackList + pushed;
    }
  }

  /** The `Track` element of one iteration: its classes, playing flag and tracks to play. */
  method RenderTrack(tracks: seq<Track>, playback: PlaybackView, parent: string, i: nat) returns (item: Entry)
    requires i < |tracks|
    ensures item == ItemAt(tracks, playback, parent, i)
  {
    var track := tracks[i];
    var playing := playback.track.Some? && playback.playing
      && ((parent != QueueParent && playback.track.value.id == track.id) || (parent == QueueParent && i == playback.position));
    var classes: seq<string> := [];
    if i == 0 || (track.trackOrder == Some(1) && parent == AlbumDetailsParent) {
      classes := classes + [TopClass];
    }
    if i == |tracks| - 1 || (tracks[i + 1].disc != track.disc && parent == AlbumDetailsParent) {
      classes := classes + [BottomClass];
    }
    var tracksToPlay := tracks[i..];
    item := TrackItem(track, classes, playing, tracksToPlay);
  }

  lemma RenderStep(done: seq<Entry>, pushed: seq<Entry>, tracks: seq<Track>, playback: PlaybackView, parent: string, i: nat)
    requires i < |tracks| && pushed == EntriesAt(tracks, playback, parent, i)
    ensures done + Rendered(tracks, playback, parent, i) == (done + pushed) + Rendered(tracks, playback, parent, i + 1)
  {
  }
}

module TrackListProperties {
  import opened Wrappers
  import opened Seqs
  import opened LibrarySchema
  import opened TrackList

  /** The `Track` elements of a list, in order. */
  function TrackItems(entries: seq<Entry>): seq<Entry> {
    if |entries| == 0 then []
    else (if entries[0].TrackItem? then [entries[0]] else []) + TrackItems(entries[1..])
  }

  lemma {:induction false} TrackItemsConcat(a: seq<Entry>, b: seq<Entry>)
    ensures TrackItems(a + b) == TrackItems(a) + TrackItems(b)
  {
    if |a| > 0 {
      assert (a + b)[0] == a[0] && (a + b)[1..] == a[1..] + b;
      TrackItemsConcat(a[1..], b);
    } else {
      assert a + b == b;
    }
  }

  /**
    The track entries are one per track, in order: entry `k` shows `tracks[k]`, with its classes, its
    playing flag and the suffix `tracks[k..]` to play, as `ItemAt` gives them.
  */
  lemma {:induction false} RenderedTrackItems(tracks: seq<Track>, playback: PlaybackView, parent: string, i: nat)
    requires i <= |tracks|
    ensures TrackItems(Rendered(tracks, playback, parent, i)) == ItemsFrom(tracks, playback, parent, i)
    decreases |tracks| - i
  {
    if i < |tracks| {
      RenderedTrackItems(tracks, playback, parent, i + 1);
      ItemsStep(tracks, playback, parent, i);
      ItemsFromStep(tracks, playback, parent, i);
    }
  }

  /** The entries of tracks `i`, `i + 1`, ... as `ItemAt` describes them. */
  function ItemsFrom(tracks: seq<Track>, playback: PlaybackView, parent: string, i: nat): seq<Entry>
    requires i <= |tracks|
  {
    seq(|tracks| - i, k requires 0 <= k < |tracks| - i => ItemAt(tracks, playback, parent, i + k))
  }

  lemma ItemsFromStep(tracks: seq<Track>, playback: PlaybackView, parent: string, i: nat)
    requires i < |tracks|
    ensures ItemsFrom(tracks, playback, parent, i) == [ItemAt(tracks, playback, parent, i)] + ItemsFrom(tracks, playback, parent, i + 1)
  {
    var all := ItemsFrom(tracks, playback, parent, i);
    var rest := ItemsFrom(tracks, playback, parent, i + 1);
    forall k | 0 < k < |all|
      ensures all[k] == rest[k - 1]
    {
      assert i + 1 + (k - 1) == i + k;
    }
  }

  /** The track entries from `i` on: the one of track `i`, then those from `i + 1` on. */
  lemma ItemsStep(tracks: seq<Track>, playback: PlaybackView, parent: string, i: nat)
    requires i < |tracks|
    ensures TrackItems(Rendered(tracks, playback, parent, i))
         == [ItemAt(tracks, playback, parent, i)] + TrackItems(Rendered(tracks, playback, parent, i + 1))
  {
    var here := EntriesAt(tracks, playback, parent, i);
    TrackItemsConcat(here, Rendered(tracks, playback, parent, i + 1));
    EntriesAtItems(tracks, playback, parent, i);
  }

  lemma EntriesAtItems(tracks: seq<Track>, playback: PlaybackView, parent: string, i: nat)
    requires i < |tracks|
    ensures TrackItems(EntriesAt(tracks, playback, parent, i)) == [ItemAt(tracks, playback, parent, i)]
  {
    var item := ItemAt(tracks, playback, parent, i);
    if OpensDisc(tracks[i], parent) {
      var sep := DiscSeparator(tracks[i].disc, tracks[i].disc > 1);
      TrackItemsConcat([sep], [item]);
    }
    assert TrackItems([item]) == [item];
  }

  /** The whole list: exactly one track entry per input track, in input order. */
  lemma OneEntryPerTrack(tracks: seq<Track>, playback: PlaybackView, parent: string)
    ensures var items := TrackItems(Rendered(tracks, playback, parent, 0));
      && |items| == |tracks|
      && forall k :: 0 <= k < |items| ==> items[k].TrackItem? && items[k].track == tracks[k] && items[k].tracksToPlay == tracks[k..]
  {
    RenderedTrackItems(tracks, playback, parent, 0);
  }

  /** Every separator is followed by a track entry opening its disc, and every such entry follows a separator. */
  predicate SeparatorsPrecedeDiscs(r: seq<Entry>, parent: string) {
    && (forall p :: 0 <= p < |r| && r[p].DiscSeparator? ==>
          p + 1 < |r| && r[p + 1].TrackItem? && OpensDisc(r[p + 1].track, parent) && r[p].disc == r[p + 1].track.disc)
    && (forall p :: 0 <= p < |r| && r[p].TrackItem? && OpensDisc(r[p].track, parent) ==> p > 0 && r[p - 1].DiscSeparator?)
  }

  /** A disc separator is shown exactly before the tracks that open a disc in the album details. */
  lemma {:induction false} SeparatorsOpenDiscs(tracks: seq<Track>, playback: PlaybackView, parent: string, i: nat)
    requires i <= |tracks|
    ensures SeparatorsPrecedeDiscs(Rendered(tracks, playback, parent, i), parent)
    decreases |tracks| - i
  {
    if i < |tracks| {
      SeparatorsOpenDiscs(tracks, playback, parent, i + 1);
      var here := EntriesAt(tracks, playback, parent, i);
      var rest := Rendered(tracks, playback, parent, i + 1);
      SeparatorsStep(here, rest, parent, tracks[i]);
    }
  }

  lemma SeparatorsStep(here: seq<Entry>, rest: seq<Entry>, parent: string, t: Track)
    requires SeparatorsPrecedeDiscs(rest, parent)
    requires |here| > 0 && here[|here| - 1].TrackItem? && here[|here| - 1].track == t
    requires here == (if OpensDisc(t, parent) then [DiscSeparator(t.disc, t.disc > 1)] else []) + [here[|here| - 1]]
    ensures SeparatorsPrecedeDiscs(here + rest, parent)
  {
    var r := here + rest;
    var n := |here|;
    forall p | 0 <= p < |r| && r[p].DiscSeparator?
      ensures p + 1 < |r| && r[p + 1].TrackItem? && OpensDisc(r[p + 1].track, parent) && r[p].disc == r[p + 1].track.disc
    {
      if p >= n {
        assert r[p] == rest[p - n];
        assert p - n + 1 < |rest|;
        assert r[p + 1] == rest[p - n + 1];
      }
    }
    forall p | 0 <= p < |r| && r[p].TrackItem? && OpensDisc(r[p].track, parent)
      ensures p > 0 && r[p - 1].DiscSeparator?
    {
      if p >= n {
        assert r[p] == rest[p - n];
        assert p - n > 0;
        assert r[p - 1] == rest[p - n - 1];
      }
    }
  }

  /** In the queue at most one entry is marked playing: the one at the playback position. */
  lemma QueuePlaysOneEntry(tracks: seq<Track>, playback: PlaybackView, i: nat, j: nat)
    requires i < |tracks| && j < |tracks|
    requires IsPlaying(playback, tracks, i, QueueParent) && IsPlaying(playback, tracks, j, QueueParent)
    ensures i == j == playback.position
  {
  }

  /** Elsewhere exactly the entries showing the current track are marked, and none while paused or stopped. */
  lemma PlayingMarksCurrentTrack(tracks: seq<Track>, playback: PlaybackView, parent: string, i: nat)
    requires i < |tracks| && parent != QueueParent
    ensures IsPlaying(playback, tracks, i, parent) <==>
      playback.playing && playback.track.Some? && playback.track.value.id == tracks[i].id
  {
  }
}
