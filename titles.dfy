/**
  `limitTitle` of src/renderer/Components/Library/Library.js (20 characters) and of
  src/renderer/Components/MiniPlayer/MiniPlayer.js (25 characters, `''` when called without a title).
  Both call `trim()` and discard its result, so whitespace is kept.
*/
module Titles {
  import opened Wrappers

  const LibraryLimit := 20
  const MiniPlayerLimit := 25
  const Ellipsis := "..."

  /** `title.substring(0, limit)`, with '...' appended when something was cut off. */
  function Truncate(title: string, limit: nat): (r: string)
    ensures |title| <= limit ==> r == title
    ensures |title| > limit ==> r == title[..limit] + Ellipsis && |r| == limit + 3
    ensures |r| <= limit + 3
  {
    var temp := if |title| <= limit then title else title[..limit];
    if |title| > limit then temp + Ellipsis else temp
  }

  /** `limitTitle` of the library grid. */
  function LibraryTitle(title: string): string {
    Truncate(title, LibraryLimit)
  }

  /** `limitTitle` of the mini player; `None` is a call without an argument. */
  function MiniPlayerTitle(title: Option<string>): string {
    Truncate(title.GetOr(""), MiniPlayerLimit)
  }
}

module TitleProperties {
  import opened Wrappers
  import opened Titles

  /** The result starts with the first `limit` characters (or the whole title), whitespace included. */
  lemma TruncateKeepsPrefix(title: string, limit: nat)
    ensures var n := if |title| < limit then |title| else limit;
      title[..n] <= Truncate(title, limit)
  {
  }

  /** Truncating an already truncated title changes nothing. */
  lemma TruncateIdempotent(title: string, limit: nat)
    ensures Truncate(Truncate(title, limit), limit) == Truncate(title, limit)
  {
    if |title| > limit {
      var r := Truncate(title, limit);
      assert r[..limit] == title[..limit];
    }
  }

  /** The library grid keeps 20 characters, the mini player 25, and a missing title becomes ''. */
  lemma Limits(title: string)
    ensures |title| > 20 ==> LibraryTitle(title) == title[..20] + "..." && |LibraryTitle(title)| == 23
    ensures |title| > 25 ==> MiniPlayerTitle(Some(title)) == title[..25] + "..."
    ensures MiniPlayerTitle(None) == ""
  {
  }
}
