/**
  The string operations the JavaScript code relies on, written out: ASCII case folding and substring
  search (SQLite `LIKE`, `String.prototype.indexOf`), `String.prototype.trim`, the genre splitter
  `split(/[,\/]/)`, `Array.prototype.join`, `Number.prototype.toString` for non-negative integers and
  Node's POSIX `path.extname` / `path.dirname`.
*/
module Text {
  import opened Wrappers

  // ---------------------------------------------------------------------------------------------
  // Case folding and substring search

  /** Case folding restricted to ASCII letters, which is what SQLite's `LIKE` folds. */
  function LowerChar(c: char): char {
    if 'A' <= c <= 'Z' then (c as int - 'A' as int + 'a' as int) as char else c
  }

  function Lower(s: string): (r: string)
    ensures |r| == |s|
    ensures forall k :: 0 <= k < |s| ==> r[k] == LowerChar(s[k])
  {
    if |s| == 0 then "" else [LowerChar(s[0])] + Lower(s[1..])
  }

  /** `part` occurs in `s` at some position (`s.indexOf(part) != -1`). */
  predicate Contains(s: string, part: string)
    decreases |s|
  {
    part <= s || (|s| > 0 && Contains(s[1..], part))
  }

  /** Case-insensitive substring test, `s LIKE '%part%'` for a pattern without wildcards. */
  predicate ContainsFolded(s: string, part: string) {
    Contains(Lower(s), Lower(part))
  }

  /** The occurrence found by `Contains` is a real slice of `s`, and every slice is found. */
  lemma {:induction false} ContainsAt(s: string, part: string, i: nat)
    requires i + |part| <= |s| && s[i..i + |part|] == part
    ensures Contains(s, part)
    decreases i
  {
    if i > 0 {
      assert s[1..][i - 1..i - 1 + |part|] == s[i..i + |part|];
      ContainsAt(s[1..], part, i - 1);
    } else {
      assert part <= s;
    }
  }

  // ---------------------------------------------------------------------------------------------
  // String.prototype.trim

  /** ECMAScript WhiteSpace and LineTerminator code points, the characters `trim` removes. */
  predicate IsSpace(c: char) {
    || c == ' ' || ('\t' <= c <= '\r')
    || c == '\U{A0}' || c == '\U{1680}' || ('\U{2000}' <= c <= '\U{200A}')
    || c == '\U{2028}' || c == '\U{2029}' || c == '\U{202F}' || c == '\U{205F}'
    || c == '\U{3000}' || c == '\U{FEFF}'
  }

  function TrimStart(s: string): (r: string)
    ensures |r| <= |s| && r == s[|s| - |r|..]
    ensures |r| > 0 ==> !IsSpace(r[0])
    ensures forall k :: 0 <= k < |s| - |r| ==> IsSpace(s[k])
  {
    if |s| > 0 && IsSpace(s[0]) then TrimStart(s[1..]) else s
  }

  function TrimEnd(s: string): (r: string)
    ensures r <= s
    ensures |r| > 0 ==> !IsSpace(r[|r| - 1])
    ensures forall k :: |r| <= k < |s| ==> IsSpace(s[k])
  {
    if |s| > 0 && IsSpace(s[|s| - 1]) then TrimEnd(s[..|s| - 1]) else s
  }

  /** `s.trim()`: `s` without its leading and trailing white space. */
  function Trim(s: string): (r: string)
    ensures |r| == 0 || (!IsSpace(r[0]) && !IsSpace(r[|r| - 1]))
  {
    TrimEnd(TrimStart(s))
  }

  /** Trimming a string that has no white space at either end changes nothing. */
  lemma TrimOfTrimmed(s: string)
    requires |s| == 0 || (!IsSpace(s[0]) && !IsSpace(s[|s| - 1]))
    ensures Trim(s) == s
  {
    assert TrimStart(s) == s;
  }

  /** What `trim` keeps is a slice of the input with only white space around it. */
  lemma TrimIsSlice(s: string)
    ensures Contains(s, Trim(s))
  {
    var t := TrimStart(s);
    PrefixOfSuffix(s, t, TrimEnd(t));
  }

  /** A prefix of a suffix of `s` occurs in `s`. */
  lemma PrefixOfSuffix(s: string, t: string, e: string)
    requires |t| <= |s| && t == s[|s| - |t|..] && e <= t
    ensures Contains(s, e)
  {
    var i := |s| - |t|;
    assert s[i..i + |e|] == e;
    ContainsAt(s, e, i);
  }

  // ---------------------------------------------------------------------------------------------
  // Genre splitting and joining

  /** The characters the regular expression `/[,\/]/` matches. */
  predicate IsGenreDelimiter(c: char) {
    c == ',' || c == '/'
  }

  /** `s.split(/[,\/]/)`: the pieces between delimiters, empty pieces included. */
  function SplitGenres(s: string): (parts: seq<string>)
    ensures |parts| >= 1
    ensures forall k :: 0 <= k < |parts| ==> forall c :: c in parts[k] ==> !IsGenreDelimiter(c)
  {
    if |s| == 0 then [""]
    else
      var rest := SplitGenres(s[1..]);
      if IsGenreDelimiter(s[0]) then [""] + rest
      else [[s[0]] + rest[0]] + rest[1..]
  }

  function DelimiterCount(s: string): nat {
    if |s| == 0 then 0 else (if IsGenreDelimiter(s[0]) then 1 else 0) + DelimiterCount(s[1..])
  }

  /** `parts.join(sep)`. */
  function Join(parts: seq<string>, sep: string): string {
    if |parts| == 0 then ""
    else if |parts| == 1 then parts[0]
    else parts[0] + sep + Join(parts[1..], sep)
  }

  /** There is one more piece than there are delimiters. */
  lemma {:induction false} SplitGenresCount(s: string)
    ensures |SplitGenres(s)| == DelimiterCount(s) + 1
  {
    if |s| > 0 {
      SplitGenresCount(s[1..]);
    }
  }

  /** Splitting a string that uses only commas, then joining the pieces with commas, gives it back. */
  lemma {:induction false} SplitGenresJoin(s: string)
    requires forall k :: 0 <= k < |s| ==> s[k] != '/'
    ensures Join(SplitGenres(s), ",") == s
  {
    if |s| > 0 {
      var rest := SplitGenres(s[1..]);
      SplitGenresJoin(s[1..]);
      if IsGenreDelimiter(s[0]) {
        assert ([""] + rest)[1..] == rest;
      } else {
        var parts := [[s[0]] + rest[0]] + rest[1..];
        if |rest| == 1 {
          assert parts == [[s[0]] + rest[0]];
        } else {
          assert parts[1..] == rest[1..];
          assert Join(rest, ",") == rest[0] + "," + Join(rest[1..], ",");
        }
      }
    }
  }

  /** A string without delimiters is one piece. */
  lemma {:induction false} SplitGenresPlain(a: string)
    requires forall k :: 0 <= k < |a| ==> !IsGenreDelimiter(a[k])
    ensures SplitGenres(a) == [a]
  {
    if |a| > 0 {
      SplitGenresPlain(a[1..]);
      assert [a[0]] + a[1..] == a;
    }
  }

  /** A piece without delimiters followed by a comma comes off the front. */
  lemma {:induction false} SplitGenresConcat(a: string, b: string)
    requires forall k :: 0 <= k < |a| ==> !IsGenreDelimiter(a[k])
    ensures SplitGenres(a + "," + b) == [a] + SplitGenres(b)
  {
    if |a| == 0 {
      assert ("" + "," + b)[1..] == b;
    } else {
      assert (a + "," + b)[1..] == a[1..] + "," + b;
      SplitGenresConcat(a[1..], b);
      assert [a[0]] + a[1..] == a;
    }
  }

  /** A comma splits the string in two: the pieces of the left, then those of the right. */
  lemma {:induction false} SplitGenresAtComma(a: string, b: string)
    ensures SplitGenres(a + "," + b) == SplitGenres(a) + SplitGenres(b)
  {
    var s := a + "," + b;
    if |a| == 0 {
      assert s[0] == ',' && s[1..] == b;
    } else {
      assert s[0] == a[0] && s[1..] == a[1..] + "," + b;
      SplitGenresAtComma(a[1..], b);
      var left, right := SplitGenres(a[1..]), SplitGenres(b);
      assert SplitGenres(s[1..]) == left + right;
      HeadAndTail(left, right);
    }
  }

  lemma HeadAndTail(left: seq<string>, right: seq<string>)
    requires |left| >= 1
    ensures (left + right)[0] == left[0] && (left + right)[1..] == left[1..] + right
  {
  }

  /** A blank in front only lengthens the first piece. */
  lemma SplitGenresAfterSpace(b: string)
    ensures var parts := SplitGenres(" " + b);
      |parts| == |SplitGenres(b)| && parts[0] == " " + SplitGenres(b)[0] && parts[1..] == SplitGenres(b)[1..]
  {
    assert (" " + b)[1..] == b;
  }

  /**
    Splitting names joined with ", " gives the names back, each after the first with the space of
    the separator in front.
  */
  lemma {:induction false} SplitGenresJoined(prefix: string, names: seq<string>)
    requires |names| >= 1
    requires forall k :: 0 <= k < |prefix| ==> !IsGenreDelimiter(prefix[k])
    requires forall i :: 0 <= i < |names| ==> forall k :: 0 <= k < |names[i]| ==> !IsGenreDelimiter(names[i][k])
    ensures |SplitGenres(prefix + Join(names, ", "))| == |names|
    ensures SplitGenres(prefix + Join(names, ", "))[0] == prefix + names[0]
    ensures forall i :: 1 <= i < |names| ==> SplitGenres(prefix + Join(names, ", "))[i] == " " + names[i]
    decreases |names|
  {
    if |names| == 1 {
      SplitGenresPlain(prefix + names[0]);
    } else {
      var rest := names[1..];
      assert prefix + Join(names, ", ") == (prefix + names[0]) + "," + (" " + Join(rest, ", "));
      SplitGenresConcat(prefix + names[0], " " + Join(rest, ", "));
      SplitGenresJoined(" ", rest);
      forall i | 2 <= i < |names|
        ensures SplitGenres(prefix + Join(names, ", "))[i] == " " + names[i]
      {
        assert rest[i - 1] == names[i];
      }
    }
  }

  /** `split(/[,\/]/)` of names joined with ", ": the names, each after the first with a blank in front. */
  lemma SplitJoinedNames(names: seq<string>)
    requires |names| >= 1
    requires forall i :: 0 <= i < |names| ==> forall k :: 0 <= k < |names[i]| ==> !IsGenreDelimiter(names[i][k])
    ensures |SplitGenres(Join(names, ", "))| == |names|
    ensures SplitGenres(Join(names, ", "))[0] == names[0]
    ensures forall i :: 1 <= i < |names| ==> SplitGenres(Join(names, ", "))[i] == " " + names[i]
  {
    SplitGenresJoined("", names);
    assert "" + Join(names, ", ") == Join(names, ", ");
    assert "" + names[0] == names[0];
  }

  /** A blank in front does not change what `trim` keeps. */
  lemma TrimAfterSpace(s: string)
    ensures Trim(" " + s) == Trim(s)
  {
    assert (" " + s)[1..] == s;
  }

  // ---------------------------------------------------------------------------------------------
  // Decimal representation

  function DigitChar(d: nat): (c: char)
    requires d < 10
    ensures '0' <= c <= '9' && c as int - '0' as int == d
  {
    ('0' as int + d) as char
  }

  /** `String(n)` for a non-negative integer: its decimal digits, without leading zeros. */
  function Decimal(n: nat): (r: string)
    ensures |r| >= 1
    ensures forall k :: 0 <= k < |r| ==> '0' <= r[k] <= '9'
    ensures |r| > 1 ==> r[0] != '0'
    decreases n
  {
    if n < 10 then [DigitChar(n)] else Decimal(n / 10) + [DigitChar(n % 10)]
  }

  /** The number a string of decimal digits denotes. */
  function DigitsValue(s: string): nat
    requires forall k :: 0 <= k < |s| ==> '0' <= s[k] <= '9'
  {
    if |s| == 0 then 0 else 10 * DigitsValue(s[..|s| - 1]) + (s[|s| - 1] as int - '0' as int)
  }

  /** Reading back the decimal representation gives the number. */
  lemma {:induction false} DecimalRoundTrip(n: nat)
    ensures DigitsValue(Decimal(n)) == n
    decreases n
  {
    if n >= 10 {
      var r := Decimal(n);
      assert r[..|r| - 1] == Decimal(n / 10);
      DecimalRoundTrip(n / 10);
    }
  }

  // ---------------------------------------------------------------------------------------------
  // Node's POSIX path.extname and path.dirname

  function LastIndexOf(s: string, c: char): (r: Option<nat>)
    ensures r.Some? ==> r.value < |s| && s[r.value] == c
    ensures r.Some? ==> forall k :: r.value < k < |s| ==> s[k] != c
    ensures r.None? ==> forall k :: 0 <= k < |s| ==> s[k] != c
  {
    if |s| == 0 then None
    else if s[|s| - 1] == c then Some(|s| - 1)
    else LastIndexOf(s[..|s| - 1], c)
  }

  function StripTrailingSlashes(p: string): (r: string)
    ensures r <= p
    ensures |r| == 0 || r[|r| - 1] != '/'
  {
    if |p| > 0 && p[|p| - 1] == '/' then StripTrailingSlashes(p[..|p| - 1]) else p
  }

  /** What follows the last '/'. */
  function BaseName(p: string): string {
    match LastIndexOf(p, '/')
    case None => p
    case Some(i) => p[i + 1..]
  }

  /**
    `path.extname(p)`: from the last '.' of the last path segment to its end; empty when that segment
    has no '.', starts with its only '.', or is "..".
  */
  function ExtName(p: string): (r: string)
    ensures r == "" || r[0] == '.'
    ensures forall k :: 0 < k < |r| ==> r[k] != '.' && r[k] != '/'
  {
    var base := BaseName(StripTrailingSlashes(p));
    match LastIndexOf(base, '.')
    case None => ""
    case Some(i) => if i == 0 || base == ".." then "" else base[i..]
  }

  /** A segment with at least one character before its extension has exactly that extension. */
  lemma ExtNameOfFile(stem: string, ext: string)
    requires |stem| > 0 && stem[|stem| - 1] != '/'
    requires |ext| >= 2 && ext[0] == '.'
    requires forall k :: 0 < k < |ext| ==> ext[k] != '.' && ext[k] != '/'
    ensures ExtName(stem + ext) == ext
  {
    var p := stem + ext;
    assert p[|p| - 1] == ext[|ext| - 1];
    assert StripTrailingSlashes(p) == p;
    BaseNameEndsWith(stem, ext);
    var base := BaseName(p);
    var i := |base| - |ext|;
    forall k | i < k < |base| ensures base[k] != '.' {
      assert base[k] == ext[k - i];
    }
    LastIndexAt(base, '.', i);
  }

  /** The last segment of `stem + ext` is a non-empty part of `stem` followed by `ext`. */
  lemma BaseNameEndsWith(stem: string, ext: string)
    requires |stem| > 0 && stem[|stem| - 1] != '/'
    requires forall k :: 0 < k < |ext| ==> ext[k] != '/'
    requires |ext| > 0 && ext[0] != '/'
    ensures |BaseName(stem + ext)| > |ext|
    ensures BaseName(stem + ext)[|BaseName(stem + ext)| - |ext|..] == ext
  {
    var p := stem + ext;
    match LastIndexOf(p, '/') {
      case None =>
      case Some(j) =>
        assert j < |stem| - 1;
        assert p[j + 1..] == stem[j + 1..] + ext;
    }
  }

  /** The only occurrence of `c` from index `i` on is the last one. */
  lemma LastIndexAt(s: string, c: char, i: nat)
    requires i < |s| && s[i] == c && forall k :: i < k < |s| ==> s[k] != c
    ensures LastIndexOf(s, c) == Some(i)
  {
  }

  /**
    The scan of `path.dirname`: walking from index `i` down to 1, the first '/' met after some
    character other than '/'.
  */
  function DirEnd(p: string, i: int, matchedSlash: bool): (r: Option<nat>)
    requires i < |p|
    ensures r.Some? ==> 1 <= r.value <= i
    decreases i
  {
    if i < 1 then None
    else if p[i] == '/' then (if !matchedSlash then Some(i) else DirEnd(p, i - 1, matchedSlash))
    else DirEnd(p, i - 1, false)
  }

  /** `path.dirname(p)`: everything before the last segment; "." or "/" when there is nothing. */
  function DirName(p: string): (r: string)
    ensures |r| > 0
  {
    if |p| == 0 then "."
    else
      var hasRoot := p[0] == '/';
      match DirEnd(p, |p| - 1, true)
      case None => if hasRoot then "/" else "."
      case Some(end) => if hasRoot && end == 1 then "//" else p[..end]
  }

  lemma {:induction false} DirEndOverSegment(p: string, i: int, matchedSlash: bool, lo: nat)
    requires 1 <= lo <= i < |p| && p[lo] == '/'
    requires forall k :: lo < k <= i ==> p[k] != '/'
    requires !matchedSlash || lo < i
    ensures DirEnd(p, i, matchedSlash) == Some(lo)
    decreases i
  {
    if i > lo {
      DirEndOverSegment(p, i - 1, false, lo);
    }
  }

  /** The directory of `dir + "/" + name` is `dir`, for a file name and any directory but the root. */
  lemma DirNameOfChild(dir: string, name: string)
    requires |dir| > 0 && dir != "/"
    requires |name| > 0 && forall k :: 0 <= k < |name| ==> name[k] != '/'
    ensures DirName(dir + "/" + name) == dir
  {
    var p := dir + "/" + name;
    DirEndOverSegment(p, |p| - 1, true, |dir|);
    assert p[..|dir|] == dir;
  }
}
