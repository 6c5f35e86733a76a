/**
  What walking a directory tree guarantees: the tables stay consistent, tracks are only added, and
  walking a tree again after a walk without failures adds nothing (re-scans are no-ops).
*/
module WalkProperties {
  import opened Wrappers
  import Seqs
  import opened LibrarySchema
  import opened LibraryIngest
  import opened IngestProperties

  /** A tree is settled in `t` when none of its files would be read again: each is unsupported or known. */
  ghost predicate Settled(t: Tables, node: Node, path: string)
    decreases node
  {
    match node
    case File(_) => !Admits(t, path)
    case Directory(_, children) => SettledChildren(t, path, children)
    case Other(_) => true
  }

  ghost predicate SettledChildren(t: Tables, path: string, children: seq<Node>)
    decreases children
  {
    forall i :: 0 <= i < |children| ==> Settled(t, children[i], ChildPath(path, children[i].name))
  }

  lemma {:induction false} WalkFilesPreservesConsistent(t: Tables, paths: seq<string>, env: Env)
    requires Consistent(t)
    ensures Consistent(WalkFiles(t, paths, env).tables)
    decreases |paths|
  {
    if |paths| > 0 {
      match Ingest(t, paths[0], env) {
        case None =>
        case Some(t1) =>
          IngestPreservesConsistent(t, paths[0], env);
          WalkFilesPreservesConsistent(t1, paths[1..], env);
      }
    }
  }

  /** Walking a tree keeps the tables consistent and only appends tracks. */
  lemma {:induction false} WalkPreservesConsistent(t: Tables, node: Node, path: string, env: Env)
    requires Consistent(t)
    ensures Consistent(WalkTree(t, node, path, env).tables)
    decreases node
  {
    match node {
      case File(_) =>
        IngestPreservesConsistent(t, path, env);
      case Directory(_, children) =>
        SubdirectoriesPreserveConsistent(t, path, children, env);
        var sub := WalkSubdirectories(t, path, children, env);
        WalkFilesPreservesConsistent(sub.tables, FilePaths(path, children), env);
      case Other(_) =>
    }
  }

  lemma {:induction false} SubdirectoriesPreserveConsistent(t: Tables, path: string, children: seq<Node>, env: Env)
    requires Consistent(t)
    ensures Consistent(WalkSubdirectories(t, path, children, env).tables)
    decreases children
  {
    if |children| > 0 {
      var first :=
        if children[0].Directory? then WalkTree(t, children[0], ChildPath(path, children[0].name), env)
        else Walked(t, false);
      if children[0].Directory? {
        WalkPreservesConsistent(t, children[0], ChildPath(path, children[0].name), env);
      }
      SubdirectoriesPreserveConsistent(first.tables, path, children[1..], env);
    }
  }

  // ---------------------------------------------------------------------------------------------
  // Re-scanning

  lemma AdmitsShrinks(t: Tables, u: Tables, path: string)
    requires t.tracks <= u.tracks && !Admits(t, path)
    ensures !Admits(u, path)
  {
    if IsAudioFile(path) {
      var i := TrackWithPath(t.tracks, path).value;
      assert u.tracks[i] == t.tracks[i];
    }
  }

  /** A settled tree stays settled when tracks are added. */
  lemma {:induction false} SettledGrows(t: Tables, u: Tables, node: Node, path: string)
    requires t.tracks <= u.tracks && Settled(t, node, path)
    ensures Settled(u, node, path)
    decreases node
  {
    match node {
      case File(_) => AdmitsShrinks(t, u, path);
      case Directory(_, children) =>
        forall i | 0 <= i < |children|
          ensures Settled(u, children[i], ChildPath(path, children[i].name))
        {
          SettledGrows(t, u, children[i], ChildPath(path, children[i].name));
        }
      case Other(_) =>
    }
  }

  /** A file that was ingested successfully is not read again. */
  lemma IngestSettles(t: Tables, path: string, env: Env, t1: Tables)
    requires Ingest(t, path, env) == Some(t1)
    ensures !Admits(t1, path) && t.tracks <= t1.tracks
  {
    IngestIdempotent(t, path, env);
    IngestExtendsTracks(t, path, env);
  }

  /** After a batch that did not fail, none of its files would be read again. */
  lemma {:induction false} WalkFilesSettles(t: Tables, paths: seq<string>, env: Env)
    requires !WalkFiles(t, paths, env).failed
    ensures forall k :: 0 <= k < |paths| ==> !Admits(WalkFiles(t, paths, env).tables, paths[k])
    decreases |paths|
  {
    if |paths| > 0 {
      var t1 := Ingest(t, paths[0], env).value;
      IngestSettles(t, paths[0], env, t1);
      assert WalkFiles(t, paths, env) == WalkFiles(t1, paths[1..], env);
      WalkFilesSettlesRest(t1, paths, env);
    }
  }

  lemma WalkFilesSettlesRest(t1: Tables, paths: seq<string>, env: Env)
    requires |paths| > 0 && !Admits(t1, paths[0]) && !WalkFiles(t1, paths[1..], env).failed
    ensures forall k :: 0 <= k < |paths| ==> !Admits(WalkFiles(t1, paths[1..], env).tables, paths[k])
    decreases |paths|, 0
  {
    var rest := paths[1..];
    WalkFilesSettles(t1, rest, env);
    WalkFilesPreservesTracks(t1, rest, env);
    SettledWithHead(t1, WalkFiles(t1, rest, env).tables, paths);
  }

  /** A path settled before a walk that keeps every track stays settled, alongside the ones the walk settled. */
  lemma SettledWithHead(t1: Tables, r: Tables, paths: seq<string>)
    requires |paths| > 0 && !Admits(t1, paths[0]) && t1.tracks <= r.tracks
    requires forall k :: 0 <= k < |paths[1..]| ==> !Admits(r, paths[1..][k])
    ensures forall k :: 0 <= k < |paths| ==> !Admits(r, paths[k])
  {
    AdmitsShrinks(t1, r, paths[0]);
    Seqs.AllWithHead(paths, (p: string) => !Admits(r, p));
  }

  lemma {:induction false} WalkFilesPreservesTracks(t: Tables, paths: seq<string>, env: Env)
    ensures t.tracks <= WalkFiles(t, paths, env).tables.tracks
    decreases |paths|
  {
    if |paths| > 0 {
      match Ingest(t, paths[0], env) {
        case None =>
        case Some(t1) =>
          IngestExtendsTracks(t, paths[0], env);
          WalkFilesPreservesTracks(t1, paths[1..], env);
      }
    }
  }

  lemma {:induction false} WalkPreservesTracks(t: Tables, node: Node, path: string, env: Env)
    ensures t.tracks <= WalkTree(t, node, path, env).tables.tracks
    decreases node
  {
    match node {
      case File(_) =>
        if Ingest(t, path, env).Some? {
          IngestExtendsTracks(t, path, env);
        }
      case Directory(_, children) =>
        SubdirectoriesPreserveTracks(t, path, children, env);
        var sub := WalkSubdirectories(t, path, children, env);
        WalkFilesPreservesTracks(sub.tables, FilePaths(path, children), env);
      case Other(_) =>
    }
  }

  lemma {:induction false} SubdirectoriesPreserveTracks(t: Tables, path: string, children: seq<Node>, env: Env)
    ensures t.tracks <= WalkSubdirectories(t, path, children, env).tables.tracks
    decreases children
  {
    if |children| > 0 {
      var first :=
        if children[0].Directory? then WalkTree(t, children[0], ChildPath(path, children[0].name), env)
        else Walked(t, false);
      if children[0].Directory? {
        WalkPreservesTracks(t, children[0], ChildPath(path, children[0].name), env);
      }
      SubdirectoriesPreserveTracks(first.tables, path, children[1..], env);
    }
  }

  /** Every file of a listing is among its collected file paths. */
  lemma {:induction false} FilePathsListed(path: string, children: seq<Node>, i: nat)
    requires i < |children| && children[i].File?
    ensures ChildPath(path, children[i].name) in FilePaths(path, children)
    decreases i
  {
    if i > 0 {
      FilePathsListed(path, children[1..], i - 1);
    }
  }

  /** A walk without failures leaves the whole tree settled. */
  lemma {:induction false} WalkSettles(t: Tables, node: Node, path: string, env: Env)
    requires !WalkTree(t, node, path, env).failed
    ensures Settled(WalkTree(t, node, path, env).tables, node, path)
    decreases node
  {
    match node {
      case File(_) =>
        IngestIdempotent(t, path, env);
      case Directory(_, children) =>
        SubdirectoriesSettle(t, path, children, env);
        var sub := WalkSubdirectories(t, path, children, env);
        DirectorySettles(sub.tables, path, children, env);
      case Other(_) =>
    }
  }

  /** Subdirectories settled by their walk, the file batch then settles the whole listing. */
  lemma DirectorySettles(sub: Tables, path: string, children: seq<Node>, env: Env)
    requires forall i :: 0 <= i < |children| && children[i].Directory? ==>
      Settled(sub, children[i], ChildPath(path, children[i].name))
    requires !WalkFiles(sub, FilePaths(path, children), env).failed
    ensures SettledChildren(WalkFiles(sub, FilePaths(path, children), env).tables, path, children)
  {
    var paths := FilePaths(path, children);
    var r := WalkFiles(sub, paths, env).tables;
    WalkFilesSettles(sub, paths, env);
    WalkFilesPreservesTracks(sub, paths, env);
    forall i | 0 <= i < |children|
      ensures Settled(r, children[i], ChildPath(path, children[i].name))
    {
      var c := ChildPath(path, children[i].name);
      match children[i] {
        case File(_) =>
          FilePathsListed(path, children, i);
          var k :| 0 <= k < |paths| && paths[k] == c;
        case Directory(_, _) =>
          SettledGrows(sub, r, children[i], c);
        case Other(_) =>
      }
    }
  }

  lemma {:induction false} SubdirectoriesSettle(t: Tables, path: string, children: seq<Node>, env: Env)
    requires !WalkSubdirectories(t, path, children, env).failed
    ensures forall i :: 0 <= i < |children| && children[i].Directory? ==>
      Settled(WalkSubdirectories(t, path, children, env).tables, children[i], ChildPath(path, children[i].name))
    decreases children
  {
    if |children| > 0 {
      var r := WalkSubdirectories(t, path, children, env).tables;
      var first :=
        if children[0].Directory? then WalkTree(t, children[0], ChildPath(path, children[0].name), env)
        else Walked(t, false);
      SubdirectoriesSettle(first.tables, path, children[1..], env);
      if children[0].Directory? {
        WalkSettles(t, children[0], ChildPath(path, children[0].name), env);
        SubdirectoriesPreserveTracks(first.tables, path, children[1..], env);
        SettledGrows(first.tables, r, children[0], ChildPath(path, children[0].name));
      }
      forall i | 1 <= i < |children| && children[i].Directory?
        ensures Settled(r, children[i], ChildPath(path, children[i].name))
      {
        assert children[1..][i - 1] == children[i];
      }
    }
  }

  lemma {:induction false} WalkFilesSettled(t: Tables, paths: seq<string>, env: Env)
    requires forall k :: 0 <= k < |paths| ==> !Admits(t, paths[k])
    ensures WalkFiles(t, paths, env) == Walked(t, false)
    decreases |paths|
  {
    if |paths| > 0 {
      WalkFilesSettled(t, paths[1..], env);
    }
  }

  /** Walking a settled tree reads no file and changes nothing. */
  lemma {:induction false} SettledWalkUnchanged(t: Tables, node: Node, path: string, env: Env)
    requires Settled(t, node, path)
    ensures WalkTree(t, node, path, env) == Walked(t, false)
    decreases node
  {
    match node {
      case File(_) =>
      case Directory(_, children) =>
        SettledSubdirectoriesUnchanged(t, path, children, env);
        var paths := FilePaths(path, children);
        forall k | 0 <= k < |paths| ensures !Admits(t, paths[k]) {
          FilePathSettled(t, path, children, k);
        }
        WalkFilesSettled(t, paths, env);
      case Other(_) =>
    }
  }

  lemma {:induction false} FilePathSettled(t: Tables, path: string, children: seq<Node>, k: nat)
    requires SettledChildren(t, path, children) && k < |FilePaths(path, children)|
    ensures !Admits(t, FilePaths(path, children)[k])
    decreases children
  {
    var first := if children[0].File? then [ChildPath(path, children[0].name)] else [];
    var rest := FilePaths(path, children[1..]);
    assert FilePaths(path, children) == first + rest;
    if k < |first| {
      assert Settled(t, children[0], ChildPath(path, children[0].name));
    } else {
      SettledTail(t, path, children);
      assert FilePaths(path, children)[k] == rest[k - |first|];
      FilePathSettled(t, path, children[1..], k - |first|);
    }
  }

  lemma SettledTail(t: Tables, path: string, children: seq<Node>)
    requires |children| > 0 && SettledChildren(t, path, children)
    ensures SettledChildren(t, path, children[1..])
  {
    forall i | 0 <= i < |children[1..]|
      ensures Settled(t, children[1..][i], ChildPath(path, children[1..][i].name))
    {
      assert children[1..][i] == children[i + 1];
    }
  }

  lemma {:induction false} SettledSubdirectoriesUnchanged(t: Tables, path: string, children: seq<Node>, env: Env)
    requires SettledChildren(t, path, children)
    ensures WalkSubdirectories(t, path, children, env) == Walked(t, false)
    decreases children
  {
    if |children| > 0 {
      if children[0].Directory? {
        SettledWalkUnchanged(t, children[0], ChildPath(path, children[0].name), env);
      }
      assert SettledChildren(t, path, children[1..]) by {
        forall i | 0 <= i < |children[1..]|
          ensures Settled(t, children[1..][i], ChildPath(path, children[1..][i].name))
        {
          assert children[1..][i] == children[i + 1];
        }
      }
      SettledSubdirectoriesUnchanged(t, path, children[1..], env);
    }
  }

  /**
    Re-scanning: after a walk in which every file could be read, walking the same tree again reads
    no file and leaves every table as it is.
  */
  lemma RescanUnchanged(t: Tables, node: Node, path: string, env: Env)
    requires !WalkTree(t, node, path, env).failed
    ensures var r := WalkTree(t, node, path, env).tables;
      WalkTree(r, node, path, env) == Walked(r, false)
  {
    WalkSettles(t, node, path, env);
    SettledWalkUnchanged(WalkTree(t, node, path, env).tables, node, path, env);
  }
}
