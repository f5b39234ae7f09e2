/**
 * The app-bundle loader of Projects/Android/src/oculus/AppLoader.java: it
 * fetches the bundle's manifest (flint.json), then downloads the files the
 * manifest lists, in order, into a cache directory, moving through the states
 * IDLE, FETCHING_MANIFEST and COMPLETE, or to ERROR.
 *
 * The network and the file system are parameters: which manifest each URL
 * serves, and for which local paths the parent directory can be made and a
 * file can be opened for writing. A URL is taken in parsed form.
 */
module AppLoader {
  import opened JsValues

  datatype AppLoadState = Idle | FetchingManifest | Complete | Error

  /** The parsed manifest: the bundle's files, as paths relative to the bundle URL. */
  datatype Manifest = Manifest(files: seq<string>)

  /** The exception the loader keeps as its error. */
  datatype LoaderError =
    | IllegalState(message: string)
    | FetchFailed(url: Url)
    | CouldNotLoad(message: string)
    | FileNotFound(localPath: string)

  /**
   * A parsed http(s) URL: everything before the path, the path segments and
   * the query. As in OkHttp's HttpUrl, a URL always has at least one path
   * segment (the root path "/" is the one segment "").
   */
  datatype Url = Url(origin: string, segments: seq<string>, query: Option<string>)

  predicate ValidUrl(u: Url)
  {
    |u.segments| >= 1
  }

  /** What the outside world answers: the manifests served, and the local paths that can be prepared and written. */
  datatype World = World(manifests: map<Url, Manifest>, dirsOk: set<string>, sinksOk: set<string>)

  const MANIFEST_NAME := "flint.json"

  // ---------------------------------------------------------------------------
  // URLs and paths

  /** Resolving a plain relative name against a URL: the last segment is replaced and the query dropped. */
  function ResolveName(u: Url, name: string): (r: Url)
    requires ValidUrl(u)
    ensures ValidUrl(r) && r.origin == u.origin && |r.segments| == |u.segments|
  {
    Url(u.origin, u.segments[..|u.segments| - 1] + [name], None)
  }

  /** manifestUri: the bundle URL itself when it already names flint.json, otherwise flint.json resolved against it. */
  function ManifestUri(u: Url): Url
    requires ValidUrl(u)
  {
    if u.segments[|u.segments| - 1] == MANIFEST_NAME then u else ResolveName(u, MANIFEST_NAME)
  }

  /**
   * The manifest URL always names flint.json, keeps the origin and every
   * segment but the last, and is the bundle URL itself exactly when that
   * already names flint.json; asking again changes nothing.
   */
  lemma ManifestUriNamesManifest(u: Url)
    requires ValidUrl(u)
    ensures var m := ManifestUri(u);
            && ValidUrl(m) && m.origin == u.origin && |m.segments| == |u.segments|
            && m.segments[|m.segments| - 1] == MANIFEST_NAME
            && m.segments[..|m.segments| - 1] == u.segments[..|u.segments| - 1]
            && (m == u <==> u.segments[|u.segments| - 1] == MANIFEST_NAME)
            && ManifestUri(m) == m
  {
    var m := ManifestUri(u);
    if u.segments[|u.segments| - 1] != MANIFEST_NAME {
      assert m.segments[|m.segments| - 1] != u.segments[|u.segments| - 1];
    }
  }

  /** A bare host such as http://flint-hello.ngrok.com has the root path, so its manifest is /flint.json. */
  lemma ManifestOfBareHost(origin: string)
    ensures ManifestUri(Url(origin, [""], None)) == Url(origin, [MANIFEST_NAME], None)
  {
  }

  /** Java's replace("//", "/"): every non-overlapping "//", scanning left to right, becomes "/". */
  function CollapseSlashes(s: string): (r: string)
    ensures |r| <= |s|
  {
    if |s| < 2 then s
    else if s[0] == '/' && s[1] == '/' then "/" + CollapseSlashes(s[2..])
    else [s[0]] + CollapseSlashes(s[1..])
  }

  /** No '/' is directly followed by another. */
  predicate NoDoubleSlash(s: string)
  {
    forall i :: 0 <= i < |s| - 1 ==> s[i] != '/' || s[i + 1] != '/'
  }

  /** No three '/' in a row. */
  predicate NoTripleSlash(s: string)
  {
    forall i :: 0 <= i < |s| - 2 ==> s[i] != '/' || s[i + 1] != '/' || s[i + 2] != '/'
  }

  /** The characters of `s` other than '/', in order. */
  function Unslashed(s: string): string
  {
    if |s| == 0 then [] else (if s[0] == '/' then [] else [s[0]]) + Unslashed(s[1..])
  }

  /** A string without "//" is left as it is. */
  lemma {:induction false} CollapseKeepsSingle(s: string)
    requires NoDoubleSlash(s)
    ensures CollapseSlashes(s) == s
  {
    if |s| >= 2 {
      assert s[0] != '/' || s[1] != '/';
      assert NoDoubleSlash(s[1..]) by {
        forall i | 0 <= i < |s[1..]| - 1
          ensures s[1..][i] != '/' || s[1..][i + 1] != '/'
        {
          assert s[1..][i] == s[i + 1] && s[1..][i + 1] == s[i + 2];
        }
      }
      CollapseKeepsSingle(s[1..]);
    }
  }

  /** Collapsing starts with '/' exactly when the string does. */
  lemma CollapseFirst(s: string)
    ensures |CollapseSlashes(s)| > 0 <==> |s| > 0
    ensures |s| > 0 ==> (CollapseSlashes(s)[0] == '/' <==> s[0] == '/')
  {
  }

  /** When the input has no run of three slashes, the result has no "//" at all. */
  lemma {:induction false} CollapseRemovesDoubles(s: string)
    requires NoTripleSlash(s)
    ensures NoDoubleSlash(CollapseSlashes(s))
  {
    if |s| >= 2 {
      var r := CollapseSlashes(s);
      var k := if s[0] == '/' && s[1] == '/' then 2 else 1;
      var tail := s[k..];
      assert NoTripleSlash(tail) by {
        forall i | 0 <= i < |tail| - 2
          ensures tail[i] != '/' || tail[i + 1] != '/' || tail[i + 2] != '/'
        {
          assert tail[i] == s[i + k] && tail[i + 1] == s[i + k + 1] && tail[i + 2] == s[i + k + 2];
        }
      }
      CollapseRemovesDoubles(tail);
      CollapseFirst(tail);
      var rest := CollapseSlashes(tail);
      assert r == [r[0]] + rest;
      assert r[0] == '/' && |rest| > 0 ==> rest[0] != '/' by {
        if r[0] == '/' && |rest| > 0 {
          assert s[0] == '/';
          if k == 2 {
            assert tail[0] == s[2];
          } else {
            assert tail[0] == s[1];
          }
        }
      }
      forall i | 0 <= i < |r| - 1
        ensures r[i] != '/' || r[i + 1] != '/'
      {
        if i == 0 {
          assert rest[0] == r[1];
        } else {
          assert rest[i - 1] == r[i] && rest[i] == r[i + 1];
        }
      }
    }
  }

  /** Collapsing removes slashes only: every other character stays, in order. */
  lemma {:induction false} CollapseKeepsNames(s: string)
    ensures Unslashed(CollapseSlashes(s)) == Unslashed(s)
  {
    if |s| >= 2 {
      if s[0] == '/' && s[1] == '/' {
        CollapseKeepsNames(s[2..]);
        assert Unslashed(s) == Unslashed(s[1..]);
        assert s[1..][1..] == s[2..];
        assert Unslashed("/" + CollapseSlashes(s[2..])) == Unslashed(CollapseSlashes(s[2..])) by {
          assert ("/" + CollapseSlashes(s[2..]))[1..] == CollapseSlashes(s[2..]);
        }
      } else {
        CollapseKeepsNames(s[1..]);
        assert ([s[0]] + CollapseSlashes(s[1..]))[1..] == CollapseSlashes(s[1..]);
      }
    }
  }

  /**
   * filePath: the cache directory and the manifest path joined by "/", with
   * every "//" collapsed; the empty string when the cache directory could
   * not be resolved.
   */
  function FilePath(baseDir: Option<string>, path: string): string
  {
    match baseDir
    case None => ""
    case Some(dir) => CollapseSlashes(dir + "/" + path)
  }

  /** A prefix with no "//" that does not end in '/' passes through a collapse untouched. */
  lemma {:induction false} CollapsePrefix(a: string, b: string)
    requires NoDoubleSlash(a) && (|a| > 0 ==> a[|a| - 1] != '/')
    ensures CollapseSlashes(a + b) == a + CollapseSlashes(b)
  {
    if |a| > 0 {
      var s := a + b;
      var a' := a[1..];
      assert |s| >= 2 ==> s[0] != '/' || s[1] != '/' by {
        if |a| == 1 {
          assert s[0] == a[0] == a[|a| - 1];
        } else {
          assert s[0] == a[0] && s[1] == a[1];
        }
      }
      assert s[1..] == a' + b;
      assert NoDoubleSlash(a') by {
        forall i | 0 <= i < |a'| - 1
          ensures a'[i] != '/' || a'[i + 1] != '/'
        {
          assert a'[i] == a[i + 1] && a'[i + 1] == a[i + 2];
        }
      }
      assert |a'| > 0 ==> a'[|a'| - 1] == a[|a| - 1];
      CollapsePrefix(a', b);
      if |s| >= 2 {
        assert CollapseSlashes(s) == [s[0]] + CollapseSlashes(a' + b);
        assert a == [a[0]] + a';
      } else {
        assert b == [] && s == a;
      }
    } else {
      assert a + b == b;
    }
  }

  /**
   * A cache directory that carries no "//" and does not end in '/' is joined
   * to a manifest path by exactly one slash, whether or not the path is
   * written with one leading slash of its own.
   */
  lemma FilePathJoins(dir: string, path: string)
    requires NoDoubleSlash(dir) && |dir| > 0 && dir[|dir| - 1] != '/'
    requires NoDoubleSlash(path) && (|path| > 0 ==> path[0] != '/')
    ensures FilePath(Some(dir), path) == dir + "/" + path
    ensures FilePath(Some(dir), "/" + path) == dir + "/" + path
  {
    CollapseKeepsSingle(path);
    assert dir + "/" + path == dir + ("/" + path);
    CollapsePrefix(dir, "/" + path);
    assert CollapseSlashes("/" + path) == "/" + path by {
      if |path| > 0 {
        assert ("/" + path)[1..] == path;
      }
    }
    assert dir + "/" + ("/" + path) == dir + ("//" + path);
    CollapsePrefix(dir, "//" + path);
    assert ("//" + path)[2..] == path;
  }

  // ---------------------------------------------------------------------------
  // Loading files

  /** What loading one manifest path runs into: the parent directory, then the output file. */
  function FileFailure(world: World, baseDir: Option<string>, path: string): Option<LoaderError>
  {
    var local := FilePath(baseDir, path);
    if local !in world.dirsOk then Some(CouldNotLoad("Could not load file " + path))
    else if local !in world.sinksOk then Some(FileNotFound(local))
    else None
  }

  /** The position of the first file from `i` on that cannot be loaded, or the number of files. */
  function FirstFailing(world: World, baseDir: Option<string>, files: seq<string>, i: nat): (r: nat)
    requires i <= |files|
    ensures i <= r <= |files|
    ensures r < |files| ==> FileFailure(world, baseDir, files[r]).Some?
    ensures forall k :: i <= k < r ==> FileFailure(world, baseDir, files[k]).None?
    decreases |files| - i
  {
    if i == |files| then i
    else if FileFailure(world, baseDir, files[i]).Some? then i
    else FirstFailing(world, baseDir, files, i + 1)
  }

  class Loader {
    const uri: Url
    /** The canonical path of the bundle's cache directory, or None when it could not be resolved. */
    const baseDir: Option<string>
    var state: AppLoadState
    var loaded: seq<string>
    var manifest: Option<Manifest>
    var error: Option<LoaderError>

    /** The loaded paths are the first files of the manifest, in manifest order. */
    ghost predicate Valid()
      reads this
    {
      && ValidUrl(uri)
      && (state == Idle ==> manifest.None?)
      && (manifest.None? ==> loaded == [])
      && (manifest.Some? ==> |loaded| <= |manifest.value.files| && loaded == manifest.value.files[..|loaded|])
    }

    constructor (uri: Url, baseDir: Option<string>)
      requires ValidUrl(uri)
      ensures Valid()
      ensures this.uri == uri && this.baseDir == baseDir
      ensures state == Idle && loaded == [] && manifest == None && error == None
    {
      this.uri := uri;
      this.baseDir := baseDir;
      state := Idle;
      loaded := [];
      manifest := None;
      error := None;
    }

    /** fetchManifest: only an idle loader fetches; the manifest comes from ManifestUri(uri). */
    method FetchManifest(world: World) returns (ok: bool)
      requires Valid()
      modifies this
      ensures Valid() && loaded == old(loaded)
      ensures old(state) != Idle ==>
                !ok && state == Error && error == Some(IllegalState("Cannot reuse a loader")) && manifest == old(manifest)
      ensures old(state) == Idle && ManifestUri(uri) !in world.manifests ==>
                !ok && state == Error && error == Some(FetchFailed(ManifestUri(uri))) && manifest == old(manifest)
      ensures old(state) == Idle && ManifestUri(uri) in world.manifests ==>
                ok && state == FetchingManifest && error == old(error) && manifest == Some(world.manifests[ManifestUri(uri)])
    {
      if state != Idle {
        error := Some(IllegalState("Cannot reuse a loader"));
        state := Error;
        return false;
      }
      state := FetchingManifest;
      var request := ManifestUri(uri);
      if request !in world.manifests {
        error := Some(FetchFailed(request));
        state := Error;
        return false;
      }
      manifest := Some(world.manifests[request]);
      return true;
    }

    /**
     * loadNextFile: prepares the parent directory and the output file of the
     * next manifest path; a failed download is ignored and the path still
     * counts as loaded.
     */
    method LoadNextFile(world: World) returns (ok: bool)
      requires Valid() && manifest.Some? && |loaded| < |manifest.value.files|
      modifies this
      ensures Valid() && manifest == old(manifest)
      ensures var failure := FileFailure(world, baseDir, manifest.value.files[|old(loaded)|]);
              && (failure.Some? ==> !ok && state == Error && error == failure && loaded == old(loaded))
              && (failure.None? ==> ok && state == old(state) && error == old(error)
                                      && loaded == old(loaded) + [manifest.value.files[|old(loaded)|]])
    {
      var path := manifest.value.files[|loaded|];
      var local := FilePath(baseDir, path);
      if local !in world.dirsOk {
        error := Some(CouldNotLoad("Could not load file " + path));
        state := Error;
        return false;
      }
      if local !in world.sinksOk {
        error := Some(FileNotFound(local));
        state := Error;
        return false;
      }
      loaded := loaded + [path];
      assert loaded == manifest.value.files[..|loaded|];
      return true;
    }

    /** loadFiles: loads the remaining files in manifest order until all are loaded or one fails. */
    method LoadFiles(world: World) returns (ok: bool)
      requires Valid() && manifest.Some?
      modifies this
      ensures Valid() && manifest == old(manifest)
      ensures old(state) == Error ==> ok && state == Error && loaded == old(loaded) && error == old(error)
      ensures old(state) != Error ==>
                var files := manifest.value.files;
                var k := FirstFailing(world, baseDir, files, |old(loaded)|);
                && (k < |files| ==> !ok && state == Error && loaded == files[..k]
                                      && error == FileFailure(world, baseDir, files[k]))
                && (k == |files| ==> ok && state == old(state) && loaded == files && error == old(error))
    {
      ghost var files := manifest.value.files;
      ghost var k := FirstFailing(world, baseDir, files, |loaded|);
      while |loaded| != |manifest.value.files| && state != Error
        invariant Valid() && manifest == old(manifest)
        invariant old(state) == Error ==> state == Error && loaded == old(loaded) && error == old(error)
        invariant old(state) != Error ==> state == old(state) && error == old(error) && |old(loaded)| <= |loaded| <= k
        decreases |manifest.value.files| - |loaded|
      {
        ok := LoadNextFile(world);
        if !ok {
          return false;
        }
      }
      if old(state) != Error {
        assert loaded == files;
      }
      return true;
    }

    /**
     * Load: fetches the manifest, then loads every file; COMPLETE is reached
     * only when both succeed.
     */
    method Load(world: World) returns (ok: bool)
      requires Valid()
      modifies this
      ensures Valid()
      ensures ok <==> LoadSucceeds(old(state), world)
      ensures ok ==> state == Complete && manifest == Some(world.manifests[ManifestUri(uri)]) && loaded == manifest.value.files
      ensures !ok ==> state == Error
      ensures old(state) != Idle ==> error == Some(IllegalState("Cannot reuse a loader")) && loaded == old(loaded)
      ensures old(state) == Idle && ManifestUri(uri) in world.manifests && !ok ==>
                var files := world.manifests[ManifestUri(uri)].files;
                var k := FirstFailing(world, baseDir, files, 0);
                loaded == files[..k] && error == FileFailure(world, baseDir, files[k])
    {
      ok := FetchManifest(world);
      if !ok {
        return false;
      }
      ok := LoadFiles(world);
      if !ok {
        return false;
      }
      if state == Error {
        return false;
      }
      state := Complete;
      return true;
    }

    /** Load succeeds from an idle loader whose manifest is served and whose every file can be prepared. */
    ghost predicate LoadSucceeds(state0: AppLoadState, world: World)
      reads this
      requires ValidUrl(uri)
    {
      && state0 == Idle
      && ManifestUri(uri) in world.manifests
      && var files := world.manifests[ManifestUri(uri)].files;
         FirstFailing(world, baseDir, files, 0) == |files|
    }
  }
}
