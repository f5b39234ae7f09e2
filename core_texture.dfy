/**
 * The texture object of Src/CoreTexture.cpp: validation of the constructor's
 * options, the rebuild that frees the old texture and loads a flat texture
 * or the six faces of a cubemap from the application package, and the
 * property setters that re-validate and rebuild.
 *
 * The package is a parameter: the files it holds, each with the dimensions
 * its image decodes to. The GL upload itself is not modelled; a loaded
 * texture is recorded by the files it came from.
 */
module CoreTexture {
  import opened JsValues

  /** A readable package file: the width and height its image decodes to. */
  datatype Image = Image(width: int, height: int)

  /** The application package: every readable path and its decoded image. */
  type Package = map<string, Image>

  /** The live texture: a flat texture from one file, or a cubemap from six faces. */
  datatype Loaded = FlatTexture(source: string) | CubeTexture(faces: seq<string>)

  /** The largest side OVR accepts for a cubemap face. */
  const MAX_SIDE: int := 32768

  /** The face suffixes, in the order of GL's cubemap faces: +x, -x, +y, -y, +z, -z. */
  const CUBE_SUFFIXES: seq<string> := ["_px", "_nx", "_py", "_ny", "_pz", "_nz"]

  // ---------------------------------------------------------------------------
  // Paths

  predicate IsSeparator(c: char)
  {
    c == '/' || c == '\\'
  }

  /**
   * Where OVR's GetExtension starts: the last '.' after the last path
   * separator, or -1 when the file name has no dot.
   */
  function ExtensionStart(p: string): (k: int)
    ensures -1 <= k < |p|
    ensures k >= 0 ==> p[k] == '.' && forall j :: k < j < |p| ==> p[j] != '.' && !IsSeparator(p[j])
    ensures k == -1 ==> forall j :: 0 <= j < |p| && p[j] == '.' ==> exists m :: j < m < |p| && IsSeparator(p[m])
  {
    if |p| == 0 then -1
    else if p[|p| - 1] == '.' then |p| - 1
    else if IsSeparator(p[|p| - 1]) then -1
    else
      var k := ExtensionStart(p[..|p| - 1]);
      assert k == -1 ==> forall j :: 0 <= j < |p| && p[j] == '.' ==> exists m :: j < m < |p| && IsSeparator(p[m]) by {
        if k == -1 {
          forall j | 0 <= j < |p| && p[j] == '.'
            ensures exists m :: j < m < |p| && IsSeparator(p[m])
          {
            assert j < |p| - 1 && p[..|p| - 1][j] == '.';
            var m :| j < m < |p| - 1 && IsSeparator(p[..|p| - 1][m]);
            assert IsSeparator(p[m]);
          }
        }
      }
      k
  }

  /** GetExtension: the extension including its dot, or empty. */
  function Extension(p: string): string
  {
    var k := ExtensionStart(p);
    if k < 0 then [] else p[k..]
  }

  /** StripExtension: the path without its extension. */
  function StripExtension(p: string): string
  {
    var k := ExtensionStart(p);
    if k < 0 then p else p[..k]
  }

  /**
   * Stripping the extension and putting it back gives the path; the
   * extension is empty or a dot followed by no dot and no separator.
   */
  lemma ExtensionSplits(p: string)
    ensures StripExtension(p) + Extension(p) == p
    ensures Extension(p) == [] || (Extension(p)[0] == '.' &&
              forall j :: 1 <= j < |Extension(p)| ==> Extension(p)[j] != '.' && !IsSeparator(Extension(p)[j]))
  {
  }

  /** The path of cubemap face `side`: the path with the face suffix put before its extension. */
  function FacePath(p: string, side: nat): string
    requires side < 6
  {
    StripExtension(p) + CUBE_SUFFIXES[side] + Extension(p)
  }

  /** The six face paths, in face order. */
  function FacePaths(p: string): (faces: seq<string>)
    ensures |faces| == 6
    ensures forall side :: 0 <= side < 6 ==> faces[side] == FacePath(p, side)
  {
    seq(6, side requires 0 <= side < 6 => FacePath(p, side))
  }

  /** The six face paths are pairwise distinct, so each face is read from its own file. */
  lemma FacePathsDistinct(p: string, i: nat, j: nat)
    requires i < 6 && j < 6 && i != j
    ensures FacePath(p, i) != FacePath(p, j)
  {
    var n := |StripExtension(p)|;
    var a, b := FacePath(p, i), FacePath(p, j);
    assert a[n..n + 3] == CUBE_SUFFIXES[i];
    assert b[n..n + 3] == CUBE_SUFFIXES[j];
  }

  /** Face paths keep the path's extension: "sky.png" gives "sky_px.png" first and "sky_nz.png" last. */
  lemma FacePathsOfExample()
    ensures FacePaths("sky.png")[0] == "sky_px.png" && FacePaths("sky.png")[5] == "sky_nz.png"
    ensures FacePaths("a.b/sky")[1] == "a.b/sky_nx"
  {
    assert ExtensionStart("sky.png") == 3 by {
      assert "sky.png"[..6] == "sky.pn" && "sky.pn"[..5] == "sky.p" && "sky.p"[..4] == "sky.";
    }
    assert ExtensionStart("a.b/sky") == -1 by {
      assert "a.b/sky"[..6] == "a.b/sk" && "a.b/sk"[..5] == "a.b/s" && "a.b/s"[..4] == "a.b/";
    }
  }

  // ---------------------------------------------------------------------------
  // Rebuild outcomes

  /** What a rebuild leaves: its result, the error it reported, the texture, and width and height. */
  datatype Outcome = Outcome(ok: bool, report: Option<string>, texture: Option<Loaded>, width: int, height: int)

  /** The checks on one decoded face, in source order: width, then height, then the size range. */
  function FaceError(img: Image, width: int, height: int): Option<string>
  {
    if img.width != width then Some("Cubemap has mismatched image width")
    else if img.height != height then Some("Cubemap has mismatched image height")
    else if img.width <= 0 || img.width > MAX_SIDE || img.height <= 0 || img.height > MAX_SIDE then Some("Invalid texture size")
    else None
  }

  /** The error of the first face from `i` on that fails its checks, or None. */
  function FirstFaceError(images: seq<Image>, width: int, height: int, i: nat): (r: Option<string>)
    requires i <= |images|
    ensures r.None? <==> forall k :: i <= k < |images| ==> FaceError(images[k], width, height).None?
    decreases |images| - i
  {
    if i == |images| then None
    else if FaceError(images[i], width, height).Some? then FaceError(images[i], width, height)
    else FirstFaceError(images, width, height, i + 1)
  }

  /** RebuildTexture: an empty path loads nothing; an unreadable one fails; a readable one loads and sets the size. */
  function TextureOutcome(p: string, width: int, height: int, pkg: Package): Outcome
  {
    if p == [] then Outcome(true, None, None, width, height)
    else if p !in pkg then Outcome(false, Some("Could not read texture from application package"), None, width, height)
    else Outcome(true, None, Some(FlatTexture(p)), pkg[p].width, pkg[p].height)
  }

  /**
   * RebuildCubemap: an empty path loads nothing; a missing face fails without
   * a report; then every face must pass its checks.
   */
  function CubemapOutcome(p: string, width: int, height: int, pkg: Package): Outcome
  {
    if p == [] then Outcome(true, None, None, width, height)
    else
      var faces := FacePaths(p);
      if exists side :: 0 <= side < 6 && faces[side] !in pkg then Outcome(false, None, None, width, height)
      else
        var images := seq(6, side requires 0 <= side < 6 => pkg[faces[side]]);
        match FirstFaceError(images, width, height, 0)
        case Some(message) => Outcome(false, Some(message), None, width, height)
        case None => Outcome(true, None, Some(CubeTexture(faces)), width, height)
  }

  /** Rebuild: the path must be a string; then the cube flag picks the loader. */
  function RebuildOutcome(path: Value, width: int, height: int, cube: bool, pkg: Package): Outcome
  {
    if !path.Str? then Outcome(false, Some("Expected a string"), None, width, height)
    else if cube then CubemapOutcome(path.s, width, height, pkg)
    else TextureOutcome(path.s, width, height, pkg)
  }

  /**
   * A cubemap rebuild succeeds exactly when the path is empty, or every face
   * is in the package and decodes to the declared width and height, both in
   * 1 .. 32768; a successful non-empty rebuild loads the six faces in order.
   */
  lemma CubemapSucceedsExactly(p: string, width: int, height: int, pkg: Package)
    ensures CubemapOutcome(p, width, height, pkg).ok <==>
              || p == []
              || (&& (forall side :: 0 <= side < 6 ==> FacePath(p, side) in pkg && pkg[FacePath(p, side)] == Image(width, height))
                  && 0 < width <= MAX_SIDE && 0 < height <= MAX_SIDE)
    ensures p != [] && CubemapOutcome(p, width, height, pkg).ok ==>
              CubemapOutcome(p, width, height, pkg).texture == Some(CubeTexture(FacePaths(p)))
  {
    if p != [] {
      var faces := FacePaths(p);
      if forall side :: 0 <= side < 6 ==> faces[side] in pkg {
        var images := seq(6, side requires 0 <= side < 6 => pkg[faces[side]]);
        if FirstFaceError(images, width, height, 0).None? {
          forall side | 0 <= side < 6
            ensures pkg[faces[side]] == Image(width, height)
          {
            assert FaceError(images[side], width, height).None?;
          }
          assert FaceError(images[0], width, height).None?;
        }
        if (forall side :: 0 <= side < 6 ==> pkg[faces[side]] == Image(width, height))
           && 0 < width <= MAX_SIDE && 0 < height <= MAX_SIDE {
          assert forall k :: 0 <= k < 6 ==> FaceError(images[k], width, height).None?;
        }
      }
    }
  }

  /** With an empty path either loader frees the texture and succeeds, loading nothing. */
  lemma EmptyPathLoadsNothing(width: int, height: int, cube: bool, pkg: Package)
    ensures RebuildOutcome(Str([]), width, height, cube, pkg) == Outcome(true, None, None, width, height)
  {
  }

  /** A path that is not a string, null included, fails the rebuild before either loader runs. */
  lemma NonStringPathFails(path: Value, width: int, height: int, cube: bool, pkg: Package)
    requires !path.Str?
    ensures !RebuildOutcome(path, width, height, cube, pkg).ok
    ensures RebuildOutcome(path, width, height, cube, pkg).texture == None
  {
  }

  // ---------------------------------------------------------------------------
  // Construction

  /** The validated constructor options. */
  datatype Settings = Settings(path: Value, width: Int32, height: Int32, cube: bool)

  /** CoreTexture_constructor's checks on its options, in source order. */
  function Validate(args: seq<Value>, heap: Heap): (r: Result<Settings, Failure>)
    ensures r.Ok? ==> r.value.path.IsNullOrUndefined() || r.value.path.Str?
  {
    if |args| != 1 then Err(WrongArgumentCount(|args|, 1))
    else if !args[0].IsObject() then Err(Reported("Texture options must be an object"))
    else
      var opts := PropertiesOf(heap, args[0]);
      var path, width, height, cube := Get(opts, "path"), Get(opts, "width"), Get(opts, "height"), Get(opts, "cube");
      if !path.IsNullOrUndefined() && !path.Str? then Err(Reported("Expected path to be a string"))
      else if width.IsNullOrUndefined() then Err(Reported("Texture missing required width property"))
      else if !width.Int? then Err(Reported("Texture width must be an integer"))
      else if height.IsNullOrUndefined() then Err(Reported("Texture missing required height property"))
      else if !height.Int? then Err(Reported("Texture height must be an integer"))
      else Ok(Settings(path, width.n, height.n, cube.Bool? && cube.b))
  }

  /**
   * Validation succeeds exactly for one object argument whose path is absent,
   * null or a string and whose width and height are int32 values; the cube
   * flag is true only when the option is the boolean true.
   */
  lemma ValidateSucceedsExactly(args: seq<Value>, heap: Heap)
    ensures Validate(args, heap).Ok? <==>
              && |args| == 1 && args[0].IsObject()
              && var opts := PropertiesOf(heap, args[0]);
                 && (Get(opts, "path").IsNullOrUndefined() || Get(opts, "path").Str?)
                 && Get(opts, "width").Int? && Get(opts, "height").Int?
    ensures Validate(args, heap).Ok? ==>
              var opts := PropertiesOf(heap, args[0]);
              && Validate(args, heap).value == Settings(Get(opts, "path"), Get(opts, "width").n, Get(opts, "height").n,
                                                         Get(opts, "cube") == Bool(true))
  {
  }

  class Texture {
    var path: Value
    var width: int
    var height: int
    var cube: bool
    var texture: Option<Loaded>

    /** The texture constructor: stores the settings and rebuilds, ignoring the rebuild's result. */
    constructor (settings: Settings, pkg: Package)
      ensures path == settings.path && cube == settings.cube
      ensures var o := RebuildOutcome(settings.path, settings.width, settings.height, settings.cube, pkg);
              texture == o.texture && width == o.width && height == o.height
    {
      path := settings.path;
      width := settings.width;
      height := settings.height;
      cube := settings.cube;
      texture := None;
      new;
      var _, _ := Rebuild(pkg);
    }

    /** Frees the texture and loads it again from the current settings. */
    method Rebuild(pkg: Package) returns (ok: bool, report: Option<string>)
      modifies this
      ensures var o := RebuildOutcome(old(path), old(width), old(height), old(cube), pkg);
              && ok == o.ok && report == o.report
              && texture == o.texture && width == o.width && height == o.height
      ensures path == old(path) && cube == old(cube)
    {
      texture := None;
      if !path.Str? {
        return false, Some("Expected a string");
      }
      if cube {
        ok, report := RebuildCubemap(path.s, pkg);
      } else {
        ok, report := RebuildTexture(path.s, pkg);
      }
    }

    method RebuildTexture(p: string, pkg: Package) returns (ok: bool, report: Option<string>)
      modifies this
      ensures var o := TextureOutcome(p, old(width), old(height), pkg);
              && ok == o.ok && report == o.report
              && texture == o.texture && width == o.width && height == o.height
      ensures path == old(path) && cube == old(cube)
    {
      texture := None;
      if p == [] {
        return true, None;
      }
      if p !in pkg {
        return false, Some("Could not read texture from application package");
      }
      texture := Some(FlatTexture(p));
      width, height := pkg[p].width, pkg[p].height;
      return true, None;
    }

    method RebuildCubemap(p: string, pkg: Package) returns (ok: bool, report: Option<string>)
      modifies this
      ensures var o := CubemapOutcome(p, old(width), old(height), pkg);
              && ok == o.ok && report == o.report
              && texture == o.texture && width == o.width && height == o.height
      ensures path == old(path) && cube == old(cube)
    {
      texture := None;
      if p == [] {
        return true, None;
      }
      var ext := Extension(p);
      var noExt := StripExtension(p);
      var faces: seq<string> := [];
      var images: seq<Image> := [];
      var side := 0;
      while side < 6
        invariant 0 <= side <= 6 && |faces| == |images| == side
        invariant forall k :: 0 <= k < side ==> faces[k] == FacePath(p, k) && faces[k] in pkg && images[k] == pkg[faces[k]]
        invariant texture == None && width == old(width) && height == old(height)
        invariant path == old(path) && cube == old(cube)
      {
        var sidePath := noExt + CUBE_SUFFIXES[side] + ext;
        if sidePath !in pkg {
          assert FacePaths(p)[side] !in pkg;
          return false, None;
        }
        faces := faces + [sidePath];
        images := images + [pkg[sidePath]];
        side := side + 1;
      }
      assert faces == FacePaths(p);
      assert images == seq(6, k requires 0 <= k < 6 => pkg[faces[k]]);
      assert !exists k :: 0 <= k < 6 && faces[k] !in pkg;
      var i := 0;
      while i < 6
        invariant 0 <= i <= 6
        invariant FirstFaceError(images, width, height, 0) == FirstFaceError(images, width, height, i)
        invariant texture == None && width == old(width) && height == old(height)
        invariant path == old(path) && cube == old(cube)
      {
        var img := images[i];
        if img.width != width {
          assert FaceError(images[i], width, height) == Some("Cubemap has mismatched image width");
          return false, Some("Cubemap has mismatched image width");
        }
        if img.height != height {
          assert FaceError(images[i], width, height) == Some("Cubemap has mismatched image height");
          return false, Some("Cubemap has mismatched image height");
        }
        if img.width <= 0 || img.width > MAX_SIDE || img.height <= 0 || img.height > MAX_SIDE {
          assert FaceError(images[i], width, height) == Some("Invalid texture size");
          return false, Some("Invalid texture size");
        }
        i := i + 1;
      }
      texture := Some(CubeTexture(faces));
      return true, None;
    }

    /** CoreTexture_set_path: a non-string is rejected and nothing changes; a string replaces the path, then a rebuild. */
    method SetPath(v: Value, pkg: Package) returns (r: Status)
      modifies this
      ensures !v.Str? ==> r == Err(Reported("Invalid path specified")) && Unchanged(old(path), old(width), old(height), old(cube), old(texture))
      ensures v.Str? ==> r == Ok(()) && path == v && cube == old(cube) && Rebuilt(old(width), old(height), pkg)
    {
      if !v.Str? {
        return Err(Reported("Invalid path specified"));
      }
      path := v;
      var _, _ := Rebuild(pkg);
      return Ok(());
    }

    /** CoreTexture_set_width: a non-int32 is rejected and nothing changes; an int32 replaces the width, then a rebuild. */
    method SetWidth(v: Value, pkg: Package) returns (r: Status)
      modifies this
      ensures !v.Int? ==> r == Err(Reported("Invalid width specified")) && Unchanged(old(path), old(width), old(height), old(cube), old(texture))
      ensures v.Int? ==> r == Ok(()) && path == old(path) && cube == old(cube) && Rebuilt(v.n, old(height), pkg)
    {
      if !v.Int? {
        return Err(Reported("Invalid width specified"));
      }
      width := v.n;
      var _, _ := Rebuild(pkg);
      return Ok(());
    }

    /** CoreTexture_set_height: a non-int32 is rejected and nothing changes; an int32 replaces the height, then a rebuild. */
    method SetHeight(v: Value, pkg: Package) returns (r: Status)
      modifies this
      ensures !v.Int? ==> r == Err(Reported("Invalid height specified")) && Unchanged(old(path), old(width), old(height), old(cube), old(texture))
      ensures v.Int? ==> r == Ok(()) && path == old(path) && cube == old(cube) && Rebuilt(old(width), v.n, pkg)
    {
      if !v.Int? {
        return Err(Reported("Invalid height specified"));
      }
      height := v.n;
      var _, _ := Rebuild(pkg);
      return Ok(());
    }

    /** CoreTexture_set_cube: a non-boolean is rejected and nothing changes; a boolean replaces the flag, then a rebuild. */
    method SetCube(v: Value, pkg: Package) returns (r: Status)
      modifies this
      ensures !v.Bool? ==> r == Err(Reported("Invalid cube boolean specified")) && Unchanged(old(path), old(width), old(height), old(cube), old(texture))
      ensures v.Bool? ==> r == Ok(()) && path == old(path) && cube == v.b && Rebuilt(old(width), old(height), pkg)
    {
      if !v.Bool? {
        return Err(Reported("Invalid cube boolean specified"));
      }
      cube := v.b;
      var _, _ := Rebuild(pkg);
      return Ok(());
    }

    predicate Unchanged(path0: Value, width0: int, height0: int, cube0: bool, texture0: Option<Loaded>)
      reads this
    {
      path == path0 && width == width0 && height == height0 && cube == cube0 && texture == texture0
    }

    /** The texture, width and height are those a rebuild from the current path and cube flag and the given size leaves. */
    predicate Rebuilt(width0: int, height0: int, pkg: Package)
      reads this
    {
      var o := RebuildOutcome(path, width0, height0, cube, pkg);
      texture == o.texture && width == o.width && height == o.height
    }
  }

  /**
   * CoreTexture_constructor: validates the options, then builds the texture;
   * a failed rebuild does not fail the construction.
   */
  method Construct(args: seq<Value>, heap: Heap, pkg: Package) returns (r: Result<Texture, Failure>)
    ensures Validate(args, heap).Err? ==> r == Err(Validate(args, heap).error)
    ensures Validate(args, heap).Ok? ==>
              var s := Validate(args, heap).value;
              var o := RebuildOutcome(s.path, s.width, s.height, s.cube, pkg);
              && r.Ok? && fresh(r.value)
              && r.value.path == s.path && r.value.cube == s.cube
              && r.value.texture == o.texture && r.value.width == o.width && r.value.height == o.height
  {
    var settings := Validate(args, heap);
    if settings.Err? {
      return Err(settings.error);
    }
    var tex := new Texture(settings.value, pkg);
    return Ok(tex);
  }
}
