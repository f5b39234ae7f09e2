# FlintVR core, modelled in Dafny

FlintVR is a JavaScript-scriptable VR runtime for Android. A script builds
models from geometries, programs and textures, adds them to a scene and
registers per-frame, gaze, gesture and collision callbacks. The native host
evaluates the script, calls its `vrmain`, and then runs one frame pass after
another over the scene. This project models the parts of the host that
decide what happens, and proves what they promise:

- `js_values.dfy` (`JsValues`): the JavaScript values the native side sees.
  It also holds option bags on a heap of objects, the `Result`/`Option`
  wrappers, the failures the host reports, and decimal formatting of
  unsigned numbers.
- `scene_graph.dfy` (`SceneGraph`): the growable array of model pointers.
  It is a class over an `array`, with a count and a capacity.
- `vertex_attribs.dfy` (`VertexAttribs`): the parser that turns a flat
  vertex array into attribute arrays. The array is a header of attribute
  tags followed by interleaved data. The model is an imperative method over
  the two ten-slot buffers, proved equal to a specification function, with
  lemmas about that function.
- `core_scene.dfy` (`CoreScene`): the scene, an ordered list of model trees.
  It covers recursive removal and lookup by id, the add and remove bindings
  with their error cases, the clear colour, and the collision tick. The
  tick is the per-model passes, the physics step, the two-way contact
  dispatch and the finishing pass. Every call the scene makes into a model
  or the physics world is recorded in a `calls` log.
- `core_model.dfy` (`CoreModel`): the model's id counter and option
  resolution in the constructor. It covers the callback predicates, the
  property setters, and the local matrix built from position, rotation and
  scale.
- `core_geometry.dfy` (`CoreGeometry`): geometry construction. The checks
  run in source order, then the vertex parse, then the index copy, which
  narrows each index to 16 bits.
- `core_texture.dfy` (`CoreTexture`): the texture object. It covers path,
  width, height and cube validation, and the rebuild of a flat texture or a
  six-face cube map from the application package. The face paths come from
  the path's extension rule.
- `app_loader.dfy` (`AppLoader`): the Android bundle loader. Its state
  machine fetches the manifest and then loads the files. The module also
  covers the manifest URL and the local file path.
- `ovr_app.dfy` (`OvrApp`): the host application. It covers:
  - error de-duplication and display;
  - the order of the passes in one frame;
  - the choice between a package script and a URL;
  - evaluating a script before calling `vrmain`.

Everything outside the host is a parameter of the model: the JavaScript
engine, the network, the file system, the package contents and the physics
engine's contact list.

## Model

| member | source | states |
|---|---|---|
| SceneGraph.IndexOfId | Src/SceneGraph.cpp:18-25 | the smallest index whose model has the id; -1 exactly when no model has it |
| SceneGraph.SceneGraph.constructor | Src/SceneGraph.cpp:3-5 | a new graph is empty, with capacity 1 and a fresh array (count and capacity start at zero) |
| SceneGraph.SceneGraph.Count | Src/SceneGraph.cpp:7-9 | the number of stored models |
| SceneGraph.SceneGraph.Add | Src/SceneGraph.cpp:11-16 | the model is appended after the old contents, which are unchanged; capacity grows only when the array was full; count <= capacity is kept |
| SceneGraph.SceneGraph.IndexOf | Src/SceneGraph.cpp:18-25 | the result is the first index carrying the model's id, or -1 |
| SceneGraph.SceneGraph.Remove | Src/SceneGraph.cpp:27-32 | exactly element i leaves; the others keep their order; the array and capacity stay |
| SceneGraph.SceneGraph.Resize | Src/SceneGraph.cpp:34-51 | a fresh array with capacity 1 when empty, otherwise doubled; the contents are copied in order |
| SceneGraph.SceneGraph.At | Src/SceneGraph.cpp:53-55 | the stored element at i, unchanged |
| SceneGraph.AddThenRemoveRestores | Src/SceneGraph.cpp:11-32 | adding a model whose id is absent makes indexOf find it at the end; removing it there restores the list |
| VertexAttribs.ParseVertexAttribs | Src/ParseVertexAttribs.cpp:5-175 | the parser's result is Parse(input), the specification below |
| VertexAttribs.HeaderEnd | Src/ParseVertexAttribs.cpp:38-50 | the header is the longest prefix of ints, nulls and undefineds; the cell after it is data |
| VertexAttribs.FirstBadTag | Src/ParseVertexAttribs.cpp:50-93 | the first header int that is no attribute constant, or the header end |
| VertexAttribs.LastTag | Src/ParseVertexAttribs.cpp:51-89 | the last header position declaring an attribute (a later tag overwrites an earlier one) |
| VertexAttribs.Resized | Src/ParseVertexAttribs.cpp:95-121 | at the end of the header, each declared attribute gets totalVertices slots and each undeclared one none |
| VertexAttribs.ParseFailsExactly | Src/ParseVertexAttribs.cpp:7-17 | parsing fails exactly for a non-array or a header holding an unknown tag |
| VertexAttribs.UnknownTagFails | Src/ParseVertexAttribs.cpp:90-92 | reaching an unknown tag fails the whole parse |
| VertexAttribs.OnlyTags | Src/ParseVertexAttribs.cpp:38-94 | an input of known tags and nulls only gives seven empty arrays |
| VertexAttribs.Sizing | Src/ParseVertexAttribs.cpp:95-121 | once data starts, a declared attribute holds (length - h) / h entries and an undeclared one none |
| VertexAttribs.VertexNumInRange | Src/ParseVertexAttribs.cpp:95-171 | the vertex counter stays below totalVertices on every data cell of a whole number of vertices |
| VertexAttribs.DataStep | Src/ParseVertexAttribs.cpp:132-171 | one data cell stores the first Width(a) components of its vector in the slot of a = reverse[i % h] at vertexNum (the typed copy drops the rest), and the counter advances after the last component |
| VertexAttribs.DenseLayout | Src/ParseVertexAttribs.cpp:132-171 | with no null data cells, the first Width(a) components of cell j land in the attribute a tagged at (j - h) % h, at vertex (j - h) / h |
| VertexAttribs.StoreEntry | Src/ParseVertexAttribs.cpp:134-171 | storing one data cell moves the attribute arrays and the counter from their state before cell i to their state after it |
| VertexAttribs.EndHeader | Src/ParseVertexAttribs.cpp:95-130 | the end-of-header calculations give h - 1, h, totalVertices and the resized arrays |
| VertexAttribs.NewBuffers | Src/ParseVertexAttribs.cpp:29-34 | the two ten-slot buffers are fresh and filled with -1 |
| VertexAttribs.Record | Src/ParseVertexAttribs.cpp:52-88 | a known tag k at i sets indices[k] := i and reverse[i] := k, and nothing else |
| CoreScene.DirectIndex | Src/CoreScene.cpp:73-81 | the first direct child with the id, or -1 exactly when none has it |
| CoreScene.RemoveFindsExactly | Src/CoreScene.cpp:71-99 | removal succeeds exactly when the id is in some tree; a failed removal changes nothing |
| CoreScene.RemoveDirectChild | Src/CoreScene.cpp:83-87 | a matching direct child is removed outright, the rest keep their order |
| CoreScene.RemoveDetachesOneSubtree | Src/CoreScene.cpp:71-99 | a successful removal detaches exactly one subtree, rooted at a model with the id; every other model stays |
| CoreScene.FindFindsExactly | Src/CoreScene.cpp:227-237 | lookup succeeds exactly when the id is in some tree, and returns a model with that id from within the trees |
| CoreScene.FindTakesFirstChild | Src/CoreScene.cpp:228-235 | the model found is the one that the own lookup of one of the child trees finds |
| CoreScene.RemoveAgreesWithFind | Src/CoreScene.cpp:71-99 | remove succeeds exactly when ModelById finds the id |
| CoreScene.Visits | Src/CoreScene.cpp:101-124 | one pass visits every top-level model once, in order |
| CoreScene.ContactsInBothDirections | Src/CoreScene.cpp:144-153 | each contact pair produces two calls, A told of B and then B told of A, in manifold order |
| CoreScene.ContactsArePhaseTwo | Src/CoreScene.cpp:144-153 | the contact dispatch makes only CollidedWith calls |
| CoreScene.TickOrder | Src/CoreScene.cpp:126-161 | a tick updates every model, steps the simulation exactly once (1/60 on the first tick, the elapsed time afterwards, in at most 3 substeps of 1/60), dispatches contacts, then finishes every model, in that order |
| CoreScene.Steps | Src/CoreScene.cpp:134-141 | one requested step time per tick |
| CoreScene.SimulatedTime | Src/CoreScene.cpp:134-141 | over ticks at nonzero times, the step times requested of the physics world add up to 1/60 plus the time from the first tick to the last |
| CoreScene.ElapsedSince | Src/CoreScene.cpp:139-141 | after a first tick, the step times requested by later ticks add up to the elapsed time |
| CoreScene.Scene.constructor | Src/CoreScene.cpp:276-279 | a new scene has a white clear colour, no children and a zero collision tick (line 5) |
| CoreScene.Scene.RemoveModel | Src/CoreScene.cpp:71-99 | the result and new children are RemoveIn of the old children |
| CoreScene.Scene.ModelById | Src/CoreScene.cpp:227-237 | the result is FindIn of the children |
| CoreScene.Scene.ComputeMatrices | Src/CoreScene.cpp:101-108 | one matrix visit per top-level model, in order; nothing else changes |
| CoreScene.Scene.CallFrameCallbacks | Src/CoreScene.cpp:110-116 | one frame-callback visit per top-level model, in order |
| CoreScene.Scene.CallGazeCallbacks | Src/CoreScene.cpp:118-124 | one gaze-callback visit per top-level model, in order |
| CoreScene.Scene.PerformCollisionDetection | Src/CoreScene.cpp:126-161 | the calls made are TickCalls of the old state, and lastCollisionTick becomes now |
| CoreScene.Scene.Add | Src/CoreScene.cpp:318-346 | wrong arity or a non-object is reported and changes nothing; otherwise the model is attached, collisions start, and it is appended |
| CoreScene.Scene.Remove | Src/CoreScene.cpp:348-379 | after the argument checks, the model is detached and its collisions stopped before the search; a model not found is reported |
| CoreScene.Scene.SetClearColor | Src/CoreScene.cpp:381-400 | exactly one object argument replaces the clear colour; anything else is reported and changes nothing |
| CoreModel.IdCounter.constructor | Src/CoreModel.cpp:7 | ids start at 1 |
| CoreModel.IdCounter.Allocate | Src/CoreModel.cpp:7-14 | each model takes the next id, strictly above every id issued before |
| CoreModel.ResolveSucceedsExactly | Src/CoreModel.cpp:198-228 | construction options resolve exactly when geometry and program are objects and each transform option is absent, null or an object; a missing geometry or program is reported |
| CoreModel.ResolvedTransform | Src/CoreModel.cpp:230-288 | geometry and program are kept as given; each transform option is taken when given and defaulted otherwise |
| CoreModel.ResolvedCallbacks | Src/CoreModel.cpp:290-314 | a callback slot is set exactly when its option is not null or undefined, and then holds that value |
| CoreModel.CallbacksAsGiven | Src/CoreModel.cpp:16-30 | HasFrame/Gaze/GestureCallback hold exactly when the matching options were given |
| CoreModel.CallbackAsGiven | Src/CoreModel.cpp:374-376 | CallbackDefined of a resolved slot holds exactly when its option was given |
| CoreModel.SetTranslation | Src/CoreModel.cpp:32-63 | setting the translation replaces the last column's first three rows and keeps every other entry |
| CoreModel.TranslationIsPosition | Src/CoreModel.cpp:32-63 | the computed matrix translates by the position |
| CoreModel.PositionOnlyTranslates | Src/CoreModel.cpp:32-63 | the position affects only the translation column |
| CoreModel.ZeroScaleCollapses | Src/CoreModel.cpp:230-288 | with the default zero scale, the linear part of the matrix is zero |
| CoreModel.ResolvedTyped | Src/CoreModel.cpp:230-288 | resolved options whose transforms are vectors give the matrix computation its inputs |
| CoreModel.Model.constructor | Src/CoreModel.cpp:9-14 | a new model takes the next id, is neither hovered nor touched, and has no matrix |
| CoreModel.Model.GetSlot | Src/CoreModel.cpp:71-77 | the getter returns the slot's value, or null when unset |
| CoreModel.Model.SetSlot | Src/CoreModel.cpp:79-91 | an object argument is stored in the slot; anything else is reported and changes nothing |
| CoreModel.Model.ComputeMatrix | Src/CoreModel.cpp:32-63 | the computed matrix is Composed of the slots; nothing else changes |
| CoreModel.Model.TakeObject | Src/CoreModel.cpp:198-228 | a required option is stored exactly when it is an object |
| CoreModel.Model.TakeCallback | Src/CoreModel.cpp:156-169 | a callback option is stored exactly when not null or undefined |
| CoreModel.Construct | Src/CoreModel.cpp:171-319 | wrong arity and non-objects are reported without using an id; otherwise an id is used and the model holds the resolved slots, or the resolution's error is returned |
| CoreGeometry.ToTriangleIndex | Src/CoreGeometry.cpp:89-106 | an index is narrowed to 16 bits, congruent modulo 65536 |
| CoreGeometry.CopyIndices | Src/CoreGeometry.cpp:89-106 | the index buffer holds one narrowed entry per array element, in order |
| CoreGeometry.Construct | Src/CoreGeometry.cpp:43-114 | the constructor's result is Build, its specification |
| CoreGeometry.BuildSucceedsExactly | Src/CoreGeometry.cpp:43-114 | construction succeeds exactly for one object argument whose vertices and indices are arrays and whose vertex header has no unknown tag |
| CoreGeometry.MissingArraysFail | Src/CoreGeometry.cpp:59-76 | missing vertices or indices are reported with their own messages, vertices checked first |
| CoreGeometry.BuiltAsGiven | Src/CoreGeometry.cpp:82-106 | a built geometry holds the parsed vertices and one index per element, unchanged when already in 0..65535 |
| CoreGeometry.NegativeIndexWraps | Src/CoreGeometry.cpp:89-106 | -1 is stored as 65535 |
| CoreTexture.ExtensionStart | Src/CoreTexture.cpp:41-43 | the extension starts at the last '.' after the last path separator, or there is none |
| CoreTexture.ExtensionSplits | Src/CoreTexture.cpp:41-43 | the stripped path followed by the extension is the path |
| CoreTexture.FacePaths | Src/CoreTexture.cpp:56-58 | six face paths, in the order px, nx, py, ny, pz, nz |
| CoreTexture.FacePathsDistinct | Src/CoreTexture.cpp:56-58 | the six face paths differ from each other |
| CoreTexture.FacePathsOfExample | Src/CoreTexture.cpp:56-58 | "sky.png" gives "sky_px.png" ... "sky_nz.png"; a '.' in a directory is not an extension |
| CoreTexture.FirstFaceError | Src/CoreTexture.cpp:69-87 | no face error from i on exactly when every face from i on has the texture's size |
| CoreTexture.CubemapSucceedsExactly | Src/CoreTexture.cpp:33-122 | a cube map loads exactly when the path is empty, or all six faces are in the package with the same, expected size |
| CoreTexture.EmptyPathLoadsNothing | Src/CoreTexture.cpp:124-129 | an empty path succeeds and leaves no texture, for a flat texture and a cube map alike (lines 36-38) |
| CoreTexture.NonStringPathFails | Src/CoreTexture.cpp:160-165 | a path that is not a string fails and leaves no texture |
| CoreTexture.Validate | Src/CoreTexture.cpp:302-364 | validated settings carry a string path or none |
| CoreTexture.ValidateSucceedsExactly | Src/CoreTexture.cpp:302-364 | construction options are accepted exactly under the constructor's arity and type checks |
| CoreTexture.Texture.constructor | Src/CoreTexture.cpp:4-15 | the texture keeps its settings and is rebuilt once |
| CoreTexture.Texture.Rebuild | Src/CoreTexture.cpp:156-175 | the outcome is RebuildOutcome of the current settings |
| CoreTexture.Texture.RebuildTexture | Src/CoreTexture.cpp:124-154 | the outcome is TextureOutcome of the path |
| CoreTexture.Texture.RebuildCubemap | Src/CoreTexture.cpp:33-122 | the outcome is CubemapOutcome of the path |
| CoreTexture.Texture.SetPath | Src/CoreTexture.cpp:203-216 | a string path is stored and the texture rebuilt; anything else is reported and changes nothing |
| CoreTexture.Texture.SetWidth | Src/CoreTexture.cpp:226-237 | an int width is stored and the texture rebuilt; anything else is reported and changes nothing |
| CoreTexture.Texture.SetHeight | Src/CoreTexture.cpp:247-258 | an int height is stored and the texture rebuilt; anything else is reported and changes nothing |
| CoreTexture.Texture.SetCube | Src/CoreTexture.cpp:268-279 | a boolean is stored and the texture rebuilt; anything else is reported and changes nothing |
| CoreTexture.Construct | Src/CoreTexture.cpp:302-364 | validation errors are returned; otherwise a texture with the validated settings is built |
| AppLoader.ResolveName | Projects/Android/src/oculus/AppLoader.java:59 | resolving a plain name keeps the origin and the depth of the path |
| AppLoader.ManifestUriNamesManifest | Projects/Android/src/oculus/AppLoader.java:53-60 | the manifest URL always ends in flint.json, and is the bundle URL itself when that already names flint.json |
| AppLoader.ManifestOfBareHost | Projects/Android/src/oculus/AppLoader.java:53-60 | a bare host's manifest is /flint.json |
| AppLoader.CollapseSlashes | Projects/Android/src/oculus/AppLoader.java:75 | collapsing "//" never lengthens a path |
| AppLoader.CollapseKeepsSingle | Projects/Android/src/oculus/AppLoader.java:75 | a path without "//" is unchanged |
| AppLoader.CollapseFirst | Projects/Android/src/oculus/AppLoader.java:75 | emptiness and a leading '/' are kept |
| AppLoader.CollapseRemovesDoubles | Projects/Android/src/oculus/AppLoader.java:75 | a path without "///" has no "//" after the collapse |
| AppLoader.CollapseKeepsNames | Projects/Android/src/oculus/AppLoader.java:75 | the characters other than '/' are kept, in order |
| AppLoader.CollapsePrefix | Projects/Android/src/oculus/AppLoader.java:75 | a clean prefix passes through the collapse untouched |
| AppLoader.FilePathJoins | Projects/Android/src/oculus/AppLoader.java:66-76 | a clean directory and a clean relative path join with one '/', with or without a leading '/' on the path |
| AppLoader.FirstFailing | Projects/Android/src/oculus/AppLoader.java:155-162 | the first file that cannot be loaded, every earlier one loading |
| AppLoader.Loader.constructor | Projects/Android/src/oculus/AppLoader.java:38-46 | a new loader is idle, with nothing loaded |
| AppLoader.Loader.FetchManifest | Projects/Android/src/oculus/AppLoader.java:78-109 | only an idle loader fetches; an unreachable manifest is an error; otherwise the manifest is kept |
| AppLoader.Loader.LoadNextFile | Projects/Android/src/oculus/AppLoader.java:111-153 | the next file is loaded, or a directory or output failure becomes the error; a failed download still counts |
| AppLoader.Loader.LoadFiles | Projects/Android/src/oculus/AppLoader.java:155-162 | files load in manifest order up to the first failing one |
| AppLoader.Loader.Load | Projects/Android/src/oculus/AppLoader.java:164-176 | COMPLETE exactly when the manifest is served and every file loads; the loaded files are a prefix of the manifest; a reused loader is an error |
| JsValues.DecimalRoundTrip | Src/OvrApp.cpp:29-32 | the %u rendering of a line number is digits without a leading zero and reads back as the number |
| OvrApp.FormatError | Src/OvrApp.cpp:29-32 | an error line is never empty and ends in a newline |
| OvrApp.ReadErrorSplits | Src/OvrApp.cpp:29-32 | a "file:line:message" line splits back into its three parts |
| OvrApp.FormatErrorReadsBack | Src/OvrApp.cpp:28-38 | the formatted error reads back as the filename (or "[no filename]"), the decimal line number and the message |
| OvrApp.NewErrorShownOnce | Src/OvrApp.cpp:28-38 | a new error is shown at the next frame (lines 282-285) and not at the one after |
| OvrApp.RepeatedErrorIgnored | Src/OvrApp.cpp:33-37 | an error equal to the previous one changes nothing, so is not shown again |
| OvrApp.DisplayClears | Src/OvrApp.cpp:282-285 | a frame shows the latest error exactly when there is one, then clears it and keeps the previous one |
| OvrApp.TickIsLastStage | Src/OvrApp.cpp:320-323 | every call of the collision tick belongs to the last stage of a frame |
| OvrApp.FrameOrder | Src/OvrApp.cpp:320-323 | a frame computes matrices, then frame callbacks, then gaze callbacks, each over every model in order, then the collision tick |
| OvrApp.FrameStages | Src/OvrApp.cpp:320-323 | the stage of the i-th call of a frame depends only on i and the number of models |
| OvrApp.VrmainOnlyAfterEvaluation | Src/OvrApp.cpp:186-200 | vrmain is called once, right after a successful evaluation, and never when the script does not evaluate; that failure is shown |
| OvrApp.AssetCallsVrmainExactly | Src/OvrApp.cpp:172-204 | a package script runs vrmain exactly when the file is readable and evaluates |
| OvrApp.Host.constructor | Src/OvrApp.cpp:25-26 | the error strings and the base directory start empty |
| OvrApp.Host.ReportError | Src/OvrApp.cpp:28-38 | the error state becomes AfterReport of the formatted error |
| OvrApp.Host.ReportAll | Src/OvrApp.cpp:28-38 | a run of engine reports, each passed to reportError in order, leaves the error state AfterReports of them |
| OvrApp.ReportsLeaveLast | Src/OvrApp.cpp:28-38 | after a run of reports the previous error is the last report's line, and the latest error is the one pending before or one of the reported lines |
| OvrApp.RunReportsVrmainLast | Src/OvrApp.cpp:186-200 | an error vrmain reports is left as the previous error; a script that does not evaluate keeps only its evaluation errors, since vrmain never runs |
| OvrApp.Host.ShowLatestError | Src/OvrApp.cpp:282-285 | the latest error is shown and cleared |
| OvrApp.Host.RunPasses | Src/OvrApp.cpp:320-323 | the scene's calls grow by FrameCalls, and lastCollisionTick becomes now |
| OvrApp.Host.Frame | Src/OvrApp.cpp:278-330 | the latest error is shown first; a failure building ev is reported and stops the frame before any pass; otherwise the four passes run and the errors the engine reports meanwhile go through reportError |
| OvrApp.Host.Run | Src/OvrApp.cpp:186-200 | the events are those of evaluating and then calling vrmain; the error state takes the engine's evaluation reports, then vrmain's only when the script evaluated |
| OvrApp.Host.LoadAssetFile | Src/OvrApp.cpp:172-204 | the base directory is cleared; an unreadable file runs nothing and reports nothing; a readable one runs with its reports |
| OvrApp.Host.LoadURL | Src/OvrApp.cpp:206-257 | a loaded URL sets the base directory and runs its entry point with its reports; an unloadable one changes neither the directory nor the errors |
| OvrApp.Host.LoadScript | Src/OvrApp.cpp:163-169 | the package script or the URL is loaded, as the switch says, with that route's events and error reports |
| OvrApp.BuiltToLoadFromFile | Src/OvrApp.cpp:16-18 | the shipped build loads its script from the package, never through the app loader |

## Left out

- Rendering, OpenGL, the Oculus frame loop (GuiSys, DrawEyeView) and the Bullet physics world are left out. The physics world is a parameter: the contact pairs of a tick.
- CoreScene.Scene.PerformCollisionDetection: the step is recorded with its arguments: the requested time, at most 3 substeps, and the fixed 1/60 s substep. How Bullet divides that time into substeps, and that it drops the part of a long gap beyond 3 substeps, is not modelled.
- The JavaScript engine is left out: its evaluation of scripts and property reads. What evaluates is a parameter, a set of strings. On the package route the string is the script's text. On the URL route it is the local file name of the app's entry point (getAppEntrypoint in Projects/Android/src/oculus/MainActivity.java:38-40), which the file-name form of JS::Evaluate opens and reads itself (Src/OvrApp.cpp:243). Reading that file is not modelled apart from whether it evaluates. Failures of JS_GetProperty, JS_GetElement and JS_GetArrayLength are not modelled.
- A model's own ModelById and RemoveModel, which the scene calls, are not part of this model's source. They are given the scene's own search scheme: the model itself first, then its children in order.
- The model-level passes (ComputeMatrices, frame, gaze and collision callbacks) are recorded as calls, not modelled. The same goes for the callbacks a JS script defines.
- CoreProgram, the CoreVector and CoreMatrix bindings, and CoreSubmit are not part of this model.
- The OVR headers are not part of this model. The VERTEX_* constants are taken as POSITION..UV1 = 0..6, TriangleIndex as an unsigned 16-bit integer, and GetExtension/StripExtension as "from the last '.' after the last '/' or '\\'".
- VertexAttribs.ParseVertexAttribs: the precondition WellFormed excludes the inputs on which the source writes outside its buffers or divides by zero, which are undefined behaviour. These are:
  - a header of more than ten cells, nulls and undefineds included;
  - data at position 0;
  - a trailing partial vertex;
  - a data cell that is not a vector, null or undefined;
  - a data vector with fewer components than its attribute's vector type (GetVector3f, GetVector4f and GetVector2f are unchecked casts, Src/ParseVertexAttribs.cpp:138-157). A wider vector is modelled: only its first components are stored.
- CoreModel.IdCounter.Allocate: the id counter is an unbounded integer. The 32-bit overflow after 2^31 models is not modelled.
- CoreModel.Model.ComputeMatrix: sine and cosine are parameters (Trig), so angles are not evaluated.
- CoreModel.Model.ComputeMatrix: the precondition TransformSlotsTyped takes every set transform slot to hold a three-component vector. The setter accepts any object, and the source reads the slots through unchecked GetVector3f casts (Src/CoreModel.cpp:40-57). A Vector4f, a matrix or a plain object in a transform slot is therefore not covered: the source reads another type's memory, or a null private pointer.
- The default scale in the model constructor is `OVR::Vector3f()`, the zero vector (Src/CoreModel.cpp:276-280). ZeroScaleCollapses states what that default does.
- CoreTexture: decoding is taken to succeed for every file found in the package. A file's image size is a parameter. LoadTextureFromBuffer is taken to write the image's width and height back into the texture. The second, native-only constructor and the getters are not modelled.
- CoreTexture.Texture.Rebuild: the texture handle is freed before a rebuild and may be left stale on failure. The model records only the loaded texture or none.
- AppLoader: the network and file system are parameters (World): the manifests served, and the local paths that can be prepared and written. The Base64 cache-directory name and the resolution of file URLs are not modelled. A manifest that fails to parse counts as not served. The content of downloads is not modelled.
- AppLoader.Loader.LoadNextFile: when the cache directory cannot be resolved, filePath returns "" and the source throws a NullPointerException on its missing parent directory. The model treats "" as one more local path of the world.
- CoreScene.Scene.Add, CoreScene.Scene.Remove: the source casts any object argument to a model without a type check (Src/CoreScene.cpp:331-338, 361-368) and then writes through the result. For an object that is not a model this is undefined behaviour. The precondition therefore takes every object argument to be a model known to the caller's `models` map, and the model does not cover the other case.
- CoreScene.Scene.PerformCollisionDetection, OvrApp.Host.RunPasses, OvrApp.Host.Frame: the source dereferences ModelById's result for both bodies of every contact without a null check (Src/CoreScene.cpp:149-152). The precondition therefore requires every contact id to be found in the scene. A contact with a model outside the scene crashes in the source and is not modelled.
- AppLoader.Loader.constructor: the bundle URL is taken already parsed (`Url`). For a URI that OkHttp's HttpUrl.parse rejects, such as a non-http(s) one, parse returns null and manifestUri throws a NullPointerException (Projects/Android/src/oculus/AppLoader.java:54-55). That path is not modelled.
- The VRJS_GETSET macro in Src/CoreCommon.h has the same setter pattern as the CoreModel finding below. It is not modelled.
- OvrApp.Host.Run, OvrApp.Host.LoadAssetFile, OvrApp.Host.LoadURL, OvrApp.Host.LoadScript, OvrApp.Host.Frame: a failed vrmain call logs "Could not call vrmain" and adds no event. What the script threw still reaches reportError through the engine, which was given reportError at start-up (Src/OvrApp.cpp:121). The engine's reports are a parameter: the reports made while evaluating a script and while its vrmain runs (Engine), and those made during a frame's passes (Frame's passReports). Which scripts or callbacks fail, and with what message, is not modelled.
- CoreScene.SimulatedTime, CoreScene.ElapsedSince: C++ doubles and floats are modelled as exact reals, here and throughout (times, matrix and vector components, colours). Rounding is not modelled, so these two sums hold in exact arithmetic only. In the source, `now - lastCollisionTick` is a double narrowed to a float btScalar at stepSimulation (Src/CoreScene.cpp:135-140), and the fixed substep is the float nearest to 1/60.
- Logging, ShowInfoText's timing, the shutdown path and the Java activity's own URL loading are not modelled, apart from the loadApp result, the entry point and the base directory it yields.

## Findings

| source | as written | input that shows it | evidently intended | confidence | as-written member | corrected member |
|---|---|---|---|---|---|---|
| Src/SceneGraph.cpp:3-5 | the constructor calls resize() before _count and _capacity (Src/SceneGraph.h:17-19) are set, so the new capacity comes from whatever they held | a heap-allocated graph whose fields hold count 3 and capacity 1: the result has count 3 > capacity 2, and the next add writes past the array | start from count 0 and capacity 0, so that resize gives an empty graph of capacity 1 | medium, not executed | SceneGraph.ConstructedAsWrittenOverflows | SceneGraph.SceneGraph.constructor |
| Src/CoreModel.cpp:79-91 | the generated property setter checks args[0] but stores *vp, the callee slot, instead of the new value | model.position = a vector stores the setter function, not the vector | store args[0] in the slot | high, not executed | CoreModel.SetterAsWrittenDropsValue | CoreModel.Model.SetSlot |
