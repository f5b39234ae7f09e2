/**
 * The host application of Src/OvrApp.cpp, reduced to the logic it owns: the
 * script error reporter with its de-duplication, the per-frame display of the
 * latest error, the order of the scene passes each frame, the choice between
 * loading the script from the application package or from a URL, and the
 * rule that vrmain is called only after the script evaluated.
 *
 * The script engine, the package and the remote loader are parameters.
 */
module OvrApp {
  import opened JsValues
  import opened CoreScene

  const ERROR_DISPLAY_SECONDS: nat := 10

  /** The build switch choosing the package script over the remote one. */
  const LOAD_FROM_FILE: bool := true
  const SCRIPT_PATH := "assets/example1_cubes_and_stars.js"
  const SCRIPT_URL := "http://flint-hello.ngrok.com"

  // ---------------------------------------------------------------------------
  // Error reports

  /** Where the engine says an error comes from: the script file, when known, and the line. */
  datatype ErrorReport = ErrorReport(filename: Option<string>, lineno: nat)

  const NO_FILENAME := "[no filename]"

  /** The "%s:%u:%s\n" line reportError builds. */
  function FormatError(message: string, report: ErrorReport): (err: string)
    ensures |err| > 0 && err[|err| - 1] == '\n'
  {
    var name := match report.filename case Some(f) => f case None => NO_FILENAME;
    name + ":" + Decimal(report.lineno) + ":" + message + "\n"
  }

  /** The position of the first `c` in `s`, or |s|. */
  function IndexOf(s: string, c: char): (i: nat)
    ensures i <= |s| && (i < |s| ==> s[i] == c)
    ensures forall j :: 0 <= j < i ==> s[j] != c
  {
    if |s| == 0 then 0 else if s[0] == c then 0 else 1 + IndexOf(s[1..], c)
  }

  /** The part of `s` before the first `c`, and the part after it (empty when there is no `c`). */
  function SplitAt(s: string, c: char): (string, string)
  {
    var i := IndexOf(s, c);
    (s[..i], if i < |s| then s[i + 1..] else [])
  }

  /**
   * Reads a formatted error line back: the file name up to the first ':',
   * the line number up to the next ':', and the message without the final
   * newline.
   */
  function ReadError(err: string): (string, string, string)
  {
    var (name, rest) := SplitAt(err, ':');
    var (line, message) := SplitAt(rest, ':');
    (name, line, if |message| > 0 then message[..|message| - 1] else [])
  }

  lemma SplitAtFirst(a: string, c: char, b: string)
    requires forall k :: 0 <= k < |a| ==> a[k] != c
    ensures SplitAt(a + [c] + b, c) == (a, b)
  {
    var s := a + [c] + b;
    assert forall k :: 0 <= k < |a| ==> s[k] == a[k];
    assert s[|a|] == c;
    assert IndexOf(s, c) == |a|;
    assert s[..|a|] == a;
    assert s[|a| + 1..] == b;
  }

  /** A line built from a name and a field without ':' splits back into its three parts. */
  lemma ReadErrorSplits(name: string, digits: string, message: string)
    requires forall k :: 0 <= k < |name| ==> name[k] != ':'
    requires forall k :: 0 <= k < |digits| ==> digits[k] != ':'
    ensures ReadError(name + ":" + digits + ":" + message + "\n") == (name, digits, message)
  {
    var last := message + "\n";
    var rest := digits + [':'] + last;
    assert name + ":" + digits + ":" + message + "\n" == name + [':'] + rest;
    SplitAtFirst(name, ':', rest);
    SplitAtFirst(digits, ':', last);
    assert last[..|message|] == message;
  }

  /**
   * When the file name has no ':' the formatted line gives back the file
   * name, the decimal line number and the message, so two reports with
   * different origins or messages never collapse into one line.
   */
  lemma FormatErrorReadsBack(message: string, report: ErrorReport)
    requires report.filename.Some? ==> forall k :: 0 <= k < |report.filename.value| ==> report.filename.value[k] != ':'
    ensures var name := match report.filename case Some(f) => f case None => NO_FILENAME;
            ReadError(FormatError(message, report)) == (name, Decimal(report.lineno), message)
  {
    var name := match report.filename case Some(f) => f case None => NO_FILENAME;
    var digits := Decimal(report.lineno);
    DecimalRoundTrip(report.lineno);
    assert forall k :: 0 <= k < |digits| ==> digits[k] != ':';
    if report.filename.None? {
      assert forall k :: 0 <= k < |name| ==> name[k] != ':';
    }
    ReadErrorSplits(name, digits, message);
  }

  /** The two error strings reportError and Frame share. */
  datatype ErrorState = ErrorState(previous: string, latest: string)

  /** reportError: a line equal to the previous one changes nothing; a new one becomes both previous and latest. */
  function AfterReport(s: ErrorState, err: string): ErrorState
  {
    if err == s.previous then s else ErrorState(err, err)
  }

  /** Frame's display step: a non-empty latest error is shown and cleared. */
  function AfterDisplay(s: ErrorState): (ErrorState, Option<string>)
  {
    if s.latest != [] then (ErrorState(s.previous, []), Some(s.latest)) else (s, None)
  }

  /**
   * A new error is shown by the next frame and not by the one after; the same
   * error reported again in between is not shown again.
   */
  lemma NewErrorShownOnce(s: ErrorState, err: string)
    requires err != s.previous && err != []
    ensures var d1 := AfterDisplay(AfterReport(s, err));
            var d2 := AfterDisplay(AfterReport(d1.0, err));
            d1.1 == Some(err) && d2.1 == None
  {
  }

  /** Repeating the previous error changes neither string, whatever happened since. */
  lemma RepeatedErrorIgnored(s: ErrorState, err: string)
    requires err == s.previous
    ensures AfterReport(s, err) == s
  {
  }

  /**
   * After any display step the latest error is empty, and the previous one
   * is kept: only a different error can be shown again.
   */
  lemma DisplayClears(s: ErrorState)
    ensures AfterDisplay(s).0 == ErrorState(s.previous, [])
    ensures AfterDisplay(s).1.Some? <==> s.latest != []
  {
  }

  /**
   * An error the script engine hands to reportError, the reporter it was
   * given at start-up: a script that fails to compile or throws, or a native
   * binding that reports a failure while the script runs.
   */
  datatype Report = Report(message: string, at: ErrorReport)

  /** The line reportError builds for a report. */
  function Line(r: Report): string
  {
    FormatError(r.message, r.at)
  }

  /** The error strings once reportError has received `rs`, in order. */
  function AfterReports(s: ErrorState, rs: seq<Report>): ErrorState
  {
    if |rs| == 0 then s else AfterReport(AfterReports(s, rs[..|rs| - 1]), Line(rs[|rs| - 1]))
  }

  /**
   * After a run of reports the previous error is the last report's line, and
   * the latest error is either the one pending before or one of the lines
   * reported.
   */
  lemma {:induction false} ReportsLeaveLast(s: ErrorState, rs: seq<Report>)
    ensures |rs| > 0 ==> AfterReports(s, rs).previous == Line(rs[|rs| - 1])
    ensures var l := AfterReports(s, rs).latest;
            l == s.latest || exists k :: 0 <= k < |rs| && l == Line(rs[k])
  {
    if |rs| > 0 {
      var init := rs[..|rs| - 1];
      ReportsLeaveLast(s, init);
      var l := AfterReports(s, init).latest;
      if l != s.latest {
        var k :| 0 <= k < |init| && l == Line(init[k]);
        assert init[k] == rs[k];
      }
    }
  }

  /** What a display step puts on screen. */
  function Shown(shown: Option<string>): seq<HostEvent>
  {
    match shown
    case Some(e) => [ShowInfo(ERROR_DISPLAY_SECONDS, e)]
    case None => []
  }

  // ---------------------------------------------------------------------------
  // The frame

  /** The properties of the per-frame event object, in the order Frame sets them. */
  datatype EvField = ViewPos | ViewFwd | Now

  function EvFieldMessage(f: EvField): string
  {
    match f
    case ViewPos => "Could not set ev.viewPos"
    case ViewFwd => "Could not set ev.viewFwd"
    case Now => "Could not set ev.now"
  }

  /** The calls one frame makes into the scene: three passes over the models, then a collision tick. */
  function FrameCalls(cs: seq<Node>, lastCollisionTick: real, now: real, pairs: seq<(int, int)>): seq<Call>
  {
    Visits(Pass.ComputeMatrices, cs) + Visits(Pass.CallFrameCallbacks, cs) + Visits(Pass.CallGazeCallbacks, cs)
      + TickCalls(cs, lastCollisionTick, now, pairs)
  }

  /** The stage of a frame a call belongs to. */
  function Stage(c: Call): nat
  {
    match c
    case Visit(pass, _) =>
      if pass == Pass.ComputeMatrices then 0
      else if pass == Pass.CallFrameCallbacks then 1
      else if pass == Pass.CallGazeCallbacks then 2
      else 3
    case _ => 3
  }

  lemma {:induction false} TickIsLastStage(cs: seq<Node>, lastCollisionTick: real, now: real, pairs: seq<(int, int)>)
    ensures forall k :: 0 <= k < |TickCalls(cs, lastCollisionTick, now, pairs)| ==> Stage(TickCalls(cs, lastCollisionTick, now, pairs)[k]) == 3
  {
    TickOrder(cs, lastCollisionTick, now, pairs);
    ContactsArePhaseTwo(pairs);
    var t := TickCalls(cs, lastCollisionTick, now, pairs);
    forall k | 0 <= k < |t|
      ensures Stage(t[k]) == 3
    {
      if |cs| < k < |t| - |cs| {
        assert t[k] == Contacts(pairs)[k - |cs| - 1];
      }
    }
  }

  /**
   * A frame computes every model's matrix before any frame callback runs,
   * runs every frame callback before any gaze callback, and every gaze
   * callback before the collision tick; each pass visits each top-level
   * model once, in order.
   */
  lemma FrameOrder(cs: seq<Node>, lastCollisionTick: real, now: real, pairs: seq<(int, int)>)
    ensures var f := FrameCalls(cs, lastCollisionTick, now, pairs);
            var n := |cs|;
            && |f| == 3 * n + |TickCalls(cs, lastCollisionTick, now, pairs)|
            && (forall i, j :: 0 <= i < j < |f| ==> Stage(f[i]) <= Stage(f[j]))
            && (forall k :: 0 <= k < n ==>
                  && f[k] == Visit(Pass.ComputeMatrices, cs[k].id)
                  && f[n + k] == Visit(Pass.CallFrameCallbacks, cs[k].id)
                  && f[2 * n + k] == Visit(Pass.CallGazeCallbacks, cs[k].id))
            && f[3 * n..] == TickCalls(cs, lastCollisionTick, now, pairs)
  {
    var f := FrameCalls(cs, lastCollisionTick, now, pairs);
    var n := |cs|;
    FrameStages(cs, lastCollisionTick, now, pairs);
    assert forall i, j :: 0 <= i < j < |f| ==> StageAt(i, n) <= StageAt(j, n);
  }

  lemma FrameStages(cs: seq<Node>, lastCollisionTick: real, now: real, pairs: seq<(int, int)>)
    ensures var f := FrameCalls(cs, lastCollisionTick, now, pairs);
            forall i :: 0 <= i < |f| ==> Stage(f[i]) == StageAt(i, |cs|)
  {
    var f := FrameCalls(cs, lastCollisionTick, now, pairs);
    var t := TickCalls(cs, lastCollisionTick, now, pairs);
    var n := |cs|;
    var a, b, c := Visits(Pass.ComputeMatrices, cs), Visits(Pass.CallFrameCallbacks, cs), Visits(Pass.CallGazeCallbacks, cs);
    assert f == a + b + c + t;
    TickIsLastStage(cs, lastCollisionTick, now, pairs);
    forall i | 0 <= i < |f|
      ensures Stage(f[i]) == StageAt(i, n)
    {
      if i < n {
        assert f[i] == a[i];
      } else if i < 2 * n {
        assert f[i] == b[i - n];
      } else if i < 3 * n {
        assert f[i] == c[i - 2 * n];
      } else {
        assert f[i] == t[i - 3 * n];
      }
    }
  }

  /** The stage the call at position `i` of a frame over `n` models belongs to. */
  function StageAt(i: nat, n: nat): nat
  {
    if i < n then 0 else if i < 2 * n then 1 else if i < 3 * n then 2 else 3
  }

  // ---------------------------------------------------------------------------
  // Loading the script

  /**
   * What the engine and the outside world answer when a script is loaded.
   * The two routes hand the engine different things: a package script is
   * evaluated from its text, while a remote app is evaluated from the local
   * file name of its entry point, which the engine opens and reads itself.
   */
  datatype Engine = Engine(
    /** What evaluates without error: script texts, and entry-point file names whose file does. */
    evaluates: set<string>,
    /** The application package: path to contents. */
    package: map<string, string>,
    /** For a URL the remote loader loads: the local file name of its entry point, and its cache directory. */
    remote: map<string, (string, string)>,
    /** The errors the engine reports while evaluating a script. */
    evaluationReports: string -> seq<Report>,
    /** The errors the engine reports while the vrmain of a script runs. */
    vrmainReports: string -> seq<Report>)

  /** What the host does to load and start a script, in order. */
  datatype HostEvent =
    | Evaluate(source: string)
    | ShowInfo(seconds: nat, text: string)
    | CallVrmain
    | LoadApp(url: string)

  /**
   * Evaluates the script (its text, or its entry-point file name on the URL
   * route), shows the failure, and calls vrmain only when evaluation succeeded.
   */
  function RunEvents(source: string, engine: Engine): seq<HostEvent>
  {
    [Evaluate(source)]
      + (if source in engine.evaluates then [CallVrmain] else [ShowInfo(ERROR_DISPLAY_SECONDS, "Could not evaluate script")])
  }

  /**
   * The error strings after a script run: the engine's reports during the
   * evaluation, then, only when the evaluation succeeded, its reports while
   * vrmain runs.
   */
  function RunErrors(s: ErrorState, source: string, engine: Engine): ErrorState
  {
    AfterReports(AfterReports(s, engine.evaluationReports(source)),
                 if source in engine.evaluates then engine.vrmainReports(source) else [])
  }

  /**
   * An error vrmain reports is left as the previous error, pending display
   * unless it repeats; a script that does not evaluate never reaches vrmain,
   * so only its evaluation errors count.
   */
  lemma RunReportsVrmainLast(s: ErrorState, source: string, engine: Engine)
    ensures var v := engine.vrmainReports(source);
            source in engine.evaluates && |v| > 0 ==> RunErrors(s, source, engine).previous == Line(v[|v| - 1])
    ensures source !in engine.evaluates ==> RunErrors(s, source, engine) == AfterReports(s, engine.evaluationReports(source))
  {
    ReportsLeaveLast(AfterReports(s, engine.evaluationReports(source)), engine.vrmainReports(source));
  }

  /** LoadAssetFile: an unreadable package file stops the load before any evaluation. */
  function AssetEvents(path: string, engine: Engine): seq<HostEvent>
  {
    if path !in engine.package then [] else RunEvents(engine.package[path], engine)
  }

  /** LoadURL: the remote loader runs first; a failed load stops before any evaluation. */
  function UrlEvents(url: string, engine: Engine): seq<HostEvent>
  {
    [LoadApp(url)] + (if url !in engine.remote then [] else RunEvents(engine.remote[url].0, engine))
  }

  /**
   * vrmain is called at most once, only for a script that evaluated, and
   * only after its evaluation; a script that does not evaluate is reported
   * on screen instead.
   */
  lemma VrmainOnlyAfterEvaluation(source: string, engine: Engine)
    ensures var e := RunEvents(source, engine);
            && (CallVrmain in e <==> source in engine.evaluates)
            && e[0] == Evaluate(source)
            && (forall k :: 0 <= k < |e| && e[k] == CallVrmain ==> k == 1)
            && (source !in engine.evaluates ==> ShowInfo(ERROR_DISPLAY_SECONDS, "Could not evaluate script") in e)
  {
    var e := RunEvents(source, engine);
    if source !in engine.evaluates {
      assert e[1] != CallVrmain;
    }
  }

  /** Loading a package file calls vrmain exactly when the file is readable and its contents evaluate. */
  lemma AssetCallsVrmainExactly(path: string, engine: Engine)
    ensures CallVrmain in AssetEvents(path, engine) <==>
              path in engine.package && engine.package[path] in engine.evaluates
  {
    if path in engine.package {
      VrmainOnlyAfterEvaluation(engine.package[path], engine);
    }
  }

  // ---------------------------------------------------------------------------
  // The host object

  class Host {
    var previousError: string
    var latestError: string
    /** CURRENT_BASE_DIR: where relative resources of the running script are looked up. */
    var currentBaseDir: string
    var events: seq<HostEvent>
    const scene: Scene

    constructor (scene: Scene)
      ensures this.scene == scene
      ensures previousError == [] && latestError == [] && currentBaseDir == [] && events == []
    {
      this.scene := scene;
      previousError := [];
      latestError := [];
      currentBaseDir := [];
      events := [];
    }

    function Errors(): ErrorState
      reads this
    {
      ErrorState(previousError, latestError)
    }

    /** reportError: formats the report and records it unless it repeats the previous one. */
    method ReportError(message: string, report: ErrorReport)
      modifies this
      ensures Errors() == AfterReport(old(Errors()), FormatError(message, report))
      ensures events == old(events) && currentBaseDir == old(currentBaseDir)
    {
      var err := FormatError(message, report);
      if err != previousError {
        previousError := err;
        latestError := err;
      }
    }

    /** The engine's reports during one step, each passed to reportError in turn. */
    method ReportAll(rs: seq<Report>)
      modifies this
      ensures Errors() == AfterReports(old(Errors()), rs)
      ensures events == old(events) && currentBaseDir == old(currentBaseDir)
    {
      for i := 0 to |rs|
        invariant Errors() == AfterReports(old(Errors()), rs[..i])
        invariant events == old(events) && currentBaseDir == old(currentBaseDir)
      {
        assert rs[..i + 1][..i] == rs[..i];
        ReportError(rs[i].message, rs[i].at);
      }
      assert rs[..|rs|] == rs;
    }

    /** The first step of Frame: a pending error is put on screen and cleared. */
    method ShowLatestError()
      modifies this
      ensures Errors() == AfterDisplay(old(Errors())).0
      ensures events == old(events) + Shown(AfterDisplay(old(Errors())).1)
      ensures currentBaseDir == old(currentBaseDir)
    {
      if latestError != [] {
        events := events + [ShowInfo(ERROR_DISPLAY_SECONDS, latestError)];
        latestError := [];
      }
    }

    /** The last step of Frame: the three passes over the models, then the collision tick. */
    method RunPasses(now: real, manifolds: seq<(int, int)>)
      requires forall k :: 0 <= k < |manifolds| ==>
                 FindIn(scene.children, manifolds[k].0).Some? && FindIn(scene.children, manifolds[k].1).Some?
      modifies scene
      ensures scene.calls == old(scene.calls) + FrameCalls(old(scene.children), old(scene.lastCollisionTick), now, manifolds)
      ensures scene.lastCollisionTick == now
      ensures scene.children == old(scene.children) && scene.clearColor == old(scene.clearColor)
    {
      ghost var c0 := scene.calls;
      scene.ComputeMatrices();
      scene.CallFrameCallbacks();
      scene.CallGazeCallbacks();
      ghost var c3 := scene.calls;
      assert c3 == c0 + (Visits(Pass.ComputeMatrices, scene.children) + Visits(Pass.CallFrameCallbacks, scene.children)
                         + Visits(Pass.CallGazeCallbacks, scene.children));
      scene.PerformCollisionDetection(now, manifolds);
    }

    /**
     * Frame: shows and clears a pending error, builds the event object and
     * runs the scene passes. When setting an event property fails, the
     * failure is reported through the error reporter and no pass runs.
     * Otherwise `passReports` are the errors the engine reports while the
     * passes run the script's callbacks.
     */
    method Frame(now: real, manifolds: seq<(int, int)>, evFailure: Option<EvField>, evReport: ErrorReport,
                 passReports: seq<Report>)
      requires forall k :: 0 <= k < |manifolds| ==>
                 FindIn(scene.children, manifolds[k].0).Some? && FindIn(scene.children, manifolds[k].1).Some?
      modifies this, scene
      ensures events == old(events) + Shown(AfterDisplay(old(Errors())).1)
      ensures evFailure.Some? ==>
                Errors() == AfterReport(AfterDisplay(old(Errors())).0, FormatError(EvFieldMessage(evFailure.value), evReport))
      ensures evFailure.None? ==> Errors() == AfterReports(AfterDisplay(old(Errors())).0, passReports)
      ensures evFailure.Some? ==> scene.calls == old(scene.calls) && scene.lastCollisionTick == old(scene.lastCollisionTick)
      ensures evFailure.None? ==>
                && scene.calls == old(scene.calls) + FrameCalls(old(scene.children), old(scene.lastCollisionTick), now, manifolds)
                && scene.lastCollisionTick == now
      ensures scene.children == old(scene.children) && scene.clearColor == old(scene.clearColor)
      ensures currentBaseDir == old(currentBaseDir)
    {
      ShowLatestError();
      if evFailure.Some? {
        ReportError(EvFieldMessage(evFailure.value), evReport);
        return;
      }
      RunPasses(now, manifolds);
      ReportAll(passReports);
    }

    /** Evaluates a script and calls vrmain only when the evaluation succeeded. */
    method Run(source: string, engine: Engine)
      modifies this
      ensures events == old(events) + RunEvents(source, engine)
      ensures Errors() == RunErrors(old(Errors()), source, engine) && currentBaseDir == old(currentBaseDir)
    {
      events := events + [Evaluate(source)];
      ReportAll(engine.evaluationReports(source));
      var ok := source in engine.evaluates;
      if !ok {
        events := events + [ShowInfo(ERROR_DISPLAY_SECONDS, "Could not evaluate script")];
      }
      if ok {
        events := events + [CallVrmain];
        ReportAll(engine.vrmainReports(source));
      }
    }

    /** LoadAssetFile: clears the base directory, reads the script from the package and runs it. */
    method LoadAssetFile(path: string, engine: Engine)
      modifies this
      ensures events == old(events) + AssetEvents(path, engine)
      ensures currentBaseDir == []
      ensures Errors() == if path in engine.package then RunErrors(old(Errors()), engine.package[path], engine) else old(Errors())
    {
      currentBaseDir := [];
      if path !in engine.package {
        return;
      }
      Run(engine.package[path], engine);
    }

    /** LoadURL: has the remote loader fetch the app, takes its base directory and evaluates its entry-point file. */
    method LoadURL(url: string, engine: Engine)
      modifies this
      ensures events == old(events) + UrlEvents(url, engine)
      ensures currentBaseDir == if url in engine.remote then engine.remote[url].1 else old(currentBaseDir)
      ensures Errors() == if url in engine.remote then RunErrors(old(Errors()), engine.remote[url].0, engine) else old(Errors())
    {
      events := events + [LoadApp(url)];
      if url !in engine.remote {
        return;
      }
      var (entrypoint, baseDir) := engine.remote[url];
      currentBaseDir := baseDir;
      Run(entrypoint, engine);
    }

    /** The script-loading step of OneTimeInit: the package script when loading from file, the remote app otherwise. */
    method LoadScript(loadFromFile: bool, engine: Engine)
      modifies this
      ensures loadFromFile ==> events == old(events) + AssetEvents(SCRIPT_PATH, engine)
      ensures !loadFromFile ==> events == old(events) + UrlEvents(SCRIPT_URL, engine)
      ensures loadFromFile ==>
                Errors() == if SCRIPT_PATH in engine.package then RunErrors(old(Errors()), engine.package[SCRIPT_PATH], engine) else old(Errors())
      ensures !loadFromFile ==>
                Errors() == if SCRIPT_URL in engine.remote then RunErrors(old(Errors()), engine.remote[SCRIPT_URL].0, engine) else old(Errors())
    {
      if loadFromFile {
        LoadAssetFile(SCRIPT_PATH, engine);
      } else {
        LoadURL(SCRIPT_URL, engine);
      }
    }
  }

  /** As built, the host loads the package script and never contacts the remote loader. */
  lemma BuiltToLoadFromFile(engine: Engine)
    ensures LOAD_FROM_FILE
    ensures forall k :: 0 <= k < |AssetEvents(SCRIPT_PATH, engine)| ==> !AssetEvents(SCRIPT_PATH, engine)[k].LoadApp?
  {
  }
}
