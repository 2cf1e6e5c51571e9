/** The `instrument` command: where the diff is written, and the progress
    model that the terminal UI keeps while the instrumentation runs. */
module InstrumentCmd {
  import opened Wrappers
  import opened Strings
  import opened Paths
  import opened Seqs

  /** `defaultDiffFileName`: the diff written into the application directory
      when no output path is given. */
  const DefaultDiffFileName := "new-relic-instrumentation.diff"

  /** The outcome of `os.Stat` on the directory of the output path: it
      exists, it does not (an error that `errors.Is(err, os.ErrNotExist)`
      accepts), or some other error (permissions, say). */
  datatype StatResult = StatOk | StatNotExist | StatOtherError

  /** The two errors `validateOutputFile` reports. */
  datatype OutputError =
    | BadExtension      // "output file must have a .diff extension"
    | MissingDirectory  // "output file directory does not exist: ..."

  /** `validateOutputFile`: `None` when the path is acceptable.
      `statOfDir(path)` is the outcome of `os.Stat(filepath.Dir(path))`. */
  function ValidateOutputFile(path: string, statOfDir: string -> StatResult): (r: Option<OutputError>)
  {
    if Ext(path) != ".diff" then Some(BadExtension)
    else if statOfDir(path) == StatNotExist then Some(MissingDirectory)
    else None
  }

  /** A path is accepted exactly when it has the ".diff" extension and its
      directory is not reported missing; the extension is checked first, so
      a wrong extension is reported whatever the directory. */
  lemma ValidateOutputFileSpec(path: string, statOfDir: string -> StatResult)
    ensures ValidateOutputFile(path, statOfDir) == None <==> Ext(path) == ".diff" && statOfDir(path) != StatNotExist
    ensures ValidateOutputFile(path, statOfDir) == Some(BadExtension) <==> Ext(path) != ".diff"
    ensures ValidateOutputFile(path, statOfDir) == Some(MissingDirectory) <==> Ext(path) == ".diff" && statOfDir(path) == StatNotExist
  {
  }

  /** The extension check does not look at the file system: a path without
      the ".diff" extension gets the same answer under any two directory
      oracles. */
  lemma ExtensionCheckedFirst(path: string, stat1: string -> StatResult, stat2: string -> StatResult)
    requires Ext(path) != ".diff"
    ensures ValidateOutputFile(path, stat1) == ValidateOutputFile(path, stat2) == Some(BadExtension)
  {
  }

  /** A path ending in ".diff" has that extension. */
  lemma DiffOfSuffix(path: string)
    requires HasSuffix(path, ".diff")
    ensures Ext(path) == ".diff"
  {
    var ext := ".diff";
    assert ext[0] == '.' && ext[1..] == "diff";
    ExtOfSuffix(path, ext);
  }

  /** So does a name ending in ".diff" joined under any directory. */
  lemma DiffOfJoin(dir: string, name: string)
    requires HasSuffix(name, ".diff")
    ensures Ext(JoinPath(dir, name)) == ".diff"
  {
    HasSuffixTransitive(JoinPath(dir, name), name, ".diff");
    DiffOfSuffix(JoinPath(dir, name));
  }

  /** The cases of the command's test table for `validateOutputFile`, with
      `tmp` the temporary directory: "output.diff" there is accepted... */
  lemma AcceptedExample(tmp: string, statOfDir: string -> StatResult)
    requires statOfDir(JoinPath(tmp, "output.diff")) == StatOk
    ensures ValidateOutputFile(JoinPath(tmp, "output.diff"), statOfDir) == None
  {
    DiffOfJoin(tmp, "output.diff");
  }

  /** ... "output.txt" is rejected for its extension... */
  lemma WrongExtensionExample(tmp: string, statOfDir: string -> StatResult)
    ensures ValidateOutputFile(JoinPath(tmp, "output.txt"), statOfDir) == Some(BadExtension)
  {
    ExtOfJoin(tmp, "output.txt", ".txt");
  }

  /** ... so is "output", which has no extension at all... */
  lemma NoExtensionExample(tmp: string, statOfDir: string -> StatResult)
    ensures ValidateOutputFile(JoinPath(tmp, "output"), statOfDir) == Some(BadExtension)
  {
    ExtWithoutDot(DirPrefix(tmp), "output");
  }

  /** ... and a ".diff" file in a directory that does not exist is rejected
      for the directory. */
  lemma MissingDirectoryExample(statOfDir: string -> StatResult)
    requires statOfDir("/nonexistent/directory/output.diff") == StatNotExist
    ensures ValidateOutputFile("/nonexistent/directory/output.diff", statOfDir) == Some(MissingDirectory)
  {
    DiffOfSuffix("/nonexistent/directory/output.diff");
  }

  /** `setOutputFilePath`: the output path, or "" with the validation error.
      An empty path stands for the default diff file in the application
      directory. */
  function SetOutputFilePath(outputFilePath: string, applicationPath: string, statOfDir: string -> StatResult): (r: (string, Option<OutputError>))
  {
    var path := if outputFilePath == "" then JoinPath(applicationPath, DefaultDiffFileName) else outputFilePath;
    var err := ValidateOutputFile(path, statOfDir);
    if err.Some? then ("", err) else (path, None)
  }

  /** The path validated is the given one, or the default when none was
      given, and the error returned is exactly its validation error; an
      accepted path is that path, a ".diff" one, and on an error the path
      is "". */
  lemma SetOutputFilePathSpec(outputFilePath: string, applicationPath: string, statOfDir: string -> StatResult)
    ensures var (path, err) := SetOutputFilePath(outputFilePath, applicationPath, statOfDir);
      && err == ValidateOutputFile(if outputFilePath == "" then JoinPath(applicationPath, DefaultDiffFileName) else outputFilePath, statOfDir)
      && (err.Some? ==> path == "")
      && (err.None? ==> Ext(path) == ".diff" && path != "")
      && (err.None? && outputFilePath != "" ==> path == outputFilePath)
      && (err.None? && outputFilePath == "" ==> path == JoinPath(applicationPath, DefaultDiffFileName))
  {
  }

  /** The default path always has the ".diff" extension and the default file
      name as its base name... */
  lemma DefaultOutputPath(applicationPath: string)
    ensures Ext(JoinPath(applicationPath, DefaultDiffFileName)) == ".diff"
    ensures Base(JoinPath(applicationPath, DefaultDiffFileName)) == DefaultDiffFileName
  {
    DiffOfJoin(applicationPath, DefaultDiffFileName);
    DefaultNameIsOneElement();
    BaseOfJoin(applicationPath, DefaultDiffFileName);
  }

  /** ... so the only error it can meet is a missing application directory. */
  lemma DefaultPathHasNoBadExtension(applicationPath: string, statOfDir: string -> StatResult)
    ensures SetOutputFilePath("", applicationPath, statOfDir).1 != Some(BadExtension)
  {
    DefaultOutputPath(applicationPath);
  }

  /** The default file name is a single path element. */
  lemma DefaultNameIsOneElement()
    ensures DefaultDiffFileName != "" && '/' !in DefaultDiffFileName
  {
    var stem := "new-relic-instrumentation";
    assert forall i :: 0 <= i < |stem| ==> stem[i] != '/';
  }

  /** The command's test table for `setOutputFilePath`, with `tmp` an
      existing temporary directory: no path gives the default there... */
  lemma DefaultPathExample(tmp: string, statOfDir: string -> StatResult)
    requires statOfDir(JoinPath(tmp, DefaultDiffFileName)) == StatOk
    ensures SetOutputFilePath("", tmp, statOfDir) == (JoinPath(tmp, DefaultDiffFileName), None)
  {
    DefaultOutputPath(tmp);
  }

  /** ... a valid custom path is kept... */
  lemma CustomPathExample(tmp: string, statOfDir: string -> StatResult)
    requires statOfDir(JoinPath(tmp, "custom.diff")) == StatOk
    ensures SetOutputFilePath(JoinPath(tmp, "custom.diff"), tmp, statOfDir) == (JoinPath(tmp, "custom.diff"), None)
  {
    DiffOfJoin(tmp, "custom.diff");
  }

  /** ... a wrong extension gives an error and no path... */
  lemma WrongExtensionPathExample(tmp: string, statOfDir: string -> StatResult)
    ensures SetOutputFilePath(JoinPath(tmp, "custom.txt"), tmp, statOfDir) == ("", Some(BadExtension))
  {
    ExtOfJoin(tmp, "custom.txt", ".txt");
  }

  /** ... and so does a missing directory. */
  lemma MissingDirectoryPathExample(tmp: string, statOfDir: string -> StatResult)
    requires statOfDir("/fake/dir/custom.diff") == StatNotExist
    ensures SetOutputFilePath("/fake/dir/custom.diff", tmp, statOfDir) == ("", Some(MissingDirectory))
  {
    DiffOfSuffix("/fake/dir/custom.diff");
  }

  /** `padding(s, width)`: how many spaces pad `s` to `width` columns; none
      when `s` is already wider. */
  function Padding(s: string, width: int): (r: int)
    ensures r >= 0
    ensures |s| <= width ==> |s| + r == width
    ensures |s| > width ==> r == 0
  {
    var l := |s|;
    if l > width then 0 else width - l
  }

  /** The command's test table for `padding`. */
  lemma PaddingExamples()
    ensures Padding("hello", 10) == 5
    ensures Padding("0123456789", 10) == 0
    ensures Padding("this is a very long string", 10) == 0
    ensures Padding("", 10) == 10
    ensures Padding("hello", 0) == 0
  {
  }

  /** An opaque handle on a loaded package (`*decorator.Package`). */
  datatype Package = Package(id: nat)

  /** The fields of the Bubble Tea model that `Update` reads and writes; the
      spinner, the progress bar and the message channel are left out. */
  datatype ProgressModel = ProgressModel(
    stepDesc: string,
    totalSteps: int,
    currentStep: int,
    done: bool,
    err: Option<string>,
    packages: seq<Package>,
    pkgPath: string,
    outputFile: string)

  /** The messages `Update` distinguishes. `ErrorMsg` is any message that is
      an error value: `errMsg` is an interface type, so its case matches
      every error. */
  datatype Msg =
    | KeyMsg(ctrlC: bool)
    | SpinnerTick
    | ProgressFrame
    | PkgLoaded(pkgs: seq<Package>)
    | Progress(desc: string)
    | ErrorMsg(e: string)
    | Completed
    | OtherMsg

  /** The command `Update` returns: `tea.Quit`, a read of the next pipeline
      message (`waitForNext`, batched with the progress bar's animation
      after a step), the spinner's or the bar's own animation command, or
      nil. */
  datatype Cmd = Quit | WaitForNext | Animate | NoCmd

  /** `initialModel(pkgPath, outputFile)`. */
  function InitialModel(pkgPath: string, outputFile: string): ProgressModel
  {
    ProgressModel("Loading packages...", 8, 0, false, None, [], pkgPath, outputFile)
  }

  /** `model.Update`: the new model and the command to run. */
  function Update(m: ProgressModel, msg: Msg): (ProgressModel, Cmd)
  {
    match msg
    case KeyMsg(ctrlC) => (m, if ctrlC then Quit else NoCmd)
    case SpinnerTick => (m, Animate)
    case ProgressFrame => (m, Animate)
    case PkgLoaded(pkgs) => (m.(packages := pkgs, stepDesc := "Starting instrumentation..."), WaitForNext)
    case Progress(desc) => (m.(currentStep := m.currentStep + 1, stepDesc := desc), WaitForNext)
    case ErrorMsg(e) => (m.(err := Some(e)), Quit)
    case Completed => (m.(done := true), Quit)
    case OtherMsg => (m, NoCmd)
  }

  /** The program quits exactly on Ctrl+C, on an error and on completion;
      it waits for the next pipeline message exactly after a package load
      or a step; it runs an animation exactly on the spinner's and the
      bar's own ticks; every other message gives no command. */
  lemma QuitsExactly(m: ProgressModel, msg: Msg)
    ensures Update(m, msg).1 == Quit <==> (msg.KeyMsg? && msg.ctrlC) || msg.ErrorMsg? || msg.Completed?
    ensures Update(m, msg).1 == WaitForNext <==> msg.PkgLoaded? || msg.Progress?
    ensures Update(m, msg).1 == Animate <==> msg.SpinnerTick? || msg.ProgressFrame?
    ensures Update(m, msg).1 == NoCmd <==> (msg.KeyMsg? && !msg.ctrlC) || msg.OtherMsg?
  {
  }

  /** Each message changes only the fields its case names: the step counter
      moves only on `Progress`, and then by one; the description changes
      only on `Progress` and `PkgLoaded`; `done`, `err` and `packages`
      change only on their own message; the total, the package path and the
      output file never change. */
  lemma UpdateFrame(m: ProgressModel, msg: Msg)
    ensures var m' := Update(m, msg).0;
      && m'.totalSteps == m.totalSteps && m'.pkgPath == m.pkgPath && m'.outputFile == m.outputFile
      && m'.currentStep == (if msg.Progress? then m.currentStep + 1 else m.currentStep)
      && (msg.Progress? ==> m'.stepDesc == msg.desc)
      && (msg.PkgLoaded? ==> m'.stepDesc == "Starting instrumentation..." && m'.packages == msg.pkgs)
      && (!msg.Progress? && !msg.PkgLoaded? ==> m'.stepDesc == m.stepDesc)
      && (!msg.PkgLoaded? ==> m'.packages == m.packages)
      && m'.done == (m.done || msg.Completed?)
      && m'.err == (if msg.ErrorMsg? then Some(msg.e) else m.err)
  {
  }

  /** `Update` applied to each message in turn. */
  function UpdateAll(m: ProgressModel, msgs: seq<Msg>): ProgressModel
    decreases |msgs|
  {
    if msgs == [] then m else UpdateAll(Update(m, msgs[0]).0, msgs[1..])
  }

  /** How many of `msgs` are step messages. */
  function ProgressCount(msgs: seq<Msg>): nat
  {
    if msgs == [] then 0 else (if msgs[0].Progress? then 1 else 0) + ProgressCount(msgs[1..])
  }

  /** Over any run, the step counter grows by the number of step messages,
      the model is done exactly when it was already or a completion arrived,
      and the fixed fields stay fixed. */
  lemma {:induction false} UpdateAllCounts(m: ProgressModel, msgs: seq<Msg>)
    ensures var m' := UpdateAll(m, msgs);
      && m'.currentStep == m.currentStep + ProgressCount(msgs)
      && (m'.done <==> m.done || Completed in msgs)
      && m'.totalSteps == m.totalSteps && m'.pkgPath == m.pkgPath && m'.outputFile == m.outputFile
    decreases |msgs|
  {
    if msgs != [] {
      UpdateFrame(m, msgs[0]);
      UpdateAllCounts(Update(m, msgs[0]).0, msgs[1..]);
      assert msgs == [msgs[0]] + msgs[1..];
    }
  }

  /** Starting from the initial model, the step counter is the number of
      steps reported so far. */
  lemma StepsFromInitial(pkgPath: string, outputFile: string, msgs: seq<Msg>)
    ensures UpdateAll(InitialModel(pkgPath, outputFile), msgs).currentStep == ProgressCount(msgs)
    ensures UpdateAll(InitialModel(pkgPath, outputFile), msgs).totalSteps == 8
  {
    UpdateAllCounts(InitialModel(pkgPath, outputFile), msgs);
  }

  /** The command's tests of the model: the initial fields, and the effect
      of Ctrl+C, a step, an error, completion and a package load on the
      initial model. */
  lemma ModelExamples()
    ensures var m := InitialModel("/test/path", "output.diff");
      && m.pkgPath == "/test/path" && m.outputFile == "output.diff"
      && m.stepDesc == "Loading packages..." && m.totalSteps == 8 && m.currentStep == 0
      && !m.done && m.err == None
      && Update(m, KeyMsg(true)) == (m, Quit)
      && Update(m, Progress("Scanning application")).0.stepDesc == "Scanning application"
      && Update(m, Progress("Scanning application")).0.currentStep == 1
      && Update(m, ErrorMsg("permission denied")).0.err.Some?
      && Update(m, ErrorMsg("permission denied")).1 == Quit
      && Update(m, Completed).0.done && Update(m, Completed).1 == Quit
      && Update(m, PkgLoaded([])).0.stepDesc == "Starting instrumentation..."
      && Update(m, PkgLoaded([])).0.currentStep == 0
  {
  }
}
