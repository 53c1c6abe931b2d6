/**
 * The `run` command's dispatch: which input file is run, when the command
 * refuses to start, whether the script goes to a pod or to a local child
 * process, and which exit code or error ends the command. The pod run and
 * the child process are parameters: `inPod` is what the remote run returns
 * for a request, `child` the return code of a local command.
 */
module Cli {
  import opened Wrappers
  import opened Strings
  import opened ExecMap
  import opened K8s

  /** How the command ends. */
  datatype Ending =
    | UsageError(message: string)   // `click.UsageError`
    | ClickError(message: string)   // `click.ClickException`
    | Exit(code: int)               // `SystemExit(code)`
    | Raised(error: RunError)       // an exception of the remote run, not converted

  /** What the pod branch hands to the remote run. */
  datatype Request = Request(
    context: Option<string>,
    namespace: string,
    pod: string,
    file: string,
    container: Option<string>,
    artifactDir: string)

  const UsageMessage := "At least one of --script-file or --query-file is required."

  /** Python truthiness of an optional string: present and not empty. */
  predicate Given(o: Option<string>) {
    o.Some? && o.value != ""
  }

  /** `script_file or query_file`: the script when it is given, else the query. */
  function FileToRun(scriptFile: Option<string>, queryFile: Option<string>): (f: string)
    requires Given(scriptFile) || Given(queryFile)
    ensures Given(scriptFile) ==> f == scriptFile.value
    ensures !Given(scriptFile) ==> f == queryFile.value
    ensures f != ""
  {
    if Given(scriptFile) then scriptFile.value else queryFile.value
  }

  /** `artifact_dir or "."`. */
  function ArtifactDirOf(artifactDir: Option<string>): (d: string)
    ensures Given(artifactDir) ==> d == artifactDir.value
    ensures !Given(artifactDir) ==> d == "."
  {
    if Given(artifactDir) then artifactDir.value else "."
  }

  /** The `run` command. */
  function Run(
    scriptFile: Option<string>, queryFile: Option<string>, pod: Option<string>,
    namespace: string, container: Option<string>, artifactDir: Option<string>,
    context: Option<string>,
    inPod: Request -> Result<int, RunError>, child: seq<string> -> int): (r: Ending)
    ensures r.UsageError? <==> !Given(scriptFile) && !Given(queryFile)
    ensures r.UsageError? ==> r.message == UsageMessage
    ensures Given(pod) && (Given(scriptFile) || Given(queryFile)) ==>
      var request := Request(context, namespace, pod.value, FileToRun(scriptFile, queryFile), container, ArtifactDirOf(artifactDir));
      && (r.Exit? <==> inPod(request).Success?)
      && (r.Exit? ==> r.code == inPod(request).value)
      && (r.Raised? <==> inPod(request).Failure?)
      && (r.Raised? ==> r.error == inPod(request).error)
    ensures !Given(pod) && (Given(scriptFile) || Given(queryFile)) ==>
      var cmd := CommandForFile(FileToRun(scriptFile, queryFile));
      && (r.ClickError? <==> cmd.Failure?)
      && (r.ClickError? ==> r.message == cmd.error.message)
      && (r.Exit? <==> cmd.Success?)
      && (r.Exit? ==> r.code == child(cmd.value))
  {
    if !Given(scriptFile) && !Given(queryFile) then
      UsageError(UsageMessage)
    else
      var file := FileToRun(scriptFile, queryFile);
      if Given(pod) then
        var request := Request(context, namespace, pod.value, file, container, ArtifactDirOf(artifactDir));
        match inPod(request)
        case Success(code) => Exit(code)
        case Failure(e) => Raised(e)
      else
        match CommandForFile(file)
        case Failure(e) => ClickError(e.message)
        case Success(cmd) => Exit(child(cmd))
  }

  // ---------------------------------------------------------------------------
  // Properties
  // ---------------------------------------------------------------------------

  /**
   * Without an input file the command stops with the usage error before the
   * pod, the context or the interpreter table are consulted: the outcome is
   * the same whatever the other options and collaborators are.
   */
  lemma UsageErrorFirst(
    pod: Option<string>, namespace: string, container: Option<string>,
    artifactDir: Option<string>, context: Option<string>,
    inPod: Request -> Result<int, RunError>, child: seq<string> -> int,
    scriptFile: Option<string>, queryFile: Option<string>)
    requires !Given(scriptFile) && !Given(queryFile)
    ensures Run(scriptFile, queryFile, pod, namespace, container, artifactDir, context, inPod, child)
      == Run(None, None, None, "default", None, None, None, inPod, child)
      == UsageError(UsageMessage)
  {
  }

  /** When both inputs are given, the query file plays no part. */
  lemma ScriptWins(
    script: string, query1: Option<string>, query2: Option<string>, pod: Option<string>,
    namespace: string, container: Option<string>, artifactDir: Option<string>,
    context: Option<string>, inPod: Request -> Result<int, RunError>, child: seq<string> -> int)
    requires script != ""
    ensures Run(Some(script), query1, pod, namespace, container, artifactDir, context, inPod, child)
      == Run(Some(script), query2, pod, namespace, container, artifactDir, context, inPod, child)
  {
    assert FileToRun(Some(script), query1) == FileToRun(Some(script), query2) == script;
  }

  /**
   * In pod mode the interpreter table is not consulted before the remote
   * run: an unsupported file reaches the pod (which uploads it to
   * `/tmp/<name>` and only then refuses it, naming that staged path) and the
   * refusal escapes as it is, not as a click error; run locally, the same
   * file gives a click error naming the file as given.
   */
  lemma UnsupportedInBothModes(
    file: string, podName: string, namespace: string, container: Option<string>,
    artifactDir: Option<string>, context: Option<string>,
    inPod: Request -> Result<int, RunError>, child: seq<string> -> int)
    requires file != "" && podName != ""
    requires CommandForFile(file).Failure?
    requires inPod(Request(context, namespace, podName, file, container, ArtifactDirOf(artifactDir)))
      == Failure(Unsupported(CommandForFile(Stage(file)).error))
    ensures Run(Some(file), None, Some(podName), namespace, container, artifactDir, context, inPod, child)
      == Raised(Unsupported(UnsupportedScriptError(UnsupportedMessage(Stage(file)))))
    ensures Run(Some(file), None, None, namespace, container, artifactDir, context, inPod, child)
      == ClickError(UnsupportedMessage(file))
  {
    assert FileToRun(Some(file), None) == file;
  }

  /** A `.txt` query run locally is refused with a click error naming the file. */
  lemma TextQueryRefusedLocally(
    stem: string, namespace: string, container: Option<string>,
    artifactDir: Option<string>, context: Option<string>,
    inPod: Request -> Result<int, RunError>, child: seq<string> -> int)
    requires Name(stem) != ""
    ensures Run(None, Some(stem + ".txt"), None, namespace, container, artifactDir, context, inPod, child)
      == ClickError(UnsupportedMessage(stem + ".txt"))
  {
    TextNotInTable();
    UnsupportedExtension(stem, ".txt");
    assert FileToRun(None, Some(stem + ".txt")) == stem + ".txt";
  }

  /** Run locally, a supported script exits with its interpreter's return code. */
  lemma LocalExitIsChildCode(
    stem: string, ext: string, namespace: string, container: Option<string>,
    artifactDir: Option<string>, context: Option<string>,
    inPod: Request -> Result<int, RunError>, child: seq<string> -> int)
    requires Name(stem) != "" && ext in CommandMap
    ensures Run(Some(stem + ext), None, None, namespace, container, artifactDir, context, inPod, child)
      == Exit(child(CommandMap[ext] + [stem + ext]))
  {
    SupportedExtensions(stem, ext);
    KeyIsExtension(ext);
    assert FileToRun(Some(stem + ext), None) == stem + ext;
  }

  /** In pod mode the artifacts land in the current directory unless a directory is named. */
  lemma PodDefaultDirectory(
    file: string, podName: string, namespace: string, container: Option<string>,
    context: Option<string>, inPod: Request -> Result<int, RunError>, child: seq<string> -> int, code: int)
    requires file != "" && podName != ""
    requires inPod(Request(context, namespace, podName, file, container, ".")) == Success(code)
    ensures Run(Some(file), None, Some(podName), namespace, container, None, context, inPod, child) == Exit(code)
    ensures Run(Some(file), None, Some(podName), namespace, container, Some(""), context, inPod, child) == Exit(code)
  {
  }
}
