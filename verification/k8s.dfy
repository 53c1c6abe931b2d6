/**
 * The remote run: staging a script in a pod over the exec channel, running
 * it so that its exit status is always recorded, and pulling the log, the
 * status file and every listed artifact back into a local directory.
 *
 * A `Session` stands for one Kubernetes API connection to one container. Its
 * `remote` and `local` maps are the pod's and this machine's files, and
 * `trace` is the sequence of exec calls issued so far. Which calls fail, and
 * with what exception text, is fixed in advance by `faults`, keyed by the
 * call's position in the trace.
 */
module K8s {
  import opened Wrappers
  import opened Strings
  import opened Base64
  import opened ExecMap
  import opened RemotePod

  /** The exceptions a run can end with. */
  datatype RunError =
    | Timeout(message: string)                 // `RunnerTimeoutError`
    | ApiError(message: string)                // any other channel exception, re-raised as it is
    | FileMissing(path: string)                // the local script cannot be read
    | BadEncoding(reason: DecodeError)         // `b64decode` refused what the pod printed
    | Unsupported(error: UnsupportedScriptError)

  // ---------------------------------------------------------------------------
  // Timeout classification
  // ---------------------------------------------------------------------------

  /** The words whose presence, in any letter case, marks an exception as a timeout. */
  const TimedOut := "timed out"

  /** The `except` branch around every channel call. */
  function Classify(text: string): (e: RunError)
    ensures e == Timeout(text) || e == ApiError(text)
    ensures e.Timeout? <==> Contains(Lower(text), TimedOut)
  {
    if Contains(Lower(text), TimedOut) then Timeout(text) else ApiError(text)
  }

  /** The words "timed out", in any letter case and anywhere in the text, make it a timeout. */
  lemma TimedOutAnywhere(before: string, words: string, after: string)
    requires Lower(words) == TimedOut
    ensures Classify(before + words + after) == Timeout(before + words + after)
  {
    LowerAppend(before + words, after);
    LowerAppend(before, words);
    ContainsAppended(Lower(before), TimedOut, Lower(after));
  }

  /** Classification ignores letter case. */
  lemma ClassifyIgnoresCase(text: string)
    ensures Classify(Lower(text)).Timeout? == Classify(text).Timeout?
  {
    LowerTwice(text);
  }

  // ---------------------------------------------------------------------------
  // Paths
  // ---------------------------------------------------------------------------

  /** Where the script is staged in the pod. */
  function Stage(localPath: string): (p: string)
    ensures Name(p) == Name(localPath)
    ensures Suffix(p) == Suffix(localPath)
  {
    SuffixOfStaged("/tmp/", localPath);
    "/tmp/" + Name(localPath)
  }

  /** The log the run writes: the MongoDB log for `.mongo` and `.js`, the script log otherwise. */
  function LogPath(localPath: string): (log: string)
    ensures log == ScriptLog || log == MongoLog
    ensures Relative(Name(log)) && Name(log) != "status"
  {
    LogNames();
    if Lower(Suffix(localPath)) in {".mongo", ".js"} then MongoLog else ScriptLog
  }

  /** The two logs' file names, which is what their local copies are called. */
  lemma LogNames()
    ensures Name(ScriptLog) == "out_script.log"
    ensures Name(MongoLog) == "out_mongo.log"
  {
    assert Name("/tmp/") == "";
    assert ScriptLog == "/tmp/" + "out_script.log";
    assert MongoLog == "/tmp/" + "out_mongo.log";
    NameAppend("/tmp/", "out_script.log");
    NameAppend("/tmp/", "out_mongo.log");
  }

  /** The log is the MongoDB one exactly when the staged script runs under `mongosh`. */
  lemma LogFollowsInterpreter(localPath: string)
    ensures LogPath(localPath) == MongoLog <==>
      CommandForFile(Stage(localPath)).Success? && CommandForFile(Stage(localPath)).value[0] == "mongosh"
    ensures LogPath(localPath) == ScriptLog || LogPath(localPath) == MongoLog
  {
    var ext := Lower(Suffix(localPath));
    var r := CommandForFile(Stage(localPath));
    if ext in CommandMap {
      MongoEntries(ext);
      assert r.value[..|CommandMap[ext]|] == CommandMap[ext];
      assert r.value[0] == CommandMap[ext][0];
    } else {
      assert ext !in {".mongo", ".js"};
    }
    assert MongoLog != ScriptLog by {
      assert |MongoLog| == 18 && |ScriptLog| == 19;
    }
  }

  /** `Path(dir) / name` for a directory and a name in the normal form `pathlib` prints. */
  function Join(dir: string, name: string): (path: string)
    ensures Relative(name) ==> |name| <= |path| && path[|path| - |name|..] == name
    ensures Relative(name) && '/' !in name ==> Name(path) == name
    ensures |name| > 0 && name[0] == '/' ==> path == name
  {
    if |name| > 0 && name[0] == '/' then name
    else if name == "" then dir
    else if dir == "." || dir == "" then
      NameAfterSlash("", name);
      assert "" + name == name;
      name
    else if dir[|dir| - 1] == '/' then
      NameAfterSlash(dir, name);
      dir + name
    else
      NameAfterSlash(dir + "/", name);
      dir + "/" + name
  }

  /** A name without `/` is the last component of a path ending in `/` followed by it. */
  lemma NameAfterSlash(prefix: string, name: string)
    requires prefix == [] || prefix[|prefix| - 1] == '/'
    ensures '/' !in name ==> Name(prefix + name) == name
  {
    if '/' !in name {
      NameAppend(prefix, name);
    }
  }

  /** A name without a leading `/`, which `Join` places inside the directory. */
  predicate Relative(name: string) {
    |name| > 0 && name[0] != '/'
  }

  /** Distinct relative names land in distinct local files. */
  lemma JoinDistinct(dir: string, a: string, b: string)
    requires Relative(a) && Relative(b) && a != b
    ensures Join(dir, a) != Join(dir, b)
  {
    if dir != "." && dir != "" {
      var p := if dir[|dir| - 1] == '/' then dir else dir + "/";
      assert Join(dir, a) == p + a && Join(dir, b) == p + b;
      assert (p + a)[|p|..] == a && (p + b)[|p|..] == b;
    }
  }

  // ---------------------------------------------------------------------------
  // The status file
  // ---------------------------------------------------------------------------

  /** `int(text.strip())`, or 1 when that raises `ValueError`. */
  function ParseStatus(text: string): (status: int)
    ensures ParseInt(Strip(text)).Some? ==> status == ParseInt(Strip(text)).value
    ensures ParseInt(Strip(text)).None? ==> status == 1
    ensures status != 1 ==> exists c :: c in text && IsDigit(c)
  {
    var t := Strip(text);
    assert ParseInt(t).Some? ==> t[|t| - 1] in text;
    match ParseInt(t)
    case Some(n) => n
    case None => 1
  }

  /** The status file `echo $?` wrote reads back as that status. */
  lemma StatusOfEcho(status: byte)
    ensures ParseStatus(BytesText(EchoBytes(status))) == status as int
  {
    StripDecimalLine(status as nat);
    ParseDecimal(status as nat);
  }

  // ---------------------------------------------------------------------------
  // The exec calls a run issues
  // ---------------------------------------------------------------------------

  datatype Op = Exec(argv: seq<string>) | ExecWithStdin(argv: seq<string>, input: string)
  {
    /** What the pod reads on stdin: nothing for a call without one. */
    function Stdin(): string {
      if Exec? then "" else input
    }
  }

  function UploadOp(dest: string, data: Bytes): Op {
    ExecWithStdin(Sh(UploadLine(dest)), Encode(data))
  }

  function DownloadOp(src: string): Op {
    Exec(Sh(DownloadLine(src)))
  }

  function ScriptOp(cmd: seq<string>, log: string): Op {
    Exec(Sh(ScriptLine(cmd, log)))
  }

  const ListingOp := Exec(Sh(ListingLine))

  /** One download per name, in the order of the names. */
  function ArtifactDownloads(names: seq<string>): (ops: seq<Op>)
    ensures |ops| == |names|
    ensures forall k :: 0 <= k < |names| ==> ops[k] == DownloadOp(ArtifactsDir + names[k])
    decreases |names|
  {
    if names == [] then []
    else ArtifactDownloads(names[..|names| - 1]) + [DownloadOp(ArtifactsDir + names[|names| - 1])]
  }

  /** The calls that copy the results back, given what the listing printed. */
  function FetchOps(log: string, listing: string): seq<Op> {
    [DownloadOp(log), DownloadOp(StatusPath), ListingOp] + ArtifactDownloads(NonEmpty(SplitLines(listing)))
  }

  lemma FetchedInOrder(t0: seq<Op>, t1: seq<Op>, t2: seq<Op>, t3: seq<Op>, t4: seq<Op>, log: string, listing: string)
    requires t1 == t0 + [DownloadOp(log)]
    requires t2 == t1 + [DownloadOp(StatusPath)]
    requires t3 == t2 + [ListingOp]
    requires t4 == t3 + ArtifactDownloads(NonEmpty(SplitLines(listing)))
    ensures t4 == t0 + FetchOps(log, listing)
  {
    var calls := [DownloadOp(log), DownloadOp(StatusPath), ListingOp];
    assert t3 == t0 + calls;
    AppendAssoc(t0, calls, ArtifactDownloads(NonEmpty(SplitLines(listing))));
  }

  /** The calls of a complete run, given what the listing printed. */
  function PlannedOps(localPath: string, data: Bytes, listing: string): seq<Op>
    requires CommandForFile(Stage(localPath)).Success?
  {
    var stage := Stage(localPath);
    var log := LogPath(localPath);
    [UploadOp(stage, data), ScriptOp(CommandForFile(stage).value, log)] + FetchOps(log, listing)
  }

  /** A run's calls are its first two followed by those that copy the results back. */
  lemma PlannedInOrder(t0: seq<Op>, t1: seq<Op>, t2: seq<Op>, localPath: string, data: Bytes, listing: string)
    requires CommandForFile(Stage(localPath)).Success?
    requires t1 == t0 + [UploadOp(Stage(localPath), data), ScriptOp(CommandForFile(Stage(localPath)).value, LogPath(localPath))]
    requires t2 == t1 + FetchOps(LogPath(localPath), listing)
    ensures t2 == t0 + PlannedOps(localPath, data, listing)
  {
  }

  /** The replies to the log download, the status download and the listing, each call seeing the files the previous one left. */
  datatype Fetched = Fetched(log: Reply, status: Reply, listing: Reply)

  ghost function FetchReplies(pod: Pod, fs: Fs, log: string): Fetched {
    var logged := pod.shell(fs, Sh(DownloadLine(log)), "");
    var status := pod.shell(logged.fs, Sh(DownloadLine(StatusPath)), "");
    Fetched(logged, status, pod.shell(status.fs, Sh(ListingLine), ""))
  }

  /** Every download of the fetch, from `fs` on, prints text `b64decode` accepts. */
  ghost predicate FetchDecodes(pod: Pod, fs: Fs, log: string) {
    var f := FetchReplies(pod, fs, log);
    && Decode(f.log.output).Success? && Decode(f.status.output).Success?
    && AllDecode(Pulled(pod, f.listing.fs, NonEmpty(SplitLines(f.listing.output))))
  }

  /** The replies to the upload, the run and the three calls after it. */
  datatype Exchange = Exchange(upload: Reply, run: Reply, fetched: Fetched)

  ghost function Replies(pod: Pod, fs: Fs, localPath: string, data: Bytes): Exchange
    requires CommandForFile(Stage(localPath)).Success?
  {
    var stage := Stage(localPath);
    var log := LogPath(localPath);
    var up := pod.shell(fs, Sh(UploadLine(stage)), Encode(data));
    var ran := pod.shell(up.fs, Sh(ScriptLine(CommandForFile(stage).value, log)), "");
    Exchange(up, ran, FetchReplies(pod, ran.fs, log))
  }

  /**
   * Against a pod whose shell does what the lines say, the copied log is what
   * the script printed, the copied status file holds what `echo $?` wrote,
   * and the listing is taken of the files the run left.
   */
  lemma HonestFetch(pod: Pod, run: Execution, log: string)
    requires Honest(pod)
    requires log == ScriptLog || log == MongoLog
    ensures
      var after := AfterScript(run, log);
      var f := FetchReplies(pod, after, log);
      && f.log == Reply(after, Wrap(Encode(run.output)))
      && Decode(f.log.output) == Success(run.output)
      && f.status == Reply(after, Wrap(Encode(EchoBytes(run.status))))
      && Decode(f.status.output) == Success(EchoBytes(run.status))
      && f.listing == Reply(after, pod.listing(after))
  {
    PlainPaths();
    assert log != StatusPath by {
      assert log[5] != StatusPath[5];
    }
    DecodeWrappedEncode(run.output);
    DecodeWrappedEncode(EchoBytes(run.status));
  }

  /**
   * Against a pod whose shell does what the four lines say, the staged script
   * runs on the uploaded bytes, the copied log is what it printed, the copied
   * status file reads back as its exit status, and the listing is taken
   * after the run.
   */
  lemma HonestReplies(pod: Pod, fs: Fs, localPath: string, data: Bytes)
    requires Honest(pod)
    requires CommandForFile(Stage(localPath)).Success? && Plain(Stage(localPath))
    ensures
      var stage := Stage(localPath);
      var run := pod.interpret(fs[stage := data], JoinSpace(CommandForFile(stage).value));
      var after := AfterScript(run, LogPath(localPath));
      var t := Replies(pod, fs, localPath, data);
      && t.upload == Reply(fs[stage := data], "")
      && t.run == Reply(after, "")
      && t.fetched.log.fs == after && Decode(t.fetched.log.output) == Success(run.output)
      && t.fetched.status.fs == after && Decode(t.fetched.status.output) == Success(EchoBytes(run.status))
      && ParseStatus(BytesText(Decode(t.fetched.status.output).value)) == run.status as int
      && t.fetched.listing == Reply(after, pod.listing(after))
  {
    var stage := Stage(localPath);
    var cmd := CommandForFile(stage).value;
    var log := LogPath(localPath);
    var run := pod.interpret(fs[stage := data], JoinSpace(cmd));
    InterpreterLaunches(cmd);
    PlainCommand(stage);
    LogFollowsInterpreter(localPath);
    HonestFetch(pod, run, log);
    StatusOfEcho(run.status);
  }

  /** No name is copied onto `target`. */
  predicate Apart(dir: string, names: seq<string>, target: string) {
    forall k :: 0 <= k < |names| ==> Join(dir, names[k]) != target
  }

  lemma AppendAssoc(a: seq<Op>, b: seq<Op>, c: seq<Op>)
    ensures a + b + c == a + (b + c)
  {
  }

  lemma Extended(a: seq<Op>, b: seq<Op>, c: seq<Op>)
    requires a <= b && b <= c
    ensures a <= c
  {
    assert c[..|a|] == b[..|a|];
  }

  lemma NonEmptyStep(lines: seq<string>, i: nat)
    requires i < |lines|
    ensures NonEmpty(lines[..i + 1]) == NonEmpty(lines[..i]) + (if lines[i] == "" then [] else [lines[i]])
  {
    assert lines[..i + 1][..i] == lines[..i];
  }

  /** The non-empty lines up to and including the `i`-th come first among all of them. */
  lemma PendingDownloads(lines: seq<string>, i: nat, done: seq<string>)
    requires i < |lines| && done == NonEmpty(lines[..i + 1])
    ensures NonEmpty(lines) == done + NonEmpty(lines[i + 1..])
  {
    assert lines == lines[..i + 1] + lines[i + 1..];
    NonEmptyConcat(lines[..i + 1], lines[i + 1..]);
  }

  /** The download of the `i`-th line is the one after those of the non-empty lines before it. */
  lemma FailedDownload(pod: Pod, fs: Fs, lines: seq<string>, i: nat, done: seq<string>, line: string)
    requires i < |lines| && line == lines[i] && line != "" && done == NonEmpty(lines[..i])
    ensures NonEmpty(lines[..i + 1]) == done + [line]
    ensures |done| < |NonEmpty(lines)|
    ensures Pulled(pod, fs, NonEmpty(lines))[|done|]
      == pod.shell(FsAfter(fs, Pulled(pod, fs, done)), Sh(DownloadLine(ArtifactsDir + line)), "")
    ensures AllDecode(Pulled(pod, fs, NonEmpty(lines))) ==>
      Decode(pod.shell(FsAfter(fs, Pulled(pod, fs, done)), Sh(DownloadLine(ArtifactsDir + line)), "").output).Success?
  {
    NonEmptyStep(lines, i);
    var rest := NonEmpty(lines[i + 1..]);
    var reply := pod.shell(FsAfter(fs, Pulled(pod, fs, done)), Sh(DownloadLine(ArtifactsDir + line)), "");
    PendingDownloads(lines, i, done + [line]);
    calc {
      Pulled(pod, fs, NonEmpty(lines))[|done|];
    == { PulledPrefix(pod, fs, done + [line], rest); }
      Pulled(pod, fs, done + [line])[|done|];
    == { PulledStep(pod, fs, done, line); }
      (Pulled(pod, fs, done) + [reply])[|done|];
    ==
      reply;
    }
  }

  lemma DownloadsStep(names: seq<string>, name: string)
    ensures ArtifactDownloads(names + [name]) == ArtifactDownloads(names) + [DownloadOp(ArtifactsDir + name)]
  {
    assert (names + [name])[..|names|] == names;
  }

  /**
   * Every file of `before` is still in `after`, and those no name is copied
   * onto still hold what they held.
   */
  predicate Untouched(before: map<string, Bytes>, after: map<string, Bytes>, dir: string, names: seq<string>) {
    && (forall key :: key in before ==> key in after)
    && (forall key :: key in before && Apart(dir, names, key) ==> after[key] == before[key])
  }

  lemma UntouchedStep(before: map<string, Bytes>, mid: map<string, Bytes>, dir: string, names: seq<string>, name: string, data: Bytes)
    requires Untouched(before, mid, dir, names)
    ensures Untouched(before, mid[Join(dir, name) := data], dir, names + [name])
  {
    forall key | key in before && Apart(dir, names + [name], key)
      ensures Apart(dir, names, key) && Join(dir, name) != key
    {
      assert forall k :: 0 <= k < |names| ==> (names + [name])[k] == names[k];
      assert (names + [name])[|names|] == name;
    }
  }

  /**
   * The pod's replies to the downloads of `names` from the artifacts
   * directory, in order, each call seeing the files the previous one left.
   */
  ghost function Pulled(pod: Pod, fs: Fs, names: seq<string>): (replies: seq<Reply>)
    ensures |replies| == |names|
    decreases |names|
  {
    if names == [] then []
    else
      var before := Pulled(pod, fs, names[..|names| - 1]);
      before + [pod.shell(FsAfter(fs, before), Sh(DownloadLine(ArtifactsDir + names[|names| - 1])), "")]
  }

  /** The pod's files after a sequence of replies, starting from `fs`. */
  function FsAfter(fs: Fs, replies: seq<Reply>): Fs {
    if replies == [] then fs else replies[|replies| - 1].fs
  }

  /** Every reply is text `b64decode` accepts. */
  predicate AllDecode(replies: seq<Reply>) {
    forall k :: 0 <= k < |replies| ==> Decode(replies[k].output).Success?
  }

  /** The local files after the decoded replies are written, in order, to the names joined to `dir`. */
  function Landed(base: Fs, dir: string, names: seq<string>, replies: seq<Reply>): Fs
    requires |replies| == |names| && AllDecode(replies)
    decreases |names|
  {
    if names == [] then base
    else
      var n := |names| - 1;
      assert AllDecode(replies[..n]) by {
        forall k | 0 <= k < n ensures Decode(replies[..n][k].output).Success? {
          assert replies[..n][k] == replies[k];
        }
      }
      Landed(base, dir, names[..n], replies[..n])[Join(dir, names[n]) := Decode(replies[n].output).value]
  }

  lemma PulledStep(pod: Pod, fs: Fs, names: seq<string>, name: string)
    ensures Pulled(pod, fs, names + [name])
      == Pulled(pod, fs, names) + [pod.shell(FsAfter(fs, Pulled(pod, fs, names)), Sh(DownloadLine(ArtifactsDir + name)), "")]
  {
    assert (names + [name])[..|names|] == names;
  }

  /** The replies to a prefix of the names are a prefix of the replies. */
  lemma {:induction false} PulledPrefix(pod: Pod, fs: Fs, names: seq<string>, more: seq<string>)
    ensures Pulled(pod, fs, names + more)[..|names|] == Pulled(pod, fs, names)
    decreases |more|
  {
    if more == [] {
      assert names + more == names;
    } else {
      var init := more[..|more| - 1];
      assert names + more == (names + init) + [more[|more| - 1]];
      PulledStep(pod, fs, names + init, more[|more| - 1]);
      PulledPrefix(pod, fs, names, init);
    }
  }

  lemma LandedStep(base: Fs, dir: string, names: seq<string>, replies: seq<Reply>, name: string, reply: Reply)
    requires |replies| == |names| && AllDecode(replies) && Decode(reply.output).Success?
    ensures AllDecode(replies + [reply])
    ensures Landed(base, dir, names + [name], replies + [reply])
      == Landed(base, dir, names, replies)[Join(dir, name) := Decode(reply.output).value]
  {
    assert (names + [name])[..|names|] == names;
    assert (replies + [reply])[..|replies|] == replies;
  }

  /** One more artifact downloaded and written extends the replies, the local files and the trace by one. */
  lemma ArtifactStep(
    pod: Pod, fs0: Fs, local0: Fs, trace0: seq<Op>, dir: string, done: seq<string>, replies: seq<Reply>,
    line: string, reply: Reply, before: Fs, after: Fs, traceBefore: seq<Op>, traceAfter: seq<Op>)
    requires replies == Pulled(pod, fs0, done) && AllDecode(replies)
    requires reply == pod.shell(FsAfter(fs0, replies), Sh(DownloadLine(ArtifactsDir + line)), "")
    requires Decode(reply.output).Success?
    requires before == Landed(local0, dir, done, replies)
    requires after == before[Join(dir, line) := Decode(reply.output).value]
    requires traceBefore == trace0 + ArtifactDownloads(done)
    requires traceAfter == traceBefore + [DownloadOp(ArtifactsDir + line)]
    ensures replies + [reply] == Pulled(pod, fs0, done + [line]) && AllDecode(replies + [reply])
    ensures after == Landed(local0, dir, done + [line], replies + [reply])
    ensures traceAfter == trace0 + ArtifactDownloads(done + [line])
    ensures reply.fs == FsAfter(fs0, replies + [reply])
  {
    PulledStep(pod, fs0, done, line);
    LandedStep(local0, dir, done, replies, line, reply);
    DownloadsStep(done, line);
    AppendAssoc(trace0, ArtifactDownloads(done), [DownloadOp(ArtifactsDir + line)]);
  }

  /** Landing files keeps every file, and changes none that no name lands on. */
  lemma {:induction false} LandedUntouched(base: Fs, dir: string, names: seq<string>, replies: seq<Reply>)
    requires |replies| == |names| && AllDecode(replies)
    ensures Untouched(base, Landed(base, dir, names, replies), dir, names)
    decreases |names|
  {
    if names != [] {
      var n := |names| - 1;
      assert names[..n] + [names[n]] == names;
      LandedUntouched(base, dir, names[..n], replies[..n]);
      UntouchedStep(base, Landed(base, dir, names[..n], replies[..n]), dir, names[..n], names[n], Decode(replies[n].output).value);
    }
  }

  /** Each name's local file holds its decoded reply, unless a later name lands on it. */
  lemma {:induction false} LandedAt(base: Fs, dir: string, names: seq<string>, replies: seq<Reply>, k: nat)
    requires |replies| == |names| && AllDecode(replies)
    requires k < |names| && forall j :: k < j < |names| ==> Join(dir, names[j]) != Join(dir, names[k])
    ensures Join(dir, names[k]) in Landed(base, dir, names, replies)
    ensures Landed(base, dir, names, replies)[Join(dir, names[k])] == Decode(replies[k].output).value
    decreases |names|
  {
    var n := |names| - 1;
    var key := Join(dir, names[k]);
    var before := Landed(base, dir, names[..n], replies[..n]);
    assert Landed(base, dir, names, replies) == before[Join(dir, names[n]) := Decode(replies[n].output).value];
    if k < n {
      assert names[..n][k] == names[k] && replies[..n][k] == replies[k];
      assert forall j :: k < j < n ==> names[..n][j] == names[j];
      LandedAt(base, dir, names[..n], replies[..n], k);
      assert Join(dir, names[n]) != key;
    }
  }

  /** The local files once the log and then the status file have been copied into `dir`. */
  function WithLogAndStatus(base: Fs, dir: string, log: string, f: Fetched): Fs
    requires Decode(f.log.output).Success? && Decode(f.status.output).Success?
  {
    base[Join(dir, Name(log)) := Decode(f.log.output).value][Join(dir, "status") := Decode(f.status.output).value]
  }

  /**
   * After the artifacts land, the status copy holds the downloaded status
   * unless an artifact lands on it, and the log copy the downloaded log
   * unless an artifact or the status copy lands on it.
   */
  lemma FetchedCopies(base: Fs, dir: string, log: string, f: Fetched, names: seq<string>, replies: seq<Reply>)
    requires Decode(f.log.output).Success? && Decode(f.status.output).Success?
    requires |replies| == |names| && AllDecode(replies)
    ensures
      var local := Landed(WithLogAndStatus(base, dir, log, f), dir, names, replies);
      var logCopy, statusCopy := Join(dir, Name(log)), Join(dir, "status");
      && logCopy in local && statusCopy in local
      && (Apart(dir, names, statusCopy) ==> local[statusCopy] == Decode(f.status.output).value)
      && (Apart(dir, names, logCopy) && logCopy != statusCopy ==> local[logCopy] == Decode(f.log.output).value)
  {
    LandedUntouched(WithLogAndStatus(base, dir, log, f), dir, names, replies);
  }

  /**
   * Against an honest pod, downloading artifacts that exist changes no file
   * and every reply decodes to the artifact's bytes.
   */
  lemma {:induction false} HonestPulled(pod: Pod, fs: Fs, names: seq<string>)
    requires Honest(pod)
    requires forall k :: 0 <= k < |names| ==> Plain(ArtifactsDir + names[k]) && ArtifactsDir + names[k] in fs
    ensures FsAfter(fs, Pulled(pod, fs, names)) == fs
    ensures AllDecode(Pulled(pod, fs, names))
    ensures forall k :: 0 <= k < |names| ==> Decode(Pulled(pod, fs, names)[k].output) == Success(fs[ArtifactsDir + names[k]])
    decreases |names|
  {
    if names != [] {
      var n := |names| - 1;
      var init := names[..n];
      assert init + [names[n]] == names;
      assert forall k :: 0 <= k < n ==> init[k] == names[k];
      HonestPulled(pod, fs, init);
      var before := Pulled(pod, fs, init);
      var reply := HonestDownload(pod, fs, ArtifactsDir + names[n]);
      PulledStep(pod, fs, init, names[n]);
      var all := before + [reply];
      forall k | 0 <= k < |names|
        ensures Decode(all[k].output) == Success(fs[ArtifactsDir + names[k]])
      {
        if k < n {
          assert all[k] == before[k];
        }
      }
    }
  }

  /** Against an honest pod, downloading a file that exists changes nothing and decodes to its bytes. */
  lemma HonestDownload(pod: Pod, fs: Fs, src: string) returns (reply: Reply)
    requires Honest(pod) && Plain(src) && src in fs
    ensures reply == pod.shell(fs, Sh(DownloadLine(src)), "")
    ensures reply.fs == fs && Decode(reply.output) == Success(fs[src])
  {
    reply := pod.shell(fs, Sh(DownloadLine(src)), "");
    DecodeWrappedEncode(fs[src]);
  }

  /**
   * Against an honest pod, when every listed artifact exists under a plain
   * path, every download of the fetch decodes, so a run without exceptions
   * from the channel returns.
   */
  lemma HonestFetchDecodes(pod: Pod, run: Execution, log: string, names: seq<string>)
    requires Honest(pod)
    requires log == ScriptLog || log == MongoLog
    requires names == NonEmpty(SplitLines(pod.listing(AfterScript(run, log))))
    requires forall k :: 0 <= k < |names| ==> Plain(ArtifactsDir + names[k]) && ArtifactsDir + names[k] in AfterScript(run, log)
    ensures FetchDecodes(pod, AfterScript(run, log), log)
  {
    var after := AfterScript(run, log);
    HonestFetch(pod, run, log);
    var f := FetchReplies(pod, after, log);
    assert f.listing.fs == after && f.listing.output == pod.listing(after);
    HonestPulled(pod, after, names);
  }

  /**
   * Against an honest pod, each listed artifact's local copy holds the
   * artifact's bytes in the pod, unless a later name lands on the same file.
   */
  lemma HonestArtifactLands(pod: Pod, fs: Fs, base: Fs, dir: string, names: seq<string>, k: nat)
    requires Honest(pod)
    requires forall j :: 0 <= j < |names| ==> Plain(ArtifactsDir + names[j]) && ArtifactsDir + names[j] in fs
    requires k < |names| && forall j :: k < j < |names| ==> Join(dir, names[j]) != Join(dir, names[k])
    ensures AllDecode(Pulled(pod, fs, names))
    ensures var local := Landed(base, dir, names, Pulled(pod, fs, names));
      Join(dir, names[k]) in local && local[Join(dir, names[k])] == fs[ArtifactsDir + names[k]]
  {
    HonestPulled(pod, fs, names);
    LandedAt(base, dir, names, Pulled(pod, fs, names), k);
  }

  /** Names other than `status` never overwrite the copied status file. */
  lemma ApartFromStatus(dir: string, names: seq<string>)
    requires forall k :: 0 <= k < |names| ==> Relative(names[k]) && names[k] != "status"
    ensures Apart(dir, names, Join(dir, "status"))
  {
    forall k | 0 <= k < |names| ensures Join(dir, names[k]) != Join(dir, "status") {
      JoinDistinct(dir, names[k], "status");
    }
  }

  /** What `ls -1` prints is split back into the names it listed, in order. */
  lemma ListedNames(names: seq<string>)
    requires forall k :: 0 <= k < |names| ==> names[k] != "" && NoLineBreak(names[k])
    ensures NonEmpty(SplitLines(JoinLines(names))) == names
  {
    SplitJoinLines(names);
    NonEmptyKeeps(names);
  }

  lemma {:induction false} NonEmptyKeeps(names: seq<string>)
    requires forall k :: 0 <= k < |names| ==> names[k] != ""
    ensures NonEmpty(names) == names
    decreases |names|
  {
    if names != [] {
      NonEmptyKeeps(names[..|names| - 1]);
      assert names[..|names| - 1] + [names[|names| - 1]] == names;
    }
  }

  lemma PlainPaths()
    ensures Plain(StatusPath) && Plain(ScriptLog) && Plain(MongoLog)
  {
  }

  /** Every word of every command prefix in the table is a plain shell word. */
  lemma TableWordsPlain(ext: string)
    requires ext in CommandMap
    ensures PlainWords(CommandMap[ext])
  {
    assert CommandMap[ext] in {["python3"], ["/bin/sh"], ["go", "run"], ["mongosh"]};
    assert Plain("python3") && Plain("/bin/sh") && Plain("go") && Plain("run") && Plain("mongosh");
  }

  /** A plain path resolves to a command of plain words. */
  lemma PlainCommand(path: string)
    requires CommandForFile(path).Success? && Plain(path)
    ensures PlainWords(CommandForFile(path).value)
  {
    var cmd := CommandForFile(path).value;
    var prefix := CommandMap[Lower(Suffix(path))];
    TableWordsPlain(Lower(Suffix(path)));
    forall i | 0 <= i < |cmd| ensures Plain(cmd[i]) {
      if i < |prefix| {
        assert cmd[i] == cmd[..|prefix|][i] == prefix[i];
      }
    }
  }

  /** Every interpreter in the table starts with a character no transfer or listing line starts with. */
  lemma InterpreterLaunches(cmd: seq<string>)
    requires |cmd| > 0 && cmd[0] in Interpreters
    ensures Launcher(cmd)
  {
  }

  // ---------------------------------------------------------------------------
  // The session
  // ---------------------------------------------------------------------------

  class Session {
    const pod: Pod
    /** The exception text the n-th exec call raises instead of completing. */
    const faults: map<nat, string>
    var remote: Fs
    var local: Fs
    var trace: seq<Op>

    constructor (pod: Pod, faults: map<nat, string>, remote: Fs, local: Fs)
      ensures this.pod == pod && this.faults == faults
      ensures this.remote == remote && this.local == local && trace == []
    {
      this.pod := pod;
      this.faults := faults;
      this.remote := remote;
      this.local := local;
      trace := [];
    }

    /** No exec call from the `n`-th on raises. */
    predicate NoFaultsFrom(n: nat) {
      forall m :: m in faults ==> m < n
    }

    /** The exception the next exec call raises, if it raises one. */
    function NextFault(): Option<string>
      reads this
    {
      if |trace| in faults then Some(faults[|trace|]) else None
    }

    /** One `stream(...)` call: it raises the scheduled exception, or runs on the pod. */
    method Call(op: Op) returns (r: Result<string, string>)
      modifies this
      ensures trace == old(trace) + [op] && local == old(local)
      ensures old(NextFault()).Some? ==> r == Failure(old(NextFault()).value) && remote == old(remote)
      ensures old(NextFault()).None? ==>
        var reply := pod.shell(old(remote), op.argv, op.Stdin());
        r == Success(reply.output) && remote == reply.fs
    {
      var fault := NextFault();
      trace := trace + [op];
      if fault.Some? {
        r := Failure(fault.value);
      } else {
        var reply := pod.shell(remote, op.argv, op.Stdin());
        remote := reply.fs;
        r := Success(reply.output);
      }
    }

    /** `exec_in_pod`: run `argv` without stdin and return what it printed. */
    method ExecInPod(argv: seq<string>) returns (r: Result<string, RunError>)
      modifies this
      ensures trace == old(trace) + [Exec(argv)] && local == old(local)
      ensures old(NextFault()).Some? ==> r == Failure(Classify(old(NextFault()).value)) && remote == old(remote)
      ensures old(NextFault()).None? ==>
        var reply := pod.shell(old(remote), argv, "");
        r == Success(reply.output) && remote == reply.fs
    {
      var out := Call(Exec(argv));
      if out.Failure? {
        r := Failure(Classify(out.error));
      } else {
        r := Success(out.value);
      }
    }

    /** `copy_file_to_pod`: send the base64 of a local file to `base64 -d > dest`. */
    method CopyFileToPod(src: string, dest: string) returns (r: Outcome<RunError>)
      modifies this
      ensures local == old(local)
      ensures src !in old(local) ==>
        r == Fail(FileMissing(src)) && trace == old(trace) && remote == old(remote)
      ensures src in old(local) ==> trace == old(trace) + [UploadOp(dest, old(local)[src])]
      ensures src in old(local) && old(NextFault()).Some? ==>
        r == Fail(Classify(old(NextFault()).value)) && remote == old(remote)
      ensures src in old(local) && old(NextFault()).None? ==>
        r == Pass && remote == pod.shell(old(remote), Sh(UploadLine(dest)), Encode(old(local)[src])).fs
    {
      if src !in local {
        return Fail(FileMissing(src));
      }
      var data := local[src];
      var out := Call(UploadOp(dest, data));
      if out.Failure? {
        r := Fail(Classify(out.error));
      } else {
        r := Pass;
      }
    }

    /** `copy_from_pod`: decode what `base64 src` prints and write it to the local `dest`. */
    method CopyFromPod(src: string, dest: string) returns (r: Outcome<RunError>)
      modifies this
      ensures trace == old(trace) + [DownloadOp(src)]
      ensures old(NextFault()).Some? ==>
        r == Fail(Classify(old(NextFault()).value)) && remote == old(remote) && local == old(local)
      ensures old(NextFault()).None? ==>
        var reply := pod.shell(old(remote), Sh(DownloadLine(src)), "");
        && remote == reply.fs
        && match Decode(reply.output)
           case Success(data) => r == Pass && local == old(local)[dest := data]
           case Failure(e) => r == Fail(BadEncoding(e)) && local == old(local)
      ensures r.Pass? ==> dest in local && local == old(local)[dest := local[dest]]
      ensures r.Fail? ==> local == old(local)
    {
      var out := Call(DownloadOp(src));
      if out.Failure? {
        return Fail(Classify(out.error));
      }
      var decoded := Decode(out.value);
      if decoded.Failure? {
        return Fail(BadEncoding(decoded.error));
      }
      local := local[dest := decoded.value];
      r := Pass;
    }

    /** One iteration of that loop: copy the artifact `name` to the same name in `dir`. */
    method CopyArtifact(name: string, dir: string) returns (r: Outcome<RunError>)
      modifies this
      ensures trace == old(trace) + [DownloadOp(ArtifactsDir + name)]
      ensures
        var reply := pod.shell(old(remote), Sh(DownloadLine(ArtifactsDir + name)), "");
        && (r.Pass? <==> old(NextFault()).None? && Decode(reply.output).Success?)
        && (r.Pass? ==> remote == reply.fs && local == old(local)[Join(dir, name) := Decode(reply.output).value])
      ensures r.Fail? ==>
        var reply := pod.shell(old(remote), Sh(DownloadLine(ArtifactsDir + name)), "");
        && local == old(local)
        && if old(NextFault()).Some? then r == Fail(Classify(old(NextFault()).value)) && remote == old(remote)
           else r == Fail(BadEncoding(Decode(reply.output).error)) && remote == reply.fs
    {
      r := CopyFromPod(ArtifactsDir + name, Join(dir, name));
    }

    /**
     * The loop of `run_script_in_pod` over the listing's lines: each non-empty
     * line, in order, is downloaded from the artifacts directory to the
     * same name in `dir`; the first failure ends the loop.
     */
    method CopyArtifacts(lines: seq<string>, dir: string) returns (r: Outcome<RunError>)
      modifies this
      ensures old(trace) <= trace
      ensures forall key :: key in old(local) ==> key in local
      ensures r.Pass? ==>
        var replies := Pulled(pod, old(remote), NonEmpty(lines));
        && trace == old(trace) + ArtifactDownloads(NonEmpty(lines))
        && AllDecode(replies)
        && local == Landed(old(local), dir, NonEmpty(lines), replies)
        && remote == FsAfter(old(remote), replies)
      ensures r.Pass? ==> Untouched(old(local), local, dir, NonEmpty(lines))
      ensures NoFaultsFrom(|old(trace)|) && AllDecode(Pulled(pod, old(remote), NonEmpty(lines))) ==> r.Pass?
    {
      ghost var fs0, local0, trace0 := remote, local, trace;
      var i := 0;
      ghost var done: seq<string> := [];
      ghost var replies: seq<Reply> := [];
      while i < |lines|
        invariant 0 <= i <= |lines|
        invariant done == NonEmpty(lines[..i])
        invariant replies == Pulled(pod, fs0, done) && AllDecode(replies)
        invariant trace == trace0 + ArtifactDownloads(done)
        invariant local == Landed(local0, dir, done, replies)
        invariant remote == FsAfter(fs0, replies)
      {
        var line := lines[i];
        NonEmptyStep(lines, i);
        if line != "" {
          ghost var position, fs, before, traceBefore := |trace|, remote, local, trace;
          var got := CopyArtifact(line, dir);
          if got.Fail? {
            assert trace0 <= trace by {
              assert traceBefore <= trace;
              Extended(trace0, traceBefore, trace);
            }
            assert forall key :: key in local0 ==> key in local by {
              LandedUntouched(local0, dir, done, replies);
            }
            assert !(NoFaultsFrom(|trace0|) && AllDecode(Pulled(pod, fs0, NonEmpty(lines)))) by {
              FailedDownload(pod, fs0, lines, i, done, line);
              var reply := pod.shell(fs, Sh(DownloadLine(ArtifactsDir + line)), "");
              assert position in faults || Decode(reply.output).Failure?;
              assert |trace0| <= position;
            }
            return got;
          }
          ghost var reply := pod.shell(fs, Sh(DownloadLine(ArtifactsDir + line)), "");
          ArtifactStep(pod, fs0, local0, trace0, dir, done, replies, line, reply, before, local, traceBefore, trace);
          done := done + [line];
          replies := replies + [reply];
        }
        i := i + 1;
      }
      assert lines[..i] == lines;
      LandedUntouched(local0, dir, done, replies);
      r := Pass;
    }

    /**
     * The second half of `run_script_in_pod`: copy the log and the status
     * file into `dir`, list the artifacts directory, and copy every listed
     * artifact; `listing` is what the listing line printed.
     */
    method FetchResults(log: string, dir: string) returns (r: Outcome<RunError>, listing: string)
      modifies this
      ensures old(trace) <= trace
      ensures r.Pass? ==>
        var f := FetchReplies(pod, old(remote), log);
        var names := NonEmpty(SplitLines(listing));
        var replies := Pulled(pod, f.listing.fs, names);
        && listing == f.listing.output
        && trace == old(trace) + FetchOps(log, listing)
        && Decode(f.log.output).Success? && Decode(f.status.output).Success? && AllDecode(replies)
        && local == Landed(WithLogAndStatus(old(local), dir, log, f), dir, names, replies)
        && remote == FsAfter(f.listing.fs, replies)
      ensures r.Pass? ==>
        var f := FetchReplies(pod, old(remote), log);
        var names := NonEmpty(SplitLines(listing));
        var logCopy, statusCopy := Join(dir, Name(log)), Join(dir, "status");
        && logCopy in local && statusCopy in local
        && (Apart(dir, names, statusCopy) ==> local[statusCopy] == Decode(f.status.output).value)
        && (Apart(dir, names, logCopy) && logCopy != statusCopy ==> local[logCopy] == Decode(f.log.output).value)
      ensures NoFaultsFrom(|old(trace)|) && FetchDecodes(pod, old(remote), log) ==> r.Pass?
    {
      listing := "";
      ghost var f := FetchReplies(pod, remote, log);
      var got := CopyFromPod(log, Join(dir, Name(log)));
      ghost var t1 := trace;
      assert old(trace) <= t1;
      if got.Fail? {
        assert !(NoFaultsFrom(|old(trace)|) && FetchDecodes(pod, old(remote), log)) by {
          assert |old(trace)| in faults || Decode(f.log.output).Failure?;
        }
        return got, listing;
      }
      got := CopyFromPod(StatusPath, Join(dir, "status"));
      ghost var t2 := trace;
      Extended(old(trace), t1, t2);
      if got.Fail? {
        assert !(NoFaultsFrom(|old(trace)|) && FetchDecodes(pod, old(remote), log)) by {
          assert |t1| in faults || Decode(f.status.output).Failure?;
        }
        return got, listing;
      }
      ghost var copied := local;
      assert copied == WithLogAndStatus(old(local), dir, log, f);
      var listed := ExecInPod(Sh(ListingLine));
      ghost var t3 := trace;
      Extended(old(trace), t2, t3);
      if listed.Failure? {
        assert |t2| in faults;
        return Fail(listed.error), listing;
      }
      listing := listed.value;
      assert remote == f.listing.fs;
      r := CopyArtifacts(SplitLines(listing), dir);
      Extended(old(trace), t3, trace);
      if r.Fail? {
        assert !(NoFaultsFrom(|old(trace)|) && FetchDecodes(pod, old(remote), log)) by {
          assert !NoFaultsFrom(|t3|) || !AllDecode(Pulled(pod, f.listing.fs, NonEmpty(SplitLines(listing))));
        }
      }
      if r.Pass? {
        FetchedInOrder(old(trace), t1, t2, t3, trace, log, listing);
        FetchedCopies(old(local), dir, log, f, NonEmpty(SplitLines(listing)), Pulled(pod, f.listing.fs, NonEmpty(SplitLines(listing))));
      }
    }

    /**
     * The first half of `run_script_in_pod`: stage the script in the pod,
     * resolve its interpreter (a file the table does not know has then
     * been uploaded already) and run it under the shell line that records
     * its output and exit status.
     */
    method StageAndRun(localPath: string) returns (r: Outcome<RunError>)
      modifies this
      ensures localPath !in old(local) ==>
        r == Fail(FileMissing(localPath)) && trace == old(trace) && remote == old(remote) && local == old(local)
      ensures localPath in old(local) ==>
        |old(trace)| < |trace| && trace[|old(trace)|] == UploadOp(Stage(localPath), old(local)[localPath])
      ensures localPath in old(local) && old(NextFault()).None? && CommandForFile(Stage(localPath)).Failure? ==>
        && r == Fail(Unsupported(CommandForFile(Stage(localPath)).error))
        && trace == old(trace) + [UploadOp(Stage(localPath), old(local)[localPath])]
        && remote == pod.shell(old(remote), Sh(UploadLine(Stage(localPath))), Encode(old(local)[localPath])).fs
      ensures r.Pass? ==>
        && localPath in old(local) && CommandForFile(Stage(localPath)).Success?
        && local == old(local)
        && remote == Replies(pod, old(remote), localPath, old(local)[localPath]).run.fs
        && trace == old(trace) + [UploadOp(Stage(localPath), old(local)[localPath]),
                                  ScriptOp(CommandForFile(Stage(localPath)).value, LogPath(localPath))]
      ensures (localPath in old(local) && CommandForFile(Stage(localPath)).Success?
               && |old(trace)| !in faults && |old(trace)| + 1 !in faults) ==> r.Pass?
      ensures local == old(local)
      ensures localPath in old(local) && old(NextFault()).Some? ==>
        && r == Fail(Classify(old(NextFault()).value)) && remote == old(remote)
        && trace == old(trace) + [UploadOp(Stage(localPath), old(local)[localPath])]
      ensures (localPath in old(local) && old(NextFault()).None? && CommandForFile(Stage(localPath)).Success?
               && |old(trace)| + 1 in faults) ==>
        && r == Fail(Classify(faults[|old(trace)| + 1]))
        && remote == Replies(pod, old(remote), localPath, old(local)[localPath]).upload.fs
        && trace == old(trace) + [UploadOp(Stage(localPath), old(local)[localPath]),
                                  ScriptOp(CommandForFile(Stage(localPath)).value, LogPath(localPath))]
    {
      ghost var fs0, trace0 := remote, trace;
      var stage := Stage(localPath);
      var up := CopyFileToPod(localPath, stage);
      if up.Fail? {
        assert localPath !in local || |trace0| in faults;
        return up;
      }
      ghost var data := local[localPath];
      ghost var uploaded, upFs := trace, remote;
      assert |trace0| !in faults && uploaded == trace0 + [UploadOp(stage, data)];
      assert upFs == pod.shell(fs0, Sh(UploadLine(stage)), Encode(data)).fs;
      r := LaunchStaged(localPath);
      if CommandForFile(stage).Success? {
        ghost var ops := [UploadOp(stage, data), ScriptOp(CommandForFile(stage).value, LogPath(localPath))];
        assert trace == trace0 + ops by {
          AppendAssoc(trace0, [ops[0]], [ops[1]]);
          assert [ops[0]] + [ops[1]] == ops;
        }
        ghost var t := Replies(pod, fs0, localPath, data);
        assert t.upload.fs == upFs && (r.Pass? ==> remote == t.run.fs);
      }
    }

    /**
     * The part of `run_script_in_pod` after the upload: pick the log by the
     * suffix, resolve the staged path, and run the script line.
     */
    method LaunchStaged(localPath: string) returns (r: Outcome<RunError>)
      modifies this
      ensures local == old(local)
      ensures CommandForFile(Stage(localPath)).Failure? ==>
        && r == Fail(Unsupported(CommandForFile(Stage(localPath)).error))
        && trace == old(trace) && remote == old(remote)
      ensures CommandForFile(Stage(localPath)).Success? ==>
        var cmd := CommandForFile(Stage(localPath)).value;
        var log := LogPath(localPath);
        && trace == old(trace) + [ScriptOp(cmd, log)]
        && (old(NextFault()).Some? ==> r == Fail(Classify(old(NextFault()).value)) && remote == old(remote))
        && (old(NextFault()).None? ==> r == Pass && remote == pod.shell(old(remote), Sh(ScriptLine(cmd, log)), "").fs)
    {
      var log := LogPath(localPath);
      var resolved := CommandForFile(Stage(localPath));
      if resolved.Failure? {
        return Fail(Unsupported(resolved.error));
      }
      var ran := ExecInPod(Sh(ScriptLine(resolved.value, log)));
      if ran.Failure? {
        return Fail(ran.error);
      }
      r := Pass;
    }

    /**
     * `run_script_in_pod`: stage the script, run it with its output in the
     * log and `$?` in the status file, copy the log, the status file and every
     * listed artifact into `dir`, and return the status read back from the
     * local copy. `listing` is what the listing line printed.
     */
    method RunScriptInPod(localPath: string, dir: string) returns (r: Result<int, RunError>, ghost listing: string)
      modifies this
      ensures localPath !in old(local) ==>
        r == Failure(FileMissing(localPath)) && trace == old(trace) && remote == old(remote) && local == old(local)
      ensures localPath in old(local) ==>
        |old(trace)| < |trace| && trace[|old(trace)|] == UploadOp(Stage(localPath), old(local)[localPath])
      ensures localPath in old(local) && old(NextFault()).None? && CommandForFile(Stage(localPath)).Failure? ==>
        && r == Failure(Unsupported(CommandForFile(Stage(localPath)).error)) && local == old(local)
        && trace == old(trace) + [UploadOp(Stage(localPath), old(local)[localPath])]
        && remote == pod.shell(old(remote), Sh(UploadLine(Stage(localPath))), Encode(old(local)[localPath])).fs
      ensures localPath in old(local) && old(NextFault()).Some? ==>
        && r == Failure(Classify(old(NextFault()).value)) && remote == old(remote) && local == old(local)
        && trace == old(trace) + [UploadOp(Stage(localPath), old(local)[localPath])]
      ensures (localPath in old(local) && old(NextFault()).None? && CommandForFile(Stage(localPath)).Success?
               && |old(trace)| + 1 in faults) ==>
        && r == Failure(Classify(faults[|old(trace)| + 1])) && local == old(local)
        && remote == Replies(pod, old(remote), localPath, old(local)[localPath]).upload.fs
        && trace == old(trace) + [UploadOp(Stage(localPath), old(local)[localPath]),
                                  ScriptOp(CommandForFile(Stage(localPath)).value, LogPath(localPath))]
      ensures r.Success? ==>
        && localPath in old(local) && CommandForFile(Stage(localPath)).Success?
        && var t := Replies(pod, old(remote), localPath, old(local)[localPath]);
        && var names := NonEmpty(SplitLines(listing));
        && var replies := Pulled(pod, t.fetched.listing.fs, names);
        && trace == old(trace) + PlannedOps(localPath, old(local)[localPath], listing)
        && listing == t.fetched.listing.output
        && Decode(t.fetched.log.output).Success? && Decode(t.fetched.status.output).Success?
        && AllDecode(replies)
        && Join(dir, Name(LogPath(localPath))) in local && Join(dir, "status") in local
        && local == Landed(WithLogAndStatus(old(local), dir, LogPath(localPath), t.fetched), dir, names, replies)
        && remote == FsAfter(t.fetched.listing.fs, replies)
        && r.value == ParseStatus(BytesText(local[Join(dir, "status")]))
      ensures r.Success? ==>
        var t := Replies(pod, old(remote), localPath, old(local)[localPath]);
        var names := NonEmpty(SplitLines(listing));
        var logCopy := Join(dir, Name(LogPath(localPath)));
        && logCopy in local && Join(dir, "status") in local
        && (Apart(dir, names, Join(dir, "status")) ==>
              r.value == ParseStatus(BytesText(Decode(t.fetched.status.output).value)))
        && (Apart(dir, names, logCopy) ==> local[logCopy] == Decode(t.fetched.log.output).value)
      ensures (localPath in old(local) && CommandForFile(Stage(localPath)).Success? && NoFaultsFrom(|old(trace)|)
               && FetchDecodes(pod, Replies(pod, old(remote), localPath, old(local)[localPath]).run.fs, LogPath(localPath)))
              ==> r.Success?
    {
      listing := "";
      var staged := StageAndRun(localPath);
      if staged.Fail? {
        return Failure(staged.error), listing;
      }
      ghost var begun := trace;
      var fetched, text := FetchResults(LogPath(localPath), dir);
      if fetched.Fail? {
        return Failure(fetched.error), listing;
      }
      listing := text;
      PlannedInOrder(old(trace), begun, trace, localPath, old(local)[localPath], listing);
      JoinDistinct(dir, Name(LogPath(localPath)), "status");
      r := Success(ParseStatus(BytesText(local[Join(dir, "status")])));
    }
  }
}
