/**
 * The pod as the runner reaches it through its exec channel: a file system
 * mapping paths to bytes, and a shell that runs an argument vector with some
 * text on stdin. `Honest` states what the runner relies on: that the four
 * command lines it composes do what their commands do. `Execute` is a
 * reference shell that recognises those four lines and leaves what an
 * interpreter does, what `ls -1 /tmp/artifacts` prints and what any other
 * line does as parameters; `ReferenceHonest` shows it meets `Honest`.
 */
module RemotePod {
  import opened Wrappers
  import opened Strings
  import opened Base64

  /** The pod's files. */
  type Fs = map<string, Bytes>

  /** What one exec call leaves behind: the new files and the text on stdout and stderr. */
  datatype Reply = Reply(fs: Fs, output: string)

  /** What an interpreter run does: the new files, its combined stdout and stderr, and `$?`. */
  datatype Execution = Execution(fs: Fs, output: Bytes, status: byte)

  /**
   * A pod: its shell, and the two things the runner's lines leave to the pod,
   * what an interpreter command does and what the artifacts listing prints.
   */
  datatype Pod = Pod(
    shell: (Fs, seq<string>, string) -> Reply,
    interpret: (Fs, string) -> Execution,
    listing: Fs -> string)

  /** What the reference shell leaves open: the two above, and what any other line does. */
  datatype Commands = Commands(
    interpret: (Fs, string) -> Execution,
    listing: Fs -> string,
    other: (Fs, seq<string>, string) -> Reply)

  // ---------------------------------------------------------------------------
  // The fixed paths and the command lines the runner composes
  // ---------------------------------------------------------------------------

  const StatusPath := "/tmp/status"
  const ScriptLog := "/tmp/out_script.log"
  const MongoLog := "/tmp/out_mongo.log"
  const ArtifactsRoot := "/tmp/artifacts"
  const ArtifactsDir := ArtifactsRoot + "/"

  const UploadPrefix := "base64 -d > "
  const DownloadPrefix := "base64 "
  const ListingLine := "if [ -d " + ArtifactsRoot + " ]; then ls -1 " + ArtifactsRoot + "; fi"

  /** The argument vector that hands one line to the shell. */
  function Sh(line: string): seq<string> {
    ["/bin/sh", "-c", line]
  }

  /** The upload line; the payload travels on stdin, not in the line. */
  function UploadLine(dest: string): (line: string)
    ensures Parse(line) == Upload(dest)
  {
    assert UploadPrefix <= UploadPrefix + dest;
    UploadPrefix + dest
  }

  /**
   * The download line: the pod prints the base64 of `src`. How the shell
   * recognises it is `ParseDownloadLine`, a lemma, so that the many terms
   * that mention this line do not each bring the parser along.
   */
  function DownloadLine(src: string): string {
    DownloadPrefix + src
  }

  /** What follows the interpreter's words: both streams to `log`, then `$?` to the status file. */
  function StatusTail(log: string): string {
    " > " + log + " 2>&1; echo $? > " + StatusPath
  }

  /**
   * The one line that runs a script: for either log it is recognised as a
   * run of the joined interpreter words with that log.
   */
  function ScriptLine(cmd: seq<string>, log: string): (line: string)
    ensures Launcher(cmd) && (log == ScriptLog || log == MongoLog) ==>
      Parse(line) == Script(JoinSpace(cmd), log)
  {
    var line := JoinSpace(cmd) + StatusTail(log);
    if Launcher(cmd) && (log == ScriptLog || log == MongoLog) then
      assert line[0] == cmd[0][0];
      NotFixedLine(line);
      assert EndsWith(line, StatusTail(log)) && line[..|line| - |StatusTail(log)|] == JoinSpace(cmd);
      if log == MongoLog then
        MongoTailOnly(line);
        line
      else
        line
    else
      line
  }

  /** What `echo $? > file` writes. */
  function EchoBytes(status: byte): (b: Bytes)
    ensures BytesText(b) == Decimal(status as nat) + "\n"
  {
    var text := Decimal(status as nat) + "\n";
    assert IsByteText(text);
    BytesTextOfTextBytes(text);
    TextBytes(text)
  }

  // ---------------------------------------------------------------------------
  // Words the shell leaves alone
  // ---------------------------------------------------------------------------

  /** A character that is neither special to the shell nor a word separator. */
  predicate SafeChar(c: char) {
    || 'a' <= c <= 'z' || 'A' <= c <= 'Z' || '0' <= c <= '9'
    || c == '.' || c == '_' || c == '/' || c == '+' || c == ',' || c == ':' || c == '@' || c == '%' || c == '-'
  }

  /**
   * A word the shell passes through unchanged and that no command reads as
   * an option. The runner never quotes paths, so only such paths are given a
   * meaning here; the pod's `other` decides what any other line does.
   */
  predicate Plain(s: string) {
    |s| > 0 && s[0] != '-' && forall i :: 0 <= i < |s| ==> SafeChar(s[i])
  }

  /** Every word of an argument list is a plain shell word. */
  predicate PlainWords(cmd: seq<string>) {
    forall i :: 0 <= i < |cmd| ==> Plain(cmd[i])
  }

  /**
   * Text the shell splits at its spaces and otherwise leaves alone: what
   * `" ".join` makes of plain words.
   */
  predicate ShellWords(command: string) {
    |command| > 0 && forall i :: 0 <= i < |command| ==> SafeChar(command[i]) || command[i] == ' '
  }

  // ---------------------------------------------------------------------------
  // The shell
  // ---------------------------------------------------------------------------

  datatype Form =
    | Upload(dest: string)
    | Download(src: string)
    | Listing
    | Script(command: string, log: string)
    | Unknown

  /** Which of the runner's lines `line` is, recognised from its fixed parts. */
  function Parse(line: string): (f: Form)
    ensures f.Upload? ==> line == UploadPrefix + f.dest
    ensures f.Download? ==> line == DownloadPrefix + f.src
    ensures f.Listing? ==> line == ListingLine
    ensures f.Script? ==> line == f.command + StatusTail(f.log) && (f.log == ScriptLog || f.log == MongoLog)
  {
    if UploadPrefix <= line then
      assert line == UploadPrefix + line[|UploadPrefix|..];
      Upload(line[|UploadPrefix|..])
    else if DownloadPrefix <= line then
      assert line == DownloadPrefix + line[|DownloadPrefix|..];
      Download(line[|DownloadPrefix|..])
    else if line == ListingLine then
      Listing
    else if EndsWith(line, StatusTail(ScriptLog)) then
      var n := |line| - |StatusTail(ScriptLog)|;
      assert line == line[..n] + StatusTail(ScriptLog) by { assert line[n..] == StatusTail(ScriptLog); }
      Script(line[..n], ScriptLog)
    else if EndsWith(line, StatusTail(MongoLog)) then
      var n := |line| - |StatusTail(MongoLog)|;
      assert line == line[..n] + StatusTail(MongoLog) by { assert line[n..] == StatusTail(MongoLog); }
      Script(line[..n], MongoLog)
    else
      Unknown
  }

  predicate EndsWith(s: string, t: string) {
    |t| <= |s| && s[|s| - |t|..] == t
  }

  /** The files after the script line: the log holds the run's output, the status file its `$?`. */
  function AfterScript(run: Execution, log: string): (fs: Fs)
    ensures log in fs && StatusPath in fs
  {
    run.fs[log := run.output][StatusPath := EchoBytes(run.status)]
  }

  /**
   * The reference shell: one exec call of `argv` with `stdin` (empty for a
   * call without one).
   */
  function Execute(c: Commands, fs: Fs, argv: seq<string>, stdin: string): Reply {
    if |argv| == 3 && argv == Sh(argv[2]) then
      match Parse(argv[2])
      case Upload(dest) =>
        var data := Decode(stdin);
        if Plain(dest) && data.Success? then Reply(fs[dest := data.value], "")
        else c.other(fs, argv, stdin)
      case Download(src) =>
        if Plain(src) && src in fs then Reply(fs, Wrap(Encode(fs[src])))
        else c.other(fs, argv, stdin)
      case Listing =>
        Reply(fs, c.listing(fs))
      case Script(command, log) =>
        if ShellWords(command) then Reply(AfterScript(c.interpret(fs, command), log), "")
        else c.other(fs, argv, stdin)
      case Unknown =>
        c.other(fs, argv, stdin)
    else
      c.other(fs, argv, stdin)
  }

  function ReferencePod(c: Commands): Pod {
    Pod((fs, argv, stdin) => Execute(c, fs, argv, stdin), c.interpret, c.listing)
  }

  /** An interpreter word: its first character tells it apart from the transfer and listing lines. */
  predicate Launcher(cmd: seq<string>) {
    |cmd| > 0 && |cmd[0]| > 0 && cmd[0][0] != 'b' && cmd[0][0] != 'i'
  }

  /**
   * What the runner relies on from a pod: the upload line stores the bytes
   * whose base64 arrives on stdin; the download line prints the wrapped base64
   * of a file and changes nothing; the listing line prints the pod's listing
   * and changes nothing; and the script line, for interpreter words that are
   * all plain, leaves the run's output in the log and its `$?` in the status
   * file, whatever that status is.
   */
  ghost predicate Honest(pod: Pod) {
    && (forall fs: Fs, dest: string, data: Bytes {:trigger pod.shell(fs, Sh(UploadLine(dest)), Encode(data))} | Plain(dest) ::
          pod.shell(fs, Sh(UploadLine(dest)), Encode(data)) == Reply(fs[dest := data], ""))
    && (forall fs: Fs, src: string {:trigger pod.shell(fs, Sh(DownloadLine(src)), "")} | Plain(src) && src in fs ::
          pod.shell(fs, Sh(DownloadLine(src)), "") == Reply(fs, Wrap(Encode(fs[src]))))
    && (forall fs: Fs {:trigger pod.shell(fs, Sh(ListingLine), "")} :: pod.shell(fs, Sh(ListingLine), "") == Reply(fs, pod.listing(fs)))
    && (forall fs: Fs, cmd: seq<string>, log: string {:trigger pod.shell(fs, Sh(ScriptLine(cmd, log)), "")}
          | Launcher(cmd) && PlainWords(cmd) && (log == ScriptLog || log == MongoLog) ::
          pod.shell(fs, Sh(ScriptLine(cmd, log)), "") == Reply(AfterScript(pod.interpret(fs, JoinSpace(cmd)), log), ""))
  }

  // ---------------------------------------------------------------------------
  // Properties
  // ---------------------------------------------------------------------------

  /** Two strings that differ at `k` are not prefix and whole. */
  lemma DiffersAt(p: string, s: string, k: nat)
    requires k < |p| && k < |s| && p[k] != s[k]
    ensures !(p <= s) && p != s
  {
  }

  /** A path not starting with `-` is not read as an option: the download line is recognised. */
  lemma ParseDownloadLine(src: string)
    requires |src| > 0 && src[0] != '-'
    ensures Parse(DownloadLine(src)) == Download(src)
  {
    var line := DownloadLine(src);
    assert line[7] == src[0];
    DiffersAt(UploadPrefix, line, 7);
    assert DownloadPrefix <= line;
  }

  lemma ParseListingLine()
    ensures Parse(ListingLine) == Listing
  {
    assert ListingLine[0] == 'i';
    DiffersAt(UploadPrefix, ListingLine, 0);
    DiffersAt(DownloadPrefix, ListingLine, 0);
  }

  /** A line starting with neither `b` nor `i` is none of the fixed lines. */
  lemma NotFixedLine(line: string)
    requires |line| > 0 && line[0] != 'b' && line[0] != 'i'
    ensures !(UploadPrefix <= line) && !(DownloadPrefix <= line) && line != ListingLine
  {
    DiffersAt(UploadPrefix, line, 0);
    DiffersAt(DownloadPrefix, line, 0);
    assert ListingLine[0] == 'i';
    DiffersAt(ListingLine, line, 0);
  }

  /** A line that ends with the Mongo log's tail does not end with the script log's. */
  lemma MongoTailOnly(line: string)
    requires EndsWith(line, StatusTail(MongoLog))
    ensures !EndsWith(line, StatusTail(ScriptLog))
  {
    var tail, other := StatusTail(MongoLog), StatusTail(ScriptLog);
    assert |tail| == 49 && tail[16] == MongoLog[13] == 'o';
    assert |other| == 50 && other[17] == ScriptLog[14] == 't';
    assert line[|line| - 33] == tail[16];
    if |other| <= |line| {
      DiffersAt(other, line[|line| - |other|..], |other| - 33);
    }
  }

  /** The upload line stores exactly the bytes whose base64 arrives on stdin. */
  lemma UploadWrites(c: Commands, fs: Fs, dest: string, data: Bytes)
    requires Plain(dest)
    ensures Execute(c, fs, Sh(UploadLine(dest)), Encode(data)) == Reply(fs[dest := data], "")
  {
    DecodeEncode(data);
  }

  /** The download line leaves the files alone and prints the wrapped base64 of `src`. */
  lemma DownloadReads(c: Commands, fs: Fs, src: string, stdin: string)
    requires Plain(src) && src in fs
    ensures Execute(c, fs, Sh(DownloadLine(src)), stdin) == Reply(fs, Wrap(Encode(fs[src])))
  {
    ParseDownloadLine(src);
  }

  /** The listing line leaves the files alone and prints what `ls -1` prints. */
  lemma ListingReply(c: Commands, fs: Fs)
    ensures Execute(c, fs, Sh(ListingLine), "") == Reply(fs, c.listing(fs))
  {
    ParseListingLine();
  }

  /**
   * The script line runs the interpreter's words and then records `$?`
   * whatever it was: the status file afterwards reads back as the exit status
   * and the log holds the run's output.
   */
  lemma StatusAlwaysRecorded(c: Commands, fs: Fs, cmd: seq<string>, log: string)
    requires Launcher(cmd) && PlainWords(cmd)
    requires log == ScriptLog || log == MongoLog
    ensures
      var run := c.interpret(fs, JoinSpace(cmd));
      var after := Execute(c, fs, Sh(ScriptLine(cmd, log)), "");
      && after == Reply(AfterScript(run, log), "")
      && after.fs[StatusPath] == EchoBytes(run.status)
      && after.fs[log] == run.output
      && BytesText(after.fs[StatusPath]) == Decimal(run.status as nat) + "\n"
  {
    LogNotStatus(log);
    JoinPlainWords(cmd);
  }

  /**
   * Plain words joined by spaces are text of safe characters and spaces only,
   * which the shell splits back into exactly those words.
   */
  lemma {:induction false} JoinPlainWords(cmd: seq<string>)
    requires |cmd| > 0 && PlainWords(cmd)
    ensures ShellWords(JoinSpace(cmd))
    ensures SplitSpaces(JoinSpace(cmd)) == cmd
    decreases |cmd|
  {
    forall i | 0 <= i < |cmd| ensures ' ' !in cmd[i] {
      assert Plain(cmd[i]);
    }
    SplitJoinSpace(cmd);
    if |cmd| > 1 {
      var rest := JoinSpace(cmd[1..]);
      JoinPlainWords(cmd[1..]);
      var line := cmd[0] + " " + rest;
      forall i | 0 <= i < |line| ensures SafeChar(line[i]) || line[i] == ' ' {
        if i < |cmd[0]| {
          assert line[i] == cmd[0][i];
        } else if i > |cmd[0]| {
          assert line[i] == rest[i - |cmd[0]| - 1];
        }
      }
    }
  }

  lemma LogNotStatus(log: string)
    requires log == ScriptLog || log == MongoLog
    ensures log != StatusPath
  {
    assert log[5] != StatusPath[5];
  }

  /** The reference shell is one the runner can rely on. */
  lemma ReferenceHonest(c: Commands)
    ensures Honest(ReferencePod(c))
  {
    var pod := ReferencePod(c);
    forall fs: Fs, dest: string, data: Bytes | Plain(dest)
      ensures pod.shell(fs, Sh(UploadLine(dest)), Encode(data)) == Reply(fs[dest := data], "")
    {
      UploadWrites(c, fs, dest, data);
    }
    forall fs: Fs, src: string | Plain(src) && src in fs
      ensures pod.shell(fs, Sh(DownloadLine(src)), "") == Reply(fs, Wrap(Encode(fs[src])))
    {
      DownloadReads(c, fs, src, "");
    }
    forall fs: Fs ensures pod.shell(fs, Sh(ListingLine), "") == Reply(fs, pod.listing(fs)) {
      ListingReply(c, fs);
    }
    forall fs: Fs, cmd: seq<string>, log: string | Launcher(cmd) && PlainWords(cmd) && (log == ScriptLog || log == MongoLog)
      ensures pod.shell(fs, Sh(ScriptLine(cmd, log)), "") == Reply(AfterScript(pod.interpret(fs, JoinSpace(cmd)), log), "")
    {
      StatusAlwaysRecorded(c, fs, cmd, log);
    }
  }

  /** On a pod the runner can rely on, uploading bytes and downloading them again gives the same bytes. */
  lemma UploadThenDownload(pod: Pod, fs: Fs, path: string, data: Bytes)
    requires Honest(pod) && Plain(path)
    ensures
      var up := pod.shell(fs, Sh(UploadLine(path)), Encode(data));
      var down := pod.shell(up.fs, Sh(DownloadLine(path)), "");
      && up.fs == down.fs == fs[path := data]
      && Decode(down.output) == Success(data)
  {
    DecodeWrappedEncode(data);
  }
}
