# Remote script runner: a verified model

The runner takes a local script and executes it inside a Kubernetes pod,
using the pod's exec channel as the only link. The channel can run a
command, return the command's output and feed it text on stdin. The runner
builds everything else from that:

- File transfer: base64 on stdin to `base64 -d > dest`, and `base64 src` read back.
- The run itself: one shell line that sends the interpreter's output to a log and always writes `$?` to `/tmp/status`.
- Artifact collection: the pod lists `/tmp/artifacts`, and every non-empty line of that listing is downloaded.

Without a pod, the same `run` command resolves the interpreter and runs it
as a local child process.

The model has seven modules:

- `Wrappers`: `Option`, `Result` and `Outcome`.
- `Strings`: the Python string operations the runner relies on, restricted to ASCII. These are `lower`, `in`, `" ".join`, `strip`, `splitlines`, `int` and the text `echo $?` prints.
- `Base64`: the standard base64 encoder (section 4 of RFC 4648) and the lenient decoder Python's `b64decode` uses, written as a state machine. The decoder skips characters outside the alphabet and stops at padding once a group is complete. Also the 76-column wrapping the pod's `base64` command adds.
- `ExecMap`: `PurePath.name` and `PurePath.suffix`, the interpreter table, and `command_for_file`.
- `RemotePod`: the four shell lines the runner composes, and what a pod does with them.
  - A pod is a file map plus a shell function.
  - `Honest` says the four lines do what their commands do.
  - `Execute` is a reference shell that meets `Honest`.
- `K8s`: the timeout classification, the staging and log paths, and the status parse.
  - A `Session` class holds the pod's files (`remote`), the local files (`local`) and the exec calls issued so far (`trace`). Each helper of the source is one method that updates these fields.
  - The exception a call raises is fixed in advance by `faults`, keyed by the call's position in the trace.
- `Cli`: the `run` command's dispatch, as a pure function. The pod run and the local child are passed in as parameters.

The remote run is proved against two ghost functions. `Replies` gives the
pod's replies to the calls a run issues, and `PlannedOps` gives those calls
in order. Separate lemmas (`HonestReplies`, `HonestFetch`) then show what
those replies are on an honest pod:

- the staged script runs on the uploaded bytes;
- the downloaded log is its output;
- the downloaded status file reads back as its exit status.

Two behaviours of the code that the model states as they are:

- An artifact named `status` is copied over the local status copy before that copy is read. The returned code is then parsed from the artifact. `RunScriptInPod` therefore ties its result to the downloaded status only when no listed name lands on the status copy (`Apart`). `ApartFromStatus` gives the usual case: no listed name is `status`.
- In pod mode the suffix is not checked before the upload. An unsupported file is uploaded first, and then `UnsupportedScriptError` escapes unconverted (`StageAndRun`, `UnsupportedInBothModes`).

In these respects the model follows the code:

- Timeouts are recognised by the words "timed out" in the exception text.
- A transfer command that exits non-zero raises nothing.
- Artifact names from the listing are joined to the local directory unguarded.
- The local `status` file holds `echo`'s output, newline included.
- An unsupported file in pod mode has already used the channel when it is refused.
- Paths and interpreter words go into the shell lines unquoted (runner/k8s.py:70, 104, 154). The model gives those lines their meaning only for plain shell words. A path holding a space or a `#`, for instance, is read differently by a real shell, and the model leaves it to the pod's `other` function.

## Model

| member | source | states |
|---|---|---|
| Strings.Lower | runner/exec_map.py:41 | lower-casing keeps the length and replaces each ASCII capital by its small letter, every other character unchanged |
| Strings.LowerTwice | runner/k8s.py:52 | lower-casing an already lower-cased text changes nothing |
| Strings.ContainsAppended | runner/k8s.py:52 | `t in a + t + b` holds for every `a` and `b` |
| Strings.JoinSpace | runner/k8s.py:154 | the joined line starts with the first word, the interpreter |
| Strings.SplitJoinSpace | runner/k8s.py:154 | splitting `" ".join(words)` at single spaces gives back exactly `words` when no word holds a space |
| Strings.TrimStart | runner/k8s.py:189 | removing leading whitespace gives a suffix of the input, all of whose dropped characters are whitespace, and that does not start with whitespace |
| Strings.TrimEnd | runner/k8s.py:189 | removing trailing whitespace gives a prefix of the input, all of whose dropped characters are whitespace, and that does not end with whitespace |
| Strings.StripSlice | runner/k8s.py:189 | trimming the start and then the end leaves one slice of the input with only whitespace around it |
| Strings.Strip | runner/k8s.py:189 | `strip` gives the slice of its input that has only whitespace before and after it in the input, and that neither starts nor ends with whitespace |
| Strings.SplitLines | runner/k8s.py:176 | no line produced by `splitlines` contains a line boundary |
| Strings.SplitJoinLines | runner/k8s.py:168-176 | splitting what `ls -1` prints for a list of names (`JoinLines`) gives back the names, in order |
| Strings.NonEmpty | runner/k8s.py:176-178 | the lines the loop acts on are all non-empty |
| Strings.NonEmptyConcat | runner/k8s.py:176-178 | skipping empty lines of two listings one after the other keeps the kept lines of the first before those of the second |
| Strings.NonEmptySkipsEmpty | runner/k8s.py:177-178 | an empty line is skipped: it contributes nothing, wherever it stands |
| Strings.NonEmptyKeepsLine | runner/k8s.py:176-179 | a non-empty line is acted on in its place, after the kept lines before it and before the kept lines after it |
| Strings.NonEmptyMembers | runner/k8s.py:176-178 | a line is acted on exactly when it occurs in the listing and is not empty |
| K8s.NonEmptyKeeps | runner/k8s.py:176-178 | when no line is empty, skipping empty lines keeps all of them, in order |
| Strings.Decimal | runner/k8s.py:154 | the text `echo $?` prints is non-empty and all digits |
| Strings.ParseInt | runner/k8s.py:191 | `int` accepts only text starting with a digit or a sign and ending with a digit, and digit-led text gives a non-negative value |
| Strings.ParseDecimal | runner/k8s.py:191 | `int` reads back exactly the number `echo` printed |
| Strings.StripDecimalLine | runner/k8s.py:189 | `strip` removes the newline `echo` appends and nothing else |
| Base64.Encode | runner/k8s.py:69 | the encoding has 4 characters per started group of 3 bytes, all of them alphabet or pad characters and ASCII |
| Base64.Wrap | runner/k8s.py:104 | what `base64` prints is empty exactly for an empty file; otherwise it is longer than the encoding and ends with a newline |
| Base64.Decode | runner/k8s.py:122 | `b64decode` of text fails as non-ASCII exactly when the text holds a non-ASCII character; otherwise it is the decoding of the text's alphabet and pad characters alone |
| Base64.Run | runner/k8s.py:122 | decoding ASCII text never fails as non-ASCII: that error belongs to the entry point |
| Base64.RunIgnoresSkipped | runner/k8s.py:122 | decoding a text gives what decoding only its alphabet and pad characters gives |
| Base64.KeptWrap | runner/k8s.py:104 | wrapping the encoding into lines adds only characters the decoder skips |
| Base64.WrapAscii | runner/k8s.py:104 | the wrapped encoding stays ASCII, so the decoder accepts it |
| Base64.RunQuad | runner/k8s.py:122 | one full group of four characters decodes to the three bytes it encodes |
| Base64.RunOne | runner/k8s.py:122 | a final group with two pads decodes to its one byte and ends the input |
| Base64.RunTwo | runner/k8s.py:122 | a final group with one pad decodes to its two bytes and ends the input |
| Base64.RunEncoded | runner/k8s.py:122 | decoding an encoding appends exactly the encoded bytes |
| Base64.DecodeEncode | runner/k8s.py:57-123 | `b64decode(b64encode(b)) == b` for every byte sequence, the empty one included |
| Base64.DecodeWrappedEncode | runner/k8s.py:93-123 | decoding what the pod's `base64` prints for a file gives back the file's bytes |
| ExecMap.Name | runner/exec_map.py:41 | a path's final component holds no `/` |
| ExecMap.RFind | runner/exec_map.py:41 | the result is the index of the last occurrence, or -1 when there is none |
| ExecMap.Suffix | runner/exec_map.py:41 | a suffix is empty or a dot followed by at least one character, with no further dot and no `/` |
| ExecMap.CommandForFile | runner/exec_map.py:22-44 | succeeds exactly when the lower-cased suffix is in the table; the command is then the table's prefix followed by the path, starting with an interpreter; otherwise the error message names the path |
| ExecMap.TableInterpreters | runner/exec_map.py:13-19 | every prefix in the table is non-empty and starts with one of the four interpreters |
| ExecMap.NameAppend | runner/exec_map.py:41 | appending slash-free text to a path appends it to the path's final component |
| ExecMap.SuffixOfAppended | runner/exec_map.py:41 | a path with a non-empty final component followed by a dotted extension has that extension as its suffix |
| ExecMap.ResolvesByExtension | runner/exec_map.py:41-44 | such a path, in any letter case, resolves to the table entry of its lower-cased extension followed by the path |
| ExecMap.KeyIsExtension | runner/exec_map.py:13-19 | every key of the table is a dotted extension |
| ExecMap.KeyIsLowerCase | runner/exec_map.py:13-19 | no key of the table holds a capital letter |
| ExecMap.SupportedExtensions | tests/test_exec_map.py:10-22 | each of the five extensions maps to its prefix followed by the path |
| ExecMap.UpperCaseSuffix | runner/exec_map.py:41-44 | `X.PY` runs under `python3` like `X.py` |
| ExecMap.UnsupportedExtension | runner/exec_map.py:42-43 | an extension outside the table gives the error `Unsupported script type: <path>` |
| ExecMap.TextFileUnsupported | tests/test_exec_map.py:25-30 | a `.txt` file is refused |
| ExecMap.NoSuffixUnsupported | runner/exec_map.py:41-43 | a path without a suffix is refused with the same message |
| ExecMap.MongoEntries | runner/exec_map.py:13-19 | exactly the `.mongo` and `.js` entries run under `mongosh` |
| ExecMap.MongoAndJsShareInterpreter | runner/exec_map.py:17-18 | `.mongo` and `.js` have the same prefix |
| ExecMap.SuffixOfStaged | runner/k8s.py:145-153 | staging under `/tmp/` keeps the file's name and suffix, so the interpreter resolved remotely is the one the local file has |
| RemotePod.EchoBytes | runner/k8s.py:154 | the status file `echo $?` writes reads as the decimal status followed by a newline |
| RemotePod.Parse | runner/k8s.py:154 | each recognised shape is exactly one of the runner's lines, and a script line ends with one of the two log tails |
| RemotePod.AfterScript | runner/k8s.py:154 | after the script line both the log and the status file exist |
| RemotePod.UploadLine | runner/k8s.py:70 | the upload line is recognised as an upload to its destination |
| RemotePod.ParseDownloadLine | runner/k8s.py:104 | the download line of a path not starting with `-` is recognised as a download of that path |
| RemotePod.ParseListingLine | runner/k8s.py:172 | the listing line is recognised as the listing |
| RemotePod.ScriptLine | runner/k8s.py:153-154 | for an interpreter word and either log, the script line is recognised as a run of the joined words with that log |
| RemotePod.LogNotStatus | runner/k8s.py:148-154 | neither log is the status file |
| RemotePod.UploadWrites | runner/k8s.py:67-86 | the upload line with the encoding on stdin stores exactly those bytes at the destination and changes nothing else |
| RemotePod.DownloadReads | runner/k8s.py:103-117 | the download line prints the wrapped encoding of the file and changes nothing |
| RemotePod.ListingReply | runner/k8s.py:168-175 | the listing line prints the pod's listing and changes nothing |
| RemotePod.StatusAlwaysRecorded | runner/k8s.py:154 | for interpreter words that are all plain shell words, whatever the exit status, the log holds the output and the status file reads back as that status |
| RemotePod.JoinPlainWords | runner/k8s.py:154 | `" ".join` of plain shell words is non-empty text of safe characters and spaces only, and splitting it at spaces gives back exactly those words |
| RemotePod.ReferenceHonest | runner/k8s.py:136-142 | the reference shell does what the runner relies on for all four lines |
| RemotePod.UploadThenDownload | tests/test_k8s_integration.py:60-66 | on an honest pod, uploading bytes and downloading them gives the same bytes, and the files hold them in between |
| K8s.Classify | runner/k8s.py:51-54 | an exception becomes a timeout exactly when its lower-cased text contains `timed out`, otherwise it is re-raised with the same text |
| K8s.TimedOutAnywhere | runner/k8s.py:52-53 | `timed out` in any letter case and anywhere in the text makes it a timeout |
| K8s.ClassifyIgnoresCase | runner/k8s.py:52 | lower-casing the text first does not change the classification |
| K8s.Stage | runner/k8s.py:145 | the staged path has the local file's name and suffix |
| K8s.LogPath | runner/k8s.py:148-151 | the log is one of the two fixed logs, and its name is relative and is not `status` |
| K8s.LogNames | runner/k8s.py:148-151 | the local log copies are named `out_script.log` and `out_mongo.log` |
| K8s.Join | runner/k8s.py:165-184 | `dir / name`: a relative name ends the joined path and, without a slash, is its final component; an absolute name replaces the directory |
| K8s.NameAfterSlash | runner/k8s.py:184 | a slash-free name after a directory ending in `/` is the final component |
| K8s.PlainPaths | runner/k8s.py:145-166 | the status path and both logs are plain shell words |
| K8s.LogFollowsInterpreter | runner/k8s.py:148-153 | the log is the MongoDB one exactly when the staged script resolves to `mongosh`, and is always one of the two logs |
| K8s.JoinDistinct | runner/k8s.py:184 | distinct relative names land in distinct local files |
| K8s.StatusOfEcho | runner/k8s.py:189-191 | the status file `echo $?` wrote parses back as that status |
| K8s.ParseStatus | runner/k8s.py:189-193 | the status is `int` of the stripped text when that parses and 1 otherwise; a status other than 1 needs a digit in the text |
| K8s.ArtifactDownloads | runner/k8s.py:176-187 | one download per name, of `/tmp/artifacts/<name>`, in the order of the names |
| K8s.PulledPrefix | runner/k8s.py:176-187 | the replies to the first downloads do not depend on the names after them |
| K8s.FailedDownload | runner/k8s.py:176-187 | the download of the next non-empty line is the next reply of the artifact downloads, and it decodes whenever all of them do |
| K8s.LandedUntouched | runner/k8s.py:184 | writing the artifacts loses no local file and leaves every file no name lands on as it was |
| K8s.LandedAt | runner/k8s.py:179-187 | an artifact's local copy holds its decoded reply unless a later name lands on the same file |
| K8s.FetchedCopies | runner/k8s.py:165-187 | after the fetch the log and status copies exist; each holds its decoded download unless an artifact lands on it |
| K8s.HonestFetch | runner/k8s.py:165-175 | on an honest pod the downloaded log is the run's output, the downloaded status is what `echo` wrote, and the listing is of the files the run left |
| K8s.HonestReplies | runner/k8s.py:145-193 | on an honest pod the script runs on the uploaded bytes, and the downloaded status parses to the script's exit status |
| K8s.HonestDownload | runner/k8s.py:103-123 | on an honest pod, downloading an existing file changes nothing and decodes to its bytes |
| K8s.HonestPulled | runner/k8s.py:176-187 | on an honest pod whose listed artifacts exist, the downloads change nothing and each decodes to its artifact's bytes |
| K8s.HonestFetchDecodes | runner/k8s.py:165-187 | on an honest pod whose listed artifacts exist, every download of the fetch decodes |
| K8s.HonestArtifactLands | runner/k8s.py:176-187 | on an honest pod, an artifact's local copy holds the artifact's bytes in the pod unless a later name lands on the same file |
| K8s.ApartFromStatus | runner/k8s.py:166-187 | when no listed name is `status`, no artifact is copied onto the status copy |
| K8s.ListedNames | runner/k8s.py:168-178 | the loop visits exactly the names `ls -1` listed, in order |
| K8s.InterpreterLaunches | runner/k8s.py:153-154 | every interpreter word starts with a character that no transfer or listing line starts with |
| K8s.PlainCommand | runner/k8s.py:145-154 | a staged path that is a plain shell word resolves to a command whose words are all plain |
| K8s.TableWordsPlain | runner/exec_map.py:13-19 | every word of every command prefix in the table is a plain shell word |
| K8s.Session.Call | runner/k8s.py:39-50 | a call is appended to the trace; it either raises its scheduled exception and leaves the pod alone, or returns the shell's output and the shell's new files |
| K8s.Session.ExecInPod | runner/k8s.py:28-54 | the same, with the exception classified as a timeout or re-raised |
| K8s.Session.CopyFileToPod | runner/k8s.py:57-90 | a missing local file fails before any call; otherwise one upload call carries the file's encoding and its failure is classified |
| K8s.Session.CopyFromPod | runner/k8s.py:93-123 | one download call; on success the decoded output replaces the local destination and nothing else; a decoding error or a failed call leaves the local files unchanged |
| K8s.Session.CopyArtifact | runner/k8s.py:179-187 | one download of `/tmp/artifacts/<name>`; it succeeds exactly when the call raises nothing and the output decodes, and then the decoded bytes replace the local file `dir / name` and nothing else; on failure the local files are unchanged, and the error and the pod's files are those of `CopyFromPod`: the classified exception with the pod untouched, or the decoding error with the pod as the download left it |
| K8s.Session.CopyArtifacts | runner/k8s.py:176-187 | on success the calls are one download per non-empty line, in order, and the local files are the old ones with each decoded reply written to its name, in order; no local file is lost; when no call raises and every reply decodes, it succeeds |
| K8s.Session.FetchResults | runner/k8s.py:164-187 | on success the log, status and listing calls come first, then one download per listed name; the local files are the old ones with the decoded log, status and artifacts written in that order; the log and status copies hold their downloads unless an artifact lands on them; when no call raises and every download decodes, it succeeds |
| K8s.Session.StageAndRun | runner/k8s.py:145-162 | the upload is the first call, and a fault on it ends the stage with that exception classified and the pod unchanged; an unsupported file is refused after the upload, with the pod's files as the upload left them; a fault on the script call ends it classified, with the pod as the upload left it; otherwise the script line follows and the pod's files are what it left; the local files never change; an existing, supported file whose two calls raise nothing is run |
| K8s.Session.LaunchStaged | runner/k8s.py:148-162 | an unsupported staged path is refused with no call; otherwise one script call with the chosen log, whose fault is classified and leaves the pod alone, and which otherwise leaves the pod as the shell did; the local files never change |
| K8s.Session.RunScriptInPod | runner/k8s.py:126-193 | a missing file fails before any call; a fault on the upload or the script call ends the run with that exception classified and the local files unchanged; an unsupported file fails after the upload, with the local files unchanged and the pod's files as the upload left them; on success the calls are exactly the planned ones, the local files are the old ones with the decoded log, status and artifacts written in order, and the result is the status parsed from the local status copy, which is the downloaded status unless an artifact lands on it; when nothing raises and every download decodes, the run returns |
| Cli.FileToRun | runner/cli.py:64 | the script file when it is given, otherwise the query file |
| Cli.ArtifactDirOf | runner/cli.py:76 | the given directory, or `.` when none or an empty one is given |
| Cli.Run | runner/cli.py:50-87 | usage error exactly when neither input is given; in pod mode the exit code or the exception of the remote run; locally a click error with the resolver's message, or the child's return code |
| Cli.UsageErrorFirst | runner/cli.py:60-63 | without an input the usage error comes first, whatever the other options and collaborators |
| Cli.ScriptWins | runner/cli.py:64 | with a script given, the query file makes no difference |
| Cli.UnsupportedInBothModes | runner/cli.py:66-83 | an unsupported file escapes from the pod run as it is, its message naming the staged path `/tmp/<name>`; run locally it becomes a click error naming the file as given |
| Cli.TextQueryRefusedLocally | runner/cli.py:80-83 | a local `.txt` query gives a click error naming the file |
| Cli.LocalExitIsChildCode | runner/cli.py:80-87 | a supported local script exits with its interpreter's return code |
| Cli.PodDefaultDirectory | runner/cli.py:66-78 | in pod mode the artifacts go to `.` when no directory or an empty one is given |

## Left out

- `ensure_context` (runner/k8s.py:19-25) loads a kubeconfig and is not part of this model. The pod run is a parameter of `Cli.Run`, and a configuration error is not among its endings.
- Namespaces, pod and container names, and per-call timeouts are not modelled. The channel of one `Session` stands for one container, and a timeout shows up only as exception text.
- The shell beyond the runner's four lines is not modelled. The pod's `other` function decides what happens for any other line, for a transfer of a path that is not a plain shell word, and for a script line whose command is not plain words.
- `HonestReplies` states the end-to-end result on an honest pod: the returned code is the script's exit status. It is a lemma beside `K8s.Session.RunScriptInPod`, not a clause of its contract.
- The remote `base64 -d` is modelled by the same decoder as the local `b64decode`.
- `pathlib` normalisation is not modelled. Paths are strings already in the form `pathlib` prints, and `Join` covers only that form.
- `artifact_dir.mkdir` (runner/k8s.py:164) is not modelled, because the local files are a map with no directories.
- Reading the local script and writing a local file cannot fail in the model, except for a missing script (`FileMissing`).
- A remote file missing when it is downloaded is left to the pod's `other` function.
- Partial effects of a failed call are not modelled. A call that raises leaves the pod's files unchanged.
- Python's `lower`, `strip`, `splitlines` and `int` are modelled for ASCII text only. Files are read as one character per byte.
- `Strings.ParseInt` accepts no surrounding whitespace. `Strip` removes it first, as the source does.
- `subprocess.run` in local mode is not modelled. Only its return code is, as the `child` parameter.
- The truncation of an exit code to 8 bits by the operating system is not modelled.
- The exit codes click chooses for its own exceptions are not modelled.
- Logging and click's option parsing are not modelled.
- K8s.Session.CopyArtifacts: on failure it states only that the trace grew and no local file was lost, not which downloads were issued.
- K8s.Session.FetchResults: on failure it states only that the trace grew.
- K8s.Session.RunScriptInPod: on a failure after the script call, while fetching the results, it states only that the upload was the first call.
