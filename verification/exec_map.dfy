/**
 * The interpreter resolver: a fixed table from a lower-cased file suffix to
 * the command prefix that runs a script, with the script's path appended.
 * Paths are strings in the normal form `pathlib` prints them in (no trailing
 * or doubled `/`), so `str(path)` is the path itself.
 */
module ExecMap {
  import opened Wrappers
  import opened Strings

  // ---------------------------------------------------------------------------
  // `PurePath.name` and `PurePath.suffix`
  // ---------------------------------------------------------------------------

  /** The final component of a path: everything after its last `/`. */
  function Name(path: string): (n: string)
    ensures '/' !in n
    decreases |path|
  {
    if path == [] || path[|path| - 1] == '/' then ""
    else Name(path[..|path| - 1]) + [path[|path| - 1]]
  }

  /** `str.rfind(c)`: the index of the last `c` in `s`, or -1. */
  function RFind(s: string, c: char): (i: int)
    ensures -1 <= i < |s|
    ensures i >= 0 ==> s[i] == c
    ensures forall k :: i < k < |s| ==> s[k] != c
    decreases |s|
  {
    if s == [] then -1
    else if s[|s| - 1] == c then |s| - 1
    else RFind(s[..|s| - 1], c)
  }

  /**
   * The suffix `pathlib` reports: the final component from its last dot on,
   * provided that dot neither starts nor ends the component; otherwise empty.
   */
  function Suffix(path: string): (x: string)
    ensures x != "" ==> |x| >= 2 && x[0] == '.' && '.' !in x[1..] && '/' !in x
  {
    var name := Name(path);
    var i := RFind(name, '.');
    if 0 < i < |name| - 1 then
      name[i..]
    else ""
  }

  // ---------------------------------------------------------------------------
  // The table and the lookup
  // ---------------------------------------------------------------------------

  const CommandMap: map<string, seq<string>> := map[
    ".py" := ["python3"],
    ".sh" := ["/bin/sh"],
    ".go" := ["go", "run"],
    ".mongo" := ["mongosh"],
    ".js" := ["mongosh"]
  ]

  /** The first word of every command prefix in the table. */
  const Interpreters: set<string> := {"python3", "/bin/sh", "go", "mongosh"}

  datatype UnsupportedScriptError = UnsupportedScriptError(message: string)

  function UnsupportedMessage(path: string): string {
    "Unsupported script type: " + path
  }

  /** `command_for_file(path)`. */
  function CommandForFile(path: string): (r: Result<seq<string>, UnsupportedScriptError>)
    ensures r.Success? <==> Lower(Suffix(path)) in CommandMap
    ensures r.Success? ==>
      var prefix := CommandMap[Lower(Suffix(path))];
      && |r.value| == |prefix| + 1 && r.value[..|prefix|] == prefix
      && r.value[0] in Interpreters
      && r.value[|r.value| - 1] == path
    ensures r.Failure? ==> Contains(r.error.message, path)
  {
    var ext := Lower(Suffix(path));
    if ext !in CommandMap then
      ContainsAppended("Unsupported script type: ", path, "");
      assert "Unsupported script type: " + path + "" == UnsupportedMessage(path);
      Failure(UnsupportedScriptError(UnsupportedMessage(path)))
    else
      TableInterpreters(ext);
      Success(CommandMap[ext] + [path])
  }

  /** Every command prefix in the table starts with one of the interpreters. */
  lemma TableInterpreters(ext: string)
    requires ext in CommandMap
    ensures |CommandMap[ext]| > 0 && CommandMap[ext][0] in Interpreters
  {
  }

  // ---------------------------------------------------------------------------
  // Properties
  // ---------------------------------------------------------------------------

  lemma {:induction false} NameAppend(a: string, b: string)
    requires '/' !in b
    ensures Name(a + b) == Name(a) + b
    decreases |b|
  {
    if b == [] {
      assert a + b == a;
    } else {
      var last, init := b[|b| - 1], b[..|b| - 1];
      assert last in b;
      assert '/' !in init by {
        forall k | 0 <= k < |init| ensures init[k] != '/' {
          assert init[k] == b[k];
        }
      }
      var ab := a + b;
      assert ab[|ab| - 1] == last;
      assert ab[..|ab| - 1] == a + init;
      NameAppend(a, init);
      assert Name(ab) == Name(a + init) + [last];
      assert Name(a) + init + [last] == Name(a) + b;
    }
  }

  lemma {:induction false} RFindLast(a: string, c: char, e: string)
    requires c !in e
    ensures RFind(a + [c] + e, c) == |a|
    decreases |e|
  {
    var s := a + [c] + e;
    if e == [] {
      assert s == a + [c];
    } else {
      assert s[|s| - 1] == e[|e| - 1];
      assert s[..|s| - 1] == a + [c] + e[..|e| - 1];
      RFindLast(a, c, e[..|e| - 1]);
    }
  }

  /** A dot followed by at least one character, none of them a dot or a slash. */
  predicate Extension(ext: string) {
    |ext| >= 2 && ext[0] == '.' && '.' !in ext[1..] && '/' !in ext[1..]
  }

  /**
   * Appending a dotted extension to a path whose final component is not empty
   * makes that extension the path's suffix, whatever else the path contains.
   */
  lemma ExtensionNoSlash(ext: string)
    requires Extension(ext)
    ensures '/' !in ext
  {
    forall k | 0 <= k < |ext| ensures ext[k] != '/' {
      if k > 0 { assert ext[k] == ext[1..][k - 1]; }
    }
  }

  lemma NameOfExtended(stem: string, ext: string)
    requires Extension(ext)
    ensures Name(stem + ext) == Name(stem) + ext
  {
    ExtensionNoSlash(ext);
    NameAppend(stem, ext);
  }

  lemma RFindExtension(n: string, ext: string)
    requires Extension(ext)
    ensures RFind(n + ext, '.') == |n|
  {
    assert n + ext == n + ['.'] + ext[1..];
    RFindLast(n, '.', ext[1..]);
  }

  lemma SuffixOfAppended(stem: string, ext: string)
    requires Name(stem) != ""
    requires Extension(ext)
    ensures Suffix(stem + ext) == ext
  {
    var n := Name(stem);
    NameOfExtended(stem, ext);
    RFindExtension(n, ext);
    assert (n + ext)[|n|..] == ext;
  }

  /**
   * Every path that ends in a table extension, in any letter case, resolves to
   * that entry's prefix followed by the path itself; spaces or further dots in
   * the rest of the path do not matter.
   */
  lemma ResolvesByExtension(stem: string, ext: string)
    requires Name(stem) != "" && Extension(ext)
    requires Lower(ext) in CommandMap
    ensures CommandForFile(stem + ext) == Success(CommandMap[Lower(ext)] + [stem + ext])
  {
    SuffixOfAppended(stem, ext);
  }

  /** Every key of the table is a dotted extension. */
  lemma KeyIsExtension(ext: string)
    requires ext in CommandMap
    ensures Extension(ext)
  {
  }

  /** No key of the table holds a capital letter. */
  lemma KeyIsLowerCase(ext: string)
    requires ext in CommandMap
    ensures NoUpper(ext)
  {
  }

  /**
   * A path ending in any of the five table extensions, written in lower case,
   * runs under that extension's prefix with the path itself appended.
   */
  lemma SupportedExtensions(stem: string, ext: string)
    requires Name(stem) != ""
    requires ext in CommandMap
    ensures CommandForFile(stem + ext) == Success(CommandMap[ext] + [stem + ext])
  {
    KeyIsExtension(ext);
    KeyIsLowerCase(ext);
    LowerNoUpper(ext);
    ResolvesByExtension(stem, ext);
  }

  lemma PythonEntry()
    ensures ".py" in CommandMap && CommandMap[".py"] == ["python3"]
  {
  }

  lemma UpperPython()
    ensures Lower(".PY") == ".py" && Extension(".PY")
  {
    var l := Lower(".PY");
    assert l[0] == '.' && l[1] == 'p' && l[2] == 'y';
    assert ".PY"[1..] == "PY";
  }

  /** `X.PY` resolves to the same interpreter as `X.py`. */
  lemma UpperCaseSuffix(stem: string)
    requires Name(stem) != ""
    ensures CommandForFile(stem + ".PY") == Success(["python3", stem + ".PY"])
  {
    UpperPython();
    PythonEntry();
    ResolvesByExtension(stem, ".PY");
    assert ["python3"] + [stem + ".PY"] == ["python3", stem + ".PY"];
  }

  /** An extension outside the table is refused, and the message names the path. */
  lemma UnsupportedExtension(stem: string, ext: string)
    requires Name(stem) != "" && Extension(ext)
    requires Lower(ext) !in CommandMap
    ensures CommandForFile(stem + ext) == Failure(UnsupportedScriptError(UnsupportedMessage(stem + ext)))
  {
    SuffixOfAppended(stem, ext);
  }

  lemma TextNotInTable()
    ensures Lower(".txt") == ".txt" && Extension(".txt") && ".txt" !in CommandMap
  {
    LowerNoUpper(".txt");
    assert ".txt"[1..] == "txt";
  }

  /** `.txt` is refused (the case the test suite checks). */
  lemma TextFileUnsupported(stem: string)
    requires Name(stem) != ""
    ensures CommandForFile(stem + ".txt").Failure?
  {
    TextNotInTable();
    UnsupportedExtension(stem, ".txt");
  }

  /** A path without a suffix is refused. */
  lemma NoSuffixUnsupported(path: string)
    requires Suffix(path) == ""
    ensures CommandForFile(path) == Failure(UnsupportedScriptError(UnsupportedMessage(path)))
  {
    assert Lower("") == "";
  }

  /** Exactly the `.mongo` and `.js` entries run under `mongosh`. */
  lemma MongoEntries(ext: string)
    requires ext in CommandMap
    ensures |CommandMap[ext]| > 0
    ensures CommandMap[ext][0] == "mongosh" <==> ext in {".mongo", ".js"}
  {
  }

  /** `.mongo` and `.js` share one prefix. */
  lemma MongoAndJsShareInterpreter()
    ensures CommandMap[".mongo"] == CommandMap[".js"] == ["mongosh"]
  {
  }

  /** A file staged under another directory keeps its suffix, hence its interpreter. */
  lemma SuffixOfStaged(dir: string, path: string)
    requires |dir| > 0 && dir[|dir| - 1] == '/'
    ensures Name(dir + Name(path)) == Name(path)
    ensures Suffix(dir + Name(path)) == Suffix(path)
  {
    NameAppend(dir, Name(path));
    assert Name(dir) == "";
  }
}
