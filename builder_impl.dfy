/**
 * Path resolution and qmake command-line assembly (class QmakeBuilderImpl).
 * The filesystem is reached only through the oracles of `FileSystem`.
 */
module BuilderImpl {
  import opened Results
  import opened Text

  /** The build environment: (name, value) entries in the map's iteration order. */
  type Env = seq<(string, string)>

  /**
   * What java.io.File answers about a path: the paths `isAbsolute`, `exists`,
   * `canRead` and `isDirectory` accept, what `getParent` returns, and the
   * directory relative paths are resolved against. `File.getPath` is taken to
   * return the path it was built from.
   */
  datatype FileSystem = FileSystem(
    absolute: iset<string>,
    existing: iset<string>,
    readable: iset<string>,
    directories: iset<string>,
    parent: string -> string,
    userDir: string)

  /** The validation policy applied to a prepared path (only one exists). */
  datatype PreparePathOption = CheckFileExists

  /** The FileNotFoundException raised by a validation, with the path it names. */
  datatype PathError = FileNotFound(absolutePath: string)

  /**
   * `File.getAbsolutePath` on a Unix host: a relative path is resolved
   * against the user directory, with no separator added after the root `/`
   * and the directory itself standing for the empty path.
   */
  function AbsolutePath(fs: FileSystem, path: string): (r: string)
    ensures path in fs.absolute ==> r == path
    ensures |path| <= |r| && r[|r| - |path|..] == path
    ensures path !in fs.absolute && path != [] ==>
      r[..|r| - |path|] == if fs.userDir == "/" then "/" else fs.userDir + "/"
    ensures path !in fs.absolute && path == [] ==> r == fs.userDir
  {
    if path in fs.absolute then path
    else if path == [] then fs.userDir
    else if fs.userDir == "/" then "/" + path
    else fs.userDir + "/" + path
  }

  /** The entry at `i` is the first one named `key`. */
  ghost predicate FirstEntry(env: Env, key: string, i: int) {
    0 <= i < |env| && env[i].0 == key && forall j :: 0 <= j < i ==> env[j].0 != key
  }

  /** The value of the first entry named `key`, if any. */
  function Lookup(env: Env, key: string): (v: Option<string>)
    ensures v.None? <==> forall i :: 0 <= i < |env| ==> env[i].0 != key
    ensures v.Some? ==> exists i :: FirstEntry(env, key, i) && env[i].1 == v.value
  {
    if env == [] then None
    else if env[0].0 == key then
      assert FirstEntry(env, key, 0);
      Some(env[0].1)
    else
      var v := Lookup(env[1..], key);
      assert forall i :: 0 < i < |env| ==> env[i] == env[1..][i - 1];
      assert forall i :: FirstEntry(env[1..], key, i) ==> FirstEntry(env, key, i + 1);
      v
  }

  /**
   * `envVars.get("WORKSPACE")` as string concatenation renders it: the value
   * of the first WORKSPACE entry, or "null" when there is none.
   */
  function WorkspaceText(env: Env): (w: string)
    ensures || (exists i :: FirstEntry(env, "WORKSPACE", i) && env[i].1 == w)
            || (w == "null" && forall i :: 0 <= i < |env| ==> env[i].0 != "WORKSPACE")
  {
    match Lookup(env, "WORKSPACE")
    case Some(w) => w
    case None => "null"
  }

  /** The reference marker for a variable: `$` followed by its name. */
  function Marker(key: string): (m: string)
    ensures m != [] && m[0] == '$'
  {
    "$" + key
  }

  /**
   * The substitution loop: every entry's marker replaced in turn, first
   * entry first. A path without `$` comes out unchanged, whatever the
   * environment.
   */
  function Substitute(env: Env, path: string): (r: string)
    ensures '$' !in path ==> r == path
  {
    if env == [] then path
    else
      var last := env[|env| - 1];
      var before := Substitute(env[..|env| - 1], path);
      ReplaceAllWithoutLead(before, Marker(last.0), last.1);
      ReplaceAll(before, Marker(last.0), last.1)
  }

  /**
   * The substituted path, anchored under the workspace unless it is already
   * absolute: the path is always kept whole at the end, and it is prefixed
   * by the workspace text and a `/` exactly when it is relative.
   */
  function Anchor(env: Env, path: string, fs: FileSystem): (r: string)
    ensures |path| <= |r| && r[|r| - |path|..] == path
    ensures r == path <==> path in fs.absolute
    ensures r != path ==> r[..|r| - |path|] == WorkspaceText(env) + "/"
  {
    if path in fs.absolute then path else WorkspaceText(env) + "/" + path
  }

  /** `PreparePathOptions.process`: the file must exist and be readable. */
  function Process(option: PreparePathOption, path: string, fs: FileSystem): (r: Result<(), PathError>)
    ensures r.Ok? <==> path in fs.existing && path in fs.readable
    ensures r.Err? ==> r.error == FileNotFound(AbsolutePath(fs, path))
  {
    match option
    case CheckFileExists =>
      if path !in fs.existing || path !in fs.readable then Err(FileNotFound(AbsolutePath(fs, path)))
      else Ok(())
  }

  /** What `preparePath` returns or throws. */
  function ResolvePath(env: Env, path: string, option: PreparePathOption, fs: FileSystem): (r: Result<string, PathError>)
    ensures var anchored := Anchor(env, Substitute(env, Trim(path)), fs);
      match r
      case Ok(p) => p == anchored && p in fs.existing && p in fs.readable
      case Err(e) => e == FileNotFound(AbsolutePath(fs, anchored)) && !(anchored in fs.existing && anchored in fs.readable)
  {
    var anchored := Anchor(env, Substitute(env, Trim(path)), fs);
    match Process(option, anchored, fs)
    case Ok(_) => Ok(anchored)
    case Err(e) => Err(e)
  }

  /**
   * With a single entry `(k, v)`, every `$k` in the path becomes `v` and the
   * text between occurrences is kept, other `$` references included.
   */
  lemma SubstituteSingleEntry(k: string, v: string, pieces: seq<string>)
    requires |pieces| > 0 && '$' !in k
    requires forall i :: 0 <= i < |pieces| ==> !Occurs(Marker(k), pieces[i])
    ensures Substitute([(k, v)], JoinWith(pieces, Marker(k))) == JoinWith(pieces, v)
  {
    assert [(k, v)][..0] == [];
    assert Marker(k)[1..] == k;
    ReplaceAllEveryOccurrence(pieces, Marker(k), v);
  }

  /** Blanks around the configured path never change the outcome. */
  lemma ResolveIgnoresSurroundingBlanks(env: Env, ws1: string, path: string, ws2: string, option: PreparePathOption, fs: FileSystem)
    requires AllTrimmable(ws1) && AllTrimmable(ws2)
    ensures ResolvePath(env, ws1 + path + ws2, option, fs) == ResolvePath(env, path, option, fs)
  {
    TrimIgnoresSurroundingBlanks(ws1, path, ws2);
  }

  /** An absolute path without `$` resolves to itself, trimmed, when the file is readable. */
  lemma ResolveAbsoluteLiteral(env: Env, path: string, option: PreparePathOption, fs: FileSystem)
    requires '$' !in Trim(path) && Trim(path) in fs.absolute
    requires Trim(path) in fs.existing && Trim(path) in fs.readable
    ensures ResolvePath(env, path, option, fs) == Ok(Trim(path))
  {
  }

  /**
   * A relative path without `$` is placed under the workspace with a `/`
   * separator; it is returned when readable and reported missing otherwise.
   */
  lemma ResolveRelativeLiteral(env: Env, path: string, option: PreparePathOption, fs: FileSystem)
    requires '$' !in Trim(path) && Trim(path) !in fs.absolute
    ensures var full := WorkspaceText(env) + "/" + Trim(path);
      ResolvePath(env, path, option, fs) ==
        if full in fs.existing && full in fs.readable then Ok(full) else Err(FileNotFound(AbsolutePath(fs, full)))
  {
  }

  /**
   * Entries are substituted in order, so a variable whose name extends an
   * earlier one loses its tail to the earlier substitution: with FOO before
   * FOOBAR, `$FOOBAR` becomes `xBAR`.
   */
  lemma SubstitutionOrderMatters()
    ensures Substitute([("FOO", "x"), ("FOOBAR", "y")], "$FOOBAR") == "xBAR"
    ensures Substitute([("FOOBAR", "y"), ("FOO", "x")], "$FOOBAR") == "y"
  {
    assert [("FOO", "x"), ("FOOBAR", "y")][..1] == [("FOO", "x")];
    assert [("FOOBAR", "y"), ("FOO", "x")][..1] == [("FOOBAR", "y")];
    ShorterMarkerFirst();
    LongerMarkerFirst();
  }

  lemma ShorterMarkerFirst()
    ensures ReplaceAll("$FOOBAR", "$FOO", "x") == "xBAR"
  {
    ReplaceAllAtFirstOccurrence("", "$FOO", "x", "BAR");
    assert "" + "$FOO" + "BAR" == "$FOOBAR";
  }

  lemma LongerMarkerFirst()
    ensures ReplaceAll("$FOOBAR", "$FOOBAR", "y") == "y"
  {
    ReplaceAllAtFirstOccurrence("", "$FOOBAR", "y", "");
    assert "" + "$FOOBAR" + "" == "$FOOBAR";
  }

  /** One more turn of the substitution loop handles the next entry. */
  lemma SubstituteStep(env: Env, i: nat, path: string)
    requires i < |env|
    ensures Substitute(env[..i + 1], path) == ReplaceAll(Substitute(env[..i], path), Marker(env[i].0), env[i].1)
  {
    assert env[..i + 1][..i] == env[..i];
  }

  /** `ResolvePath` once the substitution loop has produced `substituted`. */
  lemma ResolvePathOf(env: Env, path: string, option: PreparePathOption, fs: FileSystem, substituted: string)
    requires substituted == Substitute(env, Trim(path))
    ensures var p := if substituted in fs.absolute then substituted else WorkspaceText(env) + "/" + substituted;
      ResolvePath(env, path, option, fs) ==
        if p in fs.existing && p in fs.readable then Ok(p) else Err(FileNotFound(AbsolutePath(fs, p)))
  {
  }

  class QmakeBuilderImpl {

    constructor () {}

    /** The loop of `preparePath` over the variables: each entry's marker is replaced in turn. */
    method SubstituteVariables(env: Env, path: string) returns (p: string)
      ensures p == Substitute(env, path)
    {
      p := path;
      var i := 0;
      while i < |env|
        invariant 0 <= i <= |env|
        invariant p == Substitute(env[..i], path)
      {
        SubstituteStep(env, i, path);
        p := ReplaceAll(p, Marker(env[i].0), env[i].1);
        i := i + 1;
      }
      assert env[..i] == env;
    }

    /** `preparePath`: trim, substitute every variable in turn, anchor, validate. */
    method PreparePath(env: Env, path: string, option: PreparePathOption, fs: FileSystem)
      returns (r: Result<string, PathError>)
      ensures r == ResolvePath(env, path, option, fs)
    {
      var p := Trim(path);
      p := SubstituteVariables(env, p);
      ghost var substituted := p;
      if p !in fs.absolute {
        p := WorkspaceText(env) + "/" + p;
      }
      ResolvePathOf(env, path, option, fs, substituted);
      match option
      case CheckFileExists =>
        if p !in fs.existing || p !in fs.readable {
          return Err(FileNotFound(AbsolutePath(fs, p)));
        }
      return Ok(p);
    }
  }

  const ConfigPrefix := "CONFIG+="

  /**
   * `buildQMakeCall`: the binary, a space and the quoted project file, then
   * the quoted `CONFIG+=` setting when extra configuration is given.
   */
  function BuildQMakeCall(qmakeBin: string, projectFile: string, extraConfig: string): (call: string)
    ensures var base := qmakeBin + " \"" + projectFile + "\"";
      && |base| <= |call| && call[..|base|] == base
      && (extraConfig == [] ==> call == base)
      && (extraConfig != [] ==> call[|base|..] == " \"" + ConfigPrefix + extraConfig + "\"")
  {
    var call := qmakeBin + " " + "\"" + projectFile + "\"";
    if extraConfig != [] then call + " \"" + ConfigPrefix + extraConfig + "\"" else call
  }

  /** The position of the first `c` in `s`, or `|s|` when there is none. */
  function IndexOf(s: string, c: char): (i: nat)
    ensures i <= |s|
    ensures i < |s| ==> s[i] == c
    ensures forall k :: 0 <= k < i ==> s[k] != c
  {
    if s == [] then 0
    else if s[0] == c then 0
    else 1 + IndexOf(s[1..], c)
  }

  lemma IndexOfAfter(a: string, c: char, b: string)
    requires c !in a
    ensures IndexOf(a + [c] + b, c) == |a|
  {
    var s := a + [c] + b;
    assert s[|a|] == c;
    assert forall k :: 0 <= k < |a| ==> s[k] == a[k];
  }

  /** The text after the quoted project file: nothing, or the quoted `CONFIG+=` setting. */
  function ParseExtraConfig(tail: string): Option<string> {
    var opener := " \"" + ConfigPrefix;
    if tail == [] then Some("")
    else if |tail| > |opener| + 1 && tail[..|opener|] == opener && tail[|tail| - 1] == '"' then
      Some(tail[|opener|..|tail| - 1])
    else None
  }

  /**
   * Reads a command line back into (binary, project file, extra
   * configuration): the binary runs to the first space, the project file is
   * the quoted text after it, and anything further must be the quoted
   * `CONFIG+=` setting.
   */
  function ParseQMakeCall(call: string): Option<(string, string, string)> {
    var sp := IndexOf(call, ' ');
    if sp + 1 >= |call| || call[sp + 1] != '"' then None
    else
      var rest := call[sp + 2..];
      var q := IndexOf(rest, '"');
      if q == |rest| then None
      else
        match ParseExtraConfig(rest[q + 1..])
        case None => None
        case Some(extra) => Some((call[..sp], rest[..q], extra))
  }

  /** The rendering of extra configuration that `BuildQMakeCall` appends. */
  function ExtraConfigText(extraConfig: string): string {
    if extraConfig == [] then "" else " \"" + ConfigPrefix + extraConfig + "\""
  }

  lemma ParseExtraConfigText(extraConfig: string)
    ensures ParseExtraConfig(ExtraConfigText(extraConfig)) == Some(extraConfig)
  {
  }

  /** The binary ends at the first space, and the quoted part follows it. */
  lemma CallLayout(qmakeBin: string, rest: string)
    requires ' ' !in qmakeBin
    ensures var call := qmakeBin + " \"" + rest;
      && IndexOf(call, ' ') == |qmakeBin| && |qmakeBin| + 1 < |call| && call[|qmakeBin| + 1] == '"'
      && call[..|qmakeBin|] == qmakeBin && call[|qmakeBin| + 2..] == rest
  {
    var call := qmakeBin + " \"" + rest;
    assert call == qmakeBin + [' '] + ("\"" + rest);
    IndexOfAfter(qmakeBin, ' ', "\"" + rest);
  }

  /** The project file ends at the first quote, and the tail follows it. */
  lemma QuotedLayout(projectFile: string, tail: string)
    requires '"' !in projectFile
    ensures var rest := projectFile + "\"" + tail;
      && IndexOf(rest, '"') == |projectFile|
      && rest[..|projectFile|] == projectFile && rest[|projectFile| + 1..] == tail
  {
    IndexOfAfter(projectFile, '"', tail);
  }

  /** Parsing stops at the binary's end and at the project file's closing quote. */
  lemma ParseLayout(qmakeBin: string, projectFile: string, tail: string)
    requires ' ' !in qmakeBin && '"' !in projectFile
    ensures ParseQMakeCall(qmakeBin + " \"" + projectFile + "\"" + tail) ==
      match ParseExtraConfig(tail)
      case None => None
      case Some(extra) => Some((qmakeBin, projectFile, extra))
  {
    var rest := projectFile + "\"" + tail;
    assert qmakeBin + " \"" + projectFile + "\"" + tail == qmakeBin + " \"" + rest;
    CallLayout(qmakeBin, rest);
    QuotedLayout(projectFile, tail);
  }

  /**
   * The command line is unambiguous: when the binary has no space and the
   * project file no quote, the three inputs are recovered from it.
   */
  lemma ParseBuildQMakeCall(qmakeBin: string, projectFile: string, extraConfig: string)
    requires ' ' !in qmakeBin && '"' !in projectFile
    ensures ParseQMakeCall(BuildQMakeCall(qmakeBin, projectFile, extraConfig)) == Some((qmakeBin, projectFile, extraConfig))
  {
    assert BuildQMakeCall(qmakeBin, projectFile, extraConfig) ==
      qmakeBin + " \"" + projectFile + "\"" + ExtraConfigText(extraConfig);
    ParseLayout(qmakeBin, projectFile, ExtraConfigText(extraConfig));
    ParseExtraConfigText(extraConfig);
  }
}
