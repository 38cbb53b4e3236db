/**
 * The build step (class QmakeBuilder): resolve the project file, run qmake,
 * then run the platform's make tool in the same directory, and report
 * success only when both exit with status 0.
 */
module Builder {
  import opened Results
  import opened BuilderImpl

  /** The exceptions a launch or a join can raise. */
  datatype Fault = IOFault | Interrupted

  /** What one `launcher.launch(..)` followed by `proc.join()` yields. */
  datatype LaunchOutcome = Exited(code: int) | Threw(fault: Fault)

  /** One process launch: the command line, its environment and working directory. */
  datatype Launch = Launch(command: string, env: Env, workDir: string)

  /** The verdict of `perform` and the launches it made, in order. */
  datatype StepResult = StepResult(success: bool, launches: seq<Launch>)

  /** The host's process launcher. Every launch is recorded; the n-th one yields `respond(n)`. */
  class Launcher {
    const isUnix: bool
    const respond: nat -> LaunchOutcome
    var history: seq<Launch>

    constructor (isUnix: bool, respond: nat -> LaunchOutcome)
      ensures this.isUnix == isUnix && this.respond == respond && history == []
    {
      this.isUnix := isUnix;
      this.respond := respond;
      history := [];
    }

    /** Starts `command` and waits for it. */
    method Run(command: string, env: Env, workDir: string) returns (outcome: LaunchOutcome)
      modifies this`history
      ensures history == old(history) + [Launch(command, env, workDir)]
      ensures outcome == respond(|old(history)|)
    {
      outcome := respond(|history|);
      history := history + [Launch(command, env, workDir)];
    }
  }

  const QMAKE := "qmake"

  /** The qmake binary: the global override when it is set and non-empty, else "qmake". */
  function QmakeBin(qmakePath: Option<string>): (bin: string)
    ensures bin != []
    ensures bin == QMAKE <==> (qmakePath.None? || qmakePath.value == [] || qmakePath.value == QMAKE)
    ensures bin != QMAKE ==> qmakePath == Some(bin)
  {
    if qmakePath.Some? && |qmakePath.value| > 0 then qmakePath.value else QMAKE
  }

  /** The make tool: "make" on Unix, "nmake" elsewhere. */
  function MakeTool(isUnix: bool): (tool: string)
    ensures tool == "make" <==> isUnix
    ensures !isUnix ==> tool == "nmake"
  {
    if isUnix then "make" else "nmake"
  }

  /**
   * The launches inside `perform`'s try block, given the two outcomes the
   * launcher would yield: qmake first, then make only after qmake exited
   * with 0, in the same directory and environment. An exception counts as
   * failure like a non-zero exit.
   */
  function ToolRuns(qmakeCall: string, env: Env, workDir: string, isUnix: bool,
                    first: LaunchOutcome, second: LaunchOutcome): (r: StepResult)
    ensures 1 <= |r.launches| <= 2
    ensures r.launches[0] == Launch(qmakeCall, env, workDir)
    ensures |r.launches| == 2 <==> first == Exited(0)
    ensures |r.launches| == 2 ==> r.launches[1] == Launch(MakeTool(isUnix), env, workDir)
    ensures r.success <==> first == Exited(0) && second == Exited(0)
  {
    var qmake := Launch(qmakeCall, env, workDir);
    if first != Exited(0) then StepResult(false, [qmake])
    else StepResult(second == Exited(0), [qmake, Launch(MakeTool(isUnix), env, workDir)])
  }

  /**
   * What `perform` does: at most two launches, none after a path error, qmake
   * on the resolved file first, make only after qmake exited with 0 and in the
   * same directory and environment, and success exactly when the path
   * resolves and both tools exit with 0.
   */
  function BuildStep(projectFile: string, extraConfig: string, qmakePath: Option<string>, env: Env,
                     fs: FileSystem, isUnix: bool, first: LaunchOutcome, second: LaunchOutcome): (r: StepResult)
    ensures var path := ResolvePath(env, projectFile, CheckFileExists, fs);
      && |r.launches| <= 2
      && (r.success <==> path.Ok? && first == Exited(0) && second == Exited(0))
      && (path.Err? ==> r.launches == [])
      && (path.Ok? ==>
            && |r.launches| >= 1
            && r.launches[0] == Launch(BuildQMakeCall(QmakeBin(qmakePath), path.value, extraConfig), env, fs.parent(path.value)))
      && (|r.launches| == 2 <==> path.Ok? && first == Exited(0))
      && (|r.launches| == 2 ==> r.launches[1] == r.launches[0].(command := MakeTool(isUnix)))
  {
    match ResolvePath(env, projectFile, CheckFileExists, fs)
    case Err(_) => StepResult(false, [])
    case Ok(p) => ToolRuns(BuildQMakeCall(QmakeBin(qmakePath), p, extraConfig), env, fs.parent(p), isUnix, first, second)
  }

  /** A path error ends the step before anything is launched. */
  lemma BuildStepOnPathError(projectFile: string, extraConfig: string, qmakePath: Option<string>, env: Env,
                              fs: FileSystem, isUnix: bool, first: LaunchOutcome, second: LaunchOutcome)
    requires ResolvePath(env, projectFile, CheckFileExists, fs).Err?
    ensures BuildStep(projectFile, extraConfig, qmakePath, env, fs, isUnix, first, second) == StepResult(false, [])
  {
  }

  /** A resolved path leads to the tool runs on that file, in its parent directory. */
  lemma BuildStepOnPath(projectFile: string, extraConfig: string, qmakePath: Option<string>, env: Env,
                        fs: FileSystem, isUnix: bool, first: LaunchOutcome, second: LaunchOutcome, path: string)
    requires ResolvePath(env, projectFile, CheckFileExists, fs) == Ok(path)
    ensures BuildStep(projectFile, extraConfig, qmakePath, env, fs, isUnix, first, second) ==
      ToolRuns(BuildQMakeCall(QmakeBin(qmakePath), path, extraConfig), env, fs.parent(path), isUnix, first, second)
  {
  }

  /** The try block of `perform`: run qmake, then make unless qmake failed. */
  method LaunchTools(qmakeCall: string, env: Env, workDir: string, launcher: Launcher) returns (ok: bool)
    modifies launcher`history
    ensures var n := |old(launcher.history)|;
      var runs := ToolRuns(qmakeCall, env, workDir, launcher.isUnix, launcher.respond(n), launcher.respond(n + 1));
      ok == runs.success && launcher.history == old(launcher.history) + runs.launches
  {
    var outcome := launcher.Run(qmakeCall, env, workDir);
    if outcome.Threw? || outcome.code != 0 {
      return false;
    }

    var makeExe := "make";
    if !launcher.isUnix {
      makeExe := "nmake";
    }
    outcome := launcher.Run(makeExe, env, workDir);
    if outcome.Threw? || outcome.code != 0 {
      return false;
    } else {
      return true;
    }
  }

  /**
   * The part of `perform` after the project file is resolved: pick the qmake
   * binary, assemble its call, and run the tools in the project file's
   * directory.
   */
  method BuildProject(path: string, extraConfig: string, qmakePath: Option<string>, fs: FileSystem, env: Env,
                      launcher: Launcher) returns (ok: bool)
    modifies launcher`history
    ensures var n := |old(launcher.history)|;
      var runs := ToolRuns(BuildQMakeCall(QmakeBin(qmakePath), path, extraConfig), env, fs.parent(path),
                           launcher.isUnix, launcher.respond(n), launcher.respond(n + 1));
      ok == runs.success && launcher.history == old(launcher.history) + runs.launches
  {
    var qmakeBin := QMAKE;
    if qmakePath.Some? && |qmakePath.value| > 0 {
      qmakeBin := qmakePath.value;
    }
    var qmakeCall := BuildQMakeCall(qmakeBin, path, extraConfig);
    var workDir := fs.parent(path);
    ok := LaunchTools(qmakeCall, env, workDir, launcher);
  }

  class QmakeBuilder {
    var projectFile: string
    var extraConfig: string
    var cleanBuild: bool
    var builderImpl: QmakeBuilderImpl?

    constructor (projectFile: string, extraConfig: string)
      ensures this.projectFile == projectFile && this.extraConfig == extraConfig
      ensures !cleanBuild && builderImpl != null
    {
      this.projectFile := projectFile;
      this.extraConfig := extraConfig;
      cleanBuild := false;
      builderImpl := new QmakeBuilderImpl();
    }

    /** The helper object is created when it is missing (after deserialisation). */
    method EnsureBuilderImpl()
      modifies this`builderImpl
      ensures builderImpl != null && (old(builderImpl) != null ==> builderImpl == old(builderImpl))
    {
      if builderImpl == null {
        builderImpl := new QmakeBuilderImpl();
      }
    }

    /**
     * `perform`: the global qmake path and the build's environment are
     * inputs; the helper object is created on first use.
     */
    method Perform(env: Env, fs: FileSystem, qmakePath: Option<string>, launcher: Launcher) returns (ok: bool)
      modifies this`builderImpl, launcher`history
      ensures builderImpl != null && (old(builderImpl) != null ==> builderImpl == old(builderImpl))
      ensures var n := |old(launcher.history)|;
        var step := BuildStep(projectFile, extraConfig, qmakePath, env, fs, launcher.isUnix,
                              launcher.respond(n), launcher.respond(n + 1));
        ok == step.success && launcher.history == old(launcher.history) + step.launches
    {
      ghost var n := |launcher.history|;
      EnsureBuilderImpl();
      var theProjectFile := builderImpl.PreparePath(env, projectFile, CheckFileExists, fs);
      if theProjectFile.Err? {
        BuildStepOnPathError(projectFile, extraConfig, qmakePath, env, fs, launcher.isUnix,
                             launcher.respond(n), launcher.respond(n + 1));
        return false;
      }
      var path := theProjectFile.value;
      BuildStepOnPath(projectFile, extraConfig, qmakePath, env, fs, launcher.isUnix,
                      launcher.respond(n), launcher.respond(n + 1), path);
      ok := BuildProject(path, extraConfig, qmakePath, fs, env, launcher);
    }
  }

  /** A form-field verdict. */
  datatype FormValidation = FormOk | FormWarning(message: string) | FormError(message: string)

  /**
   * `DescriptorImpl.doCheckProjectFile`: an empty value or a directory is an
   * error, anything else is accepted. The "too short" warning is guarded by a
   * test that the empty check has already excluded, so it is never given.
   */
  function CheckProjectFile(value: string, fs: FileSystem): (v: FormValidation)
    ensures !v.FormWarning?
    ensures v.FormOk? <==> value != [] && value !in fs.directories
    ensures value == [] ==> v == FormError("Please set a project file")
    ensures value != [] && value in fs.directories ==> v == FormError("Project file is a directory")
  {
    if |value| == 0 then FormError("Please set a project file")
    else if |value| < 1 then FormWarning("Isn't the name too short?")
    else if value in fs.directories then FormError("Project file is a directory")
    else FormOk
  }
}
