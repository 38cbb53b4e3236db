# qmake build step — Dafny model

A model of the Jenkins "QMake Build" builder from the qmakebuilder plugin.
It covers the three parts with real logic. The first turns the configured
project-file path into a checked file path. The second assembles the qmake
command line. The third is the build step: it runs qmake and then the
platform's make tool, fail-fast, and reports a boolean. It also covers the
form check of the project-file field.

- `results.dfy`: `Option` (a Java reference that may be null) and `Result` (a value or the exception thrown instead).
- `text.dfy`: `trim` and `replaceAll` of `java.lang.String`. `trim` strips characters at or below U+0020 at both ends. `replaceAll` is modelled with a literal pattern. Two definitions there exist only to state properties: `Occurs` says that a pattern occurs in a string, and `JoinWith` glues pieces together with a separator.
- `builder_impl.dfy`: class `QmakeBuilderImpl`. The substitution loop of `preparePath` is proved equal to the fold `Substitute`, and `preparePath` as a whole to the function `ResolvePath`. `buildQMakeCall` is a function, and `ParseQMakeCall` reads its output back.
- `builder.dfy`: class `QmakeBuilder` and its `perform`, proved equal to the function `BuildStep`. A recording `Launcher` stands for the host launcher. `doCheckProjectFile` is the function `CheckProjectFile`.

The environment is a sequence of (name, value) entries in the map's iteration order.
The filesystem is a `FileSystem` value of oracles. It holds the sets of paths that
`isAbsolute`, `exists`, `canRead` and `isDirectory` accept. It also holds the
`getParent` function and the directory that `getAbsolutePath` resolves against. The n-th launch made through a `Launcher`
yields `respond(n)`: an exit code, or an I/O or interruption exception.

Facts about this revision of the code that the model keeps:
- the qmake command line carries no `-r` flag;
- extra configuration is emitted as one quoted argument ` "CONFIG+=<extra>"`;
- a relative path is joined to the workspace with `/`, on every platform;
- the qmake binary is the global override when it is set and non-empty, and `qmake` otherwise; nothing looks at `QTDIR`, and the override is not checked for existence;
- a missing `WORKSPACE` entry is rendered as the text `null`, as Java string concatenation does (`WorkspaceText`).

## Model

| member | source | states |
|---|---|---|
| Text.Trim | src/main/java/hudson/plugins/qmake/QmakeBuilderImpl.java:34 | the trimmed path is the slice of the input that starts after its leading blanks; only blanks precede and follow it, and it neither starts nor ends with a blank (a character at or below the space) |
| Text.TrimStart | src/main/java/hudson/plugins/qmake/QmakeBuilderImpl.java:34 | the result is a suffix of the input that does not start with a trimmable character, and everything dropped before it is trimmable |
| Text.TrimEnd | src/main/java/hudson/plugins/qmake/QmakeBuilderImpl.java:34 | the result is a prefix of the input that does not end with a trimmable character, and everything dropped after it is trimmable |
| Text.TrimIgnoresSurroundingBlanks | src/main/java/hudson/plugins/qmake/QmakeBuilderImpl.java:34 | adding whitespace before and after a string never changes its trimmed form |
| Text.ReplaceAll | src/main/java/hudson/plugins/qmake/QmakeBuilderImpl.java:37 | `replaceAll` with a literal pattern, scanning left to right and replacing non-overlapping occurrences; it carries no contract, and the four lemmas below state what it does |
| Text.ReplaceAllWithoutOccurrence | src/main/java/hudson/plugins/qmake/QmakeBuilderImpl.java:37 | a string in which the pattern does not occur is left unchanged |
| Text.ReplaceAllWithoutLead | src/main/java/hudson/plugins/qmake/QmakeBuilderImpl.java:37 | a string without the pattern's first character is left unchanged |
| Text.ReplaceAllAtFirstOccurrence | src/main/java/hudson/plugins/qmake/QmakeBuilderImpl.java:37 | for a pattern whose first character does not recur inside it: the text before the first occurrence is kept, that occurrence becomes the replacement, and the scan goes on after it |
| Text.ReplaceAllEveryOccurrence | src/main/java/hudson/plugins/qmake/QmakeBuilderImpl.java:37 | for such a pattern: with the text cut at its occurrences into pieces that hold no occurrence, every occurrence becomes the replacement and every piece is kept |
| BuilderImpl.AbsolutePath | src/main/java/hudson/plugins/qmake/QmakeBuilderImpl.java:21 | `getAbsolutePath` on Unix: an absolute path is itself; a relative one stays whole at the end, behind the user directory and a `/` (the root `/` gets no second `/`); the empty path becomes the user directory |
| BuilderImpl.Lookup | src/main/java/hudson/plugins/qmake/QmakeBuilderImpl.java:42 | a variable's value is found exactly when some entry has that name, and then it is the value of the first entry with that name |
| BuilderImpl.WorkspaceText | src/main/java/hudson/plugins/qmake/QmakeBuilderImpl.java:42 | the value of the first `WORKSPACE` entry, or the text `null` exactly when there is no such entry |
| BuilderImpl.Substitute | src/main/java/hudson/plugins/qmake/QmakeBuilderImpl.java:35-38 | the substitution loop as a fold over the entries; a path containing no `$` comes out unchanged, for every environment |
| BuilderImpl.Anchor | src/main/java/hudson/plugins/qmake/QmakeBuilderImpl.java:40-43 | the path is kept whole at the end; it is left alone exactly when it is absolute, and otherwise prefixed by the workspace text and `/` |
| BuilderImpl.Process | src/main/java/hudson/plugins/qmake/QmakeBuilderImpl.java:17-23 | `CHECK_FILE_EXISTS` passes exactly when the file exists and is readable; otherwise it fails with FileNotFound carrying the absolute path |
| BuilderImpl.ResolvePath | src/main/java/hudson/plugins/qmake/QmakeBuilderImpl.java:33-47 | the result is the trimmed, substituted and anchored path, and the file there exists and is readable; otherwise the error names that path made absolute and the file is missing or unreadable |
| BuilderImpl.SubstituteSingleEntry | src/main/java/hudson/plugins/qmake/QmakeBuilderImpl.java:35-38 | with the single entry (k, v) and a name k without `$`, every `$k` becomes v and the text between occurrences is kept, other `$` references included |
| BuilderImpl.SubstitutionOrderMatters | src/main/java/hudson/plugins/qmake/QmakeBuilderImpl.java:35-38 | substitution follows the map's iteration order: with FOO before FOOBAR, `$FOOBAR` becomes `xBAR`, and with FOOBAR first it becomes `y` |
| BuilderImpl.ResolveIgnoresSurroundingBlanks | src/main/java/hudson/plugins/qmake/QmakeBuilderImpl.java:34 | whitespace around the configured path never changes the resolved path or the error |
| BuilderImpl.ResolveAbsoluteLiteral | src/main/java/hudson/plugins/qmake/QmakeBuilderImpl.java:40-46 | an absolute, `$`-free, readable path resolves to itself (trimmed), with no workspace prefix |
| BuilderImpl.ResolveRelativeLiteral | src/main/java/hudson/plugins/qmake/QmakeBuilderImpl.java:40-46 | a relative, `$`-free path becomes WORKSPACE + "/" + path, which is returned if readable and reported missing otherwise |
| BuilderImpl.QmakeBuilderImpl.SubstituteVariables | src/main/java/hudson/plugins/qmake/QmakeBuilderImpl.java:35-38 | the loop over the entries, replacing one marker per step, yields exactly the substitution fold `Substitute`, entries taken in iteration order |
| BuilderImpl.QmakeBuilderImpl.PreparePath | src/main/java/hudson/plugins/qmake/QmakeBuilderImpl.java:33-47 | the loop that substitutes one entry per step, followed by anchoring and validation, returns exactly `ResolvePath` |
| BuilderImpl.BuildQMakeCall | src/main/java/hudson/plugins/qmake/QmakeBuilderImpl.java:49-57 | the call starts with binary, space and quoted project file; that is all of it when there is no extra config, and otherwise it is followed by exactly ` "CONFIG+=<extra>"` |
| BuilderImpl.ParseBuildQMakeCall | src/main/java/hudson/plugins/qmake/QmakeBuilderImpl.java:49-57 | if the binary has no space and the project file no quote, the binary, the project file and the extra config can all be read back from the call |
| Builder.Launcher.Run | src/main/java/hudson/plugins/qmake/QmakeBuilder.java:104-105 | each launch is appended to the launcher's record with its command, environment and directory, and yields the host's next outcome |
| Builder.QmakeBin | src/main/java/hudson/plugins/qmake/QmakeBuilder.java:88-93 | the binary is the global path when it is set and non-empty, else "qmake"; it is never empty |
| Builder.MakeTool | src/main/java/hudson/plugins/qmake/QmakeBuilder.java:108-109 | the make tool is "make" exactly on Unix, and "nmake" otherwise |
| Builder.ToolRuns | src/main/java/hudson/plugins/qmake/QmakeBuilder.java:103-124 | one or two launches: qmake first; make only after qmake exits with 0, in the same directory and environment; success exactly when both exit with 0, so an exception is never success |
| Builder.LaunchTools | src/main/java/hudson/plugins/qmake/QmakeBuilder.java:103-124 | the try block adds exactly the launches of `ToolRuns` to the launcher's record and returns its verdict, for the launcher's next two outcomes |
| Builder.BuildProject | src/main/java/hudson/plugins/qmake/QmakeBuilder.java:88-124 | after resolution, the qmake call uses the override-or-"qmake" binary on the resolved file, runs in that file's parent directory, and the launches and verdict are exactly those of `ToolRuns` |
| Builder.BuildStep | src/main/java/hudson/plugins/qmake/QmakeBuilder.java:61-125 | at most two launches; none after a path error; qmake first; make only after qmake exits 0, in the same directory and environment; success exactly when the path resolves and both exit with 0 (an exception is never success) |
| Builder.QmakeBuilder.constructor | src/main/java/hudson/plugins/qmake/QmakeBuilder.java:41-47 | the builder keeps its project file and extra config, clean build is off, and the helper object exists |
| Builder.QmakeBuilder.EnsureBuilderImpl | src/main/java/hudson/plugins/qmake/QmakeBuilder.java:64-66 | the helper object exists afterwards, and an existing one is kept |
| Builder.QmakeBuilder.Perform | src/main/java/hudson/plugins/qmake/QmakeBuilder.java:61-125 | the helper object exists afterwards; the verdict and the launches added to the launcher's record are exactly those of `BuildStep` for the launcher's next two outcomes |
| Builder.CheckProjectFile | src/main/java/hudson/plugins/qmake/QmakeBuilder.java:160-172 | an empty value is an error, a directory is an error, anything else is ok, and the "too short" warning is never produced |

## Left out

- `String.replaceAll` is modelled as literal replacement. The source compiles `\$` + key as a regular expression, and `$` or `\` in the value act as replacement syntax. The model assumes that keys contain no regex metacharacters and that values contain no `$` or `\`.
- `EnvVars` looks keys up case-insensitively. `Lookup` matches names exactly, and returns the first entry with the name.
- Real filesystem behaviour is left to the `FileSystem` oracles. This covers `File.isAbsolute`, `exists`, `canRead`, `isDirectory` and `getParent`, and the normalisation in `File.getPath`, which is taken to return its input. `AbsolutePath` follows the Unix rule of `getAbsolutePath` and does not normalise `.` or `..`.
- The working directory: the host's `FilePath(workspace, parent)` is reduced to the parent directory of the resolved project file. Resolving a relative parent against the workspace `FilePath` is not modelled.
- Process launching (`Launcher.launch`, `Proc.join`) becomes the `Launcher` oracle. Whether a failure came from the launch or from the join is not distinguished. Either one is a `Threw` outcome of that launch.
- Logging to the build listener and `printStackTrace` are output only and are not modelled.
- The descriptor's persistence is not modelled: `load`, `save`, `configure` and `getDisplayName`. The persisted global qmake path is passed to `Perform` as an `Option<string>`.
- The getters and the `cleanBuild` flag are not modelled beyond storing the flag. The source never acts on the flag.
- Java `null` for the configured project file or extra config (a `NullPointerException` in the source) is not modelled. Strings are always present.
