# workbench-toolbelt, modelled in Dafny

workbench-toolbelt is a set of utility scripts for a SARS-CoV-2 analysis
workbench (IRIDA plugins plus Galaxy tools). It does five things:

- Downloads the IRIDA plugin jars from the GitHub releases of the
  `combat-sars-cov-2` organisation.
- Expands the jars, and any jars nested inside them, into
  `sources/plugins/<name>.contents` directories.
- Finds the `tools.yaml` manifest inside every expanded plugin.
- Turns every manifest entry into a `shed-tools install` command for Galaxy.
- Provides two helpers:
  - `complete_metadata` prints pip-style `name==version` requirement strings
    from Tool Shed metadata;
  - `requirements_to_conda_env_yml.py` turns a requirements file into a conda
    environment.

The model covers the working copies in `workbench.py`, the library copies in
`lib/`, and the conda script. Each core operation is written the way the
program runs it, with a specification function beside it:

- loops become methods with loop invariants;
- the file system is a value that a class updates in place;
- the outside world is given as input values: the GitHub organisation, the
  Tool Shed answer, the lines of the requirements file and the process
  launcher.

Each module, one per file:

| module | what it models |
|---|---|
| `Wrappers` | `Option` and `Result`. |
| `Text` | The Python string operations the scripts use: `split`, `join`, `rstrip`, `startswith`, slicing, and string ordering. |
| `Paths` | `os.path.join`, `basename` and `dirname`. |
| `Yaml` | Parsed YAML and JSON values, and ordered dict lookup. |
| `Files` | The directory tree: `os.makedirs`, `ensure_dir`, `open(..., "wb")`, `os.walk`, `os.listdir`. |
| `Archives` | `is_archive`, `get_expanded_dir_name`, and the mutual recursion of `unzip` and `walk_files`. Also `extract_jar`, and the class `PluginStore` that performs these step by step. |
| `Manifests` | `get_fullpath_for_tool_yaml`, `read_tool_set_file`, `read_from_plugins`. |
| `Install` | The `shed-tools install` command words and the install loop. |
| `Releases` | The release selection and asset saving of `download_jar`. |
| `ToolShed` | `complete_metadata`. |
| `CondaEnv` | `write_yaml` and the main block of `requirements_to_conda_env_yml.py`. |

The library copies are broken, so where `workbench.py` and `lib/` duplicate a
helper, the model follows `workbench.py`:

- `lib/tools.py:16` calls a two-argument function with one argument.
- `lib/tools.py:46-53` uses names that are never defined.
- `lib/utils.py` uses `subprocess` and `GithubException` without importing
  them.

Behaviours of the code worth knowing:

- **Nested archives are not expanded inside their parent's tree.** Every
  archive, nested or not, expands into `PATH_TO_PLUGINS + basename +
  ".contents"`. Two archives with the same base name share one directory.
- **A failed release lookup aborts the whole download**, not just that
  repository.
- **An exception while building or launching an install command aborts all
  remaining tools.** A non-zero exit status of `shed-tools` is ignored.
- **Archive expansion has no cycle guard.** A nested archive named like its
  ancestor, anywhere below its target directory, is expanded again into the
  same directory until Python's recursion limit stops the run. So are two
  archives that each hold the other.

## Model

| member | source | states |
|---|---|---|
| Archives.IsArchiveMeans | workbench.py:166-173 | A name is an archive exactly when its last four characters are ".jar". ".JAR" and "jar" are rejected; ".jar" alone is accepted. |
| Archives.PathToPlugins | workbench.py:22-23 | The plugin directory is never empty and ends in "/", whatever the current directory. |
| Archives.ExpandedDirIsFlat | workbench.py:176-181 | The target of any path is `PATH_TO_PLUGINS + basename + ".contents"`. Its base name is `basename + ".contents"` and its parent is the plugin directory, whatever the parent archive was. |
| Archives.WalkUnzipsArchives | workbench.py:152-163 | Walking a directory calls `unzip` on exactly the walked files that are archives, in walk order. |
| Archives.UnzipAllCalls | workbench.py:127-133 | A completed `extract_jar` loop makes one `unzip` call per listed file, in order. |
| Archives.UnzipKeepsKind | workbench.py:136-149 | Expansion never removes a file or directory, and never turns one into the other. |
| Archives.WalkKeepsKind | workbench.py:152-163 | The same holds for a whole walk. |
| Archives.UnzipFailsOnlyAtLimit | workbench.py:136-149 | With a step that never raises, the only way `unzip` fails is by reaching the recursion limit. A failed extractor does not stop it. |
| Archives.WalkFailsOnlyAtLimit | workbench.py:152-163 | The same holds for a walk. |
| Archives.StepSucceeds | workbench.py:140-149 | Under a plugin directory ending in "/", the work one `unzip` call does before recursing raises exactly when the plugin directory is missing and its lookup meets a regular file; a failing extractor never raises. |
| Archives.StepWalksTarget | workbench.py:140-149 | After extraction, every regular file reached from the target directory through existing directories, at any depth, is among the walked files. |
| Archives.ExtractedMemberWalked | workbench.py:140-149 | A file member of the archive at the top of the archive lands in the target directory, which is created first when missing, and is among the walked files. |
| Archives.StepOnArchive | workbench.py:140-147 | On an archive, one step makes the target directory when it is missing, writes the members into it and walks it. |
| Archives.UnzipAllFailsOnlyAtLimit | workbench.py:132-133 | With a step that never raises under the plugin directory, the `extract_jar` loop fails only at the recursion limit. |
| Archives.ExtractJarFailsOnlyAtLimit | workbench.py:120-133 | `extract_jar` fails only when listing the plugin directory raises, with that error, or at the recursion limit. |
| Archives.CycleNeverFinishes | workbench.py:136-163 | When every archive of a set, once expanded, reports another archive of the set among its walked files, `unzip` on any of them ends at the recursion limit, whatever the budget. |
| Archives.WalkCycleNeverFinishes | workbench.py:152-163 | A walk that meets an archive of such a set also ends at the recursion limit. |
| Archives.ProgramCycle | workbench.py:136-181 | In the program, archives each of which is reached again, through existing directories, from the target directory of one of them form such a set. |
| Archives.ProgramCycles | workbench.py:136-181 | Expanding any archive of such a set in the program never finishes. |
| Archives.SelfNamedNeverFinishes | workbench.py:136-181 | Expanding an archive `B` found anywhere below `B.contents` never finishes: there is no cycle guard. |
| Archives.MutualNeverFinishes | workbench.py:136-181 | Two archives `a` and `b` with `b` directly in `a.contents` and `a` directly in `b.contents` never finish either. |
| Archives.PluginStore.EnsureDir | workbench.py:111-117 | The tree becomes the one `ensure_dir` gives. When `ensure_dir` raises, the error is returned and the tree is unchanged. |
| Archives.PluginStore.Save | workbench.py:99-107 | `open(path, "wb")` followed by the writes stores the content at the path. Opening a directory raises `IsADirectoryError` and changes nothing. |
| Archives.PluginStore.Expand | workbench.py:140-147 | Performs one step of `unzip`: ensure the directory, run the extractor, list the target. The walked files are those under the target directory. |
| Archives.PluginStore.Unzip | workbench.py:136-149 | The new tree and the result are those of the recursive specification of `unzip`. |
| Archives.PluginStore.Walk | workbench.py:158 | The files `os.walk` reports, top down, from the current tree. |
| Archives.PluginStore.WalkFiles | workbench.py:152-163 | The new tree and the result are those of the specification of `walk_files` over the files walked at the start. |
| Archives.PluginStore.ExtractJar | workbench.py:120-133 | The new tree and the result are those of `extract_jar`: `unzip` on each regular file at the top of the plugin directory. |
| Files.EnsureDirSpec | workbench.py:111-117 | `ensure_dir` raises exactly when the path has no directory part (`FileNotFoundError`), or when the missing parent lies below a regular file (`NotADirectoryError`). Otherwise the parent exists afterwards, calling it again changes nothing, and the leaf itself is not touched. |
| Files.EnsureDirKeepsFile | workbench.py:111-117 | `ensure_dir` leaves every existing file as it was. |
| Files.CreateSpec | workbench.py:99-107 | `open(p, "wb")` fails exactly when the path is empty or a directory (`IsADirectoryError`) or its parent cannot be entered (`NotADirectoryError` below a file, `FileNotFoundError` when missing). Otherwise the file holds the new content and no other path changes. |
| Files.MakeDirsSpec | workbench.py:117 | `os.makedirs(d)` on a missing path raises `NotADirectoryError` exactly when a prefix of the path is a regular file; otherwise `d` is a directory afterwards. |
| Files.MakeDirsKeepsFile | workbench.py:117 | `os.makedirs` never replaces a regular file nor changes what it holds. |
| Files.EnsureDirThenCreate | workbench.py:98-100 | `ensure_dir` followed by `open(..., "wb")` succeeds exactly when no prefix of the parent is a file and the path is not a directory. A parent that is a regular file passes `ensure_dir` and makes `open` raise `NotADirectoryError`. |
| Files.WalkDirs | workbench.py:239 | `os.walk` yields nothing exactly when the top is not a directory. Otherwise the top comes first. |
| Files.FileWalked | workbench.py:158-161 | A regular file directly inside a walked directory is reported. |
| Files.SubWalked | workbench.py:158-161 | What the walk of a subdirectory reports, the walk of its parent reports too. |
| Files.WalkFilesSound | workbench.py:158-161 | Every path the walk reports is a regular-file entry of the tree lying below the top, the converse of Files.WalkedThrough. |
| Files.WalkedThrough | workbench.py:158-161 | A regular file reached through existing directories, at any depth, is reported by the walk. |
| Paths.BasenameSpec | workbench.py:180 | `basename` is the part of the path after its last "/". |
| Paths.DirnameSpec | workbench.py:115 | `dirname` is empty exactly when the path has no "/", and is shorter than a path that does not end in "/". |
| Manifests.ToolYamlBaseIs | workbench.py:236-238 | The search root is `<plugin dir><file>.contents/workflows/`. |
| Manifests.GreatestIsMax | workbench.py:239-241 | The chosen directory is one of the walked paths, and no walked path sorts after it. |
| Manifests.GreatestUnique | workbench.py:240-241 | Any walked path that no other path sorts after is the chosen one. |
| Manifests.VersionsAreNotNumbers | workbench.py:240-241 | Sorting compares strings, so a subfolder "v2" is chosen over "v10". |
| Manifests.ToolYamlPathSpec | workbench.py:234-241 | Locating the manifest fails, with `IndexError`, exactly when the search root is not a directory (missing, or a regular file). Otherwise the path is "tools.yaml" joined to the greatest walked directory, which sorts at or after the root. |
| Manifests.NoSubfolders | workbench.py:239-241 | With no subdirectories, the manifest is `<root>/tools.yaml`. |
| Manifests.ReadToolSetSpec | workbench.py:244-251 | Reading a manifest gives its `tools` list element for element, in order. A manifest without `tools` raises `KeyError`. |
| Manifests.CollectSpec | lib/tools.py:16-17 | A list comprehension succeeds exactly when every element does, and then gives one value per element, in order. Otherwise it raises the error of the first failing element. |
| Manifests.ReadFromPluginsSpec | lib/tools.py:9-17 | `read_from_plugins` gives one tool list per regular file of the plugin directory, in listing order: the tools of that file's manifest. A failed listing is raised as it is. After a good listing it succeeds exactly when every file's manifest can be located and read. |
| Manifests.ReadFromPluginsFirstError | lib/tools.py:16-17 | A failure is the error of the first manifest that cannot be located or, when every one is located, of the first that cannot be read. |
| Manifests.AsWrittenNeverReads | lib/tools.py:16 | As written, any plugin directory holding a file makes `read_from_plugins` raise `TypeError`, even where the working version succeeds. |
| Install.ParseArgsOfArgs | workbench.py:223-226 | The command words can be read back into the login and the tool they were built from. |
| Install.ArgsOfParseArgs | workbench.py:223-226 | Every word sequence that reads as a command is exactly the command built from what it reads as. |
| Install.RevisionsInOrder | workbench.py:225 | The `--revisions` word splits on " " back into the entry's revisions, in manifest order. |
| Install.ToolOfEntry | workbench.py:223-226 | A well-formed entry gives its `tool_shed_url`, `name`, `owner`, its revisions joined by single spaces, and its `tool_panel_section_label`. |
| Install.MissingNameEscapes | workbench.py:229-231 | For an entry without `name`, the handler's own `t['name']` raises `KeyError`, which replaces the `ClickException`. |
| Install.LoopSpec | workbench.py:220-231 | The loop launches one command per entry, in order, until the first exception. It completes exactly when every entry was launched, and otherwise reports the failing entry's exception. |
| Install.LoopAppend | workbench.py:220-221 | The nested loop over plugins is the loop over their concatenation: an exception in one plugin skips all later ones. |
| Install.InstallToolsSpec | workbench.py:205-231 | `install_tools` launches the command of each manifest entry across all plugins, in order, and stops at the first entry that cannot be formatted. A manifest that cannot be read or located aborts before any launch. |
| Install.InstallPlugin | workbench.py:221-231 | The inner loop, with exit statuses discarded, launches exactly what the loop specification says. |
| Install.InstallAll | workbench.py:220-231 | The nested loops launch exactly what the loop over the flattened entries launches. |
| Install.InstallToolsRun | workbench.py:205-231 | The `install_tools` command as run equals its specification. |
| Releases.SelectSpec | workbench.py:68-84 | "latest" selects the latest release, and fails exactly when there is none. Any other version selects a release with exactly that tag, and fails exactly when none has it. A failure names the repository and version. |
| Releases.TaggedSpec | workbench.py:78-79 | Looking up a tag finds a release exactly when one carries that tag. |
| Releases.TargetInPlugins | workbench.py:96 | Every asset is saved as `PATH_TO_PLUGINS + asset.name`. |
| Releases.PlanSkips | workbench.py:65-87 | A repository that is not in the version map, or maps to an empty version, is skipped. A failed lookup ends the plan with that failure, whatever follows. |
| Releases.WantedDefault | workbench.py:42-67 | With the default versions, exactly the two plugin repositories are asked for, each at "latest". |
| Releases.LatestByDefault | workbench.py:41-90 | For any organisation whose plugin repositories all have a latest release, the default download plans the assets of those latest releases, in the organisation's order, and nothing else. |
| Releases.NoLatestFails | workbench.py:65-76 | With the default versions, the first plugin repository without a latest release ends the plan with `ReleaseNotFound` for that repository. |
| Releases.SaveAssetSpec | workbench.py:96-107 | Saving one asset succeeds exactly when no prefix of its directory is a regular file and its target is not a directory, and then stores the asset's content there. A failure is `NotADirectoryError` or `IsADirectoryError`. |
| Releases.SaveAssetsAppend | workbench.py:90-107 | Saving a list of assets is saving its first part, then the rest, stopping at the first failure. |
| Releases.DownloadFollowsPlan | workbench.py:65-108 | The download writes the planned assets in order. A lookup failure ends it after the earlier repositories' assets were written. |
| Releases.SaveAssetsSaved | workbench.py:90-98 | The k-th saved path is `PATH_TO_PLUGINS + name` of the k-th asset. The run completes exactly when every asset was saved. |
| Releases.SaveAssetsFrame | workbench.py:96-107 | Saving leaves every file that is not an asset target unchanged. |
| Releases.SaveAssetsContent | workbench.py:96-107 | After a completed run, each asset's target holds the content of the last asset with that name. |
| Releases.DownloadJar | workbench.py:65-108 | The loop over repositories, run on the store, leaves the tree, saved paths and outcome given by the specification. |
| Releases.SaveOne | workbench.py:96-107 | One asset is saved as the specification of `ensure_dir` then `open(..., "wb")` says. It returns the target path, or the error raised. |
| Releases.SaveRelease | workbench.py:90-107 | The loop over a release's assets leaves the tree, saved paths and outcome given by the specification. |
| ToolShed.FalsyToolRaises | lib/tool_shed.py:19-21 | A missing or empty tool raises before any query, and nothing is printed. |
| ToolShed.RecordWithoutTools | lib/tool_shed.py:24-25 | A metadata record without `valid_tools` prints nothing. |
| ToolShed.RequirementSpecSpec | lib/tool_shed.py:31-36 | A requirement with a version yields exactly `name + "==" + version`. One without a version yields nothing. |
| ToolShed.RequirementsSpec | lib/tool_shed.py:30-36 | Within a tool, the printed lines are the collected specifications. They are the versioned requirements in order, and the loop completes exactly when no requirement raises. |
| ToolShed.ToolsInOrder | lib/tool_shed.py:28-34 | A record's tools all run exactly when none raises. Their specifications are then collected in tool order, then requirement order. |
| ToolShed.ToolStepSpec | lib/tool_shed.py:29-34 | A tool with an id and well-formed requirements prints its id, then its versioned specifications. |
| ToolShed.RecordLine | lib/tool_shed.py:25-37 | A record prints its tools' lines, then one line: all the record's specifications joined by ",". |
| ToolShed.JoinedLineSplits | lib/tool_shed.py:37 | The joined line splits on "," back into the specifications, when none contains a comma. |
| ToolShed.NothingVersioned | lib/tool_shed.py:37 | A record with no versioned requirement still prints its line, and it is empty. |
| ToolShed.RecordsInOrder | lib/tool_shed.py:24-37 | The loop over the records completes exactly when no record raises, and then prints each record's lines in turn. The collected specifications start afresh with every record. |
| ToolShed.RecordsFirstError | lib/tool_shed.py:24-37 | A loop that raises stops at the first record that raises, with that record's error, after printing the lines of every record before it and what that record printed itself. |
| ToolShed.AddRequirements | lib/tool_shed.py:30-36 | The loop over a tool's requirements prints and collects what the specification says. |
| ToolShed.AddTool | lib/tool_shed.py:29-36 | The body of the loop over the tools prints and collects what the specification of one tool says. |
| ToolShed.AddTools | lib/tool_shed.py:28-36 | The loop over a record's tools prints and collects what the specification says. |
| ToolShed.RecordM | lib/tool_shed.py:25-37 | One record, as run, prints what the record specification says. |
| ToolShed.RunRecords | lib/tool_shed.py:24-37 | The loop over the records, as run, prints what the specification says and stops at the first exception. |
| ToolShed.Complete | lib/tool_shed.py:18-37 | `complete_metadata` as run prints the lines, and raises the exception, that the specification gives. |
| CondaEnv.PutSpec | requirements_to_conda_env_yml.py:40 | `d[name] = version` appends a new name and keeps the place of an existing one. The name then maps to the new version, and no other name changes. |
| CondaEnv.PutAllSpec | requirements_to_conda_env_yml.py:39-40 | After the assignments, the names are the old ones plus those assigned. Old names keep their places, and each name holds the version of its last assignment. |
| CondaEnv.PutAllDistinct | requirements_to_conda_env_yml.py:39-40 | The requirements dict never holds a package twice. |
| CondaEnv.LineRoundTrip | requirements_to_conda_env_yml.py:36-38 | The line `name==version` with its line break reads back as that name and version. |
| CondaEnv.LineParts | requirements_to_conda_env_yml.py:38 | A line of parts joined by "==" unpacks exactly when there are two parts. Otherwise it raises `ValueError` with the number of parts, so `a==b==c` fails. |
| CondaEnv.BlankLineFails | requirements_to_conda_env_yml.py:38 | A blank line raises `ValueError`: it strips to one empty part. |
| CondaEnv.ScanSpec | requirements_to_conda_env_yml.py:35-42 | The loop reads the whole file exactly when every non-comment line unpacks, and otherwise raises the first line's error. The requirements are then the dict built from the kept pins, and the excluded list holds the excluded pins in file order. |
| CondaEnv.ScanStops | requirements_to_conda_env_yml.py:35-38 | A line that fails to unpack ends the run, whatever follows. |
| CondaEnv.Partition | requirements_to_conda_env_yml.py:32-42 | Every pin goes to exactly one side. The requirements never hold an excluded name, and the excluded list holds only excluded names. |
| CondaEnv.DependencyParses | requirements_to_conda_env_yml.py:16 | `pkg=version` splits on "=" back into the package and version. |
| CondaEnv.DependenciesSpec | requirements_to_conda_env_yml.py:14-17 | One dependency per dict item, at the same position, each `pkg=version`. |
| CondaEnv.EnvironmentSpec | requirements_to_conda_env_yml.py:9-18 | The keys come in the order `name`, then `channels` only when given, then `dependencies`. The channels joined by "," give back the argument, and the dependencies follow the dict's order. |
| CondaEnv.FooterSpec | requirements_to_conda_env_yml.py:45-48 | There is a footer exactly when a package was excluded. Its lines are a blank, "# packages excluded", `#name==version` per excluded package in file order, and a final line break. |
| CondaEnv.WriteYaml | requirements_to_conda_env_yml.py:9-17 | `write_yaml`, with its loop, builds exactly the environment mapping of the specification. |
| CondaEnv.ReadRequirements | requirements_to_conda_env_yml.py:30-42 | The main loop, as run, fills the requirements and the excluded list, or raises, as the specification of the loop says. |
| CondaEnv.Run | requirements_to_conda_env_yml.py:30-48 | The script gives the environment and the footer of the specification, or the first `ValueError`. |
| Text.SplitJoin | requirements_to_conda_env_yml.py:13 | Splitting joined parts gives the parts back, when no part holds the separator's first character. |
| Text.JoinSplit | requirements_to_conda_env_yml.py:13 | Joining the parts of a split gives the string back. |
| Text.RStrip | requirements_to_conda_env_yml.py:38 | `rstrip` keeps a prefix that does not end in white space, and drops only white space. |
| Text.LessEqTotal | workbench.py:240 | Any two paths are ordered one way or the other. |
| Text.LessEqTransitive | workbench.py:240 | The ordering `sorted` uses is transitive. |
| Text.LessEqAntisymmetric | workbench.py:240 | Two paths ordered both ways are equal, so the greatest walked path is unique. |
| Yaml.GetKeys | lib/tool_shed.py:25 | `key in d` holds exactly when `d[key]` finds a value. |

## Left out

- **The network.** The GitHub client, `urllib` and `tqdm` are not modelled. The organisation's repositories, releases and asset contents are input values, and a failed release lookup is a value.
- **Unreachable code.** `release is None` after a successful lookup cannot happen and is not modelled. `Github(token)` construction errors are not modelled either.
- **External processes.** The `unzip` and `shed-tools` processes are not run. Extraction writes the members of an archive value, and the installer is a function whose exit status the program discards.
  - The failure to spawn a process is not modelled.
  - Shell quoting and word splitting of the commands are not modelled; a command is its sequence of words.
- **The Tool Shed query.** `basic_metadata` is a network call. Its answer, the list of metadata records, is an input.
- **YAML.** `yaml.load` and `yaml.dump` are a library. Manifests are parsed values, and the conda environment is the ordered mapping handed to `yaml.dump`, not its text.
- **Output.** Writing the output file, and what `print` shows, are not modelled, except as the sequence of printed lines.
- **The command line.** Logging, `argparse` and click option defaults, and environment configuration are not modelled.
- **Walk snapshot.** `os.walk` is lazy. The model takes the walk of a directory as a snapshot at the moment the walk starts, so files that a nested `unzip` adds to a directory still being walked are not seen by that walk.
- **Recursion depth.** Python's recursion limit is a `depth` budget. Reaching it raises and ends the run, but the exact limit Python would hit is a parameter, not 1000 frames.
- **Unicode.** Python's `str.isspace` is modelled for ASCII, the Latin-1 spaces and the Unicode space separators. `repr` of strings that need escaping is not modelled.
- Install.Show: shows Python scalars by their `str()` text, and quotes strings inside lists and mappings with single quotes only; escapes and double-quote selection of `repr` are left out.
- ToolShed.Truthy: Python truth of scalars covers the texts "None", "False", "0", "0.0", "-0.0" and "0j"; other spellings of zero are treated as true.
- **The `unzip` process.** Existing files are overwritten without the prompt `unzip` would show. A member's path is joined to the target directory as it is written; the process's own handling of absolute and ".." member paths is not modelled.
- **Listing order.** `os.listdir` and `os.walk` return entries in an order the operating system leaves unspecified. The model fixes one: the order in which the entries were created. This choice decides which archive is expanded first, which member write wins when two archives share a `<basename>.contents` target, and the order of the `read_from_plugins` results and of the install commands.
- **Path normalisation.** "." and ".." components are not resolved; a path is looked up name by name as written.
- Files.MakeDirsSpec: stated for a path without a trailing "/", which is the only form `ensure_dir` hands to `os.makedirs` here.
- Archives.ExtractedMemberWalked: covers members at the top of the archive; members in sub-folders of the archive are covered by Archives.StepWalksTarget once they are on disk.
- **Not part of this model.** `cli.py` only delegates to the library functions. `lib/toolshed.py` is dead code whose logic sits in comments. `deploy_plugin` and `install_wf` are empty.

## Findings

| source | as written | input that shows it | evidently intended | confidence | as-written member | corrected member |
|---|---|---|---|---|---|---|
| lib/tools.py:16 | `get_fullpath_for_tool_yaml(f)` is called with one argument, but the function at lib/tools.py:20 takes two, so the call raises `TypeError` | a plugin directory holding any regular file, e.g. `plugin.jar` with a valid manifest | pass `irida_plugin_path` as the second argument, as `workbench.py:216` does with its own one-argument locator | high, not executed | Manifests.AsWrittenNeverReads | Manifests.ReadFromPluginsSpec |
