# omni-run core, modelled in Dafny

omni-run (`omni_run.py`, class `OmniRun`) is a launcher that walks a project
tree and finds the files that look like programs. It works out which ecosystem
each file belongs to, which interpreters and dependencies that file needs, how
likely it is to be the project's entry point, and what sits around it:

- a virtual environment, conda, docker-compose or Docker;
- Makefile, justfile, npm-script and Taskfile task runners;
- a web framework.

It then ranks the programs by that score. It can also repair missing
dependencies: it runs the proposed fix commands in the program's directory,
backs that directory up first (with a git stash or by copying its key
manifests), and rolls back when a fix fails.

This project models that core as Dafny modules, one per concern:

| module | file | models |
|---|---|---|
| `Registry` | registry.dfy | the ecosystem table (`executable_patterns`): extensions, interpreters, config files |
| `Text` | text.dfy | the string operations the core uses (`lower`, `strip`, `in`, `split`, slicing) |
| `FileTree` | filetree.dfy | a snapshot of the file system: directories, files, their text and parsed manifests |
| `Records` | records.dfy | the records `DependencyCheck`, `Environment`, `TaskRunner`, `Framework`, `ExecutableProgram` |
| `Probe` | probe.dfy | `check_interpreter_available` (version flags, version extraction) and `_get_interpreter_install_command` |
| `Scorer` | scorer.dfy | `is_likely_main_file` |
| `TaskRunners` | taskrunners.dfy | `detect_task_runners`, `_parse_makefile`, `_parse_justfile`, the npm-script and Taskfile readers |
| `Environments` | environments.dfy | `detect_environment` |
| `Frameworks` | frameworks.dfy | `detect_framework` |
| `Dependencies` | dependencies.dfy | `check_dependencies` and its five manifest checks, `get_config_files` |
| `Scanner`, `ScanProperties` | scanner.dfy, scan_properties.dfy | `scan_for_executables`, `estimate_complexity`, and what the scan guarantees |
| `Ranking` | ranking.dfy | the stable descending sort by score |
| `AutoFix` | autofix.dfy | `auto_fix_dependencies`' filter, confirmation, timeouts and fix loop; `_create_backup`, `_rollback_backup` |
| `Execution` | execution.dfy | the status a program run reports, the index check of `execute_program`, the JSON report's summary |
| `OmniRunCore` | omnirun.dfy | the `OmniRun` object: its discovered programs, backup record and disk, and the methods that change them |

Code that only computes (the scorer, the parsers, the detectors, the
dependency checks) is modelled as functions, with lemmas about them. Code that
works step by step is modelled as methods with loops, each proved equal to the
function that specifies it:

- the Makefile and justfile readers;
- the per-file ecosystem loop and the recursive directory walk;
- the dependency-list builder;
- the fix loop and the copy loops of backup and rollback;
- the JSON summary counter.

The `OmniRun` object is a class whose methods update its fields, as the source
does.

The outside world is represented by inputs:

- **File system.** A `Dir` value holds the entries in listing order. Each file
  has its exec bit, size, lines (absent when unreadable) and parsed JSON or
  YAML mapping (absent when it does not parse).
- **Interpreter probes.** A map from name to "not on PATH", or to the outcome
  of each `--version` / `-version` / `-v` call.
- **Virtual environments.** The `python --version` output of each
  environment's interpreter.
- **Fix commands.** How each command ends and what the program directory holds
  afterwards.
- **Git.** Whether the directory is a repository, and whether `git stash` or
  `git stash pop` raises.
- **User answers.** The answers typed at the prompts.
- **Backup directory.** Its name is derived from the clock, so it is a
  parameter.

Behaviour of the code that the model follows and that is easy to misread:

- **Docker Compose and justfile spellings.** `path / 'docker-compose.yml' or
  path / 'docker-compose.yaml'` always yields the first path, so only
  `docker-compose.yml` is looked for (omni_run.py:400). The same holds for the
  lower-case `justfile` (omni_run.py:430). On a case-insensitive file system
  (the Windows and macOS defaults) that path also finds a file spelt
  `Justfile`; the model compares names exactly, as a case-sensitive file
  system does.
  `Environments.ComposeYamlSpellingIgnored` states the consequence.
- **Virtual environment first.** A virtual environment is tried before conda
  and Docker, and the first matching kind wins.
- **Angular and NestJS probes.** These read `'angular' in
  deps.get('dependencies', {})` on the merged dependency dictionary
  (omni_run.py:583, 607), so they fire only for a package literally named
  `dependencies` whose value is a mapping (`Frameworks.StarredProbesNeedOddKey`).
  When that value is a string or a list, the `.get` raises. The exception is
  swallowed and the JavaScript probe gives no framework.
- **Django and the JavaScript frameworks.** These are recognised for a file of
  any language. Only the Flask/FastAPI, Rails, Laravel, Java, Go and Rust
  probes are gated on the file's ecosystem.
- **Requirement comments.** A requirements line counts unless it starts with
  `#` in its first column, so an indented comment counts.
- **Wildcard config names.** `*.csproj` and `*.sln` are tested as literal file
  names, as `Path.exists` does.
- **Same directory as backup.** When the work directory is also the backup
  directory, `shutil.copy2` raises `SameFileError`. The backup then fails, and
  so does the rollback, which stops at its first key file.

## Model

| member | source | states |
|---|---|---|
| `Registry.Lookup` | omni_run.py:144-292 | `executable_patterns.get(tag)`: a found entry is in the table under that tag; no result means no entry carries the tag |
| `Registry.OnlyExecutableHasNoExtensions` | omni_run.py:285-291 | the Executable pseudo-ecosystem is the only entry without extensions and the only one without interpreters |
| `Text.Lower` | omni_run.py:1444-1445 | `str.lower`: same length, each capital letter mapped to its lower-case letter, every other character unchanged |
| `Text.LowerHasNoUpper` | omni_run.py:1444-1445 | no capital letter is left after lower-casing |
| `Text.LowerKeepsNonLetters` | omni_run.py:1386 | lower-casing neither adds nor removes a non-letter character, such as the dot of a suffix |
| `Text.TrimLeft` | omni_run.py:1480 | drops exactly the leading whitespace: what it drops is all whitespace and what it keeps does not start with whitespace |
| `Text.TrimRight` | omni_run.py:1480 | drops exactly the trailing whitespace |
| `Text.StripTrimsBothEnds` | omni_run.py:464-466 | `str.strip` gives a slice of its input with no whitespace at either end |
| `Text.ContainsAt` | omni_run.py:1488-1493 | `sub in s` holds if and only if `sub` occurs at some position of `s` |
| `Text.IndexOf` | omni_run.py:464 | the first position of a character, and none exactly when it does not occur |
| `Text.BeforeFirst` | omni_run.py:1350 | `split(c)[0]`: the prefix of the input up to the first separator, or the whole input when there is none |
| `Text.AfterFirst` | omni_run.py:464 | `split(c, 1)[1]`: the input is the part before the first separator, the separator, and the result |
| `Text.Take` | omni_run.py:1350 | `s[:n]`: the prefix of length `min(len(s), n)` |
| `Text.NatToString` | omni_run.py:1214 | `str(n)`: a non-empty run of decimal digits that denotes `n`, with no leading zero unless `n` is 0 |
| `FileTree.Find` | omni_run.py:1522-1527 | `(dir / name).exists()`: the entry found is in the directory under that name; none means no entry has the name |
| `FileTree.Get` | omni_run.py:1192-1193 | `data.get(key, {})`: the value under the key, an empty mapping when the key is absent |
| `FileTree.ValueOf` | omni_run.py:1192-1193 | a lookup succeeds exactly when the key is among the mapping's keys |
| `FileTree.ValueOfDistinct` | omni_run.py:1192-1193 | in a mapping whose keys are distinct, as a parser returns it, each entry's key looks up that entry's value |
| `FileTree.Keys` | omni_run.py:491 | `list(d.keys())`: one key per entry, in insertion order |
| `FileTree.Suffix` | omni_run.py:1386 | `Path.suffix`: the name from its last dot on, holding no other dot; empty exactly when no dot strictly inside the name is the last one (no dot, or the last dot is the first or the last character) |
| `FileTree.Stem` | omni_run.py:1444 | `Path.stem`: the name is its stem followed by its suffix |
| `Probe.SearchIsLeftmost` | omni_run.py:1346 | `re.search` returns the leftmost match; no result means no position matches |
| `Probe.MatchIsVersionShaped` | omni_run.py:1346 | every match of the version pattern has the shape `\d+\.\d+(\.\d+)?` |
| `Probe.SearchVersionShaped` | omni_run.py:1346-1348 | a version found is version-shaped and occurs in the output |
| `Probe.NoDigitNoVersion` | omni_run.py:1346-1350 | output without an ASCII digit yields no version match |
| `Probe.VersionFromOutput` | omni_run.py:1345-1350 | on `stdout or stderr`: the leftmost version match, which is version-shaped and occurs in the output; without a match, the first line of the output cut to 50 characters |
| `Probe.CheckInterpreter` | omni_run.py:1329-1356 | available exactly when the name is on the path; an available interpreter always has a version string, an unavailable one never does |
| `Probe.NoZeroExitMeansUnknown` | omni_run.py:1338-1354 | an interpreter on the path whose three version flags all fail or raise reports "unknown" |
| `Probe.FirstZeroExitDecides` | omni_run.py:1338-1352 | the first flag that exits 0 decides the version; later flags are never consulted |
| `Probe.InstallCommand` | omni_run.py:1316-1327 | the install hint of the seven known interpreters, "Install <name>" for every other |
| `Scorer.Score` | omni_run.py:1441-1509 | a score is never below the depth bonus of the file |
| `Scorer.ScoreNonNegative` | omni_run.py:1441-1509 | scores are never negative |
| `Scorer.ScoreDepthMonotone` | omni_run.py:1501-1507 | the same file placed deeper never scores higher |
| `Scorer.DepthBonus` | omni_run.py:1505 | the depth bonus is at most 10 |
| `Scorer.DepthBonusValues` | omni_run.py:1503-1505 | the depth bonus is `10 - 2 * depth` up to depth 4 and 0 from depth 5 on |
| `Scorer.FrameworkBonusIsFiftyPerList` | omni_run.py:1448-1464 | 50 points for each framework list that holds the file name, so `main.go` and `main.rs` earn 100 |
| `Scorer.MatchableNames` | omni_run.py:1448-1460 | the list entries that a lower-cased file name can equal are exactly those without `/` and without capitals |
| `Scorer.UnmatchableEntriesNeverScore` | omni_run.py:1448-1464 | entries such as `pages/index.js` and `App.js` never contribute: the bonus equals that of the table without them |
| `Scorer.PrefixBonusOnce` | omni_run.py:1466-1469 | 15 points exactly when some main-file prefix matches the lower-cased name, and 0 otherwise, however many match |
| `Scorer.NameBonusShape` | omni_run.py:1471-1475 | 10 points per main name contained in the stem, plus 5 when the stem is one of them |
| `Scorer.MainNamesDistinct` | omni_run.py:1471 | the nine main names are distinct, so the exact-stem bonus is earned at most once |
| `Scorer.NameBonusBound` | omni_run.py:1471-1475 | the main-name bonus is at most 95 |
| `Scorer.FirstLines` | omni_run.py:1480 | the ten first lines, stripped, with "" for each line past the end of the file |
| `Scorer.ContentBonusBound` | omni_run.py:1478-1496 | the content bonus (shebang 8, main guard 12, `app =` 8, main function 6) is at most 34 |
| `Scorer.UnreadableKeepsNameBonuses` | omni_run.py:1478-1507 | an unreadable file scores its name, exec-bit and depth bonuses only |
| `Scorer.WindowsIgnoresExecBit` | omni_run.py:1498-1499 | on Windows the exec bit does not change the score |
| `TaskRunners.MatchTargetExact` | omni_run.py:457 | `^([a-zA-Z0-9_-]+):` matches exactly the lines that start with a target name and a colon, and captures that name |
| `TaskRunners.PatternExamples` | omni_run.py:457-458 | `.PHONY: all` and a recipe line match nothing, and `CC:=gcc` yields the target `CC` |
| `TaskRunners.TargetNeverStartsWithDot` | omni_run.py:458 | a captured target never starts with a dot, so the `startswith('.')` test never rejects one |
| `TaskRunners.ParseMakefile` | omni_run.py:450-471 | the tasks of a readable Makefile, line by line, in file order; none when it cannot be read |
| `TaskRunners.ParseJustfile` | omni_run.py:473-485 | the recipe names of a readable justfile, in file order; none when it cannot be read |
| `TaskRunners.EntryForLine` | omni_run.py:456-469 | a line yields a Makefile task exactly when it matches the pattern, and the task is the target alone or `target: description` |
| `TaskRunners.SameLineCommentWins` | omni_run.py:463-464 | a comment on the target's own line becomes its description |
| `TaskRunners.NextLineCommentDescribes` | omni_run.py:465-466 | without one, a comment on the next line becomes the description, `#` and whitespace removed |
| `TaskRunners.MakefileRefinesJustfile` | omni_run.py:450-485 | on the same text both readers list the same targets in the same order; the Makefile reader may add a description |
| `TaskRunners.JustTasksAreTargetNames` | omni_run.py:473-485 | each justfile task is a well-formed target name, and there are at most as many tasks as lines |
| `TaskRunners.Runner` | omni_run.py:423-426 | a runner record is present exactly when its file exists, and it carries that kind and those tasks |
| `TaskRunners.NpmRunner` | omni_run.py:434-439 | an npm runner is reported only with a non-empty script list |
| `TaskRunners.DetectTaskRunnersSpec` | omni_run.py:419-448 | a runner of each kind is reported exactly when its file exists (npm also needs scripts), in the order make, just, npm, task |
| `Environments.FindVenv` | omni_run.py:360-385 | the environment found among the virtual-environment names is of kind venv |
| `Environments.FindVenvFirstUsable` | omni_run.py:360-385 | the first candidate that exists, has an interpreter and answers `--version` is chosen; none when no candidate is usable |
| `Environments.DetectEnvironmentFirstMatch` | omni_run.py:358-417 | the detected kind applies and no earlier kind (venv, conda, compose, docker) does; nothing is detected exactly when no kind applies |
| `Environments.ComposeYamlSpellingIgnored` | omni_run.py:397-417 | a directory whose only environment marker is `docker-compose.yaml` has no environment |
| `Environments.DockerGate` | omni_run.py:397-415 | with Docker disabled a Dockerfile alone gives no environment, while a compose file still does |
| `Frameworks.FirstPyImporting` | omni_run.py:523-535 | the file chosen is the first readable `*.py` entry, in directory order, whose text holds one of the import phrases; nothing is chosen exactly when no entry qualifies |
| `Frameworks.MergedValue` | omni_run.py:558 | `{**deps, **dev}` holds a key exactly when either section does |
| `Frameworks.DjangoForAnyLanguage` | omni_run.py:508-521 | a directory with `manage.py` is a Django project whatever the file's language |
| `Frameworks.FlaskBeforeFastApi` | omni_run.py:522-550 | for Python without `manage.py`, a file importing Flask makes it Flask, with that file as entry point, before FastAPI is tried |
| `Frameworks.JsForAnyLanguage` | omni_run.py:553-614 | for any language other than Python, a recognised package.json decides the framework once Django is ruled out |
| `Frameworks.JsFirstKeyWins` | omni_run.py:560-611 | the first plain dependency key in priority order picks the framework; none when no candidate key is present |
| `Frameworks.NextBeatsReact` | omni_run.py:560-582 | a project depending on both next and react is Next.js |
| `Frameworks.StarredProbesNeedOddKey` | omni_run.py:583-611 | Angular and NestJS are reported only when the merged dependencies hold a key `dependencies` whose value is a mapping |
| `Frameworks.JavaOrder` | omni_run.py:649-689 | pom.xml mentioning spring-boot, then quarkus, then micronaut decides the Java framework; none when it mentions none of them |
| `Frameworks.GoAndRustOrder` | omni_run.py:692-729 | go.mod mentioning gin beats echo; Cargo.toml mentioning actix beats rocket |
| `Dependencies.InterpreterCheck` | omni_run.py:1147-1158 | an interpreter record is required and never auto-fixable; it is available exactly when the interpreter is on the path, and it carries the install hint exactly when it is not |
| `Dependencies.InterpreterChecksPointwise` | omni_run.py:1146-1158 | one record per interpreter, in the registry's order |
| `Dependencies.PackageJsonChecks` | omni_run.py:1186-1226 | at most one required `node_modules` record, which needs fixing exactly when `node_modules` is missing |
| `Dependencies.NodeModulesFix` | omni_run.py:1196-1224 | with declared dependencies and no `node_modules`, the fix is `cd <dir> && <pnpm, yarn or npm> install`, the manager chosen by lock file |
| `Dependencies.RequirementsChecks` | omni_run.py:1228-1260 | no record from requirements.txt ever needs fixing |
| `Dependencies.RequirementsShape` | omni_run.py:1228-1258 | a requirements file with a requirement gives the "Python packages" record, preceded by the optional venv suggestion exactly when no venv exists and venvs are enabled |
| `Dependencies.IndentedCommentCounts` | omni_run.py:1232 | a line with a `#` after leading spaces counts as a requirement; one starting with `#` does not |
| `Dependencies.CargoChecks` | omni_run.py:1262-1280 | one required Cargo record, needing a fix exactly when `target` is missing |
| `Dependencies.GoModChecks` | omni_run.py:1282-1291 | the Go modules record never needs fixing |
| `Dependencies.JavaChecks` | omni_run.py:1293-1314 | the Maven or Gradle record never needs fixing |
| `Dependencies.DeepChecks` | omni_run.py:1170-1182 | the manifest checks produce only their own record names, and only node_modules and Cargo records can need fixing |
| `Dependencies.ConfigFileCheck` | omni_run.py:1163-1168 | a config-file record is optional, available and needs no fix |
| `Dependencies.CheckDependencies` | omni_run.py:1141-1184 | the list built step by step equals the interpreter records followed by the records of each present config file |
| `Dependencies.AppendInterpreterChecks` | omni_run.py:1146-1158 | the interpreter loop appends exactly the interpreter records |
| `Dependencies.AppendConfigChecks` | omni_run.py:1160-1182 | the config-file loop appends exactly the config records |
| `Dependencies.AppendConfigFile` | omni_run.py:1162-1182 | one config file appends its record and its manifest check when it exists, nothing otherwise |
| `Dependencies.ConfigChecksMembers` | omni_run.py:1160-1182 | every config record comes from a present config file; every present config file has its record |
| `Dependencies.InterpreterPrefix` | omni_run.py:1141-1158 | the dependency list starts with one record per interpreter, each available exactly when that interpreter is on the path |
| `Dependencies.OnlyNodeModulesAndCargoNeedFix` | omni_run.py:1141-1314 | in any dependency list only node_modules and Cargo records can need an automatic fix |
| `Dependencies.ConfigFilesPresent` | omni_run.py:1520-1530 | `get_config_files`: the registry's config names that exist in the directory, and only those |
| `Dependencies.ConfigRecordsMatchConfigFiles` | omni_run.py:1520-1530 | every config file reported has its record in the dependency list |
| `Dependencies.HasConfigIffSomePresent` | omni_run.py:1410-1411 | `has_config` holds exactly when some config file of the ecosystem exists |
| `Dependencies.RequiredInterpreters` | omni_run.py:1398 | `required_interpreters` keeps only required records named after one of the ecosystem's interpreters |
| `Dependencies.ConfigChecksNotInterpreters` | omni_run.py:1398 | config and manifest records never count as interpreter records |
| `Dependencies.RequiredAreInterpreterChecks` | omni_run.py:1398 | `required_interpreters` is exactly the list of interpreter records |
| `Dependencies.NoneAvailableIff` | omni_run.py:1399 | no interpreter record is available exactly when no interpreter is on the path |
| `Dependencies.SkipIffNoInterpreterOnPath` | omni_run.py:1397-1401 | a file is skipped for lack of an interpreter exactly when its ecosystem needs interpreters and none of them is on the path |
| `Dependencies.RegistryInterpretersAreNotDeepChecks` | omni_run.py:144-292 | no registry interpreter shares a name with a manifest record |
| `Scanner.EstimateComplexity` | omni_run.py:1532-1556 | a readable file is Simple under 50 lines, Moderate under 200, Complex under 1000 and Very Complex from 1000; an unreadable one is Small under 100 KiB, Medium under 1 MiB and Large from 1 MiB |
| `Scanner.ComplexityMonotone` | omni_run.py:1538-1554 | more lines or more bytes never give a lower bucket |
| `Scanner.TryFile` | omni_run.py:1386-1420 | one ecosystem's attempt at a file gives the program its specification function defines |
| `Scanner.ClassifyFile` | omni_run.py:1384-1421 | the ecosystem loop, stopping at the first program made, gives the program its specification function defines |
| `Scanner.ScanDirectory` | omni_run.py:1368-1431 | the recursive walk appends the programs of the files it visits, in visiting order, and counts every file visited |
| `Scanner.ScanEntry` | omni_run.py:1380-1426 | one directory entry contributes its file's program, or the walk of its subdirectory |
| `ScanProperties.Claimant` | omni_run.py:1384-1388 | the first ecosystem, in table order, whose extensions (or the Executable rule) claim a file name |
| `ScanProperties.ExtensionsDisjoint` | omni_run.py:144-292 | no extension belongs to two ecosystems |
| `ScanProperties.ExtensionsNonEmpty` | omni_run.py:144-292 | every listed extension is non-empty and belongs to a real language |
| `ScanProperties.ClaimsUnique` | omni_run.py:1384-1388 | at most one ecosystem claims any file name |
| `ScanProperties.TryEcosystemSpec` | omni_run.py:1386-1401 | an ecosystem makes a program only from a file it claims, an extension-less file only under Executable with the exec bit (off Windows), and only with an interpreter on the path |
| `ScanProperties.ClassifyFromSpec` | omni_run.py:1384-1421 | a classified file's program belongs to the ecosystem that claims the file, with its name, path and interpreters |
| `ScanProperties.TryEcosystemIffEligible` | omni_run.py:1384-1401 | an ecosystem makes a program from a file exactly when it claims the file, the exec-bit rule holds, and an interpreter it needs is on the path |
| `ScanProperties.ClassifyFromIsClaimant` | omni_run.py:1384-1421 | the ecosystem loop gives what the claiming ecosystem makes, and nothing when no ecosystem claims the file |
| `ScanProperties.ClassifiedWhenEligible` | omni_run.py:1384-1421 | a file whose claiming ecosystem it is eligible for is always classified, with that ecosystem's program |
| `ScanProperties.ClassifiedHere` | omni_run.py:1421 | the loop stops at the first ecosystem that makes a program |
| `ScanProperties.ClassifySpec` | omni_run.py:1403-1420 | a program made from a visited file has that file's name and path and the claiming ecosystem |
| `ScanProperties.SharedDirectoryContext` | omni_run.py:1374-1420 | every program of a directory carries the environment and task runners detected for that directory, and the file's score at its depth |
| `ScanProperties.VisitsBelow` | omni_run.py:1368-1426 | every visited file lies at most `max_depth` below the root and under directories that are neither hidden nor excluded |
| `ScanProperties.VisitsDistinct` | omni_run.py:1380-1426 | in a tree whose names are unique per directory, no file is visited twice |
| `ScanProperties.ProgramsFromVisits` | omni_run.py:1380-1421 | each program found comes from a visited file, and each visited file that classifies gives its program |
| `ScanProperties.ProgramsDistinct` | omni_run.py:1380-1421 | distinct visits give programs with distinct paths |
| `ScanProperties.ProgramsPlaced` | omni_run.py:1368-1421 | every program found lies within the walked region and is in its claiming ecosystem |
| `ScanProperties.WalkPlaced` | omni_run.py:1358-1431 | the walk's programs are placed as above, and there are never more programs than files scanned |
| `ScanProperties.WalkDistinct` | omni_run.py:1358-1431 | the walk never reports two programs for the same path |
| `ScanProperties.EmptyDirectory` | omni_run.py:1368-1431 | an empty readable root yields no program and no scanned file |
| `ScanProperties.ScanResult` | omni_run.py:1358-1438 | the ranked result is placed, within the depth limit, path-distinct and sorted by descending score; it is a permutation of the walk's findings, and ties keep the walk's order |
| `Ranking.SortByScoreSortedPermutation` | omni_run.py:1434 | `sort(key=score, reverse=True)` gives a descending permutation of its input |
| `Ranking.SortByScoreStable` | omni_run.py:1434 | programs with equal scores keep their relative order |
| `Ranking.SortByScoreKeepsSorted` | omni_run.py:1434 | sorting an already-sorted list changes nothing |
| `Ranking.SortByScoreKeepsDistinct` | omni_run.py:1434 | sorting keeps the same programs and keeps paths distinct |
| `AutoFix.Missing` | omni_run.py:735 | the positions of exactly the required, unavailable and auto-fixable records, in order |
| `AutoFix.NoneMissing` | omni_run.py:735-738 | with nothing needing a fix the proposal is empty |
| `AutoFix.DefaultNeverAsks` | omni_run.py:764-773 | with the default configuration the proposal is always confirmed |
| `AutoFix.DeclinedOnlyWhenAsked` | omni_run.py:764-777 | a proposal is declined exactly when the prompt is reached and the answer is not `y` |
| `AutoFix.TimeoutFor` | omni_run.py:806-823 | a fix command gets 60 seconds exactly when it creates a venv, 300 otherwise |
| `AutoFix.RunFixes` | omni_run.py:788-841 | the fix loop computes what its specification function defines |
| `AutoFix.ExecuteFixesSpec` | omni_run.py:788-841 | each proposed record becomes available exactly when its command ran and exited 0, other records are unchanged, the run succeeds exactly when every command attempted succeeded, and only attempted commands are launched |
| `AutoFix.FixedWhenCommandSucceeds` | omni_run.py:825-828 | a record whose fix command ran and exited 0 is available afterwards |
| `AutoFix.SecondRunHasNothingToFix` | omni_run.py:735-828 | when every fix ran and succeeded, a second auto-fix finds nothing missing |
| `AutoFix.CopyNames` | omni_run.py:884-888 | copying the key files present in the source overwrites exactly those in the target and keeps its other files |
| `AutoFix.CopyNamesLoop` | omni_run.py:884-888 | the copy loop computes that copy, and fails exactly when the source is the target and holds a key file |
| `AutoFix.CreateBackup` | omni_run.py:865-895 | a backup succeeds exactly when it records its kind; a file-copy backup records its side directory and the work directory |
| `AutoFix.Rollback` | omni_run.py:897-929 | without a backup record nothing is restored and the disk is unchanged |
| `AutoFix.RollbackWithoutBackup` | omni_run.py:900-901 | a rollback before any backup reports failure and changes nothing |
| `AutoFix.GitStashPreferred` | omni_run.py:872-911 | in a git repository the backup is a stash, and the rollback pops it without copying files |
| `AutoFix.RollbackRestoresKeyFiles` | omni_run.py:865-929 | backup, a change to the work directory, then rollback: the key files present before come back, other files stay as the change left them, the side directory is removed, and no other directory changes |
| `AutoFix.StaleSideFileRestored` | omni_run.py:868-920 | a key file already in a reused side directory is copied into the work directory by the rollback, though the work directory never held it |
| `Execution.Report` | omni_run.py:1068-1139 | SUCCESS exactly on exit 0, FAILED on any other exit, ERROR without a return code on a timeout or exception |
| `Execution.ReportNeverSkippedOrFixed` | omni_run.py:1079-1139 | a run never reports SKIPPED or FIXED, and a reported return code is the process's exit code |
| `Execution.ProgramAt` | omni_run.py:1603-1606 | an index outside `0 <= index < len` is invalid; a valid one selects that program |
| `Execution.BumpSpec` | omni_run.py:1973 | `by_type[t] = by_type.get(t, 0) + 1` raises t's count by one, leaves the others alone and keeps keys distinct |
| `Execution.ByTypeSpec` | omni_run.py:1965-1973 | `by_type` counts each ecosystem's programs, has a key exactly for each ecosystem seen, and its counts add up to the total |
| `Execution.NoIssuesIffAllReady` | omni_run.py:1966-1971 | the issue count is zero exactly when no program misses a required dependency |
| `Execution.SummaryOf` | omni_run.py:1951-1973 | ready plus issues equals the total number of programs |
| `OmniRunCore.WorkDir` | omni_run.py:803-804 | `prog.path.parent`: for a path built as directory, separator and name, the directory |
| `OmniRunCore.OmniRun.constructor` | omni_run.py:130-143 | a new launcher has no discovered programs and no backup record |
| `OmniRunCore.OmniRun.ScanSettings` | omni_run.py:1358-1361 | the depth limit is the argument when given, else the configured one |
| `OmniRunCore.OmniRun.ScanForExecutables` | omni_run.py:1358-1438 | the programs returned and stored are the walk's findings ranked by score, and the count is the number of files scanned |
| `OmniRunCore.OmniRun.CreateBackup` | omni_run.py:865-895 | the disk and backup record after a backup; a failed backup keeps the previous record |
| `OmniRunCore.OmniRun.RollbackBackup` | omni_run.py:897-929 | the disk after restoring from the recorded backup |
| `OmniRunCore.OmniRun.AutoFixDependencies` | omni_run.py:733-863 | no change when nothing is missing, in a dry run or when declined. Otherwise: an optional backup, the fix loop in the program's directory updating the program's records in place, and a rollback after a failure when a backup exists |
| `OmniRunCore.OmniRun.JsonSummary` | omni_run.py:1951-1973 | the one-pass count of the discovered programs equals the summary they define |

## Left out

- Everything around the core is not part of this model:
  - watch mode and profile mode;
  - the HTML and terminal reports, the TUI and interactive menus, `display_programs_enhanced`, `list_available_commands` and the activation hints;
  - `save_preferred_command`, `_load_config` (the defaults are given as `DefaultConfig`) and `main`.
- Real processes, the clock and the console are inputs, not calls. This covers:
  - `shutil.which` and the version calls;
  - the venv interpreter call;
  - the fix commands and their effect on the work directory;
  - `git stash` and `git stash pop` and their effect on files;
  - `input()`;
  - the time-stamped backup directory name, and the start/end times and durations of a run.
- Building the command line in `execute_program_synchronously`: only how a run ends is mapped to its reported status. `execution_history` is never appended to in the source and is omitted.
- JSON, YAML and TOML parsing: a manifest is given as an already parsed mapping, or as absent when it does not parse. File encodings and `errors='ignore'` are not modelled.
- `Probe.NoDigitNoVersion` and `Probe.SearchVersion`: `IsDigit` is ASCII `0`-`9`, while Python's `\d` also matches other Unicode decimal digits, so output such as `٣.٤` yields a version in the source and none in the model.
- `FileTree.Find` and `Frameworks.FirstPyImporting`: names are compared exactly, as on a case-sensitive file system. On a case-insensitive one (the Windows and macOS defaults) `path / 'justfile'` also finds `Justfile`, and `glob('*.py')` also matches `MAIN.PY`.
- `Scanner.EstimateComplexity`: the "Unknown" result when `stat()` itself fails (omni_run.py:1555-1556) is not modelled; a file in the model always has a size.
- `FileTree.ValueOf`: a lookup returns the first entry under a key, while the parsers keep the last one of a repeated key. A document as parsed has distinct keys (`FileTree.DistinctKeys`), where the two agree (`FileTree.ValueOfDistinct`); documents with repeated keys are outside the model.
- `Text.Lower` and `Text.Strip`: only ASCII letters are case-folded and only ASCII whitespace is stripped. Python's Unicode-aware `lower()` and `strip()` also handle other characters.
- Text files are sequences of lines without their terminators. `readlines()` keeps the `\n`, which `strip()` removes wherever the source looks at a line.
- A directory is modelled as readable or not as a whole. An exception in the middle of a listing, which keeps the files seen so far, is not modelled. Symbolic links are not modelled.
- The log messages, the printed proposal and the colour codes.
- The registry's `dependency_managers` and `frameworks` fields: no modelled operation reads them.
- `_rollback_backup`: `rmtree` of the side directory is modelled as removing it with its files. Subdirectories of the side directory do not occur in the model.
- `OmniRunCore.OmniRun.AutoFixDependencies` requires the program's directory to be on the modelled disk, because the fix commands run there. The source does not check this.
