/**
 * The dependency resolver: for a file of a given ecosystem, one check per
 * interpreter of the registry entry, then for every config file of the entry
 * that exists beside the file a record of its presence followed by the deep
 * checks for that kind of manifest. All records go, in this order, into one
 * list.
 */
module Dependencies {
  import opened Text
  import opened FileTree
  import opened Records
  import Registry
  import Probe

  // ---------------------------------------------------------------------------
  // Interpreters

  /** The check for one interpreter: required, never fixable automatically. */
  function InterpreterCheck(host: Probe.Host, name: string): (c: DependencyCheck)
    ensures c.name == name && c.required && !c.canAutoFix
    ensures c.available <==> Probe.OnPath(host, name)
    ensures c.available == c.fixCommand.None?
    ensures !c.available ==> c.fixCommand == Some(Probe.InstallCommand(name)) && c.version.None?
  {
    var (available, version) := Probe.CheckInterpreter(host, name);
    DependencyCheck(name, true, available, version,
      Some("Interpreter " + name + " " + (if available then "found" else "NOT FOUND")),
      if !available then Some(Probe.InstallCommand(name)) else None,
      false)
  }

  /** The interpreter checks, in registry order. */
  function InterpreterChecks(host: Probe.Host, names: seq<string>): seq<DependencyCheck> {
    if names == [] then []
    else InterpreterChecks(host, names[..|names| - 1]) + [InterpreterCheck(host, names[|names| - 1])]
  }

  /** One check per interpreter, in order. */
  lemma {:induction false} InterpreterChecksPointwise(host: Probe.Host, names: seq<string>)
    ensures |InterpreterChecks(host, names)| == |names|
    ensures forall k :: 0 <= k < |names| ==> InterpreterChecks(host, names)[k] == InterpreterCheck(host, names[k])
  {
    if names != [] {
      var init := names[..|names| - 1];
      InterpreterChecksPointwise(host, init);
      assert forall k :: 0 <= k < |init| ==> init[k] == names[k];
    }
  }

  // ---------------------------------------------------------------------------
  // Deep checks

  /** pnpm when its lock file exists, else yarn when its lock file exists, else npm. */
  function PackageManager(d: Dir): string {
    if Exists(d, "pnpm-lock.yaml") then "pnpm"
    else if Exists(d, "yarn.lock") then "yarn"
    else "npm"
  }

  /** _check_package_json_with_fix: a node_modules record when the manifest
      declares any dependency. Nothing is added when the manifest does not
      parse to a mapping, or when `len` raises on a section (a scalar). */
  function PackageJsonChecks(d: Dir, dirPath: string): (r: seq<DependencyCheck>)
    ensures |r| <= 1
    ensures forall c :: c in r ==> c.name == "node_modules" && c.required
    ensures forall c :: c in r ==> (NeedsFix(c) <==> !Exists(d, "node_modules"))
  {
    match DocOf(d, "package.json")
    case None => []
    case Some(doc) =>
      var deps := Get(doc, "dependencies");
      var dev := Get(doc, "devDependencies");
      if !(Truthy(deps) || Truthy(dev)) then []
      else if Exists(d, "node_modules") then
        if Len(deps).Some? && Len(dev).Some? then
          [DependencyCheck("node_modules", true, true, None,
            Some("Dependencies installed (" + NatToString(Len(deps).value) + " runtime, "
              + NatToString(Len(dev).value) + " dev)"), None, false)]
        else []
      else
        [DependencyCheck("node_modules", true, false, None, Some("Dependencies NOT installed"),
          Some("cd " + dirPath + " && " + PackageManager(d) + " install"), true)]
  }

  /** A requirements line: non-blank, and not starting with '#' before any stripping. */
  predicate IsRequirement(line: string) {
    Strip(line) != "" && !StartsWith(line, "#")
  }

  function RequirementCount(lines: seq<string>): (n: nat)
    ensures n <= |lines|
  {
    if lines == [] then 0 else (if IsRequirement(lines[0]) then 1 else 0) + RequirementCount(lines[1..])
  }

  /** _check_requirements_txt_with_fix: a fixable suggestion to create a
      virtual environment when none of venv, env, .venv exists (and the
      feature is enabled), then the Python packages record, which is always
      reported as available. An unreadable file adds nothing. */
  function RequirementsChecks(d: Dir, dirPath: string, host: Probe.Host, enableVenv: bool): (r: seq<DependencyCheck>)
    ensures forall c :: c in r ==> !NeedsFix(c)
  {
    match TextOf(d, "requirements.txt")
    case None => []
    case Some(lines) =>
      var n := RequirementCount(lines);
      if n == 0 then []
      else
        var venvExists := Exists(d, "venv") || Exists(d, "env") || Exists(d, ".venv");
        var pythonCmd := if Probe.OnPath(host, "python3") then "python3" else "python";
        (if !venvExists && enableVenv then
          [DependencyCheck("Python virtual environment", false, false, None,
            Some("Virtual environment not found (recommended)"),
            Some("cd " + dirPath + " && " + pythonCmd + " -m venv venv"), true)]
         else [])
        + [DependencyCheck("Python packages", true, true, None, Some(NatToString(n) + " packages required"),
            Some("cd " + dirPath + " && pip install -r requirements.txt"), true)]
  }

  /** _check_cargo_with_fix: missing and fixable by a build until `target` exists. */
  function CargoChecks(d: Dir, dirPath: string): (r: seq<DependencyCheck>)
    ensures |r| == 1 && r[0].name == "Cargo dependencies" && r[0].required
    ensures NeedsFix(r[0]) <==> !Exists(d, "target")
  {
    if !Exists(d, "target") then
      [DependencyCheck("Cargo dependencies", true, false, None, Some("Project not built"),
        Some("cd " + dirPath + " && cargo build"), true)]
    else
      [DependencyCheck("Cargo dependencies", true, true, None, Some("Project built"), None, false)]
  }

  function GoModChecks(dirPath: string): (r: seq<DependencyCheck>)
    ensures forall c :: c in r ==> !NeedsFix(c)
  {
    [DependencyCheck("Go modules", true, true, None, Some("Go modules defined"),
      Some("cd " + dirPath + " && go mod tidy && go mod download"), true)]
  }

  /** _check_java_deps_with_fix: Maven for pom.xml, otherwise Gradle, through
      the wrapper script when the project has one. */
  function JavaChecks(d: Dir, dirPath: string, configFile: string): (r: seq<DependencyCheck>)
    ensures forall c :: c in r ==> !NeedsFix(c)
  {
    if configFile == "pom.xml" then
      [DependencyCheck("Maven dependencies", true, true, None, Some("Maven project"),
        Some("cd " + dirPath + " && mvn install"), true)]
    else
      var gradle := if Exists(d, "gradlew") then "./gradlew" else "gradle";
      [DependencyCheck("Gradle dependencies", true, true, None, Some("Gradle project"),
        Some("cd " + dirPath + " && " + gradle + " build"), true)]
  }

  /** The names the deep checks give their records. */
  const DeepCheckNames: set<string> := {"node_modules", "Python virtual environment", "Python packages",
    "Cargo dependencies", "Go modules", "Maven dependencies", "Gradle dependencies"}

  /** The deep checks that follow the presence record of a config file. */
  function DeepChecks(d: Dir, dirPath: string, host: Probe.Host, enableVenv: bool, configFile: string)
    : (r: seq<DependencyCheck>)
    ensures forall c :: c in r && NeedsFix(c) ==> c.name == "node_modules" || c.name == "Cargo dependencies"
    ensures forall c :: c in r ==> c.name in DeepCheckNames
  {
    if configFile == "package.json" then PackageJsonChecks(d, dirPath)
    else if configFile == "requirements.txt" then RequirementsChecks(d, dirPath, host, enableVenv)
    else if configFile == "Cargo.toml" then CargoChecks(d, dirPath)
    else if configFile == "go.mod" then GoModChecks(dirPath)
    else if configFile in ["pom.xml", "build.gradle", "build.gradle.kts"] then JavaChecks(d, dirPath, configFile)
    else []
  }

  /** The presence record of a config file: informational, never required. */
  function ConfigFileCheck(configFile: string): (c: DependencyCheck)
    ensures !c.required && c.available && !NeedsFix(c)
  {
    DependencyCheck(configFile, false, true, None, Some("Configuration file " + configFile + " found"), None, false)
  }

  /** What one config file of the registry entry contributes. */
  function ConfigFileChecks(d: Dir, dirPath: string, host: Probe.Host, enableVenv: bool, configFile: string)
    : seq<DependencyCheck>
  {
    if Exists(d, configFile) then [ConfigFileCheck(configFile)] + DeepChecks(d, dirPath, host, enableVenv, configFile)
    else []
  }

  function ConfigChecks(d: Dir, dirPath: string, host: Probe.Host, enableVenv: bool, names: seq<string>)
    : seq<DependencyCheck>
  {
    if names == [] then []
    else (ConfigChecks(d, dirPath, host, enableVenv, names[..|names| - 1])
          + ConfigFileChecks(d, dirPath, host, enableVenv, names[|names| - 1]))
  }

  /** check_dependencies for a file in the directory d at dirPath, given the
      registry entry of its ecosystem. */
  function DependencyList(host: Probe.Host, d: Dir, dirPath: string, e: Registry.Ecosystem, enableVenv: bool)
    : seq<DependencyCheck>
  {
    InterpreterChecks(host, e.interpreters) + ConfigChecks(d, dirPath, host, enableVenv, e.configFiles)
  }

  /** check_dependencies, appending to one list as the source does. */
  method CheckDependencies(host: Probe.Host, d: Dir, dirPath: string, e: Registry.Ecosystem, enableVenv: bool)
    returns (deps: seq<DependencyCheck>)
    ensures deps == DependencyList(host, d, dirPath, e, enableVenv)
  {
    deps := AppendInterpreterChecks(host, e.interpreters, []);
    assert deps == InterpreterChecks(host, e.interpreters);
    deps := AppendConfigChecks(d, dirPath, host, enableVenv, e.configFiles, deps);
  }

  /** The interpreter loop of check_dependencies. */
  method AppendInterpreterChecks(host: Probe.Host, interpreters: seq<string>, deps0: seq<DependencyCheck>)
    returns (deps: seq<DependencyCheck>)
    ensures deps == deps0 + InterpreterChecks(host, interpreters)
  {
    deps := deps0;
    for i := 0 to |interpreters|
      invariant deps == deps0 + InterpreterChecks(host, interpreters[..i])
    {
      assert interpreters[..i + 1][..i] == interpreters[..i];
      var (available, version) := Probe.CheckInterpreter(host, interpreters[i]);
      deps := deps + [DependencyCheck(interpreters[i], true, available, version,
        Some("Interpreter " + interpreters[i] + " " + (if available then "found" else "NOT FOUND")),
        if !available then Some(Probe.InstallCommand(interpreters[i])) else None,
        false)];
    }
    assert interpreters[..|interpreters|] == interpreters;
  }

  /** The config-file loop of check_dependencies, with its deep checks. */
  method AppendConfigChecks(d: Dir, dirPath: string, host: Probe.Host, enableVenv: bool, configFiles: seq<string>,
                            deps0: seq<DependencyCheck>)
    returns (deps: seq<DependencyCheck>)
    ensures deps == deps0 + ConfigChecks(d, dirPath, host, enableVenv, configFiles)
  {
    deps := deps0;
    for j := 0 to |configFiles|
      invariant deps == deps0 + ConfigChecks(d, dirPath, host, enableVenv, configFiles[..j])
    {
      ghost var done := ConfigChecks(d, dirPath, host, enableVenv, configFiles[..j]);
      ghost var extra := ConfigFileChecks(d, dirPath, host, enableVenv, configFiles[j]);
      ConfigChecksStep(d, dirPath, host, enableVenv, configFiles, j);
      deps := AppendConfigFile(d, dirPath, host, enableVenv, configFiles[j], deps);
      AppendAssoc(deps0, done, extra);
    }
    assert configFiles[..|configFiles|] == configFiles;
  }

  /** One round of the config-file loop: the presence record and the deep
      checks of a config file that exists beside the program. */
  method AppendConfigFile(d: Dir, dirPath: string, host: Probe.Host, enableVenv: bool, configFile: string,
                          deps0: seq<DependencyCheck>)
    returns (deps: seq<DependencyCheck>)
    ensures deps == deps0 + ConfigFileChecks(d, dirPath, host, enableVenv, configFile)
  {
    deps := deps0;
    if Exists(d, configFile) {
      deps := deps + [ConfigFileCheck(configFile)] + DeepChecks(d, dirPath, host, enableVenv, configFile);
    }
  }

  /** The config checks of one more name. */
  lemma ConfigChecksStep(d: Dir, dirPath: string, host: Probe.Host, enableVenv: bool, names: seq<string>, j: nat)
    requires j < |names|
    ensures ConfigChecks(d, dirPath, host, enableVenv, names[..j + 1])
      == ConfigChecks(d, dirPath, host, enableVenv, names[..j]) + ConfigFileChecks(d, dirPath, host, enableVenv, names[j])
  {
    assert names[..j + 1][..j] == names[..j];
  }

  /** get_config_files: the config files of the registry entry present in d, in registry order. */
  function ConfigFilesPresent(d: Dir, names: seq<string>): (r: seq<string>)
    ensures forall x :: x in r <==> x in names && Exists(d, x)
    ensures |r| <= |names|
  {
    if names == [] then []
    else (if Exists(d, names[0]) then [names[0]] else []) + ConfigFilesPresent(d, names[1..])
  }

  function GetConfigFiles(d: Dir, e: Registry.Ecosystem): seq<string> {
    ConfigFilesPresent(d, e.configFiles)
  }

  /** The scanner's `required_interpreters`: the required checks named after an interpreter. */
  function RequiredInterpreters(deps: seq<DependencyCheck>, interpreters: seq<string>): (r: seq<DependencyCheck>)
    ensures forall c :: c in r ==> c in deps && c.required && c.name in interpreters
  {
    if deps == [] then []
    else ((if deps[0].required && deps[0].name in interpreters then [deps[0]] else [])
          + RequiredInterpreters(deps[1..], interpreters))
  }

  /** A file is passed over when it needs interpreters and none of them is available. */
  predicate NoInterpreterAvailable(deps: seq<DependencyCheck>, interpreters: seq<string>) {
    var req := RequiredInterpreters(deps, interpreters);
    req != [] && forall c :: c in req ==> !c.available
  }

  // ---------------------------------------------------------------------------
  // Properties

  lemma {:induction false} RequiredInterpretersAppend(a: seq<DependencyCheck>, b: seq<DependencyCheck>, names: seq<string>)
    ensures RequiredInterpreters(a + b, names) == RequiredInterpreters(a, names) + RequiredInterpreters(b, names)
  {
    if a == [] {
      assert a + b == b;
    } else {
      assert (a + b)[1..] == a[1..] + b;
      RequiredInterpretersAppend(a[1..], b, names);
    }
  }

  /** No config-file or deep-check record is taken for an interpreter check. */
  lemma {:induction false} ConfigChecksNotInterpreters(d: Dir, dirPath: string, host: Probe.Host, enableVenv: bool,
                                                       names: seq<string>, interpreters: seq<string>)
    requires forall n :: n in interpreters ==> n !in DeepCheckNames
    ensures RequiredInterpreters(ConfigChecks(d, dirPath, host, enableVenv, names), interpreters) == []
  {
    if names != [] {
      var init, last := names[..|names| - 1], names[|names| - 1];
      ConfigChecksNotInterpreters(d, dirPath, host, enableVenv, init, interpreters);
      var extra := ConfigFileChecks(d, dirPath, host, enableVenv, last);
      RequiredInterpretersAppend(ConfigChecks(d, dirPath, host, enableVenv, init), extra, interpreters);
      assert forall c :: c in extra ==> !(c.required && c.name in interpreters);
      RequiredInterpretersNone(extra, interpreters);
    }
  }

  /** A list without a required interpreter-named record has none to take. */
  lemma {:induction false} RequiredInterpretersNone(deps: seq<DependencyCheck>, names: seq<string>)
    requires forall c :: c in deps ==> !(c.required && c.name in names)
    ensures RequiredInterpreters(deps, names) == []
  {
    if deps != [] {
      assert deps[0] in deps;
      assert forall c :: c in deps[1..] ==> c in deps;
      RequiredInterpretersNone(deps[1..], names);
    }
  }

  lemma {:induction false} InterpreterChecksAllRequired(host: Probe.Host, names: seq<string>, interpreters: seq<string>)
    requires forall n :: n in names ==> n in interpreters
    ensures RequiredInterpreters(InterpreterChecks(host, names), interpreters) == InterpreterChecks(host, names)
  {
    if names != [] {
      var init := names[..|names| - 1];
      InterpreterChecksAllRequired(host, init, interpreters);
      RequiredInterpretersAppend(InterpreterChecks(host, init), [InterpreterCheck(host, names[|names| - 1])], interpreters);
    }
  }

  /** The scanner passes a file over exactly when its ecosystem names
      interpreters and none of them is on the search path (for interpreter
      names that no deep check uses, as in the registry). */
  lemma SkipIffNoInterpreterOnPath(host: Probe.Host, d: Dir, dirPath: string, e: Registry.Ecosystem, enableVenv: bool)
    requires forall n :: n in e.interpreters ==> n !in DeepCheckNames
    ensures NoInterpreterAvailable(DependencyList(host, d, dirPath, e, enableVenv), e.interpreters)
      <==> e.interpreters != [] && forall n :: n in e.interpreters ==> !Probe.OnPath(host, n)
  {
    RequiredAreInterpreterChecks(host, d, dirPath, e, enableVenv);
    InterpreterChecksPointwise(host, e.interpreters);
    NoneAvailableIff(host, e.interpreters);
  }

  /** The required interpreter-named records of the list are its interpreter checks. */
  lemma RequiredAreInterpreterChecks(host: Probe.Host, d: Dir, dirPath: string, e: Registry.Ecosystem, enableVenv: bool)
    requires forall n :: n in e.interpreters ==> n !in DeepCheckNames
    ensures RequiredInterpreters(DependencyList(host, d, dirPath, e, enableVenv), e.interpreters)
      == InterpreterChecks(host, e.interpreters)
  {
    var ic := InterpreterChecks(host, e.interpreters);
    RequiredInterpretersAppend(ic, ConfigChecks(d, dirPath, host, enableVenv, e.configFiles), e.interpreters);
    ConfigChecksNotInterpreters(d, dirPath, host, enableVenv, e.configFiles, e.interpreters);
    InterpreterChecksAllRequired(host, e.interpreters, e.interpreters);
  }

  /** Every interpreter check reports unavailable exactly when no interpreter is on the path. */
  lemma NoneAvailableIff(host: Probe.Host, names: seq<string>)
    ensures (forall c :: c in InterpreterChecks(host, names) ==> !c.available)
      <==> forall n :: n in names ==> !Probe.OnPath(host, n)
  {
    var ic := InterpreterChecks(host, names);
    InterpreterChecksPointwise(host, names);
    if forall c :: c in ic ==> !c.available {
      forall n | n in names ensures !Probe.OnPath(host, n) {
        var k :| 0 <= k < |names| && names[k] == n;
        assert ic[k] in ic;
      }
    }
  }

  /** No registry interpreter shares its name with a deep check. */
  lemma RegistryInterpretersAreNotDeepChecks(k: nat)
    requires k < |Registry.Ecosystems()|
    ensures forall n :: n in Registry.Ecosystems()[k].interpreters ==> n !in DeepCheckNames
  {
  }

  /** Config checks hold only config-presence records and deep-check records. */
  lemma {:induction false} ConfigChecksMembers(d: Dir, dirPath: string, host: Probe.Host, enableVenv: bool, names: seq<string>)
    ensures forall c :: c in ConfigChecks(d, dirPath, host, enableVenv, names) ==>
      exists n :: n in names && Exists(d, n)
        && (c == ConfigFileCheck(n) || c in DeepChecks(d, dirPath, host, enableVenv, n))
    ensures forall n :: n in names && Exists(d, n) ==> ConfigFileCheck(n) in ConfigChecks(d, dirPath, host, enableVenv, names)
  {
    if names != [] {
      var init, last := names[..|names| - 1], names[|names| - 1];
      ConfigChecksMembers(d, dirPath, host, enableVenv, init);
      assert names == init + [last];
      assert forall n :: n in init ==> n in names;
    }
  }

  /** The only records the auto-fixer can act on are node_modules (the
      directory missing) and Cargo dependencies (no `target`). */
  lemma OnlyNodeModulesAndCargoNeedFix(host: Probe.Host, d: Dir, dirPath: string, e: Registry.Ecosystem, enableVenv: bool)
    ensures forall c :: c in DependencyList(host, d, dirPath, e, enableVenv) && NeedsFix(c) ==>
      c.name == "node_modules" || c.name == "Cargo dependencies"
  {
    InterpreterChecksPointwise(host, e.interpreters);
    ConfigChecksMembers(d, dirPath, host, enableVenv, e.configFiles);
  }

  /** Every existing config file of the entry has its presence record in the
      dependency list. */
  lemma ConfigRecordsMatchConfigFiles(host: Probe.Host, d: Dir, dirPath: string, e: Registry.Ecosystem, enableVenv: bool)
    ensures forall n :: n in GetConfigFiles(d, e) ==>
      ConfigFileCheck(n) in DependencyList(host, d, dirPath, e, enableVenv)
  {
    ConfigChecksMembers(d, dirPath, host, enableVenv, e.configFiles);
  }

  /** The list begins with exactly one required, not auto-fixable check per interpreter. */
  lemma InterpreterPrefix(host: Probe.Host, d: Dir, dirPath: string, e: Registry.Ecosystem, enableVenv: bool)
    ensures var interps := e.interpreters;
      var deps := DependencyList(host, d, dirPath, e, enableVenv);
      |deps| >= |interps| &&
      forall k :: 0 <= k < |interps| ==>
        deps[k].name == interps[k] && deps[k].required && !deps[k].canAutoFix
        && (deps[k].available <==> Probe.OnPath(host, interps[k]))
  {
    InterpreterChecksPointwise(host, e.interpreters);
  }

  /** With dependencies declared and node_modules missing, the fix installs
      with pnpm, yarn or npm by lock file. */
  lemma NodeModulesFix(d: Dir, dirPath: string, doc: Doc)
    requires DocOf(d, "package.json") == Some(doc)
    requires Truthy(Get(doc, "dependencies")) || Truthy(Get(doc, "devDependencies"))
    requires !Exists(d, "node_modules")
    ensures PackageJsonChecks(d, dirPath) == [DependencyCheck("node_modules", true, false, None,
      Some("Dependencies NOT installed"), Some("cd " + dirPath + " && " + PackageManager(d) + " install"), true)]
    ensures PackageManager(d) == (if Exists(d, "pnpm-lock.yaml") then "pnpm"
      else if Exists(d, "yarn.lock") then "yarn" else "npm")
  {
  }

  /** A requirements file with requirements always yields the Python packages
      record, preceded by the venv suggestion exactly when no venv directory
      exists and the feature is on. */
  lemma RequirementsShape(d: Dir, dirPath: string, host: Probe.Host, enableVenv: bool, lines: seq<string>)
    requires TextOf(d, "requirements.txt") == Some(lines) && RequirementCount(lines) > 0
    ensures var r := RequirementsChecks(d, dirPath, host, enableVenv);
      var suggest := !(Exists(d, "venv") || Exists(d, "env") || Exists(d, ".venv")) && enableVenv;
      |r| == (if suggest then 2 else 1)
      && r[|r| - 1].name == "Python packages" && r[|r| - 1].available
      && (suggest ==> r[0].name == "Python virtual environment" && !r[0].required)
  {
  }

  /** Requirement lines are told from comments before stripping: an indented
      comment counts as a requirement. */
  lemma IndentedCommentCounts(rest: string)
    ensures IsRequirement(" #" + rest)
    ensures !IsRequirement("#" + rest)
  {
    var line := " #" + rest;
    assert line[1..] == "#" + rest;
    assert TrimLeft(line) == "#" + rest;
  }

  /** has_config = the file's ecosystem lists a config file present beside it. */
  lemma HasConfigIffSomePresent(d: Dir, names: seq<string>)
    ensures ConfigFilesPresent(d, names) != [] <==> exists n :: n in names && Exists(d, n)
  {
    if exists n :: n in names && Exists(d, n) {
      var n :| n in names && Exists(d, n);
      assert n in ConfigFilesPresent(d, names);
    }
  }
}
