/**
 * The records the discovery engine produces: dependency checks, the detected
 * environment, task runners and framework of a directory, and the
 * discovered-program record that gathers them.
 */
module Records {
  import opened Text
  import FileTree

  /** One dependency check; `fixCommand` is None where the source leaves it unset. */
  datatype DependencyCheck = DependencyCheck(
    name: string,
    required: bool,
    available: bool,
    version: Option<string>,
    message: Option<string>,
    fixCommand: Option<string>,
    canAutoFix: bool)

  /** Required, missing, and repairable by a command: what the auto-fixer acts on. */
  predicate NeedsFix(d: DependencyCheck) {
    d.required && !d.available && d.canAutoFix
  }

  /** Python truthiness of `dep.fix_command`: present and not the empty string. */
  predicate HasFixCommand(d: DependencyCheck) {
    d.fixCommand.Some? && d.fixCommand.value != ""
  }

  datatype EnvironmentKind = Venv | Conda | Docker | DockerCompose

  /** A detected environment; `active` is always false in the source and is not kept. */
  datatype Environment = Environment(
    kind: EnvironmentKind,
    path: string,
    pythonVersion: Option<string>,
    activationCommand: Option<string>)

  datatype RunnerKind = Make | Just | Npm | Task

  datatype TaskRunner = TaskRunner(kind: RunnerKind, file: string, tasks: seq<string>)

  datatype Framework = Framework(
    name: string,
    version: Option<FileTree.Value>,
    entryPoint: Option<string>,
    commands: seq<(string, string)>)

  datatype ExecutableProgram = ExecutableProgram(
    path: string,
    name: string,
    relativeParts: seq<string>,
    ecosystem: string,
    interpreters: seq<string>,
    score: int,
    dependencies: seq<DependencyCheck>,
    hasConfig: bool,
    configFiles: seq<string>,
    complexity: string,
    environment: Option<Environment>,
    framework: Option<Framework>,
    taskRunners: seq<TaskRunner>)

  /** The number of directories between the scan root and the program's file. */
  function Depth(p: ExecutableProgram): int {
    |p.relativeParts| - 1
  }
}
