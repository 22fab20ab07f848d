/**
 * Environment detection for one directory, a first-match-wins chain: a
 * virtual environment with a working interpreter, then a conda file, then a
 * compose file, then a Dockerfile when Docker support is enabled.
 */
module Environments {
  import opened Text
  import opened FileTree
  import opened Records

  /** What `<venv python> --version` printed on stdout, keyed by the interpreter's
      path; a path absent from the map stands for a call that raised. */
  type VenvHost = map<string, string>

  const VenvNames: seq<string> := ["venv", "env", ".venv", "virtualenv", ".env"]

  /** The interpreter inside a virtual environment, relative to it. */
  function VenvPython(windows: bool): seq<string> {
    if windows then ["Scripts", "python.exe"] else ["bin", "python"]
  }

  function VenvPythonPath(venvPath: string, windows: bool): string {
    if windows then Child(Child(venvPath, "Scripts", windows), "python.exe", windows)
    else Child(Child(venvPath, "bin", windows), "python", windows)
  }

  function ActivationCommand(venvPath: string, windows: bool): string {
    if windows then venvPath + "\\Scripts\\activate" else "source " + venvPath + "/bin/activate"
  }

  /** The venv environment found among names[k..], trying them in order. */
  function FindVenv(d: Dir, path: string, host: VenvHost, windows: bool, k: nat): (r: Option<Environment>)
    requires k <= |VenvNames|
    ensures r.Some? ==> r.value.kind == Venv
    decreases |VenvNames| - k
  {
    if k == |VenvNames| then None
    else
      var venvPath := Child(path, VenvNames[k], windows);
      var exe := VenvPythonPath(venvPath, windows);
      if Exists(d, VenvNames[k]) && ExistsPath(d, [VenvNames[k]] + VenvPython(windows)) && exe in host
      then Some(Environment(Venv, venvPath, Some(Strip(host[exe])), Some(ActivationCommand(venvPath, windows))))
      else FindVenv(d, path, host, windows, k + 1)
  }

  /** detect_environment for the directory d at `path`. The compose check looks
      only at `docker-compose.yml`. */
  function DetectEnvironment(d: Dir, path: string, host: VenvHost, windows: bool, enableDocker: bool)
    : (r: Option<Environment>)
  {
    match FindVenv(d, path, host, windows, 0)
    case Some(env) => Some(env)
    case None =>
      if Exists(d, "environment.yml") then
        Some(Environment(Conda, path, None, Some("conda env create -f " + Child(path, "environment.yml", windows))))
      else if Exists(d, "docker-compose.yml") then
        Some(Environment(DockerCompose, Child(path, "docker-compose.yml", windows), None, Some("docker-compose up")))
      else if Exists(d, "Dockerfile") && enableDocker then
        Some(Environment(Docker, Child(path, "Dockerfile", windows), None,
          Some("docker build -t app " + path + " && docker run app")))
      else None
  }

  /** A virtual environment is usable when its directory, its interpreter and
      the interpreter's version call all succeed. */
  predicate VenvUsable(d: Dir, path: string, host: VenvHost, windows: bool, k: nat)
    requires k < |VenvNames|
  {
    Exists(d, VenvNames[k]) && ExistsPath(d, [VenvNames[k]] + VenvPython(windows))
    && VenvPythonPath(Child(path, VenvNames[k], windows), windows) in host
  }

  /** The first usable name wins; a name whose probe raises is passed over. */
  lemma {:induction false} FindVenvFirstUsable(d: Dir, path: string, host: VenvHost, windows: bool, k: nat)
    requires k <= |VenvNames|
    ensures FindVenv(d, path, host, windows, k).None? <==>
      forall j :: k <= j < |VenvNames| ==> !VenvUsable(d, path, host, windows, j)
    ensures FindVenv(d, path, host, windows, k).Some? ==>
      exists j :: k <= j < |VenvNames| && VenvUsable(d, path, host, windows, j)
        && (forall i :: k <= i < j ==> !VenvUsable(d, path, host, windows, i))
        && FindVenv(d, path, host, windows, k).value.path == Child(path, VenvNames[j], windows)
    decreases |VenvNames| - k
  {
    if k < |VenvNames| {
      FindVenvFirstUsable(d, path, host, windows, k + 1);
      if !VenvUsable(d, path, host, windows, k) {
        if FindVenv(d, path, host, windows, k).Some? {
          var j :| k + 1 <= j < |VenvNames| && VenvUsable(d, path, host, windows, j)
            && (forall i :: k + 1 <= i < j ==> !VenvUsable(d, path, host, windows, i))
            && FindVenv(d, path, host, windows, k + 1).value.path == Child(path, VenvNames[j], windows);
          assert forall i :: k <= i < j ==> !VenvUsable(d, path, host, windows, i);
        }
      }
    }
  }

  /** The environment kinds in the order they are tried. */
  function KindRank(k: EnvironmentKind): nat {
    match k
    case Venv => 0
    case Conda => 1
    case DockerCompose => 2
    case Docker => 3
  }

  /** Whether the check for a kind succeeds on its own. */
  predicate Applies(d: Dir, path: string, host: VenvHost, windows: bool, enableDocker: bool, k: EnvironmentKind) {
    match k
    case Venv => FindVenv(d, path, host, windows, 0).Some?
    case Conda => Exists(d, "environment.yml")
    case DockerCompose => Exists(d, "docker-compose.yml")
    case Docker => Exists(d, "Dockerfile") && enableDocker
  }

  /** First match wins: the detected kind applies and no earlier kind does;
      no environment means no kind applies. */
  lemma DetectEnvironmentFirstMatch(d: Dir, path: string, host: VenvHost, windows: bool, enableDocker: bool)
    ensures var r := DetectEnvironment(d, path, host, windows, enableDocker);
      && (r.Some? ==> Applies(d, path, host, windows, enableDocker, r.value.kind))
      && (r.Some? ==> forall k: EnvironmentKind :: KindRank(k) < KindRank(r.value.kind) ==>
            !Applies(d, path, host, windows, enableDocker, k))
      && (r.None? <==> forall k: EnvironmentKind :: !Applies(d, path, host, windows, enableDocker, k))
  {
    var r := DetectEnvironment(d, path, host, windows, enableDocker);
    if r.None? {
      forall k: EnvironmentKind ensures !Applies(d, path, host, windows, enableDocker, k) {
        match k {
          case Venv =>
          case Conda =>
          case DockerCompose =>
          case Docker =>
        }
      }
    }
  }

  /** Only the `.yml` spelling of the compose file is looked at. */
  lemma ComposeYamlSpellingIgnored(d: Dir, path: string, host: VenvHost, windows: bool, enableDocker: bool)
    requires Exists(d, "docker-compose.yaml") && !Exists(d, "docker-compose.yml")
    requires !Exists(d, "Dockerfile") && !Exists(d, "environment.yml")
    requires FindVenv(d, path, host, windows, 0).None?
    ensures DetectEnvironment(d, path, host, windows, enableDocker).None?
  {
  }

  /** With Docker support disabled a lone Dockerfile yields no environment, while
      a compose file is still reported. */
  lemma DockerGate(d: Dir, path: string, host: VenvHost, windows: bool)
    requires FindVenv(d, path, host, windows, 0).None? && !Exists(d, "environment.yml")
    ensures !Exists(d, "docker-compose.yml") ==> DetectEnvironment(d, path, host, windows, false).None?
    ensures Exists(d, "docker-compose.yml") ==>
      DetectEnvironment(d, path, host, windows, false).value.kind == DockerCompose
  {
  }
}
