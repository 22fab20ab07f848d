/**
 * The ecosystem registry: one immutable record per language tag, in the
 * order the scanner tries them. A file belongs to the first ecosystem whose
 * extension list holds its lower-cased suffix; the last entry, Executable,
 * has no extensions and collects extension-less files with the exec bit.
 */
module Registry {
  import opened Text

  datatype Ecosystem = Ecosystem(
    name: string,
    extensions: seq<string>,
    interpreters: seq<string>,
    configFiles: seq<string>)

  const ExecutableTag := "Executable"

  function Ecosystems(): seq<Ecosystem> {
    [
    Ecosystem("Python", [".py", ".pyw", ".pyc"], ["python3", "python"], ["requirements.txt", "setup.py", "pyproject.toml", "Pipfile", "poetry.lock", "environment.yml"]),
    Ecosystem("JavaScript", [".js", ".mjs", ".cjs"], ["node"], ["package.json", "package-lock.json", "yarn.lock", "pnpm-lock.yaml"]),
    Ecosystem("TypeScript", [".ts", ".tsx"], ["ts-node", "deno", "bun"], ["tsconfig.json", "package.json"]),
    Ecosystem("Go", [".go"], ["go"], ["go.mod", "go.sum"]),
    Ecosystem("Rust", [".rs"], ["cargo"], ["Cargo.toml", "Cargo.lock"]),
    Ecosystem("Java", [".java"], ["java", "javac"], ["pom.xml", "build.gradle", "build.gradle.kts"]),
    Ecosystem("C#", [".cs"], ["dotnet"], ["*.csproj", "*.sln"]),
    Ecosystem("Ruby", [".rb"], ["ruby"], ["Gemfile", "Gemfile.lock"]),
    Ecosystem("PHP", [".php"], ["php"], ["composer.json", "composer.lock"]),
    Ecosystem("Swift", [".swift"], ["swift"], ["Package.swift"]),
    Ecosystem("Kotlin", [".kt", ".kts"], ["kotlin"], ["build.gradle.kts", "pom.xml"]),
    Ecosystem("Scala", [".scala"], ["scala"], ["build.sbt", "pom.xml"]),
    Ecosystem("R", [".r", ".R"], ["Rscript"], ["DESCRIPTION", "renv.lock"]),
    Ecosystem("Julia", [".jl"], ["julia"], ["Project.toml", "Manifest.toml"]),
    Ecosystem("Perl", [".pl", ".pm"], ["perl"], ["cpanfile"]),
    Ecosystem("Lua", [".lua"], ["lua"], ["rockspec"]),
    Ecosystem("Haskell", [".hs"], ["ghc", "runghc"], ["package.yaml", "stack.yaml"]),
    Ecosystem("Elixir", [".ex", ".exs"], ["elixir"], ["mix.exs"]),
    Ecosystem("Clojure", [".clj", ".cljs"], ["clojure"], ["project.clj", "deps.edn"]),
    Ecosystem("Dart", [".dart"], ["dart"], ["pubspec.yaml"]),
    Ecosystem(ExecutableTag, [], [], [])
    ]
  }

  /** executable_patterns.get(tag, {}): the entry with that tag, if any. */
  function Lookup(tag: string): (r: Option<Ecosystem>)
    ensures r.Some? ==> r.value in Ecosystems() && r.value.name == tag
    ensures r.None? ==> forall e :: e in Ecosystems() ==> e.name != tag
  {
    LookupFrom(tag, 0)
  }

  function LookupFrom(tag: string, k: nat): (r: Option<Ecosystem>)
    requires k <= |Ecosystems()|
    ensures r.Some? ==> r.value in Ecosystems()[k..] && r.value.name == tag
    ensures r.None? ==> forall j :: k <= j < |Ecosystems()| ==> Ecosystems()[j].name != tag
    decreases |Ecosystems()| - k
  {
    if k == |Ecosystems()| then None
    else if Ecosystems()[k].name == tag then Some(Ecosystems()[k])
    else LookupFrom(tag, k + 1)
  }

  /** The interpreter names of a tag; empty for an unknown tag. */
  function InterpretersOf(tag: string): seq<string> {
    match Lookup(tag)
    case Some(e) => e.interpreters
    case None => []
  }

  /** The config-file names of a tag; empty for an unknown tag. */
  function ConfigFilesOf(tag: string): seq<string> {
    match Lookup(tag)
    case Some(e) => e.configFiles
    case None => []
  }

  /** Only the Executable pseudo-ecosystem lacks extensions, and it alone needs no interpreter. */
  lemma OnlyExecutableHasNoExtensions(k: nat)
    requires k < |Ecosystems()|
    ensures Ecosystems()[k].extensions == [] <==> Ecosystems()[k].name == ExecutableTag
    ensures Ecosystems()[k].interpreters == [] <==> Ecosystems()[k].name == ExecutableTag
  {
  }
}
