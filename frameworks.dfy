/**
 * Framework detection for one directory, a first-match-wins chain: Django
 * (for any language), Flask and FastAPI for Python, the JavaScript
 * frameworks for any directory with a package.json, then Rails, Laravel,
 * Spring Boot / Quarkus / Micronaut, Gin / Echo and Actix / Rocket, each for
 * its own language. A probe whose file is missing, unreadable or malformed
 * passes on to the next.
 */
module Frameworks {
  import opened Text
  import opened FileTree
  import opened Records

  /** The whole text of a file, its lines joined again. */
  function Content(lines: seq<string>): string {
    Join(lines, "\n")
  }

  /** The text of d/name contains sub; false when it is missing or unreadable. */
  predicate FileMentions(d: Dir, name: string, sub: string) {
    TextOf(d, name).Some? && Contains(Content(TextOf(d, name).value), sub)
  }

  /** e is a readable `*.py` file whose text holds a or b. */
  predicate PyImporting(e: Entry, a: string, b: string) {
    e.FileEntry? && EndsWith(e.file.name, ".py") && e.file.text.Some? &&
    (Contains(Content(e.file.text.value), a) || Contains(Content(e.file.text.value), b))
  }

  /** The first `*.py` file of es (in directory order) whose text holds a or b. */
  function FirstPyImporting(es: seq<Entry>, a: string, b: string): (r: Option<File>)
    ensures r.Some? ==> FileEntry(r.value) in es && EndsWith(r.value.name, ".py") && r.value.text.Some?
    ensures r.Some? ==> Contains(Content(r.value.text.value), a) || Contains(Content(r.value.text.value), b)
    ensures r.Some? ==> exists j :: (0 <= j < |es| && es[j] == FileEntry(r.value) &&
      forall i :: 0 <= i < j ==> !PyImporting(es[i], a, b))
    ensures r.None? <==> forall i :: 0 <= i < |es| ==> !PyImporting(es[i], a, b)
  {
    if es == [] then None
    else if PyImporting(es[0], a, b) then
      assert es[0] == FileEntry(es[0].file);
      Some(es[0].file)
    else
      var r := FirstPyImporting(es[1..], a, b);
      assert forall i :: 1 <= i < |es| ==> es[i] == es[1..][i - 1];
      assert r.Some? ==> exists j :: (1 <= j < |es| && es[j] == FileEntry(r.value) &&
        forall i :: 0 <= i < j ==> !PyImporting(es[i], a, b)) by {
        if r.Some? {
          var j :| 0 <= j < |es[1..]| && es[1..][j] == FileEntry(r.value) &&
            forall i :: 0 <= i < j ==> !PyImporting(es[1..][i], a, b);
          assert es[j + 1] == FileEntry(r.value);
        }
      }
      r
  }

  // ---------------------------------------------------------------------------
  // package.json

  /** The outcome of a membership test followed by a `.get` on the value found. */
  datatype Probe = Hit(version: Option<Value>) | Miss | Raises

  /** `needle in v` then `v.get(key)`: a mapping tests its keys, a list its
      items, a string its substrings; a string or a list that passes the test
      has no `.get`, and membership in a scalar raises outright. */
  function NestedProbe(v: Option<Value>, needle: string, key: string): Probe {
    match v
    case None => Miss
    case Some(Mapping(es)) => if needle in Keys(es) then Hit(ValueOf(es, key)) else Miss
    case Some(List(items)) => if Str(needle) in items then Raises else Miss
    case Some(Str(s)) => if Contains(s, needle) then Raises else Miss
    case Some(Scalar(_)) => Raises
  }

  /** `key in {**deps, **dev}`. */
  predicate InMerged(deps: seq<(string, Value)>, dev: seq<(string, Value)>, key: string) {
    key in Keys(deps) || key in Keys(dev)
  }

  /** `{**deps, **dev}.get(key)`: the dev entry overrides the runtime one. */
  function MergedValue(deps: seq<(string, Value)>, dev: seq<(string, Value)>, key: string): (r: Option<Value>)
    ensures r.Some? <==> InMerged(deps, dev, key)
  {
    if ValueOf(dev, key).Some? then ValueOf(dev, key) else ValueOf(deps, key)
  }

  /** The plain-key candidates in priority order: key, framework name, commands. */
  const JsCandidates: seq<(string, string, seq<(string, string)>)> := [
    ("next", "Next.js", [("dev", "npm run dev"), ("build", "npm run build"), ("start", "npm start"), ("export", "npm run export")]),
    ("react", "React", [("start", "npm start"), ("build", "npm run build"), ("test", "npm test")]),
    ("vue", "Vue.js", [("serve", "npm run serve"), ("build", "npm run build")]),
    ("svelte", "Svelte", [("dev", "npm run dev"), ("build", "npm run build")]),
    ("nuxt", "Nuxt.js", [("dev", "npm run dev"), ("build", "npm run build"), ("generate", "npm run generate")]),
    ("express", "Express.js", [("start", "npm start"), ("dev", "npm run dev")])
  ]

  const AngularCommands: seq<(string, string)> := [("serve", "ng serve"), ("build", "ng build"), ("test", "ng test")]
  const NestCommands: seq<(string, string)> := [("start", "npm run start"), ("build", "npm run build"), ("test", "npm run test")]

  function Candidate(deps: seq<(string, Value)>, dev: seq<(string, Value)>, k: nat): Framework
    requires k < |JsCandidates|
  {
    Framework(JsCandidates[k].1, MergedValue(deps, dev, JsCandidates[k].0), None, JsCandidates[k].2)
  }

  /** The chain from candidate k on. The Angular probe sits between vue and
      svelte and the NestJS probe after express; both read the entry of the
      merged mapping whose key is literally "dependencies". */
  function JsChain(deps: seq<(string, Value)>, dev: seq<(string, Value)>, k: nat): Option<Framework>
    requires k <= |JsCandidates|
    decreases |JsCandidates| - k, 1
  {
    if k == 3 then
      match NestedProbe(MergedValue(deps, dev, "dependencies"), "angular", "@angular/core")
      case Hit(v) => Some(Framework("Angular", v, None, AngularCommands))
      case Raises => None
      case Miss => JsFrom(deps, dev, k)
    else JsFrom(deps, dev, k)
  }

  function JsFrom(deps: seq<(string, Value)>, dev: seq<(string, Value)>, k: nat): Option<Framework>
    requires k <= |JsCandidates|
    decreases |JsCandidates| - k, 0
  {
    if k == |JsCandidates| then
      match NestedProbe(MergedValue(deps, dev, "dependencies"), "nest", "@nestjs/core")
      case Hit(v) => Some(Framework("NestJS", v, None, NestCommands))
      case _ => None
    else if InMerged(deps, dev, JsCandidates[k].0) then Some(Candidate(deps, dev, k))
    else JsChain(deps, dev, k + 1)
  }

  /** The package.json part of detect_framework; None also when the file does
      not parse to a mapping or a dependency section is not a mapping (the
      merge raises there). */
  function JsFramework(doc: Option<Doc>): Option<Framework> {
    match doc
    case None => None
    case Some(dcm) =>
      match (Get(dcm, "dependencies"), Get(dcm, "devDependencies"))
      case (Mapping(deps), Mapping(dev)) => JsChain(deps, dev, 0)
      case _ => None
  }

  // ---------------------------------------------------------------------------
  // The whole chain

  const TestWithPytest := ("test", "python -m pytest")

  /** detect_framework for the directory d at `path`, for a file of ecosystem progType. */
  function DetectFramework(d: Dir, path: string, progType: string, windows: bool): Option<Framework> {
    var flask := FirstPyImporting(d.entries, "from flask import", "import flask");
    var fastapi := FirstPyImporting(d.entries, "from fastapi import", "import fastapi");
    if Exists(d, "manage.py") then
      Some(Framework("Django", None, Some(Child(path, "manage.py", windows)),
        [("runserver", "python manage.py runserver"), ("migrate", "python manage.py migrate"),
         ("shell", "python manage.py shell"), ("test", "python manage.py test")]))
    else if progType == "Python" && flask.Some? then
      Some(Framework("Flask", None, Some(Child(path, flask.value.name, windows)),
        [("run", "python " + flask.value.name), TestWithPytest]))
    else if progType == "Python" && fastapi.Some? then
      Some(Framework("FastAPI", None, Some(Child(path, fastapi.value.name, windows)),
        [("run", "uvicorn " + Stem(fastapi.value.name) + ":app --reload"), TestWithPytest]))
    else if Exists(d, "package.json") && JsFramework(DocOf(d, "package.json")).Some? then
      JsFramework(DocOf(d, "package.json"))
    else LanguageFramework(d, progType)
  }

  /** The language-gated probes after the JavaScript ones. */
  function LanguageFramework(d: Dir, progType: string): Option<Framework> {
    if progType == "Ruby" && FileMentions(d, "Gemfile", "rails") then
      Some(Framework("Ruby on Rails", None, None,
        [("server", "rails server"), ("console", "rails console"), ("test", "rails test")]))
    else if progType == "PHP" && LaravelVersion(DocOf(d, "composer.json")).Some? then
      Some(Framework("Laravel", LaravelVersion(DocOf(d, "composer.json")).value, None,
        [("serve", "php artisan serve"), ("test", "php artisan test")]))
    else if progType == "Java" && FileMentions(d, "pom.xml", "spring-boot") then
      Some(Framework("Spring Boot", None, None, [("run", "mvn spring-boot:run"), ("test", "mvn test")]))
    else if progType == "Java" && FileMentions(d, "pom.xml", "quarkus") then
      Some(Framework("Quarkus", None, None, [("dev", "mvn quarkus:dev"), ("test", "mvn test")]))
    else if progType == "Java" && FileMentions(d, "pom.xml", "micronaut") then
      Some(Framework("Micronaut", None, None, [("run", "mvn mn:run"), ("test", "mvn test")]))
    else if progType == "Go" && FileMentions(d, "go.mod", "gin") then
      Some(Framework("Gin", None, None, [("run", "go run ."), ("build", "go build"), ("test", "go test")]))
    else if progType == "Go" && FileMentions(d, "go.mod", "echo") then
      Some(Framework("Echo", None, None, [("run", "go run ."), ("build", "go build"), ("test", "go test")]))
    else if progType == "Rust" && FileMentions(d, "Cargo.toml", "actix") then
      Some(Framework("Actix", None, None, [("run", "cargo run"), ("build", "cargo build"), ("test", "cargo test")]))
    else if progType == "Rust" && FileMentions(d, "Cargo.toml", "rocket") then
      Some(Framework("Rocket", None, None, [("run", "cargo run"), ("build", "cargo build"), ("test", "cargo test")]))
    else None
  }

  /** Some(version) when composer.json requires laravel/framework; a `require`
      value that is not a mapping either fails the test or raises. */
  function LaravelVersion(doc: Option<Doc>): Option<Option<Value>> {
    match doc
    case None => None
    case Some(dcm) =>
      match Get(dcm, "require")
      case Mapping(es) => if "laravel/framework" in Keys(es) then Some(ValueOf(es, "laravel/framework")) else None
      case _ => None
  }

  // ---------------------------------------------------------------------------
  // Properties

  /** Django is recognised from manage.py whatever the file's language. */
  lemma DjangoForAnyLanguage(d: Dir, path: string, progType: string, windows: bool)
    requires Exists(d, "manage.py")
    ensures DetectFramework(d, path, progType, windows).Some?
    ensures DetectFramework(d, path, progType, windows).value.name == "Django"
  {
  }

  /** The JavaScript probe is not gated by language either. */
  lemma JsForAnyLanguage(d: Dir, path: string, progType: string, windows: bool)
    requires !Exists(d, "manage.py") && progType != "Python"
    requires Exists(d, "package.json") && JsFramework(DocOf(d, "package.json")).Some?
    ensures DetectFramework(d, path, progType, windows) == JsFramework(DocOf(d, "package.json"))
  {
  }

  /** The Angular probe fires only when the merged dependencies hold a package
      literally called "dependencies" whose value is a mapping with an
      "angular" key; NestJS likewise with "nest". */
  lemma {:induction false} StarredProbesNeedOddKey(deps: seq<(string, Value)>, dev: seq<(string, Value)>, k: nat)
    requires k <= |JsCandidates|
    ensures var r := JsChain(deps, dev, k);
      (r.Some? && r.value.name in {"Angular", "NestJS"}) ==>
        (MergedValue(deps, dev, "dependencies").Some? && MergedValue(deps, dev, "dependencies").value.Mapping?)
    decreases |JsCandidates| - k
  {
    if k < |JsCandidates| {
      StarredProbesNeedOddKey(deps, dev, k + 1);
    }
  }

  /** In a package.json without a package named "dependencies", the framework is
      the first candidate key present in the merged dependencies, carrying that
      key's declared version (the devDependencies one when both declare it). */
  lemma {:induction false} JsFirstKeyWins(deps: seq<(string, Value)>, dev: seq<(string, Value)>, k: nat)
    requires k <= |JsCandidates|
    requires !InMerged(deps, dev, "dependencies")
    ensures JsChain(deps, dev, k).None? <==>
      forall j :: k <= j < |JsCandidates| ==> !InMerged(deps, dev, JsCandidates[j].0)
    ensures JsChain(deps, dev, k).Some? ==>
      exists j :: k <= j < |JsCandidates| && InMerged(deps, dev, JsCandidates[j].0)
        && (forall i :: k <= i < j ==> !InMerged(deps, dev, JsCandidates[i].0))
        && JsChain(deps, dev, k) == Some(Candidate(deps, dev, j))
    decreases |JsCandidates| - k
  {
    if k < |JsCandidates| {
      JsFirstKeyWins(deps, dev, k + 1);
      if !InMerged(deps, dev, JsCandidates[k].0) && JsChain(deps, dev, k).Some? {
        assert JsChain(deps, dev, k) == JsChain(deps, dev, k + 1);
        var j :| k + 1 <= j < |JsCandidates| && InMerged(deps, dev, JsCandidates[j].0)
          && (forall i :: k + 1 <= i < j ==> !InMerged(deps, dev, JsCandidates[i].0))
          && JsChain(deps, dev, k + 1) == Some(Candidate(deps, dev, j));
        assert forall i :: k <= i < j ==> !InMerged(deps, dev, JsCandidates[i].0);
      }
    }
  }

  /** Next.js wins over React when both are declared, with the declared version. */
  lemma NextBeatsReact(deps: seq<(string, Value)>, dev: seq<(string, Value)>)
    requires "next" in Keys(deps) && "react" in Keys(deps)
    ensures JsChain(deps, dev, 0) == Some(Framework("Next.js", MergedValue(deps, dev, "next"), None, JsCandidates[0].2))
  {
  }

  /** A file that mentions both gin and echo is a Gin project; actix beats rocket. */
  lemma GoAndRustOrder(d: Dir)
    ensures FileMentions(d, "go.mod", "gin") ==> LanguageFramework(d, "Go").value.name == "Gin"
    ensures (!FileMentions(d, "go.mod", "gin") && FileMentions(d, "go.mod", "echo")) ==>
      LanguageFramework(d, "Go").value.name == "Echo"
    ensures FileMentions(d, "Cargo.toml", "actix") ==> LanguageFramework(d, "Rust").value.name == "Actix"
    ensures (!FileMentions(d, "Cargo.toml", "actix") && FileMentions(d, "Cargo.toml", "rocket")) ==>
      LanguageFramework(d, "Rust").value.name == "Rocket"
  {
  }

  /** The Java probes go spring-boot, quarkus, micronaut. */
  lemma JavaOrder(d: Dir)
    ensures FileMentions(d, "pom.xml", "spring-boot") ==> LanguageFramework(d, "Java").value.name == "Spring Boot"
    ensures (!FileMentions(d, "pom.xml", "spring-boot") && FileMentions(d, "pom.xml", "quarkus")) ==>
      LanguageFramework(d, "Java").value.name == "Quarkus"
    ensures (!FileMentions(d, "pom.xml", "spring-boot") && !FileMentions(d, "pom.xml", "quarkus")
      && FileMentions(d, "pom.xml", "micronaut")) ==> LanguageFramework(d, "Java").value.name == "Micronaut"
    ensures (!FileMentions(d, "pom.xml", "spring-boot") && !FileMentions(d, "pom.xml", "quarkus")
      && !FileMentions(d, "pom.xml", "micronaut")) ==> LanguageFramework(d, "Java").None?
  {
  }

  /** Flask is looked for before FastAPI, each in directory order. */
  lemma FlaskBeforeFastApi(d: Dir, path: string, windows: bool)
    requires !Exists(d, "manage.py")
    ensures var flask := FirstPyImporting(d.entries, "from flask import", "import flask");
      flask.Some? ==>
        (DetectFramework(d, path, "Python", windows)
         == Some(Framework("Flask", None, Some(Child(path, flask.value.name, windows)),
              [("run", "python " + flask.value.name), TestWithPytest])))
  {
  }
}
