/**
 * The directory scanner: a depth-first walk from the scan root. In every
 * directory within the depth limit the environment and the task runners are
 * detected once and shared by every program found there. Each file is offered
 * to the ecosystems in registry order; the first that claims it, passes the
 * exec-bit rule of the Executable pseudo-ecosystem and has an interpreter on
 * the search path turns it into a program. Sub-directories whose name starts
 * with '.' or is excluded are not entered. An unreadable directory
 * contributes nothing. The walk is specified by the files it looks at (Visits)
 * and what each of them yields (Programs), and carried out by the method
 * ScanDirectory; the final ranking is in module Ranking.
 */
module Scanner {
  import opened Text
  import opened FileTree
  import opened Records
  import Registry
  import Probe
  import Scorer
  import Environments
  import TaskRunners
  import Frameworks
  import Dependencies

  /** The configuration and host inputs of one scan. */
  datatype ScanConfig = ScanConfig(
    maxDepth: int,
    excludeDirs: seq<string>,
    windows: bool,
    enableDocker: bool,
    enableVenv: bool,
    host: Probe.Host,
    venvHost: Environments.VenvHost)

  /** A directory being scanned: its snapshot, its path, its path relative to
      the root (one part per level, so its depth is |rel|) and what was
      detected for it once. */
  datatype DirContext = DirContext(
    dir: Dir,
    path: string,
    rel: seq<string>,
    environment: Option<Environment>,
    runners: seq<TaskRunner>)

  /** The programs found and the number of files looked at. */
  datatype Tally = Tally(programs: seq<ExecutableProgram>, scanned: nat)

  function Context(d: Dir, path: string, rel: seq<string>, cfg: ScanConfig): DirContext {
    DirContext(d, path, rel,
      Environments.DetectEnvironment(d, path, cfg.venvHost, cfg.windows, cfg.enableDocker),
      TaskRunners.DetectTaskRunners(d, path, cfg.windows))
  }

  // ---------------------------------------------------------------------------
  // Complexity

  /** estimate_complexity: by line count when the file reads as text, else by size. */
  function EstimateComplexity(f: File): (r: string)
    ensures f.text.Some? ==> r in LineBuckets
    ensures f.text.Some? ==> (r == "Simple" <==> |f.text.value| < 50)
    ensures f.text.Some? ==> (r == "Moderate" <==> 50 <= |f.text.value| < 200)
    ensures f.text.Some? ==> (r == "Complex" <==> 200 <= |f.text.value| < 1000)
    ensures f.text.Some? ==> (r == "Very Complex" <==> |f.text.value| >= 1000)
    ensures f.text.None? ==> r in SizeBuckets
    ensures f.text.None? ==> (r == "Small" <==> f.size < 100 * 1024)
    ensures f.text.None? ==> (r == "Medium" <==> 100 * 1024 <= f.size < 1024 * 1024)
    ensures f.text.None? ==> (r == "Large" <==> f.size >= 1024 * 1024)
  {
    match f.text
    case Some(lines) => LineBuckets[LineRank(|lines|)]
    case None => SizeBuckets[SizeRank(f.size)]
  }

  const LineBuckets: seq<string> := ["Simple", "Moderate", "Complex", "Very Complex"]
  const SizeBuckets: seq<string> := ["Small", "Medium", "Large"]

  /** The bucket of a line count: below 50, 200, 1000, or above. */
  function LineRank(n: nat): (k: nat)
    ensures k < 4
  {
    if n < 50 then 0 else if n < 200 then 1 else if n < 1000 then 2 else 3
  }

  /** The bucket of a byte size: below 100 KiB, below 1 MiB, or above. */
  function SizeRank(n: nat): (k: nat)
    ensures k < 3
  {
    if n < 100 * 1024 then 0 else if n < 1024 * 1024 then 1 else 2
  }

  /** A longer file is never rated simpler, a larger one never smaller. */
  lemma ComplexityMonotone(a: nat, b: nat)
    requires a <= b
    ensures LineRank(a) <= LineRank(b)
    ensures SizeRank(a) <= SizeRank(b)
  {
  }

  // ---------------------------------------------------------------------------
  // One file

  /** The loop test `item.suffix.lower() in extensions or (not item.suffix and
      prog_type == 'Executable')`. */
  predicate Claims(e: Registry.Ecosystem, name: string) {
    Lower(Suffix(name)) in e.extensions || (Suffix(name) == "" && e.name == Registry.ExecutableTag)
  }

  /** The program record for f under ecosystem e. */
  function MakeProgram(f: File, c: DirContext, cfg: ScanConfig, e: Registry.Ecosystem, deps: seq<DependencyCheck>)
    : ExecutableProgram
  {
    var configFiles := Dependencies.GetConfigFiles(c.dir, e);
    ExecutableProgram(
      Child(c.path, f.name, cfg.windows), f.name, c.rel + [f.name], e.name, e.interpreters,
      Scorer.Score(f.name, f.text, f.executable, cfg.windows, |c.rel|),
      deps, configFiles != [], configFiles, EstimateComplexity(f), c.environment,
      Frameworks.DetectFramework(c.dir, c.path, e.name, cfg.windows), c.runners)
  }

  /** What offering f to ecosystem e gives: None when e does not claim it, when
      it is an extension-less file without the exec bit (off Windows), or when
      none of e's interpreters is on the search path. */
  function TryEcosystem(f: File, c: DirContext, cfg: ScanConfig, e: Registry.Ecosystem): Option<ExecutableProgram> {
    if !Claims(e, f.name) then None
    else if e.name == Registry.ExecutableTag && !f.executable && !cfg.windows then None
    else
      var deps := Dependencies.DependencyList(cfg.host, c.dir, c.path, e, cfg.enableVenv);
      if Dependencies.NoInterpreterAvailable(deps, e.interpreters) then None
      else Some(MakeProgram(f, c, cfg, e, deps))
  }

  /** The ecosystem loop from entry k on: the first ecosystem that yields a program wins. */
  function ClassifyFrom(f: File, c: DirContext, cfg: ScanConfig, k: nat): Option<ExecutableProgram>
    requires k <= |Registry.Ecosystems()|
    decreases |Registry.Ecosystems()| - k
  {
    if k == |Registry.Ecosystems()| then None
    else match TryEcosystem(f, c, cfg, Registry.Ecosystems()[k])
      case Some(p) => Some(p)
      case None => ClassifyFrom(f, c, cfg, k + 1)
  }

  /** One pass of the ecosystem loop: check_dependencies runs only for a
      claimed file. */
  method TryFile(f: File, c: DirContext, cfg: ScanConfig, e: Registry.Ecosystem) returns (p: Option<ExecutableProgram>)
    ensures p == TryEcosystem(f, c, cfg, e)
  {
    p := None;
    if Claims(e, f.name) && !(e.name == Registry.ExecutableTag && !f.executable && !cfg.windows) {
      var deps := Dependencies.CheckDependencies(cfg.host, c.dir, c.path, e, cfg.enableVenv);
      if !Dependencies.NoInterpreterAvailable(deps, e.interpreters) {
        p := Some(MakeProgram(f, c, cfg, e, deps));
      }
    }
  }

  /** The ecosystem loop of scan_directory for one file. */
  method ClassifyFile(f: File, c: DirContext, cfg: ScanConfig) returns (prog: Option<ExecutableProgram>)
    ensures prog == ClassifyFrom(f, c, cfg, 0)
  {
    var k := 0;
    while k < |Registry.Ecosystems()|
      invariant k <= |Registry.Ecosystems()|
      invariant ClassifyFrom(f, c, cfg, 0) == ClassifyFrom(f, c, cfg, k)
    {
      var p := TryFile(f, c, cfg, Registry.Ecosystems()[k]);
      if p.Some? {
        return p;
      }
      k := k + 1;
    }
    return None;
  }

  // ---------------------------------------------------------------------------
  // The walk

  /** Whether the walk enters a sub-directory of this name. */
  predicate Descends(name: string, cfg: ScanConfig) {
    !StartsWith(name, ".") && name !in cfg.excludeDirs
  }

  function Opt(p: Option<ExecutableProgram>): (r: seq<ExecutableProgram>)
    ensures |r| <= 1
    ensures forall q :: q in r <==> p == Some(q)
  {
    if p.Some? then [p.value] else []
  }

  /** A file the walk looks at, with the directory it lies in: the
      directory's snapshot, its path and its path relative to the root. */
  datatype Visit = Visit(file: File, dir: Dir, path: string, rel: seq<string>)

  /** The path of the visited file relative to the root, one part per level. */
  function Parts(v: Visit): seq<string> {
    v.rel + [v.file.name]
  }

  /** The files scan_directory(d, |rel|) looks at, in the order it looks at
      them: none beyond the depth limit or in an unreadable directory,
      otherwise those of each entry in directory order. */
  function Visits(d: Dir, path: string, rel: seq<string>, cfg: ScanConfig): seq<Visit>
    decreases d, 1
  {
    if |rel| > cfg.maxDepth || !d.readable then []
    else EntriesVisits(d, path, rel, cfg, |d.entries|)
  }

  /** The files looked at for the first n entries of d. */
  function EntriesVisits(d: Dir, path: string, rel: seq<string>, cfg: ScanConfig, n: nat): seq<Visit>
    requires n <= |d.entries|
    decreases d, 0, n
  {
    if n == 0 then [] else EntriesVisits(d, path, rel, cfg, n - 1) + EntryVisits(d, path, rel, cfg, n - 1)
  }

  /** The files looked at for entry i of d: a file itself; a sub-directory the
      walk enters, the files of its own walk; any other sub-directory, none. */
  function EntryVisits(d: Dir, path: string, rel: seq<string>, cfg: ScanConfig, i: nat): seq<Visit>
    requires i < |d.entries|
    decreases d, 0, i
  {
    assert d.entries[i] in d.entries;
    match d.entries[i]
    case FileEntry(f) => [Visit(f, d, path, rel)]
    case DirEntry(sub) =>
      if Descends(sub.name, cfg) then Visits(sub, Child(path, sub.name, cfg.windows), rel + [sub.name], cfg)
      else []
  }

  /** What looking at a visited file gives: the ecosystem loop, with the
      environment and task runners detected for its directory. */
  function Classify(v: Visit, cfg: ScanConfig): Option<ExecutableProgram> {
    ClassifyFrom(v.file, Context(v.dir, v.path, v.rel, cfg), cfg, 0)
  }

  /** What each visited file yields, in visiting order. */
  function Outcomes(vs: seq<Visit>, cfg: ScanConfig): (r: seq<Option<ExecutableProgram>>)
    ensures |r| == |vs|
  {
    seq(|vs|, i requires 0 <= i < |vs| => Classify(vs[i], cfg))
  }

  lemma OutcomesAppend(a: seq<Visit>, b: seq<Visit>, cfg: ScanConfig)
    ensures Outcomes(a + b, cfg) == Outcomes(a, cfg) + Outcomes(b, cfg)
  {
    var l, r := Outcomes(a + b, cfg), Outcomes(a, cfg) + Outcomes(b, cfg);
    forall i | 0 <= i < |l| ensures l[i] == r[i] {
      if i >= |a| {
        assert (a + b)[i] == b[i - |a|];
      }
    }
  }

  /** The programs among some outcomes, in order. */
  function Somes(rs: seq<Option<ExecutableProgram>>): (r: seq<ExecutableProgram>)
    ensures |r| <= |rs|
  {
    if rs == [] then [] else Somes(rs[..|rs| - 1]) + Opt(rs[|rs| - 1])
  }

  lemma {:induction false} SomesAppend(a: seq<Option<ExecutableProgram>>, b: seq<Option<ExecutableProgram>>)
    ensures Somes(a + b) == Somes(a) + Somes(b)
    decreases |b|
  {
    if b == [] {
      assert a + b == a;
    } else {
      var init := b[..|b| - 1];
      assert (a + b)[..|a + b| - 1] == a + init;
      SomesAppend(a, init);
      AppendAssoc(Somes(a), Somes(init), Opt(b[|b| - 1]));
    }
  }

  /** The programs the visited files yield, in visiting order. */
  function Programs(vs: seq<Visit>, cfg: ScanConfig): (r: seq<ExecutableProgram>)
    ensures |r| <= |vs|
  {
    Somes(Outcomes(vs, cfg))
  }

  /** The programs of consecutive runs of visits follow one another. */
  lemma ProgramsAppend(a: seq<Visit>, b: seq<Visit>, cfg: ScanConfig)
    ensures Programs(a + b, cfg) == Programs(a, cfg) + Programs(b, cfg)
  {
    OutcomesAppend(a, b, cfg);
    SomesAppend(Outcomes(a, cfg), Outcomes(b, cfg));
  }

  /** scan_directory from the directory d: the programs found, in order, and
      the number of files looked at. */
  function Walk(d: Dir, path: string, rel: seq<string>, cfg: ScanConfig): Tally {
    var vs := Visits(d, path, rel, cfg);
    Tally(Programs(vs, cfg), |vs|)
  }

  /** scan_directory: nothing beyond the depth limit; the environment and the
      task runners are detected before the directory is listed; an unreadable
      directory adds nothing; otherwise each entry in turn. Appends to `found`
      and counts into `scanned` as the source's closure does. */
  method ScanDirectory(d: Dir, path: string, rel: seq<string>, cfg: ScanConfig,
                       found0: seq<ExecutableProgram>, scanned0: nat)
    returns (found: seq<ExecutableProgram>, scanned: nat)
    ensures found == found0 + Programs(Visits(d, path, rel, cfg), cfg)
    ensures scanned == scanned0 + |Visits(d, path, rel, cfg)|
    decreases d, 1
  {
    found, scanned := found0, scanned0;
    if |rel| > cfg.maxDepth {
      assert found0 + [] == found0;
      return;
    }
    var environment := Environments.DetectEnvironment(d, path, cfg.venvHost, cfg.windows, cfg.enableDocker);
    var runners := TaskRunners.DetectTaskRunners(d, path, cfg.windows);
    if !d.readable {
      assert found0 + [] == found0;
      return;
    }
    var c := DirContext(d, path, rel, environment, runners);
    for i := 0 to |d.entries|
      invariant found == found0 + Programs(EntriesVisits(d, path, rel, cfg, i), cfg)
      invariant scanned == scanned0 + |EntriesVisits(d, path, rel, cfg, i)|
    {
      ghost var before := EntriesVisits(d, path, rel, cfg, i);
      ghost var here := EntryVisits(d, path, rel, cfg, i);
      found, scanned := ScanEntry(d, path, rel, cfg, c, i, found, scanned);
      ProgramsAppend(before, here, cfg);
      AppendAssoc(found0, Programs(before, cfg), Programs(here, cfg));
    }
  }

  /** One entry of scan_directory's listing: a file is counted and
      classified, a sub-directory that may be entered is scanned one level
      deeper. */
  method ScanEntry(d: Dir, path: string, rel: seq<string>, cfg: ScanConfig, c: DirContext, i: nat,
                   found0: seq<ExecutableProgram>, scanned0: nat)
    returns (found: seq<ExecutableProgram>, scanned: nat)
    requires i < |d.entries| && c == Context(d, path, rel, cfg)
    ensures found == found0 + Programs(EntryVisits(d, path, rel, cfg, i), cfg)
    ensures scanned == scanned0 + |EntryVisits(d, path, rel, cfg, i)|
    decreases d, 0
  {
    assert d.entries[i] in d.entries;
    match d.entries[i] {
      case FileEntry(f) =>
        var p := ClassifyFile(f, c, cfg);
        OneVisit(Visit(f, d, path, rel), cfg);
        found, scanned := found0 + Opt(p), scanned0 + 1;
      case DirEntry(sub) =>
        if Descends(sub.name, cfg) {
          found, scanned := ScanDirectory(sub, Child(path, sub.name, cfg.windows), rel + [sub.name], cfg, found0, scanned0);
        } else {
          found, scanned := found0, scanned0;
          assert found0 + [] == found0;
        }
    }
  }

  /** A single visited file yields what its classification gives. */
  lemma OneVisit(v: Visit, cfg: ScanConfig)
    ensures Programs([v], cfg) == Opt(Classify(v, cfg))
  {
    var rs := Outcomes([v], cfg);
    assert rs[..0] == [];
  }
}
