/**
 * Task-runner detection: Makefile targets with their descriptions, justfile
 * recipes, package.json scripts and Taskfile tasks. The two line parsers share
 * the target pattern `^([a-zA-Z0-9_-]+):`; a line's text is given without its
 * line terminator.
 */
module TaskRunners {
  import opened Text
  import opened FileTree
  import opened Records

  predicate IsTargetChar(c: char) {
    ('a' <= c <= 'z') || ('A' <= c <= 'Z') || ('0' <= c <= '9') || c == '_' || c == '-'
  }

  /** Length of the run of target characters starting at i. */
  function TargetRun(s: string, i: nat): (n: nat)
    requires i <= |s|
    ensures i + n <= |s|
    ensures forall k :: i <= k < i + n ==> IsTargetChar(s[k])
    ensures i + n < |s| ==> !IsTargetChar(s[i + n])
    decreases |s| - i
  {
    if i < |s| && IsTargetChar(s[i]) then 1 + TargetRun(s, i + 1) else 0
  }

  /** re.match(r'^([a-zA-Z0-9_-]+):', line).group(1): the character class cannot
      hold ':', so the greedy run must be followed by the colon directly. */
  function MatchTarget(line: string): Option<string> {
    var n := TargetRun(line, 0);
    if n > 0 && n < |line| && line[n] == ':' then Some(line[..n]) else None
  }

  predicate IsTargetName(t: string) {
    t != [] && forall k :: 0 <= k < |t| ==> IsTargetChar(t[k])
  }

  /** The pattern matches exactly the lines made of a target name, a colon and anything. */
  lemma MatchTargetExact(line: string)
    ensures MatchTarget(line).Some? ==>
      IsTargetName(MatchTarget(line).value) && StartsWith(line, MatchTarget(line).value + ":")
    ensures forall t :: IsTargetName(t) && StartsWith(line, t + ":") ==> MatchTarget(line) == Some(t)
  {
    forall t | IsTargetName(t) && StartsWith(line, t + ":")
      ensures MatchTarget(line) == Some(t)
    {
      assert line[|t|] == (t + ":")[|t|];
      TargetRunOver(line, t, 0);
      assert line[..|t|] == (t + ":")[..|t|];
    }
  }

  lemma {:induction false} TargetRunOver(line: string, t: string, i: nat)
    requires IsTargetName(t) && StartsWith(line, t + ":") && i <= |t|
    ensures TargetRun(line, i) == |t| - i
    decreases |t| - i
  {
    assert line[|t|] == (t + ":")[|t|];
    if i < |t| {
      assert line[i] == (t + ":")[i] == t[i];
      TargetRunOver(line, t, i + 1);
    }
  }

  /** `.PHONY:` is never a target, while a variable assignment `CC:=gcc` is. */
  lemma PatternExamples()
    ensures MatchTarget(".PHONY: all") == None
    ensures MatchTarget("CC:=gcc") == Some("CC")
    ensures MatchTarget("\tgcc -o app main.c") == None
  {
    assert TargetRun(".PHONY: all", 0) == 0;
    assert TargetRun("\tgcc -o app main.c", 0) == 0;
    assert TargetRun("CC:=gcc", 2) == 0;
    assert TargetRun("CC:=gcc", 0) == 2;
    assert "CC:=gcc"[..2] == "CC";
  }

  /** The source's extra check that a name does not start with '.' never fires. */
  lemma TargetNeverStartsWithDot(line: string)
    ensures MatchTarget(line).Some? ==> MatchTarget(line).value[0] != '.'
  {
  }

  /** The description of the target on line i: text after the first '#' on
      the line itself, else the text of a next line that starts with '#'. */
  function Description(lines: seq<string>, i: nat): string
    requires i < |lines|
  {
    if '#' in lines[i] then Strip(AfterFirst(lines[i], '#'))
    else if i + 1 < |lines| && StartsWith(Strip(lines[i + 1]), "#") then Strip(Strip(lines[i + 1])[1..])
    else ""
  }

  /** What line i contributes to the Makefile's task list. */
  function MakefileEntry(lines: seq<string>, i: nat): (r: Option<string>)
    requires i < |lines|
  {
    match MatchTarget(lines[i])
    case None => None
    case Some(name) =>
      var desc := Description(lines, i);
      Some(if desc != "" then name + ": " + desc else name)
  }

  function Opt(o: Option<string>): seq<string> {
    if o.Some? then [o.value] else []
  }

  /** The entries of the first n lines, in file order. */
  function MakefileTasks(lines: seq<string>, n: nat): seq<string>
    requires n <= |lines|
  {
    if n == 0 then [] else MakefileTasks(lines, n - 1) + Opt(MakefileEntry(lines, n - 1))
  }

  /** _parse_makefile over the file's lines; an unreadable file yields no tasks. */
  method ParseMakefile(text: Option<seq<string>>) returns (tasks: seq<string>)
    ensures text.None? ==> tasks == []
    ensures text.Some? ==> tasks == MakefileTasks(text.value, |text.value|)
  {
    tasks := [];
    if text.None? {
      return;
    }
    var lines := text.value;
    var i := 0;
    while i < |lines|
      invariant 0 <= i <= |lines|
      invariant tasks == MakefileTasks(lines, i)
    {
      var m := MatchTarget(lines[i]);
      if m.Some? {
        var description := "";
        if '#' in lines[i] {
          description := Strip(AfterFirst(lines[i], '#'));
        } else if i + 1 < |lines| && StartsWith(Strip(lines[i + 1]), "#") {
          description := Strip(Strip(lines[i + 1])[1..]);
        }
        tasks := tasks + [if description != "" then m.value + ": " + description else m.value];
      }
      i := i + 1;
    }
  }

  /** The recipe names of the first n lines of a justfile, in file order. */
  function JustTasks(lines: seq<string>, n: nat): seq<string>
    requires n <= |lines|
  {
    if n == 0 then [] else JustTasks(lines, n - 1) + Opt(MatchTarget(lines[n - 1]))
  }

  /** _parse_justfile over the file's lines; an unreadable file yields no tasks. */
  method ParseJustfile(text: Option<seq<string>>) returns (tasks: seq<string>)
    ensures text.None? ==> tasks == []
    ensures text.Some? ==> tasks == JustTasks(text.value, |text.value|)
  {
    tasks := [];
    if text.None? {
      return;
    }
    var lines := text.value;
    for i := 0 to |lines|
      invariant tasks == JustTasks(lines, i)
    {
      var m := MatchTarget(lines[i]);
      if m.Some? {
        tasks := tasks + [m.value];
      }
    }
  }

  /** A Makefile entry for recipe j: the bare name, or the name, ": " and a
      non-empty description. */
  predicate EntryFor(m: string, j: string) {
    m == j || (StartsWith(m, j + ": ") && |m| > |j| + 2)
  }

  lemma EntryForLine(lines: seq<string>, i: nat)
    requires i < |lines|
    ensures |Opt(MakefileEntry(lines, i))| == |Opt(MatchTarget(lines[i]))|
    ensures MatchTarget(lines[i]).Some? ==>
      EntryFor(MakefileEntry(lines, i).value, MatchTarget(lines[i]).value)
  {
    if MatchTarget(lines[i]).Some? {
      var name := MatchTarget(lines[i]).value;
      var desc := Description(lines, i);
      if desc != "" {
        var m := name + ": " + desc;
        assert m[..|name + ": "|] == name + ": ";
      }
    }
  }

  /** The two parsers find the same targets in the same order, the Makefile
      parser adding descriptions. */
  lemma {:induction false} MakefileRefinesJustfile(lines: seq<string>, n: nat)
    requires n <= |lines|
    ensures |MakefileTasks(lines, n)| == |JustTasks(lines, n)|
    ensures forall k :: 0 <= k < |JustTasks(lines, n)| ==> EntryFor(MakefileTasks(lines, n)[k], JustTasks(lines, n)[k])
  {
    if n > 0 {
      MakefileRefinesJustfile(lines, n - 1);
      EntryForLine(lines, n - 1);
      var mt, jt := MakefileTasks(lines, n - 1), JustTasks(lines, n - 1);
      var me, je := Opt(MakefileEntry(lines, n - 1)), Opt(MatchTarget(lines[n - 1]));
      assert MakefileTasks(lines, n) == mt + me;
      assert JustTasks(lines, n) == jt + je;
      forall k | 0 <= k < |jt + je|
        ensures EntryFor((mt + me)[k], (jt + je)[k])
      {
        if k < |jt| {
          assert (mt + me)[k] == mt[k] && (jt + je)[k] == jt[k];
        } else {
          assert (mt + me)[k] == me[0] && (jt + je)[k] == je[0];
        }
      }
    }
  }

  /** Every justfile recipe is a target name, one per matching line. */
  lemma {:induction false} JustTasksAreTargetNames(lines: seq<string>, n: nat)
    requires n <= |lines|
    ensures |JustTasks(lines, n)| <= n
    ensures forall k :: 0 <= k < |JustTasks(lines, n)| ==> IsTargetName(JustTasks(lines, n)[k])
  {
    if n > 0 {
      JustTasksAreTargetNames(lines, n - 1);
      MatchTargetExact(lines[n - 1]);
    }
  }

  /** A same-line comment wins over a comment on the next line. */
  lemma SameLineCommentWins(lines: seq<string>, i: nat)
    requires i < |lines| && MatchTarget(lines[i]).Some? && '#' in lines[i]
    requires Strip(AfterFirst(lines[i], '#')) != ""
    ensures MakefileEntry(lines, i) ==
      Some(MatchTarget(lines[i]).value + ": " + Strip(AfterFirst(lines[i], '#')))
  {
  }

  /** A comment line that follows a target without one describes it. */
  lemma NextLineCommentDescribes(lines: seq<string>, i: nat)
    requires i + 1 < |lines| && MatchTarget(lines[i]).Some? && !('#' in lines[i])
    requires StartsWith(Strip(lines[i + 1]), "#") && Strip(Strip(lines[i + 1])[1..]) != ""
    ensures MakefileEntry(lines, i) ==
      Some(MatchTarget(lines[i]).value + ": " + Strip(Strip(lines[i + 1])[1..]))
  {
  }

  /** The keys of the mapping under `key` of a parsed manifest; [] when the
      manifest does not parse or the section is not a mapping (the source's
      `.keys()` raises there and the parser returns []). */
  function SectionKeys(doc: Option<Doc>, key: string): seq<string> {
    match doc
    case None => []
    case Some(dcm) =>
      match Get(dcm, key)
      case Mapping(es) => Keys(es)
      case _ => []
  }

  function Runner(kind: RunnerKind, present: bool, file: string, tasks: seq<string>): (r: seq<TaskRunner>)
    ensures |r| <= 1
    ensures r != [] <==> present
    ensures forall i :: 0 <= i < |r| ==> r[i].kind == kind && r[i].tasks == tasks
  {
    if present then [TaskRunner(kind, file, tasks)] else []
  }

  function TasksOrNone(text: Option<seq<string>>, make: bool): seq<string> {
    match text
    case None => []
    case Some(lines) => if make then MakefileTasks(lines, |lines|) else JustTasks(lines, |lines|)
  }

  function MakeRunner(d: Dir, path: string, windows: bool): seq<TaskRunner> {
    Runner(Make, Exists(d, "Makefile"), Child(path, "Makefile", windows), TasksOrNone(TextOf(d, "Makefile"), true))
  }

  function JustRunner(d: Dir, path: string, windows: bool): seq<TaskRunner> {
    Runner(Just, Exists(d, "justfile"), Child(path, "justfile", windows), TasksOrNone(TextOf(d, "justfile"), false))
  }

  function NpmScripts(d: Dir): seq<string> {
    SectionKeys(DocOf(d, "package.json"), "scripts")
  }

  function NpmRunner(d: Dir, path: string, windows: bool): (r: seq<TaskRunner>)
    ensures forall t :: t in r ==> t.kind == Npm && t.tasks != []
  {
    Runner(Npm, Exists(d, "package.json") && NpmScripts(d) != [], Child(path, "package.json", windows), NpmScripts(d))
  }

  function TaskfileRunner(d: Dir, path: string, windows: bool): seq<TaskRunner> {
    Runner(Task, Exists(d, "Taskfile.yml"), Child(path, "Taskfile.yml", windows), SectionKeys(DocOf(d, "Taskfile.yml"), "tasks"))
  }

  /** detect_task_runners: make, just, npm, task, in that order. The justfile
      is looked up only in its lower-case spelling. */
  function DetectTaskRunners(d: Dir, path: string, windows: bool): seq<TaskRunner> {
    MakeRunner(d, path, windows) + JustRunner(d, path, windows)
    + NpmRunner(d, path, windows) + TaskfileRunner(d, path, windows)
  }

  function Rank(k: RunnerKind): nat {
    match k
    case Make => 0
    case Just => 1
    case Npm => 2
    case Task => 3
  }

  function HasKind(rs: seq<TaskRunner>, k: RunnerKind): bool {
    exists i :: 0 <= i < |rs| && rs[i].kind == k
  }

  /** Four optional runners of the four kinds, concatenated in rank order. */
  lemma FourPieces(a: seq<TaskRunner>, b: seq<TaskRunner>, c: seq<TaskRunner>, e: seq<TaskRunner>)
    requires |a| <= 1 && |b| <= 1 && |c| <= 1 && |e| <= 1
    requires forall i :: 0 <= i < |a| ==> a[i].kind == Make
    requires forall i :: 0 <= i < |b| ==> b[i].kind == Just
    requires forall i :: 0 <= i < |c| ==> c[i].kind == Npm
    requires forall i :: 0 <= i < |e| ==> e[i].kind == Task
    ensures var rs := a + b + c + e;
      && (HasKind(rs, Make) <==> a != [])
      && (HasKind(rs, Just) <==> b != [])
      && (HasKind(rs, Npm) <==> c != [])
      && (HasKind(rs, Task) <==> e != [])
      && (forall i, j :: 0 <= i < j < |rs| ==> Rank(rs[i].kind) < Rank(rs[j].kind))
      && (forall i :: 0 <= i < |rs| && rs[i].kind == Npm ==> rs[i] in c)
  {
    var ab := a + b;
    var abc := ab + c;
    AddPiece([], a, Make);
    assert [] + a == a;
    AddPiece(a, b, Just);
    AddPiece(ab, c, Npm);
    AddPiece(abc, e, Task);
    var rs := abc + e;
    forall i | 0 <= i < |rs| && rs[i].kind == Npm ensures rs[i] in c {
      assert i < |abc|;
      assert rs[i] == abc[i];
    }
  }

  /** Appending at most one runner of kind k to runners of lower ranks in rank
      order keeps them in rank order, adds exactly kind k and keeps the earlier
      runners in place. */
  lemma AddPiece(rs: seq<TaskRunner>, x: seq<TaskRunner>, k: RunnerKind)
    requires |x| <= 1
    requires forall i :: 0 <= i < |x| ==> x[i].kind == k
    requires forall i :: 0 <= i < |rs| ==> Rank(rs[i].kind) < Rank(k)
    requires forall i, j :: 0 <= i < j < |rs| ==> Rank(rs[i].kind) < Rank(rs[j].kind)
    ensures forall i, j :: 0 <= i < j < |rs + x| ==> Rank((rs + x)[i].kind) < Rank((rs + x)[j].kind)
    ensures forall i :: 0 <= i < |rs + x| ==> Rank((rs + x)[i].kind) <= Rank(k)
    ensures forall m :: HasKind(rs + x, m) <==> HasKind(rs, m) || (x != [] && m == k)
    ensures forall i :: 0 <= i < |rs| ==> (rs + x)[i] == rs[i]
    ensures forall i :: 0 <= i < |rs + x| && (rs + x)[i].kind == k ==> (rs + x)[i] in x
  {
    var t := rs + x;
    forall m ensures HasKind(t, m) <==> HasKind(rs, m) || (x != [] && m == k) {
      if HasKind(rs, m) {
        var i :| 0 <= i < |rs| && rs[i].kind == m;
        assert t[i] == rs[i];
      }
      if x != [] && m == k {
        assert t[|rs|] == x[0];
      }
    }
    forall i | 0 <= i < |t| && t[i].kind == k ensures t[i] in x {
      assert i >= |rs|;
      assert t[i] == x[i - |rs|];
    }
  }

  /** Each runner is present exactly when its file is, npm only with a non-empty
      script list; the order is make, just, npm, task. */
  lemma DetectTaskRunnersSpec(d: Dir, path: string, windows: bool)
    ensures var rs := DetectTaskRunners(d, path, windows);
      && (HasKind(rs, Make) <==> Exists(d, "Makefile"))
      && (HasKind(rs, Just) <==> Exists(d, "justfile"))
      && (HasKind(rs, Npm) <==> Exists(d, "package.json") && NpmScripts(d) != [])
      && (HasKind(rs, Task) <==> Exists(d, "Taskfile.yml"))
      && (forall i, j :: 0 <= i < j < |rs| ==> Rank(rs[i].kind) < Rank(rs[j].kind))
      && (forall i :: 0 <= i < |rs| && rs[i].kind == Npm ==> rs[i].tasks != [])
  {
    var a, b, c, e := MakeRunner(d, path, windows), JustRunner(d, path, windows),
      NpmRunner(d, path, windows), TaskfileRunner(d, path, windows);
    FourPieces(a, b, c, e);
  }
}
