/**
 * What running a program reports, and the counts of the JSON report.
 * A run's status depends only on how the process ended; the report counts
 * the programs that are ready (no required dependency missing) and those with
 * issues, and the programs per ecosystem in order of first appearance.
 */
module Execution {
  import opened Text
  import opened Records

  datatype ExecutionStatus = Success | Failed | Skipped | Error | Fixed

  /** How a program run ended: it exited, its timeout expired, or an
      exception with the given message was raised. */
  datatype RunEnd = Exited(code: int, stdout: string, stderr: string) | TimedOut | Raised(message: string)

  /** The parts of ExecutionResult that depend on how the run ended. */
  datatype RunReport = RunReport(
    status: ExecutionStatus,
    returnCode: Option<int>,
    stdout: string,
    stderr: string,
    errorMessage: Option<string>)

  /** execute_program_synchronously's result: SUCCESS on exit 0, FAILED on any
      other exit, ERROR without a return code on a timeout or an exception. */
  function Report(end: RunEnd): (r: RunReport)
    ensures r.status == Success <==> end.Exited? && end.code == 0
    ensures r.status == Failed <==> end.Exited? && end.code != 0
    ensures r.status == Error <==> !end.Exited?
    ensures r.returnCode.None? <==> r.status == Error
    ensures r.errorMessage.None? <==> end.Exited?
  {
    match end
    case Exited(code, out, err) => RunReport(if code == 0 then Success else Failed, Some(code), out, err, None)
    case TimedOut => RunReport(Error, None, "", "Timeout expired", Some("Execution timed out"))
    case Raised(message) => RunReport(Error, None, "", message, Some(message))
  }

  /** A run never reports SKIPPED or FIXED, and a reported return code is the
      process's exit code. */
  lemma ReportNeverSkippedOrFixed(end: RunEnd)
    ensures Report(end).status != Skipped && Report(end).status != Fixed
    ensures Report(end).returnCode.Some? ==> end.Exited? && Report(end).returnCode.value == end.code
  {
  }

  // ---------------------------------------------------------------------------
  // Program selection

  /** execute_program's index check: outside 0 <= index < len, ValueError. */
  datatype Selection = Selected(program: ExecutableProgram) | InvalidIndex

  function ProgramAt(programs: seq<ExecutableProgram>, index: int): (r: Selection)
    ensures r.InvalidIndex? <==> index < 0 || index >= |programs|
    ensures r.Selected? ==> r.program == programs[index]
  {
    if index < 0 || index >= |programs| then InvalidIndex else Selected(programs[index])
  }

  // ---------------------------------------------------------------------------
  // JSON report counts

  /** Some required dependency is missing. */
  predicate HasIssues(p: ExecutableProgram) {
    exists d :: d in p.dependencies && d.required && !d.available
  }

  /** The summary block of generate_json_report. */
  datatype Summary = Summary(total: nat, byType: seq<(string, nat)>, readyCount: nat, issuesCount: nat)

  /** The number of programs with issues. */
  function CountIssues(ps: seq<ExecutableProgram>): (n: nat)
    ensures n <= |ps|
  {
    if ps == [] then 0
    else CountIssues(ps[..|ps| - 1]) + (if HasIssues(ps[|ps| - 1]) then 1 else 0)
  }

  /** The number of programs of ecosystem t. */
  function CountType(ps: seq<ExecutableProgram>, t: string): nat {
    if ps == [] then 0
    else CountType(ps[..|ps| - 1], t) + (if ps[|ps| - 1].ecosystem == t then 1 else 0)
  }

  /** `by_type[t] = by_type.get(t, 0) + 1` on a dictionary kept in insertion order. */
  function Bump(m: seq<(string, nat)>, t: string): seq<(string, nat)> {
    if m == [] then [(t, 1)]
    else if m[0].0 == t then [(t, m[0].1 + 1)] + m[1..]
    else [m[0]] + Bump(m[1..], t)
  }

  /** The by_type dictionary after the programs ps, in order. */
  function ByType(ps: seq<ExecutableProgram>): seq<(string, nat)> {
    if ps == [] then [] else Bump(ByType(ps[..|ps| - 1]), ps[|ps| - 1].ecosystem)
  }

  /** The count of key t in a key/count list, 0 when absent. */
  function Get(m: seq<(string, nat)>, t: string): nat {
    if m == [] then 0 else if m[0].0 == t then m[0].1 else Get(m[1..], t)
  }

  function Keys(m: seq<(string, nat)>): seq<string> {
    if m == [] then [] else [m[0].0] + Keys(m[1..])
  }

  function Total(m: seq<(string, nat)>): nat {
    if m == [] then 0 else m[0].1 + Total(m[1..])
  }

  predicate DistinctKeys(m: seq<(string, nat)>) {
    forall i, j :: 0 <= i < j < |m| ==> m[i].0 != m[j].0
  }

  lemma {:induction false} BumpSpec(m: seq<(string, nat)>, t: string)
    requires DistinctKeys(m)
    ensures DistinctKeys(Bump(m, t))
    ensures Get(Bump(m, t), t) == Get(m, t) + 1
    ensures forall u :: u != t ==> Get(Bump(m, t), u) == Get(m, u)
    ensures Total(Bump(m, t)) == Total(m) + 1
    ensures forall u :: u in Keys(Bump(m, t)) <==> u in Keys(m) || u == t
  {
    if m != [] && m[0].0 != t {
      BumpSpec(m[1..], t);
      var r := Bump(m[1..], t);
      forall j | 0 <= j < |r| ensures m[0].0 != r[j].0 {
        KeysIndex(r, j);
        if r[j].0 != t {
          KeysIndex(m[1..], 0);
          var k := KeyPosition(m[1..], r[j].0);
          assert m[k + 1].0 == r[j].0;
        }
      }
      assert Bump(m, t) == [m[0]] + r;
    } else if m != [] {
      assert Keys(Bump(m, t)) == [t] + Keys(m[1..]);
    }
  }

  lemma {:induction false} KeysIndex(m: seq<(string, nat)>, j: nat)
    requires j < |m|
    ensures m[j].0 in Keys(m)
  {
    if j > 0 {
      KeysIndex(m[1..], j - 1);
    }
  }

  /** The position of a key that is present. */
  lemma {:induction false} KeyPosition(m: seq<(string, nat)>, u: string) returns (k: nat)
    requires u in Keys(m)
    ensures k < |m| && m[k].0 == u
  {
    if m[0].0 != u {
      k := KeyPosition(m[1..], u);
      k := k + 1;
    } else {
      k := 0;
    }
  }

  /** by_type holds every ecosystem seen exactly once, with its number of
      programs, and its counts add up to the number of programs. */
  lemma {:induction false} ByTypeSpec(ps: seq<ExecutableProgram>)
    ensures DistinctKeys(ByType(ps))
    ensures forall t :: Get(ByType(ps), t) == CountType(ps, t)
    ensures forall t :: t in Keys(ByType(ps)) <==> exists p :: p in ps && p.ecosystem == t
    ensures Total(ByType(ps)) == |ps|
  {
    if ps != [] {
      var init, last := ps[..|ps| - 1], ps[|ps| - 1];
      ByTypeSpec(init);
      BumpSpec(ByType(init), last.ecosystem);
      assert ps == init + [last];
      forall t ensures t in Keys(ByType(ps)) <==> exists p :: p in ps && p.ecosystem == t {
        if t in Keys(ByType(init)) {
          var p :| p in init && p.ecosystem == t;
          assert p in ps;
        }
        if exists p :: p in ps && p.ecosystem == t {
          var p :| p in ps && p.ecosystem == t;
          if p != last {
            assert p in init;
          }
        }
      }
    }
  }

  /** No program counts as having issues exactly when every one is ready. */
  lemma {:induction false} NoIssuesIffAllReady(ps: seq<ExecutableProgram>)
    ensures CountIssues(ps) == 0 <==> forall p :: p in ps ==> !HasIssues(p)
  {
    if ps != [] {
      var init, last := ps[..|ps| - 1], ps[|ps| - 1];
      NoIssuesIffAllReady(init);
      assert ps == init + [last];
      if CountIssues(init) != 0 {
        var p :| p in init && HasIssues(p);
        assert p in ps;
      }
    }
  }

  /** The summary of a list of programs: ready + issues = total. */
  function SummaryOf(ps: seq<ExecutableProgram>): (s: Summary)
    ensures s.readyCount + s.issuesCount == s.total == |ps|
  {
    Summary(|ps|, ByType(ps), |ps| - CountIssues(ps), CountIssues(ps))
  }
}
