/**
 * The interpreter prober with its subprocess calls replaced by inputs: for
 * each interpreter name the host says whether it is on the search path and,
 * if so, what each of the three version-flag invocations produced. What is
 * left is the order of the flags, the version extraction
 * (`\d+\.\d+(\.\d+)?`, else the first output line cut to 50 characters) and
 * the fall-back to "unknown".
 */
module Probe {
  import opened Text

  /** The outcome of one `interpreter <flag>` call. */
  datatype FlagRun = Raised | Exited(code: int, stdout: string, stderr: string)

  /** shutil.which(name) failed, or it succeeded and the calls with
      --version, -version and -v ended as given. */
  datatype Probe = NotFound | Found(dashDashVersion: FlagRun, dashVersion: FlagRun, dashV: FlagRun)

  /** Interpreter name to probe outcome; a name absent from the map is not on the path. */
  type Host = map<string, Probe>

  predicate IsDigit(c: char) { '0' <= c <= '9' }

  /** Length of the run of digits starting at i. */
  function DigitRun(s: string, i: nat): (n: nat)
    requires i <= |s|
    ensures i + n <= |s|
    ensures n > 0 ==> IsDigit(s[i])
    decreases |s| - i
  {
    if i < |s| && IsDigit(s[i]) then 1 + DigitRun(s, i + 1) else 0
  }

  /** Length of the match of `\d+\.\d+(\.\d+)?` that starts at i, if one does. */
  function MatchAt(s: string, i: nat): (r: Option<nat>)
    requires i <= |s|
    ensures r.Some? ==> i + r.value <= |s|
  {
    var a := DigitRun(s, i);
    var j := i + a;
    if a == 0 || j >= |s| || s[j] != '.' || DigitRun(s, j + 1) == 0 then None
    else
      var k := j + 1 + DigitRun(s, j + 1);
      if k < |s| && s[k] == '.' && DigitRun(s, k + 1) > 0
      then Some(k + 1 + DigitRun(s, k + 1) - i)
      else Some(k - i)
  }

  /** re.search: the position of the leftmost match at or after i. */
  function SearchPos(s: string, i: nat): (p: Option<nat>)
    requires i <= |s|
    ensures p.Some? ==> i <= p.value <= |s| && MatchAt(s, p.value).Some?
    decreases |s| - i
  {
    if MatchAt(s, i).Some? then Some(i)
    else if i == |s| then None
    else SearchPos(s, i + 1)
  }

  /** The text of the leftmost match, if any. */
  function SearchVersion(s: string): Option<string> {
    match SearchPos(s, 0)
    case Some(p) => Some(s[p..p + MatchAt(s, p).value])
    case None => None
  }

  /** A string of the shape `\d+\.\d+(\.\d+)?`, exactly. */
  predicate VersionShaped(v: string) {
    var a := DigitRun(v, 0);
    a > 0 && a < |v| && v[a] == '.' && DigitRun(v, a + 1) > 0 &&
    var k := a + 1 + DigitRun(v, a + 1);
    k == |v| || (v[k] == '.' && DigitRun(v, k + 1) > 0 && k + 1 + DigitRun(v, k + 1) == |v|)
  }

  /** The digit run of a slice is the digit run of the original, cut at the slice end. */
  lemma {:induction false} DigitRunSlice(s: string, i: nat, e: nat, j: nat)
    requires i <= j <= e <= |s|
    ensures j + DigitRun(s, j) <= e ==> DigitRun(s[i..e], j - i) == DigitRun(s, j)
    decreases e - j
  {
    if j < e && IsDigit(s[j]) {
      DigitRunSlice(s, i, e, j + 1);
    }
  }

  /** A string of digits, a dot and digits: the first two parts of a version. */
  lemma ShapeFromRuns(v: string, a: nat, b: nat)
    requires a > 0 && b > 0 && a + 1 + b <= |v|
    requires DigitRun(v, 0) == a && v[a] == '.' && DigitRun(v, a + 1) == b
    requires a + 1 + b == |v| || (v[a + 1 + b] == '.' && DigitRun(v, a + 2 + b) > 0
      && a + 2 + b + DigitRun(v, a + 2 + b) == |v|)
    ensures VersionShaped(v)
  {
  }

  /** A match found at i is version-shaped. */
  lemma MatchIsVersionShaped(s: string, i: nat)
    requires i <= |s| && MatchAt(s, i).Some?
    ensures VersionShaped(s[i..i + MatchAt(s, i).value])
  {
    var a := DigitRun(s, i);
    var b := DigitRun(s, i + a + 1);
    var k := i + a + 1 + b;
    if k < |s| && s[k] == '.' && DigitRun(s, k + 1) > 0 {
      ThreePartShaped(s, i, a, b);
    } else {
      TwoPartShaped(s, i, a, b);
    }
  }

  /** A match of the form digits, dot, digits, dot, digits is version-shaped. */
  lemma ThreePartShaped(s: string, i: nat, a: nat, b: nat)
    requires a > 0 && b > 0 && i + a + 1 + b < |s|
    requires DigitRun(s, i) == a && s[i + a] == '.' && DigitRun(s, i + a + 1) == b
    requires s[i + a + 1 + b] == '.' && DigitRun(s, i + a + 2 + b) > 0
    ensures VersionShaped(s[i..i + a + 2 + b + DigitRun(s, i + a + 2 + b)])
  {
    var k := i + a + 1 + b;
    var e := k + 1 + DigitRun(s, k + 1);
    var v := s[i..e];
    DigitRunSlice(s, i, e, i);
    DigitRunSlice(s, i, e, i + a + 1);
    DigitRunSlice(s, i, e, k + 1);
    assert v[a] == s[i + a];
    assert v[a + 1 + b] == s[k];
    ShapeFromRuns(v, a, b);
  }

  /** A match of the form digits, dot, digits, not followed by a dot and a
      digit, is version-shaped. */
  lemma TwoPartShaped(s: string, i: nat, a: nat, b: nat)
    requires a > 0 && b > 0 && i + a + 1 + b <= |s|
    requires DigitRun(s, i) == a && s[i + a] == '.' && DigitRun(s, i + a + 1) == b
    ensures VersionShaped(s[i..i + a + 1 + b])
  {
    var e := i + a + 1 + b;
    var v := s[i..e];
    DigitRunSlice(s, i, e, i);
    DigitRunSlice(s, i, e, i + a + 1);
    assert v[a] == s[i + a];
    ShapeFromRuns(v, a, b);
  }

  /** The extracted version is version-shaped, and no position before the one it
      was found at starts a match: the leftmost match, as re.search returns. */
  lemma {:induction false} SearchIsLeftmost(s: string, i: nat)
    requires i <= |s|
    ensures SearchPos(s, i).Some? ==> forall q :: i <= q < SearchPos(s, i).value ==> MatchAt(s, q).None?
    ensures SearchPos(s, i).None? ==> forall q :: i <= q <= |s| ==> MatchAt(s, q).None?
    decreases |s| - i
  {
    if MatchAt(s, i).None? && i < |s| {
      SearchIsLeftmost(s, i + 1);
    }
  }

  /** A version found in the output is version-shaped and occurs in it. */
  lemma SearchVersionShaped(s: string)
    ensures SearchVersion(s).Some? ==> VersionShaped(SearchVersion(s).value) && Contains(s, SearchVersion(s).value)
  {
    if SearchPos(s, 0).Some? {
      var p := SearchPos(s, 0).value;
      var v := SearchVersion(s).value;
      MatchIsVersionShaped(s, p);
      assert OccursAt(s, v, p);
      ContainsAt(s, v);
    }
  }

  /** Text without any digit holds no version number. */
  lemma NoDigitNoVersion(s: string)
    requires forall k :: 0 <= k < |s| ==> !IsDigit(s[k])
    ensures SearchVersion(s).None?
  {
  }

  /** `version_output.split('\n')[0][:50]` when no version number is found. */
  function VersionFromOutput(stdout: string, stderr: string): (v: string)
    ensures |v| <= 50 || VersionShaped(v)
    ensures var out := if stdout != "" then stdout else stderr;
      SearchVersion(out).Some? ==> v == SearchVersion(out).value && VersionShaped(v) && Contains(out, v)
    ensures var out := if stdout != "" then stdout else stderr;
      SearchVersion(out).None? ==> (StartsWith(out, v) && !('\n' in v) &&
        |v| == (if |BeforeFirst(out, '\n')| <= 50 then |BeforeFirst(out, '\n')| else 50))
  {
    var out := if stdout != "" then stdout else stderr;
    match SearchVersion(out)
    case Some(m) => SearchVersionShaped(out); m
    case None => Take(BeforeFirst(out, '\n'), 50)
  }

  /** Flags in the order they are tried, with the first zero exit deciding the version. */
  function FirstVersion(runs: seq<FlagRun>): (v: string)
  {
    if runs == [] then "unknown"
    else match runs[0]
      case Exited(0, out, err) => VersionFromOutput(out, err)
      case _ => FirstVersion(runs[1..])
  }

  /** check_interpreter_available: (available, version). */
  function CheckInterpreter(host: Host, name: string): (r: (bool, Option<string>))
    ensures r.0 <==> name in host && host[name].Found?
    ensures r.0 ==> r.1.Some?
    ensures !r.0 ==> r.1 == None
  {
    if name in host then
      match host[name]
      case NotFound => (false, None)
      case Found(a, b, c) => (true, Some(FirstVersion([a, b, c])))
    else (false, None)
  }

  /** shutil.which(name) is not None. */
  predicate OnPath(host: Host, name: string) {
    name in host && host[name].Found?
  }

  /** A found interpreter none of whose flags exits 0 reports "unknown". */
  lemma {:induction false} NoZeroExitMeansUnknown(runs: seq<FlagRun>)
    requires forall k :: 0 <= k < |runs| ==> !(runs[k].Exited? && runs[k].code == 0)
    ensures FirstVersion(runs) == "unknown"
  {
    if runs != [] {
      NoZeroExitMeansUnknown(runs[1..]);
    }
  }

  /** The version comes from the first flag that exits 0; later flags are never consulted. */
  lemma {:induction false} FirstZeroExitDecides(runs: seq<FlagRun>, k: nat)
    requires k < |runs| && runs[k].Exited? && runs[k].code == 0
    requires forall j :: 0 <= j < k ==> !(runs[j].Exited? && runs[j].code == 0)
    ensures FirstVersion(runs) == VersionFromOutput(runs[k].stdout, runs[k].stderr)
  {
    if k > 0 {
      FirstZeroExitDecides(runs[1..], k - 1);
    }
  }

  /** _get_interpreter_install_command: a hint per known interpreter, else "Install <name>". */
  function InstallCommand(interpreter: string): (r: string)
    ensures interpreter !in KnownInstallHints ==> r == "Install " + interpreter
    ensures interpreter in KnownInstallHints ==> r == KnownInstallHints[interpreter]
  {
    if interpreter in KnownInstallHints then KnownInstallHints[interpreter] else "Install " + interpreter
  }

  const KnownInstallHints: map<string, string> := map[
    "python" := "Install from python.org or use your package manager",
    "python3" := "Install from python.org or use your package manager",
    "node" := "Install from nodejs.org or use nvm/package manager",
    "ruby" := "Install from ruby-lang.org or use rbenv/package manager",
    "go" := "Install from golang.org",
    "cargo" := "Install from rustup.rs",
    "java" := "Install JDK from adoptium.net or oracle.com"
  ]
}
