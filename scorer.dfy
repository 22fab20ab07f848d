/**
 * The entry-point scorer: a sum of independent non-negative bonuses for the
 * framework-specific file names, the generic main-file prefixes, the
 * main-name substrings of the stem, four content signatures of the first ten
 * lines, the exec bit, and a bonus that decays with directory depth.
 */
module Scorer {
  import opened Text
  import FileTree

  /** Framework name to the file names it treats as its entry point. The
      entries with a '/' or an upper-case letter are compared against a
      lower-cased bare file name and so never match. */
  const FrameworkMainFiles: seq<(string, seq<string>)> := [
    ("Django", ["manage.py", "wsgi.py", "asgi.py"]),
    ("Flask", ["app.py", "application.py", "run.py", "main.py"]),
    ("FastAPI", ["main.py", "app.py", "server.py"]),
    ("Next.js", ["pages/index.js", "pages/_app.js", "next.config.js"]),
    ("React", ["src/index.js", "index.js", "App.js"]),
    ("Vue.js", ["src/main.js", "main.js"]),
    ("Angular", ["src/main.ts", "main.ts"]),
    ("Gin", ["main.go"]),
    ("Echo", ["main.go"]),
    ("Actix", ["main.rs"]),
    ("Rocket", ["main.rs"])
  ]

  /** The generic main-file patterns `^main\.`, `^app\.`, ... as literal prefixes. */
  const MainFilePrefixes: seq<string> := [
    "main.", "app.", "index.", "start.", "run.", "launcher.", "entry.", "__main__.",
    "server.", "cli.", "manage.", "wsgi.", "asgi."
  ]

  const MainNames: seq<string> := [
    "main", "app", "index", "start", "run", "manage", "server", "cli", "entry"
  ]

  const MainGuard := "if __name__ == \"__main__\":"

  /** +50 for every framework whose list holds the lower-cased file name. */
  function FrameworkBonus(fileNameLower: string, table: seq<(string, seq<string>)>): (b: nat)
  {
    if table == [] then 0
    else (if fileNameLower in table[0].1 then 50 else 0) + FrameworkBonus(fileNameLower, table[1..])
  }

  /** +15 for the first prefix that matches; the search stops there. */
  function PrefixBonus(fileNameLower: string, prefixes: seq<string>): (b: nat)
  {
    if prefixes == [] then 0
    else if StartsWith(fileNameLower, prefixes[0]) then 15
    else PrefixBonus(fileNameLower, prefixes[1..])
  }

  /** +10 per main name occurring in the lower-cased stem, +5 more when it is the whole stem. */
  function NameBonus(stemLower: string, names: seq<string>): (b: nat)
  {
    if names == [] then 0
    else
      (if Contains(stemLower, names[0]) then 10 + (if stemLower == names[0] then 5 else 0) else 0)
      + NameBonus(stemLower, names[1..])
  }

  /** The ten stripped lines the scorer reads; missing lines read as "". */
  function FirstLines(lines: seq<string>): (r: seq<string>)
    ensures |r| == 10
    ensures forall k :: 0 <= k < 10 ==> r[k] == if k < |lines| then Strip(lines[k]) else ""
  {
    seq(10, k requires 0 <= k < 10 => if k < |lines| then Strip(lines[k]) else "")
  }

  /** Shebang +8, main guard +12, `app =` +8, `main(` or `def main` +6; 0 for unreadable files. */
  function ContentBonus(lines: Option<seq<string>>): (b: nat)
  {
    match lines
    case None => 0
    case Some(ls) =>
      var first := FirstLines(ls);
      var content := Join(first, "\n");
      (if StartsWith(first[0], "#!") then 8 else 0)
      + (if Contains(content, MainGuard) then 12 else 0)
      + (if Contains(content, "app =") then 8 else 0)
      + (if Contains(content, "main(") || Contains(content, "def main") then 6 else 0)
  }

  /** +5 for the exec bit, on hosts that have one. */
  function ExecBonus(executable: bool, windows: bool): nat {
    if !windows && executable then 5 else 0
  }

  /** max(0, 10 - 2 * depth). */
  function DepthBonus(depth: nat): (b: nat)
    ensures b <= 10
  {
    if 10 - 2 * depth > 0 then 10 - 2 * depth else 0
  }

  /** is_likely_main_file for a file `name` with text `lines`, `depth` directories below the root. */
  function Score(name: string, lines: Option<seq<string>>, executable: bool, windows: bool, depth: nat): (s: int)
    ensures s >= DepthBonus(depth)
  {
    FrameworkBonus(Lower(name), FrameworkMainFiles)
    + PrefixBonus(Lower(name), MainFilePrefixes)
    + NameBonus(Lower(FileTree.Stem(name)), MainNames)
    + ContentBonus(lines)
    + ExecBonus(executable, windows)
    + DepthBonus(depth)
  }

  // ---------------------------------------------------------------------------
  // Properties

  /** The score is never negative. */
  lemma ScoreNonNegative(name: string, lines: Option<seq<string>>, executable: bool, windows: bool, depth: nat)
    ensures Score(name, lines, executable, windows, depth) >= 0
  {
  }

  /** Of two otherwise identical files, the shallower one scores at least as high. */
  lemma ScoreDepthMonotone(name: string, lines: Option<seq<string>>, executable: bool, windows: bool,
                           d1: nat, d2: nat)
    requires d1 <= d2
    ensures Score(name, lines, executable, windows, d1) >= Score(name, lines, executable, windows, d2)
  {
  }

  /** Root files get +10, each level costs 2, and from depth 5 on the bonus is gone. */
  lemma DepthBonusValues(depth: nat)
    ensures depth < 5 ==> DepthBonus(depth) == 10 - 2 * depth
    ensures depth >= 5 ==> DepthBonus(depth) == 0
  {
  }

  /** The number of framework lists that hold a name. */
  function ListsHolding(fileNameLower: string, table: seq<(string, seq<string>)>): (n: nat)
    ensures n <= |table|
  {
    if table == [] then 0
    else (if fileNameLower in table[0].1 then 1 else 0) + ListsHolding(fileNameLower, table[1..])
  }

  /** Each framework list holding the name adds exactly 50: no cap, no deduplication. */
  lemma {:induction false} FrameworkBonusIsFiftyPerList(f: string, table: seq<(string, seq<string>)>)
    ensures FrameworkBonus(f, table) == 50 * ListsHolding(f, table)
  {
    if table != [] {
      FrameworkBonusIsFiftyPerList(f, table[1..]);
    }
  }

  /** The table without the entries a lower-cased bare name can never equal. */
  function Matchable(table: seq<(string, seq<string>)>): seq<(string, seq<string>)> {
    if table == [] then []
    else [(table[0].0, MatchableNames(table[0].1))] + Matchable(table[1..])
  }

  function MatchableNames(names: seq<string>): (r: seq<string>)
    ensures forall n :: n in r ==> n in names && !('/' in n) && forall k :: 0 <= k < |n| ==> !IsUpper(n[k])
    ensures forall n :: n in names && !('/' in n) && (forall k :: 0 <= k < |n| ==> !IsUpper(n[k])) ==> n in r
  {
    if names == [] then []
    else if !('/' in names[0]) && forall k :: 0 <= k < |names[0]| ==> !IsUpper(names[0][k])
    then [names[0]] + MatchableNames(names[1..])
    else MatchableNames(names[1..])
  }

  /** `App.js` and the `pages/...`, `src/...` entries never contribute: a lower-cased
      file name without a '/' scores as if they were not in the table. */
  lemma {:induction false} UnmatchableEntriesNeverScore(name: string, table: seq<(string, seq<string>)>)
    requires !('/' in name)
    ensures FrameworkBonus(Lower(name), table) == FrameworkBonus(Lower(name), Matchable(table))
  {
    var f := Lower(name);
    LowerKeepsNonLetters(name, '/');
    if table != [] {
      UnmatchableEntriesNeverScore(name, table[1..]);
      assert Matchable(table)[1..] == Matchable(table[1..]);
      assert f in table[0].1 <==> f in MatchableNames(table[0].1) by {
        forall k | 0 <= k < |f| ensures !IsUpper(f[k]) {
          LowerHasNoUpper(name, k);
        }
      }
    }
  }

  /** The prefix bonus is 15 exactly when some prefix matches, else 0: applied at most once. */
  lemma {:induction false} PrefixBonusOnce(f: string, prefixes: seq<string>)
    ensures PrefixBonus(f, prefixes) == 15 <==> exists p :: p in prefixes && StartsWith(f, p)
    ensures PrefixBonus(f, prefixes) == 0 <==> !(exists p :: p in prefixes && StartsWith(f, p))
  {
    if prefixes != [] {
      PrefixBonusOnce(f, prefixes[1..]);
      if exists p :: p in prefixes[1..] && StartsWith(f, p) {
        var p :| p in prefixes[1..] && StartsWith(f, p);
        assert p in prefixes;
      }
      if exists p :: p in prefixes && StartsWith(f, p) {
        var p :| p in prefixes && StartsWith(f, p);
        if p != prefixes[0] {
          assert p in prefixes[1..];
        }
      }
    }
  }

  /** The number of names occurring in the stem. */
  function NamesContained(stem: string, names: seq<string>): (n: nat)
    ensures n <= |names|
  {
    if names == [] then 0
    else (if Contains(stem, names[0]) then 1 else 0) + NamesContained(stem, names[1..])
  }

  predicate Distinct(names: seq<string>) {
    forall i, j :: 0 <= i < j < |names| ==> names[i] != names[j]
  }

  /** Every contained name adds 10; the exact-match +5 is earned at most once, and
      only when the stem is one of the names. */
  lemma {:induction false} NameBonusShape(stem: string, names: seq<string>)
    requires Distinct(names)
    ensures NameBonus(stem, names) == 10 * NamesContained(stem, names) + (if stem in names then 5 else 0)
  {
    if names != [] {
      NameBonusShape(stem, names[1..]);
      if stem == names[0] {
        assert StartsWith(stem, names[0]);
        forall j | 0 <= j < |names| - 1
          ensures names[1..][j] != stem
        {
          assert names[1..][j] == names[j + 1];
        }
      } else {
        assert stem in names <==> stem in names[1..];
      }
    }
  }

  lemma MainNamesDistinct()
    ensures Distinct(MainNames)
  {
  }

  /** The name bonus of the stem is at most 95: nine substrings and one exact match. */
  lemma NameBonusBound(stem: string)
    ensures NameBonus(stem, MainNames) <= 95
  {
    MainNamesDistinct();
    NameBonusShape(stem, MainNames);
  }

  /** The content signatures add at most 34. */
  lemma ContentBonusBound(lines: Option<seq<string>>)
    ensures ContentBonus(lines) <= 34
  {
  }

  /** An unreadable file earns nothing from its content and keeps every other bonus. */
  lemma UnreadableKeepsNameBonuses(name: string, executable: bool, windows: bool, depth: nat)
    ensures Score(name, None, executable, windows, depth)
      == FrameworkBonus(Lower(name), FrameworkMainFiles) + PrefixBonus(Lower(name), MainFilePrefixes)
         + NameBonus(Lower(FileTree.Stem(name)), MainNames) + ExecBonus(executable, windows)
         + DepthBonus(depth)
  {
  }

  /** On Windows the exec bit never counts. */
  lemma WindowsIgnoresExecBit(name: string, lines: Option<seq<string>>, depth: nat)
    ensures Score(name, lines, true, true, depth) == Score(name, lines, false, true, depth)
  {
  }
}
