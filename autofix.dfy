/**
 * The auto-fix engine: which dependencies it proposes to fix, when it goes
 * ahead, the timeout it gives each fix command, what running the commands
 * one by one does to the dependency records, and the file-copy backup and
 * its rollback. Commands are not run: each one's exit status and the files
 * of the work directory after it are inputs, one per proposed dependency.
 * The disk is a map from directory path to the files directly in it.
 */
module AutoFix {
  import opened Text
  import opened Records

  type Bytes = seq<bv8>

  /** The files directly in one directory, by name. */
  type Files = map<string, Bytes>

  /** Directory path to the files directly in it. */
  type Disk = map<string, Files>

  /** The auto-fix part of the configuration (defaults: no auto-confirm, no
      per-command confirmation, backups and rollback on). */
  datatype FixConfig = FixConfig(
    autoConfirm: bool,
    confirmEachCommand: bool,
    askEachCommand: bool,
    enableBackup: bool,
    autoRollback: bool)

  const DefaultFixConfig := FixConfig(false, false, false, true, true)

  /** How a fix command ended: with an exit code, by its timeout, or by an
      exception while launching it. */
  datatype RunResult = Exited(code: int) | TimedOut | Raised

  /** A fix command's end and the files of the work directory afterwards. */
  datatype CommandRun = CommandRun(result: RunResult, after: Files)

  /** A command handed to the shell, with the timeout it was given. */
  datatype Launch = Launch(command: string, timeout: nat)

  /** What `_backup_info` records: which strategy was used, and where. */
  datatype BackupInfo = GitStash(workDir: string) | FileCopy(backupDir: string, workDir: string)

  /** The git calls: whether the work directory has a `.git` entry, and
      whether `git stash push` and `git stash pop` raise. */
  datatype GitHost = GitHost(isRepo: bool, stashRaises: bool, popRaises: bool)

  // ---------------------------------------------------------------------------
  // Proposal and confirmation

  /** The indices of the dependencies that are required, missing and auto-fixable, in order. */
  function Missing(deps: seq<DependencyCheck>): (r: seq<nat>)
    ensures forall k :: 0 <= k < |r| ==> r[k] < |deps| && NeedsFix(deps[r[k]])
    ensures forall j :: 0 <= j < |deps| && NeedsFix(deps[j]) ==> j in r
    ensures forall a, b :: 0 <= a < b < |r| ==> r[a] < r[b]
  {
    if deps == [] then []
    else
      var init := Missing(deps[..|deps| - 1]);
      assert forall j :: 0 <= j < |deps| - 1 ==> deps[..|deps| - 1][j] == deps[j];
      if NeedsFix(deps[|deps| - 1]) then init + [|deps| - 1] else init
  }

  /** A typed answer that means yes: `answer.strip().lower() == 'y'`. */
  predicate Accepts(answer: string) {
    Lower(Strip(answer)) == "y"
  }

  /** The go-ahead for the whole proposal. */
  predicate Confirmed(cfg: FixConfig, interactive: bool, answer: string) {
    if cfg.autoConfirm || !cfg.confirmEachCommand then true
    else if cfg.askEachCommand then true
    else if !interactive then true
    else Accepts(answer)
  }

  /** With the default configuration the proposal is always confirmed, so the
      typed answer is never consulted. */
  lemma DefaultNeverAsks(interactive: bool, answer: string)
    ensures Confirmed(DefaultFixConfig, interactive, answer)
  {
  }

  /** Only an interactive run with confirmation on, no auto-confirm and no
      per-command prompts can be declined, and then only by an answer other
      than y. */
  lemma DeclinedOnlyWhenAsked(cfg: FixConfig, interactive: bool, answer: string)
    ensures !Confirmed(cfg, interactive, answer) <==>
      !cfg.autoConfirm && cfg.confirmEachCommand && !cfg.askEachCommand && interactive && !Accepts(answer)
  {
  }

  /** 60 seconds for commands that create a virtual environment, 300 for the rest. */
  function TimeoutFor(command: string): (t: nat)
    ensures t == 60 || t == 300
    ensures t == 60 <==> Contains(command, "python -m venv") || Contains(command, "python3 -m venv")
  {
    if Contains(command, "python -m venv") || Contains(command, "python3 -m venv") then 60 else 300
  }

  // ---------------------------------------------------------------------------
  // Execution

  /** The state the fix loop carries: the dependency records, the all-success
      flag, the commands launched so far and the work directory's files. */
  datatype ExecState = ExecState(deps: seq<DependencyCheck>, allSuccess: bool, launched: seq<Launch>, work: Files)

  /** Whether the loop runs the fix of the k-th proposed dependency: it has a
      command and, with per-command prompts on, the answer to its prompt is y. */
  predicate Attempted(dep: DependencyCheck, cfg: FixConfig, answer: string) {
    HasFixCommand(dep) && (!cfg.askEachCommand || Accepts(answer))
  }

  predicate Succeeded(run: CommandRun) {
    run.result == Exited(0)
  }

  /** The fix loop over the first n proposed dependencies. */
  function ExecuteFixes(deps: seq<DependencyCheck>, missing: seq<nat>, cfg: FixConfig,
                        answers: seq<string>, runs: seq<CommandRun>, work: Files, n: nat): (s: ExecState)
    requires n <= |missing| <= |answers| && |missing| <= |runs|
    requires forall k :: 0 <= k < |missing| ==> missing[k] < |deps|
    ensures |s.deps| == |deps|
  {
    if n == 0 then ExecState(deps, true, [], work)
    else
      var s := ExecuteFixes(deps, missing, cfg, answers, runs, work, n - 1);
      var k := n - 1;
      var dep := deps[missing[k]];
      if !Attempted(dep, cfg, answers[k]) then s
      else
        var launched := s.launched + [Launch(dep.fixCommand.value, TimeoutFor(dep.fixCommand.value))];
        if Succeeded(runs[k]) then
          ExecState(s.deps[missing[k] := dep.(available := true)], s.allSuccess, launched, runs[k].after)
        else
          ExecState(s.deps, false, launched, runs[k].after)
  }

  /** The launches of the first n proposed dependencies that are attempted, in order. */
  function LaunchesOf(deps: seq<DependencyCheck>, missing: seq<nat>, cfg: FixConfig, answers: seq<string>, n: nat)
    : seq<Launch>
    requires n <= |missing| <= |answers|
    requires forall k :: 0 <= k < |missing| ==> missing[k] < |deps|
  {
    if n == 0 then []
    else
      var dep := deps[missing[n - 1]];
      LaunchesOf(deps, missing, cfg, answers, n - 1)
      + (if Attempted(dep, cfg, answers[n - 1])
         then [Launch(dep.fixCommand.value, TimeoutFor(dep.fixCommand.value))] else [])
  }

  /** The fix loop of auto_fix_dependencies over the proposed dependencies,
      in order, starting from the work directory's files work0. */
  method RunFixes(deps: seq<DependencyCheck>, missing: seq<nat>, cfg: FixConfig,
                  answers: seq<string>, runs: seq<CommandRun>, work0: Files) returns (s: ExecState)
    requires |missing| <= |answers| && |missing| <= |runs|
    requires forall k :: 0 <= k < |missing| ==> missing[k] < |deps|
    ensures s == ExecuteFixes(deps, missing, cfg, answers, runs, work0, |missing|)
  {
    var current, allSuccess, launched, work := deps, true, [], work0;
    for k := 0 to |missing|
      invariant ExecState(current, allSuccess, launched, work) == ExecuteFixes(deps, missing, cfg, answers, runs, work0, k)
    {
      var dep := deps[missing[k]];
      if HasFixCommand(dep) {
        if cfg.askEachCommand && !Accepts(answers[k]) {
          continue;
        }
        var command := dep.fixCommand.value;
        launched := launched + [Launch(command, TimeoutFor(command))];
        work := runs[k].after;
        if runs[k].result == Exited(0) {
          current := current[missing[k] := dep.(available := true)];
        } else {
          allSuccess := false;
        }
      }
    }
    s := ExecState(current, allSuccess, launched, work);
  }

  /** What the loop leaves in the record at index j: marked available exactly
      when j is the k-th proposed dependency, its fix was attempted and it
      exited 0; otherwise untouched. */
  function Expected(deps: seq<DependencyCheck>, missing: seq<nat>, cfg: FixConfig,
                    answers: seq<string>, runs: seq<CommandRun>, n: nat, j: nat): DependencyCheck
    requires n <= |missing| <= |answers| && |missing| <= |runs| && j < |deps|
  {
    if exists k :: 0 <= k < n && missing[k] == j && Attempted(deps[j], cfg, answers[k]) && Succeeded(runs[k])
    then deps[j].(available := true)
    else deps[j]
  }

  /** The fix loop, stated per record: every proposed dependency is attempted
      at most once, in order; it becomes available exactly when its command
      exits 0; records that were not proposed, and skipped ones, are unchanged;
      the result is true exactly when no attempted fix failed. */
  lemma {:induction false} ExecuteFixesSpec(deps: seq<DependencyCheck>, missing: seq<nat>, cfg: FixConfig,
                                            answers: seq<string>, runs: seq<CommandRun>, work: Files, n: nat)
    requires n <= |missing| <= |answers| && |missing| <= |runs|
    requires forall k :: 0 <= k < |missing| ==> missing[k] < |deps|
    requires forall a, b :: 0 <= a < b < |missing| ==> missing[a] < missing[b]
    ensures var s := ExecuteFixes(deps, missing, cfg, answers, runs, work, n);
      && (forall j :: 0 <= j < |deps| ==> s.deps[j] == Expected(deps, missing, cfg, answers, runs, n, j))
      && (s.allSuccess <==> forall k :: 0 <= k < n && Attempted(deps[missing[k]], cfg, answers[k]) ==> Succeeded(runs[k]))
      && s.launched == LaunchesOf(deps, missing, cfg, answers, n)
      && |s.launched| <= n
  {
    if n > 0 {
      ExecuteFixesSpec(deps, missing, cfg, answers, runs, work, n - 1);
      forall i | 0 <= i < |deps|
        ensures ExecuteFixes(deps, missing, cfg, answers, runs, work, n).deps[i]
          == Expected(deps, missing, cfg, answers, runs, n, i)
      {
        ExpectedStep(deps, missing, cfg, answers, runs, work, n, i);
      }
    }
  }

  /** One step of the per-record statement of ExecuteFixesSpec. */
  lemma ExpectedStep(deps: seq<DependencyCheck>, missing: seq<nat>, cfg: FixConfig,
                     answers: seq<string>, runs: seq<CommandRun>, work: Files, n: nat, i: nat)
    requires 0 < n <= |missing| <= |answers| && |missing| <= |runs| && i < |deps|
    requires forall k :: 0 <= k < |missing| ==> missing[k] < |deps|
    requires forall a, b :: 0 <= a < b < |missing| ==> missing[a] < missing[b]
    requires ExecuteFixes(deps, missing, cfg, answers, runs, work, n - 1).deps[i]
      == Expected(deps, missing, cfg, answers, runs, n - 1, i)
    ensures ExecuteFixes(deps, missing, cfg, answers, runs, work, n).deps[i]
      == Expected(deps, missing, cfg, answers, runs, n, i)
  {
    var k := n - 1;
    if i != missing[k] {
      if exists m :: 0 <= m < n && missing[m] == i && Attempted(deps[i], cfg, answers[m]) && Succeeded(runs[m]) {
        var m :| 0 <= m < n && missing[m] == i && Attempted(deps[i], cfg, answers[m]) && Succeeded(runs[m]);
        assert m < n - 1;
      }
    } else {
      assert forall m :: 0 <= m < n - 1 ==> missing[m] < missing[k];
    }
  }

  /** A proposed dependency with a command that is attempted and exits 0
      reads available afterwards. */
  lemma FixedWhenCommandSucceeds(deps: seq<DependencyCheck>, cfg: FixConfig, answers: seq<string>,
                                 runs: seq<CommandRun>, work: Files, k: nat)
    requires |Missing(deps)| <= |answers| && |Missing(deps)| <= |runs|
    requires k < |Missing(deps)|
    requires Attempted(deps[Missing(deps)[k]], cfg, answers[k]) && Succeeded(runs[k])
    ensures var missing := Missing(deps);
      ExecuteFixes(deps, missing, cfg, answers, runs, work, |missing|).deps[missing[k]].available
  {
    var missing := Missing(deps);
    ExecuteFixesSpec(deps, missing, cfg, answers, runs, work, |missing|);
    assert Expected(deps, missing, cfg, answers, runs, |missing|, missing[k]).available;
  }

  /** Idempotence: when every proposed fix has a command, no prompt skips it
      and every command exits 0, nothing is left to propose, so a second
      auto-fix returns at once. */
  lemma SecondRunHasNothingToFix(deps: seq<DependencyCheck>, cfg: FixConfig, answers: seq<string>,
                                 runs: seq<CommandRun>, work: Files)
    requires |Missing(deps)| <= |answers| && |Missing(deps)| <= |runs|
    requires forall k :: 0 <= k < |Missing(deps)| ==>
      Attempted(deps[Missing(deps)[k]], cfg, answers[k]) && Succeeded(runs[k])
    ensures var missing := Missing(deps);
      Missing(ExecuteFixes(deps, missing, cfg, answers, runs, work, |missing|).deps) == []
  {
    var missing := Missing(deps);
    var after := ExecuteFixes(deps, missing, cfg, answers, runs, work, |missing|).deps;
    ExecuteFixesSpec(deps, missing, cfg, answers, runs, work, |missing|);
    forall j | 0 <= j < |after| ensures !NeedsFix(after[j]) {
      if NeedsFix(deps[j]) {
        var k :| 0 <= k < |missing| && missing[k] == j;
        assert after[j] == deps[j].(available := true);
      } else {
        assert after[j] == Expected(deps, missing, cfg, answers, runs, |missing|, j);
      }
    }
    NoneMissing(after);
  }

  lemma {:induction false} NoneMissing(deps: seq<DependencyCheck>)
    requires forall j :: 0 <= j < |deps| ==> !NeedsFix(deps[j])
    ensures Missing(deps) == []
  {
    if deps != [] {
      var init := deps[..|deps| - 1];
      assert forall j :: 0 <= j < |init| ==> init[j] == deps[j];
      NoneMissing(init);
    }
  }

  // ---------------------------------------------------------------------------
  // Backup and rollback

  /** The files the file-copy backup saves. */
  const KeyFiles: seq<string> := ["requirements.txt", "package.json", "Pipfile", "poetry.lock", "yarn.lock", "pnpm-lock.yaml"]

  function FilesAt(disk: Disk, dir: string): Files {
    if dir in disk then disk[dir] else map[]
  }

  /** shutil.copy2 of each of names that is present in src into dst, in
      order: dst keeps its other files. */
  function CopyNames(src: Files, dst: Files, names: seq<string>): (r: Files)
    ensures forall n :: n in names && n in src ==> n in r && r[n] == src[n]
    ensures forall n :: !(n in names && n in src) ==> (n in r <==> n in dst) && (n in dst ==> r[n] == dst[n])
  {
    if names == [] then dst
    else
      var init, last := names[..|names| - 1], names[|names| - 1];
      assert names == init + [last];
      var r := CopyNames(src, dst, init);
      if last in src then r[last := src[last]] else r
  }

  /** Copying the key files. */
  function CopyKeyFiles(src: Files, dst: Files): Files {
    CopyNames(src, dst, KeyFiles)
  }

  /** Some of names is present. */
  predicate HasAny(files: Files, names: seq<string>) {
    exists n :: n in names && n in files
  }

  /** Some key file is present. */
  predicate HasKeyFile(files: Files) {
    HasAny(files, KeyFiles)
  }

  /** Copying a directory's files onto itself changes nothing. */
  lemma CopyOntoItself(files: Files, names: seq<string>)
    ensures CopyNames(files, files, names) == files
  {
    var r := CopyNames(files, files, names);
    assert r.Keys == files.Keys;
  }

  /** The file loop of backup and rollback (run on the key files): each name
      present in src is copied into dst in turn. When src and dst are one
      directory the first copy raises (shutil.SameFileError) and the loop
      stops, which leaves the files as they were. */
  method CopyNamesLoop(src: Files, dst: Files, names: seq<string>, sameDir: bool) returns (r: Files, ok: bool)
    requires sameDir ==> src == dst
    ensures ok <==> !(sameDir && HasAny(src, names))
    ensures r == CopyNames(src, dst, names)
  {
    r, ok := dst, true;
    for k := 0 to |names|
      invariant r == CopyNames(src, dst, names[..k])
      invariant sameDir ==> forall j :: 0 <= j < k ==> names[j] !in src
    {
      var name := names[k];
      assert names[..k + 1] == names[..k] + [name];
      if name in src {
        if sameDir {
          assert name in names;
          CopyOntoItself(src, names);
          return dst, false;
        }
        r := r[name := src[name]];
      }
    }
    assert names[..|names|] == names;
  }

  /** _create_backup(work_dir) with the side directory backupDir (named from
      the clock in the source): the side directory is created, then a git
      stash is recorded when the work directory is a git checkout and the
      stash call does not raise; otherwise the key files are copied. Copying a
      key file onto itself raises, which fails the backup. */
  function CreateBackup(disk: Disk, workDir: string, backupDir: string, git: GitHost)
    : (r: (bool, Disk, Option<BackupInfo>))
    ensures r.0 <==> r.2.Some?
    ensures r.2.Some? && r.2.value.FileCopy? ==> r.2.value == FileCopy(backupDir, workDir)
  {
    var made := disk[backupDir := FilesAt(disk, backupDir)];
    if git.isRepo && !git.stashRaises then (true, made, Some(GitStash(workDir)))
    else if workDir == backupDir && HasKeyFile(FilesAt(disk, workDir)) then (false, made, None)
    else (true, made[backupDir := CopyKeyFiles(FilesAt(disk, workDir), FilesAt(disk, backupDir))],
          Some(FileCopy(backupDir, workDir)))
  }

  /** _rollback_backup(work_dir): false without a recorded backup; a git stash
      is popped (its effect on the files is not modelled); a file copy puts
      every key file found in the side directory back into work_dir and then
      removes the side directory. */
  function Rollback(disk: Disk, info: Option<BackupInfo>, workDir: string, git: GitHost): (r: (bool, Disk))
    ensures info.None? ==> r == (false, disk)
  {
    match info
    case None => (false, disk)
    case Some(GitStash(_)) => (!git.popRaises, disk)
    case Some(FileCopy(backupDir, _)) =>
      if workDir == backupDir && HasKeyFile(FilesAt(disk, backupDir)) then (false, disk)
      else (true, disk[workDir := CopyKeyFiles(FilesAt(disk, backupDir), FilesAt(disk, workDir))] - {backupDir})
  }

  /** File-copy rollback correctness: back up a work directory into a side
      directory holding no key file, let the fix commands change the work
      directory in any way, roll back. Every key file that existed at backup
      time has its backed-up bytes again; every other file is as the commands
      left it; every other directory is untouched; the side directory is gone. */
  lemma RollbackRestoresKeyFiles(disk0: Disk, workDir: string, backupDir: string, git: GitHost, work1: Files)
    requires workDir != backupDir && workDir in disk0
    requires !(git.isRepo && !git.stashRaises)
    requires !HasKeyFile(FilesAt(disk0, backupDir))
    ensures var (ok, disk1, info) := CreateBackup(disk0, workDir, backupDir, git);
      var (back, disk2) := Rollback(disk1[workDir := work1], info, workDir, git);
      var before, after := disk0[workDir], disk2[workDir];
      && ok && info == Some(FileCopy(backupDir, workDir)) && back
      && workDir in disk2 && backupDir !in disk2
      && (forall n :: n in KeyFiles && n in before ==> n in after && after[n] == before[n])
      && (forall n :: !(n in KeyFiles && n in before) ==> (n in after <==> n in work1) && (n in work1 ==> after[n] == work1[n]))
      && (forall dir :: dir != workDir && dir != backupDir ==> (dir in disk2 <==> dir in disk0) && (dir in disk0 ==> disk2[dir] == disk0[dir]))
  {
    var (ok, disk1, info) := CreateBackup(disk0, workDir, backupDir, git);
    var side := CopyKeyFiles(disk0[workDir], FilesAt(disk0, backupDir));
    assert disk1[backupDir] == side;
    assert FilesAt(disk1[workDir := work1], backupDir) == side;
    assert !HasKeyFile(FilesAt(disk0, backupDir));
  }

  /** The side directory is named from the clock and created with
      exist_ok=True, so two backups in the same second share it. A key file
      left there by the earlier one is copied into a work directory that
      never had it. */
  lemma StaleSideFileRestored(disk0: Disk, workDir: string, backupDir: string, git: GitHost, work1: Files, n: string)
    requires workDir != backupDir && workDir in disk0
    requires !(git.isRepo && !git.stashRaises)
    requires n in KeyFiles && n !in disk0[workDir] && n !in work1 && n in FilesAt(disk0, backupDir)
    ensures var (ok, disk1, info) := CreateBackup(disk0, workDir, backupDir, git);
      var (back, disk2) := Rollback(disk1[workDir := work1], info, workDir, git);
      back && n in disk2[workDir] && disk2[workDir][n] == disk0[backupDir][n]
  {
    var (ok, disk1, info) := CreateBackup(disk0, workDir, backupDir, git);
    var side := CopyKeyFiles(disk0[workDir], FilesAt(disk0, backupDir));
    assert disk1[backupDir] == side;
    assert FilesAt(disk1[workDir := work1], backupDir) == side;
  }

  /** Without a recorded backup, rollback reports false and changes nothing. */
  lemma RollbackWithoutBackup(disk: Disk, workDir: string, git: GitHost)
    ensures Rollback(disk, None, workDir, git) == (false, disk)
  {
  }

  /** A git backup is preferred whenever the stash call goes through, and its
      rollback leaves the modelled files alone. */
  lemma GitStashPreferred(disk: Disk, workDir: string, backupDir: string, git: GitHost)
    requires git.isRepo && !git.stashRaises
    ensures var (ok, disk1, info) := CreateBackup(disk, workDir, backupDir, git);
      ok && info == Some(GitStash(workDir)) && Rollback(disk1, info, workDir, git) == (!git.popRaises, disk1)
  {
  }
}
