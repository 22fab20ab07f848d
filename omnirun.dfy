/**
 * The launcher object. It holds the configuration, the scan root, the list
 * of programs found by the last scan and the record of the last backup, and
 * it owns the disk the auto-fixer changes. Its methods change that state step
 * by step as the source does; each is tied to the pure definitions of modules
 * Scanner, Ranking and AutoFix, where the properties are proved.
 */
module OmniRunCore {
  import opened Text
  import opened FileTree
  import opened Records
  import Probe
  import Environments
  import Scanner
  import Ranking
  import AutoFix
  import Execution

  /** The configuration the core reads. The defaults are a depth limit of 10,
      seven excluded directory names, a 300 second run timeout, docker and
      virtual-environment detection on and the auto-fix defaults. */
  datatype Config = Config(
    maxDepth: int,
    excludeDirs: seq<string>,
    timeout: nat,
    enableDocker: bool,
    enableVenv: bool,
    fix: AutoFix.FixConfig)

  const DefaultConfig: Config := Config(
    10, ["node_modules", "__pycache__", ".git", "venv", "env", "build", "dist"], 300,
    true, true, AutoFix.DefaultFixConfig)

  /** What the launcher sees of its host: the platform, the interpreter probes
      and the virtual-environment interpreters. */
  datatype HostView = HostView(windows: bool, interpreters: Probe.Host, venvs: Environments.VenvHost)

  /** prog.path.parent for a path built as directory, separator, name. */
  function WorkDir(p: ExecutableProgram): (r: string)
    ensures forall dir, windows :: p.path == Child(dir, p.name, windows) ==> r == dir
  {
    if |p.path| > |p.name| then p.path[..|p.path| - |p.name| - 1] else p.path
  }

  class OmniRun {
    const basePath: string
    /** The tree under basePath, as the scan reads it. */
    const root: Dir
    const config: Config
    const host: HostView
    var discoveredPrograms: seq<ExecutableProgram>
    var backupInfo: Option<AutoFix.BackupInfo>
    /** The directories the auto-fixer and the backup read and write. */
    var disk: AutoFix.Disk

    constructor(basePath: string, root: Dir, config: Config, host: HostView, disk: AutoFix.Disk)
      ensures this.basePath == basePath && this.root == root && this.config == config && this.host == host
      ensures discoveredPrograms == [] && backupInfo == None && this.disk == disk
    {
      this.basePath := basePath;
      this.root := root;
      this.config := config;
      this.host := host;
      discoveredPrograms := [];
      backupInfo := None;
      this.disk := disk;
    }

    /** The scan settings for an optional depth override. */
    function ScanSettings(maxDepth: Option<int>): (c: Scanner.ScanConfig)
      ensures c.maxDepth == (if maxDepth.Some? then maxDepth.value else config.maxDepth)
      ensures c.excludeDirs == config.excludeDirs
    {
      Scanner.ScanConfig(
        if maxDepth.Some? then maxDepth.value else config.maxDepth,
        config.excludeDirs, host.windows, config.enableDocker, config.enableVenv,
        host.interpreters, host.venvs)
    }

    /** scan_for_executables: walk from the root, rank the programs by
        descending score and remember them. */
    method ScanForExecutables(maxDepth: Option<int>) returns (programs: seq<ExecutableProgram>, scanned: nat)
      modifies this`discoveredPrograms
      ensures var t := Scanner.Walk(root, basePath, [], ScanSettings(maxDepth));
        && programs == Ranking.SortByScore(t.programs)
        && scanned == t.scanned
      ensures discoveredPrograms == programs
    {
      var found;
      found, scanned := Scanner.ScanDirectory(root, basePath, [], ScanSettings(maxDepth), [], 0);
      ghost var t := Scanner.Walk(root, basePath, [], ScanSettings(maxDepth));
      assert [] + t.programs == t.programs;
      programs := Ranking.SortByScore(found);
      discoveredPrograms := programs;
    }

    /** _create_backup(work_dir), with the clock-named side directory given:
        make the side directory, record a git stash if possible, otherwise copy
        the key files one by one. A failed backup leaves the previous record. */
    method CreateBackup(workDir: string, backupDir: string, git: AutoFix.GitHost) returns (ok: bool)
      modifies this`disk, this`backupInfo
      ensures var r := AutoFix.CreateBackup(old(disk), workDir, backupDir, git);
        && ok == r.0 && disk == r.1
        && backupInfo == (if r.0 then r.2 else old(backupInfo))
    {
      var side := AutoFix.FilesAt(disk, backupDir);
      disk := disk[backupDir := side];
      if git.isRepo && !git.stashRaises {
        backupInfo := Some(AutoFix.GitStash(workDir));
        return true;
      }
      var copied;
      copied, ok := AutoFix.CopyNamesLoop(AutoFix.FilesAt(disk, workDir), side, AutoFix.KeyFiles, workDir == backupDir);
      if ok {
        disk := disk[backupDir := copied];
        backupInfo := Some(AutoFix.FileCopy(backupDir, workDir));
      }
    }

    /** _rollback_backup(work_dir): pop the stash, or copy every key file found
        in the side directory back, one by one, and remove the side directory. */
    method RollbackBackup(workDir: string, git: AutoFix.GitHost) returns (ok: bool)
      modifies this`disk
      ensures (ok, disk) == AutoFix.Rollback(old(disk), backupInfo, workDir, git)
    {
      match backupInfo {
        case None =>
          return false;
        case Some(GitStash(_)) =>
          return !git.popRaises;
        case Some(FileCopy(backupDir, _)) =>
          var restored;
          restored, ok := AutoFix.CopyNamesLoop(AutoFix.FilesAt(disk, backupDir), AutoFix.FilesAt(disk, workDir),
                                               AutoFix.KeyFiles, workDir == backupDir);
          if ok {
            disk := disk[workDir := restored] - {backupDir};
          }
      }
    }

    /** auto_fix_dependencies for the i-th discovered program. Nothing happens
        when nothing needs fixing (true), in a dry run or when the proposal is
        declined (false). Otherwise an optional backup is made, each proposed
        fix runs in the program's directory as module AutoFix describes, the
        program's records are updated in place, and a failed run with a backup
        is rolled back. The typed answers and each command's end and effect on
        the directory are inputs. */
    method AutoFixDependencies(i: nat, interactive: bool, dryRun: bool, backup: bool, answer: string,
                               answers: seq<string>, runs: seq<AutoFix.CommandRun>,
                               git: AutoFix.GitHost, backupDir: string)
      returns (ok: bool, launched: seq<AutoFix.Launch>)
      requires i < |discoveredPrograms|
      requires |AutoFix.Missing(discoveredPrograms[i].dependencies)| <= |answers|
      requires |AutoFix.Missing(discoveredPrograms[i].dependencies)| <= |runs|
      requires WorkDir(discoveredPrograms[i]) in disk
      modifies this`discoveredPrograms, this`disk, this`backupInfo
      ensures var prog := old(discoveredPrograms[i]);
        var missing := AutoFix.Missing(prog.dependencies);
        var go := missing != [] && !dryRun && AutoFix.Confirmed(config.fix, interactive, answer);
        && (!go ==> ok == (missing == []) && launched == []
                    && discoveredPrograms == old(discoveredPrograms)
                    && disk == old(disk) && backupInfo == old(backupInfo))
        && (go ==>
              var workDir := WorkDir(prog);
              var b := if backup && config.fix.enableBackup
                       then AutoFix.CreateBackup(old(disk), workDir, backupDir, git)
                       else (false, old(disk), None);
              var info := if b.0 then b.2 else old(backupInfo);
              var e := AutoFix.ExecuteFixes(prog.dependencies, missing, config.fix, answers, runs,
                                            AutoFix.FilesAt(b.1, workDir), |missing|);
              var fixed := b.1[workDir := e.work];
              && ok == e.allSuccess && launched == e.launched
              && discoveredPrograms == old(discoveredPrograms)[i := prog.(dependencies := e.deps)]
              && backupInfo == info
              && disk == (if !ok && b.0 && config.fix.autoRollback
                          then AutoFix.Rollback(fixed, info, workDir, git).1 else fixed))
    {
      var prog := discoveredPrograms[i];
      var missing := AutoFix.Missing(prog.dependencies);
      if missing == [] {
        return true, [];
      }
      if dryRun || !AutoFix.Confirmed(config.fix, interactive, answer) {
        return false, [];
      }
      var workDir := WorkDir(prog);
      var created := false;
      if backup && config.fix.enableBackup {
        created := CreateBackup(workDir, backupDir, git);
      }
      var e := AutoFix.RunFixes(prog.dependencies, missing, config.fix, answers, runs, AutoFix.FilesAt(disk, workDir));
      disk := disk[workDir := e.work];
      launched := e.launched;
      var deps, allSuccess := e.deps, e.allSuccess;
      discoveredPrograms := discoveredPrograms[i := prog.(dependencies := deps)];
      ok := allSuccess;
      if !allSuccess && created && config.fix.autoRollback {
        var _ := RollbackBackup(workDir, git);
      }
    }

    /** The summary block of generate_json_report, counted in one pass over
        the discovered programs. */
    method JsonSummary() returns (s: Execution.Summary)
      ensures s == Execution.SummaryOf(discoveredPrograms)
    {
      var programs := discoveredPrograms;
      var ready, issues := 0, 0;
      var byType: seq<(string, nat)> := [];
      for k := 0 to |programs|
        invariant issues == Execution.CountIssues(programs[..k]) && ready == k - issues
        invariant byType == Execution.ByType(programs[..k])
      {
        var p := programs[k];
        assert programs[..k + 1] == programs[..k] + [p];
        if Execution.HasIssues(p) {
          issues := issues + 1;
        } else {
          ready := ready + 1;
        }
        byType := Execution.Bump(byType, p.ecosystem);
      }
      assert programs[..|programs|] == programs;
      s := Execution.Summary(|programs|, byType, ready, issues);
    }
  }
}
