/**
 * What every scan result satisfies: each program lies within the depth
 * limit, under no hidden or excluded directory, and belongs to the one
 * ecosystem whose extension list holds its lower-cased suffix (or to
 * Executable, when it has no suffix); no file yields two programs; a program
 * whose ecosystem needs an interpreter has one on the search path; and the
 * ranked result is a stable permutation of what the walk found, by
 * descending score.
 */
module ScanProperties {
  import opened Text
  import opened FileTree
  import opened Records
  import Registry
  import Probe
  import Dependencies
  import Ranking
  import opened Scanner

  // ---------------------------------------------------------------------------
  // The registry

  /** The first ecosystem of reg from k on that claims a file name. */
  function Claimant(reg: seq<Registry.Ecosystem>, name: string, k: nat): (r: Option<nat>)
    requires k <= |reg|
    ensures r.Some? ==> k <= r.value < |reg| && Claims(reg[r.value], name)
    ensures r.Some? ==> forall i :: k <= i < r.value ==> !Claims(reg[i], name)
    ensures r.None? ==> forall i :: k <= i < |reg| ==> !Claims(reg[i], name)
    decreases |reg| - k
  {
    if k == |reg| then None
    else if Claims(reg[k], name) then Some(k)
    else Claimant(reg, name, k + 1)
  }

  /** No extension is listed by two ecosystems. */
  lemma ExtensionsDisjoint(i: nat, j: nat, x: string)
    requires i < j < |Registry.Ecosystems()|
    requires x in Registry.Ecosystems()[i].extensions
    ensures x !in Registry.Ecosystems()[j].extensions
  {
    if i == 0 && j < 11 {
      DisjointFrom0(i, j, x);
    } else if i == 0 {
      DisjointFrom0Late(i, j, x);
    } else if i < 3 {
      DisjointFrom1(i, j, x);
    } else if i < 5 {
      DisjointFrom3(i, j, x);
    } else if i < 10 {
      DisjointFrom5(i, j, x);
    } else if i < 15 {
      DisjointFrom10(i, j, x);
    } else {
      DisjointFrom15(i, j, x);
    }
  }

  lemma DisjointFrom0(i: nat, j: nat, x: string)
    requires i == 0 && i < j < 11
    requires x in Registry.Ecosystems()[i].extensions
    ensures x !in Registry.Ecosystems()[j].extensions
  {
  }

  lemma DisjointFrom0Late(i: nat, j: nat, x: string)
    requires i == 0 && 11 <= j < |Registry.Ecosystems()|
    requires x in Registry.Ecosystems()[i].extensions
    ensures x !in Registry.Ecosystems()[j].extensions
  {
  }

  lemma DisjointFrom1(i: nat, j: nat, x: string)
    requires 1 <= i < 3 && i < j < |Registry.Ecosystems()|
    requires x in Registry.Ecosystems()[i].extensions
    ensures x !in Registry.Ecosystems()[j].extensions
  {
  }

  lemma DisjointFrom3(i: nat, j: nat, x: string)
    requires 3 <= i < 5 && i < j < |Registry.Ecosystems()|
    requires x in Registry.Ecosystems()[i].extensions
    ensures x !in Registry.Ecosystems()[j].extensions
  {
  }

  lemma DisjointFrom5(i: nat, j: nat, x: string)
    requires 5 <= i < 10 && i < j < |Registry.Ecosystems()|
    requires x in Registry.Ecosystems()[i].extensions
    ensures x !in Registry.Ecosystems()[j].extensions
  {
  }

  lemma DisjointFrom10(i: nat, j: nat, x: string)
    requires 10 <= i < 15 && i < j < |Registry.Ecosystems()|
    requires x in Registry.Ecosystems()[i].extensions
    ensures x !in Registry.Ecosystems()[j].extensions
  {
  }

  lemma DisjointFrom15(i: nat, j: nat, x: string)
    requires 15 <= i < 21 && i < j < |Registry.Ecosystems()|
    requires x in Registry.Ecosystems()[i].extensions
    ensures x !in Registry.Ecosystems()[j].extensions
  {
  }

  /** Only a name with a suffix can be claimed through an extension. */
  lemma ExtensionsNonEmpty(i: nat, x: string)
    requires i < |Registry.Ecosystems()| && x in Registry.Ecosystems()[i].extensions
    ensures x != "" && Registry.Ecosystems()[i].name != Registry.ExecutableTag
  {
  }

  /** At most one ecosystem claims a file name, so registry order never has to
      break a tie. */
  lemma ClaimsUnique(name: string, i: nat, j: nat)
    requires i < |Registry.Ecosystems()| && j < |Registry.Ecosystems()|
    requires Claims(Registry.Ecosystems()[i], name) && Claims(Registry.Ecosystems()[j], name)
    ensures i == j
  {
    var x := Lower(Suffix(name));
    var ei, ej := Registry.Ecosystems()[i], Registry.Ecosystems()[j];
    Registry.OnlyExecutableHasNoExtensions(i);
    Registry.OnlyExecutableHasNoExtensions(j);
    if x in ei.extensions {
      ExtensionsNonEmpty(i, x);
      assert Suffix(name) != "";
      if i < j { ExtensionsDisjoint(i, j, x); } else if j < i { ExtensionsDisjoint(j, i, x); }
    } else {
      assert Suffix(name) == "" && ei.name == Registry.ExecutableTag;
      assert x == "";
      if x in ej.extensions { ExtensionsNonEmpty(j, x); }
      assert ej.name == Registry.ExecutableTag;
      assert i == |Registry.Ecosystems()| - 1 && j == |Registry.Ecosystems()| - 1;
    }
  }

  // ---------------------------------------------------------------------------
  // One file

  /** What a program made from file f in the directory c by ecosystem e
      satisfies: it is e's, it passes e's extension or exec-bit rule, and an
      ecosystem that needs interpreters has one of them on the path. */
  predicate MadeBy(p: ExecutableProgram, f: File, c: DirContext, cfg: ScanConfig, e: Registry.Ecosystem) {
    && p.ecosystem == e.name
    && p.interpreters == e.interpreters
    && p.name == f.name
    && p.relativeParts == c.rel + [f.name]
    && (Lower(Suffix(f.name)) in e.extensions
        || (Suffix(f.name) == "" && e.name == Registry.ExecutableTag && (f.executable || cfg.windows)))
    && (e.interpreters == [] || exists n :: n in e.interpreters && Probe.OnPath(cfg.host, n))
  }

  /** A classified file belongs to the ecosystem that claims it, extension-less
      files only to Executable and only with the exec bit (off Windows), and an
      ecosystem that needs interpreters only with one of them on the path. */
  lemma {:induction false} ClassifyFromSpec(f: File, c: DirContext, cfg: ScanConfig, k: nat)
    requires k <= |Registry.Ecosystems()|
    ensures var r := ClassifyFrom(f, c, cfg, k);
      r.Some? ==> Claimant(Registry.Ecosystems(), f.name, k).Some? && MadeBy(r.value, f, c, cfg, Registry.Ecosystems()[Claimant(Registry.Ecosystems(), f.name, k).value])
    decreases |Registry.Ecosystems()| - k
  {
    if k < |Registry.Ecosystems()| {
      var e := Registry.Ecosystems()[k];
      ClassifyFromSpec(f, c, cfg, k + 1);
      if TryEcosystem(f, c, cfg, e).Some? {
        ClassifiedHere(f, c, cfg, k);
      } else if ClassifyFrom(f, c, cfg, k).Some? {
        NoEarlierClaimant(f.name, k);
      }
    }
  }

  /** The k-th ecosystem yields a program: the loop stops there, and it is the
      first from k on to claim the file. */
  lemma ClassifiedHere(f: File, c: DirContext, cfg: ScanConfig, k: nat)
    requires k < |Registry.Ecosystems()|
    ensures var r := TryEcosystem(f, c, cfg, Registry.Ecosystems()[k]);
      r.Some? ==>
        && ClassifyFrom(f, c, cfg, k) == r
        && Claimant(Registry.Ecosystems(), f.name, k) == Some(k)
        && MadeBy(r.value, f, c, cfg, Registry.Ecosystems()[k])
  {
    TryEcosystemSpec(f, c, cfg, k);
  }

  /** When a later ecosystem claims a name, the k-th does not, so the search
      for the claimant passes over it. */
  lemma NoEarlierClaimant(name: string, k: nat)
    requires k < |Registry.Ecosystems()|
    ensures Claimant(Registry.Ecosystems(), name, k + 1).Some? ==>
      && !Claims(Registry.Ecosystems()[k], name)
      && Claimant(Registry.Ecosystems(), name, k) == Claimant(Registry.Ecosystems(), name, k + 1)
  {
    if Claimant(Registry.Ecosystems(), name, k + 1).Some? {
      var j := Claimant(Registry.Ecosystems(), name, k + 1).value;
      if Claims(Registry.Ecosystems()[k], name) {
        ClaimsUnique(name, k, j);
      }
    }
  }

  /** A program made by the k-th ecosystem is made by it in the sense of MadeBy,
      and the ecosystem claims the file. */
  lemma TryEcosystemSpec(f: File, c: DirContext, cfg: ScanConfig, k: nat)
    requires k < |Registry.Ecosystems()|
    ensures var r := TryEcosystem(f, c, cfg, Registry.Ecosystems()[k]);
      r.Some? ==> Claims(Registry.Ecosystems()[k], f.name) && MadeBy(r.value, f, c, cfg, Registry.Ecosystems()[k])
  {
    var e := Registry.Ecosystems()[k];
    Dependencies.RegistryInterpretersAreNotDeepChecks(k);
    Dependencies.SkipIffNoInterpreterOnPath(cfg.host, c.dir, c.path, e, cfg.enableVenv);
  }

  /** What the ecosystem loop demands of a file before ecosystem e makes a
      program from it: e claims it, an extension-less file has the exec bit
      (off Windows), and an ecosystem that needs interpreters has one on the
      path. */
  predicate Eligible(f: File, cfg: ScanConfig, e: Registry.Ecosystem) {
    && Claims(e, f.name)
    && !(e.name == Registry.ExecutableTag && !f.executable && !cfg.windows)
    && (e.interpreters == [] || exists n :: n in e.interpreters && Probe.OnPath(cfg.host, n))
  }

  /** The k-th ecosystem makes a program from f exactly when f is eligible for it. */
  lemma TryEcosystemIffEligible(f: File, c: DirContext, cfg: ScanConfig, k: nat)
    requires k < |Registry.Ecosystems()|
    ensures TryEcosystem(f, c, cfg, Registry.Ecosystems()[k]).Some? <==> Eligible(f, cfg, Registry.Ecosystems()[k])
  {
    var e := Registry.Ecosystems()[k];
    Dependencies.RegistryInterpretersAreNotDeepChecks(k);
    Dependencies.SkipIffNoInterpreterOnPath(cfg.host, c.dir, c.path, e, cfg.enableVenv);
  }

  /** The ecosystem loop from k on gives what the claimant from k on makes, and
      nothing when no ecosystem from k on claims the file: an unclaimed
      ecosystem never stops the loop, and no later one can take over from a
      claimant that declines. */
  lemma {:induction false} ClassifyFromIsClaimant(f: File, c: DirContext, cfg: ScanConfig, k: nat)
    requires k <= |Registry.Ecosystems()|
    ensures var j := Claimant(Registry.Ecosystems(), f.name, k);
      ClassifyFrom(f, c, cfg, k) == if j.None? then None else TryEcosystem(f, c, cfg, Registry.Ecosystems()[j.value])
    decreases |Registry.Ecosystems()| - k
  {
    if k < |Registry.Ecosystems()| {
      ClassifyFromIsClaimant(f, c, cfg, k + 1);
      var later := Claimant(Registry.Ecosystems(), f.name, k + 1);
      if Claims(Registry.Ecosystems()[k], f.name) && later.Some? {
        ClaimsUnique(f.name, k, later.value);
      }
    }
  }

  /** The converse of ClassifyFromSpec: a file that the j-th ecosystem is the
      first from k on to claim, and that is eligible for it, is always
      classified by the loop from k on, with that ecosystem's program. */
  lemma ClassifiedWhenEligible(f: File, c: DirContext, cfg: ScanConfig, k: nat, j: nat)
    requires k <= j < |Registry.Ecosystems()|
    ensures Claimant(Registry.Ecosystems(), f.name, k) == Some(j) && Eligible(f, cfg, Registry.Ecosystems()[j]) ==>
      && ClassifyFrom(f, c, cfg, k).Some?
      && ClassifyFrom(f, c, cfg, k) == TryEcosystem(f, c, cfg, Registry.Ecosystems()[j])
  {
    ClassifyFromIsClaimant(f, c, cfg, k);
    TryEcosystemIffEligible(f, c, cfg, j);
  }

  // ---------------------------------------------------------------------------
  // The walk

  /** Where a path found under the directory at rel may lie: below it, within
      the depth limit, and only below directories the walk enters. */
  predicate Below(parts: seq<string>, rel: seq<string>, cfg: ScanConfig) {
    && |rel| < |parts|
    && parts[..|rel|] == rel
    && |parts| - 1 <= cfg.maxDepth
    && (forall k :: |rel| <= k < |parts| - 1 ==> Descends(parts[k], cfg))
  }

  lemma BelowDeeper(parts: seq<string>, rel: seq<string>, name: string, cfg: ScanConfig)
    requires Below(parts, rel + [name], cfg) && Descends(name, cfg)
    ensures Below(parts, rel, cfg) && parts[|rel|] == name
  {
    assert parts[..|rel|] == parts[..|rel| + 1][..|rel|];
    assert parts[|rel|] == (rel + [name])[|rel|];
  }

  /** Every file the walk from the directory at rel looks at lies below it. */
  lemma {:induction false} VisitsBelow(d: Dir, path: string, rel: seq<string>, cfg: ScanConfig)
    ensures forall v :: v in Visits(d, path, rel, cfg) ==> Below(Parts(v), rel, cfg)
    decreases d, 1
  {
    if !(|rel| > cfg.maxDepth || !d.readable) {
      EntriesVisitsBelow(d, path, rel, cfg, |d.entries|);
    }
  }

  lemma {:induction false} EntriesVisitsBelow(d: Dir, path: string, rel: seq<string>, cfg: ScanConfig, n: nat)
    requires n <= |d.entries| && |rel| <= cfg.maxDepth
    ensures forall v :: v in EntriesVisits(d, path, rel, cfg, n) ==> Below(Parts(v), rel, cfg)
    decreases d, 0, n
  {
    if n > 0 {
      EntriesVisitsBelow(d, path, rel, cfg, n - 1);
      EntryVisitsBelow(d, path, rel, cfg, n - 1);
    }
  }

  lemma {:induction false} EntryVisitsBelow(d: Dir, path: string, rel: seq<string>, cfg: ScanConfig, i: nat)
    requires i < |d.entries| && |rel| <= cfg.maxDepth
    ensures forall v :: v in EntryVisits(d, path, rel, cfg, i) ==> Below(Parts(v), rel, cfg)
    decreases d, 0, i
  {
    assert d.entries[i] in d.entries;
    match d.entries[i] {
      case FileEntry(f) =>
        assert Parts(Visit(f, d, path, rel))[..|rel|] == rel;
      case DirEntry(sub) =>
        if Descends(sub.name, cfg) {
          var subPath, subRel := Child(path, sub.name, cfg.windows), rel + [sub.name];
          VisitsBelow(sub, subPath, subRel, cfg);
          forall v | v in Visits(sub, subPath, subRel, cfg) ensures Below(Parts(v), rel, cfg) {
            BelowDeeper(Parts(v), rel, sub.name, cfg);
          }
        }
    }
  }

  /** No file is looked at twice. */
  predicate DistinctVisits(vs: seq<Visit>) {
    forall i, j :: 0 <= i < j < |vs| ==> Parts(vs[i]) != Parts(vs[j])
  }

  /** In a snapshot whose entry names are unique per directory, the walk looks
      at every file at most once. */
  lemma {:induction false} VisitsDistinct(d: Dir, path: string, rel: seq<string>, cfg: ScanConfig)
    requires WellFormed(d)
    ensures DistinctVisits(Visits(d, path, rel, cfg))
    decreases d, 1
  {
    if !(|rel| > cfg.maxDepth || !d.readable) {
      EntriesVisitsDistinct(d, path, rel, cfg, |d.entries|);
    }
  }

  lemma {:induction false} EntriesVisitsDistinct(d: Dir, path: string, rel: seq<string>, cfg: ScanConfig, n: nat)
    requires WellFormed(d) && n <= |d.entries|
    ensures DistinctVisits(EntriesVisits(d, path, rel, cfg, n))
    ensures forall v :: v in EntriesVisits(d, path, rel, cfg, n) ==>
      |rel| < |Parts(v)| && exists i :: 0 <= i < n && EntryName(d.entries[i]) == Parts(v)[|rel|]
    decreases d, 0, n
  {
    if n > 0 {
      EntriesVisitsDistinct(d, path, rel, cfg, n - 1);
      EntryVisitsDistinct(d, path, rel, cfg, n - 1);
      JoinUnderEntries(EntriesVisits(d, path, rel, cfg, n - 1), EntryVisits(d, path, rel, cfg, n - 1),
                       rel, d.entries, n);
    }
  }

  /** The files looked at for one entry are distinct and all lie under it. */
  lemma {:induction false} EntryVisitsDistinct(d: Dir, path: string, rel: seq<string>, cfg: ScanConfig, i: nat)
    requires WellFormed(d) && i < |d.entries|
    ensures DistinctVisits(EntryVisits(d, path, rel, cfg, i))
    ensures forall v :: v in EntryVisits(d, path, rel, cfg, i) ==>
      |rel| < |Parts(v)| && Parts(v)[|rel|] == EntryName(d.entries[i])
    decreases d, 0, i
  {
    assert d.entries[i] in d.entries;
    match d.entries[i] {
      case FileEntry(f) =>
      case DirEntry(sub) =>
        if Descends(sub.name, cfg) {
          var subPath, subRel := Child(path, sub.name, cfg.windows), rel + [sub.name];
          VisitsDistinct(sub, subPath, subRel, cfg);
          VisitsBelow(sub, subPath, subRel, cfg);
          forall v | v in Visits(sub, subPath, subRel, cfg)
            ensures |rel| < |Parts(v)| && Parts(v)[|rel|] == sub.name
          {
            BelowDeeper(Parts(v), rel, sub.name, cfg);
          }
        }
    }
  }

  /** The files under the first n - 1 entries and those under entry n - 1,
      whose name differs from all earlier ones, are together distinct and lie
      under the first n entries. */
  lemma JoinUnderEntries(t: seq<Visit>, extra: seq<Visit>, rel: seq<string>, entries: seq<Entry>, n: nat)
    requires 0 < n <= |entries|
    requires forall i :: 0 <= i < n - 1 ==> EntryName(entries[i]) != EntryName(entries[n - 1])
    requires DistinctVisits(t) && DistinctVisits(extra)
    requires forall v :: v in t ==>
      |rel| < |Parts(v)| && exists i :: 0 <= i < n - 1 && EntryName(entries[i]) == Parts(v)[|rel|]
    requires forall v :: v in extra ==> |rel| < |Parts(v)| && Parts(v)[|rel|] == EntryName(entries[n - 1])
    ensures DistinctVisits(t + extra)
    ensures forall v :: v in t + extra ==>
      |rel| < |Parts(v)| && exists i :: 0 <= i < n && EntryName(entries[i]) == Parts(v)[|rel|]
  {
    var name := EntryName(entries[n - 1]);
    forall i, j | 0 <= i < j < |t + extra| ensures Parts((t + extra)[i]) != Parts((t + extra)[j]) {
      if i < |t| && j >= |t| {
        var v, w := (t + extra)[i], (t + extra)[j];
        assert v in t && w in extra;
        var k :| 0 <= k < n - 1 && EntryName(entries[k]) == Parts(v)[|rel|];
      }
    }
    forall v | v in t + extra
      ensures |rel| < |Parts(v)| && exists i :: 0 <= i < n && EntryName(entries[i]) == Parts(v)[|rel|]
    {
      if v in extra {
        assert EntryName(entries[n - 1]) == Parts(v)[|rel|];
      } else {
        assert v in t;
      }
    }
  }

  // ---------------------------------------------------------------------------
  // The programs of the visited files

  /** Where a program found under the directory at rel may lie, and in which ecosystem. */
  predicate Placed(p: ExecutableProgram, rel: seq<string>, cfg: ScanConfig) {
    Located(p, rel, cfg) && Classified(p)
  }

  /** Below rel as above, named after the last part of its path. */
  predicate Located(p: ExecutableProgram, rel: seq<string>, cfg: ScanConfig) {
    Below(p.relativeParts, rel, cfg) && p.name == p.relativeParts[|p.relativeParts| - 1]
  }

  /** In the ecosystem that claims the file's name. */
  predicate Classified(p: ExecutableProgram) {
    Claimant(Registry.Ecosystems(), p.name, 0).Some?
      && p.ecosystem == Registry.Ecosystems()[Claimant(Registry.Ecosystems(), p.name, 0).value].name
  }

  /** A program made from a visited file has the file's name and path and is
      in the ecosystem that claims the file. */
  lemma ClassifySpec(v: Visit, cfg: ScanConfig)
    ensures Classify(v, cfg).Some? ==>
      var p := Classify(v, cfg).value;
      p.relativeParts == Parts(v) && p.name == v.file.name && Classified(p)
  {
    ClassifyFromSpec(v.file, Context(v.dir, v.path, v.rel, cfg), cfg, 0);
  }

  /** The programs among some outcomes are exactly the outcomes that are
      programs: each comes from one, and each one contributes. */
  lemma {:induction false} SomesFrom(rs: seq<Option<ExecutableProgram>>)
    ensures forall p :: p in Somes(rs) ==> exists i :: 0 <= i < |rs| && rs[i] == Some(p)
    ensures forall i :: 0 <= i < |rs| && rs[i].Some? ==> rs[i].value in Somes(rs)
  {
    if rs != [] {
      var init := rs[..|rs| - 1];
      SomesFrom(init);
      forall p | p in Somes(rs) ensures exists i :: 0 <= i < |rs| && rs[i] == Some(p) {
        if p in Somes(init) {
          var i :| 0 <= i < |init| && init[i] == Some(p);
          assert rs[i] == init[i];
        }
      }
      forall i | 0 <= i < |rs| && rs[i].Some? ensures rs[i].value in Somes(rs) {
        if i < |init| {
          assert rs[i] == init[i];
        }
      }
    }
  }

  /** Outcomes that are programs from pairwise different files give a
      duplicate-free list. */
  lemma {:induction false} SomesDistinct(rs: seq<Option<ExecutableProgram>>)
    requires forall i, j :: 0 <= i < j < |rs| && rs[i].Some? && rs[j].Some? ==>
      rs[i].value.relativeParts != rs[j].value.relativeParts
    ensures Ranking.DistinctPaths(Somes(rs))
  {
    if rs != [] {
      var init, last := rs[..|rs| - 1], rs[|rs| - 1];
      assert forall i, j :: 0 <= i < j < |init| ==> init[i] == rs[i] && init[j] == rs[j];
      SomesDistinct(init);
      SomesFrom(init);
      var a: seq<ExecutableProgram>, b: seq<ExecutableProgram> := Somes(init), Opt(last);
      forall i, j | 0 <= i < j < |a + b| ensures (a + b)[i].relativeParts != (a + b)[j].relativeParts {
        if i < |a| && j >= |a| {
          assert (a + b)[i] in a && (a + b)[j] in b;
          var k :| 0 <= k < |init| && init[k] == Some((a + b)[i]);
          assert rs[k] == init[k];
        }
      }
    }
  }

  /** The programs are exactly what the visited files yield: each comes from
      a visit, and each visit that yields a program contributes it. */
  lemma ProgramsFromVisits(vs: seq<Visit>, cfg: ScanConfig)
    ensures forall p :: p in Programs(vs, cfg) ==> exists i :: 0 <= i < |vs| && Classify(vs[i], cfg) == Some(p)
    ensures forall i :: 0 <= i < |vs| && Classify(vs[i], cfg).Some? ==> Classify(vs[i], cfg).value in Programs(vs, cfg)
  {
    var rs := Outcomes(vs, cfg);
    SomesFrom(rs);
    forall p | p in Programs(vs, cfg) ensures exists i :: 0 <= i < |vs| && Classify(vs[i], cfg) == Some(p) {
      var i :| 0 <= i < |rs| && rs[i] == Some(p);
      assert Classify(vs[i], cfg) == rs[i];
    }
    forall i | 0 <= i < |vs| && Classify(vs[i], cfg).Some? ensures Classify(vs[i], cfg).value in Programs(vs, cfg) {
      assert rs[i] == Classify(vs[i], cfg);
    }
  }

  /** Distinct visits yield programs from distinct files. */
  lemma ProgramsDistinct(vs: seq<Visit>, cfg: ScanConfig)
    requires DistinctVisits(vs)
    ensures Ranking.DistinctPaths(Programs(vs, cfg))
  {
    var rs := Outcomes(vs, cfg);
    forall i, j | 0 <= i < j < |rs| && rs[i].Some? && rs[j].Some?
      ensures rs[i].value.relativeParts != rs[j].value.relativeParts
    {
      ClassifySpec(vs[i], cfg);
      ClassifySpec(vs[j], cfg);
    }
    SomesDistinct(rs);
  }

  /** Visits below rel yield programs placed below rel. */
  lemma ProgramsPlaced(vs: seq<Visit>, rel: seq<string>, cfg: ScanConfig)
    requires forall v :: v in vs ==> Below(Parts(v), rel, cfg)
    ensures forall p :: p in Programs(vs, cfg) ==> Placed(p, rel, cfg)
  {
    ProgramsFromVisits(vs, cfg);
    forall p | p in Programs(vs, cfg) ensures Placed(p, rel, cfg) {
      var i :| 0 <= i < |vs| && Classify(vs[i], cfg) == Some(p);
      assert vs[i] in vs;
      VisitPlaced(vs[i], rel, cfg);
    }
  }

  /** A file visited below rel that yields a program yields one placed below rel. */
  lemma VisitPlaced(v: Visit, rel: seq<string>, cfg: ScanConfig)
    requires Below(Parts(v), rel, cfg)
    ensures Classify(v, cfg).Some? ==> Placed(Classify(v, cfg).value, rel, cfg)
  {
    ClassifySpec(v, cfg);
  }

  /** Every program of Walk(d) lies under d within the depth limit, below
      directories the walk may enter, and in its one claiming ecosystem; and
      the walk never finds more programs than it looks at files. */
  lemma WalkPlaced(d: Dir, path: string, rel: seq<string>, cfg: ScanConfig)
    ensures forall p :: p in Walk(d, path, rel, cfg).programs ==> Placed(p, rel, cfg)
    ensures |Walk(d, path, rel, cfg).programs| <= Walk(d, path, rel, cfg).scanned
  {
    VisitsBelow(d, path, rel, cfg);
    ProgramsPlaced(Visits(d, path, rel, cfg), rel, cfg);
  }

  /** In a snapshot whose entry names are unique per directory, no two programs
      come from the same file. */
  lemma WalkDistinct(d: Dir, path: string, rel: seq<string>, cfg: ScanConfig)
    requires WellFormed(d)
    ensures Ranking.DistinctPaths(Walk(d, path, rel, cfg).programs)
  {
    VisitsDistinct(d, path, rel, cfg);
    ProgramsDistinct(Visits(d, path, rel, cfg), cfg);
  }

  /** An empty directory yields no program. */
  lemma EmptyDirectory(name: string, path: string, cfg: ScanConfig)
    ensures Walk(Dir(name, true, []), path, [], cfg) == Tally([], 0)
  {
    var d := Dir(name, true, []);
    var vs := Visits(d, path, [], cfg);
    assert EntriesVisits(d, path, [], cfg, 0) == [];
    assert vs == [];
    assert Outcomes(vs, cfg) == [];
  }

  /** A file directly inside the scanned directory shares that directory's
      environment and task runners, and scores by its own name, content and depth. */
  lemma {:induction false} SharedDirectoryContext(f: File, d: Dir, path: string, rel: seq<string>, cfg: ScanConfig)
    ensures var r := ClassifyFrom(f, Context(d, path, rel, cfg), cfg, 0);
      r.Some? ==>
      var p := r.value;
      && p.environment == Context(d, path, rel, cfg).environment
      && p.taskRunners == Context(d, path, rel, cfg).runners
      && p.score == Scorer.Score(f.name, f.text, f.executable, cfg.windows, |rel|)
  {
    SharedFrom(f, Context(d, path, rel, cfg), cfg, 0);
  }

  lemma {:induction false} SharedFrom(f: File, c: DirContext, cfg: ScanConfig, k: nat)
    requires k <= |Registry.Ecosystems()|
    ensures var r := ClassifyFrom(f, c, cfg, k);
      r.Some? ==>
        && r.value.environment == c.environment
        && r.value.taskRunners == c.runners
        && r.value.score == Scorer.Score(f.name, f.text, f.executable, cfg.windows, |c.rel|)
    decreases |Registry.Ecosystems()| - k
  {
    if k < |Registry.Ecosystems()| {
      SharedFrom(f, c, cfg, k + 1);
    }
  }

  // ---------------------------------------------------------------------------
  // The ranked result

  /** The ranked result of a scan from the root: every program is placed as
      above, at most one per file, and the list is a stable permutation of
      what the walk found, by descending score. */
  lemma ScanResult(root: Dir, basePath: string, cfg: ScanConfig)
    requires WellFormed(root)
    ensures var found := Walk(root, basePath, [], cfg).programs;
      var ranked := Ranking.SortByScore(found);
      && (forall p :: p in ranked ==> Placed(p, [], cfg))
      && (forall p :: p in ranked ==> Depth(p) <= cfg.maxDepth)
      && Ranking.DistinctPaths(ranked)
      && Ranking.SortedDesc(ranked)
      && multiset(ranked) == multiset(found)
      && (forall v :: Ranking.WithScore(ranked, v) == Ranking.WithScore(found, v))
  {
    var found := Walk(root, basePath, [], cfg).programs;
    WalkPlaced(root, basePath, [], cfg);
    assert forall p :: p in found ==> Placed(p, [], cfg);
    WalkDistinct(root, basePath, [], cfg);
    Ranking.SortByScoreKeepsDistinct(found);
    Ranking.SortByScoreSortedPermutation(found);
    forall v ensures Ranking.WithScore(Ranking.SortByScore(found), v) == Ranking.WithScore(found, v) {
      Ranking.SortByScoreStable(found, v);
    }
  }
}
