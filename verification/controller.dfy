/**
 * `FiberControllerImpl`: the registry from service name to unit, with the
 * single-service and bulk load/save operations.
 *
 * Registry errors (a duplicate name, an unknown name) are thrown. Storage
 * failures that escape a unit are thrown on by `register` and the
 * single-service `save`/`load`, and caught per unit by `loadAll`/`saveAll`.
 */
module Controller {
  import opened Wrappers
  import opened ServicePaths
  import opened Storage
  import opened Units

  /** The per-unit try/catch of the bulk loops: a thrown failure is caught and printed. */
  function Swallow(o: Outcome): (r: Outcome)
    ensures !r.Threw?
    ensures o.Threw? ==> r == Logged(o.thrown)
    ensures !o.Threw? ==> r == o
  {
    if o.Threw? then Logged(o.thrown) else o
  }

  /** The outcomes `saveAll` reports are those the services' saves have on the disk `st0` it started on. */
  ghost predicate ReportMatches(root: Path, oracle: Oracle, st0: DiskState, jobs: map<string, Settings>,
                                report: map<string, Outcome>)
  {
    && report.Keys <= jobs.Keys
    && forall n :: n in report ==> report[n] == Swallow(SaveSpec(st0, oracle, Target(root, n), jobs[n]).0)
  }

  /** `written` holds the files of exactly the services already saved. */
  ghost predicate WrittenExactly(root: Path, jobs: map<string, Settings>, report: map<string, Outcome>, written: set<Path>)
  {
    && (forall n :: n in report ==> Target(root, n) in written)
    && (forall n :: n in jobs && Target(root, n) in written ==> n in report)
  }

  /** The files of the services already saved hold what their save alone would leave on `st0`. */
  ghost predicate DoneFiles(root: Path, oracle: Oracle, st0: DiskState, files: map<Path, Content>,
                            jobs: map<string, Settings>, report: map<string, Outcome>)
    requires report.Keys <= jobs.Keys
  {
    forall n :: n in report ==>
      Lookup(files, Target(root, n)) == Lookup(SaveSpec(st0, oracle, Target(root, n), jobs[n]).1.files, Target(root, n))
  }

  /** A save in `saveAll`'s loop, on a file not yet written, ends as it would on the starting disk. */
  lemma StepOutcome(root: Path, oracle: Oracle, st0: DiskState, pre: DiskState, post: DiskState,
                    jobs: map<string, Settings>, report: map<string, Outcome>, written: set<Path>,
                    name: string, out: Outcome)
    requires ReportMatches(root, oracle, st0, jobs, report) && WrittenExactly(root, jobs, report, written)
    requires pre.files - written == st0.files - written
    requires name in jobs && name !in report
    requires (out, post) == SaveSpec(pre, oracle, Target(root, name), jobs[name])
    ensures Target(root, name) !in written
    ensures ReportMatches(root, oracle, st0, jobs, report[name := Swallow(out)])
    ensures Lookup(post.files, Target(root, name))
         == Lookup(SaveSpec(st0, oracle, Target(root, name), jobs[name]).1.files, Target(root, name))
  {
    var target := Target(root, name);
    LookupOutside(pre.files, st0.files, written, target);
    SaveSpecLocal(pre, st0, oracle, target, jobs[name]);
  }

  /** A save in `saveAll`'s loop leaves the files of the services saved before it alone. */
  lemma StepDone(root: Path, oracle: Oracle, st0: DiskState, pre: DiskState, post: DiskState,
                 jobs: map<string, Settings>, report: map<string, Outcome>, written: set<Path>,
                 name: string, out: Outcome)
    requires report.Keys <= jobs.Keys && WrittenExactly(root, jobs, report, written)
    requires DoneFiles(root, oracle, st0, pre.files, jobs, report)
    requires name in jobs && Target(root, name) !in written
    requires (out, post) == SaveSpec(pre, oracle, Target(root, name), jobs[name])
    requires Lookup(post.files, Target(root, name))
          == Lookup(SaveSpec(st0, oracle, Target(root, name), jobs[name]).1.files, Target(root, name))
    ensures DoneFiles(root, oracle, st0, post.files, jobs, report[name := Swallow(out)])
  {
    forall n | n in report
      ensures Lookup(post.files, Target(root, n)) == Lookup(pre.files, Target(root, n))
    {
      SaveTouchesOnlyTarget(pre, oracle, Target(root, name), jobs[name], Target(root, n));
    }
  }

  /** After a save in `saveAll`'s loop, `written` gains exactly that service's file. */
  lemma StepWritten(root: Path, jobs: map<string, Settings>, report: map<string, Outcome>, written: set<Path>,
                    name: string, out: Outcome)
    requires WrittenExactly(root, jobs, report, written)
    ensures WrittenExactly(root, jobs, report[name := out], written + {Target(root, name)})
  {
    forall n | n in jobs && Target(root, n) == Target(root, name)
      ensures n == name
    {
      TargetInjective(root, n, name);
    }
  }

  /** Maps that agree outside a set of keys agree on each key outside it. */
  lemma LookupOutside(m1: map<Path, Content>, m2: map<Path, Content>, s: set<Path>, p: Path)
    requires m1 - s == m2 - s && p !in s
    ensures Lookup(m1, p) == Lookup(m2, p)
  {
    assert p in m1 <==> p in m1 - s;
    assert p in m2 <==> p in m2 - s;
    if p in m1 {
      assert m1[p] == (m1 - s)[p];
    }
    if p in m2 {
      assert m2[p] == (m2 - s)[p];
    }
  }

  /** The untouched-files part of SaveStep: only the saved file can differ from the starting disk. */
  lemma FilesStep(files0: map<Path, Content>, pre: map<Path, Content>, post: map<Path, Content>,
                  written: set<Path>, target: Path)
    requires pre - written == files0 - written
    requires forall p :: p != target ==> Lookup(post, p) == Lookup(pre, p)
    ensures post - (written + {target}) == files0 - (written + {target})
  {
    var w := written + {target};
    forall p | p !in w
      ensures Lookup(post - w, p) == Lookup(files0 - w, p)
    {
      LookupOutside(pre, files0, written, p);
      assert Lookup(post, p) == Lookup(pre, p);
    }
    assert forall p :: p in post - w <==> p in files0 - w by {
      forall p ensures p in post - w <==> p in files0 - w {
        if p !in w { assert Lookup(post - w, p) == Lookup(files0 - w, p); }
      }
    }
  }

  /** The directory part of SaveStep: the directories of one more save are added. */
  lemma DirsStep(root: Path, oracle: Oracle, dirs0: set<Path>, pre: set<Path>, post: set<Path>,
                 order: seq<string>, name: string)
    requires pre == dirs0 + CreatedDirs(root, oracle, order)
    requires post == pre + DirsMadeBy(root, oracle, name)
    ensures post == dirs0 + CreatedDirs(root, oracle, order + [name])
  {
    assert (order + [name])[..|order|] == order;
  }

  /** Each element occurs once. */
  ghost predicate Distinct(s: seq<string>)
  {
    forall i, j :: 0 <= i < j < |s| ==> s[i] != s[j]
  }

  /** Appending an element not yet present keeps a sequence free of repeats. */
  lemma DistinctSnoc(s: seq<string>, x: string)
    requires Distinct(s) && x !in s
    ensures Distinct(s + [x])
  {
  }

  /** The directories saving one service creates: none if `createDirectories` throws. */
  function DirsMadeBy(root: Path, oracle: Oracle, name: string): set<Path>
  {
    var dir := Parent(Target(root, name));
    if dir in oracle.mkdirsFails then {} else Ancestors(dir)
  }

  /** The directories that saving the named services, one after the other, creates. */
  function CreatedDirs(root: Path, oracle: Oracle, names: seq<string>): set<Path>
  {
    if names == [] then {}
    else CreatedDirs(root, oracle, names[..|names| - 1]) + DirsMadeBy(root, oracle, names[|names| - 1])
  }

  /**
   * What `saveAll`'s loop has done so far, from the disk `st0` it started
   * on to the disk `st` it has now.
   */
  ghost predicate SaveProgress(root: Path, oracle: Oracle, st0: DiskState, st: DiskState, jobs: map<string, Settings>,
                               report: map<string, Outcome>, written: set<Path>, order: seq<string>)
  {
    && ReportMatches(root, oracle, st0, jobs, report)
    && WrittenExactly(root, jobs, report, written)
    && DoneFiles(root, oracle, st0, st.files, jobs, report)
    && st.files - written == st0.files - written
    && st.dirs == st0.dirs + CreatedDirs(root, oracle, order)
  }

  /** The files of the named services. */
  ghost function Written(root: Path, names: seq<string>): set<Path>
  {
    set n | n in names :: Target(root, n)
  }

  /** Saving one more service adds its file to those written. */
  lemma WrittenSnoc(root: Path, names: seq<string>, name: string)
    ensures Written(root, names + [name]) == Written(root, names) + {Target(root, name)}
  {
    forall p | p in Written(root, names + [name])
      ensures p in Written(root, names) + {Target(root, name)}
    {
      var n :| n in names + [name] && p == Target(root, n);
      if n != name {
        assert n in names;
      }
    }
  }

  /**
   * `saveAll`'s loop as a function: the services in `order` saved one after
   * the other from the disk `st0`, each with its exception caught, giving
   * the report and the disk left behind.
   */
  function SaveSeq(st0: DiskState, oracle: Oracle, root: Path, jobs: map<string, Settings>, order: seq<string>)
    : (r: (map<string, Outcome>, DiskState))
    requires forall n :: n in order ==> n in jobs
    ensures forall n :: n in r.0 <==> n in order
    decreases |order|
  {
    if order == [] then (map[], st0)
    else
      var prev := SaveSeq(st0, oracle, root, jobs, order[..|order| - 1]);
      var name := order[|order| - 1];
      var step := SaveSpec(prev.1, oracle, Target(root, name), jobs[name]);
      (prev.0[name := Swallow(step.0)], step.1)
  }

  /** Saving one more service continues from the disk the earlier ones left. */
  lemma SaveSeqSnoc(st0: DiskState, oracle: Oracle, root: Path, jobs: map<string, Settings>, order: seq<string>,
                    name: string, out: Outcome, post: DiskState)
    requires forall n :: n in order ==> n in jobs
    requires name in jobs
    requires (out, post) == SaveSpec(SaveSeq(st0, oracle, root, jobs, order).1, oracle, Target(root, name), jobs[name])
    ensures SaveSeq(st0, oracle, root, jobs, order + [name])
         == (SaveSeq(st0, oracle, root, jobs, order).0[name := Swallow(out)], post)
  {
    assert (order + [name])[..|order|] == order;
  }

  /** One step of `saveAll`'s loop keeps SaveProgress. */
  lemma SaveStep(root: Path, oracle: Oracle, st0: DiskState, pre: DiskState, jobs: map<string, Settings>,
                 report: map<string, Outcome>, written: set<Path>, order: seq<string>, name: string)
    requires SaveProgress(root, oracle, st0, pre, jobs, report, written, order)
    requires name in jobs && name !in report
    ensures var (out, post) := SaveSpec(pre, oracle, Target(root, name), jobs[name]);
      SaveProgress(root, oracle, st0, post, jobs, report[name := Swallow(out)],
                   written + {Target(root, name)}, order + [name])
  {
    var target := Target(root, name);
    var (out, post) := SaveSpec(pre, oracle, target, jobs[name]);
    StepOutcome(root, oracle, st0, pre, post, jobs, report, written, name, out);
    StepDone(root, oracle, st0, pre, post, jobs, report, written, name, out);
    StepWritten(root, jobs, report, written, name, Swallow(out));
    forall p | p != target
      ensures Lookup(post.files, p) == Lookup(pre.files, p)
    {
      SaveTouchesOnlyTarget(pre, oracle, target, jobs[name], p);
    }
    FilesStep(st0.files, pre.files, post.files, written, target);
    DirsStep(root, oracle, st0.dirs, pre.dirs, post.dirs, order, name);
  }

  /**
   * Saving distinct services one after the other is the same as saving each
   * on the starting disk: each reports what its save alone would, each file
   * ends as its save alone would leave it, no other file changes, and the
   * directories of the saves that got past `createDirectories` are added.
   */
  lemma {:induction false} SaveSeqProgress(st0: DiskState, oracle: Oracle, root: Path, jobs: map<string, Settings>,
                                          order: seq<string>)
    requires Distinct(order) && forall n :: n in order ==> n in jobs
    ensures SaveProgress(root, oracle, st0, SaveSeq(st0, oracle, root, jobs, order).1, jobs,
                         SaveSeq(st0, oracle, root, jobs, order).0, Written(root, order), order)
    decreases |order|
  {
    if order != [] {
      var prefix, name := order[..|order| - 1], order[|order| - 1];
      assert order == prefix + [name];
      SaveSeqProgress(st0, oracle, root, jobs, prefix);
      var (report, pre) := SaveSeq(st0, oracle, root, jobs, prefix);
      SaveStep(root, oracle, st0, pre, jobs, report, Written(root, prefix), prefix, name);
      WrittenSnoc(root, prefix, name);
    }
  }

  /**
   * The services of `order`, saved one after the other from `st0`: what
   * each reports and leaves in its file is what its save alone on `st0`
   * would, no file outside theirs changes, and the directories their saves
   * created are added.
   */
  lemma SaveSeqOutcomes(st0: DiskState, oracle: Oracle, root: Path, jobs: map<string, Settings>, order: seq<string>)
    requires Distinct(order) && forall n :: n in order ==> n in jobs
    ensures var (report, st) := SaveSeq(st0, oracle, root, jobs, order);
      && (forall n :: n in order ==> report[n] == Swallow(SaveSpec(st0, oracle, Target(root, n), jobs[n]).0))
      && (forall n :: n in order ==>
            Lookup(st.files, Target(root, n)) == Lookup(SaveSpec(st0, oracle, Target(root, n), jobs[n]).1.files, Target(root, n)))
      && (forall p :: p !in Written(root, order) ==> Lookup(st.files, p) == Lookup(st0.files, p))
      && st.dirs == st0.dirs + CreatedDirs(root, oracle, order)
  {
    SaveSeqProgress(st0, oracle, root, jobs, order);
    var (report, st) := SaveSeq(st0, oracle, root, jobs, order);
    forall p | p !in Written(root, order)
      ensures Lookup(st.files, p) == Lookup(st0.files, p)
    {
      LookupOutside(st.files, st0.files, Written(root, order), p);
    }
  }

  /** One iteration of `saveAll`'s loop: the unit's save, with its exception caught. */
  method SaveNext(disk: Disk, root: Path, unit: FiberUnit, name: string, ghost st0: DiskState,
                  ghost jobs: map<string, Settings>, ghost order: seq<string>, report: map<string, Outcome>)
    returns (next: map<string, Outcome>)
    requires unit.path == Components(name) && name in jobs && jobs[name] == unit.tree.settings
    requires forall n :: n in order ==> n in jobs
    requires (report, disk.State()) == SaveSeq(st0, disk.oracle, root, jobs, order)
    modifies disk
    ensures (next, disk.State()) == SaveSeq(st0, disk.oracle, root, jobs, order + [name])
  {
    var out := unit.Save(root, disk);
    SaveSeqSnoc(st0, disk.oracle, root, jobs, order, name, out, disk.State());
    next := report[name := Swallow(out)];
  }

  /** `loadAll`'s report after loading the services of `order`, one after the other. */
  function LoadReport(files: map<Path, Content>, oracle: Oracle, root: Path, order: seq<string>)
    : (r: map<string, Outcome>)
    ensures forall n :: n in r <==> n in order
    decreases |order|
  {
    if order == [] then map[]
    else
      var name := order[|order| - 1];
      LoadReport(files, oracle, root, order[..|order| - 1])[name := Swallow(LoadSpec(files, oracle, Target(root, name)).0)]
  }

  /** Loading one more service adds its outcome to the report. */
  lemma LoadReportSnoc(files: map<Path, Content>, oracle: Oracle, root: Path, order: seq<string>, name: string)
    ensures LoadReport(files, oracle, root, order + [name])
         == LoadReport(files, oracle, root, order)[name := Swallow(LoadSpec(files, oracle, Target(root, name)).0)]
  {
    assert (order + [name])[..|order|] == order;
  }

  /** Each service in the report has what its load on the unchanged disk gives, with its exception caught. */
  lemma {:induction false} LoadReportValues(files: map<Path, Content>, oracle: Oracle, root: Path, order: seq<string>)
    ensures forall n :: n in order ==>
      LoadReport(files, oracle, root, order)[n] == Swallow(LoadSpec(files, oracle, Target(root, n)).0)
    decreases |order|
  {
    if order != [] {
      var prefix := order[..|order| - 1];
      assert order == prefix + [order[|order| - 1]];
      LoadReportValues(files, oracle, root, prefix);
    }
  }

  /** What loading each service of `order` does to its tree. */
  ghost function LoadEffects(files: map<Path, Content>, oracle: Oracle, root: Path, order: seq<string>)
    : (r: map<string, TreeEffect>)
    ensures forall n :: n in r <==> n in order
    decreases |order|
  {
    if order == [] then map[]
    else
      var name := order[|order| - 1];
      LoadEffects(files, oracle, root, order[..|order| - 1])[name := LoadSpec(files, oracle, Target(root, name)).1]
  }

  /** Loading one more service adds its effect. */
  lemma LoadEffectsSnoc(files: map<Path, Content>, oracle: Oracle, root: Path, order: seq<string>, name: string)
    ensures LoadEffects(files, oracle, root, order + [name])
         == LoadEffects(files, oracle, root, order)[name := LoadSpec(files, oracle, Target(root, name)).1]
  {
    assert (order + [name])[..|order|] == order;
  }

  /** Each service's effect is that of its own load. */
  lemma {:induction false} LoadEffectsValues(files: map<Path, Content>, oracle: Oracle, root: Path, order: seq<string>)
    ensures forall n :: n in order ==>
      LoadEffects(files, oracle, root, order)[n] == LoadSpec(files, oracle, Target(root, n)).1
    decreases |order|
  {
    if order != [] {
      var prefix := order[..|order| - 1];
      assert order == prefix + [order[|order| - 1]];
      LoadEffectsValues(files, oracle, root, prefix);
    }
  }

  /** No other service in `units` is bound to the same tree as `name`. */
  ghost predicate Alone(units: map<string, FiberUnit>, name: string)
    requires name in units
  {
    forall m :: m in units && m != name ==> units[m].tree != units[name].tree
  }

  /**
   * One iteration of `loadAll`'s loop: the unit's load, with its exception
   * caught; the trees of the services in `alone` other than this one keep
   * their settings.
   */
  method LoadNext(disk: Disk, root: Path, unit: FiberUnit, name: string,
                  ghost units: map<string, FiberUnit>, ghost alone: set<string>) returns (out: Outcome)
    requires unit.path == Components(name)
    requires forall n :: n in alone && n != name ==> n in units && units[n].tree != unit.tree
    modifies unit.tree
    ensures out == Swallow(LoadSpec(disk.files, disk.oracle, Target(root, name)).0)
    ensures Applied(LoadSpec(disk.files, disk.oracle, Target(root, name)).1, old(unit.tree.settings), unit.tree.settings)
    ensures forall n :: n in alone && n != name ==> units[n].tree.settings == old(units[n].tree.settings)
  {
    var r := unit.Load(root, disk);
    out := Swallow(r);
  }

  /**
   * `loadAll`'s loop over a snapshot `units` of the registry: every unit is
   * loaded once, in some order, each with its exception caught; a tree bound
   * to one service only ends as that service's load leaves it.
   */
  method LoadEach(disk: Disk, root: Path, units: map<string, FiberUnit>, ghost trees: set<ConfigTree>,
                  ghost alone: set<string>)
    returns (report: map<string, Outcome>, ghost order: seq<string>)
    requires forall n :: n in units ==> units[n].path == Components(n) && units[n].tree in trees
    requires forall n :: n in alone ==> n in units && Alone(units, n)
    modifies trees
    ensures Distinct(order) && forall n :: n in order <==> n in units
    ensures report == LoadReport(disk.files, disk.oracle, root, order)
    ensures forall n :: n in alone ==>
      Applied(LoadSpec(disk.files, disk.oracle, Target(root, n)).1, old(units[n].tree.settings), units[n].tree.settings)
  {
    var pending := units.Keys;
    report, order := map[], [];
    ghost var effects: map<string, TreeEffect> := map[];
    while pending != {}
      invariant pending <= units.Keys
      invariant Distinct(order) && forall n :: n in order <==> n in units && n !in pending
      invariant report == LoadReport(disk.files, disk.oracle, root, order)
      invariant effects == LoadEffects(disk.files, disk.oracle, root, order)
      invariant forall n :: n in alone && n in order ==> Applied(effects[n], old(units[n].tree.settings), units[n].tree.settings)
      invariant forall n :: n in alone && n !in order ==> units[n].tree.settings == old(units[n].tree.settings)
      decreases pending
    {
      var name :| name in pending;
      var out := LoadNext(disk, root, units[name], name, units, alone);
      LoadReportSnoc(disk.files, disk.oracle, root, order, name);
      DistinctSnoc(order, name);
      LoadEffectsSnoc(disk.files, disk.oracle, root, order, name);
      effects := effects[name := LoadSpec(disk.files, disk.oracle, Target(root, name)).1];
      report := report[name := out];
      order := order + [name];
      pending := pending - {name};
    }
    LoadEffectsValues(disk.files, disk.oracle, root, order);
  }

  /**
   * `saveAll`'s loop over a snapshot `units` of the registry, whose trees
   * hold `jobs`: every unit is saved once, in some order, each with its
   * exception caught, as SaveSeq says for that order.
   */
  method SaveEach(disk: Disk, root: Path, units: map<string, FiberUnit>, ghost jobs: map<string, Settings>)
    returns (report: map<string, Outcome>, ghost order: seq<string>)
    requires forall n :: n in units ==> units[n].path == Components(n) && n in jobs && jobs[n] == units[n].tree.settings
    modifies disk
    ensures Distinct(order) && forall n :: n in order <==> n in units
    ensures (report, disk.State()) == SaveSeq(old(disk.State()), disk.oracle, root, jobs, order)
  {
    var pending := units.Keys;
    report, order := map[], [];
    while pending != {}
      invariant pending <= units.Keys
      invariant Distinct(order) && forall n :: n in order <==> n in units && n !in pending
      invariant (report, disk.State()) == SaveSeq(old(disk.State()), disk.oracle, root, jobs, order)
      decreases pending
    {
      var name :| name in pending;
      report := SaveNext(disk, root, units[name], name, old(disk.State()), jobs, order, report);
      DistinctSnoc(order, name);
      order := order + [name];
      pending := pending - {name};
    }
  }

  class FiberController {
    const root: Path
    const disk: Disk
    var units: map<string, FiberUnit>

    /** Every registered name is bound to the unit whose path was derived from it. */
    ghost predicate Valid()
      reads this
    {
      forall n :: n in units ==> units[n].path == Components(n)
    }

    /** The trees bound to registered services. */
    ghost function Trees(): set<ConfigTree>
      reads this
    {
      set n | n in units :: units[n].tree
    }

    /** The files of the registered services. */
    ghost function Targets(): set<Path>
      reads this
    {
      set n | n in units :: Target(root, n)
    }

    /** The settings of each registered service's tree. */
    ghost function Jobs(): map<string, Settings>
      reads this, Trees()
    {
      map n | n in units :: units[n].tree.settings
    }

    constructor (root: Path, disk: Disk)
      ensures Valid() && this.root == root && this.disk == disk && units == map[]
    {
      this.root, this.disk := root, disk;
      units := map[];
    }

    /**
     * `register`: a duplicate name throws and changes nothing; a fresh name
     * is bound to a new unit first, and only then loaded if asked, so it
     * stays registered when that load throws.
     */
    method Register(name: string, tree: ConfigTree, loadNow: bool) returns (out: Outcome)
      requires Valid()
      modifies this, tree
      ensures Valid()
      ensures old(name in units) ==>
        out == Threw(DuplicateService) && units == old(units) && tree.settings == old(tree.settings)
      ensures !old(name in units) ==>
        name in units && fresh(units[name]) && units[name].tree == tree && units[name].path == Components(name)
        && units == old(units)[name := units[name]]
      ensures !old(name in units) && !loadNow ==> out == Normal && tree.settings == old(tree.settings)
      ensures !old(name in units) && loadNow ==>
        out == LoadSpec(disk.files, disk.oracle, Target(root, name)).0
        && Applied(LoadSpec(disk.files, disk.oracle, Target(root, name)).1, old(tree.settings), tree.settings)
    {
      if name in units {
        return Threw(DuplicateService);
      }
      var parts := Components(name);
      var unit := new FiberUnit(parts, tree);
      units := units[name := unit];
      out := Normal;
      if loadNow {
        out := unit.Load(root, disk);
      }
    }

    /** `save(name)`: an unknown name throws and touches no file; otherwise the unit's save, uncaught. */
    method Save(name: string) returns (out: Outcome)
      requires Valid()
      modifies disk
      ensures name !in units ==> out == Threw(NoSuchElement) && disk.State() == old(disk.State())
      ensures name in units ==>
        (out, disk.State()) == SaveSpec(old(disk.State()), disk.oracle, Target(root, name), units[name].tree.settings)
    {
      if name !in units {
        return Threw(NoSuchElement);
      }
      out := units[name].Save(root, disk);
    }

    /** `load(name)`: an unknown name throws and touches no tree; otherwise the unit's load, uncaught. */
    method Load(name: string) returns (out: Outcome)
      requires Valid()
      modifies if name in units then {units[name].tree} else {}
      ensures name !in units ==> out == Threw(NoSuchElement)
      ensures name in units ==>
        out == LoadSpec(disk.files, disk.oracle, Target(root, name)).0
        && Applied(LoadSpec(disk.files, disk.oracle, Target(root, name)).1, old(units[name].tree.settings), units[name].tree.settings)
    {
      if name !in units {
        return Threw(NoSuchElement);
      }
      out := units[name].Load(root, disk);
    }

    /**
     * `loadAll`: every registered unit is loaded exactly once, in some
     * order; what one unit throws is caught there and the loop goes on.
     * The report holds, per service, what was caught or how its load ended.
     */
    method LoadAll() returns (report: map<string, Outcome>, ghost order: seq<string>)
      requires Valid()
      modifies Trees()
      ensures report.Keys == units.Keys
      ensures Distinct(order) && forall n :: n in order <==> n in units
      ensures forall n :: n in units ==> report[n] == Swallow(LoadSpec(disk.files, disk.oracle, Target(root, n)).0)
      ensures forall n :: n in units && Alone(units, n) ==>
        Applied(LoadSpec(disk.files, disk.oracle, Target(root, n)).1, old(units[n].tree.settings), units[n].tree.settings)
    {
      ghost var alone := set n | n in units && Alone(units, n);
      report, order := LoadEach(disk, root, units, Trees(), alone);
      LoadReportValues(disk.files, disk.oracle, root, order);
      forall n | n in units
        ensures report[n] == Swallow(LoadSpec(disk.files, disk.oracle, Target(root, n)).0)
      {
        assert n in order;
      }
    }

    /**
     * `saveAll`: every registered unit is saved exactly once, in some order;
     * what one unit throws is caught there and the loop goes on. Each
     * service's file ends as its own save alone would leave it, no other
     * file changes, and the directories of the saves that got past
     * `createDirectories` are added.
     */
    method SaveAll() returns (report: map<string, Outcome>, ghost order: seq<string>)
      requires Valid()
      modifies disk
      ensures report.Keys == units.Keys
      ensures Distinct(order) && forall n :: n in order <==> n in units
      ensures forall n :: n in units ==>
        report[n] == Swallow(SaveSpec(old(disk.State()), disk.oracle, Target(root, n), old(units[n].tree.settings)).0)
      ensures forall n :: n in units ==>
        Lookup(disk.files, Target(root, n))
        == Lookup(SaveSpec(old(disk.State()), disk.oracle, Target(root, n), old(units[n].tree.settings)).1.files, Target(root, n))
      ensures forall p :: p !in Targets() ==> Lookup(disk.files, p) == Lookup(old(disk.files), p)
      ensures disk.dirs == old(disk.dirs) + CreatedDirs(root, disk.oracle, order)
    {
      ghost var jobs := Jobs();
      ghost var st0 := disk.State();
      report, order := SaveEach(disk, root, units, jobs);
      SaveSeqOutcomes(st0, disk.oracle, root, jobs, order);
      forall n | n in units
        ensures report[n] == Swallow(SaveSpec(st0, disk.oracle, Target(root, n), jobs[n]).0)
        ensures Lookup(disk.files, Target(root, n)) == Lookup(SaveSpec(st0, disk.oracle, Target(root, n), jobs[n]).1.files, Target(root, n))
      {
        assert n in order;
      }
      forall p | p !in Targets()
        ensures Lookup(disk.files, p) == Lookup(st0.files, p)
      {
        assert p !in Written(root, order);
      }
    }
  }
}
