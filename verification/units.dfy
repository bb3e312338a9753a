/**
 * `FiberUnit`: one service's binding of a configuration tree to its file,
 * and the policy of its `save` and `load`.
 *
 * The policy is an error-propagation boundary: only the codec call is
 * wrapped in try/catch inside the unit, so codec failures are caught and
 * printed, while failures of `createDirectories`, `outputStream` and
 * `inputStream` escape to whoever called the unit.
 */
module Units {
  import opened Wrappers
  import opened ServicePaths
  import opened Storage

  /** What a load does to the bound tree. */
  datatype TreeEffect =
    | Unchanged
    | Overlaid(settings: Settings)  // the file's settings were overlaid on the tree
    | Disturbed  // a failed deserialisation may have applied some settings

  /** Does `after` follow from `before` by the given effect? */
  predicate Applied(effect: TreeEffect, before: Settings, after: Settings)
  {
    match effect
    case Unchanged => after == before
    case Overlaid(s) => after == Overlay(before, s)
    case Disturbed => true
  }

  /** A save gets as far as the codec: directory creation and the file open both succeed. */
  predicate SaveReachesCodec(oracle: Oracle, target: Path)
    requires |target| >= 1
  {
    Parent(target) !in oracle.mkdirsFails && target !in oracle.openWriteFails
  }

  /** The effect of `FiberUnit.save` on the disk, with its outcome. */
  function SaveSpec(st: DiskState, oracle: Oracle, target: Path, settings: Settings): (r: (Outcome, DiskState))
    requires |target| >= 1
    // storage failures escape exactly when the codec is not reached, and only they do
    ensures r.0.Threw? <==> !SaveReachesCodec(oracle, target)
    ensures r.0.Threw? ==> r.0.thrown == StorageFailure
    // codec failures are caught in the unit
    ensures r.0.Logged? <==> SaveReachesCodec(oracle, target) && target in oracle.encodeFails
    ensures r.0.Logged? ==> r.0.caught == CodecFailure
    // once opened with CREATE, the file exists, whether or not serialisation succeeds
    ensures SaveReachesCodec(oracle, target) ==> target in r.1.files
    ensures r.0.Normal? ==> r.1.files[target] == Serialized(settings)
    ensures r.0.Threw? ==> r.1.files == st.files
    // directories are only ever added: the target's directory and its ancestors
    ensures r.1.dirs == if Parent(target) in oracle.mkdirsFails then st.dirs else st.dirs + Ancestors(Parent(target))
  {
    var dir := Parent(target);
    if dir in oracle.mkdirsFails then (Threw(StorageFailure), st)
    else
      var st1 := st.(dirs := st.dirs + Ancestors(dir));
      if target in oracle.openWriteFails then (Threw(StorageFailure), st1)
      else if target in oracle.encodeFails then (Logged(CodecFailure), st1.(files := st1.files[target := Partial]))
      else (Normal, st1.(files := st1.files[target := Serialized(settings)]))
  }

  /** What a file holds, if it exists. */
  function Lookup(files: map<Path, Content>, p: Path): Option<Content>
  {
    if p in files then Some(files[p]) else None
  }

  /** A save touches no file but its own. */
  lemma SaveTouchesOnlyTarget(st: DiskState, oracle: Oracle, target: Path, settings: Settings, p: Path)
    requires |target| >= 1 && p != target
    ensures Lookup(SaveSpec(st, oracle, target, settings).1.files, p) == Lookup(st.files, p)
  {
  }

  /** A save's outcome, and what it leaves in its own file, depend only on that file and the oracle. */
  lemma SaveSpecLocal(st1: DiskState, st2: DiskState, oracle: Oracle, target: Path, settings: Settings)
    requires |target| >= 1
    requires Lookup(st1.files, target) == Lookup(st2.files, target)
    ensures SaveSpec(st1, oracle, target, settings).0 == SaveSpec(st2, oracle, target, settings).0
    ensures Lookup(SaveSpec(st1, oracle, target, settings).1.files, target)
         == Lookup(SaveSpec(st2, oracle, target, settings).1.files, target)
  {
  }

  /** The outcome of `FiberUnit.load` and what it does to the tree; a load never changes the disk. */
  function LoadSpec(files: map<Path, Content>, oracle: Oracle, target: Path): (r: (Outcome, TreeEffect))
    // a missing file is a no-op
    ensures target !in files ==> r == (Normal, Unchanged)
    // only a failing open escapes, and it leaves the tree alone
    ensures r.0.Threw? <==> target in files && target in oracle.openReadFails
    ensures r.0.Threw? ==> r.0.thrown == StorageFailure && r.1 == Unchanged
    // codec failures are caught in the unit
    ensures r.0.Logged? ==> r.0.caught == CodecFailure
    ensures r.1.Disturbed? <==> r.0.Logged?
    // once the file is open, the load is logged exactly when the codec rejects it
    ensures target in files && target !in oracle.openReadFails ==>
      (r.0.Logged? <==> !files[target].Serialized? || target in oracle.decodeFails)
    // the tree only ever takes settings that were saved into its file
    ensures r.1.Overlaid? <==> r.0.Normal? && target in files
    ensures r.1.Overlaid? ==> files[target] == Serialized(r.1.settings)
  {
    if target !in files then (Normal, Unchanged)
    else if target in oracle.openReadFails then (Threw(StorageFailure), Unchanged)
    else match files[target]
      case Serialized(s) =>
        if target in oracle.decodeFails then (Logged(CodecFailure), Disturbed) else (Normal, Overlaid(s))
      case _ => (Logged(CodecFailure), Disturbed)
  }

  /**
   * A save that meets no failure, followed by a load of the same file,
   * gives the tree back the settings it was saved with.
   */
  lemma SaveThenLoad(st: DiskState, oracle: Oracle, target: Path, settings: Settings)
    requires |target| >= 1
    requires SaveReachesCodec(oracle, target) && target !in oracle.encodeFails
    requires target !in oracle.openReadFails && target !in oracle.decodeFails
    ensures LoadSpec(SaveSpec(st, oracle, target, settings).1.files, oracle, target) == (Normal, Overlaid(settings))
  {
  }

  /**
   * A tree that is saved without failure and then loaded back without
   * failure, with its settings unchanged in between, ends with the settings
   * it was saved with.
   */
  lemma SaveThenLoadRestores(st: DiskState, oracle: Oracle, target: Path, settings: Settings, after: Settings)
    requires |target| >= 1
    requires SaveReachesCodec(oracle, target) && target !in oracle.encodeFails
    requires target !in oracle.openReadFails && target !in oracle.decodeFails
    requires Applied(LoadSpec(SaveSpec(st, oracle, target, settings).1.files, oracle, target).1, settings, after)
    ensures after == settings
  {
    SaveThenLoad(st, oracle, target, settings);
    OverlaySelf(settings);
  }

  class FiberUnit {
    /** The service's path components, as `Paths.get(first, *rest)` built them. */
    const path: Path
    const tree: ConfigTree

    predicate Valid()
    {
      |path| >= 1
    }

    constructor (path: Path, tree: ConfigTree)
      requires |path| >= 1
      ensures Valid() && this.path == path && this.tree == tree
    {
      this.path, this.tree := path, tree;
    }

    /** `getRelativePath(root)`: the unit's file under the root, with the `.json5` extension. */
    function RelativeTo(root: Path): (p: Path)
      requires Valid()
      ensures |p| >= 1
    {
      root + FileName(path)
    }

    /**
     * `save`: create the directories, open the file with CREATE and
     * TRUNCATE_EXISTING, serialise; only a serialisation failure is caught.
     */
    method Save(root: Path, disk: Disk) returns (out: Outcome)
      requires Valid()
      modifies disk
      ensures (out, disk.State()) == SaveSpec(old(disk.State()), disk.oracle, RelativeTo(root), tree.settings)
    {
      var target := RelativeTo(root);
      ghost var before := disk.State();
      out := disk.CreateDirectories(Parent(target));
      if out.Threw? {
        return;
      }
      assert Parent(target) in disk.dirs;
      out := disk.OpenForWrite(target);
      if out.Threw? {
        return;
      }
      var r := disk.Serialize(tree, target);
      out := if r.Threw? then Logged(r.thrown) else Normal;
      assert disk.State() == SaveSpec(before, disk.oracle, target, tree.settings).1;
      assert out == SaveSpec(before, disk.oracle, target, tree.settings).0;
    }

    /**
     * `load`: nothing to do when the file is missing; otherwise open it and
     * deserialise into the tree; only a deserialisation failure is caught.
     */
    method Load(root: Path, disk: Disk) returns (out: Outcome)
      requires Valid()
      modifies tree
      ensures out == LoadSpec(disk.files, disk.oracle, RelativeTo(root)).0
      ensures Applied(LoadSpec(disk.files, disk.oracle, RelativeTo(root)).1, old(tree.settings), tree.settings)
    {
      var target := RelativeTo(root);
      var present := disk.Exists(target);
      if !present {
        return Normal;
      }
      out := disk.OpenForRead(target);
      if out.Threw? {
        return;
      }
      var r := disk.Deserialize(tree, target);
      out := if r.Threw? then Logged(r.thrown) else Normal;
    }
  }
}
