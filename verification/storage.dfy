/**
 * The environment the configuration units work against: the configuration
 * trees they bind, and the disk they read and write.
 *
 * The disk is a map from path to file content, a set of directories, and a
 * failure oracle that says, per path, which of the steps `createDirectories`,
 * `outputStream`, `inputStream`, `serialize` and `deserialize` throw. The
 * codec is abstract: a complete serialisation carries the settings it was
 * written from.
 */
module Storage {
  import opened ServicePaths

  /** What a configuration tree holds; the tree's own structure is not part of this model. */
  type Settings = map<string, string>

  /** An externally owned, mutable configuration tree, known to the registry only by reference. */
  class ConfigTree {
    var settings: Settings

    constructor (initial: Settings)
      ensures settings == initial
    {
      settings := initial;
    }
  }

  /**
   * Deserialising a file into a tree sets every setting the tree has and the
   * file holds to the file's value; the tree's other settings keep their
   * values, and entries the tree does not have are ignored.
   */
  function Overlay(tree: Settings, file: Settings): (r: Settings)
    ensures r.Keys == tree.Keys
  {
    map k | k in tree :: if k in file then file[k] else tree[k]
  }

  /** Overlaying a tree's own settings on it changes nothing. */
  lemma OverlaySelf(s: Settings)
    ensures Overlay(s, s) == s
  {
    forall k | k in s ensures Overlay(s, s)[k] == s[k] {
    }
  }

  /** Overlaying the same file twice is overlaying it once. */
  lemma OverlayIdempotent(tree: Settings, file: Settings)
    ensures Overlay(Overlay(tree, file), file) == Overlay(tree, file)
  {
    var once := Overlay(tree, file);
    forall k | k in once ensures Overlay(once, file)[k] == once[k] {
    }
  }

  /** The content of a file: freshly truncated, a complete serialisation, or what a failed serialisation left. */
  datatype Content = Empty | Serialized(settings: Settings) | Partial

  /** The exceptions of the core: `RuntimeFiberException`, `NoSuchElementException`, I/O and codec errors. */
  datatype Failure = DuplicateService | NoSuchElement | StorageFailure | CodecFailure

  /**
   * How a call ended: it returned normally, it returned normally after
   * catching and printing a failure, or it threw.
   */
  datatype Outcome = Normal | Logged(caught: Failure) | Threw(thrown: Failure)

  /** Which storage and codec steps throw, by the path they work on. */
  datatype Oracle = Oracle(
    mkdirsFails: set<Path>,
    openWriteFails: set<Path>,
    openReadFails: set<Path>,
    encodeFails: set<Path>,
    decodeFails: set<Path>)

  /** The disk as a value: files with their content, and the directories. */
  datatype DiskState = DiskState(files: map<Path, Content>, dirs: set<Path>)

  /** A directory and every directory above it, as `createDirectories` makes them. */
  function Ancestors(dir: Path): (r: set<Path>)
    ensures dir in r
    ensures forall q :: q in r ==> |q| <= |dir| && q == dir[..|q|]
    ensures forall k :: 0 <= k <= |dir| ==> dir[..k] in r
  {
    assert dir == dir[..|dir|];
    set k | 0 <= k <= |dir| :: dir[..k]
  }

  class Disk {
    var files: map<Path, Content>
    var dirs: set<Path>
    const oracle: Oracle

    function State(): DiskState
      reads this
    {
      DiskState(files, dirs)
    }

    constructor (files: map<Path, Content>, dirs: set<Path>, oracle: Oracle)
      ensures State() == DiskState(files, dirs) && this.oracle == oracle
    {
      this.files, this.dirs, this.oracle := files, dirs, oracle;
    }

    /** `Path.createDirectories()`: makes the directory and its ancestors, or throws. */
    method CreateDirectories(dir: Path) returns (out: Outcome)
      modifies this
      ensures out == if dir in oracle.mkdirsFails then Threw(StorageFailure) else Normal
      ensures files == old(files)
      ensures dirs == if out.Normal? then old(dirs) + Ancestors(dir) else old(dirs)
    {
      if dir in oracle.mkdirsFails {
        return Threw(StorageFailure);
      }
      dirs := dirs + Ancestors(dir);
      out := Normal;
    }

    /**
     * `outputStream(CREATE, TRUNCATE_EXISTING)`: the file is created or
     * emptied; it throws when the oracle says so or the directory is missing.
     */
    method OpenForWrite(p: Path) returns (out: Outcome)
      requires |p| >= 1
      modifies this
      ensures out == if p in oracle.openWriteFails || Parent(p) !in old(dirs) then Threw(StorageFailure) else Normal
      ensures dirs == old(dirs)
      ensures files == if out.Normal? then old(files)[p := Empty] else old(files)
    {
      if p in oracle.openWriteFails || Parent(p) !in dirs {
        return Threw(StorageFailure);
      }
      files := files[p := Empty];
      out := Normal;
    }

    /** `FiberSerialization.serialize` into the open file: the whole tree, or a partial write and a throw. */
    method Serialize(tree: ConfigTree, p: Path) returns (out: Outcome)
      requires p in files
      modifies this
      ensures out == if p in oracle.encodeFails then Threw(CodecFailure) else Normal
      ensures dirs == old(dirs)
      ensures files == old(files)[p := if out.Normal? then Serialized(tree.settings) else Partial]
    {
      if p in oracle.encodeFails {
        files := files[p := Partial];
        return Threw(CodecFailure);
      }
      files := files[p := Serialized(tree.settings)];
      out := Normal;
    }

    /** `Path.exists()`. */
    method Exists(p: Path) returns (b: bool)
      ensures b <==> p in files
    {
      b := p in files;
    }

    /** `inputStream()`: throws for a missing file or when the oracle says so. */
    method OpenForRead(p: Path) returns (out: Outcome)
      ensures out == if p !in files || p in oracle.openReadFails then Threw(StorageFailure) else Normal
    {
      if p !in files || p in oracle.openReadFails {
        return Threw(StorageFailure);
      }
      out := Normal;
    }

    /**
     * `FiberSerialization.deserialize` from the open file into the tree: a
     * complete serialisation is overlaid on the settings; anything else throws and
     * may leave the tree partially updated.
     */
    method Deserialize(tree: ConfigTree, p: Path) returns (out: Outcome)
      requires p in files
      modifies tree
      ensures out.Normal? <==> files[p].Serialized? && p !in oracle.decodeFails
      ensures !out.Normal? ==> out == Threw(CodecFailure)
      ensures out.Normal? ==> tree.settings == Overlay(old(tree.settings), files[p].settings)
    {
      var content := files[p];
      if content.Serialized? && p !in oracle.decodeFails {
        tree.settings := Overlay(tree.settings, content.settings);
        out := Normal;
      } else {
        tree.settings := *;
        out := Threw(CodecFailure);
      }
    }
  }
}
