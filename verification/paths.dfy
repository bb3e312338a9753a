/**
 * Derivation of a service's configuration file from its dotted name
 * (`FiberControllerImpl.register` and `FiberUnit.getRelativePath`).
 *
 * A path is the list of its name components. The name is split on `.`,
 * every segment becomes one component in order, and the last one gets the
 * `.json5` extension; the result is resolved under the root directory.
 */
module ServicePaths {
  import opened Wrappers

  /** A file-system path as the list of its name components. */
  type Path = seq<string>

  const Extension: string := ".json5"

  /** The directory a path lives in: every component but the last. */
  function Parent(p: Path): (d: Path)
    requires |p| >= 1
    ensures |d| == |p| - 1 && d == p[..|d|]
  {
    p[..|p| - 1]
  }

  /** Kotlin's `split(".")`: the pieces between dots, empty pieces included. */
  function Split(s: string): (parts: seq<string>)
    ensures |parts| >= 1
    ensures forall i :: 0 <= i < |parts| ==> '.' !in parts[i]
  {
    if s == [] then [[]]
    else
      var rest := Split(s[1..]);
      if s[0] == '.' then [[]] + rest
      else [[s[0]] + rest[0]] + rest[1..]
  }

  /** Joins segments with `.` between them; the reference definition Split inverts. */
  function Join(parts: seq<string>): string
    requires |parts| >= 1
  {
    if |parts| == 1 then parts[0] else parts[0] + "." + Join(parts[1..])
  }

  /** Splitting and re-joining gives back the name. */
  lemma {:induction false} JoinSplit(s: string)
    ensures Join(Split(s)) == s
  {
    if s != [] {
      var rest := Split(s[1..]);
      JoinSplit(s[1..]);
      if s[0] != '.' && |rest| > 1 {
        assert Join(rest) == rest[0] + "." + Join(rest[1..]);
        assert [s[0]] + rest[0] + "." + Join(rest[1..]) == [s[0]] + Join(rest);
      }
      assert s == [s[0]] + s[1..];
    }
  }

  /** A dot before a suffix separates the segments of the two sides. */
  lemma {:induction false} SplitConcat(a: string, b: string)
    ensures Split(a + "." + b) == Split(a) + Split(b)
  {
    if a == [] {
      assert a + "." + b == "." + b;
      assert ("." + b)[1..] == b;
    } else {
      var s := a + "." + b;
      assert s[0] == a[0] && s[1..] == a[1..] + "." + b;
      SplitConcat(a[1..], b);
    }
  }

  /** A dot-free string is one segment. */
  lemma {:induction false} SplitDotFree(a: string)
    requires '.' !in a
    ensures Split(a) == [a]
  {
    if a != [] {
      assert a[0] in a;
      assert forall c :: c in a[1..] ==> c in a;
      SplitDotFree(a[1..]);
      assert a == [a[0]] + a[1..];
    }
  }

  /** Joining dot-free segments and splitting again gives back the segments. */
  lemma {:induction false} SplitJoin(parts: seq<string>)
    requires |parts| >= 1
    requires forall i :: 0 <= i < |parts| ==> '.' !in parts[i]
    ensures Split(Join(parts)) == parts
  {
    SplitDotFree(parts[0]);
    if |parts| > 1 {
      SplitJoin(parts[1..]);
      SplitConcat(parts[0], Join(parts[1..]));
      assert parts == [parts[0]] + parts[1..];
    }
  }

  /** There is one segment more than there are dots in the name. */
  lemma {:induction false} SegmentCount(s: string)
    ensures |Split(s)| == multiset(s)['.'] + 1
  {
    if s != [] {
      SegmentCount(s[1..]);
      assert s == [s[0]] + s[1..];
      assert multiset(s) == multiset{s[0]} + multiset(s[1..]);
    }
  }

  /**
   * The components `Paths.get(first, *rest)` is called with: the first
   * segment is taken off the list and put back in front of the others.
   */
  function Components(name: string): (c: Path)
    ensures c == Split(name)
  {
    var parts := Split(name);
    var first := parts[0];
    [first] + parts[1..]
  }

  /** `resolveSibling("${fileName}.json5")`: the last component gets the extension. */
  function FileName(c: Path): (f: Path)
    requires |c| >= 1
    ensures |f| == |c|
    ensures f[|f| - 1] == c[|c| - 1] + Extension
  {
    c[..|c| - 1] + [c[|c| - 1] + Extension]
  }

  /** The service's file relative to the root: its segments, the last with `.json5`. */
  function RelativePath(name: string): (p: Path)
    ensures |p| >= 1
  {
    FileName(Components(name))
  }

  /** `root.resolve(...)`: the service's file under the root directory. */
  function Target(root: Path, name: string): (p: Path)
    ensures |p| == |root| + |RelativePath(name)| && p[..|root|] == root
  {
    root + RelativePath(name)
  }

  /** Does `s` end with the file extension? */
  predicate HasExtension(s: string)
  {
    |s| >= |Extension| && s[|s| - |Extension|..] == Extension
  }

  /** The inverse of RelativePath: the service a relative file belongs to, if any. */
  function ServiceOf(p: Path): Option<string>
  {
    if |p| >= 1 && HasExtension(p[|p| - 1]) then
      var last := p[|p| - 1];
      Some(Join(p[..|p| - 1] + [last[..|last| - |Extension|]]))
    else None
  }

  /**
   * The shape of a service's file: as many components as segments, every
   * segment but the last kept as it is and in order, the last one followed
   * by `.json5`.
   */
  lemma RelativePathShape(name: string)
    ensures |RelativePath(name)| == |Split(name)| == multiset(name)['.'] + 1
    ensures forall i :: 0 <= i < |Split(name)| - 1 ==> RelativePath(name)[i] == Split(name)[i]
    ensures RelativePath(name)[|Split(name)| - 1] == Split(name)[|Split(name)| - 1] + Extension
  {
    SegmentCount(name);
  }

  /** Taking the extension off the last component undoes FileName. */
  lemma ServiceOfFileName(c: Path)
    requires |c| >= 1
    ensures ServiceOf(FileName(c)) == Some(Join(c))
  {
    var n := |c|;
    var last := c[n - 1] + Extension;
    var p := FileName(c);
    assert p == c[..n - 1] + [last];
    assert p[n - 1] == last && p[..n - 1] == c[..n - 1];
    assert HasExtension(last) by {
      assert last[|last| - |Extension|..] == Extension;
    }
    assert last[..|last| - |Extension|] == c[n - 1];
    assert c[..n - 1] + [c[n - 1]] == c by {
      DropLast(c);
    }
  }

  /** A non-empty sequence is its front followed by its last element. */
  lemma DropLast(c: Path)
    requires |c| >= 1
    ensures c[..|c| - 1] + [c[|c| - 1]] == c
  {
  }

  /** FileName only touches the last component, so it commutes with adding leading ones. */
  lemma FileNamePrefix(pre: Path, c: Path)
    requires |c| >= 1
    ensures FileName(pre + c) == pre + FileName(c)
  {
    var n := |c|;
    assert (pre + c)[..|pre| + n - 1] == pre + c[..n - 1];
    assert (pre + c)[|pre| + n - 1] == c[n - 1];
  }

  /** The service a file belongs to is recovered from its relative path. */
  lemma ServiceOfRelativePath(name: string)
    ensures ServiceOf(RelativePath(name)) == Some(name)
  {
    ServiceOfFileName(Components(name));
    JoinSplit(name);
  }

  /** Within the model's paths, which keep every segment as a component, the path determines the name. */
  lemma TargetInjective(root: Path, a: string, b: string)
    requires Target(root, a) == Target(root, b)
    ensures a == b
  {
    var pa, pb := RelativePath(a), RelativePath(b);
    assert pa == Target(root, a)[|root|..];
    assert pb == Target(root, b)[|root|..];
    ServiceOfRelativePath(a);
    ServiceOfRelativePath(b);
  }
}
