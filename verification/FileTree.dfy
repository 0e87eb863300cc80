/** The directory tree behind the filesystem backend, and the deletion of a subtree. */
module FileTree {
  /** A location as its components, from the storage root. */
  type Path = seq<string>

  function Parent(p: Path): Path {
    if p == [] then [] else p[..|p| - 1]
  }

  newtype byte = x: int | 0 <= x < 256

  type Bytes = seq<byte>

  /** Character order of str. */
  predicate StringLess(a: string, b: string) {
    if b == "" then false
    else if a == "" then true
    else if a[0] == b[0] then StringLess(a[1..], b[1..])
    else a[0] < b[0]
  }

  /** Component order of pathlib paths, which is what sorted() uses. */
  predicate PathLess(a: Path, b: Path) {
    if b == [] then false
    else if a == [] then true
    else if a[0] == b[0] then PathLess(a[1..], b[1..])
    else StringLess(a[0], b[0])
  }

  lemma {:induction false} StringLessAsymmetric(a: string, b: string)
    ensures !(StringLess(a, b) && StringLess(b, a))
  {
    if a != "" && b != "" && a[0] == b[0] {
      StringLessAsymmetric(a[1..], b[1..]);
    }
  }

  lemma {:induction false} PathLessAsymmetric(a: Path, b: Path)
    ensures !(PathLess(a, b) && PathLess(b, a))
  {
    if a != [] && b != [] {
      if a[0] == b[0] {
        PathLessAsymmetric(a[1..], b[1..]);
      } else {
        StringLessAsymmetric(a[0], b[0]);
      }
    }
  }

  lemma {:induction false} PrefixIsLess(a: Path, b: Path)
    requires a < b
    ensures PathLess(a, b)
  {
    if a != [] {
      assert a[0] == b[0] && a[1..] < b[1..];
      PrefixIsLess(a[1..], b[1..]);
    }
  }

  ghost predicate Descending(order: seq<Path>) {
    forall i, j {:trigger order[i], order[j]} :: 0 <= i < j < |order| ==> PathLess(order[j], order[i])
  }

  lemma {:induction false} StringLessTotal(a: string, b: string)
    requires a != b
    ensures StringLess(a, b) || StringLess(b, a)
  {
    if a != "" && b != "" && a[0] == b[0] {
      assert a == [a[0]] + a[1..] && b == [b[0]] + b[1..];
      StringLessTotal(a[1..], b[1..]);
    }
  }

  lemma {:induction false} PathLessTotal(a: Path, b: Path)
    requires a != b
    ensures PathLess(a, b) || PathLess(b, a)
  {
    if a != [] && b != [] {
      if a[0] == b[0] {
        assert a == [a[0]] + a[1..] && b == [b[0]] + b[1..];
        PathLessTotal(a[1..], b[1..]);
      } else {
        StringLessTotal(a[0], b[0]);
      }
    }
  }

  lemma {:induction false} StringLessTransitive(a: string, b: string, c: string)
    requires StringLess(a, b) && StringLess(b, c)
    ensures StringLess(a, c)
  {
    if a != "" && a[0] == b[0] == c[0] {
      StringLessTransitive(a[1..], b[1..], c[1..]);
    }
  }

  lemma {:induction false} PathLessTransitive(a: Path, b: Path, c: Path)
    requires PathLess(a, b) && PathLess(b, c)
    ensures PathLess(a, c)
  {
    if a != [] {
      if a[0] == b[0] == c[0] {
        PathLessTransitive(a[1..], b[1..], c[1..]);
      } else if a[0] != b[0] && b[0] != c[0] {
        StringLessTransitive(a[0], b[0], c[0]);
        if a[0] == c[0] {
          StringLessAsymmetric(a[0], b[0]);
        }
      }
    }
  }

  /** Puts a path into its place of a descending listing. */
  method Insert(order: seq<Path>, p: Path) returns (longer: seq<Path>)
    requires Descending(order) && p !in order
    ensures Descending(longer)
    ensures forall q {:trigger q in longer} :: q in longer <==> q in order || q == p
  {
    var i := 0;
    while i < |order| && PathLess(p, order[i])
      invariant 0 <= i <= |order|
      invariant forall j :: 0 <= j < i ==> PathLess(p, order[j])
    {
      i := i + 1;
    }
    forall j | i <= j < |order|
      ensures PathLess(order[j], p)
    {
      PathLessTotal(order[i], p);
      if i < j {
        PathLessTransitive(order[j], order[i], p);
      }
    }
    longer := order[..i] + [p] + order[i..];
    forall q
      ensures q in longer <==> q in order || q == p
    {
      assert order == order[..i] + order[i..];
    }
  }

  /** In descending order everything inside a directory comes before the directory. */
  lemma InsideComesFirst(order: seq<Path>, i: nat, inside: Path)
    requires Descending(order) && i < |order| && order[i] < inside && inside in order
    ensures inside in order[..i]
  {
    var j :| 0 <= j < |order| && order[j] == inside;
    PrefixIsLess(order[i], inside);
    PathLessAsymmetric(order[i], inside);
    assert j < i;
    assert order[..i][j] == inside;
  }

  /** The files that deleting the tree at target leaves. A target that is a plain file is not deleted. */
  function Cleared(files: map<Path, Bytes>, target: Path): map<Path, Bytes> {
    if target in files then files else map p | p in files && !(target <= p) :: files[p]
  }

  class Disk {
    var files: map<Path, Bytes>
    var dirs: set<Path>

    constructor ()
      ensures WellFormed() && files == map[] && dirs == {}
    {
      files, dirs := map[], {};
    }

    predicate Exists(p: Path)
      reads this
    {
      p in files || p in dirs
    }

    predicate Holds(p: Path)
      reads this
    {
      (exists q :: q in files && p < q) || (exists q :: q in dirs && p < q)
    }

    /** Every entry sits in a chain of directories, and nothing is both file and directory. */
    ghost predicate WellFormed()
      reads this
    {
      && files.Keys !! dirs
      && [] !in dirs && [] !in files
      && forall p, n {:trigger p[..n]} :: Exists(p) && 0 < n < |p| ==> p[..n] in dirs
    }

    /** What sorted(target.rglob('*'), reverse=True) returns. */
    ghost predicate ListsTree(order: seq<Path>, target: Path)
      reads this
    {
      Descending(order) && forall p {:trigger p in order} :: p in order <==> Exists(p) && target < p
    }

    /** No directory from here on down is empty. */
    ghost predicate NoneEmpty(target: Path)
      reads this
    {
      forall d {:trigger d in dirs} :: d in dirs && target <= d ==> exists q :: q in files && d < q
    }

    /** sorted(target.rglob('*'), reverse=True) */
    method SortedTree(target: Path) returns (order: seq<Path>)
      ensures ListsTree(order, target)
    {
      var rest := (set p | p in files && target < p) + (set p | p in dirs && target < p);
      ghost var all := rest;
      order := [];
      while rest != {}
        invariant Descending(order) && rest <= all
        invariant forall p {:trigger p in order} :: p in order <==> p in all && p !in rest
        decreases rest
      {
        var p :| p in rest;
        order := Insert(order, p);
        rest := rest - {p};
      }
    }

    /** rmdir refuses a directory that still holds something. */
    method RemoveDir(p: Path)
      requires p in dirs
      requires forall q {:trigger Exists(q)} :: Exists(q) ==> !(p < q)
      modifies this`dirs
      ensures dirs == old(dirs) - {p}
    {
      dirs := dirs - {p};
    }

    lemma OnlyDirectoriesHold(target: Path, p: Path)
      requires WellFormed() && target != [] && Exists(p) && target !in dirs
      ensures !(target < p) && (target <= p ==> target == p)
    {
      if |target| < |p| {
        var head := p[..|target|];
        assert head in dirs;
        assert target < p ==> head == target;
      }
    }

    lemma FileHoldsNothing(target: Path, order: seq<Path>)
      requires WellFormed() && target in files && ListsTree(order, target)
      ensures order == []
    {
      if order != [] {
        var p := order[0];
        assert p in order;
        OnlyDirectoriesHold(target, p);
      }
    }

    /** Unlinks and removes the listed entries; every directory is empty by the time it is removed. */
    method RemoveEntries(order: seq<Path>, target: Path)
      requires WellFormed() && ListsTree(order, target)
      modifies this
      ensures files == map p | p in old(files) && p !in order :: old(files)[p]
      ensures dirs == set p | p in old(dirs) && p !in order
    {
      var i := 0;
      while i < |order|
        invariant 0 <= i <= |order|
        invariant files == map p | p in old(files) && p !in order[..i] :: old(files)[p]
        invariant dirs == set p | p in old(dirs) && p !in order[..i]
      {
        var path := order[i];
        assert path in order;
        assert order[..i + 1] == order[..i] + [path];
        if path in files {
          files := files - {path};
        } else if path in dirs {
          forall q | Exists(q)
            ensures !(path < q)
          {
            if path < q {
              assert q in order;
              InsideComesFirst(order, i, q);
            }
          }
          RemoveDir(path);
        }
        i := i + 1;
      }
      assert order[..i] == order;
    }

    /** Deletes everything at and under target, unless target is a plain file. */
    method DeleteTree(target: Path)
      requires WellFormed() && target != []
      modifies this
      ensures WellFormed()
      ensures files == Cleared(old(files), target)
      ensures dirs == if target in old(files) then old(dirs) else set p | p in old(dirs) && !(target <= p)
    {
      if !Exists(target) {
        forall p | p in files || p in dirs
          ensures !(target <= p)
        {
          OnlyDirectoriesHold(target, p);
        }
        return;
      }
      var order := SortedTree(target);
      if target in files {
        FileHoldsNothing(target, order);
      }
      assert forall p {:trigger p in order} | Exists(p) :: p in order <==> target < p;
      RemoveEntries(order, target);
      if target in dirs {
        RemoveDir(target);
      }
      forall p | p in old(files) || p in old(dirs)
        ensures target !in old(files) ==> (Exists(p) <==> !(target <= p))
      {
        if p == target {
          assert target <= p;
        }
      }
      assert files == Cleared(old(files), target);
      forall p, n | Exists(p) && 0 < n < |p|
        ensures p[..n] in dirs
      {
        assert p[..n] in old(dirs);
      }
    }

    /** Deletes a file or an empty directory; a directory that holds something is refused. */
    method Delete(p: Path) returns (ok: bool)
      requires WellFormed() && Exists(p)
      modifies this
      ensures WellFormed()
      ensures ok == !old(Holds(p))
      ensures files == if ok then old(files) - {p} else old(files)
      ensures dirs == if ok then old(dirs) - {p} else old(dirs)
    {
      if p in files {
        FileIsALeaf(p);
        files := files - {p};
        return true;
      }
      if Holds(p) {
        return false;
      }
      dirs := dirs - {p};
      ok := true;
      forall q, n | Exists(q) && 0 < n < |q|
        ensures q[..n] in dirs
      {
        assert old(dirs) == dirs + {p};
        assert q[..n] in old(dirs) && q[..n] < q;
      }
    }

    lemma FileIsALeaf(p: Path)
      requires WellFormed() && p in files
      ensures !Holds(p)
    {
      forall q | q in files || q in dirs
        ensures !(p < q)
      {
        OnlyDirectoriesHold(p, q);
      }
    }

    lemma DirectoryHolds(home: Path, p: Path)
      requires WellFormed() && NoneEmpty(home) && home <= p && p != []
      ensures p in dirs <==> exists q :: q in files && p < q
    {
      forall q | q in files && p < q
        ensures p in dirs
      {
        if p !in dirs {
          OnlyDirectoriesHold(p, q);
        }
      }
    }

    lemma BelowDirectories(p: Path, q: Path)
      requires WellFormed() && Exists(p) && q < p && q != []
      ensures q in dirs && q !in files
    {
      assert p[..|q|] == q;
    }

    /** Stores a new file and creates the directories above it, unless one of them is a file. */
    method Save(p: Path, content: Bytes) returns (ok: bool)
      requires WellFormed() && p != [] && !Exists(p)
      modifies this
      ensures WellFormed()
      ensures ok == !exists q :: q in old(files) && q < p
      ensures files == if ok then old(files)[p := content] else old(files)
      ensures dirs == if ok then old(dirs) + (set n | 0 < n < |p| :: p[..n]) else old(dirs)
    {
      if exists q :: q in files && q < p {
        return false;
      }
      files := files[p := content];
      dirs := dirs + (set n | 0 < n < |p| :: p[..n]);
      ok := true;
      forall q, n | Exists(q) && 0 < n < |q|
        ensures q[..n] in dirs
      {
        if q !in old(files) && q !in old(dirs) {
          assert q[..n] == p[..n];
        }
      }
    }
  }
}
