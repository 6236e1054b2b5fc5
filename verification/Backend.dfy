/** The directory tree under the original path, as far as the hooked operations can see and change it. */
module Backend {
  import opened Paths
  import opened InodeMap

  datatype Obj = Obj(ino: Ino, isDir: bool)
  type Tree = map<Path, Obj>

  predicate Below(p: Path, dir: Path) {
    Under(p, dir) && p != dir
  }

  function Parent(p: Path): Path
    requires p != []
  {
    p[..|p| - 1]
  }

  /** Every object but the top one lies in a directory of the tree. */
  ghost predicate WellFormed(b: Tree, top: Path) {
    && top in b && b[top].isDir
    && forall p :: p in b && p != top ==> Below(p, top) && Parent(p) in b && b[Parent(p)].isDir
  }

  predicate IsDirectory(b: Tree, p: Path) {
    p in b && b[p].isDir
  }

  predicate IsEmpty(b: Tree, p: Path) {
    forall q :: q in b ==> !Below(q, p)
  }

  // ----- what the kernel allows, and what it then does -----

  predicate CanAdd(b: Tree, p: Path) {
    p != [] && p !in b && IsDirectory(b, Parent(p))
  }

  /** The two names of one file: such a rename succeeds and does nothing. */
  predicate SameFile(b: Tree, from: Path, to: Path) {
    from in b && to in b && b[from].ino == b[to].ino
  }

  predicate CanRename(b: Tree, from: Path, to: Path) {
    && from in b && to != [] && IsDirectory(b, Parent(to)) && !Below(to, from)
    && (to in b && !SameFile(b, from, to) ==>
          if b[to].isDir then b[from].isDir && IsEmpty(b, to) else !b[from].isDir)
  }

  function Moved(p: Path, from: Path, to: Path): Path
    requires Under(p, from)
  {
    to + p[|from|..]
  }

  /** A directory takes everything below it along. */
  function Renamed(b: Tree, from: Path, to: Path): Tree {
    if SameFile(b, from, to) then b
    else
      (map p | p in b && !Under(p, from) && p != to :: b[p]) +
      (map q | q in (set p | p in b && Under(p, from) :: Moved(p, from, to)) && Moved(q, to, from) in b
         :: b[Moved(q, to, from)])
  }

  // ----- the tree stays well formed -----

  lemma MovedBack(p: Path, from: Path, to: Path)
    requires Under(p, from)
    ensures Under(Moved(p, from, to), to) && Moved(Moved(p, from, to), to, from) == p
  {
    assert Moved(p, from, to)[|to|..] == p[|from|..];
    assert from + p[|from|..] == p;
  }

  /** What a rename leaves where. */
  lemma RenamedAt(b: Tree, from: Path, to: Path, q: Path)
    requires !SameFile(b, from, to)
    ensures Under(q, to) && Moved(q, to, from) in b ==>
      q in Renamed(b, from, to) && Renamed(b, from, to)[q] == b[Moved(q, to, from)]
    ensures !(Under(q, to) && Moved(q, to, from) in b) ==>
      (q in Renamed(b, from, to) <==> q in b && !Under(q, from) && q != to)
    ensures !(Under(q, to) && Moved(q, to, from) in b) && q in Renamed(b, from, to) ==> Renamed(b, from, to)[q] == b[q]
  {
    if Under(q, to) {
      var p := Moved(q, to, from);
      MovedBack(q, to, from);
      assert Moved(p, from, to) == q;
    }
  }

  lemma {:induction false} AncestorIsDirectory(b: Tree, top: Path, p: Path, dir: Path)
    requires WellFormed(b, top) && p in b && Below(p, dir) && Under(dir, top)
    ensures IsDirectory(b, dir)
    decreases |p|
  {
    assert p != top;
    if Parent(p) != dir {
      assert dir == p[..|dir|] == Parent(p)[..|dir|];
      AncestorIsDirectory(b, top, Parent(p), dir);
    }
  }

  /** What a rename replaces has nothing below it. */
  lemma TargetIsEmpty(b: Tree, top: Path, from: Path, to: Path)
    requires WellFormed(b, top) && CanRename(b, from, to) && !SameFile(b, from, to) && Under(to, top)
    ensures IsEmpty(b, to)
  {
    forall q | q in b ensures !Below(q, to) {
      if Below(q, to) {
        AncestorIsDirectory(b, top, q, to);
      }
    }
  }

  lemma AddKeepsTree(b: Tree, top: Path, p: Path, o: Obj)
    requires WellFormed(b, top) && CanAdd(b, p) && Below(p, top)
    ensures WellFormed(b[p := o], top)
  {
  }

  lemma RemoveKeepsTree(b: Tree, top: Path, p: Path)
    requires WellFormed(b, top) && p in b && p != top && (b[p].isDir ==> IsEmpty(b, p))
    ensures WellFormed(b - {p}, top)
  {
    forall q | q in b && q != top && q != p ensures Parent(q) != p {
      assert Parent(q) == p ==> Below(q, p);
    }
  }

  lemma RenameKeepsTree(b: Tree, top: Path, from: Path, to: Path)
    requires WellFormed(b, top) && CanRename(b, from, to) && Below(from, top) && Below(to, top)
    ensures WellFormed(Renamed(b, from, to), top)
  {
    var b' := Renamed(b, from, to);
    if !SameFile(b, from, to) {
      RenamedAt(b, from, to, top);
      forall q | q in b' && q != top
        ensures Below(q, top) && Parent(q) in b' && b'[Parent(q)].isDir
      {
        MovedObject(b, top, from, to, q);
      }
    }
  }

  lemma MovedObject(b: Tree, top: Path, from: Path, to: Path, q: Path)
    requires WellFormed(b, top) && CanRename(b, from, to) && Below(from, top) && Below(to, top)
    requires !SameFile(b, from, to) && q in Renamed(b, from, to) && q != top
    ensures var b' := Renamed(b, from, to);
      Below(q, top) && Parent(q) in b' && b'[Parent(q)].isDir
  {
    hide Renamed, CanRename;
    RenamedAt(b, from, to, q);
    if Under(q, to) && Moved(q, to, from) in b {
      ArrivedObject(b, top, from, to, q);
    } else {
      TargetIsEmpty(b, top, from, to);
      KeptChild(b, from, to, q);
      RenamedAt(b, from, to, Parent(q));
    }
  }

  lemma ArrivedObject(b: Tree, top: Path, from: Path, to: Path, q: Path)
    requires WellFormed(b, top) && CanRename(b, from, to) && Below(from, top) && Below(to, top)
    requires !SameFile(b, from, to) && Under(q, to) && Moved(q, to, from) in b
    ensures var b' := Renamed(b, from, to);
      q in b' && Below(q, top) && Parent(q) in b' && b'[Parent(q)].isDir
  {
    hide Renamed;
    var p := Moved(q, to, from);
    assert Below(q, top) && p != top;
    RenamedAt(b, from, to, q);
    RenamedAt(b, from, to, Parent(q));
    if q == to {
      KeptParent(b, from, to);
    } else {
      assert Under(Parent(q), to);
      assert Moved(Parent(q), to, from) == Parent(p);
    }
  }

  lemma ChildBelow(p: Path, dir: Path)
    requires p != []
    ensures Under(Parent(p), dir) ==> Below(p, dir)
  {
    if Under(Parent(p), dir) {
      assert p[..|dir|] == Parent(p)[..|dir|];
    }
  }

  /** The directory that receives the renamed object is not itself moved. */
  lemma KeptParent(b: Tree, from: Path, to: Path)
    requires CanRename(b, from, to)
    ensures !Under(Parent(to), from) && !Under(Parent(to), to)
  {
    ChildBelow(to, from);
  }

  /** What stays where it is keeps its directory. */
  lemma KeptChild(b: Tree, from: Path, to: Path, q: Path)
    requires q != [] && q in b && !Under(q, from) && q != to && IsEmpty(b, to)
    ensures !Under(Parent(q), from) && !Under(Parent(q), to)
  {
    ChildBelow(q, from);
    ChildBelow(q, to);
  }
}
