/**
  src/hookfs/mod.rs: the operations that create, find, move and remove names, on the backend tree and on
  the cached paths. Each holds the table's lock from its first to its last access, so it is one step.
 */
module HookFs {
  import opened Wrappers
  import opened Paths
  import opened InodeMap
  import opened Backend

  /** `top` is `original_path`; `handles` holds the paths recorded in the file and directory handles. */
  datatype State = State(top: Path, nodes: Nodes, tree: Tree, handles: multiset<Path>)

  /**
    A creation, a link or a rename may be refused, or change the tree and then fail before it reaches the
    cache: setting the owner, or asking for the attributes of the new path, is a call of its own.
   */
  datatype Outcome = Refused | Uncached | Done

  /** `ok` and `outcome` are what the injector and the kernel decide beyond what the tree decides. */
  datatype Event =
    | Lookup(parent: Ino, name: Comp, ok: bool)
    | Make(parent: Ino, name: Comp, obj: Obj, outcome: Outcome)
    | Create(parent: Ino, name: Comp, ino: Ino, outcome: Outcome)
    | Link(ino: Ino, newparent: Ino, newname: Comp, outcome: Outcome)
    | Unlink(parent: Ino, name: Comp, ok: bool)
    | Rmdir(parent: Ino, name: Comp, ok: bool)
    | Rename(parent: Ino, name: Comp, newparent: Ino, newname: Comp, outcome: Outcome)
    | Forget(ino: Ino, nlookup: nat)
    | Open(ino: Ino, ok: bool)
    | Release(path: Path)
    // somebody else changes the backend; around an operation this is also what an injected number amounts to
    | Outside(tree: Tree)

  function Child(nodes: Nodes, parent: Ino, name: Comp): Option<Path> {
    match GetPath(nodes, parent)
    case Some(p) => Some(p + [name])
    case None => None
  }

  // ----- the operations as values -----

  /** `insert_path` and `increase_ref` with the number the backend gives for the path. */
  function Cached(s: State, p: Path): State
    requires p in s.tree
  {
    var i := s.tree[p].ino;
    s.(nodes := Referenced(WithPath(s.nodes, i, p), i))
  }

  function AfterLookup(s: State, parent: Ino, name: Comp, ok: bool): State {
    match Child(s.nodes, parent, name)
    case None => s
    case Some(p) => if ok && p in s.tree then Cached(s, p) else s
  }

  function AfterMake(s: State, parent: Ino, name: Comp, obj: Obj, outcome: Outcome): State {
    match Child(s.nodes, parent, name)
    case None => s
    case Some(p) =>
      if outcome == Refused || !CanAdd(s.tree, p) then s
      else
        var t := s.(tree := s.tree[p := obj]);
        if outcome == Uncached then t else Cached(t, p)
  }

  predicate CanCreate(b: Tree, p: Path) {
    if p in b then !b[p].isDir else CanAdd(b, p)
  }

  /** A regular file, opened if it is there already. */
  function AfterCreate(s: State, parent: Ino, name: Comp, ino: Ino, outcome: Outcome): State {
    match Child(s.nodes, parent, name)
    case None => s
    case Some(p) =>
      if outcome == Refused || !CanCreate(s.tree, p) then s
      else
        var t := if p in s.tree then s else s.(tree := s.tree[p := Obj(ino, false)]);
        if outcome == Uncached then t else Cached(t.(handles := s.handles + multiset{p}), p)
  }

  predicate CanLink(b: Tree, from: Path, to: Path) {
    from in b && !b[from].isDir && CanAdd(b, to)
  }

  function AfterLink(s: State, ino: Ino, newparent: Ino, newname: Comp, outcome: Outcome): State {
    match GetPath(s.nodes, ino)
    case None => s
    case Some(from) =>
      match Child(s.nodes, newparent, newname)
      case None => s
      case Some(to) =>
        if outcome == Refused || !CanLink(s.tree, from, to) then s
        else
          var t := s.(tree := s.tree[to := s.tree[from]]);
          if outcome == Uncached then t else Cached(t, to)
  }

  predicate CanRemove(b: Tree, p: Path, dir: bool) {
    p in b && b[p].isDir == dir && (dir ==> IsEmpty(b, p))
  }

  function AfterUnlink(s: State, parent: Ino, name: Comp, dir: bool, ok: bool): State {
    match Child(s.nodes, parent, name)
    case None => s
    case Some(p) =>
      if ok && CanRemove(s.tree, p, dir)
      then s.(tree := s.tree - {p}, nodes := WithoutPath(s.nodes, s.tree[p].ino, p)) else s
  }

  /** The tree moves first; the cache then follows the number found at the new path. */
  function MovedTo(s: State, from: Path, to: Path): State {
    var b := Renamed(s.tree, from, to);
    if to !in b then s.(tree := b)
    else s.(tree := b, nodes := WithPath(WithoutPath(s.nodes, b[to].ino, from), b[to].ino, to))
  }

  /** A rename that the kernel allows; without the attributes of the new path the cache is left as it was. */
  function Moving(s: State, from: Path, to: Path, outcome: Outcome): State {
    match outcome
    case Refused => s
    case Uncached => s.(tree := Renamed(s.tree, from, to))
    case Done => MovedTo(s, from, to)
  }

  function AfterRename(s: State, parent: Ino, name: Comp, newparent: Ino, newname: Comp, outcome: Outcome): State {
    match Child(s.nodes, parent, name)
    case None => s
    case Some(from) =>
      match Child(s.nodes, newparent, newname)
      case None => s
      case Some(to) => if CanRename(s.tree, from, to) then Moving(s, from, to, outcome) else s
  }

  function AfterOpen(s: State, ino: Ino, ok: bool): State {
    match GetPath(s.nodes, ino)
    case None => s
    case Some(p) => if ok && p in s.tree then s.(handles := s.handles + multiset{p}) else s
  }

  function Apply(s: State, e: Event): State {
    match e
    case Lookup(parent, name, ok) => AfterLookup(s, parent, name, ok)
    case Make(parent, name, obj, outcome) => AfterMake(s, parent, name, obj, outcome)
    case Create(parent, name, ino, outcome) => AfterCreate(s, parent, name, ino, outcome)
    case Link(ino, newparent, newname, outcome) => AfterLink(s, ino, newparent, newname, outcome)
    case Unlink(parent, name, ok) => AfterUnlink(s, parent, name, false, ok)
    case Rmdir(parent, name, ok) => AfterUnlink(s, parent, name, true, ok)
    case Rename(parent, name, newparent, newname, outcome) => AfterRename(s, parent, name, newparent, newname, outcome)
    case Forget(ino, nlookup) => s.(nodes := Forgotten(s.nodes, ino, nlookup))
    case Open(ino, ok) => AfterOpen(s, ino, ok)
    case Release(path) => s.(handles := s.handles - multiset{path})
    case Outside(tree) => s.(tree := tree)
  }

  predicate Initial(s: State) {
    s.nodes == WithPath(map[], ROOT, s.top) && s.handles == multiset{}
  }

  // ----- what holds without any condition -----

  ghost predicate NodeRooted(top: Path, n: Node) {
    Distinct(n.paths) && forall p :: p in n.paths ==> Under(p, top)
  }

  /** No node repeats a path, and all paths of nodes and handles lie under the original directory. */
  ghost predicate Rooted(s: State) {
    && (forall i :: i in s.nodes ==> NodeRooted(s.top, s.nodes[i]))
    && (forall p :: p in s.handles ==> Under(p, s.top))
  }

  lemma PathUnderTop(s: State, i: Ino)
    requires Rooted(s) && GetPath(s.nodes, i).Some?
    ensures Under(GetPath(s.nodes, i).value, s.top)
  {
    assert NodeRooted(s.top, s.nodes[i]);
    assert GetPath(s.nodes, i).value in s.nodes[i].paths;
  }

  lemma ChildBelowTop(s: State, parent: Ino, name: Comp)
    requires Rooted(s) && Child(s.nodes, parent, name).Some?
    ensures Below(Child(s.nodes, parent, name).value, s.top)
  {
    PathUnderTop(s, parent);
    var p := GetPath(s.nodes, parent).value;
    assert s.top == p[..|s.top|] == (p + [name])[..|s.top|];
  }

  lemma InsertKeepsRooted(s: State, i: Ino, p: Path)
    requires Rooted(s) && Under(p, s.top)
    ensures Rooted(s.(nodes := WithPath(s.nodes, i, p)))
  {
    assert i in s.nodes ==> NodeRooted(s.top, s.nodes[i]);
  }

  lemma RemoveKeepsRooted(s: State, i: Ino, p: Path)
    requires Rooted(s)
    ensures Rooted(s.(nodes := WithoutPath(s.nodes, i, p)))
  {
    if i in s.nodes {
      FilteredKeepsOthers(s.nodes[i].paths, p);
      assert NodeRooted(s.top, s.nodes[i]);
    }
  }

  // ----- the calls that each operation makes on the table -----

  function EntryCalls(i: Ino, p: Path): seq<Call> {
    [InsertPath(i, p), IncreaseRef(i)]
  }

  function CallsAt(s: State, p: Path, e: Event): seq<Call> {
    match e
    case Lookup(_, _, ok) => if ok && p in s.tree then EntryCalls(s.tree[p].ino, p) else []
    case Make(_, _, obj, outcome) => if outcome == Done && CanAdd(s.tree, p) then EntryCalls(obj.ino, p) else []
    case Create(_, _, ino, outcome) =>
      if outcome != Done || !CanCreate(s.tree, p) then []
      else EntryCalls(if p in s.tree then s.tree[p].ino else ino, p)
    case Unlink(_, _, ok) => if ok && CanRemove(s.tree, p, false) then [RemovePath(s.tree[p].ino, p)] else []
    case Rmdir(_, _, ok) => if ok && CanRemove(s.tree, p, true) then [RemovePath(s.tree[p].ino, p)] else []
    case _ => []
  }

  function CallsBetween(s: State, from: Path, to: Path, e: Event): seq<Call> {
    match e
    case Link(_, _, _, outcome) =>
      if outcome == Done && CanLink(s.tree, from, to) then EntryCalls(s.tree[from].ino, to) else []
    case Rename(_, _, _, _, outcome) =>
      var b := Renamed(s.tree, from, to);
      if outcome == Done && CanRename(s.tree, from, to) && to in b
      then [RemovePath(b[to].ino, from), InsertPath(b[to].ino, to)] else []
    case _ => []
  }

  function Calls(s: State, e: Event): seq<Call> {
    match e
    case Link(ino, newparent, newname, _) =>
      var from, to := GetPath(s.nodes, ino), Child(s.nodes, newparent, newname);
      if from.Some? && to.Some? then CallsBetween(s, from.value, to.value, e) else []
    case Rename(parent, name, newparent, newname, _) =>
      var from, to := Child(s.nodes, parent, name), Child(s.nodes, newparent, newname);
      if from.Some? && to.Some? then CallsBetween(s, from.value, to.value, e) else []
    case Forget(ino, nlookup) => [DecreaseRef(ino, nlookup)]
    case Open(_, _) => []
    case Release(_) => []
    case Outside(_) => []
    case _ =>
      var p := Child(s.nodes, e.parent, e.name);
      if p.Some? then CallsAt(s, p.value, e) else []
  }

  lemma TwoCalls(m: Nodes, a: Call, b: Call)
    ensures AfterCalls(m, [a]) == AfterCall(m, a)
    ensures AfterCalls(m, [a, b]) == AfterCall(AfterCall(m, a), b)
  {
    assert [a, b][..1] == [a] && [a][..0] == [];
  }

  /** These are all the changes that an operation makes to the table. */
  lemma ApplyIsCalls(s: State, e: Event)
    ensures Apply(s, e).nodes == AfterCalls(s.nodes, Calls(s, e))
  {
    hide Renamed, CanRename, CanAdd, CanRemove, CanLink, Child, AfterCalls, WithPath, WithoutPath, Referenced, Forgotten;
    var cs := Calls(s, e);
    NoCalls(s.nodes);
    if e.Rename? || e.Link? {
      if cs != [] { TwoCalls(s.nodes, cs[0], cs[1]); }
    } else if e.Unlink? || e.Rmdir? || e.Forget? {
      if cs != [] { TwoCalls(s.nodes, cs[0], cs[0]); }
    } else {
      if cs != [] { TwoCalls(s.nodes, cs[0], cs[1]); }
    }
  }

  lemma NoCalls(m: Nodes)
    ensures AfterCalls(m, []) == m
  {
  }

  // ----- agreement with the backend -----

  ghost predicate Sane(s: State) {
    WellFormed(s.tree, s.top) && Rooted(s)
  }

  /** A path cached for an inode; the original directory, under the number of the root, is not such a path. */
  ghost predicate IsCached(s: State, i: Ino, p: Path) {
    i in s.nodes && p in s.nodes[i].paths && !(i == ROOT && p == s.top)
  }

  /** Every path cached for an inode names an object of the backend with that number. */
  ghost predicate Agrees(s: State) {
    forall i, p :: IsCached(s, i, p) ==> p in s.tree && s.tree[p].ino == i
  }

  /** What an operation keeps: sanity always, and agreement if it was there. */
  ghost predicate Kept(s: State, t: State) {
    Sane(t) && t.top == s.top && (Agrees(s) ==> Agrees(t))
  }

  lemma CachedKeeps(s: State, p: Path)
    requires Sane(s) && p in s.tree && Below(p, s.top)
    ensures Kept(s, Cached(s, p))
  {
    var i, t := s.tree[p].ino, Cached(s, p);
    InsertKeepsRooted(s, i, p);
    assert forall j, q :: IsCached(t, j, q) ==> IsCached(s, j, q) || (j == i && q == p);
  }

  /** Agreement survives what caches nothing new and keeps the objects that are cached. */
  lemma OnlyFewerCached(s: State, t: State)
    requires forall i, p :: IsCached(t, i, p) ==> IsCached(s, i, p)
    requires forall i, p :: IsCached(t, i, p) && p in s.tree ==> p in t.tree && t.tree[p] == s.tree[p]
    ensures Agrees(s) ==> Agrees(t)
  {
  }

  lemma AddKeeps(s: State, p: Path, o: Obj)
    requires Sane(s) && CanAdd(s.tree, p) && Below(p, s.top)
    ensures Kept(s, s.(tree := s.tree[p := o]))
  {
    AddKeepsTree(s.tree, s.top, p, o);
    OnlyFewerCached(s, s.(tree := s.tree[p := o]));
  }

  lemma LookupKeeps(s: State, parent: Ino, name: Comp, ok: bool)
    requires Sane(s)
    ensures Kept(s, AfterLookup(s, parent, name, ok))
  {
    hide Rooted, WellFormed, Agrees, Cached, Child;
    var t := AfterLookup(s, parent, name, ok);
    if Child(s.nodes, parent, name).Some? {
      ChildBelowTop(s, parent, name);
      var p := Child(s.nodes, parent, name).value;
      if ok && p in s.tree {
        CachedKeeps(s, p);
      }
    }
  }

  lemma MakeKeeps(s: State, parent: Ino, name: Comp, obj: Obj, outcome: Outcome)
    requires Sane(s)
    ensures Kept(s, AfterMake(s, parent, name, obj, outcome))
  {
    hide Rooted, WellFormed, Agrees, Cached, Child, CanAdd;
    if Child(s.nodes, parent, name).Some? {
      ChildBelowTop(s, parent, name);
      var p := Child(s.nodes, parent, name).value;
      if outcome != Refused && CanAdd(s.tree, p) {
        AddKeeps(s, p, obj);
        CachedKeeps(s.(tree := s.tree[p := obj]), p);
      }
    }
  }

  lemma HandleKeeps(s: State, p: Path)
    requires Sane(s) && Under(p, s.top)
    ensures Kept(s, s.(handles := s.handles + multiset{p}))
  {
    OnlyFewerCached(s, s.(handles := s.handles + multiset{p}));
  }

  lemma CreateKeeps(s: State, parent: Ino, name: Comp, ino: Ino, outcome: Outcome)
    requires Sane(s)
    ensures Kept(s, AfterCreate(s, parent, name, ino, outcome))
  {
    hide Rooted, WellFormed, Agrees, Cached, Child, CanAdd;
    if Child(s.nodes, parent, name).Some? {
      ChildBelowTop(s, parent, name);
      var p := Child(s.nodes, parent, name).value;
      if outcome != Refused && CanCreate(s.tree, p) {
        var t := if p in s.tree then s else s.(tree := s.tree[p := Obj(ino, false)]);
        if p !in s.tree { AddKeeps(s, p, Obj(ino, false)); }
        HandleKeeps(t, p);
        CachedKeeps(t.(handles := s.handles + multiset{p}), p);
      }
    }
  }

  lemma LinkKeeps(s: State, ino: Ino, newparent: Ino, newname: Comp, outcome: Outcome)
    requires Sane(s)
    ensures Kept(s, AfterLink(s, ino, newparent, newname, outcome))
  {
    hide Agrees, Cached, Child, CanAdd;
    if GetPath(s.nodes, ino).Some? && Child(s.nodes, newparent, newname).Some? {
      ChildBelowTop(s, newparent, newname);
      var from, to := GetPath(s.nodes, ino).value, Child(s.nodes, newparent, newname).value;
      if outcome != Refused && CanLink(s.tree, from, to) {
        AddKeeps(s, to, s.tree[from]);
        CachedKeeps(s.(tree := s.tree[to := s.tree[from]]), to);
      }
    }
  }

  lemma RemoveKeeps(s: State, p: Path, dir: bool)
    requires Sane(s) && CanRemove(s.tree, p, dir) && Below(p, s.top)
    ensures Kept(s, s.(tree := s.tree - {p}, nodes := WithoutPath(s.nodes, s.tree[p].ino, p)))
  {
    var i := s.tree[p].ino;
    RemoveKeepsTree(s.tree, s.top, p);
    RemoveKeepsRooted(s.(tree := s.tree - {p}), i, p);
    if i in s.nodes {
      FilteredKeepsOthers(s.nodes[i].paths, p);
    }
    var t := s.(tree := s.tree - {p}, nodes := WithoutPath(s.nodes, i, p));
    assert forall j, q :: IsCached(t, j, q) ==> IsCached(s, j, q) && !(j == i && q == p);
  }

  /** An entry reply adds its own path to the cache and nothing else. */
  lemma EntryIsCached(s: State, p: Path, j: Ino, q: Path)
    requires Sane(s) && p in s.tree && Below(p, s.top)
    ensures IsCached(Cached(s, p), j, q) <==> IsCached(s, j, q) || (j == s.tree[p].ino && q == p)
    ensures NodeOf(Cached(s, p).nodes, j).refCount == NodeOf(s.nodes, j).refCount + if j == s.tree[p].ino then 1 else 0
  {
    var was := NodeOf(s.nodes, s.tree[p].ino);
    assert Inserted(was, p).paths == was.paths + if p in was.paths then [] else [p];
  }

  /** Of an agreeing cache, a removal takes away the removed path, whichever inode it was cached for, and no other. */
  lemma RemovedIsNotCached(s: State, p: Path, j: Ino, q: Path)
    requires Sane(s) && Agrees(s) && p in s.tree
    ensures IsCached(s.(nodes := WithoutPath(s.nodes, s.tree[p].ino, p)), j, q) <==> IsCached(s, j, q) && q != p
  {
    var i := s.tree[p].ino;
    if i in s.nodes {
      FilteredKeepsOthers(s.nodes[i].paths, p);
    }
    assert IsCached(s, j, p) ==> j == i;
  }

  lemma UnlinkKeeps(s: State, parent: Ino, name: Comp, dir: bool, ok: bool)
    requires Sane(s)
    ensures Kept(s, AfterUnlink(s, parent, name, dir, ok))
  {
    hide Rooted, WellFormed, Agrees, Child, CanRemove;
    if Child(s.nodes, parent, name).Some? {
      ChildBelowTop(s, parent, name);
      var p := Child(s.nodes, parent, name).value;
      if ok && CanRemove(s.tree, p, dir) {
        RemoveKeeps(s, p, dir);
      }
    }
  }

  lemma OpenKeeps(s: State, ino: Ino, ok: bool)
    requires Sane(s)
    ensures Kept(s, AfterOpen(s, ino, ok))
  {
    hide Agrees;
    if GetPath(s.nodes, ino).Some? {
      PathUnderTop(s, ino);
      HandleKeeps(s, GetPath(s.nodes, ino).value);
    }
  }

  // ----- rename -----

  lemma MovingKeepsSane(s: State, from: Path, to: Path, outcome: Outcome)
    requires Sane(s) && CanRename(s.tree, from, to) && Below(from, s.top) && Below(to, s.top)
    ensures Sane(Moving(s, from, to, outcome)) && Moving(s, from, to, outcome).top == s.top
  {
    hide Renamed, CanRename, NodeRooted;
    RenameKeepsTree(s.tree, s.top, from, to);
    var t := s.(tree := Renamed(s.tree, from, to));
    if to in t.tree {
      RemoveKeepsRooted(t, t.tree[to].ino, from);
      InsertKeepsRooted(t.(nodes := WithoutPath(t.nodes, t.tree[to].ino, from)), t.tree[to].ino, to);
    }
  }

  /** What a rename leaves behind in the cache: what is below the old name, and that name itself if nothing removes it. */
  predicate LeftBehind(p: Path, from: Path, outcome: Outcome) {
    if outcome == Done then Below(p, from) else Under(p, from)
  }

  /**
    The renames after which the cache is right again: the two names of one file, or nothing cached that
    would be left behind and the replaced object not cached at the new name.
   */
  ghost predicate Safe(s: State, from: Path, to: Path, outcome: Outcome) {
    || outcome == Refused
    || SameFile(s.tree, from, to)
    || (&& (forall i, p :: IsCached(s, i, p) ==> !LeftBehind(p, from, outcome))
        && (to in s.tree ==> !IsCached(s, s.tree[to].ino, to)))
  }

  lemma MovedTarget(s: State, from: Path, to: Path)
    requires CanRename(s.tree, from, to)
    ensures var b := Renamed(s.tree, from, to);
      from in s.tree && to in b && b[to].ino == s.tree[from].ino
  {
    if !SameFile(s.tree, from, to) {
      RenamedAt(s.tree, from, to, to);
      assert Moved(to, to, from) == from;
    }
  }

  /** What is cached after a rename. */
  lemma MovedCache(s: State, from: Path, to: Path, i: Ino, p: Path)
    requires CanRename(s.tree, from, to) && Below(from, s.top) && Below(to, s.top)
    ensures var own := i == s.tree[from].ino;
      IsCached(MovedTo(s, from, to), i, p) <==> (own && p == to) || (IsCached(s, i, p) && !(own && p == from))
  {
    hide Renamed;
    MovedTarget(s, from, to);
    FilteredKeepsOthers(NodeOf(s.nodes, s.tree[from].ino).paths, from);
  }

  /** An object that was there before a rename that moves something, as the tree has it afterwards. */
  lemma StillThere(s: State, from: Path, to: Path, p: Path)
    requires Sane(s) && CanRename(s.tree, from, to) && !SameFile(s.tree, from, to)
    requires Below(from, s.top) && Below(to, s.top) && p in s.tree
    ensures var b := Renamed(s.tree, from, to);
      if Under(p, from) then p !in b
      else if p == to then p in b && b[p].ino == s.tree[from].ino
      else p in b && b[p] == s.tree[p]
  {
    hide Renamed;
    TargetIsEmpty(s.tree, s.top, from, to);
    RenamedAt(s.tree, from, to, p);
    if p == to {
      assert Moved(to, to, from) == from;
    } else {
      assert !Under(p, to);
    }
  }

  lemma MovedTree(s: State, from: Path, to: Path)
    requires Sane(s) && CanRename(s.tree, from, to) && Below(from, s.top)
    ensures from in s.tree
    ensures var t := MovedTo(s, from, to);
      && t.tree == Renamed(s.tree, from, to) && to in t.tree && t.tree[to].ino == s.tree[from].ino
      && (SameFile(s.tree, from, to) ==> t.tree == s.tree)
  {
    MovedTarget(s, from, to);
  }

  /** What is cached after a rename, whatever its outcome. */
  lemma MovingCache(s: State, from: Path, to: Path, outcome: Outcome, i: Ino, p: Path)
    requires Sane(s) && CanRename(s.tree, from, to) && Below(from, s.top) && Below(to, s.top)
    ensures var own := outcome == Done && i == s.tree[from].ino;
      IsCached(Moving(s, from, to, outcome), i, p) <==> (own && p == to) || (IsCached(s, i, p) && !(own && p == from))
  {
    hide Renamed, MovedTo;
    if outcome == Done { MovedCache(s, from, to, i, p); }
  }

  lemma SafeRenameAgrees(s: State, from: Path, to: Path, outcome: Outcome)
    requires Sane(s) && Agrees(s) && CanRename(s.tree, from, to) && Below(from, s.top) && Below(to, s.top)
    requires Safe(s, from, to, outcome) && outcome != Refused
    ensures Agrees(Moving(s, from, to, outcome))
  {
    hide Renamed, CanRename, MovedTo, IsCached;
    var t := Moving(s, from, to, outcome);
    MovedTree(s, from, to);
    forall i, p | IsCached(t, i, p) ensures p in t.tree && t.tree[p].ino == i {
      MovingCache(s, from, to, outcome, i, p);
      if !SameFile(s.tree, from, to) && IsCached(s, i, p) {
        StillThere(s, from, to, p);
      }
    }
  }

  lemma UnsafeRenameDisagrees(s: State, from: Path, to: Path, outcome: Outcome)
    requires Sane(s) && Agrees(s) && CanRename(s.tree, from, to) && Below(from, s.top) && Below(to, s.top)
    requires !Safe(s, from, to, outcome)
    ensures !Agrees(Moving(s, from, to, outcome))
  {
    hide Renamed, CanRename, MovedTo, IsCached;
    var t := Moving(s, from, to, outcome);
    MovedTree(s, from, to);
    if i, p :| IsCached(s, i, p) && LeftBehind(p, from, outcome) {
      MovingCache(s, from, to, outcome, i, p);
      StillThere(s, from, to, p);
    } else {
      MovingCache(s, from, to, outcome, s.tree[to].ino, to);
    }
  }

  /** From a cache that agrees, a rename leads to one that agrees exactly when it is safe, whatever its outcome. */
  lemma RenameAgreesIffSafe(s: State, from: Path, to: Path, outcome: Outcome)
    requires Sane(s) && Agrees(s) && CanRename(s.tree, from, to) && Below(from, s.top) && Below(to, s.top)
    ensures Agrees(Moving(s, from, to, outcome)) <==> Safe(s, from, to, outcome)
  {
    if outcome != Refused {
      hide Rooted, WellFormed, Agrees, CanRename, Moving, Safe;
      if Safe(s, from, to, outcome) {
        SafeRenameAgrees(s, from, to, outcome);
      } else {
        UnsafeRenameDisagrees(s, from, to, outcome);
      }
    }
  }

  /** Moving a file or an empty directory onto a free name is safe exactly when the cache is told, or need not be. */
  lemma FreeTargetIsSafe(s: State, from: Path, to: Path, outcome: Outcome)
    requires Sane(s) && Agrees(s) && from in s.tree && Below(from, s.top) && to !in s.tree
    requires s.tree[from].isDir ==> IsEmpty(s.tree, from)
    ensures Safe(s, from, to, outcome) <==> (outcome == Uncached ==> !IsCached(s, s.tree[from].ino, from))
  {
    forall i, p | IsCached(s, i, p) ensures !Below(p, from) {
      if Below(p, from) { AncestorIsDirectory(s.tree, s.top, p, from); }
    }
  }

  // ----- whole runs -----

  /** A rename that goes through while it is not safe. */
  ghost predicate Upsets(s: State, e: Event) {
    && e.Rename?
    && var from, to := Child(s.nodes, e.parent, e.name), Child(s.nodes, e.newparent, e.newname);
    from.Some? && to.Some? && CanRename(s.tree, from.value, to.value) && !Safe(s, from.value, to.value, e.outcome)
  }

  lemma RenameKeeps(s: State, e: Event)
    requires Sane(s) && e.Rename?
    ensures var t := Apply(s, e);
      Sane(t) && t.top == s.top && (Agrees(s) ==> (Agrees(t) <==> !Upsets(s, e)))
  {
    hide Rooted, WellFormed, Agrees, CanRename, Safe, Child, Moving;
    if Child(s.nodes, e.parent, e.name).Some? && Child(s.nodes, e.newparent, e.newname).Some? {
      var from, to := Child(s.nodes, e.parent, e.name).value, Child(s.nodes, e.newparent, e.newname).value;
      ChildBelowTop(s, e.parent, e.name);
      ChildBelowTop(s, e.newparent, e.newname);
      if CanRename(s.tree, from, to) {
        MovingKeepsSane(s, from, to, e.outcome);
        if Agrees(s) { RenameAgreesIffSafe(s, from, to, e.outcome); }
      }
    }
  }

  /** One step: sanity always stays, and agreement is lost by an unsafe rename and by nothing else. */
  lemma StepKeeps(s: State, e: Event)
    requires Sane(s) && !e.Outside?
    ensures var t := Apply(s, e);
      Sane(t) && t.top == s.top && (Agrees(s) ==> (Agrees(t) <==> !Upsets(s, e)))
  {
    hide AfterLookup, AfterMake, AfterCreate, AfterLink, AfterUnlink, AfterRename, AfterOpen;
    match e {
      case Lookup(parent, name, ok) => LookupKeeps(s, parent, name, ok);
      case Make(parent, name, obj, outcome) => MakeKeeps(s, parent, name, obj, outcome);
      case Create(parent, name, ino, outcome) => CreateKeeps(s, parent, name, ino, outcome);
      case Link(ino, newparent, newname, outcome) => LinkKeeps(s, ino, newparent, newname, outcome);
      case Unlink(parent, name, ok) => UnlinkKeeps(s, parent, name, false, ok);
      case Rmdir(parent, name, ok) => UnlinkKeeps(s, parent, name, true, ok);
      case Rename(_, _, _, _, _) => RenameKeeps(s, e);
      case Forget(_, _) => OnlyFewerCached(s, Apply(s, e));
      case Open(ino, ok) => OpenKeeps(s, ino, ok);
      case Release(_) => OnlyFewerCached(s, Apply(s, e));
    }
  }

  function After(s: State, es: seq<Event>): State
    decreases |es|
  {
    if es == [] then s else After(Apply(s, es[0]), es[1..])
  }

  /** The backend changes only through the operations, and their numbers are the backend's own. */
  predicate NoneOutside(es: seq<Event>) {
    forall e :: e in es ==> !e.Outside?
  }

  ghost predicate NeverUpset(s: State, es: seq<Event>)
    decreases |es|
  {
    es == [] || (!Upsets(s, es[0]) && NeverUpset(Apply(s, es[0]), es[1..]))
  }

  lemma {:induction false} RunKeeps(s: State, es: seq<Event>)
    requires Sane(s) && NoneOutside(es)
    ensures Sane(After(s, es)) && After(s, es).top == s.top
    ensures Agrees(s) && NeverUpset(s, es) ==> Agrees(After(s, es))
    decreases |es|
  {
    hide Rooted, WellFormed, Agrees, Upsets, Apply;
    if es != [] {
      StepKeeps(s, es[0]);
      RunKeeps(Apply(s, es[0]), es[1..]);
    }
  }

  /** Every rename of the run moves a file onto a free name, and tells the cache if that has the file. */
  ghost predicate MovesOnlyFiles(s: State, es: seq<Event>)
    decreases |es|
  {
    es == [] || (MovesFile(s, es[0]) && MovesOnlyFiles(Apply(s, es[0]), es[1..]))
  }

  ghost predicate MovesFile(s: State, e: Event) {
    e.Rename? ==>
      var from, to := Child(s.nodes, e.parent, e.name), Child(s.nodes, e.newparent, e.newname);
      from.Some? && to.Some? && from.value in s.tree ==>
        && !s.tree[from.value].isDir && to.value !in s.tree
        && (e.outcome == Uncached ==> !IsCached(s, s.tree[from.value].ino, from.value))
  }

  lemma {:induction false} MovingFilesNeverUpsets(s: State, es: seq<Event>)
    requires Sane(s) && Agrees(s) && NoneOutside(es) && MovesOnlyFiles(s, es)
    ensures NeverUpset(s, es)
    decreases |es|
  {
    hide Rooted, WellFormed, Agrees, Apply, CanRename, Safe, Child;
    if es != [] {
      var e := es[0];
      if e.Rename? && Child(s.nodes, e.parent, e.name).Some? && Child(s.nodes, e.newparent, e.newname).Some? {
        var from, to := Child(s.nodes, e.parent, e.name).value, Child(s.nodes, e.newparent, e.newname).value;
        ChildBelowTop(s, e.parent, e.name);
        if from in s.tree { FreeTargetIsSafe(s, from, to, e.outcome); } else { NothingToRename(s.tree, from, to); }
      }
      StepKeeps(s, e);
      MovingFilesNeverUpsets(Apply(s, e), es[1..]);
    }
  }

  lemma NothingToRename(b: Tree, from: Path, to: Path)
    requires from !in b
    ensures !CanRename(b, from, to)
  {
  }

  lemma InitialIsSane(s: State)
    requires Initial(s) && WellFormed(s.tree, s.top)
    ensures Sane(s) && Agrees(s)
  {
  }

  /** Every path that an operation inserts or removes is a child of one that is cached. */
  lemma CallsStayBelow(s: State, e: Event)
    requires Rooted(s)
    ensures AllBelow(Calls(s, e), s.top)
  {
    hide Rooted, Renamed, CanRename, CanAdd, CanRemove, CanLink, Child;
    match e {
      case Link(_, newparent, newname, _) =>
        if Child(s.nodes, newparent, newname).Some? { ChildBelowTop(s, newparent, newname); }
      case Rename(parent, name, newparent, newname, _) =>
        if Child(s.nodes, parent, name).Some? { ChildBelowTop(s, parent, name); }
        if Child(s.nodes, newparent, newname).Some? { ChildBelowTop(s, newparent, newname); }
      case Forget(_, _) =>
      case Open(_, _) =>
      case Release(_) =>
      case Outside(_) =>
      case _ =>
        if Child(s.nodes, e.parent, e.name).Some? { ChildBelowTop(s, e.parent, e.name); }
    }
  }

  predicate AllBelow(cs: seq<Call>, top: Path) {
    forall c :: c in cs && (c.InsertPath? || c.RemovePath?) ==> Below(c.path, top)
  }

  lemma CallKeepsRooted(s: State, c: Call)
    requires Rooted(s) && AllBelow([c], s.top)
    ensures Rooted(s.(nodes := AfterCall(s.nodes, c)))
  {
    assert c in [c];
    match c {
      case InsertPath(i, p) => InsertKeepsRooted(s, i, p);
      case RemovePath(i, p) => RemoveKeepsRooted(s, i, p);
      case IncreaseRef(i) => assert i in s.nodes ==> NodeRooted(s.top, s.nodes[i]);
      case DecreaseRef(_, _) =>
    }
  }

  lemma {:induction false} CallsKeepRooted(s: State, cs: seq<Call>)
    requires Rooted(s) && AllBelow(cs, s.top)
    ensures Rooted(s.(nodes := AfterCalls(s.nodes, cs)))
  {
    hide Rooted;
    if cs != [] {
      var front, c := cs[..|cs| - 1], cs[|cs| - 1];
      assert c in cs && forall x :: x in front ==> x in cs;
      CallsKeepRooted(s, front);
      CallKeepsRooted(s.(nodes := AfterCalls(s.nodes, front)), c);
    } else {
      assert s.(nodes := AfterCalls(s.nodes, cs)) == s;
    }
  }

  /** No condition at all: any operation, on any tree, whatever numbers it finds. */
  lemma StepKeepsRooted(s: State, e: Event)
    requires Rooted(s)
    ensures Rooted(Apply(s, e)) && Apply(s, e).top == s.top
  {
    hide Calls, AfterCalls, Apply, NodeRooted;
    TopStays(s, e);
    ApplyIsCalls(s, e);
    CallsStayBelow(s, e);
    CallsKeepRooted(s, Calls(s, e));
    HandlesStayUnder(s, e);
  }

  /** The path that an operation records in a handle: an inode opened at its latest path, or a file created. */
  function Recorded(s: State, e: Event): multiset<Path> {
    match e
    case Open(ino, ok) =>
      var p := GetPath(s.nodes, ino);
      if ok && p.Some? && p.value in s.tree then multiset{p.value} else multiset{}
    case Create(parent, name, _, outcome) =>
      var p := Child(s.nodes, parent, name);
      if outcome == Done && p.Some? && CanCreate(s.tree, p.value) then multiset{p.value} else multiset{}
    case _ => multiset{}
  }

  /** Handles change by what is recorded and released, and by nothing else. */
  lemma HandlesExact(s: State, e: Event)
    ensures Apply(s, e).handles ==
      s.handles + Recorded(s, e) - if e.Release? then multiset{e.path} else multiset{}
  {
    hide Renamed, CanRename, CanAdd, CanLink, CanRemove, Child, GetPath, WithPath, WithoutPath, Referenced, Forgotten;
  }

  lemma HandlesRecorded(s: State, e: Event, p: Path)
    requires p in Apply(s, e).handles
    ensures
      || p in s.handles
      || (e.Open? && GetPath(s.nodes, e.ino) == Some(p))
      || (e.Create? && Child(s.nodes, e.parent, e.name) == Some(p))
  {
    hide Apply, CanCreate, Child, GetPath;
    HandlesExact(s, e);
  }

  lemma HandlesStayUnder(s: State, e: Event)
    requires Rooted(s)
    ensures forall p :: p in Apply(s, e).handles ==> Under(p, s.top)
  {
    hide Apply, NodeRooted, Child, GetPath;
    forall p | p in Apply(s, e).handles ensures Under(p, s.top) {
      HandlesRecorded(s, e, p);
      if e.Open? && GetPath(s.nodes, e.ino) == Some(p) {
        PathUnderTop(s, e.ino);
      } else if e.Create? && Child(s.nodes, e.parent, e.name) == Some(p) {
        ChildBelowTop(s, e.parent, e.name);
      }
    }
  }

  lemma TopStays(s: State, e: Event)
    ensures Apply(s, e).top == s.top
  {
    hide Renamed, CanRename, CanAdd, CanLink, CanRemove, Child, GetPath, WithPath, WithoutPath, Referenced, Forgotten;
  }

  lemma {:induction false} RunKeepsRooted(s: State, es: seq<Event>)
    requires Rooted(s)
    ensures Rooted(After(s, es)) && After(s, es).top == s.top
    decreases |es|
  {
    hide Rooted, Apply;
    if es != [] {
      StepKeepsRooted(s, es[0]);
      RunKeepsRooted(Apply(s, es[0]), es[1..]);
    }
  }

  /**
    In every run, whatever happens to the backend in between and whatever numbers are found or injected:
    every cached path and every path recorded in an open handle lies under the original directory, so that
    `rebuild_path` succeeds on it and keeps its tail; and no node repeats a path.
   */
  lemma RebuildNeverFails(s: State, es: seq<Event>, mount: Path, p: Path)
    requires Initial(s)
    ensures var t := After(s, es);
      && (forall i :: i in t.nodes ==> Distinct(t.nodes[i].paths))
      && ((exists i :: i in t.nodes && p in t.nodes[i].paths) || p in t.handles ==>
            && Under(p, s.top) && RebuildPath(mount, s.top, p) == Ok(mount + p[|s.top|..]))
  {
    hide After;
    RunKeepsRooted(s, es);
    var t := After(s, es);
    forall i | i in t.nodes ensures Distinct(t.nodes[i].paths) { assert NodeRooted(t.top, t.nodes[i]); }
    if i :| i in t.nodes && p in t.nodes[i].paths {
      assert NodeRooted(t.top, t.nodes[i]);
    }
  }

  /**
    In every run without an unsafe rename, every path cached for an inode names an object with that number,
    and so does the path that `get_path` gives, unless it is the original directory for the root.
   */
  lemma GetPathNamesTheInode(s: State, es: seq<Event>, i: Ino)
    requires Initial(s) && WellFormed(s.tree, s.top) && NoneOutside(es) && NeverUpset(s, es)
    ensures var t := After(s, es);
      && (forall p :: IsCached(t, i, p) ==> p in t.tree && t.tree[p].ino == i)
      && (GetPath(t.nodes, i).Some? ==>
            var p := GetPath(t.nodes, i).value;
            (i == ROOT && p == s.top) || (p in t.tree && t.tree[p].ino == i))
  {
    hide After, NeverUpset;
    InitialIsSane(s);
    RunKeeps(s, es);
    var t := After(s, es);
    if GetPath(t.nodes, i).Some? {
      var p := GetPath(t.nodes, i).value;
      assert p in t.nodes[i].paths;
      assert (i == ROOT && p == s.top) || IsCached(t, i, p);
    }
  }

  // ----- the root -----

  function RunCalls(s: State, es: seq<Event>): seq<Call>
    decreases |es|
  {
    if es == [] then [] else Calls(s, es[0]) + RunCalls(Apply(s, es[0]), es[1..])
  }

  /** All calls on the table since the file system was made. */
  function AllCalls(s: State, es: seq<Event>): seq<Call> {
    [InsertPath(ROOT, s.top)] + RunCalls(s, es)
  }

  lemma {:induction false} CallsConcat(m: Nodes, a: seq<Call>, b: seq<Call>)
    ensures AfterCalls(m, a + b) == AfterCalls(AfterCalls(m, a), b)
  {
    if b == [] {
      assert a + b == a;
    } else {
      assert (a + b)[..|a + b| - 1] == a + b[..|b| - 1];
      CallsConcat(m, a, b[..|b| - 1]);
    }
  }

  lemma {:induction false} RunIsCalls(s: State, es: seq<Event>)
    requires Rooted(s)
    ensures After(s, es).nodes == AfterCalls(s.nodes, RunCalls(s, es)) && AllBelow(RunCalls(s, es), s.top)
    decreases |es|
  {
    hide Rooted, Apply, Calls;
    if es != [] {
      ApplyIsCalls(s, es[0]);
      CallsStayBelow(s, es[0]);
      StepKeepsRooted(s, es[0]);
      RunIsCalls(Apply(s, es[0]), es[1..]);
      CallsConcat(s.nodes, Calls(s, es[0]), RunCalls(Apply(s, es[0]), es[1..]));
    }
  }

  /** In every run, the paths of an inode are what its calls left: the survivors, in order of birth. */
  lemma NodesHoldSurvivors(s: State, es: seq<Event>, i: Ino)
    requires Initial(s)
    ensures After(s, es).nodes == AfterCalls(map[], AllCalls(s, es))
    ensures InBirthOrder(History(AllCalls(s, es), i), NodeOf(After(s, es).nodes, i).paths)
  {
    hide After, RunCalls, AfterCalls, InBirthOrder, History;
    assert Rooted(s);
    RunIsCalls(s, es);
    TwoCalls(map[], InsertPath(ROOT, s.top), InsertPath(ROOT, s.top));
    CallsConcat(map[], [InsertPath(ROOT, s.top)], RunCalls(s, es));
    TableHoldsSurvivors(AllCalls(s, es), i);
  }

  predicate OnlyFirst(h: seq<Op>, p: Path) {
    forall k :: 0 <= k < |h| && h[k] == Insert(p) ==> k == 0
  }

  /** The original directory is inserted once, at the very start. */
  lemma {:induction false} TopComesFirst(top: Path, cs: seq<Call>)
    requires AllBelow(cs, top)
    ensures OnlyFirst(History([InsertPath(ROOT, top)] + cs, ROOT), top)
  {
    var all := [InsertPath(ROOT, top)] + cs;
    if cs == [] {
      assert all[..0] == [] && all[0] == InsertPath(ROOT, top);
      assert History(all[..0], ROOT) == [];
    } else {
      var front, c := cs[..|cs| - 1], cs[|cs| - 1];
      assert c in cs && forall x :: x in front ==> x in cs;
      assert all[..|all| - 1] == [InsertPath(ROOT, top)] + front;
      assert all[|all| - 1] == c;
      TopComesFirst(top, front);
      assert c.InsertPath? ==> c.path != top;
    }
  }

  /**
    Whatever happens, the root's path is the original directory exactly while that survives, which ends when
    the root is forgotten, and no path of another object that had the number of the root does.
   */
  lemma RootPathIff(s: State, es: seq<Event>)
    requires Initial(s)
    ensures var h := History(AllCalls(s, es), ROOT);
      GetPath(After(s, es).nodes, ROOT) == Some(s.top) <==>
        Survives(h, s.top) && forall p :: p != s.top ==> !Survives(h, p)
  {
    hide After, AllCalls, History, BornAt;
    NodesHoldSurvivors(s, es, ROOT);
    var h, paths := History(AllCalls(s, es), ROOT), NodeOf(After(s, es).nodes, ROOT).paths;
    if paths != [] && paths[|paths| - 1] == s.top {
      TopIsOldest(s, es, paths);
    } else if Survives(h, s.top) && paths != [] {
      assert paths[|paths| - 1] in paths;
    }
  }

  lemma TopIsOldest(s: State, es: seq<Event>, paths: seq<Path>)
    requires Initial(s) && InBirthOrder(History(AllCalls(s, es), ROOT), paths)
    requires paths != [] && paths[|paths| - 1] == s.top
    ensures var h := History(AllCalls(s, es), ROOT);
      Survives(h, s.top) && forall p :: p != s.top ==> !Survives(h, p)
  {
    var h := History(AllCalls(s, es), ROOT);
    RunIsCalls(s, es);
    TopComesFirst(s.top, RunCalls(s, es));
    assert s.top in paths;
    var j :| BornAt(h, s.top, j);
    assert OnlyFirst(h, s.top) && h[j] == Insert(s.top);
    assert forall p :: p in paths <==> Survives(h, p);
  }

  /** It does happen: one lookup of an object that the backend numbers like the root moves the root. */
  lemma RootPathMoves(top: Path, f: string)
    ensures exists s, es ::
      && Initial(s) && WellFormed(s.tree, s.top) && NoneOutside(es) && s.top == top
      && GetPath(After(s, es).nodes, ROOT) == Some(top + [Normal(f)])
  {
    var file := top + [Normal(f)];
    var s := State(top, WithPath(map[], ROOT, top), map[top := Obj(5, true), file := Obj(ROOT, false)], multiset{});
    assert Parent(file) == top && file[..|top|] == top;
    var es := [Lookup(ROOT, Normal(f), true)];
    assert Fresh.paths + [top] == [top];
    assert After(s, es) == Apply(s, es[0]);
    assert NodeOf(Apply(s, es[0]).nodes, ROOT).paths == [top] + [file];
  }

  /** A directory with a file in it, under `top`. */
  function SmallTree(top: Path, dir: Path, file: Path): Tree {
    map[top := Obj(5, true), dir := Obj(6, true), file := Obj(7, false)]
  }

  lemma SmallStart(top: Path, d: string, f: string) returns (s: State)
    ensures var dir, file := top + [Normal(d)], top + [Normal(d)] + [Normal(f)];
      s == State(top, WithPath(map[], ROOT, top), SmallTree(top, dir, file), multiset{})
    ensures Initial(s) && WellFormed(s.tree, s.top)
  {
    var dir, file := top + [Normal(d)], top + [Normal(d)] + [Normal(f)];
    s := State(top, WithPath(map[], ROOT, top), SmallTree(top, dir, file), multiset{});
    assert Parent(dir) == top && Parent(file) == dir;
    assert file[..|top|] == top;
  }

  /** The condition is needed: after two lookups a rename of the directory leaves the path of its file behind. */
  lemma RenamedDirectoryLeavesStalePath(top: Path, d: string, e: string, f: string)
    requires d != e
    ensures exists s, es ::
      && Initial(s) && WellFormed(s.tree, s.top) && NoneOutside(es)
      && !Agrees(After(s, es))
  {
    hide Agrees, Sane, Upsets, WellFormed, Apply;
    var s := SmallStart(top, d, f);
    InitialIsSane(s);
    var dir, file := top + [Normal(d)], top + [Normal(d)] + [Normal(f)];
    var s1 := FirstLookup(s, ROOT, Normal(d), dir);
    var s2 := FirstLookup(s1, 6, Normal(f), file);
    var moved := Rename(ROOT, Normal(d), ROOT, Normal(e), Done);
    DirectoryRenameUpsets(s2, d, e, f);
    StepKeeps(s2, moved);
    var es := [Lookup(ROOT, Normal(d), true), Lookup(6, Normal(f), true), moved];
    assert After(s, es) == After(s2, es[2..]) == Apply(s2, moved);
  }

  /** A lookup that finds a number not seen before. */
  lemma FirstLookup(s: State, parent: Ino, name: Comp, p: Path) returns (t: State)
    requires Sane(s) && Agrees(s)
    requires Child(s.nodes, parent, name) == Some(p) && p in s.tree && s.tree[p].ino !in s.nodes
    ensures t == Apply(s, Lookup(parent, name, true)) && Sane(t) && Agrees(t)
    ensures t == s.(nodes := s.nodes[s.tree[p].ino := Node(1, [p])])
  {
    t := Apply(s, Lookup(parent, name, true));
    StepKeeps(s, Lookup(parent, name, true));
    assert Fresh.paths + [p] == [p];
    assert t.nodes == s.nodes[s.tree[p].ino := Node(1, [p])];
  }

  /**
    It is needed for files as well: after a lookup, a rename onto a free name whose attributes then cannot be
    read leaves the old path behind.
   */
  lemma UncachedRenameLeavesStalePath(top: Path, d: string, f: string, g: string)
    requires f != g
    ensures exists s, es ::
      && Initial(s) && WellFormed(s.tree, s.top) && NoneOutside(es)
      && !Agrees(After(s, es))
  {
    hide Agrees, Sane, Upsets, WellFormed, Apply;
    var s := SmallStart(top, d, f);
    InitialIsSane(s);
    var dir, file := top + [Normal(d)], top + [Normal(d)] + [Normal(f)];
    var s1 := FirstLookup(s, ROOT, Normal(d), dir);
    var s2 := FirstLookup(s1, 6, Normal(f), file);
    var moved := Rename(6, Normal(f), 6, Normal(g), Uncached);
    UncachedRenameUpsets(s2, d, f, g);
    StepKeeps(s2, moved);
    var es := [Lookup(ROOT, Normal(d), true), Lookup(6, Normal(f), true), moved];
    assert After(s, es) == After(s2, es[2..]) == Apply(s2, moved);
  }

  lemma UncachedRenameUpsets(s: State, d: string, f: string, g: string)
    requires var dir, file := s.top + [Normal(d)], s.top + [Normal(d)] + [Normal(f)];
      && s.tree == SmallTree(s.top, dir, file) && GetPath(s.nodes, 6) == Some(dir) && IsCached(s, 7, file)
    requires f != g
    ensures Upsets(s, Rename(6, Normal(f), 6, Normal(g), Uncached))
  {
    var dir := s.top + [Normal(d)];
    var from, to := dir + [Normal(f)], dir + [Normal(g)];
    assert Parent(to) == dir;
    assert from[|dir|] != to[|dir|];
    assert |to| == |from| == |dir| + 1 == |s.top| + 2;
    assert to !in s.tree && !Below(to, from);
    assert LeftBehind(from, from, Uncached) && IsCached(s, 7, from);
  }

  lemma DirectoryRenameUpsets(s: State, d: string, e: string, f: string)
    requires d != e && GetPath(s.nodes, ROOT) == Some(s.top)
    requires var dir, file := s.top + [Normal(d)], s.top + [Normal(d)] + [Normal(f)];
      s.tree == SmallTree(s.top, dir, file) && IsCached(s, 7, file)
    ensures Upsets(s, Rename(ROOT, Normal(d), ROOT, Normal(e), Done))
  {
    var from, to, file := s.top + [Normal(d)], s.top + [Normal(e)], s.top + [Normal(d)] + [Normal(f)];
    assert Parent(to) == s.top;
    assert from[|s.top|] != to[|s.top|];
    assert file[..|from|] == from && file[|s.top|] == Normal(d);
    assert to !in s.tree;
    assert Below(file, from) && IsCached(s, 7, file);
  }

  // ----- the code -----

  /** An entry reply for `p` with number `i`: cached, one more reference, every other path and inode as before. */
  ghost predicate EntryNoted(m: Nodes, m': Nodes, i: Ino, p: Path) {
    && (forall q :: q in NodeOf(m', i).paths <==> q == p || q in NodeOf(m, i).paths)
    && NodeOf(m', i).refCount == NodeOf(m, i).refCount + 1
    && (forall j :: j != i ==> NodeOf(m', j) == NodeOf(m, j))
  }

  lemma EntryIsNoted(m: Nodes, i: Ino, p: Path)
    ensures EntryNoted(m, Referenced(WithPath(m, i, p), i), i, p)
  {
    var was := NodeOf(m, i);
    assert Inserted(was, p).paths == was.paths + if p in was.paths then [] else [p];
  }

  /** The object at the new path is the one that was moved; it is cached there and no longer at the old path. */
  predicate RenameNoted(ino: Ino, from: Path, to: Path, s: State) {
    && to in s.tree && s.tree[to].ino == ino
    && to in NodeOf(s.nodes, ino).paths && (from != to ==> from !in NodeOf(s.nodes, ino).paths)
  }

  lemma RenameIsNoted(s: State, from: Path, to: Path)
    requires CanRename(s.tree, from, to)
    ensures RenameNoted(s.tree[from].ino, from, to, MovedTo(s, from, to))
  {
    hide Renamed;
    MovedTarget(s, from, to);
    FilteredKeepsOthers(NodeOf(s.nodes, s.tree[from].ino).paths, from);
  }

  class FileSystem {
    const top: Path
    const inodeMap: Map
    var tree: Tree
    var handles: multiset<Path>

    ghost function Value(): State
      reads this, inodeMap
    {
      State(top, inodeMap.nodes, tree, handles)
    }

    /** The table starts with the original directory as the root. */
    constructor (top: Path, tree: Tree)
      ensures Initial(Value()) && Value().top == top && Value().tree == tree
    {
      this.top := top;
      this.tree := tree;
      handles := multiset{};
      inodeMap := new Map();
      new;
      inodeMap.InsertPath(ROOT, top);
    }

    method Lookup(parent: Ino, name: Comp, ok: bool) returns (r: Option<Ino>)
      modifies inodeMap
      ensures Value() == AfterLookup(old(Value()), parent, name, ok)
      ensures var p := Child(old(inodeMap.nodes), parent, name);
        && r == (if ok && p.Some? && p.value in tree then Some(tree[p.value].ino) else None)
        && (r.Some? ==> EntryNoted(old(inodeMap.nodes), inodeMap.nodes, r.value, p.value))
      ensures r.None? ==> inodeMap.nodes == old(inodeMap.nodes)
    {
      var dir := GetPath(inodeMap.nodes, parent);
      if !ok || dir.None? {
        return None;
      }
      var path := dir.value + [name];
      if path !in tree {
        return None;
      }
      var ino := tree[path].ino;
      EntryIsNoted(inodeMap.nodes, ino, path);
      inodeMap.InsertPath(ino, path);
      inodeMap.IncreaseRef(ino);
      return Some(ino);
    }

    method Make(parent: Ino, name: Comp, obj: Obj, outcome: Outcome) returns (r: Option<Ino>)
      modifies this, inodeMap
      ensures Value() == AfterMake(old(Value()), parent, name, obj, outcome)
      ensures var p := Child(old(inodeMap.nodes), parent, name);
        var made := outcome != Refused && p.Some? && CanAdd(old(tree), p.value);
        && tree == (if made then old(tree)[p.value := obj] else old(tree))
        && r == (if made && outcome == Done then Some(obj.ino) else None)
        && (r.Some? ==> EntryNoted(old(inodeMap.nodes), inodeMap.nodes, r.value, p.value))
      ensures r.None? ==> inodeMap.nodes == old(inodeMap.nodes)
      ensures handles == old(handles)
    {
      var dir := GetPath(inodeMap.nodes, parent);
      if dir.None? {
        return None;
      }
      var path := dir.value + [name];
      if outcome == Refused || !CanAdd(tree, path) {
        return None;
      }
      tree := tree[path := obj];
      if outcome == Uncached {
        return None;
      }
      EntryIsNoted(inodeMap.nodes, obj.ino, path);
      inodeMap.InsertPath(obj.ino, path);
      inodeMap.IncreaseRef(obj.ino);
      return Some(obj.ino);
    }

    method Create(parent: Ino, name: Comp, ino: Ino, outcome: Outcome) returns (r: Option<Ino>)
      modifies this, inodeMap
      ensures Value() == AfterCreate(old(Value()), parent, name, ino, outcome)
      ensures var p := Child(old(inodeMap.nodes), parent, name);
        var made := outcome != Refused && p.Some? && CanCreate(old(tree), p.value);
        && tree == (if made && p.value !in old(tree) then old(tree)[p.value := Obj(ino, false)] else old(tree))
        && r == (if made && outcome == Done then Some(tree[p.value].ino) else None)
        && (r.Some? ==> EntryNoted(old(inodeMap.nodes), inodeMap.nodes, r.value, p.value))
        && handles == old(handles) + (if r.Some? then multiset{p.value} else multiset{})
      ensures r.None? ==> inodeMap.nodes == old(inodeMap.nodes)
    {
      var dir := GetPath(inodeMap.nodes, parent);
      if dir.None? {
        return None;
      }
      var path := dir.value + [name];
      if outcome == Refused || !CanCreate(tree, path) {
        return None;
      }
      if path !in tree {
        tree := tree[path := Obj(ino, false)];
      }
      if outcome == Uncached {
        return None;
      }
      var found := tree[path].ino;
      handles := handles + multiset{path};
      EntryIsNoted(inodeMap.nodes, found, path);
      inodeMap.InsertPath(found, path);
      inodeMap.IncreaseRef(found);
      return Some(found);
    }

    method Link(ino: Ino, newparent: Ino, newname: Comp, outcome: Outcome) returns (r: Option<Ino>)
      modifies this, inodeMap
      ensures Value() == AfterLink(old(Value()), ino, newparent, newname, outcome)
      ensures var from, to := GetPath(old(inodeMap.nodes), ino), Child(old(inodeMap.nodes), newparent, newname);
        var made := outcome != Refused && from.Some? && to.Some? && CanLink(old(tree), from.value, to.value);
        && tree == (if made then old(tree)[to.value := old(tree)[from.value]] else old(tree))
        && r == (if made && outcome == Done then Some(old(tree)[from.value].ino) else None)
        && (r.Some? ==> EntryNoted(old(inodeMap.nodes), inodeMap.nodes, r.value, to.value))
      ensures r.None? ==> inodeMap.nodes == old(inodeMap.nodes)
      ensures handles == old(handles)
    {
      var from := GetPath(inodeMap.nodes, ino);
      var dir := GetPath(inodeMap.nodes, newparent);
      if from.None? || dir.None? {
        return None;
      }
      var to := dir.value + [newname];
      if outcome == Refused || !CanLink(tree, from.value, to) {
        return None;
      }
      tree := tree[to := tree[from.value]];
      if outcome == Uncached {
        return None;
      }
      var found := tree[to].ino;
      EntryIsNoted(inodeMap.nodes, found, to);
      inodeMap.InsertPath(found, to);
      inodeMap.IncreaseRef(found);
      return Some(found);
    }

    /** `unlink` for a file and `rmdir` for a directory; the number is read before the object goes. */
    method Remove(parent: Ino, name: Comp, dir: bool, ok: bool) returns (done: bool)
      modifies this, inodeMap
      ensures Value() == AfterUnlink(old(Value()), parent, name, dir, ok)
      ensures var p := Child(old(inodeMap.nodes), parent, name);
        && (done <==> ok && p.Some? && CanRemove(old(tree), p.value, dir))
        && tree == (if done then old(tree) - {p.value} else old(tree))
        && (done ==> p.value !in NodeOf(inodeMap.nodes, old(tree)[p.value].ino).paths)
      ensures !done ==> inodeMap.nodes == old(inodeMap.nodes)
      ensures handles == old(handles)
    {
      var at := GetPath(inodeMap.nodes, parent);
      if at.None? {
        return false;
      }
      var path := at.value + [name];
      if !ok || !CanRemove(tree, path, dir) {
        return false;
      }
      var ino := tree[path].ino;
      tree := tree - {path};
      FilteredKeepsOthers(NodeOf(inodeMap.nodes, ino).paths, path);
      inodeMap.RemovePath(ino, path);
      return true;
    }

    /** The attributes of the new path are asked for after the move; if that fails, the cache is not touched. */
    method Rename(parent: Ino, name: Comp, newparent: Ino, newname: Comp, outcome: Outcome) returns (done: bool)
      modifies this, inodeMap
      ensures Value() == AfterRename(old(Value()), parent, name, newparent, newname, outcome)
      ensures var from, to := Child(old(inodeMap.nodes), parent, name), Child(old(inodeMap.nodes), newparent, newname);
        && (done <==> outcome == Done && from.Some? && to.Some? && CanRename(old(tree), from.value, to.value))
        && tree == (if outcome != Refused && from.Some? && to.Some? && CanRename(old(tree), from.value, to.value)
                    then Renamed(old(tree), from.value, to.value) else old(tree))
        && (done ==> RenameNoted(old(tree)[from.value].ino, from.value, to.value, Value()))
      ensures handles == old(handles)
      ensures !done ==> inodeMap.nodes == old(inodeMap.nodes)
    {
      hide Renamed, CanRename, RenameNoted, WithPath, WithoutPath;
      ghost var s0 := Value();
      var dir := GetPath(inodeMap.nodes, parent);
      var newdir := GetPath(inodeMap.nodes, newparent);
      if dir.None? || newdir.None? {
        return false;
      }
      var from, to := dir.value + [name], newdir.value + [newname];
      if outcome == Refused || !CanRename(tree, from, to) {
        return false;
      }
      MovedTarget(s0, from, to);
      RenameIsNoted(s0, from, to);
      tree := Renamed(tree, from, to);
      if outcome == Uncached {
        return false;
      }
      var ino := tree[to].ino;
      inodeMap.RemovePath(ino, from);
      inodeMap.InsertPath(ino, to);
      return true;
    }

    method Open(ino: Ino, ok: bool) returns (r: Option<Path>)
      modifies this
      ensures Value() == AfterOpen(old(Value()), ino, ok)
      ensures r == if ok && GetPath(inodeMap.nodes, ino).Some? && GetPath(inodeMap.nodes, ino).value in tree
        then GetPath(inodeMap.nodes, ino) else None
      ensures handles == old(handles) + if r.Some? then multiset{r.value} else multiset{}
    {
      var path := GetPath(inodeMap.nodes, ino);
      if path.None? || !ok || path.value !in tree {
        return None;
      }
      handles := handles + multiset{path.value};
      return path;
    }

    /** `release` and `releasedir`: one handle on the path goes. */
    method Release(path: Path)
      modifies this
      ensures Value() == old(Value()).(handles := old(handles) - multiset{path})
    {
      handles := handles - multiset{path};
    }
  }
}
