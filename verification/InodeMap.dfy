/** src/hookfs/mod.rs, `Node` and `InodeMap`: the cached paths and reference counts of inodes. */
module InodeMap {
  import opened Wrappers
  import opened Paths

  type Ino = nat

  const ROOT: Ino := 1

  datatype Node = Node(refCount: nat, paths: seq<Path>)
  type Nodes = map<Ino, Node>

  const Fresh := Node(0, [])

  // ----- the operations as values -----

  function Inserted(n: Node, p: Path): Node {
    if p in n.paths then n else n.(paths := n.paths + [p])
  }

  function Filtered(paths: seq<Path>, p: Path): seq<Path> {
    if paths == [] then []
    else
      var last := paths[|paths| - 1];
      Filtered(paths[..|paths| - 1], p) + if last == p then [] else [last]
  }

  function Removed(n: Node, p: Path): Node {
    n.(paths := Filtered(n.paths, p))
  }

  function LastPath(n: Node): Option<Path> {
    if n.paths == [] then None else Some(n.paths[|n.paths| - 1])
  }

  function NodeOf(m: Nodes, i: Ino): Node {
    if i in m then m[i] else Fresh
  }

  function GetPath(m: Nodes, i: Ino): Option<Path> {
    LastPath(NodeOf(m, i))
  }

  function WithPath(m: Nodes, i: Ino, p: Path): Nodes {
    m[i := Inserted(NodeOf(m, i), p)]
  }

  function WithoutPath(m: Nodes, i: Ino, p: Path): Nodes {
    if i in m then m[i := Removed(m[i], p)] else m
  }

  function Referenced(m: Nodes, i: Ino): Nodes {
    if i in m then m[i := m[i].(refCount := m[i].refCount + 1)] else m
  }

  /** The count is only compared, never lowered. */
  function Forgotten(m: Nodes, i: Ino, nlookup: nat): Nodes {
    if i in m && m[i].refCount <= nlookup then m - {i} else m
  }

  // ----- the code -----

  class Map {
    var nodes: Nodes

    constructor ()
      ensures nodes == map[]
    {
      nodes := map[];
    }

    method InsertPath(inode: Ino, path: Path)
      modifies this
      ensures nodes == WithPath(old(nodes), inode, path)
    {
      if inode !in nodes {
        nodes := nodes[inode := Fresh];
      }
      var node := nodes[inode];
      for i := 0 to |node.paths|
        invariant path !in node.paths[..i]
        invariant inode in nodes && nodes[inode] == node == NodeOf(old(nodes), inode)
        invariant nodes == old(nodes)[inode := node]
      {
        if node.paths[i] == path {
          return;
        }
      }
      nodes := nodes[inode := node.(paths := node.paths + [path])];
    }

    method RemovePath(inode: Ino, path: Path)
      modifies this
      ensures nodes == WithoutPath(old(nodes), inode, path)
    {
      if inode in nodes {
        var paths := nodes[inode].paths;
        var kept := [];
        for i := 0 to |paths|
          invariant kept == Filtered(paths[..i], path)
        {
          assert paths[..i + 1][..i] == paths[..i];
          if paths[i] != path {
            kept := kept + [paths[i]];
          }
        }
        assert paths[..|paths|] == paths;
        nodes := nodes[inode := nodes[inode].(paths := kept)];
      }
    }

    method IncreaseRef(inode: Ino)
      modifies this
      ensures nodes == Referenced(old(nodes), inode)
    {
      if inode in nodes {
        nodes := nodes[inode := nodes[inode].(refCount := nodes[inode].refCount + 1)];
      }
    }

    method DecreaseRef(inode: Ino, nlookup: nat)
      modifies this
      ensures nodes == Forgotten(old(nodes), inode, nlookup)
    {
      if inode in nodes && nodes[inode].refCount <= nlookup {
        nodes := nodes - {inode};
      }
    }
  }

  // ----- what the paths of a node are -----

  predicate Distinct(paths: seq<Path>) {
    forall i, j :: 0 <= i < j < |paths| ==> paths[i] != paths[j]
  }

  lemma {:induction false} FilteredKeepsOthers(paths: seq<Path>, p: Path)
    ensures forall q :: q in Filtered(paths, p) <==> q in paths && q != p
    ensures Distinct(paths) ==> Distinct(Filtered(paths, p))
  {
    if paths != [] {
      var front, last := paths[..|paths| - 1], paths[|paths| - 1];
      FilteredKeepsOthers(front, p);
      assert paths == front + [last];
      if Distinct(paths) {
        assert Distinct(front);
        assert last !in front;
      }
    }
  }

  /** A history of the calls on one node. */
  datatype Op = Insert(path: Path) | Remove(path: Path)

  function Replay(h: seq<Op>): Node {
    if h == [] then Fresh
    else
      var n := Replay(h[..|h| - 1]);
      match h[|h| - 1]
      case Insert(p) => Inserted(n, p)
      case Remove(p) => Removed(n, p)
  }

  /** The moment path `p` came in to stay: its first insertion after its last removal. */
  ghost predicate BornAt(h: seq<Op>, p: Path, i: int) {
    && 0 <= i < |h| && h[i] == Insert(p)
    && (forall j :: i < j < |h| ==> h[j] != Remove(p))
    && (forall k :: 0 <= k < i && h[k] == Insert(p) ==> exists j :: k < j < i && h[j] == Remove(p))
  }

  ghost predicate Survives(h: seq<Op>, p: Path) {
    exists i :: BornAt(h, p, i)
  }

  lemma BornOnce(h: seq<Op>, p: Path, i: int, j: int)
    requires BornAt(h, p, i) && BornAt(h, p, j)
    ensures i == j
  {
  }

  /** An insertion that nothing undoes later means the path was born at some point. */
  lemma {:induction false} SomeBirth(h: seq<Op>, p: Path, k: int)
    requires 0 <= k < |h| && h[k] == Insert(p) && forall j :: k < j < |h| ==> h[j] != Remove(p)
    ensures Survives(h, p)
    decreases k
  {
    if k' :| 0 <= k' < k && h[k'] == Insert(p) && forall j :: k' < j < k ==> h[j] != Remove(p) {
      SomeBirth(h, p, k');
    } else {
      assert BornAt(h, p, k);
    }
  }

  /** What one more call on the node means for the birth of `p`. */
  lemma BornStep(h: seq<Op>, op: Op, p: Path, i: int)
    ensures op == Remove(p) ==> !BornAt(h + [op], p, i)
    ensures op != Remove(p) && 0 <= i < |h| ==> (BornAt(h + [op], p, i) <==> BornAt(h, p, i))
    ensures i == |h| ==> (BornAt(h + [op], p, i) <==> op == Insert(p) && !Survives(h, p))
  {
    var g := h + [op];
    if 0 <= i < |h| {
      assert forall j :: 0 <= j < |h| ==> g[j] == h[j];
      assert g[|h|] == op;
    }
    if i == |h| {
      assert forall j :: 0 <= j < |h| ==> g[j] == h[j];
      if op == Insert(p) && !Survives(h, p) {
        forall k | 0 <= k < i && g[k] == Insert(p)
          ensures exists j :: k < j < i && g[j] == Remove(p)
        {
          if forall j :: k < j < |h| ==> h[j] != Remove(p) { SomeBirth(h, p, k); }
        }
      }
    }
  }

  /** The paths of a node, whatever was called on it: no repeats, and each survivor in order of its birth. */
  ghost predicate InBirthOrder(h: seq<Op>, paths: seq<Path>) {
    && Distinct(paths)
    && (forall p :: p in paths <==> Survives(h, p))
    && (forall a, b, i, j :: 0 <= a < b < |paths| && BornAt(h, paths[a], i) && BornAt(h, paths[b], j) ==> i < j)
  }

  lemma SurvivorsAfter(h: seq<Op>, op: Op, q: Path)
    ensures Survives(h + [op], q) <==> (op == Insert(q) || (op != Remove(q) && Survives(h, q)))
  {
    var g := h + [op];
    if op == Insert(q) && !Survives(h, q) {
      BornStep(h, op, q, |h|);
      assert BornAt(g, q, |h|);
    } else if op != Remove(q) && Survives(h, q) {
      var i :| BornAt(h, q, i);
      BornStep(h, op, q, i);
      assert BornAt(g, q, i);
    } else if Survives(g, q) {
      var i :| BornAt(g, q, i);
      BornStep(h, op, q, i);
    }
  }

  lemma AfterInsert(h: seq<Op>, p: Path, n: Node)
    requires InBirthOrder(h, n.paths)
    ensures InBirthOrder(h + [Insert(p)], Inserted(n, p).paths)
  {
    hide BornAt;
    var g, paths := h + [Insert(p)], Inserted(n, p).paths;
    forall q ensures q in paths <==> Survives(g, q) {
      SurvivorsAfter(h, Insert(p), q);
    }
    forall a, b, i, j | 0 <= a < b < |paths| && BornAt(g, paths[a], i) && BornAt(g, paths[b], j)
      ensures i < j
    {
      BornIndex(g, paths[a], i);
      BornIndex(g, paths[b], j);
      BornStep(h, Insert(p), paths[a], i);
      BornStep(h, Insert(p), paths[b], j);
    }
  }

  lemma BornIndex(h: seq<Op>, p: Path, i: int)
    requires BornAt(h, p, i)
    ensures 0 <= i < |h| && Survives(h, p)
  {
  }

  lemma {:induction false} FilteredInOrder(paths: seq<Path>, p: Path, a: nat, b: nat) returns (a': nat, b': nat)
    requires a < b < |Filtered(paths, p)|
    ensures a' < b' < |paths| && paths[a'] == Filtered(paths, p)[a] && paths[b'] == Filtered(paths, p)[b]
  {
    var front, last := paths[..|paths| - 1], paths[|paths| - 1];
    if b < |Filtered(front, p)| {
      a', b' := FilteredInOrder(front, p, a, b);
    } else {
      FilteredKeepsOthers(front, p);
      assert Filtered(front, p)[a] in front;
      a' :| 0 <= a' < |front| && front[a'] == Filtered(front, p)[a];
      b' := |front|;
    }
  }

  lemma AfterRemove(h: seq<Op>, p: Path, paths: seq<Path>)
    requires InBirthOrder(h, paths)
    ensures InBirthOrder(h + [Remove(p)], Filtered(paths, p))
  {
    hide BornAt;
    var g, kept := h + [Remove(p)], Filtered(paths, p);
    FilteredKeepsOthers(paths, p);
    forall q ensures q in kept <==> Survives(g, q) {
      SurvivorsAfter(h, Remove(p), q);
    }
    forall a, b, i, j | 0 <= a < b < |kept| && BornAt(g, kept[a], i) && BornAt(g, kept[b], j)
      ensures i < j
    {
      BornIndex(g, kept[a], i);
      BornIndex(g, kept[b], j);
      BornStep(h, Remove(p), kept[a], i);
      BornStep(h, Remove(p), kept[b], j);
      var a', b' := FilteredInOrder(paths, p, a, b);
    }
  }

  lemma {:induction false} PathsAreSurvivors(h: seq<Op>)
    ensures InBirthOrder(h, Replay(h).paths)
  {
    if h != [] {
      var front, op := h[..|h| - 1], h[|h| - 1];
      assert h == front + [op];
      PathsAreSurvivors(front);
      if op.Insert? {
        AfterInsert(front, op.path, Replay(front));
      } else {
        AfterRemove(front, op.path, Replay(front).paths);
      }
    }
  }

  /** `get_path` answers with the latest survivor, and with nothing exactly when there is none. */
  lemma GetPathIsLatestSurvivor(h: seq<Op>)
    ensures LastPath(Replay(h)).None? <==> forall p :: !Survives(h, p)
    ensures forall p, i, q, j :: LastPath(Replay(h)) == Some(p) && BornAt(h, p, i) && BornAt(h, q, j) ==> j <= i
  {
    PathsAreSurvivors(h);
    var paths := Replay(h).paths;
    if paths == [] {
      assert forall p :: p !in paths;
    } else {
      assert paths[|paths| - 1] in paths;
    }
    forall p, i, q, j | LastPath(Replay(h)) == Some(p) && BornAt(h, p, i) && BornAt(h, q, j)
      ensures j <= i
    {
      assert q in paths;
      var a :| 0 <= a < |paths| && paths[a] == q;
      if a == |paths| - 1 { BornOnce(h, p, i, j); }
    }
  }

  // ----- the whole table, over any calls -----

  datatype Call =
    | InsertPath(ino: Ino, path: Path)
    | RemovePath(ino: Ino, path: Path)
    | IncreaseRef(ino: Ino)
    | DecreaseRef(ino: Ino, nlookup: nat)

  function AfterCall(m: Nodes, c: Call): Nodes {
    match c
    case InsertPath(i, p) => WithPath(m, i, p)
    case RemovePath(i, p) => WithoutPath(m, i, p)
    case IncreaseRef(i) => Referenced(m, i)
    case DecreaseRef(i, n) => Forgotten(m, i, n)
  }

  function AfterCalls(m: Nodes, cs: seq<Call>): Nodes {
    if cs == [] then m else AfterCall(AfterCalls(m, cs[..|cs| - 1]), cs[|cs| - 1])
  }

  /** What was inserted and removed for inode `i` since its node last left the table. */
  function History(cs: seq<Call>, i: Ino): seq<Op> {
    if cs == [] then []
    else
      var front, c := cs[..|cs| - 1], cs[|cs| - 1];
      var h := History(front, i);
      if c.ino != i then h
      else
        match c
        case InsertPath(_, p) => h + [Insert(p)]
        case RemovePath(_, p) => h + [Remove(p)]
        case IncreaseRef(_) => h
        case DecreaseRef(_, n) => if NodeOf(AfterCalls(map[], front), i).refCount <= n then [] else h
  }

  /** After any calls on the table, the paths of an inode are the survivors of its history, in order of birth. */
  lemma {:induction false} TableHoldsSurvivors(cs: seq<Call>, i: Ino)
    ensures var paths := NodeOf(AfterCalls(map[], cs), i).paths;
      paths == Replay(History(cs, i)).paths && InBirthOrder(History(cs, i), paths)
  {
    PathsAreSurvivors(History(cs, i));
    if cs != [] {
      var front, c := cs[..|cs| - 1], cs[|cs| - 1];
      TableHoldsSurvivors(front, i);
      var m, h := AfterCalls(map[], front), History(front, i);
      if c.ino == i && c.InsertPath? {
        ReplayStep(h, Insert(c.path));
      } else if c.ino == i && c.RemovePath? {
        ReplayStep(h, Remove(c.path));
      }
    }
  }

  lemma ReplayStep(h: seq<Op>, op: Op)
    ensures Replay(h + [op]) == if op.Insert? then Inserted(Replay(h), op.path) else Removed(Replay(h), op.path)
  {
    assert (h + [op])[..|h|] == h;
  }
}
