/**
  src/mount.rs, src/mount_injector.rs and the mount steps of src/main.rs: mount points as stacks of
  mounts, and the cycle of injecting and recovering.
 */
module Mounts {
  import opened Wrappers
  import opened Paths

  /** What is mounted: a directory of some file system, or the fault-injecting one. */
  datatype Root = Dir(fs: nat, at: Path) | Fuse(at: Path)

  function Below(r: Root, tail: Path): Root {
    r.(at := r.at + tail)
  }

  type Table = map<Path, seq<Root>>

  function Stack(t: Table, p: Path): seq<Root> {
    if p in t then t[p] else []
  }

  function Push(t: Table, p: Path, r: Root): Table {
    t[p := Stack(t, p) + [r]]
  }

  function Pop(t: Table, p: Path): Table
    requires Stack(t, p) != []
  {
    t[p := Stack(t, p)[..|Stack(t, p)| - 1]]
  }

  function Top(t: Table, p: Path): Root
    requires Stack(t, p) != []
  {
    Stack(t, p)[|Stack(t, p)| - 1]
  }

  /** The object a path names: below the top mount of its longest prefix that is a mount point. */
  function ResolveAt(t: Table, p: Path, n: nat): Result<Root>
    requires n <= |p|
  {
    if Stack(t, p[..n]) != [] then Ok(Below(Top(t, p[..n]), p[n..]))
    else if n == 0 then Err
    else ResolveAt(t, p, n - 1)
  }

  function Resolve(t: Table, p: Path): Result<Root> {
    ResolveAt(t, p, |p|)
  }

  predicate NoSubmounts(t: Table, p: Path) {
    forall q :: q in t && t[q] != [] && Under(q, p) ==> q == p
  }

  /** Some mount point is the path or above it. */
  ghost predicate OnMount(t: Table, p: Path) {
    exists q :: q in t && t[q] != [] && Under(p, q)
  }

  /** Every path names the same in both tables, those under `n` aside if there is one. */
  ghost predicate SameNamesOutside(t: Table, u: Table, n: Result<Path>) {
    forall x :: (n.Ok? ==> !Under(x, n.value)) ==> Resolve(u, x) == Resolve(t, x)
  }

  // ----- resolving when one stack changes -----

  /** Paths that are not under `p` do not see the stack at `p`. */
  lemma {:induction false} ResolveElsewhere(t: Table, u: Table, p: Path, x: Path, n: nat)
    requires n <= |x| && !Under(x, p)
    requires forall q :: q != p ==> Stack(t, q) == Stack(u, q)
    ensures ResolveAt(t, x, n) == ResolveAt(u, x, n)
  {
    assert x[..n] != p;
    if Stack(t, x[..n]) == [] && n > 0 {
      ResolveElsewhere(t, u, p, x, n - 1);
    }
  }

  /** Under a mount point without submounts, a path resolves through the top of its stack. */
  lemma {:induction false} ResolveUnder(t: Table, p: Path, x: Path, n: nat)
    requires |p| <= n <= |x| && Under(x, p) && NoSubmounts(t, p) && Stack(t, p) != []
    ensures ResolveAt(t, x, n) == Ok(Below(Top(t, p), x[|p|..]))
    decreases n
  {
    if n > |p| {
      assert Under(x[..n], p) && x[..n] != p;
      ResolveUnder(t, p, x, n - 1);
    } else {
      assert x[..n] == p;
    }
  }

  /** Replacing the top by a mount of the same root, or stacking one on it, changes what no path names. */
  lemma SameTopSameNames(t: Table, u: Table, p: Path, x: Path)
    requires forall q :: q != p ==> Stack(t, q) == Stack(u, q)
    requires Stack(t, p) != [] && Stack(u, p) != [] && Top(t, p) == Top(u, p) && NoSubmounts(t, p)
    ensures Resolve(t, x) == Resolve(u, x)
  {
    if Under(x, p) {
      assert NoSubmounts(u, p) by {
        forall q | q in u && u[q] != [] && Under(q, p) ensures q == p {
          assert q == p || Stack(t, q) == Stack(u, q);
        }
      }
      ResolveUnder(t, p, x, |x|);
      ResolveUnder(u, p, x, |x|);
    } else {
      ResolveElsewhere(t, u, p, x, |x|);
    }
  }

  // ----- the cycle as values -----

  /** The table after `inject`: the path is bound to itself, the bind is moved aside, and FUSE covers the path. */
  function Injected(t: Table, p: Path, n: Path): Table
    requires Stack(t, p) != [] && Encoded(p) == Ok(n)
  {
    var bound := Push(t, p, Top(t, p));
    Push(Push(Pop(bound, p), n, Top(t, p)), p, Fuse([]))
  }

  /** The table after `recover_mount`: FUSE is gone, what was set aside is bound back and unmounted there. */
  function Recovered(t: Table, p: Path, n: Path): Table
    requires Stack(t, p) != [] && Stack(t, n) != [] && Encoded(p) == Ok(n)
  {
    EncodeGivesSibling(p);
    var bare := Pop(t, p);
    Pop(Push(bare, p, Top(bare, n)), n)
  }

  /** FUSE is gone; what was set aside may be bound back, but is still mounted where it was set aside. */
  predicate HalfRecovered(t: Table, u: Table, p: Path, n: Path)
    requires Stack(t, p) != [] && Stack(t, n) != []
  {
    u == Pop(t, p) || u == Push(Pop(t, p), p, Top(t, n))
  }

  lemma TopIsResolved(t: Table, p: Path)
    requires Stack(t, p) != []
    ensures Resolve(t, p) == Ok(Top(t, p))
  {
    assert p[..|p|] == p;
    assert Top(t, p).at + p[|p|..] == Top(t, p).at;
  }

  lemma InjectedStacks(t: Table, p: Path, n: Path)
    requires Stack(t, p) != [] && Encoded(p) == Ok(n)
    ensures var u := Injected(t, p, n);
      && Stack(u, p) == Stack(t, p) + [Fuse([])] && Stack(u, n) == Stack(t, n) + [Top(t, p)]
      && forall q :: q != p && q != n ==> Stack(u, q) == Stack(t, q)
  {
    hide Encoded;
    EncodeGivesSibling(p);
    var bound := Push(t, p, Top(t, p));
    assert Stack(Pop(bound, p), p) == Stack(t, p);
  }

  lemma RecoveredStacks(t: Table, p: Path, n: Path)
    requires Stack(t, p) != [] && Stack(t, n) != [] && Encoded(p) == Ok(n)
    ensures var u := Recovered(t, p, n);
      && Stack(u, p) == Stack(t, p)[..|Stack(t, p)| - 1] + [Top(t, n)] && Stack(u, n) == Stack(t, n)[..|Stack(t, n)| - 1]
      && forall q :: q != p && q != n ==> Stack(u, q) == Stack(t, q)
  {
    hide Encoded;
    EncodeGivesSibling(p);
  }

  lemma NoSubmountsElsewhere(t: Table, u: Table, p: Path, n: Path)
    requires NoSubmounts(t, p) && !Under(n, p)
    requires forall q :: q != p && q != n ==> Stack(u, q) == Stack(t, q)
    ensures NoSubmounts(u, p)
  {
    forall q | q in u && u[q] != [] && Under(q, p) ensures q == p {
      assert q == p || Stack(u, q) == Stack(t, q);
    }
  }

  /** While injected, paths below the path go to FUSE, and the encoded path names what the path named before. */
  lemma InjectedNames(t: Table, p: Path, n: Path, tail: Path)
    requires Stack(t, p) != [] && Encoded(p) == Ok(n) && NoSubmounts(t, p) && NoSubmounts(t, n)
    ensures Resolve(Injected(t, p, n), p + tail) == Ok(Fuse(tail))
    ensures Resolve(Injected(t, p, n), n + tail) == Resolve(t, p + tail)
  {
    hide Encoded, Injected, ResolveAt;
    EncodeGivesSibling(p);
    InjectedStacks(t, p, n);
    var u := Injected(t, p, n);
    NoSubmountsElsewhere(t, u, p, n);
    NoSubmountsElsewhere(t, u, n, p);
    assert (p + tail)[|p|..] == tail && (n + tail)[|n|..] == tail && [] + tail == tail;
    ResolveUnder(u, p, p + tail, |p + tail|);
    ResolveUnder(u, n, n + tail, |n + tail|);
    ResolveUnder(t, p, p + tail, |p + tail|);
  }

  /** Everything else names what it named before. */
  lemma InjectedElsewhere(t: Table, p: Path, n: Path, x: Path)
    requires Stack(t, p) != [] && Encoded(p) == Ok(n) && !Under(x, p) && !Under(x, n)
    ensures Resolve(Injected(t, p, n), x) == Resolve(t, x)
  {
    hide Encoded, Injected, ResolveAt;
    InjectedStacks(t, p, n);
    var u := Injected(t, p, n);
    var v := t[p := Stack(u, p)];
    ResolveElsewhere(u, v, n, x, |x|);
    ResolveElsewhere(v, t, p, x, |x|);
  }

  /** The only trace of a whole cycle is one more mount of the same root at the path. */
  lemma CycleStacks(t: Table, p: Path, n: Path)
    requires Stack(t, p) != [] && Encoded(p) == Ok(n)
    ensures Stack(Injected(t, p, n), p) != [] && Stack(Injected(t, p, n), n) != []
    ensures var u := Recovered(Injected(t, p, n), p, n);
      Stack(u, p) == Stack(t, p) + [Top(t, p)] && forall q :: q != p ==> Stack(u, q) == Stack(t, q)
  {
    hide Encoded, Injected, Recovered, Stack, Top;
    InjectedStacks(t, p, n);
    var v := Injected(t, p, n);
    LastOf(Stack(t, p), Fuse([]));
    LastOf(Stack(t, n), Top(t, p));
    assert Top(v, n) == Top(t, p) by { TopOf(v, n); }
    RecoveredStacks(v, p, n);
  }

  lemma LastOf(s: seq<Root>, r: Root)
    ensures s + [r] != [] && (s + [r])[..|s + [r]| - 1] == s && (s + [r])[|s|] == r
  {
  }

  lemma TopOf(t: Table, p: Path)
    requires Stack(t, p) != []
    ensures Top(t, p) == Stack(t, p)[|Stack(t, p)| - 1]
  {
  }

  /**
    A whole cycle on a mount point without submounts: every path names what it named before, and the
    stack of the encoded path is unchanged.
   */
  lemma CycleRestoresNames(t: Table, p: Path, n: Path)
    requires Stack(t, p) != [] && NoSubmounts(t, p) && Encoded(p) == Ok(n)
    ensures Stack(Injected(t, p, n), p) != [] && Stack(Injected(t, p, n), n) != []
    ensures var u := Recovered(Injected(t, p, n), p, n);
      Stack(u, n) == Stack(t, n) && forall x :: Resolve(u, x) == Resolve(t, x)
  {
    hide Encoded, Injected, Recovered, ResolveAt;
    EncodeGivesSibling(p);
    CycleStacks(t, p, n);
    var u := Recovered(Injected(t, p, n), p, n);
    forall x ensures Resolve(u, x) == Resolve(t, x) {
      SameTopSameNames(t, u, p, x);
    }
  }

  // ----- the code -----

  datatype Exit = Done(original: Path, encoded: Path) | Failed | Panicked

  const UMOUNT_TRIES := 21

  /** The mount table of the namespace; the kernel may refuse request number n. */
  class Namespace {
    var table: Table
    var requests: nat
    const refuses: nat -> bool

    constructor (table: Table, refuses: nat -> bool)
      ensures this.table == table && this.requests == 0 && this.refuses == refuses
    {
      this.table, this.requests, this.refuses := table, 0, refuses;
    }

    /** No request from number `n` on is refused. */
    ghost predicate Reliable(n: nat) {
      forall k :: n <= k ==> !refuses(k)
    }

    method Request() returns (ok: bool)
      modifies `requests
      ensures requests == old(requests) + 1 && ok == !refuses(old(requests))
    {
      ok := !refuses(requests);
      requests := requests + 1;
    }

    /** `non_root`: some mount point is a prefix of the path, the path itself included. */
    method NonRoot(path: Path) returns (found: bool)
      ensures found <==> OnMount(table, path)
    {
      var points := set q | q in table && table[q] != [];
      while points != {}
        invariant points <= set q | q in table && table[q] != []
        invariant forall q :: q in table && table[q] != [] && q !in points ==> !Under(path, q)
        decreases |points|
      {
        var q :| q in points;
        if Under(path, q) {
          return true;
        }
        points := points - {q};
      }
      return false;
    }

    /** mount --bind, without submounts */
    method Bind(source: Path, target: Path) returns (ok: bool)
      modifies this
      ensures ok <==> !refuses(old(requests)) && Resolve(old(table), source).Ok?
      ensures ok ==> table == Push(old(table), target, Resolve(old(table), source).value)
      ensures !ok ==> table == old(table)
      ensures requests == old(requests) + 1
    {
      ok := Request();
      var root := Resolve(table, source);
      if !ok || root.Err? {
        return false;
      }
      table := Push(table, target, root.value);
    }

    /** mount --move of the top mount */
    method MoveMount(source: Path, target: Path) returns (ok: bool)
      modifies this
      ensures ok <==> !refuses(old(requests)) && !refuses(old(requests) + 1) && Stack(old(table), source) != []
      ensures ok ==> table == Push(Pop(old(table), source), target, Top(old(table), source))
      ensures !ok ==> table == old(table)
      ensures requests >= old(requests)
    {
      ok := Request();   // create_dir_all
      if !ok {
        return;
      }
      ok := Request();
      if !ok || Stack(table, source) == [] {
        return false;
      }
      var top := Top(table, source);
      table := Pop(table, source);
      table := Push(table, target, top);
    }

    /** umount, tried again while it is refused */
    method Umount(path: Path) returns (ok: bool)
      modifies this
      ensures ok <==>
        && Stack(old(table), path) != []
        && exists k :: old(requests) <= k < old(requests) + UMOUNT_TRIES && !refuses(k)
      ensures ok ==> table == Pop(old(table), path)
      ensures !ok ==> table == old(table)
      ensures requests >= old(requests)
    {
      for i := 0 to UMOUNT_TRIES
        invariant table == old(table) && requests == old(requests) + i
        invariant Stack(table, path) == [] || forall k :: old(requests) <= k < requests ==> refuses(k)
      {
        ok := Request();
        if ok && Stack(table, path) != [] {
          table := Pop(table, path);
          return true;
        }
      }
      return false;
    }

    /** `bind_mount`: a failing bind panics; a source that cannot be unmounted leaves the bind in place. */
    method BindMount(source: Path, target: Path) returns (e: Exit)
      modifies this
      ensures e.Panicked? ==> table == old(table)
      ensures e.Failed? ==>
        Resolve(old(table), source).Ok? && table == Push(old(table), target, Resolve(old(table), source).value)
      ensures e.Done? ==>
        && Resolve(old(table), source).Ok?
        && var t := Push(old(table), target, Resolve(old(table), source).value);
          Stack(t, source) != [] && table == Pop(t, source)
      ensures e.Panicked? <==> refuses(old(requests)) || Resolve(old(table), source).Err?
      ensures Reliable(old(requests)) && Stack(old(table), source) != [] ==> e == Done(target, source)
      ensures requests >= old(requests)
    {
      if Stack(table, source) != [] {
        TopIsResolved(table, source);
      }
      var ok := Bind(source, target);
      if !ok {
        return Panicked;
      }
      assert Reliable(old(requests)) ==> !refuses(requests);
      ok := Umount(source);
      return if ok then Done(target, source) else Failed;
    }

    /**
      The mount steps of `inject`, FUSE coming up. Once FUSE is up the table is the injected one, even if the
      replacers then fail; before, every path names what it did, apart from those below the encoded path.
     */
    method Inject(path: Path) returns (e: Exit, fuse: bool)
      requires NoSubmounts(table, path)
      modifies this
      ensures e.Done? ==>
        && e.original == path && Encoded(path) == Ok(e.encoded) && Stack(old(table), path) != []
        && fuse
      ensures fuse ==>
        && Encoded(path).Ok? && Stack(old(table), path) != []
        && table == Injected(old(table), path, Encoded(path).value)
      ensures !fuse ==> !e.Done? && SameNamesOutside(old(table), table, Encoded(path))
      ensures Reliable(old(requests)) ==> (e.Done? <==> Stack(old(table), path) != [] && Encoded(path).Ok?)
      ensures requests >= old(requests)
    {
      hide ResolveAt, Resolve, OnMount, SameNamesOutside, NoSubmounts, Encoded;
      fuse := false;
      NothingRenamed(table, Encoded(path));
      // making the mount private fails when the path is no mount point
      var ok := Request();
      if !ok || Stack(table, path) == [] {
        return Panicked, false;
      }
      ghost var t0 := table;
      TopIsResolved(table, path);
      ok := Bind(path, path);
      if !ok {
        return Panicked, false;
      }
      BoundNames(t0, path, Encoded(path));
      ok := Request();   // preparing the replacers
      if !ok {
        return Failed, false;
      }
      var encoding := EncodePath(path);
      if encoding.Err? {
        return Failed, false;
      }
      var encoded := encoding.value.1;
      MountPointIsOnMount(table, path);
      var nonRoot := NonRoot(path);
      if !nonRoot {
        return Failed, false;
      }
      ok := MoveMount(path, encoded);
      if !ok {
        return Failed, false;
      }
      MovedNames(t0, path, encoded);
      ok := Request();   // building the injectors
      if !ok {
        return Failed, false;
      }
      table := Push(table, path, Fuse([]));
      fuse := true;
      ok := Request();   // running the replacers
      e := if ok then Done(path, encoded) else Failed;
    }

    /**
      `recover_mount`: FUSE is unmounted and its thread joined, then what was set aside is bound back. A failure
      on the way never loses what was set aside.
     */
    method RecoverMount(original: Path, encoded: Path) returns (e: Exit)
      requires Encoded(original) == Ok(encoded) && Stack(table, encoded) != []
      modifies this
      ensures e.Done? ==> Stack(old(table), original) != [] && table == Recovered(old(table), original, encoded)
      ensures !e.Done? ==>
        && Stack(table, encoded) == Stack(old(table), encoded)
        && (|| table == old(table)
            || (Stack(old(table), original) != [] && HalfRecovered(old(table), table, original, encoded)))
      ensures Reliable(old(requests)) ==>
        (e.Done? <==> Stack(old(table), original) != [] && OnMount(Pop(old(table), original), original))
    {
      assert Reliable(requests) ==> !refuses(requests);
      var ok := Umount(original);
      if !ok {
        return Failed;
      }
      ok := Request();   // joining the thread
      if !ok {
        return Failed;
      }
      var nonRoot := NonRoot(original);
      if !nonRoot {
        return Failed;
      }
      EncodeGivesSibling(original);
      TopIsResolved(table, encoded);
      e := BindMount(encoded, original);
    }

    /**
      `inject` and then `resume`: if both succeed, every path names what it named before. With nothing refused
      they succeed on every mount point whose name can be encoded.
     */
    method Cycle(path: Path) returns (e: Exit)
      requires NoSubmounts(table, path)
      modifies this
      ensures e.Done? ==>
        && (forall x :: Resolve(table, x) == Resolve(old(table), x))
        && Stack(old(table), path) != [] && Stack(table, path) == Stack(old(table), path) + [Top(old(table), path)]
        && (forall q :: q != path ==> Stack(table, q) == Stack(old(table), q))
      ensures Reliable(old(requests)) ==> (e.Done? <==> Stack(old(table), path) != [] && Encoded(path).Ok?)
    {
      var fuse;
      e, fuse := Inject(path);
      if !e.Done? {
        return;
      }
      ghost var t0 := old(table);
      var encoding := EncodePath(path);
      var encoded := encoding.value.1;
      CycleStacks(t0, path, encoded);
      CycleRestoresNames(t0, path, encoded);
      InjectedOnMount(t0, path, encoded);
      e := RecoverMount(path, encoded);
    }
  }

  lemma MountPointIsOnMount(t: Table, p: Path)
    requires Stack(t, p) != []
    ensures OnMount(t, p)
  {
    assert Under(p, p);
  }

  /** What FUSE covered is a mount point still, so `recover_mount` does not take it for the root. */
  lemma InjectedOnMount(t: Table, p: Path, n: Path)
    requires Stack(t, p) != [] && Encoded(p) == Ok(n)
    ensures Stack(Injected(t, p, n), p) != [] && OnMount(Pop(Injected(t, p, n), p), p)
  {
    hide Encoded, Injected;
    InjectedStacks(t, p, n);
    var u := Pop(Injected(t, p, n), p);
    assert u[p] == Stack(t, p);
    assert Under(p, p);
  }

  /** Binding a mount point to itself renames nothing. */
  lemma BoundNames(t: Table, p: Path, n: Result<Path>)
    requires Stack(t, p) != [] && NoSubmounts(t, p)
    ensures SameNamesOutside(t, Push(t, p, Top(t, p)), n)
  {
    forall x ensures Resolve(Push(t, p, Top(t, p)), x) == Resolve(t, x) {
      SameTopSameNames(t, Push(t, p, Top(t, p)), p, x);
    }
  }

  /** Moving that bind aside renames nothing outside its new place. */
  lemma MovedNames(t: Table, p: Path, n: Path)
    requires Stack(t, p) != [] && NoSubmounts(t, p) && Encoded(p) == Ok(n)
    ensures SameNamesOutside(t, Push(Pop(Push(t, p, Top(t, p)), p), n, Top(t, p)), Ok(n))
  {
    hide Encoded;
    EncodeGivesSibling(p);
    var u := Push(Pop(Push(t, p, Top(t, p)), p), n, Top(t, p));
    assert Stack(u, p) == Stack(t, p);
    forall x | !Under(x, n) ensures Resolve(u, x) == Resolve(t, x) {
      ResolveElsewhere(u, t, n, x, |x|);
    }
  }

  lemma NothingRenamed(t: Table, n: Result<Path>)
    ensures SameNamesOutside(t, t, n)
  {
  }
}
