/**
  src/hookfs/mod.rs: reference counts against the kernel's own lookup counts. Every change of the table is
  made under its write lock, so an operation is one event; replies travel and forgets wait on their own.
 */
module InodeRefs {
  import opened Paths
  import opened InodeMap

  datatype Forget = Forget(ino: Ino, nlookup: nat)

  /**
    `held` is what the kernel counts, `replies` the entry replies it has not received yet and `forgets`
    the forget tasks it has sent that have not run yet.
   */
  datatype State = State(nodes: Nodes, held: map<Ino, nat>, replies: multiset<Ino>, forgets: seq<Forget>)

  datatype Event =
    // lookup, mknod, mkdir, symlink, link and create; the reply may still be turned into an error
    | Enter(ino: Ino, path: Path, replied: bool)
    | Unlink(ino: Ino, path: Path)
    | Rename(ino: Ino, from: Path, to: Path)
    | Deliver(ino: Ino)
    | Lose(ino: Ino)
    | SendForget(ino: Ino, nlookup: nat)
    | RunForget(k: nat)

  function Held(s: State, i: Ino): nat {
    if i in s.held then s.held[i] else 0
  }

  predicate Enabled(s: State, e: Event) {
    match e
    case Enter(_, _, _) => true
    case Unlink(_, _) => true
    case Rename(_, _, _) => true
    case Deliver(i) => i in s.replies
    case Lose(i) => i in s.replies
    case SendForget(i, n) => 1 <= n <= Held(s, i)
    case RunForget(k) => k < |s.forgets|
  }

  function Apply(s: State, e: Event): State
    requires Enabled(s, e)
  {
    match e
    case Enter(i, p, replied) =>
      s.(nodes := Referenced(WithPath(s.nodes, i, p), i),
         replies := if replied then s.replies + multiset{i} else s.replies)
    case Unlink(i, p) => s.(nodes := WithoutPath(s.nodes, i, p))
    case Rename(i, from, to) => s.(nodes := WithPath(WithoutPath(s.nodes, i, from), i, to))
    case Deliver(i) => s.(replies := s.replies - multiset{i}, held := s.held[i := Held(s, i) + 1])
    case Lose(i) => s.(replies := s.replies - multiset{i})
    case SendForget(i, n) =>
      s.(held := s.held[i := Held(s, i) - n], forgets := s.forgets + [Forget(i, n)])
    case RunForget(k) =>
      var f := s.forgets[k];
      s.(nodes := Forgotten(s.nodes, f.ino, f.nlookup), forgets := s.forgets[..k] + s.forgets[k + 1..])
  }

  // ----- references -----

  function Pending(fs: seq<Forget>, i: Ino): nat {
    if fs == [] then 0 else (if fs[0].ino == i then fs[0].nlookup else 0) + Pending(fs[1..], i)
  }

  lemma {:induction false} PendingConcat(a: seq<Forget>, b: seq<Forget>, i: Ino)
    ensures Pending(a + b, i) == Pending(a, i) + Pending(b, i)
  {
    if a == [] {
      assert a + b == b;
    } else {
      assert (a + b)[1..] == a[1..] + b;
      PendingConcat(a[1..], b, i);
    }
  }

  lemma PendingWithout(fs: seq<Forget>, k: nat, i: Ino)
    requires k < |fs|
    ensures Pending(fs, i) == Pending(fs[..k] + fs[k + 1..], i) + if fs[k].ino == i then fs[k].nlookup else 0
  {
    assert fs == fs[..k] + fs[k..] && fs[k..][1..] == fs[k + 1..];
    PendingConcat(fs[..k], fs[k..], i);
    PendingConcat(fs[..k], fs[k + 1..], i);
  }

  /** Every reference to an inode that is still somewhere: with the kernel, on its way there, or on its way back. */
  function References(s: State, i: Ino): nat {
    Held(s, i) + s.replies[i] + Pending(s.forgets, i)
  }

  ghost predicate Covered(s: State) {
    forall i :: References(s, i) <= NodeOf(s.nodes, i).refCount
  }

  predicate Initial(s: State) {
    && s.held == map[] && s.replies == multiset{} && s.forgets == []
    && forall i :: i in s.nodes ==> i == ROOT && s.nodes[i].refCount == 0
  }

  lemma EnterKeepsCovered(s: State, e: Event)
    requires Covered(s) && e.Enter?
    ensures Covered(Apply(s, e))
  {
    var t := Apply(s, e);
    forall i ensures References(t, i) <= NodeOf(t.nodes, i).refCount {
      assert References(s, i) <= NodeOf(s.nodes, i).refCount;
    }
  }

  lemma SendKeepsReferences(s: State, e: Event, i: Ino)
    requires Enabled(s, e) && (e.SendForget? || e.Deliver?)
    ensures References(Apply(s, e), i) == References(s, i)
  {
    if e.SendForget? {
      PendingConcat(s.forgets, [Forget(e.ino, e.nlookup)], i);
    }
  }

  /** A forget that runs takes its own references away and no others. */
  lemma RunTakesItsOwn(s: State, k: nat, i: Ino)
    requires k < |s.forgets|
    ensures References(s, i) ==
      References(Apply(s, RunForget(k)), i) + if s.forgets[k].ino == i then s.forgets[k].nlookup else 0
  {
    PendingWithout(s.forgets, k, i);
  }

  lemma StepKeepsCovered(s: State, e: Event)
    requires Covered(s) && Enabled(s, e)
    ensures Covered(Apply(s, e))
  {
    var t := Apply(s, e);
    if e.Enter? {
      EnterKeepsCovered(s, e);
    } else {
      forall i ensures References(t, i) <= NodeOf(t.nodes, i).refCount {
        assert References(s, i) <= NodeOf(s.nodes, i).refCount;
        match e {
          case Deliver(_) => SendKeepsReferences(s, e, i);
          case SendForget(_, _) => SendKeepsReferences(s, e, i);
          case RunForget(k) => RunTakesItsOwn(s, k, i);
          case Unlink(_, _) =>
          case Rename(_, _, _) =>
          case Lose(_) =>
        }
      }
    }
  }

  // ----- whole runs -----

  ghost predicate Legal(s: State, es: seq<Event>)
    decreases |es|
  {
    es == [] || (Enabled(s, es[0]) && Legal(Apply(s, es[0]), es[1..]))
  }

  function After(s: State, es: seq<Event>): State
    requires Legal(s, es)
    decreases |es|
  {
    if es == [] then s else After(Apply(s, es[0]), es[1..])
  }

  lemma {:induction false} RunKeepsCovered(s: State, es: seq<Event>)
    requires Covered(s) && Legal(s, es)
    ensures Covered(After(s, es))
    decreases |es|
  {
    if es != [] {
      StepKeepsCovered(s, es[0]);
      RunKeepsCovered(Apply(s, es[0]), es[1..]);
    }
  }

  /**
    After every interleaving of entries, replies and forgets: the count of a node is at least the references
    to its inode, and an inode that is referenced from anywhere has a node.
   */
  lemma CountCoversReferences(s: State, es: seq<Event>, i: Ino)
    requires Initial(s) && Legal(s, es)
    ensures var t := After(s, es);
      References(t, i) <= NodeOf(t.nodes, i).refCount && (References(t, i) > 0 ==> i in t.nodes)
  {
    RunKeepsCovered(s, es);
  }

  /**
    The only event that removes a node is a forget, it removes that inode's node alone, and then no
    reference to the inode remains. It removes the node exactly when it carries the whole count.
   */
  lemma RemovedOnlyWhenUnreferenced(s: State, es: seq<Event>, e: Event, i: Ino)
    requires Initial(s) && Legal(s, es) && Enabled(After(s, es), e)
    requires i in After(s, es).nodes
    ensures var before := After(s, es);
      var after := Apply(before, e);
      && (i !in after.nodes ==> e.RunForget? && before.forgets[e.k].ino == i && References(after, i) == 0)
      && (e.RunForget? && before.forgets[e.k].ino == i ==>
            (i !in after.nodes <==> before.forgets[e.k].nlookup == before.nodes[i].refCount))
  {
    RunKeepsCovered(s, es);
    var before := After(s, es);
    if e.RunForget? {
      RunTakesItsOwn(before, e.k, i);
      assert References(before, i) <= NodeOf(before.nodes, i).refCount;
    }
  }

  /** The root is in the table from the start and stays there while no entry reply carries its number. */
  lemma {:induction false} RootStays(s: State, es: seq<Event>)
    requires ROOT in s.nodes && References(s, ROOT) == 0 && forall f :: f in s.forgets ==> f.ino != ROOT
    requires Legal(s, es) && forall e :: e in es && e.Enter? ==> e.ino != ROOT
    ensures ROOT in After(s, es).nodes
    decreases |es|
  {
    if es != [] {
      var t := Apply(s, es[0]);
      match es[0] {
        case SendForget(_, _) => SendKeepsReferences(s, es[0], ROOT);
        case Deliver(_) => SendKeepsReferences(s, es[0], ROOT);
        case RunForget(k) =>
          RunTakesItsOwn(s, k, ROOT);
          assert s.forgets[k] in s.forgets;
        case Enter(_, _, _) =>
        case Unlink(_, _) =>
        case Rename(_, _, _) =>
        case Lose(_) =>
      }
      RootStays(t, es[1..]);
    }
  }

  lemma StepKeepsLeak(s: State, e: Event, i: Ino)
    requires Enabled(s, e) && i in s.nodes && References(s, i) < s.nodes[i].refCount
    ensures var t := Apply(s, e);
      i in t.nodes && References(t, i) < t.nodes[i].refCount
  {
    match e {
      case SendForget(_, _) => SendKeepsReferences(s, e, i);
      case Deliver(_) => SendKeepsReferences(s, e, i);
      case RunForget(k) => RunTakesItsOwn(s, k, i);
      case Enter(_, _, _) =>
      case Unlink(_, _) =>
      case Rename(_, _, _) =>
      case Lose(_) =>
    }
  }

  /** A count above the references stays above them, and no forget can remove the node any more. */
  lemma {:induction false} LeakIsForever(s: State, es: seq<Event>, i: Ino)
    requires Legal(s, es) && i in s.nodes && References(s, i) < s.nodes[i].refCount
    ensures i in After(s, es).nodes && References(After(s, es), i) < After(s, es).nodes[i].refCount
    decreases |es|
  {
    hide Apply, Enabled, References;
    if es != [] {
      StepKeepsLeak(s, es[0], i);
      LeakIsForever(Apply(s, es[0]), es[1..], i);
    }
  }

  // ----- when a node leaks -----

  /** The count of an inode is exactly its references. */
  predicate Exact(s: State, i: Ino) {
    NodeOf(s.nodes, i).refCount == References(s, i)
  }

  /** A reference counted that the kernel never gets, a reply that is lost, or a forget of part of the count. */
  predicate Wastes(s: State, e: Event, i: Ino)
    requires Enabled(s, e)
  {
    match e
    case Enter(j, _, replied) => j == i && !replied
    case Lose(j) => j == i
    case RunForget(k) => s.forgets[k].ino == i && s.forgets[k].nlookup < NodeOf(s.nodes, i).refCount
    case Unlink(_, _) => false
    case Rename(_, _, _) => false
    case Deliver(_) => false
    case SendForget(_, _) => false
  }

  /** No forget is empty. */
  predicate Full(s: State) {
    forall f :: f in s.forgets ==> f.nlookup >= 1
  }

  lemma StepKeepsFull(s: State, e: Event)
    requires Full(s) && Enabled(s, e)
    ensures Full(Apply(s, e))
  {
  }

  /** An exact count stays exact in every step but a wasteful one. */
  lemma ExactStep(s: State, e: Event, i: Ino)
    requires Enabled(s, e) && Full(s) && Exact(s, i)
    ensures Exact(Apply(s, e), i) <==> !Wastes(s, e, i)
  {
    match e {
      case SendForget(_, _) => SendKeepsReferences(s, e, i);
      case Deliver(_) => SendKeepsReferences(s, e, i);
      case RunForget(k) =>
        RunTakesItsOwn(s, k, i);
        assert s.forgets[k] in s.forgets;
      case Enter(_, _, _) =>
      case Unlink(_, _) =>
      case Rename(_, _, _) =>
      case Lose(_) =>
    }
  }

  ghost predicate NeverWastes(s: State, es: seq<Event>, i: Ino)
    requires Legal(s, es)
    decreases |es|
  {
    es == [] || (!Wastes(s, es[0], i) && NeverWastes(Apply(s, es[0]), es[1..], i))
  }

  lemma {:induction false} ExactIffNeverWastes(s: State, es: seq<Event>, i: Ino)
    requires Covered(s) && Full(s) && Exact(s, i) && Legal(s, es)
    ensures Exact(After(s, es), i) <==> NeverWastes(s, es, i)
    decreases |es|
  {
    hide Apply, Enabled, Wastes, Full;
    if es != [] {
      var t := Apply(s, es[0]);
      StepKeepsCovered(s, es[0]);
      StepKeepsFull(s, es[0]);
      ExactStep(s, es[0], i);
      if Exact(t, i) {
        ExactIffNeverWastes(t, es[1..], i);
      } else {
        assert References(t, i) < NodeOf(t.nodes, i).refCount;
        LeakIsForever(t, es[1..], i);
      }
    }
  }

  /**
    In every run from the start, the count of an inode equals its references exactly when nothing was wasted
    on it so far. Otherwise the count is above them for good and the node stays in every continuation.
   */
  lemma LeaksIffWasted(s: State, es: seq<Event>, more: seq<Event>, i: Ino)
    requires Initial(s) && Legal(s, es) && Legal(After(s, es), more)
    ensures Exact(After(s, es), i) <==> NeverWastes(s, es, i)
    ensures !NeverWastes(s, es, i) ==> i in After(After(s, es), more).nodes
  {
    hide Apply, Enabled, Wastes, Legal, After, NeverWastes;
    ExactIffNeverWastes(s, es, i);
    RunKeepsCovered(s, es);
    var t := After(s, es);
    if !Exact(t, i) {
      assert References(t, i) < NodeOf(t.nodes, i).refCount;
      LeakIsForever(t, more, i);
    }
  }

  lemma OneStep(s: State, e: Event, t: State, es: seq<Event>) returns (all: seq<Event>)
    requires Enabled(s, e) && t == Apply(s, e) && Legal(t, es)
    ensures all == [e] + es && Legal(s, all) && After(s, all) == After(t, es)
  {
    all := [e] + es;
    assert all[1..] == es;
  }

  lemma NoStep(s: State)
    ensures Legal(s, []) && After(s, []) == s
  {
  }

  /** The node of `i` has a count of two and the kernel holds `held` references. */
  function Counted(i: Ino, p: Path, held: nat, forgets: seq<Forget>): State {
    State(map[i := Node(2, [p])], map[i := held], multiset{}, forgets)
  }

  /** Two replies on their way, none held. */
  function Replied(i: Ino, p: Path): State {
    State(map[i := Node(2, [p])], map[], multiset{i, i}, [])
  }

  lemma TwoEntries(i: Ino, p: Path, more: seq<Event>) returns (es: seq<Event>)
    requires Legal(Replied(i, p), more)
    ensures var s := State(map[], map[], multiset{}, []);
      Legal(s, es) && After(s, es) == After(Replied(i, p), more)
  {
    hide Legal, After;
    var s := State(map[], map[], multiset{}, []);
    var s1 := State(map[i := Node(1, [p])], map[], multiset{i}, []);
    assert Fresh.paths + [p] == [p];
    assert Apply(s, Enter(i, p, true)) == s1;
    assert Apply(s1, Enter(i, p, true)) == Replied(i, p);
    es := OneStep(s1, Enter(i, p, true), Replied(i, p), more);
    es := OneStep(s, Enter(i, p, true), s1, es);
  }

  lemma TwoDeliveries(i: Ino, p: Path, more: seq<Event>) returns (es: seq<Event>)
    requires Legal(Counted(i, p, 2, []), more)
    ensures Legal(Replied(i, p), es) && After(Replied(i, p), es) == After(Counted(i, p, 2, []), more)
  {
    hide Legal, After;
    var s1 := Counted(i, p, 1, []).(replies := multiset{i});
    assert Apply(Replied(i, p), Deliver(i)) == s1;
    assert Apply(s1, Deliver(i)) == Counted(i, p, 2, []);
    es := OneStep(s1, Deliver(i), Counted(i, p, 2, []), more);
    es := OneStep(Replied(i, p), Deliver(i), s1, es);
  }

  /** One of the references is forgotten; the count stays at two. */
  lemma OneForgotten(i: Ino, p: Path, held: nat, more: seq<Event>) returns (es: seq<Event>)
    requires held >= 1 && Legal(Counted(i, p, held - 1, []), more)
    ensures Legal(Counted(i, p, held, []), es)
    ensures After(Counted(i, p, held, []), es) == After(Counted(i, p, held - 1, []), more)
  {
    hide Legal, After;
    var s, t := Counted(i, p, held, []), Counted(i, p, held - 1, []);
    var s1 := Counted(i, p, held - 1, [Forget(i, 1)]);
    assert s.forgets + [Forget(i, 1)] == s1.forgets && s.held[i := held - 1] == s1.held;
    assert s1.forgets[..0] + s1.forgets[1..] == [];
    es := OneStep(s1, RunForget(0), t, more);
    es := OneStep(s, SendForget(i, 1), s1, es);
  }

  /** It happens: two lookups, forgotten one by one, leave a node that nothing refers to and nothing can remove. */
  lemma ForgetInPartsLeaks(i: Ino, p: Path)
    ensures exists s, es ::
      Initial(s) && Legal(s, es) && References(After(s, es), i) == 0 && i in After(s, es).nodes
  {
    hide Legal, After;
    var last := Counted(i, p, 0, []);
    NoStep(last);
    var es := OneForgotten(i, p, 1, []);
    es := OneForgotten(i, p, 2, es);
    es := TwoDeliveries(i, p, es);
    es := TwoEntries(i, p, es);
    assert References(last, i) == 0;
  }
}
