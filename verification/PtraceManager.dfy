/** src/ptrace/mod.rs: the reference counts that decide when a process is attached and detached. */
module PtraceManager {

  const I32_MAX: int := 0x7fff_ffff

  type Counter = map<int, int>

  /** An i32 addition that wraps. */
  function Increment(x: int): int {
    if x == I32_MAX then -I32_MAX - 1 else x + 1
  }

  // ----- what the two operations do to the counter -----

  /** `attached` is the outcome of the attach loop, which only a first trace runs. */
  function Traced(c: Counter, pid: int, attached: bool): Counter
  {
    if pid in c then c[pid := Increment(c[pid])]
    else if attached then c[pid := 1]
    else c
  }

  function Detached(c: Counter, pid: int): Counter
  {
    if pid !in c then c
    else if c[pid] - 1 < 1 then c - {pid}
    else c[pid := c[pid] - 1]
  }

  datatype DetachResult = Detachment | NotTraced | GaveUp

  const RETRIES := 20

  class Manager {
    var counter: Counter

    constructor ()
      ensures counter == map[]
    {
      counter := map[];
    }

    /** Attaches only if the process is not traced yet; a failed attach leaves no count behind. */
    method Trace(pid: int, attached: bool) returns (ok: bool, attempted: bool)
      modifies this
      ensures counter == Traced(old(counter), pid, attached)
      ensures attempted <==> pid !in old(counter)
      ensures ok <==> pid in counter
      ensures ok <==> attached || pid in old(counter)
    {
      if pid in counter {
        counter := counter[pid := Increment(counter[pid])];
        return true, false;
      }
      if !attached {
        return false, true;
      }
      counter := counter[pid := 1];
      return true, true;
    }

    /** The count goes down before the kernel is asked; `answers(n)` is whether try number n gets through. */
    method Detach(pid: int, answers: nat -> bool) returns (r: DetachResult, tries: nat)
      modifies this
      ensures counter == Detached(old(counter), pid)
      ensures tries > 0 <==> pid in old(counter) && old(counter)[pid] <= 1
      ensures tries <= RETRIES + 1
      ensures r.NotTraced? <==> pid !in old(counter)
      ensures r.GaveUp? <==> tries > 0 && forall n :: 0 <= n <= RETRIES ==> !answers(n)
      ensures forall n :: 0 <= n < tries - 1 ==> !answers(n)
      ensures r.GaveUp? ==> tries == RETRIES + 1
      ensures r.Detachment? && tries > 0 ==> answers(tries - 1)
    {
      tries := 0;
      if pid !in counter {
        return NotTraced, 0;
      }
      var count := counter[pid] - 1;
      if count >= 1 {
        counter := counter[pid := count];
        return Detachment, 0;
      }
      counter := counter - {pid};
      while tries <= RETRIES
        invariant 0 <= tries <= RETRIES + 1
        invariant forall n :: 0 <= n < tries ==> !answers(n)
        invariant counter == Detached(old(counter), pid)
      {
        tries := tries + 1;
        if answers(tries - 1) {
          return Detachment, tries;
        }
      }
      return GaveUp, tries;
    }
  }

  // ----- handles over whole runs -----

  /** The TracedProcess values alive, by identity; `attaches` and `detaches` list the kernel requests. */
  datatype System = System(
    counter: Counter, handles: map<nat, int>, next: nat,
    attaches: seq<int>, detaches: seq<int>, panicked: bool)

  datatype Event =
    | Trace(pid: int, attached: bool)
    | Clone(handle: nat, attached: bool)
    | Drop(handle: nat)

  const Init := System(map[], map[], 0, [], [], false)

  function TraceBy(s: System, pid: int, attached: bool): System
  {
    var c := Traced(s.counter, pid, attached);
    var t := s.(counter := c, attaches := if pid in s.counter then s.attaches else s.attaches + [pid]);
    if pid in c then t.(handles := s.handles[s.next := pid], next := s.next + 1) else t
  }

  /** Cloning unwraps the result of a trace; dropping detaches. Only live handles can be used. */
  function Apply(s: System, e: Event): System
  {
    match e
    case Trace(pid, attached) => TraceBy(s, pid, attached)
    case Clone(h, attached) =>
      if h !in s.handles then s
      else
        var t := TraceBy(s, s.handles[h], attached);
        t.(panicked := s.panicked || s.handles[h] !in t.counter)
    case Drop(h) =>
      if h !in s.handles then s
      else
        var pid := s.handles[h];
        s.(counter := Detached(s.counter, pid), handles := s.handles - {h},
           detaches := if pid in s.counter && s.counter[pid] <= 1 then s.detaches + [pid] else s.detaches)
  }

  function Live(handles: map<nat, int>, pid: int): set<nat> {
    set h | h in handles && handles[h] == pid
  }

  /** The count of a process is its number of live handles, and it is kept exactly while there is one. */
  ghost predicate Balanced(s: System) {
    && (forall pid :: pid in s.counter <==> Live(s.handles, pid) != {})
    && (forall pid :: pid in s.counter ==> s.counter[pid] == |Live(s.handles, pid)| <= s.next)
    && (forall h :: h in s.handles ==> h < s.next)
    && !s.panicked
  }

  function After(s: System, es: seq<Event>): System
    decreases |es|
  {
    if es == [] then s else After(Apply(s, es[0]), es[1..])
  }

  lemma LiveAfterInsert(handles: map<nat, int>, h: nat, pid: int, q: int)
    requires h !in handles
    ensures Live(handles[h := pid], q) == Live(handles, q) + if q == pid then {h} else {}
  {
  }

  lemma LiveAfterRemove(handles: map<nat, int>, h: nat, q: int)
    requires h in handles
    ensures Live(handles - {h}, q) == Live(handles, q) - {h}
    ensures h in Live(handles, q) <==> q == handles[h]
  {
  }

  /** A trace that succeeds adds one handle and one count; it attaches only for the first handle. */
  lemma TraceBalances(s: System, pid: int, attached: bool)
    requires Balanced(s) && s.next < I32_MAX
    ensures Balanced(TraceBy(s, pid, attached))
    ensures Live(s.handles, pid) != {} ==> pid in TraceBy(s, pid, attached).counter
  {
    var t := TraceBy(s, pid, attached);
    if pid in t.counter {
      forall q
        ensures q in t.counter <==> Live(t.handles, q) != {}
        ensures q in t.counter ==> t.counter[q] == |Live(t.handles, q)| <= t.next
      {
        LiveAfterInsert(s.handles, s.next, pid, q);
      }
    }
  }

  lemma DropBalances(s: System, h: nat)
    requires Balanced(s) && h in s.handles
    ensures Balanced(Apply(s, Drop(h)))
    ensures var pid := s.handles[h];
      Apply(s, Drop(h)).detaches == s.detaches + if Live(s.handles, pid) == {h} then [pid] else []
  {
    var t, pid := Apply(s, Drop(h)), s.handles[h];
    LiveAfterRemove(s.handles, h, pid);
    forall q
      ensures q in t.counter <==> Live(t.handles, q) != {}
      ensures q in t.counter ==> t.counter[q] == |Live(t.handles, q)| <= t.next
    {
      LiveAfterRemove(s.handles, h, q);
    }
    var live := Live(s.handles, pid);
    if |live| == 1 {
      assert live - {h} == {};
      assert live == {h};
    }
  }

  lemma StepBalances(s: System, e: Event)
    requires Balanced(s) && s.next < I32_MAX
    ensures Balanced(Apply(s, e)) && Apply(s, e).next <= s.next + 1
  {
    match e {
      case Trace(pid, attached) => TraceBalances(s, pid, attached);
      case Clone(h, attached) =>
        if h in s.handles {
          assert h in Live(s.handles, s.handles[h]);
          TraceBalances(s, s.handles[h], attached);
        }
      case Drop(h) => if h in s.handles { DropBalances(s, h); }
    }
  }

  /**
    Over every sequence of traces, clones and drops, including failing attaches: the counter of a
    process is its number of live handles and is present exactly while there is one, and no clone panics.
   */
  lemma {:induction false} CounterCountsHandles(s: System, es: seq<Event>)
    requires Balanced(s) && s.next + |es| <= I32_MAX
    ensures Balanced(After(s, es))
    decreases |es|
  {
    if es != [] {
      StepBalances(s, es[0]);
      CounterCountsHandles(Apply(s, es[0]), es[1..]);
    }
  }

  /** In particular from the start, for as many events as an i32 can count. */
  lemma EveryRunIsBalanced(es: seq<Event>, pid: int)
    requires |es| <= I32_MAX
    ensures var s := After(Init, es);
      && (pid in s.counter <==> Live(s.handles, pid) != {}) && !s.panicked
      && (pid in s.counter ==> s.counter[pid] == |Live(s.handles, pid)|)
  {
    CounterCountsHandles(Init, es);
  }

  // ----- what each event does to the live handles -----

  /** The process that gets a handle from `e`: one that is traced already or attaches, or that of a live handle that is cloned. */
  function Taken(s: System, e: Event): set<int> {
    match e
    case Trace(pid, attached) => if Live(s.handles, pid) != {} || attached then {pid} else {}
    case Clone(h, _) => if h in s.handles then {s.handles[h]} else {}
    case Drop(_) => {}
  }

  /** The process that loses a handle. */
  function Dropped(s: System, e: Event): set<int> {
    if e.Drop? && e.handle in s.handles then {s.handles[e.handle]} else {}
  }

  function One(pids: set<int>, pid: int): int {
    if pid in pids then 1 else 0
  }

  /** A trace or clone that succeeds gives its process one handle, a drop takes one, and no other process is touched. */
  lemma HandlesPerEvent(s: System, e: Event, pid: int)
    requires Balanced(s)
    ensures |Live(Apply(s, e).handles, pid)| == |Live(s.handles, pid)| + One(Taken(s, e), pid) - One(Dropped(s, e), pid)
  {
    match e {
      case Trace(p, _) => LiveAfterInsert(s.handles, s.next, p, pid);
      case Clone(h, _) =>
        if h in s.handles {
          assert h in Live(s.handles, s.handles[h]);
          LiveAfterInsert(s.handles, s.next, s.handles[h], pid);
        }
      case Drop(h) => if h in s.handles { LiveAfterRemove(s.handles, h, pid); }
    }
  }

  /** How many handles a run has given to a process, less those it has dropped. */
  function Net(s: System, es: seq<Event>, pid: int): int
    decreases |es|
  {
    if es == [] then 0
    else One(Taken(s, es[0]), pid) - One(Dropped(s, es[0]), pid) + Net(Apply(s, es[0]), es[1..], pid)
  }

  lemma {:induction false} NetFrom(s: System, es: seq<Event>, pid: int)
    requires Balanced(s) && s.next + |es| <= I32_MAX
    ensures |Live(After(s, es).handles, pid)| == |Live(s.handles, pid)| + Net(s, es, pid)
    decreases |es|
  {
    if es != [] {
      hide Balanced, Live, Apply, Taken, Dropped;
      HandlesPerEvent(s, es[0], pid);
      StepBalances(s, es[0]);
      NetFrom(Apply(s, es[0]), es[1..], pid);
    }
  }

  /** In every run, the count of a process is what was taken for it less what was dropped, and zero means no entry. */
  lemma CountIsTakenLessDropped(es: seq<Event>, pid: int)
    requires |es| <= I32_MAX
    ensures var c, n := After(Init, es).counter, Net(Init, es, pid);
      (pid in c <==> n > 0) && (pid in c ==> c[pid] == n) && n >= 0
  {
    EveryRunIsBalanced(es, pid);
    NetFrom(Init, es, pid);
    assert Live(Init.handles, pid) == {};
    var live := Live(After(Init, es).handles, pid);
    if |live| == 0 { assert live == {}; }
  }

  /** The kernel is asked to detach exactly when the last handle of a process is dropped, and never otherwise. */
  lemma DetachOnLastDrop(s: System, e: Event)
    requires Balanced(s) && s.next < I32_MAX
    ensures Apply(s, e).detaches == s.detaches +
      if e.Drop? && e.handle in s.handles && Live(s.handles, s.handles[e.handle]) == {e.handle}
      then [s.handles[e.handle]] else []
  {
    if e.Drop? && e.handle in s.handles {
      DropBalances(s, e.handle);
    }
  }

  /** The kernel is asked to attach exactly when a process without a handle is traced. */
  lemma AttachOnFirstTrace(s: System, e: Event)
    requires Balanced(s)
    ensures Apply(s, e).attaches == s.attaches + if e.Trace? && Live(s.handles, e.pid) == {} then [e.pid] else []
  {
    if e.Clone? && e.handle in s.handles {
      assert e.handle in Live(s.handles, s.handles[e.handle]);
    }
  }
}
