/**
  src/ptrace/mod.rs, the attach loop of `trace`, running against a process whose threads may spawn and
  exit between any two of its actions. The loop need not end, so it is a state machine over runs.
 */
module StopTheWorld {
  import opened Intervals

  type Tid = int

  datatype Thread = Running | Stopped

  /** Where the loop is: before a listing, working through one, or finished. */
  datatype Phase = Top | Pass(queue: seq<Tid>) | Done | Failed

  /**
    `threads` are the live threads and `used` every tid that ever existed. `listed` and `before` are the
    listing of the current pass and what was traced when it was taken; `trouble` is set when a
    task of the pass could not be attached or read.
   */
  datatype State = State(
    threads: map<Tid, Thread>, used: set<Tid>,
    phase: Phase, iterations: nat, passes: nat, traced: set<Tid>, found: bool,
    listed: set<Tid>, before: set<Tid>, trouble: bool)

  datatype Outcome = Attached | Refused

  datatype Event =
    | Spawn(parent: Tid, child: Tid)
    | Exit(tid: Tid)
    | List(tasks: seq<Tid>)
    | ListFails
    | Visit(outcome: Outcome)
    | EndPass

  function Elements(q: seq<Tid>): set<Tid> {
    set t | t in q
  }

  predicate Initial(s: State) {
    && s.threads.Keys <= s.used && (forall t :: t in s.threads ==> s.threads[t] == Running)
    && s.phase == Top && s.iterations == 2 && s.passes == 0 && s.traced == {}
    && !s.found && s.listed == {} && s.before == {} && !s.trouble
  }

  /** Only a running thread spawns, a tid is never reused, and a listing is a snapshot of the live threads. */
  predicate Enabled(s: State, e: Event) {
    match e
    case Spawn(parent, child) => parent in s.threads && s.threads[parent] == Running && child !in s.used
    case Exit(tid) => tid in s.threads
    case List(tasks) => s.phase == Top && Elements(tasks) == s.threads.Keys
    case ListFails => s.phase == Top
    case Visit(_) => s.phase.Pass? && s.phase.queue != []
    case EndPass => s.phase == Pass([])
  }

  function Apply(s: State, e: Event): State
    requires Enabled(s, e)
  {
    match e
    case Spawn(_, child) => s.(threads := s.threads[child := Running], used := s.used + {child})
    case Exit(tid) => s.(threads := s.threads - {tid})
    case List(tasks) =>
      s.(phase := Pass(tasks), found := false, listed := Elements(tasks), before := s.traced, trouble := false)
    case ListFails => s.(phase := Failed)
    case Visit(outcome) =>
      var t := s.phase.queue[0];
      var s1 := s.(phase := Pass(s.phase.queue[1..]));
      if t in s.traced then s1
      else if outcome == Refused then s1.(trouble := true)
      else
        // a task that is gone by now also counts as attached
        s1.(traced := s.traced + {t}, found := true,
            threads := if t in s.threads then s.threads[t := Stopped] else s.threads)
    case EndPass =>
      var left := if s.found || s.iterations == 0 then s.iterations else s.iterations - 1;
      s.(iterations := left, passes := s.passes + 1, phase := if left == 0 then Done else Top)
  }

  predicate AllStopped(s: State) {
    forall t :: t in s.threads ==> s.threads[t] == Stopped
  }

  // ----- what every step keeps -----

  ghost predicate Inv(s: State) {
    && s.threads.Keys <= s.used && s.traced <= s.used && s.listed <= s.used
    && (forall t :: t in s.threads ==> (s.threads[t] == Stopped <==> t in s.traced))
    && (s.phase.Top? || s.phase.Pass? ==> s.iterations > 0)
    && (s.phase.Pass? ==> InPass(s))
    && (!s.phase.Pass? ==> s.passes + s.iterations <= |s.traced| + 2)
    && (s.phase.Done? && !s.trouble ==> AllStopped(s))
  }

  /** In a pass: nothing new means nothing added, and a listing full of old tasks found no thread running. */
  ghost predicate InPass(s: State)
    requires s.phase.Pass?
  {
    && s.before <= s.traced && Elements(s.phase.queue) <= s.listed
    && (s.found ==> s.before != s.traced) && (!s.found ==> s.before == s.traced)
    && (!s.found && !s.trouble ==> s.listed - Elements(s.phase.queue) <= s.before)
    && (s.listed <= s.before ==> AllStopped(s))
    && s.passes + s.iterations <= |s.before| + 2
  }

  lemma StepKeepsInv(s: State, e: Event)
    requires Inv(s) && Enabled(s, e)
    ensures Inv(Apply(s, e))
  {
    match e {
      case Spawn(_, _) =>
      case Exit(_) =>
      case List(_) =>
      case ListFails =>
      case Visit(_) => VisitKeepsInv(s, e);
      case EndPass =>
        SubsetSize(s.before, s.traced);
        assert Elements(s.phase.queue) == {};
    }
  }

  lemma VisitKeepsInv(s: State, e: Event)
    requires Inv(s) && Enabled(s, e) && e.Visit?
    ensures Inv(Apply(s, e))
  {
    var t, rest := s.phase.queue[0], s.phase.queue[1..];
    QueueFront(s.phase.queue);
    var s' := Apply(s, e);
    if t !in s.traced && e.outcome == Attached {
      assert AllStopped(s) ==> AllStopped(s');
      assert t in s.used;
      assert t in s'.traced - s.before;
    } else {
      assert s'.threads == s.threads && s'.traced == s.traced;
    }
  }

  lemma QueueFront(q: seq<Tid>)
    requires q != []
    ensures Elements(q) == {q[0]} + Elements(q[1..])
  {
    assert q == [q[0]] + q[1..];
  }

  // ----- whole runs -----

  ghost predicate Legal(s: State, es: seq<Event>)
    decreases |es|
  {
    es == [] || (Enabled(s, es[0]) && Legal(Apply(s, es[0]), es[1..]))
  }

  function After(s: State, es: seq<Event>): State
    requires Legal(s, es)
    decreases |es|
  {
    if es == [] then s else After(Apply(s, es[0]), es[1..])
  }

  lemma {:induction false} RunKeepsInv(s: State, es: seq<Event>)
    requires Inv(s) && Legal(s, es)
    ensures Inv(After(s, es))
    decreases |es|
  {
    if es != [] {
      StepKeepsInv(s, es[0]);
      RunKeepsInv(Apply(s, es[0]), es[1..]);
    }
  }

  /**
    In every reachable state the process is stopped exactly when the loop has traced every thread that a
    listing would show now. When `trace` is done and no attach failed in its last pass, that is so; and the
    loop has made at most two passes more than it attached threads.
   */
  lemma TraceStopsTheWorld(s: State, es: seq<Event>)
    requires Initial(s) && Legal(s, es)
    ensures var t := After(s, es);
      && (AllStopped(t) <==> t.threads.Keys <= t.traced)
      && (t.phase.Done? && !t.trouble ==> AllStopped(t))
      && t.passes <= |t.traced| + 2
  {
    RunKeepsInv(s, es);
    var t := After(s, es);
    if t.phase.Pass? { SubsetSize(t.before, t.traced); }
    if AllStopped(t) {
      forall x | x in t.threads.Keys ensures x in t.traced { assert x in t.threads; }
    }
  }

  /** Once everything is stopped it stays stopped: nobody is left to spawn. */
  lemma {:induction false} StoppedForGood(s: State, es: seq<Event>)
    requires AllStopped(s) && Legal(s, es)
    ensures AllStopped(After(s, es)) && After(s, es).threads.Keys <= s.threads.Keys
    decreases |es|
  {
    if es != [] {
      var t := Apply(s, es[0]);
      assert AllStopped(t) && t.threads.Keys <= s.threads.Keys;
      StoppedForGood(t, es[1..]);
    }
  }

  /** The premise is needed: after a refused attach in the last pass, a thread may still run. */
  lemma RefusalLeavesAThread()
    ensures exists s, es :: Initial(s) && Legal(s, es) && After(s, es).phase.Done? && !AllStopped(After(s, es))
  {
    var s := State(map[1 := Running], {1}, Top, 2, 0, {}, false, {}, {}, false);
    var es := [List([1]), Visit(Refused), EndPass, List([1]), Visit(Refused), EndPass];
    assert Elements([1]) == {1};
    var s1 := s.(phase := Pass([1]), listed := {1});
    var s2 := s1.(phase := Pass([]), trouble := true);
    var s3 := s2.(iterations := 1, passes := 1, phase := Top);
    var s4 := s3.(phase := Pass([1]), trouble := false);
    var s5 := s4.(phase := Pass([]), trouble := true);
    var s6 := s5.(iterations := 0, passes := 2, phase := Done);
    OneStep(s5, es[5..], s6);
    OneStep(s4, es[4..], s5);
    OneStep(s3, es[3..], s4);
    OneStep(s2, es[2..], s3);
    OneStep(s1, es[1..], s2);
    OneStep(s, es, s1);
    assert s6.threads[1] == Running;
  }

  lemma OneStep(s: State, es: seq<Event>, t: State)
    requires es != [] && Enabled(s, es[0]) && t == Apply(s, es[0]) && Legal(t, es[1..])
    ensures Legal(s, es) && After(s, es) == After(t, es[1..])
  {
  }
}
