/**
  src/hookfs/mod.rs: the four locks of the file system, what every operation does with them, and why no
  number of operations, together with the update call of src/jsonrpc.rs, can block one another for good.
 */
module LockOrder {

  datatype Lock = InodeMap | OpenedFiles | OpenedDirs | Injector
  datatype Mode = Read | Write

  function Rank(l: Lock): int {
    match l
    case InodeMap => 0
    case OpenedFiles => 1
    case OpenedDirs => 1
    case Injector => 2
  }

  // ----- programs: guards are scoped, and all scopes may be left early -----

  datatype Prog =
    | Skip
    | Seq(first: Prog, second: Prog)
    | Opt(body: Prog)
    | Hold(lock: Lock, mode: Mode, body: Prog)

  datatype Action = Acquire(lock: Lock, mode: Mode) | Release(lock: Lock)

  /** The sequences of lock actions of a program that comes to its end. */
  ghost predicate IsRun(p: Prog, tr: seq<Action>)
    decreases p
  {
    match p
    case Skip => tr == []
    case Seq(a, b) => exists k :: 0 <= k <= |tr| && IsRun(a, tr[..k]) && IsRun(b, tr[k..])
    case Opt(b) => tr == [] || IsRun(b, tr)
    case Hold(l, m, b) =>
      && |tr| >= 2 && tr[0] == Acquire(l, m) && tr[|tr| - 1] == Release(l)
      && IsRun(b, tr[1..|tr| - 1])
  }

  datatype Guard = Guard(lock: Lock, mode: Mode)

  /** The guards held after some actions, the innermost last. */
  function HeldAfter(tr: seq<Action>, held: seq<Guard>): seq<Guard>
    decreases |tr|
  {
    if tr == [] then held
    else match tr[0]
      case Acquire(l, m) => HeldAfter(tr[1..], held + [Guard(l, m)])
      case Release(_) => HeldAfter(tr[1..], if held == [] then [] else held[..|held| - 1])
  }

  /** Leaving the scopes of all guards, the innermost first. */
  function Unwind(held: seq<Guard>): seq<Action> {
    if held == [] then [] else [Release(held[|held| - 1].lock)] + Unwind(held[..|held| - 1])
  }

  /** The actions of a run that an error, or the end of its task, cuts short after `k` of them. */
  function Cut(tr: seq<Action>, k: nat): seq<Action>
    requires k <= |tr|
  {
    tr[..k] + Unwind(HeldAfter(tr[..k], []))
  }

  // ----- the operations -----

  const Inject := Opt(Hold(Injector, Read, Skip))
  const InjectWithIno := Seq(Hold(InodeMap, Read, Skip), Opt(Inject))
  const InjectWithFh := Seq(Hold(OpenedFiles, Read, Skip), Opt(Inject))
  const InjectWithDirFh := Seq(Hold(OpenedDirs, Read, Skip), Opt(Inject))
  const InjectWriteData := Hold(OpenedFiles, Read, Opt(Hold(Injector, Read, Skip)))

  /** `get_file_attr` and the injected reply each ask the injector once more. */
  const AttrAndReply := Seq(Inject, Inject)

  datatype Operation =
    | Lookup | Forget | GetAttr | SetAttr | ReadLink | MkNod | MkDir | Unlink | RmDir | SymLink | Rename | Link
    | Open | ReadFile | WriteFile | Flush | ReleaseFile | FSync
    | OpenDir | ReadDir | ReleaseDir | FSyncDir
    | StatFs | SetXattr | GetXattr | ListXattr | RemoveXattr | Access | Create
    | Update

  function Body(op: Operation): Prog {
    match op
    case Lookup => Seq(InjectWithIno, Hold(InodeMap, Write, AttrAndReply))
    case Forget => Hold(InodeMap, Write, Skip)
    case GetAttr => Seq(InjectWithIno, Hold(InodeMap, Read, AttrAndReply))
    case SetAttr => Seq(InjectWithIno, Hold(InodeMap, Read, AttrAndReply))
    case ReadLink => Seq(InjectWithIno, Hold(InodeMap, Read, Inject))
    case MkNod => Seq(InjectWithIno, Hold(InodeMap, Write, Seq(Inject, AttrAndReply)))
    case MkDir => Seq(InjectWithIno, Hold(InodeMap, Write, AttrAndReply))
    case Unlink => Seq(InjectWithIno, Hold(InodeMap, Write, Inject))
    case RmDir => Seq(InjectWithIno, Hold(InodeMap, Write, Inject))
    case SymLink => Seq(InjectWithIno, Hold(InodeMap, Write, AttrAndReply))
    case Rename => Seq(InjectWithIno, Hold(InodeMap, Write, Inject))
    case Link => Seq(InjectWithIno, Hold(InodeMap, Write, AttrAndReply))
    case Open => Seq(InjectWithIno, Hold(InodeMap, Read, Seq(Hold(OpenedFiles, Write, Skip), Inject)))
    case ReadFile => Seq(InjectWithFh, Hold(OpenedFiles, Read, Inject))
    case WriteFile => Seq(InjectWithFh, Seq(InjectWriteData, Hold(OpenedFiles, Read, Inject)))
    case Flush => Seq(InjectWithFh, Hold(OpenedFiles, Read, Skip))
    case ReleaseFile => Hold(OpenedFiles, Write, Skip)
    case FSync => Seq(InjectWithFh, Hold(OpenedFiles, Read, Skip))
    case OpenDir => Seq(InjectWithIno, Hold(InodeMap, Read, Seq(Hold(OpenedDirs, Write, Skip), Inject)))
    case ReadDir => Seq(InjectWithDirFh, Hold(OpenedDirs, Write, Skip))
    case ReleaseDir => Hold(OpenedDirs, Write, Skip)
    case FSyncDir => Hold(InodeMap, Read, Skip)
    case StatFs => Seq(InjectWithIno, Hold(InodeMap, Read, Inject))
    case SetXattr => Seq(InjectWithIno, Hold(InodeMap, Read, Skip))
    case GetXattr => Seq(InjectWithIno, Hold(InodeMap, Read, Inject))
    case ListXattr => Seq(InjectWithIno, Hold(InodeMap, Read, Inject))
    case RemoveXattr => Seq(InjectWithIno, Hold(InodeMap, Read, Skip))
    case Access => Seq(InjectWithIno, Hold(InodeMap, Read, Skip))
    case Create =>
      Seq(InjectWithIno, Hold(InodeMap, Write, Seq(Inject, Seq(Hold(OpenedFiles, Write, Skip), Inject))))
    case Update => Hold(Injector, Write, Skip)
  }

  // ----- the order -----

  /** Every lock is taken above `floor`, the rank of the innermost guard around it. */
  predicate Ordered(p: Prog, floor: int) {
    match p
    case Skip => true
    case Seq(a, b) => Ordered(a, floor) && Ordered(b, floor)
    case Opt(b) => Ordered(b, floor)
    case Hold(l, _, b) => floor < Rank(l) && Ordered(b, Rank(l))
  }

  lemma OperationsAreOrdered(op: Operation)
    ensures Ordered(Body(op), -1)
  {
    assert Ordered(Inject, 1) && Ordered(Inject, 0) && Ordered(Inject, -1);
    assert Ordered(InjectWithIno, -1) && Ordered(InjectWithFh, -1) && Ordered(InjectWithDirFh, -1);
    assert Ordered(InjectWriteData, -1) && Ordered(AttrAndReply, 0);
    match op {
      case Create =>
        assert Ordered(Seq(Hold(OpenedFiles, Write, Skip), Inject), 0);
      case MkNod => assert Ordered(Seq(Inject, AttrAndReply), 0);
      case WriteFile => assert Ordered(Seq(InjectWriteData, Hold(OpenedFiles, Read, Inject)), -1);
      case Open => assert Ordered(Seq(Hold(OpenedFiles, Write, Skip), Inject), 0);
      case OpenDir => assert Ordered(Seq(Hold(OpenedDirs, Write, Skip), Inject), 0);
      case _ =>
    }
  }

  ghost predicate AllBelow(held: seq<Guard>, rank: int) {
    forall g :: g in held ==> Rank(g.lock) < rank
  }

  /** Locks are taken in rising rank and given back in reverse, until none is held. */
  ghost predicate Disciplined(tr: seq<Action>, held: seq<Guard>)
    decreases |tr|
  {
    if tr == [] then held == []
    else match tr[0]
      case Acquire(l, m) => AllBelow(held, Rank(l)) && Disciplined(tr[1..], held + [Guard(l, m)])
      case Release(l) => held != [] && held[|held| - 1].lock == l && Disciplined(tr[1..], held[..|held| - 1])
  }

  /** A run of an ordered program keeps the discipline, whatever is held around it and comes after it. */
  lemma {:induction false} RunThenRest(p: Prog, tr: seq<Action>, floor: int, held: seq<Guard>, rest: seq<Action>)
    requires IsRun(p, tr) && Ordered(p, floor) && AllBelow(held, floor + 1) && Disciplined(rest, held)
    ensures Disciplined(tr + rest, held)
    decreases p
  {
    hide Disciplined;
    match p {
      case Skip => assert tr + rest == rest;
      case Opt(b) =>
        if tr == [] { assert tr + rest == rest; } else { RunThenRest(b, tr, floor, held, rest); }
      case Seq(a, b) =>
        var k :| 0 <= k <= |tr| && IsRun(a, tr[..k]) && IsRun(b, tr[k..]);
        RunThenRest(b, tr[k..], floor, held, rest);
        RunThenRest(a, tr[..k], floor, held, tr[k..] + rest);
        assert tr[..k] + (tr[k..] + rest) == tr + rest;
      case Hold(l, m, b) =>
        var inner := tr[1..|tr| - 1];
        ReleasedThenRest(l, m, held, rest);
        RunThenRest(b, inner, Rank(l), held + [Guard(l, m)], [Release(l)] + rest);
        AcquiredThenRest(l, m, held, inner + ([Release(l)] + rest));
        assert tr + rest == [Acquire(l, m)] + (inner + ([Release(l)] + rest));
    }
  }

  lemma ReleasedThenRest(l: Lock, m: Mode, held: seq<Guard>, rest: seq<Action>)
    requires Disciplined(rest, held)
    ensures Disciplined([Release(l)] + rest, held + [Guard(l, m)])
  {
    var guards, all := held + [Guard(l, m)], [Release(l)] + rest;
    assert guards[..|guards| - 1] == held && all[1..] == rest;
  }

  lemma AcquiredThenRest(l: Lock, m: Mode, held: seq<Guard>, rest: seq<Action>)
    requires AllBelow(held, Rank(l)) && Disciplined(rest, held + [Guard(l, m)])
    ensures Disciplined([Acquire(l, m)] + rest, held)
  {
    assert ([Acquire(l, m)] + rest)[1..] == rest;
  }

  lemma {:induction false} UnwindIsDisciplined(held: seq<Guard>)
    ensures Disciplined(Unwind(held), held)
    decreases |held|
  {
    if held != [] { UnwindIsDisciplined(held[..|held| - 1]); }
  }

  lemma {:induction false} CutIsDisciplined(tr: seq<Action>, held: seq<Guard>, k: nat)
    requires Disciplined(tr, held) && k <= |tr|
    ensures Disciplined(tr[..k] + Unwind(HeldAfter(tr[..k], held)), held)
    decreases |tr|
  {
    if k == 0 {
      UnwindIsDisciplined(held);
      assert tr[..k] + Unwind(held) == Unwind(held);
    } else {
      var held' := if tr[0].Acquire? then held + [Guard(tr[0].lock, tr[0].mode)] else held[..|held| - 1];
      CutIsDisciplined(tr[1..], held', k - 1);
      var rest := tr[1..][..k - 1];
      assert tr[..k][1..] == rest;
      var drops := Unwind(HeldAfter(rest, held'));
      assert (tr[..k] + drops)[1..] == rest + drops;
    }
  }

  lemma {:induction false} NothingHeldAfter(tr: seq<Action>, held: seq<Guard>)
    requires Disciplined(tr, held)
    ensures HeldAfter(tr, held) == []
    decreases |tr|
  {
    if tr != [] {
      NothingHeldAfter(tr[1..], if tr[0].Acquire? then held + [Guard(tr[0].lock, tr[0].mode)] else held[..|held| - 1]);
    }
  }

  /**
    Every run of every operation, cut short anywhere or not, takes the locks in order and gives them all back.
    One that is not cut short is dropping nothing at its end.
   */
  lemma RunsAreDisciplined(op: Operation, tr: seq<Action>, k: nat)
    requires IsRun(Body(op), tr) && k <= |tr|
    ensures Disciplined(Cut(tr, k), [])
    ensures Cut(tr, |tr|) == tr
  {
    hide IsRun, Body;
    OperationsAreOrdered(op);
    RunThenRest(Body(op), tr, -1, [], []);
    assert tr + [] == tr;
    CutIsDisciplined(tr, [], k);
    NothingHeldAfter(tr, []);
    assert tr[..|tr|] == tr && tr + [] == tr;
  }

  // ----- what is locked for writing -----

  /** The tables an operation changes. Reading a directory moves its stream, which the table owns. */
  function Changes(op: Operation): set<Lock> {
    match op
    case Lookup | Forget | MkNod | MkDir | Unlink | RmDir | SymLink | Rename | Link => {InodeMap}
    case Create => {InodeMap, OpenedFiles}
    case Open | ReleaseFile => {OpenedFiles}
    case OpenDir | ReadDir | ReleaseDir => {OpenedDirs}
    case Update => {Injector}
    case _ => {}
  }

  /** The table that holds what an operation is asked for: a path, an open file or directory, the injector. */
  function Subject(op: Operation): Lock {
    match op
    case ReadFile | WriteFile | Flush | ReleaseFile | FSync => OpenedFiles
    case ReadDir | ReleaseDir => OpenedDirs
    case Update => Injector
    case _ => InodeMap
  }

  /** The lock is taken on every run, or on some. */
  predicate Takes(p: Prog, l: Lock, m: Mode, always: bool) {
    match p
    case Skip => false
    case Seq(a, b) => Takes(a, l, m, always) || Takes(b, l, m, always)
    case Opt(b) => !always && Takes(b, l, m, always)
    case Hold(k, n, b) => (k == l && n == m) || Takes(b, l, m, always)
  }

  lemma {:induction false} RunTakes(p: Prog, tr: seq<Action>, l: Lock, m: Mode)
    requires IsRun(p, tr)
    ensures Takes(p, l, m, true) ==> Acquire(l, m) in tr
    ensures Acquire(l, m) in tr ==> Takes(p, l, m, false)
    decreases p
  {
    match p {
      case Skip =>
      case Seq(a, b) =>
        var k :| 0 <= k <= |tr| && IsRun(a, tr[..k]) && IsRun(b, tr[k..]);
        RunTakes(a, tr[..k], l, m);
        RunTakes(b, tr[k..], l, m);
        InParts(tr, k, Acquire(l, m));
      case Opt(b) => if tr != [] { RunTakes(b, tr, l, m); }
      case Hold(_, _, b) =>
        RunTakes(b, tr[1..|tr| - 1], l, m);
        InParts(tr, |tr| - 1, Acquire(l, m));
        InParts(tr[..|tr| - 1], 1, Acquire(l, m));
        assert tr[..|tr| - 1][1..] == tr[1..|tr| - 1];
    }
  }

  /** What a program may take it does take on some run. */
  lemma {:induction false} SomeRunTakes(p: Prog, l: Lock, m: Mode) returns (tr: seq<Action>)
    ensures IsRun(p, tr)
    ensures Takes(p, l, m, false) ==> Acquire(l, m) in tr
    decreases p
  {
    match p {
      case Skip => tr := [];
      case Opt(b) => tr := SomeRunTakes(b, l, m);
      case Seq(a, b) =>
        var first := SomeRunTakes(a, l, m);
        var second := SomeRunTakes(b, l, m);
        tr := first + second;
        assert tr[..|first|] == first && tr[|first|..] == second;
      case Hold(k, n, b) =>
        var inner := SomeRunTakes(b, l, m);
        tr := [Acquire(k, n)] + inner + [Release(k)];
        assert tr[1..|tr| - 1] == inner;
    }
  }

  lemma InParts(tr: seq<Action>, k: nat, a: Action)
    requires k <= |tr|
    ensures a in tr <==> a in tr[..k] || a in tr[k..]
  {
    assert tr == tr[..k] + tr[k..];
  }

  lemma HelpersOnlyRead(l: Lock, always: bool)
    ensures !Takes(Inject, l, Write, always) && !Takes(AttrAndReply, l, Write, always)
    ensures !Takes(InjectWithIno, l, Write, always) && !Takes(InjectWithFh, l, Write, always)
    ensures !Takes(InjectWithDirFh, l, Write, always) && !Takes(InjectWriteData, l, Write, always)
  {
    assert !Takes(Hold(Injector, Read, Skip), l, Write, always);
    assert !Takes(Inject, l, Write, always);
    assert !Takes(Opt(Inject), l, Write, always);
  }

  lemma NestedTakes(op: Operation, l: Lock, always: bool)
    requires op.Create? || op.Open? || op.OpenDir? || op.MkNod? || op.WriteFile?
    ensures Takes(Body(op), l, Write, always) <==> l in Changes(op)
  {
    HelpersOnlyRead(l, always);
    var files, dirs := Hold(OpenedFiles, Write, Skip), Hold(OpenedDirs, Write, Skip);
    match op {
      case Open => assert Takes(Seq(files, Inject), l, Write, always) <==> l == OpenedFiles;
      case OpenDir => assert Takes(Seq(dirs, Inject), l, Write, always) <==> l == OpenedDirs;
      case Create =>
        assert Takes(Seq(files, Inject), l, Write, always) <==> l == OpenedFiles;
        assert Takes(Seq(Inject, Seq(files, Inject)), l, Write, always) <==> l == OpenedFiles;
      case MkNod => assert !Takes(Seq(Inject, AttrAndReply), l, Write, always);
      case WriteFile => assert !Takes(Seq(InjectWriteData, Hold(OpenedFiles, Read, Inject)), l, Write, always);
    }
  }

  lemma BodyTakes(op: Operation, l: Lock, always: bool)
    ensures Takes(Body(op), l, Write, always) <==> l in Changes(op)
  {
    if op.Create? || op.Open? || op.OpenDir? || op.MkNod? || op.WriteFile? {
      NestedTakes(op, l, always);
    } else {
      HelpersOnlyRead(l, always);
    }
  }

  lemma {:induction false} UnwindOnlyReleases(held: seq<Guard>, l: Lock, m: Mode)
    ensures Acquire(l, m) !in Unwind(held)
    decreases |held|
  {
    if held != [] { UnwindOnlyReleases(held[..|held| - 1], l, m); }
  }

  /**
    An operation that comes to its end had every table that it changes locked for writing, and the table of
    its subject to the last; no run, cut short or not, locks another table for writing.
   */
  lemma ChangersHoldForWriting(op: Operation, tr: seq<Action>, k: nat, l: Lock)
    requires IsRun(Body(op), tr) && k <= |tr|
    ensures l in Changes(op) ==> Acquire(l, Write) in tr
    ensures Acquire(l, Write) in Cut(tr, k) ==> l in Changes(op)
    ensures tr != [] && tr[|tr| - 1] == Release(Subject(op))
  {
    hide IsRun, Body, Takes, Subject, EndsWith;
    BodyTakes(op, l, true);
    BodyTakes(op, l, false);
    RunTakes(Body(op), tr, l, Write);
    UnwindOnlyReleases(HeldAfter(tr[..k], []), l, Write);
    BodyEndsWithSubject(op);
    RunEndsWith(Body(op), tr, Subject(op));
  }

  predicate EndsWith(p: Prog, l: Lock) {
    match p
    case Seq(_, b) => EndsWith(b, l)
    case Hold(k, _, _) => k == l
    case _ => false
  }

  lemma {:induction false} RunEndsWith(p: Prog, tr: seq<Action>, l: Lock)
    requires IsRun(p, tr) && EndsWith(p, l)
    ensures tr != [] && tr[|tr| - 1] == Release(l)
    decreases p
  {
    if p.Seq? {
      var k :| 0 <= k <= |tr| && IsRun(p.first, tr[..k]) && IsRun(p.second, tr[k..]);
      RunEndsWith(p.second, tr[k..], l);
    }
  }

  lemma BodyEndsWithSubject(op: Operation)
    ensures EndsWith(Body(op), Subject(op))
  {
    if op.WriteFile? { assert EndsWith(Seq(InjectWriteData, Hold(OpenedFiles, Read, Inject)), OpenedFiles); }
  }

  // ----- many tasks -----

  type Task = nat

  /** What a task has still to do, the guards it holds, and whether it stands in the queue of its next lock. */
  datatype TaskState = TaskState(todo: seq<Action>, held: seq<Guard>, waiting: bool)

  /** A lock serves its queue in order, readers and writers alike. */
  datatype State = State(tasks: map<Task, TaskState>, queue: map<Lock, seq<Task>>)

  datatype Event =
    | Spawn(t: Task, op: Operation, tr: seq<Action>, cut: nat)
    | Request(t: Task)
    | Grant(t: Task)
    | GiveBack(t: Task)

  const Init := State(map[], map[])

  function Queue(s: State, l: Lock): seq<Task> {
    if l in s.queue then s.queue[l] else []
  }

  predicate Wants(s: State, t: Task, l: Lock) {
    t in s.tasks && s.tasks[t].todo != [] && s.tasks[t].todo[0].Acquire? && s.tasks[t].todo[0].lock == l
  }

  predicate Holds(s: State, t: Task, g: Guard) {
    t in s.tasks && g in s.tasks[t].held
  }

  ghost predicate Compatible(s: State, l: Lock, m: Mode) {
    forall t, g :: Holds(s, t, g) && g.lock == l ==> m == Read && g.mode == Read
  }

  ghost predicate Enabled(s: State, e: Event) {
    match e
    case Spawn(t, op, tr, cut) => t !in s.tasks && IsRun(Body(op), tr) && cut <= |tr|
    case Request(t) =>
      t in s.tasks && s.tasks[t].todo != [] && s.tasks[t].todo[0].Acquire? && !s.tasks[t].waiting
    case Grant(t) =>
      && t in s.tasks && s.tasks[t].todo != [] && s.tasks[t].todo[0].Acquire? && s.tasks[t].waiting
      && var a := s.tasks[t].todo[0];
      Queue(s, a.lock) != [] && Queue(s, a.lock)[0] == t && Compatible(s, a.lock, a.mode)
    case GiveBack(t) =>
      t in s.tasks && s.tasks[t].todo != [] && s.tasks[t].todo[0].Release? && s.tasks[t].held != []
  }

  function Apply(s: State, e: Event): State
    requires Enabled(s, e)
  {
    match e
    case Spawn(t, _, tr, cut) => s.(tasks := s.tasks[t := TaskState(Cut(tr, cut), [], false)])
    case Request(t) =>
      var x, l := s.tasks[t], s.tasks[t].todo[0].lock;
      State(s.tasks[t := x.(waiting := true)], s.queue[l := Queue(s, l) + [t]])
    case Grant(t) =>
      var x, a := s.tasks[t], s.tasks[t].todo[0];
      State(s.tasks[t := TaskState(x.todo[1..], x.held + [Guard(a.lock, a.mode)], false)],
            s.queue[a.lock := Queue(s, a.lock)[1..]])
    case GiveBack(t) =>
      var x := s.tasks[t];
      s.(tasks := s.tasks[t := TaskState(x.todo[1..], x.held[..|x.held| - 1], false)])
  }

  // ----- what every step keeps -----

  ghost predicate TasksKeepOrder(s: State) {
    forall t :: t in s.tasks ==> Disciplined(s.tasks[t].todo, s.tasks[t].held)
  }

  /** A task waits exactly when it stands in the queue of the lock it wants, once. */
  ghost predicate QueuesMatch(s: State) {
    && (forall l :: QueueMatches(s, l))
    && (forall t :: t in s.tasks && s.tasks[t].waiting ==> s.tasks[t].todo != [] && s.tasks[t].todo[0].Acquire?)
  }

  /** Two tasks hold one lock only to read. */
  ghost predicate Exclusive(s: State) {
    forall t, u, g, h :: Holds(s, t, g) && Holds(s, u, h) && t != u && g.lock == h.lock ==>
      g.mode == Read && h.mode == Read
  }

  ghost predicate Inv(s: State) {
    TasksKeepOrder(s) && QueuesMatch(s) && Exclusive(s)
  }

  lemma StepKeepsOrder(s: State, e: Event)
    requires Inv(s) && Enabled(s, e)
    ensures TasksKeepOrder(Apply(s, e))
  {
    hide QueuesMatch, Exclusive, IsRun, Body;
    if e.Spawn? { RunsAreDisciplined(e.op, e.tr, e.cut); }
  }

  predicate NoRepeats(q: seq<Task>) {
    forall i, j :: 0 <= i < j < |q| ==> q[i] != q[j]
  }

  lemma WithoutFirst(q: seq<Task>)
    requires q != [] && NoRepeats(q)
    ensures NoRepeats(q[1..]) && forall t :: t in q[1..] <==> t in q && t != q[0]
  {
    assert q == [q[0]] + q[1..];
  }

  lemma WithLast(q: seq<Task>, t: Task)
    requires NoRepeats(q) && t !in q
    ensures NoRepeats(q + [t])
  {
  }

  /** The queue of one lock is in order. */
  ghost predicate QueueMatches(s: State, l: Lock) {
    && NoRepeats(Queue(s, l))
    && forall t :: t in Queue(s, l) <==> Wants(s, t, l) && s.tasks[t].waiting
  }

  lemma RequestKeepsQueue(s: State, t: Task, l: Lock)
    requires QueueMatches(s, l) && Enabled(s, Request(t))
    ensures QueueMatches(Apply(s, Request(t)), l)
  {
    hide NoRepeats;
    var s' := Apply(s, Request(t));
    if Wants(s, t, l) {
      WithLast(Queue(s, l), t);
      assert Queue(s', l) == Queue(s, l) + [t];
    } else {
      assert Queue(s', l) == Queue(s, l);
    }
    forall u ensures u in Queue(s', l) <==> Wants(s', u, l) && s'.tasks[u].waiting {
      assert u in Queue(s, l) <==> Wants(s, u, l) && s.tasks[u].waiting;
    }
  }

  lemma GrantKeepsQueue(s: State, t: Task, l: Lock)
    requires QueueMatches(s, l) && Enabled(s, Grant(t))
    ensures QueueMatches(Apply(s, Grant(t)), l)
  {
    hide NoRepeats, Compatible;
    var s' := Apply(s, Grant(t));
    if Wants(s, t, l) {
      WithoutFirst(Queue(s, l));
      assert Queue(s', l) == Queue(s, l)[1..];
    } else {
      assert Queue(s', l) == Queue(s, l);
    }
    forall u ensures u in Queue(s', l) <==> Wants(s', u, l) && s'.tasks[u].waiting {
      assert u in Queue(s, l) <==> Wants(s, u, l) && s.tasks[u].waiting;
    }
  }

  lemma OtherKeepsQueue(s: State, e: Event, l: Lock)
    requires QueueMatches(s, l) && Enabled(s, e) && (e.Spawn? || e.GiveBack?)
    ensures QueueMatches(Apply(s, e), l)
  {
    hide NoRepeats, IsRun, Body;
    var s' := Apply(s, e);
    assert Queue(s', l) == Queue(s, l);
    forall u ensures u in Queue(s', l) <==> Wants(s', u, l) && s'.tasks[u].waiting {
      assert u in Queue(s, l) <==> Wants(s, u, l) && s.tasks[u].waiting;
    }
  }

  lemma StepKeepsQueues(s: State, e: Event)
    requires Inv(s) && Enabled(s, e)
    ensures QueuesMatch(Apply(s, e))
  {
    hide TasksKeepOrder, Exclusive, IsRun, Body, Compatible, NoRepeats, QueueMatches, Wants, Queue;
    forall l ensures QueueMatches(Apply(s, e), l) {
      assert QueueMatches(s, l);
      match e {
        case Request(t) => RequestKeepsQueue(s, t, l);
        case Grant(t) => GrantKeepsQueue(s, t, l);
        case GiveBack(_) => OtherKeepsQueue(s, e, l);
        case Spawn(_, _, _, _) => OtherKeepsQueue(s, e, l);
      }
    }
  }

  lemma GrantKeepsExclusive(s: State, t: Task)
    requires Exclusive(s) && Enabled(s, Grant(t))
    ensures Exclusive(Apply(s, Grant(t)))
  {
    var s', new_ := Apply(s, Grant(t)), Guard(s.tasks[t].todo[0].lock, s.tasks[t].todo[0].mode);
    forall u, v, g, h |
      Holds(s', u, g) && Holds(s', v, h) && u != v && g.lock == h.lock
      ensures g.mode == Read && h.mode == Read
    {
      assert Holds(s, u, g) || (u == t && g == new_);
      assert Holds(s, v, h) || (v == t && h == new_);
    }
  }

  lemma StepKeepsExclusive(s: State, e: Event)
    requires Inv(s) && Enabled(s, e)
    ensures Exclusive(Apply(s, e))
  {
    hide TasksKeepOrder, QueuesMatch, IsRun, Body, Compatible;
    if e.Grant? {
      GrantKeepsExclusive(s, e.t);
    } else {
      FewerGuards(s, Apply(s, e));
    }
  }

  lemma FewerGuards(s: State, s': State)
    requires Exclusive(s)
    requires forall t, g :: Holds(s', t, g) ==> Holds(s, t, g)
    ensures Exclusive(s')
  {
  }

  ghost predicate Legal(s: State, es: seq<Event>)
    decreases |es|
  {
    es == [] || (Enabled(s, es[0]) && Legal(Apply(s, es[0]), es[1..]))
  }

  function After(s: State, es: seq<Event>): State
    requires Legal(s, es)
    decreases |es|
  {
    if es == [] then s else After(Apply(s, es[0]), es[1..])
  }

  lemma {:induction false} RunKeepsInv(s: State, es: seq<Event>)
    requires Inv(s) && Legal(s, es)
    ensures Inv(After(s, es))
    decreases |es|
  {
    hide TasksKeepOrder, QueuesMatch, Exclusive, Enabled, Apply;
    if es != [] {
      StepKeepsOrder(s, es[0]);
      StepKeepsQueues(s, es[0]);
      StepKeepsExclusive(s, es[0]);
      RunKeepsInv(Apply(s, es[0]), es[1..]);
    }
  }

  // ----- no deadlock -----

  /** Some task that is already there can take its next lock action. */
  ghost predicate CanMove(s: State) {
    exists e: Event :: !e.Spawn? && Enabled(s, e)
  }

  /** Along a chain of waiting tasks the wanted ranks rise, so the chain ends in a task that can move. */
  lemma {:induction false} WaiterLeadsToMove(s: State, t: Task, l: Lock)
    requires Inv(s) && t in Queue(s, l)
    ensures CanMove(s)
    decreases 2 - Rank(l)
  {
    hide TasksKeepOrder, Exclusive;
    assert QueueMatches(s, l);
    var first := Queue(s, l)[0];
    assert first in Queue(s, l);
    assert Wants(s, first, l) && s.tasks[first].waiting;
    var a := s.tasks[first].todo[0];
    if Compatible(s, l, a.mode) {
      assert Enabled(s, Grant(first));
    } else {
      var u, g :| Holds(s, u, g) && g.lock == l;
      HolderMovesOrWaitsAbove(s, u, g);
      if !CanMove(s) {
        WaiterLeadsToMove(s, u, s.tasks[u].todo[0].lock);
      }
    }
  }

  lemma HolderMovesOrWaitsAbove(s: State, u: Task, g: Guard)
    requires Inv(s) && Holds(s, u, g)
    ensures CanMove(s) || (
      && s.tasks[u].todo != [] && s.tasks[u].todo[0].Acquire?
      && u in Queue(s, s.tasks[u].todo[0].lock) && Rank(s.tasks[u].todo[0].lock) > Rank(g.lock))
  {
    var x := s.tasks[u];
    assert Disciplined(x.todo, x.held);
    if x.todo[0].Release? {
      assert Enabled(s, GiveBack(u));
    } else if !x.waiting {
      assert Enabled(s, Request(u));
    } else {
      assert QueueMatches(s, x.todo[0].lock) && Wants(s, u, x.todo[0].lock);
    }
  }

  /** In every reachable state with an unfinished task, some task can take its next lock action. */
  lemma NoDeadlock(es: seq<Event>, t: Task)
    requires Legal(Init, es) && t in After(Init, es).tasks && After(Init, es).tasks[t].todo != []
    ensures CanMove(After(Init, es))
  {
    RunKeepsInv(Init, es);
    var s := After(Init, es);
    var x := s.tasks[t];
    assert Disciplined(x.todo, x.held);
    if x.todo[0].Release? {
      assert Enabled(s, GiveBack(t));
    } else if !x.waiting {
      assert Enabled(s, Request(t));
    } else {
      assert QueueMatches(s, x.todo[0].lock) && Wants(s, t, x.todo[0].lock);
      WaiterLeadsToMove(s, t, x.todo[0].lock);
    }
  }

  // ----- and no livelock -----

  /** Lock actions a task has left, counting a request and its grant. */
  function Left(x: TaskState): int {
    2 * |x.todo| - if x.waiting then 1 else 0
  }

  ghost function Work(m: map<Task, TaskState>): int
    decreases |m|
  {
    if m == map[] then 0
    else
      var t :| t in m;
      assert (m - {t}).Keys == m.Keys - {t};
      Left(m[t]) + Work(m - {t})
  }

  lemma {:induction false} WorkSplits(m: map<Task, TaskState>, t: Task)
    requires t in m
    ensures Work(m) == Left(m[t]) + Work(m - {t})
    decreases |m|
  {
    var u :| u in m && Work(m) == Left(m[u]) + Work(m - {u});
    if u != t {
      assert (m - {u}).Keys == m.Keys - {u};
      assert (m - {u}) - {t} == (m - {t}) - {u};
      WorkSplits(m - {u}, t);
      assert (m - {t}).Keys == m.Keys - {t};
      WorkSplits(m - {t}, u);
    }
  }

  lemma StepTakesWork(s: State, e: Event)
    requires Enabled(s, e) && !e.Spawn?
    ensures Work(Apply(s, e).tasks) < Work(s.tasks)
  {
    hide Compatible;
    var m, m' := s.tasks, Apply(s, e).tasks;
    WorkSplits(m, e.t);
    WorkSplits(m', e.t);
    assert m' - {e.t} == m - {e.t};
  }

  lemma {:induction false} WorkIsBounded(m: map<Task, TaskState>)
    requires forall t :: t in m ==> Left(m[t]) >= 0
    ensures Work(m) >= 0
    decreases |m|
  {
    if m != map[] {
      var t :| t in m;
      WorkSplits(m, t);
      assert (m - {t}).Keys == m.Keys - {t};
      WorkIsBounded(m - {t});
    }
  }

  lemma {:induction false} RunTakesWork(s: State, es: seq<Event>)
    requires Legal(s, es) && forall e :: e in es ==> !e.Spawn?
    ensures |es| <= Work(s.tasks) - Work(After(s, es).tasks)
    decreases |es|
  {
    hide Enabled, Apply;
    if es != [] {
      StepTakesWork(s, es[0]);
      RunTakesWork(Apply(s, es[0]), es[1..]);
    }
  }

  lemma {:induction false} AfterBoth(s: State, before: seq<Event>, es: seq<Event>)
    requires Legal(s, before) && Legal(After(s, before), es)
    ensures Legal(s, before + es) && After(s, before + es) == After(After(s, before), es)
    decreases |before|
  {
    hide Enabled, Apply;
    if before == [] {
      assert before + es == es;
    } else {
      assert (before + es)[1..] == before[1..] + es;
      AfterBoth(Apply(s, before[0]), before[1..], es);
    }
  }

  /**
    From any reachable state, once no new task arrives: however they are scheduled, the tasks take only
    so many steps, and when none of them can move any more, all of them have finished.
   */
  lemma EveryScheduleFinishes(before: seq<Event>, es: seq<Event>)
    requires Legal(Init, before) && Legal(After(Init, before), es) && forall e :: e in es ==> !e.Spawn?
    ensures |es| <= Work(After(Init, before).tasks)
    ensures var s := After(After(Init, before), es);
      !CanMove(s) ==> forall t :: t in s.tasks ==> s.tasks[t].todo == [] && s.tasks[t].held == []
  {
    hide Enabled, Apply, Legal, After, Exclusive;
    AfterBoth(Init, before, es);
    var s := After(After(Init, before), es);
    RunTakesWork(After(Init, before), es);
    InitKeepsInv();
    RunKeepsInv(Init, before + es);
    WorkIsBounded(s.tasks);
    if !CanMove(s) {
      forall t | t in s.tasks ensures s.tasks[t].todo == [] && s.tasks[t].held == [] {
        if s.tasks[t].todo != [] { NoDeadlock(before + es, t); }
        assert Disciplined(s.tasks[t].todo, s.tasks[t].held);
      }
    }
  }

  lemma InitKeepsInv()
    ensures Inv(Init)
  {
  }
}
