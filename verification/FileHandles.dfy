/**
  src/hookfs/mod.rs: any number of open, create, read, write, flush, fsync and release tasks that share
  the table of open files under its lock, while the rest of the program opens and closes files of its own.
 */
module FileHandles {
  import opened Wrappers

  type Task = nat
  type Key = nat
  type Fd = nat
  /** An open file description; its number is never used twice, unlike that of a descriptor. */
  type Desc = nat

  /** `desc` is the description that was opened for the handle; the code only stores the descriptor. */
  datatype Entry = Entry(fd: Fd, desc: Desc)

  datatype Phase =
    // open and create: the descriptor exists, then the write lock is held
    | Opened(entry: Entry)
    | Inserting(entry: Entry)
    // read, write, flush and fsync: the read lock is held, then the entry has been found
    | Reading(key: Key)
    | Ready(key: Key, entry: Entry)
    // release: the write lock is held, then the descriptor has been closed
    | Releasing(key: Key)
    | Closed(key: Key)
    | Finished
    | Panicked

  datatype Owner = ByTask(task: Task) | ByHandle(key: Key) | Elsewhere | Abandoned

  /** An access to a descriptor on behalf of a handle: the description it was for and the one it met. */
  datatype Access = Access(meant: Desc, met: Option<Desc>)

  datatype State = State(
    fds: map<Fd, Desc>, owner: map<Desc, Owner>,
    table: map<Key, Entry>, readers: set<Task>, writer: set<Task>,
    tasks: map<Task, Phase>, log: seq<Access>)

  const Init := State(map[], map[], map[], {}, {}, map[], [])

  datatype Event =
    | Open(t: Task, entry: Entry)
    | Abandon(t: Task)
    | LockToInsert(t: Task)
    | Insert(t: Task, key: Key)
    | LockToRead(t: Task, key: Key)
    | Find(t: Task)
    | Access(t: Task)
    | EndRead(t: Task)
    | LockToRelease(t: Task, key: Key)
    | Close(t: Task)
    | CloseFails(t: Task)
    | Remove(t: Task)
    | OpenElsewhere(entry: Entry)
    | CloseElsewhere(fd: Fd)

  predicate At(s: State, t: Task, p: Phase) {
    t in s.tasks && s.tasks[t] == p
  }

  /** The kernel gives out a descriptor that is not in use, for a description that never was. */
  predicate New(s: State, e: Entry) {
    e.fd !in s.fds && e.desc !in s.owner
  }

  /** Closing a descriptor that is not open fails. */
  predicate CanClose(s: State, key: Key) {
    key in s.table ==> s.table[key].fd in s.fds
  }

  predicate Enabled(s: State, e: Event) {
    match e
    case Open(t, entry) => t !in s.tasks && New(s, entry)
    case Abandon(t) => t in s.tasks && s.tasks[t].Opened?
    case LockToInsert(t) => t in s.tasks && s.tasks[t].Opened? && s.readers == {} && s.writer == {}
    case Insert(t, key) => t in s.tasks && s.tasks[t].Inserting? && key !in s.table
    case LockToRead(t, _) => t !in s.tasks && s.writer == {}
    case Find(t) => t in s.tasks && s.tasks[t].Reading?
    case Access(t) => t in s.tasks && s.tasks[t].Ready?
    case EndRead(t) => t in s.tasks && s.tasks[t].Ready?
    case LockToRelease(t, _) => t !in s.tasks && s.readers == {} && s.writer == {}
    case Close(t) => t in s.tasks && s.tasks[t].Releasing? && CanClose(s, s.tasks[t].key)
    case CloseFails(t) => t in s.tasks && s.tasks[t].Releasing? && s.tasks[t].key in s.table
    case Remove(t) => t in s.tasks && s.tasks[t].Closed?
    case OpenElsewhere(entry) => New(s, entry)
    case CloseElsewhere(fd) => fd in s.fds && s.fds[fd] in s.owner && s.owner[s.fds[fd]] == Elsewhere
  }

  function Meet(s: State, e: Entry): Access {
    Access.Access(e.desc, if e.fd in s.fds then Some(s.fds[e.fd]) else None)
  }

  function Apply(s: State, e: Event): State
    requires Enabled(s, e)
  {
    match e
    case Open(t, entry) =>
      s.(fds := s.fds[entry.fd := entry.desc], owner := s.owner[entry.desc := ByTask(t)],
         tasks := s.tasks[t := Opened(entry)])
    case Abandon(t) =>
      s.(owner := s.owner[s.tasks[t].entry.desc := Abandoned], tasks := s.tasks[t := Finished])
    case LockToInsert(t) => s.(writer := {t}, tasks := s.tasks[t := Inserting(s.tasks[t].entry)])
    case Insert(t, key) =>
      var entry := s.tasks[t].entry;
      s.(table := s.table[key := entry], owner := s.owner[entry.desc := ByHandle(key)],
         writer := {}, tasks := s.tasks[t := Finished])
    case LockToRead(t, key) => s.(readers := s.readers + {t}, tasks := s.tasks[t := Reading(key)])
    case Find(t) =>
      var key := s.tasks[t].key;
      if key in s.table then s.(tasks := s.tasks[t := Ready(key, s.table[key])])
      else s.(readers := s.readers - {t}, tasks := s.tasks[t := Finished])
    case Access(t) => s.(log := s.log + [Meet(s, s.tasks[t].entry)])
    case EndRead(t) => s.(readers := s.readers - {t}, tasks := s.tasks[t := Finished])
    case LockToRelease(t, key) => s.(writer := {t}, tasks := s.tasks[t := Releasing(key)])
    case Close(t) =>
      var key := s.tasks[t].key;
      // removing a key that is not there panics, which leaves the table alone and drops the guard
      if key !in s.table then s.(writer := {}, tasks := s.tasks[t := Panicked])
      else
        s.(fds := s.fds - {s.table[key].fd}, log := s.log + [Meet(s, s.table[key])],
           tasks := s.tasks[t := Closed(key)])
    case CloseFails(t) =>
      // the descriptor is gone all the same, and the release gives up before it removes the entry
      s.(fds := s.fds - {s.table[s.tasks[t].key].fd}, writer := {}, tasks := s.tasks[t := Finished])
    case Remove(t) =>
      s.(table := s.table - {s.tasks[t].key}, writer := {}, tasks := s.tasks[t := Finished])
    case OpenElsewhere(entry) =>
      s.(fds := s.fds[entry.fd := entry.desc], owner := s.owner[entry.desc := Elsewhere])
    case CloseElsewhere(fd) => s.(fds := s.fds - {fd})
  }

  // ----- what every step keeps -----

  predicate Holds(s: State, e: Entry) {
    e.fd in s.fds && s.fds[e.fd] == e.desc
  }

  /** Locks: who reads is in `readers`, who writes is in `writer`, and never both. */
  ghost predicate Locked(s: State) {
    && (forall t :: t in s.readers <==> t in s.tasks && (s.tasks[t].Reading? || s.tasks[t].Ready?))
    && (forall t :: t in s.writer <==>
          t in s.tasks && (s.tasks[t].Inserting? || s.tasks[t].Releasing? || s.tasks[t].Closed?))
    && (forall t, u :: t in s.writer && u in s.writer ==> t == u)
    && (s.writer == {} || s.readers == {})
  }

  /** A task with a descriptor of its own still has it. */
  ghost predicate TasksOwn(s: State) {
    forall t :: t in s.tasks && (s.tasks[t].Opened? || s.tasks[t].Inserting?) ==>
      var e := s.tasks[t].entry;
      Holds(s, e) && e.desc in s.owner && s.owner[e.desc] == ByTask(t)
  }

  ghost predicate BeingClosed(s: State, k: Key) {
    exists t :: t in s.tasks && s.tasks[t] == Closed(k)
  }

  /** A handle owns its description, and has it open until it is closed on the way out of the table. */
  ghost predicate HandlesOwn(s: State) {
    forall k :: k in s.table ==>
      var e := s.table[k];
      && e.desc in s.owner && s.owner[e.desc] == ByHandle(k)
      && (BeingClosed(s, k) || Holds(s, e))
  }

  /** A reader that found an entry still has it in the table; so has a closer, though no longer open. */
  ghost predicate Fixed(s: State) {
    forall t :: t in s.tasks ==>
      && (s.tasks[t].Ready? ==> s.tasks[t].key in s.table && s.table[s.tasks[t].key] == s.tasks[t].entry)
      && (s.tasks[t].Closed? ==> s.tasks[t].key in s.table && !Holds(s, s.table[s.tasks[t].key]))
  }

  /** Somebody answers for descriptor `fd`. */
  ghost predicate Answered(s: State, fd: Fd)
    requires fd in s.fds
  {
    var d := s.fds[fd];
    && d in s.owner
    && match s.owner[d]
       case ByTask(t) => At(s, t, Opened(Entry(fd, d))) || At(s, t, Inserting(Entry(fd, d)))
       case ByHandle(k) => k in s.table && s.table[k] == Entry(fd, d)
       case Elsewhere => true
       case Abandoned => true
  }

  /** Nothing is open that nobody answers for. */
  ghost predicate Accounted(s: State) {
    forall fd :: fd in s.fds ==> Answered(s, fd)
  }

  ghost predicate Honest(s: State) {
    forall a :: a in s.log ==> a.met == Some(a.meant)
  }

  ghost predicate Inv(s: State) {
    Locked(s) && TasksOwn(s) && HandlesOwn(s) && Fixed(s) && Accounted(s) && Honest(s)
  }

  lemma StepKeepsInv(s: State, e: Event)
    requires Inv(s) && Enabled(s, e) && !e.CloseFails?
    ensures Inv(Apply(s, e))
  {
    StepKeepsLocked(s, e);
    StepKeepsTasks(s, e);
    StepKeepsHandles(s, e);
    StepKeepsFixed(s, e);
    StepKeepsAccounted(s, e);
    StepKeepsHonest(s, e);
  }

  lemma StepKeepsLocked(s: State, e: Event)
    requires Locked(s) && Enabled(s, e)
    ensures Locked(Apply(s, e))
  {
  }

  lemma StepKeepsTasks(s: State, e: Event)
    requires Inv(s) && Enabled(s, e) && !e.CloseFails?
    ensures TasksOwn(Apply(s, e))
  {
    hide Fixed, Accounted, Honest;
  }

  lemma StepKeepsHandles(s: State, e: Event)
    requires Inv(s) && Enabled(s, e) && !e.CloseFails?
    ensures HandlesOwn(Apply(s, e))
  {
    hide Accounted, Honest, Fixed;
    var s' := Apply(s, e);
    forall k | k in s'.table
      ensures s'.table[k].desc in s'.owner && s'.owner[s'.table[k].desc] == ByHandle(k)
      ensures BeingClosed(s', k) || Holds(s', s'.table[k])
    {
      if k in s.table && BeingClosed(s, k) {
        var u :| u in s.tasks && s.tasks[u] == Closed(k);
        assert u in s.writer;
        assert u in s'.tasks && s'.tasks[u] == Closed(k);
      } else if e.Close? && s.tasks[e.t].key == k {
        assert At(s', e.t, Closed(k));
      }
    }
  }

  lemma StepKeepsFixed(s: State, e: Event)
    requires Inv(s) && Enabled(s, e) && !e.CloseFails?
    ensures Fixed(Apply(s, e))
  {
    hide TasksOwn, Accounted, Honest;
  }

  lemma StepKeepsAccounted(s: State, e: Event)
    requires Inv(s) && Enabled(s, e) && !e.CloseFails?
    ensures Accounted(Apply(s, e))
  {
    hide Honest, Answered;
    var s' := Apply(s, e);
    forall fd | fd in s'.fds ensures Answered(s', fd) {
      StepKeepsAnswer(s, e, fd);
    }
  }

  lemma StepKeepsAnswer(s: State, e: Event, fd: Fd)
    requires Inv(s) && Enabled(s, e) && !e.CloseFails? && fd in Apply(s, e).fds
    ensures Answered(Apply(s, e), fd)
  {
    hide Honest, Locked;
    if fd in s.fds { assert Answered(s, fd); }
  }

  lemma StepKeepsHonest(s: State, e: Event)
    requires Inv(s) && Enabled(s, e) && !e.CloseFails?
    ensures Honest(Apply(s, e))
  {
    hide Accounted;
  }

  // ----- whole runs -----

  ghost predicate Legal(s: State, es: seq<Event>)
    decreases |es|
  {
    es == [] || (Enabled(s, es[0]) && Legal(Apply(s, es[0]), es[1..]))
  }

  function After(s: State, es: seq<Event>): State
    requires Legal(s, es)
    decreases |es|
  {
    if es == [] then s else After(Apply(s, es[0]), es[1..])
  }

  predicate ClosesSucceed(es: seq<Event>) {
    forall e :: e in es ==> !e.CloseFails?
  }

  lemma InitKeepsInv()
    ensures Inv(Init) && Locked(Init) && Known(Init)
  {
  }

  lemma {:induction false} RunKeepsInv(s: State, es: seq<Event>)
    requires Inv(s) && Legal(s, es) && ClosesSucceed(es)
    ensures Inv(After(s, es))
    decreases |es|
  {
    hide Inv, Apply, Enabled;
    if es != [] {
      StepKeepsInv(s, es[0]);
      RunKeepsInv(Apply(s, es[0]), es[1..]);
    }
  }

  lemma NoCloser(s: State, k: Key)
    requires Locked(s) && s.writer == {}
    ensures !BeingClosed(s, k)
  {
  }

  /**
    In every interleaving in which closing succeeds, every read, write, flush, fsync and close meets the
    description that was opened for its handle: never a closed descriptor, never one given out again.
   */
  lemma EveryAccessMeetsItsFile(es: seq<Event>)
    requires Legal(Init, es) && ClosesSucceed(es)
    ensures forall a :: a in After(Init, es).log ==> a.met == Some(a.meant)
    ensures forall t :: t in After(Init, es).tasks && After(Init, es).tasks[t].Ready? ==>
      var s := After(Init, es);
      Holds(s, s.tasks[t].entry) && s.tasks[t].key in s.table && s.table[s.tasks[t].key] == s.tasks[t].entry
  {
    hide Legal, After, Accounted, TasksOwn;
    InitKeepsInv();
    RunKeepsInv(Init, es);
    var s := After(Init, es);
    forall t | t in s.tasks && s.tasks[t].Ready?
      ensures Holds(s, s.tasks[t].entry) && s.tasks[t].key in s.table && s.table[s.tasks[t].key] == s.tasks[t].entry
    {
      assert t in s.readers;
      NoCloser(s, s.tasks[t].key);
    }
  }

  /**
    Whenever the write lock is free: every handle has its own description open, different handles have
    different descriptors, and every open descriptor belongs to a handle, to a task on its way to the
    table, to the rest of the program, or to a creation that failed after opening.
   */
  lemma UnlockedTableIsExact(es: seq<Event>)
    requires Legal(Init, es) && ClosesSucceed(es) && After(Init, es).writer == {}
    ensures var s := After(Init, es);
      && (forall k :: k in s.table ==> Holds(s, s.table[k]))
      && (forall k, l :: k in s.table && l in s.table && k != l ==> s.table[k].fd != s.table[l].fd)
      && (forall fd :: fd in s.fds ==>
            || (exists k :: k in s.table && s.table[k] == Entry(fd, s.fds[fd]))
            || (exists t :: At(s, t, Opened(Entry(fd, s.fds[fd]))))
            || (s.fds[fd] in s.owner && s.owner[s.fds[fd]] in {Elsewhere, Abandoned}))
  {
    hide Legal, After, Fixed, Honest;
    InitKeepsInv();
    RunKeepsInv(Init, es);
    var s := After(Init, es);
    forall k | k in s.table ensures Holds(s, s.table[k]) {
      NoCloser(s, k);
    }
    forall fd | fd in s.fds
      ensures
        || (exists k :: k in s.table && s.table[k] == Entry(fd, s.fds[fd]))
        || (exists t :: At(s, t, Opened(Entry(fd, s.fds[fd]))))
        || (s.fds[fd] in s.owner && s.owner[s.fds[fd]] in {Elsewhere, Abandoned})
    {
      match s.owner[s.fds[fd]] {
        case ByTask(t) =>
          assert t !in s.writer;
          assert At(s, t, Opened(Entry(fd, s.fds[fd])));
        case ByHandle(k) => assert k in s.table;
        case Elsewhere =>
        case Abandoned =>
      }
    }
  }

  lemma NoStep(s: State)
    ensures Legal(s, []) && After(s, []) == s
  {
  }

  lemma OneStep(s: State, e: Event, t: State, es: seq<Event>) returns (all: seq<Event>)
    requires Enabled(s, e) && t == Apply(s, e) && Legal(t, es)
    ensures all == [e] + es && Legal(s, all) && After(s, all) == After(t, es)
  {
    all := [e] + es;
    assert all[1..] == es;
  }

  /** One handle `k` in the table, stored by a task that has finished. */
  function OneHandle(k: Key, e: Entry): State {
    State(map[e.fd := e.desc], map[e.desc := ByHandle(k)], map[k := e], {}, {}, map[0 := Finished], [])
  }

  lemma StoredHandle(k: Key, e: Entry, more: seq<Event>) returns (es: seq<Event>)
    requires Legal(OneHandle(k, e), more)
    ensures Legal(Init, es) && After(Init, es) == After(OneHandle(k, e), more)
  {
    hide Legal, After;
    var s2 := State(map[e.fd := e.desc], map[e.desc := ByTask(0)], map[], {}, {0}, map[0 := Inserting(e)], []);
    var s1 := s2.(writer := {}, tasks := map[0 := Opened(e)]);
    es := OneStep(s2, Insert(0, k), OneHandle(k, e), more);
    es := OneStep(s1, LockToInsert(0), s2, es);
    es := OneStep(Init, Open(0, e), s1, es);
  }

  /** Its release fails to close, and something else then gets the descriptor. */
  lemma ReusedDescriptor(k: Key, e: Entry, other: Desc, more: seq<Event>) returns (es: seq<Event>)
    requires e.desc != other
    requires Legal(Reused(k, e, other), more)
    ensures Legal(OneHandle(k, e), es) && After(OneHandle(k, e), es) == After(Reused(k, e, other), more)
  {
    hide Legal, After;
    var s := OneHandle(k, e);
    var s1 := s.(writer := {1}, tasks := s.tasks[1 := Releasing(k)]);
    var s2 := s.(fds := map[], tasks := s.tasks[1 := Finished]);
    var t := Reused(k, e, other);
    assert s1.fds - {e.fd} == map[] && s1.tasks[1 := Finished] == s2.tasks;
    es := OneStep(s2, OpenElsewhere(Entry(e.fd, other)), t, more);
    es := OneStep(s1, CloseFails(1), s2, es);
    es := OneStep(s, LockToRelease(1, k), s1, es);
  }

  function Reused(k: Key, e: Entry, other: Desc): State {
    OneHandle(k, e).(fds := map[e.fd := other], owner := map[e.desc := ByHandle(k), other := Elsewhere],
                     tasks := map[0 := Finished, 1 := Finished])
  }

  /** The premise is needed: a failed close leaves the entry, and a later read meets whatever took the descriptor. */
  lemma FailedCloseLeavesStaleEntry(k: Key, e: Entry, other: Desc)
    requires e.desc != other
    ensures exists es :: Legal(Init, es) && Access.Access(e.desc, Some(other)) in After(Init, es).log
  {
    hide Legal, After;
    var s := Reused(k, e, other);
    var s1 := s.(readers := {2}, tasks := s.tasks[2 := Reading(k)]);
    var s2 := s1.(tasks := s.tasks[2 := Ready(k, e)]);
    var s3 := s2.(log := [Access.Access(e.desc, Some(other))]);
    assert s1.tasks[2 := Ready(k, e)] == s2.tasks;
    NoStep(s3);
    var es := OneStep(s2, Event.Access(2), s3, []);
    es := OneStep(s1, Find(2), s2, es);
    es := OneStep(s, LockToRead(2, k), s1, es);
    es := ReusedDescriptor(k, e, other, es);
    es := StoredHandle(k, e, es);
    assert s3.log[0] in s3.log;
  }

  // ----- what a failed close comes to -----

  /** Every description in the table or with a task was once given out. */
  ghost predicate Known(s: State) {
    && (forall k :: k in s.table ==> s.table[k].desc in s.owner)
    && (forall t :: t in s.tasks && (s.tasks[t].Opened? || s.tasks[t].Inserting?) ==> s.tasks[t].entry.desc in s.owner)
  }

  lemma StepKeepsKnown(s: State, e: Event)
    requires Known(s) && Enabled(s, e)
    ensures Known(Apply(s, e))
  {
  }

  /** An entry that has lost its file for good, since descriptions are never given out twice. */
  ghost predicate Stale(s: State, k: Key) {
    k in s.table && !Holds(s, s.table[k]) && s.table[k].desc in s.owner && !BeingClosed(s, k)
  }

  /** An access has gone wrong, or one still will. */
  ghost predicate Doomed(s: State) {
    !Honest(s) || exists k :: Stale(s, k)
  }

  lemma FailedCloseDooms(s: State, e: Event)
    requires Locked(s) && Known(s) && Enabled(s, e) && e.CloseFails?
    ensures Doomed(Apply(s, e))
  {
    var s', k := Apply(s, e), s.tasks[e.t].key;
    assert e.t in s.writer;
    forall u | u in s'.tasks ensures s'.tasks[u] != Closed(k) {
      assert u != e.t && s.tasks[u] == Closed(k) ==> u in s.writer;
    }
    assert Stale(s', k);
  }

  /** A wrong access stays in the log. */
  lemma StepKeepsLog(s: State, e: Event)
    requires Enabled(s, e) && !Honest(s)
    ensures !Honest(Apply(s, e))
  {
    var s' := Apply(s, e);
    var a :| a in s.log && a.met != Some(a.meant);
    assert s.log <= s'.log;
    var i :| 0 <= i < |s.log| && s.log[i] == a;
    assert s'.log[i] == a;
  }

  /** A stale entry leaves the table only through a close that meets the wrong file. */
  lemma StepKeepsStale(s: State, e: Event, k: Key)
    requires Enabled(s, e) && Stale(s, k)
    ensures Stale(Apply(s, e), k) || !Honest(Apply(s, e))
  {
    var s' := Apply(s, e);
    if e.Close? && s.tasks[e.t].key == k {
      var a := Meet(s, s.table[k]);
      assert s'.log[|s.log|] == a;
      assert a in s'.log && a.met != Some(a.meant);
    } else {
      assert forall u :: u in s'.tasks && s'.tasks[u] == Closed(k) ==> u in s.tasks && s.tasks[u] == Closed(k);
    }
  }

  lemma StepKeepsDoomed(s: State, e: Event)
    requires Enabled(s, e) && Doomed(s)
    ensures Doomed(Apply(s, e))
  {
    hide Stale, Honest;
    if !Honest(s) {
      StepKeepsLog(s, e);
    } else {
      var k :| Stale(s, k);
      StepKeepsStale(s, e, k);
    }
  }

  lemma {:induction false} FailedCloseStaysDoomed(s: State, es: seq<Event>)
    requires Locked(s) && Known(s) && Legal(s, es)
    ensures Locked(After(s, es)) && Known(After(s, es))
    ensures Doomed(s) || !ClosesSucceed(es) ==> Doomed(After(s, es))
    decreases |es|
  {
    hide Locked, Known, Doomed, Enabled, Apply;
    if es != [] {
      StepKeepsLocked(s, es[0]);
      StepKeepsKnown(s, es[0]);
      if Doomed(s) { StepKeepsDoomed(s, es[0]); }
      if es[0].CloseFails? { FailedCloseDooms(s, es[0]); }
      FailedCloseStaysDoomed(Apply(s, es[0]), es[1..]);
    }
  }

  lemma {:induction false} FreshNumber(used: set<nat>) returns (n: nat)
    ensures forall m :: m in used ==> m < n
    decreases |used|
  {
    n := 0;
    if used != {} {
      var m :| m in used;
      var below := FreshNumber(used - {m});
      n := if m < below then below else m + 1;
      assert forall x :: x in used ==> x == m || x in used - {m};
    }
  }

  /** With nobody writing, a reader can come and meet the stale entry. */
  lemma ReadStale(s: State, k: Key) returns (es: seq<Event>)
    requires Stale(s, k) && s.writer == {}
    ensures Legal(s, es) && ClosesSucceed(es) && !Honest(After(s, es))
  {
    hide Legal, After;
    var t := FreshNumber(s.tasks.Keys);
    assert t !in s.tasks.Keys;
    var e := s.table[k];
    var s1 := s.(readers := s.readers + {t}, tasks := s.tasks[t := Reading(k)]);
    var s2 := s1.(tasks := s.tasks[t := Ready(k, e)]);
    var s3 := s2.(log := s.log + [Meet(s2, e)]);
    assert s1.tasks[t := Ready(k, e)] == s2.tasks;
    NoStep(s3);
    es := OneStep(s2, Event.Access(t), s3, []);
    es := OneStep(s1, Find(t), s2, es);
    es := OneStep(s, LockToRead(t, k), s1, es);
    assert s3.log[|s.log|] == Meet(s2, e);
    assert Meet(s2, e) in s3.log;
  }

  /** How many steps there are until the write lock is free. */
  ghost function WriterWork(s: State): nat {
    if s.writer == {} then 0
    else if exists t :: t in s.writer && t in s.tasks && s.tasks[t].Releasing? && !CanClose(s, s.tasks[t].key) then 3
    else if exists t :: t in s.writer && t in s.tasks && s.tasks[t].Releasing? then 2
    else 1
  }

  /** A step towards it, which nothing can hold up; a descriptor that is closed may be given out again first. */
  lemma WriterMoves(s: State) returns (e: Event)
    requires Locked(s) && s.writer != {}
    ensures Enabled(s, e) && !e.CloseFails? && WriterWork(Apply(s, e)) < WriterWork(s)
  {
    var t :| t in s.writer;
    match s.tasks[t] {
      case Inserting(_) =>
        var key := FreshNumber(s.table.Keys);
        assert key !in s.table.Keys;
        e := Insert(t, key);
      case Releasing(key) =>
        if CanClose(s, key) {
          e := Close(t);
        } else {
          var desc := FreshNumber(s.owner.Keys);
          assert desc !in s.owner.Keys;
          e := OpenElsewhere(Entry(s.table[key].fd, desc));
        }
      case Closed(_) => e := Remove(t);
    }
  }

  /** What is doomed can be seen to go wrong, without any further failure. */
  lemma {:induction false} DoomedIsSeen(s: State) returns (es: seq<Event>)
    requires Locked(s) && Doomed(s)
    ensures Legal(s, es) && ClosesSucceed(es) && !Honest(After(s, es))
    decreases WriterWork(s)
  {
    if !Honest(s) {
      es := [];
    } else if s.writer == {} {
      var k :| Stale(s, k);
      es := ReadStale(s, k);
    } else {
      hide Legal, After, Locked, Doomed, Enabled, Apply, WriterWork, Honest;
      var e := WriterMoves(s);
      StepKeepsLocked(s, e);
      StepKeepsDoomed(s, e);
      var rest := DoomedIsSeen(Apply(s, e));
      es := OneStep(s, e, Apply(s, e), rest);
    }
  }

  lemma {:induction false} AfterBoth(s: State, a: seq<Event>, b: seq<Event>)
    requires Legal(s, a)
    ensures Legal(s, a + b) <==> Legal(After(s, a), b)
    ensures Legal(s, a + b) ==> After(s, a + b) == After(After(s, a), b)
    decreases |a|
  {
    hide Enabled, Apply;
    if a == [] {
      assert a + b == b;
    } else {
      assert (a + b)[1..] == a[1..] + b;
      AfterBoth(Apply(s, a[0]), a[1..], b);
    }
  }

  /** However the run goes on without a failing close, every access in it meets its file. */
  ghost predicate StaysHonest(es: seq<Event>) {
    forall more :: Legal(Init, es + more) && ClosesSucceed(more) ==> Honest(After(Init, es + more))
  }

  /** Exactly the runs in which no close has failed are safe, now and in every continuation. */
  lemma SafeIffClosesSucceed(es: seq<Event>)
    requires Legal(Init, es)
    ensures StaysHonest(es) <==> ClosesSucceed(es)
  {
    hide Legal, After, Inv, Doomed, Locked, Known;
    InitKeepsInv();
    if ClosesSucceed(es) {
      forall more | Legal(Init, es + more) && ClosesSucceed(more) ensures Honest(After(Init, es + more)) {
        RunKeepsInv(Init, es + more);
        InvIsHonest(After(Init, es + more));
      }
    } else {
      FailedCloseStaysDoomed(Init, es);
      var more := DoomedIsSeen(After(Init, es));
      AfterBoth(Init, es, more);
      assert !Honest(After(Init, es + more));
    }
  }

  lemma InvIsHonest(s: State)
    requires Inv(s)
    ensures Honest(s)
  {
  }
}
