/** src/replacer/fd_replacer.rs: the fd loop on a case table that may name a descriptor more than once. */
module RepeatedCases {
  import opened Bytes
  import opened Kernel
  import opened Reopening
  import opened FdReplacer

  /** Job `i` opens its path and so moves descriptor `fd` there. */
  predicate MovedBy(o: Oracle, k: World, jobs: seq<Job>, fd: nat, i: int) {
    0 <= i < |jobs| && Low(jobs[i].fd) == fd && Opens(o, k, jobs[i].path, k.opens + i)
  }

  /** The last job that moves descriptor `fd`, or -1. */
  function LastMove(o: Oracle, k: World, jobs: seq<Job>, fd: nat): (r: int)
    ensures r == -1 || MovedBy(o, k, jobs, fd, r)
    ensures forall i :: MovedBy(o, k, jobs, fd, i) ==> i <= r
  {
    if jobs == [] then -1
    else if MovedBy(o, k, jobs, fd, |jobs| - 1) then |jobs| - 1
    else
      var front := jobs[..|jobs| - 1];
      assert forall i :: MovedBy(o, k, front, fd, i) ==> MovedBy(o, k, jobs, fd, i);
      assert forall i :: MovedBy(o, k, jobs, fd, i) ==> MovedBy(o, k, front, fd, i);
      LastMove(o, k, front, fd)
  }

  /** Every description that `fd` had since the start could be positioned. */
  ghost predicate AlwaysSeekable(o: Oracle, k: World, jobs: seq<Job>, fd: nat)
    requires fd in k.fds && k.fds[fd] < |k.files|
  {
    k.files[k.fds[fd]].seekable && forall i :: MovedBy(o, k, jobs, fd, i) ==> o.open(k.opens + i).seekable
  }

  /** The description in which descriptor `fd` ends when job `r` is the last to move it. */
  ghost function LastFile(o: Oracle, k: World, jobs: seq<Job>, fd: nat, r: int): File
    requires fd in k.fds && k.fds[fd] < |k.files| && MovedBy(o, k, jobs, fd, r)
  {
    var was := k.files[k.fds[fd]];
    File(jobs[r].path, was.flags, o.open(k.opens + r).seekable, if AlwaysSeekable(o, k, jobs, fd) then was.pos else 0)
  }

  /**
    Where descriptor `fd` ends: at the path of the last job that moves it, with its original flags, and with
    its original position unless something on the way had none; where it was if no job moves it.
   */
  ghost predicate EndsAtLast(o: Oracle, k: World, t: World, jobs: seq<Job>, fd: nat)
    requires fd in k.fds && k.fds[fd] < |k.files|
  {
    var r := LastMove(o, k, jobs, fd);
    && fd in t.fds && t.fds[fd] < |t.files|
    && if r < 0
       then t.fds[fd] == k.fds[fd] && t.files[t.fds[fd]] == k.files[k.fds[fd]] && (fd in t.cloexec <==> fd in k.cloexec)
       else
         && t.files[t.fds[fd]] == LastFile(o, k, jobs, fd, r) && fd !in t.cloexec
         && forall g :: g in t.fds && g != fd ==> t.fds[g] != t.fds[fd]
  }

  predicate AllOpen(k: World, jobs: seq<Job>) {
    forall i :: 0 <= i < |jobs| ==> Low(jobs[i].fd) in k.fds
  }

  // ----- one job at the end -----

  lemma {:induction false} ReopenAllThenOne(o: Oracle, k: World, jobs: seq<Job>, job: Job)
    requires WellFormed(k)
    ensures var t := ReopenAll(o, k, jobs);
      && ReopenAll(o, k, jobs + [job]) == Reopen(o, t, job.fd, job.path)
      && WellFormed(t) && t.opens == k.opens + |jobs| && t.limit == k.limit
    decreases |jobs|
  {
    if jobs != [] {
      var k1 := Reopen(o, k, jobs[0].fd, jobs[0].path);
      ReopenKeepsWellFormed(o, k, jobs[0].fd, jobs[0].path);
      assert k1.opens == k.opens + 1 && k1.limit == k.limit;
      hide Reopen, WellFormed;
      assert (jobs + [job])[1..] == jobs[1..] + [job];
      ReopenAllThenOne(o, k1, jobs[1..], job);
    } else {
      assert (jobs + [job])[1..] == [];
    }
  }

  /** The world before the last job, with the same descriptors open as at the start. */
  ghost predicate Before(o: Oracle, k: World, t: World, jobs: seq<Job>) {
    && jobs != [] && WellFormed(k) && WellFormed(t) && AllOpen(k, jobs)
    && t.fds.Keys == k.fds.Keys && t.opens == k.opens + |jobs| - 1 && t.limit == k.limit
  }

  lemma SameOpens(o: Oracle, k: World, t: World, jobs: seq<Job>)
    requires Before(o, k, t, jobs)
    ensures var path := jobs[|jobs| - 1].path;
      Opens(o, t, path, t.opens) <==> Opens(o, k, path, k.opens + |jobs| - 1)
  {
    LowestFreeByKeys(k.fds, t.fds);
  }

  lemma MovesOfFront(o: Oracle, k: World, jobs: seq<Job>, fd: nat, i: int)
    requires jobs != []
    ensures var front := jobs[..|jobs| - 1];
      MovedBy(o, k, jobs, fd, i) <==> MovedBy(o, k, front, fd, i) || (i == |front| && MovedBy(o, k, jobs, fd, |front|))
  {
  }

  /** The last job leaves `fd` alone. */
  lemma LastJobSpares(o: Oracle, k: World, t: World, jobs: seq<Job>, fd: nat)
    requires Before(o, k, t, jobs) && fd in k.fds && EndsAtLast(o, k, t, jobs[..|jobs| - 1], fd)
    requires !MovedBy(o, k, jobs, fd, |jobs| - 1)
    ensures EndsAtLast(o, k, Reopen(o, t, jobs[|jobs| - 1].fd, jobs[|jobs| - 1].path), jobs, fd)
  {
    hide LowestFree, Opens;
    var front, job := jobs[..|jobs| - 1], jobs[|jobs| - 1];
    SameOpens(o, k, t, jobs);
    forall i ensures MovedBy(o, k, jobs, fd, i) <==> MovedBy(o, k, front, fd, i) { MovesOfFront(o, k, jobs, fd, i); }
    assert LastMove(o, k, jobs, fd) == LastMove(o, k, front, fd);
    assert AlwaysSeekable(o, k, jobs, fd) == AlwaysSeekable(o, k, front, fd);
    assert Low(job.fd) in k.fds.Keys;
  }

  /** The last job moves `fd`. */
  lemma LastJobMoves(o: Oracle, k: World, t: World, jobs: seq<Job>, fd: nat)
    requires Before(o, k, t, jobs) && fd in k.fds && EndsAtLast(o, k, t, jobs[..|jobs| - 1], fd)
    requires MovedBy(o, k, jobs, fd, |jobs| - 1)
    ensures EndsAtLast(o, k, Reopen(o, t, jobs[|jobs| - 1].fd, jobs[|jobs| - 1].path), jobs, fd)
  {
    hide LowestFree, Opens;
    SameOpens(o, k, t, jobs);
    SeekableOverAll(o, k, t, jobs, fd);
    assert LastMove(o, k, jobs, fd) == |jobs| - 1;
  }

  lemma SeekableOverAll(o: Oracle, k: World, t: World, jobs: seq<Job>, fd: nat)
    requires Before(o, k, t, jobs) && fd in k.fds && EndsAtLast(o, k, t, jobs[..|jobs| - 1], fd)
    requires MovedBy(o, k, jobs, fd, |jobs| - 1)
    ensures var now, was := t.files[t.fds[fd]], k.files[k.fds[fd]];
      && now.flags == was.flags
      && (if now.seekable && o.open(t.opens).seekable then now.pos else 0)
         == (if AlwaysSeekable(o, k, jobs, fd) then was.pos else 0)
  {
    hide LowestFree;
    var front := jobs[..|jobs| - 1];
    forall i ensures MovedBy(o, k, jobs, fd, i) <==> MovedBy(o, k, front, fd, i) || i == |front| {
      MovesOfFront(o, k, jobs, fd, i);
    }
    assert AlwaysSeekable(o, k, jobs, fd) <==> AlwaysSeekable(o, k, front, fd) && o.open(t.opens).seekable;
    var r := LastMove(o, k, front, fd);
    if r < 0 {
      assert forall i :: !MovedBy(o, k, front, fd, i);
    } else {
      assert MovedBy(o, k, front, fd, r);
    }
  }

  /**
    For every case list over open descriptors, repeated or not: each descriptor ends at the path of its last
    case whose open succeeded, with its original flags, and on a description of its own.
   */
  lemma {:induction false} LastCaseWins(o: Oracle, k: World, jobs: seq<Job>, fd: nat)
    requires WellFormed(k) && AllOpen(k, jobs) && fd in k.fds
    ensures EndsAtLast(o, k, ReopenAll(o, k, jobs), jobs, fd)
  {
    if jobs != [] {
      hide Reopen, WellFormed, EndsAtLast;
      var front, job := jobs[..|jobs| - 1], jobs[|jobs| - 1];
      assert jobs == front + [job];
      LastCaseWins(o, k, front, fd);
      ReopenAllThenOne(o, k, front, job);
      ReopenAllSparesOthers(o, k, front);
      var t := ReopenAll(o, k, front);
      assert Before(o, k, t, jobs);
      if MovedBy(o, k, jobs, fd, |jobs| - 1) {
        LastJobMoves(o, k, t, jobs, fd);
      } else {
        LastJobSpares(o, k, t, jobs, fd);
      }
    }
  }

  /** A descriptor that an exec would have closed is still so exactly if no case moved it. */
  lemma CloseOnExecKeptIff(o: Oracle, k: World, jobs: seq<Job>, fd: nat)
    requires WellFormed(k) && AllOpen(k, jobs) && fd in k.cloexec
    ensures fd in ReopenAll(o, k, jobs).cloexec <==> forall i :: !MovedBy(o, k, jobs, fd, i)
  {
    assert fd in k.fds.Keys;
    LastCaseWins(o, k, jobs, fd);
    var r := LastMove(o, k, jobs, fd);
    assert r < 0 ==> forall i :: !MovedBy(o, k, jobs, fd, i);
  }
}
