/** What the fd replacer wants from the kernel: move an open descriptor to another path. */
module Reopening {
  import opened Bytes
  import opened Kernel

  /** The open of a path, made as call number `call`, yields a descriptor. */
  predicate Opens(o: Oracle, k: World, path: seq<byte>, call: nat) {
    |path| < PATH_MAX && o.open(call).Opened? && LowestFree(k.fds, 0) < k.limit
  }

  /**
    If the path can be opened, descriptor `fd` now refers to a new description of it that has the old
    status flags and the old position, but is no longer closed by an exec; otherwise nothing changes. A
    descriptor that was not open
    is a slip of the caller: it gets opened with the flags that the failed fcntl left behind,
    unless the temporary descriptor had the very same number.
   */
  function Reopen(o: Oracle, k: World, fd: u64, path: seq<byte>): World {
    var k1 := k.(opens := k.opens + 1);
    var t := Low(fd);
    if !Opens(o, k, path, k.opens) then k1
    else
      var seekable := o.open(k.opens).seekable;
      if t in k.fds && k.fds[t] < |k.files| then
        var was := k.files[k.fds[t]];
        var f := File(path, was.flags, seekable, if was.seekable && seekable then was.pos else 0);
        k1.(files := k.files + [f], fds := k.fds[t := |k.files|], cloexec := k.cloexec - {t})
      else
        StatusFlagsStable(U32_SIZE - EBADF);
        var f := File(path, StatusFlags(U32_SIZE - EBADF), seekable, 0);
        k1.(files := k.files + [f],
            fds := if t == LowestFree(k.fds, 0) || t >= k.limit then k.fds else k.fds[t := |k.files|])
  }

  lemma ReopenKeepsWellFormed(o: Oracle, k: World, fd: u64, path: seq<byte>)
    requires WellFormed(k)
    ensures WellFormed(Reopen(o, k, fd, path))
  {
    StatusFlagsStable(U32_SIZE - EBADF);
  }

  /** The arguments and the replies of the six calls of one turn. */
  datatype Turn = Turn(
    a1: Args, r1: Reply, a2: Args, r2: Reply, a3: Args, r3: Reply,
    a4: Args, r4: Reply, a5: Args, r5: Reply, a6: Args, r6: Reply)

  /** Each call is fed with the results of the ones before it. */
  ghost predicate SixCalls(o: Oracle, k: World, m: Memory, fd: u64, path: u64, c: Turn) {
    && c.a1.a1 == fd && c.a1.a2 == F_GETFL && c.r1 == Fcntl(k, m, c.a1)
    && c.a2.a1 == path && c.a2.a2 == c.r1.ret && c.r2 == Open(o, c.r1.world, m, c.a2)
    && c.a3.a1 == fd && c.a3.a2 == 0 && c.a3.a3 == SEEK_CUR && c.r3 == Lseek(c.r2.world, m, c.a3)
    && c.a4.a1 == c.r2.ret && c.a4.a2 == c.r3.ret && c.a4.a3 == SEEK_SET && c.r4 == Lseek(c.r3.world, m, c.a4)
    && c.a5.a1 == c.r2.ret && c.a5.a2 == fd && c.r5 == Dup2(c.r4.world, m, c.a5)
    && c.a6.a1 == c.r2.ret && c.r6 == Close(c.r5.world, m, c.a6)
  }

  lemma SixCallsReopen(o: Oracle, k: World, m: Memory, fd: u64, at: u64, path: seq<byte>, c: Turn)
    requires WellFormed(k) && SixCalls(o, k, m, fd, at, c)
    requires ReadCStr(m, at, PATH_MAX) == if |path| < PATH_MAX then Text(path) else TooLong
    ensures c.r6.world == Reopen(o, k, fd, path)
  {
    assert c.r1.world == k;
    if !Opens(o, k, path, k.opens) {
      FailedOpenChangesNothing(o, k, m, fd, at, path, c);
    } else if Low(fd) in k.fds {
      ReopenOfOpen(o, k, m, fd, at, path, c);
    } else {
      ReopenOfMissing(o, k, m, fd, at, path, c);
    }
  }

  lemma FailedOpenChangesNothing(o: Oracle, k: World, m: Memory, fd: u64, at: u64, path: seq<byte>, c: Turn)
    requires WellFormed(k) && SixCalls(o, k, m, fd, at, c)
    requires ReadCStr(m, at, PATH_MAX) == if |path| < PATH_MAX then Text(path) else TooLong
    requires !Opens(o, k, path, k.opens)
    ensures c.r6.world == k.(opens := k.opens + 1)
  {
    var k1 := k.(opens := k.opens + 1);
    assert c.r2.world == k1 && c.r2.ret >= U64_SIZE - 4095;
    assert Low(c.r2.ret) >= k.limit;
    TellChangesNothing(k1, m, c.a3);
    assert c.r3.world == k1;
  }

  /** Asking for the position moves nothing. */
  lemma TellChangesNothing(k: World, m: Memory, a: Args)
    requires a.a2 == 0 && a.a3 == SEEK_CUR
    ensures Lseek(k, m, a).world == k
    ensures Lseek(k, m, a).ret == Position(k, Low(a.a1))
  {
    var fd := Low(a.a1);
    if fd in k.fds && k.fds[fd] < |k.files| {
      assert k.files[k.fds[fd] := k.files[k.fds[fd]]] == k.files;
    }
  }

  /** The answer to lseek(fd, 0, SEEK_CUR). */
  function Position(k: World, fd: nat): u64 {
    if fd !in k.fds || k.fds[fd] >= |k.files| then Fails(EBADF)
    else
      var f := k.files[k.fds[fd]];
      if !f.seekable then Fails(ESPIPE)
      else if f.pos >= 0x8000_0000_0000_0000 then Fails(EINVAL)
      else f.pos
  }

  /** The world after a successful open, before anything is done with the new descriptor. */
  function WithNew(k: World, f: File): World {
    var fd := LowestFree(k.fds, 0);
    k.(opens := k.opens + 1, fds := k.fds[fd := |k.files|], files := k.files + [f], cloexec := Marked(k.cloexec, fd, f))
  }

  lemma OpenAddsOne(o: Oracle, k: World, m: Memory, a: Args, path: seq<byte>)
    requires ReadCStr(m, a.a1, PATH_MAX) == Text(path) && Opens(o, k, path, k.opens) && k.limit <= 0x8000_0000
    ensures Low(a.a2) < U32_SIZE && StatusFlags(Low(a.a2)) < U64_SIZE
    ensures Open(o, k, m, a).world == WithNew(k, File(path, StatusFlags(Low(a.a2)), o.open(k.opens).seekable, 0))
    ensures Open(o, k, m, a).ret == LowestFree(k.fds, 0)
  {
    StatusFlagsStable(Low(a.a2));
  }

  /** Seeking the new descriptor to an answer of `Position` copies a real position and nothing else. */
  lemma SeekNew(k: World, m: Memory, a: Args, f: File)
    requires f.pos == 0 && Low(a.a1) == LowestFree(k.fds, 0) && a.a3 == SEEK_SET
    requires a.a2 < 0x8000_0000_0000_0000 || a.a2 >= U64_SIZE - 4095
    ensures Lseek(WithNew(k, f), m, a).world
         == WithNew(k, f.(pos := if f.seekable && a.a2 < 0x8000_0000_0000_0000 then a.a2 else 0))
  {
    var i := |k.files|;
    var g := f.(pos := if f.seekable && a.a2 < 0x8000_0000_0000_0000 then a.a2 else 0);
    assert (k.files + [f])[i := g] == k.files + [g];
  }

  /** dup2 onto `t` and close of the temporary descriptor: only `t` has changed. */
  lemma DupAndClose(k: World, m: Memory, f: File, a: Args, b: Args)
    requires Low(a.a1) == Low(b.a1) == LowestFree(k.fds, 0) && k.cloexec <= k.fds.Keys
    ensures var t, w := Low(a.a2), WithNew(k, f);
      Close(Dup2(w, m, a).world, m, b).world ==
      if t == LowestFree(k.fds, 0) || t >= k.limit then w.(fds := k.fds, cloexec := k.cloexec)
      else w.(fds := k.fds[t := |k.files|], cloexec := k.cloexec - {t})
  {
    var t, n, i := Low(a.a2), LowestFree(k.fds, 0), |k.files|;
    assert n !in k.fds.Keys;
    if t == n || t >= k.limit {
      assert k.fds[n := i] - {n} == k.fds;
      assert Marked(k.cloexec, n, f) - {n} == k.cloexec;
    } else {
      assert k.fds[n := i][t := i] - {n} == k.fds[t := i];
      assert Marked(k.cloexec, n, f) - {t} - {n} == k.cloexec - {t};
    }
  }

  /** The answer to fcntl(fd, F_GETFL) for an open descriptor. */
  lemma FlagsOfOpen(k: World, m: Memory, a: Args) returns (was: File)
    requires WellFormed(k) && Low(a.a1) in k.fds && a.a2 == F_GETFL
    ensures Low(a.a1) < k.limit <= 0x8000_0000 && k.cloexec <= k.fds.Keys
    ensures k.fds[Low(a.a1)] < |k.files| && was == k.files[k.fds[Low(a.a1)]]
    ensures was.flags < U32_SIZE && StatusFlags(was.flags) == was.flags && was.pos < 0x8000_0000_0000_0000
    ensures Fcntl(k, m, a).world == k && Fcntl(k, m, a).ret == was.flags
  {
    was := k.files[k.fds[Low(a.a1)]];
    assert was in k.files;
  }

  lemma ReopenOfOpen(o: Oracle, k: World, m: Memory, fd: u64, at: u64, path: seq<byte>, c: Turn)
    requires WellFormed(k) && SixCalls(o, k, m, fd, at, c)
    requires ReadCStr(m, at, PATH_MAX) == Text(path)
    requires Opens(o, k, path, k.opens) && Low(fd) in k.fds
    ensures c.r6.world == Reopen(o, k, fd, path)
  {
    hide Lseek, Open, Dup2, Close, Fcntl, LowestFree, StatusFlags, WellFormed;
    var was := FlagsOfOpen(k, m, c.a1);
    OpenAddsOne(o, k, m, c.a2, path);
    var f := File(path, was.flags, o.open(k.opens).seekable, 0);
    TellChangesNothing(WithNew(k, f), m, c.a3);
    SeekNew(k, m, c.a4, f);
    var g := f.(pos := if was.seekable && f.seekable then was.pos else 0);
    assert c.r4.world == WithNew(k, g);
    DupAndClose(k, m, g, c.a5, c.a6);
  }

  lemma FlagsOfMissing(k: World, m: Memory, a: Args)
    requires Low(a.a1) !in k.fds
    ensures Fcntl(k, m, a).world == k && Low(Fcntl(k, m, a).ret) == U32_SIZE - EBADF
  {
  }

  lemma ReopenOfMissing(o: Oracle, k: World, m: Memory, fd: u64, at: u64, path: seq<byte>, c: Turn)
    requires WellFormed(k) && SixCalls(o, k, m, fd, at, c)
    requires ReadCStr(m, at, PATH_MAX) == Text(path)
    requires Opens(o, k, path, k.opens) && Low(fd) !in k.fds
    ensures c.r6.world == Reopen(o, k, fd, path)
  {
    hide Lseek, Open, Dup2, Close, Fcntl, LowestFree, StatusFlags;
    FlagsOfMissing(k, m, c.a1);
    OpenAddsOne(o, k, m, c.a2, path);
    var f := File(path, StatusFlags(U32_SIZE - EBADF), o.open(k.opens).seekable, 0);
    TellChangesNothing(WithNew(k, f), m, c.a3);
    SeekNew(k, m, c.a4, f);
    assert c.r4.world == WithNew(k, f);
    DupAndClose(k, m, f, c.a5, c.a6);
  }
}
