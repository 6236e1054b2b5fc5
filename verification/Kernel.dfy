/**
  The part of the Linux kernel that the injected code talks to: the descriptor table of the
  traced process, open file descriptions, the mapped memory and the working directory.
  What the kernel is free to decide (whether an open succeeds, where a mapping goes) is read
  from an `Oracle`; every theorem holds for every oracle.
 */
module Kernel {
  import opened Bytes

  const PATH_MAX: nat := 4096
  const PAGE: nat := 4096
  const USER_TOP: int := 0x7fff_ffff_f000

  type Errno = e: int | 1 <= e <= 4095 witness 1

  const EBADF: Errno := 9
  const ENOMEM: Errno := 12
  const EFAULT: Errno := 14
  const EINVAL: Errno := 22
  const EMFILE: Errno := 24
  const ESPIPE: Errno := 29
  const ENAMETOOLONG: Errno := 36
  const ENOSYS: Errno := 38

  const SYS_OPEN: u64 := 2
  const SYS_CLOSE: u64 := 3
  const SYS_LSEEK: u64 := 8
  const SYS_MMAP: u64 := 9
  const SYS_MUNMAP: u64 := 11
  const SYS_DUP2: u64 := 33
  const SYS_FCNTL: u64 := 72
  const SYS_CHDIR: u64 := 80

  const F_GETFL: u64 := 3
  const SEEK_SET: u64 := 0
  const SEEK_CUR: u64 := 1
  const O_RDWR: u64 := 2
  const O_CLOEXEC: u64 := 0x80000
  const MAP_FIXED: u64 := 0x10
  const MAP_ANON: u64 := 0x20

  /** An open file description. */
  datatype File = File(path: seq<byte>, flags: u64, seekable: bool, pos: nat)

  datatype OpenReply = Opened(seekable: bool) | Refused(errno: Errno)
  datatype MmapReply = Placed(addr: int, content: int -> byte) | NotPlaced(errno: Errno)
  datatype ChdirReply = Entered | NotEntered(errno: Errno)

  datatype Oracle = Oracle(open: nat -> OpenReply, mmap: nat -> MmapReply, chdir: nat -> ChdirReply)

  /**
    `fds` maps a descriptor to an index in `files`, and `cloexec` are those that an exec closes; `opens`,
    `mmaps` and `chdirs` count the calls made.
   */
  datatype World = World(
    fds: map<nat, nat>, cloexec: set<nat>, files: seq<File>, limit: nat, cwd: seq<byte>,
    opens: nat, mmaps: nat, chdirs: nat)

  datatype Args = Args(a1: u64, a2: u64, a3: u64, a4: u64, a5: u64, a6: u64)
  datatype Reply = Reply(world: World, mem: Memory, ret: u64)

  /** A failing call returns the negated error number. */
  function Fails(e: Errno): u64 {
    U64_SIZE - e
  }

  /** Descriptors, commands and open flags are C ints: the kernel looks at the low half. */
  function Low(x: u64): (n: nat)
    ensures n < U32_SIZE
  {
    x % U32_SIZE
  }

  // ----- open flags: creation flags act once and are not kept -----

  /** Drops bits 6 to 9: O_CREAT, O_EXCL, O_NOCTTY and O_TRUNC. */
  function StatusFlags(f: nat): nat {
    f % 0x40 + f / 0x400 * 0x400
  }

  lemma StatusFlagsStable(f: nat)
    ensures StatusFlags(StatusFlags(f)) == StatusFlags(f) <= f
  {
    var high, low := f / 0x400, f % 0x40;
    HighPart(StatusFlags(f), high, low);
    LowPart(StatusFlags(f), 16 * high, low);
    LowPartIsLess(f);
  }

  lemma HighPart(x: nat, q: nat, r: nat)
    requires x == 0x400 * q + r && r < 0x400
    ensures x / 0x400 == q
  {
  }

  lemma LowPart(x: nat, q: nat, r: nat)
    requires x == 0x40 * q + r && r < 0x40
    ensures x % 0x40 == r
  {
  }

  lemma LowPartIsLess(f: nat)
    ensures f % 0x40 <= f % 0x400
  {
    var between := f / 0x40 - 16 * (f / 0x400);
    assert f % 0x400 == 0x40 * between + f % 0x40;
  }

  // ----- well-formed tables -----

  ghost predicate WellFormed(k: World) {
    && k.limit <= 0x8000_0000
    && k.cloexec <= k.fds.Keys
    && (forall fd :: fd in k.fds ==> fd < k.limit && k.fds[fd] < |k.files|)
    && (forall f :: f in k.files ==> f.flags < U32_SIZE && StatusFlags(f.flags) == f.flags && f.pos < 0x8000_0000_0000_0000)
  }

  /** A new descriptor is the lowest one not in use. */
  function LowestFree(fds: map<nat, nat>, from: nat): (r: nat)
    ensures from <= r && r !in fds
    ensures forall i :: from <= i < r ==> i in fds
    decreases |fds|
  {
    if from !in fds then from
    else
      assert from in fds.Keys;
      assert (fds - {from}).Keys == fds.Keys - {from};
      var r := LowestFree(fds - {from}, from + 1);
      assert forall i :: from < i < r ==> i in fds by {
        forall i | from < i < r ensures i in fds { assert i in fds - {from}; }
      }
      r
  }

  // ----- the system calls -----

  /** A new descriptor is closed by an exec exactly if it was opened so. */
  function Marked(cloexec: set<nat>, fd: nat, f: File): set<nat> {
    if HasBit(f.flags, O_CLOEXEC) then cloexec + {fd} else cloexec - {fd}
  }

  function Open(o: Oracle, k: World, m: Memory, a: Args): (r: Reply)
    ensures r.mem == m
  {
    var k1 := k.(opens := k.opens + 1);
    match ReadCStr(m, a.a1, PATH_MAX)
    case Fault => Reply(k1, m, Fails(EFAULT))
    case TooLong => Reply(k1, m, Fails(ENAMETOOLONG))
    case Text(path) =>
      match o.open(k.opens)
      case Refused(e) => Reply(k1, m, Fails(e))
      case Opened(seekable) =>
        var fd := LowestFree(k.fds, 0);
        if fd >= k.limit || fd >= 0x8000_0000 then Reply(k1, m, Fails(EMFILE))
        else
          StatusFlagsStable(Low(a.a2));
          var f := File(path, StatusFlags(Low(a.a2)), seekable, 0);
          Reply(k1.(fds := k.fds[fd := |k.files|], files := k.files + [f], cloexec := Marked(k.cloexec, fd, f)), m, fd)
  }

  function Close(k: World, m: Memory, a: Args): (r: Reply)
    ensures r.mem == m
  {
    var fd := Low(a.a1);
    if fd !in k.fds then Reply(k, m, Fails(EBADF))
    else Reply(k.(fds := k.fds - {fd}, cloexec := k.cloexec - {fd}), m, 0)
  }

  function Fcntl(k: World, m: Memory, a: Args): (r: Reply)
    ensures r.mem == m
  {
    var fd := Low(a.a1);
    if fd !in k.fds || k.fds[fd] >= |k.files| then Reply(k, m, Fails(EBADF))
    else if Low(a.a2) != F_GETFL then Reply(k, m, Fails(EINVAL))
    else Reply(k, m, k.files[k.fds[fd]].flags)
  }

  function Lseek(k: World, m: Memory, a: Args): (r: Reply)
    ensures r.mem == m
  {
    var fd := Low(a.a1);
    if fd !in k.fds || k.fds[fd] >= |k.files| then Reply(k, m, Fails(EBADF))
    else
      var f := k.files[k.fds[fd]];
      if !f.seekable then Reply(k, m, Fails(ESPIPE))
      else
        var whence := Low(a.a3);
        var target := if whence == SEEK_CUR then f.pos + Signed(a.a2) else Signed(a.a2);
        if whence > 1 || target < 0 || target >= 0x8000_0000_0000_0000 then Reply(k, m, Fails(EINVAL))
        else Reply(k.(files := k.files[k.fds[fd] := f.(pos := target)]), m, target)
  }

  /** The copy is not closed by an exec, whatever the original is. */
  function Dup2(k: World, m: Memory, a: Args): (r: Reply)
    ensures r.mem == m
  {
    var from, to := Low(a.a1), Low(a.a2);
    if from !in k.fds || to >= k.limit then Reply(k, m, Fails(EBADF))
    else if from == to then Reply(k, m, to)
    else Reply(k.(fds := k.fds[to := k.fds[from]], cloexec := k.cloexec - {to}), m, to)
  }

  function PageUp(len: nat): (n: nat)
    ensures n % PAGE == 0 && len <= n < len + PAGE
  {
    (len + PAGE - 1) / PAGE * PAGE
  }

  function Without(m: Memory, addr: int, len: nat): Memory {
    map a | a in m && !Within(a, addr, len) :: m[a]
  }

  function Munmap(k: World, m: Memory, a: Args): Reply {
    if a.a1 % PAGE != 0 || a.a2 == 0 || a.a1 + PageUp(a.a2) > USER_TOP then Reply(k, m, Fails(EINVAL))
    else Reply(k, Without(m, a.a1, PageUp(a.a2)), 0)
  }

  predicate HasBit(x: nat, bit: nat)
    requires bit > 0
  {
    (x / bit) % 2 == 1
  }

  /** Without MAP_FIXED a mapping only goes where nothing is mapped; the first argument is a hint. */
  function Mmap(o: Oracle, k: World, m: Memory, a: Args): Reply {
    var k1 := k.(mmaps := k.mmaps + 1);
    if a.a2 == 0 then Reply(k1, m, Fails(EINVAL))
    else if !HasBit(a.a4, MAP_ANON) && Low(a.a5) !in k.fds then Reply(k1, m, Fails(EBADF))
    else
      match o.mmap(k.mmaps)
      case NotPlaced(e) => Reply(k1, m, Fails(e))
      case Placed(at, content) =>
        var len := PageUp(a.a2);
        var addr := if HasBit(a.a4, MAP_FIXED) then a.a1 else at;
        if addr % PAGE != 0 || addr < 0 || addr + len > USER_TOP then Reply(k1, m, Fails(EINVAL))
        else if !HasBit(a.a4, MAP_FIXED) && exists x :: x in m && Within(x, addr, len) then
          Reply(k1, m, Fails(ENOMEM))
        else
          Reply(k1, m + map x | x in Span(addr, len) :: content(x), addr)
  }

  function Chdir(o: Oracle, k: World, m: Memory, a: Args): (r: Reply)
    ensures r.mem == m
  {
    var k1 := k.(chdirs := k.chdirs + 1);
    match ReadCStr(m, a.a1, PATH_MAX)
    case Fault => Reply(k1, m, Fails(EFAULT))
    case TooLong => Reply(k1, m, Fails(ENAMETOOLONG))
    case Text(path) =>
      match o.chdir(k.chdirs)
      case NotEntered(e) => Reply(k1, m, Fails(e))
      case Entered => Reply(k1.(cwd := path), m, 0)
  }

  function SystemCall(o: Oracle, k: World, m: Memory, nr: u64, a: Args): Reply {
    if nr == SYS_OPEN then Open(o, k, m, a)
    else if nr == SYS_CLOSE then Close(k, m, a)
    else if nr == SYS_LSEEK then Lseek(k, m, a)
    else if nr == SYS_MMAP then Mmap(o, k, m, a)
    else if nr == SYS_MUNMAP then Munmap(k, m, a)
    else if nr == SYS_DUP2 then Dup2(k, m, a)
    else if nr == SYS_FCNTL then Fcntl(k, m, a)
    else if nr == SYS_CHDIR then Chdir(o, k, m, a)
    else Reply(k, m, Fails(ENOSYS))
  }
}
