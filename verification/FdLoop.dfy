/**
  src/replacer/fd_replacer.rs: the loop that the fd replacer runs inside the traced process.
  The loop is executed instruction by instruction; each turn is shown to be one `Reopen`.
 */
module FdLoop {
  import opened Bytes
  import opened Kernel
  import opened Machine
  import opened Layout
  import opened Reopening

  const START := 3
  const END := 33
  const CASE_SIZE := 16

  function CodeAt(i: nat): Instr {
    match i
    case 0 => XorSelf(R15)
    case 1 => Lea(R14, Cases)
    case 2 => Jmp(END)
    // start: fcntl(fd, F_GETFL)
    case 3 => MovImm(RAX, 0x48)
    case 4 => MovField(RDI, 0)
    case 5 => MovImm(RSI, 0x3)
    case 6 => MovImm(RDX, 0x0)
    case 7 => Syscall
    case 8 => Mov(RSI, RAX)
    // open(path, flags, 0), the new descriptor is kept in r12
    case 9 => MovImm(RAX, 0x2)
    case 10 => Lea(RDI, NewPaths)
    case 11 => AddField(RDI, 8)
    case 12 => MovImm(RDX, 0x0)
    case 13 => Syscall
    case 14 => Mov(R12, RAX)
    // lseek(fd, 0, SEEK_CUR)
    case 15 => MovImm(RAX, 0x8)
    case 16 => MovField(RDI, 0)
    case 17 => MovImm(RSI, 0)
    case 18 => MovImm(RDX, SEEK_CUR)
    case 19 => Syscall
    case 20 => Mov(RDI, R12)
    case 21 => Mov(RSI, RAX)
    // lseek(r12, position, SEEK_SET)
    case 22 => MovImm(RAX, 0x8)
    case 23 => MovImm(RDX, SEEK_SET)
    case 24 => Syscall
    // dup2(r12, fd)
    case 25 => MovImm(RAX, 0x21)
    case 26 => Mov(RDI, R12)
    case 27 => MovField(RSI, 0)
    case 28 => Syscall
    // close(r12)
    case 29 => MovImm(RAX, 0x3)
    case 30 => Mov(RDI, R12)
    case 31 => Syscall
    case 32 => AddImm(R15, CASE_SIZE)
    // end:
    case 33 => MovLabel(R13, CasesLength)
    case 34 => Cmp(R15, R13)
    case 35 => Jb(START)
    case _ => Int3
  }

  function Code(): (c: seq<Instr>)
    ensures |c| == 37
  {
    seq(37, i requires 0 <= i < 37 => CodeAt(i))
  }

  /** r14 + r15 addresses the record of the current case: its descriptor and its path offset. */
  ghost predicate PointsAt(s: State, at: int, fd: u64, off: u64) {
    && s.status == Running
    && Get(s.regs, R14) + Get(s.regs, R15) == at && 0 <= at && at + 16 <= USER_TOP
    && Mapped(s.mem, at, 8) && ReadWord(s.mem, at) == fd
    && Mapped(s.mem, at + 8, 8) && ReadWord(s.mem, at + 8) == off
  }

  /** Everything that a part of the loop leaves alone. */
  ghost predicate Kept(s: State, t: State) {
    && t.status == s.status == Running
    && Get(t.regs, R14) == Get(s.regs, R14) && Get(t.regs, R15) == Get(s.regs, R15)
    && Get(t.regs, RSP) == Get(s.regs, RSP)
  }

  /** The kernel served call `nr` with arguments `a` between `s` and `t`. */
  ghost predicate Served(kernel: KernelFn, s: State, t: State, nr: u64, a: Args) {
    var r := kernel(s.world, s.mem, nr, a);
    t.world == r.world && t.mem == r.mem
  }

  lemma FcntlCode()
    ensures Code()[3] == MovImm(RAX, 0x48)
    ensures Code()[4] == MovField(RDI, 0)
    ensures Code()[5] == MovImm(RSI, 0x3)
    ensures Code()[6] == MovImm(RDX, 0x0)
    ensures Code()[7] == Syscall
    ensures Code()[8] == Mov(RSI, RAX)
  {
  }

  /** fcntl(fd, F_GETFL): the status flags end up in rsi. */
  lemma FcntlPart(e: Execution, at: int, fd: u64, off: u64) returns (t: Execution, a: Args)
    requires Reached(e) && e.p.code == Code() && e.now.pc == 3 && PointsAt(e.now, at, fd, off)
    ensures Reached(t) && t == e.(steps := e.steps + 6, now := t.now) && t.now.pc == 9
    ensures Kept(e.now, t.now) && Served(e.kernel, e.now, t.now, SYS_FCNTL, a)
    ensures a.a1 == fd && a.a2 == F_GETFL
    ensures Get(t.now.regs, RSI) == e.kernel(e.now.world, e.now.mem, SYS_FCNTL, a).ret
  {
    hide Reached, ReadWord, Mapped, Code, CodeAt, Get;
    FcntlCode();
    var e1 := e.DoMovImm(RAX, 0x48);
    var e2 := e1.DoMovField(RDI, 0, at);
    var e3 := e2.DoMovImm(RSI, 0x3);
    var e4 := e3.DoMovImm(RDX, 0x0);
    a := SyscallArgs(e4.now.regs);
    var e5 := e4.DoSyscall();
    t := e5.DoMov(RSI, RAX);
  }

  lemma OpenCode()
    ensures Code()[9] == MovImm(RAX, 0x2)
    ensures Code()[10] == Lea(RDI, NewPaths)
    ensures Code()[11] == AddField(RDI, 8)
    ensures Code()[12] == MovImm(RDX, 0x0)
    ensures Code()[13] == Syscall
    ensures Code()[14] == Mov(R12, RAX)
  {
  }

  /** open(path, flags): the result is kept in r12. */
  lemma OpenPart(e: Execution, at: int, fd: u64, off: u64) returns (t: Execution, a: Args)
    requires Reached(e) && e.p.code == Code() && e.now.pc == 9 && PointsAt(e.now, at, fd, off)
    requires e.p.newPaths + off < U64_SIZE
    ensures Reached(t) && t == e.(steps := e.steps + 6, now := t.now) && t.now.pc == 15
    ensures Kept(e.now, t.now) && Served(e.kernel, e.now, t.now, SYS_OPEN, a)
    ensures a.a1 == e.p.newPaths + off && a.a2 == Get(e.now.regs, RSI)
    ensures Get(t.now.regs, R12) == e.kernel(e.now.world, e.now.mem, SYS_OPEN, a).ret
  {
    hide Reached, ReadWord, Mapped, Code, CodeAt, Get;
    OpenCode();
    var e1 := e.DoMovImm(RAX, 0x2);
    var e2 := e1.DoLea(RDI, NewPaths);
    var e3 := e2.DoAddField(RDI, 8, at + 8);
    var e4 := e3.DoMovImm(RDX, 0x0);
    a := SyscallArgs(e4.now.regs);
    var e5 := e4.DoSyscall();
    t := e5.DoMov(R12, RAX);
  }

  lemma TellCode()
    ensures Code()[15] == MovImm(RAX, 0x8)
    ensures Code()[16] == MovField(RDI, 0)
    ensures Code()[17] == MovImm(RSI, 0)
    ensures Code()[18] == MovImm(RDX, SEEK_CUR)
    ensures Code()[19] == Syscall
    ensures Code()[20] == Mov(RDI, R12)
    ensures Code()[21] == Mov(RSI, RAX)
  {
  }

  /** lseek(fd, 0, SEEK_CUR): the position ends up in rsi, the new descriptor in rdi. */
  lemma TellPart(e: Execution, at: int, fd: u64, off: u64) returns (t: Execution, a: Args)
    requires Reached(e) && e.p.code == Code() && e.now.pc == 15 && PointsAt(e.now, at, fd, off)
    ensures Reached(t) && t == e.(steps := e.steps + 7, now := t.now) && t.now.pc == 22
    ensures Kept(e.now, t.now) && Served(e.kernel, e.now, t.now, SYS_LSEEK, a)
    ensures a.a1 == fd && a.a2 == 0 && a.a3 == SEEK_CUR
    ensures Get(t.now.regs, RSI) == e.kernel(e.now.world, e.now.mem, SYS_LSEEK, a).ret
    ensures Get(t.now.regs, RDI) == Get(t.now.regs, R12) == Get(e.now.regs, R12)
  {
    hide Reached, ReadWord, Mapped, Code, CodeAt, Get, PointsAt;
    TellCode();
    var e1 := TellArgsPart(e, at, fd, off);
    a := SyscallArgs(e1.now.regs);
    var e2 := e1.DoSyscall();
    t := PositionPart(e2);
  }

  lemma TellArgsPart(e: Execution, at: int, fd: u64, off: u64) returns (t: Execution)
    requires Reached(e) && e.p.code == Code() && e.now.pc == 15 && PointsAt(e.now, at, fd, off)
    ensures Reached(t) && t == e.(steps := e.steps + 4, now := t.now) && t.now.pc == 19
    ensures Kept(e.now, t.now) && t.now.world == e.now.world && t.now.mem == e.now.mem
    ensures Get(t.now.regs, R12) == Get(e.now.regs, R12) && Get(t.now.regs, RAX) == SYS_LSEEK
    ensures Get(t.now.regs, RDI) == fd && Get(t.now.regs, RSI) == 0 && Get(t.now.regs, RDX) == SEEK_CUR
  {
    hide Reached, ReadWord, Mapped, Code, CodeAt, Get;
    TellCode();
    var e1 := e.DoMovImm(RAX, 0x8);
    var e2 := e1.DoMovField(RDI, 0, at);
    var e3 := e2.DoMovImm(RSI, 0);
    t := e3.DoMovImm(RDX, SEEK_CUR);
  }

  /** The new descriptor goes to rdi and the position to rsi. */
  lemma PositionPart(e: Execution) returns (t: Execution)
    requires Reached(e) && e.p.code == Code() && e.now.pc == 20 && e.now.status == Running
    ensures Reached(t) && t == e.(steps := e.steps + 2, now := t.now) && t.now.pc == 22
    ensures Kept(e.now, t.now) && t.now.world == e.now.world && t.now.mem == e.now.mem
    ensures Get(t.now.regs, RSI) == Get(e.now.regs, RAX)
    ensures Get(t.now.regs, RDI) == Get(t.now.regs, R12) == Get(e.now.regs, R12)
  {
    hide Reached, ReadWord, Mapped, Code, CodeAt, Get;
    TellCode();
    var e1 := e.DoMov(RDI, R12);
    t := e1.DoMov(RSI, RAX);
  }

  lemma SeekCode()
    ensures Code()[22] == MovImm(RAX, 0x8)
    ensures Code()[23] == MovImm(RDX, SEEK_SET)
    ensures Code()[24] == Syscall
  {
  }

  /** lseek(r12, rsi, SEEK_SET). */
  lemma SeekPart(e: Execution, at: int, fd: u64, off: u64) returns (t: Execution, a: Args)
    requires Reached(e) && e.p.code == Code() && e.now.pc == 22 && PointsAt(e.now, at, fd, off)
    ensures Reached(t) && t == e.(steps := e.steps + 3, now := t.now) && t.now.pc == 25
    ensures Kept(e.now, t.now) && Served(e.kernel, e.now, t.now, SYS_LSEEK, a)
    ensures a.a1 == Get(e.now.regs, RDI) && a.a2 == Get(e.now.regs, RSI) && a.a3 == SEEK_SET
    ensures Get(t.now.regs, R12) == Get(e.now.regs, R12)
  {
    hide Reached, ReadWord, Mapped, Code, CodeAt, Get;
    SeekCode();
    var e1 := e.DoMovImm(RAX, 0x8);
    var e2 := e1.DoMovImm(RDX, SEEK_SET);
    a := SyscallArgs(e2.now.regs);
    t := e2.DoSyscall();
  }

  lemma DupCode()
    ensures Code()[25] == MovImm(RAX, 0x21)
    ensures Code()[26] == Mov(RDI, R12)
    ensures Code()[27] == MovField(RSI, 0)
    ensures Code()[28] == Syscall
  {
  }

  /** dup2(r12, fd). */
  lemma DupPart(e: Execution, at: int, fd: u64, off: u64) returns (t: Execution, a: Args)
    requires Reached(e) && e.p.code == Code() && e.now.pc == 25 && PointsAt(e.now, at, fd, off)
    ensures Reached(t) && t == e.(steps := e.steps + 4, now := t.now) && t.now.pc == 29
    ensures Kept(e.now, t.now) && Served(e.kernel, e.now, t.now, SYS_DUP2, a)
    ensures a.a1 == Get(e.now.regs, R12) && a.a2 == fd
    ensures Get(t.now.regs, R12) == Get(e.now.regs, R12)
  {
    hide Reached, ReadWord, Mapped, Code, CodeAt, Get;
    DupCode();
    var e1 := e.DoMovImm(RAX, 0x21);
    var e2 := e1.DoMov(RDI, R12);
    var e3 := e2.DoMovField(RSI, 0, at);
    a := SyscallArgs(e3.now.regs);
    t := e3.DoSyscall();
  }

  lemma CloseCode()
    ensures Code()[29] == MovImm(RAX, 0x3)
    ensures Code()[30] == Mov(RDI, R12)
    ensures Code()[31] == Syscall
  {
  }

  /** close(r12). */
  lemma ClosePart(e: Execution, at: int, fd: u64, off: u64) returns (t: Execution, a: Args)
    requires Reached(e) && e.p.code == Code() && e.now.pc == 29 && PointsAt(e.now, at, fd, off)
    ensures Reached(t) && t == e.(steps := e.steps + 3, now := t.now) && t.now.pc == 32
    ensures Kept(e.now, t.now) && Served(e.kernel, e.now, t.now, SYS_CLOSE, a)
    ensures a.a1 == Get(e.now.regs, R12)
  {
    hide Reached, ReadWord, Mapped, Code, CodeAt, Get;
    CloseCode();
    var e1 := e.DoMovImm(RAX, 0x3);
    var e2 := e1.DoMov(RDI, R12);
    a := SyscallArgs(e2.now.regs);
    t := e2.DoSyscall();
  }

  lemma HeadCode()
    ensures Code()[32] == AddImm(R15, CASE_SIZE)
    ensures Code()[33] == MovLabel(R13, CasesLength)
    ensures Code()[34] == Cmp(R15, R13)
    ensures Code()[35] == Jb(START)
    ensures Code()[36] == Int3
  {
  }

  /** The loop test: another case, or on to the trap. */
  lemma HeadPart(e: Execution) returns (t: Execution)
    requires Reached(e) && e.p.code == Code() && e.now.pc == END && e.now.status == Running
    requires Mapped(e.now.mem, e.p.casesLength, 8)
    ensures Reached(t) && t == e.(steps := e.steps + 3, now := t.now)
    ensures Kept(e.now, t.now) && t.now.mem == e.now.mem && t.now.world == e.now.world
    ensures t.now.pc == if Get(e.now.regs, R15) < ReadWord(e.now.mem, e.p.casesLength) then START else 36
  {
    hide Reached, ReadWord, Mapped, Code, CodeAt, Get;
    HeadCode();
    var e1 := e.DoMovLabel(R13, CasesLength);
    var e2 := e1.DoCmp(R15, R13);
    t := e2.DoJb(START);
  }

  /** The end of a turn: r15 moves on by one record. */
  lemma NextPart(e: Execution) returns (t: Execution)
    requires Reached(e) && e.p.code == Code() && e.now.pc == 32 && e.now.status == Running
    requires Get(e.now.regs, R15) + 16 < U64_SIZE
    ensures Reached(t) && t == e.(steps := e.steps + 1, now := t.now) && t.now.pc == END
    ensures t.now.status == Running && t.now.mem == e.now.mem && t.now.world == e.now.world
    ensures Get(t.now.regs, R14) == Get(e.now.regs, R14) && Get(t.now.regs, R15) == Get(e.now.regs, R15) + 16
    ensures Get(t.now.regs, RSP) == Get(e.now.regs, RSP)
  {
    hide Reached, Code, CodeAt, Get;
    HeadCode();
    t := e.DoAddImm(R15, CASE_SIZE);
  }

  // ----- one turn -----

  /** From the first instruction of a turn to the loop test: the case is reopened, nothing else. */
  lemma Turn(e: Execution, o: Oracle, at: int, fd: u64, off: u64, path: seq<byte>) returns (t: Execution)
    requires Reached(e) && e.p.code == Code() && e.kernel == Linux(o) && e.now.pc == START
    requires PointsAt(e.now, at, fd, off) && WellFormed(e.now.world) && Get(e.now.regs, R15) + 16 < U64_SIZE
    requires e.p.newPaths + off < U64_SIZE
    requires ReadCStr(e.now.mem, e.p.newPaths + off, PATH_MAX) == if |path| < PATH_MAX then Text(path) else TooLong
    ensures Reached(t) && t == e.(steps := e.steps + 30, now := t.now) && t.now.pc == END
    ensures t.now.status == Running && t.now.mem == e.now.mem
    ensures Get(t.now.regs, R14) == Get(e.now.regs, R14) && Get(t.now.regs, R15) == Get(e.now.regs, R15) + 16
    ensures Get(t.now.regs, RSP) == Get(e.now.regs, RSP)
    ensures t.now.world == Reopen(o, e.now.world, fd, path)
  {
    hide Reached, ReadWord, Mapped, Code, CodeAt, Get, Fcntl, Open, Lseek, Dup2, Close;
    var m := e.now.mem;
    var e1, a1 := FcntlPart(e, at, fd, off);
    var e2, a2 := OpenPart(e1, at, fd, off);
    var e3, a3 := TellPart(e2, at, fd, off);
    var e4, a4 := SeekPart(e3, at, fd, off);
    var e5, a5 := DupPart(e4, at, fd, off);
    var e6, a6 := ClosePart(e5, at, fd, off);
    t := NextPart(e6);
    var r1 := Fcntl(e.now.world, m, a1);
    var r2 := Open(o, e1.now.world, m, a2);
    var r3 := Lseek(e2.now.world, m, a3);
    var r4 := Lseek(e3.now.world, m, a4);
    var r5 := Dup2(e4.now.world, m, a5);
    var r6 := Close(e5.now.world, m, a6);
    var calls := Reopening.Turn(a1, r1, a2, r2, a3, r3, a4, r4, a5, r5, a6, r6);
    SixCallsReopen(o, e.now.world, m, fd, e.p.newPaths + off, path, calls);
  }
}
