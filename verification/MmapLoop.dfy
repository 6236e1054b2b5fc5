/**
  src/replacer/mmap_replacer.rs: the loop that the mmap replacer runs inside the traced process,
  executed instruction by instruction for any kernel.
 */
module MmapLoop {
  import opened Bytes
  import opened Kernel
  import opened Machine

  const START := 3
  const END := 33
  const CASE_SIZE := 48

  function CodeAt(i: nat): Instr {
    match i
    case 0 => XorSelf(R15)
    case 1 => Lea(R14, Cases)
    case 2 => Jmp(END)
    // start: munmap(addr, length)
    case 3 => MovImm(RAX, 0x0B)
    case 4 => MovField(RDI, 0)
    case 5 => MovField(RSI, 8)
    case 6 => MovImm(RDX, 0x0)
    case 7 => Syscall
    // open(path, O_RDWR, 0)
    case 8 => MovImm(RAX, 0x2)
    case 9 => Lea(RDI, NewPaths)
    case 10 => AddImm(R15, 32)
    case 11 => AddField(RDI, 0)
    case 12 => SubImm(R15, 32)
    case 13 => MovImm(RSI, O_RDWR)
    case 14 => MovImm(RDX, 0x0)
    case 15 => Syscall
    // the new descriptor goes to the stack and to r8
    case 16 => Push(RAX)
    case 17 => Mov(R8, RAX)
    // mmap(rdi, length, prot, flags, r8, offset): rdi still holds the path
    case 18 => MovImm(RAX, 0x9)
    case 19 => AddImm(R15, 8)
    case 20 => MovField(RSI, 0)
    case 21 => AddImm(R15, 8)
    case 22 => MovField(RDX, 0)
    case 23 => AddImm(R15, 8)
    case 24 => MovField(R10, 0)
    case 25 => AddImm(R15, 16)
    case 26 => MovField(R9, 0)
    case 27 => Syscall
    case 28 => SubImm(R15, 40)
    // close(the descriptor on the stack)
    case 29 => MovImm(RAX, 0x3)
    case 30 => Pop(RDI)
    case 31 => Syscall
    case 32 => AddImm(R15, CASE_SIZE)
    // end:
    case 33 => MovLabel(R13, CasesLength)
    case 34 => Cmp(R15, R13)
    case 35 => Jb(START)
    case _ => Int3
  }

  function Code(): (c: seq<Instr>)
    ensures |c| == 37
  {
    seq(37, i requires 0 <= i < 37 => CodeAt(i))
  }

  /** A packed record of the case table. */
  datatype RawCase = RawCase(addr: u64, length: u64, prot: u64, flags: u64, pathOffset: u64, offset: u64)

  ghost predicate Word(m: Memory, at: int, v: u64) {
    Mapped(m, at, 8) && ReadWord(m, at) == v
  }

  /** The six words of record `c` are in memory at `at`. */
  ghost predicate Record(m: Memory, at: int, c: RawCase) {
    && Word(m, at, c.addr) && Word(m, at + 8, c.length) && Word(m, at + 16, c.prot)
    && Word(m, at + 24, c.flags) && Word(m, at + 32, c.pathOffset) && Word(m, at + 40, c.offset)
  }

  /** r14 + r15 addresses record `c`. */
  ghost predicate PointsAt(s: State, at: int, c: RawCase) {
    && s.status == Running && Record(s.mem, at, c)
    && Get(s.regs, R14) + Get(s.regs, R15) == at && 0 <= at && at + 48 <= USER_TOP
  }

  /** The loop registers and the stack pointer are the same. */
  ghost predicate Kept(s: State, t: State) {
    && t.status == s.status == Running
    && Get(t.regs, R14) == Get(s.regs, R14) && Get(t.regs, R15) == Get(s.regs, R15)
    && Get(t.regs, RSP) == Get(s.regs, RSP)
  }

  /** One system call was made between `s` and `t`, and it was this one. */
  ghost predicate Served(kernel: KernelFn, s: State, t: State, c: Call) {
    var r := kernel(s.world, s.mem, c.nr, c.args);
    t.world == r.world && t.mem == r.mem && c.ret == r.ret && t.log == s.log + [c]
  }

  lemma MunmapCode()
    ensures Code()[3] == MovImm(RAX, 0x0B)
    ensures Code()[4] == MovField(RDI, 0)
    ensures Code()[5] == MovField(RSI, 8)
    ensures Code()[6] == MovImm(RDX, 0x0)
    ensures Code()[7] == Syscall
  {
  }

  /** munmap(addr, length) */
  lemma MunmapPart(e: Execution, at: int, r: RawCase) returns (t: Execution, c: Call)
    requires Reached(e) && e.p.code == Code() && e.now.pc == 3
    requires PointsAt(e.now, at, r)
    ensures Reached(t) && t == e.(steps := e.steps + 5, now := t.now) && t.now.pc == 8
    ensures Kept(e.now, t.now) && Served(e.kernel, e.now, t.now, c)
    ensures c.nr == SYS_MUNMAP && c.args.a1 == r.addr && c.args.a2 == r.length
  {
    hide Reached, ReadWord, Mapped, Code, CodeAt, Get;
    MunmapCode();
    var e1 := e.DoMovImm(RAX, 0x0B);
    var e2 := e1.DoMovField(RDI, 0, at);
    var e3 := e2.DoMovField(RSI, 8, at + 8);
    var e4 := e3.DoMovImm(RDX, 0x0);
    t := e4.DoSyscall();
    c := t.now.log[|e.now.log|];
  }

  lemma OpenArgsCode()
    ensures Code()[8] == MovImm(RAX, 0x2)
    ensures Code()[9] == Lea(RDI, NewPaths)
    ensures Code()[10] == AddImm(R15, 32)
    ensures Code()[11] == AddField(RDI, 0)
    ensures Code()[12] == SubImm(R15, 32)
    ensures Code()[13] == MovImm(RSI, O_RDWR)
    ensures Code()[14] == MovImm(RDX, 0x0)
  {
  }

  /** The path of open: r15 visits the path field. */
  lemma OpenPathPart(e: Execution, at: int, r: RawCase) returns (t: Execution)
    requires Reached(e) && e.p.code == Code() && e.now.pc == 8
    requires PointsAt(e.now, at, r) && e.p.newPaths + r.pathOffset < U64_SIZE
    ensures Reached(t) && t == e.(steps := e.steps + 4, now := t.now) && t.now.pc == 12 && t.now.status == Running
    ensures t.now.mem == e.now.mem && t.now.world == e.now.world && t.now.log == e.now.log
    ensures Get(t.now.regs, R14) == Get(e.now.regs, R14) && Get(t.now.regs, R15) == Get(e.now.regs, R15) + 32
    ensures Get(t.now.regs, RSP) == Get(e.now.regs, RSP)
    ensures Get(t.now.regs, RAX) == SYS_OPEN && Get(t.now.regs, RDI) == e.p.newPaths + r.pathOffset
  {
    hide Reached, ReadWord, Mapped, Code, CodeAt, Get;
    OpenArgsCode();
    var e1 := e.DoMovImm(RAX, 0x2);
    var e2 := e1.DoLea(RDI, NewPaths);
    var e3 := e2.DoAddImm(R15, 32);
    t := e3.DoAddField(RDI, 0, at + 32);
  }

  /** The arguments of open: r15 comes back from the path field. */
  lemma OpenArgsPart(e: Execution, at: int, r: RawCase) returns (t: Execution)
    requires Reached(e) && e.p.code == Code() && e.now.pc == 8
    requires PointsAt(e.now, at, r) && e.p.newPaths + r.pathOffset < U64_SIZE
    ensures Reached(t) && t == e.(steps := e.steps + 7, now := t.now) && t.now.pc == 15
    ensures Kept(e.now, t.now) && t.now.mem == e.now.mem && t.now.world == e.now.world && t.now.log == e.now.log
    ensures Get(t.now.regs, RAX) == SYS_OPEN && Get(t.now.regs, RDI) == e.p.newPaths + r.pathOffset
    ensures Get(t.now.regs, RSI) == O_RDWR && Get(t.now.regs, RDX) == 0
  {
    hide Reached, ReadWord, Mapped, Code, CodeAt, Get, Record;
    OpenArgsCode();
    var e4 := OpenPathPart(e, at, r);
    var e5 := e4.DoSubImm(R15, 32);
    var e6 := e5.DoMovImm(RSI, O_RDWR);
    t := e6.DoMovImm(RDX, 0x0);
  }

  lemma OpenCallCode()
    ensures Code()[15] == Syscall
    ensures Code()[16] == Push(RAX)
    ensures Code()[17] == Mov(R8, RAX)
  {
  }

  /** open; its result is on the stack and in r8, the path is still in rdi. */
  lemma OpenCallPart(e: Execution, sp: u64) returns (t: Execution, c: Call)
    requires Reached(e) && e.p.code == Code() && e.now.pc == 15
    requires e.now.status == Running && Get(e.now.regs, RAX) == SYS_OPEN && Get(e.now.regs, RSP) == sp + 8
    requires Mapped(e.kernel(e.now.world, e.now.mem, SYS_OPEN, SyscallArgs(e.now.regs)).mem, sp, 8)
    ensures Reached(t) && t == e.(steps := e.steps + 3, now := t.now) && t.now.pc == 18
    ensures t.now.status == Running && Get(t.now.regs, R14) == Get(e.now.regs, R14)
    ensures Get(t.now.regs, R15) == Get(e.now.regs, R15)
    ensures Get(t.now.regs, RSP) == sp && Get(t.now.regs, R8) == c.ret && Get(t.now.regs, RDI) == Get(e.now.regs, RDI)
    ensures c.nr == SYS_OPEN && c.args == SyscallArgs(e.now.regs) && t.now.log == e.now.log + [c]
    ensures var r := e.kernel(e.now.world, e.now.mem, SYS_OPEN, c.args);
      t.now.world == r.world && c.ret == r.ret && t.now.mem == WriteBytes(r.mem, sp, LeBytes(c.ret, 8))
  {
    hide Reached, WriteBytes, LeBytes, Mapped, Code, CodeAt, Get;
    OpenCallCode();
    var e1 := e.DoSyscall();
    var e2 := e1.DoPush(RAX, sp);
    t := e2.DoMov(R8, RAX);
    c := Call(SYS_OPEN, SyscallArgs(e.now.regs), Get(e1.now.regs, RAX));
  }

  lemma LengthProtCode()
    ensures Code()[18] == MovImm(RAX, 0x9)
    ensures Code()[19] == AddImm(R15, 8)
    ensures Code()[20] == MovField(RSI, 0)
    ensures Code()[21] == AddImm(R15, 8)
    ensures Code()[22] == MovField(RDX, 0)
  {
  }

  /** The first fields for mmap: length and protection. */
  lemma LengthProtPart(e: Execution, at: int, r: RawCase) returns (t: Execution)
    requires Reached(e) && e.p.code == Code() && e.now.pc == 18
    requires PointsAt(e.now, at, r)
    ensures Reached(t) && t == e.(steps := e.steps + 5, now := t.now) && t.now.pc == 23
    ensures t.now.status == Running && Get(t.now.regs, R14) == Get(e.now.regs, R14)
    ensures Get(t.now.regs, R15) == Get(e.now.regs, R15) + 16
    ensures Get(t.now.regs, RSP) == Get(e.now.regs, RSP)
    ensures t.now.mem == e.now.mem && t.now.world == e.now.world && t.now.log == e.now.log
    ensures Get(t.now.regs, RAX) == SYS_MMAP && Get(t.now.regs, RSI) == r.length && Get(t.now.regs, RDX) == r.prot
    ensures Get(t.now.regs, RDI) == Get(e.now.regs, RDI) && Get(t.now.regs, R8) == Get(e.now.regs, R8)
  {
    hide Reached, ReadWord, Mapped, Code, CodeAt, Get;
    LengthProtCode();
    var e1 := e.DoMovImm(RAX, 0x9);
    var e2 := e1.DoAddImm(R15, 8);
    var e3 := e2.DoMovField(RSI, 0, at + 8);
    var e4 := e3.DoAddImm(R15, 8);
    t := e4.DoMovField(RDX, 0, at + 16);
  }

  lemma FlagsOffsetCode()
    ensures Code()[23] == AddImm(R15, 8)
    ensures Code()[24] == MovField(R10, 0)
    ensures Code()[25] == AddImm(R15, 16)
    ensures Code()[26] == MovField(R9, 0)
  {
  }

  /** The last fields for mmap: flags and offset. The first argument is whatever rdi holds. */
  lemma FlagsOffsetPart(e: Execution, at: int, r: RawCase) returns (t: Execution)
    requires Reached(e) && e.p.code == Code() && e.now.pc == 23
    requires e.now.status == Running && Record(e.now.mem, at, r)
    requires Get(e.now.regs, R14) + Get(e.now.regs, R15) == at + 16 && 0 <= at && at + 48 <= USER_TOP
    ensures Reached(t) && t == e.(steps := e.steps + 4, now := t.now) && t.now.pc == 27
    ensures t.now.status == Running && Get(t.now.regs, R14) == Get(e.now.regs, R14)
    ensures Get(t.now.regs, R15) == Get(e.now.regs, R15) + 24
    ensures Get(t.now.regs, RSP) == Get(e.now.regs, RSP)
    ensures t.now.mem == e.now.mem && t.now.world == e.now.world && t.now.log == e.now.log
    ensures Get(t.now.regs, RAX) == Get(e.now.regs, RAX)
    ensures SyscallArgs(t.now.regs) ==
      Args(Get(e.now.regs, RDI), Get(e.now.regs, RSI), Get(e.now.regs, RDX), r.flags, Get(e.now.regs, R8), r.offset)
  {
    hide Reached, ReadWord, Mapped, Code, CodeAt, Get;
    FlagsOffsetCode();
    var e1 := e.DoAddImm(R15, 8);
    var e2 := e1.DoMovField(R10, 0, at + 24);
    var e3 := e2.DoAddImm(R15, 16);
    t := e3.DoMovField(R9, 0, at + 40);
  }

  lemma MmapCallCode()
    ensures Code()[27] == Syscall
    ensures Code()[28] == SubImm(R15, 40)
  {
  }

  /** mmap; r15 goes back to the start of the record. */
  lemma MmapCallPart(e: Execution) returns (t: Execution, c: Call)
    requires Reached(e) && e.p.code == Code() && e.now.pc == 27
    requires e.now.status == Running && Get(e.now.regs, RAX) == SYS_MMAP && Get(e.now.regs, R15) >= 40
    ensures Reached(t) && t == e.(steps := e.steps + 2, now := t.now) && t.now.pc == 29
    ensures t.now.status == Running && Get(t.now.regs, R14) == Get(e.now.regs, R14)
    ensures Get(t.now.regs, R15) == Get(e.now.regs, R15) - 40
    ensures Get(t.now.regs, RSP) == Get(e.now.regs, RSP) && Served(e.kernel, e.now, t.now, c)
    ensures c.nr == SYS_MMAP && c.args == SyscallArgs(e.now.regs)
  {
    hide Reached, ReadWord, Mapped, Code, CodeAt, Get;
    MmapCallCode();
    var e1 := e.DoSyscall();
    t := e1.DoSubImm(R15, 40);
    c := Call(SYS_MMAP, SyscallArgs(e.now.regs), Get(e1.now.regs, RAX));
  }

  lemma CloseCode()
    ensures Code()[29] == MovImm(RAX, 0x3)
    ensures Code()[30] == Pop(RDI)
    ensures Code()[31] == Syscall
  {
  }

  /** close of the descriptor taken from the stack, which is balanced again. */
  lemma ClosePart(e: Execution, sp: u64) returns (t: Execution, c: Call)
    requires Reached(e) && e.p.code == Code() && e.now.pc == 29
    requires e.now.status == Running && Get(e.now.regs, RSP) == sp && sp + 8 < U64_SIZE && Mapped(e.now.mem, sp, 8)
    ensures Reached(t) && t == e.(steps := e.steps + 3, now := t.now) && t.now.pc == 32
    ensures t.now.status == Running && Get(t.now.regs, R14) == Get(e.now.regs, R14)
    ensures Get(t.now.regs, R15) == Get(e.now.regs, R15)
    ensures Get(t.now.regs, RSP) == sp + 8 && Served(e.kernel, e.now, t.now, c)
    ensures c.nr == SYS_CLOSE && c.args.a1 == ReadWord(e.now.mem, sp)
  {
    hide Reached, ReadWord, Mapped, Code, CodeAt, Get;
    CloseCode();
    var e1 := e.DoMovImm(RAX, 0x3);
    var e2 := e1.DoPop(RDI, sp);
    t := e2.DoSyscall();
    c := t.now.log[|e.now.log|];
  }

  lemma HeadCode()
    ensures Code()[32] == AddImm(R15, CASE_SIZE)
    ensures Code()[33] == MovLabel(R13, CasesLength)
    ensures Code()[34] == Cmp(R15, R13)
    ensures Code()[35] == Jb(START)
    ensures Code()[36] == Int3
  {
  }

  /** The loop test: another case, or on to the trap. */
  lemma HeadPart(e: Execution) returns (t: Execution)
    requires Reached(e) && e.p.code == Code() && e.now.pc == END && e.now.status == Running
    requires Mapped(e.now.mem, e.p.casesLength, 8)
    ensures Reached(t) && t == e.(steps := e.steps + 3, now := t.now)
    ensures Kept(e.now, t.now) && t.now.mem == e.now.mem && t.now.world == e.now.world && t.now.log == e.now.log
    ensures t.now.pc == if Get(e.now.regs, R15) < ReadWord(e.now.mem, e.p.casesLength) then START else 36
  {
    hide Reached, ReadWord, Mapped, Code, CodeAt, Get;
    HeadCode();
    var e1 := e.DoMovLabel(R13, CasesLength);
    var e2 := e1.DoCmp(R15, R13);
    t := e2.DoJb(START);
  }

  /** The end of a turn: r15 moves on by one record. */
  lemma NextPart(e: Execution) returns (t: Execution)
    requires Reached(e) && e.p.code == Code() && e.now.pc == 32 && e.now.status == Running
    requires Get(e.now.regs, R15) + CASE_SIZE < U64_SIZE
    ensures Reached(t) && t == e.(steps := e.steps + 1, now := t.now) && t.now.pc == END
    ensures t.now.status == Running && t.now.mem == e.now.mem && t.now.world == e.now.world && t.now.log == e.now.log
    ensures Get(t.now.regs, R14) == Get(e.now.regs, R14) && Get(t.now.regs, R15) == Get(e.now.regs, R15) + CASE_SIZE
    ensures Get(t.now.regs, RSP) == Get(e.now.regs, RSP)
  {
    hide Reached, Code, CodeAt, Get;
    HeadCode();
    t := e.DoAddImm(R15, CASE_SIZE);
  }
}
