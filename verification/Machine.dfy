/** A small x86-64: the registers, instructions and labels that the injected loops use. */
module Machine {
  import opened Bytes
  import opened Kernel

  datatype Reg =
    | RAX | RDI | RSI | RDX | R8 | R9 | R10 | R12 | R13 | R14 | R15
    | RSP | RIP | RCX | R11

  type Regs = map<Reg, u64>

  function Get(r: Regs, x: Reg): u64 {
    if x in r then r[x] else 0
  }

  /** `r'` is `r` with register `d` set to `v`. */
  ghost predicate Sets(r: Regs, r': Regs, d: Reg, v: u64) {
    forall x :: Get(r', x) == if x == d then v else Get(r, x)
  }

  /** The kernel as the processor sees it: what a system call does to the world and the memory. */
  type KernelFn = (World, Memory, u64, Args) -> Reply

  function Linux(o: Oracle): KernelFn {
    (k: World, m: Memory, nr: u64, a: Args) => SystemCall(o, k, m, nr, a)
  }

  /** The labels of the static data in front of the code. */
  datatype Label = Cases | CasesLength | NewPaths

  /** `Field(d)` is the memory operand [r14 + r15 + d]; jump targets are positions in the code. */
  datatype Instr =
    | MovImm(dst: Reg, imm: u64)
    | Mov(dst: Reg, src: Reg)
    | MovField(dst: Reg, disp: nat)
    | MovLabel(dst: Reg, at: Label)
    | Lea(dst: Reg, at: Label)
    | AddImm(dst: Reg, imm: u64)
    | SubImm(dst: Reg, imm: u64)
    | AddField(dst: Reg, disp: nat)
    | XorSelf(dst: Reg)
    | Push(src: Reg)
    | Pop(dst: Reg)
    | Cmp(left: Reg, right: Reg)
    | Jmp(to: nat)
    | Jb(to: nat)
    | Syscall
    | Int3

  /** Code, the addresses its labels were resolved to, and the address of its first instruction. */
  datatype Program = Program(code: seq<Instr>, cases: u64, casesLength: u64, newPaths: u64, entry: u64)

  /** The instruction at an address; the lengths of the instructions being unknown, only the first one has its own. */
  function PositionAt(p: Program, rip: u64): nat {
    if rip == p.entry then 0 else |p.code|
  }

  datatype Status = Running | Trapped | Faulted
  datatype Call = Call(nr: u64, args: Args, ret: u64)

  /** `pc` is a position in the code; `log` lists the system calls made so far. */
  datatype State = State(
    regs: Regs, carry: bool, pc: nat, mem: Memory, world: World, log: seq<Call>, status: Status)

  function Address(p: Program, l: Label): u64 {
    match l
    case Cases => p.cases
    case CasesLength => p.casesLength
    case NewPaths => p.newPaths
  }

  function Field(s: State, disp: nat): u64 {
    Wrap(Get(s.regs, R14) + Get(s.regs, R15) + disp)
  }

  /** The register order of section A.2.1 of the System V AMD64 psABI. */
  function SyscallArgs(r: Regs): Args {
    Args(Get(r, RDI), Get(r, RSI), Get(r, RDX), Get(r, R10), Get(r, R8), Get(r, R9))
  }

  function AfterSyscall(kernel: KernelFn, s: State): State {
    var nr, args := Get(s.regs, RAX), SyscallArgs(s.regs);
    var reply := kernel(s.world, s.mem, nr, args);
    // the syscall instruction leaves the return address in rcx and the flags in r11
    var regs := s.regs[RAX := reply.ret][RCX := Wrap(s.pc)][R11 := if s.carry then 1 else 0];
    s.(regs := regs, mem := reply.mem, world := reply.world, log := s.log + [Call(nr, args, reply.ret)])
  }

  /** Executes `i`; the program counter already points behind it. */
  function Exec(p: Program, kernel: KernelFn, s: State, i: Instr): State {
    match i
    case MovImm(d, imm) => s.(regs := s.regs[d := imm])
    case Mov(d, src) => s.(regs := s.regs[d := Get(s.regs, src)])
    case MovField(d, disp) =>
      if Mapped(s.mem, Field(s, disp), 8)
      then s.(regs := s.regs[d := ReadWord(s.mem, Field(s, disp))])
      else s.(status := Faulted)
    case MovLabel(d, l) =>
      if Mapped(s.mem, Address(p, l), 8)
      then s.(regs := s.regs[d := ReadWord(s.mem, Address(p, l))])
      else s.(status := Faulted)
    case Lea(d, l) => s.(regs := s.regs[d := Address(p, l)])
    case AddImm(d, imm) =>
      var v := Get(s.regs, d) + imm;
      s.(regs := s.regs[d := Wrap(v)], carry := v >= U64_SIZE)
    case SubImm(d, imm) =>
      var v := Get(s.regs, d) - imm;
      s.(regs := s.regs[d := Wrap(v)], carry := v < 0)
    case AddField(d, disp) =>
      if Mapped(s.mem, Field(s, disp), 8)
      then
        var v := Get(s.regs, d) + ReadWord(s.mem, Field(s, disp));
        s.(regs := s.regs[d := Wrap(v)], carry := v >= U64_SIZE)
      else s.(status := Faulted)
    case XorSelf(d) => s.(regs := s.regs[d := 0], carry := false)
    case Push(src) =>
      var sp := Wrap(Get(s.regs, RSP) - 8);
      if Mapped(s.mem, sp, 8)
      then s.(regs := s.regs[RSP := sp], mem := WriteBytes(s.mem, sp, LeBytes(Get(s.regs, src), 8)))
      else s.(status := Faulted)
    case Pop(d) =>
      if Mapped(s.mem, Get(s.regs, RSP), 8)
      then s.(regs := s.regs[RSP := Wrap(Get(s.regs, RSP) + 8)][d := ReadWord(s.mem, Get(s.regs, RSP))])
      else s.(status := Faulted)
    case Cmp(l, r) => s.(carry := Get(s.regs, l) < Get(s.regs, r))
    case Jmp(to) => s.(pc := to)
    case Jb(to) => if s.carry then s.(pc := to) else s
    case Syscall => AfterSyscall(kernel, s)
    case Int3 => s.(status := Trapped)
  }

  function Step(p: Program, kernel: KernelFn, s: State): State {
    if s.status != Running then s
    else if s.pc >= |p.code| then s.(status := Faulted)
    else Exec(p, kernel, s.(pc := s.pc + 1), p.code[s.pc])
  }

  function Run(p: Program, kernel: KernelFn, s: State, n: nat): State
    decreases n
  {
    if n == 0 then s else Run(p, kernel, Step(p, kernel, s), n - 1)
  }

  lemma {:induction false} RunAdds(p: Program, kernel: KernelFn, s: State, m: nat, n: nat)
    ensures Run(p, kernel, s, m + n) == Run(p, kernel, Run(p, kernel, s, m), n)
    decreases m
  {
    if m > 0 { RunAdds(p, kernel, Step(p, kernel, s), m - 1, n); }
  }

  /** Once trapped, a process stays where it is. */
  lemma {:induction false} RunAfterTrap(p: Program, kernel: KernelFn, s: State, n: nat)
    requires s.status != Running
    ensures Run(p, kernel, s, n) == s
  {
    if n > 0 { RunAfterTrap(p, kernel, Step(p, kernel, s), n - 1); }
  }

  /** Both loops take three instructions to the first test, thirty-three per case and four from the last test to the trap. */
  function LoopSteps(n: nat): nat {
    33 * n + 7
  }

  // ----- one instruction at a time -----

  ghost predicate Reached(e: Execution) {
    Run(e.p, e.kernel, e.start, e.steps) == e.now
  }

  /** A run under way: `steps` instructions lead from `start` to `now`. */
  datatype Execution = Execution(p: Program, kernel: KernelFn, start: State, steps: nat, now: State) {

    predicate Next(i: Instr) {
      now.status == Running && now.pc < |p.code| && p.code[now.pc] == i
    }

    function Then(s: State): Execution {
      this.(steps := steps + 1, now := s)
    }

    /** Goes behind the current instruction; only the registers and the carry flag may differ. */
    ghost predicate Passed(e: Execution, carry: bool) {
      e == Then(now.(pc := now.pc + 1, regs := e.now.regs, carry := carry))
    }

    lemma Advance() returns (e: Execution)
      requires Reached(this)
      ensures Reached(e) && e == Then(Step(p, kernel, now))
    {
      e := Then(Step(p, kernel, now));
      RunAdds(p, kernel, start, steps, 1);
      assert Run(p, kernel, now, 1) == Run(p, kernel, e.now, 0);
    }

    lemma DoMovImm(d: Reg, v: u64) returns (e: Execution)
      requires Reached(this) && Next(MovImm(d, v))
      ensures Reached(e) && Passed(e, now.carry) && Sets(now.regs, e.now.regs, d, v)
    {
      e := Advance();
    }

    lemma DoMov(d: Reg, x: Reg) returns (e: Execution)
      requires Reached(this) && Next(Mov(d, x))
      ensures Reached(e) && Passed(e, now.carry) && Sets(now.regs, e.now.regs, d, Get(now.regs, x))
    {
      e := Advance();
    }

    lemma DoMovField(d: Reg, disp: nat, addr: u64) returns (e: Execution)
      requires Reached(this) && Next(MovField(d, disp))
      requires addr == Get(now.regs, R14) + Get(now.regs, R15) + disp && Mapped(now.mem, addr, 8)
      ensures Reached(e) && Passed(e, now.carry) && Sets(now.regs, e.now.regs, d, ReadWord(now.mem, addr))
    {
      hide ReadWord, WriteBytes, LeBytes, Mapped;
      assert Field(now, disp) == addr;
      e := Advance();
    }

    lemma DoMovLabel(d: Reg, l: Label) returns (e: Execution)
      requires Reached(this) && Next(MovLabel(d, l))
      requires Mapped(now.mem, Address(p, l), 8)
      ensures Reached(e) && Passed(e, now.carry) && Sets(now.regs, e.now.regs, d, ReadWord(now.mem, Address(p, l)))
    {
      hide ReadWord, WriteBytes, LeBytes, Mapped;
      e := Advance();
    }

    lemma DoLea(d: Reg, l: Label) returns (e: Execution)
      requires Reached(this) && Next(Lea(d, l))
      ensures Reached(e) && Passed(e, now.carry) && Sets(now.regs, e.now.regs, d, Address(p, l))
    {
      e := Advance();
    }

    lemma DoAddImm(d: Reg, imm: u64) returns (e: Execution)
      requires Reached(this) && Next(AddImm(d, imm))
      requires Get(now.regs, d) + imm < U64_SIZE
      ensures Reached(e) && Passed(e, false) && Sets(now.regs, e.now.regs, d, Get(now.regs, d) + imm)
    {
      hide ReadWord, WriteBytes, LeBytes, Mapped;
      e := Advance();
    }

    lemma DoSubImm(d: Reg, imm: u64) returns (e: Execution)
      requires Reached(this) && Next(SubImm(d, imm))
      requires imm <= Get(now.regs, d)
      ensures Reached(e) && Passed(e, false) && Sets(now.regs, e.now.regs, d, Get(now.regs, d) - imm)
    {
      hide ReadWord, WriteBytes, LeBytes, Mapped;
      e := Advance();
    }

    lemma DoAddField(d: Reg, disp: nat, addr: u64) returns (e: Execution)
      requires Reached(this) && Next(AddField(d, disp))
      requires addr == Get(now.regs, R14) + Get(now.regs, R15) + disp && Mapped(now.mem, addr, 8)
      requires Get(now.regs, d) + ReadWord(now.mem, addr) < U64_SIZE
      ensures Reached(e) && Passed(e, false) && Sets(now.regs, e.now.regs, d, Get(now.regs, d) + ReadWord(now.mem, addr))
    {
      hide ReadWord, WriteBytes, LeBytes, Mapped;
      assert Field(now, disp) == addr;
      e := Advance();
    }

    lemma DoXorSelf(d: Reg) returns (e: Execution)
      requires Reached(this) && Next(XorSelf(d))
      ensures Reached(e) && Passed(e, false) && Sets(now.regs, e.now.regs, d, 0)
    {
      e := Advance();
    }

    lemma DoPush(x: Reg, sp: u64) returns (e: Execution)
      requires Reached(this) && Next(Push(x))
      requires sp + 8 == Get(now.regs, RSP) && Mapped(now.mem, sp, 8)
      ensures Reached(e) && Sets(now.regs, e.now.regs, RSP, sp)
      ensures e == Then(now.(pc := now.pc + 1, regs := e.now.regs, mem := WriteBytes(now.mem, sp, LeBytes(Get(now.regs, x), 8))))
    {
      hide ReadWord, WriteBytes, LeBytes, Mapped;
      e := Advance();
    }

    lemma DoPop(d: Reg, sp: u64) returns (e: Execution)
      requires Reached(this) && Next(Pop(d))
      requires d != RSP && sp == Get(now.regs, RSP) && sp + 8 < U64_SIZE && Mapped(now.mem, sp, 8)
      ensures Reached(e) && Passed(e, now.carry)
      ensures forall x ::
        Get(e.now.regs, x) == if x == d then ReadWord(now.mem, sp) else if x == RSP then sp + 8 else Get(now.regs, x)
    {
      hide ReadWord, WriteBytes, LeBytes, Mapped;
      e := Advance();
    }

    lemma DoCmp(l: Reg, r: Reg) returns (e: Execution)
      requires Reached(this) && Next(Cmp(l, r))
      ensures Reached(e) && e == Then(now.(pc := now.pc + 1, carry := Get(now.regs, l) < Get(now.regs, r)))
    {
      e := Advance();
    }

    lemma DoJmp(to: nat) returns (e: Execution)
      requires Reached(this) && Next(Jmp(to))
      ensures Reached(e) && e == Then(now.(pc := to))
    {
      e := Advance();
    }

    lemma DoJb(to: nat) returns (e: Execution)
      requires Reached(this) && Next(Jb(to))
      ensures Reached(e) && e == Then(now.(pc := if now.carry then to else now.pc + 1))
    {
      e := Advance();
    }

    lemma DoSyscall() returns (e: Execution)
      requires Reached(this) && Next(Syscall)
      ensures Reached(e)
      ensures var r := kernel(now.world, now.mem, Get(now.regs, RAX), SyscallArgs(now.regs));
        && e == Then(now.(pc := now.pc + 1, regs := e.now.regs, mem := r.mem, world := r.world,
                          log := now.log + [Call(Get(now.regs, RAX), SyscallArgs(now.regs), r.ret)]))
        && Get(e.now.regs, RAX) == r.ret
        && forall x :: x != RAX && x != RCX && x != R11 ==> Get(e.now.regs, x) == Get(now.regs, x)
    {
      e := Advance();
    }

    lemma DoInt3() returns (e: Execution)
      requires Reached(this) && Next(Int3)
      ensures Reached(e) && e == Then(now.(pc := now.pc + 1, status := Trapped))
    {
      e := Advance();
    }
  }
}
