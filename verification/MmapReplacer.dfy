/** src/replacer/mmap_replacer.rs: the case table of mappings and the trace of the loop over it. */
module MmapReplacer {
  import opened Bytes
  import opened Kernel
  import opened Machine
  import opened Layout
  import opened MmapLoop
  import opened Selections

  // ----- what a turn does to memory -----

  /** Everything mapped outside the two given ranges is still mapped and the same. */
  ghost predicate Spares(m: Memory, m': Memory, addr: int, len: nat, addr2: int, len2: nat) {
    forall x :: x in m && !Within(x, addr, len) && !Within(x, addr2, len2) ==> x in m' && m'[x] == m[x]
  }

  predicate Apart(addr: int, len: nat, addr2: int, len2: nat) {
    addr + len <= addr2 || addr2 + len2 <= addr
  }

  lemma HoldsAtSpared(m: Memory, m': Memory, at: int, bs: seq<byte>, addr: int, len: nat, addr2: int, len2: nat)
    requires Spares(m, m', addr, len, addr2, len2) && HoldsAt(m, at, bs)
    requires Apart(at, |bs|, addr, len) && Apart(at, |bs|, addr2, len2)
    ensures HoldsAt(m', at, bs)
  {
  }

  lemma WordSpared(m: Memory, m': Memory, at: int, addr: int, len: nat, addr2: int, len2: nat)
    requires Spares(m, m', addr, len, addr2, len2) && Mapped(m, at, 8)
    requires Apart(at, 8, addr, len) && Apart(at, 8, addr2, len2)
    ensures Mapped(m', at, 8) && ReadWord(m', at) == ReadWord(m, at)
  {
    assert Mapped(m', at, 8) by {
      forall x | at <= x < at + 8 ensures x in m' { assert x in m; }
    }
    assert ReadBytes(m', at, 8) == ReadBytes(m, at, 8) by {
      forall i | 0 <= i < 8 ensures ReadBytes(m', at, 8)[i] == ReadBytes(m, at, 8)[i] { assert at + i in m; }
    }
  }

  lemma MunmapSpares(k: World, m: Memory, a: Args)
    ensures var r := Munmap(k, m, a); r.world == k && Spares(m, r.mem, a.a1, PageUp(a.a2), 0, 0)
  {
  }

  /** Without MAP_FIXED nothing that is mapped is disturbed. */
  lemma MmapSpares(o: Oracle, k: World, m: Memory, a: Args)
    requires !HasBit(a.a4, MAP_FIXED)
    ensures var r := Mmap(o, k, m, a); r.world == k.(mmaps := k.mmaps + 1) && Spares(m, r.mem, 0, 0, 0, 0)
  {
  }

  lemma PushSpares(m: Memory, sp: u64, v: u64)
    requires Mapped(m, sp, 8)
    ensures var m' := WriteBytes(m, sp, LeBytes(v, 8));
      Spares(m, m', 0, 0, sp, 8) && Mapped(m', sp, 8) && ReadWord(m', sp) == v
  {
    ReadStoredWord(WriteBytes(m, sp, LeBytes(v, 8)), sp, v);
  }

  // ----- the calls of one case -----

  /**
    The four calls made for record `r`, whose path is stored at `path`. The mapping is asked for at
    the address of the path text, since the loop never reloads rdi with the old address.
   */
  ghost predicate CaseCalls(r: RawCase, path: u64, c1: Call, c2: Call, c3: Call, c4: Call) {
    && c1.nr == SYS_MUNMAP && c1.args.a1 == r.addr && c1.args.a2 == r.length
    && c2.nr == SYS_OPEN && c2.args.a1 == path && c2.args.a2 == O_RDWR && c2.args.a3 == 0
    && c3.nr == SYS_MMAP && c3.args == Args(path, r.length, r.prot, r.flags, c2.ret, r.offset)
    && c4.nr == SYS_CLOSE && c4.args.a1 == c2.ret
  }

  /** A world with the same descriptors, some open and mmap calls later. */
  ghost predicate SameTable(k: World, t: World, calls: nat) {
    && t.fds == k.fds && t.cloexec == k.cloexec && k.files <= t.files && WellFormed(t)
    && (t.limit, t.cwd, t.opens, t.mmaps) == (k.limit, k.cwd, k.opens + calls, k.mmaps + calls)
  }

  /** An open and a close of its result, with an mmap in between, leave the descriptor table as it was. */
  lemma OpenThenClose(o: Oracle, k: World, m: Memory, a: Args, m': Memory, b: Args)
    requires WellFormed(k) && b.a1 == Open(o, k, m, a).ret
    ensures var k1 := Open(o, k, m, a).world;
      SameTable(k, Close(k1.(mmaps := k1.mmaps + 1), m', b).world, 1)
  {
    hide WellFormed;
    var r := Open(o, k, m, a);
    if r.ret >= U64_SIZE - 4095 {
      assert Low(r.ret) !in k.fds by { HighDescriptor(k, r.ret); }
      SameFiles(k, k.opens + 1, k.mmaps + 1, k.files);
    } else {
      var n := LowestFree(k.fds, 0);
      assert k.fds[n := |k.files|] - {n} == k.fds;
      NewIsUnmarked(k, n, r.world.files[|k.files|]);
      StatusFlagsStable(Low(a.a2));
      SameFiles(k, k.opens + 1, k.mmaps + 1, r.world.files);
    }
  }

  lemma NewIsUnmarked(k: World, fd: nat, f: File)
    requires WellFormed(k) && fd !in k.fds
    ensures Marked(k.cloexec, fd, f) - {fd} == k.cloexec
  {
    assert fd !in k.fds.Keys;
  }

  lemma HighDescriptor(k: World, fd: u64)
    requires WellFormed(k) && fd >= U64_SIZE - 4095
    ensures Low(fd) !in k.fds
  {
  }

  /** A table stays well formed when descriptions are added. */
  lemma SameFiles(k: World, opens: nat, mmaps: nat, files: seq<File>)
    requires WellFormed(k) && k.files <= files
    requires forall i :: |k.files| <= i < |files| ==>
      files[i].flags < U32_SIZE && StatusFlags(files[i].flags) == files[i].flags && files[i].pos == 0
    ensures WellFormed(k.(opens := opens, mmaps := mmaps, files := files))
  {
    forall f | f in files
      ensures f.flags < U32_SIZE && StatusFlags(f.flags) == f.flags && f.pos < 0x8000_0000_0000_0000
    {
      var i :| 0 <= i < |files| && files[i] == f;
      if i < |k.files| { assert f == k.files[i]; }
    }
  }

  // ----- the case table -----

  function Words(cases: seq<RawCase>): (w: seq<u64>)
    ensures |w| == 6 * |cases|
    ensures forall i :: 0 <= i < |cases| ==>
      w[6 * i..6 * i + 6] ==
      [cases[i].addr, cases[i].length, cases[i].prot, cases[i].flags, cases[i].pathOffset, cases[i].offset]
  {
    if cases == [] then []
    else
      var n := |cases| - 1;
      var c := cases[n];
      var w := Words(cases[..n]);
      var v := w + [c.addr, c.length, c.prot, c.flags, c.pathOffset, c.offset];
      assert forall i :: 0 <= i < n ==> v[6 * i..6 * i + 6] == w[6 * i..6 * i + 6];
      v
  }

  /** Every offset in the table is the start of a terminated path. */
  predicate Tidy(cases: seq<RawCase>, blob: seq<byte>) {
    forall i :: 0 <= i < |cases| ==> Starts(blob, cases[i].pathOffset)
  }

  datatype Image = Image(base: u64, cases: seq<RawCase>, blob: seq<byte>)

  ghost predicate Fits(img: Image) {
    && img.base + 48 * |img.cases| + 8 + |img.blob| + 2 <= USER_TOP
    && Tidy(img.cases, img.blob)
  }

  /** The static data does not depend on the address it is generated for. */
  function CaseBytes(cases: seq<RawCase>, blob: seq<byte>): (d: seq<byte>)
    requires 48 * |cases| < U64_SIZE
    ensures |d| == 48 * |cases| + 8 + |blob| + 2
  {
    StaticData(Packed(Words(cases)), blob)
  }

  function Data(img: Image): (d: seq<byte>)
    requires Fits(img)
    ensures |d| == 48 * |img.cases| + 8 + |img.blob| + 2
  {
    CaseBytes(img.cases, img.blob)
  }

  function Loop(img: Image): Program
    requires Fits(img)
  {
    var n := 48 * |img.cases|;
    Program(Code(), img.base, img.base + n, img.base + n + 8, img.base + |Data(img)|)
  }

  /** Where the loop reads the path of case `i`. */
  function PathAddress(img: Image, i: nat): u64
    requires Fits(img) && i < |img.cases|
  {
    img.base + 48 * |img.cases| + 8 + img.cases[i].pathOffset
  }

  lemma SixWords(cases: seq<RawCase>, i: nat)
    requires i < |cases|
    ensures var w, c := Words(cases), cases[i];
      && w[6 * i] == c.addr && w[6 * i + 1] == c.length && w[6 * i + 2] == c.prot
      && w[6 * i + 3] == c.flags && w[6 * i + 4] == c.pathOffset && w[6 * i + 5] == c.offset
  {
    hide Words;
    var w := Words(cases)[6 * i..6 * i + 6];
    assert w[0] == Words(cases)[6 * i] && w[1] == Words(cases)[6 * i + 1] && w[2] == Words(cases)[6 * i + 2];
    assert w[3] == Words(cases)[6 * i + 3] && w[4] == Words(cases)[6 * i + 4] && w[5] == Words(cases)[6 * i + 5];
  }

  lemma WordOfCase(img: Image, m: Memory, i: nat, j: nat)
    requires Fits(img) && HoldsAt(m, img.base, Data(img)) && i < |img.cases| && j < 6
    ensures Word(m, img.base + 48 * i + 8 * j, Words(img.cases)[6 * i + j])
  {
    hide HoldsAt, Mapped, ReadWord, Packed, Data, Words;
    TablePart(img, m);
    PackedWord(m, img.base, Words(img.cases), 6 * i + j);
  }

  /** Little-endian reads at 48 * i recover the record that was packed there. */
  lemma CaseData(img: Image, m: Memory, i: nat)
    requires Fits(img) && HoldsAt(m, img.base, Data(img)) && i < |img.cases|
    ensures Record(m, img.base + 48 * i, img.cases[i])
  {
    hide HoldsAt, Word, Data, Words, Tidy;
    SixWords(img.cases, i);
    WordOfCase(img, m, i, 0);
    WordOfCase(img, m, i, 1);
    WordOfCase(img, m, i, 2);
    WordOfCase(img, m, i, 3);
    WordOfCase(img, m, i, 4);
    WordOfCase(img, m, i, 5);
  }

  lemma TablePart(img: Image, m: Memory)
    requires Fits(img) && HoldsAt(m, img.base, Data(img))
    ensures HoldsAt(m, img.base, Packed(Words(img.cases)))
    ensures var p := Loop(img); Word(m, p.casesLength, 48 * |img.cases|) && HoldsAt(m, p.newPaths, img.blob)
  {
    hide HoldsAt, Mapped, ReadWord, Packed;
    StaticParts(m, img.base, Packed(Words(img.cases)), img.blob);
  }

  /** The text that open reads for case `i` is the path that was stored for it. */
  lemma CasePath(img: Image, m: Memory, i: nat)
    requires Fits(img) && HoldsAt(m, img.base, Data(img)) && i < |img.cases|
    ensures var path := TextAt(img.blob, img.cases[i].pathOffset);
      ReadCStr(m, PathAddress(img, i), PATH_MAX) == if |path| < PATH_MAX then Text(path) else TooLong
  {
    hide HoldsAt, Mapped, ReadWord, Packed, ReadCStr, TextAt, Data;
    TablePart(img, m);
    BlobRead(m, Loop(img).newPaths, img.blob, img.cases[i].pathOffset, PATH_MAX);
  }

  // ----- one turn -----

  /** A case stays away from the loop's data and from the word below the stack pointer, and is not fixed. */
  ghost predicate Harmless(r: RawCase, base: int, size: nat, sp: int) {
    && Apart(base, size, r.addr, PageUp(r.length)) && Apart(sp, 8, r.addr, PageUp(r.length))
    && !HasBit(r.flags, MAP_FIXED)
  }

  /** Everything the loop relies on is in place. */
  ghost predicate Ready(s: State, img: Image, sp: u64)
    requires Fits(img)
  {
    && s.status == Running && HoldsAt(s.mem, img.base, Data(img)) && WellFormed(s.world)
    && Get(s.regs, R14) == img.base && Mapped(s.mem, sp, 8)
  }

  ghost predicate Setting(img: Image, sp: u64) {
    && Fits(img) && Apart(img.base, 48 * |img.cases| + 8 + |img.blob| + 2, sp, 8) && sp + 8 < U64_SIZE
    && forall i :: 0 <= i < |img.cases| ==>
        Harmless(img.cases[i], img.base, 48 * |img.cases| + 8 + |img.blob| + 2, sp)
  }

  /** munmap and open: from the start of a turn to the pushed descriptor. */
  lemma FirstHalf(e: Execution, o: Oracle, img: Image, sp: u64, i: nat) returns (t: Execution, c1: Call, c2: Call, m: Memory)
    requires Setting(img, sp) && i < |img.cases| && Ready(e.now, img, sp)
    requires Reached(e) && e.p == Loop(img) && e.kernel == Linux(o) && e.now.pc == START
    requires Get(e.now.regs, R15) == 48 * i && Get(e.now.regs, RSP) == sp + 8
    ensures Reached(t) && t == e.(steps := e.steps + 15, now := t.now) && t.now.pc == 18
    ensures t.now.status == Running && Get(t.now.regs, R14) == img.base && Get(t.now.regs, R15) == 48 * i
    ensures Get(t.now.regs, RSP) == sp && Get(t.now.regs, R8) == c2.ret && Get(t.now.regs, RDI) == PathAddress(img, i)
    ensures t.now.log == e.now.log + [c1, c2]
    ensures c1.nr == SYS_MUNMAP && c1.args.a1 == img.cases[i].addr && c1.args.a2 == img.cases[i].length
    ensures c2.nr == SYS_OPEN && c2.args.a1 == PathAddress(img, i) && c2.args.a2 == O_RDWR && c2.args.a3 == 0
    ensures HoldsAt(m, img.base, Data(img))
    ensures t.now.world == Open(o, e.now.world, m, c2.args).world && c2.ret == Open(o, e.now.world, m, c2.args).ret
    ensures Word(t.now.mem, sp, c2.ret) && HoldsAt(t.now.mem, img.base, Data(img))
    ensures Spares(e.now.mem, t.now.mem, img.cases[i].addr, PageUp(img.cases[i].length), sp, 8)
  {
    hide Reached, ReadWord, Mapped, Get, HoldsAt, Data, Code, Starts, LeBytes, WriteBytes, Munmap, Open, PageUp, WellFormed;
    var r, at := img.cases[i], img.base + 48 * i;
    CaseData(img, e.now.mem, i);
    var e1;
    e1, c1 := MunmapPart(e, at, r);
    MunmapSpares(e.now.world, e.now.mem, c1.args);
    HoldsAtSpared(e.now.mem, e1.now.mem, img.base, Data(img), r.addr, PageUp(r.length), 0, 0);
    WordSpared(e.now.mem, e1.now.mem, sp, r.addr, PageUp(r.length), 0, 0);
    m := e1.now.mem;
    CaseData(img, m, i);
    var e2 := OpenArgsPart(e1, at, r);
    t, c2 := OpenCallPart(e2, sp);
    PushSpares(e1.now.mem, sp, c2.ret);
    HoldsAtSpared(e1.now.mem, t.now.mem, img.base, Data(img), 0, 0, sp, 8);
  }

  /** mmap and close: from the pushed descriptor to the next loop test. */
  lemma SecondHalf(e: Execution, o: Oracle, img: Image, sp: u64, i: nat, fd: u64) returns (t: Execution, c3: Call, c4: Call)
    requires Setting(img, sp) && i < |img.cases|
    requires Reached(e) && e.p == Loop(img) && e.kernel == Linux(o) && e.now.pc == 18 && e.now.status == Running
    requires Get(e.now.regs, R14) == img.base && Get(e.now.regs, R15) == 48 * i && Get(e.now.regs, RSP) == sp
    requires Get(e.now.regs, R8) == fd && Get(e.now.regs, RDI) == PathAddress(img, i)
    requires Word(e.now.mem, sp, fd) && HoldsAt(e.now.mem, img.base, Data(img))
    ensures Reached(t) && t == e.(steps := e.steps + 15, now := t.now) && t.now.pc == END
    ensures t.now.status == Running && Get(t.now.regs, R14) == img.base && Get(t.now.regs, R15) == 48 * (i + 1)
    ensures Get(t.now.regs, RSP) == sp + 8
    ensures t.now.log == e.now.log + [c3, c4]
    ensures var r := img.cases[i];
      c3.nr == SYS_MMAP && c3.args == Args(PathAddress(img, i), r.length, r.prot, r.flags, fd, r.offset)
    ensures c4.nr == SYS_CLOSE && c4.args.a1 == fd
    ensures var k := e.now.world; t.now.world == Close(k.(mmaps := k.mmaps + 1), t.now.mem, c4.args).world
    ensures Mapped(t.now.mem, sp, 8) && HoldsAt(t.now.mem, img.base, Data(img))
    ensures Spares(e.now.mem, t.now.mem, 0, 0, 0, 0)
  {
    hide Reached, ReadWord, Mapped, Get, HoldsAt, Data, Code, Starts, Mmap, Close, PageUp;
    var r, at := img.cases[i], img.base + 48 * i;
    CaseData(img, e.now.mem, i);
    var e1 := LengthProtPart(e, at, r);
    var e2 := FlagsOffsetPart(e1, at, r);
    var e3, e4;
    e3, c3 := MmapCallPart(e2);
    MmapSpares(o, e.now.world, e.now.mem, c3.args);
    HoldsAtSpared(e.now.mem, e3.now.mem, img.base, Data(img), 0, 0, 0, 0);
    WordSpared(e.now.mem, e3.now.mem, sp, 0, 0, 0, 0);
    e4, c4 := ClosePart(e3, sp);
    t := NextPart(e4);
  }

  /** The loop test, with `i` cases done and the stack balanced. */
  ghost predicate AtTest(e: Execution, o: Oracle, img: Image, sp: u64, i: nat)
    requires Fits(img)
  {
    && Reached(e) && e.p == Loop(img) && e.kernel == Linux(o) && e.now.pc == END
    && Ready(e.now, img, sp) && i <= |img.cases|
    && Get(e.now.regs, R15) == 48 * i && Get(e.now.regs, RSP) == sp + 8
  }

  lemma OneTurn(e: Execution, o: Oracle, img: Image, sp: u64, i: nat)
    returns (t: Execution, c1: Call, c2: Call, c3: Call, c4: Call)
    requires Setting(img, sp) && i < |img.cases| && AtTest(e, o, img, sp, i)
    ensures AtTest(t, o, img, sp, i + 1) && t == e.(steps := e.steps + 33, now := t.now)
    ensures t.now.log == e.now.log + [c1, c2, c3, c4]
    ensures CaseCalls(img.cases[i], PathAddress(img, i), c1, c2, c3, c4)
    ensures SameTable(e.now.world, t.now.world, 1)
    ensures Spares(e.now.mem, t.now.mem, img.cases[i].addr, PageUp(img.cases[i].length), sp, 8)
  {
    hide Reached, ReadWord, Mapped, Get, HoldsAt, Data, Code, Starts, PageUp, Open, Close, WellFormed;
    assert Word(e.now.mem, e.p.casesLength, 48 * |img.cases|) by { TablePart(img, e.now.mem); }
    var e1 := HeadPart(e);
    var e2, m;
    e2, c1, c2, m := FirstHalf(e1, o, img, sp, i);
    t, c3, c4 := SecondHalf(e2, o, img, sp, i, c2.ret);
    OpenThenClose(o, e.now.world, m, c2.args, t.now.mem, c4.args);
  }

  // ----- the whole run -----

  /** The calls for `n` cases, starting with case `i`, were appended to the log. */
  ghost predicate Logged(img: Image, before: seq<Call>, after: seq<Call>, i: nat)
    requires Fits(img) && i <= |img.cases|
  {
    && |after| == |before| + 4 * (|img.cases| - i) && before <= after
    && forall j {:trigger img.cases[j]} :: i <= j < |img.cases| ==>
        var at := |before| + 4 * (j - i);
        CaseCalls(img.cases[j], PathAddress(img, j), after[at], after[at + 1], after[at + 2], after[at + 3])
  }

  /** No address outside the regions of the cases and the word below the stack pointer has changed. */
  ghost predicate Framed(m: Memory, m': Memory, img: Image, sp: u64) {
    forall x :: x in m && !Within(x, sp, 8)
      && (forall i :: 0 <= i < |img.cases| ==> !Within(x, img.cases[i].addr, PageUp(img.cases[i].length)))
      ==> x in m' && m'[x] == m[x]
  }

  lemma {:induction false} RestOfLoop(e: Execution, o: Oracle, img: Image, sp: u64, i: nat) returns (t: Execution)
    requires Setting(img, sp) && i <= |img.cases| && AtTest(e, o, img, sp, i)
    ensures Reached(t) && t == e.(steps := e.steps + 33 * (|img.cases| - i) + 4, now := t.now)
    ensures t.now.status == Trapped && Get(t.now.regs, RSP) == sp + 8
    ensures Logged(img, e.now.log, t.now.log, i)
    ensures SameTable(e.now.world, t.now.world, |img.cases| - i) && Framed(e.now.mem, t.now.mem, img, sp)
    decreases |img.cases| - i
  {
    hide Reached, Get, HoldsAt, Data, Code, WellFormed, PageUp, Mapped, ReadWord, Starts;
    if i < |img.cases| {
      var e1, c1, c2, c3, c4 := OneTurn(e, o, img, sp, i);
      t := RestOfLoop(e1, o, img, sp, i + 1);
      assert t.now.log[..|e.now.log| + 4] == e.now.log + [c1, c2, c3, c4];
    } else {
      assert Word(e.now.mem, e.p.casesLength, 48 * |img.cases|) by { TablePart(img, e.now.mem); }
      HeadCode();
      var e1 := HeadPart(e);
      t := e1.DoInt3();
    }
  }

  lemma EntryCode()
    ensures Code()[0] == XorSelf(R15)
    ensures Code()[1] == Lea(R14, Cases)
    ensures Code()[2] == Jmp(END)
  {
  }

  /**
    The emitted loop stops at its trap after exactly `LoopSteps` instructions. By then it has made exactly
    four calls per case, in order and with that case's own fields; the descriptor table and the stack
    pointer are as before, and memory changed only in the regions of the cases and below the stack pointer.
   */
  lemma MmapLoopTrace(o: Oracle, img: Image, sp: u64, s: State)
    requires Setting(img, sp) && HoldsAt(s.mem, img.base, Data(img)) && WellFormed(s.world)
    requires s.status == Running && s.pc == 0 && Get(s.regs, RSP) == sp + 8 && Mapped(s.mem, sp, 8)
    ensures var t := Run(Loop(img), Linux(o), s, LoopSteps(|img.cases|));
      && t.status == Trapped && Get(t.regs, RSP) == sp + 8
      && Logged(img, s.log, t.log, 0)
      && SameTable(s.world, t.world, |img.cases|) && Framed(s.mem, t.mem, img, sp)
  {
    var t := FromEntry(Execution(Loop(img), Linux(o), s, 0, s), o, img, sp);
  }

  lemma FromEntry(e: Execution, o: Oracle, img: Image, sp: u64) returns (t: Execution)
    requires Setting(img, sp) && HoldsAt(e.now.mem, img.base, Data(img)) && WellFormed(e.now.world)
    requires Reached(e) && e.p == Loop(img) && e.kernel == Linux(o)
    requires e.now.status == Running && e.now.pc == 0 && Get(e.now.regs, RSP) == sp + 8 && Mapped(e.now.mem, sp, 8)
    ensures Reached(t) && t == e.(steps := e.steps + LoopSteps(|img.cases|), now := t.now)
    ensures t.now.status == Trapped && Get(t.now.regs, RSP) == sp + 8
    ensures Logged(img, e.now.log, t.now.log, 0)
    ensures SameTable(e.now.world, t.now.world, |img.cases|) && Framed(e.now.mem, t.now.mem, img, sp)
  {
    hide Reached, Get, HoldsAt, Data, Code, WellFormed, Mapped, Starts, Framed, SameTable;
    EntryCode();
    var e1 := e.DoXorSelf(R15);
    var e2 := e1.DoLea(R14, Cases);
    var e3 := e2.DoJmp(END);
    t := RestOfLoop(e3, o, img, sp, 0);
  }

  /**
    The loop does not ask for the regions back: in the log of its run, the mmap call of every case that
    has a length goes to another address than the one that was unmapped.
   */
  lemma RegionsNotRequested(o: Oracle, img: Image, sp: u64, s: State)
    requires Setting(img, sp) && HoldsAt(s.mem, img.base, Data(img)) && WellFormed(s.world)
    requires s.status == Running && s.pc == 0 && Get(s.regs, RSP) == sp + 8 && Mapped(s.mem, sp, 8)
    ensures var t := Run(Loop(img), Linux(o), s, LoopSteps(|img.cases|));
      && |t.log| == |s.log| + 4 * |img.cases|
      && forall i {:trigger img.cases[i]} :: 0 <= i < |img.cases| && img.cases[i].length > 0 ==>
          var at := |s.log| + 4 * i;
          && t.log[at].nr == SYS_MUNMAP && t.log[at].args.a1 == img.cases[i].addr
          && t.log[at + 2].nr == SYS_MMAP && t.log[at + 2].args.a1 != img.cases[i].addr
  {
    hide Run, HoldsAt, Data, WellFormed, Mapped, Get, Framed, SameTable, Starts, PageUp;
    MmapLoopTrace(o, img, sp, s);
    forall i {:trigger img.cases[i]} | 0 <= i < |img.cases|
      ensures img.cases[i].length > 0 ==> PathAddress(img, i) != img.cases[i].addr
    {
      if img.cases[i].length > 0 { PathOutside(img, sp, i); }
    }
  }

  /** The text of a path lies in the static data, and so outside the region of any harmless case. */
  lemma PathOutside(img: Image, sp: u64, i: nat)
    requires Setting(img, sp) && i < |img.cases| && img.cases[i].length > 0
    ensures PathAddress(img, i) != img.cases[i].addr
  {
    assert Harmless(img.cases[i], img.base, 48 * |img.cases| + 8 + |img.blob| + 2, sp);
  }

  // ----- building the table -----

  datatype Mapping = Mapping(addr: u64, length: u64, prot: u64, flags: u64, path: seq<byte>, offset: u64)

  function Stored(c: RawCase, blob: seq<byte>): Mapping
    requires Starts(blob, c.pathOffset)
  {
    Mapping(c.addr, c.length, c.prot, c.flags, TextAt(blob, c.pathOffset), c.offset)
  }

  /** The mappings that a table and its path blob stand for. */
  function Mappings(cases: seq<RawCase>, blob: seq<byte>): (ms: seq<Mapping>)
    requires Tidy(cases, blob)
    ensures |ms| == |cases|
  {
    seq(|cases|, i requires 0 <= i < |cases| => Stored(cases[i], blob))
  }

  lemma MappingsExtend(cases: seq<RawCase>, blob: seq<byte>, m: Mapping)
    requires Tidy(cases, blob) && |blob| < U64_SIZE
    ensures var cases' := cases + [RawCase(m.addr, m.length, m.prot, m.flags, |blob|, m.offset)];
      var blob' := blob + m.path + [0];
      Tidy(cases', blob') && Mappings(cases', blob') == Mappings(cases, blob) + [m.(path := UpToNul(m.path))]
  {
    hide Starts, TextAt;
    var cases' := cases + [RawCase(m.addr, m.length, m.prot, m.flags, |blob|, m.offset)];
    var blob' := blob + m.path + [0];
    assert blob' == blob + (m.path + [0]);
    forall i | 0 <= i < |cases|
      ensures Starts(blob', cases'[i].pathOffset) && Stored(cases'[i], blob') == Stored(cases[i], blob)
    {
      TextSurvives(blob, m.path + [0], cases[i].pathOffset);
    }
    TextPushed(blob, m.path);
  }

  class ProcessAccessorBuilder {
    var cases: seq<RawCase>
    var newPaths: seq<byte>

    ghost predicate Valid()
      reads this
    {
      Tidy(cases, newPaths)
    }

    ghost function Contents(): seq<Mapping>
      reads this
      requires Valid()
    {
      Mappings(cases, newPaths)
    }

    constructor ()
      ensures Valid() && Contents() == [] && newPaths == []
    {
      cases := [];
      newPaths := [];
    }

    method PushCase(addr: u64, length: u64, prot: u64, flags: u64, path: OsPath, offset: u64) returns (ok: bool)
      requires Valid() && (path.utf8 ==> |newPaths| + |path.bytes| + 1 < U64_SIZE)
      modifies this
      ensures Valid() && ok == path.utf8
      ensures Contents() == old(Contents()) +
        if ok then [Mapping(addr, length, prot, flags, UpToNul(path.bytes), offset)] else []
      ensures |newPaths| == old(|newPaths|) + if ok then |path.bytes| + 1 else 0
    {
      ok := path.utf8;
      if !ok {
        return;
      }
      var newPathOffset := |newPaths|;
      MappingsExtend(cases, newPaths, Mapping(addr, length, prot, flags, path.bytes, offset));
      newPaths := newPaths + path.bytes + [0];
      cases := cases + [RawCase(addr, length, prot, flags, newPathOffset, offset)];
    }
  }

  // ----- from the listing of a process -----

  /** A file-backed region as the listing of a process gives it, with the path it shall get. */
  datatype Region = Region(addr: u64, length: u64, perms: seq<byte>, path: OsPath, offset: u64)

  function ProtOf(perms: seq<byte>): u64
    requires |perms| >= 4
  {
    (if perms[0] == 'r' as int then 1 else 0) + (if perms[1] == 'w' as int then 2 else 0) +
    (if perms[2] == 'x' as int then 4 else 0)
  }

  function FlagsOf(perms: seq<byte>): u64
    requires |perms| >= 4
  {
    if perms[3] == 's' as int then 1 else 2
  }

  /** Protection and sharing from the four permission characters; a mapping is never asked for at a fixed place. */
  method ProtAndFlags(perms: seq<byte>) returns (prot: u64, flags: u64)
    requires |perms| >= 4
    ensures prot == ProtOf(perms) && flags == FlagsOf(perms)
    ensures prot < 8 && (HasBit(prot, 1) <==> perms[0] == 'r' as int)
    ensures HasBit(prot, 2) <==> perms[1] == 'w' as int
    ensures HasBit(prot, 4) <==> perms[2] == 'x' as int
    ensures HasBit(flags, 1) <==> perms[3] == 's' as int
    ensures HasBit(flags, 2) <==> perms[3] != 's' as int
    ensures !HasBit(flags, MAP_FIXED)
  {
    prot := 0;
    flags := 2;
    if perms[0] == 'r' as int {
      prot := prot + 1;
    }
    if perms[1] == 'w' as int {
      prot := prot + 2;
    }
    if perms[2] == 'x' as int {
      prot := prot + 4;
    }
    if perms[3] == 's' as int {
      flags := 1;
    }
  }

  predicate WithPerms(regions: seq<Region>) {
    forall i :: 0 <= i < |regions| ==> |regions[i].perms| >= 4
  }

  /** The mappings asked for: those whose path is UTF-8, in order, with what their permissions mean. */
  function Wanted(regions: seq<Region>): seq<Mapping>
    requires WithPerms(regions)
  {
    if regions == [] then []
    else
      var r := regions[|regions| - 1];
      Wanted(regions[..|regions| - 1]) +
      if r.path.utf8
      then [Mapping(r.addr, r.length, ProtOf(r.perms), FlagsOf(r.perms), UpToNul(r.path.bytes), r.offset)] else []
  }

  /** What the paths that are pushed take in the blob. */
  function RegionBytes(regions: seq<Region>): nat {
    if regions == [] then 0
    else
      var path := regions[|regions| - 1].path;
      RegionBytes(regions[..|regions| - 1]) + if path.utf8 then |path.bytes| + 1 else 0
  }

  lemma {:induction false} RegionBytesGrow(regions: seq<Region>, i: nat)
    requires i <= |regions|
    ensures RegionBytes(regions[..i]) <= RegionBytes(regions)
  {
    if i < |regions| {
      var front := regions[..|regions| - 1];
      RegionBytesGrow(front, i);
      assert front[..i] == regions[..i];
    } else {
      assert regions[..i] == regions;
    }
  }

  predicate IsUtf8(r: Region) {
    r.path.utf8
  }

  /** `m` asks for region `r` at its new path, with exactly the protection and the sharing of its permissions. */
  predicate Asks(m: Mapping, r: Region)
    requires |r.perms| >= 4
  {
    && m.addr == r.addr && m.length == r.length && m.offset == r.offset && m.path == UpToNul(r.path.bytes)
    && m.prot < 8
    && (HasBit(m.prot, 1) <==> r.perms[0] == 'r' as int) && (HasBit(m.prot, 2) <==> r.perms[1] == 'w' as int)
    && (HasBit(m.prot, 4) <==> r.perms[2] == 'x' as int)
    && (if r.perms[3] == 's' as int then m.flags == 1 else m.flags == 2)
  }

  ghost predicate AllAsk(ms: seq<Mapping>, regions: seq<Region>, idx: seq<int>)
    requires WithPerms(regions)
  {
    |ms| == |idx| && forall k :: 0 <= k < |idx| ==> 0 <= idx[k] < |regions| && Asks(ms[k], regions[idx[k]])
  }

  /** The mappings are those of the regions that `idx` selects. */
  ghost predicate MappingsOf(ms: seq<Mapping>, regions: seq<Region>, idx: seq<int>)
    requires WithPerms(regions)
  {
    Selects(idx, regions, IsUtf8) && AllAsk(ms, regions, idx)
  }

  lemma AllAskMore(ms: seq<Mapping>, m: Mapping, regions: seq<Region>, idx: seq<int>)
    requires WithPerms(regions) && regions != [] && AllAsk(ms, regions[..|regions| - 1], idx)
    requires Asks(m, regions[|regions| - 1])
    ensures AllAsk(ms, regions, idx) && AllAsk(ms + [m], regions, idx + [|regions| - 1])
  {
    hide Asks;
    var front := regions[..|regions| - 1];
    forall k | 0 <= k < |idx| ensures 0 <= idx[k] < |regions| && Asks(ms[k], regions[idx[k]]) {
      assert front[idx[k]] == regions[idx[k]];
    }
  }

  lemma MappingsOneMore(ms: seq<Mapping>, m: Mapping, regions: seq<Region>, idx: seq<int>)
    requires WithPerms(regions) && regions != [] && MappingsOf(ms, regions[..|regions| - 1], idx)
    requires Asks(m, regions[|regions| - 1])
    ensures if IsUtf8(regions[|regions| - 1]) then MappingsOf(ms + [m], regions, idx + [|regions| - 1])
            else MappingsOf(ms, regions, idx)
  {
    hide Asks, Selects, AllAsk;
    SelectsOneMore(idx, regions, IsUtf8);
    AllAskMore(ms, m, regions, idx);
  }

  /** Every region with a UTF-8 path is asked for, in order and as it was mapped, and no other region is. */
  lemma {:induction false} WantedIsExact(regions: seq<Region>) returns (idx: seq<int>)
    requires WithPerms(regions)
    ensures MappingsOf(Wanted(regions), regions, idx)
  {
    idx := [];
    if regions != [] {
      hide MappingsOf, UpToNul, Asks;
      var front, r := regions[..|regions| - 1], regions[|regions| - 1];
      idx := WantedIsExact(front);
      PermsAsked(r);
      var m := Mapping(r.addr, r.length, ProtOf(r.perms), FlagsOf(r.perms), UpToNul(r.path.bytes), r.offset);
      MappingsOneMore(Wanted(front), m, regions, idx);
      if IsUtf8(r) {
        idx := idx + [|regions| - 1];
      }
    }
  }

  lemma PermsAsked(r: Region)
    requires |r.perms| >= 4
    ensures Asks(Mapping(r.addr, r.length, ProtOf(r.perms), FlagsOf(r.perms), UpToNul(r.path.bytes), r.offset), r)
  {
  }

  method FromIter(regions: seq<Region>) returns (builder: ProcessAccessorBuilder, ghost idx: seq<int>)
    requires WithPerms(regions) && RegionBytes(regions) < U64_SIZE
    ensures fresh(builder) && builder.Valid() && builder.Contents() == Wanted(regions)
    ensures MappingsOf(builder.Contents(), regions, idx)
    ensures |builder.cases| == |idx| <= |regions| && |builder.newPaths| == RegionBytes(regions)
  {
    builder := new ProcessAccessorBuilder();
    for i := 0 to |regions|
      invariant builder.Valid() && fresh(builder)
      invariant builder.Contents() == Wanted(regions[..i])
      invariant |builder.newPaths| == RegionBytes(regions[..i]) <= RegionBytes(regions)
      invariant |builder.cases| == |builder.Contents()| <= i
    {
      var r := regions[i];
      assert regions[..i + 1][..i] == regions[..i];
      RegionBytesGrow(regions, i + 1);
      var prot, flags := ProtAndFlags(r.perms);
      var ok := builder.PushCase(r.addr, r.length, prot, flags, r.path, r.offset);
    }
    assert regions[..|regions|] == regions;
    idx := WantedIsExact(regions);
  }
}
