/**
  src/ptrace/mod.rs: running system calls and injected code inside a stopped process. A guard saves the
  registers and the instruction word under rip, and writes them back on every exit.
 */
module TracedProcess {
  import opened Bytes
  import opened Kernel
  import opened Machine
  import opened Reopening
  import FdReplacer
  import Layout
  import MmapReplacer
  import MmapLoop

  /** How a call ends; `Panic` is an unwrap that fails while the guard writes back. */
  datatype Exit<T> = Ok(value: T) | Err | Panic

  /** The saved registers and the eight bytes under rip. */
  datatype Guard = Guard(regs: Regs, word: seq<byte>)

  function Rip(r: Regs): u64 {
    Get(r, RIP)
  }

  /** The register that carries argument `i` of a system call. */
  function ArgReg(i: nat): Reg
    requires i < 6
  {
    match i
    case 0 => RDI
    case 1 => RSI
    case 2 => RDX
    case 3 => R10
    case 4 => R8
    case _ => R9
  }

  function WithArgs(r: Regs, args: seq<u64>): Regs
    requires |args| <= 6
  {
    if args == [] then r
    else WithArgs(r, args[..|args| - 1])[ArgReg(|args| - 1) := args[|args| - 1]]
  }

  /** Each argument reaches the position the kernel reads it from, and nothing else is touched. */
  lemma {:induction false} ArgsReachTheKernel(r: Regs, args: seq<u64>)
    requires |args| <= 6
    ensures forall i :: 0 <= i < |args| ==> Get(WithArgs(r, args), ArgReg(i)) == args[i]
    ensures forall x :: (forall i :: 0 <= i < |args| ==> x != ArgReg(i)) ==> Get(WithArgs(r, args), x) == Get(r, x)
  {
    if args != [] {
      ArgsReachTheKernel(r, args[..|args| - 1]);
    }
  }

  /** The syscall instruction, as the word that is poked over the code under rip. */
  const SyscallWord: seq<byte> := [0x0f, 0x05, 0, 0, 0, 0, 0, 0]

  /** The result of one remote call, after the word under rip has been put back. */
  function RemoteCall(o: Oracle, k: World, m: Memory, r: Regs, nr: u64, args: seq<u64>): Reply
    requires |args| <= 6 && Mapped(m, Rip(r), 8)
  {
    var reply := SystemCall(o, k, WriteBytes(m, Rip(r), SyscallWord), nr, SyscallArgs(WithArgs(r[RAX := nr], args)));
    reply.(mem := WriteBytes(reply.mem, Rip(r), ReadBytes(m, Rip(r), 8)))
  }

  lemma PokeAndRestore(m: Memory, at: int, w: seq<byte>)
    requires |w| == 8 && Mapped(m, at, 8)
    ensures WriteBytes(WriteBytes(m, at, w), at, ReadBytes(m, at, 8)) == m
    ensures WriteBytes(m, at, ReadBytes(m, at, 8)) == m
  {
    WriteBackRestores(m, m, at);
    WriteBackRestores(m, WriteBytes(m, at, w), at);
  }

  /** Writing back what was read undoes any change of those eight bytes. */
  lemma WriteBackRestores(m: Memory, m1: Memory, at: int)
    requires Mapped(m, at, 8) && m1.Keys == m.Keys
    requires forall a :: a in m && !Within(a, at, 8) ==> a in m1 && m1[a] == m[a]
    ensures WriteBytes(m1, at, ReadBytes(m, at, 8)) == m
  {
    var m2 := WriteBytes(m1, at, ReadBytes(m, at, 8));
    assert m2.Keys == m.Keys;
    forall a | a in m ensures a in m2 && m2[a] == m[a] {
      if Within(a, at, 8) { assert ReadBytes(m, at, 8)[a - at] == m[a]; }
    }
  }

  /** Up to six arguments go to their registers, one after the other; a seventh is refused. */
  method LoadArgs(r: Regs, args: seq<u64>) returns (loaded: Exit<Regs>)
    ensures loaded == if |args| <= 6 then Ok(WithArgs(r, args)) else Err
  {
    var regs := r;
    for index := 0 to |args|
      invariant index <= 6 && regs == WithArgs(r, args[..index])
    {
      if index >= 6 {
        return Err;
      }
      assert args[..index + 1][..index] == args[..index];
      regs := regs[ArgReg(index) := args[index]];
    }
    assert args[..|args|] == args;
    return Ok(regs);
  }

  /** Loading the arguments leaves rip alone and the number in rax. */
  lemma LoadedForCall(r: Regs, nr: u64, args: seq<u64>)
    requires |args| <= 6
    ensures var loaded := WithArgs(r[RAX := nr], args);
      Rip(loaded) == Rip(r) && Get(loaded, RAX) == nr
  {
    hide WithArgs;
    ArgsReachTheKernel(r[RAX := nr], args);
  }

  lemma SyscallPoked(m: Memory, rip: u64)
    requires Mapped(m, rip, 8)
    ensures AtSyscall(WriteBytes(m, rip, SyscallWord), rip)
  {
    var m1 := WriteBytes(m, rip, SyscallWord);
    assert HoldsAt(m1, rip, SyscallWord);
  }

  // ----- the remote calls that the replacers make -----

  /** Everything in `m` is in `m'` too, unchanged. */
  ghost predicate Includes(m: Memory, m': Memory) {
    forall a :: a in m ==> a in m' && m'[a] == m[a]
  }

  /** `m'` is `m` plus one fresh mapping. */
  ghost predicate Extends(m: Memory, m': Memory, addr: int, len: nat) {
    && Includes(m, m') && m'.Keys == m.Keys + Span(addr, len)
    && (forall a :: Within(a, addr, len) ==> a !in m)
    && addr % PAGE == 0 && 0 <= addr && addr + len <= USER_TOP
  }

  const SCRATCH_PROT: u64 := 7     // PROT_READ | PROT_WRITE | PROT_EXEC
  const SCRATCH_FLAGS: u64 := 0x22 // MAP_PRIVATE | MAP_ANON

  function MmapArgs(len: u64): seq<u64> {
    [0, len, SCRATCH_PROT, SCRATCH_FLAGS, 0, 0]
  }

  lemma ArgsOf(r: Regs, nr: u64, args: seq<u64>)
    requires |args| <= 6
    ensures var a := SyscallArgs(WithArgs(r[RAX := nr], args));
      && (|args| > 0 ==> a.a1 == args[0]) && (|args| > 1 ==> a.a2 == args[1]) && (|args| > 2 ==> a.a3 == args[2])
      && (|args| > 3 ==> a.a4 == args[3]) && (|args| > 4 ==> a.a5 == args[4]) && (|args| > 5 ==> a.a6 == args[5])
  {
    hide WithArgs, Get;
    ArgsReachTheKernel(r[RAX := nr], args);
    if |args| > 0 { assert ArgReg(0) == RDI; }
    if |args| > 1 { assert ArgReg(1) == RSI; }
    if |args| > 2 { assert ArgReg(2) == RDX; }
    if |args| > 3 { assert ArgReg(3) == R10; }
    if |args| > 4 { assert ArgReg(4) == R8; }
    if |args| > 5 { assert ArgReg(5) == R9; }
  }

  /** The kernel has a place for a mapping of `len` bytes. */
  ghost predicate HasPlace(o: Oracle, k: World, m: Memory, len: nat) {
    && len > 0 && o.mmap(k.mmaps).Placed?
    && var at := o.mmap(k.mmaps).addr;
    at % PAGE == 0 && 0 <= at && at + PageUp(len) <= USER_TOP && forall x :: x in m ==> !Within(x, at, PageUp(len))
  }

  lemma FreshMapping(o: Oracle, k: World, m: Memory, a: Args)
    requires a.a4 == SCRATCH_FLAGS
    ensures HasPlace(o, k, m, a.a2) ==> Mmap(o, k, m, a).ret < USER_TOP
    ensures var reply := Mmap(o, k, m, a);
      && reply.world == k.(mmaps := k.mmaps + 1)
      && (reply.ret < USER_TOP ==> a.a2 > 0 && Extends(m, reply.mem, reply.ret, PageUp(a.a2)))
      && (reply.ret >= USER_TOP ==> reply.mem == m)
  {
    assert HasBit(SCRATCH_FLAGS, MAP_ANON) && !HasBit(SCRATCH_FLAGS, MAP_FIXED);
  }

  lemma ExtendsUnderPoke(m: Memory, at: int, w: seq<byte>, m': Memory, addr: int, len: nat)
    requires |w| == 8 && Mapped(m, at, 8) && Extends(WriteBytes(m, at, w), m', addr, len)
    ensures Extends(m, WriteBytes(m', at, ReadBytes(m, at, 8)), addr, len)
  {
    var m1, m2 := WriteBytes(m, at, w), WriteBytes(m', at, ReadBytes(m, at, 8));
    assert m1.Keys == m.Keys;
    assert m2.Keys == m'.Keys;
    forall a | a in m ensures a in m2 && m2[a] == m[a] {
      assert a in m1;
    }
    forall a | Within(a, addr, len) ensures a !in m {
      assert a !in m1;
    }
  }

  /** The word under rip is still mapped when a remote call has been made. */
  ghost predicate RipSurvives(o: Oracle, k: World, m: Memory, r: Regs, nr: u64, args: seq<u64>)
    requires |args| <= 6
  {
    var a := SyscallArgs(WithArgs(r[RAX := nr], args));
    Mapped(SystemCall(o, k, WriteBytes(m, Rip(r), SyscallWord), nr, a).mem, Rip(r), 8)
  }

  lemma MappedStays(m: Memory, m': Memory, addr: int, len: nat, at: int)
    requires Extends(m, m', addr, len) && Mapped(m, at, 8)
    ensures Mapped(m', at, 8)
  {
    forall x | at <= x < at + 8 ensures x in m' { assert x in m; }
  }

  /** The scratch mapping is fresh and there if the kernel has a place; if the call failed, its result is no address. */
  lemma RemoteMmap(o: Oracle, k: World, m: Memory, r: Regs, len: u64)
    requires Mapped(m, Rip(r), 8)
    ensures RipSurvives(o, k, m, r, SYS_MMAP, MmapArgs(len))
    ensures HasPlace(o, k, m, len) ==> RemoteCall(o, k, m, r, SYS_MMAP, MmapArgs(len)).ret < USER_TOP
    ensures var reply := RemoteCall(o, k, m, r, SYS_MMAP, MmapArgs(len));
      && reply.world == k.(mmaps := k.mmaps + 1)
      && (reply.ret < USER_TOP ==> len > 0 && Extends(m, reply.mem, reply.ret, PageUp(len)))
      && (reply.ret >= USER_TOP ==> reply.mem == m)
  {
    hide WithArgs, Get, Mmap, Extends, WriteBytes, PageUp;
    ArgsOf(r, SYS_MMAP, MmapArgs(len));
    var a, m1 := SyscallArgs(WithArgs(r[RAX := SYS_MMAP], MmapArgs(len))), WriteBytes(m, Rip(r), SyscallWord);
    FreshMapping(o, k, m1, a);
    PlaceUnderPoke(o, k, m, Rip(r), len);
    var reply := Mmap(o, k, m1, a);
    if reply.ret < USER_TOP {
      MappedStays(m1, reply.mem, reply.ret, PageUp(len), Rip(r));
      ExtendsUnderPoke(m, Rip(r), SyscallWord, reply.mem, reply.ret, PageUp(len));
    } else {
      PokeAndRestore(m, Rip(r), SyscallWord);
    }
  }

  lemma PlaceUnderPoke(o: Oracle, k: World, m: Memory, at: int, len: nat)
    requires Mapped(m, at, 8)
    ensures HasPlace(o, k, m, len) ==> HasPlace(o, k, WriteBytes(m, at, SyscallWord), len)
    ensures Mapped(WriteBytes(m, at, SyscallWord), at, 8)
  {
    var m1 := WriteBytes(m, at, SyscallWord);
    assert forall x :: x in m1 <==> x in m1.Keys;
    assert m1.Keys == m.Keys;
  }

  /** Unmapping a range that does not hold the instruction under rip. */
  lemma RemoteMunmap(o: Oracle, k: World, m: Memory, r: Regs, addr: u64, len: u64)
    requires Mapped(m, Rip(r), 8) && addr % PAGE == 0 && len > 0 && addr + PageUp(len) <= USER_TOP
    requires forall x :: Within(x, Rip(r), 8) ==> !Within(x, addr, PageUp(len))
    ensures RipSurvives(o, k, m, r, SYS_MUNMAP, [addr, len])
    ensures var reply := RemoteCall(o, k, m, r, SYS_MUNMAP, [addr, len]);
      reply.world == k && reply.mem == Without(m, addr, PageUp(len))
  {
    hide WithArgs, Get, PageUp;
    ArgsOf(r, SYS_MUNMAP, [addr, len]);
    UnmapUnderPoke(m, Rip(r), addr, PageUp(len));
    RestMapped(WriteBytes(m, Rip(r), SyscallWord), Rip(r), addr, PageUp(len));
  }

  lemma RestMapped(m: Memory, at: int, addr: int, len: nat)
    requires Mapped(m, at, 8) && forall x :: Within(x, at, 8) ==> !Within(x, addr, len)
    ensures Mapped(Without(m, addr, len), at, 8)
  {
    forall x | at <= x < at + 8 ensures x in Without(m, addr, len) { assert x in m && Within(x, at, 8); }
  }

  lemma UnmapUnderPoke(m: Memory, at: int, addr: int, len: nat)
    requires Mapped(m, at, 8) && forall x :: Within(x, at, 8) ==> !Within(x, addr, len)
    ensures WriteBytes(Without(WriteBytes(m, at, SyscallWord), addr, len), at, ReadBytes(m, at, 8))
         == Without(m, addr, len)
  {
    var m1 := WriteBytes(m, at, SyscallWord);
    var rest := Without(m, addr, len);
    assert Mapped(rest, at, 8) by {
      forall x | at <= x < at + 8 ensures x in rest { assert Within(x, at, 8) && x in m; }
    }
    assert Without(m1, addr, len) == WriteBytes(rest, at, SyscallWord);
    assert ReadBytes(m, at, 8) == ReadBytes(rest, at, 8) by {
      forall i | 0 <= i < 8 ensures ReadBytes(m, at, 8)[i] == ReadBytes(rest, at, 8)[i] { assert Within(at + i, at, 8); }
    }
    PokeAndRestore(rest, at, SyscallWord);
  }

  /** A change of directory touches no memory. */
  lemma RemoteChdir(o: Oracle, k: World, m: Memory, r: Regs, addr: u64, path: seq<byte>)
    requires Mapped(m, Rip(r), 8) && 0 !in path && HoldsAt(m, addr, path + [0])
    requires forall x :: Within(x, Rip(r), 8) ==> !Within(x, addr, |path| + 1)
    ensures RipSurvives(o, k, m, r, SYS_CHDIR, [addr])
    ensures var reply := RemoteCall(o, k, m, r, SYS_CHDIR, [addr]);
      && reply.mem == m
      && reply.world == k.(chdirs := k.chdirs + 1,
                           cwd := if |path| < PATH_MAX && o.chdir(k.chdirs).Entered? then path else k.cwd)
  {
    hide WithArgs, Get, WriteBytes, ReadBytes, HoldsAt, ReadCStr, Mapped;
    ArgsOf(r, SYS_CHDIR, [addr]);
    PathUnderPoke(m, Rip(r), addr, path);
    PokeAndRestore(m, Rip(r), SyscallWord);
    PlaceUnderPoke(o, k, m, Rip(r), 0);
  }

  lemma PathUnderPoke(m: Memory, at: int, addr: u64, path: seq<byte>)
    requires Mapped(m, at, 8) && 0 !in path && HoldsAt(m, addr, path + [0])
    requires forall x :: Within(x, at, 8) ==> !Within(x, addr, |path| + 1)
    ensures ReadCStr(WriteBytes(m, at, SyscallWord), addr, PATH_MAX)
         == if |path| < PATH_MAX then Text(path) else TooLong
  {
    hide ReadCStr;
    var m1 := WriteBytes(m, at, SyscallWord);
    assert HoldsAt(m1, addr, path + [0]);
    UpToNulOfClean(path);
    ReadStoredText(m1, addr, path, PATH_MAX);
  }

  /** Only user addresses are ever mapped. */
  ghost predicate UserSpace(m: Memory) {
    forall a :: a in m ==> 0 <= a < USER_TOP
  }

  lemma WriteInside(m: Memory, m': Memory, addr: int, len: nat, bs: seq<byte>)
    requires Extends(m, m', addr, len) && |bs| <= len
    ensures Extends(m, WriteBytes(m', addr, bs), addr, len) && HoldsAt(WriteBytes(m', addr, bs), addr, bs)
    ensures Includes(m, WriteBytes(m', addr, bs))
    ensures Mapped(m', addr, |bs|)
  {
    var m2 := WriteBytes(m', addr, bs);
    forall a | addr <= a < addr + |bs| ensures a in m' {
      assert a in Span(addr, len);
    }
    assert m2.Keys == m'.Keys by {
      assert Span(addr, |bs|) <= Span(addr, len);
    }
    forall a | a in m ensures a in m2 && m2[a] == m[a] {
      assert !Within(a, addr, len);
      assert a in m'.Keys;
    }
  }

  lemma UnmapExtension(m: Memory, m': Memory, addr: int, len: nat)
    requires Extends(m, m', addr, len)
    ensures Without(m', addr, len) == m
  {
    var w := Without(m', addr, len);
    assert forall a :: a in w <==> a in m' && !Within(a, addr, len);
    assert forall a :: a in m' <==> a in m'.Keys;
    assert w.Keys == m.Keys;
  }

  /** A word that was mapped before lies outside a fresh mapping. */
  lemma OldWordOutside(m: Memory, m': Memory, addr: int, len: nat, at: int)
    requires Extends(m, m', addr, len) && Mapped(m, at, 8)
    ensures Mapped(m', at, 8)
    ensures forall x :: Within(x, at, 8) ==> !Within(x, addr, len)
    ensures forall x :: Within(x, at, 8) ==> x in m' && m'[x] == m[x]
  {
    forall x | Within(x, at, 8)
      ensures !Within(x, addr, len) && x in m' && m'[x] == m[x]
    {
      assert x in m;
    }
  }

  /** Writing back a word that a write elsewhere did not touch changes nothing. */
  lemma PokedBack(m: Memory, addr: int, bs: seq<byte>, at: int)
    requires Mapped(m, at, 8) && Mapped(m, addr, |bs|)
    requires forall x :: Within(x, at, 8) ==> !Within(x, addr, |bs|)
    ensures WriteBytes(WriteBytes(m, addr, bs), at, ReadBytes(m, at, 8)) == WriteBytes(m, addr, bs)
  {
    var m1 := WriteBytes(m, addr, bs);
    forall x | Within(x, at, 8) ensures x in m1 && m1[x] == m[x] {
      assert x in m;
    }
    assert ReadBytes(m, at, 8) == ReadBytes(m1, at, 8);
    PokeAndRestore(m1, at, SyscallWord);
  }

  lemma ExtensionIsUserSpace(m: Memory, m': Memory, addr: int, len: nat)
    requires UserSpace(m) && Extends(m, m', addr, len)
    ensures UserSpace(m') && addr + len <= USER_TOP
  {
    forall a | a in m' ensures 0 <= a < USER_TOP {
      assert a in m'.Keys;
    }
  }

  // ----- what the mmap loop needs and leaves -----

  lemma MoreMmaps(k: World)
    requires WellFormed(k)
    ensures WellFormed(k.(mmaps := k.mmaps + 1))
  {
  }

  lemma FreshAddresses(m: Memory, m': Memory, addr: int, len: nat)
    requires Extends(m, m', addr, len)
    ensures forall x :: Within(x, addr, len) ==> x !in m
  {
  }

  /** Regions of the process, as its own listing gives them, that do not hold the word below the stack pointer. */
  ghost predicate Listed(m: Memory, cases: seq<MmapLoop.RawCase>, sp: int) {
    forall i :: 0 <= i < |cases| ==>
      && cases[i].length > 0 && Mapped(m, cases[i].addr, PageUp(cases[i].length))
      && MmapReplacer.Apart(sp, 8, cases[i].addr, PageUp(cases[i].length)) && !HasBit(cases[i].flags, MAP_FIXED)
  }

  /** The same, of the regions before they are collected. */
  ghost predicate Present(m: Memory, regions: seq<MmapReplacer.Region>, sp: int) {
    forall i :: 0 <= i < |regions| && regions[i].path.utf8 ==>
      && regions[i].length > 0 && Mapped(m, regions[i].addr, PageUp(regions[i].length))
      && MmapReplacer.Apart(sp, 8, regions[i].addr, PageUp(regions[i].length))
  }

  /** What is collected from present regions is listed, and its flags ask for no fixed place. */
  lemma CollectedIsListed(
    m: Memory, regions: seq<MmapReplacer.Region>, cases: seq<MmapLoop.RawCase>, blob: seq<byte>, idx: seq<int>, sp: int)
    requires MmapReplacer.WithPerms(regions) && Present(m, regions, sp)
    requires MmapReplacer.Tidy(cases, blob)
    requires MmapReplacer.MappingsOf(MmapReplacer.Mappings(cases, blob), regions, idx)
    ensures Listed(m, cases, sp)
  {
    hide PageUp, Mapped;
    forall k | 0 <= k < |cases|
      ensures cases[k].length > 0 && Mapped(m, cases[k].addr, PageUp(cases[k].length))
      ensures MmapReplacer.Apart(sp, 8, cases[k].addr, PageUp(cases[k].length)) && !HasBit(cases[k].flags, MAP_FIXED)
    {
      assert MmapReplacer.Mappings(cases, blob)[k] == MmapReplacer.Stored(cases[k], blob);
      assert idx[k] in idx;
      assert MmapReplacer.IsUtf8(regions[idx[k]]);
    }
  }

  /** The word under rip is mapped, outside the regions of the cases and not below the stack pointer. */
  ghost predicate WordApart(m: Memory, cases: seq<MmapLoop.RawCase>, rip: int, sp: int) {
    && Mapped(m, rip, 8)
    && forall x :: Within(x, rip, 8) ==>
        && !Within(x, sp, 8)
        && forall i :: 0 <= i < |cases| ==> !Within(x, cases[i].addr, PageUp(cases[i].length))
  }

  lemma WordIsMapped(m: Memory, cases: seq<MmapLoop.RawCase>, rip: int, sp: int)
    ensures WordApart(m, cases, rip, sp) ==> Mapped(m, rip, 8)
  {
  }

  lemma WordStaysApart(m: Memory, m': Memory, cases: seq<MmapLoop.RawCase>, rip: int, sp: int)
    requires Includes(m, m')
    ensures WordApart(m, cases, rip, sp) ==> WordApart(m', cases, rip, sp)
  {
    if Mapped(m, rip, 8) {
      forall x | rip <= x < rip + 8 ensures x in m' { assert x in m; }
    }
  }

  /** Such a word is still mapped after the loop. */
  lemma WordFramed(m: Memory, ins: seq<byte>, m': Memory, img: MmapReplacer.Image, sp: u64, rip: int)
    requires WordApart(m, img.cases, rip, sp) && MmapReplacer.Framed(WriteBytes(m, img.base, ins), m', img, sp)
    ensures Mapped(m', rip, 8)
  {
    hide PageUp;
    var m1 := WriteBytes(m, img.base, ins);
    forall x | rip <= x < rip + 8 ensures x in m' {
      assert x in m && Within(x, rip, 8);
      assert x in m1.Keys;
    }
  }

  /** A fresh mapping lies apart from everything that was mapped before. */
  lemma FreshIsApart(m: Memory, m': Memory, addr: int, len: nat, size: nat, x: int, n: nat)
    requires Extends(m, m', addr, len) && Mapped(m, x, n) && n > 0 && 0 < size <= len
    ensures MmapReplacer.Apart(addr, size, x, n) && MmapReplacer.Apart(x, n, addr, size)
  {
    var both := if addr < x then x else addr;
    assert Within(both, addr, len) && Within(both, x, n) ==> both in m && both !in m;
  }

  /** So the loop, placed in the scratch mapping, finds the setting it relies on. */
  lemma ScratchIsSetting(m: Memory, m': Memory, img: MmapReplacer.Image, len: nat, sp: u64)
    requires Extends(m, m', img.base, len) && 48 * |img.cases| + 8 + |img.blob| + 2 <= len
    requires MmapReplacer.Tidy(img.cases, img.blob) && Listed(m, img.cases, sp) && Mapped(m, sp, 8) && sp + 8 < U64_SIZE
    ensures MmapReplacer.Setting(img, sp)
  {
    hide PageUp, Extends, Mapped, Layout.Starts;
    assert img.base + len <= USER_TOP by { ExtensionInUserSpace(m, m', img.base, len); }
    var size := 48 * |img.cases| + 8 + |img.blob| + 2;
    FreshIsApart(m, m', img.base, len, size, sp, 8);
    forall i | 0 <= i < |img.cases| ensures MmapReplacer.Harmless(img.cases[i], img.base, size, sp) {
      assert PageUp(img.cases[i].length) > 0;
      FreshIsApart(m, m', img.base, len, size, img.cases[i].addr, PageUp(img.cases[i].length));
    }
  }

  lemma ScratchIsReady(m: Memory, m': Memory, img: MmapReplacer.Image, len: nat, sp: u64, ins: seq<byte>)
    requires UserSpace(m) && Extends(m, m', img.base, len) && 48 * |img.cases| + 8 + |img.blob| + 2 <= |ins| <= len
    requires MmapReplacer.Tidy(img.cases, img.blob) && Listed(m, img.cases, sp) && Mapped(m, sp, 8) && sp + 8 < U64_SIZE
    ensures MmapReplacer.Setting(img, sp) && UserSpace(m') && Mapped(m', img.base, |ins|)
  {
    ExtensionIsUserSpace(m, m', img.base, len);
    ScratchIsSetting(m, m', img, len, sp);
    WriteInside(m, m', img.base, len, ins);
  }

  lemma ExtensionInUserSpace(m: Memory, m': Memory, addr: int, len: nat)
    requires Extends(m, m', addr, len)
    ensures addr + len <= USER_TOP
  {
  }

  /** Nothing outside the scratch mapping, the regions of the cases and the word below the stack pointer has changed. */
  ghost predicate Spared(m: Memory, m': Memory, img: MmapReplacer.Image, sp: u64, addr: int, len: nat) {
    forall x :: x in m && !Within(x, sp, 8) && !Within(x, addr, len)
      && (forall i :: 0 <= i < |img.cases| ==> !Within(x, img.cases[i].addr, PageUp(img.cases[i].length)))
      ==> x in m' && m'[x] == m[x]
  }

  /** Writing the code, running it and writing the word under rip back. */
  lemma SparedByLoop(m: Memory, ins: seq<byte>, m': Memory, img: MmapReplacer.Image, sp: u64, at: int)
    requires Mapped(m, img.base, |ins|) && Mapped(m, at, 8)
    requires MmapReplacer.Framed(WriteBytes(m, img.base, ins), m', img, sp)
    ensures Spared(m, WriteBytes(m', at, ReadBytes(m, at, 8)), img, sp, img.base, |ins|)
  {
    hide PageUp;
    var m1, m2 := WriteBytes(m, img.base, ins), WriteBytes(m', at, ReadBytes(m, at, 8));
    forall x | x in m && !Within(x, sp, 8) && !Within(x, img.base, |ins|)
      && (forall i :: 0 <= i < |img.cases| ==> !Within(x, img.cases[i].addr, PageUp(img.cases[i].length)))
      ensures x in m2 && m2[x] == m[x]
    {
      assert x in m1 && m1[x] == m[x];
      assert x in m'.Keys && m'[x] == m[x];
      if Within(x, at, 8) { assert ReadBytes(m, at, 8)[x - at] == m[x]; }
    }
  }

  /** Once the scratch mapping is gone, the rest is what `Framed` says of the memory from before it was made. */
  lemma FramedAfterUnmap(m: Memory, m1: Memory, m2: Memory, img: MmapReplacer.Image, sp: u64, n: nat, len: nat)
    requires Extends(m, m1, img.base, len) && Spared(m1, m2, img, sp, img.base, n) && n <= len
    ensures MmapReplacer.Framed(m, Without(m2, img.base, len), img, sp)
  {
    hide PageUp;
    var m3 := Without(m2, img.base, len);
    forall x | x in m && !Within(x, sp, 8)
      && (forall i :: 0 <= i < |img.cases| ==> !Within(x, img.cases[i].addr, PageUp(img.cases[i].length)))
      ensures x in m3 && m3[x] == m[x]
    {
      assert !Within(x, img.base, len) && !Within(x, img.base, n);
      assert x in m1 && m1[x] == m[x];
    }
  }

  /**
    A process that is let run with the encoded program in memory: it starts at the instruction under rip, and
    faults if that is none of the program's or the program is not there.
   */
  function Entry(p: Program, code: seq<byte>, regs: Regs, mem: Memory, world: World): State {
    State(regs, false, PositionAt(p, Rip(regs)), mem, world, [], if HoldsAt(mem, p.entry, code) then Running else Faulted)
  }

  lemma NotYetRun(p: Program, kernel: KernelFn, s: State)
    ensures Run(p, kernel, s, 0) == s
  {
  }

  /** A run that traps after `bound` instructions traps there however often it was stopped on the way. */
  lemma TrapIsReached(p: Program, kernel: KernelFn, s: State, done: nat, bound: nat)
    requires Run(p, kernel, s, bound).status == Trapped
    ensures Run(p, kernel, Run(p, kernel, s, done), bound) == Run(p, kernel, s, bound)
  {
    hide Run;
    RunAdds(p, kernel, s, done, bound);
    RunAdds(p, kernel, s, bound, done);
    RunAfterTrap(p, kernel, Run(p, kernel, s, bound), done);
  }

  /** The fd loop, let run at the address behind its static data. */
  lemma FdLoopRuns(o: Oracle, img: FdReplacer.Image, code: seq<byte>, regs: Regs, mem: Memory, world: World)
    requires FdReplacer.Fits(img) && WellFormed(world) && Rip(regs) == img.base + |FdReplacer.Data(img)|
    requires HoldsAt(mem, img.base, FdReplacer.Data(img)) && HoldsAt(mem, img.base + |FdReplacer.Data(img)|, code)
    ensures var p := FdReplacer.Loop(img);
      var t := Run(p, Linux(o), Entry(p, code, regs, mem, world), LoopSteps(|img.cases|));
      t.status == Trapped && t.mem == mem && t.world == FdReplacer.ReopenAll(o, world, FdReplacer.Jobs(img.cases, img.blob))
  {
    hide Run, FdReplacer.ReopenAll, HoldsAt, FdReplacer.Data, WellFormed;
    FdReplacer.FdLoopReopensAll(o, img, Entry(FdReplacer.Loop(img), code, regs, mem, world));
  }

  /** The mmap loop likewise. */
  lemma MmapLoopRuns(o: Oracle, img: MmapReplacer.Image, sp: u64, code: seq<byte>, regs: Regs, mem: Memory, world: World)
    requires MmapReplacer.Setting(img, sp) && WellFormed(world) && Rip(regs) == img.base + |MmapReplacer.Data(img)|
    requires HoldsAt(mem, img.base, MmapReplacer.Data(img)) && HoldsAt(mem, img.base + |MmapReplacer.Data(img)|, code)
    requires Get(regs, RSP) == sp + 8 && Mapped(mem, sp, 8)
    ensures var p := MmapReplacer.Loop(img);
      var t := Run(p, Linux(o), Entry(p, code, regs, mem, world), LoopSteps(|img.cases|));
      && t.status == Trapped && MmapReplacer.Framed(mem, t.mem, img, sp)
      && MmapReplacer.SameTable(world, t.world, |img.cases|) && MmapReplacer.Logged(img, [], t.log, 0)
  {
    hide Run, HoldsAt, MmapReplacer.Data, WellFormed, MmapReplacer.Framed, MmapReplacer.SameTable, MmapReplacer.Logged, Mapped;
    MmapReplacer.MmapLoopTrace(o, img, sp, Entry(MmapReplacer.Loop(img), code, regs, mem, world));
  }

  /** The bytes of a syscall instruction are under rip. */
  predicate AtSyscall(mem: Memory, rip: u64) {
    rip in mem && mem[rip] == 0x0f && rip + 1 in mem && mem[rip + 1] == 0x05
  }

  class Process {
    const kernel: Oracle
    const fails: nat -> bool   // whether ptrace or wait request number n fails
    const ran: nat -> bool     // whether the process ran on although request number n failed
    const pace: nat -> nat     // how far the process runs after request number n
    const stops: nat -> nat    // how many other stops come before the trap awaited after request number n
    var requests: nat
    var regs: Regs
    var mem: Memory
    var world: World
    var calls: seq<Call>       // the system calls that injected code has made

    constructor (kernel: Oracle, fails: nat -> bool, ran: nat -> bool, pace: nat -> nat, stops: nat -> nat,
                 regs: Regs, mem: Memory, world: World)
      ensures this.kernel == kernel && this.fails == fails && requests == 0
      ensures this.regs == regs && this.mem == mem && this.world == world && calls == []
    {
      this.kernel, this.fails, this.ran, this.pace, this.stops := kernel, fails, ran, pace, stops;
      this.requests, this.regs, this.mem, this.world, this.calls := 0, regs, mem, world, [];
    }

    /** No request from number `n` on fails. */
    ghost predicate Reliable(n: nat) {
      forall i :: n <= i ==> !fails(i)
    }

    /** Any request may fail; a failing request has no effect of its own. */
    method Request() returns (ok: bool)
      modifies `requests
      ensures ok == !fails(old(requests)) && requests == old(requests) + 1
    {
      ok := !fails(requests);
      requests := requests + 1;
    }

    method Protect() returns (g: Exit<Guard>)
      modifies `requests
      ensures !g.Panic?
      ensures g.Ok? ==> Mapped(mem, Rip(regs), 8) && g.value == Guard(regs, ReadBytes(mem, Rip(regs), 8))
      ensures requests >= old(requests)
      ensures Reliable(old(requests)) && Mapped(mem, Rip(regs), 8) ==> g.Ok?
    {
      var ok := Request();
      if !ok {
        return Err;
      }
      ok := Request();
      if !ok || !Mapped(mem, Rip(regs), 8) {
        return Err;
      }
      return Ok(Guard(regs, ReadBytes(mem, Rip(regs), 8)));
    }

    /** ThreadGuard::drop */
    method Restore(g: Guard) returns (ok: bool)
      requires |g.word| == 8
      modifies `requests, `regs, `mem
      ensures ok ==> regs == g.regs && mem == WriteBytes(old(mem), Rip(g.regs), g.word)
      ensures ok ==> Mapped(old(mem), Rip(g.regs), 8)
      ensures requests >= old(requests)
      ensures Reliable(old(requests)) && Mapped(old(mem), Rip(g.regs), 8) ==> ok
    {
      ok := Request();
      if !ok || !Mapped(mem, Rip(g.regs), 8) {
        return false;
      }
      mem := WriteBytes(mem, Rip(g.regs), g.word);
      ok := Request();
      if ok {
        regs := g.regs;
      }
    }

    /** What `SyscallBody` leaves before the guard writes back. */
    ghost predicate CallMade(k: World, m: Memory, r: Regs, nr: u64, args: seq<u64>)
      reads this
      requires |args| <= 6
    {
      var reply := SystemCall(kernel, k, WriteBytes(m, Rip(r), SyscallWord), nr, SyscallArgs(WithArgs(r[RAX := nr], args)));
      world == reply.world && mem == reply.mem
    }

    /** The body that `syscall` protects: load the registers, poke the instruction, step until the trap. */
    method SyscallBody(nr: u64, args: seq<u64>) returns (e: Exit<u64>)
      requires Mapped(mem, Rip(regs), 8)
      modifies `requests, `regs, `mem, `world
      ensures !e.Panic?
      ensures e.Ok? ==>
        && |args| <= 6 && CallMade(old(world), old(mem), old(regs), nr, args)
        && e.value == RemoteCall(kernel, old(world), old(mem), old(regs), nr, args).ret
      ensures e.Err? ==>
        || (world == old(world) && mem == old(mem))
        || (world == old(world) && mem == WriteBytes(old(mem), Rip(old(regs)), SyscallWord))
        || (|args| <= 6 && CallMade(old(world), old(mem), old(regs), nr, args))
      ensures requests >= old(requests)
      ensures Reliable(old(requests)) && |args| <= 6 ==> e.Ok?
    {
      var ok := Request();
      if !ok {
        return Err;
      }
      hide WithArgs, SystemCall;
      var rip := Rip(regs);
      var loaded := LoadArgs(regs[RAX := nr], args);
      if !loaded.Ok? {
        return Err;
      }
      ok := Request();
      if !ok {
        return Err;
      }
      regs := loaded.value;
      ok := Request();
      if !ok {
        return Err;
      }
      mem := WriteBytes(mem, rip, SyscallWord);
      LoadedForCall(old(regs), nr, args);
      SyscallPoked(old(mem), rip);
      e := StepToTrap();
    }

    /** Steps over the syscall instruction under rip; stops that are not the trap are stepped on. */
    method StepToTrap() returns (e: Exit<u64>)
      requires AtSyscall(mem, Rip(regs))
      modifies `requests, `regs, `mem, `world
      ensures !e.Panic?
      ensures var reply := SystemCall(kernel, old(world), old(mem), Get(old(regs), RAX), SyscallArgs(old(regs)));
        && (e.Ok? ==> world == reply.world && mem == reply.mem && e.value == reply.ret)
        && (e.Err? ==> (world == old(world) && mem == old(mem)) || (world == reply.world && mem == reply.mem))
      ensures requests >= old(requests)
      ensures Reliable(old(requests)) ==> e.Ok?
    {
      var ok := Request();
      if !ok {
        return Err;
      }
      var others := stops(requests);
      while others > 0
        invariant world == old(world) && mem == old(mem) && regs == old(regs) && requests >= old(requests)
      {
        ok := Request();
        if !ok {
          return Err;
        }
        ok := Request();
        if !ok {
          return Err;
        }
        others := others - 1;
      }
      var reply := SystemCall(kernel, world, mem, Get(regs, RAX), SyscallArgs(regs));
      ok := Request();
      if !ok && !ran(requests) {
        return Err;
      }
      world, mem, regs := reply.world, reply.mem, regs[RAX := reply.ret];
      if !ok {
        return Err;
      }
      ok := Request();
      if !ok {
        return Err;
      }
      return Ok(Get(regs, RAX));
    }

    /** Every exit but a panic has all registers back; the call was made completely or not at all. */
    method Syscall(nr: u64, args: seq<u64>) returns (e: Exit<u64>)
      modifies `requests, `regs, `mem, `world
      ensures !e.Panic? ==> regs == old(regs)
      ensures e.Ok? ==>
        && |args| <= 6 && Mapped(old(mem), Rip(regs), 8)
        && RemoteCall(kernel, old(world), old(mem), regs, nr, args) == Reply(world, mem, e.value)
      ensures e.Err? ==>
        || (world == old(world) && mem == old(mem))
        || (|args| <= 6 && Mapped(old(mem), Rip(regs), 8)
            && RemoteCall(kernel, old(world), old(mem), regs, nr, args).(ret := 0) == Reply(world, mem, 0))
      ensures requests >= old(requests)
      ensures
        (Reliable(old(requests)) && Mapped(old(mem), Rip(old(regs)), 8) && |args| <= 6
         && RipSurvives(kernel, old(world), old(mem), old(regs), nr, args)) ==>
        e.Ok?
    {
      var g := Protect();
      if g.Err? {
        return Err;
      }
      e := SyscallBody(nr, args);
      PokeAndRestore(old(mem), Rip(old(regs)), SyscallWord);
      var ok := Restore(g.value);
      if !ok {
        return Panic;
      }
    }

    method WriteMem(addr: u64, content: seq<byte>) returns (ok: bool)
      modifies `requests, `mem
      ensures ok ==> Mapped(old(mem), addr, |content|) && mem == WriteBytes(old(mem), addr, content)
      ensures !ok ==> mem == old(mem)
      ensures requests >= old(requests)
      ensures Reliable(old(requests)) && Mapped(old(mem), addr, |content|) ==> ok
    {
      ok := Request();
      if !ok || !Mapped(mem, addr, |content|) {
        return false;
      }
      mem := WriteBytes(mem, addr, content);
    }

    /**
      The front of `with_mmap`: the scratch mapping is fresh. A failed mmap is not noticed here, but then
      the result is no address at which anything is mapped.
     */
    method MapScratch(len: u64) returns (e: Exit<u64>)
      modifies `requests, `regs, `mem, `world
      ensures !e.Panic? ==> regs == old(regs) && Includes(old(mem), mem)
      ensures e.Ok? ==>
        && Mapped(old(mem), Rip(regs), 8) && world == old(world).(mmaps := old(world).mmaps + 1)
        && (e.value < USER_TOP ==> len > 0 && Extends(old(mem), mem, e.value, PageUp(len)))
        && (e.value >= USER_TOP ==> mem == old(mem))
        && (HasPlace(kernel, old(world), old(mem), len) ==> e.value < USER_TOP)
      ensures requests >= old(requests)
      ensures Reliable(old(requests)) && Mapped(old(mem), Rip(old(regs)), 8) ==> e.Ok?
    {
      ghost var k0, m0 := world, mem;
      if Mapped(m0, Rip(regs), 8) {
        RemoteMmap(kernel, k0, m0, regs, len);
      }
      e := Syscall(SYS_MMAP, MmapArgs(len));
    }

    /** The end of `with_mmap`: what is left is the memory from before the mapping. */
    method UnmapScratch(addr: u64, len: u64, ghost before: Memory) returns (e: Exit<u64>)
      requires len > 0 && Mapped(before, Rip(regs), 8) && Extends(before, mem, addr, PageUp(len))
      modifies `requests, `regs, `mem, `world
      ensures !e.Panic? ==> regs == old(regs) && Includes(before, mem) && world == old(world)
      ensures e.Ok? ==> mem == before
      ensures requests >= old(requests)
      ensures Reliable(old(requests)) ==> e.Ok?
    {
      OldWordOutside(before, mem, addr, PageUp(len), Rip(regs));
      RemoteMunmap(kernel, world, mem, regs, addr, len);
      UnmapExtension(before, mem, addr, PageUp(len));
      e := Syscall(SYS_MUNMAP, [addr, len]);
    }

    /**
      `chdir`: the path goes to a scratch mapping that is gone again on success. All registers are
      back on every exit but a panic, and no memory of the process has changed.
     */
    method Chdir(path: seq<byte>) returns (e: Exit<u64>)
      requires |path| + 1 < U64_SIZE && UserSpace(mem)
      modifies `requests, `regs, `mem, `world
      ensures !e.Panic? ==> regs == old(regs) && Includes(old(mem), mem)
      ensures e.Ok? ==> mem == old(mem) && 0 !in path
      ensures e.Ok? ==> world == old(world).(mmaps := old(world).mmaps + 1, chdirs := old(world).chdirs + 1,
        cwd := if |path| < PATH_MAX && kernel.chdir(old(world).chdirs).Entered? then path else old(world).cwd)
      ensures requests >= old(requests)
      ensures
        (Reliable(old(requests)) && 0 !in path && Mapped(old(mem), Rip(old(regs)), 8)
         && HasPlace(kernel, old(world), old(mem), |path| + 1)) ==>
        e.Ok?
    {
      hide RemoteCall, Extends, HoldsAt, WriteBytes, Without, RipSurvives, HasPlace;
      if 0 in path {
        return Err;
      }
      var len: u64 := |path| + 1;
      ghost var m0 := mem;
      e := MapScratch(len);
      if !e.Ok? {
        return;
      }
      var addr := e.value;
      ghost var m1 := mem;
      if addr < USER_TOP { WriteInside(m0, m1, addr, PageUp(len), path + [0]); }
      var ok := WriteMem(addr, path + [0]);
      if !ok {
        return Err;
      }
      assert addr in m1;
      OldWordOutside(m0, mem, addr, PageUp(len), Rip(regs));
      RemoteChdir(kernel, world, mem, regs, addr, path);
      e := Syscall(SYS_CHDIR, [addr]);
      if !e.Ok? {
        return;
      }
      e := UnmapScratch(addr, len, m0);
    }

    /** Continues the process until it traps; stops for other reasons are continued. */
    method RunToTrap(p: Program, code: seq<byte>, bound: nat) returns (e: Exit<u64>)
      requires Run(p, Linux(kernel), Entry(p, code, regs, mem, world), bound).status == Trapped
      modifies this
      ensures !e.Panic?
      ensures e.Ok? ==>
        var t := Run(p, Linux(kernel), Entry(p, code, old(regs), old(mem), old(world)), bound);
        mem == t.mem && world == t.world && calls == old(calls) + t.log
      ensures requests >= old(requests)
      ensures Reliable(old(requests)) ==> e.Ok?
    {
      hide Entry, Run;
      ghost var s0 := Entry(p, code, regs, mem, world);
      var s := Entry(p, code, regs, mem, world);
      ghost var done: nat := 0;
      NotYetRun(p, Linux(kernel), s0);
      var others := stops(requests);
      while others > 0
        invariant s == Run(p, Linux(kernel), s0, done) && calls == old(calls) && requests >= old(requests)
      {
        var ok := Request();
        if !ok {
          return Err;
        }
        RunAdds(p, Linux(kernel), s0, done, pace(requests));
        done := done + pace(requests);
        s := Run(p, Linux(kernel), s, pace(requests));
        regs, mem, world := s.regs, s.mem, s.world;
        ok := Request();
        if !ok {
          return Err;
        }
        ok := Request();
        if !ok {
          return Err;
        }
        others := others - 1;
      }
      var ok := Request();
      if !ok {
        return Err;
      }
      TrapIsReached(p, Linux(kernel), s0, done, bound);
      s := Run(p, Linux(kernel), s, bound);
      regs, mem, world, calls := s.regs, s.mem, s.world, calls + s.log;
      ok := Request();
      if !ok {
        return Err;
      }
      ok := Request();
      return if ok then Ok(0) else Err;
    }

    /** The part of `run_codes` that the guard protects. */
    method FdLoopBody(cases: seq<FdReplacer.RawCase>, blob: seq<byte>, encode: u64 -> seq<byte>, addr: u64)
      returns (e: Exit<u64>)
      requires FdReplacer.Tidy(cases, blob) && 16 * |cases| < U64_SIZE && WellFormed(world) && UserSpace(mem)
      requires addr < USER_TOP ==> addr + 16 * |cases| + 8 + |blob| + 2 <= USER_TOP
      modifies this
      ensures !e.Panic?
      ensures e.Ok? ==>
        var ins := FdReplacer.CaseBytes(cases, blob) + encode(addr);
        && addr < USER_TOP && Mapped(old(mem), addr, |ins|) && mem == WriteBytes(old(mem), addr, ins)
        && world == FdReplacer.ReopenAll(kernel, old(world), FdReplacer.Jobs(cases, blob))
      ensures requests >= old(requests)
      ensures Reliable(old(requests)) && Mapped(old(mem), addr, 16 * |cases| + 8 + |blob| + 2 + |encode(addr)|) ==> e.Ok?
    {
      hide WriteBytes, HoldsAt, FdReplacer.ReopenAll, FdReplacer.Loop, Run, Entry, FdReplacer.CaseBytes, WellFormed;
      var ok := Request();
      if !ok {
        return Err;
      }
      var data := FdReplacer.CaseBytes(cases, blob);
      var ins := data + encode(addr);
      ok := WriteMem(addr, ins);
      if !ok {
        return Err;
      }
      assert addr in old(mem);
      var img := FdReplacer.Image(addr, cases, blob);
      HoldsAtSplit(mem, addr, data, encode(addr));
      ok := Request();
      if !ok {
        return Err;
      }
      ok := Request();
      if !ok {
        return Err;
      }
      regs := regs[RIP := Wrap(addr + |data|)];
      ok := Request();
      if !ok {
        return Err;
      }
      var p := FdReplacer.Loop(img);
      FdLoopRuns(kernel, img, encode(addr), regs, mem, world);
      e := RunToTrap(p, encode(addr), LoopSteps(|cases|));
    }

    /** The word under rip is what it was in `m`. */
    ghost predicate WordBack(m: Memory)
      reads this
    {
      forall x :: Within(x, Rip(regs), 8) && x in m ==> x in mem && mem[x] == m[x]
    }

    /** `with_protect` around that part. */
    method GuardedFdLoop(cases: seq<FdReplacer.RawCase>, blob: seq<byte>, encode: u64 -> seq<byte>, addr: u64)
      returns (e: Exit<u64>)
      requires FdReplacer.Tidy(cases, blob) && 16 * |cases| < U64_SIZE && WellFormed(world) && UserSpace(mem)
      requires addr < USER_TOP ==> addr + 16 * |cases| + 8 + |blob| + 2 <= USER_TOP
      requires forall x :: Within(x, Rip(regs), 8) ==> !Within(x, addr, 16 * |cases| + 8 + |blob| + 2 + |encode(addr)|)
      modifies this
      ensures !e.Panic? ==> regs == old(regs) && WordBack(old(mem))
      ensures e.Ok? ==>
        var ins := FdReplacer.CaseBytes(cases, blob) + encode(addr);
        && addr < USER_TOP && Mapped(old(mem), addr, |ins|) && mem == WriteBytes(old(mem), addr, ins)
        && world == FdReplacer.ReopenAll(kernel, old(world), FdReplacer.Jobs(cases, blob))
      ensures requests >= old(requests)
      ensures
        (Reliable(old(requests)) && Mapped(old(mem), Rip(old(regs)), 8)
         && Mapped(old(mem), addr, 16 * |cases| + 8 + |blob| + 2 + |encode(addr)|)) ==>
        e.Ok?
    {
      hide FdReplacer.ReopenAll, FdReplacer.CaseBytes, FdReplacer.Tidy, WellFormed;
      ghost var m1 := mem;
      var g := Protect();
      if g.Err? {
        return Err;
      }
      e := FdLoopBody(cases, blob, encode, addr);
      var ok := Restore(g.value);
      if !ok {
        return Panic;
      }
      if e.Ok? {
        PokedBack(m1, addr, FdReplacer.CaseBytes(cases, blob) + encode(addr), Rip(regs));
      }
    }

    /** The part of `run_codes` that the guard protects, for any code: it may do anything and need not trap. */
    method CodeBody(p: Program, ins: seq<byte>, offset: u64, addr: u64) returns (e: Exit<u64>)
      modifies this
      ensures !e.Panic?
      ensures requests >= old(requests)
      ensures Reliable(old(requests)) ==> (e.Ok? <==> Mapped(old(mem), addr, |ins|))
    {
      var ok := Request();
      if !ok {
        return Err;
      }
      ok := WriteMem(addr, ins);
      if !ok {
        return Err;
      }
      ok := Request();
      if !ok {
        return Err;
      }
      regs := regs[RIP := Wrap(addr + offset)];
      ok := Request();
      if !ok {
        return Err;
      }
      var s, left := Entry(p, ins, regs, mem, world), stops(requests) + 1;
      while left > 0
        invariant requests >= old(requests)
      {
        ok := Request();
        if !ok {
          return Err;
        }
        s := Run(p, Linux(kernel), s, pace(requests));
        regs, mem, world := s.regs, s.mem, s.world;
        ok := Request();
        if !ok {
          return Err;
        }
        left := left - 1;
      }
      return Ok(0);
    }

    /** Whatever code runs under the guard, every exit but a panic has all registers and the word under rip back. */
    method GuardedCode(p: Program, ins: seq<byte>, offset: u64, addr: u64) returns (e: Exit<u64>)
      modifies this
      ensures !e.Panic? ==> regs == old(regs) && WordBack(old(mem))
    {
      ghost var m0 := mem;
      var g := Protect();
      if g.Err? {
        return Err;
      }
      e := CodeBody(p, ins, offset, addr);
      var ok := Restore(g.value);
      if !ok {
        return Panic;
      }
    }

    /**
      `run_codes` for the fd loop. Every exit but a panic has all registers and the word under rip back.
      On success every case has been reopened, the scratch mapping is gone and memory is as it was.
      The encoder stands for the assembler, whose output has the same length wherever it is placed.
     */
    method RunFdLoop(cases: seq<FdReplacer.RawCase>, blob: seq<byte>, encode: u64 -> seq<byte>) returns (e: Exit<u64>)
      requires FdReplacer.Tidy(cases, blob) && WellFormed(world) && UserSpace(mem)
      requires forall a, b :: |encode(a)| == |encode(b)|
      requires 16 * |cases| + 8 + |blob| + 2 + |encode(0)| + 16 < U64_SIZE
      modifies this
      ensures !e.Panic? ==> regs == old(regs) && WordBack(old(mem))
      ensures e.Ok? ==> mem == old(mem)
      ensures e.Ok? ==>
        var k := old(world).(mmaps := old(world).mmaps + 1);
        world == FdReplacer.ReopenAll(kernel, k, FdReplacer.Jobs(cases, blob))
      ensures
        (Reliable(old(requests)) && Mapped(old(mem), Rip(old(regs)), 8)
         && HasPlace(kernel, old(world), old(mem), 16 * |cases| + 8 + |blob| + 2 + |encode(0)| + 16)) ==>
        e.Ok?
    {
      hide HasPlace, RipSurvives, RemoteCall, Extends, WriteBytes, Without, FdReplacer.ReopenAll, FdReplacer.CaseBytes, FdReplacer.Tidy, WellFormed;
      MoreMmaps(world);
      var ok := Request();
      if !ok {
        return Err;
      }
      var len: u64 := |FdReplacer.CaseBytes(cases, blob)| + |encode(Rip(regs))| + 16;
      ghost var m0 := mem;
      e := MapScratch(len);
      if !e.Ok? {
        return;
      }
      var addr := e.value;
      ghost var m1 := mem;
      if addr < USER_TOP {
        ExtensionIsUserSpace(m0, m1, addr, PageUp(len));
        OldWordOutside(m0, m1, addr, PageUp(len), Rip(regs));
        WriteInside(m0, m1, addr, PageUp(len), FdReplacer.CaseBytes(cases, blob) + encode(addr));
      } else {
        assert forall x :: Within(x, Rip(regs), 8) ==> x in m0;
      }
      e := GuardedFdLoop(cases, blob, encode, addr);
      if !e.Ok? {
        return;
      }
      e := UnmapScratch(addr, len, m0);
    }

    /**
      `ProcessAccessor::run`, from the descriptors and paths that were collected: on success memory is as it
      was, each descriptor whose open succeeded has its new path with its old flags and offset, and every
      other descriptor is untouched. Paths that are not UTF-8 were dropped on the way.
     */
    method ReplaceFds(items: seq<(u64, Layout.OsPath)>, encode: u64 -> seq<byte>) returns (e: Exit<u64>, ghost idx: seq<int>)
      requires WellFormed(world) && UserSpace(mem) && FdReplacer.ItemsOpen(world, items)
      requires forall a, b :: |encode(a)| == |encode(b)|
      requires 16 * |items| + 8 + FdReplacer.PathBytes(items) + 2 + |encode(0)| + 16 < U64_SIZE
      modifies this
      ensures !e.Panic? ==> regs == old(regs) && WordBack(old(mem))
      ensures e.Ok? ==> mem == old(mem)
      ensures e.Ok? ==>
        var k := old(world).(mmaps := old(world).mmaps + 1);
        WellFormed(k) && FdReplacer.ItemsOpen(k, items) && FdReplacer.ItemsAccounted(kernel, k, world, items, idx)
      ensures
        (Reliable(old(requests)) && Mapped(old(mem), Rip(old(regs)), 8)
         && HasPlace(kernel, old(world), old(mem), 16 * |idx| + 8 + FdReplacer.PathBytes(items) + 2 + |encode(0)| + 16)) ==>
        e.Ok?
    {
      hide FdReplacer.Accounted, FdReplacer.ItemsAccounted, FdReplacer.ReopenAll, FdReplacer.PathBytes, FdReplacer.JobsOf,
           FdReplacer.DistinctOpen, WellFormed, HasPlace;
      ghost var k := world.(mmaps := world.mmaps + 1);
      MoreMmaps(world);
      var builder;
      builder, idx := FdReplacer.FromIter(items);
      ghost var jobs := builder.Contents();
      FdReplacer.JobsOpen(k, items, jobs, idx);
      FdReplacer.TableAfterReopenAll(kernel, k, jobs);
      FdReplacer.AccountedItems(kernel, k, FdReplacer.ReopenAll(kernel, k, jobs), items, jobs, idx);
      e := RunFdLoop(builder.cases, builder.newPaths, encode);
    }

    /** The calls made since `n` were made are those of the whole mmap loop. */
    ghost predicate MadeFor(img: MmapReplacer.Image, n: nat)
      reads this
    {
      n <= |calls| && MmapReplacer.Fits(img) && MmapReplacer.Logged(img, [], calls[n..], 0)
    }

    /** The part of `run_codes` that the guard protects, for the mmap loop. */
    method MmapLoopBody(img: MmapReplacer.Image, code: seq<byte>, sp: u64) returns (e: Exit<u64>)
      requires img.base < USER_TOP ==> MmapReplacer.Setting(img, sp)
      requires 48 * |img.cases| < U64_SIZE && WellFormed(world) && UserSpace(mem)
      requires Get(regs, RSP) == sp + 8 && Mapped(mem, sp, 8)
      modifies this
      ensures !e.Panic?
      ensures e.Ok? ==>
        var ins := MmapReplacer.CaseBytes(img.cases, img.blob) + code;
        && img.base < USER_TOP && Mapped(old(mem), img.base, |ins|)
        && MmapReplacer.Framed(WriteBytes(old(mem), img.base, ins), mem, img, sp)
        && MmapReplacer.SameTable(old(world), world, |img.cases|) && MadeFor(img, |old(calls)|)
      ensures requests >= old(requests)
      ensures Reliable(old(requests)) && Mapped(old(mem), img.base, 48 * |img.cases| + 8 + |img.blob| + 2 + |code|) ==> e.Ok?
    {
      hide WriteBytes, HoldsAt, Run, Entry, MmapReplacer.Loop, MmapReplacer.CaseBytes, MmapReplacer.Framed, MmapReplacer.SameTable,
           MmapReplacer.Logged, WellFormed;
      var ok := Request();
      if !ok {
        return Err;
      }
      var data := MmapReplacer.CaseBytes(img.cases, img.blob);
      var ins := data + code;
      ok := WriteMem(img.base, ins);
      if !ok {
        return Err;
      }
      assert img.base in old(mem);
      HoldsAtSplit(mem, img.base, data, code);
      ok := Request();
      if !ok {
        return Err;
      }
      ok := Request();
      if !ok {
        return Err;
      }
      regs := regs[RIP := Wrap(img.base + |data|)];
      ok := Request();
      if !ok {
        return Err;
      }
      var p := MmapReplacer.Loop(img);
      MmapLoopRuns(kernel, img, sp, code, regs, mem, world);
      e := RunToTrap(p, code, LoopSteps(|img.cases|));
    }

    /** `with_protect` around that part. */
    method GuardedMmapLoop(img: MmapReplacer.Image, code: seq<byte>, sp: u64) returns (e: Exit<u64>)
      requires img.base < USER_TOP ==> MmapReplacer.Setting(img, sp)
      requires 48 * |img.cases| < U64_SIZE && WellFormed(world) && UserSpace(mem)
      requires Get(regs, RSP) == sp + 8 && Mapped(mem, sp, 8)
      modifies this
      ensures !e.Panic? ==> regs == old(regs) && WordBack(old(mem))
      ensures e.Ok? ==>
        var size := 48 * |img.cases| + 8 + |img.blob| + 2 + |code|;
        && img.base < USER_TOP && Mapped(mem, Rip(regs), 8)
        && Spared(old(mem), mem, img, sp, img.base, size)
        && MmapReplacer.SameTable(old(world), world, |img.cases|) && MadeFor(img, |old(calls)|)
      ensures requests >= old(requests)
      ensures
        (Reliable(old(requests)) && WordApart(old(mem), img.cases, Rip(old(regs)), sp)
         && Mapped(old(mem), img.base, 48 * |img.cases| + 8 + |img.blob| + 2 + |code|)) ==>
        e.Ok?
    {
      WordIsMapped(mem, img.cases, Rip(regs), sp);
      hide WordApart, WriteBytes, Get, MmapReplacer.CaseBytes, MmapReplacer.Setting, MmapReplacer.Framed, MmapReplacer.SameTable,
           MmapReplacer.Logged, MmapReplacer.Fits, WellFormed, Spared;
      ghost var m1 := mem;
      var g := Protect();
      if g.Err? {
        return Err;
      }
      e := MmapLoopBody(img, code, sp);
      ghost var m2 := mem;
      if e.Ok? && WordApart(m1, img.cases, Rip(old(regs)), sp) {
        WordFramed(m1, MmapReplacer.CaseBytes(img.cases, img.blob) + code, m2, img, sp, Rip(old(regs)));
      }
      var ok := Restore(g.value);
      if !ok {
        return Panic;
      }
      if e.Ok? {
        SparedByLoop(m1, MmapReplacer.CaseBytes(img.cases, img.blob) + code, m2, img, sp, Rip(regs));
      }
    }

    /** The end of `with_mmap` after the mmap loop: the scratch mapping goes, and nothing else. */
    method UnmapAfterLoop(img: MmapReplacer.Image, sp: u64, len: u64, ghost before: Memory, ghost mapped: Memory, ghost n: nat)
      returns (e: Exit<u64>)
      requires len > 0 && Extends(before, mapped, img.base, PageUp(len)) && n <= len
      requires Mapped(before, Rip(regs), 8) && Mapped(mem, Rip(regs), 8) && WordBack(before)
      requires Spared(mapped, mem, img, sp, img.base, n)
      modifies `requests, `regs, `mem, `world
      ensures !e.Panic? ==> regs == old(regs) && WordBack(before) && world == old(world)
      ensures e.Ok? ==> MmapReplacer.Framed(before, mem, img, sp)
      ensures e.Ok? ==> forall x :: Within(x, img.base, PageUp(len)) ==> x !in mem
      ensures Reliable(old(requests)) ==> e.Ok?
    {
      hide RemoteCall, RipSurvives, Spared, MmapReplacer.Framed, Get, PageUp;
      ghost var m2 := mem;
      OldWordOutside(before, mapped, img.base, PageUp(len), Rip(regs));
      RemoteMunmap(kernel, world, mem, regs, img.base, len);
      FramedAfterUnmap(before, mapped, m2, img, sp, n, PageUp(len));
      e := Syscall(SYS_MUNMAP, [img.base, len]);
    }

    /**
      `run_codes` for the mmap loop, on regions the process has mapped. Every exit but a panic has all
      registers and the word under rip back. On success the loop has made its four calls per case, the scratch
      mapping at `at` is gone, and memory changed only in the regions and below the stack pointer.
     */
    method RunMmapLoop(cases: seq<MmapLoop.RawCase>, blob: seq<byte>, encode: u64 -> seq<byte>, sp: u64)
      returns (e: Exit<u64>, at: u64)
      requires MmapReplacer.Tidy(cases, blob) && WellFormed(world) && UserSpace(mem)
      requires Listed(mem, cases, sp) && Get(regs, RSP) == sp + 8 && Mapped(mem, sp, 8)
      requires forall a, b :: |encode(a)| == |encode(b)|
      requires 48 * |cases| + 8 + |blob| + 2 + |encode(0)| + 16 < U64_SIZE
      modifies this
      ensures !e.Panic? ==> regs == old(regs) && WordBack(old(mem))
      ensures e.Ok? ==>
        var img := MmapReplacer.Image(at, cases, blob);
        var len := 48 * |cases| + 8 + |blob| + 2 + |encode(0)| + 16;
        && MadeFor(img, |old(calls)|)
        && MmapReplacer.SameTable(old(world).(mmaps := old(world).mmaps + 1), world, |cases|)
        && MmapReplacer.Framed(old(mem), mem, img, sp)
        && (forall x :: Within(x, at, PageUp(len)) ==> x !in mem && x !in old(mem))
      ensures
        (Reliable(old(requests)) && WordApart(old(mem), cases, Rip(old(regs)), sp)
         && HasPlace(kernel, old(world), old(mem), 48 * |cases| + 8 + |blob| + 2 + |encode(0)| + 16)) ==>
        e.Ok?
    {
      hide HasPlace, RemoteCall, Extends, WriteBytes, Without, Get, MmapReplacer.CaseBytes, MmapReplacer.Tidy, MmapReplacer.Setting,
           MmapReplacer.Framed, MmapReplacer.SameTable, MmapReplacer.Logged, MmapReplacer.Fits, WellFormed, Spared, Listed;
      at := 0;
      var ok := Request();
      if !ok {
        return Err, at;
      }
      var len: u64 := 48 * |cases| + 8 + |blob| + 2 + |encode(Rip(regs))| + 16;
      ghost var m0 := mem;
      e := MapScratch(len);
      if !e.Ok? {
        return;
      }
      at := e.value;
      ghost var m1 := mem;
      var img := MmapReplacer.Image(at, cases, blob);
      MoreMmaps(old(world));
      if at < USER_TOP {
        ScratchIsReady(m0, m1, img, PageUp(len), sp, MmapReplacer.CaseBytes(cases, blob) + encode(at));
      }
      WordStaysApart(m0, m1, cases, Rip(regs), sp);
      e := GuardedMmapLoop(img, encode(at), sp);
      if !e.Ok? {
        return;
      }
      e := UnmapAfterLoop(img, sp, len, m0, m1, 48 * |cases| + 8 + |blob| + 2 + |encode(at)|);
      FreshAddresses(m0, m1, at, PageUp(len));
    }

    /**
      `ProcessAccessor::run` of the mmap replacer, from the regions of the listing: on success the loop has made
      its four calls for each wanted mapping, with its own fields, and memory changed only in their regions.
     */
    method ReplaceMmaps(regions: seq<MmapReplacer.Region>, encode: u64 -> seq<byte>, sp: u64)
      returns (e: Exit<u64>, img: MmapReplacer.Image, ghost idx: seq<int>)
      requires WellFormed(world) && UserSpace(mem) && MmapReplacer.WithPerms(regions)
      requires Present(mem, regions, sp) && Get(regs, RSP) == sp + 8 && Mapped(mem, sp, 8)
      requires forall a, b :: |encode(a)| == |encode(b)|
      requires 48 * |regions| + 8 + MmapReplacer.RegionBytes(regions) + 2 + |encode(0)| + 16 < U64_SIZE
      modifies this
      ensures !e.Panic? ==> regs == old(regs) && WordBack(old(mem))
      ensures MmapReplacer.Tidy(img.cases, img.blob)
      ensures MmapReplacer.MappingsOf(MmapReplacer.Mappings(img.cases, img.blob), regions, idx)
      ensures e.Ok? ==>
        && MadeFor(img, |old(calls)|)
        && MmapReplacer.SameTable(old(world).(mmaps := old(world).mmaps + 1), world, |img.cases|)
        && MmapReplacer.Framed(old(mem), mem, img, sp)
      ensures
        (Reliable(old(requests)) && WordApart(old(mem), img.cases, Rip(old(regs)), sp)
         && HasPlace(kernel, old(world), old(mem), 48 * |idx| + 8 + MmapReplacer.RegionBytes(regions) + 2 + |encode(0)| + 16)) ==>
        e.Ok?
    {
      hide MmapReplacer.Framed, MmapReplacer.SameTable, MmapReplacer.MappingsOf, MmapReplacer.Mappings, Listed, Present, WellFormed,
           MmapReplacer.RegionBytes, Get, HasPlace, WordApart;
      var builder;
      builder, idx := MmapReplacer.FromIter(regions);
      CollectedIsListed(mem, regions, builder.cases, builder.newPaths, idx, sp);
      var at;
      e, at := RunMmapLoop(builder.cases, builder.newPaths, encode, sp);
      img := MmapReplacer.Image(at, builder.cases, builder.newPaths);
    }
  }
}
