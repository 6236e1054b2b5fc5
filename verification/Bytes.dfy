/** Bytes, 64-bit words and the byte-addressed memory of a traced process. */
module Bytes {

  type byte = x: int | 0 <= x < 256

  const U32_SIZE: int := 0x1_0000_0000
  const U64_SIZE: int := 0x1_0000_0000_0000_0000

  type u64 = x: int | 0 <= x < 0x1_0000_0000_0000_0000

  /** Two's complement reading of a register. */
  function Signed(x: u64): int {
    if x < 0x8000_0000_0000_0000 then x else x - U64_SIZE
  }

  /** Register arithmetic wraps around. */
  function Wrap(x: int): u64 {
    x % U64_SIZE
  }

  // ----- little endian -----

  function LeBytes(n: nat, width: nat): (b: seq<byte>)
    ensures |b| == width
  {
    if width == 0 then [] else [n % 256] + LeBytes(n / 256, width - 1)
  }

  function LeValue(b: seq<byte>): nat {
    if b == [] then 0 else b[0] + 256 * LeValue(b[1..])
  }

  function Pow256(width: nat): nat {
    if width == 0 then 1 else 256 * Pow256(width - 1)
  }

  lemma {:induction false} LeRoundTrip(n: nat, width: nat)
    requires n < Pow256(width)
    ensures LeValue(LeBytes(n, width)) == n
  {
    if width > 0 {
      LeRoundTrip(n / 256, width - 1);
      assert LeBytes(n, width)[1..] == LeBytes(n / 256, width - 1);
    }
  }

  lemma WordSize()
    ensures Pow256(8) == U64_SIZE
  {
    assert Pow256(2) == 65536;
    assert Pow256(4) == 65536 * 65536;
    assert Pow256(6) == 65536 * 65536 * 65536;
  }

  lemma WordRoundTrip(n: u64)
    ensures LeValue(LeBytes(n, 8)) == n
  {
    WordSize();
    LeRoundTrip(n, 8);
  }

  // ----- memory: the mapped bytes of an address space -----

  type Memory = map<int, byte>

  predicate Within(a: int, addr: int, len: nat) {
    addr <= a < addr + len
  }

  function Span(addr: int, len: nat): (s: set<int>)
    ensures forall a :: a in s <==> Within(a, addr, len)
  {
    set a | addr <= a < addr + len && Within(a, addr, len)
  }

  predicate Mapped(m: Memory, addr: int, len: nat) {
    forall a :: addr <= a < addr + len ==> a in m
  }

  /** The bytes `bs` are in memory, starting at `addr`. */
  predicate HoldsAt(m: Memory, addr: int, bs: seq<byte>) {
    forall a :: addr <= a < addr + |bs| ==> a in m && m[a] == bs[a - addr]
  }

  function ReadBytes(m: Memory, addr: int, len: nat): (bs: seq<byte>)
    requires Mapped(m, addr, len)
    ensures |bs| == len && HoldsAt(m, addr, bs)
  {
    seq(len, i requires 0 <= i < len => m[addr + i])
  }

  function ReadWord(m: Memory, addr: int): (v: u64)
    requires Mapped(m, addr, 8)
  {
    WordFits(ReadBytes(m, addr, 8));
    LeValue(ReadBytes(m, addr, 8))
  }

  function WriteBytes(m: Memory, addr: int, bs: seq<byte>): (m': Memory)
    ensures HoldsAt(m', addr, bs)
    ensures m'.Keys == m.Keys + Span(addr, |bs|)
    ensures forall a :: a in m && !Within(a, addr, |bs|) ==> m'[a] == m[a]
  {
    m + map a | a in Span(addr, |bs|) :: bs[a - addr]
  }

  /** Every eight bytes form a 64-bit word. */
  lemma WordFits(b: seq<byte>)
    requires |b| == 8
    ensures LeValue(b) < U64_SIZE
  {
    WordSize();
    LeBound(b);
  }

  lemma {:induction false} LeBound(b: seq<byte>)
    ensures LeValue(b) < Pow256(|b|)
  {
    if b != [] { LeBound(b[1..]); }
  }

  lemma HoldsAtSplit(m: Memory, addr: int, xs: seq<byte>, ys: seq<byte>)
    requires HoldsAt(m, addr, xs + ys)
    ensures HoldsAt(m, addr, xs) && HoldsAt(m, addr + |xs|, ys)
  {
    forall a | addr <= a < addr + |xs|
      ensures a in m && m[a] == xs[a - addr]
    {
      assert (xs + ys)[a - addr] == xs[a - addr];
    }
    forall a | addr + |xs| <= a < addr + |xs| + |ys|
      ensures a in m && m[a] == ys[a - (addr + |xs|)]
    {
      assert (xs + ys)[a - addr] == ys[a - addr - |xs|];
    }
  }

  /** Reading back a word stored in little-endian order. */
  lemma ReadStoredWord(m: Memory, addr: int, v: u64)
    requires HoldsAt(m, addr, LeBytes(v, 8))
    ensures Mapped(m, addr, 8) && ReadWord(m, addr) == v
  {
    assert ReadBytes(m, addr, 8) == LeBytes(v, 8);
    WordRoundTrip(v);
  }

  // ----- C strings -----

  /** The text of a path argument as a system call reads it. */
  datatype CStr = Text(text: seq<byte>) | Fault | TooLong

  function ReadCStr(m: Memory, addr: int, limit: nat): CStr
    decreases limit
  {
    if limit == 0 then TooLong
    else if addr !in m then Fault
    else if m[addr] == 0 then Text([])
    else match ReadCStr(m, addr + 1, limit - 1)
      case Text(t) => Text([m[addr]] + t)
      case other => other
  }

  /** The part of a byte string that C code sees: everything before the first NUL. */
  function UpToNul(bs: seq<byte>): (t: seq<byte>)
    ensures |t| <= |bs| && t == bs[..|t|]
    ensures forall b :: b in t ==> b != 0
    ensures |t| < |bs| ==> bs[|t|] == 0
  {
    if bs == [] || bs[0] == 0 then [] else [bs[0]] + UpToNul(bs[1..])
  }

  lemma {:induction false} UpToNulOfClean(bs: seq<byte>)
    ensures UpToNul(bs) == bs <==> 0 !in bs
  {
    if 0 !in bs {
      assert UpToNul(bs) == bs[..|UpToNul(bs)|];
    }
  }

  /** A terminated text in memory is read back, unless it is too long. */
  lemma {:induction false} ReadStoredText(m: Memory, addr: int, text: seq<byte>, limit: nat)
    requires HoldsAt(m, addr, text + [0])
    ensures ReadCStr(m, addr, limit)
         == if |UpToNul(text)| < limit then Text(UpToNul(text)) else TooLong
    decreases |text|
  {
    assert (text + [0])[0] == if text == [] then 0 else text[0];
    assert addr in m;
    if text != [] && text[0] != 0 && limit > 0 {
      HoldsAtSplit(m, addr, [text[0]], text[1..] + [0]) by {
        assert [text[0]] + (text[1..] + [0]) == text + [0];
      }
      ReadStoredText(m, addr + 1, text[1..], limit - 1);
    }
  }
}
