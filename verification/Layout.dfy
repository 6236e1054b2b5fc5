/**
  The static data in front of the injected code: a packed table of little-endian words, its
  length in bytes, the NUL-terminated paths and two one-byte nops.
 */
module Layout {
  import opened Bytes

  // ----- the path blob -----

  /** A path as the operating system has it; only UTF-8 paths can be pushed. */
  datatype OsPath = OsPath(bytes: seq<byte>, utf8: bool)

  /** The bytes of `blob` from `off` up to the next NUL. */
  function TextAt(blob: seq<byte>, off: nat): seq<byte>
    requires off <= |blob|
  {
    UpToNul(blob[off..])
  }

  /** An offset that a push handed out: a terminated text starts there. */
  predicate Starts(blob: seq<byte>, off: nat): (b: bool)
    ensures b ==> off < |blob|
  {
    off < |blob| && off + |TextAt(blob, off)| < |blob|
  }

  lemma {:induction false} UpToNulExtends(xs: seq<byte>, ys: seq<byte>)
    requires |UpToNul(xs)| < |xs|
    ensures UpToNul(xs + ys) == UpToNul(xs)
  {
    if xs[0] != 0 {
      UpToNulExtends(xs[1..], ys);
      assert (xs + ys)[1..] == xs[1..] + ys;
    }
  }

  /** Appending to the blob keeps every text already in it. */
  lemma TextSurvives(blob: seq<byte>, more: seq<byte>, off: nat)
    requires Starts(blob, off)
    ensures Starts(blob + more, off) && TextAt(blob + more, off) == TextAt(blob, off)
  {
    assert (blob + more)[off..] == blob[off..] + more;
    UpToNulExtends(blob[off..], more);
  }

  /** The text pushed last starts where the blob ended. */
  lemma TextPushed(blob: seq<byte>, path: seq<byte>)
    ensures Starts(blob + path + [0], |blob|)
    ensures TextAt(blob + path + [0], |blob|) == UpToNul(path)
  {
    assert (blob + path + [0])[|blob|..] == path + [0];
    UpToNulTerminated(path);
  }

  lemma {:induction false} UpToNulTerminated(path: seq<byte>)
    ensures UpToNul(path + [0]) == UpToNul(path)
    ensures |UpToNul(path)| < |path + [0]|
  {
    if path != [] && path[0] != 0 {
      UpToNulTerminated(path[1..]);
      assert (path + [0])[1..] == path[1..] + [0];
    }
  }

  /** What an open call finds at the address of a stored path. */
  lemma BlobRead(m: Memory, base: int, blob: seq<byte>, off: nat, limit: nat)
    requires HoldsAt(m, base, blob) && Starts(blob, off)
    ensures ReadCStr(m, base + off, limit)
         == if |TextAt(blob, off)| < limit then Text(TextAt(blob, off)) else TooLong
  {
    hide HoldsAt, ReadCStr;
    var text := TextAt(blob, off);
    var n := off + |text|;
    assert blob == blob[..off] + (text + [0]) + blob[n + 1..];
    HoldsAtSplit(m, base, blob[..off] + (text + [0]), blob[n + 1..]);
    HoldsAtSplit(m, base, blob[..off], text + [0]);
    UpToNulOfClean(text);
    ReadStoredText(m, base + off, text, limit);
  }

  // ----- the case table -----

  /** The words of all records, in order. */
  function Packed(words: seq<u64>): (b: seq<byte>)
    ensures |b| == 8 * |words|
  {
    if words == [] then [] else Packed(words[..|words| - 1]) + LeBytes(words[|words| - 1], 8)
  }

  /** Word number `i` of a packed table sits at byte 8 * i. */
  lemma {:induction false} PackedWord(m: Memory, addr: int, words: seq<u64>, i: nat)
    requires i < |words|
    requires HoldsAt(m, addr, Packed(words))
    ensures Mapped(m, addr + 8 * i, 8) && ReadWord(m, addr + 8 * i) == words[i]
    decreases |words|
  {
    var front := words[..|words| - 1];
    HoldsAtSplit(m, addr, Packed(front), LeBytes(words[|words| - 1], 8));
    if i == |words| - 1 {
      ReadStoredWord(m, addr + 8 * i, words[i]);
    } else {
      PackedWord(m, addr, front, i);
    }
  }

  /** The static data; the code follows it, so its length is the offset of the first instruction. */
  function StaticData(table: seq<byte>, blob: seq<byte>): (b: seq<byte>)
    requires |table| < U64_SIZE
    ensures |b| == |table| + 8 + |blob| + 2
  {
    table + LeBytes(|table|, 8) + blob + [0x90, 0x90]
  }

  /** Each part of the static data is found at its label. */
  lemma StaticParts(m: Memory, base: int, table: seq<byte>, blob: seq<byte>)
    requires |table| < U64_SIZE
    requires HoldsAt(m, base, StaticData(table, blob))
    ensures HoldsAt(m, base, table)
    ensures Mapped(m, base + |table|, 8) && ReadWord(m, base + |table|) == |table|
    ensures HoldsAt(m, base + |table| + 8, blob)
  {
    var word := LeBytes(|table|, 8);
    HoldsAtSplit(m, base, table + word + blob, [0x90, 0x90]);
    HoldsAtSplit(m, base, table + word, blob);
    HoldsAtSplit(m, base, table, word);
    ReadStoredWord(m, base + |table|, |table|);
  }
}
