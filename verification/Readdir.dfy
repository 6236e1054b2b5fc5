/** src/hookfs/mod.rs, `readdir`: replies cut to a buffer, resumed by offset. */
module Readdir {

  type Name = seq<char>

  /** A directory entry; `Unreadable` is an entry that could not be read or has no known type. */
  datatype Entry = Entry(ino: nat, kind: int, name: Name) | Unreadable
  datatype Reply = Reply(ino: nat, offset: int, kind: int, name: Name)

  const I64_SIZE: int := 0x1_0000_0000_0000_0000

  /** What an entry takes in the reply buffer: a header and the name, padded to eight bytes. */
  function Size(name: Name): nat {
    (24 + |name| + 7) / 8 * 8
  }

  function Used(rs: seq<Reply>): nat {
    if rs == [] then 0 else Used(rs[..|rs| - 1]) + Size(rs[|rs| - 1].name)
  }

  function ReplyFor(entries: seq<Entry>, i: nat): Reply
    requires i < |entries| && entries[i].Entry?
  {
    Reply(entries[i].ino, i + 1, entries[i].kind, entries[i].name)
  }

  /** The replies for entries from `lo` up to `hi`. */
  function Replies(entries: seq<Entry>, lo: nat, hi: nat): (rs: seq<Reply>)
    requires lo <= hi <= |entries| && forall i :: lo <= i < hi ==> entries[i].Entry?
    ensures |rs| == hi - lo
  {
    seq(hi - lo, i requires 0 <= i < hi - lo => ReplyFor(entries, lo + i))
  }

  /** An i64 offset cast to an unsigned size. */
  function AsUsize(offset: int): nat
    requires -I64_SIZE / 2 <= offset < I64_SIZE / 2
  {
    if offset < 0 then offset + I64_SIZE else offset
  }

  /** Where a reply starting at `lo` ends: at the first entry that does not fit. */
  ghost predicate Filled(entries: seq<Entry>, lo: nat, hi: nat, capacity: nat)
    requires lo <= hi <= |entries| && forall i :: lo <= i < hi ==> entries[i].Entry?
  {
    && Used(Replies(entries, lo, hi)) <= capacity
    && (hi < |entries| && entries[hi].Entry? ==> Used(Replies(entries, lo, hi)) + Size(entries[hi].name) > capacity)
  }

  lemma UsedByOneMore(entries: seq<Entry>, lo: nat, hi: nat)
    requires lo <= hi < |entries| && forall i :: lo <= i <= hi ==> entries[i].Entry?
    ensures Replies(entries, lo, hi + 1) == Replies(entries, lo, hi) + [ReplyFor(entries, hi)]
    ensures Used(Replies(entries, lo, hi + 1)) == Used(Replies(entries, lo, hi)) + Size(entries[hi].name)
  {
    var rs := Replies(entries, lo, hi + 1);
    assert rs == Replies(entries, lo, hi) + [ReplyFor(entries, hi)];
    assert rs[..|rs| - 1] == Replies(entries, lo, hi);
  }

  /**
    One call: from the offset on, entries in order until one does not fit or cannot be read. The
    offset stored with an entry is the one to resume behind it.
   */
  method ReadOnce(entries: seq<Entry>, offset: int, capacity: nat) returns (out: seq<Reply>, ok: bool, ghost end: nat)
    requires -I64_SIZE / 2 <= offset < I64_SIZE / 2 && |entries| < I64_SIZE / 2
    ensures AsUsize(offset) >= |entries| ==> ok && out == []
    ensures AsUsize(offset) < |entries| ==>
      && AsUsize(offset) <= end <= |entries| && (forall i :: AsUsize(offset) <= i < end ==> entries[i].Entry?)
      && out == Replies(entries, AsUsize(offset), end)
      && (!ok ==> end < |entries| && entries[end].Unreadable?)
      && (ok ==> Filled(entries, AsUsize(offset), end, capacity) && (end < |entries| ==> entries[end].Entry?))
  {
    var start := AsUsize(offset);
    out, ok, end := [], true, start;
    if start >= |entries| {
      return;
    }
    var used := 0;
    for index := start to |entries|
      invariant forall i :: start <= i < index ==> entries[i].Entry?
      invariant end == index && out == Replies(entries, start, index)
      invariant used == Used(out) <= capacity && ok
    {
      if entries[index].Unreadable? {
        ok := false;
        return;
      }
      if used + Size(entries[index].name) > capacity {
        return;
      }
      UsedByOneMore(entries, start, index);
      out := out + [Reply(entries[index].ino, index + 1, entries[index].kind, entries[index].name)];
      used := used + Size(entries[index].name);
      end := index + 1;
    }
  }

  // ----- a series of calls -----

  predicate Readable(entries: seq<Entry>) {
    forall i :: 0 <= i < |entries| ==> entries[i].Entry?
  }

  lemma RepliesJoin(entries: seq<Entry>, lo: nat, mid: nat, hi: nat)
    requires Readable(entries) && lo <= mid <= hi <= |entries|
    ensures Replies(entries, lo, mid) + Replies(entries, mid, hi) == Replies(entries, lo, hi)
  {
  }

  /**
    Reading a stable directory to its end: each call resumes at the last offset returned, with whatever
    buffer it is given as long as one entry fits. Every entry comes exactly once, in order, with its
    own offset, and the empty reply that ends the series is reached within one call more than entries.
   */
  method ReadAll(entries: seq<Entry>, capacity: nat -> nat) returns (all: seq<Reply>, calls: nat)
    requires Readable(entries) && |entries| < I64_SIZE / 2
    requires forall n, i :: 0 <= i < |entries| ==> Size(entries[i].name) <= capacity(n)
    ensures |all| == |entries| && calls <= |entries| + 1
    ensures forall i :: 0 <= i < |entries| ==> all[i] == Reply(entries[i].ino, i + 1, entries[i].kind, entries[i].name)
  {
    all, calls := [], 0;
    var offset, more := 0, true;
    while more
      invariant 0 <= offset <= |entries| && all == Replies(entries, 0, offset)
      invariant calls <= offset + if more then 0 else 1
      invariant !more ==> offset == |entries|
      decreases |entries| - offset, more
    {
      var out, ok, end := ReadOnce(entries, offset, capacity(calls));
      calls := calls + 1;
      if out == [] {
        more := false;
      } else {
        RepliesJoin(entries, 0, offset, end);
        all := all + out;
        offset := out[|out| - 1].offset;
      }
    }
  }
}
