/** src/injector/mistake_injector.rs: overwriting parts of a buffer. */
module MistakeInjector {
  import opened Intervals
  import opened Bytes

  datatype Filling = Zero | Random
  datatype Mistake = Mistake(filling: Filling, maxOccurrences: nat, maxLength: nat)

  /** The numbers drawn: how often, and for each time where, how long and what random bytes. */
  datatype Draws = Draws(occurrences: nat, pos: nat -> nat, length: nat -> nat, fill: (nat, nat) -> byte)

  function Min(a: nat, b: nat): nat {
    if a < b then a else b
  }

  function Max(a: nat, b: nat): nat {
    if a < b then b else a
  }

  /** The lengths a draw may take when `room` bytes are left: none, or at least one. */
  predicate LengthDrawn(m: Mistake, room: nat, l: nat) {
    var limit := Min(m.maxLength, room);
    if limit == 0 then l == 0 else 1 <= l <= limit
  }

  /** Every draw is in the range it is drawn from. */
  ghost predicate InRange(m: Mistake, d: Draws, size: nat) {
    && (if m.maxOccurrences == 0 then d.occurrences == 0 else 1 <= d.occurrences <= m.maxOccurrences)
    && forall n {:trigger d.pos(n)} :: 0 <= n < d.occurrences ==>
        d.pos(n) < Max(size, 1) && d.pos(n) <= size && LengthDrawn(m, size - d.pos(n), d.length(n))
  }

  /** Index `i` lies in one of the first `n` drawn intervals. */
  ghost predicate Hit(d: Draws, n: nat, i: nat) {
    exists k :: 0 <= k < n && d.pos(k) <= i < d.pos(k) + d.length(k)
  }

  /** The last of the first `n` drawn intervals that holds index `i` is number `k`. */
  ghost predicate LastHit(d: Draws, n: nat, i: nat, k: nat) {
    && k < n && d.pos(k) <= i < d.pos(k) + d.length(k)
    && forall j :: k < j < n ==> !(d.pos(j) <= i < d.pos(j) + d.length(j))
  }

  // ----- the buffer after n occurrences, as a value -----

  function Filler(m: Mistake, d: Draws, n: nat, i: nat): byte {
    if m.filling == Zero then 0 else d.fill(n, i)
  }

  function Overwritten(m: Mistake, d: Draws, n: nat, data: seq<byte>): (r: seq<byte>)
    ensures |r| == |data|
  {
    seq(|data|, i requires 0 <= i < |data| =>
      if d.pos(n) <= i < d.pos(n) + d.length(n) then Filler(m, d, n, i) else data[i])
  }

  function Sabotaged(m: Mistake, d: Draws, n: nat, data: seq<byte>): (r: seq<byte>)
    ensures |r| == |data|
  {
    if n == 0 then data else Overwritten(m, d, n - 1, Sabotaged(m, d, n - 1, data))
  }

  /** Only drawn intervals change, and with zero filling they are zeroed throughout. */
  lemma {:induction false} OnlyDrawnBytesChange(m: Mistake, d: Draws, n: nat, data: seq<byte>, i: nat)
    requires i < |data|
    ensures !Hit(d, n, i) ==> Sabotaged(m, d, n, data)[i] == data[i]
    ensures m.filling == Zero && Hit(d, n, i) ==> Sabotaged(m, d, n, data)[i] == 0
  {
    if n > 0 {
      OnlyDrawnBytesChange(m, d, n - 1, data, i);
      if d.pos(n - 1) <= i < d.pos(n - 1) + d.length(n - 1) {
        assert Hit(d, n, i);
      } else {
        assert Hit(d, n, i) <==> Hit(d, n - 1, i);
      }
    }
  }

  /** A byte drawn more than once has what the last interval over it wrote. */
  lemma {:induction false} LastFillWins(m: Mistake, d: Draws, n: nat, data: seq<byte>, i: nat, k: nat)
    requires i < |data| && LastHit(d, n, i, k)
    ensures Sabotaged(m, d, n, data)[i] == if m.filling == Zero then 0 else d.fill(k, i)
  {
    if k < n - 1 {
      assert !(d.pos(n - 1) <= i < d.pos(n - 1) + d.length(n - 1));
      LastFillWins(m, d, n - 1, data, i, k);
    }
  }

  lemma {:induction false} HitHasLast(d: Draws, n: nat, i: nat) returns (k: nat)
    requires Hit(d, n, i)
    ensures LastHit(d, n, i, k)
  {
    k := n - 1;
    if !(d.pos(k) <= i < d.pos(k) + d.length(k)) {
      k := HitHasLast(d, n - 1, i);
    }
  }

  function Changed(a: seq<byte>, b: seq<byte>): set<int>
    requires |a| == |b|
  {
    set i | 0 <= i < |a| && a[i] != b[i]
  }

  /** Each occurrence changes at most as many bytes as were drawn for it. */
  lemma {:induction false} BoundedDamage(m: Mistake, d: Draws, n: nat, data: seq<byte>)
    requires forall k :: 0 <= k < n ==> d.length(k) <= m.maxLength
    ensures |Changed(data, Sabotaged(m, d, n, data))| <= n * m.maxLength
  {
    if n > 0 {
      BoundedDamage(m, d, n - 1, data);
      var before, after := Sabotaged(m, d, n - 1, data), Sabotaged(m, d, n, data);
      var lo, hi := d.pos(n - 1), d.pos(n - 1) + d.length(n - 1);
      assert Changed(data, after) <= Changed(data, before) + Interval(lo, hi);
      SubsetSize(Changed(data, after), Changed(data, before) + Interval(lo, hi));
      IntervalSize(lo, hi);
      assert n * m.maxLength == (n - 1) * m.maxLength + m.maxLength;
    } else {
      assert Changed(data, Sabotaged(m, d, 0, data)) == {};
    }
  }

  // ----- the code -----

  const USIZE_MAX: nat := 0xffff_ffff_ffff_ffff

  /**
    `handle`: overwrites the drawn intervals in place. It never leaves the buffer, empty or not, and changes
    at most maxOccurrences * maxLength bytes, all in drawn intervals. Every byte in one of them is the zero, or
    the random byte, of the last interval over it.
   */
  method Handle(m: Mistake, d: Draws, data: array<byte>)
    requires m.maxOccurrences < USIZE_MAX && InRange(m, d, data.Length)
    modifies data
    ensures data[..] == Sabotaged(m, d, d.occurrences, old(data[..]))
    ensures |Changed(old(data[..]), data[..])| <= m.maxOccurrences * m.maxLength
    ensures forall i :: 0 <= i < data.Length && !Hit(d, d.occurrences, i) ==> data[i] == old(data[i])
    ensures m.filling == Zero ==> forall i :: 0 <= i < data.Length ==>
      data[i] == if Hit(d, d.occurrences, i) then 0 else old(data[i])
    ensures forall i :: 0 <= i < data.Length && Hit(d, d.occurrences, i) ==>
      exists k :: LastHit(d, d.occurrences, i, k) && data[i] == if m.filling == Zero then 0 else d.fill(k, i)
  {
    hide Changed, Overwritten, Hit, LastHit;
    ghost var was := data[..];
    for n := 0 to d.occurrences
      invariant data[..] == Sabotaged(m, d, n, was)
    {
      Fill(m, d, n, data);
    }
    Damage(m, d, was);
    forall i | 0 <= i < data.Length
      ensures !Hit(d, d.occurrences, i) ==> data[i] == was[i]
      ensures Hit(d, d.occurrences, i) ==>
        exists k :: LastHit(d, d.occurrences, i, k) && data[i] == if m.filling == Zero then 0 else d.fill(k, i)
    {
      assert data[i] == data[..][i];
      OnlyDrawnBytesChange(m, d, d.occurrences, was, i);
      if Hit(d, d.occurrences, i) {
        var k := HitHasLast(d, d.occurrences, i);
        LastFillWins(m, d, d.occurrences, was, i, k);
      }
    }
  }

  /** One occurrence. */
  method Fill(m: Mistake, d: Draws, n: nat, data: array<byte>)
    requires d.pos(n) + d.length(n) <= data.Length
    modifies data
    ensures data[..] == Overwritten(m, d, n, old(data[..]))
  {
    for i := d.pos(n) to d.pos(n) + d.length(n)
      invariant forall j :: 0 <= j < data.Length ==>
        data[j] == if d.pos(n) <= j < i then Filler(m, d, n, j) else old(data[j])
    {
      data[i] := if m.filling == Zero then 0 else d.fill(n, i);
    }
  }

  lemma Damage(m: Mistake, d: Draws, data: seq<byte>)
    requires InRange(m, d, |data|)
    ensures |Changed(data, Sabotaged(m, d, d.occurrences, data))| <= m.maxOccurrences * m.maxLength
  {
    forall k | 0 <= k < d.occurrences
      ensures d.length(k) <= m.maxLength
    {
      assert d.pos(k) <= |data|;
    }
    BoundedDamage(m, d, d.occurrences, data);
    TimesMonotone(d.occurrences, m.maxOccurrences, m.maxLength);
  }

  lemma TimesMonotone(a: nat, b: nat, c: nat)
    requires a <= b
    ensures a * c <= b * c
  {
  }
}
