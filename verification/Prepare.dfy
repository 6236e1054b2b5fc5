/**
  `prepare` of src/replacer/fd_replacer.rs and src/replacer/mmap_replacer.rs: from the processes of the
  system to one accessor for each process that uses the injected directory, and the trace handles it keeps.
 */
module Prepare {
  import opened Wrappers
  import opened Paths
  import opened PtraceManager
  import opened Selections

  /** A descriptor or a mapping; `target` is nothing when it is not backed by a path. */
  datatype Entry<T> = Entry(item: T, target: Option<Path>)

  /** `attaches` is whether the process can be attached; without `entries` its tables cannot be read. */
  datatype Process<T> = Process(pid: int, attaches: bool, entries: Option<seq<Entry<T>>>)

  // ----- the pipeline -----

  function Rebased<T>(e: Entry<T>, detect: Path, new_: Path): Option<(T, Path)> {
    if e.target.None? then None
    else
      match StripPrefix(e.target.value, detect)
      case Ok(tail) => Some((e.item, new_ + tail))
      case Err => None
  }

  /** The entries of one process that lie under `detect`, moved to `new_`. */
  function Matching<T>(es: seq<Entry<T>>, detect: Path, new_: Path): seq<(T, Path)> {
    if es == [] then []
    else
      var front, r := Matching(es[..|es| - 1], detect, new_), Rebased(es[|es| - 1], detect, new_);
      if r.Some? then front + [r.value] else front
  }

  /** A process counts only if it is traced already or can be attached, and if it can be read. */
  function Wanted<T>(c: Counter, p: Process<T>, detect: Path, new_: Path): seq<(T, Path)> {
    if (p.pid in c || p.attaches) && p.entries.Some? then Matching(p.entries.value, detect, new_) else []
  }

  function Tagged<X>(pid: int, xs: seq<X>): seq<(int, X)> {
    seq(|xs|, i requires 0 <= i < |xs| => (pid, xs[i]))
  }

  /** All matches of all processes, one after the other. */
  function Flat<T>(c: Counter, ps: seq<Process<T>>, detect: Path, new_: Path): seq<(int, (T, Path))> {
    if ps == [] then []
    else
      var p := ps[|ps| - 1];
      Flat(c, ps[..|ps| - 1], detect, new_) + Tagged(p.pid, Wanted(c, p, detect, new_))
  }

  /** Neighbours with the same process form a group. */
  function Grouped<X>(xs: seq<(int, X)>): (g: seq<(int, seq<X>)>)
    ensures xs != [] ==> g != [] && g[|g| - 1].0 == xs[|xs| - 1].0
    ensures xs == [] ==> g == []
  {
    if xs == [] then []
    else
      var front, last := Grouped(xs[..|xs| - 1]), xs[|xs| - 1];
      if front != [] && front[|front| - 1].0 == last.0
      then front[..|front| - 1] + [(last.0, front[|front| - 1].1 + [last.1])]
      else front + [(last.0, [last.1])]
  }

  /** A later group of a process replaces an earlier one. */
  function Collected<X>(g: seq<(int, seq<X>)>): map<int, seq<X>> {
    if g == [] then map[] else Collected(g[..|g| - 1])[g[|g| - 1].0 := g[|g| - 1].1]
  }

  function Prepared<T>(c: Counter, ps: seq<Process<T>>, detect: Path, new_: Path): map<int, seq<(T, Path)>> {
    Collected(Grouped(Flat(c, ps, detect, new_)))
  }

  predicate DistinctPids<T>(ps: seq<Process<T>>) {
    forall i, j :: 0 <= i < j < |ps| ==> ps[i].pid != ps[j].pid
  }

  // ----- nothing is lost -----

  predicate Lies<T>(e: Entry<T>, detect: Path) {
    e.target.Some? && Under(e.target.value, detect)
  }

  function LiesUnder<T>(detect: Path): Entry<T> -> bool {
    (e: Entry<T>) => Lies(e, detect)
  }

  /** The rebased entries, as `idx` picks them. */
  ghost predicate Moves<T>(idx: seq<int>, es: seq<Entry<T>>, detect: Path, new_: Path, ms: seq<(T, Path)>) {
    && |idx| == |ms|
    && forall k :: 0 <= k < |idx| ==>
        && 0 <= idx[k] < |es| && Lies(es[idx[k]], detect)
        && ms[k] == (es[idx[k]].item, new_ + es[idx[k]].target.value[|detect|..])
  }

  lemma MovesOneMore<T>(idx: seq<int>, es: seq<Entry<T>>, detect: Path, new_: Path, ms: seq<(T, Path)>)
    requires es != [] && Moves(idx, es[..|es| - 1], detect, new_, ms)
    ensures Moves(idx, es, detect, new_, ms)
    ensures var e := es[|es| - 1];
      Lies(e, detect) ==>
      Moves(idx + [|es| - 1], es, detect, new_, ms + [(e.item, new_ + e.target.value[|detect|..])])
  {
  }

  /** Every entry under `detect` is there, in order, with its item and with the tail of its path. */
  lemma {:induction false} MatchingIsExact<T>(es: seq<Entry<T>>, detect: Path, new_: Path) returns (idx: seq<int>)
    ensures Selects(idx, es, LiesUnder(detect)) && Moves(idx, es, detect, new_, Matching(es, detect, new_))
  {
    idx := [];
    if es != [] {
      hide Selects, Moves;
      var front := es[..|es| - 1];
      idx := MatchingIsExact(front, detect, new_);
      SelectsOneMore(idx, es, LiesUnder(detect));
      MovesOneMore(idx, es, detect, new_, Matching(front, detect, new_));
      if Lies(es[|es| - 1], detect) {
        idx := idx + [|es| - 1];
      }
    }
  }

  lemma NewGroup<X>(xs: seq<(int, X)>, pid: int, y: X)
    requires xs != [] ==> xs[|xs| - 1].0 != pid
    ensures Grouped(xs + [(pid, y)]) == Grouped(xs) + [(pid, [y])]
  {
    assert (xs + [(pid, y)])[..|xs|] == xs;
  }

  lemma SameGroup<X>(xs: seq<(int, X)>, g: seq<(int, seq<X>)>, pid: int, ys: seq<X>, y: X)
    requires Grouped(xs) == g + [(pid, ys)]
    ensures Grouped(xs + [(pid, y)]) == g + [(pid, ys + [y])]
  {
    assert (xs + [(pid, y)])[..|xs|] == xs;
    assert Grouped(xs)[..|Grouped(xs)| - 1] == g;
  }

  lemma {:induction false} GroupAtTheEnd<X>(xs: seq<(int, X)>, pid: int, ys: seq<X>)
    requires ys != [] && forall x :: x in xs ==> x.0 != pid
    ensures Grouped(xs + Tagged(pid, ys)) == Grouped(xs) + [(pid, ys)]
  {
    hide Grouped;
    var n := |ys| - 1;
    assert xs + Tagged(pid, ys) == (xs + Tagged(pid, ys[..n])) + [(pid, ys[n])];
    assert ys == ys[..n] + [ys[n]];
    if n == 0 {
      assert xs + Tagged(pid, ys[..n]) == xs;
      if xs != [] { assert xs[|xs| - 1] in xs; }
      NewGroup(xs, pid, ys[n]);
    } else {
      GroupAtTheEnd(xs, pid, ys[..n]);
      SameGroup(xs + Tagged(pid, ys[..n]), Grouped(xs), pid, ys[..n], ys[n]);
    }
  }

  lemma {:induction false} FlatPids<T>(c: Counter, ps: seq<Process<T>>, detect: Path, new_: Path)
    ensures forall x :: x in Flat(c, ps, detect, new_) ==> exists i :: 0 <= i < |ps| && ps[i].pid == x.0
  {
    if ps != [] {
      FlatPids(c, ps[..|ps| - 1], detect, new_);
    }
  }

  /** One more process adds its own group and touches no other. */
  lemma OneMoreProcess<T>(c: Counter, ps: seq<Process<T>>, detect: Path, new_: Path)
    requires ps != [] && DistinctPids(ps)
    ensures var p := ps[|ps| - 1];
      var before := Prepared(c, ps[..|ps| - 1], detect, new_);
      var own := Wanted(c, p, detect, new_);
      Prepared(c, ps, detect, new_) == if own == [] then before else before[p.pid := own]
  {
    hide Wanted, Grouped;
    var front, p := ps[..|ps| - 1], ps[|ps| - 1];
    var xs, own := Flat(c, front, detect, new_), Wanted(c, p, detect, new_);
    if own == [] {
      assert xs + Tagged(p.pid, own) == xs;
    } else {
      FlatPids(c, front, detect, new_);
      GroupAtTheEnd(xs, p.pid, own);
      var g := Grouped(xs) + [(p.pid, own)];
      assert g[..|g| - 1] == Grouped(xs);
    }
  }

  /**
    With distinct processes, each of them gets exactly its own matches, and those without a match get no
    accessor: consecutive grouping and collecting into a map lose and mix nothing.
   */
  lemma {:induction false} PrepareLosesNothing<T>(c: Counter, ps: seq<Process<T>>, detect: Path, new_: Path)
    requires DistinctPids(ps)
    ensures forall i :: 0 <= i < |ps| ==>
      var own, all := Wanted(c, ps[i], detect, new_), Prepared(c, ps, detect, new_);
      (ps[i].pid in all <==> own != []) && (own != [] ==> all[ps[i].pid] == own)
    ensures forall pid :: pid in Prepared(c, ps, detect, new_) ==> exists i :: 0 <= i < |ps| && ps[i].pid == pid
  {
    hide Wanted, Prepared;
    if ps == [] {
      NothingPrepared<T>(c, detect, new_);
    } else {
      OneMoreProcess(c, ps, detect, new_);
      PrepareLosesNothing(c, ps[..|ps| - 1], detect, new_);
    }
  }

  lemma NothingPrepared<T>(c: Counter, detect: Path, new_: Path)
    ensures Prepared<T>(c, [], detect, new_) == map[]
  {
  }

  /** The process is traced already or can be attached, and can be read. */
  predicate Reached<T>(c: Counter, p: Process<T>) {
    (p.pid in c || p.attaches) && p.entries.Some?
  }

  /**
    Told by the entries themselves: a reached process has an accessor exactly if one of its entries lies under
    `detect`, and then all of those, in order, with their items and the tails of their paths; others have none.
   */
  lemma AccessorHasItsEntries<T>(c: Counter, ps: seq<Process<T>>, detect: Path, new_: Path, i: nat)
    returns (idx: seq<int>)
    requires DistinctPids(ps) && i < |ps|
    ensures ps[i].pid in Prepared(c, ps, detect, new_) <==>
      Reached(c, ps[i]) && exists k :: 0 <= k < |ps[i].entries.value| && Lies(ps[i].entries.value[k], detect)
    ensures ps[i].pid in Prepared(c, ps, detect, new_) ==>
      && Reached(c, ps[i]) && Selects(idx, ps[i].entries.value, LiesUnder(detect))
      && Moves(idx, ps[i].entries.value, detect, new_, Prepared(c, ps, detect, new_)[ps[i].pid])
  {
    hide Prepared, Matching, Moves;
    PrepareLosesNothing(c, ps, detect, new_);
    idx := [];
    if Reached(c, ps[i]) {
      var es := ps[i].entries.value;
      idx := MatchingIsExact(es, detect, new_);
      SameLength(idx, es, detect, new_, Matching(es, detect, new_));
      if idx != [] {
        assert idx[0] in idx;
      } else {
        assert forall k :: 0 <= k < |es| ==> k !in idx;
      }
    }
  }

  lemma SameLength<T>(idx: seq<int>, es: seq<Entry<T>>, detect: Path, new_: Path, ms: seq<(T, Path)>)
    requires Moves(idx, es, detect, new_, ms)
    ensures |idx| == |ms|
  {
  }

  // ----- the trace handles -----

  /** Tracing and cloning take a handle, dropping gives one back. */
  datatype Act = Take(pid: int, attaches: bool) | Give(pid: int)

  function Apply(c: Counter, a: Act): Counter {
    match a
    case Take(pid, attaches) => Traced(c, pid, attaches)
    case Give(pid) => Detached(c, pid)
  }

  function AfterActs(c: Counter, acts: seq<Act>): Counter
    decreases |acts|
  {
    if acts == [] then c else AfterActs(Apply(c, acts[0]), acts[1..])
  }

  /** The number of live handles of a process. */
  function Count(c: Counter, pid: int): int {
    if pid in c then c[pid] else 0
  }

  /** The acts on one process; what others do in between does not matter to it. */
  function Acts(acts: seq<Act>, pid: int): seq<Act> {
    if acts == [] then []
    else if acts[0].pid == pid then [acts[0]] + Acts(acts[1..], pid)
    else Acts(acts[1..], pid)
  }

  lemma {:induction false} OthersDoNotMatter(c: Counter, d: Counter, acts: seq<Act>, pid: int)
    requires pid in c <==> pid in d
    requires pid in c ==> c[pid] == d[pid]
    ensures var x, y := AfterActs(c, acts), AfterActs(d, Acts(acts, pid));
      (pid in x <==> pid in y) && (pid in x ==> x[pid] == y[pid])
    decreases |acts|
  {
    if acts != [] {
      var a := acts[0];
      var own := [a] + Acts(acts[1..], pid);
      assert own[1..] == Acts(acts[1..], pid);
      OthersDoNotMatter(Apply(c, a), if a.pid == pid then Apply(d, a) else d, acts[1..], pid);
    }
  }

  /**
    What is done for one entry: its match carries a clone until the builder has taken the path, and the
    first match makes the group ask for the handle that stays. With `early` the clone comes before the
    filter, as for mappings.
   */
  function EntryActs<T>(pid: int, e: Entry<T>, detect: Path, new_: Path, early: bool, first: bool): seq<Act> {
    if Rebased(e, detect, new_).Some? then
      if first then [Take(pid, false), Take(pid, false), Give(pid)] else [Take(pid, false), Give(pid)]
    else if early && e.target.Some? then [Take(pid, false), Give(pid)]
    else []
  }

  function EntriesActs<T>(pid: int, es: seq<Entry<T>>, detect: Path, new_: Path, early: bool): seq<Act> {
    if es == [] then []
    else
      var front := es[..|es| - 1];
      EntriesActs(pid, front, detect, new_, early) +
      EntryActs(pid, es[|es| - 1], detect, new_, early, Matching(front, detect, new_) == [])
  }

  /** Everything done for one process; a process that cannot be read is let go at once. */
  function ProcessActs<T>(c: Counter, p: Process<T>, detect: Path, new_: Path, early: bool): seq<Act> {
    if p.pid !in c && !p.attaches then [Take(p.pid, false)]
    else
      [Take(p.pid, p.attaches)] +
      (if p.entries.Some? then EntriesActs(p.pid, p.entries.value, detect, new_, early) else []) +
      [Give(p.pid)]
  }

  lemma {:induction false} AfterBoth(c: Counter, a: seq<Act>, b: seq<Act>)
    ensures AfterActs(c, a + b) == AfterActs(AfterActs(c, a), b)
    decreases |a|
  {
    if a == [] {
      assert a + b == b;
    } else {
      assert (a + b)[1..] == a[1..] + b;
      AfterBoth(Apply(c, a[0]), a[1..], b);
    }
  }

  lemma EntryKeepsCount<T>(c: Counter, pid: int, e: Entry<T>, detect: Path, new_: Path, early: bool, first: bool)
    requires pid in c && 1 <= c[pid] <= I32_MAX - 2
    ensures var more := if first && Rebased(e, detect, new_).Some? then 1 else 0;
      AfterActs(c, EntryActs(pid, e, detect, new_, early, first)) == c[pid := c[pid] + more]
  {
    var n := c[pid];
    var up, up2 := c[pid := n + 1], c[pid := n + 2];
    assert Traced(c, pid, false) == up && Traced(up, pid, false) == up2;
    assert Detached(up, pid) == c[pid := n] == c && Detached(up2, pid) == up;
    TwoActs(c, Take(pid, false), Give(pid));
    TwoActs(up, Take(pid, false), Give(pid));
    var three := [Take(pid, false), Take(pid, false), Give(pid)];
    assert three[1..] == [Take(pid, false), Give(pid)];
  }

  lemma TwoActs(c: Counter, a: Act, b: Act)
    ensures AfterActs(c, [a, b]) == Apply(Apply(c, a), b)
  {
    assert [a, b][1..] == [b];
    OneAct(Apply(c, a), b);
  }

  lemma {:induction false} EntriesKeepCount<T>(
    c: Counter, pid: int, es: seq<Entry<T>>, detect: Path, new_: Path, early: bool)
    requires pid in c && 1 <= c[pid] <= I32_MAX - 3
    ensures var more := if Matching(es, detect, new_) != [] then 1 else 0;
      AfterActs(c, EntriesActs(pid, es, detect, new_, early)) == c[pid := c[pid] + more]
  {
    hide EntryActs, Rebased;
    if es == [] {
      assert c[pid := c[pid]] == c;
    } else {
      var front, e := es[..|es| - 1], es[|es| - 1];
      var first := Matching(front, detect, new_) == [];
      EntriesKeepCount(c, pid, front, detect, new_, early);
      var mid := AfterActs(c, EntriesActs(pid, front, detect, new_, early));
      EntryKeepsCount(mid, pid, e, detect, new_, early, first);
      AfterBoth(c, EntriesActs(pid, front, detect, new_, early), EntryActs(pid, e, detect, new_, early, first));
    }
  }

  /** Done with one process: one more handle if it has a match, none otherwise. */
  lemma ProcessGainsOne<T>(c: Counter, p: Process<T>, detect: Path, new_: Path, early: bool)
    requires p.pid in c ==> 1 <= c[p.pid] <= I32_MAX - 4
    ensures var more := if Wanted(c, p, detect, new_) != [] then 1 else 0;
      Count(AfterActs(c, ProcessActs(c, p, detect, new_, early)), p.pid) == Count(c, p.pid) + more
  {
    hide EntriesActs;
    var pid := p.pid;
    if pid !in c && !p.attaches {
      OneAct(c, Take(pid, false));
    } else {
      var c1 := Traced(c, pid, p.attaches);
      var inner := if p.entries.Some? then EntriesActs(pid, p.entries.value, detect, new_, early) else [];
      if p.entries.Some? {
        EntriesKeepCount(c1, pid, p.entries.value, detect, new_, early);
      }
      OneAct(c, Take(pid, p.attaches));
      AfterBoth(c, [Take(pid, p.attaches)], inner);
      AfterBoth(c, [Take(pid, p.attaches)] + inner, [Give(pid)]);
      OneAct(AfterActs(c1, inner), Give(pid));
    }
  }

  lemma OneAct(c: Counter, a: Act)
    ensures AfterActs(c, [a]) == Apply(c, a)
  {
  }

  /** In `all`, in whatever order the lazy pipeline does it, each process gets its own acts and nobody else any. */
  ghost predicate Runs<T>(all: seq<Act>, c: Counter, ps: seq<Process<T>>, detect: Path, new_: Path, early: bool) {
    && (forall i :: 0 <= i < |ps| ==> Acts(all, ps[i].pid) == ProcessActs(c, ps[i], detect, new_, early))
    && (forall pid :: (forall i :: 0 <= i < |ps| ==> ps[i].pid != pid) ==> Acts(all, pid) == [])
  }

  /** Each prepared process ends with exactly one more live handle than before, and every other with as many. */
  lemma PreparedGainsOneHandle<T>(
    all: seq<Act>, c: Counter, ps: seq<Process<T>>, detect: Path, new_: Path, early: bool, pid: int)
    requires DistinctPids(ps) && Runs(all, c, ps, detect, new_, early)
    requires forall q :: q in c ==> 1 <= c[q] <= I32_MAX - 4
    ensures Count(AfterActs(c, all), pid) ==
      Count(c, pid) + if pid in Prepared(c, ps, detect, new_) then 1 else 0
  {
    hide ProcessActs, Prepared, Wanted;
    PrepareLosesNothing(c, ps, detect, new_);
    OthersDoNotMatter(c, c, all, pid);
    if i :| 0 <= i < |ps| && ps[i].pid == pid {
      ProcessGainsOne(c, ps[i], detect, new_, early);
    }
  }
}
