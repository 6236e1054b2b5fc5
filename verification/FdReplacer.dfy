/** src/replacer/fd_replacer.rs: building the case table, and what running the loop over it does. */
module FdReplacer {
  import opened Bytes
  import opened Kernel
  import opened Machine
  import opened Layout
  import opened Reopening
  import opened Selections
  import FdLoop

  datatype RawCase = RawCase(fd: u64, pathOffset: u64)

  /** What a case asks for: move `fd` to `path`. */
  datatype Job = Job(fd: u64, path: seq<byte>)

  function Words(cases: seq<RawCase>): (w: seq<u64>)
    ensures |w| == 2 * |cases|
    ensures forall i :: 0 <= i < |cases| ==> w[2 * i] == cases[i].fd && w[2 * i + 1] == cases[i].pathOffset
  {
    if cases == [] then []
    else
      var n := |cases| - 1;
      Words(cases[..n]) + [cases[n].fd, cases[n].pathOffset]
  }

  /** Every offset in the table is the start of a terminated path. */
  predicate Tidy(cases: seq<RawCase>, blob: seq<byte>) {
    forall i :: 0 <= i < |cases| ==> Starts(blob, cases[i].pathOffset)
  }

  /** The jobs that a table and its path blob stand for. */
  function Jobs(cases: seq<RawCase>, blob: seq<byte>): (jobs: seq<Job>)
    requires Tidy(cases, blob)
    ensures |jobs| == |cases|
  {
    seq(|cases|, i requires 0 <= i < |cases| => Job(cases[i].fd, TextAt(blob, cases[i].pathOffset)))
  }

  lemma JobsExtend(cases: seq<RawCase>, blob: seq<byte>, fd: u64, path: seq<byte>)
    requires Tidy(cases, blob) && |blob| < U64_SIZE
    ensures var cases', blob' := cases + [RawCase(fd, |blob|)], blob + path + [0];
      Tidy(cases', blob') && Jobs(cases', blob') == Jobs(cases, blob) + [Job(fd, UpToNul(path))]
  {
    hide Starts, TextAt;
    var cases', blob' := cases + [RawCase(fd, |blob|)], blob + path + [0];
    assert blob' == blob + (path + [0]);
    forall i | 0 <= i < |cases|
      ensures Starts(blob', cases'[i].pathOffset)
      ensures TextAt(blob', cases'[i].pathOffset) == TextAt(blob, cases[i].pathOffset)
    {
      TextSurvives(blob, path + [0], cases[i].pathOffset);
    }
    TextPushed(blob, path);
    assert forall i :: 0 <= i < |cases| ==> Jobs(cases', blob')[i] == Jobs(cases, blob)[i];
  }

  class ProcessAccessorBuilder {
    var cases: seq<RawCase>
    var newPaths: seq<byte>

    ghost predicate Valid()
      reads this
    {
      Tidy(cases, newPaths)
    }

    ghost function Contents(): seq<Job>
      reads this
      requires Valid()
    {
      Jobs(cases, newPaths)
    }

    constructor ()
      ensures Valid() && Contents() == [] && newPaths == []
    {
      cases := [];
      newPaths := [];
    }

    /** A path that is not UTF-8 is refused; the cursor of the blob is always at its end. */
    method PushCase(fd: u64, path: OsPath) returns (ok: bool)
      requires Valid() && (path.utf8 ==> |newPaths| + |path.bytes| + 1 < U64_SIZE)
      modifies this
      ensures Valid() && ok == path.utf8
      ensures Contents() == old(Contents()) + if ok then [Job(fd, UpToNul(path.bytes))] else []
      ensures |newPaths| == old(|newPaths|) + if ok then |path.bytes| + 1 else 0
    {
      ok := path.utf8;
      if !ok {
        return;
      }
      var offset := |newPaths|;
      JobsExtend(cases, newPaths, fd, path.bytes);
      newPaths := newPaths + path.bytes + [0];
      cases := cases + [RawCase(fd, offset)];
    }
  }

  // ----- collecting an iterator -----

  /** What the paths that are pushed take in the blob. */
  function PathBytes(items: seq<(u64, OsPath)>): nat {
    if items == [] then 0
    else
      var path := items[|items| - 1].1;
      PathBytes(items[..|items| - 1]) + if path.utf8 then |path.bytes| + 1 else 0
  }

  /** The jobs of the items whose path is UTF-8, in order. */
  function Pushable(items: seq<(u64, OsPath)>): seq<Job> {
    if items == [] then []
    else
      var (fd, path) := items[|items| - 1];
      Pushable(items[..|items| - 1]) + if path.utf8 then [Job(fd, UpToNul(path.bytes))] else []
  }

  predicate IsUtf8(item: (u64, OsPath)) {
    item.1.utf8
  }

  /** Each job has the descriptor and the path of its item. */
  ghost predicate EachFrom(jobs: seq<Job>, items: seq<(u64, OsPath)>, idx: seq<int>) {
    && |jobs| == |idx|
    && forall k :: 0 <= k < |idx| ==>
        0 <= idx[k] < |items| && jobs[k] == Job(items[idx[k]].0, UpToNul(items[idx[k]].1.bytes))
  }

  /** The jobs are those of the items that `idx` selects. */
  ghost predicate JobsOf(jobs: seq<Job>, items: seq<(u64, OsPath)>, idx: seq<int>) {
    Selects(idx, items, IsUtf8) && EachFrom(jobs, items, idx)
  }

  lemma EachFromMore(jobs: seq<Job>, items: seq<(u64, OsPath)>, idx: seq<int>)
    requires items != [] && EachFrom(jobs, items[..|items| - 1], idx)
    ensures var n, item := |items| - 1, items[|items| - 1];
      EachFrom(jobs, items, idx) && EachFrom(jobs + [Job(item.0, UpToNul(item.1.bytes))], items, idx + [n])
  {
    hide UpToNul;
    var front := items[..|items| - 1];
    forall k | 0 <= k < |idx|
      ensures 0 <= idx[k] < |items| && jobs[k] == Job(items[idx[k]].0, UpToNul(items[idx[k]].1.bytes))
    {
      assert front[idx[k]] == items[idx[k]];
    }
  }

  lemma JobsOneMore(jobs: seq<Job>, items: seq<(u64, OsPath)>, idx: seq<int>)
    requires items != [] && JobsOf(jobs, items[..|items| - 1], idx)
    ensures var n, item := |items| - 1, items[|items| - 1];
      if IsUtf8(item) then JobsOf(jobs + [Job(item.0, UpToNul(item.1.bytes))], items, idx + [n])
      else JobsOf(jobs, items, idx)
  {
    hide UpToNul, Selects, EachFrom;
    SelectsOneMore(idx, items, IsUtf8);
    EachFromMore(jobs, items, idx);
  }

  /** Every item with a UTF-8 path becomes a job, whatever its descriptor, and no other item does. */
  lemma {:induction false} PushableIsExact(items: seq<(u64, OsPath)>) returns (idx: seq<int>)
    ensures JobsOf(Pushable(items), items, idx)
  {
    idx := [];
    if items != [] {
      hide JobsOf, UpToNul;
      idx := PushableIsExact(items[..|items| - 1]);
      JobsOneMore(Pushable(items[..|items| - 1]), items, idx);
      if IsUtf8(items[|items| - 1]) {
        idx := idx + [|items| - 1];
      }
    }
  }

  method FromIter(items: seq<(u64, OsPath)>) returns (builder: ProcessAccessorBuilder, ghost idx: seq<int>)
    requires PathBytes(items) < U64_SIZE
    ensures fresh(builder) && builder.Valid() && builder.Contents() == Pushable(items)
    ensures JobsOf(builder.Contents(), items, idx)
    ensures |builder.cases| == |idx| <= |items| && |builder.newPaths| == PathBytes(items)
  {
    builder := new ProcessAccessorBuilder();
    for i := 0 to |items|
      invariant builder.Valid() && fresh(builder)
      invariant builder.Contents() == Pushable(items[..i])
      invariant |builder.newPaths| == PathBytes(items[..i]) <= PathBytes(items)
      invariant |builder.cases| == |builder.Contents()| <= i
    {
      var (fd, path) := items[i];
      assert items[..i + 1][..i] == items[..i];
      PathBytesGrow(items, i + 1);
      var ok := builder.PushCase(fd, path);
    }
    assert items[..|items|] == items;
    idx := PushableIsExact(items);
  }

  lemma {:induction false} PathBytesGrow(items: seq<(u64, OsPath)>, i: nat)
    requires i <= |items|
    ensures PathBytes(items[..i]) <= PathBytes(items)
  {
    if i < |items| {
      var front := items[..|items| - 1];
      PathBytesGrow(front, i);
      assert front[..i] == items[..i];
    } else {
      assert items[..i] == items;
    }
  }

  // ----- the image in the traced process -----

  /** The table, the paths and the loop, generated for the address `base`. */
  datatype Image = Image(base: u64, cases: seq<RawCase>, blob: seq<byte>)

  ghost predicate Fits(img: Image) {
    && Tidy(img.cases, img.blob)
    && img.base + 16 * |img.cases| + 8 + |img.blob| + 2 <= USER_TOP
  }

  /** The static data does not depend on the address it is generated for. */
  function CaseBytes(cases: seq<RawCase>, blob: seq<byte>): (d: seq<byte>)
    requires 16 * |cases| < U64_SIZE
    ensures |d| == 16 * |cases| + 8 + |blob| + 2
  {
    StaticData(Packed(Words(cases)), blob)
  }

  function Data(img: Image): (d: seq<byte>)
    requires Fits(img)
    ensures |d| == 16 * |img.cases| + 8 + |img.blob| + 2
  {
    CaseBytes(img.cases, img.blob)
  }

  function Loop(img: Image): Program
    requires Fits(img)
  {
    var n := 16 * |img.cases|;
    Program(FdLoop.Code(), img.base, img.base + n, img.base + n + 8, img.base + |Data(img)|)
  }

  /** What the loop reads for case `i` is what the builder pushed. */
  lemma CaseData(img: Image, m: Memory, i: nat)
    requires Fits(img) && HoldsAt(m, img.base, Data(img)) && i < |img.cases|
    ensures var at := img.base + 16 * i;
      && Mapped(m, at, 8) && ReadWord(m, at) == img.cases[i].fd
      && Mapped(m, at + 8, 8) && ReadWord(m, at + 8) == img.cases[i].pathOffset
    ensures var path := Jobs(img.cases, img.blob)[i].path;
      ReadCStr(m, Loop(img).newPaths + img.cases[i].pathOffset, PATH_MAX)
      == if |path| < PATH_MAX then Text(path) else TooLong
  {
    hide HoldsAt, Mapped, ReadWord, ReadCStr, TextAt, Packed;
    var words := Words(img.cases);
    StaticParts(m, img.base, Packed(words), img.blob);
    PackedWord(m, img.base, words, 2 * i);
    PackedWord(m, img.base, words, 2 * i + 1);
    BlobRead(m, Loop(img).newPaths, img.blob, img.cases[i].pathOffset, PATH_MAX);
  }

  lemma TableLength(img: Image, m: Memory)
    requires Fits(img) && HoldsAt(m, img.base, Data(img))
    ensures var p := Loop(img); Mapped(m, p.casesLength, 8) && ReadWord(m, p.casesLength) == 16 * |img.cases|
  {
    StaticParts(m, img.base, Packed(Words(img.cases)), img.blob);
  }

  // ----- the whole run -----

  function ReopenAll(o: Oracle, k: World, jobs: seq<Job>): World
    decreases |jobs|
  {
    if jobs == [] then k
    else ReopenAll(o, Reopen(o, k, jobs[0].fd, jobs[0].path), jobs[1..])
  }

  /** The loop test, with `i` cases done. */
  ghost predicate AtTest(e: Execution, o: Oracle, img: Image, i: nat)
    requires Fits(img)
  {
    && e.p == Loop(img) && e.kernel == Linux(o) && Reached(e)
    && i <= |img.cases| && HoldsAt(e.now.mem, img.base, Data(img)) && WellFormed(e.now.world)
    && e.now.status == Running && e.now.pc == FdLoop.END
    && Get(e.now.regs, R14) == img.base && Get(e.now.regs, R15) == 16 * i
  }

  /** One more turn: case `i` is reopened. */
  lemma OneTurn(e: Execution, o: Oracle, img: Image, i: nat) returns (t: Execution)
    requires Fits(img) && i < |img.cases| && AtTest(e, o, img, i)
    ensures AtTest(t, o, img, i + 1) && t == e.(steps := e.steps + 33, now := t.now)
    ensures t.now.mem == e.now.mem && Get(t.now.regs, RSP) == Get(e.now.regs, RSP)
    ensures var job := Jobs(img.cases, img.blob)[i]; t.now.world == Reopen(o, e.now.world, job.fd, job.path)
  {
    hide Reached, ReadWord, Mapped, Get, HoldsAt, ReadCStr, Data, FdLoop.Code, Starts;
    TableLength(img, e.now.mem);
    var e1 := FdLoop.HeadPart(e);
    CaseData(img, e.now.mem, i);
    var job := Jobs(img.cases, img.blob)[i];
    t := FdLoop.Turn(e1, o, img.base + 16 * i, job.fd, img.cases[i].pathOffset, job.path);
    ReopenKeepsWellFormed(o, e1.now.world, job.fd, job.path);
  }

  /** All cases done: the loop falls through to the trap. */
  lemma LastTest(e: Execution, o: Oracle, img: Image) returns (t: Execution)
    requires Fits(img) && AtTest(e, o, img, |img.cases|)
    ensures Reached(t) && t == e.(steps := e.steps + 4, now := t.now) && t.now.status == Trapped
    ensures t.now.mem == e.now.mem && t.now.world == e.now.world && Get(t.now.regs, RSP) == Get(e.now.regs, RSP)
  {
    hide Reached, ReadWord, Mapped, Get, HoldsAt, Data, FdLoop.Code, Tidy;
    TableLength(img, e.now.mem);
    FdLoop.HeadCode();
    var e1 := FdLoop.HeadPart(e);
    t := e1.DoInt3();
  }

  lemma {:induction false} RestOfLoop(e: Execution, o: Oracle, img: Image, i: nat) returns (t: Execution)
    requires Fits(img) && i <= |img.cases| && AtTest(e, o, img, i)
    ensures Reached(t) && t == e.(steps := e.steps + 33 * (|img.cases| - i) + 4, now := t.now)
    ensures t.now.status == Trapped && t.now.mem == e.now.mem && Get(t.now.regs, RSP) == Get(e.now.regs, RSP)
    ensures t.now.world == ReopenAll(o, e.now.world, Jobs(img.cases, img.blob)[i..])
    decreases |img.cases| - i
  {
    hide Reached, AtTest, Reopen, Get;
    var jobs := Jobs(img.cases, img.blob);
    if i < |img.cases| {
      var e1 := OneTurn(e, o, img, i);
      t := RestOfLoop(e1, o, img, i + 1);
      assert jobs[i..][1..] == jobs[i + 1..];
    } else {
      t := LastTest(e, o, img);
    }
  }

  lemma EntryCode()
    ensures FdLoop.Code()[0] == XorSelf(R15)
    ensures FdLoop.Code()[1] == Lea(R14, Cases)
    ensures FdLoop.Code()[2] == Jmp(FdLoop.END)
  {
  }

  /**
    The emitted loop, entered with the static data in place, stops at its trap after exactly `LoopSteps`
    instructions. By then every case has been reopened in order; memory and the stack pointer are as before.
   */
  lemma FdLoopReopensAll(o: Oracle, img: Image, s: State)
    requires Fits(img) && HoldsAt(s.mem, img.base, Data(img)) && WellFormed(s.world)
    requires s.status == Running && s.pc == 0
    ensures var t := Run(Loop(img), Linux(o), s, LoopSteps(|img.cases|));
      && t.status == Trapped && t.mem == s.mem && Get(t.regs, RSP) == Get(s.regs, RSP)
      && t.world == ReopenAll(o, s.world, Jobs(img.cases, img.blob))
  {
    var e := Execution(Loop(img), Linux(o), s, 0, s);
    var t := FromEntry(e, o, img);
  }

  lemma FromEntry(e: Execution, o: Oracle, img: Image) returns (t: Execution)
    requires Fits(img) && e.p == Loop(img) && e.kernel == Linux(o) && Reached(e)
    requires HoldsAt(e.now.mem, img.base, Data(img)) && WellFormed(e.now.world)
    requires e.now.status == Running && e.now.pc == 0
    ensures Reached(t) && t == e.(steps := e.steps + LoopSteps(|img.cases|), now := t.now)
    ensures t.now.status == Trapped && t.now.mem == e.now.mem && Get(t.now.regs, RSP) == Get(e.now.regs, RSP)
    ensures t.now.world == ReopenAll(o, e.now.world, Jobs(img.cases, img.blob))
  {
    hide Reached, Get, HoldsAt, Data, FdLoop.Code, Tidy, WellFormed;
    EntryCode();
    var e1 := e.DoXorSelf(R15);
    var e2 := e1.DoLea(R14, Cases);
    var e3 := e2.DoJmp(FdLoop.END);
    t := RestOfLoop(e3, o, img, 0);
    assert Jobs(img.cases, img.blob)[0..] == Jobs(img.cases, img.blob);
  }

  // ----- the descriptor table afterwards -----

  lemma LowestFreeByKeys(f: map<nat, nat>, g: map<nat, nat>)
    requires f.Keys == g.Keys
    ensures LowestFree(f, 0) == LowestFree(g, 0)
  {
    var a, b := LowestFree(f, 0), LowestFree(g, 0);
    assert forall i :: i in f <==> i in f.Keys;
    assert forall i :: i in g <==> i in g.Keys;
    assert a < b ==> a in g;
    assert b < a ==> b in f;
  }

  predicate DistinctOpen(k: World, jobs: seq<Job>) {
    && (forall i :: 0 <= i < |jobs| ==> Low(jobs[i].fd) in k.fds)
    && (forall i, j :: 0 <= i < j < |jobs| ==> Low(jobs[i].fd) != Low(jobs[j].fd))
  }

  /**
    Descriptor `fd` was moved between `k` and `t`: new path, old status flags, old position, its own
    description, and no longer closed by an exec.
   */
  ghost predicate Moved(k: World, t: World, fd: nat, path: seq<byte>, seekable: bool)
    requires fd in k.fds && k.fds[fd] < |k.files|
  {
    var was := k.files[k.fds[fd]];
    && fd in t.fds && |k.files| <= t.fds[fd] < |t.files| && fd !in t.cloexec
    && t.files[t.fds[fd]] == File(path, was.flags, seekable, if was.seekable && seekable then was.pos else 0)
    && (forall g :: g in t.fds && g != fd ==> t.fds[g] != t.fds[fd])
  }

  ghost predicate Untouched(k: World, t: World, fd: nat) {
    fd in k.fds && fd in t.fds && t.fds[fd] == k.fds[fd] && (fd in t.cloexec <==> fd in k.cloexec)
  }

  /** What became of job `i`, whose open is call number `k.opens + i`. */
  ghost predicate Settled(o: Oracle, k: World, t: World, jobs: seq<Job>, i: nat)
    requires WellFormed(k) && DistinctOpen(k, jobs) && i < |jobs|
  {
    var fd, call := Low(jobs[i].fd), k.opens + i;
    if Opens(o, k, jobs[i].path, call) then Moved(k, t, fd, jobs[i].path, o.open(call).seekable)
    else Untouched(k, t, fd)
  }

  predicate Spared(jobs: seq<Job>, fd: nat) {
    forall i :: 0 <= i < |jobs| ==> Low(jobs[i].fd) != fd
  }

  /**
    The same descriptors are open, no old description has changed, each job is settled by its own
    open call, and every other descriptor is untouched.
   */
  ghost predicate Accounted(o: Oracle, k: World, t: World, jobs: seq<Job>)
    requires WellFormed(k) && DistinctOpen(k, jobs)
  {
    && t.fds.Keys == k.fds.Keys && k.files <= t.files
    && (t.limit, t.cwd, t.opens) == (k.limit, k.cwd, k.opens + |jobs|)
    && (forall i :: 0 <= i < |jobs| ==> Settled(o, k, t, jobs, i))
    && (forall fd :: fd in k.fds && Spared(jobs, fd) ==> Untouched(k, t, fd))
  }

  /** For any jobs at all, also repeated ones or ones on closed descriptors: what no job names is left alone. */
  lemma {:induction false} ReopenAllSparesOthers(o: Oracle, k: World, jobs: seq<Job>)
    requires WellFormed(k)
    ensures var t := ReopenAll(o, k, jobs);
      && k.files <= t.files && k.fds.Keys <= t.fds.Keys
      && (forall fd :: Spared(jobs, fd) ==> (fd in t.fds <==> fd in k.fds) && (fd in k.fds ==> t.fds[fd] == k.fds[fd]))
      && ((forall i :: 0 <= i < |jobs| ==> Low(jobs[i].fd) in k.fds) ==> t.fds.Keys == k.fds.Keys)
    decreases |jobs|
  {
    hide LowestFree;
    if jobs != [] {
      var rest := jobs[1..];
      ReopenKeepsWellFormed(o, k, jobs[0].fd, jobs[0].path);
      ReopenAllSparesOthers(o, Reopen(o, k, jobs[0].fd, jobs[0].path), rest);
      assert forall fd :: Spared(jobs, fd) ==> Spared(rest, fd) && Low(jobs[0].fd) != fd;
    }
  }

  /** Job `i` names a closed descriptor that its open, which succeeds, does not hit by itself. */
  predicate Adds(o: Oracle, k: World, jobs: seq<Job>, i: nat)
    requires i < |jobs|
  {
    var fd := Low(jobs[i].fd);
    && Opens(o, k, jobs[i].path, k.opens + i)
    && fd !in k.fds && fd != LowestFree(k.fds, 0) && fd < k.limit
  }

  lemma ReopenAddsIff(o: Oracle, k: World, jobs: seq<Job>)
    requires WellFormed(k) && jobs != []
    ensures var k1 := Reopen(o, k, jobs[0].fd, jobs[0].path);
      && k1.opens == k.opens + 1 && k1.limit == k.limit
      && (Adds(o, k, jobs, 0) ==> Low(jobs[0].fd) in k1.fds.Keys - k.fds.Keys)
      && (!Adds(o, k, jobs, 0) ==> k1.fds.Keys == k.fds.Keys)
  {
    hide LowestFree;
  }

  /**
    No descriptor is left over exactly when no job adds one, judged by the table before the first job: a
    leftover means that some case named a descriptor that was not open.
   */
  lemma {:induction false} ReopenAllAddsNoneIff(o: Oracle, k: World, jobs: seq<Job>)
    requires WellFormed(k)
    ensures ReopenAll(o, k, jobs).fds.Keys == k.fds.Keys <==> forall i :: 0 <= i < |jobs| ==> !Adds(o, k, jobs, i)
    decreases |jobs|
  {
    if jobs != [] {
      hide LowestFree, Reopen, Adds, WellFormed;
      var k1, rest := Reopen(o, k, jobs[0].fd, jobs[0].path), jobs[1..];
      ReopenKeepsWellFormed(o, k, jobs[0].fd, jobs[0].path);
      ReopenAddsIff(o, k, jobs);
      ReopenAllSparesOthers(o, k1, rest);
      if !Adds(o, k, jobs, 0) {
        ReopenAllAddsNoneIff(o, k1, rest);
        forall i | 0 <= i < |rest| ensures Adds(o, k, jobs, i + 1) <==> Adds(o, k1, rest, i) {
          AddsLater(o, k, k1, jobs, i);
        }
        assert forall i :: 0 < i < |jobs| ==> (Adds(o, k, jobs, i) <==> Adds(o, k1, rest, i - 1));
      }
    }
  }

  /** It happens: a case that names a closed descriptor leaves it open. */
  lemma ClosedCaseLeavesDescriptor(o: Oracle)
    requires o.open(0).Opened?
    ensures exists k, jobs :: WellFormed(k) && ReopenAll(o, k, jobs).fds.Keys != k.fds.Keys
  {
    var k, jobs := World(map[], {}, [], 8, [], 0, 0, 0), [Job(5, [])];
    assert Low(5) == 5 && LowestFree(k.fds, 0) == 0;
    assert Adds(o, k, jobs, 0);
    ReopenAllAddsNoneIff(o, k, jobs);
  }

  lemma AddsLater(o: Oracle, k: World, k1: World, jobs: seq<Job>, i: nat)
    requires i + 1 < |jobs| && k1.fds.Keys == k.fds.Keys && k1.opens == k.opens + 1 && k1.limit == k.limit
    ensures Adds(o, k, jobs, i + 1) <==> Adds(o, k1, jobs[1..], i)
  {
    LowestFreeByKeys(k.fds, k1.fds);
    assert Low(jobs[i + 1].fd) in k.fds.Keys <==> Low(jobs[i + 1].fd) in k1.fds.Keys;
  }

  /** Different items name different descriptors, all of them open. */
  ghost predicate ItemsOpen(k: World, items: seq<(u64, OsPath)>) {
    && (forall i :: 0 <= i < |items| && IsUtf8(items[i]) ==> Low(items[i].0) in k.fds)
    && (forall i, j :: 0 <= i < j < |items| && IsUtf8(items[i]) && IsUtf8(items[j]) ==> Low(items[i].0) != Low(items[j].0))
  }

  /** No UTF-8 item names `fd`. */
  predicate NotNamed(items: seq<(u64, OsPath)>, fd: nat) {
    forall i :: 0 <= i < |items| && IsUtf8(items[i]) ==> Low(items[i].0) != fd
  }

  /** What became of the item that `idx` selects as number `j`: its open is call number `k.opens + j`. */
  ghost predicate ItemSettled(o: Oracle, k: World, t: World, items: seq<(u64, OsPath)>, idx: seq<int>, j: nat)
    requires WellFormed(k) && j < |idx| && 0 <= idx[j] < |items| && Low(items[idx[j]].0) in k.fds
  {
    var fd, path, call := Low(items[idx[j]].0), UpToNul(items[idx[j]].1.bytes), k.opens + j;
    if Opens(o, k, path, call) then Moved(k, t, fd, path, o.open(call).seekable) else Untouched(k, t, fd)
  }

  /**
    The outcome, told by the items: those with a UTF-8 path are opened in order and moved if that succeeds, and
    every other descriptor is untouched.
   */
  ghost predicate ItemsAccounted(o: Oracle, k: World, t: World, items: seq<(u64, OsPath)>, idx: seq<int>)
    requires WellFormed(k) && ItemsOpen(k, items)
  {
    && Selects(idx, items, IsUtf8) && t.fds.Keys == k.fds.Keys && k.files <= t.files
    && (forall j :: 0 <= j < |idx| ==>
          && 0 <= idx[j] < |items| && Low(items[idx[j]].0) in k.fds && ItemSettled(o, k, t, items, idx, j))
    && (forall fd :: fd in k.fds && NotNamed(items, fd) ==> Untouched(k, t, fd))
  }

  lemma JobsOpen(k: World, items: seq<(u64, OsPath)>, jobs: seq<Job>, idx: seq<int>)
    requires ItemsOpen(k, items) && JobsOf(jobs, items, idx)
    ensures DistinctOpen(k, jobs)
  {
    forall i | 0 <= i < |jobs| ensures IsUtf8(items[idx[i]]) { assert idx[i] in idx; }
  }

  lemma AccountedItems(o: Oracle, k: World, t: World, items: seq<(u64, OsPath)>, jobs: seq<Job>, idx: seq<int>)
    requires WellFormed(k) && ItemsOpen(k, items) && JobsOf(jobs, items, idx)
    requires DistinctOpen(k, jobs) && Accounted(o, k, t, jobs)
    ensures ItemsAccounted(o, k, t, items, idx)
  {
    hide Moved, Untouched, Opens, WellFormed;
    forall j | 0 <= j < |idx|
      ensures 0 <= idx[j] < |items| && Low(items[idx[j]].0) in k.fds && ItemSettled(o, k, t, items, idx, j)
    {
      assert idx[j] in idx;
      assert Settled(o, k, t, jobs, j);
    }
    forall fd | fd in k.fds && NotNamed(items, fd) ensures Untouched(k, t, fd) {
      forall j | 0 <= j < |jobs| ensures Low(jobs[j].fd) != fd { assert idx[j] in idx; }
      assert Spared(jobs, fd);
    }
  }

  lemma {:induction false} TableAfterReopenAll(o: Oracle, k: World, jobs: seq<Job>)
    requires WellFormed(k) && DistinctOpen(k, jobs)
    ensures Accounted(o, k, ReopenAll(o, k, jobs), jobs)
    decreases |jobs|
  {
    if jobs != [] {
      var k1 := Reopen(o, k, jobs[0].fd, jobs[0].path);
      ReopenKeepsWellFormed(o, k, jobs[0].fd, jobs[0].path);
      assert k1.fds.Keys == k.fds.Keys;
      TableAfterReopenAll(o, k1, jobs[1..]);
      LowestFreeByKeys(k.fds, k1.fds);
      OneMoreJob(o, k, k1, ReopenAll(o, k, jobs), jobs);
    }
  }

  /** The first of several jobs has been done. */
  ghost predicate FirstDone(o: Oracle, k: World, k1: World, jobs: seq<Job>) {
    && jobs != [] && WellFormed(k) && WellFormed(k1)
    && DistinctOpen(k, jobs) && DistinctOpen(k1, jobs[1..])
    && k1 == Reopen(o, k, jobs[0].fd, jobs[0].path)
    && k1.fds.Keys == k.fds.Keys && LowestFree(k.fds, 0) == LowestFree(k1.fds, 0)
  }

  /** What the first job leaves as it was. */
  lemma FirstJobSpares(o: Oracle, k: World, k1: World, jobs: seq<Job>)
    requires FirstDone(o, k, k1, jobs)
    ensures k.files <= k1.files && (k1.limit, k1.cwd, k1.opens) == (k.limit, k.cwd, k.opens + 1)
    ensures forall fd :: fd in k.fds && Spared(jobs, fd) ==> Untouched(k, k1, fd) && Spared(jobs[1..], fd)
  {
    hide LowestFree;
  }

  lemma OneMoreJob(o: Oracle, k: World, k1: World, t: World, jobs: seq<Job>)
    requires FirstDone(o, k, k1, jobs) && Accounted(o, k1, t, jobs[1..])
    ensures Accounted(o, k, t, jobs)
  {
    hide Settled, Reopen, LowestFree, DistinctOpen, WellFormed, Spared;
    FirstJobSpares(o, k, k1, jobs);
    forall fd | fd in k.fds && Spared(jobs, fd)
      ensures Untouched(k, t, fd)
    {
      assert Untouched(k1, t, fd);
    }
    forall i | 0 <= i < |jobs|
      ensures Settled(o, k, t, jobs, i)
    {
      if i > 0 { LaterJobs(o, k, k1, t, jobs, i); } else { FirstJob(o, k, k1, t, jobs); }
    }
  }

  lemma LaterJobs(o: Oracle, k: World, k1: World, t: World, jobs: seq<Job>, i: nat)
    requires FirstDone(o, k, k1, jobs) && Accounted(o, k1, t, jobs[1..]) && 0 < i < |jobs|
    ensures Settled(o, k, t, jobs, i)
  {
    hide LowestFree;
    assert jobs[1..][i - 1] == jobs[i];
    assert Settled(o, k1, t, jobs[1..], i - 1);
    var fd := Low(jobs[i].fd);
    assert fd != Low(jobs[0].fd);
    assert k1.fds[fd] == k.fds[fd] && k1.files[k1.fds[fd]] == k.files[k.fds[fd]];
  }

  lemma FirstJob(o: Oracle, k: World, k1: World, t: World, jobs: seq<Job>)
    requires FirstDone(o, k, k1, jobs) && Accounted(o, k1, t, jobs[1..])
    ensures Settled(o, k, t, jobs, 0)
  {
    hide LowestFree;
    var rest := jobs[1..];
    var fd := Low(jobs[0].fd);
    assert Spared(rest, fd);
    assert Untouched(k1, t, fd);
    if Opens(o, k, jobs[0].path, k.opens) {
      forall g | g in t.fds && g != fd
        ensures t.fds[g] != t.fds[fd]
      {
        OtherDescriptor(o, k1, t, rest, g);
        assert g in k1.fds.Keys;
      }
    }
  }

  /** A descriptor keeps its description or gets one that did not exist before. */
  lemma OtherDescriptor(o: Oracle, k: World, t: World, jobs: seq<Job>, g: nat)
    requires WellFormed(k) && DistinctOpen(k, jobs) && Accounted(o, k, t, jobs) && g in t.fds
    ensures g in k.fds && (t.fds[g] == k.fds[g] || t.fds[g] >= |k.files|)
  {
    assert g in t.fds.Keys;
    if Spared(jobs, g) {
      assert Untouched(k, t, g);
    } else {
      var i :| 0 <= i < |jobs| && Low(jobs[i].fd) == g;
      assert Settled(o, k, t, jobs, i);
    }
  }
}
