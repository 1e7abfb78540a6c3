/** Mode 1: a binomial tree of file copies, the copies of one round running in parallel. */
module TreeBroadcast {
  import opened Arith
  import opened Files
  import opened Sums
  import opened Spec
  import opened WindowedCopy

  // ---- one round: tasks that interleave window by window ----

  /** The I/O call number `call` of task number `task` in round `round` fails. */
  datatype Fault = Fault(round: nat, task: nat, call: nat)

  function TaskFaults(faults: set<Fault>, round: nat, task: nat): set<nat> {
    set f | f in faults && f.round == round && f.task == task :: f.call
  }

  /** Where a call of submit_read_write stands; the buffer between its read and its write is private. */
  datatype Phase = Begin | Read | Write(buf: Bytes) | End | Broken
  datatype Task = Task(src: nat, dst: nat, faults: set<nat>, size: nat, window: nat, phase: Phase)

  /** The next system call of one task: window `w` is copied by its calls number 2w and 2w + 1. */
  function Advance(files: seq<Bytes>, t: Task): (seq<Bytes>, Task)
    requires t.src < |files| && t.dst < |files|
  {
    var off := t.window * WINDOW;
    match t.phase
    case Begin =>
      var size := |files[t.src]|;
      (files, t.(size := size, window := 0, phase := if size == 0 then End else Read))
    case Read =>
      if 2 * t.window in t.faults then (files, t.(phase := Broken))
      else if t.size <= off then (files, t)
      else (files, t.(phase := Write(Pread(files[t.src], off, Min(WINDOW, t.size - off)))))
    case Write(buf) =>
      if 2 * t.window + 1 in t.faults then (files, t.(phase := Broken))
      else
        (files[t.dst := Pwrite(files[t.dst], off, buf)],
         t.(window := t.window + 1, phase := if off + WINDOW < t.size then Read else End))
    case End => (files, t)
    case Broken => (files, t)
  }

  predicate Stopped(t: Task) { t.phase.End? || t.phase.Broken? }

  /** The value the call returns. */
  function Result(t: Task): int { if t.phase.Broken? then -1 else t.size }

  /** What a task has done to its output so far, given the files before the round. */
  ghost predicate TaskOk(f0: seq<Bytes>, files: seq<Bytes>, t: Task)
    requires |files| == |f0| && t.src < |f0| && t.dst < |f0|
  {
    var input, done := f0[t.src], t.window * WINDOW;
    && (forall j :: 0 <= j < t.window ==> Survives(t.faults, 0, j))
    && (!t.phase.Begin? ==> t.size == |input|)
    && match t.phase
       case Begin => files[t.dst] == f0[t.dst] && t.window == 0
       case Read => done < |input| && files[t.dst] == Pwrite(f0[t.dst], 0, input[..done])
       case Write(buf) =>
         && 2 * t.window !in t.faults
         && done < |input| && files[t.dst] == Pwrite(f0[t.dst], 0, input[..done])
         && buf == input[done..Min(done + WINDOW, |input|)]
       case End => t.window == Windows(|input|) && files[t.dst] == Pwrite(f0[t.dst], 0, input)
       case Broken =>
         && !Survives(t.faults, 0, t.window)
         && done < |input| && files[t.dst] == Pwrite(f0[t.dst], 0, input[..done])
  }

  /** A task that has stopped has done what a call of submit_read_write on its own does. */
  lemma TaskIsCopy(f0: seq<Bytes>, files: seq<Bytes>, t: Task)
    requires |files| == |f0| && t.src < |f0| && t.dst < |f0| && TaskOk(f0, files, t) && Stopped(t)
    ensures var size := |f0[t.src]|;
            && Result(t) == Returned(size, t.faults, 0) && Got(size, t.faults, 0) <= size
            && files[t.dst] == Copied(f0, t.src, t.dst, Got(size, t.faults, 0))[t.dst]
  {
    var size := |f0[t.src]|;
    CopiesIs(t.faults, 0, Windows(size), t.window);
    assert f0[t.src][..size] == f0[t.src];
  }

  /** The tasks of a round as set up: node i copies to node i + stride. */
  function RoundTasks(stride: nat, nodes: nat, faults: set<Fault>, round: nat): seq<Task>
    requires stride <= nodes
  {
    seq(Min(stride, nodes - stride), i requires 0 <= i < Min(stride, nodes - stride) =>
      Task(i, i + stride, TaskFaults(faults, round, i), 0, 0, Begin))
  }

  /** Senders lie below the stride and receivers at or above it, so no task writes what another one reads
    * or writes. */
  ghost predicate Round(f0: seq<Bytes>, files: seq<Bytes>, tasks: seq<Task>, stride: nat, faults: set<Fault>, round: nat) {
    && |files| == |f0| && |tasks| <= stride && |tasks| + stride <= |f0|
    && (forall i :: 0 <= i < |tasks| ==>
          tasks[i].src == i && tasks[i].dst == i + stride && tasks[i].faults == TaskFaults(faults, round, i))
    && (forall d :: 0 <= d < stride ==> files[d] == f0[d])
    && (forall d :: stride + |tasks| <= d < |f0| ==> files[d] == f0[d])
    && (forall i :: 0 <= i < |tasks| ==> TaskOk(f0, files, tasks[i]))
  }

  lemma CopiesMore(f: Bytes, input: Bytes, k: nat, hi: nat)
    requires k <= hi <= |input|
    ensures Pwrite(Pwrite(f, 0, input[..k]), k, input[k..hi]) == Pwrite(f, 0, input[..hi])
    ensures hi == |input| ==> input[..hi] == input
  {
    PwriteAppend(f, input[..k], input[k..hi]);
    assert input[..k] + input[k..hi] == input[..hi];
  }

  lemma CopiesNothing(f: Bytes, input: Bytes)
    ensures Pwrite(f, 0, input[..0]) == f && (input == [] ==> Pwrite(f, 0, input) == f)
  {
  }

  lemma AdvanceOk(f0: seq<Bytes>, files: seq<Bytes>, t: Task)
    requires |files| == |f0| && t.src < |f0| && t.dst < |f0| && t.src != t.dst
    requires files[t.src] == f0[t.src] && TaskOk(f0, files, t)
    ensures var (files', t') := Advance(files, t);
            && TaskOk(f0, files', t') && files' == files[t.dst := files'[t.dst]]
            && t'.src == t.src && t'.dst == t.dst && t'.faults == t.faults
  {
    hide Pwrite;
    var input, done := f0[t.src], t.window * WINDOW;
    if t.phase.Write? {
      CopiesMore(f0[t.dst], input, done, Min(done + WINDOW, |input|));
    } else if t.phase.Begin? {
      CopiesNothing(f0[t.dst], input);
    }
  }

  lemma TaskFrame(f0: seq<Bytes>, files: seq<Bytes>, files': seq<Bytes>, t: Task)
    requires |files| == |files'| == |f0| && t.src < |f0| && t.dst < |f0| && files[t.dst] == files'[t.dst]
    requires TaskOk(f0, files, t)
    ensures TaskOk(f0, files', t)
  {
  }

  /** Whichever task moves next, the round stays race-free. */
  lemma RoundStep(f0: seq<Bytes>, files: seq<Bytes>, tasks: seq<Task>, stride: nat, faults: set<Fault>, round: nat, i: nat)
    requires Round(f0, files, tasks, stride, faults, round) && i < |tasks|
    ensures var (files', t') := Advance(files, tasks[i]); Round(f0, files', tasks[i := t'], stride, faults, round)
  {
    hide Advance, TaskOk, TaskFaults;
    AdvanceOk(f0, files, tasks[i]);
    var (files', t') := Advance(files, tasks[i]);
    forall k | 0 <= k < |tasks| && k != i ensures TaskOk(f0, files', tasks[k]) {
      TaskFrame(f0, files, files', tasks[k]);
    }
  }

  /** What node d holds after a round: receivers what their own copy has delivered, the others what they had. */
  ghost function AfterCopy(f0: seq<Bytes>, stride: nat, faults: set<Fault>, round: nat, d: nat): Bytes
    requires stride <= d < |f0| && d < 2 * stride
  {
    var input, bad := f0[d - stride], TaskFaults(faults, round, d - stride);
    Copied(f0, d - stride, d, Min(Got(|input|, bad, 0), |input|))[d]
  }

  ghost function AfterRound(f0: seq<Bytes>, stride: nat, count: nat, faults: set<Fault>, round: nat): seq<Bytes>
    requires count <= stride && count + stride <= |f0|
  {
    seq(|f0|, d requires 0 <= d < |f0| =>
      if stride <= d < stride + count then AfterCopy(f0, stride, faults, round, d) else f0[d])
  }

  lemma RoundDone(f0: seq<Bytes>, files: seq<Bytes>, tasks: seq<Task>, stride: nat, faults: set<Fault>, round: nat)
    requires Round(f0, files, tasks, stride, faults, round) && forall i :: 0 <= i < |tasks| ==> Stopped(tasks[i])
    ensures files == AfterRound(f0, stride, |tasks|, faults, round)
    ensures Reported(tasks) == RoundReport(f0, |tasks|, faults, round)
  {
    hide TaskOk, AfterCopy, Returned, Result, TaskFaults;
    var g := AfterRound(f0, stride, |tasks|, faults, round);
    forall i | 0 <= i < |tasks|
      ensures Result(tasks[i]) == Returned(|f0[i]|, TaskFaults(faults, round, i), 0)
    {
      TaskIsCopy(f0, files, tasks[i]);
    }
    forall d | stride <= d < stride + |tasks| ensures files[d] == AfterCopy(f0, stride, faults, round, d) {
      CopyDone(f0, files, tasks[d - stride], stride, faults, round);
    }
    assert |files| == |g| && forall d :: 0 <= d < |g| ==> files[d] == g[d];
    SameReport(f0, tasks, faults, round);
  }

  lemma CopyDone(f0: seq<Bytes>, files: seq<Bytes>, t: Task, stride: nat, faults: set<Fault>, round: nat)
    requires |files| == |f0| && stride <= t.dst < |f0| && t.dst < 2 * stride && t.src == t.dst - stride
    requires TaskOk(f0, files, t) && Stopped(t) && t.faults == TaskFaults(faults, round, t.src)
    ensures files[t.dst] == AfterCopy(f0, stride, faults, round, t.dst)
  {
    TaskIsCopy(f0, files, t);
  }

  /** The copies of a round one after another, as a sequential loop of submit_read_write calls would do them. */
  ghost function Sequentially(f0: seq<Bytes>, stride: nat, count: nat, faults: set<Fault>, round: nat): (f: seq<Bytes>)
    requires count <= stride && count + stride <= |f0|
    ensures |f| == |f0|
  {
    if count == 0 then f0
    else
      var f, i := Sequentially(f0, stride, count - 1, faults, round), count - 1;
      Copied(f, i, i + stride, Min(Got(|f[i]|, TaskFaults(faults, round, i), 0), |f[i]|))
  }

  lemma SameCopy(f0: seq<Bytes>, f: seq<Bytes>, stride: nat, faults: set<Fault>, round: nat, i: nat)
    requires i < stride && i + stride < |f0| == |f| && f[i] == f0[i] && f[i + stride] == f0[i + stride]
    ensures Copied(f, i, i + stride, Min(Got(|f[i]|, TaskFaults(faults, round, i), 0), |f[i]|)) ==
            f[i + stride := AfterCopy(f0, stride, faults, round, i + stride)]
  {
    hide Pwrite, Got, TaskFaults;
  }

  /** Every interleaving of a round ends like the sequential loop. */
  lemma {:induction false} RoundIsSequential(f0: seq<Bytes>, stride: nat, count: nat, faults: set<Fault>, round: nat)
    requires count <= stride && count + stride <= |f0|
    ensures AfterRound(f0, stride, count, faults, round) == Sequentially(f0, stride, count, faults, round)
  {
    hide AfterCopy, Got, TaskFaults, Pwrite, Copied, Returned;
    if count > 0 {
      var f, i := AfterRound(f0, stride, count - 1, faults, round), count - 1;
      RoundIsSequential(f0, stride, i, faults, round);
      assert f[i] == f0[i] && f[i + stride] == f0[i + stride];
      var x := AfterCopy(f0, stride, faults, round, i + stride);
      SameCopy(f0, f, stride, faults, round, i);
      assert AfterRound(f0, stride, count, faults, round) == f[i + stride := x];
    }
  }

  function Fuel(size: nat, t: Task): nat {
    var left: nat := if t.window < Windows(size) then Windows(size) - t.window else 0;
    match t.phase
    case Begin => 2 * Windows(size) + 2
    case Read => 2 * left + 1
    case Write(_) => 2 * left
    case End => 0
    case Broken => 0
  }
  ghost function FuelLeft(f0: seq<Bytes>): Task -> nat {
    (t: Task) => Fuel(if t.src < |f0| then |f0[t.src]| else 0, t)
  }

  lemma MoveBurns(f0: seq<Bytes>, files: seq<Bytes>, tasks: seq<Task>, stride: nat, faults: set<Fault>, round: nat, i: nat)
    requires Round(f0, files, tasks, stride, faults, round) && i < |tasks| && !Stopped(tasks[i])
    ensures Total(tasks[i := Advance(files, tasks[i]).1], FuelLeft(f0)) < Total(tasks, FuelLeft(f0))
  {
    hide TaskOk, Advance, Fuel, TaskFaults;
    AdvanceBurns(f0, files, tasks[i]);
    TotalUpdate(tasks, FuelLeft(f0), i, Advance(files, tasks[i]).1);
  }

  lemma AdvanceBurns(f0: seq<Bytes>, files: seq<Bytes>, t: Task)
    requires |files| == |f0| && t.src < |f0| && t.dst < |f0| && files[t.src] == f0[t.src]
    requires TaskOk(f0, files, t) && !Stopped(t)
    ensures Fuel(|f0[t.src]|, Advance(files, t).1) < Fuel(|f0[t.src]|, t) && Advance(files, t).1.src == t.src
  {
    hide Pwrite;
  }

  // ---- what a round reports ----

  /** The reduction over the returned values. */
  function Reported(tasks: seq<Task>): int {
    if tasks == [] then 0 else Reported(tasks[..|tasks| - 1]) + Result(tasks[|tasks| - 1])
  }

  /** The reduction over the values that `count` calls of submit_read_write return. */
  ghost function RoundReport(f0: seq<Bytes>, count: nat, faults: set<Fault>, round: nat): int
    requires count <= |f0|
  {
    if count == 0 then 0
    else RoundReport(f0, count - 1, faults, round) + Returned(|f0[count - 1]|, TaskFaults(faults, round, count - 1), 0)
  }

  lemma {:induction false} SameReport(f0: seq<Bytes>, tasks: seq<Task>, faults: set<Fault>, round: nat)
    requires |tasks| <= |f0|
    requires forall i :: 0 <= i < |tasks| ==> Result(tasks[i]) == Returned(|f0[i]|, TaskFaults(faults, round, i), 0)
    ensures Reported(tasks) == RoundReport(f0, |tasks|, faults, round)
  {
    hide Returned;
    if tasks != [] { SameReport(f0, tasks[..|tasks| - 1], faults, round); }
  }

  /** A copy that delivers a whole input of `size` bytes. */
  ghost predicate Whole(f0: seq<Bytes>, i: nat, faults: set<Fault>, round: nat, size: nat)
    requires i < |f0|
  {
    |f0[i]| == size && Got(size, TaskFaults(faults, round, i), 0) == size
  }

  /** Copies of at most `size` bytes report all of count * size exactly when each of them delivers that much. */
  lemma {:induction false} ReportedExactly(f0: seq<Bytes>, count: nat, faults: set<Fault>, round: nat, size: nat)
    requires count <= |f0| && forall i :: 0 <= i < count ==> |f0[i]| <= size
    ensures 0 <= RoundReport(f0, count, faults, round) + count && RoundReport(f0, count, faults, round) <= count * size
    ensures RoundReport(f0, count, faults, round) == count * size <==> forall i :: 0 <= i < count ==> Whole(f0, i, faults, round, size)
  {
    if count > 0 {
      ReportedExactly(f0, count - 1, faults, round, size);
      CopyExactly(|f0[count - 1]|, TaskFaults(faults, round, count - 1), 0);
      MulStep(count - 1, size);
      assert Whole(f0, count - 1, faults, round, size) <==> Returned(|f0[count - 1]|, TaskFaults(faults, round, count - 1), 0) == size;
      hide Returned, Got, TaskFaults, Whole;
    }
  }

  /** The iterations of the parallel loop that have a receiver. */
  method MakeTasks(stride: nat, nodes: nat, faults: set<Fault>, round: nat) returns (tasks: seq<Task>)
    requires stride <= nodes
    ensures tasks == RoundTasks(stride, nodes, faults, round)
  {
    tasks := [];
    for i := 0 to stride
      invariant |tasks| == Min(i, nodes - stride)
      invariant forall k :: 0 <= k < |tasks| ==> tasks[k] == Task(k, k + stride, TaskFaults(faults, round, k), 0, 0, Begin)
    {
      var receiver := i + stride;
      if receiver < nodes { tasks := tasks + [Task(i, receiver, TaskFaults(faults, round, i), 0, 0, Begin)]; }
    }
  }

  /** The parallel loop of one round: as long as a task is unfinished, any one of them moves. */
  method RunTasks(f0: seq<Bytes>, stride: nat, tasks0: seq<Task>, ghost faults: set<Fault>, ghost round: nat)
    returns (files: seq<Bytes>, tasks: seq<Task>)
    requires Round(f0, f0, tasks0, stride, faults, round)
    ensures |tasks| == |tasks0| && Round(f0, files, tasks, stride, faults, round)
    ensures forall i :: 0 <= i < |tasks| ==> Stopped(tasks[i])
  {
    hide Round;
    files, tasks := f0, tasks0;
    while exists i :: 0 <= i < |tasks| && !Stopped(tasks[i])
      invariant |tasks| == |tasks0| && Round(f0, files, tasks, stride, faults, round)
      decreases Total(tasks, FuelLeft(f0))
    {
      var i :| 0 <= i < |tasks| && !Stopped(tasks[i]);
      MoveBurns(f0, files, tasks, stride, faults, round, i);
      RoundStep(f0, files, tasks, stride, faults, round, i);
      Numbered(f0, files, tasks, stride, faults, round, i);
      var step := Advance(files, tasks[i]);
      files, tasks := step.0, tasks[i := step.1];
    }
  }

  lemma Numbered(f0: seq<Bytes>, files: seq<Bytes>, tasks: seq<Task>, stride: nat, faults: set<Fault>, round: nat, i: nat)
    requires Round(f0, files, tasks, stride, faults, round) && i < |tasks|
    ensures |files| == |f0| && tasks[i].src < |f0| && tasks[i].dst < |f0|
  {
  }

  /** One round, for every interleaving and every set of failing system calls: it ends like the sequential
    * loop of submit_read_write calls and reports the sum of what they return. */
  method ParallelRound(f0: seq<Bytes>, stride: nat, faults: set<Fault>, round: nat) returns (files: seq<Bytes>, moved: int)
    requires stride <= |f0|
    ensures var count := Min(stride, |f0| - stride);
            && files == Sequentially(f0, stride, count, faults, round)
            && files == AfterRound(f0, stride, count, faults, round)
            && moved == RoundReport(f0, count, faults, round)
  {
    var tasks := MakeTasks(stride, |f0|, faults, round);
    files, tasks := RunTasks(f0, stride, tasks, faults, round);
    RoundDone(f0, files, tasks, stride, faults, round);
    RoundIsSequential(f0, stride, |tasks|, faults, round);
    moved := Reported(tasks);
  }

  // ---- the rounds ----

  /** `1 << k`. */
  function Pow2(k: nat): (p: nat)
    ensures p >= 1
  {
    if k == 0 then 1 else 2 * Pow2(k - 1)
  }

  /** The integer the source computes as ceil(log2(m)). */
  function CeilLog2(m: nat): nat
    requires m >= 1
  {
    if m == 1 then 0 else 1 + CeilLog2((m + 1) / 2)
  }

  /** It is the least R with 2^R >= m. */
  lemma {:induction false} CeilLog2Least(m: nat, r: nat)
    requires m >= 1
    ensures Pow2(r) >= m <==> r >= CeilLog2(m)
    decreases m
  {
    if m > 1 {
      if r > 0 {
        CeilLog2Least((m + 1) / 2, r - 1);
      }
    }
  }

  lemma {:induction false} Pow2Mono(a: nat, b: nat)
    requires a < b
    ensures 2 * Pow2(a) <= Pow2(b)
    decreases b
  {
    if a < b - 1 { Pow2Mono(a, b - 1); }
  }

  /** The nodes served in round r. */
  function Served(nodes: nat, r: nat): nat { if Pow2(r) < nodes then Min(Pow2(r), nodes - Pow2(r)) else 0 }

  /** Before round r the nodes from 2^r on are untouched, and every node holds a prefix of the input. */
  ghost predicate Prefixes(files: seq<Bytes>, input: Bytes, r: nat) {
    && files != [] && files[0] == input
    && (forall d :: 0 <= d < |files| ==> files[d] <= input)
    && (forall d :: Pow2(r) <= d < |files| ==> files[d] == [])
  }

  /** The first min(2^r, n + 1) nodes hold the whole input. */
  ghost predicate Covered(files: seq<Bytes>, input: Bytes, r: nat) {
    forall d :: 0 <= d < |files| && d < Pow2(r) ==> files[d] == input
  }

  /** No call of one copy fails, of all copies of a round, of all rounds before round r. */
  ghost predicate CopyClean(faults: set<Fault>, r: nat, i: nat, size: nat) {
    forall call :: 0 <= call < 2 * Windows(size) ==> Fault(r, i, call) !in faults
  }
  ghost predicate RoundClean(faults: set<Fault>, r: nat, count: nat, size: nat) {
    forall i :: 0 <= i < count ==> CopyClean(faults, r, i, size)
  }
  ghost predicate Clean(faults: set<Fault>, nodes: nat, size: nat, r: nat) {
    forall q :: 0 <= q < r ==> RoundClean(faults, q, Served(nodes, q), size)
  }

  /** The copies of a round in which a call fails, and the sizes the others return. */
  ghost function BrokenCopies(f0: seq<Bytes>, count: nat, faults: set<Fault>, r: nat): set<nat>
    requires count <= |f0|
  {
    set i | 0 <= i < count && !CopyClean(faults, r, i, |f0[i]|)
  }
  ghost function WholeSizes(f0: seq<Bytes>, count: nat, faults: set<Fault>, r: nat): seq<nat>
    requires count <= |f0|
  {
    seq(count, i requires 0 <= i < count => if CopyClean(faults, r, i, |f0[i]|) then |f0[i]| else 0)
  }
  function Same(x: nat): nat { x }

  lemma CopyReturns(size: nat, faults: set<Fault>, r: nat, i: nat)
    ensures Returned(size, TaskFaults(faults, r, i), 0) == if CopyClean(faults, r, i, size) then size else -1
  {
    CopyExactly(size, TaskFaults(faults, r, i), 0);
    assert forall call :: call in TaskFaults(faults, r, i) <==> Fault(r, i, call) in faults;
  }

  /** A round reports the sizes of the whole copies, less one for every copy in which a call fails. */
  lemma {:induction false} RoundReportExactly(f0: seq<Bytes>, count: nat, faults: set<Fault>, r: nat)
    requires count <= |f0|
    ensures RoundReport(f0, count, faults, r) == Total(WholeSizes(f0, count, faults, r), Same) - |BrokenCopies(f0, count, faults, r)|
  {
    hide CopyClean, TaskFaults, Returned;
    if count > 0 {
      var i := count - 1;
      RoundReportExactly(f0, i, faults, r);
      CopyReturns(|f0[i]|, faults, r, i);
      assert WholeSizes(f0, count, faults, r)[..i] == WholeSizes(f0, i, faults, r);
      assert BrokenCopies(f0, count, faults, r) ==
             BrokenCopies(f0, i, faults, r) + if CopyClean(faults, r, i, |f0[i]|) then {} else {i};
    }
  }

  /** With one output a failing call makes the count the largest size_t. */
  lemma SingleOutput(input: Bytes, faults: set<Fault>)
    ensures CeilLog2(2) == 1
    ensures TreeSum([input, []], faults, 1) == if CopyClean(faults, 0, 0, |input|) then |input| else -1
    ensures !CopyClean(faults, 0, 0, |input|) ==> TreeSum([input, []], faults, 1) % SIZE_T == 0xffff_ffff_ffff_ffff
  {
    hide CopyClean, TaskFaults, Returned;
    var f := [input, []];
    assert TreeFiles(f, faults, 0) == f && Pow2(0) == 1 && Served(2, 0) == 1;
    CopyReturns(|input|, faults, 0, 0);
    assert RoundReport(f, 1, faults, 0) == RoundReport(f, 0, faults, 0) + Returned(|f[0]|, TaskFaults(faults, 0, 0), 0);
    assert TreeSum(f, faults, 1) == TreeSum(f, faults, 0) + RoundReport(f, 1, faults, 0);
  }

  lemma FreshCopy(files: seq<Bytes>, input: Bytes, r: nat, faults: set<Fault>, d: nat)
    requires Prefixes(files, input, r) && Pow2(r) <= d < |files| && d < 2 * Pow2(r)
    ensures var got, k := AfterCopy(files, Pow2(r), faults, r, d), Got(|files[d - Pow2(r)]|, TaskFaults(faults, r, d - Pow2(r)), 0);
            && k <= |files[d - Pow2(r)]| && got == files[d - Pow2(r)][..k] && got <= input
            && (got == input <==> Whole(files, d - Pow2(r), faults, r, |input|))
  {
    var sender := files[d - Pow2(r)];
    var k := Got(|sender|, TaskFaults(faults, r, d - Pow2(r)), 0);
    CopyExactly(|sender|, TaskFaults(faults, r, d - Pow2(r)), 0);
    PwriteWhole([], sender[..k]);
    assert |sender| == |input| ==> sender == input;
  }

  /** Whatever fails, no node ever holds anything but a prefix of the input. */
  lemma RoundPrefixes(files: seq<Bytes>, input: Bytes, r: nat, faults: set<Fault>)
    requires Prefixes(files, input, r) && Pow2(r) < |files|
    ensures Prefixes(AfterRound(files, Pow2(r), Served(|files|, r), faults, r), input, r + 1)
  {
    hide AfterCopy;
    forall d | Pow2(r) <= d < Pow2(r) + Served(|files|, r) ensures AfterCopy(files, Pow2(r), faults, r, d) <= input {
      FreshCopy(files, input, r, faults, d);
    }
  }

  lemma CleanCopies(files: seq<Bytes>, input: Bytes, r: nat, faults: set<Fault>, count: nat)
    requires count <= Pow2(r) && count <= |files| && Covered(files, input, r)
    ensures RoundClean(faults, r, count, |input|) <==> forall i :: 0 <= i < count ==> Whole(files, i, faults, r, |input|)
  {
    forall i | 0 <= i < count
      ensures Whole(files, i, faults, r, |input|) <==> CopyClean(faults, r, i, |input|)
    {
      CopyExactly(|input|, TaskFaults(faults, r, i), 0);
      assert forall call :: call in TaskFaults(faults, r, i) <==> Fault(r, i, call) in faults;
    }
  }

  /** A round without failures turns the holders of round r into those of round r + 1, each new holder having
    * received once; a failure leaves a new node incomplete, and incomplete nodes stay so. */
  lemma RoundCovers(files: seq<Bytes>, input: Bytes, r: nat, faults: set<Fault>)
    requires Prefixes(files, input, r) && Pow2(r) < |files|
    ensures var count := Served(|files|, r);
            Covered(AfterRound(files, Pow2(r), count, faults, r), input, r + 1) <==>
            Covered(files, input, r) && RoundClean(faults, r, count, |input|)
  {
    hide AfterCopy, RoundClean, Whole;
    var stride, count := Pow2(r), Served(|files|, r);
    var after := AfterRound(files, stride, count, faults, r);
    forall d | stride <= d < stride + count ensures after[d] == input <==> Whole(files, d - stride, faults, r, |input|) {
      FreshCopy(files, input, r, faults, d);
    }
    if Covered(files, input, r) {
      CleanCopies(files, input, r, faults, count);
      if Covered(after, input, r + 1) {
        forall i | 0 <= i < count ensures Whole(files, i, faults, r, |input|) {
          assert after[i + stride] == input;
        }
      } else {
        var d :| 0 <= d < |files| && d < Pow2(r + 1) && after[d] != input;
        assert !Whole(files, d - stride, faults, r, |input|);
      }
    } else {
      var d :| 0 <= d < |files| && d < Pow2(r) && files[d] != input;
      assert after[d] != input;
    }
  }

  /** Node d receives in round r. */
  ghost predicate Receives(nodes: nat, r: nat, d: nat) {
    Pow2(r) <= d < nodes && d < Pow2(r) + Min(Pow2(r), nodes - Pow2(r))
  }

  /** Over all rounds every output receives exactly once. */
  lemma ReceivesOnce(nodes: nat, d: nat) returns (r: nat)
    requires 1 <= d < nodes
    ensures r < CeilLog2(nodes) && Receives(nodes, r, d)
    ensures forall q: nat :: Receives(nodes, q, d) ==> q == r
  {
    r := CeilLog2(d + 1) - 1;
    CeilLog2Least(d + 1, r);
    CeilLog2Least(d + 1, r + 1);
    CeilLog2Least(nodes, r);
    forall q: nat | Receives(nodes, q, d) ensures q == r {
      if q < r { Pow2Mono(q, r); }
      if r < q { Pow2Mono(r, q); }
    }
  }

  lemma RoundTransfer(r: nat, nodes: nat, size: nat)
    requires Pow2(r) < nodes
    ensures var served := Min(Pow2(r), nodes - Pow2(r));
            && (Min(Pow2(r), nodes) - 1) * size + served * size == (Min(Pow2(r + 1), nodes) - 1) * size
            && Min(Pow2(r), nodes) + served == Min(Pow2(r + 1), nodes)
  {
    var holders, served := Pow2(r) - 1, Min(Pow2(r), nodes - Pow2(r));
    Distribute(size, holders, served);
    assert size * (holders + served) == (holders + served) * size;
  }

  const SIZE_T: nat := 0x1_0000_0000_0000_0000

  /** The files and the count before round r, for a program that makes the copies one after another. */
  ghost function TreeFiles(files0: seq<Bytes>, faults: set<Fault>, r: nat): (f: seq<Bytes>)
    ensures |f| == |files0|
  {
    if r == 0 then files0
    else
      var f := TreeFiles(files0, faults, r - 1);
      if Pow2(r - 1) < |f| then Sequentially(f, Pow2(r - 1), Served(|f|, r - 1), faults, r - 1) else f
  }
  ghost function TreeSum(files0: seq<Bytes>, faults: set<Fault>, r: nat): int {
    if r == 0 then 0
    else
      var f := TreeFiles(files0, faults, r - 1);
      TreeSum(files0, faults, r - 1) + RoundReport(f, Served(|f|, r - 1), faults, r - 1)
  }

  /** The count before round r: one input per node served exactly when no call has failed, less otherwise. */
  ghost predicate Counted(nodes: nat, size: nat, r: nat, sum: int, clean: bool) {
    var served := Min(Pow2(r), nodes) - 1;
    0 <= sum + served && sum <= served * size && (sum == served * size <==> clean)
  }

  lemma CountsOn(f: seq<Bytes>, input: Bytes, r: nat, sum: int, faults: set<Fault>, before: bool)
    requires Prefixes(f, input, r) && Pow2(r) < |f| && Counted(|f|, |input|, r, sum, before)
    requires before <==> Covered(f, input, r)
    ensures Counted(|f|, |input|, r + 1, sum + RoundReport(f, Served(|f|, r), faults, r),
                    before && RoundClean(faults, r, Served(|f|, r), |input|))
  {
    var count := Served(|f|, r);
    assert forall d :: 0 <= d < count ==> f[d] <= input;
    ReportedExactly(f, count, faults, r, |input|);
    RoundTransfer(r, |f|, |input|);
    if before { CleanCopies(f, input, r, faults, count); }
  }

  /** The state before round r, over every set of failing calls. */
  ghost predicate TreeState(files: seq<Bytes>, input: Bytes, faults: set<Fault>, r: nat, sum: int) {
    var clean := Clean(faults, |files|, |input|, r);
    Prefixes(files, input, r) && (Covered(files, input, r) <==> clean) && Counted(|files|, |input|, r, sum, clean)
  }

  lemma TreeStep(files: seq<Bytes>, input: Bytes, faults: set<Fault>, r: nat, sum: int)
    requires TreeState(files, input, faults, r, sum) && Pow2(r) < |files|
    ensures var count := Served(|files|, r);
            TreeState(AfterRound(files, Pow2(r), count, faults, r), input, faults, r + 1, sum + RoundReport(files, count, faults, r))
  {
    hide Prefixes, Covered, Counted, RoundClean, AfterRound, RoundReport;
    var after := AfterRound(files, Pow2(r), Served(|files|, r), faults, r);
    assert |after| == |files| by { SameNodes(files, r, faults); }
    CleanNext(faults, |files|, |input|, r);
    RoundPrefixes(files, input, r, faults);
    RoundCovers(files, input, r, faults);
    CountsOn(files, input, r, sum, faults, Clean(faults, |files|, |input|, r));
  }

  lemma SameNodes(files: seq<Bytes>, r: nat, faults: set<Fault>)
    requires Pow2(r) < |files|
    ensures |AfterRound(files, Pow2(r), Served(|files|, r), faults, r)| == |files|
  {
  }

  lemma CleanNext(faults: set<Fault>, nodes: nat, size: nat, r: nat)
    ensures Clean(faults, nodes, size, r + 1) <==>
            Clean(faults, nodes, size, r) && RoundClean(faults, r, Served(nodes, r), size)
  {
    hide RoundClean;
  }

  /** perform_readv_broadcast, for every interleaving of every round and every set of failing calls: it ends
    * like the copies made one after another. Every output is a prefix of the input; the outputs equal the
    * input, and the count, a size_t to which a failed copy contributes -1, is n inputs, exactly when no call
    * fails. */
  method PerformReadvBroadcast(files0: seq<Bytes>, n: nat, faults: set<Fault>) returns (transfer: nat, files: seq<Bytes>)
    requires |files0| == n + 1 && forall d :: 1 <= d <= n ==> files0[d] == []
    requires n * |files0[0]| + n < SIZE_T
    ensures files == TreeFiles(files0, faults, CeilLog2(n + 1))
    ensures transfer == TreeSum(files0, faults, CeilLog2(n + 1)) % SIZE_T
    ensures |files| == n + 1 && forall d :: 0 <= d <= n ==> files[d] <= files0[0]
    ensures transfer == n * |files0[0]| <==> Clean(faults, n + 1, |files0[0]|, CeilLog2(n + 1))
    ensures files == seq(n + 1, _ => files0[0]) <==> Clean(faults, n + 1, |files0[0]|, CeilLog2(n + 1))
    ensures Broadcasted(files, files0[0], n, transfer) <==> Clean(faults, n + 1, |files0[0]|, CeilLog2(n + 1))
  {
    hide TreeState, TreeFiles, TreeSum, CeilLog2, Pow2, Clean;
    var sum;
    sum, files := RunRounds(files0, n, faults);
    CeilLog2Least(n + 1, CeilLog2(n + 1));
    Outcome(files, files0[0], n, faults, CeilLog2(n + 1), sum);
    transfer := sum % SIZE_T;
  }

  /** The loop over the rounds. */
  method RunRounds(files0: seq<Bytes>, n: nat, faults: set<Fault>) returns (sum: int, files: seq<Bytes>)
    requires |files0| == n + 1 && forall d :: 1 <= d <= n ==> files0[d] == []
    ensures files == TreeFiles(files0, faults, CeilLog2(n + 1)) && sum == TreeSum(files0, faults, CeilLog2(n + 1))
    ensures TreeState(files, files0[0], faults, CeilLog2(n + 1), sum)
  {
    hide TreeState, TreeFiles, TreeSum, CeilLog2, AfterRound, Sequentially, RoundReport, Served, Pow2;
    var nodes, rounds := n + 1, CeilLog2(n + 1);
    sum, files := 0, files0;
    Start(files0, faults);
    for round := 0 to rounds
      invariant files == TreeFiles(files0, faults, round) && sum == TreeSum(files0, faults, round)
      invariant TreeState(files, files0[0], faults, round, sum)
    {
      CeilLog2Least(nodes, round);
      TreeNext(files0, faults, round);
      TreeStep(files, files0[0], faults, round, sum);
      var moved;
      files, moved := ParallelRound(files, Pow2(round), faults, round);
      sum := sum + moved;
    }
  }

  lemma TreeNext(files0: seq<Bytes>, faults: set<Fault>, r: nat)
    requires Pow2(r) < |files0|
    ensures var f, count := TreeFiles(files0, faults, r), Served(|files0|, r);
            && count == Min(Pow2(r), |f| - Pow2(r))
            && TreeFiles(files0, faults, r + 1) == Sequentially(f, Pow2(r), count, faults, r)
            && TreeSum(files0, faults, r + 1) == TreeSum(files0, faults, r) + RoundReport(f, count, faults, r)
  {
  }

  lemma Start(files0: seq<Bytes>, faults: set<Fault>)
    requires files0 != [] && forall d :: 1 <= d < |files0| ==> files0[d] == []
    ensures TreeState(files0, files0[0], faults, 0, 0) && TreeFiles(files0, faults, 0) == files0 && TreeSum(files0, faults, 0) == 0
  {
  }

  lemma FullCount(n: nat, size: nat, r: nat, sum: int, clean: bool)
    requires Counted(n + 1, size, r, sum, clean) && n + 1 <= Pow2(r)
    ensures 0 <= sum + n && sum <= n * size && (sum == n * size <==> clean)
  {
    hide Pow2;
    assert Min(Pow2(r), n + 1) - 1 == n;
  }

  lemma Outcome(files: seq<Bytes>, input: Bytes, n: nat, faults: set<Fault>, r: nat, sum: int)
    requires TreeState(files, input, faults, r, sum) && |files| == n + 1 <= Pow2(r) && n * |input| + n < SIZE_T
    ensures forall d :: 0 <= d <= n ==> files[d] <= input
    ensures sum % SIZE_T == n * |input| <==> Clean(faults, n + 1, |input|, r)
    ensures files == seq(n + 1, _ => input) <==> Clean(faults, n + 1, |input|, r)
  {
    hide Clean, CeilLog2, Pow2, Covered, Counted;
    FullCount(n, |input|, r, sum, Clean(faults, |files|, |input|, r));
    Wraps(sum, n * |input|, n);
    AllCovered(files, input, n, r);
  }

  lemma AllCovered(files: seq<Bytes>, input: Bytes, n: nat, r: nat)
    requires |files| == n + 1 <= Pow2(r)
    ensures Covered(files, input, r) <==> files == seq(n + 1, _ => input)
  {
    hide Pow2;
    if !Covered(files, input, r) {
      var d :| 0 <= d < |files| && files[d] != input;
      assert seq(n + 1, _ => input)[d] == input;
    }
  }

  /** A small negative sum becomes a huge size_t, never the expected count. */
  lemma Wraps(sum: int, goal: nat, n: nat)
    requires 0 <= sum + n && sum <= goal && goal + n < SIZE_T
    ensures sum % SIZE_T == goal <==> sum == goal
  {
  }

  /** No intermediate value of the loop leaves the range of a 32-bit int. */
  lemma Bounds(n: nat, round: nat, i: nat)
    requires n <= 0x7fff_fffe && round < CeilLog2(n + 1) && i < Pow2(round)
    ensures n + 1 <= 0x7fff_ffff && CeilLog2(n + 1) <= 31
    ensures Pow2(round) <= 0x4000_0000 && i + Pow2(round) <= 0x7fff_ffff
  {
    Pow2At31();
    CeilLog2Least(n + 1, 31);
    if round < 30 { Pow2Mono(round, 30); }
  }

  lemma Pow2At31()
    ensures Pow2(30) == 0x4000_0000 && Pow2(31) == 0x8000_0000
  {
    assert Pow2(10) == 1024;
    assert Pow2(20) == 1024 * Pow2(10);
    assert Pow2(30) == 1024 * Pow2(20);
  }

  // ---- no schedule is faster ----

  /** In one round every new holder is served by a holder of its own. */
  ghost predicate Serves(before: set<nat>, after: set<nat>, sender: map<nat, nat>) {
    && before <= after && sender.Keys == after - before && sender.Values <= before
    && forall a, b :: a in sender && b in sender && a != b ==> sender[a] != sender[b]
  }

  lemma {:induction false} InjectiveSize(m: map<nat, nat>, values: set<nat>)
    requires m.Values <= values
    requires forall a, b :: a in m && b in m && a != b ==> m[a] != m[b]
    ensures |m.Keys| <= |values|
    decreases |m|
  {
    if m != map[] {
      var k :| k in m;
      var rest := m - {k};
      forall v | v in rest.Values ensures v in values - {m[k]} {
        var a :| a in rest && rest[a] == v;
      }
      assert m.Keys == rest.Keys + {k};
      InjectiveSize(rest, values - {m[k]});
    }
  }

  lemma RoundDoubles(before: set<nat>, after: set<nat>, sender: map<nat, nat>)
    requires Serves(before, after, sender)
    ensures |after| <= 2 * |before|
  {
    InjectiveSize(sender, before);
    assert after == before + (after - before);
  }

  ghost function Nodes(n: nat): (s: set<nat>)
    ensures forall d :: d in s <==> 0 <= d < n
    ensures |s| == n
  {
    if n == 0 then {} else Nodes(n - 1) + {n - 1}
  }

  /** A schedule from the root to all n + 1 nodes: the holders before each round, who served whom in it. */
  ghost predicate Schedule(holders: seq<set<nat>>, senders: seq<map<nat, nat>>, n: nat) {
    && |holders| == |senders| + 1 && holders[0] == {0}
    && (forall r :: 0 <= r < |senders| ==> Serves(holders[r], holders[r + 1], senders[r]))
    && Nodes(n + 1) <= holders[|senders|]
  }

  lemma {:induction false} HoldersBound(holders: seq<set<nat>>, senders: seq<map<nat, nat>>, n: nat, r: nat)
    requires Schedule(holders, senders, n) && r <= |senders|
    ensures |holders[r]| <= Pow2(r)
  {
    if r > 0 {
      HoldersBound(holders, senders, n, r - 1);
      RoundDoubles(holders[r - 1], holders[r], senders[r - 1]);
    }
  }

  /** Every schedule needs at least ceil(log2(n + 1)) rounds... */
  lemma RoundsNeeded(holders: seq<set<nat>>, senders: seq<map<nat, nat>>, n: nat)
    requires Schedule(holders, senders, n)
    ensures |senders| >= CeilLog2(n + 1)
  {
    var last := holders[|senders|];
    HoldersBound(holders, senders, n, |senders|);
    assert last == Nodes(n + 1) + (last - Nodes(n + 1));
    CeilLog2Least(n + 1, |senders|);
  }

  /** The holders before round r of the tree, and who serves whom in it: the tasks of the round. */
  ghost function TreeHolders(n: nat, r: nat): set<nat> { Nodes(Min(Pow2(r), n + 1)) }
  ghost function Joining(n: nat, r: nat): set<nat> { TreeHolders(n, r + 1) - TreeHolders(n, r) }
  ghost function TreeSenders(n: nat, r: nat): map<nat, nat> { map d | d in Joining(n, r) :: SenderOf(n, r, d) }
  ghost function SenderOf(n: nat, r: nat, d: nat): nat {
    if Pow2(r) <= d < n + 1 && d < 2 * Pow2(r) then RoundTasks(Pow2(r), n + 1, {}, r)[d - Pow2(r)].src else 0
  }

  lemma TreeServes(n: nat, r: nat)
    requires r < CeilLog2(n + 1)
    ensures Serves(TreeHolders(n, r), TreeHolders(n, r + 1), TreeSenders(n, r))
  {
    hide TreeSenders, Nodes, CeilLog2;
    CeilLog2Least(n + 1, r);
    TasksServe(n, r);
    forall v | v in TreeSenders(n, r).Values ensures v in TreeHolders(n, r) {
      var d :| d in TreeSenders(n, r) && TreeSenders(n, r)[d] == v;
    }
    assert TreeSenders(n, r).Keys == TreeHolders(n, r + 1) - TreeHolders(n, r);
  }

  /** These are the tasks of the parallel loop: each serves its receiver from its sender, d from d - 2^r. */
  lemma TasksServe(n: nat, r: nat)
    requires Pow2(r) < n + 1
    ensures forall t :: t in RoundTasks(Pow2(r), n + 1, {}, r) ==> t.dst in TreeSenders(n, r) && TreeSenders(n, r)[t.dst] == t.src
    ensures forall d :: d in TreeSenders(n, r) <==> Pow2(r) <= d < Min(Pow2(r + 1), n + 1)
    ensures forall d :: d in TreeSenders(n, r) ==> TreeSenders(n, r)[d] == d - Pow2(r)
  {
    hide Nodes, CeilLog2;
    var tasks := RoundTasks(Pow2(r), n + 1, {}, r);
    assert Pow2(r + 1) == 2 * Pow2(r);
    forall d | d in TreeSenders(n, r) ensures TreeSenders(n, r)[d] == d - Pow2(r) {
      assert tasks[d - Pow2(r)].src == d - Pow2(r);
    }
    forall t | t in tasks ensures t.dst in TreeSenders(n, r) && TreeSenders(n, r)[t.dst] == t.src {
      var i :| 0 <= i < |tasks| && tasks[i] == t;
      assert i + Pow2(r) in TreeSenders(n, r);
    }
  }

  /** ... and the tree takes exactly that many. */
  lemma TreeIsSchedule(n: nat)
    ensures var rounds := CeilLog2(n + 1);
            Schedule(seq(rounds + 1, r requires 0 <= r <= rounds => TreeHolders(n, r)),
                     seq(rounds, r requires 0 <= r < rounds => TreeSenders(n, r)), n)
  {
    hide Serves, TreeSenders, TreeHolders, CeilLog2;
    var rounds := CeilLog2(n + 1);
    forall r | 0 <= r < rounds { TreeServes(n, r); }
    Ends(n);
  }

  lemma Ends(n: nat)
    ensures TreeHolders(n, 0) == {0} && Nodes(n + 1) <= TreeHolders(n, CeilLog2(n + 1))
  {
    CeilLog2Least(n + 1, CeilLog2(n + 1));
  }
}
