/** Mode 3: exactly when the outputs do not depend on the order in which a pipe is used. */
module SpliceOrder {
  import opened Files
  import opened Kernel
  import opened Sums
  import opened Spec
  import opened SplicePlan
  import opened SplicePipes
  import opened SpliceBroadcast

  // ---- every run of the plan ----

  lemma QuietSafe(w: World, input: Bytes, js: seq<Job>, n: nat, exact: bool, sofar: int)
    requires Safe(w, input, js, n, exact, sofar)
    ensures Safe(Quiet(w), input, js, n, exact, sofar + Delivered(w.cq))
  {
    hide Inv;
    InvIgnoresQueue(w, input, js, n, exact, []);
  }

  /** One batch of a run without failures. */
  lemma BatchKeeps(u: World, w: World, input: Bytes, js: seq<Job>, n: nat, exact: bool, batch: seq<Job>, sched: seq<Choice>)
    requires Settled(u, input, js, n, exact) && u.failed == {} && Formed([], batch, n, |input|)
    requires exact ==> u.ordered || BatchApart(batch, u.cap)
    requires BatchRan(u, w, Pairs(batch), sched)
    ensures Settled(w, input, js + batch, n, exact) && SamePolicy(u, w)
  {
    hide Settled, Safe, Formed, BatchApart, Exec, Inv, SuccessBytes;
    var v, all, sofar := Launched(u, Pairs(batch)), js + batch, SuccessBytes(js, u.failed);
    LaunchSafe(u, input, js, n, exact, batch, sofar);
    ChainsMatch(u, input, js, n, exact, batch);
    ExecSafe(v, input, all, n, exact, sofar, sched);
    ExecAccounting(v, sched);
    QuietSafe(Exec(v, sched), input, all, n, exact, sofar);
    BatchSettled(w, input, all, n, exact, sofar + Delivered(Exec(v, sched).cq));
  }

  lemma NotDue(n: nat, size: nat, c: nat)
    requires c < Chunks(size) && !Due(size, c, |Filled(n, size, c)|)
    ensures Batches(n, size, c + 1) == Batches(n, size, c) && Done(n, size, c + 1) == Done(n, size, c)
    ensures Cut(n, size, c + 1) == Cut(n, size, c)
  {
  }

  lemma IsDue(n: nat, size: nat, c: nat)
    requires c < Chunks(size) && Due(size, c, |Filled(n, size, c)|)
    ensures BatchChains(Batches(n, size, c + 1)) == BatchChains(Batches(n, size, c)) + [Pairs(Filled(n, size, c))]
    ensures Done(n, size, c + 1) == Done(n, size, c) + Filled(n, size, c)
    ensures Cut(n, size, c + 1) == c + 1
  {
    hide Filled, Due, Pairs;
    var bs := Batches(n, size, c);
    assert Batches(n, size, c + 1) == bs + [Filled(n, size, c)];
    assert BatchChains(bs + [Filled(n, size, c)]) == BatchChains(bs) + [Pairs(Filled(n, size, c))];
  }

  lemma LastBatch(w0: World, w: World, batches: seq<seq<Chain>>, last: seq<Chain>) returns (u: World, sched: seq<Choice>)
    requires Ran(w0, w, batches + [last])
    ensures Ran(w0, u, batches) && BatchRan(u, w, last, sched) && u.failed <= w.failed
  {
    hide BatchRan, Exec;
    var all := batches + [last];
    assert all[..|all| - 1] == batches && all[|all| - 1] == last;
    u, sched :| Ran(w0, u, batches) && BatchRan(u, w, last, sched);
    BatchFailed(u, w, last, sched);
  }

  lemma BatchFailed(u: World, w: World, chains: seq<Chain>, sched: seq<Choice>)
    requires BatchRan(u, w, chains, sched)
    ensures u.failed <= w.failed
  {
    ExecFailed(Launched(u, chains), sched);
  }

  /** Every run of the first `c` chunks of the plan in which nothing failed ends settled. */
  lemma {:induction false} RanSettled(w0: World, w: World, n: nat, c: nat)
    requires Opened(w0, n) && CHUNK <= w0.cap && c <= Chunks(|w0.files[0]|)
    requires Ran(w0, w, BatchChains(Batches(n, |w0.files[0]|, c))) && w.failed == {}
    ensures Settled(w, w0.files[0], Done(n, |w0.files[0]|, c), n, Exact(w0, n, |w0.files[0]|)) && SamePolicy(w0, w)
    decreases c
  {
    hide Settled, Ran, BatchRan, Batches, Done, Filled, Due, KeepsApart, Chunks, BatchChains, BatchApart, Formed;
    var size := |w0.files[0]|;
    if c == 0 {
      RanNothing(w0, w, n);
    } else if !Due(size, c - 1, |Filled(n, size, c - 1)|) {
      NotDue(n, size, c - 1);
      RanSettled(w0, w, n, c - 1);
    } else {
      IsDue(n, size, c - 1);
      var batch := Filled(n, size, c - 1);
      var u, sched := LastBatch(w0, w, BatchChains(Batches(n, size, c - 1)), Pairs(batch));
      RanSettled(w0, u, n, c - 1);
      FilledFormed(n, size, c - 1);
      if KeepsApart(n, size, w0.cap) { FilledApart(n, size, w0.cap, c - 1); }
      BatchKeeps(u, w, w0.files[0], Done(n, size, c - 1), n, Exact(w0, n, size), batch, sched);
    }
  }

  lemma RanNothing(w0: World, w: World, n: nat)
    requires Opened(w0, n) && CHUNK <= w0.cap && Ran(w0, w, BatchChains(Batches(n, |w0.files[0]|, 0)))
    ensures w == w0 && Settled(w, w0.files[0], Done(n, |w0.files[0]|, 0), n, Exact(w0, n, |w0.files[0]|))
  {
    Start(w0, n);
  }

  /** The outputs are what the plan says. */
  ghost predicate AsPlanned(w: World, input: Bytes, n: nat) {
    |w.files| == n + 1 && forall i :: 0 <= i < n ==> w.files[i + 1] == Output(input, n, i)
  }

  lemma RanAsPlanned(w0: World, w: World, n: nat)
    requires Opened(w0, n) && CHUNK <= w0.cap && Exact(w0, n, |w0.files[0]|) && w.failed == {}
    requires Ran(w0, w, BatchChains(Batches(n, |w0.files[0]|, Chunks(|w0.files[0]|))))
    ensures AsPlanned(w, w0.files[0], n)
  {
    hide Settled, Ran, Batches, Done, JobsUpTo, Output, Chunks;
    var input := w0.files[0];
    RanSettled(w0, w, n, Chunks(|input|));
    PlanOk(n, |input|, Chunks(|input|));
    assert Waiting(n, |input|, Chunks(|input|)) == [];
    assert Done(n, |input|, Chunks(|input|)) == JobsUpTo(n, |input|, Chunks(|input|));
    OneFileEach(w, input, Done(n, |input|, Chunks(|input|)), n);
    forall i | 0 <= i < n ensures w.files[i + 1] == Output(input, n, i) {
      ExactOutput(w, input, n, i);
    }
  }

  lemma OneFileEach(w: World, input: Bytes, js: seq<Job>, n: nat)
    requires Settled(w, input, js, n, true) && w.failed == {}
    ensures |w.files| == n + 1
  {
  }

  // ---- a run that misplaces a chunk ----

  /** Whatever has happened so far, the kernel can bring everything submitted to its end. */
  lemma {:induction false} Finish(w: World, input: Bytes, js: seq<Job>, n: nat) returns (sched: seq<Choice>)
    requires Inv(w, input, js, n, false) && w.failed == {}
    ensures var w' := Exec(w, sched);
            Inv(w', input, js, n, false) && OpsLeft(w') == 0 && w'.failed == {} && |w'.chains| == |w.chains| && SamePolicy(w, w')
    decreases OpsLeft(w)
  {
    hide Inv, Ready, Succeed, Fail;
    if OpsLeft(w) == 0 {
      sched := [];
    } else {
      TotalZero(w.chains, ChainOps);
      Progress(w, input, js, n, false);
      var c :| Ready(w, c);
      StepReady(w, c);
      SucceedInv(w, input, js, n, false, c);
      var rest := Finish(Succeed(w, c), input, js, n);
      sched := [Choice(c, false)] + rest;
      assert sched[1..] == rest;
    }
  }

  lemma StepReady(w: World, c: nat)
    requires Ready(w, c)
    ensures Step(w, Choice(c, false)) == Succeed(w, c) && Succeed(w, c).failed == w.failed
    ensures OpsLeft(Succeed(w, c)) == OpsLeft(w) - 1 && |Succeed(w, c).chains| == |w.chains| && SamePolicy(w, Succeed(w, c))
  {
    StepAccounting(w, Choice(c, false));
  }

  /** No unfinished chain writes byte `k` of output 1. */
  ghost predicate Clear(chains: seq<Chain>, js: seq<Job>, k: nat)
    requires |chains| <= |js|
  {
    forall c :: 0 <= c < |chains| && chains[c] != [] && js[c].dst == 1 ==> !(js[c].off <= k < js[c].off + js[c].len)
  }

  /** Output 1 has `b` at position `k`, for good. */
  ghost predicate Fixed(w: World, js: seq<Job>, n: nat, size: nat, k: nat, b: Byte) {
    && Formed(w.chains, js, n, size) && Clear(w.chains, js, k)
    && |w.files| > 1 && k < |w.files[1]| && w.files[1][k] == b
  }

  lemma StepFixed(w: World, js: seq<Job>, n: nat, size: nat, k: nat, b: Byte, ch: Choice)
    requires Fixed(w, js, n, size, k, b)
    ensures Fixed(Step(w, ch), js, n, size, k, b)
  {
    hide Ready, Pwrite, Pread;
    var c := ch.chain;
    if c < |w.chains| && w.chains[c] != [] {
      SuccessorFormed(w.chains, js, n, size, c);
      assert ChainState(w.chains[c], js[c]);
      if Ready(w, c) { WriteMisses(w, js, n, size, k, b, c); }
    }
  }

  lemma WriteMisses(w: World, js: seq<Job>, n: nat, size: nat, k: nat, b: Byte, c: nat)
    requires Fixed(w, js, n, size, k, b) && Ready(w, c)
    ensures var v := Apply(w, w.chains[c][0].op); |v.files| > 1 && k < |v.files[1]| && v.files[1][k] == b
  {
    hide Pwrite, InOrder;
    assert ChainState(w.chains[c], js[c]) && JobOk(js[c], n, size);
    if w.chains[c] == [DrainOf(js[c])] {
      var d := w.pipes[js[c].dst][..js[c].len];
      if js[c].dst == 1 { PwriteAt(w.files[1], js[c].off, d, k); }
    }
  }

  lemma {:induction false} ExecFixed(w: World, js: seq<Job>, n: nat, size: nat, k: nat, b: Byte, sched: seq<Choice>)
    requires Fixed(w, js, n, size, k, b)
    ensures Fixed(Exec(w, sched), js, n, size, k, b)
    decreases |sched|
  {
    hide Fixed, Step;
    if sched != [] {
      StepFixed(w, js, n, size, k, b, sched[0]);
      ExecFixed(Step(w, sched[0]), js, n, size, k, b, sched[1..]);
    }
  }

  /** Two chunks wait for output 1, both fit into its pipe, and nothing links their chains: chunk `q` may be
    * filled first. Then chunk `p`, drained next, gets the first bytes of chunk `q`. */
  lemma SwapFills(w: World, input: Bytes, js: seq<Job>, n: nat, p: nat, q: nat)
    requires Inv(w, input, js, n, false) && !w.ordered && p != q && p < |w.chains| && q < |w.chains|
    requires w.chains[p] == Pair(js[p]) && w.chains[q] == Pair(js[q]) && js[p].dst == js[q].dst == 1 <= n
    requires w.pipes[1] == [] && js[p].len + js[q].len <= w.cap
    ensures Ready(w, q) && Ready(Succeed(w, q), p)
    ensures var v := Succeed(Succeed(w, q), p);
            && v.pipes[1] == Pread(input, js[q].off, js[q].len) + Pread(input, js[p].off, js[p].len)
            && v.chains == w.chains[q := [DrainOf(js[q])]][p := [DrainOf(js[p])]] && !v.ordered && v.files == w.files
  {
    hide Pending, NoStray, Holds, Pread;
    assert JobOk(js[p], n, |input|) && JobOk(js[q], n, |input|);
    assert |Pread(input, js[q].off, js[q].len)| == js[q].len by { PreadLength(input, js[q].off, js[q].len); }
    assert w.chains[q][1..] == [DrainOf(js[q])] && w.chains[p][1..] == [DrainOf(js[p])];
  }

  lemma PreadLength(f: Bytes, off: nat, len: nat)
    requires off + len <= |f|
    ensures |Pread(f, off, len)| == len && (len > 0 ==> Pread(f, off, len)[0] == f[off])
  {
  }

  /** Draining chunk `p` now writes the wrong bytes, and its chain is finished. */
  lemma DrainWrong(w: World, input: Bytes, js: seq<Job>, n: nat, p: nat, q: nat)
    requires Shape(w, input, js, n) && !w.ordered && p < |w.chains| && q < |js| && w.chains[p] == [DrainOf(js[p])]
    requires js[p].dst == js[q].dst == 1 <= n
    requires w.pipes[1] == Pread(input, js[q].off, js[q].len) + Pread(input, js[p].off, js[p].len)
    ensures Ready(w, p)
    ensures var v := Succeed(w, p);
            && v.chains == w.chains[p := []]
            && |v.files| > 1 && js[p].off < |v.files[1]| && v.files[1][js[p].off] == input[js[q].off]
  {
    hide Pread, Pwrite;
    assert JobOk(js[p], n, |input|) && JobOk(js[q], n, |input|);
    PreadLength(input, js[q].off, js[q].len);
    PreadLength(input, js[p].off, js[p].len);
    var d := w.pipes[1][..js[p].len];
    assert d[0] == input[js[q].off] && w.chains[p][1..] == [];
    PwriteAt(w.files[1], js[p].off, d, js[p].off);
  }

  /** The start of such a run. */
  function Overtaking(p: nat, q: nat): seq<Choice> { [Choice(q, false), Choice(p, false), Choice(p, false)] }

  lemma Swap(w: World, input: Bytes, js: seq<Job>, n: nat, p: nat, q: nat)
    requires Inv(w, input, js, n, false) && !w.ordered && p != q && p < |w.chains| && q < |w.chains|
    requires w.chains[p] == Pair(js[p]) && w.chains[q] == Pair(js[q]) && js[p].dst == js[q].dst == 1 <= n
    requires w.pipes[1] == [] && js[p].len + js[q].len <= w.cap
    ensures var v := Exec(w, Overtaking(p, q));
            && Inv(v, input, js, n, false) && SamePolicy(w, v) && v.failed == w.failed && |v.chains| == |w.chains|
            && v.chains[p] == [] && (forall c :: 0 <= c < |w.chains| && c != p && w.chains[c] == [] ==> v.chains[c] == [])
            && |v.files| > 1 && js[p].off < |v.files[1]| && v.files[1][js[p].off] == input[js[q].off]
  {
    hide Inv, Ready, Succeed, Step, Pread;
    SwapFills(w, input, js, n, p, q);
    var w1 := Succeed(w, q);
    StepReady(w, q);
    SucceedInv(w, input, js, n, false, q);
    var w2 := Succeed(w1, p);
    StepReady(w1, p);
    SucceedInv(w1, input, js, n, false, p);
    InvShape(w2, input, js, n);
    DrainWrong(w2, input, js, n, p, q);
    StepReady(w2, p);
    SucceedInv(w2, input, js, n, false, p);
    ExecThree(w, Choice(q, false), Choice(p, false), Choice(p, false));
  }

  lemma InvShape(w: World, input: Bytes, js: seq<Job>, n: nat)
    requires Inv(w, input, js, n, false)
    ensures Shape(w, input, js, n)
  {
  }

  lemma ExecThree(w: World, a: Choice, b: Choice, c: Choice)
    ensures Exec(w, [a, b, c]) == Step(Step(Step(w, a), b), c)
  {
    hide Step;
    assert [a, b, c][1..] == [b, c] && [b, c][1..] == [c] && [c][1..] == [];
    assert Exec(w, [a, b, c]) == Exec(Step(w, a), [b, c]);
    assert Exec(Step(w, a), [b, c]) == Exec(Step(Step(w, a), b), [c]);
    assert Exec(Step(Step(w, a), b), [c]) == Exec(Step(Step(Step(w, a), b), c), []);
  }

  // ---- the chunks of the batch ----

  /** Chunk `e` of the batch for output 1. */
  lemma {:induction false} FindJob(n: nat, size: nat, c: nat, e: nat) returns (x: nat)
    requires n >= 1 && Cut(n, size, c) <= e <= c
    ensures x < |Filled(n, size, c)| && Filled(n, size, c)[x] == Job(1, e * CHUNK, ChunkLen(size, e))
  {
    hide Position, PerBatch, ChunkLen, Due;
    var waiting := Waiting(n, size, c);
    if e < c {
      x := FindJob(n, size, c - 1, e);
    } else {
      x := |waiting|;
      assert Queued(n, c) >= 1;
    }
  }

  /** No two jobs of a batch are for the same chunk and output. */
  ghost predicate AllDifferent(js: seq<Job>) {
    forall x, y :: 0 <= x < y < |js| && js[x].dst == js[y].dst ==> js[x].off < js[y].off
  }

  lemma {:induction false} FilledDiffer(n: nat, size: nat, c: nat)
    ensures AllDifferent(Filled(n, size, c))
  {
    hide Position, PerBatch, ChunkLen, Due, Queued;
    var waiting, batch := Waiting(n, size, c), Filled(n, size, c);
    if waiting != [] { FilledDiffer(n, size, c - 1); }
    WaitingChunks(n, size, c);
    forall x, y | 0 <= x < y < |batch| && batch[x].dst == batch[y].dst ensures batch[x].off < batch[y].off {
      if y >= |waiting| && x < |waiting| { EarlierChunk(waiting[x], n, size, c); }
    }
  }

  lemma EarlierChunk(x: Job, n: nat, size: nat, c: nat)
    requires ChunkOf(x, n, size, Cut(n, size, c), c)
    ensures x.off < c * CHUNK
  {
    var e :| Cut(n, size, c) <= e < c && IsChunk(x, n, size, e);
  }

  /** A job that covers the first byte of a chunk is for that chunk. */
  lemma SameStart(x: Job, n: nat, size: nat, lo: nat, hi: nat, e: nat)
    requires ChunkOf(x, n, size, lo, hi) && x.off <= e * CHUNK < x.off + x.len
    ensures x.off == e * CHUNK && lo <= e < hi
  {
    var c :| lo <= c < hi && IsChunk(x, n, size, c);
  }

  lemma {:induction false} CutStays(n: nat, size: nat, c: nat)
    ensures var d := Cut(n, size, c); d <= c && Cut(n, size, d) == d
  {
    hide Filled;
    if c > 0 && Cut(n, size, c) < c { CutStays(n, size, c - 1); }
  }

  /** The batch that has chunk `d` has the chunk before it too. */
  lemma BothInBatch(n: nat, size: nat, cap: nat, d: nat, c: nat)
    requires n >= 1 && Meets(n, size, cap, d) && Cut(n, size, c) <= d
    ensures Cut(n, size, c) <= d - 1
  {
    hide PerBatch, ChunkLen;
    CutBefore(n, size, d);
    CutStays(n, size, c);
  }

  // ---- the whole run ----

  /** Output 1 has the first byte of chunk `d` where the chunk before it belongs. */
  ghost predicate Misplaced(w: World, input: Bytes, d: nat) {
    && 0 < d && d * CHUNK < |input|
    && |w.files| > 1 && (d - 1) * CHUNK < |w.files[1]| && w.files[1][(d - 1) * CHUNK] == input[d * CHUNK]
  }

  /** All that was submitted has ended. */
  lemma EndSettled(w: World, input: Bytes, js: seq<Job>, n: nat)
    requires Inv(w, input, js, n, false) && OpsLeft(w) == 0 && |w.chains| == |js|
    ensures Settled(Quiet(w), input, js, n, false)
  {
    InvIgnoresQueue(w, input, js, n, false, []);
    Reaped(w, input, js, n, false);
    InvShape(w, input, js, n);
    hide Inv;
  }

  lemma LaunchInv(u: World, input: Bytes, js: seq<Job>, n: nat, batch: seq<Job>)
    requires Settled(u, input, js, n, false) && u.failed == {} && Formed([], batch, n, |input|)
    ensures var v := Launched(u, Pairs(batch)); Inv(v, input, js + batch, n, false) && |v.chains| == |js + batch| && PipesEmpty(v)
    ensures |u.chains| == |js| && forall c :: 0 <= c < |js| ==> u.chains[c] == []
  {
    hide Inv;
    SubmitInv(u, input, js, n, false, batch);
  }

  /** A batch without the swap: it ends, and a byte misplaced before stays where it is. */
  lemma PlainBatch(u: World, n: nat, input: Bytes, d: nat, c: nat) returns (sched: seq<Choice>)
    requires Settled(u, input, Done(n, |input|, c), n, false) && u.failed == {} && c < Chunks(|input|) && n >= 1
    ensures var w := Quiet(Exec(Launched(u, Pairs(Filled(n, |input|, c))), sched));
            && OpsLeft(w) == 0 && w.failed == {} && SamePolicy(u, w)
            && Settled(w, input, Done(n, |input|, c) + Filled(n, |input|, c), n, false)
            && (Misplaced(u, input, d) && Cut(n, |input|, c) > d ==> Misplaced(w, input, d))
  {
    hide Inv, Filled, Settled, Exec, Done;
    var js, batch := Done(n, |input|, c), Filled(n, |input|, c);
    var v := Launched(u, Pairs(batch));
    FilledFormed(n, |input|, c);
    LaunchInv(u, input, js, n, batch);
    sched := Finish(v, input, js + batch, n);
    EndSettled(Exec(v, sched), input, js + batch, n);
    if Misplaced(u, input, d) && Cut(n, |input|, c) > d {
      StillClear(u, input, js, n, d, c);
      ExecFixed(v, js + batch, n, |input|, (d - 1) * CHUNK, input[d * CHUNK], sched);
    }
  }

  lemma StillClear(u: World, input: Bytes, js: seq<Job>, n: nat, d: nat, c: nat)
    requires Settled(u, input, js, n, false) && u.failed == {} && Formed([], Filled(n, |input|, c), n, |input|)
    requires Misplaced(u, input, d) && Cut(n, |input|, c) > d
    ensures var batch := Filled(n, |input|, c);
            Fixed(Launched(u, Pairs(batch)), js + batch, n, |input|, (d - 1) * CHUNK, input[d * CHUNK])
  {
    hide Inv, Filled;
    var batch, all := Filled(n, |input|, c), js + Filled(n, |input|, c);
    var v := Launched(u, Pairs(batch));
    SubmitFormed(u.chains, js, batch, n, |input|);
    BatchChunks(n, |input|, c);
    forall x | 0 <= x < |v.chains| && v.chains[x] != [] ensures !(all[x].off <= (d - 1) * CHUNK < all[x].off + all[x].len) {
      assert all[x] == batch[x - |js|] && batch[x - |js|] in batch;
    }
  }

  lemma BatchChunks(n: nat, size: nat, c: nat)
    ensures forall x :: x in Filled(n, size, c) ==> ChunkOf(x, n, size, Cut(n, size, c), c + 1)
  {
    WaitingChunks(n, size, c);
    FilledChunks(n, size, c);
  }

  /** The batch of chunk `d`, run so that it overtakes the chunk before it. */
  lemma SwappedBatch(u: World, n: nat, input: Bytes, d: nat, c: nat) returns (sched: seq<Choice>)
    requires Settled(u, input, Done(n, |input|, c), n, false) && u.failed == {} && c < Chunks(|input|) && n >= 1 && !u.ordered
    requires Meets(n, |input|, u.cap, d) && Cut(n, |input|, c) <= d - 1 && d <= c
    ensures var w := Quiet(Exec(Launched(u, Pairs(Filled(n, |input|, c))), sched));
            && OpsLeft(w) == 0 && w.failed == {} && SamePolicy(u, w)
            && Settled(w, input, Done(n, |input|, c) + Filled(n, |input|, c), n, false) && Misplaced(w, input, d)
  {
    hide Inv, Filled, Settled, Exec, Done, Fixed, Formed, Clear;
    var js, batch := Done(n, |input|, c), Filled(n, |input|, c);
    var v, all := Launched(u, Pairs(batch)), js + batch;
    FilledFormed(n, |input|, c);
    LaunchInv(u, input, js, n, batch);
    var x := FindJob(n, |input|, c, d - 1);
    var y := FindJob(n, |input|, c, d);
    var p, q := |js| + x, |js| + y;
    TheTwoChunks(u, n, input, js, batch, d, x, y);
    Swap(v, input, all, n, p, q);
    var v1 := Exec(v, Overtaking(p, q));
    var rest := Finish(v1, input, all, n);
    sched := Overtaking(p, q) + rest;
    ExecAppend(v, Overtaking(p, q), rest);
    EndSettled(Exec(v1, rest), input, all, n);
    NowFixed(v1, input, n, c, js, p, d);
    ExecFixed(v1, all, n, |input|, (d - 1) * CHUNK, input[d * CHUNK], rest);
    FixedMisplaced(Exec(v1, rest), input, all, n, d);
  }

  lemma TheTwoChunks(u: World, n: nat, input: Bytes, js: seq<Job>, batch: seq<Job>, d: nat, x: nat, y: nat)
    requires Settled(u, input, js, n, false) && u.failed == {} && Meets(n, |input|, u.cap, d) && x < |batch| && y < |batch|
    requires batch[x] == Job(1, (d - 1) * CHUNK, ChunkLen(|input|, d - 1)) && batch[y] == Job(1, d * CHUNK, ChunkLen(|input|, d))
    ensures var v, all, p, q := Launched(u, Pairs(batch)), js + batch, |js| + x, |js| + y;
            && p != q && p < |v.chains| && q < |v.chains| && v.chains[p] == Pair(all[p]) && v.chains[q] == Pair(all[q])
            && all[p] == batch[x] && all[q] == batch[y] && all[p].len + all[q].len <= v.cap
            && d * CHUNK < |input| && |v.pipes| == n + 1
  {
    hide Pending, NoStray;
  }

  /** Chunk `d - 1` is drained, and no other chain writes there. */
  lemma NowFixed(v: World, input: Bytes, n: nat, c: nat, js: seq<Job>, p: nat, d: nat)
    requires var all := js + Filled(n, |input|, c);
             && Inv(v, input, all, n, false) && |v.chains| == |all| && |js| <= p < |all|
             && all[p].dst == 1 && all[p].off == (d - 1) * CHUNK
    requires 0 < d && d * CHUNK < |input| && v.chains[p] == [] && forall x :: 0 <= x < |js| ==> v.chains[x] == []
    requires |v.files| > 1 && (d - 1) * CHUNK < |v.files[1]| && v.files[1][(d - 1) * CHUNK] == input[d * CHUNK]
    ensures Fixed(v, js + Filled(n, |input|, c), n, |input|, (d - 1) * CHUNK, input[d * CHUNK])
  {
    hide Inv, Filled;
    var batch, all := Filled(n, |input|, c), js + Filled(n, |input|, c);
    InvShape(v, input, all, n);
    BatchChunks(n, |input|, c);
    FilledDiffer(n, |input|, c);
    forall x | 0 <= x < |v.chains| && v.chains[x] != [] && all[x].dst == 1
      ensures !(all[x].off <= (d - 1) * CHUNK < all[x].off + all[x].len)
    {
      assert all[x] == batch[x - |js|] && all[p] == batch[p - |js|] && x != p && batch[x - |js|] in batch;
      if all[x].off <= (d - 1) * CHUNK < all[x].off + all[x].len {
        SameStart(all[x], n, |input|, Cut(n, |input|, c), c + 1, d - 1);
      }
    }
  }

  lemma FixedMisplaced(w: World, input: Bytes, js: seq<Job>, n: nat, d: nat)
    requires 0 < d && d * CHUNK < |input| && Fixed(w, js, n, |input|, (d - 1) * CHUNK, input[d * CHUNK])
    ensures Misplaced(Quiet(w), input, d)
  {
  }

  /** Whenever two chunks of a batch fit into a pipe together, there is a run of the plan, without any failure,
    * in which the second one overtakes the first. */
  lemma {:induction false} OvertakingRun(w0: World, n: nat, d: nat, c: nat) returns (w: World)
    requires Opened(w0, n) && n >= 1 && CHUNK <= w0.cap && !w0.ordered && c <= Chunks(|w0.files[0]|)
    requires Meets(n, |w0.files[0]|, w0.cap, d)
    ensures Ran(w0, w, BatchChains(Batches(n, |w0.files[0]|, c))) && w.failed == {} && SamePolicy(w0, w)
    ensures Settled(w, w0.files[0], Done(n, |w0.files[0]|, c), n, false)
    ensures Cut(n, |w0.files[0]|, c) > d ==> Misplaced(w, w0.files[0], d)
  {
    hide Settled, Ran, Batches, Done, Filled, Due, Chunks, BatchChains, Cut, Misplaced, Meets, Exec, Pairs;
    var input, size := w0.files[0], |w0.files[0]|;
    if c == 0 {
      w := w0;
      NothingRan(w0, n);
    } else {
      var u := OvertakingRun(w0, n, d, c - 1);
      if !Due(size, c - 1, |Filled(n, size, c - 1)|) {
        NotDue(n, size, c - 1);
        w := u;
      } else {
        IsDue(n, size, c - 1);
        var batch, sched := Filled(n, size, c - 1), [];
        if Cut(n, size, c - 1) <= d && d <= c - 1 {
          BothInBatch(n, size, w0.cap, d, c - 1);
          sched := SwappedBatch(u, n, input, d, c - 1);
        } else {
          sched := PlainBatch(u, n, input, d, c - 1);
        }
        w := Quiet(Exec(Launched(u, Pairs(batch)), sched));
        RanMore(w0, u, w, BatchChains(Batches(n, size, c - 1)), Pairs(batch), sched);
      }
    }
  }

  lemma NothingRan(w0: World, n: nat)
    requires Opened(w0, n) && CHUNK <= w0.cap
    ensures Ran(w0, w0, BatchChains(Batches(n, |w0.files[0]|, 0))) && Cut(n, |w0.files[0]|, 0) == 0
    ensures Settled(w0, w0.files[0], Done(n, |w0.files[0]|, 0), n, false)
  {
    NoData(w0.chains);
  }

  // ---- the exact condition ----

  /** Every run of the plan without failures, for every input of this size, leaves the planned outputs,
    * although nothing is known about the order in which a pipe is used. */
  ghost predicate OrderFree(n: nat, size: nat, cap: nat) {
    forall w0, w :: Unordered(w0, n, size, cap) && PlanRan(w0, w, n) ==> AsPlanned(w, w0.files[0], n)
  }
  ghost predicate Unordered(w0: World, n: nat, size: nat, cap: nat) {
    Opened(w0, n) && |w0.files[0]| == size && w0.cap == cap && !w0.ordered
  }
  ghost predicate PlanRan(w0: World, w: World, n: nat)
    requires w0.files != []
  {
    Ran(w0, w, BatchChains(Batches(n, |w0.files[0]|, Chunks(|w0.files[0]|)))) && w.failed == {}
  }

  /** An input in which chunk `d - 1` alone does not begin with a zero. */
  function Marked(size: nat, d: nat): Bytes
    requires d > 0
  {
    seq(size, k requires 0 <= k < size => if k == (d - 1) * CHUNK then 1 else 0)
  }

  lemma OrderMatters(n: nat, size: nat, cap: nat, d: nat)
    requires n >= 1 && CHUNK <= cap && Meets(n, size, cap, d)
    ensures !OrderFree(n, size, cap)
  {
    hide Ran, Batches, Output, BatchChains, Settled, Done, Cut;
    var input := Marked(size, d);
    var w0 := World([input] + seq(n, _ => []), seq(n + 1, _ => []), cap, map[], [], [], {}, map[], false, false);
    var w := OvertakingRun(w0, n, d, Chunks(size));
    AllCut(n, size, d);
    WrongByte(w, input, n, d);
    assert Unordered(w0, n, size, cap) && PlanRan(w0, w, n);
  }

  lemma AllCut(n: nat, size: nat, d: nat)
    requires 0 < d < Chunks(size)
    ensures Cut(n, size, Chunks(size)) > d
  {
    hide Filled;
  }

  lemma WrongByte(w: World, input: Bytes, n: nat, d: nat)
    requires n >= 1 && 0 < d < Chunks(|input|) && Misplaced(w, input, d) && input[(d - 1) * CHUNK] != input[d * CHUNK]
    ensures !AsPlanned(w, input, n)
  {
    hide PerBatch, Position;
    PositionExact(n, d - 1);
    assert Covered(n, d - 1, 0);
    assert Reach(n, Chunks(|input|), 0) > d - 1;
    assert Output(input, n, 0)[(d - 1) * CHUNK] == input[(d - 1) * CHUNK];
    assert w.files[0 + 1] != Output(input, n, 0);
  }

  /** The order in which pipes are used does not matter exactly when the plan keeps chunks apart in them. */
  lemma OrderFreeExactly(n: nat, size: nat, cap: nat)
    requires n >= 1 && CHUNK <= cap
    ensures OrderFree(n, size, cap) <==> KeepsApart(n, size, cap)
  {
    hide OrderFree, KeepsApart, Meets;
    ApartExactly(n, size, cap);
    if KeepsApart(n, size, cap) {
      ApartIsFree(n, size, cap);
    } else {
      var d :| Meets(n, size, cap, d);
      OrderMatters(n, size, cap, d);
    }
  }

  lemma ApartIsFree(n: nat, size: nat, cap: nat)
    requires n >= 1 && CHUNK <= cap && KeepsApart(n, size, cap)
    ensures OrderFree(n, size, cap)
  {
    hide KeepsApart, AsPlanned, Ran, Batches, BatchChains;
    forall w0, w | Unordered(w0, n, size, cap) && PlanRan(w0, w, n) ensures AsPlanned(w, w0.files[0], n) {
      RanAsPlanned(w0, w, n);
    }
  }

  /** With the pipes that main sets up, 1 MiB each: at least 256 outputs, or an input of one chunk. */
  lemma WithMainsPipes(n: nat, size: nat)
    requires n >= 1
    ensures OrderFree(n, size, 1048576) <==> n >= 256 || Chunks(size) <= 1
  {
    hide OrderFree;
    OrderFreeExactly(n, size, 1048576);
    OneChunkBatches(n);
  }
}
