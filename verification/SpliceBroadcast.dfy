/** Mode 3: batches of fill/drain chains through a 512-entry queue. */
module SpliceBroadcast {
  import opened Files
  import opened Kernel
  import opened Sums
  import opened Uring
  import opened Spec
  import opened SplicePlan
  import opened SplicePipes

  /** The bytes left in the outputs are known if pipes are used in submission order or no two chunks of a
    * batch meet in a pipe. */
  predicate Exact(w: World, n: nat, size: nat) { w.ordered || KeepsApart(n, size, w.cap) }

  /** The chains of the batches. */
  function BatchChains(batches: seq<seq<Job>>): seq<seq<Chain>> {
    seq(|batches|, k requires 0 <= k < |batches| => Pairs(batches[k]))
  }

  // ---- the state between two batches ----

  lemma NoData(chains: seq<Chain>)
    requires forall c :: 0 <= c < |chains| ==> chains[c] == []
    ensures Total(chains, ChainData) == 0 && Total(chains, ChainOps) == 0
  {
    TotalZero(chains, ChainData);
    TotalZero(chains, ChainOps);
  }

  /** All submitted work is done; unless something failed it has left nothing behind. */
  ghost predicate Settled(w: World, input: Bytes, js: seq<Job>, n: nat, exact: bool) {
    && Formed(w.chains, js, n, |input|) && |w.chains| == |js| && w.cq == [] && CHUNK <= w.cap
    && (forall c :: 0 <= c < |w.chains| ==> w.chains[c] == [])
    && (w.failed == {} ==> Inv(w, input, js, n, exact) && PipesEmpty(w))
  }

  /** The count so far: the bytes of the jobs whose chains did not fail. */
  ghost predicate Verified(w: World, js: seq<Job>, verified: int) {
    verified == SuccessBytes(js, w.failed) && forall c :: c in w.failed ==> c < |w.chains|
  }

  lemma {:induction false} SuccessAppend(js: seq<Job>, batch: seq<Job>, failed: set<nat>)
    requires forall c :: c in failed ==> c < |js|
    ensures SuccessBytes(js + batch, failed) == SuccessBytes(js, failed) + JobBytes(batch)
  {
    if batch == [] {
      assert js + batch == js;
    } else {
      SuccessAppend(js, batch[..|batch| - 1], failed);
      assert (js + batch)[..|js + batch| - 1] == js + batch[..|batch| - 1];
    }
  }

  /** The count is complete exactly when nothing failed. */
  lemma {:induction false} SuccessExactly(js: seq<Job>, failed: set<nat>)
    requires forall c :: 0 <= c < |js| ==> js[c].len > 0
    ensures SuccessBytes(js, failed) <= JobBytes(js)
    ensures SuccessBytes(js, failed) == JobBytes(js) <==> forall c :: 0 <= c < |js| ==> c !in failed
  {
    if js != [] {
      var front := js[..|js| - 1];
      assert forall c :: 0 <= c < |front| ==> front[c] == js[c];
      SuccessExactly(front, failed);
    }
  }

  lemma {:induction false} PairsSums(batch: seq<Job>)
    ensures Total(Pairs(batch), ChainOps) == 2 * |batch|
    ensures Total(Pairs(batch), ChainData) == JobBytes(batch)
  {
    if batch != [] {
      var last := |batch| - 1;
      PairsSums(batch[..last]);
      assert Pairs(batch)[..last] == Pairs(batch[..last]);
      ChainDataHead(Pair(batch[last]));
      ChainDataHead(Pair(batch[last])[1..]);
    }
  }

  lemma LaunchSafe(w: World, input: Bytes, js: seq<Job>, n: nat, exact: bool, batch: seq<Job>, sofar: int)
    requires Settled(w, input, js, n, exact) && Verified(w, js, sofar) && Formed([], batch, n, |input|)
    requires exact ==> w.ordered || BatchApart(batch, w.cap)
    ensures Safe(Launched(w, Pairs(batch)), input, js + batch, n, exact, sofar)
    ensures OpsLeft(Launched(w, Pairs(batch))) == 2 * |batch|
  {
    hide Inv, Pairs, Pair, JobBytes;
    SubmitFormed(w.chains, js, batch, n, |input|);
    NoData(w.chains);
    PairsSums(batch);
    SuccessAppend(js, batch, w.failed);
    TotalAppend(w.chains, Pairs(batch), ChainOps);
    TotalAppend(w.chains, Pairs(batch), ChainData);
    if w.failed == {} { SubmitInv(w, input, js, n, exact, batch); }
  }

  lemma BatchSettled(w: World, input: Bytes, js: seq<Job>, n: nat, exact: bool, verified: int)
    requires Safe(w, input, js, n, exact, verified) && OpsLeft(w) == 0 && w.cq == [] && |w.chains| == |js|
    ensures Settled(w, input, js, n, exact) && Verified(w, js, verified)
  {
    hide Inv;
    TotalZero(w.chains, ChainOps);
    NoData(w.chains);
    if w.failed == {} { Reaped(w, input, js, n, exact); }
  }

  // ---- queueing ----

  /** The submission queue holds exactly the fill/drain pairs of `batch`, no half chain. */
  ghost predicate Holding(sq: seq<Sqe>, batch: seq<Job>) {
    Closed(sq) && Split(sq) == Pairs(batch) && |sq| == 2 * |batch|
  }

  lemma HoldingAppend(sq: seq<Sqe>, batch: seq<Job>, j: Job)
    requires Holding(sq, batch)
    ensures Holding(sq + [FillOf(j)] + [DrainOf(j)], batch + [j])
  {
    SplitAppend(sq, Pair(j));
    SplitChain(Pair(j));
    assert sq + [FillOf(j)] + [DrainOf(j)] == sq + Pair(j);
    assert Pairs(batch + [j]) == Pairs(batch) + [Pair(j)];
  }

  /** Queues one chunk for as many outputs as fit (the loop over `output_files`). */
  method QueueChunk(ring: Ring, n: nat, off: nat, len: nat, expected: nat, ghost batch: seq<Job>) returns (queued: nat)
    requires ring.entries == DEPTH && Holding(ring.sq, batch) && |ring.sq| == expected <= DEPTH
    modifies ring`sq
    ensures var q := Min(n, DEPTH / 2 - |batch|);
            queued == expected + 2 * q && Holding(ring.sq, batch + ChunkJobs(q, off, len))
  {
    queued := expected;
    var i := 0;
    assert batch + ChunkJobs(0, off, len) == batch;
    while i < n
      invariant i <= n && |ring.sq| == queued == expected + 2 * i <= DEPTH
      invariant Holding(ring.sq, batch + ChunkJobs(i, off, len))
    {
      var j := Job(i + 1, off, len);
      ghost var before := ring.sq;
      var ok := ring.GetSqe(FillOf(j));
      if !ok { break; }
      ok := ring.GetSqe(DrainOf(j));
      assert ok;  // an even queue never ends in the middle of a pair, so the second break is never taken
      HoldingAppend(before, batch + ChunkJobs(i, off, len), j);
      assert batch + ChunkJobs(i, off, len) + [j] == batch + ChunkJobs(i + 1, off, len);
      queued := queued + 2;
      i := i + 1;
    }
  }

  datatype SpliceResult =
    | Returned(verified: nat)
    | Blocked                  // io_uring_wait_cqe_nr never returns

  // ---- reaping ----

  lemma InvIgnoresQueue(w: World, input: Bytes, js: seq<Job>, n: nat, exact: bool, cq: seq<Cqe>)
    ensures Inv(w.(cq := cq), input, js, n, exact) == Inv(w, input, js, n, exact)
  {
    hide Pending, Holds, InJob;
  }

  /** Taking a completion off the queue and counting what it reports. */
  lemma Counted(w: World, input: Bytes, js: seq<Job>, n: nat, exact: bool, sofar: int)
    requires Safe(w, input, js, n, exact, sofar) && w.cq != []
    ensures Safe(w.(cq := w.cq[1..]), input, js, n, exact, sofar + Reported(w.cq[0]))
  {
    hide Inv, SuccessBytes;
    InvIgnoresQueue(w, input, js, n, exact, w.cq[1..]);
    DeliveredHead(w.cq);
  }

  lemma HangMeansFailure(w: World, input: Bytes, js: seq<Job>, n: nat, exact: bool, sofar: int)
    requires Safe(w, input, js, n, exact, sofar) && OpsLeft(w) > 0 && forall c :: !Ready(w, c)
    ensures w.failed != {}
  {
    TotalZero(w.chains, ChainOps);
    if w.failed == {} { Progress(w, input, js, n, exact); }
  }

  /** The batch launched in `u` is running: so far the kernel has made the choices `sched`. */
  ghost predicate Running(u: World, w: World, batch: seq<Job>, sched: seq<Choice>) {
    Quiet(w) == Quiet(Exec(Launched(u, Pairs(batch)), sched))
  }

  /** Reaps exactly the completions of the submitted batch; without a failure no wait can hang. */
  method Reap(ring: Ring, expected: nat, sofar: nat, ghost input: Bytes, ghost js: seq<Job>, ghost n: nat, ghost exact: bool,
              ghost u: World, ghost batch: seq<Job>, ghost sched0: seq<Choice>)
    returns (r: SpliceResult, ghost sched: seq<Choice>)
    requires Safe(ring.w, input, js, n, exact, sofar) && |ring.w.cq| + OpsLeft(ring.w) == expected
    requires Running(u, ring.w, batch, sched0)
    modifies ring`w
    ensures SamePolicy(old(ring.w), ring.w) && |ring.w.chains| == old(|ring.w.chains|)
    ensures r.Blocked? ==> ring.w.failed != {} && Stuck(ring.w)
    ensures r.Returned? ==> Safe(ring.w, input, js, n, exact, r.verified) && OpsLeft(ring.w) == 0 && ring.w.cq == []
    ensures Running(u, ring.w, batch, sched)
  {
    hide Safe, Inv, Exec, Launched, Pairs;
    var verified: nat, left: nat := sofar, expected;
    sched := sched0;
    while left > 0
      invariant Safe(ring.w, input, js, n, exact, verified) && |ring.w.cq| + OpsLeft(ring.w) == left
      invariant SamePolicy(old(ring.w), ring.w) && |ring.w.chains| == old(|ring.w.chains|)
      invariant Running(u, ring.w, batch, sched)
    {
      ghost var w0 := ring.w;
      var hung, more := ring.WaitNr(1);
      ExecSafe(w0, input, js, n, exact, verified, more);
      ExecAccounting(w0, more);
      ExecGoesOn(w0, Launched(u, Pairs(batch)), sched, more);
      sched := sched + more;
      if hung {
        HangMeansFailure(ring.w, input, js, n, exact, verified);
        return Blocked, sched;
      }
      var cqe := ring.w.cq[0];
      Counted(ring.w, input, js, n, exact, verified);
      if cqe.data != 0 && cqe.res > 0 {
        verified := verified + cqe.res;
      }
      ring.CqeSeen();
      left := left - 1;
    }
    r := Returned(verified);
  }

  /** One periodic submission: the whole batch runs, under any schedule, and is reaped. */
  method Flush(ring: Ring, expected: nat, sofar: nat, ghost input: Bytes, ghost js: seq<Job>, ghost n: nat, ghost exact: bool,
               ghost batch: seq<Job>)
    returns (r: SpliceResult, ghost sched: seq<Choice>)
    requires Settled(ring.w, input, js, n, exact) && Verified(ring.w, js, sofar)
    requires Holding(ring.sq, batch) && expected == |ring.sq| && Formed([], batch, n, |input|)
    requires exact ==> ring.w.ordered || BatchApart(batch, ring.w.cap)
    modifies ring
    ensures ring.sq == [] && SamePolicy(old(ring.w), ring.w)
    ensures r.Blocked? ==> ring.w.failed != {} && Stuck(ring.w) && Running(old(ring.w), ring.w, batch, sched)
    ensures r.Returned? ==> Settled(ring.w, input, js + batch, n, exact) && Verified(ring.w, js + batch, r.verified)
    ensures r.Returned? ==> BatchRan(old(ring.w), ring.w, Pairs(batch), sched)
  {
    hide Safe, Inv, Settled, Verified, Formed, Split, Exec, BatchApart;
    ghost var u, all := ring.w, js + batch;
    LaunchSafe(u, input, js, n, exact, batch, sofar);
    ChainsMatch(u, input, js, n, exact, batch);
    sched := ring.Submit();
    ExecSafe(Launched(u, Pairs(batch)), input, all, n, exact, sofar, sched);
    ExecAccounting(Launched(u, Pairs(batch)), sched);
    r, sched := Reap(ring, expected, sofar, input, all, n, exact, u, batch, sched);
    if r.Returned? { BatchSettled(ring.w, input, all, n, exact, r.verified); }
  }

  lemma ChainsMatch(u: World, input: Bytes, js: seq<Job>, n: nat, exact: bool, batch: seq<Job>)
    requires Settled(u, input, js, n, exact)
    ensures |Launched(u, Pairs(batch)).chains| == |js + batch| && u.cq == []
  {
  }

  // ---- the outcome ----

  lemma JobDelivered(w: World, input: Bytes, js: seq<Job>, n: nat, k: nat)
    requires Settled(w, input, js, n, true) && w.failed == {} && k < |js|
    ensures 1 <= js[k].dst <= n < |w.files| && Holds(w.files[js[k].dst], input, js[k].off, js[k].off + js[k].len)
  {
    assert w.chains[k] == [] && JobOk(js[k], n, |input|);
  }

  lemma ChunkDelivered(w: World, input: Bytes, n: nat, js: seq<Job>, c: nat, i: nat)
    requires js == JobsUpTo(n, |input|, Chunks(|input|)) && Settled(w, input, js, n, true) && w.failed == {}
    requires c < Chunks(|input|) && i < n && Covered(n, c, i)
    ensures i + 1 < |w.files| && Holds(w.files[i + 1], input, c * CHUNK, Upto(|input|, CHUNK, c + 1))
  {
    hide Settled, Position, JobsUpTo, Holds, PerBatch;
    QueuedCovered(n, c);
    var k := CoveredIsJob(n, |input|, Chunks(|input|), c, i);
    JobDelivered(w, input, js, n, k);
  }

  lemma SameChunk(off: nat, len: nat, k: nat)
    requires off % CHUNK == 0 && len <= CHUNK && off <= k < off + len
    ensures k / CHUNK == off / CHUNK
  {
  }

  /** Bytes that a job reaches belong to a covered chunk. */
  lemma JobCovers(n: nat, size: nat, count: nat, i: nat, k: nat)
    requires i < n && InJob(JobsUpTo(n, size, count), i + 1, k)
    ensures Covered(n, k / CHUNK, i)
  {
    hide JobsUpTo, Queued, Covered;
    var js := JobsUpTo(n, size, count);
    var j :| 0 <= j < |js| && js[j].dst == i + 1 && js[j].off <= k < js[j].off + js[j].len;
    JobsAreCovered(n, size, count, j);
    SameChunk(js[j].off, js[j].len, k);
    QueuedCovered(n, k / CHUNK);
  }

  /** Whatever the order: skipped chunks are holes. */
  ghost predicate Holes(w: World, n: nat)
    requires |w.files| == n + 1
  {
    forall i, k :: 0 <= i < n && 0 <= k < |w.files[i + 1]| && !Covered(n, k / CHUNK, i) ==> w.files[i + 1][k] == 0
  }

  lemma SettledHoles(w: World, input: Bytes, n: nat, exact: bool)
    requires Settled(w, input, JobsUpTo(n, |input|, Chunks(|input|)), n, exact) && w.failed == {}
    ensures Holes(w, n)
  {
    hide Covered;
    forall i, k | 0 <= i < n && 0 <= k < |w.files[i + 1]| && w.files[i + 1][k] != 0 ensures Covered(n, k / CHUNK, i) {
      JobCovers(n, |input|, Chunks(|input|), i, k);
    }
  }

  lemma OutputEnds(w: World, input: Bytes, n: nat, i: nat)
    requires Settled(w, input, JobsUpTo(n, |input|, Chunks(|input|)), n, true) && w.failed == {} && i < n
    ensures i + 1 < |w.files| && |w.files[i + 1]| == Upto(|input|, CHUNK, Reach(n, Chunks(|input|), i))
  {
    hide Covered, JobsUpTo, Holds;
    var f, e := w.files[i + 1], Reach(n, Chunks(|input|), i);
    if e > 0 {
      ChunkDelivered(w, input, n, JobsUpTo(n, |input|, Chunks(|input|)), e - 1, i);
      LongEnough(f, input, (e - 1) * CHUNK, Upto(|input|, CHUNK, e));
    }
    if f != [] {
      JobCovers(n, |input|, Chunks(|input|), i, |f| - 1);
      assert (|f| - 1) / CHUNK < e;
    }
  }

  lemma LongEnough(f: Bytes, input: Bytes, lo: nat, hi: nat)
    requires Holds(f, input, lo, hi)
    ensures hi <= |f|
  {
  }

  /** Where the bytes are exact, every output is what the plan says. */
  lemma ExactOutput(w: World, input: Bytes, n: nat, i: nat)
    requires Settled(w, input, JobsUpTo(n, |input|, Chunks(|input|)), n, true) && w.failed == {} && i < n
    ensures w.files[i + 1] == Output(input, n, i)
  {
    hide Settled, JobsUpTo, Covered;
    ghost var js := JobsUpTo(n, |input|, Chunks(|input|));
    OutputEnds(w, input, n, i);
    SettledHoles(w, input, n, true);
    forall k | 0 <= k < |w.files[i + 1]| ensures w.files[i + 1][k] == Output(input, n, i)[k] {
      if Covered(n, k / CHUNK, i) { ChunkDelivered(w, input, n, js, k / CHUNK, i); }
    }
  }

  lemma AllPlanned(files: seq<Bytes>, input: Bytes, n: nat)
    requires Disk(files, input, n) && Fits(n, Chunks(|input|)) && forall i :: 0 <= i < n ==> files[i + 1] == Output(input, n, i)
    ensures files == seq(n + 1, _ => input)
  {
    hide Fits, Output;
    forall d | 1 <= d <= n ensures files[d] == input {
      FitsOutputs(input, n, d - 1);
      assert files[(d - 1) + 1] == Output(input, n, d - 1);
    }
  }

  lemma OutcomeCount(w: World, input: Bytes, n: nat, exact: bool, verified: nat)
    requires var js := JobsUpTo(n, |input|, Chunks(|input|)); Settled(w, input, js, n, exact) && Verified(w, js, verified)
    ensures verified == SuccessBytes(JobsUpTo(n, |input|, Chunks(|input|)), w.failed)
    ensures verified == n * |input| <==> Fits(n, Chunks(|input|)) && w.failed == {}
    ensures w.failed == {} ==> verified == JobBytes(JobsUpTo(n, |input|, Chunks(|input|)))
  {
    hide JobsUpTo, Fits, Inv, AllQueued, SuccessBytes;
    var js := JobsUpTo(n, |input|, Chunks(|input|));
    BytesQueued(n, |input|, Chunks(|input|));
    FitsExactly(n, Chunks(|input|));
    assert forall c :: 0 <= c < |js| ==> JobOk(js[c], n, |input|);
    SuccessExactly(js, w.failed);
    assert Upto(|input|, CHUNK, Chunks(|input|)) == |input|;
    assert w.failed == {} <==> forall c :: 0 <= c < |js| ==> c !in w.failed;
  }

  lemma OutcomeState(w: World, input: Bytes, n: nat, exact: bool)
    requires Settled(w, input, JobsUpTo(n, |input|, Chunks(|input|)), n, exact)
    ensures OpsLeft(w) == 0 && (w.failed == {} ==> Disk(w.files, input, n) && PipesEmpty(w))
  {
    hide JobsUpTo, Pending, Fifo, NoStray;
    NoData(w.chains);
  }

  /** The outcome, from the state after the last batch. */
  lemma Outcome(w: World, input: Bytes, n: nat, exact: bool, verified: nat)
    requires var js := JobsUpTo(n, |input|, Chunks(|input|)); Settled(w, input, js, n, exact) && Verified(w, js, verified)
    ensures verified == SuccessBytes(JobsUpTo(n, |input|, Chunks(|input|)), w.failed)
    ensures verified == n * |input| <==> Fits(n, Chunks(|input|)) && w.failed == {}
    ensures w.failed == {} ==> verified == JobBytes(JobsUpTo(n, |input|, Chunks(|input|)))
    ensures OpsLeft(w) == 0
    ensures w.failed == {} ==> Disk(w.files, input, n) && PipesEmpty(w) && Holes(w, n)
    ensures w.failed == {} && exact ==> forall i :: 0 <= i < n ==> w.files[i + 1] == Output(input, n, i)
    ensures w.failed == {} && exact && Fits(n, Chunks(|input|)) ==> w.files == seq(n + 1, _ => input)
  {
    hide JobsUpTo, Fits, Output, Holes, Settled, Verified;
    OutcomeCount(w, input, n, exact, verified);
    OutcomeState(w, input, n, exact);
    if w.failed == {} {
      SettledHoles(w, input, n, exact);
      if exact {
        forall i | 0 <= i < n ensures w.files[i + 1] == Output(input, n, i) {
          ExactOutput(w, input, n, i);
        }
        if Fits(n, Chunks(|input|)) { AllPlanned(w.files, input, n); }
      }
    }
  }

  // ---- the broadcast ----

  /** The state between two chunks: everything flushed is settled, the rest waits in the queue. */
  ghost predicate Between(w0: World, w: World, sq: seq<Sqe>, n: nat, c: nat, expected: nat, verified: nat)
    requires |w0.files| > 0
  {
    var input := w0.files[0];
    && c <= Chunks(|input|) && SamePolicy(w0, w)
    && Settled(w, input, Done(n, |input|, c), n, Exact(w0, n, |input|)) && Verified(w, Done(n, |input|, c), verified)
    && Holding(sq, Waiting(n, |input|, c)) && expected == |sq|
    && Ran(w0, w, BatchChains(Batches(n, |input|, c)))
  }

  lemma NextChunk(size: nat, c: nat)
    requires Upto(size, CHUNK, c) < size
    ensures var total := Upto(size, CHUNK, c);
            && total == c * CHUNK && ChunkLen(size, c) == Min(CHUNK, size - total) > 0
            && Upto(size, CHUNK, c + 1) == total + Min(CHUNK, size - total)
    ensures c + 1 <= Chunks(size) && (Upto(size, CHUNK, c + 1) >= size <==> (c + 1) * CHUNK >= size)
  {
  }

  lemma FilledFormed(n: nat, size: nat, c: nat)
    requires c < Chunks(size)
    ensures Formed([], Filled(n, size, c), n, size)
  {
    hide Filled, Done, Waiting, JobsUpTo, Position, Queued;
    PlanOk(n, size, c);
    FilledNext(n, size, c);
    JobsUpToOk(n, size, c + 1);
    var done, batch := Done(n, size, c), Filled(n, size, c);
    forall k | 0 <= k < |batch| ensures JobOk(batch[k], n, size) && batch[k].len <= CHUNK {
      assert batch[k] == (done + batch)[|done| + k];
    }
  }

  /** The chunks queued so far keep apart in the pipes. */
  lemma {:induction false} FilledApart(n: nat, size: nat, cap: nat, c: nat)
    requires KeepsApart(n, size, cap) && c < Chunks(size)
    ensures BatchApart(Filled(n, size, c), cap)
  {
    hide PerBatch, Position, KeepsApart, Queued;
    var waiting := Waiting(n, size, c);
    if waiting != [] {
      FilledApart(n, size, cap, c - 1);
      WaitingChunks(n, size, c);
      NotFirst(n, size, cap, c);
    }
    forall x, y | 0 <= x < y < |Filled(n, size, c)| && Filled(n, size, c)[x].dst == Filled(n, size, c)[y].dst
      ensures Filled(n, size, c)[x].len + Filled(n, size, c)[y].len > cap
    {
      if y >= |waiting| && x < |waiting| { FullChunk(waiting[x], n, size, c); }
    }
  }

  /** The chunk that comes up while others wait does not fit behind them. */
  lemma NotFirst(n: nat, size: nat, cap: nat, c: nat)
    requires KeepsApart(n, size, cap) && c < Chunks(size) && Waiting(n, size, c) != []
    ensures CHUNK + ChunkLen(size, c) > cap
  {
    hide PerBatch, Position, KeepsApart;
    PlanOk(n, size, c);
    PositionExact(n, c);
    ApartExactly(n, size, cap);
    assert !Meets(n, size, cap, c);
  }

  lemma FullChunk(x: Job, n: nat, size: nat, c: nat)
    requires ChunkOf(x, n, size, Cut(n, size, c), c) && c < Chunks(size)
    ensures x.len == CHUNK
  {
    var e :| Cut(n, size, c) <= e < c && IsChunk(x, n, size, e);
  }

  lemma NextBatch(w0: World, u: World, w: World, n: nat, size: nat, c: nat, sched: seq<Choice>)
    requires Ran(w0, u, BatchChains(Batches(n, size, c))) && Due(size, c, |Filled(n, size, c)|)
    requires BatchRan(u, w, Pairs(Filled(n, size, c)), sched)
    ensures Ran(w0, w, BatchChains(Batches(n, size, c + 1)))
  {
    hide Ran, BatchRan, Filled, Due;
    RanMore(w0, u, w, BatchChains(Batches(n, size, c)), Pairs(Filled(n, size, c)), sched);
    assert Batches(n, size, c + 1) == Batches(n, size, c) + [Filled(n, size, c)];
    assert BatchChains(Batches(n, size, c + 1)) == BatchChains(Batches(n, size, c)) + [Pairs(Filled(n, size, c))];
  }

  lemma PlanStep(n: nat, size: nat, c: nat)
    requires c < Chunks(size)
    ensures |Waiting(n, size, c)| == Position(n, c)
    ensures if Due(size, c, |Filled(n, size, c)|)
            then Waiting(n, size, c + 1) == [] && Done(n, size, c + 1) == Done(n, size, c) + Filled(n, size, c)
            else Waiting(n, size, c + 1) == Filled(n, size, c) && Done(n, size, c + 1) == Done(n, size, c)
                 && Batches(n, size, c + 1) == Batches(n, size, c)
  {
    PlanOk(n, size, c);
  }

  /** The batches planned before and at chunk `c` come first in the plan. */
  lemma {:induction false} BatchesPrefix(n: nat, size: nat, c: nat, count: nat)
    requires c <= count
    ensures Batches(n, size, c) <= Batches(n, size, count)
    decreases count
  {
    hide Filled, Due;
    if c < count { BatchesPrefix(n, size, c, count - 1); }
  }

  lemma BatchHangs(w0: World, u: World, w: World, n: nat, size: nat, c: nat, sched: seq<Choice>)
    requires Ran(w0, u, BatchChains(Batches(n, size, c))) && Due(size, c, |Filled(n, size, c)|) && c < Chunks(size)
    requires Running(u, w, Filled(n, size, c), sched) && Stuck(w)
    ensures Hung(w0, w, BatchChains(Batches(n, size, Chunks(size))))
  {
    hide Ran, Filled, Due, Stuck, Exec, Pairs;
    var front, batch, all := Batches(n, size, c), Filled(n, size, c), Batches(n, size, Chunks(size));
    BatchesPrefix(n, size, c + 1, Chunks(size));
    assert Batches(n, size, c + 1) == front + [batch];
    assert all[..|front|] == front && all[|front|] == batch;
    assert BatchChains(front) + [Pairs(batch)] <= BatchChains(all);
    HangsThere(w0, u, w, BatchChains(front), Pairs(batch), BatchChains(all), sched);
  }

  /** The periodic submission: when the queue is full or the input is used up, the batch runs to its end. */
  method SubmitIfDue(ring: Ring, total: nat, size: nat, expected: nat, sofar: nat, ghost w0: World, ghost n: nat, ghost c: nat)
    returns (left: nat, r: SpliceResult)
    requires |w0.files| > 0 && size == |w0.files[0]| && c < Chunks(size)
    requires total == Upto(size, CHUNK, c + 1) && SamePolicy(w0, ring.w)
    requires Settled(ring.w, w0.files[0], Done(n, size, c), n, Exact(w0, n, size)) && Verified(ring.w, Done(n, size, c), sofar)
    requires Holding(ring.sq, Filled(n, size, c)) && expected == |ring.sq| && Ran(w0, ring.w, BatchChains(Batches(n, size, c)))
    modifies ring
    ensures SamePolicy(w0, ring.w)
    ensures r.Blocked? ==> ring.w.failed != {} && Hung(w0, ring.w, BatchChains(Batches(n, size, Chunks(size))))
    ensures r.Returned? ==> Between(w0, ring.w, ring.sq, n, c + 1, left, r.verified)
  {
    hide Settled, Verified, Formed, Position, Split, Filled, Waiting, Done, Batches, Ran, BatchRan, Queued, KeepsApart, Pairs, Hung, Running, Stuck;
    left, r := expected, Returned(sofar);
    PlanStep(n, size, c);
    FilledFormed(n, size, c);
    EmptyQueue();
    assert expected >= 512 || total >= size <==> Due(size, c, |Filled(n, size, c)|);
    if expected >= 512 || total >= size {
      if KeepsApart(n, size, w0.cap) { FilledApart(n, size, w0.cap, c); }
      ghost var u, sched := ring.w, [];
      r, sched := Flush(ring, expected, sofar, w0.files[0], Done(n, size, c), n, Exact(w0, n, size), Filled(n, size, c));
      left := 0;
      if r.Returned? {
        NextBatch(w0, u, ring.w, n, size, c, sched);
      } else {
        BatchHangs(w0, u, ring.w, n, size, c, sched);
      }
    }
  }

  lemma EmptyQueue()
    ensures Holding([], [])
  {
  }

  /** One pass of the chunk loop: queue the chunk, then submit and reap if due. */
  method SpliceChunk(ring: Ring, n: nat, total: nat, size: nat, expected: nat, sofar: nat, ghost w0: World, ghost c: nat)
    returns (left: nat, r: SpliceResult)
    requires ring.entries == DEPTH && |w0.files| > 0 && size == |w0.files[0]| && total == Upto(size, CHUNK, c) < size
    requires Between(w0, ring.w, ring.sq, n, c, expected, sofar)
    modifies ring
    ensures SamePolicy(w0, ring.w)
    ensures r.Blocked? ==> ring.w.failed != {} && Hung(w0, ring.w, BatchChains(Batches(n, size, Chunks(size))))
    ensures r.Returned? ==> Between(w0, ring.w, ring.sq, n, c + 1, left, r.verified)
  {
    hide Settled, Verified, Formed, Position, Split, Waiting, Done, Batches, Ran, Hung;
    NextChunk(size, c);
    PlanStep(n, size, c);
    var queued := QueueChunk(ring, n, total, Min(CHUNK, size - total), expected, Waiting(n, size, c));
    left, r := SubmitIfDue(ring, total + Min(CHUNK, size - total), size, queued, sofar, w0, n, c);
  }

  lemma Start(w0: World, n: nat)
    requires Opened(w0, n) && CHUNK <= w0.cap
    ensures Between(w0, w0, [], n, 0, 0, 0)
  {
    NoData(w0.chains);
  }

  lemma AllChunks(w0: World, w: World, sq: seq<Sqe>, n: nat, c: nat, expected: nat, verified: nat)
    requires |w0.files| > 0 && Between(w0, w, sq, n, c, expected, verified) && Upto(|w0.files[0]|, CHUNK, c) >= |w0.files[0]|
    ensures c == Chunks(|w0.files[0]|) && Done(n, |w0.files[0]|, c) == JobsUpTo(n, |w0.files[0]|, c)
  {
    PlanOk(n, |w0.files[0]|, c);
  }

  /** The chunk loop: every chunk is queued for the outputs that still fit and every batch is reaped. */
  method SpliceChunks(ring: Ring, n: nat, size: nat, ghost w0: World) returns (r: SpliceResult)
    requires ring.entries == DEPTH && ring.sq == [] && ring.w == w0
    requires Opened(w0, n) && CHUNK <= w0.cap && size == |w0.files[0]|
    modifies ring
    ensures SamePolicy(w0, ring.w)
    ensures r.Blocked? ==> ring.w.failed != {} && Hung(w0, ring.w, BatchChains(Batches(n, size, Chunks(size))))
    ensures r.Returned? ==>
              var js := JobsUpTo(n, size, Chunks(size));
              Settled(ring.w, w0.files[0], js, n, Exact(w0, n, size)) && Verified(ring.w, js, r.verified)
    ensures r.Returned? ==> Ran(w0, ring.w, BatchChains(Batches(n, size, Chunks(size))))
  {
    hide Settled, Verified, Holding, JobsUpTo, Position, Done, Waiting, Batches, Ran, Exact, Hung;
    var total: nat, expected: nat := 0, 0;
    r := Returned(0);
    ghost var c: nat := 0;
    Start(w0, n);
    while total < size
      invariant ring.entries == DEPTH && total == Upto(size, CHUNK, c) && r.Returned?
      invariant Between(w0, ring.w, ring.sq, n, c, expected, r.verified)
      decreases size - total
    {
      NextChunk(size, c);
      expected, r := SpliceChunk(ring, n, total, size, expected, r.verified, w0, c);
      if r.Blocked? { return; }
      total, c := total + Min(CHUNK, size - total), c + 1;
    }
    AllChunks(w0, ring.w, ring.sq, n, c, expected, r.verified);
  }

  /** perform_splice_broadcast, for every schedule and every set of failing requests. A run that returns is one
    * that the kernel can make of the planned batches, and reports the bytes of the planned jobs whose chains did
    * not fail: n full copies exactly when `Fits` holds and nothing failed. A run that does not return is stuck
    * in a batch, after a failure. Without a failure the pipes end empty; if moreover the pipes are used in
    * order, or the plan keeps chunks apart in them, every output is exactly as planned. */
  method PerformSpliceBroadcast(w0: World, n: nat) returns (r: SpliceResult, w: World)
    requires Opened(w0, n) && CHUNK <= w0.cap
    ensures SamePolicy(w0, w)
    ensures r.Blocked? ==> w.failed != {} && Hung(w0, w, BatchChains(Batches(n, |w0.files[0]|, Chunks(|w0.files[0]|))))
    ensures r.Returned? ==> Ran(w0, w, BatchChains(Batches(n, |w0.files[0]|, Chunks(|w0.files[0]|)))) && OpsLeft(w) == 0
    ensures r.Returned? ==> r.verified == SuccessBytes(JobsUpTo(n, |w0.files[0]|, Chunks(|w0.files[0]|)), w.failed)
    ensures r.Returned? ==> (r.verified == n * |w0.files[0]| <==> Fits(n, Chunks(|w0.files[0]|)) && w.failed == {})
    ensures w.failed == {} ==> r == Returned(CoveredBytes(n, |w0.files[0]|, Chunks(|w0.files[0]|)))
    ensures w.failed == {} ==> Disk(w.files, w0.files[0], n) && PipesEmpty(w) && Holes(w, n)
    ensures w.failed == {} && Exact(w0, n, |w0.files[0]|) ==> forall i :: 0 <= i < n ==> w.files[i + 1] == Output(w0.files[0], n, i)
    ensures w.failed == {} && Exact(w0, n, |w0.files[0]|) && Fits(n, Chunks(|w0.files[0]|)) ==>
              Broadcasted(w.files, w0.files[0], n, r.verified)
  {
    hide Settled, Ran, Exact, Fits, JobsUpTo, Batches, Output, Covered, Hung, SuccessBytes, JobBytes, CoveredBytes, Verified;
    var ring := new Ring(DEPTH, w0);
    r := SpliceChunks(ring, n, |w0.files[0]|, w0);
    w := ring.w;
    if r.Returned? {
      Outcome(w, w0.files[0], n, Exact(w0, n, |w0.files[0]|), r.verified);
      QueuedIsCovered(n, |w0.files[0]|, Chunks(|w0.files[0]|));
    }
  }
}
