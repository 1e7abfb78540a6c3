/** Mode 2: every window of every output as a linked readv/writev pair, all submitted up front. */
module VecBroadcast {
  import opened Arith
  import opened Files
  import opened Kernel
  import opened Sums
  import opened Uring
  import opened Spec
  import opened VecJobs
  import opened VecOnce

  const WINDOW: nat := 8388608
  const DEPTH: nat := 1024
  const IOV_MAX: nat := 1024

  // ---- the windows ----

  function Windows(size: nat): nat { (size + WINDOW - 1) / WINDOW }

  function WindowJob(d: nat, size: nat, k: nat): Job {
    Job(d, k * WINDOW, Upto(size, WINDOW, k + 1) - Upto(size, WINDOW, k))
  }

  function WindowJobs(d: nat, size: nat, count: nat): seq<Job> {
    seq(count, k requires 0 <= k < count => WindowJob(d, size, k))
  }

  /** All windows of output 1, then all windows of output 2, ... */
  function AllJobs(n: nat, size: nat): seq<Job> {
    if n == 0 then [] else AllJobs(n - 1, size) + WindowJobs(n, size, Windows(size))
  }

  function JobLen(j: Job): nat { j.len }
  function Same(x: nat): nat { x }

  lemma WindowOk(d: nat, size: nat, k: nat, n: nat)
    requires Upto(size, WINDOW, k) < size && 1 <= d <= n
    ensures JobOk(WindowJob(d, size, k), n, size) && k < Windows(size)
    ensures WindowJob(d, size, k) == Job(d, Upto(size, WINDOW, k), Min(WINDOW, size - Upto(size, WINDOW, k)))
  {
  }

  lemma {:induction false} AllJobsCount(n: nat, size: nat)
    ensures |AllJobs(n, size)| == n * Windows(size)
  {
    if n > 0 {
      AllJobsCount(n - 1, size);
      MulStep(n - 1, Windows(size));
    }
  }

  lemma ExpectedCompletions(n: nat, size: nat)
    ensures Windows(size) * n == |AllJobs(n, size)|
  {
    AllJobsCount(n, size);
  }

  lemma {:induction false} JobAt(n: nat, size: nat, d: nat, k: nat) returns (c: nat)
    requires 1 <= d <= n && k < Windows(size)
    ensures c < |AllJobs(n, size)| && AllJobs(n, size)[c] == WindowJob(d, size, k)
  {
    if d == n {
      c := |AllJobs(n - 1, size)| + k;
    } else {
      c := JobAt(n - 1, size, d, k);
    }
  }

  lemma {:induction false} WindowBytes(d: nat, size: nat, count: nat)
    requires count <= Windows(size)
    ensures Total(WindowJobs(d, size, count), JobLen) == Upto(size, WINDOW, count)
  {
    if count > 0 {
      WindowBytes(d, size, count - 1);
      assert WindowJobs(d, size, count)[..count - 1] == WindowJobs(d, size, count - 1);
    }
  }

  lemma {:induction false} AllBytes(n: nat, size: nat)
    ensures Total(AllJobs(n, size), JobLen) == n * size
  {
    if n > 0 {
      AllBytes(n - 1, size);
      WindowBytes(n, size, Windows(size));
      TotalAppend(AllJobs(n - 1, size), WindowJobs(n, size, Windows(size)), JobLen);
      MulStep(n - 1, size);
    }
  }

  /** An output that holds all its windows holds the input. */
  lemma {:induction false} WindowsJoin(f: Bytes, input: Bytes, d: nat, count: nat)
    requires count <= Windows(|input|)
    requires forall k :: 0 <= k < count ==>
               Holds(f, input, WindowJob(d, |input|, k).off, WindowJob(d, |input|, k).off + WindowJob(d, |input|, k).len)
    ensures Holds(f, input, 0, Upto(|input|, WINDOW, count))
  {
    if count > 0 {
      WindowsJoin(f, input, d, count - 1);
      var j := WindowJob(d, |input|, count - 1);
      assert j.off == Upto(|input|, WINDOW, count - 1) && Holds(f, input, j.off, j.off + j.len);
      HoldsJoin(f, input, 0, Upto(|input|, WINDOW, count - 1), Upto(|input|, WINDOW, count));
    }
  }

  // ---- the bytes credited ----

  /** The bytes credited for the freed jobs: those of the jobs that did not fail. */
  ghost function Credits(js: seq<Job>, freed: set<nat>, failed: set<nat>): seq<nat> {
    seq(|js|, c requires 0 <= c < |js| => if c in freed && c !in failed then js[c].len else 0)
  }

  ghost function Range(n: nat): (r: set<nat>)
    ensures forall c :: c in r <==> 0 <= c < n
  {
    if n == 0 then {} else Range(n - 1) + {n - 1}
  }

  ghost function SuccessBytes(js: seq<Job>, failed: set<nat>): nat { Total(Credits(js, Range(|js|), failed), Same) }

  lemma {:induction false} NoCredits(js: seq<Job>, failed: set<nat>)
    ensures Total(Credits(js, {}, failed), Same) == 0
  {
    TotalZero(Credits(js, {}, failed), Same);
  }

  lemma CreditsSame(js: seq<Job>, freed: set<nat>, failed: set<nat>, failed': set<nat>)
    requires forall c :: c in freed ==> (c in failed <==> c in failed')
    ensures Credits(js, freed, failed) == Credits(js, freed, failed')
  {
  }

  lemma CreditOne(js: seq<Job>, freed: set<nat>, failed: set<nat>, c: nat)
    requires c < |js| && c !in freed
    ensures Total(Credits(js, freed + {c}, failed), Same) ==
            Total(Credits(js, freed, failed), Same) + if c in failed then 0 else js[c].len
  {
    var credit: nat := if c in failed then 0 else js[c].len;
    TotalUpdate<nat>(Credits(js, freed, failed), Same, c, credit);
    assert Credits(js, freed + {c}, failed) == Credits(js, freed, failed)[c := credit];
  }

  lemma {:induction false} CreditBound(js: seq<Job>, credits: seq<nat>)
    requires |credits| == |js| && forall c :: 0 <= c < |js| ==> credits[c] <= js[c].len
    ensures Total(credits, Same) <= Total(js, JobLen)
    ensures Total(credits, Same) == Total(js, JobLen) <==> (forall c :: 0 <= c < |js| ==> credits[c] == js[c].len)
  {
    if js != [] {
      var last := |js| - 1;
      CreditBound(js[..last], credits[..last]);
      assert forall c :: 0 <= c < last ==> credits[..last][c] == credits[c] && js[..last][c] == js[c];
    }
  }

  /** The credit is complete exactly when no job failed. */
  lemma CreditsExact(js: seq<Job>, freed: set<nat>, failed: set<nat>)
    requires forall c :: 0 <= c < |js| ==> js[c].len > 0 && c in freed
    ensures Total(Credits(js, freed, failed), Same) <= Total(js, JobLen)
    ensures Total(Credits(js, freed, failed), Same) == Total(js, JobLen) <==> (forall c :: 0 <= c < |js| ==> c !in failed)
  {
    var credits := Credits(js, freed, failed);
    CreditBound(js, credits);
    forall c | 0 <= c < |js| ensures credits[c] == js[c].len <==> c !in failed { }
  }

  lemma {:induction false} RangeSize(n: nat)
    ensures |Range(n)| == n
  {
    if n > 0 { RangeSize(n - 1); }
  }

  /** Counting completions is enough: the count reaches the total when every job has been freed. */
  lemma AllFreed(freed: set<nat>, n: nat)
    requires forall c :: c in freed ==> c < n
    ensures |freed| <= n && (|freed| == n <==> freed == Range(n))
    ensures |freed| < n ==> exists c :: 0 <= c < n && c !in freed
  {
    RangeSize(n);
    assert Range(n) == freed + (Range(n) - freed);
    if |freed| < n {
      assert Range(n) - freed != {};
      var c :| c in Range(n) - freed;
    }
  }

  // ---- submission ----

  /** The queue holds the complete read/write pairs of jobs `m` up to `q`. */
  ghost predicate Holding(sq: seq<Sqe>, js: seq<Job>, m: nat, q: nat) {
    m <= q <= |js| && Closed(sq) && |sq| == 2 * (q - m) && Split(sq) == JobChains(js, m, q)
  }

  lemma HoldingAppend(sq: seq<Sqe>, js: seq<Job>, m: nat, q: nat)
    requires Holding(sq, js, m, q) && q < |js|
    ensures Holding(sq + [ReadOf(js[q], q)] + [WriteOf(js[q], q)], js, m, q + 1)
  {
    var pair := JobChain(js[q], q);
    SplitAppend(sq, pair);
    SplitChain(pair);
    assert sq + [ReadOf(js[q], q)] + [WriteOf(js[q], q)] == sq + pair;
    assert JobChains(js, m, q + 1) == JobChains(js, m, q) + [pair];
  }

  lemma HoldingExtend(sq: seq<Sqe>, js: seq<Job>, m: nat, q: nat, j: Job)
    requires Holding(sq, js, m, q)
    ensures Holding(sq, js + [j], m, q)
  {
    assert JobChains(js + [j], m, q) == JobChains(js, m, q);
  }

  lemma PairsLong(js: seq<Job>, m: nat, q: nat)
    requires m <= q <= |js|
    ensures forall k :: 0 <= k < q - m ==> |JobChains(js, m, q)[k]| == 2
    ensures forall k :: 0 <= k < q - m ==> ChainState(JobChains(js, m, q)[k], js[m + k], m + k)
  {
    forall k | 0 <= k < q - m
      ensures |JobChains(js, m, q)[k]| == 2 && ChainState(JobChains(js, m, q)[k], js[m + k], m + k)
    {
      assert JobChains(js, m, q)[k] == JobChain(js[m + k], m + k);
    }
  }

  lemma SubmitShape(w: World, sq: seq<Sqe>, input: Bytes, js: seq<Job>, n: nat, q: nat)
    requires Shape(w, input, js, n) && Done(w, input, js, n) && Holding(sq, js, |w.chains|, q)
    ensures Shape(Submitted(w, sq), input, js, n) && Done(Submitted(w, sq), input, js, n)
  {
    var m := |w.chains|;
    PairsLong(js, m, q);
    var w' := Submitted(w, sq);
    forall c | 0 <= c < |w'.chains| ensures ChainState(w'.chains[c], js[c], c) {
      if c >= m { assert w'.chains[c] == JobChains(js, m, q)[c - m]; }
    }
  }

  lemma SubmitInv(w: World, sq: seq<Sqe>, input: Bytes, js: seq<Job>, n: nat, q: nat)
    requires Inv(w, input, js, n, {}) && Holding(sq, js, |w.chains|, q)
    ensures Inv(Submitted(w, sq), input, js, n, {}) && |Submitted(w, sq).chains| == q
  {
    PairsLong(js, |w.chains|, q);
    SubmitShape(w, sq, input, js, n, q);
    SubmitReaping(w.cq, w.chains, JobChains(js, |w.chains|, q), w.failed, {});
    SubmitOwned(w.heap, w.chains, JobChains(js, |w.chains|, q), input, js, {});
  }

  /** While submitting: nothing is freed, the unsubmitted jobs wait in the queue as whole pairs. */
  ghost predicate Loading(w0: World, w: World, sq: seq<Sqe>, input: Bytes, js: seq<Job>, n: nat, q: nat) {
    && Inv(w, input, js, n, {}) && Holding(sq, js, |w.chains|, q)
    && SamePolicy(w0, w)
    && js <= AllJobs(n, |input|) && Explained(w0, w, AllJobs(n, |input|))
  }

  lemma SubmitExplained(w0: World, w: World, sq: seq<Sqe>, input: Bytes, js: seq<Job>, n: nat, q: nat)
    requires Loading(w0, w, sq, input, js, n, q)
    ensures Explained(w0, Submitted(w, sq), AllJobs(n, |input|))
  {
    hide Split, Explained, AllJobs, JobChain, Inv;
    var all, m := AllJobs(n, |input|), |w.chains|;
    assert forall c :: m <= c < q ==> all[c] == js[c];
    assert JobChains(all, m, q) == JobChains(js, m, q);
    forall c | m <= c < q ensures Alive(w.heap, c) { StillOwned(w, input, js, n, {}, c); }
    ExplainedSubmit(w0, w, all, q);
  }

  method SubmitQueue(ring: Ring, ghost w0: World, ghost input: Bytes, ghost js: seq<Job>, ghost n: nat, ghost q: nat)
    requires Loading(w0, ring.w, ring.sq, input, js, n, q)
    modifies ring
    ensures Loading(w0, ring.w, ring.sq, input, js, n, q) && ring.sq == [] && |ring.w.chains| == q
  {
    hide Inv, Split, Explained, AllJobs, JobChains;
    ghost var w1 := Submitted(ring.w, ring.sq);
    SubmitInv(ring.w, ring.sq, input, js, n, q);
    SubmitExplained(w0, ring.w, ring.sq, input, js, n, q);
    var sched := ring.Submit();
    ExecInv(w1, input, js, n, {}, sched);
    ExecAccounting(w1, sched);
    ExplainedExec(w0, w1, AllJobs(n, |input|), sched);
    NothingHeld(js, q);
  }

  lemma NothingHeld(js: seq<Job>, q: nat)
    requires q <= |js|
    ensures Holding([], js, q, q)
  {
  }

  /** RequestContext's constructor: block lengths of at most 64K that add up to the window. */
  method NewContext(blocks: nat, bytes: nat) returns (ctx: Context)
    requires blocks == (bytes + BLOCK - 1) / BLOCK
    ensures ctx == Context(BlockLens(bytes), [], bytes)
    ensures Sum(ctx.lens) == bytes && |ctx.lens| == blocks
    ensures forall i :: 0 <= i < blocks ==> 1 <= ctx.lens[i] <= BLOCK
    ensures bytes <= WINDOW ==> |ctx.lens| <= IOV_MAX
  {
    var lens: seq<nat> := [];
    var remaining := bytes;
    for i := 0 to blocks
      invariant |lens| == i && Sum(lens) + remaining == bytes
      invariant remaining == bytes - Min(i * BLOCK, bytes)
      invariant forall k :: 0 <= k < i ==> 1 <= lens[k] <= BLOCK && lens[k] == Min(BLOCK, bytes - k * BLOCK)
    {
      var toRead: nat := Min(remaining, BLOCK);
      SumAppend(lens, toRead);
      lens := lens + [toRead];
      remaining := remaining - toRead;
    }
    ctx := Context(lens, [], bytes);
  }

  lemma AllocateLoads(w0: World, w: World, sq: seq<Sqe>, input: Bytes, js: seq<Job>, n: nat, j: Job)
    requires Loading(w0, w, sq, input, js, n, |js|) && JobOk(j, n, |input|) && js + [j] <= AllJobs(n, |input|)
    requires Sum(ContextOf(j).lens) == j.len
    ensures |js| + 1 !in w.heap
    ensures Loading(w0, w.(heap := w.heap[|js| + 1 := ContextOf(j)]), sq, input, js + [j], n, |js|)
  {
    hide Inv, Split, Explained, AllJobs, BlockLens, JobChains;
    AllocateInv(w, input, js, n, {}, j, ContextOf(j));
    HoldingExtend(sq, js, |w.chains|, |js|, j);
    assert AllJobs(n, |input|)[|js|] == j;
    ExplainedAllocate(w0, w, AllJobs(n, |input|), |js|);
  }

  /** The context of the next window becomes the kernel's to use. */
  method AllocateContext(ring: Ring, j: Job, id: nat, ghost w0: World, ghost input: Bytes, ghost js: seq<Job>, ghost n: nat)
    requires Loading(w0, ring.w, ring.sq, input, js, n, |js|)
    requires JobOk(j, n, |input|) && id == |js| + 1 && js + [j] <= AllJobs(n, |input|)
    modifies ring`w
    ensures Loading(w0, ring.w, ring.sq, input, js + [j], n, |js|) && |ring.w.chains| == old(|ring.w.chains|)
  {
    hide Loading, AllJobs, BlockLens;
    var ctx := NewContext((j.len + BLOCK - 1) / BLOCK, j.len);
    AllocateLoads(w0, ring.w, ring.sq, input, js, n, j);
    ring.Allocate(id, ctx);
  }

  lemma Queued(w0: World, w: World, before: seq<Sqe>, input: Bytes, js: seq<Job>, n: nat, q: nat)
    requires Loading(w0, w, before, input, js, n, q) && q < |js|
    ensures |before| % 2 == 0
    ensures Loading(w0, w, before + [ReadOf(js[q], q)] + [WriteOf(js[q], q)], input, js, n, q + 1)
  {
    hide Inv, Split, Explained, AllJobs, JobChains;
    HoldingAppend(before, js, |w.chains|, q);
  }

  /** One window: allocate its context and queue its read/write pair. The queue always holds whole pairs
    * and has an even capacity, so the write's entry is there whenever the read's was. */
  method QueueWindow(ring: Ring, j: Job, id: nat, ghost w0: World, ghost input: Bytes, ghost js: seq<Job>, ghost n: nat)
    requires ring.entries == DEPTH && |ring.sq| <= DEPTH && Loading(w0, ring.w, ring.sq, input, js, n, |js|)
    requires JobOk(j, n, |input|) && id == |js| + 1 && js + [j] <= AllJobs(n, |input|)
    modifies ring
    ensures |ring.sq| <= DEPTH && Loading(w0, ring.w, ring.sq, input, js + [j], n, |js| + 1)
  {
    hide Loading, AllJobs;
    AllocateContext(ring, j, id, w0, input, js, n);
    ghost var before := ring.sq;
    Queued(w0, ring.w, before, input, js + [j], n, |js|);
    var ok := ring.GetSqe(Sqe(Readv(0, j.off, id), true, 0));
    if !ok {
      SubmitQueue(ring, w0, input, js + [j], n, |js|);
      before := [];
      Queued(w0, ring.w, before, input, js + [j], n, |js|);
      ok := ring.GetSqe(Sqe(Readv(0, j.off, id), true, 0));
    }
    ok := ring.GetSqe(Sqe(Writev(id, j.dst, j.off), false, id));
    assert ok;
  }

  lemma WindowStep(js: seq<Job>, d: nat, size: nat, k: nat)
    ensures js + WindowJobs(d, size, 0) == js
    ensures js + WindowJobs(d, size, k) + [WindowJob(d, size, k)] == js + WindowJobs(d, size, k + 1)
  {
  }

  /** The windows of output `d` come after those of the outputs before it. */
  lemma {:induction false} AllJobsPrefix(n: nat, size: nat, d: nat)
    requires d <= n
    ensures AllJobs(d, size) <= AllJobs(n, size)
  {
    if d < n { AllJobsPrefix(n - 1, size, d); }
  }

  lemma NextJob(n: nat, size: nat, d: nat, k: nat)
    requires 1 <= d <= n && k < Windows(size)
    ensures AllJobs(d - 1, size) + WindowJobs(d, size, k) + [WindowJob(d, size, k)] <= AllJobs(n, size)
  {
    AllJobsPrefix(n, size, d);
    WindowStep(AllJobs(d - 1, size), d, size, k);
    assert WindowJobs(d, size, k + 1) <= WindowJobs(d, size, Windows(size));
  }

  /** submit_readV_writeV: all windows of output `d`, then submit. */
  method SubmitReadVWriteV(ring: Ring, size: nat, d: nat, next: nat, ghost w0: World, ghost input: Bytes, ghost n: nat)
    returns (total: nat, id: nat)
    requires ring.entries == DEPTH && |ring.sq| <= DEPTH && size == |input| && 1 <= d <= n
    requires Loading(w0, ring.w, ring.sq, input, AllJobs(d - 1, size), n, |AllJobs(d - 1, size)|)
    requires next == |AllJobs(d - 1, size)| + 1
    modifies ring
    ensures total == size && id == |AllJobs(d, size)| + 1
    ensures Loading(w0, ring.w, ring.sq, input, AllJobs(d, size), n, |AllJobs(d, size)|)
    ensures |ring.sq| <= DEPTH && (old(ring.sq) == [] ==> ring.sq == [])
  {
    hide Loading, AllJobs, WindowJob, WindowJobs;
    total, id := 0, next;
    ghost var js, jobs, k: nat := AllJobs(d - 1, size), AllJobs(d - 1, size), 0;
    WindowStep(js, d, size, 0);
    AllWindows(d, size);
    if size == 0 { return; }
    while total < size
      invariant |ring.sq| <= DEPTH && total == Upto(size, WINDOW, k) && k <= Windows(size)
      invariant jobs == js + WindowJobs(d, size, k) && id == |jobs| + 1
      invariant Loading(w0, ring.w, ring.sq, input, jobs, n, |jobs|)
      decreases size - total
    {
      var bytes: nat := Min(WINDOW, size - total);
      WindowOk(d, size, k, n);
      NextJob(n, size, d, k);
      QueueWindow(ring, Job(d, total, bytes), id, w0, input, jobs, n);
      WindowStep(js, d, size, k);
      k, jobs := k + 1, jobs + [Job(d, total, bytes)];
      id := id + 1;
      total := total + bytes;
    }
    SubmitQueue(ring, w0, input, jobs, n, |jobs|);
  }

  lemma AllWindows(d: nat, size: nat)
    requires d >= 1
    ensures AllJobs(d, size) == AllJobs(d - 1, size) + WindowJobs(d, size, Windows(size))
    ensures size == 0 ==> AllJobs(d, size) == AllJobs(d - 1, size)
  {
  }

  // ---- reaping ----

  /** While reaping: the bytes counted are the credits of the freed jobs. */
  ghost predicate Reaped(w0: World, w: World, input: Bytes, js: seq<Job>, n: nat, freed: set<nat>, completed: nat, total: nat) {
    && Inv(w, input, js, n, freed) && |w.chains| == |js| && SamePolicy(w0, w) && Explained(w0, w, js)
    && completed == |freed| && total == Total(Credits(js, freed, w.failed), Same)
  }

  lemma ReapedExec(w0: World, w: World, input: Bytes, js: seq<Job>, n: nat, freed: set<nat>, completed: nat, total: nat, sched: seq<Choice>)
    requires Reaped(w0, w, input, js, n, freed, completed, total)
    ensures var w' := Exec(w, sched);
            Reaped(w0, w', input, js, n, freed, completed, total) && |w'.cq| + OpsLeft(w') == |w.cq| + OpsLeft(w)
  {
    hide Explained, Credits;
    ExecInv(w, input, js, n, freed, sched);
    ExecOutcome(w, freed, sched);
    ExecAccounting(w, sched);
    ExplainedExec(w0, w, js, sched);
    CreditsSame(js, freed, w.failed, Exec(w, sched).failed);
  }

  /** As long as completions are expected, the wait returns. */
  lemma NeverHangs(w0: World, w: World, input: Bytes, js: seq<Job>, n: nat, freed: set<nat>, completed: nat, total: nat)
    requires Reaped(w0, w, input, js, n, freed, completed, total) && completed < |js|
    ensures w.cq != [] || exists c :: Ready(w, c)
  {
    AllFreed(freed, |js|);
    var c :| 0 <= c < |js| && c !in freed;
    Outstanding(w, input, js, n, freed, c);
  }

  lemma CountNull(w0: World, w: World, input: Bytes, js: seq<Job>, n: nat, freed: set<nat>, completed: nat, total: nat)
    requires Reaped(w0, w, input, js, n, freed, completed, total) && w.cq != [] && w.cq[0].data == 0
    ensures Reaped(w0, w.(cq := w.cq[1..]), input, js, n, freed, completed, total)
  {
    hide Inv, Explained, Credits;
    SeenNull(w, input, js, n, freed);
    ExplainedSeen(w0, w, js, w.cq[1..]);
  }

  /** A context is freed, its completion taken off the queue. */
  function Freed(w: World, c: nat): World
    requires w.cq != []
  {
    w.(heap := w.heap - {c + 1}, cq := w.cq[1..])
  }
  function Credit(w: World, c: nat): nat
    requires w.cq != []
  {
    if w.cq[0].res < 0 || c + 1 !in w.heap then 0 else w.heap[c + 1].bytes
  }

  lemma CountContext(w0: World, w: World, input: Bytes, js: seq<Job>, n: nat, freed: set<nat>, completed: nat, total: nat, c: nat)
    requires Reaped(w0, w, input, js, n, freed, completed, total) && w.cq != [] && w.cq[0].data == c + 1
    ensures c + 1 in w.heap && Reaped(w0, Freed(w, c), input, js, n, freed + {c}, completed + 1, total + Credit(w, c))
  {
    hide Inv, Credits, Total, Range, AllJobs, Explained;
    SeenContext(w, input, js, n, freed, c);
    ExplainedFree(w0, w, js, c, w.cq[1..]);
    CreditOne(js, freed, w.failed, c);
    assert |freed + {c}| == |freed| + 1;
  }

  /** One completion: a failed job is reported, a successful one counted, either way its context is freed. */
  method ReapOne(ring: Ring, sofar: nat, completed: nat,
                 ghost w0: World, ghost input: Bytes, ghost js: seq<Job>, ghost n: nat, ghost freed: set<nat>)
    returns (total: nat, done: nat, ghost freed': set<nat>)
    requires Reaped(w0, ring.w, input, js, n, freed, completed, sofar) && ring.w.cq != []
    modifies ring`w
    ensures Reaped(w0, ring.w, input, js, n, freed', done, total)
    ensures |ring.w.cq| + 1 == old(|ring.w.cq|) && OpsLeft(ring.w) == old(OpsLeft(ring.w))
  {
    hide Reaped;
    ghost var w1 := ring.w;
    var cqe := ring.w.cq[0];
    total, done, freed' := sofar, completed, freed;
    if cqe.data != 0 {
      ghost var c: nat := cqe.data - 1;
      CountContext(w0, w1, input, js, n, freed, completed, sofar, c);
      if cqe.res >= 0 {
        total := total + ring.w.heap[cqe.data].bytes;
      }
      ring.Delete(cqe.data);
      done := done + 1;
      freed' := freed + {c};
    } else {
      CountNull(w0, w1, input, js, n, freed, completed, sofar);
    }
    ring.CqeSeen();
    assert ring.w == if cqe.data != 0 then Freed(w1, cqe.data - 1) else w1.(cq := w1.cq[1..]);
  }

  /** Waits for the next completion; with completions still expected there is always one. */
  method AwaitOne(ring: Ring, completed: nat, ghost total: nat,
                  ghost w0: World, ghost input: Bytes, ghost js: seq<Job>, ghost n: nat, ghost freed: set<nat>)
    requires Reaped(w0, ring.w, input, js, n, freed, completed, total) && completed < |js|
    modifies ring`w
    ensures Reaped(w0, ring.w, input, js, n, freed, completed, total) && ring.w.cq != []
    ensures |ring.w.cq| + OpsLeft(ring.w) == old(|ring.w.cq| + OpsLeft(ring.w))
  {
    ghost var w1 := ring.w;
    var hung, sched := ring.WaitNr(1);
    ReapedExec(w0, w1, input, js, n, freed, completed, total, sched);
    NeverHangs(w0, ring.w, input, js, n, freed, completed, total);
  }

  lemma Finished(w0: World, w: World, input: Bytes, js: seq<Job>, n: nat, freed: set<nat>, completed: nat, total: nat)
    requires Reaped(w0, w, input, js, n, freed, completed, total)
    ensures completed <= |js| && (completed == |js| ==> freed == Range(|js|))
  {
    AllFreed(freed, |js|);
  }

  /** The completion loop: every context is freed exactly once, whatever failed. */
  method ReapAll(ring: Ring, expected: nat, ghost w0: World, ghost input: Bytes, ghost js: seq<Job>, ghost n: nat)
    returns (total: nat)
    requires Reaped(w0, ring.w, input, js, n, {}, 0, 0) && expected == |js|
    modifies ring`w
    ensures Reaped(w0, ring.w, input, js, n, Range(|js|), |js|, total)
  {
    var completed: nat := 0;
    total := 0;
    ghost var freed: set<nat> := {};
    while completed < expected
      invariant Reaped(w0, ring.w, input, js, n, freed, completed, total)
      decreases |ring.w.cq| + OpsLeft(ring.w)
    {
      AwaitOne(ring, completed, total, w0, input, js, n, freed);
      total, completed, freed := ReapOne(ring, total, completed, w0, input, js, n, freed);
    }
    Finished(w0, ring.w, input, js, n, freed, completed, total);
  }

  // ---- the broadcast ----

  /** Every job that did not fail has delivered its window. */
  ghost predicate Delivered(files: seq<Bytes>, input: Bytes, js: seq<Job>, failed: set<nat>)
  {
    forall c :: 0 <= c < |js| && c !in failed ==> js[c].dst < |files| && Holds(files[js[c].dst], input, js[c].off, js[c].off + js[c].len)
  }

  lemma AllFinished(w: World, input: Bytes, js: seq<Job>, n: nat)
    requires Inv(w, input, js, n, Range(|js|)) && |w.chains| == |js|
    ensures w.heap == map[] && OpsLeft(w) == 0 && Delivered(w.files, input, js, w.failed)
  {
    forall id | 1 <= id <= |js| ensures id !in w.heap {
      assert (id - 1) + 1 in w.heap <==> id - 1 !in Range(|js|);
    }
    assert w.heap.Keys == {};
    TotalZero(w.chains, ChainOps);
  }

  lemma DeliveredAll(files: seq<Bytes>, input: Bytes, n: nat)
    requires Disk(files, input, n) && JobsOk(AllJobs(n, |input|), n, |input|)
    requires Delivered(files, input, AllJobs(n, |input|), {})
    ensures files == seq(n + 1, _ => input)
  {
    forall d | 1 <= d <= n ensures Holds(files[d], input, 0, |input|) {
      forall k | 0 <= k < Windows(|input|)
        ensures Holds(files[d], input, WindowJob(d, |input|, k).off, WindowJob(d, |input|, k).off + WindowJob(d, |input|, k).len)
      {
        var c := JobAt(n, |input|, d, k);
      }
      WindowsJoin(files[d], input, d, Windows(|input|));
    }
    AllHeld(files, input, n);
  }

  lemma CountsAll(js: seq<Job>, n: nat, size: nat, failed: set<nat>)
    requires js == AllJobs(n, size) && JobsOk(js, n, size) && forall c :: c in failed ==> c < |js|
    ensures SuccessBytes(js, failed) == n * size <==> failed == {}
  {
    AllBytes(n, size);
    CreditsExact(js, Range(|js|), failed);
    assert failed == {} <==> forall c :: 0 <= c < |js| ==> c !in failed;
  }

  lemma Start(w0: World, n: nat)
    requires Opened(w0, n)
    ensures Loading(w0, w0, [], w0.files[0], [], n, 0)
  {
    hide Explained, AllJobs;
    ExplainedStart(w0, AllJobs(n, |w0.files[0]|));
  }

  lemma StartReaping(w0: World, w: World, input: Bytes, js: seq<Job>, n: nat)
    requires Loading(w0, w, [], input, js, n, |js|) && js == AllJobs(n, |input|)
    ensures Reaped(w0, w, input, js, n, {}, 0, 0)
  {
    hide Inv, Explained, Credits;
    NoCredits(js, w.failed);
  }

  /** The outcome, from the state after the last completion. */
  lemma Outcome(w0: World, w: World, input: Bytes, n: nat, total: nat)
    requires var js := AllJobs(n, |input|); Reaped(w0, w, input, js, n, Range(|js|), |js|, total)
    ensures JobsOk(AllJobs(n, |input|), n, |input|) && Disk(w.files, input, n) && w.heap == map[] && OpsLeft(w) == 0
    ensures Delivered(w.files, input, AllJobs(n, |input|), w.failed) && RanAtOnce(w0, w, AllJobs(n, |input|))
    ensures total == SuccessBytes(AllJobs(n, |input|), w.failed)
    ensures total == n * |input| <==> w.failed == {}
    ensures w.failed == {} ==> w.files == seq(n + 1, _ => input)
  {
    hide Explained, AllJobs, Credits, Range, Delivered, RanAtOnce;
    AllFinished(w, input, AllJobs(n, |input|), n);
    ExplainedEnd(w0, w, AllJobs(n, |input|));
    CountsAll(AllJobs(n, |input|), n, |input|, w.failed);
    if w.failed == {} { DeliveredAll(w.files, input, n); }
  }

  /** perform_uring_broadcast, under every schedule, completion order and set of failing requests: all
    * waits return, every context is freed, the outputs are those of a run in which the kernel gets all chains
    * at once, the bytes of the successful jobs are counted, and that is n copies exactly when no job failed,
    * in which case every output is the input. */
  method PerformUringBroadcast(w0: World, n: nat) returns (total: nat, w: World)
    requires Opened(w0, n)
    ensures SamePolicy(w0, w) && Disk(w.files, w0.files[0], n) && w.heap == map[] && OpsLeft(w) == 0
    ensures RanAtOnce(w0, w, AllJobs(n, |w0.files[0]|))
    ensures JobsOk(AllJobs(n, |w0.files[0]|), n, |w0.files[0]|)
    ensures Delivered(w.files, w0.files[0], AllJobs(n, |w0.files[0]|), w.failed)
    ensures total == SuccessBytes(AllJobs(n, |w0.files[0]|), w.failed)
    ensures total == n * |w0.files[0]| <==> w.failed == {}
    ensures w.failed == {} ==> Broadcasted(w.files, w0.files[0], n, total)
  {
    hide Loading, Reaped, AllJobs, RanAtOnce, Delivered, SuccessBytes;
    var ring := new Ring(DEPTH, w0);
    ghost var input := w0.files[0];
    var size := |w0.files[0]|;
    ExpectedCompletions(n, size);
    var expected: nat := Windows(size) * n;
    var id: nat, d: nat := 1, 0;
    NoOutputs(size);
    Start(w0, n);
    while d < n
      invariant d <= n && ring.entries == DEPTH && |ring.sq| <= DEPTH
      invariant id == |AllJobs(d, size)| + 1
      invariant Loading(w0, ring.w, ring.sq, input, AllJobs(d, size), n, |AllJobs(d, size)|) && ring.sq == []
    {
      var submitted;
      submitted, id := SubmitReadVWriteV(ring, size, d + 1, id, w0, input, n);
      d := d + 1;
    }
    StartReaping(w0, ring.w, input, AllJobs(n, size), n);
    ReapedPolicy(w0, ring.w, input, AllJobs(n, size), n, {}, 0, 0);
    total := ReapAll(ring, expected, w0, input, AllJobs(n, size), n);
    w := ring.w;
    ReapedPolicy(w0, w, input, AllJobs(n, size), n, Range(|AllJobs(n, size)|), |AllJobs(n, size)|, total);
    Outcome(w0, w, input, n, total);
  }

  lemma NoOutputs(size: nat)
    ensures AllJobs(0, size) == []
  {
  }

  lemma ReapedPolicy(w0: World, w: World, input: Bytes, js: seq<Job>, n: nat, freed: set<nat>, completed: nat, total: nat)
    requires Reaped(w0, w, input, js, n, freed, completed, total)
    ensures SamePolicy(w0, w)
  {
  }
}
