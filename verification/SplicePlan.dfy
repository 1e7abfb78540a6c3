/** Mode 3, the plan: which chunks are queued for which outputs, in which batches, and what that leaves. */
module SplicePlan {
  import opened Arith
  import opened Files
  import opened Sums
  import opened Spec

  const DEPTH: nat := 512
  const CHUNK: nat := 262144

  // ---- which chunks are queued for which outputs ----

  /** Chunks per batch: the queue has room for 256 chains. */
  function PerBatch(n: nat): (m: nat)
    ensures m > 0
  {
    if n == 0 then 1 else 1 + (DEPTH / 2 - 1) / n
  }

  /** Chunk `c` reaches output `i` exactly when the queue is not full yet. */
  predicate Covered(n: nat, c: nat, i: nat) {
    (c % PerBatch(n)) * n + i < DEPTH / 2
  }

  /** The chains in the queue when chunk `c` comes up, as the loop produces them. */
  function Position(n: nat, c: nat): (p: nat)
    ensures p < DEPTH / 2
  {
    if c == 0 then 0
    else
      var p := Position(n, c - 1) + n;
      if p >= DEPTH / 2 then 0 else p
  }

  /** The outputs that get chunk `c`: all of them, or those that still fit. */
  function Queued(n: nat, c: nat): nat { Min(n, DEPTH / 2 - Position(n, c)) }

  lemma PerBatchBounds(n: nat)
    ensures PerBatch(n) >= 1 && (PerBatch(n) - 1) * n < 256 && (n >= 1 ==> PerBatch(n) * n >= 256)
  {
    if n > 0 {
      DivMul(DEPTH / 2 - 1, n);
      MulStep(PerBatch(n) - 1, n);
    }
  }

  /** The loop's queue occupancy in closed form. */
  lemma {:induction false} PositionExact(n: nat, c: nat)
    ensures Position(n, c) == (c % PerBatch(n)) * n
  {
    hide PerBatch;
    var m := PerBatch(n);
    PerBatchBounds(n);
    if c == 0 {
      ModSmall(0, m);
    } else {
      PositionExact(n, c - 1);
      NextMod(c - 1, m);
      var p := (c - 1) % m;
      MulStep(p, n);
      if p + 1 < m { MulMono(p + 1, m - 1, n); }
    }
  }

  lemma QueuedCovered(n: nat, c: nat)
    ensures forall i :: 0 <= i < n ==> (i < Queued(n, c) <==> Covered(n, c, i))
  {
    PositionExact(n, c);
  }

  function ChunkLen(size: nat, c: nat): nat
  {
    Upto(size, CHUNK, c + 1) - Upto(size, CHUNK, c)
  }

  function Chunks(size: nat): nat { (size + CHUNK - 1) / CHUNK }

  function ChunkJobs(q: nat, off: nat, len: nat): seq<Job> {
    seq(q, i requires 0 <= i < q => Job(i + 1, off, len))
  }

  /** The jobs queued for the first `count` chunks. */
  function JobsUpTo(n: nat, size: nat, count: nat): seq<Job> {
    if count == 0 then []
    else
      var c := count - 1;
      JobsUpTo(n, size, c) + ChunkJobs(Queued(n, c), c * CHUNK, ChunkLen(size, c))
  }

  function JobLen(j: Job): nat { j.len }
  function JobBytes(js: seq<Job>): nat { Total(js, JobLen) }

  lemma {:induction false} JobsUpToOk(n: nat, size: nat, count: nat)
    requires count <= Chunks(size)
    ensures JobsOk(JobsUpTo(n, size, count), n, size)
    ensures forall k :: 0 <= k < |JobsUpTo(n, size, count)| ==> JobsUpTo(n, size, count)[k].len <= CHUNK
  {
    if count > 0 { JobsUpToOk(n, size, count - 1); }
  }

  /** The queued jobs are the covered (chunk, output) pairs, nothing else. */
  lemma {:induction false} JobsAreCovered(n: nat, size: nat, count: nat, k: nat)
    requires k < |JobsUpTo(n, size, count)|
    ensures var j := JobsUpTo(n, size, count)[k];
            j.off % CHUNK == 0 && j.len <= CHUNK && 1 <= j.dst && j.dst - 1 < Queued(n, j.off / CHUNK)
  {
    var c := count - 1;
    var front := JobsUpTo(n, size, c);
    if k < |front| {
      JobsAreCovered(n, size, c, k);
    }
  }

  lemma {:induction false} CoveredIsJob(n: nat, size: nat, count: nat, c: nat, i: nat) returns (k: nat)
    requires c < count && i < Queued(n, c)
    ensures k < |JobsUpTo(n, size, count)|
    ensures JobsUpTo(n, size, count)[k] == Job(i + 1, c * CHUNK, ChunkLen(size, c))
  {
    if c < count - 1 {
      k := CoveredIsJob(n, size, count - 1, c, i);
    } else {
      k := |JobsUpTo(n, size, c)| + i;
    }
  }

  lemma {:induction false} ChunkBytes(q: nat, off: nat, len: nat)
    ensures JobBytes(ChunkJobs(q, off, len)) == q * len
  {
    if q > 0 {
      ChunkBytes(q - 1, off, len);
      assert ChunkJobs(q, off, len)[..q - 1] == ChunkJobs(q - 1, off, len);
      assert q * len == (q - 1) * len + len;
    }
  }

  ghost predicate AllQueued(n: nat, count: nat) {
    forall c :: 0 <= c < count ==> Queued(n, c) == n
  }

  lemma NoChunks(n: nat, size: nat)
    ensures Upto(size, CHUNK, 0) == 0 && JobBytes(JobsUpTo(n, size, 0)) == 0 && n * 0 == 0
  {
  }

  lemma ChunkAdds(n: nat, size: nat, c: nat)
    requires c + 1 <= Chunks(size)
    ensures Upto(size, CHUNK, c + 1) == Upto(size, CHUNK, c) + ChunkLen(size, c) && ChunkLen(size, c) > 0
    ensures c <= Chunks(size) && Queued(n, c) <= n
  {
    hide Position;
  }

  /** The bytes queued fall short of n copies exactly when some chunk skips an output. */
  lemma {:induction false} BytesQueued(n: nat, size: nat, count: nat)
    requires count <= Chunks(size)
    ensures var b := JobBytes(JobsUpTo(n, size, count));
            b <= n * Upto(size, CHUNK, count) && (b == n * Upto(size, CHUNK, count) <==> AllQueued(n, count))
  {
    hide Position, PerBatch, Queued, ChunkLen, Upto, Chunks;
    if count == 0 {
      NoChunks(n, size);
    } else {
      var c := count - 1;
      BytesQueued(n, size, c);
      ChunkAdds(n, size, c);
      var q, len := Queued(n, c), ChunkLen(size, c);
      ChunkBytes(q, c * CHUNK, len);
      TotalAppend(JobsUpTo(n, size, c), ChunkJobs(q, c * CHUNK, len), JobLen);
      Distribute(n, Upto(size, CHUNK, c), len);
      Shortfall(n, q, len);
      assert AllQueued(n, count) <==> AllQueued(n, c) && q == n;
    }
  }

  /** How many of the first `m` outputs get chunk `c`, and the bytes all outputs get of the first chunks. */
  function Receivers(n: nat, c: nat, m: nat): nat {
    if m == 0 then 0 else Receivers(n, c, m - 1) + if Covered(n, c, m - 1) then 1 else 0
  }
  function Copies(count: nat, len: nat): nat { count * len }
  function CoveredBytes(n: nat, size: nat, count: nat): nat {
    if count == 0 then 0
    else CoveredBytes(n, size, count - 1) + Copies(Receivers(n, count - 1, n), ChunkLen(size, count - 1))
  }

  lemma {:induction false} FirstReceive(n: nat, c: nat, m: nat)
    requires m <= n
    ensures Receivers(n, c, m) == Min(m, Queued(n, c))
  {
    hide Position, PerBatch, Covered, Queued;
    QueuedCovered(n, c);
    if m > 0 { FirstReceive(n, c, m - 1); }
  }

  /** The bytes queued are the bytes covered. */
  lemma {:induction false} QueuedIsCovered(n: nat, size: nat, count: nat)
    ensures JobBytes(JobsUpTo(n, size, count)) == CoveredBytes(n, size, count)
  {
    hide Queued, Receivers, ChunkLen, ChunkJobs;
    if count > 0 {
      QueuedIsCovered(n, size, count - 1);
      ReceiversQueued(n, count - 1);
      var c := count - 1;
      ChunkBytes(Queued(n, c), c * CHUNK, ChunkLen(size, c));
      TotalAppend(JobsUpTo(n, size, c), ChunkJobs(Queued(n, c), c * CHUNK, ChunkLen(size, c)), JobLen);
    }
  }

  lemma ReceiversQueued(n: nat, c: nat)
    ensures Receivers(n, c, n) == Queued(n, c)
  {
    FirstReceive(n, c, n);
  }

  /** A caller can tell beforehand: every output gets every chunk iff all chains fit one batch or n divides 256. */
  predicate Fits(n: nat, count: nat) {
    n * count <= 256 || 256 % n == 0
  }

  lemma FitsExactly(n: nat, count: nat)
    ensures AllQueued(n, count) <==> Fits(n, count)
  {
    if Fits(n, count) {
      forall c | 0 <= c < count ensures Queued(n, c) == n {
        FitsQueues(n, count, c);
      }
    } else {
      var c := SkipsLast(n, count);
    }
  }

  /** 256 is a multiple of n exactly when a batch is full to the last entry. */
  lemma FullBatch(n: nat)
    requires n > 0
    ensures 256 % n == 0 <==> PerBatch(n) * n == 256
  {
    hide PerBatch;
    var m, k := PerBatch(n), 256 / n;
    PerBatchBounds(n);
    DivMul(256, n);
    ModOfMultiple(m, n);
    if 256 % n == 0 {
      if m > k { MulMono(k, m - 1, n); }
      if m < k { MulMono(m, k - 1, n); MulStep(k - 1, n); }
    }
  }

  lemma FitsQueues(n: nat, count: nat, c: nat)
    requires Fits(n, count) && c < count
    ensures Queued(n, c) == n
  {
    hide PerBatch, Position;
    PositionExact(n, c);
    ModSmall(c, PerBatch(n));
    if n * count <= 256 {
      NextFits(c % PerBatch(n), count, n, 256);
    } else {
      FullBatch(n);
      NextFits(c % PerBatch(n), PerBatch(n), n, 256);
    }
  }

  lemma Overfull(n: nat, count: nat)
    requires !Fits(n, count)
    ensures n > 0 && count * n > 256 && PerBatch(n) * n > 256
  {
    hide PerBatch;
    PerBatchBounds(n);
    FullBatch(n);
  }

  /** Otherwise the last chunk of a full batch, or the very last chunk, skips an output. */
  lemma SkipsLast(n: nat, count: nat) returns (c: nat)
    requires !Fits(n, count)
    ensures c < count && Queued(n, c) < n
  {
    hide Fits, PerBatch, Position;
    var m := PerBatch(n);
    Overfull(n, count);
    c := if count <= m then count - 1 else m - 1;
    PositionExact(n, c);
    ModSmall(c, m);
    MulStep(c, n);
  }

  /** With the three outputs of the benchmark script the broadcast is complete up to 21.25 MiB, that is 85 chunks;
    * the next chunk misses the second and the third output. */
  lemma ThreeOutputs(size: nat)
    ensures Fits(3, Chunks(size)) <==> size <= 22282240
    ensures Covered(3, 85, 0) && !Covered(3, 85, 1) && !Covered(3, 85, 2)
    ensures size == 22544384 ==> CoveredBytes(3, size, Chunks(size)) == 67108864
  {
    hide Position, Receivers, CoveredBytes;
    assert PerBatch(3) == 86;
    if size == 22544384 { NextChunkShort(size); }
  }

  lemma NextChunkShort(size: nat)
    requires size == 22544384
    ensures CoveredBytes(3, size, Chunks(size)) == 67108864
  {
    hide Receivers, ChunkLen, Chunks;
    FirstChunks(85, size);
    ChunkOneReceiver(size);
    assert CoveredBytes(3, size, 86) == CoveredBytes(3, size, 85) + Copies(1, 262144);
  }

  lemma ChunkOneReceiver(size: nat)
    requires size == 22544384
    ensures Chunks(size) == 86 && Receivers(3, 85, 3) == 1 && ChunkLen(size, 85) == 262144
  {
    hide Position;
    ReceiversQueued(3, 85);
    PositionExact(3, 85);
    assert PerBatch(3) == 86;
  }

  lemma {:induction false} FirstChunks(count: nat, size: nat)
    requires count <= 85 && size >= 22282240
    ensures CoveredBytes(3, size, count) == 3 * count * 262144
  {
    hide Receivers, ChunkLen;
    if count > 0 {
      FirstChunks(count - 1, size);
      FullChunk(count - 1, size);
    }
  }

  lemma FullChunk(c: nat, size: nat)
    requires c < 85 && size >= 22282240
    ensures Receivers(3, c, 3) == 3 && ChunkLen(size, c) == 262144
  {
    hide Position;
    ReceiversQueued(3, c);
    PositionExact(3, c);
    assert PerBatch(3) == 86;
  }

  // ---- the batches ----

  /** After a chunk the batch is submitted when the queue is full or the input is used up. */
  predicate Due(size: nat, c: nat, queued: nat) { 2 * queued >= DEPTH || (c + 1) * CHUNK >= size }

  /** The jobs in the queue when chunk `c` comes up, and when it has been queued. */
  function Waiting(n: nat, size: nat, c: nat): seq<Job>
    decreases c, 0
  {
    if c == 0 || Due(size, c - 1, |Filled(n, size, c - 1)|) then [] else Filled(n, size, c - 1)
  }
  function Filled(n: nat, size: nat, c: nat): seq<Job>
    decreases c, 1
  {
    Waiting(n, size, c) + ChunkJobs(Queued(n, c), c * CHUNK, ChunkLen(size, c))
  }

  /** The batches submitted before chunk `c`, their jobs, and the number of chunks in them. */
  function Batches(n: nat, size: nat, c: nat): seq<seq<Job>> {
    if c == 0 then []
    else
      var batch := Filled(n, size, c - 1);
      Batches(n, size, c - 1) + if Due(size, c - 1, |batch|) then [batch] else []
  }
  function Done(n: nat, size: nat, c: nat): seq<Job> {
    if c == 0 then []
    else
      var batch := Filled(n, size, c - 1);
      Done(n, size, c - 1) + if Due(size, c - 1, |batch|) then batch else []
  }
  function Cut(n: nat, size: nat, c: nat): (k: nat)
    ensures k <= c
  {
    if c == 0 then 0 else if Due(size, c - 1, |Filled(n, size, c - 1)|) then c else Cut(n, size, c - 1)
  }

  /** The queue holds as many jobs as `Position` says, and batches and queue together all jobs so far. */
  lemma {:induction false} PlanOk(n: nat, size: nat, c: nat)
    requires c <= Chunks(size)
    ensures Done(n, size, c) + Waiting(n, size, c) == JobsUpTo(n, size, c)
    ensures |Waiting(n, size, c)| == if c < Chunks(size) then Position(n, c) else 0
    ensures c < Chunks(size) ==> |Filled(n, size, c)| == Position(n, c) + Queued(n, c)
  {
    hide PerBatch, Position, Queued, Due, JobsUpTo, ChunkLen;
    FilledSize(n, size, c);
    if c > 0 {
      PlanOk(n, size, c - 1);
      PlanNext(n, size, c - 1);
    } else {
      PlanStart(n, size);
    }
  }

  lemma FilledSize(n: nat, size: nat, c: nat)
    ensures |Filled(n, size, c)| == |Waiting(n, size, c)| + Queued(n, c)
  {
    hide PerBatch, Position;
  }

  lemma PlanStart(n: nat, size: nat)
    ensures Done(n, size, 0) + Waiting(n, size, 0) == JobsUpTo(n, size, 0) && Waiting(n, size, 0) == [] && Position(n, 0) == 0
  {
  }

  lemma FilledNext(n: nat, size: nat, c: nat)
    requires Done(n, size, c) + Waiting(n, size, c) == JobsUpTo(n, size, c)
    ensures Done(n, size, c) + Filled(n, size, c) == JobsUpTo(n, size, c + 1)
  {
    hide Queued, ChunkLen, Due;
  }

  lemma PlanNext(n: nat, size: nat, c: nat)
    requires c < Chunks(size) && Done(n, size, c) + Waiting(n, size, c) == JobsUpTo(n, size, c)
    requires |Filled(n, size, c)| == Position(n, c) + Queued(n, c)
    ensures Done(n, size, c + 1) + Waiting(n, size, c + 1) == JobsUpTo(n, size, c + 1)
    ensures |Waiting(n, size, c + 1)| == if c + 1 < Chunks(size) then Position(n, c + 1) else 0
  {
    hide PerBatch, ChunkLen;
    FilledNext(n, size, c);
    assert (c + 1) * CHUNK >= size <==> c + 1 == Chunks(size);
  }

  /** Job `x` is chunk `c`, from `lo` up to `hi`. */
  ghost predicate ChunkOf(x: Job, n: nat, size: nat, lo: nat, hi: nat) {
    exists c :: lo <= c < hi && IsChunk(x, n, size, c)
  }
  predicate IsChunk(x: Job, n: nat, size: nat, c: nat) {
    x.off == c * CHUNK && x.len == ChunkLen(size, c) && 1 <= x.dst && x.dst - 1 < Queued(n, c)
  }

  lemma {:induction false} WaitingChunks(n: nat, size: nat, c: nat)
    ensures forall x :: x in Waiting(n, size, c) ==> ChunkOf(x, n, size, Cut(n, size, c), c)
  {
    if c > 0 && Waiting(n, size, c) != [] {
      WaitingChunks(n, size, c - 1);
      FilledChunks(n, size, c - 1);
    }
  }

  lemma FilledChunks(n: nat, size: nat, c: nat)
    requires forall x :: x in Waiting(n, size, c) ==> ChunkOf(x, n, size, Cut(n, size, c), c)
    ensures forall x :: x in Filled(n, size, c) ==> ChunkOf(x, n, size, Cut(n, size, c), c + 1)
  {
    var jobs := ChunkJobs(Queued(n, c), c * CHUNK, ChunkLen(size, c));
    forall x | x in Filled(n, size, c) ensures ChunkOf(x, n, size, Cut(n, size, c), c + 1) {
      if x in Waiting(n, size, c) {
        var e :| Cut(n, size, c) <= e < c && IsChunk(x, n, size, e);
      } else {
        assert x in jobs && IsChunk(x, n, size, c);
      }
    }
  }

  // ---- chunks that meet in a pipe ----

  /** Chunk `d` follows another chunk of its batch, and both fit into one pipe. */
  predicate Meets(n: nat, size: nat, cap: nat, d: nat) {
    0 < d < Chunks(size) && d % PerBatch(n) != 0 && CHUNK + ChunkLen(size, d) <= cap
  }

  /** No two chunks of a batch fit into one pipe: every batch is a single chunk, or the pipes are so small
    * that even the last chunk does not fit behind another one. A caller can tell beforehand; with pipes of
    * two chunks and more only n >= 256 and inputs of one chunk remain. */
  predicate KeepsApart(n: nat, size: nat, cap: nat) {
    || PerBatch(n) == 1
    || Chunks(size) <= 1
    || (cap < 2 * CHUNK && ((Chunks(size) - 1) % PerBatch(n) == 0 || CHUNK + ChunkLen(size, Chunks(size) - 1) > cap))
  }

  lemma OneChunkBatches(n: nat)
    requires n > 0
    ensures PerBatch(n) == 1 <==> n >= 256
  {
    PerBatchBounds(n);
  }

  lemma ApartExactly(n: nat, size: nat, cap: nat)
    ensures KeepsApart(n, size, cap) <==> forall d :: !Meets(n, size, cap, d)
  {
    hide PerBatch;
    var m, last := PerBatch(n), Chunks(size) - 1;
    forall d | d < last && 0 < d ensures ChunkLen(size, d) == CHUNK { }
    if !KeepsApart(n, size, cap) {
      ModSmall(1, m);
      assert if 2 * CHUNK <= cap then Meets(n, size, cap, 1) else Meets(n, size, cap, last);
    } else {
      forall d ensures !Meets(n, size, cap, d) {
        if m == 1 { ModSmall(d, 1); }
      }
    }
  }

  /** A chunk that is not the first of its batch finds the chunk before it in the queue. */
  lemma CutBefore(n: nat, size: nat, d: nat)
    requires n > 0 && 0 < d < Chunks(size) && d % PerBatch(n) != 0
    ensures Cut(n, size, d) < d
  {
    hide PerBatch, Position;
    PlanOk(n, size, d);
    PositionExact(n, d);
    MulMono(1, d % PerBatch(n), n);
    assert Waiting(n, size, d) != [];
  }

  // ---- what is left in the outputs ----

  /** The chunks up to and including the last one that output `i` gets. */
  function Reach(n: nat, count: nat, i: nat): (e: nat)
    ensures e <= count && (e > 0 ==> Covered(n, e - 1, i)) && forall c :: e <= c < count ==> !Covered(n, c, i)
  {
    if count == 0 then 0 else if Covered(n, count - 1, i) then count else Reach(n, count - 1, i)
  }

  /** Output `i` after the broadcast: covered chunks are the input's, skipped chunks are holes, and it ends
    * with the last covered chunk. */
  function Output(input: Bytes, n: nat, i: nat): Bytes {
    seq(Upto(|input|, CHUNK, Reach(n, Chunks(|input|), i)), k requires 0 <= k < |input| =>
      if Covered(n, k / CHUNK, i) then input[k] else 0)
  }

  /** Output `i` is a copy of the input exactly when it gets the last chunk and the chunks it does not get
    * are zeros. */
  lemma OutputIsInput(input: Bytes, n: nat, i: nat)
    ensures Output(input, n, i) == input <==>
            && (input != [] ==> Covered(n, Chunks(|input|) - 1, i))
            && forall k :: 0 <= k < |input| && !Covered(n, k / CHUNK, i) ==> input[k] == 0
  {
    hide PerBatch;
    var out, e := Output(input, n, i), Reach(n, Chunks(|input|), i);
    if input != [] {
      assert Upto(|input|, CHUNK, e) == |input| <==> e == Chunks(|input|);
    }
    if out == input {
      forall k | 0 <= k < |input| && !Covered(n, k / CHUNK, i) ensures input[k] == 0 { assert out[k] == 0; }
    }
  }

  /** When no chunk skips an output, every output is a copy. */
  lemma FitsOutputs(input: Bytes, n: nat, i: nat)
    requires Fits(n, Chunks(|input|)) && i < n
    ensures Output(input, n, i) == input
  {
    FitsExactly(n, Chunks(|input|));
    OutputIsInput(input, n, i);
    forall c | 0 <= c < Chunks(|input|) ensures Covered(n, c, i) {
      QueuedCovered(n, c);
      assert Queued(n, c) == n;
    }
  }
}
