/** Mode 4: one linked chain of 2n requests per chunk, teeing a source pipe into every output. */
module TeeBroadcast {
  import opened Arith
  import opened Files
  import opened Kernel
  import opened Sums
  import opened Uring
  import opened Spec

  const CHUNK: nat := 262144
  const DEPTH: nat := 1024

  /** Request `p` of the chain: fill the source pipe; tee and drain for outputs 1 to n - 1; drain the
    * source pipe into output n. */
  function TeeSqe(n: nat, off: nat, len: nat, p: nat): Sqe {
    if p == 0 then Sqe(Fill(0, off, 0, len), true, 0)
    else if p == 2 * n - 1 then Sqe(Drain(0, n, off, len), false, len)
    else if p % 2 == 1 then Sqe(Tee(0, (p + 1) / 2, len), true, 0)
    else Sqe(Drain(p / 2, p / 2, off, len), true, len)
  }

  function TeeChain(n: nat, off: nat, len: nat): Chain {
    seq(2 * n, p requires 0 <= p < 2 * n => TeeSqe(n, off, len, p))
  }

  /** Output `i` has its chunk once this many requests have completed. */
  function DoneAt(n: nat, i: nat): nat { if i == n then 2 * n else 2 * i + 1 }

  /** The failure-free state after `p` requests of the chain: tee leaves the source pipe unchanged,
    * each drain empties its pipe, and the last drain empties the source pipe. */
  ghost predicate AfterOps(files: seq<Bytes>, pipes: seq<Bytes>, input: Bytes, n: nat, off: nat, len: nat, p: nat) {
    && Disk(files, input, n) && |pipes| == n + 1 && off + len <= |input|
    && pipes[0] == (if 1 <= p < 2 * n then input[off..off + len] else [])
    && (forall i :: 1 <= i < n ==> pipes[i] == if p == 2 * i then input[off..off + len] else [])
    && pipes[n] == []
    && (forall i :: 1 <= i <= n ==> Holds(files[i], input, 0, if DoneAt(n, i) <= p then off + len else off))
  }

  lemma OpFill(w: World, input: Bytes, n: nat, off: nat, len: nat)
    requires AfterOps(w.files, w.pipes, input, n, off, len, 0) && n >= 1 && len <= w.cap
    ensures OpReady(w, TeeSqe(n, off, len, 0).op)
    ensures var w' := Apply(w, TeeSqe(n, off, len, 0).op); AfterOps(w'.files, w'.pipes, input, n, off, len, 1)
  {
  }

  lemma OpTee(w: World, input: Bytes, n: nat, off: nat, len: nat, i: nat)
    requires 1 <= i < n && AfterOps(w.files, w.pipes, input, n, off, len, 2 * i - 1) && len <= w.cap
    ensures OpReady(w, Tee(0, i, len))
    ensures var w' := Apply(w, Tee(0, i, len)); AfterOps(w'.files, w'.pipes, input, n, off, len, 2 * i)
  {
  }

  lemma OpDrain(w: World, input: Bytes, n: nat, off: nat, len: nat, i: nat)
    requires AfterOps(w.files, w.pipes, input, n, off, len, 2 * i) && 1 <= i < n && 0 < len
    ensures OpReady(w, Drain(i, i, off, len))
    ensures var w' := Apply(w, Drain(i, i, off, len)); AfterOps(w'.files, w'.pipes, input, n, off, len, 2 * i + 1)
  {
    hide Pwrite, Pread, Holds;
    PwriteOwn(w.files[i], input, off, off + len);
    assert w.pipes[i][..len] == input[off..off + len];
    Extend(w.files[i], Pwrite(w.files[i], off, input[off..off + len]), input, off, len);
  }

  lemma OpLast(w: World, input: Bytes, n: nat, off: nat, len: nat)
    requires n >= 1 && AfterOps(w.files, w.pipes, input, n, off, len, 2 * n - 1) && 0 < len
    ensures OpReady(w, Drain(0, n, off, len))
    ensures var w' := Apply(w, Drain(0, n, off, len)); AfterOps(w'.files, w'.pipes, input, n, off, len, 2 * n)
  {
    hide Pwrite, Pread, Holds;
    PwriteOwn(w.files[n], input, off, off + len);
    assert w.pipes[0][..len] == input[off..off + len];
    Extend(w.files[n], Pwrite(w.files[n], off, input[off..off + len]), input, off, len);
  }

  lemma Extend(f: Bytes, g: Bytes, input: Bytes, off: nat, len: nat)
    requires Holds(f, input, 0, off) && Holds(g, input, off, off + len)
    requires forall lo, hi :: Holds(f, input, lo, hi) ==> Holds(g, input, lo, hi)
    ensures Holds(g, input, 0, off + len)
  {
    HoldsJoin(g, input, 0, off, off + len);
  }

  /** Without a failure the next request of the chain can always run, and advances the state. */
  lemma NextOp(w: World, input: Bytes, n: nat, off: nat, len: nat, p: nat)
    requires AfterOps(w.files, w.pipes, input, n, off, len, p) && p < 2 * n && 0 < len <= w.cap
    ensures OpReady(w, TeeSqe(n, off, len, p).op)
    ensures var w' := Apply(w, TeeSqe(n, off, len, p).op); AfterOps(w'.files, w'.pipes, input, n, off, len, p + 1)
  {
    hide AfterOps, Apply, OpReady;
    if p == 0 {
      OpFill(w, input, n, off, len);
    } else if p == 2 * n - 1 {
      OpLast(w, input, n, off, len);
    } else if p % 2 == 1 {
      OpTee(w, input, n, off, len, (p + 1) / 2);
    } else {
      OpDrain(w, input, n, off, len, p / 2);
    }
  }

  // ---- the bytes the chain promises ----

  /** Requests 2i - 1 and 2i of the chain promise one more copy. */
  lemma PairData(n: nat, off: nat, len: nat, i: nat)
    requires 1 <= i < n
    ensures ChainData(TeeChain(n, off, len)[..2 * i + 1]) == ChainData(TeeChain(n, off, len)[..2 * i - 1]) + len
  {
    var ch := TeeChain(n, off, len);
    var a, b, c := ch[..2 * i - 1], ch[..2 * i], ch[..2 * i + 1];
    assert c[..2 * i] == b && b[..2 * i - 1] == a;
    assert Total(c, SqeData) == Total(b, SqeData) + c[2 * i].data;
    assert Total(b, SqeData) == Total(a, SqeData) + b[2 * i - 1].data;
  }

  lemma {:induction false} PrefixData(n: nat, off: nat, len: nat, i: nat)
    requires i < n
    ensures ChainData(TeeChain(n, off, len)[..2 * i + 1]) == i * len
  {
    if i == 0 {
      var ch := TeeChain(n, off, len)[..1];
      assert Total(ch, SqeData) == Total(ch[..0], SqeData) + ch[0].data;
    } else {
      PrefixData(n, off, len, i - 1);
      PairData(n, off, len, i);
      MulStep(i - 1, len);
    }
  }

  lemma TeeChainData(n: nat, off: nat, len: nat)
    requires n >= 1
    ensures ChainData(TeeChain(n, off, len)) == n * len
  {
    PrefixData(n, off, len, n - 1);
    assert TeeChain(n, off, len)[..2 * n - 1] == TeeChain(n, off, len)[..2 * (n - 1) + 1];
    MulStep(n - 1, len);
  }

  /** The drains among the first `p` requests of a chain. */
  function Drained(n: nat, p: nat): nat {
    if p >= 2 * n then n else if p == 0 then 0 else (p - 1) / 2
  }

  /** The bytes that the first `p` requests deliver. */
  lemma DrainedData(n: nat, off: nat, len: nat, p: nat)
    requires n >= 1 && p <= 2 * n
    ensures ChainData(TeeChain(n, off, len)[..p]) == Drained(n, p) * len
  {
    var ch := TeeChain(n, off, len);
    if p == 2 * n {
      assert ch[..p] == ch;
      TeeChainData(n, off, len);
    } else if p > 0 {
      var i := (p - 1) / 2;
      PrefixData(n, off, len, i);
      if p == 2 * i + 2 {
        assert ch[..p][..p - 1] == ch[..2 * i + 1];
        assert Total(ch[..p], SqeData) == Total(ch[..p - 1], SqeData) + ch[p - 1].data;
      }
    }
  }

  function ChunkLen(size: nat, c: nat): nat { Upto(size, CHUNK, c + 1) - Upto(size, CHUNK, c) }

  /** The requests of chunk `c` that completed: all, or those before the one that failed. */
  function Done(n: nat, cut: map<nat, nat>, c: nat): nat {
    if c in cut then (if cut[c] <= 2 * n then 2 * n - cut[c] else 0) else 2 * n
  }
  function Copies(count: nat, len: nat): nat { count * len }

  /** The bytes delivered of the first `count` chunks: a copy for each drain that completed. */
  function TeeBytes(n: nat, size: nat, count: nat, cut: map<nat, nat>): nat {
    if count == 0 then 0
    else TeeBytes(n, size, count - 1, cut) + Copies(Drained(n, Done(n, cut, count - 1)), ChunkLen(size, count - 1))
  }

  /** What happens to later chunks does not matter. */
  lemma {:induction false} LaterCut(n: nat, size: nat, count: nat, cut: map<nat, nat>, c: nat, k: nat)
    requires c >= count
    ensures TeeBytes(n, size, count, cut[c := k]) == TeeBytes(n, size, count, cut)
  {
    if count > 0 { LaterCut(n, size, count - 1, cut, c, k); }
  }

  /** That is n copies exactly when no chain was cut short. */
  lemma {:induction false} TeeBytesExactly(n: nat, size: nat, count: nat, cut: map<nat, nat>)
    requires n >= 1 && count <= Chunks(size) && forall c :: c in cut ==> 1 <= cut[c] <= 2 * n
    ensures TeeBytes(n, size, count, cut) <= n * Upto(size, CHUNK, count)
    ensures TeeBytes(n, size, count, cut) == n * Upto(size, CHUNK, count) <==> forall c :: 0 <= c < count ==> c !in cut
  {
    if count > 0 {
      var c := count - 1;
      TeeBytesExactly(n, size, c, cut);
      var len := ChunkLen(size, c);
      assert len > 0 && Upto(size, CHUNK, count) == Upto(size, CHUNK, c) + len;
      hide Upto, ChunkLen, TeeBytes;
      Distribute(n, Upto(size, CHUNK, c), len);
      Shortfall(n, Drained(n, Done(n, cut, c)), len);
      assert Drained(n, Done(n, cut, c)) == n <==> c !in cut;
      TeeBytesNext(n, size, c, cut);
    }
  }

  lemma TeeBytesNext(n: nat, size: nat, c: nat, cut: map<nat, nat>)
    ensures TeeBytes(n, size, c + 1, cut) == TeeBytes(n, size, c, cut) + Drained(n, Done(n, cut, c)) * ChunkLen(size, c)
  {
  }

  // ---- the invariant of one chunk, with failures ----

  function Executed(w: World, n: nat): int
    requires w.chains != []
  {
    2 * n - |w.chains[|w.chains| - 1]|
  }

  ghost predicate Suffix(chains: seq<Chain>, n: nat, off: nat, len: nat) {
    && chains != [] && |chains[|chains| - 1]| <= 2 * n
    && chains[|chains| - 1] == TeeChain(n, off, len)[2 * n - |chains[|chains| - 1]|..]
    && (forall c :: 0 <= c < |chains| - 1 ==> chains[c] == [])
  }

  lemma SuffixTail(chains: seq<Chain>, n: nat, off: nat, len: nat)
    requires Suffix(chains, n, off, len) && chains[|chains| - 1] != []
    ensures var last := |chains| - 1; Suffix(chains[last := chains[last][1..]], n, off, len)
  {
  }

  /** Only the chain of the current chunk is live; as long as nothing failed it is where `AfterOps` says. */
  ghost predicate Live(w: World, input: Bytes, n: nat, off: nat, len: nat) {
    && Suffix(w.chains, n, off, len)
    && off == Upto(|input|, CHUNK, |w.chains| - 1) && len == ChunkLen(|input|, |w.chains| - 1)
    && (w.failed == {} ==> AfterOps(w.files, w.pipes, input, n, off, len, Executed(w, n)))
  }

  ghost predicate CutOk(w: World, n: nat) {
    && w.failed == w.cut.Keys
    && forall c :: c in w.cut ==> c < |w.chains| && w.chains[c] == [] && 1 <= w.cut[c] <= 2 * n
  }

  ghost predicate InFull(cq: seq<Cqe>) {
    forall k :: 0 <= k < |cq| && cq[k].data > 0 ==> cq[k].res < 0 || cq[k].res == cq[k].data
  }

  /** Completions report in full or fail; bytes counted, reported and promised are a copy for each drain that has
    * completed or still can. */
  ghost predicate Account(w: World, n: nat, size: nat, sofar: int) {
    && InFull(w.cq) && CutOk(w, n)
    && Delivered(w.cq) + DataLeft(w) + sofar == TeeBytes(n, size, |w.chains|, w.cut)
  }

  lemma HeadOf(w: World, input: Bytes, n: nat, off: nat, len: nat)
    requires Live(w, input, n, off, len) && Executed(w, n) < 2 * n
    ensures var ch, p := w.chains[|w.chains| - 1], Executed(w, n);
            && ch[0] == TeeSqe(n, off, len, p) && ch[1..] == TeeChain(n, off, len)[p + 1..]
            && ch[|ch| - 1] == TeeSqe(n, off, len, 2 * n - 1) && Honest(ch[0])
  {
  }

  lemma SucceedState(w: World, input: Bytes, n: nat, off: nat, len: nat)
    requires Live(w, input, n, off, len) && Executed(w, n) < 2 * n && 0 < len <= w.cap
    requires Ready(w, |w.chains| - 1) && w.failed == {}
    ensures var w' := Succeed(w, |w.chains| - 1);
            AfterOps(w'.files, w'.pipes, input, n, off, len, Executed(w, n) + 1)
  {
    HeadOf(w, input, n, off, len);
    NextOp(w, input, n, off, len, Executed(w, n));
  }

  lemma SucceedLive(w: World, input: Bytes, n: nat, off: nat, len: nat)
    requires Live(w, input, n, off, len) && Executed(w, n) < 2 * n && 0 < len <= w.cap
    requires Ready(w, |w.chains| - 1)
    ensures Live(Succeed(w, |w.chains| - 1), input, n, off, len)
  {
    SuffixTail(w.chains, n, off, len);
    assert Executed(Succeed(w, |w.chains| - 1), n) == Executed(w, n) + 1;
    if w.failed == {} { SucceedState(w, input, n, off, len); }
  }

  lemma SucceedAccount(w: World, input: Bytes, n: nat, off: nat, len: nat, sofar: int)
    requires Live(w, input, n, off, len) && Executed(w, n) < 2 * n && Account(w, n, |input|, sofar)
    requires Ready(w, |w.chains| - 1)
    ensures Account(Succeed(w, |w.chains| - 1), n, |input|, sofar)
  {
    hide DataLeft, Delivered, AfterOps, TeeBytes, InFull, CutOk, TeeChain, Succeed, Ready;
    var c := |w.chains| - 1;
    HeadOf(w, input, n, off, len);
    SucceedConserves(w, c);
    SucceedReports(w, c);
    SucceedCut(w, n, c);
  }

  lemma SucceedReports(w: World, c: nat)
    requires Ready(w, c) && Honest(w.chains[c][0]) && InFull(w.cq)
    ensures InFull(Succeed(w, c).cq)
  {
    hide Apply, InOrder;
    ApplyKeeps(w, w.chains[c][0].op);
  }

  lemma SucceedCut(w: World, n: nat, c: nat)
    requires Ready(w, c) && CutOk(w, n)
    ensures CutOk(Succeed(w, c), n) && |Succeed(w, c).chains| == |w.chains| && Succeed(w, c).cut == w.cut
  {
    hide OpReady, InOrder, OpLen, Apply;
    ApplyKeeps(w, w.chains[c][0].op);
  }

  lemma FailLive(w: World, input: Bytes, n: nat, off: nat, len: nat)
    requires Live(w, input, n, off, len) && w.chains[|w.chains| - 1] != []
    ensures Live(Fail(w, |w.chains| - 1), input, n, off, len)
  {
    hide AfterOps, TeeSqe;
    assert |w.chains| - 1 in Fail(w, |w.chains| - 1).failed;
  }

  /** A failure takes the bytes of the drains that it cancels away, and of no other. */
  lemma FailAccount(w: World, input: Bytes, n: nat, off: nat, len: nat, sofar: int)
    requires Live(w, input, n, off, len) && w.chains[|w.chains| - 1] != [] && Account(w, n, |input|, sofar) && n >= 1
    ensures Account(Fail(w, |w.chains| - 1), n, |input|, sofar)
  {
    hide DataLeft, Delivered, AfterOps, TeeBytes, InFull, CutOk, TeeChain, ChainData, ChunkLen, Fail;
    var c, k := |w.chains| - 1, |w.chains[|w.chains| - 1]|;
    FailConserves(w, c);
    FailReports(w, c);
    FailCut(w, n, c);
    CutData(n, off, len, k);
    LaterCut(n, |input|, c, w.cut, c, k);
    TeeBytesNext(n, |input|, c, w.cut);
    TeeBytesNext(n, |input|, c, w.cut[c := k]);
  }

  lemma FailReports(w: World, c: nat)
    requires c < |w.chains| && w.chains[c] != [] && InFull(w.cq)
    ensures InFull(Fail(w, c).cq)
  {
  }

  lemma FailCut(w: World, n: nat, c: nat)
    requires c < |w.chains| && 1 <= |w.chains[c]| <= 2 * n && CutOk(w, n)
    ensures CutOk(Fail(w, c), n) && |Fail(w, c).chains| == |w.chains| && c !in w.cut
    ensures Fail(w, c).cut == w.cut[c := |w.chains[c]|]
  {
  }

  lemma CutData(n: nat, off: nat, len: nat, k: nat)
    requires n >= 1 && k <= 2 * n
    ensures Drained(n, 2 * n - k) * len + ChainData(TeeChain(n, off, len)[2 * n - k..]) == n * len
  {
    hide TeeSqe;
    var ch, p: nat := TeeChain(n, off, len), 2 * n - k;
    DrainedData(n, off, len, p);
    TeeChainData(n, off, len);
    assert ch == ch[..p] + ch[p..];
    TotalAppend(ch[..p], ch[p..], SqeData);
  }

  lemma StepLive(w: World, input: Bytes, n: nat, off: nat, len: nat, sofar: int, ch: Choice)
    requires Live(w, input, n, off, len) && Account(w, n, |input|, sofar) && 0 < len <= w.cap && n >= 1
    ensures Live(Step(w, ch), input, n, off, len) && Account(Step(w, ch), n, |input|, sofar)
  {
    hide Account, Succeed, Fail, AfterOps, Ready;
    var c := |w.chains| - 1;
    if ch.chain == c && w.chains[c] != [] {
      if ch.fails {
        if w.faulty {
          FailAccount(w, input, n, off, len, sofar);
          FailLive(w, input, n, off, len);
        }
      } else if Ready(w, c) {
        SucceedLive(w, input, n, off, len);
        SucceedAccount(w, input, n, off, len, sofar);
      }
    }
  }

  /** Main invariant of mode 4, over every schedule and every set of failures. */
  lemma {:induction false} ExecLive(w: World, input: Bytes, n: nat, off: nat, len: nat, sofar: int, sched: seq<Choice>)
    requires Live(w, input, n, off, len) && Account(w, n, |input|, sofar) && 0 < len <= w.cap && n >= 1
    ensures var w' := Exec(w, sched);
            && Live(w', input, n, off, len) && Account(w', n, |input|, sofar) && SamePolicy(w, w')
            && |w'.cq| + OpsLeft(w') == |w.cq| + OpsLeft(w)
    decreases |sched|
  {
    hide Live, Account, Step;
    if sched != [] {
      StepLive(w, input, n, off, len, sofar, sched[0]);
      StepAccounting(w, sched[0]);
      ExecLive(Step(w, sched[0]), input, n, off, len, sofar, sched[1..]);
    }
  }

  // ---- the broadcast ----

  datatype TeeResult =
    | Returned(moved: nat)
    | NullSqe          // io_uring_get_sqe returned null and the entry is used anyway
    | Blocked          // io_uring_submit_and_wait never returns

  lemma ChainPrefix(n: nat, off: nat, len: nat, k: nat)
    requires k < 2 * n
    ensures TeeChain(n, off, len)[..k] + [TeeSqe(n, off, len, k)] == TeeChain(n, off, len)[..k + 1]
  {
  }

  /** Queues the chain of one chunk; the queue has room for it exactly when n is at most 512. */
  method QueueChain(ring: Ring, n: nat, off: nat, len: nat) returns (ok: bool, submissions: nat)
    requires n >= 1 && ring.entries == DEPTH && ring.sq == []
    modifies ring`sq
    ensures ok <==> n <= 512
    ensures ok ==> ring.sq == TeeChain(n, off, len) && submissions == 2 * n
  {
    ChainPrefix(n, off, len, 0);
    submissions := 0;
    ok := ring.GetSqe(Sqe(Fill(0, off, 0, len), true, 0));
    submissions := submissions + 1;
    var i := 0;
    while i < n - 1
      invariant i <= n - 1 && submissions == 2 * i + 1 && ok && |ring.sq| <= DEPTH
      invariant ring.sq == TeeChain(n, off, len)[..2 * i + 1]
    {
      ok := ring.GetSqe(Sqe(Tee(0, i + 1, len), true, 0));
      if !ok { return; }
      ChainPrefix(n, off, len, 2 * i + 1);
      submissions := submissions + 1;
      ok := ring.GetSqe(Sqe(Drain(i + 1, i + 1, off, len), true, len));
      if !ok { return; }
      ChainPrefix(n, off, len, 2 * i + 2);
      submissions := submissions + 1;
      i := i + 1;
    }
    ok := ring.GetSqe(Sqe(Drain(0, n, off, len), false, len));
    if !ok { return; }
    ChainPrefix(n, off, len, 2 * n - 1);
    submissions := submissions + 1;
    assert TeeChain(n, off, len)[..2 * n] == TeeChain(n, off, len);
  }

  /** io_uring_for_each_cqe: adds up the data of the successful completions. */
  method CollectCqes(ring: Ring) returns (moved: nat, count: nat)
    requires InFull(ring.w.cq)
    ensures moved == Delivered(ring.w.cq) && count == |ring.w.cq|
  {
    moved, count := 0, 0;
    while count < |ring.w.cq|
      invariant count <= |ring.w.cq| && moved == Delivered(ring.w.cq[..count])
    {
      var cqe := ring.w.cq[count];
      if cqe.data > 0 && cqe.res >= 0 {
        moved := moved + cqe.data;
      }
      assert ring.w.cq[..count + 1][..count] == ring.w.cq[..count];
      count := count + 1;
    }
    assert ring.w.cq[..count] == ring.w.cq;
  }

  /** Between chunks: the outputs hold the prefix done so far, unless something failed; the count is a copy for
    * each drain that completed. */
  ghost predicate Between(w: World, input: Bytes, n: nat, total: nat, moved: int) {
    && (forall c :: 0 <= c < |w.chains| ==> w.chains[c] == []) && w.cq == []
    && total == Upto(|input|, CHUNK, |w.chains|) && CutOk(w, n)
    && moved == TeeBytes(n, |input|, |w.chains|, w.cut)
    && (w.failed == {} ==> PrefixState(w, input, n, total))
  }

  ghost predicate PrefixState(w: World, input: Bytes, n: nat, total: nat) {
    && Disk(w.files, input, n) && |w.pipes| == n + 1 && PipesEmpty(w)
    && (forall i :: 1 <= i <= n ==> Holds(w.files[i], input, 0, total))
  }

  lemma SubmitLive(w: World, input: Bytes, n: nat, total: nat, len: nat, moved: int, sq: seq<Sqe>)
    requires Between(w, input, n, total, moved) && 1 <= n && total < |input| && len == Min(CHUNK, |input| - total)
    requires sq == TeeChain(n, total, len)
    ensures var w' := Submitted(w, sq);
            && w' == Launched(w, [TeeChain(n, total, len)])
            && Live(w', input, n, total, len) && Account(w', n, |input|, moved)
            && OpsLeft(w') == 2 * n
  {
    hide TeeChain, Split, AfterOps, PrefixState, Total, ChainData, TeeBytes, Delivered, ChunkLen;
    OneChain(n, total, len);
    TeeChainData(n, total, len);
    OneMore(w.chains, TeeChain(n, total, len));
    NoneReported(w.cq);
    LenOf(|input|, |w.chains|);
    TeeBytesNext(n, |input|, |w.chains|, w.cut);
    if w.failed == {} { FirstState(w, input, n, total, len); }
  }

  lemma LenOf(size: nat, c: nat)
    requires Upto(size, CHUNK, c) < size
    ensures ChunkLen(size, c) == Min(CHUNK, size - Upto(size, CHUNK, c))
  {
  }

  lemma OneMore(chains: seq<Chain>, ch: Chain)
    requires forall c :: 0 <= c < |chains| ==> chains[c] == []
    ensures Total(chains + [ch], ChainOps) == |ch| && Total(chains + [ch], ChainData) == ChainData(ch)
  {
    assert (chains + [ch])[..|chains|] == chains;
    TotalZero(chains, ChainOps);
    TotalZero(chains, ChainData);
  }

  lemma OneChain(n: nat, off: nat, len: nat)
    requires n >= 1
    ensures |TeeChain(n, off, len)| == 2 * n && Split(TeeChain(n, off, len)) == [TeeChain(n, off, len)]
  {
    hide Split;
    var ch := TeeChain(n, off, len);
    forall k | 0 <= k < |ch| - 1 ensures ch[k].link { }
    SplitChain(ch);
  }

  lemma FirstState(w: World, input: Bytes, n: nat, total: nat, len: nat)
    requires PrefixState(w, input, n, total) && total + len <= |input|
    ensures AfterOps(w.files, w.pipes, input, n, total, len, 0)
  {
  }

  lemma ChunkDone(w: World, input: Bytes, n: nat, off: nat, len: nat, sofar: int)
    requires Live(w, input, n, off, len) && Account(w, n, |input|, sofar) && OpsLeft(w) == 0
    ensures Executed(w, n) == 2 * n && Delivered(w.cq) + sofar == TeeBytes(n, |input|, |w.chains|, w.cut)
    ensures (forall c :: 0 <= c < |w.chains| ==> w.chains[c] == [])
    ensures w.failed == {} ==> PrefixState(w, input, n, off + len)
  {
    hide TeeBytes;
    TotalZero(w.chains, ChainOps);
    TotalZero(w.chains, ChainData);
  }

  /** Without a failure the chain can always go on: a hang means something failed. */
  lemma HangMeansFailure(w: World, input: Bytes, n: nat, off: nat, len: nat)
    requires Live(w, input, n, off, len) && OpsLeft(w) > 0 && 0 < len <= w.cap
    requires forall c :: !Ready(w, c)
    ensures w.failed != {}
  {
    TotalZero(w.chains, ChainOps);
    assert !Ready(w, |w.chains| - 1);
    if w.failed == {} {
      HeadOf(w, input, n, off, len);
      NextOp(w, input, n, off, len, Executed(w, n));
    }
  }

  /** io_uring_submit_and_wait for the queued chain. */
  method SubmitAndWait(ring: Ring, submissions: nat, ghost input: Bytes, ghost n: nat, ghost off: nat, ghost len: nat, ghost sofar: int)
    returns (hung: bool, ghost sched: seq<Choice>)
    requires Live(Submitted(ring.w, ring.sq), input, n, off, len) && Account(Submitted(ring.w, ring.sq), n, |input|, sofar)
    requires ring.w.cq == [] && OpsLeft(Submitted(ring.w, ring.sq)) == submissions == 2 * n
    requires 0 < len <= ring.w.cap && n >= 1
    modifies ring
    ensures ring.sq == [] && SamePolicy(old(ring.w), ring.w)
    ensures Live(ring.w, input, n, off, len) && Account(ring.w, n, |input|, sofar)
    ensures if hung then ring.w.failed != {} && Stuck(ring.w) else OpsLeft(ring.w) == 0
    ensures ring.w == Exec(Submitted(old(ring.w), old(ring.sq)), sched)
  {
    hide Live, Account, Exec;
    ghost var w0 := Submitted(ring.w, ring.sq);
    var s1 := ring.Submit();
    ExecLive(w0, input, n, off, len, sofar, s1);
    ghost var w1, s2 := ring.w, [];
    hung, s2 := ring.WaitNr(submissions);
    ExecLive(w1, input, n, off, len, sofar, s2);
    ExecAppend(w0, s1, s2);
    sched := s1 + s2;
    if hung { HangMeansFailure(ring.w, input, n, off, len); }
  }

  lemma ChunkAccounted(w: World, w': World, input: Bytes, n: nat, off: nat, len: nat, before: int, moved: nat)
    requires Live(w, input, n, off, len) && Account(w, n, |input|, before) && OpsLeft(w) == 0
    requires moved == Delivered(w.cq) && w' == w.(cq := [])
    ensures Between(w', input, n, off + len, before + moved)
  {
    hide TeeBytes, AfterOps;
    ChunkDone(w, input, n, off, len, before);
  }

  /** One chunk: queue, submit, wait for all its completions, count them. */
  method TeeChunk(ring: Ring, n: nat, total: nat, len: nat, ghost input: Bytes, ghost before: int)
    returns (r: TeeResult, ghost sched: seq<Choice>)
    requires n >= 1 && ring.entries == DEPTH && ring.sq == []
    requires Between(ring.w, input, n, total, before) && total < |input| && len == Min(CHUNK, |input| - total) <= ring.w.cap
    modifies ring
    ensures SamePolicy(old(ring.w), ring.w)
    ensures r.NullSqe? <==> n > 512
    ensures r.NullSqe? ==> ring.w == old(ring.w)
    ensures r.Blocked? ==> ring.w.failed != {} && Stuck(ring.w)
    ensures r.Blocked? ==> ring.w == Exec(Launched(old(ring.w), [TeeChain(n, total, len)]), sched)
    ensures r.Returned? ==> ring.sq == [] && Between(ring.w, input, n, total + len, before + r.moved)
    ensures r.Returned? ==> BatchRan(old(ring.w), ring.w, [TeeChain(n, total, len)], sched)
  {
    hide Live, Account, Between, TeeChain, Split, Exec, Stuck;
    sched := [];
    ghost var u := ring.w;
    NoCompletions(u, input, n, total, before);
    var ok, submissions := QueueChain(ring, n, total, len);
    if !ok { return NullSqe, []; }
    SubmitLive(ring.w, input, n, total, len, before, ring.sq);
    var hung;
    hung, sched := SubmitAndWait(ring, submissions, input, n, total, len, before);
    if hung { return Blocked, sched; }
    ghost var w1 := ring.w;
    Reportable(w1, n, |input|, before);
    var moved, count := CollectCqes(ring);
    ring.CqAdvance(count);
    ChunkAccounted(w1, ring.w, input, n, total, len, before, moved);
    r := Returned(moved);
  }

  lemma NoCompletions(w: World, input: Bytes, n: nat, total: nat, moved: int)
    requires Between(w, input, n, total, moved)
    ensures w.cq == []
  {
  }

  lemma Reportable(w: World, n: nat, size: nat, sofar: int)
    requires Account(w, n, size, sofar)
    ensures InFull(w.cq)
  {
  }

  /** The chains of the first `c` chunks, a batch each. */
  function TeeBatches(n: nat, size: nat, c: nat): seq<seq<Chain>> {
    seq(c, k requires 0 <= k < c => [TeeChain(n, Upto(size, CHUNK, k), ChunkLen(size, k))])
  }

  function Chunks(size: nat): nat { (size + CHUNK - 1) / CHUNK }

  lemma NextBatch(w0: World, u: World, w: World, n: nat, size: nat, c: nat, sched: seq<Choice>)
    requires Upto(size, CHUNK, c) < size && Ran(w0, u, TeeBatches(n, size, c))
    requires BatchRan(u, w, [TeeChain(n, Upto(size, CHUNK, c), Min(CHUNK, size - Upto(size, CHUNK, c)))], sched)
    ensures Ran(w0, w, TeeBatches(n, size, c + 1))
    ensures Upto(size, CHUNK, c + 1) == Upto(size, CHUNK, c) + Min(CHUNK, size - Upto(size, CHUNK, c)) && c + 1 <= Chunks(size)
  {
    hide Ran, BatchRan, TeeChain;
    var chain := TeeChain(n, Upto(size, CHUNK, c), Min(CHUNK, size - Upto(size, CHUNK, c)));
    RanMore(w0, u, w, TeeBatches(n, size, c), [chain], sched);
    assert TeeBatches(n, size, c + 1) == TeeBatches(n, size, c) + [[chain]];
  }

  lemma ChunkHangs(w0: World, u: World, w: World, n: nat, size: nat, c: nat, sched: seq<Choice>)
    requires Upto(size, CHUNK, c) < size && Ran(w0, u, TeeBatches(n, size, c)) && Stuck(w)
    requires w == Exec(Launched(u, [TeeChain(n, Upto(size, CHUNK, c), Min(CHUNK, size - Upto(size, CHUNK, c)))]), sched)
    ensures Hung(w0, w, TeeBatches(n, size, Chunks(size)))
  {
    hide Ran, TeeChain, Stuck, Exec;
    var front, all := TeeBatches(n, size, c), TeeBatches(n, size, Chunks(size));
    var chain := TeeChain(n, Upto(size, CHUNK, c), Min(CHUNK, size - Upto(size, CHUNK, c)));
    assert c < Chunks(size) && all[c] == [chain] && all[..c] == front;
    assert front + [[chain]] <= all;
    HangsThere(w0, u, w, front, [chain], all, sched);
  }

  lemma Start(w0: World, n: nat)
    requires Opened(w0, n)
    ensures Between(w0, w0.files[0], n, 0, 0) && Ran(w0, w0, TeeBatches(n, |w0.files[0]|, 0)) && w0.chains == []
  {
  }

  lemma Outcome(w: World, input: Bytes, n: nat, moved: int)
    requires Between(w, input, n, |input|, moved) && |w.chains| == Chunks(|input|) && n >= 1
    ensures moved == TeeBytes(n, |input|, Chunks(|input|), w.cut)
    ensures moved == n * |input| <==> w.failed == {}
    ensures w.failed == {} ==> w.files == seq(n + 1, _ => input) && PipesEmpty(w)
  {
    hide TeeBytes;
    TeeBytesExactly(n, |input|, Chunks(|input|), w.cut);
    assert w.failed == {} <==> forall c :: 0 <= c < Chunks(|input|) ==> c !in w.cut;
    if w.failed == {} { AllHeld(w.files, input, n); }
  }

  /** perform_tee_broadcast, for any set of failing requests: a run that returns is one that the kernel can
    * make of the planned chains, one per chunk, and reports a chunk for each drain that completed: n full copies
    * exactly when no request failed, and then every output is the input and every pipe is empty. A run that does
    * not return is stuck in a chunk, after a failure. */
  method PerformTeeBroadcast(w0: World, n: nat) returns (r: TeeResult, w: World)
    requires n >= 1 && Opened(w0, n) && CHUNK <= w0.cap
    ensures SamePolicy(w0, w)
    ensures r.NullSqe? <==> n > 512 && w0.files[0] != []
    ensures r.NullSqe? ==> w == w0
    ensures r.Returned? ==> Ran(w0, w, TeeBatches(n, |w0.files[0]|, Chunks(|w0.files[0]|)))
    ensures r.Returned? ==> r.moved == TeeBytes(n, |w0.files[0]|, Chunks(|w0.files[0]|), w.cut)
    ensures r.Returned? ==> (r.moved == n * |w0.files[0]| <==> w.failed == {})
    ensures r.Returned? && w.failed == {} ==> Broadcasted(w.files, w0.files[0], n, r.moved) && PipesEmpty(w)
    ensures r.Blocked? ==> w.failed != {} && Hung(w0, w, TeeBatches(n, |w0.files[0]|, Chunks(|w0.files[0]|)))
  {
    hide Between, Ran, BatchRan, TeeBatches, TeeBytes, Hung, Stuck, Exec, TeeChain;
    var ring := new Ring(DEPTH, w0);
    ghost var input := w0.files[0];
    var size := |w0.files[0]|;
    var total: nat, moved: nat := 0, 0;
    ghost var c: nat := 0;
    Start(w0, n);
    while total < size
      invariant ring.entries == DEPTH && ring.sq == [] && SamePolicy(w0, ring.w)
      invariant Between(ring.w, input, n, total, moved) && total == Upto(size, CHUNK, c) && c <= Chunks(size)
      invariant Ran(w0, ring.w, TeeBatches(n, size, c)) && |ring.w.chains| == c
      invariant if total > 0 then n <= 512 else ring.w == w0
      decreases size - total
    {
      var toProcess := Min(CHUNK, size - total);
      ghost var u := ring.w;
      var step;
      ghost var sched;
      step, sched := TeeChunk(ring, n, total, toProcess, input, moved);
      if !step.Returned? {
        if step.Blocked? { ChunkHangs(w0, u, ring.w, n, size, c, sched); }
        return step, ring.w;
      }
      NextBatch(w0, u, ring.w, n, size, c, sched);
      OneChainMore(u, ring.w, TeeChain(n, total, toProcess), sched);
      moved := moved + step.moved;
      total, c := total + toProcess, c + 1;
    }
    w := ring.w;
    r := Returned(moved);
    assert c == Chunks(size);
    Outcome(w, input, n, moved);
  }

  lemma OneChainMore(u: World, w: World, chain: Chain, sched: seq<Choice>)
    requires BatchRan(u, w, [chain], sched)
    ensures |w.chains| == |u.chains| + 1
  {
    hide Exec;
    ExecAccounting(Launched(u, [chain]), sched);
  }
}
