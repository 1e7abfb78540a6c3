/** Mode 2 at the kernel: linked readv/writev pairs with private buffers, any order, any failures. */
module VecJobs {
  import opened Files
  import opened Kernel
  import opened Spec

  /** The context of job `c` has the non-null address `c + 1`; only the write carries it. */
  function ReadOf(j: Job, c: nat): Sqe { Sqe(Readv(0, j.off, c + 1), true, 0) }
  function WriteOf(j: Job, c: nat): Sqe { Sqe(Writev(c + 1, j.dst, j.off), false, c + 1) }
  function JobChain(j: Job, c: nat): Chain { [ReadOf(j, c), WriteOf(j, c)] }

  ghost predicate ChainState(ch: Chain, j: Job, c: nat) {
    ch == JobChain(j, c) || ch == [WriteOf(j, c)] || ch == []
  }

  // ---- ownership: which contexts are alive, and what they hold ----

  /** Every job not yet freed owns a live context of the right size; once its read is done and its
    * write is not, the context holds exactly the bytes of its window. */
  ghost predicate Owned(heap: map<nat, Context>, chains: seq<Chain>, input: Bytes, js: seq<Job>, freed: set<nat>) {
    && |chains| <= |js|
    && (forall id :: id in heap ==> 1 <= id <= |js|)
    && (forall c :: 0 <= c < |js| ==> (c + 1 in heap <==> c !in freed))
    && (forall c :: 0 <= c < |js| && c !in freed ==> Sum(heap[c + 1].lens) == js[c].len == heap[c + 1].bytes)
    && (forall c :: 0 <= c < |chains| && |chains[c]| == 1 && c !in freed ==>
          js[c].off + js[c].len <= |input| && Gather(heap[c + 1].blocks) == input[js[c].off..js[c].off + js[c].len])
  }

  ghost predicate Shape(w: World, input: Bytes, js: seq<Job>, n: nat) {
    && Disk(w.files, input, n) && JobsOk(js, n, |input|) && |w.chains| <= |js|
    && (forall c :: 0 <= c < |w.chains| ==> ChainState(w.chains[c], js[c], c))
  }

  /** A chain that ran to its end without failing has delivered its window. */
  ghost predicate Done(w: World, input: Bytes, js: seq<Job>, n: nat)
    requires Shape(w, input, js, n)
  {
    forall c :: 0 <= c < |w.chains| && |w.chains[c]| == 0 && c !in w.failed ==>
      Holds(w.files[js[c].dst], input, js[c].off, js[c].off + js[c].len)
  }

  // ---- the completion queue ----

  /** The user_data words in the completion queue, with multiplicity. */
  ghost function Words(cq: seq<Cqe>): seq<nat> { seq(|cq|, k requires 0 <= k < |cq| => cq[k].data) }
  ghost function Datas(cq: seq<Cqe>): multiset<nat> { multiset(Words(cq)) }

  lemma DatasAppend(cq: seq<Cqe>, e: Cqe)
    ensures Datas(cq + [e]) == Datas(cq) + multiset{e.data}
  {
    assert Words(cq + [e]) == Words(cq) + [e.data];
  }

  lemma DatasHead(cq: seq<Cqe>)
    requires cq != []
    ensures Datas(cq) == multiset{cq[0].data} + Datas(cq[1..])
  {
    assert Words(cq) == [cq[0].data] + Words(cq[1..]);
  }

  /** A context-carrying completion belongs to a finished job and tells whether it failed. */
  ghost predicate Entry(e: Cqe, chains: seq<Chain>, failed: set<nat>) {
    e.data == 0 || (e.data <= |chains| && |chains[e.data - 1]| == 0 && (e.res < 0 <==> e.data - 1 in failed))
  }
  ghost predicate Entries(cq: seq<Cqe>, chains: seq<Chain>, failed: set<nat>) {
    forall k :: 0 <= k < |cq| ==> Entry(cq[k], chains, failed)
  }

  /** Every finished job that is not freed has exactly one completion waiting, no other job has any. */
  ghost predicate Counted(datas: multiset<nat>, chains: seq<Chain>, freed: set<nat>) {
    forall c :: 0 <= c < |chains| ==> datas[c + 1] == if |chains[c]| == 0 && c !in freed then 1 else 0
  }
  ghost predicate Ended(chains: seq<Chain>, cs: set<nat>) {
    forall c :: c in cs ==> c < |chains| && |chains[c]| == 0
  }

  ghost predicate Reaping(cq: seq<Cqe>, chains: seq<Chain>, failed: set<nat>, freed: set<nat>) {
    && Ended(chains, freed) && Ended(chains, failed)
    && Entries(cq, chains, failed) && Counted(Datas(cq), chains, freed)
  }

  ghost predicate Inv(w: World, input: Bytes, js: seq<Job>, n: nat, freed: set<nat>) {
    && Shape(w, input, js, n) && Done(w, input, js, n)
    && Owned(w.heap, w.chains, input, js, freed)
    && Reaping(w.cq, w.chains, w.failed, freed)
  }

  lemma PostNull(cq: seq<Cqe>, chains: seq<Chain>, failed: set<nat>, freed: set<nat>, c: nat, x: Chain, res: int)
    requires Reaping(cq, chains, failed, freed) && c < |chains| && |chains[c]| != 0 && |x| != 0
    ensures Reaping(cq + [Cqe(0, res)], chains[c := x], failed, freed)
  {
    DatasAppend(cq, Cqe(0, res));
    forall k | 0 <= k < |cq| ensures Entry(cq[k], chains[c := x], failed) {
      assert Entry(cq[k], chains, failed);
    }
  }

  lemma PostEntries(cq: seq<Cqe>, chains: seq<Chain>, failed: set<nat>, c: nat, res: int)
    requires Entries(cq, chains, failed) && c < |chains| && |chains[c]| != 0 && c !in failed
    ensures Entries(cq + [Cqe(c + 1, res)], chains[c := []], if res < 0 then failed + {c} else failed)
  {
    var failed' := if res < 0 then failed + {c} else failed;
    forall k | 0 <= k < |cq| ensures Entry(cq[k], chains[c := []], failed') {
      assert Entry(cq[k], chains, failed);
    }
  }

  lemma PostCounted(cq: seq<Cqe>, chains: seq<Chain>, freed: set<nat>, c: nat, res: int)
    requires Counted(Datas(cq), chains, freed) && c < |chains| && |chains[c]| != 0 && c !in freed
    ensures Counted(Datas(cq + [Cqe(c + 1, res)]), chains[c := []], freed)
  {
    DatasAppend(cq, Cqe(c + 1, res));
  }

  lemma PostContext(cq: seq<Cqe>, chains: seq<Chain>, failed: set<nat>, freed: set<nat>, c: nat, res: int)
    requires Reaping(cq, chains, failed, freed) && c < |chains| && |chains[c]| != 0
    ensures Reaping(cq + [Cqe(c + 1, res)], chains[c := []], if res < 0 then failed + {c} else failed, freed)
  {
    PostEntries(cq, chains, failed, c, res);
    PostCounted(cq, chains, freed, c, res);
  }

  // ---- steps ----

  lemma OwnedRead(heap: map<nat, Context>, chains: seq<Chain>, input: Bytes, js: seq<Job>, freed: set<nat>,
                  c: nat, one: Sqe, x: Context)
    requires Owned(heap, chains, input, js, freed) && c < |chains| && c !in freed
    requires js[c].off + js[c].len <= |input| && Gather(x.blocks) == input[js[c].off..js[c].off + js[c].len]
    requires x.lens == heap[c + 1].lens && x.bytes == heap[c + 1].bytes
    ensures Owned(heap[c + 1 := x], chains[c := [one]], input, js, freed)
  {
  }

  lemma ReadStep(w: World, input: Bytes, js: seq<Job>, n: nat, freed: set<nat>, c: nat)
    requires Inv(w, input, js, n, freed) && Ready(w, c) && w.chains[c] == JobChain(js[c], c)
    ensures Inv(Succeed(w, c), input, js, n, freed)
  {
    var w' := Succeed(w, c);
    var one := WriteOf(js[c], c);
    assert w.chains[c][1..] == [one];
    assert c !in freed;
    var x := w.heap[c + 1];
    GatherScatter(Pread(input, js[c].off, Sum(x.lens)), x.lens);
    OwnedRead(w.heap, w.chains, input, js, freed, c, one, w'.heap[c + 1]);
    PostNull(w.cq, w.chains, w.failed, freed, c, [one], OpLen(w, w.chains[c][0].op));
  }

  /** Replacing one output by a version that also holds the window of job `c` finishes that job. */
  lemma Delivers(w: World, w': World, input: Bytes, js: seq<Job>, n: nat, c: nat, g: Bytes)
    requires Shape(w, input, js, n) && Done(w, input, js, n) && c < |w.chains|
    requires |g| <= |input| && Holds(g, input, js[c].off, js[c].off + js[c].len)
    requires forall lo, hi :: Holds(w.files[js[c].dst], input, lo, hi) ==> Holds(g, input, lo, hi)
    requires w'.files == w.files[js[c].dst := g] && w'.chains == w.chains[c := []] && w'.failed == w.failed
    ensures Shape(w', input, js, n) && Done(w', input, js, n)
  {
  }

  lemma WriteDelivers(w: World, input: Bytes, js: seq<Job>, n: nat, c: nat)
    requires Shape(w, input, js, n) && Done(w, input, js, n) && Ready(w, c) && w.chains[c] == [WriteOf(js[c], c)]
    requires Gather(w.heap[c + 1].blocks) == input[js[c].off..js[c].off + js[c].len]
    ensures Shape(Succeed(w, c), input, js, n) && Done(Succeed(w, c), input, js, n)
  {
    var j := js[c];
    assert w.chains[c][1..] == [];
    PwriteOwn(w.files[j.dst], input, j.off, j.off + j.len);
    Delivers(w, Succeed(w, c), input, js, n, c, Pwrite(w.files[j.dst], j.off, input[j.off..j.off + j.len]));
  }

  lemma OwnedEnd(heap: map<nat, Context>, chains: seq<Chain>, input: Bytes, js: seq<Job>, freed: set<nat>, c: nat)
    requires Owned(heap, chains, input, js, freed) && c < |chains|
    ensures Owned(heap, chains[c := []], input, js, freed)
  {
  }

  lemma WriteStep(w: World, input: Bytes, js: seq<Job>, n: nat, freed: set<nat>, c: nat)
    requires Inv(w, input, js, n, freed) && Ready(w, c) && w.chains[c] == [WriteOf(js[c], c)]
    ensures Inv(Succeed(w, c), input, js, n, freed)
  {
    assert w.chains[c][1..] == [];
    WriteDelivers(w, input, js, n, c);
    PostContext(w.cq, w.chains, w.failed, freed, c, OpLen(w, w.chains[c][0].op));
    OwnedEnd(w.heap, w.chains, input, js, freed, c);
  }

  lemma FailReaping(w: World, freed: set<nat>, c: nat, x: Sqe, r: Sqe)
    requires Reaping(w.cq, w.chains, w.failed, freed) && c < |w.chains| && r.data == 0 && x.data == c + 1
    requires w.chains[c] == [r, x] || w.chains[c] == [x]
    ensures var w' := Fail(w, c); Reaping(w'.cq, w'.chains, w'.failed, freed)
  {
    var w' := Fail(w, c);
    if |w.chains[c]| == 2 {
      var cq1 := w.cq + [Cqe(0, EIO)];
      PostNull(w.cq, w.chains, w.failed, freed, c, [x], EIO);
      PostContext(cq1, w.chains[c := [x]], w.failed, freed, c, ECANCELED);
      assert w.chains[c := [x]][c := []] == w.chains[c := []];
      assert w'.cq == cq1 + [Cqe(c + 1, ECANCELED)];
    } else {
      PostContext(w.cq, w.chains, w.failed, freed, c, EIO);
      assert w'.cq == w.cq + [Cqe(c + 1, EIO)];
    }
  }

  lemma FailStep(w: World, input: Bytes, js: seq<Job>, n: nat, freed: set<nat>, c: nat)
    requires Inv(w, input, js, n, freed) && c < |w.chains| && |w.chains[c]| != 0
    ensures Inv(Fail(w, c), input, js, n, freed)
  {
    FailReaping(w, freed, c, WriteOf(js[c], c), ReadOf(js[c], c));
    OwnedEnd(w.heap, w.chains, input, js, freed, c);
  }

  lemma StepInv(w: World, input: Bytes, js: seq<Job>, n: nat, freed: set<nat>, ch: Choice)
    requires Inv(w, input, js, n, freed)
    ensures Inv(Step(w, ch), input, js, n, freed)
  {
    var c := ch.chain;
    if c < |w.chains| && w.chains[c] != [] {
      if ch.fails {
        FailStep(w, input, js, n, freed, c);
      } else if Ready(w, c) {
        if w.chains[c] == JobChain(js[c], c) {
          ReadStep(w, input, js, n, freed, c);
        } else {
          WriteStep(w, input, js, n, freed, c);
        }
      }
    }
  }

  /** Main invariant of mode 2: it survives every schedule and every set of failures. */
  lemma {:induction false} ExecInv(w: World, input: Bytes, js: seq<Job>, n: nat, freed: set<nat>, sched: seq<Choice>)
    requires Inv(w, input, js, n, freed)
    ensures Inv(Exec(w, sched), input, js, n, freed)
    decreases |sched|
  {
    if sched != [] {
      StepInv(w, input, js, n, freed, sched[0]);
      ExecInv(Step(w, sched[0]), input, js, n, freed, sched[1..]);
    }
  }

  /** The outcome of a finished job never changes. */
  lemma {:induction false} ExecOutcome(w: World, freed: set<nat>, sched: seq<Choice>)
    requires Ended(w.chains, freed)
    ensures forall c :: c in freed ==> (c in Exec(w, sched).failed <==> c in w.failed)
    decreases |sched|
  {
    if sched != [] {
      assert Ended(Step(w, sched[0]).chains, freed);
      ExecOutcome(Step(w, sched[0]), freed, sched[1..]);
    }
  }

  /** A job that is not freed is either runnable or has its completion waiting. */
  lemma Outstanding(w: World, input: Bytes, js: seq<Job>, n: nat, freed: set<nat>, c: nat)
    requires Inv(w, input, js, n, freed) && c < |w.chains| && c !in freed
    ensures Ready(w, c) || w.cq != []
  {
    if |w.chains[c]| == 0 {
      assert Datas(w.cq)[c + 1] == 1;
    } else {
      assert ChainState(w.chains[c], js[c], c);
      assert !w.chains[c][0].op.Fill? && !w.chains[c][0].op.Drain?;
      assert Ready(w, c);
    }
  }

  // ---- what the program does between kernel steps ----

  lemma NoWord(cq: seq<Cqe>, chains: seq<Chain>, failed: set<nat>, d: nat)
    requires Entries(cq, chains, failed) && d > |chains|
    ensures Datas(cq)[d] == 0
  {
    forall k | 0 <= k < |cq| ensures Words(cq)[k] != d {
      assert Entry(cq[k], chains, failed);
    }
    assert d !in Words(cq);
  }

  /** Chains that have not started own no completion. */
  lemma SubmitReaping(cq: seq<Cqe>, chains: seq<Chain>, more: seq<Chain>, failed: set<nat>, freed: set<nat>)
    requires Reaping(cq, chains, failed, freed) && forall k :: 0 <= k < |more| ==> |more[k]| == 2
    ensures Reaping(cq, chains + more, failed, freed)
  {
    var all := chains + more;
    forall c | 0 <= c < |all| ensures Datas(cq)[c + 1] == if |all[c]| == 0 && c !in freed then 1 else 0 {
      if c >= |chains| { NoWord(cq, chains, failed, c + 1); }
    }
    forall k | 0 <= k < |cq| ensures Entry(cq[k], chains + more, failed) {
      assert Entry(cq[k], chains, failed);
    }
  }

  lemma SubmitOwned(heap: map<nat, Context>, chains: seq<Chain>, more: seq<Chain>, input: Bytes, js: seq<Job>, freed: set<nat>)
    requires Owned(heap, chains, input, js, freed) && forall k :: 0 <= k < |more| ==> |more[k]| == 2
    requires |chains + more| <= |js|
    ensures Owned(heap, chains + more, input, js, freed)
  {
  }

  lemma AllocateInv(w: World, input: Bytes, js: seq<Job>, n: nat, freed: set<nat>, j: Job, ctx: Context)
    requires Inv(w, input, js, n, freed) && JobOk(j, n, |input|) && Sum(ctx.lens) == j.len == ctx.bytes
    requires forall c :: c in freed ==> c < |js|
    ensures |js| + 1 !in w.heap
    ensures Inv(w.(heap := w.heap[|js| + 1 := ctx]), input, js + [j], n, freed)
  {
    var w' := w.(heap := w.heap[|js| + 1 := ctx]);
    assert Shape(w', input, js + [j], n);
  }

  /** Seeing a read's completion changes nothing. */
  lemma SeenNull(w: World, input: Bytes, js: seq<Job>, n: nat, freed: set<nat>)
    requires Inv(w, input, js, n, freed) && w.cq != [] && w.cq[0].data == 0
    ensures Inv(w.(cq := w.cq[1..]), input, js, n, freed)
  {
    DatasHead(w.cq);
  }

  lemma PopReaping(cq: seq<Cqe>, chains: seq<Chain>, failed: set<nat>, freed: set<nat>, c: nat)
    requires Reaping(cq, chains, failed, freed) && cq != [] && cq[0].data == c + 1
    ensures && c < |chains| && c !in freed && |chains[c]| == 0 && (cq[0].res < 0 <==> c in failed)
            && Reaping(cq[1..], chains, failed, freed + {c})
  {
    hide Counted, Ended, Words;
    assert Entry(cq[0], chains, failed);
    DatasHead(cq);
    PopCounted(Datas(cq), Datas(cq[1..]), chains, freed, c);
    assert Ended(chains, freed + {c}) by { EndedMore(chains, freed, c); }
    forall k | 0 <= k < |cq[1..]| ensures Entry(cq[1..][k], chains, failed) {
      assert Entry(cq[k + 1], chains, failed);
    }
  }

  lemma EndedMore(chains: seq<Chain>, cs: set<nat>, c: nat)
    requires Ended(chains, cs) && c < |chains| && |chains[c]| == 0
    ensures Ended(chains, cs + {c})
  {
  }

  lemma PopCounted(all: multiset<nat>, rest: multiset<nat>, chains: seq<Chain>, freed: set<nat>, c: nat)
    requires Counted(all, chains, freed) && all == multiset{c + 1} + rest && c < |chains|
    ensures c !in freed && |chains[c]| == 0 && Counted(rest, chains, freed + {c})
  {
    assert all[c + 1] >= 1;
  }

  lemma FreeOwned(heap: map<nat, Context>, chains: seq<Chain>, input: Bytes, js: seq<Job>, freed: set<nat>, c: nat)
    requires Owned(heap, chains, input, js, freed) && c < |chains| && c !in freed
    ensures c + 1 in heap && heap[c + 1].bytes == js[c].len
    ensures Owned(heap - {c + 1}, chains, input, js, freed + {c})
  {
  }

  lemma StillOwned(w: World, input: Bytes, js: seq<Job>, n: nat, freed: set<nat>, c: nat)
    requires Inv(w, input, js, n, freed) && c < |js| && c !in freed
    ensures c + 1 in w.heap
  {
    hide Shape, Done, Reaping;
    assert c !in freed <==> c + 1 in w.heap;
  }

  /** Seeing a write's completion: its context is alive, and may be freed, exactly once. */
  lemma SeenContext(w: World, input: Bytes, js: seq<Job>, n: nat, freed: set<nat>, c: nat)
    requires Inv(w, input, js, n, freed) && w.cq != [] && w.cq[0].data == c + 1
    ensures c < |w.chains| && w.chains[c] == [] && c !in freed && c + 1 in w.heap && w.heap[c + 1].bytes == js[c].len
    ensures w.cq[0].res < 0 <==> c in w.failed
    ensures Inv(w.(heap := w.heap - {c + 1}, cq := w.cq[1..]), input, js, n, freed + {c})
  {
    hide Reaping, Owned;
    PopReaping(w.cq, w.chains, w.failed, freed, c);
    FreeOwned(w.heap, w.chains, input, js, freed, c);
  }
}
