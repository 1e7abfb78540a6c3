/** Mode 2 submits its chains in pieces, allocates contexts on the way and frees them while others run. For the
  * outputs this is one submission of all chains with all contexts in place. */
module VecOnce {
  import opened Files
  import opened Kernel
  import opened Spec
  import opened VecJobs

  const BLOCK: nat := 65536

  /** The context RequestContext's constructor makes for a job: blocks of at most 64K. */
  function BlockLens(bytes: nat): seq<nat> {
    seq((bytes + BLOCK - 1) / BLOCK, i requires 0 <= i < (bytes + BLOCK - 1) / BLOCK => Min(BLOCK, bytes - i * BLOCK))
  }
  function ContextOf(j: Job): Context { Context(BlockLens(j.len), [], j.len) }

  /** The chains of jobs `m` up to `q`. */
  function JobChains(js: seq<Job>, m: nat, q: nat): seq<Chain>
    requires m <= q <= |js|
  {
    seq(q - m, k requires 0 <= k < q - m => JobChain(js[m + k], m + k))
  }

  function Contexts(js: seq<Job>): map<nat, Context> { map id | 1 <= id <= |js| :: ContextAt(js, id) }
  function ContextAt(js: seq<Job>, id: nat): Context
    requires 1 <= id <= |js|
  {
    ContextOf(js[id - 1])
  }

  /** `v` is `w` with the jobs not submitted yet already waiting, and the contexts of finished ones not freed. */
  ghost predicate Mirrors(w: World, v: World, js: seq<Job>) {
    && w.files == v.files && w.failed == v.failed && w.faulty == v.faulty && w.ordered == v.ordered
    && |w.chains| <= |v.chains| == |js|
    && (forall c :: 0 <= c < |w.chains| ==> w.chains[c] == v.chains[c])
    && (forall c :: |w.chains| <= c < |js| ==> v.chains[c] == JobChain(js[c], c))
    && (forall c :: 0 <= c < |js| ==> ChainState(v.chains[c], js[c], c))
    && SameContexts(w.heap, v.heap, w.chains, js)
  }

  /** The context of job `c` is alive, the same in both worlds, as it was made. */
  predicate Alive(heap: map<nat, Context>, c: nat) { c + 1 in heap }
  predicate Same(heap: map<nat, Context>, all: map<nat, Context>, c: nat) {
    c + 1 in heap && c + 1 in all && heap[c + 1] == all[c + 1]
  }
  predicate AsMade(heap: map<nat, Context>, js: seq<Job>, c: nat)
    requires c < |js|
  {
    c + 1 in heap && heap[c + 1] == ContextOf(js[c])
  }

  ghost predicate SameContexts(heap: map<nat, Context>, all: map<nat, Context>, chains: seq<Chain>, js: seq<Job>) {
    && (forall c :: 0 <= c < |chains| && chains[c] != [] ==> Same(heap, all, c))
    && (forall c :: |chains| <= c < |js| ==> AsMade(all, js, c))
    && (forall c :: |chains| <= c < |js| && Alive(heap, c) ==> AsMade(heap, js, c))
  }

  /** One context changes in both worlds, its chain advances in both. */
  lemma ContextChanges(heap: map<nat, Context>, all: map<nat, Context>, chains: seq<Chain>, js: seq<Job>, c: nat, y: Context, x: Chain)
    requires SameContexts(heap, all, chains, js) && c < |chains| <= |js|
    ensures SameContexts(heap[c + 1 := y], all[c + 1 := y], chains[c := x], js)
    ensures x == [] || chains[c] != [] ==> SameContexts(heap, all, chains[c := x], js)
  {
    var h, a := heap[c + 1 := y], all[c + 1 := y];
    forall k | 0 <= k < |chains| && chains[c := x][k] != [] ensures Same(h, a, k) {
      if k != c { assert Same(heap, all, k); }
    }
    forall k | |chains| <= k < |js| ensures AsMade(a, js, k) && (Alive(h, k) ==> AsMade(h, js, k)) {
      assert AsMade(all, js, k) && (Alive(heap, k) ==> AsMade(heap, js, k));
    }
  }

  lemma NeverOrdered(w: World, js: seq<Job>, c: nat)
    requires |w.chains| <= |js| && c < |w.chains| && w.chains[c] != []
    requires forall e :: 0 <= e < |w.chains| ==> ChainState(w.chains[e], js[e], e)
    ensures InOrder(w, c)
  {
    assert ChainState(w.chains[c], js[c], c);
  }

  /** The next request of a chain finds the same in both worlds. */
  lemma SameReady(w: World, v: World, js: seq<Job>, c: nat)
    requires Mirrors(w, v, js) && c < |w.chains| && w.chains[c] != []
    ensures Ready(w, c) == Ready(v, c)
  {
    hide InOrder;
    assert ChainState(v.chains[c], js[c], c);
    forall e | 0 <= e < |w.chains| ensures ChainState(w.chains[e], js[e], e) { assert ChainState(v.chains[e], js[e], e); }
    NeverOrdered(w, js, c);
    NeverOrdered(v, js, c);
  }

  lemma SameApply(w: World, v: World, js: seq<Job>, c: nat)
    requires Mirrors(w, v, js) && c < |w.chains| && w.chains[c] != [] && Ready(w, c) && Ready(v, c)
    ensures Mirrors(Succeed(w, c), Succeed(v, c), js)
  {
    hide InOrder, Scatter, Gather, Pread, Pwrite, Sum, SameContexts;
    assert ChainState(v.chains[c], js[c], c);
    assert JobChain(js[c], c)[1..] == [WriteOf(js[c], c)] && [WriteOf(js[c], c)][1..] == [];
    assert Same(w.heap, v.heap, c) by { ContextOfHead(w, v, js, c); }
    var x := w.heap[c + 1];
    var y := x.(blocks := Scatter(Pread(w.files[0], js[c].off, Sum(x.lens)), x.lens));
    ContextChanges(w.heap, v.heap, w.chains, js, c, y, w.chains[c][1..]);
  }

  lemma ContextOfHead(w: World, v: World, js: seq<Job>, c: nat)
    requires Mirrors(w, v, js) && c < |w.chains| && w.chains[c] != []
    ensures Same(w.heap, v.heap, c)
  {
  }

  lemma SameFail(w: World, v: World, js: seq<Job>, c: nat)
    requires Mirrors(w, v, js) && c < |w.chains| && w.chains[c] != []
    ensures Mirrors(Fail(w, c), Fail(v, c), js)
  {
    hide JobChain, SameContexts;
    ContextChanges(w.heap, v.heap, w.chains, js, c, Context([], [], 0), []);
  }

  lemma StepMirrors(w: World, v: World, js: seq<Job>, ch: Choice)
    requires Mirrors(w, v, js)
    ensures Mirrors(Step(w, ch), if ch.chain < |w.chains| then Step(v, ch) else v, js)
    ensures |Step(w, ch).chains| == |w.chains|
  {
    hide Ready, Mirrors, Succeed, Fail;
    StepAccounting(w, ch);
    var c := ch.chain;
    SameChains(w, v, js);
    if c < |w.chains| && w.chains[c] != [] {
      SameReady(w, v, js, c);
      if ch.fails {
        SameFail(w, v, js, c);
      } else if Ready(w, c) {
        SameApply(w, v, js, c);
      }
    }
  }

  lemma SameChains(w: World, v: World, js: seq<Job>)
    requires Mirrors(w, v, js)
    ensures |w.chains| <= |v.chains| && w.faulty == v.faulty
    ensures forall c :: 0 <= c < |w.chains| ==> w.chains[c] == v.chains[c]
  {
  }

  /** A schedule without the choices that come too early. */
  function Known(sched: seq<Choice>, m: nat): seq<Choice> {
    if sched == [] then []
    else (if sched[0].chain < m then [sched[0]] else []) + Known(sched[1..], m)
  }

  lemma {:induction false} ExecMirrors(w: World, v: World, js: seq<Job>, sched: seq<Choice>)
    requires Mirrors(w, v, js)
    ensures Mirrors(Exec(w, sched), Exec(v, Known(sched, |w.chains|)), js)
    decreases |sched|
  {
    hide Mirrors, Step;
    if sched != [] {
      StepMirrors(w, v, js, sched[0]);
      var rest := Known(sched[1..], |w.chains|);
      if sched[0].chain < |w.chains| {
        ExecMirrors(Step(w, sched[0]), Step(v, sched[0]), js, sched[1..]);
        assert ([sched[0]] + rest)[1..] == rest;
      } else {
        ExecMirrors(Step(w, sched[0]), v, js, sched[1..]);
        assert [] + rest == rest;
      }
    }
  }

  // ---- the run of the program ----

  /** All chains submitted at once, all contexts allocated before. */
  function AtOnce(w0: World, js: seq<Job>): World { Launched(w0.(heap := Contexts(js)), JobChains(js, 0, |js|)) }

  ghost predicate Explained(w0: World, w: World, js: seq<Job>) {
    exists sched :: Mirrors(w, Exec(AtOnce(w0, js), sched), js)
  }

  lemma ExplainedStart(w0: World, js: seq<Job>)
    requires w0.chains == [] && w0.heap == map[]
    ensures Explained(w0, w0, js)
  {
    hide ContextOf;
    var v := AtOnce(w0, js);
    forall c | 0 <= c < |js| ensures AsMade(v.heap, js, c) { assert ContextAt(js, c + 1) == ContextOf(js[c]); }
    assert Mirrors(w0, v, js);
    assert Exec(v, []) == v;
  }

  lemma ExplainedExec(w0: World, w: World, js: seq<Job>, sched: seq<Choice>)
    requires Explained(w0, w, js)
    ensures Explained(w0, Exec(w, sched), js)
  {
    hide Mirrors, Exec;
    var before :| Mirrors(w, Exec(AtOnce(w0, js), before), js);
    ExecMirrors(w, Exec(AtOnce(w0, js), before), js, sched);
    ExecAppend(AtOnce(w0, js), before, Known(sched, |w.chains|));
  }

  lemma ExplainedSubmit(w0: World, w: World, js: seq<Job>, q: nat)
    requires Explained(w0, w, js) && |w.chains| <= q <= |js|
    requires forall c :: |w.chains| <= c < q ==> Alive(w.heap, c)
    ensures Explained(w0, Launched(w, JobChains(js, |w.chains|, q)), js)
  {
    hide Exec, ContextOf, JobChain, ChainState, AtOnce;
    var sched :| Mirrors(w, Exec(AtOnce(w0, js), sched), js);
    var w', v := Launched(w, JobChains(js, |w.chains|, q)), Exec(AtOnce(w0, js), sched);
    forall c | 0 <= c < |w'.chains| ensures w'.chains[c] == v.chains[c] {
      if c >= |w.chains| { assert w'.chains[c] == JobChain(js[c], c); }
    }
    forall c | 0 <= c < |w'.chains| && w'.chains[c] != [] ensures Same(w.heap, v.heap, c) {
      if c >= |w.chains| { assert AsMade(w.heap, js, c) && AsMade(v.heap, js, c); }
    }
    assert Mirrors(w', v, js);
  }

  lemma ExplainedAllocate(w0: World, w: World, js: seq<Job>, m: nat)
    requires Explained(w0, w, js) && |w.chains| <= m < |js|
    ensures Explained(w0, w.(heap := w.heap[m + 1 := ContextOf(js[m])]), js)
  {
    hide Exec, ContextOf, JobChain, ChainState, AtOnce;
    var sched :| Mirrors(w, Exec(AtOnce(w0, js), sched), js);
    var w', v := w.(heap := w.heap[m + 1 := ContextOf(js[m])]), Exec(AtOnce(w0, js), sched);
    forall c | 0 <= c < |w.chains| && w.chains[c] != [] ensures Same(w'.heap, v.heap, c) { assert Same(w.heap, v.heap, c); }
    forall c | |w.chains| <= c < |js| && Alive(w'.heap, c) ensures AsMade(w'.heap, js, c) {
      if c != m { assert Alive(w.heap, c); }
    }
    assert Mirrors(w', v, js);
  }

  lemma ExplainedFree(w0: World, w: World, js: seq<Job>, c: nat, cq: seq<Cqe>)
    requires Explained(w0, w, js) && c < |w.chains| && w.chains[c] == []
    ensures Explained(w0, w.(heap := w.heap - {c + 1}, cq := cq), js)
  {
    hide Exec, ContextOf, JobChain, ChainState, AtOnce;
    var sched :| Mirrors(w, Exec(AtOnce(w0, js), sched), js);
    var w', v := w.(heap := w.heap - {c + 1}, cq := cq), Exec(AtOnce(w0, js), sched);
    forall k | 0 <= k < |w.chains| && w.chains[k] != [] ensures Same(w'.heap, v.heap, k) { assert Same(w.heap, v.heap, k); }
    forall k | |w.chains| <= k < |js| && Alive(w'.heap, k) ensures AsMade(w'.heap, js, k) { assert Alive(w.heap, k); }
    assert Mirrors(w', v, js);
  }

  lemma ExplainedSeen(w0: World, w: World, js: seq<Job>, cq: seq<Cqe>)
    requires Explained(w0, w, js)
    ensures Explained(w0, w.(cq := cq), js)
  {
    hide Exec;
    var sched :| Mirrors(w, Exec(AtOnce(w0, js), sched), js);
    assert Mirrors(w.(cq := cq), Exec(AtOnce(w0, js), sched), js);
  }

  /** The outputs and the failures are those of a run in which the kernel gets all chains at once. */
  ghost predicate RanAtOnce(w0: World, w: World, js: seq<Job>) {
    exists v :: Ran(w0.(heap := Contexts(js)), v, [JobChains(js, 0, |js|)]) && v.files == w.files && v.failed == w.failed
  }

  lemma ExplainedEnd(w0: World, w: World, js: seq<Job>)
    requires Explained(w0, w, js) && |w.chains| == |js| && OpsLeft(w) == 0
    ensures RanAtOnce(w0, w, js)
  {
    hide Exec;
    var sched :| Mirrors(w, Exec(AtOnce(w0, js), sched), js);
    var v := Quiet(Exec(AtOnce(w0, js), sched));
    assert v.chains == w.chains;
    var w1 := w0.(heap := Contexts(js));
    assert Ran(w1, w1, []);
    assert BatchRan(w1, v, JobChains(js, 0, |js|), sched);
    RanMore(w1, w1, v, [], JobChains(js, 0, |js|), sched);
    assert [] + [JobChains(js, 0, |js|)] == [JobChains(js, 0, |js|)];
  }
}
