/** The environment of modes 2 to 4: linked io_uring requests over files, pipes and user buffers.
  * A schedule is a list of choices; `Exec` runs it. Choices that are not possible are skipped, so
  * quantifying over schedules is quantifying over every interleaving. */
module Kernel {
  import opened Files
  import opened Sums

  datatype Op =
    | Readv(src: nat, off: nat, ctx: nat)
    | Writev(ctx: nat, dst: nat, off: nat)
    | Fill(src: nat, off: nat, pipe: nat, len: nat)
    | Drain(pipe: nat, dst: nat, off: nat, len: nat)
    | Tee(from: nat, to: nat, len: nat)

  /** A submission: `data` is the user_data word (0 is nullptr), `link` the IOSQE_IO_LINK flag. */
  datatype Sqe = Sqe(op: Op, link: bool, data: nat)
  datatype Cqe = Cqe(data: nat, res: int)
  type Chain = seq<Sqe>

  /** A RequestContext on the heap: its iovec lengths, their buffers and the byte count. */
  datatype Context = Context(lens: seq<nat>, blocks: seq<Bytes>, bytes: nat)

  /** `chains[c]` is what is left of the c-th chain submitted; `failed` are the chains cut short, `cut` says how
    * many requests of each were left.
    * Files and pipes are numbered as in main: 0 is the source side, i + 1 belongs to output i.
    * `faulty` admits failing requests, `ordered` is the per-pipe ordering assumption. */
  datatype World = World(
    files: seq<Bytes>, pipes: seq<Bytes>, cap: nat, heap: map<nat, Context>,
    chains: seq<Chain>, cq: seq<Cqe>, failed: set<nat>, cut: map<nat, nat>, faulty: bool, ordered: bool)

  datatype Choice = Choice(chain: nat, fails: bool)

  const EIO := -5
  const ECANCELED := -125

  /** Both fill, or both drain, the same pipe. */
  predicate SameEnd(a: Op, b: Op) {
    (a.Fill? && b.Fill? && a.pipe == b.pipe) || (a.Drain? && b.Drain? && a.pipe == b.pipe)
  }

  /** No earlier chain still has to use this end of the pipe. */
  predicate InOrder(w: World, c: nat)
    requires c < |w.chains| && w.chains[c] != []
  {
    forall e, k | 0 <= e < c && 0 <= k < |w.chains[e]| :: !SameEnd(w.chains[e][k].op, w.chains[c][0].op)
  }

  /** The request can complete in full now; a buffer it uses must be alive, a pipe must have room or bytes. */
  predicate OpReady(w: World, op: Op) {
    match op
    case Readv(src, off, ctx) => src < |w.files| && ctx in w.heap
    case Writev(ctx, dst, off) => dst < |w.files| && ctx in w.heap
    case Fill(src, off, pipe, len) => src < |w.files| && pipe < |w.pipes| && |w.pipes[pipe]| + len <= w.cap
    case Drain(pipe, dst, off, len) => pipe < |w.pipes| && dst < |w.files| && len <= |w.pipes[pipe]|
    case Tee(from, to, len) =>
      from < |w.pipes| && to < |w.pipes| && from != to && len <= |w.pipes[from]| && |w.pipes[to]| + len <= w.cap
  }

  predicate Ready(w: World, c: nat) {
    && c < |w.chains| && w.chains[c] != []
    && OpReady(w, w.chains[c][0].op)
    && (w.ordered ==> InOrder(w, c))
  }

  function Apply(w: World, op: Op): World
    requires OpReady(w, op)
  {
    match op
    case Readv(src, off, ctx) =>
      var x := w.heap[ctx];
      w.(heap := w.heap[ctx := x.(blocks := Scatter(Pread(w.files[src], off, Sum(x.lens)), x.lens))])
    case Writev(ctx, dst, off) =>
      w.(files := w.files[dst := Pwrite(w.files[dst], off, Gather(w.heap[ctx].blocks))])
    case Fill(src, off, pipe, len) =>
      w.(pipes := w.pipes[pipe := w.pipes[pipe] + Pread(w.files[src], off, len)])
    case Drain(pipe, dst, off, len) =>
      w.(files := w.files[dst := Pwrite(w.files[dst], off, w.pipes[pipe][..len])],
         pipes := w.pipes[pipe := w.pipes[pipe][len..]])
    case Tee(from, to, len) =>
      w.(pipes := w.pipes[to := w.pipes[to] + w.pipes[from][..len]])
  }

  /** The bytes a completed request reports. */
  function OpLen(w: World, op: Op): nat {
    match op
    case Readv(_, _, ctx) => if ctx in w.heap then Sum(w.heap[ctx].lens) else 0
    case Writev(ctx, _, _) => if ctx in w.heap then Sum(w.heap[ctx].lens) else 0
    case Fill(_, _, _, len) => len
    case Drain(_, _, _, len) => len
    case Tee(_, _, len) => len
  }

  function Succeed(w: World, c: nat): World
    requires Ready(w, c)
  {
    var s := w.chains[c][0];
    Apply(w, s.op).(chains := w.chains[c := w.chains[c][1..]], cq := w.cq + [Cqe(s.data, OpLen(w, s.op))])
  }

  function Cancelled(ch: Chain): (r: seq<Cqe>)
    ensures |r| == |ch|
  {
    seq(|ch|, k requires 0 <= k < |ch| => Cqe(ch[k].data, ECANCELED))
  }

  /** The head of the chain fails; the rest of the chain is cancelled. */
  function Fail(w: World, c: nat): World
    requires c < |w.chains| && w.chains[c] != []
  {
    w.(chains := w.chains[c := []], failed := w.failed + {c}, cut := w.cut[c := |w.chains[c]|],
       cq := w.cq + [Cqe(w.chains[c][0].data, EIO)] + Cancelled(w.chains[c][1..]))
  }

  function Step(w: World, ch: Choice): World {
    if ch.chain >= |w.chains| || w.chains[ch.chain] == [] then w
    else if ch.fails then if w.faulty then Fail(w, ch.chain) else w
    else if Ready(w, ch.chain) then Succeed(w, ch.chain)
    else w
  }

  function Exec(w: World, sched: seq<Choice>): World
    decreases |sched|
  {
    if sched == [] then w else Exec(Step(w, sched[0]), sched[1..])
  }

  lemma {:induction false} ExecAppend(w: World, a: seq<Choice>, b: seq<Choice>)
    ensures Exec(Exec(w, a), b) == Exec(w, a + b)
    decreases |a|
  {
    if a == [] {
      assert a + b == b;
    } else {
      ExecAppend(Step(w, a[0]), a[1..], b);
      assert (a + b)[1..] == a[1..] + b;
    }
  }

  // ---- sums over the chains ----

  function ChainOps(ch: Chain): nat { |ch| }
  function SqeData(s: Sqe): nat { s.data }
  function ChainData(ch: Chain): nat { Total(ch, SqeData) }

  /** Requests submitted and not completed, and the bytes their user_data words promise. */
  function OpsLeft(w: World): nat { Total(w.chains, ChainOps) }
  function DataLeft(w: World): nat { Total(w.chains, ChainData) }

  /** The bytes reported by the successful data-carrying completions waiting in the queue. */
  function Reported(c: Cqe): nat { if c.data > 0 && c.res > 0 then c.res else 0 }
  function Delivered(cq: seq<Cqe>): nat { Total(cq, Reported) }

  /** Capacity and the two assumptions never change, and without faults nothing fails. */
  predicate SamePolicy(w: World, w': World) {
    && w.cap == w'.cap && w.faulty == w'.faulty && w.ordered == w'.ordered
    && (!w.faulty ==> w'.failed == w.failed)
  }

  lemma ApplyKeeps(w: World, op: Op)
    requires OpReady(w, op)
    ensures var v := Apply(w, op); v.chains == w.chains && v.cq == w.cq && v.failed == w.failed && v.cut == w.cut && SamePolicy(w, v)
  {
    hide Scatter, Gather, Pwrite, Pread;
  }

  /** Each submission yields exactly one completion, whatever succeeds, fails or is cancelled. */
  lemma StepAccounting(w: World, ch: Choice)
    ensures |Step(w, ch).cq| + OpsLeft(Step(w, ch)) == |w.cq| + OpsLeft(w)
    ensures |Step(w, ch).chains| == |w.chains| && |w.cq| <= |Step(w, ch).cq| && SamePolicy(w, Step(w, ch))
  {
    hide OpReady, InOrder, Apply, OpLen;
    var w' := Step(w, ch);
    if ch.chain < |w.chains| && w.chains[ch.chain] != [] && Ready(w, ch.chain) { ApplyKeeps(w, w.chains[ch.chain][0].op); }
    if w' != w {
      TotalUpdate(w.chains, ChainOps, ch.chain, w'.chains[ch.chain]);
    }
  }

  lemma {:induction false} ExecAccounting(w: World, sched: seq<Choice>)
    ensures |Exec(w, sched).cq| + OpsLeft(Exec(w, sched)) == |w.cq| + OpsLeft(w)
    ensures |Exec(w, sched).chains| == |w.chains| && |w.cq| <= |Exec(w, sched).cq|
    ensures SamePolicy(w, Exec(w, sched))
    decreases |sched|
  {
    if sched != [] {
      StepAccounting(w, sched[0]);
      ExecAccounting(Step(w, sched[0]), sched[1..]);
    }
  }

  /** The user_data word of a request is null or its byte count: the convention of modes 3 and 4. */
  predicate Honest(s: Sqe) {
    s.data == 0 || (s.op.Drain? && s.data == s.op.len)
  }

  lemma ChainDataHead(ch: Chain)
    requires ch != []
    ensures ChainData(ch) == ch[0].data + ChainData(ch[1..])
  {
    assert ch == [ch[0]] + ch[1..];
    TotalAppend([ch[0]], ch[1..], SqeData);
    assert Total([ch[0]], SqeData) == Total([ch[0]][..0], SqeData) + ch[0].data;
  }

  lemma {:induction false} NoneReported(cq: seq<Cqe>)
    requires forall k :: 0 <= k < |cq| ==> cq[k].res < 0
    ensures Delivered(cq) == 0
  {
    TotalZero(cq, Reported);
  }

  lemma DeliveredHead(cq: seq<Cqe>)
    requires cq != []
    ensures Delivered(cq) == Reported(cq[0]) + Delivered(cq[1..])
  {
    assert cq == [cq[0]] + cq[1..];
    TotalAppend([cq[0]], cq[1..], Reported);
    assert Total([cq[0]], Reported) == Total([cq[0]][..0], Reported) + Reported(cq[0]);
  }

  lemma PostOne(w: World, c: nat)
    requires Ready(w, c) && Honest(w.chains[c][0])
    ensures Delivered(Succeed(w, c).cq) == Delivered(w.cq) + w.chains[c][0].data
  {
    var p := Cqe(w.chains[c][0].data, OpLen(w, w.chains[c][0].op));
    TotalAppend(w.cq, [p], Reported);
    assert Total([p], Reported) == Total([p][..0], Reported) + Reported(p);
  }

  /** Bytes are conserved: a success moves its promise into the completion queue... */
  lemma SucceedConserves(w: World, c: nat)
    requires Ready(w, c) && Honest(w.chains[c][0])
    ensures Delivered(Succeed(w, c).cq) + DataLeft(Succeed(w, c)) == Delivered(w.cq) + DataLeft(w)
  {
    PostOne(w, c);
    ChainDataHead(w.chains[c]);
    TotalUpdate(w.chains, ChainData, c, w.chains[c][1..]);
  }

  /** ... and a failure loses exactly what its chain still promised. */
  lemma FailConserves(w: World, c: nat)
    requires c < |w.chains| && w.chains[c] != []
    ensures Delivered(Fail(w, c).cq) == Delivered(w.cq)
    ensures DataLeft(Fail(w, c)) + ChainData(w.chains[c]) == DataLeft(w)
  {
    var posted := [Cqe(w.chains[c][0].data, EIO)] + Cancelled(w.chains[c][1..]);
    NoneReported(posted);
    TotalAppend(w.cq, posted, Reported);
    assert Fail(w, c).cq == w.cq + posted;
    assert ChainData([]) == 0;
    TotalUpdate(w.chains, ChainData, c, []);
  }

  // ---- runs of a program that submits batches of chains ----

  /** The world without the completions waiting: what taking them off the queue does not touch. */
  function Quiet(w: World): World { w.(cq := []) }

  lemma ReadyQuiet(w: World, cq: seq<Cqe>, c: nat)
    ensures Ready(w.(cq := cq), c) == Ready(w, c)
    ensures Ready(w, c) ==> Quiet(Apply(w.(cq := cq), w.chains[c][0].op)) == Quiet(Apply(w, w.chains[c][0].op))
  {
    hide Scatter, Gather, Sum, Pwrite, Pread;
    var v := w.(cq := cq);
    assert c < |w.chains| && w.chains[c] != [] ==> InOrder(v, c) == InOrder(w, c);
  }

  lemma StepQuiet(w: World, cq: seq<Cqe>, ch: Choice)
    ensures Quiet(Step(w.(cq := cq), ch)) == Quiet(Step(w, ch))
  {
    hide Ready, Apply, OpLen;
    if ch.chain < |w.chains| { ReadyQuiet(w, cq, ch.chain); }
  }

  /** The kernel never looks at the completions it has posted. */
  lemma {:induction false} ExecQuiet(w: World, v: World, sched: seq<Choice>)
    requires Quiet(w) == Quiet(v)
    ensures Quiet(Exec(w, sched)) == Quiet(Exec(v, sched))
    decreases |sched|
  {
    hide Step;
    if sched != [] {
      assert w == v.(cq := w.cq);
      StepQuiet(v, w.cq, sched[0]);
      ExecQuiet(Step(w, sched[0]), Step(v, sched[0]), sched[1..]);
    }
  }

  /** Going on with a run from which completions have been taken. */
  lemma ExecGoesOn(w: World, v: World, done: seq<Choice>, sched: seq<Choice>)
    requires Quiet(w) == Quiet(Exec(v, done))
    ensures Quiet(Exec(w, sched)) == Quiet(Exec(v, done + sched))
  {
    ExecAppend(v, done, sched);
    ExecQuiet(w, Exec(v, done), sched);
  }

  function Launched(w: World, chains: seq<Chain>): World { w.(chains := w.chains + chains) }

  /** `w` is reached from `w0` by submitting the batches one after the other, each when all requests of the
    * one before it have completed, and taking off all completions; the kernel runs as it likes. */
  ghost predicate Ran(w0: World, w: World, batches: seq<seq<Chain>>)
    decreases |batches|
  {
    if batches == [] then w == w0
    else
      var front, last := batches[..|batches| - 1], batches[|batches| - 1];
      exists u, sched :: Ran(w0, u, front) && BatchRan(u, w, last, sched)
  }

  ghost predicate BatchRan(u: World, w: World, chains: seq<Chain>, sched: seq<Choice>) {
    w == Quiet(Exec(Launched(u, chains), sched)) && OpsLeft(w) == 0
  }

  lemma RanMore(w0: World, u: World, w: World, batches: seq<seq<Chain>>, chains: seq<Chain>, sched: seq<Choice>)
    requires Ran(w0, u, batches) && BatchRan(u, w, chains, sched)
    ensures Ran(w0, w, batches + [chains])
  {
    var all := batches + [chains];
    assert all[..|all| - 1] == batches && all[|all| - 1] == chains;
  }

  /** A wait that never ends: requests are outstanding and none can move. */
  ghost predicate Stuck(w: World) { OpsLeft(w) > 0 && forall c :: !Ready(w, c) }

  /** `w` is reached like this up to some batch, and in it the kernel is stuck. */
  ghost predicate Hung(w0: World, w: World, batches: seq<seq<Chain>>) {
    exists k, u, sched :: 0 <= k < |batches| && HungAt(w0, w, batches, k, u, sched)
  }
  ghost predicate HungAt(w0: World, w: World, batches: seq<seq<Chain>>, k: nat, u: World, sched: seq<Choice>)
    requires k < |batches|
  {
    Ran(w0, u, batches[..k]) && Quiet(w) == Quiet(Exec(Launched(u, batches[k]), sched)) && Stuck(w)
  }

  lemma HangsThere(w0: World, u: World, w: World, front: seq<seq<Chain>>, chains: seq<Chain>, batches: seq<seq<Chain>>, sched: seq<Choice>)
    requires Ran(w0, u, front) && Quiet(w) == Quiet(Exec(Launched(u, chains), sched)) && Stuck(w)
    requires front + [chains] <= batches
    ensures Hung(w0, w, batches)
  {
    hide Ran, Exec, Stuck;
    var k := |front|;
    assert batches[..k] == (front + [chains])[..k] == front && batches[k] == (front + [chains])[k] == chains;
    assert HungAt(w0, w, batches, k, u, sched);
  }

  lemma StepFailed(w: World, ch: Choice)
    ensures w.failed <= Step(w, ch).failed
  {
    hide OpReady, InOrder, Apply, OpLen;
    var c := ch.chain;
    if c < |w.chains| && w.chains[c] != [] && Ready(w, c) { ApplyKeeps(w, w.chains[c][0].op); }
  }

  /** What has failed stays failed. */
  lemma {:induction false} ExecFailed(w: World, sched: seq<Choice>)
    ensures w.failed <= Exec(w, sched).failed
    decreases |sched|
  {
    hide Step;
    if sched != [] {
      StepFailed(w, sched[0]);
      ExecFailed(Step(w, sched[0]), sched[1..]);
    }
  }
}
