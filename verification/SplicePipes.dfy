/** Mode 3 at the kernel: fill/drain chains over one pipe per output, under every schedule. */
module SplicePipes {
  import opened Files
  import opened Flat
  import opened Kernel
  import opened Sums
  import opened Spec
  import opened SplicePlan

  function FillOf(j: Job): Sqe { Sqe(Fill(0, j.off, j.dst, j.len), true, 0) }
  function DrainOf(j: Job): Sqe { Sqe(Drain(j.dst, j.dst, j.off, j.len), false, j.len) }
  function Pair(j: Job): Chain { [FillOf(j), DrainOf(j)] }
  function Pairs(js: seq<Job>): seq<Chain> { seq(|js|, k requires 0 <= k < |js| => Pair(js[k])) }

  /** The bytes a chain has put into the pipe of output `i` and not drained yet. */
  ghost function Share(ch: Chain, j: Job, i: nat, input: Bytes): Bytes {
    if j.dst == i && |ch| == 1 then Pread(input, j.off, j.len) else []
  }

  ghost function Parts(chains: seq<Chain>, js: seq<Job>, i: nat, input: Bytes): seq<Bytes>
    requires |chains| <= |js|
  {
    seq(|chains|, c requires 0 <= c < |chains| => Share(chains[c], js[c], i, input))
  }

  /** What the pipe of output `i` should hold: the shares of its chains, in chain order. */
  ghost function Pending(chains: seq<Chain>, js: seq<Job>, i: nat, input: Bytes): Bytes
    requires |chains| <= |js|
  {
    Flatten(Parts(chains, js, i, input), 0, |chains|)
  }

  lemma PendingAround(chains: seq<Chain>, js: seq<Job>, i: nat, input: Bytes, c: nat, x: Chain)
    requires c < |chains| <= |js|
    ensures var p := Parts(chains, js, i, input);
            Pending(chains[c := x], js, i, input) ==
            Flatten(p, 0, c) + Share(x, js[c], i, input) + Flatten(p, c + 1, |p|)
  {
    var p := Parts(chains, js, i, input);
    assert Parts(chains[c := x], js, i, input) == p[c := Share(x, js[c], i, input)];
    FlattenAround(p, c, Share(x, js[c], i, input));
  }

  /** Changing the state of one chain changes only its own share. */
  lemma PendingUpdate(chains: seq<Chain>, js: seq<Job>, i: nat, input: Bytes, c: nat, x: Chain)
    requires c < |chains| <= |js|
    ensures |Pending(chains[c := x], js, i, input)| + |Share(chains[c], js[c], i, input)| ==
            |Pending(chains, js, i, input)| + |Share(x, js[c], i, input)|
    ensures js[c].dst != i ==> Pending(chains[c := x], js, i, input) == Pending(chains, js, i, input)
  {
    PendingAround(chains, js, i, input, c, x);
    PendingAround(chains, js, i, input, c, chains[c]);
    assert chains[c := chains[c]] == chains;
  }

  /** When nothing behind chain `c` is in the pipe, filling appends at the back. */
  lemma PendingBack(chains: seq<Chain>, js: seq<Job>, i: nat, input: Bytes, c: nat, x: Chain)
    requires c < |chains| <= |js| && |chains[c]| == 2 && |x| == 1 && js[c].dst == i
    requires forall d :: c < d < |chains| && js[d].dst == i ==> |chains[d]| != 1
    ensures Pending(chains[c := x], js, i, input) == Pending(chains, js, i, input) + Pread(input, js[c].off, js[c].len)
  {
    PendingAround(chains, js, i, input, c, x);
    PendingAround(chains, js, i, input, c, chains[c]);
    assert chains[c := chains[c]] == chains;
    FlattenNone(Parts(chains, js, i, input), c + 1, |chains|);
  }

  /** When nothing ahead of chain `c` is in the pipe, its bytes are at the front. */
  lemma PendingFront(chains: seq<Chain>, js: seq<Job>, i: nat, input: Bytes, c: nat)
    requires c < |chains| <= |js| && |chains[c]| == 1 && js[c].dst == i
    requires forall e :: 0 <= e < c && js[e].dst == i ==> |chains[e]| != 1
    ensures Pending(chains, js, i, input) == Pread(input, js[c].off, js[c].len) + Pending(chains[c := []], js, i, input)
  {
    PendingAround(chains, js, i, input, c, []);
    PendingAround(chains, js, i, input, c, chains[c]);
    assert chains[c := chains[c]] == chains;
    FlattenNone(Parts(chains, js, i, input), 0, c);
  }

  lemma PendingNone(chains: seq<Chain>, js: seq<Job>, i: nat, input: Bytes)
    requires |chains| <= |js|
    requires forall e :: 0 <= e < |chains| && js[e].dst == i ==> |chains[e]| != 1
    ensures Pending(chains, js, i, input) == []
  {
    FlattenNone(Parts(chains, js, i, input), 0, |chains|);
  }

  lemma PendingCovers(chains: seq<Chain>, js: seq<Job>, i: nat, input: Bytes, c: nat)
    requires c < |chains| <= |js| && |chains[c]| == 1 && js[c].dst == i && js[c].off + js[c].len <= |input|
    ensures js[c].len <= |Pending(chains, js, i, input)|
  {
    PendingUpdate(chains, js, i, input, c, []);
  }

  // ---- the invariant ----

  ghost predicate ChainState(ch: Chain, j: Job) {
    ch == Pair(j) || ch == [DrainOf(j)] || ch == []
  }

  /** Every chain is a fill/drain pair of its job, or what is left of one. */
  ghost predicate Formed(chains: seq<Chain>, js: seq<Job>, n: nat, size: nat) {
    && |chains| <= |js| && JobsOk(js, n, size)
    && (forall c :: 0 <= c < |js| ==> js[c].len <= CHUNK)
    && (forall c :: 0 <= c < |chains| ==> ChainState(chains[c], js[c]))
  }

  ghost predicate Shape(w: World, input: Bytes, js: seq<Job>, n: nat) {
    && Disk(w.files, input, n) && |w.pipes| == n + 1 && CHUNK <= w.cap
    && Formed(w.chains, js, n, |input|)
  }

  /** Conservation: a pipe holds exactly as many bytes as its filled, undrained chains carry. */
  ghost predicate Conserved(w: World, input: Bytes, js: seq<Job>, n: nat)
    requires |w.chains| <= |js| && |w.pipes| == n + 1
  {
    && w.pipes[0] == []
    && forall i :: 1 <= i <= n ==> |w.pipes[i]| == |Pending(w.chains, js, i, input)| && |w.pipes[i]| <= w.cap
  }

  /** What the per-pipe ordering assumption brings: chains of one pipe advance in submission order. */
  ghost predicate InStep(chains: seq<Chain>, js: seq<Job>)
    requires |chains| <= |js|
  {
    forall c, d :: 0 <= c < d < |chains| && js[c].dst == js[d].dst ==> |chains[c]| <= |chains[d]|
  }

  /** Without it: no two unfinished chains of one pipe fit into the pipe together. */
  ghost predicate Apart(chains: seq<Chain>, js: seq<Job>, cap: nat)
    requires |chains| <= |js|
  {
    forall c, d :: 0 <= c < d < |chains| && chains[c] != [] && chains[d] != [] && js[c].dst == js[d].dst ==>
      js[c].len + js[d].len > cap
  }

  /** Either way the bytes are exact: pipes are FIFOs of their pending chunks, and a finished chain has
    * delivered its chunk. */
  ghost predicate Fifo(w: World, input: Bytes, js: seq<Job>, n: nat)
    requires |w.chains| <= |js| && |w.pipes| == n + 1 && |w.files| == n + 1 && JobsOk(js, n, |input|)
  {
    && (w.ordered || Apart(w.chains, js, w.cap))
    && (forall i :: 1 <= i <= n ==> w.pipes[i] == Pending(w.chains, js, i, input))
    && (forall c :: 0 <= c < |w.chains| && w.chains[c] == [] ==>
          Holds(w.files[js[c].dst], input, js[c].off, js[c].off + js[c].len))
  }

  /** No byte is written outside the ranges of the jobs, and every output ends with the end of one. */
  ghost predicate InJob(js: seq<Job>, d: nat, k: nat) {
    exists c :: 0 <= c < |js| && js[c].dst == d && js[c].off <= k < js[c].off + js[c].len
  }
  ghost predicate NoStray(files: seq<Bytes>, js: seq<Job>, n: nat)
    requires |files| == n + 1
  {
    && (forall d, k :: 1 <= d <= n && 0 <= k < |files[d]| && files[d][k] != 0 ==> InJob(js, d, k))
    && (forall d :: 1 <= d <= n && files[d] != [] ==> InJob(js, d, |files[d]| - 1))
  }

  /** `exact` says whether the run is one in which the bytes are known, not only counted. */
  ghost predicate Inv(w: World, input: Bytes, js: seq<Job>, n: nat, exact: bool) {
    && Shape(w, input, js, n)
    && Conserved(w, input, js, n)
    && NoStray(w.files, js, n)
    && (w.ordered ==> InStep(w.chains, js))
    && (exact ==> Fifo(w, input, js, n))
  }

  /** A chain at least as far from its end as another of the same pipe still needs the same end of it. */
  lemma NeedsSameEnd(w: World, input: Bytes, js: seq<Job>, n: nat, c: nat, e: nat)
    requires Shape(w, input, js, n) && c < |w.chains| && e < |w.chains|
    requires js[e].dst == js[c].dst && 0 < |w.chains[c]| <= |w.chains[e]|
    ensures SameEnd(w.chains[e][|w.chains[e]| - |w.chains[c]|].op, w.chains[c][0].op)
  {
    assert ChainState(w.chains[c], js[c]) && ChainState(w.chains[e], js[e]);
  }

  /** In pipe order, a chain that may run is behind no chain of its pipe. */
  lemma AheadFinished(w: World, input: Bytes, js: seq<Job>, n: nat, c: nat)
    requires Shape(w, input, js, n) && Ready(w, c) && w.ordered
    ensures forall e :: 0 <= e < c && js[e].dst == js[c].dst ==> |w.chains[e]| < |w.chains[c]|
  {
    forall e | 0 <= e < c && js[e].dst == js[c].dst && |w.chains[c]| <= |w.chains[e]| ensures false {
      NeedsSameEnd(w, input, js, n, c, e);
    }
  }

  lemma StaysInStep(w: World, input: Bytes, js: seq<Job>, n: nat, c: nat)
    requires Shape(w, input, js, n) && Ready(w, c) && w.ordered && InStep(w.chains, js)
    ensures InStep(w.chains[c := w.chains[c][1..]], js)
  {
    AheadFinished(w, input, js, n, c);
  }

  /** Two chunks in one pipe are at most what the pipe holds. */
  lemma BothPending(chains: seq<Chain>, js: seq<Job>, i: nat, input: Bytes, c: nat, d: nat)
    requires c < |chains| <= |js| && d < |chains| && c != d && |chains[c]| == 1 && |chains[d]| == 1
    requires js[c].dst == i && js[d].dst == i
    requires js[c].off + js[c].len <= |input| && js[d].off + js[d].len <= |input|
    ensures js[c].len + js[d].len <= |Pending(chains, js, i, input)|
  {
    PendingUpdate(chains, js, i, input, c, []);
    PendingCovers(chains[c := []], js, i, input, d);
  }

  /** Where the bytes are exact, a fill that may run goes behind all chunks in its pipe, and a drain that
    * may run takes the chunk at the front. */
  lemma Foremost(w: World, input: Bytes, js: seq<Job>, n: nat, c: nat)
    requires Inv(w, input, js, n, true) && Ready(w, c)
    ensures |w.chains[c]| == 2 ==> forall d :: c < d < |w.chains| && js[d].dst == js[c].dst ==> |w.chains[d]| != 1
    ensures |w.chains[c]| == 1 ==> forall e :: 0 <= e < c && js[e].dst == js[c].dst ==> |w.chains[e]| != 1
  {
    var i := js[c].dst;
    assert ChainState(w.chains[c], js[c]) && JobOk(js[c], n, |input|);
    if w.ordered {
      AheadFinished(w, input, js, n, c);
    } else {
      forall d | 0 <= d < |w.chains| && d != c && js[d].dst == i ensures |w.chains[d]| != 1 {
        Crowded(w, input, js, n, c, d);
      }
    }
  }

  /** Apart chunks never meet in a pipe. */
  lemma Crowded(w: World, input: Bytes, js: seq<Job>, n: nat, c: nat, d: nat)
    requires Shape(w, input, js, n) && Conserved(w, input, js, n) && Apart(w.chains, js, w.cap)
    requires Ready(w, c) && d < |w.chains| && d != c && js[d].dst == js[c].dst
    ensures |w.chains[d]| != 1
  {
    var i := js[c].dst;
    assert ChainState(w.chains[c], js[c]) && JobOk(js[c], n, |input|) && JobOk(js[d], n, |input|);
    if |w.chains[d]| == 1 {
      if |w.chains[c]| == 1 {
        BothPending(w.chains, js, i, input, c, d);
      } else {
        PendingCovers(w.chains, js, i, input, d);
      }
    }
  }

  // ---- a fill ----

  lemma FillConserves(w: World, input: Bytes, js: seq<Job>, n: nat, c: nat)
    requires Shape(w, input, js, n) && Conserved(w, input, js, n) && NoStray(w.files, js, n)
    requires Ready(w, c) && w.chains[c] == Pair(js[c])
    ensures Shape(Succeed(w, c), input, js, n) && Conserved(Succeed(w, c), input, js, n)
    ensures NoStray(Succeed(w, c).files, js, n)
  {
    var w' := Succeed(w, c);
    assert w'.chains == w.chains[c := [DrainOf(js[c])]];
    forall i | 1 <= i <= n ensures |w'.pipes[i]| == |Pending(w'.chains, js, i, input)| {
      PendingUpdate(w.chains, js, i, input, c, [DrainOf(js[c])]);
    }
  }

  lemma FillFifo(w: World, input: Bytes, js: seq<Job>, n: nat, c: nat)
    requires Inv(w, input, js, n, true) && Ready(w, c) && w.chains[c] == Pair(js[c])
    requires Shape(Succeed(w, c), input, js, n)
    ensures Fifo(Succeed(w, c), input, js, n)
  {
    var w' := Succeed(w, c);
    assert w'.chains == w.chains[c := [DrainOf(js[c])]];
    Foremost(w, input, js, n, c);
    forall i | 1 <= i <= n ensures w'.pipes[i] == Pending(w'.chains, js, i, input) {
      if i == js[c].dst {
        PendingBack(w.chains, js, i, input, c, [DrainOf(js[c])]);
      } else {
        PendingUpdate(w.chains, js, i, input, c, [DrainOf(js[c])]);
      }
    }
  }

  // ---- a drain ----

  lemma DrainConserves(w: World, input: Bytes, js: seq<Job>, n: nat, c: nat)
    requires Shape(w, input, js, n) && Conserved(w, input, js, n) && Ready(w, c) && w.chains[c] == [DrainOf(js[c])]
    ensures forall i :: 1 <= i <= n ==> |Succeed(w, c).pipes[i]| == |Pending(Succeed(w, c).chains, js, i, input)|
  {
    var w' := Succeed(w, c);
    assert w.chains[c][1..] == [] && w'.chains == w.chains[c := []];
    forall i | 1 <= i <= n ensures |w'.pipes[i]| == |Pending(w'.chains, js, i, input)| {
      PendingUpdate(w.chains, js, i, input, c, []);
    }
  }

  /** Whatever bytes come out of the pipe, they land inside the range of the job. */
  lemma DrainWrites(w: World, input: Bytes, js: seq<Job>, n: nat, c: nat)
    requires Shape(w, input, js, n) && NoStray(w.files, js, n) && Ready(w, c) && w.chains[c] == [DrainOf(js[c])]
    ensures Shape(Succeed(w, c), input, js, n) && NoStray(Succeed(w, c).files, js, n)
  {
    var w' := Succeed(w, c);
    var j := js[c];
    var d := w.pipes[j.dst][..j.len];
    assert w.chains[c][1..] == [] && w'.chains == w.chains[c := []];
    assert JobOk(j, n, |input|);
    assert w'.files == w.files[j.dst := Pwrite(w.files[j.dst], j.off, d)];
    StrayWrite(w.files, js, n, c, d);
  }

  lemma StrayWrite(files: seq<Bytes>, js: seq<Job>, n: nat, c: nat, d: Bytes)
    requires |files| == n + 1 && NoStray(files, js, n) && c < |js| && 1 <= js[c].dst <= n && 0 < |d| == js[c].len
    ensures NoStray(files[js[c].dst := Pwrite(files[js[c].dst], js[c].off, d)], js, n)
  {
    hide Pwrite;
    var j := js[c];
    var f, g := files[j.dst], Pwrite(files[j.dst], j.off, d);
    forall k | 0 <= k < |g| && (g[k] != 0 || k == |g| - 1) ensures InJob(js, j.dst, k) {
      PwriteAt(f, j.off, d, k);
      if j.off <= k < j.off + j.len { assert InJob(js, j.dst, k); }
    }
  }

  /** The drain next in order finds its own chunk at the front of the pipe, and leaves the rest. */
  lemma DrainsOwnBytes(w: World, input: Bytes, js: seq<Job>, n: nat, c: nat)
    requires c < |w.chains| <= |js| && JobsOk(js, n, |input|) && |w.chains[c]| == 1
    requires |w.pipes| == n + 1 && w.pipes[js[c].dst] == Pending(w.chains, js, js[c].dst, input)
    requires forall e :: 0 <= e < c && js[e].dst == js[c].dst ==> |w.chains[e]| != 1
    ensures var j, p := js[c], w.pipes[js[c].dst];
            && j.len <= |p| && p[..j.len] == input[j.off..j.off + j.len]
            && p[j.len..] == Pending(w.chains[c := []], js, j.dst, input)
  {
    PendingFront(w.chains, js, js[c].dst, input, c);
  }

  lemma DrainPipes(w: World, input: Bytes, js: seq<Job>, n: nat, c: nat)
    requires Inv(w, input, js, n, true) && Ready(w, c) && w.chains[c] == [DrainOf(js[c])]
    ensures var w' := Succeed(w, c);
            forall i :: 1 <= i <= n ==> w'.pipes[i] == Pending(w'.chains, js, i, input)
  {
    var w' := Succeed(w, c);
    assert w.chains[c][1..] == [] && w'.chains == w.chains[c := []];
    Foremost(w, input, js, n, c);
    DrainsOwnBytes(w, input, js, n, c);
    forall i | 1 <= i <= n ensures w'.pipes[i] == Pending(w'.chains, js, i, input) {
      if i != js[c].dst {
        PendingUpdate(w.chains, js, i, input, c, []);
      }
    }
  }

  lemma DrainDelivers(w: World, input: Bytes, js: seq<Job>, n: nat, c: nat)
    requires Inv(w, input, js, n, true) && Ready(w, c) && w.chains[c] == [DrainOf(js[c])]
    ensures var w', d := Succeed(w, c), js[c].dst;
            && Holds(w'.files[d], input, js[c].off, js[c].off + js[c].len)
            && forall lo, hi :: Holds(w.files[d], input, lo, hi) ==> Holds(w'.files[d], input, lo, hi)
  {
    hide Pending, Pwrite, Holds, Apart, InStep, NoStray, InOrder;
    var j := js[c];
    Foremost(w, input, js, n, c);
    DrainsOwnBytes(w, input, js, n, c);
    PwriteOwn(w.files[j.dst], input, j.off, j.off + j.len);
  }

  lemma DrainFifo(w: World, input: Bytes, js: seq<Job>, n: nat, c: nat)
    requires Inv(w, input, js, n, true) && Ready(w, c) && w.chains[c] == [DrainOf(js[c])]
    requires Shape(Succeed(w, c), input, js, n)
    ensures Fifo(Succeed(w, c), input, js, n)
  {
    assert w.chains[c][1..] == [];
    DrainPipes(w, input, js, n, c);
    DrainDelivers(w, input, js, n, c);
  }

  // ---- every step, every schedule ----

  lemma SucceedInv(w: World, input: Bytes, js: seq<Job>, n: nat, exact: bool, c: nat)
    requires Inv(w, input, js, n, exact) && Ready(w, c)
    ensures Inv(Succeed(w, c), input, js, n, exact)
  {
    if w.ordered { StaysInStep(w, input, js, n, c); }
    if w.chains[c] == Pair(js[c]) {
      FillConserves(w, input, js, n, c);
      if exact { FillFifo(w, input, js, n, c); }
    } else {
      DrainConserves(w, input, js, n, c);
      DrainWrites(w, input, js, n, c);
      if exact { DrainFifo(w, input, js, n, c); }
    }
  }

  /** The bytes of the jobs whose chains did not fail. */
  function SuccessBytes(js: seq<Job>, failed: set<nat>): nat {
    if js == [] then 0
    else
      var last := |js| - 1;
      SuccessBytes(js[..last], failed) + if last in failed then 0 else js[last].len
  }

  /** One more failure takes the bytes of its job away. */
  lemma {:induction false} FailureCosts(js: seq<Job>, failed: set<nat>, c: nat)
    requires c < |js| && c !in failed
    ensures SuccessBytes(js, failed + {c}) + js[c].len == SuccessBytes(js, failed)
  {
    var last := |js| - 1;
    if c < last {
      FailureCosts(js[..last], failed, c);
    } else {
      OthersFail(js[..last], failed, c);
    }
  }

  lemma {:induction false} OthersFail(js: seq<Job>, failed: set<nat>, c: nat)
    requires c >= |js|
    ensures SuccessBytes(js, failed + {c}) == SuccessBytes(js, failed)
  {
    if js != [] { OthersFail(js[..|js| - 1], failed, c); }
  }

  /** Bytes counted, reported and promised are those of the jobs whose chains have not failed. */
  ghost predicate Account(w: World, js: seq<Job>, sofar: int) {
    && (forall c :: c in w.failed ==> c < |w.chains| && w.chains[c] == [])
    && Delivered(w.cq) + DataLeft(w) + sofar == SuccessBytes(js, w.failed)
  }

  /** The invariant of mode 3 over all schedules and all failures. */
  ghost predicate Safe(w: World, input: Bytes, js: seq<Job>, n: nat, exact: bool, sofar: int) {
    && Formed(w.chains, js, n, |input|) && CHUNK <= w.cap && Account(w, js, sofar)
    && (w.failed == {} ==> Inv(w, input, js, n, exact))
  }

  lemma SucceedSafe(w: World, input: Bytes, js: seq<Job>, n: nat, exact: bool, sofar: int, c: nat)
    requires Safe(w, input, js, n, exact, sofar) && Ready(w, c)
    ensures Safe(Succeed(w, c), input, js, n, exact, sofar)
  {
    hide Inv, DataLeft, SuccessBytes, Delivered, OpLen, Apply, OpReady;
    assert ChainState(w.chains[c], js[c]);
    SucceedConserves(w, c);
    ApplyKeeps(w, w.chains[c][0].op);
    if w.failed == {} { SucceedInv(w, input, js, n, exact, c); }
    SuccessorFormed(w.chains, js, n, |input|, c);
  }

  lemma SuccessorFormed(chains: seq<Chain>, js: seq<Job>, n: nat, size: nat, c: nat)
    requires Formed(chains, js, n, size) && c < |chains| && chains[c] != []
    ensures Formed(chains[c := chains[c][1..]], js, n, size) && Formed(chains[c := []], js, n, size)
    ensures ChainData(chains[c]) == js[c].len
  {
    assert ChainState(chains[c], js[c]);
    assert [DrainOf(js[c])][1..] == [];
    var ch := chains[c];
    assert ChainData(ch) == ChainData(ch[..|ch| - 1]) + ch[|ch| - 1].data;
    if |ch| == 2 { assert ch[..1][..0] == [] && ChainData(ch[..1]) == ChainData([]) + ch[0].data; }
  }

  lemma FailSafe(w: World, input: Bytes, js: seq<Job>, n: nat, exact: bool, sofar: int, c: nat)
    requires Safe(w, input, js, n, exact, sofar) && c < |w.chains| && w.chains[c] != []
    ensures Safe(Fail(w, c), input, js, n, exact, sofar)
  {
    hide Inv, DataLeft, SuccessBytes;
    FailConserves(w, c);
    SuccessorFormed(w.chains, js, n, |input|, c);
    FailureCosts(js, w.failed, c);
    assert c in Fail(w, c).failed;
  }

  lemma StepSafe(w: World, input: Bytes, js: seq<Job>, n: nat, exact: bool, sofar: int, ch: Choice)
    requires Safe(w, input, js, n, exact, sofar)
    ensures Safe(Step(w, ch), input, js, n, exact, sofar)
  {
    hide Safe, Succeed, Fail;
    var c := ch.chain;
    if c < |w.chains| && w.chains[c] != [] {
      if ch.fails {
        if w.faulty { FailSafe(w, input, js, n, exact, sofar, c); }
      } else if Ready(w, c) {
        SucceedSafe(w, input, js, n, exact, sofar, c);
      }
    }
  }

  /** Main invariant of mode 3: as long as no request fails, no schedule loses, duplicates or misplaces
    * pipe bytes; with failures the bytes reported stay accounted for. */
  lemma {:induction false} ExecSafe(w: World, input: Bytes, js: seq<Job>, n: nat, exact: bool, sofar: int, sched: seq<Choice>)
    requires Safe(w, input, js, n, exact, sofar)
    ensures Safe(Exec(w, sched), input, js, n, exact, sofar)
    decreases |sched|
  {
    hide Safe, Step;
    if sched != [] {
      StepSafe(w, input, js, n, exact, sofar, sched[0]);
      ExecSafe(Step(w, sched[0]), input, js, n, exact, sofar, sched[1..]);
    }
  }

  // ---- progress ----

  /** A pipe with bytes in it always has a drain that can run: fills blocked on room cannot deadlock. */
  lemma PipeDrains(w: World, input: Bytes, js: seq<Job>, n: nat, exact: bool, i: nat)
    requires Inv(w, input, js, n, exact) && 1 <= i <= n && w.pipes[i] != []
    ensures exists c :: 0 <= c < |w.chains| && js[c].dst == i && w.chains[c] == [DrainOf(js[c])] && Ready(w, c)
  {
    if forall e :: 0 <= e < |w.chains| && js[e].dst == i ==> |w.chains[e]| != 1 {
      PendingNone(w.chains, js, i, input);
    } else {
      var c := FirstFilled(w, js, i);
      PendingCovers(w.chains, js, i, input, c);
      forall e, k | w.ordered && 0 <= e < c && 0 <= k < |w.chains[e]|
        ensures !SameEnd(w.chains[e][k].op, w.chains[c][0].op)
      {
      }
      assert Ready(w, c);
    }
  }

  lemma FirstFilled(w: World, js: seq<Job>, i: nat) returns (c: nat)
    requires |w.chains| <= |js|
    requires exists e :: 0 <= e < |w.chains| && js[e].dst == i && |w.chains[e]| == 1
    ensures c < |w.chains| && js[c].dst == i && |w.chains[c]| == 1
    ensures forall e :: 0 <= e < c && js[e].dst == i ==> |w.chains[e]| != 1
  {
    c := 0;
    while !(js[c].dst == i && |w.chains[c]| == 1)
      invariant exists e :: c <= e < |w.chains| && js[e].dst == i && |w.chains[e]| == 1
      invariant forall e :: 0 <= e < c && js[e].dst == i ==> |w.chains[e]| != 1
      decreases |w.chains| - c
    {
      c := c + 1;
    }
  }

  lemma FirstOpen(w: World) returns (c: nat)
    requires exists e :: 0 <= e < |w.chains| && w.chains[e] != []
    ensures c < |w.chains| && w.chains[c] != [] && forall e :: 0 <= e < c ==> w.chains[e] == []
  {
    c := 0;
    while w.chains[c] == []
      invariant exists e :: c <= e < |w.chains| && w.chains[e] != []
      invariant forall e :: 0 <= e < c ==> w.chains[e] == []
      decreases |w.chains| - c
    {
      c := c + 1;
    }
  }

  /** Unfinished work can always advance, so a wait with requests outstanding returns. */
  lemma Progress(w: World, input: Bytes, js: seq<Job>, n: nat, exact: bool)
    requires Inv(w, input, js, n, exact)
    requires exists e :: 0 <= e < |w.chains| && w.chains[e] != []
    ensures exists c :: Ready(w, c)
  {
    var c := FirstOpen(w);
    var i := js[c].dst;
    if w.pipes[i] != [] {
      PipeDrains(w, input, js, n, exact, i);
    } else {
      if |w.chains[c]| == 1 {
        PendingCovers(w.chains, js, i, input, c);
      }
      assert ChainState(w.chains[c], js[c]) && JobOk(js[c], n, |input|);
      assert Ready(w, c);
    }
  }

  // ---- the ends of a batch ----

  lemma SubmitFormed(chains: seq<Chain>, js: seq<Job>, batch: seq<Job>, n: nat, size: nat)
    requires Formed(chains, js, n, size) && |chains| == |js| && Formed([], batch, n, size)
    ensures Formed(chains + Pairs(batch), js + batch, n, size)
  {
    var all := chains + Pairs(batch);
    forall c | 0 <= c < |all| ensures ChainState(all[c], (js + batch)[c]) {
      if c >= |js| { assert all[c] == Pair(batch[c - |js|]); }
    }
  }

  lemma InJobMore(js: seq<Job>, batch: seq<Job>, d: nat, k: nat)
    requires InJob(js, d, k)
    ensures InJob(js + batch, d, k)
  {
    var c :| 0 <= c < |js| && js[c].dst == d && js[c].off <= k < js[c].off + js[c].len;
    assert (js + batch)[c] == js[c];
  }

  lemma StrayKept(files: seq<Bytes>, js: seq<Job>, batch: seq<Job>, n: nat)
    requires |files| == n + 1 && NoStray(files, js, n)
    ensures NoStray(files, js + batch, n)
  {
    forall d, k | 1 <= d <= n && 0 <= k < |files[d]| && (files[d][k] != 0 || k == |files[d]| - 1)
      ensures InJob(js + batch, d, k)
    {
      InJobMore(js, batch, d, k);
    }
  }

  /** No two chunks of a batch that go through one pipe fit into it together. */
  ghost predicate BatchApart(batch: seq<Job>, cap: nat) {
    forall c, d :: 0 <= c < d < |batch| && batch[c].dst == batch[d].dst ==> batch[c].len + batch[d].len > cap
  }

  lemma SubmitInv(w: World, input: Bytes, js: seq<Job>, n: nat, exact: bool, batch: seq<Job>)
    requires Inv(w, input, js, n, exact) && |w.chains| == |js| && Formed([], batch, n, |input|)
    requires forall c :: 0 <= c < |js| ==> w.chains[c] == []
    requires exact ==> w.ordered || BatchApart(batch, w.cap)
    ensures Inv(w.(chains := w.chains + Pairs(batch)), input, js + batch, n, exact)
  {
    hide Pending, NoStray, Holds;
    var w', all := w.(chains := w.chains + Pairs(batch)), js + batch;
    SubmitFormed(w.chains, js, batch, n, |input|);
    StrayKept(w.files, js, batch, n);
    forall i | 1 <= i <= n
      ensures Pending(w.chains, js, i, input) == [] && Pending(w'.chains, all, i, input) == []
    {
      PendingNone(w.chains, js, i, input);
      PendingNone(w'.chains, all, i, input);
    }
    forall c, d | exact && !w.ordered && 0 <= c < d < |w'.chains| && w'.chains[c] != [] && w'.chains[d] != [] && all[c].dst == all[d].dst
      ensures all[c].len + all[d].len > w.cap
    {
      assert all[c] == batch[c - |js|] && all[d] == batch[d - |js|];
    }
  }

  /** When everything submitted has completed, the pipes are empty again. */
  lemma Reaped(w: World, input: Bytes, js: seq<Job>, n: nat, exact: bool)
    requires Inv(w, input, js, n, exact) && OpsLeft(w) == 0
    ensures PipesEmpty(w) && forall c :: 0 <= c < |w.chains| ==> w.chains[c] == []
  {
    TotalZero(w.chains, ChainOps);
    forall i | 1 <= i <= n ensures w.pipes[i] == [] {
      PendingNone(w.chains, js, i, input);
    }
  }
}
