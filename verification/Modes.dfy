/** The mode switch of main: four mechanisms, one specification. */
module Modes {
  import opened Files
  import opened Kernel
  import opened Spec
  import Pipes = SplicePipes
  import Plan = SplicePlan
  import Splice = SpliceBroadcast
  import Tee = TeeBroadcast
  import Tree = TreeBroadcast
  import Vec = VecBroadcast
  import VecOnce

  datatype Outcome = Delivered(bytes: nat) | NoSuchMode | NullSqe | Blocked

  /** The command lines for which the chosen mechanism is a broadcast. */
  predicate Supported(mode: int, n: nat, size: nat) {
    && mode >= 1
    && (mode == 3 ==> Plan.Fits(n, Plan.Chunks(size)))
    && (mode > 3 ==> n <= 512 || size == 0)
  }

  /** Nothing failed: no I/O call of mode 1 (`faults` are the calls that fail), no request of the others. */
  ghost predicate NoFailure(mode: int, n: nat, size: nat, faults: set<Tree.Fault>, w: World) {
    if mode == 1 then Tree.Clean(faults, n + 1, size, Tree.CeilLog2(n + 1)) else w.failed == {}
  }

  /** The end state is one that the mechanism can reach: the tree copies in mode 1, otherwise the kernel running
    * the planned chains. */
  ghost predicate Reached(mode: int, n: nat, faults: set<Tree.Fault>, w0: World, w: World)
    requires w0.files != []
  {
    var size := |w0.files[0]|;
    if mode == 1 then w == w0.(files := Tree.TreeFiles(w0.files, faults, Tree.CeilLog2(n + 1)))
    else if mode == 2 then VecOnce.RanAtOnce(w0, w, Vec.AllJobs(n, size))
    else if mode >= 3 then Ran(w0, w, Planned(mode, n, size))
    else w == w0
  }

  /** The batches of chains of modes 3 and 4. */
  ghost function Planned(mode: int, n: nat, size: nat): seq<seq<Chain>> {
    if mode == 3 then Splice.BatchChains(Plan.Batches(n, size, Plan.Chunks(size)))
    else Tee.TeeBatches(n, size, Tee.Chunks(size))
  }

  /** The count reported for an end state: in mode 1 the sum over the tree copies, a size_t; otherwise the bytes of
    * the windows, chunks or drains that completed. */
  ghost function Count(mode: int, n: nat, faults: set<Tree.Fault>, w0: World, w: World): nat
    requires w0.files != []
  {
    var size := |w0.files[0]|;
    if mode == 1 then Tree.TreeSum(w0.files, faults, Tree.CeilLog2(n + 1)) % Tree.SIZE_T
    else if mode == 2 then Vec.SuccessBytes(Vec.AllJobs(n, size), w.failed)
    else if mode == 3 then Pipes.SuccessBytes(Plan.JobsUpTo(n, size, Plan.Chunks(size)), w.failed)
    else Tee.TeeBytes(n, size, Tee.Chunks(size), w.cut)
  }

  /** The mechanism is a broadcast on this command line, and nothing failed. */
  ghost predicate Succeeds(mode: int, n: nat, faults: set<Tree.Fault>, w0: World, w: World)
    requires w0.files != []
  {
    Supported(mode, n, |w0.files[0]|) && NoFailure(mode, n, |w0.files[0]|, faults, w)
  }

  /** What mode 3 leaves without a failure, also outside the guard: the covered bytes are reported, the pipes are
    * empty, and where the bytes are exact the outputs are the planned files. */
  ghost predicate Spliced(n: nat, w0: World, w: World, r: Outcome)
    requires w0.files != []
  {
    var input := w0.files[0];
    && r == Delivered(Plan.CoveredBytes(n, |input|, Plan.Chunks(|input|))) && PipesEmpty(w)
    && (Splice.Exact(w0, n, |input|) ==>
          |w.files| == n + 1 && forall i :: 0 <= i < n ==> w.files[i + 1] == Plan.Output(input, n, i))
  }

  /** n copies of the input. */
  function Whole(n: nat, input: Bytes): nat { n * |input| }

  /** The outcome of every command line. All modes refine the same specification: a supported mode in which nothing
    * failed returns, reports n inputs and leaves n copies (mode 3 where the bytes are exact); a report of n inputs
    * is given only then. After failures the count is that of the end state reached, and a run that does not return
    * is stuck after a failure. Totals are below 2^64. */
  method RunMode(mode: int, w0: World, n: nat, faults: set<Tree.Fault>) returns (r: Outcome, w: World)
    requires n >= 1 && Opened(w0, n) && Tee.CHUNK <= w0.cap && Whole(n, w0.files[0]) + n < Tree.SIZE_T
    ensures mode != 1 && !w0.faulty ==> w.failed == {}
    ensures r.NoSuchMode? <==> mode < 1
    ensures r.NullSqe? <==> mode > 3 && n > 512 && w0.files[0] != []
    ensures r.NoSuchMode? || r.NullSqe? ==> w == w0
    ensures r.Blocked? ==> mode >= 3 && w.failed != {} && Hung(w0, w, Planned(mode, n, |w0.files[0]|))
    ensures r.Delivered? ==> Reached(mode, n, faults, w0, w) && r.bytes == Count(mode, n, faults, w0, w)
    ensures r == Delivered(Whole(n, w0.files[0])) <==> Succeeds(mode, n, faults, w0, w)
    ensures Succeeds(mode, n, faults, w0, w) && (mode == 3 ==> Splice.Exact(w0, n, |w0.files[0]|)) ==>
              Broadcasted(w.files, w0.files[0], n, Whole(n, w0.files[0]))
    ensures Succeeds(mode, n, faults, w0, w) && mode >= 3 ==> PipesEmpty(w)
    ensures mode == 3 && w.failed == {} ==> Spliced(n, w0, w, r)
  {
    hide Broadcasted, PipesEmpty, Ran, Hung, Tree.Clean, Tree.TreeFiles, Tree.TreeSum, Plan.Fits, Splice.Exact, VecOnce.RanAtOnce,
      Plan.Output, Plan.CoveredBytes, Plan.JobsUpTo, Plan.Batches, Pipes.SuccessBytes, Vec.SuccessBytes, Vec.AllJobs, Tee.TeeBytes,
      Tee.TeeBatches, Splice.BatchChains, Splice.Holes;
    if mode == 1 {
      var total, files := Tree.PerformReadvBroadcast(w0.files, n, faults);
      r, w := Delivered(total), w0.(files := files);
    } else if mode == 2 {
      var total;
      total, w := Vec.PerformUringBroadcast(w0, n);
      r := Delivered(total);
    } else if mode == 3 {
      var splice;
      splice, w := Splice.PerformSpliceBroadcast(w0, n);
      r := match splice case Returned(verified) => Delivered(verified) case Blocked => Blocked;
    } else if mode > 3 {
      var tee;
      tee, w := Tee.PerformTeeBroadcast(w0, n);
      r := match tee case Returned(moved) => Delivered(moved) case NullSqe => NullSqe case Blocked => Blocked;
    } else {
      r, w := NoSuchMode, w0;
    }
  }
}
