/** What a broadcast is for: every output becomes the input, and the bytes delivered are reported. */
module Spec {
  import opened Files
  import opened Kernel

  /** A piece of the copy: `len` bytes at `off` to output file number `dst`. */
  datatype Job = Job(dst: nat, off: nat, len: nat)

  ghost predicate JobOk(j: Job, n: nat, size: nat) {
    1 <= j.dst <= n && 0 < j.len && j.off + j.len <= size
  }

  ghost predicate JobsOk(js: seq<Job>, n: nat, size: nat) {
    forall c :: 0 <= c < |js| ==> JobOk(js[c], n, size)
  }

  /** The input is file 0 and is never touched, no output has outgrown it. */
  ghost predicate Disk(files: seq<Bytes>, input: Bytes, n: nat) {
    && |files| == n + 1 && files[0] == input
    && forall d :: 1 <= d <= n ==> |files[d]| <= |input|
  }

  /** Freshly truncated outputs, empty pipes, an idle kernel: the state main sets up. */
  ghost predicate Opened(w: World, n: nat) {
    && |w.files| == n + 1 && (forall d :: 1 <= d <= n ==> w.files[d] == [])
    && |w.pipes| == n + 1 && (forall p :: 0 <= p <= n ==> w.pipes[p] == [])
    && w.heap == map[] && w.chains == [] && w.cq == [] && w.failed == {} && w.cut == map[]
  }

  ghost predicate PipesEmpty(w: World) {
    forall p :: 0 <= p < |w.pipes| ==> w.pipes[p] == []
  }

  /** The one-line specification of every mode. */
  ghost predicate Broadcasted(files: seq<Bytes>, input: Bytes, n: nat, delivered: int) {
    && files == seq(n + 1, _ => input)
    && delivered == n * |input|
  }

  function Upto(size: nat, chunk: nat, c: nat): nat { Min(c * chunk, size) }

  /** Delivering the same prefix step by step ends with the input itself. */
  lemma AllHeld(files: seq<Bytes>, input: Bytes, n: nat)
    requires Disk(files, input, n)
    requires forall d :: 1 <= d <= n ==> Holds(files[d], input, 0, |input|)
    ensures files == seq(n + 1, _ => input)
  {
    forall d | 1 <= d <= n ensures files[d] == input {
      HoldsAll(files[d], input);
    }
  }
}
