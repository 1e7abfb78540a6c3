/** read_file_request: a block reader with at most four reads in flight. */
module SenderPipe {
  import opened Sums

  const Q_DEPTH: nat := 4
  const BLOCK: nat := 4096

  /** A read in flight: the number of the buffer it was given and its file offset. */
  datatype Inflight = Inflight(buf: nat, off: nat)

  /** The reader: the offsets submitted so far, the reads in flight (`idx` of them) and the bytes read. */
  datatype Reader = Reader(submitted: seq<nat>, inflight: seq<Inflight>, total: nat)

  function Blocks(size: nat): nat { (size + BLOCK - 1) / BLOCK }
  function Aligned(size: nat): nat { Blocks(size) * BLOCK }

  /** The bytes of one block that lie inside the file. */
  function BlockBytes(size: nat, off: nat): nat {
    if off + BLOCK <= size then BLOCK else if off < size then size - off else 0
  }
  function BytesOf(size: nat): Inflight -> nat { (r: Inflight) => BlockBytes(size, r.off) }

  function Without<T>(s: seq<T>, i: nat): (r: seq<T>)
    requires i < |s|
    ensures |r| == |s| - 1
  {
    s[..i] + s[i + 1..]
  }

  /** Submits one block, into the buffer whose number is the number of reads in flight. */
  function Submit(r: Reader): Reader {
    var off := |r.submitted| * BLOCK;
    Reader(r.submitted + [off], r.inflight + [Inflight(|r.inflight|, off)], r.total)
  }

  /** Fills the free slots of the queue with the next blocks. */
  function Filled(size: nat, r: Reader): Reader
    decreases Q_DEPTH - |r.inflight|
  {
    if |r.inflight| < Q_DEPTH && |r.submitted| < Blocks(size) then Filled(size, Submit(r)) else r
  }

  /** The read at position `i` completes. */
  function Complete(size: nat, r: Reader, i: nat): (c: Reader)
    requires i < |r.inflight|
    ensures |c.inflight| == |r.inflight| - 1 && c.submitted == r.submitted
    ensures c.total == r.total + BlockBytes(size, r.inflight[i].off)
  {
    r.(inflight := Without(r.inflight, i), total := r.total + BlockBytes(size, r.inflight[i].off))
  }

  function Least(a: nat, b: nat): nat { if a < b then a else b }

  lemma {:induction false} FilledSizes(size: nat, r: Reader)
    requires |r.inflight| <= Q_DEPTH && |r.submitted| <= Blocks(size)
    ensures var n := Least(Q_DEPTH - |r.inflight|, Blocks(size) - |r.submitted|);
            |Filled(size, r).inflight| == |r.inflight| + n && |Filled(size, r).submitted| == |r.submitted| + n
    decreases Q_DEPTH - |r.inflight|
  {
    if |r.inflight| < Q_DEPTH && |r.submitted| < Blocks(size) { FilledSizes(size, Submit(r)); }
  }

  /** Which of `n` reads in flight completes after `k` others have: `order` lists the choices, the oldest
    * read completes where it says nothing. */
  function Pick(order: seq<nat>, k: nat, n: nat): (i: nat)
    requires n > 0
    ensures i < n && (k < |order| && order[k] < n ==> i == order[k]) && (k >= |order| ==> i == 0)
  {
    if k < |order| then order[k] % n else 0
  }

  /** The reader with its queue filled, after `k` completions in this order. */
  function After(size: nat, order: seq<nat>, k: nat): (r: Reader)
    requires k <= Blocks(size)
    ensures |r.inflight| == Least(Q_DEPTH, Blocks(size) - k) && |r.submitted| == Least(k + Q_DEPTH, Blocks(size))
  {
    if k == 0 then
      FilledSizes(size, Reader([], [], 0));
      Filled(size, Reader([], [], 0))
    else
      var last := After(size, order, k - 1);
      var r := Complete(size, last, Pick(order, k - 1, |last.inflight|));
      FilledSizes(size, r);
      Filled(size, r)
  }

  // ---- the bytes read ----

  lemma NextTurn(size: nat, order: seq<nat>, k: nat)
    requires k < Blocks(size)
    ensures var r := After(size, order, k);
            After(size, order, k + 1) == Filled(size, Complete(size, r, Pick(order, k, |r.inflight|)))
  {
  }

  lemma TotalWithout<T>(s: seq<T>, f: T -> nat, i: nat)
    requires i < |s|
    ensures Total(s, f) == Total(Without(s, i), f) + f(s[i])
  {
    TotalAppend(s[..i], s[i + 1..], f);
    TotalSplit(s, f, i);
    TotalSplit(s[i..], f, 1);
    assert s[i..][..1] == [s[i]] && s[i..][1..] == s[i + 1..];
    assert Total([s[i]], f) == Total([s[i]][..0], f) + f(s[i]);
  }

  lemma TotalSplit<T>(s: seq<T>, f: T -> nat, i: nat)
    requires i <= |s|
    ensures Total(s, f) == Total(s[..i], f) + Total(s[i..], f)
  {
    assert s == s[..i] + s[i..];
    TotalAppend(s[..i], s[i..], f);
  }

  lemma TotalSnoc<T>(s: seq<T>, f: T -> nat, x: T)
    ensures Total(s + [x], f) == Total(s, f) + f(x)
  {
    assert (s + [x])[..|s|] == s;
  }

  /** The offsets of the first `k` blocks, in order. */
  function Offsets(k: nat): seq<nat> { seq(k, i requires 0 <= i < k => i * BLOCK) }

  /** Blocks are submitted in order, each once; bytes read and bytes in flight are the part submitted. */
  ghost predicate Accounted(size: nat, r: Reader) {
    && |r.submitted| <= Blocks(size) && r.submitted == Offsets(|r.submitted|)
    && r.total + Total(r.inflight, BytesOf(size)) == Least(|r.submitted| * BLOCK, size)
  }

  lemma SubmitAccounted(size: nat, r: Reader)
    requires Accounted(size, r) && |r.submitted| < Blocks(size)
    ensures Accounted(size, Submit(r))
  {
    TotalSnoc(r.inflight, BytesOf(size), Inflight(|r.inflight|, |r.submitted| * BLOCK));
    assert Offsets(|r.submitted|) + [|r.submitted| * BLOCK] == Offsets(|r.submitted| + 1);
  }

  lemma {:induction false} FilledAccounted(size: nat, r: Reader)
    requires Accounted(size, r)
    ensures Accounted(size, Filled(size, r))
    decreases Q_DEPTH - |r.inflight|
  {
    if |r.inflight| < Q_DEPTH && |r.submitted| < Blocks(size) {
      SubmitAccounted(size, r);
      FilledAccounted(size, Submit(r));
    }
  }

  lemma CompleteAccounted(size: nat, r: Reader, i: nat)
    requires Accounted(size, r) && i < |r.inflight|
    ensures Accounted(size, Complete(size, r, i))
  {
    hide Blocks, Total, Offsets, BlockBytes;
    TotalWithout(r.inflight, BytesOf(size), i);
    assert BytesOf(size)(r.inflight[i]) == BlockBytes(size, r.inflight[i].off);
  }

  /** Over every completion order: when all reads have completed, exactly the file has been read. */
  lemma {:induction false} AfterAccounted(size: nat, order: seq<nat>, k: nat)
    requires k <= Blocks(size)
    ensures Accounted(size, After(size, order, k))
    ensures k == Blocks(size) ==> After(size, order, k).total == size && After(size, order, k).submitted == Offsets(k)
  {
    if k == 0 {
      FilledAccounted(size, Reader([], [], 0));
    } else {
      var last := After(size, order, k - 1);
      var i := Pick(order, k - 1, |last.inflight|);
      AfterAccounted(size, order, k - 1);
      NextTurn(size, order, k - 1);
      CompleteAccounted(size, last, i);
      FilledAccounted(size, Complete(size, last, i));
    }
  }

  // ---- the order of completions ----

  /** Every sequence of possible choices, one of the reads then in flight at each turn, is an order whose run
    * makes exactly these choices. */
  lemma EveryChoice(size: nat, choices: seq<nat>, k: nat)
    requires |choices| == Blocks(size) && k < Blocks(size)
    requires forall j :: 0 <= j < |choices| ==> choices[j] < Least(Q_DEPTH, Blocks(size) - j)
    ensures choices[k] < |After(size, choices, k).inflight| && Pick(choices, k, |After(size, choices, k).inflight|) == choices[k]
    ensures var r := After(size, choices, k);
            After(size, choices, k + 1) == Filled(size, Complete(size, r, choices[k]))
  {
    NextTurn(size, choices, k);
  }

  /** The offsets of the blocks that have completed, in this order. */
  function Completed(size: nat, order: seq<nat>, k: nat): seq<nat>
    requires k <= Blocks(size)
  {
    if k == 0 then []
    else
      var last := After(size, order, k - 1);
      Completed(size, order, k - 1) + [last.inflight[Pick(order, k - 1, |last.inflight|)].off]
  }

  function InFlight(r: Reader): seq<nat> { seq(|r.inflight|, i requires 0 <= i < |r.inflight| => r.inflight[i].off) }

  function Bytes(size: nat): nat -> nat { (off: nat) => BlockBytes(size, off) }

  lemma {:induction false} FilledOffsets(size: nat, r: Reader, done: seq<nat>)
    requires multiset(done) + multiset(InFlight(r)) == multiset(r.submitted)
    ensures multiset(done) + multiset(InFlight(Filled(size, r))) == multiset(Filled(size, r).submitted)
    ensures Filled(size, r).total == r.total
    decreases Q_DEPTH - |r.inflight|
  {
    if |r.inflight| < Q_DEPTH && |r.submitted| < Blocks(size) {
      assert InFlight(Submit(r)) == InFlight(r) + [|r.submitted| * BLOCK];
      FilledOffsets(size, Submit(r), done);
    }
  }

  lemma CompleteOffsets(size: nat, r: Reader, i: nat, done: seq<nat>)
    requires i < |r.inflight| && multiset(done) + multiset(InFlight(r)) == multiset(r.submitted)
    ensures multiset(done + [r.inflight[i].off]) + multiset(InFlight(Complete(size, r, i))) == multiset(r.submitted)
  {
    var all := InFlight(r);
    assert all == all[..i] + [all[i]] + all[i + 1..];
    assert InFlight(Complete(size, r, i)) == all[..i] + all[i + 1..];
  }

  ghost predicate Balanced(size: nat, r: Reader, done: seq<nat>) {
    multiset(done) + multiset(InFlight(r)) == multiset(r.submitted) && r.total == Total(done, Bytes(size))
  }

  /** Over every completion order: the blocks completed and those in flight are the ones submitted, each once,
    * and the bytes read are those of the blocks completed. */
  lemma {:induction false} AfterCompleted(size: nat, order: seq<nat>, k: nat)
    requires k <= Blocks(size)
    ensures Balanced(size, After(size, order, k), Completed(size, order, k))
  {
    hide After, Completed, Balanced, Blocks;
    if k == 0 {
      NoneCompleted(size, order);
    } else {
      AfterCompleted(size, order, k - 1);
      TurnCompleted(size, order, k - 1);
    }
  }

  lemma NoneCompleted(size: nat, order: seq<nat>)
    ensures Balanced(size, After(size, order, 0), Completed(size, order, 0))
  {
    hide Filled;
    FilledOffsets(size, Reader([], [], 0), []);
  }

  lemma TurnCompleted(size: nat, order: seq<nat>, k: nat)
    requires k < Blocks(size) && Balanced(size, After(size, order, k), Completed(size, order, k))
    ensures Balanced(size, After(size, order, k + 1), Completed(size, order, k + 1))
  {
    hide After, Filled, Blocks, Pick, InFlight, BlockBytes;
    var r, done := After(size, order, k), Completed(size, order, k);
    var i := Pick(order, k, |r.inflight|);
    NextTurn(size, order, k);
    CompleteOffsets(size, r, i, done);
    FilledOffsets(size, Complete(size, r, i), done + [r.inflight[i].off]);
    TotalSnoc(done, Bytes(size), r.inflight[i].off);
  }

  // ---- the loops ----

  /** The inner loop: fills the free slots of the queue with the next blocks. */
  method FillQueue(size: nat, offset0: nat, idx0: nat, r: Reader)
    returns (offset: nat, idx: nat, filled: Reader)
    requires offset0 == |r.submitted| * BLOCK && idx0 == |r.inflight|
    ensures filled == Filled(size, r)
    ensures offset == |filled.submitted| * BLOCK && idx == |filled.inflight| && filled.total == r.total
  {
    offset, idx, filled := offset0, idx0, r;
    var queued: nat := 0;
    while idx < Q_DEPTH && offset < Aligned(size)
      invariant Filled(size, filled) == Filled(size, r)
      invariant offset == |filled.submitted| * BLOCK && idx == |filled.inflight| && filled.total == r.total
      invariant queued == idx - idx0
    {
      assert queued < Q_DEPTH;  // io_uring_get_sqe always finds an entry: the queue was just submitted
      filled := Reader(filled.submitted + [offset], filled.inflight + [Inflight(idx, offset)], filled.total);
      offset, idx, queued := offset + BLOCK, idx + 1, queued + 1;
    }
  }

  /** The reader after `k` completions, its queue not refilled yet. */
  ghost predicate Drained(size: nat, order: seq<nat>, k: nat, r: Reader) {
    k <= Blocks(size) && Filled(size, r) == After(size, order, k)
  }

  lemma NothingDone(size: nat, order: seq<nat>)
    ensures Drained(size, order, 0, Reader([], [], 0))
  {
  }

  lemma DrainedFill(size: nat, order: seq<nat>, k: nat, r: Reader)
    requires Drained(size, order, k, r)
    ensures Drained(size, order, k, Filled(size, r)) && Filled(size, Filled(size, r)) == Filled(size, r)
    ensures k <= Blocks(size) && (|Filled(size, r).inflight| == 0 <==> k == Blocks(size))
    ensures r.inflight == [] && |r.submitted| * BLOCK >= Aligned(size) ==> Filled(size, r) == r
  {
    AfterAccounted(size, order, k);
    FilledTwice(size, r);
  }

  lemma {:induction false} FilledTwice(size: nat, r: Reader)
    ensures Filled(size, Filled(size, r)) == Filled(size, r)
    decreases Q_DEPTH - |r.inflight|
  {
    if |r.inflight| < Q_DEPTH && |r.submitted| < Blocks(size) { FilledTwice(size, Submit(r)); }
  }

  lemma DrainedNext(size: nat, order: seq<nat>, k: nat, r: Reader)
    requires k < Blocks(size) && Drained(size, order, k, r) && Filled(size, r) == r
    ensures r.inflight != [] && Drained(size, order, k + 1, Complete(size, r, Pick(order, k, |r.inflight|)))
  {
    NextTurn(size, order, k);
  }

  lemma Ended(size: nat, order: seq<nat>, k: nat, r: Reader)
    requires Drained(size, order, k, r)
    requires Filled(size, r) == r || (r.inflight == [] && |r.submitted| * BLOCK >= Aligned(size))
    ensures k <= Blocks(size) && r == After(size, order, k)
    ensures r.inflight == [] ==> k == Blocks(size) && r.total == size
    ensures r.inflight != [] ==> k < Blocks(size)
  {
    DrainedFill(size, order, k, r);
    AfterAccounted(size, order, k);
  }

  /** The reading loop of read_file_request, for every completion order and every set of failing reads
    * (`faults` numbers the completions): it stops at the first failing one; without one every block is
    * submitted exactly once and the bytes read are the file's. */
  method ReadFileRequest(size: nat, order: seq<nat>, faults: set<nat>)
    returns (total: nat, failed: bool, turns: nat)
    ensures turns <= Blocks(size) && forall k :: 0 <= k < turns ==> k !in faults
    ensures if failed then turns < Blocks(size) && turns in faults else turns == Blocks(size)
    ensures total == After(size, order, turns).total == Total(Completed(size, order, turns), Bytes(size))
    ensures !failed ==> total == size
  {
    hide Drained, After, Filled, Complete, Blocks, Aligned, BlockBytes, Pick, Completed, Bytes;
    var offset: nat, idx: nat := 0, 0;
    var r := Reader([], [], 0);
    total, failed, turns := 0, false, 0;
    NothingDone(size, order);
    while offset < Aligned(size) || idx > 0
      invariant Drained(size, order, turns, r)
      invariant offset == |r.submitted| * BLOCK && idx == |r.inflight| && total == r.total
      invariant forall k :: 0 <= k < turns ==> k !in faults
      invariant !failed
      decreases Blocks(size) - turns
    {
      DrainedFill(size, order, turns, r);
      offset, idx, r := FillQueue(size, offset, idx, r);
      if idx == 0 { break; }
      if turns in faults {
        failed := true;
        break;
      }
      var i := Pick(order, turns, idx);  // whichever read completes next
      total := total + BlockBytes(size, r.inflight[i].off);
      DrainedNext(size, order, turns, r);
      r := Complete(size, r, i);
      idx, turns := idx - 1, turns + 1;
    }
    Ended(size, order, turns, r);
    AfterCompleted(size, order, turns);
  }

  // ---- the buffers ----

  predicate Distinct(inflight: seq<Inflight>) {
    forall i, k :: 0 <= i < k < |inflight| ==> inflight[i].buf != inflight[k].buf
  }

  /** The read that completes next leaves the highest buffer free. */
  predicate FreesTop(r: Reader, order: seq<nat>, k: nat)
    requires r.inflight != []
  {
    r.inflight[Pick(order, k, |r.inflight|)].buf == Q_DEPTH - 1
  }

  lemma {:induction false} FirstFill(size: nat, r: Reader)
    requires forall i :: 0 <= i < |r.inflight| ==> r.inflight[i].buf == i
    ensures forall i :: 0 <= i < |Filled(size, r).inflight| ==> Filled(size, r).inflight[i].buf == i
    decreases Q_DEPTH - |r.inflight|
  {
    if |r.inflight| < Q_DEPTH && |r.submitted| < Blocks(size) { FirstFill(size, Submit(r)); }
  }

  /** A completion, and the next block in its place if one is left. */
  lemma OneTurn(size: nat, order: seq<nat>, k: nat)
    requires k < Blocks(size)
    ensures var r := After(size, order, k);
            var rest := Without(r.inflight, Pick(order, k, |r.inflight|));
            After(size, order, k + 1).inflight ==
              if k + Q_DEPTH < Blocks(size) then rest + [Inflight(Q_DEPTH - 1, (k + Q_DEPTH) * BLOCK)] else rest
  {
    var r := After(size, order, k);
    var c := Complete(size, r, Pick(order, k, |r.inflight|));
    assert After(size, order, k + 1) == Filled(size, c);
    if k + Q_DEPTH < Blocks(size) {
      assert |c.inflight| == Q_DEPTH - 1 && |c.submitted| == k + Q_DEPTH;
      assert Filled(size, c) == Filled(size, Submit(c)) == Submit(c);
    }
  }

  /** As long as blocks are left, the highest buffer is in flight: it is always the one refilled. */
  lemma TopInFlight(size: nat, order: seq<nat>, k: nat) returns (q: nat)
    requires k + Q_DEPTH <= Blocks(size)
    ensures q < Q_DEPTH == |After(size, order, k).inflight| && After(size, order, k).inflight[q].buf == Q_DEPTH - 1
  {
    q := Q_DEPTH - 1;
    if k == 0 { FirstFill(size, Reader([], [], 0)); } else { OneTurn(size, order, k - 1); }
  }

  lemma WithoutApart(was: seq<Inflight>, i: nat)
    requires i < |was| && Distinct(was)
    ensures Distinct(Without(was, i))
  {
    var rest := Without(was, i);
    assert forall j :: 0 <= j < |rest| ==> rest[j] == was[if j < i then j else j + 1];
  }

  /** Refilling the buffer that the read at position `q` has is safe only if that is the read that completed. */
  lemma RefillApart(was: seq<Inflight>, i: nat, q: nat, next: Inflight)
    requires i < |was| && q < |was| && Distinct(was) && was[q].buf == next.buf
    ensures Distinct(Without(was, i) + [next]) <==> was[i].buf == next.buf
  {
    var rest := Without(was, i);
    WithoutApart(was, i);
    assert forall j :: 0 <= j < |rest| ==> rest[j] == was[if j < i then j else j + 1];
    if q != i {
      var now, j := rest + [next], if q < i then q else q - 1;
      assert now[j] == was[q] && now[|rest|] == next;
    }
  }

  /** With blocks left, one turn keeps the buffers apart exactly when the read that completes is the one
    * in the highest buffer. */
  lemma TurnKeepsApart(size: nat, order: seq<nat>, k: nat)
    requires k < Blocks(size) && Distinct(After(size, order, k).inflight)
    ensures Distinct(After(size, order, k + 1).inflight) <==>
            (k + Q_DEPTH < Blocks(size) ==> FreesTop(After(size, order, k), order, k))
  {
    var was := After(size, order, k).inflight;
    var i := Pick(order, k, |was|);
    OneTurn(size, order, k);
    if k + Q_DEPTH < Blocks(size) {
      var q := TopInFlight(size, order, k);
      RefillApart(was, i, q, Inflight(Q_DEPTH - 1, (k + Q_DEPTH) * BLOCK));
    } else {
      WithoutApart(was, i);
    }
  }

  ghost predicate ApartUpTo(size: nat, order: seq<nat>, k: nat)
    requires k <= Blocks(size)
  {
    forall j :: 0 <= j <= k ==> Distinct(After(size, order, j).inflight)
  }

  ghost predicate TopsUpTo(size: nat, order: seq<nat>, k: nat)
    requires k <= Blocks(size)
  {
    forall j :: 0 <= j < k && j + Q_DEPTH < Blocks(size) ==> FreesTop(After(size, order, j), order, j)
  }

  lemma StartsApart(size: nat, order: seq<nat>)
    ensures ApartUpTo(size, order, 0) && TopsUpTo(size, order, 0)
  {
    FirstFill(size, Reader([], [], 0));
  }

  lemma UpToNext(size: nat, order: seq<nat>, k: nat)
    requires k < Blocks(size)
    ensures ApartUpTo(size, order, k + 1) <==> ApartUpTo(size, order, k) && Distinct(After(size, order, k + 1).inflight)
    ensures TopsUpTo(size, order, k + 1) <==>
            TopsUpTo(size, order, k) && (k + Q_DEPTH < Blocks(size) ==> FreesTop(After(size, order, k), order, k))
    ensures ApartUpTo(size, order, k) ==> Distinct(After(size, order, k).inflight)
  {
    hide After, Distinct, FreesTop;
  }

  /** For each completion order: the reads in flight never share a buffer exactly when, as long as
    * blocks are left, it is always the read in the highest buffer that completes. */
  lemma {:induction false} OrderKeepsApart(size: nat, order: seq<nat>, k: nat)
    requires k <= Blocks(size)
    ensures ApartUpTo(size, order, k) <==> TopsUpTo(size, order, k)
  {
    hide ApartUpTo, TopsUpTo, After, Filled, Distinct, FreesTop;
    if k == 0 {
      StartsApart(size, order);
    } else {
      OrderKeepsApart(size, order, k - 1);
      UpToNext(size, order, k - 1);
      if Distinct(After(size, order, k - 1).inflight) { TurnKeepsApart(size, order, k - 1); }
    }
  }

  /** The order in which the oldest read always completes first. */
  const FIFO: seq<nat> := []

  /** A file of more than four blocks, read in order: after the first completion the fourth and the fifth
    * block are both in flight in buffer 3. */
  lemma FifoCollides(size: nat)
    requires size > 16384
    ensures 1 < Blocks(size)
    ensures After(size, FIFO, 1).inflight == [Inflight(1, 4096), Inflight(2, 8192), Inflight(3, 12288), Inflight(3, 16384)]
  {
    hide After, Filled, Pick;
    FirstFour(size, FIFO);
    OneTurn(size, FIFO, 0);
    OldestFirst();
  }

  lemma OldestFirst()
    ensures Pick(FIFO, 0, Q_DEPTH) == 0
  {
  }

  lemma FirstFour(size: nat, order: seq<nat>)
    requires Q_DEPTH < Blocks(size)
    ensures After(size, order, 0).inflight == [Inflight(0, 0), Inflight(1, BLOCK), Inflight(2, 2 * BLOCK), Inflight(3, 3 * BLOCK)]
  {
    hide Blocks;
    var r := Reader([], [], 0);
    var r1 := Submit(r);
    var r2 := Submit(r1);
    var r3 := Submit(r2);
    var r4 := Submit(r3);
    assert Filled(size, r) == Filled(size, r1) && Filled(size, r1) == Filled(size, r2);
    assert Filled(size, r2) == Filled(size, r3) && Filled(size, r3) == Filled(size, r4) == r4;
  }

  /** Reads in flight keep their buffers apart in every completion order exactly when the file has at
    * most four blocks of 4 KiB. */
  lemma BuffersNeverShared(size: nat)
    ensures (forall order: seq<nat> :: ApartUpTo(size, order, Blocks(size))) <==> size <= 16384
  {
    if size <= 16384 {
      forall order: seq<nat> ensures ApartUpTo(size, order, Blocks(size)) {
        OrderKeepsApart(size, order, Blocks(size));
      }
    } else {
      FifoCollides(size);
      var shared := After(size, FIFO, 1).inflight;
      assert shared[2].buf == shared[3].buf;
      assert !ApartUpTo(size, FIFO, Blocks(size));
    }
  }
}
