/** The submission side of io_uring: a bounded queue, chains cut at unlinked entries, waiting. */
module Uring {
  import opened Kernel

  /** The chains a submission forms: IOSQE_IO_LINK ties a request to its successor, and no chain
    * outlives the submission. */
  function Split(sq: seq<Sqe>): (r: seq<Chain>)
    ensures r == [] <==> sq == []
  {
    if sq == [] then []
    else if !sq[0].link || |sq| == 1 then [[sq[0]]] + Split(sq[1..])
    else
      var r := Split(sq[1..]);
      [[sq[0]] + r[0]] + r[1..]
  }

  /** The queue ends at a chain boundary. */
  predicate Closed(sq: seq<Sqe>) {
    sq == [] || !sq[|sq|-1].link
  }

  /** Requests queued after a chain boundary do not disturb the chains already formed. */
  lemma {:induction false} SplitAppend(a: seq<Sqe>, b: seq<Sqe>)
    requires Closed(a)
    ensures Split(a + b) == Split(a) + Split(b)
  {
    hide Split;
    if a == [] {
      assert a + b == b && Split(a) == [];
    } else {
      assert (a + b)[1..] == a[1..] + b;
      SplitAppend(a[1..], b);
      SplitHead(a);
      SplitHead(a + b);
      var front, back := Split(a[1..]), Split(b);
      if a[0].link {
        assert front != [] && (front + back)[0] == front[0] && (front + back)[1..] == front[1..] + back;
        Associate([[a[0]] + front[0]], front[1..], back);
      } else {
        Associate([[a[0]]], front, back);
      }
    }
  }

  lemma Associate(a: seq<Chain>, b: seq<Chain>, c: seq<Chain>)
    ensures a + (b + c) == (a + b) + c
  {
  }

  lemma SplitHead(sq: seq<Sqe>)
    requires sq != []
    ensures Split(sq) ==
            if !sq[0].link || |sq| == 1 then [[sq[0]]] + Split(sq[1..])
            else [[sq[0]] + Split(sq[1..])[0]] + Split(sq[1..])[1..]
  {
  }

  /** Requests all linked but the last form one chain. */
  lemma {:induction false} SplitChain(ch: seq<Sqe>)
    requires ch != [] && !ch[|ch|-1].link
    requires forall k :: 0 <= k < |ch| - 1 ==> ch[k].link
    ensures Split(ch) == [ch]
  {
    if |ch| > 1 {
      SplitChain(ch[1..]);
      assert ch == [ch[0]] + ch[1..];
    } else {
      assert ch == [ch[0]] && ch[1..] == [];
    }
  }

  function Submitted(w: World, sq: seq<Sqe>): World {
    Launched(w, Split(sq))
  }

  class Ring {
    const entries: nat
    var sq: seq<Sqe>
    var w: World

    constructor (entries: nat, w: World)
      ensures this.entries == entries && sq == [] && this.w == w
    {
      this.entries, this.sq, this.w := entries, [], w;
    }

    /** io_uring_get_sqe and the prep call that fills the entry; `ok` is false for a null entry. */
    method GetSqe(s: Sqe) returns (ok: bool)
      modifies this`sq
      ensures ok == (|old(sq)| < entries)
      ensures sq == if ok then old(sq) + [s] else old(sq)
    {
      ok := |sq| < entries;
      if ok { sq := sq + [s]; }
    }

    /** io_uring_submit: the queued chains start, and the kernel may already run any of them. */
    method Submit() returns (ghost sched: seq<Choice>)
      modifies this
      ensures sq == [] && w == Exec(Submitted(old(w), old(sq)), sched)
    {
      var s: seq<Choice> := *;
      sched := s;
      w := Exec(Submitted(w, sq), s);
      sq := [];
    }

    /** Waits for `k` completions while the kernel runs as it likes. A wait that can never end
      * because no request can make progress is reported as `hung`. */
    method WaitNr(k: nat) returns (hung: bool, ghost sched: seq<Choice>)
      modifies this`w
      ensures w == Exec(old(w), sched)
      ensures hung == (|w.cq| < k)
      ensures hung ==> forall c :: !Ready(w, c)
    {
      var s: seq<Choice> := *;
      sched := s;
      w := Exec(w, s);
      while |w.cq| < k && exists c :: 0 <= c < |w.chains| && Ready(w, c)
        invariant w == Exec(old(w), sched)
        decreases OpsLeft(w)
      {
        var c :| 0 <= c < |w.chains| && Ready(w, c);
        s := *;
        ExecAppend(old(w), sched, [Choice(c, false)]);
        ExecAppend(old(w), sched + [Choice(c, false)], s);
        StepAccounting(w, Choice(c, false));
        assert Exec(w, [Choice(c, false)]) == Step(w, Choice(c, false));
        ExecAccounting(Step(w, Choice(c, false)), s);
        sched := sched + [Choice(c, false)] + s;
        w := Exec(Step(w, Choice(c, false)), s);
      }
      hung := |w.cq| < k;
    }

    /** io_uring_cqe_seen, for the completion at the head of the queue. */
    method CqeSeen()
      requires w.cq != []
      modifies this`w
      ensures w == old(w).(cq := old(w).cq[1..])
    {
      w := w.(cq := w.cq[1..]);
    }

    /** io_uring_cq_advance. */
    method CqAdvance(count: nat)
      requires count <= |w.cq|
      modifies this`w
      ensures w == old(w).(cq := old(w).cq[count..])
    {
      w := w.(cq := w.cq[count..]);
    }

    /** `new RequestContext`: the context becomes visible to the kernel. */
    method Allocate(id: nat, ctx: Context)
      requires id !in w.heap
      modifies this`w
      ensures w == old(w).(heap := old(w).heap[id := ctx])
    {
      w := w.(heap := w.heap[id := ctx]);
    }

    /** `delete ctx`: only a live context can be freed. */
    method Delete(id: nat)
      requires id in w.heap
      modifies this`w
      ensures w == old(w).(heap := old(w).heap - {id})
    {
      w := w.(heap := w.heap - {id});
    }
  }
}
