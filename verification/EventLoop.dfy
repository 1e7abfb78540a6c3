/** Network::broadcast: one read, then one write per client, driven by completions in any order. */
module EventLoop {
  import opened Files

  const Q_DEPTH: nat := 64
  const CHUNK: nat := 4096

  datatype Op = Read | Write

  /** A request: descriptor, address of its (shared) buffer, bytes to write. */
  datatype Request = Request(op: Op, fd: nat, buf: nat, bytes: nat)

  /** How the kernel may complete a request: a read with data, end of input, EAGAIN or an error; a
    * write with its whole chunk or an error. */
  datatype Outcome = Data(chunk: Bytes) | EndOfFile | Again | Written | Failed

  predicate Possible(r: Request, o: Outcome) {
    match o
    case Data(chunk) => r.op.Read? && 0 < |chunk| <= CHUNK
    case EndOfFile => r.op.Read?
    case Again => r.op.Read?
    case Written => r.op.Write?
    case Failed => true
  }

  /** An environment step: request number `index` in flight completes; impossible steps are skipped. */
  datatype Event = Event(index: nat, outcome: Outcome)

  datatype Status = Running | AtEnd | ReadError | Hung | NoSqe

  predicate DistinctFds(fds: seq<nat>) {
    forall i, k :: 0 <= i < k < |fds| ==> fds[i] != fds[k]
  }

  /** A write to this client is in flight. */
  predicate Awaiting(inflight: seq<Request>, fd: nat) {
    exists k :: 0 <= k < |inflight| && inflight[k].fd == fd
  }

  // ---- the phases of the loop ----

  /** One read is in flight, no write, and every client has every chunk read so far. */
  ghost predicate Reading(inflight: seq<Request>, pending: int, outputs: seq<nat>, received: map<nat, seq<Bytes>>,
                          buffers: map<nat, Bytes>, history: seq<Bytes>) {
    && |inflight| == 1 && inflight[0].op.Read? && inflight[0].buf in buffers && pending == 0
    && (forall c :: c in outputs ==> c in received && received[c] == history)
  }

  /** Only writes are in flight, one per client that lacks the last chunk, all from the same bytes. */
  ghost predicate Writing(inflight: seq<Request>, pending: int, outputs: seq<nat>, received: map<nat, seq<Bytes>>,
                          buffers: map<nat, Bytes>, history: seq<Bytes>) {
    && 0 < |inflight| == pending && history != []
    && (forall k :: 0 <= k < |inflight| ==> WriteOf(inflight[k], outputs, buffers, history[|history| - 1]))
    && (forall j, k :: 0 <= j < k < |inflight| ==> inflight[j].fd != inflight[k].fd)
    && (forall c :: c in outputs ==> c in received)
    && (forall c :: c in outputs ==> received[c] == if Awaiting(inflight, c) then history[..|history| - 1] else history)
  }
  ghost predicate WriteOf(r: Request, outputs: seq<nat>, buffers: map<nat, Bytes>, chunk: Bytes) {
    r.op.Write? && r.fd in outputs && r.buf in buffers && r.bytes <= |buffers[r.buf]| && buffers[r.buf][..r.bytes] == chunk
  }

  /** Nothing is in flight: only when no client is left. */
  ghost predicate Deserted(inflight: seq<Request>, pending: int, outputs: seq<nat>) {
    inflight == [] && pending == 0 && outputs == []
  }

  // ---- what a script of completions does, chunk by chunk ----

  /** The broadcast as its clients see it: who is still served, whose write of the last chunk is in flight
    * (in order of submission), the chunks the input has delivered and the chunks each client has. While it
    * is running and no write is in flight, the read is. */
  datatype View = View(clients: seq<nat>, waiting: seq<nat>, history: seq<Bytes>, received: map<nat, seq<Bytes>>, status: Status)

  function Begin(clients: seq<nat>): View {
    View(clients, [], [], map c | c in clients :: [], Running)
  }

  /** A chunk arrives: one write for every client, if there is an entry for each and a client at all. */
  function Arrive(v: View, chunk: Bytes): View {
    var status := if |v.clients| > Q_DEPTH then NoSqe else if v.clients == [] then Hung else Running;
    v.(waiting := v.clients, history := v.history + [chunk], status := status)
  }

  /** The write at position `i` ends: its client has all chunks now, or is not served any more. */
  function EndWrite(v: View, i: nat, ok: bool): View
    requires i < |v.waiting|
  {
    var clients := if ok then v.clients else Without(v.clients, v.waiting[i]);
    var waiting := v.waiting[..i] + v.waiting[i + 1..];
    View(clients, waiting, v.history, if ok then v.received[v.waiting[i] := v.history] else v.received,
         if waiting == [] && clients == [] then Hung else Running)
  }

  function Next(v: View, ev: Event): View {
    if !v.status.Running? then v
    else if v.waiting == [] then
      match ev.outcome
      case Data(chunk) => if ev.index == 0 && 0 < |chunk| <= CHUNK then Arrive(v, chunk) else v
      case EndOfFile => if ev.index == 0 then v.(status := AtEnd) else v
      case Failed => if ev.index == 0 then v.(status := ReadError) else v
      case Again => v
      case Written => v
    else if ev.index < |v.waiting| && (ev.outcome.Written? || ev.outcome.Failed?) then EndWrite(v, ev.index, ev.outcome.Written?)
    else v
  }

  /** The view after a whole script. */
  function Play(clients: seq<nat>, script: seq<Event>): View {
    if script == [] then Begin(clients) else Next(Play(clients, script[..|script| - 1]), script[|script| - 1])
  }

  function Fds(requests: seq<Request>): seq<nat> {
    seq(|requests|, k requires 0 <= k < |requests| => requests[k].fd)
  }

  class Loop {
    var outputs: seq<nat>
    var writesPending: int
    var sq: seq<Request>
    var inflight: seq<Request>
    var buffers: map<nat, Bytes>
    var nextBuf: nat
    var received: map<nat, seq<Bytes>>
    var created: nat
    var freed: nat
    var history: seq<Bytes>  // the chunks the input has delivered

    /** Every request has one owner: all those created and not freed are in the kernel's hands. Every
      * client ever served holds a prefix of the input. */
    ghost predicate Owned()
      reads this
    {
      && DistinctFds(outputs) && sq == [] && created == freed + |inflight|
      && (forall b :: b in buffers ==> b < nextBuf)
      && (forall c :: c in received ==> received[c] <= history)
    }

    ghost predicate Valid()
      reads this
    {
      && Owned()
      && (|| Reading(inflight, writesPending, outputs, received, buffers, history)
          || Writing(inflight, writesPending, outputs, received, buffers, history)
          || Deserted(inflight, writesPending, outputs))
    }

    /** The loop as its clients see it. */
    ghost function Seen(): View
      reads this
    {
      View(outputs, if inflight != [] && inflight[0].op.Write? then Fds(inflight) else [], history, received,
           if inflight == [] then Hung else Running)
    }

    constructor (clients: seq<nat>)
      requires DistinctFds(clients)
      ensures Owned() && outputs == clients && inflight == [] && writesPending == 0 && history == []
      ensures received == map c | c in clients :: []
    {
      outputs, writesPending, sq, inflight := clients, 0, [], [];
      buffers, nextBuf, created, freed, history := map[], 0, 0, 0, [];
      received := map c | c in clients :: [];
    }

    /** io_uring_get_sqe and prep; ownership of the request moves to the ring. */
    method GetSqe(r: Request) returns (ok: bool)
      modifies this`sq
      ensures ok == (|old(sq)| < Q_DEPTH) && sq == if ok then old(sq) + [r] else old(sq)
    {
      ok := |sq| < Q_DEPTH;
      if ok { sq := sq + [r]; }
    }

    method Submit()
      modifies this`sq, this`inflight
      ensures inflight == old(inflight) + old(sq) && sq == []
    {
      inflight, sq := inflight + sq, [];
    }

    /** start_read: a new request with a buffer of its own, submitted at once. */
    method StartRead()
      requires Owned() && inflight == [] && writesPending == 0
      requires forall c :: c in outputs ==> c in received && received[c] == history
      modifies this
      ensures Valid() && Reading(inflight, writesPending, outputs, received, buffers, history)
      ensures Seen() == View(outputs, [], history, received, Running)
      ensures outputs == old(outputs) && received == old(received) && history == old(history)
      ensures created == old(created) + 1 && freed == old(freed)
    {
      var r := Request(Read, 0, nextBuf, 0);
      buffers := buffers[nextBuf := seq(CHUNK, _ => 0)];
      nextBuf := nextBuf + 1;
      created := created + 1;
      var ok := GetSqe(r);
      Submit();
    }

    /** EAGAIN on the read: the same request goes back to the kernel. */
    method ResubmitRead(r: Request)
      requires sq == []
      modifies this`sq, this`inflight
      ensures sq == [] && inflight == old(inflight) + [r]
    {
      var ok := GetSqe(r);
      Submit();
    }

    /** The chunk just read goes out to every client, all writes sharing one buffer. */
    method FanOut(buf: nat, bytes: nat) returns (ok: bool)
      requires sq == [] && inflight == []
      modifies this`sq, this`inflight, this`writesPending, this`created
      ensures ok <==> |outputs| <= Q_DEPTH
      ensures ok ==> sq == [] && writesPending == |outputs| && created == old(created) + |outputs|
      ensures ok ==> inflight == Writes(outputs, buf, bytes)
    {
      writesPending := |outputs|;
      ok := true;
      var i := 0;
      while i < |outputs|
        invariant i <= |outputs| && ok && |sq| == i <= Q_DEPTH && created == old(created) + i
        invariant inflight == [] && writesPending == |outputs|
        invariant sq == Writes(outputs[..i], buf, bytes)
      {
        created := created + 1;
        ok := GetSqe(Request(Write, outputs[i], buf, bytes));
        if !ok { return; }
        assert outputs[..i + 1] == outputs[..i] + [outputs[i]];
        i := i + 1;
      }
      assert outputs[..i] == outputs;
      Submit();
    }

    /** A read delivered data: everything read so far has been sent, and the new chunk goes to all. */
    method OnData(chunk: Bytes) returns (status: Status)
      requires Owned() && Reading(inflight, writesPending, outputs, received, buffers, history)
      requires 0 < |chunk| <= CHUNK
      modifies this
      ensures status.NoSqe? <==> |outputs| > Q_DEPTH
      ensures !status.NoSqe? ==> status.Running? && Valid() && Seen() == Arrive(old(Seen()), chunk)
      ensures status.NoSqe? ==> View(outputs, outputs, history, received, NoSqe) == Arrive(old(Seen()), chunk)
      ensures history == old(history) + [chunk] && outputs == old(outputs) && received == old(received)
    {
      var r := inflight[0];
      inflight := [];
      buffers := buffers[r.buf := chunk];  // the kernel filled the request's buffer
      history := history + [chunk];
      freed := freed + 1;
      var ok := FanOut(r.buf, |chunk|);
      if !ok { return NoSqe; }
      status := Running;
      FannedOut(outputs, received, buffers, history, r.buf, |chunk|);
      assert Fds(inflight) == outputs;
    }

    /** A write completed: its client has the whole chunk. The next read starts when the last write of the
      * round is in. */
    method WriteDone(i: nat)
      requires Valid() && i < |inflight| && inflight[i].op.Write?
      modifies this
      ensures Valid() && Seen() == EndWrite(old(Seen()), i, true)
    {
      hide Awaiting, DistinctFds, Removed;
      var r := inflight[i];
      Served(inflight, i, outputs, received, buffers, history);
      assert received[r.fd] + [buffers[r.buf][..r.bytes]] == history by { InFlight(inflight, i, outputs, received, buffers, history); }
      FdsRemoved(inflight, i);
      inflight := Removed(inflight, i);
      freed := freed + 1;
      received := received[r.fd := received[r.fd] + [buffers[r.buf][..r.bytes]]];
      writesPending := writesPending - 1;
      if writesPending == 0 { StartRead(); }
    }

    /** A write failed: its client is dropped from the list. The next read starts when the last write of the
      * round is in, provided a client is left to read for. */
    method WriteFailed(i: nat)
      requires Valid() && i < |inflight| && inflight[i].op.Write?
      modifies this
      ensures Valid() && Seen() == EndWrite(old(Seen()), i, false)
    {
      hide Awaiting, DistinctFds, Removed, Without;
      var r := inflight[i];
      Dropped(inflight, i, outputs, received, buffers, history);
      WithoutDistinct(outputs, r.fd);
      FdsRemoved(inflight, i);
      inflight := Removed(inflight, i);
      freed := freed + 1;
      outputs := Without(outputs, r.fd);
      writesPending := writesPending - 1;
      if writesPending == 0 && outputs != [] { StartRead(); }
    }

    /** One turn of the event loop, for the completion that wait_cqe hands over. */
    method Handle(ev: Event) returns (status: Status)
      requires Valid() && inflight != []
      modifies this
      ensures status.Running? ==> Valid() && Seen() == Next(old(Seen()), ev)
      ensures !status.Running? ==> status == Next(old(Seen()), ev).status
      ensures status.AtEnd? || status.ReadError? || status.NoSqe? ==>
                View(outputs, Next(old(Seen()), ev).waiting, history, received, status) == Next(old(Seen()), ev)
      ensures status.AtEnd? || status.ReadError? ==>
                Owned() && inflight == [] && forall c :: c in outputs ==> c in received && received[c] == history
      ensures status.NoSqe? ==> forall c :: c in received ==> received[c] <= history
      ensures !status.Hung?
    {
      hide Awaiting, DistinctFds, Arrive, EndWrite;
      var i := ev.index;
      if i >= |inflight| || !Possible(inflight[i], ev.outcome) { return Running; }
      match ev.outcome {
        case Again =>
          var r := inflight[i];
          inflight := inflight[..i] + inflight[i + 1..];
          ResubmitRead(r);
          status := Running;
        case Failed =>
          if inflight[i].op.Write? {
            WriteFailed(i);
            status := Running;
          } else {
            inflight, freed := [], freed + 1;
            status := ReadError;
          }
        case EndOfFile =>
          inflight, freed := [], freed + 1;
          status := AtEnd;
        case Data(chunk) =>
          status := OnData(chunk);
        case Written =>
          WriteDone(i);
          status := Running;
      }
    }
  }

  function Writes(fds: seq<nat>, buf: nat, bytes: nat): seq<Request> {
    seq(|fds|, k requires 0 <= k < |fds| => Request(Write, fds[k], buf, bytes))
  }

  lemma FannedOut(outputs: seq<nat>, received: map<nat, seq<Bytes>>, buffers: map<nat, Bytes>, history: seq<Bytes>, buf: nat, bytes: nat)
    requires DistinctFds(outputs) && history != [] && buf in buffers && bytes == |buffers[buf]|
    requires buffers[buf] == history[|history| - 1]
    requires forall c :: c in outputs ==> c in received && received[c] == history[..|history| - 1]
    ensures var w := Writes(outputs, buf, bytes);
            if outputs == [] then Deserted(w, |w|, outputs)
            else Writing(w, |w|, outputs, received, buffers, history)
  {
    var w := Writes(outputs, buf, bytes);
    forall c | c in outputs ensures Awaiting(w, c) {
      var k :| 0 <= k < |outputs| && outputs[k] == c;
      assert w[k].fd == c;
    }
    forall k | 0 <= k < |w| ensures WriteOf(w[k], outputs, buffers, history[|history| - 1]) {
      assert w[k].fd == outputs[k];
    }
  }

  function Removed(inflight: seq<Request>, i: nat): seq<Request>
    requires i < |inflight|
  {
    inflight[..i] + inflight[i + 1..]
  }

  lemma FdsRemoved(inflight: seq<Request>, i: nat)
    requires i < |inflight|
    ensures |Removed(inflight, i)| == |inflight| - 1
    ensures Fds(Removed(inflight, i)) == Fds(inflight)[..i] + Fds(inflight)[i + 1..]
    ensures forall k :: 0 <= k < |inflight| - 1 ==> Removed(inflight, i)[k] == inflight[if k < i then k else k + 1]
  {
  }

  /** The client of a write in flight lacks exactly the chunk the write carries. */
  lemma InFlight(inflight: seq<Request>, i: nat, outputs: seq<nat>, received: map<nat, seq<Bytes>>,
                 buffers: map<nat, Bytes>, history: seq<Bytes>)
    requires Writing(inflight, |inflight|, outputs, received, buffers, history) && i < |inflight|
    ensures var r := inflight[i];
            && r.fd in outputs && r.fd in received && r.buf in buffers && r.bytes <= |buffers[r.buf]|
            && received[r.fd] + [buffers[r.buf][..r.bytes]] == history
  {
    assert WriteOf(inflight[i], outputs, buffers, history[|history| - 1]) && Awaiting(inflight, inflight[i].fd);
    assert history[..|history| - 1] + [history[|history| - 1]] == history;
  }

  /** Taking one write out of flight: only its own client stops waiting. */
  lemma RemovedAwaiting(inflight: seq<Request>, i: nat, fd: nat)
    requires i < |inflight| && forall j, k :: 0 <= j < k < |inflight| ==> inflight[j].fd != inflight[k].fd
    ensures Awaiting(Removed(inflight, i), fd) <==> Awaiting(inflight, fd) && fd != inflight[i].fd
  {
    var rest := Removed(inflight, i);
    FdsRemoved(inflight, i);
    if Awaiting(inflight, fd) && fd != inflight[i].fd {
      var k :| 0 <= k < |inflight| && inflight[k].fd == fd;
      assert rest[if k < i then k else k - 1] == inflight[k];
    }
    if Awaiting(rest, fd) {
      var k :| 0 <= k < |rest| && rest[k].fd == fd;
    }
  }

  /** The writes still in flight, for a client list that lacks at most the client of the write that ended. */
  lemma RestInFlight(inflight: seq<Request>, i: nat, outputs: seq<nat>, outputs': seq<nat>, buffers: map<nat, Bytes>, chunk: Bytes)
    requires i < |inflight| && forall k :: 0 <= k < |inflight| ==> WriteOf(inflight[k], outputs, buffers, chunk)
    requires forall j, k :: 0 <= j < k < |inflight| ==> inflight[j].fd != inflight[k].fd
    requires forall c :: c in outputs && c != inflight[i].fd ==> c in outputs'
    ensures var rest := Removed(inflight, i);
            && (forall k :: 0 <= k < |rest| ==> WriteOf(rest[k], outputs', buffers, chunk))
            && (forall j, k :: 0 <= j < k < |rest| ==> rest[j].fd != rest[k].fd)
  {
    var rest := Removed(inflight, i);
    FdsRemoved(inflight, i);
    forall k | 0 <= k < |rest| ensures WriteOf(rest[k], outputs', buffers, chunk) {
      assert WriteOf(inflight[if k < i then k else k + 1], outputs, buffers, chunk);
    }
  }

  /** After a write of the round has ended: the others go on, or every client left has all chunks. */
  ghost predicate RoundGoesOn(rest: seq<Request>, outputs: seq<nat>, received: map<nat, seq<Bytes>>,
                              buffers: map<nat, Bytes>, history: seq<Bytes>) {
    if rest != [] then Writing(rest, |rest|, outputs, received, buffers, history)
    else forall c :: c in outputs ==> c in received && received[c] == history
  }

  /** The write of request `i` succeeds: its client is served. */
  lemma Served(inflight: seq<Request>, i: nat, outputs: seq<nat>, received: map<nat, seq<Bytes>>,
               buffers: map<nat, Bytes>, history: seq<Bytes>)
    requires Writing(inflight, |inflight|, outputs, received, buffers, history) && i < |inflight|
    ensures RoundGoesOn(Removed(inflight, i), outputs, received[inflight[i].fd := history], buffers, history)
  {
    var rest, received' := Removed(inflight, i), received[inflight[i].fd := history];
    RestInFlight(inflight, i, outputs, outputs, buffers, history[|history| - 1]);
    forall c | c in outputs ensures received'[c] == if Awaiting(rest, c) then history[..|history| - 1] else history {
      RemovedAwaiting(inflight, i, c);
    }
  }

  /** It fails: its client is dropped. */
  lemma Dropped(inflight: seq<Request>, i: nat, outputs: seq<nat>, received: map<nat, seq<Bytes>>,
                buffers: map<nat, Bytes>, history: seq<Bytes>)
    requires Writing(inflight, |inflight|, outputs, received, buffers, history) && i < |inflight|
    ensures RoundGoesOn(Removed(inflight, i), Without(outputs, inflight[i].fd), received, buffers, history)
  {
    var rest, outputs' := Removed(inflight, i), Without(outputs, inflight[i].fd);
    RestInFlight(inflight, i, outputs, outputs', buffers, history[|history| - 1]);
    forall c | c in outputs' ensures received[c] == if Awaiting(rest, c) then history[..|history| - 1] else history {
      RemovedAwaiting(inflight, i, c);
    }
  }

  /** erase(remove_if(...)): the list without this descriptor, order kept. */
  function Without(fds: seq<nat>, fd: nat): (r: seq<nat>)
    ensures forall c :: c in r <==> c in fds && c != fd
  {
    if fds == [] then []
    else if fds[|fds| - 1] == fd then Without(fds[..|fds| - 1], fd)
    else Without(fds[..|fds| - 1], fd) + [fds[|fds| - 1]]
  }

  lemma {:induction false} WithoutDistinct(fds: seq<nat>, fd: nat)
    requires DistinctFds(fds)
    ensures DistinctFds(Without(fds, fd))
  {
    if fds != [] {
      var front, last := fds[..|fds| - 1], fds[|fds| - 1];
      WithoutDistinct(front, fd);
      assert forall i :: 0 <= i < |front| ==> front[i] == fds[i];
      assert last !in front;
    }
  }

  lemma {:induction false} WithoutShorter(fds: seq<nat>, fd: nat)
    ensures |Without(fds, fd)| <= |fds|
  {
    if fds != [] { WithoutShorter(fds[..|fds| - 1], fd); }
  }

  /** A view that is not running any more stays as it is. */
  lemma {:induction false} PlayStops(clients: seq<nat>, script: seq<Event>, k: nat)
    requires k <= |script| && !Play(clients, script[..k]).status.Running?
    ensures Play(clients, script) == Play(clients, script[..k])
    decreases |script|
  {
    if k == |script| {
      assert script[..k] == script;
    } else {
      assert script[..|script| - 1][..k] == script[..k];
      PlayStops(clients, script[..|script| - 1], k);
    }
  }

  lemma PlayNext(clients: seq<nat>, script: seq<Event>, k: nat)
    requires k < |script|
    ensures Play(clients, script[..k + 1]) == Next(Play(clients, script[..k]), script[k])
  {
    assert script[..k + 1][..k] == script[..k];
  }

  /** What the loop has made of the first `k` completions. */
  ghost predicate Follows(loop: Loop, status: Status, v: View)
    reads loop
  {
    && status == v.status && loop.outputs == v.clients && loop.history == v.history && loop.received == v.received
    && (forall c :: c in loop.received ==> loop.received[c] <= loop.history)
    && (status.Running? || status.Hung? ==> loop.Valid() && loop.Seen() == v)
    && (status.AtEnd? || status.ReadError? ==>
          loop.Owned() && loop.inflight == [] && forall c :: c in loop.outputs ==> c in loop.received && loop.received[c] == loop.history)
  }

  /** One turn of the loop, and whether it can ever go on. */
  method Turn(loop: Loop, ev: Event, ghost v: View) returns (status: Status)
    requires Follows(loop, Running, v)
    modifies loop
    ensures Follows(loop, status, Next(v, ev))
  {
    hide Next;
    status := loop.Handle(ev);
    if status.Running? && loop.inflight == [] { status := Hung; }
  }

  method Launch(clients: seq<nat>) returns (loop: Loop)
    requires DistinctFds(clients)
    ensures fresh(loop) && Follows(loop, Running, Begin(clients))
  {
    loop := new Loop(clients);
    loop.StartRead();
  }

  lemma NoneYet(clients: seq<nat>, script: seq<Event>)
    ensures Play(clients, script[..0]) == Begin(clients) && Begin(clients).status == Running
  {
  }

  lemma WhatFollows(loop: Loop, status: Status, v: View)
    requires Follows(loop, status, v)
    ensures status == v.status && loop.outputs == v.clients && loop.history == v.history && loop.received == v.received
    ensures status.Running? ==>
              if v.waiting == [] then Reading(loop.inflight, loop.writesPending, loop.outputs, loop.received, loop.buffers, loop.history)
              else Writing(loop.inflight, loop.writesPending, loop.outputs, loop.received, loop.buffers, loop.history)
                   && Fds(loop.inflight) == v.waiting
    ensures forall c :: c in loop.received ==> loop.received[c] <= loop.history
    ensures !status.NoSqe? ==> loop.created == loop.freed + |loop.inflight|
    ensures status.AtEnd? || status.ReadError? ==>
              loop.inflight == [] && forall c :: c in loop.outputs ==> c in loop.received && loop.received[c] == loop.history
    ensures status.Hung? ==> Deserted(loop.inflight, loop.writesPending, loop.outputs)
  {
    hide Awaiting, DistinctFds;
    var l := loop;
    if Writing(l.inflight, l.writesPending, l.outputs, l.received, l.buffers, l.history) {
      assert WriteOf(l.inflight[0], l.outputs, l.buffers, l.history[|l.history| - 1]);
    }
  }

  /** Network::broadcast, against every behaviour of the kernel: `script` lists the completions in the order
    * in which they are handed over. */
  method Broadcast(clients: seq<nat>, script: seq<Event>)
    returns (status: Status, outputs: seq<nat>, inflight: seq<Request>, pending: int, received: map<nat, seq<Bytes>>,
             buffers: map<nat, Bytes>, history: seq<Bytes>, created: nat, freed: nat)
    requires DistinctFds(clients)
    ensures var v := Play(clients, script);
            && status == v.status && outputs == v.clients && history == v.history && received == v.received
            && (status.Running? ==>
                  if v.waiting == [] then Reading(inflight, pending, outputs, received, buffers, history)
                  else Writing(inflight, pending, outputs, received, buffers, history) && Fds(inflight) == v.waiting)
    ensures forall c :: c in received ==> received[c] <= history
    ensures !status.NoSqe? ==> created == freed + |inflight|
    ensures status.AtEnd? || status.ReadError? ==>
              inflight == [] && forall c :: c in outputs ==> c in received && received[c] == history
    ensures status.Hung? ==> Deserted(inflight, pending, outputs)
  {
    hide Follows, Play, Next, Reading, Writing, Deserted, Fds;
    var loop := Launch(clients);
    status := Running;
    var k := 0;
    NoneYet(clients, script);
    while k < |script| && status.Running?
      invariant k <= |script| && fresh(loop) && Follows(loop, status, Play(clients, script[..k]))
    {
      PlayNext(clients, script, k);
      status := Turn(loop, script[k], Play(clients, script[..k]));
      k := k + 1;
    }
    WhatFollows(loop, status, Play(clients, script[..k]));
    if k < |script| { PlayStops(clients, script, k); } else { assert script[..k] == script; }
    outputs, inflight, pending, received := loop.outputs, loop.inflight, loop.writesPending, loop.received;
    buffers, history, created, freed := loop.buffers, loop.history, loop.created, loop.freed;
  }

  /** While clients remain the loop always has something to wait for; it hangs only when all are gone. */
  lemma NeverIdle(inflight: seq<Request>, pending: int, outputs: seq<nat>, received: map<nat, seq<Bytes>>,
                  buffers: map<nat, Bytes>, history: seq<Bytes>)
    requires || Reading(inflight, pending, outputs, received, buffers, history)
             || Writing(inflight, pending, outputs, received, buffers, history)
             || Deserted(inflight, pending, outputs)
    ensures outputs != [] ==> inflight != []
    ensures forall i, k :: 0 <= i < |inflight| && 0 <= k < |inflight| ==> inflight[i].op == inflight[k].op
    ensures pending == WritesIn(inflight)
  {
    if Writing(inflight, pending, outputs, received, buffers, history) {
      forall k | 0 <= k < |inflight| ensures inflight[k].op.Write? {
        assert WriteOf(inflight[k], outputs, buffers, history[|history| - 1]);
      }
      AllWrites(inflight);
    }
  }

  function WritesIn(inflight: seq<Request>): nat {
    if inflight == [] then 0
    else WritesIn(inflight[..|inflight| - 1]) + if inflight[|inflight| - 1].op.Write? then 1 else 0
  }

  lemma {:induction false} AllWrites(inflight: seq<Request>)
    requires forall k :: 0 <= k < |inflight| ==> inflight[k].op.Write?
    ensures WritesIn(inflight) == |inflight|
  {
    if inflight != [] { AllWrites(inflight[..|inflight| - 1]); }
  }

  // ---- when the loop waits forever ----

  ghost predicate ViewOk(v: View) {
    && DistinctFds(v.clients) && DistinctFds(v.waiting)
    && (forall c :: c in v.waiting ==> c in v.clients) && (v.waiting != [] ==> v.history != [])
    && (v.status.Hung? <==> v.clients == [] && v.history != [])
  }

  lemma EndWriteOk(v: View, i: nat, ok: bool)
    requires ViewOk(v) && v.status.Running? && i < |v.waiting|
    ensures ViewOk(EndWrite(v, i, ok))
  {
    var fd := v.waiting[i];
    var rest := v.waiting[..i] + v.waiting[i + 1..];
    assert forall k :: 0 <= k < |rest| ==> rest[k] == v.waiting[if k < i then k else k + 1];
    assert fd in v.clients;
    WithoutDistinct(v.clients, fd);
    if rest != [] { assert rest[0] in Without(v.clients, fd); }
  }

  lemma NextOk(v: View, ev: Event)
    requires ViewOk(v)
    ensures ViewOk(Next(v, ev))
  {
    if v.status.Running? && ev.index < |v.waiting| && (ev.outcome.Written? || ev.outcome.Failed?) {
      EndWriteOk(v, ev.index, ev.outcome.Written?);
    }
  }

  lemma {:induction false} PlayOk(clients: seq<nat>, script: seq<Event>)
    requires DistinctFds(clients)
    ensures ViewOk(Play(clients, script))
  {
    if script != [] {
      PlayOk(clients, script[..|script| - 1]);
      NextOk(Play(clients, script[..|script| - 1]), script[|script| - 1]);
    }
  }

  /** The client whose write this completion reports as failed. */
  function Casualty(v: View, ev: Event): set<nat> {
    if v.status.Running? && ev.index < |v.waiting| && ev.outcome.Failed? then {v.waiting[ev.index]} else {}
  }

  /** The clients that have been dropped. */
  function Lost(clients: seq<nat>, script: seq<Event>): set<nat> {
    if script == [] then {}
    else
      var front := script[..|script| - 1];
      Lost(clients, front) + Casualty(Play(clients, front), script[|script| - 1])
  }

  /** The clients left are those none of whose writes failed. */
  lemma {:induction false} Survivors(clients: seq<nat>, script: seq<Event>)
    ensures forall c :: c in Play(clients, script).clients <==> c in clients && c !in Lost(clients, script)
  {
    if script != [] { Survivors(clients, script[..|script| - 1]); }
  }

  /** The loop waits forever exactly when a chunk has been read and every client has had a write fail. */
  lemma HangsExactly(clients: seq<nat>, script: seq<Event>)
    requires DistinctFds(clients)
    ensures Play(clients, script).status.Hung? <==>
            Play(clients, script).history != [] && forall c :: c in clients ==> c in Lost(clients, script)
  {
    PlayOk(clients, script);
    Survivors(clients, script);
    var left := Play(clients, script).clients;
    assert left != [] ==> left[0] in left;
  }

  function Failures(script: seq<Event>): nat {
    if script == [] then 0
    else Failures(script[..|script| - 1]) + if script[|script| - 1].outcome.Failed? then 1 else 0
  }

  lemma {:induction false} WithoutLosesOne(fds: seq<nat>, fd: nat)
    requires DistinctFds(fds)
    ensures |fds| <= |Without(fds, fd)| + 1
    ensures fd !in fds ==> Without(fds, fd) == fds
  {
    if fds != [] {
      var front, last := fds[..|fds| - 1], fds[|fds| - 1];
      WithoutLosesOne(front, fd);
      assert forall i :: 0 <= i < |front| ==> front[i] == fds[i];
      assert last !in front;
      assert fd !in fds ==> fd !in front;
    }
  }

  lemma {:induction false} FailuresCount(clients: seq<nat>, script: seq<Event>)
    requires DistinctFds(clients)
    ensures |clients| <= |Play(clients, script).clients| + Failures(script)
  {
    if script != [] {
      var front, ev := script[..|script| - 1], script[|script| - 1];
      var v := Play(clients, front);
      FailuresCount(clients, front);
      PlayOk(clients, front);
      if ev.index < |v.waiting| { WithoutLosesOne(v.clients, v.waiting[ev.index]); }
    }
  }

  /** Fewer failures than clients: the loop never waits forever. */
  lemma NeverHangs(clients: seq<nat>, script: seq<Event>)
    requires DistinctFds(clients) && Failures(script) < |clients|
    ensures !Play(clients, script).status.Hung?
  {
    PlayOk(clients, script);
    FailuresCount(clients, script);
  }

  /** A chunk is read, then the first `j` writes in flight fail. */
  function ChunkThenFailures(chunk: Bytes, j: nat): seq<Event> {
    [Event(0, Data(chunk))] + seq(j, _ => Event(0, Failed))
  }

  lemma {:induction false} FirstFail(clients: seq<nat>, chunk: Bytes, j: nat)
    requires DistinctFds(clients) && |clients| <= Q_DEPTH && 0 < |chunk| <= CHUNK && j <= |clients|
    ensures var v := Play(clients, ChunkThenFailures(chunk, j));
            && v.clients == v.waiting == clients[j..] && v.history == [chunk]
            && v.status == if j == |clients| then Hung else Running
  {
    hide Play, ChunkThenFailures, Next, Without;
    if j == 0 {
      ChunkArrives(clients, chunk);
    } else {
      FirstFail(clients, chunk, j - 1);
      OneMoreFailure(clients, chunk, j);
      assert clients[j - 1..][1..] == clients[j..];
      HeadFails(Play(clients, ChunkThenFailures(chunk, j - 1)));
    }
  }

  lemma ChunkArrives(clients: seq<nat>, chunk: Bytes)
    requires |clients| <= Q_DEPTH && 0 < |chunk| <= CHUNK
    ensures Play(clients, ChunkThenFailures(chunk, 0)) == Arrive(Begin(clients), chunk)
  {
    var script := ChunkThenFailures(chunk, 0);
    assert script[..0] == [] && script[0] == Event(0, Data(chunk));
    assert Play(clients, script) == Next(Play(clients, []), script[0]);
  }

  lemma OneMoreFailure(clients: seq<nat>, chunk: Bytes, j: nat)
    requires j > 0
    ensures Play(clients, ChunkThenFailures(chunk, j)) == Next(Play(clients, ChunkThenFailures(chunk, j - 1)), Event(0, Failed))
  {
    var script := ChunkThenFailures(chunk, j);
    assert script[..j] == ChunkThenFailures(chunk, j - 1) && script[j] == Event(0, Failed);
  }

  lemma HeadFails(v: View)
    requires v.status.Running? && v.waiting == v.clients != [] && DistinctFds(v.clients)
    ensures var status := if |v.clients| == 1 then Hung else Running;
            Next(v, Event(0, Failed)) == View(v.clients[1..], v.clients[1..], v.history, v.received, status)
  {
    WithoutHead(v.clients);
  }

  lemma WithoutHead(fds: seq<nat>)
    requires DistinctFds(fds) && fds != []
    ensures Without(fds, fds[0]) == fds[1..]
    decreases |fds|
  {
    if |fds| > 1 {
      WithoutHead(fds[..|fds| - 1]);
      assert fds[..|fds| - 1][1..] + [fds[|fds| - 1]] == fds[1..];
    }
  }

  /** Both ways to wait forever: a chunk and no client to send it to, and a round in which all writes fail. */
  lemma AllFail(clients: seq<nat>, chunk: Bytes)
    requires DistinctFds(clients) && |clients| <= Q_DEPTH && 0 < |chunk| <= CHUNK
    ensures Play(clients, ChunkThenFailures(chunk, |clients|)).status == Hung
  {
    FirstFail(clients, chunk, |clients|);
  }

  // ---- the view in terms of the completions ----

  /** The loop is waiting for its read. */
  predicate ReadInFlight(v: View) { v.status.Running? && v.waiting == [] }

  predicate TakesChunk(v: View, ev: Event) {
    ReadInFlight(v) && ev.index == 0 && ev.outcome.Data? && 0 < |ev.outcome.chunk| <= 4096
  }

  /** The chunks of the completions that deliver data while the read is in flight, in order. */
  function Taken(clients: seq<nat>, script: seq<Event>): seq<Bytes> {
    if script == [] then []
    else
      var front, ev := script[..|script| - 1], script[|script| - 1];
      Taken(clients, front) + if TakesChunk(Play(clients, front), ev) then [ev.outcome.chunk] else []
  }

  /** The chunks read are exactly these, whole. */
  lemma {:induction false} HistoryIsTaken(clients: seq<nat>, script: seq<Event>)
    ensures Play(clients, script).history == Taken(clients, script)
  {
    if script != [] { HistoryIsTaken(clients, script[..|script| - 1]); }
  }

  /** While the read was in flight, it completed in this way. */
  ghost predicate Took(clients: seq<nat>, script: seq<Event>, outcome: Outcome) {
    exists k :: 0 <= k < |script| && TookAt(clients, script, outcome, k)
  }
  ghost predicate TookAt(clients: seq<nat>, script: seq<Event>, outcome: Outcome, k: nat)
    requires k < |script|
  {
    script[k] == Event(0, outcome) && ReadInFlight(Play(clients, script[..k]))
  }

  lemma TookNext(clients: seq<nat>, script: seq<Event>, outcome: Outcome)
    requires script != []
    ensures var last := |script| - 1;
            Took(clients, script, outcome) <==> Took(clients, script[..last], outcome) || TookAt(clients, script, outcome, last)
  {
    hide Play;
    var last := |script| - 1;
    forall k | 0 <= k < last ensures TookAt(clients, script, outcome, k) <==> TookAt(clients, script[..last], outcome, k) {
      assert script[..last][..k] == script[..k];
    }
  }

  /** The loop ends at end of input, or with an error, exactly when its read says so. */
  lemma {:induction false} EndsExactly(clients: seq<nat>, script: seq<Event>)
    ensures Play(clients, script).status.AtEnd? <==> Took(clients, script, EndOfFile)
    ensures Play(clients, script).status.ReadError? <==> Took(clients, script, Failed)
  {
    hide Took, Next, Play;
    if script == [] {
      TookNothing(clients, EndOfFile);
      TookNothing(clients, Failed);
      Beginning(clients);
    } else {
      EndsExactly(clients, script[..|script| - 1]);
      PlayOne(clients, script[..|script| - 1], script[|script| - 1]);
      EndsNext(Play(clients, script[..|script| - 1]), script[|script| - 1]);
      assert script[..|script| - 1] + [script[|script| - 1]] == script;
      TookNext(clients, script, EndOfFile);
      TookNext(clients, script, Failed);
    }
  }

  lemma EndsNext(v: View, ev: Event)
    ensures Next(v, ev).status.AtEnd? <==> v.status.AtEnd? || (ReadInFlight(v) && ev == Event(0, EndOfFile))
    ensures Next(v, ev).status.ReadError? <==> v.status.ReadError? || (ReadInFlight(v) && ev == Event(0, Failed))
  {
  }

  lemma TookNothing(clients: seq<nat>, outcome: Outcome)
    ensures !Took(clients, [], outcome)
  {
  }

  /** It runs out of entries exactly when a chunk arrives for more than 64 clients. */
  lemma {:induction false} NoSqeExactly(clients: seq<nat>, script: seq<Event>)
    ensures var v := Play(clients, script);
            && (v.status.NoSqe? <==> |clients| > 64 && v.history != [])
            && |v.clients| <= |clients| && (v.history == [] ==> v.clients == clients && v.waiting == [])
  {
    if script != [] {
      var v, ev := Play(clients, script[..|script| - 1]), script[|script| - 1];
      NoSqeExactly(clients, script[..|script| - 1]);
      if ev.index < |v.waiting| { WithoutShorter(v.clients, v.waiting[ev.index]); }
    }
  }

  /** The script without the completions that say the input is empty for now. */
  function WithoutAgain(script: seq<Event>): seq<Event> {
    if script == [] then []
    else
      var last := script[|script| - 1];
      WithoutAgain(script[..|script| - 1]) + if last.outcome.Again? then [] else [last]
  }

  /** These change nothing: the read is submitted again. */
  lemma {:induction false} AgainChangesNothing(clients: seq<nat>, script: seq<Event>)
    ensures Play(clients, WithoutAgain(script)) == Play(clients, script)
  {
    if script != [] {
      var front, last := script[..|script| - 1], script[|script| - 1];
      AgainChangesNothing(clients, front);
      if last.outcome.Again? {
        assert WithoutAgain(script) == WithoutAgain(front) + [] == WithoutAgain(front);
      } else {
        PlayOne(clients, WithoutAgain(front), last);
      }
    }
  }

  lemma PlayOne(clients: seq<nat>, front: seq<Event>, ev: Event)
    ensures Play(clients, front + [ev]) == Next(Play(clients, front), ev)
  {
    assert (front + [ev])[..|front|] == front;
  }

  /** This completion says that the client has got the last chunk. */
  predicate Serves(v: View, ev: Event, c: nat) {
    v.status.Running? && ev.index < |v.waiting| && ev.outcome.Written? && v.waiting[ev.index] == c && v.history != []
  }

  /** The chunks whose writes to a client have succeeded. */
  function Sent(clients: seq<nat>, script: seq<Event>, c: nat): seq<Bytes> {
    if script == [] then []
    else
      var front, ev := script[..|script| - 1], script[|script| - 1];
      var v := Play(clients, front);
      Sent(clients, front, c) + if Serves(v, ev, c) then [v.history[|v.history| - 1]] else []
  }

  /** Every client served so far has all chunks, or all but the one being written to it. */
  ghost predicate Lockstep(v: View) {
    && ViewOk(v)
    && (forall c :: c in v.clients ==> c in v.received)
    && (v.status.Running? ==>
          forall c :: c in v.clients ==> v.received[c] == if c in v.waiting then v.history[..|v.history| - 1] else v.history)
  }

  lemma EndWriteLockstep(v: View, i: nat, ok: bool)
    requires Lockstep(v) && v.status.Running? && i < |v.waiting|
    ensures Lockstep(EndWrite(v, i, ok))
  {
    EndWriteOk(v, i, ok);
    hide Without, DistinctFds;
    var rest := v.waiting[..i] + v.waiting[i + 1..];
    RestWaiting(v.waiting, i);
    assert v.waiting[i] in v.waiting;
  }

  lemma RestWaiting(waiting: seq<nat>, i: nat)
    requires i < |waiting| && DistinctFds(waiting)
    ensures forall c :: c in waiting[..i] + waiting[i + 1..] <==> c in waiting && c != waiting[i]
  {
    var rest := waiting[..i] + waiting[i + 1..];
    forall c | c in waiting && c != waiting[i] ensures c in rest {
      var k :| 0 <= k < |waiting| && waiting[k] == c;
      assert rest[if k < i then k else k - 1] == c;
    }
    assert forall k :: 0 <= k < |rest| ==> rest[k] == waiting[if k < i then k else k + 1];
  }

  lemma NextLockstep(v: View, ev: Event)
    requires Lockstep(v)
    ensures Lockstep(Next(v, ev))
  {
    hide EndWrite;
    NextOk(v, ev);
    if v.status.Running? && ev.index < |v.waiting| && (ev.outcome.Written? || ev.outcome.Failed?) {
      EndWriteLockstep(v, ev.index, ev.outcome.Written?);
    }
    assert forall chunk: Bytes :: (v.history + [chunk])[..|v.history|] == v.history;
  }

  lemma {:induction false} PlayLockstep(clients: seq<nat>, script: seq<Event>)
    requires DistinctFds(clients)
    ensures Lockstep(Play(clients, script))
  {
    hide Lockstep, Next;
    if script == [] {
      BeginLockstep(clients);
    } else {
      PlayLockstep(clients, script[..|script| - 1]);
      NextLockstep(Play(clients, script[..|script| - 1]), script[|script| - 1]);
    }
  }

  lemma BeginLockstep(clients: seq<nat>)
    requires DistinctFds(clients)
    ensures Lockstep(Play(clients, []))
  {
  }

  /** What every client has, also one that was dropped, is exactly what was written to it with success. */
  lemma {:induction false} ReceivedIsSent(clients: seq<nat>, script: seq<Event>, c: nat)
    requires DistinctFds(clients) && c in clients
    ensures c in Play(clients, script).received && Play(clients, script).received[c] == Sent(clients, script, c)
  {
    if script != [] {
      var front, ev := script[..|script| - 1], script[|script| - 1];
      ReceivedIsSent(clients, front, c);
      PlayLockstep(clients, front);
      NextReceived(Play(clients, front), ev, c);
    }
  }

  lemma NextReceived(v: View, ev: Event, c: nat)
    requires Lockstep(v) && c in v.received
    ensures c in Next(v, ev).received
    ensures Next(v, ev).received[c] == if Serves(v, ev, c) then v.received[c] + [v.history[|v.history| - 1]] else v.received[c]
  {
    hide Without, DistinctFds;
    if Serves(v, ev, c) {
      assert v.waiting[ev.index] in v.waiting;
      assert v.history[..|v.history| - 1] + [v.history[|v.history| - 1]] == v.history;
    }
  }

  // ---- failure-free rounds ----

  /** In each turn one of the writes still in flight completes: every order of the writes is such a list. */
  predicate WriteOrder(order: seq<nat>, n: nat) {
    |order| == n && forall j :: 0 <= j < n ==> order[j] < n - j
  }

  function Completions(order: seq<nat>): seq<Event> {
    seq(|order|, j requires 0 <= j < |order| => Event(order[j], Written))
  }

  function Rounds(chunks: seq<Bytes>, orders: seq<seq<nat>>): seq<Event>
    requires |chunks| == |orders|
  {
    if chunks == [] then []
    else
      var last := |chunks| - 1;
      Rounds(chunks[..last], orders[..last]) + [Event(0, Data(chunks[last]))] + Completions(orders[last])
  }

  lemma {:induction false} WritesComplete(clients: seq<nat>, before: seq<Event>, order: seq<nat>, j: nat)
    requires DistinctFds(clients) && j <= |order|
    requires var v := Play(clients, before);
             v.status.Running? && v.waiting == v.clients == clients != [] && WriteOrder(order, |clients|)
    ensures var v, w := Play(clients, before), Play(clients, before + Completions(order[..j]));
            && w.status.Running? && w.clients == clients && w.history == v.history && |w.waiting| == |clients| - j
  {
    hide Play, Next, DistinctFds, Completions;
    NextCompletion(before, order, j);
    if j > 0 {
      WritesComplete(clients, before, order, j - 1);
      PlayOne(clients, before + Completions(order[..j - 1]), Event(order[j - 1], Written));
      WriteCompletes(Play(clients, before + Completions(order[..j - 1])), order[j - 1]);
    }
  }

  lemma NextCompletion(before: seq<Event>, order: seq<nat>, j: nat)
    requires j <= |order|
    ensures j == 0 ==> before + Completions(order[..j]) == before
    ensures j > 0 ==> before + Completions(order[..j]) == before + Completions(order[..j - 1]) + [Event(order[j - 1], Written)]
  {
  }

  lemma WriteCompletes(v: View, i: nat)
    requires v.status.Running? && i < |v.waiting| && v.clients != []
    ensures var w := Next(v, Event(i, Written));
            w.status.Running? && w.clients == v.clients && w.history == v.history && |w.waiting| == |v.waiting| - 1
  {
  }

  lemma OneRound(clients: seq<nat>, before: seq<Event>, chunk: Bytes, order: seq<nat>)
    requires DistinctFds(clients) && 1 <= |clients| <= 64 && 0 < |chunk| <= 4096 && WriteOrder(order, |clients|)
    requires ReadInFlight(Play(clients, before)) && Play(clients, before).clients == clients
    ensures var w := Play(clients, before + [Event(0, Data(chunk))] + Completions(order));
            ReadInFlight(w) && w.clients == clients && w.history == Play(clients, before).history + [chunk]
  {
    PlayOne(clients, before, Event(0, Data(chunk)));
    WritesComplete(clients, before + [Event(0, Data(chunk))], order, |order|);
    assert order[..|order|] == order;
  }

  /** For every list of chunks, every nonempty list of at most 64 clients and every order of the writes of each
    * round: without failures every client ends with exactly these chunks, and then the input may end. */
  lemma {:induction false} FailureFree(clients: seq<nat>, chunks: seq<Bytes>, orders: seq<seq<nat>>)
    requires DistinctFds(clients) && 1 <= |clients| <= 64 && |orders| == |chunks|
    requires forall r :: 0 <= r < |chunks| ==> 0 < |chunks[r]| <= 4096 && WriteOrder(orders[r], |clients|)
    ensures var v := Play(clients, Rounds(chunks, orders));
            && ReadInFlight(v) && v.clients == clients && v.history == chunks
            && forall c :: c in clients ==> c in v.received && v.received[c] == chunks
    ensures var v := Play(clients, Rounds(chunks, orders) + [Event(0, EndOfFile)]);
            && v.status.AtEnd? && v.clients == clients
            && forall c :: c in clients ==> c in v.received && v.received[c] == chunks
    decreases |chunks|
  {
    hide Play, Completions, WriteOrder, Lockstep, Next;
    var script := Rounds(chunks, orders);
    if chunks == [] {
      Beginning(clients);
    } else {
      var last := |chunks| - 1;
      FailureFree(clients, chunks[..last], orders[..last]);
      OneRound(clients, Rounds(chunks[..last], orders[..last]), chunks[last], orders[last]);
      assert chunks[..last] + [chunks[last]] == chunks;
    }
    PlayLockstep(clients, script);
    AllServed(Play(clients, script));
    PlayOne(clients, script, Event(0, EndOfFile));
    InputEnds(Play(clients, script));
  }

  lemma Beginning(clients: seq<nat>)
    ensures var v := Play(clients, []); ReadInFlight(v) && v.clients == clients && v.history == []
  {
  }

  lemma AllServed(v: View)
    requires Lockstep(v) && ReadInFlight(v)
    ensures forall c :: c in v.clients ==> c in v.received && v.received[c] == v.history
  {
  }

  lemma InputEnds(v: View)
    requires ReadInFlight(v)
    ensures Next(v, Event(0, EndOfFile)) == v.(status := AtEnd)
  {
  }
}
