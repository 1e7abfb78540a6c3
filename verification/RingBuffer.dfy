/** The overwrite-oldest circular buffer. */
module RingBuffer {

  datatype Result<T> = Ok(value: T) | BufferEmpty

  /** What put does to the contents: a full buffer loses its oldest item. */
  function AfterPut<T>(capacity: nat, contents: seq<T>, item: T): seq<T> {
    if |contents| == capacity && contents != [] then contents[1..] + [item] else contents + [item]
  }

  function Wrap(x: nat, capacity: nat): nat { if x < capacity then x else x - capacity }

  /** The `size` items found from slot `tail` on, going around. */
  ghost function Around<T>(b: seq<T>, tail: nat, size: nat): (s: seq<T>)
    requires tail < |b| && size <= |b|
    ensures |s| == size && forall k :: 0 <= k < size ==> s[k] == b[Wrap(tail + k, |b|)]
  {
    seq(size, k requires 0 <= k < size => b[Wrap(tail + k, |b|)])
  }

  /** Writing the slot behind the newest item appends to a buffer with room... */
  lemma PutRoom<T>(b: seq<T>, tail: nat, size: nat, item: T)
    requires tail < |b| && size < |b|
    ensures Around(b[Wrap(tail + size, |b|) := item], tail, size + 1) == Around(b, tail, size) + [item]
  {
    var l := Around(b[Wrap(tail + size, |b|) := item], tail, size + 1);
    forall k | 0 <= k < size ensures l[k] == Around(b, tail, size)[k] { }
  }

  /** ... and in a full one replaces the oldest item by the newest. */
  lemma PutFull<T>(b: seq<T>, tail: nat, item: T)
    requires tail < |b|
    ensures Around(b[tail := item], Wrap(tail + 1, |b|), |b|) == Around(b, tail, |b|)[1..] + [item]
  {
    var l := Around(b[tail := item], Wrap(tail + 1, |b|), |b|);
    forall k | 0 <= k < |b| - 1 ensures l[k] == Around(b, tail, |b|)[k + 1] { }
  }

  /** Both cases together, with the indices put leaves behind. */
  lemma PutState<T>(b: seq<T>, tail: nat, size: nat, item: T)
    requires tail < |b| && size <= |b|
    ensures var head, full := Wrap(tail + size, |b|), size == |b|;
            var tail', size' := if full then Wrap(tail + 1, |b|) else tail, if full then size else size + 1;
            && head < |b| && tail' < |b| && Wrap(head + 1, |b|) == Wrap(tail' + size', |b|)
            && Around(b[head := item], tail', size') == AfterPut(|b|, Around(b, tail, size), item)
  {
    hide Around;
    if size < |b| { PutRoom(b, tail, size, item); } else { PutFull(b, tail, item); }
  }

  lemma GetAround<T>(b: seq<T>, tail: nat, size: nat)
    requires tail < |b| && 0 < size <= |b|
    ensures Around(b, tail, size)[0] == b[tail]
    ensures Around(b, Wrap(tail + 1, |b|), size - 1) == Around(b, tail, size)[1..]
  {
  }

  lemma WrapIsModulo(x: nat, capacity: nat)
    requires x < 2 * capacity
    ensures Wrap(x, capacity) == x % capacity
  {
  }

  /** Advancing an index by one slot. */
  lemma NextSlot(x: nat, capacity: nat)
    requires x < capacity
    ensures (x + 1) % capacity == Wrap(x + 1, capacity) < capacity
  {
  }

  class Buffer<T(0)> {
    const capacity: nat
    const buffer: array<T>
    var size: nat
    var head: nat
    var tail: nat

    ghost predicate Valid()
      reads this
    {
      && 1 <= capacity == buffer.Length && size <= capacity && tail < capacity
      && head == Wrap(tail + size, capacity)
    }

    /** The items in the buffer, oldest first. */
    ghost function Contents(): (s: seq<T>)
      reads this, buffer
      requires Valid()
      ensures |s| == size
    {
      Around(buffer[..], tail, size)
    }

    /** Where the next item goes. */
    lemma HeadIsModulo()
      requires Valid()
      ensures head == (tail + size) % capacity
    {
      WrapIsModulo(tail + size, capacity);
    }

    constructor (maxSize: nat)
      requires maxSize >= 1
      ensures Valid() && fresh(buffer) && capacity == maxSize && Contents() == []
    {
      capacity, buffer := maxSize, new T[maxSize];
      size, head, tail := 0, 0, 0;
    }

    method IsFull() returns (r: bool)
      requires Valid()
      ensures r <==> |Contents()| == capacity
    {
      r := size == capacity;
    }

    method IsEmpty() returns (r: bool)
      requires Valid()
      ensures r <==> Contents() == []
    {
      r := size == 0;
    }

    method Put(item: T)
      requires Valid()
      modifies this, buffer
      ensures Valid() && Contents() == AfterPut(capacity, old(Contents()), item)
    {
      hide Around, AfterPut, Wrap;
      ghost var b := buffer[..];
      PutState(b, tail, size, item);
      NextSlot(tail, capacity);
      NextSlot(head, capacity);
      buffer[head] := item;
      assert buffer[..] == b[head := item];
      var full := IsFull();
      if full {
        tail := (tail + 1) % capacity;
      } else {
        size := size + 1;
      }
      head := (head + 1) % capacity;
    }

    method Get() returns (r: Result<T>)
      requires Valid()
      modifies this
      ensures Valid()
      ensures r == if old(Contents()) == [] then BufferEmpty else Ok(old(Contents())[0])
      ensures Contents() == if old(Contents()) == [] then [] else old(Contents())[1..]
    {
      if size == 0 { return BufferEmpty; }
      GetAround(buffer[..], tail, size);
      NextSlot(tail, capacity);
      var item := buffer[tail];
      tail := (tail + 1) % capacity;
      size := size - 1;
      r := Ok(item);
    }

    method Peek() returns (r: Result<T>)
      requires Valid()
      ensures r == if Contents() == [] then BufferEmpty else Ok(Contents()[0])
    {
      if size == 0 { return BufferEmpty; }
      r := Ok(buffer[tail]);
    }
  }

  // ---- whole runs ----

  datatype Call<T> = Put(item: T) | Get

  /** An item that has left the buffer, handed out by a get or overwritten by a put. */
  datatype Gone<T> = Gone(item: T, handedOut: bool)

  /** A run on the specification: items put, items gone and items still there. */
  datatype Run<T> = Run(puts: seq<T>, gone: seq<Gone<T>>, contents: seq<T>)

  function Perform<T>(capacity: nat, r: Run<T>, call: Call<T>): Run<T> {
    match call
    case Put(x) =>
      Run(r.puts + [x],
          if |r.contents| == capacity && r.contents != [] then r.gone + [Gone(r.contents[0], false)] else r.gone,
          AfterPut(capacity, r.contents, x))
    case Get =>
      if r.contents == [] then r else Run(r.puts, r.gone + [Gone(r.contents[0], true)], r.contents[1..])
  }

  function PerformAll<T>(capacity: nat, calls: seq<Call<T>>): Run<T> {
    if calls == [] then Run([], [], [])
    else Perform(capacity, PerformAll(capacity, calls[..|calls| - 1]), calls[|calls| - 1])
  }

  function Items<T>(gone: seq<Gone<T>>): seq<T> { seq(|gone|, k requires 0 <= k < |gone| => gone[k].item) }

  function Count<T>(gone: seq<Gone<T>>, handedOut: bool): nat {
    if gone == [] then 0
    else Count(gone[..|gone| - 1], handedOut) + if gone[|gone| - 1].handedOut == handedOut then 1 else 0
  }

  lemma {:induction false} CountBoth<T>(gone: seq<Gone<T>>)
    ensures Count(gone, true) + Count(gone, false) == |gone|
  {
    if gone != [] { CountBoth(gone[..|gone| - 1]); }
  }

  ghost predicate Accounted<T>(capacity: nat, r: Run<T>) {
    |r.contents| <= capacity && r.puts == Items(r.gone) + r.contents
  }

  lemma OldestLeaves<T>(gone: seq<Gone<T>>, contents: seq<T>, handedOut: bool)
    requires contents != []
    ensures Items(gone + [Gone(contents[0], handedOut)]) + contents[1..] == Items(gone) + contents
  {
    assert Items(gone + [Gone(contents[0], handedOut)]) == Items(gone) + [contents[0]];
  }

  lemma StepAccounted<T>(capacity: nat, r: Run<T>, call: Call<T>)
    requires capacity >= 1 && Accounted(capacity, r)
    ensures Accounted(capacity, Perform(capacity, r, call))
  {
    if r.contents != [] { OldestLeaves(r.gone, r.contents, call.Get?); }
    if call.Put? {
      var gone := Perform(capacity, r, call).gone;
      var rest := if |r.contents| == capacity then r.contents[1..] else r.contents;
      assert Items(gone) + rest == r.puts;
      assert Items(gone) + (rest + [call.item]) == Items(gone) + rest + [call.item];
    }
  }

  /** Over every run: items leave in the order they were put, each once, the last ones put are the ones
    * still there, and puts = gets + overwritten + size. */
  lemma {:induction false} EveryRun<T>(capacity: nat, calls: seq<Call<T>>)
    requires capacity >= 1
    ensures var r := PerformAll(capacity, calls);
            && Accounted(capacity, r)
            && |r.puts| == Count(r.gone, true) + Count(r.gone, false) + |r.contents|
  {
    CountBoth(PerformAll(capacity, calls).gone);
    if calls != [] {
      EveryRun(capacity, calls[..|calls| - 1]);
      StepAccounted(capacity, PerformAll(capacity, calls[..|calls| - 1]), calls[|calls| - 1]);
    }
  }

  // ---- runs in terms of the calls alone ----

  /** The items put, in order. */
  function PutItems<T>(calls: seq<Call<T>>): seq<T> {
    if calls == [] then []
    else
      var last := calls[|calls| - 1];
      PutItems(calls[..|calls| - 1]) + if last.Put? then [last.item] else []
  }

  /** The number of items the calls leave: puts count up to the capacity, gets down to zero. */
  function Size<T>(capacity: nat, calls: seq<Call<T>>): (n: nat)
    ensures n <= capacity
  {
    if calls == [] then 0
    else
      var size := Size(capacity, calls[..|calls| - 1]);
      if calls[|calls| - 1].Put? then (if size < capacity then size + 1 else size)
      else if size > 0 then size - 1 else 0
  }

  /** What the gets return: each that meets items, the one put before the last `size` - 1 items put so far. */
  function Gotten<T>(capacity: nat, calls: seq<Call<T>>): seq<T> {
    if calls == [] then []
    else
      var front := calls[..|calls| - 1];
      var puts, size := PutItems(front), Size(capacity, front);
      if calls[|calls| - 1].Get? && 0 < size <= |puts| then Gotten(capacity, front) + [puts[|puts| - size]]
      else Gotten(capacity, front)
  }

  /** The number of gets that meet items, and of puts that meet a full buffer. */
  function Hits<T>(capacity: nat, calls: seq<Call<T>>, get: bool): nat {
    if calls == [] then 0
    else
      var front, last := calls[..|calls| - 1], calls[|calls| - 1];
      var size := Size(capacity, front);
      Hits(capacity, front, get) + if last.Get? == get && (if get then size > 0 else size == capacity) then 1 else 0
  }

  ghost predicate Left<T>(capacity: nat, calls: seq<Call<T>>, r: Run<T>) {
    var size := Size(capacity, calls);
    r.puts == PutItems(calls) && |r.contents| == size <= |r.puts| && r.contents == r.puts[|r.puts| - size..]
  }
  ghost predicate Handed<T>(capacity: nat, calls: seq<Call<T>>, r: Run<T>) {
    && HandedOut(r.gone) == Gotten(capacity, calls)
    && Count(r.gone, true) == Hits(capacity, calls, true) == |Gotten(capacity, calls)|
    && Count(r.gone, false) == Hits(capacity, calls, false)
  }

  /** Over every run, in terms of the calls: what was put, that the items left are the last ones put, what the
    * gets handed out and how often, and how many items were overwritten. */
  lemma {:induction false} RunOfCalls<T>(capacity: nat, calls: seq<Call<T>>)
    requires capacity >= 1
    ensures Left(capacity, calls, PerformAll(capacity, calls)) && Handed(capacity, calls, PerformAll(capacity, calls))
  {
    if calls != [] {
      var front, last := calls[..|calls| - 1], calls[|calls| - 1];
      RunOfCalls(capacity, front);
      NextLeft(capacity, front, last, PerformAll(capacity, front));
      NextHanded(capacity, front, last, PerformAll(capacity, front));
      assert front + [last] == calls;
    }
  }

  lemma NextCalls<T>(capacity: nat, front: seq<Call<T>>, last: Call<T>)
    ensures var calls := front + [last]; calls[..|calls| - 1] == front && calls[|calls| - 1] == last
  {
  }

  lemma NextLeft<T>(capacity: nat, front: seq<Call<T>>, last: Call<T>, r: Run<T>)
    requires capacity >= 1 && Left(capacity, front, r)
    ensures Left(capacity, front + [last], Perform(capacity, r, last))
  {
    hide Size, PutItems;
    var puts, size := r.puts, |r.contents|;
    SizeNext(capacity, front, last);
    if last.Put? { TailGrows(puts, |puts| - size, last.item); }
    if size > 0 {
      TailShrinks(puts, |puts| - size);
      if last.Put? { TailGrows(puts, |puts| - size + 1, last.item); }
    }
  }

  lemma SizeNext<T>(capacity: nat, front: seq<Call<T>>, last: Call<T>)
    ensures PutItems(front + [last]) == PutItems(front) + if last.Put? then [last.item] else []
    ensures var size := Size(capacity, front);
            Size(capacity, front + [last]) ==
              if last.Put? then (if size < capacity then size + 1 else size) else if size > 0 then size - 1 else 0
  {
    NextCalls(capacity, front, last);
  }

  lemma TailGrows<T>(s: seq<T>, k: nat, x: T)
    requires k <= |s|
    ensures s[k..] + [x] == (s + [x])[k..]
  {
  }

  lemma TailShrinks<T>(s: seq<T>, k: nat)
    requires k < |s|
    ensures s[k..] != [] && s[k..][1..] == s[k + 1..] && s[k..][0] == s[k]
  {
  }

  lemma NextHanded<T>(capacity: nat, front: seq<Call<T>>, last: Call<T>, r: Run<T>)
    requires capacity >= 1 && Left(capacity, front, r) && Handed(capacity, front, r)
    ensures Handed(capacity, front + [last], Perform(capacity, r, last))
  {
    hide Size, PutItems, AfterPut;
    NextCalls(capacity, front, last);
    if r.contents != [] {
      HandedOutNext(r.gone, Gone(r.contents[0], last.Get?));
      CountNext(r.gone, Gone(r.contents[0], last.Get?));
    }
  }

  lemma CountNext<T>(gone: seq<Gone<T>>, last: Gone<T>)
    ensures forall b :: Count(gone + [last], b) == Count(gone, b) + if last.handedOut == b then 1 else 0
  {
    assert (gone + [last])[..|gone|] == gone;
  }

  function Puts<T>(items: seq<T>): seq<Call<T>> { seq(|items|, k requires 0 <= k < |items| => Put(items[k])) }
  function Gets<T>(count: nat): seq<Call<T>> { seq(count, _ => Get) }

  lemma {:induction false} OnlyPuts<T>(capacity: nat, items: seq<T>)
    requires |items| <= capacity
    ensures PutItems(Puts(items)) == items && Size(capacity, Puts(items)) == |items| && Gotten(capacity, Puts(items)) == []
  {
    if items != [] {
      var front := items[..|items| - 1];
      OnlyPuts(capacity, front);
      assert Puts(items)[..|items| - 1] == Puts(front) && items == front + [items[|items| - 1]];
    }
  }

  /** First in, first out: with no overwriting, `count` gets after the puts hand out the first items put, and
    * the others are left. */
  lemma {:induction false} FirstInFirstOut<T>(capacity: nat, items: seq<T>, count: nat)
    requires count <= |items| <= capacity && capacity >= 1
    ensures var calls := Puts(items) + Gets(count);
            && PutItems(calls) == items && Size(capacity, calls) == |items| - count
            && Gotten(capacity, calls) == items[..count]
    ensures var r := PerformAll(capacity, Puts(items) + Gets(count));
            HandedOut(r.gone) == items[..count] && r.contents == items[count..]
  {
    hide PutItems, Size, Gotten, PerformAll, HandedOut, Puts, Gets;
    if count == 0 {
      OnlyPuts(capacity, items);
      PutsAndGets(items, 0);
    } else {
      FirstInFirstOut(capacity, items, count - 1);
      PutsAndGets(items, count);
      OneMoreGet(capacity, Puts(items) + Gets(count - 1), items, count - 1);
    }
    RunOfCalls(capacity, Puts(items) + Gets(count));
  }

  lemma PutsAndGets<T>(items: seq<T>, count: nat)
    ensures count > 0 ==> Puts(items) + Gets(count) == Puts(items) + Gets(count - 1) + [Get]
    ensures count == 0 ==> Puts(items) + Gets(count) == Puts(items)
  {
  }

  lemma OneMoreGet<T>(capacity: nat, calls: seq<Call<T>>, items: seq<T>, count: nat)
    requires PutItems(calls) == items && count < |items| && Size(capacity, calls) == |items| - count
    requires Gotten(capacity, calls) == items[..count]
    ensures PutItems(calls + [Get]) == items && Size(capacity, calls + [Get]) == |items| - count - 1
    ensures Gotten(capacity, calls + [Get]) == items[..count + 1]
  {
    NextCalls(capacity, calls, Get);
    SizeNext(capacity, calls, Get);
  }

  function HandedOut<T>(gone: seq<Gone<T>>): seq<T> {
    if gone == [] then []
    else
      var rest, last := HandedOut(gone[..|gone| - 1]), gone[|gone| - 1];
      if last.handedOut then rest + [last.item] else rest
  }

  lemma HandedOutNext<T>(gone: seq<Gone<T>>, last: Gone<T>)
    ensures HandedOut(gone + [last]) == HandedOut(gone) + if last.handedOut then [last.item] else []
  {
    assert (gone + [last])[..|gone|] == gone;
  }

  lemma NoCalls<T>(capacity: nat, calls: seq<Call<T>>)
    ensures PerformAll(capacity, calls[..0]).contents == [] && HandedOut(PerformAll(capacity, calls[..0]).gone) == []
  {
  }

  lemma NextCall<T>(capacity: nat, calls: seq<Call<T>>, k: nat)
    requires k < |calls|
    ensures PerformAll(capacity, calls[..k + 1]) == Perform(capacity, PerformAll(capacity, calls[..k]), calls[k])
  {
    assert calls[..k + 1][..k] == calls[..k];
  }

  /** One call on a real buffer. */
  method Play<T(0)>(b: Buffer<T>, call: Call<T>, got: seq<T>, ghost r: Run<T>) returns (got': seq<T>)
    requires b.Valid() && b.Contents() == r.contents && got == HandedOut(r.gone)
    modifies b, b.buffer
    ensures b.Valid()
    ensures b.Contents() == Perform(b.capacity, r, call).contents && got' == HandedOut(Perform(b.capacity, r, call).gone)
  {
    if r.contents != [] { HandedOutNext(r.gone, Gone(r.contents[0], call.Get?)); }
    got' := got;
    match call {
      case Put(x) => b.Put(x);
      case Get =>
        var item := b.Get();
        if item.Ok? { got' := got + [item.value]; }
    }
  }

  lemma NextItem<T>(all: seq<T>, k: nat)
    requires k < |all|
    ensures all[k..] != [] && all[k..][0] == all[k] && all[k..][1..] == all[k + 1..]
    ensures all[..k] + [all[k]] == all[..k + 1]
  {
  }

  lemma NoMoreItems<T>(all: seq<T>, k: nat)
    requires k <= |all|
    ensures all[k..] == [] <==> k == |all|
    ensures all[..0] == [] && all[0..] == all && all[..|all|] == all
  {
  }

  /** Gets until the buffer is empty. */
  method Drain<T(0)>(b: Buffer<T>) returns (left: seq<T>)
    requires b.Valid()
    modifies b
    ensures left == old(b.Contents())
  {
    hide Around, Wrap;
    ghost var all, k: nat := b.Contents(), 0;
    left := [];
    NoMoreItems(all, 0);
    var empty := b.IsEmpty();
    while !empty
      invariant b.Valid() && k <= |all| && left == all[..k] && b.Contents() == all[k..]
      invariant empty == (k == |all|)
      decreases |all| - k
    {
      NextItem(all, k);
      var item := b.Get();
      left := left + [item.value];
      k := k + 1;
      NoMoreItems(all, k);
      empty := b.IsEmpty();
    }
  }

  /** A whole run on a real buffer, drained at the end: the gets hand out what `Gotten` says of the calls, and
    * the buffer keeps the last `Size` items put. */
  method PlayAll<T(0)>(capacity: nat, calls: seq<Call<T>>) returns (got: seq<T>, left: seq<T>)
    requires capacity >= 1
    ensures got == HandedOut(PerformAll(capacity, calls).gone) && left == PerformAll(capacity, calls).contents
    ensures Size(capacity, calls) <= |PutItems(calls)|
    ensures got == Gotten(capacity, calls) && left == PutItems(calls)[|PutItems(calls)| - Size(capacity, calls)..]
  {
    hide Perform, PerformAll, HandedOut, Around, Size, PutItems, Gotten, Hits;
    RunOfCalls(capacity, calls);
    var b := new Buffer<T>(capacity);
    got := [];
    NoCalls(capacity, calls);
    for k := 0 to |calls|
      invariant b.Valid() && b.capacity == capacity && fresh(b) && fresh(b.buffer)
      invariant b.Contents() == PerformAll(capacity, calls[..k]).contents
      invariant got == HandedOut(PerformAll(capacity, calls[..k]).gone)
    {
      NextCall(capacity, calls, k);
      got := Play(b, calls[k], got, PerformAll(capacity, calls[..k]));
    }
    assert calls[..|calls|] == calls;
    left := Drain(b);
  }
}
