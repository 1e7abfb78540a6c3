/** submit_read_write: copying a file window by window through freshly allocated iovec buffers. */
module WindowedCopy {
  import opened Files

  const CHUNK: nat := 65536
  const MAX_BLOCKS: nat := 1024
  const WINDOW: nat := 67108864

  // ---- what one call of submit_read_write does ----

  function Windows(size: nat): nat { (size + WINDOW - 1) / WINDOW }

  /** Window `k` is copied by calls number from + 2k (the read) and from + 2k + 1 (the write); `faults` are the
    * numbers of the system calls that fail. */
  predicate Survives(faults: set<nat>, from: nat, k: nat) {
    from + 2 * k !in faults && from + 2 * k + 1 !in faults
  }

  /** The windows copied before the first failing call. */
  function Copies(faults: set<nat>, from: nat, windows: nat): (k: nat)
    ensures k <= windows && (forall j :: 0 <= j < k ==> Survives(faults, from, j))
    ensures k < windows ==> !Survives(faults, from, k)
  {
    if windows == 0 then 0
    else
      var k := Copies(faults, from, windows - 1);
      if k == windows - 1 && Survives(faults, from, k) then windows else k
  }

  /** The bytes copied, and the value returned. */
  function Got(size: nat, faults: set<nat>, from: nat): nat { Min(Copies(faults, from, Windows(size)) * WINDOW, size) }
  function Returned(size: nat, faults: set<nat>, from: nat): int {
    if Copies(faults, from, Windows(size)) == Windows(size) then size else -1
  }

  /** All of the file is copied, and its size returned, exactly when none of its calls fails; otherwise -1 is
    * returned and bytes are missing. */
  lemma CopyExactly(size: nat, faults: set<nat>, from: nat)
    ensures Returned(size, faults, from) == size <==>
            forall call :: from <= call < from + 2 * Windows(size) ==> call !in faults
    ensures Returned(size, faults, from) == if Got(size, faults, from) == size then size else -1
    ensures Got(size, faults, from) <= size
  {
    var k := Copies(faults, from, Windows(size));
    if k == Windows(size) {
      forall call | from <= call < from + 2 * Windows(size) ensures call !in faults {
        assert Survives(faults, from, (call - from) / 2);
      }
    }
  }

  /** An iovec: the address of a buffer and the bytes of it that take part. */
  datatype Iovec = Iovec(base: nat, len: nat)

  ghost predicate Distinct(iovs: seq<Iovec>) {
    forall i, k :: 0 <= i < k < |iovs| ==> iovs[i].base != iovs[k].base
  }

  function Lens(iovs: seq<Iovec>): seq<nat> { seq(|iovs|, i requires 0 <= i < |iovs| => iovs[i].len) }

  function Bases(iovs: seq<Iovec>): set<nat> { set i | 0 <= i < |iovs| :: iovs[i].base }

  /** preadv into memory: block i of the data lands in buffer i. */
  function ScatterInto(mem: map<nat, Bytes>, iovs: seq<Iovec>, d: Bytes): map<nat, Bytes>
    decreases |iovs|
  {
    if iovs == [] then mem
    else
      var k := Min(iovs[0].len, |d|);
      ScatterInto(mem[iovs[0].base := d[..k]], iovs[1..], d[k..])
  }

  /** pwritev from memory: the buffers one after the other. */
  function GatherFrom(mem: map<nat, Bytes>, iovs: seq<Iovec>): Bytes {
    if iovs == [] then []
    else (if iovs[0].base in mem then mem[iovs[0].base] else []) + GatherFrom(mem, iovs[1..])
  }

  lemma {:induction false} ScatterKeeps(mem: map<nat, Bytes>, iovs: seq<Iovec>, d: Bytes)
    ensures var m := ScatterInto(mem, iovs, d);
            && m.Keys == mem.Keys + Bases(iovs)
            && forall b :: b in mem && b !in Bases(iovs) ==> m[b] == mem[b]
    decreases |iovs|
  {
    if iovs != [] {
      var k := Min(iovs[0].len, |d|);
      ScatterKeeps(mem[iovs[0].base := d[..k]], iovs[1..], d[k..]);
      BasesHead(iovs);
    }
  }

  lemma BasesHead(iovs: seq<Iovec>)
    requires iovs != []
    ensures Bases(iovs) == {iovs[0].base} + Bases(iovs[1..])
  {
    forall i | 0 <= i < |iovs| ensures iovs[i].base in {iovs[0].base} + Bases(iovs[1..]) {
      if i > 0 { assert iovs[i] == iovs[1..][i - 1]; }
    }
  }

  /** What was scattered over distinct buffers is gathered back unchanged. */
  lemma {:induction false} ScatterGather(mem: map<nat, Bytes>, iovs: seq<Iovec>, d: Bytes)
    requires Distinct(iovs) && Sum(Lens(iovs)) == |d|
    ensures GatherFrom(ScatterInto(mem, iovs, d), iovs) == d
    decreases |iovs|
  {
    if iovs == [] {
      assert d == [];
    } else {
      assert Lens(iovs)[1..] == Lens(iovs[1..]);
      var k := iovs[0].len;
      var mem1 := mem[iovs[0].base := d[..k]];
      ScatterGather(mem1, iovs[1..], d[k..]);
      ScatterKeeps(mem1, iovs[1..], d[k..]);
      assert iovs[0].base !in Bases(iovs[1..]);
      assert d == d[..k] + d[k..];
    }
  }

  /** Writing the next piece behind what has been written is writing both at once. */
  lemma PwriteAppend(f: Bytes, a: Bytes, b: Bytes)
    ensures Pwrite(Pwrite(f, 0, a), |a|, b) == Pwrite(f, 0, a + b)
  {
    if a == [] {
      assert a + b == b;
    } else if b == [] {
      assert a + b == a;
    } else {
      var l, r := Pwrite(Pwrite(f, 0, a), |a|, b), Pwrite(f, 0, a + b);
      forall k | 0 <= k < |l| ensures l[k] == r[k] {
        PwriteAt(Pwrite(f, 0, a), |a|, b, k);
        if k < |Pwrite(f, 0, a)| { PwriteAt(f, 0, a, k); }
        PwriteAt(f, 0, a + b, k);
      }
    }
  }

  /** A file overwritten from the start by one that is no shorter becomes that file. */
  lemma PwriteWhole(f: Bytes, d: Bytes)
    requires |f| <= |d|
    ensures Pwrite(f, 0, d) == d
  {
  }

  /** The files and the heap of the process; `mem` maps live buffers to their contents. Its I/O calls are
    * numbered, and those in `faults` fail. */
  class Process {
    const faults: set<nat>
    var files: seq<Bytes>
    var mem: map<nat, Bytes>
    var calls: nat

    constructor (files: seq<Bytes>, faults: set<nat>)
      ensures this.files == files && this.faults == faults && mem == map[] && calls == 0
    {
      this.files, this.faults, this.mem, this.calls := files, faults, map[], 0;
    }

    /** posix_memalign: the address of some buffer that is not in use. */
    method Allocate() returns (base: nat)
      modifies this`mem
      ensures base !in old(mem) && mem == old(mem)[base := []]
    {
      base := 0;
      ghost var seen := {};
      while base in mem
        invariant seen == set b | b in mem.Keys && b < base
        invariant forall b :: 0 <= b < base ==> b in mem
        decreases |mem.Keys - seen|
      {
        assert base in mem.Keys - seen;
        ghost var rest := mem.Keys - seen;
        seen := seen + {base};
        assert mem.Keys - seen == rest - {base};
        base := base + 1;
      }
      mem := mem[base := []];
    }

    /** free: only a live buffer can be freed. */
    method Free(base: nat)
      requires base in mem
      modifies this`mem
      ensures mem == old(mem) - {base}
    {
      mem := mem - {base};
    }

    method Preadv(fd: nat, iovs: seq<Iovec>, off: nat) returns (ok: bool)
      requires fd < |files| && Bases(iovs) <= mem.Keys
      modifies this`mem, this`calls
      ensures ok == (old(calls) !in faults) && calls == old(calls) + 1
      ensures mem.Keys == old(mem.Keys)
      ensures forall b :: b in old(mem) && b !in Bases(iovs) ==> mem[b] == old(mem)[b]
      ensures ok ==> mem == ScatterInto(old(mem), iovs, Pread(files[fd], off, Sum(Lens(iovs))))
    {
      ok := calls !in faults;
      calls := calls + 1;
      if ok {
        ScatterKeeps(mem, iovs, Pread(files[fd], off, Sum(Lens(iovs))));
        mem := ScatterInto(mem, iovs, Pread(files[fd], off, Sum(Lens(iovs))));
      }
    }

    method Pwritev(fd: nat, iovs: seq<Iovec>, off: nat) returns (ok: bool)
      requires fd < |files| && Bases(iovs) <= mem.Keys
      modifies this`files, this`calls
      ensures ok == (old(calls) !in faults) && calls == old(calls) + 1
      ensures files == if ok then old(files)[fd := Pwrite(old(files)[fd], off, GatherFrom(mem, iovs))] else old(files)
    {
      ok := calls !in faults;
      calls := calls + 1;
      if ok { files := files[fd := Pwrite(files[fd], off, GatherFrom(mem, iovs))]; }
    }
  }

  /** The buffers of one window are live, distinct and hold at most a block each. */
  ghost predicate Window(mem: map<nat, Bytes>, mem0: map<nat, Bytes>, iovs: seq<Iovec>) {
    && Distinct(iovs) && Bases(iovs) !! mem0.Keys && mem.Keys == mem0.Keys + Bases(iovs)
    && (forall b :: b in mem0 ==> mem[b] == mem0[b])
    && (forall i :: 0 <= i < |iovs| ==> 1 <= iovs[i].len <= CHUNK)
  }

  lemma WindowGrows(mem: map<nat, Bytes>, mem0: map<nat, Bytes>, iovs: seq<Iovec>, v: Iovec)
    requires Window(mem, mem0, iovs) && v.base !in mem && 1 <= v.len <= CHUNK
    ensures Window(mem[v.base := []], mem0, iovs + [v]) && Sum(Lens(iovs + [v])) == Sum(Lens(iovs)) + v.len
  {
    assert Lens(iovs + [v]) == Lens(iovs) + [v.len];
    SumAppend(Lens(iovs), v.len);
    assert Bases(iovs + [v]) == Bases(iovs) + {v.base} by {
      forall b | b in Bases(iovs) + {v.base} ensures b in Bases(iovs + [v]) {
        if b == v.base {
          assert (iovs + [v])[|iovs|] == v;
        } else {
          var i :| 0 <= i < |iovs| && iovs[i].base == b;
          assert (iovs + [v])[i] == iovs[i];
        }
      }
    }
  }

  /** The allocation phase of one window. */
  method AllocateWindow(p: Process, window: nat) returns (iovs: seq<Iovec>)
    requires 0 < window <= WINDOW
    modifies p`mem
    ensures Window(p.mem, old(p.mem), iovs) && |iovs| <= MAX_BLOCKS && Sum(Lens(iovs)) == window
  {
    var blocks: nat := (window + CHUNK - 1) / CHUNK;
    iovs := [];
    for i := 0 to blocks
      invariant |iovs| == i && Window(p.mem, old(p.mem), iovs)
      invariant Sum(Lens(iovs)) == Min(i * CHUNK, window)
    {
      var bytes: nat := Min(CHUNK, window - i * CHUNK);
      ghost var mem1 := p.mem;
      var base := p.Allocate();
      WindowGrows(mem1, old(p.mem), iovs, Iovec(base, bytes));
      iovs := iovs + [Iovec(base, bytes)];
    }
  }

  lemma WindowShrinks(mem: map<nat, Bytes>, mem0: map<nat, Bytes>, iovs: seq<Iovec>)
    requires Window(mem, mem0, iovs) && iovs != []
    ensures iovs[0].base in mem && Window(mem - {iovs[0].base}, mem0, iovs[1..])
  {
    BasesHead(iovs);
    assert iovs[0].base in Bases(iovs);
    assert iovs[0].base !in Bases(iovs[1..]);
  }

  /** Frees every buffer of the window, each exactly once. */
  method FreeWindow(p: Process, iovs: seq<Iovec>, ghost mem0: map<nat, Bytes>)
    requires Window(p.mem, mem0, iovs)
    modifies p`mem
    ensures p.mem == mem0
  {
    var i: nat := 0;
    while i < |iovs|
      invariant i <= |iovs| && Window(p.mem, mem0, iovs[i..])
    {
      WindowShrinks(p.mem, mem0, iovs[i..]);
      assert iovs[i..][1..] == iovs[i + 1..];
      p.Free(iovs[i].base);
      i := i + 1;
    }
    assert Bases(iovs[i..]) == {};
    assert p.mem.Keys == mem0.Keys;
  }

  lemma WindowScatter(mem: map<nat, Bytes>, mem': map<nat, Bytes>, mem0: map<nat, Bytes>, iovs: seq<Iovec>)
    requires Window(mem, mem0, iovs) && mem'.Keys == mem.Keys
    requires forall b :: b in mem && b !in Bases(iovs) ==> mem'[b] == mem[b]
    ensures Window(mem', mem0, iovs)
  {
  }

  /** One window: allocate, read, write, free. The buffers are gone whichever call fails. */
  method CopyWindow(p: Process, src: nat, dst: nat, off: nat, window: nat) returns (ok: bool)
    requires src < |p.files| && dst < |p.files|
    requires 0 < window <= WINDOW && off + window <= |p.files[src]|
    modifies p
    ensures p.mem == old(p.mem)
    ensures ok <==> Survives(p.faults, old(p.calls), 0)
    ensures ok ==> p.calls == old(p.calls) + 2
    ensures p.files == if ok then old(p.files)[dst := Pwrite(old(p.files)[dst], off, old(p.files)[src][off..off + window])]
                       else old(p.files)
  {
    ghost var mem0 := p.mem;
    var iovs := AllocateWindow(p, window);
    ghost var mem1 := p.mem;
    ok := p.Preadv(src, iovs, off);
    WindowScatter(mem1, p.mem, mem0, iovs);
    if ok {
      ScatterGather(mem1, iovs, p.files[src][off..off + window]);
      ok := p.Pwritev(dst, iovs, off);
    }
    FreeWindow(p, iovs, mem0);
  }

  /** The state after a copy of the first `k` bytes of file `src` over file `dst`. */
  ghost function Copied(files: seq<Bytes>, src: nat, dst: nat, k: nat): seq<Bytes>
    requires src < |files| && dst < |files| && k <= |files[src]|
  {
    files[dst := Pwrite(files[dst], 0, files[src][..k])]
  }

  lemma CopiedMore(files: seq<Bytes>, src: nat, dst: nat, k: nat, window: nat)
    requires src < |files| && dst < |files| && src != dst && k + window <= |files[src]|
    ensures var f := Copied(files, src, dst, k);
            f[dst := Pwrite(f[dst], k, files[src][k..k + window])] == Copied(files, src, dst, k + window)
  {
    var d := files[src];
    PwriteAppend(files[dst], d[..k], d[k..k + window]);
    assert d[..k] + d[k..k + window] == d[..k + window];
  }

  lemma CopiesIs(faults: set<nat>, from: nat, windows: nat, k: nat)
    requires k <= windows && (forall j :: 0 <= j < k ==> Survives(faults, from, j))
    requires k < windows ==> !Survives(faults, from, k)
    ensures Copies(faults, from, windows) == k
  {
  }

  /** submit_read_write, for every set of failing I/O calls: buffers never leak, the windows before the first
    * failing call are copied, and the size is returned exactly when there is none. */
  method SubmitReadWrite(p: Process, src: nat, dst: nat) returns (r: int)
    requires src < |p.files| && dst < |p.files| && src != dst
    modifies p
    ensures p.mem == old(p.mem)
    ensures r == Returned(|old(p.files)[src]|, p.faults, old(p.calls))
    ensures Got(|old(p.files)[src]|, p.faults, old(p.calls)) <= |old(p.files)[src]|
    ensures p.files == Copied(old(p.files), src, dst, Got(|old(p.files)[src]|, p.faults, old(p.calls)))
  {
    var size: nat := |p.files[src]|;
    ghost var f0, from := p.files, p.calls;
    assert f0 == Copied(f0, src, dst, 0);
    if size == 0 { return 0; }
    var total: nat := 0;
    ghost var k: nat := 0;
    while total < size
      invariant total == Min(k * WINDOW, size) && size == |f0[src]| && p.mem == old(p.mem)
      invariant k <= Windows(size) && p.calls == from + 2 * k && forall j :: 0 <= j < k ==> Survives(p.faults, from, j)
      invariant p.files == Copied(f0, src, dst, total)
      decreases size - total
    {
      var window: nat := Min(WINDOW, size - total);
      CopiedMore(f0, src, dst, total, window);
      var ok := CopyWindow(p, src, dst, total, window);
      assert Survives(p.faults, from, k) <==> Survives(p.faults, from + 2 * k, 0);
      if !ok {
        CopiesIs(p.faults, from, Windows(size), k);
        return -1;
      }
      total, k := total + window, k + 1;
    }
    CopiesIs(p.faults, from, Windows(size), k);
    r := total;
  }
}
