/** Files as byte sequences, with the positioned reads and writes every broadcast is built from. */
module Files {
  newtype Byte = x: int | 0 <= x < 256
  type Bytes = seq<Byte>

  function Min(a: int, b: int): int { if a < b then a else b }

  /** What a positioned read of `len` bytes at `off` returns: it stops at the end of the file. */
  function Pread(f: Bytes, off: nat, len: nat): Bytes {
    f[Min(off, |f|)..Min(off + len, |f|)]
  }

  /** A positioned write: a gap past the end reads back as zeros, an empty write changes nothing. */
  function Pwrite(f: Bytes, off: nat, d: Bytes): (r: Bytes)
    ensures d != [] ==> |r| == if |f| < off + |d| then off + |d| else |f|
  {
    if d == [] then f
    else
      var padded := if |f| < off then f + seq(off - |f|, _ => 0) else f;
      padded[..off] + d + padded[Min(off + |d|, |padded|)..]
  }

  /** `f` agrees with `input` on the positions from `lo` up to `hi`. */
  ghost predicate Holds(f: Bytes, input: Bytes, lo: nat, hi: nat) {
    lo <= hi <= |f| && hi <= |input| && forall k :: lo <= k < hi ==> f[k] == input[k]
  }

  /** Every byte of a written file is new data, an old byte, or a zero of the gap. */
  lemma PwriteAt(f: Bytes, off: nat, d: Bytes, k: nat)
    requires d != [] && k < |Pwrite(f, off, d)|
    ensures Pwrite(f, off, d)[k] ==
            if off <= k < off + |d| then d[k - off] else if k < |f| then f[k] else 0
  {
  }

  /** Copying a range of `input` to its own place delivers the range and spoils none delivered before. */
  lemma PwriteOwn(f: Bytes, input: Bytes, a: nat, b: nat)
    requires a < b <= |input| && |f| <= |input|
    ensures var r := Pwrite(f, a, input[a..b]);
            && |f| <= |r| <= |input| && Holds(r, input, a, b)
            && forall lo, hi :: Holds(f, input, lo, hi) ==> Holds(r, input, lo, hi)
  {
    var r := Pwrite(f, a, input[a..b]);
    forall k | 0 <= k < |r|
      ensures r[k] == if a <= k < b then input[k] else if k < |f| then f[k] else 0
    {
      PwriteAt(f, a, input[a..b], k);
    }
  }

  lemma HoldsJoin(f: Bytes, input: Bytes, a: nat, b: nat, c: nat)
    requires Holds(f, input, a, b) && Holds(f, input, b, c)
    ensures Holds(f, input, a, c)
  {
  }

  lemma HoldsAll(f: Bytes, input: Bytes)
    requires Holds(f, input, 0, |input|) && |f| <= |input|
    ensures f == input
  {
  }

  // ---- scatter / gather over iovecs ----

  function Sum(lens: seq<nat>): nat {
    if lens == [] then 0 else lens[0] + Sum(lens[1..])
  }

  /** preadv: deal the bytes out over the blocks, in order. */
  function Scatter(d: Bytes, lens: seq<nat>): (blocks: seq<Bytes>) {
    if lens == [] then []
    else
      var k := Min(lens[0], |d|);
      [d[..k]] + Scatter(d[k..], lens[1..])
  }

  /** pwritev: the blocks, one after the other. */
  function Gather(blocks: seq<Bytes>): Bytes {
    if blocks == [] then [] else blocks[0] + Gather(blocks[1..])
  }

  lemma {:induction false} GatherScatter(d: Bytes, lens: seq<nat>)
    requires Sum(lens) == |d|
    ensures Gather(Scatter(d, lens)) == d
  {
    if lens != [] {
      var k := lens[0];
      assert Sum(lens) == k + Sum(lens[1..]);
      GatherScatter(d[k..], lens[1..]);
      assert Scatter(d, lens)[1..] == Scatter(d[k..], lens[1..]);
    } else {
      assert d == [];
    }
  }

  lemma {:induction false} SumAppend(lens: seq<nat>, x: nat)
    ensures Sum(lens + [x]) == Sum(lens) + x
  {
    if lens != [] {
      SumAppend(lens[1..], x);
      assert (lens + [x])[1..] == lens[1..] + [x];
    }
  }
}
