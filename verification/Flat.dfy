/** Concatenation of a range of parts, and what replacing one part does to it. */
module Flat {
  function Flatten<T>(parts: seq<seq<T>>, lo: nat, hi: nat): seq<T>
    requires hi <= |parts|
  {
    if hi <= lo then [] else Flatten(parts, lo, hi - 1) + parts[hi - 1]
  }

  lemma Assoc<T>(a: seq<T>, b: seq<T>, c: seq<T>)
    ensures a + b + c == a + (b + c)
  {
  }

  lemma {:induction false} FlattenSplit<T>(parts: seq<seq<T>>, lo: nat, c: nat, hi: nat)
    requires lo <= c <= hi <= |parts|
    ensures Flatten(parts, lo, hi) == Flatten(parts, lo, c) + Flatten(parts, c, hi)
  {
    if c < hi {
      FlattenSplit(parts, lo, c, hi - 1);
      Assoc(Flatten(parts, lo, c), Flatten(parts, c, hi - 1), parts[hi - 1]);
    }
  }

  lemma {:induction false} FlattenSame<T>(a: seq<seq<T>>, b: seq<seq<T>>, lo: nat, hi: nat)
    requires hi <= |a| && hi <= |b| && forall c :: lo <= c < hi ==> a[c] == b[c]
    ensures Flatten(a, lo, hi) == Flatten(b, lo, hi)
  {
    if lo < hi { FlattenSame(a, b, lo, hi - 1); }
  }

  lemma {:induction false} FlattenNone<T>(parts: seq<seq<T>>, lo: nat, hi: nat)
    requires hi <= |parts| && forall c :: lo <= c < hi ==> parts[c] == []
    ensures Flatten(parts, lo, hi) == []
  {
    if lo < hi { FlattenNone(parts, lo, hi - 1); }
  }

  /** The parts ahead of, at and behind position `c`, for any content of that part. */
  lemma FlattenAround<T>(parts: seq<seq<T>>, c: nat, x: seq<T>)
    requires c < |parts|
    ensures Flatten(parts[c := x], 0, |parts|) ==
            Flatten(parts, 0, c) + x + Flatten(parts, c + 1, |parts|)
  {
    var p := parts[c := x];
    FlattenSplit(p, 0, c + 1, |p|);
    FlattenSame(p, parts, 0, c);
    FlattenSame(p, parts, c + 1, |p|);
  }
}
