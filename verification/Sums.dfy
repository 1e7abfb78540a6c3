/** Sums over sequences. */
module Sums {
  function Total<T>(s: seq<T>, f: T -> nat): nat {
    if s == [] then 0 else Total(s[..|s|-1], f) + f(s[|s|-1])
  }

  lemma {:induction false} TotalUpdate<T>(s: seq<T>, f: T -> nat, c: nat, x: T)
    requires c < |s|
    ensures Total(s[c := x], f) + f(s[c]) == Total(s, f) + f(x)
  {
    if c == |s| - 1 {
      assert s[c := x][..|s|-1] == s[..|s|-1];
    } else {
      TotalUpdate(s[..|s|-1], f, c, x);
      assert s[c := x][..|s|-1] == s[..|s|-1][c := x];
    }
  }

  lemma {:induction false} TotalAppend<T>(s: seq<T>, t: seq<T>, f: T -> nat)
    ensures Total(s + t, f) == Total(s, f) + Total(t, f)
  {
    if t == [] {
      assert s + t == s;
    } else {
      TotalAppend(s, t[..|t|-1], f);
      assert (s + t)[..|s + t|-1] == s + t[..|t|-1];
    }
  }

  lemma {:induction false} TotalZero<T>(s: seq<T>, f: T -> nat)
    ensures Total(s, f) == 0 <==> forall c :: 0 <= c < |s| ==> f(s[c]) == 0
  {
    if s != [] {
      TotalZero(s[..|s|-1], f);
      assert forall c :: 0 <= c < |s| - 1 ==> s[..|s|-1][c] == s[c];
    }
  }
}
