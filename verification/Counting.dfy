/** Counting and summing over a sequence of which one element at a time changes. */
module Counting {

  function One(b: bool): nat {
    if b then 1 else 0
  }

  function Number<T>(s: seq<T>, p: T -> bool): nat {
    if s == [] then 0 else One(p(s[0])) + Number(s[1..], p)
  }

  lemma {:induction false} NumberUpdate<T>(s: seq<T>, i: nat, x: T, p: T -> bool)
    requires i < |s|
    ensures Number(s[i := x], p) == Number(s, p) - One(p(s[i])) + One(p(x))
    decreases |s|
  {
    if i == 0 {
      assert s[0 := x][1..] == s[1..];
    } else {
      NumberUpdate(s[1..], i - 1, x, p);
      assert s[i := x][1..] == s[1..][i - 1 := x];
    }
  }

  lemma {:induction false} NumberZero<T>(s: seq<T>, p: T -> bool)
    ensures Number(s, p) == 0 <==> forall i :: 0 <= i < |s| ==> !p(s[i])
    decreases |s|
  {
    if s != [] {
      NumberZero(s[1..], p);
      assert forall i :: 0 < i < |s| ==> s[i] == s[1..][i - 1];
      assert Number(s, p) == 0 ==> forall i :: 0 <= i < |s| ==> !p(s[i]);
    }
  }

  function Sum<T>(s: seq<T>, f: T -> nat): nat {
    if s == [] then 0 else f(s[0]) + Sum(s[1..], f)
  }

  lemma {:induction false} SumUpdate<T>(s: seq<T>, i: nat, x: T, f: T -> nat)
    requires i < |s|
    ensures Sum(s[i := x], f) + f(s[i]) == Sum(s, f) + f(x)
    decreases |s|
  {
    if i == 0 {
      assert s[0 := x][1..] == s[1..];
    } else {
      SumUpdate(s[1..], i - 1, x, f);
      assert s[i := x][1..] == s[1..][i - 1 := x];
    }
  }
}
