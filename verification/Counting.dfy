/** Counting the tasks of a protocol that are in some kind of state. */
module Counting {

  function Count<T>(s: seq<T>, p: T -> bool): nat {
    if s == [] then 0 else (if p(s[0]) then 1 else 0) + Count(s[1..], p)
  }

  /** Changing one element changes the count by that element alone. */
  lemma {:induction false} CountChanges<T>(s: seq<T>, i: nat, x: T, p: T -> bool)
    requires i < |s|
    ensures Count(s[i := x], p) + (if p(s[i]) then 1 else 0) == Count(s, p) + (if p(x) then 1 else 0)
  {
    if i == 0 {
      assert s[i := x][1..] == s[1..];
    } else {
      assert s[i := x][1..] == s[1..][i - 1 := x];
      CountChanges(s[1..], i - 1, x, p);
    }
  }

  /** The last element adds to the count by itself. */
  lemma {:induction false} CountLast<T>(s: seq<T>, p: T -> bool)
    requires s != []
    ensures Count(s, p) == Count(s[..|s| - 1], p) + if p(s[|s| - 1]) then 1 else 0
  {
    if |s| > 1 {
      assert s[1..][..|s| - 2] == s[..|s| - 1][1..];
      CountLast(s[1..], p);
    }
  }

  /** Two different elements that count make a count of two. */
  lemma {:induction false} CountTwo<T>(s: seq<T>, i: nat, j: nat, p: T -> bool)
    requires i < j < |s| && p(s[i]) && p(s[j])
    ensures 2 <= Count(s, p)
  {
    if i == 0 {
      CountOne(s[1..], j - 1, p);
    } else {
      CountTwo(s[1..], i - 1, j - 1, p);
    }
  }

  lemma {:induction false} CountOne<T>(s: seq<T>, i: nat, p: T -> bool)
    requires i < |s| && p(s[i])
    ensures 1 <= Count(s, p)
  {
    if i != 0 {
      CountOne(s[1..], i - 1, p);
    }
  }

  lemma {:induction false} CountNone<T>(s: seq<T>, p: T -> bool)
    ensures Count(s, p) == 0 <==> forall i :: 0 <= i < |s| ==> !p(s[i])
  {
    if s != [] {
      CountNone(s[1..], p);
      assert (forall i :: 0 <= i < |s| ==> !p(s[i])) <==> !p(s[0]) && forall i :: 0 <= i < |s[1..]| ==> !p(s[1..][i]);
    }
  }
}
