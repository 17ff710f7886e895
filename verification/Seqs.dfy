/** Searching and concatenating sequences. */
module Seqs {
  function Concat<T>(parts: seq<seq<T>>): seq<T> {
    if parts == [] then [] else parts[0] + Concat(parts[1..])
  }

  lemma Associate<T>(a: seq<T>, b: seq<T>, c: seq<T>)
    ensures a + (b + c) == (a + b) + c
  {
  }

  lemma HeadAndTail<T>(s: seq<T>)
    requires s != []
    ensures s == [s[0]] + s[1..]
  {
  }

  lemma FrontAndLast<T>(s: seq<T>)
    requires s != []
    ensures s == s[..|s| - 1] + [s[|s| - 1]]
  {
  }

  lemma OnlyMember<T>(s: seq<T>, x: T)
    requires |s| == 1 && x in s
    ensures s == [x]
  {
  }

  /** Cutting a concatenation inside its front. */
  lemma CutFront<T>(s: seq<T>, t: seq<T>, n: nat)
    requires n <= |s|
    ensures (s + t)[..n] == s[..n] && (s + t)[n..] == s[n..] + t
  {
  }

  /** Cutting a cut. */
  lemma Slices<T>(s: seq<T>, i: nat, w: nat)
    requires i + w <= |s|
    ensures s[i..][w..] == s[i + w..] && s[i..][..w] == s[i..i + w]
  {
  }

  lemma CutAt<T>(s: seq<T>, i: nat, j: nat)
    requires i <= j <= |s|
    ensures s[i..] == s[i..j] + s[j..]
  {
  }

  /** A sequence behind another, cut around one place. */
  lemma CutAround<T>(front: seq<T>, s: seq<T>, k: nat)
    requires k < |s|
    ensures front + s[..k] + [s[k]] + s[k + 1..] == front + s
  {
  }

  lemma SameMembers<T>(s: seq<T>, t: seq<T>)
    requires multiset(s) == multiset(t)
    ensures forall x :: x in s <==> x in t
  {
    assert forall x :: x in s <==> x in multiset(t);
  }

  lemma FrontBehindHead<T>(s: seq<T>, w: nat)
    requires 1 <= w <= |s|
    ensures s[..w] == [s[0]] + s[1..][..w - 1] && s[1..][w - 1..] == s[w..]
  {
  }

  /** Equal in front of `n` and behind it. */
  lemma EqualHalves<T>(s: seq<T>, t: seq<T>, n: nat)
    requires n <= |s| && n <= |t| && s[..n] == t[..n] && s[n..] == t[n..]
    ensures s == t
  {
    assert s == s[..n] + s[n..] && t == t[..n] + t[n..];
  }

  lemma {:induction false} ConcatOfTwo<T>(front: seq<seq<T>>, back: seq<seq<T>>)
    ensures Concat(front + back) == Concat(front) + Concat(back)
  {
    if front == [] {
      assert front + back == back;
    } else {
      assert (front + back)[1..] == front[1..] + back;
      ConcatOfTwo(front[1..], back);
      Associate(front[0], Concat(front[1..]), Concat(back));
    }
  }

  lemma ConcatOfOne<T>(last: seq<T>)
    ensures Concat([last]) == last
  {
    assert Concat([last]) == last + Concat<T>([]);
  }

  lemma ConcatAppend<T>(parts: seq<seq<T>>, last: seq<T>)
    ensures Concat(parts + [last]) == Concat(parts) + last
  {
    ConcatOfTwo(parts, [last]);
    ConcatOfOne(last);
  }

  /** First place of an element, or the length. */
  function IndexOf<T(==)>(s: seq<T>, x: T): (i: nat)
    ensures i <= |s|
    ensures i < |s| ==> s[i] == x
    ensures forall k :: 0 <= k < i ==> s[k] != x
  {
    if s == [] then 0 else if s[0] == x then 0 else 1 + IndexOf(s[1..], x)
  }

  /** Last place of an element, or -1. */
  function LastIndexOf<T(==)>(s: seq<T>, x: T): (i: int)
    ensures -1 <= i < |s|
    ensures i >= 0 ==> s[i] == x
    ensures forall k :: i < k < |s| ==> s[k] != x
  {
    if s == [] then -1
    else if s[|s| - 1] == x then |s| - 1
    else LastIndexOf(s[..|s| - 1], x)
  }
}
