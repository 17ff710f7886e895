/** Regular expressions with the meaning a backtracking matcher gives them. */
module Regex {
  import opened Seqs

  datatype Regex = Lit(c: char) | Any | NotIn(cs: set<char>)
                 | Then(first: Regex, second: Regex) | Or(left: Regex, right: Regex) | Star(body: Regex)

  /** The widths of the matches at the front of a text, in the order a matcher tries them; the match
      is the first. `Star` is greedy and does not repeat an empty match. */
  function Widths(r: Regex, t: string): (ws: seq<nat>)
    ensures forall k :: 0 <= k < |ws| ==> ws[k] <= |t|
    decreases r, |t|, 1, 0
  {
    match r
    case Lit(c) => if t != "" && t[0] == c then [1] else []
    case Any => if t != "" then [1] else []
    case NotIn(cs) => if t != "" && t[0] !in cs then [1] else []
    case Then(a, b) => Behind(Widths(a, t), b, t)
    case Or(a, b) => Widths(a, t) + Widths(b, t)
    case Star(a) => Again(Widths(a, t), r, t) + [0]
  }

  function Plus(n: nat, ws: seq<nat>): (sums: seq<nat>)
    ensures |sums| == |ws| && forall k :: 0 <= k < |ws| ==> sums[k] == n + ws[k]
  {
    seq(|ws|, k requires 0 <= k < |ws| => n + ws[k])
  }

  /** Each first width followed by each match of `b` behind it. */
  function Behind(firsts: seq<nat>, b: Regex, t: string): (ws: seq<nat>)
    requires forall k :: 0 <= k < |firsts| ==> firsts[k] <= |t|
    ensures forall k :: 0 <= k < |ws| ==> ws[k] <= |t|
    decreases b, |t|, 2, |firsts|
  {
    if firsts == [] then []
    else Plus(firsts[0], Widths(b, t[firsts[0]..])) + Behind(firsts[1..], b, t)
  }

  function Again(firsts: seq<nat>, r: Regex, t: string): (ws: seq<nat>)
    requires r.Star? && forall k :: 0 <= k < |firsts| ==> firsts[k] <= |t|
    ensures forall k :: 0 <= k < |ws| ==> ws[k] <= |t|
    decreases r, |t|, 0, |firsts|
  {
    if firsts == [] then []
    else
      (if firsts[0] == 0 then [] else Plus(firsts[0], Widths(r, t[firsts[0]..]))) + Again(firsts[1..], r, t)
  }

  // --- Laws ------------------------------------------------------------------------------------

  lemma BehindOne(n: nat, b: Regex, t: string)
    requires n <= |t|
    ensures Behind([n], b, t) == Plus(n, Widths(b, t[n..]))
  {
    assert [n][1..] == [];
    assert Behind([n], b, t) == Plus(n, Widths(b, t[n..])) + [];
  }

  lemma AgainOne(n: nat, r: Regex, t: string)
    requires r.Star? && 0 < n <= |t|
    ensures Again([n], r, t) == Plus(n, Widths(r, t[n..]))
  {
    assert [n][1..] == [];
    assert Again([n], r, t) == Plus(n, Widths(r, t[n..])) + [];
  }

  lemma BehindCons(n: nat, more: seq<nat>, b: Regex, t: string)
    requires n <= |t| && forall k :: 0 <= k < |more| ==> more[k] <= |t|
    ensures Behind([n] + more, b, t) == Plus(n, Widths(b, t[n..])) + Behind(more, b, t)
  {
    assert ([n] + more)[1..] == more;
  }

  /** One character and then the rest. */
  lemma LitThen(c: char, b: Regex, t: string)
    ensures Widths(Then(Lit(c), b), t) == if t != "" && t[0] == c then Plus(1, Widths(b, t[1..])) else []
  {
    if t != "" && t[0] == c {
      BehindOne(1, b, t);
    }
  }

  lemma {:induction false} BehindTwo(x: seq<nat>, y: seq<nat>, b: Regex, t: string)
    requires forall k :: 0 <= k < |x| ==> x[k] <= |t|
    requires forall k :: 0 <= k < |y| ==> y[k] <= |t|
    ensures Behind(x + y, b, t) == Behind(x, b, t) + Behind(y, b, t)
  {
    if x == [] {
      assert x + y == y;
    } else {
      var n, more := x[0], x[1..];
      BehindTwo(more, y, b, t);
      HeadAndTail(x);
      Associate([n], more, y);
      BehindCons(n, more + y, b, t);
      BehindCons(n, more, b, t);
      Associate(Plus(x[0], Widths(b, t[x[0]..])), Behind(x[1..], b, t), Behind(y, b, t));
    }
  }

  lemma {:induction false} BehindShifted(n: nat, ws: seq<nat>, b: Regex, t: string)
    requires n <= |t| && forall k :: 0 <= k < |ws| ==> ws[k] <= |t| - n
    ensures Behind(Plus(n, ws), b, t) == Plus(n, Behind(ws, b, t[n..]))
  {
    if ws == [] {
    } else {
      var w := ws[0];
      BehindShifted(n, ws[1..], b, t);
      assert Plus(n, ws)[1..] == Plus(n, ws[1..]);
      Slices(t, n, w);
      assert Plus(n + w, Widths(b, t[n + w..])) == Plus(n, Plus(w, Widths(b, t[n..][w..])));
      PlusOfTwo(n, Plus(w, Widths(b, t[n..][w..])), Behind(ws[1..], b, t[n..]));
    }
  }

  lemma PlusOfTwo(n: nat, x: seq<nat>, y: seq<nat>)
    ensures Plus(n, x + y) == Plus(n, x) + Plus(n, y)
  {
  }

  /** A repetition whose body matches one way at most, and then the rest. */
  lemma StarThen(a: Regex, b: Regex, t: string)
    requires Widths(a, t) == [] || (|Widths(a, t)| == 1 && Widths(a, t)[0] > 0)
    ensures Widths(Then(Star(a), b), t) ==
      (if Widths(a, t) == [] then [] else Plus(Widths(a, t)[0], Widths(Then(Star(a), b), t[Widths(a, t)[0]..])))
      + Widths(b, t)
  {
    var r, ws := Star(a), Widths(a, t);
    BehindOne(0, b, t);
    assert t[0..] == t && Plus(0, Widths(b, t)) == Widths(b, t);
    if ws == [] {
      assert Again(ws, r, t) + [0] == [0];
    } else {
      var n := ws[0];
      assert ws == [n];
      AgainOne(n, r, t);
      BehindTwo(Again(ws, r, t), [0], b, t);
      BehindShifted(n, Widths(r, t[n..]), b, t);
    }
  }

  /** How far a greedy repetition goes first. */
  lemma StarFirst(a: Regex, t: string)
    requires Widths(a, t) == [] || (|Widths(a, t)| == 1 && Widths(a, t)[0] > 0)
    ensures Widths(Star(a), t) != []
    ensures Widths(Star(a), t)[0] ==
      if Widths(a, t) == [] then 0
      else
        var n := Widths(a, t)[0];
        n + (if Widths(Star(a), t[n..]) == [] then 0 else Widths(Star(a), t[n..])[0])
  {
    var ws := Widths(a, t);
    if ws != [] {
      assert ws == [ws[0]];
      AgainOne(ws[0], Star(a), t);
      assert Widths(Star(a), t[ws[0]..]) != [];
    }
  }

  /** Where the body and what follows the repetition cannot both match. */
  lemma StarThenHere(a: Regex, b: Regex, t: string)
    requires Widths(a, t) == [] || (|Widths(a, t)| == 1 && Widths(a, t)[0] > 0 && Widths(b, t) == [])
    ensures Widths(Then(Star(a), b), t) ==
      if Widths(a, t) == [] then Widths(b, t)
      else Plus(Widths(a, t)[0], Widths(Then(Star(a), b), t[Widths(a, t)[0]..]))
  {
    StarThen(a, b, t);
    if Widths(a, t) == [] {
      assert [] + Widths(b, t) == Widths(b, t);
    } else {
      var more := Plus(Widths(a, t)[0], Widths(Then(Star(a), b), t[Widths(a, t)[0]..]));
      assert more + [] == more;
    }
  }

  lemma FirstOfTwo(a: Regex, b: Regex, t: string)
    ensures var (x, y, all) := (Widths(a, t), Widths(b, t), Widths(Or(a, b), t));
      && (all == [] <==> x == [] && y == [])
      && (all != [] ==> all[0] == if x != [] then x[0] else y[0])
  {
  }

  /** Of alternatives the first that matches. */
  lemma FirstOfFour(a: Regex, b: Regex, c: Regex, d: Regex, t: string)
    ensures var (i, j, k, l) := (Widths(a, t), Widths(b, t), Widths(c, t), Widths(d, t));
      var all := Widths(Or(a, Or(b, Or(c, d))), t);
      && (all == [] <==> i == [] && j == [] && k == [] && l == [])
      && (all != [] ==> all[0] == if i != [] then i[0] else if j != [] then j[0] else if k != [] then k[0] else l[0])
  {
    var cd := Or(c, d);
    var bcd := Or(b, cd);
    FirstOfTwo(c, d, t);
    FirstOfTwo(b, cd, t);
    FirstOfTwo(a, bcd, t);
  }
}
