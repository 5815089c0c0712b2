/** Go's `<` on strings and `sort.Strings`, which cs uses in sorted (-s) mode.
    Go compares strings byte by byte; over UTF-8 that is the same order as
    comparing code points, which is what comparing Dafny characters gives. */
module Lex {

  /** a <= b in Go's string order: lexicographic, a prefix sorting first. */
  predicate LessEq(a: string, b: string)
    decreases |a|
  {
    a == [] || (b != [] && (a[0] < b[0] || (a[0] == b[0] && LessEq(a[1..], b[1..]))))
  }

  lemma {:induction false} LessEqRefl(a: string)
    ensures LessEq(a, a)
    decreases |a|
  {
    if a != [] { LessEqRefl(a[1..]); }
  }

  lemma {:induction false} LessEqTotal(a: string, b: string)
    ensures LessEq(a, b) || LessEq(b, a)
    decreases |a|
  {
    if a != [] && b != [] && a[0] == b[0] { LessEqTotal(a[1..], b[1..]); }
  }

  lemma {:induction false} LessEqAntisym(a: string, b: string)
    requires LessEq(a, b) && LessEq(b, a)
    ensures a == b
    decreases |a|
  {
    if a != [] {
      LessEqAntisym(a[1..], b[1..]);
      assert a == [a[0]] + a[1..] && b == [b[0]] + b[1..];
    }
  }

  lemma {:induction false} LessEqTrans(a: string, b: string, c: string)
    requires LessEq(a, b) && LessEq(b, c)
    ensures LessEq(a, c)
    decreases |a|
  {
    if a != [] && a[0] == b[0] && b[0] == c[0] { LessEqTrans(a[1..], b[1..], c[1..]); }
  }

  /** Every pair of positions is in order (the postcondition of sort.Strings). */
  predicate Sorted(s: seq<string>) {
    forall i, j :: 0 <= i < j < |s| ==> LessEq(s[i], s[j])
  }

  /** A reference sort on values: insertion of each element into a sorted tail. */
  function Sort(s: seq<string>): (r: seq<string>)
    ensures Sorted(r) && multiset(r) == multiset(s)
    decreases |s|
  {
    if s == [] then []
    else
      assert s == [s[0]] + s[1..];
      Insert(s[0], Sort(s[1..]))
  }

  function Insert(x: string, s: seq<string>): (r: seq<string>)
    requires Sorted(s)
    ensures Sorted(r) && multiset(r) == multiset(s) + multiset{x}
    decreases |s|
  {
    if s == [] then [x]
    else if LessEq(x, s[0]) then
      assert forall j :: 0 < j < |s| ==> LessEq(s[0], s[j]);
      InsertFront(x, s);
      [x] + s
    else
      LessEqTotal(x, s[0]);
      var t := Insert(x, s[1..]);
      assert s == [s[0]] + s[1..];
      InsertBehind(s[0], t, x, s[1..]);
      [s[0]] + t
  }

  lemma InsertFront(x: string, s: seq<string>)
    requires Sorted(s) && s != [] && LessEq(x, s[0])
    ensures Sorted([x] + s)
  {
    forall j | 0 < j < |s| ensures LessEq(x, s[j]) { LessEqTrans(x, s[0], s[j]); }
  }

  lemma InsertBehind(h: string, t: seq<string>, x: string, tail: seq<string>)
    requires Sorted(t) && LessEq(h, x)
    requires forall j :: 0 <= j < |tail| ==> LessEq(h, tail[j])
    requires multiset(t) == multiset(tail) + multiset{x}
    ensures Sorted([h] + t)
  {
    forall j | 0 <= j < |t| ensures LessEq(h, t[j]) {
      assert t[j] in multiset(t);
      if t[j] != x {
        assert t[j] in multiset(tail);
        var k :| 0 <= k < |tail| && tail[k] == t[j];
      }
    }
  }

  /** Two sorted arrangements of the same strings are identical: the output of
      a sort depends only on which strings it was given, never on their order. */
  lemma {:induction false} SortedUnique(a: seq<string>, b: seq<string>)
    requires Sorted(a) && Sorted(b) && multiset(a) == multiset(b)
    ensures a == b
    decreases |a|
  {
    if a != [] {
      assert |b| == |multiset(b)| == |a|;
      assert a[0] in multiset(b) && b[0] in multiset(a);
      HeadIsLeast(a, b[0]);
      HeadIsLeast(b, a[0]);
      LessEqAntisym(a[0], b[0]);
      Tail(a);
      Tail(b);
      SortedUnique(a[1..], b[1..]);
    }
  }

  /** Dropping the first string of a sorted sequence. */
  lemma Tail(a: seq<string>)
    requires Sorted(a) && a != []
    ensures Sorted(a[1..])
    ensures a == [a[0]] + a[1..]
    ensures multiset(a[1..]) == multiset(a) - multiset{a[0]}
  {
    assert a == [a[0]] + a[1..];
    forall i, j | 0 <= i < j < |a| - 1 ensures LessEq(a[1..][i], a[1..][j]) {
      assert a[1..][i] == a[i + 1] && a[1..][j] == a[j + 1];
    }
  }

  /** The first string of a sorted sequence is below each of its strings. */
  lemma HeadIsLeast(a: seq<string>, x: string)
    requires Sorted(a) && x in multiset(a)
    ensures LessEq(a[0], x)
  {
    var k :| 0 <= k < |a| && a[k] == x;
    if k == 0 { LessEqRefl(x); }
  }

  /** sort.Strings on a slice: afterwards the array holds the same strings,
      sorted. (Go uses pattern-defeating quicksort; any sort gives the same
      array here because strings that compare equal are equal.) */
  method SortStrings(a: array<string>)
    modifies a
    ensures a[..] == Sort(old(a[..]))
  {
    var i := 0;
    while i < a.Length
      invariant 0 <= i <= a.Length
      invariant multiset(a[..]) == old(multiset(a[..]))
      invariant Sorted(a[..i])
      invariant forall p, q :: 0 <= p < i <= q < a.Length ==> LessEq(a[p], a[q])
    {
      var m := MinIndex(a, i);
      Swap(a, i, m);
      i := i + 1;
    }
    assert a[..a.Length] == a[..];
    SortedUnique(a[..], Sort(old(a[..])));
  }

  /** One step of the sort: bring a smallest remaining string to position i. */
  method Swap(a: array<string>, i: nat, m: nat)
    requires i <= m < a.Length
    requires Sorted(a[..i])
    requires forall p, q :: 0 <= p < i <= q < a.Length ==> LessEq(a[p], a[q])
    requires forall q :: i <= q < a.Length ==> LessEq(a[m], a[q])
    modifies a
    ensures a[..] == old(a[..])[i := old(a[m])][m := old(a[i])]
    ensures multiset(a[..]) == old(multiset(a[..]))
    ensures Sorted(a[..i + 1])
    ensures forall p, q :: 0 <= p < i + 1 <= q < a.Length ==> LessEq(a[p], a[q])
  {
    ghost var b := a[..];
    a[i], a[m] := a[m], a[i];
    assert a[..] == b[i := b[m]][m := b[i]];
    ghost var done := a[..i + 1];
    forall p, q | 0 <= p < q < i + 1 ensures LessEq(done[p], done[q]) {
      if q < i { assert a[..i][p] == a[p] && a[..i][q] == a[q]; }
    }
    forall p, q | 0 <= p < i + 1 <= q < a.Length ensures LessEq(a[p], a[q]) {
      if q == m { assert a[q] == b[i]; } else { assert a[q] == b[q]; }
    }
  }

  /** Position of a smallest string among a[from..]. */
  method MinIndex(a: array<string>, from: nat) returns (m: nat)
    requires from < a.Length
    ensures from <= m < a.Length
    ensures forall q :: from <= q < a.Length ==> LessEq(a[m], a[q])
  {
    m := from;
    LessEqRefl(a[from]);
    var j := from + 1;
    while j < a.Length
      invariant from <= m < j <= a.Length
      invariant forall q :: from <= q < j ==> LessEq(a[m], a[q])
    {
      if !LessEq(a[m], a[j]) {
        LessEqTotal(a[m], a[j]);
        forall q | from <= q < j ensures LessEq(a[j], a[q]) { LessEqTrans(a[j], a[m], a[q]); }
        LessEqRefl(a[j]);
        m := j;
      }
      j := j + 1;
    }
  }
}
