/** The product of several lists, listed by an odometer: a counter with one wheel for each list. */
module Products {

  /** The product by its meaning: each element of the first list in front of each combination of the
      others. */
  function Combos(a: seq<seq<string>>): (p: seq<seq<string>>) {
    if a == [] then [[]] else Prepend(a[0], Combos(a[1..]))
  }

  function Prepend(xs: seq<string>, rest: seq<seq<string>>): (p: seq<seq<string>>) {
    if xs == [] then [] else MapCons(xs[0], rest) + Prepend(xs[1..], rest)
  }

  function MapCons(x: string, rest: seq<seq<string>>): (p: seq<seq<string>>) {
    seq(|rest|, i requires 0 <= i < |rest| => [x] + rest[i])
  }

  function Size(a: seq<seq<string>>): (n: nat) {
    if a == [] then 1 else |a[0]| * Size(a[1..])
  }

  predicate NoneEmpty(a: seq<seq<string>>) {
    forall j :: 0 <= j < |a| ==> a[j] != []
  }

  // ----- counters -----

  predicate IsCounter(a: seq<seq<string>>, n: seq<nat>) {
    |n| == |a| && forall j :: 0 <= j < |a| ==> n[j] < |a[j]|
  }

  /** What a counter shows, the last wheel counting ones. */
  function Value(a: seq<seq<string>>, n: seq<nat>): (v: nat)
    requires |n| == |a|
  {
    if a == [] then 0 else n[0] * Size(a[1..]) + Value(a[1..], n[1..])
  }

  function Picked(a: seq<seq<string>>, n: seq<nat>): (c: seq<string>)
    requires IsCounter(a, n)
  {
    seq(|a|, j requires 0 <= j < |a| => a[j][n[j]])
  }

  lemma {:induction false} SizeIsPositive(a: seq<seq<string>>)
    ensures Size(a) > 0 <==> NoneEmpty(a)
  {
    if a != [] {
      SizeIsPositive(a[1..]);
      assert NoneEmpty(a) <==> a[0] != [] && NoneEmpty(a[1..]) by {
        if a[0] != [] && NoneEmpty(a[1..]) {
          assert forall j :: 1 <= j < |a| ==> a[j] == a[1..][j - 1];
        }
      }
    }
  }

  /** A counter never shows more than there are combinations. */
  lemma {:induction false} ValueIsBelow(a: seq<seq<string>>, n: seq<nat>)
    requires IsCounter(a, n)
    ensures Value(a, n) < Size(a)
  {
    if a != [] {
      ValueIsBelow(a[1..], n[1..]);
      Below(n[0], |a[0]|, Size(a[1..]), Value(a[1..], n[1..]));
    }
  }

  lemma Below(d: nat, m: nat, size: nat, v: nat)
    requires d < m && v < size
    ensures d * size + v < m * size
  {
    assert (d + 1) * size <= m * size;
  }

  /** Two counters that show the same are the same. */
  lemma {:induction false} ValueIsUnique(a: seq<seq<string>>, n: seq<nat>, m: seq<nat>)
    requires IsCounter(a, n) && IsCounter(a, m) && Value(a, n) == Value(a, m)
    ensures n == m
  {
    if a != [] {
      ValueIsBelow(a[1..], n[1..]);
      ValueIsBelow(a[1..], m[1..]);
      SameQuotient(n[0], Value(a[1..], n[1..]), m[0], Value(a[1..], m[1..]), Size(a[1..]));
      ValueIsUnique(a[1..], n[1..], m[1..]);
      assert n == [n[0]] + n[1..] && m == [m[0]] + m[1..];
    }
  }

  lemma SameQuotient(d: nat, v: nat, e: nat, w: nat, size: nat)
    requires v < size && w < size && d * size + v == e * size + w
    ensures d == e && v == w
  {
    if d < e {
      Below(d, e, size, v);
    } else if e < d {
      Below(e, d, size, w);
    }
  }

  // ----- the combinations by number -----

  lemma {:induction false} PrependAt(xs: seq<string>, rest: seq<seq<string>>, d: nat, v: nat)
    requires d < |xs| && v < |rest|
    ensures |Prepend(xs, rest)| == |xs| * |rest| && d * |rest| + v < |xs| * |rest|
    ensures Prepend(xs, rest)[d * |rest| + v] == [xs[d]] + rest[v]
  {
    PrependSize(xs, rest);
    Below(d, |xs|, |rest|, v);
    if d > 0 {
      PrependAt(xs[1..], rest, d - 1, v);
      assert d * |rest| + v == |rest| + ((d - 1) * |rest| + v);
    }
  }

  lemma {:induction false} PrependSize(xs: seq<string>, rest: seq<seq<string>>)
    ensures |Prepend(xs, rest)| == |xs| * |rest|
  {
    if xs != [] {
      PrependSize(xs[1..], rest);
      assert |xs| * |rest| == |rest| + |xs[1..]| * |rest|;
    }
  }

  lemma {:induction false} CombosSize(a: seq<seq<string>>)
    ensures |Combos(a)| == Size(a)
  {
    if a != [] {
      CombosSize(a[1..]);
      PrependSize(a[0], Combos(a[1..]));
    }
  }

  /** The combination with a number is the one that the counter with that number picks. */
  lemma {:induction false} ComboAt(a: seq<seq<string>>, n: seq<nat>)
    requires IsCounter(a, n)
    ensures Value(a, n) < |Combos(a)| && Combos(a)[Value(a, n)] == Picked(a, n)
  {
    ValueIsBelow(a, n);
    CombosSize(a);
    if a != [] {
      CombosSize(a[1..]);
      ComboAt(a[1..], n[1..]);
      ValueIsBelow(a[1..], n[1..]);
      PrependAt(a[0], Combos(a[1..]), n[0], Value(a[1..], n[1..]));
      assert Picked(a, n) == [a[0][n[0]]] + Picked(a[1..], n[1..]);
    }
  }

  /** Every number below the size is shown by some counter. */
  lemma {:induction false} ValueIsOnto(a: seq<seq<string>>, v: nat) returns (n: seq<nat>)
    requires v < Size(a)
    ensures IsCounter(a, n) && Value(a, n) == v
  {
    if a == [] {
      n := [];
    } else {
      var size := Size(a[1..]);
      var d, w := Quotient(v, |a[0]|, size);
      var rest := ValueIsOnto(a[1..], w);
      n := [d] + rest;
      assert n[1..] == rest;
      assert forall j :: 1 <= j < |a| ==> a[j] == a[1..][j - 1] && n[j] == rest[j - 1];
    }
  }

  lemma Quotient(v: nat, m: nat, size: nat) returns (d: nat, w: nat)
    requires v < m * size
    ensures d < m && w < size && d * size + w == v
  {
    assert size > 0;
    d, w := v / size, v % size;
    assert (d - m) * size == d * size - m * size < 0;
    Negative(d - m, size);
  }

  lemma Negative(x: int, size: nat)
    requires x * size < 0
    ensures x < 0
  {
  }

  ghost predicate IsShown(a: seq<seq<string>>, i: nat) {
    exists n :: IsCounter(a, n) && Value(a, n) == i
  }

  /** Each way of choosing one element from every list is listed exactly once: choices and positions in
      the list correspond one to one. */
  lemma EachChoiceOnce(a: seq<seq<string>>)
    ensures forall n :: IsCounter(a, n) ==> Value(a, n) < |Combos(a)| && Combos(a)[Value(a, n)] == Picked(a, n)
    ensures forall n, m :: IsCounter(a, n) && IsCounter(a, m) && Value(a, n) == Value(a, m) ==> n == m
    ensures forall i: nat :: i < |Combos(a)| ==> IsShown(a, i)
  {
    forall n | IsCounter(a, n)
      ensures Value(a, n) < |Combos(a)| && Combos(a)[Value(a, n)] == Picked(a, n)
    {
      ComboAt(a, n);
    }
    forall n, m | IsCounter(a, n) && IsCounter(a, m) && Value(a, n) == Value(a, m)
      ensures n == m
    {
      ValueIsUnique(a, n, m);
    }
    CombosSize(a);
    forall i: nat | i < |Combos(a)|
      ensures IsShown(a, i)
    {
      var n := ValueIsOnto(a, i);
    }
  }

  // ----- the odometer -----

  /** Wheels from k on stand at their last element, or at their first. */
  predicate AtEnd(a: seq<seq<string>>, n: seq<nat>, k: nat)
    requires |n| == |a|
  {
    forall j :: k <= j < |a| ==> n[j] + 1 == |a[j]|
  }

  predicate AtStart(n: seq<nat>, k: nat) {
    forall j :: k <= j < |n| ==> n[j] == 0
  }

  lemma {:induction false} StartShowsNothing(a: seq<seq<string>>, n: seq<nat>)
    requires |n| == |a| && AtStart(n, 0)
    ensures Value(a, n) == 0
  {
    if a != [] {
      StartShowsNothing(a[1..], n[1..]);
    }
  }

  lemma {:induction false} EndShowsAll(a: seq<seq<string>>, n: seq<nat>)
    requires |n| == |a| && AtEnd(a, n, 0)
    ensures Value(a, n) + 1 == Size(a)
  {
    if a != [] {
      EndShowsAll(a[1..], n[1..]);
      assert (n[0] + 1) * Size(a[1..]) == n[0] * Size(a[1..]) + Size(a[1..]);
    }
  }

  /** Turning wheel k by one, with all wheels behind it going from their last element to their first,
      counts one on. */
  lemma {:induction false} TurnCountsOne(a: seq<seq<string>>, n: seq<nat>, m: seq<nat>, k: nat)
    requires |n| == |m| == |a| && k < |a| && n[..k] == m[..k] && m[k] == n[k] + 1
    requires AtEnd(a, n, k + 1) && AtStart(m, k + 1)
    ensures Value(a, m) == Value(a, n) + 1
    decreases k
  {
    if k == 0 {
      EndShowsAll(a[1..], n[1..]);
      StartShowsNothing(a[1..], m[1..]);
      assert (n[0] + 1) * Size(a[1..]) == n[0] * Size(a[1..]) + Size(a[1..]);
    } else {
      assert n[0] == n[..k][0] == m[0];
      assert n[1..][..k - 1] == n[..k][1..] == m[1..][..k - 1];
      TurnCountsOne(a[1..], n[1..], m[1..], k - 1);
    }
  }

  /** The next counter, unless this was the last one. */
  method Turn(a: seq<seq<string>>, n: array<nat>)
    requires IsCounter(a, n[..]) && NoneEmpty(a)
    modifies n
    ensures IsCounter(a, n[..])
    ensures Value(a, old(n[..])) + 1 < Size(a) ==> Value(a, n[..]) == Value(a, old(n[..])) + 1
  {
    ghost var before := n[..];
    var j := n.Length - 1;
    while j >= 0
      invariant -1 <= j < n.Length && IsCounter(a, n[..])
      invariant n[..j + 1] == before[..j + 1] && AtStart(n[..], j + 1) && AtEnd(a, before, j + 1)
    {
      assert n[..j + 1][j] == before[..j + 1][j];
      n[j] := n[j] + 1;
      if n[j] < |a[j]| {
        assert n[..j] == before[..j];
        TurnCountsOne(a, before, n[..], j);
        return;
      }
      n[j] := 0;
      assert n[..j] == before[..j];
      j := j - 1;
    }
    EndShowsAll(a, before);
  }

  /** All combinations, or nothing if some list is empty. */
  method Product(a: seq<seq<string>>) returns (p: seq<seq<string>>)
    ensures p == Combos(a)
  {
    SizeIsPositive(a);
    CombosSize(a);
    var c := Count(a);
    if c == 0 {
      return [];
    }
    var n := new nat[|a|](_ => 0);
    StartShowsNothing(a, n[..]);
    p := [];
    while |p| < c
      invariant |p| <= c && p == Combos(a)[..|p|] && IsCounter(a, n[..])
      invariant |p| < c ==> Value(a, n[..]) == |p|
      decreases c - |p|
    {
      ComboAt(a, n[..]);
      p := p + [Picked(a, n[..])];
      Turn(a, n);
    }
  }

  method Count(a: seq<seq<string>>) returns (c: nat)
    ensures c == Size(a)
  {
    c := 1;
    for i := 0 to |a|
      invariant c * Size(a[i..]) == Size(a)
    {
      assert a[i..][1..] == a[i + 1..];
      assert c * (|a[i]| * Size(a[i + 1..])) == (c * |a[i]|) * Size(a[i + 1..]);
      c := c * |a[i]|;
    }
  }
}
