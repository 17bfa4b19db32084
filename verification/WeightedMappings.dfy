/** Weighted subject mappings: percentages are turned into running sums of bytes, and a draw out of a
    hundred picks the first destination whose sum lies above it. */
module WeightedShares {
  import opened Basics

  type Byte = x: int | 0 <= x < 256

  datatype Destination = Destination(subject: string, weight: Byte)

  function Plus8(a: Byte, b: Byte): (c: Byte)
    ensures a + b < 256 ==> c == a + b
  {
    (a + b) % 256
  }

  function Total(s: seq<Destination>): (n: nat) {
    if s == [] then 0 else s[0].weight + Total(s[1..])
  }

  predicate Distinct(s: seq<Destination>) {
    forall i, j :: 0 <= i < j < |s| ==> s[i].subject != s[j].subject
  }

  predicate Lists(s: seq<Destination>, x: string) {
    exists i :: 0 <= i < |s| && s[i].subject == x
  }

  predicate Sorted(s: seq<Destination>) {
    forall i, j :: 0 <= i < j < |s| ==> s[i].weight <= s[j].weight
  }

  /** Running sums, on top of what came before. */
  function Cumulated(s: seq<Destination>, before: nat): (c: seq<Destination>)
    requires before + Total(s) < 256
  {
    if s == [] then []
    else [s[0].(weight := before + s[0].weight)] + Cumulated(s[1..], before + s[0].weight)
  }

  /** The first destination whose running sum is above the draw. */
  function Chosen(c: seq<Destination>, w: nat): (r: Option<string>) {
    if c == [] then None
    else if w < c[0].weight then Some(c[0].subject)
    else Chosen(c[1..], w)
  }

  /** The draws out of a hundred that pick a destination. */
  function Draws(c: seq<Destination>, r: Option<string>): (ws: set<nat>) {
    set w: nat | w < 100 && Chosen(c, w) == r
  }

  // ----- sums do not depend on the order -----

  lemma {:induction false} TotalAppend(s: seq<Destination>, t: seq<Destination>)
    ensures Total(s + t) == Total(s) + Total(t)
  {
    if s == [] {
      assert s + t == t;
    } else {
      TotalAppend(s[1..], t);
      assert (s + t)[1..] == s[1..] + t;
    }
  }

  function Without(t: seq<Destination>, i: nat): (rest: seq<Destination>)
    requires i < |t|
    ensures |rest| == |t| - 1
  {
    t[..i] + t[i + 1..]
  }

  lemma WithoutOne(t: seq<Destination>, i: nat)
    requires i < |t|
    ensures multiset(Without(t, i)) == multiset(t) - multiset{t[i]}
  {
    assert t == t[..i] + [t[i]] + t[i + 1..];
  }

  lemma {:induction false} TotalWithout(t: seq<Destination>, i: nat)
    requires i < |t|
    ensures Total(t) == t[i].weight + Total(Without(t, i))
    decreases i
  {
    if i == 0 {
      assert Without(t, 0) == t[1..];
    } else {
      TotalWithout(t[1..], i - 1);
      assert Without(t, i)[1..] == Without(t[1..], i - 1);
    }
  }

  lemma {:induction false} TotalOfPermutation(s: seq<Destination>, t: seq<Destination>)
    requires multiset(s) == multiset(t)
    ensures Total(s) == Total(t)
    decreases |s|
  {
    hide Total, Without;
    assert |multiset(s)| == |s| && |multiset(t)| == |t|;
    if s != [] {
      assert s[0] in multiset(s);
      var i :| 0 <= i < |t| && t[i] == s[0];
      WithoutOne(t, i);
      WithoutOne(s, 0);
      TotalWithout(t, i);
      TotalWithout(s, 0);
      TotalOfPermutation(Without(s, 0), Without(t, i));
    }
  }

  lemma DistinctPermutation(s: seq<Destination>, t: seq<Destination>)
    requires multiset(s) == multiset(t) && Distinct(s)
    ensures Distinct(t)
  {
    forall i, j | 0 <= i < j < |t|
      ensures t[i].subject != t[j].subject
    {
      if t[i].subject == t[j].subject {
        assert t[i] in multiset(t) && t[j] in multiset(t);
        assert t[i] in s && t[j] in s;
        assert t[i] == t[j];
        OnceIn(s, t[i]);
        TwiceIn(t, i, j);
      }
    }
  }

  lemma TwiceIn(t: seq<Destination>, i: int, j: int)
    requires 0 <= i < j < |t| && t[i] == t[j]
    ensures multiset(t)[t[i]] >= 2
  {
    assert t == t[..j] + [t[j]] + t[j + 1..];
    assert t[..j] == t[..i] + [t[i]] + t[i + 1..j];
  }

  lemma {:induction false} OnceIn(s: seq<Destination>, d: Destination)
    requires Distinct(s)
    ensures multiset(s)[d] <= 1
  {
    if s != [] {
      OnceIn(s[1..], d);
      assert s == [s[0]] + s[1..];
      if s[0] == d {
        assert d !in s[1..];
      }
    }
  }

  // ----- each destination gets its share -----

  function Range(lo: nat, hi: nat): (r: set<nat>)
    requires lo <= hi
    ensures (forall w :: w in r <==> lo <= w < hi) && |r| == hi - lo
    decreases hi - lo
  {
    if lo == hi then {} else {lo} + Range(lo + 1, hi)
  }

  function DrawsFrom(c: seq<Destination>, r: Option<string>, from: nat): (ws: set<nat>) {
    set w: nat | from <= w < 100 && Chosen(c, w) == r
  }

  lemma {:induction false} ShareFrom(s: seq<Destination>, before: nat, x: string)
    requires Distinct(s) && before + Total(s) <= 100
    ensures !Lists(s, x) ==> DrawsFrom(Cumulated(s, before), Some(x), before) == {}
    ensures forall i :: 0 <= i < |s| && s[i].subject == x ==>
              |DrawsFrom(Cumulated(s, before), Some(x), before)| == s[i].weight
  {
    if s != [] {
      var first, next := s[0], before + s[0].weight;
      var c, rest := Cumulated(s, before), Cumulated(s[1..], next);
      assert c[1..] == rest;
      ShareFrom(s[1..], next, x);
      assert forall i :: 1 <= i < |s| ==> s[i] == s[1..][i - 1];
      if first.subject == x {
        assert !Lists(s[1..], x);
        assert DrawsFrom(c, Some(x), before) == Range(before, next) by {
          forall w: nat | next <= w < 100
            ensures Chosen(c, w) != Some(x)
          {
            assert w !in DrawsFrom(rest, Some(x), next);
          }
        }
      } else {
        assert DrawsFrom(c, Some(x), before) == DrawsFrom(rest, Some(x), next);
        assert Lists(s, x) ==> Lists(s[1..], x);
      }
    }
  }

  lemma {:induction false} LostFrom(s: seq<Destination>, before: nat, w: nat)
    requires before + Total(s) <= 100 && before <= w < 100
    ensures Chosen(Cumulated(s, before), w) == None <==> w >= before + Total(s)
  {
    if s != [] {
      var next := before + s[0].weight;
      assert Cumulated(s, before)[1..] == Cumulated(s[1..], next);
      if w >= next {
        LostFrom(s[1..], next, w);
      }
    }
  }

  /** However the destinations are sorted, each is picked by exactly its weight out of the hundred
      draws, and the draws beyond the sum of the weights pick none. */
  lemma SharesAreWeights(s: seq<Destination>, sorted: seq<Destination>)
    requires Distinct(s) && Total(s) <= 100 && multiset(sorted) == multiset(s)
    ensures Total(sorted) == Total(s)
    ensures forall d :: d in s ==> |Draws(Cumulated(sorted, 0), Some(d.subject))| == d.weight
    ensures Draws(Cumulated(sorted, 0), None) == Range(Total(s), 100)
  {
    TotalOfPermutation(sorted, s);
    DistinctPermutation(s, sorted);
    var c := Cumulated(sorted, 0);
    forall d | d in s
      ensures |Draws(c, Some(d.subject))| == d.weight
    {
      assert d in multiset(sorted);
      var i :| 0 <= i < |sorted| && sorted[i] == d;
      ShareFrom(sorted, 0, d.subject);
      assert Draws(c, Some(d.subject)) == DrawsFrom(c, Some(d.subject), 0);
    }
    forall w: nat | w < 100
      ensures Chosen(c, w) == None <==> w >= Total(s)
    {
      LostFrom(sorted, 0, w);
    }
  }

  /** A single destination with the whole weight is picked by every draw. */
  lemma SingleIsChosen(c: seq<Destination>, w: nat)
    requires |c| == 1 && c[0].weight == 100 && w < 100
    ensures Chosen(c, w) == Some(c[0].subject)
  {
  }
}

module WeightedMappings {
  import opened Basics
  import opened Subjects
  import opened WeightedShares

  /** A configured destination; the empty cluster stands for all clusters. */
  datatype MapDest = MapDest(subject: string, weight: Byte, cluster: string)

  /** What is kept: destinations with running sums, for all clusters and for single ones. */
  datatype Mapping = Mapping(src: string, dests: seq<Destination>, cdests: map<string, seq<Destination>>)

  /** The configured destinations of one cluster. */
  function Of(dests: seq<MapDest>, cluster: string): (s: seq<Destination>) {
    if dests == [] then []
    else
      var rest, d := Of(dests[..|dests| - 1], cluster), dests[|dests| - 1];
      if d.cluster == cluster then rest + [Destination(d.subject, d.weight)] else rest
  }

  predicate Names(dests: seq<MapDest>, x: string) {
    exists i :: 0 <= i < |dests| && dests[i].subject == x
  }

  predicate NoDuplicate(dests: seq<MapDest>) {
    forall i, j :: 0 <= i < j < |dests| ==> dests[i].subject != dests[j].subject
  }

  /** What a mapping may be asked for; whether a subject can be the target of a transform is for the
      caller to say. */
  ghost predicate IsAcceptable(src: string, dests: seq<MapDest>, isTarget: string -> bool) {
    && Valid(src) && NoDuplicate(dests) && (forall i :: 0 <= i < |dests| ==> isTarget(dests[i].subject))
    && (forall c :: Total(Of(dests, c)) <= 100)
  }

  /** What is not given away stays with the source, unless the source is listed itself. */
  function Completed(s: seq<Destination>, src: string, listed: bool): (r: seq<Destination>)
    requires Total(s) <= 100
  {
    if Total(s) != 100 && !listed then s + [Destination(src, 100 - Total(s))] else s
  }

  /** Sorted in some way by weight, and summed up. */
  ghost predicate IsProcessed(s: seq<Destination>, r: seq<Destination>) {
    exists sorted :: multiset(sorted) == multiset(s) && Sorted(sorted) && Total(sorted) <= 100 && r == Cumulated(sorted, 0)
  }

  /** A mapping that does what was asked for. */
  ghost predicate IsMappingFor(m: Mapping, src: string, dests: seq<MapDest>)
    requires forall c :: Total(Of(dests, c)) <= 100
  {
    && m.src == src && IsProcessed(Completed(Of(dests, ""), src, Names(dests, src)), m.dests)
    && (forall c :: c in m.cdests <==> c != "" && Of(dests, c) != [])
    && (forall c :: c in m.cdests ==> IsProcessed(Completed(Of(dests, c), src, Names(dests, src)), m.cdests[c]))
  }

  /** The destinations in force in a cluster. */
  function InForce(m: Mapping, cluster: string): (c: seq<Destination>) {
    if cluster in m.cdests then m.cdests[cluster] else m.dests
  }

  // ----- what the configuration amounts to -----

  lemma {:induction false} OfIsListed(dests: seq<MapDest>, cluster: string, d: Destination)
    ensures d in Of(dests, cluster) <==> MapDest(d.subject, d.weight, cluster) in dests
  {
    if dests != [] {
      var front, last := dests[..|dests| - 1], dests[|dests| - 1];
      assert dests == front + [last];
      OfIsListed(front, cluster, d);
    }
  }

  lemma {:induction false} OfIsDistinct(dests: seq<MapDest>, cluster: string)
    requires NoDuplicate(dests)
    ensures Distinct(Of(dests, cluster))
  {
    if dests != [] {
      var front, last := dests[..|dests| - 1], dests[|dests| - 1];
      OfIsDistinct(front, cluster);
      var s := Of(front, cluster);
      forall i | 0 <= i < |s|
        ensures s[i].subject != last.subject
      {
        OfIsListed(front, cluster, s[i]);
      }
    }
  }

  lemma CompletedIsDistinct(dests: seq<MapDest>, cluster: string, src: string)
    requires NoDuplicate(dests) && Total(Of(dests, cluster)) <= 100
    ensures Distinct(Completed(Of(dests, cluster), src, Names(dests, src)))
  {
    OfIsDistinct(dests, cluster);
    var s := Of(dests, cluster);
    forall i | 0 <= i < |s| && !Names(dests, src)
      ensures s[i].subject != src
    {
      OfIsListed(dests, cluster, s[i]);
    }
  }

  lemma CompletedTotal(s: seq<Destination>, src: string, listed: bool)
    requires Total(s) <= 100
    ensures Total(Completed(s, src, listed)) == if listed then Total(s) else 100
  {
    if Total(s) != 100 && !listed {
      var rest := Destination(src, 100 - Total(s));
      TotalAppend(s, [rest]);
      assert Total([rest]) == rest.weight + Total([rest][1..]);
    }
  }

  /** Out of the hundred draws every configured destination of the cluster in force gets exactly its
      weight. If the source is not configured it gets all the others, so that none is lost; if it is,
      the others are lost. */
  lemma MappingShares(m: Mapping, src: string, dests: seq<MapDest>, cluster: string)
    requires NoDuplicate(dests) && (forall c :: Total(Of(dests, c)) <= 100) && IsMappingFor(m, src, dests)
    ensures var c := if cluster in m.cdests then cluster else "";
            var inForce := InForce(m, cluster);
            && (forall d :: d in dests && d.cluster == c ==> |Draws(inForce, Some(d.subject))| == d.weight)
            && (!Names(dests, src) ==>
                  Draws(inForce, None) == {} && |Draws(inForce, Some(src))| == 100 - Total(Of(dests, c)))
            && (Names(dests, src) ==> |Draws(inForce, None)| == 100 - Total(Of(dests, c)))
  {
    hide Of, Total, Draws, Names, NoDuplicate, Sorted;
    var c := if cluster in m.cdests then cluster else "";
    var listed := Names(dests, src);
    var s := Completed(Of(dests, c), src, listed);
    var sorted :| multiset(sorted) == multiset(s) && Sorted(sorted) && Total(sorted) <= 100 && InForce(m, cluster) == Cumulated(sorted, 0);
    CompletedIsDistinct(dests, c, src);
    CompletedTotal(Of(dests, c), src, listed);
    SharesAreWeights(s, sorted);
    forall d | d in dests && d.cluster == c
      ensures |Draws(InForce(m, cluster), Some(d.subject))| == d.weight
    {
      OfIsListed(dests, c, Destination(d.subject, d.weight));
    }
    if !listed {
      SourceGetsRest(dests, c, src, sorted);
    }
  }

  lemma SourceGetsRest(dests: seq<MapDest>, c: string, src: string, sorted: seq<Destination>)
    requires NoDuplicate(dests) && !Names(dests, src) && Total(Of(dests, c)) <= 100
    requires multiset(sorted) == multiset(Completed(Of(dests, c), src, false)) && Total(sorted) <= 100
    ensures |Draws(Cumulated(sorted, 0), Some(src))| == 100 - Total(Of(dests, c))
  {
    hide Of, Total, Sorted;
    var s := Of(dests, c);
    CompletedIsDistinct(dests, c, src);
    CompletedTotal(s, src, false);
    var all := Completed(s, src, false);
    if Total(s) != 100 {
      SharesAreWeights(all, sorted);
      assert all[|s|] == Destination(src, 100 - Total(s));
    } else {
      DistinctPermutation(all, sorted);
      forall i | 0 <= i < |sorted|
        ensures sorted[i].subject != src
      {
        assert sorted[i] in multiset(sorted);
        OfIsListed(dests, c, sorted[i]);
      }
      ShareFrom(sorted, 0, src);
      assert Draws(Cumulated(sorted, 0), Some(src)) == DrawsFrom(Cumulated(sorted, 0), Some(src), 0);
    }
  }
}
