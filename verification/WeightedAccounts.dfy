/** The mappings of an account, in place. */
module WeightedAccounts {
  import opened Basics
  import opened Subjects
  import opened WeightedShares
  import opened WeightedMappings

  // ----- sums and sorting -----

  lemma {:induction false} CumulatedAppend(s: seq<Destination>, d: Destination, before: nat)
    requires before + Total(s) + d.weight < 256
    ensures Total(s + [d]) == Total(s) + d.weight
    ensures Cumulated(s + [d], before) == Cumulated(s, before) + [d.(weight := before + Total(s) + d.weight)]
  {
    TotalAppend(s, [d]);
    assert [d][1..] == [];
    assert Total([d]) == d.weight;
    if s != [] {
      CumulatedAppend(s[1..], d, before + s[0].weight);
      assert (s + [d])[1..] == s[1..] + [d];
    }
  }

  lemma TotalOfPrefix(s: seq<Destination>, i: nat)
    requires i < |s|
    ensures Total(s[..i + 1]) == Total(s[..i]) + s[i].weight && Total(s[..i + 1]) <= Total(s)
  {
    assert s[..i + 1] == s[..i] + [s[i]] && s == s[..i + 1] + s[i + 1..];
    TotalAppend(s[..i], [s[i]]);
    TotalAppend(s[..i + 1], s[i + 1..]);
  }

  function Inserted(r: seq<Destination>, d: Destination): (q: seq<Destination>) {
    if r == [] || d.weight < r[0].weight then [d] + r else [r[0]] + Inserted(r[1..], d)
  }

  lemma {:induction false} InsertedHolds(r: seq<Destination>, d: Destination)
    ensures multiset(Inserted(r, d)) == multiset(r) + multiset{d}
  {
    if r != [] && d.weight >= r[0].weight {
      InsertedHolds(r[1..], d);
      assert r == [r[0]] + r[1..];
    }
  }

  lemma {:induction false} InsertedIsSorted(r: seq<Destination>, d: Destination, least: nat)
    requires Sorted(r) && least <= d.weight && (r != [] ==> least <= r[0].weight)
    ensures Sorted(Inserted(r, d)) && forall i :: 0 <= i < |Inserted(r, d)| ==> least <= Inserted(r, d)[i].weight
    decreases |r|
  {
    if r != [] && d.weight >= r[0].weight {
      InsertedIsSorted(r[1..], d, r[0].weight);
    }
  }

  /** Some order by weight; which one, among equal weights, is left open. */
  method Sort(s: seq<Destination>) returns (r: seq<Destination>)
    ensures multiset(r) == multiset(s) && Sorted(r)
  {
    hide Sorted, Inserted;
    r := NoneSorted();
    for i := 0 to |s|
      invariant multiset(r) == multiset(s[..i]) && Sorted(r)
    {
      InsertedHolds(r, s[i]);
      InsertedIsSorted(r, s[i], 0);
      assert s[..i + 1] == s[..i] + [s[i]];
      r := Inserted(r, s[i]);
    }
    assert s[..|s|] == s;
  }

  function NoneSorted(): (r: seq<Destination>)
    ensures r == [] && Sorted(r)
  {
    []
  }

  /** Bytes never run over: sums of acceptable weights stay within a hundred. */
  method ProcessDestinations(s: seq<Destination>, src: string, listed: bool) returns (r: seq<Destination>)
    requires Total(s) <= 100
    ensures IsProcessed(Completed(s, src, listed), r)
  {
    var sum: Byte := 0;
    for i := 0 to |s|
      invariant sum == Total(s[..i])
    {
      TotalOfPrefix(s, i);
      sum := Plus8(sum, s[i].weight);
    }
    assert s[..|s|] == s;
    var all := s;
    if sum != 100 && !listed {
      all := s + [Destination(src, 100 - sum)];
    }
    CompletedTotal(s, src, listed);
    var sorted := Sort(all);
    TotalOfPermutation(sorted, all);
    r := Sum(sorted);
  }

  method Sum(sorted: seq<Destination>) returns (r: seq<Destination>)
    requires Total(sorted) <= 100
    ensures r == Cumulated(sorted, 0)
  {
    r := [];
    var last: Byte := 0;
    for i := 0 to |sorted|
      invariant last == Total(sorted[..i]) <= 100 && r == Cumulated(sorted[..i], 0)
    {
      TotalOfPrefix(sorted, i);
      CumulatedAppend(sorted[..i], sorted[i], 0);
      assert sorted[..i + 1] == sorted[..i] + [sorted[i]];
      var weight := Plus8(sorted[i].weight, last);
      r := r + [sorted[i].(weight := weight)];
      last := weight;
    }
    assert sorted[..|sorted|] == sorted;
  }

  // ----- reading the configuration -----

  lemma OfPrefix(dests: seq<MapDest>, i: nat, c: string)
    requires i < |dests|
    ensures var s := Of(dests[..i], c);
            Of(dests[..i + 1], c) == if dests[i].cluster == c then s + [Destination(dests[i].subject, dests[i].weight)] else s
  {
    assert dests[..i + 1][..i] == dests[..i];
  }

  lemma {:induction false} OfPrefixTotal(dests: seq<MapDest>, i: nat, c: string)
    requires i <= |dests|
    ensures Total(Of(dests[..i], c)) <= Total(Of(dests, c))
    decreases |dests| - i
  {
    if i == |dests| {
      assert dests[..i] == dests;
    } else {
      OfPrefix(dests, i, c);
      OfPrefixTotal(dests, i + 1, c);
      TotalAppend(Of(dests[..i], c), [Destination(dests[i].subject, dests[i].weight)]);
    }
  }

  function WeightIn(tw: map<string, Byte>, c: string): (w: Byte) {
    if c in tw then tw[c] else 0
  }

  /** What has been read so far is in order, and what is kept is what has been read. */
  ghost predicate IsRead(dests: seq<MapDest>, i: nat, isTarget: string -> bool, seen: set<string>, tw: map<string, Byte>,
                         all: seq<Destination>, some: map<string, seq<Destination>>)
    requires i <= |dests|
  {
    && (forall x :: x in seen <==> Names(dests[..i], x)) && NoDuplicate(dests[..i])
    && (forall j :: 0 <= j < i ==> isTarget(dests[j].subject))
    && (forall c :: WeightIn(tw, c) == Total(Of(dests[..i], c)) <= 100)
    && all == Of(dests[..i], "") && (forall c :: c in some <==> c != "" && Of(dests[..i], c) != [])
    && (forall c :: c in some ==> some[c] == Of(dests[..i], c))
  }

  lemma ReadsOn(dests: seq<MapDest>, i: nat, isTarget: string -> bool, seen: set<string>, tw: map<string, Byte>,
                all: seq<Destination>, some: map<string, seq<Destination>>)
    requires i < |dests| && IsRead(dests, i, isTarget, seen, tw, all, some)
    requires var d := dests[i];
             d.subject !in seen && isTarget(d.subject) && WeightIn(tw, d.cluster) + d.weight <= 100
    ensures var d, c := Destination(dests[i].subject, dests[i].weight), dests[i].cluster;
            IsRead(dests, i + 1, isTarget, seen + {d.subject}, tw[c := WeightIn(tw, c) + d.weight],
                   if c == "" then all + [d] else all,
                   if c == "" then some else some[c := (if c in some then some[c] else []) + [d]])
  {
    hide Of, Total, Names, NoDuplicate;
    var d, c := Destination(dests[i].subject, dests[i].weight), dests[i].cluster;
    var tw' := tw[c := WeightIn(tw, c) + d.weight];
    var some' := if c == "" then some else some[c := (if c in some then some[c] else []) + [d]];
    assert dests[..i + 1] == dests[..i] + [dests[i]];
    NamesMore(dests[..i], dests[i]);
    NoDuplicateMore(dests[..i], dests[i]);
    OfMore(dests, i, "");
    forall x
      ensures WeightIn(tw', x) == Total(Of(dests[..i + 1], x)) <= 100
    {
      OfMore(dests, i, x);
      assert WeightIn(tw, x) == Total(Of(dests[..i], x));
    }
    forall x
      ensures x in some' <==> x != "" && Of(dests[..i + 1], x) != []
      ensures x in some' ==> some'[x] == Of(dests[..i + 1], x)
    {
      OfMore(dests, i, x);
      assert x in some <==> x != "" && Of(dests[..i], x) != [];
    }
  }

  function OneMore(d: MapDest, c: string): (s: seq<Destination>) {
    if d.cluster == c then [Destination(d.subject, d.weight)] else []
  }

  lemma OfMore(dests: seq<MapDest>, i: nat, c: string)
    requires i < |dests|
    ensures Of(dests[..i + 1], c) == Of(dests[..i], c) + OneMore(dests[i], c)
    ensures Total(Of(dests[..i + 1], c)) == Total(Of(dests[..i], c)) + if dests[i].cluster == c then dests[i].weight else 0
  {
    OfPrefix(dests, i, c);
    TotalAppend(Of(dests[..i], c), OneMore(dests[i], c));
    assert OneMore(dests[i], c) != [] ==> OneMore(dests[i], c)[1..] == [];
  }

  lemma NamesMore(dests: seq<MapDest>, d: MapDest)
    ensures forall x :: Names(dests + [d], x) <==> Names(dests, x) || x == d.subject
  {
    var more := dests + [d];
    assert more[|dests|] == d && forall i :: 0 <= i < |dests| ==> more[i] == dests[i];
  }

  lemma NoDuplicateMore(dests: seq<MapDest>, d: MapDest)
    requires NoDuplicate(dests) && !Names(dests, d.subject)
    ensures NoDuplicate(dests + [d])
  {
  }

  /** What is refused could not have been accepted. */
  lemma Refused(src: string, dests: seq<MapDest>, i: nat, isTarget: string -> bool, seen: set<string>, tw: map<string, Byte>,
                all: seq<Destination>, some: map<string, seq<Destination>>)
    requires i < |dests| && IsRead(dests, i, isTarget, seen, tw, all, some)
    requires var d := dests[i];
             d.subject in seen || !isTarget(d.subject) || WeightIn(tw, d.cluster) + d.weight > 100
    ensures !IsAcceptable(src, dests, isTarget)
  {
    var d := dests[i];
    if d.subject in seen {
      var j :| 0 <= j < |dests[..i]| && dests[..i][j].subject == d.subject;
      assert dests[j].subject == dests[i].subject;
    } else if WeightIn(tw, d.cluster) + d.weight > 100 {
      OfPrefix(dests, i, d.cluster);
      OfPrefixTotal(dests, i + 1, d.cluster);
      TotalAppend(Of(dests[..i], d.cluster), [Destination(d.subject, d.weight)]);
      assert [Destination(d.subject, d.weight)][1..] == [];
    }
  }

  predicate DistinctSources(ms: seq<Mapping>) {
    forall i, j :: 0 <= i < j < |ms| ==> ms[i].src != ms[j].src
  }

  /** A mapping takes the place of one with the same source, or comes last. */
  ghost predicate IsPlaced(before: seq<Mapping>, m: Mapping, after: seq<Mapping>) {
    || (exists i :: 0 <= i < |before| && before[i].src == m.src && after == before[i := m])
    || ((forall i :: 0 <= i < |before| ==> before[i].src != m.src) && after == before + [m])
  }

  predicate IsFor(m: Mapping, subject: string) {
    (!HasWild(Tokens(m.src)) && m.src == subject) || IsSubset(Tokens(subject), Tokens(m.src))
  }

  class Account {
    var mappings: seq<Mapping>
    var hasMapped: bool

    /** One mapping a source, and the flag says whether there are any. */
    predicate Ok()
      reads this
    {
      DistinctSources(mappings) && hasMapped == (mappings != [])
    }

    constructor ()
      ensures Ok() && mappings == []
    {
      mappings, hasMapped := [], false;
    }

    method AddWeightedMappings(src: string, dests: seq<MapDest>, isTarget: string -> bool) returns (ok: bool)
      requires Ok()
      modifies this
      ensures Ok() && (ok <==> IsAcceptable(src, dests, isTarget))
      ensures !ok ==> mappings == old(mappings)
      ensures ok ==> exists m :: IsMappingFor(m, src, dests) && IsPlaced(old(mappings), m, mappings)
    {
      hide IsMappingFor, IsAcceptable, IsRead, Valid;
      var read, all, some := ReadDestinations(src, dests, isTarget);
      if !read {
        return false;
      }
      Acceptable(src, dests, isTarget);
      var m := MakeMapping(src, dests, all, some);
      Place(m);
      return true;
    }

    method Place(m: Mapping)
      requires Ok()
      modifies this
      ensures Ok() && IsPlaced(old(mappings), m, mappings)
    {
      var i := 0;
      while i < |mappings|
        invariant 0 <= i <= |mappings| && mappings == old(mappings) && hasMapped == old(hasMapped)
        invariant forall j :: 0 <= j < i ==> mappings[j].src != m.src
      {
        if mappings[i].src == m.src {
          mappings := mappings[i := m];
          return;
        }
        i := i + 1;
      }
      mappings := mappings + [m];
      hasMapped := true;
    }

    /** The last mapping takes the place of the removed one. */
    method RemoveMapping(src: string) returns (removed: bool)
      requires Ok()
      modifies this
      ensures Ok() && (removed <==> exists i :: 0 <= i < |old(mappings)| && old(mappings)[i].src == src)
      ensures !removed ==> mappings == old(mappings)
      ensures removed ==> forall m :: m in mappings <==> m in old(mappings) && m.src != src
    {
      var i := 0;
      while i < |mappings|
        invariant 0 <= i <= |mappings| && mappings == old(mappings) && hasMapped == old(hasMapped)
        invariant forall j :: 0 <= j < i ==> mappings[j].src != src
      {
        if mappings[i].src == src {
          var last := |mappings| - 1;
          SwappedOut(mappings, i);
          mappings := mappings[i := mappings[last]][..last];
          hasMapped := mappings != [];
          return true;
        }
        i := i + 1;
      }
      return false;
    }

    /** The first mapping that is for the subject, and of it the destination that the draw picks; no
        mapping leaves the subject as it is, and a draw that picks none loses the message. */
    method SelectMappedSubject(subject: string, cluster: string, draw: nat) returns (r: Option<string>, mapped: bool)
      requires Ok() && draw < 100
      ensures mapped <==> exists i :: 0 <= i < |mappings| && IsFor(mappings[i], subject)
      ensures !mapped ==> r == Some(subject)
      ensures mapped ==> exists i :: 0 <= i < |mappings| && IsFor(mappings[i], subject)
                           && (forall j :: 0 <= j < i ==> !IsFor(mappings[j], subject))
                           && r == Chosen(InForce(mappings[i], cluster), draw)
    {
      hide IsSubset, Tokens, HasWild;
      if !hasMapped {
        return Some(subject), false;
      }
      var i := 0;
      while i < |mappings|
        invariant 0 <= i <= |mappings|
        invariant forall j :: 0 <= j < i ==> !IsFor(mappings[j], subject)
      {
        var m := mappings[i];
        var found := !HasWild(Tokens(m.src)) && m.src == subject;
        if !found {
          found := IsSubsetMatch(Tokens(subject), Tokens(m.src));
        }
        if found {
          r := Pick(InForce(m, cluster), draw);
          return r, true;
        }
        i := i + 1;
      }
      return Some(subject), false;
    }
  }

  method Pick(c: seq<Destination>, draw: nat) returns (r: Option<string>)
    requires draw < 100
    ensures r == Chosen(c, draw)
  {
    if |c| == 1 && c[0].weight == 100 {
      SingleIsChosen(c, draw);
      return Some(c[0].subject);
    }
    var i := 0;
    while i < |c|
      invariant 0 <= i <= |c|
      invariant Chosen(c, draw) == Chosen(c[i..], draw)
    {
      if draw < c[i].weight {
        return Some(c[i].subject);
      }
      i := i + 1;
    }
    return None;
  }

  lemma SwappedOut(ms: seq<Mapping>, i: nat)
    requires i < |ms| && DistinctSources(ms)
    ensures var rest := ms[i := ms[|ms| - 1]][..|ms| - 1];
            DistinctSources(rest) && forall m :: m in rest <==> m in ms && m.src != ms[i].src
  {
    var last := |ms| - 1;
    var rest := ms[i := ms[last]][..last];
    forall m
      ensures m in rest <==> m in ms && m.src != ms[i].src
    {
      if m in ms && m.src != ms[i].src {
        var j :| 0 <= j < |ms| && ms[j] == m;
        assert rest[if j == last then i else j] == m;
      }
      if m in rest {
        var j :| 0 <= j < |rest| && rest[j] == m;
        assert ms[if j == i then last else j] == m;
      }
    }
  }

  /** The destinations read one by one; refused as soon as something is wrong. */
  method ReadDestinations(src: string, dests: seq<MapDest>, isTarget: string -> bool)
    returns (ok: bool, all: seq<Destination>, some: map<string, seq<Destination>>)
    ensures ok <==> IsAcceptable(src, dests, isTarget)
    ensures ok ==> all == Of(dests, "") && (forall c :: c in some <==> c != "" && Of(dests, c) != [])
                   && forall c :: c in some ==> some[c] == Of(dests, c)
  {
    hide Valid, Names, NoDuplicate, Of, Total, IsRead, IsAcceptable;
    all, some := [], map[];
    ok := IsValidSubject(src);
    if !ok {
      NotAcceptable(src, dests, isTarget);
      return;
    }
    var seen: set<string> := {};
    var tw: map<string, Byte> := map[];
    NothingRead(dests, isTarget);
    var i := 0;
    while i < |dests|
      invariant 0 <= i <= |dests| && IsRead(dests, i, isTarget, seen, tw, all, some)
    {
      var d := dests[i];
      WeightsAreSmall(dests, i, isTarget, seen, tw, all, some, d.cluster);
      if d.subject in seen {
        Refused(src, dests, i, isTarget, seen, tw, all, some);
        return false, all, some;
      }
      if d.weight > 100 {
        Refused(src, dests, i, isTarget, seen, tw, all, some);
        return false, all, some;
      }
      var total := Plus8(WeightIn(tw, d.cluster), d.weight);
      if total > 100 {
        Refused(src, dests, i, isTarget, seen, tw, all, some);
        return false, all, some;
      }
      if !isTarget(d.subject) {
        Refused(src, dests, i, isTarget, seen, tw, all, some);
        return false, all, some;
      }
      ReadsOn(dests, i, isTarget, seen, tw, all, some);
      seen := seen + {d.subject};
      tw := tw[d.cluster := total];
      var dest := Destination(d.subject, d.weight);
      if d.cluster == "" {
        all := all + [dest];
      } else {
        some := some[d.cluster := (if d.cluster in some then some[d.cluster] else []) + [dest]];
      }
      i := i + 1;
    }
    AllRead(src, dests, isTarget, seen, tw, all, some);
  }

  lemma NotAcceptable(src: string, dests: seq<MapDest>, isTarget: string -> bool)
    requires !Valid(src)
    ensures !IsAcceptable(src, dests, isTarget)
  {
  }

  lemma Acceptable(src: string, dests: seq<MapDest>, isTarget: string -> bool)
    requires IsAcceptable(src, dests, isTarget)
    ensures NoDuplicate(dests) && forall c :: Total(Of(dests, c)) <= 100
  {
  }

  lemma NothingRead(dests: seq<MapDest>, isTarget: string -> bool)
    ensures IsRead(dests, 0, isTarget, {}, map[], [], map[])
  {
    assert dests[..0] == [];
  }

  lemma WeightsAreSmall(dests: seq<MapDest>, i: nat, isTarget: string -> bool, seen: set<string>, tw: map<string, Byte>,
                        all: seq<Destination>, some: map<string, seq<Destination>>, c: string)
    requires i <= |dests| && IsRead(dests, i, isTarget, seen, tw, all, some)
    ensures WeightIn(tw, c) <= 100
  {
  }

  lemma AllRead(src: string, dests: seq<MapDest>, isTarget: string -> bool, seen: set<string>, tw: map<string, Byte>,
                all: seq<Destination>, some: map<string, seq<Destination>>)
    requires Valid(src) && IsRead(dests, |dests|, isTarget, seen, tw, all, some)
    ensures IsAcceptable(src, dests, isTarget)
    ensures all == Of(dests, "") && (forall c :: c in some <==> c != "" && Of(dests, c) != [])
    ensures forall c :: c in some ==> some[c] == Of(dests, c)
  {
    hide Valid, Names, Of, Total;
    assert dests[..|dests|] == dests;
  }

  method MakeMapping(src: string, dests: seq<MapDest>, all: seq<Destination>, some: map<string, seq<Destination>>) returns (m: Mapping)
    requires (forall c :: Total(Of(dests, c)) <= 100) && all == Of(dests, "")
    requires forall c :: c in some <==> c != "" && Of(dests, c) != []
    requires forall c :: c in some ==> some[c] == Of(dests, c)
    ensures IsMappingFor(m, src, dests)
  {
    hide Of, Total, IsProcessed, Completed;
    var listed := IsNamed(dests, src);
    var main := ProcessDestinations(all, src, listed);
    var rest := some.Keys;
    var done: map<string, seq<Destination>> := map[];
    while rest != {}
      invariant rest <= some.Keys && done.Keys == some.Keys - rest
      invariant forall c :: c in done ==> IsProcessed(Completed(Of(dests, c), src, Names(dests, src)), done[c])
      decreases rest
    {
      var c :| c in rest;
      var sums := ProcessDestinations(some[c], src, listed);
      done := done[c := sums];
      rest := rest - {c};
    }
    m := Mapping(src, main, done);
  }

  method IsNamed(dests: seq<MapDest>, src: string) returns (r: bool)
    ensures r == Names(dests, src)
  {
    r := exists i :: 0 <= i < |dests| && dests[i].subject == src;
  }
}
