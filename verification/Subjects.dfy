/** Subjects with wildcards: the token-wise tests of the server, and what they mean for the literal
    subjects that a pattern stands for. */
module Subjects {
  import opened Text

  const TSEP: char := '.'
  const PWC := "*"
  const FWC := ">"

  predicate IsWild(t: string) { t == PWC || t == FWC }

  function Tokens(subject: string): (tokens: seq<string>)
    ensures tokens != []
  {
    Split(subject, TSEP)
  }

  // ----- valid subjects -----

  predicate IsBlank(c: char) {
    c == '\t' || c == '\n' || c == '\U{0C}' || c == '\r' || c == ' '
  }

  predicate HasBlank(t: string) {
    exists i :: 0 <= i < |t| && IsBlank(t[i])
  }

  /** No empty token, and the full wildcard only at the end; the rest of a subject may be empty. */
  predicate WellFormed(tokens: seq<string>) {
    forall i :: 0 <= i < |tokens| ==> tokens[i] != "" && (tokens[i] == FWC ==> i == |tokens| - 1)
  }

  predicate Valid(subject: string) {
    WellFormed(Tokens(subject)) && forall i :: 0 <= i < |Tokens(subject)| ==> !HasBlank(Tokens(subject)[i])
  }

  method ContainsAnyBlank(t: string) returns (found: bool)
    ensures found <==> HasBlank(t)
  {
    found := false;
    var i := 0;
    while i < |t| && !found
      invariant 0 <= i <= |t|
      invariant found <==> exists j :: 0 <= j < i && IsBlank(t[j])
    {
      found := IsBlank(t[i]);
      i := i + 1;
    }
  }

  method IsValidSubject(subject: string) returns (valid: bool)
    ensures valid <==> Valid(subject)
  {
    if subject == "" {
      assert Tokens(subject)[0] == "";
      return false;
    }
    var fwc := false;
    var tokens := Tokens(subject);
    var i := 0;
    while i < |tokens|
      invariant 0 <= i <= |tokens|
      invariant fwc <==> i > 0 && tokens[i - 1] == FWC
      invariant forall j :: 0 <= j < i ==> tokens[j] != "" && !HasBlank(tokens[j]) && (tokens[j] == FWC ==> j == i - 1)
    {
      var t := tokens[i];
      if |t| == 0 || fwc {
        return false;
      }
      if |t| > 1 {
        var blank := ContainsAnyBlank(t);
        if blank {
          return false;
        }
      } else if t[0] == '>' {
        fwc := true;
      } else if IsBlank(t[0]) {
        return false;
      }
      i := i + 1;
    }
    return true;
  }

  // ----- what a pattern stands for -----

  predicate IsLiteral(tokens: seq<string>) {
    forall t :: t in tokens ==> t != "" && !IsWild(t)
  }

  /** A partial wildcard stands for one token, a full wildcard for one or more. */
  predicate Matches(p: seq<string>, l: seq<string>) {
    if p == [] then l == []
    else if p[0] == FWC then l != []
    else l != [] && (p[0] == PWC || p[0] == l[0]) && Matches(p[1..], l[1..])
  }

  /** Whatever p stands for, q stands for too. */
  ghost predicate Covers(q: seq<string>, p: seq<string>) {
    forall l :: IsLiteral(l) && Matches(p, l) ==> Matches(q, l)
  }

  /** Some literal is matched by both. */
  ghost predicate Meet(p: seq<string>, q: seq<string>) {
    exists l :: IsLiteral(l) && Matches(p, l) && Matches(q, l)
  }

  // ----- subset matching -----

  /** One turn of the loop: stop with an answer, or go on. */
  datatype Turn = Yes | No | On

  function Compare(t1: string, t2: string): (turn: Turn) {
    if t2 == "" then No
    else if t2 == FWC then Yes
    else if t1 == "" || t1 == FWC then No
    else if t1 == PWC then (if t2 == PWC then On else No)
    else if t2[0] == '*' || t1 == t2 then On
    else No
  }

  predicate IsSubset(p: seq<string>, q: seq<string>) {
    if q == [] then p == []
    else if p == [] then false
    else
      match Compare(p[0], q[0])
      case Yes => true
      case No => false
      case On => IsSubset(p[1..], q[1..])
  }

  method IsSubsetMatch(tokens: seq<string>, test: seq<string>) returns (r: bool)
    ensures r == IsSubset(tokens, test)
  {
    var i := 0;
    while i < |test|
      invariant 0 <= i <= |test| && i <= |tokens|
      invariant IsSubset(tokens, test) == IsSubset(tokens[i..], test[i..])
    {
      if i >= |tokens| {
        return false;
      }
      var t2 := test[i];
      if |t2| == 0 {
        return false;
      }
      if t2[0] == '>' && |t2| == 1 {
        return true;
      }
      var t1 := tokens[i];
      if |t1| == 0 || (t1[0] == '>' && |t1| == 1) {
        return false;
      }
      if t1[0] == '*' && |t1| == 1 {
        if !(t2[0] == '*' && |t2| == 1) {
          return false;
        }
      } else if t2[0] != '*' && t1 != t2 {
        return false;
      }
      i := i + 1;
    }
    return |tokens| == |test|;
  }

  /** Tokens such as a valid subject has. */
  predicate IsClean(t: string) {
    TSEP !in t && !HasBlank(t)
  }

  predicate AreClean(tokens: seq<string>) {
    forall i :: 0 <= i < |tokens| ==> IsClean(tokens[i])
  }

  /** A literal for a pattern. */
  function Instance(p: seq<string>): (l: seq<string>) {
    if p == [] then [] else [if IsWild(p[0]) then "a" else p[0]] + Instance(p[1..])
  }

  lemma {:induction false} InstanceMatches(p: seq<string>)
    requires WellFormed(p)
    ensures IsLiteral(Instance(p)) && Matches(p, Instance(p)) && |Instance(p)| == |p|
    ensures AreClean(p) ==> AreClean(Instance(p))
  {
    if p != [] {
      InstanceMatches(p[1..]);
    }
  }

  /** Tokens that only begin like a wildcard are taken for one by some of the tests. */
  predicate IsStarry(t: string) { |t| > 1 && t[0] == '*' }

  lemma {:induction false} SubsetCovers(p: seq<string>, q: seq<string>, l: seq<string>)
    requires WellFormed(p) && WellFormed(q) && forall t :: t in q ==> !IsStarry(t)
    requires IsSubset(p, q) && IsLiteral(l) && Matches(p, l)
    ensures Matches(q, l)
  {
    if q != [] && q[0] != FWC {
      assert q[0] in q && l[0] in l;
      assert forall t :: t in l[1..] ==> t in l;
      SubsetCovers(p[1..], q[1..], l[1..]);
    }
  }

  /** Where the test says no there is a literal to show for it. */
  lemma {:induction false} NotSubset(p: seq<string>, q: seq<string>) returns (l: seq<string>)
    requires WellFormed(p) && WellFormed(q) && !IsSubset(p, q)
    ensures IsLiteral(l) && Matches(p, l) && !Matches(q, l)
    ensures AreClean(p) && AreClean(q) ==> AreClean(l)
  {
    if p == [] || q == [] {
      InstanceMatches(p);
      l := Instance(p);
    } else if p[0] == FWC {
      l := if q[0] != PWC then [q[0] + "a"] else if |q| == 1 then ["a", "a"] else ["a"];
    } else if Compare(p[0], q[0]) == On {
      var rest := NotSubset(p[1..], q[1..]);
      l := [if IsWild(p[0]) then "a" else p[0]] + rest;
      assert l[1..] == rest;
    } else {
      InstanceMatches(p[1..]);
      var t := if p[0] == PWC then q[0] + "a" else p[0];
      l := [t] + Instance(p[1..]);
      assert l[1..] == Instance(p[1..]);
    }
  }

  /** A subject that the test takes for a subset although it is not. */
  function Overmatch(q: seq<string>): (p: seq<string>) {
    if q == [] then [] else [if IsStarry(q[0]) then "a" else q[0]] + Overmatch(q[1..])
  }

  lemma {:induction false} OvermatchIsTaken(q: seq<string>)
    requires WellFormed(q)
    ensures WellFormed(Overmatch(q)) && IsSubset(Overmatch(q), q) && |Overmatch(q)| == |q|
    ensures (exists t :: t in q && IsStarry(t)) ==> !Matches(q, Instance(Overmatch(q)))
  {
    if q != [] {
      OvermatchIsTaken(q[1..]);
      assert Overmatch(q)[1..] == Overmatch(q[1..]);
      if exists t :: t in q && IsStarry(t) {
        if !IsStarry(q[0]) {
          var t :| t in q && IsStarry(t);
          assert t in q[1..];
        }
        assert Instance(Overmatch(q))[1..] == Instance(Overmatch(q[1..]));
      }
    }
  }

  /** The subset test is exact for every subject on the left, if and only if no token on the right is
      longer than a star that it begins with. */
  lemma SubsetMeansCovers(q: seq<string>)
    requires WellFormed(q)
    ensures (forall p :: WellFormed(p) ==> (IsSubset(p, q) <==> Covers(q, p))) <==> (forall t :: t in q ==> !IsStarry(t))
  {
    if forall t :: t in q ==> !IsStarry(t) {
      forall p | WellFormed(p)
        ensures IsSubset(p, q) <==> Covers(q, p)
      {
        if IsSubset(p, q) {
          forall l | IsLiteral(l) && Matches(p, l)
            ensures Matches(q, l)
          {
            SubsetCovers(p, q, l);
          }
        } else {
          var l := NotSubset(p, q);
        }
      }
    } else {
      OvermatchIsTaken(q);
      InstanceMatches(Overmatch(q));
    }
  }

  // ----- collision -----

  predicate HasWild(p: seq<string>) { PWC in p || FWC in p }

  predicate TokensCanMatch(t1: string, t2: string) {
    t1 != "" && t2 != "" && (t1[0] == '*' || t2[0] == '*' || t1[0] == '>' || t2[0] == '>' || t1 == t2)
  }

  function Shorter(p: seq<string>, q: seq<string>): (n: nat) {
    if |p| < |q| then |p| else |q|
  }

  predicate Collide(p: seq<string>, q: seq<string>) {
    if p == q then true
    else if !HasWild(p) && !HasWild(q) then false
    else if !HasWild(p) then IsSubset(p, q)
    else if !HasWild(q) then IsSubset(q, p)
    else
      && (|p| < |q| ==> FWC in p) && (|q| < |p| ==> FWC in q)
      && forall i :: 0 <= i < Shorter(p, q) ==> TokensCanMatch(p[i], q[i])
  }

  method AnalyzeTokens(tokens: seq<string>) returns (hasPwc: bool, hasFwc: bool)
    ensures hasPwc == (PWC in tokens) && hasFwc == (FWC in tokens)
  {
    hasPwc, hasFwc := false, false;
    for i := 0 to |tokens|
      invariant hasPwc == (PWC in tokens[..i]) && hasFwc == (FWC in tokens[..i])
    {
      assert tokens[..i + 1] == tokens[..i] + [tokens[i]];
      var t := tokens[i];
      if |t| == 1 {
        assert t == [t[0]];
        if t[0] == '*' {
          hasPwc := true;
        } else if t[0] == '>' {
          hasFwc := true;
        }
      }
    }
    assert tokens[..|tokens|] == tokens;
  }

  lemma SameTokens(s1: string, s2: string)
    ensures s1 == s2 <==> Tokens(s1) == Tokens(s2)
  {
    SplitFields(s1, TSEP);
    SplitFields(s2, TSEP);
  }

  method SubjectsCollide(subj1: string, subj2: string) returns (r: bool)
    ensures r == Collide(Tokens(subj1), Tokens(subj2))
  {
    SameTokens(subj1, subj2);
    if subj1 == subj2 {
      return true;
    }
    var toks1, toks2 := Tokens(subj1), Tokens(subj2);
    var pwc1, fwc1 := AnalyzeTokens(toks1);
    var pwc2, fwc2 := AnalyzeTokens(toks2);
    var l1, l2 := !(pwc1 || fwc1), !(pwc2 || fwc2);
    if l1 && l2 {
      return subj1 == subj2;
    }
    if l1 {
      r := IsSubsetMatch(toks1, toks2);
      return;
    } else if l2 {
      r := IsSubsetMatch(toks2, toks1);
      return;
    }
    if !fwc1 && !fwc2 && |toks1| != |toks2| {
      return false;
    }
    if (|toks1| < |toks2| && !fwc1) || (|toks2| < |toks1| && !fwc2) {
      return false;
    }
    var stop := |toks1|;
    if |toks2| < stop {
      stop := |toks2|;
    }
    var i := 0;
    while i < stop
      invariant 0 <= i <= stop
      invariant forall j :: 0 <= j < i ==> TokensCanMatch(toks1[j], toks2[j])
    {
      if !TokensCanMatch(toks1[i], toks2[i]) {
        return false;
      }
      i := i + 1;
    }
    return true;
  }

  /** Two tokens that one literal token can stand against. */
  predicate TokensMeet(t1: string, t2: string) {
    IsWild(t1) || IsWild(t2) || t1 == t2
  }

  predicate AllTokensMeet(p: seq<string>, q: seq<string>) {
    forall i :: 0 <= i < Shorter(p, q) ==> TokensMeet(p[i], q[i])
  }

  /** Meeting, said along the two subjects. */
  predicate Meets(p: seq<string>, q: seq<string>) {
    if p == [] || q == [] then p == [] && q == []
    else if p[0] == FWC || q[0] == FWC then true
    else TokensMeet(p[0], q[0]) && Meets(p[1..], q[1..])
  }

  lemma {:induction false} CommonLiteral(p: seq<string>, q: seq<string>) returns (l: seq<string>)
    requires WellFormed(p) && WellFormed(q) && Meets(p, q)
    ensures IsLiteral(l) && Matches(p, l) && Matches(q, l)
  {
    InstanceMatches(p);
    InstanceMatches(q);
    if p == [] {
      l := [];
    } else if p[0] == FWC {
      l := Instance(q);
    } else if q[0] == FWC {
      l := Instance(p);
    } else {
      var rest := CommonLiteral(p[1..], q[1..]);
      l := [if !IsWild(p[0]) then p[0] else if !IsWild(q[0]) then q[0] else "a"] + rest;
      assert l[1..] == rest;
    }
  }

  lemma {:induction false} MatchedMeet(p: seq<string>, q: seq<string>, l: seq<string>)
    requires IsLiteral(l) && Matches(p, l) && Matches(q, l)
    ensures Meets(p, q)
  {
    if p != [] && q != [] && p[0] != FWC && q[0] != FWC {
      assert forall t :: t in l[1..] ==> t in l;
      MatchedMeet(p[1..], q[1..], l[1..]);
    }
  }

  lemma MeetsMeansMeet(p: seq<string>, q: seq<string>)
    requires WellFormed(p) && WellFormed(q)
    ensures Meets(p, q) <==> Meet(p, q)
  {
    if Meets(p, q) {
      var l := CommonLiteral(p, q);
    }
    if Meet(p, q) {
      var l :| IsLiteral(l) && Matches(p, l) && Matches(q, l);
      MatchedMeet(p, q, l);
    }
  }

  predicate LengthsMeet(p: seq<string>, q: seq<string>) {
    (|p| < |q| ==> FWC in p) && (|q| < |p| ==> FWC in q)
  }

  /** Meeting, said by position. */
  lemma {:induction false} MeetsByPosition(p: seq<string>, q: seq<string>)
    requires WellFormed(p) && WellFormed(q)
    ensures Meets(p, q) <==> LengthsMeet(p, q) && AllTokensMeet(p, q)
  {
    if p != [] && q != [] && p[0] != FWC && q[0] != FWC {
      MeetsByPosition(p[1..], q[1..]);
      assert FWC in p <==> FWC in p[1..];
      assert FWC in q <==> FWC in q[1..];
      assert AllTokensMeet(p, q) <==> TokensMeet(p[0], q[0]) && AllTokensMeet(p[1..], q[1..]) by {
        if TokensMeet(p[0], q[0]) && AllTokensMeet(p[1..], q[1..]) {
          forall i | 0 <= i < Shorter(p, q)
            ensures TokensMeet(p[i], q[i])
          {
            assert i > 0 ==> p[i] == p[1..][i - 1] && q[i] == q[1..][i - 1];
          }
        }
        if AllTokensMeet(p, q) {
          forall i | 0 <= i < Shorter(p[1..], q[1..])
            ensures TokensMeet(p[1..][i], q[1..][i])
          {
            assert p[1..][i] == p[i + 1] && q[1..][i] == q[i + 1];
          }
        }
      }
    }
  }

  /** Against a literal, subset matching is meeting, but for tokens that only begin with a star. */
  lemma {:induction false} LiteralMeets(p: seq<string>, q: seq<string>)
    requires WellFormed(p) && WellFormed(q) && !HasWild(p)
    ensures IsSubset(p, q) && AllTokensMeet(p, q) <==> Meets(p, q)
  {
    if p != [] && q != [] && q[0] != FWC {
      assert p[0] in p;
      LiteralMeets(p[1..], q[1..]);
      MeetsByPosition(p, q);
      MeetsByPosition(p[1..], q[1..]);
      if AllTokensMeet(p, q) {
        assert TokensMeet(p[0], q[0]);
        forall i | 0 <= i < Shorter(p[1..], q[1..])
          ensures TokensMeet(p[1..][i], q[1..][i])
        {
          assert p[1..][i] == p[i + 1] && q[1..][i] == q[i + 1];
        }
      }
    } else {
      MeetsByPosition(p, q);
    }
  }

  /** Colliding is what it is said to be, that one literal could match both, up to tokens that only
      begin like a wildcard: no collision is ever missed, and one is made up only where two different
      tokens, neither of them a wildcard, stand against each other. */
  lemma CollideMeansMeet(p: seq<string>, q: seq<string>)
    requires WellFormed(p) && WellFormed(q)
    ensures Meet(p, q) <==> Collide(p, q) && AllTokensMeet(p, q)
  {
    MeetsMeansMeet(p, q);
    MeetsByPosition(p, q);
    if p == q {
    } else if !HasWild(p) && !HasWild(q) {
      LiteralsAgree(p, q);
    } else if !HasWild(p) {
      LiteralMeets(p, q);
    } else if !HasWild(q) {
      LiteralMeets(q, p);
      MeetsByPosition(q, p);
      assert AllTokensMeet(p, q) <==> AllTokensMeet(q, p);
    } else {
      assert forall i :: 0 <= i < Shorter(p, q) && TokensMeet(p[i], q[i]) ==> TokensCanMatch(p[i], q[i]);
    }
  }

  /** Tokens that only begin like one of the wildcards. */
  predicate IsWildLike(t: string) { |t| > 1 && (t[0] == '*' || t[0] == '>') }

  /** So without such tokens colliding and meeting are the same. */
  lemma CollideIsMeet(p: seq<string>, q: seq<string>)
    requires WellFormed(p) && WellFormed(q)
    requires forall t :: t in p || t in q ==> !IsWildLike(t)
    ensures Collide(p, q) <==> Meet(p, q)
  {
    CollideMeansMeet(p, q);
    if Collide(p, q) && p != q && !(HasWild(p) && HasWild(q)) {
      var l, r := if HasWild(p) then q else p, if HasWild(p) then p else q;
      LiteralMatchesItself(l);
      SubsetCovers(l, r, l);
      assert Meet(l, r);
    }
    if Collide(p, q) && HasWild(p) && HasWild(q) {
      forall i | 0 <= i < Shorter(p, q)
        ensures TokensMeet(p[i], q[i])
      {
        assert p[i] in p && q[i] in q;
        assert |p[i]| == 1 && IsWild([p[i][0]]) ==> p[i] == [p[i][0]];
        assert |q[i]| == 1 && IsWild([q[i][0]]) ==> q[i] == [q[i][0]];
      }
    }
  }

  lemma {:induction false} LiteralMatchesItself(l: seq<string>)
    requires WellFormed(l) && !HasWild(l)
    ensures IsLiteral(l) && Matches(l, l)
  {
    if l != [] {
      assert l[0] in l && forall t :: t in l[1..] ==> t in l;
      assert forall i :: 0 <= i < |l[1..]| ==> l[1..][i] == l[i + 1];
      LiteralMatchesItself(l[1..]);
    }
  }

  /** What is in what is in a third is in it. */
  lemma {:induction false} SubsetOfSubset(p: seq<string>, q: seq<string>, r: seq<string>)
    requires WellFormed(p) && WellFormed(q) && IsSubset(p, q) && IsSubset(q, r)
    ensures IsSubset(p, r)
  {
    if p != [] && q != [] && r != [] && q[0] != FWC && r[0] != FWC {
      SubsetOfSubset(p[1..], q[1..], r[1..]);
    }
  }

  /** Two that are each in the other are the same, up to tokens that only begin with a star. */
  lemma {:induction false} SubsetBothWays(p: seq<string>, q: seq<string>)
    requires WellFormed(p) && WellFormed(q) && (forall t :: t in p ==> !IsStarry(t))
    requires IsSubset(p, q) && IsSubset(q, p)
    ensures p == q
  {
    if p != [] {
      assert p[0] in p && forall t :: t in p[1..] ==> t in p;
      if p[0] == FWC {
        assert p == [FWC] && q == [FWC] by {
          assert q[0] == FWC;
        }
      } else {
        assert q[0] != FWC && q[0] == p[0];
        SubsetBothWays(p[1..], q[1..]);
        assert p == [p[0]] + p[1..] && q == [q[0]] + q[1..];
      }
    }
  }

  lemma {:induction false} SubsetOfSelf(p: seq<string>)
    requires WellFormed(p)
    ensures IsSubset(p, p)
  {
    if p != [] && p[0] != FWC {
      SubsetOfSelf(p[1..]);
    }
  }

  lemma {:induction false} MatchedIsSubset(p: seq<string>, l: seq<string>)
    requires IsLiteral(l) && WellFormed(p) && Matches(p, l)
    ensures IsSubset(l, p)
  {
    if p != [] && p[0] != FWC {
      assert l[0] in l && forall t :: t in l[1..] ==> t in l;
      MatchedIsSubset(p[1..], l[1..]);
    }
  }

  lemma LiteralsAgree(p: seq<string>, q: seq<string>)
    requires !HasWild(p) && !HasWild(q)
    ensures LengthsMeet(p, q) && AllTokensMeet(p, q) <==> p == q
  {
    if LengthsMeet(p, q) && AllTokensMeet(p, q) {
      forall i | 0 <= i < |p|
        ensures p[i] == q[i]
      {
        assert TokensMeet(p[i], q[i]) && p[i] in p && q[i] in q;
      }
    }
  }

  /** The family it goes wrong on is not empty. */
  lemma MadeUpCollision()
    ensures Collide(["*x", "*"], ["a", "*"]) && !Meet(["*x", "*"], ["a", "*"])
    ensures IsSubset(["a"], ["*x"]) && !Covers(["*x"], ["a"])
  {
    assert PWC in ["*x", "*"] && PWC in ["a", "*"];
    CollideMeansMeet(["*x", "*"], ["a", "*"]);
    assert !TokensMeet(["*x", "*"][0], ["a", "*"][0]);
    assert IsLiteral(["a"]) && Matches(["a"], ["a"]);
  }
}
