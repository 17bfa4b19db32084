/** What the import search decides, as long as it goes on with the same subject, in terms of the walks that
    messages could take backwards along the imports. */
module ImportWalks {
  import opened Subjects
  import opened ImportSearch

  /** A subject without wildcards, and without tokens that are taken for one. */
  predicate IsPlain(s: string) {
    IsLiteral(Tokens(s)) && forall t :: t in Tokens(s) ==> !IsStarry(t)
  }

  lemma {:induction false} SubsetOfPlain(p: seq<string>, q: seq<string>)
    requires IsLiteral(q) && (forall t :: t in q ==> !IsStarry(t)) && IsSubset(p, q)
    ensures p == q
  {
    if q != [] {
      assert q[0] in q;
      assert forall t :: t in q[1..] ==> t in q;
      SubsetOfPlain(p[1..], q[1..]);
      assert p == [p[0]] + p[1..] && q == [q[0]] + q[1..];
    }
  }

  /** The search for a literal subject is never narrowed. */
  lemma PlainStays(s: string, other: string)
    requires IsPlain(s)
    ensures Narrowed(s, other) == s
  {
    if IsSubset(Tokens(other), Tokens(s)) {
      SubsetOfPlain(Tokens(other), Tokens(s));
      SameTokens(other, s);
    }
  }

  /** The imports of one subject. */
  datatype View = View(g: Graph, s: string) {

    /** The i-th import of account x brings in the subject, and x exports it again. */
    predicate IsStep(x: Name, i: nat) {
      && ExportsMatching(g, x, s) && i < |Of(g, x).imports|
      && Collide(Tokens(s), Tokens(Of(g, x).imports[i].to))
    }

    /** No import that the search could come to is narrower than the subject. */
    ghost predicate Stays() {
      forall x, i: nat :: IsStep(x, i) ==> Narrowed(s, Of(g, x).imports[i].to) == s
    }

    /** As for every literal subject. */
    lemma PlainStaysAll()
      requires IsPlain(s)
      ensures Stays()
    {
      forall x, i: nat | IsStep(x, i)
        ensures Narrowed(s, Of(g, x).imports[i].to) == s
      {
        PlainStays(s, Of(g, x).imports[i].to);
      }
    }

    function Target(x: Name, i: nat): (y: Name)
      requires IsStep(x, i)
    {
      Of(g, x).imports[i].acc
    }

    predicate IsWalk(x: Name, w: seq<nat>)
      decreases |w|
    {
      w == [] || (IsStep(x, w[0]) && IsWalk(Target(x, w[0]), w[1..]))
    }

    function End(x: Name, w: seq<nat>): (y: Name)
      requires IsWalk(x, w)
      decreases |w|
    {
      if w == [] then x else End(Target(x, w[0]), w[1..])
    }

    ghost predicate IsInner(x: Name) {
      exists i :: IsStep(x, i)
    }

    /** A walk of at least one step, the first of them not before the i-th import. */
    predicate Starts(x: Name, i: nat, w: seq<nat>) {
      w != [] && IsWalk(x, w) && w[0] >= i
    }

    /** No walk comes to a visited account or back to x, and no two walks come to one account that goes
        on from there. */
    ghost predicate Tidy(x: Name, i: nat, visited: set<Name>) {
      && (forall w :: Starts(x, i, w) ==> End(x, w) !in visited && End(x, w) != x)
      && (forall w1, w2 :: Starts(x, i, w1) && Starts(x, i, w2) && w1 != w2 && End(x, w1) == End(x, w2) ==>
            !IsInner(End(x, w1)))
    }

    /** The accounts that a search of x from its i-th import on adds to the visited ones. */
    ghost predicate Marks(x: Name, i: nat, z: Name) {
      || (z == x && exists w :: Starts(x, i, w))
      || exists w :: Starts(x, i, w) && End(x, w) == z && IsInner(z)
    }

    lemma Step(x: Name, i: nat, w: seq<nat>)
      requires IsStep(x, i) && IsWalk(Target(x, i), w)
      ensures Starts(x, i, [i] + w) && End(x, [i] + w) == End(Target(x, i), w)
    {
      assert ([i] + w)[1..] == w;
    }

    /** A walk takes the i-th import first or a later one. */
    lemma FirstStep(x: Name, i: nat, w: seq<nat>)
      requires Starts(x, i, w)
      ensures Starts(x, i + 1, w) || (w[0] == i && w == [i] + w[1..] && IsStep(x, i) && IsWalk(Target(x, i), w[1..]))
    {
    }

    lemma GoesOn(x: Name, i: nat, w: seq<nat>)
      requires Starts(x, i, w)
      ensures IsInner(x)
    {
      assert IsStep(x, w[0]);
    }

    /** What the search of y marks is what a walk from y comes to and goes on from. */
    lemma MarkedWalk(y: Name, z: Name) returns (w: seq<nat>)
      requires Marks(y, 0, z)
      ensures IsWalk(y, w) && End(y, w) == z && IsInner(z)
    {
      hide IsStep;
      if z == y && exists w' :: Starts(y, 0, w') {
        var w' :| Starts(y, 0, w');
        GoesOn(y, 0, w');
        w := [];
      } else {
        w :| Starts(y, 0, w) && End(y, w) == z && IsInner(z);
      }
    }

    lemma WalkMarks(y: Name, w: seq<nat>)
      requires IsWalk(y, w) && IsInner(End(y, w))
      ensures Marks(y, 0, End(y, w))
    {
      if w == [] {
        var j :| IsStep(y, j);
        Step(y, j, []);
        assert Starts(y, 0, [j]);
      } else {
        assert Starts(y, 0, w);
      }
    }

    lemma MarksStep(x: Name, i: nat, z: Name)
      requires IsStep(x, i)
      ensures Marks(x, i, z) <==> z == x || Marks(Target(x, i), 0, z) || Marks(x, i + 1, z)
    {
      hide IsStep;
      var y := Target(x, i);
      Step(x, i, []);
      if Marks(x, i, z) && z != x {
        var w :| Starts(x, i, w) && End(x, w) == z && IsInner(z);
        FirstStep(x, i, w);
        if !Starts(x, i + 1, w) {
          WalkMarks(y, w[1..]);
        }
      }
      if Marks(y, 0, z) {
        var w := MarkedWalk(y, z);
        Step(x, i, w);
      }
    }

    /** What x's i-th import needs, if x is tidy. */
    lemma TidyBelow(x: Name, i: nat, visited: set<Name>)
      requires IsStep(x, i) && Tidy(x, i, visited)
      ensures Tidy(Target(x, i), 0, visited + {x})
    {
      hide IsStep;
      var y := Target(x, i);
      Step(x, i, []);
      forall w | Starts(y, 0, w)
        ensures End(y, w) !in visited + {x} && End(y, w) != y
      {
        Step(x, i, w);
        GoesOn(y, 0, w);
        assert [i] != [i] + w;
      }
      forall w1, w2 | Starts(y, 0, w1) && Starts(y, 0, w2) && w1 != w2 && End(y, w1) == End(y, w2)
        ensures !IsInner(End(y, w1))
      {
        Step(x, i, w1);
        Step(x, i, w2);
        assert ([i] + w1)[1..] == w1 && ([i] + w2)[1..] == w2;
      }
    }

    /** A later import that leads to what the i-th one has marked. */
    lemma MetAgain(x: Name, i: nat, w: seq<nat>, visited: set<Name>)
      requires IsStep(x, i) && Starts(x, i + 1, w)
      ensures Marks(Target(x, i), 0, End(x, w)) ==> IsInner(End(x, w)) && !Tidy(x, i, visited)
    {
      hide IsStep;
      if Marks(Target(x, i), 0, End(x, w)) {
        var w' := MarkedWalk(Target(x, i), End(x, w));
        Step(x, i, w');
        assert ([i] + w')[0] == i && Starts(x, i, w);
      }
    }

    /** What the later imports need. */
    lemma TidyAfter(x: Name, i: nat, visited: set<Name>, v: set<Name>)
      requires IsStep(x, i) && Tidy(x, i, visited)
      requires forall z :: z in v <==> z in visited + {x} || Marks(Target(x, i), 0, z)
      ensures Tidy(x, i + 1, v)
    {
      hide IsStep, Marks;
      forall w | Starts(x, i + 1, w)
        ensures End(x, w) !in v
      {
        MetAgain(x, i, w, visited);
        assert Starts(x, i, w);
      }
    }

    lemma NoReturn(x: Name, i: nat, visited: set<Name>)
      requires IsStep(x, i)
      ensures Target(x, i) == x ==> !Tidy(x, 0, visited + {x})
    {
      hide IsStep;
      Step(x, i, []);
      assert Target(x, i) == x ==> Starts(x, 0, [i]) && End(x, [i]) == x;
    }

    /** A walk by the i-th import and a walk by a later one do not meet in an account that goes on. */
    lemma Apart(x: Name, i: nat, w1: seq<nat>, w2: seq<nat>, v: set<Name>)
      requires IsStep(x, i) && IsWalk(Target(x, i), w1) && Starts(x, i + 1, w2)
      requires Tidy(x, i + 1, v) && forall z :: Marks(Target(x, i), 0, z) ==> z in v
      ensures End(Target(x, i), w1) == End(x, w2) ==> !IsInner(End(x, w2))
    {
      hide IsStep, Marks;
      if IsInner(End(Target(x, i), w1)) {
        WalkMarks(Target(x, i), w1);
      }
    }

    /** Two walks by the i-th import. */
    lemma ApartBelow(y: Name, w1: seq<nat>, w2: seq<nat>, visited: set<Name>)
      requires IsWalk(y, w1) && IsWalk(y, w2) && w1 != w2 && Tidy(y, 0, visited)
      ensures End(y, w1) == End(y, w2) ==> !IsInner(End(y, w1))
    {
      hide IsStep;
      assert w1 != [] ==> Starts(y, 0, w1);
      assert w2 != [] ==> Starts(y, 0, w2);
    }

    /** And that this is enough. */
    lemma TidyTogether(x: Name, i: nat, visited: set<Name>, v: set<Name>)
      requires IsStep(x, i) && Target(x, i) !in visited
      requires Tidy(Target(x, i), 0, visited + {x}) && Tidy(x, i + 1, v)
      requires forall z :: z in v <==> z in visited + {x} || Marks(Target(x, i), 0, z)
      ensures Tidy(x, i, visited)
    {
      hide IsStep, Marks;
      var y := Target(x, i);
      NoReturn(x, i, visited);
      forall w | Starts(x, i, w)
        ensures End(x, w) !in visited && End(x, w) != x
      {
        FirstStep(x, i, w);
        assert !Starts(x, i + 1, w) && w[1..] != [] ==> Starts(y, 0, w[1..]);
      }
      forall w1, w2 | Starts(x, i, w1) && Starts(x, i, w2) && w1 != w2 && End(x, w1) == End(x, w2)
        ensures !IsInner(End(x, w1))
      {
        FirstStep(x, i, w1);
        FirstStep(x, i, w2);
        if Starts(x, i + 1, w1) && !Starts(x, i + 1, w2) {
          Apart(x, i, w2[1..], w1, v);
        } else if !Starts(x, i + 1, w1) && Starts(x, i + 1, w2) {
          Apart(x, i, w1[1..], w2, v);
        } else if !Starts(x, i + 1, w1) {
          ApartBelow(y, w1[1..], w2[1..], visited + {x});
        }
      }
    }

    /** Imports that bring in something else do not matter. */
    lemma NoStep(x: Name, i: nat, visited: set<Name>)
      requires !IsStep(x, i)
      ensures Tidy(x, i, visited) <==> Tidy(x, i + 1, visited)
      ensures forall z :: Marks(x, i, z) <==> Marks(x, i + 1, z)
    {
      assert forall w {:trigger Starts(x, i, w)} {:trigger Starts(x, i + 1, w)} :: Starts(x, i, w) <==> Starts(x, i + 1, w);
    }

    lemma NoMoreSteps(x: Name, i: nat, visited: set<Name>)
      requires forall j :: j >= i ==> !IsStep(x, j)
      ensures Tidy(x, i, visited) && forall z :: !Marks(x, i, z)
    {
      assert forall w :: !Starts(x, i, w);
    }

    // ----- the search -----

    /** What it finds says exactly whether the account is tidy, unless it has gone too deep. */
    ghost predicate IsExact(r: Found, x: Name, i: nat, visited: set<Name>) {
      && (r.verdict == Fine ==> Tidy(x, i, visited) && forall z :: z in r.visited <==> z in visited || Marks(x, i, z))
      && (r.verdict == FormsCycle ==> !Tidy(x, i, visited))
    }

    lemma {:induction false} SearchIsExact(x: Name, visited: set<Name>)
      requires Stays()
      ensures IsExact(Search(g, x, s, visited), x, 0, visited)
      decreases Unvisited(g, visited), x in visited, |Of(g, x).imports| + 1
    {
      if |visited| < MAX_DEPTH {
        if ExportsMatching(g, x, s) {
          SearchFromIsExact(x, 0, visited);
        } else {
          NoMoreSteps(x, 0, visited);
        }
      }
    }

    lemma {:induction false} SearchFromIsExact(x: Name, i: nat, visited: set<Name>)
      requires Stays() && ExportsMatching(g, x, s) && i <= |Of(g, x).imports|
      ensures IsExact(SearchFrom(g, x, s, i, visited), x, i, visited)
      decreases Unvisited(g, visited), x in visited, |Of(g, x).imports| - i
    {
      hide Tidy, Marks, ExportsMatching, Collide, Tokens, Narrowed, Unvisited, Search;
      if i == |Of(g, x).imports| {
        NoMoreSteps(x, i, visited);
      } else if !IsStep(x, i) {
        SearchFromIsExact(x, i + 1, visited);
        NoStep(x, i, visited);
      } else if Target(x, i) in visited {
        LeadsBack(x, i, visited);
      } else {
        assert Narrowed(s, Of(g, x).imports[i].to) == s;
        VisitingShrinks(g, x, visited, visited + {x});
        SearchIsExact(Target(x, i), visited + {x});
        var r := Search(g, Target(x, i), s, visited + {x});
        if r.verdict == Fine {
          VisitingShrinks(g, x, visited, r.visited);
          SearchFromIsExact(x, i + 1, r.visited);
        }
        StepIsExact(x, i, visited, r);
      }
    }

    lemma LeadsBack(x: Name, i: nat, visited: set<Name>)
      requires IsStep(x, i) && Target(x, i) in visited
      ensures !Tidy(x, i, visited)
    {
      Step(x, i, []);
    }

    lemma StepIsExact(x: Name, i: nat, visited: set<Name>, r: Found)
      requires IsStep(x, i) && Target(x, i) !in visited && visited + {x} <= r.visited
      requires IsExact(r, Target(x, i), 0, visited + {x})
      ensures r.verdict == FormsCycle ==> !Tidy(x, i, visited)
      ensures r.verdict == Fine ==>
                forall r': Found :: IsExact(r', x, i + 1, r.visited) ==> IsExact(r', x, i, visited)
    {
      hide IsStep, Tidy, Marks;
      if Tidy(x, i, visited) {
        TidyBelow(x, i, visited);
        if r.verdict == Fine {
          TidyAfter(x, i, visited, r.visited);
        }
      }
      if r.verdict == Fine {
        forall z
          ensures Marks(x, i, z) <==> z == x || Marks(Target(x, i), 0, z) || Marks(x, i + 1, z)
        {
          MarksStep(x, i, z);
        }
        if Tidy(x, i + 1, r.visited) {
          TidyTogether(x, i, visited, r.visited);
        }
      }
    }
  }
}
