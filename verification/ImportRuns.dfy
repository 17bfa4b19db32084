/** Whole runs of adding exports and imports: as long as an import fits to those there are, no message can
    go round in a cycle. */
module ImportRuns {
  import opened Subjects
  import opened ImportSearch
  import opened ImportWalks
  import Text

  // ----- the graph of a message -----

  /** A message on the literal l, which is published in account y, comes to account x. */
  predicate BringsIn(g: Graph, l: seq<string>, x: Name, y: Name) {
    exists i :: 0 <= i < |Of(g, x).imports| && Of(g, x).imports[i].acc == y && Matches(Tokens(Of(g, x).imports[i].to), l)
  }

  predicate IsPath(g: Graph, l: seq<string>, p: seq<Name>) {
    p != [] && forall k :: 0 <= k < |p| - 1 ==> BringsIn(g, l, p[k], p[k + 1])
  }

  predicate IsPathTo(g: Graph, l: seq<string>, p: seq<Name>, x: Name, y: Name) {
    IsPath(g, l, p) && p[0] == x && p[|p| - 1] == y
  }

  /** It comes to x from y, by way of any number of accounts. */
  ghost predicate Reaches(g: Graph, l: seq<string>, x: Name, y: Name) {
    exists p :: IsPathTo(g, l, p, x, y)
  }

  /** No two accounts have it from each other. */
  ghost predicate NoCycle(g: Graph, l: seq<string>) {
    forall x, y :: Reaches(g, l, x, y) && Reaches(g, l, y, x) ==> x == y
  }

  lemma RestIsPath(g: Graph, l: seq<string>, p: seq<Name>)
    requires IsPath(g, l, p) && |p| > 1
    ensures IsPath(g, l, p[1..])
  {
    forall k | 0 <= k < |p[1..]| - 1
      ensures BringsIn(g, l, p[1..][k], p[1..][k + 1])
    {
      assert p[1..][k] == p[k + 1] && p[1..][k + 1] == p[k + 2];
    }
  }

  lemma ReachesSelf(g: Graph, l: seq<string>, x: Name)
    ensures Reaches(g, l, x, x)
  {
    assert IsPathTo(g, l, [x], x, x);
  }

  lemma ReachesOver(g: Graph, l: seq<string>, x: Name, y: Name, z: Name)
    requires Reaches(g, l, x, y) && Reaches(g, l, y, z)
    ensures Reaches(g, l, x, z)
  {
    var p :| IsPathTo(g, l, p, x, y);
    var q :| IsPathTo(g, l, q, y, z);
    var r := p + q[1..];
    forall k | 0 <= k < |r| - 1
      ensures BringsIn(g, l, r[k], r[k + 1])
    {
      if k >= |p| - 1 {
        assert r[k] == q[k - |p| + 1] && r[k + 1] == q[k - |p| + 2];
      }
    }
    assert IsPathTo(g, l, r, x, z);
  }

  lemma ReachesFirst(g: Graph, l: seq<string>, x: Name, y: Name, z: Name)
    requires BringsIn(g, l, x, y) && Reaches(g, l, y, z)
    ensures Reaches(g, l, x, z)
  {
    assert IsPathTo(g, l, [x, y], x, y);
    ReachesOver(g, l, x, y, z);
  }

  // ----- one more import -----

  lemma BringsInAfter(g: Graph, a: Name, si: StreamImport, l: seq<string>, x: Name, y: Name)
    ensures BringsIn(WithImport(g, a, si), l, x, y) <==>
            BringsIn(g, l, x, y) || (Matches(Tokens(si.to), l) && x == a && y == si.acc)
  {
    var g' := WithImport(g, a, si);
    if x == a {
      var before, after := Of(g, a).imports, Of(g', a).imports;
      assert after == before + [si] && after[|before|] == si;
      assert forall i :: 0 <= i < |before| ==> after[i] == before[i];
    } else {
      assert Of(g', x) == Of(g, x);
    }
  }

  /** A path that uses the new import comes to it and goes on behind it. */
  lemma {:induction false} PathAfter(g: Graph, a: Name, si: StreamImport, l: seq<string>, p: seq<Name>)
    requires IsPath(WithImport(g, a, si), l, p)
    ensures || Reaches(g, l, p[0], p[|p| - 1])
            || (Matches(Tokens(si.to), l) && Reaches(g, l, p[0], a) && Reaches(g, l, si.acc, p[|p| - 1]))
    decreases |p|
  {
    hide BringsIn, Reaches;
    if |p| == 1 {
      ReachesSelf(g, l, p[0]);
    } else {
      var last := p[|p| - 1];
      RestIsPath(WithImport(g, a, si), l, p);
      PathAfter(g, a, si, l, p[1..]);
      BringsInAfter(g, a, si, l, p[0], p[1]);
      if BringsIn(g, l, p[0], p[1]) {
        if Reaches(g, l, p[1], last) {
          ReachesFirst(g, l, p[0], p[1], last);
        } else {
          ReachesFirst(g, l, p[0], p[1], a);
        }
      } else {
        ReachesSelf(g, l, a);
      }
    }
  }

  lemma ReachesAfter(g: Graph, a: Name, si: StreamImport, l: seq<string>, x: Name, y: Name)
    requires Reaches(WithImport(g, a, si), l, x, y)
    ensures Reaches(g, l, x, y) || (Matches(Tokens(si.to), l) && Reaches(g, l, x, a) && Reaches(g, l, si.acc, y))
  {
    hide IsPath;
    var p :| IsPathTo(WithImport(g, a, si), l, p, x, y);
    PathAfter(g, a, si, l, p);
  }

  /** An import from an account that does not have the subject from here closes no cycle. */
  lemma NoCycleAfter(g: Graph, a: Name, si: StreamImport, l: seq<string>)
    requires NoCycle(g, l)
    requires Matches(Tokens(si.to), l) && si.acc != a ==> !Reaches(g, l, si.acc, a)
    ensures NoCycle(WithImport(g, a, si), l)
  {
    var g' := WithImport(g, a, si);
    forall x, y | Reaches(g', l, x, y) && Reaches(g', l, y, x)
      ensures x == y
    {
      hide Reaches;
      ReachesAfter(g, a, si, l, x, y);
      ReachesAfter(g, a, si, l, y, x);
      RoundAbout(g, l, a, si.acc, x, y);
      RoundAbout(g, l, a, si.acc, y, x);
    }
  }

  lemma RoundAbout(g: Graph, l: seq<string>, a: Name, b: Name, x: Name, y: Name)
    ensures Reaches(g, l, x, a) && Reaches(g, l, b, y) && Reaches(g, l, y, x) ==> Reaches(g, l, b, a)
    ensures Reaches(g, l, b, y) && Reaches(g, l, y, a) ==> Reaches(g, l, b, a)
    ensures Reaches(g, l, x, a) && a == b && Reaches(g, l, b, y) ==> Reaches(g, l, x, y)
  {
    hide Reaches;
    if Reaches(g, l, b, y) && Reaches(g, l, y, a) {
      ReachesOver(g, l, b, y, a);
    }
    if Reaches(g, l, x, a) && Reaches(g, l, b, y) {
      if Reaches(g, l, y, x) {
        ReachesOver(g, l, b, y, x);
        ReachesOver(g, l, b, x, a);
      }
      if a == b {
        ReachesOver(g, l, x, a, y);
      }
    }
  }

  // ----- what the search makes sure of -----

  predicate IsUnstarry(s: string) {
    forall t :: t in Tokens(s) ==> !IsStarry(t)
  }

  /** Imports are valid and not renamed, and their subject is exported where they come from. */
  predicate IsSound(g: Graph, si: StreamImport) {
    si.from == si.to && Valid(si.to) && IsUnstarry(si.to) && ExportsMatching(g, si.acc, si.to)
  }

  predicate AllSound(g: Graph) {
    forall a, i :: a in g && 0 <= i < |g[a].imports| ==> IsSound(g, g[a].imports[i])
  }

  /** Every import that collides with the subject takes in all of it. */
  predicate Fits(g: Graph, s: string) {
    forall a, i :: a in g && 0 <= i < |g[a].imports| && Collide(Tokens(s), Tokens(g[a].imports[i].to)) ==>
      IsSubset(Tokens(s), Tokens(g[a].imports[i].to))
  }

  /** A literal subject fits always. */
  lemma PlainFits(g: Graph, s: string)
    requires IsPlain(s)
    ensures Fits(g, s) && IsUnstarry(s)
  {
    var p := Tokens(s);
    assert WellFormed(p) by {
      assert forall i :: 0 <= i < |p| ==> p[i] in p;
    }
    SubsetOfSelf(p);
    assert !HasWild(p);
  }

  /** Where a subject fits the search is never narrowed. */
  lemma FittingStays(g: Graph, s: string)
    requires AllSound(g) && Fits(g, s) && Valid(s) && IsUnstarry(s)
    ensures View(g, s).Stays()
  {
    hide Tokens, Collide, IsSubset, ExportsMatching;
    var view := View(g, s);
    forall x, i: nat | view.IsStep(x, i)
      ensures Narrowed(s, Of(g, x).imports[i].to) == s
    {
      var to := Of(g, x).imports[i].to;
      assert IsSound(g, g[x].imports[i]);
      if IsSubset(Tokens(to), Tokens(s)) {
        SubsetBothWays(Tokens(s), Tokens(to));
        SameTokens(s, to);
      }
    }
  }

  /** An import that takes in the message is one that the search goes by, and leads to an account that exports
      the subject. */
  lemma HopIsStep(g: Graph, s: string, l: seq<string>, x: Name, i: nat)
    requires AllSound(g) && Fits(g, s) && Valid(s) && ExportsMatching(g, x, s)
    requires i < |Of(g, x).imports| && IsLiteral(l) && Matches(Tokens(s), l) && Matches(Tokens(Of(g, x).imports[i].to), l)
    ensures View(g, s).IsStep(x, i) && ExportsMatching(g, Of(g, x).imports[i].acc, s)
  {
    hide Tokens, Collide, IsSubset, Matches, IsLiteral;
    var si := Of(g, x).imports[i];
    assert IsSound(g, g[x].imports[i]);
    assert Meet(Tokens(s), Tokens(si.to));
    CollideMeansMeet(Tokens(s), Tokens(si.to));
    assert IsSubset(Tokens(s), Tokens(si.to));
    ExportedToo(g, si.acc, s, si.to);
  }

  lemma ExportedToo(g: Graph, x: Name, s: string, t: string)
    requires Valid(s) && Valid(t) && IsSubset(Tokens(s), Tokens(t)) && ExportsMatching(g, x, t)
    ensures ExportsMatching(g, x, s)
  {
    hide Tokens, IsSubset;
    var e :| e in Of(g, x).exports.Keys && IsSubset(Tokens(t), Tokens(e));
    SubsetOfSubset(Tokens(s), Tokens(t), Tokens(e));
  }

  lemma {:induction false} PathIsWalk(g: Graph, s: string, l: seq<string>, p: seq<Name>) returns (w: seq<nat>)
    requires AllSound(g) && Fits(g, s) && Valid(s) && IsLiteral(l) && Matches(Tokens(s), l)
    requires IsPath(g, l, p) && ExportsMatching(g, p[0], s)
    ensures View(g, s).IsWalk(p[0], w) && View(g, s).End(p[0], w) == p[|p| - 1] && |w| == |p| - 1
    decreases |p|
  {
    hide AllSound, Fits, Valid, Tokens, Matches, ExportsMatching, IsLiteral;
    if |p| == 1 {
      w := [];
    } else {
      assert BringsIn(g, l, p[0], p[1]);
      var i :| 0 <= i < |Of(g, p[0]).imports| && Of(g, p[0]).imports[i].acc == p[1] && Matches(Tokens(Of(g, p[0]).imports[i].to), l);
      HopIsStep(g, s, l, p[0], i);
      RestIsPath(g, l, p);
      var v := PathIsWalk(g, s, l, p[1..]);
      w := [i] + v;
      assert w[1..] == v;
    }
  }

  lemma NotTidy(view: View, x: Name, w: seq<nat>, visited: set<Name>)
    requires w != [] && view.IsWalk(x, w) && view.End(x, w) in visited
    ensures !view.Tidy(x, 0, visited)
  {
    assert view.Starts(x, 0, w);
  }

  /** No error from the search means that the exporter has nothing of the subject from the importer. */
  lemma FineIsUnreachable(g: Graph, a: Name, acc: Name, s: string, l: seq<string>)
    requires AllSound(g) && Fits(g, s) && Valid(s) && IsUnstarry(s) && ExportsMatching(g, acc, s) && a != acc
    requires IsLiteral(l) && Matches(Tokens(s), l) && Search(g, acc, s, {a}).verdict == Fine
    ensures !Reaches(g, l, acc, a)
  {
    hide AllSound, Fits, Valid, Tokens, Matches, ExportsMatching, IsLiteral, Search, IsUnstarry;
    var view := View(g, s);
    FittingStays(g, s);
    view.SearchIsExact(acc, {a});
    if Reaches(g, l, acc, a) {
      var p :| IsPathTo(g, l, p, acc, a);
      var w := PathIsWalk(g, s, l, p);
      NotTidy(view, acc, w, {a});
    }
  }

  // ----- runs -----

  datatype Op =
    | AddExport(a: Name, subject: string, accounts: set<Name>)
    | AddImport(a: Name, acc: Name, from: string, to: string)

  predicate Accepts(g: Graph, a: Name, acc: Name, from: string, to: string) {
    MayImport(g, a, acc, from) && Search(g, acc, to, {a}).verdict == Fine && !IsDuplicate(g, a, acc, from)
  }

  /** An import is added or refused; a missing local subject is the remote one. */
  predicate IsNext(g: Graph, op: Op, g': Graph) {
    match op
    case AddExport(a, subject, accounts) => g' == WithExport(g, a, subject, accounts)
    case AddImport(a, acc, from, to) =>
      var local := if to == "" then from else to;
      || g' == g
      || (Accepts(g, a, acc, from, local) && g' == WithImport(g, a, StreamImport(acc, from, local)))
  }

  /** An import that is not renamed, and that every import it collides with takes in. */
  predicate IsFittingOp(g: Graph, op: Op) {
    op.AddImport? ==> Fits(g, op.from) && IsUnstarry(op.from) && (op.to == "" || op.to == op.from)
  }

  predicate IsPlainOp(op: Op) {
    op.AddImport? ==> IsPlain(op.from) && (op.to == "" || op.to == op.from)
  }

  predicate IsRun(gs: seq<Graph>, ops: seq<Op>) {
    |gs| == |ops| + 1 && gs[0] == map[] && forall k :: 0 <= k < |ops| ==> IsNext(gs[k], ops[k], gs[k + 1])
  }

  lemma MayImportIsExported(g: Graph, a: Name, acc: Name, from: string)
    requires MayImport(g, a, acc, from)
    ensures ExportsMatching(g, acc, from)
  {
    hide IsSubset, Tokens;
    SubsetOfSelf(Tokens(from));
  }

  /** Exports are only ever added. */
  lemma ExportsStay(g: Graph, op: Op, g': Graph, x: Name, s: string)
    requires IsNext(g, op, g') && ExportsMatching(g, x, s)
    ensures ExportsMatching(g', x, s)
  {
    hide IsSubset, Tokens;
    var e :| e in Of(g, x).exports.Keys && IsSubset(Tokens(s), Tokens(e));
    assert e in Of(g', x).exports.Keys;
  }

  lemma NextIsSound(g: Graph, op: Op, g': Graph)
    requires AllSound(g) && IsNext(g, op, g') && IsFittingOp(g, op)
    ensures AllSound(g')
  {
    hide ExportsMatching, IsUnstarry, IsDuplicate, Search, Fits;
    forall a, i | a in g' && 0 <= i < |g'[a].imports|
      ensures IsSound(g', g'[a].imports[i])
    {
      var si := g'[a].imports[i];
      if a in g && i < |g[a].imports| {
        assert si == g[a].imports[i];
        assert IsSound(g, si);
      } else {
        MayImportIsExported(g, op.a, op.acc, op.from);
      }
      ExportsStay(g, op, g', si.acc, si.to);
    }
  }

  lemma ExportKeepsReach(g: Graph, a: Name, subject: string, accounts: set<Name>, l: seq<string>)
    requires NoCycle(g, l)
    ensures NoCycle(WithExport(g, a, subject, accounts), l)
  {
    var g' := WithExport(g, a, subject, accounts);
    assert forall x :: Of(g', x).imports == Of(g, x).imports;
    forall x, y | Reaches(g', l, x, y)
      ensures Reaches(g, l, x, y)
    {
      var p :| IsPathTo(g', l, p, x, y);
      forall k | 0 <= k < |p| - 1
        ensures BringsIn(g, l, p[k], p[k + 1])
      {
        assert BringsIn(g', l, p[k], p[k + 1]);
      }
      assert IsPathTo(g, l, p, x, y);
    }
  }

  lemma NextHasNoCycle(g: Graph, op: Op, g': Graph, l: seq<string>)
    requires AllSound(g) && IsNext(g, op, g') && IsFittingOp(g, op) && IsLiteral(l) && NoCycle(g, l)
    ensures NoCycle(g', l)
  {
    hide NoCycle, Reaches, IsUnstarry, Search, IsDuplicate, ExportsMatching, AllSound, Fits, Matches, Tokens;
    match op
    case AddExport(a, subject, accounts) => ExportKeepsReach(g, a, subject, accounts, l);
    case AddImport(a, acc, from, to) =>
      if g' != g {
        MayImportIsExported(g, a, acc, from);
        if acc != a && Matches(Tokens(from), l) {
          FineIsUnreachable(g, a, acc, from, l);
        }
        NoCycleAfter(g, a, StreamImport(acc, from, from), l);
      }
  }

  /** Whatever accounts export and import, in whatever order, and whichever imports are refused: as long
      as every import that is asked for fits, no message ever has a cycle through two accounts. */
  lemma {:induction false} RunsHaveNoCycle(gs: seq<Graph>, ops: seq<Op>, k: nat, l: seq<string>)
    requires IsRun(gs, ops) && k < |gs| && IsLiteral(l) && forall i :: 0 <= i < |ops| ==> IsFittingOp(gs[i], ops[i])
    ensures AllSound(gs[k]) && NoCycle(gs[k], l)
  {
    hide IsNext, IsFittingOp, IsSound, Reaches, IsLiteral;
    if k == 0 {
      EmptyHasNoCycle(l);
    } else {
      RunsHaveNoCycle(gs, ops, k - 1, l);
      NextIsSound(gs[k - 1], ops[k - 1], gs[k]);
      NextHasNoCycle(gs[k - 1], ops[k - 1], gs[k], l);
    }
  }

  /** In particular if they are literal. */
  lemma PlainRunsHaveNoCycle(gs: seq<Graph>, ops: seq<Op>, k: nat, l: seq<string>)
    requires IsRun(gs, ops) && k < |gs| && IsLiteral(l) && forall i :: 0 <= i < |ops| ==> IsPlainOp(ops[i])
    ensures AllSound(gs[k]) && NoCycle(gs[k], l)
  {
    hide IsNext, IsPlain, Fits, IsUnstarry, AllSound, NoCycle;
    forall i | 0 <= i < |ops|
      ensures IsFittingOp(gs[i], ops[i])
    {
      if ops[i].AddImport? {
        assert IsPlainOp(ops[i]);
        PlainFits(gs[i], ops[i].from);
      }
    }
    RunsHaveNoCycle(gs, ops, k, l);
  }

  lemma EmptyHasNoCycle(l: seq<string>)
    ensures NoCycle(map[], l)
  {
    var g: Graph := map[];
    forall x, y | Reaches(g, l, x, y)
      ensures x == y
    {
      var p :| IsPathTo(g, l, p, x, y);
      assert |p| > 1 ==> BringsIn(g, l, p[0], p[1]);
    }
  }

  // ----- what the search refuses -----

  /** With fewer accounts than the limit the search is never too deep. */
  lemma {:induction false} NeverTooDeep(g: Graph, x: Name, to: string, visited: set<Name>)
    requires |visited + g.Keys| < MAX_DEPTH
    ensures Search(g, x, to, visited).verdict != TooDeep
    ensures Search(g, x, to, visited).visited <= visited + g.Keys
    decreases Unvisited(g, visited), x in visited, |Of(g, x).imports| + 1
  {
    hide ExportsMatching;
    SubsetIsSmaller(visited, visited + g.Keys);
    NeverTooDeepFrom(g, x, to, 0, visited);
  }

  lemma {:induction false} NeverTooDeepFrom(g: Graph, x: Name, to: string, i: nat, visited: set<Name>)
    requires |visited + g.Keys| < MAX_DEPTH && i <= |Of(g, x).imports|
    ensures SearchFrom(g, x, to, i, visited).verdict != TooDeep
    ensures SearchFrom(g, x, to, i, visited).visited <= visited + g.Keys
    decreases Unvisited(g, visited), x in visited, |Of(g, x).imports| - i
  {
    hide Collide, Tokens, Narrowed, Search, Unvisited;
    if i < |Of(g, x).imports| {
      var si := Of(g, x).imports[i];
      if !Collide(Tokens(to), Tokens(si.to)) {
        NeverTooDeepFrom(g, x, to, i + 1, visited);
      } else if si.acc !in visited {
        var to' := Narrowed(to, si.to);
        VisitingShrinks(g, x, visited, visited + {x});
        assert visited + {x} + g.Keys == visited + g.Keys;
        NeverTooDeep(g, si.acc, to', visited + {x});
        var r := Search(g, si.acc, to', visited + {x});
        VisitingShrinks(g, x, visited, r.visited);
        assert r.visited + g.Keys == visited + g.Keys;
        NeverTooDeepFrom(g, x, to', i + 1, r.visited);
      }
    }
  }

  /** As long as nothing narrows it the import is refused exactly when the importer is reached, or when some
      account that goes on is reached in two ways. */
  lemma RefusedUnlessTidy(g: Graph, a: Name, acc: Name, s: string)
    requires View(g, s).Stays() && |{a} + g.Keys| < MAX_DEPTH
    ensures Search(g, acc, s, {a}).verdict == if View(g, s).Tidy(acc, 0, {a}) then Fine else FormsCycle
  {
    View(g, s).SearchIsExact(acc, {a});
    NeverTooDeep(g, acc, s, {a});
  }

  /** So imports that come together again, in an account that has the subject from elsewhere, are
      refused, whether or not they form a cycle. */
  lemma DiamondIsRefused(view: View, a: Name, acc: Name, i: nat, j: nat, k: nat, l: nat)
    requires view.Stays() && view.IsStep(acc, i) && view.IsStep(acc, j) && i != j
    requires view.IsStep(view.Target(acc, i), k) && view.IsStep(view.Target(acc, j), l)
    requires view.Target(view.Target(acc, i), k) == view.Target(view.Target(acc, j), l)
    requires view.IsInner(view.Target(view.Target(acc, i), k))
    ensures Search(view.g, acc, view.s, {a}).verdict != Fine
  {
    hide View.Stays;
    view.SearchIsExact(acc, {a});
    view.Step(view.Target(acc, i), k, []);
    view.Step(view.Target(acc, j), l, []);
    view.Step(acc, i, [k]);
    view.Step(acc, j, [l]);
    assert ([i] + [k])[0] != ([j] + [l])[0];
    assert view.Starts(acc, 0, [i] + [k]) && view.Starts(acc, 0, [j] + [l]);
  }

  /** B has the subject from C and D, which both have it from E, which has it from F. */
  function Diamond(s: string): (g: Graph) {
    var all: map<string, set<Name>> := map[s := {}];
    map["B" := Account(all, [StreamImport("C", s, s), StreamImport("D", s, s)]),
        "C" := Account(all, [StreamImport("E", s, s)]),
        "D" := Account(all, [StreamImport("E", s, s)]),
        "E" := Account(all, [StreamImport("F", s, s)]),
        "F" := Account(all, [])]
  }

  lemma DiamondExports(s: string, x: Name)
    requires Valid(s) && x in Diamond(s)
    ensures ExportsMatching(Diamond(s), x, s)
  {
    SubsetOfSelf(Tokens(s));
    hide Tokens, IsSubset, Valid;
    assert s in Of(Diamond(s), x).exports.Keys;
  }

  lemma DiamondIsSound(s: string)
    requires IsPlain(s) && Valid(s)
    ensures AllSound(Diamond(s)) && forall y :: !BringsIn(Diamond(s), Tokens(s), y, "A")
  {
    assert IsUnstarry(s);
    hide IsPlain, Valid, ExportsMatching, IsUnstarry;
    var g := Diamond(s);
    forall x, i | x in g && 0 <= i < |g[x].imports|
      ensures IsSound(g, g[x].imports[i]) && g[x].imports[i].acc != "A"
    {
      DiamondExports(s, g[x].imports[i].acc);
    }
  }

  /** An import that is refused although nothing leads back to the importer. */
  lemma RefusedWithoutCycle(s: string)
    requires IsPlain(s) && Valid(s)
    ensures AllSound(Diamond(s)) && !Reaches(Diamond(s), Tokens(s), "B", "A")
    ensures Search(Diamond(s), "B", s, {"A"}).verdict != Fine
  {
    hide IsPlain, Search, Tokens, Valid, ExportsMatching, AllSound, BringsIn;
    DiamondIsSound(s);
    NotBroughtIn(Diamond(s), Tokens(s), "B", "A");
    var view := View(Diamond(s), s);
    view.PlainStaysAll();
    DiamondExports(s, "B");
    DiamondExports(s, "C");
    DiamondExports(s, "D");
    DiamondExports(s, "E");
    assert view.IsStep("E", 0);
    DiamondIsRefused(view, "A", "B", 0, 1, 0, 0);
  }

  lemma NotBroughtIn(g: Graph, l: seq<string>, x: Name, a: Name)
    requires x != a && forall y :: !BringsIn(g, l, y, a)
    ensures !Reaches(g, l, x, a)
  {
    forall p | IsPath(g, l, p) && p[0] == x
      ensures p[|p| - 1] != a
    {
      assert |p| > 1 ==> BringsIn(g, l, p[|p| - 2], p[|p| - 1]);
    }
  }

  // ----- wildcards -----

  /** Where a subject does not fit the search may be led away: once it has been narrowed by one import of b,
      it passes over a later one that does not meet the narrower subject, even if that one comes from the
      account that is asking. */
  lemma NarrowedPastCycle(g: Graph, a: Name, b: Name, c: Name, to: string, t0: string, t1: string)
    requires Of(g, b).imports == [StreamImport(c, t0, t0), StreamImport(a, t1, t1)] && a != c && Of(g, c).imports == []
    requires Collide(Tokens(to), Tokens(t0)) && IsSubset(Tokens(t0), Tokens(to)) && !Collide(Tokens(t0), Tokens(t1))
    ensures Search(g, b, to, {a}).verdict == Fine
  {
    hide ExportsMatching, Collide, IsSubset, Tokens;
    var r := Search(g, c, t0, {a} + {b});
    assert |{a} + {b}| <= 2;
    assert SearchFrom(g, c, t0, 0, {a} + {b}).verdict == Fine;
    assert SearchFrom(g, b, t0, 2, r.visited).verdict == Fine;
    assert SearchFrom(g, b, t0, 1, r.visited).verdict == Fine;
  }

  lemma NothingToSearch(g: Graph, x: Name, to: string, a: Name)
    requires Of(g, x).imports == []
    ensures Search(g, x, to, {a}).verdict == Fine
  {
    hide ExportsMatching;
    assert SearchFrom(g, x, to, 0, {a}).verdict == Fine;
  }

  lemma MayImportExported(g: Graph, a: Name, acc: Name, s: string)
    requires Valid(s) && s in Of(g, acc).exports && Of(g, acc).exports[s] == {}
    ensures MayImport(g, a, acc, s)
  {
    assert s in Of(g, acc).exports.Keys;
  }

  lemma NobodyListed(g: Graph, x: Name, s: string)
    requires Of(g, x).exports == map[]
    ensures WithExport(g, x, s, {}) == g[x := Account(map[s := {}], Of(g, x).imports)]
  {
    var none: set<Name> := {};
    assert none + none == none;
  }

  /** C and A export a subject each, B has both and exports a third. */
  function Detour(t0: string, t: string, s: string): (g: Graph) {
    map["C" := Account(map[t0 := {}], []),
        "A" := Account(map[t := {}], []),
        "B" := Account(map[s := {}], [StreamImport("C", t0, t0), StreamImport("A", t, t)])]
  }

  /** That graph is come to by exports and imports. */
  lemma DetourIsReached(t0: string, t: string, s: string) returns (gs: seq<Graph>, ops: seq<Op>)
    requires Valid(t0) && Valid(t)
    ensures IsRun(gs, ops) && |ops| == 5 && gs[5] == Detour(t0, t, s)
  {
    hide Valid, Search, MayImport;
    var c, a := Account(map[t0 := {}], []), Account(map[t := {}], []);
    var i0, i1 := StreamImport("C", t0, t0), StreamImport("A", t, t);
    var g1: Graph := map["C" := c];
    var g2: Graph := map["C" := c, "A" := a];
    var g3: Graph := map["C" := c, "A" := a, "B" := Account(map[], [i0])];
    var g4: Graph := map["C" := c, "A" := a, "B" := Account(map[], [i0, i1])];
    gs := [map[], g1, g2, g3, g4, Detour(t0, t, s)];
    ops := [AddExport("C", t0, {}), AddExport("A", t, {}), AddImport("B", "C", t0, ""), AddImport("B", "A", t, ""), AddExport("B", s, {})];
    NobodyListed(map[], "C", t0);
    assert IsNext(map[], ops[0], g1);
    NobodyListed(g1, "A", t);
    assert IsNext(g1, ops[1], g2);
    MayImportExported(g2, "B", "C", t0);
    NothingToSearch(g2, "C", t0, "B");
    assert [] + [i0] == [i0];
    assert IsNext(g2, ops[2], g3);
    MayImportExported(g3, "B", "A", t);
    NothingToSearch(g3, "A", t, "B");
    assert [i0] + [i1] == [i0, i1];
    assert IsNext(g3, ops[3], g4);
    NobodyListed(g4, "B", s);
    assert IsNext(g4, ops[4], gs[5]);
  }

  /** And from there A may import from B what closes the cycle. */
  lemma DetourClosesCycle(t0: string, t: string, s: string, l: seq<string>) returns (gs: seq<Graph>, ops: seq<Op>)
    requires Valid(t0) && Valid(t) && Valid(s) && Matches(Tokens(s), l) && Matches(Tokens(t), l)
    requires Collide(Tokens(s), Tokens(t0)) && IsSubset(Tokens(t0), Tokens(s)) && !Collide(Tokens(t0), Tokens(t))
    ensures IsRun(gs, ops) && |ops| == 6 && gs[5] == Detour(t0, t, s) && ops[5] == AddImport("A", "B", s, "")
    ensures Reaches(gs[6], l, "A", "B") && Reaches(gs[6], l, "B", "A") && !NoCycle(gs[6], l)
  {
    hide Valid, Search, MayImport, Collide, IsSubset, Matches, Tokens;
    var gs', ops' := DetourIsReached(t0, t, s);
    var g, i := Detour(t0, t, s), StreamImport("B", s, s);
    MayImportExported(g, "A", "B", s);
    NarrowedPastCycle(g, "A", "B", "C", s, t0, t);
    var g' := WithImport(g, "A", i);
    gs, ops := gs' + [g'], ops' + [AddImport("A", "B", s, "")];
    assert IsNext(g, ops[5], g');
    forall k | 0 <= k < |ops|
      ensures IsNext(gs[k], ops[k], gs[k + 1])
    {
      assert k < 5 ==> gs[k] == gs'[k] && gs[k + 1] == gs'[k + 1] && ops[k] == ops'[k];
    }
    assert Of(g', "A").imports[0] == i && Of(g', "B").imports[1] == StreamImport("A", t, t);
    assert IsPathTo(g', l, ["A", "B"], "A", "B");
    assert IsPathTo(g', l, ["B", "A"], "B", "A");
  }

  /** No subject can be spared: whenever a message can go by two subjects, and the second does not take in all
      of the first, some run with an import of the second lets an import of the first close a cycle. */
  lemma NarrowingMissesCycle(s: string, t: string, l: seq<string>) returns (gs: seq<Graph>, ops: seq<Op>)
    requires Valid(s) && Valid(t) && IsUnstarry(t) && IsLiteral(l) && Matches(Tokens(s), l) && Matches(Tokens(t), l)
    requires !IsSubset(Tokens(s), Tokens(t))
    ensures IsRun(gs, ops) && |ops| == 6 && BringsIn(gs[5], l, "B", "A") && ops[5] == AddImport("A", "B", s, "")
    ensures !NoCycle(gs[6], l)
  {
    var t0 := ApartFrom(s, t);
    hide Tokens, Matches, Collide, IsSubset, Valid;
    gs, ops := DetourClosesCycle(t0, t, s, l);
    assert Of(gs[5], "B").imports[1] == StreamImport("A", t, t);
  }

  /** A literal of the one subject that the other does not take in. */
  lemma ApartFrom(s: string, t: string) returns (t0: string)
    requires Valid(s) && Valid(t) && IsUnstarry(t) && !IsSubset(Tokens(s), Tokens(t))
    ensures Valid(t0) && Collide(Tokens(s), Tokens(t0)) && IsSubset(Tokens(t0), Tokens(s)) && !Collide(Tokens(t0), Tokens(t))
  {
    var p, q := Tokens(s), Tokens(t);
    Text.SplitFields(s, TSEP);
    Text.SplitFields(t, TSEP);
    var l0 := NotSubset(p, q);
    assert l0 != [];
    t0 := Text.Join(l0, TSEP);
    Text.SplitJoin(l0, TSEP);
    assert Tokens(t0) == l0;
    MatchedIsSubset(p, l0);
    assert forall i :: 0 <= i < |l0| ==> l0[i] in l0;
    assert WellFormed(l0) && !HasWild(l0);
    LiteralMatchesItself(l0);
    assert Meet(p, l0);
    CollideMeansMeet(p, l0);
    if Collide(l0, q) {
      if HasWild(q) {
        SubsetCovers(l0, q, l0);
      }
      assert false;
    }
  }

  /** For instance when B has f.a from C and f.b from A, and A then asks for f.* from B: from then on a message
      on f.b goes round. */
  lemma NarrowingHappens() returns (gs: seq<Graph>, ops: seq<Op>)
    ensures IsRun(gs, ops) && |ops| == 6 && gs[5] == Detour("f.a", "f.b", "f.*") && ops[5] == AddImport("A", "B", "f.*", "")
    ensures Reaches(gs[6], ["f", "b"], "A", "B") && Reaches(gs[6], ["f", "b"], "B", "A")
  {
    var b := ["f", "b"];
    TheseTokens();
    hide Text.Split, NoCycle, Reaches, Collide, IsSubset, Matches, Valid;
    gs, ops := DetourClosesCycle("f.a", "f.b", "f.*", b);
  }

  lemma TheseTokens()
    ensures Valid("f.*") && Valid("f.a") && Valid("f.b")
    ensures Matches(Tokens("f.*"), ["f", "b"]) && Matches(Tokens("f.b"), ["f", "b"])
    ensures Collide(Tokens("f.*"), Tokens("f.a")) && IsSubset(Tokens("f.a"), Tokens("f.*")) && !Collide(Tokens("f.a"), Tokens("f.b"))
  {
    TwoTokens("*");
    TwoTokens("a");
    TwoTokens("b");
    assert "f" + "." + "*" == "f.*" && "f" + "." + "a" == "f.a" && "f" + "." + "b" == "f.b";
    hide Text.Split, Valid, Collide, IsSubset, Matches;
    OnTokens(["f", "*"], ["f", "a"], ["f", "b"]);
  }

  lemma OnTokens(all: seq<string>, a: seq<string>, b: seq<string>)
    requires all == ["f", "*"] && a == ["f", "a"] && b == ["f", "b"]
    ensures Matches(all, b) && Matches(b, b) && Collide(all, a) && IsSubset(a, all) && !Collide(a, b)
  {
    assert all[1..] == ["*"] && a[1..] == ["a"] && b[1..] == ["b"];
    assert all[1] == PWC && a[1] != b[1] && PWC !in a && FWC !in a && PWC !in b && FWC !in b;
    assert IsSubset(["a"], ["*"]) && Matches(["*"], ["b"]) && Matches(["b"], ["b"]);
  }

  lemma TwoTokens(t: string)
    requires TSEP !in t
    ensures Tokens("f" + "." + t) == ["f", t]
    ensures t != "" && !HasBlank(t) ==> Valid("f" + "." + t)
  {
    Text.SplitJoin(["f", t], TSEP);
    assert Text.Join(["f", t], TSEP) == "f" + "." + t;
  }

  // ----- renamed imports -----

  lemma NotExported(g: Graph, x: Name, e: string, to: string, a: Name)
    requires Of(g, x).exports == map[e := {}] && !IsSubset(Tokens(to), Tokens(e))
    ensures Search(g, x, to, {a}).verdict == Fine
  {
    hide IsSubset, Tokens;
  }

  /** With new names on the way the search sees nothing: A has y from B as x, and B has x from A as y. */
  lemma RenamingMissesCycle(x: string, y: string) returns (gs: seq<Graph>, ops: seq<Op>)
    requires Valid(x) && Valid(y) && !IsSubset(Tokens(x), Tokens(y)) && !IsSubset(Tokens(y), Tokens(x))
    ensures IsRun(gs, ops) && |ops| == 4
    ensures Of(gs[4], "A").imports == [StreamImport("B", y, x)] && Of(gs[4], "B").imports == [StreamImport("A", x, y)]
  {
    assert x != "" && y != "" by {
      assert Tokens("") == [""];
    }
    hide Valid, Search, MayImport, IsSubset, Tokens;
    var i0, i1 := StreamImport("A", x, y), StreamImport("B", y, x);
    var g1: Graph := map["A" := Account(map[x := {}], [])];
    var g2: Graph := map["A" := Account(map[x := {}], []), "B" := Account(map[y := {}], [])];
    var g3: Graph := map["A" := Account(map[x := {}], []), "B" := Account(map[y := {}], [i0])];
    var g4: Graph := map["A" := Account(map[x := {}], [i1]), "B" := Account(map[y := {}], [i0])];
    gs := [map[], g1, g2, g3, g4];
    ops := [AddExport("A", x, {}), AddExport("B", y, {}), AddImport("B", "A", x, y), AddImport("A", "B", y, x)];
    NobodyListed(map[], "A", x);
    assert IsNext(map[], ops[0], g1);
    NobodyListed(g1, "B", y);
    assert IsNext(g1, ops[1], g2);
    MayImportExported(g2, "B", "A", x);
    NotExported(g2, "A", x, y, "B");
    assert [] + [i0] == [i0];
    assert IsNext(g2, ops[2], g3);
    MayImportExported(g3, "A", "B", y);
    NotExported(g3, "B", y, x, "A");
    assert [] + [i1] == [i1];
    assert IsNext(g3, ops[3], g4);
  }
}
