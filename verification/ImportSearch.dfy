/** The search that keeps stream imports between accounts from forming a cycle. */
module ImportSearch {
  import opened Subjects

  type Name = string

  /** Messages on `from` in the account `acc` appear here as `to`. */
  datatype StreamImport = StreamImport(acc: Name, from: string, to: string)

  /** Each exported subject with the accounts that may import it; none listed means all may. */
  datatype Account = Account(exports: map<string, set<Name>>, imports: seq<StreamImport>)

  type Graph = map<Name, Account>

  const MAX_DEPTH: nat := 1024

  function Of(g: Graph, a: Name): (acc: Account) {
    if a in g then g[a] else Account(map[], [])
  }

  predicate ExportsMatching(g: Graph, a: Name, to: string) {
    exists e :: e in Of(g, a).exports.Keys && IsSubset(Tokens(to), Tokens(e))
  }

  datatype Verdict = Fine | FormsCycle | TooDeep

  datatype Found = Found(verdict: Verdict, visited: set<Name>)

  /** The subject that the search goes on with: the narrower one. */
  function Narrowed(to: string, other: string): (t: string) {
    if IsSubset(Tokens(other), Tokens(to)) then other else to
  }

  function Unvisited(g: Graph, visited: set<Name>): (n: nat) {
    |g.Keys - visited|
  }

  lemma VisitingShrinks(g: Graph, a: Name, visited: set<Name>, v: set<Name>)
    requires visited <= v
    ensures Unvisited(g, v) <= Unvisited(g, visited)
    ensures a in g && a !in visited && a in v ==> Unvisited(g, v) < Unvisited(g, visited)
  {
    SubsetIsSmaller(g.Keys - v, g.Keys - visited);
    if a in g && a !in visited && a in v {
      SubsetIsSmaller(g.Keys - v, g.Keys - visited - {a});
    }
  }

  lemma {:induction false} SubsetIsSmaller(s: set<Name>, t: set<Name>)
    requires s <= t
    ensures |s| <= |t|
  {
    if s != {} {
      var x :| x in s;
      SubsetIsSmaller(s - {x}, t - {x});
    }
  }

  /** What checking an account's imports finds, and which accounts have been visited afterwards. The
      visited accounts are shared by the whole search and only ever grow. It ends on every graph,
      whatever cycles are in it. */
  function Search(g: Graph, a: Name, to: string, visited: set<Name>): (r: Found)
    ensures visited <= r.visited
    decreases Unvisited(g, visited), a in visited, |Of(g, a).imports| + 1
  {
    if |visited| >= MAX_DEPTH then Found(TooDeep, visited)
    else if !ExportsMatching(g, a, to) then Found(Fine, visited)
    else SearchFrom(g, a, to, 0, visited)
  }

  /** The imports from position i on. */
  function SearchFrom(g: Graph, a: Name, to: string, i: nat, visited: set<Name>): (r: Found)
    requires i <= |Of(g, a).imports|
    ensures visited <= r.visited
    decreases Unvisited(g, visited), a in visited, |Of(g, a).imports| - i
  {
    if i == |Of(g, a).imports| then Found(Fine, visited)
    else
      var si := Of(g, a).imports[i];
      if !Collide(Tokens(to), Tokens(si.to)) then SearchFrom(g, a, to, i + 1, visited)
      else if si.acc in visited then Found(FormsCycle, visited)
      else
        VisitingShrinks(g, a, visited, visited + {a});
        var to' := Narrowed(to, si.to);
        var r := Search(g, si.acc, to', visited + {a});
        if r.verdict != Fine then r
        else
          VisitingShrinks(g, a, visited, r.visited);
          SearchFrom(g, a, to', i + 1, r.visited)
  }

  // ----- adding exports and imports -----

  predicate IsApproved(g: Graph, acc: Name, e: string, a: Name)
    requires e in Of(g, acc).exports
  {
    Of(g, acc).exports[e] == {} || a in Of(g, acc).exports[e]
  }

  /** Some export of the subject lets the account import it; which export is asked, when several match,
      is not determined. */
  predicate MayImport(g: Graph, a: Name, acc: Name, from: string) {
    Valid(from) &&
    exists e :: e in Of(g, acc).exports.Keys && (e == from || IsSubset(Tokens(from), Tokens(e))) && IsApproved(g, acc, e, a)
  }

  /** And some export of it does not, or there is none. */
  predicate MayRefuse(g: Graph, a: Name, acc: Name, from: string) {
    var exports := Of(g, acc).exports;
    || !Valid(from)
    || (from in exports && !IsApproved(g, acc, from, a))
    || (from !in exports && forall e :: e in exports.Keys && IsSubset(Tokens(from), Tokens(e)) ==> false)
    || (from !in exports && exists e :: e in exports.Keys && IsSubset(Tokens(from), Tokens(e)) && !IsApproved(g, acc, e, a))
  }

  predicate IsDuplicate(g: Graph, a: Name, acc: Name, from: string) {
    exists i :: 0 <= i < |Of(g, a).imports| && Of(g, a).imports[i].acc == acc && Of(g, a).imports[i].from == from
  }

  function WithImport(g: Graph, a: Name, si: StreamImport): (g': Graph) {
    g[a := Of(g, a).(imports := Of(g, a).imports + [si])]
  }

  function WithExport(g: Graph, a: Name, subject: string, accounts: set<Name>): (g': Graph) {
    var exports := Of(g, a).exports;
    var approved := (if subject in exports then exports[subject] else {}) + accounts;
    g[a := Of(g, a).(exports := exports[subject := approved])]
  }

  datatype Result = Added | NotAuthorized | CycleError | DepthError | Duplicate
}

/** The same, in place. */
module ImportAccounts {
  import opened Subjects
  import opened ImportSearch

  /** The map of visited accounts that one search hands on. */
  class Visited {
    var names: set<Name>

    constructor (name: Name)
      ensures names == {name}
    {
      names := {name};
    }
  }

  class Accounts {
    var graph: Graph

    constructor ()
      ensures graph == map[]
    {
      graph := map[];
    }

    method HasExportMatching(a: Name, to: string) returns (r: bool)
      ensures r == ExportsMatching(graph, a, to)
    {
      var left := Of(graph, a).exports.Keys;
      while left != {}
        invariant left <= Of(graph, a).exports.Keys
        invariant forall e :: e in Of(graph, a).exports.Keys - left ==> !IsSubset(Tokens(to), Tokens(e))
        decreases left
      {
        var e :| e in left;
        var found := IsSubsetMatch(Tokens(to), Tokens(e));
        if found {
          return true;
        }
        left := left - {e};
      }
      return false;
    }

    method CheckForCycles(a: Name, to: string, visited: Visited) returns (verdict: Verdict)
      modifies visited
      ensures Found(verdict, visited.names) == Search(graph, a, to, old(visited.names))
      decreases Unvisited(graph, visited.names), a in visited.names
    {
      hide IsSubset, Collide, Tokens, ExportsMatching, Unvisited;
      if |visited.names| >= MAX_DEPTH {
        return TooDeep;
      }
      var exported := HasExportMatching(a, to);
      if !exported {
        return Fine;
      }
      var imports := Of(graph, a).imports;
      var subject := to;
      var i := 0;
      while i < |imports|
        invariant 0 <= i <= |imports| && old(visited.names) <= visited.names
        invariant Search(graph, a, to, old(visited.names)) == SearchFrom(graph, a, subject, i, visited.names)
      {
        var si := imports[i];
        var collide := SubjectsCollide(subject, si.to);
        if collide {
          if si.acc in visited.names {
            return FormsCycle;
          }
          ghost var before := visited.names;
          VisitingShrinks(graph, a, old(visited.names), before + {a});
          visited.names := visited.names + {a};
          var narrower := IsSubsetMatch(Tokens(si.to), Tokens(subject));
          if narrower {
            subject := si.to;
          }
          verdict := CheckForCycles(si.acc, subject, visited);
          if verdict != Fine {
            return;
          }
        }
        i := i + 1;
      }
      return Fine;
    }

    method FormsCycleWith(a: Name, dest: Name, to: string) returns (verdict: Verdict)
      ensures verdict == Search(graph, dest, to, {a}).verdict
    {
      var visited := new Visited(a);
      verdict := CheckForCycles(dest, to, visited);
    }

    /** Whether the exporter lets the account import the subject; the exports are tried in any order. */
    method IsAuthorized(a: Name, acc: Name, from: string) returns (r: bool)
      ensures if r then MayImport(graph, a, acc, from) else MayRefuse(graph, a, acc, from)
      ensures Valid(from) && from in Of(graph, acc).exports ==> r == IsApproved(graph, acc, from, a)
    {
      var valid := IsValidSubject(from);
      if !valid {
        return false;
      }
      var exports := Of(graph, acc).exports;
      if from in exports {
        return exports[from] == {} || a in exports[from];
      }
      var left := exports.Keys;
      while left != {}
        invariant left <= exports.Keys
        invariant forall e :: e in exports.Keys - left ==> !IsSubset(Tokens(from), Tokens(e))
        decreases left
      {
        var e :| e in left;
        var matching := IsSubsetMatch(Tokens(from), Tokens(e));
        if matching {
          return exports[e] == {} || a in exports[e];
        }
        left := left - {e};
      }
      return false;
    }

    method HasDuplicate(a: Name, acc: Name, from: string) returns (r: bool)
      ensures r == IsDuplicate(graph, a, acc, from)
    {
      var imports := Of(graph, a).imports;
      var i := 0;
      while i < |imports|
        invariant 0 <= i <= |imports|
        invariant forall j :: 0 <= j < i ==> imports[j].acc != acc || imports[j].from != from
      {
        if imports[i].acc == acc && imports[i].from == from {
          return true;
        }
        i := i + 1;
      }
      return false;
    }

    method AddStreamImport(a: Name, acc: Name, from: string, to: string) returns (r: Result)
      modifies this
      ensures r == Added <==> graph != old(graph)
      ensures r == Added ==>
                && MayImport(old(graph), a, acc, from) && !IsDuplicate(old(graph), a, acc, from)
                && var local := if to == "" then from else to;
                   && Search(old(graph), acc, local, {a}).verdict == Fine
                   && graph == WithImport(old(graph), a, StreamImport(acc, from, local))
      ensures if r == NotAuthorized then MayRefuse(graph, a, acc, from) else MayImport(old(graph), a, acc, from)
      ensures r == CycleError ==> Search(graph, acc, if to == "" then from else to, {a}).verdict == FormsCycle
      ensures r == DepthError ==> Search(graph, acc, if to == "" then from else to, {a}).verdict == TooDeep
      ensures r == Duplicate ==> IsDuplicate(graph, a, acc, from)
    {
      var authorized := IsAuthorized(a, acc, from);
      if !authorized {
        return NotAuthorized;
      }
      var local := if to == "" then from else to;
      var verdict := FormsCycleWith(a, acc, local);
      if verdict == FormsCycle {
        return CycleError;
      } else if verdict == TooDeep {
        return DepthError;
      }
      var duplicate := HasDuplicate(a, acc, from);
      if duplicate {
        return Duplicate;
      }
      var si := StreamImport(acc, from, local);
      assert Of(WithImport(graph, a, si), a).imports != Of(graph, a).imports;
      graph := WithImport(graph, a, si);
      return Added;
    }

    /** Those listed may then import the subject, all may if none has ever been listed, and nobody loses a
        permission to a list that was there. */
    method AddStreamExport(a: Name, subject: string, accounts: set<Name>)
      modifies this
      ensures forall x :: x != a ==> Of(graph, x) == Of(old(graph), x)
      ensures Of(graph, a).imports == Of(old(graph), a).imports
      ensures forall e :: e in Of(graph, a).exports <==> e in Of(old(graph), a).exports || e == subject
      ensures forall e :: e in Of(graph, a).exports && e != subject ==> Of(graph, a).exports[e] == Of(old(graph), a).exports[e]
      ensures forall x :: IsApproved(graph, a, subject, x) <==>
                || x in accounts
                || (accounts == {} && subject !in Of(old(graph), a).exports)
                || (subject in Of(old(graph), a).exports && IsApproved(old(graph), a, subject, x) && (Of(old(graph), a).exports[subject] == {} ==> accounts == {}))
    {
      graph := WithExport(graph, a, subject, accounts);
    }
  }
}
