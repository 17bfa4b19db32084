/** The list of subscriptions: a tree and a cache in front of it, which always agree. */
module Sublists {
  import opened Basics
  import opened Subjects
  import opened SubTrie
  import opened SubResults
  import opened SubLiteral

  // ----- what is to be found -----

  /** The subscriptions whose subject begins with the prefix, and goes on so as to match the tokens. */
  function Matching(subs: set<Sub>, prefix: seq<string>, toks: seq<string>): (m: set<Sub>) {
    set x | x in subs && prefix < Tokens(x.subject) && Matches(Tokens(x.subject)[|prefix|..], toks)
  }

  /** Those that match a subject. */
  function MatchingSubject(subs: set<Sub>, subject: string): (m: set<Sub>) {
    set x | x in subs && Matches(Tokens(x.subject), Tokens(subject))
  }

  function AtPath(subs: set<Sub>, path: seq<string>): (m: set<Sub>) {
    set x | x in subs && Tokens(x.subject) == path
  }

  predicate AllValid(subs: set<Sub>) {
    forall x :: x in subs ==> AreValid(Tokens(x.subject))
  }

  lemma MatchingFromRoot(subs: set<Sub>, subject: string)
    ensures Matching(subs, [], Tokens(subject)) == MatchingSubject(subs, subject)
  {
    forall x: Sub
      ensures [] < Tokens(x.subject) && Tokens(x.subject)[0..] == Tokens(x.subject)
    {
    }
  }

  /** Nothing matches the end of a subject but at the end itself. */
  lemma MatchingNothing(subs: set<Sub>, prefix: seq<string>)
    ensures Matching(subs, prefix, []) == {}
  {
  }

  /** What goes on from a prefix goes on with a full wildcard, which ends it, with a partial one, or with the
      very token. */
  lemma MatchingStep(subs: set<Sub>, prefix: seq<string>, toks: seq<string>)
    requires AllValid(subs) && toks != []
    ensures Matching(subs, prefix, toks) ==
            AtPath(subs, prefix + [FWC]) + Onward(subs, prefix, PWC, toks)
            + if IsWild(toks[0]) then {} else Onward(subs, prefix, toks[0], toks)
    ensures AtPath(subs, prefix + [FWC]) !! Onward(subs, prefix, PWC, toks)
    ensures !IsWild(toks[0]) ==>
              AtPath(subs, prefix + [FWC]) + Onward(subs, prefix, PWC, toks) !! Onward(subs, prefix, toks[0], toks)
  {
    forall x
      ensures x in Matching(subs, prefix, toks) <==>
              || x in AtPath(subs, prefix + [FWC]) || x in Onward(subs, prefix, PWC, toks)
              || (!IsWild(toks[0]) && x in Onward(subs, prefix, toks[0], toks))
    {
      if x in subs {
        StepOf(Tokens(x.subject), prefix, toks);
      }
    }
    forall x | x in subs && !IsWild(toks[0])
      ensures x in Onward(subs, prefix, toks[0], toks) ==>
                x !in AtPath(subs, prefix + [FWC]) && x !in Onward(subs, prefix, PWC, toks)
      ensures x in Onward(subs, prefix, PWC, toks) ==> x !in AtPath(subs, prefix + [FWC])
    {
      NextToken(Tokens(x.subject), prefix);
    }
    forall x | x in subs
      ensures x in Onward(subs, prefix, PWC, toks) ==> x !in AtPath(subs, prefix + [FWC])
    {
      NextToken(Tokens(x.subject), prefix);
    }
  }

  /** Those that take the token next: they end there with the subject, or go on from there. */
  function Onward(subs: set<Sub>, prefix: seq<string>, t: string, toks: seq<string>): (m: set<Sub>)
    requires toks != []
  {
    if |toks| == 1 then AtPath(subs, prefix + [t]) else Matching(subs, prefix + [t], toks[1..])
  }

  predicate GoesOnward(tokens: seq<string>, prefix: seq<string>, t: string, toks: seq<string>)
    requires toks != []
  {
    if |toks| == 1 then tokens == prefix + [t]
    else prefix + [t] < tokens && Matches(tokens[|prefix| + 1..], toks[1..])
  }

  /** The token behind the prefix says which way a subject goes on. */
  lemma NextToken(tokens: seq<string>, prefix: seq<string>)
    ensures forall t :: prefix + [t] <= tokens ==> |tokens| > |prefix| && tokens[|prefix|] == t
  {
  }

  lemma StepOf(tokens: seq<string>, prefix: seq<string>, toks: seq<string>)
    requires AreValid(tokens) && toks != []
    ensures prefix < tokens && Matches(tokens[|prefix|..], toks) <==>
            || tokens == prefix + [FWC] || GoesOnward(tokens, prefix, PWC, toks)
            || (!IsWild(toks[0]) && GoesOnward(tokens, prefix, toks[0], toks))
  {
    NextToken(tokens, prefix);
    if prefix < tokens {
      var n := |prefix|;
      var t, rest := tokens[n], tokens[n..];
      assert rest[0] == t && rest[1..] == tokens[n + 1..];
      assert prefix + [t] <= tokens;
      assert tokens == prefix + [t] <==> tokens[n + 1..] == [];
    }
  }

  // ----- lookup in the tree -----

  method ListOf(s: set<Sub>) returns (list: seq<Sub>)
    ensures multiset(list) == multiset(s)
  {
    list := [];
    var todo := s;
    while todo != {}
      invariant todo <= s && multiset(list) == multiset(s - todo)
      decreases todo
    {
      var x :| x in todo;
      assert s - (todo - {x}) == (s - todo) + {x};
      list := list + [x];
      todo := todo - {x};
    }
    assert s - todo == s;
  }

  /** As often as it weighs. */
  method AddCopies(slot: seq<Sub>, x: Sub, ghost m: set<Sub>) returns (slot': seq<Sub>)
    requires x.queue.Some? && x !in m && Lists(slot, m, {}, x.queue)
    ensures Lists(slot', m + {x}, {}, x.queue)
  {
    slot' := slot;
    for n := 0 to Copies(x)
      invariant multiset(slot') == multiset(slot)[x := n]
    {
      slot' := slot' + [x];
    }
  }

  method AddGroup(q: string, group: set<Sub>, r: Result, ghost m: set<Sub>) returns (r': Result)
    requires Is(r, m, {}) && m !! group && forall x :: x in group ==> x.queue == Some(q)
    ensures Is(r', m + group, {})
  {
    hide Is, Lists, IsPlace;
    var i := PlaceOf(q, r.qsubs);
    var slot, todo := SlotAt(r.qsubs, i), group;
    SlotBefore(r, m, {}, i, q);
    assert m + (group - todo) == m;
    while todo != {}
      invariant todo <= group && Lists(slot, m + (group - todo), {}, Some(q))
      decreases todo
    {
      var x :| x in todo;
      slot := AddCopies(slot, x, m + (group - todo));
      assert m + (group - todo) + {x} == m + (group - (todo - {x}));
      todo := todo - {x};
    }
    assert group - todo == group;
    SlotMore(r, m, {}, i, q, slot, group, {});
    r' := r.(qsubs := WithSlot(r.qsubs, i, slot));
  }

  /** The subscriptions of a node without a queue, from the list if there is one, and then its groups. */
  method AddNodeToResults(n: Node, r: Result, ghost m: set<Sub>, ghost here: set<Sub>) returns (r': Result)
    requires Is(r, m, {}) && NodeOk(n) && m !! here && forall x :: x in here <==> In(n, x)
    ensures Is(r', m + here, {})
  {
    hide Is;
    assert n.psubs <= here by {
      assert forall x :: x in n.psubs ==> In(n, x);
    }
    var list;
    if n.plist.Some? {
      list := n.plist.value;
    } else {
      list := ListOf(n.psubs);
    }
    PlainMore(r, m, {}, {}, list, n.psubs);
    r' := r.(psubs := r.psubs + list);
    ghost var done := n.psubs;
    var groups := n.qsubs.Keys;
    while groups != {}
      invariant groups <= n.qsubs.Keys && Is(r', m + done, {}) && done <= here
      invariant forall x :: x in done <==> In(n, x) && (x.queue.Some? ==> x.queue.value !in groups)
      decreases groups
    {
      var q :| q in groups;
      assert forall x :: x in n.qsubs[q] ==> In(n, x) && x !in done;
      r' := AddGroup(q, n.qsubs[q], r', m + done);
      assert m + done + n.qsubs[q] == m + (done + n.qsubs[q]);
      done := done + n.qsubs[q];
      groups := groups - {q};
    }
    assert done == here;
  }

  /** The node of a child and the subscriptions that end there. */
  ghost predicate IsNodeOf(n: Option<Node>, here: set<Sub>) {
    if n.Some? then NodeOk(n.value) && forall x :: x in here <==> In(n.value, x) else here == {}
  }

  lemma ChildIsNodeOf(l: Level, at: seq<string>, subs: set<Sub>, t: string)
    requires Stores(l, at, subs)
    ensures IsNodeOf(Child(l, t), AtPath(subs, at + [t]))
  {
    StoresAt(l, at, subs, t);
  }

  lemma NoChildNothing(l: Level, at: seq<string>, subs: set<Sub>, t: string, toks: seq<string>)
    requires Stores(l, at, subs) && Child(l, t) == None
    ensures Matching(subs, at + [t], toks) == {}
  {
    forall x | x in subs
      ensures !(at + [t] < Tokens(x.subject))
    {
      var tokens := Tokens(x.subject);
      var rest := if |at| < |tokens| then tokens[|at| + 1..] else [];
      assert at + [t] < tokens ==> tokens == at + [t] + rest;
      NothingBelow(l, at, subs, t, x, rest);
    }
  }

  /** Down the path of the tokens themselves, with a look aside at the wildcards of each level. */
  method MatchLevel(level: Level, toks: seq<string>, r0: Result, ghost prefix: seq<string>, ghost subs: set<Sub>, ghost m: set<Sub>)
    returns (r: Result)
    requires Stores(level, prefix, subs) && AllValid(subs) && Is(r0, m, {}) && m !! Matching(subs, prefix, toks)
    ensures Is(r, m + Matching(subs, prefix, toks), {})
    decreases |toks|
  {
    hide Is, Matching, AllValid, Stores, AtPath, IsNodeOf;
    r := r0;
    ghost var all := m + Matching(subs, prefix, toks);
    ghost var found, left, at := m, Matching(subs, prefix, toks), prefix;
    ghost var leftN: set<Sub>, leftP: set<Sub> := {}, {};
    MatchingNothing(subs, prefix);
    var l: Option<Level> := Some(level);
    var n: Option<Node>, pwc: Option<Node> := None, None;
    assert toks[0..] == toks;
    NoNode();
    var i := 0;
    while i < |toks|
      invariant 0 <= i <= |toks| && Is(r, found, {}) && found !! left && found + left == all
      invariant i < |toks| && l.Some? ==> Stores(l.value, at, subs) && left == Matching(subs, at, toks[i..])
      invariant i < |toks| && l.None? ==> left == {}
      invariant i == |toks| ==> left == leftN + leftP && leftN !! leftP && IsNodeOf(n, leftN) && IsNodeOf(pwc, leftP)
    {
      if l.None? {
        assert found == all;
        return;
      }
      var t := toks[i];
      MatchingStep(subs, at, toks[i..]);
      assert toks[i..][0] == t && toks[i..][1..] == toks[i + 1..];
      ghost var fwcs := AtPath(subs, at + [FWC]);
      ghost var stars := Onward(subs, at, PWC, toks[i..]);
      ghost var plains := if IsWild(t) then {} else Onward(subs, at, t, toks[i..]);
      ChildIsNodeOf(l.value, at, subs, FWC);
      r := AddNode(l.value.fwc, r, found, fwcs);
      found, left := found + fwcs, stars + plains;
      pwc := l.value.pwc;
      if pwc.Some? {
        StoresBelow(l.value, at, subs, PWC);
        ghost var below := Matching(subs, at + [PWC], toks[i + 1..]);
        BelowStar(subs, at, toks, i, stars);
        r := MatchLevel(pwc.value.next, toks[i + 1..], r, at + [PWC], subs, found);
        found, left := found + below, left - below;
      } else {
        NoChildNothing(l.value, at, subs, PWC, toks[i + 1..]);
      }
      n := Named(l.value, t);
      if i + 1 == |toks| {
        ChildIsNodeOf(l.value, at, subs, PWC);
        ChildIsNodeOf(l.value, at, subs, t);
        NoNode();
        leftP, leftN := stars, plains;
      } else if n.Some? {
        StoresBelow(l.value, at, subs, t);
      } else if !IsWild(t) {
        NoChildNothing(l.value, at, subs, t, toks[i + 1..]);
      }
      l := if n.Some? then Some(n.value.next) else None;
      at := at + [t];
      i := i + 1;
    }
    r := AddNode(n, r, found, leftN);
    r := AddNode(pwc, r, found + leftN, leftP);
    assert found + leftN + leftP == all;
  }

  lemma NoNode()
    ensures IsNodeOf(None, {})
  {
  }

  /** The node of a token among the named ones, where there are no wildcards. */
  function Named(l: Level, t: string): (n: Option<Node>)
    ensures n == if IsWild(t) then None else Child(l, t)
  {
    if t in l.nodes then Some(l.nodes[t]) else None
  }

  /** Those that go on with a star, below it; at the last token there are none below. */
  lemma BelowStar(subs: set<Sub>, at: seq<string>, toks: seq<string>, i: nat, stars: set<Sub>)
    requires i < |toks| && stars == Onward(subs, at, PWC, toks[i..])
    ensures Matching(subs, at + [PWC], toks[i + 1..]) == if i + 1 == |toks| then {} else stars
  {
    assert toks[i..][1..] == toks[i + 1..];
    MatchingNothing(subs, at + [PWC]);
  }

  method AddNode(n: Option<Node>, r: Result, ghost m: set<Sub>, ghost here: set<Sub>) returns (r': Result)
    requires Is(r, m, {}) && m !! here && IsNodeOf(n, here)
    ensures Is(r', m + here, {})
  {
    hide Is;
    if n.Some? {
      r' := AddNodeToResults(n.value, r, m, here);
    } else {
      assert m + here == m;
      r' := r;
    }
  }

  // ----- one more, one less -----

  /** The tokens one by one: none is empty, and none follows a full wildcard. */
  method IsWellFormed(tokens: seq<string>) returns (valid: bool)
    ensures valid == WellFormed(tokens)
  {
    var fwc := false;
    for i := 0 to |tokens|
      invariant fwc <==> i > 0 && tokens[i - 1] == FWC
      invariant forall j :: 0 <= j < i ==> tokens[j] != "" && (tokens[j] == FWC ==> j == i - 1)
    {
      if |tokens[i]| == 0 || fwc {
        return false;
      }
      fwc := tokens[i] == FWC;
    }
    return true;
  }

  method IsFull(tokens: seq<string>) returns (full: bool)
    ensures full == NoEmptyToken(tokens)
  {
    for i := 0 to |tokens|
      invariant forall j :: 0 <= j < i ==> tokens[j] != ""
    {
      if |tokens[i]| == 0 {
        return false;
      }
    }
    return true;
  }

  method AddToNode(n: Node, x: Sub) returns (n': Node)
    ensures IsAdded(n, x, n')
  {
    match x.queue
    case None =>
      n' := n.(psubs := n.psubs + {x});
      if n.plist.Some? {
        n' := n'.(plist := Some(n.plist.value + [x]));
      } else if |n'.psubs| > PLIST_MIN {
        var list := ListOf(n'.psubs);
        n' := n'.(plist := Some(list));
      }
    case Some(q) =>
      var group := if q in n.qsubs then n.qsubs[q] else {};
      n' := n.(qsubs := n.qsubs[q := group + {x}]);
  }

  lemma InsertPrunes(l: Level, subs: set<Sub>, x: Sub, end: Node)
    requires Stores(l, [], subs) && AreValid(Tokens(x.subject)) && x !in subs
    requires IsAdded(EndOrNew(l, Tokens(x.subject)), x, end)
    ensures Pruned(l) ==> Pruned(Inserted(l, Tokens(x.subject), end))
  {
    hide NodeOk, IsAdded, AreValid;
    var tokens := Tokens(x.subject);
    EndIsOk(l, subs, tokens, x);
    AddedHolds(EndOrNew(l, tokens), x, end);
    assert In(end, x);
    if Pruned(l) {
      InsertedIsPruned(l, tokens, end);
    }
  }

  /** The nodes on the way to the first bad token are there already. */
  predicate LeavesNothing(root: Level, tokens: seq<string>) {
    tokens == [] || WellFormed(tokens) || FirstBad(tokens) == 0 || NodeAt(root, tokens[..FirstBad(tokens)]).Some?
  }

  lemma LeavesNothingMeans(l: Level, tokens: seq<string>, end: Node)
    requires tokens != [] && !WellFormed(tokens)
    ensures Pruned(l) ==> (Pruned(Inserted(l, tokens, end)) <==> LeavesNothing(l, tokens))
  {
    if Pruned(l) {
      InvalidPrunes(l, tokens, end);
    }
  }

  lemma RemovePrunes(l: Level, tokens: seq<string>, x: Sub)
    requires tokens != [] && NodeAt(l, tokens).Some?
    ensures Pruned(l) ==> Pruned(Removed(l, tokens, x))
  {
    hide Pruned;
    if Pruned(l) {
      RemovedIsPruned(l, tokens, x);
    }
  }

  lemma EmptyIfGone(l: Level, subs: set<Sub>)
    requires Stores(l, [], subs)
    ensures Pruned(l) && subs == {} ==> l == EMPTY_LEVEL
  {
    if Pruned(l) && subs == {} {
      EmptyWhenGone(l);
    }
  }

  lemma OneMoreValid(subs: set<Sub>, x: Sub)
    requires AllValid(subs) && AreValid(Tokens(x.subject))
    ensures AllValid(subs + {x})
  {
  }

  lemma OneLessValid(subs: set<Sub>, x: Sub)
    requires AllValid(subs)
    ensures AllValid(subs - {x})
  {
  }

  /** A subscription is there if and only if it is at the node of its subject. */
  lemma HeldIfThere(l: Level, subs: set<Sub>, x: Sub)
    requires AllValid(subs) && Stores(l, [], subs)
    ensures var n := NodeAt(l, Tokens(x.subject));
            x in subs <==> WellFormed(Tokens(x.subject)) && n.Some? && In(n.value, x)
  {
    var tokens := Tokens(x.subject);
    assert [] + tokens == tokens;
    assert Holds(l, tokens, x) <==> x in subs && tokens == [] + tokens;
  }

  lemma {:induction false} LiteralMatchesItself(p: seq<string>, l: seq<string>)
    requires !HasWild(p)
    ensures Matches(p, l) <==> p == l
  {
    if p != [] {
      assert p[0] in p;
      if l != [] {
        LiteralMatchesItself(p[1..], l[1..]);
        assert p == [p[0]] + p[1..] && l == [l[0]] + l[1..];
      }
    }
  }

  /** A literal subject matches no key but itself. */
  lemma LiteralKey(subject: string, key: string)
    requires !HasWild(Tokens(subject))
    ensures Matches(Tokens(subject), Tokens(key)) <==> subject == key
  {
    LiteralMatchesItself(Tokens(subject), Tokens(key));
    SameTokens(subject, key);
  }

  lemma MatchingMore(subs: set<Sub>, x: Sub, key: string)
    ensures MatchingSubject(subs + {x}, key) ==
            if Matches(Tokens(x.subject), Tokens(key)) then MatchingSubject(subs, key) + {x} else MatchingSubject(subs, key)
  {
  }

  lemma MatchingLess(subs: set<Sub>, x: Sub, key: string)
    requires !Matches(Tokens(x.subject), Tokens(key))
    ensures MatchingSubject(subs - {x}, key) == MatchingSubject(subs, key)
  {
  }

  lemma NotThere(subs: set<Sub>, x: Sub, key: string)
    ensures x !in subs ==> x !in MatchingSubject(subs, key)
  {
  }

  // ----- the list and its cache -----

  lemma NoCache(subs: set<Sub>)
    ensures Coherent(map[], map[], subs)
  {
  }

  datatype Error = Ok | InvalidSubject | NotFound

  predicate IsBadAt(tokens: seq<string>, i: int) {
    0 <= i < |tokens| && (tokens[i] == "" || (i > 0 && tokens[i - 1] == FWC))
  }

  /** The walk gets as far as seeing that a token is bad: it looks at a token before it looks whether there
      is a level for it. */
  predicate SeesBad(root: Level, tokens: seq<string>, i: int) {
    IsBadAt(tokens, i) && (i > 1 ==> NodeAt(root, tokens[..i - 1]).Some?)
  }

  ghost predicate SeesBadSubject(root: Level, tokens: seq<string>) {
    exists i :: SeesBad(root, tokens, i)
  }

  /** Down the tree along the tokens, to the node at the end if there is one. */
  method Walk(root: Level, tokens: seq<string>) returns (e: Error, n: Option<Node>)
    requires tokens != []
    ensures e == InvalidSubject <==> SeesBadSubject(root, tokens)
    ensures e == Ok ==> WellFormed(tokens) && n == NodeAt(root, tokens)
    ensures e == NotFound ==> NodeAt(root, tokens) == None
  {
    hide NodeAt;
    var l: Option<Level>, sfwc := Some(root), false;
    n := None;
    for i := 0 to |tokens|
      invariant forall j :: 0 <= j < i ==> !IsBadAt(tokens, j)
      invariant i == 0 ==> l == Some(root) && !sfwc
      invariant i > 0 ==> n == NodeAt(root, tokens[..i]) && l == (if n.Some? then Some(n.value.next) else None)
      invariant i > 0 ==> (sfwc <==> tokens[i - 1] == FWC)
      invariant i > 1 ==> NodeAt(root, tokens[..i - 1]).Some?
    {
      var t := tokens[i];
      if |t| == 0 || sfwc {
        assert SeesBad(root, tokens, i);
        return InvalidSubject, n;
      }
      assert !IsBadAt(tokens, i);
      if l == None {
        forall j
          ensures !SeesBad(root, tokens, j)
        {
          if j > i && j <= |tokens| {
            assert tokens[..j - 1][..i] == tokens[..i];
            NoNodeBelow(root, tokens[..j - 1], i);
          }
        }
        NoNodeBelow(root, tokens, i);
        return NotFound, n;
      }
      NodeAtNext(root, tokens, i);
      n := Child(l.value, t);
      sfwc := t == FWC;
      l := if n.Some? then Some(n.value.next) else None;
    }
    assert tokens[..|tokens|] == tokens;
    NoBadMeans(tokens);
    return Ok, n;
  }

  lemma SeenIsBad(root: Level, tokens: seq<string>)
    ensures SeesBadSubject(root, tokens) ==> !WellFormed(tokens)
  {
    if i :| SeesBad(root, tokens, i) {
      assert tokens[i] == "" || tokens[i - 1] == FWC;
    }
  }

  lemma NoBadMeans(tokens: seq<string>)
    requires forall i :: !IsBadAt(tokens, i)
    ensures WellFormed(tokens)
  {
    forall i | 0 <= i < |tokens|
      ensures tokens[i] != "" && (tokens[i] == FWC ==> i == |tokens| - 1)
    {
      assert !IsBadAt(tokens, i) && !IsBadAt(tokens, i + 1);
    }
  }

  lemma NodeAtNext(root: Level, tokens: seq<string>, i: nat)
    requires i < |tokens|
    ensures i == 0 ==> NodeAt(root, tokens[..1]) == Child(root, tokens[0])
    ensures i > 0 ==> NodeAt(root, tokens[..i + 1]) ==
                      match NodeAt(root, tokens[..i]) case None => None case Some(n) => Child(n.next, tokens[i])
  {
    assert tokens[..i + 1] == tokens[..i] + [tokens[i]];
    if i > 0 {
      NodeBelow(root, tokens[..i], tokens[i]);
    }
  }

  /** Beyond this many results the cache is cut down to the other number. */
  const CACHE_MAX: nat := 1024
  const CACHE_SWEEP: nat := 256

  type Cache = map<string, Result>

  /** The subscriptions that were added to a result after it was stored. */
  type Late = map<string, set<Sub>>

  /** Every result in the cache is what a lookup would give, but for how often it lists late ones. */
  ghost predicate Coherent(cache: Cache, late: Late, subs: set<Sub>) {
    forall key :: key in cache ==>
      NoEmptyToken(Tokens(key)) && key in late && Is(cache[key], MatchingSubject(subs, key), late[key])
  }

  function NowLate(sub: Sub, key: string): (s: set<Sub>) {
    if Matches(Tokens(sub.subject), Tokens(key)) then {sub} else {}
  }

  /** A subscription that is added is late for exactly the results it matches. */
  ghost predicate IsLater(keys: set<string>, before: Late, after: Late, sub: Sub, added: bool) {
    forall key :: key in keys ==>
      key in before && key in after && after[key] == before[key] + if added then NowLate(sub, key) else {}
  }

  lemma LateIsKnown(cache: Option<Cache>, late: Late, subs: set<Sub>, sub: Sub)
    requires cache.Some? ==> Coherent(cache.value, late, subs)
    ensures cache.Some? ==> IsLater(cache.value.Keys, late, late, sub, false)
  {
  }

  function Those(batch: seq<Sub>): (s: set<Sub>) {
    set x | x in batch
  }

  /** Each of the first so many is still there when its turn comes. */
  ghost predicate AllThere(subs: set<Sub>, batch: seq<Sub>, n: nat)
    requires n <= |batch|
  {
    forall i :: 0 <= i < n ==> batch[i] in subs && batch[i] !in batch[..i]
  }

  lemma ThoseStep(subs: set<Sub>, batch: seq<Sub>, i: nat)
    requires i <= |batch|
    ensures i == 0 ==> subs - Those(batch[..i]) == subs && AllThere(subs, batch, i)
    ensures batch == [] ==> subs - Those(batch) == subs
    ensures i < |batch| ==> subs - Those(batch[..i]) - {batch[i]} == subs - Those(batch[..i + 1])
    ensures i < |batch| ==>
              (AllThere(subs, batch, i + 1) <==> AllThere(subs, batch, i) && batch[i] in subs - Those(batch[..i]))
  {
    if i < |batch| {
      assert batch[..i + 1] == batch[..i] + [batch[i]];
    }
  }

  class Sublist {
    var root: Level
    var cache: Option<Cache>
    var count: nat
    ghost var subs: set<Sub>
    ghost var late: Late

    /** The tree holds exactly the subscriptions, each at its subject, and the cache says nothing else. */
    ghost predicate Valid()
      reads this
    {
      && AllValid(subs) && Stores(root, [], subs) && count == |subs|
      && (cache.Some? ==> Coherent(cache.value, late, subs))
    }

    constructor (enableCache: bool)
      ensures Valid() && subs == {} && cache.Some? == enableCache && Pruned(root)
    {
      root, count, subs, late := EMPTY_LEVEL, 0, {}, map[];
      cache := if enableCache then Some(map[]) else None;
      new;
      forall path: seq<string> | path != []
        ensures NodeAt(root, path) == None
      {
        NothingInNew(path);
      }
    }

    /** The subscription is added; a subject that is not valid changes nothing that can be found. To insert
        one that is there already is not noticed, and from then on the count is off. */
    method Insert(sub: Sub) returns (e: Error)
      requires Valid()
      modifies this
      ensures e == if AreValid(Tokens(sub.subject)) then Ok else InvalidSubject
      ensures subs == if e == Ok then old(subs) + {sub} else old(subs)
      ensures cache.Some? == old(cache).Some? && count == old(count) + if e == Ok then 1 else 0
      ensures Valid() <==> e == InvalidSubject || sub !in old(subs)
      ensures cache.Some? ==> cache.value.Keys == old(cache).value.Keys
      ensures cache.Some? ==> IsLater(cache.value.Keys, old(late), late, sub, e == Ok)
      ensures Pruned(old(root)) && sub !in old(subs) ==>
                (Pruned(root) <==> e == Ok || LeavesNothing(old(root), Tokens(sub.subject)))
    {
      hide Stores, Coherent, AllValid, Pruned, LeavesNothing, Inserted, EndOrNew, IsAdded, Tokens, WellFormed, IsLater;
      var tokens := Tokens(sub.subject);
      var valid := IsWellFormed(tokens);
      LateIsKnown(cache, late, subs, sub);
      if !valid {
        InvalidKeeps(root, subs, tokens, NEW_NODE);
        LeavesNothingMeans(root, tokens, NEW_NODE);
        root := Inserted(root, tokens, NEW_NODE);
        return InvalidSubject;
      }
      var end := AddToNode(EndOrNew(root, tokens), sub);
      if sub !in subs {
        InsertKeeps(root, subs, sub, end);
        InsertPrunes(root, subs, sub, end);
      }
      root := Inserted(root, tokens, end);
      count := count + 1;
      if cache.Some? {
        var c, now := AddToCache(cache.value, sub);
        cache, late := Some(c), now;
      }
      OneMoreValid(subs, sub);
      subs := subs + {sub};
      assert sub in old(subs) ==> subs == old(subs);
      return Ok;
    }

    /** The results that the new subscription belongs to get it: that of its own subject if it is literal,
        and otherwise all that it matches. */
    method AddToCache(c: Cache, sub: Sub) returns (c': Cache, ghost late': Late)
      requires Coherent(c, late, subs) && AreValid(Tokens(sub.subject))
      ensures sub !in subs ==> Coherent(c', late', subs + {sub})
      ensures c'.Keys == c.Keys && IsLater(c.Keys, late, late', sub, true)
    {
      hide Is, MatchingSubject, Matches, Tokens;
      late' := map key | key in c :: late[key] + NowLate(sub, key);
      var literal := IsLiteralSubject(sub.subject);
      if literal {
        c' := AddToOwnResult(c, sub, late');
        return;
      }
      c' := c;
      var keys := c.Keys;
      while keys != {}
        invariant keys <= c.Keys == c'.Keys
        invariant forall key :: key in keys ==> c'[key] == c[key]
        invariant sub !in subs ==>
                    forall key :: key in c.Keys - keys ==> Is(c'[key], MatchingSubject(subs + {sub}, key), late'[key])
        decreases keys
      {
        var key :| key in keys;
        var matches := MatchLiteral(key, sub.subject);
        MatchingMore(subs, sub, key);
        if matches {
          NotThere(subs, sub, key);
          var more := AddSubToResult(c[key], sub, MatchingSubject(subs, key), late[key]);
          c' := c'[key := more];
        } else {
          assert late'[key] == late[key];
        }
        keys := keys - {key};
      }
    }

    method AddToOwnResult(c: Cache, sub: Sub, ghost late': Late) returns (c': Cache)
      requires Coherent(c, late, subs) && !HasWild(Tokens(sub.subject))
      requires late' == map key | key in c :: late[key] + NowLate(sub, key)
      ensures sub !in subs ==> Coherent(c', late', subs + {sub})
      ensures c'.Keys == c.Keys
    {
      hide Is, MatchingSubject, Matches, Tokens, HasWild;
      c' := c;
      forall key | key in c
        ensures MatchingSubject(subs + {sub}, key) ==
                if key == sub.subject then MatchingSubject(subs, key) + {sub} else MatchingSubject(subs, key)
        ensures late'[key] == if key == sub.subject then late[key] + {sub} else late[key]
      {
        LiteralKey(sub.subject, key);
        MatchingMore(subs, sub, key);
      }
      hide NowLate;
      if sub.subject in c {
        NotThere(subs, sub, sub.subject);
        var more := AddSubToResult(c[sub.subject], sub, MatchingSubject(subs, sub.subject), late[sub.subject]);
        c' := c[sub.subject := more];
      }
    }

    method Remove(sub: Sub) returns (e: Error)
      requires Valid()
      modifies this
      ensures Valid() && cache.Some? == old(cache).Some?
      ensures sub in old(subs) <==> e == Ok
      ensures e == InvalidSubject <==> SeesBadSubject(old(root), Tokens(sub.subject))
      ensures subs == old(subs) - {sub} && late == old(late)
      ensures Pruned(old(root)) ==> Pruned(root) && (subs == {} ==> root == EMPTY_LEVEL)
    {
      hide Stores, Coherent, AllValid, Pruned, SeesBadSubject, AreValid, Tokens;
      e := RemoveFromTree(sub);
      EmptyIfGone(root, subs);
      if e == Ok && cache.Some? {
        var c := RemoveFromCache(cache.value, sub, old(subs));
        cache := Some(c);
      } else {
        assert e != Ok ==> subs == old(subs);
      }
    }

    /** All at once, with the cache thrown away. */
    method RemoveBatch(batch: seq<Sub>) returns (e: Error)
      requires Valid()
      modifies this
      ensures Valid() && cache.Some? == old(cache).Some?
      ensures subs == old(subs) - Those(batch)
      ensures e == Ok <==> AllThere(old(subs), batch, |batch|)
      ensures Pruned(old(root)) ==> Pruned(root) && (subs == {} ==> root == EMPTY_LEVEL)
    {
      hide Stores, Coherent, AllValid, Pruned, Those, AllThere;
      if |batch| == 0 {
        ThoseStep(subs, batch, 0);
        EmptyIfGone(root, subs);
        return Ok;
      }
      var wasEnabled := cache.Some?;
      cache := None;
      e := RemoveAll(batch);
      EmptyIfGone(root, subs);
      if wasEnabled {
        NoCache(subs);
        cache, late := Some(map[]), map[];
      }
    }

    /** Those that are not there do not keep the others from going. */
    method RemoveAll(batch: seq<Sub>) returns (e: Error)
      requires AllValid(subs) && Stores(root, [], subs) && count == |subs|
      modifies this`root, this`count, this`subs
      ensures AllValid(subs) && Stores(root, [], subs) && count == |subs|
      ensures subs == old(subs) - Those(batch)
      ensures e == Ok <==> AllThere(old(subs), batch, |batch|)
      ensures Pruned(old(root)) ==> Pruned(root)
    {
      hide Stores, AllValid, Pruned, SeesBadSubject, AreValid, Tokens, Those, AllThere;
      e := Ok;
      ThoseStep(old(subs), batch, 0);
      for i := 0 to |batch|
        invariant AllValid(subs) && Stores(root, [], subs) && count == |subs|
        invariant subs == old(subs) - Those(batch[..i])
        invariant e == Ok <==> AllThere(old(subs), batch, i)
        invariant Pruned(old(root)) ==> Pruned(root)
      {
        ThoseStep(old(subs), batch, i);
        var e' := RemoveFromTree(batch[i]);
        if e' != Ok && e == Ok {
          e := e';
        }
      }
      assert batch[..|batch|] == batch;
    }

    /** Raw removal, without the cache. */
    method RemoveFromTree(sub: Sub) returns (e: Error)
      requires AllValid(subs) && Stores(root, [], subs) && count == |subs|
      modifies this`root, this`count, this`subs
      ensures AllValid(subs) && Stores(root, [], subs) && count == |subs|
      ensures sub in old(subs) <==> e == Ok
      ensures e == InvalidSubject <==> SeesBadSubject(old(root), Tokens(sub.subject))
      ensures subs == old(subs) - {sub}
      ensures e == Ok ==> AreValid(Tokens(sub.subject))
      ensures Pruned(old(root)) ==> Pruned(root)
    {
      hide Pruned, Stores, AllValid;
      var tokens := Tokens(sub.subject);
      HeldIfThere(root, subs, sub);
      assert sub !in subs ==> subs - {sub} == subs;
      var n;
      e, n := Walk(root, tokens);
      if e != Ok {
        SeenIsBad(root, tokens);
        return e;
      }
      if n == None || !In(n.value, sub) {
        return NotFound;
      }
      RemoveKeeps(root, subs, sub);
      RemovePrunes(root, tokens, sub);
      OneLessValid(subs, sub);
      root := Removed(root, tokens, sub);
      count := count - 1;
      subs := subs - {sub};
      return Ok;
    }

    /** The results that held the subscription are dropped. */
    method RemoveFromCache(c: Cache, sub: Sub, ghost before: set<Sub>) returns (c': Cache)
      requires Coherent(c, late, before) && AreValid(Tokens(sub.subject))
      ensures Coherent(c', late, before - {sub})
    {
      hide Is, MatchingSubject, Matches, Tokens;
      c' := c;
      var literal := IsLiteralSubject(sub.subject);
      if literal {
        c' := c - {sub.subject};
        forall key | key in c'
          ensures MatchingSubject(before - {sub}, key) == MatchingSubject(before, key)
        {
          LiteralKey(sub.subject, key);
          MatchingLess(before, sub, key);
        }
        return;
      }
      var keys := c.Keys;
      while keys != {}
        invariant keys <= c.Keys && c'.Keys <= c.Keys && (forall key :: key in c' ==> c'[key] == c[key])
        invariant forall key :: key in c'.Keys - keys ==> Is(c'[key], MatchingSubject(before - {sub}, key), late[key])
        decreases keys
      {
        var key :| key in keys;
        var matches := MatchLiteral(key, sub.subject);
        if matches {
          c' := c' - {key};
        } else {
          MatchingLess(before, sub, key);
        }
        keys := keys - {key};
      }
    }

    /** From the cache if it has the subject, and from the tree otherwise: in either case exactly the
        subscriptions that match, remote ones as often as they weigh, or once if the result is from the cache
        and they were inserted after it was stored. */
    method Match(subject: string) returns (r: Result, ghost once: set<Sub>)
      requires Valid()
      modifies this`cache, this`late
      ensures Valid() && cache.Some? == old(cache).Some?
      ensures if NoEmptyToken(Tokens(subject)) then Is(r, MatchingSubject(subs, subject), once) else r == EMPTY
      ensures once == if old(cache).Some? && subject in old(cache).value then old(late)[subject] else {}
    {
      hide Is, Stores, AllValid, MatchingSubject, Tokens, NoEmptyToken;
      once := {};
      if cache.Some? && subject in cache.value {
        return cache.value[subject], late[subject];
      }
      var tokens := Tokens(subject);
      var full := IsFull(tokens);
      if !full {
        return EMPTY, {};
      }
      EmptyIs();
      MatchingFromRoot(subs, subject);
      r := MatchLevel(root, tokens, EMPTY, [], subs, {});
      assert {} + MatchingSubject(subs, subject) == MatchingSubject(subs, subject);
      if cache.Some? {
        cache, late := Some(cache.value[subject := r]), late[subject := {}];
        if |cache.value| > CACHE_MAX {
          ReduceCache();
        }
      }
    }

    /** Results are dropped, whichever, until few enough are left. */
    method ReduceCache()
      requires Valid() && cache.Some?
      modifies this`cache
      ensures Valid() && cache.Some? && |cache.value| <= CACHE_SWEEP
    {
      hide Is, Stores, AllValid;
      while |cache.value| > CACHE_SWEEP
        invariant Valid() && cache.Some?
        decreases |cache.value|
      {
        var key :| key in cache.value;
        cache := Some(cache.value - {key});
      }
    }
  }
}
