/** The tree of subscriptions: one level a token, with places of their own for the two wildcards. */
module SubTrie {
  import opened Basics
  import opened Subjects

  /** A subscription, perhaps in a queue group, and then perhaps one that stands for many on another server. */
  datatype Sub = Sub(id: nat, subject: string, queue: Option<string>, weight: Option<int>)

  /** How often a lookup lists it. */
  function Copies(x: Sub): (n: nat) {
    if x.queue == None || x.weight == None then 1 else if x.weight.value < 0 then 0 else x.weight.value
  }

  /** The subscriptions to one subject, those without a queue also as a list once there are many, and the
      level below. */
  datatype Node = Node(next: Level, psubs: set<Sub>, qsubs: map<string, set<Sub>>, plist: Option<seq<Sub>>)

  type Plain = t: string | !IsWild(t)

  datatype Level = Level(nodes: map<Plain, Node>, pwc: Option<Node>, fwc: Option<Node>)

  const EMPTY_LEVEL := Level(map[], None, None)
  const NEW_NODE := Node(EMPTY_LEVEL, {}, map[], None)

  /** More than this many subscriptions are kept as a list as well. */
  const PLIST_MIN: nat := 256

  function Child(l: Level, t: string): (n: Option<Node>) {
    if t == PWC then l.pwc
    else if t == FWC then l.fwc
    else if t in l.nodes then Some(l.nodes[t])
    else None
  }

  function WithChild(l: Level, t: string, n: Node): (l': Level) {
    if t == PWC then l.(pwc := Some(n))
    else if t == FWC then l.(fwc := Some(n))
    else l.(nodes := l.nodes[t := n])
  }

  function WithoutChild(l: Level, t: string): (l': Level) {
    if t == PWC then l.(pwc := None)
    else if t == FWC then l.(fwc := None)
    else l.(nodes := l.nodes - {t})
  }

  function ChildOrNew(l: Level, t: string): (n: Node) {
    match Child(l, t) case Some(n) => n case None => NEW_NODE
  }

  /** The subscription is at the node. */
  predicate In(n: Node, x: Sub) {
    match x.queue
    case None => x in n.psubs
    case Some(q) => q in n.qsubs && x in n.qsubs[q]
  }

  /** The node at the end of a path of tokens. */
  function NodeAt(l: Level, path: seq<string>): (n: Option<Node>)
    requires path != []
  {
    match Child(l, path[0])
    case None => None
    case Some(n) => if |path| == 1 then Some(n) else NodeAt(n.next, path[1..])
  }

  predicate Holds(l: Level, path: seq<string>, x: Sub)
    requires path != []
  {
    NodeAt(l, path).Some? && In(NodeAt(l, path).value, x)
  }

  // ----- nodes -----

  /** Queue groups hold their own members and are not empty, and the list has what the set has. */
  predicate NodeOk(n: Node) {
    && (forall x :: x in n.psubs ==> x.queue == None)
    && (forall q :: q in n.qsubs ==> n.qsubs[q] != {} && forall x :: x in n.qsubs[q] ==> x.queue == Some(q))
    && (n.plist.Some? ==> multiset(n.plist.value) == multiset(n.psubs))
  }

  function Group(n: Node, q: string): (s: set<Sub>) {
    if q in n.qsubs then n.qsubs[q] else {}
  }

  /** With the list as some order of the set, when it is made. */
  ghost predicate IsAdded(n: Node, x: Sub, n': Node) {
    match x.queue
    case None =>
      && n' == n.(psubs := n.psubs + {x}, plist := n'.plist)
      && (if n.plist.Some? then n'.plist == Some(n.plist.value + [x])
          else if |n.psubs + {x}| > PLIST_MIN then n'.plist.Some? && multiset(n'.plist.value) == multiset(n.psubs + {x})
          else n'.plist == None)
    case Some(q) => n' == n.(qsubs := n.qsubs[q := Group(n, q) + {x}])
  }

  function Taken(n: Node, x: Sub): (n': Node) {
    match x.queue
    case None => n.(psubs := n.psubs - {x}, plist := if x in n.psubs then None else n.plist)
    case Some(q) =>
      var rest := Group(n, q) - {x};
      n.(qsubs := if rest == {} then n.qsubs - {q} else n.qsubs[q := rest])
  }

  lemma AddedHolds(n: Node, x: Sub, n': Node)
    requires NodeOk(n) && !In(n, x) && IsAdded(n, x, n')
    ensures NodeOk(n') && n'.next == n.next && forall y :: In(n', y) <==> In(n, y) || y == x
  {
    if x.queue == None {
      assert multiset(n.psubs + {x}) == multiset(n.psubs) + multiset{x};
    }
  }

  lemma TakenHolds(n: Node, x: Sub)
    requires NodeOk(n)
    ensures var n' := Taken(n, x);
            NodeOk(n') && n'.next == n.next && forall y :: In(n', y) <==> In(n, y) && y != x
  {
    if x.queue == None && x !in n.psubs {
      assert n.psubs - {x} == n.psubs;
    }
  }

  /** Every node is in order. */
  ghost predicate LevelOk(l: Level) {
    forall path :: path != [] && NodeAt(l, path).Some? ==> NodeOk(NodeAt(l, path).value)
  }

  /** The tree below a prefix holds exactly those of some subscriptions whose subject begins with it, each
      at its own path. */
  ghost predicate Stores(l: Level, prefix: seq<string>, subs: set<Sub>) {
    && LevelOk(l)
    && forall path, x :: path != [] ==> (Holds(l, path, x) <==> x in subs && Tokens(x.subject) == prefix + path)
  }

  /** What a level of the tree stores, the level below a child of it stores too. */
  lemma StoresBelow(l: Level, prefix: seq<string>, subs: set<Sub>, t: string)
    requires Stores(l, prefix, subs) && Child(l, t).Some?
    ensures Stores(Child(l, t).value.next, prefix + [t], subs)
  {
    var n := Child(l, t).value;
    assert NodeAt(l, [t]) == Some(n);
    forall path: seq<string> | path != []
      ensures NodeAt(n.next, path) == NodeAt(l, [t] + path)
    {
      assert ([t] + path)[1..] == path;
    }
    forall path: seq<string>, x | path != []
      ensures Holds(n.next, path, x) <==> x in subs && Tokens(x.subject) == prefix + [t] + path
    {
      assert prefix + [t] + path == prefix + ([t] + path);
      assert Holds(n.next, path, x) <==> Holds(l, [t] + path, x);
    }
  }

  /** The subscriptions at a child. */
  lemma StoresAt(l: Level, prefix: seq<string>, subs: set<Sub>, t: string)
    requires Stores(l, prefix, subs)
    ensures Child(l, t).Some? ==> NodeOk(Child(l, t).value)
    ensures forall x :: x in subs && Tokens(x.subject) == prefix + [t] <==> Child(l, t).Some? && In(Child(l, t).value, x)
  {
    assert NodeAt(l, [t]) == Child(l, t);
    forall x
      ensures x in subs && Tokens(x.subject) == prefix + [t] <==> Child(l, t).Some? && In(Child(l, t).value, x)
    {
      assert Holds(l, [t], x) <==> x in subs && Tokens(x.subject) == prefix + [t];
    }
  }

  /** Where there is no child there is nothing below it. */
  lemma NothingBelow(l: Level, prefix: seq<string>, subs: set<Sub>, t: string, x: Sub, rest: seq<string>)
    requires Stores(l, prefix, subs) && Child(l, t) == None && x in subs
    ensures Tokens(x.subject) != prefix + [t] + rest
  {
    assert prefix + [t] + rest == prefix + ([t] + rest);
    assert !Holds(l, [t] + rest, x);
  }

  lemma {:induction false} NodeBelow(l: Level, path: seq<string>, t: string)
    requires path != []
    ensures NodeAt(l, path + [t]) ==
            match NodeAt(l, path) case None => None case Some(n) => Child(n.next, t)
    decreases |path|
  {
    match Child(l, path[0])
    case None =>
    case Some(n) =>
      assert (path + [t])[1..] == path[1..] + [t];
      if |path| > 1 {
        NodeBelow(n.next, path[1..], t);
      }
  }

  lemma {:induction false} NoNodeBelow(l: Level, path: seq<string>, k: nat)
    requires 0 < k <= |path| && NodeAt(l, path[..k]) == None
    ensures NodeAt(l, path) == None
    decreases k
  {
    match Child(l, path[0])
    case None =>
    case Some(n) =>
      assert path[..k][1..] == path[1..][..k - 1];
      NoNodeBelow(n.next, path[1..], k - 1);
  }

  // ----- inserting -----

  /** Whether the tokens make a valid subject, as they are gone through one by one. */
  predicate AreValid(tokens: seq<string>) {
    tokens != [] && WellFormed(tokens)
  }

  /** The level after inserting: nodes are made on the way, and stay even if the subject turns out not to
      be valid. The node at the end is given. */
  function Inserted(l: Level, tokens: seq<string>, end: Node): (l': Level)
    requires tokens != []
    decreases |tokens|
  {
    var t, n := tokens[0], ChildOrNew(l, tokens[0]);
    if t == "" then l
    else if |tokens| == 1 then WithChild(l, t, end)
    else if t == FWC then WithChild(l, t, n)
    else WithChild(l, t, n.(next := Inserted(n.next, tokens[1..], end)))
  }

  function EndOrNew(l: Level, tokens: seq<string>): (n: Node)
    requires tokens != []
  {
    match NodeAt(l, tokens) case Some(n) => n case None => NEW_NODE
  }

  lemma ChildAfter(l: Level, t: string, n: Node, u: string)
    ensures Child(WithChild(l, t, n), u) == if u == t then Some(n) else Child(l, u)
    ensures Child(WithoutChild(l, t), u) == if u == t then None else Child(l, u)
  {
  }

  lemma NothingInNew(path: seq<string>)
    requires path != []
    ensures NodeAt(EMPTY_LEVEL, path) == None
  {
  }

  /** What is at a path after inserting a valid subject: at its own path the given node, elsewhere what was
      there, or a new node on the way to it. */
  lemma {:induction false} InsertedAt(l: Level, tokens: seq<string>, end: Node, path: seq<string>)
    requires AreValid(tokens) && path != []
    requires end.next == EndOrNew(l, tokens).next
    ensures path == tokens ==> NodeAt(Inserted(l, tokens, end), path) == Some(end)
    ensures path != tokens ==>
              var before, after := NodeAt(l, path), NodeAt(Inserted(l, tokens, end), path);
              match before
              case Some(n) => after.Some? && after.value == n.(next := after.value.next)
              case None => after.Some? ==> after.value == NEW_NODE.(next := after.value.next)
    decreases |tokens|
  {
    var t, n := tokens[0], ChildOrNew(l, tokens[0]);
    if |tokens| == 1 {
      ChildAfter(l, t, end, path[0]);
      if path[0] == t && |path| > 1 && Child(l, t) == None {
        NothingInNew(path[1..]);
      }
    } else {
      var below := n.(next := Inserted(n.next, tokens[1..], end));
      ChildAfter(l, t, below, path[0]);
      if path[0] == t && |path| > 1 {
        if Child(l, t) == None {
          NothingInNew(path[1..]);
          NothingInNew(tokens[1..]);
        }
        InsertedAt(n.next, tokens[1..], end, path[1..]);
        assert path == [t] + path[1..] && tokens == [t] + tokens[1..];
      } else if Child(l, t) == None {
        NothingInNew(tokens[1..]);
      }
    }
  }

  /** Inserting a subscription that is not there adds it, and nothing else. */
  lemma InsertKeeps(l: Level, subs: set<Sub>, x: Sub, end: Node)
    requires Stores(l, [], subs) && AreValid(Tokens(x.subject)) && x !in subs
    requires IsAdded(EndOrNew(l, Tokens(x.subject)), x, end)
    ensures Stores(Inserted(l, Tokens(x.subject), end), [], subs + {x})
  {
    hide AreValid, NodeOk, IsAdded;
    var tokens := Tokens(x.subject);
    var l' := Inserted(l, tokens, end);
    var n := EndOrNew(l, tokens);
    EndIsOk(l, subs, tokens, x);
    AddedHolds(n, x, end);
    forall path: seq<string> | path != []
      ensures NodeAt(l', path).Some? ==> NodeOk(NodeAt(l', path).value)
      ensures forall y :: Holds(l', path, y) <==> Holds(l, path, y) || (path == tokens && y == x)
    {
      InsertedAt(l, tokens, end, path);
      PlainNodeIsOk(l, path, NodeAt(l', path));
    }
    forall path: seq<string>, y | path != []
      ensures Holds(l', path, y) <==> y in subs + {x} && Tokens(y.subject) == [] + path
    {
      assert [] + path == path;
      assert Holds(l, path, y) <==> y in subs && Tokens(y.subject) == [] + path;
    }
  }

  lemma EndIsOk(l: Level, subs: set<Sub>, tokens: seq<string>, x: Sub)
    requires Stores(l, [], subs) && tokens != [] && x !in subs
    ensures NodeOk(EndOrNew(l, tokens)) && !In(EndOrNew(l, tokens), x)
    ensures forall y :: In(EndOrNew(l, tokens), y) <==> Holds(l, tokens, y)
  {
    assert !Holds(l, tokens, x);
  }

  /** A node that differs from one in order, or from a new one, in what is below it only. */
  lemma PlainNodeIsOk(l: Level, path: seq<string>, after: Option<Node>)
    requires LevelOk(l) && path != []
    ensures var before := if NodeAt(l, path).Some? then NodeAt(l, path).value else NEW_NODE;
            after.Some? && after.value == before.(next := after.value.next) ==>
              NodeOk(after.value) && forall y :: In(after.value, y) <==> In(before, y)
  {
  }

  /** A subject that is not valid may leave nodes behind, but none with a subscription. */
  lemma {:induction false} InvalidAt(l: Level, tokens: seq<string>, end: Node, path: seq<string>)
    requires tokens != [] && !WellFormed(tokens) && path != []
    ensures var before, after := NodeAt(l, path), NodeAt(Inserted(l, tokens, end), path);
            match before
            case Some(n) => after.Some? && after.value == n.(next := after.value.next)
            case None => after.Some? ==> after.value == NEW_NODE.(next := after.value.next)
    decreases |tokens|
  {
    var t, n := tokens[0], ChildOrNew(l, tokens[0]);
    if t != "" {
      assert |tokens| > 1;
      var made := if t == FWC then n else n.(next := Inserted(n.next, tokens[1..], end));
      ChildAfter(l, t, made, path[0]);
      if path[0] == t && |path| > 1 {
        if Child(l, t) == None {
          NothingInNew(path[1..]);
        }
        if t != FWC {
          assert forall i :: 0 <= i < |tokens[1..]| ==> tokens[1..][i] == tokens[i + 1];
          InvalidAt(n.next, tokens[1..], end, path[1..]);
        }
      }
    }
  }

  lemma InvalidKeeps(l: Level, subs: set<Sub>, tokens: seq<string>, end: Node)
    requires Stores(l, [], subs) && tokens != [] && !WellFormed(tokens)
    ensures Stores(Inserted(l, tokens, end), [], subs)
  {
    hide NodeOk, WellFormed;
    var l' := Inserted(l, tokens, end);
    forall path: seq<string> | path != []
      ensures NodeAt(l', path).Some? ==> NodeOk(NodeAt(l', path).value)
      ensures forall y :: Holds(l', path, y) <==> Holds(l, path, y)
    {
      InvalidAt(l, tokens, end, path);
      PlainNodeIsOk(l, path, NodeAt(l', path));
    }
  }

  // ----- removing -----

  predicate IsBare(n: Node) {
    n.psubs == {} && n.qsubs == map[] && n.next == EMPTY_LEVEL
  }

  /** The node at the end without the subscription, and nodes that have become bare cut off on the way
      back. */
  function Removed(l: Level, tokens: seq<string>, x: Sub): (l': Level)
    requires tokens != [] && NodeAt(l, tokens).Some?
    decreases |tokens|
  {
    var t, n := tokens[0], Child(l, tokens[0]).value;
    var n' := if |tokens| == 1 then Taken(n, x) else n.(next := Removed(n.next, tokens[1..], x));
    if IsBare(n') then WithoutChild(l, t) else WithChild(l, t, n')
  }

  lemma BareHoldsNothing(n: Node, y: Sub)
    requires IsBare(n)
    ensures !In(n, y) && forall path :: path != [] ==> NodeAt(n.next, path) == None
  {
  }

  /** What is held after removing is what was held before, but for the one subscription; and nodes stay in
      order. */
  lemma {:induction false} RemovedAt(l: Level, tokens: seq<string>, x: Sub, path: seq<string>, y: Sub)
    requires tokens != [] && NodeAt(l, tokens).Some? && path != [] && LevelOk(l)
    ensures Holds(Removed(l, tokens, x), path, y) <==> Holds(l, path, y) && !(path == tokens && y == x)
    ensures NodeAt(Removed(l, tokens, x), path).Some? ==> NodeOk(NodeAt(Removed(l, tokens, x), path).value)
    decreases |tokens|
  {
    hide NodeOk;
    var t, n := tokens[0], Child(l, tokens[0]).value;
    var n' := if |tokens| == 1 then Taken(n, x) else n.(next := Removed(n.next, tokens[1..], x));
    ChildAfter(l, t, n', path[0]);
    OkBelow(l, t);
    if path[0] != t {
      assert NodeAt(Removed(l, tokens, x), path) == NodeAt(l, path);
    } else {
      if IsBare(n') {
        BareHoldsNothing(n', y);
      }
      assert path == [t] + path[1..] && tokens == [t] + tokens[1..];
      if |tokens| == 1 {
        TakenHolds(n, x);
        if |path| == 1 {
          assert path == tokens;
          assert In(n', y) <==> In(n, y) && y != x;
        } else {
          assert NodeAt(n'.next, path[1..]) == NodeAt(n.next, path[1..]);
        }
      } else {
        NextOnly(n, Removed(n.next, tokens[1..], x), y);
        if |path| > 1 {
          RemovedAt(n.next, tokens[1..], x, path[1..], y);
        }
      }
    }
  }

  lemma NextOnly(n: Node, next: Level, y: Sub)
    requires NodeOk(n)
    ensures NodeOk(n.(next := next)) && (In(n.(next := next), y) <==> In(n, y))
  {
  }

  lemma OkBelow(l: Level, t: string)
    requires LevelOk(l) && Child(l, t).Some?
    ensures NodeOk(Child(l, t).value) && LevelOk(Child(l, t).value.next)
  {
    hide NodeOk;
    var n := Child(l, t).value;
    assert NodeAt(l, [t]) == Some(n);
    forall path: seq<string> | path != []
      ensures NodeAt(n.next, path) == NodeAt(l, [t] + path)
    {
      assert ([t] + path)[1..] == path;
    }
  }

  lemma RemoveKeeps(l: Level, subs: set<Sub>, x: Sub)
    requires Stores(l, [], subs) && NodeAt(l, Tokens(x.subject)).Some?
    ensures Stores(Removed(l, Tokens(x.subject), x), [], subs - {x})
  {
    hide NodeOk;
    var tokens := Tokens(x.subject);
    var l' := Removed(l, tokens, x);
    forall path: seq<string>, y | path != []
      ensures NodeAt(l', path).Some? ==> NodeOk(NodeAt(l', path).value)
      ensures Holds(l', path, y) <==> y in subs - {x} && Tokens(y.subject) == [] + path
    {
      assert [] + path == path;
      RemovedAt(l, tokens, x, path, y);
      assert Holds(l, path, y) <==> y in subs && Tokens(y.subject) == [] + path;
    }
  }

  // ----- nothing is left behind -----

  /** No node of the tree is bare. */
  ghost predicate Pruned(l: Level) {
    forall path :: path != [] && NodeAt(l, path).Some? ==> !IsBare(NodeAt(l, path).value)
  }

  lemma PrunedBelow(l: Level, t: string)
    requires Pruned(l) && Child(l, t).Some?
    ensures Pruned(Child(l, t).value.next) && !IsBare(Child(l, t).value)
  {
    hide IsBare;
    var n := Child(l, t).value;
    assert NodeAt(l, [t]) == Some(n);
    forall path: seq<string> | path != []
      ensures NodeAt(n.next, path) == NodeAt(l, [t] + path)
    {
      assert ([t] + path)[1..] == path;
    }
  }

  lemma {:induction false} RemovedIsPruned(l: Level, tokens: seq<string>, x: Sub)
    requires tokens != [] && NodeAt(l, tokens).Some? && Pruned(l)
    ensures Pruned(Removed(l, tokens, x))
    decreases |tokens|
  {
    hide IsBare;
    var t, n := tokens[0], Child(l, tokens[0]).value;
    var n' := if |tokens| == 1 then Taken(n, x) else n.(next := Removed(n.next, tokens[1..], x));
    PrunedBelow(l, t);
    if |tokens| > 1 {
      RemovedIsPruned(n.next, tokens[1..], x);
    }
    assert Pruned(n'.next);
    forall path: seq<string> | path != [] && NodeAt(Removed(l, tokens, x), path).Some?
      ensures !IsBare(NodeAt(Removed(l, tokens, x), path).value)
    {
      ChildAfter(l, t, n', path[0]);
      if path[0] != t {
        assert NodeAt(Removed(l, tokens, x), path) == NodeAt(l, path);
      } else if |path| > 1 {
        assert NodeAt(Removed(l, tokens, x), path) == NodeAt(n'.next, path[1..]);
      }
    }
  }

  lemma {:induction false} InsertedIsPruned(l: Level, tokens: seq<string>, end: Node)
    requires AreValid(tokens) && Pruned(l) && !IsBare(end) && end.next == EndOrNew(l, tokens).next
    ensures Pruned(Inserted(l, tokens, end)) && Inserted(l, tokens, end) != EMPTY_LEVEL
    decreases |tokens|
  {
    var t, n := tokens[0], ChildOrNew(l, tokens[0]);
    if Child(l, t).Some? {
      PrunedBelow(l, t);
    } else if |tokens| > 1 {
      NothingInNew(tokens[1..]);
    }
    assert Pruned(n.next);
    if |tokens| > 1 {
      InsertedIsPruned(n.next, tokens[1..], end);
    }
    var made := if |tokens| == 1 then end else n.(next := Inserted(n.next, tokens[1..], end));
    assert Pruned(made.next) && !IsBare(made);
    hide IsBare;
    var l' := Inserted(l, tokens, end);
    assert l' == WithChild(l, t, made) && Child(l', t) == Some(made);
    forall path: seq<string> | path != [] && NodeAt(l', path).Some?
      ensures !IsBare(NodeAt(l', path).value)
    {
      ChildAfter(l, t, made, path[0]);
      if path[0] != t {
        assert NodeAt(l', path) == NodeAt(l, path);
      } else if |path| > 1 {
        assert NodeAt(l', path) == NodeAt(made.next, path[1..]);
      }
    }
  }

  /** In a pruned tree every branch ends in a subscription. */
  lemma {:induction false} SomethingHeld(l: Level) returns (path: seq<string>, x: Sub)
    requires l != EMPTY_LEVEL && Pruned(l) && LevelOk(l)
    ensures path != [] && Holds(l, path, x)
    decreases l
  {
    hide NodeOk;
    var t: string, n: Node;
    if l.pwc.Some? {
      t, n := PWC, l.pwc.value;
    } else if l.fwc.Some? {
      t, n := FWC, l.fwc.value;
    } else {
      assert l.nodes != map[];
      var u: Plain :| u in l.nodes;
      t, n := u, l.nodes[u];
    }
    assert Child(l, t) == Some(n);
    PrunedBelow(l, t);
    OkBelow(l, t);
    if n.psubs != {} || n.qsubs != map[] {
      x := SomeSub(n);
      path := [t];
    } else {
      var rest: seq<string>;
      rest, x := SomethingHeld(n.next);
      path := [t] + rest;
      assert path[1..] == rest;
    }
  }

  lemma SomeSub(n: Node) returns (x: Sub)
    requires NodeOk(n) && (n.psubs != {} || n.qsubs != map[])
    ensures In(n, x)
  {
    if n.psubs != {} {
      x :| x in n.psubs;
    } else {
      var q :| q in n.qsubs;
      x :| x in n.qsubs[q];
    }
  }

  /** So when all subscriptions are gone the tree is empty again. */
  lemma EmptyWhenGone(l: Level)
    requires Stores(l, [], {}) && Pruned(l)
    ensures l == EMPTY_LEVEL
  {
    if l != EMPTY_LEVEL {
      var path, x := SomethingHeld(l);
      assert false;
    }
  }

  // ----- what a subject that is not valid leaves behind -----

  /** The first token that is empty or behind a full wildcard. */
  function FirstBad(tokens: seq<string>): (k: nat)
    requires tokens != [] && !WellFormed(tokens)
    ensures k < |tokens| && (tokens[k] == "" || (k > 0 && tokens[k - 1] == FWC))
    ensures forall i :: 0 <= i < k ==> tokens[i] != "" && (tokens[i] == FWC ==> i == k - 1)
  {
    if tokens[0] == "" then 0
    else if tokens[0] == FWC then 1
    else
      assert forall i :: 0 <= i < |tokens[1..]| ==> tokens[1..][i] == tokens[i + 1];
      1 + FirstBad(tokens[1..])
  }

  /** The nodes up to there are made where there are none, and the last of them is then a bare one. */
  lemma {:induction false} InvalidLeaves(l: Level, tokens: seq<string>, end: Node)
    requires tokens != [] && !WellFormed(tokens)
    ensures var k, l' := FirstBad(tokens), Inserted(l, tokens, end);
            if k == 0 || NodeAt(l, tokens[..k]).Some? then l' == l else NodeAt(l', tokens[..k]) == Some(NEW_NODE)
    decreases |tokens|
  {
    var t, k := tokens[0], FirstBad(tokens);
    if t != "" {
      var n := ChildOrNew(l, t);
      var made := if t == FWC then n else n.(next := Inserted(n.next, tokens[1..], end));
      assert Inserted(l, tokens, end) == WithChild(l, t, made);
      ChildAfter(l, t, made, t);
      SameChild(l, t);
      if t != FWC {
        assert forall i :: 0 <= i < |tokens[1..]| ==> tokens[1..][i] == tokens[i + 1];
        InvalidLeaves(n.next, tokens[1..], end);
        assert tokens[..k][1..] == tokens[1..][..k - 1];
        if k > 1 && Child(l, t) == None {
          NothingInNew(tokens[1..][..k - 1]);
        }
      }
    }
  }

  lemma SameChild(l: Level, t: string)
    ensures Child(l, t).Some? ==> WithChild(l, t, Child(l, t).value) == l
  {
    if !IsWild(t) && t in l.nodes {
      assert l.nodes[t := l.nodes[t]] == l.nodes;
    }
  }

  /** So a tree without bare nodes keeps being one if and only if the nodes up to the bad token were there. */
  lemma InvalidPrunes(l: Level, tokens: seq<string>, end: Node)
    requires Pruned(l) && tokens != [] && !WellFormed(tokens)
    ensures Pruned(Inserted(l, tokens, end)) <==> FirstBad(tokens) == 0 || NodeAt(l, tokens[..FirstBad(tokens)]).Some?
  {
    hide Inserted, NodeAt, FirstBad;
    InvalidLeaves(l, tokens, end);
    var k := FirstBad(tokens);
    assert k > 0 ==> tokens[..k] != [];
  }
}
