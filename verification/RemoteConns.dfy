/** How many connections an account has on other servers, added up from what those servers report. */
module RemoteConns {
  type Id = string

  // ----- 32-bit sums -----

  type Int32 = x: int | -0x8000_0000 <= x < 0x8000_0000

  function Wrap32(x: int): (r: Int32)
    ensures -0x8000_0000 <= x < 0x8000_0000 ==> r == x
  {
    (x + 0x8000_0000) % 0x1_0000_0000 - 0x8000_0000
  }

  lemma WrapIsPeriodic(x: int, k: int)
    ensures Wrap32(x + k * 0x1_0000_0000) == Wrap32(x)
  {
    var q, r := (x + 0x8000_0000) / 0x1_0000_0000, (x + 0x8000_0000) % 0x1_0000_0000;
    assert x + 0x8000_0000 + k * 0x1_0000_0000 == (q + k) * 0x1_0000_0000 + r;
  }

  lemma WrapSum(x: int, y: int)
    ensures Wrap32(Wrap32(x) + y) == Wrap32(x + y) && Wrap32(x + Wrap32(y)) == Wrap32(x + y)
  {
    var kx, ky := (x + 0x8000_0000) / 0x1_0000_0000, (y + 0x8000_0000) / 0x1_0000_0000;
    assert Wrap32(x) == x - kx * 0x1_0000_0000 && Wrap32(y) == y - ky * 0x1_0000_0000;
    WrapIsPeriodic(x + y, -kx);
    WrapIsPeriodic(x + y, -ky);
  }

  ghost function Sum(m: map<Id, int>): (s: int) {
    if m == map[] then 0 else
      var k :| k in m;
      m[k] + Sum(m - {k})
  }

  /** Whichever is taken out first. */
  lemma {:induction false} SumWithout(m: map<Id, int>, k: Id)
    requires k in m
    ensures Sum(m) == m[k] + Sum(m - {k})
    decreases m
  {
    var first :| first in m && Sum(m) == m[first] + Sum(m - {first});
    if first != k {
      SumWithout(m - {first}, k);
      SumWithout(m - {k}, first);
      assert m - {first} - {k} == m - {k} - {first};
    }
  }

  lemma SumWith(m: map<Id, int>, k: Id, x: int)
    ensures Sum(m[k := x]) == Sum(m) - (if k in m then m[k] else 0) + x
  {
    SumWithout(m[k := x], k);
    assert m[k := x] - {k} == m - {k};
    if k in m {
      SumWithout(m, k);
    } else {
      assert m - {k} == m;
    }
  }

  // ----- one account -----

  /** What one server reports for an account. */
  datatype Conns = Conns(conns: Int32, leafs: Int32)

  /** The reports an account goes by, and the running totals. */
  datatype Remote = Remote(strack: map<Id, Conns>, nrclients: Int32, nrleafs: Int32) {

    function ConnsOf(): (m: map<Id, int>) {
      map id | id in strack :: strack[id].conns
    }

    function LeafsOf(): (m: map<Id, int>) {
      map id | id in strack :: strack[id].leafs
    }

    /** The running totals are the sums. */
    ghost predicate Adds() {
      nrclients == Wrap32(Sum(ConnsOf())) && nrleafs == Wrap32(Sum(LeafsOf()))
    }

    function Prev(id: Id): (c: Conns) {
      if id in strack then strack[id] else Conns(0, 0)
    }

    function Updated(id: Id, conns: int, leafs: int): (r: Remote) {
      Remote(strack[id := Conns(Wrap32(conns), Wrap32(leafs))],
             Wrap32(nrclients + Wrap32(Wrap32(conns) - Prev(id).conns)),
             Wrap32(nrleafs + Wrap32(Wrap32(leafs) - Prev(id).leafs)))
    }

    function Removed(id: Id): (r: Remote) {
      Remote(strack - {id}, Wrap32(nrclients - Prev(id).conns), Wrap32(nrleafs - Prev(id).leafs))
    }
  }

  const NONE := Remote(map[], 0, 0)

  lemma NoneAdds()
    ensures NONE.Adds()
  {
    assert NONE.ConnsOf() == map[] && NONE.LeafsOf() == map[];
  }

  lemma WrapChange(total: int, before: int, after: int)
    ensures Wrap32(Wrap32(total) + Wrap32(Wrap32(after) - before)) == Wrap32(total - before + Wrap32(after))
    ensures Wrap32(Wrap32(total) - before) == Wrap32(total - before)
  {
    WrapSum(Wrap32(total), Wrap32(after) - before);
    WrapSum(total, Wrap32(after) - before);
    WrapSum(total, -before);
  }

  lemma UpdatedAdds(r: Remote, id: Id, conns: int, leafs: int)
    requires r.Adds()
    ensures r.Updated(id, conns, leafs).Adds()
  {
    hide Wrap32, Sum;
    var u := r.Updated(id, conns, leafs);
    assert u.ConnsOf() == r.ConnsOf()[id := Wrap32(conns)] && u.LeafsOf() == r.LeafsOf()[id := Wrap32(leafs)];
    SumWith(r.ConnsOf(), id, Wrap32(conns));
    SumWith(r.LeafsOf(), id, Wrap32(leafs));
    WrapChange(Sum(r.ConnsOf()), r.Prev(id).conns, conns);
    WrapChange(Sum(r.LeafsOf()), r.Prev(id).leafs, leafs);
  }

  lemma RemovedAdds(r: Remote, id: Id)
    requires r.Adds()
    ensures r.Removed(id).Adds()
  {
    hide Wrap32, Sum;
    var u := r.Removed(id);
    assert u.ConnsOf() == r.ConnsOf() - {id} && u.LeafsOf() == r.LeafsOf() - {id};
    if id in r.strack {
      SumWithout(r.ConnsOf(), id);
      SumWithout(r.LeafsOf(), id);
    } else {
      assert r.ConnsOf() - {id} == r.ConnsOf() && r.LeafsOf() - {id} == r.LeafsOf();
    }
    WrapChange(Sum(r.ConnsOf()), r.Prev(id).conns, 0);
    WrapChange(Sum(r.LeafsOf()), r.Prev(id).leafs, 0);
  }

  // ----- local connections -----

  datatype Kind = ClientKind | LeafKind | OtherKind

  datatype Client = Client(id: nat, kind: Kind, start: int)

  function Leafs(clients: set<Client>): (s: set<Client>) {
    set c | c in clients && c.kind == LeafKind
  }

  function Others(clients: set<Client>): (s: set<Client>) {
    set c | c in clients && c.kind == OtherKind
  }

  predicate Distinct(s: seq<Client>) {
    forall i, j :: 0 <= i < j < |s| ==> s[i] != s[j]
  }

  /** A limit on connections; -1 is none. */
  type Limit = x: int | -1 <= x < 0x8000_0000

  const NO_LIMIT: Limit := -1

  /** The counters are the numbers of what they count, and the list of leafs holds each leaf once. */
  ghost predicate Counted(clients: set<Client>, sysclients: Int32, nleafs: Int32, lleafs: seq<Client>) {
    && sysclients == Wrap32(|Others(clients)|) && nleafs == Wrap32(|Leafs(clients)|)
    && Distinct(lleafs) && (forall c :: c in lleafs <==> c in Leafs(clients))
  }

  lemma AddedIsCounted(clients: set<Client>, sysclients: Int32, nleafs: Int32, lleafs: seq<Client>, c: Client)
    requires Counted(clients, sysclients, nleafs, lleafs) && c !in clients
    ensures Counted(clients + {c},
                    if c.kind == OtherKind then Wrap32(sysclients + 1) else sysclients,
                    if c.kind == LeafKind then Wrap32(nleafs + 1) else nleafs,
                    if c.kind == LeafKind then lleafs + [c] else lleafs)
  {
    hide Wrap32, Leafs, Others;
    AddedOne(clients, c);
    WrapSum(|Others(clients)|, 1);
    WrapSum(|Leafs(clients)|, 1);
  }

  lemma RemovedIsCounted(clients: set<Client>, sysclients: Int32, nleafs: Int32, lleafs: seq<Client>, c: Client, rest: seq<Client>)
    requires Counted(clients, sysclients, nleafs, lleafs) && c in clients
    requires if c.kind == LeafKind then Distinct(rest) && forall x :: x in rest <==> x in lleafs && x != c else rest == lleafs
    ensures Counted(clients - {c},
                    if c.kind == OtherKind then Wrap32(sysclients - 1) else sysclients,
                    if c.kind == LeafKind then Wrap32(nleafs - 1) else nleafs,
                    rest)
  {
    hide Wrap32, Leafs, Others;
    RemovedOne(clients, c);
    WrapSum(|Others(clients)|, -1);
    WrapSum(|Leafs(clients)|, -1);
  }

  // ----- shedding connections -----

  /** How many connections there are on all servers, without those of the system itself. */
  function Total(clients: set<Client>, sysclients: Int32, remote: Remote): (n: int) {
    |clients| - sysclients + remote.nrclients
  }

  predicate IsOver(total: int, limit: Limit) {
    limit != NO_LIMIT && total > limit
  }

  /** The end of the list of leafs, as much of it as is over the limit. */
  function LeafsOver(total: int, limit: Limit, lleafs: seq<Client>): (s: seq<Client>)
    ensures forall c :: c in s ==> c in lleafs
  {
    if !IsOver(total, limit) then []
    else if total - limit < |lleafs| then lleafs[|lleafs| - (total - limit)..]
    else lleafs
  }

  /** So many of the connections, each once, and none that is left is newer than one of them. */
  ghost predicate AreNewest(s: seq<Client>, clients: set<Client>, n: nat) {
    && Distinct(s) && |s| == (if n < |clients| then n else |clients|)
    && (forall c :: c in s ==> c in clients)
    && (forall c, d :: c in s && d in clients && d !in s ==> c.start >= d.start)
  }

  /** What is to be shed: the newest connections, as many as are over the limit, and then leafs. */
  ghost predicate IsMeant(s: seq<Client>, clients: set<Client>, total: int, limit: Limit, leafs: seq<Client>) {
    if IsOver(total, limit) then
      |leafs| <= |s| && s[|s| - |leafs|..] == leafs && AreNewest(s[..|s| - |leafs|], clients, total - limit)
    else s == leafs
  }

  ghost predicate IsNewestFirst(s: seq<Client>) {
    forall i, j :: 0 <= i < j < |s| ==> s[i].start >= s[j].start
  }

  method Newest(clients: set<Client>) returns (c: Client)
    requires clients != {}
    ensures c in clients && forall d :: d in clients ==> c.start >= d.start
  {
    c :| c in clients;
    var todo := clients - {c};
    while todo != {}
      invariant c in clients && todo <= clients && forall d :: d in clients - todo ==> c.start >= d.start
      decreases todo
    {
      var d :| d in todo;
      if d.start > c.start {
        c := d;
      }
      todo := todo - {d};
    }
  }

  /** All connections, in some order by their start. */
  method NewestFirst(clients: set<Client>) returns (s: seq<Client>)
    ensures Distinct(s) && IsNewestFirst(s) && |s| == |clients| && forall c :: c in s <==> c in clients
  {
    s := [];
    var todo := clients;
    while todo != {}
      invariant todo <= clients && Distinct(s) && IsNewestFirst(s) && |s| + |todo| == |clients|
      invariant forall c :: c in s <==> c in clients - todo
      invariant forall c, d :: c in s && d in todo ==> c.start >= d.start
      decreases todo
    {
      var c := Newest(todo);
      s := s + [c];
      todo := todo - {c};
    }
  }

  lemma FirstAreNewest(s: seq<Client>, clients: set<Client>, n: nat)
    requires Distinct(s) && IsNewestFirst(s) && |s| == |clients| && forall c :: c in s <==> c in clients
    ensures AreNewest(if n < |s| then s[..n] else s, clients, n)
  {
    if n < |s| {
      forall c, d | c in s[..n] && d in clients && d !in s[..n]
        ensures c.start >= d.start
      {
        NotNewer(s, n, c, d);
      }
      hide IsNewestFirst;
      assert forall c :: c in s[..n] ==> c in s;
    }
  }

  lemma NotNewer(s: seq<Client>, n: nat, c: Client, d: Client)
    requires IsNewestFirst(s) && n <= |s| && c in s[..n] && d in s && d !in s[..n]
    ensures c.start >= d.start
  {
    assert s == s[..n] + s[n..];
    var i :| 0 <= i < n && s[i] == c;
    var j :| 0 <= j < |s[n..]| && s[n..][j] == d;
    assert s[n + j] == d;
  }

  lemma MeantInAll(lost: seq<Client>, leafs: seq<Client>, clients: set<Client>, total: int, limit: Limit)
    requires if IsOver(total, limit) then AreNewest(lost, clients, total - limit) else lost == []
    ensures IsMeant(lost + leafs, clients, total, limit, leafs)
  {
    hide AreNewest;
    assert (lost + leafs)[|lost|..] == leafs && (lost + leafs)[..|lost|] == lost;
  }

  lemma NoneOver(total: int, limit: Limit, lleafs: seq<Client>)
    requires !IsOver(total, limit)
    ensures LeafsOver(total, limit, lleafs) == []
  {
  }

  method LastOver(lleafs: seq<Client>, total: int, limit: Limit) returns (s: seq<Client>)
    requires IsOver(total, limit)
    ensures s == LeafsOver(total, limit, lleafs)
  {
    s := lleafs;
    var over := total - limit;
    if over < |s| {
      s := s[|s| - over..];
    }
  }

  method NewestOver(clients: set<Client>, over: nat) returns (s: seq<Client>)
    ensures AreNewest(s, clients, over)
  {
    s := NewestFirst(clients);
    FirstAreNewest(s, clients, over);
    if over < |s| {
      s := s[..over];
    }
  }

  /** What is shed are leafs and nothing else, and it is what was meant if and only if the account is not over
      its limit of connections, or has none itself. */
  lemma ShedIsMeant(clients: set<Client>, sysclients: Int32, nleafs: Int32, lleafs: seq<Client>, remote: Remote,
                    mconns: Limit, mleafs: Limit, meant: seq<Client>)
    requires Counted(clients, sysclients, nleafs, lleafs)
    requires IsMeant(meant, clients, Total(clients, sysclients, remote), mconns, LeafsOver(Wrap32(nleafs + remote.nrleafs), mleafs, lleafs))
    ensures var shed := LeafsOver(Wrap32(nleafs + remote.nrleafs), mleafs, lleafs);
            && (forall c :: c in shed ==> c in clients && c.kind == LeafKind)
            && (shed == meant <==> !IsOver(Total(clients, sysclients, remote), mconns) || clients == {})
  {
    hide Wrap32, Total;
    var shed := LeafsOver(Wrap32(nleafs + remote.nrleafs), mleafs, lleafs);
    assert forall c :: c in shed ==> c in Leafs(clients);
    if IsOver(Total(clients, sysclients, remote), mconns) {
      var first := meant[..|meant| - |shed|];
      assert |clients| > 0 <==> clients != {};
      assert |first| == 0 <==> clients == {};
      assert meant == first + shed;
    }
  }

  /** One client too many, and no limit on leafs: the client was meant, and nothing is shed. */
  lemma ClientIsKept(c: Client, mconns: Limit)
    requires c.kind == ClientKind && mconns == 0
    ensures Counted({c}, 0, 0, []) && NONE.Adds() && IsOver(Total({c}, 0, NONE), mconns)
    ensures IsMeant([c], {c}, Total({c}, 0, NONE), mconns, LeafsOver(0, NO_LIMIT, []))
    ensures LeafsOver(0, NO_LIMIT, []) == []
  {
    NoneAdds();
    assert Leafs({c}) == {} && Others({c}) == {};
    assert [c][1..] == [] && [c][..1] == [c];
  }

  class Account {
    var clients: set<Client>
    var sysclients: Int32
    var nleafs: Int32
    var lleafs: seq<Client>
    var remote: Remote
    var mconns: Limit
    var mleafs: Limit

    ghost predicate Ok()
      reads this
    {
      Counted(clients, sysclients, nleafs, lleafs) && remote.Adds()
    }

    constructor (mconns: Limit, mleafs: Limit)
      ensures Ok() && clients == {} && remote == NONE && this.mconns == mconns && this.mleafs == mleafs
    {
      clients, sysclients, nleafs, lleafs := {}, 0, 0, [];
      remote, this.mconns, this.mleafs := NONE, mconns, mleafs;
      NoneAdds();
    }

    method AddClient(c: Client) returns (n: nat)
      requires Ok()
      modifies this`clients, this`sysclients, this`nleafs, this`lleafs
      ensures Ok() && clients == old(clients) + {c} && n == |old(clients)|
      ensures lleafs == old(lleafs) + if c.kind == LeafKind && c !in old(clients) then [c] else []
    {
      hide Counted, Wrap32;
      n := |clients|;
      if c !in clients {
        AddedIsCounted(clients, sysclients, nleafs, lleafs, c);
        clients := clients + {c};
        if c.kind == OtherKind {
          sysclients := Wrap32(sysclients + 1);
        } else if c.kind == LeafKind {
          nleafs := Wrap32(nleafs + 1);
          lleafs := lleafs + [c];
        }
      } else {
        assert clients == clients + {c};
      }
    }

    method RemoveClient(c: Client) returns (n: nat)
      requires Ok()
      modifies this`clients, this`sysclients, this`nleafs, this`lleafs
      ensures Ok() && clients == old(clients) - {c} && n == |old(clients)|
    {
      hide Counted, Wrap32;
      n := |clients|;
      if c in clients {
        LeafsAreDistinct();
        clients := clients - {c};
        if c.kind == OtherKind {
          sysclients := Wrap32(sysclients - 1);
        } else if c.kind == LeafKind {
          nleafs := Wrap32(nleafs - 1);
          lleafs := RemoveLeaf(lleafs, c);
        }
        RemovedIsCounted(old(clients), old(sysclients), old(nleafs), old(lleafs), c, lleafs);
      } else {
        assert clients == clients - {c};
      }
    }

    lemma LeafsAreDistinct()
      requires Ok()
      ensures Distinct(lleafs)
    {
    }

    /** The newest connections over the limit are worked out, but in a variable of their own block, which is
        not the one that is returned: what is shed are leafs from the end of the list. */
    method UpdateRemoteServer(id: Id, conns: int, leafs: int) returns (shed: seq<Client>, ghost meant: seq<Client>)
      requires Ok()
      modifies this`remote
      ensures Ok() && remote == old(remote).Updated(id, conns, leafs)
      ensures shed == LeafsOver(Wrap32(nleafs + remote.nrleafs), mleafs, lleafs)
      ensures IsMeant(meant, clients, Total(clients, sysclients, remote), mconns, shed)
      ensures forall c :: c in shed ==> c in clients && c.kind == LeafKind
      ensures shed == meant <==> !IsOver(Total(clients, sysclients, remote), mconns) || clients == {}
    {
      hide Counted, Wrap32, Remote.Updated, Remote.Adds, AreNewest, IsMeant, LeafsOver;
      UpdatedAdds(remote, id, conns, leafs);
      remote := remote.Updated(id, conns, leafs);
      shed := [];
      ghost var lost: seq<Client> := [];
      if mconns != NO_LIMIT && |clients| - sysclients + remote.nrclients > mconns {
        var shed := NewestOver(clients, |clients| - sysclients + remote.nrclients - mconns);
        lost := shed;
      }
      var total := Wrap32(nleafs + remote.nrleafs);
      if mleafs != NO_LIMIT && total > mleafs {
        var last := LastOver(lleafs, total, mleafs);
        assert shed + last == last;
        shed := shed + last;
      } else {
        NoneOver(total, mleafs, lleafs);
      }
      meant := lost + shed;
      MeantInAll(lost, shed, clients, Total(clients, sysclients, remote), mconns);
      ShedIsMeant(clients, sysclients, nleafs, lleafs, remote, mconns, mleafs, meant);
    }

    method RemoveRemoteServer(id: Id)
      requires Ok()
      modifies this`remote
      ensures Ok() && remote == old(remote).Removed(id)
    {
      RemovedAdds(remote, id);
      remote := remote.Removed(id);
    }

    /** The servers that an answer is expected from. */
    method ExpectedRemoteResponses() returns (expected: nat)
      ensures expected == |set id | id in remote.strack && (remote.strack[id].conns > 0 || remote.strack[id].leafs > 0)|
    {
      expected := 0;
      ghost var active: set<Id> := {};
      var todo := remote.strack.Keys;
      while todo != {}
        invariant todo <= remote.strack.Keys && expected == |active|
        invariant forall id :: id in active <==>
                    id in remote.strack.Keys - todo && (remote.strack[id].conns > 0 || remote.strack[id].leafs > 0)
        decreases todo
      {
        var id :| id in todo;
        if remote.strack[id].conns > 0 || remote.strack[id].leafs > 0 {
          expected := expected + 1;
          active := active + {id};
        }
        todo := todo - {id};
      }
      assert active == set id | id in remote.strack && (remote.strack[id].conns > 0 || remote.strack[id].leafs > 0);
    }
  }

  lemma AddedOne(clients: set<Client>, c: Client)
    requires c !in clients
    ensures c !in Leafs(clients) && c !in Others(clients)
    ensures Leafs(clients + {c}) == if c.kind == LeafKind then Leafs(clients) + {c} else Leafs(clients)
    ensures Others(clients + {c}) == if c.kind == OtherKind then Others(clients) + {c} else Others(clients)
  {
    assert Leafs(clients + {c}) == if c.kind == LeafKind then Leafs(clients) + {c} else Leafs(clients);
    assert Others(clients + {c}) == if c.kind == OtherKind then Others(clients) + {c} else Others(clients);
  }

  lemma RemovedOne(clients: set<Client>, c: Client)
    requires c in clients
    ensures (c in Leafs(clients) <==> c.kind == LeafKind) && (c in Others(clients) <==> c.kind == OtherKind)
    ensures Leafs(clients - {c}) == if c.kind == LeafKind then Leafs(clients) - {c} else Leafs(clients)
    ensures Others(clients - {c}) == if c.kind == OtherKind then Others(clients) - {c} else Others(clients)
  {
    assert Leafs(clients - {c}) == if c.kind == LeafKind then Leafs(clients) - {c} else Leafs(clients);
    assert Others(clients - {c}) == if c.kind == OtherKind then Others(clients) - {c} else Others(clients);
  }

  /** The last leaf takes the place of the one that goes. */
  method RemoveLeaf(leafs: seq<Client>, c: Client) returns (r: seq<Client>)
    requires Distinct(leafs)
    ensures Distinct(r) && forall x :: x in r <==> x in leafs && x != c
  {
    var i := 0;
    while i < |leafs|
      invariant 0 <= i <= |leafs| && forall j :: 0 <= j < i ==> leafs[j] != c
    {
      if leafs[i] == c {
        LeafSwappedOut(leafs, i);
        return leafs[i := leafs[|leafs| - 1]][..|leafs| - 1];
      }
      i := i + 1;
    }
    return leafs;
  }

  lemma LeafSwappedOut(s: seq<Client>, i: nat)
    requires i < |s| && Distinct(s)
    ensures var r := s[i := s[|s| - 1]][..|s| - 1];
            Distinct(r) && forall x :: x in r <==> x in s && x != s[i]
  {
    var last := |s| - 1;
    var r := s[i := s[last]][..last];
    forall x
      ensures x in r <==> x in s && x != s[i]
    {
      if x in s && x != s[i] {
        var j :| 0 <= j < |s| && s[j] == x;
        assert r[if j == last then i else j] == x;
      }
      if x in r {
        var j :| 0 <= j < |r| && r[j] == x;
        assert s[if j == i then last else j] == x;
      }
    }
  }
}
