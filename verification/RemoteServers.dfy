/** The servers that a server hears of, and what all its accounts keep about them. */
module RemoteServers {
  import opened RemoteConns

  type Name = string

  /** The last sequence number heard from a server, and when. */
  datatype Known = Known(seqno: nat, ltime: int)

  type Table = map<Id, Known>

  /** A server that is not known yet is taken as it comes; later only newer updates count. */
  function Heard(servers: Table, sid: Id, seqno: nat, now: int): (t: Table) {
    if sid in servers && seqno <= servers[sid].seqno then servers else servers[sid := Known(seqno, now)]
  }

  datatype World = World(id: Id, accounts: map<Name, Remote>, servers: Table)

  /** Every server that an account goes by is known, is not this one, and its figures are added up. */
  ghost predicate Inv(w: World) {
    && (forall a :: a in w.accounts ==> w.accounts[a].Adds())
    && (forall a, sid :: a in w.accounts && sid in w.accounts[a].strack ==> sid in w.servers && sid != w.id)
    && w.id !in w.servers
  }

  /** A server is gone, and its figures are taken out of every account. */
  function Without(w: World, sid: Id): (w': World) {
    World(w.id, map a | a in w.accounts :: w.accounts[a].Removed(sid), w.servers - {sid})
  }

  function WithoutAll(w: World, order: seq<Id>): (w': World) {
    if order == [] then w else Without(WithoutAll(w, order[..|order| - 1]), order[|order| - 1])
  }

  /** Some servers go, one after the other in some order. */
  ghost predicate IsSwept(w: World, gone: set<Id>, w': World) {
    exists order :: AreAll(order, gone) && w' == WithoutAll(w, order)
  }

  ghost predicate AreAll(order: seq<Id>, gone: set<Id>) {
    && (forall sid :: sid in order <==> sid in gone)
    && (forall i, j :: 0 <= i < j < |order| ==> order[i] != order[j])
  }

  /** Nothing of some servers is left, and everything of the others. */
  ghost predicate HasOnlyOthers(w: World, gone: set<Id>, w': World) {
    && w'.id == w.id && w'.servers == w.servers - gone && w'.accounts.Keys == w.accounts.Keys
    && forall a :: a in w.accounts ==> w'.accounts[a].strack == w.accounts[a].strack - gone
  }

  /** Taking a server out keeps the totals right, and takes out what is its own. */
  lemma WithoutKeeps(w: World, sid: Id)
    requires Inv(w)
    ensures Inv(Without(w, sid)) && HasOnlyOthers(w, {sid}, Without(w, sid))
  {
    hide Remote.Adds;
    forall a | a in w.accounts
      ensures w.accounts[a].Removed(sid).Adds()
    {
      RemovedAdds(w.accounts[a], sid);
    }
  }

  lemma {:induction false} WithoutAllKeeps(w: World, order: seq<Id>)
    requires Inv(w)
    ensures Inv(WithoutAll(w, order)) && HasOnlyOthers(w, (set sid | sid in order), WithoutAll(w, order))
  {
    hide Inv, Without;
    if order == [] {
      assert (set sid | sid in order) == {};
      assert w.servers - {} == w.servers;
      assert forall a :: a in w.accounts ==> w.accounts[a].strack - {} == w.accounts[a].strack;
    } else {
      var n := |order| - 1;
      assert order == order[..n] + [order[n]];
      var last := order[n];
      var before := set sid | sid in order[..n];
      assert (set sid | sid in order) == before + {last};
      WithoutAllKeeps(w, order[..n]);
      WithoutKeeps(WithoutAll(w, order[..n]), last);
      GoneToo(w, before, WithoutAll(w, order[..n]), last, WithoutAll(w, order));
    }
  }

  lemma SweptKeeps(w: World, gone: set<Id>, w': World)
    requires Inv(w) && IsSwept(w, gone, w')
    ensures Inv(w') && HasOnlyOthers(w, gone, w')
  {
    hide Inv, HasOnlyOthers, WithoutAll;
    var order :| AreAll(order, gone) && w' == WithoutAll(w, order);
    assert gone == set sid | sid in order;
    WithoutAllKeeps(w, order);
  }

  function Orphans(servers: Table, now: int, orphMax: int): (gone: set<Id>) {
    set sid | sid in servers && now - servers[sid].ltime > orphMax
  }

  class Server {
    const id: Id
    const orphMax: int
    var accounts: map<Name, Remote>
    var servers: Table

    ghost function View(): (w: World)
      reads this
    {
      World(id, accounts, servers)
    }

    constructor (id: Id, orphMax: int)
      ensures Inv(View()) && accounts == map[] && servers == map[] && this.id == id && this.orphMax == orphMax
    {
      this.id, this.orphMax, accounts, servers := id, orphMax, map[], map[];
    }

    method Register(name: Name)
      requires Inv(View())
      modifies this`accounts
      ensures Inv(View()) && accounts == if name in old(accounts) then old(accounts) else old(accounts)[name := NONE]
    {
      NoneAdds();
      if name !in accounts {
        accounts := accounts[name := NONE];
      }
    }

    method Unregister(name: Name)
      requires Inv(View())
      modifies this`accounts
      ensures Inv(View()) && accounts == old(accounts) - {name}
    {
      accounts := accounts - {name};
    }

    method UpdateRemoteServer(sid: Id, seqno: nat, now: int)
      modifies this`servers
      ensures servers == Heard(old(servers), sid, seqno, now)
    {
      if sid !in servers {
        servers := servers[sid := Known(seqno, now)];
      } else if seqno > servers[sid].seqno {
        servers := servers[sid := Known(seqno, now)];
      }
    }

    /** A report for one account: dropped if the account is not registered, or the report is our own. */
    method RemoteConnsUpdate(name: Name, sid: Id, seqno: nat, conns: int, leafs: int, now: int)
      requires Inv(View())
      modifies this`accounts, this`servers
      ensures Inv(View())
      ensures if name !in old(accounts) || sid == id then accounts == old(accounts) && servers == old(servers)
              else && accounts == old(accounts)[name := old(accounts)[name].Updated(sid, conns, leafs)]
                   && servers == Heard(old(servers), sid, seqno, now)
    {
      hide Remote.Adds, Remote.Updated;
      if name !in accounts {
        return;
      }
      if sid == id {
        return;
      }
      UpdatedTracks(accounts[name], sid, conns, leafs);
      UpdatedAdds(accounts[name], sid, conns, leafs);
      accounts := accounts[name := accounts[name].Updated(sid, conns, leafs)];
      UpdateRemoteServer(sid, seqno, now);
    }

    /** The statistics of a server, which say nothing of accounts. */
    method RemoteServerUpdate(sid: Id, seqno: nat, now: int)
      requires Inv(View())
      modifies this`servers
      ensures Inv(View()) && servers == if sid == id then old(servers) else Heard(old(servers), sid, seqno, now)
    {
      if sid != id {
        UpdateRemoteServer(sid, seqno, now);
      }
    }

    method ProcessShutdown(sid: Id)
      requires Inv(View())
      modifies this`accounts, this`servers
      ensures Inv(View()) && View() == Without(old(View()), sid) && HasOnlyOthers(old(View()), {sid}, View())
    {
      hide Inv, HasOnlyOthers, Remote.Removed;
      var todo := accounts.Keys;
      while todo != {}
        invariant todo <= accounts.Keys == old(accounts).Keys && servers == old(servers)
        invariant forall a :: a in todo ==> accounts[a] == old(accounts)[a]
        invariant forall a :: a in accounts.Keys - todo ==> accounts[a] == old(accounts)[a].Removed(sid)
        decreases todo
      {
        var a :| a in todo;
        accounts := accounts[a := accounts[a].Removed(sid)];
        todo := todo - {a};
      }
      servers := servers - {sid};
      assert accounts == map a | a in old(accounts) :: old(accounts)[a].Removed(sid);
      WithoutKeeps(old(View()), sid);
    }

    method RemoteServerShutdown(sid: Id)
      requires Inv(View())
      modifies this`accounts, this`servers
      ensures Inv(View()) && HasOnlyOthers(old(View()), {sid}, View())
      ensures View() == if sid in old(servers) then Without(old(View()), sid) else old(View())
    {
      if sid in servers {
        ProcessShutdown(sid);
      } else {
        UnknownIsNowhere(View(), sid);
      }
    }

    /** Servers that have not been heard of for too long are taken for gone. */
    method CheckRemoteServers(now: int)
      requires Inv(View())
      modifies this`accounts, this`servers
      ensures Inv(View()) && IsSwept(old(View()), Orphans(old(servers), now, orphMax), View())
      ensures HasOnlyOthers(old(View()), Orphans(old(servers), now, orphMax), View())
    {
      hide Inv, HasOnlyOthers, Without;
      var todo := servers.Keys;
      ghost var order: seq<Id> := [];
      while todo != {}
        invariant todo <= servers.Keys && Inv(View()) && View() == WithoutAll(old(View()), order)
        invariant AreAll(order, Orphans(old(servers), now, orphMax) - todo)
        invariant forall sid :: sid in todo ==> sid in old(servers) && servers[sid] == old(servers)[sid]
        decreases todo
      {
        var sid :| sid in todo;
        if now - servers[sid].ltime > orphMax {
          ghost var before := View();
          ProcessShutdown(sid);
          OnlyOthersAreServers(before, sid, View());
          assert (order + [sid])[..|order|] == order;
          order := order + [sid];
        }
        todo := todo - {sid};
      }
      assert Orphans(old(servers), now, orphMax) - todo == Orphans(old(servers), now, orphMax);
      SweptKeeps(old(View()), Orphans(old(servers), now, orphMax), View());
    }
  }

  lemma OnlyOthersAreServers(w: World, sid: Id, w': World)
    requires HasOnlyOthers(w, {sid}, w')
    ensures w'.servers == w.servers - {sid}
  {
  }

  lemma UnknownIsNowhere(w: World, sid: Id)
    requires Inv(w) && sid !in w.servers
    ensures HasOnlyOthers(w, {sid}, w)
  {
    assert w.servers - {sid} == w.servers;
    forall a | a in w.accounts
      ensures w.accounts[a].strack - {sid} == w.accounts[a].strack
    {
      assert sid !in w.accounts[a].strack;
    }
  }

  lemma GoneToo(w: World, gone: set<Id>, w1: World, sid: Id, w2: World)
    requires HasOnlyOthers(w, gone, w1) && HasOnlyOthers(w1, {sid}, w2)
    ensures HasOnlyOthers(w, gone + {sid}, w2)
  {
    assert w.servers - gone - {sid} == w.servers - (gone + {sid});
    assert forall a :: a in w.accounts ==> w.accounts[a].strack - gone - {sid} == w.accounts[a].strack - (gone + {sid});
  }

  // ----- runs -----

  datatype Op =
    | Register(name: Name)
    | Unregister(name: Name)
    | ConnsUpdate(name: Name, sid: Id, seqno: nat, conns: int, leafs: int, now: int)
    | ServerUpdate(sid: Id, seqno: nat, now: int)
    | Shutdown(sid: Id)
    | Check(now: int, orphMax: int)

  /** What the methods above do, as a relation. */
  ghost predicate IsNext(w: World, op: Op, w': World) {
    match op
    case Register(name) => w' == if name in w.accounts then w else w.(accounts := w.accounts[name := NONE])
    case Unregister(name) => w' == w.(accounts := w.accounts - {name})
    case ConnsUpdate(name, sid, seqno, conns, leafs, now) =>
      w' == if name !in w.accounts || sid == w.id then w
            else w.(accounts := w.accounts[name := w.accounts[name].Updated(sid, conns, leafs)],
                    servers := Heard(w.servers, sid, seqno, now))
    case ServerUpdate(sid, seqno, now) => w' == if sid == w.id then w else w.(servers := Heard(w.servers, sid, seqno, now))
    case Shutdown(sid) => w' == if sid in w.servers then Without(w, sid) else w
    case Check(now, orphMax) => IsSwept(w, Orphans(w.servers, now, orphMax), w')
  }

  lemma NextKeeps(w: World, op: Op, w': World)
    requires Inv(w) && IsNext(w, op, w')
    ensures Inv(w')
  {
    hide Remote.Adds, Orphans;
    match op
    case Register(name) => NoneAdds();
    case Unregister(name) =>
    case ConnsUpdate(name, sid, seqno, conns, leafs, now) =>
      if name in w.accounts && sid != w.id {
        UpdatedAdds(w.accounts[name], sid, conns, leafs);
        UpdatedTracks(w.accounts[name], sid, conns, leafs);
        hide Remote.Updated;
      }
    case ServerUpdate(sid, seqno, now) =>
    case Shutdown(sid) => WithoutKeeps(w, sid);
    case Check(now, orphMax) => SweptKeeps(w, Orphans(w.servers, now, orphMax), w');
  }

  lemma UpdatedTracks(r: Remote, sid: Id, conns: int, leafs: int)
    ensures r.Updated(sid, conns, leafs).strack.Keys == r.strack.Keys + {sid}
  {
  }

  /** As long as a server stays known its sequence number never goes down, and it goes up with whatever
      changes what is known of the server. */
  lemma NextCountsUp(w: World, op: Op, w': World, sid: Id)
    requires Inv(w) && IsNext(w, op, w') && sid in w.servers && sid in w'.servers
    ensures w'.servers[sid] == w.servers[sid] || w'.servers[sid].seqno > w.servers[sid].seqno
  {
    hide Inv;
    if op.Check? {
      SweptKeeps(w, Orphans(w.servers, op.now, op.orphMax), w');
    }
  }

  ghost predicate IsRun(ws: seq<World>, ops: seq<Op>) {
    && |ws| == |ops| + 1 && ws[0].accounts == map[] && ws[0].servers == map[]
    && forall i :: 0 <= i < |ops| ==> IsNext(ws[i], ops[i], ws[i + 1])
  }

  lemma {:induction false} RunKeeps(ws: seq<World>, ops: seq<Op>, i: nat)
    requires IsRun(ws, ops) && i < |ws|
    ensures Inv(ws[i])
  {
    hide IsNext;
    if i > 0 {
      RunKeeps(ws, ops, i - 1);
      NextKeeps(ws[i - 1], ops[i - 1], ws[i]);
    }
  }

  lemma {:induction false} RunCountsUp(ws: seq<World>, ops: seq<Op>, i: nat, j: nat, sid: Id)
    requires IsRun(ws, ops) && i <= j < |ws| && forall k :: i <= k <= j ==> sid in ws[k].servers
    ensures ws[j].servers[sid] == ws[i].servers[sid] || ws[j].servers[sid].seqno > ws[i].servers[sid].seqno
    decreases j
  {
    hide IsNext;
    if i < j {
      RunCountsUp(ws, ops, i, j - 1, sid);
      RunKeeps(ws, ops, j - 1);
      NextCountsUp(ws[j - 1], ops[j - 1], ws[j], sid);
    }
  }

  lemma OthersAdd(r: Remote, sid: Id, r': Remote)
    requires r'.Adds() && r'.strack == r.strack - {sid}
    ensures r'.nrclients == Wrap32(Sum(r.ConnsOf() - {sid})) && r'.nrleafs == Wrap32(Sum(r.LeafsOf() - {sid}))
  {
    hide Wrap32, Sum;
    assert r'.ConnsOf() == r.ConnsOf() - {sid};
    assert r'.LeafsOf() == r.LeafsOf() - {sid};
  }

  /** Once a server has shut down nothing of it is left in any account: the totals are what they would be
      had it never reported anything. */
  lemma ShutdownLeavesNothing(w: World, sid: Id, w': World, a: Name)
    requires Inv(w) && IsNext(w, Shutdown(sid), w') && a in w.accounts
    ensures sid !in w'.servers && sid !in w'.accounts[a].strack && Inv(w')
    ensures w'.accounts[a].nrclients == Wrap32(Sum(w.accounts[a].ConnsOf() - {sid}))
    ensures w'.accounts[a].nrleafs == Wrap32(Sum(w.accounts[a].LeafsOf() - {sid}))
  {
    hide Wrap32, Sum, Without, Remote.Adds, Remote.ConnsOf, Remote.LeafsOf;
    if sid in w.servers {
      WithoutKeeps(w, sid);
    } else {
      UnknownIsNowhere(w, sid);
    }
    OthersAdd(w.accounts[a], sid, w'.accounts[a]);
  }

  // ----- which report an account goes by -----

  /** What an account keeps of a server, if anything. */
  predicate Keeps(w: World, name: Name, sid: Id) {
    name in w.accounts && sid in w.accounts[name].strack
  }

  /** The step is a report on the account that is not dropped. */
  predicate Reports(w: World, op: Op, name: Name, sid: Id) {
    op.ConnsUpdate? && op.name == name && op.sid == sid && name in w.accounts && sid != w.id
  }

  function Figures(op: Op): (c: Conns)
    requires op.ConnsUpdate?
  {
    Conns(Wrap32(op.conns), Wrap32(op.leafs))
  }

  /** The step makes the account forget the server. */
  predicate Forgets(w: World, op: Op, name: Name, sid: Id) {
    || op == Unregister(name)
    || (op == Shutdown(sid) && sid in w.servers)
    || (op.Check? && sid in Orphans(w.servers, op.now, op.orphMax))
  }

  lemma KeepsAfter(w: World, op: Op, w': World, name: Name, sid: Id)
    requires Inv(w) && IsNext(w, op, w')
    ensures Keeps(w', name, sid) <==> Reports(w, op, name, sid) || (Keeps(w, name, sid) && !Forgets(w, op, name, sid))
    ensures Keeps(w', name, sid) ==>
              w'.accounts[name].strack[sid] ==
              if Reports(w, op, name, sid) then Figures(op) else w.accounts[name].strack[sid]
  {
    hide Inv, Wrap32;
    match op
    case Shutdown(_) => WithoutKeeps(w, op.sid);
    case Check(now, orphMax) => SweptKeeps(w, Orphans(w.servers, now, orphMax), w');
    case _ =>
  }

  /** A report that the account got before a time and has had no reason to forget since. */
  ghost predicate Counts(ws: seq<World>, ops: seq<Op>, j: nat, name: Name, sid: Id, i: int) {
    && 0 <= i < j < |ws| == |ops| + 1 && Reports(ws[i], ops[i], name, sid)
    && forall k :: i < k < j ==> !Forgets(ws[k], ops[k], name, sid)
  }

  /** The one of them that came last. */
  ghost predicate CameLast(ws: seq<World>, ops: seq<Op>, j: nat, name: Name, sid: Id, i: int) {
    Counts(ws, ops, j, name, sid, i) && forall k :: Counts(ws, ops, j, name, sid, k) ==> k <= i
  }

  /** The one with the highest number; if a number was used twice, the later one. */
  ghost predicate IsNewest(ws: seq<World>, ops: seq<Op>, j: nat, name: Name, sid: Id, i: int) {
    && Counts(ws, ops, j, name, sid, i)
    && forall k :: Counts(ws, ops, j, name, sid, k) ==>
         ops[k].seqno < ops[i].seqno || (ops[k].seqno == ops[i].seqno && k <= i)
  }

  /** Over every run the account keeps something of a server if and only if a report of it counts, and then
      the figures of the one that came last. */
  lemma {:induction false} RunGoesByLast(ws: seq<World>, ops: seq<Op>, j: nat, name: Name, sid: Id) returns (i: int)
    requires IsRun(ws, ops) && j < |ws|
    ensures if Keeps(ws[j], name, sid)
            then CameLast(ws, ops, j, name, sid, i) && ws[j].accounts[name].strack[sid] == Figures(ops[i])
            else forall k :: !Counts(ws, ops, j, name, sid, k)
  {
    i := -1;
    if j > 0 {
      var n := j - 1;
      i := RunGoesByLast(ws, ops, n, name, sid);
      RunKeeps(ws, ops, n);
      assert IsNext(ws[n], ops[n], ws[n + 1]);
      hide IsNext, Inv, IsRun, Figures, Keeps, Reports, Counts, Forgets;
      KeepsAfter(ws[n], ops[n], ws[j], name, sid);
      CountsStep(ws, ops, n, j, name, sid);
      if Reports(ws[n], ops[n], name, sid) {
        i := n;
      }
    }
  }

  lemma CountsStep(ws: seq<World>, ops: seq<Op>, n: nat, j: nat, name: Name, sid: Id)
    requires n + 1 == j < |ws| == |ops| + 1
    ensures forall k :: Counts(ws, ops, j, name, sid, k) <==>
              (k == n && Reports(ws[n], ops[n], name, sid)) || (Counts(ws, ops, n, name, sid, k) && !Forgets(ws[n], ops[n], name, sid))
    ensures forall k :: Counts(ws, ops, j, name, sid, k) ==> 0 <= k < j
  {
    hide Reports, Forgets;
  }

  /** Exactly when: the figures are those of the highest-numbered report if and only if no higher-numbered one
      had come before the one that came last, or it happens to have the same figures. */
  lemma FiguresAreNewest(ws: seq<World>, ops: seq<Op>, j: nat, name: Name, sid: Id, last: int, newest: int)
    requires IsRun(ws, ops) && j < |ws|
    requires CameLast(ws, ops, j, name, sid, last) && IsNewest(ws, ops, j, name, sid, newest)
    ensures Keeps(ws[j], name, sid)
    ensures ws[j].accounts[name].strack[sid] == Figures(ops[newest]) <==>
            || (forall k :: Counts(ws, ops, j, name, sid, k) ==> ops[k].seqno <= ops[last].seqno)
            || Figures(ops[last]) == Figures(ops[newest])
  {
    hide IsRun, Figures;
    var i := RunGoesByLast(ws, ops, j, name, sid);
    assert i == last;
    if forall k :: Counts(ws, ops, j, name, sid, k) ==> ops[k].seqno <= ops[last].seqno {
      assert newest == last;
    }
  }

  /** So a report that comes late, and is not taken for news of its server, still replaces a newer one. */
  lemma LateReportCounts(id: Id, name: Name, sid: Id, now: int) returns (ws: seq<World>, ops: seq<Op>)
    requires sid != id
    ensures IsRun(ws, ops) && |ops| == 3
    ensures IsNewest(ws, ops, 3, name, sid, 1) && CameLast(ws, ops, 3, name, sid, 2)
    ensures ws[3].servers[sid].seqno == 2 && ws[3].accounts[name].strack[sid] == Conns(5, 0) != Figures(ops[1])
  {
    ops := [Register(name), ConnsUpdate(name, sid, 2, 9, 0, now), ConnsUpdate(name, sid, 1, 5, 0, now)];
    var w0 := World(id, map[], map[]);
    var w1 := w0.(accounts := map[name := NONE]);
    var w2 := World(id, map[name := NONE.Updated(sid, 9, 0)], map[sid := Known(2, now)]);
    var w3 := World(id, map[name := w2.accounts[name].Updated(sid, 5, 0)], w2.servers);
    ws := [w0, w1, w2, w3];
    assert IsNext(w0, ops[0], w1) && IsNext(w1, ops[1], w2) && IsNext(w2, ops[2], w3);
    assert Reports(w1, ops[1], name, sid) && Reports(w2, ops[2], name, sid);
    assert Counts(ws, ops, 3, name, sid, 1) && Counts(ws, ops, 3, name, sid, 2);
  }
}
