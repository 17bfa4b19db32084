/** Many clients at once: every critical section of the response bookkeeping is a step of its own, and
    the accounts of a request stay in accord through all interleavings. */
module ResponseRuns {
  import opened ResponseMaps

  type Thread = nat

  /** What a thread has still to do after its first critical section. */
  datatype Task =
    | LinkUp(id: string)                // the reverse entry of a response it has added
    | Unlink(id: string)                // the reverse entry of a response it has removed
    | Sweep(entries: seq<Entry>)        // the responses whose reverse entries it has taken away

  datatype Acct = Acct(responses: Responses, rrMap: ReverseMap)

  /** The parts of a response that never change: who exports it, who asked, and under which reply. */
  datatype Made = Made(exporter: Name, dest: Name, to: string)

  /** The last part is history, which no step looks at: the responses whose reverse entry was looked for
      in vain, because it was not there yet. */
  datatype World = World(accts: map<Name, Acct>, tasks: map<Thread, Task>, made: map<string, Made>, early: set<string>)

  const START := World(map[], map[], map[], {})

  function Of(w: World, a: Name): (acct: Acct) {
    if a in w.accts then w.accts[a] else Acct(map[], map[])
  }

  function SetResponses(w: World, a: Name, responses: Responses): (w': World) {
    w.(accts := w.accts[a := Of(w, a).(responses := responses)])
  }

  function SetReverse(w: World, a: Name, rr: ReverseMap): (w': World) {
    w.(accts := w.accts[a := Of(w, a).(rrMap := rr)])
  }

  function Begin(w: World, t: Thread, task: Task): (w': World) {
    w.(tasks := w.tasks[t := task])
  }

  function Finish(w: World, t: Thread): (w': World) {
    w.(tasks := w.tasks - {t})
  }

  // ----- steps -----

  datatype Op =
    | Add(exporter: Name, id: string, dest: Name, to: string, service: string, now: int)
    | Remove(id: string)                // delivered, undeliverable or expired
    | LoseInterest(dest: Name, to: string)
    | Deliver(id: string)
    | GoOn                              // the thread's next critical section

  /** Reply subjects are fresh, and a thread does one thing after the other. */
  predicate CanStep(w: World, t: Thread, op: Op) {
    match op
    case Add(_, id, _, _, _, _) => t !in w.tasks && id !in w.made
    case Remove(id) => t !in w.tasks && id in w.made
    case LoseInterest(_, _) => t !in w.tasks
    case Deliver(id) => id in w.made
    case GoOn => t in w.tasks && match w.tasks[t] case LinkUp(id) => id in w.made case Unlink(id) => id in w.made case Sweep(_) => true
  }

  predicate IsLinking(w: World, id: string) {
    exists t :: t in w.tasks && w.tasks[t] == LinkUp(id)
  }

  function Next(w: World, t: Thread, op: Op): (w': World)
    requires CanStep(w, t, op)
  {
    match op
    case Add(x, id, dest, to, service, now) =>
      var added := SetResponses(w, x, Of(w, x).responses[id := Pending(dest, to, service, now, false)]);
      Begin(added.(made := w.made[id := Made(x, dest, to)]), t, LinkUp(id))
    case Remove(id) =>
      var x := w.made[id].exporter;
      Begin(SetResponses(w, x, Of(w, x).responses - {id}), t, Unlink(id))
    case LoseInterest(d, to) =>
      Begin(SetReverse(w, d, Of(w, d).rrMap - {to}), t, Sweep(Entries(Of(w, d).rrMap, to)))
    case Deliver(id) =>
      var x := w.made[id].exporter;
      var r := Of(w, x).responses;
      if id in r then SetResponses(w, x, r[id := r[id].(delivered := true)]) else w
    case GoOn =>
      match w.tasks[t]
      case LinkUp(id) =>
        var m := w.made[id];
        Finish(SetReverse(w, m.dest, Linked(Of(w, m.dest).rrMap, m.to, Entry(m.exporter, id))), t)
      case Unlink(id) =>
        var m := w.made[id];
        var early := if IsLinking(w, id) then w.early + {id} else w.early;
        Finish(SetReverse(w, m.dest, Unlinked(Of(w, m.dest).rrMap, m.to, id)), t).(early := early)
      case Sweep(entries) =>
        if entries == [] then Finish(w, t)
        else
          var e := entries[0];
          Begin(SetResponses(w, e.acc, Dropped(Of(w, e.acc).responses, e.msub)), t, Sweep(entries[1..]))
  }

  // ----- the invariant -----

  /** Where a response can be found again from the requester's side. */
  datatype Place = InMap(d: Name, to: string) | InSweep(t: Thread) | InLink(t: Thread)

  predicate At(w: World, id: string, p: Place) {
    match p
    case InMap(d, to) => Has(Entries(Of(w, d).rrMap, to), id)
    case InSweep(t) => t in w.tasks && w.tasks[t].Sweep? && Has(w.tasks[t].entries, id)
    case InLink(t) => t in w.tasks && w.tasks[t] == LinkUp(id)
  }

  predicate IsPending(w: World, id: string) {
    id in w.made && id in Of(w, w.made[id].exporter).responses
  }

  predicate IsUndelivered(w: World, id: string) {
    IsPending(w, id) && !Of(w, w.made[id].exporter).responses[id].delivered
  }

  predicate IsBeingRemoved(w: World, id: string) {
    exists t :: t in w.tasks && w.tasks[t] == Unlink(id)
  }

  /** Lists of entries name each response once, with its exporter. */
  predicate Proper(w: World, entries: seq<Entry>) {
    && Distinct(entries)
    && forall i :: 0 <= i < |entries| ==> entries[i].msub in w.made && entries[i].acc == w.made[entries[i].msub].exporter
  }

  /** Every response that is waited for says what it was made with. */
  ghost predicate Recorded(w: World) {
    forall x, id :: id in Of(w, x).responses ==>
      && id in w.made && w.made[id].exporter == x
      && w.made[id].dest == Of(w, x).responses[id].dest && w.made[id].to == Of(w, x).responses[id].to
  }

  /** No reply is kept without entries. */
  predicate Full(rr: ReverseMap) {
    forall to :: to in rr ==> rr[to] != []
  }

  ghost predicate Listed(w: World) {
    (forall d, to :: Proper(w, Entries(Of(w, d).rrMap, to))) && (forall d :: Full(Of(w, d).rrMap))
  }

  predicate IsGoing(w: World, task: Task) {
    match task
    case LinkUp(id) => id in w.made
    case Unlink(id) => id in w.made && !IsPending(w, id)
    case Sweep(entries) => Proper(w, entries)
  }

  ghost predicate Tasked(w: World) {
    forall t :: t in w.tasks ==> IsGoing(w, w.tasks[t])
  }

  /** No response is in two places. */
  ghost predicate Unique(w: World) {
    forall id, p, q :: At(w, id, p) && At(w, id, q) ==> p == q
  }

  /** Every undelivered response can be found again. */
  ghost predicate Found(w: World) {
    forall id :: IsUndelivered(w, id) ==> exists p :: At(w, id, p)
  }

  /** The response is there, or on its way out, or it was gone before its entry was there. */
  predicate IsAccounted(w: World, id: string) {
    IsPending(w, id) || IsBeingRemoved(w, id) || id in w.early
  }

  /** A reverse entry is where it should be, and it or the thread that will make it is accounted for. */
  ghost predicate Pointing(w: World) {
    && (forall id, d, to :: At(w, id, InMap(d, to)) ==>
          id in w.made && w.made[id].dest == d && w.made[id].to == to)
    && (forall id, p :: At(w, id, p) && !p.InSweep? ==> IsAccounted(w, id))
  }

  ghost predicate Gone(w: World) {
    forall id :: id in w.early ==> id in w.made && !IsPending(w, id)
  }

  ghost predicate Inv(w: World) {
    Recorded(w) && Listed(w) && Tasked(w) && Unique(w) && Found(w) && Pointing(w) && Gone(w)
  }

  // ----- lists and maps of entries -----

  lemma HasOneMore(entries: seq<Entry>, e: Entry, id: string)
    ensures Has(entries + [e], id) <==> Has(entries, id) || e.msub == id
  {
    var more := entries + [e];
    assert more[|entries|] == e;
    assert forall i :: 0 <= i < |entries| ==> more[i] == entries[i];
  }

  lemma HasRest(entries: seq<Entry>, id: string)
    requires entries != [] && Distinct(entries)
    ensures Distinct(entries[1..]) && (Has(entries[1..], id) <==> Has(entries, id) && id != entries[0].msub)
  {
    var rest := entries[1..];
    if Has(entries, id) && id != entries[0].msub {
      var i :| 0 <= i < |entries| && entries[i].msub == id;
      assert rest[i - 1] == entries[i];
    }
  }

  lemma {:induction false} HasWithout(entries: seq<Entry>, out: string, id: string)
    requires Distinct(entries)
    ensures Has(Without(entries, out), id) <==> Has(entries, id) && id != out
    ensures forall e :: e in Without(entries, out) ==> e in entries
    ensures Distinct(Without(entries, out))
  {
    if entries != [] {
      HasRest(entries, id);
      if entries[0].msub != out {
        HasWithout(entries[1..], out, id);
        var rest := Without(entries[1..], out);
        assert Without(entries, out) == [entries[0]] + rest;
        HasFirst(entries[0], rest, id);
        HasFirst(entries[0], entries[1..], id);
        assert entries == [entries[0]] + entries[1..];
        assert Distinct([entries[0]] + rest) by {
          forall j | 0 <= j < |rest|
            ensures rest[j].msub != entries[0].msub
          {
            assert rest[j] in entries[1..];
          }
        }
      }
    }
  }

  lemma HasFirst(e: Entry, rest: seq<Entry>, id: string)
    ensures Has([e] + rest, id) <==> e.msub == id || Has(rest, id)
  {
    var all := [e] + rest;
    assert all[0] == e;
    assert forall i :: 0 <= i < |rest| ==> all[i + 1] == rest[i];
    if Has(all, id) && e.msub != id {
      var i :| 0 <= i < |all| && all[i].msub == id;
      assert rest[i - 1] == all[i];
    }
  }

  lemma LinkedEntries(rr: ReverseMap, to: string, e: Entry, other: string)
    ensures Entries(Linked(rr, to, e), other) == Entries(rr, other) + if other == to then [e] else []
  {
  }

  lemma UnlinkedEntries(rr: ReverseMap, to: string, id: string, other: string)
    ensures Entries(Unlinked(rr, to, id), other) == if other == to then Without(Entries(rr, to), id) else Entries(rr, other)
  {
  }

  /** A list of entries stays proper as responses are added. */
  lemma ProperStays(w: World, w': World, entries: seq<Entry>)
    requires Proper(w, entries) && forall id :: id in w.made ==> id in w'.made && w'.made[id] == w.made[id]
    ensures Proper(w', entries)
  {
  }

  lemma PlacesAreMade(w: World, id: string, p: Place)
    requires Listed(w) && Tasked(w) && At(w, id, p)
    ensures id in w.made
  {
    match p
    case InMap(d, to) => assert Proper(w, Entries(Of(w, d).rrMap, to));
    case InSweep(t) => assert IsGoing(w, w.tasks[t]);
    case InLink(t) => assert IsGoing(w, w.tasks[t]);
  }

  /** What was made stays as it was made. */
  predicate Grows(w: World, w': World) {
    forall id :: id in w.made ==> id in w'.made && w'.made[id] == w.made[id]
  }

  /** A step that leaves the reverse maps alone. */
  lemma ListedStays(w: World, w': World)
    requires Listed(w) && Grows(w, w') && forall d :: Of(w', d).rrMap == Of(w, d).rrMap
    ensures Listed(w')
  {
    forall d, to
      ensures Proper(w', Entries(Of(w', d).rrMap, to))
    {
      ProperStays(w, w', Entries(Of(w, d).rrMap, to));
    }
  }

  /** The tasks of other threads are not disturbed by a step that brings no response back that is being
      removed. */
  lemma TaskedStays(w: World, w': World, t: Thread)
    requires Tasked(w) && Grows(w, w')
    requires forall t' :: t' in w'.tasks && t' != t ==> t' in w.tasks && w'.tasks[t'] == w.tasks[t']
    requires t in w'.tasks ==> IsGoing(w', w'.tasks[t])
    requires forall id :: id in w.made && IsPending(w', id) ==> IsPending(w, id)
    ensures Tasked(w')
  {
    forall t' | t' in w'.tasks && t' != t
      ensures IsGoing(w', w'.tasks[t'])
    {
      assert IsGoing(w, w.tasks[t']);
      if w.tasks[t'].Sweep? {
        ProperStays(w, w', w.tasks[t'].entries);
      }
    }
  }

  lemma TaskGoes(w: World, t: Thread)
    requires Tasked(w) && t in w.tasks
    ensures IsGoing(w, w.tasks[t])
    ensures w.tasks[t].LinkUp? ==> At(w, w.tasks[t].id, InLink(t))
    ensures w.tasks[t].Sweep? && w.tasks[t].entries != [] ==> At(w, w.tasks[t].entries[0].msub, InSweep(t))
  {
  }

  /** A step that makes no entry, and accounts for what was accounted for. */
  lemma PointingStays(w: World, w': World)
    requires Pointing(w) && Grows(w, w')
    requires forall i, p :: At(w', i, p) && !p.InSweep? ==> At(w, i, p)
    requires forall i :: IsAccounted(w, i) ==> IsAccounted(w', i)
    ensures Pointing(w')
  {
    hide At, IsAccounted;
  }

  // ----- adding a response -----

  lemma AddRecords(w: World, t: Thread, op: Op)
    requires Recorded(w) && op.Add? && CanStep(w, t, op)
    ensures var w' := Next(w, t, op);
            && Recorded(w') && Grows(w, w')
            && (forall id :: IsPending(w', id) <==> IsPending(w, id) || id == op.id)
            && (forall id :: IsUndelivered(w', id) ==> IsUndelivered(w, id) || id == op.id)
            && (forall d :: Of(w', d).rrMap == Of(w, d).rrMap)
  {
    var w' := Next(w, t, op);
    assert Recorded(w') by {
      forall x, id | id in Of(w', x).responses
        ensures && id in w'.made && w'.made[id].exporter == x
                && w'.made[id].dest == Of(w', x).responses[id].dest && w'.made[id].to == Of(w', x).responses[id].to
      {
        assert id in Of(w, x).responses || (x == op.exporter && id == op.id);
      }
    }
  }

  lemma AddAt(w: World, t: Thread, op: Op, id: string, p: Place)
    requires Listed(w) && Tasked(w) && op.Add? && CanStep(w, t, op)
    ensures At(Next(w, t, op), id, p) <==> At(w, id, p) || (id == op.id && p == InLink(t))
    ensures At(w, id, p) ==> id != op.id
  {
    if At(w, id, p) {
      PlacesAreMade(w, id, p);
    }
  }

  lemma AddKeeps(w: World, t: Thread, op: Op)
    requires Inv(w) && op.Add? && CanStep(w, t, op)
    ensures Inv(Next(w, t, op))
  {
    hide At, IsPending, IsUndelivered, Recorded, Listed, Tasked, Grows;
    var w' := Next(w, t, op);
    AddRecords(w, t, op);
    ListedStays(w, w');
    TaskedStays(w, w', t);
    forall id, p
      ensures At(w', id, p) <==> At(w, id, p) || (id == op.id && p == InLink(t))
      ensures At(w, id, p) ==> id != op.id
    {
      AddAt(w, t, op, id, p);
    }
    assert At(w', op.id, InLink(t));
    RemovalsStay(w, w', t);
  }

  /** Threads that are removing go on doing so. */
  lemma RemovalsStay(w: World, w': World, t: Thread)
    requires t !in w.tasks && forall t' :: t' in w.tasks ==> t' in w'.tasks && w'.tasks[t'] == w.tasks[t']
    ensures forall id :: IsBeingRemoved(w, id) ==> IsBeingRemoved(w', id)
  {
  }

  // ----- the reverse entry of a new response -----

  /** A step that leaves the responses alone. */
  lemma RecordedStays(w: World, w': World)
    requires Recorded(w) && w'.made == w.made && forall x :: Of(w', x).responses == Of(w, x).responses
    ensures Recorded(w') && Grows(w, w')
    ensures forall id :: IsPending(w', id) <==> IsPending(w, id)
    ensures forall id :: IsUndelivered(w', id) <==> IsUndelivered(w, id)
  {
  }

  lemma LinkLists(w: World, t: Thread)
    requires Inv(w) && CanStep(w, t, GoOn) && w.tasks[t].LinkUp?
    ensures Listed(Next(w, t, GoOn))
  {
    hide Recorded, Found, Pointing, Linked;
    var w', id := Next(w, t, GoOn), w.tasks[t].id;
    var m := w.made[id];
    assert At(w, id, InLink(t));
    assert !At(w, id, InMap(m.dest, m.to));
    forall d, to
      ensures Proper(w', Entries(Of(w', d).rrMap, to))
    {
      LinkedEntries(Of(w, m.dest).rrMap, m.to, Entry(m.exporter, id), to);
      assert Proper(w, Entries(Of(w, d).rrMap, to));
    }
    forall d
      ensures Full(Of(w', d).rrMap)
    {
      LinkedIsFull(Of(w, d).rrMap, m.to, Entry(m.exporter, id));
    }
  }

  lemma LinkedIsFull(rr: ReverseMap, to: string, e: Entry)
    requires Full(rr)
    ensures Full(Linked(rr, to, e))
  {
  }

  lemma LinkAt(w: World, t: Thread, i: string, p: Place)
    requires CanStep(w, t, GoOn) && w.tasks[t].LinkUp?
    ensures var id := w.tasks[t].id;
            var m := w.made[id];
            && (At(Next(w, t, GoOn), i, p) <==> (At(w, i, p) && p != InLink(t)) || (i == id && p == InMap(m.dest, m.to)))
            && (At(w, i, InLink(t)) <==> i == id)
  {
    hide Linked;
    var id := w.tasks[t].id;
    var m := w.made[id];
    if p.InMap? && p.d == m.dest {
      var e, rr := Entry(m.exporter, id), Of(w, m.dest).rrMap;
      LinkedEntries(rr, m.to, e, p.to);
      HasOneMore(Entries(rr, p.to), e, i);
      assert Entries(rr, p.to) + [] == Entries(rr, p.to);
    }
  }

  lemma LinkKeeps(w: World, t: Thread)
    requires Inv(w) && CanStep(w, t, GoOn) && w.tasks[t].LinkUp?
    ensures Inv(Next(w, t, GoOn))
  {
    hide At, IsPending, IsUndelivered, Recorded, Listed, Tasked, Grows, Linked;
    var w' := Next(w, t, GoOn);
    var id := w.tasks[t].id;
    var m := w.made[id];
    RecordedStays(w, w');
    TaskedStays(w, w', t);
    LinkLists(w, t);
    forall i, p
      ensures At(w', i, p) <==> (At(w, i, p) && p != InLink(t)) || (i == id && p == InMap(m.dest, m.to))
      ensures At(w, i, InLink(t)) <==> i == id
    {
      LinkAt(w, t, i, p);
    }
    TaskGoes(w, t);
    assert forall i :: IsBeingRemoved(w, i) ==> IsBeingRemoved(w', i);
    hide IsBeingRemoved;
    assert At(w', id, InMap(m.dest, m.to));
    forall i | IsUndelivered(w', i) && i != id
      ensures exists p :: At(w', i, p)
    {
      var p :| At(w, i, p);
      assert At(w', i, p);
    }
  }

  // ----- removing a response -----

  /** A response is taken away, if it is there. */
  lemma LessIsRecorded(w: World, w': World, x: Name, id: string)
    requires Recorded(w) && w'.made == w.made && id in w.made && w.made[id].exporter == x
    requires Of(w', x).responses == Of(w, x).responses - {id}
    requires forall y :: y != x ==> Of(w', y).responses == Of(w, y).responses
    ensures Recorded(w') && Grows(w, w')
    ensures forall i :: IsPending(w', i) <==> IsPending(w, i) && i != id
    ensures forall i :: IsUndelivered(w', i) <==> IsUndelivered(w, i) && i != id
  {
  }

  lemma RemoveKeeps(w: World, t: Thread, op: Op)
    requires Inv(w) && op.Remove? && CanStep(w, t, op)
    ensures Inv(Next(w, t, op))
  {
    hide IsPending, IsUndelivered, Recorded, Listed, Tasked, Grows, Pointing;
    var w' := Next(w, t, op);
    LessIsRecorded(w, w', w.made[op.id].exporter, op.id);
    ListedStays(w, w');
    TaskedStays(w, w', t);
    assert forall i, p :: At(w', i, p) <==> At(w, i, p);
    hide At;
    RemovalsStay(w, w', t);
    assert IsBeingRemoved(w', op.id);
    hide IsBeingRemoved;
    PointingStays(w, w');
  }

  lemma UnlinkLists(w: World, t: Thread)
    requires Listed(w) && CanStep(w, t, GoOn) && w.tasks[t].Unlink?
    ensures Listed(Next(w, t, GoOn))
  {
    hide Unlinked;
    var w', id := Next(w, t, GoOn), w.tasks[t].id;
    var m := w.made[id];
    forall d, to
      ensures Proper(w', Entries(Of(w', d).rrMap, to))
    {
      var rr := Of(w, d).rrMap;
      assert Proper(w, Entries(rr, to));
      UnlinkedEntries(rr, m.to, id, to);
      HasWithout(Entries(rr, to), id, id);
      ProperLess(w, Entries(rr, to), Without(Entries(rr, to), id));
    }
    forall d
      ensures Full(Of(w', d).rrMap)
    {
      UnlinkedIsFull(Of(w, d).rrMap, m.to, id);
    }
  }

  lemma ProperLess(w: World, entries: seq<Entry>, fewer: seq<Entry>)
    requires Proper(w, entries) && Distinct(fewer) && forall e :: e in fewer ==> e in entries
    ensures Proper(w, fewer)
  {
    forall i | 0 <= i < |fewer|
      ensures fewer[i].msub in w.made && fewer[i].acc == w.made[fewer[i].msub].exporter
    {
      assert fewer[i] in entries;
    }
  }

  lemma UnlinkedIsFull(rr: ReverseMap, to: string, id: string)
    requires Full(rr)
    ensures Full(Unlinked(rr, to, id))
  {
  }

  lemma UnlinkAt(w: World, t: Thread, i: string, p: Place)
    requires Listed(w) && CanStep(w, t, GoOn) && w.tasks[t].Unlink?
    ensures var id := w.tasks[t].id;
            var m := w.made[id];
            At(Next(w, t, GoOn), i, p) <==> At(w, i, p) && !(i == id && p == InMap(m.dest, m.to))
  {
    hide Unlinked;
    var id := w.tasks[t].id;
    var m := w.made[id];
    if p.InMap? && p.d == m.dest {
      var rr := Of(w, m.dest).rrMap;
      UnlinkedEntries(rr, m.to, id, p.to);
      assert Proper(w, Entries(rr, p.to));
      HasWithout(Entries(rr, p.to), id, i);
    }
  }

  lemma UnlinkKeeps(w: World, t: Thread)
    requires Inv(w) && CanStep(w, t, GoOn) && w.tasks[t].Unlink?
    ensures Inv(Next(w, t, GoOn))
  {
    hide At, IsPending, IsUndelivered, Recorded, Listed, Grows, Unlinked;
    var w' := Next(w, t, GoOn);
    var id := w.tasks[t].id;
    RecordedStays(w, w');
    TaskedStays(w, w', t);
    UnlinkLists(w, t);
    forall i, p
      ensures At(w', i, p) <==> At(w, i, p) && !(i == id && p == InMap(w.made[id].dest, w.made[id].to))
    {
      UnlinkAt(w, t, i, p);
    }
    TaskGoes(w, t);
    NotPending(w, id);
    assert forall i :: IsBeingRemoved(w, i) && i != id ==> IsBeingRemoved(w', i);
    forall p | At(w, id, p) && p.InLink?
      ensures id in w'.early
    {
      LinkIsLinking(w, id, p);
    }
    hide Tasked, IsBeingRemoved, Next;
  }

  lemma LinkIsLinking(w: World, id: string, p: Place)
    requires p.InLink? && At(w, id, p)
    ensures IsLinking(w, id)
  {
  }

  lemma NotPending(w: World, id: string)
    requires !IsPending(w, id)
    ensures !IsUndelivered(w, id)
  {
  }

  // ----- losing interest -----

  lemma LoseKeeps(w: World, t: Thread, op: Op)
    requires Inv(w) && op.LoseInterest? && CanStep(w, t, op)
    ensures Inv(Next(w, t, op))
  {
    hide At, IsPending, IsUndelivered, Recorded, Tasked, Grows;
    var w' := Next(w, t, op);
    RecordedStays(w, w');
    var lost := Entries(Of(w, op.dest).rrMap, op.to);
    assert Proper(w, lost);
    ProperStays(w, w', lost);
    TaskedStays(w, w', t);
    LoseLists(w, t, op);
    hide Listed;
    forall i, p
      ensures At(w', i, p) <==> (At(w, i, p) && p != InMap(op.dest, op.to)) || (p == InSweep(t) && At(w, i, InMap(op.dest, op.to)))
    {
      LoseAt(w, t, op, i, p);
    }
    RemovalsStay(w, w', t);
    LoseFinds(w, w', t, op);
  }

  lemma LoseFinds(w: World, w': World, t: Thread, op: Op)
    requires Found(w) && op.LoseInterest?
    requires forall i, p :: At(w', i, p) <==> (At(w, i, p) && p != InMap(op.dest, op.to)) || (p == InSweep(t) && At(w, i, InMap(op.dest, op.to)))
    requires forall i :: IsUndelivered(w', i) <==> IsUndelivered(w, i)
    ensures Found(w')
  {
    hide At, IsUndelivered;
    forall i | IsUndelivered(w', i)
      ensures exists p :: At(w', i, p)
    {
      var p :| At(w, i, p);
      if p == InMap(op.dest, op.to) {
        assert At(w', i, InSweep(t));
      } else {
        assert At(w', i, p);
      }
    }
  }

  lemma LoseLists(w: World, t: Thread, op: Op)
    requires Listed(w) && op.LoseInterest? && CanStep(w, t, op)
    ensures Listed(Next(w, t, op))
  {
    var w' := Next(w, t, op);
    forall d, to
      ensures Proper(w', Entries(Of(w', d).rrMap, to))
    {
      ProperStays(w, w', Entries(Of(w, d).rrMap, to));
    }
    forall d
      ensures Full(Of(w', d).rrMap)
    {
      assert Full(Of(w, d).rrMap);
    }
  }

  lemma LoseAt(w: World, t: Thread, op: Op, i: string, p: Place)
    requires op.LoseInterest? && CanStep(w, t, op)
    ensures At(Next(w, t, op), i, p) <==>
            (At(w, i, p) && p != InMap(op.dest, op.to)) || (p == InSweep(t) && At(w, i, InMap(op.dest, op.to)))
  {
  }

  lemma SweepAt(w: World, t: Thread, i: string, p: Place)
    requires Tasked(w) && CanStep(w, t, GoOn) && w.tasks[t].Sweep?
    ensures var entries := w.tasks[t].entries;
            At(Next(w, t, GoOn), i, p) <==> At(w, i, p) && !(p == InSweep(t) && entries != [] && i == entries[0].msub)
  {
    var entries := w.tasks[t].entries;
    assert IsGoing(w, w.tasks[t]);
    if p == InSweep(t) && entries != [] {
      HasRest(entries, i);
    }
  }

  lemma SweepKeeps(w: World, t: Thread)
    requires Inv(w) && CanStep(w, t, GoOn) && w.tasks[t].Sweep? && w.tasks[t].entries != []
    ensures Inv(Next(w, t, GoOn))
  {
    hide At, IsPending, IsUndelivered, Recorded, Listed, Tasked, Grows;
    var w', entries := Next(w, t, GoOn), w.tasks[t].entries;
    var e := entries[0];
    TaskGoes(w, t);
    SweepDrops(w, t);
    ListedStays(w, w');
    HasRest(entries, e.msub);
    ProperLess(w, entries, entries[1..]);
    ProperStays(w, w', entries[1..]);
    SweepSpares(w, t);
    TaskedStays(w, w', t);
    forall i, p
      ensures At(w', i, p) <==> At(w, i, p) && !(p == InSweep(t) && i == e.msub)
    {
      SweepAt(w, t, i, p);
    }
    assert forall i :: IsBeingRemoved(w, i) ==> IsBeingRemoved(w', i);
    hide IsBeingRemoved, Proper;
  }

  /** The response of the first entry is given up if it has not been delivered. */
  lemma SweepDrops(w: World, t: Thread)
    requires Recorded(w) && CanStep(w, t, GoOn) && w.tasks[t].Sweep? && w.tasks[t].entries != []
    requires Proper(w, w.tasks[t].entries)
    ensures var w', id := Next(w, t, GoOn), w.tasks[t].entries[0].msub;
            && Recorded(w') && Grows(w, w')
            && (forall i :: IsPending(w', i) <==> IsPending(w, i) && !(i == id && IsUndelivered(w, id)))
            && (forall i :: IsUndelivered(w', i) <==> IsUndelivered(w, i) && i != id)
            && (forall d :: Of(w', d).rrMap == Of(w, d).rrMap)
  {
    var w', e := Next(w, t, GoOn), w.tasks[t].entries[0];
    assert w.made[e.msub].exporter == e.acc;
    if IsUndelivered(w, e.msub) {
      LessIsRecorded(w, w', e.acc, e.msub);
    } else {
      assert forall x :: Of(w', x).responses == Of(w, x).responses;
      RecordedStays(w, w');
    }
  }

  /** A response that is swept is nowhere else. */
  lemma SweepSpares(w: World, t: Thread)
    requires Unique(w) && t in w.tasks && w.tasks[t].Sweep? && w.tasks[t].entries != []
    requires At(w, w.tasks[t].entries[0].msub, InSweep(t))
    ensures forall p :: At(w, w.tasks[t].entries[0].msub, p) ==> p == InSweep(t)
  {
  }

  lemma IdleKeeps(w: World, t: Thread)
    requires Inv(w) && CanStep(w, t, GoOn) && w.tasks[t] == Sweep([])
    ensures Inv(Next(w, t, GoOn))
  {
    hide IsPending, IsUndelivered, Recorded, Listed, Tasked, Grows;
    var w' := Next(w, t, GoOn);
    RecordedStays(w, w');
    ListedStays(w, w');
    TaskedStays(w, w', t);
    forall i, p
      ensures At(w', i, p) <==> At(w, i, p)
    {
    }
    hide At;
    assert forall i :: IsBeingRemoved(w, i) ==> IsBeingRemoved(w', i);
  }

  // ----- delivery -----

  lemma DeliverKeeps(w: World, t: Thread, op: Op)
    requires Inv(w) && op.Deliver? && CanStep(w, t, op)
    ensures Inv(Next(w, t, op))
  {
    hide Listed, Tasked, Grows, Pointing;
    var w' := Next(w, t, op);
    DeliverRecords(w, t, op);
    hide Recorded, IsPending, IsUndelivered;
    ListedStays(w, w');
    TaskedStays(w, w', t);
    assert forall i, p :: At(w', i, p) <==> At(w, i, p);
    hide At;
    assert forall i :: IsBeingRemoved(w, i) <==> IsBeingRemoved(w', i);
    hide IsBeingRemoved;
    PointingStays(w, w');
  }

  lemma DeliverRecords(w: World, t: Thread, op: Op)
    requires Recorded(w) && Tasked(w) && op.Deliver? && CanStep(w, t, op)
    ensures var w' := Next(w, t, op);
            && Recorded(w') && Grows(w, w') && (t in w'.tasks ==> IsGoing(w', w'.tasks[t]))
            && (forall i :: IsPending(w', i) <==> IsPending(w, i))
            && (forall i :: IsUndelivered(w', i) ==> IsUndelivered(w, i))
            && (forall d :: Of(w', d).rrMap == Of(w, d).rrMap)
  {
    var w' := Next(w, t, op);
    assert forall x :: x != w.made[op.id].exporter ==> Of(w', x) == Of(w, x);
    assert forall i :: i in Of(w', w.made[op.id].exporter).responses <==> i in Of(w, w.made[op.id].exporter).responses;
    assert Recorded(w');
    assert t in w.tasks ==> IsGoing(w, w.tasks[t]);
  }

  // ----- runs -----

  /** Whatever the next step is, of whichever thread. */
  lemma NextKeeps(w: World, t: Thread, op: Op)
    requires Inv(w) && CanStep(w, t, op)
    ensures Inv(Next(w, t, op))
  {
    hide Inv, Next;
    match op
    case Add(_, _, _, _, _, _) => AddKeeps(w, t, op);
    case Remove(_) => RemoveKeeps(w, t, op);
    case LoseInterest(_, _) => LoseKeeps(w, t, op);
    case Deliver(_) => DeliverKeeps(w, t, op);
    case GoOn =>
      match w.tasks[t]
      case LinkUp(_) => LinkKeeps(w, t);
      case Unlink(_) => UnlinkKeeps(w, t);
      case Sweep(entries) =>
        if entries == [] {
          IdleKeeps(w, t);
        } else {
          SweepKeeps(w, t);
        }
  }

  ghost predicate IsRun(ws: seq<World>, ts: seq<Thread>, ops: seq<Op>) {
    && |ws| == |ops| + 1 == |ts| + 1 && ws[0] == START
    && forall k :: 0 <= k < |ops| ==> CanStep(ws[k], ts[k], ops[k]) && ws[k + 1] == Next(ws[k], ts[k], ops[k])
  }

  lemma {:induction false} RunKeeps(ws: seq<World>, ts: seq<Thread>, ops: seq<Op>, k: nat)
    requires IsRun(ws, ts, ops) && k < |ws|
    ensures Inv(ws[k])
  {
    hide CanStep, Next;
    if k > 0 {
      RunKeeps(ws, ts, ops, k - 1);
      hide Inv;
      NextKeeps(ws[k - 1], ts[k - 1], ops[k - 1]);
    }
  }

  /** Whenever no thread is in the middle of something: the responses that are waited for and not yet
      delivered, and the reverse entries, are in accord. Each such response has its one reverse entry,
      with the account that asked and under the reply it asked for, and each reverse entry leads to a
      response that was made for that account and that reply, and is waited for unless it was gone before
      its entry was there. */
  lemma AtRest(ws: seq<World>, ts: seq<Thread>, ops: seq<Op>, k: nat)
    requires IsRun(ws, ts, ops) && k < |ws| && ws[k].tasks == map[]
    ensures forall x, id :: id in Of(ws[k], x).responses && !Of(ws[k], x).responses[id].delivered ==>
              var p := Of(ws[k], x).responses[id];
              && Entry(x, id) in Entries(Of(ws[k], p.dest).rrMap, p.to)
              && forall d, to :: Has(Entries(Of(ws[k], d).rrMap, to), id) ==> d == p.dest && to == p.to
    ensures forall d, to :: Distinct(Entries(Of(ws[k], d).rrMap, to))
    ensures forall d, to, e :: e in Entries(Of(ws[k], d).rrMap, to) ==>
              && e.msub in ws[k].made && ws[k].made[e.msub] == Made(e.acc, d, to)
              && (e.msub in Of(ws[k], e.acc).responses <==> e.msub !in ws[k].early)
  {
    hide IsRun;
    var w := ws[k];
    RunKeeps(ws, ts, ops, k);
    forall x, id | id in Of(w, x).responses && !Of(w, x).responses[id].delivered
      ensures var p := Of(w, x).responses[id];
              && Entry(x, id) in Entries(Of(w, p.dest).rrMap, p.to)
              && forall d, to :: Has(Entries(Of(w, d).rrMap, to), id) ==> d == p.dest && to == p.to
    {
      WaitedFor(w, x, id);
    }
    forall d, to, e | e in Entries(Of(w, d).rrMap, to)
      ensures && e.msub in w.made && w.made[e.msub] == Made(e.acc, d, to)
              && (e.msub in Of(w, e.acc).responses <==> e.msub !in w.early)
    {
      LeadsBack(w, d, to, e);
    }
    forall d, to
      ensures Distinct(Entries(Of(w, d).rrMap, to))
    {
      assert Proper(w, Entries(Of(w, d).rrMap, to));
    }
  }

  lemma WaitedFor(w: World, x: Name, id: string)
    requires Inv(w) && w.tasks == map[] && id in Of(w, x).responses && !Of(w, x).responses[id].delivered
    ensures var p := Of(w, x).responses[id];
            && Entry(x, id) in Entries(Of(w, p.dest).rrMap, p.to)
            && forall d, to :: Has(Entries(Of(w, d).rrMap, to), id) ==> d == p.dest && to == p.to
  {
    assert IsUndelivered(w, id);
    var p :| At(w, id, p);
    var entries := Entries(Of(w, p.d).rrMap, p.to);
    assert Proper(w, entries);
    var i :| 0 <= i < |entries| && entries[i].msub == id;
    assert entries[i] == Entry(x, id);
    forall d, to | Has(Entries(Of(w, d).rrMap, to), id)
      ensures InMap(d, to) == p
    {
      assert At(w, id, InMap(d, to));
    }
  }

  lemma LeadsBack(w: World, d: Name, to: string, e: Entry)
    requires Inv(w) && w.tasks == map[] && e in Entries(Of(w, d).rrMap, to)
    ensures && e.msub in w.made && w.made[e.msub] == Made(e.acc, d, to)
            && (e.msub in Of(w, e.acc).responses <==> e.msub !in w.early)
  {
    var entries := Entries(Of(w, d).rrMap, to);
    assert Proper(w, entries);
    var i :| 0 <= i < |entries| && entries[i] == e;
    assert At(w, e.msub, InMap(d, to));
    assert !IsBeingRemoved(w, e.msub);
  }

  // ----- when a reverse entry leads nowhere -----

  /** The step is the second critical section of a thread that has the task. */
  predicate Does(w: World, t: Thread, op: Op, task: Task) {
    op == GoOn && t in w.tasks && w.tasks[t] == task
  }

  predicate Links(ws: seq<World>, ts: seq<Thread>, ops: seq<Op>, k: int, id: string) {
    0 <= k < |ops| && k < |ws| && k < |ts| && Does(ws[k], ts[k], ops[k], LinkUp(id))
  }

  predicate Unlinks(ws: seq<World>, ts: seq<Thread>, ops: seq<Op>, k: int, id: string) {
    0 <= k < |ops| && k < |ws| && k < |ts| && Does(ws[k], ts[k], ops[k], Unlink(id))
  }

  predicate Loses(ops: seq<Op>, k: int, d: Name, to: string) {
    0 <= k < |ops| && ops[k] == LoseInterest(d, to)
  }

  lemma LinkingAfter(w: World, t: Thread, op: Op, id: string)
    requires Inv(w) && CanStep(w, t, op)
    ensures IsLinking(Next(w, t, op), id) <==>
            (IsLinking(w, id) && !Does(w, t, op, LinkUp(id))) || (op.Add? && op.id == id)
  {
    hide Recorded, Listed, Found, Pointing, Gone, Linked, Unlinked;
    var w' := Next(w, t, op);
    if IsLinking(w, id) {
      var t' :| t' in w.tasks && w.tasks[t'] == LinkUp(id);
      assert At(w, id, InLink(t'));
      if Does(w, t, op, LinkUp(id)) {
        assert At(w, id, InLink(t));
        forall u | u in w'.tasks
          ensures w'.tasks[u] != LinkUp(id)
        {
          assert !At(w, id, InLink(u));
        }
      } else {
        assert t' in w'.tasks && w'.tasks[t'] == LinkUp(id);
      }
    } else if op.Add? && op.id == id {
      assert t in w'.tasks && w'.tasks[t] == LinkUp(id);
    }
  }

  lemma EntryAfter(w: World, t: Thread, op: Op, id: string, d: Name, to: string)
    requires Inv(w) && CanStep(w, t, op)
    ensures At(Next(w, t, op), id, InMap(d, to)) <==>
            || (Does(w, t, op, LinkUp(id)) && w.made[id].dest == d && w.made[id].to == to)
            || (At(w, id, InMap(d, to)) && !Does(w, t, op, Unlink(id)) && op != LoseInterest(d, to))
  {
    hide Recorded, Unique, Found, Gone, Linked, Unlinked;
    var p := InMap(d, to);
    match op
    case Add(_, _, _, _, _, _) => AddAt(w, t, op, id, p);
    case Remove(_) =>
    case LoseInterest(_, _) => LoseAt(w, t, op, id, p);
    case Deliver(_) =>
    case GoOn =>
      match w.tasks[t]
      case LinkUp(_) => LinkAt(w, t, id, p);
      case Unlink(_) => UnlinkAt(w, t, id, p);
      case Sweep(_) => SweepAt(w, t, id, p);
  }

  lemma EarlyAfter(w: World, t: Thread, op: Op, id: string)
    requires CanStep(w, t, op)
    ensures id in Next(w, t, op).early <==> id in w.early || (Does(w, t, op, Unlink(id)) && IsLinking(w, id))
    ensures id in Next(w, t, op).made <==> id in w.made || (op.Add? && op.id == id)
    ensures Grows(w, Next(w, t, op))
  {
    hide IsLinking, Linked, Unlinked;
  }

  /** A response that was made is being linked up until that has been done, once. */
  lemma {:induction false} LinkHistory(ws: seq<World>, ts: seq<Thread>, ops: seq<Op>, k: nat, id: string)
    requires IsRun(ws, ts, ops) && k < |ws|
    ensures IsLinking(ws[k], id) <==> id in ws[k].made && forall j :: 0 <= j < k ==> !Links(ws, ts, ops, j, id)
    ensures id !in ws[k].made ==> forall j :: 0 <= j < k ==> !Links(ws, ts, ops, j, id)
  {
    if k > 0 {
      LinkHistory(ws, ts, ops, k - 1, id);
      RunKeeps(ws, ts, ops, k - 1);
      LinkingAfter(ws[k - 1], ts[k - 1], ops[k - 1], id);
      EarlyAfter(ws[k - 1], ts[k - 1], ops[k - 1], id);
      hide Next, Inv, IsLinking, Grows;
      assert Links(ws, ts, ops, k - 1, id) <==> Does(ws[k - 1], ts[k - 1], ops[k - 1], LinkUp(id));
      assert Does(ws[k - 1], ts[k - 1], ops[k - 1], LinkUp(id)) ==> id in ws[k - 1].made;
    }
  }

  lemma {:induction false} EarlyHistory(ws: seq<World>, ts: seq<Thread>, ops: seq<Op>, k: nat, id: string)
    requires IsRun(ws, ts, ops) && k < |ws|
    ensures id in ws[k].early <==> exists u :: 0 <= u < k && Unlinks(ws, ts, ops, u, id) && IsLinking(ws[u], id)
  {
    if k > 0 {
      EarlyHistory(ws, ts, ops, k - 1, id);
      EarlyAfter(ws[k - 1], ts[k - 1], ops[k - 1], id);
      hide Next, IsLinking, Grows;
      assert Unlinks(ws, ts, ops, k - 1, id) <==> Does(ws[k - 1], ts[k - 1], ops[k - 1], Unlink(id));
    }
  }

  /** The entry was made by a step, and no step since has taken it away. */
  ghost predicate IsLinkedSince(ws: seq<World>, ts: seq<Thread>, ops: seq<Op>, k: nat, id: string, d: Name, to: string, j: int) {
    && 0 <= j < k < |ws| && Links(ws, ts, ops, j, id)
    && id in ws[j].made && ws[j].made[id].dest == d && ws[j].made[id].to == to
    && forall i :: j < i < k ==> !Unlinks(ws, ts, ops, i, id) && !Loses(ops, i, d, to)
  }

  lemma {:induction false} EntryHistory(ws: seq<World>, ts: seq<Thread>, ops: seq<Op>, k: nat, id: string, d: Name, to: string)
    requires IsRun(ws, ts, ops) && k < |ws|
    ensures At(ws[k], id, InMap(d, to)) <==> exists j :: IsLinkedSince(ws, ts, ops, k, id, d, to, j)
  {
    if k > 0 {
      var w, t, op := ws[k - 1], ts[k - 1], ops[k - 1];
      EntryHistory(ws, ts, ops, k - 1, id, d, to);
      RunKeeps(ws, ts, ops, k - 1);
      EntryAfter(w, t, op, id, d, to);
      hide Next, Inv, At;
      SinceStep(ws, ts, ops, k - 1, k, id, d, to);
    }
  }

  lemma SinceStep(ws: seq<World>, ts: seq<Thread>, ops: seq<Op>, n: nat, k: nat, id: string, d: Name, to: string)
    requires n + 1 == k < |ws| == |ops| + 1 == |ts| + 1 && CanStep(ws[n], ts[n], ops[n])
    ensures (exists j :: IsLinkedSince(ws, ts, ops, k, id, d, to, j)) <==>
            || (Does(ws[n], ts[n], ops[n], LinkUp(id)) && ws[n].made[id].dest == d && ws[n].made[id].to == to)
            || ((exists j :: IsLinkedSince(ws, ts, ops, n, id, d, to, j)) && !Does(ws[n], ts[n], ops[n], Unlink(id)) && ops[n] != LoseInterest(d, to))
  {
    assert Links(ws, ts, ops, n, id) <==> Does(ws[n], ts[n], ops[n], LinkUp(id));
    assert Unlinks(ws, ts, ops, n, id) <==> Does(ws[n], ts[n], ops[n], Unlink(id));
    assert Loses(ops, n, d, to) <==> ops[n] == LoseInterest(d, to);
    if j :| IsLinkedSince(ws, ts, ops, k, id, d, to, j) {
      assert j < n ==> IsLinkedSince(ws, ts, ops, n, id, d, to, j);
    }
    if Does(ws[n], ts[n], ops[n], LinkUp(id)) && ws[n].made[id].dest == d && ws[n].made[id].to == to {
      assert IsLinkedSince(ws, ts, ops, k, id, d, to, n);
    }
    if !Does(ws[n], ts[n], ops[n], Unlink(id)) && ops[n] != LoseInterest(d, to) {
      if j :| IsLinkedSince(ws, ts, ops, n, id, d, to, j) {
        assert IsLinkedSince(ws, ts, ops, k, id, d, to, j);
      }
    }
  }

  /** Exactly when: at rest a reverse entry leads nowhere if and only if the section that takes it away ran
      before the one that makes it, and since then neither did it run again, for a second removal, nor was
      interest in the reply lost. */
  lemma LeadsNowhere(ws: seq<World>, ts: seq<Thread>, ops: seq<Op>, k: nat, id: string, d: Name, to: string)
    requires IsRun(ws, ts, ops) && k < |ws| && ws[k].tasks == map[]
    ensures Has(Entries(Of(ws[k], d).rrMap, to), id) && !IsPending(ws[k], id) <==>
            exists u, j :: 0 <= u < j && Unlinks(ws, ts, ops, u, id) && IsLinkedSince(ws, ts, ops, k, id, d, to, j)
  {
    RunKeeps(ws, ts, ops, k);
    EntryHistory(ws, ts, ops, k, id, d, to);
    EarlyHistory(ws, ts, ops, k, id);
    assert At(ws[k], id, InMap(d, to)) <==> Has(Entries(Of(ws[k], d).rrMap, to), id);
    assert At(ws[k], id, InMap(d, to)) ==> IsAccounted(ws[k], id);
    assert !IsBeingRemoved(ws[k], id);
    assert id in ws[k].early ==> !IsPending(ws[k], id);
    hide Inv, At, IsLinking, IsPending, IsLinkedSince;
    if At(ws[k], id, InMap(d, to)) && !IsPending(ws[k], id) {
      var u :| 0 <= u < k && Unlinks(ws, ts, ops, u, id) && IsLinking(ws[u], id);
      var j :| IsLinkedSince(ws, ts, ops, k, id, d, to, j);
      LinkedSinceLinks(ws, ts, ops, k, id, d, to, j);
      LinkHistory(ws, ts, ops, u, id);
      assert u != j;
      assert 0 <= u < j;
    }
    if u, j :| 0 <= u < j && Unlinks(ws, ts, ops, u, id) && IsLinkedSince(ws, ts, ops, k, id, d, to, j) {
      LinkedSinceLinks(ws, ts, ops, k, id, d, to, j);
      LinkHistory(ws, ts, ops, j, id);
      LinkHistory(ws, ts, ops, u, id);
      IsBeingLinked(ws[j], ts[j], ops[j], id);
      assert id in ws[u].made;
      assert IsLinking(ws[u], id);
    }
  }

  lemma IsBeingLinked(w: World, t: Thread, op: Op, id: string)
    requires Does(w, t, op, LinkUp(id))
    ensures IsLinking(w, id)
  {
  }

  lemma LinkedSinceLinks(ws: seq<World>, ts: seq<Thread>, ops: seq<Op>, k: nat, id: string, d: Name, to: string, j: int)
    requires IsLinkedSince(ws, ts, ops, k, id, d, to, j)
    ensures 0 <= j < k && Links(ws, ts, ops, j, id)
  {
  }

  /** So it happens, as when the time of a response runs out between the two critical sections of adding it;
      had the second of them come before the second of the removal, nothing would have been left. */
  lemma EarlyRemovalLeaks(x: Name, id: string, dest: Name, to: string, service: string, now: int)
    ensures var w1 := Next(START, 1, Add(x, id, dest, to, service, now));
            && CanStep(w1, 2, Remove(id))
            && var w2 := Next(w1, 2, Remove(id));
            && CanStep(w2, 2, GoOn) && CanStep(w2, 1, GoOn)
            && var late, soon := Next(w2, 2, GoOn), Next(w2, 1, GoOn);
            && CanStep(late, 1, GoOn) && CanStep(soon, 2, GoOn)
            && var leaked, clean := Next(late, 1, GoOn), Next(soon, 2, GoOn);
            && leaked.tasks == map[] && Entry(x, id) in Entries(Of(leaked, dest).rrMap, to) && id !in Of(leaked, x).responses
            && clean.tasks == map[] && Entries(Of(clean, dest).rrMap, to) == [] && id !in Of(clean, x).responses
  {
    var w1 := Next(START, 1, Add(x, id, dest, to, service, now));
    assert w1.tasks[1] == LinkUp(id);
    var w2 := Next(w1, 2, Remove(id));
    assert w2.tasks == map[1 := LinkUp(id), 2 := Unlink(id)];
    var late := Next(w2, 2, GoOn);
    assert late.tasks == map[1 := LinkUp(id)];
    assert Of(late, dest).rrMap == map[];
    assert [] + [Entry(x, id)] == [Entry(x, id)];
    var soon := Next(w2, 1, GoOn);
    assert soon.tasks == map[2 := Unlink(id)];
    assert Of(soon, dest).rrMap == map[to := [Entry(x, id)]];
    assert Without([Entry(x, id)], id) == [];
  }
}
