/** What a lookup gives: subscriptions, and queue groups each in a slot of its own. */
module SubResults {
  import opened Basics
  import opened Subjects
  import opened SubTrie

  datatype Result = Result(psubs: seq<Sub>, qsubs: seq<seq<Sub>>)

  const EMPTY := Result([], [])

  function Members(m: set<Sub>, queue: Option<string>): (s: set<Sub>) {
    set x | x in m && x.queue == queue
  }

  predicate HasSlot(qsubs: seq<seq<Sub>>, queue: Option<string>) {
    exists i :: 0 <= i < |qsubs| && qsubs[i] != [] && qsubs[i][0].queue == queue
  }

  /** How often a subscription is listed: one that was added late, to a result that was there, only once. */
  function Times(x: Sub, late: set<Sub>): (n: nat) {
    if x in late then 1 else Copies(x)
  }

  /** A slot has the members of one group, each as often as it should be. */
  ghost predicate Lists(slot: seq<Sub>, m: set<Sub>, late: set<Sub>, queue: Option<string>) {
    forall x :: multiset(slot)[x] == if x in m && x.queue == queue then Times(x, late) else 0
  }

  /** No two slots are of one group; a slot may be empty. */
  predicate SlotsOk(qsubs: seq<seq<Sub>>) {
    && (forall i :: 0 <= i < |qsubs| && qsubs[i] != [] ==> qsubs[i][0].queue.Some?)
    && (forall i, j :: 0 <= i < j < |qsubs| && qsubs[i] != [] && qsubs[j] != [] ==> qsubs[i][0].queue != qsubs[j][0].queue)
  }

  /** The result holds exactly some subscriptions: those without a queue in the list, each once, the others in
      the slots of their groups. */
  ghost predicate Is(r: Result, m: set<Sub>, late: set<Sub>) {
    && multiset(r.psubs) == multiset(Members(m, None)) && SlotsOk(r.qsubs)
    && (forall i :: 0 <= i < |r.qsubs| && r.qsubs[i] != [] ==> Lists(r.qsubs[i], m, late, r.qsubs[i][0].queue))
    && (forall x :: x in m && x.queue.Some? && Times(x, late) > 0 ==> HasSlot(r.qsubs, x.queue))
  }

  /** The slot of a group, or -1. */
  method FindQSlot(queue: string, qsubs: seq<seq<Sub>>) returns (slot: int)
    ensures -1 <= slot < |qsubs|
    ensures slot >= 0 ==> qsubs[slot] != [] && qsubs[slot][0].queue == Some(queue)
    ensures slot < 0 ==> !HasSlot(qsubs, Some(queue))
  {
    slot := 0;
    while slot < |qsubs|
      invariant 0 <= slot <= |qsubs|
      invariant forall i :: 0 <= i < slot ==> qsubs[i] == [] || qsubs[i][0].queue != Some(queue)
    {
      if |qsubs[slot]| > 0 && qsubs[slot][0].queue == Some(queue) {
        return;
      }
      slot := slot + 1;
    }
    slot := -1;
  }

  // ----- subscriptions without a queue -----

  /** Being late makes no difference to them. */
  lemma PlainMore(r: Result, m: set<Sub>, late: set<Sub>, late': set<Sub>, list: seq<Sub>, s: set<Sub>)
    requires Is(r, m, late) && m !! s && multiset(list) == multiset(s) && (forall x :: x in s ==> x.queue == None)
    requires forall x :: x in m ==> Times(x, late') == Times(x, late)
    ensures Is(r.(psubs := r.psubs + list), m + s, late')
  {
    hide Times;
    var r' := r.(psubs := r.psubs + list);
    assert Members(m + s, None) == Members(m, None) + s;
    assert multiset(Members(m, None) + s) == multiset(Members(m, None)) + multiset(s);
    forall i | 0 <= i < |r'.qsubs| && r'.qsubs[i] != []
      ensures Lists(r'.qsubs[i], m + s, late', r'.qsubs[i][0].queue)
    {
      assert Lists(r.qsubs[i], m, late, r.qsubs[i][0].queue);
    }
  }

  // ----- queue groups -----

  function WithSlot(qsubs: seq<seq<Sub>>, i: nat, slot: seq<Sub>): (qsubs': seq<seq<Sub>>)
    requires i <= |qsubs|
  {
    if i < |qsubs| then qsubs[i := slot] else qsubs + [slot]
  }

  function SlotAt(qsubs: seq<seq<Sub>>, i: nat): (slot: seq<Sub>)
    requires i <= |qsubs|
  {
    if i < |qsubs| then qsubs[i] else []
  }

  /** The place of a group: its slot, or a new one if it has none. */
  ghost predicate IsPlace(qsubs: seq<seq<Sub>>, i: nat, q: string) {
    if i < |qsubs| then qsubs[i] != [] && qsubs[i][0].queue == Some(q) else i == |qsubs| && !HasSlot(qsubs, Some(q))
  }

  /** More members of one group, in its slot. */
  lemma SlotMore(r: Result, m: set<Sub>, late: set<Sub>, i: nat, q: string, slot: seq<Sub>, more: set<Sub>, late': set<Sub>)
    requires Is(r, m, late) && IsPlace(r.qsubs, i, q) && m !! more && (forall x :: x in more ==> x.queue == Some(q))
    requires Lists(slot, m + more, late', Some(q)) && forall x :: x in m ==> Times(x, late') == Times(x, late)
    ensures Is(r.(qsubs := WithSlot(r.qsubs, i, slot)), m + more, late')
  {
    hide Times;
    var qsubs: seq<seq<Sub>> := WithSlot(r.qsubs, i, slot);
    assert Members(m + more, None) == Members(m, None);
    if slot != [] {
      SlotIsOf(slot, m + more, late', q);
    }
    OtherSlots(r, i, q);
    assert SlotsOk(qsubs);
    forall j | 0 <= j < |qsubs| && qsubs[j] != []
      ensures Lists(qsubs[j], m + more, late', qsubs[j][0].queue)
    {
      if j != i {
        assert qsubs[j] == r.qsubs[j] && Lists(r.qsubs[j], m, late, r.qsubs[j][0].queue);
      }
    }
    hide SlotsOk;
    forall x | x in m + more && x.queue.Some? && Times(x, late') > 0
      ensures HasSlot(qsubs, x.queue)
    {
      if x.queue == Some(q) {
        assert multiset(slot)[x] > 0;
        assert slot != [] && qsubs[i] == slot;
      } else {
        KeepsSlot(r.qsubs, i, q, slot, x.queue);
      }
    }
  }

  lemma KeepsSlot(qsubs: seq<seq<Sub>>, i: nat, q: string, slot: seq<Sub>, queue: Option<string>)
    requires IsPlace(qsubs, i, q) && HasSlot(qsubs, queue) && queue != Some(q)
    ensures HasSlot(WithSlot(qsubs, i, slot), queue)
  {
    var j :| 0 <= j < |qsubs| && qsubs[j] != [] && qsubs[j][0].queue == queue;
    assert WithSlot(qsubs, i, slot)[j] == qsubs[j];
  }

  lemma SlotIsOf(slot: seq<Sub>, m: set<Sub>, late: set<Sub>, q: string)
    requires slot != [] && Lists(slot, m, late, Some(q))
    ensures slot[0].queue == Some(q)
  {
    assert slot[0] in multiset(slot);
  }

  lemma OtherSlots(r: Result, i: nat, q: string)
    requires SlotsOk(r.qsubs) && IsPlace(r.qsubs, i, q)
    ensures forall j :: 0 <= j < |r.qsubs| && j != i && r.qsubs[j] != [] ==> r.qsubs[j][0].queue != Some(q)
  {
  }

  /** What the group's slot lists so far. */
  lemma SlotBefore(r: Result, m: set<Sub>, late: set<Sub>, i: nat, q: string)
    requires Is(r, m, late) && IsPlace(r.qsubs, i, q)
    ensures Lists(SlotAt(r.qsubs, i), m, late, Some(q))
  {
    if i == |r.qsubs| {
      forall x
        ensures x in m && x.queue == Some(q) ==> Times(x, late) == 0
      {
      }
    }
  }

  method PlaceOf(queue: string, qsubs: seq<seq<Sub>>) returns (i: nat)
    ensures i <= |qsubs| && IsPlace(qsubs, i, queue)
  {
    var slot := FindQSlot(queue, qsubs);
    i := if slot < 0 then |qsubs| else slot;
  }

  /** A late one is listed once, whatever it weighs. */
  method AddSubToResult(r: Result, x: Sub, ghost m: set<Sub>, ghost late: set<Sub>) returns (r': Result)
    ensures Is(r, m, late) && x !in m ==> Is(r', m + {x}, late + {x})
  {
    hide Is, Lists, IsPlace;
    match x.queue
    case None =>
      r' := r.(psubs := r.psubs + [x]);
      if Is(r, m, late) && x !in m {
        assert multiset([x]) == multiset({x});
        PlainMore(r, m, late, late + {x}, [x], {x});
      }
    case Some(q) =>
      var i := PlaceOf(q, r.qsubs);
      var slot := SlotAt(r.qsubs, i) + [x];
      r' := r.(qsubs := WithSlot(r.qsubs, i, slot));
      if Is(r, m, late) && x !in m {
        SlotBefore(r, m, late, i, q);
        OneLate(SlotAt(r.qsubs, i), m, late, q, x);
        SlotMore(r, m, late, i, q, slot, {x}, late + {x});
      }
  }

  lemma OneLate(slot: seq<Sub>, m: set<Sub>, late: set<Sub>, q: string, x: Sub)
    requires Lists(slot, m, late, Some(q)) && x !in m && x.queue == Some(q)
    ensures Lists(slot + [x], m + {x}, late + {x}, Some(q))
  {
    assert multiset(slot + [x]) == multiset(slot) + multiset{x};
  }

  /** A result with late ones is what a lookup would give if and only if none of them weighs anything but one. */
  lemma CachedIsLookedUp(r: Result, m: set<Sub>, late: set<Sub>)
    requires Is(r, m, late)
    ensures Is(r, m, {}) <==> forall x :: x in m && x in late && x.queue.Some? ==> Copies(x) == 1
  {
    hide Copies;
    if Is(r, m, {}) {
      forall x | x in m && x in late && x.queue.Some?
        ensures Copies(x) == 1
      {
        var i :| 0 <= i < |r.qsubs| && r.qsubs[i] != [] && r.qsubs[i][0].queue == x.queue;
        assert Lists(r.qsubs[i], m, late, x.queue) && Lists(r.qsubs[i], m, {}, x.queue);
      }
    }
    if forall x :: x in m && x in late && x.queue.Some? ==> Copies(x) == 1 {
      forall i | 0 <= i < |r.qsubs| && r.qsubs[i] != []
        ensures Lists(r.qsubs[i], m, {}, r.qsubs[i][0].queue)
      {
        assert Lists(r.qsubs[i], m, late, r.qsubs[i][0].queue);
      }
    }
  }

  lemma EmptyIs()
    ensures Is(EMPTY, {}, {})
  {
    assert Members({}, None) == {};
  }
}
