/** The expiration tracker of a JWT store: one set of items held as a min-heap with back-pointers,
    as an index by public key, as an LRU list and as a running XOR.  The sift loops are those of
    Go's container/heap, the list operations those of container/list. */
module ExpirationTracking {
  import opened Basics
  import opened Digests

  class JwtItem {
    var index: int
    const publicKey: string
    var expiration: int
    var digest: Digest

    constructor (publicKey: string, expiration: int, digest: Digest)
      ensures this.publicKey == publicKey && this.expiration == expiration && this.digest == digest
    {
      this.index := -1;
      this.publicKey := publicKey;
      this.expiration := expiration;
      this.digest := digest;
    }
  }

  /** A list element: its identity is what the index holds on to. */
  class Element {
    const value: JwtItem

    constructor (value: JwtItem)
      ensures this.value == value
    {
      this.value := value;
    }
  }

  /** s without its elements equal to x, the order of the others kept. */
  function Without<T(==)>(s: seq<T>, x: T): (r: seq<T>)
    ensures forall y :: y in r ==> y in s && y != x
    ensures forall y :: y in s && y != x ==> y in r
    ensures |r| <= |s|
  {
    if s == [] then [] else
      (if s[0] == x then [] else [s[0]]) + Without(s[1..], x)
  }

  ghost predicate Distinct<T>(s: seq<T>) {
    forall i, j :: 0 <= i < j < |s| ==> s[i] != s[j]
  }

  lemma DistinctRest<T>(s: seq<T>)
    requires s != [] && Distinct(s)
    ensures Distinct(s[1..]) && s[0] !in s[1..]
  {
    forall i | 0 <= i < |s[1..]|
      ensures s[1..][i] != s[0]
    {
      assert s[1..][i] == s[i + 1];
    }
  }

  lemma DistinctCons<T>(x: T, s: seq<T>)
    requires Distinct(s) && x !in s
    ensures Distinct([x] + s)
  {
  }

  lemma WithoutFirst<T>(s: seq<T>, x: T)
    requires s != []
    ensures Without(s, x) == if s[0] == x then Without(s[1..], x) else [s[0]] + Without(s[1..], x)
  {
  }

  lemma {:induction false} WithoutDistinct<T>(s: seq<T>, x: T)
    requires Distinct(s)
    ensures Distinct(Without(s, x))
    ensures |Without(s, x)| == if x in s then |s| - 1 else |s|
    ensures x !in s ==> Without(s, x) == s
  {
    if s != [] {
      hide Distinct, Without;
      DistinctRest(s);
      WithoutFirst(s, x);
      WithoutDistinct(s[1..], x);
      assert s == [s[0]] + s[1..];
      if s[0] != x {
        DistinctCons(s[0], Without(s[1..], x));
      }
    }
  }

  lemma {:induction false} DistinctMultiset<T>(s: seq<T>)
    requires Distinct(s)
    ensures multiset(s) == multiset(set x | x in s)
  {
    if s != [] {
      DistinctRest(s);
      hide Distinct;
      DistinctMultiset(s[1..]);
      assert s == [s[0]] + s[1..];
      assert (set x | x in s) == {s[0]} + (set x | x in s[1..]);
    }
  }

  function Parent(i: int): (p: int)
    requires i >= 1
    ensures 0 <= p < i && (i == 2 * p + 1 || i == 2 * p + 2)
  {
    (i - 1) / 2
  }

  /** Heap order among the first n entries. */
  ghost predicate Ordered(s: seq<int>, n: int)
    requires n <= |s|
  {
    forall i {:trigger Parent(i)} :: 1 <= i < n ==> s[Parent(i)] <= s[i]
  }

  /** Heap order among the first n entries, except that entry k may be out of place either way. */
  ghost predicate OrderedBut(s: seq<int>, k: int, n: int)
    requires n <= |s|
  {
    && (forall i {:trigger Parent(i)} :: 1 <= i < n && i != k && Parent(i) != k ==> s[Parent(i)] <= s[i])
    && (k >= 1 ==> forall i {:trigger Parent(i)} :: 1 <= i < n && Parent(i) == k ==> s[Parent(k)] <= s[i])
  }

  /** Heap order among the first n entries, except that entry k may be too small for its parent. */
  ghost predicate OrderedAbove(s: seq<int>, k: int, n: int)
    requires n <= |s|
  {
    OrderedBut(s, k, n) && forall i {:trigger Parent(i)} :: 1 <= i < n && Parent(i) == k ==> s[k] <= s[i]
  }

  function Swapped<T>(s: seq<T>, i: int, j: int): (t: seq<T>)
    requires 0 <= i < |s| && 0 <= j < |s|
  {
    s[i := s[j]][j := s[i]]
  }

  lemma SwapUp(s: seq<int>, j: int, n: int)
    requires 1 <= j < n <= |s|
    requires OrderedAbove(s, j, n) && s[j] < s[Parent(j)]
    ensures OrderedAbove(Swapped(s, Parent(j), j), Parent(j), n)
  {
  }

  /** What sinking an entry from i0 to i keeps: everything else is in order, and once the entry has
      moved it is no smaller than its parent. */
  ghost predicate SinkInv(s: seq<int>, i0: int, i: int, n: int)
    requires 0 <= i0 <= i < n <= |s|
  {
    OrderedBut(s, i, n) && (i > i0 ==> s[Parent(i)] <= s[i])
  }

  /** j is a child of i, and no child of i is smaller. */
  predicate IsLeastChild(s: seq<int>, i: int, j: int, n: int)
    requires 0 <= i && n <= |s|
  {
    && 2 * i + 1 <= j <= 2 * i + 2 && j < n
    && s[j] <= s[2 * i + 1] && (2 * i + 2 < n ==> s[j] <= s[2 * i + 2])
  }

  lemma SinkStops(s: seq<int>, i0: int, i: int, j: int, n: int)
    requires 0 <= i0 <= i < n <= |s| && SinkInv(s, i0, i, n)
    requires 2 * i + 1 >= n || (IsLeastChild(s, i, j, n) && s[i] <= s[j])
    ensures if i > i0 then Ordered(s, n) else OrderedAbove(s, i0, n)
  {
  }

  lemma SwapDown(s: seq<int>, i0: int, i: int, j: int, n: int)
    requires 0 <= i0 <= i < j < n <= |s| && SinkInv(s, i0, i, n)
    requires IsLeastChild(s, i, j, n) && s[j] < s[i]
    ensures SinkInv(Swapped(s, i, j), i0, j, n)
  {
  }

  /** Swapping entry i with the last one leaves only i out of place among the others. */
  lemma SwapOut(s: seq<int>, i: int, n: int)
    requires 0 <= i < n && n + 1 == |s| && Ordered(s, n + 1)
    ensures OrderedBut(Swapped(s, i, n), i, n)
  {
    if i >= 1 {
      assert Parent(i) < i;
    }
  }

  /** Changing entry i leaves only i out of place. */
  lemma ChangeOne(s: seq<int>, t: seq<int>, i: int)
    requires 0 <= i < |s| == |t| && Ordered(s, |s|)
    requires forall j :: 0 <= j < |s| && j != i ==> s[j] == t[j]
    ensures OrderedBut(t, i, |t|)
  {
    if i >= 1 {
      assert Parent(i) < i;
    }
  }

  /** The root of an ordered heap is a minimum. */
  lemma {:induction false} RootIsLeast(s: seq<int>, n: int, i: int)
    requires n <= |s| && Ordered(s, n) && 0 <= i < n
    ensures s[0] <= s[i]
  {
    if i > 0 {
      RootIsLeast(s, n, Parent(i));
    }
  }

  /** Index, list and heap hold the same items: the index maps a key to the one list element whose
      value is the heap's item for that key. */
  ghost predicate AreLinked(items: set<JwtItem>, idx: map<string, Element>, lru: seq<Element>) {
    && (forall it :: it in items ==> it.publicKey in idx && idx[it.publicKey].value == it)
    && (forall k :: k in idx ==> idx[k] in lru && idx[k].value in items && idx[k].value.publicKey == k)
    && (forall e :: e in lru ==> e.value in items && idx[e.value.publicKey] == e)
    && Distinct(lru)
  }

  /** The keys of list elements, in list order. */
  function KeysOf(es: seq<Element>): (ks: seq<string>)
    ensures |ks| == |es| && forall i :: 0 <= i < |es| ==> ks[i] == es[i].value.publicKey
  {
    if es == [] then [] else [es[0].value.publicKey] + KeysOf(es[1..])
  }

  lemma {:induction false} KeysOfAppend(es: seq<Element>, e: Element)
    ensures KeysOf(es + [e]) == KeysOf(es) + [e.value.publicKey]
  {
  }

  /** When e is the only element with its key, dropping e drops exactly that key. */
  lemma {:induction false} KeysOfWithout(es: seq<Element>, e: Element)
    requires forall x :: x in es && x.value.publicKey == e.value.publicKey ==> x == e
    ensures KeysOf(Without(es, e)) == Without(KeysOf(es), e.value.publicKey)
  {
    if es != [] {
      KeysOfWithout(es[1..], e);
      assert es[0] in es;
    }
  }

  lemma LinkedKey(items: set<JwtItem>, idx: map<string, Element>, lru: seq<Element>, k: string)
    requires AreLinked(items, idx, lru) && k in idx
    ensures idx[k] in lru && idx[k].value in items && idx[k].value.publicKey == k
    ensures forall e :: e in lru && e.value.publicKey == k ==> e == idx[k]
    ensures forall it :: it in items && it.publicKey == k ==> it == idx[k].value
  {
  }

  lemma Relink(items: set<JwtItem>, idx: map<string, Element>, lru: seq<Element>, e: Element)
    requires AreLinked(items, idx, lru) && e in lru
    ensures AreLinked(items, idx, Without(lru, e) + [e])
    ensures KeysOf(Without(lru, e) + [e]) == Without(KeysOf(lru), e.value.publicKey) + [e.value.publicKey]
  {
    WithoutDistinct(lru, e);
    RelinkKeys(items, idx, lru, e);
  }

  lemma RelinkKeys(items: set<JwtItem>, idx: map<string, Element>, lru: seq<Element>, e: Element)
    requires AreLinked(items, idx, lru) && e in lru
    ensures KeysOf(Without(lru, e) + [e]) == Without(KeysOf(lru), e.value.publicKey) + [e.value.publicKey]
  {
    KeysOfWithout(lru, e);
    KeysOfAppend(Without(lru, e), e);
  }

  lemma Link(items: set<JwtItem>, idx: map<string, Element>, lru: seq<Element>, e: Element)
    requires AreLinked(items, idx, lru) && e.value.publicKey !in idx && e !in lru
    ensures e.value !in items
    ensures AreLinked(items + {e.value}, idx[e.value.publicKey := e], lru + [e])
    ensures KeysOf(lru + [e]) == KeysOf(lru) + [e.value.publicKey]
  {
    KeysOfAppend(lru, e);
  }

  lemma Unlink(items: set<JwtItem>, idx: map<string, Element>, lru: seq<Element>, it: JwtItem)
    requires AreLinked(items, idx, lru) && it in items
    ensures it.publicKey in idx
    ensures AreLinked(items - {it}, idx - {it.publicKey}, Without(lru, idx[it.publicKey]))
    ensures KeysOf(Without(lru, idx[it.publicKey])) == Without(KeysOf(lru), it.publicKey)
    ensures forall jt :: jt in items && jt != it ==> jt.publicKey != it.publicKey
  {
    WithoutDistinct(lru, idx[it.publicKey]);
    KeysOfWithout(lru, idx[it.publicKey]);
  }

  /** What is known of one key: when its JWT is due, and the digest of the JWT. */
  datatype Entry = Entry(due: int, sum: Digest)

  function Sums(entries: map<string, Entry>): (m: map<string, Digest>)
    ensures m.Keys == entries.Keys
  {
    map k | k in entries :: entries[k].sum
  }

  lemma SumsSet(entries: map<string, Entry>, k: string, e: Entry)
    ensures Sums(entries[k := e]) == Sums(entries)[k := e.sum]
    ensures Sums(entries - {k}) == Sums(entries) - {k}
    ensures k in entries ==> Sums(entries)[k] == entries[k].sum
    ensures k in entries && entries[k].sum == e.sum ==> Sums(entries[k := e]) == Sums(entries)
  {
  }

  /** What a tracker knows, apart from how it is laid out: the entry of each key, and the keys from
      least to most recently used. */
  datatype Tracked = Tracked(entries: map<string, Entry>, order: seq<string>)
  {
    function Set(k: string, e: Entry): (t: Tracked) {
      Tracked(entries[k := e], if k in entries then order else order + [k])
    }

    function Drop(k: string): (t: Tracked) {
      Tracked(entries - {k}, Without(order, k))
    }

    function Touch(k: string, ttl: int, evictOnLimit: bool, now: int): (t: Tracked) {
      if k !in entries then this else
        Tracked(if ttl == 0 then entries else entries[k := entries[k].(due := Wrap64(now + ttl))],
                if evictOnLimit then Without(order, k) + [k] else order)
    }
  }

  class ExpirationTracker {
    var heap: seq<JwtItem>
    var idx: map<string, Element>
    var lru: seq<Element>
    const limit: int
    const evictOnLimit: bool
    const ttl: int
    const hash: array<bv8>

    ghost var items: set<JwtItem>  // the items of the heap
    ghost var exps: seq<int>       // their expirations, in heap order
    ghost var view: Tracked

    /** Every item knows its own position, and the ghost fields say what the heap holds. */
    ghost predicate Indexed()
      reads this`heap, this`items, this`exps, items`index, items`expiration
    {
      && |exps| == |heap|
      && (forall i :: 0 <= i < |heap| ==>
            heap[i] in items && heap[i].index == i && exps[i] == heap[i].expiration)
      && (forall it :: it in items ==> 0 <= it.index < |heap| && heap[it.index] == it)
    }

    ghost predicate Linked()
      reads this`items, this`idx, this`lru
    {
      AreLinked(items, idx, lru)
    }

    ghost predicate Shaped()
      reads this`heap, this`idx, this`lru, this`items, this`exps, items`index, items`expiration
    {
      Indexed() && Linked() && Ordered(exps, |exps|)
    }

    /** The view says what the items say. */
    ghost predicate Mirrored()
      reads this`items, this`idx, this`lru, this`view, items`expiration, items`digest
    {
      && view.entries.Keys == idx.Keys
      && (forall it :: it in items ==>
            it.publicKey in view.entries && view.entries[it.publicKey] == Entry(it.expiration, it.digest))
      && view.order == KeysOf(lru)
    }

    ghost predicate Valid()
      reads this, items, hash
    {
      Shaped() && Mirrored() && hash.Length == SIZE && hash[..] == XorAll(Sums(view.entries))
    }

    constructor (limit: int, evictOnLimit: bool, ttl: int)
      ensures Valid() && view == Tracked(map[], []) && items == {}
      ensures this.limit == limit && this.evictOnLimit == evictOnLimit && this.ttl == ttl
      ensures fresh(hash)
    {
      this.heap := [];
      this.idx := map[];
      this.lru := [];
      this.limit := limit;
      this.evictOnLimit := evictOnLimit;
      this.ttl := ttl;
      this.hash := new bv8[SIZE](_ => 0);
      this.items := {};
      this.exps := [];
      this.view := Tracked(map[], []);
    }

    /** Forgets every item, as a reload does before it reads the directory again. */
    method Reset()
      requires hash.Length == SIZE
      modifies this, hash
      ensures Valid() && view == Tracked(map[], []) && items == {}
    {
      heap, idx, lru := [], map[], [];
      forall i | 0 <= i < SIZE {
        hash[i] := 0;
      }
      items, exps, view := {}, [], Tracked(map[], []);
      assert hash[..] == ZERO;
    }

    method Swap(i: int, j: int)
      requires 0 <= i < |heap| && 0 <= j < |heap|
      requires Indexed()
      modifies this`heap, this`exps, items`index
      ensures heap == Swapped(old(heap), i, j) && exps == Swapped(old(exps), i, j)
      ensures Indexed()
    {
      heap := heap[i := heap[j]][j := heap[i]];
      heap[i].index := i;
      heap[j].index := j;
      exps := Swapped(exps, i, j);
    }

    /** container/heap up. */
    method Up(j0: int, ghost n: int)
      requires 0 <= j0 < n <= |heap|
      requires Indexed() && OrderedAbove(exps, j0, n)
      modifies this`heap, this`exps, items`index
      ensures Indexed() && |heap| == |old(heap)| && heap[n..] == old(heap)[n..]
      ensures Ordered(exps, n)
    {
      var j := j0;
      while true
        invariant 0 <= j < n <= |heap| == |old(heap)| && heap[n..] == old(heap)[n..]
        invariant Indexed() && OrderedAbove(exps, j, n)
        decreases j
      {
        var i := if j == 0 then 0 else (j - 1) / 2;
        if i == j || !(heap[j].expiration < heap[i].expiration) {
          break;
        }
        SwapUp(exps, j, n);
        Swap(i, j);
        j := i;
      }
    }

    method LeastChild(i: int, n: int) returns (j: int)
      requires 0 <= i && 2 * i + 1 < n <= |heap|
      requires Indexed()
      ensures IsLeastChild(exps, i, j, n)
    {
      var j1 := 2 * i + 1;
      j := j1;
      var j2 := j1 + 1;
      if j2 < n && heap[j2].expiration < heap[j1].expiration {
        j := j2;
      }
    }

    /** container/heap down on the first n items. */
    method Down(i0: int, n: int) returns (moved: bool)
      requires 0 <= i0 < n <= |heap|
      requires Indexed() && OrderedBut(exps, i0, n)
      modifies this`heap, this`exps, items`index
      ensures Indexed() && |heap| == |old(heap)| && heap[n..] == old(heap)[n..]
      ensures if moved then Ordered(exps, n) else OrderedAbove(exps, i0, n)
    {
      var i := i0;
      while true
        invariant i0 <= i < n <= |heap| == |old(heap)| && heap[n..] == old(heap)[n..]
        invariant Indexed() && SinkInv(exps, i0, i, n)
        decreases n - i
      {
        if 2 * i + 1 >= n {
          SinkStops(exps, i0, i, i, n);
          break;
        }
        var j := LeastChild(i, n);
        if !(heap[j].expiration < heap[i].expiration) {
          SinkStops(exps, i0, i, j, n);
          break;
        }
        SwapDown(exps, i0, i, j, n);
        Swap(i, j);
        i := j;
      }
      moved := i > i0;
    }

    method Push(item: JwtItem)
      requires Indexed() && Linked() && item.publicKey !in idx
      modifies this`heap, this`idx, this`lru, this`items, this`exps, item`index
      ensures heap == old(heap) + [item] && items == old(items) + {item}
      ensures exps == old(exps) + [item.expiration]
      ensures Indexed() && Linked()
      ensures item.publicKey in idx && idx == old(idx)[item.publicKey := idx[item.publicKey]]
      ensures KeysOf(lru) == KeysOf(old(lru)) + [item.publicKey]
    {
      hide AreLinked;
      assert forall e :: e in lru ==> allocated(e);
      var e := new Element(item);
      Link(items, idx, lru, e);
      item.index := |heap|;
      heap := heap + [item];
      items := items + {item};
      exps := exps + [item.expiration];
      lru := lru + [e];
      idx := idx[item.publicKey := e];
    }

    method Pop() returns (item: JwtItem)
      requires Indexed() && Linked() && |heap| > 0
      modifies this`heap, this`idx, this`lru, this`items, this`exps, items`index
      ensures item == old(heap)[|old(heap)| - 1] && heap == old(heap)[..|old(heap)| - 1]
      ensures items == old(items) - {item} && exps == old(exps)[..|old(exps)| - 1]
      ensures item.publicKey in old(idx) && idx == old(idx) - {item.publicKey}
      ensures KeysOf(lru) == Without(KeysOf(old(lru)), item.publicKey)
      ensures Indexed() && Linked()
    {
      hide AreLinked, Without, KeysOf;
      var n := |heap|;
      item := heap[n - 1];
      Unlink(items, idx, lru, item);
      item.index := -1;
      heap := heap[..n - 1];
      items := items - {item};
      exps := exps[..n - 1];
      lru := Without(lru, idx[item.publicKey]);
      idx := idx - {item.publicKey};
    }

    /** container/heap Push. */
    method HeapPush(item: JwtItem)
      requires Shaped() && item.publicKey !in idx
      modifies this`heap, this`idx, this`lru, this`items, this`exps, items`index, item`index
      ensures Shaped() && items == old(items) + {item}
      ensures idx.Keys == old(idx.Keys) + {item.publicKey}
      ensures KeysOf(lru) == KeysOf(old(lru)) + [item.publicKey]
    {
      hide AreLinked, KeysOf;
      Push(item);
      Up(|heap| - 1, |heap|);
    }

    /** container/heap Fix. */
    method Fix(i: int)
      requires 0 <= i < |heap|
      requires Indexed() && OrderedBut(exps, i, |heap|)
      modifies this`heap, this`exps, items`index
      ensures Indexed() && Ordered(exps, |exps|)
    {
      var moved := Down(i, |heap|);
      if !moved {
        Up(i, |heap|);
      }
    }

    /** Puts the item at position i last, the others in heap order before it; all of container/heap
        Remove except taking the item off. */
    method SiftOut(i: int)
      requires 0 <= i < |heap|
      requires Indexed() && Ordered(exps, |exps|)
      modifies this`heap, this`exps, items`index
      ensures |heap| == |old(heap)| && heap[|heap| - 1] == old(heap)[i]
      ensures Indexed() && Ordered(exps, |exps| - 1)
    {
      var n := |heap| - 1;
      if n != i {
        SwapOut(exps, i, n);
        Swap(i, n);
        assert heap[n..] == [old(heap)[i]];
        var moved := Down(i, n);
        if !moved {
          Up(i, n);
        }
        assert heap[n..][0] == old(heap)[i];
      }
    }

    /** container/heap Remove; container/heap Pop is the case i == 0. */
    method HeapRemove(i: int) returns (item: JwtItem)
      requires Shaped() && 0 <= i < |heap|
      modifies this`heap, this`idx, this`lru, this`items, this`exps, items`index
      ensures Shaped() && item == old(heap[i]) && items == old(items) - {item}
      ensures item.publicKey in old(idx) && idx == old(idx) - {item.publicKey}
      ensures KeysOf(lru) == Without(KeysOf(old(lru)), item.publicKey)
    {
      hide AreLinked, KeysOf, Without;
      SiftOut(i);
      item := Pop();
    }

    /** The items in list order. */
    ghost function Listed(): (s: seq<JwtItem>)
      reads this`lru
      ensures |s| == |lru| && forall i :: 0 <= i < |lru| ==> s[i] == lru[i].value
    {
      var es := lru;
      seq(|es|, i requires 0 <= i < |es| => es[i].value)
    }

    /** The LRU list is a permutation of the heap. */
    lemma ListIsPermutation()
      requires Shaped()
      ensures multiset(Listed()) == multiset(heap)
      ensures |lru| == |heap|
    {
      assert Distinct(heap) by {
        hide AreLinked, Ordered;
      }
      DistinctMultiset(heap);
      assert Distinct(Listed()) by {
        hide Indexed, Ordered;
      }
      DistinctMultiset(Listed());
      assert (set it | it in heap) == items by {
        hide AreLinked, Ordered;
      }
      assert (set it | it in Listed()) == items by {
        hide Indexed, Ordered;
        forall it | it in items ensures it in Listed() {
          var j :| 0 <= j < |lru| && lru[j] == idx[it.publicKey];
          assert Listed()[j] == it;
        }
      }
      assert |multiset(Listed())| == |multiset(heap)|;
    }

    /** No tracked key is due before the item at the root of the heap. */
    lemma RootIsEarliest()
      requires Shaped() && Mirrored() && |heap| > 0
      ensures heap[0].publicKey in view.entries
      ensures view.entries[heap[0].publicKey] == Entry(heap[0].expiration, heap[0].digest)
      ensures forall k :: k in view.entries ==> heap[0].expiration <= view.entries[k].due
    {
      forall k | k in view.entries
        ensures heap[0].expiration <= view.entries[k].due
      {
        ItemOf(k);
        RootIsLeast(exps, |exps|, idx[k].value.index);
      }
    }

    lemma EmptyHeap()
      requires Shaped() && Mirrored() && |heap| == 0
      ensures view.entries == map[]
    {
      if k :| k in view.entries {
        ItemOf(k);
        assert false;
      }
    }

    lemma Counts()
      requires Shaped() && Mirrored()
      ensures |heap| == |lru| == |view.order|
      ensures forall i :: 0 <= i < |lru| ==>
                view.order[i] == lru[i].value.publicKey && view.order[i] in view.entries
    {
      ListIsPermutation();
    }

    /** What the shape says about the item of an indexed key. */
    lemma ItemOf(k: string)
      requires Shaped() && k in idx
      ensures var it := idx[k].value;
              it in items && it.publicKey == k && 0 <= it.index < |heap| && heap[it.index] == it
      ensures forall it :: it in items && it.publicKey == k ==> it == idx[k].value
    {
      LinkedKey(items, idx, lru, k);
    }

    lemma EntryOf(k: string)
      requires Shaped() && Mirrored()
      ensures k in idx <==> k in view.entries
      ensures k in idx ==> idx[k].value in items && view.entries[k].sum == idx[k].value.digest
    {
      if k in idx {
        ItemOf(k);
      }
    }

    /** Gives an item a new expiration and restores the heap order. */
    method Reschedule(it: JwtItem, exp: int)
      requires Shaped() && it in items
      modifies this`heap, this`exps, it`expiration, items`index
      ensures Shaped() && it.expiration == exp
    {
      it.expiration := exp;
      exps := exps[it.index := exp];
      ChangeOne(old(exps), exps, it.index);
      Fix(it.index);
    }

    /** The expiration half of updateTrack. */
    method Extend(publicKey: string, exp: int)
      requires Valid() && publicKey in idx
      modifies this`heap, this`exps, this`view, items`index, items`expiration
      ensures Valid()
      ensures view == old(view).(entries := old(view).entries[publicKey := old(view).entries[publicKey].(due := exp)])
    {
      hide Shaped, KeysOf, XorAll;
      ItemOf(publicKey);
      Reschedule(idx[publicKey].value, exp);
      SumsSet(view.entries, publicKey, Entry(exp, view.entries[publicKey].sum));
      view := view.(entries := view.entries[publicKey := view.entries[publicKey].(due := exp)]);
    }

    /** container/list MoveToBack, for the element of a key. */
    method MoveToBack(publicKey: string)
      requires Valid() && publicKey in idx
      modifies this`lru, this`view
      ensures Valid()
      ensures view == old(view).(order := Without(old(view).order, publicKey) + [publicKey])
    {
      hide AreLinked, Ordered, Indexed, KeysOf, XorAll, Without;
      var e := idx[publicKey];
      LinkedKey(items, idx, lru, publicKey);
      Relink(items, idx, lru, e);
      lru := Without(lru, e) + [e];
      view := view.(order := Without(view.order, publicKey) + [publicKey]);
    }

    method UpdateTrack(publicKey: string, now: int)
      requires Valid()
      modifies this`heap, this`lru, this`exps, this`view, items`index, items`expiration
      ensures Valid()
      ensures view == old(view).Touch(publicKey, ttl, evictOnLimit, now)
    {
      hide Shaped, KeysOf, XorAll;
      if publicKey in idx {
        if ttl != 0 {
          Extend(publicKey, Wrap64(now + ttl));
        }
        if evictOnLimit {
          MoveToBack(publicKey);
        }
      }
    }

    /** Takes the item at position i out of the heap, the index, the list and the view. */
    method Forget(i: int) returns (item: JwtItem)
      requires Shaped() && Mirrored() && 0 <= i < |heap|
      modifies this`heap, this`idx, this`lru, this`items, this`exps, this`view, items`index
      ensures Shaped() && Mirrored() && item == old(heap[i]) && items == old(items) - {item}
      ensures item.publicKey in old(view).entries && view == old(view).Drop(item.publicKey)
    {
      hide KeysOf, Without, AreLinked, Ordered;
      Unlink(items, idx, lru, heap[i]);
      item := HeapRemove(i);
      view := view.Drop(item.publicKey);
    }

    method UnTrack(publicKey: string)
      requires Shaped() && Mirrored() && hash.Length == SIZE
      modifies this`heap, this`idx, this`lru, this`items, this`exps, this`view, items`index, hash
      ensures Shaped() && Mirrored() && items <= old(items)
      ensures publicKey !in old(view).entries ==> view == old(view) && hash[..] == old(hash[..])
      ensures publicKey in old(view).entries ==>
                && view == old(view).Drop(publicKey)
                && hash[..] == Xor(old(hash[..]), old(view).entries[publicKey].sum)
    {
      hide Shaped, KeysOf, Without, Xor;
      if publicKey in idx {
        var it := idx[publicKey].value;
        ItemOf(publicKey);
        XorAssign(hash, it.digest);
        var item := Forget(it.index);
        assert idx - {publicKey} == idx;
        idx := idx - {publicKey};
      }
    }

    /** What the expiry loop does once the file of the root item is gone.  The item leaves the heap
        first, so the unTrack that follows finds nothing to do, and its digest is taken out of the
        running hash exactly once. */
    method PopExpired()
      requires Valid() && |heap| > 0
      modifies this`heap, this`idx, this`lru, this`items, this`exps, this`view, items`index, hash
      ensures Valid() && items <= old(items)
      ensures old(heap[0].publicKey in view.entries) && view == old(view).Drop(old(heap[0].publicKey))
    {
      hide Shaped, Mirrored, XorAll, Sums, Without;
      RootIsEarliest();
      var it := heap[0];
      SumsSet(view.entries, it.publicKey, Entry(0, ZERO));
      XorAllDrop(Sums(view.entries), it.publicKey);
      var _ := Forget(0);
      UnTrack(it.publicKey);
      XorAssign(hash, it.digest);
    }

    /** An item that is already tracked gets new data. */
    method Retrack(publicKey: string, exp: int, digest: Digest)
      requires Shaped() && Mirrored() && publicKey in idx
      modifies this`heap, this`exps, this`view, items
      ensures Shaped() && Mirrored()
      ensures view == old(view).Set(publicKey, Entry(exp, digest))
    {
      hide Shaped, KeysOf;
      ItemOf(publicKey);
      var i := idx[publicKey].value;
      i.digest := digest;
      Reschedule(i, exp);
      view := view.Set(publicKey, Entry(exp, digest));
    }

    /** A new item enters the heap, the index, the list and the view. */
    method Enter(item: JwtItem)
      requires Shaped() && Mirrored() && item.publicKey !in idx
      modifies this`heap, this`idx, this`lru, this`items, this`exps, this`view, items`index, item`index
      ensures Shaped() && Mirrored() && items == old(items) + {item}
      ensures view == old(view).Set(item.publicKey, Entry(item.expiration, item.digest))
    {
      hide Shaped, KeysOf;
      HeapPush(item);
      view := view.Set(item.publicKey, Entry(item.expiration, item.digest));
      assert view.entries.Keys == idx.Keys;
      forall it | it in items
        ensures it.publicKey in view.entries && view.entries[it.publicKey] == Entry(it.expiration, it.digest)
      {
        assert it == item || it in old(items);
      }
    }

    method Track(publicKey: string, digest: Digest, exp: int)
      requires Valid()
      modifies this`heap, this`idx, this`lru, this`items, this`exps, this`view, items, hash
      ensures Valid() && fresh(items - old(items))
      ensures view == old(view).Set(publicKey, Entry(exp, digest))
    {
      hide Shaped, Mirrored, XorAll, Xor, Sums;
      EntryOf(publicKey);
      XorAllSet(Sums(view.entries), publicKey, digest);
      SumsSet(view.entries, publicKey, Entry(exp, digest));
      if publicKey in idx {
        XorAssign(hash, idx[publicKey].value.digest);
        Retrack(publicKey, exp, digest);
      } else {
        var item := new JwtItem(publicKey, exp, digest);
        Enter(item);
      }
      XorAssign(hash, digest);
    }
  }
}
