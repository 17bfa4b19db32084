/** Locks that brokers share through a table of the metadata database, and the sweep that frees those
    held too long. */
module SharedLocks {
  import opened Text

  const GLOBAL_ACCOUNT := "$G"

  /** Ten minutes, in milliseconds. */
  const LEASE: int := 600_000

  /** A row is found by its name and tenant, which are unique together. */
  datatype Key = Key(name: string, tenant: string)

  datatype Row = Row(held: bool, lockedAt: int)

  type Table = map<Key, Row>

  /** The tenant as it is stored when a lock is acquired. */
  function Stored(tenant: string): (t: string) {
    if tenant != GLOBAL_ACCOUNT then Lower(tenant) else tenant
  }

  predicate IsFree(rows: Table, k: Key) {
    k !in rows || !rows[k].held
  }

  function Freed(rows: Table, k: Key): (rows': Table) {
    if k in rows then rows[k := rows[k].(held := false)] else rows
  }

  function Swept(rows: Table, cutoff: int): (rows': Table) {
    map k | k in rows :: if rows[k].held && rows[k].lockedAt < cutoff then rows[k].(held := false) else rows[k]
  }

  /** Unlocking looks the tenant up in lower case, whatever it is. */
  function UnlockKey(name: string, tenant: string): (k: Key) {
    Key(name, Lower(tenant))
  }

  function LockKey(name: string, tenant: string): (k: Key) {
    Key(name, Stored(tenant))
  }

  /** Unlocking finds the row that was locked, if and only if the tenant is not the global account. */
  lemma UnlockFindsLock(name: string, tenant: string)
    ensures UnlockKey(name, tenant) == LockKey(name, tenant) <==> tenant != GLOBAL_ACCOUNT
  {
    assert Lower("$G")[1] == 'g' && "$G"[1] == 'G';
  }

  class LockTable {
    var rows: Table

    constructor ()
      ensures rows == map[]
    {
      rows := map[];
    }

    method GetAndLock(name: string, tenantName: string, now: int) returns (found: bool, locked: bool, lock: Row)
      modifies this
      ensures var k := LockKey(name, tenantName);
              && found && (locked <==> IsFree(old(rows), k))
              && rows == (if locked then old(rows)[k := Row(true, now)] else old(rows))
              && k in rows && lock == rows[k]
    {
      var tenant := tenantName;
      if tenant != GLOBAL_ACCOUNT {
        tenant := Lower(tenant);
      }
      var k := Key(name, tenant);
      var isNew := k !in rows;
      if isNew {
        rows := rows[k := Row(true, now)];
      }
      lock := rows[k];
      if !lock.held {
        rows := rows[k := Row(true, now)];
        lock := rows[k];
      } else if !isNew {
        return true, false, lock;
      }
      return true, true, lock;
    }

    method Unlock(name: string, tenantName: string)
      modifies this
      ensures rows == Freed(old(rows), UnlockKey(name, tenantName))
    {
      var k := Key(name, Lower(tenantName));
      if k in rows {
        rows := rows[k := rows[k].(held := false)];
      }
    }

    method ReleaseStuck(lockedAt: int)
      modifies this
      ensures rows.Keys == old(rows).Keys && forall k :: k in rows ==> rows[k].lockedAt == old(rows)[k].lockedAt
      ensures forall k :: k in rows ==> (IsFree(rows, k) <==> IsFree(old(rows), k) || rows[k].lockedAt < lockedAt)
    {
      rows := Swept(rows, lockedAt);
    }
  }

  // ----- brokers -----

  /** Someone who got a lock, and the time that was written down for it. */
  datatype Holder = Holder(client: nat, name: string, tenant: string, since: int)

  function KeyOf(h: Holder): (k: Key) {
    LockKey(h.name, h.tenant)
  }

  datatype World = World(rows: Table, now: int, holders: set<Holder>)

  datatype Op =
    | Acquire(client: nat, name: string, tenant: string, stamp: int)
    | Unlock(h: Holder)
    | Crash(h: Holder)          // a holder is gone without unlocking
    | Sweep(cutoff: int)
    | Tick(time: int)

  predicate IsApart(tenant: string) {
    tenant == GLOBAL_ACCOUNT || Lower(tenant) != Lower(GLOBAL_ACCOUNT)
  }

  /** The clock is common. A stamp is taken before the lock is, and a sweep's cutoff before the sweep.
      Whoever holds a lock gives it back, or is gone, ten minutes after its stamp at the latest. No tenant
      goes by the global account's name in lower case. */
  predicate IsEnabled(w: World, op: Op) {
    match op
    case Acquire(_, _, tenant, stamp) => stamp <= w.now <= stamp + LEASE && IsApart(tenant)
    case Unlock(h) => h in w.holders
    case Crash(h) => h in w.holders
    case Sweep(cutoff) => cutoff <= w.now - LEASE
    case Tick(time) => w.now <= time && forall h :: h in w.holders ==> time <= h.since + LEASE
  }

  function Next(w: World, op: Op): (w': World) {
    match op
    case Acquire(c, name, tenant, stamp) =>
      var k := LockKey(name, tenant);
      if IsFree(w.rows, k) then w.(rows := w.rows[k := Row(true, stamp)], holders := w.holders + {Holder(c, name, tenant, stamp)})
      else w
    case Unlock(h) => w.(rows := Freed(w.rows, UnlockKey(h.name, h.tenant)), holders := w.holders - {h})
    case Crash(h) => w.(holders := w.holders - {h})
    case Sweep(cutoff) => w.(rows := Swept(w.rows, cutoff))
    case Tick(time) => w.(now := time)
  }

  /** The lock that a holder counts on is in the table as it was taken. */
  predicate IsBacked(w: World, h: Holder) {
    && IsApart(h.tenant) && KeyOf(h) in w.rows && w.rows[KeyOf(h)] == Row(true, h.since)
    && w.now <= h.since + LEASE
  }

  ghost predicate Inv(w: World) {
    && (forall h :: h in w.holders ==> IsBacked(w, h))
    && (forall h1, h2 :: h1 in w.holders && h2 in w.holders && KeyOf(h1) == KeyOf(h2) ==> h1 == h2)
  }

  /** What unlocking looks for is nobody else's lock. */
  lemma UnlockSpares(h: Holder, other: Holder)
    requires IsApart(h.tenant) && IsApart(other.tenant) && KeyOf(h) != KeyOf(other)
    ensures UnlockKey(h.name, h.tenant) != KeyOf(other)
  {
    UnlockFindsLock(h.name, h.tenant);
    UnlockFindsLock(other.name, other.tenant);
  }

  lemma NextKeeps(w: World, op: Op)
    requires Inv(w) && IsEnabled(w, op)
    ensures Inv(Next(w, op))
  {
    hide Lower, Stored, IsApart;
    var w' := Next(w, op);
    match op {
      case Acquire(c, name, tenant, stamp) =>
      case Unlock(h) =>
        forall other | other in w.holders && other != h
          ensures KeyOf(other) != UnlockKey(h.name, h.tenant)
        {
          assert IsBacked(w, other) && IsBacked(w, h);
          UnlockSpares(h, other);
        }
      case Crash(h) =>
      case Sweep(cutoff) =>
      case Tick(time) =>
    }
    forall h | h in w'.holders
      ensures IsBacked(w', h)
    {
      assert h in w.holders ==> IsBacked(w, h);
    }
  }

  /** What is done by anyone leaves the lock of every other holder alone. */
  lemma OthersStayLocked(w: World, op: Op, h: Holder)
    requires Inv(w) && IsEnabled(w, op) && h in w.holders
    requires op.Unlock? || op.Crash? ==> op.h != h
    ensures h in Next(w, op).holders && !IsFree(Next(w, op).rows, KeyOf(h))
  {
    NextKeeps(w, op);
    assert IsBacked(Next(w, op), h);
  }

  ghost predicate IsRun(ws: seq<World>, ops: seq<Op>) {
    && |ws| == |ops| + 1 && ws[0].holders == {}
    && forall i :: 0 <= i < |ops| ==> IsEnabled(ws[i], ops[i]) && ws[i + 1] == Next(ws[i], ops[i])
  }

  /** From any table, with any number of brokers taking, giving back, sweeping and crashing in any order:
      nobody ever holds a lock that someone else holds too. */
  lemma {:induction false} AtMostOneHolder(ws: seq<World>, ops: seq<Op>, i: nat)
    requires IsRun(ws, ops) && i < |ws|
    ensures Inv(ws[i])
    ensures forall h1, h2 :: h1 in ws[i].holders && h2 in ws[i].holders && KeyOf(h1) == KeyOf(h2) ==> h1.client == h2.client
  {
    if i > 0 {
      hide IsEnabled, Next;
      AtMostOneHolder(ws, ops, i - 1);
      NextKeeps(ws[i - 1], ops[i - 1]);
    }
  }

  /** A lock that is given back can be taken again, if and only if it is not the global account's. */
  lemma GivenBackIsFree(w: World, h: Holder)
    requires Inv(w) && h in w.holders
    ensures IsFree(Next(w, Unlock(h)).rows, KeyOf(h)) <==> h.tenant != GLOBAL_ACCOUNT
  {
    UnlockFindsLock(h.name, h.tenant);
    assert IsBacked(w, h);
  }

  /** A lock that was never given back is free after the first sweep once its time is up, and only then. */
  lemma SweepFreesStuck(w: World, k: Key)
    requires !IsFree(w.rows, k)
    ensures IsFree(Next(w, Sweep(w.now - LEASE)).rows, k) <==> w.rows[k].lockedAt + LEASE < w.now
  {
  }

  /** With a tenant of that name in lower case the global account's unlocking frees the tenant's lock, which
      someone else may then take as well. */
  lemma LowGlobalIsShared(w: World, g: Holder, h: Holder, c: nat)
    requires g in w.holders && h in w.holders && g != h && g.name == h.name && h.client != c
    requires g.tenant == GLOBAL_ACCOUNT && h.tenant == Lower(GLOBAL_ACCOUNT)
    requires KeyOf(h) in w.rows && w.rows[KeyOf(h)].held
    ensures var w' := Next(Next(w, Unlock(g)), Acquire(c, h.name, h.tenant, w.now));
            h in w'.holders && Holder(c, h.name, h.tenant, w.now) in w'.holders
  {
    assert Lower("$G") == "$g" && Lower("$g") == "$g";
  }

  /** A holder that overstays its ten minutes is not alone any more after a sweep. */
  lemma OverstayedIsShared(w: World, h: Holder, c: nat, late: int)
    requires Inv(w) && h in w.holders && c != h.client && late > h.since + LEASE
    ensures var w1 := Next(w, Tick(late));
            var w2 := Next(w1, Sweep(late - LEASE));
            var w3 := Next(w2, Acquire(c, h.name, h.tenant, late));
            !IsEnabled(w, Tick(late)) && h in w3.holders && Holder(c, h.name, h.tenant, late) in w3.holders
  {
    assert IsBacked(w, h);
    var w1 := Next(w, Tick(late));
    SweepFreesStuck(w1, KeyOf(h));
  }
}
