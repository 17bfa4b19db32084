/** What the operations of a JWT store keep. */
module JwtStoreFacts {
  import opened Basics
  import opened Digests
  import opened ExpirationTracking
  import opened JwtStoreSpec

  lemma {:induction false} TrackAllIs(cfg: Config, files: map<string, string>, walk: seq<string>, now: int)
    requires Distinct(walk) && forall k :: k in walk ==> k in files
    ensures var t := TrackAll(cfg, files, walk, now);
            && t.order == walk
            && t.entries == map k | k in walk :: EntryFor(cfg, files[k], now)
  {
    if walk != [] {
      TrackAllIs(cfg, files, walk[..|walk| - 1], now);
    }
  }

  lemma TrackNone(cfg: Config, files: map<string, string>, walk: seq<string>, now: int)
    ensures TrackAll(cfg, files, walk[..0], now) == EMPTY.tracked
  {
  }

  lemma TrackAllStep(cfg: Config, files: map<string, string>, walk: seq<string>, i: nat, now: int)
    requires i < |walk| && forall k :: k in walk ==> k in files
    ensures TrackAll(cfg, files, walk[..i + 1], now)
         == TrackAll(cfg, files, walk[..i], now).Set(walk[i], EntryFor(cfg, files[walk[i]], now))
  {
    assert walk[..i + 1][..i] == walk[..i];
  }

  lemma TrackAllSynced(cfg: Config, files: map<string, string>, walk: seq<string>, now: int)
    requires IsWalk(walk, files)
    ensures Synced(cfg, Store(files, TrackAll(cfg, files, walk, now)))
  {
    TrackAllIs(cfg, files, walk, now);
  }

  lemma TouchKeeps(cfg: Config, s: Store, k: string, now: int)
    requires Synced(cfg, s)
    ensures Synced(cfg, Touch(cfg, s, k, now))
  {
    WithoutDistinct(s.tracked.order, k);
  }

  lemma PutKeeps(cfg: Config, s: Store, k: string, jwt: string, now: int)
    requires Synced(cfg, s)
    ensures Synced(cfg, Put(cfg, s, k, jwt, now))
  {
  }

  lemma RemoveKeeps(cfg: Config, s: Store, k: string)
    requires Synced(cfg, s)
    ensures Synced(cfg, Remove(s, k))
  {
    WithoutDistinct(s.tracked.order, k);
  }

  lemma WriteKeeps(cfg: Config, s: Store, k: string, jwt: string, now: int, disk: Disk)
    requires Synced(cfg, s)
    ensures Synced(cfg, Write(cfg, s, k, jwt, now, disk).0)
  {
    hide Synced, Touch, Put, Remove;
    TouchKeeps(cfg, s, k, now);
    PutKeeps(cfg, s, k, jwt, now);
    PutKeeps(cfg, Touch(cfg, s, k, now), k, jwt, now);
    if s.tracked.order != [] {
      RemoveKeeps(cfg, s, s.tracked.order[0]);
      PutKeeps(cfg, Remove(s, s.tracked.order[0]), k, jwt, now);
    }
  }

  /** What a write does to the set of keys and to the list, case by case: an update, ... */
  lemma UpdateShape(cfg: Config, s: Store, k: string, jwt: string, now: int, disk: Disk)
    requires Synced(cfg, s) && jwt != "" && k in s.files
    ensures var t := Write(cfg, s, k, jwt, now, disk).0;
            && t.files.Keys == s.files.Keys
            && t.tracked.order == if cfg.evictOnLimit then Without(s.tracked.order, k) + [k] else s.tracked.order
  {
    hide Due, EntryFor, Without;
  }

  /** ... an addition while there is room, ... */
  lemma AdditionShape(cfg: Config, s: Store, k: string, jwt: string, now: int, disk: Disk)
    requires Synced(cfg, s) && jwt != "" && k !in s.files && |s.tracked.order| < cfg.limit
    ensures var t := Write(cfg, s, k, jwt, now, disk).0;
            if !disk.writeOk then t == s
            else t.files.Keys == s.files.Keys + {k} && t.tracked.order == s.tracked.order + [k]
  {
    hide Due, EntryFor, Without;
  }

  /** ... or an addition to a full store. */
  lemma EvictionShape(cfg: Config, s: Store, k: string, jwt: string, now: int, disk: Disk)
    requires Synced(cfg, s) && jwt != "" && k !in s.files && |s.tracked.order| >= cfg.limit
    ensures var t := Write(cfg, s, k, jwt, now, disk).0;
            var victim := s.tracked.order[0];
            var rest := Without(s.tracked.order, victim);
            if !cfg.evictOnLimit || !disk.removeOk || !cfg.validKey(victim) then t == s
            else if !disk.writeOk then t.files.Keys == s.files.Keys - {victim} && t.tracked.order == rest
            else t.files.Keys == s.files.Keys - {victim} + {k} && t.tracked.order == rest + [k]
  {
    hide Due, EntryFor, Without;
    assert forall j :: j in s.tracked.order <==> j in s.files;
  }

  // ----- expiry -----

  /** Each removed key was tracked, due at the reading that removed it, and due no later than any key
      that stayed longer. */
  ghost predicate RemovedWhenDue(s: Store, removed: seq<string>, clock: nat -> int) {
    && Distinct(removed)
    && (forall i :: 0 <= i < |removed| ==>
          removed[i] in s.tracked.entries && s.tracked.entries[removed[i]].due <= clock(i))
    && (forall i, j :: 0 <= i < j < |removed| ==>
          s.tracked.entries[removed[i]].due <= s.tracked.entries[removed[j]].due)
    && (forall i, k :: 0 <= i < |removed| && k in s.tracked.entries && k !in removed ==>
          s.tracked.entries[removed[i]].due <= s.tracked.entries[k].due)
  }

  /** A pass ends when nothing is due, or at an earliest key whose file could not be removed. */
  ghost predicate PassDone(cfg: Config, s: Store, now: int, removable: string -> bool) {
    || (forall k :: k in s.tracked.entries ==> now < s.tracked.entries[k].due)
    || (exists k :: && k in s.tracked.entries && !CanGo(cfg, k, removable)
                    && s.tracked.entries[k].due <= now
                    && forall j :: j in s.tracked.entries ==> s.tracked.entries[k].due <= s.tracked.entries[j].due)
  }

  lemma {:induction false} RemoveAllIs(s: Store, ks: seq<string>)
    ensures RemoveAll(s, ks).files == map k | k in s.files && k !in ks :: s.files[k]
    ensures RemoveAll(s, ks).tracked.entries == map k | k in s.tracked.entries && k !in ks :: s.tracked.entries[k]
  {
    if ks != [] {
      RemoveAllIs(s, ks[..|ks| - 1]);
      assert ks == ks[..|ks| - 1] + [ks[|ks| - 1]];
    }
  }

  lemma RemoveLast(s: Store, ks: seq<string>, k: string)
    ensures RemoveAll(s, ks + [k]) == Remove(RemoveAll(s, ks), k)
  {
    assert (ks + [k])[..|ks|] == ks;
  }

  lemma RemoveNone(s: Store, clock: nat -> int)
    ensures RemoveAll(s, []) == s && RemovedWhenDue(s, [], clock)
  {
  }

  /** One more round keeps what the pass has promised so far. */
  lemma ExpireStep(s: Store, removed: seq<string>, clock: nat -> int, k: string)
    requires RemovedWhenDue(s, removed, clock)
    requires var es := RemoveAll(s, removed).tracked.entries;
             && k in es && es[k].due <= clock(|removed|)
             && forall j :: j in es ==> es[k].due <= es[j].due
    ensures RemovedWhenDue(s, removed + [k], clock)
    ensures RemoveAll(s, removed + [k]) == Remove(RemoveAll(s, removed), k)
  {
    hide RemoveAll;
    RemoveAllIs(s, removed);
    RemoveLast(s, removed, k);
    assert k !in removed && forall j :: j in s.tracked.entries && j !in removed ==>
             s.tracked.entries[k].due <= s.tracked.entries[j].due by {
      forall j | j in s.tracked.entries && j !in removed
        ensures s.tracked.entries[k].due <= s.tracked.entries[j].due
      {
        assert j in RemoveAll(s, removed).tracked.entries;
      }
    }
  }

  predicate CanGo(cfg: Config, k: string, removable: string -> bool) {
    cfg.validKey(k) && removable(k)
  }

  /** A finished pass leaves a key that is due if and only if there was one that is due and cannot be removed;
      and then it leaves only keys that are due no earlier than such a one, and all that are due later. */
  lemma PassLeaves(cfg: Config, s: Store, removed: seq<string>, clock: nat -> int, removable: string -> bool)
    requires RemovedWhenDue(s, removed, clock) && PassDone(cfg, RemoveAll(s, removed), clock(|removed|), removable)
    requires forall k :: k in removed ==> CanGo(cfg, k, removable)
    ensures var es, left, now := s.tracked.entries, RemoveAll(s, removed).tracked.entries, clock(|removed|);
            && ((exists k :: k in left && left[k].due <= now) <==>
                (exists k :: k in es && es[k].due <= now && !CanGo(cfg, k, removable)))
            && (forall k :: k in left && left[k].due <= now ==>
                  exists j :: j in es && es[j].due <= left[k].due && !CanGo(cfg, j, removable))
            && (forall j, k :: j in es && k in es && !CanGo(cfg, j, removable) && es[j].due < es[k].due ==> k in left)
  {
    hide RemoveAll;
    RemoveAllIs(s, removed);
    var es, left, now := s.tracked.entries, RemoveAll(s, removed).tracked.entries, clock(|removed|);
    assert forall k :: k in es && !CanGo(cfg, k, removable) ==> k in left && left[k] == es[k];
    forall k | k in left && left[k].due <= now
      ensures exists j :: j in es && es[j].due <= left[k].due && es[j].due <= now && !CanGo(cfg, j, removable)
    {
      var j :| && j in left && !CanGo(cfg, j, removable) && left[j].due <= now
               && forall i :: i in left ==> left[j].due <= left[i].due;
      assert j in es && es[j] == left[j] && es[k] == left[k];
    }
    forall j, k | j in es && k in es && !CanGo(cfg, j, removable) && es[j].due < es[k].due
      ensures k in left
    {
      assert j !in removed;
    }
  }
}
