/** The directory JWT store: files on disk, mirrored by an expiration tracker. */
module DirJwtStores {
  import opened Basics
  import opened Digests
  import opened ExpirationTracking
  import Spec = JwtStoreSpec
  import opened JwtStoreFacts
  import opened JwtPacks
  import opened Text

  class DirJwtStore {
    const cfg: Spec.Config
    var files: map<string, string>
    const expiration: ExpirationTracker

    ghost function View(): (s: Spec.Store)
      reads this, expiration
    {
      Spec.Store(files, expiration.view)
    }

    ghost predicate Valid()
      reads this, expiration, expiration.items, expiration.hash
    {
      && expiration.Valid()
      && expiration.limit == cfg.limit && expiration.evictOnLimit == cfg.evictOnLimit && expiration.ttl == cfg.ttl
      && Spec.Synced(cfg, View())
    }

    /** Opens a directory that holds the given files and tracks each of them. */
    constructor (cfg: Spec.Config, files: map<string, string>, walk: seq<string>, now: int)
      requires Spec.IsWalk(walk, files)
      ensures Valid() && this.cfg == cfg
      ensures View() == Spec.Store(files, Spec.TrackAll(cfg, files, walk, now))
      ensures fresh(expiration) && fresh(expiration.items) && fresh(expiration.hash)
    {
      this.cfg := cfg;
      this.files := files;
      this.expiration := new ExpirationTracker(cfg.limit, cfg.evictOnLimit, cfg.ttl);
      new;
      TrackFiles(walk, now);
    }

    /** Tracks the files of a walk in an empty tracker. */
    method TrackFiles(walk: seq<string>, now: int)
      requires Spec.IsWalk(walk, files)
      requires expiration.Valid() && expiration.view == Tracked(map[], [])
      requires expiration.limit == cfg.limit && expiration.evictOnLimit == cfg.evictOnLimit && expiration.ttl == cfg.ttl
      modifies expiration, expiration.items, expiration.hash
      ensures Valid() && fresh(expiration.items - old(expiration.items))
      ensures View() == Spec.Store(files, Spec.TrackAll(cfg, files, walk, now))
    {
      hide Spec.Synced, Spec.TrackAll, ExpirationTracker.Valid;
      TrackNone(cfg, files, walk, now);
      for i := 0 to |walk|
        invariant expiration.Valid() && fresh(expiration.items - old(expiration.items))
        invariant expiration.view == Spec.TrackAll(cfg, files, walk[..i], now)
      {
        TrackAllStep(cfg, files, walk, i, now);
        var theJwt := files[walk[i]];
        expiration.Track(walk[i], cfg.sum(theJwt), Spec.Due(cfg, theJwt, now));
      }
      assert walk[..|walk|] == walk;
      TrackAllSynced(cfg, files, walk, now);
    }

    method Reload(walk: seq<string>, now: int)
      requires Valid() && Spec.IsWalk(walk, files)
      modifies expiration, expiration.items, expiration.hash
      ensures Valid() && fresh(expiration.items - old(expiration.items))
      ensures View() == Spec.Store(files, Spec.TrackAll(cfg, files, walk, now))
    {
      expiration.Reset();
      TrackFiles(walk, now);
    }

    method Load(publicKey: string, now: int) returns (r: Option<string>)
      requires Valid()
      modifies expiration, expiration.items
      ensures Valid()
      ensures (View(), r) == Spec.Load(cfg, old(View()), publicKey, now)
    {
      hide Spec.Synced, ExpirationTracker.Shaped, ExpirationTracker.Mirrored, XorAll, Sums;
      TouchKeeps(cfg, View(), publicKey, now);
      if !cfg.validKey(publicKey) || publicKey !in files {
        return None;
      }
      expiration.UpdateTrack(publicKey, now);
      r := Some(files[publicKey]);
    }

    /** The write proper, after room has been made. */
    method Finish(publicKey: string, theJwt: string, now: int, disk: Spec.Disk) returns (r: Spec.Outcome)
      requires Valid()
      modifies this`files, expiration, expiration.items, expiration.hash
      ensures Valid() && fresh(expiration.items - old(expiration.items))
      ensures (View(), r) == Spec.Finish(cfg, old(View()), publicKey, theJwt, now, disk)
    {
      hide Spec.Synced, ExpirationTracker.Shaped, ExpirationTracker.Mirrored, XorAll, Sums;
      if !disk.writeOk {
        return Spec.Failed;
      }
      PutKeeps(cfg, View(), publicKey, theJwt, now);
      files := files[publicKey := theJwt];
      expiration.Track(publicKey, cfg.sum(theJwt), Spec.Due(cfg, theJwt, now));
      r := Spec.Done(true);
    }

    /** What the tracker's fields say about a key, in terms of the view. */
    lemma Looked(publicKey: string)
      requires Valid()
      ensures publicKey in expiration.idx <==> publicKey in View().tracked.entries
      ensures publicKey in expiration.idx ==> expiration.idx[publicKey].value in expiration.items
      ensures publicKey in expiration.idx ==>
                View().tracked.entries[publicKey].sum == expiration.idx[publicKey].value.digest
      ensures |expiration.heap| == |View().tracked.order|
    {
      hide ExpirationTracker.Shaped, ExpirationTracker.Mirrored;
      expiration.EntryOf(publicKey);
      expiration.Counts();
    }

    /** Evicts the least recently used key of a full store, if that is allowed and works. */
    method MakeRoom(disk: Spec.Disk) returns (ok: bool)
      requires Valid() && |expiration.heap| >= cfg.limit
      modifies this`files, expiration, expiration.items, expiration.hash
      ensures Valid() && expiration.items <= old(expiration.items)
      ensures |old(View()).tracked.order| > 0
      ensures var victim := old(View()).tracked.order[0];
              && ok == (cfg.evictOnLimit && disk.removeOk && cfg.validKey(victim))
              && View() == if ok then Spec.Remove(old(View()), victim) else old(View())
    {
      hide Spec.Synced, ExpirationTracker.Shaped, ExpirationTracker.Mirrored, XorAll, Sums;
      expiration.Counts();
      if !expiration.evictOnLimit {
        return false;
      }
      var victim := expiration.lru[0].value.publicKey;
      if !(disk.removeOk && cfg.validKey(victim)) {
        return false;
      }
      Discard(victim);
      ok := true;
    }

    method Write(publicKey: string, theJwt: string, now: int, disk: Spec.Disk) returns (r: Spec.Outcome)
      requires Valid()
      modifies this`files, expiration, expiration.items, expiration.hash
      ensures Valid() && fresh(expiration.items - old(expiration.items))
      ensures (View(), r) == Spec.Write(cfg, old(View()), publicKey, theJwt, now, disk)
    {
      hide Spec.Synced, Spec.Finish, ExpirationTracker.Valid;
      if |theJwt| == 0 {
        return Spec.Failed;
      }
      Looked(publicKey);
      if publicKey in expiration.idx {
        TouchKeeps(cfg, View(), publicKey, now);
        expiration.UpdateTrack(publicKey, now);
        Looked(publicKey);
        if expiration.idx[publicKey].value.digest == cfg.sum(theJwt) {
          return Spec.Done(false);
        }
      } else if |expiration.heap| >= expiration.limit {
        var ok := MakeRoom(disk);
        if !ok {
          return Spec.Failed;
        }
      }
      r := Finish(publicKey, theJwt, now, disk);
    }

    /** Removes a file and stops tracking it. */
    method Discard(publicKey: string)
      requires Valid() && publicKey in expiration.view.entries
      modifies this`files, expiration, expiration.items, expiration.hash
      ensures Valid() && expiration.items <= old(expiration.items)
      ensures View() == Spec.Remove(old(View()), publicKey)
    {
      hide Spec.Synced, ExpirationTracker.Shaped, ExpirationTracker.Mirrored, XorAll, Sums;
      RemoveKeeps(cfg, View(), publicKey);
      SumsSet(expiration.view.entries, publicKey, Entry(0, ZERO));
      XorAllDrop(Sums(expiration.view.entries), publicKey);
      files := files - {publicKey};
      expiration.UnTrack(publicKey);
    }

    method Save(publicKey: string, theJwt: string, now: int, disk: Spec.Disk) returns (r: Spec.Outcome)
      requires Valid()
      modifies this`files, expiration, expiration.items, expiration.hash
      ensures Valid() && fresh(expiration.items - old(expiration.items))
      ensures (View(), r) == Spec.Save(cfg, old(View()), publicKey, theJwt, now, disk)
    {
      if cfg.readonly || !cfg.validKey(publicKey) {
        return Spec.Failed;
      }
      r := Write(publicKey, theJwt, now, disk);
    }

    method SaveIfNewer(publicKey: string, theJwt: string, now: int, disk: Spec.Disk) returns (r: Spec.Outcome)
      requires Valid()
      modifies this`files, expiration, expiration.items, expiration.hash
      ensures Valid() && fresh(expiration.items - old(expiration.items))
      ensures (View(), r) == Spec.SaveIfNewer(cfg, old(View()), publicKey, theJwt, now, disk)
    {
      hide Spec.Synced, Spec.Write, ExpirationTracker.Valid;
      if cfg.readonly || !cfg.validKey(publicKey) {
        return Spec.Failed;
      }
      if publicKey in files {
        var newJwt := cfg.decode(theJwt);
        if newJwt.None? {
          return Spec.Failed;
        }
        var existing := cfg.decode(files[publicKey]);
        if existing.Some? {
          if existing.value.id == newJwt.value.id {
            return Spec.Done(false);
          } else if existing.value.issuedAt > newJwt.value.issuedAt {
            return Spec.Done(false);
          } else if newJwt.value.subject != publicKey {
            return Spec.Failed;
          } else if existing.value.subject != newJwt.value.subject {
            return Spec.Failed;
          }
        }
      }
      r := Write(publicKey, theJwt, now, disk);
    }

    method Delete(publicKey: string, disk: Spec.Disk) returns (r: Spec.Outcome)
      requires Valid()
      modifies this`files, expiration, expiration.items, expiration.hash
      ensures Valid() && expiration.items <= old(expiration.items)
      ensures (View(), r) == Spec.Delete(cfg, old(View()), publicKey, disk)
    {
      if cfg.readonly || cfg.deleteType == Spec.NoDelete {
        return Spec.Failed;
      }
      if !cfg.validKey(publicKey) || publicKey !in files {
        return Spec.Done(false);
      }
      if !disk.removeOk {
        return Spec.Failed;
      }
      Discard(publicKey);
      r := Spec.Done(true);
    }

    /** The digest sent to other servers. */
    method Hash() returns (d: Digest)
      requires Valid()
      ensures d == Spec.FilesHash(cfg, files)
    {
      hide XorAll, ExpirationTracker.Shaped, ExpirationTracker.Mirrored;
      assert Sums(expiration.view.entries) == map k | k in files :: cfg.sum(files[k]);
      d := expiration.hash[..];
    }

    /** One round of the expiry loop in which the file of the earliest item could be removed. */
    method ExpireFirst() returns (publicKey: string)
      requires Valid() && |expiration.heap| > 0
      modifies this`files, expiration, expiration.items, expiration.hash
      ensures Valid() && expiration.items <= old(expiration.items)
      ensures publicKey == old(expiration.heap[0].publicKey)
      ensures View() == Spec.Remove(old(View()), publicKey)
    {
      hide Spec.Synced, ExpirationTracker.Valid;
      publicKey := expiration.heap[0].publicKey;
      RemoveKeeps(cfg, View(), publicKey);
      files := files - {publicKey};
      expiration.PopExpired();
    }

    /** One pass of the expiry loop: the reading of the clock before round i is clock(i), and an
        attempt to remove a file succeeds when removable says so. */
    method ExpirePass(clock: nat -> int, removable: string -> bool) returns (removed: seq<string>)
      requires Valid()
      modifies this`files, expiration, expiration.items, expiration.hash
      ensures Valid()
      ensures View() == Spec.RemoveAll(old(View()), removed)
      ensures RemovedWhenDue(old(View()), removed, clock) && forall k :: k in removed ==> CanGo(cfg, k, removable)
      ensures PassDone(cfg, View(), clock(|removed|), removable)
    {
      hide Spec.Synced, Spec.RemoveAll, RemovedWhenDue, ExpirationTracker.Shaped, ExpirationTracker.Mirrored, XorAll;
      removed := [];
      RemoveNone(View(), clock);
      while true
        invariant Valid() && expiration.items <= old(expiration.items)
        invariant View() == Spec.RemoveAll(old(View()), removed)
        invariant RemovedWhenDue(old(View()), removed, clock) && forall k :: k in removed ==> CanGo(cfg, k, removable)
        decreases |expiration.view.entries|
      {
        if |expiration.heap| == 0 {
          expiration.EmptyHeap();
          break;
        }
        expiration.RootIsEarliest();
        var it := expiration.heap[0];
        if !(it.expiration <= clock(|removed|)) || !(cfg.validKey(it.publicKey) && removable(it.publicKey)) {
          break;
        }
        ExpireStep(old(View()), removed, clock, it.publicKey);
        var k := ExpireFirst();
        removed := removed + [k];
      }
    }

    /** Sends the packable files of a walk in messages of at most maxJwts lines. */
    method PackWalk(maxJwts: int, walk: seq<string>, nowSec: int)
      returns (ok: bool, msgs: seq<string>, ghost chunks: seq<seq<Pair>>)
      requires Valid() && Spec.IsWalk(walk, files)
      ensures ok <==> maxJwts > 0
      ensures ok ==> IsPacking(chunks, maxJwts, Packed(cfg, View(), walk, nowSec))
      ensures msgs == Messages(chunks)
    {
      hide ExpirationTracker.Valid, Spec.Synced, Packed, Packable, Walking, Join;
      ok, msgs, chunks := maxJwts > 0, [], [];
      if !ok {
        return;
      }
      var packMsg: seq<string> := [];
      ghost var pending: seq<Pair> := [];
      WalkStarts(cfg, View(), walk, nowSec, maxJwts);
      for i := 0 to |walk|
        invariant Walking(chunks, pending, msgs, packMsg, maxJwts, Packed(cfg, View(), walk[..i], nowSec))
        invariant |packMsg| < maxJwts
      {
        var k := walk[i];
        ghost var ps := Packed(cfg, View(), walk[..i], nowSec);
        PackedStep(cfg, View(), walk, i, nowSec);
        assert ps + [] == ps;
        var send := Sendable(k, nowSec);
        if send {
          WalkAdds(chunks, pending, msgs, packMsg, maxJwts, ps, (k, files[k]));
          packMsg := packMsg + [Line((k, files[k]))];
          pending := pending + [(k, files[k])];
          if |packMsg| == maxJwts {
            WalkFlushes(chunks, pending, msgs, packMsg, maxJwts, ps + [(k, files[k])]);
            msgs := msgs + [Join(packMsg, '\n')];
            chunks := chunks + [pending];
            packMsg, pending := [], [];
          }
        }
      }
      assert walk[..|walk|] == walk;
      if packMsg != [] {
        WalkCloses(chunks, pending, msgs, packMsg, maxJwts, Packed(cfg, View(), walk, nowSec));
        msgs := msgs + [Join(packMsg, '\n')];
        chunks := chunks + [pending];
      } else {
        WalkEnds(chunks, pending, msgs, maxJwts, Packed(cfg, View(), walk, nowSec));
      }
    }

    /** Whether the walk has a reason to skip a file. */
    method Sendable(publicKey: string, nowSec: int) returns (send: bool)
      requires Valid() && publicKey in files
      ensures send == Packable(cfg, View(), publicKey, nowSec)
    {
      Looked(publicKey);
      if publicKey !in expiration.idx {
        return false;
      }
      var theJwt := files[publicKey];
      if |theJwt| == 0 {
        return false;
      }
      var claim := cfg.decode(theJwt);
      if claim.Some? && claim.value.expires > 0 && claim.value.expires < nowSec {
        return false;
      }
      send := true;
    }

    /** Takes the lines of a pack one by one; an error leaves the lines before it in place. */
    method Merge(pack: string, now: int, disk: string -> Spec.Disk) returns (ok: bool)
      requires Valid()
      modifies this`files, expiration, expiration.items, expiration.hash
      ensures Valid() && fresh(expiration.items - old(expiration.items))
      ensures (View(), ok) == JwtPacks.Merge(cfg, old(View()), pack, now, disk)
    {
      hide ExpirationTracker.Valid, Spec.Synced, Spec.SaveIfNewer;
      var newJwts := Split(pack, '\n');
      for i := 0 to |newJwts|
        invariant Valid() && fresh(expiration.items - old(expiration.items))
        invariant MergeLines(cfg, View(), newJwts[i..], now, disk) == JwtPacks.Merge(cfg, old(View()), pack, now, disk)
      {
        var line := newJwts[i];
        assert newJwts[i..][0] == line && newJwts[i..][1..] == newJwts[i + 1..];
        if line == "" {
          continue;
        }
        var split := Split(line, '|');
        if |split| != 2 {
          return false;
        }
        var publicKey := split[0];
        if !cfg.validAccount(publicKey) {
          return false;
        }
        var r := SaveIfNewer(publicKey, split[1], now, disk(line));
        if r.Failed? {
          return false;
        }
      }
      ok := true;
    }
  }
}
