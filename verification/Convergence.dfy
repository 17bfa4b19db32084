/** Replication: stores that exchange packs end up with the newest JWT of every key. */
module Convergence {
  import opened Basics
  import opened Digests
  import opened ExpirationTracking
  import opened JwtStoreSpec
  import opened JwtStoreFacts
  import opened JwtPacks
  import opened StoreRuns
  import opened Text

  const OK: Disk := Disk(true, true)

  function Issued(cfg: Config, jwt: string): (t: int) {
    match cfg.decode(jwt)
    case Some(claims) => claims.issuedAt
    case None => 0
  }

  /** A well-formed account JWT that does not expire, filed under its own subject. */
  predicate Good(cfg: Config, p: Pair) {
    && Clean(p) && p.1 != "" && cfg.validKey(p.0) && cfg.validAccount(p.0)
    && cfg.decode(p.1).Some? && cfg.decode(p.1).value.subject == p.0 && cfg.decode(p.1).value.expires <= 0
  }

  ghost function KeysIn(all: set<Pair>): (ks: set<string>) {
    set p | p in all :: p.0
  }

  /** All the JWTs in circulation: well formed, those of one key told apart by issue time, by id and by
      digest, and no more keys than a store may hold. */
  ghost predicate World(cfg: Config, all: set<Pair>) {
    && !cfg.readonly
    && (forall p :: p in all ==> Good(cfg, p))
    && (forall p, q :: p in all && q in all && p.0 == q.0 && p != q ==>
          && Issued(cfg, p.1) != Issued(cfg, q.1)
          && cfg.decode(p.1).value.id != cfg.decode(q.1).value.id
          && cfg.sum(p.1) != cfg.sum(q.1))
    && |KeysIn(all)| <= cfg.limit
  }

  ghost function Content(files: map<string, string>): (ps: set<Pair>) {
    set k | k in files :: (k, files[k])
  }

  ghost predicate LivesIn(cfg: Config, s: Store, all: set<Pair>) {
    Synced(cfg, s) && Content(s.files) <= all
  }

  /** The files hold, for each key of some pairs, the one issued last. */
  ghost predicate IsNewest(cfg: Config, files: map<string, string>, ps: set<Pair>) {
    && files.Keys == KeysIn(ps)
    && Content(files) <= ps
    && forall p :: p in ps ==> p.0 in files && Issued(cfg, p.1) <= Issued(cfg, files[p.0])
  }

  lemma SameIssueSameJwt(cfg: Config, all: set<Pair>, p: Pair, q: Pair)
    requires World(cfg, all) && p in all && q in all && p.0 == q.0 && Issued(cfg, p.1) == Issued(cfg, q.1)
    ensures p == q
  {
  }

  lemma NewestIsUnique(cfg: Config, all: set<Pair>, ps: set<Pair>, f: map<string, string>, g: map<string, string>)
    requires World(cfg, all) && ps <= all && IsNewest(cfg, f, ps) && IsNewest(cfg, g, ps)
    ensures f == g
  {
    hide World;
    forall k | k in f
      ensures f[k] == g[k]
    {
      assert (k, f[k]) in Content(f) && (k, g[k]) in Content(g);
      if f[k] != g[k] {
        SameIssueSameJwt(cfg, all, (k, f[k]), (k, g[k]));
      }
    }
  }

  /** What saveIfNewer comes to in such a world. */
  function Newer(cfg: Config, files: map<string, string>, p: Pair): (files': map<string, string>) {
    if p.0 in files && Issued(cfg, p.1) <= Issued(cfg, files[p.0]) then files else files[p.0 := p.1]
  }

  /** There is always room for a key of the world. */
  lemma RoomForKey(cfg: Config, all: set<Pair>, s: Store, k: string)
    requires World(cfg, all) && LivesIn(cfg, s, all) && k in KeysIn(all) && k !in s.files
    ensures |s.tracked.order| < cfg.limit
  {
    FilesCount(cfg, s);
    assert s.files.Keys <= KeysIn(all) by {
      forall j | j in s.files ensures j in KeysIn(all) {
        assert (j, s.files[j]) in Content(s.files);
      }
    }
    Smaller(s.files.Keys, KeysIn(all), k);
  }

  lemma Smaller(a: set<string>, b: set<string>, k: string)
    requires a <= b && k in b && k !in a
    ensures |a| < |b|
  {
    assert |b| == |a| + |b - a|;
    assert k in b - a;
  }

  /** saveIfNewer keeps the newer of two JWTs, so it never lowers a key's issue time. */
  lemma SaveKeepsNewer(cfg: Config, all: set<Pair>, s: Store, p: Pair, now: int)
    requires World(cfg, all) && LivesIn(cfg, s, all) && p in all
    ensures var r := SaveIfNewer(cfg, s, p.0, p.1, now, OK);
            r.1.Done? && r.0.files == Newer(cfg, s.files, p) && LivesIn(cfg, r.0, all)
    ensures p.0 in s.files ==> Issued(cfg, s.files[p.0]) <= Issued(cfg, Newer(cfg, s.files, p)[p.0])
  {
    SaveFiles(cfg, all, s, p, now);
    WriteKeeps(cfg, s, p.0, p.1, now, OK);
    ContentNewer(cfg, all, s.files, p);
    hide Write;
  }

  /** Nor does it in any store, whatever the configuration and however the disk fails. */
  lemma IssueTimesRise(cfg: Config, s: Store, k: string, jwt: string, now: int, disk: Disk, j: string)
    requires Synced(cfg, s) && j in s.files && cfg.decode(s.files[j]).Some?
    ensures var files := SaveIfNewer(cfg, s, k, jwt, now, disk).0.files;
            j in files ==> cfg.decode(files[j]).Some? && Issued(cfg, s.files[j]) <= Issued(cfg, files[j])
  {
    hide Without, Due, EntryFor;
    assert forall x :: x in s.tracked.order <==> x in s.files;
  }

  lemma SaveFiles(cfg: Config, all: set<Pair>, s: Store, p: Pair, now: int)
    requires World(cfg, all) && LivesIn(cfg, s, all) && p in all
    ensures var r := SaveIfNewer(cfg, s, p.0, p.1, now, OK);
            r.1.Done? && r.0.files == Newer(cfg, s.files, p)
  {
    hide Without, Due, EntryFor;
    if p.0 in s.files {
      assert (p.0, s.files[p.0]) in Content(s.files);
    } else {
      RoomForKey(cfg, all, s, p.0);
    }
  }

  lemma ContentNewer(cfg: Config, all: set<Pair>, files: map<string, string>, p: Pair)
    requires Content(files) <= all && p in all
    ensures Content(Newer(cfg, files, p)) <= all
  {
    forall q | q in Content(Newer(cfg, files, p))
      ensures q in all
    {
      assert q == p || q in Content(files);
    }
  }

  lemma NewerIsNewest(cfg: Config, files: map<string, string>, ps: set<Pair>, p: Pair)
    requires IsNewest(cfg, files, ps)
    ensures IsNewest(cfg, Newer(cfg, files, p), ps + {p})
  {
    var files' := Newer(cfg, files, p);
    assert KeysIn(ps + {p}) == KeysIn(ps) + {p.0};
    forall q | q in Content(files')
      ensures q in ps + {p}
    {
      assert q == p || q in Content(files);
    }
  }

  /** Saving pairs one after the other. */
  function Absorb(cfg: Config, s: Store, ps: seq<Pair>, now: int): (s': Store) {
    if ps == [] then s else
      var t := Absorb(cfg, s, ps[..|ps| - 1], now);
      SaveIfNewer(cfg, t, ps[|ps| - 1].0, ps[|ps| - 1].1, now, OK).0
  }

  lemma {:induction false} AbsorbIsNewest(cfg: Config, all: set<Pair>, s: Store, ps: seq<Pair>, now: int)
    requires World(cfg, all) && LivesIn(cfg, s, all) && forall p :: p in ps ==> p in all
    ensures LivesIn(cfg, Absorb(cfg, s, ps, now), all)
    ensures IsNewest(cfg, Absorb(cfg, s, ps, now).files, Content(s.files) + set p | p in ps)
  {
    hide SaveIfNewer, IsNewest, LivesIn, World, Newer;
    if ps == [] {
      OwnContent(cfg, s.files);
      assert Content(s.files) + (set p | p in ps) == Content(s.files);
    } else {
      var init, last := ps[..|ps| - 1], ps[|ps| - 1];
      AbsorbIsNewest(cfg, all, s, init, now);
      var t := Absorb(cfg, s, init, now);
      SaveKeepsNewer(cfg, all, t, last, now);
      NewerIsNewest(cfg, t.files, Content(s.files) + (set p | p in init), last);
      assert (set p | p in ps) == (set p | p in init) + {last};
      assert Content(s.files) + (set p | p in init) + {last} == Content(s.files) + set p | p in ps;
    }
  }

  lemma OwnContent(cfg: Config, files: map<string, string>)
    ensures IsNewest(cfg, files, Content(files))
  {
    forall k | k in files
      ensures k in KeysIn(Content(files))
    {
      assert (k, files[k]) in Content(files);
    }
  }

  /** The order and the number of times in which pairs arrive makes no difference. */
  lemma MergeOrderIsFree(cfg: Config, all: set<Pair>, s: Store, ps: seq<Pair>, qs: seq<Pair>, t1: int, t2: int)
    requires World(cfg, all) && LivesIn(cfg, s, all)
    requires (set p | p in ps) == (set q | q in qs) <= all
    ensures Absorb(cfg, s, ps, t1).files == Absorb(cfg, s, qs, t2).files
  {
    AbsorbIsNewest(cfg, all, s, ps, t1);
    AbsorbIsNewest(cfg, all, s, qs, t2);
    NewestIsUnique(cfg, all, Content(s.files) + (set p | p in ps),
                   Absorb(cfg, s, ps, t1).files, Absorb(cfg, s, qs, t2).files);
  }

  /** Without distinct issue times the law fails: of two different JWTs of one key, issued at the same
      second, the one that comes last stays.  The order is free exactly when the times differ. */
  lemma TiesDependOnOrder(cfg: Config, s: Store, p: Pair, q: Pair, now: int)
    requires !cfg.readonly && Synced(cfg, s) && p.0 == q.0 && q.0 !in s.files && |s.tracked.order| < cfg.limit
    requires Good(cfg, p) && Good(cfg, q)
    requires cfg.decode(p.1).value.id != cfg.decode(q.1).value.id && cfg.sum(p.1) != cfg.sum(q.1)
    ensures Absorb(cfg, s, [p, q], now).files == Absorb(cfg, s, [q, p], now).files
       <==> Issued(cfg, p.1) != Issued(cfg, q.1)
  {
    TwoSaves(cfg, s, p, q, now);
    TwoSaves(cfg, s, q, p, now);
    assert s.files[p.0 := p.1][p.0] != s.files[p.0 := q.1][p.0];
  }

  lemma TwoSaves(cfg: Config, s: Store, p: Pair, q: Pair, now: int)
    requires !cfg.readonly && Synced(cfg, s) && p.0 == q.0 && q.0 !in s.files && |s.tracked.order| < cfg.limit
    requires Good(cfg, p) && Good(cfg, q)
    requires cfg.decode(p.1).value.id != cfg.decode(q.1).value.id && cfg.sum(p.1) != cfg.sum(q.1)
    ensures Absorb(cfg, s, [p, q], now).files
         == s.files[p.0 := if Issued(cfg, p.1) > Issued(cfg, q.1) then p.1 else q.1]
  {
    hide Absorb, Due, Without;
    assert [p, q] == [p] + [q];
    AbsorbInTwo(cfg, s, [p], [q], now);
    AbsorbOne(cfg, s, p, now);
    var t := SaveIfNewer(cfg, s, p.0, p.1, now, OK).0;
    assert t == Put(cfg, s, p.0, p.1, now);
    AbsorbOne(cfg, t, q, now);
    assert s.files[p.0 := p.1][q.0 := q.1] == s.files[p.0 := q.1];
  }

  // ----- packs on the wire -----

  lemma {:induction false} AbsorbInTwo(cfg: Config, s: Store, ps: seq<Pair>, qs: seq<Pair>, now: int)
    ensures Absorb(cfg, s, ps + qs, now) == Absorb(cfg, Absorb(cfg, s, ps, now), qs, now)
    decreases |qs|
  {
    hide SaveIfNewer;
    if qs == [] {
      assert ps + qs == ps;
    } else {
      AbsorbInTwo(cfg, s, ps, qs[..|qs| - 1], now);
      assert (ps + qs)[..|ps + qs| - 1] == ps + qs[..|qs| - 1];
    }
  }

  lemma AbsorbOne(cfg: Config, s: Store, p: Pair, now: int)
    ensures Absorb(cfg, s, [p], now) == SaveIfNewer(cfg, s, p.0, p.1, now, OK).0
  {
    assert [p][..0] == [];
    assert Absorb(cfg, s, [], now) == s;
  }

  /** Merging the lines of some pairs saves those pairs in turn. */
  lemma {:induction false} MergeLinesAbsorbs(cfg: Config, all: set<Pair>, s: Store, ps: seq<Pair>, lines: seq<string>, now: int)
    requires World(cfg, all) && LivesIn(cfg, s, all) && forall p :: p in ps ==> p in all
    requires |lines| == |ps|
    requires forall i :: 0 <= i < |ps| ==> lines[i] != "" && ParseLine(lines[i]) == Some(ps[i])
    ensures MergeLines(cfg, s, lines, now, _ => OK) == (Absorb(cfg, s, ps, now), true)
    decreases |ps|
  {
    hide SaveIfNewer, LivesIn, ParseLine;
    if ps != [] {
      var p := ps[0];
      var t := SaveIfNewer(cfg, s, p.0, p.1, now, OK).0;
      SaveKeepsNewer(cfg, all, s, p, now);
      MergeLinesAbsorbs(cfg, all, t, ps[1..], lines[1..], now);
      AbsorbOne(cfg, s, p, now);
      AbsorbInTwo(cfg, s, [p], ps[1..], now);
      assert [p] + ps[1..] == ps;
    }
  }

  /** Merging messages one after the other, each of them without an error. */
  function MergeAll(cfg: Config, s: Store, msgs: seq<string>, now: int): (r: (Store, bool)) {
    if msgs == [] then (s, true) else
      var r := MergeAll(cfg, s, msgs[..|msgs| - 1], now);
      var t := Merge(cfg, r.0, msgs[|msgs| - 1], now, _ => OK);
      (t.0, r.1 && t.1)
  }

  lemma {:induction false} MergeAllAbsorbs(cfg: Config, all: set<Pair>, s: Store, chunks: seq<seq<Pair>>, now: int)
    requires World(cfg, all) && LivesIn(cfg, s, all)
    requires forall c :: c in chunks ==> |c| > 0
    requires forall p :: p in Flatten(chunks) ==> p in all
    ensures MergeAll(cfg, s, Messages(chunks), now) == (Absorb(cfg, s, Flatten(chunks), now), true)
  {
    hide LivesIn, Message, MergeLines, Absorb, Clean;
    if chunks == [] {
      assert Absorb(cfg, s, [], now) == s by {
        AbsorbNothing(cfg, s, now);
      }
    } else {
      var init, last := chunks[..|chunks| - 1], chunks[|chunks| - 1];
      MergeAllAbsorbs(cfg, all, s, init, now);
      assert Messages(chunks)[..|chunks| - 1] == Messages(init);
      AbsorbIsNewest(cfg, all, s, Flatten(init), now);
      AbsorbInTwo(cfg, s, Flatten(init), last, now);
      forall q | q in last
        ensures q in all && Clean(q)
      {
        assert q in Flatten(chunks);
        assert Good(cfg, q);
      }
      assert last in chunks;
      MessageRoundTrip(last);
      MergeLinesAbsorbs(cfg, all, Absorb(cfg, s, Flatten(init), now), last, Split(Message(last), '\n'), now);
    }
  }

  lemma AbsorbNothing(cfg: Config, s: Store, now: int)
    ensures Absorb(cfg, s, [], now) == s
  {
  }

  /** In such a world a walk sends every file. */
  lemma PackedIsContent(cfg: Config, all: set<Pair>, s: Store, walk: seq<string>, nowSec: int)
    requires World(cfg, all) && LivesIn(cfg, s, all) && IsWalk(walk, s.files)
    ensures (set p | p in Packed(cfg, s, walk, nowSec)) == Content(s.files)
  {
    hide Packed;
    PackedIs(cfg, s, walk, nowSec);
    forall p | p in Content(s.files)
      ensures p in Packed(cfg, s, walk, nowSec)
    {
      assert p in all && Good(cfg, p);
      assert (p.0, p.1) in Packed(cfg, s, walk, nowSec);
    }
    forall p | p in Packed(cfg, s, walk, nowSec)
      ensures p in Content(s.files)
    {
      assert (p.0, p.1) in Packed(cfg, s, walk, nowSec);
    }
  }

  /** Merging all the messages that another store sends gives the newest JWTs of the two. */
  lemma PackReaches(cfg: Config, all: set<Pair>, r: Store, p: Store,
                    walk: seq<string>, chunks: seq<seq<Pair>>, max: int, nowSec: int, now: int)
    requires World(cfg, all) && LivesIn(cfg, r, all) && LivesIn(cfg, p, all)
    requires IsWalk(walk, p.files) && IsPacking(chunks, max, Packed(cfg, p, walk, nowSec))
    ensures var m := MergeAll(cfg, r, Messages(chunks), now);
            && m.1 && LivesIn(cfg, m.0, all)
            && IsNewest(cfg, m.0.files, Content(r.files) + Content(p.files))
  {
    hide Packed, LivesIn, World, IsNewest, Content, Absorb, MergeAll;
    var ps := Packed(cfg, p, walk, nowSec);
    PackedIsContent(cfg, all, p, walk, nowSec);
    ContentLives(cfg, all, p);
    assert forall q :: q in ps ==> q in set x | x in ps;
    MergeAllAbsorbs(cfg, all, r, chunks, now);
    AbsorbIsNewest(cfg, all, r, ps, now);
  }

  lemma ContentLives(cfg: Config, all: set<Pair>, s: Store)
    requires LivesIn(cfg, s, all)
    ensures Content(s.files) <= all
  {
  }

  /** A pack request: a server that already has the responder's hash is sent nothing; otherwise it
      merges every message of the responder's walk. */
  ghost function Request(cfg: Config, r: Store, p: Store, chunks: seq<seq<Pair>>, now: int): (r': Store) {
    if FilesHash(cfg, r.files) == FilesHash(cfg, p.files) then r else MergeAll(cfg, r, Messages(chunks), now).0
  }

  /** Two stores that ask each other in turn end with equal hashes.  Unless equal hashes hid a
      difference from them, they end with equal files, namely the newest JWT of every key that either
      of them had. */
  lemma ExchangeConverges(cfg: Config, all: set<Pair>, r: Store, p: Store, max: int, nowSec: int, now: int,
                          walkP: seq<string>, chunksP: seq<seq<Pair>>, walkR: seq<string>, chunksR: seq<seq<Pair>>)
    requires World(cfg, all) && LivesIn(cfg, r, all) && LivesIn(cfg, p, all)
    requires IsWalk(walkP, p.files) && IsPacking(chunksP, max, Packed(cfg, p, walkP, nowSec))
    requires var r' := Request(cfg, r, p, chunksP, now);
             IsWalk(walkR, r'.files) && IsPacking(chunksR, max, Packed(cfg, r', walkR, nowSec))
    ensures var r' := Request(cfg, r, p, chunksP, now);
            var p' := Request(cfg, p, r', chunksR, now);
            && FilesHash(cfg, r'.files) == FilesHash(cfg, p'.files)
            && (&& (FilesHash(cfg, r.files) == FilesHash(cfg, p.files) ==> r.files == p.files)
                && (FilesHash(cfg, p.files) == FilesHash(cfg, r'.files) ==> p.files == r'.files)
                ==> r'.files == p'.files && IsNewest(cfg, r'.files, Content(r.files) + Content(p.files)))
  {
    hide MergeAll, LivesIn, FilesHash, Packed, IsNewest, World, IsPacking, IsWalk;
    var r' := Request(cfg, r, p, chunksP, now);
    var p' := Request(cfg, p, r', chunksR, now);
    var both := Content(r.files) + Content(p.files);
    PackReaches(cfg, all, r, p, walkP, chunksP, max, nowSec, now);
    PackReaches(cfg, all, p, r', walkR, chunksR, max, nowSec, now);
    OwnContent(cfg, r.files);
    ContentLives(cfg, all, r);
    ContentLives(cfg, all, p);
    if FilesHash(cfg, r.files) == FilesHash(cfg, p.files) {
      assert r.files == p.files ==> both == Content(r.files);
    } else {
      if FilesHash(cfg, p.files) != FilesHash(cfg, r'.files) {
        NewestSettles(cfg, p'.files, r'.files, r.files, p.files);
        NewestIsUnique(cfg, all, both, r'.files, p'.files);
      }
    }
  }

  /** The newest of h and of what is newest already is the newest of all. */
  lemma NewestSettles(cfg: Config, x: map<string, string>,
                      f: map<string, string>, g: map<string, string>, h: map<string, string>)
    requires IsNewest(cfg, f, Content(g) + Content(h)) && IsNewest(cfg, x, Content(h) + Content(f))
    ensures IsNewest(cfg, x, Content(g) + Content(h))
  {
    var ps := Content(g) + Content(h);
    assert Content(h) + Content(f) <= ps;
    forall p | p in ps
      ensures p.0 in x && Issued(cfg, p.1) <= Issued(cfg, x[p.0])
    {
      assert (p.0, f[p.0]) in Content(f);
    }
    assert KeysIn(Content(h) + Content(f)) <= KeysIn(ps);
  }
}
