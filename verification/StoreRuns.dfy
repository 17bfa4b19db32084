/** Whole runs of a JWT store: what holds after any sequence of operations. */
module StoreRuns {
  import opened Basics
  import opened Digests
  import opened ExpirationTracking
  import opened JwtStoreSpec
  import opened JwtStoreFacts

  datatype Op =
    | LoadOp(k: string, now: int)
    | SaveOp(k: string, jwt: string, now: int, disk: Disk)
    | SaveIfNewerOp(k: string, jwt: string, now: int, disk: Disk)
    | DeleteOp(k: string, disk: Disk)
    | ExpireOp(k: string)
    | ReloadOp(walk: seq<string>, now: int)

  ghost predicate Enabled(s: Store, op: Op) {
    && (op.ExpireOp? ==> op.k in s.files)
    && (op.ReloadOp? ==> IsWalk(op.walk, s.files))
  }

  ghost function Next(cfg: Config, s: Store, op: Op): (s': Store)
    requires Enabled(s, op)
  {
    match op
    case LoadOp(k, now) => Load(cfg, s, k, now).0
    case SaveOp(k, jwt, now, disk) => Save(cfg, s, k, jwt, now, disk).0
    case SaveIfNewerOp(k, jwt, now, disk) => SaveIfNewer(cfg, s, k, jwt, now, disk).0
    case DeleteOp(k, disk) => Delete(cfg, s, k, disk).0
    case ExpireOp(k) => Remove(s, k)
    case ReloadOp(walk, now) => Store(s.files, TrackAll(cfg, s.files, walk, now))
  }

  /** The states of a run, each reached from the one before by an enabled operation. */
  ghost predicate IsRun(cfg: Config, states: seq<Store>, ops: seq<Op>) {
    && |states| == |ops| + 1
    && forall i :: 0 <= i < |ops| ==> Enabled(states[i], ops[i]) && states[i + 1] == Next(cfg, states[i], ops[i])
  }

  lemma NextKeeps(cfg: Config, s: Store, op: Op)
    requires Synced(cfg, s) && Enabled(s, op)
    ensures Synced(cfg, Next(cfg, s, op))
  {
    hide Synced;
    match op
    case LoadOp(k, now) => TouchKeeps(cfg, s, k, now);
    case SaveOp(k, jwt, now, disk) => WriteKeeps(cfg, s, k, jwt, now, disk);
    case SaveIfNewerOp(k, jwt, now, disk) => WriteKeeps(cfg, s, k, jwt, now, disk);
    case DeleteOp(k, disk) => RemoveKeeps(cfg, s, k);
    case ExpireOp(k) => RemoveKeeps(cfg, s, k);
    case ReloadOp(walk, now) => TrackAllSynced(cfg, s.files, walk, now);
  }

  /** In every state of every run the tracker mirrors the directory. */
  lemma {:induction false} RunKeeps(cfg: Config, states: seq<Store>, ops: seq<Op>, i: nat)
    requires IsRun(cfg, states, ops) && Synced(cfg, states[0]) && i < |states|
    ensures Synced(cfg, states[i])
  {
    hide Synced, Next;
    if i > 0 {
      RunKeeps(cfg, states, ops, i - 1);
      NextKeeps(cfg, states[i - 1], ops[i - 1]);
    }
  }

  /** The store hash is a function of the files alone: two runs of any history that end with the same
      files end with the same hash. */
  lemma HashForgetsHistory(cfg: Config, s: Store, t: Store)
    requires Synced(cfg, s) && Synced(cfg, t) && s.files == t.files
    ensures XorAll(Sums(s.tracked.entries)) == FilesHash(cfg, s.files) == XorAll(Sums(t.tracked.entries))
  {
    assert Sums(s.tracked.entries) == map k | k in s.files :: cfg.sum(s.files[k]);
    assert Sums(t.tracked.entries) == map k | k in t.files :: cfg.sum(t.files[k]);
  }

  // ----- recency -----

  /** The keys an operation loads or writes. */
  ghost function Touched(cfg: Config, s: Store, op: Op): (ks: seq<string>)
    requires Enabled(s, op)
  {
    match op
    case LoadOp(k, _) => if cfg.validKey(k) && k in s.files then [k] else []
    case SaveOp(k, jwt, _, _) =>
      if !cfg.readonly && cfg.validKey(k) && jwt != "" && k in Next(cfg, s, op).files then [k] else []
    case SaveIfNewerOp(k, jwt, _, _) =>
      if Judge(cfg, s, k, jwt) == Accept && jwt != "" && k in Next(cfg, s, op).files then [k] else []
    case DeleteOp(_, _) => []
    case ExpireOp(_) => []
    case ReloadOp(walk, _) => walk
  }

  /** The position of the last occurrence of k in a log, or -1. */
  function Last(log: seq<string>, k: string): (i: int)
    ensures -1 <= i < |log| && (i >= 0 ==> log[i] == k) && (i >= 0 <==> k in log)
    ensures forall j :: i < j < |log| ==> log[j] != k
  {
    if log == [] then -1
    else if log[|log| - 1] == k then |log| - 1
    else Last(log[..|log| - 1], k)
  }

  /** The keys are listed by when they were last touched, longest ago first. */
  ghost predicate ByLastTouch(log: seq<string>, order: seq<string>) {
    && (forall k :: k in order ==> k in log)
    && forall i, j :: 0 <= i < j < |order| ==> Last(log, order[i]) < Last(log, order[j])
  }

  lemma {:induction false} WithoutIsSublist(s: seq<string>, x: string, i: int, j: int) returns (i': int, j': int)
    requires 0 <= i < j < |Without(s, x)|
    ensures 0 <= i' < j' < |s| && s[i'] == Without(s, x)[i] && s[j'] == Without(s, x)[j]
  {
    if s[0] == x {
      i', j' := WithoutIsSublist(s[1..], x, i, j);
      i', j' := i' + 1, j' + 1;
    } else if i > 0 {
      i', j' := WithoutIsSublist(s[1..], x, i - 1, j - 1);
      i', j' := i' + 1, j' + 1;
    } else {
      assert Without(s, x)[j] in s[1..];
      var m :| 0 <= m < |s[1..]| && s[1..][m] == Without(s, x)[j];
      i', j' := 0, m + 1;
    }
  }

  lemma DropByLastTouch(log: seq<string>, order: seq<string>, x: string)
    requires ByLastTouch(log, order)
    ensures ByLastTouch(log, Without(order, x))
  {
    var w := Without(order, x);
    forall i, j | 0 <= i < j < |w|
      ensures Last(log, w[i]) < Last(log, w[j])
    {
      var i', j' := WithoutIsSublist(order, x, i, j);
    }
  }

  lemma LastAppend(log: seq<string>, x: string, k: string)
    ensures Last(log + [x], k) == if k == x then |log| else Last(log, k)
  {
    assert (log + [x])[..|log|] == log;
  }

  /** Moving a key to the back is what touching it calls for. */
  lemma TouchByLastTouch(log: seq<string>, order: seq<string>, k: string)
    requires ByLastTouch(log, order)
    ensures ByLastTouch(log + [k], Without(order, k) + [k])
  {
    DropByLastTouch(log, order, k);
    var w := Without(order, k) + [k];
    forall i, j | 0 <= i < j < |w|
      ensures Last(log + [k], w[i]) < Last(log + [k], w[j])
    {
      LastAppend(log, k, w[i]);
      LastAppend(log, k, w[j]);
      assert w[i] == Without(order, k)[i] && w[i] in Without(order, k);
      if j < |w| - 1 {
        assert w[j] == Without(order, k)[j] && w[j] in Without(order, k);
      }
    }
  }

  lemma {:induction false} WalkByLastTouch(log: seq<string>, walk: seq<string>)
    requires Distinct(walk)
    ensures ByLastTouch(log + walk, walk)
  {
    hide Last, Without;
    if walk != [] {
      hide ByLastTouch;
      var init, k := walk[..|walk| - 1], walk[|walk| - 1];
      WalkByLastTouch(log, init);
      TouchByLastTouch(log + init, init, k);
      WithoutDistinct(init, k);
      assert log + init + [k] == log + walk && init + [k] == walk;
    }
  }

  lemma WriteByLastTouch(cfg: Config, s: Store, k: string, jwt: string, now: int, disk: Disk, log: seq<string>)
    requires cfg.evictOnLimit && Synced(cfg, s) && ByLastTouch(log, s.tracked.order)
    ensures var t := Write(cfg, s, k, jwt, now, disk).0;
            ByLastTouch(log + (if jwt != "" && k in t.files then [k] else []), t.tracked.order)
  {
    hide ByLastTouch, Write, Without;
    var order := s.tracked.order;
    assert log + [] == log;
    if jwt == "" {
      EmptyWrite(cfg, s, k, now, disk);
    } else if k in s.files {
      UpdateShape(cfg, s, k, jwt, now, disk);
      TouchByLastTouch(log, order, k);
    } else if |order| < cfg.limit {
      AdditionShape(cfg, s, k, jwt, now, disk);
      TouchByLastTouch(log, order, k);
      WithoutDistinct(order, k);
    } else {
      EvictionShape(cfg, s, k, jwt, now, disk);
      var rest := Without(order, order[0]);
      DropByLastTouch(log, order, order[0]);
      TouchByLastTouch(log, rest, k);
      WithoutDistinct(order, order[0]);
      WithoutDistinct(rest, k);
    }
  }

  lemma EmptyWrite(cfg: Config, s: Store, k: string, now: int, disk: Disk)
    ensures Write(cfg, s, k, "", now, disk) == (s, Failed)
  {
  }

  lemma StepByLastTouch(cfg: Config, s: Store, op: Op, log: seq<string>)
    requires cfg.evictOnLimit && Synced(cfg, s) && Enabled(s, op) && ByLastTouch(log, s.tracked.order)
    ensures ByLastTouch(log + Touched(cfg, s, op), Next(cfg, s, op).tracked.order)
  {
    hide ByLastTouch, Write;
    var order := s.tracked.order;
    assert log + [] == log;
    match op
    case LoadOp(k, now) => TouchByLastTouch(log, order, k);
    case SaveOp(k, jwt, now, disk) => WriteByLastTouch(cfg, s, k, jwt, now, disk, log);
    case SaveIfNewerOp(k, jwt, now, disk) => WriteByLastTouch(cfg, s, k, jwt, now, disk, log);
    case DeleteOp(k, disk) => DropByLastTouch(log, order, k);
    case ExpireOp(k) => DropByLastTouch(log, order, k);
    case ReloadOp(walk, now) =>
      WalkByLastTouch(log, walk);
      TrackAllIs(cfg, s.files, walk, now);
  }

  /** All the touches of the first n operations of a run. */
  ghost function Log(cfg: Config, states: seq<Store>, ops: seq<Op>, n: nat): (log: seq<string>)
    requires IsRun(cfg, states, ops) && n <= |ops|
  {
    if n == 0 then [] else Log(cfg, states, ops, n - 1) + Touched(cfg, states[n - 1], ops[n - 1])
  }

  /** In every run of an evicting store the LRU list is the order of last load or write. */
  lemma {:induction false} RunByLastTouch(cfg: Config, states: seq<Store>, ops: seq<Op>, n: nat)
    requires IsRun(cfg, states, ops) && n <= |ops| && cfg.evictOnLimit && states[0] == EMPTY
    ensures ByLastTouch(Log(cfg, states, ops, n), states[n].tracked.order)
  {
    hide Next, Last, Touched;
    if n > 0 {
      RunByLastTouch(cfg, states, ops, n - 1);
      RunKeeps(cfg, states, ops, n - 1);
      StepByLastTouch(cfg, states[n - 1], ops[n - 1], Log(cfg, states, ops, n - 1));
    }
  }

  /** So the one key that a write takes away, to make room in a full store, is the one touched longest
      ago. */
  lemma VictimIsLeastRecent(cfg: Config, states: seq<Store>, ops: seq<Op>, n: nat,
                            k: string, jwt: string, now: int, disk: Disk, victim: string)
    requires IsRun(cfg, states, ops) && n <= |ops| && cfg.evictOnLimit && states[0] == EMPTY
    requires victim in states[n].files && victim !in Write(cfg, states[n], k, jwt, now, disk).0.files
    ensures k !in states[n].files && |states[n].files| >= cfg.limit
    ensures forall j :: j in states[n].files && j != victim ==>
              && j in Write(cfg, states[n], k, jwt, now, disk).0.files
              && Last(Log(cfg, states, ops, n), victim) < Last(Log(cfg, states, ops, n), j)
  {
    hide Write, Log, Last;
    RunKeeps(cfg, states, ops, n);
    RunByLastTouch(cfg, states, ops, n);
    VictimOf(cfg, states[n], Log(cfg, states, ops, n), k, jwt, now, disk, victim);
  }

  lemma VictimOf(cfg: Config, s: Store, log: seq<string>, k: string, jwt: string, now: int, disk: Disk, victim: string)
    requires cfg.evictOnLimit && Synced(cfg, s) && ByLastTouch(log, s.tracked.order)
    requires victim in s.files && victim !in Write(cfg, s, k, jwt, now, disk).0.files
    ensures k !in s.files && |s.files| >= cfg.limit
    ensures forall j :: j in s.files && j != victim ==>
              j in Write(cfg, s, k, jwt, now, disk).0.files && Last(log, victim) < Last(log, j)
  {
    hide Write, Last, Without;
    FilesCount(cfg, s);
    if jwt == "" {
      EmptyWrite(cfg, s, k, now, disk);
    } else if k in s.files {
      UpdateShape(cfg, s, k, jwt, now, disk);
    } else if |s.tracked.order| < cfg.limit {
      AdditionShape(cfg, s, k, jwt, now, disk);
    } else {
      EvictionShape(cfg, s, k, jwt, now, disk);
      FrontIsOldest(s, log);
    }
  }

  lemma FrontIsOldest(s: Store, log: seq<string>)
    requires ByLastTouch(log, s.tracked.order) && s.tracked.order != []
    ensures forall j :: j in s.tracked.order && j != s.tracked.order[0] ==> Last(log, s.tracked.order[0]) < Last(log, j)
  {
    forall j | j in s.tracked.order && j != s.tracked.order[0]
      ensures Last(log, s.tracked.order[0]) < Last(log, j)
    {
      var i :| 0 <= i < |s.tracked.order| && s.tracked.order[i] == j;
    }
  }

  // ----- the limit -----

  lemma {:induction false} SeqCount(order: seq<string>, keys: set<string>)
    requires Distinct(order) && forall k :: k in order <==> k in keys
    ensures |order| == |keys|
  {
    DistinctMultiset(order);
    assert (set x | x in order) == keys;
    assert |multiset(order)| == |multiset(keys)|;
  }

  lemma FilesCount(cfg: Config, s: Store)
    requires Synced(cfg, s)
    ensures |s.files| == |s.files.Keys| == |s.tracked.order|
  {
    SeqCount(s.tracked.order, s.files.Keys);
  }

  /** No operation takes a store past its limit, nor past the size it already had. */
  lemma StepCount(cfg: Config, s: Store, op: Op)
    requires Synced(cfg, s) && Enabled(s, op)
    ensures |Next(cfg, s, op).files| <= if |s.files| > cfg.limit then |s.files| else cfg.limit
  {
    hide Write, Without, Synced;
    var t := Next(cfg, s, op);
    FilesCount(cfg, s);
    NextKeeps(cfg, s, op);
    FilesCount(cfg, t);
    match op
    case SaveOp(k, jwt, now, disk) => WriteCount(cfg, s, k, jwt, now, disk);
    case SaveIfNewerOp(k, jwt, now, disk) => WriteCount(cfg, s, k, jwt, now, disk);
    case LoadOp(k, _) =>
    case DeleteOp(_, _) =>
    case ExpireOp(_) =>
    case ReloadOp(_, _) =>
  }

  lemma WriteCount(cfg: Config, s: Store, k: string, jwt: string, now: int, disk: Disk)
    requires Synced(cfg, s)
    ensures var n := |Write(cfg, s, k, jwt, now, disk).0.tracked.order|;
            n <= |s.tracked.order| || n <= cfg.limit
  {
    hide Write, Without;
    var order := s.tracked.order;
    WithoutDistinct(order, k);
    if jwt == "" {
      EmptyWrite(cfg, s, k, now, disk);
    } else if k in s.files {
      UpdateShape(cfg, s, k, jwt, now, disk);
    } else if |order| < cfg.limit {
      AdditionShape(cfg, s, k, jwt, now, disk);
    } else {
      EvictionShape(cfg, s, k, jwt, now, disk);
      WithoutDistinct(order, order[0]);
    }
  }

  /** A full store that does not evict turns a new key away and stays as it is. */
  lemma FullStoreRejects(cfg: Config, s: Store, k: string, jwt: string, now: int, disk: Disk)
    requires Synced(cfg, s) && !cfg.evictOnLimit && |s.files| >= cfg.limit && k !in s.files
    ensures Write(cfg, s, k, jwt, now, disk) == (s, Failed)
  {
    FilesCount(cfg, s);
  }

  lemma {:induction false} RunCount(cfg: Config, states: seq<Store>, ops: seq<Op>, n: nat)
    requires IsRun(cfg, states, ops) && n <= |ops| && Synced(cfg, states[0]) && |states[0].files| <= cfg.limit
    ensures |states[n].files| <= cfg.limit
  {
    hide Synced, Next;
    if n > 0 {
      RunCount(cfg, states, ops, n - 1);
      RunKeeps(cfg, states, ops, n - 1);
      StepCount(cfg, states[n - 1], ops[n - 1]);
    }
  }

  // ----- switching expiry off -----

  /** No tracked key will ever be due. */
  predicate NeverDue(s: Store) {
    forall k :: k in s.tracked.entries ==> s.tracked.entries[k].due == MAX_INT64
  }

  /** An extended expiration lies in the future exactly when the sum fits into 64 bits. */
  lemma ExtensionFits(now: int, ttl: int)
    requires 0 <= now <= MAX_INT64 && 0 < ttl <= MAX_INT64
    ensures now < Wrap64(now + ttl) <==> now + ttl <= MAX_INT64
    ensures now + ttl > MAX_INT64 ==> Wrap64(now + ttl) < 0
  {
    if now + ttl <= MAX_INT64 {
      assert Wrap64(now + ttl) == now + ttl;
    } else {
      assert (now + ttl + 0x8000_0000_0000_0000) % 0x1_0000_0000_0000_0000 == now + ttl - 0x8000_0000_0000_0000;
    }
  }

  /** A write that stops after refreshing a key that is already there. */
  predicate OnlyRefreshes(cfg: Config, s: Store, k: string, jwt: string, disk: Disk) {
    jwt != "" && k in s.files && (cfg.sum(jwt) == cfg.sum(s.files[k]) || !disk.writeOk)
  }

  /** The operations that use a key without tracking it anew. */
  predicate Slips(cfg: Config, s: Store, op: Op) {
    match op
    case LoadOp(k, _) => cfg.validKey(k) && k in s.files
    case SaveOp(k, jwt, _, disk) => !cfg.readonly && cfg.validKey(k) && OnlyRefreshes(cfg, s, k, jwt, disk)
    case SaveIfNewerOp(k, jwt, _, disk) => Judge(cfg, s, k, jwt) == Accept && OnlyRefreshes(cfg, s, k, jwt, disk)
    case _ => false
  }

  /** The clock has started. */
  predicate IsTimed(op: Op) {
    match op
    case LoadOp(_, now) => 0 < now <= MAX_INT64
    case SaveOp(_, _, now, _) => 0 < now <= MAX_INT64
    case SaveIfNewerOp(_, _, now, _) => 0 < now <= MAX_INT64
    case _ => true
  }

  /** The largest ttl is meant to switch expiry off.  Tracking a key respects that, but using a key
      wraps around: an operation keeps the promise if and only if it does not use a key without tracking it
      anew. The key that it uses is then due at once. */
  lemma MaxTtlPromise(cfg: Config, s: Store, op: Op)
    requires cfg.ttl == MAX_INT64 && Synced(cfg, s) && NeverDue(s) && Enabled(s, op) && IsTimed(op)
    ensures NeverDue(Next(cfg, s, op)) <==> !Slips(cfg, s, op)
    ensures Slips(cfg, s, op) ==>
              op.k in Next(cfg, s, op).tracked.entries && Next(cfg, s, op).tracked.entries[op.k].due <= op.now
  {
    hide Wrap64;
    match op
    case LoadOp(k, now) =>
      ExtensionFits(now, MAX_INT64);
      if cfg.validKey(k) && k in s.files {
        assert Next(cfg, s, op).tracked.entries[k].due == Wrap64(now + MAX_INT64);
      }
    case SaveOp(k, jwt, now, disk) =>
      ExtensionFits(now, MAX_INT64);
      MaxTtlWrite(cfg, s, k, jwt, now, disk);
    case SaveIfNewerOp(k, jwt, now, disk) =>
      ExtensionFits(now, MAX_INT64);
      MaxTtlWrite(cfg, s, k, jwt, now, disk);
    case DeleteOp(_, _) =>
    case ExpireOp(_) =>
    case ReloadOp(walk, now) => TrackAllIs(cfg, s.files, walk, now);
  }

  /** So expiry stays switched off throughout a run if and only if no operation of the run does so. */
  lemma MaxTtlRun(cfg: Config, states: seq<Store>, ops: seq<Op>)
    requires IsRun(cfg, states, ops) && cfg.ttl == MAX_INT64 && Synced(cfg, states[0]) && NeverDue(states[0])
    requires forall i :: 0 <= i < |ops| ==> IsTimed(ops[i])
    ensures (forall n :: 0 <= n < |states| ==> NeverDue(states[n])) <==> (forall i :: 0 <= i < |ops| ==> !Slips(cfg, states[i], ops[i]))
  {
    hide Next, Synced, NeverDue, Slips;
    forall i | 0 <= i < |ops|
      ensures NeverDue(states[i]) ==> (NeverDue(states[i + 1]) <==> !Slips(cfg, states[i], ops[i]))
    {
      RunKeeps(cfg, states, ops, i);
      if NeverDue(states[i]) {
        MaxTtlPromise(cfg, states[i], ops[i]);
      }
    }
    if forall i :: 0 <= i < |ops| ==> !Slips(cfg, states[i], ops[i]) {
      for n := 0 to |ops|
        invariant forall m :: 0 <= m <= n ==> NeverDue(states[m])
      {
        assert !Slips(cfg, states[n], ops[n]);
      }
    } else {
      var i :| 0 <= i < |ops| && Slips(cfg, states[i], ops[i]);
      assert !NeverDue(states[i]) || !NeverDue(states[i + 1]);
    }
  }

  lemma MaxTtlWrite(cfg: Config, s: Store, k: string, jwt: string, now: int, disk: Disk)
    requires cfg.ttl == MAX_INT64 && Synced(cfg, s) && NeverDue(s)
    requires Wrap64(now + MAX_INT64) <= now && Wrap64(now + MAX_INT64) != MAX_INT64
    ensures var t := Write(cfg, s, k, jwt, now, disk).0;
            var slips := OnlyRefreshes(cfg, s, k, jwt, disk);
            && (NeverDue(t) <==> !slips)
            && (slips ==> k in t.tracked.entries && t.tracked.entries[k].due <= now)
  {
    hide Wrap64, Without, Touch, Put, Write, NeverDue;
    if jwt != "" && k in s.files {
      MaxTtlUpdate(cfg, s, k, jwt, now, disk);
    } else {
      MaxTtlAdd(cfg, s, k, jwt, now, disk);
    }
  }

  lemma MaxTtlUpdate(cfg: Config, s: Store, k: string, jwt: string, now: int, disk: Disk)
    requires cfg.ttl == MAX_INT64 && Synced(cfg, s) && NeverDue(s) && jwt != "" && k in s.files
    requires Wrap64(now + MAX_INT64) <= now && Wrap64(now + MAX_INT64) != MAX_INT64
    ensures var t := Write(cfg, s, k, jwt, now, disk).0;
            && (NeverDue(t) <==> !OnlyRefreshes(cfg, s, k, jwt, disk)) && k in t.tracked.entries
            && (OnlyRefreshes(cfg, s, k, jwt, disk) ==> t.tracked.entries[k].due <= now)
  {
    hide Wrap64, Without, Touch, Put;
    MaxTtlTouch(cfg, s, k, now);
    MaxTtlPut(cfg, Touch(cfg, s, k, now), k, jwt, now);
    assert s.tracked.entries[k].sum == cfg.sum(s.files[k]);
  }

  lemma MaxTtlAdd(cfg: Config, s: Store, k: string, jwt: string, now: int, disk: Disk)
    requires cfg.ttl == MAX_INT64 && Synced(cfg, s) && NeverDue(s) && (jwt == "" || k !in s.files)
    ensures NeverDue(Write(cfg, s, k, jwt, now, disk).0)
  {
    hide Wrap64, Without, Touch, Put;
    MaxTtlPut(cfg, s, k, jwt, now);
    if s.tracked.order != [] {
      MaxTtlPut(cfg, Remove(s, s.tracked.order[0]), k, jwt, now);
    }
  }

  lemma MaxTtlTouch(cfg: Config, s: Store, k: string, now: int)
    requires cfg.ttl == MAX_INT64
    ensures var es, t := s.tracked.entries, Touch(cfg, s, k, now).tracked.entries;
            && t.Keys == es.Keys && (k in t ==> t[k].due == Wrap64(now + MAX_INT64))
            && (forall j :: j in t && j != k ==> t[j] == es[j])
  {
    hide Wrap64, Without;
  }

  lemma MaxTtlPut(cfg: Config, s: Store, k: string, jwt: string, now: int)
    requires cfg.ttl == MAX_INT64
    ensures var es, t := s.tracked.entries, Put(cfg, s, k, jwt, now).tracked.entries;
            && t.Keys == es.Keys + {k} && t[k].due == MAX_INT64 && (forall j :: j in t && j != k ==> t[j] == es[j])
  {
    hide Wrap64, Without;
  }
}
