/** The values a directory JWT store works on, and what each of its operations does to them. */
module JwtStoreSpec {
  import opened Basics
  import opened Digests
  import opened ExpirationTracking

  /** The generic claims of a JWT, as far as the store looks at them. */
  datatype Claims = Claims(id: string, subject: string, issuedAt: int, expires: int)

  datatype DeleteType = NoDelete | RenameDeleted | HardDelete

  /** How a store was opened, with the foreign operations it relies on: the two key checks, the
      digest and the JWT decoder. */
  datatype Options = Options(
    limit: int, evictOnLimit: bool, ttl: int, readonly: bool, deleteType: DeleteType,
    validKey: string -> bool, validAccount: string -> bool, sum: string -> Digest, decode: string -> Option<Claims>)

  /** A store replaces a limit that is not positive by the largest one. */
  type Config = o: Options | 0 < o.limit
    witness Options(1, false, 0, false, NoDelete, _ => true, _ => true, _ => ZERO, _ => None)

  /** The .jwt files of the directory by public key, and what the tracker knows of them. */
  datatype Store = Store(files: map<string, string>, tracked: Tracked)

  /** Whether the file operations of one call succeed. */
  datatype Disk = Disk(removeOk: bool, writeOk: bool)

  datatype Outcome = Done(changed: bool) | Failed

  const EMPTY: Store := Store(map[], Tracked(map[], []))

  /** When a JWT that is tracked now falls due. */
  function Due(cfg: Config, jwt: string, now: int): (exp: int) {
    if cfg.ttl != 0 then
      if cfg.ttl == MAX_INT64 then MAX_INT64 else Wrap64(now + cfg.ttl)
    else
      var claims := cfg.decode(jwt);
      var exp := if claims.Some? then Wrap64(claims.value.expires * 1_000_000_000) else 0;
      if exp == 0 then MAX_INT64 else exp
  }

  function EntryFor(cfg: Config, jwt: string, now: int): (e: Entry) {
    Entry(Due(cfg, jwt, now), cfg.sum(jwt))
  }

  /** The tracked keys are exactly the files, each with the digest of its file, and the list names
      each of them once. */
  ghost predicate Synced(cfg: Config, s: Store) {
    && s.tracked.entries.Keys == s.files.Keys
    && (forall k :: k in s.files ==> s.tracked.entries[k].sum == cfg.sum(s.files[k]))
    && Distinct(s.tracked.order)
    && (forall k :: k in s.tracked.order <==> k in s.files)
  }

  /** The XOR of the digests of all files. */
  ghost function FilesHash(cfg: Config, files: map<string, string>): (d: Digest) {
    XorAll(map k | k in files :: cfg.sum(files[k]))
  }

  // ----- operations -----

  /** The tracker after a directory has been read, its files in the order of the walk. */
  function TrackAll(cfg: Config, files: map<string, string>, walk: seq<string>, now: int): (t: Tracked)
    requires forall k :: k in walk ==> k in files
  {
    if walk == [] then Tracked(map[], []) else
      var k := walk[|walk| - 1];
      TrackAll(cfg, files, walk[..|walk| - 1], now).Set(k, EntryFor(cfg, files[k], now))
  }

  /** A walk visits every file once. */
  ghost predicate IsWalk(walk: seq<string>, files: map<string, string>) {
    Distinct(walk) && forall k :: k in walk <==> k in files
  }

  function Touch(cfg: Config, s: Store, k: string, now: int): (s': Store) {
    s.(tracked := s.tracked.Touch(k, cfg.ttl, cfg.evictOnLimit, now))
  }

  /** load: reading a file counts as a use of its key. */
  function Load(cfg: Config, s: Store, k: string, now: int): (r: (Store, Option<string>)) {
    if !cfg.validKey(k) || k !in s.files then (s, None) else (Touch(cfg, s, k, now), Some(s.files[k]))
  }

  function Put(cfg: Config, s: Store, k: string, jwt: string, now: int): (s': Store) {
    Store(s.files[k := jwt], s.tracked.Set(k, EntryFor(cfg, jwt, now)))
  }

  function Remove(s: Store, k: string): (s': Store) {
    Store(s.files - {k}, s.tracked.Drop(k))
  }

  /** write: an update, an addition, or an addition that first evicts the least recently used key. */
  function Write(cfg: Config, s: Store, k: string, jwt: string, now: int, disk: Disk): (r: (Store, Outcome)) {
    if jwt == "" then (s, Failed)
    else if k in s.tracked.entries then
      var t := Touch(cfg, s, k, now);
      if s.tracked.entries[k].sum == cfg.sum(jwt) then (t, Done(false)) else Finish(cfg, t, k, jwt, now, disk)
    else if |s.tracked.order| < cfg.limit then Finish(cfg, s, k, jwt, now, disk)
    else if !cfg.evictOnLimit then (s, Failed)
    else
      var victim := s.tracked.order[0];
      if disk.removeOk && cfg.validKey(victim) then Finish(cfg, Remove(s, victim), k, jwt, now, disk) else (s, Failed)
  }

  function Finish(cfg: Config, s: Store, k: string, jwt: string, now: int, disk: Disk): (r: (Store, Outcome)) {
    if disk.writeOk then (Put(cfg, s, k, jwt, now), Done(true)) else (s, Failed)
  }

  function Save(cfg: Config, s: Store, k: string, jwt: string, now: int, disk: Disk): (r: (Store, Outcome)) {
    if cfg.readonly || !cfg.validKey(k) then (s, Failed) else Write(cfg, s, k, jwt, now, disk)
  }

  datatype Verdict = Accept | Skip | Reject

  /** What saveIfNewer decides before it writes: a JWT for a key with no file is not looked at. */
  function Judge(cfg: Config, s: Store, k: string, jwt: string): (v: Verdict) {
    if cfg.readonly || !cfg.validKey(k) then Reject
    else if k !in s.files then Accept
    else
      match cfg.decode(jwt)
      case None => Reject
      case Some(got) =>
        match cfg.decode(s.files[k])
        case None => Accept
        case Some(had) =>
          if had.id == got.id || had.issuedAt > got.issuedAt then Skip
          else if got.subject != k || had.subject != got.subject then Reject
          else Accept
  }

  function SaveIfNewer(cfg: Config, s: Store, k: string, jwt: string, now: int, disk: Disk): (r: (Store, Outcome)) {
    match Judge(cfg, s, k, jwt)
    case Accept => Write(cfg, s, k, jwt, now, disk)
    case Skip => (s, Done(false))
    case Reject => (s, Failed)
  }

  /** delete: a missing file is no error. */
  function Delete(cfg: Config, s: Store, k: string, disk: Disk): (r: (Store, Outcome)) {
    if cfg.readonly || cfg.deleteType == NoDelete then (s, Failed)
    else if !cfg.validKey(k) || k !in s.files then (s, Done(false))
    else if disk.removeOk then (Remove(s, k), Done(true))
    else (s, Failed)
  }

  /** Removes keys one after the other. */
  function RemoveAll(s: Store, ks: seq<string>): (s': Store) {
    if ks == [] then s else Remove(RemoveAll(s, ks[..|ks| - 1]), ks[|ks| - 1])
  }
}
