/** Packs: the text in which servers exchange the JWTs of their stores. */
module JwtPacks {
  import opened Basics
  import opened ExpirationTracking
  import opened JwtStoreSpec
  import opened JwtStoreFacts
  import opened Text

  /** A public key and its JWT. */
  type Pair = (string, string)

  /** Only indexed, non-empty JWTs that have not expired are sent; nowSec is the time in seconds. */
  predicate Packable(cfg: Config, s: Store, k: string, nowSec: int) {
    && k in s.files && k in s.tracked.entries && s.files[k] != ""
    && !(cfg.decode(s.files[k]).Some? && 0 < cfg.decode(s.files[k]).value.expires < nowSec)
  }

  /** The pairs a walk of the directory finds to send. */
  function Packed(cfg: Config, s: Store, walk: seq<string>, nowSec: int): (ps: seq<Pair>) {
    if walk == [] then [] else
      var k := walk[|walk| - 1];
      Packed(cfg, s, walk[..|walk| - 1], nowSec) + if Packable(cfg, s, k, nowSec) then [(k, s.files[k])] else []
  }

  function Line(p: Pair): (line: string) {
    p.0 + "|" + p.1
  }

  function Lines(ps: seq<Pair>): (lines: seq<string>)
    ensures |lines| == |ps| && forall i :: 0 <= i < |ps| ==> lines[i] == Line(ps[i])
  {
    seq(|ps|, i requires 0 <= i < |ps| => Line(ps[i]))
  }

  function Message(ps: seq<Pair>): (msg: string) {
    Join(Lines(ps), '\n')
  }

  function Messages(chunks: seq<seq<Pair>>): (msgs: seq<string>)
    ensures |msgs| == |chunks| && forall i :: 0 <= i < |chunks| ==> msgs[i] == Message(chunks[i])
  {
    seq(|chunks|, i requires 0 <= i < |chunks| => Message(chunks[i]))
  }

  function Flatten<T>(xss: seq<seq<T>>): (xs: seq<T>) {
    if xss == [] then [] else Flatten(xss[..|xss| - 1]) + xss[|xss| - 1]
  }

  /** A division into chunks of at most max pairs, all of them full except perhaps the last. */
  ghost predicate IsPacking(chunks: seq<seq<Pair>>, max: int, ps: seq<Pair>) {
    && Flatten(chunks) == ps
    && (forall c :: c in chunks ==> 0 < |c| <= max)
    && (forall i :: 0 <= i < |chunks| - 1 ==> |chunks[i]| == max)
  }

  /** The two fields of a line, if it has exactly two. */
  function ParseLine(line: string): (p: Option<Pair>) {
    var fields := Split(line, '|');
    if |fields| == 2 then Some((fields[0], fields[1])) else None
  }

  /** Merge of the remaining lines; it stops at the first line that cannot be taken. */
  function MergeLines(cfg: Config, s: Store, lines: seq<string>, now: int, disk: string -> Disk): (r: (Store, bool))
    decreases |lines|
  {
    if lines == [] then (s, true)
    else if lines[0] == "" then MergeLines(cfg, s, lines[1..], now, disk)
    else
      match ParseLine(lines[0])
      case None => (s, false)
      case Some(p) =>
        if !cfg.validAccount(p.0) then (s, false)
        else
          var r := SaveIfNewer(cfg, s, p.0, p.1, now, disk(lines[0]));
          if r.1.Failed? then (r.0, false) else MergeLines(cfg, r.0, lines[1..], now, disk)
  }

  function Merge(cfg: Config, s: Store, pack: string, now: int, disk: string -> Disk): (r: (Store, bool)) {
    MergeLines(cfg, s, Split(pack, '\n'), now, disk)
  }

  /** A pair that survives the trip: neither part holds a separator. */
  predicate Clean(p: Pair) {
    '\n' !in p.0 && '|' !in p.0 && '\n' !in p.1 && '|' !in p.1
  }

  lemma LineRoundTrip(p: Pair)
    requires Clean(p)
    ensures ParseLine(Line(p)) == Some(p)
    ensures '\n' !in Line(p) && Line(p) != ""
  {
    SplitFirst(p.0, '|', p.1);
    SplitPlain(p.1, '|');
    assert Line(p) == p.0 + ['|'] + p.1;
  }

  /** Splitting a message into lines and fields recovers exactly the pairs that were sent. */
  lemma MessageRoundTrip(ps: seq<Pair>)
    requires ps != [] && forall p :: p in ps ==> Clean(p)
    ensures var lines := Split(Message(ps), '\n');
            |lines| == |ps| && forall i :: 0 <= i < |ps| ==> lines[i] != "" && ParseLine(lines[i]) == Some(ps[i])
  {
    forall i | 0 <= i < |ps|
      ensures '\n' !in Lines(ps)[i] && Lines(ps)[i] != "" && ParseLine(Lines(ps)[i]) == Some(ps[i])
    {
      LineRoundTrip(ps[i]);
    }
    SplitJoin(Lines(ps), '\n');
  }

  lemma PackedStep(cfg: Config, s: Store, walk: seq<string>, i: nat, nowSec: int)
    requires i < |walk|
    ensures Packed(cfg, s, walk[..i + 1], nowSec)
         == Packed(cfg, s, walk[..i], nowSec)
            + if Packable(cfg, s, walk[i], nowSec) then [(walk[i], s.files[walk[i]])] else []
  {
    assert walk[..i + 1][..i] == walk[..i];
  }

  /** A walk sends exactly the packable files, each once. */
  lemma {:induction false} PackedIs(cfg: Config, s: Store, walk: seq<string>, nowSec: int)
    requires Distinct(walk)
    ensures var ps := Packed(cfg, s, walk, nowSec);
            && Distinct(ps)
            && forall k, j :: (k, j) in ps <==> k in walk && Packable(cfg, s, k, nowSec) && j == s.files[k]
  {
    if walk != [] {
      PackedIs(cfg, s, walk[..|walk| - 1], nowSec);
    }
  }

  /** Where a walk stands: the closed chunks are full, and the pending pairs are not sent yet. */
  ghost predicate Walking(chunks: seq<seq<Pair>>, pending: seq<Pair>, msgs: seq<string>, packMsg: seq<string>,
                          max: int, ps: seq<Pair>) {
    && (forall c :: c in chunks ==> |c| == max)
    && Flatten(chunks) + pending == ps
    && msgs == Messages(chunks) && packMsg == Lines(pending) && |pending| <= max
  }

  lemma FlattenAppend<T>(xss: seq<seq<T>>, xs: seq<T>)
    ensures Flatten(xss + [xs]) == Flatten(xss) + xs
  {
    assert (xss + [xs])[..|xss|] == xss;
  }

  lemma PackingGrows(chunks: seq<seq<Pair>>, pending: seq<Pair>, max: int)
    requires (forall c :: c in chunks ==> |c| == max) && 0 < |pending| <= max
    ensures IsPacking(chunks + [pending], max, Flatten(chunks) + pending)
  {
    hide Flatten;
    FlattenAppend(chunks, pending);
    forall i | 0 <= i < |chunks|
      ensures |(chunks + [pending])[i]| == max
    {
      assert chunks[i] in chunks;
    }
  }

  lemma WalkStarts(cfg: Config, s: Store, walk: seq<string>, nowSec: int, max: int)
    requires max > 0
    ensures Walking([], [], [], [], max, Packed(cfg, s, walk[..0], nowSec))
  {
  }

  lemma WalkEnds(chunks: seq<seq<Pair>>, pending: seq<Pair>, msgs: seq<string>, max: int, ps: seq<Pair>)
    requires Walking(chunks, pending, msgs, [], max, ps) && max > 0
    ensures IsPacking(chunks, max, ps) && msgs == Messages(chunks)
  {
    assert pending == [];
    assert Flatten(chunks) + [] == Flatten(chunks);
  }

  lemma WalkAdds(chunks: seq<seq<Pair>>, pending: seq<Pair>, msgs: seq<string>, packMsg: seq<string>,
                 max: int, ps: seq<Pair>, p: Pair)
    requires Walking(chunks, pending, msgs, packMsg, max, ps) && |packMsg| < max
    ensures Walking(chunks, pending + [p], msgs, packMsg + [Line(p)], max, ps + [p])
  {
    assert Flatten(chunks) + (pending + [p]) == ps + [p];
  }

  /** A chunk is closed when it is full, or when the walk is over. */
  lemma WalkCloses(chunks: seq<seq<Pair>>, pending: seq<Pair>, msgs: seq<string>, packMsg: seq<string>,
                   max: int, ps: seq<Pair>)
    requires Walking(chunks, pending, msgs, packMsg, max, ps) && packMsg != [] && max > 0
    ensures IsPacking(chunks + [pending], max, ps)
    ensures msgs + [Join(packMsg, '\n')] == Messages(chunks + [pending])
  {
    hide Flatten, Join, IsPacking;
    PackingGrows(chunks, pending, max);
  }

  lemma WalkFlushes(chunks: seq<seq<Pair>>, pending: seq<Pair>, msgs: seq<string>, packMsg: seq<string>,
                    max: int, ps: seq<Pair>)
    requires Walking(chunks, pending, msgs, packMsg, max, ps) && |packMsg| == max > 0
    ensures Walking(chunks + [pending], [], msgs + [Join(packMsg, '\n')], [], max, ps)
  {
    hide Flatten, Join;
    WalkCloses(chunks, pending, msgs, packMsg, max, ps);
    FlattenAppend(chunks, pending);
    assert ps + [] == ps;
  }
}
