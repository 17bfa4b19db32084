/** The lexer and the parser running together: every input is parsed or rejected in a number of steps
    linear in its length, and no stack ever runs empty on the way. */
module ConfRun {
  import opened Basics
  import opened Text
  import opened ConfLex
  import opened ConfParse
  import opened ConfSafety
  import opened ConfFuel

  /** The lexer's state and fields, the items on their way, the parser, and the item before. */
  datatype Config = Config(state: State, lx: Lexer, queue: seq<Item>, p: Parser, prev: Item)

  datatype Outcome = Rejected | Parsed(mapping: map<string, ConfParse.Value>)

  function KindOf(ctx: Ctx): (k: Kind) {
    if ctx.MapCtx? then InMap else InArray
  }

  /** The containers inside the outermost map. */
  function KindsOf(ctxs: seq<Ctx>): (kinds: seq<Kind>)
    ensures |ctxs| > 0 ==> |kinds| == |ctxs| - 1
  {
    if |ctxs| <= 1 then [] else KindsOf(Init(ctxs)) + [KindOf(Last(ctxs))]
  }

  predicate Rooted(p: Parser) {
    p.ctxs != [] && p.ctxs[0].MapCtx?
  }

  /** What holds before every step and before every item. */
  predicate Inv(c: Config) {
    && Rooted(c.p) && |c.queue| <= 1
    && var kinds, n := KindsOf(c.p.ctxs), |c.p.keys|;
       if c.queue == [] then Ready(c.state, c.lx, kinds, n)
       else
         var typ := c.queue[0].typ;
         if IsTerminal(typ) then c.state == Halt
         else
           && CanFollow(kinds, n, typ) && KeysAfter(kinds, n, typ) >= 0
           && Ready(c.state, c.lx, KindsAfter(kinds, typ), KeysAfter(kinds, n, typ))
  }

  lemma AroundIsTop(ctxs: seq<Ctx>)
    requires ctxs != [] && ctxs[0].MapCtx?
    ensures Around(KindsOf(ctxs)) == KindOf(Last(ctxs))
  {
  }

  /** The parser can take whatever item the lexer sends next. */
  lemma ItemIsTaken(c: Config)
    requires Inv(c) && c.queue != [] && !IsTerminal(c.queue[0].typ)
    ensures CanTake(c.p, c.queue[0].typ)
  {
    AroundIsTop(c.p.ctxs);
    if |c.p.ctxs| >= 2 {
      AroundIsTop(Init(c.p.ctxs));
      assert Init(KindsOf(c.p.ctxs)) == KindsOf(Init(c.p.ctxs));
    }
  }

  lemma KindsOfSet(p: Parser, ctx: Ctx)
    requires Rooted(p) && KindOf(ctx) == KindOf(Last(p.ctxs))
    ensures KindsOf(Init(p.ctxs) + [ctx]) == KindsOf(p.ctxs) && (Init(p.ctxs) + [ctx])[0].MapCtx?
  {
    assert Init(Init(p.ctxs) + [ctx]) == Init(p.ctxs);
  }

  lemma KindsOfPush(p: Parser, ctx: Ctx)
    requires Rooted(p)
    ensures KindsOf(p.ctxs + [ctx]) == KindsOf(p.ctxs) + [KindOf(ctx)] && (p.ctxs + [ctx])[0].MapCtx?
  {
    assert Init(p.ctxs + [ctx]) == p.ctxs;
  }

  lemma SetValueKinds(p: Parser, v: ConfParse.Value)
    requires Rooted(p) && CanSet(p)
    ensures var p' := SetValue(p, v);
            && Rooted(p') && KindsOf(p'.ctxs) == KindsOf(p.ctxs)
            && |p'.keys| == |p.keys| - if Around(KindsOf(p.ctxs)) == InMap then 1 else 0
  {
    AroundIsTop(p.ctxs);
    match Last(p.ctxs)
    case ArrCtx(a) => KindsOfSet(p, ArrCtx(a + [v]));
    case MapCtx(m) => KindsOfSet(p, MapCtx(m[Last(p.keys) := v]));
  }

  /** An item does to the stacks what the lexer counts on; some integers and all includes leave more. */
  lemma ProcessKinds(p: Parser, it: Item, out: Outside)
    requires Rooted(p) && CanTake(p, it.typ)
    ensures var r := Process(p, it, out);
            r.Some? ==>
              && Rooted(r.value) && KindsOf(r.value.ctxs) == KindsAfter(KindsOf(p.ctxs), it.typ)
              && |r.value.keys| >= KeysAfter(KindsOf(p.ctxs), |p.keys|, it.typ)
  {
    hide KindsOf, SetValue, LookupVariable, ParseInt, Multiplier, NumberLength, Lower;
    if SetsValue(it.typ) {
      forall v
        ensures Rooted(SetValue(p, v)) && KindsOf(SetValue(p, v).ctxs) == KindsOf(p.ctxs)
        ensures |SetValue(p, v).keys| >= KeysAfter(KindsOf(p.ctxs), |p.keys|, it.typ)
      {
        SetValueKinds(p, v);
      }
    } else if it.typ == ItemMapEnd || it.typ == ItemArrayEnd {
      CloseKinds(p);
    } else if it.typ == ItemMapStart {
      KindsOfPush(p, MapCtx(map[]));
    } else if it.typ == ItemArrayStart {
      KindsOfPush(p, ArrCtx([]));
    } else if it.typ == ItemInclude {
      match out.file(it.val)
      case NoFile =>
      case Included(m) => KindsOfSet(p, MapCtx(Last(p.ctxs).m + m));
    }
  }

  lemma CloseKinds(p: Parser)
    requires Rooted(p) && CanClose(p)
    ensures var kinds := KindsOf(p.ctxs);
            && kinds != [] && Rooted(Close(p)) && KindsOf(Close(p).ctxs) == Init(kinds)
            && |Close(p).keys| == |p.keys| - if Around(Init(kinds)) == InMap then 1 else 0
  {
    var q := p.(ctxs := Init(p.ctxs));
    SetValueKinds(q, Closed(Last(p.ctxs)));
    assert Init(KindsOf(p.ctxs)) == KindsOf(q.ctxs);
  }

  /** Spare keys do no harm. */
  lemma ReadyWithMore(s: State, lx: Lexer, kinds: seq<Kind>, n: nat, m: nat)
    requires Ready(s, lx, kinds, n) && n <= m
    ensures Ready(s, lx, kinds, m)
  {
  }

  // ----- one move -----

  predicate Running(c: Config) {
    c.queue == [] || !IsTerminal(c.queue[0].typ)
  }

  /** Either the lexer runs its state, because no item is waiting, or the parser takes an item; None is
      an item in error. */
  function Move(c: Config, out: Outside): (r: Option<Config>)
    requires Inv(c) && Running(c)
  {
    if c.queue == [] then
      var r := Next(c.state, c.lx);
      Some(Config(r.0, r.1, r.2, c.p, c.prev))
    else
      ItemIsTaken(c);
      match Process(c.p, c.queue[0], out)
      case None => None
      case Some(p) => Some(Config(c.state, c.lx, c.queue[1..], p, c.queue[0]))
  }

  /** Whatever the input, the next move finds everything in place again: the state is not nil, the
      slices are defined, and no stack is short. */
  lemma MoveKeeps(c: Config, out: Outside)
    requires Inv(c) && Running(c)
    ensures Move(c, out).Some? ==> Inv(Move(c, out).value)
  {
    hide Ready, Next, Process, CanFollow, KeysAfter, KindsAfter;
    if c.queue == [] {
      NextStepsWell(c.state, c.lx, KindsOf(c.p.ctxs), |c.p.keys|);
    } else {
      ItemIsTaken(c);
      ProcessKinds(c.p, c.queue[0], out);
      if Process(c.p, c.queue[0], out).Some? {
        var kinds, n, typ := KindsOf(c.p.ctxs), |c.p.keys|, c.queue[0].typ;
        var p := Process(c.p, c.queue[0], out).value;
        ReadyWithMore(c.state, c.lx, KindsAfter(kinds, typ), KeysAfter(kinds, n, typ), |p.keys|);
      }
    }
  }

  /** The moves that can still follow. */
  function MovesLeft(c: Config): (n: nat)
    requires Inv(c)
  {
    if c.state == Halt then |c.queue| else 2 * (1 + FuelOf(c)) + |c.queue|
  }

  function FuelOf(c: Config): (n: nat)
    requires Inv(c) && c.state != Halt
  {
    Fuel(c.state, c.lx)
  }

  lemma MoveShrinks(c: Config, out: Outside)
    requires Inv(c) && Running(c)
    ensures Move(c, out).Some? ==> Inv(Move(c, out).value) && MovesLeft(Move(c, out).value) < MovesLeft(c)
  {
    hide Next, Process, CanFollow, KeysAfter, KindsAfter, Fuel;
    MoveKeeps(c, out);
    if c.queue == [] {
      NextShrinks(c.state, c.lx, KindsOf(c.p.ctxs), |c.p.keys|);
    }
  }

  // ----- whole parses -----

  /** The outcome at the end of the input: a key without a value is an error, unless it is a brace that
      closes the whole text. */
  function Finish(c: Config): (o: Outcome)
    requires Inv(c) && !Running(c)
  {
    if c.queue[0].typ == ItemError || (c.prev.typ == ItemKey && c.prev.val != "}") then Rejected
    else Parsed(c.p.ctxs[0].m)
  }

  function ParseFrom(c: Config, out: Outside): (o: Outcome)
    requires Inv(c)
    decreases MovesLeft(c)
  {
    if !Running(c) then Finish(c)
    else
      MoveShrinks(c, out);
      match Move(c, out)
      case None => Rejected
      case Some(c') => ParseFrom(c', out)
  }

  function Start(input: string): (c: Config)
    ensures Inv(c)
  {
    Config(Top, Lexer(input, 0, 0, [], [], Halt), [], Parser([MapCtx(map[])], []), Item(ItemError, ""))
  }

  function Parse(input: string, out: Outside): (o: Outcome) {
    ParseFrom(Start(input), out)
  }

  /** A run of the two machines on some input. */
  ghost predicate IsRun(cs: seq<Config>, input: string, out: Outside) {
    && cs != [] && cs[0] == Start(input)
    && forall i :: 0 <= i < |cs| - 1 ==> Inv(cs[i]) && Running(cs[i]) && Move(cs[i], out) == Some(cs[i + 1])
  }

  /** On every run over every input: nothing the lexer or the parser relies on is ever missing, and the
      run is no longer than 24 moves a character and a few more. */
  lemma {:induction false} EveryRunIsSafe(cs: seq<Config>, input: string, out: Outside, i: nat)
    requires IsRun(cs, input, out) && i < |cs|
    ensures Inv(cs[i]) && MovesLeft(cs[i]) + i <= 24 * |input| + 18
  {
    if i > 0 {
      hide Inv, Move, Running, MovesLeft;
      EveryRunIsSafe(cs, input, out, i - 1);
      MoveShrinks(cs[i - 1], out);
    }
  }

  lemma RunsAreShort(cs: seq<Config>, input: string, out: Outside)
    requires IsRun(cs, input, out)
    ensures |cs| <= 24 * |input| + 19
  {
    EveryRunIsSafe(cs, input, out, |cs| - 1);
  }
}
