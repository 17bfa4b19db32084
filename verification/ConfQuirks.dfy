/** Where the configuration language reads something else than one would think, and exactly when. */
module ConfQuirks {
  import opened Basics
  import opened Text
  import opened ConfLex
  import opened ConfParse
  import opened ConfSafety
  import opened ConfRun
  import opened ConfRoundTrip

  /** The configuration in which the lexer has sent its next item. */
  function Sent(c: Config, out: Outside): (d: Config)
    requires Inv(c)
    decreases MovesLeft(c)
  {
    if c.queue != [] then c
    else
      MoveShrinks(c, out);
      Sent(Move(c, out).value, out)
  }

  /** Both come to the same outcome, by way of the same next item. */
  ghost predicate Comes(c: Config, d: Config, out: Outside) {
    Leads(c, d, out) && Sent(c, out) == Sent(d, out)
  }

  lemma LexComes(c: Config, out: Outside) returns (d: Config)
    requires Inv(c) && c.queue == []
    ensures InBounds(c.lx) && Entered(c.state, c.lx)
    ensures var r := Next(c.state, c.lx);
            d == Config(r.0, r.1, r.2, c.p, c.prev)
    ensures Comes(c, d, out) && MovesLeft(d) < MovesLeft(c) && (d.queue != [] ==> Sent(c, out) == d)
  {
    hide Next, ParseFrom, MovesLeft;
    MoveShrinks(c, out);
    d := LexMove(c, out);
  }

  // ----- digits -----

  lemma {:induction false} DigitsCome(c: Config, ds: string, out: Outside) returns (d: Config)
    requires Inv(c) && c.queue == [] && c.state == AtValue(Number) && AllDigits(ds) && Reads(c.lx, ds)
    ensures d == c.(lx := Fwd(c.lx, |ds|)) && Comes(c, d, out)
    decreases |ds|
  {
    BoundsOf(c);
    hide Inv, ParseFrom, Sent, MovesLeft, Next;
    if ds == "" {
      assert Fwd(c.lx, 0) == c.lx;
      d := c;
    } else {
      assert ds == [ds[0]] + ds[1..];
      ReadsSplit(c.lx, [ds[0]], ds[1..]);
      NextDigit(c.state, c.lx);
      var b := LexComes(c, out);
      d := DigitsCome(b, ds[1..], out);
    }
  }

  /** A run of digits, read as a number so far. */
  lemma NumberComes(c: Config, ds: string, out: Outside) returns (d: Config)
    requires AtStart(c) && ds != "" && AllDigits(ds) && Reads(c.lx, ds)
    ensures d == c.(state := AtValue(Number), lx := Fwd(c.lx, |ds|)) && Comes(c, d, out)
    ensures c.lx.parts == [] && InBounds(d.lx) && Pending(d.lx) == ds && d.lx.pos == c.lx.pos + |ds| && At(d.lx, 0) == At(c.lx, |ds|)
  {
    NoParts(c);
    hide Inv, ParseFrom, Sent, MovesLeft, Next;
    assert ds == [ds[0]] + ds[1..];
    ReadsSplit(c.lx, [ds[0]], ds[1..]);
    var b := DigitComes(c, out);
    d := DigitsCome(b, ds[1..], out);
  }

  lemma DigitComes(c: Config, out: Outside) returns (d: Config)
    requires AtStart(c) && InBounds(c.lx) && IsDigit(At(c.lx, 0))
    ensures d == c.(state := AtValue(Number), lx := Fwd(c.lx, 1)) && Comes(c, d, out)
  {
    hide Inv, ParseFrom, Sent, MovesLeft, Next;
    NextFirstDigit(c.lx);
    var a := LexComes(c, out);
    d := LexComes(a, out);
  }

  lemma NextFirstDigit(lx: Lexer)
    requires InBounds(lx) && IsDigit(At(lx, 0))
    ensures Next(AtValue(Value), lx) == Go(AtValue(NumberStart), lx)
    ensures Next(AtValue(NumberStart), lx) == Go(AtValue(Number), Fwd(lx, 1))
  {
  }

  /** What is being read is a number no more. */
  predicate IsPastNumber(s: State, lx: Lexer) {
    || s == AtValue(DateAfterYear) || s == AtValue(FloatStart) || s == AtValue(Float) || s == AtValue(IPAddr)
    || ((s == AtValue(String) || s == AtValue(StringEscape) || s == AtValue(StringBinary)) && lx.resume == AtValue(String))
  }

  lemma PastNumberNext(s: State, lx: Lexer)
    requires InBounds(lx) && Entered(s, lx) && IsPastNumber(s, lx)
    ensures var r := Next(s, lx);
            if r.2 == [] then IsPastNumber(r.0, r.1) else r.2[0].typ != ItemInteger
  {
    hide Concat, IsBoolWord, IsDateRest, HexValue, Next;
    if s == AtValue(String) || s == AtValue(StringEscape) || s == AtValue(StringBinary) {
      PastStringNext(s, lx);
    } else {
      PastFloatNext(s, lx);
    }
  }

  lemma PastStringNext(s: State, lx: Lexer)
    requires InBounds(lx) && Entered(s, lx) && lx.resume == AtValue(String)
    requires s == AtValue(String) || s == AtValue(StringEscape) || s == AtValue(StringBinary)
    ensures var r := Next(s, lx);
            if r.2 == [] then IsPastNumber(r.0, r.1) else r.2[0].typ != ItemInteger
  {
    hide Concat, IsBoolWord, HexValue;
  }

  lemma PastFloatNext(s: State, lx: Lexer)
    requires InBounds(lx) && Entered(s, lx)
    requires s == AtValue(DateAfterYear) || s == AtValue(FloatStart) || s == AtValue(Float) || s == AtValue(IPAddr)
    ensures var r := Next(s, lx);
            if r.2 == [] then IsPastNumber(r.0, r.1) else r.2[0].typ != ItemInteger
  {
    hide Concat, IsDateRest;
  }

  lemma {:induction false} NoInteger(c: Config, out: Outside)
    requires Inv(c) && c.queue == [] && IsPastNumber(c.state, c.lx)
    ensures Sent(c, out).queue != [] && Sent(c, out).queue[0].typ != ItemInteger
    decreases MovesLeft(c)
  {
    hide Inv, Sent, MovesLeft, Next, IsPastNumber, ParseFrom;
    var d := LexComes(c, out);
    PastNumberNext(c.state, c.lx);
    if d.queue == [] {
      NoInteger(d, out);
    }
  }

  /** With a suffix it is more than the digits. */
  lemma {:induction false} SuffixIsKept(c: Config, n: nat, out: Outside)
    requires Inv(c) && c.queue == [] && c.state == AtValue(ConvenientNumber) && c.lx.pos > c.lx.start + n
    ensures Sent(c, out).queue != []
    ensures Sent(c, out).queue[0].typ == ItemInteger ==> |Sent(c, out).queue[0].val| > n
    decreases MovesLeft(c)
  {
    BoundsOf(c);
    hide Inv, ParseFrom, Sent, MovesLeft, Concat;
    var d := LexComes(c, out);
    if d.queue == [] {
      if d.state == AtValue(ConvenientNumber) {
        SuffixIsKept(d, n, out);
      } else {
        NoInteger(d, out);
      }
    } else {
      assert |Pending(c.lx)| > n;
    }
  }

  /** Digits become an integer if and only if what follows them ends a number; a closing bracket does not. */
  lemma DigitsAreInteger(c: Config, ds: string, out: Outside)
    requires AtStart(c) && ds != "" && AllDigits(ds) && Reads(c.lx, ds) && !IsDigit(At(c.lx, |ds|))
    ensures Sent(c, out).queue == [Item(ItemInteger, ds)] <==> EndsNumber(At(c.lx, |ds|))
    ensures !EndsNumber(']')
  {
    hide Inv, ParseFrom, Sent, MovesLeft, Concat;
    var b := NumberComes(c, ds, out);
    var d := LexComes(b, out);
    if EndsNumber(At(c.lx, |ds|)) {
      ConcatNone();
      assert "" + ds == ds;
    } else if d.queue == [] {
      if d.state == AtValue(ConvenientNumber) {
        SuffixIsKept(d, |ds|, out);
      } else {
        NoInteger(d, out);
      }
    }
  }

  /** The bracket itself becomes part of a string. */
  lemma BracketIsRead(c: Config, ds: string, out: Outside) returns (d: Config)
    requires AtStart(c) && ds != "" && AllDigits(ds) && Reads(c.lx, ds + "]") && EndsString(At(c.lx, |ds| + 1))
    ensures Comes(c, d, out) && Sent(c, out) == d && d.queue == [Item(ItemString, ds + "]")]
    ensures d.p == c.p && d.state == Last(c.lx.stack) && d.lx.stack == Init(c.lx.stack)
    ensures d.lx.input == c.lx.input && d.lx.start == d.lx.pos == c.lx.pos + |ds| + 1
  {
    hide Inv, ParseFrom, Sent, MovesLeft, Concat;
    var b := BracketComes(c, ds, out);
    d := StringIsSent(b, ds + "]", out);
  }

  lemma BracketComes(c: Config, ds: string, out: Outside) returns (d: Config)
    requires AtStart(c) && ds != "" && AllDigits(ds) && Reads(c.lx, ds + "]")
    ensures Comes(c, d, out) && d == c.(state := AtValue(String), lx := Fwd(c.lx, |ds| + 1).(resume := AtValue(String)))
    ensures c.lx.parts == [] && InBounds(d.lx) && Pending(d.lx) == ds + "]" && d.lx.pos == c.lx.pos + |ds| + 1
  {
    ReadsSplit(c.lx, ds, "]");
    hide Inv, ParseFrom, Sent, MovesLeft, Next;
    var a := NumberComes(c, ds, out);
    NextBracket(a.lx);
    d := LexComes(a, out);
  }

  lemma NextBracket(lx: Lexer)
    requires InBounds(lx) && At(lx, 0) == ']'
    ensures Next(AtValue(Number), lx) == Go(AtValue(String), Fwd(lx, 1).(resume := AtValue(String)))
    ensures Pending(Fwd(lx, 1)) == Pending(lx) + "]"
  {
  }

  lemma StringIsSent(c: Config, s: string, out: Outside) returns (d: Config)
    requires Inv(c) && c.queue == [] && c.state == AtValue(String) && c.lx.parts == [] && c.lx.stack != []
    requires InBounds(c.lx) && Pending(c.lx) == s && s != "" && IsDigit(s[0]) && EndsString(At(c.lx, 0))
    ensures Comes(c, d, out) && Sent(c, out) == d && d.queue == [Item(ItemString, s)]
    ensures d.p == c.p && d.state == Last(c.lx.stack) && d.lx.stack == Init(c.lx.stack)
    ensures d.lx.input == c.lx.input && d.lx.start == d.lx.pos == c.lx.pos
  {
    NoWord(s);
    assert c.lx.input[c.lx.start] == s[0];
    hide Inv, ParseFrom, Sent, MovesLeft, IsBoolWord;
    d := LexComes(c, out);
    ConcatNone();
    assert "" + s == s;
  }

  lemma NoWord(s: string)
    requires s != "" && IsDigit(s[0])
    ensures !IsBoolWord(s) && s[0] != '$'
  {
    assert Lower(s)[0] == LowerChar(s[0]);
  }

  /** So an array that ends in a digit is never closed: such a text is refused, whatever the digits. */
  lemma BracketIsMissed(ds: string, out: Outside)
    requires ds != "" && AllDigits(ds)
    ensures Parse("a=[" + ds + "]\n", out) == Rejected
  {
    var text := "a=[" + ds + "]\n";
    hide Inv, ParseFrom, Sent, MovesLeft, Concat;
    var a := KeyIsA(text, out);
    var b := ArrayOpens(a, out);
    assert text[3..3 + |ds| + 1] == ds + "]" && text[3..4] == [ds[0]];
    var c := ElemStarts(b, ds[0], out);
    var d := BracketIsRead(c, ds, out);
    BracketEnds(d, out);
  }

  /** From the start of such a text to its bracket. */
  lemma KeyIsA(text: string, out: Outside) returns (d: Config)
    requires |text| > 3 && text[..3] == "a=["
    ensures AtStart(d) && Leads(Start(text), d, out) && d.lx.input == text && d.lx.pos == 2 && d.lx.stack == [TopValueEnd]
    ensures At(d.lx, 0) == '['
  {
    hide Inv, ParseFrom, Concat;
    assert text[0] == text[..3][0] && text[1] == text[..3][1] && text[2] == text[..3][2];
    var a := LexMove(Start(text), out);
    var b := LexMove(a, out);
    var c := LexMove(b, out);
    assert c.state == AtKey(KeyEnd) && |c.queue| == 1 && c.queue[0].typ == ItemKey;
    d := ItemMove(c, out, c.p.(keys := c.p.keys + [c.queue[0].val]));
    d := LexMove(d, out);
    d := SkipMove(d, out);
  }

  /** Behind the string there is nothing but the end of a line. */
  lemma BracketEnds(c: Config, out: Outside)
    requires Inv(c) && |c.queue| == 1 && c.queue[0].typ == ItemString && c.state == AtArray(ArrayValueEnd)
    requires c.lx.start == c.lx.pos == |c.lx.input| - 1 && At(c.lx, 0) == '\n'
    ensures ParseFrom(c, out) == Rejected
  {
    hide Inv, ParseFrom, Concat, SetValue;
    ItemIsTaken(c);
    var d := ItemMove(c, out, SetValue(c.p, VString(c.queue[0].val)));
    d := LexMove(d, out);
    d := SkipMove(d, out);
    assert d.state == AtArray(ArrayValue) && At(d.lx, 0) == EOF;
    d := LexMove(d, out);
    assert d.state == AtValue(Value);
    EmptyAtEnd(d, out);
  }

  lemma EmptyAtEnd(c: Config, out: Outside)
    requires AtStart(c) && At(c.lx, 0) == EOF && Last(c.lx.stack) == AtArray(ArrayValueEnd)
    ensures ParseFrom(c, out) == Rejected
  {
    NoParts(c);
    hide Inv, ParseFrom, Next;
    NextAtEnd(c.lx);
    var a := LexMove(c, out);
    var d := LexMove(a, out);
    NothingFollows(d, out);
  }

  lemma NextAtEnd(lx: Lexer)
    requires InBounds(lx) && At(lx, 0) == EOF && lx.start == lx.pos && lx.parts == [] && lx.stack != []
    ensures Next(AtValue(Value), lx) == Go(AtValue(String), lx.(resume := AtValue(String)))
    ensures var l := lx.(resume := AtValue(String));
            Next(AtValue(String), l) == (Last(lx.stack), l.(stack := Init(lx.stack)), [Item(ItemString, "")])
  {
    var l := lx.(resume := AtValue(String));
    assert Pending(l) == "" && !IsBoolWord("");
    ConcatNone();
    assert "" + "" == "";
    hide IsBoolWord, Concat;
    assert StepString(l) == EmitStringPop(l, 0);
    assert Fwd(l, 0) == l;
  }

  lemma NothingFollows(c: Config, out: Outside)
    requires Inv(c) && |c.queue| == 1 && c.queue[0].typ == ItemString && c.state == AtArray(ArrayValueEnd)
    requires InBounds(c.lx) && At(c.lx, 0) == EOF
    ensures ParseFrom(c, out) == Rejected
  {
    ItemIsTaken(c);
    hide Inv, ParseFrom, Next, Process;
    TakesString(c.p, c.queue[0], out);
    var d := ItemMove(c, out, SetValue(c.p, VString(c.queue[0].val)));
    assert StepArrayValueEnd(c.lx) == Error(c.lx);
    NextAfterValue(c.lx);
    d := LexMove(d, out);
    IsRejected(d, out);
  }

  lemma TakesString(p: Parser, it: Item, out: Outside)
    requires it.typ == ItemString && CanSet(p)
    ensures Process(p, it, out) == Some(SetValue(p, VString(it.val)))
  {
  }

  lemma NextAfterValue(lx: Lexer)
    requires InBounds(lx)
    ensures Next(AtArray(ArrayValueEnd), lx) == StepArrayValueEnd(lx)
  {
  }

  lemma IsRejected(c: Config, out: Outside)
    requires Inv(c) && c.queue == [Item(ItemError, "")]
    ensures ParseFrom(c, out) == Rejected
  {
  }

  // ----- suffixes -----

  /** A number sets a value if and only if its suffix has a multiplier; otherwise nothing changes, and a key
      that waits for the value goes on waiting. */
  lemma SuffixSets(p: Parser, val: string, out: Outside)
    requires CanSet(p) && ParseInt(val[..NumberLength(val)]).Some?
    ensures var r := Process(p, Item(ItemInteger, val), out);
            r.Some? && (r.value != p <==> Multiplier(Lower(val[NumberLength(val)..])).Some?)
  {
    hide Multiplier, ParseInt, NumberLength, Lower;
    forall v
      ensures SetValue(p, v) != p
    {
      match Last(p.ctxs)
      case ArrCtx(a) => assert Last(SetValue(p, v).ctxs) == ArrCtx(a + [v]) && |a + [v]| > |a|;
      case MapCtx(_) => assert |SetValue(p, v).keys| < |p.keys|;
    }
  }

  /** When the map around it is closed it is stored under that key, and its own key waits in turn. */
  lemma MapTakesLeftKey(p: Parser, val: string, out: Outside)
    requires |p.ctxs| >= 2 && Last(p.ctxs).MapCtx? && Last(Init(p.ctxs)).MapCtx? && p.keys != []
    requires ParseInt(val[..NumberLength(val)]).Some? && Multiplier(Lower(val[NumberLength(val)..])) == None
    ensures Process(p, Item(ItemInteger, val), out) == Some(p)
    ensures var outer, r := Init(p.ctxs), Process(p, Item(ItemMapEnd, ""), out);
            r == Some(Parser(Init(outer) + [MapCtx(Last(outer).m[Last(p.keys) := VMap(Last(p.ctxs).m)])], Init(p.keys)))
  {
    hide Multiplier, ParseInt, NumberLength, Lower;
  }

  const ODD_TEXT := "m { a: 1kbb }"

  /** For instance: the map is not found under its own key, but under that of the number. */
  lemma SuffixMovesMap(out: Outside)
    ensures Parse(ODD_TEXT, out) == Parsed(map["a" := VMap(map[])])
  {
    hide Inv, ParseFrom;
    var a := OddOpens(out);
    var b := OddKey(a, out);
    var c := OddNumber(b, out);
    OddCloses(c, out);
  }

  /** Where the lexer stands in that text, and what the parser has made of it. */
  ghost predicate IsOdd(c: Config, state: State, start: nat, pos: nat, stack: seq<State>, p: Parser) {
    && Inv(c) && c.queue == [] && c.state == state && c.p == p
    && c.lx.input == ODD_TEXT && c.lx.start == start && c.lx.pos == pos && c.lx.stack == stack && c.lx.parts == []
  }

  const TOP_ONLY := [TopValueEnd]
  const BOTH_ENDS := [TopValueEnd, AtMap(MapValueEnd)]

  function OpenMap(keys: seq<string>): (p: Parser) {
    Parser([MapCtx(map[])], keys)
  }

  function OpenMaps(keys: seq<string>): (p: Parser) {
    Parser([MapCtx(map[]), MapCtx(map[])], keys)
  }

  lemma OddOpens(out: Outside) returns (d: Config)
    ensures IsOdd(d, AtMap(MapKeyStart), 3, 3, TOP_ONLY, OpenMaps(["m"])) && Leads(Start(ODD_TEXT), d, out)
  {
    hide Inv, ParseFrom, Next;
    var a := OddOpens1(out);
    var b := OddOpens2(a, out);
    var c := OddOpens3(b, out);
    d := OddOpens4(c, out);
  }

  lemma OddOpens1(out: Outside) returns (d: Config)
    ensures IsOdd(d, AtKey(Key), 0, 1, TOP_ONLY, OpenMap([])) && Leads(Start(ODD_TEXT), d, out)
  {
    hide Inv, ParseFrom;
    d := LexMove(Start(ODD_TEXT), out);
    d := LexMove(d, out);
  }

  lemma OddKeyNext(lx: Lexer)
    requires lx.input == ODD_TEXT && lx.start == 0 && lx.pos == 1 && lx.parts == []
    ensures Next(AtKey(Key), lx) == (AtKey(KeyEnd), lx.(start := 1), [Item(ItemKey, "m")])
  {
    assert At(lx, 0) == ' ' && Pending(lx) == "m" && Lower("m") == "m" && "" + "m" == "m";
    ConcatNone();
    hide Lower;
    assert StepKey(lx) == KeyOrInclude(lx, AtKey(KeyEnd), lx);
    assert |"m"| != |"include"|;
  }

  lemma OddOpens2(c: Config, out: Outside) returns (d: Config)
    requires IsOdd(c, AtKey(Key), 0, 1, TOP_ONLY, OpenMap([]))
    ensures IsOdd(d, AtKey(KeyEnd), 1, 1, TOP_ONLY, OpenMap(["m"])) && Leads(c, d, out)
  {
    hide Inv, ParseFrom, Next;
    OddKeyNext(c.lx);
    assert [] + ["m"] == ["m"];
    d := LexMove(c, out);
    d := ItemMove(d, out, OpenMap(["m"]));
  }

  lemma OddOpens3(c: Config, out: Outside) returns (d: Config)
    requires IsOdd(c, AtKey(KeyEnd), 1, 1, TOP_ONLY, OpenMap(["m"]))
    ensures IsOdd(d, AtValue(Value), 2, 2, TOP_ONLY, OpenMap(["m"])) && Leads(c, d, out)
  {
    hide Inv, ParseFrom;
    d := LexMove(c, out);
    d := SkipMove(d, out);
    d := LexMove(d, out);
  }

  lemma OddOpens4(c: Config, out: Outside) returns (d: Config)
    requires IsOdd(c, AtValue(Value), 2, 2, TOP_ONLY, OpenMap(["m"]))
    ensures IsOdd(d, AtMap(MapKeyStart), 3, 3, TOP_ONLY, OpenMaps(["m"])) && Leads(c, d, out)
  {
    hide Inv, ParseFrom;
    assert OpenMap(["m"]).ctxs + [MapCtx(map[])] == OpenMaps(["m"]).ctxs;
    d := LexMove(c, out);
    d := ItemMove(d, out, OpenMaps(["m"]));
  }

  lemma OddKey(c: Config, out: Outside) returns (d: Config)
    requires IsOdd(c, AtMap(MapKeyStart), 3, 3, TOP_ONLY, OpenMaps(["m"]))
    ensures IsOdd(d, AtValue(Value), 7, 7, BOTH_ENDS, OpenMaps(["m", "a"])) && Leads(c, d, out)
  {
    hide Inv, ParseFrom, Next;
    var a := OddKey1(c, out);
    var b := OddKey2(a, out);
    var e := OddKey3(b, out);
    d := OddKey4(e, out);
  }

  lemma OddKey1(c: Config, out: Outside) returns (d: Config)
    requires IsOdd(c, AtMap(MapKeyStart), 3, 3, TOP_ONLY, OpenMaps(["m"]))
    ensures IsOdd(d, AtMap(MapKey), 4, 5, TOP_ONLY, OpenMaps(["m"])) && Leads(c, d, out)
  {
    hide Inv, ParseFrom;
    d := LexMove(c, out);
    d := SkipMove(d, out);
    d := LexMove(d, out);
  }

  lemma OddKey2(c: Config, out: Outside) returns (d: Config)
    requires IsOdd(c, AtMap(MapKey), 4, 5, TOP_ONLY, OpenMaps(["m"]))
    ensures IsOdd(d, AtMap(MapKeyEnd), 5, 5, TOP_ONLY, OpenMaps(["m", "a"])) && Leads(c, d, out)
  {
    hide Inv, ParseFrom;
    assert ODD_TEXT[4..5] == "a" && "" + "a" == "a" && ["m"] + ["a"] == ["m", "a"];
    ConcatNone();
    d := LexMove(c, out);
    assert d.queue == [Item(ItemKey, "a")];
    d := ItemMove(d, out, OpenMaps(["m", "a"]));
  }

  lemma OddKey3(c: Config, out: Outside) returns (d: Config)
    requires IsOdd(c, AtMap(MapKeyEnd), 5, 5, TOP_ONLY, OpenMaps(["m", "a"]))
    ensures IsOdd(d, AtMap(MapValue), 6, 6, TOP_ONLY, OpenMaps(["m", "a"])) && Leads(c, d, out)
  {
    hide Inv, ParseFrom;
    d := LexMove(c, out);
    d := SkipMove(d, out);
  }

  lemma OddKey4(c: Config, out: Outside) returns (d: Config)
    requires IsOdd(c, AtMap(MapValue), 6, 6, TOP_ONLY, OpenMaps(["m", "a"]))
    ensures IsOdd(d, AtValue(Value), 7, 7, BOTH_ENDS, OpenMaps(["m", "a"])) && Leads(c, d, out)
  {
    hide Inv, ParseFrom;
    d := LexMove(c, out);
    d := SkipMove(d, out);
    d := LexMove(d, out);
  }

  lemma OddNumber(c: Config, out: Outside) returns (d: Config)
    requires IsOdd(c, AtValue(Value), 7, 7, BOTH_ENDS, OpenMaps(["m", "a"]))
    ensures IsOdd(d, AtMap(MapValueEnd), 11, 11, TOP_ONLY, OpenMaps(["m", "a"])) && Leads(c, d, out)
  {
    hide Inv, ParseFrom, Next;
    var a := OddNumber1(c, out);
    var b := OddNumber2(a, out);
    d := OddNumber3(b, out);
  }

  lemma OddNumber1(c: Config, out: Outside) returns (d: Config)
    requires IsOdd(c, AtValue(Value), 7, 7, BOTH_ENDS, OpenMaps(["m", "a"]))
    ensures IsOdd(d, AtValue(ConvenientNumber), 7, 9, BOTH_ENDS, OpenMaps(["m", "a"])) && Leads(c, d, out)
  {
    hide Inv, ParseFrom;
    d := LexMove(c, out);
    d := LexMove(d, out);
    d := LexMove(d, out);
  }

  lemma OddNumber2(c: Config, out: Outside) returns (d: Config)
    requires IsOdd(c, AtValue(ConvenientNumber), 7, 9, BOTH_ENDS, OpenMaps(["m", "a"]))
    ensures IsOdd(d, AtValue(ConvenientNumber), 7, 11, BOTH_ENDS, OpenMaps(["m", "a"])) && Leads(c, d, out)
  {
    hide Inv, ParseFrom;
    d := LexMove(c, out);
    d := LexMove(d, out);
  }

  lemma OddNumber3(c: Config, out: Outside) returns (d: Config)
    requires IsOdd(c, AtValue(ConvenientNumber), 7, 11, BOTH_ENDS, OpenMaps(["m", "a"]))
    ensures IsOdd(d, AtMap(MapValueEnd), 11, 11, TOP_ONLY, OpenMaps(["m", "a"])) && Leads(c, d, out)
  {
    OddSuffix(out);
    hide Inv, ParseFrom, Process, Next;
    OddNumberNext(c.lx);
    d := LexMove(c, out);
    d := ItemMove(d, out, OpenMaps(["m", "a"]));
  }

  lemma OddNumberNext(lx: Lexer)
    requires lx.input == ODD_TEXT && lx.start == 7 && lx.pos == 11 && lx.parts == [] && lx.stack == BOTH_ENDS
    ensures Next(AtValue(ConvenientNumber), lx) == (AtMap(MapValueEnd), lx.(start := 11, stack := TOP_ONLY), [Item(ItemInteger, "1kbb")])
  {
    assert At(lx, 0) == ' ' && Pending(lx) == "1kbb" && "" + "1kbb" == "1kbb";
    ConcatNone();
    hide Concat;
    assert StepConvenientNumber(lx) == EmitPop(lx, ItemInteger);
    assert BOTH_ENDS[..1] == TOP_ONLY;
  }

  lemma OddSuffix(out: Outside)
    ensures Process(OpenMaps(["m", "a"]), Item(ItemInteger, "1kbb"), out) == Some(OpenMaps(["m", "a"]))
  {
    var val := "1kbb";
    assert val[1..] == "kbb" && !IsDigit('k');
    assert NumberLength(val) == 1 && val[..1] == "1" && ParseInt("1") == Some(1);
    assert "kbb"[1..] == "bb" && "bb"[1..] == "b" && "b"[1..] == "";
    assert Lower("kbb") == "kbb" && |"kbb"| == 3 && Multiplier("kbb") == None;
  }

  lemma OddCloses(c: Config, out: Outside)
    requires IsOdd(c, AtMap(MapValueEnd), 11, 11, TOP_ONLY, OpenMaps(["m", "a"]))
    ensures ParseFrom(c, out) == Parsed(map["a" := VMap(map[])])
  {
    hide Inv, ParseFrom, Next;
    var a := OddCloses1(c, out);
    var b := OddCloses2(a, out);
    EndParses(b, out);
  }

  lemma OddCloses1(c: Config, out: Outside) returns (d: Config)
    requires IsOdd(c, AtMap(MapValueEnd), 11, 11, TOP_ONLY, OpenMaps(["m", "a"]))
    ensures IsOdd(d, AtMap(MapEnd), 13, 13, TOP_ONLY, OpenMaps(["m", "a"])) && Leads(c, d, out)
  {
    hide Inv, ParseFrom;
    d := LexMove(c, out);
    d := SkipMove(d, out);
    d := LexMove(d, out);
    d := SkipMove(d, out);
  }

  lemma OddCloses2(c: Config, out: Outside) returns (d: Config)
    requires IsOdd(c, AtMap(MapEnd), 13, 13, TOP_ONLY, OpenMaps(["m", "a"]))
    ensures AtEntry(d) && d.state == Top && d.lx.pos == |d.lx.input| && Leads(c, d, out)
    ensures d.p.ctxs == [MapCtx(map["a" := VMap(map[])])]
  {
    hide Inv, ParseFrom, Next, Process;
    OddEndNext(c.lx);
    d := LexMove(c, out);
    OddMapEnds(d.queue[0], out);
    d := ItemMove(d, out, Parser([MapCtx(map["a" := VMap(map[])])], ["m"]));
    OddTopNext(d.lx);
    d := LexMove(d, out);
  }

  lemma OddMapEnds(it: Item, out: Outside)
    requires it.typ == ItemMapEnd
    ensures Process(OpenMaps(["m", "a"]), it, out) == Some(Parser([MapCtx(map["a" := VMap(map[])])], ["m"]))
  {
    assert Close(OpenMaps(["m", "a"])) == Parser([MapCtx(map["a" := VMap(map[])])], ["m"]);
  }

  lemma OddEndNext(lx: Lexer)
    requires InBounds(lx) && lx.stack == TOP_ONLY && lx.start == lx.pos
    ensures var r := Next(AtMap(MapEnd), lx);
            r.0 == TopValueEnd && r.1 == lx.(stack := []) && |r.2| == 1 && r.2[0].typ == ItemMapEnd
  {
    assert Ignore(lx) == lx;
  }

  lemma OddTopNext(lx: Lexer)
    requires InBounds(lx) && lx.start == lx.pos == |lx.input|
    ensures Next(TopValueEnd, lx) == Go(Top, lx)
  {
  }

  // ----- block strings -----

  /** A parenthesis alone on its line, or a NUL. */
  predicate EndsBlock(input: string, i: nat)
    requires 1 <= i < |input|
  {
    || input[i] == EOF
    || (input[i] == ')' && input[i - 1] == '\n' && (i + 1 == |input| || input[i + 1] == '\n' || input[i + 1] == EOF))
  }

  /** Nothing in a part of the input ends a block. */
  predicate NoBlockEnd(input: string, from: nat, to: nat)
    requires 1 <= from <= to <= |input|
  {
    forall i :: from <= i < to ==> !EndsBlock(input, i)
  }

  lemma BlockGoesOn(lx: Lexer)
    requires InBounds(lx) && 1 <= lx.pos < |lx.input| && NoBlockEnd(lx.input, lx.pos, lx.pos + 1)
    ensures StepBlock(lx) == Go(AtValue(Block), lx.(pos := lx.pos + 1))
  {
    assert !EndsBlock(lx.input, lx.pos);
    assert At(lx, 0) == lx.input[lx.pos] && (lx.pos + 1 < |lx.input| ==> At(lx, 1) == lx.input[lx.pos + 1]);
  }

  lemma {:induction false} BlockComes(c: Config, n: nat, out: Outside) returns (d: Config)
    requires Inv(c) && c.queue == [] && c.state == AtValue(Block)
    requires 1 <= c.lx.pos && c.lx.pos + n <= |c.lx.input| && NoBlockEnd(c.lx.input, c.lx.pos, c.lx.pos + n)
    ensures d == c.(lx := c.lx.(pos := c.lx.pos + n)) && Inv(d) && Sent(c, out) == Sent(d, out)
    decreases n
  {
    BoundsOf(c);
    hide Inv, ParseFrom, Sent, MovesLeft, StepBlock;
    if n == 0 {
      d := c;
    } else {
      BlockGoesOn(c.lx);
      var b := LexComes(c, out);
      assert b == c.(lx := c.lx.(pos := c.lx.pos + 1));
      d := BlockComes(b, n - 1, out);
    }
  }

  /** A block string ends at the first parenthesis that is alone on its line, and keeps it if and only if that
      is the last character of the input. */
  lemma BlockKeepsParenthesis(c: Config, body: string, out: Outside) returns (text: string)
    requires Inv(c) && c.queue == [] && c.state == AtValue(Block) && c.lx.start == c.lx.pos && 1 <= c.lx.pos
    requires Reads(c.lx, body + ")") && body != "" && Last(body) == '\n' && NoBlockEnd(c.lx.input, c.lx.pos, c.lx.pos + |body|)
    requires At(c.lx, |body| + 1) == '\n' || At(c.lx, |body| + 1) == EOF
    ensures Sent(c, out).queue == [Item(ItemString, text)] && (text == body || text == body + ")")
    ensures text == body + ")" <==> c.lx.pos + |body| + 1 == |c.lx.input|
  {
    BlockReads(c.lx, body);
    BlockHasNoParts(c);
    hide Inv, ParseFrom, Leads, Sent, MovesLeft, Next, NoBlockEnd, Reads, Pending, At;
    var b := BlockComes(c, |body|, out);
    text := BlockIsSent(b, body, out);
    assert |body + ")"| != |body|;
  }

  lemma BlockReads(lx: Lexer, body: string)
    requires Reads(lx, body + ")") && lx.start == lx.pos
    ensures var l := lx.(pos := lx.pos + |body|);
            InBounds(l) && Pending(l) == body && At(l, 0) == ')' && At(l, 1) == At(lx, |body| + 1)
  {
    ReadsSplit(lx, body, ")");
  }

  lemma BlockIsSent(c: Config, body: string, out: Outside) returns (text: string)
    requires Inv(c) && c.queue == [] && c.state == AtValue(Block) && InBounds(c.lx) && c.lx.pos >= 1 && c.lx.parts == []
    requires Pending(c.lx) == body && body != "" && Last(body) == '\n'
    requires At(c.lx, 0) == ')' && (At(c.lx, 1) == '\n' || At(c.lx, 1) == EOF)
    ensures text == if c.lx.pos + 1 == |c.lx.input| then body + ")" else body
    ensures Sent(c, out).queue == [Item(ItemString, text)]
  {
    BlockHasStack(c);
    hide Inv, ParseFrom, Sent, MovesLeft, Concat, StepBlock, Next;
    BlockEnds(c.lx, body);
    NextBlock(c.lx);
    var d := LexComes(c, out);
    text := if c.lx.pos + 1 == |c.lx.input| then body + ")" else body;
  }

  lemma BlockHasStack(c: Config)
    requires Inv(c) && c.queue == [] && c.state == AtValue(Block)
    ensures c.lx.stack != []
  {
  }

  lemma NextBlock(lx: Lexer)
    requires InBounds(lx) && lx.pos >= 1
    ensures Next(AtValue(Block), lx) == StepBlock(lx)
  {
  }

  lemma BlockEnds(lx: Lexer, body: string)
    requires InBounds(lx) && lx.pos >= 1 && lx.parts == [] && lx.stack != [] && Pending(lx) == body && body != "" && Last(body) == '\n'
    requires At(lx, 0) == ')' && (At(lx, 1) == '\n' || At(lx, 1) == EOF)
    ensures StepBlock(lx).2 == [Item(ItemString, if lx.pos + 1 == |lx.input| then body + ")" else body)]
  {
    assert lx.input[lx.pos - 1] == '\n';
    if lx.pos + 1 == |lx.input| {
      assert StepBlock(lx) == EmitPop(Fwd(lx, 1), ItemString);
      hide StepBlock;
      OnePartSent(Fwd(lx, 1), body + ")");
    } else {
      assert StepBlock(lx) == EmitQuotedPop(lx, ItemString);
      hide StepBlock;
      OnePartSent(lx, body);
    }
  }

  lemma OnePartSent(lx: Lexer, text: string)
    requires InBounds(lx) && lx.parts == [] && lx.stack != [] && Pending(lx) == text
    ensures EmitPop(lx, ItemString).2 == EmitQuotedPop(lx, ItemString).2 == [Item(ItemString, text)]
  {
    ConcatNone();
    assert "" + text == text;
  }

  lemma BlockHasNoParts(c: Config)
    requires Inv(c) && c.queue == [] && c.state == AtValue(Block)
    ensures c.lx.parts == [] && InBounds(c.lx)
  {
  }
}
