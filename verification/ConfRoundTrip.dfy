/** Canonical text is read back: printing a tree and parsing the text gives the tree. */
module ConfRoundTrip {
  import opened Basics
  import opened Text
  import opened ConfLex
  import opened ConfParse
  import opened ConfSafety
  import opened ConfRun

  /** Nested maps and arrays of strings, integers and booleans; the entries of a map are in the order
      in which they are written. */
  datatype Tree =
    | TString(s: string) | TInt(n: int) | TBool(b: bool)
    | TArray(elems: seq<Tree>) | TMap(entries: seq<Entry>)

  datatype Entry = Entry(key: string, tree: Tree)

  /** Keys are written in double quotes, where there are no escapes. */
  predicate IsKey(k: string) {
    forall i :: 0 <= i < |k| ==> k[i] != '"' && k[i] != EOF
  }

  predicate Writable(t: Tree) {
    match t
    case TString(_) => true
    case TInt(n) => MIN_INT64 <= n <= MAX_INT64
    case TBool(_) => true
    case TArray(elems) => forall i :: 0 <= i < |elems| ==> Writable(elems[i])
    case TMap(entries) => forall i :: 0 <= i < |entries| ==> IsKey(entries[i].key) && Writable(entries[i].tree)
  }

  // ----- printing -----

  function HexDigit(n: int): (c: char)
    requires 0 <= n < 16
    ensures IsHex(c) && HexValue(c) == n
  {
    if n < 10 then ('0' as int + n) as char else ('a' as int + n - 10) as char
  }

  function PrintChar(c: char): (s: string) {
    if c == '"' then "\\\""
    else if c == '\\' then "\\\\"
    else if c == '\n' then "\\n"
    else if c == '\r' then "\\r"
    else if c == '\t' then "\\t"
    else if c < ' ' then "\\x" + [HexDigit(c as int / 16), HexDigit(c as int % 16)]
    else [c]
  }

  function PrintChars(s: string): (text: string) {
    if s == "" then "" else PrintChar(s[0]) + PrintChars(s[1..])
  }

  function Digits(n: nat): (s: string)
    ensures s != "" && AllDigits(s) && NatOf(s) == n
  {
    var last := ('0' as int + n % 10) as char;
    if n < 10 then [last] else
      assert (Digits(n / 10) + [last])[..|Digits(n / 10)|] == Digits(n / 10);
      Digits(n / 10) + [last]
  }

  function PrintInt(n: int): (s: string) {
    if n < 0 then "-" + Digits(-n) else Digits(n)
  }

  function BoolWord(b: bool): (w: string)
    ensures forall i :: 0 <= i < |w| ==> 'a' <= w[i] <= 'z'
    ensures |w| > 0
  {
    if b then "true" else "false"
  }

  function Print(t: Tree): (text: string)
    decreases t, 0
  {
    match t
    case TString(s) => "\"" + PrintChars(s) + "\""
    case TInt(n) => PrintInt(n)
    case TBool(b) => BoolWord(b)
    case TArray(elems) => "[" + PrintElems(elems) + "]"
    case TMap(entries) => "{" + PrintEntries(entries, ',') + "}"
  }

  function PrintElems(elems: seq<Tree>): (text: string)
    decreases elems, 1
  {
    if elems == [] then "" else Print(elems[0]) + "," + PrintElems(elems[1..])
  }

  function PrintKey(k: string): (text: string) {
    "\"" + k + "\":"
  }

  /** Entries end with a comma inside a map and with a new line at the top. */
  function PrintEntries(entries: seq<Entry>, end: char): (text: string)
    decreases entries, 1
  {
    if entries == [] then "" else
      PrintKey(entries[0].key) + Print(entries[0].tree) + [end] + PrintEntries(entries[1..], end)
  }

  // ----- meaning -----

  function Denote(t: Tree): (v: ConfParse.Value)
    decreases t, 0
  {
    match t
    case TString(s) => VString(s)
    case TInt(n) => VInt(n)
    case TBool(b) => VBool(b)
    case TArray(elems) => VArray(DenoteElems(elems, []))
    case TMap(entries) => VMap(DenoteEntries(entries, map[]))
  }

  function DenoteElems(elems: seq<Tree>, acc: seq<ConfParse.Value>): (a: seq<ConfParse.Value>)
    decreases elems, 1
  {
    if elems == [] then acc else DenoteElems(elems[1..], acc + [Denote(elems[0])])
  }

  /** Of two entries with one key the later one stays. */
  function DenoteEntries(entries: seq<Entry>, acc: map<string, ConfParse.Value>): (m: map<string, ConfParse.Value>)
    decreases entries, 1
  {
    if entries == [] then acc else DenoteEntries(entries[1..], acc[entries[0].key := Denote(entries[0].tree)])
  }

  /** An array means the meanings of its elements, in order. */
  lemma {:induction false} DenoteElemsIs(elems: seq<Tree>, acc: seq<ConfParse.Value>)
    ensures |DenoteElems(elems, acc)| == |acc| + |elems|
    ensures forall i :: 0 <= i < |acc| ==> DenoteElems(elems, acc)[i] == acc[i]
    ensures forall i :: 0 <= i < |elems| ==> DenoteElems(elems, acc)[|acc| + i] == Denote(elems[i])
    decreases elems
  {
    hide Denote;
    if elems != [] {
      var acc' := acc + [Denote(elems[0])];
      DenoteElemsIs(elems[1..], acc');
      forall i | 0 <= i < |elems|
        ensures DenoteElems(elems, acc)[|acc| + i] == Denote(elems[i])
      {
        if i == 0 {
          assert DenoteElems(elems[1..], acc')[|acc|] == acc'[|acc|];
        } else {
          assert elems[1..][i - 1] == elems[i];
          assert DenoteElems(elems[1..], acc')[|acc'| + (i - 1)] == Denote(elems[1..][i - 1]);
        }
      }
    }
  }

  /** A map means, for each of its keys, the meaning of the last entry with that key. */
  lemma {:induction false} DenoteEntriesIs(entries: seq<Entry>, acc: map<string, ConfParse.Value>, k: string)
    ensures k in DenoteEntries(entries, acc) <==> k in acc || exists i :: 0 <= i < |entries| && entries[i].key == k
    ensures (forall i :: 0 <= i < |entries| ==> entries[i].key != k) && k in acc ==> DenoteEntries(entries, acc)[k] == acc[k]
    ensures forall i :: 0 <= i < |entries| && entries[i].key == k && (forall j :: i < j < |entries| ==> entries[j].key != k) ==>
              DenoteEntries(entries, acc)[k] == Denote(entries[i].tree)
    decreases entries
  {
    hide Denote;
    if entries != [] {
      var rest := entries[1..];
      DenoteEntriesIs(rest, acc[entries[0].key := Denote(entries[0].tree)], k);
      assert forall i :: 0 < i < |entries| ==> entries[i] == rest[i - 1];
      assert forall i :: 0 <= i < |rest| ==> rest[i] == entries[i + 1];
    }
  }

  // ----- moving along a text -----

  /** The text comes next. */
  predicate Reads(lx: Lexer, text: string) {
    0 <= lx.pos && lx.pos + |text| <= |lx.input| && lx.input[lx.pos..lx.pos + |text|] == text
  }

  lemma ReadsSplit(lx: Lexer, a: string, b: string)
    requires Reads(lx, a + b)
    ensures Reads(lx, a) && Reads(Fwd(lx, |a|), b)
    ensures |a| > 0 ==> At(lx, 0) == a[0]
    ensures |a| > 1 ==> At(lx, 1) == a[1]
    ensures |b| > 0 ==> At(lx, |a|) == b[0]
  {
    var next := lx.input[lx.pos..lx.pos + |a + b|];
    assert lx.input[lx.pos..lx.pos + |a|] == next[..|a|] == a;
    assert lx.input[lx.pos + |a|..lx.pos + |a| + |b|] == next[|a|..] == b;
    if |a| > 0 {
      assert lx.input[lx.pos] == next[0] == a[0];
    }
    if |a| > 1 {
      assert lx.input[lx.pos + 1] == next[1] == a[1];
    }
    if |b| > 0 {
      assert lx.input[lx.pos + |a|] == next[|a|] == b[0];
    }
  }

  /** What comes next depends on the input and the position only. */
  lemma SameReads(a: Lexer, b: Lexer, text: string)
    requires Reads(a, text) && a.input == b.input && a.pos == b.pos
    ensures Reads(b, text)
  {
  }

  /** Both configurations are sound and come to the same outcome. */
  ghost predicate Leads(c: Config, d: Config, out: Outside) {
    Inv(c) && Inv(d) && ParseFrom(c, out) == ParseFrom(d, out)
  }

  /** The lexer runs its state. */
  lemma LexMove(c: Config, out: Outside) returns (d: Config)
    requires Inv(c) && c.queue == []
    ensures InBounds(c.lx) && Entered(c.state, c.lx)
    ensures var r := Next(c.state, c.lx);
            d == Config(r.0, r.1, r.2, c.p, c.prev)
    ensures Leads(c, d, out)
  {
    hide Next;
    MoveKeeps(c, out);
    d := Move(c, out).value;
  }

  /** The parser takes the item that is there. */
  lemma ItemMove(c: Config, out: Outside, p: Parser) returns (d: Config)
    requires Inv(c) && c.queue != [] && !IsTerminal(c.queue[0].typ)
    requires CanTake(c.p, c.queue[0].typ) ==> Process(c.p, c.queue[0], out) == Some(p)
    ensures d == Config(c.state, c.lx, [], p, c.queue[0]) && Leads(c, d, out)
    ensures CanTake(c.p, c.queue[0].typ)
  {
    hide Process;
    ItemIsTaken(c);
    MoveKeeps(c, out);
    d := Move(c, out).value;
  }

  // ----- strings -----

  /** What the string being read amounts to so far. */
  function Gathered(lx: Lexer): (s: string)
    requires InBounds(lx)
  {
    Concat(lx.parts) + Pending(lx)
  }

  lemma ConcatNone()
    ensures Concat([]) == ""
  {
  }

  lemma ConcatAppend(parts: seq<string>, x: string)
    ensures Concat(parts + [x]) == Concat(parts) + x
  {
    assert (parts + [x])[..|parts|] == parts;
  }

  /** A configuration inside a double-quoted string. */
  predicate InString(c: Config) {
    Inv(c) && c.queue == [] && c.state == AtValue(DubQuotedString)
  }

  /** Two configurations that differ only in how far a string has been read. */
  ghost predicate SameBut(c: Config, d: Config) {
    d.p == c.p && d.prev == c.prev && d.lx.input == c.lx.input && d.lx.stack == c.lx.stack
  }

  lemma PlainChar(c: Config, ch: char, out: Outside) returns (d: Config)
    requires InString(c) && Reads(c.lx, [ch]) && ch != '"' && ch != '\\' && ch != EOF
    ensures InString(d) && Leads(c, d, out) && SameBut(c, d) && d.lx.pos == c.lx.pos + 1
    ensures InBounds(c.lx) && InBounds(d.lx) && Gathered(d.lx) == Gathered(c.lx) + [ch]
  {
    BoundsOf(c);
    hide Inv, ParseFrom, Concat, Next, Pending;
    ReadsSplit(c.lx, [ch], "");
    NextPlain(c.lx);
    OneMorePending(c.lx);
    d := LexMove(c, out);
    assert Concat(c.lx.parts) + (Pending(c.lx) + [ch]) == Concat(c.lx.parts) + Pending(c.lx) + [ch];
  }

  lemma OneMorePending(lx: Lexer)
    requires InBounds(lx) && lx.pos < |lx.input|
    ensures InBounds(Fwd(lx, 1)) && Pending(Fwd(lx, 1)) == Pending(lx) + [lx.input[lx.pos]] && At(lx, 0) == lx.input[lx.pos]
  {
  }

  lemma NextPlain(lx: Lexer)
    requires InBounds(lx) && At(lx, 0) != '"' && At(lx, 0) != '\\' && At(lx, 0) != EOF
    ensures Next(AtValue(DubQuotedString), lx) == Go(AtValue(DubQuotedString), Fwd(lx, 1))
  {
  }

  /** A backslash: what was pending becomes a part. */
  lemma EscapeStarts(c: Config, out: Outside) returns (d: Config)
    requires InString(c) && Reads(c.lx, "\\")
    ensures Inv(d) && d.queue == [] && d.state == AtValue(StringEscape) && Leads(c, d, out) && SameBut(c, d)
    ensures d.lx.pos == d.lx.start == c.lx.pos + 1 && d.lx.resume == AtValue(DubQuotedString)
    ensures InBounds(c.lx) && InBounds(d.lx) && Gathered(d.lx) == Gathered(c.lx)
  {
    d := LexMove(c, out);
    ReadsSplit(c.lx, "\\", "");
    ConcatAppend(c.lx.parts, Pending(c.lx));
    hide Concat;
    assert Pending(d.lx) == "";
  }

  /** The rest of an escape: the part is the character meant. */
  lemma EscapeEnds(c: Config, ch: char, out: Outside) returns (d: Config)
    requires Inv(c) && c.queue == [] && c.state == AtValue(StringEscape) && c.lx.resume == AtValue(DubQuotedString)
    requires c.lx.start == c.lx.pos && Reads(c.lx, PrintChar(ch)[1..]) && |PrintChar(ch)| == 2
    ensures InString(d) && Leads(c, d, out) && SameBut(c, d) && d.lx.pos == c.lx.pos + 1
    ensures InBounds(c.lx) && InBounds(d.lx) && Gathered(d.lx) == Gathered(c.lx) + [ch]
  {
    hide Inv, ParseFrom, Concat;
    d := LexMove(c, out);
    ReadsSplit(c.lx, PrintChar(ch)[1..], "");
    ConcatAppend(c.lx.parts, [ch]);
    assert Pending(c.lx) == "" && Pending(d.lx) == "";
  }

  lemma HexEscapeEnds(c: Config, ch: char, out: Outside) returns (d: Config)
    requires Inv(c) && c.queue == [] && c.state == AtValue(StringEscape) && c.lx.resume == AtValue(DubQuotedString)
    requires c.lx.start == c.lx.pos && Reads(c.lx, PrintChar(ch)[1..]) && |PrintChar(ch)| == 4
    ensures InString(d) && Leads(c, d, out) && SameBut(c, d) && d.lx.pos == c.lx.pos + 3
    ensures InBounds(c.lx) && InBounds(d.lx) && Gathered(d.lx) == Gathered(c.lx) + [ch]
  {
    hide Inv, ParseFrom, Concat, HexDigit;
    var h, l := HexDigit(ch as int / 16), HexDigit(ch as int % 16);
    assert PrintChar(ch)[1..] == "x" + [h, l];
    ReadsSplit(c.lx, "x", [h, l]);
    var b := LexMove(c, out);
    assert b.lx == Fwd(c.lx, 1) && b.state == AtValue(StringBinary);
    ReadsSplit(b.lx, [h, l], "");
    d := LexMove(b, out);
    HexRoundTrip(ch);
    assert d.lx == AddPart(b.lx, 2, [ch]).1;
    ConcatAppend(c.lx.parts, [ch]);
    assert Pending(c.lx) == "" && Pending(d.lx) == "";
  }

  lemma HexRoundTrip(ch: char)
    requires ch < ' '
    ensures (16 * HexValue(HexDigit(ch as int / 16)) + HexValue(HexDigit(ch as int % 16))) as char == ch
  {
  }

  /** One character of a string, however it is written. */
  lemma CharParses(c: Config, ch: char, out: Outside) returns (d: Config)
    requires InString(c) && Reads(c.lx, PrintChar(ch))
    ensures InString(d) && Leads(c, d, out) && SameBut(c, d) && d.lx.pos == c.lx.pos + |PrintChar(ch)|
    ensures InBounds(c.lx) && InBounds(d.lx) && Gathered(d.lx) == Gathered(c.lx) + [ch]
  {
    hide Inv, ParseFrom, Gathered, HexDigit;
    if |PrintChar(ch)| == 1 {
      d := PlainChar(c, ch, out);
    } else {
      assert PrintChar(ch) == "\\" + PrintChar(ch)[1..];
      ReadsSplit(c.lx, "\\", PrintChar(ch)[1..]);
      var b := EscapeStarts(c, out);
      assert Reads(b.lx, PrintChar(ch)[1..]);
      if |PrintChar(ch)| == 2 {
        d := EscapeEnds(b, ch, out);
      } else {
        d := HexEscapeEnds(b, ch, out);
      }
    }
  }

  lemma {:induction false} CharsParse(c: Config, s: string, out: Outside) returns (d: Config)
    requires InString(c) && Reads(c.lx, PrintChars(s))
    ensures InString(d) && Leads(c, d, out) && SameBut(c, d) && d.lx.pos == c.lx.pos + |PrintChars(s)|
    ensures InBounds(c.lx) && InBounds(d.lx) && Gathered(d.lx) == Gathered(c.lx) + s
    decreases |s|
  {
    hide Inv, ParseFrom, Gathered, PrintChar, Reads;
    if s == "" {
      d := c;
      BoundsOf(c);
      assert Gathered(c.lx) + s == Gathered(c.lx);
    } else {
      ReadsSplit(c.lx, PrintChar(s[0]), PrintChars(s[1..]));
      var b := CharParses(c, s[0], out);
      SameReads(Fwd(c.lx, |PrintChar(s[0])|), b.lx, PrintChars(s[1..]));
      d := CharsParse(b, s[1..], out);
      assert Gathered(c.lx) + [s[0]] + s[1..] == Gathered(c.lx) + s;
    }
  }

  lemma BoundsOf(c: Config)
    requires Inv(c) && c.queue == []
    ensures InBounds(c.lx)
  {
  }

  // ----- values -----

  /** A value is about to be read. */
  predicate AtStart(c: Config) {
    Inv(c) && c.queue == [] && c.state == AtValue(Value) && c.lx.start == c.lx.pos && c.lx.stack != []
  }

  lemma NoParts(c: Config)
    requires AtStart(c)
    ensures c.lx.parts == [] && InBounds(c.lx)
  {
  }

  /** The value has been read, set, and the lexer is back where the stack said. */
  ghost predicate Done(c: Config, d: Config, v: ConfParse.Value, length: nat) {
    && c.lx.stack != [] && CanSet(c.p)
    && Inv(d) && d.queue == [] && d.state == Last(c.lx.stack)
    && d.lx.stack == Init(c.lx.stack) && d.lx.input == c.lx.input && d.lx.start == d.lx.pos == c.lx.pos + length
    && d.p == SetValue(c.p, v) && d.prev.typ != ItemKey
  }

  /** The last move of a value: its item is taken. */
  lemma Settles(c: Config, b: Config, v: ConfParse.Value, length: nat, out: Outside) returns (d: Config)
    requires c.lx.stack != [] && Inv(b) && b.state == Last(c.lx.stack) && b.p == c.p
    requires b.lx.stack == Init(c.lx.stack) && b.lx.input == c.lx.input && b.lx.start == b.lx.pos == c.lx.pos + length
    requires |b.queue| == 1 && SetsValue(b.queue[0].typ)
    requires CanSet(b.p) ==> Process(b.p, b.queue[0], out) == Some(SetValue(b.p, v))
    ensures Done(c, d, v, length) && Leads(b, d, out)
  {
    hide Inv, ParseFrom, Process, SetValue;
    ItemIsTaken(b);
    d := ItemMove(b, out, SetValue(b.p, v));
  }

  lemma StringParses(c: Config, s: string, out: Outside) returns (d: Config)
    requires AtStart(c) && Reads(c.lx, "\"" + PrintChars(s) + "\"")
    ensures Done(c, d, VString(s), |PrintChars(s)| + 2) && Leads(c, d, out)
  {
    hide Inv, ParseFrom, Process, SetValue, PrintChars, Gathered, InBounds, Done;
    assert "\"" + PrintChars(s) + "\"" == "\"" + (PrintChars(s) + "\"");
    ReadsSplit(c.lx, "\"", PrintChars(s) + "\"");
    var a := OpensQuote(c, out);
    ReadsSplit(a.lx, PrintChars(s), "\"");
    var b := CharsParse(a, s, out);
    assert "" + s == s;
    d := ClosesQuote(c, b, s, out);
  }

  lemma OpensQuote(c: Config, out: Outside) returns (d: Config)
    requires AtStart(c) && At(c.lx, 0) == '"'
    ensures InString(d) && Leads(c, d, out) && SameBut(c, d) && d.lx == Fwd(c.lx, 1).(start := d.lx.pos, resume := d.state)
    ensures InBounds(d.lx) && Gathered(d.lx) == "" && d.lx.pos == c.lx.pos + 1
  {
    hide Inv, ParseFrom;
    NoParts(c);
    d := LexMove(c, out);
  }

  lemma ClosesQuote(c: Config, b: Config, s: string, out: Outside) returns (d: Config)
    requires c.lx.stack != [] && InString(b) && SameBut(c, b) && InBounds(b.lx) && Gathered(b.lx) == s
    requires At(b.lx, 0) == '"' && c.lx.pos <= b.lx.pos
    ensures Done(c, d, VString(s), b.lx.pos + 1 - c.lx.pos) && Leads(b, d, out)
  {
    hide Inv, ParseFrom, Concat;
    var e := LexMove(b, out);
    assert e.queue == [Item(ItemString, s)];
    d := Settles(c, e, VString(s), b.lx.pos + 1 - c.lx.pos, out);
  }

  // ----- integers -----

  /** Reading digits in one of the two number states. */
  lemma {:induction false} DigitsParse(c: Config, ds: string, out: Outside) returns (d: Config)
    requires Inv(c) && c.queue == [] && (c.state == AtValue(Number) || c.state == AtValue(NegNumber))
    requires AllDigits(ds) && Reads(c.lx, ds)
    ensures d == c.(lx := Fwd(c.lx, |ds|)) && Leads(c, d, out)
    decreases |ds|
  {
    BoundsOf(c);
    hide ParseFrom, Inv, Next;
    if ds == "" {
      assert Fwd(c.lx, 0) == c.lx;
      d := c;
    } else {
      assert ds == [ds[0]] + ds[1..];
      ReadsSplit(c.lx, [ds[0]], ds[1..]);
      NextDigit(c.state, c.lx);
      var b := LexMove(c, out);
      d := DigitsParse(b, ds[1..], out);
    }
  }

  lemma NextDigit(s: State, lx: Lexer)
    requires InBounds(lx) && (s == AtValue(Number) || s == AtValue(NegNumber)) && IsDigit(At(lx, 0))
    ensures Next(s, lx) == Go(s, Fwd(lx, 1))
  {
  }

  lemma {:induction false} NumberLengthAll(s: string)
    requires forall i :: 0 <= i < |s| ==> IsDigit(s[i]) || s[i] == '-'
    ensures NumberLength(s) == |s|
  {
    if s != "" {
      NumberLengthAll(s[1..]);
    }
  }

  lemma ReadsInt(p: Parser, n: int, out: Outside)
    requires CanSet(p) && MIN_INT64 <= n <= MAX_INT64
    ensures Process(p, Item(ItemInteger, PrintInt(n)), out) == Some(SetValue(p, VInt(n)))
  {
    hide SetValue, Digits;
    var s := PrintInt(n);
    NumberLengthAll(s);
    assert s[..|s|] == s && s[|s|..] == "";
    assert Lower("") == "";
    if n < 0 {
      assert s[1..] == Digits(-n);
    } else {
      assert IsDigit(s[0]);
    }
    assert ParseInt(s) == Some(n);
  }

  lemma IntParses(c: Config, n: int, out: Outside, end: char) returns (d: Config)
    requires AtStart(c) && Reads(c.lx, PrintInt(n) + [end]) && (end == ',' || end == '\n')
    requires MIN_INT64 <= n <= MAX_INT64
    ensures Done(c, d, VInt(n), |PrintInt(n)|) && Leads(c, d, out)
  {
    hide Inv, ParseFrom, Process, SetValue, Digits;
    var b := NumberRead(c, n, out, end);
    ReadsSplit(c.lx, PrintInt(n), [end]);
    var e := NumberSent(c, b, n, out, end);
    ItemIsTaken(e);
    ReadsInt(e.p, n, out);
    d := Settles(c, e, VInt(n), |PrintInt(n)|, out);
  }

  /** The first digit, and the sign before it if there is one. */
  lemma NumberStarts(c: Config, neg: bool, digit: char, out: Outside) returns (d: Config)
    requires AtStart(c) && IsDigit(digit) && Reads(c.lx, (if neg then "-" else "") + [digit])
    ensures d == c.(lx := Fwd(c.lx, if neg then 2 else 1), state := AtValue(if neg then NegNumber else Number))
    ensures Leads(c, d, out)
  {
    hide Inv, ParseFrom;
    if neg {
      assert "-" + [digit] == ['-', digit];
      ReadsSplit(c.lx, "-", [digit]);
      var a := LexMove(c, out);
      assert a == c.(lx := Fwd(c.lx, 1), state := AtValue(NegNumberStart));
      ReadsSplit(a.lx, [digit], "");
      d := LexMove(a, out);
    } else {
      assert "" + [digit] == [digit];
      ReadsSplit(c.lx, [digit], "");
      var a := LexMove(c, out);
      assert a == c.(state := AtValue(NumberStart));
      d := LexMove(a, out);
    }
  }

  /** The sign and the digits. */
  lemma NumberRead(c: Config, n: int, out: Outside, end: char) returns (d: Config)
    requires AtStart(c) && Reads(c.lx, PrintInt(n) + [end])
    ensures d == c.(lx := Fwd(c.lx, |PrintInt(n)|), state := AtValue(if n < 0 then NegNumber else Number))
    ensures Leads(c, d, out)
  {
    hide Inv, ParseFrom, Digits;
    var ds := Digits(if n < 0 then -n else n);
    var sign := if n < 0 then "-" else "";
    assert PrintInt(n) + [end] == sign + [ds[0]] + (ds[1..] + [end]);
    ReadsSplit(c.lx, sign + [ds[0]], ds[1..] + [end]);
    var b := NumberStarts(c, n < 0, ds[0], out);
    ReadsSplit(b.lx, ds[1..], [end]);
    d := DigitsParse(b, ds[1..], out);
  }

  lemma NumberSent(c: Config, b: Config, n: int, out: Outside, end: char) returns (d: Config)
    requires AtStart(c) && b == c.(lx := Fwd(c.lx, |PrintInt(n)|), state := b.state) && Inv(b)
    requires Reads(c.lx, PrintInt(n) + [end]) && (end == ',' || end == '\n')
    requires b.state == AtValue(if n < 0 then NegNumber else Number)
    ensures Leads(b, d, out) && d.queue == [Item(ItemInteger, PrintInt(n))] && d.p == c.p
    ensures d.state == Last(c.lx.stack) && d.lx.stack == Init(c.lx.stack)
    ensures d.lx.input == c.lx.input && d.lx.start == d.lx.pos == c.lx.pos + |PrintInt(n)|
  {
    hide Inv, ParseFrom, PrintInt, Concat;
    ReadsSplit(c.lx, PrintInt(n), [end]);
    NoParts(c);
    d := LexMove(b, out);
    ConcatNone();
    assert Pending(b.lx) == PrintInt(n);
    assert "" + PrintInt(n) == PrintInt(n);
  }

  // ----- booleans -----

  /** Reading a bare word. */
  lemma {:induction false} WordParses(c: Config, w: string, out: Outside) returns (d: Config)
    requires Inv(c) && c.queue == [] && c.state == AtValue(String) && Reads(c.lx, w)
    requires forall i :: 0 <= i < |w| ==> 'a' <= w[i] <= 'z'
    ensures d == c.(lx := Fwd(c.lx, |w|)) && Leads(c, d, out)
    decreases |w|
  {
    hide Inv, ParseFrom;
    if w == "" {
      BoundsOf(c);
      assert Fwd(c.lx, 0) == c.lx;
      d := c;
    } else {
      assert w == [w[0]] + w[1..];
      ReadsSplit(c.lx, [w[0]], w[1..]);
      var b := LexMove(c, out);
      assert b == c.(lx := Fwd(c.lx, 1));
      d := WordParses(b, w[1..], out);
    }
  }

  lemma BoolParses(c: Config, v: bool, out: Outside, end: char) returns (d: Config)
    requires AtStart(c) && Reads(c.lx, BoolWord(v) + [end]) && (end == ',' || end == '\n')
    ensures Done(c, d, VBool(v), |BoolWord(v)|) && Leads(c, d, out)
  {
    hide Inv, ParseFrom, BoolWord, Process, SetValue;
    var w := BoolWord(v);
    ReadsSplit(c.lx, w, [end]);
    var a := LexMove(c, out);
    assert a == c.(state := AtValue(String), lx := c.lx.(resume := AtValue(String)));
    var b := WordParses(a, w, out);
    var e := BoolSent(c, b, v, out, end);
    ItemIsTaken(e);
    ReadsBool(e.p, v, out);
    d := Settles(c, e, VBool(v), |w|, out);
  }

  lemma BoolSent(c: Config, b: Config, v: bool, out: Outside, end: char) returns (d: Config)
    requires AtStart(c) && b == c.(lx := Fwd(c.lx, |BoolWord(v)|).(resume := AtValue(String)), state := AtValue(String)) && Inv(b)
    requires Reads(c.lx, BoolWord(v) + [end]) && (end == ',' || end == '\n')
    ensures Leads(b, d, out) && d.queue == [Item(ItemBool, BoolWord(v))] && d.p == c.p
    ensures d.state == Last(c.lx.stack) && d.lx.stack == Init(c.lx.stack)
    ensures d.lx.input == c.lx.input && d.lx.start == d.lx.pos == c.lx.pos + |BoolWord(v)|
  {
    hide Inv, ParseFrom, BoolWord, Concat, IsBoolWord;
    var w := BoolWord(v);
    ReadsSplit(c.lx, w, [end]);
    NoParts(c);
    d := LexMove(b, out);
    assert Pending(b.lx) == w;
    WordIsBool(v);
    ConcatNone();
    assert "" + w == w;
  }

  lemma WordIsBool(v: bool)
    ensures IsBoolWord(BoolWord(v))
  {
    assert Lower("true") == "true" && Lower("false") == "false";
  }

  lemma ReadsBool(p: Parser, v: bool, out: Outside)
    requires CanSet(p)
    ensures Process(p, Item(ItemBool, BoolWord(v)), out) == Some(SetValue(p, VBool(v)))
  {
    assert Lower("true") == "true" && Lower("false") == "false";
  }

  // ----- keys -----

  /** Reading the text of a quoted key, in a map or at the top. */
  lemma {:induction false} KeyCharsParse(c: Config, k: string, out: Outside) returns (d: Config)
    requires Inv(c) && c.queue == [] && (c.state == AtKey(DubQuotedKey) || c.state == AtMap(MapDubQuotedKey))
    requires IsKey(k) && Reads(c.lx, k)
    ensures d == c.(lx := Fwd(c.lx, |k|)) && Leads(c, d, out)
    decreases |k|
  {
    hide Inv, ParseFrom;
    if k == "" {
      BoundsOf(c);
      assert Fwd(c.lx, 0) == c.lx;
      d := c;
    } else {
      assert k == [k[0]] + k[1..];
      ReadsSplit(c.lx, [k[0]], k[1..]);
      var b := LexMove(c, out);
      assert b == c.(lx := Fwd(c.lx, 1));
      d := KeyCharsParse(b, k[1..], out);
    }
  }

  /** A state that only drops what is pending. */
  lemma SkipMove(c: Config, out: Outside) returns (d: Config)
    requires Inv(c) && c.queue == [] && c.state.Skip?
    ensures d == c.(state := c.state.next, lx := Ignore(c.lx)) && Leads(c, d, out)
  {
    hide Inv, ParseFrom;
    d := LexMove(c, out);
  }

  /** From behind the opening quote of a key to behind its colon. */
  lemma KeyParses(c: Config, k: string, out: Outside) returns (d: Config)
    requires Inv(c) && c.queue == [] && (c.state == AtKey(DubQuotedKey) || c.state == AtMap(MapDubQuotedKey))
    requires IsKey(k) && Reads(c.lx, k + "\":") && c.lx.start == c.lx.pos
    ensures d.state == Skip(if c.state.AtKey? then AtValue(Value) else AtMap(MapValue)) && d.queue == []
    ensures d.p == c.p.(keys := c.p.keys + [k]) && Leads(c, d, out)
    ensures d.lx.input == c.lx.input && d.lx.stack == c.lx.stack && d.lx.pos == c.lx.pos + |k| + 2
  {
    hide Inv, ParseFrom;
    ReadsSplit(c.lx, k, "\":");
    var a := KeyCharsParse(c, k, out);
    assert "\":" == "\"" + ":";
    ReadsSplit(a.lx, "\"", ":");
    var b := KeySent(c, a, k, out);
    var e := ItemMove(b, out, b.p.(keys := b.p.keys + [k]));
    d := ColonParses(e, out);
  }

  lemma KeySent(c: Config, a: Config, k: string, out: Outside) returns (d: Config)
    requires Inv(c) && c.queue == [] && (c.state == AtKey(DubQuotedKey) || c.state == AtMap(MapDubQuotedKey))
    requires c.lx.start == c.lx.pos && Reads(c.lx, k) && a == c.(lx := Fwd(c.lx, |k|)) && Inv(a) && At(a.lx, 0) == '"'
    ensures Leads(a, d, out) && d.queue == [Item(ItemKey, k)] && d.p == c.p
    ensures d.state == Skip(if c.state.AtKey? then AtKey(KeyEnd) else AtMap(MapKeyEnd))
    ensures d.lx == Fwd(Ignore(a.lx), 1)
  {
    hide ParseFrom, Concat;
    assert c.lx.parts == [];
    hide Inv;
    d := LexMove(a, out);
    ConcatNone();
    assert Pending(a.lx) == k;
    assert "" + k == k;
  }

  lemma ColonParses(c: Config, out: Outside) returns (d: Config)
    requires Inv(c) && c.queue == [] && (c.state == Skip(AtKey(KeyEnd)) || c.state == Skip(AtMap(MapKeyEnd)))
    requires InBounds(c.lx) && At(c.lx, 0) == ':'
    ensures d == c.(state := Skip(if c.state.next.AtKey? then AtValue(Value) else AtMap(MapValue)),
                    lx := Fwd(Ignore(c.lx), 1))
    ensures Leads(c, d, out)
  {
    hide Inv, ParseFrom;
    var a := SkipMove(c, out);
    d := LexMove(a, out);
  }

  // ----- containers -----

  /** No value starts with white space, a comment, or what ends an element or an entry. */
  lemma PrintStarts(t: Tree)
    ensures |Print(t)| > 0
    ensures var ch := Print(t)[0];
            ch == '"' || ch == '-' || IsDigit(ch) || ch == 't' || ch == 'f' || ch == '[' || ch == '{'
  {
    match t
    case TInt(n) => assert IsDigit(Digits(if n < 0 then -n else n)[0]);
    case _ =>
  }

  /** Nothing but the parser changes, and the lexer goes on by some characters. */
  predicate Moved(c: Config, d: Config, length: nat) {
    && Inv(d) && d.queue == [] && d.state == c.state && d.lx.stack == c.lx.stack && d.lx.input == c.lx.input
    && d.lx.start == d.lx.pos == c.lx.pos + length
  }

  /** An element of an array, or its end, is about to be read. */
  predicate AtElem(c: Config) {
    && Inv(c) && c.queue == [] && c.state == AtArray(ArrayValue) && c.lx.start == c.lx.pos
    && c.p.ctxs != [] && Last(c.p.ctxs).ArrCtx?
  }

  function WithElems(p: Parser, a: seq<ConfParse.Value>): (p': Parser)
    requires p.ctxs != []
  {
    p.(ctxs := Init(p.ctxs) + [ArrCtx(a)])
  }

  lemma ElemStarts(c: Config, ch: char, out: Outside) returns (d: Config)
    requires AtElem(c) && Reads(c.lx, [ch])
    requires ch == '"' || ch == '-' || IsDigit(ch) || ch == 't' || ch == 'f' || ch == '[' || ch == '{'
    ensures AtStart(d) && d == c.(state := AtValue(Value), lx := Push(c.lx, AtArray(ArrayValueEnd))) && Leads(c, d, out)
  {
    hide Inv, ParseFrom;
    ReadsSplit(c.lx, [ch], "");
    d := LexMove(c, out);
  }

  lemma ElemEnds(c: Config, out: Outside) returns (d: Config)
    requires Inv(c) && c.queue == [] && c.state == AtArray(ArrayValueEnd) && InBounds(c.lx) && At(c.lx, 0) == ','
    ensures d == c.(state := AtArray(ArrayValue), lx := Ignore(Fwd(c.lx, 1))) && Leads(c, d, out)
  {
    hide Inv, ParseFrom;
    var b := LexMove(c, out);
    d := SkipMove(b, out);
  }

  lemma {:induction false} ElemsParse(c: Config, elems: seq<Tree>, out: Outside) returns (d: Config)
    requires AtElem(c) && Reads(c.lx, PrintElems(elems))
    requires forall i :: 0 <= i < |elems| ==> Writable(elems[i])
    ensures Moved(c, d, |PrintElems(elems)|) && Leads(c, d, out)
    ensures d.p == WithElems(c.p, DenoteElems(elems, Last(c.p.ctxs).a))
    decreases elems, 1
  {
    hide Inv, ParseFrom, Print, Denote, Writable;
    if elems == [] {
      d := c;
      assert c.p.ctxs == Init(c.p.ctxs) + [Last(c.p.ctxs)];
    } else {
      var b := ElemParses(c, elems[0], PrintElems(elems[1..]), out);
      d := ElemsParse(b, elems[1..], out);
      assert Init(b.p.ctxs) == Init(c.p.ctxs);
    }
  }

  lemma {:induction false} ElemParses(c: Config, t: Tree, rest: string, out: Outside) returns (d: Config)
    requires AtElem(c) && Reads(c.lx, Print(t) + "," + rest) && Writable(t)
    ensures AtElem(d) && Moved(c, d, |Print(t)| + 1) && Reads(d.lx, rest) && Leads(c, d, out)
    ensures d.p == WithElems(c.p, Last(c.p.ctxs).a + [Denote(t)])
    decreases t, 1
  {
    hide Inv, ParseFrom, Print, Denote, Writable, Reads;
    var text := Print(t);
    ReadsSplit(c.lx, text + ",", rest);
    ReadsSplit(c.lx, text, ",");
    PrintStarts(t);
    assert text == [text[0]] + text[1..];
    ReadsSplit(c.lx, [text[0]], text[1..]);
    var a := ElemStarts(c, text[0], out);
    SameReads(c.lx, a.lx, text + ",");
    var b := TreeParses(a, t, ',', out);
    assert Init(a.lx.stack) == c.lx.stack;
    SameReads(Fwd(c.lx, |text|), b.lx, ",");
    ReadsSplit(b.lx, ",", "");
    d := ElemEnds(b, out);
    SameReads(Fwd(c.lx, |text + ","|), d.lx, rest);
  }

  lemma ArrayOpens(c: Config, out: Outside) returns (d: Config)
    requires AtStart(c) && At(c.lx, 0) == '['
    ensures AtElem(d) && Leads(c, d, out) && d.p == c.p.(ctxs := c.p.ctxs + [ArrCtx([])])
    ensures d.lx == Ignore(Fwd(c.lx, 1)) && d.lx.pos == c.lx.pos + 1
  {
    hide Inv, ParseFrom, Concat;
    NoParts(c);
    var b := LexMove(c, out);
    d := ItemMove(b, out, c.p.(ctxs := c.p.ctxs + [ArrCtx([])]));
  }

  lemma ArrayEndSent(c: Config, out: Outside) returns (d: Config)
    requires AtElem(c) && At(c.lx, 0) == ']' && c.lx.stack != []
    ensures Leads(c, d, out) && d.p == c.p && d.state == Last(c.lx.stack)
    ensures |d.queue| == 1 && d.queue[0].typ == ItemArrayEnd
    ensures d.lx.stack == Init(c.lx.stack) && d.lx.input == c.lx.input && d.lx.start == d.lx.pos == c.lx.pos + 1
  {
    hide Inv, ParseFrom, Concat;
    var a := LexMove(c, out);
    d := LexMove(a, out);
  }

  /** The end of an array or a map: it becomes a value of what is around it. */
  lemma Closes(c: Config, b: Config, out: Outside) returns (d: Config)
    requires Inv(b) && b.p == c.p && |b.queue| == 1
    requires b.queue[0].typ == ItemArrayEnd || b.queue[0].typ == ItemMapEnd
    ensures |c.p.ctxs| >= 2 && CanSet(c.p.(ctxs := Init(c.p.ctxs)))
    ensures Leads(b, d, out) && d.p == SetValue(c.p.(ctxs := Init(c.p.ctxs)), Closed(Last(c.p.ctxs)))
    ensures d == b.(p := d.p, queue := [], prev := b.queue[0])
  {
    hide Inv, ParseFrom, SetValue;
    ItemIsTaken(b);
    d := ItemMove(b, out, Close(b.p));
  }

  lemma {:induction false} ArrayParses(c: Config, elems: seq<Tree>, out: Outside) returns (d: Config)
    requires AtStart(c) && Reads(c.lx, "[" + PrintElems(elems) + "]")
    requires forall i :: 0 <= i < |elems| ==> Writable(elems[i])
    ensures Done(c, d, VArray(DenoteElems(elems, [])), |PrintElems(elems)| + 2) && Leads(c, d, out)
    decreases elems, 2
  {
    hide Inv, ParseFrom, PrintElems, DenoteElems, Writable, SetValue, Reads, Leads, WithElems, Closed;
    ReadsSplit(c.lx, "[" + PrintElems(elems), "]");
    ReadsSplit(c.lx, "[", PrintElems(elems));
    var a := ArrayOpens(c, out);
    SameReads(Fwd(c.lx, 1), a.lx, PrintElems(elems));
    var b := ElemsParse(a, elems, out);
    ArrayLeaves(c.p, DenoteElems(elems, []));
    EndIsAhead(c.lx, |PrintElems(elems)| + 1, b.lx);
    d := ArrayCloses(c, b, DenoteElems(elems, []), out);
    LeadsOn(c, a, b, out);
    LeadsOn(c, b, d, out);
  }

  lemma LeadsOn(c: Config, d: Config, e: Config, out: Outside)
    requires Leads(c, d, out) && Leads(d, e, out)
    ensures Leads(c, e, out)
  {
  }

  lemma EndIsAhead(lx: Lexer, n: nat, lx': Lexer)
    requires 0 <= lx.pos && lx'.input == lx.input && lx'.pos == lx.pos + n
    ensures At(lx', 0) == At(lx, n)
  {
  }

  lemma ArrayLeaves(p: Parser, x: seq<ConfParse.Value>)
    ensures var a := p.(ctxs := p.ctxs + [ArrCtx([])]);
            && Last(a.ctxs) == ArrCtx([])
            && var b := WithElems(a, x);
               b.ctxs != [] && b.(ctxs := Init(b.ctxs)) == p && Last(b.ctxs) == ArrCtx(x) && Closed(Last(b.ctxs)) == VArray(x)
  {
    assert Init(p.ctxs + [ArrCtx([])]) == p.ctxs && Init(p.ctxs + [ArrCtx(x)]) == p.ctxs;
  }

  /** The end of an array, which becomes a value of what is around it. */
  lemma ArrayCloses(c: Config, b: Config, x: seq<ConfParse.Value>, out: Outside) returns (d: Config)
    requires AtElem(b) && At(b.lx, 0) == ']' && c.lx.stack != [] && b.lx.stack == c.lx.stack && b.lx.input == c.lx.input
    requires b.p.ctxs != [] && b.p.(ctxs := Init(b.p.ctxs)) == c.p && Closed(Last(b.p.ctxs)) == VArray(x) && c.lx.pos <= b.lx.pos
    ensures Done(c, d, VArray(x), b.lx.pos + 1 - c.lx.pos) && Leads(b, d, out)
  {
    hide Inv, ParseFrom, SetValue, Closed;
    var e := ArrayEndSent(b, out);
    d := Closes(b, e, out);
  }

  /** An entry of a map, or its end, is about to be read; at the top that is the whole text. */
  predicate AtEntry(c: Config) {
    && Inv(c) && c.queue == [] && (c.state == AtMap(MapKeyStart) || c.state == Top) && c.lx.start == c.lx.pos
    && c.p.ctxs != [] && Last(c.p.ctxs).MapCtx? && c.prev.typ != ItemKey
  }

  /** What follows an entry. */
  function EndAt(s: State): (ch: char) {
    if s == Top then '\n' else ','
  }

  function WithEntries(p: Parser, m: map<string, ConfParse.Value>): (p': Parser)
    requires p.ctxs != []
  {
    p.(ctxs := Init(p.ctxs) + [MapCtx(m)])
  }

  lemma KeyOpens(c: Config, out: Outside) returns (d: Config)
    requires AtEntry(c) && At(c.lx, 0) == '"'
    ensures Inv(d) && Leads(c, d, out) && d.queue == [] && d.p == c.p
    ensures d.state == if c.state == Top then AtKey(DubQuotedKey) else AtMap(MapDubQuotedKey)
    ensures d.lx.stack == c.lx.stack + if c.state == Top then [TopValueEnd] else []
    ensures d.lx.input == c.lx.input && d.lx.start == d.lx.pos == c.lx.pos + 1
  {
    hide Inv, ParseFrom;
    var a := LexMove(c, out);
    var b := a;
    if c.state == Top {
      b := LexMove(a, out);
    }
    d := SkipMove(b, out);
  }

  lemma ValueOpens(c: Config, ch: char, out: Outside) returns (d: Config)
    requires Inv(c) && c.queue == [] && (c.state == Skip(AtMap(MapValue)) || c.state == Skip(AtValue(Value)))
    requires Reads(c.lx, [ch]) && (c.state.next.AtValue? ==> c.lx.stack != [])
    requires ch == '"' || ch == '-' || IsDigit(ch) || ch == 't' || ch == 'f' || ch == '[' || ch == '{'
    ensures AtStart(d) && Leads(c, d, out) && d.p == c.p && d.lx.input == c.lx.input && d.lx.pos == c.lx.pos
    ensures d.lx.stack == c.lx.stack + if c.state.next.AtValue? then [] else [AtMap(MapValueEnd)]
  {
    hide Inv, ParseFrom;
    ReadsSplit(c.lx, [ch], "");
    d := SkipMove(c, out);
    if d.state == AtMap(MapValue) {
      d := LexMove(d, out);
    }
  }

  lemma EntryEnds(c: Config, s: State, out: Outside) returns (d: Config)
    requires Inv(c) && c.queue == [] && (s == Top || s == AtMap(MapKeyStart))
    requires c.state == (if s == Top then TopValueEnd else AtMap(MapValueEnd))
    requires InBounds(c.lx) && At(c.lx, 0) == EndAt(s)
    ensures d == c.(state := s, lx := Ignore(Fwd(c.lx, 1))) && Leads(c, d, out)
  {
    hide Inv, ParseFrom;
    d := LexMove(c, out);
    if s != Top {
      d := SkipMove(d, out);
    }
  }

  /** From the start of an entry to behind its colon. */
  lemma KeyReads(c: Config, k: string, rest: string, out: Outside) returns (d: Config)
    requires AtEntry(c) && IsKey(k) && Reads(c.lx, PrintKey(k) + rest)
    ensures Inv(d) && Leads(c, d, out) && d.queue == [] && d.p == c.p.(keys := c.p.keys + [k])
    ensures d.state == Skip(if c.state == Top then AtValue(Value) else AtMap(MapValue)) && Reads(d.lx, rest)
    ensures d.lx.stack == c.lx.stack + if c.state == Top then [TopValueEnd] else []
    ensures d.lx.input == c.lx.input && d.lx.pos == c.lx.pos + |PrintKey(k)|
  {
    hide Inv, ParseFrom, IsKey;
    ReadsSplit(c.lx, PrintKey(k), rest);
    assert PrintKey(k) == "\"" + (k + "\":");
    ReadsSplit(c.lx, "\"", k + "\":");
    var a := KeyOpens(c, out);
    d := KeyParses(a, k, out);
  }

  /** From the start of an entry to the start of its value. */
  lemma EntryOpens(c: Config, k: string, value: string, out: Outside) returns (d: Config)
    requires AtEntry(c) && IsKey(k) && Reads(c.lx, PrintKey(k) + value) && value != ""
    requires var ch := value[0];
             ch == '"' || ch == '-' || IsDigit(ch) || ch == 't' || ch == 'f' || ch == '[' || ch == '{'
    ensures AtStart(d) && Leads(c, d, out) && d.p == c.p.(keys := c.p.keys + [k]) && Reads(d.lx, value)
    ensures d.lx.stack == c.lx.stack + [if c.state == Top then TopValueEnd else AtMap(MapValueEnd)]
    ensures d.lx.input == c.lx.input && d.lx.pos == c.lx.pos + |PrintKey(k)|
  {
    hide Inv, ParseFrom, PrintKey, IsKey;
    var a := KeyReads(c, k, value, out);
    assert value == [value[0]] + value[1..];
    ReadsSplit(a.lx, [value[0]], value[1..]);
    d := ValueOpens(a, value[0], out);
  }

  lemma EntrySets(p: Parser, k: string, v: ConfParse.Value)
    requires p.ctxs != [] && Last(p.ctxs).MapCtx?
    ensures SetValue(p.(keys := p.keys + [k]), v) == WithEntries(p, Last(p.ctxs).m[k := v])
  {
    assert Init(p.keys + [k]) == p.keys;
  }

  lemma {:induction false} EntryParses(c: Config, e: Entry, out: Outside) returns (d: Config)
    requires AtEntry(c) && Reads(c.lx, PrintKey(e.key) + (Print(e.tree) + [EndAt(c.state)]))
    requires IsKey(e.key) && Writable(e.tree)
    ensures Moved(c, d, |PrintKey(e.key)| + |Print(e.tree)| + 1) && Leads(c, d, out)
    ensures d.prev.typ != ItemKey && d.p == WithEntries(c.p, Last(c.p.ctxs).m[e.key := Denote(e.tree)])
    decreases e, 1
  {
    hide Inv, ParseFrom, Print, PrintKey, Denote, Writable, IsKey, Reads, SetValue, WithEntries;
    PrintStarts(e.tree);
    var b := EntryOpens(c, e.key, Print(e.tree) + [EndAt(c.state)], out);
    ReadsSplit(b.lx, Print(e.tree), [EndAt(c.state)]);
    var f := TreeParses(b, e.tree, EndAt(c.state), out);
    assert Init(b.lx.stack) == c.lx.stack;
    EntrySets(c.p, e.key, Denote(e.tree));
    d := EntryEnds(f, c.state, out);
  }

  lemma {:induction false} EntriesParse(c: Config, entries: seq<Entry>, out: Outside) returns (d: Config)
    requires AtEntry(c) && Reads(c.lx, PrintEntries(entries, EndAt(c.state)))
    requires forall i :: 0 <= i < |entries| ==> IsKey(entries[i].key) && Writable(entries[i].tree)
    ensures Moved(c, d, |PrintEntries(entries, EndAt(c.state))|) && Leads(c, d, out)
    ensures AtEntry(d) && d.p == WithEntries(c.p, DenoteEntries(entries, Last(c.p.ctxs).m))
    decreases entries, 1
  {
    hide Inv, ParseFrom, Print, PrintKey, Denote, Writable, IsKey, Reads;
    if entries == [] {
      d := c;
      assert c.p.ctxs == Init(c.p.ctxs) + [Last(c.p.ctxs)];
    } else {
      var e, rest := entries[0], PrintEntries(entries[1..], EndAt(c.state));
      var first := PrintKey(e.key) + (Print(e.tree) + [EndAt(c.state)]);
      assert PrintEntries(entries, EndAt(c.state)) == first + rest;
      ReadsSplit(c.lx, first, rest);
      var b := EntryParses(c, e, out);
      SameReads(Fwd(c.lx, |first|), b.lx, rest);
      assert Init(b.p.ctxs) == Init(c.p.ctxs);
      d := EntriesParse(b, entries[1..], out);
    }
  }

  lemma MapOpens(c: Config, out: Outside) returns (d: Config)
    requires AtStart(c) && At(c.lx, 0) == '{'
    ensures AtEntry(d) && d.state == AtMap(MapKeyStart) && Leads(c, d, out)
    ensures d.p == c.p.(ctxs := c.p.ctxs + [MapCtx(map[])])
    ensures d.lx == Ignore(Fwd(c.lx, 1)) && d.lx.pos == c.lx.pos + 1
  {
    hide Inv, ParseFrom, Concat;
    NoParts(c);
    var b := LexMove(c, out);
    d := ItemMove(b, out, c.p.(ctxs := c.p.ctxs + [MapCtx(map[])]));
  }

  lemma MapEndSent(c: Config, out: Outside) returns (d: Config)
    requires AtEntry(c) && c.state == AtMap(MapKeyStart) && At(c.lx, 0) == '}' && c.lx.stack != []
    ensures Leads(c, d, out) && d.p == c.p && d.state == Last(c.lx.stack)
    ensures |d.queue| == 1 && d.queue[0].typ == ItemMapEnd
    ensures d.lx.stack == Init(c.lx.stack) && d.lx.input == c.lx.input && d.lx.start == d.lx.pos == c.lx.pos + 1
  {
    hide Inv, ParseFrom, Concat;
    var a := LexMove(c, out);
    a := SkipMove(a, out);
    d := LexMove(a, out);
  }

  lemma {:induction false} MapParses(c: Config, entries: seq<Entry>, out: Outside) returns (d: Config)
    requires AtStart(c) && Reads(c.lx, "{" + PrintEntries(entries, ',') + "}")
    requires forall i :: 0 <= i < |entries| ==> IsKey(entries[i].key) && Writable(entries[i].tree)
    ensures Done(c, d, VMap(DenoteEntries(entries, map[])), |PrintEntries(entries, ',')| + 2) && Leads(c, d, out)
    decreases entries, 2
  {
    hide Inv, ParseFrom, PrintEntries, DenoteEntries, Writable, IsKey, SetValue, Reads, Leads, WithEntries, Closed;
    ReadsSplit(c.lx, "{" + PrintEntries(entries, ','), "}");
    ReadsSplit(c.lx, "{", PrintEntries(entries, ','));
    var a := MapOpens(c, out);
    SameReads(Fwd(c.lx, 1), a.lx, PrintEntries(entries, ','));
    var b := EntriesParse(a, entries, out);
    MapLeaves(c.p, DenoteEntries(entries, map[]));
    EndIsAhead(c.lx, |PrintEntries(entries, ',')| + 1, b.lx);
    d := MapCloses(c, b, DenoteEntries(entries, map[]), out);
    LeadsOn(c, a, b, out);
    LeadsOn(c, b, d, out);
  }

  lemma MapLeaves(p: Parser, x: map<string, ConfParse.Value>)
    ensures var a := p.(ctxs := p.ctxs + [MapCtx(map[])]);
            && Last(a.ctxs) == MapCtx(map[])
            && var b := WithEntries(a, x);
               b.ctxs != [] && b.(ctxs := Init(b.ctxs)) == p && Closed(Last(b.ctxs)) == VMap(x)
  {
    assert Init(p.ctxs + [MapCtx(map[])]) == p.ctxs && Init(p.ctxs + [MapCtx(x)]) == p.ctxs;
  }

  lemma MapCloses(c: Config, b: Config, x: map<string, ConfParse.Value>, out: Outside) returns (d: Config)
    requires AtEntry(b) && b.state == AtMap(MapKeyStart) && At(b.lx, 0) == '}'
    requires c.lx.stack != [] && b.lx.stack == c.lx.stack && b.lx.input == c.lx.input && c.lx.pos <= b.lx.pos
    requires b.p.ctxs != [] && b.p.(ctxs := Init(b.p.ctxs)) == c.p && Closed(Last(b.p.ctxs)) == VMap(x)
    ensures Done(c, d, VMap(x), b.lx.pos + 1 - c.lx.pos) && Leads(b, d, out)
  {
    hide Inv, ParseFrom, SetValue, Closed;
    var e := MapEndSent(b, out);
    d := Closes(b, e, out);
  }

  /** Any value is read back, wherever a value may stand. */
  lemma {:induction false} TreeParses(c: Config, t: Tree, end: char, out: Outside) returns (d: Config)
    requires AtStart(c) && Reads(c.lx, Print(t) + [end]) && (end == ',' || end == '\n') && Writable(t)
    ensures Done(c, d, Denote(t), |Print(t)|) && Leads(c, d, out)
    decreases t, 0
  {
    hide Inv, ParseFrom, SetValue, Done, PrintChars, PrintInt, PrintElems, PrintEntries, DenoteElems, DenoteEntries;
    ReadsSplit(c.lx, Print(t), [end]);
    match t
    case TString(s) => d := StringParses(c, s, out);
    case TInt(n) => d := IntParses(c, n, out, end);
    case TBool(b) => d := BoolParses(c, b, out, end);
    case TArray(elems) => d := ArrayParses(c, elems, out);
    case TMap(entries) => d := MapParses(c, entries, out);
  }

  // ----- the whole text -----

  lemma EndParses(c: Config, out: Outside)
    requires AtEntry(c) && c.state == Top && c.lx.pos == |c.lx.input|
    ensures Rooted(c.p) && ParseFrom(c, out) == Parsed(c.p.ctxs[0].m)
  {
    var b := LexMove(c, out);
    assert b.queue[0].typ == ItemEOF;
  }

  /** What is printed is what is parsed: for all entries, whatever their number, depth and text. */
  lemma {:induction false} RoundTrip(entries: seq<Entry>, out: Outside)
    requires forall i :: 0 <= i < |entries| ==> IsKey(entries[i].key) && Writable(entries[i].tree)
    ensures Parse(PrintEntries(entries, '\n'), out) == Parsed(DenoteEntries(entries, map[]))
  {
    hide Inv, ParseFrom, PrintEntries, DenoteEntries, Writable, IsKey;
    var c := Start(PrintEntries(entries, '\n'));
    assert c.lx.input[0..|c.lx.input|] == c.lx.input;
    var d := EntriesParse(c, entries, out);
    EndParses(d, out);
  }
}
