/** The lexer comes to an end: a measure of the unread input and of the state falls with every step,
    although many states read nothing or back up. */
module ConfFuel {
  import opened Basics
  import opened Text
  import opened ConfLex
  import opened ConfParse
  import opened ConfSafety

  /** States that hand on without reading stand above the states they hand on to. */
  function Rank(s: State, atEnd: bool): (r: nat)
    ensures r <= 11
  {
    match s
    case Halt => 0
    case Top => if atEnd then 0 else 8
    case TopValueEnd => 1
    case AtKey(k) => (match k case KeyStart => 7 case Key => 6 case KeyEnd => 5 case _ => 1)
    case AtInclude(i) => (match i case IncludeStart => 5 case Include => 4 case _ => 2)
    case AtArray(a) => (match a case ArrayValue => 5 case ArrayEnd => 2 case ArrayValueEnd => 1)
    case AtMap(m) => (match m case MapKey => 7 case MapKeyEnd => 6 case MapValue => 5 case MapEnd => 2 case _ => 1)
    case AtValue(v) => (match v case Value => 4 case ConvenientNumber => 3 case _ => 2)
    case AtComment(c) => (match c case CommentStart => 10 case Comment => 9)
    case Skip(_) => 11
  }

  function Fuel(s: State, lx: Lexer): (n: nat)
    requires InBounds(lx)
  {
    12 * (|lx.input| - lx.pos) + Rank(s, lx.pos == |lx.input|)
  }

  /** The step r leaves less to do than there was. */
  predicate Shrinks(r: Step, s: State, lx: Lexer)
    requires InBounds(lx)
  {
    r.0 != Halt ==> InBounds(r.1) && r.1.input == lx.input && Fuel(r.0, r.1) < Fuel(s, lx)
  }

  lemma PopRank(lx: Lexer, kinds: seq<Kind>, items: seq<Item>)
    requires InBounds(lx) && lx.stack == Mirror(kinds)
    ensures var r := Pop(lx, items);
            r.1.input == lx.input && r.1.pos == lx.pos && r.1.start == lx.start && Rank(r.0, false) == Rank(r.0, true) == 1
  {
  }

  lemma TopShrinks(s: State, lx: Lexer, kinds: seq<Kind>, n: nat)
    requires Ready(s, lx, kinds, n) && (s.Top? || s.TopValueEnd?)
    ensures Shrinks(Next(s, lx), s, lx)
  {
    hide Mirror, Concat, Lower, Placed, PartsInPlace, KeysNeeded;
  }

  lemma KeyShrinks(s: State, lx: Lexer, kinds: seq<Kind>, n: nat)
    requires Ready(s, lx, kinds, n) && (s == AtKey(Key) || s == AtKey(KeyEnd))
    ensures Shrinks(Next(s, lx), s, lx)
  {
    hide Mirror, Concat, Lower, Placed, PartsInPlace, KeysNeeded;
  }

  lemma KeyStartShrinks(s: State, lx: Lexer, kinds: seq<Kind>, n: nat)
    requires Ready(s, lx, kinds, n) && s.AtKey? && s.inKey != Key && s.inKey != KeyEnd
    ensures Shrinks(Next(s, lx), s, lx)
  {
    hide Mirror, Concat, Lower, Placed, PartsInPlace, KeysNeeded;
  }

  lemma IncludeShrinks(s: State, lx: Lexer, kinds: seq<Kind>, n: nat)
    requires Ready(s, lx, kinds, n) && s.AtInclude?
    ensures Shrinks(Next(s, lx), s, lx)
  {
    hide Mirror, Concat, Pop, KeysNeeded, PartsInPlace;
    PopRank(Ignore(lx), kinds, [Item(ItemInclude, Concat(lx.parts) + Pending(lx))]);
    PopRank(Ignore(Fwd(lx, 1)), kinds, [Item(ItemInclude, Concat(lx.parts) + Pending(lx))]);
  }

  lemma ArrayShrinks(s: State, lx: Lexer, kinds: seq<Kind>, n: nat)
    requires Ready(s, lx, kinds, n) && s.AtArray? && s.inArray != ArrayEnd
    ensures Shrinks(Next(s, lx), s, lx)
  {
    hide Mirror, Concat, Pop, KeysNeeded, PartsInPlace, Placed;
  }

  lemma ArrayEndShrinks(lx: Lexer, kinds: seq<Kind>, n: nat)
    requires Ready(AtArray(ArrayEnd), lx, kinds, n)
    ensures Shrinks(Next(AtArray(ArrayEnd), lx), AtArray(ArrayEnd), lx)
  {
    hide Mirror, Concat, Pop, KeysNeeded, PartsInPlace;
    PopRank(Ignore(lx), Init(kinds), [Item(ItemArrayEnd, Concat(lx.parts) + Pending(Ignore(lx)))]);
  }

  lemma MapKeyShrinks(s: State, lx: Lexer, kinds: seq<Kind>, n: nat)
    requires Ready(s, lx, kinds, n) && s.AtMap? && (s.inMap == MapQuotedKey || s.inMap == MapDubQuotedKey || s.inMap == MapKey)
    ensures Shrinks(Next(s, lx), s, lx)
  {
    hide Mirror, Concat, Lower, Placed, PartsInPlace, KeysNeeded;
  }

  lemma MapKeyStartShrinks(lx: Lexer, kinds: seq<Kind>, n: nat)
    requires Ready(AtMap(MapKeyStart), lx, kinds, n)
    ensures Shrinks(Next(AtMap(MapKeyStart), lx), AtMap(MapKeyStart), lx)
  {
    hide Placed, PartsInPlace, KeysNeeded;
  }

  lemma MapShrinks(s: State, lx: Lexer, kinds: seq<Kind>, n: nat)
    requires Ready(s, lx, kinds, n) && s.AtMap? && (s.inMap == MapKeyEnd || s.inMap == MapValue || s.inMap == MapValueEnd || s.inMap == MapEnd)
    ensures Shrinks(Next(s, lx), s, lx)
  {
    hide Mirror, Concat, Pop, KeysNeeded, PartsInPlace;
    PopRank(Ignore(lx), Init(kinds), [Item(ItemMapEnd, Concat(lx.parts) + Pending(Ignore(lx)))]);
  }

  /** Every way in which a value can end. */
  lemma ValueEnds(lx: Lexer, kinds: seq<Kind>, lx': Lexer, typ: ItemType, val: string, s: State)
    requires InBounds(lx) && InBounds(lx') && lx'.stack == Mirror(kinds) && lx'.input == lx.input && lx.pos <= lx'.pos
    requires s.AtValue?
    ensures Shrinks(Pop(lx', [Item(typ, val)]), s, lx)
  {
    PopRank(lx', kinds, [Item(typ, val)]);
  }

  lemma StringShrinks(s: State, lx: Lexer, kinds: seq<Kind>, n: nat)
    requires Ready(s, lx, kinds, n) && s.AtValue? && (s.inValue == QuotedString || s.inValue == DubQuotedString || s.inValue == String)
    ensures Shrinks(Next(s, lx), s, lx)
  {
    hide Mirror, Concat, Pop, KeysNeeded, PartsInPlace, IsBoolWord, IsDateRest, HexValue, IsHex;
    ValueEnds(lx, kinds, Ignore(Fwd(lx, 1)), ItemString, Concat(lx.parts) + Pending(lx), s);
    ValueEnds(lx, kinds, Ignore(Fwd(lx, 1).(parts := [])), ItemString, Concat(lx.parts) + Pending(lx), s);
    ValueEnds(lx, kinds, Ignore(lx.(parts := [])), ItemString, Concat(lx.parts) + Pending(lx), s);
    ValueEnds(lx, kinds, Ignore(lx), ItemBool, Concat(lx.parts) + Pending(lx), s);
    assert Fwd(lx, 0) == lx;
    if lx.start < lx.pos {
      var lx' := lx.(start := lx.start + 1);
      ValueEnds(lx, kinds, Ignore(lx'), ItemVariable, Concat(lx.parts) + Pending(lx'), s);
    }
  }

  lemma EscapeShrinks(s: State, lx: Lexer, kinds: seq<Kind>, n: nat)
    requires Ready(s, lx, kinds, n) && s.AtValue? && (s.inValue == Value || s.inValue == StringEscape || s.inValue == StringBinary)
    ensures Shrinks(Next(s, lx), s, lx)
  {
    hide Mirror, Concat, KeysNeeded, HexValue, Placed;
  }

  lemma BlockShrinks(lx: Lexer, kinds: seq<Kind>, n: nat)
    requires Ready(AtValue(Block), lx, kinds, n)
    ensures Shrinks(Next(AtValue(Block), lx), AtValue(Block), lx)
  {
    hide Mirror, Concat, Pop, KeysNeeded, PartsInPlace;
    var s := AtValue(Block);
    ValueEnds(lx, kinds, Ignore(Fwd(lx, 1)), ItemString, Concat(lx.parts) + Pending(Fwd(lx, 1)), s);
    ValueEnds(lx, kinds, Ignore(Fwd(lx, 1)), ItemString, Concat(lx.parts) + Pending(lx), s);
  }

  lemma NumberShrinks(s: State, lx: Lexer, kinds: seq<Kind>, n: nat)
    requires Ready(s, lx, kinds, n) && s.AtValue? && (s.inValue == NumberStart || s.inValue == Number || s.inValue == ConvenientNumber
                                                 || s.inValue == NegNumberStart || s.inValue == NegNumber)
    ensures Shrinks(Next(s, lx), s, lx)
  {
    hide Mirror, Concat, Pop, KeysNeeded, PartsInPlace, IsBoolWord, IsDateRest, HexValue, IsHex;
    ValueEnds(lx, kinds, Ignore(lx), ItemInteger, Concat(lx.parts) + Pending(lx), s);
  }

  lemma FloatShrinks(s: State, lx: Lexer, kinds: seq<Kind>, n: nat)
    requires Ready(s, lx, kinds, n) && s.AtValue? && (s.inValue == DateAfterYear || s.inValue == FloatStart || s.inValue == Float || s.inValue == IPAddr)
    ensures Shrinks(Next(s, lx), s, lx)
  {
    hide Mirror, Concat, Pop, KeysNeeded, PartsInPlace, IsBoolWord, IsDateRest, HexValue, IsHex;
    ValueEnds(lx, kinds, Ignore(lx), ItemFloat, Concat(lx.parts) + Pending(lx), s);
    ValueEnds(lx, kinds, Ignore(lx), ItemString, Concat(lx.parts) + Pending(lx), s);
    var lx' := Fwd(lx, |DATE_FORMAT|);
    ValueEnds(lx, kinds, Ignore(lx'), ItemDatetime, Concat(lx.parts) + Pending(lx'), s);
  }

  lemma CommentShrinks(s: State, lx: Lexer, kinds: seq<Kind>, n: nat)
    requires Ready(s, lx, kinds, n) && s.AtComment?
    ensures Shrinks(Next(s, lx), s, lx)
  {
    hide Mirror, Concat, KeysNeeded, PartsInPlace;
  }

  /** Every step of the lexer, from every state it can reach, shortens what is left to do. */
  lemma NextShrinks(s: State, lx: Lexer, kinds: seq<Kind>, n: nat)
    requires Ready(s, lx, kinds, n)
    ensures Shrinks(Next(s, lx), s, lx)
  {
    match s {
      case Top => TopShrinks(s, lx, kinds, n);
      case TopValueEnd => TopShrinks(s, lx, kinds, n);
      case AtKey(k) =>
        if k == Key || k == KeyEnd {
          KeyShrinks(s, lx, kinds, n);
        } else {
          KeyStartShrinks(s, lx, kinds, n);
        }
      case AtInclude(_) => IncludeShrinks(s, lx, kinds, n);
      case AtArray(a) =>
        if a == ArrayEnd {
          ArrayEndShrinks(lx, kinds, n);
        } else {
          ArrayShrinks(s, lx, kinds, n);
        }
      case AtMap(m) =>
        if m == MapKeyStart {
          MapKeyStartShrinks(lx, kinds, n);
        } else if m == MapQuotedKey || m == MapDubQuotedKey || m == MapKey {
          MapKeyShrinks(s, lx, kinds, n);
        } else {
          MapShrinks(s, lx, kinds, n);
        }
      case AtValue(v) =>
        if v == QuotedString || v == DubQuotedString || v == String {
          StringShrinks(s, lx, kinds, n);
        } else if v == Block {
          BlockShrinks(lx, kinds, n);
        } else if v == Value || v == StringEscape || v == StringBinary {
          EscapeShrinks(s, lx, kinds, n);
        } else if v == DateAfterYear || v == FloatStart || v == Float || v == IPAddr {
          FloatShrinks(s, lx, kinds, n);
        } else {
          NumberShrinks(s, lx, kinds, n);
        }
      case AtComment(_) => CommentShrinks(s, lx, kinds, n);
      case Skip(_) =>
    }
  }
}
