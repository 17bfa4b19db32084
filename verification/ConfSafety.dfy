/** The lexer's stack of states mirrors the parser's stack of contexts, whatever the input is. */
module ConfSafety {
  import opened Basics
  import opened Text
  import opened ConfLex
  import opened ConfParse

  // ----- where a state may be entered -----

  datatype Kind = InMap | InArray

  /** The state that follows a value in a container. */
  function EndOf(k: Kind): (s: State) {
    match k case InMap => AtMap(MapValueEnd) case InArray => AtArray(ArrayValueEnd)
  }

  /** The lexer stack below a value, for the containers that are open around it. */
  function Mirror(kinds: seq<Kind>): (stack: seq<State>)
    ensures |stack| == |kinds| + 1
  {
    if kinds == [] then [TopValueEnd] else Mirror(Init(kinds)) + [EndOf(Last(kinds))]
  }

  function Around(kinds: seq<Kind>): (k: Kind) {
    if kinds == [] then InMap else Last(kinds)
  }

  /** How the stack stands when a state is entered while the given containers are open. */
  predicate Placed(s: State, stack: seq<State>, kinds: seq<Kind>) {
    match s
    case AtComment(_) => stack != [] && IsCommentReturn(Last(stack)) && Seated(Last(stack), Init(stack), kinds)
    case Skip(next) => (next.AtValue? ==> next.inValue == Value) && Seated(next, stack, kinds)
    case _ => Seated(s, stack, kinds)
  }

  predicate Seated(s: State, stack: seq<State>, kinds: seq<Kind>) {
    match s
    case Top => kinds == [] && stack == []
    case TopValueEnd => kinds == [] && stack == []
    case AtKey(_) => kinds == [] && stack == Mirror(kinds)
    case AtInclude(_) => Around(kinds) == InMap && stack == Mirror(kinds)
    case AtArray(_) => kinds != [] && Last(kinds) == InArray && stack == Mirror(Init(kinds))
    case AtMap(_) => kinds != [] && Last(kinds) == InMap && stack == Mirror(Init(kinds))
    case AtValue(_) => stack == Mirror(kinds)
    case _ => false
  }

  /** Where comments may stand. */
  predicate IsCommentReturn(s: State) {
    s == Top || s == AtArray(ArrayValue) || s == AtArray(ArrayValueEnd) || s == AtMap(MapKeyStart) || s == AtMap(MapValueEnd)
  }

  // ----- keys -----

  /** Each open container that is a value of a map will take a key when it closes. */
  function KeysOwed(kinds: seq<Kind>): (n: nat) {
    if kinds == [] then 0
    else KeysOwed(Init(kinds)) + if Around(Init(kinds)) == InMap then 1 else 0
  }

  /** The states between a key and the end of its value. */
  predicate AfterKey(s: State) {
    var t := if s.Skip? then s.next else s;
    t == AtKey(KeyEnd) || t == AtMap(MapKeyEnd) || t == AtMap(MapValue) || t.AtValue?
  }

  function KeysNeeded(s: State, kinds: seq<Kind>): (n: nat) {
    KeysOwed(kinds) + if AfterKey(s) && Around(kinds) == InMap then 1 else 0
  }

  // ----- string parts -----

  predicate MayHaveParts(s: State) {
    s == AtValue(DubQuotedString) || s == AtValue(String) || s == AtValue(StringEscape) || s == AtValue(StringBinary)
  }

  /** No part of one string can reach the next: parts are pending only inside a string. */
  predicate PartsInPlace(s: State, lx: Lexer) {
    && (!MayHaveParts(s) ==> lx.parts == [])
    && (s == AtValue(DubQuotedString) || s == AtValue(String) ==> lx.resume == s)
    && (s == AtValue(StringEscape) || s == AtValue(StringBinary) ==>
          lx.resume == AtValue(DubQuotedString) || lx.resume == AtValue(String))
    && (s == AtValue(StringEscape) ==> lx.pos >= 1)
  }

  /** Everything the next step relies on, when n keys are on the parser's stack. */
  predicate Ready(s: State, lx: Lexer, kinds: seq<Kind>, n: nat) {
    && InBounds(lx) && Placed(s, lx.stack, kinds) && Entered(s, lx) && PartsInPlace(s, lx)
    && n >= KeysNeeded(s, kinds)
  }

  // ----- what an item means for the containers and the keys -----

  function KindsAfter(kinds: seq<Kind>, typ: ItemType): (kinds': seq<Kind>) {
    match typ
    case ItemMapStart => kinds + [InMap]
    case ItemArrayStart => kinds + [InArray]
    case ItemMapEnd => if kinds == [] then [] else Init(kinds)
    case ItemArrayEnd => if kinds == [] then [] else Init(kinds)
    case _ => kinds
  }

  /** The keys that are sure to be left. */
  function KeysAfter(kinds: seq<Kind>, n: nat, typ: ItemType): (n': int) {
    if typ == ItemKey then n + 1
    else if SetsValue(typ) && Around(kinds) == InMap then n - 1
    else if (typ == ItemMapEnd || typ == ItemArrayEnd) && kinds != [] && Around(Init(kinds)) == InMap then n - 1
    else n
  }

  predicate CanFollow(kinds: seq<Kind>, n: nat, typ: ItemType) {
    && (SetsValue(typ) && Around(kinds) == InMap ==> n > 0)
    && (typ == ItemMapEnd ==> kinds != [] && Last(kinds) == InMap)
    && (typ == ItemArrayEnd ==> kinds != [] && Last(kinds) == InArray)
    && (typ == ItemMapEnd || typ == ItemArrayEnd ==> kinds != [] && (Around(Init(kinds)) == InMap ==> n > 0))
    && (typ == ItemInclude ==> Around(kinds) == InMap)
  }

  predicate IsTerminal(typ: ItemType) {
    typ == ItemEOF || typ == ItemError
  }

  /** A step either stops with its one item, or sends at most one item and can be continued once the
      parser has taken it. */
  predicate StepsWell(r: Step, kinds: seq<Kind>, n: nat) {
    if r.0 == Halt then |r.2| == 1 && IsTerminal(r.2[0].typ)
    else if r.2 == [] then Ready(r.0, r.1, kinds, n)
    else
      var typ := r.2[0].typ;
      && |r.2| == 1 && !IsTerminal(typ) && CanFollow(kinds, n, typ)
      && KeysAfter(kinds, n, typ) >= 0 && Ready(r.0, r.1, KindsAfter(kinds, typ), KeysAfter(kinds, n, typ))
  }

  /** Popping after a value leads to the state behind a value of the container around it. */
  lemma PopMirror(lx: Lexer, kinds: seq<Kind>, items: seq<Item>)
    requires lx.stack == Mirror(kinds)
    ensures var r := Pop(lx, items);
            && r.2 == items && r.0 == (if kinds == [] then TopValueEnd else EndOf(Last(kinds)))
            && r.1 == lx.(stack := if kinds == [] then [] else Mirror(Init(kinds)))
            && Placed(r.0, r.1.stack, kinds)
  {
  }

  lemma PopReady(lx: Lexer, kinds: seq<Kind>, items: seq<Item>, n: nat)
    requires InBounds(lx) && lx.stack == Mirror(kinds) && lx.parts == [] && n >= KeysOwed(kinds)
    ensures var r := Pop(lx, items);
            r.2 == items && r.0 != Halt && Ready(r.0, r.1, kinds, n)
  {
    hide Pop, KeysOwed, Mirror;
    PopMirror(lx, kinds, items);
  }

  lemma ValueEmitsWell(lx: Lexer, kinds: seq<Kind>, n: nat, typ: ItemType, val: string)
    requires InBounds(lx) && lx.stack == Mirror(kinds) && lx.parts == []
    requires SetsValue(typ) && n >= KeysOwed(kinds) + if Around(kinds) == InMap then 1 else 0
    ensures StepsWell(Pop(lx, [Item(typ, val)]), kinds, n)
  {
    hide Pop, KeysOwed, Mirror, Ready;
    PopReady(lx, kinds, [Item(typ, val)], KeysAfter(kinds, n, typ));
  }

  /** A step that sends nothing. */
  lemma MovesWell(r: Step, kinds: seq<Kind>, n: nat)
    requires r.2 == [] && Ready(r.0, r.1, kinds, n)
    ensures StepsWell(r, kinds, n)
  {
  }

  lemma ErrsWell(lx: Lexer, kinds: seq<Kind>, n: nat)
    ensures StepsWell(Error(lx), kinds, n)
  {
  }

  lemma CommentsWell(lx: Lexer, slashes: nat, back: State, kinds: seq<Kind>, n: nat)
    requires InBounds(lx) && IsCommentReturn(back) && Seated(back, lx.stack, kinds) && lx.parts == [] && n >= KeysOwed(kinds)
    ensures StepsWell(ToComment(lx, slashes, back), kinds, n)
  {
    hide Mirror, KeysOwed;
    assert Init(lx.stack + [back]) == lx.stack;
    MovesWell(ToComment(lx, slashes, back), kinds, n);
  }

  lemma IncludeEmitsWell(lx: Lexer, kinds: seq<Kind>, n: nat, val: string)
    requires InBounds(lx) && lx.stack == Mirror(kinds) && lx.parts == []
    requires Around(kinds) == InMap && n >= KeysOwed(kinds)
    ensures StepsWell(Pop(lx, [Item(ItemInclude, val)]), kinds, n)
  {
    hide Pop, KeysOwed, Mirror, Ready;
    PopReady(lx, kinds, [Item(ItemInclude, val)], n);
  }

  lemma OwedInside(kinds: seq<Kind>, k: Kind)
    ensures KeysOwed(kinds + [k]) == KeysOwed(kinds) + if Around(kinds) == InMap then 1 else 0
    ensures Init(kinds + [k]) == kinds && Last(kinds + [k]) == k == Around(kinds + [k])
  {
    assert Init(kinds + [k]) == kinds;
  }

  /** Opening a container keeps the key of its place for when it closes. */
  lemma OpensMapWell(lx: Lexer, kinds: seq<Kind>, n: nat)
    requires InBounds(lx) && lx.stack == Mirror(kinds) && lx.parts == []
    requires n >= KeysOwed(kinds) + if Around(kinds) == InMap then 1 else 0
    ensures StepsWell(Emit(lx, ItemMapStart, AtMap(MapKeyStart)), kinds, n)
  {
    hide Mirror, Concat, KeysOwed;
    OwedInside(kinds, InMap);
    assert Ready(AtMap(MapKeyStart), Ignore(lx), kinds + [InMap], n);
    hide Ready;
  }

  lemma OpensArrayWell(lx: Lexer, kinds: seq<Kind>, n: nat)
    requires InBounds(lx) && lx.stack == Mirror(kinds) && lx.parts == []
    requires n >= KeysOwed(kinds) + if Around(kinds) == InMap then 1 else 0
    ensures StepsWell(Emit(lx, ItemArrayStart, AtArray(ArrayValue)), kinds, n)
  {
    hide Mirror, Concat, KeysOwed;
    OwedInside(kinds, InArray);
    assert Ready(AtArray(ArrayValue), Ignore(lx), kinds + [InArray], n);
    hide Ready;
  }

  lemma EndsWell(lx: Lexer, kinds: seq<Kind>, n: nat)
    requires InBounds(lx)
    ensures StepsWell(UnexpectedEnd(lx), kinds, n)
  {
  }

  lemma TopStepsWell(lx: Lexer, kinds: seq<Kind>, n: nat)
    requires Ready(Top, lx, kinds, n)
    ensures StepsWell(StepTop(lx), kinds, n)
  {
    hide Concat, StepsWell;
    var c := At(lx, 0);
    ErrsWell(lx, kinds, n);
    if c == '#' || (c == '/' && At(lx, 1) == '/') {
      CommentsWell(lx, 1, Top, kinds, n);
      CommentsWell(lx, 2, Top, kinds, n);
    } else if c == EOF {
      EndsWell(lx, kinds, n);
    } else if c != '/' {
      assert Mirror([]) == [TopValueEnd] == lx.stack + [TopValueEnd];
      MovesWell(StepTop(lx), kinds, n);
    }
  }

  lemma TopValueEndStepsWell(lx: Lexer, kinds: seq<Kind>, n: nat)
    requires Ready(TopValueEnd, lx, kinds, n)
    ensures StepsWell(StepTopValueEnd(lx), kinds, n)
  {
    hide Mirror, KeysOwed, Concat, StepsWell;
    var c := At(lx, 0);
    ErrsWell(lx, kinds, n);
    if c == '#' || (c == '/' && At(lx, 1) == '/') {
      CommentsWell(lx, 1, Top, kinds, n);
      CommentsWell(lx, 2, Top, kinds, n);
    } else if StepTopValueEnd(lx).0 != Halt {
      MovesWell(StepTopValueEnd(lx), kinds, n);
    }
  }

  lemma KeyStartStepsWell(lx: Lexer, kinds: seq<Kind>, n: nat)
    requires Ready(AtKey(KeyStart), lx, kinds, n)
    ensures StepsWell(StepKeyStart(lx), kinds, n)
  {
    hide Mirror, Concat;
  }

  lemma DubQuotedKeyStepsWell(lx: Lexer, kinds: seq<Kind>, n: nat)
    requires Ready(AtKey(DubQuotedKey), lx, kinds, n)
    ensures StepsWell(StepQuotedKey(lx, '"', AtKey(DubQuotedKey)), kinds, n)
  {
    hide Mirror, Concat;
  }

  lemma QuotedKeyStepsWell(lx: Lexer, kinds: seq<Kind>, n: nat)
    requires Ready(AtKey(QuotedKey), lx, kinds, n)
    ensures StepsWell(StepQuotedKey(lx, '\'', AtKey(QuotedKey)), kinds, n)
  {
    hide Mirror, Concat;
  }

  lemma KeyStepsWell(lx: Lexer, kinds: seq<Kind>, n: nat)
    requires Ready(AtKey(Key), lx, kinds, n)
    ensures StepsWell(StepKey(lx), kinds, n)
  {
    hide Mirror, Concat, Lower;
  }

  lemma KeyEndStepsWell(lx: Lexer, kinds: seq<Kind>, n: nat)
    requires Ready(AtKey(KeyEnd), lx, kinds, n)
    ensures StepsWell(StepKeyEnd(lx), kinds, n)
  {
    hide Mirror, Concat;
  }

  lemma IncludeStartStepsWell(lx: Lexer, kinds: seq<Kind>, n: nat)
    requires Ready(AtInclude(IncludeStart), lx, kinds, n)
    ensures StepsWell(StepIncludeStart(lx), kinds, n)
  {
    hide Mirror, Concat;
  }

  lemma IncludeKeywordStepsWell(lx: Lexer, kinds: seq<Kind>, n: nat)
    requires Ready(AtInclude(Include), lx, kinds, n)
    ensures StepsWell(StepInclude(lx), kinds, n)
  {
    hide Mirror, Concat;
  }

  lemma IncludeQuotedStringStepsWell(lx: Lexer, kinds: seq<Kind>, n: nat)
    requires Ready(AtInclude(IncludeQuotedString), lx, kinds, n)
    ensures StepsWell(StepIncludeQuoted(lx, '\'', AtInclude(IncludeQuotedString)), kinds, n)
  {
    hide Mirror, Concat, Pop;
    if At(lx, 0) == '\'' {
      IncludeEmitsWell(Ignore(Fwd(lx, 1)), kinds, n, Concat(lx.parts) + Pending(lx));
    } else {
      hide EmitQuotedPop;
    }
  }

  lemma IncludeDubQuotedStringStepsWell(lx: Lexer, kinds: seq<Kind>, n: nat)
    requires Ready(AtInclude(IncludeDubQuotedString), lx, kinds, n)
    ensures StepsWell(StepIncludeQuoted(lx, '"', AtInclude(IncludeDubQuotedString)), kinds, n)
  {
    hide Mirror, Concat, Pop;
    if At(lx, 0) == '"' {
      IncludeEmitsWell(Ignore(Fwd(lx, 1)), kinds, n, Concat(lx.parts) + Pending(lx));
    } else {
      hide EmitQuotedPop;
    }
  }

  lemma IncludeStringStepsWell(lx: Lexer, kinds: seq<Kind>, n: nat)
    requires Ready(AtInclude(IncludeString), lx, kinds, n)
    ensures StepsWell(StepIncludeString(lx), kinds, n)
  {
    hide Mirror, Concat, Pop;
    IncludeEmitsWell(Ignore(lx), kinds, n, Concat(lx.parts) + Pending(lx));
    IncludeEmitsWell(Ignore(Fwd(lx, 1)), kinds, n, Concat(lx.parts) + Pending(lx));
  }

  lemma ValueStepsWell(lx: Lexer, kinds: seq<Kind>, n: nat)
    requires Ready(AtValue(Value), lx, kinds, n)
    ensures StepsWell(StepValue(lx), kinds, n)
  {
    hide Mirror, Concat, StepsWell, KeysOwed;
    var c := At(lx, 0);
    ErrsWell(lx, kinds, n);
    if c == '[' {
      OpensArrayWell(Ignore(Fwd(lx, 1)), kinds, n);
    } else if c == '{' {
      OpensMapWell(Ignore(Fwd(lx, 1)), kinds, n);
    } else if StepValue(lx).0 != Halt {
      hide Emit;
      MovesWell(StepValue(lx), kinds, n);
    }
  }

  lemma ArrayValueStepsWell(lx: Lexer, kinds: seq<Kind>, n: nat)
    requires Ready(AtArray(ArrayValue), lx, kinds, n)
    ensures StepsWell(StepArrayValue(lx), kinds, n)
  {
    hide Concat, StepsWell;
    var c := At(lx, 0);
    ErrsWell(lx, kinds, n);
    if c == '#' || (c == '/' && At(lx, 1) == '/') {
      CommentsWell(lx, 1, AtArray(ArrayValue), kinds, n);
      CommentsWell(lx, 2, AtArray(ArrayValue), kinds, n);
    } else if StepArrayValue(lx).0 != Halt {
      MovesWell(StepArrayValue(lx), kinds, n);
    }
  }

  lemma ArrayValueEndStepsWell(lx: Lexer, kinds: seq<Kind>, n: nat)
    requires Ready(AtArray(ArrayValueEnd), lx, kinds, n)
    ensures StepsWell(StepArrayValueEnd(lx), kinds, n)
  {
    hide Mirror, KeysOwed, Concat, StepsWell;
    var c := At(lx, 0);
    ErrsWell(lx, kinds, n);
    if c == '#' || (c == '/' && At(lx, 1) == '/') {
      CommentsWell(lx, 1, AtArray(ArrayValueEnd), kinds, n);
      CommentsWell(lx, 2, AtArray(ArrayValueEnd), kinds, n);
    } else if StepArrayValueEnd(lx).0 != Halt {
      MovesWell(StepArrayValueEnd(lx), kinds, n);
    }
  }

  lemma ArrayEndStepsWell(lx: Lexer, kinds: seq<Kind>, n: nat)
    requires Ready(AtArray(ArrayEnd), lx, kinds, n)
    ensures StepsWell(EmitPop(Ignore(lx), ItemArrayEnd), kinds, n)
  {
    hide Mirror, Concat, Pop;
    PopMirror(Ignore(lx), Init(kinds), [Item(ItemArrayEnd, Concat(lx.parts) + Pending(Ignore(lx)))]);
  }

  lemma MapKeyStartStepsWell(lx: Lexer, kinds: seq<Kind>, n: nat)
    requires Ready(AtMap(MapKeyStart), lx, kinds, n)
    ensures StepsWell(StepMapKeyStart(lx), kinds, n)
  {
    hide Mirror, KeysOwed, Concat, StepsWell;
    var c := At(lx, 0);
    ErrsWell(lx, kinds, n);
    if c == '#' || (c == '/' && At(lx, 1) == '/') {
      CommentsWell(lx, 1, AtMap(MapKeyStart), kinds, n);
      CommentsWell(lx, 2, AtMap(MapKeyStart), kinds, n);
    } else if StepMapKeyStart(lx).0 != Halt {
      MovesWell(StepMapKeyStart(lx), kinds, n);
    }
  }

  lemma MapQuotedKeyStepsWell(lx: Lexer, kinds: seq<Kind>, n: nat)
    requires Ready(AtMap(MapQuotedKey), lx, kinds, n)
    ensures StepsWell(StepMapQuotedKey(lx, '\'', AtMap(MapQuotedKey)), kinds, n)
  {
    hide Mirror, Concat;
  }

  lemma MapDubQuotedKeyStepsWell(lx: Lexer, kinds: seq<Kind>, n: nat)
    requires Ready(AtMap(MapDubQuotedKey), lx, kinds, n)
    ensures StepsWell(StepMapQuotedKey(lx, '"', AtMap(MapDubQuotedKey)), kinds, n)
  {
    hide Mirror, Concat;
  }

  lemma MapKeyStepsWell(lx: Lexer, kinds: seq<Kind>, n: nat)
    requires Ready(AtMap(MapKey), lx, kinds, n)
    ensures StepsWell(StepMapKey(lx), kinds, n)
  {
    hide Concat, Lower;
  }

  lemma MapKeyEndStepsWell(lx: Lexer, kinds: seq<Kind>, n: nat)
    requires Ready(AtMap(MapKeyEnd), lx, kinds, n)
    ensures StepsWell(StepMapKeyEnd(lx), kinds, n)
  {
    hide Mirror, Concat;
  }

  lemma MapValueStepsWell(lx: Lexer, kinds: seq<Kind>, n: nat)
    requires Ready(AtMap(MapValue), lx, kinds, n)
    ensures StepsWell(StepMapValue(lx), kinds, n)
  {
    hide Concat;
  }

  lemma MapValueEndStepsWell(lx: Lexer, kinds: seq<Kind>, n: nat)
    requires Ready(AtMap(MapValueEnd), lx, kinds, n)
    ensures StepsWell(StepMapValueEnd(lx), kinds, n)
  {
    hide Mirror, KeysOwed, Concat, StepsWell;
    var c := At(lx, 0);
    ErrsWell(lx, kinds, n);
    if c == '#' || (c == '/' && At(lx, 1) == '/') {
      CommentsWell(lx, 1, AtMap(MapValueEnd), kinds, n);
      CommentsWell(lx, 2, AtMap(MapValueEnd), kinds, n);
    } else if StepMapValueEnd(lx).0 != Halt {
      MovesWell(StepMapValueEnd(lx), kinds, n);
    }
  }

  lemma MapEndStepsWell(lx: Lexer, kinds: seq<Kind>, n: nat)
    requires Ready(AtMap(MapEnd), lx, kinds, n)
    ensures StepsWell(EmitPop(Ignore(lx), ItemMapEnd), kinds, n)
  {
    hide Mirror, Concat, Pop;
    PopMirror(Ignore(lx), Init(kinds), [Item(ItemMapEnd, Concat(lx.parts) + Pending(Ignore(lx)))]);
  }

  lemma QuotedStringStepsWell(lx: Lexer, kinds: seq<Kind>, n: nat)
    requires Ready(AtValue(QuotedString), lx, kinds, n)
    ensures StepsWell(StepQuotedString(lx), kinds, n)
  {
    hide Mirror, Concat, Pop;
    ValueEmitsWell(Ignore(Fwd(lx, 1)), kinds, n, ItemString, Concat(lx.parts) + Pending(lx));
  }

  lemma DubQuotedStringStepsWell(lx: Lexer, kinds: seq<Kind>, n: nat)
    requires Ready(AtValue(DubQuotedString), lx, kinds, n)
    ensures StepsWell(StepDubQuotedString(lx), kinds, n)
  {
    hide Mirror, Concat, Pop;
    if At(lx, 0) == '"' {
      ValueEmitsWell(Ignore(Fwd(lx, 1).(parts := [])), kinds, n, ItemString, Concat(lx.parts) + Pending(lx));
    } else {
      hide EmitStringPop;
    }
  }

  lemma StringEndsWell(lx: Lexer, kinds: seq<Kind>, n: nat)
    requires Ready(AtValue(String), lx, kinds, n) && EndsString(At(lx, 0))
    ensures StepsWell(StepString(lx), kinds, n)
  {
    hide Mirror, Concat, Pop, IsBoolWord, StepsWell;
    assert Fwd(lx, 0) == lx;
    ValueEmitsWell(Ignore(lx.(parts := [])), kinds, n, ItemString, Concat(lx.parts) + Pending(lx));
    if lx.parts == [] {
      ValueEmitsWell(Ignore(lx), kinds, n, ItemBool, Concat(lx.parts) + Pending(lx));
      if lx.start < lx.pos {
        var lx' := lx.(start := lx.start + 1);
        ValueEmitsWell(Ignore(lx'), kinds, n, ItemVariable, Concat(lx.parts) + Pending(lx'));
      }
    }
  }

  lemma StringStepsWell(lx: Lexer, kinds: seq<Kind>, n: nat)
    requires Ready(AtValue(String), lx, kinds, n)
    ensures StepsWell(StepString(lx), kinds, n)
  {
    hide Mirror, Concat, Pop, IsBoolWord;
    var c := At(lx, 0);
    if c != '\\' && EndsString(c) {
      StringEndsWell(lx, kinds, n);
    } else if c == '\'' {
      ValueEmitsWell(Ignore(Fwd(lx, 1).(parts := [])), kinds, n, ItemString, Concat(lx.parts) + Pending(lx));
    } else {
      hide EmitStringPop, EmitPop;
    }
  }

  lemma StringEscapeStepsWell(lx: Lexer, kinds: seq<Kind>, n: nat)
    requires Ready(AtValue(StringEscape), lx, kinds, n)
    ensures StepsWell(StepStringEscape(lx), kinds, n)
  {
    hide Mirror, Concat;
  }

  lemma StringBinaryStepsWell(lx: Lexer, kinds: seq<Kind>, n: nat)
    requires Ready(AtValue(StringBinary), lx, kinds, n)
    ensures StepsWell(StepStringBinary(lx), kinds, n)
  {
    hide Mirror, HexValue, IsHex;
  }

  lemma BlockStepsWell(lx: Lexer, kinds: seq<Kind>, n: nat)
    requires Ready(AtValue(Block), lx, kinds, n)
    ensures StepsWell(StepBlock(lx), kinds, n)
  {
    hide Mirror, Concat, Pop;
    ValueEmitsWell(Ignore(Fwd(lx, 1)), kinds, n, ItemString, Concat(lx.parts) + Pending(Fwd(lx, 1)));
    ValueEmitsWell(Ignore(Fwd(lx, 1)), kinds, n, ItemString, Concat(lx.parts) + Pending(lx));
  }

  lemma NumberStartStepsWell(lx: Lexer, kinds: seq<Kind>, n: nat)
    requires Ready(AtValue(NumberStart), lx, kinds, n)
    ensures StepsWell(StepNumberStart(lx), kinds, n)
  {
    hide Mirror, Concat;
  }

  lemma NumberStepsWell(lx: Lexer, kinds: seq<Kind>, n: nat)
    requires Ready(AtValue(Number), lx, kinds, n)
    ensures StepsWell(StepNumber(lx), kinds, n)
  {
    hide Mirror, Concat, Pop;
    ValueEmitsWell(Ignore(lx), kinds, n, ItemInteger, Concat(lx.parts) + Pending(lx));
  }

  lemma ConvenientNumberStepsWell(lx: Lexer, kinds: seq<Kind>, n: nat)
    requires Ready(AtValue(ConvenientNumber), lx, kinds, n)
    ensures StepsWell(StepConvenientNumber(lx), kinds, n)
  {
    hide Mirror, Concat, Pop;
    ValueEmitsWell(Ignore(lx), kinds, n, ItemInteger, Concat(lx.parts) + Pending(lx));
  }

  lemma NegNumberStepsWell(lx: Lexer, kinds: seq<Kind>, n: nat)
    requires Ready(AtValue(NegNumber), lx, kinds, n)
    ensures StepsWell(StepNegNumber(lx), kinds, n)
  {
    hide Mirror, Concat, Pop;
    ValueEmitsWell(Ignore(lx), kinds, n, ItemInteger, Concat(lx.parts) + Pending(lx));
  }

  lemma FloatStepsWell(lx: Lexer, kinds: seq<Kind>, n: nat)
    requires Ready(AtValue(Float), lx, kinds, n)
    ensures StepsWell(StepFloat(lx), kinds, n)
  {
    hide Mirror, Concat, Pop;
    ValueEmitsWell(Ignore(lx), kinds, n, ItemFloat, Concat(lx.parts) + Pending(lx));
  }

  lemma IPAddrStepsWell(lx: Lexer, kinds: seq<Kind>, n: nat)
    requires Ready(AtValue(IPAddr), lx, kinds, n)
    ensures StepsWell(StepIPAddr(lx), kinds, n)
  {
    hide Mirror, Concat, Pop;
    ValueEmitsWell(Ignore(lx), kinds, n, ItemString, Concat(lx.parts) + Pending(lx));
  }

  lemma NegNumberStartStepsWell(lx: Lexer, kinds: seq<Kind>, n: nat)
    requires Ready(AtValue(NegNumberStart), lx, kinds, n)
    ensures StepsWell(StepNegNumberStart(lx), kinds, n)
  {
    hide Mirror, Concat;
  }

  lemma FloatStartStepsWell(lx: Lexer, kinds: seq<Kind>, n: nat)
    requires Ready(AtValue(FloatStart), lx, kinds, n)
    ensures StepsWell(StepFloatStart(lx), kinds, n)
  {
    hide Mirror, Concat;
  }

  lemma DateStepsWell(lx: Lexer, kinds: seq<Kind>, n: nat)
    requires Ready(AtValue(DateAfterYear), lx, kinds, n)
    ensures StepsWell(StepDateAfterYear(lx), kinds, n)
  {
    hide Mirror, Concat, Pop, IsDateRest;
    var lx' := Fwd(lx, |DATE_FORMAT|);
    ValueEmitsWell(Ignore(lx'), kinds, n, ItemDatetime, Concat(lx.parts) + Pending(lx'));
  }

  lemma CommentStartStepsWell(lx: Lexer, kinds: seq<Kind>, n: nat)
    requires Ready(AtComment(CommentStart), lx, kinds, n)
    ensures StepsWell(Emit(Ignore(lx), ItemCommentStart, AtComment(Comment)), kinds, n)
  {
    hide Mirror, Concat;
  }

  lemma CommentStepsWell(lx: Lexer, kinds: seq<Kind>, n: nat)
    requires Ready(AtComment(Comment), lx, kinds, n)
    ensures StepsWell(StepComment(lx), kinds, n)
  {
    hide Mirror, Concat;
  }

  /** Every state steps well. */
  lemma NextStepsWell(s: State, lx: Lexer, kinds: seq<Kind>, n: nat)
    requires Ready(s, lx, kinds, n)
    ensures StepsWell(Next(s, lx), kinds, n)
  {
    match s {
      case Top => TopStepsWell(lx, kinds, n);
      case TopValueEnd => TopValueEndStepsWell(lx, kinds, n);
      case AtKey(KeyStart) => KeyStartStepsWell(lx, kinds, n);
      case AtKey(DubQuotedKey) => DubQuotedKeyStepsWell(lx, kinds, n);
      case AtKey(QuotedKey) => QuotedKeyStepsWell(lx, kinds, n);
      case AtKey(Key) => KeyStepsWell(lx, kinds, n);
      case AtKey(KeyEnd) => KeyEndStepsWell(lx, kinds, n);
      case AtInclude(IncludeStart) => IncludeStartStepsWell(lx, kinds, n);
      case AtInclude(Include) => IncludeKeywordStepsWell(lx, kinds, n);
      case AtInclude(IncludeQuotedString) => IncludeQuotedStringStepsWell(lx, kinds, n);
      case AtInclude(IncludeDubQuotedString) => IncludeDubQuotedStringStepsWell(lx, kinds, n);
      case AtInclude(IncludeString) => IncludeStringStepsWell(lx, kinds, n);
      case AtValue(Value) => ValueStepsWell(lx, kinds, n);
      case AtArray(ArrayValue) => ArrayValueStepsWell(lx, kinds, n);
      case AtArray(ArrayValueEnd) => ArrayValueEndStepsWell(lx, kinds, n);
      case AtArray(ArrayEnd) => ArrayEndStepsWell(lx, kinds, n);
      case AtMap(MapKeyStart) => MapKeyStartStepsWell(lx, kinds, n);
      case AtMap(MapQuotedKey) => MapQuotedKeyStepsWell(lx, kinds, n);
      case AtMap(MapDubQuotedKey) => MapDubQuotedKeyStepsWell(lx, kinds, n);
      case AtMap(MapKey) => MapKeyStepsWell(lx, kinds, n);
      case AtMap(MapKeyEnd) => MapKeyEndStepsWell(lx, kinds, n);
      case AtMap(MapValue) => MapValueStepsWell(lx, kinds, n);
      case AtMap(MapValueEnd) => MapValueEndStepsWell(lx, kinds, n);
      case AtMap(MapEnd) => MapEndStepsWell(lx, kinds, n);
      case AtValue(QuotedString) => QuotedStringStepsWell(lx, kinds, n);
      case AtValue(DubQuotedString) => DubQuotedStringStepsWell(lx, kinds, n);
      case AtValue(String) => StringStepsWell(lx, kinds, n);
      case AtValue(StringEscape) => StringEscapeStepsWell(lx, kinds, n);
      case AtValue(StringBinary) => StringBinaryStepsWell(lx, kinds, n);
      case AtValue(Block) => BlockStepsWell(lx, kinds, n);
      case AtValue(NumberStart) => NumberStartStepsWell(lx, kinds, n);
      case AtValue(Number) => NumberStepsWell(lx, kinds, n);
      case AtValue(ConvenientNumber) => ConvenientNumberStepsWell(lx, kinds, n);
      case AtValue(NegNumberStart) => NegNumberStartStepsWell(lx, kinds, n);
      case AtValue(NegNumber) => NegNumberStepsWell(lx, kinds, n);
      case AtValue(DateAfterYear) => DateStepsWell(lx, kinds, n);
      case AtValue(FloatStart) => FloatStartStepsWell(lx, kinds, n);
      case AtValue(Float) => FloatStepsWell(lx, kinds, n);
      case AtValue(IPAddr) => IPAddrStepsWell(lx, kinds, n);
      case AtComment(CommentStart) => CommentStartStepsWell(lx, kinds, n);
      case AtComment(Comment) => CommentStepsWell(lx, kinds, n);
      case Skip(next) =>
    }
  }
}
