/** The lexer of the configuration format as a state machine over the unread input: what each state
    does, said by looking ahead instead of by reading and backing up. */
module ConfLex {
  import opened Text

  datatype KeyState = KeyStart | DubQuotedKey | QuotedKey | Key | KeyEnd

  datatype IncludeState = IncludeStart | Include | IncludeQuotedString | IncludeDubQuotedString | IncludeString

  datatype ArrayState = ArrayValue | ArrayValueEnd | ArrayEnd

  datatype MapState =
    | MapKeyStart | MapQuotedKey | MapDubQuotedKey | MapKey | MapKeyEnd | MapValue | MapValueEnd | MapEnd

  datatype ValueState =
    | Value | QuotedString | DubQuotedString | String | StringEscape | StringBinary | Block
    | NumberStart | Number | ConvenientNumber | NegNumberStart | NegNumber | DateAfterYear | FloatStart | Float | IPAddr

  datatype CommentState = CommentStart | Comment

  /** The state functions of the lexer, grouped by what they are reading. */
  datatype State =
    | Top | TopValueEnd
    | AtKey(inKey: KeyState)
    | AtInclude(inInclude: IncludeState)
    | AtArray(inArray: ArrayState)
    | AtMap(inMap: MapState)
    | AtValue(inValue: ValueState)
    | AtComment(inComment: CommentState)
    | Skip(next: State)  // the closure made by lexSkip
    | Halt               // the nil state

  datatype ItemType =
    | ItemError | ItemEOF | ItemKey | ItemText | ItemString | ItemBool | ItemInteger | ItemFloat | ItemDatetime
    | ItemArrayStart | ItemArrayEnd | ItemMapStart | ItemMapEnd | ItemCommentStart | ItemVariable | ItemInclude

  datatype Item = Item(typ: ItemType, val: string)

  /** The lexer's fields; resume is the state that a string escape returns to. */
  datatype Lexer = Lexer(input: string, start: int, pos: int, stack: seq<State>, parts: seq<string>, resume: State)

  const EOF: char := '\0'

  predicate IsNL(c: char) { c == '\n' || c == '\r' }

  predicate IsWhitespace(c: char) { c == '\t' || c == ' ' }

  predicate IsSpace(c: char) {
    c == '\t' || c == '\n' || c == '\U{0B}' || c == '\U{0C}' || c == '\r' || c == ' '
  }

  predicate IsDigit(c: char) { '0' <= c <= '9' }

  predicate IsKeySeparator(c: char) { c == '=' || c == ':' }

  predicate IsNumberSuffix(c: char) {
    var l := LowerChar(c);
    l == 'k' || l == 'm' || l == 'g' || l == 't' || l == 'p' || l == 'e'
  }

  predicate IsHex(c: char) { '0' <= c <= '9' || 'a' <= c <= 'f' || 'A' <= c <= 'F' }

  function HexValue(c: char): (n: int)
    requires IsHex(c)
    ensures 0 <= n < 16
  {
    if c <= '9' then c as int - '0' as int
    else if c <= 'F' then c as int - 'A' as int + 10
    else c as int - 'a' as int + 10
  }

  predicate IsBoolWord(s: string) {
    var l := Lower(s);
    l == "true" || l == "false" || l == "on" || l == "off" || l == "yes" || l == "no"
  }

  /** "MM-DDThh:mm:ssZ", with a zero for each digit. */
  const DATE_FORMAT := "00-00T00:00:00Z"

  predicate IsDateRest(s: string) {
    |s| == |DATE_FORMAT| &&
    forall i :: 0 <= i < |s| ==> if DATE_FORMAT[i] == '0' then IsDigit(s[i]) else s[i] == DATE_FORMAT[i]
  }

  function Concat(parts: seq<string>): (s: string) {
    if parts == [] then "" else Concat(parts[..|parts| - 1]) + parts[|parts| - 1]
  }

  /** What the state machine needs of the fields for its slices to be defined. */
  predicate InBounds(lx: Lexer) {
    0 <= lx.start <= lx.pos <= |lx.input|
  }

  /** The character i places ahead; beyond the input it is EOF, and so is a NUL. */
  function At(lx: Lexer, i: nat): (c: char)
    requires 0 <= lx.pos
  {
    if lx.pos + i < |lx.input| then lx.input[lx.pos + i] else EOF
  }

  /** Reading n characters, or as many as there are. */
  function Fwd(lx: Lexer, n: nat): (lx': Lexer) {
    lx.(pos := if lx.pos + n <= |lx.input| then lx.pos + n else |lx.input|)
  }

  function Ignore(lx: Lexer): (lx': Lexer) {
    lx.(start := lx.pos)
  }

  function Push(lx: Lexer, s: State): (lx': Lexer) {
    lx.(stack := lx.stack + [s])
  }

  function Pending(lx: Lexer): (s: string)
    requires InBounds(lx)
  {
    lx.input[lx.start..lx.pos]
  }

  /** The state after a step, the lexer's new fields, and the items sent. */
  type Step = (State, Lexer, seq<Item>)

  function Go(s: State, lx: Lexer): (r: Step) {
    (s, lx, [])
  }

  function Error(lx: Lexer): (r: Step) {
    (Halt, lx, [Item(ItemError, "")])
  }

  /** emit: the item holds any string parts as well, and they are kept. */
  function Emit(lx: Lexer, typ: ItemType, next: State): (r: Step)
    requires InBounds(lx)
  {
    (next, Ignore(lx), [Item(typ, Concat(lx.parts) + Pending(lx))])
  }

  /** Returning to the state on top of the stack, after sending some items. */
  function Pop(lx: Lexer, items: seq<Item>): (r: Step) {
    if lx.stack == [] then (Halt, lx, items + [Item(ItemError, "")])
    else (lx.stack[|lx.stack| - 1], lx.(stack := lx.stack[..|lx.stack| - 1]), items)
  }

  function EmitPop(lx: Lexer, typ: ItemType): (r: Step)
    requires InBounds(lx)
  {
    Pop(Ignore(lx), [Item(typ, Concat(lx.parts) + Pending(lx))])
  }

  /** emitString, then past the closing quote if there is one, then back to the stack. */
  function EmitStringPop(lx: Lexer, quote: nat): (r: Step)
    requires InBounds(lx)
  {
    Pop(Ignore(Fwd(lx, quote).(parts := [])), [Item(ItemString, Concat(lx.parts) + Pending(lx))])
  }

  function EmitQuotedPop(lx: Lexer, typ: ItemType): (r: Step)
    requires InBounds(lx)
  {
    Pop(Ignore(Fwd(lx, 1)), [Item(typ, Concat(lx.parts) + Pending(lx))])
  }

  /** The end of the input inside something: an error, unless nothing is pending. */
  function UnexpectedEnd(lx: Lexer): (r: Step)
    requires InBounds(lx)
  {
    if Fwd(lx, 1).pos > lx.start then Error(lx) else Emit(lx, ItemEOF, Halt)
  }

  function ToComment(lx: Lexer, slashes: nat, back: State): (r: Step) {
    Go(AtComment(CommentStart), Push(Fwd(lx, slashes), back))
  }

  /** What two states rely on having been read before them; the nil state cannot be run. */
  predicate Entered(s: State, lx: Lexer)
    requires InBounds(lx)
  {
    && s != Halt
    && (s == AtValue(Block) ==> lx.pos >= 1)
    && (s == AtValue(StringBinary) ==> lx.pos >= 2 && lx.input[lx.pos - 1] == 'x')
  }

  // ----- the states -----

  function StepTop(lx: Lexer): (r: Step)
    requires InBounds(lx)
  {
    var c := At(lx, 0);
    if IsSpace(c) || c == '{' then Go(Skip(Top), Fwd(lx, 1))
    else if c == '#' then ToComment(lx, 1, Top)
    else if c == '/' then
      if At(lx, 1) == '/' then ToComment(lx, 2, Top) else Error(lx)
    else if c == EOF then UnexpectedEnd(lx)
    else Go(AtKey(KeyStart), Push(lx, TopValueEnd))
  }

  function StepTopValueEnd(lx: Lexer): (r: Step)
    requires InBounds(lx)
  {
    var c := At(lx, 0);
    if c == '#' then ToComment(lx, 1, Top)
    else if c == '/' && At(lx, 1) == '/' then ToComment(lx, 2, Top)
    else if c == '/' || IsWhitespace(c) then Go(TopValueEnd, Fwd(lx, 1))
    else if IsNL(c) || c == EOF || c == ';' || c == ',' || c == '}' then Go(Top, Ignore(Fwd(lx, 1)))
    else Error(lx)
  }

  function StepKeyStart(lx: Lexer): (r: Step)
    requires InBounds(lx)
  {
    var c := At(lx, 0);
    if IsKeySeparator(c) then Error(lx)
    else if IsSpace(c) then Go(Skip(AtKey(KeyStart)), Fwd(lx, 1))
    else if c == '"' then Go(Skip(AtKey(DubQuotedKey)), Fwd(lx, 1))
    else if c == '\'' then Go(Skip(AtKey(QuotedKey)), Fwd(lx, 1))
    else Go(AtKey(Key), Fwd(Ignore(lx), 1))
  }

  function EmitQuotedKey(lx: Lexer, next: State): (r: Step)
    requires InBounds(lx)
  {
    var (_, lx', items) := Emit(lx, ItemKey, next);
    (Skip(next), Fwd(lx', 1), items)
  }

  function StepQuotedKey(lx: Lexer, quote: char, self: State): (r: Step)
    requires InBounds(lx)
  {
    var c := At(lx, 0);
    if c == quote then EmitQuotedKey(lx, AtKey(KeyEnd))
    else if c == EOF then
      if lx.pos > lx.start then Error(lx) else Emit(lx, ItemEOF, Halt)
    else Go(self, Fwd(lx, 1))
  }

  /** A bare key, unless it is the keyword. */
  function KeyOrInclude(lx: Lexer, next: State, included: Lexer): (r: Step)
    requires InBounds(lx)
  {
    if Lower(Pending(lx)) == "include" then Go(AtInclude(IncludeStart), Ignore(included)) else Emit(lx, ItemKey, next)
  }

  function StepKey(lx: Lexer): (r: Step)
    requires InBounds(lx)
  {
    var c := At(lx, 0);
    if IsSpace(c) then KeyOrInclude(lx, AtKey(KeyEnd), lx)
    else if IsKeySeparator(c) || c == EOF then Emit(lx, ItemKey, AtKey(KeyEnd))
    else Go(AtKey(Key), Fwd(lx, 1))
  }

  function StepKeyEnd(lx: Lexer): (r: Step)
    requires InBounds(lx)
  {
    var c := At(lx, 0);
    if IsSpace(c) then Go(Skip(AtKey(KeyEnd)), Fwd(lx, 1))
    else if IsKeySeparator(c) then Go(Skip(AtValue(Value)), Fwd(lx, 1))
    else if c == EOF then Emit(Fwd(lx, 1), ItemEOF, Halt)
    else Go(AtValue(Value), lx)
  }

  function StepIncludeStart(lx: Lexer): (r: Step)
    requires InBounds(lx)
  {
    if IsWhitespace(At(lx, 0)) then Go(Skip(AtInclude(IncludeStart)), Fwd(lx, 1)) else Go(AtInclude(Include), lx)
  }

  function StepInclude(lx: Lexer): (r: Step)
    requires InBounds(lx)
  {
    var c := At(lx, 0);
    if c == '\'' then Go(AtInclude(IncludeQuotedString), Ignore(Fwd(lx, 1)))
    else if c == '"' then Go(AtInclude(IncludeDubQuotedString), Ignore(Fwd(lx, 1)))
    else if c == '[' || c == '{' || c == '(' || IsDigit(c) || c == '-' || c == '\\' || IsNL(c) then Error(lx)
    else Go(AtInclude(IncludeString), lx)
  }

  function StepIncludeQuoted(lx: Lexer, quote: char, self: State): (r: Step)
    requires InBounds(lx)
  {
    var c := At(lx, 0);
    if c == quote then EmitQuotedPop(lx, ItemInclude)
    else if c == EOF then Error(lx)
    else Go(self, Fwd(lx, 1))
  }

  function StepIncludeString(lx: Lexer): (r: Step)
    requires InBounds(lx)
  {
    var c := At(lx, 0);
    if IsNL(c) || c == EOF || c == ';' || c == '}' || IsWhitespace(c) then EmitPop(lx, ItemInclude)
    else if c == '\'' then EmitQuotedPop(lx, ItemInclude)
    else Go(AtInclude(IncludeString), Fwd(lx, 1))
  }

  function StepValue(lx: Lexer): (r: Step)
    requires InBounds(lx)
  {
    var c := At(lx, 0);
    if IsWhitespace(c) then Go(Skip(AtValue(Value)), Fwd(lx, 1))
    else if c == '[' then Emit(Ignore(Fwd(lx, 1)), ItemArrayStart, AtArray(ArrayValue))
    else if c == '{' then Emit(Ignore(Fwd(lx, 1)), ItemMapStart, AtMap(MapKeyStart))
    else if c == '\'' then Go(AtValue(QuotedString), Ignore(Fwd(lx, 1)))
    else if c == '"' then Go(AtValue(DubQuotedString), Ignore(Fwd(lx, 1)).(resume := AtValue(DubQuotedString)))
    else if c == '-' then Go(AtValue(NegNumberStart), Fwd(lx, 1))
    else if c == '(' then Go(AtValue(Block), Ignore(Fwd(lx, 1)))
    else if IsDigit(c) then Go(AtValue(NumberStart), lx)
    else if c == '.' || IsNL(c) then Error(lx)
    else Go(AtValue(String), lx.(resume := AtValue(String)))
  }

  function StepArrayValue(lx: Lexer): (r: Step)
    requires InBounds(lx)
  {
    var c := At(lx, 0);
    if IsSpace(c) then Go(Skip(AtArray(ArrayValue)), Fwd(lx, 1))
    else if c == '#' then ToComment(lx, 1, AtArray(ArrayValue))
    else if c == '/' && At(lx, 1) == '/' then ToComment(lx, 2, AtArray(ArrayValue))
    else if c == '/' || c == ',' then Error(lx)
    else if c == ']' then Go(AtArray(ArrayEnd), Fwd(lx, 1))
    else Go(AtValue(Value), Push(lx, AtArray(ArrayValueEnd)))
  }

  function StepArrayValueEnd(lx: Lexer): (r: Step)
    requires InBounds(lx)
  {
    var c := At(lx, 0);
    if IsWhitespace(c) then Go(Skip(AtArray(ArrayValueEnd)), Fwd(lx, 1))
    else if c == '#' then ToComment(lx, 1, AtArray(ArrayValueEnd))
    else if c == '/' && At(lx, 1) == '/' then ToComment(lx, 2, AtArray(ArrayValueEnd))
    else if c == '/' || c == ',' || IsNL(c) then Go(Skip(AtArray(ArrayValue)), Fwd(lx, 1))
    else if c == ']' then Go(AtArray(ArrayEnd), Fwd(lx, 1))
    else Error(lx)
  }

  function StepMapKeyStart(lx: Lexer): (r: Step)
    requires InBounds(lx)
  {
    var c := At(lx, 0);
    if IsKeySeparator(c) || c == ']' then Error(lx)
    else if IsSpace(c) then Go(Skip(AtMap(MapKeyStart)), Fwd(lx, 1))
    else if c == '}' then Go(Skip(AtMap(MapEnd)), Fwd(lx, 1))
    else if c == '#' then ToComment(lx, 1, AtMap(MapKeyStart))
    else if c == '/' then
      if At(lx, 1) == '/' then ToComment(lx, 2, AtMap(MapKeyStart)) else Go(AtMap(MapKey), Fwd(Ignore(Fwd(lx, 1)), 1))
    else if c == '\'' then Go(Skip(AtMap(MapQuotedKey)), Fwd(lx, 1))
    else if c == '"' then Go(Skip(AtMap(MapDubQuotedKey)), Fwd(lx, 1))
    else if c == EOF then Error(lx)
    else Go(AtMap(MapKey), Fwd(Ignore(lx), 1))
  }

  function StepMapQuotedKey(lx: Lexer, quote: char, self: State): (r: Step)
    requires InBounds(lx)
  {
    var c := At(lx, 0);
    if c == EOF then Error(lx)
    else if c == quote then EmitQuotedKey(lx, AtMap(MapKeyEnd))
    else Go(self, Fwd(lx, 1))
  }

  function StepMapKey(lx: Lexer): (r: Step)
    requires InBounds(lx)
  {
    var c := At(lx, 0);
    if c == EOF then Error(lx)
    else if IsSpace(c) then KeyOrInclude(lx, AtMap(MapKeyEnd), Push(lx, AtMap(MapValueEnd)))
    else if IsKeySeparator(c) then Emit(lx, ItemKey, AtMap(MapKeyEnd))
    else Go(AtMap(MapKey), Fwd(lx, 1))
  }

  function StepMapKeyEnd(lx: Lexer): (r: Step)
    requires InBounds(lx)
  {
    var c := At(lx, 0);
    if IsSpace(c) then Go(Skip(AtMap(MapKeyEnd)), Fwd(lx, 1))
    else if IsKeySeparator(c) then Go(Skip(AtMap(MapValue)), Fwd(lx, 1))
    else Go(AtMap(MapValue), lx)
  }

  function StepMapValue(lx: Lexer): (r: Step)
    requires InBounds(lx)
  {
    var c := At(lx, 0);
    if IsSpace(c) then Go(Skip(AtMap(MapValue)), Fwd(lx, 1))
    else if c == ',' then Error(lx)
    else if c == '}' then Go(Skip(AtMap(MapEnd)), Fwd(lx, 1))
    else Go(AtValue(Value), Push(lx, AtMap(MapValueEnd)))
  }

  function StepMapValueEnd(lx: Lexer): (r: Step)
    requires InBounds(lx)
  {
    var c := At(lx, 0);
    if IsWhitespace(c) then Go(Skip(AtMap(MapValueEnd)), Fwd(lx, 1))
    else if c == '#' then ToComment(lx, 1, AtMap(MapValueEnd))
    else if c == '/' && At(lx, 1) == '/' then ToComment(lx, 2, AtMap(MapValueEnd))
    else if c == '/' || c == ';' || c == ',' || IsNL(c) then Go(Skip(AtMap(MapKeyStart)), Fwd(lx, 1))
    else if c == '}' then Go(Skip(AtMap(MapEnd)), Fwd(lx, 1))
    else Error(lx)
  }

  function StepQuotedString(lx: Lexer): (r: Step)
    requires InBounds(lx)
  {
    var c := At(lx, 0);
    if c == '\'' then EmitQuotedPop(lx, ItemString)
    else if c == EOF then UnexpectedEnd(lx)
    else Go(AtValue(QuotedString), Fwd(lx, 1))
  }

  /** The text before a backslash becomes a string part. */
  function ToEscape(lx: Lexer): (r: Step)
    requires InBounds(lx)
  {
    Go(AtValue(StringEscape), Ignore(Fwd(lx, 1).(parts := lx.parts + [Pending(lx)])))
  }

  function StepDubQuotedString(lx: Lexer): (r: Step)
    requires InBounds(lx)
  {
    var c := At(lx, 0);
    if c == '\\' then ToEscape(lx)
    else if c == '"' then EmitStringPop(lx, 1)
    else if c == EOF then UnexpectedEnd(lx)
    else Go(AtValue(DubQuotedString), Fwd(lx, 1))
  }

  predicate EndsString(c: char) {
    IsNL(c) || c == EOF || c == ';' || c == ',' || c == ']' || c == '}' || IsWhitespace(c)
  }

  function StepString(lx: Lexer): (r: Step)
    requires InBounds(lx)
  {
    var c := At(lx, 0);
    if c == '\\' then ToEscape(lx)
    else if EndsString(c) then
      if lx.parts != [] then EmitStringPop(lx, 0)
      else if IsBoolWord(Pending(lx)) then EmitPop(lx, ItemBool)
      else if lx.start < lx.pos && lx.input[lx.start] == '$' then EmitPop(lx.(start := lx.start + 1), ItemVariable)
      else EmitStringPop(lx, 0)
    else if c == '\'' then EmitStringPop(lx, 1)
    else Go(AtValue(String), Fwd(lx, 1))
  }

  function AddPart(lx: Lexer, n: nat, part: string): (r: Step) {
    Go(lx.resume, Ignore(Fwd(lx, n).(parts := lx.parts + [part])))
  }

  function StepStringEscape(lx: Lexer): (r: Step)
    requires InBounds(lx)
  {
    var c := At(lx, 0);
    if c == 'x' then Go(AtValue(StringBinary), Fwd(lx, 1))
    else if c == 't' then AddPart(lx, 1, "\t")
    else if c == 'n' then AddPart(lx, 1, "\n")
    else if c == 'r' then AddPart(lx, 1, "\r")
    else if c == '"' then AddPart(lx, 1, "\"")
    else if c == '\\' then AddPart(lx, 1, "\\")
    else Error(lx)
  }

  function StepStringBinary(lx: Lexer): (r: Step)
    requires InBounds(lx)
  {
    if IsHex(At(lx, 0)) && IsHex(At(lx, 1)) then
      AddPart(lx, 2, [(16 * HexValue(At(lx, 0)) + HexValue(At(lx, 1))) as char])
    else Error(lx)
  }

  /** A block ends at a closing parenthesis on a line of its own; when that line is the last of the
      input and has no end, the parenthesis stays in the string. */
  function StepBlock(lx: Lexer): (r: Step)
    requires InBounds(lx) && lx.pos >= 1
  {
    var c := At(lx, 0);
    if c == ')' && lx.input[lx.pos - 1] == '\n' && lx.pos + 1 == |lx.input| then EmitPop(Fwd(lx, 1), ItemString)
    else if c == ')' && lx.input[lx.pos - 1] == '\n' && (At(lx, 1) == '\n' || At(lx, 1) == EOF) then
      EmitQuotedPop(lx, ItemString)
    else if c == EOF then Error(lx)
    else Go(AtValue(Block), Fwd(lx, 1))
  }

  function StepNumberStart(lx: Lexer): (r: Step)
    requires InBounds(lx)
  {
    if IsDigit(At(lx, 0)) then Go(AtValue(Number), Fwd(lx, 1)) else Error(lx)
  }

  predicate EndsNumber(c: char) {
    IsNL(c) || c == EOF || c == '}' || c == ';' || c == ',' || IsWhitespace(c)
  }

  function StepNumber(lx: Lexer): (r: Step)
    requires InBounds(lx)
  {
    var c := At(lx, 0);
    if c == '-' then
      if lx.pos + 1 - lx.start != 5 then Error(lx) else Go(AtValue(DateAfterYear), Fwd(lx, 1))
    else if IsDigit(c) then Go(AtValue(Number), Fwd(lx, 1))
    else if c == '.' then Go(AtValue(FloatStart), Fwd(lx, 1))
    else if IsNumberSuffix(c) then Go(AtValue(ConvenientNumber), Fwd(lx, 1))
    else if !EndsNumber(c) then Go(AtValue(String), Fwd(lx, 1).(resume := AtValue(String)))
    else EmitPop(lx, ItemInteger)
  }

  function StepConvenientNumber(lx: Lexer): (r: Step)
    requires InBounds(lx)
  {
    var c := At(lx, 0);
    if c == 'b' || c == 'B' || c == 'i' || c == 'I' then Go(AtValue(ConvenientNumber), Fwd(lx, 1))
    else if EndsNumber(c) || IsDigit(c) then EmitPop(lx, ItemInteger)
    else Go(AtValue(String), lx.(resume := AtValue(String)))
  }

  function StepDateAfterYear(lx: Lexer): (r: Step)
    requires InBounds(lx)
  {
    var n := |DATE_FORMAT|;
    if lx.pos + n <= |lx.input| && IsDateRest(lx.input[lx.pos..lx.pos + n]) then EmitPop(Fwd(lx, n), ItemDatetime)
    else Error(lx)
  }

  function StepNegNumberStart(lx: Lexer): (r: Step)
    requires InBounds(lx)
  {
    if IsDigit(At(lx, 0)) then Go(AtValue(NegNumber), Fwd(lx, 1)) else Error(lx)
  }

  function StepNegNumber(lx: Lexer): (r: Step)
    requires InBounds(lx)
  {
    var c := At(lx, 0);
    if IsDigit(c) then Go(AtValue(NegNumber), Fwd(lx, 1))
    else if c == '.' then Go(AtValue(FloatStart), Fwd(lx, 1))
    else if IsNumberSuffix(c) then Go(AtValue(ConvenientNumber), Fwd(lx, 1))
    else EmitPop(lx, ItemInteger)
  }

  function StepFloatStart(lx: Lexer): (r: Step)
    requires InBounds(lx)
  {
    if IsDigit(At(lx, 0)) then Go(AtValue(Float), Fwd(lx, 1)) else Error(lx)
  }

  function StepFloat(lx: Lexer): (r: Step)
    requires InBounds(lx)
  {
    var c := At(lx, 0);
    if IsDigit(c) then Go(AtValue(Float), Fwd(lx, 1))
    else if c == '.' then Go(AtValue(IPAddr), Fwd(lx, 1))
    else EmitPop(lx, ItemFloat)
  }

  function StepIPAddr(lx: Lexer): (r: Step)
    requires InBounds(lx)
  {
    var c := At(lx, 0);
    if IsDigit(c) || c == '.' || c == ':' || c == '-' then Go(AtValue(IPAddr), Fwd(lx, 1)) else EmitPop(lx, ItemString)
  }

  function StepComment(lx: Lexer): (r: Step)
    requires InBounds(lx)
  {
    var c := At(lx, 0);
    if IsNL(c) || c == EOF then EmitPop(lx, ItemText) else Go(AtComment(Comment), Fwd(lx, 1))
  }

  /** One call of a state function. */
  function Next(s: State, lx: Lexer): (r: Step)
    requires InBounds(lx) && Entered(s, lx)
  {
    match s
    case Top => StepTop(lx)
    case TopValueEnd => StepTopValueEnd(lx)
    case AtKey(KeyStart) => StepKeyStart(lx)
    case AtKey(DubQuotedKey) => StepQuotedKey(lx, '"', AtKey(DubQuotedKey))
    case AtKey(QuotedKey) => StepQuotedKey(lx, '\'', AtKey(QuotedKey))
    case AtKey(Key) => StepKey(lx)
    case AtKey(KeyEnd) => StepKeyEnd(lx)
    case AtInclude(IncludeStart) => StepIncludeStart(lx)
    case AtInclude(Include) => StepInclude(lx)
    case AtInclude(IncludeQuotedString) => StepIncludeQuoted(lx, '\'', AtInclude(IncludeQuotedString))
    case AtInclude(IncludeDubQuotedString) => StepIncludeQuoted(lx, '"', AtInclude(IncludeDubQuotedString))
    case AtInclude(IncludeString) => StepIncludeString(lx)
    case AtValue(Value) => StepValue(lx)
    case AtArray(ArrayValue) => StepArrayValue(lx)
    case AtArray(ArrayValueEnd) => StepArrayValueEnd(lx)
    case AtArray(ArrayEnd) => EmitPop(Ignore(lx), ItemArrayEnd)
    case AtMap(MapKeyStart) => StepMapKeyStart(lx)
    case AtMap(MapQuotedKey) => StepMapQuotedKey(lx, '\'', AtMap(MapQuotedKey))
    case AtMap(MapDubQuotedKey) => StepMapQuotedKey(lx, '"', AtMap(MapDubQuotedKey))
    case AtMap(MapKey) => StepMapKey(lx)
    case AtMap(MapKeyEnd) => StepMapKeyEnd(lx)
    case AtMap(MapValue) => StepMapValue(lx)
    case AtMap(MapValueEnd) => StepMapValueEnd(lx)
    case AtMap(MapEnd) => EmitPop(Ignore(lx), ItemMapEnd)
    case AtValue(QuotedString) => StepQuotedString(lx)
    case AtValue(DubQuotedString) => StepDubQuotedString(lx)
    case AtValue(String) => StepString(lx)
    case AtValue(StringEscape) => StepStringEscape(lx)
    case AtValue(StringBinary) => StepStringBinary(lx)
    case AtValue(Block) => StepBlock(lx)
    case AtValue(NumberStart) => StepNumberStart(lx)
    case AtValue(Number) => StepNumber(lx)
    case AtValue(ConvenientNumber) => StepConvenientNumber(lx)
    case AtValue(NegNumberStart) => StepNegNumberStart(lx)
    case AtValue(NegNumber) => StepNegNumber(lx)
    case AtValue(DateAfterYear) => StepDateAfterYear(lx)
    case AtValue(FloatStart) => StepFloatStart(lx)
    case AtValue(Float) => StepFloat(lx)
    case AtValue(IPAddr) => StepIPAddr(lx)
    case AtComment(CommentStart) => Emit(Ignore(lx), ItemCommentStart, AtComment(Comment))
    case AtComment(Comment) => StepComment(lx)
    case Skip(next) => Go(next, Ignore(lx))
  }
}
