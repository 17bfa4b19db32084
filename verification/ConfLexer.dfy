/** The lexer as it runs: it reads characters one by one, backs up, and sends items to a queue.  Every
    state method does what the look-ahead form of that state says. */
module ConfLexing {
  import opened Text
  import opened ConfLex
  import L = ConfLex

  class Lexer {
    const input: string
    var start: int
    var pos: int
    var width: int
    var state: State
    var items: seq<Item>
    var stack: seq<State>
    var stringParts: seq<string>
    var stringState: State

    ghost function View(): (lx: L.Lexer)
      reads this
    {
      L.Lexer(input, start, pos, stack, stringParts, stringState)
    }

    /** Where the fields may stand when a state is entered. */
    ghost predicate Ready()
      reads this
    {
      InBounds(View()) && Entered(state, View())
    }

    constructor (input: string)
      ensures this.input == input && View() == L.Lexer(input, 0, 0, [], [], Halt)
      ensures state == Top && items == []
    {
      this.input := input;
      start, pos, width := 0, 0, 0;
      state, stringState := Top, Halt;
      items, stack, stringParts := [], [], [];
    }

    // ----- primitives -----

    method Push(s: State)
      modifies this`stack
      ensures View() == L.Push(old(View()), s)
    {
      stack := stack + [s];
    }

    method Pop() returns (s: State)
      modifies this`stack, this`items
      ensures (s, View(), items) == L.Pop(old(View()), old(items))
    {
      if |stack| == 0 {
        s := ErrorF();
        return;
      }
      var li := |stack| - 1;
      s := stack[li];
      stack := stack[..li];
    }

    method Emit(typ: ItemType)
      requires InBounds(View())
      modifies this`items, this`start
      ensures items == old(items) + [Item(typ, Concat(stringParts) + old(Pending(View())))]
      ensures View() == Ignore(old(View()))
    {
      items := items + [Item(typ, Concat(stringParts) + input[start..pos])];
      start := pos;
    }

    method EmitString()
      requires InBounds(View())
      modifies this`items, this`start, this`stringParts
      ensures items == old(items) + [Item(ItemString, Concat(old(stringParts)) + old(Pending(View())))]
      ensures View() == Ignore(old(View()).(parts := []))
    {
      var finalString;
      if |stringParts| > 0 {
        finalString := Concat(stringParts) + input[start..pos];
        stringParts := [];
      } else {
        finalString := input[start..pos];
        assert Concat(stringParts) + finalString == finalString;
      }
      items := items + [Item(ItemString, finalString)];
      start := pos;
    }

    method AddCurrentStringPart(offset: int)
      requires InBounds(View()) && 0 <= offset <= pos - start
      modifies this`start, this`stringParts
      ensures View() == Ignore(old(View()).(parts := old(stringParts) + [input[old(start)..pos - offset]]))
    {
      stringParts := stringParts + [input[start..pos - offset]];
      start := pos;
    }

    method AddStringPart(s: string) returns (next: State)
      modifies this`start, this`stringParts
      ensures View() == Ignore(old(View()).(parts := old(stringParts) + [s])) && next == stringState
    {
      stringParts := stringParts + [s];
      start := pos;
      next := stringState;
    }

    method NextRune() returns (r: char)
      requires 0 <= pos <= |input|
      modifies this`pos, this`width
      ensures r == At(old(View()), 0) && View() == Fwd(old(View()), 1)
      ensures width == pos - old(pos)
    {
      if pos >= |input| {
        width := 0;
        return EOF;
      }
      r := input[pos];
      width := 1;
      pos := pos + width;
    }

    method Drop()
      modifies this`start
      ensures View() == Ignore(old(View()))
    {
      start := pos;
    }

    method Backup()
      modifies this`pos
      ensures pos == old(pos) - width
    {
      pos := pos - width;
    }

    method Peek() returns (r: char)
      requires 0 <= pos <= |input|
      modifies this`pos, this`width
      ensures View() == old(View()) && r == At(View(), 0)
    {
      r := NextRune();
      Backup();
    }

    method ErrorF() returns (s: State)
      modifies this`items
      ensures s == Halt && items == old(items) + [Item(ItemError, "")]
    {
      items := items + [Item(ItemError, "")];
      s := Halt;
    }

    /** next does what the step says, as far as anyone can still see. */
    twostate predicate Does(next: State, r: Step)
      reads this
    {
      && next == r.0 && items == old(items) + r.2
      && (next != Halt ==> View() == r.1)
    }

    // ----- what several states do at their end -----

    method EmitAndPop(typ: ItemType) returns (next: State)
      requires InBounds(View())
      modifies this`items, this`start, this`stack
      ensures Does(next, L.EmitPop(old(View()), typ))
    {
      Emit(typ);
      next := Pop();
    }

    /** Sends what stands before a closing quote, then reads the quote. */
    method EmitQuotedAndPop(typ: ItemType) returns (next: State)
      requires InBounds(View())
      modifies this`items, this`start, this`stack, this`pos, this`width
      ensures Does(next, EmitQuotedPop(old(View()), typ))
    {
      Emit(typ);
      var _ := NextRune();
      Drop();
      next := Pop();
    }

    method EmitStringAndPop(quoted: bool) returns (next: State)
      requires InBounds(View())
      modifies this`items, this`start, this`stack, this`pos, this`width, this`stringParts
      ensures Does(next, EmitStringPop(old(View()), if quoted then 1 else 0))
    {
      EmitString();
      if quoted {
        var _ := NextRune();
        Drop();
      }
      next := Pop();
    }

    /** The input is over: r was EOF. */
    method EndOfInput() returns (next: State)
      requires InBounds(View())
      modifies this`items, this`start
      ensures Does(next, if pos > old(start) then Error(old(View())) else L.Emit(old(View()), ItemEOF, Halt))
    {
      if pos > start {
        next := ErrorF();
        return;
      }
      Emit(ItemEOF);
      next := Halt;
    }

    /** After a slash: a second one starts a comment that returns to back. */
    method SlashComment(back: State) returns (yes: bool)
      requires InBounds(View())
      modifies this`pos, this`width, this`stack
      ensures yes == (At(old(View()), 0) == '/')
      ensures View() == if yes then L.Push(Fwd(old(View()), 1), back) else old(View())
    {
      var rn := NextRune();
      yes := rn == '/';
      if yes {
        Push(back);
      } else {
        Backup();
      }
    }

    // ----- states -----

    method LexTop() returns (next: State)
      requires InBounds(View())
      modifies this`start, this`pos, this`width, this`items, this`stack
      ensures Does(next, StepTop(old(View())))
    {
      var r := NextRune();
      var slashes := false;
      if r == '/' {
        slashes := SlashComment(Top);
      }
      if IsSpace(r) || r == '{' {
        next := Skip(Top);
      } else if r == '#' {
        Push(Top);
        next := AtComment(CommentStart);
      } else if slashes {
        next := AtComment(CommentStart);
      } else if r == '/' || r == EOF {
        next := EndOfInput();
      } else {
        Backup();
        Push(TopValueEnd);
        next := AtKey(KeyStart);
      }
    }

    method LexTopValueEnd() returns (next: State)
      requires InBounds(View())
      modifies this`start, this`pos, this`width, this`items, this`stack
      ensures Does(next, StepTopValueEnd(old(View())))
    {
      var r := NextRune();
      var slashes := false;
      if r == '/' {
        slashes := SlashComment(Top);
      }
      if r == '#' {
        Push(Top);
        next := AtComment(CommentStart);
      } else if slashes {
        next := AtComment(CommentStart);
      } else if r == '/' || IsWhitespace(r) {
        next := TopValueEnd;
      } else if IsNL(r) || r == EOF || r == ';' || r == ',' || r == '}' {
        Drop();
        next := Top;
      } else {
        next := ErrorF();
      }
    }

    method LexKeyStart() returns (next: State)
      requires InBounds(View())
      modifies this`start, this`pos, this`width, this`items
      ensures Does(next, StepKeyStart(old(View())))
    {
      var r := Peek();
      if IsKeySeparator(r) {
        next := ErrorF();
      } else if IsSpace(r) {
        var _ := NextRune();
        next := Skip(AtKey(KeyStart));
      } else if r == '"' {
        var _ := NextRune();
        next := Skip(AtKey(DubQuotedKey));
      } else if r == '\'' {
        var _ := NextRune();
        next := Skip(AtKey(QuotedKey));
      } else {
        Drop();
        var _ := NextRune();
        next := AtKey(Key);
      }
    }

    method LexQuotedKey(quote: char, self: State) returns (next: State)
      requires InBounds(View())
      modifies this`start, this`pos, this`width, this`items
      ensures Does(next, StepQuotedKey(old(View()), quote, self))
    {
      var r := Peek();
      if r == quote {
        Emit(ItemKey);
        var _ := NextRune();
        next := Skip(AtKey(KeyEnd));
      } else if r == EOF {
        next := EndOfInput();
      } else {
        var _ := NextRune();
        next := self;
      }
    }

    /** A bare key followed by a space may be the keyword; a map pushes where to go on after it. */
    method KeyCheckKeyword(fallThrough: State, push: State) returns (next: State)
      requires InBounds(View())
      modifies this`start, this`items, this`stack
      ensures Does(next, KeyOrInclude(old(View()), fallThrough,
                                      if push == Halt then old(View()) else L.Push(old(View()), push)))
    {
      hide Concat, Lower;
      var key := Lower(input[start..pos]);
      if key == "include" {
        Drop();
        if push != Halt {
          Push(push);
        }
        next := AtInclude(IncludeStart);
      } else {
        Emit(ItemKey);
        next := fallThrough;
      }
    }

    method LexKey() returns (next: State)
      requires InBounds(View())
      modifies this`start, this`pos, this`width, this`items, this`stack
      ensures Does(next, StepKey(old(View())))
    {
      hide KeyOrInclude;
      var r := Peek();
      if IsSpace(r) {
        next := KeyCheckKeyword(AtKey(KeyEnd), Halt);
      } else if IsKeySeparator(r) || r == EOF {
        Emit(ItemKey);
        next := AtKey(KeyEnd);
      } else {
        var _ := NextRune();
        next := AtKey(Key);
      }
    }

    method LexKeyEnd() returns (next: State)
      requires InBounds(View())
      modifies this`start, this`pos, this`width, this`items
      ensures Does(next, StepKeyEnd(old(View())))
    {
      var r := NextRune();
      if IsSpace(r) {
        next := Skip(AtKey(KeyEnd));
      } else if IsKeySeparator(r) {
        next := Skip(AtValue(Value));
      } else if r == EOF {
        Emit(ItemEOF);
        next := Halt;
      } else {
        Backup();
        next := AtValue(Value);
      }
    }

    method LexIncludeStart() returns (next: State)
      requires InBounds(View())
      modifies this`pos, this`width
      ensures Does(next, StepIncludeStart(old(View())))
    {
      var r := NextRune();
      if IsWhitespace(r) {
        next := Skip(AtInclude(IncludeStart));
      } else {
        Backup();
        next := AtInclude(Include);
      }
    }

    method LexInclude() returns (next: State)
      requires InBounds(View())
      modifies this`start, this`pos, this`width, this`items
      ensures Does(next, StepInclude(old(View())))
    {
      var r := NextRune();
      if r == '\'' {
        Drop();
        next := AtInclude(IncludeQuotedString);
      } else if r == '"' {
        Drop();
        next := AtInclude(IncludeDubQuotedString);
      } else if r == '[' || r == '{' || r == '(' || IsDigit(r) || r == '-' || r == '\\' || IsNL(r) {
        next := ErrorF();
      } else {
        Backup();
        next := AtInclude(IncludeString);
      }
    }

    method LexIncludeQuoted(quote: char, self: State) returns (next: State)
      requires InBounds(View())
      modifies this`start, this`pos, this`width, this`items, this`stack
      ensures Does(next, StepIncludeQuoted(old(View()), quote, self))
    {
      hide EmitQuotedPop;
      var r := NextRune();
      if r == quote {
        Backup();
        next := EmitQuotedAndPop(ItemInclude);
      } else if r == EOF {
        next := ErrorF();
      } else {
        next := self;
      }
    }

    method LexIncludeString() returns (next: State)
      requires InBounds(View())
      modifies this`start, this`pos, this`width, this`items, this`stack
      ensures Does(next, StepIncludeString(old(View())))
    {
      hide EmitQuotedPop, EmitPop;
      var r := NextRune();
      if IsNL(r) || r == EOF || r == ';' || r == '}' || IsWhitespace(r) {
        Backup();
        next := EmitAndPop(ItemInclude);
      } else if r == '\'' {
        Backup();
        next := EmitQuotedAndPop(ItemInclude);
      } else {
        next := AtInclude(IncludeString);
      }
    }

    method LexValue() returns (next: State)
      requires InBounds(View())
      modifies this`start, this`pos, this`width, this`items, this`stringState
      ensures Does(next, StepValue(old(View())))
    {
      var r := NextRune();
      if IsWhitespace(r) {
        next := Skip(AtValue(Value));
      } else if r == '[' {
        Drop();
        Emit(ItemArrayStart);
        next := AtArray(ArrayValue);
      } else if r == '{' {
        Drop();
        Emit(ItemMapStart);
        next := AtMap(MapKeyStart);
      } else if r == '\'' {
        Drop();
        next := AtValue(QuotedString);
      } else if r == '"' {
        Drop();
        stringState := AtValue(DubQuotedString);
        next := AtValue(DubQuotedString);
      } else if r == '-' {
        next := AtValue(NegNumberStart);
      } else if r == '(' {
        Drop();
        next := AtValue(Block);
      } else if IsDigit(r) {
        Backup();
        next := AtValue(NumberStart);
      } else if r == '.' || IsNL(r) {
        next := ErrorF();
      } else {
        Backup();
        stringState := AtValue(String);
        next := AtValue(String);
      }
    }

    method LexArrayValue() returns (next: State)
      requires InBounds(View())
      modifies this`pos, this`width, this`items, this`stack
      ensures Does(next, StepArrayValue(old(View())))
    {
      var r := NextRune();
      var slashes := false;
      if r == '/' {
        slashes := SlashComment(AtArray(ArrayValue));
      }
      if IsSpace(r) {
        next := Skip(AtArray(ArrayValue));
      } else if r == '#' {
        Push(AtArray(ArrayValue));
        next := AtComment(CommentStart);
      } else if slashes {
        next := AtComment(CommentStart);
      } else if r == '/' || r == ',' {
        next := ErrorF();
      } else if r == ']' {
        next := AtArray(ArrayEnd);
      } else {
        Backup();
        Push(AtArray(ArrayValueEnd));
        next := AtValue(Value);
      }
    }

    method LexArrayValueEnd() returns (next: State)
      requires InBounds(View())
      modifies this`pos, this`width, this`items, this`stack
      ensures Does(next, StepArrayValueEnd(old(View())))
    {
      var r := NextRune();
      var slashes := false;
      if r == '/' {
        slashes := SlashComment(AtArray(ArrayValueEnd));
      }
      if IsWhitespace(r) {
        next := Skip(AtArray(ArrayValueEnd));
      } else if r == '#' {
        Push(AtArray(ArrayValueEnd));
        next := AtComment(CommentStart);
      } else if slashes {
        next := AtComment(CommentStart);
      } else if r == '/' || r == ',' || IsNL(r) {
        next := Skip(AtArray(ArrayValue));
      } else if r == ']' {
        next := AtArray(ArrayEnd);
      } else {
        next := ErrorF();
      }
    }

    /** The end of an array or of a map. */
    method LexEnd(typ: ItemType) returns (next: State)
      requires InBounds(View())
      modifies this`start, this`items, this`stack
      ensures Does(next, EmitPop(Ignore(old(View())), typ))
    {
      Drop();
      next := EmitAndPop(typ);
    }

    method LexMapKeyStart() returns (next: State)
      requires InBounds(View())
      modifies this`start, this`pos, this`width, this`items, this`stack
      ensures Does(next, StepMapKeyStart(old(View())))
    {
      var r := Peek();
      if IsKeySeparator(r) || r == ']' {
        next := ErrorF();
      } else if IsSpace(r) {
        var _ := NextRune();
        next := Skip(AtMap(MapKeyStart));
      } else if r == '}' {
        var _ := NextRune();
        next := Skip(AtMap(MapEnd));
      } else if r == '#' {
        var _ := NextRune();
        Push(AtMap(MapKeyStart));
        next := AtComment(CommentStart);
      } else if r == '\'' {
        var _ := NextRune();
        next := Skip(AtMap(MapQuotedKey));
      } else if r == '"' {
        var _ := NextRune();
        next := Skip(AtMap(MapDubQuotedKey));
      } else if r == EOF {
        next := ErrorF();
      } else {
        var slashes := false;
        if r == '/' {
          var _ := NextRune();
          slashes := SlashComment(AtMap(MapKeyStart));
        }
        if slashes {
          next := AtComment(CommentStart);
        } else {
          Drop();
          var _ := NextRune();
          next := AtMap(MapKey);
        }
      }
    }

    method LexMapQuotedKey(quote: char, self: State) returns (next: State)
      requires InBounds(View())
      modifies this`start, this`pos, this`width, this`items
      ensures Does(next, StepMapQuotedKey(old(View()), quote, self))
    {
      var r := Peek();
      if r == EOF {
        next := ErrorF();
      } else if r == quote {
        Emit(ItemKey);
        var _ := NextRune();
        next := Skip(AtMap(MapKeyEnd));
      } else {
        var _ := NextRune();
        next := self;
      }
    }

    method LexMapKey() returns (next: State)
      requires InBounds(View())
      modifies this`start, this`pos, this`width, this`items, this`stack
      ensures Does(next, StepMapKey(old(View())))
    {
      hide KeyOrInclude;
      var r := Peek();
      if r == EOF {
        next := ErrorF();
      } else if IsSpace(r) {
        next := KeyCheckKeyword(AtMap(MapKeyEnd), AtMap(MapValueEnd));
      } else if IsKeySeparator(r) {
        Emit(ItemKey);
        next := AtMap(MapKeyEnd);
      } else {
        var _ := NextRune();
        next := AtMap(MapKey);
      }
    }

    method LexMapKeyEnd() returns (next: State)
      requires InBounds(View())
      modifies this`pos, this`width
      ensures Does(next, StepMapKeyEnd(old(View())))
    {
      var r := NextRune();
      if IsSpace(r) {
        next := Skip(AtMap(MapKeyEnd));
      } else if IsKeySeparator(r) {
        next := Skip(AtMap(MapValue));
      } else {
        Backup();
        next := AtMap(MapValue);
      }
    }

    method LexMapValue() returns (next: State)
      requires InBounds(View())
      modifies this`pos, this`width, this`items, this`stack
      ensures Does(next, StepMapValue(old(View())))
    {
      var r := NextRune();
      if IsSpace(r) {
        next := Skip(AtMap(MapValue));
      } else if r == ',' {
        next := ErrorF();
      } else if r == '}' {
        next := Skip(AtMap(MapEnd));
      } else {
        Backup();
        Push(AtMap(MapValueEnd));
        next := AtValue(Value);
      }
    }

    method LexMapValueEnd() returns (next: State)
      requires InBounds(View())
      modifies this`pos, this`width, this`items, this`stack
      ensures Does(next, StepMapValueEnd(old(View())))
    {
      var r := NextRune();
      var slashes := false;
      if r == '/' {
        slashes := SlashComment(AtMap(MapValueEnd));
      }
      if IsWhitespace(r) {
        next := Skip(AtMap(MapValueEnd));
      } else if r == '#' {
        Push(AtMap(MapValueEnd));
        next := AtComment(CommentStart);
      } else if slashes {
        next := AtComment(CommentStart);
      } else if r == '/' || r == ';' || r == ',' || IsNL(r) {
        next := Skip(AtMap(MapKeyStart));
      } else if r == '}' {
        next := Skip(AtMap(MapEnd));
      } else {
        next := ErrorF();
      }
    }

    method LexQuotedString() returns (next: State)
      requires InBounds(View())
      modifies this`start, this`pos, this`width, this`items, this`stack
      ensures Does(next, StepQuotedString(old(View())))
    {
      hide EmitQuotedPop, Concat;
      var r := NextRune();
      if r == '\'' {
        Backup();
        next := EmitQuotedAndPop(ItemString);
      } else if r == EOF {
        next := EndOfInput();
      } else {
        next := AtValue(QuotedString);
      }
    }

    method LexDubQuotedString() returns (next: State)
      requires InBounds(View())
      modifies this`start, this`pos, this`width, this`items, this`stack, this`stringParts
      ensures Does(next, StepDubQuotedString(old(View())))
    {
      hide EmitStringPop, Concat;
      var r := NextRune();
      if r == '\\' {
        AddCurrentStringPart(1);
        next := AtValue(StringEscape);
      } else if r == '"' {
        Backup();
        next := EmitStringAndPop(true);
      } else if r == EOF {
        next := EndOfInput();
      } else {
        next := AtValue(DubQuotedString);
      }
    }

    /** Whether the pending text is a variable reference; if so its dollar sign is dropped. */
    method IsVariable() returns (yes: bool)
      requires InBounds(View())
      modifies this`start
      ensures yes == (old(start) < |input| && input[old(start)] == '$')
      ensures start == if yes then old(start) + 1 else old(start)
    {
      if start >= |input| {
        return false;
      }
      if input[start] == '$' {
        start := start + 1;
        return true;
      }
      yes := false;
    }

    /** The end of a bare string: with escapes it is a string, otherwise it may be something else. */
    method FinishString() returns (next: State)
      requires InBounds(View()) && EndsString(At(View(), 0))
      modifies this`start, this`pos, this`width, this`items, this`stack, this`stringParts
      ensures Does(next, StepString(old(View())))
    {
      hide EmitStringPop, EmitPop, IsBoolWord;
      if |stringParts| > 0 {
        next := EmitStringAndPop(false);
      } else if IsBoolWord(input[start..pos]) {
        next := EmitAndPop(ItemBool);
      } else {
        var variable := IsVariable();
        if variable {
          next := EmitAndPop(ItemVariable);
        } else {
          next := EmitStringAndPop(false);
        }
      }
    }

    method LexString() returns (next: State)
      requires InBounds(View())
      modifies this`start, this`pos, this`width, this`items, this`stack, this`stringParts
      ensures Does(next, StepString(old(View())))
    {
      hide EmitStringPop, EmitPop, IsBoolWord;
      var r := NextRune();
      if r == '\\' {
        AddCurrentStringPart(1);
        next := AtValue(StringEscape);
      } else if EndsString(r) {
        Backup();
        next := FinishString();
      } else if r == '\'' {
        Backup();
        next := EmitStringAndPop(true);
      } else {
        next := AtValue(String);
      }
    }

    method LexBlock() returns (next: State)
      requires InBounds(View()) && pos >= 1
      modifies this`start, this`pos, this`width, this`items, this`stack
      ensures Does(next, StepBlock(old(View())))
    {
      hide EmitQuotedPop, EmitPop;
      var r := NextRune();
      next := AtValue(Block);
      if r == ')' {
        Backup();
        Backup();
        var before := NextRune();
        var _ := NextRune();
        if before == '\n' {
          next := CloseBlock();
        }
      } else if r == EOF {
        next := ErrorF();
      }
    }

    /** After a closing parenthesis at the start of a line: the line has to end there. */
    method CloseBlock() returns (next: State)
      requires InBounds(View()) && start < pos
      modifies this`start, this`pos, this`width, this`items, this`stack
      ensures var c := At(old(View()), 0);
              Does(next,
                   if old(pos) == |input| then EmitPop(old(View()), ItemString)
                   else if c == '\n' || c == EOF then EmitQuotedPop(old(View()).(pos := old(pos) - 1), ItemString)
                   else Go(AtValue(Block), old(View())))
    {
      hide Concat;
      var after := NextRune();
      if after == '\n' || after == EOF {
        Backup();
        Backup();
        next := EmitQuotedAndPop(ItemString);
      } else {
        Backup();
        next := AtValue(Block);
      }
    }

    method LexStringEscape() returns (next: State)
      requires InBounds(View())
      modifies this`start, this`pos, this`width, this`items, this`stringParts
      ensures Does(next, StepStringEscape(old(View())))
    {
      var r := NextRune();
      if r == 'x' {
        next := AtValue(StringBinary);
      } else if r == 't' {
        next := AddStringPart("\t");
      } else if r == 'n' {
        next := AddStringPart("\n");
      } else if r == 'r' {
        next := AddStringPart("\r");
      } else if r == '"' {
        next := AddStringPart("\"");
      } else if r == '\\' {
        next := AddStringPart("\\");
      } else {
        next := ErrorF();
      }
    }

    method LexStringBinary() returns (next: State)
      requires InBounds(View()) && pos >= 2 && input[pos - 1] == 'x'
      modifies this`start, this`pos, this`width, this`items, this`stringParts
      ensures Does(next, StepStringBinary(old(View())))
    {
      hide HexValue, Concat;
      assert !IsHex('x');
      var r1 := NextRune();
      if IsNL(r1) {
        next := ErrorF();
        return;
      }
      var r2 := NextRune();
      var offset := pos - 2;
      if IsNL(r2) || !IsHex(input[offset]) || !IsHex(input[offset + 1]) {
        next := ErrorF();
      } else {
        next := AddStringPart([(16 * HexValue(input[offset]) + HexValue(input[offset + 1])) as char]);
      }
    }

    method LexNumberOrDateOrStringOrIPStart() returns (next: State)
      requires InBounds(View())
      modifies this`pos, this`width, this`items
      ensures Does(next, StepNumberStart(old(View())))
    {
      var r := NextRune();
      if IsDigit(r) {
        next := AtValue(Number);
      } else {
        next := ErrorF();
      }
    }

    method LexNumberOrDateOrStringOrIP() returns (next: State)
      requires InBounds(View())
      modifies this`start, this`pos, this`width, this`items, this`stack, this`stringState
      ensures Does(next, StepNumber(old(View())))
    {
      hide EmitPop, EndsNumber;
      var r := NextRune();
      if r == '-' {
        if pos - start != 5 {
          next := ErrorF();
        } else {
          next := AtValue(DateAfterYear);
        }
      } else if IsDigit(r) {
        next := AtValue(Number);
      } else if r == '.' {
        next := AtValue(FloatStart);
      } else if IsNumberSuffix(r) {
        next := AtValue(ConvenientNumber);
      } else if !(EndsNumber(r) || IsDigit(r)) {
        stringState := AtValue(String);
        next := AtValue(String);
      } else {
        Backup();
        next := EmitAndPop(ItemInteger);
      }
    }

    method LexConvenientNumber() returns (next: State)
      requires InBounds(View())
      modifies this`start, this`pos, this`width, this`items, this`stack, this`stringState
      ensures Does(next, StepConvenientNumber(old(View())))
    {
      hide EmitPop, EndsNumber;
      var r := NextRune();
      if r == 'b' || r == 'B' || r == 'i' || r == 'I' {
        return AtValue(ConvenientNumber);
      }
      Backup();
      if EndsNumber(r) || IsDigit(r) {
        next := EmitAndPop(ItemInteger);
      } else {
        stringState := AtValue(String);
        next := AtValue(String);
      }
    }

    method LexDateAfterYear() returns (next: State)
      requires InBounds(View())
      modifies this`start, this`pos, this`width, this`items, this`stack
      ensures Does(next, StepDateAfterYear(old(View())))
    {
      hide EmitPop;
      for i := 0 to |DATE_FORMAT|
        invariant View() == old(View()).(pos := old(pos) + i) && pos <= |input| && items == old(items)
        invariant forall j :: 0 <= j < i ==>
                    if DATE_FORMAT[j] == '0' then IsDigit(input[old(pos) + j]) else input[old(pos) + j] == DATE_FORMAT[j]
      {
        var f := DATE_FORMAT[i];
        var r := NextRune();
        if if f == '0' then !IsDigit(r) else f != r {
          next := ErrorF();
          return;
        }
      }
      next := EmitAndPop(ItemDatetime);
    }

    method LexNegNumberStart() returns (next: State)
      requires InBounds(View())
      modifies this`pos, this`width, this`items
      ensures Does(next, StepNegNumberStart(old(View())))
    {
      var r := NextRune();
      if IsDigit(r) {
        next := AtValue(NegNumber);
      } else {
        next := ErrorF();
      }
    }

    method LexNegNumber() returns (next: State)
      requires InBounds(View())
      modifies this`start, this`pos, this`width, this`items, this`stack
      ensures Does(next, StepNegNumber(old(View())))
    {
      hide EmitPop;
      var r := NextRune();
      if IsDigit(r) {
        next := AtValue(NegNumber);
      } else if r == '.' {
        next := AtValue(FloatStart);
      } else if IsNumberSuffix(r) {
        next := AtValue(ConvenientNumber);
      } else {
        Backup();
        next := EmitAndPop(ItemInteger);
      }
    }

    method LexFloatStart() returns (next: State)
      requires InBounds(View())
      modifies this`pos, this`width, this`items
      ensures Does(next, StepFloatStart(old(View())))
    {
      var r := NextRune();
      if IsDigit(r) {
        next := AtValue(Float);
      } else {
        next := ErrorF();
      }
    }

    method LexFloat() returns (next: State)
      requires InBounds(View())
      modifies this`start, this`pos, this`width, this`items, this`stack
      ensures Does(next, StepFloat(old(View())))
    {
      hide EmitPop;
      var r := NextRune();
      if IsDigit(r) {
        next := AtValue(Float);
      } else if r == '.' {
        next := AtValue(IPAddr);
      } else {
        Backup();
        next := EmitAndPop(ItemFloat);
      }
    }

    method LexIPAddr() returns (next: State)
      requires InBounds(View())
      modifies this`start, this`pos, this`width, this`items, this`stack
      ensures Does(next, StepIPAddr(old(View())))
    {
      hide EmitPop;
      var r := NextRune();
      if IsDigit(r) || r == '.' || r == ':' || r == '-' {
        next := AtValue(IPAddr);
      } else {
        Backup();
        next := EmitAndPop(ItemString);
      }
    }

    method LexComment() returns (next: State)
      requires InBounds(View())
      modifies this`start, this`pos, this`width, this`items, this`stack
      ensures Does(next, StepComment(old(View())))
    {
      hide EmitPop;
      var r := Peek();
      if IsNL(r) || r == EOF {
        next := EmitAndPop(ItemText);
      } else {
        var _ := NextRune();
        next := AtComment(Comment);
      }
    }

    /** lx.state(lx). */
    method RunState() returns (next: State)
      requires Ready()
      modifies this`start, this`pos, this`width, this`items, this`stack, this`stringParts, this`stringState
      ensures Does(next, Next(old(state), old(View())))
    {
      match state {
        case Top => next := LexTop();
        case TopValueEnd => next := LexTopValueEnd();
        case AtKey(KeyStart) => next := LexKeyStart();
        case AtKey(DubQuotedKey) => next := LexQuotedKey('"', AtKey(DubQuotedKey));
        case AtKey(QuotedKey) => next := LexQuotedKey('\'', AtKey(QuotedKey));
        case AtKey(Key) => next := LexKey();
        case AtKey(KeyEnd) => next := LexKeyEnd();
        case AtInclude(IncludeStart) => next := LexIncludeStart();
        case AtInclude(Include) => next := LexInclude();
        case AtInclude(IncludeQuotedString) => next := LexIncludeQuoted('\'', AtInclude(IncludeQuotedString));
        case AtInclude(IncludeDubQuotedString) => next := LexIncludeQuoted('"', AtInclude(IncludeDubQuotedString));
        case AtInclude(IncludeString) => next := LexIncludeString();
        case AtValue(Value) => next := LexValue();
        case AtArray(ArrayValue) => next := LexArrayValue();
        case AtArray(ArrayValueEnd) => next := LexArrayValueEnd();
        case AtArray(ArrayEnd) => next := LexEnd(ItemArrayEnd);
        case AtMap(MapKeyStart) => next := LexMapKeyStart();
        case AtMap(MapQuotedKey) => next := LexMapQuotedKey('\'', AtMap(MapQuotedKey));
        case AtMap(MapDubQuotedKey) => next := LexMapQuotedKey('"', AtMap(MapDubQuotedKey));
        case AtMap(MapKey) => next := LexMapKey();
        case AtMap(MapKeyEnd) => next := LexMapKeyEnd();
        case AtMap(MapValue) => next := LexMapValue();
        case AtMap(MapValueEnd) => next := LexMapValueEnd();
        case AtMap(MapEnd) => next := LexEnd(ItemMapEnd);
        case AtValue(QuotedString) => next := LexQuotedString();
        case AtValue(DubQuotedString) => next := LexDubQuotedString();
        case AtValue(String) => next := LexString();
        case AtValue(StringEscape) => next := LexStringEscape();
        case AtValue(StringBinary) => next := LexStringBinary();
        case AtValue(Block) => next := LexBlock();
        case AtValue(NumberStart) => next := LexNumberOrDateOrStringOrIPStart();
        case AtValue(Number) => next := LexNumberOrDateOrStringOrIP();
        case AtValue(ConvenientNumber) => next := LexConvenientNumber();
        case AtValue(NegNumberStart) => next := LexNegNumberStart();
        case AtValue(NegNumber) => next := LexNegNumber();
        case AtValue(DateAfterYear) => next := LexDateAfterYear();
        case AtValue(FloatStart) => next := LexFloatStart();
        case AtValue(Float) => next := LexFloat();
        case AtValue(IPAddr) => next := LexIPAddr();
        case AtComment(Comment) => next := LexComment();
        case AtComment(CommentStart) =>
          Drop();
          Emit(ItemCommentStart);
          next := AtComment(Comment);
        case Skip(s) =>
          Drop();
          next := s;
      }
    }
  }
}
