/** The parser as it runs, pulling items from a lexer and keeping its stacks. */
module ConfParsing {
  import opened Basics
  import opened Text
  import opened ConfLex
  import opened ConfParse
  import opened ConfSafety
  import opened ConfFuel
  import Run = ConfRun
  import P = ConfParse
  import opened ConfLexing

  class Parser {
    const lx: ConfLexing.Lexer
    const out: Outside
    var ctx: Ctx
    var ctxs: seq<Ctx>
    var keys: seq<string>

    ghost function View(): (p: P.Parser)
      reads this
    {
      P.Parser(ctxs, keys)
    }

    /** The current context is the one on top of the stack. */
    ghost predicate Valid()
      reads this
    {
      ctxs != [] && ctx == Last(ctxs)
    }

    constructor (data: string, out: Outside)
      ensures Valid() && View() == P.Parser([MapCtx(map[])], []) && this.out == out
      ensures fresh(lx) && lx.input == data && lx.View() == Run.Start(data).lx && lx.state == Top && lx.items == []
    {
      this.lx := new ConfLexing.Lexer(data);
      this.out := out;
      ctx := MapCtx(map[]);
      ctxs := [MapCtx(map[])];
      keys := [];
    }

    method PushContext(c: Ctx)
      modifies this`ctx, this`ctxs
      ensures Valid() && View() == old(View()).(ctxs := old(ctxs) + [c])
    {
      ctxs := ctxs + [c];
      ctx := c;
    }

    method PopContext() returns (last: Ctx)
      requires |ctxs| >= 2
      modifies this`ctx, this`ctxs
      ensures Valid() && View() == old(View()).(ctxs := Init(old(ctxs))) && last == Last(old(ctxs))
    {
      var li := |ctxs| - 1;
      last := ctxs[li];
      ctxs := ctxs[..li];
      ctx := ctxs[|ctxs| - 1];
    }

    method PopKey() returns (last: string)
      requires |keys| > 0
      modifies this`keys
      ensures keys == Init(old(keys)) && last == Last(old(keys))
    {
      var li := |keys| - 1;
      last := keys[li];
      keys := keys[..li];
    }

    method SetValue(v: P.Value)
      requires Valid() && CanSet(View())
      modifies this`ctx, this`ctxs, this`keys
      ensures Valid() && View() == P.SetValue(old(View()), v)
    {
      match ctx {
        case ArrCtx(a) =>
          ctx := ArrCtx(a + [v]);
          ctxs := ctxs[|ctxs| - 1 := ctx];
        case MapCtx(m) =>
          var key := PopKey();
          ctx := MapCtx(m[key := v]);
          ctxs := ctxs[|ctxs| - 1 := ctx];
      }
    }

    /** Block scoping: the innermost map that has the name. */
    method LookupVariable(name: string) returns (v: Option<P.Value>)
      ensures v == P.LookupVariable(View(), name, out)
    {
      if BCRYPT_PREFIX <= name {
        return Some(VString("$" + name));
      }
      var i := |ctxs|;
      assert ctxs[..i] == ctxs;
      while i > 0
        invariant 0 <= i <= |ctxs| && LookupCtxs(ctxs[..i], name) == LookupCtxs(ctxs, name)
      {
        i := i - 1;
        assert Init(ctxs[..i + 1]) == ctxs[..i];
        if ctxs[i].MapCtx? && name in ctxs[i].m {
          return Some(ctxs[i].m[name]);
        }
      }
      match out.env(name)
      case Set(value) => return Some(value);
      case NotSet => return None;
      case Unreadable => return None;
    }

    /** The digits at the front of a number. */
    method LastDigit(val: string) returns (n: nat)
      ensures n == NumberLength(val)
    {
      n := 0;
      assert val[0..] == val;
      while n < |val| && (IsDigit(val[n]) || val[n] == '-')
        invariant n <= |val| && NumberLength(val) == n + NumberLength(val[n..])
      {
        assert val[n..][1..] == val[n + 1..];
        n := n + 1;
      }
    }

    method ProcessItem(it: Item) returns (ok: bool)
      requires Valid() && CanTake(View(), it.typ)
      modifies this`ctx, this`ctxs, this`keys
      ensures ok <==> Process(old(View()), it, out).Some?
      ensures ok ==> Valid() && View() == Process(old(View()), it, out).value
    {
      hide P.SetValue, P.LookupVariable, ParseInt, Multiplier, NumberLength, Lower;
      ok := true;
      match it.typ {
        case ItemError => ok := false;
        case ItemKey => keys := keys + [it.val];
        case ItemMapStart => PushContext(MapCtx(map[]));
        case ItemArrayStart => PushContext(ArrCtx([]));
        case ItemMapEnd =>
          var last := PopContext();
          SetValue(Closed(last));
        case ItemArrayEnd =>
          var closed := ctx;
          var _ := PopContext();
          SetValue(Closed(closed));
        case ItemString => SetValue(VString(it.val));
        case ItemInteger =>
          var n := LastDigit(it.val);
          var num := ParseInt(it.val[..n]);
          var factor := Multiplier(Lower(it.val[n..]));
          if num.None? {
            ok := false;
          } else if factor.Some? {
            SetValue(VInt(Wrap64(num.value * factor.value)));
          }
        case ItemFloat =>
          ok := out.isFloat(it.val);
          if ok {
            SetValue(VFloat(it.val));
          }
        case ItemBool =>
          var word := Lower(it.val);
          if word == "true" || word == "yes" || word == "on" {
            SetValue(VBool(true));
          } else if word == "false" || word == "no" || word == "off" {
            SetValue(VBool(false));
          } else {
            ok := false;
          }
        case ItemDatetime =>
          ok := out.isDate(it.val);
          if ok {
            SetValue(VDate(it.val));
          }
        case ItemVariable =>
          var v := LookupVariable(it.val);
          ok := v.Some?;
          if ok {
            SetValue(v.value);
          }
        case ItemInclude =>
          match out.file(it.val) {
            case NoFile => ok := false;
            case Included(m) =>
              ctx := MapCtx(ctx.m + m);
              ctxs := ctxs[|ctxs| - 1 := ctx];
          }
        case ItemText =>
        case ItemCommentStart =>
        case ItemEOF =>
      }
    }

    /** The lexer and the parser stand where c says; once the lexer has stopped its fields no longer
        matter. */
    ghost predicate Stands(c: Run.Config)
      reads this, lx
    {
      && Valid() && c.p == View() && c.state == lx.state && (c.state != Halt ==> c.lx == lx.View())
    }

    /** Runs the lexer until an item is there, and takes it. */
    method NextItem(ghost c0: Run.Config) returns (it: Item, ghost c: Run.Config)
      requires Run.Inv(c0) && Stands(c0) && c0.queue == [] && lx.items == []
      modifies lx
      ensures Run.Inv(c) && Stands(c) && c.queue == [it] && lx.items == []
      ensures c.prev == c0.prev && Run.MovesLeft(c) < Run.MovesLeft(c0)
      ensures Run.ParseFrom(c, out) == Run.ParseFrom(c0, out)
    {
      hide Next, Ready, CanFollow, KeysAfter, KindsAfter, Fuel;
      c := c0;
      while lx.items == []
        invariant Run.Inv(c) && Stands(c) && c.queue == lx.items && c.prev == c0.prev
        invariant Run.MovesLeft(c) <= Run.MovesLeft(c0) && (lx.items != [] ==> Run.MovesLeft(c) < Run.MovesLeft(c0))
        invariant Run.ParseFrom(c, out) == Run.ParseFrom(c0, out)
        decreases Run.MovesLeft(c)
      {
        Run.MoveShrinks(c, out);
        RunnableState(c);
        var s := lx.RunState();
        lx.state := s;
        c := Run.Move(c, out).value;
      }
      it := lx.items[0];
      lx.items := lx.items[1..];
    }

    lemma RunnableState(c: Run.Config)
      requires Run.Inv(c) && c.queue == []
      ensures c.state != Halt && InBounds(c.lx) && Entered(c.state, c.lx)
    {
    }

    /** The parse loop. */
    method Parse() returns (r: Run.Outcome)
      requires Valid() && View() == P.Parser([MapCtx(map[])], [])
      requires lx.View() == Run.Start(lx.input).lx && lx.state == Top && lx.items == []
      modifies this, lx
      ensures r == Run.Parse(lx.input, out)
    {
      hide Next, Process, Run.Inv, Run.MovesLeft;
      var prevItem := Item(ItemError, "");
      ghost var c := Run.Start(lx.input);
      while true
        invariant Run.Inv(c) && Stands(c) && c.queue == [] && c.prev == prevItem && lx.items == []
        invariant Run.ParseFrom(c, out) == Run.Parse(lx.input, out)
        decreases Run.MovesLeft(c)
      {
        ghost var before := c;
        var it;
        it, c := NextItem(c);
        if it.typ == ItemEOF {
          Rooted(c);
          if prevItem.typ == ItemKey && prevItem.val != "}" {
            return Run.Rejected;
          }
          return Run.Parsed(ctxs[0].m);
        }
        prevItem := it;
        if it.typ == ItemError {
          return Run.Rejected;
        }
        Run.ItemIsTaken(c);
        Run.MoveShrinks(c, out);
        var ok := ProcessItem(it);
        if !ok {
          return Run.Rejected;
        }
        c := Run.Move(c, out).value;
      }
    }

    lemma Rooted(c: Run.Config)
      requires Run.Inv(c)
      ensures c.p.ctxs != [] && c.p.ctxs[0].MapCtx?
    {
    }
  }
}
