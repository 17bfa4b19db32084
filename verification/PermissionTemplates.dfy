/** Permission templates: what the entries of a list stand for once names and tags are put in. */
module PermissionTemplates {
  import opened Text
  import opened Subjects
  import opened Products

  datatype User = User(name: string, subject: string, issuerAccount: string, tags: seq<string>)

  datatype AccountInfo = AccountInfo(nameTag: string, tags: seq<string>)

  // ----- one token -----

  predicate HasPrefix(s: string, p: string) {
    p <= s
  }

  predicate HasSuffix(s: string, p: string) {
    |p| <= |s| && s[|s| - |p|..] == p
  }

  function TrimPrefix(s: string, p: string): (r: string) {
    if HasPrefix(s, p) then s[|p|..] else s
  }

  function TrimSuffix(s: string, p: string): (r: string) {
    if HasSuffix(s, p) then s[..|s| - |p|] else s
  }

  predicate IsTemplate(token: string) {
    HasPrefix(token, "{{") && HasSuffix(token, "}}")
  }

  /** The values of the tags that begin with the prefix. */
  function TagValues(tags: seq<string>, prefix: string): (values: seq<string>) {
    if tags == [] then []
    else (if HasPrefix(tags[0], prefix) then [TrimPrefix(tags[0], prefix)] else []) + TagValues(tags[1..], prefix)
  }

  /** What a token stands for: one text, or any of several values. */
  datatype Piece = Fixed(token: string) | Choice(values: seq<string>)

  function TagName(op: string, start: string): (name: string) {
    Lower(TrimSuffix(TrimPrefix(op, start), ")")) + ":"
  }

  /** An operation that is not known becomes a blank, which no subject may hold. */
  function Resolve(token: string, u: User, acc: AccountInfo): (p: Piece) {
    if !IsTemplate(token) then Fixed(token)
    else
      var op := Lower(TrimSuffix(TrimPrefix(token, "{{"), "}}"));
      if op == "name()" then Fixed(u.name)
      else if op == "subject()" then Fixed(u.subject)
      else if op == "account-name()" then Fixed(acc.nameTag)
      else if op == "account-subject()" then Fixed(u.issuerAccount)
      else if HasPrefix(op, "account-tag(") && HasSuffix(op, ")") then Choice(TagValues(acc.tags, TagName(op, "account-tag(")))
      else if HasPrefix(op, "tag(") && HasSuffix(op, ")") then Choice(TagValues(u.tags, TagName(op, "tag(")))
      else Fixed(" ")
  }

  // ----- what an entry stands for -----

  function Pieces(tokens: seq<string>, u: User, acc: AccountInfo): (ps: seq<Piece>) {
    if tokens == [] then [] else [Resolve(tokens[0], u, acc)] + Pieces(tokens[1..], u, acc)
  }

  function Options(ps: seq<Piece>): (a: seq<seq<string>>)
    ensures |a| == |ps|
  {
    if ps == [] then []
    else [match ps[0] case Fixed(t) => [t] case Choice(values) => values] + Options(ps[1..])
  }

  function JoinAll(cs: seq<seq<string>>): (ss: seq<string>)
    ensures |ss| == |cs|
  {
    seq(|cs|, i requires 0 <= i < |cs| => Join(cs[i], TSEP))
  }

  /** Every way of putting in a value for each choice; none if some choice has no value. */
  function Substitutions(ps: seq<Piece>): (ss: seq<string>) {
    JoinAll(Combos(Options(ps)))
  }

  function OnlyValid(ss: seq<string>): (vs: seq<string>) {
    if ss == [] then []
    else OnlyValid(ss[..|ss| - 1]) + if Valid(ss[|ss| - 1]) then [ss[|ss| - 1]] else []
  }

  predicate AllValid(ss: seq<string>) {
    forall i :: 0 <= i < |ss| ==> Valid(ss[i])
  }

  /** All choices have values, and all that comes out is valid. */
  predicate IsSound(ps: seq<Piece>) {
    Substitutions(ps) != [] && AllValid(Substitutions(ps))
  }

  predicate HasTemplate(entry: string) {
    exists i :: 0 <= i < |Tokens(entry)| && IsTemplate(Tokens(entry)[i])
  }

  predicate AnyTemplate(list: seq<string>) {
    exists i :: 0 <= i < |list| && HasTemplate(list[i])
  }

  function PiecesOf(entry: string, u: User, acc: AccountInfo): (ps: seq<Piece>) {
    Pieces(Tokens(entry), u, acc)
  }

  function EmitAll(list: seq<string>, u: User, acc: AccountInfo): (ss: seq<string>) {
    if list == [] then []
    else EmitAll(list[..|list| - 1], u, acc) + OnlyValid(Substitutions(PiecesOf(list[|list| - 1], u, acc)))
  }

  datatype Result = Failed | Applied(list: seq<string>)

  /** A list without templates is taken as it is. In others each entry gives its valid substitutions;
      where that would lose one, a list that must not lose any fails. */
  function Apply(list: seq<string>, strict: bool, u: User, acc: AccountInfo): (r: Result) {
    if !AnyTemplate(list) then Applied(list)
    else if strict && exists i :: 0 <= i < |list| && !IsSound(PiecesOf(list[i], u, acc)) then Failed
    else Applied(EmitAll(list, u, acc))
  }

  // ----- filling in placeholders -----

  /** The tokens with an empty one for each choice, and the values for those choices that have any. */
  function Blanked(ps: seq<Piece>): (tokens: seq<string>)
    ensures |tokens| == |ps|
  {
    if ps == [] then [] else [match ps[0] case Fixed(t) => t case Choice(_) => ""] + Blanked(ps[1..])
  }

  function TagLists(ps: seq<Piece>): (a: seq<seq<string>>) {
    if ps == [] then []
    else (if ps[0].Choice? && ps[0].values != [] then [ps[0].values] else []) + TagLists(ps[1..])
  }

  /** The empty tokens take the values from left to right. */
  function Filled(tokens: seq<string>, values: seq<string>): (r: seq<string>)
    ensures |r| == |tokens|
  {
    if tokens == [] then []
    else if tokens[0] == "" && values != [] then [values[0]] + Filled(tokens[1..], values[1..])
    else [tokens[0]] + Filled(tokens[1..], values)
  }

  function FilledAll(tokens: seq<string>, cs: seq<seq<string>>): (rs: seq<seq<string>>)
    ensures |rs| == |cs|
  {
    seq(|cs|, i requires 0 <= i < |cs| => Filled(tokens, cs[i]))
  }

  /** No choice without values and no text that is empty: the empty tokens are the choices. */
  predicate IsWhole(ps: seq<Piece>) {
    forall i :: 0 <= i < |ps| ==> ps[i] != Choice([]) && ps[i] != Fixed("")
  }

  lemma {:induction false} FilledPrepend(tokens: seq<string>, values: seq<string>, cs: seq<seq<string>>)
    ensures FilledAll([""] + tokens, Prepend(values, cs)) == Prepend(values, FilledAll(tokens, cs))
  {
    if values != [] {
      FilledPrepend(tokens, values[1..], cs);
      var first, rest := MapCons(values[0], cs), Prepend(values[1..], cs);
      assert FilledAll([""] + tokens, first) == MapCons(values[0], FilledAll(tokens, cs)) by {
        forall i | 0 <= i < |cs|
          ensures Filled([""] + tokens, first[i]) == [values[0]] + Filled(tokens, cs[i])
        {
          assert ([""] + tokens)[1..] == tokens && first[i][1..] == cs[i];
        }
      }
      assert FilledAll([""] + tokens, first + rest) == FilledAll([""] + tokens, first) + FilledAll([""] + tokens, rest);
    }
  }

  lemma FilledFixed(t: string, tokens: seq<string>, cs: seq<seq<string>>)
    requires t != ""
    ensures FilledAll([t] + tokens, cs) == Prepend([t], FilledAll(tokens, cs))
  {
    assert ([t] + tokens)[1..] == tokens;
    assert Prepend([t][1..], FilledAll(tokens, cs)) == [];
  }

  /** Filling in gives all the ways of choosing. */
  lemma {:induction false} FilledIsCombos(ps: seq<Piece>)
    requires IsWhole(ps)
    ensures FilledAll(Blanked(ps), Combos(TagLists(ps))) == Combos(Options(ps))
  {
    if ps == [] {
      assert Combos([]) == [[]];
    } else {
      var tokens, lists := Blanked(ps[1..]), TagLists(ps[1..]);
      FilledIsCombos(ps[1..]);
      match ps[0]
      case Fixed(t) =>
        assert TagLists(ps) == lists;
        FilledFixed(t, tokens, Combos(lists));
      case Choice(values) =>
        assert TagLists(ps) == [values] + lists && ([values] + lists)[1..] == lists;
        FilledPrepend(tokens, values, Combos(lists));
    }
  }

  // ----- entries that do not work out -----

  function Blanks(tokens: seq<string>): (n: nat) {
    if tokens == [] then 0 else (if tokens[0] == "" then 1 else 0) + Blanks(tokens[1..])
  }

  lemma {:induction false} LeftOver(tokens: seq<string>, values: seq<string>)
    requires Blanks(tokens) > |values|
    ensures "" in Filled(tokens, values)
  {
    if tokens[0] == "" && values != [] {
      LeftOver(tokens[1..], values[1..]);
    } else if tokens[0] != "" {
      LeftOver(tokens[1..], values);
    }
  }

  lemma {:induction false} MoreBlanks(ps: seq<Piece>)
    ensures Blanks(Blanked(ps)) >= |TagLists(ps)|
    ensures !IsWhole(ps) ==> Blanks(Blanked(ps)) > |TagLists(ps)|
  {
    if ps != [] {
      MoreBlanks(ps[1..]);
      assert Blanked(ps)[1..] == Blanked(ps[1..]);
      if !IsWhole(ps) && ps[0] != Choice([]) && ps[0] != Fixed("") {
        var i :| 0 <= i < |ps| && (ps[i] == Choice([]) || ps[i] == Fixed(""));
        assert ps[1..][i - 1] == ps[i];
      }
    }
  }

  lemma {:induction false} EmptyTokenInSplit(parts: seq<string>)
    requires "" in parts
    ensures "" in Tokens(Join(parts, TSEP))
  {
    if |parts| > 1 {
      SplitConcat(parts[0], TSEP, Join(parts[1..], TSEP));
      if parts[0] != "" {
        EmptyTokenInSplit(parts[1..]);
      } else {
        assert Split("", TSEP) == [""];
      }
    }
  }

  lemma EmptyTokenIsInvalid(parts: seq<string>)
    requires "" in parts
    ensures !Valid(Join(parts, TSEP))
  {
    EmptyTokenInSplit(parts);
    var tokens := Tokens(Join(parts, TSEP));
    var i :| 0 <= i < |tokens| && tokens[i] == "";
  }

  lemma {:induction false} CombosLength(a: seq<seq<string>>, c: seq<string>)
    requires c in Combos(a)
    ensures |c| == |a| && forall j :: 0 <= j < |a| ==> c[j] in a[j]
  {
    if a != [] {
      PrependIn(a[0], Combos(a[1..]), c);
      CombosLength(a[1..], c[1..]);
    }
  }

  lemma {:induction false} PrependIn(xs: seq<string>, rest: seq<seq<string>>, c: seq<string>)
    requires c in Prepend(xs, rest)
    ensures c != [] && c[0] in xs && c[1..] in rest
  {
    if c in MapCons(xs[0], rest) {
      var i :| 0 <= i < |rest| && MapCons(xs[0], rest)[i] == c;
      assert c[1..] == rest[i];
    } else {
      PrependIn(xs[1..], rest, c);
    }
  }

  /** The choices of an entry that does not work out, filled in, are all invalid. */
  lemma UnwholeFillsInvalid(ps: seq<Piece>, c: seq<string>)
    requires !IsWhole(ps) && c in Combos(TagLists(ps))
    ensures !Valid(Join(Filled(Blanked(ps), c), TSEP))
  {
    CombosLength(TagLists(ps), c);
    MoreBlanks(ps);
    LeftOver(Blanked(ps), c);
    EmptyTokenIsInvalid(Filled(Blanked(ps), c));
  }

  /** And so are its substitutions, if it has any. */
  lemma UnwholeIsInvalid(ps: seq<Piece>, c: seq<string>)
    requires !IsWhole(ps) && c in Combos(Options(ps))
    ensures !Valid(Join(c, TSEP))
  {
    CombosLength(Options(ps), c);
    var i :| 0 <= i < |ps| && (ps[i] == Choice([]) || ps[i] == Fixed(""));
    OptionsAt(ps, i);
    assert c[i] in Options(ps)[i];
    EmptyTokenIsInvalid(c);
  }

  lemma {:induction false} OptionsAt(ps: seq<Piece>, i: nat)
    requires i < |ps|
    ensures Options(ps)[i] == match ps[i] case Fixed(t) => [t] case Choice(values) => values
  {
    if i > 0 {
      OptionsAt(ps[1..], i - 1);
      assert Options(ps)[i] == Options(ps[1..])[i - 1];
    }
  }

  lemma {:induction false} TagListsAreFull(ps: seq<Piece>)
    ensures NoneEmpty(TagLists(ps))
  {
    if ps != [] {
      TagListsAreFull(ps[1..]);
    }
  }

  lemma {:induction false} NoneValid(ss: seq<string>)
    requires forall i :: 0 <= i < |ss| ==> !Valid(ss[i])
    ensures OnlyValid(ss) == []
  {
    if ss != [] {
      NoneValid(ss[..|ss| - 1]);
    }
  }

  /** Filling placeholders in comes to the same as substituting, whatever the tags are: the same subjects
      are emitted, and the same entries are found wanting. */
  lemma FillingIsSubstituting(ps: seq<Piece>)
    ensures var filled := JoinAll(FilledAll(Blanked(ps), Combos(TagLists(ps))));
            OnlyValid(filled) == OnlyValid(Substitutions(ps)) && (AllValid(filled) <==> IsSound(ps))
  {
    hide Valid, Combos, Options, Blanked, TagLists;
    var lists := TagLists(ps);
    var filled := JoinAll(FilledAll(Blanked(ps), Combos(lists)));
    TagListsAreFull(ps);
    SizeIsPositive(lists);
    CombosSize(lists);
    if IsWhole(ps) {
      FilledIsCombos(ps);
    } else {
      forall i | 0 <= i < |filled|
        ensures !Valid(filled[i])
      {
        UnwholeFillsInvalid(ps, Combos(lists)[i]);
      }
      NoneValid(filled);
      assert !Valid(filled[0]);
      forall i | 0 <= i < |Substitutions(ps)|
        ensures !Valid(Substitutions(ps)[i])
      {
        UnwholeIsInvalid(ps, Combos(Options(ps))[i]);
      }
      NoneValid(Substitutions(ps));
    }
  }
}
