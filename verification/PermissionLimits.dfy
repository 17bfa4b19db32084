/** The permissions of a user, with the templates in their lists worked out. */
module PermissionLimits {
  import opened Text
  import opened Subjects
  import opened Products
  import opened PermissionTemplates

  // ----- the loops -----

  method HasAnyTemplate(list: seq<string>) returns (found: bool)
    ensures found == AnyTemplate(list)
  {
    var i := 0;
    while i < |list|
      invariant 0 <= i <= |list| && forall k :: 0 <= k < i ==> !HasTemplate(list[k])
    {
      var tokens := Tokens(list[i]);
      var j := 0;
      while j < |tokens|
        invariant 0 <= j <= |tokens| && forall k :: 0 <= k < j ==> !IsTemplate(tokens[k])
      {
        if IsTemplate(tokens[j]) {
          assert HasTemplate(list[i]);
          return true;
        }
        j := j + 1;
      }
      i := i + 1;
    }
    return false;
  }

  method FindTagValues(tags: seq<string>, prefix: string) returns (values: seq<string>)
    ensures values == TagValues(tags, prefix)
  {
    values := [];
    var i := 0;
    while i < |tags|
      invariant 0 <= i <= |tags| && values + TagValues(tags[i..], prefix) == TagValues(tags, prefix)
    {
      if HasPrefix(tags[i], prefix) {
        values := values + [TrimPrefix(tags[i], prefix)];
      }
      i := i + 1;
    }
  }

  /** The tokens of an entry with an empty one for each tag, and the values of those tags that have any. */
  method ResolveTokens(tokens: seq<string>, u: User, acc: AccountInfo) returns (newTokens: seq<string>, tagValues: seq<seq<string>>)
    ensures newTokens == Blanked(Pieces(tokens, u, acc)) && tagValues == TagLists(Pieces(tokens, u, acc))
  {
    hide Resolve, Blanked, TagLists, Pieces;
    newTokens, tagValues := [], [];
    NoToken(u, acc);
    var i := 0;
    while i < |tokens|
      invariant 0 <= i <= |tokens|
      invariant newTokens + Blanked(Pieces(tokens[i..], u, acc)) == Blanked(Pieces(tokens, u, acc))
      invariant tagValues + TagLists(Pieces(tokens[i..], u, acc)) == TagLists(Pieces(tokens, u, acc))
    {
      var token, values := ResolveToken(tokens[i], u, acc);
      OneToken(tokens[i..], u, acc);
      newTokens := newTokens + [token];
      if |values| != 0 {
        tagValues := tagValues + [values];
      }
      i := i + 1;
    }
    assert tokens[i..] == [];
  }

  lemma NoToken(u: User, acc: AccountInfo)
    ensures Blanked(Pieces([], u, acc)) == [] && TagLists(Pieces([], u, acc)) == []
  {
  }

  lemma OneToken(tokens: seq<string>, u: User, acc: AccountInfo)
    requires tokens != []
    ensures var p, rest := Resolve(tokens[0], u, acc), Pieces(tokens[1..], u, acc);
            && Blanked(Pieces(tokens, u, acc)) == [match p case Fixed(t) => t case Choice(_) => ""] + Blanked(rest)
            && TagLists(Pieces(tokens, u, acc)) == (if p.Choice? && p.values != [] then [p.values] else []) + TagLists(rest)
  {
    var ps := Pieces(tokens, u, acc);
    assert ps[1..] == Pieces(tokens[1..], u, acc);
  }

  method ResolveToken(token: string, u: User, acc: AccountInfo) returns (tk: string, values: seq<string>)
    ensures match Resolve(token, u, acc)
            case Fixed(t) => tk == t && values == []
            case Choice(vs) => tk == "" && values == vs
  {
    tk, values := token, [];
    if IsTemplate(token) {
      var op := Lower(TrimSuffix(TrimPrefix(token, "{{"), "}}"));
      if op == "name()" {
        tk := u.name;
      } else if op == "subject()" {
        tk := u.subject;
      } else if op == "account-name()" {
        tk := acc.nameTag;
      } else if op == "account-subject()" {
        tk := u.issuerAccount;
      } else if (HasPrefix(op, "tag(") || HasPrefix(op, "account-tag(")) && HasSuffix(op, ")") {
        tk := "";
        if HasPrefix(op, "account-tag(") {
          values := FindTagValues(acc.tags, TagName(op, "account-tag("));
        } else {
          values := FindTagValues(u.tags, TagName(op, "tag("));
        }
      } else {
        tk := " ";
      }
    }
  }

  /** The value that the first token takes, and the values that are left. */
  function First(tokens: seq<string>, values: seq<string>): (r: (string, seq<string>))
    requires tokens != []
  {
    if tokens[0] == "" && values != [] then (values[0], values[1..]) else (tokens[0], values)
  }

  lemma FilledFirst(tokens: seq<string>, values: seq<string>)
    requires tokens != []
    ensures var (token, left) := First(tokens, values);
            Join(Filled(tokens, values), TSEP) ==
            token + if |tokens| == 1 then "" else [TSEP] + Join(Filled(tokens[1..], left), TSEP)
  {
    hide Join;
    var (token, left) := First(tokens, values);
    var rest := Filled(tokens[1..], left);
    assert Filled(tokens, values) == [token] + rest;
    JoinCons(token, rest, TSEP);
  }

  lemma JoinCons(first: string, rest: seq<string>, sep: char)
    ensures Join([first] + rest, sep) == first + if rest == [] then "" else [sep] + Join(rest, sep)
  {
    assert ([first] + rest)[1..] == rest;
    assert first + [sep] + Join(rest, sep) == first + ([sep] + Join(rest, sep));
  }

  lemma FilledNone(values: seq<string>)
    ensures Join(Filled([], values), TSEP) == ""
  {
  }

  /** The subject with the values put in, built token by token. */
  method FillIn(newTokens: seq<string>, valueList: seq<string>) returns (s: string)
    ensures s == Join(Filled(newTokens, valueList), TSEP)
  {
    hide Filled, Join;
    s := "";
    var values := valueList;
    FilledNone(values);
    var i := 0;
    ghost var all, left := Join(Filled(newTokens, valueList), TSEP), Join(Filled(newTokens, valueList), TSEP);
    while i < |newTokens|
      invariant 0 <= i <= |newTokens| && all == s + left
      invariant left == if i == |newTokens| then "" else Join(Filled(newTokens[i..], values), TSEP)
    {
      FilledFirst(newTokens[i..], values);
      assert newTokens[i..][1..] == newTokens[i + 1..];
      var token := newTokens[i];
      if token == "" && |values| > 0 {
        token := values[0];
        values := values[1..];
      }
      ghost var rest := if i + 1 == |newTokens| then "" else Join(Filled(newTokens[i + 1..], values), TSEP);
      assert left == token + if i + 1 == |newTokens| then "" else [TSEP] + rest;
      Regroup(s, token, rest);
      s := s + token;
      if i != |newTokens| - 1 {
        s := s + [TSEP];
      }
      left := rest;
      i := i + 1;
    }
  }

  lemma Regroup(s: string, token: string, rest: string)
    ensures s + (token + "") == s + token + "" && s + (token + ([TSEP] + rest)) == s + token + [TSEP] + rest
  {
    assert token + "" == token && s + token + "" == s + token;
  }

  /** The valid subjects of one entry, added to what there is; or a failure, at the first that is not. An
      entry without tags has one combination, the empty one, which leaves its tokens as they are. */
  method EmitEntry(entry: string, strict: bool, u: User, acc: AccountInfo, emitted: seq<string>) returns (r: Result)
    ensures r == if strict && !IsSound(PiecesOf(entry, u, acc)) then Failed
                 else Applied(emitted + OnlyValid(Substitutions(PiecesOf(entry, u, acc))))
  {
    hide Valid, Substitutions, Filled, Join, Tokens, Pieces, Combos, Blanked, TagLists;
    var tokens := Tokens(entry);
    PiecesLength(tokens, u, acc);
    ghost var ps := PiecesOf(entry, u, acc);
    FillingIsSubstituting(ps);
    var newTokens, tagValues := ResolveTokens(tokens, u, acc);
    var combos := Product(tagValues);
    ghost var filled := JoinAll(FilledAll(newTokens, combos));
    var list := emitted;
    var i := 0;
    while i < |combos|
      invariant 0 <= i <= |combos| && list == emitted + OnlyValid(filled[..i])
      invariant strict ==> AllValid(filled[..i])
    {
      var subject := FillIn(newTokens, combos[i]);
      var valid := IsValidSubject(subject);
      assert filled[i] == subject;
      OneMoreSubject(filled, i);
      if valid {
        list := list + [subject];
      } else if strict {
        return Failed;
      }
      i := i + 1;
    }
    assert filled[..|combos|] == filled;
    return Applied(list);
  }

  lemma {:induction false} PiecesLength(tokens: seq<string>, u: User, acc: AccountInfo)
    ensures |Pieces(tokens, u, acc)| == |tokens|
  {
    if tokens != [] {
      PiecesLength(tokens[1..], u, acc);
    }
  }

  lemma OneMoreSubject(ss: seq<string>, i: nat)
    requires i < |ss|
    ensures OnlyValid(ss[..i + 1]) == OnlyValid(ss[..i]) + if Valid(ss[i]) then [ss[i]] else []
    ensures AllValid(ss[..i + 1]) <==> AllValid(ss[..i]) && Valid(ss[i])
    ensures !Valid(ss[i]) ==> !AllValid(ss)
  {
    assert ss[..i + 1] == ss[..i] + [ss[i]];
    assert ss[..i + 1][..i] == ss[..i];
  }

  method ApplyTemplate(list: seq<string>, strict: bool, u: User, acc: AccountInfo) returns (r: Result)
    ensures r == Apply(list, strict, u, acc)
  {
    hide IsSound, PiecesOf, Substitutions, AnyTemplate;
    var found := HasAnyTemplate(list);
    if !found {
      return Applied(list);
    }
    r := Applied([]);
    var i := 0;
    while i < |list|
      invariant 0 <= i <= |list| && r == Applied(EmitAll(list[..i], u, acc))
      invariant strict ==> forall k :: 0 <= k < i ==> IsSound(PiecesOf(list[k], u, acc))
    {
      r := EmitEntry(list[i], strict, u, acc, r.list);
      if r == Failed {
        return;
      }
      assert list[..i + 1][..i] == list[..i];
      i := i + 1;
    }
    assert list[..|list|] == list;
  }

  // ----- all four lists -----

  datatype Permission = Permission(allow: seq<string>, deny: seq<string>)

  datatype Limits = Limits(sub: Permission, pub: Permission)

  datatype Outcome = Refused | Granted(limits: Limits)

  /** Adding to a list of strings keeps it free of repetition. */
  function Added(list: seq<string>, s: string): (r: seq<string>) {
    if s in list then list else list + [s]
  }

  /** What becomes of one pair of lists; an allow list that was not empty and is, denies everything. */
  function Worked(p: Permission, u: User, acc: AccountInfo): (r: Permission)
    requires Apply(p.allow, false, u, acc).Applied? && Apply(p.deny, true, u, acc).Applied?
  {
    var allow, deny := Apply(p.allow, false, u, acc).list, Apply(p.deny, true, u, acc).list;
    Permission(allow, if p.allow != [] && allow == [] then Added(deny, FWC) else deny)
  }

  method ProcessTemplates(lim: Limits, u: User, acc: AccountInfo) returns (r: Outcome)
    ensures r.Granted? <==> Apply(lim.sub.deny, true, u, acc).Applied? && Apply(lim.pub.deny, true, u, acc).Applied?
    ensures r.Granted? ==> r.limits == Limits(Worked(lim.sub, u, acc), Worked(lim.pub, u, acc))
  {
    hide EmitAll, AnyTemplate, IsSound;
    var subAllow := ApplyTemplate(lim.sub.allow, false, u, acc);
    if subAllow.Failed? {
      assert false;
    }
    var subDeny := ApplyTemplate(lim.sub.deny, true, u, acc);
    if subDeny.Failed? {
      return Refused;
    }
    var pubAllow := ApplyTemplate(lim.pub.allow, false, u, acc);
    if pubAllow.Failed? {
      assert false;
    }
    var pubDeny := ApplyTemplate(lim.pub.deny, true, u, acc);
    if pubDeny.Failed? {
      return Refused;
    }
    var sub, pub := Permission(subAllow.list, subDeny.list), Permission(pubAllow.list, pubDeny.list);
    if lim.sub.allow != [] && sub.allow == [] {
      sub := sub.(deny := Added(sub.deny, FWC));
    }
    if lim.pub.allow != [] && pub.allow == [] {
      pub := pub.(deny := Added(pub.deny, FWC));
    }
    return Granted(Limits(sub, pub));
  }

  // ----- what may be done -----

  predicate AnyMatches(list: seq<string>, l: seq<string>) {
    exists i :: 0 <= i < |list| && Matches(Tokens(list[i]), l)
  }

  /** No allow list allows everything; what is denied is not allowed. */
  predicate Permits(p: Permission, l: seq<string>) {
    (p.allow == [] || AnyMatches(p.allow, l)) && !AnyMatches(p.deny, l)
  }

  /** An entry covers a literal subject through one of its valid substitutions, or as it stands in a list
      without templates. */
  predicate Stands(list: seq<string>, u: User, acc: AccountInfo, s: string) {
    if !AnyTemplate(list) then s in list
    else exists i :: 0 <= i < |list| && Valid(s) && s in Substitutions(PiecesOf(list[i], u, acc))
  }

  lemma {:induction false} OnlyValidHolds(ss: seq<string>, s: string)
    ensures s in OnlyValid(ss) <==> s in ss && Valid(s)
  {
    if ss != [] {
      var front := ss[..|ss| - 1];
      OnlyValidHolds(front, s);
      assert ss == front + [ss[|ss| - 1]];
    }
  }

  lemma {:induction false} EmitAllHolds(list: seq<string>, u: User, acc: AccountInfo, s: string)
    ensures s in EmitAll(list, u, acc) <==>
            exists i :: 0 <= i < |list| && Valid(s) && s in Substitutions(PiecesOf(list[i], u, acc))
  {
    hide Valid, Substitutions, PiecesOf;
    if list != [] {
      var front, last := list[..|list| - 1], list[|list| - 1];
      EmitAllHolds(front, u, acc, s);
      OnlyValidHolds(Substitutions(PiecesOf(last, u, acc)), s);
      if s in EmitAll(front, u, acc) {
        var i :| 0 <= i < |front| && Valid(s) && s in Substitutions(PiecesOf(front[i], u, acc));
        assert list[i] == front[i];
      }
    }
  }

  lemma AppliedHolds(list: seq<string>, strict: bool, u: User, acc: AccountInfo, s: string)
    requires Apply(list, strict, u, acc).Applied?
    ensures s in Apply(list, strict, u, acc).list <==> Stands(list, u, acc, s)
  {
    hide IsSound, AnyTemplate, Substitutions, PiecesOf, Valid;
    EmitAllHolds(list, u, acc, s);
  }

  /** A list none of whose entries works out permits nothing. */
  lemma EmptiedDeniesAll(p: Permission, u: User, acc: AccountInfo, l: seq<string>)
    requires Apply(p.allow, false, u, acc).Applied? && Apply(p.deny, true, u, acc).Applied?
    requires p.allow != [] && l != [] && Worked(p, u, acc).allow == []
    ensures !Permits(Worked(p, u, acc), l)
  {
    hide Apply;
    var r := Worked(p, u, acc);
    var i :| 0 <= i < |r.deny| && r.deny[i] == FWC;
    SplitPlain(FWC, TSEP);
    assert Tokens(FWC) == [FWC] && Matches(Tokens(r.deny[i]), l);
  }

  /** Templates never give a user more than their entries say: with an allow list to begin with, whatever
      is permitted in the end is covered by an entry of it. */
  lemma NeverWidened(p: Permission, u: User, acc: AccountInfo, l: seq<string>)
    requires Apply(p.allow, false, u, acc).Applied? && Apply(p.deny, true, u, acc).Applied?
    requires p.allow != [] && l != [] && Permits(Worked(p, u, acc), l)
    ensures exists s :: Stands(p.allow, u, acc, s) && Matches(Tokens(s), l)
  {
    hide Apply, Stands;
    var r := Worked(p, u, acc);
    assert r.allow != [] by {
      if r.allow == [] {
        EmptiedDeniesAll(p, u, acc, l);
      }
    }
    var i :| 0 <= i < |r.allow| && Matches(Tokens(r.allow[i]), l);
    AppliedHolds(p.allow, false, u, acc, r.allow[i]);
  }

  /** And deny lists never lose anything: what an entry denies, in any of its substitutions, valid or not,
      is denied, or the user is refused. */
  lemma DenialsStay(p: Permission, u: User, acc: AccountInfo, i: nat, s: string, l: seq<string>)
    requires Apply(p.allow, false, u, acc).Applied? && Apply(p.deny, true, u, acc).Applied?
    requires i < |p.deny| && s in (if AnyTemplate(p.deny) then Substitutions(PiecesOf(p.deny[i], u, acc)) else [p.deny[i]])
    requires Matches(Tokens(s), l)
    ensures !Permits(Worked(p, u, acc), l)
  {
    hide AnyTemplate, Substitutions, PiecesOf;
    var r := Worked(p, u, acc);
    if AnyTemplate(p.deny) {
      assert IsSound(PiecesOf(p.deny[i], u, acc));
      assert Valid(s);
    }
    hide Valid;
    assert Stands(p.deny, u, acc, s);
    AppliedHolds(p.deny, true, u, acc, s);
    assert s in r.deny;
    var k :| 0 <= k < |r.deny| && r.deny[k] == s;
    assert Matches(Tokens(r.deny[k]), l);
  }
}
