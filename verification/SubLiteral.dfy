/** The character-wise test of a literal against a subject, as the cache uses it, is the token-wise one. */
module SubLiteral {
  import opened Text
  import opened Subjects

  predicate NoEmptyToken(tokens: seq<string>) {
    forall i :: 0 <= i < |tokens| ==> tokens[i] != ""
  }

  /** What is left of subject and literal agrees, from the start of a token on. */
  predicate FromStart(s: string, l: string) {
    Matches(Tokens(s), Tokens(l))
  }

  /** The same from inside a token on, where a wildcard is a character like any other. */
  predicate FromInside(s: string, l: string) {
    Tokens(s)[0] == Tokens(l)[0] && Matches(Tokens(s)[1..], Tokens(l)[1..])
  }

  /** The rest of a literal behind its first separator, if there is one. */
  function Behind(l: string): (r: seq<string>) {
    Tokens(l)[1..]
  }

  lemma TokensCons(s: string)
    requires s != ""
    ensures s[0] == TSEP ==> Tokens(s) == [""] + Tokens(s[1..])
    ensures s[0] != TSEP ==> Tokens(s) == [[s[0]] + Tokens(s[1..])[0]] + Tokens(s[1..])[1..]
  {
  }

  /** One character inside a token. */
  lemma InsideStep(s: string, l: string)
    ensures s == "" ==> (FromInside(s, l) <==> l == "")
    ensures s != "" && l == "" ==> !FromInside(s, l)
    ensures s != "" && l != "" && s[0] != l[0] ==> !FromInside(s, l)
    ensures s != "" && l != "" && s[0] == l[0] == TSEP ==> (FromInside(s, l) <==> FromStart(s[1..], l[1..]))
    ensures s != "" && l != "" && s[0] == l[0] != TSEP ==> (FromInside(s, l) <==> FromInside(s[1..], l[1..]))
  {
    if s == "" {
      if l != "" {
        TokensCons(l);
      }
    } else {
      TokensCons(s);
      if l != "" {
        TokensCons(l);
        assert s[0] != TSEP ==> Tokens(s)[0][0] == s[0];
        assert l[0] != TSEP ==> Tokens(l)[0][0] == l[0];
        if s[0] == l[0] && s[0] != TSEP {
          var a, b := Tokens(s[1..])[0], Tokens(l[1..])[0];
          assert [s[0]] + a == [l[0]] + b ==> ([s[0]] + a)[1..] == ([l[0]] + b)[1..];
          assert ([s[0]] + a)[1..] == a && ([l[0]] + b)[1..] == b;
        }
      }
    }
  }

  /** The start of a token that is no wildcard: one character, and inside. */
  lemma PlainStart(s: string, l: string)
    requires s != "" && Tokens(s)[0] != "" && !IsWild(Tokens(s)[0])
    requires l != "" && Tokens(l)[0] != ""
    ensures FromStart(s, l) <==> s[0] == l[0] && FromInside(s[1..], l[1..])
  {
    TokensCons(s);
    TokensCons(l);
    InsideStep(s, l);
    assert FromStart(s, l) <==> FromInside(s, l);
  }

  lemma StarTokens(s: string)
    requires s != "" && Tokens(s)[0] == PWC
    ensures s[0] == '*' && (|s| == 1 || s[1] == TSEP)
    ensures Tokens(s) == [PWC] + if |s| == 1 then [] else Tokens(s[2..])
  {
    TokensCons(s);
    var rest := Tokens(s[1..])[0];
    assert ([s[0]] + rest)[0] == '*' && |rest| == 0;
    assert [s[0]] + rest == PWC;
    if |s| > 1 {
      TokensCons(s[1..]);
      assert s[1..][1..] == s[2..];
    } else {
      assert Tokens(s[1..]) == [""];
    }
  }

  lemma MatchesStar(rest: seq<string>, l: seq<string>)
    ensures Matches([PWC] + rest, l) <==> l != [] && Matches(rest, l[1..])
  {
    assert PWC[0] != FWC[0];
    assert ([PWC] + rest)[1..] == rest;
  }

  lemma StarStart(s: string, l: string)
    requires s != "" && Tokens(s)[0] == PWC
    ensures s[0] == '*' && (|s| == 1 || s[1] == TSEP)
    ensures |s| == 1 ==> (FromStart(s, l) <==> Behind(l) == [])
    ensures |s| > 1 ==> (FromStart(s, l) <==> Behind(l) != [] && Matches(Tokens(s[2..]), Behind(l)))
  {
    StarTokens(s);
    MatchesStar(if |s| == 1 then [] else Tokens(s[2..]), Tokens(l));
  }

  lemma ArrowStart(s: string, l: string)
    requires s != "" && Tokens(s) == [FWC]
    ensures s == FWC && FromStart(s, l)
  {
    SplitFields(s, TSEP);
    assert Join([FWC], TSEP) == FWC;
  }

  /** Going to the separator that ends the first token of a literal. */
  method SkipToken(literal: string, from: nat) returns (li: nat)
    requires from <= |literal|
    ensures from <= li <= |literal| && (li < |literal| ==> literal[li] == TSEP)
    ensures li == |literal| <==> Behind(literal[from..]) == []
    ensures li < |literal| ==> Behind(literal[from..]) == Tokens(literal[li + 1..])
  {
    li := from;
    while li < |literal| && literal[li] != TSEP
      invariant from <= li <= |literal|
      invariant Behind(literal[from..]) == Behind(literal[li..])
    {
      TokensCons(literal[li..]);
      assert literal[li..][1..] == literal[li + 1..];
      li := li + 1;
    }
    if li < |literal| {
      TokensCons(literal[li..]);
      assert literal[li..][1..] == literal[li + 1..];
    } else {
      assert literal[li..] == "";
    }
  }

  lemma StarAlone(s: string)
    requires s != "" && s[0] == '*' && (|s| == 1 || s[1] == TSEP)
    ensures Tokens(s)[0] == PWC
  {
    TokensCons(s);
    if |s| > 1 {
      TokensCons(s[1..]);
    } else {
      assert s[1..] == "";
    }
  }

  lemma StarRest(s: string, l: string)
    requires |s| > 1 && Tokens(s)[0] == PWC && WellFormed(Tokens(s)) && NoEmptyToken(Tokens(l))
    ensures WellFormed(Tokens(s[2..])) && NoEmptyToken(Behind(l))
  {
    StarStart(s, l);
    TokensCons(s);
    TokensCons(s[1..]);
    assert s[1..][1..] == s[2..];
    assert Tokens(s)[1..] == Tokens(s[2..]);
    RestIsWellFormed(Tokens(s));
  }

  lemma RestIsWellFormed(tokens: seq<string>)
    requires tokens != [] && WellFormed(tokens)
    ensures WellFormed(tokens[1..])
  {
  }

  /** Where a wildcard would have been taken for one, there is none. */
  lemma NotWild(s: string)
    requires s != "" && WellFormed(Tokens(s))
    requires s[0] == '*' ==> |s| > 1 && s[1] != TSEP
    requires s[0] == '>' ==> |s| > 1
    ensures !IsWild(Tokens(s)[0]) && s[0] != TSEP
  {
    TokensCons(s);
    assert Tokens(s)[0] != "";
    assert Tokens(s)[0][0] == s[0];
    if |s| == 1 {
      assert s[1..] == "" && PWC[0] == '*' && FWC[0] == '>';
    } else {
      TokensCons(s[1..]);
      assert PWC[0] == '*' && FWC[0] == '>';
      if s[1] == TSEP {
        assert |Tokens(s)| > 1;
      } else {
        assert |Tokens(s)[0]| > 1;
      }
    }
  }

  predicate Agree(s: string, l: string, inside: bool) {
    if inside then FromInside(s, l) else FromStart(s, l)
  }

  /** What is left is in order. */
  predicate IsLeft(s: string, l: string, inside: bool) {
    if inside then WellFormed(Tokens(s)[1..]) && NoEmptyToken(Tokens(l)[1..])
    else WellFormed(Tokens(s)) && NoEmptyToken(Tokens(l))
  }

  lemma OneCharacter(s: string, l: string, inside: bool)
    requires s != "" && l != "" && IsLeft(s, l, inside)
    requires !inside && s[0] == '*' ==> |s| > 1 && s[1] != TSEP
    requires !inside && s[0] == '>' ==> |s| > 1
    ensures s[0] != l[0] ==> !Agree(s, l, inside)
    ensures s[0] == l[0] ==> Agree(s, l, inside) == Agree(s[1..], l[1..], s[0] != TSEP) && IsLeft(s[1..], l[1..], s[0] != TSEP)
  {
    TokensCons(s);
    TokensCons(l);
    if inside {
      InsideStep(s, l);
    } else {
      NotWild(s);
      PlainStart(s, l);
      RestIsWellFormed(Tokens(s));
    }
  }

  /** A star that is a token: the literal goes on behind its own token, if it does. */
  lemma StarStep(s: string, l: string)
    requires s != "" && s[0] == '*' && (|s| == 1 || s[1] == TSEP) && IsLeft(s, l, false)
    ensures |s| == 1 ==> (Agree(s, l, false) <==> Behind(l) == [])
    ensures |s| > 1 && Behind(l) == [] ==> !Agree(s, l, false)
    ensures |s| > 1 ==> forall rest :: Tokens(rest) == Behind(l) ==>
              Agree(s, l, false) == Agree(s[2..], rest, false) && IsLeft(s[2..], rest, false)
  {
    hide Tokens;
    StarAlone(s);
    StarStart(s, l);
    if |s| > 1 {
      StarRest(s, l);
    }
  }

  /** An arrow at the end matches whatever is left. */
  lemma ArrowStep(s: string, l: string)
    requires s == ">"
    ensures Agree(s, l, false)
  {
    SplitPlain(s, TSEP);
    ArrowStart(s, l);
  }

  /** The literal is at its end and the subject is not. */
  lemma AtEnd(s: string, inside: bool)
    requires s != "" && IsLeft(s, "", inside)
    ensures !Agree(s, "", inside)
  {
    assert Tokens("") == [""];
    InsideStep(s, "");
  }

  /** The subject is at its end. */
  lemma SubjectEnds(l: string, inside: bool)
    requires IsLeft("", l, inside)
    ensures inside && (Agree("", l, inside) <==> l == "")
  {
    assert Tokens("") == [""];
    InsideStep("", l);
  }

  lemma Begins(s: string, l: string)
    requires NoEmptyToken(Tokens(l)) && WellFormed(Tokens(s))
    ensures IsLeft(s, l, false) && Agree(s, l, false) == Matches(Tokens(s), Tokens(l))
  {
  }

  /** One character at a time, with the wildcards that are tokens of their own skipped over: the cached
      subject is matched exactly if its tokens are. */
  method MatchLiteral(literal: string, subject: string) returns (r: bool)
    requires NoEmptyToken(Tokens(literal)) && WellFormed(Tokens(subject))
    ensures r == Matches(Tokens(subject), Tokens(literal))
  {
    hide Matches, Tokens, Agree, IsLeft, Behind;
    var li, i := 0, 0;
    Begins(subject, literal);
    ghost var inside := false;
    assert subject[0..] == subject && literal[0..] == literal;
    while i < |subject|
      invariant 0 <= i <= |subject| && 0 <= li <= |literal|
      invariant inside <==> i > 0 && subject[i - 1] != TSEP
      invariant IsLeft(subject[i..], literal[li..], inside)
      invariant Matches(Tokens(subject), Tokens(literal)) == Agree(subject[i..], literal[li..], inside)
      decreases |subject| - i
    {
      ghost var s, l := subject[i..], literal[li..];
      if li >= |literal| {
        assert l == "";
        AtEnd(s, inside);
        return false;
      }
      if subject[i] == '*' && (i == 0 || subject[i - 1] == TSEP) && (i == |subject| - 1 || subject[i + 1] == TSEP) {
        StarStep(s, l);
        var end := SkipToken(literal, li);
        if i == |subject| - 1 {
          return end == |literal|;
        }
        if end == |literal| {
          return false;
        }
        assert s[2..] == subject[i + 2..];
        li, i := end + 1, i + 2;
      } else if subject[i] == '>' && (i == 0 || subject[i - 1] == TSEP) && i == |subject| - 1 {
        assert s == ">";
        ArrowStep(s, l);
        return true;
      } else {
        OneCharacter(s, l, inside);
        if subject[i] != literal[li] {
          return false;
        }
        assert s[1..] == subject[i + 1..] && l[1..] == literal[li + 1..];
        inside := subject[i] != TSEP;
        li, i := li + 1, i + 1;
      }
    }
    assert subject[i..] == "";
    SubjectEnds(literal[li..], inside);
    return li >= |literal|;
  }

  // ----- whether a subject is literal -----

  /** From the start of a token, or from inside one, on: no token of those to come is a wildcard. */
  predicate NoWildFrom(s: string, start: bool) {
    if start then !HasWild(Tokens(s)) else !HasWild(Tokens(s)[1..])
  }

  lemma NoWildStep(s: string, start: bool)
    requires s != ""
    requires start && (s[0] == '*' || s[0] == '>') ==> |s| > 1 && s[1] != TSEP
    ensures NoWildFrom(s, start) <==> NoWildFrom(s[1..], s[0] == TSEP)
  {
    TokensCons(s);
    if s[0] != TSEP && start {
      var t := Tokens(s)[0];
      assert t[0] == s[0];
      if |s| > 1 && s[1] != TSEP {
        TokensCons(s[1..]);
        assert |t| > 1;
      }
      assert !IsWild(t);
    }
  }

  lemma WildAlone(s: string)
    requires s != "" && (s[0] == '*' || s[0] == '>') && (|s| == 1 || s[1] == TSEP)
    ensures IsWild(Tokens(s)[0]) && HasWild(Tokens(s))
  {
    TokensCons(s);
    if |s| > 1 {
      TokensCons(s[1..]);
    } else {
      assert s[1..] == "";
    }
    assert Tokens(s)[0] == [s[0]];
  }

  /** By the characters: no wildcard stands alone between separators. */
  method IsLiteralSubject(subject: string) returns (literal: bool)
    ensures literal == !HasWild(Tokens(subject))
  {
    hide NoWildFrom;
    assert subject[0..] == subject;
    assert NoWildFrom(subject, true) == !HasWild(Tokens(subject)) by { NoWildMeans(subject); }
    for i := 0 to |subject|
      invariant NoWildFrom(subject, true) == NoWildFrom(subject[i..], i == 0 || subject[i - 1] == TSEP)
    {
      var c := subject[i];
      ghost var s := subject[i..];
      if c == '*' || c == '>' {
        if (i == 0 || subject[i - 1] == TSEP) && (i + 1 == |subject| || subject[i + 1] == TSEP) {
          WildAlone(s);
          NoWildMeans(s);
          return false;
        }
      }
      NoWildStep(s, i == 0 || subject[i - 1] == TSEP);
      assert s[1..] == subject[i + 1..];
    }
    NoWildAtEnd(|subject| == 0 || subject[|subject| - 1] == TSEP);
    assert subject[|subject|..] == "";
    return true;
  }

  lemma NoWildMeans(s: string)
    ensures NoWildFrom(s, true) == !HasWild(Tokens(s))
  {
  }

  lemma NoWildAtEnd(start: bool)
    ensures NoWildFrom("", start)
  {
  }
}
