/** NATS subject matching: "*" is exactly one token, ">" is one or more trailing tokens and is
    meaningful only as the final token. */
module Matching {
  import opened Text

  /** The matching rule, token by token. */
  predicate TokensMatch(filter: seq<string>, subject: seq<string>) {
    if filter == [] then subject == []
    else if filter[0] == ">" then |filter| == 1 && |subject| >= 1
    else subject != [] && (filter[0] == "*" || filter[0] == subject[0]) && TokensMatch(filter[1..], subject[1..])
  }

  predicate Matches(filter: string, subject: string) {
    TokensMatch(Split(filter, '.'), Split(subject, '.'))
  }

  /** The early-exit loop decides the rule, for every filter and subject. */
  method MatchesSubject(filter: string, subject: string) returns (matched: bool)
    ensures matched == Matches(filter, subject)
  {
    var filterTokens := Split(filter, '.');
    var subjectTokens := Split(subject, '.');
    for index := 0 to |filterTokens|
      invariant index <= |subjectTokens|
      invariant TokensMatch(filterTokens, subjectTokens) == TokensMatch(filterTokens[index..], subjectTokens[index..])
    {
      var tok := filterTokens[index];
      if tok == ">" {
        return index == |filterTokens| - 1 && |subjectTokens| > index;
      }
      if index >= |subjectTokens| {
        return false;
      }
      if tok != "*" && tok != subjectTokens[index] {
        return false;
      }
      assert filterTokens[index..][1..] == filterTokens[index + 1..];
      assert subjectTokens[index..][1..] == subjectTokens[index + 1..];
    }
    return |filterTokens| == |subjectTokens|;
  }

  /** Position by position, `filter` names the tokens `subject` starts with. */
  predicate Agrees(filter: seq<string>, subject: seq<string>) {
    |filter| <= |subject| && forall i :: 0 <= i < |filter| ==> filter[i] == "*" || filter[i] == subject[i]
  }

  /** The rule without recursion: a filter matches exactly the subjects it agrees with throughout, or,
      when its only ">" is final, the longer subjects it agrees with up to there. A filter with an
      earlier ">" matches nothing. */
  lemma {:induction false} MatchIsAgreement(filter: seq<string>, subject: seq<string>)
    ensures TokensMatch(filter, subject) <==>
            if ">" in filter
            then |subject| >= |filter| && ">" !in filter[..|filter| - 1] && Agrees(filter[..|filter| - 1], subject)
            else |subject| == |filter| && Agrees(filter, subject)
  {
    if filter == [] || (filter[0] != ">" && subject == []) {
    } else if filter[0] == ">" {
      assert |filter| > 1 ==> filter[..|filter| - 1][0] == ">";
    } else {
      var f, s := filter[1..], subject[1..];
      MatchIsAgreement(f, s);
      assert filter == [filter[0]] + f && subject == [subject[0]] + s;
      assert ">" in filter <==> ">" in f;
      AgreesStep(filter, subject);
      if ">" in f {
        assert filter[..|filter| - 1] == [filter[0]] + f[..|f| - 1];
        assert filter[..|filter| - 1][1..] == f[..|f| - 1];
        AgreesStep(filter[..|filter| - 1], subject);
      }
    }
  }

  lemma AgreesStep(filter: seq<string>, subject: seq<string>)
    requires filter != [] && subject != []
    ensures Agrees(filter, subject) <==>
            (filter[0] == "*" || filter[0] == subject[0]) && Agrees(filter[1..], subject[1..])
  {
    if (filter[0] == "*" || filter[0] == subject[0]) && Agrees(filter[1..], subject[1..]) {
      forall i | 0 <= i < |filter| ensures filter[i] == "*" || filter[i] == subject[i] {
        if i > 0 {
          assert filter[1..][i - 1] == filter[i] && subject[1..][i - 1] == subject[i];
        }
      }
    }
  }

  /** Wildcard-free leading tokens of a filter must be the subject's leading tokens. */
  lemma {:induction false} MatchAfterLiterals(literals: seq<string>, filter: seq<string>, subject: seq<string>)
    requires "*" !in literals && ">" !in literals
    ensures TokensMatch(literals + filter, subject) <==>
            literals <= subject && TokensMatch(filter, subject[|literals|..])
  {
    if literals == [] {
      assert literals + filter == filter;
    } else if subject != [] && literals[0] == subject[0] {
      MatchAfterLiterals(literals[1..], filter, subject[1..]);
      assert (literals + filter)[1..] == literals[1..] + filter;
      assert literals <= subject <==> literals[1..] <= subject[1..];
      if literals <= subject {
        assert subject[1..][|literals| - 1..] == subject[|literals|..];
      }
    } else {
      assert (literals + filter)[0] == literals[0];
    }
  }

  /** A leading "*" takes one token, whatever it is. */
  lemma MatchStar(filter: seq<string>, subject: seq<string>)
    ensures TokensMatch(["*"] + filter, subject) <==> subject != [] && TokensMatch(filter, subject[1..])
  {
    assert (["*"] + filter)[1..] == filter;
  }

  /** A filter without wildcards matches only itself. */
  lemma MatchLiterals(literals: seq<string>, subject: seq<string>)
    requires "*" !in literals && ">" !in literals
    ensures TokensMatch(literals, subject) <==> literals == subject
  {
    MatchAfterLiterals(literals, [], subject);
    assert literals + [] == literals;
  }
}
