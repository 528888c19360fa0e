/** What a search scores and why: tokens as maximal runs, matches by where the query token occurs, and
    the ranking that follows. */
module TypeSearchScores {
  import opened Common
  import opened TypeSearch
  import Text

  // ---------------------------------------------------------------- occurrences

  ghost predicate OccursAt(s: string, part: string, i: nat) {
    i + |part| <= |s| && s[i..i + |part|] == part
  }

  ghost predicate Occurs(s: string, part: string) {
    exists i: nat :: OccursAt(s, part, i)
  }

  predicate StartsWith(s: string, part: string) {
    |part| <= |s| && s[..|part|] == part
  }

  lemma {:induction false} ContainsExactly(s: string, part: string)
    ensures Contains(s, part) <==> Occurs(s, part)
  {
    assert part <= s <==> OccursAt(s, part, 0);
    if s != [] && !OccursAt(s, part, 0) {
      ContainsExactly(s[1..], part);
      if Occurs(s[1..], part) {
        var i: nat :| OccursAt(s[1..], part, i);
        OccursLater(s, part, i);
      }
      if Occurs(s, part) {
        var i: nat :| OccursAt(s, part, i);
        OccursLater(s, part, i - 1);
      }
    }
  }

  lemma OccursLater(s: string, part: string, i: nat)
    requires s != []
    ensures OccursAt(s, part, i + 1) <==> OccursAt(s[1..], part, i)
  {
    if i + 1 + |part| <= |s| { assert s[i + 1..i + 1 + |part|] == s[1..][i..i + |part|]; }
  }

  /** An equal token scores 140, a longer one that starts with the query token 90, one that has it only
      further in 45, and one that does not have it nothing. */
  lemma CandidateScoreExactly(candidate: string, token: string)
    ensures CandidateScore(candidate, token) == 140 <==> candidate == token
    ensures CandidateScore(candidate, token) == 90 <==> StartsWith(candidate, token) && candidate != token
    ensures CandidateScore(candidate, token) == 45 <==> Occurs(candidate, token) && !StartsWith(candidate, token)
    ensures CandidateScore(candidate, token) == 0 <==> !Occurs(candidate, token)
  {
    ContainsExactly(candidate, token);
    if StartsWith(candidate, token) { assert OccursAt(candidate, token, 0); }
  }

  // ---------------------------------------------------------------- the first match

  /** The first candidate that has the token. */
  ghost predicate FirstMatch(token: string, candidates: seq<string>, k: nat) {
    && k < |candidates| && Occurs(candidates[k], token)
    && forall l :: 0 <= l < k ==> !Occurs(candidates[l], token)
  }

  /** The first match alone decides a token's score. */
  lemma {:induction false} FirstMatchDecides(token: string, candidates: seq<string>, k: nat)
    requires FirstMatch(token, candidates, k)
    ensures TokenScore(token, candidates) ==
      if candidates[k] == token then 140 else if StartsWith(candidates[k], token) then 90 else 45
  {
    hide CandidateScore, Occurs;
    CandidateScoreExactly(candidates[0], token);
    if k > 0 {
      forall l | 0 <= l < k - 1 ensures !Occurs(candidates[1..][l], token) {
        assert candidates[1..][l] == candidates[l + 1];
      }
      FirstMatchDecides(token, candidates[1..], k - 1);
    }
  }

  lemma {:induction false} NoMatchScoresNothing(token: string, candidates: seq<string>)
    ensures TokenScore(token, candidates) == 0 <==> forall l :: 0 <= l < |candidates| ==> !Occurs(candidates[l], token)
  {
    hide CandidateScore, Occurs;
    if candidates != [] {
      CandidateScoreExactly(candidates[0], token);
      NoMatchScoresNothing(token, candidates[1..]);
      assert candidates == [candidates[0]] + candidates[1..];
    }
  }

  lemma {:induction false} FirstMatchIn(token: string, candidates: seq<string>) returns (k: nat)
    requires TokenScore(token, candidates) != 0
    ensures FirstMatch(token, candidates, k)
  {
    hide CandidateScore, Occurs;
    CandidateScoreExactly(candidates[0], token);
    if Occurs(candidates[0], token) {
      k := 0;
    } else {
      var l := FirstMatchIn(token, candidates[1..]);
      k := l + 1;
      forall m | 0 <= m < k ensures !Occurs(candidates[m], token) {
        assert m > 0 ==> candidates[m] == candidates[1..][m - 1];
      }
    }
  }

  // ---------------------------------------------------------------- names cut at an underscore

  /** Cutting at the first underscore: nothing when there is none, otherwise what follows it. */
  lemma {:induction false} CutsAtFirst(s: string) returns (before: string)
    ensures AfterUnderscore(s).None? <==> '_' !in s
    ensures AfterUnderscore(s).Some? ==> '_' !in before && s == before + "_" + AfterUnderscore(s).value
  {
    before := "";
    if s == [] {
    } else if s[0] == '_' {
      assert s == [s[0]] + s[1..];
    } else {
      before := CutsAtFirst(s[1..]);
      before := [s[0]] + before;
      assert s == [s[0]] + s[1..];
    }
  }

  // ---------------------------------------------------------------- tokens are the maximal runs

  predicate IsRun(s: string) {
    s != [] && forall k :: 0 <= k < |s| ==> IsTokenChar(s[k])
  }

  predicate IsGap(s: string) {
    forall k :: 0 <= k < |s| ==> !IsTokenChar(s[k])
  }

  /** gap, run, gap, run, ..., gap. */
  function Weave(gaps: seq<string>, runs: seq<string>): string
    requires |gaps| == |runs| + 1
  {
    if runs == [] then gaps[0] else gaps[0] + runs[0] + Weave(gaps[1..], runs[1..])
  }

  /** s is these runs of token characters, with gaps of other characters around them, none between two
      runs being empty. */
  ghost predicate IsWoven(s: string, gaps: seq<string>, runs: seq<string>) {
    && |gaps| == |runs| + 1 && s == Weave(gaps, runs)
    && (forall k :: 0 <= k < |runs| ==> IsRun(runs[k]))
    && (forall k :: 0 <= k < |gaps| ==> IsGap(gaps[k]))
    && (forall k :: 0 < k < |gaps| - 1 ==> gaps[k] != [])
  }

  lemma {:induction false} SplitGap(gap: string, rest: string, run: string)
    requires IsGap(gap)
    ensures SplitTokens(gap + rest, run) == if gap == [] then SplitTokens(rest, run) else
      (if run == [] then [] else [run]) + SplitTokens(rest, [])
    decreases |gap|
  {
    if gap == [] {
      assert gap + rest == rest;
    } else {
      assert (gap + rest)[1..] == gap[1..] + rest;
      SplitGap(gap[1..], rest, []);
    }
  }

  lemma {:induction false} SplitWoven(s: string, gaps: seq<string>, runs: seq<string>, run: string)
    requires IsWoven(s, gaps, runs)
    requires run == [] || IsRun(run)
    requires run != [] && runs != [] ==> gaps[0] != []
    ensures SplitTokens(s, run) == (if run == [] then [] else [run]) + runs
    decreases |runs|
  {
    if runs == [] {
      assert s == gaps[0] + [];
      SplitGap(gaps[0], [], run);
    } else {
      var rest := Weave(gaps[1..], runs[1..]);
      assert s == gaps[0] + (runs[0] + rest);
      SplitGap(gaps[0], runs[0] + rest, run);
      SplitRun(runs[0], rest, []);
      assert [] + runs[0] == runs[0];
      SplitWoven(rest, gaps[1..], runs[1..], runs[0]);
      assert runs == [runs[0]] + runs[1..];
    }
  }

  /** Gaps and runs, the run read so far being the start of s. */
  lemma {:induction false} Unweave(s: string, run: string) returns (gaps: seq<string>)
    requires run == [] || IsRun(run)
    ensures IsWoven(run + s, gaps, SplitTokens(s, run))
    ensures run != [] ==> gaps[0] == []
    decreases |s|
  {
    if s == [] {
      if run == [] {
        gaps := [[]];
        NoRuns();
      } else {
        gaps := [[], []];
        OneRun(run);
      }
      assert run + s == run;
    } else if IsTokenChar(s[0]) {
      gaps := Unweave(s[1..], run + [s[0]]);
      assert run + s == (run + [s[0]]) + s[1..];
    } else {
      var tail := SplitTokens(s[1..], []);
      var rest := Unweave(s[1..], []);
      assert [] + s[1..] == s[1..] && s == [s[0]] + s[1..];
      WidenFirst(s[1..], rest, tail, s[0]);
      gaps := [[s[0]] + rest[0]] + rest[1..];
      if run == [] {
        assert run + s == s;
      } else {
        PrependRun(s, gaps, tail, run);
        gaps := [[]] + gaps;
      }
    }
  }

  lemma NoRuns()
    ensures IsWoven([], [[]], [])
  {}

  lemma OneRun(run: string)
    requires IsRun(run)
    ensures IsWoven(run, [[], []], [run])
  {
    var gaps: seq<string>, runs := [[], []], [run];
    assert gaps[1..] == [[]] && runs[1..] == [];
    assert run == [] + run + [];
  }

  lemma PrependRun(s: string, gaps: seq<string>, runs: seq<string>, run: string)
    requires IsWoven(s, gaps, runs) && IsRun(run) && gaps[0] != []
    ensures IsWoven(run + s, [[]] + gaps, [run] + runs)
  {
    assert ([[]] + gaps)[1..] == gaps && ([run] + runs)[1..] == runs;
    assert run + s == [] + run + s;
  }

  lemma WidenFirst(s: string, gaps: seq<string>, runs: seq<string>, c: char)
    requires IsWoven(s, gaps, runs) && !IsTokenChar(c)
    ensures IsWoven([c] + s, [[c] + gaps[0]] + gaps[1..], runs)
  {
    var widened := [[c] + gaps[0]] + gaps[1..];
    assert widened[1..] == gaps[1..];
    if runs == [] {
      assert [c] + s == widened[0];
    } else {
      assert [c] + s == widened[0] + runs[0] + Weave(gaps[1..], runs[1..]);
    }
  }

  /** The tokens of a text are exactly the maximal runs of letters and digits of its lower-case form. */
  lemma TokensExactly(s: string, runs: seq<string>)
    ensures Tokens(s) == runs <==> exists gaps :: IsWoven(Text.Lower(s), gaps, runs)
  {
    hide IsWoven, SplitTokens;
    var lower := Text.Lower(s);
    if Tokens(s) == runs {
      var gaps := Unweave(lower, []);
      assert [] + lower == lower;
    }
    if gaps :| IsWoven(lower, gaps, runs) {
      SplitWoven(lower, gaps, runs, []);
      assert [] + runs == runs;
    }
  }

  // ---------------------------------------------------------------- the score of a type

  lemma {:induction false} SplitAppend(s: string, c: char, t: string, run: string)
    requires !IsTokenChar(c)
    ensures SplitTokens(s + [c] + t, run) == SplitTokens(s, run) + SplitTokens(t, [])
    decreases |s|
  {
    if s == [] {
      assert s + [c] + t == [c] + t;
      assert ([c] + t)[1..] == t;
    } else {
      assert (s + [c] + t)[1..] == s[1..] + [c] + t;
      SplitAppend(s[1..], c, t, run + [s[0]]);
      SplitAppend(s[1..], c, t, []);
    }
  }

  /** The searched text starts with the name's own tokens. */
  lemma HaystackTokens(name: string, text: string)
    ensures Tokens(Text.TrimSpace(name + " " + text)) == Tokens(name) + Tokens(text)
  {
    var s := name + " " + text;
    var lower := Text.Lower(s);
    TrimKeepsLower(s);
    TrimKeepsLower(Text.TrimLeft(s));
    SplitIgnoresEdges(Text.TrimLeft(lower), []);
    SplitIgnoresFirst(lower);
    assert lower == Text.Lower(name) + [' '] + Text.Lower(text);
    SplitAppend(Text.Lower(name), ' ', Text.Lower(text), []);
  }

  lemma {:induction false} TokenScoreAppend(token: string, candidates: seq<string>, more: seq<string>)
    requires TokenScore(token, candidates) != 0
    ensures TokenScore(token, candidates + more) == TokenScore(token, candidates)
  {
    hide CandidateScore;
    assert (candidates + more)[1..] == candidates[1..] + more;
    if CandidateScore(candidates[0], token) == 0 { TokenScoreAppend(token, candidates[1..], more); }
  }

  /** Joining puts one underscore between each two tokens. */
  lemma {:induction false} JoinAppends(tokens: seq<string>, t: string)
    ensures JoinUnderscore(tokens + [t]) == if tokens == [] then t else JoinUnderscore(tokens) + "_" + t
  {
    if tokens == [] {
      assert tokens + [t] == [t];
    } else {
      assert (tokens + [t])[1..] == tokens[1..] + [t];
      JoinAppends(tokens[1..], t);
      if |tokens| > 1 {
        assert tokens[0] + "_" + (JoinUnderscore(tokens[1..]) + "_" + t) == tokens[0] + "_" + JoinUnderscore(tokens[1..]) + "_" + t;
      }
    }
  }

  ghost predicate HasEach(tokens: seq<string>, query: seq<string>) {
    forall i :: 0 <= i < |query| ==> HasToken(tokens, query[i])
  }

  ghost predicate HasToken(tokens: seq<string>, token: string) {
    exists k :: 0 <= k < |tokens| && Occurs(tokens[k], token)
  }

  lemma MatchExactly(query: seq<string>, tokens: seq<string>)
    ensures AllTokensMatch(query, tokens) <==> HasEach(tokens, query)
  {
    hide Occurs, TokenScore;
    forall i | 0 <= i < |query| ensures TokenScore(query[i], tokens) != 0 <==> HasToken(tokens, query[i]) {
      NoMatchScoresNothing(query[i], tokens);
    }
  }

  /** The name is the query tokens joined. */
  predicate IsWholeName(name: string, query: seq<string>) {
    Text.Lower(name) == JoinUnderscore(query)
  }

  /** After a first part without an underscore. */
  ghost predicate IsAfterPrefix(name: string, query: seq<string>) {
    exists prefix: string :: IsPrefixed(name, prefix, query)
  }

  predicate IsPrefixed(name: string, prefix: string, query: seq<string>) {
    '_' !in prefix && Text.Lower(name) == prefix + "_" + JoinUnderscore(query)
  }

  ghost predicate IsLastTokens(name: string, query: seq<string>) {
    exists front: seq<string> :: Tokens(name) == front + query
  }

  lemma PrefixedExactly(name: string, query: seq<string>)
    ensures AfterUnderscore(Text.Lower(name)) == Some(JoinUnderscore(query)) <==> IsAfterPrefix(name, query)
  {
    hide AfterUnderscore, JoinUnderscore, Text.Lower;
    var prefix := CutsAtFirst(Text.Lower(name));
    if AfterUnderscore(Text.Lower(name)) == Some(JoinUnderscore(query)) {
      assert IsPrefixed(name, prefix, query);
    }
    if IsAfterPrefix(name, query) {
      var p: string :| IsPrefixed(name, p, query);
      forall k | 0 <= k < |p| ensures p[k] != '_' { assert p[k] in p; }
      AfterFirstPart(p, JoinUnderscore(query));
    }
  }

  lemma LastTokensExactly(name: string, query: seq<string>)
    requires query != []
    ensures HasTokenSuffix(Tokens(name), query) <==> IsLastTokens(name, query)
  {
    hide Tokens;
    var tokens := Tokens(name);
    if HasTokenSuffix(tokens, query) {
      assert tokens == tokens[..|tokens| - |query|] + query;
    }
    if IsLastTokens(name, query) {
      var front: seq<string> :| tokens == front + query;
      assert tokens[|front|..] == query;
    }
  }

  lemma ItselfOccurs(tokens: seq<string>, more: seq<string>, query: seq<string>)
    requires forall i :: 0 <= i < |query| ==> query[i] in tokens
    ensures HasEach(tokens, query) && HasEach(tokens + more, query)
  {
    forall i | 0 <= i < |query| ensures HasToken(tokens, query[i]) && HasToken(tokens + more, query[i]) {
      var k :| 0 <= k < |tokens| && tokens[k] == query[i];
      assert OccursAt(tokens[k], query[i], 0);
      assert (tokens + more)[k] == tokens[k];
    }
  }

  lemma EachInMore(tokens: seq<string>, more: seq<string>, query: seq<string>)
    requires HasEach(tokens, query)
    ensures HasEach(tokens + more, query)
  {
    hide Occurs;
    forall i | 0 <= i < |query| ensures HasToken(tokens + more, query[i]) {
      assert HasToken(tokens, query[i]);
      var k :| 0 <= k < |tokens| && Occurs(tokens[k], query[i]);
      assert (tokens + more)[k] == tokens[k];
    }
  }

  /** The tokens of a name that is the query tokens, or ends in them, are or end in them too. */
  lemma NameTokensEnd(name: string, query: seq<string>)
    requires AreTokens(query) && query != []
    ensures IsWholeName(name, query) || IsAfterPrefix(name, query) ==> IsLastTokens(name, query)
  {
    hide Tokens, JoinUnderscore, Text.Lower, SplitTokens;
    TokensOfJoined(query);
    TokensOfLower(name);
    if IsWholeName(name, query) {
      assert Tokens(name) == [] + query;
    } else if IsAfterPrefix(name, query) {
      var prefix: string :| IsPrefixed(name, prefix, query);
      PrefixTokens(prefix, JoinUnderscore(query));
    }
  }

  lemma PrefixTokens(prefix: string, rest: string)
    ensures Tokens(prefix + "_" + rest) == Tokens(prefix) + Tokens(rest)
  {
    assert Text.Lower(prefix + "_" + rest) == Text.Lower(prefix) + ['_'] + Text.Lower(rest);
    SplitAppend(Text.Lower(prefix), '_', Text.Lower(rest), []);
  }

  lemma TokensAreTokens(s: string)
    ensures AreTokens(Tokens(s))
  {
    hide SplitTokens;
    var gaps := Unweave(Text.Lower(s), []);
    assert [] + Text.Lower(s) == Text.Lower(s);
  }

  /** Whatever the query has to find of a name that it is, or ends in, is there. */
  lemma EndsMatch(name: string, text: string, query: seq<string>)
    requires AreTokens(query) && query != []
    requires IsWholeName(name, query) || IsAfterPrefix(name, query) || IsLastTokens(name, query)
    ensures HasEach(Tokens(name) + Tokens(text), query)
  {
    hide Tokens, IsWholeName, IsAfterPrefix, HasEach;
    NameTokensEnd(name, query);
    var front: seq<string> :| Tokens(name) == front + query;
    forall i | 0 <= i < |query| ensures query[i] in Tokens(name) { assert Tokens(name)[|front| + i] == query[i]; }
    ItselfOccurs(Tokens(name), Tokens(text), query);
  }

  /** The score of any type for any query, by where the query tokens are: they are the name, are what
      follows its provider prefix, or are its last tokens; or each occurs in some token of the name; or in
      some token of the name or the search text; or not. A blank query finds everything alike, and one
      without letters or digits nothing. */
  lemma ScoreExactly(name: string, text: string, query: string)
    ensures
      var q := Tokens(query);
      ScoreSearch(name, text, query) ==
        if Text.TrimSpace(Text.Lower(query)) == [] then 1
        else if q == [] then 0
        else if IsWholeName(name, q) then 5000
        else if IsAfterPrefix(name, q) then 4500
        else if IsLastTokens(name, q) then 4000
        else if HasEach(Tokens(name), q) then 3000 + SumScores(q, Tokens(name))
        else if HasEach(Tokens(name) + Tokens(text), q) then 1000 + SumScores(q, Tokens(name) + Tokens(text))
        else 0
  {
    hide Tokens, TokenScore, Text.TrimSpace, Text.Lower, JoinUnderscore, AfterUnderscore, SumScores, AllTokensMatch,
      HasTokenSuffix, HasEach, IsAfterPrefix, IsLastTokens, IsWholeName;
    var q := Tokens(query);
    TokensOfTrimmed(query);
    TokensOfLower(name);
    TokensOfLower(Text.TrimSpace(name + " " + text));
    HaystackTokens(name, text);
    TokensAreTokens(query);
    MatchExactly(q, Tokens(name));
    MatchExactly(q, Tokens(name) + Tokens(text));
    PrefixedExactly(name, q);
    WholeExactly(name, q);
    if q != [] {
      LastTokensExactly(name, q);
      if IsWholeName(name, q) || IsAfterPrefix(name, q) || IsLastTokens(name, q) { EndsMatch(name, text, q); }
      if HasEach(Tokens(name), q) { EachInMore(Tokens(name), Tokens(text), q); }
    }
  }

  lemma WholeExactly(name: string, query: seq<string>)
    ensures IsWholeName(name, query) <==> Text.Lower(name) == JoinUnderscore(query)
  {}

  // ---------------------------------------------------------------- ranking by the first match
  /** The one query token is in the name, but is neither the whole of it, nor all after its provider
      prefix, nor its last token. */
  ghost predicate IsInside(name: string, token: string) {
    var tokens := Tokens(Text.Lower(name));
    && tokens != [] && TokenScore(token, tokens) != 0
    && Text.Lower(name) != token && AfterUnderscore(Text.Lower(name)) != Some(token)
    && tokens[|tokens| - 1] != token
  }

  /** Such a name scores by its first matching token alone, whatever its search text. */
  lemma InsideScore(name: string, text: string, query: string, token: string)
    requires Tokens(query) == [token] && IsInside(name, token)
    ensures TierOf(name, text, query) == InName
    ensures ScoreSearch(name, text, query) == 3000 + TokenScore(token, Tokens(Text.Lower(name)))
  {
    hide Tokens, TokenScore, Text.TrimSpace, AfterUnderscore, Text.Lower;
    TokensOfTrimmed(query);
    EmptyHasNoTokens();
    var haystack := Text.TrimSpace(name + " " + text);
    TokensOfLower(haystack);
    TokensOfLower(name);
    HaystackTokens(name, text);
    var tokens := Tokens(Text.Lower(name));
    TokenScoreAppend(token, tokens, Tokens(text));
    OneTokenScore(token, tokens);
    assert AllTokensMatch([token], tokens) && AllTokensMatch([token], Tokens(haystack));
    assert JoinUnderscore([token]) == token;
    assert HasTokenSuffix(tokens, [token]) <==> tokens[|tokens| - 1] == token by {
      assert tokens[|tokens| - 1..] == [tokens[|tokens| - 1]];
    }
  }

  lemma {:induction false} BestIsInside(entries: seq<Entry>, name: string, query: string, token: string)
    requires Tokens(query) == [token] && IsInside(name, token)
    ensures BestScore(entries, name, query) in {0, 3000 + TokenScore(token, Tokens(Text.Lower(name)))}
  {
    hide Tokens, TokenScore, IsInside, ScoreSearch;
    if entries == [] {
    } else {
      var last := entries[|entries| - 1];
      BestIsInside(entries[..|entries| - 1], name, query, token);
      if last.typeName == name { InsideScore(name, last.searchText, query, token); }
    }
  }

  /** Of two types a one-token query finds inside their names, the one whose first matching token starts
      with the query token ranks above the one whose first matching token has it only further in. */
  lemma PrefixRanksAbove(list: seq<Candidate>, resources: seq<Entry>, dataSources: seq<Entry>, kind: string, query: string,
                         token: string, i: nat, j: nat, k: nat, l: nat)
    requires Tokens(query) == [token]
    requires IsRanking(list, FoundBy(resources, dataSources, kind, query)) && i < |list| && j < |list|
    requires IsInside(list[i].typeName, token) && IsInside(list[j].typeName, token)
    requires
      var a, b := Tokens(Text.Lower(list[i].typeName)), Tokens(Text.Lower(list[j].typeName));
      FirstMatch(token, a, k) && StartsWith(a[k], token) && FirstMatch(token, b, l) && !StartsWith(b[l], token)
    ensures list[i].score > list[j].score && i < j
  {
    var found := FoundBy(resources, dataSources, kind, query);
    assert list[i] in list && list[j] in list;
    FoundInside(resources, dataSources, kind, query, token, list[i].typeName);
    FoundInside(resources, dataSources, kind, query, token, list[j].typeName);
    hide Tokens, TokenScore, IsInside, FoundBy;
    FirstMatchDecides(token, Tokens(Text.Lower(list[i].typeName)), k);
    FirstMatchDecides(token, Tokens(Text.Lower(list[j].typeName)), l);
  }

  lemma FoundInside(resources: seq<Entry>, dataSources: seq<Entry>, kind: string, query: string, token: string, name: string)
    requires Tokens(query) == [token] && IsInside(name, token)
    requires name in FoundBy(resources, dataSources, kind, query)
    ensures FoundBy(resources, dataSources, kind, query)[name].score ==
      3000 + TokenScore(token, Tokens(Text.Lower(name)))
  {
    hide Tokens, TokenScore, IsInside, FoundBy, BestScore;
    FoundExactly(resources, dataSources, kind, query, name);
    BestIsInside(resources, name, query, token);
    BestIsInside(dataSources, name, query, token);
  }
}
