/** bridge/schema/service.go: scoring, deduplicating, ranking and paging resource types. */
module TypeSearch {
  import opened Common
  import Text

  // ---------------------------------------------------------------- scoring

  predicate IsTokenChar(c: char) {
    'a' <= c <= 'z' || '0' <= c <= '9'
  }

  /** The maximal runs of token characters, given the run read so far. */
  function SplitTokens(s: string, run: string): (tokens: seq<string>) {
    if s == [] then if run == [] then [] else [run]
    else if IsTokenChar(s[0]) then SplitTokens(s[1..], run + [s[0]])
    else if run == [] then SplitTokens(s[1..], [])
    else [run] + SplitTokens(s[1..], [])
  }

  function Tokens(s: string): (tokens: seq<string>) {
    SplitTokens(Text.Lower(s), [])
  }

  function Contains(s: string, part: string): (b: bool)
    ensures b ==> |part| <= |s|
  {
    part <= s || (s != [] && Contains(s[1..], part))
  }

  /** One candidate against one query token: equal, prefixed, containing, or no match. */
  function CandidateScore(candidate: string, token: string): (score: nat)
    ensures score == 0 || 45 <= score <= 140
  {
    if candidate == token then 140 else if token <= candidate then 90 else if Contains(candidate, token) then 45 else 0
  }

  /** The first matching candidate decides. */
  function TokenScore(token: string, candidates: seq<string>): (score: nat)
    ensures score == 0 || 45 <= score <= 140
  {
    if candidates == [] then 0
    else
      var score := CandidateScore(candidates[0], token);
      if score > 0 then score else TokenScore(token, candidates[1..])
  }

  predicate AllTokensMatch(query: seq<string>, candidates: seq<string>) {
    forall i :: 0 <= i < |query| ==> TokenScore(query[i], candidates) != 0
  }

  function SumScores(query: seq<string>, candidates: seq<string>): (score: nat) {
    if query == [] then 0
    else SumScores(query[..|query| - 1], candidates) + TokenScore(query[|query| - 1], candidates)
  }

  /** The sum over the query tokens, or zero when one does not match. */
  function TokenMatchScore(query: seq<string>, candidates: seq<string>): (score: nat) {
    if AllTokensMatch(query, candidates) then SumScores(query, candidates) else 0
  }

  predicate HasTokenSuffix(tokens: seq<string>, suffix: seq<string>) {
    suffix != [] && |suffix| <= |tokens| && tokens[|tokens| - |suffix|..] == suffix
  }

  function JoinUnderscore(tokens: seq<string>): string {
    if tokens == [] then [] else if |tokens| == 1 then tokens[0] else tokens[0] + "_" + JoinUnderscore(tokens[1..])
  }

  /** What follows the first underscore. */
  function AfterUnderscore(s: string): Option<string> {
    if s == [] then None else if s[0] == '_' then Some(s[1..]) else AfterUnderscore(s[1..])
  }

  /** How well a type answers a query, best first: by name, by name after the provider prefix, by
      trailing name tokens, by any name tokens, by its search text, or not at all. */
  datatype Tier = NoMatch | InText | InName | NameSuffix | AfterPrefix | WholeName

  function TierOf(typeName: string, searchText: string, query: string): Tier
  {
    var queryTokens := Tokens(query);
    var raw := Text.Lower(typeName);
    var haystack := Tokens(Text.TrimSpace(typeName + " " + searchText));
    if queryTokens == [] || !AllTokensMatch(queryTokens, haystack) then NoMatch
    else if raw == JoinUnderscore(queryTokens) then WholeName
    else if AfterUnderscore(raw) == Some(JoinUnderscore(queryTokens)) then AfterPrefix
    else if HasTokenSuffix(Tokens(raw), queryTokens) then NameSuffix
    else if AllTokensMatch(queryTokens, Tokens(raw)) then InName
    else InText
  }

  function TierLevel(tier: Tier): nat {
    match tier
    case NoMatch => 0
    case InText => 1
    case InName => 2
    case NameSuffix => 3
    case AfterPrefix => 4
    case WholeName => 5
  }

  function ScoreSearch(typeName: string, searchText: string, query: string): (score: nat) {
    var q := Text.TrimSpace(Text.Lower(query));
    if q == [] then 1
    else
      var queryTokens := Tokens(q);
      if queryTokens == [] then 0
      else
        var raw := Text.Lower(typeName);
        var haystackTokens := Tokens(Text.Lower(Text.TrimSpace(typeName + " " + searchText)));
        if !AllTokensMatch(queryTokens, haystackTokens) then 0
        else
          var normalized := JoinUnderscore(queryTokens);
          if raw == normalized then 5000
          else if AfterUnderscore(raw) == Some(normalized) then 4500
          else
            var typeTokens := Tokens(raw);
            if HasTokenSuffix(typeTokens, queryTokens) then 4000
            else if AllTokensMatch(queryTokens, typeTokens) then 3000 + TokenMatchScore(queryTokens, typeTokens)
            else 1000 + TokenMatchScore(queryTokens, haystackTokens)
  }

  // ---------------------------------------------------------------- scoring, as loops

  lemma TokenScoreFrom(token: string, candidates: seq<string>, k: nat)
    requires k < |candidates|
    ensures TokenScore(token, candidates[k..]) ==
      if CandidateScore(candidates[k], token) > 0 then CandidateScore(candidates[k], token)
      else TokenScore(token, candidates[k + 1..])
  {
    assert candidates[k..][1..] == candidates[k + 1..];
  }

  /** Adds up the first match of every query token; one unmatched token makes the score zero. */
  method SumTokenMatches(query: seq<string>, candidates: seq<string>) returns (score: nat)
    ensures score == TokenMatchScore(query, candidates)
  {
    score := 0;
    for i := 0 to |query|
      invariant forall k :: 0 <= k < i ==> TokenScore(query[k], candidates) != 0
      invariant score == SumScores(query[..i], candidates)
    {
      assert query[..i + 1][..i] == query[..i];
      var token := query[i];
      var matched := false;
      var j := 0;
      while j < |candidates| && !matched
        invariant 0 <= j <= |candidates|
        invariant !matched ==> TokenScore(token, candidates) == TokenScore(token, candidates[j..])
        invariant !matched ==> score == SumScores(query[..i], candidates)
        invariant matched ==> TokenScore(token, candidates) > 0 && score == SumScores(query[..i + 1], candidates)
      {
        TokenScoreFrom(token, candidates, j);
        var found := CandidateScore(candidates[j], token);
        if found > 0 {
          score := score + found;
          matched := true;
        }
        j := j + 1;
      }
      if !matched {
        return 0;
      }
    }
    assert query[..|query|] == query;
  }

  lemma OneTokenScore(token: string, candidates: seq<string>)
    ensures TokenMatchScore([token], candidates) == TokenScore(token, candidates)
  {
    var one := [token];
    assert one[..0] == [];
    assert SumScores(one, candidates) == SumScores([], candidates) + TokenScore(token, candidates);
    assert AllTokensMatch(one, candidates) <==> TokenScore(one[0], candidates) != 0;
  }

  method CheckAllTokensMatch(query: seq<string>, candidates: seq<string>) returns (all: bool)
    ensures all == AllTokensMatch(query, candidates)
  {
    for i := 0 to |query|
      invariant forall k :: 0 <= k < i ==> TokenScore(query[k], candidates) != 0
    {
      var score := SumTokenMatches([query[i]], candidates);
      OneTokenScore(query[i], candidates);
      if score == 0 {
        return false;
      }
    }
    all := true;
  }

  method CheckTokenSuffix(tokens: seq<string>, suffix: seq<string>) returns (b: bool)
    ensures b == HasTokenSuffix(tokens, suffix)
  {
    if |suffix| == 0 || |suffix| > |tokens| {
      return false;
    }
    var from := |tokens| - |suffix|;
    for i := 0 to |suffix|
      invariant forall k :: 0 <= k < i ==> tokens[from..][k] == suffix[k]
    {
      if tokens[from + i] != suffix[i] {
        assert tokens[from..][i] != suffix[i];
        return false;
      }
    }
    b := true;
  }

  // ---------------------------------------------------------------- tiers never overlap

  lemma {:induction false} SumScoresRange(query: seq<string>, candidates: seq<string>)
    requires AllTokensMatch(query, candidates)
    ensures 45 * |query| <= SumScores(query, candidates) <= 140 * |query|
  {
    if query == [] {
    } else {
      var last := |query| - 1;
      assert forall i :: 0 <= i < last ==> query[..last][i] == query[i];
      SumScoresRange(query[..last], candidates);
    }
  }

  lemma {:induction false} SplitIgnoresEdges(s: string, run: string)
    ensures SplitTokens(Text.TrimRight(s), run) == SplitTokens(s, run)
    decreases |s|
  {
    if s != [] && Text.IsSpace(s[|s| - 1]) {
      SplitIgnoresEdges(s[..|s| - 1], run);
      SplitIgnoresLastSpace(s[..|s| - 1], s[|s| - 1], run);
      assert s == s[..|s| - 1] + [s[|s| - 1]];
    }
  }

  lemma {:induction false} SplitIgnoresLastSpace(s: string, c: char, run: string)
    requires !IsTokenChar(c)
    ensures SplitTokens(s + [c], run) == SplitTokens(s, run)
    decreases |s|
  {
    if s == [] {
      assert (s + [c])[1..] == [];
    } else {
      assert (s + [c])[1..] == s[1..] + [c];
      SplitIgnoresLastSpace(s[1..], c, run + [s[0]]);
      SplitIgnoresLastSpace(s[1..], c, []);
    }
  }

  lemma {:induction false} SplitIgnoresFirst(s: string)
    ensures SplitTokens(Text.TrimLeft(s), []) == SplitTokens(s, [])
  {
    if s != [] && Text.IsSpace(s[0]) { SplitIgnoresFirst(s[1..]); }
  }

  lemma LowerTwice(s: string)
    ensures Text.Lower(Text.Lower(s)) == Text.Lower(s)
  {
  }

  lemma {:induction false} TrimLeftKeepsLower(s: string)
    ensures Text.Lower(Text.TrimLeft(s)) == Text.TrimLeft(Text.Lower(s))
  {
    if s == [] {
    } else {
      assert Text.Lower(s)[1..] == Text.Lower(s[1..]);
      TrimLeftKeepsLower(s[1..]);
    }
  }

  lemma {:induction false} TrimRightKeepsLower(s: string)
    ensures Text.Lower(Text.TrimRight(s)) == Text.TrimRight(Text.Lower(s))
  {
    if s == [] {
    } else {
      assert Text.Lower(s)[..|s| - 1] == Text.Lower(s[..|s| - 1]);
      TrimRightKeepsLower(s[..|s| - 1]);
    }
  }

  lemma TrimKeepsLower(s: string)
    ensures Text.Lower(Text.TrimLeft(s)) == Text.TrimLeft(Text.Lower(s))
    ensures Text.Lower(Text.TrimRight(s)) == Text.TrimRight(Text.Lower(s))
  {
    TrimLeftKeepsLower(s);
    TrimRightKeepsLower(s);
  }

  /** Trimming spaces and lower-casing again change no token. */
  lemma TokensOfTrimmed(s: string)
    ensures Tokens(Text.TrimSpace(Text.Lower(s))) == Tokens(s)
  {
    var lower := Text.Lower(s);
    var left := Text.TrimLeft(lower);
    TrimKeepsLower(lower);
    TrimKeepsLower(left);
    LowerTwice(s);
    TrimKeepsLower(s);
    LowerTwice(Text.TrimLeft(s));
    SplitIgnoresEdges(left, []);
    SplitIgnoresFirst(lower);
  }

  /** The band each tier's scores lie in, by the number of query tokens. */
  lemma ScoreInBand(typeName: string, searchText: string, query: string)
    requires Tokens(query) != []
    ensures
      var score := ScoreSearch(typeName, searchText, query);
      var n := |Tokens(query)|;
      match TierOf(typeName, searchText, query)
      case NoMatch => score == 0
      case InText => 1000 + 45 * n <= score <= 1000 + 140 * n
      case InName => 3000 + 45 * n <= score <= 3000 + 140 * n
      case NameSuffix => score == 4000
      case AfterPrefix => score == 4500
      case WholeName => score == 5000
  {
    hide Tokens, TokenScore, Text.TrimSpace, JoinUnderscore, AfterUnderscore;
    TokensOfTrimmed(query);
    EmptyHasNoTokens();
    var haystack := Text.TrimSpace(typeName + " " + searchText);
    TokensOfLower(haystack);
    var queryTokens := Tokens(query);
    if AllTokensMatch(queryTokens, Tokens(haystack)) { SumScoresRange(queryTokens, Tokens(haystack)); }
    var typeTokens := Tokens(Text.Lower(typeName));
    if AllTokensMatch(queryTokens, typeTokens) { SumScoresRange(queryTokens, typeTokens); }
  }

  lemma EmptyHasNoTokens()
    ensures Tokens([]) == []
  {
    assert Text.Lower([]) == [];
  }

  lemma TokensOfLower(s: string)
    ensures Tokens(Text.Lower(s)) == Tokens(s)
  {
    LowerTwice(s);
  }

  /** For a query of at most seven tokens, a better tier always scores higher. */
  lemma TiersNeverOverlap(a: string, textA: string, b: string, textB: string, query: string)
    requires 1 <= |Tokens(query)| <= 7
    requires TierLevel(TierOf(a, textA, query)) > TierLevel(TierOf(b, textB, query))
    ensures ScoreSearch(a, textA, query) > ScoreSearch(b, textB, query)
  {
    hide TierOf, ScoreSearch, Tokens;
    ScoreInBand(a, textA, query);
    ScoreInBand(b, textB, query);
  }

  ghost predicate AreTokens(tokens: seq<string>) {
    forall i :: 0 <= i < |tokens| ==> tokens[i] != [] && forall k :: 0 <= k < |tokens[i]| ==> IsTokenChar(tokens[i][k])
  }

  lemma {:induction false} SplitRun(part: string, rest: string, run: string)
    requires forall k :: 0 <= k < |part| ==> IsTokenChar(part[k])
    ensures SplitTokens(part + rest, run) == SplitTokens(rest, run + part)
    decreases |part|
  {
    if part == [] {
      assert part + rest == rest && run + part == run;
    } else {
      SplitRun(part[1..], rest, run + [part[0]]);
      assert (part + rest)[1..] == part[1..] + rest;
      assert run + [part[0]] + part[1..] == run + part;
    }
  }

  lemma {:induction false} SplitJoined(tokens: seq<string>)
    requires AreTokens(tokens)
    ensures SplitTokens(JoinUnderscore(tokens), []) == tokens
    ensures Text.Lower(JoinUnderscore(tokens)) == JoinUnderscore(tokens)
  {
    if tokens == [] {
    } else {
      var t := tokens[0];
      if |tokens| == 1 {
        SplitRun(t, [], []);
        assert t + [] == t && [] + t == t;
      } else {
        var rest := JoinUnderscore(tokens[1..]);
        SplitJoined(tokens[1..]);
        SplitRun(t, "_" + rest, []);
        assert t + "_" + rest == t + ("_" + rest) && [] + t == t;
        assert ("_" + rest)[1..] == rest;
        assert tokens == [t] + tokens[1..];
        assert forall i :: 0 <= i < |rest| ==> Text.LowerChar(rest[i]) == rest[i] by {
          assert forall i :: 0 <= i < |rest| ==> Text.Lower(rest)[i] == rest[i];
        }
      }
    }
  }

  /** Joining tokens and splitting the result gives the tokens back. */
  lemma TokensOfJoined(tokens: seq<string>)
    requires AreTokens(tokens)
    ensures Tokens(JoinUnderscore(tokens)) == tokens && Text.Lower(JoinUnderscore(tokens)) == JoinUnderscore(tokens)
  {
    SplitJoined(tokens);
  }

  lemma {:induction false} AfterFirstPart(t: string, rest: string)
    requires forall k :: 0 <= k < |t| ==> t[k] != '_'
    ensures AfterUnderscore(t + "_" + rest) == Some(rest)
    decreases |t|
  {
    if t == [] {
      assert t + "_" + rest == "_" + rest;
    } else {
      AfterFirstPart(t[1..], rest);
      assert (t + "_" + rest)[1..] == t[1..] + "_" + rest;
    }
  }

  lemma TokensWithoutText(name: string)
    ensures Tokens(Text.TrimSpace(name + " " + "")) == Tokens(name)
  {
    var s := name + " " + "";
    var lower := Text.Lower(s);
    TrimKeepsLower(s);
    TrimKeepsLower(Text.TrimLeft(s));
    SplitIgnoresEdges(Text.TrimLeft(lower), []);
    SplitIgnoresFirst(lower);
    assert lower == Text.Lower(name) + [' '];
    SplitIgnoresLastSpace(Text.Lower(name), ' ', []);
  }

  /** One-letter tokens match only themselves. */
  lemma {:induction false} LetterScore(token: string, candidates: seq<string>)
    requires |token| == 1 && token in candidates
    requires forall i :: 0 <= i < |candidates| ==> |candidates[i]| == 1
    ensures TokenScore(token, candidates) == 140
  {
    if candidates[0] != token {
      assert candidates == [candidates[0]] + candidates[1..];
      assert !(token <= candidates[0]) && candidates[0][1..] == [];
      LetterScore(token, candidates[1..]);
    }
  }

  lemma {:induction false} LettersScore(query: seq<string>, candidates: seq<string>)
    requires forall i :: 0 <= i < |query| ==> |query[i]| == 1 && query[i] in candidates
    requires forall i :: 0 <= i < |candidates| ==> |candidates[i]| == 1
    ensures AllTokensMatch(query, candidates) && SumScores(query, candidates) == 140 * |query|
  {
    forall i | 0 <= i < |query| ensures TokenScore(query[i], candidates) == 140 { LetterScore(query[i], candidates); }
    if query == [] {
    } else {
      var last := |query| - 1;
      assert forall i :: 0 <= i < last ==> query[..last][i] == query[i];
      LettersScore(query[..last], candidates);
    }
  }

  ghost predicate Overlap(a: string, b: string, query: string) {
    && TierLevel(TierOf(a, "", query)) > TierLevel(TierOf(b, "", query))
    && ScoreSearch(a, "", query) < ScoreSearch(b, "", query)
  }

  /** A query of n one-letter tokens. */
  function Letters(n: nat): (tokens: seq<string>)
    ensures |tokens| == n && forall i :: 0 <= i < n ==> tokens[i] == "a"
  {
    seq(n, i => "a")
  }

  /** A lower-case name that matches a query by its tokens only. */
  lemma TierByTokens(name: string, query: string, nameTokens: seq<string>, queryTokens: seq<string>)
    requires Tokens(query) == queryTokens != [] && Tokens(name) == nameTokens && Text.Lower(name) == name
    requires AllTokensMatch(queryTokens, nameTokens)
    requires name != JoinUnderscore(queryTokens) && AfterUnderscore(name) != Some(JoinUnderscore(queryTokens))
    ensures TierOf(name, "", query) == if HasTokenSuffix(nameTokens, queryTokens) then NameSuffix else InName
    ensures !HasTokenSuffix(nameTokens, queryTokens) ==>
      ScoreSearch(name, "", query) == 3000 + SumScores(queryTokens, nameTokens)
  {
    hide Tokens, TokenScore, Text.TrimSpace, Text.Lower, SumScores, AllTokensMatch, HasTokenSuffix, JoinUnderscore, AfterUnderscore;
    TokensWithoutText(name);
    TokensOfTrimmed(query);
    EmptyHasNoTokens();
    TokensOfLower(Text.TrimSpace(name + " " + ""));
  }

  /** With at least two tokens, what follows a joined name's first underscore is the rest, joined. */
  lemma JoinedRest(tokens: seq<string>, queryTokens: seq<string>)
    requires AreTokens(tokens) && |tokens| >= 2 && AreTokens(queryTokens)
    requires tokens != queryTokens && tokens[1..] != queryTokens
    ensures JoinUnderscore(tokens) != JoinUnderscore(queryTokens)
    ensures AfterUnderscore(JoinUnderscore(tokens)) != Some(JoinUnderscore(queryTokens))
  {
    hide Tokens, AfterUnderscore;
    TokensOfJoined(tokens);
    TokensOfJoined(tokens[1..]);
    TokensOfJoined(queryTokens);
    AfterFirstPart(tokens[0], JoinUnderscore(tokens[1..]));
  }

  lemma TrailingNameTier(n: nat)
    requires n >= 1
    ensures TierOf(JoinUnderscore(["x", "y"] + Letters(n)), "", JoinUnderscore(Letters(n))) == NameSuffix
  {
    hide Tokens, TokenScore, JoinUnderscore, TierOf, ScoreSearch, AfterUnderscore, AllTokensMatch, SumScores;
    var query := Letters(n);
    var ts := ["x", "y"] + query;
    TokensOfJoined(query);
    TokensOfJoined(ts);
    assert ts[2] == query[0] == "a";
    LettersScore(query, ts);
    assert |ts[1..]| == n + 1;
    JoinedRest(ts, query);
    TierByTokens(JoinUnderscore(ts), JoinUnderscore(query), ts, query);
    assert ts[2..] == query;
  }

  lemma AnyNameTier(n: nat)
    requires n >= 1
    ensures TierOf(JoinUnderscore(Letters(n) + ["i"]), "", JoinUnderscore(Letters(n))) == InName
    ensures ScoreSearch(JoinUnderscore(Letters(n) + ["i"]), "", JoinUnderscore(Letters(n))) == 3000 + 140 * n
  {
    hide Tokens, TokenScore, JoinUnderscore, TierOf, ScoreSearch, AfterUnderscore, AllTokensMatch, SumScores;
    var query := Letters(n);
    var ts := query + ["i"];
    TokensOfJoined(query);
    TokensOfJoined(ts);
    assert ts[0] == query[0] == "a";
    LettersScore(query, ts);
    assert ts[1..][n - 1] == "i" && query[n - 1] == "a";
    JoinedRest(ts, query);
    TierByTokens(JoinUnderscore(ts), JoinUnderscore(query), ts, query);
  }

  /** From eight tokens on, a match of any name tokens can outscore a match of the trailing ones. */
  lemma LongQueryMayOverlap(n: nat) returns (a: string, b: string, query: string)
    requires n >= 8
    ensures |Tokens(query)| == n && Overlap(a, b, query)
  {
    hide TierOf, ScoreSearch, Tokens, JoinUnderscore;
    query := JoinUnderscore(Letters(n));
    a := JoinUnderscore(["x", "y"] + Letters(n));
    b := JoinUnderscore(Letters(n) + ["i"]);
    TokensOfJoined(Letters(n));
    TrailingNameTier(n);
    AnyNameTier(n);
    ScoreInBand(a, "", query);
  }

  /** The tiers can overlap for queries of n tokens exactly from n = 8 on. */
  lemma TiersOverlapExactly(n: nat)
    requires n >= 1
    ensures (exists a, b, query :: |Tokens(query)| == n && Overlap(a, b, query)) <==> n >= 8
  {
    hide TierOf, ScoreSearch, Tokens;
    if n >= 8 {
      var a, b, query := LongQueryMayOverlap(n);
    } else {
      forall a, b, query | |Tokens(query)| == n ensures !Overlap(a, b, query) {
        if TierLevel(TierOf(a, "", query)) > TierLevel(TierOf(b, "", query)) {
          TiersNeverOverlap(a, "", b, "", query);
        }
      }
    }
  }

  // ---------------------------------------------------------------- ranking

  datatype Entry = Entry(typeName: string, searchText: string)

  datatype Candidate = Candidate(typeName: string, isResource: bool, isData: bool, score: nat)

  /** The order of the ranking: higher scores first, then names ascending. */
  predicate Better(a: Candidate, b: Candidate) {
    a.score > b.score || (a.score == b.score && Text.Less(a.typeName, b.typeName))
  }

  lemma BetterIsTotal(a: Candidate, b: Candidate)
    requires a.typeName != b.typeName
    ensures Better(a, b) != Better(b, a)
  {
    Text.LessTotal(a.typeName, b.typeName);
    if Text.Less(a.typeName, b.typeName) { Text.LessAsymmetric(a.typeName, b.typeName); }
    if Text.Less(b.typeName, a.typeName) { Text.LessAsymmetric(b.typeName, a.typeName); }
  }

  lemma BetterIsTransitive(a: Candidate, b: Candidate, c: Candidate)
    requires Better(a, b) && Better(b, c)
    ensures Better(a, c)
  {
    if a.score == b.score == c.score { Text.LessTransitive(a.typeName, b.typeName, c.typeName); }
  }

  lemma BetterIsIrreflexive(a: Candidate)
    ensures !Better(a, a)
  {
    if Text.Less(a.typeName, a.typeName) { Text.LessAsymmetric(a.typeName, a.typeName); }
  }

  type Candidates = map<string, Candidate>

  /** What the add closure does with one entry. */
  function AddEntry(found: Candidates, entry: Entry, asResource: bool, query: string): Candidates {
    var score := ScoreSearch(entry.typeName, entry.searchText, query);
    if score == 0 then found
    else
      var c := if entry.typeName in found then found[entry.typeName] else Candidate(entry.typeName, false, false, score);
      found[entry.typeName := Candidate(entry.typeName, c.isResource || asResource, c.isData || !asResource,
        if score > c.score then score else c.score)]
  }

  function AddAll(found: Candidates, entries: seq<Entry>, asResource: bool, query: string): Candidates {
    if entries == [] then found
    else AddEntry(AddAll(found, entries[..|entries| - 1], asResource, query), entries[|entries| - 1], asResource, query)
  }

  ghost predicate Ranked(list: seq<Candidate>) {
    forall i, j :: 0 <= i < j < |list| ==> Better(list[i], list[j])
  }

  /** A listing of the candidates, each once, best first. */
  ghost predicate IsRanking(list: seq<Candidate>, found: Candidates) {
    && Ranked(list)
    && (forall c :: c in list ==> c.typeName in found && found[c.typeName] == c)
    && forall name :: name in found ==> found[name] in list
  }

  predicate Named(found: Candidates) {
    forall name :: name in found ==> found[name].typeName == name
  }

  /** The ranking is unique, so the order a map yields its entries in decides nothing. */
  lemma {:induction false} RankingIsUnique(a: seq<Candidate>, b: seq<Candidate>)
    requires Ranked(a)
    requires Ranked(b)
    requires forall c :: c in a <==> c in b
    ensures a == b
    decreases |a|
  {
    if a == [] {
      assert forall i :: 0 <= i < |b| ==> b[i] in b;
    } else {
      assert a[0] in b && b != [];
      FirstIsFirst(a, b);
      forall c ensures c in a[1..] <==> c in b[1..] {
        if c in a[1..] { RestExcludesFirst(a, c); }
        if c in b[1..] { RestExcludesFirst(b, c); }
      }
      RankingIsUnique(a[1..], b[1..]);
      assert a == [a[0]] + a[1..] && b == [b[0]] + b[1..];
    }
  }

  lemma FirstIsFirst(a: seq<Candidate>, b: seq<Candidate>)
    requires a != [] && b != []
    requires Ranked(a)
    requires Ranked(b)
    requires forall c :: c in a <==> c in b
    ensures a[0] == b[0]
  {
    assert a[0] in b && b[0] in a;
    var i :| 0 <= i < |b| && b[i] == a[0];
    var j :| 0 <= j < |a| && a[j] == b[0];
    if i > 0 && j > 0 {
      BetterIsTransitive(a[0], a[j], b[i]);
      BetterIsIrreflexive(a[0]);
    }
  }

  lemma RestExcludesFirst(a: seq<Candidate>, c: Candidate)
    requires a != [] && Ranked(a)
    requires c in a[1..]
    ensures c in a && c != a[0]
  {
    var i :| 0 <= i < |a| - 1 && a[1..][i] == c;
    assert a[i + 1] == c && Better(a[0], a[i + 1]);
    BetterIsIrreflexive(a[0]);
  }

  function InsertRanked(c: Candidate, list: seq<Candidate>): seq<Candidate> {
    if list == [] || Better(c, list[0]) then [c] + list else [list[0]] + InsertRanked(c, list[1..])
  }

  lemma {:induction false} InsertRankedMembers(c: Candidate, list: seq<Candidate>)
    ensures forall d :: d in InsertRanked(c, list) <==> d == c || d in list
  {
    if list != [] && !Better(c, list[0]) {
      assert list == [list[0]] + list[1..];
      InsertRankedMembers(c, list[1..]);
    }
  }

  lemma {:induction false} InsertRankedKeepsOrder(c: Candidate, list: seq<Candidate>)
    requires Ranked(list)
    requires forall i :: 0 <= i < |list| ==> list[i].typeName != c.typeName
    ensures Ranked(InsertRanked(c, list))
  {
    if list == [] {
    } else {
      BetterIsTotal(c, list[0]);
      if Better(c, list[0]) {
        forall j | 0 < j < |list| ensures Better(c, list[j]) { BetterIsTransitive(c, list[0], list[j]); }
      } else {
        InsertRankedKeepsOrder(c, list[1..]);
        InsertRankedMembers(c, list[1..]);
        var rest := InsertRanked(c, list[1..]);
        forall j | 0 <= j < |rest| ensures Better(list[0], rest[j]) {
          assert rest[j] in rest;
          if rest[j] != c {
            var k :| 0 <= k < |list[1..]| && list[1..][k] == rest[j];
            assert list[k + 1] == rest[j];
          }
        }
        assert InsertRanked(c, list) == [list[0]] + rest;
      }
    }
  }

  /** Lists the candidates in the order the map yields them, then sorts. */
  method Rank(found: Candidates) returns (list: seq<Candidate>)
    requires Named(found)
    ensures IsRanking(list, found)
  {
    list := [];
    var todo := found.Keys;
    while todo != {}
      invariant todo <= found.Keys
      invariant Ranked(list)
      invariant forall c :: c in list ==> c.typeName in found && c.typeName !in todo && found[c.typeName] == c
      invariant forall name :: name in found && name !in todo ==> found[name] in list
      decreases todo
    {
      var name :| name in todo;
      var c := found[name];
      forall i | 0 <= i < |list| ensures list[i].typeName != name { assert list[i] in list; }
      InsertRankedMembers(c, list);
      InsertRankedKeepsOrder(c, list);
      list := InsertRanked(c, list);
      todo := todo - {name};
    }
  }

  // ---------------------------------------------------------------- paging

  const MAX_INT: int := 0x7FFF_FFFF_FFFF_FFFF

  function NormalLimit(limit: int): (n: nat)
    ensures 1 <= n <= 100
  {
    if limit <= 0 then 25 else if limit > 100 then 100 else limit
  }

  function NormalOffset(offset: int): nat {
    if offset < 0 then 0 else offset
  }

  function Min(a: nat, b: nat): nat {
    if a < b then a else b
  }

  /** A 64-bit sum. */
  function AddInt(a: int, b: int): int {
    if a + b > MAX_INT then a + b - 0x1_0000_0000_0000_0000 else a + b
  }

  /** The page and whether more remain. No page when the sum of offset and limit overflows: the
      slice bounds are then invalid and the call panics. */
  function Page<T>(list: seq<T>, offset: nat, limit: nat): (page: Option<(seq<T>, bool)>)
  {
    var sum := AddInt(offset, limit);
    var truncated := |list| > sum;
    var end := if sum > |list| then |list| else sum;
    var start := if offset > |list| then |list| else offset;
    if start <= end then Some((list[start..end], truncated)) else None
  }

  /** A page exists exactly when the bounds do not overflow, and then it is the next limit entries
      from offset, truncated exactly when entries remain after it. */
  lemma PageIsSlice<T>(list: seq<T>, offset: nat, limit: nat)
    requires offset <= MAX_INT && 1 <= limit <= 100 && |list| <= MAX_INT
    ensures Page(list, offset, limit).Some? <==> offset + limit <= MAX_INT
    ensures offset + limit <= MAX_INT ==>
      Page(list, offset, limit) == Some((
        list[Min(offset, |list|)..Min(offset + limit, |list|)],
        offset + limit < |list|))
  {
  }

  /** The first n pages of the given size. */
  ghost function Pages<T>(list: seq<T>, limit: nat, n: nat): (all: seq<T>)
    requires 1 <= limit <= 100
    decreases n
  {
    if n == 0 then []
    else
      var page := Page(list, (n - 1) * limit, limit);
      Pages(list, limit, n - 1) + (if page.Some? then page.value.0 else [])
  }

  /** The last of n pages says there is no more exactly when the pages are the whole list. */
  ghost predicate EndsWhenDone<T>(list: seq<T>, limit: nat, n: nat)
    requires n > 0 && 1 <= limit <= 100
  {
    var page := Page(list, (n - 1) * limit, limit);
    page.Some? && (!page.value.1 <==> Pages(list, limit, n) == list)
  }

  /** Consecutive pages tile the ranked list: nothing is repeated, nothing is lost, and the last page
      is the first that is not truncated. */
  lemma {:induction false} PagesTile<T>(list: seq<T>, limit: nat, n: nat)
    requires 1 <= limit <= 100 && |list| <= MAX_INT && n * limit <= MAX_INT
    ensures Pages(list, limit, n) == list[..Min(n * limit, |list|)]
    ensures n > 0 ==> EndsWhenDone(list, limit, n)
    decreases n
  {
    if n == 0 {
    } else {
      var before := (n - 1) * limit;
      assert n * limit == before + limit;
      PagesTile(list, limit, n - 1);
      PageIsSlice(list, before, limit);
      var page := Page(list, before, limit).value.0;
      assert Pages(list, limit, n) == Pages(list, limit, n - 1) + page;
    }
  }

  // ---------------------------------------------------------------- the search

  datatype Hit = Hit(typeName: string, isResource: bool, isData: bool)

  function ToHit(c: Candidate): Hit {
    Hit(c.typeName, c.isResource, c.isData)
  }

  /** Every candidate the search ranks. */
  function FoundBy(resources: seq<Entry>, dataSources: seq<Entry>, kind: string, query: string): Candidates {
    var k := if kind == "" then "both" else kind;
    var withResources := if k == "resource" || k == "both" then AddAll(map[], resources, true, query) else map[];
    if k == "data" || k == "both" then AddAll(withResources, dataSources, false, query) else withResources
  }

  lemma {:induction false} AddAllIsNamed(found: Candidates, entries: seq<Entry>, asResource: bool, query: string)
    requires Named(found)
    ensures Named(AddAll(found, entries, asResource, query))
  {
    if entries == [] {
    } else {
      AddAllIsNamed(found, entries[..|entries| - 1], asResource, query);
    }
  }

  /** The best score any entry of the type gets. */
  ghost function BestScore(entries: seq<Entry>, name: string, query: string): (best: nat) {
    if entries == [] then 0
    else
      var last := entries[|entries| - 1];
      var rest := BestScore(entries[..|entries| - 1], name, query);
      var score := if last.typeName == name then ScoreSearch(last.typeName, last.searchText, query) else 0;
      if score > rest then score else rest
  }

  /** Deduplication: adding entries keeps one candidate per matching type, with the best of its scores. */
  lemma {:induction false} AddAllKeepsBest(found: Candidates, entries: seq<Entry>, asResource: bool, query: string, name: string)
    requires forall n :: n in found ==> found[n].score > 0
    ensures
      var r := AddAll(found, entries, asResource, query);
      var best := BestScore(entries, name, query);
      && (name in r <==> name in found || best > 0)
      && (name in r ==>
           && r[name].score == (if name in found && found[name].score > best then found[name].score else best)
           && r[name].isResource == ((name in found && found[name].isResource) || (asResource && best > 0))
           && r[name].isData == ((name in found && found[name].isData) || (!asResource && best > 0)))
      && (forall n :: n in r ==> r[n].score > 0)
  {
    hide ScoreSearch;
    if entries == [] {
    } else {
      AddAllKeepsBest(found, entries[..|entries| - 1], asResource, query, name);
    }
  }

  predicate Searches(kind: string, wanted: string) {
    kind == wanted || kind == "both" || kind == ""
  }

  ghost function Max(a: nat, b: nat): nat {
    if a > b then a else b
  }

  /** A type is found exactly when it matches in a kind that was asked for; it is scored by its best
      match there, and shown under exactly the kinds it matches in. */
  lemma FoundExactly(resources: seq<Entry>, dataSources: seq<Entry>, kind: string, query: string, name: string)
    ensures
      var found := FoundBy(resources, dataSources, kind, query);
      var asResource := if Searches(kind, "resource") then BestScore(resources, name, query) else 0;
      var asData := if Searches(kind, "data") then BestScore(dataSources, name, query) else 0;
      && (name in found <==> asResource > 0 || asData > 0)
      && (name in found ==>
           && found[name].score == Max(asResource, asData)
           && found[name].isResource == (asResource > 0)
           && found[name].isData == (asData > 0))
  {
    hide AddAll, BestScore;
    AddAllKeepsBest(map[], resources, true, query, name);
    AddAllKeepsBest(map[], dataSources, false, query, name);
    AddAllKeepsBest(AddAll(map[], resources, true, query), dataSources, false, query, name);
  }

  method AddEntries(found: Candidates, entries: seq<Entry>, asResource: bool, query: string) returns (r: Candidates)
    ensures r == AddAll(found, entries, asResource, query)
  {
    hide ScoreSearch;
    r := found;
    for i := 0 to |entries|
      invariant r == AddAll(found, entries[..i], asResource, query)
    {
      assert entries[..i + 1][..i] == entries[..i];
      var entry := entries[i];
      ghost var before := r;
      var score := ScoreSearch(entry.typeName, entry.searchText, query);
      if score != 0 {
        if entry.typeName !in r {
          r := r[entry.typeName := Candidate(entry.typeName, false, false, score)];
        }
        var c := r[entry.typeName];
        c := if asResource then c.(isResource := true) else c.(isData := true);
        if score > c.score {
          c := c.(score := score);
        }
        r := r[entry.typeName := Candidate(entry.typeName, c.isResource, c.isData, c.score)];
      }
      assert r == AddEntry(before, entry, asResource, query);
    }
    assert entries[..|entries|] == entries;
  }

  function Hits(page: seq<Candidate>): seq<Hit> {
    seq(|page|, i requires 0 <= i < |page| => ToHit(page[i]))
  }

  /** The page of a ranking; none when its bounds overflow and slicing panics. */
  function Answer(ranking: seq<Candidate>, limit: int, offset: int): Option<(seq<Hit>, bool)>
  {
    match Page(ranking, NormalOffset(offset), NormalLimit(limit))
    case None => None
    case Some((page, truncated)) => Some((Hits(page), truncated))
  }

  /** The hits are the next 25 of the ranking, or as many as were asked for up to 100, from the offset on
      or from the start, each with the kinds it was found under; more is said to remain exactly when it does. */
  ghost predicate IsPage(ranking: seq<Candidate>, limit: int, offset: int, hits: seq<Hit>, truncated: bool) {
    var size := if limit <= 0 then 25 else if limit > 100 then 100 else limit;
    var from := if offset < 0 then 0 else offset;
    && |hits| == (if |ranking| <= from then 0 else if |ranking| < from + size then |ranking| - from else size)
    && (forall m :: 0 <= m < |hits| ==>
          var c := ranking[from + m];
          hits[m] == Hit(c.typeName, c.isResource, c.isData))
    && (truncated <==> from + size < |ranking|)
  }

  lemma AnswerIsPage(ranking: seq<Candidate>, limit: int, offset: int)
    requires offset <= MAX_INT && |ranking| <= MAX_INT && Answer(ranking, limit, offset).Some?
    ensures IsPage(ranking, limit, offset, Answer(ranking, limit, offset).value.0, Answer(ranking, limit, offset).value.1)
  {
    PageIsSlice(ranking, NormalOffset(offset), NormalLimit(limit));
  }

  /** The response is the page of the one ranking of everything found, whatever order the candidates
      came out of the map in; there is none exactly when the page bounds overflow. */
  method SearchTypes(resources: seq<Entry>, dataSources: seq<Entry>, kind: string, query: string, limit: int, offset: int)
    returns (response: Option<(seq<Hit>, bool)>)
    requires -MAX_INT - 1 <= offset <= MAX_INT
    ensures exists ranking :: IsRanking(ranking, FoundBy(resources, dataSources, kind, query))
    ensures forall ranking :: IsRanking(ranking, FoundBy(resources, dataSources, kind, query)) ==>
      && response == Answer(ranking, limit, offset)
      && (|ranking| <= MAX_INT ==> (response.Some? <==> NormalOffset(offset) + NormalLimit(limit) <= MAX_INT))
      && (|ranking| <= MAX_INT && response.Some? ==> IsPage(ranking, limit, offset, response.value.0, response.value.1))
  {
    hide AddAll, IsRanking, Page, IsPage;
    var found := Collect(resources, dataSources, kind, query);
    var list := Rank(found);
    forall ranking | IsRanking(ranking, found) ensures ranking == list { RankingsAgree(ranking, list, found); }
    if |list| <= MAX_INT { PageIsSlice(list, NormalOffset(offset), NormalLimit(limit)); }
    var page := Page(list, NormalOffset(offset), NormalLimit(limit));
    if page.None? {
      return None;
    }
    var hits: seq<Hit> := [];
    for i := 0 to |page.value.0|
      invariant |hits| == i && forall m :: 0 <= m < i ==> hits[m] == ToHit(page.value.0[m])
    {
      hits := hits + [ToHit(page.value.0[i])];
    }
    assert hits == Hits(page.value.0);
    response := Some((hits, page.value.1));
    if |list| <= MAX_INT { AnswerIsPage(list, limit, offset); }
  }

  method Collect(resources: seq<Entry>, dataSources: seq<Entry>, kind: string, query: string) returns (found: Candidates)
    ensures found == FoundBy(resources, dataSources, kind, query) && Named(found)
  {
    hide AddAll;
    var k := if kind == "" then "both" else kind;
    found := map[];
    if k == "resource" || k == "both" {
      AddAllIsNamed(found, resources, true, query);
      found := AddEntries(found, resources, true, query);
    }
    if k == "data" || k == "both" {
      AddAllIsNamed(found, dataSources, false, query);
      found := AddEntries(found, dataSources, false, query);
    }
  }

  lemma RankingsAgree(a: seq<Candidate>, b: seq<Candidate>, found: Candidates)
    requires IsRanking(a, found) && IsRanking(b, found)
    ensures a == b
  {
    hide Ranked;
    forall c ensures c in a <==> c in b { SameMembers(a, b, found, c); }
    RankingIsUnique(a, b);
  }

  lemma SameMembers(a: seq<Candidate>, b: seq<Candidate>, found: Candidates, c: Candidate)
    requires IsRanking(a, found) && IsRanking(b, found)
    ensures c in a <==> c in b
  {
  }
}
