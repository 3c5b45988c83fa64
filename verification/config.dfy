/** config.py: the GitHub token list read from the environment at import time. */
module Config {
  import opened Wrappers
  import opened Text

  const GITHUB_GRAPHQL_API_URL: string := "https://api.github.com/graphql"

  /** The stripped, non-empty pieces, in order. */
  function StrippedNonEmpty(pieces: seq<string>): (tokens: seq<string>)
    ensures |tokens| <= |pieces|
    ensures forall k :: 0 <= k < |tokens| ==> tokens[k] != [] && IsStripped(tokens[k])
  {
    if pieces == [] then []
    else
      var t := Strip(pieces[0]);
      (if t != [] then [t] else []) + StrippedNonEmpty(pieces[1..])
  }

  /** `GITHUB_API_TOKENS` computed from the value of the environment variable
      `GITHUB_APP_INSTALLATION_TOKENS` (`None` when it is not set). */
  function ApiTokens(env: Option<string>): (tokens: seq<string>)
    ensures forall k :: 0 <= k < |tokens| ==> tokens[k] != [] && IsStripped(tokens[k]) && ',' !in tokens[k]
    ensures env.None? || env == Some("") ==> tokens == []
  {
    if env.Some? && env.value != [] then
      var pieces := Split(env.value, ',');
      var tokens := StrippedNonEmpty(pieces);
      NoSeparatorSurvives(pieces, ',');
      tokens
    else []
  }

  lemma {:induction false} NoSeparatorSurvives(pieces: seq<string>, sep: char)
    requires forall k :: 0 <= k < |pieces| ==> sep !in pieces[k]
    ensures forall k :: 0 <= k < |StrippedNonEmpty(pieces)| ==> sep !in StrippedNonEmpty(pieces)[k]
  {
    if pieces != [] {
      NoSeparatorSurvives(pieces[1..], sep);
      if sep in Strip(pieces[0]) {
        StripChars(pieces[0], sep);
      }
    }
  }

  datatype ConfigError = MissingTokens

  /** The import-time check: an empty token list raises `ValueError`. */
  function LoadTokens(env: Option<string>): (r: Result<seq<string>, ConfigError>)
    ensures r.Ok? ==> r.value != [] && r.value == ApiTokens(env)
    ensures r.Err? <==> ApiTokens(env) == []
  {
    var tokens := ApiTokens(env);
    if tokens == [] then Err(MissingTokens) else Ok(tokens)
  }

  /** The unset-or-empty guard changes nothing: the empty string also splits
      into pieces that yield no token. */
  lemma ApiTokensOfText(s: string)
    ensures ApiTokens(Some(s)) == StrippedNonEmpty(Split(s, ','))
  {
    if s == [] {
      StripEmptyIff([]);
    }
  }

  lemma {:induction false} StrippedNonEmptyAppend(a: seq<string>, b: seq<string>)
    ensures StrippedNonEmpty(a + b) == StrippedNonEmpty(a) + StrippedNonEmpty(b)
  {
    if a == [] {
      assert a + b == b;
    } else {
      var t := Strip(a[0]);
      var head := if t != [] then [t] else [];
      assert (a + b)[0] == a[0];
      assert (a + b)[1..] == a[1..] + b;
      assert StrippedNonEmpty(a + b) == head + StrippedNonEmpty(a[1..] + b);
      StrippedNonEmptyAppend(a[1..], b);
      var x, y := StrippedNonEmpty(a[1..]), StrippedNonEmpty(b);
      assert head + (x + y) == (head + x) + y;
      assert StrippedNonEmpty(a) == head + x;
    }
  }

  /** Token order follows the text: the tokens of `a,b` are those of `a`
      followed by those of `b`. */
  lemma ApiTokensAppend(a: string, b: string)
    ensures ApiTokens(Some(a + "," + b)) == ApiTokens(Some(a)) + ApiTokens(Some(b))
  {
    ApiTokensOfText(a + "," + b);
    ApiTokensOfText(a);
    ApiTokensOfText(b);
    SplitAppend(a, b, ',');
    StrippedNonEmptyAppend(Split(a, ','), Split(b, ','));
  }

  lemma {:induction false} StrippedNonEmptyKeeps(tokens: seq<string>)
    requires forall k :: 0 <= k < |tokens| ==> tokens[k] != [] && IsStripped(tokens[k])
    ensures StrippedNonEmpty(tokens) == tokens
  {
    if tokens != [] {
      var t := tokens[0];
      StripUnique([], t, []);
      assert [] + t + [] == t;
      assert Strip(t) == t;
      StrippedNonEmptyKeeps(tokens[1..]);
      assert StrippedNonEmpty(tokens) == [t] + StrippedNonEmpty(tokens[1..]);
      assert tokens == [t] + tokens[1..];
    }
  }

  /** Round trip: joining well-formed tokens with commas and reading the
      variable back gives the same tokens. */
  lemma ApiTokensJoin(tokens: seq<string>)
    requires forall k :: 0 <= k < |tokens| ==> tokens[k] != [] && IsStripped(tokens[k]) && ',' !in tokens[k]
    ensures ApiTokens(Some(Join(tokens, ","))) == tokens
  {
    if tokens == [] {
      StripEmptyIff([]);
    } else {
      ApiTokensOfText(Join(tokens, ","));
      SplitJoin(tokens, ',');
      StrippedNonEmptyKeeps(tokens);
    }
  }

  predicate SpaceOrComma(c: char) {
    IsSpace(c) || c == ','
  }

  lemma {:induction false} NoTokensIffBlankPieces(pieces: seq<string>)
    ensures StrippedNonEmpty(pieces) == [] <==> BlankPieces(pieces)
  {
    if pieces != [] {
      var p, tail := pieces[0], pieces[1..];
      StripEmptyIff(p);
      NoTokensIffBlankPieces(tail);
      var head := if Strip(p) != [] then [Strip(p)] else [];
      assert StrippedNonEmpty(pieces) == head + StrippedNonEmpty(tail);
      assert BlankPieces(pieces) <==> AllSpace(p) && BlankPieces(tail) by {
        if BlankPieces(pieces) {
          forall k | 0 <= k < |tail| ensures AllSpace(tail[k]) { assert tail[k] == pieces[k + 1]; }
        }
        if AllSpace(p) && BlankPieces(tail) {
          forall k | 0 <= k < |pieces| ensures AllSpace(pieces[k]) {
            if k > 0 { assert pieces[k] == tail[k - 1]; }
          }
        }
      }
    }
  }

  predicate BlankPieces(pieces: seq<string>) {
    forall k :: 0 <= k < |pieces| ==> AllSpace(pieces[k])
  }

  predicate BlankText(s: string) {
    forall i :: 0 <= i < |s| ==> SpaceOrComma(s[i])
  }

  lemma {:induction false} BlankPiecesIffBlankText(pieces: seq<string>)
    requires |pieces| >= 1
    requires forall k :: 0 <= k < |pieces| ==> ',' !in pieces[k]
    ensures BlankPieces(pieces) <==> BlankText(Join(pieces, ","))
  {
    var p := pieces[0];
    assert forall i :: 0 <= i < |p| ==> p[i] != ',' by {
      forall i | 0 <= i < |p| ensures p[i] != ',' { assert p[i] in p; }
    }
    if |pieces| == 1 {
      assert Join(pieces, ",") == p;
    } else {
      var tail := pieces[1..];
      BlankPiecesIffBlankText(tail);
      var j := Join(pieces, ",");
      var rest := Join(tail, ",");
      assert j == p + "," + rest;
      if BlankText(j) {
        forall i | 0 <= i < |p| ensures IsSpace(p[i]) {
          assert j[i] == p[i];
        }
        forall i | 0 <= i < |rest| ensures SpaceOrComma(rest[i]) {
          assert j[|p| + 1 + i] == rest[i];
        }
        assert BlankText(rest);
        forall k | 0 <= k < |pieces| ensures AllSpace(pieces[k]) {
          if k > 0 { assert pieces[k] == tail[k - 1]; }
        }
      }
      if BlankPieces(pieces) {
        assert BlankPieces(tail) by {
          forall k | 0 <= k < |tail| ensures AllSpace(tail[k]) { assert tail[k] == pieces[k + 1]; }
        }
        forall i | 0 <= i < |j| ensures SpaceOrComma(j[i]) {
          if i < |p| {
            assert j[i] == p[i];
          } else if i > |p| {
            assert j[i] == rest[i - |p| - 1];
          }
        }
      }
    }
  }

  /** The token list is empty exactly when the variable holds nothing but
      whitespace and commas. */
  lemma ApiTokensEmptyIff(s: string)
    ensures ApiTokens(Some(s)) == [] <==> BlankText(s)
  {
    ApiTokensOfText(s);
    var pieces := Split(s, ',');
    NoTokensIffBlankPieces(pieces);
    BlankPiecesIffBlankText(pieces);
    JoinSplit(s, ',');
  }
}
