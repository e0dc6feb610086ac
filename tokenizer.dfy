/**
 * `parse_args` (bshell.c:123-144): the line is split on the single
 * delimiter ' ' with the semantics of C's `strtok`, so runs of delimiters
 * collapse and no empty token is produced. The argument vector it builds
 * holds the tokens in order followed by a NULL.
 */
module Tokenizer {
  import opened Wrappers

  /** The delimiter string `delim` of `parse_args` holds this one character. */
  const Delim: char := ' '

  /** A token: non-empty and free of the delimiter. */
  predicate IsWord(w: string)
  {
    |w| > 0 && forall k :: 0 <= k < |w| ==> w[k] != Delim
  }

  predicate AreWords(ws: seq<string>)
  {
    forall i :: 0 <= i < |ws| ==> IsWord(ws[i])
  }

  /** `n` delimiters in a row. */
  function Spaces(n: nat): (s: string)
    ensures |s| == n && forall k :: 0 <= k < n ==> s[k] == Delim
  {
    seq(n, _ => Delim)
  }

  // ---------------------------------------------------------------------
  // The tokens of a line, as a reference definition
  // ---------------------------------------------------------------------

  /** Length of the run of non-delimiters that starts the line. */
  function RunLength(s: string): (n: nat)
    ensures n <= |s|
    ensures forall k :: 0 <= k < n ==> s[k] != Delim
    ensures n < |s| ==> s[n] == Delim
  {
    if s == [] || s[0] == Delim then 0 else 1 + RunLength(s[1..])
  }

  /** The maximal runs of non-delimiter characters of `s`, left to right. */
  function Tokens(s: string): (ts: seq<string>)
    ensures AreWords(ts)
    decreases |s|
  {
    if s == [] then []
    else if s[0] == Delim then Tokens(s[1..])
    else
      var n := RunLength(s);
      [s[..n]] + Tokens(s[n..])
  }

  /** The words joined with single delimiters, as `bshell_echo` prints them. */
  function Join(ws: seq<string>): string
  {
    if |ws| == 0 then []
    else if |ws| == 1 then ws[0]
    else ws[0] + [Delim] + Join(ws[1..])
  }

  // ---------------------------------------------------------------------
  // strtok
  // ---------------------------------------------------------------------

  /** First index at or after `i` that is not a delimiter (or the end). */
  function SkipDelims(s: string, i: nat): (j: nat)
    requires i <= |s|
    ensures i <= j <= |s|
    ensures forall k :: i <= k < j ==> s[k] == Delim
    ensures j < |s| ==> s[j] != Delim
    decreases |s| - i
  {
    if i == |s| || s[i] != Delim then i else SkipDelims(s, i + 1)
  }

  /** First index at or after `i` that is a delimiter (or the end). */
  function TokenEnd(s: string, i: nat): (j: nat)
    requires i <= |s|
    ensures i <= j <= |s|
    ensures forall k :: i <= k < j ==> s[k] != Delim
    ensures j < |s| ==> s[j] == Delim
    decreases |s| - i
  {
    if i == |s| || s[i] == Delim then i else TokenEnd(s, i + 1)
  }

  /** A token found by `strtok` and the position its saved pointer moves to. */
  datatype Scan = Scan(token: string, next: nat)

  /**
   * One call of `strtok(…, " ")` whose saved pointer is at `cursor`:
   * skip the leading delimiters; at the end of the string there is no
   * token (NULL); otherwise the token runs to the next delimiter, which
   * `strtok` consumes, or to the end of the string.
   */
  function Strtok(s: string, cursor: nat): (r: Option<Scan>)
    requires cursor <= |s|
    ensures r.Some? ==> cursor < r.value.next <= |s| && IsWord(r.value.token)
    ensures r.None? <==> forall k :: cursor <= k < |s| ==> s[k] == Delim
  {
    var start := SkipDelims(s, cursor);
    if start == |s| then None
    else
      var end := TokenEnd(s, start);
      Some(Scan(s[start..end], if end < |s| then end + 1 else end))
  }

  // ---------------------------------------------------------------------
  // The argument vector
  // ---------------------------------------------------------------------

  /** A NULL-terminated `char **`: strings, then one NULL at the end. */
  predicate IsArgVector(args: seq<Option<string>>)
  {
    |args| > 0 && args[|args| - 1] == None &&
    forall i :: 0 <= i < |args| - 1 ==> args[i].Some?
  }

  /** The strings of an argument vector, without its NULL. */
  function Words(args: seq<Option<string>>): (ws: seq<string>)
    requires IsArgVector(args)
    ensures |ws| == |args| - 1
    ensures forall i :: 0 <= i < |ws| ==> args[i] == Some(ws[i])
  {
    seq(|args| - 1, i requires 0 <= i < |args| - 1 => args[i].value)
  }

  /** The argument vector holding `ts` and the terminating NULL. */
  function ArgV(ts: seq<string>): (args: seq<Option<string>>)
    ensures IsArgVector(args) && Words(args) == ts
  {
    seq(|ts|, i requires 0 <= i < |ts| => Some(ts[i])) + [None]
  }

  /**
   * `parse_args`: calls `strtok` until it yields NULL, appending each
   * token to the growing vector, then appends the NULL terminator.
   */
  method ParseArgs(line: string) returns (args: seq<Option<string>>)
    ensures |args| == |Tokens(line)| + 1
    ensures forall i :: 0 <= i < |Tokens(line)| ==> args[i] == Some(Tokens(line)[i])
    ensures args[|Tokens(line)|] == None
    ensures args == ArgV(Tokens(line))
  {
    args := [];
    var cursor := 0;
    var token := Strtok(line, cursor);
    while token.Some?
      invariant cursor <= |line|
      invariant token == Strtok(line, cursor)
      invariant |args| <= |Tokens(line)|
      invariant forall i :: 0 <= i < |args| ==> args[i] == Some(Tokens(line)[i])
      invariant Tokens(line)[|args|..] == Tokens(line[cursor..])
      decreases |line| - cursor
    {
      StrtokTokens(line, cursor);
      ghost var pending := Tokens(line)[|args|..];
      assert pending == [token.value.token] + Tokens(line[token.value.next..]);
      assert Tokens(line)[|args|] == pending[0];
      assert Tokens(line)[|args| + 1..] == pending[1..];
      args := args + [Some(token.value.token)];
      cursor := token.value.next;
      token := Strtok(line, cursor);
    }
    StrtokTokens(line, cursor);
    assert |args| == |Tokens(line)|;
    args := args + [None];
  }

  // ---------------------------------------------------------------------
  // Lemmas
  // ---------------------------------------------------------------------

  /** Delimiters in front of a line do not change its tokens. */
  lemma {:induction false} TokensSkipDelims(s: string, i: nat, j: nat)
    requires i <= j <= |s|
    requires forall k :: i <= k < j ==> s[k] == Delim
    ensures Tokens(s[i..]) == Tokens(s[j..])
    decreases j - i
  {
    if i < j {
      assert s[i..][1..] == s[i + 1..];
      TokensSkipDelims(s, i + 1, j);
    }
  }

  /** A line whose suffix from `start` begins with a token of `TokenEnd(s, start) - start` characters. */
  lemma TokensAtRun(s: string, start: nat)
    requires start < |s| && s[start] != Delim
    ensures Tokens(s[start..]) == [s[start..TokenEnd(s, start)]] + Tokens(s[TokenEnd(s, start)..])
  {
    var end := TokenEnd(s, start);
    var t := s[start..];
    var n := RunLength(t);
    assert n == end - start;
    assert t[..n] == s[start..end];
    assert t[n..] == s[end..];
  }

  /** Each `strtok` call yields the next token of the reference definition. */
  lemma StrtokTokens(s: string, cursor: nat)
    requires cursor <= |s|
    ensures Strtok(s, cursor).None? ==> Tokens(s[cursor..]) == []
    ensures Strtok(s, cursor).Some? ==>
      Tokens(s[cursor..]) == [Strtok(s, cursor).value.token] + Tokens(s[Strtok(s, cursor).value.next..])
  {
    var start := SkipDelims(s, cursor);
    TokensSkipDelims(s, cursor, start);
    if start < |s| {
      var end := TokenEnd(s, start);
      TokensAtRun(s, start);
      if end < |s| {
        TokensSkipDelims(s, end, end + 1);
      }
    }
  }

  /** A word followed by at least one delimiter (or by nothing) is one token. */
  lemma TokensCons(w: string, gap: nat, rest: string)
    requires IsWord(w)
    requires gap > 0 || rest == []
    ensures Tokens(w + Spaces(gap) + rest) == [w] + Tokens(rest)
  {
    var s := w + Spaces(gap) + rest;
    var n := RunLength(s);
    assert forall k :: 0 <= k < |w| ==> s[k] == w[k];
    if gap > 0 {
      assert s[|w|] == Spaces(gap)[0];
    } else {
      assert s == w;
    }
    assert n == |w|;
    assert s[..n] == w;
    assert s[n..] == Spaces(gap) + rest;
    TokensSkipDelims(s, n, n + gap);
    assert s[n + gap..] == rest;
  }

  /** The line `ws[0] + Spaces(gaps[0]) + ws[1] + … + ws[n-1] + Spaces(gaps[n-1])`. */
  function Spaced(ws: seq<string>, gaps: seq<nat>): string
    requires |gaps| == |ws|
  {
    if ws == [] then [] else ws[0] + Spaces(gaps[0]) + Spaced(ws[1..], gaps[1..])
  }

  /** Consecutive words are separated by at least one delimiter. */
  predicate Separated(gaps: seq<nat>)
  {
    forall i :: 0 <= i < |gaps| - 1 ==> gaps[i] > 0
  }

  /**
   * Any words laid out with any number of leading delimiters and at
   * least one delimiter between neighbours tokenize back to those words.
   */
  lemma {:induction false} TokensOfSpaced(lead: nat, ws: seq<string>, gaps: seq<nat>)
    requires AreWords(ws) && |gaps| == |ws| && Separated(gaps)
    ensures Tokens(Spaces(lead) + Spaced(ws, gaps)) == ws
    decreases |ws|
  {
    var s := Spaces(lead) + Spaced(ws, gaps);
    TokensSkipDelims(s, 0, lead);
    assert s[0..] == s;
    assert s[lead..] == Spaced(ws, gaps);
    if ws != [] {
      var rest := Spaced(ws[1..], gaps[1..]);
      assert |ws| == 1 ==> rest == [];
      TokensCons(ws[0], gaps[0], rest);
      TokensOfSpaced(0, ws[1..], gaps[1..]);
      assert Spaces(0) + rest == rest;
    }
  }

  /** A layout of words begins with the first word's first character. */
  lemma SpacedHead(ws: seq<string>, gaps: seq<nat>)
    requires AreWords(ws) && |gaps| == |ws| && ws != []
    ensures |Spaced(ws, gaps)| > 0 && Spaced(ws, gaps)[0] == ws[0][0]
  {
  }

  /**
   * Every line is its own tokens laid out with leading delimiters and at
   * least one delimiter between neighbouring tokens: the tokens are
   * exactly the maximal runs of non-delimiters.
   */
  lemma {:induction false} SpacedOfTokens(s: string) returns (lead: nat, gaps: seq<nat>)
    ensures |gaps| == |Tokens(s)| && Separated(gaps)
    ensures s == Spaces(lead) + Spaced(Tokens(s), gaps)
    decreases |s|
  {
    if s == [] {
      lead, gaps := 0, [];
    } else if s[0] == Delim {
      var l, g := SpacedOfTokens(s[1..]);
      lead, gaps := l + 1, g;
      assert s == [Delim] + s[1..];
      assert Spaces(l + 1) == [Delim] + Spaces(l);
    } else {
      var n := RunLength(s);
      var l, g := SpacedOfTokens(s[n..]);
      var rest := Tokens(s[n..]);
      if rest != [] {
        SpacedHead(rest, g);
        assert s[n..] != [];
        assert l > 0;
      }
      lead, gaps := 0, [l] + g;
      assert ([s[..n]] + rest)[1..] == rest;
      assert s == s[..n] + s[n..];
    }
  }

  /** A line with no leading, trailing or doubled delimiter. */
  predicate IsSingleSpaced(s: string)
  {
    s == [] ||
    (s[0] != Delim && s[|s| - 1] != Delim &&
     forall k :: 0 <= k < |s| - 1 ==> s[k] != Delim || s[k + 1] != Delim)
  }

  /** Round trip: joining the tokens of a single-spaced line gives the line. */
  lemma {:induction false} JoinOfTokens(s: string)
    requires IsSingleSpaced(s)
    ensures Join(Tokens(s)) == s
    decreases |s|
  {
    if s != [] {
      var n := RunLength(s);
      if n < |s| {
        assert n + 1 < |s|;
        assert s[n + 1] != Delim;
        var t := s[n + 1..];
        TokensSkipDelims(s, n, n + 1);
        assert IsSingleSpaced(t) by {
          forall k | 0 <= k < |t| - 1
            ensures t[k] != Delim || t[k + 1] != Delim
          {
            assert t[k] == s[n + 1 + k] && t[k + 1] == s[n + 2 + k];
          }
        }
        JoinOfTokens(t);
        assert Tokens(t) != [];
        assert s == s[..n] + [Delim] + t;
      }
    }
  }

  /** Round trip: the tokens of joined words are those words. */
  lemma {:induction false} TokensOfJoin(ws: seq<string>)
    requires AreWords(ws)
    ensures Tokens(Join(ws)) == ws
    decreases |ws|
  {
    if |ws| == 1 {
      TokensCons(ws[0], 0, []);
      assert ws[0] + Spaces(0) + [] == ws[0];
    } else if |ws| > 1 {
      TokensCons(ws[0], 1, Join(ws[1..]));
      TokensOfJoin(ws[1..]);
      assert Spaces(1) == [Delim];
    }
  }

  /** A line has no token exactly when it is made only of delimiters. */
  lemma {:induction false} TokensEmptyIffBlank(s: string)
    ensures Tokens(s) == [] <==> forall k :: 0 <= k < |s| ==> s[k] == Delim
  {
    StrtokTokens(s, 0);
    assert s[0..] == s;
  }

  /** Appending a word to a non-empty list adds one delimiter and the word. */
  lemma {:induction false} JoinSnoc(ws: seq<string>, w: string)
    requires |ws| > 0
    ensures Join(ws + [w]) == Join(ws) + [Delim] + w
    decreases |ws|
  {
    if |ws| > 1 {
      assert (ws + [w])[1..] == ws[1..] + [w];
      JoinSnoc(ws[1..], w);
    }
  }
}
