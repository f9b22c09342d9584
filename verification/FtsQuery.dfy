/** `fts5_escape`: free text becomes a conjunction of quoted phrases. */
module FtsQuery {
  import opened Wrappers

  /** The leading characters of `s` that are not white space. */
  function WordLength(isSpace: char -> bool, s: string): (n: nat)
    ensures n <= |s|
  {
    if s == "" || isSpace(s[0]) then 0 else 1 + WordLength(isSpace, s[1..])
  }

  function SplitWhitespace(isSpace: char -> bool, s: string): seq<string>
    decreases |s|
  {
    if s == "" then []
    else if isSpace(s[0]) then SplitWhitespace(isSpace, s[1..])
    else
      var n := WordLength(isSpace, s);
      [s[..n]] + SplitWhitespace(isSpace, s[n..])
  }

  /** `tok.replace('"', "\"\"")` */
  function Doubled(tok: string): string
  {
    if tok == "" then "" else (if tok[0] == '"' then "\"\"" else [tok[0]]) + Doubled(tok[1..])
  }

  function Quoted(tok: string): string { "\"" + Doubled(tok) + "\"" }

  /** `tokens.join(" ")` of the quoted tokens. */
  function Joined(tokens: seq<string>): string
    requires tokens != []
  {
    if |tokens| == 1 then Quoted(tokens[0]) else Quoted(tokens[0]) + " " + Joined(tokens[1..])
  }

  function Fts5Escape(isSpace: char -> bool, s: string): string
  {
    var tokens := SplitWhitespace(isSpace, s);
    if tokens == [] then "\"\"" else Joined(tokens)
  }

  // ----- reading a MATCH expression, section 3.1 of the FTS5 documentation -----

  /** The rest of a string after its opening quote: its text and what follows its closing quote. */
  function ReadString(q: string): (r: Option<(string, string)>)
    ensures r.Some? ==> |r.value.1| < |q|
  {
    if q == "" then None
    else if q[0] != '"' then
      match ReadString(q[1..])
      case None => None
      case Some((text, rest)) => Some(([q[0]] + text, rest))
    else if |q| >= 2 && q[1] == '"' then
      match ReadString(q[2..])
      case None => None
      case Some((text, rest)) => Some((['"'] + text, rest))
    else Some(("", q[1..]))
  }

  /** The phrases of an implicit AND; None when anything but quoted strings and blanks occurs, so no
      bareword, operator or column filter does. */
  function ReadPhrases(q: string): Option<seq<string>>
    decreases |q|
  {
    if q == "" then Some([])
    else if q[0] == ' ' then ReadPhrases(q[1..])
    else if q[0] != '"' then None
    else
      match ReadString(q[1..])
      case None => None
      case Some((text, rest)) =>
        match ReadPhrases(rest)
        case None => None
        case Some(more) => Some([text] + more)
  }

  // ----- the tokens are the maximal runs -----

  /** `tokens` are the maximal white-space-free runs of `s`, in order. */
  ghost predicate Runs(isSpace: char -> bool, s: string, tokens: seq<string>)
    decreases |tokens|
  {
    if tokens == [] then forall k :: 0 <= k < |s| ==> isSpace(s[k])
    else exists i: nat, j: nat :: RunAt(isSpace, s, i, j) && tokens[0] == s[i..j] && Runs(isSpace, s[j..], tokens[1..])
  }

  /** The first run of `s` is s[i..j]. */
  ghost predicate RunAt(isSpace: char -> bool, s: string, i: nat, j: nat)
  {
    && i < j <= |s|
    && (forall k :: 0 <= k < i ==> isSpace(s[k]))
    && (forall k :: i <= k < j ==> !isSpace(s[k]))
    && (j < |s| ==> isSpace(s[j]))
  }

  lemma {:induction false} WordIsRun(isSpace: char -> bool, s: string)
    ensures var n := WordLength(isSpace, s);
            (forall k :: 0 <= k < n ==> !isSpace(s[k])) && (n < |s| ==> isSpace(s[n]))
  {
    if s != "" && !isSpace(s[0]) {
      WordIsRun(isSpace, s[1..]);
      var n := WordLength(isSpace, s);
      forall k | 0 <= k < n ensures !isSpace(s[k]) {
        if k > 0 { assert s[k] == s[1..][k - 1]; }
      }
    }
  }

  lemma {:induction false} SplitGivesRuns(isSpace: char -> bool, s: string)
    ensures Runs(isSpace, s, SplitWhitespace(isSpace, s))
    decreases |s|
  {
    if s == "" {
    } else {
      if isSpace(s[0]) {
        SplitGivesRuns(isSpace, s[1..]);
        RunsAfterSpace(isSpace, s, SplitWhitespace(isSpace, s));
      } else {
        var n := WordLength(isSpace, s);
        WordIsRun(isSpace, s);
        SplitGivesRuns(isSpace, s[n..]);
        assert RunAt(isSpace, s, 0, n);
        assert ([s[..n]] + SplitWhitespace(isSpace, s[n..]))[1..] == SplitWhitespace(isSpace, s[n..]);
      }
    }
  }

  lemma RunsAfterSpace(isSpace: char -> bool, s: string, tokens: seq<string>)
    requires s != "" && isSpace(s[0]) && Runs(isSpace, s[1..], tokens)
    ensures Runs(isSpace, s, tokens)
  {
    if tokens == [] {
      forall k | 0 <= k < |s| ensures isSpace(s[k]) {
        if k > 0 { assert s[k] == s[1..][k - 1]; }
      }
    } else {
      var i: nat, j: nat :|
        RunAt(isSpace, s[1..], i, j) && tokens[0] == s[1..][i..j] && Runs(isSpace, s[1..][j..], tokens[1..]);
      assert s[1..][i..j] == s[i + 1..j + 1] && s[1..][j..] == s[j + 1..];
      forall k | 0 <= k <= j && k < |s| - 1 ensures s[1..][k] == s[k + 1] { }
      assert RunAt(isSpace, s, i + 1, j + 1) by {
        forall k | 0 <= k < i + 1 ensures isSpace(s[k]) {
          if k > 0 { assert s[k] == s[1..][k - 1]; }
        }
        forall k | i + 1 <= k < j + 1 ensures !isSpace(s[k]) {
          assert s[k] == s[1..][k - 1];
        }
      }
    }
  }

  lemma OneFirstRun(isSpace: char -> bool, s: string, i: nat, j: nat, i': nat, j': nat)
    requires RunAt(isSpace, s, i, j) && RunAt(isSpace, s, i', j')
    ensures i == i' && j == j'
  {
    assert !isSpace(s[i]) && !isSpace(s[i']);
    assert j < |s| ==> isSpace(s[j]);
    assert j' < |s| ==> isSpace(s[j']);
  }

  lemma {:induction false} RunsAreUnique(isSpace: char -> bool, s: string, a: seq<string>, b: seq<string>)
    requires Runs(isSpace, s, a) && Runs(isSpace, s, b)
    ensures a == b
    decreases |a|
  {
    if a != [] && b != [] {
      var i: nat, j: nat :| RunAt(isSpace, s, i, j) && a[0] == s[i..j] && Runs(isSpace, s[j..], a[1..]);
      var i': nat, j': nat :| RunAt(isSpace, s, i', j') && b[0] == s[i'..j'] && Runs(isSpace, s[j'..], b[1..]);
      OneFirstRun(isSpace, s, i, j, i', j');
      RunsAreUnique(isSpace, s[j..], a[1..], b[1..]);
      assert a == [a[0]] + a[1..] && b == [b[0]] + b[1..];
    } else {
      NoRunInBlank(isSpace, s);
    }
  }

  lemma NoRunInBlank(isSpace: char -> bool, s: string)
    ensures (forall k :: 0 <= k < |s| ==> isSpace(s[k])) ==> forall i: nat, j: nat :: !RunAt(isSpace, s, i, j)
  {
    forall i: nat, j: nat | RunAt(isSpace, s, i, j) ensures exists k :: 0 <= k < |s| && !isSpace(s[k]) {
      assert !isSpace(s[i]);
    }
  }

  /** Splitting is exactly the list of maximal runs. */
  lemma SplitMeansRuns(isSpace: char -> bool, s: string, tokens: seq<string>)
    ensures Runs(isSpace, s, tokens) <==> tokens == SplitWhitespace(isSpace, s)
  {
    SplitGivesRuns(isSpace, s);
    if Runs(isSpace, s, tokens) { RunsAreUnique(isSpace, s, tokens, SplitWhitespace(isSpace, s)); }
  }

  // ----- quoting is undone by reading -----

  lemma {:induction false} StringReadsBack(tok: string, rest: string)
    requires rest == "" || rest[0] != '"'
    ensures ReadString(Doubled(tok) + "\"" + rest) == Some((tok, rest))
  {
    var q := Doubled(tok) + "\"" + rest;
    if tok == "" {
      assert q == "\"" + rest;
      assert q[1..] == rest;
    } else {
      StringReadsBack(tok[1..], rest);
      var inner := Doubled(tok[1..]) + "\"" + rest;
      if tok[0] == '"' {
        assert q == "\"\"" + inner;
        assert q[2..] == inner;
      } else {
        assert q == [tok[0]] + inner;
        assert q[1..] == inner;
      }
      assert tok == [tok[0]] + tok[1..];
    }
  }

  lemma AfterQuote(text: string, more: string)
    ensures ("\"" + text + "\"" + " " + more)[1..] == text + "\"" + (" " + more)
  {
  }

  lemma {:induction false} JoinedReadsBack(tokens: seq<string>)
    requires tokens != []
    ensures ReadPhrases(Joined(tokens)) == Some(tokens)
  {
    var q := Joined(tokens);
    if |tokens| == 1 {
      StringReadsBack(tokens[0], "");
      assert q[1..] == Doubled(tokens[0]) + "\"" + "";
      assert tokens == [tokens[0]] + [];
    } else {
      var rest := " " + Joined(tokens[1..]);
      StringReadsBack(tokens[0], rest);
      AfterQuote(Doubled(tokens[0]), Joined(tokens[1..]));
      JoinedReadsBack(tokens[1..]);
      assert rest[1..] == Joined(tokens[1..]);
      assert tokens == [tokens[0]] + tokens[1..];
    }
  }

  /** What a search for `s` asks for: all of its tokens, or one empty phrase. */
  function Asked(isSpace: char -> bool, s: string): seq<string>
  {
    if SplitWhitespace(isSpace, s) == [] then [""] else SplitWhitespace(isSpace, s)
  }

  /** Whatever the text holds, FTS5 reads back its tokens as literal phrases and nothing else. */
  lemma EscapeReadsBack(isSpace: char -> bool, s: string)
    ensures ReadPhrases(Fts5Escape(isSpace, s)) == Some(Asked(isSpace, s))
  {
    if SplitWhitespace(isSpace, s) == [] {
      JoinedReadsBack([""]);
      assert Joined([""]) == "\"\"";
    } else {
      JoinedReadsBack(SplitWhitespace(isSpace, s));
    }
  }

  lemma {:induction false} TokensAreWords(isSpace: char -> bool, s: string)
    ensures forall tok :: tok in SplitWhitespace(isSpace, s) ==> tok != ""
    decreases |s|
  {
    if s == "" {
    } else {
      TokensAreWords(isSpace, if isSpace(s[0]) then s[1..] else s[WordLength(isSpace, s)..]);
    }
  }

  /** Two texts ask the same question exactly when they have the same tokens. */
  lemma {:induction false} SameQuestion(isSpace: char -> bool, s: string, t: string)
    ensures Fts5Escape(isSpace, s) == Fts5Escape(isSpace, t) <==>
            SplitWhitespace(isSpace, s) == SplitWhitespace(isSpace, t)
  {
    EscapeReadsBack(isSpace, s);
    EscapeReadsBack(isSpace, t);
    TokensAreWords(isSpace, s);
    TokensAreWords(isSpace, t);
    assert "" in [""];
  }
}
