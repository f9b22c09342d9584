/** Case-insensitive word search and replacement over byte offsets: a plain specification on
    characters, and the lazily allocating loops that refine it. */
module WordMatch {
  import opened Wrappers
  import opened CharText
  import opened Sequences

  // ----- occurrences -----

  predicate OccursAt(h: string, n: string, i: nat)
  {
    i + |n| <= |h| && h[i..i + |n|] == n
  }

  /** Neither neighbour of h[i..j] is a word character. */
  predicate Bounded(t: Tables, h: string, i: nat, j: nat)
    requires i <= j <= |h|
  {
    (i == 0 || !t.isWord(h[i - 1])) && (j == |h| || !t.isWord(h[j]))
  }

  predicate WordAt(t: Tables, h: string, n: string, i: nat)
  {
    OccursAt(h, n, i) && Bounded(t, h, i, i + |n|)
  }

  /** Between `a` and `b` stands a word of its own. */
  predicate Apart(t: Tables, a: string, b: string)
  {
    && (a == "" || !t.isWord(a[|a| - 1]))
    && (b == "" || !t.isWord(b[0]))
  }

  /** An occurrence counts exactly when the text is cut by it into parts that end and begin outside a word. */
  lemma WordStandsApart(t: Tables, h: string, n: string, i: nat)
    ensures WordAt(t, h, n, i) <==> exists a, b :: h == a + n + b && |a| == i && Apart(t, a, b)
  {
    if WordAt(t, h, n, i) {
      var a, b := h[..i], h[i + |n|..];
      Cut(h, 0, i, i + |n|);
      Cut(h, 0, i + |n|, |h|);
      assert h == a + n + b && |a| == i && Apart(t, a, b);
    }
    if a, b :| h == a + n + b && |a| == i && Apart(t, a, b) {
      Middle(a, n, b);
      assert i > 0 ==> h[i - 1] == a[i - 1];
      assert b != "" ==> h[i + |n|] == b[0];
    }
  }

  /** The leftmost occurrence at or after character `from`. */
  function FindFrom(h: string, n: string, from: nat): (r: Option<nat>)
    ensures r.Some? ==> from <= r.value && OccursAt(h, n, r.value)
    decreases |h| - from
  {
    if |h| < from + |n| then None
    else if OccursAt(h, n, from) then Some(from)
    else if from == |h| then None
    else FindFrom(h, n, from + 1)
  }

  lemma {:induction false} FoundIsLeftmost(h: string, n: string, from: nat)
    ensures forall i :: from <= i && (FindFrom(h, n, from).Some? ==> i < FindFrom(h, n, from).value) ==>
              !OccursAt(h, n, i)
    decreases |h| - from
  {
    if from + |n| <= |h| && !OccursAt(h, n, from) && from < |h| {
      FoundIsLeftmost(h, n, from + 1);
    }
  }

  // ----- leftmost non-overlapping matches -----

  function Matches(t: Tables, h: string, n: string, from: nat): seq<nat>
    requires n != ""
    decreases |h| - from
  {
    if |h| < from + |n| then []
    else if WordAt(t, h, n, from) then [from] + Matches(t, h, n, from + |n|)
    else Matches(t, h, n, from + 1)
  }

  /** Starts in order, `len` apart at least, all within `size` characters. */
  predicate Chain(ms: seq<nat>, from: nat, len: nat, size: nat)
  {
    ms == [] || (from <= ms[0] && ms[0] + len <= size && Chain(ms[1..], ms[0] + len, len, size))
  }

  /** Character `i` lies in one of the `len`-character spans. */
  predicate Within(ms: seq<nat>, len: nat, i: nat)
  {
    ms != [] && (ms[0] <= i < ms[0] + len || Within(ms[1..], len, i))
  }

  /** What the replacement promises to hit: non-overlapping words, and every word left out starts
      inside one that was taken. */
  ghost predicate LeftmostWords(t: Tables, h: string, n: string, from: nat, ms: seq<nat>)
  {
    && Chain(ms, from, |n|, |h|)
    && (forall m :: m in ms ==> WordAt(t, h, n, m))
    && (forall i :: from <= i && WordAt(t, h, n, i) ==> Within(ms, |n|, i))
  }

  lemma {:induction false} MatchesAreLeftmost(t: Tables, h: string, n: string, from: nat)
    requires n != ""
    ensures LeftmostWords(t, h, n, from, Matches(t, h, n, from))
    decreases |h| - from
  {
    if |h| < from + |n| {
    } else if WordAt(t, h, n, from) {
      MatchesAreLeftmost(t, h, n, from + |n|);
      assert Matches(t, h, n, from)[1..] == Matches(t, h, n, from + |n|);
    } else {
      MatchesAreLeftmost(t, h, n, from + 1);
    }
  }

  lemma {:induction false} ChainStart(ms: seq<nat>, from: nat, len: nat, size: nat)
    requires Chain(ms, from, len, size)
    ensures forall m :: m in ms ==> from <= m && m + len <= size
  {
    if ms == [] {
    } else {
      ChainStart(ms[1..], ms[0] + len, len, size);
      assert forall m :: m in ms ==> m == ms[0] || m in ms[1..];
    }
  }

  lemma {:induction false} WithinAfter(ms: seq<nat>, from: nat, len: nat, size: nat, i: nat)
    requires Chain(ms, from, len, size) && Within(ms, len, i)
    ensures from <= i
  {
    if !(ms[0] <= i < ms[0] + len) {
      WithinAfter(ms[1..], ms[0] + len, len, size, i);
    }
  }

  lemma LeftmostTail(t: Tables, h: string, n: string, from: nat, ms: seq<nat>)
    requires n != "" && LeftmostWords(t, h, n, from, ms) && WordAt(t, h, n, from)
    ensures ms != [] && ms[0] == from && LeftmostWords(t, h, n, from + |n|, ms[1..])
  {
    if ms[0] != from {
      WithinAfter(ms[1..], ms[0] + |n|, |n|, |h|, from);
    }
  }

  lemma LeftmostSkip(t: Tables, h: string, n: string, from: nat, ms: seq<nat>)
    requires n != "" && LeftmostWords(t, h, n, from, ms) && !WordAt(t, h, n, from)
    ensures LeftmostWords(t, h, n, from + 1, ms)
  {
    ChainStart(ms, from, |n|, |h|);
    if ms != [] { assert ms[0] in ms && ms[0] != from; }
  }

  /** The property pins the matches down: there is one such sequence. */
  lemma {:induction false} LeftmostIsUnique(t: Tables, h: string, n: string, from: nat, ms: seq<nat>)
    requires n != "" && LeftmostWords(t, h, n, from, ms)
    ensures ms == Matches(t, h, n, from)
    decreases |h| - from
  {
    if |h| < from + |n| {
    } else if WordAt(t, h, n, from) {
      LeftmostTail(t, h, n, from, ms);
      LeftmostIsUnique(t, h, n, from + |n|, ms[1..]);
      assert ms == [ms[0]] + ms[1..];
    } else {
      LeftmostSkip(t, h, n, from, ms);
      LeftmostIsUnique(t, h, n, from + 1, ms);
    }
  }

  /** Some word matches exactly when some bounded occurrence exists. */
  lemma SomeMatch(t: Tables, h: string, n: string)
    requires n != ""
    ensures Matches(t, h, n, 0) != [] <==> exists i :: WordAt(t, h, n, i)
  {
    MatchesAreLeftmost(t, h, n, 0);
    if Matches(t, h, n, 0) != [] {
      assert Matches(t, h, n, 0)[0] in Matches(t, h, n, 0);
    }
  }

  lemma {:induction false} MatchesSkip(t: Tables, h: string, n: string, from: nat, to: nat)
    requires n != "" && from <= to && forall i :: from <= i < to ==> !WordAt(t, h, n, i)
    ensures Matches(t, h, n, from) == Matches(t, h, n, to)
    decreases |h| - from
  {
    if from < to && from + |n| <= |h| {
      MatchesSkip(t, h, n, from + 1, to);
    }
  }

  // ----- splicing -----

  /** `text[pos..]` with each `len`-character span that starts at a match replaced by `canonical`. */
  function Splice(text: string, ms: seq<nat>, len: nat, canonical: string, pos: nat): string
    requires pos <= |text| && Chain(ms, pos, len, |text|)
  {
    if ms == [] then text[pos..]
    else text[pos..ms[0]] + canonical + Splice(text, ms[1..], len, canonical, ms[0] + len)
  }

  /** The plain specification of the replacement on aligned text. */
  function Replaced(t: Tables, text: string, key: string, canonical: string): string
    requires Aligned(t, text)
  {
    if key == "" then text
    else
      AlignedOffsets(t, text, 0);
      MatchesAreLeftmost(t, Lower(t, text), key, 0);
      Splice(text, Matches(t, Lower(t, text), key, 0), |key|, canonical, 0)
  }

  /** Replacing a span by itself changes nothing, so its start may stay in the pending prefix. */
  lemma SpliceKeeps(text: string, ms: seq<nat>, len: nat, canonical: string, pos: nat)
    requires pos <= |text| && Chain(ms, pos, len, |text|) && ms != []
    requires text[ms[0]..ms[0] + len] == canonical
    ensures Chain(ms[1..], pos, len, |text|)
    ensures Splice(text, ms, len, canonical, pos) == Splice(text, ms[1..], len, canonical, pos)
  {
    var m, tail := ms[0], Splice(text, ms[1..], len, canonical, ms[0] + len);
    Cut(text, pos, m, m + len);
    assert text[pos..m + len] == text[pos..m] + canonical;
    assert Splice(text, ms, len, canonical, pos) == text[pos..m + len] + tail;
    SpliceLater(text, ms[1..], len, canonical, pos, m + len);
  }

  /** Text before the first match is copied. */
  lemma SpliceLater(text: string, ms: seq<nat>, len: nat, canonical: string, pos: nat, q: nat)
    requires pos <= q <= |text| && Chain(ms, q, len, |text|)
    ensures Chain(ms, pos, len, |text|)
    ensures Splice(text, ms, len, canonical, pos) == text[pos..q] + Splice(text, ms, len, canonical, q)
  {
    if ms == [] {
      Cut(text, pos, q, |text|);
    } else {
      Cut(text, pos, q, ms[0]);
      Regroup(text[pos..q], text[q..ms[0]], canonical, Splice(text, ms[1..], len, canonical, ms[0] + len));
    }
  }

  lemma Regroup(a: string, b: string, c: string, d: string)
    ensures a + (b + c + d) == a + b + c + d
  {
  }

  lemma {:induction false} SpliceLength(text: string, ms: seq<nat>, len: nat, canonical: string, pos: nat)
    requires pos <= |text| && Chain(ms, pos, len, |text|)
    ensures |canonical| == len ==> |Splice(text, ms, len, canonical, pos)| == |text| - pos
    ensures |canonical| < len ==> |Splice(text, ms, len, canonical, pos)| <= |text| - pos - |ms|
    ensures |canonical| > len ==> |Splice(text, ms, len, canonical, pos)| >= |text| - pos + |ms|
  {
    if ms == [] {
    } else {
      SpliceLength(text, ms[1..], len, canonical, ms[0] + len);
    }
  }

  lemma SpliceParts(text: string, ms: seq<nat>, len: nat, canonical: string, pos: nat)
    requires pos <= |text| && Chain(ms, pos, len, |text|) && ms != [] && |canonical| == len
    ensures var m, out := ms[0], Splice(text, ms, len, canonical, pos);
            && |out| == |text| - pos
            && out[m - pos..m - pos + len] == canonical
            && out[m - pos + len..] == Splice(text, ms[1..], len, canonical, m + len)
  {
    SpliceLength(text, ms[1..], len, canonical, ms[0] + len);
    Middle(text[pos..ms[0]], canonical, Splice(text, ms[1..], len, canonical, ms[0] + len));
  }

  lemma SliceOfTail(text: string, pos: nat, i: nat, j: nat)
    requires pos <= i <= j <= |text|
    ensures text[pos..][i - pos..j - pos] == text[i..j]
  {
  }

  /** A first span that differs from the canonical name makes the result differ, whatever the lengths. */
  lemma SpliceDiffers(text: string, ms: seq<nat>, len: nat, canonical: string, pos: nat)
    requires pos <= |text| && Chain(ms, pos, len, |text|) && ms != []
    requires text[ms[0]..ms[0] + len] != canonical
    ensures Splice(text, ms, len, canonical, pos) != text[pos..]
  {
    if |canonical| != len {
      SpliceLength(text, ms, len, canonical, pos);
    } else {
      var m := ms[0];
      SpliceParts(text, ms, len, canonical, pos);
      SliceOfTail(text, pos, m, m + len);
    }
  }

  // ----- the byte-offset tests of the loops -----

  /** An occurrence ends `needle.len()` bytes after it starts. */
  lemma SpanOffsets(h: string, n: string, i: nat)
    requires OccursAt(h, n, i)
    ensures Offset(h, i) + ByteLen(n) == Offset(h, i + |n|)
  {
    forall x | 0 <= x < |n| ensures h[i + x] == n[x] {
      assert h[i..i + |n|][x] == n[x];
    }
    StretchOffset(h, i, n, |n|);
  }

  /** The first hit is where the matches go on: taken when it is bounded, stepped over when not. */
  lemma MatchesFromHit(t: Tables, h: string, n: string, from: nat)
    requires n != "" && from <= |h|
    ensures FindFrom(h, n, from).None? ==> Matches(t, h, n, from) == []
    ensures FindFrom(h, n, from).Some? ==>
              var i := FindFrom(h, n, from).value;
              Matches(t, h, n, from) ==
                if WordAt(t, h, n, i) then [i] + Matches(t, h, n, i + |n|) else Matches(t, h, n, i + 1)
  {
    FoundIsLeftmost(h, n, from);
    match FindFrom(h, n, from) {
      case None => MatchesSkip(t, h, n, from, |h| + 1);
      case Some(i) => MatchesSkip(t, h, n, from, i);
    }
  }

  /** The matches still to come from character `from` on. */
  ghost function Todo(t: Tables, h: string, n: string, from: nat): seq<nat>
    requires n != ""
  {
    Matches(t, h, n, from)
  }

  /** Where the search stands: no occurrence left, or the leftmost one starts at character `at`, byte
      `hit`, and the matches go on from there. */
  ghost predicate Standing(t: Tables, h: string, n: string, from: nat, hit: Option<nat>, at: nat)
    requires n != ""
  {
    match hit
    case None => Todo(t, h, n, from) == []
    case Some(abs) =>
      && from <= at && at + |n| <= |h|
      && abs == Offset(h, at) && abs + ByteLen(n) == Offset(h, at + |n|)
      && Todo(t, h, n, from) ==
           if Bounded(t, h, at, at + |n|) then [at] + Todo(t, h, n, at + |n|) else Todo(t, h, n, at + 1)
  }

  lemma StandingAt(t: Tables, h: string, n: string, from: nat, i: nat)
    requires n != "" && from <= |h| && FindFrom(h, n, from) == Some(i)
    ensures Standing(t, h, n, from, Some(Offset(h, i)), i)
  {
    MatchesFromHit(t, h, n, from);
    SpanOffsets(h, n, i);
  }

  /** `hay[start..].find(needle)`, plus `start`. */
  method Find(t: Tables, h: string, n: string, start: nat, ghost from: nat) returns (hit: Option<nat>, ghost at: nat)
    requires n != "" && from <= |h| && start == Offset(h, from)
    ensures Standing(t, h, n, from, hit, at)
  {
    IndexOfOffset(h, from);
    var index := Index(h, start);
    var first := FindFrom(h, n, index);
    match first {
      case None =>
        hit, at := None, 0;
        MatchesFromHit(t, h, n, from);
      case Some(i) =>
        hit, at := Some(Offset(h, i)), i;
        StandingAt(t, h, n, from, i);
    }
  }

  /** The two neighbour tests, on the slices before and after the span. */
  method NeighboursAllow(t: Tables, h: string, abs: nat, end: nat, ghost i: nat, ghost j: nat) returns (ok: bool)
    requires i <= j <= |h| && abs == Offset(h, i) && end == Offset(h, j)
    ensures ok == Bounded(t, h, i, j)
  {
    SliceAt(h, 0, i);
    SliceAt(h, j, |h|);
    var before, after := Slice(h, 0, abs), Slice(h, end, ByteLen(h));
    var beforeOk := before == "" || !t.isWord(before[|before| - 1]);
    var afterOk := after == "" || !t.isWord(after[0]);
    ok := beforeOk && afterOk;
  }

  /** Steps over the character that starts at byte `abs`. */
  method NextStart(h: string, abs: nat, ghost i: nat) returns (next: nat)
    requires i < |h| && abs == Offset(h, i)
    ensures next == Offset(h, i + 1)
  {
    SliceAt(h, i, |h|);
    var here := Slice(h, abs, ByteLen(h));
    next := abs + Width(here[0]);
  }

  method SearchWord(t: Tables, textLc: string, needle: string) returns (found: bool)
    requires needle != ""
    ensures found <==> Matches(t, textLc, needle, 0) != []
  {
    var start := 0;
    ghost var from: nat := 0;
    var hit;
    ghost var at: nat;
    hit, at := Find(t, textLc, needle, start, from);
    while hit.Some?
      invariant Matches(t, textLc, needle, 0) == Matches(t, textLc, needle, from) && from <= |textLc|
      invariant Standing(t, textLc, needle, from, hit, at)
      decreases |textLc| - from
    {
      var abs := hit.value;
      var end := abs + ByteLen(needle);
      var ok := NeighboursAllow(t, textLc, abs, end, at, at + |needle|);
      if ok {
        return true;
      }
      start := NextStart(textLc, abs, at);
      from := at + 1;
      hit, at := Find(t, textLc, needle, start, from);
    }
    return false;
  }

  /** `word_boundary_contains_in_lowercased`: some bounded occurrence exists. */
  method ContainsWord(t: Tables, textLc: string, needle: string) returns (found: bool)
    ensures found <==> needle != "" && exists i :: WordAt(t, textLc, needle, i)
  {
    if needle == "" {
      return false;
    }
    found := SearchWord(t, textLc, needle);
    SomeMatch(t, textLc, needle);
  }

  // ----- the lazy replacement -----

  /** What is left to write, from character `cur` on, while the search stands at character `from`. */
  ghost function Rest(t: Tables, text: string, key: string, canonical: string, from: nat, cur: nat): string
    requires Aligned(t, text) && key != "" && cur <= from <= |text|
  {
    AlignedOffsets(t, text, 0);
    MatchesAreLeftmost(t, Lower(t, text), key, from);
    ChainFrom(Matches(t, Lower(t, text), key, from), cur, from, |key|, |text|);
    Splice(text, Matches(t, Lower(t, text), key, from), |key|, canonical, cur)
  }

  lemma ChainFrom(ms: seq<nat>, lower: nat, from: nat, len: nat, size: nat)
    requires lower <= from && Chain(ms, from, len, size)
    ensures Chain(ms, lower, len, size)
  {
  }

  /** Replacing the hit at `i`: the output so far grows by the gap and the canonical name. */
  lemma RestTaken(t: Tables, text: string, key: string, canonical: string, from: nat, cur: nat, i: nat)
    requires Aligned(t, text) && key != "" && cur <= from <= i && i + |key| <= |text|
    requires Matches(t, Lower(t, text), key, from) == [i] + Matches(t, Lower(t, text), key, i + |key|)
    ensures Rest(t, text, key, canonical, from, cur) ==
            text[cur..i] + canonical + Rest(t, text, key, canonical, i + |key|, i + |key|)
    ensures text[i..i + |key|] == canonical ==>
              Rest(t, text, key, canonical, from, cur) == Rest(t, text, key, canonical, i + |key|, cur)
    ensures text[i..i + |key|] != canonical ==>
              Rest(t, text, key, canonical, from, cur) != text[cur..]
  {
    AlignedOffsets(t, text, 0);
    var ms := Matches(t, Lower(t, text), key, from);
    MatchesAreLeftmost(t, Lower(t, text), key, from);
    ChainFrom(ms, cur, from, |key|, |text|);
    assert ms[1..] == Matches(t, Lower(t, text), key, i + |key|);
    if text[i..i + |key|] == canonical {
      SpliceKeeps(text, ms, |key|, canonical, cur);
    } else {
      SpliceDiffers(text, ms, |key|, canonical, cur);
    }
  }

  /** A bounded hit at bytes abs..end: the buffer is first allocated when a span really changes. */
  method TakeHit(text: string, canonical: string, out: Option<string>, cursor: nat, abs: nat, end: nat,
                 ghost cur: nat, ghost i: nat, ghost j: nat)
    returns (out': Option<string>, cursor': nat, ghost cur': nat)
    requires cur <= i <= j <= |text|
    requires cursor == Offset(text, cur) && abs == Offset(text, i) && end == Offset(text, j)
    ensures cur' == if out'.None? then cur else j
    ensures cursor' == Offset(text, cur')
    ensures text[i..j] == canonical && out.None? ==> out' == None
    ensures text[i..j] != canonical || out.Some? ==>
              out' == Some((if out.Some? then out.value else "") + text[cur..i] + canonical)
  {
    SliceAt(text, i, j);
    SliceAt(text, cur, i);
    SliceAt(text, cur, j);
    var span := Slice(text, abs, end);
    if span != canonical {
      var buf := if out.Some? then out.value else "";
      buf := buf + Slice(text, cursor, abs);
      buf := buf + canonical;
      out', cursor', cur' := Some(buf), end, j;
    } else if out.Some? {
      assert text[cur..j] == text[cur..i] + text[i..j];
      out', cursor', cur' := Some(out.value + Slice(text, cursor, end)), end, j;
      assert out'.value == out.value + text[cur..i] + canonical;
    } else {
      out', cursor', cur' := None, cursor, cur;
    }
  }

  /** Output so far plus the rest is the plain replacement, and an allocated output means a change. */
  ghost predicate OnTrack(t: Tables, text: string, key: string, canonical: string, out: Option<string>,
                          from: nat, cur: nat)
    requires Aligned(t, text) && key != "" && cur <= from <= |text|
  {
    var whole := Rest(t, text, key, canonical, 0, 0);
    && (out.None? ==> cur == 0 && whole == Rest(t, text, key, canonical, from, 0))
    && (out.Some? ==> whole != text && whole == out.value + Rest(t, text, key, canonical, from, cur))
  }

  /** The bookkeeping of a taken hit, on the strings alone. */
  lemma GrowOutput(whole: string, text: string, canonical: string, span: string,
                   out: Option<string>, out': Option<string>,
                   cur: nat, i: nat, rest: string, tail: string, same: string)
    requires cur <= i <= |text|
    requires if out.None? then cur == 0 && whole == rest else whole != text && whole == out.value + rest
    requires rest == text[cur..i] + canonical + tail
    requires span == canonical ==> rest == same
    requires span != canonical ==> rest != text[cur..]
    requires span == canonical && out.None? ==> out' == None
    requires span != canonical || out.Some? ==>
               out' == Some((if out.Some? then out.value else "") + text[cur..i] + canonical)
    ensures if out'.None? then cur == 0 && whole == same else whole != text && whole == out'.value + tail
  {
    if out'.Some? {
      var head := if out.Some? then out.value else "";
      assert out'.value + tail == head + rest;
    }
  }

  lemma TrackPassed(t: Tables, text: string, key: string, canonical: string, out: Option<string>,
                    from: nat, cur: nat, from': nat)
    requires Aligned(t, text) && key != "" && cur <= from <= from' <= |text|
    requires OnTrack(t, text, key, canonical, out, from, cur)
    requires Matches(t, Lower(t, text), key, from) == Matches(t, Lower(t, text), key, from')
    ensures OnTrack(t, text, key, canonical, out, from', cur)
  {
  }

  lemma TrackTaken(t: Tables, text: string, key: string, canonical: string, out: Option<string>,
                   from: nat, cur: nat, i: nat, out': Option<string>)
    requires Aligned(t, text) && key != "" && cur <= from <= |text|
    requires OnTrack(t, text, key, canonical, out, from, cur)
    requires from <= i && i + |key| <= |text|
    requires Matches(t, Lower(t, text), key, from) == [i] + Matches(t, Lower(t, text), key, i + |key|)
    requires text[i..i + |key|] == canonical && out.None? ==> out' == None
    requires text[i..i + |key|] != canonical || out.Some? ==>
               out' == Some((if out.Some? then out.value else "") + text[cur..i] + canonical)
    ensures OnTrack(t, text, key, canonical, out', i + |key|, if out'.None? then cur else i + |key|)
  {
    RestTaken(t, text, key, canonical, from, cur, i);
    GrowOutput(Rest(t, text, key, canonical, 0, 0), text, canonical, text[i..i + |key|], out, out', cur, i,
               Rest(t, text, key, canonical, from, cur),
               Rest(t, text, key, canonical, i + |key|, i + |key|),
               Rest(t, text, key, canonical, i + |key|, cur));
  }

  /** The loop's invariant: byte cursors sit on characters `cur` and `from`, and the output is on track. */
  ghost predicate Scanning(t: Tables, text: string, key: string, canonical: string, out: Option<string>,
                           cursor: nat, searchFrom: nat, cur: nat, from: nat)
    requires Aligned(t, text) && key != ""
  {
    && cur <= from <= |text|
    && cursor == Offset(text, cur) && searchFrom == Offset(text, from)
    && OnTrack(t, text, key, canonical, out, from, cur)
  }

  /** Characters of the two strings start at the same bytes. */
  ghost predicate SameShape(a: string, b: string)
  {
    |a| == |b| && forall i :: 0 <= i <= |a| ==> Offset(a, i) == Offset(b, i)
  }

  lemma LowerSameShape(t: Tables, text: string)
    requires Aligned(t, text)
    ensures SameShape(Lower(t, text), text)
  {
    AlignedOffsets(t, text, 0);
    forall i | 0 <= i <= |text| ensures Offset(Lower(t, text), i) == Offset(text, i) {
      AlignedOffsets(t, text, i);
    }
  }

  /** The search stands at a hit of character `i`, byte `abs`, of which `ok` says whether it is bounded. */
  ghost predicate AtHit(t: Tables, text: string, key: string, from: nat, abs: nat, i: nat, ok: bool)
    requires Aligned(t, text) && key != ""
  {
    && from <= i && i + |key| <= |text|
    && abs == Offset(text, i) && abs + ByteLen(key) == Offset(text, i + |key|)
    && Todo(t, Lower(t, text), key, from) ==
         if ok then [i] + Todo(t, Lower(t, text), key, i + |key|) else Todo(t, Lower(t, text), key, i + 1)
  }

  /** A hit found in the lowercase copy has the same offsets in the text. */
  method WeighHit(t: Tables, text: string, textLc: string, key: string, abs: nat, ghost from: nat, ghost i: nat)
    returns (end: nat, ok: bool)
    requires Aligned(t, text) && textLc == Lower(t, text) && SameShape(textLc, text) && key != ""
    requires Standing(t, textLc, key, from, Some(abs), i)
    ensures AtHit(t, text, key, from, abs, i, ok) && end == Offset(text, i + |key|)
  {
    end := abs + ByteLen(key);
    ok := NeighboursAllow(t, textLc, abs, end, i, i + |key|);
  }

  /** An accepted hit: output and cursor move past it and the search goes on behind it. */
  method AcceptHit(t: Tables, text: string, key: string, canonical: string, out: Option<string>,
                   cursor: nat, abs: nat, end: nat, ghost cur: nat, ghost from: nat, ghost i: nat)
    returns (out': Option<string>, cursor': nat, ghost cur': nat)
    requires Aligned(t, text) && key != "" && cur <= from && AtHit(t, text, key, from, abs, i, true)
    requires cursor == Offset(text, cur) && end == Offset(text, i + |key|)
    requires OnTrack(t, text, key, canonical, out, from, cur)
    ensures Scanning(t, text, key, canonical, out', cursor', end, cur', i + |key|)
  {
    out', cursor', cur' := TakeHit(text, canonical, out, cursor, abs, end, cur, i, i + |key|);
    TrackTaken(t, text, key, canonical, out, from, cur, i, out');
  }

  /** A rejected hit: the search goes on one character behind its start. */
  method PassHit(t: Tables, text: string, textLc: string, key: string, canonical: string, out: Option<string>,
                 cursor: nat, abs: nat, ghost cur: nat, ghost from: nat, ghost i: nat)
    returns (searchFrom': nat)
    requires Aligned(t, text) && textLc == Lower(t, text) && SameShape(textLc, text)
    requires key != "" && cur <= from && AtHit(t, text, key, from, abs, i, false)
    requires cursor == Offset(text, cur) && OnTrack(t, text, key, canonical, out, from, cur)
    ensures Scanning(t, text, key, canonical, out, cursor, searchFrom', cur, i + 1)
  {
    searchFrom' := NextStart(textLc, abs, i);
    TrackPassed(t, text, key, canonical, out, from, cur, i + 1);
  }

  /** One hit of the search loop, at character `i`. */
  method OneHit(t: Tables, text: string, textLc: string, key: string, canonical: string, out: Option<string>,
                cursor: nat, abs: nat, ghost cur: nat, ghost from: nat, ghost i: nat)
    returns (out': Option<string>, cursor': nat, searchFrom': nat, ghost cur': nat, ghost from': nat)
    requires Aligned(t, text) && textLc == Lower(t, text) && SameShape(textLc, text) && key != ""
    requires cur <= from <= |text| && cursor == Offset(text, cur) && OnTrack(t, text, key, canonical, out, from, cur)
    requires Standing(t, textLc, key, from, Some(abs), i)
    ensures Scanning(t, text, key, canonical, out', cursor', searchFrom', cur', from') && from < from'
  {
    var end, ok := WeighHit(t, text, textLc, key, abs, from, i);
    if ok {
      out', cursor', cur' := AcceptHit(t, text, key, canonical, out, cursor, abs, end, cur, from, i);
      searchFrom', from' := end, i + |key|;
    } else {
      searchFrom' := PassHit(t, text, textLc, key, canonical, out, cursor, abs, cur, from, i);
      out', cursor', cur', from' := out, cursor, cur, i + 1;
    }
  }

  /** `replace_word_case_insensitive_with_lc`: None exactly when the plain replacement changes nothing.
      Every slice it takes starts and ends at a character boundary. */
  method ReplaceWord(t: Tables, text: string, textLc: string, key: string, canonical: string)
    returns (r: Option<string>)
    requires Aligned(t, text) && textLc == Lower(t, text)
    ensures r == if Replaced(t, text, key, canonical) == text then None else Some(Replaced(t, text, key, canonical))
  {
    if key == "" {
      return None;
    }
    LowerSameShape(t, text);
    var out: Option<string> := None;
    var cursor, searchFrom := 0, 0;
    ghost var cur: nat, from: nat := 0, 0;
    var hit;
    ghost var at: nat;
    hit, at := Find(t, textLc, key, searchFrom, from);
    while hit.Some?
      invariant Scanning(t, text, key, canonical, out, cursor, searchFrom, cur, from)
      invariant Standing(t, textLc, key, from, hit, at)
      decreases |text| - from
    {
      out, cursor, searchFrom, cur, from :=
        OneHit(t, text, textLc, key, canonical, out, cursor, hit.value, cur, from, at);
      hit, at := Find(t, textLc, key, searchFrom, from);
    }
    assert Rest(t, text, key, canonical, from, cur) == text[cur..];
    assert Replaced(t, text, key, canonical) == Rest(t, text, key, canonical, 0, 0);
    if out.Some? {
      SliceAt(text, cur, |text|);
      assert text[cur..|text|] == text[cur..];
      r := Some(out.value + Slice(text, cursor, ByteLen(text)));
    } else {
      assert text[0..] == text;
      r := None;
    }
  }
}
