/** The ingest pre-check: block on a shared name, otherwise bring personal names to their canonical
    spelling. The loop caches one lowercase copy; the specification lowercases afresh every time. */
module DedupScan {
  import opened Wrappers
  import opened CharText
  import opened WordMatch

  datatype EntityRef = EntityRef(name: string, nodeType: string, schema: string, normalizedKey: string)

  datatype Catalogue = Catalogue(shared: seq<EntityRef>, personal: seq<EntityRef>)

  datatype PreCheck =
    | BlockedByShared(hit: EntityRef)
    | Rewritten(newText: string, rewrites: seq<EntityRef>)
    | Proceed

  // ----- specification -----

  ghost predicate Mentions(t: Tables, textLc: string, ent: EntityRef)
  {
    ent.normalizedKey != "" && exists i :: WordAt(t, textLc, ent.normalizedKey, i)
  }

  /** The stand-alone replacement: its own guard, its own lowercase copy, never None. */
  function Rewrite(t: Tables, text: string, ent: EntityRef): string
  {
    if Aligned(t, text) then Replaced(t, text, ent.normalizedKey, ent.name) else text
  }

  function RewriteAll(t: Tables, text: string, ents: seq<EntityRef>): string
  {
    if ents == [] then text
    else Rewrite(t, RewriteAll(t, text, ents[..|ents| - 1]), ents[|ents| - 1])
  }

  /** The entries whose turn changed the text. */
  function Changers(t: Tables, text: string, ents: seq<EntityRef>): seq<EntityRef>
  {
    if ents == [] then []
    else
      var n := |ents| - 1;
      var before := RewriteAll(t, text, ents[..n]);
      Changers(t, text, ents[..n]) + if Rewrite(t, before, ents[n]) != before then [ents[n]] else []
  }

  ghost predicate FirstMention(t: Tables, textLc: string, ents: seq<EntityRef>, k: nat)
  {
    k < |ents| && Mentions(t, textLc, ents[k]) && forall j :: 0 <= j < k ==> !Mentions(t, textLc, ents[j])
  }

  ghost predicate NaiveScan(t: Tables, cat: Catalogue, text: string, r: PreCheck)
  {
    if !Aligned(t, text) then r == Proceed
    else if exists k: nat :: FirstMention(t, Lower(t, text), cat.shared, k) then
      r.BlockedByShared? && exists k: nat :: FirstMention(t, Lower(t, text), cat.shared, k) && r.hit == cat.shared[k]
    else
      var changers := Changers(t, text, cat.personal);
      r == if changers == [] then Proceed else Rewritten(RewriteAll(t, text, cat.personal), changers)
  }

  // ----- the loops refine it -----

  lemma OneMore(t: Tables, text: string, ents: seq<EntityRef>, k: nat)
    requires k < |ents|
    ensures RewriteAll(t, text, ents[..k + 1]) == Rewrite(t, RewriteAll(t, text, ents[..k]), ents[k])
    ensures Changers(t, text, ents[..k + 1]) ==
            Changers(t, text, ents[..k]) +
            if Rewrite(t, RewriteAll(t, text, ents[..k]), ents[k]) != RewriteAll(t, text, ents[..k])
            then [ents[k]] else []
  {
    assert ents[..k + 1][..k] == ents[..k];
  }

  lemma RewriteUnaligned(t: Tables, text: string, ent: EntityRef)
    requires !Aligned(t, text)
    ensures Rewrite(t, text, ent) == text
  {
  }

  lemma {:induction false} UnalignedUpTo(t: Tables, text: string, ents: seq<EntityRef>, k: nat, j: nat)
    requires k <= j <= |ents| && !Aligned(t, RewriteAll(t, text, ents[..k]))
    ensures RewriteAll(t, text, ents[..j]) == RewriteAll(t, text, ents[..k])
    ensures Changers(t, text, ents[..j]) == Changers(t, text, ents[..k])
    decreases j
  {
    if k < j {
      UnalignedUpTo(t, text, ents, k, j - 1);
      assert !Aligned(t, RewriteAll(t, text, ents[..j - 1]));
      UnalignedOneMore(t, text, ents, j - 1);
    }
  }

  lemma UnalignedOneMore(t: Tables, text: string, ents: seq<EntityRef>, k: nat)
    requires k < |ents| && !Aligned(t, RewriteAll(t, text, ents[..k]))
    ensures RewriteAll(t, text, ents[..k + 1]) == RewriteAll(t, text, ents[..k])
    ensures Changers(t, text, ents[..k + 1]) == Changers(t, text, ents[..k])
  {
    OneMore(t, text, ents, k);
    RewriteUnaligned(t, RewriteAll(t, text, ents[..k]), ents[k]);
  }

  /** Once the guard fails, no later entry can change the text: the loop may stop. */
  lemma UnalignedStops(t: Tables, text: string, ents: seq<EntityRef>, k: nat)
    requires k <= |ents| && !Aligned(t, RewriteAll(t, text, ents[..k]))
    ensures RewriteAll(t, text, ents) == RewriteAll(t, text, ents[..k])
    ensures Changers(t, text, ents) == Changers(t, text, ents[..k])
  {
    UnalignedUpTo(t, text, ents, k, |ents|);
    assert ents[..|ents|] == ents;
  }

  lemma NoMention(t: Tables, textLc: string, ents: seq<EntityRef>)
    requires forall j :: 0 <= j < |ents| ==> !Mentions(t, textLc, ents[j])
    ensures !exists k: nat :: FirstMention(t, textLc, ents, k)
  {
  }

  /** State of the personal scan after `k` entries. `owned` appears with the first rewrite. */
  ghost predicate Scanned(t: Tables, text: string, ents: seq<EntityRef>, k: nat,
                          owned: Option<string>, rewrites: seq<EntityRef>, lc: string)
    requires k <= |ents|
  {
    var now := RewriteAll(t, text, ents[..k]);
    && now == (if owned.Some? then owned.value else text)
    && rewrites == Changers(t, text, ents[..k])
    && (owned.None? <==> rewrites == [])
    && Aligned(t, now) && lc == Lower(t, now)
  }

  /** The personal half: the lowercase copy is rebuilt only after a rewrite, and the scan stops when a
      canonical name broke the alignment. */
  method RewritePersonal(t: Tables, ents: seq<EntityRef>, text: string, textLc: string)
    returns (owned: Option<string>, rewrites: seq<EntityRef>)
    requires Aligned(t, text) && textLc == Lower(t, text)
    ensures rewrites == Changers(t, text, ents) && (owned.None? <==> rewrites == [])
    ensures owned.Some? ==> owned.value == RewriteAll(t, text, ents)
  {
    owned, rewrites := None, [];
    var currentLc := textLc;
    var k := 0;
    while k < |ents|
      invariant k <= |ents| && Scanned(t, text, ents, k, owned, rewrites, currentLc)
    {
      var ent := ents[k];
      var current := if owned.Some? then owned.value else text;
      var updated := ReplaceWord(t, current, currentLc, ent.normalizedKey, ent.name);
      OneMore(t, text, ents, k);
      k := k + 1;
      if updated.Some? {
        rewrites := rewrites + [ent];
        owned := updated;
        if !Aligned(t, updated.value) {
          UnalignedStops(t, text, ents, k);
          return;
        }
        currentLc := Lower(t, updated.value);
      }
    }
    assert ents[..k] == ents;
  }

  /** `scan_text_with_catalogue`. */
  method ScanText(t: Tables, cat: Catalogue, text: string) returns (r: PreCheck)
    ensures NaiveScan(t, cat, text, r)
  {
    if !Aligned(t, text) {
      return Proceed;
    }
    var textLc := Lower(t, text);
    for k := 0 to |cat.shared|
      invariant forall j :: 0 <= j < k ==> !Mentions(t, textLc, cat.shared[j])
    {
      var found := ContainsWord(t, textLc, cat.shared[k].normalizedKey);
      if found {
        assert FirstMention(t, textLc, cat.shared, k);
        return BlockedByShared(cat.shared[k]);
      }
    }
    NoMention(t, textLc, cat.shared);
    var owned, rewrites := RewritePersonal(t, cat.personal, text, textLc);
    r := if owned.Some? then Rewritten(owned.value, rewrites) else Proceed;
  }

  lemma {:induction false} SomeFirstMention(t: Tables, textLc: string, ents: seq<EntityRef>, k: nat)
    requires k < |ents| && Mentions(t, textLc, ents[k])
    ensures exists j: nat :: FirstMention(t, textLc, ents, j)
  {
    if j: nat :| j < k && Mentions(t, textLc, ents[j]) {
      SomeFirstMention(t, textLc, ents, j);
    } else {
      assert FirstMention(t, textLc, ents, k);
    }
  }

  /** The answer in plain words: text that fails the guard proceeds; a shared name in it blocks, and the
      first such name is reported; else it is rewritten exactly when some personal entry changes it. */
  lemma ScanMeans(t: Tables, cat: Catalogue, text: string, r: PreCheck)
    requires NaiveScan(t, cat, text, r)
    ensures r.BlockedByShared? <==>
              Aligned(t, text) && exists k :: 0 <= k < |cat.shared| && Occurs(t, text, cat.shared[k])
    ensures r.BlockedByShared? ==>
              exists k :: 0 <= k < |cat.shared| && r.hit == cat.shared[k] && Occurs(t, text, r.hit) &&
                forall j :: 0 <= j < k ==> !Occurs(t, text, cat.shared[j])
    ensures r.Rewritten? <==> Aligned(t, text) && !r.BlockedByShared? && Changers(t, text, cat.personal) != []
    ensures r.Rewritten? ==> r.newText == RewriteAll(t, text, cat.personal)
  {
    var lc := Lower(t, text);
    if k :| 0 <= k < |cat.shared| && Occurs(t, text, cat.shared[k]) { SomeFirstMention(t, lc, cat.shared, k); }
    if k: nat :| FirstMention(t, lc, cat.shared, k) && r == BlockedByShared(cat.shared[k]) {
      assert Occurs(t, text, cat.shared[k]);
      assert forall j :: 0 <= j < k ==> !Mentions(t, lc, cat.shared[j]);
    }
  }

  /** The entry's key is not empty and stands in the lowercase text as a word of its own. */
  ghost predicate Occurs(t: Tables, text: string, ent: EntityRef)
  {
    ent.normalizedKey != "" && exists i :: WordAt(t, Lower(t, text), ent.normalizedKey, i)
  }

  // ----- what the rewrite preserves -----

  /** A catalogue name with nothing to trim whose lowercase has the same widths. */
  predicate CleanName(t: Tables, ent: EntityRef)
  {
    Trim(t, ent.name) == ent.name && Aligned(t, ent.name) && ent.normalizedKey == EntityKey(t, ent.name)
  }

  predicate CleanNames(t: Tables, ents: seq<EntityRef>)
  {
    forall i :: 0 <= i < |ents| ==> CleanName(t, ents[i])
  }

  /** The start of the span a covered character lies in. */
  function SpanStart(ms: seq<nat>, len: nat, p: nat): (m: nat)
    requires Within(ms, len, p)
    ensures m in ms && m <= p < m + len
  {
    if ms[0] <= p < ms[0] + len then ms[0] else SpanStart(ms[1..], len, p)
  }

  /** Character by character: matched spans carry the canonical name, the rest is untouched. */
  lemma {:induction false} SpliceChar(text: string, ms: seq<nat>, len: nat, canonical: string, pos: nat, p: nat)
    requires pos <= p < |text| && Chain(ms, pos, len, |text|) && |canonical| == len && 0 < len
    ensures |Splice(text, ms, len, canonical, pos)| == |text| - pos
    ensures Splice(text, ms, len, canonical, pos)[p - pos] ==
            if Within(ms, len, p) then canonical[p - SpanStart(ms, len, p)] else text[p]
  {
    SpliceLength(text, ms, len, canonical, pos);
    if ms == [] {
    } else {
      var m := ms[0];
      if m + len <= p {
        SpliceChar(text, ms[1..], len, canonical, m + len, p);
      } else if p < m {
        if Within(ms[1..], len, p) { WithinAfter(ms[1..], m + len, len, |text|, p); }
      }
    }
  }

  /** One clean rewrite on aligned text, character by character. */
  lemma RewriteChar(t: Tables, text: string, ent: EntityRef, p: nat)
    requires Aligned(t, text) && CleanName(t, ent) && ent.normalizedKey != "" && p < |text|
    ensures |Rewrite(t, text, ent)| == |text| && |ent.name| == |ent.normalizedKey|
    ensures var ms := Matches(t, Lower(t, text), ent.normalizedKey, 0);
            var len := |ent.normalizedKey|;
            && Rewrite(t, text, ent)[p] ==
                 (if Within(ms, len, p) && p - SpanStart(ms, len, p) < |ent.name|
                  then ent.name[p - SpanStart(ms, len, p)] else text[p])
            && (Within(ms, len, p) ==> OccursAt(Lower(t, text), ent.normalizedKey, SpanStart(ms, len, p)))
  {
    AlignedOffsets(t, text, 0);
    AlignedAt(t, ent.name);
    var ms := Matches(t, Lower(t, text), ent.normalizedKey, 0);
    MatchesAreLeftmost(t, Lower(t, text), ent.normalizedKey, 0);
    SpliceChar(text, ms, |ent.normalizedKey|, ent.name, 0, p);
  }

  lemma RewriteCase(t: Tables, text: string, ent: EntityRef, p: nat)
    requires Aligned(t, text) && CleanName(t, ent) && ent.normalizedKey != "" && p < |text|
    ensures |Rewrite(t, text, ent)| == |text|
    ensures AlignedChar(t, Rewrite(t, text, ent)[p])
    ensures t.lower(Rewrite(t, text, ent)[p])[0] == t.lower(text[p])[0]
  {
    RewriteChar(t, text, ent, p);
    assert AlignedChar(t, text[p]);
    var key := ent.normalizedKey;
    var ms := Matches(t, Lower(t, text), key, 0);
    if Within(ms, |key|, p) {
      CanonicalLowers(t, text, ent, SpanStart(ms, |key|, p), p);
    }
  }

  /** Where the key occurs in the lowercase copy, the canonical name lowers to the same characters. */
  lemma CanonicalLowers(t: Tables, text: string, ent: EntityRef, m: nat, p: nat)
    requires Aligned(t, text) && CleanName(t, ent) && OccursAt(Lower(t, text), ent.normalizedKey, m)
    requires m <= p < m + |ent.normalizedKey| && p < |text|
    ensures p - m < |ent.name| && AlignedChar(t, ent.name[p - m])
    ensures AlignedChar(t, text[p]) && t.lower(ent.name[p - m])[0] == t.lower(text[p])[0]
  {
    AlignedAt(t, text);
    AlignedAt(t, ent.name);
    assert Lower(t, text)[m..m + |ent.normalizedKey|][p - m] == ent.normalizedKey[p - m];
  }

  /** A clean rewrite changes letter case only. */
  lemma RewriteKeepsLower(t: Tables, text: string, ent: EntityRef)
    requires Aligned(t, text) && CleanName(t, ent)
    ensures Aligned(t, Rewrite(t, text, ent)) && Lower(t, Rewrite(t, text, ent)) == Lower(t, text)
  {
    var out := Rewrite(t, text, ent);
    if ent.normalizedKey != "" {
      if text != "" { RewriteCase(t, text, ent, 0); } else { EmptyStays(t, ent); }
      forall p | 0 <= p < |out| ensures AlignedChar(t, out[p]) && t.lower(out[p])[0] == t.lower(text[p])[0] {
        RewriteCase(t, text, ent, p);
      }
      AlignedAt(t, out);
      AlignedAt(t, text);
    }
  }

  lemma EmptyStays(t: Tables, ent: EntityRef)
    ensures Rewrite(t, "", ent) == ""
  {
  }

  lemma {:induction false} RewriteAllKeepsLower(t: Tables, text: string, ents: seq<EntityRef>)
    requires Aligned(t, text) && CleanNames(t, ents)
    ensures Aligned(t, RewriteAll(t, text, ents)) && Lower(t, RewriteAll(t, text, ents)) == Lower(t, text)
  {
    if ents == [] {
    } else {
      var n := |ents| - 1;
      RewriteAllKeepsLower(t, text, ents[..n]);
      RewriteKeepsLower(t, RewriteAll(t, text, ents[..n]), ents[n]);
    }
  }

  // ----- the fold as one overlay -----

  /** One of the entry's matches in the text covers character `p`. Only the lowercase form matters. */
  predicate Covers(t: Tables, text: string, ent: EntityRef, p: nat)
  {
    ent.normalizedKey != "" && Within(Matches(t, Lower(t, text), ent.normalizedKey, 0), |ent.normalizedKey|, p)
  }

  /** The character the entry's name lays over position `p`. */
  function Laid(t: Tables, text: string, ent: EntityRef, p: nat): char
    requires Covers(t, text, ent, p) && CleanName(t, ent)
  {
    AlignedAt(t, ent.name);
    var len := |ent.normalizedKey|;
    ent.name[p - SpanStart(Matches(t, Lower(t, text), ent.normalizedKey, 0), len, p)]
  }

  /** Every match of every entry, found in the original text, laid over it in catalogue order: the
      last entry that covers a character decides it. */
  function Overlay(t: Tables, text: string, ents: seq<EntityRef>, p: nat): char
    requires p < |text| && CleanNames(t, ents)
  {
    if ents == [] then text[p]
    else
      var n := |ents| - 1;
      if Covers(t, text, ents[n], p) then Laid(t, text, ents[n], p) else Overlay(t, text, ents[..n], p)
  }

  /** Rewriting entry by entry is that overlay, although each entry searches what the earlier ones left. */
  lemma {:induction false} FoldIsOverlay(t: Tables, text: string, ents: seq<EntityRef>, p: nat)
    requires Aligned(t, text) && CleanNames(t, ents) && p < |text|
    ensures |RewriteAll(t, text, ents)| == |text| && RewriteAll(t, text, ents)[p] == Overlay(t, text, ents, p)
  {
    if ents == [] {
    } else {
      var n := |ents| - 1;
      FoldIsOverlay(t, text, ents[..n], p);
      RewriteAllKeepsLower(t, text, ents[..n]);
      if ents[n].normalizedKey != "" { RewriteChar(t, RewriteAll(t, text, ents[..n]), ents[n], p); }
    }
  }

  lemma {:induction false} SameLowerSameOverlay(t: Tables, a: string, b: string, ents: seq<EntityRef>, p: nat)
    requires CleanNames(t, ents) && Lower(t, a) == Lower(t, b) && p < |a| && p < |b|
    ensures Overlay(t, a, ents, p) == Overlay(t, b, ents, p) ||
            (Overlay(t, a, ents, p) == a[p] && Overlay(t, b, ents, p) == b[p])
  {
    if ents == [] {
    } else {
      SameLowerSameOverlay(t, a, b, ents[..|ents| - 1], p);
    }
  }

  /** With clean names only, the rewrite keeps the lowercase text, and doing it again changes nothing. */
  lemma CleanOnesSettle(t: Tables, text: string, ents: seq<EntityRef>)
    requires Aligned(t, text) && CleanNames(t, ents)
    ensures var out := RewriteAll(t, text, ents);
            Aligned(t, out) && Lower(t, out) == Lower(t, text) && RewriteAll(t, out, ents) == out
  {
    var out := RewriteAll(t, text, ents);
    RewriteAllKeepsLower(t, text, ents);
    AlignedAt(t, text);
    AlignedAt(t, out);
    RewriteAllKeepsLower(t, out, ents);
    AlignedAt(t, RewriteAll(t, out, ents));
    forall p | 0 <= p < |out| ensures RewriteAll(t, out, ents)[p] == out[p] {
      FoldIsOverlay(t, text, ents, p);
      FoldIsOverlay(t, out, ents, p);
      SameLowerSameOverlay(t, text, out, ents, p);
    }
  }

  // ----- when "Rewritten" is a real change -----

  /** Every key was computed from its name when the entry was made. */
  predicate Keyed(t: Tables, ents: seq<EntityRef>)
  {
    forall i :: 0 <= i < |ents| ==> ents[i].normalizedKey == EntityKey(t, ents[i].name)
  }

  function CleanOnes(t: Tables, ents: seq<EntityRef>): (r: seq<EntityRef>)
    ensures CleanNames(t, r)
  {
    if ents == [] then []
    else
      var n := |ents| - 1;
      CleanOnes(t, ents[..n]) + if CleanName(t, ents[n]) then [ents[n]] else []
  }

  /** Some entry whose name is untrimmed or unaligned occurs in the text. */
  ghost predicate UncleanMention(t: Tables, textLc: string, ents: seq<EntityRef>)
  {
    exists k :: 0 <= k < |ents| && !CleanName(t, ents[k]) && Mentions(t, textLc, ents[k])
  }

  lemma NoMatchNoRewrite(t: Tables, text: string, ent: EntityRef)
    requires Aligned(t, text) && !Mentions(t, Lower(t, text), ent)
    ensures Rewrite(t, text, ent) == text
  {
    if ent.normalizedKey != "" { SomeMatch(t, Lower(t, text), ent.normalizedKey); }
  }

  lemma MentionAtEnd(t: Tables, textLc: string, ents: seq<EntityRef>)
    requires ents != []
    ensures UncleanMention(t, textLc, ents) <==>
            || UncleanMention(t, textLc, ents[..|ents| - 1])
            || (!CleanName(t, ents[|ents| - 1]) && Mentions(t, textLc, ents[|ents| - 1]))
  {
    var n := |ents| - 1;
    if k :| 0 <= k < n && !CleanName(t, ents[..n][k]) && Mentions(t, textLc, ents[..n][k]) {
      assert ents[k] == ents[..n][k];
    }
    if k :| 0 <= k < |ents| && !CleanName(t, ents[k]) && Mentions(t, textLc, ents[k]) {
      assert k < n ==> ents[..n][k] == ents[k];
    }
  }

  lemma CleanAtEnd(t: Tables, text: string, ents: seq<EntityRef>)
    requires ents != []
    ensures var before, last := RewriteAll(t, text, CleanOnes(t, ents[..|ents| - 1])), ents[|ents| - 1];
            RewriteAll(t, text, CleanOnes(t, ents)) == if CleanName(t, last) then Rewrite(t, before, last) else before
  {
    var n := |ents| - 1;
    var front, clean := CleanOnes(t, ents[..n]), CleanOnes(t, ents);
    if CleanName(t, ents[n]) {
      assert clean == front + [ents[n]];
      assert clean[..|clean| - 1] == front;
    } else {
      assert clean == front;
    }
  }

  /** Unclean entries that do not occur in the original text never take part. */
  lemma {:induction false} OnlyCleanOnesWrite(t: Tables, text: string, ents: seq<EntityRef>)
    requires Aligned(t, text) && !UncleanMention(t, Lower(t, text), ents)
    ensures RewriteAll(t, text, ents) == RewriteAll(t, text, CleanOnes(t, ents))
  {
    if ents == [] {
    } else {
      var n := |ents| - 1;
      MentionAtEnd(t, Lower(t, text), ents);
      OnlyCleanOnesWrite(t, text, ents[..n]);
      CleanAtEnd(t, text, ents);
      RewriteAllKeepsLower(t, text, CleanOnes(t, ents[..n]));
      if !CleanName(t, ents[n]) { NoMatchNoRewrite(t, RewriteAll(t, text, ents[..n]), ents[n]); }
    }
  }

  lemma {:induction false} TrimStartShortens(t: Tables, s: string)
    ensures |TrimStart(t, s)| <= |s| && (|TrimStart(t, s)| == |s| ==> TrimStart(t, s) == s)
    ensures Aligned(t, s) ==> Aligned(t, TrimStart(t, s))
  {
    if s != "" && t.isSpace(s[0]) { TrimStartShortens(t, s[1..]); }
  }

  lemma {:induction false} TrimEndShortens(t: Tables, s: string)
    ensures |TrimEnd(t, s)| <= |s| && (|TrimEnd(t, s)| == |s| ==> TrimEnd(t, s) == s)
    ensures Aligned(t, s) ==> Aligned(t, TrimEnd(t, s))
  {
    if s != "" && t.isSpace(s[|s| - 1]) { TrimEndShortens(t, s[..|s| - 1]); }
  }

  /** An aligned name is at least as long as its key, and longer when there was something to trim. */
  lemma KeyNoLonger(t: Tables, ent: EntityRef)
    requires Aligned(t, ent.name) && ent.normalizedKey == EntityKey(t, ent.name)
    ensures |ent.normalizedKey| <= |ent.name| && (|ent.normalizedKey| == |ent.name| ==> CleanName(t, ent))
  {
    TrimStartShortens(t, ent.name);
    TrimEndShortens(t, TrimStart(t, ent.name));
    AlignedAt(t, Trim(t, ent.name));
  }

  lemma AlignedConcat(t: Tables, a: string, b: string)
    ensures Aligned(t, a + b) <==> Aligned(t, a) && Aligned(t, b)
  {
    if Aligned(t, a + b) {
      forall i | 0 <= i < |a| ensures AlignedChar(t, a[i]) { assert (a + b)[i] == a[i]; }
      forall i | 0 <= i < |b| ensures AlignedChar(t, b[i]) { assert (a + b)[|a| + i] == b[i]; }
    }
  }

  /** Splicing into aligned text stays aligned exactly when nothing unaligned is spliced in. */
  lemma {:induction false} SpliceAlignment(t: Tables, text: string, ms: seq<nat>, len: nat, name: string, pos: nat)
    requires Aligned(t, text) && pos <= |text| && Chain(ms, pos, len, |text|)
    ensures Aligned(t, Splice(text, ms, len, name, pos)) <==> ms == [] || Aligned(t, name)
  {
    if ms == [] {
    } else {
      var rest := Splice(text, ms[1..], len, name, ms[0] + len);
      SpliceAlignment(t, text, ms[1..], len, name, ms[0] + len);
      AlignedConcat(t, text[pos..ms[0]], name);
      AlignedConcat(t, text[pos..ms[0]] + name, rest);
    }
  }

  /** Too long, or no longer aligned: either way not the text the scan began with. */
  predicate OutOfShape(t: Tables, text: string, size: nat)
  {
    size < |text| || !Aligned(t, text)
  }

  /** One rewrite never shortens aligned text, unless it breaks the alignment. */
  lemma RewriteGrows(t: Tables, text: string, ent: EntityRef)
    requires Aligned(t, text) && ent.normalizedKey == EntityKey(t, ent.name)
    ensures Aligned(t, Rewrite(t, text, ent)) ==> |text| <= |Rewrite(t, text, ent)|
    ensures !CleanName(t, ent) && Mentions(t, Lower(t, text), ent) ==> OutOfShape(t, Rewrite(t, text, ent), |text|)
  {
    var key := ent.normalizedKey;
    if key != "" {
      var ms := Matches(t, Lower(t, text), key, 0);
      AlignedOffsets(t, text, 0);
      MatchesAreLeftmost(t, Lower(t, text), key, 0);
      SomeMatch(t, Lower(t, text), key);
      SpliceLength(text, ms, |key|, ent.name, 0);
      SpliceAlignment(t, text, ms, |key|, ent.name, 0);
      if Aligned(t, ent.name) { KeyNoLonger(t, ent); } else { SpliceNothing(text, |key|, ent.name); }
    }
  }

  lemma SpliceNothing(text: string, len: nat, canonical: string)
    ensures Splice(text, [], len, canonical, 0) == text
  {
  }

  lemma ShapeStaysBroken(t: Tables, text: string, ent: EntityRef, size: nat)
    requires OutOfShape(t, text, size) && ent.normalizedKey == EntityKey(t, ent.name)
    ensures OutOfShape(t, Rewrite(t, text, ent), size)
  {
    if Aligned(t, text) { RewriteGrows(t, text, ent); }
  }

  lemma FirstUncleanLeavesMark(t: Tables, text: string, before: seq<EntityRef>, ent: EntityRef)
    requires Aligned(t, text) && ent.normalizedKey == EntityKey(t, ent.name)
    requires !UncleanMention(t, Lower(t, text), before)
    requires !CleanName(t, ent) && Mentions(t, Lower(t, text), ent)
    ensures OutOfShape(t, Rewrite(t, RewriteAll(t, text, before), ent), |text|)
  {
    OnlyCleanOnesWrite(t, text, before);
    RewriteAllKeepsLower(t, text, CleanOnes(t, before));
    AlignedAt(t, text);
    AlignedAt(t, RewriteAll(t, text, before));
    RewriteGrows(t, RewriteAll(t, text, before), ent);
  }

  /** An unclean entry that occurs in the original text leaves a mark no later entry removes. */
  lemma {:induction false} UncleanLeavesMark(t: Tables, text: string, ents: seq<EntityRef>)
    requires Aligned(t, text) && Keyed(t, ents) && UncleanMention(t, Lower(t, text), ents)
    ensures OutOfShape(t, RewriteAll(t, text, ents), |text|)
  {
    var n := |ents| - 1;
    MentionAtEnd(t, Lower(t, text), ents);
    if UncleanMention(t, Lower(t, text), ents[..n]) {
      UncleanLeavesMark(t, text, ents[..n]);
      ShapeStaysBroken(t, RewriteAll(t, text, ents[..n]), ents[n], |text|);
    } else {
      FirstUncleanLeavesMark(t, text, ents[..n], ents[n]);
    }
  }

  /** For every catalogue whose keys come from its names: "Rewritten" is a real change exactly when an
      untrimmed or unaligned name occurs in the text, or some character differs from what the last clean
      entry covering it lays there. Both are known before any entry is applied. */
  lemma {:induction false} ChangeIsReal(t: Tables, cat: Catalogue, text: string, r: PreCheck)
    requires Keyed(t, cat.personal) && NaiveScan(t, cat, text, r) && r.Rewritten?
    ensures r.newText != text <==>
            || UncleanMention(t, Lower(t, text), cat.personal)
            || exists p: nat :: p < |text| && Overlay(t, text, CleanOnes(t, cat.personal), p) != text[p]
  {
    if UncleanMention(t, Lower(t, text), cat.personal) {
      UncleanLeavesMark(t, text, cat.personal);
    } else {
      var clean := CleanOnes(t, cat.personal);
      OnlyCleanOnesWrite(t, text, cat.personal);
      RewriteAllKeepsLower(t, text, clean);
      AlignedAt(t, text);
      AlignedAt(t, r.newText);
      forall p: nat | p < |text| ensures r.newText[p] == Overlay(t, text, clean, p) {
        FoldIsOverlay(t, text, clean, p);
      }
    }
  }

  /** The rewrite changes letter case only, exactly when no untrimmed or unaligned name occurs in the text. */
  lemma CaseOnly(t: Tables, text: string, ents: seq<EntityRef>)
    requires Aligned(t, text) && Keyed(t, ents)
    ensures var out := RewriteAll(t, text, ents);
            Aligned(t, out) && Lower(t, out) == Lower(t, text) <==> !UncleanMention(t, Lower(t, text), ents)
  {
    if UncleanMention(t, Lower(t, text), ents) {
      var out := RewriteAll(t, text, ents);
      UncleanLeavesMark(t, text, ents);
      AlignedAt(t, text);
      if Aligned(t, out) { AlignedAt(t, out); }
    } else {
      OnlyCleanOnesWrite(t, text, ents);
      RewriteAllKeepsLower(t, text, CleanOnes(t, ents));
    }
  }

  /** When no untrimmed or unaligned name occurs in the text, rewriting the result again changes nothing. */
  lemma RewriteAllSettles(t: Tables, text: string, ents: seq<EntityRef>)
    requires Aligned(t, text) && !UncleanMention(t, Lower(t, text), ents)
    ensures var out := RewriteAll(t, text, ents);
            Aligned(t, out) && Lower(t, out) == Lower(t, text) && RewriteAll(t, out, ents) == out
  {
    OnlyCleanOnesWrite(t, text, ents);
    CleanOnesSettle(t, text, CleanOnes(t, ents));
    OnlyCleanOnesWrite(t, RewriteAll(t, text, ents), ents);
  }

  /** Scanning the rewritten text again: still not blocked, and if it is "rewritten" the text stands. */
  lemma RescanSettles(t: Tables, cat: Catalogue, text: string, first: PreCheck, second: PreCheck)
    requires !UncleanMention(t, Lower(t, text), cat.personal)
    requires NaiveScan(t, cat, text, first) && first.Rewritten?
    requires NaiveScan(t, cat, first.newText, second)
    ensures !second.BlockedByShared?
    ensures second.Rewritten? ==> second.newText == first.newText
  {
    RewriteAllSettles(t, text, cat.personal);
  }

  /** "Rewritten" does not mean changed: two spellings of one key undo each other. */
  lemma {:induction false} SpellingsUndo(t: Tables, e1: EntityRef, e2: EntityRef)
    requires CleanName(t, e1) && CleanName(t, e2)
    requires e1.normalizedKey == e2.normalizedKey != "" && e1.name != e2.name
    ensures RewriteAll(t, e2.name, [e1, e2]) == e2.name
    ensures Changers(t, e2.name, [e1, e2]) == [e1, e2]
  {
    WholeTextRewrite(t, e2.name, e1);
    WholeTextRewrite(t, e1.name, e2);
    var both := [e1, e2];
    OneMore(t, e2.name, both, 0);
    OneMore(t, e2.name, both, 1);
    assert both[..0] == [] && both[..2] == both;
  }

  lemma WholeTextRewrite(t: Tables, text: string, ent: EntityRef)
    requires Aligned(t, text) && ent.normalizedKey != "" && Lower(t, text) == ent.normalizedKey
    ensures Rewrite(t, text, ent) == ent.name
  {
    var key := ent.normalizedKey;
    AlignedAt(t, text);
    assert key[0..|key|] == key;
    assert Matches(t, key, key, |key|) == [];
    assert Matches(t, key, key, 0) == [0];
    MatchesAreLeftmost(t, key, key, 0);
    assert [0][1..] == [] && text[0..0] == "" && text[|key|..] == "";
    assert Splice(text, [0], |key|, ent.name, 0) == text[0..0] + ent.name + text[|key|..];
  }

  const LATIN_A := Tables(c => if c == 'A' then "a" else [c], c => c == 'a' || c == 'A', c => c == ' ')

  lemma LettersAreClean(c: char)
    requires c == 'a' || c == 'A'
    ensures CleanName(LATIN_A, EntityRef([c], "", "", "a"))
  {
    var name := [c];
    assert Aligned(LATIN_A, name);
    AlignedAt(LATIN_A, name);
    assert Lower(LATIN_A, name) == "a";
    assert Trim(LATIN_A, name) == name;
  }

  lemma NothingShared(t: Tables, cat: Catalogue, text: string)
    requires cat.shared == [] && Aligned(t, text) && Changers(t, text, cat.personal) != []
    ensures NaiveScan(t, cat, text, Rewritten(RewriteAll(t, text, cat.personal), Changers(t, text, cat.personal)))
  {
    NoMention(t, Lower(t, text), cat.shared);
  }

  lemma UndoneScan(t: Tables, e1: EntityRef, e2: EntityRef)
    requires CleanName(t, e1) && CleanName(t, e2)
    requires e1.normalizedKey == e2.normalizedKey != "" && e1.name != e2.name
    ensures NaiveScan(t, Catalogue([], [e1, e2]), e2.name, Rewritten(e2.name, [e1, e2]))
  {
    SpellingsUndo(t, e1, e2);
    NothingShared(t, Catalogue([], [e1, e2]), e2.name);
  }

  const BOTH_LETTERS := [EntityRef("a", "", "", "a"), EntityRef("A", "", "", "a")]

  lemma BothLetters(t: Tables)
    requires t == LATIN_A
    ensures CleanName(t, BOTH_LETTERS[0]) && CleanName(t, BOTH_LETTERS[1])
  {
    LettersAreClean('a');
    LettersAreClean('A');
  }

  /** A catalogue and a text where "Rewritten" leaves the text as it was. */
  lemma RewrittenUnchanged(t: Tables)
    requires t == LATIN_A
    ensures CleanNames(t, BOTH_LETTERS)
    ensures NaiveScan(t, Catalogue([], BOTH_LETTERS), "A", Rewritten("A", BOTH_LETTERS))
  {
    BothLetters(t);
    UndoneScan(t, BOTH_LETTERS[0], BOTH_LETTERS[1]);
  }

  const UNTRIMMED := EntityRef(" a", "", "", "a")

  lemma UntrimmedIsKeyed()
    ensures UNTRIMMED.normalizedKey == EntityKey(LATIN_A, UNTRIMMED.name) && !CleanName(LATIN_A, UNTRIMMED)
  {
    LettersAreClean('a');
    assert TrimStart(LATIN_A, " a") == TrimStart(LATIN_A, " a"[1..]) == "a";
    assert Trim(LATIN_A, " a") == "a";
  }

  lemma OneEntry(t: Tables, text: string, ent: EntityRef)
    ensures RewriteAll(t, text, [ent]) == Rewrite(t, text, ent)
  {
    OneMore(t, text, [ent], 0);
    assert [ent][..0] == [] && [ent][..1] == [ent];
  }

  lemma FirstRewrite()
    ensures Aligned(LATIN_A, "a") && Lower(LATIN_A, "a") == "a" && Rewrite(LATIN_A, "a", UNTRIMMED) == " a"
  {
    AlignedAt(LATIN_A, "a");
    assert Lower(LATIN_A, "a") == "a";
    WholeTextRewrite(LATIN_A, "a", UNTRIMMED);
  }

  lemma SecondRewrite()
    ensures Aligned(LATIN_A, " a") && Lower(LATIN_A, " a") == " a" && Rewrite(LATIN_A, " a", UNTRIMMED) == "  a"
  {
    var t, h := LATIN_A, " a";
    AlignedAt(t, h);
    assert Lower(t, h) == h;
    assert !OccursAt(h, "a", 0) && h[1..2] == "a";
    assert Matches(t, h, "a", 2) == [];
    assert Matches(t, h, "a", 1) == [1];
    assert Matches(t, h, "a", 0) == [1];
    AlignedOffsets(t, h, 0);
    MatchesAreLeftmost(t, h, "a", 0);
    assert [1][1..] == [];
    assert Splice(h, [1], 1, " a", 0) == h[0..1] + " a" + h[2..];
  }

  /** A catalogue and a text where the rewrite changes more than letter case, and again when repeated:
      the name " a" turns "a" into " a" and that into "  a". */
  lemma UntrimmedGrows()
    ensures Keyed(LATIN_A, [UNTRIMMED]) && Aligned(LATIN_A, "a")
    ensures RewriteAll(LATIN_A, "a", [UNTRIMMED]) == " a"
    ensures Lower(LATIN_A, " a") != Lower(LATIN_A, "a")
    ensures RewriteAll(LATIN_A, " a", [UNTRIMMED]) == "  a"
  {
    UntrimmedIsKeyed();
    FirstRewrite();
    SecondRewrite();
    OneEntry(LATIN_A, "a", UNTRIMMED);
    OneEntry(LATIN_A, " a", UNTRIMMED);
  }
}
