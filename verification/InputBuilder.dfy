/** The capped, three-source selection of raws that feeds one wiki synthesis. */
module InputBuilder {
  import opened Wrappers
  import opened Sequences
  import opened Storage

  const INPUT_LIMIT := 50

  /** The raws the stored references still name, in reference order. Lookup is by id alone. */
  function Resolve(table: seq<Raw>, refs: seq<string>): (rs: seq<Raw>)
    ensures forall r :: r in rs ==> r in table && r.id in refs
  {
    if refs == [] then []
    else
      var n := |refs| - 1;
      var front := Resolve(table, refs[..n]);
      match Get(table, refs[n])
      case None => front
      case Some(r) => front + [r]
  }

  /** The plain reading: line the three sources up, drop repeats, keep the first fifty. Search is
      asked for twice the room that is left. */
  function Inputs(table: seq<Raw>, refs: seq<string>, newRaws: seq<Raw>, ranked: seq<Raw>): seq<Raw>
  {
    var known := Resolve(table, refs) + newRaws;
    var room := INPUT_LIMIT - |Dedup(known, RawId)|;
    if room <= 0 then FirstN(INPUT_LIMIT, Dedup(known, RawId))
    else FirstN(INPUT_LIMIT, Dedup(known + Search(ranked, room * 2), RawId))
  }

  /** Full-text search: the best `limit` hits, the limit clamped to 1..=100. */
  function Search(ranked: seq<Raw>, limit: int): seq<Raw>
  {
    FirstN(if limit < 1 then 1 else if limit > 100 then 100 else limit, ranked)
  }

  lemma {:induction false} ResolveSnoc(table: seq<Raw>, refs: seq<string>, id: string)
    ensures Resolve(table, refs + [id]) ==
            Resolve(table, refs) + (if Get(table, id).Some? then [Get(table, id).value] else [])
  {
    assert (refs + [id])[..|refs|] == refs;
  }

  lemma InputsAreFirst(table: seq<Raw>, refs: seq<string>, newRaws: seq<Raw>, ranked: seq<Raw>)
    ensures var known := Resolve(table, refs) + newRaws;
            var room := INPUT_LIMIT - |Dedup(known, RawId)|;
            Inputs(table, refs, newRaws, ranked) ==
              FirstN(INPUT_LIMIT, Dedup(if room <= 0 then known else known + Search(ranked, room * 2), RawId))
  {
  }

  /** Every input comes from one of the three sources, repeats no id, and there are at most fifty. */
  lemma InputsFromSources(table: seq<Raw>, refs: seq<string>, newRaws: seq<Raw>, ranked: seq<Raw>)
    ensures |Inputs(table, refs, newRaws, ranked)| <= INPUT_LIMIT
    ensures DistinctKeys(Inputs(table, refs, newRaws, ranked), RawId)
    ensures forall r :: r in Inputs(table, refs, newRaws, ranked) ==>
              (r in table && r.id in refs) || r in newRaws || r in ranked
  {
    var known := Resolve(table, refs) + newRaws;
    var room := INPUT_LIMIT - |Dedup(known, RawId)|;
    var all := if room <= 0 then known else known + Search(ranked, room * 2);
    DedupKeys(all, RawId);
    forall r | r in FirstN(INPUT_LIMIT, Dedup(all, RawId)) ensures r in all {
      DedupMembers(all, RawId, r);
    }
    InputsAreFirst(table, refs, newRaws, ranked);
  }

  /** What is known before the search: the references that resolve, then the new raws. */
  function Known(table: seq<Raw>, refs: seq<string>, newRaws: seq<Raw>): seq<Raw>
  {
    Resolve(table, refs) + newRaws
  }

  lemma FirstNPrefix(n: nat, a: seq<Raw>, b: seq<Raw>)
    requires a <= b
    ensures FirstN(n, a) <= FirstN(n, b)
  {
  }

  lemma KeysOfBoth(a: seq<Raw>, b: seq<Raw>, id: string)
    requires HasKey(a, RawId, id) || HasKey(b, RawId, id)
    ensures HasKey(Dedup(a + b, RawId), RawId, id)
  {
    if HasKey(a, RawId, id) { KeyInConcat(a, b, id); } else { KeyInConcat(b, a, id); }
    DedupKeys(a + b, RawId);
  }

  lemma NotFullIsWhole(table: seq<Raw>, refs: seq<string>, newRaws: seq<Raw>, ranked: seq<Raw>)
    requires |Inputs(table, refs, newRaws, ranked)| < INPUT_LIMIT
    ensures var known := Known(table, refs, newRaws);
            var found := Search(ranked, (INPUT_LIMIT - |Dedup(known, RawId)|) * 2);
            Inputs(table, refs, newRaws, ranked) == Dedup(known + found, RawId)
  {
  }

  /** Everything lined up has its id in a result that is not full. */
  lemma LinedUpIsTaken(table: seq<Raw>, refs: seq<string>, newRaws: seq<Raw>, ranked: seq<Raw>, id: string)
    requires |Inputs(table, refs, newRaws, ranked)| < INPUT_LIMIT
    requires var known := Known(table, refs, newRaws);
             HasKey(known, RawId, id) ||
             HasKey(Search(ranked, (INPUT_LIMIT - |Dedup(known, RawId)|) * 2), RawId, id)
    ensures HasKey(Inputs(table, refs, newRaws, ranked), RawId, id)
  {
    var known := Known(table, refs, newRaws);
    NotFullIsWhole(table, refs, newRaws, ranked);
    KeysOfBoth(known, Search(ranked, (INPUT_LIMIT - |Dedup(known, RawId)|) * 2), id);
  }

  /** Nothing is passed over: as long as fewer than fifty are out, every reference that resolves, every
      new raw and the first 2 x (50 - known) hits have their id in the result. */
  lemma InputsMissNothing(table: seq<Raw>, refs: seq<string>, newRaws: seq<Raw>, ranked: seq<Raw>, id: string)
    requires |Inputs(table, refs, newRaws, ranked)| < 50
    ensures id in refs && HasId(table, id) ==> HasKey(Inputs(table, refs, newRaws, ranked), RawId, id)
    ensures HasKey(newRaws, RawId, id) ==> HasKey(Inputs(table, refs, newRaws, ranked), RawId, id)
    ensures var looked := 2 * (50 - |Dedup(Known(table, refs, newRaws), RawId)|);
            (exists k :: 0 <= k < |ranked| && k < looked && ranked[k].id == id) ==>
              HasKey(Inputs(table, refs, newRaws, ranked), RawId, id)
  {
    var known := Known(table, refs, newRaws);
    if id in refs && HasId(table, id) {
      ResolvesTo(table, refs, id);
      KeyInConcat(Resolve(table, refs), newRaws, id);
      LinedUpIsTaken(table, refs, newRaws, ranked, id);
    }
    if HasKey(newRaws, RawId, id) {
      KeyInConcat(newRaws, Resolve(table, refs), id);
      LinedUpIsTaken(table, refs, newRaws, ranked, id);
    }
    var looked := 2 * (50 - |Dedup(known, RawId)|);
    if k :| 0 <= k < |ranked| && k < looked && ranked[k].id == id {
      assert RawId(Search(ranked, looked)[k]) == id;
      LinedUpIsTaken(table, refs, newRaws, ranked, id);
    }
  }

  lemma KeyInConcat(a: seq<Raw>, b: seq<Raw>, id: string)
    requires HasKey(a, RawId, id)
    ensures HasKey(a + b, RawId, id) && HasKey(b + a, RawId, id)
  {
    var i :| 0 <= i < |a| && RawId(a[i]) == id;
    assert RawId((a + b)[i]) == id && RawId((b + a)[|b| + i]) == id;
  }

  lemma {:induction false} ResolvesTo(table: seq<Raw>, refs: seq<string>, id: string)
    requires id in refs && HasId(table, id)
    ensures HasKey(Resolve(table, refs), RawId, id)
  {
    var n := |refs| - 1;
    if refs[n] == id {
      var r := Resolve(table, refs);
      assert RawId(r[|r| - 1]) == id;
    } else {
      assert id in refs[..n];
      ResolvesTo(table, refs[..n], id);
      var front := Resolve(table, refs[..n]);
      var i :| 0 <= i < |front| && RawId(front[i]) == id;
      assert RawId(Resolve(table, refs)[i]) == id;
    }
  }

  lemma KnownComesFirst(table: seq<Raw>, refs: seq<string>, newRaws: seq<Raw>, ranked: seq<Raw>)
    ensures FirstN(50, Dedup(Known(table, refs, newRaws), RawId)) <= Inputs(table, refs, newRaws, ranked)
  {
    var known := Known(table, refs, newRaws);
    var room := INPUT_LIMIT - |Dedup(known, RawId)|;
    var all := Dedup(known + Search(ranked, room * 2), RawId);
    DedupPrefix(known, Search(ranked, room * 2), RawId);
    FirstNPrefix(50, Dedup(known, RawId), all);
  }

  lemma PrefixOfPrefix(a: seq<Raw>, b: seq<Raw>, c: seq<Raw>)
    requires a <= b && b <= c
    ensures a <= c
  {
  }

  /** The order of the sources is kept: references come first, then new raws, and neither can be pushed
      out by what follows them. */
  lemma SourcesInOrder(table: seq<Raw>, refs: seq<string>, newRaws: seq<Raw>, ranked: seq<Raw>)
    ensures FirstN(50, Dedup(Resolve(table, refs), RawId)) <= Inputs(table, refs, newRaws, ranked)
    ensures FirstN(50, Dedup(Resolve(table, refs) + newRaws, RawId)) <= Inputs(table, refs, newRaws, ranked)
  {
    var own, known := Dedup(Resolve(table, refs), RawId), Dedup(Resolve(table, refs) + newRaws, RawId);
    KnownComesFirst(table, refs, newRaws, ranked);
    DedupPrefix(Resolve(table, refs), newRaws, RawId);
    FirstNPrefix(50, own, known);
    PrefixOfPrefix(FirstN(50, own), FirstN(50, known), Inputs(table, refs, newRaws, ranked));
  }

  // ----- the loop state -----

  /** `out` is the deduplication of the candidates `line` looked at so far, `seen` its ids. */
  ghost predicate Holds(line: seq<Raw>, out: seq<Raw>, seen: set<string>)
  {
    out == Dedup(line, RawId) && seen == RawIds(out)
  }

  lemma Advance(line: seq<Raw>, out: seq<Raw>, seen: set<string>, r: Raw)
    requires Holds(line, out, seen)
    ensures r.id in seen ==> Holds(line + [r], out, seen)
    ensures r.id !in seen ==> Holds(line + [r], out + [r], seen + {r.id})
  {
    DedupSnoc(line, r, RawId);
    if r.id in seen {
      var x :| x in out && x.id == r.id;
      var i :| 0 <= i < |out| && out[i] == x;
      assert RawId(out[i]) == RawId(r);
    }
  }

  /** Once fifty distinct raws are out, no later candidate can change the answer. */
  lemma {:induction false} CutIsFinal(line: seq<Raw>, later: seq<Raw>, out: seq<Raw>, seen: set<string>)
    requires Holds(line, out, seen) && |out| == INPUT_LIMIT
    ensures FirstN(INPUT_LIMIT, Dedup(line + later, RawId)) == out
    ensures INPUT_LIMIT <= |Dedup(line + later, RawId)|
  {
    DedupPrefix(line, later, RawId);
  }

  lemma FullBeforeSearch(table: seq<Raw>, refs: seq<string>, newRaws: seq<Raw>, ranked: seq<Raw>,
                         line: seq<Raw>, later: seq<Raw>, out: seq<Raw>, seen: set<string>)
    requires Holds(line, out, seen) && |out| == INPUT_LIMIT
    requires Resolve(table, refs) + newRaws == line + later
    ensures out == Inputs(table, refs, newRaws, ranked)
  {
    CutIsFinal(line, later, out, seen);
  }

  lemma FullInReferences(table: seq<Raw>, refs: seq<string>, newRaws: seq<Raw>, ranked: seq<Raw>,
                         k: nat, out: seq<Raw>, seen: set<string>)
    requires k <= |refs| && Holds(Resolve(table, refs[..k]), out, seen) && |out| == INPUT_LIMIT
    ensures out == Inputs(table, refs, newRaws, ranked)
  {
    ResolveAppend(table, refs[..k], refs[k..]);
    assert refs == refs[..k] + refs[k..];
    var later := Resolve(table, refs[k..]) + newRaws;
    Assoc(Resolve(table, refs[..k]), Resolve(table, refs[k..]), newRaws);
    FullBeforeSearch(table, refs, newRaws, ranked, Resolve(table, refs[..k]), later, out, seen);
  }

  /** Stages two and three: take candidates not yet seen, stop at fifty. */
  method Absorb(source: seq<Raw>, ghost line: seq<Raw>, start: seq<Raw>, known: set<string>)
    returns (out: seq<Raw>, seen: set<string>, ghost taken: nat)
    requires Holds(line, start, known) && |start| < INPUT_LIMIT
    ensures taken <= |source| && Holds(line + source[..taken], out, seen)
    ensures |out| == INPUT_LIMIT || (taken == |source| && |out| < INPUT_LIMIT)
  {
    out, seen, taken := start, known, 0;
    assert line + source[..0] == line;
    for i := 0 to |source|
      invariant taken == i && Holds(line + source[..i], out, seen) && |out| < INPUT_LIMIT
    {
      Advance(line + source[..i], out, seen, source[i]);
      assert line + source[..i + 1] == (line + source[..i]) + [source[i]];
      taken := i + 1;
      if source[i].id in seen {
        continue;
      }
      seen := seen + {source[i].id};
      out := out + [source[i]];
      if |out| >= INPUT_LIMIT {
        return;
      }
    }
  }

  /** Stage one: resolve the stored references, stop at fifty. */
  method Recall(table: seq<Raw>, refs: seq<string>) returns (out: seq<Raw>, seen: set<string>, ghost taken: nat)
    ensures taken <= |refs| && Holds(Resolve(table, refs[..taken]), out, seen)
    ensures |out| == INPUT_LIMIT || (taken == |refs| && |out| < INPUT_LIMIT)
  {
    out, seen, taken := [], {}, 0;
    for i := 0 to |refs|
      invariant taken == i && Holds(Resolve(table, refs[..i]), out, seen) && |out| < INPUT_LIMIT
    {
      assert refs[..i + 1] == refs[..i] + [refs[i]];
      ResolveSnoc(table, refs[..i], refs[i]);
      taken := i + 1;
      var hit := Get(table, refs[i]);
      if hit.Some? {
        Advance(Resolve(table, refs[..i]), out, seen, hit.value);
      }
      if refs[i] in seen {
        continue;
      }
      if hit.Some? {
        seen := seen + {hit.value.id};
        out := out + [hit.value];
        if |out| >= INPUT_LIMIT {
          return;
        }
      }
    }
  }

  method Build(table: seq<Raw>, refs: seq<string>, newRaws: seq<Raw>, ranked: seq<Raw>) returns (out: seq<Raw>)
    ensures out == Inputs(table, refs, newRaws, ranked)
  {
    var seen: set<string>;
    ghost var taken: nat;
    ghost var found := Resolve(table, refs);
    out, seen, taken := Recall(table, refs);
    if |out| >= INPUT_LIMIT {
      FullInReferences(table, refs, newRaws, ranked, taken, out, seen);
      return;
    }
    assert refs[..|refs|] == refs;
    out, seen, taken := Absorb(newRaws, found, out, seen);
    if |out| >= INPUT_LIMIT {
      assert found + newRaws == (found + newRaws[..taken]) + newRaws[taken..];
      FullBeforeSearch(table, refs, newRaws, ranked, found + newRaws[..taken], newRaws[taken..], out, seen);
      return;
    }
    assert newRaws[..|newRaws|] == newRaws;
    var remaining := INPUT_LIMIT - |out|;
    var hits := Search(ranked, remaining * 2);
    ghost var known := found + newRaws;
    out, seen, taken := Absorb(hits, known, out, seen);
    if |out| >= INPUT_LIMIT {
      assert known + hits == (known + hits[..taken]) + hits[taken..];
      CutIsFinal(known + hits[..taken], hits[taken..], out, seen);
    } else {
      assert hits[..|hits|] == hits;
    }
  }

  lemma {:induction false} ResolveAppend(table: seq<Raw>, a: seq<string>, b: seq<string>)
    ensures Resolve(table, a + b) == Resolve(table, a) + Resolve(table, b)
  {
    if b == [] {
      assert a + b == a;
    } else {
      var n := |b| - 1;
      var init, x := b[..n], b[n];
      assert b == init + [x];
      Assoc(a, init, [x]);
      ResolveAppend(table, a, init);
      ResolveSnoc(table, a + init, x);
      ResolveSnoc(table, init, x);
      match Get(table, x)
      case None =>
      case Some(r) => Assoc(Resolve(table, a), Resolve(table, init), [r]);
    }
  }
}
