/** The two tables the coordinator and the export read: raws, ordered by (created_at, id), and wikis. */
module Storage {
  import opened Wrappers

  datatype Scope = Personal | Shared

  /** `content` is a UTF-8 byte string, one char per byte. */
  datatype Raw = Raw(id: string, scope: Scope, ownerId: string, content: string, createdAt: int)

  datatype Wiki = Wiki(content: string, sourceRefs: seq<string>, lastRebuiltAt: int)

  function RawId(r: Raw): string { r.id }

  function RawIds(rs: seq<Raw>): set<string> { set r | r in rs :: r.id }

  // ----- the (created_at, id) order -----

  /** Byte-wise text comparison, as SQLite's BINARY collation does it. */
  predicate TextLess(a: string, b: string)
  {
    if b == "" then false
    else if a == "" then true
    else if a[0] != b[0] then a[0] < b[0]
    else TextLess(a[1..], b[1..])
  }

  predicate KeyLess(at: int, id: string, at': int, id': string)
  {
    at < at' || (at == at' && TextLess(id, id'))
  }

  predicate Before(a: Raw, b: Raw)
  {
    KeyLess(a.createdAt, a.id, b.createdAt, b.id)
  }

  lemma {:induction false} TextLessTotal(a: string, b: string)
    ensures a == b || TextLess(a, b) || TextLess(b, a)
    ensures !(TextLess(a, b) && TextLess(b, a))
    ensures !TextLess(a, a)
    decreases |a|
  {
    if a == "" {
    } else {
      if b != "" && a[0] == b[0] {
        TextLessTotal(a[1..], b[1..]);
        assert a == [a[0]] + a[1..] && b == [b[0]] + b[1..];
      }
      TextLessTotal(a[1..], a[1..]);
    }
  }

  lemma {:induction false} TextLessTransitive(a: string, b: string, c: string)
    requires TextLess(a, b) && TextLess(b, c)
    ensures TextLess(a, c)
    decreases |a|
  {
    if a != "" && a[0] == b[0] == c[0] {
      TextLessTransitive(a[1..], b[1..], c[1..]);
    }
  }

  lemma KeyLessTransitive(at: int, id: string, at': int, id': string, at'': int, id'': string)
    requires KeyLess(at, id, at', id') && KeyLess(at', id', at'', id'')
    ensures KeyLess(at, id, at'', id'')
  {
    if at == at' == at'' { TextLessTransitive(id, id', id''); }
  }

  // ----- the raws table -----

  ghost predicate Ordered(t: seq<Raw>)
  {
    forall i, j :: 0 <= i < j < |t| ==> Before(t[i], t[j])
  }

  ghost predicate UniqueIds(t: seq<Raw>)
  {
    forall a, b :: a in t && b in t && a.id == b.id ==> a == b
  }

  predicate HasId(t: seq<Raw>, id: string)
  {
    exists r :: r in t && r.id == id
  }

  /** `INSERT INTO raws`: the row takes its place in the (created_at, id) order. */
  function Insert(t: seq<Raw>, r: Raw): (t': seq<Raw>)
    ensures forall x :: x in t' <==> x in t || x == r
  {
    if t == [] || Before(r, t[0]) then [r] + t
    else
      var rest := Insert(t[1..], r);
      assert t == [t[0]] + t[1..];
      [t[0]] + rest
  }

  lemma {:induction false} InsertOrdered(t: seq<Raw>, r: Raw)
    requires Ordered(t) && !HasId(t, r.id)
    ensures Ordered(Insert(t, r))
  {
    if t == [] {
    } else if Before(r, t[0]) {
      forall j | 0 < j < |t| ensures Before(r, t[j]) {
        KeyLessTransitive(r.createdAt, r.id, t[0].createdAt, t[0].id, t[j].createdAt, t[j].id);
      }
    } else {
      TextLessTotal(t[0].id, r.id);
      assert t[0] in t;
      var rest := Insert(t[1..], r);
      InsertOrdered(t[1..], r);
      forall j | 0 <= j < |rest| ensures Before(t[0], rest[j]) {
        assert rest[j] in rest;
      }
    }
  }

  /** `SELECT * FROM raws WHERE id = ?`: no owner in the filter. */
  function Get(t: seq<Raw>, id: string): (r: Option<Raw>)
    ensures r.Some? ==> r.value in t && r.value.id == id
    ensures r.None? <==> !HasId(t, id)
  {
    if t == [] then None
    else if t[0].id == id then Some(t[0])
    else
      assert forall r :: r in t <==> r == t[0] || r in t[1..];
      Get(t[1..], id)
  }

  predicate InWindow(r: Raw, scope: Scope, owner: string, sinceExclusive: int, untilInclusive: int)
  {
    r.scope == scope && r.ownerId == owner && sinceExclusive < r.createdAt <= untilInclusive
  }

  /** The rows of one owner created in (since, until], oldest first. */
  function ListSince(t: seq<Raw>, scope: Scope, owner: string, since: int, until: int): (rs: seq<Raw>)
    ensures forall r :: r in rs <==> r in t && InWindow(r, scope, owner, since, until)
  {
    if t == [] then []
    else
      assert forall r :: r in t <==> r == t[0] || r in t[1..];
      if InWindow(t[0], scope, owner, since, until)
      then [t[0]] + ListSince(t[1..], scope, owner, since, until)
      else ListSince(t[1..], scope, owner, since, until)
  }

  lemma {:induction false} ListSinceOrdered(t: seq<Raw>, scope: Scope, owner: string, since: int, until: int)
    requires Ordered(t)
    ensures Ordered(ListSince(t, scope, owner, since, until))
  {
    if t == [] {
    } else {
      ListSinceOrdered(t[1..], scope, owner, since, until);
      var rest := ListSince(t[1..], scope, owner, since, until);
      forall j | 0 <= j < |rest| ensures Before(t[0], rest[j]) {
        assert rest[j] in rest && rest[j] in t[1..];
      }
    }
  }

  // ----- the wikis table of one owner, keyed by concept -----

  /** `MAX(last_rebuilt_at)`, 0 when there is no row. */
  ghost function Watermark(wikis: map<string, Wiki>): (m: int)
    ensures wikis == map[] ==> m == 0
    ensures wikis != map[] ==> exists c :: c in wikis && wikis[c].lastRebuiltAt == m
    ensures forall c :: c in wikis ==> wikis[c].lastRebuiltAt <= m
  {
    if wikis == map[] then 0
    else
      var c :| c in wikis;
      var rest := wikis - {c};
      assert forall d :: d in wikis ==> d == c || d in rest;
      var m := Watermark(rest);
      if rest == map[] || m < wikis[c].lastRebuiltAt then wikis[c].lastRebuiltAt else m
  }
}
