/** Paging over the union of two collections that are fetched separately. */
module FanOut {
  import opened Wrappers
  import opened Sequences

  const QUERY_NODES_LIMIT_MAX := 1000
  const I32_MAX := 0x7FFF_FFFF

  /** `attributes` stands for everything but the id. */
  datatype Node = Node(id: string, attributes: string)

  function NodeId(n: Node): string { n.id }

  /** What one collection answers to offset 0 and a limit. */
  function Fetch(nodes: seq<Node>, limit: nat): seq<Node>
  {
    FirstN(limit, nodes)
  }

  function Slice(nodes: seq<Node>, offset: nat, limit: nat): seq<Node>
  {
    if |nodes| <= offset then []
    else if |nodes| <= offset + limit then nodes[offset..]
    else nodes[offset..offset + limit]
  }

  /** The whole union, own nodes first, first occurrence of an id wins. */
  function Union(personal: seq<Node>, shared: seq<Node>): seq<Node>
  {
    Dedup(personal + shared, NodeId)
  }

  function FetchLimit(offset: nat, limit: nat): nat
  {
    var sum := if offset + limit <= I32_MAX then offset + limit else I32_MAX;
    if sum < QUERY_NODES_LIMIT_MAX then sum else QUERY_NODES_LIMIT_MAX
  }

  function Ids(nodes: seq<Node>): set<string>
  {
    set n | n in nodes :: n.id
  }

  lemma IdsAreKeys(nodes: seq<Node>, id: string)
    ensures id in Ids(nodes) <==> HasKey(nodes, NodeId, id)
  {
    if id in Ids(nodes) {
      var n :| n in nodes && n.id == id;
      var i :| 0 <= i < |nodes| && nodes[i] == n;
      assert NodeId(nodes[i]) == id;
    }
    if HasKey(nodes, NodeId, id) {
      var i :| 0 <= i < |nodes| && NodeId(nodes[i]) == id;
      assert nodes[i] in nodes;
    }
  }

  lemma IdsSnoc(nodes: seq<Node>, n: Node)
    ensures Ids(nodes + [n]) == Ids(nodes) + {n.id}
  {
    assert forall m :: m in nodes + [n] <==> m in nodes || m == n;
  }

  /** `query_nodes` after both fetches; a failed shared fetch counts as an empty collection. */
  method MergePage(personal: seq<Node>, shared: Option<seq<Node>>, offset: nat, limit: nat) returns (page: seq<Node>)
    ensures page == Slice(Union(personal, if shared.Some? then shared.value else []), offset, limit)
  {
    var chained := personal + if shared.Some? then shared.value else [];
    var seen: set<string> := {};
    var nodes: seq<Node> := [];
    for i := 0 to |chained|
      invariant nodes == Dedup(chained[..i], NodeId) && seen == Ids(nodes)
    {
      assert chained[..i + 1] == chained[..i] + [chained[i]];
      DedupSnoc(chained[..i], chained[i], NodeId);
      IdsAreKeys(nodes, chained[i].id);
      IdsSnoc(nodes, chained[i]);
      if chained[i].id !in seen {
        seen := seen + {chained[i].id};
        nodes := nodes + [chained[i]];
      }
    }
    assert chained[..|chained|] == chained;
    page := DrainAndTruncate(nodes, offset, limit);
  }

  method DrainAndTruncate(all: seq<Node>, offset: nat, limit: nat) returns (nodes: seq<Node>)
    ensures nodes == Slice(all, offset, limit)
  {
    var start := if offset < |all| then offset else |all|;
    nodes := all[start..];
    if limit < |nodes| { nodes := nodes[..limit]; }
  }

  /** The page a client gets for collections that answer in a stable order. */
  function PageOf(personal: seq<Node>, shared: seq<Node>, offset: nat, limit: nat): seq<Node>
  {
    var n := FetchLimit(offset, limit);
    Slice(Union(Fetch(personal, n), Fetch(shared, n)), offset, limit)
  }

  // ----- what clamped fetching costs -----

  /** The union holds at least as many nodes as a collection of distinct ids in it. */
  lemma UnionAtLeast(personal: seq<Node>, shared: seq<Node>)
    requires DistinctKeys(shared, NodeId)
    ensures |shared| <= |Union(personal, shared)|
  {
    var u := Union(personal, shared);
    DedupKeys(personal + shared, NodeId);
    forall id | id in Ids(shared) ensures id in Ids(u) {
      IdsAreKeys(shared, id);
      var i :| 0 <= i < |shared| && NodeId(shared[i]) == id;
      assert NodeId((personal + shared)[|personal| + i]) == id;
      assert HasKey(u, NodeId, id);
      IdsAreKeys(u, id);
    }
    DistinctIdCount(shared);
    IdCount(u);
    CardSubset(Ids(shared), Ids(u));
  }

  lemma {:induction false} IdCount(nodes: seq<Node>)
    ensures |Ids(nodes)| <= |nodes|
  {
    if nodes == [] {
    } else {
      var n := |nodes| - 1;
      IdCount(nodes[..n]);
      IdsSnoc(nodes[..n], nodes[n]);
      assert nodes == nodes[..n] + [nodes[n]];
    }
  }

  lemma {:induction false} DistinctIdCount(nodes: seq<Node>)
    requires DistinctKeys(nodes, NodeId)
    ensures |Ids(nodes)| == |nodes|
  {
    if nodes == [] {
    } else {
      var n := |nodes| - 1;
      var init, last := nodes[..n], nodes[n];
      DistinctPrefix(nodes, n);
      DistinctIdCount(init);
      LastIsNew(nodes);
      assert nodes == init + [last];
      IdsSnoc(init, last);
    }
  }

  lemma LastIsNew(nodes: seq<Node>)
    requires nodes != [] && DistinctKeys(nodes, NodeId)
    ensures nodes[|nodes| - 1].id !in Ids(nodes[..|nodes| - 1])
  {
    var n := |nodes| - 1;
    IdsAreKeys(nodes[..n], nodes[n].id);
    assert forall i :: 0 <= i < n ==> NodeId(nodes[..n][i]) != NodeId(nodes[n]);
  }

  lemma DistinctPrefix(nodes: seq<Node>, n: nat)
    requires DistinctKeys(nodes, NodeId) && n <= |nodes|
    ensures DistinctKeys(nodes[..n], NodeId)
  {
    forall i, j | 0 <= i < j < n ensures NodeId(nodes[..n][i]) != NodeId(nodes[..n][j]) {
      assert NodeId(nodes[i]) != NodeId(nodes[j]);
    }
  }

  /** When the own collection alone fills the fetch, both unions start with it. */
  lemma OwnFillsFetch(personal: seq<Node>, shared: seq<Node>, n: nat)
    requires DistinctKeys(personal, NodeId) && n < |personal|
    ensures personal[..n] <= Union(personal[..n], Fetch(shared, n))
    ensures personal[..n] <= Union(personal, shared)
  {
    DistinctPrefix(personal, n);
    DedupDistinct(personal[..n], NodeId);
    DedupPrefix(personal[..n], Fetch(shared, n), NodeId);
    assert personal + shared == personal[..n] + (personal[n..] + shared);
    DedupPrefix(personal[..n], personal[n..] + shared, NodeId);
  }

  /** When the shared fetch is cut, what was fetched is a prefix of the union and fills the page. */
  lemma SharedIsCut(personal: seq<Node>, shared: seq<Node>, n: nat)
    requires DistinctKeys(shared, NodeId) && n < |shared|
    ensures n <= |Union(personal, shared[..n])|
    ensures Union(personal, shared[..n]) <= Union(personal, shared)
  {
    DistinctPrefix(shared, n);
    UnionAtLeast(personal, shared[..n]);
    assert personal + shared == (personal + shared[..n]) + shared[n..];
    DedupPrefix(personal + shared[..n], shared[n..], NodeId);
  }

  /** Fetching `n` from both sides gives the union up to `n`. */
  lemma FetchedUnion(personal: seq<Node>, shared: seq<Node>, n: nat)
    requires DistinctKeys(personal, NodeId) && DistinctKeys(shared, NodeId)
    ensures var u := Union(Fetch(personal, n), Fetch(shared, n));
            FirstN(n, u) == FirstN(n, Union(personal, shared)) &&
            (|u| < n ==> u == Union(personal, shared))
  {
    if n < |personal| {
      OwnFillsFetch(personal, shared, n);
    } else if n < |shared| {
      SharedIsCut(personal, shared, n);
    }
  }

  /** Within the limit, the page is the slice of the whole union. */
  lemma PageIsSlice(personal: seq<Node>, shared: seq<Node>, offset: nat, limit: nat)
    requires DistinctKeys(personal, NodeId) && DistinctKeys(shared, NodeId)
    requires offset + limit <= QUERY_NODES_LIMIT_MAX
    ensures PageOf(personal, shared, offset, limit) == Slice(Union(personal, shared), offset, limit)
  {
    var n := offset + limit;
    var u, whole := Union(Fetch(personal, n), Fetch(shared, n)), Union(personal, shared);
    FetchedUnion(personal, shared, n);
    if n <= |u| {
      assert FirstN(n, u) == u[..n] && FirstN(n, whole) == whole[..n];
      assert Slice(u, offset, limit) == u[..n][offset..];
      assert Slice(whole, offset, limit) == whole[..n][offset..];
    }
  }

  /** Consecutive pages lie edge to edge: two pages are the slice of both lengths. */
  lemma PagesTile(personal: seq<Node>, shared: seq<Node>, offset: nat, first: nat, second: nat)
    requires DistinctKeys(personal, NodeId) && DistinctKeys(shared, NodeId)
    requires offset + first + second <= QUERY_NODES_LIMIT_MAX
    ensures PageOf(personal, shared, offset, first) + PageOf(personal, shared, offset + first, second)
            == Slice(Union(personal, shared), offset, first + second)
  {
    PageIsSlice(personal, shared, offset, first);
    PageIsSlice(personal, shared, offset + first, second);
    SlicesTile(Union(personal, shared), offset, first, second);
  }

  lemma SlicesTile(u: seq<Node>, offset: nat, first: nat, second: nat)
    ensures Slice(u, offset, first) + Slice(u, offset + first, second) == Slice(u, offset, first + second)
  {
  }

  // ----- the limit is exact -----

  function Numbered(i: nat): seq<char>
  {
    if i == 0 then "" else Numbered(i - 1) + "a"
  }

  lemma {:induction false} NumberedLength(i: nat)
    ensures |Numbered(i)| == i
  {
    if i == 0 {
    } else {
      NumberedLength(i - 1);
    }
  }

  function Many(n: nat): seq<Node>
  {
    seq(n, i requires 0 <= i < n => Node(Numbered(i), ""))
  }

  lemma ManyDistinct(n: nat)
    ensures DistinctKeys(Many(n), NodeId)
  {
    forall i, j | 0 <= i < j < n ensures NodeId(Many(n)[i]) != NodeId(Many(n)[j]) {
      NumberedLength(i);
      NumberedLength(j);
    }
  }

  /** For a non-empty page, fetching clamped amounts is right for all collections exactly when
      offset + limit stays within 1000. */
  lemma {:induction false} LimitIsExact(offset: nat, limit: nat)
    requires 0 < limit
    ensures offset + limit <= QUERY_NODES_LIMIT_MAX <==>
            forall p, s :: DistinctKeys(p, NodeId) && DistinctKeys(s, NodeId) ==>
              PageOf(p, s, offset, limit) == Slice(Union(p, s), offset, limit)
  {
    if offset + limit <= QUERY_NODES_LIMIT_MAX {
      forall p, s | DistinctKeys(p, NodeId) && DistinctKeys(s, NodeId)
        ensures PageOf(p, s, offset, limit) == Slice(Union(p, s), offset, limit)
      {
        PageIsSlice(p, s, offset, limit);
      }
    } else {
      var p, s := Many(offset + limit), [];
      ManyDistinct(offset + limit);
      var n := FetchLimit(offset, limit);
      assert n == QUERY_NODES_LIMIT_MAX;
      assert p + [] == p && p[..n] + [] == p[..n];
      DedupDistinct(p, NodeId);
      DistinctPrefix(p, n);
      DedupDistinct(p[..n], NodeId);
      assert |Slice(Union(p, s), offset, limit)| == limit;
      assert |PageOf(p, s, offset, limit)| < limit;
      assert DistinctKeys(s, NodeId);
    }
  }
}
