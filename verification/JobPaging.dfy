/** Offset paging over a job list that grows at its head while it is being read. */
module JobPaging {
  import opened Wrappers

  const LIST_JOBS_PAGE_SIZE := 500
  const LIST_JOBS_HARD_CAP := 50_000

  datatype Job = Job(id: string, status: string)

  /** `totalCount` and the page length are whatever the server says. */
  datatype Response = Page(jobs: seq<Job>, totalCount: int) | RpcError

  /** What the server answers to the k-th request, given its offset. */
  type Server = (nat, nat) -> Response

  // ----- what was observed -----

  function Answer(server: Server, k: nat): Response
  {
    server(k, LIST_JOBS_PAGE_SIZE * k)
  }

  function JobsOf(r: Response): seq<Job>
  {
    if r.Page? then r.jobs else []
  }

  /** All jobs of the first `n` answers, in the order they came. */
  function Observed(server: Server, n: nat): seq<Job>
  {
    if n == 0 then [] else Observed(server, n - 1) + JobsOf(Answer(server, n - 1))
  }

  /** The entry observed last under every id. */
  function LastById(obs: seq<Job>): map<string, Job>
  {
    if obs == [] then map[] else LastById(obs[..|obs| - 1])[obs[|obs| - 1].id := obs[|obs| - 1]]
  }

  predicate LastObserved(obs: seq<Job>, j: Job)
  {
    exists i :: 0 <= i < |obs| && obs[i] == j && forall x :: i < x < |obs| ==> obs[x].id != j.id
  }

  lemma {:induction false} LastByIdKeys(obs: seq<Job>, id: string)
    ensures id in LastById(obs) <==> exists i :: 0 <= i < |obs| && obs[i].id == id
  {
    if obs == [] {
    } else {
      var n := |obs| - 1;
      var init := obs[..n];
      LastByIdKeys(init, id);
      if id in LastById(init) {
        var i :| 0 <= i < |init| && init[i].id == id;
        assert obs[i].id == id;
      }
      if i :| 0 <= i < |obs| && obs[i].id == id {
        assert i < n ==> init[i].id == id;
      }
    }
  }

  lemma {:induction false} LastByIdValues(obs: seq<Job>, id: string)
    requires id in LastById(obs)
    ensures LastById(obs)[id].id == id && LastObserved(obs, LastById(obs)[id])
  {
    var n := |obs| - 1;
    var init, last := obs[..n], obs[n];
    if id == last.id {
      assert obs[n] == last;
    } else {
      LastByIdValues(init, id);
      StillLast(init, last, LastById(init)[id]);
      assert obs == init + [last];
    }
  }

  lemma StillLast(obs: seq<Job>, next: Job, j: Job)
    requires LastObserved(obs, j) && next.id != j.id
    ensures LastObserved(obs + [next], j)
  {
    var i :| 0 <= i < |obs| && obs[i] == j && forall x :: i < x < |obs| ==> obs[x].id != j.id;
    assert (obs + [next])[i] == j;
  }

  /** Each id observed is reported once, with the entry seen last. */
  lemma LastByIdMeans(obs: seq<Job>)
    ensures forall id :: id in LastById(obs) <==> exists i :: 0 <= i < |obs| && obs[i].id == id
    ensures forall id :: id in LastById(obs) ==> LastById(obs)[id].id == id && LastObserved(obs, LastById(obs)[id])
  {
    forall id ensures id in LastById(obs) <==> exists i :: 0 <= i < |obs| && obs[i].id == id { LastByIdKeys(obs, id); }
    forall id | id in LastById(obs) ensures LastById(obs)[id].id == id && LastObserved(obs, LastById(obs)[id]) {
      LastByIdValues(obs, id);
    }
  }

  /** The largest capped total among the first `n` answers. */
  function EffectiveCap(server: Server, n: nat): int
    requires 0 < n
  {
    var total := if Answer(server, n - 1).Page? then Answer(server, n - 1).totalCount else 0;
    var observed := if total < LIST_JOBS_HARD_CAP then total else LIST_JOBS_HARD_CAP;
    if n == 1 then observed
    else
      var before := EffectiveCap(server, n - 1);
      if before < observed then observed else before
  }

  /** The paging stops after the n-th answer. */
  predicate StopsAfter(server: Server, n: nat)
  {
    0 < n && (|JobsOf(Answer(server, n - 1))| < LIST_JOBS_PAGE_SIZE
              || EffectiveCap(server, n) <= LIST_JOBS_PAGE_SIZE * n)
  }

  lemma {:induction false} CapBounded(server: Server, n: nat)
    requires 0 < n
    ensures EffectiveCap(server, n) <= LIST_JOBS_HARD_CAP
  {
    if n > 1 { CapBounded(server, n - 1); }
  }

  lemma OverwriteSnoc(n: nat, jobs: seq<Job>, obs: seq<Job>)
    requires n < |jobs|
    ensures LastById(obs + jobs[..n + 1]) == LastById(obs + jobs[..n])[jobs[n].id := jobs[n]]
  {
    assert (obs + jobs[..n + 1])[..|obs| + n] == obs + jobs[..n];
  }

  /** Later observations overwrite earlier ones. */
  method Overwrite(start: map<string, Job>, page: seq<Job>, ghost obs: seq<Job>) returns (byId: map<string, Job>)
    requires start == LastById(obs)
    ensures byId == LastById(obs + page)
  {
    byId := start;
    assert obs + page[..0] == obs;
    for i := 0 to |page|
      invariant byId == LastById(obs + page[..i])
    {
      OverwriteSnoc(i, page, obs);
      byId := byId[page[i].id := page[i]];
    }
    assert page[..|page|] == page;
  }

  /** The raised cap, from the answers so far and one more. */
  lemma CapStep(server: Server, n: nat, cap: Option<int>)
    requires Answer(server, n).Page?
    requires cap == if n == 0 then None else Some(EffectiveCap(server, n))
    ensures EffectiveCap(server, n + 1) == RaisedCap(cap, Answer(server, n).totalCount)
    ensures EffectiveCap(server, n + 1) <= LIST_JOBS_HARD_CAP
    ensures Observed(server, n + 1) == Observed(server, n) + Answer(server, n).jobs
  {
    CapBounded(server, n + 1);
  }

  function RaisedCap(cap: Option<int>, totalCount: int): int
  {
    var observed := if totalCount < LIST_JOBS_HARD_CAP then totalCount else LIST_JOBS_HARD_CAP;
    match cap
    case Some(c) => if c < observed then observed else c
    case None => observed
  }

  /** `list_extraction_jobs_paged`: never more than 100 requests, whatever the server answers. */
  method ListJobsPaged(server: Server) returns (jobs: Option<map<string, Job>>, requests: nat)
    ensures 1 <= requests <= 100
    ensures jobs.None? <==> Answer(server, requests - 1).RpcError?
    ensures jobs.Some? ==> jobs.value == LastById(Observed(server, requests)) && StopsAfter(server, requests)
  {
    var byId: map<string, Job> := map[];
    var offset := 0;
    var effectiveCap: Option<int> := None;
    requests := 0;
    while true
      invariant offset == LIST_JOBS_PAGE_SIZE * requests && requests < 100
      invariant byId == LastById(Observed(server, requests))
      invariant effectiveCap == if requests == 0 then None else Some(EffectiveCap(server, requests))
      decreases 100 - requests
    {
      var answer := server(requests, offset);
      assert answer == Answer(server, requests);
      if answer.RpcError? {
        return None, requests + 1;
      }
      CapStep(server, requests, effectiveCap);
      effectiveCap := Some(RaisedCap(effectiveCap, answer.totalCount));
      byId := Overwrite(byId, answer.jobs, Observed(server, requests));
      requests := requests + 1;
      if |answer.jobs| < LIST_JOBS_PAGE_SIZE {
        break;
      }
      offset := offset + LIST_JOBS_PAGE_SIZE;
      if effectiveCap.value <= offset {
        break;
      }
    }
    jobs := Some(byId);
  }

  // ----- a server whose list grows at its head -----

  /** Between two requests jobs are inserted in front; the others keep their order and may change status. */
  ghost predicate GrowsAtHead(lists: nat -> seq<Job>)
  {
    forall j: nat, k: nat :: j <= k ==> Shifted(lists(j), lists(k))
  }

  ghost predicate Shifted(before: seq<Job>, after: seq<Job>)
  {
    |before| <= |after| && forall i :: 0 <= i < |before| ==> after[i + |after| - |before|].id == before[i].id
  }

  /** The answer cut out of the list as it stands at the k-th request. */
  function Cut(jobs: seq<Job>, offset: nat): Response
  {
    var from := if offset < |jobs| then offset else |jobs|;
    var to := if offset + LIST_JOBS_PAGE_SIZE < |jobs| then offset + LIST_JOBS_PAGE_SIZE else |jobs|;
    Page(jobs[from..to], |jobs|)
  }

  predicate Serves(server: Server, lists: nat -> seq<Job>, n: nat)
  {
    forall k: nat :: k < n ==> Answer(server, k) == Cut(lists(k), LIST_JOBS_PAGE_SIZE * k)
  }

  ghost predicate Sighted(server: Server, n: nat, id: string)
  {
    exists x :: 0 <= x < |Observed(server, n)| && Observed(server, n)[x].id == id
  }

  lemma SightedLater(server: Server, n: nat, id: string)
    requires Sighted(server, n, id)
    ensures Sighted(server, n + 1, id)
  {
    var x :| 0 <= x < |Observed(server, n)| && Observed(server, n)[x].id == id;
    assert Observed(server, n + 1)[x].id == id;
  }

  lemma SightedOnPage(server: Server, k: nat, jobs: seq<Job>, pos: nat)
    requires Answer(server, k) == Cut(jobs, LIST_JOBS_PAGE_SIZE * k)
    requires LIST_JOBS_PAGE_SIZE * k <= pos < LIST_JOBS_PAGE_SIZE * (k + 1) && pos < |jobs|
    ensures Sighted(server, k + 1, jobs[pos].id)
  {
    var i := pos - LIST_JOBS_PAGE_SIZE * k;
    assert JobsOf(Answer(server, k))[i] == jobs[pos];
    assert Observed(server, k + 1)[|Observed(server, k)| + i] == jobs[pos];
  }

  /** Where the job that was i-th at the start stands in a later list. */
  function Place(lists: nat -> seq<Job>, k: nat, i: nat): int
  {
    i + |lists(k)| - |lists(0)|
  }

  lemma PlaceHolds(lists: nat -> seq<Job>, k: nat, i: nat)
    requires GrowsAtHead(lists) && i < |lists(0)|
    ensures 0 <= Place(lists, k, i) < |lists(k)| && lists(k)[Place(lists, k, i)].id == lists(0)[i].id
    ensures k > 0 ==> Place(lists, k - 1, i) <= Place(lists, k, i)
  {
    assert Shifted(lists(0), lists(k));
    if k > 0 { assert Shifted(lists(k - 1), lists(k)); }
  }

  /** A job never slips past the offset unseen: insertions push it towards the pages still to come. */
  lemma {:induction false} PassedJobsAreSighted(server: Server, lists: nat -> seq<Job>, k: nat, i: nat)
    requires GrowsAtHead(lists) && Serves(server, lists, k + 1) && i < |lists(0)|
    requires Place(lists, k, i) < LIST_JOBS_PAGE_SIZE * (k + 1)
    ensures Sighted(server, k + 1, lists(0)[i].id)
  {
    PlaceHolds(lists, k, i);
    if LIST_JOBS_PAGE_SIZE * k <= Place(lists, k, i) {
      assert Answer(server, k) == Cut(lists(k), LIST_JOBS_PAGE_SIZE * k);
      SightedOnPage(server, k, lists(k), Place(lists, k, i));
    } else {
      PassedJobsAreSighted(server, lists, k - 1, i);
      SightedLater(server, k, lists(0)[i].id);
    }
  }

  lemma {:induction false} CapAtLeast(server: Server, n: nat, k: nat)
    requires k < n && Answer(server, k).Page?
    ensures EffectiveCap(server, n) >= Answer(server, k).totalCount || EffectiveCap(server, n) >= LIST_JOBS_HARD_CAP
  {
    if k < n - 1 { CapAtLeast(server, n - 1, k); }
  }

  /** Every job of the first list is returned exactly once, as last observed, unless insertions pushed
      it past the hard cap; with at most 50,000 jobs none is missed. */
  lemma NoJobIsMissed(server: Server, lists: nat -> seq<Job>, n: nat, jobs: map<string, Job>, i: nat)
    requires GrowsAtHead(lists) && Serves(server, lists, n) && StopsAfter(server, n)
    requires jobs == LastById(Observed(server, n)) && i < |lists(0)|
    ensures i + |lists(n - 1)| - |lists(0)| < LIST_JOBS_HARD_CAP ==> lists(0)[i].id in jobs
    ensures |lists(n - 1)| <= LIST_JOBS_HARD_CAP ==> lists(0)[i].id in jobs
    ensures lists(0)[i].id in jobs ==>
              jobs[lists(0)[i].id].id == lists(0)[i].id && LastObserved(Observed(server, n), jobs[lists(0)[i].id])
  {
    var k := n - 1;
    assert Shifted(lists(0), lists(k));
    LastByIdMeans(Observed(server, n));
    assert Answer(server, k) == Cut(lists(k), LIST_JOBS_PAGE_SIZE * k);
    if i + |lists(k)| - |lists(0)| < LIST_JOBS_HARD_CAP {
      CapAtLeast(server, n, k);
      PassedJobsAreSighted(server, lists, k, i);
    }
  }
}
