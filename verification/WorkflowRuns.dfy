/** Collecting past workflow runs page by page (scripts/budget_gate_artifact_fetcher.py,
    `iter_workflow_runs`; the other three fetchers hold the same loop). */
module WorkflowRuns {
  import opened Text
  import opened Sorting

  /** A decoded list element: a run with the text of its id, or something that is not a dictionary. */
  datatype Item = Run(id: string, payload: string) | NotADict

  function Min(a: int, b: int): int {
    if a < b then a else b
  }

  /** A page of a stable listing; the server caps the page size and numbers pages from one. */
  function ListPage(listing: seq<Item>, perPage: int, page: int): seq<Item>
    requires 1 <= perPage <= 100 && page >= 1
  {
    var from := (page - 1) * perPage;
    if from >= |listing| then [] else listing[from..Min(from + perPage, |listing|)]
  }

  predicate Wanted(item: Item, excluded: string) {
    item.Run? && (excluded == "" || Trim(item.id) != excluded)
  }

  function WantedBy(excluded: string): Item -> bool {
    (item: Item) => Wanted(item, excluded)
  }

  function Take<T>(s: seq<T>, n: nat): seq<T> {
    if |s| <= n then s else s[..n]
  }

  /** The page starts where the previous pages ended. */
  lemma PageStart(page: int, perPage: int)
    requires page >= 1 && perPage >= 1
    ensures page * perPage == (page - 1) * perPage + perPage && 0 <= (page - 1) * perPage
  {
  }

  /** What is collected from one more element. */
  lemma OneMore(s: seq<Item>, j: nat, excluded: string)
    requires j < |s|
    ensures Filter(s[..j + 1], WantedBy(excluded))
            == Filter(s[..j], WantedBy(excluded)) + if Wanted(s[j], excluded) then [s[j]] else []
  {
    hide Wanted;
    assert s[..j + 1] == s[..j] + [s[j]];
    FilterAppend(s[..j], s[j], WantedBy(excluded));
  }

  /** Stopping early is no different from collecting everything and cutting. */
  lemma StopEarly(listing: seq<Item>, n: nat, excluded: string, target: nat)
    requires n <= |listing| && |Filter(listing[..n], WantedBy(excluded))| >= target
    ensures Take(Filter(listing, WantedBy(excluded)), target) == Take(Filter(listing[..n], WantedBy(excluded)), target)
  {
    hide Filter;
    FilterConcat(listing[..n], listing[n..], WantedBy(excluded));
    assert listing == listing[..n] + listing[n..];
  }

  /** A dictionary whose id is not the excluded one; nothing is excluded by a blank id. */
  predicate Kept(item: Item, excluded: string) {
    item.Run? && (Trim(excluded) == "" || Trim(item.id) != Trim(excluded))
  }

  /** The runs collected are entries of the listing to keep, and unless the limit is reached all of
      these. */
  ghost predicate Collected(runs: seq<Item>, listing: seq<Item>, excluded: string, limit: int) {
    && (forall run | run in runs :: run in listing && Kept(run, excluded))
    && (|runs| < limit ==> forall run | run in listing && Kept(run, excluded) :: run in runs)
  }

  lemma AllWanted(listing: seq<Item>, excluded: string, limit: int)
    ensures Collected(Take(Filter(listing, WantedBy(Trim(excluded))), if limit > 0 then limit else 0),
                      listing, excluded, limit)
  {
    hide Trim, Filter;
    var all := Filter(listing, WantedBy(Trim(excluded)));
    var target := if limit > 0 then limit else 0;
    FilterMembers(listing, WantedBy(Trim(excluded)));
    assert Take(all, target) <= all;
    assert forall run | run in Take(all, target) :: run in all;
  }

  /** The first `limit` wanted runs of the whole listing, however it is cut into pages. */
  method IterWorkflowRuns(listing: seq<Item>, excludeRunId: string, limit: int) returns (runs: seq<Item>)
    ensures runs == Take(Filter(listing, WantedBy(Trim(excludeRunId))), if limit > 0 then limit else 0)
    ensures Collected(runs, listing, excludeRunId, limit)
  {
    AllWanted(listing, excludeRunId, limit);
    hide Filter, Wanted, ListPage, Trim, Collected;
    var target := if limit > 0 then limit else 0;
    if target == 0 {
      return [];
    }
    runs := [];
    var page := 1;
    var perPage := Min(target, 100);
    var excluded := Trim(excludeRunId);
    ghost var done := 0;
    FilterNone(WantedBy(excluded));
    while |runs| < target
      invariant page >= 1 && done == (page - 1) * perPage && 0 <= done <= |listing|
      invariant runs == Filter(listing[..done], WantedBy(excluded)) && |runs| <= target
      decreases |listing| - done, target - |runs|
    {
      PageStart(page, perPage);
      PageIs(listing, perPage, page, done);
      var workflowRuns := ListPage(listing, perPage, page);
      if workflowRuns == [] {
        assert listing[..done] == listing;
        break;
      }
      var j := 0;
      while j < |workflowRuns|
        invariant 0 <= j <= |workflowRuns|
        invariant runs == Filter(listing[..done + j], WantedBy(excluded)) && |runs| < target
      {
        OneMore(listing, done + j, excluded);
        assert workflowRuns[j] == listing[done + j];
        var collect := IsWanted(workflowRuns[j], excluded);
        if collect {
          runs := runs + [workflowRuns[j]];
          if |runs| >= target {
            StopEarly(listing, done + j + 1, excluded, target);
            return runs;
          }
        }
        j := j + 1;
      }
      if |workflowRuns| < perPage {
        assert listing[..done + j] == listing;
        break;
      }
      page := page + 1;
      done := done + perPage;
    }
    if |runs| >= target {
      StopEarly(listing, done, excluded, target);
    }
  }

  method IsWanted(item: Item, excluded: string) returns (wanted: bool)
    ensures wanted == Wanted(item, excluded)
  {
    if item.NotADict? {
      return false;
    }
    var runId := Trim(item.id);
    if excluded != "" && runId == excluded {
      return false;
    }
    return true;
  }

  lemma PageIs(listing: seq<Item>, perPage: int, page: int, done: int)
    requires 1 <= perPage <= 100 && page >= 1 && done == (page - 1) * perPage && 0 <= done <= |listing|
    ensures ListPage(listing, perPage, page) == listing[done..Min(done + perPage, |listing|)]
  {
  }
}
