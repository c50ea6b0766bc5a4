/** Report history of cutover candidates (scripts/cutover_candidate_pipeline_history_report.py). */
module PipelineHistory {
  import opened Text
  import opened Sorting
  import opened ReleaseGate
  import opened Wrappers

  datatype Attempt = Attempt(candidateId: string, candidateLabel: string, time: int, path: string, ready: bool)

  /** `sort(key=(generated_at_sort, report_path), reverse=True)`. */
  predicate NewerFirst(a: Attempt, b: Attempt) {
    a.time > b.time || (a.time == b.time && Le(b.path, a.path))
  }

  lemma NewerFirstOrder()
    ensures TotalPreorder(NewerFirst)
  {
    LeOrder();
  }

  function Of(id: string): Attempt -> bool {
    (a: Attempt) => a.candidateId == id
  }

  /** Candidates in the order in which they first appear. */
  function Candidates(attempts: seq<Attempt>): seq<string> {
    if attempts == [] then []
    else
      var before, id := Candidates(attempts[..|attempts| - 1]), attempts[|attempts| - 1].candidateId;
      if id in before then before else before + [id]
  }

  datatype Groups = Groups(ids: seq<string>, attempts: map<string, seq<Attempt>>)

  /** A dictionary keeps its keys in insertion order. Each group holds exactly the candidate's
      attempts, newest first. */
  method GroupAttemptsByCandidate(attempts: seq<Attempt>) returns (groups: Groups)
    requires Sorted(attempts, NewerFirst)
    ensures groups.ids == Candidates(attempts)
    ensures forall id :: id in groups.attempts <==> id in groups.ids
    ensures forall id | id in groups.attempts :: groups.attempts[id] == Filter(attempts, Of(id)) != []
  {
    hide Candidates, Filter, Sort;
    var ids: seq<string>, grouped: map<string, seq<Attempt>> := [], map[];
    NoAttempts();
    for i := 0 to |attempts|
      invariant ids == Candidates(attempts[..i])
      invariant forall id :: id in grouped <==> id in ids
      invariant forall id | id in grouped :: grouped[id] == Filter(attempts[..i], Of(id)) != []
      invariant forall id | id !in grouped :: Filter(attempts[..i], Of(id)) == []
    {
      var a := attempts[i];
      OneMore(attempts, i);
      if a.candidateId !in grouped {
        ids := ids + [a.candidateId];
        grouped := grouped[a.candidateId := []];
      }
      grouped := grouped[a.candidateId := grouped[a.candidateId] + [a]];
    }
    assert attempts[..|attempts|] == attempts;
    forall id ensures Sort(Filter(attempts, Of(id)), NewerFirst) == Filter(attempts, Of(id)) {
      FilterSorted(attempts, Of(id), NewerFirst);
      SortIdentity(Filter(attempts, Of(id)), NewerFirst);
    }
    return Groups(ids, map id | id in grouped :: Sort(grouped[id], NewerFirst));
  }

  lemma NoAttempts()
    ensures Candidates([]) == [] && forall id :: Filter([], Of(id)) == []
  {
  }

  lemma OneMore(attempts: seq<Attempt>, i: nat)
    requires i < |attempts|
    ensures var id := attempts[i].candidateId;
            Candidates(attempts[..i + 1])
            == Candidates(attempts[..i]) + if id in Candidates(attempts[..i]) then [] else [id]
    ensures forall id ::
              Filter(attempts[..i + 1], Of(id))
              == Filter(attempts[..i], Of(id)) + if attempts[i].candidateId == id then [attempts[i]] else []
  {
    assert attempts[..i + 1] == attempts[..i] + [attempts[i]] && attempts[..i + 1][..i] == attempts[..i];
    hide Filter;
    forall id
      ensures Filter(attempts[..i + 1], Of(id))
           == Filter(attempts[..i], Of(id)) + if attempts[i].candidateId == id then [attempts[i]] else []
    {
      FilterAppend(attempts[..i], attempts[i], Of(id));
    }
  }

  /** Length of the unbroken run of ready attempts at the front. */
  method CountConsecutiveGreen(attempts: seq<Attempt>) returns (streak: nat)
    ensures streak <= |attempts| && (forall i | 0 <= i < streak :: attempts[i].ready)
    ensures streak == |attempts| || !attempts[streak].ready
  {
    streak := 0;
    for i := 0 to |attempts|
      invariant streak == i && forall j | 0 <= j < i :: attempts[j].ready
    {
      if attempts[i].ready {
        streak := streak + 1;
        continue;
      }
      break;
    }
  }

  ghost predicate HasLabel(attempts: seq<Attempt>, wanted: string) {
    exists a :: a in attempts && a.candidateLabel == wanted
  }

  /** The candidate id if one is asked for, else the first candidate with an attempt of that label,
      else the candidate of the newest attempt. */
  ghost predicate Focus(attempts: seq<Attempt>, id: string, wanted: string, r: Result<string>)
    requires attempts != []
  {
    if Trim(id) != "" then
      r == (if Trim(id) in Candidates(attempts) then Success(Trim(id))
            else Failure("candidate_id was not found in the matched reports"))
    else if Trim(wanted) != "" then
      match r
      case Success(c) =>
        exists i :: 0 <= i < |Candidates(attempts)| && Candidates(attempts)[i] == c
          && HasLabel(Filter(attempts, Of(c)), Trim(wanted))
          && forall j | 0 <= j < i :: !HasLabel(Filter(attempts, Of(Candidates(attempts)[j])), Trim(wanted))
      case Failure(error) =>
        error != "" && forall c | c in Candidates(attempts) :: !HasLabel(Filter(attempts, Of(c)), Trim(wanted))
    else r == Success(attempts[0].candidateId)
  }

  method AnyLabel(attempts: seq<Attempt>, wanted: string) returns (found: bool)
    ensures found <==> HasLabel(attempts, wanted)
  {
    for i := 0 to |attempts|
      invariant forall j | 0 <= j < i :: attempts[j].candidateLabel != wanted
    {
      if attempts[i].candidateLabel == wanted {
        return true;
      }
    }
    return false;
  }

  method ResolveFocus(groups: Groups, attempts: seq<Attempt>, id: string, wanted: string) returns (r: Result<string>)
    requires attempts != [] && groups.ids == Candidates(attempts)
    requires forall c :: c in groups.attempts <==> c in groups.ids
    requires forall c | c in groups.attempts :: groups.attempts[c] == Filter(attempts, Of(c))
    ensures Focus(attempts, id, wanted, r)
  {
    hide Trim, Candidates, Filter, HasLabel;
    if Trim(id) != "" {
      if Trim(id) !in groups.attempts {
        return Failure("candidate_id was not found in the matched reports");
      }
      return Success(Trim(id));
    }
    if Trim(wanted) != "" {
      for i := 0 to |groups.ids|
        invariant forall j | 0 <= j < i :: !HasLabel(groups.attempts[groups.ids[j]], Trim(wanted))
      {
        var found := AnyLabel(groups.attempts[groups.ids[i]], Trim(wanted));
        if found {
          return Success(groups.ids[i]);
        }
      }
      return Failure("candidate_label was not found in the matched reports");
    }
    return Success(attempts[0].candidateId);
  }

  lemma {:induction false} CandidatesAll(attempts: seq<Attempt>)
    ensures forall a | a in attempts :: a.candidateId in Candidates(attempts)
  {
    if attempts != [] {
      CandidatesAll(attempts[..|attempts| - 1]);
    }
  }

  datatype Summary = Summary(focusId: string, focused: seq<Attempt>, green: nat, required: nat, passed: bool)

  /** What a summary says. Passing means that the focused candidate's `required` newest reports are
      all ready; asking in addition for a ready newest attempt changes nothing. */
  ghost predicate IsSummary(attempts: seq<Attempt>, id: string, wanted: string, required: nat, r: Result<Summary>) {
    match r
    case Failure(error) => error != "" && (attempts != [] ==> Focus(attempts, id, wanted, Failure(error)))
    case Success(s) =>
      && attempts != [] && Focus(attempts, id, wanted, Success(s.focusId)) && s.required == required
      && s.focused == Filter(attempts, Of(s.focusId)) != []
      && s.green <= |s.focused| && (forall i | 0 <= i < s.green :: s.focused[i].ready)
      && (s.green == |s.focused| || !s.focused[s.green].ready)
      && (s.passed <==> required <= |s.focused| && forall i | 0 <= i < required :: s.focused[i].ready)
  }

  /** Fails when there is nothing to summarize or the asked candidate is not there. */
  method BuildSummary(attempts: seq<Attempt>, id: string, wanted: string, required: nat) returns (r: Result<Summary>)
    requires Sorted(attempts, NewerFirst)
    ensures IsSummary(attempts, id, wanted, required, r)
    ensures r.Failure? <==> attempts == [] || exists error :: Focus(attempts, id, wanted, Failure(error))
  {
    hide Trim, Candidates, Filter, Focus, HasLabel;
    if attempts == [] {
      return Failure("no cutover candidate pipeline reports matched the provided patterns");
    }
    var groups := GroupAttemptsByCandidate(attempts);
    var focus := ResolveFocus(groups, attempts, id, wanted);
    FocusShape(attempts, id, wanted, focus);
    if focus.Failure? {
      return Failure(focus.error);
    }
    var focused := groups.attempts[focus.value];
    var latest := focused[0];
    var green := CountConsecutiveGreen(focused);
    var passed := true;
    if required > 0 {
      passed := green >= required && latest.ready;
    }
    return Success(Summary(focus.value, focused, green, required, passed));
  }

  lemma FocusShape(attempts: seq<Attempt>, id: string, wanted: string, r: Result<string>)
    requires attempts != [] && Focus(attempts, id, wanted, r)
    ensures r.Success? ==> r.value in Candidates(attempts)
    ensures r.Failure? ==> r.error != ""
    ensures r.Success? ==> forall error :: !Focus(attempts, id, wanted, Failure(error))
  {
    hide Trim, HasLabel, Filter;
    CandidatesAll(attempts);
  }

  // ---------------------------------------------------------------------------------------
  // Orders written out
  // ---------------------------------------------------------------------------------------

  /** Newer times first; at the same time the greater file name first. */
  lemma NewestFirst(attempts: seq<Attempt>, i: nat, j: nat)
    requires Sorted(attempts, NewerFirst) && i < j < |attempts|
    ensures attempts[i].time >= attempts[j].time
    ensures attempts[i].time == attempts[j].time ==> Le(attempts[j].path, attempts[i].path)
  {
    hide Le;
    assert NewerFirst(attempts[i], attempts[j]);
  }

  /** Where a candidate first appears, or the length if it does not. */
  function FirstOf(attempts: seq<Attempt>, id: string): (n: nat)
    ensures n <= |attempts|
    ensures n < |attempts| ==> attempts[n].candidateId == id
    ensures forall i | 0 <= i < n :: attempts[i].candidateId != id
  {
    if attempts == [] then 0
    else if attempts[0].candidateId == id then 0
    else 1 + FirstOf(attempts[1..], id)
  }

  /** The candidates are those of the attempts, each once, in the order in which they first appear. */
  lemma {:induction false} CandidatesInOrder(attempts: seq<Attempt>)
    ensures forall id :: id in Candidates(attempts) <==> FirstOf(attempts, id) < |attempts|
    ensures forall i, j | 0 <= i < j < |Candidates(attempts)| ::
              && Candidates(attempts)[i] != Candidates(attempts)[j]
              && FirstOf(attempts, Candidates(attempts)[i]) < FirstOf(attempts, Candidates(attempts)[j])
  {
    hide FirstOf;
    if attempts == [] {
      forall id ensures FirstOf(attempts, id) == 0 {}
    } else {
      var n := |attempts| - 1;
      var before, last := attempts[..n], attempts[n].candidateId;
      CandidatesInOrder(before);
      forall id
        ensures FirstOf(attempts, id)
             == if FirstOf(before, id) < n then FirstOf(before, id) else if last == id then n else n + 1
      {
        FirstGrows(attempts, id);
      }
    }
  }

  lemma FirstGrows(attempts: seq<Attempt>, id: string)
    requires attempts != []
    ensures var n := |attempts| - 1;
            FirstOf(attempts, id) == if FirstOf(attempts[..n], id) < n then FirstOf(attempts[..n], id)
                                     else if attempts[n].candidateId == id then n else n + 1
  {
    var n, k, b := |attempts| - 1, FirstOf(attempts, id), FirstOf(attempts[..|attempts| - 1], id);
    hide FirstOf;
    if b < n {
      assert attempts[..n][b] == attempts[b];
      assert forall i | 0 <= i < b :: attempts[..n][i] == attempts[i];
      assert k >= b;
      assert k <= b;
    } else {
      assert forall i | 0 <= i < n :: attempts[..n][i] == attempts[i];
      assert k >= n;
    }
  }
}
