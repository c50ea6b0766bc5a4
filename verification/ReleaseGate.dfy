/** The final gate of cutover candidates, which rewrites the report
    (scripts/cutover_candidate_pipeline.py). */
module ReleaseGate {
  import opened Text
  import opened Sorting
  import opened Wrappers

  // ---------------------------------------------------------------------------------------
  // The final gate
  // ---------------------------------------------------------------------------------------

  /** `error` and `focusId` are empty when absent, which the code treats alike. */
  datatype HistoryGate = HistoryGate(evaluated: bool, requirementPassed: bool, error: string,
                                     green: int, required: int, focusId: string)

  datatype FinalGate = FinalGate(cutoverReady: bool, historyGateEvaluated: bool, blockingReasons: seq<string>)

  datatype ReportData = ReportData(
    candidateId: string,
    attemptStatus: Option<string>, attemptReady: Option<bool>,
    status: Option<string>, ready: Option<bool>,
    readinessReasons: seq<string>, error: Option<string>,
    historyGate: Option<HistoryGate>, finalGate: Option<FinalGate>)

  function OrElse(a: Option<string>, b: string): string {
    if a.Some? && a.value != "" then a.value else b
  }

  function AttemptStatus(d: ReportData): string {
    var text := Trim(OrElse(d.attemptStatus, OrElse(d.status, "")));
    if text == "" then "not_ready" else text
  }

  function AttemptReady(d: ReportData): bool {
    if d.attemptReady.Some? then d.attemptReady.value else d.ready == Some(true)
  }

  function NonBlank(reasons: seq<string>): seq<string> {
    Filter(reasons, r => Trim(r) != "")
  }

  function AttemptReasons(d: ReportData): seq<string> {
    if AttemptReady(d) then []
    else if NonBlank(d.readinessReasons) != [] then NonBlank(d.readinessReasons)
    else if AttemptStatus(d) == "error" then [OrElse(d.error, "current attempt failed")]
    else ["current candidate attempt is " + AttemptStatus(d)]
  }

  function HistoryReasons(d: ReportData): seq<string> {
    if d.historyGate.None? then []
    else
      var h := d.historyGate.value;
      if h.error != "" then ["history gate evaluation failed: " + h.error]
      else if h.evaluated && !h.requirementPassed then
        var id := if h.focusId != "" then h.focusId else if d.candidateId != "" then d.candidateId else "candidate";
        ["candidate " + id + " has only " + IntText(h.green) + "/" + IntText(h.required)
         + " consecutive green attempts"]
      else []
  }

  /** Trimmed, without blanks and without repeats, in order of first appearance. */
  function Dedup(reasons: seq<string>): seq<string> {
    if reasons == [] then []
    else
      var before, key := Dedup(reasons[..|reasons| - 1]), Trim(reasons[|reasons| - 1]);
      if key == "" || key in before then before else before + [key]
  }

  predicate GateLookedAt(d: ReportData) {
    d.historyGate.Some? && (d.historyGate.value.evaluated || d.historyGate.value.error != "")
  }

  function Finalized(d: ReportData): ReportData {
    var reasons := Dedup(AttemptReasons(d) + HistoryReasons(d));
    var status := AttemptStatus(d);
    d.(attemptStatus := Some(status), attemptReady := Some(AttemptReady(d)),
       finalGate := Some(FinalGate(reasons == [],
                                   GateLookedAt(d),
                                   reasons)),
       status := Some(if reasons == [] then "ready" else if status == "error" then "error" else "not_ready"),
       ready := Some(reasons == []))
  }

  /** What the attempt itself gives as reasons not to go ahead: one that says something exactly when it
      was not ready, an error text made of blanks aside. */
  method AttemptBlocks(d: ReportData, status: string, ready: bool) returns (reasons: seq<string>)
    requires status == AttemptStatus(d) && ready == AttemptReady(d)
    ensures reasons == AttemptReasons(d)
    ensures reasons == [] <==> ready
    ensures (exists i :: 0 <= i < |reasons| && Trim(reasons[i]) != "") <==> !ready && !BlankErrorOnly(d)
  {
    ReasonsMean(d);
    hide Trim, AttemptStatus, AttemptReady, BlankErrorOnly;
    reasons := [];
    if !ready {
      reasons := reasons + NonBlank(d.readinessReasons);
      if reasons == [] {
        if status == "error" {
          reasons := reasons + [OrElse(d.error, "current attempt failed")];
        } else {
          reasons := reasons + ["current candidate attempt is " + status];
        }
      }
    }
  }

  /** What the history gives: one reason that says something exactly when it objects, else none. */
  method HistoryBlocks(d: ReportData) returns (reasons: seq<string>)
    ensures reasons == HistoryReasons(d)
    ensures if HistoryPasses(d) then reasons == [] else |reasons| == 1 && Trim(reasons[0]) != ""
  {
    ReasonsMean(d);
    hide IntText, Trim;
    if d.historyGate.None? {
      return [];
    }
    var gate := d.historyGate.value;
    if gate.error != "" {
      return ["history gate evaluation failed: " + gate.error];
    }
    if gate.evaluated && !gate.requirementPassed {
      var focus := gate.focusId;
      if focus == "" {
        focus := if d.candidateId != "" then d.candidateId else "candidate";
      }
      return ["candidate " + focus + " has only " + IntText(gate.green) + "/" + IntText(gate.required)
          + " consecutive green attempts"];
    }
    return [];
  }

  /** The report dictionary that the final gate writes into. */
  class Report {
    var data: ReportData

    constructor (data: ReportData)
      ensures this.data == data
    {
      this.data := data;
    }

    method ApplyFinalGateState()
      modifies this
      ensures data == Finalized(old(data))
    {
      hide Trim, AttemptReasons, HistoryReasons, Dedup, BlankErrorOnly, HistoryPasses;
      var status := Trim(OrElse(data.attemptStatus, OrElse(data.status, "")));
      if status == "" {
        status := "not_ready";
      }
      var ready := if data.attemptReady.Some? then data.attemptReady.value else data.ready == Some(true);
      var attempt := AttemptBlocks(data, status, ready);
      var history := HistoryBlocks(data);
      var deduped := DedupReasons(attempt + history);
      var cutoverReady := deduped == [];
      data := data.(attemptStatus := Some(status), attemptReady := Some(ready),
                    finalGate := Some(FinalGate(cutoverReady,
                      GateLookedAt(data),
                      deduped)));
      var finalStatus := if cutoverReady then "ready" else if status == "error" then "error" else "not_ready";
      data := data.(status := Some(finalStatus),
                    ready := Some(cutoverReady));
    }
  }

  method DedupReasons(reasons: seq<string>) returns (deduped: seq<string>)
    ensures deduped == Dedup(reasons)
  {
    hide Trim;
    deduped := [];
    var seen: set<string> := {};
    for i := 0 to |reasons|
      invariant deduped == Dedup(reasons[..i])
      invariant forall k :: k in seen <==> k in deduped
    {
      assert reasons[..i + 1][..i] == reasons[..i];
      var key := Trim(reasons[i]);
      if key != "" && key !in seen {
        seen := seen + {key};
        deduped := deduped + [key];
      }
    }
    assert reasons[..|reasons|] == reasons;
  }

  /** Where a reason first appears, or the length if it does not. */
  ghost function First(reasons: seq<string>, key: string): nat {
    if reasons == [] then 0
    else if Trim(reasons[0]) == key then 0
    else 1 + First(reasons[1..], key)
  }

  lemma {:induction false} FirstExtends(reasons: seq<string>, r: string, key: string)
    ensures First(reasons, key) <= |reasons|
    ensures First(reasons, key) < |reasons| ==> First(reasons + [r], key) == First(reasons, key)
    ensures First(reasons, key) == |reasons| && Trim(r) == key ==> First(reasons + [r], key) == |reasons|
  {
    hide Trim;
    if reasons != [] {
      FirstExtends(reasons[1..], r, key);
      assert (reasons + [r])[1..] == reasons[1..] + [r];
    }
  }

  lemma {:induction false} FirstMissing(reasons: seq<string>, key: string)
    ensures First(reasons, key) < |reasons| <==> exists i :: 0 <= i < |reasons| && Trim(reasons[i]) == key
  {
    hide Trim;
    if reasons != [] && Trim(reasons[0]) != key {
      FirstMissing(reasons[1..], key);
      forall i | 0 <= i < |reasons| && Trim(reasons[i]) == key
        ensures exists j :: 0 <= j < |reasons[1..]| && Trim(reasons[1..][j]) == key
      {
        assert reasons[1..][i - 1] == reasons[i];
      }
      forall j | 0 <= j < |reasons[1..]| && Trim(reasons[1..][j]) == key
        ensures exists i :: 0 <= i < |reasons| && Trim(reasons[i]) == key
      {
        assert reasons[j + 1] == reasons[1..][j];
      }
    }
  }

  /** The reported reasons are the non-blank raw ones, each once, in order of first appearance. */
  lemma {:induction false} DedupShape(reasons: seq<string>)
    ensures var d := Dedup(reasons);
            && (forall k :: k in d <==> k != "" && First(reasons, k) < |reasons|)
            && (forall i, j | 0 <= i < j < |d| :: d[i] != d[j] && First(reasons, d[i]) < First(reasons, d[j]))
  {
    hide Trim;
    if reasons != [] {
      var before, last := reasons[..|reasons| - 1], reasons[|reasons| - 1];
      DedupShape(before);
      assert reasons == before + [last];
      forall k
        ensures First(reasons, k)
             == if First(before, k) < |before| then First(before, k)
                else if Trim(last) == k then |before|
                else |reasons|
      {
        FirstExtends(before, last, k);
        FirstMissing(before, k);
        FirstMissing(reasons, k);
        if First(before, k) == |before| && Trim(last) != k {
          FirstExtends(reasons, last, k);
          forall i | 0 <= i < |reasons| ensures Trim(reasons[i]) != k {
            if i < |before| { assert before[i] == reasons[i]; }
          }
        }
      }
    }
  }

  lemma DedupEmpty(reasons: seq<string>)
    ensures Dedup(reasons) == [] <==> forall r | r in reasons :: Trim(r) == ""
  {
    hide Trim;
    DedupShape(reasons);
    forall r | r in reasons && Trim(r) != "" ensures Dedup(reasons) != [] {
      FirstMissing(reasons, Trim(r));
      assert Trim(r) in Dedup(reasons);
    }
    if Dedup(reasons) != [] {
      var k := Dedup(reasons)[0];
      assert k in Dedup(reasons);
      FirstMissing(reasons, k);
    }
  }

  /** After the gate the three verdicts agree, and they say whether anything blocks. */
  lemma VerdictsAgree(d: ReportData)
    ensures var f := Finalized(d);
            && f.ready.Some? && f.status.Some? && f.finalGate.Some?
            && (f.ready.value <==> f.status.value == "ready")
            && (f.ready.value <==> f.finalGate.value.blockingReasons == [])
            && (f.ready.value <==> f.finalGate.value.cutoverReady)
            && f.finalGate.value.blockingReasons == Dedup(AttemptReasons(d) + HistoryReasons(d))
  {
  }

  /** Applying the gate again changes nothing, although it overwrote `status` and `ready`. */
  lemma FinalizedTwice(d: ReportData)
    ensures Finalized(Finalized(d)) == Finalized(d)
  {
    hide Trim, Dedup, NonBlank;
    var f := Finalized(d);
    TrimShape(OrElse(d.attemptStatus, OrElse(d.status, "")));
    NotReadyText();
    assert AttemptStatus(f) == AttemptStatus(d);
    assert AttemptReasons(f) == AttemptReasons(d);
    assert HistoryReasons(f) == HistoryReasons(d);
  }

  lemma NotReadyText()
    ensures Trim("not_ready") == "not_ready"
  {
    TrimPlain("not_ready");
  }

  /** An attempt that failed with an error text made of blanks only: its only reason is dropped. */
  ghost predicate BlankErrorOnly(d: ReportData) {
    && !AttemptReady(d) && NonBlank(d.readinessReasons) == []
    && AttemptStatus(d) == "error" && d.error.Some? && d.error.value != "" && Trim(d.error.value) == ""
  }

  ghost predicate HistoryPasses(d: ReportData) {
    d.historyGate.Some? ==>
      d.historyGate.value.error == "" && (d.historyGate.value.evaluated ==> d.historyGate.value.requirementPassed)
  }

  lemma NonBlankShape(reasons: seq<string>)
    ensures forall r | r in NonBlank(reasons) :: Trim(r) != ""
  {
    hide Trim;
    if reasons != [] {
      NonBlankShape(reasons[1..]);
    }
  }

  lemma StartsWithText(s: string)
    requires s != "" && !IsSpace(s[0])
    ensures Trim(s) != ""
  {
    TrimShape(s);
  }

  /** When the two sides give reasons at all, and when one of them has something to say. */
  lemma ReasonsMean(d: ReportData)
    ensures AttemptReasons(d) == [] <==> AttemptReady(d)
    ensures (exists i :: 0 <= i < |AttemptReasons(d)| && Trim(AttemptReasons(d)[i]) != "")
            <==> !AttemptReady(d) && !BlankErrorOnly(d)
    ensures HistoryPasses(d) ==> HistoryReasons(d) == []
    ensures !HistoryPasses(d) ==> |HistoryReasons(d)| == 1 && Trim(HistoryReasons(d)[0]) != ""
  {
    hide Trim, IntText;
    var a, h := AttemptReasons(d), HistoryReasons(d);
    NonBlankShape(d.readinessReasons);
    if h != [] { StartsWithText(h[0]); }
    StartsWithText("current attempt failed");
    if a != [] && NonBlank(d.readinessReasons) == [] && AttemptStatus(d) != "error" {
      StartsWithText("current candidate attempt is " + AttemptStatus(d));
    }
    assert NonBlank(d.readinessReasons) != [] ==> NonBlank(d.readinessReasons)[0] in NonBlank(d.readinessReasons);
    hide NonBlank, AttemptStatus, HistoryReasons;
    assert a != [] && !BlankErrorOnly(d) ==> Trim(a[0]) != "";
  }

  /** A report ends ready exactly when the history does not object and the attempt was ready, or
      failed with a blank error text. The second case is the one way past the gate. */
  lemma ReadyExactlyWhen(d: ReportData)
    ensures Finalized(d).ready == Some(true) <==> HistoryPasses(d) && (AttemptReady(d) || BlankErrorOnly(d))
  {
    hide Trim, Dedup, AttemptReasons, HistoryReasons, AttemptStatus, BlankErrorOnly, HistoryPasses;
    var a, h := AttemptReasons(d), HistoryReasons(d);
    ReasonsMean(d);
    DedupEmpty(a + h);
    assert forall i | 0 <= i < |a| :: a[i] in a + h;
    assert h != [] ==> h[0] in a + h;
    assert forall r | r in a + h :: r in a || r in h;
  }

  /** The case exists: a failed attempt whose error text is one space ends ready. */
  lemma BlankErrorEndsReady()
    ensures var d := ReportData("c", Some("error"), Some(false), Some("error"), Some(false), [], Some(" "), None, None);
            Finalized(d).ready == Some(true) && !AttemptReady(d)
  {
    var d := ReportData("c", Some("error"), Some(false), Some("error"), Some(false), [], Some(" "), None, None);
    ReadyExactlyWhen(d);
    TrimShape(" ");
    TrimPlain("error");
  }

  // ---------------------------------------------------------------------------------------
  // The report written out
  // ---------------------------------------------------------------------------------------

  /** The status of the attempt: its own, else the report's, trimmed; a blank one counts as not ready. */
  function StatusText(d: ReportData): string {
    var given := if d.attemptStatus.Some? && d.attemptStatus.value != "" then d.attemptStatus.value
                 else if d.status.Some? then d.status.value else "";
    if Trim(given) == "" then "not_ready" else Trim(given)
  }

  /** The one text with which the history objects, if it does. */
  function Objection(d: ReportData): seq<string> {
    match d.historyGate
    case None => []
    case Some(h) =>
      if h.error != "" then ["history gate evaluation failed: " + h.error]
      else if !h.evaluated || h.requirementPassed then []
      else
        var id := if h.focusId != "" then h.focusId else if d.candidateId != "" then d.candidateId else "candidate";
        ["candidate " + id + " has only " + IntText(h.green) + "/" + IntText(h.required)
         + " consecutive green attempts"]
  }

  lemma StatusIs(d: ReportData)
    ensures AttemptStatus(d) == StatusText(d)
  {
  }

  lemma ObjectionIs(d: ReportData)
    ensures HistoryReasons(d) == Objection(d)
  {
  }

  /** Blank reasons make no difference to the reported list. */
  lemma {:induction false} DedupDropsBlanks(reasons: seq<string>, more: seq<string>)
    ensures Dedup(NonBlank(reasons) + more) == Dedup(reasons + more)
  {
    hide Trim;
    if more != [] {
      var before := more[..|more| - 1];
      DedupDropsBlanks(reasons, before);
      assert (NonBlank(reasons) + more)[..|NonBlank(reasons) + more| - 1] == NonBlank(reasons) + before;
      assert (reasons + more)[..|reasons + more| - 1] == reasons + before;
    } else {
      DedupNonBlank(reasons);
      assert NonBlank(reasons) + more == NonBlank(reasons) && reasons + more == reasons;
    }
  }

  lemma {:induction false} DedupNonBlank(reasons: seq<string>)
    ensures Dedup(NonBlank(reasons)) == Dedup(reasons)
  {
    hide Trim, Filter;
    if reasons == [] {
      FilterNone((r: string) => Trim(r) != "");
    } else {
      var before, last := reasons[..|reasons| - 1], reasons[|reasons| - 1];
      DedupNonBlank(before);
      FilterAppend(before, last, r => Trim(r) != "");
      assert before + [last] == reasons;
      assert (NonBlank(before) + [last])[..|NonBlank(before)|] == NonBlank(before);
      assert NonBlank(before) + [] == NonBlank(before);
    }
  }

  /** What blocks, stated on the report's own fields. A ready attempt is blocked by the history alone.
      Otherwise its non-blank readiness reasons block; only if there are none does the error text, for
      an error, or else the status stand in for them. The history's objection comes last. Blanks and
      repeats are dropped as `DedupShape` says. */
  lemma BlockingReasons(d: ReportData)
    ensures var reported := Finalized(d).finalGate;
            var ready := if d.attemptReady.Some? then d.attemptReady.value else d.ready == Some(true);
            && reported.Some?
            && reported.value.blockingReasons ==
                 if ready then Dedup(Objection(d))
                 else if exists i :: 0 <= i < |d.readinessReasons| && Trim(d.readinessReasons[i]) != ""
                 then Dedup(d.readinessReasons + Objection(d))
                 else if StatusText(d) == "error"
                 then Dedup([if d.error.Some? && d.error.value != "" then d.error.value else "current attempt failed"]
                            + Objection(d))
                 else Dedup(["current candidate attempt is " + StatusText(d)] + Objection(d))
  {
    hide Trim, Dedup, IntText, Objection, StatusText, AttemptStatus, HistoryReasons;
    StatusIs(d);
    ObjectionIs(d);
    DedupDropsBlanks(d.readinessReasons, Objection(d));
    NonBlankExists(d.readinessReasons);
    assert [] + Objection(d) == Objection(d);
  }

  lemma NonBlankExists(reasons: seq<string>)
    ensures NonBlank(reasons) != [] <==> exists i :: 0 <= i < |reasons| && Trim(reasons[i]) != ""
  {
    hide Trim, Filter;
    FilterMembers(reasons, r => Trim(r) != "");
    if NonBlank(reasons) != [] {
      assert NonBlank(reasons)[0] in NonBlank(reasons);
    }
    if exists i :: 0 <= i < |reasons| && Trim(reasons[i]) != "" {
      var i :| 0 <= i < |reasons| && Trim(reasons[i]) != "";
      assert reasons[i] in NonBlank(reasons);
    }
  }

  /** The other fields of the final report: the status follows the verdict and remembers an error, the
      attempt's own status and verdict are kept beside it, and the inputs stay. */
  lemma FinalFields(d: ReportData)
    ensures var f := Finalized(d);
            && f.attemptStatus == Some(StatusText(d))
            && f.attemptReady == Some(if d.attemptReady.Some? then d.attemptReady.value else d.ready == Some(true))
            && f.ready.Some? && f.finalGate.Some?
            && f.status == Some(if f.ready.value then "ready"
                                else if StatusText(d) == "error" then "error" else "not_ready")
            && (f.finalGate.value.historyGateEvaluated <==>
                  d.historyGate.Some? && (d.historyGate.value.evaluated || d.historyGate.value.error != ""))
            && f.candidateId == d.candidateId && f.readinessReasons == d.readinessReasons
            && f.error == d.error && f.historyGate == d.historyGate
  {
    hide Trim, Dedup, AttemptReasons, HistoryReasons;
    StatusIs(d);
  }
}
