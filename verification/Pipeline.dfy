/** Whole runs of the cutover candidate pipeline (scripts/cutover_candidate_pipeline.py): each run
    names its candidate, writes and stages its attempt, evaluates the history and rewrites the
    report; the written reports are the history of later runs. */
module Pipeline {
  import opened Text
  import opened Sorting
  import opened ReleaseGate
  import opened PipelineHistory
  import opened Wrappers

  /** How the steps ended: with a verdict, or with an exception, before or after the candidate's name
      was filled in. */
  datatype Steps = Done(ready: bool, reasons: seq<string>) | Raised(error: string, named: bool)

  /** `rawId` and `rawLabel` are the arguments. `wantsHistory` says that an option other than the
      required streak asks for the history. `others` are the reports found beside the staged copy;
      `fetchError` is the text of an exception while looking for them. */
  datatype RunInput = RunInput(rawId: string, rawLabel: string, steps: Steps, time: int, path: string,
                               required: nat, wantsHistory: bool, fetchError: Option<string>, others: seq<Attempt>)

  // ---------------------------------------------------------------------------------------
  // One run
  // ---------------------------------------------------------------------------------------

  function FullLabel(inp: RunInput): string {
    if Trim(inp.rawLabel) != "" then Trim(inp.rawLabel)
    else if Trim(inp.rawId) != "" then Trim(inp.rawId)
    else "cutover-candidate"
  }

  function FullId(inp: RunInput): string {
    if Trim(inp.rawId) != "" then Trim(inp.rawId) else FullLabel(inp)
  }

  predicate Named(inp: RunInput) {
    inp.steps.Done? || inp.steps.named
  }

  /** The candidate arguments as they stand when the steps are over: a run that got far enough has
      overwritten them with the full names. */
  function AskId(inp: RunInput): string {
    if Named(inp) then FullId(inp) else inp.rawId
  }

  function AskLabel(inp: RunInput): string {
    if Named(inp) then FullLabel(inp) else inp.rawLabel
  }

  /** The attempt's report before the gate. */
  function Produced(inp: RunInput): ReportData {
    match inp.steps
    case Done(ready, reasons) =>
      var status := if ready then "ready" else "not_ready";
      ReportData(FullId(inp), Some(status), Some(ready), Some(status), Some(ready), reasons, None, None, None)
    case Raised(error, _) =>
      ReportData(Trim(AskId(inp)), Some("error"), Some(false), Some("error"), Some(false), [], Some(error), None, None)
  }

  /** The copy of that report, staged before the gate rewrites it, as the history reads it. */
  function Staged(inp: RunInput): Attempt {
    Attempt(if Trim(Produced(inp).candidateId) != "" then Trim(Produced(inp).candidateId) else Trim(FullLabel(inp)),
            FullLabel(inp), inp.time, inp.path, Produced(inp).ready == Some(true))
  }

  function Loaded(inp: RunInput): seq<Attempt> {
    Sort([Staged(inp)] + inp.others, NewerFirst)
  }

  predicate Requested(inp: RunInput) {
    inp.required > 0 || inp.wantsHistory
  }

  function GateFor(r: Result<Summary>): HistoryGate {
    match r
    case Failure(error) => HistoryGate(false, false, error, 0, 0, "")
    case Success(s) => HistoryGate(true, s.passed, "", s.green, s.required, s.focusId)
  }

  function Gated(inp: RunInput, r: Result<Summary>): ReportData {
    Produced(inp).(historyGate := Some(GateFor(r)))
  }

  ghost predicate Evaluates(inp: RunInput, r: Result<Summary>) {
    IsSummary(Loaded(inp), AskId(inp), AskLabel(inp), inp.required, r)
  }

  /** How a run may end: the final report, and whether the history counts as failed. */
  ghost predicate RunEnds(inp: RunInput, final: ReportData, failed: bool) {
    if !Requested(inp) then final == Finalized(Produced(inp)) && !failed
    else if inp.fetchError.Some? then final == Finalized(Gated(inp, Failure(inp.fetchError.value))) && failed
    else
      exists r ::
        Evaluates(inp, r) && final == Finalized(Gated(inp, r)) && (failed <==> r.Failure? || !r.value.passed)
  }

  method RunPipeline(inp: RunInput) returns (report: Report, exitCode: int, failed: bool)
    ensures RunEnds(inp, report.data, failed)
    ensures exitCode == (if report.data.ready == Some(true) && !failed then 0 else 1)
  {
    hide Finalized, IsSummary, Trim;
    report := new Report(Produced(inp));
    failed := false;
    if inp.required > 0 || inp.wantsHistory {
      if inp.fetchError.Some? {
        failed := true;
        report.data := Gated(inp, Failure(inp.fetchError.value));
      } else {
        NewerFirstOrder();
        SortSorts([Staged(inp)] + inp.others, NewerFirst);
        var r := BuildSummary(Loaded(inp), AskId(inp), AskLabel(inp), inp.required);
        failed := r.Failure? || !r.value.passed;
        report.data := Gated(inp, r);
        assert Evaluates(inp, r);
      }
    }
    report.ApplyFinalGateState();
    exitCode := if report.data.ready == Some(true) && !failed then 0 else 1;
  }

  lemma LoadedMembers(inp: RunInput)
    ensures multiset(Loaded(inp)) == multiset([Staged(inp)] + inp.others)
    ensures forall a :: a in Loaded(inp) <==> a == Staged(inp) || a in inp.others
    ensures Sorted(Loaded(inp), NewerFirst)
  {
    hide Trim;
    NewerFirstOrder();
    SortSorts([Staged(inp)] + inp.others, NewerFirst);
    assert forall a :: a in Loaded(inp) <==> a in multiset(Loaded(inp));
  }

  /** A filled-in name is never blank, and it is the name the staged copy is found under. */
  lemma NamedCandidate(inp: RunInput)
    ensures FullId(inp) != "" && Trim(FullId(inp)) == FullId(inp)
    ensures FullLabel(inp) != "" && Trim(FullLabel(inp)) == FullLabel(inp)
    ensures Named(inp) ==> Staged(inp).candidateId == FullId(inp)
  {
    hide Trim;
    TrimShape(inp.rawId);
    TrimShape(inp.rawLabel);
    TrimPlain("cutover-candidate");
  }

  lemma KeepsInputs(inp: RunInput, r: Result<Summary>)
    ensures Finalized(Gated(inp, r)).historyGate == Some(GateFor(r))
    ensures AttemptReady(Gated(inp, r)) == AttemptReady(Produced(inp))
    ensures BlankErrorOnly(Gated(inp, r)) <==> BlankErrorOnly(Produced(inp))
  {
    hide Trim, NonBlank;
  }

  /** What the attempt decides: its verdict, or an exception whose text is blank but not empty. */
  lemma ProducedShape(inp: RunInput)
    ensures AttemptReady(Produced(inp)) <==> inp.steps.Done? && inp.steps.ready
    ensures BlankErrorOnly(Produced(inp)) <==> inp.steps.Raised? && inp.steps.error != "" && Trim(inp.steps.error) == ""
    ensures Produced(inp).historyGate.None?
  {
    TrimPlain("error");
    TrimPlain("not_ready");
    hide Trim;
  }

  /** The history is in the report exactly when it was asked for: by a required streak or by one of the
      other options. */
  lemma HistoryAsked(inp: RunInput, final: ReportData, failed: bool)
    requires RunEnds(inp, final, failed)
    ensures final.historyGate.Some? <==> inp.required > 0 || inp.wantsHistory
    ensures !final.historyGate.Some? ==> !failed
    ensures inp.fetchError.Some? && final.historyGate.Some? ==>
              failed && !final.historyGate.value.evaluated && final.historyGate.value.error == inp.fetchError.value
  {
    hide Trim, Evaluates, Dedup, AttemptReasons, HistoryReasons;
  }

  /** The final report of a run that completed its steps, field by field: the candidate's name, which is
      the given id, or else the given label, or else a default; the attempt's status and verdict; and
      its readiness reasons. */
  lemma CompletedReport(inp: RunInput, final: ReportData, failed: bool)
    requires RunEnds(inp, final, failed) && inp.steps.Done?
    ensures final.candidateId == if Trim(inp.rawId) != "" then Trim(inp.rawId)
                                 else if Trim(inp.rawLabel) != "" then Trim(inp.rawLabel) else "cutover-candidate"
    ensures final.attemptReady == Some(inp.steps.ready)
    ensures final.attemptStatus == Some(if inp.steps.ready then "ready" else "not_ready")
    ensures final.readinessReasons == inp.steps.reasons && final.error.None?
  {
    assert StatusText(Produced(inp)) == (if inp.steps.ready then "ready" else "not_ready") by {
      TrimPlain("ready");
      TrimPlain("not_ready");
    }
    KeepsStatus(inp, Failure(""));
    hide Trim, Finalized, StatusText, Evaluates;
    if !Requested(inp) {
      FinalFields(Produced(inp));
    } else if inp.fetchError.Some? {
      FinalFields(Gated(inp, Failure(inp.fetchError.value)));
      KeepsStatus(inp, Failure(inp.fetchError.value));
    } else {
      var r :| Evaluates(inp, r) && final == Finalized(Gated(inp, r)) && (failed <==> r.Failure? || !r.value.passed);
      FinalFields(Gated(inp, r));
      KeepsStatus(inp, r);
    }
  }

  lemma KeepsStatus(inp: RunInput, r: Result<Summary>)
    ensures StatusText(Gated(inp, r)) == StatusText(Produced(inp))
  {
    hide Trim;
  }

  /** The final report of a run whose steps raised: an error, not ready, with the exception's text. */
  lemma RaisedReport(inp: RunInput, final: ReportData, failed: bool)
    requires RunEnds(inp, final, failed) && inp.steps.Raised?
    ensures final.attemptStatus == Some("error") && final.attemptReady == Some(false)
    ensures final.error == Some(inp.steps.error) && final.readinessReasons == []
  {
    assert StatusText(Produced(inp)) == "error" by {
      TrimPlain("error");
    }
    hide Trim, Finalized, StatusText, Evaluates;
    if !Requested(inp) {
      FinalFields(Produced(inp));
    } else if inp.fetchError.Some? {
      FinalFields(Gated(inp, Failure(inp.fetchError.value)));
      KeepsStatus(inp, Failure(inp.fetchError.value));
    } else {
      var r :| Evaluates(inp, r) && final == Finalized(Gated(inp, r)) && (failed <==> r.Failure? || !r.value.passed);
      FinalFields(Gated(inp, r));
      KeepsStatus(inp, r);
    }
  }

  /** The attempt lets the report end ready. */
  predicate AttemptPasses(inp: RunInput) {
    if inp.steps.Done? then inp.steps.ready else inp.steps.error != "" && Trim(inp.steps.error) == ""
  }

  lemma GatedReady(inp: RunInput, r: Result<Summary>)
    ensures Finalized(Gated(inp, r)).ready == Some(true) <==>
            AttemptPasses(inp) && (if r.Failure? then r.error == "" else r.value.passed)
    ensures Finalized(Gated(inp, r)).ready == Some(true) || Finalized(Gated(inp, r)).ready == Some(false)
    ensures Finalized(Produced(inp)).ready == Some(true) <==> AttemptPasses(inp)
  {
    hide Trim, Dedup, AttemptReasons, HistoryReasons, AttemptReady, BlankErrorOnly;
    ReadyExactlyWhen(Gated(inp, r));
    ReadyExactlyWhen(Produced(inp));
    KeepsInputs(inp, r);
    ProducedShape(inp);
  }

  /** All reports loaded for the run's own candidate, newest first. */
  function OwnReports(inp: RunInput): seq<Attempt> {
    Filter(Loaded(inp), Of(FullId(inp)))
  }

  ghost predicate Green(inp: RunInput) {
    inp.required <= |OwnReports(inp)| && forall i | 0 <= i < inp.required :: OwnReports(inp)[i].ready
  }

  /** A named run always finds its own candidate in the history, for its staged copy is there. */
  lemma OwnFocus(inp: RunInput, r: Result<Summary>)
    requires Named(inp) && Evaluates(inp, r)
    ensures r.Success? && r.value.focusId == FullId(inp) && (r.value.passed <==> Green(inp))
            && r.value.focused == OwnReports(inp)
    ensures Staged(inp) in OwnReports(inp)
  {
    hide Trim, Candidates, Filter, Sort, HasLabel, FullId, FullLabel;
    NamedCandidate(inp);
    LoadedMembers(inp);
    CandidatesAll(Loaded(inp));
    assert Staged(inp) in Loaded(inp);
    FilterMembers(Loaded(inp), Of(FullId(inp)));
  }

  /** A named run that looks at the history ends ready exactly when its attempt passes and the newest
      reports of its own candidate, as many as required, are all ready. The staged copy of the
      attempt, with the attempt's own verdict, is among that candidate's reports. */
  lemma ReadyRunsAreGreen(inp: RunInput, final: ReportData, failed: bool)
    requires RunEnds(inp, final, failed) && Named(inp) && Requested(inp) && inp.fetchError.None?
    ensures final.ready == Some(true) <==> AttemptPasses(inp) && Green(inp)
    ensures failed <==> !Green(inp)
    ensures final.historyGate.Some? && final.historyGate.value.evaluated
            && final.historyGate.value.focusId == FullId(inp)
    ensures Staged(inp) in OwnReports(inp) && (Staged(inp).ready <==> inp.steps.Done? && inp.steps.ready)
  {
    hide Finalized, Trim, IsSummary, Evaluates, Filter, Sort, FullId, FullLabel, Green, OwnReports;
    var r :| Evaluates(inp, r) && final == Finalized(Gated(inp, r)) && (failed <==> r.Failure? || !r.value.passed);
    OwnFocus(inp, r);
    GatedReady(inp, r);
    KeepsInputs(inp, r);
  }

  /** If no other report of the candidate is as new, the streak starts with the current attempt. */
  lemma CurrentComesFirst(inp: RunInput)
    requires Named(inp) && forall a | a in inp.others && a.candidateId == FullId(inp) :: a.time < inp.time
    ensures OwnReports(inp) != [] && OwnReports(inp)[0] == Staged(inp)
  {
    hide Trim, Filter, Sort, FullId, FullLabel, Produced, Le;
    NamedCandidate(inp);
    LoadedMembers(inp);
    var own := OwnReports(inp);
    FilterMembers(Loaded(inp), Of(FullId(inp)));
    FilterSorted(Loaded(inp), Of(FullId(inp)), NewerFirst);
    assert Staged(inp) in Loaded(inp);
    assert Staged(inp) in own && own[0] in own;
    var i :| 0 <= i < |own| && own[i] == Staged(inp);
    assert i > 0 ==> NewerFirst(own[0], own[i]);
    StagedTime(inp);
  }

  lemma StagedTime(inp: RunInput)
    ensures Staged(inp).time == inp.time && Staged(inp).candidateLabel == FullLabel(inp)
  {
  }

  /** No run ends ready whose attempt does not pass, whatever the history says. */
  lemma FinalReadyMeansAttemptReady(inp: RunInput, final: ReportData, failed: bool)
    requires RunEnds(inp, final, failed) && final.ready == Some(true)
    ensures AttemptPasses(inp)
  {
    hide Finalized, Trim, Evaluates, AttemptPasses;
    if !Requested(inp) {
      GatedReady(inp, Failure(""));
    } else if inp.fetchError.Some? {
      GatedReady(inp, Failure(inp.fetchError.value));
    } else {
      var r :| Evaluates(inp, r) && final == Finalized(Gated(inp, r)) && (failed <==> r.Failure? || !r.value.passed);
      GatedReady(inp, r);
    }
  }

  ghost predicate HistoryGreen(final: ReportData) {
    final.historyGate.Some? && final.historyGate.value.evaluated && final.historyGate.value.requirementPassed
  }

  /** Success is reported to the caller exactly when the attempt passes and the history, if asked for,
      was evaluated and passed. */
  lemma ExitZeroMeansPassed(inp: RunInput, final: ReportData, failed: bool)
    requires RunEnds(inp, final, failed)
    ensures final.ready == Some(true) && !failed <==> AttemptPasses(inp) && (Requested(inp) ==> HistoryGreen(final))
  {
    hide Finalized, Trim, Evaluates, AttemptPasses;
    if !Requested(inp) {
      GatedReady(inp, Failure(""));
    } else if inp.fetchError.Some? {
      KeepsInputs(inp, Failure(inp.fetchError.value));
    } else {
      var r :| Evaluates(inp, r) && final == Finalized(Gated(inp, r)) && (failed <==> r.Failure? || !r.value.passed);
      GatedReady(inp, r);
      KeepsInputs(inp, r);
    }
  }

  /** The gate is passed over, not failed, when the history could not be looked at and the exception
      has no text: a passing attempt then ends ready although the run fails. */
  lemma SilentFetchFailureEndsReady(inp: RunInput, final: ReportData, failed: bool)
    requires RunEnds(inp, final, failed) && Requested(inp) && inp.fetchError.Some?
    ensures failed
    ensures final.ready == Some(true) <==> inp.fetchError.value == "" && AttemptPasses(inp)
  {
    hide Finalized, Trim, AttemptPasses;
    GatedReady(inp, Failure(inp.fetchError.value));
  }

  function ShortfallText(id: string, green: nat, required: nat): string {
    "candidate " + id + " has only " + IntText(green) + "/" + IntText(required) + " consecutive green attempts"
  }

  /** The length of the all-ready prefix. */
  ghost predicate IsStreak(attempts: seq<Attempt>, n: nat) {
    n <= |attempts| && (forall i | 0 <= i < n :: attempts[i].ready) && (n == |attempts| || !attempts[n].ready)
  }

  lemma ReportsReason(d: ReportData, reason: string)
    requires reason in HistoryReasons(d) && reason != "" && !IsSpace(reason[0]) && !IsSpace(reason[|reason| - 1])
    ensures Finalized(d).finalGate.Some? && reason in Finalized(d).finalGate.value.blockingReasons
  {
    hide Trim, Dedup, AttemptReasons, HistoryReasons;
    var reasons := AttemptReasons(d) + HistoryReasons(d);
    TrimPlain(reason);
    DedupShape(reasons);
    assert reason in reasons;
    FirstMissing(reasons, reason);
  }

  /** A gate that stays shut says why: the report names the run's candidate, its true streak of green
      attempts, which is short of the requirement, and the requirement. */
  lemma ShortfallReported(inp: RunInput, final: ReportData, failed: bool)
    requires RunEnds(inp, final, failed) && Named(inp) && Requested(inp) && inp.fetchError.None? && !Green(inp)
    ensures failed && final.ready == Some(false) && final.finalGate.Some?
    ensures exists n: nat :: IsStreak(OwnReports(inp), n) && n < inp.required
              && ShortfallText(FullId(inp), n, inp.required) in final.finalGate.value.blockingReasons
  {
    hide Finalized, Trim, Filter, Sort, IntText, FullId, FullLabel, Green, OwnReports;
    var r :| Evaluates(inp, r) && final == Finalized(Gated(inp, r)) && (failed <==> r.Failure? || !r.value.passed);
    OwnFocus(inp, r);
    NamedCandidate(inp);
    GatedReady(inp, r);
    assert r.value.required == inp.required && IsStreak(OwnReports(inp), r.value.green) && r.value.green < inp.required;
    hide IsSummary, IsStreak;
    var text := ShortfallText(FullId(inp), r.value.green, inp.required);
    assert text[0] == 'c' && text[|text| - 1] == 's';
    ReportsReason(Gated(inp, r), text);
  }

  // ---------------------------------------------------------------------------------------
  // Where reports come from
  // ---------------------------------------------------------------------------------------

  /** `f` places the elements of `r` at different positions of `s`. */
  ghost predicate Places<T(!new)>(f: seq<nat>, r: seq<T>, s: seq<T>) {
    && |f| == |r|
    && (forall i | 0 <= i < |f| :: f[i] < |s| && r[i] == s[f[i]])
    && forall i, j | 0 <= i < j < |f| :: f[i] != f[j]
  }

  /** A rearrangement places every element. */
  lemma {:induction false} Rearranged<T(!new)>(r: seq<T>, s: seq<T>) returns (f: seq<nat>)
    requires multiset(r) <= multiset(s)
    ensures Places(f, r, s)
  {
    if r == [] {
      f := [];
    } else {
      assert r[0] in multiset(r) && r[0] in multiset(s);
      var k :| 0 <= k < |s| && s[k] == r[0];
      TailMultiset(r);
      WithoutOne(s, k);
      var g := Rearranged(r[1..], s[..k] + s[k + 1..]);
      f := PlaceFirst(g, r, s, k);
    }
  }

  lemma WithoutOne<T>(s: seq<T>, k: nat)
    requires k < |s|
    ensures multiset(s[..k] + s[k + 1..]) == multiset(s) - multiset{s[k]}
  {
    assert s == s[..k] + [s[k]] + s[k + 1..];
  }

  lemma PlaceFirst<T(!new)>(g: seq<nat>, r: seq<T>, s: seq<T>, k: nat) returns (f: seq<nat>)
    requires r != [] && k < |s| && s[k] == r[0] && Places(g, r[1..], s[..k] + s[k + 1..])
    ensures Places(f, r, s)
  {
    f := [k] + seq(|g|, i requires 0 <= i < |g| => if g[i] < k then g[i] else g[i] + 1);
    forall i | 0 < i < |f| ensures f[i] < |s| && f[i] != k && r[i] == s[f[i]] {
      assert r[1..][i - 1] == r[i];
    }
  }

  // ---------------------------------------------------------------------------------------
  // Sequences of runs
  // ---------------------------------------------------------------------------------------

  /** Which report of which run was found: the one it ended with, or a copy from before its gate. */
  datatype Source = FinalOf(run: nat) | BeforeGateOf(run: nat)

  /** The report as the history reads it, its file name aside. */
  function WrittenBy(runs: seq<RunInput>, finals: seq<ReportData>, s: Source): Attempt
    requires s.run < |runs| == |finals|
  {
    var staged := Staged(runs[s.run]);
    if s.FinalOf? then staged.(ready := finals[s.run].ready == Some(true)) else staged
  }

  /** The runs in order: each report found beside the staged copy is one that an earlier run ended
      with, or a copy of an earlier or the current attempt from before its gate. */
  ghost predicate Chain(runs: seq<RunInput>, finals: seq<ReportData>, sources: seq<seq<Source>>) {
    && |finals| == |runs| == |sources|
    && forall k | 0 <= k < |runs| ::
         && (exists failed :: RunEnds(runs[k], finals[k], failed))
         && |sources[k]| == |runs[k].others|
         && forall i | 0 <= i < |sources[k]| ::
              && sources[k][i].run <= k && (sources[k][i].FinalOf? ==> sources[k][i].run < k)
              && runs[k].others[i] == WrittenBy(runs, finals, sources[k][i]).(path := runs[k].others[i].path)
  }

  /** No run stands behind two of the reports loaded, the staged copy included. */
  ghost predicate EachRunOnce(sources: seq<Source>, k: nat) {
    && (forall i | 0 <= i < |sources| :: sources[i].run != k)
    && forall i, j | 0 <= i < j < |sources| :: sources[i].run != sources[j].run
  }

  function RunBehind(sources: seq<Source>, k: nat, position: nat): nat
    requires position <= |sources|
  {
    if position == 0 then k else sources[position - 1].run
  }

  /** `from` names the runs behind the required reports: runs of the same candidate whose own attempts
      passed, at the times the reports carry. */
  ghost predicate Backed(runs: seq<RunInput>, k: nat, from: seq<nat>)
    requires k < |runs|
  {
    && |from| == runs[k].required <= |OwnReports(runs[k])|
    && forall i | 0 <= i < |from| ::
         && from[i] <= k && Staged(runs[from[i]]).candidateId == FullId(runs[k])
         && AttemptPasses(runs[from[i]]) && runs[from[i]].time == OwnReports(runs[k])[i].time
  }

  ghost predicate Different(from: seq<nat>) {
    forall i, j | 0 <= i < j < |from| :: from[i] != from[j]
  }

  lemma ReadySourcePassed(runs: seq<RunInput>, finals: seq<ReportData>, sources: seq<seq<Source>>, s: Source)
    requires Chain(runs, finals, sources) && s.run < |runs| && WrittenBy(runs, finals, s).ready
    ensures AttemptPasses(runs[s.run])
  {
    hide Trim, RunEnds, AttemptReady, FullId, FullLabel;
    if s.FinalOf? {
      var failed :| RunEnds(runs[s.run], finals[s.run], failed);
      FinalReadyMeansAttemptReady(runs[s.run], finals[s.run], failed);
    }
  }

  /** Behind a ready run stand as many reports as required, each of a run of the same candidate whose
      own attempt passed; and these are different runs if no run supplied two of the reports. */
  lemma StreaksAreRealAttempts(runs: seq<RunInput>, finals: seq<ReportData>, sources: seq<seq<Source>>, k: nat)
    requires Chain(runs, finals, sources) && k < |runs|
    requires Named(runs[k]) && Requested(runs[k]) && runs[k].fetchError.None? && finals[k].ready == Some(true)
    ensures AttemptPasses(runs[k])
    ensures exists from :: Backed(runs, k, from) && (EachRunOnce(sources[k], k) ==> Different(from))
  {
    hide Trim, RunEnds, AttemptPasses, Produced, FullId, FullLabel, Filter, Sort;
    var inp := runs[k];
    var failed :| RunEnds(inp, finals[k], failed);
    ReadyRunsAreGreen(inp, finals[k], failed);
    var own, all := OwnReports(inp), [Staged(inp)] + inp.others;
    LoadedMembers(inp);
    FilterMultiset(Loaded(inp), Of(FullId(inp)));
    FilterMembers(Loaded(inp), Of(FullId(inp)));
    var f := Rearranged(own, all);
    var from := seq(inp.required, i requires 0 <= i < inp.required => RunBehind(sources[k], k, f[i]));
    forall i | 0 <= i < inp.required
      ensures from[i] <= k && Staged(runs[from[i]]).candidateId == FullId(inp) && AttemptPasses(runs[from[i]])
              && runs[from[i]].time == own[i].time
    {
      assert own[i] in own && own[i].ready;
      var s := if f[i] == 0 then BeforeGateOf(k) else sources[k][f[i] - 1];
      assert own[i] == WrittenBy(runs, finals, s).(path := own[i].path);
      ReadySourcePassed(runs, finals, sources, s);
      StagedTime(runs[s.run]);
    }
    assert Backed(runs, k, from);
    if EachRunOnce(sources[k], k) {
      assert Different(from);
    }
  }

  /** Which holds can be read off the reports: where runs have different times, the runs behind the
      required reports are different exactly when the times of these reports are. */
  lemma DifferentRunsExactlyWhen(runs: seq<RunInput>, k: nat, from: seq<nat>)
    requires k < |runs| && Backed(runs, k, from)
    requires forall i, j | 0 <= i < j < |runs| :: runs[i].time != runs[j].time
    ensures Different(from) <==>
            forall i, j | 0 <= i < j < runs[k].required :: OwnReports(runs[k])[i].time != OwnReports(runs[k])[j].time
  {
    hide OwnReports, FullId, FullLabel, Staged, AttemptPasses;
    forall i, j | 0 <= i < j < |from|
      ensures from[i] == from[j] <==> OwnReports(runs[k])[i].time == OwnReports(runs[k])[j].time
    {
      assert runs[from[i]].time == runs[from[j]].time <==> from[i] == from[j];
    }
  }

  /** Where reports may come from files written before the gate, a single ready attempt opens a gate of
      any size: its own report only has to be found often enough. */
  lemma OneAttemptOpensAnyGate(inp: RunInput, final: ReportData, failed: bool)
    requires RunEnds(inp, final, failed) && inp.steps.Done? && inp.steps.ready && inp.fetchError.None?
    requires 0 < inp.required <= 1 + |inp.others|
    requires forall i | 0 <= i < |inp.others| :: inp.others[i] == Staged(inp).(path := inp.others[i].path)
    ensures Chain([inp], [final], [seq(|inp.others|, _ => BeforeGateOf(0))]) && final.ready == Some(true) && !failed
  {
    hide Trim, RunEnds, Produced, FullId, FullLabel, Sort, Filter;
    NamedCandidate(inp);
    LoadedMembers(inp);
    ReadyRunsAreGreen(inp, final, failed);
    assert |Loaded(inp)| == 1 + |inp.others| by {
      assert |multiset(Loaded(inp))| == |multiset([Staged(inp)] + inp.others)|;
    }
    FilterAll(Loaded(inp), Of(FullId(inp)));
    assert forall a | a in Loaded(inp) :: a.ready;
    assert Green(inp);
    assert RunEnds([inp][0], [final][0], failed);
  }

  /** The gate can never open by itself: if every run asks for two or more green reports and finds only
      reports that such runs ended with, no run ever ends ready, however many attempts are ready. */
  lemma {:induction false} GatedRunsNeverReady(runs: seq<RunInput>, finals: seq<ReportData>,
        sources: seq<seq<Source>>, k: nat)
    requires Chain(runs, finals, sources) && k < |runs|
    requires forall j | 0 <= j < |runs| :: runs[j].required >= 2 && runs[j].fetchError.None?
    requires forall j, i | 0 <= j < |runs| && 0 <= i < |sources[j]| :: sources[j][i].FinalOf?
    ensures finals[k].ready != Some(true)
    decreases k
  {
    hide Trim, Finalized, AttemptPasses, Produced, FullId, FullLabel, Sort, Filter, Evaluates;
    var inp, final := runs[k], finals[k];
    forall i | 0 <= i < |inp.others| ensures !inp.others[i].ready {
      GatedRunsNeverReady(runs, finals, sources, sources[k][i].run);
    }
    if final.ready == Some(true) {
      var failed :| RunEnds(inp, final, failed);
      var r :| Evaluates(inp, r) && final == Finalized(Gated(inp, r)) && (failed <==> r.Failure? || !r.value.passed);
      GatedReady(inp, r);
      PassedFront(inp, r);
      OneReadyIsNoStreak(inp, Of(r.value.focusId));
    }
  }

  lemma PassedFront(inp: RunInput, r: Result<Summary>)
    requires Evaluates(inp, r) && (if r.Failure? then r.error == "" else r.value.passed)
    ensures r.Success?
    ensures var focused := Filter(Loaded(inp), Of(r.value.focusId));
            inp.required <= |focused| && forall i | 0 <= i < inp.required :: focused[i].ready
  {
    hide Trim, Focus, Filter, Sort, FullId, FullLabel;
  }

  /** With no ready report beside it, the staged copy alone makes a streak of at most one. */
  lemma OneReadyIsNoStreak(inp: RunInput, p: Attempt -> bool)
    requires forall a | a in inp.others :: !a.ready
    ensures var f := Filter(Loaded(inp), p); |f| >= 2 ==> !f[0].ready || !f[1].ready
  {
    hide Filter, Sort, Trim, Produced, FullId, FullLabel;
    var f, s := Filter(Loaded(inp), p), Staged(inp);
    LoadedMembers(inp);
    FilterMembers(Loaded(inp), p);
    FilterMultiset(Loaded(inp), p);
    assert s !in inp.others || !s.ready;
    assert s.ready ==> multiset(f)[s] <= multiset([s] + inp.others)[s] == 1;
    assert forall a | a in f && a.ready :: a == s;
    if |f| >= 2 {
      TwiceInFront(f);
    }
  }

  lemma TwiceInFront<T>(f: seq<T>)
    requires |f| >= 2
    ensures f[0] == f[1] ==> multiset(f)[f[0]] >= 2
  {
    assert f == [f[0], f[1]] + f[2..];
  }
}
