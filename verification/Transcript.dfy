/** Recovering tool calls from audit rows into a benchmark transcript
    (scripts/pinchbench_blue_runner.py). */
module Transcript {
  import opened Text
  import opened Sorting
  import opened Wrappers

  // ---------------------------------------------------------------------------------------
  // Transcripts
  // ---------------------------------------------------------------------------------------

  datatype Block =
    | Raw(raw: string)
    | TextBlock(text: string)
    | ToolCall(id: string, name: string, canonical: string, arguments: string)

  /** Zero fields stand for missing ones. */
  datatype Usage = Usage(input: int, output: int, cacheRead: int, cacheWrite: int, total: int, cost: real)

  datatype Entry =
    | Message(role: string, content: seq<Block>, usage: Usage, toolCallId: string, toolName: string,
              canonicalToolName: string)
    | Other(kind: string)

  const NO_USAGE: Usage := Usage(0, 0, 0, 0, 0, 0.0)

  predicate IsAssistant(e: Entry) {
    e.Message? && e.role == "assistant"
  }

  predicate CallsTool(e: Entry) {
    IsAssistant(e) && exists i :: 0 <= i < |e.content| && e.content[i].ToolCall?
  }

  predicate HasToolCalls(t: seq<Entry>) {
    exists i :: 0 <= i < |t| && CallsTool(t[i])
  }

  function PartOf(b: Block): string {
    match b
    case Raw(raw) => raw
    case TextBlock(text) => text
    case ToolCall(_, _, _, _) => ""
  }

  /** The non-empty parts joined by newlines. */
  function TextOf(content: seq<Block>): string {
    if content == [] then ""
    else
      var before, part := TextOf(content[..|content| - 1]), PartOf(content[|content| - 1]);
      if part == "" then before else if before == "" then part else before + "\n" + part
  }

  /** The text of the last assistant message. */
  function LatestAssistantText(t: seq<Entry>): string {
    if t == [] then ""
    else if IsAssistant(t[|t| - 1]) then TextOf(t[|t| - 1].content)
    else LatestAssistantText(t[..|t| - 1])
  }

  datatype Totals = Totals(input: int, output: int, cacheRead: int, cacheWrite: int, total: int, cost: real,
                           requests: nat)

  function Add(a: Totals, e: Entry): Totals {
    if !IsAssistant(e) then a
    else Totals(a.input + e.usage.input, a.output + e.usage.output, a.cacheRead + e.usage.cacheRead,
                a.cacheWrite + e.usage.cacheWrite, a.total + e.usage.total, a.cost + e.usage.cost, a.requests + 1)
  }

  function TotalsFrom(start: Totals, t: seq<Entry>): Totals {
    if t == [] then start else Add(TotalsFrom(start, t[..|t| - 1]), t[|t| - 1])
  }

  const ZERO: Totals := Totals(0, 0, 0, 0, 0, 0.0, 0)

  method ExtractUsage(t: seq<Entry>) returns (totals: Totals)
    ensures totals == TotalsFrom(ZERO, t)
  {
    totals := ZERO;
    for i := 0 to |t|
      invariant totals == TotalsFrom(ZERO, t[..i])
    {
      assert t[..i + 1][..i] == t[..i];
      var e := t[i];
      if IsAssistant(e) {
        totals := totals.(requests := totals.requests + 1, input := totals.input + e.usage.input,
                          output := totals.output + e.usage.output, cacheRead := totals.cacheRead + e.usage.cacheRead,
                          cacheWrite := totals.cacheWrite + e.usage.cacheWrite, total := totals.total + e.usage.total,
                          cost := totals.cost + e.usage.cost);
      }
    }
    assert t[..|t|] == t;
  }

  method JoinParts(content: seq<Block>) returns (text: string)
    ensures text == TextOf(content)
  {
    text := "";
    for i := 0 to |content|
      invariant text == TextOf(content[..i])
    {
      assert content[..i + 1][..i] == content[..i];
      var part := match content[i] case Raw(raw) => raw case TextBlock(t) => t case ToolCall(_, _, _, _) => "";
      if part != "" {
        if text != "" {
          text := text + "\n";
        }
        text := text + part;
      }
    }
    assert content[..|content|] == content;
  }

  method ExtractLatestAssistantText(t: seq<Entry>) returns (text: string)
    ensures text == LatestAssistantText(t)
  {
    var i := |t|;
    assert t[..|t|] == t;
    while i > 0
      invariant 0 <= i <= |t| && LatestAssistantText(t) == LatestAssistantText(t[..i])
    {
      assert t[..i][..i - 1] == t[..i - 1];
      i := i - 1;
      if IsAssistant(t[i]) {
        text := JoinParts(t[i].content);
        return;
      }
    }
    return "";
  }

  // ---------------------------------------------------------------------------------------
  // Audit rows
  // ---------------------------------------------------------------------------------------

  datatype AuditRow = AuditRow(createdAt: string, eventType: string, role: string, toolCallId: string,
                               toolName: string, payload: string)

  function EventOf(row: AuditRow): string {
    Lower(Trim(row.eventType))
  }

  /** Calls before other rows of the same time. */
  function CallRank(row: AuditRow): int {
    if EventOf(row) == "assistant_tool_call" then 0 else 1
  }

  predicate RowLe(a: AuditRow, b: AuditRow) {
    if a.createdAt != b.createdAt then Le(a.createdAt, b.createdAt)
    else if CallRank(a) != CallRank(b) then CallRank(a) < CallRank(b)
    else Le(a.toolCallId, b.toolCallId)
  }

  lemma RowOrder()
    ensures TotalPreorder(RowLe)
  {
    hide CallRank, Le;
    LeOrder();
  }

  /** Rows that the sort does not tell from `row`. */
  function TiedWith(row: AuditRow): AuditRow -> bool {
    (other: AuditRow) => RowLe(other, row) && RowLe(row, other)
  }

  function Flat(sources: seq<seq<AuditRow>>): seq<AuditRow> {
    if sources == [] then [] else Flat(sources[..|sources| - 1]) + sources[|sources| - 1]
  }

  function Fingerprints(rows: seq<AuditRow>, fingerprint: AuditRow -> seq<string>): set<seq<string>> {
    set row | row in rows :: fingerprint(row)
  }

  /** The first row of every fingerprint, in order. */
  function FirstOfEach(rows: seq<AuditRow>, fingerprint: AuditRow -> seq<string>): seq<AuditRow> {
    if rows == [] then []
    else
      var before, last := FirstOfEach(rows[..|rows| - 1], fingerprint), rows[|rows| - 1];
      if fingerprint(last) in Fingerprints(before, fingerprint) then before else before + [last]
  }

  /** The kept rows have pairwise different fingerprints and represent every row read. */
  lemma {:induction false} FirstOfEachShape(rows: seq<AuditRow>, fingerprint: AuditRow -> seq<string>)
    ensures var kept := FirstOfEach(rows, fingerprint);
            && (forall i, j | 0 <= i < j < |kept| :: fingerprint(kept[i]) != fingerprint(kept[j]))
            && Fingerprints(kept, fingerprint) == Fingerprints(rows, fingerprint)
            && forall row | row in kept :: row in rows
  {
    if rows != [] {
      var before, last := rows[..|rows| - 1], rows[|rows| - 1];
      FirstOfEachShape(before, fingerprint);
      assert rows == before + [last];
      var kept := FirstOfEach(before, fingerprint);
      forall i | 0 <= i < |kept| ensures fingerprint(kept[i]) in Fingerprints(kept, fingerprint) {
        assert kept[i] in kept;
      }
      assert Fingerprints(before + [last], fingerprint) == Fingerprints(before, fingerprint) + {fingerprint(last)};
      assert Fingerprints(kept + [last], fingerprint) == Fingerprints(kept, fingerprint) + {fingerprint(last)};
    }
  }

  lemma NothingRead(fingerprint: AuditRow -> seq<string>)
    ensures FirstOfEach([], fingerprint) == [] && Fingerprints([], fingerprint) == {}
  {
  }

  lemma FirstOfEachStep(rows: seq<AuditRow>, row: AuditRow, fingerprint: AuditRow -> seq<string>)
    ensures var kept := FirstOfEach(rows, fingerprint);
            && FirstOfEach(rows + [row], fingerprint)
               == (if fingerprint(row) in Fingerprints(kept, fingerprint) then kept else kept + [row])
            && Fingerprints(kept + [row], fingerprint) == Fingerprints(kept, fingerprint) + {fingerprint(row)}
  {
    assert (rows + [row])[..|rows|] == rows;
  }

  /** Merges the rows of every readable source, each fingerprint once, ordered by time. `fingerprint`
      stands for the normalized fingerprint, rows that tie keep the order in which they were read;
      an unreadable source contributes no rows. */
  method LoadToolAuditRows(sources: seq<seq<AuditRow>>, fingerprint: AuditRow -> seq<string>)
    returns (merged: seq<AuditRow>)
    ensures merged == Sort(FirstOfEach(Flat(sources), fingerprint), RowLe)
    ensures SortedVersion(merged, FirstOfEach(Flat(sources), fingerprint), RowLe)
    ensures forall row ::
              Filter(merged, TiedWith(row)) == Filter(FirstOfEach(Flat(sources), fingerprint), TiedWith(row))
  {
    hide RowLe, FirstOfEach, Fingerprints, Sort, Filter;
    NothingRead(fingerprint);
    merged := [];
    var seen: set<seq<string>> := {};
    for i := 0 to |sources|
      invariant merged == FirstOfEach(Flat(sources[..i]), fingerprint) && seen == Fingerprints(merged, fingerprint)
    {
      assert sources[..i + 1][..i] == sources[..i];
      var rows := sources[i];
      assert Flat(sources[..i]) + rows[..0] == Flat(sources[..i]);
      for j := 0 to |rows|
        invariant merged == FirstOfEach(Flat(sources[..i]) + rows[..j], fingerprint)
                  && seen == Fingerprints(merged, fingerprint)
      {
        FirstOfEachStep(Flat(sources[..i]) + rows[..j], rows[j], fingerprint);
        assert Flat(sources[..i]) + rows[..j] + [rows[j]] == Flat(sources[..i]) + rows[..j + 1];
        if fingerprint(rows[j]) !in seen {
          seen := seen + {fingerprint(rows[j])};
          merged := merged + [rows[j]];
        }
      }
      assert rows[..|rows|] == rows;
    }
    assert sources[..|sources|] == sources;
    RowsSorted(merged);
    merged := Sort(merged, RowLe);
  }

  lemma RowsSorted(rows: seq<AuditRow>)
    ensures SortedVersion(Sort(rows, RowLe), rows, RowLe)
    ensures forall row :: Filter(Sort(rows, RowLe), TiedWith(row)) == Filter(rows, TiedWith(row))
  {
    RowOrder();
    hide RowLe, Sort, Filter;
    SortSorts(rows, RowLe);
    forall row ensures Filter(Sort(rows, RowLe), TiedWith(row)) == Filter(rows, TiedWith(row)) {
      SortStable(rows, RowLe, TiedWith(row));
    }
  }

  function DisplayToolName(name: string): string {
    if name == "web_query" then "web_search" else name
  }

  /** The original name, where the displayed one differs. */
  function Canonical(name: string): string {
    if DisplayToolName(name) != name then name else ""
  }

  function EntryFor(row: AuditRow, made: nat): seq<Entry> {
    var name := Trim(row.toolName);
    var id := Trim(row.toolCallId);
    if EventOf(row) == "assistant_tool_call" && name != "" then
      [Message("assistant",
               [ToolCall(if id != "" then id else "audit-" + NatText(made + 1), DisplayToolName(name),
                         Canonical(name), row.payload)],
               NO_USAGE, "", "", "")]
    else if EventOf(row) == "tool_result" then
      [Message("toolResult", [Raw(row.payload)], NO_USAGE, id, DisplayToolName(name), Canonical(name))]
    else []
  }

  function AuditEntries(rows: seq<AuditRow>): seq<Entry> {
    if rows == [] then []
    else
      var before := AuditEntries(rows[..|rows| - 1]);
      before + EntryFor(rows[|rows| - 1], |before|)
  }

  method BuildAuditTranscriptEntries(rows: seq<AuditRow>) returns (entries: seq<Entry>)
    ensures entries == AuditEntries(rows)
  {
    hide Trim, EventOf, NatText;
    entries := [];
    for i := 0 to |rows|
      invariant entries == AuditEntries(rows[..i])
    {
      assert rows[..i + 1][..i] == rows[..i];
      var row := rows[i];
      var name, id := Trim(row.toolName), Trim(row.toolCallId);
      if EventOf(row) == "assistant_tool_call" && name != "" {
        entries := entries + [Message("assistant",
          [ToolCall(if id != "" then id else "audit-" + NatText(|entries| + 1), DisplayToolName(name),
                    Canonical(name), row.payload)],
          NO_USAGE, "", "", "")];
        continue;
      }
      if EventOf(row) == "tool_result" {
        entries := entries + [Message("toolResult", [Raw(row.payload)], NO_USAGE, id, DisplayToolName(name),
                                      Canonical(name))];
      }
    }
    assert rows[..|rows|] == rows;
  }

  predicate Tells(row: AuditRow) {
    EventOf(row) == "tool_result" || (EventOf(row) == "assistant_tool_call" && Trim(row.toolName) != "")
  }

  /** Rows become entries one for one and in order, every named call and every result and nothing
      else; the number in a made-up call id is the position of the entry. */
  lemma {:induction false} EntriesFollowRows(rows: seq<AuditRow>)
    ensures var told := Filter(rows, Tells);
            && |AuditEntries(rows)| == |told|
            && forall k | 0 <= k < |told| :: EntryFor(told[k], k) == [AuditEntries(rows)[k]]
  {
    hide Trim, EventOf, NatText, DisplayToolName, Canonical, Filter;
    if rows == [] {
      FilterNone(Tells);
    } else {
      var before, last := rows[..|rows| - 1], rows[|rows| - 1];
      EntriesFollowRows(before);
      FilterAppend(before, last, Tells);
      assert rows == before + [last];
    }
  }

  /** Ids made up for calls without one never collide with each other. */
  lemma MadeUpIdsDiffer(rows: seq<AuditRow>, i: nat, j: nat)
    requires i < j < |Filter(rows, Tells)|
    requires var told := Filter(rows, Tells);
             forall row | row in {told[i], told[j]} ::
                 EventOf(row) == "assistant_tool_call" && Trim(row.toolCallId) == ""
    ensures |AuditEntries(rows)| == |Filter(rows, Tells)|
    ensures var a, b := AuditEntries(rows)[i], AuditEntries(rows)[j];
            && IsAssistant(a) && |a.content| == 1 && a.content[0].ToolCall?
            && IsAssistant(b) && |b.content| == 1 && b.content[0].ToolCall?
            && a.content[0].id != b.content[0].id
  {
    hide Trim, EventOf, NatText, DisplayToolName, Canonical, Filter, AuditEntries, EntryFor, IsAssistant;
    var told := Filter(rows, Tells);
    EntriesFollowRows(rows);
    FilterMembers(rows, Tells);
    assert told[i] in told && told[j] in told && told[i] in {told[i], told[j]} && told[j] in {told[i], told[j]};
    MadeUpId(told[i], i);
    MadeUpId(told[j], j);
    NatTextInjective(i + 1, j + 1);
  }

  lemma MadeUpId(row: AuditRow, made: nat)
    requires Tells(row) && EventOf(row) == "assistant_tool_call" && Trim(row.toolCallId) == ""
    ensures |EntryFor(row, made)| == 1
    ensures var e := EntryFor(row, made)[0];
            && IsAssistant(e) && |e.content| == 1 && e.content[0].ToolCall?
            && |e.content[0].id| >= 6 && e.content[0].id[6..] == NatText(made + 1)
  {
    hide Trim, EventOf, NatText, DisplayToolName, Canonical;
    assert ("audit-" + NatText(made + 1))[6..] == NatText(made + 1);
  }

  /** An injected entry has no text of its own and used no tokens; an assistant one calls a tool. */
  ghost predicate Injected(e: Entry) {
    && e.Message? && e.usage == NO_USAGE
    && (IsAssistant(e) ==> CallsTool(e) && TextOf(e.content) == "")
  }

  lemma {:induction false} AuditEntriesInjected(rows: seq<AuditRow>)
    ensures forall e | e in AuditEntries(rows) :: Injected(e)
  {
    hide Trim, EventOf, NatText, DisplayToolName;
    if rows != [] {
      AuditEntriesInjected(rows[..|rows| - 1]);
      forall e | e in EntryFor(rows[|rows| - 1], |AuditEntries(rows[..|rows| - 1])|) ensures Injected(e) {
        if IsAssistant(e) {
          assert e.content[0].ToolCall? && e.content[..0] == [];
          assert TextOf(e.content[..0]) == "";
        }
      }
    }
  }

  // ---------------------------------------------------------------------------------------
  // Injection
  // ---------------------------------------------------------------------------------------

  /** Before the last assistant message, or at the end if there is none. */
  ghost predicate IsInsertPoint(t: seq<Entry>, at: nat) {
    && at <= |t|
    && (forall i | at < i < |t| :: !IsAssistant(t[i]))
    && (at < |t| ==> IsAssistant(t[at]))
    && (at == |t| ==> forall i | 0 <= i < |t| :: !IsAssistant(t[i]))
  }

  function LastAssistant(t: seq<Entry>, n: nat): nat
    requires n <= |t|
  {
    if n == 0 then |t| else if IsAssistant(t[n - 1]) then n - 1 else LastAssistant(t, n - 1)
  }

  function InsertBlock(t: seq<Entry>, block: seq<Entry>): seq<Entry> {
    InsertPoint(t, |t|);
    var at := LastAssistant(t, |t|);
    t[..at] + block + t[at..]
  }

  lemma {:induction false} InsertPoint(t: seq<Entry>, n: nat)
    requires n <= |t| && forall i | n <= i < |t| :: !IsAssistant(t[i])
    ensures IsInsertPoint(t, LastAssistant(t, n))
  {
    if n > 0 && !IsAssistant(t[n - 1]) {
      InsertPoint(t, n - 1);
    }
  }

  function Augmented(t: seq<Entry>, rows: seq<AuditRow>): seq<Entry> {
    if t == [] || HasToolCalls(t) || AuditEntries(rows) == [] then t else InsertBlock(t, AuditEntries(rows))
  }

  method TranscriptHasToolCalls(t: seq<Entry>) returns (found: bool)
    ensures found == HasToolCalls(t)
  {
    for i := 0 to |t|
      invariant forall j | 0 <= j < i :: !CallsTool(t[j])
    {
      if IsAssistant(t[i]) {
        for k := 0 to |t[i].content|
          invariant forall l | 0 <= l < k :: !t[i].content[l].ToolCall?
        {
          if t[i].content[k].ToolCall? {
            assert CallsTool(t[i]);
            return true;
          }
        }
      }
    }
    return false;
  }

  method AugmentTranscriptWithAudit(t: seq<Entry>, rows: seq<AuditRow>) returns (merged: seq<Entry>)
    ensures merged == Augmented(t, rows)
  {
    hide AuditEntries, HasToolCalls, IsAssistant;
    if t == [] {
      return t;
    }
    var has := TranscriptHasToolCalls(t);
    if has {
      return t;
    }
    var entries := BuildAuditTranscriptEntries(rows);
    if entries == [] {
      return t;
    }
    var insertAt := |t|;
    var idx := |t|;
    while idx > 0
      invariant 0 <= idx <= |t| && insertAt == |t|
      invariant LastAssistant(t, |t|) == LastAssistant(t, idx)
    {
      idx := idx - 1;
      if IsAssistant(t[idx]) {
        insertAt := idx;
        break;
      }
    }
    InsertPoint(t, |t|);
    return t[..insertAt] + entries + t[insertAt..];
  }

  /** Taking the injected block out again gives back the transcript, and it stands right before the
      last assistant message. */
  lemma BlockRemoved(t: seq<Entry>, rows: seq<AuditRow>)
    requires Augmented(t, rows) != t
    ensures exists at: nat :: IsInsertPoint(t, at) && var a, n := Augmented(t, rows), |AuditEntries(rows)|;
              at + n <= |a| && a[at..at + n] == AuditEntries(rows) && a[..at] + a[at + n..] == t
  {
    hide AuditEntries, HasToolCalls, IsAssistant;
    var block, at := AuditEntries(rows), LastAssistant(t, |t|);
    InsertPoint(t, |t|);
    var a := t[..at] + block + t[at..];
    assert Augmented(t, rows) == a;
    assert a[at..at + |block|] == block && a[..at] == t[..at] && a[at + |block|..] == t[at..];
    assert t[..at] + t[at..] == t;
  }

  lemma {:induction false} TotalsAppend(start: Totals, a: seq<Entry>, b: seq<Entry>)
    ensures TotalsFrom(start, a + b) == TotalsFrom(TotalsFrom(start, a), b)
  {
    hide Add;
    if b == [] {
      assert a + b == a;
    } else {
      TotalsAppend(start, a, b[..|b| - 1]);
      assert (a + b)[..|a + b| - 1] == a + b[..|b| - 1];
    }
  }

  ghost predicate Adds(a: Totals, b: Totals, requests: nat) {
    b == a.(requests := a.requests + requests)
  }

  function Assistants(t: seq<Entry>): nat {
    if t == [] then 0 else Assistants(t[..|t| - 1]) + if IsAssistant(t[|t| - 1]) then 1 else 0
  }

  lemma {:induction false} InjectedTotals(start: Totals, block: seq<Entry>)
    requires forall e | e in block :: Injected(e)
    ensures Adds(start, TotalsFrom(start, block), Assistants(block))
  {
    if block != [] {
      InjectedTotals(start, block[..|block| - 1]);
      assert block[|block| - 1] in block;
    }
  }

  lemma {:induction false} TotalsShift(a: Totals, b: Totals, t: seq<Entry>, n: nat)
    requires Adds(a, b, n)
    ensures Adds(TotalsFrom(a, t), TotalsFrom(b, t), n)
  {
    if t != [] {
      TotalsShift(a, b, t[..|t| - 1], n);
    }
  }

  /** Injection costs nothing: every token and cost total stays, and the request count rises by
      exactly the injected assistant entries. */
  lemma InjectionKeepsTotals(t: seq<Entry>, rows: seq<AuditRow>)
    requires Augmented(t, rows) != t
    ensures Adds(TotalsFrom(ZERO, t), TotalsFrom(ZERO, Augmented(t, rows)), Assistants(AuditEntries(rows)))
  {
    hide AuditEntries, HasToolCalls, IsAssistant, TotalsFrom, Add, Adds, Injected;
    var block, at := AuditEntries(rows), LastAssistant(t, |t|);
    InsertPoint(t, |t|);
    AuditEntriesInjected(rows);
    TotalsAppend(ZERO, t[..at] + block, t[at..]);
    TotalsAppend(ZERO, t[..at], block);
    TotalsAppend(ZERO, t[..at], t[at..]);
    assert t[..at] + t[at..] == t;
    InjectedTotals(TotalsFrom(ZERO, t[..at]), block);
    TotalsShift(TotalsFrom(ZERO, t[..at]), TotalsFrom(TotalsFrom(ZERO, t[..at]), block), t[at..], Assistants(block));
  }

  lemma {:induction false} LatestInTail(a: seq<Entry>, b: seq<Entry>)
    requires exists i :: 0 <= i < |b| && IsAssistant(b[i])
    ensures LatestAssistantText(a + b) == LatestAssistantText(b)
  {
    hide IsAssistant, TextOf;
    var last := b[|b| - 1];
    assert (a + b)[|a + b| - 1] == last && (a + b)[..|a + b| - 1] == a + b[..|b| - 1];
    if !IsAssistant(last) {
      var i :| 0 <= i < |b| && IsAssistant(b[i]);
      assert b[..|b| - 1][i] == b[i];
      LatestInTail(a, b[..|b| - 1]);
    }
  }

  lemma {:induction false} NoText(t: seq<Entry>)
    requires forall e | e in t :: IsAssistant(e) ==> TextOf(e.content) == ""
    ensures LatestAssistantText(t) == ""
  {
    hide IsAssistant, TextOf;
    if t != [] {
      assert t[|t| - 1] in t;
      NoText(t[..|t| - 1]);
    }
  }

  /** The latest assistant text is untouched, whether or not there was an assistant message. */
  lemma InjectionKeepsLatestText(t: seq<Entry>, rows: seq<AuditRow>)
    ensures LatestAssistantText(Augmented(t, rows)) == LatestAssistantText(t)
  {
    hide AuditEntries, HasToolCalls, IsAssistant, TextOf, LatestAssistantText;
    if Augmented(t, rows) != t {
      var block, at := AuditEntries(rows), LastAssistant(t, |t|);
      InsertPoint(t, |t|);
      AuditEntriesInjected(rows);
      assert t[..at] + t[at..] == t;
      if at < |t| {
        assert IsAssistant(t[at..][0]);
        LatestInTail(t[..at] + block, t[at..]);
        LatestInTail(t[..at], t[at..]);
      } else {
        NoText(t);
        assert t[..at] + block + t[at..] == t + block;
        NoText(t + block);
      }
    }
  }

  /** Injecting a second time changes nothing exactly when the first time changed nothing or brought
      in a tool call; a block of results alone is injected again. */
  lemma SecondInjection(t: seq<Entry>, rows: seq<AuditRow>)
    ensures Augmented(Augmented(t, rows), rows) == Augmented(t, rows)
       <==> Augmented(t, rows) == t || HasToolCalls(AuditEntries(rows))
  {
    hide AuditEntries, CallsTool, IsAssistant;
    var a, block := Augmented(t, rows), AuditEntries(rows);
    if a != t {
      var at := LastAssistant(t, |t|);
      InsertPoint(t, |t|);
      assert a == t[..at] + block + t[at..] && |a| == |t| + |block|;
      if HasToolCalls(block) {
        var i :| 0 <= i < |block| && CallsTool(block[i]);
        assert CallsTool(a[at + i]);
      } else {
        InjectedTwice(t, rows);
      }
    }
  }

  /** Such a block exists: a lone result is injected a second time, beside the first one. */
  lemma ResultInjectedTwice()
    ensures var t := [Message("assistant", [TextBlock("done")], NO_USAGE, "", "", "")];
            var rows := [AuditRow("t", "tool_result", "", "1", "ls", "out")];
            |Augmented(t, rows)| == 2 && |Augmented(Augmented(t, rows), rows)| == 3
  {
    hide AuditEntries, EventOf, Trim;
    var t := [Message("assistant", [TextBlock("done")], NO_USAGE, "", "", "")];
    var row := AuditRow("t", "tool_result", "", "1", "ls", "out");
    assert EventOf(row) == "tool_result" by { PlainEvent(row); }
    LoneResult(row);
    assert !HasToolCalls(t) by { assert forall b | b in t[0].content :: !b.ToolCall?; }
    InjectedTwice(t, [row]);
  }

  lemma PlainEvent(row: AuditRow)
    requires row.eventType == "tool_result"
    ensures EventOf(row) == "tool_result"
  {
    hide Trim, Lower;
    var text := "tool_result";
    assert NoBlankEnds(text) && forall i | 0 <= i < |text| :: !('A' <= text[i] <= 'Z');
    TrimPlain(text);
    LowerPlain(text);
  }

  lemma LoneResult(row: AuditRow)
    requires EventOf(row) == "tool_result"
    ensures |AuditEntries([row])| == 1 && !HasToolCalls(AuditEntries([row]))
  {
    hide EventOf, Trim, DisplayToolName, Canonical;
    assert [row][..0] == [] && AuditEntries([]) == [];
    assert AuditEntries([row]) == [] + EntryFor(row, 0);
  }

  /** A block without a tool call goes in twice. */
  lemma InjectedTwice(t: seq<Entry>, rows: seq<AuditRow>)
    requires t != [] && !HasToolCalls(t) && AuditEntries(rows) != [] && !HasToolCalls(AuditEntries(rows))
    ensures |Augmented(t, rows)| == |t| + |AuditEntries(rows)|
    ensures |Augmented(Augmented(t, rows), rows)| == |t| + 2 * |AuditEntries(rows)|
  {
    hide AuditEntries, CallsTool, IsAssistant;
    var a, block, at := Augmented(t, rows), AuditEntries(rows), LastAssistant(t, |t|);
    InsertPoint(t, |t|);
    assert a == t[..at] + block + t[at..];
    forall i | 0 <= i < |a| ensures !CallsTool(a[i]) {
      if at <= i < at + |block| { assert a[i] == block[i - at]; }
      else if i < at { assert a[i] == t[i]; }
      else { assert a[i] == t[i - |block|]; }
    }
    InsertPoint(a, |a|);
  }

  // ---------------------------------------------------------------------------------------
  // Written out
  // ---------------------------------------------------------------------------------------

  /** A field summed over the assistant entries. */
  function Sum(t: seq<Entry>, field: Usage -> int): int {
    if t == [] then 0
    else Sum(t[..|t| - 1], field) + if IsAssistant(t[|t| - 1]) then field(t[|t| - 1].usage) else 0
  }

  function SumOfCosts(t: seq<Entry>): real {
    if t == [] then 0.0
    else SumOfCosts(t[..|t| - 1]) + if IsAssistant(t[|t| - 1]) then t[|t| - 1].usage.cost else 0.0
  }

  function Inputs(): Usage -> int { (u: Usage) => u.input }
  function Outputs(): Usage -> int { (u: Usage) => u.output }
  function CacheReads(): Usage -> int { (u: Usage) => u.cacheRead }
  function CacheWrites(): Usage -> int { (u: Usage) => u.cacheWrite }
  function AllTokens(): Usage -> int { (u: Usage) => u.total }

  /** Each total is the sum of its own field over the assistant entries, and the requests are their
      number. */
  lemma {:induction false} TotalsAreSums(t: seq<Entry>)
    ensures var totals := TotalsFrom(ZERO, t);
            && totals.input == Sum(t, Inputs()) && totals.output == Sum(t, Outputs())
            && totals.cacheRead == Sum(t, CacheReads()) && totals.cacheWrite == Sum(t, CacheWrites())
            && totals.total == Sum(t, AllTokens()) && totals.cost == SumOfCosts(t)
            && totals.requests == |Filter(t, Assistant())|
  {
    hide Filter;
    if t == [] {
      FilterNone(Assistant());
    } else {
      var before, last := t[..|t| - 1], t[|t| - 1];
      TotalsAreSums(before);
      FilterAppend(before, last, Assistant());
      assert before + [last] == t;
    }
  }

  function Assistant(): Entry -> bool { (e: Entry) => e.Message? && e.role == "assistant" }

  /** The text of a message is built from its blocks one by one, with one line break between two that
      have text; a tool call has none. */
  lemma {:induction false} TextJoins(a: seq<Block>, b: seq<Block>)
    ensures TextOf(a + b) == if TextOf(a) == "" then TextOf(b)
                             else if TextOf(b) == "" then TextOf(a)
                             else TextOf(a) + "\n" + TextOf(b)
  {
    hide PartOf;
    if b == [] {
      assert a + b == a;
    } else {
      var before, part := b[..|b| - 1], PartOf(b[|b| - 1]);
      TextJoins(a, before);
      assert (a + b)[..|a + b| - 1] == a + before;
      assert TextOf(a) + "\n" + TextOf(before) + "\n" + part == TextOf(a) + "\n" + (TextOf(before) + "\n" + part);
    }
  }

  lemma OneBlock(text: string, id: string, name: string, canonical: string, arguments: string)
    ensures TextOf([Raw(text)]) == text && TextOf([TextBlock(text)]) == text
    ensures TextOf([ToolCall(id, name, canonical, arguments)]) == ""
  {
    assert TextOf([]) == "";
    assert [Raw(text)][..0] == [] && [TextBlock(text)][..0] == [];
    assert [ToolCall(id, name, canonical, arguments)][..0] == [];
  }

  /** The latest text is that of the assistant message behind which there is no other. */
  lemma {:induction false} LatestIs(t: seq<Entry>, i: nat)
    requires i < |t| && IsAssistant(t[i]) && forall j | i < j < |t| :: !IsAssistant(t[j])
    ensures LatestAssistantText(t) == TextOf(t[i].content)
  {
    hide IsAssistant, TextOf;
    if i < |t| - 1 {
      LatestIs(t[..|t| - 1], i);
    }
  }

  /** What a row turns into, field by field. A call with a name becomes an assistant message with that
      one call; a result becomes a tool message; `web_query` is shown as `web_search` and remembered. */
  lemma EntryWritten(row: AuditRow, made: nat)
    ensures var event, name, id := Lower(Trim(row.eventType)), Trim(row.toolName), Trim(row.toolCallId);
            var shown := if name == "web_query" then "web_search" else name;
            var original := if name == "web_query" then "web_query" else "";
            EntryFor(row, made) ==
              if event == "assistant_tool_call" && name != "" then
                [Message("assistant",
                         [ToolCall(if id != "" then id else "audit-" + NatText(made + 1), shown, original,
                                   row.payload)],
                         Usage(0, 0, 0, 0, 0, 0.0), "", "", "")]
              else if event == "tool_result" then
                [Message("toolResult", [Raw(row.payload)], Usage(0, 0, 0, 0, 0, 0.0), id, shown, original)]
              else []
  {
    hide Trim, Lower, NatText;
  }

  /** The merged rows in order: by time, then calls before other rows, then by call id. */
  lemma RowsInOrder(rows: seq<AuditRow>, i: nat, j: nat)
    requires Sorted(rows, RowLe) && i < j < |rows|
    ensures var a, b := rows[i], rows[j];
            var callA := Lower(Trim(a.eventType)) == "assistant_tool_call";
            var callB := Lower(Trim(b.eventType)) == "assistant_tool_call";
            && Le(a.createdAt, b.createdAt)
            && (a.createdAt == b.createdAt ==> callA || !callB)
            && (a.createdAt == b.createdAt && callA == callB ==> Le(a.toolCallId, b.toolCallId))
  {
    hide Trim, Lower;
    LeOrder();
    hide Le;
    assert RowLe(rows[i], rows[j]);
  }

  ghost predicate FirstPlaces(f: seq<nat>, kept: seq<AuditRow>, rows: seq<AuditRow>,
                              fingerprint: AuditRow -> seq<string>) {
    && |f| == |kept|
    && (forall i | 0 <= i < |f| ::
          && f[i] < |rows| && rows[f[i]] == kept[i]
          && forall j | 0 <= j < f[i] :: fingerprint(rows[j]) != fingerprint(kept[i]))
    && forall i, j | 0 <= i < j < |f| :: f[i] < f[j]
  }

  /** Of rows with one fingerprint the first is kept, and the kept rows stay in order. */
  lemma {:induction false} FirstIsKept(rows: seq<AuditRow>, fingerprint: AuditRow -> seq<string>)
    ensures exists f: seq<nat> :: FirstPlaces(f, FirstOfEach(rows, fingerprint), rows, fingerprint)
  {
    var kept := FirstOfEach(rows, fingerprint);
    if rows == [] {
      var none: seq<nat> := [];
      assert FirstPlaces(none, kept, rows, fingerprint);
    } else {
      var n := |rows| - 1;
      var before := rows[..n];
      FirstIsKept(before, fingerprint);
      FirstOfEachShape(before, fingerprint);
      var f: seq<nat> :| FirstPlaces(f, FirstOfEach(before, fingerprint), before, fingerprint);
      assert forall i | 0 <= i < n :: before[i] == rows[i];
      if fingerprint(rows[n]) in Fingerprints(FirstOfEach(before, fingerprint), fingerprint) {
        assert FirstPlaces(f, kept, rows, fingerprint);
      } else {
        forall j | 0 <= j < n ensures fingerprint(rows[j]) != fingerprint(rows[n]) {
          assert before[j] in before && fingerprint(before[j]) in Fingerprints(before, fingerprint);
        }
        assert kept == FirstOfEach(before, fingerprint) + [rows[n]];
        assert FirstPlaces(f + [n], kept, rows, fingerprint);
      }
    }
  }

  /** Something is injected exactly when there is a transcript without tool calls and a row that is a
      named call or a result. */
  lemma AugmentsExactlyWhen(t: seq<Entry>, rows: seq<AuditRow>)
    ensures Augmented(t, rows) != t <==>
            && t != [] && !HasToolCalls(t)
            && exists row :: row in rows && (Lower(Trim(row.eventType)) == "tool_result"
                 || (Lower(Trim(row.eventType)) == "assistant_tool_call" && Trim(row.toolName) != ""))
  {
    hide Trim, Lower, HasToolCalls, AuditEntries, Filter, IsAssistant;
    EntriesFollowRows(rows);
    FilterMembers(rows, Tells);
    var told := Filter(rows, Tells);
    if told != [] {
      assert told[0] in told;
    }
    if t != [] && !HasToolCalls(t) && AuditEntries(rows) != [] {
      InsertPoint(t, |t|);
      assert |Augmented(t, rows)| == |t| + |AuditEntries(rows)|;
    }
  }
}
