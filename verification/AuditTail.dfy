/** `blue audit tail`: poll the newest entries of a growing log and print each new one once,
    remembering only a bounded window of keys (server/cmd/blue/audit.go). */
module AuditTail {
  import opened Text
  import opened Sorting

  datatype Entry = Entry(createdAt: int, createdText: string, conversationId: string, id: string,
                         eventType: string, toolName: string, payload: string)

  /** `matches` is the query test; `hasQuery` says whether a query was given at all. */
  datatype Options = Options(lines: int, follow: bool, hasQuery: bool, matches: Entry -> bool)

  datatype Read = Failed | Entries(entries: seq<Entry>)

  datatype Sink = Unlimited | FailsAfter(count: nat)

  function EntryKey(e: Entry): string {
    if Trim(e.id) != "" then Trim(e.id)
    else e.conversationId + "|" + e.createdText + "|" + e.eventType + "|" + e.toolName + "|" + e.payload
  }

  ghost predicate NoBar(s: string) {
    '|' !in s
  }

  lemma {:induction false} CutAtBar(a: string, b: string, x: string, y: string)
    requires NoBar(a) && NoBar(b) && a + "|" + x == b + "|" + y
    ensures a == b && x == y
  {
    var s, t := a + "|" + x, b + "|" + y;
    if a != "" && b != "" {
      assert s[0] == a[0] && t[0] == b[0];
      assert s[1..] == a[1..] + "|" + x && t[1..] == b[1..] + "|" + y;
      CutAtBar(a[1..], b[1..], x, y);
      assert a == [a[0]] + a[1..] && b == [b[0]] + b[1..];
    } else {
      assert a == "" ==> s[0] == '|';
      assert b == "" ==> t[0] == '|';
      assert a == b == "";
      assert s[1..] == x && t[1..] == y;
    }
  }

  /** Entries without an id have equal keys only if all five parts are equal, as long as the parts
      before the payload hold no bar. */
  lemma KeysIdentify(a: Entry, b: Entry)
    requires Trim(a.id) == "" && Trim(b.id) == ""
    requires forall e | e in {a, b} ::
               NoBar(e.conversationId) && NoBar(e.createdText) && NoBar(e.eventType) && NoBar(e.toolName)
    ensures EntryKey(a) == EntryKey(b) <==>
            a.conversationId == b.conversationId && a.createdText == b.createdText && a.eventType == b.eventType
            && a.toolName == b.toolName && a.payload == b.payload
  {
    hide Trim, NoBar;
    assert a in {a, b} && b in {a, b};
    if EntryKey(a) == EntryKey(b) {
      KeyParts(a);
      KeyParts(b);
      CutAtBar(a.conversationId, b.conversationId, AfterConversation(a), AfterConversation(b));
      CutAtBar(a.createdText, b.createdText, AfterTime(a), AfterTime(b));
      CutAtBar(a.eventType, b.eventType, AfterEvent(a), AfterEvent(b));
      CutAtBar(a.toolName, b.toolName, a.payload, b.payload);
    }
  }

  /** Nothing in the parts of the key looks like its separator. */
  ghost predicate PlainKey(e: Entry) {
    if Trim(e.id) != "" then NoBar(Trim(e.id))
    else NoBar(e.conversationId) && NoBar(e.createdText) && NoBar(e.eventType) && NoBar(e.toolName)
  }

  /** What the key is meant to stand for: the id, or else the five parts. */
  ghost predicate SameIdentity(a: Entry, b: Entry) {
    if Trim(a.id) != "" || Trim(b.id) != "" then Trim(a.id) == Trim(b.id)
    else a.conversationId == b.conversationId && a.createdText == b.createdText && a.eventType == b.eventType
         && a.toolName == b.toolName && a.payload == b.payload
  }

  lemma IdentifiedPair(a: Entry, b: Entry)
    requires PlainKey(a) && PlainKey(b)
    ensures EntryKey(a) == EntryKey(b) <==> SameIdentity(a, b)
  {
    hide Trim;
    if Trim(a.id) == "" && Trim(b.id) == "" {
      KeysIdentify(a, b);
    } else if Trim(a.id) == "" {
      BarInKey(a);
    } else if Trim(b.id) == "" {
      BarInKey(b);
    }
  }

  lemma BarInKey(e: Entry)
    requires Trim(e.id) == ""
    ensures '|' in EntryKey(e)
  {
    hide Trim;
    KeyParts(e);
    assert EntryKey(e)[|e.conversationId|] == '|';
  }

  /** Of entries whose parts hold no bar, with or without ids, all keys differ exactly when all
      entries are meant to be different. */
  lemma KeysDistinctExactlyWhen(entries: seq<Entry>)
    requires forall i | 0 <= i < |entries| :: PlainKey(entries[i])
    ensures DistinctKeys(entries) <==> forall i, j | 0 <= i < j < |entries| :: !SameIdentity(entries[i], entries[j])
  {
    hide EntryKey, SameIdentity, PlainKey;
    forall i, j | 0 <= i < j < |entries|
      ensures EntryKey(entries[i]) == EntryKey(entries[j]) <==> SameIdentity(entries[i], entries[j])
    {
      IdentifiedPair(entries[i], entries[j]);
    }
  }

  function AfterEvent(e: Entry): string { e.toolName + "|" + e.payload }
  function AfterTime(e: Entry): string { e.eventType + "|" + AfterEvent(e) }
  function AfterConversation(e: Entry): string { e.createdText + "|" + AfterTime(e) }

  lemma KeyParts(e: Entry)
    requires Trim(e.id) == ""
    ensures EntryKey(e) == e.conversationId + "|" + AfterConversation(e)
  {
    hide Trim;
  }

  /** The separator is not escaped: with a bar in a part, different entries of one instant can share a
      key, also where the log is in order, and the second one is then never printed. */
  lemma BarsCollide()
    ensures var a := Entry(0, "t", "c|t|x", "", "a", "b", "c");
            var b := Entry(0, "t", "c", "", "x", "t", "a|b|c");
            a != b && EntryKey(a) == EntryKey(b) && Ordered([b, a])
  {
    var a, b := Entry(0, "t", "c|t|x", "", "a", "b", "c"), Entry(0, "t", "c", "", "x", "t", "a|b|c");
    KeyParts(a);
    KeyParts(b);
    PrefixFirst(b.conversationId, a.conversationId);
    assert b.conversationId < a.conversationId;
    hide Trim, Le;
    assert EntryKey(a) == "c|t|x|t|a|b|c" == EntryKey(b);
    assert EntryLe(b, a) && !EntryLe(a, b);
  }

  predicate EntryLe(a: Entry, b: Entry) {
    if a.createdAt != b.createdAt then a.createdAt < b.createdAt
    else if a.conversationId != b.conversationId then Le(a.conversationId, b.conversationId)
    else Le(a.id, b.id)
  }

  lemma EntryOrder()
    ensures TotalPreorder(EntryLe)
  {
    LeOrder();
  }

  function Normalize(opts: Options): Options {
    if opts.lines <= 0 then opts.(lines := 20) else opts
  }

  function FollowWindowSize(opts: Options): int {
    if opts.lines * 10 > 200 then opts.lines * 10 else 200
  }

  function InitialReadSize(opts: Options): int {
    if opts.hasQuery || opts.follow then FollowWindowSize(opts) else opts.lines
  }

  // ---------------------------------------------------------------------------------------
  // The bounded memory
  // ---------------------------------------------------------------------------------------

  function Newest<T>(s: seq<T>, n: nat): seq<T> {
    if |s| <= n then s else s[|s| - n..]
  }

  ghost predicate Distinct<T>(s: seq<T>) {
    forall i, j | 0 <= i < j < |s| :: s[i] != s[j]
  }

  /** The keys that a history of marks accepts when only the newest `limit` accepted keys are
      remembered. */
  ghost function Accepted(history: seq<string>, limit: nat): seq<string> {
    if history == [] then []
    else
      var before := Accepted(history[..|history| - 1], limit);
      var key := history[|history| - 1];
      if key in Newest(before, limit) then before else before + [key]
  }

  /** The remembered keys never repeat, whatever was marked. */
  lemma {:induction false} RememberedDistinct(history: seq<string>, limit: nat)
    ensures Distinct(Newest(Accepted(history, limit), limit))
  {
    if history != [] {
      var before := Accepted(history[..|history| - 1], limit);
      var key := history[|history| - 1];
      RememberedDistinct(history[..|history| - 1], limit);
      if key !in Newest(before, limit) && limit > 0 {
        hide Newest, Distinct;
        NewestStep(before, key, limit);
        DistinctStep(Newest(before, limit), key);
      }
    }
  }

  lemma DistinctStep(s: seq<string>, key: string)
    requires Distinct(s) && key !in s
    ensures Distinct(s + [key]) && Distinct((s + [key])[1..])
  {
  }

  lemma NewestStep(s: seq<string>, key: string, limit: nat)
    requires limit > 0
    ensures var grown := Newest(s, limit) + [key];
            Newest(s + [key], limit) == if |grown| > limit then grown[1..] else grown
  {
  }

  lemma TailKeys(s: seq<string>)
    requires s != [] && Distinct(s)
    ensures (set k | k in s[1..]) == (set k | k in s) - {s[0]}
  {
    assert forall i | 0 < i < |s| :: s[1..][i - 1] == s[i];
    assert s == [s[0]] + s[1..];
  }

  class SeenWindow {
    const limit: nat
    var order: seq<string>
    var keys: set<string>
    ghost var accepted: seq<string>  // every key accepted so far

    ghost predicate Valid()
      reads this
    {
      && limit > 0
      && order == Newest(accepted, limit)
      && Distinct(order)
      && keys == set k | k in order
    }

    constructor (limit: int)
      ensures Valid() && accepted == []
      ensures this.limit == if limit <= 0 then 512 else limit
    {
      this.limit := if limit <= 0 then 512 else limit;
      order, keys, accepted := [], {}, [];
    }

    /** Accepts a key exactly when it is not among the `limit` newest accepted ones. */
    method Mark(key: string) returns (isNew: bool)
      requires Valid()
      modifies this
      ensures Valid()
      ensures isNew <==> key !in Newest(old(accepted), limit)
      ensures accepted == old(accepted) + if isNew then [key] else []
    {
      NewestStep(accepted, key, limit);
      if key in keys {
        return false;
      }
      accepted := accepted + [key];
      keys := keys + {key};
      order := order + [key];
      if |order| > limit {
        var evicted := order[0];
        TailKeys(order);
        order := order[1..];
        keys := keys - {evicted};
      }
      return true;
    }
  }

  /** Every history of marks leaves the memory that `Accepted` describes. */
  method Replay(history: seq<string>, limit: int) returns (seen: SeenWindow)
    ensures fresh(seen) && seen.Valid() && seen.accepted == Accepted(history, seen.limit)
    ensures |seen.order| <= seen.limit
  {
    seen := new SeenWindow(limit);
    for i := 0 to |history|
      invariant seen.Valid() && fresh(seen) && seen.accepted == Accepted(history[..i], seen.limit)
    {
      assert history[..i + 1][..i] == history[..i];
      var _ := seen.Mark(history[i]);
    }
    assert history[..|history|] == history;
  }

  // ---------------------------------------------------------------------------------------
  // What a run must print
  // ---------------------------------------------------------------------------------------

  ghost predicate Wanted(opts: Options, e: Entry) {
    !opts.hasQuery || opts.matches(e)
  }

  ghost function WantedBy(opts: Options): Entry -> bool {
    e => Wanted(opts, e)
  }

  /** Log positions in [lo, hi) whose entries match, in log order. */
  ghost function Matching(log: seq<Entry>, opts: Options, lo: nat, hi: nat): seq<nat>
    requires lo <= hi <= |log|
    decreases hi - lo
  {
    if lo == hi then []
    else (if Wanted(opts, log[lo]) then [lo] else []) + Matching(log, opts, lo + 1, hi)
  }

  ghost predicate Increasing(ps: seq<nat>) {
    forall i, j | 0 <= i < j < |ps| :: ps[i] < ps[j]
  }

  ghost predicate Within(ps: seq<nat>, lo: int, hi: int) {
    forall i | 0 <= i < |ps| :: lo <= ps[i] < hi
  }

  lemma {:induction false} MatchingShape(log: seq<Entry>, opts: Options, lo: nat, hi: nat)
    requires lo <= hi <= |log|
    ensures Increasing(Matching(log, opts, lo, hi)) && Within(Matching(log, opts, lo, hi), lo, hi)
    ensures forall p | lo <= p < hi && Wanted(opts, log[p]) :: p in Matching(log, opts, lo, hi)
    decreases hi - lo
  {
    if lo < hi {
      MatchingShape(log, opts, lo + 1, hi);
    }
  }

  lemma {:induction false} MatchingSplit(log: seq<Entry>, opts: Options, lo: nat, mid: nat, hi: nat)
    requires lo <= mid <= hi <= |log|
    ensures Matching(log, opts, lo, hi) == Matching(log, opts, lo, mid) + Matching(log, opts, mid, hi)
    decreases mid - lo
  {
    if lo < mid {
      MatchingSplit(log, opts, lo + 1, mid, hi);
    }
  }

  ghost function Pick(log: seq<Entry>, ps: seq<nat>): (r: seq<Entry>)
    requires Within(ps, 0, |log|)
    ensures |r| == |ps| && forall i | 0 <= i < |ps| :: r[i] == log[ps[i]]
  {
    if ps == [] then [] else [log[ps[0]]] + Pick(log, ps[1..])
  }

  lemma {:induction false} FilterIsMatching(log: seq<Entry>, opts: Options, lo: nat, hi: nat)
    requires lo <= hi <= |log|
    ensures Within(Matching(log, opts, lo, hi), 0, |log|)
    ensures Filter(log[lo..hi], WantedBy(opts)) == Pick(log, Matching(log, opts, lo, hi))
    decreases hi - lo
  {
    hide Filter, Matching, Pick, Wanted;
    MatchingShape(log, opts, lo, hi);
    MatchingFirst(log, opts, lo, hi);
    if lo == hi {
      FilterNone(WantedBy(opts));
      assert log[lo..hi] == [];
    } else {
      FilterIsMatching(log, opts, lo + 1, hi);
      FilterFirst(log[lo..hi], WantedBy(opts));
      assert log[lo..hi][1..] == log[lo + 1..hi] && log[lo..hi][0] == log[lo];
      PickAppend(log, if Wanted(opts, log[lo]) then [lo] else [], Matching(log, opts, lo + 1, hi));
    }
  }

  lemma MatchingFirst(log: seq<Entry>, opts: Options, lo: nat, hi: nat)
    requires lo <= hi <= |log|
    ensures Matching(log, opts, lo, hi) ==
            if lo == hi then [] else (if Wanted(opts, log[lo]) then [lo] else []) + Matching(log, opts, lo + 1, hi)
  {
    hide Wanted;
  }

  function Max(a: int, b: int): int {
    if a > b then a else b
  }

  function WindowStart(n: nat, size: nat): nat {
    if n > size then n - size else 0
  }

  /** `sizes` holds the length of the log at each read; the log only grows. */
  ghost predicate Growing(sizes: seq<nat>, log: seq<Entry>) {
    && (forall i | 0 <= i < |sizes| :: sizes[i] <= |log|)
    && (forall i, j | 0 <= i < j < |sizes| :: sizes[i] <= sizes[j])
  }

  ghost function Opening(log: seq<Entry>, opts: Options, sizes: seq<nat>): seq<nat>
    requires Growing(sizes, log) && |sizes| > 0 && opts.lines > 0
  {
    Newest(Matching(log, opts, WindowStart(sizes[0], InitialReadSize(opts)), sizes[0]), opts.lines)
  }

  /** Positions printed after `count` reads: the opening lines, then what each poll can still see
      of the entries that arrived since the read before it. */
  ghost function Printed(log: seq<Entry>, opts: Options, sizes: seq<nat>, count: nat): seq<nat>
    requires Growing(sizes, log) && 0 < count <= |sizes| && opts.lines > 0
  {
    if count == 1 then Opening(log, opts, sizes)
    else Printed(log, opts, sizes, count - 1) + Seen(log, opts, sizes, count - 1)
  }

  ghost function Seen(log: seq<Entry>, opts: Options, sizes: seq<nat>, i: nat): seq<nat>
    requires Growing(sizes, log) && 0 < i < |sizes| && opts.lines > 0
  {
    Matching(log, opts, Max(sizes[i - 1], WindowStart(sizes[i], FollowWindowSize(opts))), sizes[i])
  }

  /** Matching entries that fall out of the read window before any poll sees them. */
  ghost function Lost(log: seq<Entry>, opts: Options, sizes: seq<nat>, i: nat): seq<nat>
    requires Growing(sizes, log) && 0 < i < |sizes| && opts.lines > 0
  {
    Matching(log, opts, sizes[i - 1], Max(sizes[i - 1], WindowStart(sizes[i], FollowWindowSize(opts))))
  }

  /** The unbounded specification: the opening lines, then every later matching entry. */
  ghost function Everything(log: seq<Entry>, opts: Options, sizes: seq<nat>, count: nat): seq<nat>
    requires Growing(sizes, log) && 0 < count <= |sizes| && opts.lines > 0
  {
    Opening(log, opts, sizes) + Matching(log, opts, sizes[0], sizes[count - 1])
  }

  lemma {:induction false} PrintedIncreasing(log: seq<Entry>, opts: Options, sizes: seq<nat>, count: nat)
    requires Growing(sizes, log) && 0 < count <= |sizes| && opts.lines > 0
    ensures Increasing(Printed(log, opts, sizes, count))
    ensures Within(Printed(log, opts, sizes, count), 0, sizes[count - 1])
  {
    if count == 1 {
      MatchingShape(log, opts, WindowStart(sizes[0], InitialReadSize(opts)), sizes[0]);
    } else {
      PrintedIncreasing(log, opts, sizes, count - 1);
      var a, b := sizes[count - 2], sizes[count - 1];
      MatchingShape(log, opts, Max(a, WindowStart(b, FollowWindowSize(opts))), b);
    }
  }

  lemma {:induction false} EverythingGrows(log: seq<Entry>, opts: Options, sizes: seq<nat>, count: nat)
    requires Growing(sizes, log) && 1 < count <= |sizes| && opts.lines > 0
    ensures Everything(log, opts, sizes, count)
         == Everything(log, opts, sizes, count - 1) + Lost(log, opts, sizes, count - 1)
             + Seen(log, opts, sizes, count - 1)
  {
    var a, b := sizes[count - 2], sizes[count - 1];
    MatchingSplit(log, opts, sizes[0], a, b);
    MatchingSplit(log, opts, a, Max(a, WindowStart(b, FollowWindowSize(opts))), b);
  }

  lemma AppendSame<T>(a: seq<T>, b: seq<T>, c: seq<T>)
    ensures a + c == b + c <==> a == b
  {
    if a + c == b + c {
      assert |a + c| == |b + c|;
      assert a == (a + c)[..|a|] && b == (b + c)[..|b|];
    }
  }

  /** Follow mode meets the unbounded specification exactly when no matching entry is pushed out
      of the window between two reads; in particular whenever at most a window's worth arrives. */
  lemma {:induction false} CompleteIffNothingLost(log: seq<Entry>, opts: Options, sizes: seq<nat>, count: nat)
    requires Growing(sizes, log) && 0 < count <= |sizes| && opts.lines > 0
    ensures |Printed(log, opts, sizes, count)| <= |Everything(log, opts, sizes, count)|
    ensures Printed(log, opts, sizes, count) == Everything(log, opts, sizes, count)
        <==> forall i | 0 < i < count :: Lost(log, opts, sizes, i) == []
    ensures (forall i | 0 < i < count :: sizes[i] - sizes[i - 1] <= FollowWindowSize(opts))
        ==> Printed(log, opts, sizes, count) == Everything(log, opts, sizes, count)
  {
    if count > 1 {
      CompleteIffNothingLost(log, opts, sizes, count - 1);
      EverythingGrows(log, opts, sizes, count);
      var p, e := Printed(log, opts, sizes, count - 1), Everything(log, opts, sizes, count - 1);
      var lost, seen := Lost(log, opts, sizes, count - 1), Seen(log, opts, sizes, count - 1);
      if lost == [] {
        assert e + lost == e;
        AppendSame(p, e, seen);
      } else {
        assert |p + seen| < |e + lost + seen|;
      }
    } else {
      assert Everything(log, opts, sizes, 1) == Opening(log, opts, sizes);
    }
  }

  /** Without a query an entry is lost in a poll exactly when more than a window's worth arrived. */
  lemma LostExactlyWhen(log: seq<Entry>, opts: Options, sizes: seq<nat>, i: nat)
    requires Growing(sizes, log) && 0 < i < |sizes| && opts.lines > 0 && !opts.hasQuery
    ensures Lost(log, opts, sizes, i) == [] <==> sizes[i] - sizes[i - 1] <= FollowWindowSize(opts)
  {
    var a, b := sizes[i - 1], Max(sizes[i - 1], WindowStart(sizes[i], FollowWindowSize(opts)));
    MatchingShape(log, opts, a, b);
    if a < b {
      assert Wanted(opts, log[a]);
    }
  }

  /** Without a query follow mode meets the unbounded specification exactly when between any two reads
      at most a window's worth of entries arrives. */
  lemma CompleteExactlyAtRate(log: seq<Entry>, opts: Options, sizes: seq<nat>, count: nat)
    requires Growing(sizes, log) && 0 < count <= |sizes| && opts.lines > 0 && !opts.hasQuery
    ensures Printed(log, opts, sizes, count) == Everything(log, opts, sizes, count)
        <==> forall i | 0 < i < count :: sizes[i] - sizes[i - 1] <= FollowWindowSize(opts)
  {
    hide Printed, Everything, Lost;
    CompleteIffNothingLost(log, opts, sizes, count);
    forall i | 0 < i < count
      ensures Lost(log, opts, sizes, i) == [] <==> sizes[i] - sizes[i - 1] <= FollowWindowSize(opts)
    {
      LostExactlyWhen(log, opts, sizes, i);
    }
  }

  /** The window in numbers: ten times the lines, and at least 200. Without a query exactly so many
      entries can arrive between two reads and still be printed in full; one more is too many. */
  lemma BurstIsLost(log: seq<Entry>, lines: int, matches: Entry -> bool, a: nat, b: nat)
    requires lines > 0 && a <= b <= |log|
    ensures var opts := Options(lines, true, false, matches);
            var size := if 10 * lines > 200 then 10 * lines else 200;
            Printed(log, opts, [a, b], 2) == Everything(log, opts, [a, b], 2) <==> b - a <= size
  {
    var opts, sizes := Options(lines, true, false, matches), [a, b];
    CompleteExactlyAtRate(log, opts, sizes, 2);
    assert sizes[1] - sizes[0] == b - a;
  }

  /** Each log entry is printed at most once, in log order, however fast the log grows. */
  lemma NothingPrintedTwice(log: seq<Entry>, opts: Options, sizes: seq<nat>, count: nat)
    requires Growing(sizes, log) && 0 < count <= |sizes| && opts.lines > 0
    requires Ordered(log)
    ensures Within(Printed(log, opts, sizes, count), 0, |log|)
    ensures var out := Pick(log, Printed(log, opts, sizes, count));
            Distinct(out) && forall i, j | 0 <= i < j < |out| :: EntryLe(out[i], out[j]) && !EntryLe(out[j], out[i])
  {
    PrintedIncreasing(log, opts, sizes, count);
    var ps := Printed(log, opts, sizes, count);
    var out := Pick(log, ps);
    forall i, j | 0 <= i < j < |out|
      ensures out[i] != out[j] && EntryLe(out[i], out[j]) && !EntryLe(out[j], out[i])
    {
      assert ps[i] < ps[j];
    }
  }

  // ---------------------------------------------------------------------------------------
  // The polling loop
  // ---------------------------------------------------------------------------------------

  /** The store's log is strictly increasing in the printing order. */
  ghost predicate Ordered(log: seq<Entry>) {
    forall i, j | 0 <= i < j < |log| :: EntryLe(log[i], log[j]) && !EntryLe(log[j], log[i])
  }

  /** Keys identify entries. */
  ghost predicate DistinctKeys(entries: seq<Entry>) {
    forall i, j | 0 <= i < j < |entries| :: EntryKey(entries[i]) != EntryKey(entries[j])
  }

  function ReadSize(opts: Options, i: nat): int {
    if i == 0 then InitialReadSize(opts) else FollowWindowSize(opts)
  }

  /** What the store may answer: a failure, or the newest entries in any order. */
  ghost predicate Answers(read: Read, log: seq<Entry>, n: nat, size: nat)
    requires n <= |log|
  {
    read.Entries? ==> multiset(read.entries) == multiset(log[WindowStart(n, size)..n])
  }

  /** Number of leading reads that succeed; without follow mode only the first read happens. */
  ghost function GoodReads(answers: seq<Read>, follow: bool): nat {
    if answers == [] || answers[0].Failed? then 0
    else if !follow then 1
    else 1 + GoodReads(answers[1..], follow)
  }

  lemma {:induction false} GoodReadsFirst(answers: seq<Read>, k: nat)
    requires k <= |answers| && forall i | 0 <= i < k :: answers[i].Entries?
    requires k == |answers| || answers[k].Failed?
    ensures GoodReads(answers, true) == k
  {
    if k > 0 {
      assert forall i | 0 <= i < k - 1 :: answers[1..][i] == answers[i + 1];
      GoodReadsFirst(answers[1..], k - 1);
    }
  }

  method SortEntries(entries: seq<Entry>) returns (sorted: seq<Entry>)
    ensures SortedVersion(sorted, entries, EntryLe)
    ensures forall i, j | 0 <= i < j < |sorted| ::
              var a, b := sorted[i], sorted[j];
              && a.createdAt <= b.createdAt
              && (a.createdAt == b.createdAt ==> Le(a.conversationId, b.conversationId))
              && (a.createdAt == b.createdAt && a.conversationId == b.conversationId ==> Le(a.id, b.id))
  {
    EntryOrder();
    SortSorts(entries, EntryLe);
    hide Le;
    sorted := Sort(entries, EntryLe);
    forall i, j | 0 <= i < j < |sorted| ensures EntryLe(sorted[i], sorted[j]) {
    }
    EqualTexts();
  }

  lemma EqualTexts()
    ensures forall s :: Le(s, s)
  {
    LeOrder();
  }

  /** Whatever order the store answers in, sorting gives the window as it stands in the log. */
  method LoadRecent(read: Read, ghost log: seq<Entry>, ghost n: nat, ghost size: nat) returns (entries: seq<Entry>)
    requires Ordered(log) && n <= |log| && Answers(read, log, n, size) && read.Entries?
    ensures entries == log[WindowStart(n, size)..n]
  {
    var reversed := seq(|read.entries|, i requires 0 <= i < |read.entries| => read.entries[|read.entries| - 1 - i]);
    ReverseKeeps(read.entries, reversed);
    entries := SortEntries(reversed);
    ghost var window := log[WindowStart(n, size)..n];
    assert forall i | 0 <= i < |window| :: window[i] == log[WindowStart(n, size) + i];
    SortedVersionUnique(entries, window, EntryLe);
  }

  lemma {:induction false} ReverseKeeps<T>(s: seq<T>, r: seq<T>)
    requires |r| == |s| && forall i | 0 <= i < |s| :: r[i] == s[|s| - 1 - i]
    ensures multiset(r) == multiset(s)
  {
    if s != [] {
      ReverseKeeps(s[1..], r[..|r| - 1]);
      assert s == [s[0]] + s[1..] && r == r[..|r| - 1] + [s[0]];
    }
  }

  lemma WantedIs(opts: Options, entries: seq<Entry>)
    ensures Filter(entries, WantedBy(opts)) == if opts.hasQuery then Filter(entries, opts.matches) else entries
  {
    hide Filter;
    if opts.hasQuery {
      FilterSame(entries, WantedBy(opts), opts.matches);
    } else {
      FilterAll(entries, WantedBy(opts));
    }
  }

  method FilterEntries(entries: seq<Entry>, opts: Options) returns (filtered: seq<Entry>)
    ensures filtered == Filter(entries, WantedBy(opts))
    ensures filtered == if opts.hasQuery then Filter(entries, opts.matches) else entries
  {
    WantedIs(opts, entries);
    if !opts.hasQuery {
      FilterAll(entries, WantedBy(opts));
      return entries;
    }
    hide Filter;
    filtered := [];
    FilterNone(WantedBy(opts));
    for i := 0 to |entries|
      invariant filtered == Filter(entries[..i], WantedBy(opts))
    {
      FilterAppend(entries[..i], entries[i], WantedBy(opts));
      assert entries[..i + 1] == entries[..i] + [entries[i]];
      if opts.matches(entries[i]) {
        filtered := filtered + [entries[i]];
      }
    }
    assert entries[..|entries|] == entries;
  }

  /** An accepted position still inside the read window has not been evicted. */
  lemma StillRemembered(acc: seq<nat>, p: nat, limit: nat, n: nat)
    requires Increasing(acc) && Within(acc, 0, n) && p in acc && n - p <= limit
    ensures p in Newest(acc, limit)
  {
    var i :| 0 <= i < |acc| && acc[i] == p;
    Gap(acc, i, |acc| - 1);
    if |acc| > limit {
      assert Newest(acc, limit)[i - (|acc| - limit)] == p;
    }
  }

  lemma {:induction false} Gap(acc: seq<nat>, i: nat, j: nat)
    requires Increasing(acc) && i <= j < |acc|
    ensures acc[i] + (j - i) <= acc[j]
    decreases j - i
  {
    if i < j { Gap(acc, i + 1, j); }
  }

  function Keys(entries: seq<Entry>): (r: seq<string>)
    ensures |r| == |entries| && forall i | 0 <= i < |r| :: r[i] == EntryKey(entries[i])
  {
    if entries == [] then [] else [EntryKey(entries[0])] + Keys(entries[1..])
  }

  ghost function KeysAt(log: seq<Entry>, ps: seq<nat>): seq<string>
    requires Within(ps, 0, |log|)
  {
    Keys(Pick(log, ps))
  }

  /** The link between the memory and the log: the accepted keys are those of an increasing list
      of log positions that holds every matching position of the last window. */
  ghost predicate Remembers(seen: SeenWindow, log: seq<Entry>, opts: Options, acc: seq<nat>, n: nat)
    reads seen
  {
    && seen.Valid() && n <= |log|
    && Increasing(acc) && Within(acc, 0, n)
    && seen.accepted == KeysAt(log, acc)
    && forall p | WindowStart(n, seen.limit) <= p < n && Wanted(opts, log[p]) :: p in acc
  }

  lemma PickSplit(log: seq<Entry>, ps: seq<nat>, k: nat, tail: seq<nat>)
    requires Within(ps, 0, |log|) && k <= |ps| && tail == ps[k..]
    ensures Within(tail, 0, |log|) && Within(ps[..k], 0, |log|)
    ensures |Pick(log, ps)| == |ps| && Pick(log, ps)[k..] == Pick(log, tail)
    ensures |KeysAt(log, ps)| == |ps| && KeysAt(log, ps) == KeysAt(log, ps[..k]) + KeysAt(log, tail)
    ensures KeysAt(log, ps)[k..] == KeysAt(log, tail) && KeysAt(log, ps) == Keys(Pick(log, ps))
  {
    hide Pick, Keys, EntryKey;
    assert Pick(log, ps)[k..] == Pick(log, tail);
    KeysAtShape(log, ps);
    KeysAtShape(log, ps[..k]);
    KeysAtShape(log, tail);
    hide KeysAt;
    var ks, kt := KeysAt(log, ps), KeysAt(log, tail);
    assert forall i | 0 <= i < |kt| :: kt[i] == ks[k + i];
    assert ks[k..] == kt;
    assert ks[..k] == KeysAt(log, ps[..k]);
  }

  lemma KeysAtShape(log: seq<Entry>, ps: seq<nat>)
    requires Within(ps, 0, |log|)
    ensures |KeysAt(log, ps)| == |ps| && forall i | 0 <= i < |ps| :: KeysAt(log, ps)[i] == EntryKey(log[ps[i]])
    ensures KeysAt(log, ps) == Keys(Pick(log, ps))
  {
    hide EntryKey, Pick;
  }

  lemma NewestKeys(log: seq<Entry>, acc: seq<nat>, limit: nat)
    requires Within(acc, 0, |log|)
    ensures Within(Newest(acc, limit), 0, |log|)
    ensures Newest(KeysAt(log, acc), limit) == KeysAt(log, Newest(acc, limit))
    ensures forall p | p in Newest(acc, limit) :: p in acc
  {
    if |acc| > limit {
      PickSplit(log, acc, |acc| - limit, acc[|acc| - limit..]);
    } else {
      PickSplit(log, acc, 0, acc);
    }
  }

  lemma MarkDecides(log: seq<Entry>, acc: seq<nat>, limit: nat, n: nat, p: nat)
    requires DistinctKeys(log) && n <= |log| && p < |log| && Increasing(acc) && Within(acc, 0, n)
    requires p in acc ==> n - p <= limit
    ensures p in acc <==> EntryKey(log[p]) in Newest(KeysAt(log, acc), limit)
  {
    hide EntryKey, Newest;
    NewestKeys(log, acc, limit);
    var recent := Newest(acc, limit);
    var keys := KeysAt(log, recent);
    if p in acc {
      StillRemembered(acc, p, limit, n);
      var i :| 0 <= i < |recent| && recent[i] == p;
      assert keys[i] == EntryKey(log[p]);
    }
    if EntryKey(log[p]) in keys {
      var i :| 0 <= i < |recent| && keys[i] == EntryKey(log[p]);
      assert recent[i] in acc;
    }
  }

  /** Prints `all` up to where the sink fails. */
  ghost function Delivered<T>(all: seq<T>, sink: Sink): seq<T> {
    if sink.FailsAfter? && sink.count < |all| then all[..sink.count] else all
  }

  /** The matching positions of a window split at `from`: what lies before was remembered and is
      close enough not to be evicted, what lies after is new. */
  ghost predicate Splits(acc: seq<nat>, ms: seq<nat>, olds: nat, limit: nat, from: nat) {
    && Increasing(acc) && Within(acc, 0, from) && Increasing(ms) && olds <= |ms|
    && (forall i | 0 <= i < olds :: ms[i] in acc && from - ms[i] <= limit)
    && (forall i | olds <= i < |ms| :: from <= ms[i])
  }

  /** The memory tells the remembered keys of a window from its new ones. */
  ghost predicate ToldApart(found: seq<string>, olds: nat, keys: seq<string>, limit: nat) {
    && olds <= |found|
    && (forall j | 0 <= j < olds :: found[j] in Newest(keys, limit))
    && (forall j | olds <= j < |found| :: found[j] !in keys)
    && Distinct(found)
  }

  lemma MemoryDecides(log: seq<Entry>, acc: seq<nat>, ms: seq<nat>, olds: nat, limit: nat, from: nat)
    requires DistinctKeys(log) && Splits(acc, ms, olds, limit, from)
    requires from <= |log| && Within(ms, 0, |log|)
    ensures Within(acc, 0, |log|) && ToldApart(KeysAt(log, ms), olds, KeysAt(log, acc), limit)
  {
    var found := KeysAt(log, ms);
    forall j | 0 <= j < olds ensures found[j] in Newest(KeysAt(log, acc), limit) {
      MarkDecides(log, acc, limit, from, ms[j]);
    }
    forall j | olds <= j < |ms| ensures found[j] !in KeysAt(log, acc) {
      forall i | 0 <= i < |acc| ensures KeysAt(log, acc)[i] != found[j] {
        assert acc[i] < from <= ms[j];
      }
    }
    forall i, j | 0 <= i < j < |ms| ensures found[i] != found[j] {
      assert ms[i] < ms[j];
    }
  }

  lemma WindowSplits(log: seq<Entry>, opts: Options, acc: seq<nat>, limit: nat, from: nat, n: nat)
    requires from <= n <= |log| && Increasing(acc) && Within(acc, 0, from)
    requires forall p | WindowStart(from, limit) <= p < from && Wanted(opts, log[p]) :: p in acc
    ensures var lo := WindowStart(n, limit);
            var ms := Matching(log, opts, lo, n);
            var old_, new_ := Matching(log, opts, lo, Max(from, lo)), Matching(log, opts, Max(from, lo), n);
            ms == old_ + new_ && Splits(acc, ms, |old_|, limit, from) && Within(ms, 0, |log|) && Within(new_, 0, |log|)
  {
    var lo := WindowStart(n, limit);
    MatchingSplit(log, opts, lo, Max(from, lo), n);
    MatchingShape(log, opts, lo, Max(from, lo));
    MatchingWanted(log, opts, lo, Max(from, lo));
    MatchingShape(log, opts, Max(from, lo), n);
    MatchingShape(log, opts, lo, n);
    var old_ := Matching(log, opts, lo, Max(from, lo));
    forall i | 0 <= i < |old_| ensures old_[i] in acc && from - old_[i] <= limit {
      assert old_[i] in old_;
      assert WindowStart(from, limit) <= old_[i] < from;
    }
  }

  lemma PollEnd(log: seq<Entry>, opts: Options, acc: seq<nat>, limit: nat, from: nat, n: nat)
    requires from <= n <= |log| && Increasing(acc) && Within(acc, 0, from)
    requires forall p | WindowStart(from, limit) <= p < from && Wanted(opts, log[p]) :: p in acc
    ensures var fresh_ := Matching(log, opts, Max(from, WindowStart(n, limit)), n);
            && Increasing(acc + fresh_) && Within(acc + fresh_, 0, n)
            && forall p | WindowStart(n, limit) <= p < n && Wanted(opts, log[p]) :: p in acc + fresh_
  {
    var lo := WindowStart(n, limit);
    MatchingShape(log, opts, Max(from, lo), n);
    var fresh_ := Matching(log, opts, Max(from, lo), n);
    forall p | lo <= p < n && Wanted(opts, log[p]) ensures p in acc + fresh_ {
      if p < from { assert p in acc; } else { assert p in fresh_; }
    }
  }

  /** `base` followed by those of the first `j` elements that come after the first `olds`. */
  ghost function SoFar<T>(base: seq<T>, xs: seq<T>, olds: nat, j: nat): seq<T>
    requires j <= |xs|
  {
    if j <= olds then base else base + xs[olds..j]
  }

  lemma SoFarStep<T>(base: seq<T>, xs: seq<T>, olds: nat, j: nat)
    requires j < |xs| && olds <= |xs|
    ensures SoFar(base, xs, olds, j + 1) == SoFar(base, xs, olds, j) + if j < olds then [] else [xs[j]]
    ensures SoFar(base, xs, olds, j) <= SoFar(base, xs, olds, |xs|)
    ensures j >= olds ==> |SoFar(base, xs, olds, j)| < |SoFar(base, xs, olds, |xs|)|
  {
    if j >= olds {
      assert xs[olds..j + 1] == xs[olds..j] + [xs[j]];
      assert xs[olds..] == xs[olds..j] + xs[j..];
    }
  }

  lemma SoFarEnds<T>(base: seq<T>, xs: seq<T>, olds: nat)
    requires olds <= |xs|
    ensures SoFar(base, xs, olds, 0) == base && SoFar(base, xs, olds, |xs|) == base + xs[olds..]
  {
  }

  lemma NewMeansLate(found: seq<string>, olds: nat, keys: seq<string>, limit: nat, j: nat)
    requires ToldApart(found, olds, keys, limit) && j < |found|
    ensures found[j] in Newest(SoFar(keys, found, olds, j), limit) <==> j < olds
  {
    var cur := SoFar(keys, found, olds, j);
    if j >= olds {
      forall i | 0 <= i < |cur| ensures cur[i] != found[j] {
        if i >= |keys| { assert cur[i] == found[olds + (i - |keys|)]; }
      }
    }
  }

  /** Marks the window's entries and prints the accepted ones: exactly those that are new. */
  method EmitNew(seen: SeenWindow, entries: seq<Entry>, sink: Sink, printed: seq<Entry>, ghost found: seq<string>,
        ghost olds: nat)
    returns (out: seq<Entry>, failed: bool)
    requires seen.Valid() && found == Keys(entries) && olds <= |entries|
    requires ToldApart(found, olds, seen.accepted, seen.limit)
    requires sink.FailsAfter? ==> |printed| <= sink.count
    modifies seen
    ensures out == Delivered(printed + entries[olds..], sink) && failed == (out != printed + entries[olds..])
    ensures seen.Valid()
    ensures !failed ==> seen.accepted == old(seen.accepted) + found[olds..]
  {
    hide Keys, EntryKey, ToldApart, Newest, Distinct, SoFar;
    ghost var keys := seen.accepted;
    SoFarEnds(keys, found, olds);
    SoFarEnds(printed, entries, olds);
    out, failed := printed, false;
    for j := 0 to |entries|
      invariant seen.Valid()
      invariant seen.accepted == SoFar(keys, found, olds, j)
      invariant out == SoFar(printed, entries, olds, j)
      invariant sink.FailsAfter? ==> |out| <= sink.count
    {
      NewMeansLate(found, olds, keys, seen.limit, j);
      SoFarStep(keys, found, olds, j);
      SoFarStep(printed, entries, olds, j);
      var isNew := seen.Mark(EntryKey(entries[j]));
      if isNew {
        if sink.FailsAfter? && |out| == sink.count {
          return out, true;
        }
        out := out + [entries[j]];
      }
    }
  }

  /** One poll: prints what arrived since the last read and is still in the window. */
  method Poll(seen: SeenWindow, entries: seq<Entry>, sink: Sink, printed: seq<Entry>,
              ghost log: seq<Entry>, ghost opts: Options, ghost acc: seq<nat>, ghost from: nat, ghost n: nat)
    returns (out: seq<Entry>, failed: bool, ghost acc': seq<nat>)
    requires DistinctKeys(log) && from <= n <= |log| && Remembers(seen, log, opts, acc, from)
    requires entries == Filter(log[WindowStart(n, seen.limit)..n], WantedBy(opts))
    requires sink.FailsAfter? ==> |printed| <= sink.count
    modifies seen
    ensures Within(Matching(log, opts, Max(from, WindowStart(n, seen.limit)), n), 0, |log|)
    ensures var all := printed + Pick(log, Matching(log, opts, Max(from, WindowStart(n, seen.limit)), n));
            out == Delivered(all, sink) && failed == (out != all)
    ensures !failed ==> Remembers(seen, log, opts, acc', n)
  {
    hide Matching, Filter, Keys, EntryKey, Pick, Newest, Increasing, Distinct, DistinctKeys, ToldApart, Delivered,
         KeysAt, Wanted;
    ghost var ms := Matching(log, opts, WindowStart(n, seen.limit), n);
    ghost var fresh_ := Matching(log, opts, Max(from, WindowStart(n, seen.limit)), n);
    ghost var olds := PollPlan(log, opts, acc, seen.limit, from, n);
    FilterIsMatching(log, opts, WindowStart(n, seen.limit), n);
    KeysAtShape(log, ms);
    out, failed := EmitNew(seen, entries, sink, printed, KeysAt(log, ms), olds);
    acc' := acc + fresh_;
  }

  /** What a poll can rely on: which part of its window is new, and that remembering this part keeps
      the link between the memory and the log. */
  lemma PollPlan(log: seq<Entry>, opts: Options, acc: seq<nat>, limit: nat, from: nat, n: nat) returns (olds: nat)
    requires DistinctKeys(log) && from <= n <= |log| && Increasing(acc) && Within(acc, 0, from)
    requires forall p | WindowStart(from, limit) <= p < from && Wanted(opts, log[p]) :: p in acc
    ensures var ms := Matching(log, opts, WindowStart(n, limit), n);
            var new_ := Matching(log, opts, Max(from, WindowStart(n, limit)), n);
            && Within(ms, 0, |log|) && Within(new_, 0, |log|) && Within(acc, 0, |log|) && Within(acc + new_, 0, |log|)
            && olds <= |ms| == |Pick(log, ms)| == |KeysAt(log, ms)| && Pick(log, ms)[olds..] == Pick(log, new_)
            && ToldApart(KeysAt(log, ms), olds, KeysAt(log, acc), limit)
            && KeysAt(log, acc) + KeysAt(log, ms)[olds..] == KeysAt(log, acc + new_)
            && Increasing(acc + new_) && Within(acc + new_, 0, n)
            && forall p | WindowStart(n, limit) <= p < n && Wanted(opts, log[p]) :: p in acc + new_
  {
    hide Matching, Keys, EntryKey, Pick, Newest, Increasing, Splits, ToldApart, KeysAt, Wanted, DistinctKeys;
    var lo := WindowStart(n, limit);
    var ms, new_ := Matching(log, opts, lo, n), Matching(log, opts, Max(from, lo), n);
    olds := |Matching(log, opts, lo, Max(from, lo))|;
    WindowSplits(log, opts, acc, limit, from, n);
    SplitsLength(acc, ms, olds, limit, from);
    assert ms[olds..] == new_;
    MemoryDecides(log, acc, ms, olds, limit, from);
    PollEnd(log, opts, acc, limit, from, n);
    PickSplit(log, ms, olds, new_);
    assert (acc + new_)[|acc|..] == new_ && (acc + new_)[..|acc|] == acc;
    PickSplit(log, acc + new_, |acc|, new_);
  }

  lemma SplitsLength(acc: seq<nat>, ms: seq<nat>, olds: nat, limit: nat, from: nat)
    requires Splits(acc, ms, olds, limit, from)
    ensures olds <= |ms|
  {
  }

  lemma GrowPick(log: seq<Entry>, ps: seq<nat>, p: nat)
    requires Within(ps, 0, |log|) && p < |log|
    ensures Within(ps + [p], 0, |log|)
    ensures KeysAt(log, ps + [p]) == KeysAt(log, ps) + [EntryKey(log[p])]
  {
    KeysAtShape(log, ps);
    KeysAtShape(log, ps + [p]);
    hide KeysAt, EntryKey;
  }

  lemma {:induction false} MatchingWanted(log: seq<Entry>, opts: Options, lo: nat, hi: nat)
    requires lo <= hi <= |log|
    ensures forall p | p in Matching(log, opts, lo, hi) :: p < |log| && Wanted(opts, log[p])
    decreases hi - lo
  {
    if lo < hi { MatchingWanted(log, opts, lo + 1, hi); }
  }

  /** The entries printed after `count` reads. */
  ghost function PrintedEntries(log: seq<Entry>, opts: Options, sizes: seq<nat>, count: nat): seq<Entry>
    requires Growing(sizes, log) && count <= |sizes| && opts.lines > 0
  {
    if count == 0 then []
    else
      PrintedIncreasing(log, opts, sizes, count);
      Pick(log, Printed(log, opts, sizes, count))
  }

  lemma {:induction false} PrintedPrefix(log: seq<Entry>, opts: Options, sizes: seq<nat>, i: nat, k: nat)
    requires Growing(sizes, log) && i <= k <= |sizes| && opts.lines > 0
    ensures PrintedEntries(log, opts, sizes, i) <= PrintedEntries(log, opts, sizes, k)
    decreases k - i
  {
    if i < k {
      PrintedPrefix(log, opts, sizes, i, k - 1);
      PrintedIncreasing(log, opts, sizes, k);
      if k > 1 {
        PrintedIncreasing(log, opts, sizes, k - 1);
        assert Printed(log, opts, sizes, k - 1) <= Printed(log, opts, sizes, k);
      }
    }
  }

  lemma PickAppend(log: seq<Entry>, ps: seq<nat>, qs: seq<nat>)
    requires Within(ps, 0, |log|) && Within(qs, 0, |log|)
    ensures Within(ps + qs, 0, |log|) && Pick(log, ps + qs) == Pick(log, ps) + Pick(log, qs)
  {
    hide Pick;
  }

  lemma PrintedStep(log: seq<Entry>, opts: Options, sizes: seq<nat>, i: nat)
    requires Growing(sizes, log) && 0 < i < |sizes| && opts.lines > 0
    ensures Within(Seen(log, opts, sizes, i), 0, |log|)
    ensures PrintedEntries(log, opts, sizes, i + 1)
            == PrintedEntries(log, opts, sizes, i) + Pick(log, Seen(log, opts, sizes, i))
  {
    hide Pick, Matching, Increasing, Opening;
    PrintedIncreasing(log, opts, sizes, i);
    MatchingShape(log, opts, Max(sizes[i - 1], WindowStart(sizes[i], FollowWindowSize(opts))), sizes[i]);
    PickAppend(log, Printed(log, opts, sizes, i), Seen(log, opts, sizes, i));
  }

  lemma NewestPick(log: seq<Entry>, ps: seq<nat>, n: nat)
    requires Within(ps, 0, |log|)
    ensures Within(Newest(ps, n), 0, |log|) && Newest(Pick(log, ps), n) == Pick(log, Newest(ps, n))
  {
    hide Pick;
  }

  lemma OpeningEntries(log: seq<Entry>, opts: Options, sizes: seq<nat>)
    requires Growing(sizes, log) && |sizes| > 0 && opts.lines > 0
    ensures var ms := Matching(log, opts, WindowStart(sizes[0], InitialReadSize(opts)), sizes[0]);
            && Within(ms, 0, |log|) && PrintedEntries(log, opts, sizes, 1) == Newest(Pick(log, ms), opts.lines)
            && PrintedEntries(log, opts, sizes, 0) == []
  {
    hide Matching, Pick, Increasing, KeysAt, Newest;
    var ms := Matching(log, opts, WindowStart(sizes[0], InitialReadSize(opts)), sizes[0]);
    MatchingShape(log, opts, WindowStart(sizes[0], InitialReadSize(opts)), sizes[0]);
    NewestPick(log, ms, opts.lines);
  }

  /** Without a query the window covers the wanted lines: the opening is exactly the newest `lines`
      entries of the log. */
  lemma OpeningIsNewest(log: seq<Entry>, opts: Options, sizes: seq<nat>)
    requires Growing(sizes, log) && |sizes| > 0 && opts.lines > 0 && !opts.hasQuery
    ensures PrintedEntries(log, opts, sizes, 1) == Newest(log[..sizes[0]], opts.lines)
  {
    hide Matching, Pick, Filter, PrintedEntries, Increasing;
    var lo := WindowStart(sizes[0], InitialReadSize(opts));
    OpeningEntries(log, opts, sizes);
    FilterIsMatching(log, opts, lo, sizes[0]);
    FilterAll(log[lo..sizes[0]], WantedBy(opts));
    assert Newest(log[lo..sizes[0]], opts.lines) == Newest(log[..sizes[0]], opts.lines);
  }

  /** The first read in numbers. A count of lines of 0 or less means 20. With a query or in follow mode
      ten times the lines and at least 200 entries are read, else just the lines. Printed are the
      newest `lines` of those read that match. */
  lemma OpeningWritten(log: seq<Entry>, raw: Options, sizes: seq<nat>)
    requires Growing(sizes, log) && |sizes| > 0
    ensures var lines := if raw.lines <= 0 then 20 else raw.lines;
            var size := if !raw.hasQuery && !raw.follow then lines else if 10 * lines > 200 then 10 * lines else 200;
            var read := log[if sizes[0] > size then sizes[0] - size else 0..sizes[0]];
            var found := if raw.hasQuery then Filter(read, raw.matches) else read;
            PrintedEntries(log, Normalize(raw), sizes, 1) == if |found| > lines then found[|found| - lines..] else found
  {
    hide Matching, Pick, Filter, PrintedEntries, Increasing;
    var opts := Normalize(raw);
    var lo := WindowStart(sizes[0], InitialReadSize(opts));
    OpeningEntries(log, opts, sizes);
    FilterIsMatching(log, opts, lo, sizes[0]);
    WantedIs(opts, log[lo..sizes[0]]);
  }

  /** A poll in numbers: it adds what arrived since the read before it and is among the newest ten times
      the lines, and at least 200, entries, as far as it matches. */
  lemma PollWritten(log: seq<Entry>, raw: Options, sizes: seq<nat>, i: nat)
    requires Growing(sizes, log) && 0 < i < |sizes|
    ensures var lines := if raw.lines <= 0 then 20 else raw.lines;
            var size := if 10 * lines > 200 then 10 * lines else 200;
            var n := sizes[i];
            var arrived := log[if n > size && n - size > sizes[i - 1] then n - size else sizes[i - 1]..n];
            PrintedEntries(log, Normalize(raw), sizes, i + 1)
            == PrintedEntries(log, Normalize(raw), sizes, i)
               + if raw.hasQuery then Filter(arrived, raw.matches) else arrived
  {
    hide Matching, Pick, Filter, PrintedEntries, Increasing;
    var opts := Normalize(raw);
    var lo := Max(sizes[i - 1], WindowStart(sizes[i], FollowWindowSize(opts)));
    PrintedStep(log, opts, sizes, i);
    FilterIsMatching(log, opts, lo, sizes[i]);
    WantedIs(opts, log[lo..sizes[i]]);
  }

  /** The unbounded specification written out: the opening and then all that came later and matches. */
  lemma EverythingWritten(log: seq<Entry>, raw: Options, sizes: seq<nat>, count: nat)
    requires Growing(sizes, log) && 0 < count <= |sizes|
    ensures Within(Everything(log, Normalize(raw), sizes, count), 0, |log|)
    ensures var later := log[sizes[0]..sizes[count - 1]];
            Pick(log, Everything(log, Normalize(raw), sizes, count))
            == PrintedEntries(log, Normalize(raw), sizes, 1)
               + if raw.hasQuery then Filter(later, raw.matches) else later
  {
    hide Matching, Pick, Filter, Increasing, Opening;
    var opts := Normalize(raw);
    PrintedIncreasing(log, opts, sizes, 1);
    MatchingShape(log, opts, sizes[0], sizes[count - 1]);
    FilterIsMatching(log, opts, sizes[0], sizes[count - 1]);
    WantedIs(opts, log[sizes[0]..sizes[count - 1]]);
    PickAppend(log, Opening(log, opts, sizes), Matching(log, opts, sizes[0], sizes[count - 1]));
  }

  /** The reads that count are those before the first failure, and only the first one without follow mode. */
  lemma {:induction false} GoodReadsExact(answers: seq<Read>, follow: bool)
    ensures var n := GoodReads(answers, follow);
            && n <= |answers| && (forall i | 0 <= i < n :: answers[i].Entries?)
            && (follow ==> n == |answers| || answers[n].Failed?)
            && (!follow ==> n == if answers != [] && answers[0].Entries? then 1 else 0)
  {
    if answers != [] {
      GoodReadsExact(answers[1..], follow);
    }
  }

  lemma {:induction false} GoodReadsBounds(answers: seq<Read>, follow: bool)
    ensures GoodReads(answers, follow) <= |answers|
    ensures answers != [] && answers[0].Entries? ==> 1 <= GoodReads(answers, follow)
    ensures !follow ==> GoodReads(answers, follow) <= 1
  {
    if answers != [] {
      GoodReadsBounds(answers[1..], follow);
    }
  }

  lemma {:induction false} GoodReadsMore(answers: seq<Read>, k: nat)
    requires k <= |answers| && forall i | 0 <= i < k :: answers[i].Entries?
    ensures k <= GoodReads(answers, true) <= |answers|
  {
    if k > 0 {
      assert forall i | 0 <= i < k - 1 :: answers[1..][i] == answers[i + 1];
      GoodReadsMore(answers[1..], k - 1);
    } else {
      GoodReadsBounds(answers, true);
    }
  }

  lemma FirstMark(log: seq<Entry>, ms: seq<nat>, limit: nat, j: nat)
    requires DistinctKeys(log) && Increasing(ms) && Within(ms, 0, |log|) && j < |ms|
    ensures Within(ms[..j], 0, |log|) && EntryKey(log[ms[j]]) !in Newest(KeysAt(log, ms[..j]), limit)
    ensures Within(ms[..j + 1], 0, |log|)
    ensures KeysAt(log, ms[..j + 1]) == KeysAt(log, ms[..j]) + [EntryKey(log[ms[j]])]
  {
    hide Pick, Keys, EntryKey, Newest, KeysAt, DistinctKeys;
    assert Increasing(ms[..j]) && ms[j] !in ms[..j];
    MarkDecides(log, ms[..j], limit, ms[j], ms[j]);
    GrowPick(log, ms[..j], ms[j]);
    assert ms[..j + 1] == ms[..j] + [ms[j]];
  }

  /** Before the first poll every matching entry of the initial window is remembered. */
  method MarkAll(seen: SeenWindow, entries: seq<Entry>, ghost log: seq<Entry>, ghost ms: seq<nat>, ghost n: nat)
    requires seen.Valid() && seen.accepted == [] && DistinctKeys(log)
    requires n <= |log| && Increasing(ms) && Within(ms, 0, n) && Within(ms, 0, |log|) && entries == Pick(log, ms)
    modifies seen
    ensures seen.Valid() && seen.accepted == KeysAt(log, ms)
  {
    for j := 0 to |entries|
      invariant seen.Valid() && Within(ms[..j], 0, |log|)
      invariant seen.accepted == KeysAt(log, ms[..j])
    {
      FirstMark(log, ms, seen.limit, j);
      var _ := seen.Mark(EntryKey(entries[j]));
    }
    assert ms[..|ms|] == ms;
  }

  lemma CutShort<T>(all: seq<T>, part: seq<T>, sink: Sink)
    requires part <= all
    ensures Delivered(part, sink) != part ==> Delivered(all, sink) == Delivered(part, sink) != all
    ensures Delivered(part, sink) == part && sink.FailsAfter? ==> |part| <= sink.count
  {
  }

  method PrintAll(entries: seq<Entry>, sink: Sink) returns (out: seq<Entry>, failed: bool)
    ensures out == Delivered(entries, sink) && failed == (out != entries)
  {
    out := [];
    for j := 0 to |entries|
      invariant out == entries[..j]
      invariant sink.FailsAfter? ==> |out| <= sink.count
    {
      if sink.FailsAfter? && |out| == sink.count {
        return out, true;
      }
      out := out + [entries[j]];
    }
    return out, false;
  }

  /** The polls, after an initial read that remembered the positions `start`. */
  method Follow(seen: SeenWindow, opts: Options, answers: seq<Read>, sink: Sink, opening: seq<Entry>,
                ghost log: seq<Entry>, ghost sizes: seq<nat>, ghost start: seq<nat>)
    returns (out: seq<Entry>, failed: bool)
    requires |answers| == |sizes| > 0 && Growing(sizes, log) && Ordered(log) && DistinctKeys(log) && opts.lines > 0
    requires forall i | 0 < i < |answers| :: Answers(answers[i], log, sizes[i], FollowWindowSize(opts))
    requires answers[0].Entries? && Remembers(seen, log, opts, start, sizes[0]) && seen.limit == FollowWindowSize(opts)
    requires opening == PrintedEntries(log, opts, sizes, 1)
    requires sink.FailsAfter? ==> |opening| <= sink.count
    modifies seen
    ensures var good := GoodReads(answers, true);
            && good <= |answers|
            && var all := PrintedEntries(log, opts, sizes, good);
            && out == Delivered(all, sink)
            && (failed <==> out != all || good < |answers|)
  {
    hide Matching, Filter, Keys, EntryKey, Pick, Printed, PrintedEntries, Wanted, KeysAt, GoodReads, Increasing,
         Ordered, DistinctKeys, Distinct;
    var i := 1;
    ghost var acc := start;
    out, failed := opening, false;
    while i < |answers|
      invariant 1 <= i <= |answers| && forall k | 0 <= k < i :: answers[k].Entries?
      invariant out == PrintedEntries(log, opts, sizes, i)
      invariant sink.FailsAfter? ==> |out| <= sink.count
      invariant Remembers(seen, log, opts, acc, sizes[i - 1])
    {
      if answers[i].Failed? {
        GoodReadsFirst(answers, i);
        return out, true;
      }
      var entries := LoadRecent(answers[i], log, sizes[i], FollowWindowSize(opts));
      entries := FilterEntries(entries, opts);
      GoodReadsMore(answers, i + 1);
      PrintedPrefix(log, opts, sizes, i + 1, GoodReads(answers, true));
      PrintedStep(log, opts, sizes, i);
      out, failed, acc := Poll(seen, entries, sink, out, log, opts, acc, sizes[i - 1], sizes[i]);
      ghost var all := PrintedEntries(log, opts, sizes, GoodReads(answers, true));
      CutShort(all, PrintedEntries(log, opts, sizes, i + 1), sink);
      if failed {
        return out, true;
      }
      i := i + 1;
    }
    GoodReadsFirst(answers, |answers|);
  }

  lemma NothingBefore(log: seq<Entry>, opts: Options, sizes: seq<nat>)
    requires Growing(sizes, log) && opts.lines > 0
    ensures PrintedEntries(log, opts, sizes, 0) == []
  {
  }

  /** The initial read: what it prints, and the positions it remembers. */
  method Open(seen: SeenWindow, opts: Options, read: Read, ghost log: seq<Entry>, ghost sizes: seq<nat>)
    returns (opening: seq<Entry>, ghost start: seq<nat>)
    requires |sizes| > 0 && Growing(sizes, log) && Ordered(log) && DistinctKeys(log) && opts.lines > 0
    requires read.Entries? && Answers(read, log, sizes[0], InitialReadSize(opts))
    requires seen.Valid() && seen.accepted == [] && seen.limit == FollowWindowSize(opts)
    modifies seen
    ensures opening == PrintedEntries(log, opts, sizes, 1)
    ensures opts.follow ==> Remembers(seen, log, opts, start, sizes[0])
  {
    hide Filter, Keys, EntryKey, Pick, Printed, PrintedEntries, Matching, Wanted, KeysAt, Increasing, Ordered,
         DistinctKeys, Distinct;
    OpeningEntries(log, opts, sizes);
    ghost var lo := WindowStart(sizes[0], InitialReadSize(opts));
    start := Matching(log, opts, lo, sizes[0]);
    FilterIsMatching(log, opts, lo, sizes[0]);
    MatchingShape(log, opts, lo, sizes[0]);
    opening := LoadRecent(read, log, sizes[0], InitialReadSize(opts));
    opening := FilterEntries(opening, opts);
    MarkAll(seen, opening, log, start, sizes[0]);
    if |opening| > opts.lines {
      opening := opening[|opening| - opts.lines..];
    }
  }

  /** `answers[0]` is the initial read and the rest are the polls made before the context ends.
      The output is the specified one, cut off only by the first failing read or a failing sink. */
  method Tail(raw: Options, answers: seq<Read>, sink: Sink, ghost log: seq<Entry>, ghost sizes: seq<nat>)
    returns (out: seq<Entry>, failed: bool)
    requires |answers| == |sizes| > 0 && Growing(sizes, log) && Ordered(log) && DistinctKeys(log)
    requires forall i | 0 <= i < |answers| :: Answers(answers[i], log, sizes[i], ReadSize(Normalize(raw), i))
    ensures var good := GoodReads(answers, raw.follow);
            && good <= |answers|
            && var all := PrintedEntries(log, Normalize(raw), sizes, good);
            && out == Delivered(all, sink)
            && (failed <==> out != all || (good < |answers| && (raw.follow || good == 0)))
  {
    hide Matching, Filter, Keys, EntryKey, Pick, Printed, PrintedEntries, Wanted, KeysAt, Increasing, Ordered,
         DistinctKeys, Distinct;
    var opts := Normalize(raw);
    var seen := new SeenWindow(FollowWindowSize(opts));
    ghost var good := GoodReads(answers, raw.follow);
    GoodReadsBounds(answers, raw.follow);
    NothingBefore(log, opts, sizes);
    if answers[0].Failed? {
      return [], true;
    }
    PrintedPrefix(log, opts, sizes, 1, good);
    ghost var start;
    out, start := Open(seen, opts, answers[0], log, sizes);
    CutShort(PrintedEntries(log, opts, sizes, good), out, sink);
    out, failed := PrintAll(out, sink);
    if failed || !opts.follow {
      return out, failed;
    }
    out, failed := Follow(seen, opts, answers, sink, out, log, sizes, start);
  }
}
