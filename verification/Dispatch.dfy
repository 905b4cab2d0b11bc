/** The hook dispatcher (hooks/itd_dispatch.py): the table and registration that routing writes, the rows a tool
    selects, the threads run_all waits for, and the answer merge gives.

    Time is the monotonic clock in seconds.  How long a hook runs is free, including forever; only the waits take
    time, so every schedule of the threads is one choice of those durations. */
module Dispatch {
  import opened Wrappers

  const HARD_GATE_MIN_BUDGET_SECONDS := 30.0
  const SEQUENTIAL_WAIT_SECONDS := 0.25
  const REGISTRATION_MARGIN_SECONDS := 10
  const DEFAULT_TIMEOUT_SECONDS := 5.0

  datatype HookEvent = PreToolUse | PostToolUse | UserPromptSubmit | Stop | SubagentStop

  /** The scripts of HARD_GATES under an event. */
  function HardGates(event: HookEvent): seq<string> {
    match event
    case PreToolUse =>
      ["check-commit-completeness.sh", "check-dod-before-commit.sh", "check-predeploy-gate.sh",
       "check-review-before-commit.sh", "check-skill-completeness.sh", "check-tool-skill.sh", "completion-gate.sh",
       "cost-tracker.sh", "pii-egress-guard.sh", "state-guard.sh"]
    case SubagentStop => ["narration-final.sh", "verdict-contract.sh"]
    case _ => []
  }

  /** The scripts of ROUTABLE under an event. */
  function Routable(event: HookEvent): seq<string> {
    match event
    case PreToolUse =>
      ["careful.sh", "check-commit-completeness.sh", "check-dod-before-commit.sh", "check-predeploy-gate.sh",
       "check-skill-completeness.sh", "completion-gate.sh", "context-budget.sh", "cost-tracker.sh",
       "cross-review-precommit.sh", "execution-trace.sh", "freeze.sh", "model-policy.sh", "pii-egress-guard.sh",
       "state-guard.sh", "wip-gate.sh"]
    case PostToolUse =>
      ["completion-signals.sh", "cost-tracker.sh", "crash-recovery.sh", "execution-trace.sh", "record-agent-skill.sh",
       "risk-score.sh", "state-guard.sh", "stuck-detection.sh"]
    case UserPromptSubmit =>
      ["context-aware.sh", "graph-route.sh", "pre-flight-check.sh", "session-open-diagnostic.sh"]
    case Stop => ["completion-stop.sh", "crash-recovery.sh", "handoff-readiness.sh"]
    case SubagentStop => ["crash-recovery.sh", "narration-final.sh", "verdict-contract.sh"]
  }

  lemma AtMostFifteenRoutable(event: HookEvent)
    ensures |Routable(event)| <= 15
  {
  }

  /** A row of the table. */
  datatype Entry = Entry(matcher: string, script: string, timeout: real, hardGate: bool)

  function Max(a: real, b: real): real { if a < b then b else a }

  function Min(a: real, b: real): real { if a < b then a else b }

  /** `budget`. */
  function Budget(entry: Entry): real {
    var seconds := if entry.timeout == 0.0 then DEFAULT_TIMEOUT_SECONDS else entry.timeout;
    if entry.hardGate then Max(seconds, HARD_GATE_MIN_BUDGET_SECONDS) else seconds
  }

  function Longest(entries: seq<Entry>): (longest: real)
    ensures longest >= 0.0 && forall k :: 0 <= k < |entries| ==> Budget(entries[k]) <= longest
  {
    if entries == [] then 0.0 else Max(Longest(entries[..|entries| - 1]), Budget(entries[|entries| - 1]))
  }

  lemma {:induction false} LongestIsABudget(entries: seq<Entry>) returns (k: nat)
    ensures Longest(entries) == 0.0 || (k < |entries| && Budget(entries[k]) == Longest(entries))
    decreases |entries|
  {
    k := 0;
    if entries != [] {
      var n: nat := |entries| - 1;
      k := LongestIsABudget(entries[..n]);
      if Longest(entries[..n]) < Budget(entries[n]) {
        k := n;
      }
    }
  }

  // ---------------------------------------------------------------- routing

  /** A hook of the settings, named by its script. */
  datatype Hook = Hook(script: string, timeout: Option<real>)

  datatype Group = Group(matcher: string, hooks: seq<Hook>)

  function EntryOf(matcher: string, hook: Hook, gates: set<string>): Entry {
    Entry(matcher, hook.script, if hook.timeout.Some? then hook.timeout.value else DEFAULT_TIMEOUT_SECONDS,
          hook.script in gates)
  }

  function GroupEntries(g: Group, gates: set<string>): seq<Entry> {
    seq(|g.hooks|, k requires 0 <= k < |g.hooks| => EntryOf(g.matcher, g.hooks[k], gates))
  }

  function EventEntries(groups: seq<Group>, gates: set<string>): seq<Entry> {
    if groups == [] then []
    else EventEntries(groups[..|groups| - 1], gates) + GroupEntries(groups[|groups| - 1], gates)
  }

  /** `routing` for one event: its rows, and the timeout the dispatcher is registered with. */
  method RouteEvent(groups: seq<Group>, gates: set<string>) returns (entries: seq<Entry>, timeout: int)
    ensures entries == EventEntries(groups, gates)
    ensures timeout == Longest(entries).Floor + REGISTRATION_MARGIN_SECONDS
  {
    entries := [];
    var longest := 0.0;
    for g := 0 to |groups|
      invariant entries == EventEntries(groups[..g], gates) && longest == Longest(entries)
    {
      assert groups[..g + 1][..g] == groups[..g];
      entries, longest := RouteGroup(groups[g], gates, entries, longest);
    }
    assert groups[..|groups|] == groups;
    timeout := longest.Floor + REGISTRATION_MARGIN_SECONDS;
  }

  /** The inner loop of `routing`, over the hooks of one group. */
  method RouteGroup(g: Group, gates: set<string>, before: seq<Entry>, least: real)
    returns (entries: seq<Entry>, longest: real)
    requires least == Longest(before)
    ensures entries == before + GroupEntries(g, gates) && longest == Longest(entries)
  {
    entries, longest := before, least;
    ghost var rows := GroupEntries(g, gates);
    for h := 0 to |g.hooks|
      invariant entries == before + rows[..h] && longest == Longest(entries)
    {
      var entry := EntryOf(g.matcher, g.hooks[h], gates);
      assert rows[..h + 1] == rows[..h] + [entry];
      assert (entries + [entry])[..|entries|] == entries;
      entries := entries + [entry];
      longest := Max(longest, Budget(entry));
    }
    assert rows[..|rows|] == rows;
  }

  /** The rows that the first `g` groups take. */
  function RowsBefore(groups: seq<Group>, g: nat): nat
    requires g <= |groups|
  {
    if g == 0 then 0 else RowsBefore(groups, g - 1) + |groups[g - 1].hooks|
  }

  /** Every hook of every group has its row, in the order of the settings, with its own timeout or five seconds, marked
      when its script is a gate; and there are no other rows. */
  lemma {:induction false} EveryHookHasItsRow(groups: seq<Group>, gates: set<string>, g: nat, h: nat)
    requires g < |groups| && h < |groups[g].hooks|
    ensures var entries, hook, at := EventEntries(groups, gates), groups[g].hooks[h], RowsBefore(groups, g) + h;
            && |entries| == RowsBefore(groups, |groups|) && at < |entries|
            && entries[at].matcher == groups[g].matcher && entries[at].script == hook.script
            && entries[at].timeout == (if hook.timeout.Some? then hook.timeout.value else 5.0)
            && (entries[at].hardGate <==> hook.script in gates)
    decreases |groups|
  {
    var n: nat := |groups| - 1;
    RowCount(groups, gates, n);
    RowCount(groups, gates, |groups|);
    assert groups[..|groups|] == groups;
    if g < n {
      EveryHookHasItsRow(groups[..n], gates, g, h);
      SameRowsBefore(groups, n, g);
    }
  }

  lemma {:induction false} SameRowsBefore(groups: seq<Group>, n: nat, g: nat)
    requires g <= n <= |groups|
    ensures RowsBefore(groups[..n], g) == RowsBefore(groups, g)
    decreases g
  {
    if g > 0 {
      SameRowsBefore(groups, n, g - 1);
    }
  }

  lemma {:induction false} RowCount(groups: seq<Group>, gates: set<string>, g: nat)
    requires g <= |groups|
    ensures |EventEntries(groups[..g], gates)| == RowsBefore(groups, g)
    decreases g
  {
    if g > 0 {
      RowCount(groups, gates, g - 1);
      assert groups[..g][..g - 1] == groups[..g - 1];
    }
  }

  // ---------------------------------------------------------------- selected

  predicate ValidRows(entries: seq<Entry>, event: HookEvent) {
    forall k :: 0 <= k < |entries| ==> entries[k].script in Routable(event) && entries[k].timeout > 0.0
  }

  /** Whether a row's matcher matches the tool. */
  type Matches = (string, string) -> bool

  function Chosen(entry: Entry, event: HookEvent): Entry {
    entry.(hardGate := entry.hardGate || entry.script in HardGates(event))
  }

  predicate HasScript(rows: seq<Entry>, script: string) { exists k :: 0 <= k < |rows| && rows[k].script == script }

  /** `selected`: the first matching row of every script, its hard-gate flag forced for a hard gate. */
  function Select(entries: seq<Entry>, event: HookEvent, tool: string, matches: Matches): seq<Entry> {
    if entries == [] then []
    else
      var n := |entries| - 1;
      var rows := Select(entries[..n], event, tool, matches);
      if matches(entries[n].matcher, tool) && !HasScript(rows, entries[n].script)
      then rows + [Chosen(entries[n], event)] else rows
  }

  method Selected(entries: seq<Entry>, event: HookEvent, tool: string, matches: Matches) returns (rows: seq<Entry>)
    ensures rows == Select(entries, event, tool, matches)
  {
    rows := [];
    var chosen: set<string> := {};
    assert entries[..|entries|] == entries;
    for k := 0 to |entries|
      invariant rows == Select(entries[..k], event, tool, matches)
      invariant forall s :: s in chosen <==> HasScript(rows, s)
    {
      assert entries[..k + 1][..k] == entries[..k];
      if matches(entries[k].matcher, tool) && entries[k].script !in chosen {
        var row := Chosen(entries[k], event);
        HasScriptGrows(rows, row);
        rows := rows + [row];
        chosen := chosen + {row.script};
      }
    }
  }

  lemma HasScriptGrows(rows: seq<Entry>, row: Entry)
    ensures forall s :: HasScript(rows + [row], s) <==> HasScript(rows, s) || s == row.script
  {
    var grown := rows + [row];
    forall s
      ensures HasScript(grown, s) <==> HasScript(rows, s) || s == row.script
    {
      if HasScript(rows, s) {
        var k :| 0 <= k < |rows| && rows[k].script == s;
        assert grown[k].script == s;
      }
      assert grown[|rows|] == row;
    }
  }

  predicate DistinctScripts(rows: seq<Entry>) {
    forall j, k :: 0 <= j < k < |rows| ==> rows[j].script != rows[k].script
  }

  /** Every script is selected at most once. */
  lemma {:induction false} SelectedOnce(entries: seq<Entry>, event: HookEvent, tool: string, matches: Matches)
    ensures DistinctScripts(Select(entries, event, tool, matches))
    decreases |entries|
  {
    if entries != [] {
      var n := |entries| - 1;
      SelectedOnce(entries[..n], event, tool, matches);
      var rows := Select(entries[..n], event, tool, matches);
      if matches(entries[n].matcher, tool) && !HasScript(rows, entries[n].script) {
        forall k | 0 <= k < |rows|
          ensures rows[k].script != entries[n].script
        {
          assert HasScript(rows, rows[k].script);
        }
      }
    }
  }

  /** A selected row is a matching row of the table, marked when its script is a hard gate. */
  ghost predicate FromTable(row: Entry, entries: seq<Entry>, event: HookEvent, tool: string, matches: Matches) {
    exists m :: 0 <= m < |entries| && row == Chosen(entries[m], event) && matches(entries[m].matcher, tool)
  }

  lemma {:induction false} SelectedFromTable(entries: seq<Entry>, k: nat, event: HookEvent, tool: string,
                                              matches: Matches)
    requires k < |Select(entries, event, tool, matches)|
    ensures FromTable(Select(entries, event, tool, matches)[k], entries, event, tool, matches)
    decreases |entries|
  {
    var n := |entries| - 1;
    var rows := Select(entries[..n], event, tool, matches);
    if k < |rows| {
      SelectedFromTable(entries[..n], k, event, tool, matches);
      var m :| 0 <= m < n && rows[k] == Chosen(entries[..n][m], event) && matches(entries[..n][m].matcher, tool);
      assert entries[m] == entries[..n][m];
    } else {
      assert Select(entries, event, tool, matches)[k] == Chosen(entries[n], event);
    }
  }

  /** Row `k` of the selection is made from row `at[k]` of the table, the first matching row of its script, with the
      hard-gate flag set for a hard gate; the rows keep the order of the table. */
  ghost predicate FirstRows(rows: seq<Entry>, at: seq<nat>, entries: seq<Entry>, event: HookEvent, tool: string,
                            matches: Matches)
  {
    && |at| == |rows| && (forall k :: 0 <= k < |at| ==> FirstRow(rows[k], at[k], entries, event, tool, matches))
    && forall j, k :: 0 <= j < k < |at| ==> at[j] < at[k]
  }

  ghost predicate FirstRow(row: Entry, m: nat, entries: seq<Entry>, event: HookEvent, tool: string, matches: Matches) {
    && m < |entries| && matches(entries[m].matcher, tool)
    && row.script == entries[m].script && row.timeout == entries[m].timeout && row.matcher == entries[m].matcher
    && (row.hardGate <==> entries[m].hardGate || row.script in HardGates(event))
    && forall l :: 0 <= l < m && entries[l].script == row.script ==> !matches(entries[l].matcher, tool)
  }

  lemma {:induction false} SelectedAreFirstRows(entries: seq<Entry>, event: HookEvent, tool: string, matches: Matches)
    returns (at: seq<nat>)
    ensures FirstRows(Select(entries, event, tool, matches), at, entries, event, tool, matches)
    decreases |entries|
  {
    at := [];
    if entries != [] {
      var n: nat := |entries| - 1;
      var rows := Select(entries[..n], event, tool, matches);
      var before := SelectedAreFirstRows(entries[..n], event, tool, matches);
      FirstRowsStay(rows, before, entries, event, tool, matches);
      if matches(entries[n].matcher, tool) && !HasScript(rows, entries[n].script) {
        NewFirstRow(entries, event, tool, matches);
        OneRowMore(rows, before, Chosen(entries[n], event), n, entries, event, tool, matches);
        at := before + [n];
      } else {
        at := before;
      }
    }
  }

  lemma OneRowMore(rows: seq<Entry>, at: seq<nat>, row: Entry, n: nat, entries: seq<Entry>, event: HookEvent,
                   tool: string, matches: Matches)
    requires FirstRows(rows, at, entries, event, tool, matches) && FirstRow(row, n, entries, event, tool, matches)
    requires forall k :: 0 <= k < |at| ==> at[k] < n
    ensures FirstRows(rows + [row], at + [n], entries, event, tool, matches)
  {
  }

  lemma NewFirstRow(entries: seq<Entry>, event: HookEvent, tool: string, matches: Matches)
    requires entries != [] && matches(entries[|entries| - 1].matcher, tool)
    requires !HasScript(Select(entries[..|entries| - 1], event, tool, matches), entries[|entries| - 1].script)
    ensures FirstRow(Chosen(entries[|entries| - 1], event), |entries| - 1, entries, event, tool, matches)
  {
    var before, last := entries[..|entries| - 1], entries[|entries| - 1];
    forall l | 0 <= l < |before| && entries[l].script == last.script
      ensures !matches(entries[l].matcher, tool)
    {
      if matches(before[l].matcher, tool) {
        MatchIsSelected(before, l, event, tool, matches);
      }
    }
  }

  lemma FirstRowsStay(rows: seq<Entry>, at: seq<nat>, entries: seq<Entry>, event: HookEvent, tool: string,
                      matches: Matches)
    requires entries != [] && FirstRows(rows, at, entries[..|entries| - 1], event, tool, matches)
    ensures FirstRows(rows, at, entries, event, tool, matches)
    ensures forall k :: 0 <= k < |at| ==> at[k] < |entries| - 1
  {
    forall k | 0 <= k < |at|
      ensures FirstRow(rows[k], at[k], entries, event, tool, matches) && at[k] < |entries| - 1
    {
      assert FirstRow(rows[k], at[k], entries[..|entries| - 1], event, tool, matches);
    }
  }

  /** The script of every matching row is selected. */
  lemma {:induction false} MatchIsSelected(entries: seq<Entry>, m: nat, event: HookEvent, tool: string,
                                           matches: Matches)
    requires m < |entries| && matches(entries[m].matcher, tool)
    ensures HasScript(Select(entries, event, tool, matches), entries[m].script)
    decreases |entries|
  {
    var n := |entries| - 1;
    var rows := Select(entries[..n], event, tool, matches);
    HasScriptGrows(rows, Chosen(entries[n], event));
    if m < n {
      MatchIsSelected(entries[..n], m, event, tool, matches);
    }
  }

  // ---------------------------------------------------------------- run_all

  /** What a hook does: its file may be missing, it runs for `duration` seconds or forever (None), ends with an
      exit code, and its answer may block. */
  datatype Behaviour = Behaviour(missing: bool, duration: Option<real>, code: int, answerBlocks: bool)

  datatype Failure = NoFailure | FileMissing | Overran | Exited(code: int)

  datatype HookResult = HookResult(entry: Entry, failure: Failure, blocks: bool)

  /** A hook that was started, with the instant it started and the one it ends at, if ever. */
  datatype Started = Started(entry: Entry, missing: bool, at: real, end: Option<real>)

  predicate EndedBy(end: Option<real>, now: real) { end.Some? && end.value <= now }

  /** `thread.join(timeout)`: the instant it returns at. */
  function Join(end: Option<real>, now: real, timeout: real): (after: real)
    requires timeout >= 0.0
    ensures now <= after <= now + timeout
    ensures !EndedBy(end, after) ==> after == now + timeout
  {
    if EndedBy(end, now + timeout) then Max(now, end.value) else now + timeout
  }

  function StartOf(entry: Entry, b: Behaviour, now: real): Started {
    Started(entry, b.missing, now, if b.missing || b.duration.None? then None else Some(now + b.duration.value))
  }

  /** The deadline of a started hook. */
  function DeadlineOf(s: Started): real { s.at + Budget(s.entry) }

  function ResultOf(s: Started, b: Behaviour, now: real): HookResult {
    if s.missing then HookResult(s.entry, FileMissing, false)
    else if !EndedBy(s.end, now) then HookResult(s.entry, Overran, false)
    else if b.code != 0 && b.code != 2 then HookResult(s.entry, Exited(b.code), false)
    else HookResult(s.entry, NoFailure, b.code == 2 || b.answerBlocks)
  }

  predicate Positive(entries: seq<Entry>) { forall k :: 0 <= k < |entries| ==> entries[k].timeout > 0.0 }

  /** The longest that the first pass waits for `n` hooks. */
  function Waits(n: nat): (seconds: real)
    ensures seconds == 0.25 * n as real
  {
    if n == 0 then 0.0 else Waits(n - 1) + SEQUENTIAL_WAIT_SECONDS
  }

  /** The instant at which the first pass comes to row `k`: it waits at most a quarter second for each hook. */
  function ClockAt(entries: seq<Entry>, behaviours: seq<Behaviour>, start: real, k: nat): (now: real)
    requires k <= |entries| == |behaviours| && Positive(entries)
    ensures start <= now <= start + Waits(k)
  {
    if k == 0 then start
    else
      var now := ClockAt(entries, behaviours, start, k - 1);
      var s := StartOf(entries[k - 1], behaviours[k - 1], now);
      if s.missing then now else Join(s.end, now, Min(SEQUENTIAL_WAIT_SECONDS, Budget(entries[k - 1])))
  }

  /** Between the starts of two rows the first pass waits for the hook of the first one until it ends, and a quarter
      second or its budget, whichever is less, when it does not; a missing hook is not waited for. */
  lemma FirstPassWaits(entries: seq<Entry>, behaviours: seq<Behaviour>, start: real, k: nat)
    requires k < |entries| == |behaviours| && Positive(entries)
    ensures ClockAt(entries, behaviours, start, 0) == start
    ensures var now, b := ClockAt(entries, behaviours, start, k), behaviours[k];
            var most := if Budget(entries[k]) < 0.25 then Budget(entries[k]) else 0.25;
            ClockAt(entries, behaviours, start, k + 1)
            == if b.missing then now
               else if b.duration.Some? && b.duration.value <= most then now + Max(0.0, b.duration.value)
               else now + most
  {
  }

  /** Row `k` as it is started. */
  function StartedAt(entries: seq<Entry>, behaviours: seq<Behaviour>, start: real, k: nat): Started
    requires k < |entries| == |behaviours| && Positive(entries)
  {
    StartOf(entries[k], behaviours[k], ClockAt(entries, behaviours, start, k))
  }

  /** The hooks as the first pass leaves them. */
  ghost predicate AllStarted(entries: seq<Entry>, behaviours: seq<Behaviour>, start: real, started: seq<Started>)
    requires |started| <= |entries| == |behaviours| && Positive(entries)
  {
    forall k :: 0 <= k < |started| ==> started[k] == StartedAt(entries, behaviours, start, k)
  }

  method StartAll(entries: seq<Entry>, behaviours: seq<Behaviour>, start: real)
    returns (started: seq<Started>, now: real)
    requires |entries| == |behaviours| && Positive(entries)
    ensures |started| == |entries| && AllStarted(entries, behaviours, start, started)
    ensures now == ClockAt(entries, behaviours, start, |entries|)
  {
    started, now := [], start;
    for k := 0 to |entries|
      invariant |started| == k && AllStarted(entries, behaviours, start, started)
      invariant now == ClockAt(entries, behaviours, start, k)
    {
      var s := StartOf(entries[k], behaviours[k], now);
      started := started + [s];
      if !behaviours[k].missing {
        now := Join(s.end, now, Min(SEQUENTIAL_WAIT_SECONDS, Budget(entries[k])));
      }
    }
  }

  /** The instant at which the second pass, begun at `from`, comes to row `k`. */
  function WaitedAt(started: seq<Started>, from: real, k: nat): (now: real)
    requires k <= |started|
    ensures from <= now
  {
    if k == 0 then from
    else
      var now, s := WaitedAt(started, from, k - 1), started[k - 1];
      if s.missing then now else Join(s.end, now, Max(0.0, DeadlineOf(s) - now))
  }

  /** The instant at which the second pass stops waiting for the hook of row `k`: its deadline, or the end of the
      waits before it when that is later. */
  function StopsWaiting(started: seq<Started>, from: real, k: nat): real
    requires k < |started|
  {
    Max(DeadlineOf(started[k]), WaitedAt(started, from, k))
  }

  /** The instant until which the wait for a started hook lasts when nothing delays it: its end or its deadline,
      whichever is earlier. */
  function WaitOf(s: Started): real { if EndedBy(s.end, DeadlineOf(s)) then s.end.value else DeadlineOf(s) }

  /** The waits before row `k` end at the latest of the start of the second pass and the single waits: a hook is past
      them exactly when it is past each. */
  lemma {:induction false} WaitsAreTheLatest(started: seq<Started>, from: real, k: nat, end: Option<real>)
    requires k <= |started|
    ensures EndedBy(end, WaitedAt(started, from, k))
            <==> EndedBy(end, from)
                 || exists m :: 0 <= m < k && !started[m].missing && EndedBy(end, WaitOf(started[m]))
    decreases k
  {
    if k > 0 {
      var n: nat := k - 1;
      WaitsAreTheLatest(started, from, n, end);
      assert !started[n].missing ==>
          WaitedAt(started, from, k) == Max(WaitedAt(started, from, n), WaitOf(started[n]));
    }
  }

  /** The result of row `k`. */
  function ResultAt(started: seq<Started>, behaviours: seq<Behaviour>, from: real, k: nat): (r: HookResult)
    requires k < |started| == |behaviours|
  {
    ResultOf(started[k], behaviours[k], StopsWaiting(started, from, k))
  }

  ghost predicate AllResults(started: seq<Started>, behaviours: seq<Behaviour>, from: real, results: seq<HookResult>)
    requires |results| <= |started| == |behaviours|
  {
    forall k :: 0 <= k < |results| ==> results[k] == ResultAt(started, behaviours, from, k)
  }

  /** The second pass: waits for every hook until its deadline. */
  method Await(started: seq<Started>, behaviours: seq<Behaviour>, from: real)
    returns (results: seq<HookResult>, abandoned: bool, end: real)
    requires |started| == |behaviours|
    ensures |results| == |started| && AllResults(started, behaviours, from, results)
    ensures abandoned <==> exists k :: 0 <= k < |results| && results[k].failure.Overran?
    ensures end == WaitedAt(started, from, |started|)
  {
    results, abandoned, end := [], false, from;
    for k := 0 to |started|
      invariant |results| == k && AllResults(started, behaviours, from, results) && end == WaitedAt(started, from, k)
      invariant abandoned <==> exists m :: 0 <= m < k && results[m].failure.Overran?
    {
      var s := started[k];
      if !s.missing {
        end := Join(s.end, end, Max(0.0, DeadlineOf(s) - end));
      }
      var r := ResultOf(s, behaviours[k], end);
      assert r == ResultAt(started, behaviours, from, k);
      abandoned := abandoned || r.failure.Overran?;
      results := results + [r];
      assert results[k] == r;
    }
  }

  /** The waits end by any instant that no deadline and no start of the second pass exceeds. */
  lemma {:induction false} WaitsEnd(started: seq<Started>, from: real, k: nat, limit: real)
    requires k <= |started| && from <= limit && forall m :: 0 <= m < k ==> DeadlineOf(started[m]) <= limit
    ensures WaitedAt(started, from, k) <= limit
    decreases k
  {
    if k > 0 {
      WaitsEnd(started, from, k - 1, limit);
    }
  }

  /** `run_all`: one result a row, in table order, within a quarter second a row and the longest budget; the result
      of a row is that of its hook at the instant the second pass stops waiting for it. */
  method RunAll(entries: seq<Entry>, behaviours: seq<Behaviour>, start: real)
    returns (results: seq<HookResult>, abandoned: bool, end: real)
    requires |entries| == |behaviours| && Positive(entries)
    ensures |results| == |entries|
    ensures forall k :: 0 <= k < |entries| ==> results[k] == Outcome(entries, behaviours, start, k)
    ensures abandoned <==> exists k :: 0 <= k < |results| && results[k].failure.Overran?
    ensures start <= end <= start + Waits(|entries|) + Longest(entries)
  {
    var hooks, now := StartAll(entries, behaviours, start);
    StartedIs(entries, behaviours, start, hooks);
    var limit := start + Waits(|entries|) + Longest(entries);
    forall k | 0 <= k < |hooks|
      ensures DeadlineOf(hooks[k]) <= limit
    {
      assert Budget(entries[k]) <= Longest(entries);
      assert hooks[k].at <= start + Waits(k);
    }
    WaitsEnd(hooks, now, |hooks|, limit);
    results, abandoned, end := Await(hooks, behaviours, now);
  }

  /** The hooks of the first `n` rows as they are started. */
  function HooksUpTo(entries: seq<Entry>, behaviours: seq<Behaviour>, start: real, n: nat): (started: seq<Started>)
    requires n <= |entries| == |behaviours| && Positive(entries)
    ensures |started| == n && AllStarted(entries, behaviours, start, started)
  {
    if n == 0 then []
    else HooksUpTo(entries, behaviours, start, n - 1) + [StartedAt(entries, behaviours, start, n - 1)]
  }

  function AllHooks(entries: seq<Entry>, behaviours: seq<Behaviour>, start: real): seq<Started>
    requires |entries| == |behaviours| && Positive(entries)
  {
    HooksUpTo(entries, behaviours, start, |entries|)
  }

  lemma {:induction false} StartedIs(entries: seq<Entry>, behaviours: seq<Behaviour>, start: real,
                                     started: seq<Started>)
    requires |started| == |entries| == |behaviours| && Positive(entries)
    requires AllStarted(entries, behaviours, start, started)
    ensures started == AllHooks(entries, behaviours, start)
  {
  }

  /** The result of row `k` of a run. */
  function Outcome(entries: seq<Entry>, behaviours: seq<Behaviour>, start: real, k: nat): HookResult
    requires k < |entries| == |behaviours| && Positive(entries)
  {
    ResultAt(AllHooks(entries, behaviours, start), behaviours, ClockAt(entries, behaviours, start, |entries|), k)
  }

  /** The instant at which a run stops waiting for the hook of row `k`. */
  function StopsWaitingFor(entries: seq<Entry>, behaviours: seq<Behaviour>, start: real, k: nat): real
    requires k < |entries| == |behaviours| && Positive(entries)
  {
    StopsWaiting(AllHooks(entries, behaviours, start), ClockAt(entries, behaviours, start, |entries|), k)
  }

  /** The wait for the hook of some row before `k` lasts until `end` or longer. */
  ghost predicate Covered(entries: seq<Entry>, behaviours: seq<Behaviour>, start: real, k: nat, end: Option<real>)
    requires k <= |entries| == |behaviours| && Positive(entries)
  {
    exists m :: 0 <= m < k && !behaviours[m].missing && EndedBy(end, WaitOf(StartedAt(entries, behaviours, start, m)))
  }

  /** An overrun is reported exactly when the hook was started and ended after its deadline, after the start of the
      second pass, and after the end or deadline, whichever is earlier, of every hook started before it. The run stops
      waiting for it never before its budget is used up nor after the bound of the run. */
  lemma {:induction false} OverrunIsExact(entries: seq<Entry>, behaviours: seq<Behaviour>, start: real, k: nat)
    requires k < |entries| == |behaviours| && Positive(entries)
    ensures var s, until := StartedAt(entries, behaviours, start, k), StopsWaitingFor(entries, behaviours, start, k);
            && (Outcome(entries, behaviours, start, k).failure.Overran? <==> !s.missing && !EndedBy(s.end, until))
            && (EndedBy(s.end, until)
                <==> EndedBy(s.end, DeadlineOf(s)) || EndedBy(s.end, ClockAt(entries, behaviours, start, |entries|))
                     || Covered(entries, behaviours, start, k, s.end))
            && DeadlineOf(s) <= until <= start + Waits(|entries|) + Longest(entries)
  {
    var hooks, now := AllHooks(entries, behaviours, start), ClockAt(entries, behaviours, start, |entries|);
    var limit := start + Waits(|entries|) + Longest(entries);
    forall m | 0 <= m < |hooks|
      ensures DeadlineOf(hooks[m]) <= limit
    {
      assert Budget(entries[m]) <= Longest(entries);
      assert hooks[m].at <= start + Waits(m);
    }
    WaitsEnd(hooks, now, k, limit);
    WaitsAreTheLatest(hooks, now, k, hooks[k].end);
  }

  /** A hook has at least its own timeout, and a hard gate at least thirty seconds, before it can be reported as an
      overrun, wherever its row stands. */
  lemma {:induction false} TimeIsGranted(entries: seq<Entry>, behaviours: seq<Behaviour>, start: real, k: nat)
    requires k < |entries| == |behaviours| && Positive(entries)
    requires behaviours[k].duration.Some?
    requires behaviours[k].duration.value <= entries[k].timeout
             || (entries[k].hardGate && behaviours[k].duration.value <= 30.0)
    ensures !Outcome(entries, behaviours, start, k).failure.Overran?
  {
    OverrunIsExact(entries, behaviours, start, k);
  }

  /** Nor does it get more when it is alone: a lone hook that runs longer than its timeout, and than thirty seconds if
      it is a hard gate, is reported. */
  lemma {:induction false} LoneOverrunIsReported(entry: Entry, b: Behaviour, start: real)
    requires entry.timeout >= 0.25 && !b.missing
    requires b.duration.None? || (b.duration.value > entry.timeout && (entry.hardGate ==> b.duration.value > 30.0))
    ensures Outcome([entry], [b], start, 0).failure.Overran?
  {
    assert ClockAt([entry], [b], start, 0) == start;
    var s := StartedAt([entry], [b], start, 0);
    assert ClockAt([entry], [b], start, 1) == Join(s.end, start, Min(SEQUENTIAL_WAIT_SECONDS, Budget(entry)));
    assert !Covered([entry], [b], start, 0, s.end);
    OverrunIsExact([entry], [b], start, 0);
  }

  /** A hook may overrun its own deadline unreported, behind a row that is waited for longer: a hard gate of 30
      seconds runs 100, behind a hook of 300 seconds that runs 200. */
  lemma {:induction false} OverrunBehindALongerWait()
    ensures var entries := [Entry("*", "careful.sh", 300.0, false), Entry("*", "state-guard.sh", 30.0, true)];
            var behaviours := [Behaviour(false, Some(200.0), 0, false), Behaviour(false, Some(100.0), 0, false)];
            var gate := StartedAt(entries, behaviours, 0.0, 1);
            !EndedBy(gate.end, DeadlineOf(gate)) && Outcome(entries, behaviours, 0.0, 1).failure.NoFailure?
  {
    var entries := [Entry("*", "careful.sh", 300.0, false), Entry("*", "state-guard.sh", 30.0, true)];
    var behaviours := [Behaviour(false, Some(200.0), 0, false), Behaviour(false, Some(100.0), 0, false)];
    assert ClockAt(entries, behaviours, 0.0, 0) == 0.0;
    assert ClockAt(entries, behaviours, 0.0, 1) == 0.25;
    assert ClockAt(entries, behaviours, 0.0, 2) == 0.5;
    var hooks := AllHooks(entries, behaviours, 0.0);
    assert hooks[0] == Started(entries[0], false, 0.0, Some(200.0));
    assert hooks[1] == Started(entries[1], false, 0.25, Some(100.25));
    assert WaitedAt(hooks, 0.5, 0) == 0.5;
    assert WaitedAt(hooks, 0.5, 1) == 200.0;
  }

  // ---------------------------------------------------------------- the deadline

  function ScriptsOf(rows: seq<Entry>): set<string> { set k | 0 <= k < |rows| :: rows[k].script }

  lemma {:induction false} DistinctScriptsCount(rows: seq<Entry>)
    requires DistinctScripts(rows)
    ensures |ScriptsOf(rows)| == |rows|
    decreases |rows|
  {
    if rows != [] {
      var n := |rows| - 1;
      DistinctScriptsCount(rows[..n]);
      assert ScriptsOf(rows) == ScriptsOf(rows[..n]) + {rows[n].script};
    }
  }

  lemma {:induction false} FewElements(names: seq<string>)
    ensures |set s | s in names| <= |names|
    decreases |names|
  {
    if names != [] {
      var n := |names| - 1;
      FewElements(names[..n]);
      assert (set s | s in names) == (set s | s in names[..n]) + {names[n]};
    }
  }

  /** At most fifteen rows are selected, whatever the table repeats. */
  lemma FewRowsSelected(entries: seq<Entry>, event: HookEvent, tool: string, matches: Matches)
    requires ValidRows(entries, event)
    ensures |Select(entries, event, tool, matches)| <= 15
  {
    var rows := Select(entries, event, tool, matches);
    SelectedOnce(entries, event, tool, matches);
    DistinctScriptsCount(rows);
    forall s | s in ScriptsOf(rows)
      ensures s in Routable(event)
    {
      var k: nat :| k < |rows| && rows[k].script == s;
      SelectedFromTable(entries, k, event, tool, matches);
    }
    SubsetIsSmaller(ScriptsOf(rows), set s | s in Routable(event));
    FewElements(Routable(event));
    AtMostFifteenRoutable(event);
  }

  /** Every hard gate of the table is marked as one (the gates routing was given are HARD_GATES). */
  predicate GatesMarked(entries: seq<Entry>, event: HookEvent) {
    forall k :: 0 <= k < |entries| ==> (entries[k].hardGate <==> entries[k].script in HardGates(event))
  }

  lemma {:induction false} RoutedGatesAreMarked(groups: seq<Group>, event: HookEvent)
    ensures GatesMarked(EventEntries(groups, set s | s in HardGates(event)), event)
    decreases |groups|
  {
    if groups != [] {
      RoutedGatesAreMarked(groups[..|groups| - 1], event);
    }
  }

  /** With the gates marked, selecting does not lengthen a budget. */
  lemma SelectedBudgets(entries: seq<Entry>, event: HookEvent, tool: string, matches: Matches)
    requires GatesMarked(entries, event)
    ensures Longest(Select(entries, event, tool, matches)) <= Longest(entries)
  {
    var rows := Select(entries, event, tool, matches);
    forall k | 0 <= k < |rows|
      ensures Budget(rows[k]) <= Longest(entries)
    {
      SelectedFromTable(entries, k, event, tool, matches);
    }
    LongestIsLeast(rows, Longest(entries));
  }

  lemma {:induction false} LongestIsLeast(rows: seq<Entry>, bound: real)
    requires bound >= 0.0 && forall k :: 0 <= k < |rows| ==> Budget(rows[k]) <= bound
    ensures Longest(rows) <= bound
    decreases |rows|
  {
    if rows != [] {
      LongestIsLeast(rows[..|rows| - 1], bound);
    }
  }

  /** The dispatcher ends before the host's timeout: for every table routing writes, every tool and every
      behaviour of the hooks, the bound of run_all lies below the registered timeout. */
  lemma DeadlineBelowRegistration(groups: seq<Group>, event: HookEvent, tool: string, matches: Matches)
    requires ValidRows(EventEntries(groups, set s | s in HardGates(event)), event)
    ensures var entries := EventEntries(groups, set s | s in HardGates(event));
            var rows := Select(entries, event, tool, matches);
            Waits(|rows|) + Longest(rows)
            < (Longest(entries).Floor + REGISTRATION_MARGIN_SECONDS) as real
  {
    var entries := EventEntries(groups, set s | s in HardGates(event));
    RoutedGatesAreMarked(groups, event);
    FewRowsSelected(entries, event, tool, matches);
    SelectedBudgets(entries, event, tool, matches);
    assert Longest(entries) < (Longest(entries).Floor + 1) as real;
  }

  // ---------------------------------------------------------------- merge

  /** What the host does with the answer: Denied blocks a tool call or a subagent stop. */
  datatype Answer = PassedThrough(result: HookResult) | Denied(entry: Entry) | Advice

  /** Whether a failed hard gate of `event` blocks (`failure_answer`). */
  predicate FailsClosed(event: HookEvent, stopHookActive: bool) {
    event.PreToolUse? || (event.SubagentStop? && !stopHookActive)
  }

  predicate Blocks(answer: Answer, event: HookEvent, stopHookActive: bool) {
    answer.PassedThrough? || (answer.Denied? && FailsClosed(event, stopHookActive))
  }

  predicate FailedGate(r: HookResult) { !r.failure.NoFailure? && r.entry.hardGate }

  /** `merge`, up to the advice it joins when nothing blocks. */
  method Merge(results: seq<HookResult>) returns (answer: Answer)
    requires forall k :: 0 <= k < |results| && results[k].blocks ==> results[k].failure.NoFailure?
    ensures answer.PassedThrough? <==> exists k :: 0 <= k < |results| && results[k].blocks
    ensures answer.PassedThrough? ==> answer.result in results && answer.result.blocks
    ensures answer.Denied? <==> (forall k :: 0 <= k < |results| ==> !results[k].blocks)
                                && exists k :: 0 <= k < |results| && FailedGate(results[k])
  {
    for k := 0 to |results|
      invariant forall m :: 0 <= m < k ==> !results[m].blocks
    {
      if results[k].failure.NoFailure? && results[k].blocks {
        return PassedThrough(results[k]);
      }
    }
    for k := 0 to |results|
      invariant forall m :: 0 <= m < k ==> !FailedGate(results[m])
    {
      if FailedGate(results[k]) {
        return Denied(results[k].entry);
      }
    }
    return Advice;
  }

  /** The rows of a tool, and how their hooks behave. */
  function Behaviours(rows: seq<Entry>, behaviour: Entry -> Behaviour): seq<Behaviour> {
    seq(|rows|, k requires 0 <= k < |rows| => behaviour(rows[k]))
  }

  /** The hook of row `k` fails: it is missing, it has not ended when the run stops waiting for it, or it exits with
      a code other than 0 and 2. */
  ghost predicate Fails(rows: seq<Entry>, behaviours: seq<Behaviour>, start: real, k: nat)
    requires k < |rows| == |behaviours| && Positive(rows)
  {
    var b, s := behaviours[k], StartedAt(rows, behaviours, start, k);
    b.missing || !EndedBy(s.end, StopsWaitingFor(rows, behaviours, start, k)) || (b.code != 0 && b.code != 2)
  }

  lemma {:induction false} FailureIsExact(rows: seq<Entry>, behaviours: seq<Behaviour>, start: real, k: nat)
    requires k < |rows| == |behaviours| && Positive(rows)
    ensures var r := Outcome(rows, behaviours, start, k);
            && r.entry == rows[k] && (r.failure.NoFailure? <==> !Fails(rows, behaviours, start, k))
            && (r.blocks <==> !Fails(rows, behaviours, start, k)
                              && (behaviours[k].code == 2 || behaviours[k].answerBlocks))
  {
  }

  /** A hook that runs longer than the bound of the whole run fails, wherever it stands. */
  lemma {:induction false} LongHookFails(rows: seq<Entry>, behaviours: seq<Behaviour>, start: real, k: nat)
    requires k < |rows| == |behaviours| && Positive(rows)
    requires behaviours[k].duration.None?
             || behaviours[k].duration.value > Waits(|rows|) + Longest(rows)
    ensures Fails(rows, behaviours, start, k)
  {
    OverrunIsExact(rows, behaviours, start, k);
  }

  /** Every row has a budget, and a hard gate of the event is one whatever the table says. */
  predicate GatesHold(rows: seq<Entry>, event: HookEvent) {
    Positive(rows) && forall k :: 0 <= k < |rows| && rows[k].script in HardGates(event) ==> rows[k].hardGate
  }

  lemma {:induction false} SelectedRows(entries: seq<Entry>, event: HookEvent, tool: string, matches: Matches)
    requires ValidRows(entries, event)
    ensures GatesHold(Select(entries, event, tool, matches), event)
  {
    var rows := Select(entries, event, tool, matches);
    forall k | 0 <= k < |rows|
      ensures rows[k].timeout > 0.0 && (rows[k].script in HardGates(event) ==> rows[k].hardGate)
    {
      SelectedFromTable(entries, k, event, tool, matches);
    }
  }

  /** Some row's hook answers with a block, or some gate's hook fails. */
  ghost predicate SomeBlocks(rows: seq<Entry>, behaviours: seq<Behaviour>, start: real)
    requires |rows| == |behaviours| && Positive(rows)
  {
    exists k :: 0 <= k < |rows| && Outcome(rows, behaviours, start, k).blocks
  }

  ghost predicate SomeGateFails(rows: seq<Entry>, behaviours: seq<Behaviour>, start: real)
    requires |rows| == |behaviours| && Positive(rows)
  {
    exists k :: 0 <= k < |rows| && rows[k].hardGate && Fails(rows, behaviours, start, k)
  }

  /** The run of the selected rows and the merge of their results. */
  method RunAndMerge(rows: seq<Entry>, behaviours: seq<Behaviour>, start: real) returns (answer: Answer, end: real)
    requires |rows| == |behaviours| && Positive(rows)
    ensures start <= end <= start + Waits(|rows|) + Longest(rows)
    ensures answer.PassedThrough? <==> SomeBlocks(rows, behaviours, start)
    ensures answer.Denied? <==> !SomeBlocks(rows, behaviours, start) && SomeGateFails(rows, behaviours, start)
  {
    var results, abandoned, ended := RunAll(rows, behaviours, start);
    end := ended;
    ResultsSay(rows, behaviours, start, results);
    answer := Merge(results);
  }

  lemma {:induction false} ResultsSay(rows: seq<Entry>, behaviours: seq<Behaviour>, start: real,
                                      results: seq<HookResult>)
    requires |rows| == |behaviours| == |results| && Positive(rows)
    requires forall k :: 0 <= k < |rows| ==> results[k] == Outcome(rows, behaviours, start, k)
    ensures forall k :: 0 <= k < |results| && results[k].blocks ==> results[k].failure.NoFailure?
    ensures SomeBlocks(rows, behaviours, start) <==> exists k :: 0 <= k < |results| && results[k].blocks
    ensures SomeGateFails(rows, behaviours, start) <==> exists k :: 0 <= k < |results| && FailedGate(results[k])
  {
    forall k | 0 <= k < |rows|
      ensures (FailedGate(results[k]) <==> rows[k].hardGate && Fails(rows, behaviours, start, k))
              && (results[k].blocks ==> results[k].failure.NoFailure?)
              && (results[k].blocks <==> Outcome(rows, behaviours, start, k).blocks)
    {
      FailureIsExact(rows, behaviours, start, k);
    }
  }

  /** `dispatch` once the table is read: the rows of the tool, their results, and the answer. It blocks exactly when
      a hook that did not fail blocks, or a hard gate's hook fails where failures fail closed. */
  method Dispatch(entries: seq<Entry>, event: HookEvent, tool: string, matches: Matches, behaviour: Entry -> Behaviour,
                  start: real, stopHookActive: bool)
    returns (answer: Answer, end: real)
    requires ValidRows(entries, event)
    ensures GatesHold(Select(entries, event, tool, matches), event)
    ensures var rows := Select(entries, event, tool, matches);
            |rows| <= 15 && start <= end <= start + Waits(|rows|) + Longest(rows)
    ensures var rows := Select(entries, event, tool, matches);
            var behaviours := Behaviours(rows, behaviour);
            Blocks(answer, event, stopHookActive)
            <==> SomeBlocks(rows, behaviours, start)
                 || (SomeGateFails(rows, behaviours, start) && FailsClosed(event, stopHookActive))
  {
    var rows := Selected(entries, event, tool, matches);
    FewRowsSelected(entries, event, tool, matches);
    SelectedRows(entries, event, tool, matches);
    answer, end := RunAndMerge(rows, Behaviours(rows, behaviour), start);
  }
}
