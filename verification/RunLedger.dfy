/** Run records (hooks/completion_lib.py): which run the output of a call belongs to, and which reds a later
    recorded green takes back. */
module RunLedger {
  import opened Wrappers
  import opened LayerStatus

  // ---------------------------------------------------------------- match_run_record

  /** A stored record that passed its field checks: the run and the lines it printed. */
  datatype Record = Record(run: RunInfo, lines: seq<string>)

  function Keep(lines: seq<string>, p: string -> bool): seq<string> {
    if lines == [] then []
    else
      var n := |lines| - 1;
      Keep(lines[..n], p) + if p(lines[n]) then [lines[n]] else []
  }

  /** A filter keeps every accepted line as often as it occurs, wherever it stands. */
  lemma {:induction false} KeepCount(lines: seq<string>, p: string -> bool)
    ensures forall x :: multiset(Keep(lines, p))[x] == if p(x) then multiset(lines)[x] else 0
    decreases |lines|
  {
    if lines != [] {
      var n := |lines| - 1;
      KeepCount(lines[..n], p);
      assert lines == lines[..n] + [lines[n]];
    }
  }

  /** The records a session can read, and the three text patterns of the hook: an `ITD-RUN <id>` line, an
      `EXIT: <code>` echo, and a record that parses with all its fields. */
  class RunStore {
    var records: map<string, string>
    const runLine: string -> Option<string>
    const exitEcho: string -> Option<int>
    const parse: string -> Option<Record>

    constructor (records: map<string, string>, runLine: string -> Option<string>, exitEcho: string -> Option<int>,
                 parse: string -> Option<Record>)
      ensures this.records == records
      ensures this.runLine == runLine && this.exitEcho == exitEcho && this.parse == parse
    {
      this.records, this.runLine, this.exitEcho, this.parse := records, runLine, exitEcho, parse;
    }

    /** `match_run_record`: every record whose id the output shows is consumed, whatever the answer. */
    method MatchRunRecord(output: seq<string>) returns (run: Option<RunInfo>)
      modifies this`records
      ensures records == old(records) - ShownIds(output, runLine)
      ensures run == Attribution(output, old(records), runLine, exitEcho, parse)
    {
      var lines := NonEmpty(output);
      var ids := Ids(lines, runLine);
      var shown: map<string, string> := map[];
      var todo := set id | id in ids;
      ghost var all := todo;
      while todo != {}
        invariant todo <= all
        invariant records == old(records) - (all - todo)
        invariant shown == map id | id in all - todo && id in old(records) :: old(records)[id]
        decreases |todo|
      {
        var id :| id in todo;
        todo := todo - {id};
        if id !in records {
          continue;
        }
        var raw := records[id];
        records := records - {id};
        shown := shown[id := raw];
      }
      assert all - todo == all;
      if |ids| != 1 || ids[0] !in shown {
        return None;
      }
      var rec := parse(shown[ids[0]]);
      if rec.None? || rec.value.run.id != ids[0] {
        return None;
      }
      var mine := Owns(Others(lines, runLine), rec.value.lines, rec.value.run.rc, exitEcho);
      if !mine {
        return None;
      }
      return Some(rec.value.run);
    }
  }

  function NonEmpty(output: seq<string>): seq<string> { Keep(output, line => line != "") }

  function Others(lines: seq<string>, runLine: string -> Option<string>): seq<string> {
    Keep(lines, line => runLine(line).None?)
  }

  function RunLines(lines: seq<string>, runLine: string -> Option<string>): seq<string> {
    Keep(lines, line => runLine(line).Some?)
  }

  function Ids(lines: seq<string>, runLine: string -> Option<string>): (ids: seq<string>)
    ensures |ids| == |RunLines(lines, runLine)|
  {
    var shown := RunLines(lines, runLine);
    seq(|shown|, k requires 0 <= k < |shown| => IdOf(shown[k], runLine))
  }

  function IdOf(line: string, runLine: string -> Option<string>): string {
    match runLine(line) case None => "" case Some(id) => id
  }

  function ShownIds(output: seq<string>, runLine: string -> Option<string>): set<string> {
    set id | id in Ids(NonEmpty(output), runLine)
  }

  /** The lines beyond those the run printed are none, or one echo of its exit code. */
  ghost predicate Accounted(excess: multiset<string>, rc: int, exitEcho: string -> Option<int>) {
    excess == multiset{} || exists line :: excess == multiset{line} && exitEcho(line) == Some(rc)
  }

  ghost function Attribution(output: seq<string>, records: map<string, string>, runLine: string -> Option<string>,
                             exitEcho: string -> Option<int>, parse: string -> Option<Record>): Option<RunInfo>
  {
    var lines := NonEmpty(output);
    var ids := Ids(lines, runLine);
    if |ids| != 1 || ids[0] !in records then None
    else
      var rec := parse(records[ids[0]]);
      if rec.None? || rec.value.run.id != ids[0] then None
      else if Accounted(multiset(Others(lines, runLine)) - multiset(rec.value.lines), rec.value.run.rc, exitEcho) then
        Some(rec.value.run)
      else None
  }

  function Left(budget: map<string, nat>, line: string): nat { if line in budget then budget[line] else 0 }

  ghost predicate Mirrors(budget: map<string, nat>, room: multiset<string>) { forall x :: Left(budget, x) == room[x] }

  function Spend(budget: map<string, nat>, line: string): map<string, nat>
    requires Left(budget, line) > 0
  {
    budget[line := Left(budget, line) - 1]
  }

  lemma SpendMirrors(budget: map<string, nat>, room: multiset<string>, line: string)
    requires Mirrors(budget, room) && Left(budget, line) > 0
    ensures Mirrors(Spend(budget, line), room - multiset{line})
  {
  }

  /** The dictionary `budget` of the lines the run printed. */
  method Budget(printed: seq<string>) returns (budget: map<string, nat>)
    ensures Mirrors(budget, multiset(printed))
  {
    budget := map[];
    assert printed[..0] == [];
    for k := 0 to |printed|
      invariant Mirrors(budget, multiset(printed[..k]))
    {
      assert printed[..k + 1] == printed[..k] + [printed[k]];
      var more: nat := Left(budget, printed[k]) + 1;
      budget := budget[printed[k] := more];
    }
    assert printed[..|printed|] == printed;
  }

  /** The accounting loop over the lines that are not run lines. */
  method Owns(others: seq<string>, lines: seq<string>, rc: int, exitEcho: string -> Option<int>)
    returns (mine: bool)
    ensures mine <==> Accounted(multiset(others) - multiset(lines), rc, exitEcho)
  {
    SettlesWhenAccounted(others, multiset(lines), false, rc, exitEcho);
    var budget: map<string, nat> := Budget(lines);
    var echoes: nat := 0;
    ghost var room := multiset(lines);
    assert others[0..] == others;
    for k := 0 to |others|
      invariant Mirrors(budget, room)
      invariant Settles(others, multiset(lines), false, rc, exitEcho)
                <==> Settles(others[k..], room, echoes > 0, rc, exitEcho)
    {
      var line := others[k];
      assert others[k..][1..] == others[k + 1..];
      if Left(budget, line) > 0 {
        SpendMirrors(budget, room, line);
        budget, room := Spend(budget, line), room - multiset{line};
        continue;
      }
      if exitEcho(line) != Some(rc) || echoes > 0 {
        return false;
      }
      echoes := echoes + 1;
    }
    return true;
  }

  /** The answer of the loop when `room` is what the run printed and no line has used up yet. */
  ghost predicate Settles(others: seq<string>, room: multiset<string>, echoed: bool, rc: int,
                          exitEcho: string -> Option<int>)
    decreases |others|
  {
    others == []
    || if room[others[0]] > 0 then Settles(others[1..], room - multiset{others[0]}, echoed, rc, exitEcho)
       else exitEcho(others[0]) == Some(rc) && !echoed && Settles(others[1..], room, true, rc, exitEcho)
  }

  lemma {:induction false} SettlesWhenAccounted(others: seq<string>, room: multiset<string>, echoed: bool, rc: int,
                                                exitEcho: string -> Option<int>)
    ensures Settles(others, room, echoed, rc, exitEcho)
            <==> if echoed then multiset(others) - room == multiset{}
                 else Accounted(multiset(others) - room, rc, exitEcho)
    decreases |others|
  {
    if others != [] {
      var line, rest := others[0], others[1..];
      assert others == [line] + rest;
      assert multiset(others) == multiset{line} + multiset(rest);
      if room[line] > 0 {
        SettlesWhenAccounted(rest, room - multiset{line}, echoed, rc, exitEcho);
        assert multiset(others) - room == multiset(rest) - (room - multiset{line});
      } else {
        SettlesWhenAccounted(rest, room, true, rc, exitEcho);
        assert multiset(others) - room == multiset{line} + (multiset(rest) - room);
        OneMore(line, multiset(rest) - room, rc, exitEcho);
      }
    }
  }

  lemma OneMore(line: string, excess: multiset<string>, rc: int, exitEcho: string -> Option<int>)
    ensures multiset{line} + excess != multiset{}
    ensures Accounted(multiset{line} + excess, rc, exitEcho) <==> exitEcho(line) == Some(rc) && excess == multiset{}
  {
    var all := multiset{line} + excess;
    assert line in all;
    assert |all| == 1 + |excess|;
    if excess == multiset{} {
      assert all == multiset{line};
    }
  }

  lemma {:induction false} KeepTwice(lines: seq<string>, p: string -> bool, q: string -> bool)
    ensures Keep(Keep(lines, p), q) == Keep(lines, line => p(line) && q(line))
    decreases |lines|
  {
    if lines != [] {
      var n: nat := |lines| - 1;
      var before := Keep(lines[..n], p);
      KeepTwice(lines[..n], p, q);
      if p(lines[n]) {
        assert (before + [lines[n]])[..|before|] == before;
      } else {
        assert before + [] == before;
      }
    }
  }

  /** `line` stands at place `k` and no other place holds a kept line. */
  ghost predicate OnlyKept(lines: seq<string>, p: string -> bool, k: nat) {
    k < |lines| && p(lines[k]) && forall m :: 0 <= m < |lines| && m != k ==> !p(lines[m])
  }

  lemma {:induction false} KeepNone(lines: seq<string>, p: string -> bool)
    ensures Keep(lines, p) == [] <==> forall m :: 0 <= m < |lines| ==> !p(lines[m])
    decreases |lines|
  {
    if lines != [] {
      var n: nat := |lines| - 1;
      KeepNone(lines[..n], p);
      assert forall m :: 0 <= m < n ==> lines[..n][m] == lines[m];
    }
  }

  lemma {:induction false} KeepOne(lines: seq<string>, p: string -> bool)
    ensures |Keep(lines, p)| == 1 <==> exists k: nat :: OnlyKept(lines, p, k)
    ensures forall k: nat :: OnlyKept(lines, p, k) ==> Keep(lines, p) == [lines[k]]
    decreases |lines|
  {
    if lines != [] {
      var n: nat := |lines| - 1;
      KeepOne(lines[..n], p);
      KeepNone(lines[..n], p);
      if p(lines[n]) {
        assert Keep(lines[..n], p) == [] ==> OnlyKept(lines, p, n);
      }
      forall k: nat | k < n
        ensures OnlyKept(lines, p, k) <==> OnlyKept(lines[..n], p, k) && !p(lines[n])
      {
      }
    }
  }

  /** The non-empty line of the output that names its run, and no other does. */
  ghost predicate NamesItsRun(output: seq<string>, k: nat, runLine: string -> Option<string>) {
    && k < |output| && output[k] != "" && runLine(output[k]).Some?
    && forall m :: 0 <= m < |output| && m != k && output[m] != "" ==> runLine(output[m]).None?
  }

  /** How often the output shows a line beyond the times the run printed it, empty lines and run lines apart. */
  function Excess(output: seq<string>, printed: seq<string>, runLine: string -> Option<string>, line: string): nat {
    var shown := if line == "" || runLine(line).Some? then 0 else multiset(output)[line];
    if shown > multiset(printed)[line] then shown - multiset(printed)[line] else 0
  }

  /** Nothing is over, or one line is, an echo of the exit code. */
  ghost predicate OneEchoAtMost(over: string -> nat, rc: int, exitEcho: string -> Option<int>) {
    || (forall line :: over(line) == 0)
    || exists echo :: OneEcho(over, echo) && exitEcho(echo) == Some(rc)
  }

  ghost predicate OneEcho(over: string -> nat, echo: string) {
    over(echo) == 1 && forall line :: line != echo ==> over(line) == 0
  }

  lemma CountsAccount(over: string -> nat, excess: multiset<string>, rc: int, exitEcho: string -> Option<int>)
    requires forall line :: excess[line] == over(line)
    ensures OneEchoAtMost(over, rc, exitEcho) <==> Accounted(excess, rc, exitEcho)
  {
    forall echo
      ensures OneEcho(over, echo) <==> excess == multiset{echo}
    {
    }
    assert (forall line :: over(line) == 0) <==> excess == multiset{};
  }

  /** The output is the record's own: nothing is beyond what the run printed, or one echo of its exit code is. */
  ghost predicate OwnOutput(output: seq<string>, rec: Record, runLine: string -> Option<string>,
                            exitEcho: string -> Option<int>)
  {
    OneEchoAtMost(line => Excess(output, rec.lines, runLine, line), rec.run.rc, exitEcho)
  }

  lemma ExcessIs(output: seq<string>, printed: seq<string>, runLine: string -> Option<string>)
    ensures forall line :: (multiset(Others(NonEmpty(output), runLine)) - multiset(printed))[line]
                           == Excess(output, printed, runLine, line)
  {
    KeepCount(output, line => line != "");
    KeepCount(NonEmpty(output), line => runLine(line).None?);
  }

  lemma OwnOutputIsAccounted(output: seq<string>, rec: Record, runLine: string -> Option<string>,
                             exitEcho: string -> Option<int>)
    ensures OwnOutput(output, rec, runLine, exitEcho)
            <==> Accounted(multiset(Others(NonEmpty(output), runLine)) - multiset(rec.lines), rec.run.rc, exitEcho)
  {
    var excess := multiset(Others(NonEmpty(output), runLine)) - multiset(rec.lines);
    ExcessIs(output, rec.lines, runLine);
    CountsAccount(line => Excess(output, rec.lines, runLine, line), excess, rec.run.rc, exitEcho);
  }

  /** An output is attributed to a run exactly when one line names it, its record is there, reads as a record of that
      id, and the output is the record's own. */
  lemma AttributionIsExact(output: seq<string>, records: map<string, string>, runLine: string -> Option<string>,
                           exitEcho: string -> Option<int>, parse: string -> Option<Record>, run: RunInfo)
    ensures Attribution(output, records, runLine, exitEcho, parse) == Some(run)
            <==> exists k: nat, rec :: NamesItsRun(output, k, runLine) && RecordFor(records, runLine(output[k]).value,
                                                                                    rec, parse)
                                       && rec.run == run && OwnOutput(output, rec, runLine, exitEcho)
  {
    var ids := Ids(NonEmpty(output), runLine);
    OneRunLine(output, runLine);
    if k: nat :| NamesItsRun(output, k, runLine) {
      assert ids == [runLine(output[k]).value];
      var rec := if ids[0] in records then parse(records[ids[0]]) else None;
      if rec.Some? {
        OwnOutputIsAccounted(output, rec.value, runLine, exitEcho);
      }
      forall m: nat | NamesItsRun(output, m, runLine)
        ensures m == k
      {
      }
    }
  }

  lemma OneRunLine(output: seq<string>, runLine: string -> Option<string>)
    ensures |Ids(NonEmpty(output), runLine)| == 1 <==> exists k: nat :: NamesItsRun(output, k, runLine)
    ensures forall k: nat :: NamesItsRun(output, k, runLine)
                             ==> Ids(NonEmpty(output), runLine) == [runLine(output[k]).value]
  {
    var both := line => line != "" && runLine(line).Some?;
    KeepTwice(output, line => line != "", line => runLine(line).Some?);
    SameFilter(output, line => (line => line != "")(line) && (line => runLine(line).Some?)(line), both);
    assert RunLines(NonEmpty(output), runLine) == Keep(output, both);
    KeepOne(output, both);
    forall k: nat
      ensures OnlyKept(output, both, k) <==> NamesItsRun(output, k, runLine)
    {
    }
  }

  /** The record under `id` reads as `rec`, which says it is of that id. */
  predicate RecordFor(records: map<string, string>, id: string, rec: Record, parse: string -> Option<Record>) {
    id in records && parse(records[id]) == Some(rec) && rec.run.id == id
  }

  lemma {:induction false} SameFilter(lines: seq<string>, p: string -> bool, q: string -> bool)
    requires forall line :: p(line) == q(line)
    ensures Keep(lines, p) == Keep(lines, q)
    decreases |lines|
  {
    if lines != [] {
      SameFilter(lines[..|lines| - 1], p, q);
    }
  }

  /** Attribution does not depend on the order in which the lines of a call arrive. */
  lemma AttributionIsOrderFree(a: seq<string>, b: seq<string>, records: map<string, string>,
                               runLine: string -> Option<string>, exitEcho: string -> Option<int>,
                               parse: string -> Option<Record>)
    requires multiset(a) == multiset(b)
    ensures Attribution(a, records, runLine, exitEcho, parse) == Attribution(b, records, runLine, exitEcho, parse)
  {
    var x, y := NonEmpty(a), NonEmpty(b);
    SameKept(a, b, line => line != "");
    SameKept(x, y, line => runLine(line).None?);
    SameKept(x, y, line => runLine(line).Some?);
    assert multiset(Others(x, runLine)) == multiset(Others(y, runLine));
    SameSingle(RunLines(x, runLine), RunLines(y, runLine));
  }

  lemma SameSingle(x: seq<string>, y: seq<string>)
    requires multiset(x) == multiset(y)
    ensures |x| == |y| && (|x| == 1 ==> x[0] == y[0])
  {
    assert |x| == |multiset(x)| == |multiset(y)| == |y|;
    if |x| == 1 {
      assert x[0] in multiset(y);
    }
  }

  lemma SameKept(a: seq<string>, b: seq<string>, p: string -> bool)
    requires multiset(a) == multiset(b)
    ensures multiset(Keep(a, p)) == multiset(Keep(b, p))
  {
    KeepCount(a, p);
    KeepCount(b, p);
  }

  // ---------------------------------------------------------------- counted_signals

  /** The identity of an invocation: script, arguments, mode, interpreter, layer. */
  datatype RunKey = RunKey(script: string, args: seq<string>, isolated: bool, python: string, layer: int)

  predicate FieldsOk(run: RunInfo) { run.id != "" && run.script != "" && run.cwd != "" && run.python != "" }

  function KeyOf(s: Signal): Option<RunKey> {
    if s.run.None? || !FieldsOk(s.run.value) then None
    else
      var run := s.run.value;
      Some(RunKey(run.script, run.args, run.isolated, run.python, s.layer))
  }

  /** The project the signals are judged in: its HEAD, its real root, and the host's real-path function. */
  datatype Project = Project(head: string, root: string, realPath: string -> string)

  predicate IsGreen(s: Signal, p: Project) {
    && s.run.Some? && s.outcome.Pass? && s.run.value.rc == 0
    && p.realPath(s.run.value.cwd) == p.root
    && p.head != "" && s.head == p.head
  }

  /** What superseding looks at in a signal: the invocation and the id of its record, whether it is a red
      that a green record may take back, and whether it is such a green. */
  datatype Facts = Facts(key: Option<RunKey>, id: string, red: bool, green: bool)

  function FactsOf(s: Signal, p: Project): (f: Facts)
    ensures f.key.Some? ==> s.run.Some? && f.key.value.layer == s.layer && f.id == s.run.value.id
    ensures f.red ==> s.run.Some? && s.outcome.Fail? && s.run.value.rc != 0
  {
    Facts(KeyOf(s), if s.run.Some? then s.run.value.id else "",
          s.run.Some? && s.outcome.Fail? && s.run.value.rc != 0, IsGreen(s, p))
  }

  function AllFacts(signals: seq<Signal>, p: Project): seq<Facts> {
    seq(|signals|, k requires 0 <= k < |signals| => FactsOf(signals[k], p))
  }

  /** The record ids that the first `n` signals show. */
  ghost function IdsBelow(facts: seq<Facts>, n: nat): set<string>
    requires n <= |facts|
  {
    set j | 0 <= j < n && facts[j].key.Some? :: facts[j].id
  }

  /** Signal `i` is the first one that shows its record. */
  ghost predicate Recorded(facts: seq<Facts>, i: int) {
    0 <= i < |facts| && facts[i].key.Some? && facts[i].id !in IdsBelow(facts, i)
  }

  /** Signal `i` is the last recorded run of `key`. */
  ghost predicate LastOf(facts: seq<Facts>, i: int, key: RunKey) {
    && Recorded(facts, i) && facts[i].key.value == key
    && forall j :: i < j < |facts| && Recorded(facts, j) ==> facts[j].key.value != key
  }

  ghost predicate EndsGreen(facts: seq<Facts>, key: RunKey) { exists j :: LastOf(facts, j, key) && facts[j].green }

  /** A recorded red is dropped when the last record of the same invocation is green. */
  ghost predicate Dropped(facts: seq<Facts>, i: int) {
    Recorded(facts, i) && facts[i].red && EndsGreen(facts, facts[i].key.value)
  }

  /** The positions below `n` that are not dropped, in order. */
  ghost function KeptBelow(facts: seq<Facts>, n: nat): (kept: seq<nat>)
    requires n <= |facts|
    ensures forall k :: 0 <= k < |kept| ==> kept[k] < n
  {
    if n == 0 then [] else KeptBelow(facts, n - 1) + if Dropped(facts, n - 1) then [] else [n - 1]
  }

  /** The kept positions are those that are not dropped, and they come in order. */
  lemma {:induction false} KeptPositions(facts: seq<Facts>, n: nat, i: nat)
    requires n <= |facts|
    ensures i in KeptBelow(facts, n) <==> i < n && !Dropped(facts, i)
    decreases n
  {
    if n > 0 {
      KeptPositions(facts, n - 1, i);
    }
  }

  lemma {:induction false} KeptInOrder(facts: seq<Facts>, n: nat, k: nat, m: nat)
    requires n <= |facts| && k < m < |KeptBelow(facts, n)|
    ensures KeptBelow(facts, n)[k] < KeptBelow(facts, n)[m]
    decreases n
  {
    if m < |KeptBelow(facts, n - 1)| {
      KeptInOrder(facts, n - 1, k, m);
    }
  }

  ghost function SignalsAt(signals: seq<Signal>, positions: seq<nat>): seq<Signal>
    requires forall k :: 0 <= k < |positions| ==> positions[k] < |signals|
  {
    seq(|positions|, k requires 0 <= k < |positions| => signals[positions[k]])
  }

  /** The signals without the reds a later green record took back. */
  ghost function Counted(signals: seq<Signal>, p: Project): seq<Signal> {
    SignalsAt(signals, KeptBelow(AllFacts(signals, p), |signals|))
  }

  /** The dictionaries of the first loop: the recorded signals with their keys, and whether the last record of a key
      is green. */
  ghost predicate Indexed(facts: seq<Facts>, recorded: map<int, RunKey>, latest: map<RunKey, bool>) {
    && (forall i :: i in recorded <==> Recorded(facts, i))
    && (forall i :: i in recorded ==> facts[i].key == Some(recorded[i]) && recorded[i] in latest)
    && forall i :: i in recorded ==> (latest[recorded[i]] <==> EndsGreen(facts, recorded[i]))
  }

  /** The test of the second loop. */
  method IsDropped(facts: seq<Facts>, recorded: map<int, RunKey>, latest: map<RunKey, bool>, i: nat)
    returns (drop: bool)
    requires Indexed(facts, recorded, latest) && i < |facts|
    ensures drop <==> Dropped(facts, i)
  {
    assert i in recorded <==> Recorded(facts, i);
    drop := i in recorded && facts[i].red && latest[recorded[i]];
  }

  /** `counted_signals`: a subsequence of the signals. */
  method CountedSignals(signals: seq<Signal>, p: Project) returns (out: seq<Signal>)
    ensures out == Counted(signals, p)
  {
    var facts := AllFacts(signals, p);
    var recorded, latest := LatestRecords(facts);
    out := [];
    for i := 0 to |signals|
      invariant out == SignalsAt(signals, KeptBelow(facts, i))
    {
      KeptStep(signals, facts, i);
      var drop := IsDropped(facts, recorded, latest, i);
      if drop {
        continue;
      }
      out := out + [signals[i]];
    }
  }

  lemma KeptStep(signals: seq<Signal>, facts: seq<Facts>, i: nat)
    requires i < |signals| == |facts|
    ensures SignalsAt(signals, KeptBelow(facts, i + 1))
            == SignalsAt(signals, KeptBelow(facts, i)) + if Dropped(facts, i) then [] else [signals[i]]
  {
  }

  /** The first loop after `n` signals; `last` is the position of the last record of each key. */
  ghost predicate Tracking(facts: seq<Facts>, n: nat, seen: set<string>, recorded: map<int, RunKey>,
                           latest: map<RunKey, bool>, last: map<RunKey, int>)
    requires n <= |facts|
  {
    && seen == IdsBelow(facts, n)
    && (forall i :: i in recorded <==> i < n && Recorded(facts, i))
    && (forall i :: i in recorded ==> facts[i].key == Some(recorded[i]) && recorded[i] in latest)
    && latest.Keys == last.Keys
    && (forall key :: key in last ==> last[key] in recorded && recorded[last[key]] == key)
    && (forall key :: key in last ==> latest[key] == facts[last[key]].green)
    && forall i :: i in recorded ==> i <= last[recorded[i]]
  }

  lemma IdsGrow(facts: seq<Facts>, n: nat)
    requires n < |facts|
    ensures IdsBelow(facts, n + 1) == IdsBelow(facts, n) + if facts[n].key.Some? then {facts[n].id} else {}
  {
  }

  lemma TrackSkips(facts: seq<Facts>, n: nat, seen: set<string>, recorded: map<int, RunKey>, latest: map<RunKey, bool>,
                   last: map<RunKey, int>)
    requires n < |facts| && Tracking(facts, n, seen, recorded, latest, last)
    requires facts[n].key.None? || facts[n].id in seen
    ensures Tracking(facts, n + 1, seen, recorded, latest, last)
  {
    IdsGrow(facts, n);
  }

  lemma TrackAdds(facts: seq<Facts>, n: nat, seen: set<string>, recorded: map<int, RunKey>, latest: map<RunKey, bool>,
                  last: map<RunKey, int>)
    requires n < |facts| && Tracking(facts, n, seen, recorded, latest, last)
    requires facts[n].key.Some? && facts[n].id !in seen
    ensures var key := facts[n].key.value;
            Tracking(facts, n + 1, seen + {facts[n].id}, recorded[n := key], latest[key := facts[n].green],
                     last[key := n])
  {
    IdsGrow(facts, n);
  }

  lemma TrackedIsIndexed(facts: seq<Facts>, seen: set<string>, recorded: map<int, RunKey>, latest: map<RunKey, bool>,
                         last: map<RunKey, int>)
    requires Tracking(facts, |facts|, seen, recorded, latest, last)
    ensures Indexed(facts, recorded, latest)
  {
    forall i | i in recorded
      ensures latest[recorded[i]] <==> EndsGreen(facts, recorded[i])
    {
      assert LastOf(facts, last[recorded[i]], recorded[i]);
    }
  }

  /** The first loop. */
  method LatestRecords(facts: seq<Facts>) returns (recorded: map<int, RunKey>, latest: map<RunKey, bool>)
    ensures Indexed(facts, recorded, latest)
  {
    recorded, latest := map[], map[];
    var seen: set<string> := {};
    ghost var last: map<RunKey, int> := map[];
    for n := 0 to |facts|
      invariant Tracking(facts, n, seen, recorded, latest, last)
    {
      var f := facts[n];
      if f.key.None? || f.id in seen {
        TrackSkips(facts, n, seen, recorded, latest, last);
        continue;
      }
      TrackAdds(facts, n, seen, recorded, latest, last);
      seen := seen + {f.id};
      recorded := recorded[n := f.key.value];
      latest := latest[f.key.value := f.green];
      last := last[f.key.value := n];
    }
    TrackedIsIndexed(facts, seen, recorded, latest, last);
  }

  /** The record fields of a signal are complete. */
  predicate HasRecord(s: Signal) {
    s.run.Some? && s.run.value.id != "" && s.run.value.script != "" && s.run.value.cwd != "" && s.run.value.python != ""
  }

  /** Two recorded signals are of one invocation: the same script with the same arguments, mode and interpreter, in the
      same layer. */
  predicate SameInvocation(a: Signal, b: Signal) {
    && HasRecord(a) && HasRecord(b) && a.layer == b.layer && a.run.value.script == b.run.value.script
    && a.run.value.args == b.run.value.args && a.run.value.isolated == b.run.value.isolated
    && a.run.value.python == b.run.value.python
  }

  /** Signal `i` is the first that shows its record. */
  ghost predicate FirstShown(signals: seq<Signal>, i: int) {
    && 0 <= i < |signals| && HasRecord(signals[i])
    && forall j :: 0 <= j < i && HasRecord(signals[j]) ==> signals[j].run.value.id != signals[i].run.value.id
  }

  /** Signal `j` is the last first-shown one of the invocation of `s`. */
  ghost predicate LastShown(signals: seq<Signal>, j: int, s: Signal) {
    && FirstShown(signals, j) && SameInvocation(signals[j], s)
    && forall k :: j < k < |signals| && FirstShown(signals, k) ==> !SameInvocation(signals[k], s)
  }

  /** A pass with exit code 0, at the current HEAD, run from the project root. */
  predicate ProvenGreen(s: Signal, p: Project) {
    && HasRecord(s) && s.outcome == Pass && s.run.value.rc == 0 && p.realPath(s.run.value.cwd) == p.root
    && s.head == p.head && p.head != ""
  }

  lemma RecordedIsFirstShown(signals: seq<Signal>, i: int, p: Project)
    ensures Recorded(AllFacts(signals, p), i) <==> FirstShown(signals, i)
  {
    var facts := AllFacts(signals, p);
    if 0 <= i < |signals| {
      assert facts[i] == FactsOf(signals[i], p);
      forall j | 0 <= j < i
        ensures facts[j].key.Some? <==> HasRecord(signals[j])
        ensures HasRecord(signals[j]) ==> facts[j].id == signals[j].run.value.id
      {
        assert facts[j] == FactsOf(signals[j], p);
      }
    }
  }

  lemma LastOfIsLastShown(signals: seq<Signal>, j: int, s: Signal, p: Project)
    requires HasRecord(s)
    ensures LastOf(AllFacts(signals, p), j, KeyOf(s).value) <==> LastShown(signals, j, s)
  {
    var facts := AllFacts(signals, p);
    forall k | 0 <= k < |signals|
      ensures Recorded(facts, k) <==> FirstShown(signals, k)
      ensures facts[k].key == Some(KeyOf(s).value) <==> SameInvocation(signals[k], s)
    {
      RecordedIsFirstShown(signals, k, p);
      assert facts[k] == FactsOf(signals[k], p);
    }
  }

  /** Exactly the recorded reds are dropped, failures with an exit code other than 0 that are the first to show their
      record, whose invocation was last shown by a proven green. */
  lemma DropIsExact(signals: seq<Signal>, i: int, p: Project)
    ensures Dropped(AllFacts(signals, p), i)
            <==> && FirstShown(signals, i) && signals[i].outcome == Fail && signals[i].run.value.rc != 0
                 && exists j :: LastShown(signals, j, signals[i]) && ProvenGreen(signals[j], p)
  {
    var facts := AllFacts(signals, p);
    RecordedIsFirstShown(signals, i, p);
    if FirstShown(signals, i) {
      assert facts[i] == FactsOf(signals[i], p);
      forall j
        ensures LastOf(facts, j, facts[i].key.value) <==> LastShown(signals, j, signals[i])
        ensures LastShown(signals, j, signals[i]) ==> (facts[j].green <==> ProvenGreen(signals[j], p))
      {
        LastOfIsLastShown(signals, j, signals[i], p);
        if LastShown(signals, j, signals[i]) {
          assert facts[j] == FactsOf(signals[j], p);
        }
      }
    }
  }

  /** Signal `j` takes back the red `i`: a later, kept, green record of the same invocation in the same layer, at the
      current HEAD, run from the project root. */
  ghost predicate TakesBack(signals: seq<Signal>, j: int, i: int, p: Project) {
    && 0 <= i < j < |signals| && j in KeptBelow(AllFacts(signals, p), |signals|)
    && KeyOf(signals[j]).Some? && KeyOf(signals[j]) == KeyOf(signals[i]) && signals[j].layer == signals[i].layer
    && IsGreen(signals[j], p) && signals[j] in Counted(signals, p)
  }

  /** Superseding never invents a green: every dropped signal is a red that some signal takes back. */
  lemma DroppedRedHasLaterGreen(signals: seq<Signal>, i: int, p: Project)
    requires Dropped(AllFacts(signals, p), i)
    ensures signals[i].outcome.Fail? && signals[i].run.Some? && signals[i].run.value.rc != 0
    ensures exists j :: TakesBack(signals, j, i, p)
  {
    var facts := AllFacts(signals, p);
    assert facts[i] == FactsOf(signals[i], p);
    var j: int :| LastOf(facts, j, facts[i].key.value) && facts[j].green;
    assert facts[j] == FactsOf(signals[j], p);
    var kept := KeptBelow(facts, |signals|);
    KeptPositions(facts, |signals|, j);
    assert !Dropped(facts, j);
    assert j in kept;
    var k :| 0 <= k < |kept| && kept[k] == j;
    assert Counted(signals, p)[k] == signals[j];
    assert TakesBack(signals, j, i, p);
  }

  /** A layer that loses a red to superseding still holds live evidence: a pass at the current HEAD. */
  lemma DroppedRedLeavesLiveEvidence(signals: seq<Signal>, i: int, p: Project)
    requires Dropped(AllFacts(signals, p), i)
    ensures exists s :: s in Live(Counted(signals, p), signals[i].layer, p.head) && s.outcome.Pass?
  {
    DroppedRedHasLaterGreen(signals, i, p);
    var j :| TakesBack(signals, j, i, p);
    LiveHas(Counted(signals, p), signals[j], signals[i].layer, p.head);
  }

  lemma {:induction false} LiveHas(signals: seq<Signal>, s: Signal, layer: int, head: string)
    requires s in signals && IsLive(s, layer, head)
    ensures s in Live(signals, layer, head)
    decreases |signals|
  {
    var n := |signals| - 1;
    if signals[n] != s {
      LiveHas(signals[..n], s, layer, head);
    }
  }
}
