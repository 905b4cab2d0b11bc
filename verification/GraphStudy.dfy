/** The study ledger of scripts/graph_v2_study.py: a queue of arms, one of them active, a list of completed
    ones with their clock intervals, pairs that are voided and replaced once, and permanent invalidation.

    Everything outside the two ledgers (files, native logs, git, the agents) enters as the free outcome of a
    check; the clock moves and the machine reboots between commands as it likes. */
module GraphStudy {
  import opened Wrappers

  // ---------------------------------------------------------------- labels

  datatype Arm = G | K

  datatype Order = GK | KG

  /** A pair of arms: a task in one of its two orders. */
  datatype Pair = Pair(task: nat, order: Order)

  /** One scheduled place: an arm of a pair. */
  datatype Slot = Slot(pair: Pair, arm: Arm)

  /** `T1-GK-G`, or `T1-GK-G-r1` when `retry`. */
  datatype Label = Label(slot: Slot, retry: bool)

  function PairOf(l: Label): Pair { l.slot.pair }

  /** The arms in the order the pair names them. */
  function ArmsOf(order: Order): (arms: seq<Arm>)
    ensures |arms| == 2 && arms[0] != arms[1]
  {
    if order.GK? then [G, K] else [K, G]
  }

  function Replacements(p: Pair): seq<Label> {
    [Label(Slot(p, ArmsOf(p.order)[0]), true), Label(Slot(p, ArmsOf(p.order)[1]), true)]
  }

  /** The labels of other pairs (the list comprehensions of `void`). */
  function Without(labels: seq<Label>, p: Pair): seq<Label> {
    if labels == [] then []
    else
      var n := |labels| - 1;
      Without(labels[..n], p) + if PairOf(labels[n]) == p then [] else [labels[n]]
  }

  // ---------------------------------------------------------------- state

  datatype Phase = Absent | FROZEN | RUNNING | COLLECTED | INVALID

  datatype Route = Graph | Single

  /** attempt.json of a label; `collected` says that the one node of a single route has been collected. */
  datatype Attempt = Attempt(t0: int, t1: Option<int>, boot: nat, route: Route, collected: bool, workFailure: bool)

  /** A record of results.json with its clock interval. */
  datatype Run = Run(id: Label, t0: int, t1: int, boot: nat, workFailure: bool)

  datatype VoidedPair = VoidedPair(pair: Pair, retry: bool)

  /** The monotonic clock and the boot it belongs to. */
  datatype Clock = Clock(now: int, boot: nat)

  datatype Study = Study(frozen: bool, invalidated: bool, phase: Phase, boot: nat, active: Option<Label>,
                         queue: seq<Label>, completed: seq<Label>, voided: seq<VoidedPair>, runs: seq<Run>,
                         voidedRuns: seq<Run>, attempts: map<Label, Attempt>, clock: Clock)

  /** Nothing but the public inputs exists. */
  function Empty(clock: Clock): Study {
    Study(false, false, Absent, 0, None, [], [], [], [], [], map[], clock)
  }

  function RunsWithout(runs: seq<Run>, p: Pair): seq<Run> {
    if runs == [] then []
    else
      var n := |runs| - 1;
      RunsWithout(runs[..n], p) + if PairOf(runs[n].id) == p then [] else [runs[n]]
  }

  function RunsOf(runs: seq<Run>, p: Pair): seq<Run> {
    if runs == [] then []
    else
      var n := |runs| - 1;
      RunsOf(runs[..n], p) + if PairOf(runs[n].id) == p then [runs[n]] else []
  }

  predicate NoFailure(runs: seq<Run>) { forall k :: 0 <= k < |runs| ==> !runs[k].workFailure }

  // ---------------------------------------------------------------- commands

  /** What the checks every command starts with find: the frozen files, and the settled native evidence. */
  datatype Checks = Checks(filesIntact: bool, evidenceIntact: bool)

  /** How an agent's turn ended when it is looked at. */
  datatype Turn = Unsettled | Settled(workFailure: bool)

  datatype Command =
    | Initialize(pinned: bool)
    | Prepare(id: Label, checks: Checks, clean: bool, route: Route)
    | Collect(id: Label, checks: Checks, turn: Turn)
    | Finish(id: Label, checks: Checks, turn: Turn)
    | Void(pair: Pair, retry: bool, checks: Checks, infrastructure: bool, settled: bool)
    | Tick(elapsed: nat)
    | Reboot(now: int)
    | Violation

  /** `invalidate`: the marker and the phase. */
  function Invalidated(s: Study): Study { s.(invalidated := true, phase := INVALID) }

  /** `frozen`: None when the command may go on, else the state it is refused in. */
  function Refused(s: Study, checks: Checks): Option<Study> {
    if s.invalidated then Some(s.(phase := INVALID))
    else if !s.frozen || !checks.filesIntact || s.phase.INVALID? then Some(s)
    else if !s.phase.COLLECTED? && s.boot != s.clock.boot then Some(Invalidated(s))
    else if !checks.evidenceIntact then Some(Invalidated(s))
    else None
  }

  function InitializeStep(s: Study, pinned: bool, schedule: seq<Label>): Study {
    if s.invalidated then s.(phase := INVALID)
    else if s.frozen || !pinned then s
    else s.(frozen := true, phase := FROZEN, boot := s.clock.boot, active := None, queue := schedule, completed := [],
            voided := [], runs := [], voidedRuns := [])
  }

  function PrepareStep(s: Study, id: Label, checks: Checks, clean: bool, route: Route): Study {
    match Refused(s, checks)
    case Some(refused) => refused
    case None =>
      if s.active.Some? || s.queue == [] || s.queue[0] != id || !clean || id in s.attempts then s
      else s.(attempts := s.attempts[id := Attempt(s.clock.now, None, s.clock.boot, route, false, false)],
              active := Some(id), phase := RUNNING)
  }

  function CollectStep(s: Study, id: Label, checks: Checks, turn: Turn): Study {
    match Refused(s, checks)
    case Some(refused) => refused
    case None =>
      if id !in s.attempts || s.attempts[id].route.Graph? || s.attempts[id].collected || turn.Unsettled? then s
      else
        var a := s.attempts[id];
        s.(attempts := s.attempts[id := a.(collected := true, t1 := if turn.workFailure then a.t1
                                                                       else Some(s.clock.now))])
  }

  /** The attempt as `finish` writes it back: the end of a failed or graph arm is now; the end of a single arm
      is the one its collection had written before `finish` read the attempt. */
  function Closed(a: Attempt, failure: bool, now: int): Attempt {
    a.(collected := true, workFailure := failure, t1 := if failure || a.route.Graph? then Some(now) else a.t1)
  }

  function FinishStep(s: Study, id: Label, checks: Checks, turn: Turn): Study {
    match Refused(s, checks)
    case Some(refused) => refused
    case None =>
      if id !in s.attempts || s.active != Some(id) || turn.Unsettled? then s
      else
        var a := Closed(s.attempts[id], turn.workFailure, s.clock.now);
        var written := s.(attempts := s.attempts[id := a]);
        if a.boot != s.clock.boot then Invalidated(written)
        else if a.t1.None? then written
        else if a.t1.value <= a.t0 then Invalidated(written)
        else
          var rest := if s.queue == [] then [] else s.queue[1..];
          written.(runs := s.runs + [Run(id, a.t0, a.t1.value, a.boot, turn.workFailure)],
                   completed := s.completed + [id], queue := rest, active := None,
                   phase := if rest == [] then COLLECTED else RUNNING)
  }

  /** The label `void` works on: the active one, else the head of the queue. */
  function Current(s: Study): Option<Label> {
    if s.active.Some? then s.active else if s.queue == [] then None else Some(s.queue[0])
  }

  predicate AttemptFailed(s: Study, l: Label) { l in s.attempts && s.attempts[l].workFailure }

  predicate MayVoid(s: Study, pair: Pair, retry: bool, infrastructure: bool, settled: bool) {
    && infrastructure && Current(s).Some? && PairOf(Current(s).value) == pair && Current(s).value.retry == retry
    && NoFailure(RunsOf(s.runs, pair))
    && !AttemptFailed(s, Label(Slot(pair, G), retry)) && !AttemptFailed(s, Label(Slot(pair, K), retry))
    && settled
  }

  function VoidStep(s: Study, pair: Pair, retry: bool, checks: Checks, infrastructure: bool, settled: bool): Study {
    match Refused(s, checks)
    case Some(refused) => refused
    case None =>
      if !MayVoid(s, pair, retry, infrastructure, settled) then s
      else
        var voided := s.voided + [VoidedPair(pair, retry)];
        var out := s.(runs := RunsWithout(s.runs, pair), voidedRuns := s.voidedRuns + RunsOf(s.runs, pair),
                      completed := Without(s.completed, pair), voided := voided, active := None);
        if retry || |voided| > 2 then out.(phase := INVALID, queue := [])
        else out.(phase := RUNNING, queue := Replacements(pair) + Without(s.queue, pair))
  }

  function Step(s: Study, c: Command, schedule: seq<Label>): Study {
    match c
    case Initialize(pinned) => InitializeStep(s, pinned, schedule)
    case Prepare(id, checks, clean, route) => PrepareStep(s, id, checks, clean, route)
    case Collect(id, checks, turn) => CollectStep(s, id, checks, turn)
    case Finish(id, checks, turn) => FinishStep(s, id, checks, turn)
    case Void(pair, retry, checks, infrastructure, settled) => VoidStep(s, pair, retry, checks, infrastructure, settled)
    case Tick(elapsed) => s.(clock := Clock(s.clock.now + elapsed, s.clock.boot))
    case Reboot(now) => s.(clock := Clock(now, s.clock.boot + 1))
    case Violation => Invalidated(s)
  }

  function RunAll(s: Study, commands: seq<Command>, schedule: seq<Label>): Study {
    if commands == [] then s
    else Step(RunAll(s, commands[..|commands| - 1], schedule), commands[|commands| - 1], schedule)
  }

  // ---------------------------------------------------------------- the commands on the stored ledgers

  /** The files STATE.json, results.json, attempt.json of every label and the markers.  A command reads them,
      works on its copy `s`, and writes the copy back. */
  class Ledgers {
    var files: Study
    const schedule: seq<Label>

    constructor (clock: Clock, schedule: seq<Label>)
      ensures files == Empty(clock) && this.schedule == schedule
    {
      files, this.schedule := Empty(clock), schedule;
    }

    /** `frozen`: the copy to work on, or None when the command is refused. */
    method Guard(checks: Checks) returns (s: Option<Study>)
      modifies this`files
      ensures match Refused(old(files), checks)
              case None => s == Some(old(files)) && files == old(files)
              case Some(refused) => s == None && files == refused
    {
      if files.invalidated {
        if files.phase != INVALID {
          files := files.(phase := INVALID);
        }
        return None;
      }
      if !files.frozen || !checks.filesIntact || files.phase == INVALID {
        return None;
      }
      if files.phase != COLLECTED && files.boot != files.clock.boot {
        files := Invalidated(files);
        return None;
      }
      if !checks.evidenceIntact {
        files := Invalidated(files);
        return None;
      }
      return Some(files);
    }

    method Initialize(pinned: bool)
      modifies this`files
      ensures files == InitializeStep(old(files), pinned, schedule)
    {
      if files.invalidated {
        files := files.(phase := INVALID);
        return;
      }
      if files.frozen || !pinned {
        return;
      }
      var s := files.(frozen := true);
      s := s.(phase := FROZEN, boot := s.clock.boot, active := None, queue := schedule, completed := [], voided := []);
      s := s.(runs := [], voidedRuns := []);
      files := s;
    }

    method Prepare(id: Label, checks: Checks, clean: bool, route: Route)
      modifies this`files
      ensures files == PrepareStep(old(files), id, checks, clean, route)
    {
      var open := Guard(checks);
      if open.None? {
        return;
      }
      var s := open.value;
      if s.active.Some? || s.queue == [] || s.queue[0] != id {
        return;
      }
      if !clean || id in s.attempts {
        return;
      }
      var meta := Attempt(s.clock.now, None, s.clock.boot, route, false, false);
      s := s.(attempts := s.attempts[id := meta]);
      s := s.(active := Some(id));
      s := s.(phase := RUNNING);
      files := s;
    }

    method Collect(id: Label, checks: Checks, turn: Turn)
      modifies this`files
      ensures files == CollectStep(old(files), id, checks, turn)
    {
      var open := Guard(checks);
      if open.None? || id !in open.value.attempts {
        return;
      }
      var meta := open.value.attempts[id];
      if meta.route.Graph? || meta.collected || turn.Unsettled? {
        return;
      }
      if !turn.workFailure {
        meta := meta.(t1 := Some(files.clock.now));
      }
      meta := meta.(collected := true);
      files := files.(attempts := files.attempts[id := meta]);
    }

    method Finish(id: Label, checks: Checks, turn: Turn)
      modifies this`files
      ensures files == FinishStep(old(files), id, checks, turn)
    {
      var open := Guard(checks);
      if open.None? || id !in open.value.attempts {
        return;
      }
      var s, meta := open.value, open.value.attempts[id];
      if s.active != Some(id) || turn.Unsettled? {
        return;
      }
      if meta.route.Graph? || turn.workFailure {
        meta := meta.(t1 := Some(s.clock.now));
      }
      meta := meta.(collected := true, workFailure := turn.workFailure);
      s := s.(attempts := s.attempts[id := meta]);
      files := s;
      if meta.boot != s.clock.boot {
        files := Invalidated(s);
        return;
      }
      if meta.t1.None? {
        return;
      }
      if meta.t1.value <= meta.t0 {
        files := Invalidated(s);
        return;
      }
      s := s.(runs := s.runs + [Run(id, meta.t0, meta.t1.value, meta.boot, turn.workFailure)]);
      s := s.(completed := s.completed + [id]);
      s := s.(queue := if s.queue == [] then [] else s.queue[1..]);
      s := s.(active := None);
      s := s.(phase := if s.queue == [] then COLLECTED else RUNNING);
      files := s;
    }

    method VoidPair(pair: Pair, retry: bool, checks: Checks, infrastructure: bool, settled: bool)
      modifies this`files
      ensures files == VoidStep(old(files), pair, retry, checks, infrastructure, settled)
    {
      var open := Guard(checks);
      if open.None? || !infrastructure {
        return;
      }
      var s := open.value;
      var current := if s.active.Some? then s.active else if s.queue == [] then None else Some(s.queue[0]);
      if current.None? || PairOf(current.value) != pair || current.value.retry != retry {
        return;
      }
      var removed := RunsOf(s.runs, pair);
      if !NoFailure(removed) || AttemptFailed(s, Label(Slot(pair, G), retry))
         || AttemptFailed(s, Label(Slot(pair, K), retry)) || !settled {
        return;
      }
      s := s.(runs := RunsWithout(s.runs, pair), voidedRuns := s.voidedRuns + removed);
      s := s.(completed := Without(s.completed, pair));
      s := s.(voided := s.voided + [VoidedPair(pair, retry)]);
      s := s.(queue := Without(s.queue, pair), active := None);
      if retry || |s.voided| > 2 {
        s := s.(phase := INVALID, queue := []);
      } else {
        s := s.(phase := RUNNING, queue := Replacements(pair) + s.queue);
      }
      files := s;
    }
  }

  // ---------------------------------------------------------------- what every run keeps

  predicate DistinctSlots(labels: seq<Label>) {
    forall i, j :: 0 <= i < j < |labels| ==> labels[i].slot != labels[j].slot
  }

  ghost predicate Holds(labels: seq<Label>, slot: Slot) { exists k :: 0 <= k < |labels| && labels[k].slot == slot }

  /** A schedule of plain labels, each slot once, both arms of every pair. */
  ghost predicate WellFormed(schedule: seq<Label>) {
    && schedule != [] && DistinctSlots(schedule)
    && (forall k :: 0 <= k < |schedule| ==> !schedule[k].retry)
    && forall p, arm, arm' :: Holds(schedule, Slot(p, arm)) ==> Holds(schedule, Slot(p, arm'))
  }

  ghost predicate IsVoided(s: Study, p: Pair) { exists k :: 0 <= k < |s.voided| && s.voided[k].pair == p }

  /** Every scheduled slot stands exactly once among the completed and the queued labels, as the plain label or,
      when its pair was voided, as the replacement. */
  ghost predicate Conserved(s: Study, schedule: seq<Label>) {
    var all := s.completed + s.queue;
    && DistinctSlots(all)
    && (forall slot :: Holds(all, slot) <==> Holds(schedule, slot))
    && forall k :: 0 <= k < |all| ==> (all[k].retry <==> IsVoided(s, PairOf(all[k])))
  }

  /** At most two pairs are replaced, and none twice. */
  ghost predicate FewVoided(s: Study) {
    && |s.voided| <= 2
    && (forall k :: 0 <= k < |s.voided| ==> !s.voided[k].retry)
    && forall i, j :: 0 <= i < j < |s.voided| ==> s.voided[i].pair != s.voided[j].pair
  }

  /** The recorded intervals follow one another on one boot's clock, and are those of the attempts. */
  ghost predicate Ordered(s: Study) {
    && (forall k :: 0 <= k < |s.runs| ==> s.runs[k].t0 < s.runs[k].t1 && s.runs[k].boot == s.boot)
    && (forall i, j :: 0 <= i < j < |s.runs| ==> s.runs[i].t1 <= s.runs[j].t0)
    && (s.boot == s.clock.boot ==> forall k :: 0 <= k < |s.runs| ==> s.runs[k].t1 <= s.clock.now)
  }

  ghost predicate Bound(s: Study) {
    forall k :: 0 <= k < |s.runs| ==>
      && s.runs[k].id in s.attempts
      && var a := s.attempts[s.runs[k].id];
         a.collected && a.t0 == s.runs[k].t0 && a.t1 == Some(s.runs[k].t1) && a.boot == s.runs[k].boot
         && a.workFailure == s.runs[k].workFailure
  }

  ghost predicate ActiveIsHead(s: Study) {
    s.active.Some? ==>
      && s.queue != [] && s.queue[0] == s.active.value && s.active.value in s.attempts
      && var a := s.attempts[s.active.value];
         && a.boot == s.boot
         && (s.boot == s.clock.boot ==> a.t0 <= s.clock.now && (a.t1.Some? ==> a.t0 <= a.t1.value <= s.clock.now))
         && forall k :: 0 <= k < |s.runs| ==> s.runs[k].t1 <= a.t0
  }

  predicate IdsMatch(s: Study) {
    |s.runs| == |s.completed| && forall k :: 0 <= k < |s.runs| ==> s.runs[k].id == s.completed[k]
  }

  ghost predicate Sound(s: Study, schedule: seq<Label>) {
    && s.frozen && !s.invalidated && s.boot <= s.clock.boot
    && Conserved(s, schedule) && FewVoided(s) && IdsMatch(s) && Ordered(s) && Bound(s) && ActiveIsHead(s)
    && (s.phase.COLLECTED? <==> s.queue == [])
  }

  /** What holds of every reachable state. */
  ghost predicate Inv(s: Study, schedule: seq<Label>) {
    if s.phase.INVALID? then (s.invalidated || s.frozen) && |s.voided| <= 3
    else if s.phase.Absent? then !s.frozen && s.attempts == map[] && s.voided == []
    else Sound(s, schedule)
  }

  lemma {:induction false} WithoutKeeps(labels: seq<Label>, p: Pair)
    ensures forall x :: x in Without(labels, p) <==> x in labels && PairOf(x) != p
    ensures DistinctSlots(labels) ==> DistinctSlots(Without(labels, p))
    decreases |labels|
  {
    if labels != [] {
      var n := |labels| - 1;
      WithoutKeeps(labels[..n], p);
      assert labels == labels[..n] + [labels[n]];
      if DistinctSlots(labels) {
        var rest := Without(labels[..n], p);
        forall k | 0 <= k < |rest|
          ensures rest[k].slot != labels[n].slot
        {
          assert rest[k] in labels[..n];
        }
      }
    }
  }

  lemma {:induction false} WithoutConcat(a: seq<Label>, b: seq<Label>, p: Pair)
    ensures Without(a + b, p) == Without(a, p) + Without(b, p)
    decreases |b|
  {
    if b == [] {
      assert a + b == a;
    } else {
      var n := |b| - 1;
      assert (a + b)[..|a| + n] == a + b[..n];
      WithoutConcat(a, b[..n], p);
    }
  }

  /** Voiding filters the runs and the completed labels alike. */
  lemma {:induction false} RunsWithoutMatch(runs: seq<Run>, completed: seq<Label>, p: Pair)
    requires |runs| == |completed| && forall k :: 0 <= k < |runs| ==> runs[k].id == completed[k]
    ensures |RunsWithout(runs, p)| == |Without(completed, p)|
    ensures forall k :: 0 <= k < |RunsWithout(runs, p)| ==> RunsWithout(runs, p)[k].id == Without(completed, p)[k]
    decreases |runs|
  {
    if runs != [] {
      var n := |runs| - 1;
      RunsWithoutMatch(runs[..n], completed[..n], p);
    }
  }

  /** What voiding leaves of the runs are runs of before, in the order of before. */
  lemma {:induction false} RunsWithoutIsSubsequence(runs: seq<Run>, p: Pair) returns (at: seq<nat>)
    ensures |at| == |RunsWithout(runs, p)|
    ensures forall k :: 0 <= k < |at| ==> at[k] < |runs| && RunsWithout(runs, p)[k] == runs[at[k]]
    ensures forall i, j :: 0 <= i < j < |at| ==> at[i] < at[j]
    decreases |runs|
  {
    if runs == [] {
      at := [];
    } else {
      var n := |runs| - 1;
      at := RunsWithoutIsSubsequence(runs[..n], p);
      if PairOf(runs[n].id) != p {
        at := at + [n];
      }
    }
  }

  /** Replacing a pair that holds both its slots keeps every slot exactly once. */
  lemma ReplaceConserves(completed: seq<Label>, queue: seq<Label>, p: Pair)
    requires DistinctSlots(completed + queue)
    requires Holds(completed + queue, Slot(p, G)) && Holds(completed + queue, Slot(p, K))
    ensures var all := Without(completed, p) + (Replacements(p) + Without(queue, p));
            && DistinctSlots(all)
            && (forall slot :: Holds(all, slot) <==> Holds(completed + queue, slot))
            && (forall x :: x in all <==> x in Replacements(p) || (x in completed + queue && PairOf(x) != p))
  {
    var before, r := completed + queue, Replacements(p);
    var all := Without(completed, p) + (r + Without(queue, p));
    WithoutConcat(completed, queue, p);
    WithoutKeeps(before, p);
    WithoutKeeps(completed, p);
    WithoutKeeps(queue, p);
    var kept := Without(completed, p) + Without(queue, p);
    assert DistinctSlots(kept) && forall x :: x in kept <==> x in before && PairOf(x) != p;
    DistinctInsert(Without(completed, p), r, Without(queue, p), p);
    forall slot
      ensures Holds(all, slot) <==> Holds(before, slot)
    {
      HoldsAfterReplacement(before, all, p, slot);
    }
  }

  lemma DistinctInsert(a: seq<Label>, r: seq<Label>, b: seq<Label>, p: Pair)
    requires DistinctSlots(a + b) && r == Replacements(p)
    requires forall x :: x in a + b ==> PairOf(x) != p
    ensures DistinctSlots(a + (r + b))
  {
    var all := a + (r + b);
    forall i, j | 0 <= i < j < |all|
      ensures all[i].slot != all[j].slot
    {
      var i', j' := if i < |a| then i else i - 2, if j < |a| then j else j - 2;
      if (i < |a| || i >= |a| + 2) && (j < |a| || j >= |a| + 2) {
        assert all[i] == (a + b)[i'] && all[j] == (a + b)[j'];
      } else if |a| <= i < |a| + 2 && (j < |a| || j >= |a| + 2) {
        assert all[j] == (a + b)[j'] && all[j] in a + b && all[i] == r[i - |a|];
      } else if |a| <= j < |a| + 2 && (i < |a| || i >= |a| + 2) {
        assert all[i] == (a + b)[i'] && all[i] in a + b && all[j] == r[j - |a|];
      } else {
        assert all[i] == r[0] && all[j] == r[1];
      }
    }
  }

  lemma HoldsAfterReplacement(before: seq<Label>, all: seq<Label>, p: Pair, slot: Slot)
    requires Holds(before, Slot(p, G)) && Holds(before, Slot(p, K))
    requires forall x :: x in all <==> x in Replacements(p) || (x in before && PairOf(x) != p)
    ensures Holds(all, slot) <==> Holds(before, slot)
  {
    if slot.pair == p {
      var l := Label(slot, true);
      assert slot == Slot(p, slot.arm) && (slot.arm == ArmsOf(p.order)[0] || slot.arm == ArmsOf(p.order)[1]);
      assert l == Replacements(p)[0] || l == Replacements(p)[1];
      assert l in all;
    } else {
      if Holds(all, slot) {
        var k :| 0 <= k < |all| && all[k].slot == slot;
        assert all[k] in before;
      }
      if Holds(before, slot) {
        var k :| 0 <= k < |before| && before[k].slot == slot;
        assert before[k] in all;
      }
    }
  }

  // ---------------------------------------------------------------- every step keeps it

  lemma RefusedKeeps(s: Study, checks: Checks, schedule: seq<Label>)
    requires Inv(s, schedule)
    ensures Refused(s, checks).Some? ==> Inv(Refused(s, checks).value, schedule)
    ensures Refused(s, checks).None? ==> Sound(s, schedule) && !s.phase.INVALID? && !s.phase.Absent?
    ensures Refused(s, checks).None? && !s.phase.COLLECTED? ==> s.boot == s.clock.boot
  {
  }

  lemma PrepareKeeps(s: Study, id: Label, checks: Checks, clean: bool, route: Route, schedule: seq<Label>)
    requires Inv(s, schedule)
    ensures Inv(PrepareStep(s, id, checks, clean, route), schedule)
  {
    RefusedKeeps(s, checks, schedule);
    var s' := PrepareStep(s, id, checks, clean, route);
    if Refused(s, checks).None? && s' != s {
      assert s.phase != COLLECTED;
      assert Conserved(s', schedule);
      assert Bound(s') by {
        forall k | 0 <= k < |s.runs|
          ensures s.runs[k].id in s'.attempts && s'.attempts[s.runs[k].id] == s.attempts[s.runs[k].id]
        {
          assert s.runs[k].id != id;
        }
      }
    }
  }

  lemma CollectKeeps(s: Study, id: Label, checks: Checks, turn: Turn, schedule: seq<Label>)
    requires Inv(s, schedule)
    ensures Inv(CollectStep(s, id, checks, turn), schedule)
  {
    RefusedKeeps(s, checks, schedule);
    var s' := CollectStep(s, id, checks, turn);
    if Refused(s, checks).None? && s' != s {
      assert Conserved(s', schedule);
      assert Bound(s') by {
        forall k | 0 <= k < |s.runs|
          ensures s'.attempts[s.runs[k].id] == s.attempts[s.runs[k].id]
        {
          assert s.runs[k].id != id;
        }
      }
      if s.active.Some? {
        assert s.queue != [];
      }
    }
  }

  lemma FinishKeeps(s: Study, id: Label, checks: Checks, turn: Turn, schedule: seq<Label>)
    requires Inv(s, schedule)
    ensures Inv(FinishStep(s, id, checks, turn), schedule)
  {
    RefusedKeeps(s, checks, schedule);
    var s' := FinishStep(s, id, checks, turn);
    if Refused(s, checks).None? && s' != s && !s'.phase.INVALID? {
      ActiveIsNotRecorded(s, id, schedule);
      assert s.queue == [id] + s.queue[1..];
      if s'.completed == s.completed {
        assert Conserved(s', schedule);
      } else {
        FinishConserves(s, s', id, schedule);
        FinishKeepsOrder(s, s', id);
      }
    }
  }

  lemma FinishConserves(s: Study, s': Study, id: Label, schedule: seq<Label>)
    requires Conserved(s, schedule) && s.queue != [] && s.queue[0] == id
    requires s'.completed == s.completed + [id] && s'.queue == s.queue[1..] && s'.voided == s.voided
    ensures Conserved(s', schedule)
  {
    assert s'.completed + s'.queue == s.completed + s.queue;
  }

  lemma FinishKeepsOrder(s: Study, s': Study, id: Label)
    requires Ordered(s) && Bound(s) && ActiveIsHead(s) && s.active == Some(id) && s.boot == s.clock.boot
    requires forall k :: 0 <= k < |s.runs| ==> s.runs[k].id != id
    requires s'.clock == s.clock && s'.boot == s.boot && id in s'.attempts
    requires s'.attempts == s.attempts[id := s'.attempts[id]]
    requires var a := s'.attempts[id];
             && a.collected && a.t0 == s.attempts[id].t0 && a.boot == s.attempts[id].boot
             && a.t1.Some? && a.t0 < a.t1.value <= s.clock.now
             && s'.runs == s.runs + [Run(id, a.t0, a.t1.value, a.boot, a.workFailure)]
    ensures Ordered(s') && Bound(s')
  {
  }

  /** The head of the queue has no record yet. */
  lemma ActiveIsNotRecorded(s: Study, id: Label, schedule: seq<Label>)
    requires Sound(s, schedule) && s.queue != [] && s.queue[0] == id
    ensures forall k :: 0 <= k < |s.runs| ==> s.runs[k].id != id
  {
    var all := s.completed + s.queue;
    forall k | 0 <= k < |s.runs|
      ensures s.runs[k].id != id
    {
      assert all[k] == s.runs[k].id && all[|s.completed|] == id;
    }
  }

  lemma VoidKeeps(s: Study, pair: Pair, retry: bool, checks: Checks, infrastructure: bool, settled: bool,
                  schedule: seq<Label>)
    requires WellFormed(schedule) && Inv(s, schedule)
    ensures Inv(VoidStep(s, pair, retry, checks, infrastructure, settled), schedule)
  {
    RefusedKeeps(s, checks, schedule);
    var s' := VoidStep(s, pair, retry, checks, infrastructure, settled);
    if Refused(s, checks).None? && MayVoid(s, pair, retry, infrastructure, settled) && !s'.phase.INVALID? {
      HeadIsCurrent(s);
      PlainHeadIsNew(s, schedule);
      VoidConserves(s, s', pair, schedule);
      VoidKeepsCount(s, s', pair);
      RunsWithoutMatch(s.runs, s.completed, pair);
      VoidKeepsOrder(s, s', pair);
    }
  }

  lemma HeadIsCurrent(s: Study)
    requires ActiveIsHead(s) && Current(s).Some?
    ensures s.queue != [] && Current(s) == Some(s.queue[0])
  {
  }

  lemma VoidKeepsCount(s: Study, s': Study, pair: Pair)
    requires FewVoided(s) && !IsVoided(s, pair)
    requires s'.voided == s.voided + [VoidedPair(pair, false)] && |s'.voided| <= 2
    ensures FewVoided(s')
  {
  }

  lemma VoidConserves(s: Study, s': Study, pair: Pair, schedule: seq<Label>)
    requires WellFormed(schedule) && Conserved(s, schedule)
    requires s.queue != [] && PairOf(s.queue[0]) == pair
    requires s'.completed == Without(s.completed, pair) && s'.queue == Replacements(pair) + Without(s.queue, pair)
    requires s'.voided == s.voided + [VoidedPair(pair, false)]
    ensures Conserved(s', schedule)
  {
    BothArmsHeld(s, pair, schedule);
    ReplaceConserves(s.completed, s.queue, pair);
    VoidedGrows(s, s', pair);
    ReplacementsAreRetries(s, s', pair);
  }

  lemma BothArmsHeld(s: Study, pair: Pair, schedule: seq<Label>)
    requires WellFormed(schedule) && Conserved(s, schedule)
    requires s.queue != [] && PairOf(s.queue[0]) == pair
    ensures Holds(s.completed + s.queue, Slot(pair, G)) && Holds(s.completed + s.queue, Slot(pair, K))
  {
    var all, head := s.completed + s.queue, s.queue[0];
    assert all[|s.completed|] == head && head.slot == Slot(pair, head.slot.arm);
    assert Holds(all, head.slot);
    assert Holds(schedule, Slot(pair, head.slot.arm));
  }

  /** A plain head belongs to a pair that was not voided. */
  lemma PlainHeadIsNew(s: Study, schedule: seq<Label>)
    requires Conserved(s, schedule) && s.queue != [] && !s.queue[0].retry
    ensures !IsVoided(s, PairOf(s.queue[0]))
  {
    var all := s.completed + s.queue;
    assert all[|s.completed|] == s.queue[0];
  }

  lemma VoidedGrows(s: Study, s': Study, pair: Pair)
    requires s'.voided == s.voided + [VoidedPair(pair, false)]
    ensures forall p :: IsVoided(s', p) <==> IsVoided(s, p) || p == pair
  {
    assert s'.voided[|s.voided|].pair == pair;
    forall p | IsVoided(s, p)
      ensures IsVoided(s', p)
    {
      var k :| 0 <= k < |s.voided| && s.voided[k].pair == p;
      assert s'.voided[k].pair == p;
    }
  }

  lemma ReplacementsAreRetries(s: Study, s': Study, pair: Pair)
    requires forall p :: IsVoided(s', p) <==> IsVoided(s, p) || p == pair
    requires var all := s.completed + s.queue;
             forall k :: 0 <= k < |all| ==> (all[k].retry <==> IsVoided(s, PairOf(all[k])))
    requires forall x :: x in s'.completed + s'.queue ==>
               x in Replacements(pair) || (x in s.completed + s.queue && PairOf(x) != pair)
    ensures var all' := s'.completed + s'.queue;
            forall k :: 0 <= k < |all'| ==> (all'[k].retry <==> IsVoided(s', PairOf(all'[k])))
  {
    var all' := s'.completed + s'.queue;
    forall k | 0 <= k < |all'|
      ensures all'[k].retry <==> IsVoided(s', PairOf(all'[k]))
    {
      assert all'[k] in all';
    }
  }

  lemma VoidKeepsOrder(s: Study, s': Study, pair: Pair)
    requires Ordered(s) && Bound(s)
    requires s'.runs == RunsWithout(s.runs, pair) && s'.boot == s.boot && s'.clock == s.clock
    requires s'.attempts == s.attempts
    ensures Ordered(s') && Bound(s')
  {
    var at := RunsWithoutIsSubsequence(s.runs, pair);
    forall i, j | 0 <= i < j < |s'.runs|
      ensures s'.runs[i].t1 <= s'.runs[j].t0
    {
      assert at[i] < at[j];
    }
  }

  lemma InitializeKeeps(s: Study, pinned: bool, schedule: seq<Label>)
    requires WellFormed(schedule) && Inv(s, schedule)
    ensures Inv(InitializeStep(s, pinned, schedule), schedule)
  {
    var s' := InitializeStep(s, pinned, schedule);
    if s' != s && !s'.phase.INVALID? {
      assert s'.completed + s'.queue == schedule;
    }
  }

  lemma StepKeeps(s: Study, c: Command, schedule: seq<Label>)
    requires WellFormed(schedule) && Inv(s, schedule)
    ensures Inv(Step(s, c, schedule), schedule)
  {
    match c
    case Initialize(pinned) => InitializeKeeps(s, pinned, schedule);
    case Prepare(id, checks, clean, route) => PrepareKeeps(s, id, checks, clean, route, schedule);
    case Collect(id, checks, turn) => CollectKeeps(s, id, checks, turn, schedule);
    case Finish(id, checks, turn) => FinishKeeps(s, id, checks, turn, schedule);
    case Void(pair, retry, checks, infrastructure, settled) =>
      VoidKeeps(s, pair, retry, checks, infrastructure, settled, schedule);
    case Tick(elapsed) =>
      ClockKeeps(s, Step(s, c, schedule), schedule);
    case Reboot(now) =>
      ClockKeeps(s, Step(s, c, schedule), schedule);
    case Violation =>
  }

  lemma ClockKeeps(s: Study, s': Study, schedule: seq<Label>)
    requires Inv(s, schedule) && s' == s.(clock := s'.clock)
    requires s'.clock.boot > s.clock.boot || (s'.clock.boot == s.clock.boot && s'.clock.now >= s.clock.now)
    ensures Inv(s', schedule)
  {
    if Sound(s, schedule) {
      assert Conserved(s', schedule);
    }
  }

  /** Every run of commands from an empty study keeps the ledgers sound. */
  lemma {:induction false} EveryRunIsSound(clock: Clock, commands: seq<Command>, schedule: seq<Label>)
    requires WellFormed(schedule)
    ensures Inv(RunAll(Empty(clock), commands, schedule), schedule)
    decreases |commands|
  {
    if commands != [] {
      var n := |commands| - 1;
      EveryRunIsSound(clock, commands[..n], schedule);
      StepKeeps(RunAll(Empty(clock), commands[..n], schedule), commands[n], schedule);
    }
  }

  // ---------------------------------------------------------------- consequences

  lemma InvalidStays(s: Study, c: Command, schedule: seq<Label>)
    requires Inv(s, schedule) && s.phase.INVALID?
    ensures Step(s, c, schedule).phase.INVALID?
  {
  }

  /** INVALID is never left. */
  lemma {:induction false} InvalidIsForever(clock: Clock, before: seq<Command>, after: seq<Command>,
                                            schedule: seq<Label>)
    requires WellFormed(schedule)
    requires RunAll(Empty(clock), before, schedule).phase.INVALID?
    ensures RunAll(Empty(clock), before + after, schedule).phase.INVALID?
    decreases |after|
  {
    var s := Empty(clock);
    if after == [] {
      assert before + after == before;
    } else {
      var n := |after| - 1;
      assert (before + after)[..|before| + n] == before + after[..n];
      InvalidIsForever(clock, before, after[..n], schedule);
      EveryRunIsSound(clock, before + after[..n], schedule);
      InvalidStays(RunAll(s, before + after[..n], schedule), after[n], schedule);
    }
  }

  function SlotsOf(labels: seq<Label>): set<Slot> { set k | 0 <= k < |labels| :: labels[k].slot }

  lemma {:induction false} DistinctSlotsCount(labels: seq<Label>)
    requires DistinctSlots(labels)
    ensures |SlotsOf(labels)| == |labels|
    decreases |labels|
  {
    if labels != [] {
      var n := |labels| - 1;
      DistinctSlotsCount(labels[..n]);
      assert SlotsOf(labels) == SlotsOf(labels[..n]) + {labels[n].slot};
    }
  }

  /** What `verify` asks of the two ledgers, beside the contents of the files they name. */
  ghost predicate Complete(s: Study, arms: nat) {
    && s.active.None? && s.queue == [] && |s.runs| == arms
    && IdsMatch(s) && DistinctSlots(s.completed)
    && (forall k :: 0 <= k < |s.runs| ==> s.runs[k].boot == s.boot && s.runs[k].t0 < s.runs[k].t1)
    && (forall k :: 0 < k < |s.runs| ==> s.runs[k - 1].t1 <= s.runs[k].t0)
    && Bound(s)
  }

  /** A study is COLLECTED exactly when every arm is recorded, in order, on disjoint intervals of one boot. */
  lemma CollectedIsComplete(clock: Clock, commands: seq<Command>, schedule: seq<Label>)
    requires WellFormed(schedule)
    ensures var s := RunAll(Empty(clock), commands, schedule);
            s.phase.COLLECTED? <==> !s.phase.INVALID? && s.frozen && Complete(s, |schedule|)
  {
    var s := RunAll(Empty(clock), commands, schedule);
    EveryRunIsSound(clock, commands, schedule);
    if s.phase.COLLECTED? {
      assert s.completed + s.queue == s.completed;
      DistinctSlotsCount(s.completed);
      DistinctSlotsCount(schedule);
      assert SlotsOf(s.completed) == SlotsOf(schedule) by {
        forall slot
          ensures slot in SlotsOf(s.completed) <==> slot in SlotsOf(schedule)
        {
          assert slot in SlotsOf(s.completed) <==> Holds(s.completed, slot);
          assert slot in SlotsOf(schedule) <==> Holds(schedule, slot);
        }
      }
    }
  }

  /** When `finish` records the active arm: never a single arm whose node it had to collect itself, because it
      had read the attempt before that collection wrote the end of the interval. */
  lemma FinishRecords(s: Study, id: Label, checks: Checks, turn: Turn, schedule: seq<Label>)
    requires Inv(s, schedule) && Refused(s, checks).None? && s.active == Some(id)
    ensures |FinishStep(s, id, checks, turn).runs| == |s.runs| + 1
            <==> && turn.Settled?
                 && var a := s.attempts[id];
                    if turn.workFailure || a.route.Graph? then a.t0 < s.clock.now
                    else a.t1.Some? && a.t0 < a.t1.value
  {
    RefusedKeeps(s, checks, schedule);
  }

  /** A single arm whose good answer `finish` collected: its end is lost. */
  predicate EndLost(s: Study, id: Label) {
    && s.active == Some(id) && id in s.attempts && s.attempts[id].route.Single?
    && s.attempts[id].collected && s.attempts[id].t1.None?
  }

  predicate Records(c: Command) { c.Finish? && c.turn == Settled(true) }

  lemma LostEndSurvives(s: Study, c: Command, id: Label, schedule: seq<Label>)
    requires s.frozen && EndLost(s, id) && !c.Void? && !Records(c)
    ensures var t := Step(s, c, schedule);
            t.phase.INVALID? || (t.frozen && EndLost(t, id) && t.runs == s.runs)
  {
  }

  /** Such an arm can no longer be finished: whatever follows, it stays active and no arm is recorded until a pair is
      voided, a later failure is found in it, or the study becomes INVALID. */
  lemma {:induction false} LostEndStays(s: Study, commands: seq<Command>, id: Label, schedule: seq<Label>)
    requires WellFormed(schedule) && Inv(s, schedule) && s.frozen && EndLost(s, id)
    requires forall k :: 0 <= k < |commands| ==> !commands[k].Void? && !Records(commands[k])
    ensures var t := RunAll(s, commands, schedule);
            Inv(t, schedule) && (t.phase.INVALID? || (t.frozen && EndLost(t, id) && t.runs == s.runs))
    decreases |commands|
  {
    if commands != [] {
      var n: nat := |commands| - 1;
      var t := RunAll(s, commands[..n], schedule);
      LostEndStays(s, commands[..n], id, schedule);
      StepKeeps(t, commands[n], schedule);
      if t.phase.INVALID? {
        InvalidStays(t, commands[n], schedule);
      } else {
        LostEndSurvives(t, commands[n], id, schedule);
      }
    }
  }

  lemma FinishBeforeCollectLosesTheEnd(s: Study, id: Label, checks: Checks, schedule: seq<Label>)
    requires Inv(s, schedule) && Refused(s, checks).None? && s.active == Some(id)
    requires s.attempts[id].route.Single? && !s.attempts[id].collected && s.attempts[id].t1.None?
    ensures EndLost(FinishStep(s, id, checks, Settled(false)), id)
  {
    RefusedKeeps(s, checks, schedule);
  }

  lemma OneMore(s: Study, before: seq<Command>, c: Command, schedule: seq<Label>)
    ensures RunAll(s, before + [c], schedule) == Step(RunAll(s, before, schedule), c, schedule)
  {
    assert (before + [c])[..|before|] == before;
  }

  /** Three commands reach that state: freeze, prepare the first arm on the single route, and finish it when its agent
      has settled well but nobody has collected it. */
  lemma EndIsLostInThreeCommands(clock: Clock, schedule: seq<Label>) returns (run: seq<Command>)
    requires schedule != []
    ensures run == [Initialize(true), Prepare(schedule[0], Checks(true, true), true, Single),
                    Finish(schedule[0], Checks(true, true), Settled(false))]
    ensures EndLost(RunAll(Empty(clock), run, schedule), schedule[0])
    ensures RunAll(Empty(clock), run, schedule).frozen && RunAll(Empty(clock), run, schedule).runs == []
  {
    var s, ok := Empty(clock), Checks(true, true);
    run := [];
    OneMore(s, run, Initialize(true), schedule);
    run := run + [Initialize(true)];
    OneMore(s, run, Prepare(schedule[0], ok, true, Single), schedule);
    run := run + [Prepare(schedule[0], ok, true, Single)];
    OneMore(s, run, Finish(schedule[0], ok, Settled(false)), schedule);
    run := run + [Finish(schedule[0], ok, Settled(false))];
  }

  // ---------------------------------------------------------------- what the other commands may and may not do

  /** A command goes on exactly when the study is frozen and valid, its files and native evidence are intact, and the
      machine was not rebooted before the end. It is refused for good when the evidence changed or the boot did, and
      otherwise the ledgers stay as they are. */
  lemma RefusedIsExact(s: Study, checks: Checks)
    ensures var valid := !s.invalidated && s.phase != INVALID && s.frozen && checks.filesIntact;
            var rebooted := s.phase != COLLECTED && s.boot != s.clock.boot;
            && (Refused(s, checks).None? <==> valid && !rebooted && checks.evidenceIntact)
            && (Refused(s, checks).Some? ==>
                  var t := Refused(s, checks).value;
                  && (t.phase == INVALID <==> s.invalidated || s.phase == INVALID || valid)
                  && (t.invalidated <==> s.invalidated || valid)
                  && t.(phase := s.phase, invalidated := s.invalidated) == s)
  {
  }

  /** An arm is started exactly when none is active, it heads the queue, the clone is clean and it was never started
      before; its interval begins now. */
  lemma PrepareIsExact(s: Study, id: Label, checks: Checks, clean: bool, route: Route)
    requires Refused(s, checks).None?
    ensures var t := PrepareStep(s, id, checks, clean, route);
            if s.active.None? && s.queue != [] && s.queue[0] == id && clean && id !in s.attempts then
              && t.active == Some(id) && t.phase == RUNNING
              && t.attempts.Keys == s.attempts.Keys + {id}
              && t.attempts[id].t0 == s.clock.now && t.attempts[id].boot == s.clock.boot && t.attempts[id].t1.None?
              && t.attempts[id].route == route && !t.attempts[id].collected && !t.attempts[id].workFailure
              && (forall l :: l in s.attempts ==> t.attempts[l] == s.attempts[l])
              && t.(active := s.active, phase := s.phase, attempts := s.attempts) == s
            else t == s
  {
  }

  /** A collection changes one attempt, once: a single arm whose agent has settled; a good answer ends its interval. */
  lemma CollectIsExact(s: Study, id: Label, checks: Checks, turn: Turn)
    requires Refused(s, checks).None?
    ensures var t := CollectStep(s, id, checks, turn);
            if id in s.attempts && s.attempts[id].route == Single && !s.attempts[id].collected && turn.Settled? then
              && t.attempts.Keys == s.attempts.Keys && t.attempts[id].collected
              && t.attempts[id].t1 == (if turn.workFailure then s.attempts[id].t1 else Some(s.clock.now))
              && t.attempts[id].(collected := false, t1 := s.attempts[id].t1) == s.attempts[id]
              && (forall l :: l in s.attempts && l != id ==> t.attempts[l] == s.attempts[l])
              && t.(attempts := s.attempts) == s
            else t == s
  {
  }

  /** What `finish` does with the active arm whose agents have settled: the end of its interval is now for a failure or
      a graph, and what the collection wrote otherwise. With a proper interval the arm is recorded, with the failure as
      it was seen; with an improper one the study is INVALID; without an end only the attempt is written. */
  lemma FinishIsExact(s: Study, id: Label, checks: Checks, turn: Turn, schedule: seq<Label>)
    requires Inv(s, schedule) && Refused(s, checks).None? && s.active == Some(id) && turn.Settled?
    ensures var t, a := FinishStep(s, id, checks, turn), s.attempts[id];
            var end := if turn.workFailure || a.route == Graph then Some(s.clock.now) else a.t1;
            && t.attempts.Keys == s.attempts.Keys && t.attempts[id].workFailure == turn.workFailure
            && t.attempts[id].t1 == end && t.attempts[id].t0 == a.t0 && t.attempts[id].collected
            && (forall l :: l in s.attempts && l != id ==> t.attempts[l] == s.attempts[l])
            && t.voided == s.voided && t.voidedRuns == s.voidedRuns && t.clock == s.clock
            && (t.phase == INVALID <==> end.Some? && end.value <= a.t0)
            && if end.Some? && a.t0 < end.value then
                 && t.runs == s.runs + [Run(id, a.t0, end.value, a.boot, turn.workFailure)]
                 && t.completed == s.completed + [id] && s.queue == [id] + t.queue && t.active == None
                 && t.phase == if t.queue == [] then COLLECTED else RUNNING
               else t.runs == s.runs && t.completed == s.completed && t.queue == s.queue && t.active == s.active
  {
    RefusedKeeps(s, checks, schedule);
    assert s.queue != [] && s.queue == [id] + s.queue[1..];
  }

  /** An attempt is never forgotten or begun anew: over every run its start, its boot and its route stay. */
  lemma {:induction false} AttemptsStay(s: Study, commands: seq<Command>, l: Label, schedule: seq<Label>)
    requires l in s.attempts
    ensures StillBegun(s, RunAll(s, commands, schedule), l)
    decreases |commands|
  {
    if commands != [] {
      var n: nat := |commands| - 1;
      AttemptsStay(s, commands[..n], l, schedule);
      AttemptStays(RunAll(s, commands[..n], schedule), commands[n], l, schedule);
    }
  }

  predicate StillBegun(s: Study, t: Study, l: Label)
    requires l in s.attempts
  {
    && l in t.attempts && t.attempts[l].t0 == s.attempts[l].t0 && t.attempts[l].boot == s.attempts[l].boot
    && t.attempts[l].route == s.attempts[l].route && (s.attempts[l].collected ==> t.attempts[l].collected)
  }

  lemma AttemptStays(s: Study, c: Command, l: Label, schedule: seq<Label>)
    requires l in s.attempts
    ensures StillBegun(s, Step(s, c, schedule), l)
  {
  }

  // ---------------------------------------------------------------- what a void may and may not do

  /** Nothing is recorded before the freeze, and no withdrawn record is one of a model failure. */
  ghost predicate Honest(s: Study) {
    && (s.runs != [] || s.voidedRuns != [] ==> s.frozen) && forall r :: r in s.voidedRuns ==> !r.workFailure
  }

  lemma {:induction false} FilteredRuns(runs: seq<Run>, p: Pair)
    ensures forall r :: r in RunsOf(runs, p) <==> r in runs && PairOf(r.id) == p
    ensures forall r :: r in RunsWithout(runs, p) <==> r in runs && PairOf(r.id) != p
    decreases |runs|
  {
    if runs != [] {
      var n: nat := |runs| - 1;
      FilteredRuns(runs[..n], p);
      assert runs == runs[..n] + [runs[n]];
    }
  }

  /** A record leaves `runs` only for `voidedRuns`, where it stays, and one of a model failure never leaves. */
  lemma RecordsStepOn(s: Study, c: Command, schedule: seq<Label>)
    requires Honest(s)
    ensures var t := Step(s, c, schedule);
            && Honest(t)
            && (forall r :: r in s.runs ==> r in t.runs || r in t.voidedRuns)
            && (forall r :: r in s.runs && r.workFailure ==> r in t.runs)
            && (s.frozen ==> forall r :: r in s.voidedRuns ==> r in t.voidedRuns)
            && (s.frozen ==> t.frozen)
  {
    if c.Void? && Step(s, c, schedule) != s && Refused(s, c.checks).None? {
      FilteredRuns(s.runs, c.pair);
      assert forall k :: 0 <= k < |RunsOf(s.runs, c.pair)| ==> RunsOf(s.runs, c.pair)[k] in RunsOf(s.runs, c.pair);
      assert forall r :: r in RunsOf(s.runs, c.pair) ==> !r.workFailure;
    }
  }

  lemma {:induction false} EveryRunIsHonest(clock: Clock, commands: seq<Command>, schedule: seq<Label>)
    ensures Honest(RunAll(Empty(clock), commands, schedule))
    decreases |commands|
  {
    if commands != [] {
      var n: nat := |commands| - 1;
      EveryRunIsHonest(clock, commands[..n], schedule);
      RecordsStepOn(RunAll(Empty(clock), commands[..n], schedule), commands[n], schedule);
    }
  }

  /** Over every run of commands from an empty study: no record of a model failure is ever withdrawn, one that stands
      in `runs` stands there after every further command, and no other record is ever lost. */
  lemma {:induction false} FailuresStay(clock: Clock, before: seq<Command>, after: seq<Command>, schedule: seq<Label>)
    ensures var s, t := RunAll(Empty(clock), before, schedule), RunAll(Empty(clock), before + after, schedule);
            && (forall r :: r in t.voidedRuns ==> !r.workFailure)
            && (forall r :: r in s.runs && r.workFailure ==> r in t.runs)
            && (forall r :: r in s.runs || r in s.voidedRuns ==> r in t.runs || r in t.voidedRuns)
            && (s.frozen ==> t.frozen)
    decreases |after|
  {
    EveryRunIsHonest(clock, before, schedule);
    EveryRunIsHonest(clock, before + after, schedule);
    if after == [] {
      assert before + after == before;
    } else {
      var n: nat := |after| - 1;
      FailuresStay(clock, before, after[..n], schedule);
      assert before + after == (before + after[..n]) + [after[n]];
      OneMore(Empty(clock), before + after[..n], after[n], schedule);
      EveryRunIsHonest(clock, before + after[..n], schedule);
      RecordsStepOn(RunAll(Empty(clock), before + after[..n], schedule), after[n], schedule);
    }
  }

  /** The pair is the one at work, and neither a record of it nor an attempt of its current arms is a model failure. */
  ghost predicate Withdrawable(s: Study, pair: Pair, retry: bool) {
    && s.queue != [] && PairOf(s.queue[0]) == pair && s.queue[0].retry == retry
    && (forall r :: r in s.runs && PairOf(r.id) == pair ==> !r.workFailure)
    && forall arm :: Label(Slot(pair, arm), retry) in s.attempts
                     ==> !s.attempts[Label(Slot(pair, arm), retry)].workFailure
  }

  /** What a void leaves: the records of the pair are withdrawn, those of other pairs stay, and a first or second plain
      pair is put back at the head of the queue, replaced in the order it names its arms; otherwise the study is
      INVALID. `kept` are the places of the queue that stay. */
  ghost predicate Withdrawn(s: Study, t: Study, pair: Pair, retry: bool, kept: seq<nat>) {
    && t.voided == s.voided + [VoidedPair(pair, retry)] && t.active == None
    && (forall r :: r in t.runs <==> r in s.runs && PairOf(r.id) != pair)
    && (forall r :: r in t.voidedRuns <==> r in s.voidedRuns || (r in s.runs && PairOf(r.id) == pair))
    && (forall l :: l in t.completed <==> l in s.completed && PairOf(l) != pair)
    && t.attempts == s.attempts && t.clock == s.clock && t.boot == s.boot && t.frozen && !t.invalidated
    && if retry || |s.voided| >= 2 then t.phase == INVALID && t.queue == []
       else
         var first, second := if pair.order == GK then G else K, if pair.order == GK then K else G;
         && t.phase == RUNNING && |t.queue| == 2 + |kept|
         && t.queue[0] == Label(Slot(pair, first), true) && t.queue[1] == Label(Slot(pair, second), true)
         && KeptPlaces(s.queue, t.queue[2..], pair, kept)
  }

  /** `rest` are the labels of other pairs, in their order. */
  ghost predicate KeptPlaces(queue: seq<Label>, rest: seq<Label>, pair: Pair, kept: seq<nat>) {
    && |rest| == |kept|
    && (forall k :: 0 <= k < |kept| ==> kept[k] < |queue| && rest[k] == queue[kept[k]])
    && (forall i, j :: 0 <= i < j < |kept| ==> kept[i] < kept[j])
    && forall m :: 0 <= m < |queue| ==> (m in kept <==> PairOf(queue[m]) != pair)
  }

  lemma {:induction false} WithoutKeepsPlaces(queue: seq<Label>, pair: Pair) returns (kept: seq<nat>)
    ensures KeptPlaces(queue, Without(queue, pair), pair, kept)
    decreases |queue|
  {
    kept := [];
    if queue != [] {
      var n: nat := |queue| - 1;
      var before := WithoutKeepsPlaces(queue[..n], pair);
      OnePlaceMore(queue, Without(queue[..n], pair), pair, before);
      kept := if PairOf(queue[n]) == pair then before else before + [n];
    }
  }

  lemma OnePlaceMore(queue: seq<Label>, rest: seq<Label>, pair: Pair, kept: seq<nat>)
    requires queue != [] && KeptPlaces(queue[..|queue| - 1], rest, pair, kept)
    ensures var n := |queue| - 1;
            if PairOf(queue[n]) == pair then KeptPlaces(queue, rest, pair, kept)
            else KeptPlaces(queue, rest + [queue[n]], pair, kept + [n])
  {
    var n, before := |queue| - 1, queue[..|queue| - 1];
    assert forall k :: 0 <= k < |kept| ==> kept[k] < n && rest[k] == before[kept[k]] == queue[kept[k]];
    forall m | 0 <= m < |queue|
      ensures m in kept <==> m < n && PairOf(queue[m]) != pair
    {
      if m < n {
        assert before[m] == queue[m];
      }
    }
    assert forall m :: m in kept + [n] <==> m in kept || m == n;
  }

  /** A void takes effect if and only if it gives an infrastructure reason, everything is settled, the pair is the one
      at work, and no model failure is known of it; it then withdraws the pair, and else changes nothing. */
  lemma VoidIsExact(s: Study, pair: Pair, retry: bool, checks: Checks, infrastructure: bool, settled: bool,
                    schedule: seq<Label>) returns (kept: seq<nat>)
    requires Inv(s, schedule) && Refused(s, checks).None?
    ensures var t := VoidStep(s, pair, retry, checks, infrastructure, settled);
            if infrastructure && settled && Withdrawable(s, pair, retry)
            then Withdrawn(s, t, pair, retry, kept) && t != s
            else t == s
  {
    RefusedKeeps(s, checks, schedule);
    kept := WithoutKeepsPlaces(s.queue, pair);
    MayVoidExactly(s, pair, retry, infrastructure, settled);
    if MayVoid(s, pair, retry, infrastructure, settled) {
      VoidWithdraws(s, pair, retry, checks, infrastructure, settled, kept);
    }
  }

  lemma MayVoidExactly(s: Study, pair: Pair, retry: bool, infrastructure: bool, settled: bool)
    requires ActiveIsHead(s)
    ensures MayVoid(s, pair, retry, infrastructure, settled)
            <==> infrastructure && settled && Withdrawable(s, pair, retry)
  {
    if Current(s).Some? {
      HeadIsCurrent(s);
    }
    NoFailureOf(s.runs, pair);
    AttemptsOf(s, pair, retry);
  }

  lemma VoidWithdraws(s: Study, pair: Pair, retry: bool, checks: Checks, infrastructure: bool, settled: bool,
                      kept: seq<nat>)
    requires Refused(s, checks).None? && MayVoid(s, pair, retry, infrastructure, settled)
    requires KeptPlaces(s.queue, Without(s.queue, pair), pair, kept)
    ensures var t := VoidStep(s, pair, retry, checks, infrastructure, settled);
            Withdrawn(s, t, pair, retry, kept) && t != s
  {
    FilteredRuns(s.runs, pair);
    WithoutKeeps(s.completed, pair);
    VoidedQueue(pair, Without(s.queue, pair));
    assert |VoidStep(s, pair, retry, checks, infrastructure, settled).voided| == |s.voided| + 1;
  }

  lemma VoidedQueue(pair: Pair, rest: seq<Label>)
    ensures var queue := Replacements(pair) + rest;
            var first, second := if pair.order == GK then G else K, if pair.order == GK then K else G;
            && queue[0] == Label(Slot(pair, first), true) && queue[1] == Label(Slot(pair, second), true)
            && queue[2..] == rest
  {
  }

  lemma NoFailureOf(runs: seq<Run>, p: Pair)
    ensures NoFailure(RunsOf(runs, p)) <==> forall r :: r in runs && PairOf(r.id) == p ==> !r.workFailure
  {
    FilteredRuns(runs, p);
    assert NoFailure(RunsOf(runs, p)) <==> forall r :: r in RunsOf(runs, p) ==> !r.workFailure;
  }

  lemma AttemptsOf(s: Study, pair: Pair, retry: bool)
    ensures !AttemptFailed(s, Label(Slot(pair, G), retry)) && !AttemptFailed(s, Label(Slot(pair, K), retry))
            <==> forall arm :: Label(Slot(pair, arm), retry) in s.attempts
                               ==> !s.attempts[Label(Slot(pair, arm), retry)].workFailure
  {
    if exists arm :: AttemptFailed(s, Label(Slot(pair, arm), retry)) {
      var arm :| AttemptFailed(s, Label(Slot(pair, arm), retry));
      assert arm == G || arm == K;
    }
  }

  // ---------------------------------------------------------------- the registered schedule

  function TaskArms(task: nat): seq<Label> {
    [Label(Slot(Pair(task, GK), G), false), Label(Slot(Pair(task, GK), K), false),
     Label(Slot(Pair(task, KG), K), false), Label(Slot(Pair(task, KG), G), false)]
  }

  /** Tasks 1 to `tasks`; the protocol registers eight. */
  function Schedule(tasks: nat): seq<Label> { if tasks == 0 then [] else Schedule(tasks - 1) + TaskArms(tasks) }

  /** The label at position `k`. */
  function Registered(k: nat): Label {
    Label(Slot(Pair(k / 4 + 1, if k % 4 < 2 then GK else KG), if k % 4 == 0 || k % 4 == 3 then G else K), false)
  }

  lemma {:induction false} ScheduleShape(tasks: nat)
    ensures |Schedule(tasks)| == 4 * tasks
    ensures forall k :: 0 <= k < 4 * tasks ==> Schedule(tasks)[k] == Registered(k)
  {
    if tasks > 0 {
      ScheduleShape(tasks - 1);
      forall k | 4 * (tasks - 1) <= k < 4 * tasks
        ensures Schedule(tasks)[k] == Registered(k)
      {
        assert Schedule(tasks)[k] == TaskArms(tasks)[k - 4 * (tasks - 1)];
      }
    }
  }

  lemma RegisteredApart(i: nat, j: nat)
    requires i != j
    ensures Registered(i).slot != Registered(j).slot
  {
    assert i / 4 != j / 4 || i % 4 != j % 4;
  }

  lemma QuarterOf(q: nat, r: nat)
    requires r < 4
    ensures (4 * q + r) / 4 == q && (4 * q + r) % 4 == r
  {
  }

  /** The position of the other arm of the pair at `k`. */
  lemma OtherArm(k: nat) returns (other: nat)
    ensures other / 4 == k / 4
    ensures Registered(other).slot.pair == Registered(k).slot.pair
    ensures Registered(other).slot.arm != Registered(k).slot.arm
  {
    var q, r := k / 4, k % 4;
    var partner := if r == 0 then 1 else if r == 1 then 0 else if r == 2 then 3 else 2;
    QuarterOf(q, partner);
    other := 4 * q + partner;
  }

  /** A list of whole tasks in registered order is a well-formed schedule. */
  lemma RegisteredIsWellFormed(all: seq<Label>)
    requires all != [] && |all| % 4 == 0 && forall k :: 0 <= k < |all| ==> all[k] == Registered(k)
    ensures WellFormed(all)
  {
    forall i, j | 0 <= i < j < |all|
      ensures all[i].slot != all[j].slot
    {
      RegisteredApart(i, j);
    }
    forall p, arm, arm' | Holds(all, Slot(p, arm))
      ensures Holds(all, Slot(p, arm'))
    {
      var k: nat :| k < |all| && all[k].slot == Slot(p, arm);
      var other := OtherArm(k);
      assert all[other] == Registered(other);
    }
  }

  lemma RegisteredScheduleIsWellFormed()
    ensures WellFormed(Schedule(8)) && |Schedule(8)| == 32
  {
    ScheduleShape(8);
    RegisteredIsWellFormed(Schedule(8));
  }
}
