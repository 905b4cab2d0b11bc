/** The grading ledgers of scripts/graph_v2_grade.py: answers are taken from native transcripts, a malformed
    first answer may be asked again once, and nothing else can ever be asked again.

    Transcripts belong to the host: they grow until they are settled and never change after that.  Hashes of
    files and snapshots stand for the transcripts themselves. */
module Grading {
  import opened Wrappers

  /** What a grader returned for one question. */
  datatype Value = Boolean(b: bool) | Other

  /** The tool calls of a grader: none, the one read it was assigned, or anything else. */
  datatype Calls = NoCall | AssignedRead | Violating

  /** The native rows of one agent; `answer` is None when its final message is no JSON object. */
  datatype Transcript = Transcript(session: string, calls: Calls, settled: bool, completed: bool, pinned: bool,
                                   lineage: bool, answer: Option<map<string, Value>>)

  /** Attempt 0 or 1 of a batch. */
  datatype Agent = Agent(batch: nat, attempt: nat)

  datatype Answered = Answered(value: map<string, bool>, session: string)

  /** The ledgers.  `rejected` holds the batches of attempts.json, each with the session its rejected proof
      names; `audits` holds the accepted batches with their answers; the rest is verdicts.json, the violation
      marker and the native transcripts. */
  datatype Ledgers = Ledgers(rejected: map<nat, string>, audits: map<nat, Answered>,
                             verdicts: Option<map<string, bool>>, violated: bool, native: map<Agent, Transcript>)

  /** The question ids of every batch. */
  type Questions = seq<set<string>>

  predicate Exact(answer: Option<map<string, Value>>, ids: set<string>) {
    answer.Some? && answer.value.Keys == ids && forall id :: id in answer.value ==> answer.value[id].Boolean?
  }

  function Booleans(answer: map<string, Value>): map<string, bool>
    requires forall id :: id in answer ==> answer[id].Boolean?
  {
    map id | id in answer :: answer[id].b
  }

  function AttemptOf(g: Ledgers, i: nat): nat { if i in g.rejected then 1 else 0 }

  /** The transcript stops being open: a violation is permanent, an unsettled one is refused. */
  datatype Look = Missing | Violation | Refuse | Fine

  /** The checks retry and collect share, in their order. */
  function Inspect(g: Ledgers, agent: Agent): Look {
    if agent !in g.native then Missing
    else
      var t := g.native[agent];
      if t.calls.Violating? then Violation
      else if !t.settled || t.calls.NoCall? || !t.completed || !t.pinned || !t.lineage then Refuse
      else Fine
  }

  // ---------------------------------------------------------------- the commands

  function RetryStep(g: Ledgers, i: nat, bound: bool, q: Questions): Ledgers {
    if g.violated || i >= |q| || AttemptOf(g, i) != 0 || i in g.audits then g
    else
      var agent := Agent(i, 0);
      match Inspect(g, agent)
      case Missing => g
      case Violation => g.(violated := true)
      case Refuse => g
      case Fine =>
        if Exact(g.native[agent].answer, q[i]) || !bound then g
        else g.(rejected := g.rejected[i := g.native[agent].session])
  }

  datatype Collected = Collected(files: Ledgers, answer: Option<Answered>)

  function CollectStep(g: Ledgers, i: nat, bound: bool, q: Questions): Collected {
    if g.violated || i >= |q| then Collected(g, None)
    else
      var agent := Agent(i, AttemptOf(g, i));
      match Inspect(g, agent)
      case Missing => Collected(g, None)
      case Violation => Collected(g.(violated := true), None)
      case Refuse => Collected(g, None)
      case Fine =>
        var t := g.native[agent];
        if i in g.audits && g.audits[i].session != t.session then Collected(g, None)
        else if AttemptOf(g, i) != 0 && g.rejected[i] == t.session then Collected(g, None)
        else if !Exact(t.answer, q[i]) then Collected(g, None)
        else
          var answer := Answered(Booleans(t.answer.value), t.session);
          if i in g.audits then Collected(g, if g.audits[i] == answer then Some(answer) else None)
          else if !bound then Collected(g, None)
          else Collected(g.(audits := g.audits[i := answer]), Some(answer))
  }

  function AllQuestions(q: Questions): set<string> { if q == [] then {} else q[0] + AllQuestions(q[1..]) }

  datatype Combined = Combined(files: Ledgers, verdicts: Option<map<string, bool>>)

  /** `combine` from batch `i` on. */
  function CombineFrom(g: Ledgers, i: nat, verdicts: map<string, bool>, sessions: set<string>, bound: nat -> bool,
                       q: Questions): Combined
    requires i <= |q|
    decreases |q| - i
  {
    if i == |q| then
      if verdicts.Keys != AllQuestions(q) then Combined(g, None)
      else Combined(g.(verdicts := Some(verdicts)), Some(verdicts))
    else
      var c := CollectStep(g, i, bound(i), q);
      if c.answer.None? || c.answer.value.session in sessions || verdicts.Keys * c.answer.value.value.Keys != {} then
        Combined(c.files, None)
      else
        CombineFrom(c.files, i + 1, verdicts + c.answer.value.value, sessions + {c.answer.value.session}, bound, q)
  }

  /** A command, or a transcript that grows or settles. */
  datatype Event =
    | Retry(i: nat, bound: bool)
    | Collect(i: nat, bound: bool)
    | Combine(evidence: nat -> bool)
    | Grow(agent: Agent, t: Transcript)

  function GrowStep(g: Ledgers, agent: Agent, t: Transcript): Ledgers {
    if agent in g.native && g.native[agent].settled then g else g.(native := g.native[agent := t])
  }

  function Step(g: Ledgers, e: Event, q: Questions): Ledgers {
    match e
    case Retry(i, bound) => RetryStep(g, i, bound, q)
    case Collect(i, bound) => CollectStep(g, i, bound, q).files
    case Combine(bound) => if g.violated then g else CombineFrom(g, 0, map[], {}, bound, q).files
    case Grow(agent, t) => GrowStep(g, agent, t)
  }

  function RunAll(g: Ledgers, events: seq<Event>, q: Questions): Ledgers
    decreases |events|
  {
    if events == [] then g else RunAll(Step(g, events[0], q), events[1..], q)
  }

  function Fresh(): Ledgers { Ledgers(map[], map[], None, false, map[]) }

  // ---------------------------------------------------------------- what every run keeps

  ghost predicate Settled(g: Ledgers, agent: Agent) {
    && agent in g.native && g.native[agent].settled && g.native[agent].completed && g.native[agent].calls.AssignedRead?
  }

  /** A retried batch: its first transcript is settled and complete, and holds no exact answer. */
  ghost predicate Retried(g: Ledgers, i: nat, q: Questions)
    requires i in g.rejected
  {
    && i < |q| && Settled(g, Agent(i, 0))
    && !Exact(g.native[Agent(i, 0)].answer, q[i]) && g.rejected[i] == g.native[Agent(i, 0)].session
  }

  /** The answers of a transcript are the booleans `value`, question by question. */
  ghost predicate Says(t: Transcript, value: map<string, bool>) {
    && t.answer.Some? && t.answer.value.Keys == value.Keys
    && forall id :: id in value ==> t.answer.value[id] == Boolean(value[id])
  }

  lemma BooleansAreTheAnswer(t: Transcript)
    requires t.answer.Some? && forall id :: id in t.answer.value ==> t.answer.value[id].Boolean?
    ensures Says(t, Booleans(t.answer.value))
  {
  }

  /** An accepted batch: its answer is that of the settled transcript of its current attempt. */
  ghost predicate Accepted(g: Ledgers, i: nat, q: Questions)
    requires i in g.audits
  {
    var agent := Agent(i, AttemptOf(g, i));
    && i < |q| && Settled(g, agent) && Exact(g.native[agent].answer, q[i])
    && Says(g.native[agent], g.audits[i].value) && g.audits[i].session == g.native[agent].session
    && (i in g.rejected ==> g.rejected[i] != g.audits[i].session)
  }

  ghost predicate Inv(g: Ledgers, q: Questions) {
    (forall i :: i in g.rejected ==> Retried(g, i, q)) && forall i :: i in g.audits ==> Accepted(g, i, q)
  }

  ghost predicate SubMap<K, V>(m: map<K, V>, m': map<K, V>) { forall k :: k in m ==> k in m' && m'[k] == m[k] }

  ghost predicate SameSettled(m: map<Agent, Transcript>, m': map<Agent, Transcript>) {
    forall a :: a in m && m[a].settled ==> a in m' && m'[a] == m[a]
  }

  /** What was settled, rejected or accepted before is so after. */
  ghost predicate Extends(g: Ledgers, g': Ledgers) {
    && SameSettled(g.native, g'.native) && SubMap(g.rejected, g'.rejected) && SubMap(g.audits, g'.audits)
    && (g.violated ==> g'.violated)
  }

  lemma InvExtends(g: Ledgers, g': Ledgers, q: Questions)
    requires Inv(g, q) && Extends(g, g')
    requires forall i :: i in g'.rejected && i !in g.rejected ==> Retried(g', i, q)
    requires forall i :: i in g'.audits && i !in g.audits ==> Accepted(g', i, q)
    requires forall i :: i in g.audits && i in g'.rejected ==> i in g.rejected
    ensures Inv(g', q)
  {
    forall i | i in g'.rejected
      ensures Retried(g', i, q)
    {
      if i in g.rejected {
        assert Retried(g, i, q);
      }
    }
    forall i | i in g'.audits
      ensures Accepted(g', i, q)
    {
      if i in g.audits {
        assert Accepted(g, i, q);
      }
    }
  }

  lemma RetryKeeps(g: Ledgers, i: nat, bound: bool, q: Questions)
    requires Inv(g, q)
    ensures Inv(RetryStep(g, i, bound, q), q) && Extends(g, RetryStep(g, i, bound, q))
  {
    InvExtends(g, RetryStep(g, i, bound, q), q);
  }

  lemma CollectKeeps(g: Ledgers, i: nat, bound: bool, q: Questions)
    requires Inv(g, q)
    ensures var c := CollectStep(g, i, bound, q);
            Inv(c.files, q) && Extends(g, c.files)
            && (c.answer.Some? ==> i in c.files.audits && c.files.audits[i] == c.answer.value)
  {
    var c := CollectStep(g, i, bound, q);
    if c.answer.Some? && i !in g.audits {
      NewlyAccepted(g, c.files, i, c.answer.value, q);
    }
    InvExtends(g, c.files, q);
  }

  lemma NewlyAccepted(g: Ledgers, g': Ledgers, i: nat, a: Answered, q: Questions)
    requires i < |q| && Inspect(g, Agent(i, AttemptOf(g, i))).Fine?
    requires var t := g.native[Agent(i, AttemptOf(g, i))];
             Exact(t.answer, q[i]) && a == Answered(Booleans(t.answer.value), t.session)
    requires AttemptOf(g, i) != 0 ==> g.rejected[i] != a.session
    requires g' == g.(audits := g.audits[i := a])
    ensures Accepted(g', i, q) && Extends(g, g') == (i !in g.audits || g.audits[i] == a)
  {
    BooleansAreTheAnswer(g.native[Agent(i, AttemptOf(g, i))]);
  }

  lemma GrowKeeps(g: Ledgers, agent: Agent, t: Transcript, q: Questions)
    requires Inv(g, q)
    ensures Inv(GrowStep(g, agent, t), q) && Extends(g, GrowStep(g, agent, t))
  {
    InvExtends(g, GrowStep(g, agent, t), q);
  }

  /** The batches before `i` are accepted from different sessions, and `verdicts` joins their answers. */
  ghost predicate Gathered(g: Ledgers, i: nat, verdicts: map<string, bool>, sessions: set<string>, q: Questions) {
    && i <= |q|
    && (forall j :: 0 <= j < i ==> j in g.audits && g.audits[j].session in sessions)
    && (forall j :: 0 <= j < i ==> g.audits[j].value.Keys == q[j] && SubMap(g.audits[j].value, verdicts))
    && (forall j, k :: 0 <= j < k < i ==> g.audits[j].session != g.audits[k].session)
    && (forall j, k :: 0 <= j < k < i ==> q[j] * q[k] == {})
  }

  lemma GatheredExtends(g: Ledgers, g': Ledgers, i: nat, verdicts: map<string, bool>, sessions: set<string>,
                        q: Questions)
    requires Gathered(g, i, verdicts, sessions, q) && Extends(g, g')
    ensures Gathered(g', i, verdicts, sessions, q)
  {
    assert forall j :: 0 <= j < i ==> j in g'.audits && g'.audits[j] == g.audits[j];
  }

  lemma GatherOne(g: Ledgers, i: nat, verdicts: map<string, bool>, sessions: set<string>, a: Answered, q: Questions)
    requires Gathered(g, i, verdicts, sessions, q) && i < |q|
    requires i in g.audits && g.audits[i] == a && a.value.Keys == q[i]
    requires a.session !in sessions && verdicts.Keys * a.value.Keys == {}
    ensures Gathered(g, i + 1, verdicts + a.value, sessions + {a.session}, q)
  {
    forall j | 0 <= j < i
      ensures q[j] * q[i] == {} && SubMap(g.audits[j].value, verdicts + a.value)
    {
      MergeKeeps(g.audits[j].value, verdicts, a.value);
    }
  }

  lemma MergeKeeps(part: map<string, bool>, verdicts: map<string, bool>, more: map<string, bool>)
    requires SubMap(part, verdicts) && verdicts.Keys * more.Keys == {}
    ensures SubMap(part, verdicts + more) && part.Keys * more.Keys == {}
  {
    forall id | id in part
      ensures id in verdicts && id !in more
    {
      assert id !in verdicts.Keys * more.Keys;
    }
  }

  /** One accepted batch of `combine`. */
  lemma CollectGathers(g: Ledgers, i: nat, verdicts: map<string, bool>, sessions: set<string>, bound: bool,
                       q: Questions)
    requires i < |q| && Inv(g, q) && Gathered(g, i, verdicts, sessions, q)
    requires var c := CollectStep(g, i, bound, q);
             c.answer.Some? && c.answer.value.session !in sessions && verdicts.Keys * c.answer.value.value.Keys == {}
    ensures var c := CollectStep(g, i, bound, q);
            var a := c.answer.value;
            Gathered(c.files, i + 1, verdicts + a.value, sessions + {a.session}, q)
  {
    var c := CollectStep(g, i, bound, q);
    CollectKeeps(g, i, bound, q);
    assert Accepted(c.files, i, q);
    GatheredExtends(g, c.files, i, verdicts, sessions, q);
    GatherOne(c.files, i, verdicts, sessions, c.answer.value, q);
  }

  /** What a combine that started from `g` leaves behind. */
  ghost predicate Kept(g: Ledgers, c: Combined, q: Questions) { Inv(c.files, q) && Extends(g, c.files) && Judged(c, q) }

  lemma {:induction false} CombineKeeps(g: Ledgers, i: nat, verdicts: map<string, bool>, sessions: set<string>,
                                        bound: nat -> bool, q: Questions)
    requires i <= |q| && Inv(g, q) && Gathered(g, i, verdicts, sessions, q)
    ensures Kept(g, CombineFrom(g, i, verdicts, sessions, bound, q), q)
    decreases |q| - i
  {
    if i == |q| {
      AllGathered(g, verdicts, sessions, bound, q);
    } else {
      var c := CollectStep(g, i, bound(i), q);
      var done := CombineFrom(g, i, verdicts, sessions, bound, q);
      CollectKeeps(g, i, bound(i), q);
      if c.answer.Some? && c.answer.value.session !in sessions && verdicts.Keys * c.answer.value.value.Keys == {} {
        var a := c.answer.value;
        CollectGathers(g, i, verdicts, sessions, bound(i), q);
        CombineKeeps(c.files, i + 1, verdicts + a.value, sessions + {a.session}, bound, q);
        assert done == CombineFrom(c.files, i + 1, verdicts + a.value, sessions + {a.session}, bound, q);
      } else {
        assert done == Combined(c.files, None);
      }
    }
  }

  lemma AllGathered(g: Ledgers, verdicts: map<string, bool>, sessions: set<string>, bound: nat -> bool, q: Questions)
    requires Inv(g, q) && Gathered(g, |q|, verdicts, sessions, q)
    ensures var c := CombineFrom(g, |q|, verdicts, sessions, bound, q);
            Inv(c.files, q) && Extends(g, c.files) && Judged(c, q)
  {
    if verdicts.Keys == AllQuestions(q) {
      VerdictsWritten(g, verdicts, sessions, q);
    }
  }

  lemma VerdictsWritten(g: Ledgers, verdicts: map<string, bool>, sessions: set<string>, q: Questions)
    requires Inv(g, q) && Gathered(g, |q|, verdicts, sessions, q)
    ensures var g' := g.(verdicts := Some(verdicts));
            Inv(g', q) && Extends(g, g') && Gathered(g', |q|, verdicts, sessions, q)
  {
    var g' := g.(verdicts := Some(verdicts));
    InvExtends(g, g', q);
    GatheredExtends(g, g', |q|, verdicts, sessions, q);
  }

  /** A combine that succeeds has gathered every batch. */
  ghost predicate Judged(c: Combined, q: Questions) {
    c.verdicts.Some? ==>
      && c.verdicts.value.Keys == AllQuestions(q)
      && exists sessions :: Gathered(c.files, |q|, c.verdicts.value, sessions, q)
  }

  lemma StepKeeps(g: Ledgers, e: Event, q: Questions)
    requires Inv(g, q)
    ensures Inv(Step(g, e, q), q) && Extends(g, Step(g, e, q))
  {
    match e
    case Retry(i, bound) => RetryKeeps(g, i, bound, q);
    case Collect(i, bound) => CollectKeeps(g, i, bound, q);
    case Combine(bound) => CombineKeeps(g, 0, map[], {}, bound, q);
    case Grow(agent, t) => GrowKeeps(g, agent, t, q);
  }

  /** Over every run of commands and growing transcripts: the ledgers stay sound, and what is settled, rejected
      or accepted once is never changed. */
  lemma {:induction false} NothingIsReplaced(g: Ledgers, events: seq<Event>, q: Questions)
    requires Inv(g, q)
    ensures Inv(RunAll(g, events, q), q) && Extends(g, RunAll(g, events, q))
    decreases |events|
  {
    if events != [] {
      StepKeeps(g, events[0], q);
      NothingIsReplaced(Step(g, events[0], q), events[1..], q);
    }
  }

  /** A settled first transcript that holds an exact answer can never be replaced: the batch is never retried,
      and if it is ever accepted, then with that answer. */
  lemma FirstExactAnswerIsFinal(g: Ledgers, i: nat, events: seq<Event>, q: Questions)
    requires Inv(g, q) && i < |q|
    requires Agent(i, 0) in g.native && g.native[Agent(i, 0)].settled && Exact(g.native[Agent(i, 0)].answer, q[i])
    ensures var g' := RunAll(g, events, q);
            && i !in g'.rejected
            && (i in g'.audits ==> g'.audits[i].value.Keys == q[i] && Says(g.native[Agent(i, 0)], g'.audits[i].value))
  {
    NothingIsReplaced(g, events, q);
    assert i in RunAll(g, events, q).audits ==> Accepted(RunAll(g, events, q), i, q);
  }

  /** A batch is retried at most once, only after a settled first answer that was not exact, and what is then
      accepted is the second answer, from another session. */
  lemma RetriedOnceFromAnotherSession(events: seq<Event>, i: nat, q: Questions)
    requires i in RunAll(Fresh(), events, q).rejected
    ensures var g := RunAll(Fresh(), events, q);
            && i < |q| && Settled(g, Agent(i, 0)) && !Exact(g.native[Agent(i, 0)].answer, q[i])
            && RetryStep(g, i, true, q) == g
            && (i in g.audits ==>
                  && Settled(g, Agent(i, 1)) && Exact(g.native[Agent(i, 1)].answer, q[i])
                  && g.audits[i].value.Keys == q[i] && Says(g.native[Agent(i, 1)], g.audits[i].value)
                  && g.audits[i].session == g.native[Agent(i, 1)].session != g.native[Agent(i, 0)].session)
  {
    var g := RunAll(Fresh(), events, q);
    NothingIsReplaced(Fresh(), events, q);
    assert Retried(g, i, q);
    if i in g.audits {
      assert Accepted(g, i, q);
    }
  }

  /** A successful combine gives every question exactly one boolean, that of its batch's accepted answer, and
      takes every batch from a session of its own. */
  lemma CombinedVerdicts(g: Ledgers, bound: nat -> bool, q: Questions)
    requires Inv(g, q) && CombineFrom(g, 0, map[], {}, bound, q).verdicts.Some?
    ensures var c := CombineFrom(g, 0, map[], {}, bound, q);
            && c.verdicts.value.Keys == AllQuestions(q)
            && (forall j :: 0 <= j < |q| ==> j in c.files.audits && Accepted(c.files, j, q))
            && (forall j :: 0 <= j < |q| ==> SubMap(c.files.audits[j].value, c.verdicts.value))
            && (forall j, k :: 0 <= j < k < |q| ==> c.files.audits[j].session != c.files.audits[k].session)
            && (forall j, k :: 0 <= j < k < |q| ==> q[j] * q[k] == {})
  {
    CombineKeeps(g, 0, map[], {}, bound, q);
  }

  lemma {:induction false} QuestionHasBatch(q: Questions, id: string) returns (j: nat)
    requires id in AllQuestions(q)
    ensures j < |q| && id in q[j]
    decreases |q|
  {
    if id in q[0] {
      j := 0;
    } else {
      j := QuestionHasBatch(q[1..], id);
      j := j + 1;
    }
  }

  /** When a batch is collected, and with what: the transcript of its current attempt is settled, complete, pinned, of
      the right lineage, read its capsule and did nothing else, and gives a boolean to exactly the batch's questions;
      its session is not the rejected one; and what was accepted before is the same, or else the dispatch matches. The
      answer is then the very booleans of the transcript. Only a foreign tool call is remembered otherwise. */
  lemma CollectIsExact(g: Ledgers, i: nat, bound: bool, q: Questions)
    ensures var c, agent := CollectStep(g, i, bound, q), Agent(i, if i in g.rejected then 1 else 0);
            if g.violated || i >= |q| || agent !in g.native then c == Collected(g, None)
            else
              var t := g.native[agent];
              && (c.answer.Some? <==> Collectable(g, t, i, bound, q[i]))
              && (c.answer.Some? ==> Says(t, c.answer.value.value) && c.answer.value.session == t.session)
              && c.files == g.(violated := t.calls.Violating?,
                               audits := if c.answer.Some? then g.audits[i := c.answer.value] else g.audits)
  {
    var c, agent := CollectStep(g, i, bound, q), Agent(i, AttemptOf(g, i));
    if agent in g.native && i < |q| {
      ExactIsAnswersAll(g.native[agent], q[i]);
    }
    if !g.violated && i < |q| && agent in g.native && Exact(g.native[agent].answer, q[i]) {
      BooleansAreTheAnswer(g.native[agent]);
      if i in g.audits && Says(g.native[agent], g.audits[i].value) {
        SameBooleans(g.native[agent], g.audits[i].value);
      }
      if i in g.audits && c.answer.Some? {
        assert g.audits[i := c.answer.value] == g.audits;
      }
    }
  }

  /** Transcript `t` can be collected for batch `i`, whose questions are `ids`. */
  ghost predicate Collectable(g: Ledgers, t: Transcript, i: nat, bound: bool, ids: set<string>) {
    && ReadItsCapsule(t) && AnswersAll(t, ids) && (i in g.rejected ==> g.rejected[i] != t.session)
    && if i in g.audits then g.audits[i].session == t.session && Says(t, g.audits[i].value) else bound
  }

  /** A finished transcript of the pinned model and lineage that read its capsule and did nothing else. */
  predicate ReadItsCapsule(t: Transcript) {
    t.calls == AssignedRead && t.settled && t.completed && t.pinned && t.lineage
  }

  /** A boolean for exactly the questions `ids`. */
  predicate AnswersAll(t: Transcript, ids: set<string>) {
    && t.answer.Some? && t.answer.value.Keys == ids
    && forall id :: id in ids ==> t.answer.value[id] in {Boolean(true), Boolean(false)}
  }

  lemma SameBooleans(t: Transcript, value: map<string, bool>)
    requires Says(t, value)
    ensures value == Booleans(t.answer.value)
  {
  }

  /** When a batch is retried: it was neither retried nor accepted, and its first transcript would be collected but
      for its answer, which does not give a boolean to exactly the batch's questions. */
  lemma RetryIsExact(g: Ledgers, i: nat, bound: bool, q: Questions)
    ensures var g', agent := RetryStep(g, i, bound, q), Agent(i, 0);
            if g.violated || i >= |q| || i in g.rejected || i in g.audits || agent !in g.native then g' == g
            else
              var t := g.native[agent];
              && (i in g'.rejected <==> ReadItsCapsule(t) && bound && !AnswersAll(t, q[i]))
              && g' == g.(violated := t.calls.Violating?,
                          rejected := if i in g'.rejected then g.rejected[i := t.session] else g.rejected)
  {
    if Agent(i, 0) in g.native && i < |q| {
      ExactIsAnswersAll(g.native[Agent(i, 0)], q[i]);
    }
  }

  lemma ExactIsAnswersAll(t: Transcript, ids: set<string>)
    ensures Exact(t.answer, ids) <==> AnswersAll(t, ids)
  {
    if t.answer.Some? {
      assert forall v: Value :: v.Boolean? <==> v in {Boolean(true), Boolean(false)} by {
        forall v: Value
          ensures v.Boolean? <==> v in {Boolean(true), Boolean(false)}
        {
          assert v.Boolean? ==> v == Boolean(v.b);
        }
      }
    }
  }

  /** The verdict of every question is the boolean that the native transcript of its batch gives it. */
  lemma VerdictsAreTheAnswers(g: Ledgers, bound: nat -> bool, q: Questions, j: nat, id: string)
    requires Inv(g, q) && CombineFrom(g, 0, map[], {}, bound, q).verdicts.Some? && j < |q| && id in q[j]
    ensures var c := CombineFrom(g, 0, map[], {}, bound, q);
            var agent := Agent(j, if j in c.files.rejected then 1 else 0);
            && id in c.verdicts.value && agent in c.files.native && c.files.native[agent].settled
            && c.files.native[agent].answer.Some? && id in c.files.native[agent].answer.value
            && c.files.native[agent].answer.value[id] == Boolean(c.verdicts.value[id])
  {
    CombinedVerdicts(g, bound, q);
    var c := CombineFrom(g, 0, map[], {}, bound, q);
    assert Accepted(c.files, j, q) && SubMap(c.files.audits[j].value, c.verdicts.value);
    assert id in c.files.audits[j].value;
  }

  /** The batches from `i` on can be combined: each can be collected, from a session that is neither in `sessions` nor
      that of another, and no question of one is in `asked` or in another. */
  ghost predicate Combinable(g: Ledgers, i: nat, asked: set<string>, sessions: set<string>, bound: nat -> bool,
                             q: Questions)
  {
    && (forall j :: i <= j < |q| ==> Joins(g, j, asked, sessions, bound, q))
    && (forall j, k :: i <= j < k < |q| ==> SessionOf(g, j) != SessionOf(g, k))
    && (forall j, k :: i <= j < k < |q| ==> q[j] * q[k] == {})
  }

  ghost predicate Joins(g: Ledgers, j: nat, asked: set<string>, sessions: set<string>, bound: nat -> bool,
                        q: Questions)
    requires j < |q|
  {
    CollectStep(g, j, bound(j), q).answer.Some? && SessionOf(g, j) !in sessions && asked * q[j] == {}
  }

  /** The session of the current attempt. */
  function SessionOf(g: Ledgers, j: nat): string {
    var agent := Agent(j, AttemptOf(g, j));
    if agent in g.native then g.native[agent].session else ""
  }

  /** Collecting one batch does not change how another is collected. */
  lemma CollectElsewhere(g: Ledgers, g': Ledgers, j: nat, bound: bool, q: Questions)
    requires g'.native == g.native && g'.rejected == g.rejected && g'.violated == g.violated
    requires (j in g'.audits <==> j in g.audits) && (j in g.audits ==> g'.audits[j] == g.audits[j])
    ensures CollectStep(g', j, bound, q).answer == CollectStep(g, j, bound, q).answer
    ensures SessionOf(g', j) == SessionOf(g, j)
  {
  }

  lemma {:induction false} OneBatchMore(q: Questions, i: nat)
    requires i < |q|
    ensures AllQuestions(q[..i + 1]) == AllQuestions(q[..i]) + q[i]
    decreases i
  {
    if i > 0 {
      assert q[..i + 1][1..] == q[1..][..i] && q[..i][1..] == q[1..][..i - 1];
      OneBatchMore(q[1..], i - 1);
    } else {
      assert q[..1][1..] == [] && q[..1][0] == q[0];
    }
  }

  lemma CollectedShape(g: Ledgers, i: nat, bound: bool, q: Questions)
    requires CollectStep(g, i, bound, q).answer.Some?
    ensures var c := CollectStep(g, i, bound, q);
            && i < |q| && c.answer.value.value.Keys == q[i] && c.answer.value.session == SessionOf(g, i)
            && c.files.native == g.native && c.files.rejected == g.rejected && c.files.violated == g.violated
            && forall j :: j != i ==> (j in c.files.audits <==> j in g.audits)
                                      && (j in g.audits ==> c.files.audits[j] == g.audits[j])
  {
    assert !g.violated && Agent(i, AttemptOf(g, i)) in g.native;
    CollectIsExact(g, i, bound, q);
  }

  lemma {:induction false} CombineFromIsExact(g: Ledgers, i: nat, verdicts: map<string, bool>, sessions: set<string>,
                                              bound: nat -> bool, q: Questions)
    requires i <= |q| && verdicts.Keys == AllQuestions(q[..i])
    ensures CombineFrom(g, i, verdicts, sessions, bound, q).verdicts.Some?
            <==> Combinable(g, i, verdicts.Keys, sessions, bound, q)
    decreases |q| - i
  {
    if i == |q| {
      assert q[..i] == q;
    } else {
      var c := CollectStep(g, i, bound(i), q);
      assert Combinable(g, i, verdicts.Keys, sessions, bound, q) ==> Joins(g, i, verdicts.Keys, sessions, bound, q);
      if c.answer.Some? {
        var a := c.answer.value;
        CollectedShape(g, i, bound(i), q);
        OneBatchMore(q, i);
        if Joins(g, i, verdicts.Keys, sessions, bound, q) {
          CombineFromIsExact(c.files, i + 1, verdicts + a.value, sessions + {a.session}, bound, q);
          assert (verdicts + a.value).Keys == verdicts.Keys + q[i];
          CombinableAfter(g, c.files, i, verdicts.Keys, sessions, bound, q);
        }
      }
    }
  }

  lemma CombinableAfter(g: Ledgers, g': Ledgers, i: nat, asked: set<string>, sessions: set<string>,
                        bound: nat -> bool, q: Questions)
    requires i < |q| && Joins(g, i, asked, sessions, bound, q)
    requires g'.native == g.native && g'.rejected == g.rejected && g'.violated == g.violated
    requires forall j :: j != i ==> (j in g'.audits <==> j in g.audits)
                                    && (j in g.audits ==> g'.audits[j] == g.audits[j])
    ensures Combinable(g, i, asked, sessions, bound, q)
            <==> Combinable(g', i + 1, asked + q[i], sessions + {SessionOf(g, i)}, bound, q)
  {
    forall j | i < j < |q|
      ensures Joins(g', j, asked + q[i], sessions + {SessionOf(g, i)}, bound, q)
              <==> Joins(g, j, asked, sessions, bound, q) && SessionOf(g, j) != SessionOf(g, i) && q[i] * q[j] == {}
      ensures SessionOf(g', j) == SessionOf(g, j)
    {
      CollectElsewhere(g, g', j, bound(j), q);
      assert (asked + q[i]) * q[j] == asked * q[j] + q[i] * q[j];
    }
    if Combinable(g', i + 1, asked + q[i], sessions + {SessionOf(g, i)}, bound, q) {
      forall j | i <= j < |q|
        ensures Joins(g, j, asked, sessions, bound, q)
      {
        assert j > i ==> Joins(g', j, asked + q[i], sessions + {SessionOf(g, i)}, bound, q);
      }
      forall j, k | i <= j < k < |q|
        ensures SessionOf(g, j) != SessionOf(g, k) && q[j] * q[k] == {}
      {
        assert Joins(g', k, asked + q[i], sessions + {SessionOf(g, i)}, bound, q);
        assert SessionOf(g', k) == SessionOf(g, k);
        assert j > i ==> SessionOf(g', j) == SessionOf(g, j);
      }
    }
    if Combinable(g, i, asked, sessions, bound, q) {
      forall j | i + 1 <= j < |q|
        ensures Joins(g', j, asked + q[i], sessions + {SessionOf(g, i)}, bound, q)
      {
        assert Joins(g, j, asked, sessions, bound, q);
      }
    }
  }

  /** `combine` succeeds exactly when every batch can be collected, the sessions are all different and no question is
      in two batches. */
  lemma CombineIsExact(g: Ledgers, bound: nat -> bool, q: Questions)
    ensures CombineFrom(g, 0, map[], {}, bound, q).verdicts.Some?
            <==> && (forall j :: 0 <= j < |q| ==> CollectStep(g, j, bound(j), q).answer.Some?)
                 && (forall j, k :: 0 <= j < k < |q| ==> SessionOf(g, j) != SessionOf(g, k))
                 && (forall j, k :: 0 <= j < k < |q| ==> q[j] * q[k] == {})
  {
    assert q[..0] == [];
    CombineFromIsExact(g, 0, map[], {}, bound, q);
    forall j | 0 <= j < |q|
      ensures Joins(g, j, {}, {}, bound, q) <==> CollectStep(g, j, bound(j), q).answer.Some?
    {
    }
  }

  /** Verdicts cannot be re-rolled: whatever happens after a successful combine, every later one agrees. */
  lemma VerdictsNeverChange(g: Ledgers, bound: nat -> bool, events: seq<Event>, bound': nat -> bool, q: Questions)
    requires Inv(g, q) && CombineFrom(g, 0, map[], {}, bound, q).verdicts.Some?
    requires var g' := RunAll(CombineFrom(g, 0, map[], {}, bound, q).files, events, q);
             CombineFrom(g', 0, map[], {}, bound', q).verdicts.Some?
    ensures var c := CombineFrom(g, 0, map[], {}, bound, q);
            CombineFrom(RunAll(c.files, events, q), 0, map[], {}, bound', q).verdicts == c.verdicts
  {
    var c := CombineFrom(g, 0, map[], {}, bound, q);
    CombineKeeps(g, 0, map[], {}, bound, q);
    NothingIsReplaced(c.files, events, q);
    var g' := RunAll(c.files, events, q);
    var c' := CombineFrom(g', 0, map[], {}, bound', q);
    CombineKeeps(g', 0, map[], {}, bound', q);
    SameVerdicts(c, c', q);
  }

  lemma SameVerdicts(c: Combined, c': Combined, q: Questions)
    requires Judged(c, q) && Judged(c', q) && c.verdicts.Some? && c'.verdicts.Some?
    requires SubMap(c.files.audits, c'.files.audits)
    ensures c.verdicts == c'.verdicts
  {
    forall id | id in AllQuestions(q)
      ensures c.verdicts.value[id] == c'.verdicts.value[id]
    {
      var j := QuestionHasBatch(q, id);
      assert j in c.files.audits && c'.files.audits[j] == c.files.audits[j];
      assert id in c.files.audits[j].value;
      assert c.verdicts.value[id] == c.files.audits[j].value[id] == c'.verdicts.value[id];
    }
    assert c.verdicts.value == c'.verdicts.value;
  }

  // ---------------------------------------------------------------- the commands on the stored ledgers

  class Store {
    var files: Ledgers
    const questions: Questions

    constructor (questions: Questions)
      ensures files == Fresh() && this.questions == questions
    {
      files, this.questions := Fresh(), questions;
    }

    /** `retry`; `bound` says that the dispatch evidence of the first agent matches. */
    method Retry(i: nat, bound: bool)
      modifies this`files
      ensures files == RetryStep(old(files), i, bound, questions)
    {
      if files.violated || i >= |questions| || AttemptOf(files, i) != 0 || i in files.audits {
        return;
      }
      var agent := Agent(i, 0);
      var look := Inspect(files, agent);
      if look.Violation? {
        files := files.(violated := true);
        return;
      }
      if !look.Fine? || Exact(files.native[agent].answer, questions[i]) || !bound {
        return;
      }
      files := files.(rejected := files.rejected[i := files.native[agent].session]);
    }

    /** `collect`. */
    method Collect(i: nat, bound: bool) returns (answer: Option<Answered>)
      modifies this`files
      ensures Collected(files, answer) == CollectStep(old(files), i, bound, questions)
    {
      if files.violated || i >= |questions| {
        return None;
      }
      var agent := Agent(i, AttemptOf(files, i));
      var look := Inspect(files, agent);
      if look.Violation? {
        files := files.(violated := true);
        return None;
      }
      if !look.Fine? {
        return None;
      }
      var t, prior := files.native[agent], i in files.audits;
      if prior && files.audits[i].session != t.session {
        return None;
      }
      if AttemptOf(files, i) != 0 && files.rejected[i] == t.session {
        return None;
      }
      if !Exact(t.answer, questions[i]) {
        return None;
      }
      var value := Answered(Booleans(t.answer.value), t.session);
      if !prior {
        if !bound {
          return None;
        }
        files := files.(audits := files.audits[i := value]);
      } else if files.audits[i] != value {
        return None;
      }
      return Some(value);
    }

    /** `combine`. */
    method Combine(bound: nat -> bool) returns (verdicts: Option<map<string, bool>>)
      modifies this`files
      ensures old(files).violated ==> files == old(files) && verdicts.None?
      ensures !old(files).violated ==>
                Combined(files, verdicts) == CombineFrom(old(files), 0, map[], {}, bound, questions)
    {
      if files.violated {
        return None;
      }
      var joined: map<string, bool>, sessions: set<string> := map[], {};
      for i := 0 to |questions|
        invariant CombineFrom(old(files), 0, map[], {}, bound, questions)
                  == CombineFrom(files, i, joined, sessions, bound, questions)
      {
        var answer := Collect(i, bound(i));
        if answer.None? || answer.value.session in sessions || joined.Keys * answer.value.value.Keys != {} {
          return None;
        }
        sessions := sessions + {answer.value.session};
        joined := joined + answer.value.value;
      }
      if joined.Keys != AllQuestions(questions) {
        return None;
      }
      files := files.(verdicts := Some(joined));
      return Some(joined);
    }
  }
}
