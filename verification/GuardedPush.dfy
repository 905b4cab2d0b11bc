/** The guarded push of scripts/itd.py: a bounded push whose outcome may be ambiguous.

    A push that fails on the transport may have landed.  The protocol reads the exact remote ref before it
    dares a second push, and never starts anything in the last ten seconds of its budget.  The outcome of
    every push and read and the time everything takes are free: `Origin` draws them from `fates`. */
module GuardedPush {
  import opened Wrappers

  const TRANSPORT_RETRY_ATTEMPTS := 5
  const TRANSPORT_RETRY_BASE_SECONDS := 15
  const TRANSPORT_RETRY_MAX_SECONDS := 30
  const GUARDED_PUSH_ATTEMPTS := 2
  const GUARDED_PUSH_ATTEMPT_SECONDS := 120.0
  const GUARDED_PUSH_RECONCILIATION_SECONDS := 120.0
  const GRACE := 10.0

  /** A remote head; None when the ref does not exist. */
  type Head = Option<string>

  /** A gate error: a proven transport failure (the state may have applied), any other error a command
      reports, and the three errors the protocol itself raises. */
  datatype GateError =
    | Transport
    | Reported(reason: string)
    | BudgetExpired
    | Exhausted
    | RemoteChanged

  /** The errors a command can end with. */
  datatype CommandError = TransportFailure | OtherFailure(reason: string)

  function Raised(e: CommandError): GateError {
    match e case TransportFailure => Transport case OtherFailure(reason) => Reported(reason)
  }

  /** What happened, with the instant it started at.  `landed` says that a push moved the remote ref. */
  datatype Event =
    | Push(at: real, timeout: real, took: real, landed: bool, reply: Result<(), CommandError>)
    | Read(at: real, timeout: real, took: real, head: Result<Head, CommandError>)
    | Pause(at: real, seconds: real, took: real)
  {
    function End(): real { at + took }

    /** Started with more than the grace left, and given no more time than fits before it. */
    predicate Timely(deadline: real) {
      && GRACE < deadline - at
      && match this
         case Push(_, timeout, _, _, _) => timeout <= GUARDED_PUSH_ATTEMPT_SECONDS && timeout <= deadline - at - GRACE
         case Read(_, timeout, _, _) =>
           timeout <= GUARDED_PUSH_RECONCILIATION_SECONDS && timeout <= deadline - at - GRACE
         case Pause(_, seconds, _) => seconds <= TRANSPORT_RETRY_MAX_SECONDS as real && seconds <= deadline - at - GRACE
    }

    /** The child was stopped within ten seconds of its timeout; a pause took at most ten seconds longer than asked. */
    predicate Bounded() {
      match this
      case Push(_, timeout, took, _, _) => took <= timeout + GRACE
      case Read(_, timeout, took, _) => took <= timeout + GRACE
      case Pause(_, seconds, took) => took <= seconds + GRACE
    }

    /** The push was acknowledged, or the read returned `local`. */
    predicate Confirms(local: string) {
      (Push? && reply.Ok?) || (Read? && head == Ok(Some(local)))
    }
  }

  /** What the world does with one step. */
  datatype Fate = Fate(took: real, landed: bool, reply: Result<(), CommandError>, head: Result<Head, CommandError>)

  /** The remote, the clock and the log of what was done. */
  class Origin {
    var now: real
    var log: seq<Event>
    const fates: nat -> Fate

    constructor (now: real, fates: nat -> Fate)
      ensures this.now == now && log == [] && this.fates == fates
    {
      this.now, this.log, this.fates := now, [], fates;
    }

    /** The time the next step takes. */
    function Elapsed(): (t: real)
      reads this
      ensures 0.0 <= t
    {
      if fates(|log|).took < 0.0 then 0.0 else fates(|log|).took
    }

    /** `run(command, timeout=...)`; an acknowledged push has landed, any other may have. */
    method RunPush(timeout: real) returns (reply: Result<(), CommandError>)
      modifies this`now, this`log
      ensures var fate := fates(|old(log)|);
              && reply == fate.reply && now == old(now) + old(Elapsed())
              && log == old(log) + [Push(old(now), timeout, old(Elapsed()), fate.landed || reply.Ok?, reply)]
    {
      var fate, took := fates(|log|), Elapsed();
      reply := fate.reply;
      log, now := log + [Push(now, timeout, took, fate.landed || reply.Ok?, reply)], now + took;
    }

    /** `remote_branch_head(...)`. */
    method ReadHead(timeout: real) returns (head: Result<Head, CommandError>)
      modifies this`now, this`log
      ensures head == fates(|old(log)|).head && now == old(now) + old(Elapsed())
      ensures log == old(log) + [Read(old(now), timeout, old(Elapsed()), head)]
    {
      var took := Elapsed();
      head := fates(|log|).head;
      log, now := log + [Read(now, timeout, took, head)], now + took;
    }

    method Sleep(seconds: real)
      modifies this`now, this`log
      ensures log == old(log) + [Pause(old(now), seconds, old(Elapsed()))] && now == old(now) + old(Elapsed())
    {
      var took := Elapsed();
      log, now := log + [Pause(now, seconds, took)], now + took;
    }
  }

  // ---------------------------------------------------------------- delays and timeouts

  function Power2(n: nat): nat { if n == 0 then 1 else 2 * Power2(n - 1) }

  function Min(a: real, b: real): real { if a <= b then a else b }

  /** `retry_delay`. */
  function RetryDelay(attempt: nat): (delay: nat)
    requires attempt > 0
    ensures delay == if attempt == 1 then 15 else 30
  {
    var doubled := TRANSPORT_RETRY_BASE_SECONDS * Power2(attempt - 1);
    DoublingReachesTheCap(attempt - 1);
    if doubled < TRANSPORT_RETRY_MAX_SECONDS then doubled else TRANSPORT_RETRY_MAX_SECONDS
  }

  lemma DoublingReachesTheCap(n: nat)
    ensures Power2(n) >= 1 && (n > 0 ==> Power2(n) >= 2)
  {
  }

  /** `guarded_push_attempt_timeout`. */
  function AttemptTimeout(remaining: real): (r: Result<real, GateError>)
    ensures r.Ok? <==> GRACE < remaining
    ensures r.Ok? ==> 0.0 < r.value <= GUARDED_PUSH_ATTEMPT_SECONDS && r.value + GRACE <= remaining
    ensures r.Err? ==> r.error == BudgetExpired
  {
    if remaining <= GRACE then Err(BudgetExpired) else Ok(Min(GUARDED_PUSH_ATTEMPT_SECONDS, remaining - GRACE))
  }

  // ---------------------------------------------------------------- what a log must look like

  function Pushes(log: seq<Event>): nat {
    if log == [] then 0 else Pushes(log[..|log| - 1]) + if log[|log| - 1].Push? then 1 else 0
  }

  function Reads(log: seq<Event>): nat {
    if log == [] then 0 else Reads(log[..|log| - 1]) + if log[|log| - 1].Read? then 1 else 0
  }

  /** The position of the last event that is not a pause, or -1. */
  function LastContact(log: seq<Event>): (k: int)
    ensures -1 <= k < |log|
    ensures k >= 0 ==> !log[k].Pause?
    ensures forall m :: k < m < |log| ==> log[m].Pause?
  {
    if log == [] then -1 else if log[|log| - 1].Pause? then LastContact(log[..|log| - 1]) else |log| - 1
  }

  /** A push is the first contact with the remote, or the contact right before it was an exact read of
      `expected`. */
  ghost predicate MayPush(log: seq<Event>, expected: Head) {
    var k := LastContact(log);
    k == -1 || (log[k].Read? && log[k].head == Ok(expected))
  }

  /** The logs the protocol may leave behind at `now`: every event starts when the one before it ends, with
      more than the grace left and no more time than fits; a push is one that may be made; an acknowledged
      push has landed. */
  ghost predicate Allowed(log: seq<Event>, start: real, now: real, deadline: real, expected: Head)
    decreases |log|
  {
    if log == [] then now == start
    else
      var e, before := log[|log| - 1], log[..|log| - 1];
      && Allowed(before, start, e.at, deadline, expected)
      && e.Timely(deadline) && 0.0 <= e.took && now == e.End()
      && (e.Push? ==> MayPush(before, expected) && (e.reply.Ok? ==> e.landed))
  }

  // ---------------------------------------------------------------- what comes next

  /** What follows a log while more than the grace is left, or the answer that ends the call at once. */
  datatype Want = ToPush | ToRead | ToPause(delay: nat) | Done(answer: Result<(), GateError>)

  /** The reads since the last push. */
  function Round(log: seq<Event>): nat {
    if log == [] || log[|log| - 1].Push? then 0
    else Round(log[..|log| - 1]) + if log[|log| - 1].Read? then 1 else 0
  }

  function Awaited(log: seq<Event>, expected: Head, local: string): Want {
    if log == [] then ToPush
    else
      var before := log[..|log| - 1];
      match log[|log| - 1]
      case Push(_, _, _, _, Ok(_)) => Done(Ok(()))
      case Push(_, _, _, _, Err(OtherFailure(reason))) => Done(Err(Reported(reason)))
      case Push(_, _, _, _, Err(TransportFailure)) => ToRead
      case Read(_, _, _, Ok(head)) =>
        if head == Some(local) then Done(Ok(()))
        else if head != expected then Done(Err(RemoteChanged))
        else if Pushes(log) >= GUARDED_PUSH_ATTEMPTS then Done(Err(Exhausted))
        else ToPause(RetryDelay(1))
      case Read(_, _, _, Err(OtherFailure(reason))) => Done(Err(Reported(reason)))
      case Read(_, _, _, Err(TransportFailure)) =>
        if Round(log) >= TRANSPORT_RETRY_ATTEMPTS then Done(Err(Exhausted)) else ToPause(RetryDelay(Round(log)))
      case Pause(_, _, _) =>
        if before != [] && before[|before| - 1].Read? && before[|before| - 1].head.Ok? then ToPush else ToRead
  }

  predicate Late(now: real, deadline: real) { deadline - now <= GRACE }

  /** The event is the one that is wanted, started with more than the grace left, with all the time it may have. */
  predicate Suits(e: Event, want: Want, deadline: real) {
    && !Late(e.at, deadline)
    && match want
       case ToPush => e.Push? && e.timeout == Min(GUARDED_PUSH_ATTEMPT_SECONDS, deadline - e.at - GRACE)
       case ToRead => e.Read? && e.timeout == Min(GUARDED_PUSH_RECONCILIATION_SECONDS, deadline - e.at - GRACE)
       case ToPause(delay) => e.Pause? && e.seconds == Min(delay as real, deadline - e.at - GRACE)
       case Done(_) => false
  }

  /** The logs of the protocol: every event is the one its predecessors call for, and starts when the one before it
      ends; an acknowledged push has landed. */
  ghost predicate Scheduled(log: seq<Event>, start: real, now: real, deadline: real, expected: Head, local: string)
    decreases |log|
  {
    if log == [] then now == start
    else
      var e, before := log[|log| - 1], log[..|log| - 1];
      && Scheduled(before, start, e.at, deadline, expected, local)
      && Suits(e, Awaited(before, expected, local), deadline)
      && 0.0 <= e.took && now == e.End() && (e.Push? && e.reply.Ok? ==> e.landed)
  }

  /** The answer of a call that wants `want` and goes no further: at once, or because the grace is reached. */
  predicate Answers(want: Want, r: Result<(), GateError>, late: bool) {
    match want
    case Done(answer) => r == answer
    case ToPush => late && r == Err(BudgetExpired)
    case _ => late && r == Err(Exhausted)
  }

  /** A log of the protocol with its answer. */
  ghost predicate Call(log: seq<Event>, start: real, now: real, deadline: real, expected: Head, local: string,
                       r: Result<(), GateError>)
  {
    Scheduled(log, start, now, deadline, expected, local)
    && Answers(Awaited(log, expected, local), r, Late(now, deadline))
  }

  lemma ScheduledOne(log: seq<Event>, e: Event, start: real, deadline: real, expected: Head, local: string)
    requires Scheduled(log, start, e.at, deadline, expected, local) && Suits(e, Awaited(log, expected, local), deadline)
    requires 0.0 <= e.took && (e.Push? && e.reply.Ok? ==> e.landed)
    ensures Scheduled(log + [e], start, e.End(), deadline, expected, local)
    ensures Pushes(log + [e]) == Pushes(log) + (if e.Push? then 1 else 0)
    ensures Round(log + [e]) == if e.Push? then 0 else Round(log) + if e.Read? then 1 else 0
  {
    assert (log + [e])[..|log|] == log;
  }

  // ---------------------------------------------------------------- the protocol

  /** One attempted push, its timeout taken from the time left; Err when the budget has expired. */
  method PushOnce(origin: Origin, deadline: real, ghost start: real, ghost expected: Head, ghost local: string)
    returns (reply: Result<Result<(), CommandError>, GateError>)
    requires Scheduled(origin.log, start, origin.now, deadline, expected, local)
    requires Awaited(origin.log, expected, local) == ToPush
    modifies origin`now, origin`log
    ensures Scheduled(origin.log, start, origin.now, deadline, expected, local)
    ensures reply.Err? <==> Late(old(origin.now), deadline)
    ensures reply.Err? ==> reply.error == BudgetExpired
                           && origin.log == old(origin.log) && origin.now == old(origin.now)
    ensures reply.Ok? ==> Grown(old(origin.log), origin.log) && PushLast(origin.log, reply.value)
                          && Pushes(origin.log) == Pushes(old(origin.log)) + 1 && Round(origin.log) == 0
  {
    var timeout := AttemptTimeout(deadline - origin.now);
    if timeout.Err? {
      return Err(timeout.error);
    }
    ghost var log := origin.log;
    var answer := origin.RunPush(timeout.value);
    ScheduledOne(log, origin.log[|log|], start, deadline, expected, local);
    return Ok(answer);
  }

  /** One event more. */
  predicate Grown(before: seq<Event>, log: seq<Event>) { |log| == |before| + 1 && log[..|before|] == before }

  /** One read of the remote head; None when the budget has expired. */
  method ReadOnce(origin: Origin, deadline: real, ghost start: real, ghost expected: Head, ghost local: string)
    returns (head: Option<Result<Head, CommandError>>)
    requires Scheduled(origin.log, start, origin.now, deadline, expected, local)
    requires Awaited(origin.log, expected, local) == ToRead
    modifies origin`now, origin`log
    ensures Scheduled(origin.log, start, origin.now, deadline, expected, local)
    ensures head.None? <==> Late(old(origin.now), deadline)
    ensures head.None? ==> origin.log == old(origin.log) && origin.now == old(origin.now)
    ensures head.Some? ==> Grown(old(origin.log), origin.log) && ReadLast(origin.log, head.value)
                           && Pushes(origin.log) == Pushes(old(origin.log))
                           && Round(origin.log) == Round(old(origin.log)) + 1
  {
    var timeout := AttemptTimeout(deadline - origin.now);
    if timeout.Err? {
      return None;
    }
    ghost var log := origin.log;
    var answer := origin.ReadHead(Min(GUARDED_PUSH_RECONCILIATION_SECONDS, timeout.value));
    ScheduledOne(log, origin.log[|log|], start, deadline, expected, local);
    return Some(answer);
  }

  /** The pause after attempt `attempt`; false when the budget leaves no room for it. */
  method PauseOnce(origin: Origin, attempt: nat, deadline: real, ghost start: real, ghost expected: Head,
                   ghost local: string)
    returns (paused: bool)
    requires attempt > 0 && Scheduled(origin.log, start, origin.now, deadline, expected, local)
    requires Awaited(origin.log, expected, local) == ToPause(RetryDelay(attempt))
    modifies origin`now, origin`log
    ensures Scheduled(origin.log, start, origin.now, deadline, expected, local)
    ensures paused <==> !Late(old(origin.now), deadline)
    ensures !paused ==> origin.log == old(origin.log) && origin.now == old(origin.now)
    ensures paused ==> Grown(old(origin.log), origin.log) && origin.log[|origin.log| - 1].Pause?
                       && Pushes(origin.log) == Pushes(old(origin.log))
                       && Round(origin.log) == Round(old(origin.log))
  {
    var remaining := deadline - origin.now;
    if remaining <= GRACE {
      return false;
    }
    ghost var log := origin.log;
    origin.Sleep(Min(RetryDelay(attempt) as real, remaining - GRACE));
    ScheduledOne(log, origin.log[|log|], start, deadline, expected, local);
    return true;
  }

  predicate PushLast(log: seq<Event>, reply: Result<(), CommandError>) {
    log != [] && log[|log| - 1].Push? && log[|log| - 1].reply == reply
  }

  predicate ReadLast(log: seq<Event>, head: Result<Head, CommandError>) {
    log != [] && log[|log| - 1].Read? && log[|log| - 1].head == head
  }

  /** `guarded_push_reconciliation`: reads the remote head, at most five times, while the budget lasts. A head it
      answers was read last; an error is the answer of the call. */
  method Reconcile(origin: Origin, deadline: real, ghost start: real, ghost expected: Head, ghost local: string)
    returns (r: Result<Head, GateError>)
    requires Scheduled(origin.log, start, origin.now, deadline, expected, local)
    requires PushLast(origin.log, Err(TransportFailure)) && Round(origin.log) == 0
    modifies origin`now, origin`log
    ensures Scheduled(origin.log, start, origin.now, deadline, expected, local)
    ensures Pushes(origin.log) == Pushes(old(origin.log)) && Round(origin.log) <= 5
    ensures r.Ok? ==> ReadLast(origin.log, Ok(r.value))
    ensures r.Err? ==> Answers(Awaited(origin.log, expected, local), Err(r.error), Late(origin.now, deadline))
  {
    ghost var before := origin.log;
    for attempt := 1 to TRANSPORT_RETRY_ATTEMPTS + 1
      invariant Scheduled(origin.log, start, origin.now, deadline, expected, local)
      invariant Pushes(origin.log) == Pushes(before) && Round(origin.log) == attempt - 1
      invariant attempt <= TRANSPORT_RETRY_ATTEMPTS && Awaited(origin.log, expected, local) == ToRead
    {
      var observed := ReadOnce(origin, deadline, start, expected, local);
      if observed.None? {
        return Err(Exhausted);
      }
      if observed.value.Ok? {
        return Ok(observed.value.value);
      }
      if observed.value.error.OtherFailure? {
        return Err(Raised(observed.value.error));
      }
      if attempt == TRANSPORT_RETRY_ATTEMPTS {
        return Err(Exhausted);
      }
      ghost var last := origin.log;
      var paused := PauseOnce(origin, attempt, deadline, start, expected, local);
      if !paused {
        return Err(Exhausted);
      }
      assert origin.log[..|origin.log| - 1] == last;
    }
    return Err(Exhausted);
  }

  /** What a finished `guarded_push` says about the last thing that happened. */
  ghost predicate Explained(log: seq<Event>, r: Result<(), GateError>, expected: Head, local: string) {
    match r
    case Ok(_) => log != [] && log[|log| - 1].Confirms(local)
    case Err(RemoteChanged) =>
      log != [] && log[|log| - 1].Read? && log[|log| - 1].head.Ok?
      && log[|log| - 1].head.value != Some(local) && log[|log| - 1].head.value != expected
    case Err(Reported(reason)) => log != [] && Failed(log[|log| - 1], reason)
    case Err(BudgetExpired) => log == [] || log[|log| - 1].Pause?
    case Err(Exhausted) =>
      log != [] && (Undecided(log) || PushLast(log, Err(TransportFailure)) || ReadLast(log, Ok(expected)))
    case Err(Transport) => false
  }

  /** The log ends with a read lost on the transport or with a pause. */
  predicate Undecided(log: seq<Event>) {
    log != [] && (log[|log| - 1].Pause? || ReadLast(log, Err(TransportFailure)))
  }

  /** A contact that ended in an error other than a transport failure. */
  predicate Failed(e: Event, reason: string) {
    (e.Push? && e.reply == Err(OtherFailure(reason))) || (e.Read? && e.head == Err(OtherFailure(reason)))
  }

  /** `guarded_push`: every step is the one its predecessors call for, and the answer is the one that is due when no
      further step is. */
  method GuardedPush(origin: Origin, expected: Head, local: string, overallTimeout: int)
    returns (r: Result<(), GateError>)
    requires origin.log == []
    modifies origin`now, origin`log
    ensures Call(origin.log, old(origin.now), origin.now, old(origin.now) + overallTimeout as real, expected, local, r)
    ensures Allowed(origin.log, old(origin.now), origin.now, old(origin.now) + overallTimeout as real, expected)
    ensures Pushes(origin.log) <= 2 && Reads(origin.log) <= 10
    ensures Explained(origin.log, r, expected, local)
  {
    var deadline := origin.now + overallTimeout as real;
    ghost var start := origin.now;
    r := Attempts(origin, deadline, start, expected, local);
    ScheduledIsAllowed(origin.log, start, origin.now, deadline, expected, local);
    FewContacts(origin.log, start, origin.now, deadline, expected, local);
    AnswerIsExplained(origin.log, start, origin.now, deadline, expected, local, r);
  }

  /** The loop of `guarded_push`. */
  method Attempts(origin: Origin, deadline: real, ghost start: real, expected: Head, local: string)
    returns (r: Result<(), GateError>)
    requires origin.log == [] && start == origin.now
    modifies origin`now, origin`log
    ensures Scheduled(origin.log, start, origin.now, deadline, expected, local)
    ensures Answers(Awaited(origin.log, expected, local), r, Late(origin.now, deadline))
  {
    for attempt := 1 to GUARDED_PUSH_ATTEMPTS + 1
      invariant Scheduled(origin.log, start, origin.now, deadline, expected, local)
      invariant Pushes(origin.log) == attempt - 1
      invariant Awaited(origin.log, expected, local)
                == if attempt <= GUARDED_PUSH_ATTEMPTS then ToPush else Done(Err(Exhausted))
    {
      var attempted := PushOnce(origin, deadline, start, expected, local);
      if attempted.Err? {
        return Err(attempted.error);
      }
      var reply := attempted.value;
      if reply.Ok? {
        return Ok(());
      }
      if reply.error.OtherFailure? {
        return Err(Raised(reply.error));
      }
      var observed := Reconcile(origin, deadline, start, expected, local);
      if observed.Err? {
        return Err(observed.error);
      }
      if observed.value == Some(local) {
        return Ok(());
      }
      if observed.value != expected {
        return Err(RemoteChanged);
      }
      if attempt < GUARDED_PUSH_ATTEMPTS {
        ghost var last := origin.log;
        var paused := PauseOnce(origin, attempt, deadline, start, expected, local);
        if !paused {
          break;
        }
        assert origin.log[..|origin.log| - 1] == last;
      }
    }
    return Err(Exhausted);
  }

  // ---------------------------------------------------------------- the laws of a call

  /** After its first `n` events a call makes the step that is wanted, or it is at its end with its answer. */
  lemma {:induction false} NextStep(log: seq<Event>, n: nat, start: real, now: real, deadline: real, expected: Head,
                                    local: string, r: Result<(), GateError>) returns (at: real)
    requires Call(log, start, now, deadline, expected, local, r) && n <= |log|
    ensures Scheduled(log[..n], start, at, deadline, expected, local)
    ensures at == if n == 0 then start else log[n - 1].End()
    ensures var want := Awaited(log[..n], expected, local);
            if n < |log| then log[n].at == at && Suits(log[n], want, deadline)
            else at == now && Answers(want, r, Late(at, deadline))
  {
    assert log[..|log|] == log;
    at := if n == 0 then start else log[n - 1].End();
    if n < |log| {
      PrefixIsScheduled(log, n, start, now, deadline, expected, local);
    }
  }

  lemma {:induction false} PrefixIsScheduled(log: seq<Event>, n: nat, start: real, now: real, deadline: real,
                                             expected: Head, local: string)
    requires Scheduled(log, start, now, deadline, expected, local) && n < |log|
    ensures Scheduled(log[..n], start, log[n].at, deadline, expected, local)
    ensures Suits(log[n], Awaited(log[..n], expected, local), deadline)
    ensures log[n].at == if n == 0 then start else log[n - 1].End()
    decreases |log|
  {
    var m := |log| - 1;
    if n < m {
      PrefixIsScheduled(log[..m], n, start, log[m].at, deadline, expected, local);
      assert log[..m][..n] == log[..n];
    }
  }

  /** (a) A push lost on the transport is followed at once by a read of the ref, unless the grace is reached. */
  lemma LostPushIsRead(log: seq<Event>, k: nat, start: real, now: real, deadline: real, expected: Head, local: string,
                       r: Result<(), GateError>)
    requires Call(log, start, now, deadline, expected, local, r)
    requires k < |log| && log[k].Push? && log[k].reply == Err(TransportFailure)
    ensures if Late(log[k].End(), deadline) then k + 1 == |log| && r == Err(Exhausted)
            else k + 1 < |log| && log[k + 1].Read?
  {
    var at := NextStep(log, k + 1, start, now, deadline, expected, local, r);
  }

  /** (b) A read of the local head ends the call, which returns normally. */
  lemma ReadOfLocalReturns(log: seq<Event>, k: nat, start: real, now: real, deadline: real, expected: Head,
                           local: string, r: Result<(), GateError>)
    requires Call(log, start, now, deadline, expected, local, r)
    requires k < |log| && log[k].Read? && log[k].head == Ok(Some(local))
    ensures k + 1 == |log| && r == Ok(())
  {
    var at := NextStep(log, k + 1, start, now, deadline, expected, local, r);
  }

  /** (c) A read of the expected head after the first push is followed by a pause of fifteen seconds and by a second
      push, unless the grace is reached; after the second push it ends the call. */
  lemma ReadOfExpectedIsPushedAgain(log: seq<Event>, k: nat, start: real, now: real, deadline: real, expected: Head,
                                    local: string, r: Result<(), GateError>)
    requires Call(log, start, now, deadline, expected, local, r) && expected != Some(local)
    requires k < |log| && log[k].Read? && log[k].head == Ok(expected)
    ensures if Pushes(log[..k + 1]) >= 2 || Late(log[k].End(), deadline) then k + 1 == |log| && r == Err(Exhausted)
            else PausesFor(log, k + 1, 15.0, deadline)
                 && if Late(log[k + 1].End(), deadline) then k + 2 == |log| && r == Err(BudgetExpired)
                    else k + 2 < |log| && log[k + 2].Push?
  {
    var at := NextStep(log, k + 1, start, now, deadline, expected, local, r);
    if Pushes(log[..k + 1]) < 2 && !Late(log[k].End(), deadline) {
      var after := NextStep(log, k + 2, start, now, deadline, expected, local, r);
      assert log[..k + 2][..k + 1] == log[..k + 1];
    }
  }

  /** Event `k` is a pause of `seconds`, or of what is left before the grace. */
  predicate PausesFor(log: seq<Event>, k: nat, seconds: real, deadline: real) {
    k < |log| && log[k].Pause? && log[k].seconds == Min(seconds, deadline - log[k].at - GRACE)
  }

  /** (d) A read lost on the transport is followed by a pause, of fifteen seconds after the first one and thirty after
      the others, and by another read, unless the grace is reached or it was the fifth since the push. */
  lemma LostReadIsRepeated(log: seq<Event>, k: nat, start: real, now: real, deadline: real, expected: Head,
                           local: string, r: Result<(), GateError>)
    requires Call(log, start, now, deadline, expected, local, r)
    requires k < |log| && log[k].Read? && log[k].head == Err(TransportFailure)
    ensures if Round(log[..k + 1]) >= 5 || Late(log[k].End(), deadline) then k + 1 == |log| && r == Err(Exhausted)
            else PausesFor(log, k + 1, if Round(log[..k + 1]) == 1 then 15.0 else 30.0, deadline)
                 && if Late(log[k + 1].End(), deadline) then k + 2 == |log| && r == Err(Exhausted)
                    else k + 2 < |log| && log[k + 2].Read?
  {
    var at := NextStep(log, k + 1, start, now, deadline, expected, local, r);
    if Round(log[..k + 1]) < 5 && !Late(log[k].End(), deadline) {
      var after := NextStep(log, k + 2, start, now, deadline, expected, local, r);
      assert log[..k + 2][..k + 1] == log[..k + 1];
    }
  }

  /** Any other contact ends the call: an acknowledged push with a normal return, a foreign head with a refusal, and an
      error that is no transport failure with itself. */
  lemma OtherContactsEnd(log: seq<Event>, k: nat, start: real, now: real, deadline: real, expected: Head,
                         local: string, r: Result<(), GateError>)
    requires Call(log, start, now, deadline, expected, local, r) && k < |log|
    ensures log[k].Push? && log[k].reply.Ok? ==> k + 1 == |log| && r == Ok(())
    ensures log[k].Read? && log[k].head.Ok? && log[k].head.value != Some(local) && log[k].head.value != expected
            ==> k + 1 == |log| && r == Err(RemoteChanged)
    ensures forall reason :: Failed(log[k], reason) ==> k + 1 == |log| && r == Err(Reported(reason))
  {
    var at := NextStep(log, k + 1, start, now, deadline, expected, local, r);
  }

  /** A call begins with a push, unless the grace is reached before it. */
  lemma BeginsWithAPush(log: seq<Event>, start: real, now: real, deadline: real, expected: Head, local: string,
                        r: Result<(), GateError>)
    requires Call(log, start, now, deadline, expected, local, r)
    ensures if Late(start, deadline) then log == [] && r == Err(BudgetExpired) else log != [] && log[0].Push?
  {
    var at := NextStep(log, 0, start, now, deadline, expected, local, r);
  }

  /** The log ends with a pause after a read whose outcome `lost` tells. */
  predicate PauseAfterRead(log: seq<Event>, lost: bool) {
    && |log| >= 2 && log[|log| - 1].Pause? && log[|log| - 2].Read?
    && (if lost then log[|log| - 2].head == Err(TransportFailure) else log[|log| - 2].head.Ok?)
  }

  /** (e) The transport is given up exactly when the grace is reached with the outcome open, five reads after one push
      were lost, or the second push is followed by a read of the expected head. */
  lemma ExhaustedIsExact(log: seq<Event>, start: real, now: real, deadline: real, expected: Head, local: string,
                         r: Result<(), GateError>)
    requires Call(log, start, now, deadline, expected, local, r)
    ensures var unmoved := ReadLast(log, Ok(expected)) && expected != Some(local);
            var lost := ReadLast(log, Err(TransportFailure));
            r == Err(Exhausted)
            <==> || (Late(now, deadline)
                     && (PushLast(log, Err(TransportFailure)) || lost || unmoved || PauseAfterRead(log, true)))
                 || (lost && Round(log) == 5) || (unmoved && Pushes(log) == 2)
  {
    FewContacts(log, start, now, deadline, expected, local);
    if log != [] && log[|log| - 1].Pause? {
      PausesFollowReads(log, start, now, deadline, expected, local);
    }
  }

  /** The budget is reported expired exactly when a push was due and the grace was reached. */
  lemma BudgetExpiredIsExact(log: seq<Event>, start: real, now: real, deadline: real, expected: Head, local: string,
                             r: Result<(), GateError>)
    requires Call(log, start, now, deadline, expected, local, r)
    ensures r == Err(BudgetExpired) <==> Late(now, deadline) && (log == [] || PauseAfterRead(log, false))
  {
    if log != [] && log[|log| - 1].Pause? {
      PausesFollowReads(log, start, now, deadline, expected, local);
    }
  }

  /** A normal return is one whose last contact confirms the local head. */
  lemma ReturnIsExact(log: seq<Event>, start: real, now: real, deadline: real, expected: Head, local: string,
                      r: Result<(), GateError>)
    requires Call(log, start, now, deadline, expected, local, r)
    ensures r == Ok(()) <==> log != [] && log[|log| - 1].Confirms(local)
  {
  }

  /** A pause follows a read that was lost or that returned the expected head, before the last attempt. */
  lemma PausesFollowReads(log: seq<Event>, start: real, now: real, deadline: real, expected: Head, local: string)
    requires Scheduled(log, start, now, deadline, expected, local) && log != [] && log[|log| - 1].Pause?
    ensures PauseAfterRead(log, true) || (PauseAfterRead(log, false) && log[|log| - 2].head == Ok(expected))
  {
    var before := log[..|log| - 1];
    assert Awaited(before, expected, local).ToPause?;
  }

  lemma {:induction false} ScheduledIsAllowed(log: seq<Event>, start: real, now: real, deadline: real, expected: Head,
                                              local: string)
    requires Scheduled(log, start, now, deadline, expected, local)
    ensures Allowed(log, start, now, deadline, expected)
    decreases |log|
  {
    if log != [] {
      var e, before := log[|log| - 1], log[..|log| - 1];
      ScheduledIsAllowed(before, start, e.at, deadline, expected, local);
      if e.Push? && before != [] {
        assert before[|before| - 1].Pause?;
        PausesFollowReads(before, start, e.at, deadline, expected, local);
      }
    }
  }

  /** At most two pushes, and at most five reads after each. */
  lemma {:induction false} FewContacts(log: seq<Event>, start: real, now: real, deadline: real, expected: Head,
                                       local: string)
    requires Scheduled(log, start, now, deadline, expected, local)
    ensures Pushes(log) <= 2 && Round(log) <= 5 && Reads(log) <= 10
    ensures log != [] ==> Pushes(log) >= 1 && Reads(log) <= 5 * (Pushes(log) - 1) + Round(log)
    ensures log != [] && Awaited(log, expected, local) == ToPush ==> Pushes(log) == 1
    ensures log != [] && Awaited(log, expected, local) == ToRead ==> Round(log) < 5
    decreases |log|
  {
    if log != [] {
      var e, before := log[|log| - 1], log[..|log| - 1];
      FewContacts(before, start, e.at, deadline, expected, local);
      if e.Pause? {
        PausesFollowReads(log, start, now, deadline, expected, local);
      }
    }
  }

  lemma AnswerIsExplained(log: seq<Event>, start: real, now: real, deadline: real, expected: Head, local: string,
                          r: Result<(), GateError>)
    requires Call(log, start, now, deadline, expected, local, r)
    ensures Explained(log, r, expected, local)
  {
  }

  // ---------------------------------------------------------------- what the logs say

  /** Every event of a run starts with more than the grace left, and every push but the first contact comes
      right after an exact read of the expected head. */
  lemma {:induction false} EveryEventIsAllowed(log: seq<Event>, k: nat, start: real, now: real, deadline: real,
                                                expected: Head)
    requires Allowed(log, start, now, deadline, expected) && k < |log|
    ensures log[k].Timely(deadline) && log[k].at + GRACE < deadline && start <= log[k].at
    ensures log[k].Push? ==> MayPush(log[..k], expected) && (log[k].reply.Ok? ==> log[k].landed)
    ensures start <= log[k].End() <= now
    decreases |log|
  {
    var n := |log| - 1;
    if k < n {
      EveryEventIsAllowed(log[..n], k, start, log[n].at, deadline, expected);
      assert log[..n][..k] == log[..k];
    } else if n > 0 {
      EveryEventIsAllowed(log[..n], n - 1, start, log[n].at, deadline, expected);
    }
  }

  /** When every child ends within ten seconds of its timeout, and no pause overshoots by more, the call ends by its
      deadline. */
  lemma DeadlineKept(log: seq<Event>, start: real, now: real, deadline: real, expected: Head)
    requires Allowed(log, start, now, deadline, expected) && start <= deadline
    requires forall k :: 0 <= k < |log| ==> log[k].Bounded()
    ensures now <= deadline
  {
    if log != [] {
      EveryEventIsAllowed(log, |log| - 1, start, now, deadline, expected);
      assert log[|log| - 1].Bounded();
    }
  }

  /** The remote ref at event `n` when nobody else moves it: the local head once a push has landed. */
  ghost function RefAt(log: seq<Event>, n: nat, before: Head, local: string): Head
    requires n <= |log|
  {
    if exists k :: 0 <= k < n && log[k].Push? && log[k].landed then Some(local) else before
  }

  /** Nobody else moves the ref, and a read that succeeds returns what the ref is. */
  ghost predicate Undisturbed(log: seq<Event>, before: Head, local: string) {
    forall n :: 0 <= n < |log| && log[n].Read? && log[n].head.Ok? ==> log[n].head.value == RefAt(log, n, before, local)
  }

  /** However ambiguous the outcomes, the ref is never moved twice by one undisturbed call. */
  lemma LandsAtMostOnce(log: seq<Event>, start: real, now: real, deadline: real, expected: Head, local: string,
                        i: nat, j: nat)
    requires Allowed(log, start, now, deadline, expected) && Undisturbed(log, expected, local)
    requires expected != Some(local)
    requires i < j < |log| && log[i].Push? && log[j].Push?
    ensures !log[i].landed
  {
    EveryEventIsAllowed(log, j, start, now, deadline, expected);
    var k := LastContact(log[..j]);
    assert log[..j][i] == log[i] && !log[i].Pause?;
    assert k >= i && log[..j][k] == log[k];
    assert log[k].head == Ok(expected);
  }

  /** A call that returns normally without a disturbance has moved the ref, or found it moved before. */
  lemma ReturnMeansTheRefIsLocal(log: seq<Event>, start: real, now: real, deadline: real, expected: Head,
                                 local: string)
    requires Allowed(log, start, now, deadline, expected) && Undisturbed(log, expected, local)
    requires Explained(log, Ok(()), expected, local)
    ensures RefAt(log, |log|, expected, local) == Some(local)
  {
    var n := |log| - 1;
    EveryEventIsAllowed(log, n, start, now, deadline, expected);
    if log[n].Push? {
      assert log[n].landed;
    } else {
      assert RefAt(log, n, expected, local) == Some(local);
    }
  }
}
