/** The bounded capture of a child's output (scripts/itd_machine_oracle.py, `_capture_process`): two threads read
    stdout and stderr, digest what they read, and share one byte limit under a lock. */
module BoundedCapture {
  import opened Wrappers

  newtype byte = x: int | 0 <= x < 0x100

  type Bytes = seq<byte>

  const CHUNK: nat := 65536

  function Min(a: nat, b: nat): nat { if a < b then a else b }

  // ---------------------------------------------------------------- one interleaving of the two threads

  /** Where a reader stands: before a read, with a chunk it has not digested, with a chunk it has not counted, or
      gone: at the end of its stream, stopped by the limit, or dead of an exception of the read. */
  datatype Phase = Reading | Fetched(chunk: Bytes) | Hashed(chunk: Bytes) | AtEnd | Stopped | Failed {
    predicate Gone() { AtEnd? || Stopped? || Failed? }
  }

  /** A reader with its digest input and its capture. What its stream delivered (`read`) and what it counted
      (`counted`) are history the code does not keep. */
  datatype Reader = Reader(phase: Phase, digested: Bytes, capture: Bytes, read: Bytes, counted: Bytes)

  datatype Side = Stdout | Stderr

  function Other(side: Side): Side { if side == Stdout then Stderr else Stdout }

  datatype State = State(limit: nat, total: nat, overflow: bool, out: Reader, err: Reader) {
    function At(side: Side): Reader { if side == Stdout then out else err }

    function With(side: Side, r: Reader): State { if side == Stdout then this.(out := r) else this.(err := r) }
  }

  /** What can happen next: a stream delivers a chunk, ends or fails, or a thread digests or counts its chunk. */
  datatype Event = Deliver(side: Side, chunk: Bytes) | End(side: Side) | Fail(side: Side) | Digest(side: Side)
                 | Count(side: Side)

  predicate Enabled(s: State, e: Event) {
    match e
    case Deliver(side, chunk) => s.At(side).phase.Reading? && 0 < |chunk| <= CHUNK
    case End(side) => s.At(side).phase.Reading?
    case Fail(side) => s.At(side).phase.Reading?
    case Digest(side) => s.At(side).phase.Fetched?
    case Count(side) => s.At(side).phase.Hashed?
  }

  /** The locked part of a reader's round. */
  function Counted(s: State, side: Side, chunk: Bytes): State {
    var r := s.At(side);
    var remaining := if s.limit > s.total then s.limit - s.total else 0;
    var over := s.total + |chunk| > s.limit;
    s.With(side, r.(phase := if over then Stopped else Reading,
                    capture := r.capture + chunk[..Min(remaining, |chunk|)],
                    counted := r.counted + chunk))
     .(total := s.total + |chunk|, overflow := s.overflow || over)
  }

  /** An event that cannot happen in `s` changes nothing. */
  function Step(s: State, e: Event): State {
    var r := s.At(e.side);
    if !Enabled(s, e) then s
    else match e
      case Deliver(side, chunk) => s.With(side, r.(phase := Fetched(chunk), read := r.read + chunk))
      case End(side) => s.With(side, r.(phase := AtEnd))
      case Fail(side) => s.With(side, r.(phase := Failed))
      case Digest(side) =>
        s.With(side, r.(phase := Hashed(r.phase.chunk), digested := r.digested + r.phase.chunk))
      case Count(side) => Counted(s, side, r.phase.chunk)
  }

  function Fresh(): Reader { Reader(Reading, [], [], [], []) }

  function Start(limit: nat): State { State(limit, 0, false, Fresh(), Fresh()) }

  function Run(limit: nat, events: seq<Event>): State
    decreases |events|
  {
    if events == [] then Start(limit)
    else Step(Run(limit, events[..|events| - 1]), events[|events| - 1])
  }

  // ---------------------------------------------------------------- what every interleaving keeps

  /** A reader's books: it digests and counts what it reads in order, and captures a beginning of it. */
  predicate Kept(r: Reader) {
    && r.capture <= r.counted
    && match r.phase {
         case Fetched(chunk) => 0 < |chunk| <= CHUNK && r.read == r.counted + chunk && r.digested == r.counted
         case Hashed(chunk) => 0 < |chunk| <= CHUNK && r.read == r.counted + chunk && r.digested == r.read
         case _ => r.read == r.counted && r.digested == r.read
       }
  }

  function StoppedReaders(s: State): nat {
    (if s.out.phase.Stopped? then 1 else 0) + if s.err.phase.Stopped? then 1 else 0
  }

  /** The shared count: all that is counted, captured up to the limit, and past the limit by at most one chunk for
      each reader, which then is stopped. */
  predicate Shared(s: State) {
    && s.total == |s.out.counted| + |s.err.counted|
    && |s.out.capture| + |s.err.capture| == Min(s.total, s.limit)
    && (s.overflow <==> s.total > s.limit)
    && s.total <= s.limit + CHUNK * StoppedReaders(s)
    && (StoppedReaders(s) > 0 ==> s.overflow)
  }

  predicate Inv(s: State) { Kept(s.out) && Kept(s.err) && Shared(s) }

  lemma CountKeeps(s: State, side: Side)
    requires Inv(s) && s.At(side).phase.Hashed?
    ensures Inv(Counted(s, side, s.At(side).phase.chunk))
  {
    var r, other := s.At(side), s.At(Other(side));
    assert |r.capture| <= |r.counted| && |other.capture| <= |other.counted|;
    CountedReader(r, r.phase.chunk, if s.limit > s.total then s.limit - s.total else 0,
                  s.total + |r.phase.chunk| > s.limit);
  }

  /** The books of a reader that counts its chunk with `room` bytes left: below the limit, where every capture is
      complete, the capture grows by what there is room for. */
  lemma CountedReader(r: Reader, chunk: Bytes, room: nat, over: bool)
    requires Kept(r) && r.phase == Hashed(chunk) && (room > 0 ==> r.capture == r.counted)
    ensures Kept(r.(phase := if over then Stopped else Reading, capture := r.capture + chunk[..Min(room, |chunk|)],
                    counted := r.counted + chunk))
  {
    var capture, counted := r.capture + chunk[..Min(room, |chunk|)], r.counted + chunk;
    if room == 0 {
      assert capture == r.capture;
    }
    assert capture <= counted;
  }

  /** A reader that moves without counting anything. */
  lemma MoveKeeps(s: State, side: Side, r: Reader)
    requires Inv(s) && Kept(r) && !r.phase.Stopped? && !s.At(side).phase.Stopped?
    requires r.counted == s.At(side).counted && r.capture == s.At(side).capture
    ensures Inv(s.With(side, r))
  {
  }

  lemma StepKeeps(s: State, e: Event)
    requires Inv(s)
    ensures Inv(Step(s, e))
  {
    if Enabled(s, e) {
      var r := Step(s, e).At(e.side);
      match e
      case Deliver(side, _) => MoveKeeps(s, side, r);
      case End(side) => MoveKeeps(s, side, r);
      case Fail(side) => MoveKeeps(s, side, r);
      case Digest(side) => MoveKeeps(s, side, r);
      case Count(side) => CountKeeps(s, side);
    }
  }

  lemma {:induction false} EveryStateIsKept(limit: nat, events: seq<Event>)
    ensures Inv(Run(limit, events)) && Run(limit, events).limit == limit
    decreases |events|
  {
    if events != [] {
      EveryStateIsKept(limit, events[..|events| - 1]);
      StepKeeps(Run(limit, events[..|events| - 1]), events[|events| - 1]);
    }
  }

  lemma ReaderBounds(r: Reader)
    requires Kept(r)
    ensures r.capture <= r.read && |r.counted| <= |r.read|
    ensures |r.read| <= |r.counted| + (if r.phase.Stopped? then 0 else CHUNK)
  {
  }

  /** In every interleaving each capture is a beginning of what its stream delivered, together they hold as much of
      what was counted as the limit allows, and no schedule reads more than two chunks past the limit. */
  lemma CapturesAreBounded(limit: nat, events: seq<Event>)
    ensures var s := Run(limit, events);
            && s.out.capture <= s.out.read && s.err.capture <= s.err.read
            && |s.out.capture| + |s.err.capture| == Min(s.total, limit)
            && (s.overflow <==> s.total > limit)
            && s.total <= |s.out.read| + |s.err.read| <= limit + 2 * CHUNK
  {
    EveryStateIsKept(limit, events);
    ReaderBounds(Run(limit, events).out);
    ReaderBounds(Run(limit, events).err);
  }

  // ---------------------------------------------------------------- the shared state

  function Flatten(chunks: seq<Bytes>): Bytes { if chunks == [] then [] else chunks[0] + Flatten(chunks[1..]) }

  predicate IsChunk(chunk: Bytes) { 0 < |chunk| <= CHUNK }

  class Capture {
    var state: State

    constructor (limit: nat)
      ensures state == Start(limit) && Inv(state)
    {
      state := Start(limit);
    }

    /** A read: a chunk, or none at the end of the stream. */
    method Read(side: Side, chunk: Bytes)
      requires Inv(state) && state.At(side).phase.Reading? && |chunk| <= CHUNK
      modifies this
      ensures Inv(state) && state == Step(old(state), if chunk == [] then End(side) else Deliver(side, chunk))
    {
      var r := state.At(side);
      StepKeeps(state, if chunk == [] then End(side) else Deliver(side, chunk));
      if chunk == [] {
        state := state.With(side, r.(phase := AtEnd));
      } else {
        state := state.With(side, r.(phase := Fetched(chunk), read := r.read + chunk));
      }
    }

    /** The digest of the chunk, before the lock is taken. */
    method UpdateDigest(side: Side)
      requires Inv(state) && state.At(side).phase.Fetched?
      modifies this
      ensures Inv(state) && state == Step(old(state), Digest(side))
    {
      var r := state.At(side);
      StepKeeps(state, Digest(side));
      state := state.With(side, r.(phase := Hashed(r.phase.chunk), digested := r.digested + r.phase.chunk));
    }

    /** The locked part: count the chunk, capture what the limit leaves of it, and stop when the limit is passed. */
    method Commit(side: Side)
      requires Inv(state) && state.At(side).phase.Hashed?
      modifies this
      ensures Inv(state) && state == Step(old(state), Count(side))
    {
      ghost var before := state;
      CountKeeps(before, side);
      var r := state.At(side);
      var chunk := r.phase.chunk;
      var previous := state.total;
      state := state.(total := state.total + |chunk|);
      var remaining := if state.limit - previous > 0 then state.limit - previous else 0;
      var capture := r.capture;
      if remaining != 0 {
        capture := capture + chunk[..Min(remaining, |chunk|)];
      }
      var over := state.total > state.limit;
      if over {
        state := state.(overflow := true);
      }
      state := state.With(side, Reader(if over then Stopped else Reading, r.digested, capture, r.read,
                                       r.counted + chunk));
      assert capture == r.capture + chunk[..Min(remaining, |chunk|)];
      assert state == Counted(before, side, chunk);
    }

    /** One round of `consume`. */
    method Round(side: Side, chunk: Bytes)
      requires Inv(state) && state.At(side).phase.Reading? && IsChunk(chunk)
      modifies this
      ensures Inv(state) && Rounded(old(state), state, side, chunk)
    {
      RoundIs(state, side, chunk);
      Read(side, chunk);
      UpdateDigest(side);
      Commit(side);
    }

    /** `consume` of one thread while the other stands still: the loop reads, digests and counts until the stream ends
        or the limit is passed, and at the end the digest has all that was read. It reaches the end of the stream
        exactly when what was counted before and the whole stream stay within the limit. */
    method Consume(side: Side, chunks: seq<Bytes>)
      requires Inv(state) && state.At(side).phase.Reading? && state.total <= state.limit
      requires forall k :: 0 <= k < |chunks| ==> IsChunk(chunks[k])
      modifies this
      ensures Inv(state) && state.At(Other(side)) == old(state).At(Other(side)) && state.limit == old(state).limit
      ensures if old(state).total + |Flatten(chunks)| <= state.limit then
                state.At(side).phase.AtEnd? && state.At(side).read == old(state).At(side).read + Flatten(chunks)
              else state.At(side).phase.Stopped? && state.overflow
      ensures state.At(side).digested == state.At(side).read
    {
      ghost var before := state;
      var k := 0;
      while k < |chunks| && state.At(side).phase.Reading?
        invariant k <= |chunks|
        invariant Consumed(before, state, side, chunks, k)
      {
        ghost var last := state;
        Round(side, chunks[k]);
        ConsumedMore(before, last, state, side, chunks, k);
        k := k + 1;
      }
      assert chunks[..|chunks|] == chunks;
      if state.At(side).phase.Reading? {
        Read(side, []);
      } else {
        Shorter(chunks, k);
      }
    }
  }

  /** What one round makes of the state. */
  ghost predicate Rounded(before: State, s: State, side: Side, chunk: Bytes) {
    && s.limit == before.limit && s.At(Other(side)) == before.At(Other(side))
    && s.At(side).read == before.At(side).read + chunk && s.total == before.total + |chunk|
    && (if s.total <= s.limit then s.At(side).phase.Reading? else s.At(side).phase.Stopped?)
  }

  /** A read, its digest and its count make a round. */
  lemma RoundIs(s: State, side: Side, chunk: Bytes)
    requires Inv(s) && s.At(side).phase.Reading? && IsChunk(chunk)
    ensures var fetched := Step(s, Deliver(side, chunk));
            var hashed := Step(fetched, Digest(side));
            && fetched.At(side).phase.Fetched? && hashed.At(side).phase.Hashed?
            && Rounded(s, Step(hashed, Count(side)), side, chunk)
  {
    var r := s.At(side);
    var fetched := s.With(side, r.(phase := Fetched(chunk), read := r.read + chunk));
    var hashed := fetched.With(side, fetched.At(side).(phase := Hashed(chunk), digested := r.digested + chunk));
    assert Step(s, Deliver(side, chunk)) == fetched && Step(fetched, Digest(side)) == hashed;
    assert Step(hashed, Count(side)) == Counted(hashed, side, chunk);
  }

  lemma ConsumedMore(before: State, last: State, s: State, side: Side, chunks: seq<Bytes>, k: nat)
    requires k < |chunks| && Consumed(before, last, side, chunks, k)
    requires Inv(s) && Rounded(last, s, side, chunks[k])
    ensures Consumed(before, s, side, chunks, k + 1)
  {
    Taken(chunks, k);
    var read, taken := before.At(side).read, Flatten(chunks[..k]);
    assert (read + taken) + chunks[k] == read + (taken + chunks[k]);
  }

  /** The loop of `consume` after `k` chunks. */
  ghost predicate Consumed(before: State, s: State, side: Side, chunks: seq<Bytes>, k: nat)
    requires k <= |chunks|
  {
    var r, taken := s.At(side), Flatten(chunks[..k]);
    && Inv(s) && s.limit == before.limit && s.At(Other(side)) == before.At(Other(side))
    && r.read == before.At(side).read + taken && s.total == before.total + |taken|
    && (if s.total <= s.limit then r.phase.Reading? else r.phase.Stopped?)
  }

  lemma {:induction false} Taken(chunks: seq<Bytes>, k: nat)
    requires k < |chunks|
    ensures Flatten(chunks[..k + 1]) == Flatten(chunks[..k]) + chunks[k]
    decreases k
  {
    if k > 0 {
      assert chunks[..k + 1][1..] == chunks[1..][..k] && chunks[..k][1..] == chunks[1..][..k - 1];
      Taken(chunks[1..], k - 1);
      var taken := Flatten(chunks[1..][..k - 1]);
      assert chunks[0] + (taken + chunks[k]) == (chunks[0] + taken) + chunks[k];
    } else {
      assert chunks[..1][1..] == [];
    }
  }

  lemma {:induction false} Shorter(chunks: seq<Bytes>, k: nat)
    requires k <= |chunks|
    ensures |Flatten(chunks[..k])| <= |Flatten(chunks)|
    decreases k
  {
    if k > 0 {
      assert chunks[..k][1..] == chunks[1..][..k - 1];
      Shorter(chunks[1..], k - 1);
    }
  }

  // ---------------------------------------------------------------- the report

  /** What the caller gets when both threads have ended; a thread that is still alive is an error. */
  datatype Report = Report(overflow: bool, stdoutDigest: Bytes, stderrDigest: Bytes, stdout: Bytes, stderr: Bytes)

  function Reported(s: State): Option<Report> {
    if s.out.phase.Gone() && s.err.phase.Gone() then
      Some(Report(s.overflow, s.out.digested, s.err.digested, s.out.capture, s.err.capture))
    else None
  }

  /** A reported run without overflow has digested and captured all that was read, and it has both readers at the end
      of their streams exactly when neither died; with a dead one it may have read less than the streams hold. */
  lemma ReportWithoutOverflow(limit: nat, events: seq<Event>)
    requires Reported(Run(limit, events)).Some? && !Run(limit, events).overflow
    ensures var s := Run(limit, events);
            var r := Reported(s).value;
            && r.stdoutDigest == r.stdout == s.out.read && r.stderrDigest == r.stderr == s.err.read
            && (s.out.phase.AtEnd? && s.err.phase.AtEnd? <==> !s.out.phase.Failed? && !s.err.phase.Failed?)
  {
    EveryStateIsKept(limit, events);
    var s := Run(limit, events);
    assert |s.out.capture| <= |s.out.counted| && |s.err.capture| <= |s.err.counted|;
  }

  /** A reported run whose reads did not fail overflowed exactly when the streams delivered more than the limit,
      whatever the interleaving. */
  lemma ReportCoversTheStreams(limit: nat, events: seq<Event>)
    requires Reported(Run(limit, events)).Some?
    requires !Run(limit, events).out.phase.Failed? && !Run(limit, events).err.phase.Failed?
    ensures var s := Run(limit, events);
            var r := Reported(s).value;
            && (r.overflow <==> |s.out.read| + |s.err.read| > limit)
            && r.stdoutDigest == s.out.read && r.stderrDigest == s.err.read
            && (!r.overflow ==> s.out.phase.AtEnd? && s.err.phase.AtEnd? && r.stdout == s.out.read
                                && r.stderr == s.err.read)
  {
    EveryStateIsKept(limit, events);
    var s := Run(limit, events);
    if !s.overflow {
      ReportWithoutOverflow(limit, events);
    }
  }

  /** The event, with a stream that ends in place of a reader that dies. */
  function Softened(e: Event): Event { if e.Fail? then End(e.side) else e }

  function AllSoftened(events: seq<Event>): (out: seq<Event>)
    ensures |out| == |events| && forall k :: 0 <= k < |out| ==> out[k] == Softened(events[k])
  {
    seq(|events|, k requires 0 <= k < |events| => Softened(events[k]))
  }

  function Revived(r: Reader): Reader { if r.phase.Failed? then r.(phase := AtEnd) else r }

  function Alike(s: State): State { s.(out := Revived(s.out), err := Revived(s.err)) }

  lemma {:induction false} SoftenedRun(limit: nat, events: seq<Event>)
    ensures Run(limit, AllSoftened(events)) == Alike(Run(limit, events))
    decreases |events|
  {
    if events != [] {
      var n: nat := |events| - 1;
      SoftenedRun(limit, events[..n]);
      assert AllSoftened(events)[..n] == AllSoftened(events[..n]);
      SoftenedStep(Run(limit, events[..n]), events[n]);
    }
  }

  lemma SoftenedStep(s: State, e: Event)
    ensures Step(Alike(s), Softened(e)) == Alike(Step(s, e))
  {
  }

  /** A dead reader is never visible in the report: every run reports the same as the run in which each stream ends
      where its reader died, in which no reader dies. */
  lemma DeadReaderIsNotReported(limit: nat, events: seq<Event>)
    ensures Reported(Run(limit, AllSoftened(events))) == Reported(Run(limit, events))
    ensures forall side :: !Run(limit, AllSoftened(events)).At(side).phase.Failed?
    ensures forall side :: Run(limit, events).At(side).phase.Failed?
                           ==> Run(limit, AllSoftened(events)).At(side).phase.AtEnd?
  {
    SoftenedRun(limit, events);
  }

  /** The reader of `side` reads `stream`, and has read all of it when it is at its end; it has not died. */
  predicate ReadsFrom(r: Reader, stream: Bytes) {
    r.read <= stream && (r.phase.AtEnd? ==> r.read == stream) && !r.phase.Failed?
  }

  /** A reported run that reads two streams overflows exactly when they hold more than the limit, however the reads
      are cut and interleaved; otherwise the report is that of the streams. */
  lemma ReportOfStreams(limit: nat, events: seq<Event>, out: Bytes, err: Bytes)
    requires Reported(Run(limit, events)).Some?
    requires ReadsFrom(Run(limit, events).out, out) && ReadsFrom(Run(limit, events).err, err)
    ensures Reported(Run(limit, events)).value.overflow <==> |out| + |err| > limit
    ensures |out| + |err| <= limit ==> Reported(Run(limit, events)) == Some(Report(false, out, err, out, err))
  {
    ReportCoversTheStreams(limit, events);
  }

  /** Two interleavings of the same two streams, whatever chunks they read, agree on the overflow, and report the same
      bytes when there is none. */
  lemma ReportIsOrderFree(limit: nat, first: seq<Event>, second: seq<Event>, out: Bytes, err: Bytes)
    requires Reported(Run(limit, first)).Some? && Reported(Run(limit, second)).Some?
    requires ReadsFrom(Run(limit, first).out, out) && ReadsFrom(Run(limit, first).err, err)
    requires ReadsFrom(Run(limit, second).out, out) && ReadsFrom(Run(limit, second).err, err)
    ensures Run(limit, first).overflow == Run(limit, second).overflow == (|out| + |err| > limit)
    ensures !Run(limit, first).overflow ==> Reported(Run(limit, first)) == Reported(Run(limit, second))
  {
    ReportOfStreams(limit, first, out, err);
    ReportOfStreams(limit, second, out, err);
  }
}
