/** One-time records under races (hooks/codex-dispatch.py, `record_approvals` and `consume_approval`;
    hooks/completion_lib.py, `match_run_record`): processes create, read and unlink files of one directory in any
    order, and what a record grants must not be granted twice. */
module OneTimeRecords {
  import opened Wrappers

  /** A file's content: nothing yet, or the value its writer put there. */
  datatype Content<T> = Unwritten | Written(value: T)

  /** A file, whether or not a directory entry still leads to it. */
  datatype Inode<T> = Inode(name: string, content: Content<T>)

  /** Where a process stands: writing a file it has just created, holding the content of a record it has read, or
      holding it after its unlink succeeded. `source` is the file read and `spent` the file unlinked. */
  datatype Phase<T> = Idle | Writing(inode: nat) | HasRead(name: string, source: nat, content: Content<T>)
                    | HasUnlinked(name: string, source: nat, content: Content<T>, spent: nat)

  /** A record granted what it stands for, at time `now`. */
  datatype Grant<T> = Grant(name: string, value: T, now: real, source: nat, spent: nat)

  datatype State<T> = State(dir: map<string, nat>, inodes: seq<Inode<T>>, phases: map<nat, Phase<T>>,
                            grants: seq<Grant<T>>)
  {
    function Of(p: nat): Phase<T> { if p in phases then phases[p] else Idle }

    function ContentOf(i: nat): Content<T> { if i < |inodes| then inodes[i].content else Unwritten }

    function Put(i: nat, value: T): State<T> {
      if i < |inodes| then this.(inodes := inodes[i := Inode(inodes[i].name, Written(value))]) else this
    }

    function To(p: nat, phase: Phase<T>): State<T> { this.(phases := phases[p := phase]) }
  }

  function Empty<T>(): State<T> { State(map[], [], map[], []) }

  /** One step of some process. `Create` opens exclusively and `Publish` renames a finished file into place; a
      process may be `Killed` at any point, and `Sweep` is an unlink that grants nothing. */
  datatype Event<T> = Create(p: nat, name: string) | Write(p: nat, value: T) | Publish(name: string, value: T)
                    | Read(p: nat, name: string) | Unlink(p: nat) | Judge(p: nat, now: real) | Killed(p: nat)
                    | Sweep(name: string)

  function Step<T>(s: State<T>, e: Event<T>, accept: (T, real) -> bool): State<T> {
    match e
    case Create(p, name) =>
      if s.Of(p).Idle? && name !in s.dir then
        s.(dir := s.dir[name := |s.inodes|], inodes := s.inodes + [Inode(name, Unwritten)]).To(p, Writing(|s.inodes|))
      else s
    case Write(p, value) =>
      if s.Of(p).Writing? then s.Put(s.Of(p).inode, value).To(p, Idle) else s
    case Publish(name, value) =>
      s.(dir := s.dir[name := |s.inodes|], inodes := s.inodes + [Inode(name, Written(value))])
    case Read(p, name) =>
      if s.Of(p).Idle? && name in s.dir then s.To(p, HasRead(name, s.dir[name], s.ContentOf(s.dir[name]))) else s
    case Unlink(p) =>
      if s.Of(p).HasRead? then
        var read := s.Of(p);
        if read.name in s.dir then
          s.(dir := s.dir - {read.name}).To(p, HasUnlinked(read.name, read.source, read.content, s.dir[read.name]))
        else s.To(p, Idle)
      else s
    case Judge(p, now) =>
      if s.Of(p).HasUnlinked? then
        var h := s.Of(p);
        var granted := h.content.Written? && accept(h.content.value, now);
        s.(grants := s.grants + if granted then [Grant(h.name, h.content.value, now, h.source, h.spent)] else [])
         .To(p, Idle)
      else s
    case Killed(p) => s.To(p, Idle)
    case Sweep(name) => s.(dir := s.dir - {name})
  }

  // ---------------------------------------------------------------- what every step keeps

  predicate IsFile<T>(s: State<T>, i: nat, name: string) { i < |s.inodes| && s.inodes[i].name == name }

  /** Entries lead to files of their name, and a writer's file exists. */
  predicate Valid<T>(s: State<T>) {
    && (forall name :: name in s.dir ==> IsFile(s, s.dir[name], name))
    && forall p :: p in s.phases && s.phases[p].Writing? ==> s.phases[p].inode < |s.inodes|
  }

  /** File `i` is spent: it is a file of that name that no entry leads to any more. */
  predicate IsSpent<T>(s: State<T>, i: nat, name: string) {
    IsFile(s, i, name) && (name in s.dir ==> s.dir[name] != i)
  }

  /** What a process holds is true of the files. */
  ghost predicate Holds<T>(s: State<T>, ph: Phase<T>) {
    match ph
    case Idle => true
    case Writing(i) => i < |s.inodes| && s.inodes[i].content.Unwritten?
    case HasRead(name, source, content) => IsFile(s, source, name) && Seen(s, source, content)
    case HasUnlinked(name, source, content, spent) =>
      IsFile(s, source, name) && Seen(s, source, content) && IsSpent(s, spent, name)
  }

  /** `content` was in file `i`: a written content stays. */
  ghost predicate Seen<T>(s: State<T>, i: nat, content: Content<T>) {
    i < |s.inodes| && (content.Written? ==> s.inodes[i].content == content)
  }

  /** Two processes never write the same file and never hold the unlink of the same file. */
  predicate Apart<T>(a: Phase<T>, b: Phase<T>) {
    && (a.Writing? && b.Writing? ==> a.inode != b.inode)
    && (a.HasUnlinked? && b.HasUnlinked? ==> a.spent != b.spent)
  }

  /** A grant is accepted, on a value a file of its name was written with, and spends a file of its name. */
  ghost predicate Backed<T(!new)>(s: State<T>, g: Grant<T>, accept: (T, real) -> bool) {
    && accept(g.value, g.now) && IsFile(s, g.source, g.name) && Seen(s, g.source, Written(g.value))
    && IsSpent(s, g.spent, g.name)
  }

  predicate Unused<T>(ph: Phase<T>, grants: seq<Grant<T>>) {
    ph.HasUnlinked? ==> forall k :: 0 <= k < |grants| ==> grants[k].spent != ph.spent
  }

  predicate SpentOnce<T>(grants: seq<Grant<T>>) {
    forall i, j :: 0 <= i < j < |grants| ==> grants[i].spent != grants[j].spent
  }

  ghost predicate Inv<T(!new)>(s: State<T>, accept: (T, real) -> bool) {
    && Valid(s)
    && (forall p :: p in s.phases ==> Holds(s, s.phases[p]) && Unused(s.phases[p], s.grants))
    && (forall p, q :: p in s.phases && q in s.phases && p != q ==> Apart(s.phases[p], s.phases[q]))
    && (forall g :: g in s.grants ==> Backed(s, g, accept))
    && SpentOnce(s.grants)
  }

  /** `t` may come after `s`: files keep their names and written contents, and entries are kept, dropped, or lead
      to new files. */
  ghost predicate Later<T>(s: State<T>, t: State<T>) {
    && |s.inodes| <= |t.inodes|
    && (forall i :: 0 <= i < |s.inodes| ==>
          t.inodes[i].name == s.inodes[i].name
          && (s.inodes[i].content.Written? ==> t.inodes[i].content == s.inodes[i].content))
    && forall name :: name in t.dir ==>
         (name in s.dir && t.dir[name] == s.dir[name]) || t.dir[name] >= |s.inodes|
  }

  lemma LaterHolds<T>(s: State<T>, t: State<T>, ph: Phase<T>)
    requires Later(s, t) && Holds(s, ph)
    requires ph.Writing? ==> t.inodes[ph.inode] == s.inodes[ph.inode]
    ensures Holds(t, ph)
  {
  }

  lemma LaterBacked<T(!new)>(s: State<T>, t: State<T>, g: Grant<T>, accept: (T, real) -> bool)
    requires Later(s, t) && Backed(s, g, accept)
    ensures Backed(t, g, accept)
  {
  }

  /** A step that moves one process and grants nothing keeps the invariant when what that process then holds is
      true and its own. */
  lemma MoveKeeps<T(!new)>(s: State<T>, t: State<T>, p: nat, ph: Phase<T>, accept: (T, real) -> bool)
    requires Inv(s, accept) && Valid(t) && Later(s, t)
    requires t.phases == s.phases[p := ph] && t.grants == s.grants
    requires forall q :: q in s.phases && q != p && s.phases[q].Writing? ==>
               t.inodes[s.phases[q].inode] == s.inodes[s.phases[q].inode]
    requires Holds(t, ph) && Unused(ph, s.grants)
    requires forall q :: q in s.phases && q != p ==> Apart(ph, s.phases[q]) && Apart(s.phases[q], ph)
    ensures Inv(t, accept)
  {
    forall q | q in t.phases
      ensures Holds(t, t.phases[q]) && Unused(t.phases[q], t.grants)
    {
      if q != p {
        LaterHolds(s, t, s.phases[q]);
      }
    }
    forall g | g in t.grants
      ensures Backed(t, g, accept)
    {
      LaterBacked(s, t, g, accept);
    }
  }

  lemma CreateKeeps<T(!new)>(s: State<T>, p: nat, name: string, accept: (T, real) -> bool)
    requires Inv(s, accept)
    ensures Inv(Step(s, Create(p, name), accept), accept)
  {
    if s.Of(p).Idle? && name !in s.dir {
      var t := Step(s, Create(p, name), accept);
      MoveKeeps(s, t, p, Writing(|s.inodes|), accept);
    }
  }

  lemma WriteKeeps<T(!new)>(s: State<T>, p: nat, value: T, accept: (T, real) -> bool)
    requires Inv(s, accept)
    ensures Inv(Step(s, Write(p, value), accept), accept)
  {
    if s.Of(p).Writing? {
      assert Holds(s, s.phases[p]);
      forall q | q in s.phases && q != p
        ensures Apart(s.phases[p], s.phases[q])
      {
      }
      MoveKeeps(s, Step(s, Write(p, value), accept), p, Idle, accept);
    }
  }

  lemma UnlinkKeeps<T(!new)>(s: State<T>, p: nat, accept: (T, real) -> bool)
    requires Inv(s, accept)
    ensures Inv(Step(s, Unlink(p), accept), accept)
  {
    if s.Of(p).HasRead? {
      var t := Step(s, Unlink(p), accept);
      var read := s.phases[p];
      assert Holds(s, read);
      if read.name in s.dir {
        var i := s.dir[read.name];
        EntriesAreUnspent(s, read.name, accept);
      }
      MoveKeeps(s, t, p, t.phases[p], accept);
    }
  }

  /** The file an entry leads to is spent by nobody. */
  lemma EntriesAreUnspent<T(!new)>(s: State<T>, name: string, accept: (T, real) -> bool)
    requires Inv(s, accept) && name in s.dir
    ensures forall q :: q in s.phases && s.phases[q].HasUnlinked? ==> s.phases[q].spent != s.dir[name]
    ensures forall k :: 0 <= k < |s.grants| ==> s.grants[k].spent != s.dir[name]
  {
    forall q | q in s.phases && s.phases[q].HasUnlinked?
      ensures s.phases[q].spent != s.dir[name]
    {
      assert Holds(s, s.phases[q]);
    }
    forall k | 0 <= k < |s.grants|
      ensures s.grants[k].spent != s.dir[name]
    {
      assert Backed(s, s.grants[k], accept);
    }
  }

  lemma JudgeKeeps<T(!new)>(s: State<T>, p: nat, now: real, accept: (T, real) -> bool)
    requires Inv(s, accept)
    ensures Inv(Step(s, Judge(p, now), accept), accept)
  {
    if s.Of(p).HasUnlinked? {
      var t := Step(s, Judge(p, now), accept);
      assert Holds(s, s.phases[p]) && Unused(s.phases[p], s.grants);
      forall q | q in t.phases
        ensures Holds(t, t.phases[q]) && Unused(t.phases[q], t.grants)
      {
        if q != p {
          LaterHolds(s, t, s.phases[q]);
          assert Apart(s.phases[p], s.phases[q]);
        }
      }
      forall g | g in t.grants
        ensures Backed(t, g, accept)
      {
        if g in s.grants {
          LaterBacked(s, t, g, accept);
        }
      }
    }
  }

  lemma StepKeeps<T(!new)>(s: State<T>, e: Event<T>, accept: (T, real) -> bool)
    requires Inv(s, accept)
    ensures Inv(Step(s, e, accept), accept)
  {
    match e
    case Create(p, name) => CreateKeeps(s, p, name, accept);
    case Write(p, value) => WriteKeeps(s, p, value, accept);
    case Publish(name, value) => FilesKeep(s, Step(s, e, accept), accept);
    case Read(p, name) =>
      if s.Of(p).Idle? && name in s.dir {
        MoveKeeps(s, Step(s, e, accept), p, HasRead(name, s.dir[name], s.ContentOf(s.dir[name])), accept);
      }
    case Unlink(p) => UnlinkKeeps(s, p, accept);
    case Judge(p, now) => JudgeKeeps(s, p, now, accept);
    case Killed(p) => MoveKeeps(s, Step(s, e, accept), p, Idle, accept);
    case Sweep(name) => FilesKeep(s, Step(s, e, accept), accept);
  }

  lemma FilesKeep<T(!new)>(s: State<T>, t: State<T>, accept: (T, real) -> bool)
    requires Inv(s, accept) && Valid(t) && Later(s, t) && s.inodes <= t.inodes
    requires t.phases == s.phases && t.grants == s.grants
    ensures Inv(t, accept)
  {
    forall q | q in t.phases
      ensures Holds(t, t.phases[q])
    {
      LaterHolds(s, t, s.phases[q]);
    }
    forall g | g in t.grants
      ensures Backed(t, g, accept)
    {
      LaterBacked(s, t, g, accept);
    }
  }

  // ---------------------------------------------------------------- every interleaving

  function Run<T>(events: seq<Event<T>>, accept: (T, real) -> bool): State<T>
    decreases |events|
  {
    if events == [] then Empty()
    else Step(Run(events[..|events| - 1], accept), events[|events| - 1], accept)
  }

  lemma {:induction false} EveryRunIsKept<T(!new)>(events: seq<Event<T>>, accept: (T, real) -> bool)
    ensures Inv(Run(events, accept), accept)
    decreases |events|
  {
    if events != [] {
      EveryRunIsKept(events[..|events| - 1], accept);
      StepKeeps(Run(events[..|events| - 1], accept), events[|events| - 1], accept);
    }
  }

  /** How often a record of this name was created, and how often one was granted. */
  function Created<T>(s: State<T>, name: string): nat { |set i | 0 <= i < |s.inodes| && s.inodes[i].name == name| }

  function Granted<T>(grants: seq<Grant<T>>, name: string): nat
    decreases |grants|
  {
    if grants == [] then 0
    else Granted(grants[..|grants| - 1], name) + if grants[|grants| - 1].name == name then 1 else 0
  }

  function SpentFiles<T>(grants: seq<Grant<T>>, name: string): set<nat>
    decreases |grants|
  {
    if grants == [] then {}
    else
      var last := grants[|grants| - 1];
      SpentFiles(grants[..|grants| - 1], name) + if last.name == name then {last.spent} else {}
  }

  lemma {:induction false} SpentByAGrant<T>(grants: seq<Grant<T>>, name: string, i: nat) returns (k: nat)
    requires i in SpentFiles(grants, name)
    ensures k < |grants| && grants[k].name == name && grants[k].spent == i
    decreases |grants|
  {
    k := |grants| - 1;
    if grants[k].name != name || grants[k].spent != i {
      k := SpentByAGrant(grants[..k], name, i);
    }
  }

  /** Every grant has its own file. */
  lemma {:induction false} OneFileEach<T>(grants: seq<Grant<T>>, name: string)
    requires SpentOnce(grants)
    ensures |SpentFiles(grants, name)| == Granted(grants, name)
    decreases |grants|
  {
    if grants != [] {
      var n := |grants| - 1;
      OneFileEach(grants[..n], name);
      if grants[n].spent in SpentFiles(grants[..n], name) {
        var k := SpentByAGrant(grants[..n], name, grants[n].spent);
        assert false;
      }
    }
  }

  /** For every interleaving of any number of processes a name is granted at most as often as it was created. */
  lemma GrantsNeverExceedCreations<T(!new)>(events: seq<Event<T>>, accept: (T, real) -> bool, name: string)
    ensures var s := Run(events, accept);
            Granted(s.grants, name) <= Created(s, name)
  {
    var s := Run(events, accept);
    EveryRunIsKept(events, accept);
    OneFileEach(s.grants, name);
    var files := set i | 0 <= i < |s.inodes| && s.inodes[i].name == name;
    forall i | i in SpentFiles(s.grants, name)
      ensures i in files
    {
      var k := SpentByAGrant(s.grants, name, i);
      assert Backed(s, s.grants[k], accept);
    }
    SubsetIsSmaller(SpentFiles(s.grants, name), files);
  }

  // ---------------------------------------------------------------- the file that is read and the file that is spent

  predicate LeadsTo<T>(s: State<T>, name: string, i: nat) { name in s.dir && s.dir[name] == i }

  /** Step `e` removes or replaces the entry `name` of `s`. */
  predicate Touches<T>(s: State<T>, e: Event<T>, name: string) {
    match e
    case Publish(other, _) => other == name
    case Sweep(other) => other == name
    case Unlink(p) => s.Of(p).HasRead? && s.Of(p).name == name
    case _ => false
  }

  /** An entry keeps leading to its file exactly until a step removes or replaces it, and then never leads there
      again, for file numbers only grow. */
  lemma EntryStep<T>(s: State<T>, e: Event<T>, name: string, i: nat, accept: (T, real) -> bool)
    requires i < |s.inodes|
    ensures |s.inodes| <= |Step(s, e, accept).inodes|
    ensures LeadsTo(Step(s, e, accept), name, i) <==> LeadsTo(s, name, i) && !Touches(s, e, name)
  {
  }

  /** `states` are the states of a run: one before every event, and the last. */
  ghost predicate IsRun<T(!new)>(events: seq<Event<T>>, states: seq<State<T>>, accept: (T, real) -> bool) {
    && |states| == |events| + 1 && states[0] == Empty()
    && forall k :: 0 <= k < |events| ==> IsStep(states, k, events[k], accept)
  }

  ghost predicate IsStep<T(!new)>(states: seq<State<T>>, k: nat, e: Event<T>, accept: (T, real) -> bool)
    requires k + 1 < |states|
  {
    states[k + 1] == Step(states[k], e, accept)
  }

  /** No event from `r` to before `u` removes or replaces the entry `name`. */
  ghost predicate Untouched<T>(events: seq<Event<T>>, states: seq<State<T>>, r: nat, u: nat, name: string)
    requires u <= |events| < |states|
  {
    forall k :: r <= k < u ==> !Touches(states[k], events[k], name)
  }

  /** Event `k` leaves the entry `name` leading to file `i`, unless it touches it. */
  predicate EntryFollows<T>(events: seq<Event<T>>, states: seq<State<T>>, k: nat, name: string, i: nat)
    requires k < |events| < |states|
  {
    LeadsTo(states[k + 1], name, i) <==> LeadsTo(states[k], name, i) && !Touches(states[k], events[k], name)
  }

  lemma EntryStays<T(!new)>(events: seq<Event<T>>, states: seq<State<T>>, r: nat, u: nat, name: string, i: nat,
                           accept: (T, real) -> bool)
    requires IsRun(events, states, accept) && r <= u <= |events|
    requires LeadsTo(states[r], name, i) && i < |states[r].inodes|
    ensures i < |states[u].inodes|
    ensures LeadsTo(states[u], name, i) <==> Untouched(events, states, r, u, name)
  {
    FileStays(events, states, r, u, name, i, accept);
    forall k | r <= k < u
      ensures EntryFollows(events, states, k, name, i)
    {
      FileStays(events, states, r, k, name, i, accept);
      EntryAfter(events, states, k, name, i, accept);
    }
    Followed(events, states, r, u, name, i);
  }

  lemma {:induction false} FileStays<T(!new)>(events: seq<Event<T>>, states: seq<State<T>>, r: nat, u: nat,
                                             name: string, i: nat, accept: (T, real) -> bool)
    requires IsRun(events, states, accept) && r <= u <= |events| && i < |states[r].inodes|
    ensures i < |states[u].inodes|
    decreases u
  {
    if r < u {
      var n: nat := u - 1;
      FileStays(events, states, r, n, name, i, accept);
      EntryAfter(events, states, n, name, i, accept);
    }
  }

  lemma {:induction false} Followed<T(!new)>(events: seq<Event<T>>, states: seq<State<T>>, r: nat, u: nat,
                                            name: string, i: nat)
    requires r <= u <= |events| < |states| && LeadsTo(states[r], name, i)
    requires forall k :: r <= k < u ==> EntryFollows(events, states, k, name, i)
    ensures LeadsTo(states[u], name, i) <==> Untouched(events, states, r, u, name)
    decreases u
  {
    if r < u {
      var n: nat := u - 1;
      Followed(events, states, r, n, name, i);
      assert EntryFollows(events, states, n, name, i);
      UntouchedOnward(events, states, r, n, name);
    }
  }

  lemma EntryAfter<T(!new)>(events: seq<Event<T>>, states: seq<State<T>>, k: nat, name: string, i: nat,
                           accept: (T, real) -> bool)
    requires IsRun(events, states, accept) && k < |events| && i < |states[k].inodes|
    ensures i < |states[k + 1].inodes| && EntryFollows(events, states, k, name, i)
  {
    assert IsStep(states, k, events[k], accept);
    EntryStep(states[k], events[k], name, i, accept);
  }

  lemma UntouchedOnward<T(!new)>(events: seq<Event<T>>, states: seq<State<T>>, r: nat, n: nat, name: string)
    requires r <= n < |events| < |states|
    ensures Untouched(events, states, r, n + 1, name)
            <==> Untouched(events, states, r, n, name) && !Touches(states[n], events[n], name)
  {
  }

  lemma {:induction false} StateIsKept<T(!new)>(events: seq<Event<T>>, states: seq<State<T>>, k: nat,
                                               accept: (T, real) -> bool)
    requires IsRun(events, states, accept) && k <= |events|
    ensures Inv(states[k], accept)
    decreases k
  {
    if k > 0 {
      StateIsKept(events, states, k - 1, accept);
      assert IsStep(states, k - 1, events[k - 1], accept);
      StepKeeps(states[k - 1], events[k - 1], accept);
    }
  }

  predicate Holding<T>(s: State<T>, p: nat, name: string, source: nat) {
    s.Of(p).HasRead? && s.Of(p).name == name && s.Of(p).source == source
  }

  /** Process `p` read `name` at event `r`, from file `source`, and has held that reading since, up to state `n`. */
  ghost predicate HeldSince<T(!new)>(events: seq<Event<T>>, states: seq<State<T>>, r: nat, n: nat, p: nat,
                                     name: string, source: nat)
  {
    && r < n <= |events| < |states| && events[r] == Read(p, name) && LeadsTo(states[r], name, source)
    && forall k :: r < k <= n ==> Holding(states[k], p, name, source)
  }

  /** The process that acts at event `u` unlinks the file `spent`, holding its reading of event `r`. */
  ghost predicate Spent<T(!new)>(events: seq<Event<T>>, states: seq<State<T>>, r: nat, u: nat, name: string,
                                 source: nat, spent: nat)
  {
    && u < |events| < |states| && events[u].Unlink? && HeldSince(events, states, r, u, events[u].p, name, source)
    && LeadsTo(states[u], name, spent)
  }

  ghost predicate SpentBefore<T(!new)>(events: seq<Event<T>>, states: seq<State<T>>, n: nat, name: string, source: nat,
                                       spent: nat)
  {
    exists r: nat, u: nat :: u < n && Spent(events, states, r, u, name, source, spent)
  }

  /** What a process holds in state `n` comes from a read, and from an unlink after it. */
  ghost predicate Traced<T(!new)>(events: seq<Event<T>>, states: seq<State<T>>, n: nat, p: nat)
    requires n < |states|
  {
    match states[n].Of(p)
    case HasRead(name, source, _) => exists r: nat :: HeldSince(events, states, r, n, p, name, source)
    case HasUnlinked(name, source, _, spent) => SpentBefore(events, states, n, name, source, spent)
    case _ => true
  }

  lemma ReadStep<T(!new)>(events: seq<Event<T>>, states: seq<State<T>>, n: nat, p: nat, accept: (T, real) -> bool)
    requires IsRun(events, states, accept) && n < |events| && Traced(events, states, n, p)
    requires states[n + 1].Of(p).HasRead?
    ensures Traced(events, states, n + 1, p)
  {
    var before, ph := states[n].Of(p), states[n + 1].Of(p);
    assert IsStep(states, n, events[n], accept);
    if before.HasRead? {
      var r: nat :| HeldSince(events, states, r, n, p, before.name, before.source);
      assert ph == before;
      assert HeldSince(events, states, r, n + 1, p, ph.name, ph.source);
    } else {
      assert events[n] == Read(p, ph.name) && LeadsTo(states[n], ph.name, ph.source);
      assert HeldSince(events, states, n, n + 1, p, ph.name, ph.source);
    }
  }

  lemma UnlinkStep<T(!new)>(events: seq<Event<T>>, states: seq<State<T>>, n: nat, p: nat, accept: (T, real) -> bool)
    requires IsRun(events, states, accept) && n < |events| && Traced(events, states, n, p)
    requires states[n + 1].Of(p).HasUnlinked?
    ensures Traced(events, states, n + 1, p)
  {
    var before, ph := states[n].Of(p), states[n + 1].Of(p);
    assert IsStep(states, n, events[n], accept);
    if before.HasUnlinked? {
      SpentLater(events, states, n, ph.name, ph.source, ph.spent);
    } else {
      assert events[n] == Unlink(p) && Holding(states[n], p, ph.name, ph.source);
      var r: nat :| HeldSince(events, states, r, n, p, ph.name, ph.source);
      assert Spent(events, states, r, n, ph.name, ph.source, ph.spent);
    }
  }

  lemma SpentLater<T(!new)>(events: seq<Event<T>>, states: seq<State<T>>, n: nat, name: string, source: nat, spent: nat)
    requires SpentBefore(events, states, n, name, source, spent)
    ensures SpentBefore(events, states, n + 1, name, source, spent)
  {
  }

  /** Every process and every grant of state `n` is traced. */
  lemma {:induction false} EveryProcessIsTraced<T(!new)>(events: seq<Event<T>>, states: seq<State<T>>, n: nat, p: nat,
                                                        accept: (T, real) -> bool)
    requires IsRun(events, states, accept) && n <= |events|
    ensures Traced(events, states, n, p)
    decreases n
  {
    if n > 0 {
      EveryProcessIsTraced(events, states, n - 1, p, accept);
      if states[n].Of(p).HasRead? {
        ReadStep(events, states, n - 1, p, accept);
      } else if states[n].Of(p).HasUnlinked? {
        UnlinkStep(events, states, n - 1, p, accept);
      }
    }
  }

  lemma {:induction false} EveryGrantIsTraced<T(!new)>(events: seq<Event<T>>, states: seq<State<T>>, n: nat,
                                                      g: Grant<T>, accept: (T, real) -> bool)
    requires IsRun(events, states, accept) && n <= |events| && g in states[n].grants
    ensures SpentBefore(events, states, n, g.name, g.source, g.spent)
    decreases n
  {
    assert n > 0;
    var e := events[n - 1];
    assert IsStep(states, n - 1, e, accept);
    if g in states[n - 1].grants {
      EveryGrantIsTraced(events, states, n - 1, g, accept);
    } else {
      EveryProcessIsTraced(events, states, n - 1, e.p, accept);
    }
    SpentLater(events, states, n - 1, g.name, g.source, g.spent);
  }

  /** The states of a run. */
  function History<T>(events: seq<Event<T>>, accept: (T, real) -> bool): seq<State<T>>
    decreases |events|
  {
    if events == [] then [Empty()]
    else History(events[..|events| - 1], accept) + [Run(events, accept)]
  }

  lemma {:induction false} HistoryIsRun<T(!new)>(events: seq<Event<T>>, accept: (T, real) -> bool)
    ensures IsRun(events, History(events, accept), accept)
    ensures History(events, accept)[|events|] == Run(events, accept)
    decreases |events|
  {
    if events != [] {
      var n := |events| - 1;
      HistoryIsRun(events[..n], accept);
      var before, states := History(events[..n], accept), History(events, accept);
      forall k | 0 <= k < |events|
        ensures IsStep(states, k, events[k], accept)
      {
        if k < n {
          assert IsStep(before, k, events[..n][k], accept);
        }
      }
    }
  }

  /** What a process read is what it unlinks exactly when no step in between removed or replaced the entry. */
  lemma ReadIsSpent<T(!new)>(events: seq<Event<T>>, r: nat, u: nat, name: string, source: nat, spent: nat,
                            accept: (T, real) -> bool)
    requires Spent(events, History(events, accept), r, u, name, source, spent)
    ensures |History(events, accept)| == |events| + 1
    ensures source == spent <==> Untouched(events, History(events, accept), r, u, name)
  {
    HistoryIsRun(events, accept);
    StateIsKept(events, History(events, accept), r, accept);
    EntryStays(events, History(events, accept), r, u, name, source, accept);
  }

  /** Every grant of every run goes back to a read and an unlink of one process, which held what it read in between;
      and it was judged by the record it spent exactly when no step between the two removed or replaced the entry. */
  lemma GrantIsTraced<T(!new)>(events: seq<Event<T>>, accept: (T, real) -> bool, k: nat)
    requires k < |Run(events, accept).grants|
    ensures |History(events, accept)| == |events| + 1
    ensures var g := Run(events, accept).grants[k];
            exists r: nat, u: nat :: && Spent(events, History(events, accept), r, u, g.name, g.source, g.spent)
                                     && (g.source == g.spent
                                         <==> Untouched(events, History(events, accept), r, u, g.name))
  {
    var g, states := Run(events, accept).grants[k], History(events, accept);
    HistoryIsRun(events, accept);
    EveryGrantIsTraced(events, states, |events|, g, accept);
    var r: nat, u: nat :| u < |events| && Spent(events, states, r, u, g.name, g.source, g.spent);
    ReadIsSpent(events, r, u, g.name, g.source, g.spent, accept);
  }

  // ---------------------------------------------------------------- approvals

  const APPROVAL_TTL_SECONDS: real := 1800.0

  /** An approval holds its time; it is good from then on for half an hour. */
  function Good(approvedAt: real, now: real): bool { 0.0 <= now - approvedAt <= APPROVAL_TTL_SECONDS }

  /** No approval is granted before its time or more than half an hour after it, and each grant spends a record
      that the user's prompt made for exactly that hash. */
  lemma ApprovalsAreFresh(events: seq<Event<real>>, k: nat)
    requires k < |Run(events, Good).grants|
    ensures var s := Run(events, Good);
            var g := s.grants[k];
            && 0.0 <= g.now - g.value <= 1800.0
            && IsFile(s, g.source, g.name) && s.inodes[g.source].content == Written(g.value)
            && IsSpent(s, g.spent, g.name)
            && forall j :: 0 <= j < |s.grants| && j != k ==> s.grants[j].spent != g.spent
  {
    var s := Run(events, Good);
    EveryRunIsKept(events, Good);
    assert Backed(s, s.grants[k], Good);
    forall j | 0 <= j < |s.grants| && j != k
      ensures s.grants[j].spent != s.grants[k].spent
    {
      assert if j < k then s.grants[j].spent != s.grants[k].spent else s.grants[k].spent != s.grants[j].spent;
    }
  }

  /** A name that is created once, as the id of a run record is, is granted at most once, and from the very file
      that was read. */
  lemma CreatedOnceIsGrantedOnce<T(!new)>(events: seq<Event<T>>, accept: (T, real) -> bool, name: string)
    requires Created(Run(events, accept), name) <= 1
    ensures Granted(Run(events, accept).grants, name) <= 1
    ensures forall g :: g in Run(events, accept).grants && g.name == name ==> g.source == g.spent
  {
    EveryRunIsKept(events, accept);
    GrantsNeverExceedCreations(events, accept, name);
    var s := Run(events, accept);
    forall g | g in s.grants && g.name == name
      ensures g.source == g.spent
    {
      assert Backed(s, g, accept);
      var files := set i | 0 <= i < |s.inodes| && s.inodes[i].name == name;
      SubsetIsSmaller({g.source, g.spent}, files);
    }
  }

  /** Two processes have read the same approval, and its entry is still there. */
  ghost predicate BothRead(s: State<real>, d: string, at: real) {
    && s.Of(1) == s.Of(2) == HasRead(d, 0, Written(at)) && s.Of(3).Idle?
    && s.dir == map[d := 0] && |s.inodes| == 1 && s.grants == []
  }

  lemma BothCanRead(d: string, at: real) returns (events: seq<Event<real>>)
    ensures events == [Create(0, d), Write(0, at), Read(1, d), Read(2, d)]
    ensures BothRead(Run(events, Good), d, at)
  {
    events := [];
    Extended(events, Create(0, d), Good);
    events := events + [Create(0, d)];
    Extended(events, Write(0, at), Good);
    events := events + [Write(0, at)];
    Extended(events, Read(1, d), Good);
    events := events + [Read(1, d)];
    Extended(events, Read(2, d), Good);
    events := events + [Read(2, d)];
  }

  /** The time that is judged may come from another file than the one that is spent: a process that has read an
      approval can be overtaken by one that spends it, and then spends the next approval of the same hash, of which
      not even the time is written yet. */
  lemma OneTimeCanServeTwice(d: string, at: real) returns (events: seq<Event<real>>)
    ensures events == [Create(0, d), Write(0, at), Read(1, d), Read(2, d), Unlink(1), Judge(1, at), Create(3, d),
                       Unlink(2), Judge(2, at)]
    ensures Run(events, Good).grants == [Grant(d, at, at, 0, 0), Grant(d, at, at, 0, 1)]
  {
    events := BothCanRead(d, at);
    Extended(events, Unlink(1), Good);
    events := events + [Unlink(1)];
    assert Run(events, Good).dir == map[];
    Extended(events, Judge(1, at), Good);
    events := events + [Judge(1, at)];
    Extended(events, Create(3, d), Good);
    events := events + [Create(3, d)];
    assert Run(events, Good).dir == map[d := 1];
    Extended(events, Unlink(2), Good);
    events := events + [Unlink(2)];
    Extended(events, Judge(2, at), Good);
    events := events + [Judge(2, at)];
  }

  lemma Extended<T>(events: seq<Event<T>>, e: Event<T>, accept: (T, real) -> bool)
    ensures Run(events + [e], accept) == Step(Run(events, accept), e, accept)
  {
    assert (events + [e])[..|events|] == events;
  }

  // ---------------------------------------------------------------- the calls, undisturbed

  class ApprovalStore {
    var state: State<real>

    constructor ()
      ensures state == Empty() && Inv(state, Good)
    {
      state := Empty();
    }

    /** One round of `record_approvals`: an exclusive create, then the time. */
    method RecordOne(p: nat, digest: string, at: real)
      requires Inv(state, Good) && state.Of(p).Idle? && digest !in state.dir
      modifies this
      ensures Inv(state, Good) && state.Of(p).Idle? && state.grants == old(state).grants
      ensures state.dir == old(state).dir[digest := |old(state).inodes|]
      ensures state.inodes == old(state).inodes + [Inode(digest, Written(at))]
    {
      CreateKeeps(state, p, digest, Good);
      state := Step(state, Create(p, digest), Good);
      WriteKeeps(state, p, at, Good);
      state := Step(state, Write(p, at), Good);
    }

    /** The loop of `record_approvals` by process `p`: every approved hash has a record afterwards, a new one with
        the time of its writing, and a record that was there stays as it was. */
    method RecordApprovals(p: nat, digests: seq<string>, time: nat -> real)
      requires Inv(state, Good) && state.Of(p).Idle?
      modifies this
      ensures Inv(state, Good) && state.Of(p).Idle? && state.grants == old(state.grants)
      ensures Recorded(old(state), state, digests, time)
    {
      for k := 0 to |digests|
        invariant Inv(state, Good) && state.Of(p).Idle? && state.grants == old(state.grants)
        invariant Recorded(old(state), state, digests[..k], time)
      {
        var digest := digests[k];
        assert digests[..k + 1] == digests[..k] + [digest];
        ghost var before := state;
        if digest in state.dir {
          continue;
        }
        RecordOne(p, digest, time(k));
        RecordedGrows(old(state), before, state, digests, k, time);
      }
      assert digests[..|digests|] == digests;
    }

    /** `consume_approval` by process `p`: granted exactly when there is a record with a good time, and the record is
        gone either way. */
    method ConsumeApproval(p: nat, digest: string, now: real) returns (granted: bool)
      requires Inv(state, Good) && state.Of(p).Idle?
      modifies this
      ensures Inv(state, Good) && state.Of(p).Idle?
      ensures granted <==> digest in old(state).dir && IsGood(old(state).inodes[old(state).dir[digest]].content, now)
      ensures state.dir == old(state).dir - {digest} && state.inodes == old(state).inodes
      ensures |state.grants| == |old(state).grants| + if granted then 1 else 0
    {
      if digest !in state.dir {
        assert state.dir == state.dir - {digest};
        return false;
      }
      ghost var start := state;
      StepKeeps(state, Read(p, digest), Good);
      state := Step(state, Read(p, digest), Good);
      UnlinkKeeps(state, p, Good);
      state := Step(state, Unlink(p), Good);
      var before := |state.grants|;
      JudgeKeeps(state, p, now, Good);
      state := Step(state, Judge(p, now), Good);
      return |state.grants| > before;
    }
  }

  predicate IsGood(content: Content<real>, now: real) { content.Written? && Good(content.value, now) }

  /** What recording `digests` made of the directory. */
  ghost predicate Recorded(s: State<real>, t: State<real>, digests: seq<string>, time: nat -> real)
    requires Valid(s) && Valid(t)
  {
    && (forall d :: d in t.dir <==> d in s.dir || d in digests)
    && (forall d :: d in s.dir ==> t.dir[d] == s.dir[d])
    && s.inodes <= t.inodes
    && forall d :: d in t.dir && d !in s.dir ==> TimedBy(t.inodes[t.dir[d]].content, d, digests, time)
  }

  ghost predicate TimedBy(content: Content<real>, d: string, digests: seq<string>, time: nat -> real) {
    exists k :: 0 <= k < |digests| && digests[k] == d && content == Written(time(k))
  }

  lemma RecordedGrows(s: State<real>, t: State<real>, u: State<real>, digests: seq<string>, k: nat, time: nat -> real)
    requires Valid(s) && Valid(t) && Valid(u) && k < |digests| && digests[k] !in t.dir
    requires Recorded(s, t, digests[..k], time)
    requires u.dir == t.dir[digests[k] := |t.inodes|]
    requires u.inodes == t.inodes + [Inode(digests[k], Written(time(k)))]
    ensures Recorded(s, u, digests[..k + 1], time)
  {
    var upTo, more := digests[..k], digests[..k + 1];
    assert more == upTo + [digests[k]];
    forall d | d in u.dir && d !in s.dir
      ensures TimedBy(u.inodes[u.dir[d]].content, d, more, time)
    {
      if d == digests[k] {
        assert more[k] == d;
      } else {
        var i :| 0 <= i < k && upTo[i] == d && t.inodes[t.dir[d]].content == Written(time(i));
        assert more[i] == d;
      }
    }
  }
}
