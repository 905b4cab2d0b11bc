/** The status of a verification layer (hooks/completion_lib.py): the latest run of every command decides.

    The main result is that a green rerun takes back an earlier red of the same command, whatever display
    tail either was shown through. */
module LayerStatus {
  import opened Wrappers
  import opened ShellScan
  import opened CommandKey

  /** The identity of a command. */
  type Key = string -> string

  datatype Outcome = Pass | Fail | Unknown

  /** A recorded run: what the runner wrote about one execution. */
  datatype RunInfo = RunInfo(id: string, script: string, args: seq<string>, cwd: string, rc: int, isolated: bool,
                             python: string)

  datatype Signal = Signal(layer: int, outcome: Outcome, head: string, command: string, evidence: string,
                           run: Option<RunInfo>)

  predicate IsLive(s: Signal, layer: int, currentHead: string) {
    s.layer == layer && (currentHead == "" || s.head == "" || s.head == currentHead)
  }

  /** The signals of a layer that are not bound to another HEAD, in order. */
  function Live(signals: seq<Signal>, layer: int, currentHead: string): seq<Signal> {
    if signals == [] then []
    else
      var n := |signals| - 1;
      Live(signals[..n], layer, currentHead) + if IsLive(signals[n], layer, currentHead) then [signals[n]] else []
  }

  /** The latest row of every command. */
  function Latest(rows: seq<Signal>, keyOf: Key): map<string, Signal>
  {
    if rows == [] then map[]
    else
      var n := |rows| - 1;
      Latest(rows[..n], keyOf)[keyOf(rows[n].command) := rows[n]]
  }

  /** The commands in the order of their first row, as a Python dictionary keeps them. */
  function Commands(rows: seq<Signal>, keyOf: Key): (keys: seq<string>)
    ensures forall k :: k in keys <==> k in Latest(rows, keyOf)
  {
    if rows == [] then []
    else
      var n := |rows| - 1;
      var key, keys := keyOf(rows[n].command), Commands(rows[..n], keyOf);
      if key in Latest(rows[..n], keyOf) then keys else keys + [key]
  }

  ghost predicate Has(latest: map<string, Signal>, outcome: Outcome) {
    exists k :: k in latest && latest[k].outcome == outcome
  }

  /** The verdict of a layer on the latest row of every command: any red is red, else any green is green. */
  ghost function StatusOf(latest: map<string, Signal>): Outcome {
    if Has(latest, Fail) then Fail else if Has(latest, Pass) then Pass
    else Unknown
  }

  ghost function LayerVerdict(signals: seq<Signal>, layer: int, currentHead: string, keyOf: Key): Outcome
  {
    StatusOf(Latest(Live(signals, layer, currentHead), keyOf))
  }

  /** The last row of the dictionary, in its order, with this outcome. */
  function LastWith(order: seq<string>, latest: map<string, Signal>, outcome: Outcome): (row: Option<Signal>)
    ensures row.Some? ==>
              row.value.outcome == outcome && exists k :: k in order && k in latest && latest[k] == row.value
    ensures row.None? ==> forall k :: k in order && k in latest ==> latest[k].outcome != outcome
  {
    if order == [] then None
    else
      var n := |order| - 1;
      if order[n] in latest && latest[order[n]].outcome == outcome then Some(latest[order[n]])
      else LastWith(order[..n], latest, outcome)
  }

  /** The row shown is that of the last key with this outcome. */
  lemma {:induction false} LastWithIsLast(order: seq<string>, latest: map<string, Signal>, outcome: Outcome)
    returns (k: nat)
    requires LastWith(order, latest, outcome).Some?
    ensures k < |order| && order[k] in latest && LastWith(order, latest, outcome) == Some(latest[order[k]])
    ensures forall m :: k < m < |order| && order[m] in latest ==> latest[order[m]].outcome != outcome
    decreases |order|
  {
    var n: nat := |order| - 1;
    if order[n] in latest && latest[order[n]].outcome == outcome {
      k := n;
    } else {
      k := LastWithIsLast(order[..n], latest, outcome);
    }
  }

  /** `_layer_status`: the verdict, and the row whose evidence is reported. */
  method LayerStatus(signals: seq<Signal>, layer: int, currentHead: string, keyOf: Key)
    returns (status: Outcome, shown: Option<Signal>)
    ensures status == LayerVerdict(signals, layer, currentHead, keyOf)
    ensures shown.None? <==> Live(signals, layer, currentHead) == []
    ensures var rows := Live(signals, layer, currentHead);
            shown == LastWith(Commands(rows, keyOf), Latest(rows, keyOf), status)
  {
    var rows := LiveRows(signals, layer, currentHead);
    if rows == [] {
      return Unknown, None;
    }
    var order, latest := LatestRows(rows, keyOf);
    status, shown := LastWorst(order, latest);
  }

  method LiveRows(signals: seq<Signal>, layer: int, currentHead: string) returns (rows: seq<Signal>)
    ensures rows == Live(signals, layer, currentHead)
  {
    rows := [];
    for k := 0 to |signals|
      invariant rows == Live(signals[..k], layer, currentHead)
    {
      assert signals[..k + 1][..k] == signals[..k];
      if IsLive(signals[k], layer, currentHead) {
        rows := rows + [signals[k]];
      }
    }
    assert signals[..|signals|] == signals;
  }

  /** The dictionary `latest`, as its keys in order and its map. */
  method LatestRows(rows: seq<Signal>, keyOf: Key) returns (order: seq<string>, latest: map<string, Signal>)
    ensures latest == Latest(rows, keyOf) && order == Commands(rows, keyOf)
    ensures rows != [] ==> order != []
  {
    order, latest := [], map[];
    for k := 0 to |rows|
      invariant latest == Latest(rows[..k], keyOf) && order == Commands(rows[..k], keyOf)
      invariant k > 0 ==> order != []
    {
      assert rows[..k + 1][..k] == rows[..k];
      var key := keyOf(rows[k].command);
      if key !in latest {
        order := order + [key];
      }
      latest := latest[key := rows[k]];
    }
    assert rows[..|rows|] == rows;
  }

  /** The lists `fails` and `passes` and the row at their end. */
  method LastWorst(order: seq<string>, latest: map<string, Signal>) returns (status: Outcome, shown: Option<Signal>)
    requires order != []
    requires forall k :: k in order <==> k in latest
    ensures status == StatusOf(latest)
    ensures shown.Some? && shown == LastWith(order, latest, status)
  {
    var fail: Option<Signal>, pass: Option<Signal>, last: Option<Signal> := None, None, None;
    for k := 0 to |order|
      invariant Noted(order[..k], latest, fail, pass, last)
    {
      assert order[k] in latest;
      var s := latest[order[k]];
      assert order[..k + 1][..k] == order[..k];
      if s.outcome.Fail? {
        fail := Some(s);
      } else if s.outcome.Pass? {
        pass := Some(s);
      }
      last := Some(s);
    }
    assert order[..|order|] == order;
    if fail.Some? {
      return Fail, fail;
    }
    if pass.Some? {
      return Pass, pass;
    }
    return Unknown, last;
  }

  /** The ends of the lists `fails`, `passes` and `vals` over the keys `order`. */
  ghost predicate Noted(order: seq<string>, latest: map<string, Signal>, fail: Option<Signal>, pass: Option<Signal>,
                        last: Option<Signal>)
  {
    && fail == LastWith(order, latest, Fail) && pass == LastWith(order, latest, Pass)
    && (fail.None? && pass.None? ==> last == LastWith(order, latest, Unknown))
    && (last.None? <==> order == [])
  }

  lemma {:induction false} LiveConcat(a: seq<Signal>, b: seq<Signal>, layer: int, head: string)
    ensures Live(a + b, layer, head) == Live(a, layer, head) + Live(b, layer, head)
    decreases |b|
  {
    if b == [] {
      assert a + b == a;
    } else {
      var n := |b| - 1;
      assert (a + b)[..|a| + n] == a + b[..n];
      LiveConcat(a, b[..n], layer, head);
    }
  }

  lemma {:induction false} LatestConcat(a: seq<Signal>, b: seq<Signal>, keyOf: Key)
    ensures Latest(a + b, keyOf) == Latest(a, keyOf) + Latest(b, keyOf)
    decreases |b|
  {
    if b == [] {
      assert a + b == a;
    } else {
      var n := |b| - 1;
      assert (a + b)[..|a| + n] == a + b[..n];
      LatestConcat(a, b[..n], keyOf);
    }
  }

  /** The keys come in the order of their first rows, each once. */
  lemma {:induction false} CommandsInOrder(rows: seq<Signal>, keyOf: Key) returns (first: seq<nat>)
    ensures |first| == |Commands(rows, keyOf)|
    ensures forall k :: 0 <= k < |first| ==> FirstRow(rows, first[k], Commands(rows, keyOf)[k], keyOf)
    ensures forall j, k :: 0 <= j < k < |first| ==> first[j] < first[k]
    decreases |rows|
  {
    first := [];
    if rows != [] {
      var n: nat := |rows| - 1;
      var before := CommandsInOrder(rows[..n], keyOf);
      FirstRowsStay(rows, before, Commands(rows[..n], keyOf), keyOf);
      if keyOf(rows[n].command) in Latest(rows[..n], keyOf) {
        first := before;
      } else {
        NewCommand(rows, keyOf);
        first := before + [n];
      }
    }
  }

  lemma FirstRowsStay(rows: seq<Signal>, first: seq<nat>, keys: seq<string>, keyOf: Key)
    requires rows != [] && |first| == |keys|
    requires forall k :: 0 <= k < |first| ==> FirstRow(rows[..|rows| - 1], first[k], keys[k], keyOf)
    ensures forall k :: 0 <= k < |first| ==> FirstRow(rows, first[k], keys[k], keyOf) && first[k] < |rows| - 1
  {
    forall k | 0 <= k < |first|
      ensures FirstRow(rows, first[k], keys[k], keyOf) && first[k] < |rows| - 1
    {
      FirstRowStays(rows, first[k], keys[k], keyOf);
    }
  }

  lemma FirstRowStays(rows: seq<Signal>, m: nat, key: string, keyOf: Key)
    requires rows != [] && FirstRow(rows[..|rows| - 1], m, key, keyOf)
    ensures FirstRow(rows, m, key, keyOf)
  {
    assert forall l :: 0 <= l < m ==> rows[..|rows| - 1][l] == rows[l];
  }

  lemma NewCommand(rows: seq<Signal>, keyOf: Key)
    requires rows != [] && keyOf(rows[|rows| - 1].command) !in Latest(rows[..|rows| - 1], keyOf)
    ensures FirstRow(rows, |rows| - 1, keyOf(rows[|rows| - 1].command), keyOf)
  {
    var before := rows[..|rows| - 1];
    forall m | 0 <= m < |before|
      ensures keyOf(rows[m].command) != keyOf(rows[|rows| - 1].command)
    {
      LatestHasEveryCommand(before, m, keyOf);
    }
  }

  ghost predicate FirstRow(rows: seq<Signal>, m: nat, key: string, keyOf: Key) {
    && m < |rows| && keyOf(rows[m].command) == key
    && forall l :: 0 <= l < m ==> keyOf(rows[l].command) != key
  }

  lemma {:induction false} LatestHasEveryCommand(rows: seq<Signal>, k: nat, keyOf: Key)
    requires k < |rows|
    ensures keyOf(rows[k].command) in Latest(rows, keyOf)
    decreases |rows|
  {
    var n := |rows| - 1;
    if k < n {
      LatestHasEveryCommand(rows[..n], k, keyOf);
    }
  }

  /** A row that a later row of the same command follows leaves no trace. */
  lemma Superseded(before: seq<Signal>, row: Signal, after: seq<Signal>, k: nat, keyOf: Key)
    requires k < |after| && keyOf(after[k].command) == keyOf(row.command)
    ensures Latest(before + ([row] + after), keyOf) == Latest(before + after, keyOf)
  {
    LatestConcat(before, [row] + after, keyOf);
    LatestConcat([row], after, keyOf);
    LatestConcat(before, after, keyOf);
    LatestHasEveryCommand(after, k, keyOf);
    assert [row][..0] == [];
    assert Latest([row], keyOf) == map[keyOf(row.command) := row];
    assert Latest([row], keyOf) + Latest(after, keyOf) == Latest(after, keyOf);
  }

  /** A later run of the same command removes every effect of an earlier run on the layer. */
  lemma RerunSupersedes(pre: seq<Signal>, red: Signal, mid: seq<Signal>, green: Signal, post: seq<Signal>,
                        layer: int, head: string, keyOf: Key)
    requires keyOf(red.command) == keyOf(green.command) && IsLive(green, layer, head)
    ensures LayerVerdict(pre + [red] + mid + [green] + post, layer, head, keyOf)
            == LayerVerdict(pre + mid + [green] + post, layer, head, keyOf)
  {
    var tail := mid + [green] + post;
    assert pre + [red] + mid + [green] + post == pre + ([red] + tail);
    assert pre + mid + [green] + post == pre + tail;
    var after := Live(tail, layer, head);
    LiveContains(mid, green, post, layer, head);
    LiveConcat(pre, [red] + tail, layer, head);
    LiveConcat(pre, tail, layer, head);
    LiveConcat([red], tail, layer, head);
    assert Live([red], layer, head) == if IsLive(red, layer, head) then [red] else [] by {
      assert [red][..0] == [];
    }
    if IsLive(red, layer, head) {
      var k :| 0 <= k < |after| && after[k] == green;
      Superseded(Live(pre, layer, head), red, after, k, keyOf);
    } else {
      assert [] + after == after;
    }
  }

  lemma LiveContains(before: seq<Signal>, row: Signal, after: seq<Signal>, layer: int, head: string)
    requires IsLive(row, layer, head)
    ensures row in Live(before + [row] + after, layer, head)
  {
    LiveConcat(before + [row], after, layer, head);
    assert (before + [row])[..|before|] == before;
  }

  /** A green run of `c|t2` takes back the red of an earlier run of `c|t1`: the layer is judged as if that
      run had never been recorded. */
  lemma GreenUnderAnotherTailSupersedes(pre: seq<Signal>, red: Signal, mid: seq<Signal>, green: Signal,
                                         post: seq<Signal>, c: string, t1: string, t2: string,
                                         layer: int, head: string, text: Text)
    requires ShownThrough(red.command, c, t1, text) && ShownThrough(green.command, c, t2, text)
    requires red.outcome.Fail? && green.outcome.Pass? && IsLive(green, layer, head)
    ensures var keyOf := command => NormalKey(command, text);
            LayerVerdict(pre + [red] + mid + [green] + post, layer, head, keyOf)
            == LayerVerdict(pre + mid + [green] + post, layer, head, keyOf)
  {
    DisplayTailsKeepTheKey(c, t1, text);
    DisplayTailsKeepTheKey(c, t2, text);
    RerunSupersedes(pre, red, mid, green, post, layer, head, command => NormalKey(command, text));
  }

  /** Signal `k` belongs to the layer, is not bound to another HEAD, and is the last such run of its command. */
  ghost predicate LastRun(signals: seq<Signal>, k: nat, layer: int, head: string, keyOf: Key) {
    && k < |signals| && Counts(signals[k], layer, head)
    && forall m :: k < m < |signals| && Counts(signals[m], layer, head)
                   ==> keyOf(signals[m].command) != keyOf(signals[k].command)
  }

  ghost predicate SomeLastRun(signals: seq<Signal>, outcome: Outcome, layer: int, head: string, keyOf: Key) {
    exists k: nat :: LastRun(signals, k, layer, head, keyOf) && signals[k].outcome == outcome
  }

  predicate Counts(s: Signal, layer: int, head: string) {
    s.layer == layer && (head == "" || s.head == "" || s.head == head)
  }

  lemma {:induction false} LastRunIsLatest(signals: seq<Signal>, k: nat, layer: int, head: string, keyOf: Key)
    requires LastRun(signals, k, layer, head, keyOf)
    ensures var latest, key := Latest(Live(signals, layer, head), keyOf), keyOf(signals[k].command);
            key in latest && latest[key] == signals[k]
    decreases |signals|
  {
    var n: nat := |signals| - 1;
    LatestOfOneMore(signals, layer, head, keyOf);
    if k < n {
      assert LastRun(signals[..n], k, layer, head, keyOf);
      LastRunIsLatest(signals[..n], k, layer, head, keyOf);
    }
  }

  lemma {:induction false} LatestHasLastRun(signals: seq<Signal>, key: string, layer: int, head: string, keyOf: Key)
    returns (k: nat)
    requires key in Latest(Live(signals, layer, head), keyOf)
    ensures LastRun(signals, k, layer, head, keyOf) && keyOf(signals[k].command) == key
    decreases |signals|
  {
    var n: nat := |signals| - 1;
    LatestOfOneMore(signals, layer, head, keyOf);
    if Counts(signals[n], layer, head) && key == keyOf(signals[n].command) {
      k := n;
    } else {
      k := LatestHasLastRun(signals[..n], key, layer, head, keyOf);
    }
  }

  lemma LatestOfOneMore(signals: seq<Signal>, layer: int, head: string, keyOf: Key)
    requires signals != []
    ensures var n, before := |signals| - 1, Latest(Live(signals[..|signals| - 1], layer, head), keyOf);
            Latest(Live(signals, layer, head), keyOf)
            == if Counts(signals[n], layer, head) then before[keyOf(signals[n].command) := signals[n]] else before
  {
    var n, rows := |signals| - 1, Live(signals[..|signals| - 1], layer, head);
    if Counts(signals[n], layer, head) {
      assert (rows + [signals[n]])[..|rows|] == rows;
    } else {
      assert rows + [] == rows;
    }
  }

  /** A layer is red exactly when the last run of some command is red, and green exactly when none is and some is
      green. */
  lemma VerdictIsExact(signals: seq<Signal>, layer: int, head: string, keyOf: Key)
    ensures LayerVerdict(signals, layer, head, keyOf)
            == if SomeLastRun(signals, Fail, layer, head, keyOf) then Fail
               else if SomeLastRun(signals, Pass, layer, head, keyOf) then Pass else Unknown
  {
    LastRunsWith(signals, layer, head, keyOf, Fail);
    LastRunsWith(signals, layer, head, keyOf, Pass);
  }

  lemma LastRunsWith(signals: seq<Signal>, layer: int, head: string, keyOf: Key, outcome: Outcome)
    ensures Has(Latest(Live(signals, layer, head), keyOf), outcome)
            <==> SomeLastRun(signals, outcome, layer, head, keyOf)
  {
    var latest := Latest(Live(signals, layer, head), keyOf);
    if k: nat :| LastRun(signals, k, layer, head, keyOf) && signals[k].outcome == outcome {
      LastRunIsLatest(signals, k, layer, head, keyOf);
    }
    if key :| key in latest && latest[key].outcome == outcome {
      var k := LatestHasLastRun(signals, key, layer, head, keyOf);
      LastRunIsLatest(signals, k, layer, head, keyOf);
    }
  }

  /** A green layer is backed by a green signal of that layer that no later run of its command replaced. */
  lemma {:induction false} GreenIsBacked(rows: seq<Signal>, keyOf: Key, key: string) returns (k: nat)
    requires key in Latest(rows, keyOf)
    ensures k < |rows| && rows[k] == Latest(rows, keyOf)[key] && keyOf(rows[k].command) == key
    ensures forall m :: k < m < |rows| ==> keyOf(rows[m].command) != key
  {
    var n := |rows| - 1;
    if keyOf(rows[n].command) == key {
      k := n;
    } else {
      k := GreenIsBacked(rows[..n], keyOf, key);
    }
  }
}
