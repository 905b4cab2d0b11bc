/** The greedy packing of grading questions into capsules (scripts/graph_v2_grade.py, `batches`), and that no
    other packing in the same order needs fewer capsules. */
module Packing {
  import opened Wrappers

  const MAX_CAPSULE_BYTES := 18000

  datatype Kind = Real | Semantic

  /** A question of the queue; `basePath` names the sources a real question is judged on. */
  datatype Item = Item(id: string, kind: Kind, basePath: string)

  datatype Capsule = Capsule(kind: Kind, items: seq<Item>)

  datatype TooLarge = TooLarge(item: Item)

  function BatchLimit(kind: Kind): nat { if kind.Real? then 70 else 80 }

  /** The size in bytes of a capsule. */
  type Size = (Kind, seq<Item>) -> nat

  predicate Fits(kind: Kind, items: seq<Item>, size: Size) {
    |items| <= BatchLimit(kind) && size(kind, items) <= MAX_CAPSULE_BYTES
  }

  function OfKind(queue: seq<Item>, kind: Kind): seq<Item> {
    if queue == [] then []
    else
      var n := |queue| - 1;
      OfKind(queue[..n], kind) + if queue[n].kind == kind then [queue[n]] else []
  }

  /** How far one batch goes that already holds the first `n` of `items`: it takes the next item while that
      fits. */
  function Reach(kind: Kind, items: seq<Item>, n: nat, size: Size): (m: nat)
    requires n <= |items|
    ensures n <= m <= |items| && (m < |items| ==> !Fits(kind, items[..m + 1], size))
    ensures forall k :: n < k <= m ==> Fits(kind, items[..k], size)
    decreases |items| - n
  {
    if n < |items| && Fits(kind, items[..n + 1], size) then Reach(kind, items, n + 1, size) else n
  }

  /** The greedy batches: every batch reaches as far as it can; an item that does not fit alone is refused. */
  function Pack(kind: Kind, items: seq<Item>, size: Size): Result<seq<seq<Item>>, TooLarge>
    decreases |items|
  {
    if items == [] then Ok([])
    else
      var m := Reach(kind, items, 0, size);
      if m == 0 then Err(TooLarge(items[0]))
      else
        match Pack(kind, items[m..], size)
        case Err(e) => Err(e)
        case Ok(rest) => Ok([items[..m]] + rest)
  }

  // ---------------------------------------------------------------- the loop

  function Flatten(parts: seq<seq<Item>>): seq<Item> { if parts == [] then [] else parts[0] + Flatten(parts[1..]) }

  function Prepend(done: seq<seq<Item>>, rest: Result<seq<seq<Item>>, TooLarge>): Result<seq<seq<Item>>, TooLarge> {
    if rest.Err? then rest else Ok(done + rest.value)
  }

  /** The pass of `batches` over the items of one kind. */
  method PackKind(kind: Kind, items: seq<Item>, size: Size) returns (out: Result<seq<seq<Item>>, TooLarge>)
    ensures out == Pack(kind, items, size)
  {
    var done: seq<seq<Item>> := [];
    var pending: seq<Item> := [];
    ghost var start := 0;
    PrependNothing(Pack(kind, items, size));
    assert items[0..] == items && items[0..0] == [];
    for i := 0 to |items|
      invariant Midway(kind, items, start, i, done, pending, size)
    {
      var item := items[i];
      var proposed := pending + [item];
      assert [] + [item] == [item];
      if pending != [] && (|pending| >= BatchLimit(kind) || size(kind, proposed) > MAX_CAPSULE_BYTES) {
        Flush(kind, items, start, i, done, pending, size);
        done := done + [pending];
        pending, start := [], i;
        proposed := [item];
      }
      if size(kind, proposed) > MAX_CAPSULE_BYTES {
        TooLargeEnds(kind, items, start, i, done, pending, size);
        return Err(TooLarge(item));
      }
      OneMoreFits(kind, items, start, i, done, pending, size);
      pending := pending + [item];
    }
    if pending != [] {
      Flush(kind, items, start, |items|, done, pending, size);
      done := done + [pending];
      start := |items|;
    }
    AllDone(kind, items, start, done, size);
    return Ok(done);
  }

  /** `done` batches are finished and `pending` holds the items from `start` to `i`, which fit at every length. */
  ghost predicate Midway(kind: Kind, items: seq<Item>, start: nat, i: nat, done: seq<seq<Item>>, pending: seq<Item>,
                         size: Size)
  {
    && start <= i <= |items| && pending == items[start..i] && FitsThroughout(kind, items, start, i, size)
    && Pack(kind, items, size) == Prepend(done, Pack(kind, items[start..], size))
  }

  lemma Flush(kind: Kind, items: seq<Item>, start: nat, i: nat, done: seq<seq<Item>>, pending: seq<Item>, size: Size)
    requires Midway(kind, items, start, i, done, pending, size) && pending != []
    requires i < |items| ==> !Fits(kind, pending + [items[i]], size)
    ensures Midway(kind, items, i, i, done + [pending], [], size)
  {
    assert i < |items| ==> pending + [items[i]] == items[start..i + 1];
    BatchEnds(kind, items, start, i, size);
    PrependOne(done, pending, Pack(kind, items[i..], size));
  }

  lemma OneMoreFits(kind: Kind, items: seq<Item>, start: nat, i: nat, done: seq<seq<Item>>, pending: seq<Item>,
                    size: Size)
    requires i < |items| && Midway(kind, items, start, i, done, pending, size)
    requires Fits(kind, pending + [items[i]], size)
    ensures Midway(kind, items, start, i + 1, done, pending + [items[i]], size)
  {
    assert pending + [items[i]] == items[start..i + 1];
  }

  lemma TooLargeEnds(kind: Kind, items: seq<Item>, start: nat, i: nat, done: seq<seq<Item>>, pending: seq<Item>,
                     size: Size)
    requires i < |items| && Midway(kind, items, start, i, done, pending, size)
    requires pending == [] && !Fits(kind, [items[i]], size)
    ensures Pack(kind, items, size) == Err(TooLarge(items[i]))
  {
    assert items[start..][..1] == [items[i]];
  }

  lemma AllDone(kind: Kind, items: seq<Item>, start: nat, done: seq<seq<Item>>, size: Size)
    requires Midway(kind, items, start, |items|, done, [], size)
    ensures Pack(kind, items, size) == Ok(done)
  {
    assert items[start..] == [] && done + [] == done;
  }

  /** The batch that starts at `start` fits at every length up to `end`. */
  ghost predicate FitsThroughout(kind: Kind, items: seq<Item>, start: nat, end: nat, size: Size)
    requires start <= end <= |items|
  {
    forall k :: start < k <= end ==> Fits(kind, items[start..k], size)
  }

  /** A batch from `start` to `end` that fits at every length and cannot take the next item is the first greedy
      batch. */
  lemma BatchEnds(kind: Kind, items: seq<Item>, start: nat, end: nat, size: Size)
    requires start < end <= |items| && (end < |items| ==> !Fits(kind, items[start..end + 1], size))
    requires FitsThroughout(kind, items, start, end, size)
    ensures Pack(kind, items[start..], size) == Prepend([items[start..end]], Pack(kind, items[end..], size))
  {
    var rest, n := items[start..], end - start;
    forall k | 0 < k <= n
      ensures Fits(kind, rest[..k], size)
    {
      assert rest[..k] == items[start..start + k];
    }
    if n < |rest| {
      assert rest[..n + 1] == items[start..end + 1];
    }
    assert rest[..n] == items[start..end];
    assert Reach(kind, rest, 0, size) == n;
    assert rest[n..] == items[end..];
  }

  lemma PrependNothing(rest: Result<seq<seq<Item>>, TooLarge>)
    ensures Prepend([], rest) == rest
  {
    if rest.Ok? { assert [] + rest.value == rest.value; }
  }

  lemma PrependOne(done: seq<seq<Item>>, batch: seq<Item>, rest: Result<seq<seq<Item>>, TooLarge>)
    ensures Prepend(done, Prepend([batch], rest)) == Prepend(done + [batch], rest)
  {
    if rest.Ok? { assert done + ([batch] + rest.value) == done + [batch] + rest.value; }
  }

  /** The real questions, then the semantic ones. */
  function PackQueue(queue: seq<Item>, size: Size): Result<seq<Capsule>, TooLarge> {
    var first := Pack(Real, OfKind(queue, Real), size);
    var second := Pack(Semantic, OfKind(queue, Semantic), size);
    if first.Err? then Err(first.error) else if second.Err? then Err(second.error)
    else Ok(Capsules(Real, first.value) + Capsules(Semantic, second.value))
  }

  /** `batches`. */
  method Batches(queue: seq<Item>, size: Size) returns (out: Result<seq<Capsule>, TooLarge>)
    ensures out == PackQueue(queue, size)
  {
    var capsules: seq<Capsule> := [];
    var kinds := [Real, Semantic];
    for k := 0 to 2
      invariant k == 0 ==> capsules == []
      invariant k >= 1 ==> Pack(Real, OfKind(queue, Real), size).Ok?
      invariant k == 1 ==> capsules == Capsules(Real, Pack(Real, OfKind(queue, Real), size).value)
      invariant k == 2 ==> PackQueue(queue, size) == Ok(capsules)
    {
      var parts := PackKind(kinds[k], OfKind(queue, kinds[k]), size);
      if parts.Err? {
        return Err(parts.error);
      }
      capsules := capsules + Capsules(kinds[k], parts.value);
    }
    return Ok(capsules);
  }

  function Capsules(kind: Kind, parts: seq<seq<Item>>): seq<Capsule> {
    seq(|parts|, k requires 0 <= k < |parts| => Capsule(kind, parts[k]))
  }

  // ---------------------------------------------------------------- a partition within the limits

  predicate Within(kind: Kind, parts: seq<seq<Item>>, size: Size) {
    forall k :: 0 <= k < |parts| ==> parts[k] != [] && Fits(kind, parts[k], size)
  }

  /** The batches are non-empty, within both limits, and joined they are the items in their order. */
  lemma {:induction false} PackPartitions(kind: Kind, items: seq<Item>, size: Size)
    ensures var r := Pack(kind, items, size);
            r.Ok? ==> Flatten(r.value) == items && Within(kind, r.value, size)
    decreases |items|
  {
    if items != [] && Pack(kind, items, size).Ok? {
      var m := FirstReach(kind, items, size);
      PackPartitions(kind, items[m..], size);
      FirstBatch(kind, items[..m], Pack(kind, items[m..], size).value, size);
      assert items == items[..m] + items[m..];
    }
  }

  /** The first batch of a packing, and the rest. */
  lemma FirstReach(kind: Kind, items: seq<Item>, size: Size) returns (m: nat)
    requires items != [] && Pack(kind, items, size).Ok?
    ensures 0 < m <= |items| && Fits(kind, items[..m], size) && (m < |items| ==> !Fits(kind, items[..m + 1], size))
    ensures Pack(kind, items[m..], size).Ok?
    ensures Pack(kind, items, size).value == [items[..m]] + Pack(kind, items[m..], size).value
  {
    m := Reach(kind, items, 0, size);
  }

  /** The packing is greedy: no batch could take the first item of the next one. */
  lemma {:induction false} PackIsGreedy(kind: Kind, items: seq<Item>, size: Size, k: nat)
    requires Pack(kind, items, size).Ok? && k + 1 < |Pack(kind, items, size).value|
    ensures var parts := Pack(kind, items, size).value;
            parts[k + 1] != [] && !Fits(kind, parts[k] + [parts[k + 1][0]], size)
    decreases |items|
  {
    var m := FirstReach(kind, items, size);
    var rest := Pack(kind, items[m..], size).value;
    if k > 0 {
      PackIsGreedy(kind, items[m..], size, k - 1);
    } else {
      PackPartitions(kind, items[m..], size);
      FirstOfFlat(rest);
      assert items[m..][0] == items[m];
      assert items[..m] + [items[m]] == items[..m + 1];
    }
  }

  lemma FirstOfFlat(parts: seq<seq<Item>>)
    requires parts != [] && parts[0] != []
    ensures Flatten(parts) != [] && Flatten(parts)[0] == parts[0][0]
  {
  }

  /** A refusal names the first item that is too large alone. */
  lemma {:induction false} RefusalNamesTheFirst(kind: Kind, items: seq<Item>, size: Size) returns (k: nat)
    requires Monotone(kind, size) && Pack(kind, items, size).Err?
    ensures k < |items| && Pack(kind, items, size).error.item == items[k] && TooLargeAlone(kind, items[k], size)
    ensures forall m :: 0 <= m < k ==> !TooLargeAlone(kind, items[m], size)
    decreases |items|
  {
    var r := Reach(kind, items, 0, size);
    assert items[..1] == [items[0]];
    if r == 0 {
      k := 0;
    } else {
      var n := RefusalNamesTheFirst(kind, items[r..], size);
      k := r + n;
      NoneInABatch(kind, items[..r], size);
      forall m | 0 <= m < k
        ensures !TooLargeAlone(kind, items[m], size)
      {
        assert items[m] == if m < r then items[..r][m] else items[r..][m - r];
      }
    }
  }

  lemma NoneInABatch(kind: Kind, batch: seq<Item>, size: Size)
    requires Monotone(kind, size) && Fits(kind, batch, size)
    ensures forall m :: 0 <= m < |batch| ==> !TooLargeAlone(kind, batch[m], size)
  {
    forall m | 0 <= m < |batch|
      ensures !TooLargeAlone(kind, batch[m], size)
    {
      FitsIsMonotone(kind, batch, m, m + 1, size);
      assert batch[m..m + 1] == [batch[m]];
    }
  }

  lemma FirstBatch(kind: Kind, batch: seq<Item>, parts: seq<seq<Item>>, size: Size)
    requires batch != [] && Fits(kind, batch, size) && Within(kind, parts, size)
    ensures Flatten([batch] + parts) == batch + Flatten(parts) && Within(kind, [batch] + parts, size)
  {
    assert ([batch] + parts)[1..] == parts;
  }

  /** A capsule of some of the items in a row is no larger than one of all of them. */
  ghost predicate Monotone(kind: Kind, size: Size) {
    forall items: seq<Item>, i, j :: 0 <= i <= j <= |items| ==> size(kind, items[i..j]) <= size(kind, items)
  }

  predicate TooLargeAlone(kind: Kind, item: Item, size: Size) { size(kind, [item]) > MAX_CAPSULE_BYTES }

  lemma FitsIsMonotone(kind: Kind, items: seq<Item>, i: nat, j: nat, size: Size)
    requires Monotone(kind, size) && i <= j <= |items| && Fits(kind, items, size)
    ensures Fits(kind, items[i..j], size)
  {
  }

  /** Packing refuses exactly when some item is too large alone. */
  lemma {:induction false} RefusesExactlyTooLarge(kind: Kind, items: seq<Item>, size: Size)
    requires Monotone(kind, size)
    ensures Pack(kind, items, size).Err? <==> exists k :: 0 <= k < |items| && TooLargeAlone(kind, items[k], size)
    decreases |items|
  {
    if items != [] {
      var m := Reach(kind, items, 0, size);
      assert items[..1] == [items[0]];
      if m > 0 {
        RefusesExactlyTooLarge(kind, items[m..], size);
        forall k | 0 <= k < m
          ensures !TooLargeAlone(kind, items[k], size)
        {
          FitsIsMonotone(kind, items[..m], k, k + 1, size);
          assert items[..m][k..k + 1] == [items[k]];
        }
        forall k | m <= k < |items|
          ensures items[k] == items[m..][k - m]
        {
        }
      }
    }
  }

  // ---------------------------------------------------------------- no packing is shorter

  /** What is left of a packing when its first `k` items go: whole batches, and the front of one. */
  function Trim(parts: seq<seq<Item>>, k: nat): seq<seq<Item>>
    requires k <= |Flatten(parts)|
    decreases |parts|
  {
    if k == 0 || parts == [] then parts
    else if k < |parts[0]| then [parts[0][k..]] + parts[1..]
    else Trim(parts[1..], k - |parts[0]|)
  }

  lemma {:induction false} TrimPartitions(kind: Kind, parts: seq<seq<Item>>, k: nat, size: Size)
    requires Monotone(kind, size) && Within(kind, parts, size) && k <= |Flatten(parts)|
    ensures |Trim(parts, k)| <= |parts| && Within(kind, Trim(parts, k), size)
    ensures Flatten(Trim(parts, k)) == Flatten(parts)[k..]
    decreases |parts|
  {
    if k == 0 || parts == [] {
    } else if k < |parts[0]| {
      var cut := parts[0][k..];
      FitsIsMonotone(kind, parts[0], k, |parts[0]|, size);
      assert parts[0][k..|parts[0]|] == cut;
      FirstBatch(kind, cut, parts[1..], size);
    } else {
      var left: nat := k - |parts[0]|;
      BatchesAfter(parts, k);
      TrimPartitions(kind, parts[1..], left, size);
    }
  }

  lemma BatchesAfter(parts: seq<seq<Item>>, k: nat)
    requires parts != [] && |parts[0]| <= k <= |Flatten(parts)|
    ensures k - |parts[0]| <= |Flatten(parts[1..])|
    ensures Flatten(parts)[k..] == Flatten(parts[1..])[k - |parts[0]|..]
  {
  }

  /** The first greedy batch reaches at least as far as any batch that fits. */
  lemma ReachesAsFar(kind: Kind, items: seq<Item>, part: seq<Item>, size: Size)
    requires Monotone(kind, size) && part <= items && part != [] && Fits(kind, part, size)
    ensures |part| <= Reach(kind, items, 0, size)
  {
    forall k | 0 <= k <= |part|
      ensures Fits(kind, items[..k], size)
    {
      FitsIsMonotone(kind, part, 0, k, size);
      assert part[0..k] == items[..k];
    }
  }

  /** Greedy packing is minimal: every packing of the items in their order, within the limits, has at least as
      many batches. */
  lemma {:induction false} PackIsMinimal(kind: Kind, items: seq<Item>, parts: seq<seq<Item>>, size: Size)
    requires Monotone(kind, size) && Flatten(parts) == items && Within(kind, parts, size)
    ensures Pack(kind, items, size).Ok? && |Pack(kind, items, size).value| <= |parts|
    decreases |items|
  {
    if items != [] {
      var m := Reach(kind, items, 0, size);
      ReachesAsFar(kind, items, parts[0], size);
      var left: nat := m - |parts[0]|;
      BatchesAfter(parts, m);
      TrimPartitions(kind, parts[1..], left, size);
      PackIsMinimal(kind, items[m..], Trim(parts[1..], left), size);
    }
  }

  // ---------------------------------------------------------------- the size of a capsule

  /** The bytes of a capsule: its frame, every item with its separators, and the sources of every base that
      occurs, once. */
  function Bytes(items: seq<Item>, frame: nat, text: Item -> nat, sources: string -> nat): nat {
    frame + TextBytes(items, text) + SourceBytes(items, {}, sources)
  }

  function TextBytes(items: seq<Item>, text: Item -> nat): nat {
    if items == [] then 0 else text(items[0]) + TextBytes(items[1..], text)
  }

  /** The sources of the bases that occur in `items` and not in `seen`. */
  function SourceBytes(items: seq<Item>, seen: set<string>, sources: string -> nat): nat {
    if items == [] then 0
    else if items[0].basePath in seen then SourceBytes(items[1..], seen, sources)
    else sources(items[0].basePath) + SourceBytes(items[1..], seen + {items[0].basePath}, sources)
  }

  lemma {:induction false} OneBaseLess(items: seq<Item>, seen: set<string>, base: string, sources: string -> nat)
    ensures SourceBytes(items, seen, sources) <= sources(base) + SourceBytes(items, seen + {base}, sources)
    decreases |items|
  {
    if items != [] {
      var b := items[0].basePath;
      if b in seen {
        OneBaseLess(items[1..], seen, base, sources);
      } else if b != base {
        OneBaseLess(items[1..], seen + {b}, base, sources);
        assert seen + {b} + {base} == seen + {base} + {b};
      }
    }
  }

  lemma {:induction false} PrefixIsSmaller(items: seq<Item>, j: nat, seen: set<string>, text: Item -> nat,
                                           sources: string -> nat)
    requires j <= |items|
    ensures TextBytes(items[..j], text) <= TextBytes(items, text)
    ensures SourceBytes(items[..j], seen, sources) <= SourceBytes(items, seen, sources)
    decreases |items|
  {
    if j > 0 {
      assert items[..j][1..] == items[1..][..j - 1];
      var b := items[0].basePath;
      PrefixIsSmaller(items[1..], j - 1, if b in seen then seen else seen + {b}, text, sources);
    }
  }

  lemma {:induction false} SuffixIsSmaller(items: seq<Item>, i: nat, text: Item -> nat, sources: string -> nat)
    requires i <= |items|
    ensures TextBytes(items[i..], text) <= TextBytes(items, text)
    ensures SourceBytes(items[i..], {}, sources) <= SourceBytes(items, {}, sources)
    decreases |items|
  {
    if i > 0 {
      assert items[i..] == items[1..][i - 1..];
      SuffixIsSmaller(items[1..], i - 1, text, sources);
      OneBaseLess(items[1..], {}, items[0].basePath, sources);
      assert {} + {items[0].basePath} == {items[0].basePath};
    }
  }

  /** The size `batches` measures is monotone, so its packing is minimal. */
  lemma BytesAreMonotone(kind: Kind, frame: nat, text: Item -> nat, sources: string -> nat)
    ensures Monotone(kind, (k, items) => Bytes(items, frame, text, sources))
  {
    forall items: seq<Item>, i, j | 0 <= i <= j <= |items|
      ensures Bytes(items[i..j], frame, text, sources) <= Bytes(items, frame, text, sources)
    {
      assert items[i..j] == items[..j][i..];
      SuffixIsSmaller(items[..j], i, text, sources);
      PrefixIsSmaller(items, j, {}, text, sources);
    }
  }
}
