/** The comparison of a ledger with the harness's own result (scripts/itd_closure_delta.py, `diff_paths`,
    `normalize_goal`, `normalize_state`, `compare_json`): JSON trees whose key order counts. */
module LedgerDiff {
  import opened Wrappers

  /** A JSON value as the parser builds it: numbers keep whether they were written as integers, and an object keeps
      the order of its keys. */
  datatype Json = Null | Bool(b: bool) | Int(n: int) | Float(x: real) | Str(s: string) | Arr(items: seq<Json>)
                | Obj(fields: seq<Field>)

  datatype Field = Field(key: string, value: Json)

  function Keys(fields: seq<Field>): seq<string> { seq(|fields|, k requires 0 <= k < |fields| => fields[k].key) }

  /** The value under a key; the keys of a parsed object are distinct. */
  function Get(fields: seq<Field>, key: string): Option<Json> {
    if fields == [] then None else if fields[0].key == key then Some(fields[0].value) else Get(fields[1..], key)
  }

  // ---------------------------------------------------------------- the tree diff

  datatype Place = Key(key: string) | At(index: nat)

  /** A difference: different keys, keys in another order, another length, or another value or type. */
  datatype Difference = KeySets(where: seq<Place>, extra: seq<string>, missing: seq<string>)
                      | KeyOrder(where: seq<Place>) | Length(where: seq<Place>) | Value(where: seq<Place>)

  function Only(keys: seq<string>, others: seq<string>): seq<string> {
    if keys == [] then [] else (if keys[0] in others then [] else [keys[0]]) + Only(keys[1..], others)
  }

  function Children(a: Json): seq<Json> {
    match a
    case Arr(items) => items
    case Obj(fields) => seq(|fields|, k requires 0 <= k < |fields| => fields[k].value)
    case _ => []
  }

  function PlaceOf(a: Json, k: nat): Place
    requires k < |Children(a)|
  {
    if a.Obj? then Key(a.fields[k].key) else At(k)
  }

  /** The two are objects with the same keys in the same order, or arrays of one length. */
  predicate SameShape(a: Json, b: Json) {
    (a.Obj? && b.Obj? && Keys(a.fields) == Keys(b.fields)) || (a.Arr? && b.Arr? && |a.items| == |b.items|)
  }

  /** `diff_paths`. */
  function Diff(a: Json, b: Json, where: seq<Place>): seq<Difference>
    decreases a, |Children(a)| + 1
  {
    if SameShape(a, b) then DiffChildren(a, b, 0, where)
    else if a.Obj? && b.Obj? then
      var extra, missing := Only(Keys(a.fields), Keys(b.fields)), Only(Keys(b.fields), Keys(a.fields));
      if extra != [] || missing != [] then [KeySets(where, extra, missing)] else [KeyOrder(where)]
    else if a.Arr? && b.Arr? then [Length(where)]
    else if a != b then [Value(where)]
    else []
  }

  /** The differences of the children from the `k`-th on. */
  function DiffChildren(a: Json, b: Json, k: nat, where: seq<Place>): seq<Difference>
    requires k <= |Children(a)| == |Children(b)|
    decreases a, |Children(a)| - k
  {
    if k == |Children(a)| then []
    else
      Diff(Children(a)[k], Children(b)[k], where + [PlaceOf(a, k)]) + DiffChildren(a, b, k + 1, where)
  }

  lemma SameChildren(a: Json, b: Json)
    requires SameShape(a, b)
    ensures a == b <==> Children(a) == Children(b)
  {
    if Children(a) == Children(b) && a.Obj? {
      forall k | 0 <= k < |a.fields|
        ensures a.fields[k] == b.fields[k]
      {
        assert Keys(a.fields)[k] == Keys(b.fields)[k];
        assert Children(a)[k] == Children(b)[k];
      }
      assert a.fields == b.fields;
    }
  }

  /** The diff is empty exactly when the two trees are the same: values, types and key order. */
  lemma {:induction false} DiffIsExact(a: Json, b: Json, where: seq<Place>)
    ensures Diff(a, b, where) == [] <==> a == b
    decreases a, |Children(a)| + 1
  {
    if SameShape(a, b) {
      SameChildren(a, b);
      DiffChildrenIsExact(a, b, 0, where);
      assert Children(a)[0..] == Children(a) && Children(b)[0..] == Children(b);
    }
  }

  lemma {:induction false} DiffChildrenIsExact(a: Json, b: Json, k: nat, where: seq<Place>)
    requires k <= |Children(a)| == |Children(b)|
    ensures DiffChildren(a, b, k, where) == [] <==> Children(a)[k..] == Children(b)[k..]
    decreases a, |Children(a)| - k
  {
    if k < |Children(a)| {
      var x, y, place := Children(a), Children(b), where + [PlaceOf(a, k)];
      DiffIsExact(x[k], y[k], place);
      DiffChildrenIsExact(a, b, k + 1, where);
      SameFrom(x, y, k);
      assert DiffChildren(a, b, k, where) == Diff(x[k], y[k], place) + DiffChildren(a, b, k + 1, where);
    }
  }

  lemma SameFrom(x: seq<Json>, y: seq<Json>, k: nat)
    requires k < |x| == |y|
    ensures x[k..] == y[k..] <==> x[k] == y[k] && x[k + 1..] == y[k + 1..]
  {
    assert x[k..] == [x[k]] + x[k + 1..] && y[k..] == [y[k]] + y[k + 1..];
  }

  predicate DistinctKeys(fields: seq<Field>) {
    forall i, j :: 0 <= i < j < |fields| ==> fields[i].key != fields[j].key
  }

  lemma {:induction false} GetAt(fields: seq<Field>, k: nat)
    requires DistinctKeys(fields) && k < |fields|
    ensures Get(fields, fields[k].key) == Some(fields[k].value)
  {
    if k > 0 {
      GetAt(fields[1..], k - 1);
    }
  }

  lemma {:induction false} OnlyIsExact(keys: seq<string>, others: seq<string>)
    ensures forall key :: key in Only(keys, others) <==> key in keys && key !in others
    decreases keys
  {
    if keys != [] {
      OnlyIsExact(keys[1..], others);
      assert forall key :: key in keys <==> key == keys[0] || key in keys[1..];
    }
  }

  /** Two objects whose keys differ are reported once: with the keys only one of them has, or, when there are none, as
      keys in another order. Two arrays of different lengths are reported as such, and any other two values that differ
      as different values. */
  lemma DiffOfShapes(a: Json, b: Json, where: seq<Place>)
    requires !SameShape(a, b)
    ensures a.Obj? && b.Obj? ==>
              |Diff(a, b, where)| == 1 && Diff(a, b, where)[0].where == where
              && match Diff(a, b, where)[0]
                 case KeySets(_, extra, missing) =>
                   && (forall key :: key in extra <==> key in Keys(a.fields) && key !in Keys(b.fields))
                   && (forall key :: key in missing <==> key in Keys(b.fields) && key !in Keys(a.fields))
                   && (extra != [] || missing != [])
                 case KeyOrder(_) => forall key :: key in Keys(a.fields) <==> key in Keys(b.fields)
                 case _ => false
    ensures a.Arr? && b.Arr? ==> Diff(a, b, where) == [Length(where)]
    ensures !(a.Obj? && b.Obj?) && !(a.Arr? && b.Arr?) ==> Diff(a, b, where) == if a == b then [] else [Value(where)]
  {
    if a.Obj? && b.Obj? {
      OnlyIsExact(Keys(a.fields), Keys(b.fields));
      OnlyIsExact(Keys(b.fields), Keys(a.fields));
      var extra, missing := Only(Keys(a.fields), Keys(b.fields)), Only(Keys(b.fields), Keys(a.fields));
      if extra == [] && missing == [] {
        forall key
          ensures key in Keys(a.fields) <==> key in Keys(b.fields)
        {
          assert key !in extra && key !in missing;
        }
      }
    }
  }

  /** No object in the tree has a key twice: the parser refuses one that does. */
  predicate Tidy(a: Json)
    decreases a
  {
    match a
    case Arr(items) => forall k :: 0 <= k < |items| ==> Tidy(items[k])
    case Obj(fields) => DistinctKeys(fields) && forall k :: 0 <= k < |fields| ==> Tidy(fields[k].value)
    case _ => true
  }

  function Child(a: Json, place: Place): Option<Json> {
    match place
    case Key(key) => if a.Obj? then Get(a.fields, key) else None
    case At(index) => if a.Arr? && index < |a.items| then Some(a.items[index]) else None
  }

  /** The value at a path from the root of a tree. */
  function Lookup(a: Json, path: seq<Place>): Option<Json>
    decreases |path|
  {
    if path == [] then Some(a)
    else
      var child := Child(a, path[0]);
      if child.Some? then Lookup(child.value, path[1..]) else None
  }

  /** A path leads, in both trees, to values that differ. */
  predicate DifferAt(a: Json, b: Json, path: seq<Place>) {
    Lookup(a, path).Some? && Lookup(b, path).Some? && Lookup(a, path) != Lookup(b, path)
  }

  /** Every difference is reported at a path where the trees differ. */
  lemma {:induction false} DifferencesAreReal(a: Json, b: Json, where: seq<Place>, d: Difference)
    returns (path: seq<Place>)
    requires Tidy(a) && Tidy(b) && d in Diff(a, b, where)
    ensures d.where == where + path && DifferAt(a, b, path)
    decreases a
  {
    if SameShape(a, b) {
      var k := InAChild(a, b, where, d);
      var rest := DifferencesAreReal(Children(a)[k], Children(b)[k], where + [PlaceOf(a, k)], d);
      path := [PlaceOf(a, k)] + rest;
      Raised(a, b, k, where, d, rest);
    } else {
      path := [];
    }
  }

  lemma InAChild(a: Json, b: Json, where: seq<Place>, d: Difference) returns (k: nat)
    requires Tidy(a) && Tidy(b) && SameShape(a, b) && d in Diff(a, b, where)
    ensures k < |Children(a)| == |Children(b)| && Children(a)[k] < a
    ensures Tidy(Children(a)[k]) && Tidy(Children(b)[k])
    ensures d in Diff(Children(a)[k], Children(b)[k], where + [PlaceOf(a, k)])
  {
    k := DifferenceOfAChild(a, b, 0, where, d);
  }

  lemma Raised(a: Json, b: Json, k: nat, where: seq<Place>, d: Difference, rest: seq<Place>)
    requires Tidy(a) && Tidy(b) && SameShape(a, b) && k < |Children(a)| == |Children(b)|
    requires d.where == where + [PlaceOf(a, k)] + rest && DifferAt(Children(a)[k], Children(b)[k], rest)
    ensures d.where == where + ([PlaceOf(a, k)] + rest) && DifferAt(a, b, [PlaceOf(a, k)] + rest)
  {
    var place := PlaceOf(a, k);
    SamePlace(a, b, k);
    Deeper(a, k, rest);
    Deeper(b, k, rest);
    Regroup(where, [place], rest);
  }

  lemma Regroup(a: seq<Place>, b: seq<Place>, c: seq<Place>)
    ensures a + b + c == a + (b + c)
  {
  }

  lemma {:induction false} DifferenceOfAChild(a: Json, b: Json, from: nat, where: seq<Place>, d: Difference)
    returns (k: nat)
    requires from <= |Children(a)| == |Children(b)| && d in DiffChildren(a, b, from, where)
    ensures k < |Children(a)| && d in Diff(Children(a)[k], Children(b)[k], where + [PlaceOf(a, k)])
    decreases |Children(a)| - from
  {
    k := from;
    if d !in Diff(Children(a)[k], Children(b)[k], where + [PlaceOf(a, k)]) {
      k := DifferenceOfAChild(a, b, from + 1, where, d);
    }
  }

  lemma SamePlace(a: Json, b: Json, k: nat)
    requires SameShape(a, b) && k < |Children(a)| == |Children(b)|
    ensures PlaceOf(a, k) == PlaceOf(b, k)
  {
    if a.Obj? {
      assert Keys(a.fields)[k] == Keys(b.fields)[k];
    }
  }

  lemma Deeper(a: Json, k: nat, rest: seq<Place>)
    requires Tidy(a) && k < |Children(a)|
    ensures Lookup(a, [PlaceOf(a, k)] + rest) == Lookup(Children(a)[k], rest)
  {
    ChildAt(a, k);
    assert ([PlaceOf(a, k)] + rest)[1..] == rest;
  }

  lemma ChildAt(a: Json, k: nat)
    requires Tidy(a) && k < |Children(a)|
    ensures Child(a, PlaceOf(a, k)) == Some(Children(a)[k])
  {
    if a.Obj? {
      GetAt(a.fields, k);
    }
  }

  // ---------------------------------------------------------------- masking the fields a closure may set

  /** `fields` with the value under `key` replaced, in place. */
  function Mask(fields: seq<Field>, key: string, value: Json): seq<Field> {
    seq(|fields|, k requires 0 <= k < |fields| => if fields[k].key == key then Field(key, value) else fields[k])
  }

  /** `fields` without `key`. */
  function Without(fields: seq<Field>, key: string): seq<Field> {
    if fields == [] then []
    else (if fields[0].key == key then [] else [fields[0]]) + Without(fields[1..], key)
  }

  const TIME: Json := Str("<time>")
  const EVIDENCE: Json := Str("<evidence>")

  /** `unit_in`: the position of the first object with this id, or the number of units. */
  function UnitAt(units: seq<Json>, id: string, k: nat): (at: nat)
    requires k <= |units|
    ensures k <= at <= |units| && (at < |units| ==> IsUnit(units[at], id))
    ensures forall m :: k <= m < at ==> !IsUnit(units[m], id)
    decreases |units| - k
  {
    if k == |units| || IsUnit(units[k], id) then k else UnitAt(units, id, k + 1)
  }

  predicate IsUnit(unit: Json, id: string) { unit.Obj? && Get(unit.fields, "id") == Some(Str(id)) }

  /** The unit `id` is in this list of units. */
  predicate HasUnit(units: Json, id: string) { units.Arr? && UnitAt(units.items, id, 0) < |units.items| }

  predicate ClosedUnit(unit: Json) {
    unit.Obj? && Get(unit.fields, "status") in {Some(Str("verified")), Some(Str("skipped"))}
  }

  /** Every unit is verified or skipped, and the goal says it is done. */
  predicate DoneByHand(goal: seq<Field>) {
    && Get(goal, "status") == Some(Str("done"))
    && Get(goal, "units").Some? && Get(goal, "units").value.Arr?
    && forall u :: u in Get(goal, "units").value.items ==> ClosedUnit(u)
  }

  function NormalUnit(unit: seq<Field>): seq<Field> {
    Mask(Mask(Without(unit, "verificationReceipt"), "verifiedAt", TIME), "evidence", EVIDENCE)
  }

  function NormalUnits(units: Json, id: string): Json {
    if HasUnit(units, id) then
      var at := UnitAt(units.items, id, 0);
      Arr(units.items[at := Obj(NormalUnit(units.items[at].fields))])
    else units
  }

  function NormalGoalField(field: Field, done: bool, id: string): Field {
    if field.key == "updatedAt" then Field(field.key, TIME)
    else if field.key == "units" then Field(field.key, NormalUnits(field.value, id))
    else if field.key == "status" && done then Field(field.key, Str("active"))
    else field
  }

  /** `normalize_goal` on the fields of a goal; only a candidate's status is put back. */
  function NormalGoal(goal: seq<Field>, id: string, candidate: bool): seq<Field> {
    var done := candidate && DoneByHand(goal);
    seq(|goal|, k requires 0 <= k < |goal| => NormalGoalField(goal[k], done, id))
  }

  function NormalCurrent(current: Json, id: string): Json {
    if current.Obj? && Get(current.fields, "id") == Some(Str(id)) && Get(current.fields, "completedAt").Some? then
      Obj(Mask(current.fields, "completedAt", TIME))
    else current
  }

  /** `normalize_state` on the fields of a state. */
  function NormalState(state: seq<Field>, id: string): seq<Field> {
    seq(|state|, k requires 0 <= k < |state| =>
      if state[k].key == "currentUnit" then Field(state[k].key, NormalCurrent(state[k].value, id)) else state[k])
  }

  // ---------------------------------------------------------------- what the masks let through

  /** The fields agree in keys, order and values, except for the values under `free`. */
  ghost predicate AgreeBut(a: seq<Field>, b: seq<Field>, free: set<string>) {
    && Keys(a) == Keys(b)
    && forall k :: 0 <= k < |a| ==> a[k].key in free || a[k].value == ValueAt(b, k)
  }

  function ValueAt(fields: seq<Field>, k: nat): Json { if k < |fields| then fields[k].value else Null }

  /** Two unit lists agree but for the receipt of unit `id` and the values of its time and evidence. */
  ghost predicate SameUnitsBut(a: Json, b: Json, id: string) {
    if HasUnit(a, id) && HasUnit(b, id) then
      var at := UnitAt(a.items, id, 0);
      && |a.items| == |b.items| && at == UnitAt(b.items, id, 0)
      && (forall k :: 0 <= k < |a.items| && k != at ==> a.items[k] == b.items[k])
      && AgreeBut(Without(a.items[at].fields, "verificationReceipt"),
                  Without(b.items[at].fields, "verificationReceipt"),
                  {"verifiedAt", "evidence"})
    else a == b
  }

  /** A candidate goal agrees with the harness's but for what a closure may set. */
  ghost predicate SameGoalBut(candidate: seq<Field>, harness: seq<Field>, id: string) {
    && Keys(candidate) == Keys(harness)
    && forall k :: 0 <= k < |candidate| ==> SameGoalField(candidate[k], ValueAt(harness, k), DoneByHand(candidate), id)
  }

  ghost predicate SameGoalField(candidate: Field, harness: Json, done: bool, id: string) {
    if candidate.key == "updatedAt" then true
    else if candidate.key == "units" then SameUnitsBut(candidate.value, harness, id)
    else if candidate.key == "status" && done then harness == Str("active")
    else candidate.value == harness
  }

  ghost predicate SameStateBut(candidate: seq<Field>, harness: seq<Field>, id: string) {
    && Keys(candidate) == Keys(harness)
    && forall k :: 0 <= k < |candidate| ==>
         if candidate[k].key == "currentUnit" then SameCurrentBut(candidate[k].value, ValueAt(harness, k), id)
         else candidate[k].value == ValueAt(harness, k)
  }

  /** The current unit agrees, but for the time at which unit `id` completed. */
  ghost predicate SameCurrentBut(a: Json, b: Json, id: string) {
    a == b
    || (a.Obj? && b.Obj? && Get(a.fields, "id") == Some(Str(id)) && AgreeBut(a.fields, b.fields, {"completedAt"}))
  }

  // -------- masks and what they agree on

  lemma MaskedAgree(a: seq<Field>, b: seq<Field>, key: string, value: Json)
    ensures Mask(a, key, value) == Mask(b, key, value) <==> AgreeBut(a, b, {key})
  {
    var x, y := Mask(a, key, value), Mask(b, key, value);
    if x == y {
      assert |a| == |b|;
      forall k | 0 <= k < |a|
        ensures a[k].key == b[k].key && (a[k].key == key || a[k].value == b[k].value)
      {
        assert x[k] == y[k];
      }
      assert Keys(a) == Keys(b);
    }
    if AgreeBut(a, b, {key}) {
      assert |Keys(a)| == |Keys(b)|;
      forall k | 0 <= k < |a|
        ensures x[k] == y[k]
      {
        assert Keys(a)[k] == Keys(b)[k];
      }
    }
  }

  lemma UnitsMaskedAgree(a: seq<Field>, b: seq<Field>)
    ensures NormalUnit(a) == NormalUnit(b)
            <==> AgreeBut(Without(a, "verificationReceipt"), Without(b, "verificationReceipt"),
                          {"verifiedAt", "evidence"})
  {
    var x, y := Without(a, "verificationReceipt"), Without(b, "verificationReceipt");
    var p, q := Mask(x, "verifiedAt", TIME), Mask(y, "verifiedAt", TIME);
    MaskedAgree(p, q, "evidence", EVIDENCE);
    assert |p| == |x| && |q| == |y| && Keys(p) == Keys(x) && Keys(q) == Keys(y);
    if Keys(x) == Keys(y) {
      assert |Keys(x)| == |Keys(y)|;
      forall k | 0 <= k < |x|
        ensures (p[k].key in {"evidence"} || p[k].value == q[k].value)
                <==> (x[k].key in {"verifiedAt", "evidence"} || x[k].value == y[k].value)
      {
        assert Keys(x)[k] == Keys(y)[k];
      }
    }
  }

  lemma {:induction false} GetUnmasked(fields: seq<Field>, key: string, value: Json, other: string)
    requires other != key
    ensures Get(Mask(fields, key, value), other) == Get(fields, other)
  {
    if fields != [] {
      assert Mask(fields, key, value)[1..] == Mask(fields[1..], key, value);
      GetUnmasked(fields[1..], key, value, other);
    }
  }

  lemma {:induction false} GetKept(fields: seq<Field>, key: string, other: string)
    requires other != key
    ensures Get(Without(fields, key), other) == Get(fields, other)
  {
    if fields != [] {
      var rest := Without(fields[1..], key);
      GetKept(fields[1..], key, other);
      assert Without(fields, key) == (if fields[0].key == key then rest else [fields[0]] + rest);
      assert ([fields[0]] + rest)[1..] == rest;
    }
  }

  /** Masking a unit keeps its id. */
  lemma NormalUnitKeepsId(unit: seq<Field>)
    ensures Get(NormalUnit(unit), "id") == Get(unit, "id")
  {
    var kept := Without(unit, "verificationReceipt");
    GetKept(unit, "verificationReceipt", "id");
    GetUnmasked(kept, "verifiedAt", TIME, "id");
    GetUnmasked(Mask(kept, "verifiedAt", TIME), "evidence", EVIDENCE, "id");
  }

  /** Masking the units keeps which unit is found. */
  lemma NormalUnitsKeepUnit(units: Json, id: string)
    requires units.Arr?
    ensures NormalUnits(units, id).Arr? && |NormalUnits(units, id).items| == |units.items|
    ensures UnitAt(NormalUnits(units, id).items, id, 0) == UnitAt(units.items, id, 0)
  {
    if HasUnit(units, id) {
      NormalUnitKeepsId(units.items[UnitAt(units.items, id, 0)].fields);
      SameUnitAt(NormalUnits(units, id).items, units.items, id);
    }
  }

  lemma SameUnitAt(a: seq<Json>, b: seq<Json>, id: string)
    requires |a| == |b| && forall k :: 0 <= k < |a| ==> IsUnit(a[k], id) == IsUnit(b[k], id)
    ensures UnitAt(a, id, 0) == UnitAt(b, id, 0)
  {
  }

  lemma UnitsAgree(a: Json, b: Json, id: string)
    ensures NormalUnits(a, id) == NormalUnits(b, id) <==> SameUnitsBut(a, b, id)
  {
    if a.Arr? {
      NormalUnitsKeepUnit(a, id);
    }
    if b.Arr? {
      NormalUnitsKeepUnit(b, id);
    }
    if HasUnit(a, id) && HasUnit(b, id) {
      FoundUnitsAgree(a.items, b.items, id);
    }
  }

  lemma FoundUnitsAgree(a: seq<Json>, b: seq<Json>, id: string)
    requires UnitAt(a, id, 0) < |a| && UnitAt(b, id, 0) < |b|
    requires NormalUnits(Arr(a), id) == NormalUnits(Arr(b), id) ==> UnitAt(a, id, 0) == UnitAt(b, id, 0)
    ensures NormalUnits(Arr(a), id) == NormalUnits(Arr(b), id) <==> SameUnitsBut(Arr(a), Arr(b), id)
  {
    var at := UnitAt(a, id, 0);
    if |a| == |b| && at == UnitAt(b, id, 0) {
      UnitsMaskedAgree(a[at].fields, b[at].fields);
      var x, y := NormalUnits(Arr(a), id).items, NormalUnits(Arr(b), id).items;
      assert forall k :: 0 <= k < |a| && k != at ==> x[k] == a[k] && y[k] == b[k];
      assert x[at] == Obj(NormalUnit(a[at].fields)) && y[at] == Obj(NormalUnit(b[at].fields));
      assert x == y <==> forall k :: 0 <= k < |a| ==> x[k] == y[k];
    }
  }

  lemma GoalFieldsAgree(c: Field, h: Field, done: bool, id: string)
    ensures NormalGoalField(c, done, id) == NormalGoalField(h, false, id)
            <==> c.key == h.key && SameGoalField(c, h.value, done, id)
  {
    UnitsAgree(c.value, h.value, id);
  }

  /** The masked goals are equal exactly when the candidate differs in nothing but what a closure may set. */
  lemma GoalsAgree(c: seq<Field>, h: seq<Field>, id: string)
    ensures NormalGoal(c, id, true) == NormalGoal(h, id, false) <==> SameGoalBut(c, h, id)
  {
    var x, y := NormalGoal(c, id, true), NormalGoal(h, id, false);
    assert |Keys(c)| == |c| && |Keys(h)| == |h| && |x| == |c| && |y| == |h|;
    if |c| == |h| {
      forall k | 0 <= k < |c|
        ensures x[k] == y[k] <==> Keys(c)[k] == Keys(h)[k] && SameGoalField(c[k], ValueAt(h, k), DoneByHand(c), id)
      {
        GoalFieldsAgree(c[k], h[k], DoneByHand(c), id);
      }
    }
  }

  /** A unit with the status `verified` or `skipped`. */
  ghost predicate Closed(unit: Json) {
    unit.Obj? && exists k :: 0 <= k < |unit.fields| && unit.fields[k].key == "status"
                             && unit.fields[k].value in {Str("verified"), Str("skipped")}
  }

  lemma ClosedIsClosed(unit: Json)
    requires unit.Obj? ==> DistinctKeys(unit.fields)
    ensures ClosedUnit(unit) <==> Closed(unit)
  {
    if unit.Obj? {
      forall k | 0 <= k < |unit.fields| && unit.fields[k].key == "status"
        ensures Get(unit.fields, "status") == Some(unit.fields[k].value)
      {
        GetAt(unit.fields, k);
      }
      if Get(unit.fields, "status").Some? {
        var k := GetHas(unit.fields, "status");
      }
    }
  }

  lemma {:induction false} GetHas(fields: seq<Field>, key: string) returns (k: nat)
    requires Get(fields, key).Some?
    ensures k < |fields| && fields[k].key == key && Get(fields, key) == Some(fields[k].value)
  {
    if fields[0].key == key {
      k := 0;
    } else {
      k := GetHas(fields[1..], key);
      k := k + 1;
    }
  }

  /** Two goals that agree have different statuses only when the candidate says `done`, the harness `active`, and the
      candidate's units are a list of verified and skipped ones. */
  lemma StatusMayDiffer(c: seq<Field>, h: seq<Field>, id: string, k: nat, m: nat)
    requires NormalGoal(c, id, true) == NormalGoal(h, id, false) && Tidy(Obj(c))
    requires k < |c| && c[k].key == "status" && m < |c| && c[m].key == "units"
    ensures |h| == |c| && h[k].key == "status"
    ensures c[k].value != h[k].value
            ==> c[k].value == Str("done") && h[k].value == Str("active") && c[m].value.Arr?
                && forall u :: u in c[m].value.items ==> Closed(u)
    ensures c[k].value == Str("done") && c[m].value.Arr? && (forall u :: u in c[m].value.items ==> Closed(u))
            ==> h[k].value == Str("active")
  {
    GoalsAgree(c, h, id);
    assert |Keys(c)| == |c| && |Keys(h)| == |h| && Keys(c)[k] == Keys(h)[k];
    GetAt(c, k);
    GetAt(c, m);
    if c[m].value.Arr? {
      forall n | 0 <= n < |c[m].value.items|
        ensures ClosedUnit(c[m].value.items[n]) <==> Closed(c[m].value.items[n])
      {
        assert Tidy(c[m].value) && Tidy(c[m].value.items[n]);
        ClosedIsClosed(c[m].value.items[n]);
      }
    }
  }

  lemma CurrentAgrees(a: Json, b: Json, id: string)
    ensures NormalCurrent(a, id) == NormalCurrent(b, id) <==> SameCurrentBut(a, b, id)
  {
    if a.Obj? && b.Obj? {
      MaskedAgree(a.fields, b.fields, "completedAt", TIME);
      GetUnmasked(a.fields, "completedAt", TIME, "id");
      GetUnmasked(b.fields, "completedAt", TIME, "id");
      MaskKeeps(a.fields, "completedAt", TIME);
      MaskKeeps(b.fields, "completedAt", TIME);
    }
  }

  /** Masking neither adds nor removes a key, and changes nothing where the key is missing. */
  lemma {:induction false} MaskKeeps(fields: seq<Field>, key: string, value: Json)
    ensures Get(Mask(fields, key, value), key).Some? == Get(fields, key).Some?
    ensures Get(fields, key).None? ==> Mask(fields, key, value) == fields
    ensures Get(fields, key).Some? ==> Get(Mask(fields, key, value), key) == Some(value)
  {
    if fields != [] {
      assert Mask(fields, key, value)[1..] == Mask(fields[1..], key, value);
      MaskKeeps(fields[1..], key, value);
    }
  }

  lemma StatesAgree(c: seq<Field>, h: seq<Field>, id: string)
    ensures NormalState(c, id) == NormalState(h, id) <==> SameStateBut(c, h, id)
  {
    var x, y := NormalState(c, id), NormalState(h, id);
    assert |Keys(c)| == |c| && |Keys(h)| == |h| && |x| == |c| && |y| == |h|;
    if |c| == |h| {
      forall k | 0 <= k < |c|
        ensures x[k] == y[k] <==> Keys(c)[k] == Keys(h)[k]
                                  && if c[k].key == "currentUnit" then SameCurrentBut(c[k].value, h[k].value, id)
                                     else c[k].value == h[k].value
      {
        CurrentAgrees(c[k].value, h[k].value, id);
      }
    }
  }

  // ---------------------------------------------------------------- the edits

  /** An assignment to a key, if it is there. */
  method Assign(fields: seq<Field>, key: string, value: Json) returns (r: seq<Field>)
    ensures r == Mask(fields, key, value)
  {
    r := fields;
    MaskKeeps(fields, key, value);
    if Get(fields, key).Some? {
      r := Mask(fields, key, value);
    }
  }

  /** The edits `normalize_goal` makes to the unit it found. */
  method NormalizeUnit(unit: seq<Field>) returns (r: seq<Field>)
    ensures r == NormalUnit(unit)
  {
    r := Without(unit, "verificationReceipt");
    r := Assign(r, "verifiedAt", TIME);
    r := Assign(r, "evidence", EVIDENCE);
  }

  /** `normalize_goal`: a copy of the goal, edited. */
  method NormalizeGoal(goal: seq<Field>, id: string, candidate: bool) returns (out: seq<Field>)
    requires DistinctKeys(goal)
    ensures out == NormalGoal(goal, id, candidate)
  {
    var units := Get(goal, "units");
    out := Assign(goal, "updatedAt", TIME);
    if candidate && DoneByHand(goal) {
      out := Mask(out, "status", Str("active"));
    }
    ghost var closed := out;
    var edited: Option<Json> := None;
    if units.Some? && HasUnit(units.value, id) {
      var items := units.value.items;
      var at := UnitAt(items, id, 0);
      var unit := NormalizeUnit(items[at].fields);
      edited := Some(Arr(items[at := Obj(unit)]));
      out := Mask(out, "units", edited.value);
    }
    forall k | 0 <= k < |goal| && goal[k].key == "units"
      ensures NormalUnits(goal[k].value, id) == if edited.Some? then edited.value else goal[k].value
    {
      GetAt(goal, k);
    }
  }

  /** `normalize_state`: a copy of the state, edited. */
  method NormalizeState(state: seq<Field>, id: string) returns (out: seq<Field>)
    requires DistinctKeys(state)
    ensures out == NormalState(state, id)
  {
    out := state;
    var current := Get(state, "currentUnit");
    if current.Some? && current.value.Obj? && Get(current.value.fields, "id") == Some(Str(id))
       && Get(current.value.fields, "completedAt").Some? {
      out := Mask(state, "currentUnit", Obj(Mask(current.value.fields, "completedAt", TIME)));
    }
    forall k | 0 <= k < |state|
      ensures out[k] == NormalState(state, id)[k]
    {
      GetAt(state, k);
    }
  }

  // ---------------------------------------------------------------- compare_json

  /** What a comparison reports: what is wrong with the candidate's own times, evidence and receipt, and the first
      six differences. */
  datatype Findings = Findings(errors: seq<string>, differences: seq<Difference>) {
    predicate None() { errors == [] && differences == [] }
  }

  /** `compare_json`: nothing is found exactly when the candidate's own fields are in order and it differs from the
      harness's result only in what a closure may set. */
  method CompareJson(isGoal: bool, candidate: seq<Field>, harness: seq<Field>, id: string, errors: seq<string>)
    returns (found: Findings)
    requires DistinctKeys(candidate) && DistinctKeys(harness)
    ensures found.errors == errors && |found.differences| <= 6
    ensures found.None() <==> errors == [] && if isGoal then SameGoalBut(candidate, harness, id)
                                              else SameStateBut(candidate, harness, id)
  {
    var cand, reference: seq<Field>;
    if isGoal {
      cand := NormalizeGoal(candidate, id, true);
      reference := NormalizeGoal(harness, id, false);
      GoalsAgree(candidate, harness, id);
    } else {
      cand := NormalizeState(candidate, id);
      reference := NormalizeState(harness, id);
      StatesAgree(candidate, harness, id);
    }
    var places := Diff(Obj(cand), Obj(reference), []);
    DiffIsExact(Obj(cand), Obj(reference), []);
    return Findings(errors, if |places| > 6 then places[..6] else places);
  }
}
