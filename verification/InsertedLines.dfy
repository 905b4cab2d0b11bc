/** The backlog check (scripts/itd_closure_delta.py, `lines` and `check_inserted_lines`): a closure may insert whole
    lines into the backlog and change nothing else. */
module InsertedLines {

  newtype byte = x: int | 0 <= x < 0x100

  type Bytes = seq<byte>

  const NEWLINE: byte := 10

  // ---------------------------------------------------------------- lines

  /** The lines of a file, each with its newline; what follows the last newline is a line if it is not empty. */
  function Lines(data: Bytes): seq<Bytes>
    decreases |data|
  {
    if data == [] then []
    else
      var n := FirstLine(data);
      [data[..n]] + Lines(data[n..])
  }

  /** The length of the first line. */
  function FirstLine(data: Bytes): (n: nat)
    requires data != []
    ensures 0 < n <= |data| && NEWLINE !in data[..n - 1] && (data[n - 1] == NEWLINE || n == |data|)
  {
    if data[0] == NEWLINE || |data| == 1 then 1
    else
      var n := FirstLine(data[1..]);
      assert data[..n] == [data[0]] + data[1..][..n - 1];
      1 + n
  }

  function Joined(lines: seq<Bytes>): Bytes { if lines == [] then [] else lines[0] + Joined(lines[1..]) }

  /** A line: not empty, and a newline only at its end. */
  predicate IsLine(line: Bytes) { line != [] && NEWLINE !in line[..|line| - 1] }

  predicate EndsLine(line: Bytes) { line != [] && line[|line| - 1] == NEWLINE }

  /** Every line is one, and only the last may lack its newline. */
  predicate CutAtNewlines(lines: seq<Bytes>) {
    forall k :: 0 <= k < |lines| ==> IsLine(lines[k]) && (k < |lines| - 1 ==> EndsLine(lines[k]))
  }

  /** The lines are the file, cut after every newline and nowhere else. */
  lemma {:induction false} LinesAreTheFile(data: Bytes)
    ensures Joined(Lines(data)) == data && CutAtNewlines(Lines(data))
    decreases |data|
  {
    if data != [] {
      var n := FirstLine(data);
      LinesAreTheFile(data[n..]);
      FirstIsLine(data, n);
      FirstCut(data[..n], Lines(data[n..]), n == |data|);
      FirstJoined(data, n);
    }
  }

  lemma FirstIsLine(data: Bytes, n: nat)
    requires data != [] && n == FirstLine(data)
    ensures IsLine(data[..n]) && (n == |data| || EndsLine(data[..n]))
  {
    assert data[..n][..n - 1] == data[..n - 1];
  }

  lemma FirstJoined(data: Bytes, n: nat)
    requires data != [] && n == FirstLine(data)
    ensures Lines(data) == [data[..n]] + Lines(data[n..])
    ensures Joined(Lines(data[n..])) == data[n..] ==> Joined(Lines(data)) == data
  {
    assert Lines(data)[1..] == Lines(data[n..]);
    assert data == data[..n] + data[n..];
  }

  lemma FirstCut(line: Bytes, rest: seq<Bytes>, last: bool)
    requires CutAtNewlines(rest) && (last ==> rest == [])
    ensures IsLine(line) && (last || EndsLine(line)) ==> CutAtNewlines([line] + rest)
  {
  }

  // ---------------------------------------------------------------- subsequences

  /** `at` places the lines of `old` among those of `new`, in order. */
  ghost predicate Places(old_: seq<Bytes>, new_: seq<Bytes>, at: seq<nat>) {
    && |at| == |old_|
    && (forall i, j :: 0 <= i < j < |at| ==> at[i] < at[j])
    && forall k :: 0 <= k < |at| ==> at[k] < |new_| && new_[at[k]] == old_[k]
  }

  /** Every line of `old` is still there, in order. */
  ghost predicate StillThere(old_: seq<Bytes>, new_: seq<Bytes>) { exists at :: Places(old_, new_, at) }

  /** How many lines of `old` a scan of `new` meets, taking each as soon as it can. */
  function Met(old_: seq<Bytes>, new_: seq<Bytes>): (j: nat)
    ensures j <= |old_|
    decreases |new_|
  {
    if new_ == [] then 0
    else
      var j := Met(old_, new_[..|new_| - 1]);
      if j < |old_| && new_[|new_| - 1] == old_[j] then j + 1 else j
  }

  /** The lines the scan leaves over. */
  function Left(old_: seq<Bytes>, new_: seq<Bytes>): seq<Bytes>
    decreases |new_|
  {
    if new_ == [] then []
    else
      var j := Met(old_, new_[..|new_| - 1]);
      var line := new_[|new_| - 1];
      Left(old_, new_[..|new_| - 1]) + if j < |old_| && line == old_[j] then [] else [line]
  }

  /** The lines the scan meets do have a place. */
  lemma {:induction false} MetHasPlaces(old_: seq<Bytes>, new_: seq<Bytes>) returns (at: seq<nat>)
    ensures Places(old_[..Met(old_, new_)], new_, at)
    decreases |new_|
  {
    at := [];
    if new_ != [] {
      var n := |new_| - 1;
      var j := Met(old_, new_[..n]);
      at := MetHasPlaces(old_, new_[..n]);
      if j < |old_| && new_[n] == old_[j] {
        at := at + [n];
      }
    }
  }

  /** The scan is not too greedy: any beginning of `old` that has places is met. */
  lemma {:induction false} PlacedIsMet(old_: seq<Bytes>, new_: seq<Bytes>, m: nat, at: seq<nat>)
    requires m <= |old_| && Places(old_[..m], new_, at)
    ensures m <= Met(old_, new_)
    decreases |new_|
  {
    if m > 0 {
      var n := |new_| - 1;
      assert at[m - 1] < |new_|;
      if at[m - 1] == n {
        assert old_[..m][m - 1] == new_[n];
        assert Places(old_[..m - 1], new_[..n], at[..m - 1]);
        PlacedIsMet(old_, new_[..n], m - 1, at[..m - 1]);
      } else {
        assert forall k :: 0 <= k < m ==> at[k] < n;
        assert Places(old_[..m], new_[..n], at);
        PlacedIsMet(old_, new_[..n], m, at);
      }
    }
  }

  /** The scan meets all of `old` exactly when `old` is still there. */
  lemma ScanIsExact(old_: seq<Bytes>, new_: seq<Bytes>)
    ensures Met(old_, new_) == |old_| <==> StillThere(old_, new_)
  {
    var at := MetHasPlaces(old_, new_);
    assert old_[..|old_|] == old_;
    if StillThere(old_, new_) {
      var places :| Places(old_, new_, places);
      PlacedIsMet(old_, new_, |old_|, places);
    }
  }

  /** What is left over does not depend on how the old lines are placed: it is what `new` has more than `old`. */
  lemma {:induction false} LeftIsTheRest(old_: seq<Bytes>, new_: seq<Bytes>)
    ensures multiset(Left(old_, new_)) + multiset(old_[..Met(old_, new_)]) == multiset(new_)
    decreases |new_|
  {
    if new_ != [] {
      var n: nat := |new_| - 1;
      LeftIsTheRest(old_, new_[..n]);
      LeftAfter(old_, new_, n);
      OneLineMore(new_, n);
    }
  }

  lemma OneLineMore(lines: seq<Bytes>, n: nat)
    requires n < |lines|
    ensures multiset(lines[..n + 1]) == multiset(lines[..n]) + multiset{lines[n]}
    ensures n + 1 == |lines| ==> lines[..n + 1] == lines
  {
    assert lines[..n + 1] == lines[..n] + [lines[n]];
  }

  /** The last line of `new` is either met or left over. */
  lemma LeftAfter(old_: seq<Bytes>, new_: seq<Bytes>, n: nat)
    requires |new_| == n + 1
    ensures multiset(Left(old_, new_)) + multiset(old_[..Met(old_, new_)])
            == multiset(Left(old_, new_[..n])) + multiset(old_[..Met(old_, new_[..n])]) + multiset{new_[n]}
  {
    var j := Met(old_, new_[..n]);
    if j < |old_| && new_[n] == old_[j] {
      OneLineMore(old_, j);
    } else {
      assert Left(old_, new_) == Left(old_, new_[..n]) + [new_[n]];
    }
  }

  // ---------------------------------------------------------------- check_inserted_lines

  /** A finding: an old line is gone, or an inserted line is not UTF-8 or not whole; lines are counted from 1. */
  datatype Finding = LineGone(line: nat) | NotUtf8(line: nat) | PartialLine(line: nat)

  /** A complete line of UTF-8 text. */
  predicate Whole(line: Bytes, utf8: Bytes -> bool) { utf8(line) && EndsLine(line) }

  /** `new` is `old` with whole lines inserted. */
  ghost predicate OnlyInserts(old_: seq<Bytes>, new_: seq<Bytes>, utf8: Bytes -> bool) {
    StillThere(old_, new_) && forall line :: line in multiset(new_) - multiset(old_) ==> Whole(line, utf8)
  }

  /** What is wrong with the inserted lines, whose numbers and texts these are. */
  function WrongLines(numbers: seq<nat>, inserted: seq<Bytes>, utf8: Bytes -> bool): (found: seq<Finding>)
    requires |numbers| == |inserted|
    ensures found == [] <==> forall line :: line in inserted ==> Whole(line, utf8)
    ensures |found| <= |inserted|
  {
    if inserted == [] then []
    else
      assert forall line :: line in inserted <==> line == inserted[0] || line in inserted[1..];
      assert Whole(inserted[0], utf8) <==> utf8(inserted[0]) && EndsLine(inserted[0]);
      var rest := WrongLines(numbers[1..], inserted[1..], utf8);
      if !utf8(inserted[0]) then [NotUtf8(numbers[0])] + rest
      else if !EndsLine(inserted[0]) then [PartialLine(numbers[0])] + rest
      else rest
  }

  /** A finding names a line that is not UTF-8, or one that is but is not whole. */
  predicate Justified(f: Finding, lines: seq<Bytes>, utf8: Bytes -> bool) {
    match f
    case NotUtf8(n) => 0 < n <= |lines| && !utf8(lines[n - 1])
    case PartialLine(n) => 0 < n <= |lines| && utf8(lines[n - 1]) && !EndsLine(lines[n - 1])
    case LineGone(_) => false
  }

  lemma {:induction false} WrongLinesAreReal(numbers: seq<nat>, inserted: seq<Bytes>, lines: seq<Bytes>,
                                             utf8: Bytes -> bool)
    requires |numbers| == |inserted|
    requires forall k :: 0 <= k < |numbers| ==> 0 < numbers[k] <= |lines| && lines[numbers[k] - 1] == inserted[k]
    ensures forall f :: f in WrongLines(numbers, inserted, utf8) ==> Justified(f, lines, utf8)
    decreases |inserted|
  {
    if inserted != [] {
      WrongLinesAreReal(numbers[1..], inserted[1..], lines, utf8);
    }
  }

  /** The state of the scan after the lines `done` of the new file. */
  predicate Scanned(old_: seq<Bytes>, done: seq<Bytes>, j: nat, numbers: seq<nat>, inserted: seq<Bytes>) {
    && j == Met(old_, done) && inserted == Left(old_, done) && |numbers| == |inserted|
    && forall k :: 0 <= k < |numbers| ==> 0 < numbers[k] <= |done| && done[numbers[k] - 1] == inserted[k]
  }

  lemma ScanStep(old_: seq<Bytes>, new_: seq<Bytes>, n: nat, j: nat, numbers: seq<nat>, inserted: seq<Bytes>)
    requires n < |new_| && Scanned(old_, new_[..n], j, numbers, inserted)
    ensures if j < |old_| && new_[n] == old_[j] then Scanned(old_, new_[..n + 1], j + 1, numbers, inserted)
            else Scanned(old_, new_[..n + 1], j, numbers + [n + 1], inserted + [new_[n]])
  {
    assert new_[..n + 1][..n] == new_[..n];
  }

  /** `check_inserted_lines`: no finding exactly when the old lines are all still there in order and every other
      line is a whole line of UTF-8; a line reported gone is the first that no placing of the old lines reaches. */
  method CheckInsertedLines(old_: Bytes, new_: Bytes, utf8: Bytes -> bool) returns (found: seq<Finding>)
    ensures found == [] <==> OnlyInserts(Lines(old_), Lines(new_), utf8)
    ensures !StillThere(Lines(old_), Lines(new_)) ==>
              exists j :: 0 <= j < |Lines(old_)| && found == [LineGone(j + 1)]
                          && StillThere(Lines(old_)[..j], Lines(new_)) && !StillThere(Lines(old_)[..j + 1], Lines(new_))
    ensures StillThere(Lines(old_), Lines(new_)) ==> forall f :: f in found ==> Justified(f, Lines(new_), utf8)
  {
    var oldLines, newLines := Lines(old_), Lines(new_);
    var j := 0;
    var numbers: seq<nat> := [];
    var inserted: seq<Bytes> := [];
    for n := 0 to |newLines|
      invariant Scanned(oldLines, newLines[..n], j, numbers, inserted)
    {
      ScanStep(oldLines, newLines, n, j, numbers, inserted);
      if j < |oldLines| && newLines[n] == oldLines[j] {
        j := j + 1;
      } else {
        numbers, inserted := numbers + [n + 1], inserted + [newLines[n]];
      }
    }
    assert newLines[..|newLines|] == newLines;
    ScanIsExact(oldLines, newLines);
    if j != |oldLines| {
      FirstGone(oldLines, newLines);
      return [LineGone(j + 1)];
    }
    found := WrongLines(numbers, inserted, utf8);
    WrongLinesAreReal(numbers, inserted, newLines, utf8);
    LeftIsInserted(oldLines, newLines);
  }

  lemma FirstGone(old_: seq<Bytes>, new_: seq<Bytes>)
    requires Met(old_, new_) < |old_|
    ensures StillThere(old_[..Met(old_, new_)], new_) && !StillThere(old_[..Met(old_, new_) + 1], new_)
  {
    var j := Met(old_, new_);
    var at := MetHasPlaces(old_, new_);
    if StillThere(old_[..j + 1], new_) {
      var places :| Places(old_[..j + 1], new_, places);
      PlacedIsMet(old_, new_, j + 1, places);
    }
  }

  lemma LeftIsInserted(old_: seq<Bytes>, new_: seq<Bytes>)
    requires Met(old_, new_) == |old_|
    ensures multiset(Left(old_, new_)) == multiset(new_) - multiset(old_)
    ensures forall line :: line in multiset(new_) - multiset(old_) <==> line in Left(old_, new_)
  {
    LeftIsTheRest(old_, new_);
    assert old_[..|old_|] == old_;
    assert forall line :: line in multiset(Left(old_, new_)) <==> line in Left(old_, new_);
  }
}
