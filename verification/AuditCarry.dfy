/** The audit carry (skills/_shared/itd_bypass_audit.py): rows of an append-only bypass ledger are copied into the
    canonical journal, each once, and any two payloads under one id stop the copy. */
module AuditCarry {
  import opened Wrappers

  /** An audit row: its id as text, its content in canonical form, and how its keys happen to be ordered. Two rows
      of equal content may be spelled differently. */
  datatype Row = Row(id: string, content: string, spelling: string)

  /** What a line of a ledger file is read as. */
  datatype Line = Blank | Unparsable | NoId | Audit(row: Row)

  datatype Refusal = UnreadableRow | JournalConflict | LedgerConflict | ClashWithJournal | Unencodable

  datatype Report = NothingPending | WouldCarry(carried: nat, pending: nat) | Carried(carried: nat, pending: nat)

  /** The JSON library: `read` strips a line and parses what is left, and `render` writes a row on one line without
      escaping what is not ASCII; None is a row with a lone surrogate, which UTF-8 cannot encode. */
  datatype Format = Format(read: string -> Line, render: Row -> Option<string>) {
    /** An empty text is blank, and blank text before a line changes nothing. */
    ghost predicate Strips() {
      read("") == Blank && forall a, b {:trigger read(a + b)} :: read(a).Blank? ==> read(a + b) == read(b)
    }

    /** Behind a complete row only blank text may follow. */
    ghost predicate OneValue() {
      forall a, b {:trigger read(a + b)} ::
        read(a).Audit? ==> read(a + b) == if read(b).Blank? then read(a) else Unparsable
    }

    /** A rendered row reads as the row; it starts with its brace, and cut short it does not parse. */
    ghost predicate RoundTrips() {
      forall row :: render(row).Some? ==> IsText(row, render(row).value)
    }

    ghost predicate IsText(row: Row, text: string) {
      && text != "" && text[0] == '{' && read(text) == Audit(row)
      && forall n :: 0 < n < |text| ==> read(text[..n]).Unparsable?
    }

    ghost predicate Json() { Strips() && OneValue() && RoundTrips() }
  }

  // ---------------------------------------------------------------- lines of a text

  /** The characters Python's str.splitlines cuts at: newline, vertical tab, form feed, carriage return, the file,
      group and record separators, next line, and the line and paragraph separators. */
  predicate IsBoundary(ch: char) {
    '\n' <= ch <= '\r' || '\U{1C}' <= ch <= '\U{1E}' || ch == '\U{85}' || '\U{2028}' <= ch <= '\U{2029}'
  }

  predicate OneLine(text: string) { forall k :: 0 <= k < |text| ==> !IsBoundary(text[k]) }

  /** The lines of a text; the last one has no boundary behind it. */
  datatype Lines = Last(line: string) | More(line: string, rest: Lines) {
    function Tail(): string { if Last? then line else rest.Tail() }
  }

  function Prepend(ch: char, lines: Lines): Lines { lines.(line := [ch] + lines.line) }

  /** The text cut at every boundary. (The empty lines that str.splitlines does not return, inside a carriage return
      and newline and at the end, are blank and skipped.) */
  function Split(text: string): Lines {
    if text == "" then Last("")
    else if IsBoundary(text[0]) then More("", Split(text[1..]))
    else Prepend(text[0], Split(text[1..]))
  }

  /** Lines behind lines: the last of one and the first of the other are one line. */
  function Join(x: Lines, y: Lines): Lines {
    if x.Last? then y.(line := x.line + y.line) else More(x.line, Join(x.rest, y))
  }

  lemma {:induction false} SplitJoined(a: string, b: string)
    ensures Split(a + b) == Join(Split(a), Split(b))
    decreases |a|
  {
    if a == "" {
      assert a + b == b;
      assert "" + Split(b).line == Split(b).line;
    } else {
      assert (a + b)[1..] == a[1..] + b;
      SplitJoined(a[1..], b);
      if !IsBoundary(a[0]) {
        PrependJoined(a[0], Split(a[1..]), Split(b));
      }
    }
  }

  lemma PrependJoined(ch: char, x: Lines, y: Lines)
    ensures Prepend(ch, Join(x, y)) == Join(Prepend(ch, x), y)
  {
    assert [ch] + (x.line + y.line) == ([ch] + x.line) + y.line;
  }

  lemma {:induction false} SplitOneLine(text: string)
    requires OneLine(text)
    ensures Split(text) == Last(text)
    decreases |text|
  {
    if text != "" {
      SplitOneLine(text[1..]);
      assert [text[0]] + text[1..] == text;
    }
  }

  /** A text with a boundary inside starts with what stands before the first one. */
  lemma {:induction false} SplitAtFirst(text: string) returns (n: nat)
    requires !OneLine(text)
    ensures n < |text| && IsBoundary(text[n]) && Split(text).More? && Split(text).line == text[..n]
    decreases |text|
  {
    n := 0;
    if !IsBoundary(text[0]) {
      assert !OneLine(text[1..]) by {
        var k: nat :| k < |text| && IsBoundary(text[k]);
        assert text[1..][k - 1] == text[k];
      }
      var m := SplitAtFirst(text[1..]);
      n := 1 + m;
      assert [text[0]] + text[1..][..m] == text[..n];
    }
  }

  // ---------------------------------------------------------------- reading a file

  predicate ReadsLine(f: Format, line: string) { f.read(line).Blank? || f.read(line).Audit? }

  function RowOf(f: Format, line: string): seq<Row> { if f.read(line).Audit? then [f.read(line).row] else [] }

  predicate ReadsAll(f: Format, lines: Lines) { ReadsLine(f, lines.line) && (lines.More? ==> ReadsAll(f, lines.rest)) }

  function RowsOf(f: Format, lines: Lines): seq<Row> {
    RowOf(f, lines.line) + if lines.More? then RowsOf(f, lines.rest) else []
  }

  /** Every line of the text is blank or a row with an id. */
  predicate Reads(f: Format, text: string) { ReadsAll(f, Split(text)) }

  function RowsIn(f: Format, text: string): seq<Row> { RowsOf(f, Split(text)) }

  lemma {:induction false} JoinReads(f: Format, x: Lines, y: Lines)
    requires f.Json() && ReadsAll(f, x)
    ensures ReadsAll(f, Join(x, y)) <==> ReadsAll(f, y) && (f.read(x.Tail()).Blank? || f.read(y.line).Blank?)
    decreases x
  {
    if x.More? {
      JoinReads(f, x.rest, y);
    }
  }

  lemma {:induction false} JoinRows(f: Format, x: Lines, y: Lines)
    requires f.Json() && ReadsAll(f, x) && ReadsAll(f, Join(x, y))
    ensures RowsOf(f, Join(x, y)) == RowsOf(f, x) + RowsOf(f, y)
    decreases x
  {
    if x.More? {
      JoinRows(f, x.rest, y);
      Associative(RowOf(f, x.line), RowsOf(f, x.rest), RowsOf(f, y));
    } else {
      assert RowsOf(f, x) == RowOf(f, x.line);
      assert RowOf(f, x.line + y.line) == RowOf(f, x.line) + RowOf(f, y.line);
    }
  }

  lemma Associative(a: seq<Row>, b: seq<Row>, c: seq<Row>)
    ensures a + (b + c) == (a + b) + c
  {
  }

  /** A readable text with a text behind it: it stays readable exactly when the text behind it is and the two do not
      share a line; and then the rows of both are read. */
  lemma JoinedReads(f: Format, a: string, b: string)
    requires f.Json() && Reads(f, a)
    ensures Reads(f, a + b) <==> Reads(f, b) && (f.read(Split(a).Tail()).Blank? || f.read(Split(b).line).Blank?)
    ensures Reads(f, a + b) ==> RowsIn(f, a + b) == RowsIn(f, a) + RowsIn(f, b)
  {
    SplitJoined(a, b);
    JoinReads(f, Split(a), Split(b));
    if Reads(f, a + b) {
      JoinRows(f, Split(a), Split(b));
    }
  }

  function Count(lines: Lines): nat { 1 + if lines.More? then Count(lines.rest) else 0 }

  /** The middle of the loop of `rows`: `out` is read, and the lines `left` are still to be read. */
  predicate HalfRead(f: Format, all: Lines, out: seq<Row>, left: Option<Lines>) {
    match left
    case None => ReadsAll(f, all) && RowsOf(f, all) == out
    case Some(lines) => (ReadsAll(f, all) <==> ReadsAll(f, lines)) && RowsOf(f, all) == out + RowsOf(f, lines)
  }

  lemma OneLineLess(f: Format, all: Lines, out: seq<Row>, lines: Lines)
    requires HalfRead(f, all, out, Some(lines)) && ReadsLine(f, lines.line)
    ensures HalfRead(f, all, out + RowOf(f, lines.line), if lines.More? then Some(lines.rest) else None)
    ensures f.read(lines.line).Blank? ==> out + RowOf(f, lines.line) == out
  {
    var row := RowOf(f, lines.line);
    if lines.More? {
      assert out + (row + RowsOf(f, lines.rest)) == (out + row) + RowsOf(f, lines.rest);
    } else {
      assert RowsOf(f, lines) == row + [] == row;
    }
  }

  /** `rows`: the audit rows of a file; one line that is not a row with an id refuses the whole file. A file that
      does not exist reads as an empty one. */
  method Rows(f: Format, text: string) returns (r: Result<seq<Row>, Refusal>)
    ensures r == if Reads(f, text) then Ok(RowsIn(f, text)) else Err(UnreadableRow)
  {
    var left := Some(Split(text));
    var out: seq<Row> := [];
    while left.Some?
      invariant HalfRead(f, Split(text), out, left)
      decreases if left.Some? then Count(left.value) else 0
    {
      var lines := left.value;
      var line := f.read(lines.line);
      if line.Unparsable? || line.NoId? {
        return Err(UnreadableRow);
      }
      OneLineLess(f, Split(text), out, lines);
      if line.Audit? {
        out := out + [line.row];
      }
      left := if lines.More? then Some(lines.rest) else None;
    }
    return Ok(out);
  }

  // ---------------------------------------------------------------- writing rows

  /** Every row can be encoded. */
  predicate Encodable(f: Format, rows: seq<Row>) { forall row :: row in rows ==> f.render(row).Some? }

  /** What an append of `rows` writes. */
  function Payload(f: Format, rows: seq<Row>): string
    requires Encodable(f, rows)
  {
    if rows == [] then "" else f.render(rows[0]).value + "\n" + Payload(f, rows[1..])
  }

  /** No rendered row contains a line boundary. */
  predicate OnOneLineEach(f: Format, rows: seq<Row>)
    requires Encodable(f, rows)
  {
    forall row :: row in rows ==> OneLine(f.render(row).value)
  }

  lemma {:induction false} EndOfJoin(x: Lines, y: Lines)
    requires x.More? && x.Tail() == ""
    ensures Join(x, y).line == x.line && Join(x, y).Tail() == y.Tail()
    decreases x
  {
    if x.rest.More? {
      EndOfJoin(x.rest, y);
    } else {
      assert "" + y.line == y.line;
    }
  }

  /** A rendered row and its newline: the row reads back when it has no boundary inside, else its first line does not
      parse. */
  lemma RenderedRowReads(f: Format, row: Row)
    requires f.Json() && f.render(row).Some?
    ensures var lines := Split(f.render(row).value + "\n");
            && lines.More? && lines.Tail() == ""
            && if OneLine(f.render(row).value) then
                 f.read(lines.line).Audit? && ReadsAll(f, lines) && RowsOf(f, lines) == [row]
               else f.read(lines.line).Unparsable?
  {
    var text := f.render(row).value;
    assert f.IsText(row, text);
    SplitJoined(text, "\n");
    assert Split("\n") == More("", Last(""));
    NewlineBehind(Split(text));
    if OneLine(text) {
      SplitOneLine(text);
    } else {
      var n := SplitAtFirst(text);
    }
  }

  lemma {:induction false} NewlineBehind(lines: Lines)
    ensures Join(lines, More("", Last(""))).More? && Join(lines, More("", Last(""))).Tail() == ""
    ensures Join(lines, More("", Last(""))).line == lines.line
    ensures lines.Last? ==> Join(lines, More("", Last(""))) == More(lines.line, Last(""))
    decreases lines
  {
    assert lines.line + "" == lines.line;
    if lines.More? {
      NewlineBehind(lines.rest);
    }
  }

  /** What is written reads back exactly when no rendered row contains a line boundary. */
  lemma {:induction false} WrittenRowsAreRead(f: Format, rows: seq<Row>)
    requires f.Json() && Encodable(f, rows)
    ensures Reads(f, Payload(f, rows)) <==> OnOneLineEach(f, rows)
    ensures OnOneLineEach(f, rows) ==> RowsIn(f, Payload(f, rows)) == rows
    ensures rows != [] ==> !f.read(Split(Payload(f, rows)).line).Blank?
    ensures Split(Payload(f, rows)).Tail() == ""
    decreases |rows|
  {
    if rows == [] {
    } else {
      var text, rest := f.render(rows[0]).value + "\n", Payload(f, rows[1..]);
      WrittenRowsAreRead(f, rows[1..]);
      RenderedRowReads(f, rows[0]);
      SplitJoined(text, rest);
      EndOfJoin(Split(text), Split(rest));
      FirstRowReads(f, rows, text, rest);
    }
  }

  lemma FirstRowReads(f: Format, rows: seq<Row>, text: string, rest: string)
    requires f.Json() && rows != [] && Encodable(f, rows)
    requires text == f.render(rows[0]).value + "\n" && rest == Payload(f, rows[1..])
    requires Reads(f, rest) <==> OnOneLineEach(f, rows[1..])
    requires OnOneLineEach(f, rows[1..]) ==> RowsIn(f, rest) == rows[1..]
    requires Split(text + rest).line == Split(text).line
    ensures Reads(f, text + rest) <==> OnOneLineEach(f, rows)
    ensures OnOneLineEach(f, rows) ==> RowsIn(f, text + rest) == rows
  {
    RenderedRowReads(f, rows[0]);
    assert forall row :: row in rows <==> row == rows[0] || row in rows[1..];
    if OneLine(f.render(rows[0]).value) {
      JoinedReads(f, text, rest);
      assert [rows[0]] + rows[1..] == rows;
    }
  }

  // ---------------------------------------------------------------- which rows are carried

  function Ids(rows: seq<Row>): set<string> { set row | row in rows :: row.id }

  /** No id has two payloads. */
  ghost predicate Agree(rows: seq<Row>) {
    forall a, b :: a in rows && b in rows && a.id == b.id ==> a.content == b.content
  }

  /** The first row of every id that is not in `have`. */
  function Fresh(pending: seq<Row>, have: set<string>): seq<Row> {
    if pending == [] then []
    else if pending[0].id in have then Fresh(pending[1..], have)
    else [pending[0]] + Fresh(pending[1..], have + {pending[0].id})
  }

  /** What is carried is pending and new, each id once, and every pending id is then there. */
  lemma FreshIsOneOfEach(pending: seq<Row>, have: set<string>)
    ensures forall row :: row in Fresh(pending, have) ==> row in pending && row.id !in have
    ensures have + Ids(Fresh(pending, have)) == have + Ids(pending)
    ensures DistinctIds(Fresh(pending, have))
  {
    FreshIsNew(pending, have);
    FreshCovers(pending, have);
    FreshIsDistinct(pending, have);
  }

  lemma {:induction false} FreshIsNew(pending: seq<Row>, have: set<string>)
    ensures forall row :: row in Fresh(pending, have) ==> row in pending && row.id !in have
    decreases |pending|
  {
    if pending != [] {
      FreshIsNew(pending[1..], if pending[0].id in have then have else have + {pending[0].id});
    }
  }

  lemma {:induction false} FreshCovers(pending: seq<Row>, have: set<string>)
    ensures have + Ids(Fresh(pending, have)) == have + Ids(pending)
    decreases |pending|
  {
    if pending != [] {
      var id := pending[0].id;
      FreshCovers(pending[1..], if id in have then have else have + {id});
      assert pending == [pending[0]] + pending[1..];
      IdsOfJoined([pending[0]], pending[1..]);
      IdsOfJoined([pending[0]], Fresh(pending[1..], have + {id}));
      assert Ids([pending[0]]) == {id};
    }
  }

  lemma {:induction false} FreshIsDistinct(pending: seq<Row>, have: set<string>)
    ensures DistinctIds(Fresh(pending, have))
    decreases |pending|
  {
    if pending != [] {
      var more := if pending[0].id in have then have else have + {pending[0].id};
      FreshIsDistinct(pending[1..], more);
      FreshIsNew(pending[1..], more);
    }
  }

  predicate DistinctIds(rows: seq<Row>) { forall i, j :: 0 <= i < j < |rows| ==> rows[i].id != rows[j].id }

  lemma IdsOfJoined(a: seq<Row>, b: seq<Row>)
    ensures Ids(a + b) == Ids(a) + Ids(b)
  {
    assert forall row :: row in a + b <==> row in a || row in b;
  }

  lemma {:induction false} FreshOfJoined(a: seq<Row>, b: seq<Row>, have: set<string>)
    ensures Fresh(a + b, have) == Fresh(a, have) + Fresh(b, have + Ids(a))
    decreases a
  {
    if a == [] {
      assert a + b == b && have + Ids(a) == have;
    } else {
      var id := a[0].id;
      assert (a + b)[1..] == a[1..] + b && a == [a[0]] + a[1..];
      IdsOfJoined([a[0]], a[1..]);
      var more := if id in have then have else have + {id};
      FreshOfJoined(a[1..], b, more);
      assert more + Ids(a[1..]) == have + Ids(a);
    }
  }

  // ---------------------------------------------------------------- the loops of carry

  /** The dictionary the loops fill: the content under every id met so far. */
  ghost predicate Recorded(known: map<string, string>, rows: seq<Row>) {
    known.Keys == Ids(rows) && forall row :: row in rows ==> row.id in known && known[row.id] == row.content
  }

  lemma RecordMore(known: map<string, string>, rows: seq<Row>, row: Row)
    requires Recorded(known, rows) && (row.id in known ==> known[row.id] == row.content)
    ensures Recorded(known[row.id := row.content], rows + [row])
  {
    IdsOfJoined(rows, [row]);
  }

  lemma RecordedConflict(known: map<string, string>, rows: seq<Row>, k: nat)
    requires k < |rows| && Recorded(known, rows[..k])
    requires rows[k].id in known && known[rows[k].id] != rows[k].content
    ensures !Agree(rows)
  {
    assert rows[k].id in Ids(rows[..k]);
    var row :| row in rows[..k] && row.id == rows[k].id;
    assert row in rows && rows[k] in rows;
  }

  /** `carry` over the journal: the dictionary of its rows, or the news that it contradicts itself. */
  method Index(rows: seq<Row>) returns (known: Result<map<string, string>, Refusal>)
    ensures known.Ok? <==> Agree(rows)
    ensures known.Ok? ==> Recorded(known.value, rows)
    ensures known.Err? ==> known.error == JournalConflict
  {
    var m: map<string, string> := map[];
    for k := 0 to |rows|
      invariant Recorded(m, rows[..k])
    {
      var rid, canonical := rows[k].id, rows[k].content;
      if rid in m && m[rid] != canonical {
        RecordedConflict(m, rows, k);
        return Err(JournalConflict);
      }
      RecordMore(m, rows[..k], rows[k]);
      assert rows[..k + 1] == rows[..k] + [rows[k]];
      m := m[rid := canonical];
    }
    assert rows[..|rows|] == rows;
    return Ok(m);
  }

  /** Some id of `rows` has another payload in `journal`. */
  ghost predicate Clash(journal: seq<Row>, rows: seq<Row>) {
    exists a, b :: a in journal && b in rows && a.id == b.id && a.content != b.content
  }

  lemma AgreeJoined(journal: seq<Row>, rows: seq<Row>)
    ensures Agree(journal + rows) <==> Agree(journal) && Agree(rows) && !Clash(journal, rows)
  {
    assert forall row :: row in journal + rows <==> row in journal || row in rows;
  }

  lemma FreshGrows(rows: seq<Row>, k: nat, have: set<string>)
    requires k < |rows|
    ensures rows[..k + 1] == rows[..k] + [rows[k]]
    ensures Fresh(rows[..k + 1], have)
            == Fresh(rows[..k], have) + (if rows[k].id in have + Ids(rows[..k]) then [] else [rows[k]])
  {
    assert rows[..k + 1] == rows[..k] + [rows[k]];
    FreshOfJoined(rows[..k], [rows[k]], have);
  }

  /** The middle of the loop of `carry` over the pending rows. */
  ghost predicate Sifted(journal: seq<Row>, rows: seq<Row>, seen: map<string, string>, kept: seq<Row>) {
    Recorded(seen, rows) && !Clash(journal, rows) && kept == Fresh(rows, Ids(journal))
  }

  lemma SiftStep(journal: seq<Row>, known: map<string, string>, rows: seq<Row>, k: nat, seen: map<string, string>,
                 kept: seq<Row>)
    requires Recorded(known, journal) && k < |rows| && Sifted(journal, rows[..k], seen, kept)
    requires rows[k].id in seen ==> seen[rows[k].id] == rows[k].content
    requires rows[k].id !in seen && rows[k].id in known ==> known[rows[k].id] == rows[k].content
    ensures Sifted(journal, rows[..k + 1], if rows[k].id in seen then seen else seen[rows[k].id := rows[k].content],
                   if rows[k].id in seen || rows[k].id in known then kept else kept + [rows[k]])
  {
    var row := rows[k];
    FreshGrows(rows, k, Ids(journal));
    RecordMore(seen, rows[..k], row);
    assert row.id in seen ==> seen[row.id := row.content] == seen;
    assert rows[..k + 1] == rows[..k] + [row];
    assert !Clash(journal, rows[..k]);
    forall a, b | a in journal && b in rows[..k + 1] && a.id == b.id
      ensures a.content == b.content
    {
      if b !in rows[..k] && row.id in seen {
        var first :| first in rows[..k] && first.id == row.id;
        assert a.content == first.content;
      }
    }
  }

  lemma ClashFound(journal: seq<Row>, known: map<string, string>, rows: seq<Row>, k: nat)
    requires Recorded(known, journal) && k < |rows|
    requires rows[k].id in known && known[rows[k].id] != rows[k].content
    ensures Clash(journal, rows)
  {
    assert rows[k].id in Ids(journal);
    var row :| row in journal && row.id == rows[k].id;
    assert rows[k] in rows;
  }

  /** `carry` over the pending rows: the ones to append, or the first conflict. */
  method Sift(pending: seq<Row>, known: map<string, string>, ghost journal: seq<Row>)
    returns (kept: Result<seq<Row>, Refusal>)
    requires Recorded(known, journal)
    ensures kept.Ok? <==> Agree(pending) && !Clash(journal, pending)
    ensures kept.Ok? ==> kept.value == Fresh(pending, Ids(journal))
    ensures kept.Err? ==> if kept.error == LedgerConflict then !Agree(pending)
                          else kept.error == ClashWithJournal && Clash(journal, pending)
  {
    var rows: seq<Row> := [];
    var seen: map<string, string> := map[];
    for k := 0 to |pending|
      invariant Sifted(journal, pending[..k], seen, rows)
    {
      var rid, canonical := pending[k].id, pending[k].content;
      if rid in seen {
        if seen[rid] != canonical {
          RecordedConflict(seen, pending, k);
          return Err(LedgerConflict);
        }
        SiftStep(journal, known, pending, k, seen, rows);
        continue;
      }
      if rid in known && known[rid] != canonical {
        ClashFound(journal, known, pending, k);
        return Err(ClashWithJournal);
      }
      SiftStep(journal, known, pending, k, seen, rows);
      seen := seen[rid := canonical];
      if rid in known {
        continue;
      }
      rows := rows + [pending[k]];
    }
    assert pending[..|pending|] == pending;
    return Ok(rows);
  }

  // ---------------------------------------------------------------- carry

  lemma {:induction false} PayloadJoined(f: Format, a: seq<Row>, b: seq<Row>)
    requires Encodable(f, a) && Encodable(f, b)
    ensures Encodable(f, a + b) && Payload(f, a + b) == Payload(f, a) + Payload(f, b)
    decreases |a|
  {
    if a == [] {
      assert a + b == b;
    } else {
      PayloadJoined(f, a[1..], b);
      assert (a + b)[1..] == a[1..] + b;
      var text := f.render(a[0]).value + "\n";
      assert text + (Payload(f, a[1..]) + Payload(f, b)) == (text + Payload(f, a[1..])) + Payload(f, b);
    }
  }

  /** The text of all rows at once; None when one of them cannot be encoded, and then nothing is written. */
  method RenderAll(f: Format, rows: seq<Row>) returns (text: Option<string>)
    ensures text.Some? <==> Encodable(f, rows)
    ensures text.Some? ==> text.value == Payload(f, rows)
  {
    var out := "";
    for k := 0 to |rows|
      invariant Encodable(f, rows[..k]) && out == Payload(f, rows[..k])
    {
      if f.render(rows[k]).None? {
        return None;
      }
      assert rows[..k + 1] == rows[..k] + [rows[k]] && [rows[k]][1..] == [];
      PayloadJoined(f, rows[..k], [rows[k]]);
      assert Payload(f, [rows[k]]) == f.render(rows[k]).value + "\n" + "";
      out := out + f.render(rows[k]).value + "\n";
    }
    assert rows[..|rows|] == rows;
    return Some(out);
  }

  /** The texts of the three files: what an older version left half carried, the ledger, and the journal. */
  datatype Files = Files(carrying: string, ledger: string, journal: string) {
    function Pending(f: Format): seq<Row> { RowsIn(f, carrying) + RowsIn(f, ledger) }

    function Journal(f: Format): seq<Row> { RowsIn(f, journal) }

    function NewRows(f: Format): seq<Row> { Fresh(Pending(f), Ids(Journal(f))) }

    /** A dry run goes through: the pending files are readable, and unless nothing is pending so is the journal and
        no id has two payloads within or across them. */
    ghost predicate Carries(f: Format) {
      && Reads(f, carrying) && Reads(f, ledger)
      && (Pending(f) != [] ==> Reads(f, journal) && Agree(Journal(f) + Pending(f)))
    }

    /** A carry goes through: and every new row can be encoded. */
    ghost predicate Writes(f: Format) { Carries(f) && Encodable(f, NewRows(f)) }

    /** The files after a carry. */
    ghost function AfterCarry(f: Format, dryRun: bool): Files {
      if Writes(f) && !dryRun then this.(journal := journal + Payload(f, NewRows(f))) else this
    }
  }

  class Memory {
    const format: Format
    var files: Files

    constructor (format: Format, files: Files)
      ensures this.format == format && this.files == files
    {
      this.format, this.files := format, files;
    }

    /** `carry`. */
    method Carry(dryRun: bool) returns (r: Result<Report, Refusal>)
      modifies this
      ensures files == old(files).AfterCarry(format, dryRun)
      ensures r.Ok? <==> old(files).Carries(format) && (dryRun || old(files).Writes(format))
      ensures r.Ok? ==> r.value == var n, all := |old(files).NewRows(format)|, |old(files).Pending(format)|;
                                   if all == 0 then NothingPending
                                   else if dryRun then WouldCarry(n, all) else Carried(n, all)
      ensures r.Err? ==> Reason(format, old(files), r.error)
    {
      var left := Rows(format, files.carrying);
      if left.Err? {
        return Err(left.error);
      }
      var ledger := Rows(format, files.ledger);
      if ledger.Err? {
        return Err(ledger.error);
      }
      var pending := left.value + ledger.value;
      if pending == [] {
        assert files.NewRows(format) == [] && files.journal + "" == files.journal;
        return Ok(NothingPending);
      }
      var journal := Rows(format, files.journal);
      if journal.Err? {
        return Err(journal.error);
      }
      AgreeJoined(journal.value, pending);
      var known := Index(journal.value);
      if known.Err? {
        return Err(known.error);
      }
      var kept := Sift(pending, known.value, journal.value);
      if kept.Err? {
        return Err(kept.error);
      }
      if dryRun {
        return Ok(WouldCarry(|kept.value|, |pending|));
      }
      assert files.journal + "" == files.journal;
      if kept.value != [] {
        var payload := RenderAll(format, kept.value);
        if payload.None? {
          return Err(Unencodable);
        }
        files := files.(journal := files.journal + payload.value);
      }
      return Ok(Carried(|kept.value|, |pending|));
    }
  }

  /** What each refusal says about the files. */
  ghost predicate Reason(f: Format, files: Files, why: Refusal) {
    match why
    case UnreadableRow => !Reads(f, files.carrying) || !Reads(f, files.ledger) || !Reads(f, files.journal)
    case JournalConflict => !Agree(files.Journal(f))
    case LedgerConflict => !Agree(files.Pending(f))
    case ClashWithJournal => Clash(files.Journal(f), files.Pending(f))
    case Unencodable => !Encodable(f, files.NewRows(f))
  }

  // ---------------------------------------------------------------- what was carried reads back

  /** Nothing is new, or the journal ends with its line and no new row is rendered with a line boundary inside. */
  predicate Whole(f: Format, files: Files)
    requires Encodable(f, files.NewRows(f))
  {
    var rows := files.NewRows(f);
    rows == [] || (f.read(Split(files.journal).Tail()).Blank? && OnOneLineEach(f, rows))
  }

  /** What was carried reads back exactly under that condition; else the journal cannot be read any more. */
  lemma CarriedReadsBack(f: Format, files: Files)
    requires f.Json() && files.Writes(f) && files.Pending(f) != []
    ensures var after := files.AfterCarry(f, false);
            && (Reads(f, after.journal) <==> Whole(f, files))
            && (Whole(f, files) ==> after.Journal(f) == files.Journal(f) + files.NewRows(f))
  {
    var rows := files.NewRows(f);
    WrittenRowsAreRead(f, rows);
    JoinedReads(f, files.journal, Payload(f, rows));
    if rows == [] {
      assert files.journal + "" == files.journal;
    }
  }

  /** After a carry that leaves the journal readable, every pending row stands in it with its payload. */
  lemma NothingIsLost(f: Format, files: Files, row: Row)
    requires f.Json() && files.Writes(f) && row in files.Pending(f)
    ensures var after := files.AfterCarry(f, false);
            && (Reads(f, after.journal) <==> Whole(f, files))
            && (Whole(f, files) ==>
                  exists copy :: copy in after.Journal(f) && copy.id == row.id && copy.content == row.content)
  {
    CarriedReadsBack(f, files);
    var journal, rows := files.Journal(f), files.NewRows(f);
    FreshIsOneOfEach(files.Pending(f), Ids(journal));
    var all := journal + files.Pending(f);
    assert row.id in Ids(journal) + Ids(rows);
    var copy :| (copy in journal || copy in rows) && copy.id == row.id;
    assert copy in all && row in all;
  }

  /** And it keeps its text and has gained one row for each id it did not have. */
  lemma NothingIsDoubled(f: Format, files: Files)
    requires f.Json() && files.Writes(f)
    ensures files.journal <= files.AfterCarry(f, false).journal && DistinctIds(files.NewRows(f))
    ensures forall row :: row in files.NewRows(f) ==> row in files.Pending(f) && row.id !in Ids(files.Journal(f))
    ensures files.Pending(f) != [] && Whole(f, files) ==>
              var after := files.AfterCarry(f, false);
              && after.Journal(f) == files.Journal(f) + files.NewRows(f)
              && Ids(after.Journal(f)) == Ids(files.Journal(f)) + Ids(files.Pending(f))
  {
    var rows := files.NewRows(f);
    FreshIsOneOfEach(files.Pending(f), Ids(files.Journal(f)));
    if files.Pending(f) != [] {
      CarriedReadsBack(f, files);
      IdsOfJoined(files.Journal(f), rows);
    }
  }

  // ---------------------------------------------------------------- carries between appends

  /** What happens to the ledger over time: a gate appends some text, or somebody carries. */
  datatype Event = Append(text: string) | CarryNow(dryRun: bool)

  ghost function After(f: Format, files: Files, event: Event): Files {
    match event
    case Append(text) => files.(ledger := files.ledger + text)
    case CarryNow(dryRun) => files.AfterCarry(f, dryRun)
  }

  ghost function Run(f: Format, files: Files, events: seq<Event>): Files
    decreases |events|
  {
    if events == [] then files else After(f, Run(f, files, events[..|events| - 1]), events[|events| - 1])
  }

  /** The files as if no carry had happened: the same appends, and the journal of the beginning. */
  ghost function Uncarried(start: Files, now: Files): Files { now.(journal := start.journal) }

  /** The files with the first `k` characters of the ledger and the first journal. */
  function Part(start: Files, now: Files, k: nat): Files
    requires k <= |now.ledger|
  {
    Files(start.carrying, now.ledger[..k], start.journal)
  }

  /** The journal is the first one, or what one carry of some beginning of the ledger made of it. */
  ghost predicate CaughtUp(f: Format, start: Files, now: Files, k: nat) {
    && now.carrying == start.carrying && k <= |now.ledger|
    && (now.journal == start.journal
        || (Part(start, now, k).Writes(f) && now.journal == Part(start, now, k).AfterCarry(f, false).journal))
  }

  /** Two carries amount to one: from a journal that already took the rows `a`, carrying `a + b` appends what a
      single carry of `a + b` appends after them. */
  lemma SecondCarry(a: seq<Row>, b: seq<Row>, journal: seq<Row>)
    ensures var once := journal + Fresh(a, Ids(journal));
            Fresh(a + b, Ids(journal)) == Fresh(a, Ids(journal)) + Fresh(a + b, Ids(once))
  {
    var have := Ids(journal);
    var once := journal + Fresh(a, have);
    IdsOfJoined(journal, Fresh(a, have));
    FreshIsOneOfEach(a, have);
    assert Ids(once) == have + Ids(a);
    FreshOfJoined(a, b, have);
    FreshOfJoined(a, b, Ids(once));
    FreshOfKnown(a, Ids(once));
    assert Ids(once) + Ids(a) == have + Ids(a);
  }

  lemma {:induction false} FreshOfKnown(rows: seq<Row>, have: set<string>)
    requires Ids(rows) <= have
    ensures Fresh(rows, have) == []
  {
    if rows != [] {
      assert rows[0].id in Ids(rows);
      assert Ids(rows[1..]) <= Ids(rows);
      FreshOfKnown(rows[1..], have);
    }
  }

  lemma SameRows(journal: seq<Row>, a: seq<Row>, b: seq<Row>)
    ensures Agree((journal + Fresh(a, Ids(journal))) + (a + b)) <==> Agree(journal + (a + b))
  {
    var x, y := (journal + Fresh(a, Ids(journal))) + (a + b), journal + (a + b);
    FreshIsOneOfEach(a, Ids(journal));
    assert forall row :: row in x <==> row in y;
  }

  /** A carry that follows a carry of a part of the pending rows, which reads back: it goes through exactly when one
      carry of all of them would, and appends what that carry appends after the part. */
  lemma CarryAfterCarry(f: Format, part: Files, now: Files, more: seq<Row>)
    requires part.Writes(f) && Reads(f, part.journal) && Reads(f, now.journal)
    requires now.Pending(f) == part.Pending(f) + more && now.Journal(f) == part.Journal(f) + part.NewRows(f)
    ensures var once := now.(journal := part.journal);
            && (now.Writes(f) <==> once.Writes(f))
            && once.NewRows(f) == part.NewRows(f) + now.NewRows(f)
  {
    SameRows(part.Journal(f), part.Pending(f), more);
    SecondCarry(part.Pending(f), more, part.Journal(f));
    var once := now.(journal := part.journal);
    assert once.NewRows(f) == part.NewRows(f) + now.NewRows(f);
    assert forall row :: row in once.NewRows(f) <==> row in part.NewRows(f) || row in now.NewRows(f);
  }

  /** A ledger that is still readable after more text has the rows it had, and more. */
  lemma PendingGrows(f: Format, start: Files, now: Files, k: nat) returns (more: seq<Row>)
    requires f.Json() && CaughtUp(f, start, now, k) && now.journal != start.journal && Reads(f, now.ledger)
    ensures now.Pending(f) == Part(start, now, k).Pending(f) + more && Part(start, now, k).Pending(f) != []
  {
    var part := Part(start, now, k);
    var rest := now.ledger[k..];
    assert now.ledger == part.ledger + rest;
    JoinedReads(f, part.ledger, rest);
    more := RowsIn(f, rest);
    Associative(RowsIn(f, now.carrying), RowsIn(f, part.ledger), more);
    NothingNew(f, part);
  }

  lemma NothingNew(f: Format, files: Files)
    ensures files.Pending(f) == [] ==> files.NewRows(f) == []
    ensures files.NewRows(f) == [] ==> files.AfterCarry(f, false) == files
  {
    assert files.journal + "" == files.journal;
  }

  /** A carry of `now` goes through exactly when one carry of the whole would and the journal can still be read, and
      then leaves the same journal. The journal can still be read when that one carry would read back. */
  lemma LateCarry(f: Format, start: Files, now: Files, k: nat)
    requires f.Json() && CaughtUp(f, start, now, k)
    ensures var once := Uncarried(start, now);
            && (now.Writes(f) <==> once.Writes(f) && (now.Pending(f) != [] ==> Reads(f, now.journal)))
            && (now.Writes(f) ==> now.AfterCarry(f, false) == once.AfterCarry(f, false))
            && (once.Writes(f) && Whole(f, once) ==> now.Writes(f))
  {
    if now.journal != start.journal && Reads(f, now.ledger) {
      var more := PendingGrows(f, start, now, k);
      NothingNew(f, Part(start, now, k));
      CarryOfMore(f, Part(start, now, k), now, more);
    }
  }

  /** The same for a carry that follows a carry of a part which had something new. */
  lemma CarryOfMore(f: Format, part: Files, now: Files, more: seq<Row>)
    requires f.Json() && part.Writes(f) && part.NewRows(f) != [] && now.journal == part.AfterCarry(f, false).journal
    requires now.Pending(f) == part.Pending(f) + more && part.Pending(f) != []
    ensures var once := now.(journal := part.journal);
            && (now.Writes(f) <==> once.Writes(f) && Reads(f, now.journal))
            && (now.Writes(f) ==> now.AfterCarry(f, false) == once.AfterCarry(f, false))
            && (once.Writes(f) && Whole(f, once) ==> now.Writes(f))
  {
    CarriedReadsBack(f, part);
    if Reads(f, now.journal) {
      SameJournal(f, part, now, more);
    } else if now.(journal := part.journal).Writes(f) {
      PartIsWhole(f, part, now.(journal := part.journal), more);
    }
  }

  lemma SameJournal(f: Format, part: Files, now: Files, more: seq<Row>)
    requires part.Writes(f) && Reads(f, part.journal) && Reads(f, now.journal)
    requires now.journal == part.journal + Payload(f, part.NewRows(f))
    requires now.Pending(f) == part.Pending(f) + more && now.Journal(f) == part.Journal(f) + part.NewRows(f)
    ensures var once := now.(journal := part.journal);
            && (now.Writes(f) <==> once.Writes(f))
            && (now.Writes(f) ==> now.AfterCarry(f, false) == once.AfterCarry(f, false))
  {
    CarryAfterCarry(f, part, now, more);
    if now.Writes(f) {
      AppendedTwice(f, part.journal, part.NewRows(f), now.NewRows(f));
    }
  }

  lemma AppendedTwice(f: Format, journal: string, a: seq<Row>, b: seq<Row>)
    requires Encodable(f, a) && Encodable(f, b) && Encodable(f, a + b)
    ensures (journal + Payload(f, a)) + Payload(f, b) == journal + Payload(f, a + b)
  {
    PayloadJoined(f, a, b);
  }

  lemma PartIsWhole(f: Format, part: Files, once: Files, more: seq<Row>)
    requires part.Writes(f) && once.Writes(f) && once.journal == part.journal
    requires once.Pending(f) == part.Pending(f) + more
    ensures Whole(f, once) ==> Whole(f, part)
  {
    FreshOfJoined(part.Pending(f), more, Ids(part.Journal(f)));
    assert forall row :: row in part.NewRows(f) ==> row in once.NewRows(f);
  }

  lemma {:induction false} EveryRunIsCaughtUp(f: Format, start: Files, events: seq<Event>) returns (k: nat)
    requires f.Json()
    ensures CaughtUp(f, start, Run(f, start, events), k)
    decreases |events|
  {
    k := 0;
    if events != [] {
      var before, last := Run(f, start, events[..|events| - 1]), events[|events| - 1];
      k := EveryRunIsCaughtUp(f, start, events[..|events| - 1]);
      var now := After(f, before, last);
      match last {
        case Append(text) =>
          assert now.ledger[..k] == before.ledger[..k];
        case CarryNow(dryRun) =>
          if before.Writes(f) && !dryRun {
            LateCarry(f, start, before, k);
            k := |now.ledger|;
            assert now.ledger[..k] == now.ledger;
            assert Uncarried(start, before) == Part(start, now, k);
          }
      }
    }
  }

  /** However appends and carries are interleaved, a last carry goes through exactly when a single carry after all
      the appends would and no carry before it has spoiled the journal, and leaves exactly its journal. When that
      single carry would read back, no carry before it has. */
  lemma CarriesAreConfluent(f: Format, start: Files, events: seq<Event>)
    requires f.Json()
    ensures var now := Run(f, start, events);
            var once := Uncarried(start, now);
            && (now.Writes(f) <==> once.Writes(f) && (now.Pending(f) != [] ==> Reads(f, now.journal)))
            && (now.Writes(f) ==> now.AfterCarry(f, false) == once.AfterCarry(f, false))
            && (once.Writes(f) && Whole(f, once) ==> now.Writes(f))
  {
    var k := EveryRunIsCaughtUp(f, start, events);
    LateCarry(f, start, Run(f, start, events), k);
  }

  /** A repeated carry goes through exactly when the first one reads back, and then appends nothing. */
  lemma RepeatAppendsNothing(f: Format, files: Files)
    requires f.Json() && files.Writes(f)
    ensures var after := files.AfterCarry(f, false);
            && (after.Writes(f) <==> Whole(f, files))
            && (Whole(f, files) ==> after.NewRows(f) == [] && after.AfterCarry(f, false) == after)
  {
    var after := files.AfterCarry(f, false);
    if files.Pending(f) == [] {
      assert files.NewRows(f) == [] && files.journal + "" == files.journal;
    } else {
      CarriedReadsBack(f, files);
      if Whole(f, files) {
        NothingIsDoubled(f, files);
        FreshOfKnown(after.Pending(f), Ids(after.Journal(f)));
        SameRows(files.Journal(f), files.Pending(f), []);
        assert files.Pending(f) + [] == files.Pending(f);
        assert after.journal + "" == after.journal;
      }
    }
  }

  // ---------------------------------------------------------------- two files that do not read back

  const FIRST: string := "{\"id\": \"a\"}"
  const SECOND: string := "{\"id\": \"b\"}"

  /** A format that knows just the rows `a` and `b`, on the lines `first` and `second`. */
  function TwoRows(first: string, second: string, a: Row, b: Row): Format {
    Format(line => if line == "" then Blank else if line == first then Audit(a) else if line == second then Audit(b)
                   else Unparsable,
           row => if row == a then Some(first) else if row == b then Some(second) else None)
  }

  /** What is asked of a format can be had, with two rows. */
  lemma TwoRowsIsJson(first: string, second: string, a: Row, b: Row)
    requires |first| == |second| > 0 && first[0] == second[0] == '{' && first != second && a != b
    ensures TwoRows(first, second, a, b).Json()
  {
    var f := TwoRows(first, second, a, b);
    forall x, y {:trigger f.read(x + y)} | f.read(x).Audit?
      ensures f.read(x + y) == if f.read(y).Blank? then f.read(x) else Unparsable
    {
      assert y == "" ==> x + y == x;
    }
    forall x, y {:trigger f.read(x + y)} | f.read(x).Blank?
      ensures f.read(x + y) == f.read(y)
    {
      assert x + y == y;
    }
  }

  /** A journal without its last newline: the carry goes through, joins two rows on one line, and a repeat refuses. */
  lemma JoinedRowsAreSpoiled(f: Format, first: string, second: string, a: Row, b: Row)
    requires f.Json() && OneLine(first) && OneLine(second) && a.id != b.id
    requires f.read(first) == Audit(a) && f.read(second) == Audit(b) && f.render(b) == Some(second)
    ensures Spoils(f, Files("", second + "\n", first), first + (second + "\n"))
  {
    var files := Files("", second + "\n", first);
    OneRowIn(f, first, a);
    OneRowIn(f, second, b);
    assert Ids([a]) == {a.id};
    OneNewRow(f, files, [a], b, second);
    RepeatAppendsNothing(f, files);
  }

  /** A row that is rendered with a boundary inside: the carry goes through, and the journal cannot be read any
      more. */
  lemma CutRowIsSpoiled(f: Format, text: string, rendered: string, b: Row)
    requires f.Json() && OneLine(text) && !OneLine(rendered)
    requires f.read(text) == Audit(b) && f.render(b) == Some(rendered)
    ensures Spoils(f, Files("", text + "\n", ""), "" + (rendered + "\n"))
  {
    var files := Files("", text + "\n", "");
    OneRowIn(f, text, b);
    OneNewRow(f, files, [], b, rendered);
    assert b in [b];
    RepeatAppendsNothing(f, files);
  }

  /** A carry of `files` goes through and leaves the journal `after`, and then no carry goes through any more. */
  ghost predicate Spoils(f: Format, files: Files, after: string) {
    files.Writes(f) && files.AfterCarry(f, false).journal == after && !files.AfterCarry(f, false).Writes(f)
  }

  lemma UnendedJournalIsSpoiled(f: Format, a: Row, b: Row)
    requires f.Json() && f.read(FIRST) == Audit(a) && f.read(SECOND) == Audit(b) && a.id != b.id
    requires f.render(b) == Some(SECOND)
    ensures Spoils(f, Files("", SECOND + "\n", FIRST), FIRST + (SECOND + "\n"))
  {
    JoinedRowsAreSpoiled(f, FIRST, SECOND, a, b);
  }

  const ESCAPED: string := "{\"id\": \"b\", \"note\": \"\\u2028\"}"
  const UNESCAPED: string := "{\"id\": \"b\", \"note\": \"\U{2028}\"}"

  /** A row with an escaped line separator is written unescaped. */
  lemma EscapedBoundaryIsSpoiled(f: Format, b: Row)
    requires f.Json() && f.read(ESCAPED) == Audit(b) && f.render(b) == Some(UNESCAPED)
    ensures Spoils(f, Files("", ESCAPED + "\n", ""), "" + (UNESCAPED + "\n"))
  {
    assert IsBoundary(UNESCAPED[21]);
    CutRowIsSpoiled(f, ESCAPED, UNESCAPED, b);
  }

  /** A ledger of one row that the journal does not have. */
  lemma OneNewRow(f: Format, files: Files, journal: seq<Row>, b: Row, text: string)
    requires f.Json() && files.carrying == "" && Reads(f, files.ledger) && RowsIn(f, files.ledger) == [b]
    requires Reads(f, files.journal) && files.Journal(f) == journal && Agree(journal) && b.id !in Ids(journal)
    requires f.render(b) == Some(text)
    ensures files.Writes(f) && files.NewRows(f) == [b] && Payload(f, [b]) == text + "\n"
  {
    assert files.Pending(f) == [] + [b] == [b];
    assert [b][1..] == [];
    assert Fresh([b], Ids(journal)) == [b] + Fresh([], Ids(journal) + {b.id});
    forall x, y | x in journal + [b] && y in journal + [b] && x.id == y.id
      ensures x.content == y.content
    {
      assert x in journal ==> x.id in Ids(journal);
      assert y in journal ==> y.id in Ids(journal);
    }
    assert text + "\n" + "" == text + "\n";
  }

  /** A text of one line that reads as a row, with and without its newline. */
  lemma OneRowIn(f: Format, text: string, row: Row)
    requires f.Json() && OneLine(text) && f.read(text) == Audit(row)
    ensures Reads(f, text) && RowsIn(f, text) == [row] && Split(text).Tail() == text
    ensures Reads(f, text + "\n") && RowsIn(f, text + "\n") == [row]
  {
    SplitOneLine(text);
    SplitJoined(text, "\n");
    assert Split("\n") == More("", Last(""));
    NewlineBehind(Split(text));
    assert Split(text + "\n") == More(text, Last(""));
    assert RowOf(f, text) == [row] && RowOf(f, "") == [];
    assert RowsOf(f, Last("")) == [] + [];
  }
}
