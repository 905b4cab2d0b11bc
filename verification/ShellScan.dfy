/** The three hand-written quote scanners of hooks/completion_lib.py, against one automaton.

    The source asks the same question three times with three different index loops: where does
    the quoting of a shell command end?  `Step` is the answer of sections 2.2.1 to 2.2.3 of
    POSIX.1-2017 XCU, one character at a time, with no look-ahead and no jumps.  Every scanner
    below is proved to carry exactly the state that automaton reaches. */
module ShellScan {
  import opened Wrappers

  // ---------------------------------------------------------------- the automaton

  /** Plain text, the character after a backslash, '...', "...", and a backslash inside "...". */
  datatype Quoting = Plain | PlainEscape | Single | Double | DoubleEscape

  function Step(q: Quoting, ch: char): Quoting {
    match q
    case Plain => if ch == '\\' then PlainEscape else if ch == '\'' then Single else if ch == '"' then Double else Plain
    case PlainEscape => Plain
    case Single => if ch == '\'' then Plain else Single
    case Double => if ch == '"' then Plain else if ch == '\\' then DoubleEscape else Double
    case DoubleEscape => Double
  }

  function Run(q: Quoting, s: string): Quoting
    decreases s
  {
    if s == "" then q else Run(Step(q, s[0]), s[1..])
  }

  /** What the scanners' variable `quote` holds: no quote, ' or ". */
  datatype Quote = NoQuote | SingleQuote | DoubleQuote

  function QuoteOf(q: Quoting): Quote {
    match q
    case Plain => NoQuote
    case PlainEscape => NoQuote
    case Single => SingleQuote
    case Double => DoubleQuote
    case DoubleEscape => DoubleQuote
  }

  /** The automaton state a scanner is in between two of its iterations. */
  function Resting(quote: Quote): Quoting {
    match quote
    case NoQuote => Plain
    case SingleQuote => Single
    case DoubleQuote => Double
  }

  lemma {:induction false} RunConcat(q: Quoting, a: string, b: string)
    ensures Run(q, a + b) == Run(Run(q, a), b)
    decreases a
  {
    if a == "" {
      assert a + b == b;
    } else {
      assert (a + b)[1..] == a[1..] + b;
      RunConcat(Step(q, a[0]), a[1..], b);
    }
  }

  lemma RunOne(q: Quoting, c: string, i: nat)
    requires i < |c|
    ensures Run(q, c[..i + 1]) == Step(Run(q, c[..i]), c[i])
  {
    assert c[..i + 1] == c[..i] + [c[i]];
    RunConcat(q, c[..i], [c[i]]);
    assert Run(Step(Run(q, c[..i]), c[i]), [c[i]][1..]) == Step(Run(q, c[..i]), c[i]);
  }

  // ---------------------------------------------------------------- _inside_quotes

  /** Whether `prefix` ends inside an open quotation (`_inside_quotes`). */
  method InsideQuotes(prefix: string) returns (inside: bool)
    ensures inside <==> QuoteOf(Run(Plain, prefix)) != NoQuote
  {
    var quote := NoQuote;
    var i, n := 0, |prefix|;
    assert prefix[..0] == "";
    while i < n
      invariant 0 <= i <= n + 1
      invariant i <= n ==> Run(Plain, prefix[..i]) == Resting(quote)
      invariant i == n + 1 ==> QuoteOf(Run(Plain, prefix)) == quote
    {
      var ch := prefix[i];
      RunOne(Plain, prefix, i);
      if ch == '\\' && quote != SingleQuote {
        if i + 1 < n {
          RunOne(Plain, prefix, i + 1);
        } else {
          assert prefix[..i + 1] == prefix;
        }
        i := i + 2;
        continue;
      }
      if quote != NoQuote {
        if (quote == SingleQuote && ch == '\'') || (quote == DoubleQuote && ch == '"') {
          quote := NoQuote;
        }
      } else if ch == '\'' {
        quote := SingleQuote;
      } else if ch == '"' {
        quote := DoubleQuote;
      }
      i := i + 1;
    }
    assert i == n ==> prefix[..i] == prefix;
    inside := quote != NoQuote;
  }

  // ---------------------------------------------------------------- _shell_words

  /** The characters Python's str.isspace accepts. */
  predicate IsSpace(ch: char) {
    var c := ch as int;
    9 <= c <= 13 || 28 <= c <= 32 || c == 0x85 || c == 0xA0 || c == 0x1680 || 0x2000 <= c <= 0x200A
    || c == 0x2028 || c == 0x2029 || c == 0x202F || c == 0x205F || c == 0x3000
  }

  function Flush(cur: string): seq<string> { if cur == "" then [] else [cur] }

  /** The words of `s` when the automaton is in state `q` and `cur` is the word under way: a word
      ends at whitespace in plain text and nowhere else. */
  function WordsFrom(s: string, q: Quoting, cur: string): seq<string> {
    if s == "" then Flush(cur)
    else if q.Plain? && IsSpace(s[0]) then Flush(cur) + WordsFrom(s[1..], Plain, "")
    else WordsFrom(s[1..], Step(q, s[0]), cur + [s[0]])
  }

  function Words(s: string): seq<string> { WordsFrom(s, Plain, "") }

  method ShellWords(segment: string) returns (words: seq<string>, quote: Quote)
    ensures words == Words(segment)
    ensures quote == QuoteOf(Run(Plain, segment))
  {
    words, quote := [], NoQuote;
    var cur := "";
    var i, n := 0, |segment|;
    assert segment[0..] == segment;
    while i < n
      invariant 0 <= i <= n && WordScan(segment, i, quote, words, cur)
    {
      var ch := segment[i];
      if ch == '\\' && quote != SingleQuote && i + 1 < n {
        WordTwo(segment, i, quote, words, cur);
        cur := cur + segment[i..i + 2];
        i := i + 2;
        continue;
      }
      WordOne(segment, i, quote, words, cur);
      if quote != NoQuote {
        cur := cur + [ch];
        if (quote == SingleQuote && ch == '\'') || (quote == DoubleQuote && ch == '"') {
          quote := NoQuote;
        }
      } else if ch == '\'' || ch == '"' {
        quote := if ch == '\'' then SingleQuote else DoubleQuote;
        cur := cur + [ch];
      } else if IsSpace(ch) {
        if cur != "" {
          words := words + [cur];
          cur := "";
        }
      } else {
        cur := cur + [ch];
      }
      i := i + 1;
    }
    assert segment[n..] == "";
    if cur != "" {
      words := words + [cur];
    }
  }

  /** The word scan at position `i`: the words so far, and those the rest will add. */
  ghost predicate WordScan(segment: string, i: nat, quote: Quote, words: seq<string>, cur: string)
    requires i <= |segment|
  {
    && Words(segment) == words + WordsFrom(segment[i..], Resting(quote), cur)
    && QuoteOf(Run(Plain, segment)) == QuoteOf(Run(Resting(quote), segment[i..]))
  }

  /** One character that escapes no other: it belongs to the word, or it is whitespace and ends one. */
  lemma WordOne(segment: string, i: nat, quote: Quote, words: seq<string>, cur: string)
    requires i < |segment| && WordScan(segment, i, quote, words, cur)
    requires segment[i] == '\\' && quote != SingleQuote ==> i + 1 == |segment|
    ensures if quote == NoQuote && IsSpace(segment[i]) then
              WordScan(segment, i + 1, NoQuote, words + Flush(cur), "") && words + Flush("") == words
            else WordScan(segment, i + 1, QuoteAfter(quote, segment[i]), words, cur + [segment[i]])
  {
    WordCharacter(segment, i, Resting(quote), cur);
    assert i + 1 == |segment| ==> segment[i + 1..] == "";
    if quote == NoQuote && IsSpace(segment[i]) {
      var rest := WordsFrom(segment[i + 1..], Plain, "");
      assert words + (Flush(cur) + rest) == (words + Flush(cur)) + rest;
    }
  }

  /** A backslash and the character it escapes. */
  lemma WordTwo(segment: string, i: nat, quote: Quote, words: seq<string>, cur: string)
    requires i + 1 < |segment| && WordScan(segment, i, quote, words, cur)
    requires segment[i] == '\\' && quote != SingleQuote
    ensures WordScan(segment, i + 2, quote, words, cur + segment[i..i + 2])
  {
    WordCharacter(segment, i, Resting(quote), cur);
    WordCharacter(segment, i + 1, Step(Resting(quote), segment[i]), cur + [segment[i]]);
    assert cur + [segment[i]] + [segment[i + 1]] == cur + segment[i..i + 2];
  }

  /** The automaton's view of one character. */
  lemma WordCharacter(c: string, i: nat, q: Quoting, cur: string)
    requires i < |c|
    ensures Run(q, c[i..]) == Run(Step(q, c[i]), c[i + 1..])
    ensures WordsFrom(c[i..], q, cur)
            == if q.Plain? && IsSpace(c[i]) then Flush(cur) + WordsFrom(c[i + 1..], Plain, "")
               else WordsFrom(c[i + 1..], Step(q, c[i]), cur + [c[i]])
  {
    assert c[i..][1..] == c[i + 1..];
  }

  /** Words with the whitespace around them put back. */
  function Spaced(gaps: seq<string>, words: seq<string>): string
    requires |gaps| == |words| + 1
  {
    if words == [] then gaps[0] else gaps[0] + words[0] + Spaced(gaps[1..], words[1..])
  }

  /** No whitespace stands in plain text. */
  predicate Unbroken(word: string) {
    forall k :: 0 <= k < |word| && Run(Plain, word[..k]) == Plain ==> !IsSpace(word[k])
  }

  /** Words that hold no whitespace in plain text, and whitespace between any two of them, which stands in plain text
      because a word is closed before it. */
  ghost predicate WellSpaced(gaps: seq<string>, words: seq<string>)
    decreases |words|
  {
    && |gaps| == |words| + 1 && (forall m :: 0 <= m < |gaps[0]| ==> IsSpace(gaps[0][m]))
    && (words == []
        || (words[0] != "" && Unbroken(words[0]) && (|words| > 1 ==> gaps[1] != "")
            && (gaps[1] != "" ==> Run(Plain, words[0]) == Plain) && WellSpaced(gaps[1..], words[1..])))
  }

  lemma {:induction false} WordsFromAreSpaced(s: string, q: Quoting, cur: string) returns (gaps: seq<string>)
    requires Run(Plain, cur) == q && Unbroken(cur)
    ensures WellSpaced(gaps, WordsFrom(s, q, cur)) && Spaced(gaps, WordsFrom(s, q, cur)) == cur + s
    ensures cur != "" ==> gaps[0] == ""
    decreases s
  {
    if s == "" {
      gaps := if cur == "" then [""] else ["", ""];
      LastWord(cur);
      assert cur + s == cur;
    } else {
      Regrouped(cur, s);
      if q.Plain? && IsSpace(s[0]) {
        var rest := WordsFromAreSpaced(s[1..], Plain, "");
        gaps := WordBefore(s[0], cur, rest, WordsFrom(s[1..], Plain, ""));
      } else {
        UnbrokenMore(cur, s[0]);
        gaps := WordsFromAreSpaced(s[1..], Step(q, s[0]), cur + [s[0]]);
      }
    }
  }

  lemma Regrouped(cur: string, s: string)
    requires s != ""
    ensures cur + ([s[0]] + ("" + s[1..])) == cur + s && cur + [s[0]] + s[1..] == cur + s
  {
  }

  lemma LastWord(word: string)
    requires Unbroken(word)
    ensures if word == "" then WellSpaced([""], Flush(word)) && Spaced([""], Flush(word)) == word
            else WellSpaced(["", ""], Flush(word)) && Spaced(["", ""], Flush(word)) == word
  {
    assert [word][1..] == [] && ["", ""][1..] == [""] && [""][0] == "";
    assert "" + word + "" == word;
  }

  lemma WordBefore(space: char, word: string, gaps: seq<string>, words: seq<string>) returns (more: seq<string>)
    requires IsSpace(space) && WellSpaced(gaps, words) && Unbroken(word) && Run(Plain, word) == Plain
    ensures WellSpaced(more, Flush(word) + words) && (word != "" ==> more[0] == "")
    ensures Spaced(more, Flush(word) + words) == word + ([space] + Spaced(gaps, words))
  {
    more := [[space] + gaps[0]] + gaps[1..];
    SpacedMore(space, gaps, words);
    if word == "" {
      assert Flush(word) + words == words && word + Spaced(more, words) == Spaced(more, words);
    } else {
      FirstWord(word, more, words);
      more := [""] + more;
    }
  }

  lemma SpacedMore(space: char, gaps: seq<string>, words: seq<string>)
    requires WellSpaced(gaps, words) && IsSpace(space)
    ensures var more := [[space] + gaps[0]] + gaps[1..];
            WellSpaced(more, words) && more[0] != "" && Spaced(more, words) == [space] + Spaced(gaps, words)
  {
    var more := [[space] + gaps[0]] + gaps[1..];
    assert more[1..] == gaps[1..];
    if words != [] {
      var rest := Spaced(gaps[1..], words[1..]);
      assert [space] + gaps[0] + words[0] + rest == [space] + (gaps[0] + words[0] + rest);
    }
  }

  lemma FirstWord(word: string, gaps: seq<string>, words: seq<string>)
    requires WellSpaced(gaps, words) && gaps[0] != "" && word != "" && Unbroken(word) && Run(Plain, word) == Plain
    ensures WellSpaced([""] + gaps, [word] + words) && Spaced([""] + gaps, [word] + words) == word + Spaced(gaps, words)
  {
    var all, spaces := [word] + words, [""] + gaps;
    assert all[0] == word && all[1..] == words && spaces[0] == "" && spaces[1..] == gaps;
    assert "" + word + Spaced(gaps, words) == word + Spaced(gaps, words);
  }

  lemma UnbrokenMore(cur: string, ch: char)
    requires Unbroken(cur) && (Run(Plain, cur) == Plain ==> !IsSpace(ch))
    ensures Unbroken(cur + [ch]) && Run(Plain, cur + [ch]) == Step(Run(Plain, cur), ch)
  {
    var more := cur + [ch];
    RunOne(Plain, more, |cur|);
    assert more[..|cur|] == cur && more[..|cur| + 1] == more;
    forall k | 0 <= k < |more| && Run(Plain, more[..k]) == Plain
      ensures !IsSpace(more[k])
    {
      if k < |cur| {
        assert more[..k] == cur[..k];
      }
    }
  }

  /** The words are the segment cut at its whitespace in plain text and nowhere else. */
  lemma WordsAreSeparated(segment: string) returns (gaps: seq<string>)
    ensures WellSpaced(gaps, Words(segment)) && Spaced(gaps, Words(segment)) == segment
  {
    gaps := WordsFromAreSpaced(segment, Plain, "");
    assert "" + segment == segment;
  }

  // ---------------------------------------------------------------- _split_top, pipes

  /** The pipe segments of `s` when the automaton is in state `q` and `cur` is the segment under
      way: a `|` in plain text cuts unless it is one half of a `||`. */
  function PipeFrom(s: string, q: Quoting, cur: string): seq<string>
    decreases s
  {
    if s == "" then [cur]
    else if q.Plain? && s[0] == '|' then
      if |s| > 1 && s[1] == '|' then PipeFrom(s[2..], Plain, cur + "||")
      else [cur] + PipeFrom(s[1..], Plain, "")
    else PipeFrom(s[1..], Step(q, s[0]), cur + [s[0]])
  }

  /** `_split_pipeline(command)`. */
  function Pipeline(command: string): seq<string> { PipeFrom(command, Plain, "") }

  /** Python's `"|".join(segments)`. */
  function JoinPipes(segments: seq<string>): string {
    if segments == [] then ""
    else if |segments| == 1 then segments[0]
    else segments[0] + "|" + JoinPipes(segments[1..])
  }

  lemma {:induction false} PipelineShape(s: string, q: Quoting, cur: string)
    ensures |PipeFrom(s, q, cur)| > 0 && cur <= PipeFrom(s, q, cur)[0]
    decreases s
  {
    if s == "" {
    } else if q.Plain? && s[0] == '|' {
      if |s| > 1 && s[1] == '|' {
        PipelineShape(s[2..], Plain, cur + "||");
      }
    } else {
      PipelineShape(s[1..], Step(q, s[0]), cur + [s[0]]);
    }
  }

  /** Splitting at pipes loses no character. */
  lemma {:induction false} PipelineLossless(s: string, q: Quoting, cur: string)
    ensures JoinPipes(PipeFrom(s, q, cur)) == cur + s
    decreases s
  {
    if s == "" {
    } else if q.Plain? && s[0] == '|' {
      if |s| > 1 && s[1] == '|' {
        PipelineLossless(s[2..], Plain, cur + "||");
        assert s == "||" + s[2..];
        assert cur + "||" + s[2..] == cur + s;
      } else {
        var rest := PipeFrom(s[1..], Plain, "");
        PipelineShape(s[1..], Plain, "");
        PipelineLossless(s[1..], Plain, "");
        assert ([cur] + rest)[1..] == rest;
        assert s == "|" + s[1..];
        assert cur + "|" + s[1..] == cur + s;
      }
    } else {
      PipelineLossless(s[1..], Step(q, s[0]), cur + [s[0]]);
      assert s == [s[0]] + s[1..];
      assert cur + [s[0]] + s[1..] == cur + s;
    }
  }

  lemma JoinedPipelineIsTheCommand(command: string)
    ensures JoinPipes(Pipeline(command)) == command
  {
    PipelineLossless(command, Plain, "");
    assert "" + command == command;
  }

  /** `s` ends in plain text and not on a `|` that a further `|` would turn into `||`. */
  predicate EndsClean(s: string, q: Quoting)
    decreases s
  {
    if s == "" then q.Plain?
    else if q.Plain? && s[0] == '|' then
      if |s| > 1 && s[1] == '|' then EndsClean(s[2..], Plain)
      else |s| > 1 && EndsClean(s[1..], Plain)
    else EndsClean(s[1..], Step(q, s[0]))
  }

  /** The usual reason to end cleanly: the quoting is closed and the last character is no pipe. */
  lemma {:induction false} ClosedTextEndsClean(s: string, q: Quoting)
    requires Run(q, s).Plain? && (s != "" ==> s[|s| - 1] != '|')
    ensures EndsClean(s, q)
    decreases s
  {
    if s == "" {
    } else if q.Plain? && s[0] == '|' && |s| > 1 && s[1] == '|' {
      assert Run(q, s) == Run(Plain, s[1..]);
      assert s[1..][1..] == s[2..];
      ClosedTextEndsClean(s[2..], Plain);
    } else if |s| > 1 {
      ClosedTextEndsClean(s[1..], Step(q, s[0]));
    }
  }

  /** Behind a single pipe a tail is appended as it is to the text after the pipe. */
  lemma TailAfterPipe(s: string, cur: string, t: string)
    requires |s| > 1 && s[0] == '|' && s[1] != '|'
    ensures PipeFrom(s + "|" + t, Plain, cur) == PipeFrom(s, Plain, cur) + Pipeline(t)
            <==> PipeFrom(s[1..] + "|" + t, Plain, "") == PipeFrom(s[1..], Plain, "") + Pipeline(t)
  {
    var whole, rest := s + "|" + t, PipeFrom(s[1..], Plain, "") + Pipeline(t);
    assert whole[1..] == s[1..] + "|" + t && whole[1] == s[1];
    assert PipeFrom(s, Plain, cur) + Pipeline(t) == [cur] + rest;
    assert PipeFrom(whole, Plain, cur)[1..] == PipeFrom(whole[1..], Plain, "") && ([cur] + rest)[1..] == rest;
  }

  /** Appending `|t` appends exactly the segments of `t`, if and only if `s` ends cleanly. */
  lemma {:induction false} PipelineOfTail(s: string, q: Quoting, cur: string, t: string)
    requires t != "" ==> t[0] != '|'
    ensures PipeFrom(s + "|" + t, q, cur) == PipeFrom(s, q, cur) + Pipeline(t) <==> EndsClean(s, q)
    decreases s
  {
    var whole := s + "|" + t;
    var parts := PipeFrom(s, q, cur) + Pipeline(t);
    PipelineShape(s, q, cur);
    if s == "" {
      assert whole == "|" + t && whole[1..] == t;
      if !q.Plain? {
        PipelineShape(t, Step(q, '|'), cur + "|");
        assert parts[0] == cur;
      }
    } else if q.Plain? && s[0] == '|' {
      if |s| > 1 && s[1] == '|' {
        assert whole[2..] == s[2..] + "|" + t;
        PipelineOfTail(s[2..], Plain, cur + "||", t);
      } else if |s| == 1 {
        assert whole == "||" + t && whole[2..] == t;
        PipelineShape(t, Plain, cur + "||");
        assert parts[0] == cur;
      } else {
        PipelineOfTail(s[1..], Plain, "", t);
        TailAfterPipe(s, cur, t);
      }
    } else {
      assert whole[0] == s[0] && whole[1..] == s[1..] + "|" + t;
      PipelineOfTail(s[1..], Step(q, s[0]), cur + [s[0]], t);
    }
  }

  // ---------------------------------------------------------------- _split_top, statements

  /** A here-document delimiter found on a line: whether it was written `<<-`, and its word. */
  datatype Delimiter = Delimiter(dash: bool, word: string)

  /** The parse left the supported subset of the shell (`_UncertainShellParse`). */
  datatype Uncertain = UncertainShellParse

  /** Segments with the operators dropped between them. */
  datatype Split = Split(segments: seq<string>, operators: seq<string>)

  /** Segments with the dropped operators put back. */
  function Weave(split: Split): string
    requires |split.segments| == |split.operators| + 1
    decreases |split.operators|
  {
    if split.operators == [] then split.segments[0]
    else split.segments[0] + split.operators[0] + Weave(Split(split.segments[1..], split.operators[1..]))
  }

  predicate At(c: string, i: int, ch: char) { 0 <= i < |c| && c[i] == ch }

  /** The first newline at or after `from`, or the length of `c`. */
  function NewlineFrom(c: string, from: nat): (at: nat)
    requires from <= |c|
    ensures from <= at <= |c|
    ensures at < |c| ==> c[at] == '\n'
    ensures forall k :: from <= k < at ==> c[k] != '\n'
    decreases |c| - from
  {
    if from == |c| || c[from] == '\n' then from else NewlineFrom(c, from + 1)
  }

  function StripTabs(line: string): string {
    if line != "" && line[0] == '\t' then StripTabs(line[1..]) else line
  }

  predicate Terminates(line: string, d: Delimiter) { (if d.dash then StripTabs(line) else line) == d.word }

  lemma {:induction false} StripTabsIs(line: string)
    ensures var n := |line| - |StripTabs(line)|;
            && 0 <= n && StripTabs(line) == line[n..] && (forall k :: 0 <= k < n ==> line[k] == '\t')
            && (n < |line| ==> line[n] != '\t')
    decreases line
  {
    if line != "" && line[0] == '\t' {
      StripTabsIs(line[1..]);
    }
  }

  /** A terminator is the word as it is, or for the dash form the word behind the tabs that begin the line. */
  lemma TerminatorIsExact(line: string, d: Delimiter)
    ensures !d.dash ==> (Terminates(line, d) <==> line == d.word)
    ensures d.dash ==>
              (Terminates(line, d)
               <==> (d.word == "" || d.word[0] != '\t')
                    && exists n :: 0 <= n <= |line| && line[n..] == d.word
                                && forall k :: 0 <= k < n ==> line[k] == '\t')
  {
    StripTabsIs(line);
    var n := |line| - |StripTabs(line)|;
    if m :| 0 <= m <= |line| && line[m..] == d.word && forall k :: 0 <= k < m ==> line[k] == '\t' {
      if d.word == "" || d.word[0] != '\t' {
        assert m < |line| ==> line[m] != '\t';
        assert m == n;
      }
    }
  }

  /** Where the body of the here-document `d` ends, from the newline at `j`: at the newline after its
      terminator or at the end of the command, and whether the terminator was met. */
  function BodyEnd(c: string, j: nat, d: Delimiter): (r: (nat, bool))
    requires j < |c|
    ensures j < r.0 <= |c| && (r.1 || r.0 == |c|)
    decreases |c| - j
  {
    var lineEnd := NewlineFrom(c, j + 1);
    var matched := Terminates(c[j + 1..lineEnd], d);
    if lineEnd == |c| || matched then (lineEnd, matched) else BodyEnd(c, lineEnd, d)
  }

  /** Where the bodies of `ds` end; a body that reaches the end of the command is the last one read. */
  function BodiesEnd(c: string, j: nat, ds: seq<Delimiter>): (r: (nat, bool))
    requires j < |c|
    ensures j <= r.0 <= |c| && (ds != [] ==> j < r.0) && (r.1 || r.0 == |c|)
    decreases |ds|
  {
    if ds == [] then (j, true)
    else
      var (end, terminated) := BodyEnd(c, j, ds[0]);
      if end == |c| then (end, terminated) else BodiesEnd(c, end, ds[1..])
  }

  /** A statement or pipe operator stands unquoted on the line that opens a here-document. */
  predicate OperatorOnLine(line: string) {
    exists k :: 0 <= k < |line| && (line[k] == '&' || line[k] == ';' || line[k] == '|') && Run(Plain, line[..k]).Plain?
  }

  function Cut(cur: string, operator: string, rest: Result<Split, Uncertain>): Result<Split, Uncertain> {
    if rest.Err? then rest else Ok(Split([cur] + rest.value.segments, [operator] + rest.value.operators))
  }

  /** Code would run inside the word at `i`: a backquote or `$(`. */
  predicate Substitution(c: string, i: int) { At(c, i, '`') || (At(c, i, '$') && At(c, i + 1, '(')) }

  /** One stop of the statement scan: it refuses, or it moves on with new quoting, past an operator
      that ends the segment or past text ("") that belongs to it. */
  datatype Stop = Refuse | Move(next: nat, quote: Quote, operator: string)

  function StopAt(c: string, i: nat, quote: Quote, delimiters: string -> seq<Delimiter>): (stop: Stop)
    requires i < |c|
    ensures stop.Move? ==> i < stop.next <= |c|
    ensures stop.Move? && stop.operator != "" ==> IsOperator(stop.operator) && c[i..stop.next] == stop.operator
  {
    var ch := c[i];
    if quote != NoQuote then
      if quote == DoubleQuote && Substitution(c, i) then Refuse
      else if Closes(quote, ch) then Move(i + 1, NoQuote, "")
      else if ch == '\\' && quote == DoubleQuote && i + 1 < |c| then Move(i + 2, quote, "")
      else Move(i + 1, quote, "")
    else if ch == '\\' && i + 1 < |c| then Move(i + 2, quote, "")
    else if Substitution(c, i) then Refuse
    else if ch == '$' && (At(c, i + 1, '\'') || At(c, i + 1, '"')) then Refuse
    else if ch == '\'' || ch == '"' then Move(i + 1, Opened(ch), "")
    else if ch == '|' && At(c, i + 1, '|') then Move(i + 2, quote, "||")
    else if ch == '&' && At(c, i + 1, '&') then Move(i + 2, quote, "&&")
    else if ch == '&' && !(At(c, i - 1, '>') || At(c, i - 1, '<') || At(c, i + 1, '>')) then Refuse
    else if ch == ';' || ch == '\n' then Move(i + 1, quote, [ch])
    else if (ch == '<' || ch == '>') && At(c, i + 1, '(') then Refuse
    else if ch == '<' && At(c, i + 1, '<') && At(c, i + 2, '<') then Move(i + 3, quote, "")
    else if ch == '<' && At(c, i + 1, '<') then
      var nl := NewlineFrom(c, i);
      var ds := delimiters(c[i..nl]);
      if OperatorOnLine(c[i..nl]) || ds == [] || nl == |c| then Refuse
      else
        var (j, terminated) := BodiesEnd(c, nl, ds);
        if j == |c| && !terminated then Refuse else Move(j, quote, "")
    else Move(i + 1, quote, "")
  }

  /** The statements of `c` from position `i` on, `quote` being open and `cur` being the segment under
      way.  `delimiters` reads the here-document words of a line. */
  function StatementsFrom(c: string, i: nat, quote: Quote, cur: string, delimiters: string -> seq<Delimiter>)
    : Result<Split, Uncertain>
    requires i <= |c|
    decreases |c| - i
  {
    if i == |c| then
      if quote != NoQuote then Err(UncertainShellParse) else Ok(Split([cur], []))
    else
      match StopAt(c, i, quote, delimiters)
      case Refuse => Err(UncertainShellParse)
      case Move(j, quote', operator) =>
        if operator == "" then StatementsFrom(c, j, quote', cur + c[i..j], delimiters)
        else Cut(cur, operator, StatementsFrom(c, j, quote', "", delimiters))
  }

  /** `_split_top(command, statements=True)`. */
  function Statements(command: string, delimiters: string -> seq<Delimiter>): Result<Split, Uncertain> {
    StatementsFrom(command, 0, NoQuote, "", delimiters)
  }

  predicate Closes(quote: Quote, ch: char) {
    (quote == SingleQuote && ch == '\'') || (quote == DoubleQuote && ch == '"')
  }

  function Opened(ch: char): Quote { if ch == '\'' then SingleQuote else DoubleQuote }

  predicate IsOperator(operator: string) { operator in {"&&", "||", ";", "\n"} }

  predicate Lossless(r: Result<Split, Uncertain>, text: string) {
    r.Ok? ==> |r.value.segments| == |r.value.operators| + 1
              && (forall k :: 0 <= k < |r.value.operators| ==> IsOperator(r.value.operators[k]))
              && Weave(r.value) == text
  }

  lemma CutLossless(cur: string, operator: string, rest: Result<Split, Uncertain>, text: string)
    requires IsOperator(operator) && Lossless(rest, text)
    ensures Lossless(Cut(cur, operator, rest), cur + operator + text)
  {
    if rest.Ok? {
      var r := Cut(cur, operator, rest).value;
      assert r.segments[1..] == rest.value.segments && r.operators[1..] == rest.value.operators;
    }
  }

  /** A statement split that is not refused loses nothing: putting the dropped operators back gives the
      command, here-document bodies and here-strings included. */
  lemma {:induction false} StatementsLossless(c: string, i: nat, quote: Quote, cur: string,
                                              delimiters: string -> seq<Delimiter>)
    requires i <= |c|
    ensures Lossless(StatementsFrom(c, i, quote, cur, delimiters), cur + c[i..])
    decreases |c| - i
  {
    if i == |c| {
      assert c[i..] == "" && cur + "" == cur;
    } else {
      match StopAt(c, i, quote, delimiters)
      case Refuse =>
      case Move(j, quote', operator) =>
        assert c[i..] == c[i..j] + c[j..];
        if operator == "" {
          StatementsLossless(c, j, quote', cur + c[i..j], delimiters);
          assert cur + c[i..j] + c[j..] == cur + c[i..];
        } else {
          StatementsLossless(c, j, quote', "", delimiters);
          assert "" + c[j..] == c[j..];
          CutLossless(cur, operator, StatementsFrom(c, j, quote', "", delimiters), c[j..]);
          assert cur + operator + c[j..] == cur + c[i..];
        }
    }
  }

  /** A here-document (and not a here-string) starts at `i`. */
  predicate HereDocumentAt(c: string, i: int) { At(c, i, '<') && At(c, i + 1, '<') && !At(c, i + 2, '<') }

  lemma RunTwo(q: Quoting, a: char, b: char)
    ensures Run(q, [a]) == Step(q, a) && Run(q, [a, b]) == Step(Step(q, a), b)
  {
    assert [a, b][1..] == [b] && [a][1..] == "" && [b][1..] == "";
    assert Run(q, [a, b]) == Run(Step(q, a), [b]) && Run(Step(q, a), [b]) == Run(Step(Step(q, a), b), "");
    assert Run(q, [a]) == Run(Step(q, a), "");
  }

  /** Outside here-documents every stop of the statement scan carries the automaton's state too (a lone backslash that
      ends the command is the one place where the automaton still waits for a character). */
  lemma StopFollowsTheAutomaton(c: string, i: nat, quote: Quote, delimiters: string -> seq<Delimiter>)
    requires i < |c| && StopAt(c, i, quote, delimiters).Move?
    requires quote != NoQuote || !HereDocumentAt(c, i)
    requires !(At(c, i, '\\') && i + 1 == |c|)
    ensures var stop := StopAt(c, i, quote, delimiters);
            Run(Resting(quote), c[i..stop.next]) == Resting(stop.quote)
  {
    var next := StopAt(c, i, quote, delimiters).next;
    var q := Resting(quote);
    assert c[i..i + 1] == [c[i]];
    RunTwo(q, c[i], if i + 1 < |c| then c[i + 1] else c[i]);
    if next == i + 2 {
      assert c[i..i + 2] == [c[i], c[i + 1]];
    }
    if next == i + 3 {
      assert c[i..i + 3] == ['<', '<'] + ['<'];
      RunConcat(q, ['<', '<'], ['<']);
      RunTwo(q, '<', '<');
    }
  }

  /** No stop of the scan from `i` on meets a here-document. */
  predicate NoHereDocuments(c: string, i: nat, quote: Quote, delimiters: string -> seq<Delimiter>)
    requires i <= |c|
    decreases |c| - i
  {
    i == |c| ||
    ((quote != NoQuote || !HereDocumentAt(c, i))
     && match StopAt(c, i, quote, delimiters)
        case Refuse => true
        case Move(j, quote', _) => NoHereDocuments(c, j, quote', delimiters))
  }

  /** Some stop of the scan from `i` on refuses: a substitution, an ANSI-C or locale quote, a background command, or a
      here-document the scan is not sure of. */
  predicate StopRefuses(c: string, i: nat, quote: Quote, delimiters: string -> seq<Delimiter>)
    requires i <= |c|
    decreases |c| - i
  {
    i < |c|
    && match StopAt(c, i, quote, delimiters)
       case Refuse => true
       case Move(j, quote', _) => StopRefuses(c, j, quote', delimiters)
  }

  /** Over a whole run without here-documents the scan refuses exactly when one of its stops does or the automaton ends
      in an open quotation. */
  lemma {:induction false} RefusalFollowsTheAutomaton(c: string, i: nat, quote: Quote, cur: string,
                                                      delimiters: string -> seq<Delimiter>)
    requires i <= |c| && NoHereDocuments(c, i, quote, delimiters)
    ensures StatementsFrom(c, i, quote, cur, delimiters).Err?
            <==> StopRefuses(c, i, quote, delimiters) || QuoteOf(Run(Resting(quote), c[i..])) != NoQuote
    decreases |c| - i
  {
    if i == |c| {
      assert c[i..] == "";
    } else if StopAt(c, i, quote, delimiters).Move? {
      var stop := StopAt(c, i, quote, delimiters);
      var next := if stop.operator == "" then cur + c[i..stop.next] else "";
      RefusalFollowsTheAutomaton(c, stop.next, stop.quote, next, delimiters);
      if At(c, i, '\\') && i + 1 == |c| {
        assert c[i..] == ['\\'] && c[i + 1..] == "";
        RunTwo(Resting(quote), '\\', '\\');
      } else {
        StopFollowsTheAutomaton(c, i, quote, delimiters);
        assert c[i..] == c[i..stop.next] + c[stop.next..];
        RunConcat(Resting(quote), c[i..stop.next], c[stop.next..]);
      }
    }
  }

  /** A command without here-documents in which no stop refuses is refused exactly for a quote that stays open. */
  lemma RefusedForAnOpenQuote(command: string, delimiters: string -> seq<Delimiter>)
    requires NoHereDocuments(command, 0, NoQuote, delimiters) && !StopRefuses(command, 0, NoQuote, delimiters)
    ensures Statements(command, delimiters).Err? <==> QuoteOf(Run(Plain, command)) != NoQuote
  {
    RefusalFollowsTheAutomaton(command, 0, NoQuote, "", delimiters);
    assert command[0..] == command;
  }

  // ---------------------------------------------------------------- where here-document bodies end

  /** `at` are the newlines from `j` on, up to the line behind the last of them; no line between them is the
      terminator. */
  ghost predicate BodyLines(c: string, j: nat, at: seq<nat>, d: Delimiter) {
    && at != [] && at[0] == j && (forall k :: 0 <= k < |at| ==> at[k] < |c|)
    && forall k :: 1 <= k < |at| ==> LineGoesOn(c, at[k - 1], at[k], d)
  }

  predicate LineGoesOn(c: string, from: nat, to: nat, d: Delimiter) {
    from < to < |c| && to == NewlineFrom(c, from + 1) && !Terminates(c[from + 1..to], d)
  }

  /** A body ends with its first line that is its terminator, or with the command. */
  lemma {:induction false} BodyEndIsExact(c: string, j: nat, d: Delimiter) returns (at: seq<nat>)
    requires j < |c|
    ensures BodyLines(c, j, at, d)
    ensures LastLine(c, at[|at| - 1], BodyEnd(c, j, d), d)
    decreases |c| - j
  {
    at := [j];
    if GoesOn(c, j, d) {
      var rest := BodyEndIsExact(c, NewlineFrom(c, j + 1), d);
      OneLineBefore(c, j, rest, d);
      at := [j] + rest;
    }
  }

  predicate GoesOn(c: string, j: nat, d: Delimiter)
    requires j < |c|
    ensures GoesOn(c, j, d) ==> LineGoesOn(c, j, NewlineFrom(c, j + 1), d)
    ensures GoesOn(c, j, d) ==> BodyEnd(c, j, d) == BodyEnd(c, NewlineFrom(c, j + 1), d)
    ensures !GoesOn(c, j, d) ==> LastLine(c, j, BodyEnd(c, j, d), d)
  {
    NewlineFrom(c, j + 1) < |c| && !Terminates(c[j + 1..NewlineFrom(c, j + 1)], d)
  }

  /** The body ends with the line behind the newline at `last`, which is the terminator or ends the command. */
  predicate LastLine(c: string, last: nat, r: (nat, bool), d: Delimiter) {
    && last < |c| && r.0 == NewlineFrom(c, last + 1) && (r.1 <==> Terminates(c[last + 1..r.0], d))
    && (r.1 || r.0 == |c|)
  }

  lemma OneLineBefore(c: string, j: nat, rest: seq<nat>, d: Delimiter)
    requires rest != [] && BodyLines(c, rest[0], rest, d) && LineGoesOn(c, j, rest[0], d)
    ensures BodyLines(c, j, [j] + rest, d)
  {
    var at := [j] + rest;
    forall k | 1 <= k < |at|
      ensures LineGoesOn(c, at[k - 1], at[k], d)
    {
      if k > 1 {
        assert LineGoesOn(c, rest[k - 2], rest[k - 1], d);
      }
    }
  }

  // ---------------------------------------------------------------- where statements are cut

  /** A statement operator starts at `k` in plain text. */
  predicate OperatorAt(text: string, k: nat)
    requires k < |text|
  {
    && Run(Plain, text[..k]) == Plain
    && (text[k] == ';' || text[k] == '\n'
        || (k + 1 < |text| && text[k] == text[k + 1] && (text[k] == '&' || text[k] == '|')))
  }

  /** No statement operator starts before `n`. */
  predicate Uncut(text: string, n: nat)
    requires n <= |text|
  {
    forall k :: 0 <= k < n ==> !OperatorAt(text, k)
  }

  /** Every operator stands in plain text, at the first place where one starts after the operator before it; none is
      left in a segment; and the command does not end in an open quotation. */
  ghost predicate WellCut(split: Split)
    decreases |split.operators|
  {
    && |split.segments| == |split.operators| + 1
    && if split.operators == [] then
         Uncut(split.segments[0], |split.segments[0]|) && QuoteOf(Run(Plain, split.segments[0])) == NoQuote
       else
         && IsOperator(split.operators[0]) && Run(Plain, split.segments[0]) == Plain
         && Uncut(split.segments[0] + split.operators[0], |split.segments[0]|)
         && WellCut(Split(split.segments[1..], split.operators[1..]))
  }

  /** How many `ch` stand in plain text right before `k`. */
  function Streak(c: string, k: nat, ch: char): nat
    requires k <= |c|
  {
    if k > 0 && c[k - 1] == ch && Run(Plain, c[..k - 1]) == Plain then Streak(c, k - 1, ch) + 1 else 0
  }

  /** A here-document opens at `k`: two `<` in plain text, after whole here-string operators `<<<` if any. */
  predicate Opens(c: string, k: nat)
    requires k < |c|
  {
    Run(Plain, c[..k]) == Plain && Streak(c, k, '<') % 3 == 0 && HereDocumentAt(c, k)
  }

  predicate WithoutHereDocuments(c: string) { forall k :: 0 <= k < |c| ==> !Opens(c, k) }

  /** What the scan does not take at `k`: a substitution in plain text or in double quotes, and in plain text an ANSI-C
      or locale quote, a process substitution, or an `&` that is neither half of `&&` nor part of a redirect. */
  predicate Danger(c: string, k: nat)
    requires k < |c|
  {
    var q := Run(Plain, c[..k]);
    || ((q == Plain || q == Double) && Substitution(c, k))
    || (q == Plain && c[k] == '$' && (At(c, k + 1, '\'') || At(c, k + 1, '"')))
    || (q == Plain && c[k] == '>' && At(c, k + 1, '('))
    || (q == Plain && c[k] == '<' && At(c, k + 1, '(') && Streak(c, k, '<') % 3 == 0)
    || (q == Plain && c[k] == '&' && !At(c, k + 1, '&') && Streak(c, k, '&') % 2 == 0
        && !(At(c, k - 1, '>') || At(c, k - 1, '<') || At(c, k + 1, '>')))
  }

  predicate DangerAhead(c: string, i: nat) { exists k :: i <= k < |c| && Danger(c, k) }

  lemma NoDangerHere(c: string, i: nat, j: nat)
    requires i <= j <= |c| && forall k :: i <= k < j ==> !Danger(c, k)
    ensures DangerAhead(c, i) <==> DangerAhead(c, j)
  {
  }

  /** The scan stands at `i` between two whole tokens, its `quote` being the automaton's. */
  predicate Aligned(c: string, i: nat, quote: Quote)
    requires i <= |c|
  {
    && (Run(Plain, c[..i]) == Resting(quote)
        || (i == |c| && i > 0 && c[i - 1] == '\\' && QuoteOf(Run(Plain, c)) == quote))
    && (At(c, i, '<') && quote == NoQuote ==> Streak(c, i, '<') % 3 == 0)
    && (At(c, i, '&') && quote == NoQuote ==> Streak(c, i, '&') % 2 == 0)
  }

  /** A stop refuses exactly where there is danger; otherwise the scan stays aligned, and what it passes over holds
      no danger. */
  lemma StopIsExact(c: string, i: nat, quote: Quote, delimiters: string -> seq<Delimiter>)
    requires i < |c| && Aligned(c, i, quote) && !Opens(c, i)
    ensures quote != NoQuote || !HereDocumentAt(c, i)
    ensures match StopAt(c, i, quote, delimiters)
            case Refuse => Danger(c, i)
            case Move(j, quote', _) => Aligned(c, j, quote') && forall k :: i <= k < j ==> !Danger(c, k)
  {
    if quote != NoQuote {
      QuotedStopIsExact(c, i, quote, delimiters);
    } else {
      match StopAt(c, i, quote, delimiters)
      case Refuse => PlainRefusal(c, i, delimiters);
      case Move(j, quote', _) =>
        if j == i + 1 {
          PlainSingle(c, i, delimiters);
        } else if c[i] == '\\' {
          PlainEscaped(c, i, delimiters);
        } else if c[i] == '<' {
          PlainHereString(c, i);
        } else {
          PlainDouble(c, i);
        }
    }
  }

  lemma PlainRefusal(c: string, i: nat, delimiters: string -> seq<Delimiter>)
    requires i < |c| && Aligned(c, i, NoQuote) && !HereDocumentAt(c, i) && StopAt(c, i, NoQuote, delimiters).Refuse?
    ensures Danger(c, i)
  {
  }

  lemma PlainSingle(c: string, i: nat, delimiters: string -> seq<Delimiter>)
    requires i < |c| && Aligned(c, i, NoQuote) && !HereDocumentAt(c, i)
    requires StopAt(c, i, NoQuote, delimiters).Move? && StopAt(c, i, NoQuote, delimiters).next == i + 1
    ensures Aligned(c, i + 1, StopAt(c, i, NoQuote, delimiters).quote) && !Danger(c, i)
  {
    RunOne(Plain, c, i);
    assert c[..|c|] == c;
    assert At(c, i + 1, c[i]) ==> c[i] != '<' && c[i] != '&';
  }

  lemma PlainEscaped(c: string, i: nat, delimiters: string -> seq<Delimiter>)
    requires i + 1 < |c| && Aligned(c, i, NoQuote) && c[i] == '\\'
    ensures Aligned(c, i + 2, NoQuote) && !Danger(c, i) && !Danger(c, i + 1)
  {
    RunOne(Plain, c, i);
    RunOne(Plain, c, i + 1);
  }

  /** A doubled operator. */
  lemma PlainDouble(c: string, i: nat)
    requires i + 1 < |c| && Aligned(c, i, NoQuote) && c[i] == c[i + 1] && (c[i] == '&' || c[i] == '|')
    ensures Aligned(c, i + 2, NoQuote) && !Danger(c, i) && !Danger(c, i + 1)
  {
    RunOne(Plain, c, i);
    RunOne(Plain, c, i + 1);
    StreakOfTwo(c, i, c[i]);
  }

  /** A here-string operator. */
  lemma PlainHereString(c: string, i: nat)
    requires i + 2 < |c| && Aligned(c, i, NoQuote) && c[i] == c[i + 1] == c[i + 2] == '<'
    ensures Aligned(c, i + 3, NoQuote) && !Danger(c, i) && !Danger(c, i + 1) && !Danger(c, i + 2)
  {
    RunOne(Plain, c, i);
    RunOne(Plain, c, i + 1);
    RunOne(Plain, c, i + 2);
    StreakOfTwo(c, i, '<');
    assert Streak(c, i + 3, '<') == Streak(c, i + 2, '<') + 1;
  }

  lemma QuotedStopIsExact(c: string, i: nat, quote: Quote, delimiters: string -> seq<Delimiter>)
    requires i < |c| && Aligned(c, i, quote) && quote != NoQuote
    ensures match StopAt(c, i, quote, delimiters)
            case Refuse => Danger(c, i)
            case Move(j, quote', _) => Aligned(c, j, quote') && forall k :: i <= k < j ==> !Danger(c, k)
  {
    RunOne(Plain, c, i);
    assert c[..|c|] == c;
    if i + 1 < |c| {
      RunOne(Plain, c, i + 1);
    }
  }

  lemma StreakOfTwo(c: string, i: nat, ch: char)
    requires i + 1 < |c| && c[i] == c[i + 1] == ch && Run(Plain, c[..i]) == Plain == Run(Plain, c[..i + 1])
    ensures Streak(c, i + 1, ch) == Streak(c, i, ch) + 1 && Streak(c, i + 2, ch) == Streak(c, i, ch) + 2
  {
  }

  /** The scan from an aligned place on refuses exactly when there is danger ahead or an open quotation at the end. */
  lemma {:induction false} RefusalFrom(c: string, i: nat, quote: Quote, cur: string,
                                       delimiters: string -> seq<Delimiter>)
    requires i <= |c| && Aligned(c, i, quote) && WithoutHereDocuments(c)
    ensures NoHereDocuments(c, i, quote, delimiters)
    ensures StatementsFrom(c, i, quote, cur, delimiters).Err?
            <==> QuoteOf(Run(Plain, c)) != NoQuote || DangerAhead(c, i)
    decreases |c| - i
  {
    assert c[..|c|] == c;
    if i < |c| {
      StopIsExact(c, i, quote, delimiters);
      var stop := StopAt(c, i, quote, delimiters);
      if stop.Move? {
        var next := if stop.operator == "" then cur + c[i..stop.next] else "";
        RefusalFrom(c, stop.next, stop.quote, next, delimiters);
        NoDangerHere(c, i, stop.next);
      }
    }
  }

  /** A command without here-documents is refused exactly when it ends in an open quotation or holds, in plain text or
      in double quotes, something that may run code unseen. */
  lemma RefusalIsExact(command: string, delimiters: string -> seq<Delimiter>)
    requires WithoutHereDocuments(command)
    ensures Statements(command, delimiters).Err?
            <==> QuoteOf(Run(Plain, command)) != NoQuote || DangerAhead(command, 0)
  {
    assert command[..0] == "";
    RefusalFrom(command, 0, NoQuote, "", delimiters);
  }

  /** The text from `b` on, whose first `i - b` characters are the segment under way, holds no operator before `i`. */
  ghost predicate Cutting(c: string, b: nat, i: nat, quote: Quote)
    requires b <= i <= |c|
  {
    && Uncut(c[b..], i - b)
    && (Run(Plain, c[b..][..i - b]) == Resting(quote)
        || (i == |c| && QuoteOf(Run(Plain, c[b..])) == quote))
  }

  /** One stop of a scan that cuts well so far. */
  lemma StopCuts(c: string, b: nat, i: nat, quote: Quote, delimiters: string -> seq<Delimiter>)
    requires b <= i < |c| && Cutting(c, b, i, quote) && (quote != NoQuote || !HereDocumentAt(c, i))
    requires StopAt(c, i, quote, delimiters).Move?
    ensures var stop := StopAt(c, i, quote, delimiters);
            if stop.operator == "" then Cutting(c, b, stop.next, stop.quote)
            else quote == stop.quote == NoQuote && Run(Plain, c[b..i]) == Plain
                 && Uncut(c[b..i] + stop.operator, i - b)
  {
    var stop := StopAt(c, i, quote, delimiters);
    if stop.operator != "" {
      CutHere(c, b, i, stop.operator);
    } else if stop.next == i + 1 {
      PassOne(c, b, i, quote, delimiters);
    } else if c[i] == '\\' {
      PassEscaped(c, b, i, quote);
    } else {
      PassHereString(c, b, i);
    }
  }

  lemma CutHere(c: string, b: nat, i: nat, operator: string)
    requires b <= i < |c| && Cutting(c, b, i, NoQuote) && operator != "" && operator <= c[i..]
    ensures Run(Plain, c[b..i]) == Plain && Uncut(c[b..i] + operator, i - b)
  {
    var t, n := c[b..], i - b;
    assert t[..n] == c[b..i] && c[b..i] + operator == t[..n + |operator|];
    UncutPrefix(t, n, n + |operator|);
  }

  lemma PassOne(c: string, b: nat, i: nat, quote: Quote, delimiters: string -> seq<Delimiter>)
    requires b <= i < |c| && Cutting(c, b, i, quote) && (quote != NoQuote || !HereDocumentAt(c, i))
    requires var stop := StopAt(c, i, quote, delimiters); stop.Move? && stop.operator == "" && stop.next == i + 1
    ensures Cutting(c, b, i + 1, StopAt(c, i, quote, delimiters).quote)
  {
    RunOne(Plain, c[b..], i - b);
    assert c[b..][..|c| - b] == c[b..];
    assert !OperatorAt(c[b..], i - b);
  }

  lemma PassEscaped(c: string, b: nat, i: nat, quote: Quote)
    requires b <= i && i + 1 < |c| && Cutting(c, b, i, quote) && quote != SingleQuote && c[i] == '\\'
    ensures Cutting(c, b, i + 2, quote)
  {
    RunOne(Plain, c[b..], i - b);
    RunOne(Plain, c[b..], i + 1 - b);
    assert !OperatorAt(c[b..], i - b) && !OperatorAt(c[b..], i + 1 - b);
  }

  lemma PassHereString(c: string, b: nat, i: nat)
    requires b <= i && i + 2 < |c| && Cutting(c, b, i, NoQuote) && c[i] == c[i + 1] == c[i + 2] == '<'
    ensures Cutting(c, b, i + 3, NoQuote)
  {
    var t, n := c[b..], i - b;
    RunOne(Plain, t, n);
    RunOne(Plain, t, n + 1);
    RunOne(Plain, t, n + 2);
    assert !OperatorAt(t, n) && !OperatorAt(t, n + 1) && !OperatorAt(t, n + 2);
  }

  lemma UncutPrefix(t: string, n: nat, m: nat)
    requires n <= m <= |t| && Uncut(t, n) && (n < m || m == |t|)
    ensures Uncut(t[..m], n)
  {
    forall k | 0 <= k < n
      ensures !OperatorAt(t[..m], k)
    {
      assert t[..m][..k] == t[..k] && !OperatorAt(t, k);
    }
  }

  lemma {:induction false} CutsFrom(c: string, b: nat, i: nat, quote: Quote, delimiters: string -> seq<Delimiter>)
    requires b <= i <= |c| && Cutting(c, b, i, quote) && NoHereDocuments(c, i, quote, delimiters)
    ensures StatementsFrom(c, i, quote, c[b..i], delimiters).Ok?
            ==> WellCut(StatementsFrom(c, i, quote, c[b..i], delimiters).value)
    decreases |c| - i
  {
    if i == |c| {
      assert c[b..][..i - b] == c[b..] == c[b..i];
    } else if StopAt(c, i, quote, delimiters).Move? {
      var stop := StopAt(c, i, quote, delimiters);
      StopCuts(c, b, i, quote, delimiters);
      if stop.operator == "" {
        assert c[b..i] + c[i..stop.next] == c[b..stop.next];
        CutsFrom(c, b, stop.next, stop.quote, delimiters);
      } else {
        assert c[stop.next..stop.next] == "" && c[stop.next..][..0] == "";
        CutsFrom(c, stop.next, stop.next, stop.quote, delimiters);
        var rest := StatementsFrom(c, stop.next, stop.quote, "", delimiters);
        if rest.Ok? {
          CutShape(c[b..i], stop.operator, rest.value);
        }
      }
    }
  }

  lemma CutShape(segment: string, operator: string, rest: Split)
    requires IsOperator(operator) && Run(Plain, segment) == Plain && Uncut(segment + operator, |segment|)
    requires WellCut(rest)
    ensures WellCut(Split([segment] + rest.segments, [operator] + rest.operators))
  {
    var split := Split([segment] + rest.segments, [operator] + rest.operators);
    assert split.segments[1..] == rest.segments && split.operators[1..] == rest.operators;
  }

  /** An accepted split of a command without here-documents cuts at every statement operator in plain text and nowhere
      else: its segments and operators woven together are the command, and it is well cut. */
  lemma CutsAreExact(command: string, delimiters: string -> seq<Delimiter>)
    requires WithoutHereDocuments(command) && Statements(command, delimiters).Ok?
    ensures WellCut(Statements(command, delimiters).value) && Weave(Statements(command, delimiters).value) == command
  {
    assert command[..0] == "" && command[0..0] == "" && command[0..] == command;
    RefusalFrom(command, 0, NoQuote, "", delimiters);
    CutsFrom(command, 0, 0, NoQuote, delimiters);
    StatementsLossless(command, 0, NoQuote, "", delimiters);
    assert "" + command[0..] == command;
  }

  lemma {:induction false} SegmentsHoldNoOperator(split: Split, m: nat, k: nat)
    requires WellCut(split) && m < |split.segments| && k < |split.segments[m]|
    ensures !OperatorAt(split.segments[m], k)
    decreases m
  {
    var first := split.segments[0];
    if m > 0 {
      SegmentsHoldNoOperator(Split(split.segments[1..], split.operators[1..]), m - 1, k);
    } else if split.operators != [] {
      var text := first + split.operators[0];
      assert text[..k] == first[..k] && !OperatorAt(text, k);
    }
  }

  /** There is only one way to cut a command well, so that `CutsAreExact` fixes the split. */
  lemma {:induction false} OneWellCut(x: Split, y: Split)
    requires WellCut(x) && WellCut(y) && Weave(x) == Weave(y)
    ensures x == y
    decreases |x.operators|
  {
    var a, text := x.segments[0], Weave(x);
    FirstCutNoEarlier(x, y);
    FirstCutNoEarlier(y, x);
    StartsWithFirst(x);
    StartsWithFirst(y);
    assert y.segments[0] == a;
    if x.operators != [] {
      var u, v := Split(x.segments[1..], x.operators[1..]), Split(y.segments[1..], y.operators[1..]);
      OperatorIsFixed(x.operators[0], y.operators[0], Weave(u), Weave(v), text[|a|..]);
      OneWellCut(u, v);
      assert x.segments == [a] + u.segments && y.segments == [a] + v.segments;
      assert x.operators == [x.operators[0]] + u.operators && y.operators == [x.operators[0]] + v.operators;
    }
  }

  /** The woven text begins with its first segment, and goes on with its first operator. */
  lemma StartsWithFirst(x: Split)
    requires WellCut(x)
    ensures var a, text := x.segments[0], Weave(x);
            && |a| <= |text| && text[..|a|] == a
            && if x.operators == [] then |text| == |a| && x.segments == [a]
               else
                 && x.operators[0] != ""
                 && text[|a|..] == x.operators[0] + Weave(Split(x.segments[1..], x.operators[1..]))
  {
  }

  lemma OperatorIsFixed(o: string, p: string, rest: string, rest': string, text: string)
    requires IsOperator(o) && IsOperator(p) && text == o + rest == p + rest'
    ensures o == p && rest == rest'
  {
    assert o[0] == text[0] == p[0];
    assert rest == text[|o|..] && rest' == text[|p|..];
  }

  /** No well-cut split of the same text cuts before the other. */
  lemma FirstCutNoEarlier(x: Split, y: Split)
    requires WellCut(x) && WellCut(y) && Weave(x) == Weave(y)
    ensures |x.segments[0]| >= |y.segments[0]|
  {
    var a, b := x.segments[0], y.segments[0];
    StartsWithFirst(x);
    StartsWithFirst(y);
    if |a| < |b| && x.operators != [] {
      var whole := if y.operators == [] then b else b + y.operators[0];
      assert Weave(x)[|a|..][0] == x.operators[0][0];
      BeginsAt(Weave(x), a, x.operators[0], whole);
    }
  }

  lemma BeginsAt(text: string, a: string, o: string, whole: string)
    requires IsOperator(o) && Run(Plain, a) == Plain && a + o <= text && whole <= text && |a| + |o| <= |whole|
    ensures OperatorAt(whole, |a|)
  {
    assert whole[..|a|] == a;
    assert forall k :: 0 <= k < |o| ==> whole[|a| + k] == text[|a| + k] == o[k];
  }

  // ---------------------------------------------------------------- the loops of _split_top

  /** The scan for an unquoted operator on the line that opens a here-document. */
  method ScanOpeningLine(line: string) returns (found: bool)
    ensures found <==> OperatorOnLine(line)
  {
    var q2 := NoQuote;
    var k := 0;
    assert line[..0] == "";
    while k < |line|
      invariant 0 <= k <= |line| + 1
      invariant k < |line| ==> Run(Plain, line[..k]) == Resting(q2)
      invariant forall m :: 0 <= m < k && m < |line| && (line[m] == '&' || line[m] == ';' || line[m] == '|')
                            ==> !Run(Plain, line[..m]).Plain?
    {
      var c2 := line[k];
      RunOne(Plain, line, k);
      if k + 1 < |line| { RunOne(Plain, line, k + 1); }
      if q2 != NoQuote {
        if Closes(q2, c2) {
          q2 := NoQuote;
        } else if c2 == '\\' && q2 == DoubleQuote {
          k := k + 1;
        }
      } else if c2 == '\\' {
        k := k + 1;
      } else if c2 == '\'' || c2 == '"' {
        q2 := Opened(c2);
      } else if c2 == '&' || c2 == ';' || c2 == '|' {
        return true;
      }
      k := k + 1;
    }
    return false;
  }

  lemma JoinSlices(c: string, i: nat, j: nat, k: nat)
    requires i <= j <= k <= |c|
    ensures c[i..j] + c[j..k] == c[i..k]
  {
  }

  /** The loop that reads one here-document body; `text` is what it appends to the segment. */
  method ReadBody(c: string, start: nat, d: Delimiter) returns (j: nat, terminated: bool, text: string)
    requires start < |c|
    ensures start < j <= |c| && text == c[start..j]
    ensures j == BodyEnd(c, start, d).0 && terminated == BodyEnd(c, start, d).1
  {
    j, text := start, "";
    while true
      invariant start <= j < |c| && text == c[start..j]
      invariant BodyEnd(c, start, d) == BodyEnd(c, j, d)
      decreases |c| - j
    {
      var lineEnd := NewlineFrom(c, j + 1);
      var matched := Terminates(c[j + 1..lineEnd], d);
      JoinSlices(c, start, j, lineEnd);
      text := text + c[j..lineEnd];
      j := lineEnd;
      if lineEnd == |c| {
        return j, matched, text;
      }
      if matched {
        return j, true, text;
      }
    }
  }

  /** The loop over the delimiters of one opening line. */
  method ReadBodies(c: string, nl: nat, ds: seq<Delimiter>) returns (j: nat, unterminated: bool, text: string)
    requires nl < |c| && ds != []
    ensures nl < j <= |c| && text == c[nl..j]
    ensures j == BodiesEnd(c, nl, ds).0 && unterminated != BodiesEnd(c, nl, ds).1
  {
    j, unterminated, text := nl, false, "";
    for d := 0 to |ds|
      invariant nl <= j < |c| && (d > 0 ==> nl < j)
      invariant !unterminated && text == c[nl..j]
      invariant BodiesEnd(c, nl, ds) == BodiesEnd(c, j, ds[d..])
    {
      var end, terminated, body := ReadBody(c, j, ds[d]);
      JoinSlices(c, nl, j, end);
      assert ds[d..][0] == ds[d] && ds[d..][1..] == ds[d + 1..];
      j, text := end, text + body;
      if j >= |c| {
        unterminated := !terminated;
        return;
      }
    }
  }

  function Pipes(n: int): seq<string> { if n <= 0 then [] else Pipes(n - 1) + ["|"] }

  /** `_split_top`, whose one loop is written here once for each value of `statements`.  Beside the segments it
      returns the operators it dropped, and in pipe mode its variable `quote`; a statement split that is not refused
      ends without an open quote. */
  method SplitTop(command: string, statements: bool, delimiters: string -> seq<Delimiter>)
    returns (segments: Result<seq<string>, Uncertain>, operators: seq<string>, quote: Quote)
    ensures !statements ==> segments == Ok(Pipeline(command)) && quote == QuoteOf(Run(Plain, command))
                            && operators == Pipes(|Pipeline(command)| - 1)
    ensures statements ==>
              match Statements(command, delimiters)
              case Err(e) => segments == Err(e)
              case Ok(split) => segments == Ok(split.segments) && operators == split.operators && quote == NoQuote
  {
    if statements {
      segments, operators, quote := SplitStatements(command, delimiters);
    } else {
      var pipes;
      pipes, quote := SplitPipes(command);
      PipelineShape(command, Plain, "");
      segments, operators := Ok(pipes), Pipes(|pipes| - 1);
    }
  }

  /** The pipe scan at position `i`: what is cut so far, and what the rest will add. */
  ghost predicate PipeScan(command: string, i: nat, quote: Quote, segments: seq<string>, cur: string)
    requires i <= |command|
  {
    && Pipeline(command) == segments + PipeFrom(command[i..], Resting(quote), cur)
    && QuoteOf(Run(Plain, command)) == QuoteOf(Run(Resting(quote), command[i..]))
  }

  function QuoteAfter(quote: Quote, ch: char): Quote {
    if quote != NoQuote then if Closes(quote, ch) then NoQuote else quote
    else if ch == '\'' || ch == '"' then Opened(ch) else NoQuote
  }

  /** One character that neither cuts nor escapes another. */
  lemma TakeOne(command: string, i: nat, quote: Quote, segments: seq<string>, cur: string)
    requires i < |command| && PipeScan(command, i, quote, segments, cur)
    requires quote != NoQuote || command[i] != '|'
    requires command[i] == '\\' && quote != SingleQuote ==> i + 1 == |command|
    ensures PipeScan(command, i + 1, QuoteAfter(quote, command[i]), segments, cur + [command[i]])
  {
    PipeOrdinary(command, i, Resting(quote), cur);
    assert i + 1 == |command| ==> command[i + 1..] == "";
  }

  /** A backslash and the character it escapes. */
  lemma TakeTwo(command: string, i: nat, quote: Quote, segments: seq<string>, cur: string)
    requires i + 1 < |command| && PipeScan(command, i, quote, segments, cur)
    requires command[i] == '\\' && quote != SingleQuote
    ensures PipeScan(command, i + 2, quote, segments, cur + command[i..i + 2])
    ensures cur + command[i..i + 2] == cur + [command[i]] + [command[i + 1]]
  {
    PipeEscaped(command, i, Resting(quote), cur);
  }

  lemma TakePipe(command: string, i: nat, segments: seq<string>, cur: string)
    requires At(command, i, '|') && PipeScan(command, i, NoQuote, segments, cur)
    ensures At(command, i + 1, '|') ==> PipeScan(command, i + 2, NoQuote, segments, cur + "||")
    ensures !At(command, i + 1, '|') ==> PipeScan(command, i + 1, NoQuote, segments + [cur], "")
  {
    PipeAt(command, i, cur);
    if !At(command, i + 1, '|') {
      var rest := PipeFrom(command[i + 1..], Plain, "");
      assert segments + ([cur] + rest) == (segments + [cur]) + rest;
    }
  }

  method SplitPipes(command: string) returns (segments: seq<string>, quote: Quote)
    ensures segments == Pipeline(command)
    ensures quote == QuoteOf(Run(Plain, command))
  {
    segments, quote := [], NoQuote;
    var cur := "";
    var i, n := 0, |command|;
    assert command[0..] == command;
    while i < n
      invariant 0 <= i <= n && PipeScan(command, i, quote, segments, cur)
    {
      var ch := command[i];
      if quote != NoQuote {
        if ch == '\\' && quote == DoubleQuote && i + 1 < n {
          TakeTwo(command, i, quote, segments, cur);
        } else {
          TakeOne(command, i, quote, segments, cur);
        }
        cur := cur + [ch];
        if Closes(quote, ch) {
          quote := NoQuote;
        } else if ch == '\\' && quote == DoubleQuote && i + 1 < n {
          cur := cur + [command[i + 1]];
          i := i + 1;
        }
      } else if ch == '\\' && i + 1 < n {
        TakeTwo(command, i, quote, segments, cur);
        cur := cur + command[i..i + 2];
        i := i + 2;
        continue;
      } else if ch == '\'' || ch == '"' {
        TakeOne(command, i, quote, segments, cur);
        quote := Opened(ch);
        cur := cur + [ch];
      } else if ch == '|' {
        TakePipe(command, i, segments, cur);
        if i + 1 < n && command[i + 1] == '|' {
          cur := cur + "||";
          i := i + 1;
        } else {
          segments, cur := segments + [cur], "";
        }
      } else {
        TakeOne(command, i, quote, segments, cur);
        cur := cur + [ch];
      }
      i := i + 1;
    }
    assert command[n..] == "";
    segments := segments + [cur];
  }

  method SplitStatements(command: string, delimiters: string -> seq<Delimiter>)
    returns (segments: Result<seq<string>, Uncertain>, operators: seq<string>, quote: Quote)
    ensures match Statements(command, delimiters)
            case Err(e) => segments == Err(e)
            case Ok(split) => segments == Ok(split.segments) && operators == split.operators && quote == NoQuote
  {
    var done: seq<string> := [];
    var cur := "";
    var i, n := 0, |command|;
    operators, quote := [], NoQuote;
    NothingDone(Statements(command, delimiters));
    while i < n
      invariant 0 <= i <= n
      invariant Statements(command, delimiters)
                == After(done, operators, StatementsFrom(command, i, quote, cur, delimiters))
    {
      var ch := command[i];
      StatementMove(done, operators, command, i, quote, cur, delimiters);
      if quote != NoQuote {
        var refused, skip;
        refused, skip, quote := QuotedCharacter(command, i, quote, delimiters);
        if refused {
          segments := Err(UncertainShellParse);
          return;
        }
        cur := cur + [ch];
        if skip {
          cur := cur + [command[i + 1]];
          i := i + 1;
        }
        i := i + 1;
      } else {
        var refused, next, operator, text;
        refused, next, quote, operator, text := PlainCharacter(command, i, delimiters);
        if refused {
          segments := Err(UncertainShellParse);
          return;
        }
        if operator == "" {
          cur := cur + text;
        } else {
          done, operators, cur := done + [cur], operators + [operator], "";
        }
        i := next;
      }
    }
    if quote != NoQuote {
      segments := Err(UncertainShellParse);
      return;
    }
    segments := Ok(done + [cur]);
  }

  /** The branch of a character inside an open quotation; `skip` says that it takes the next one along. */
  method QuotedCharacter(c: string, i: nat, quote: Quote, delimiters: string -> seq<Delimiter>)
    returns (refused: bool, skip: bool, quote': Quote)
    requires i < |c| && quote != NoQuote
    ensures skip ==> i + 1 < |c|
    ensures StopAt(c, i, quote, delimiters)
            == if refused then Refuse else Move(if skip then i + 2 else i + 1, quote', "")
  {
    refused, skip, quote' := quote == DoubleQuote && Substitution(c, i), false, quote;
    if Closes(quote, c[i]) {
      quote' := NoQuote;
    } else if c[i] == '\\' && quote == DoubleQuote && i + 1 < |c| {
      skip := true;
    }
  }

  /** The branches of a character outside quotes: where the scan goes on, the quotation it opens, and the operator it
      ends the segment with or (operator "") the text it adds to it. */
  method PlainCharacter(c: string, i: nat, delimiters: string -> seq<Delimiter>)
    returns (refused: bool, next: nat, quote: Quote, operator: string, text: string)
    requires i < |c|
    ensures StopAt(c, i, NoQuote, delimiters) == if refused then Refuse else Move(next, quote, operator)
    ensures !refused && operator == "" ==> text == c[i..next]
  {
    var ch := c[i];
    refused, next, quote, operator, text := false, i + 1, NoQuote, "", [ch];
    if ch == '\\' && i + 1 < |c| {
      next, text := i + 2, c[i..i + 2];
    } else if Substitution(c, i) || (ch == '$' && (At(c, i + 1, '\'') || At(c, i + 1, '"'))) {
      refused := true;
    } else if ch == '\'' || ch == '"' {
      quote := Opened(ch);
    } else if ch == '|' {
      if At(c, i + 1, '|') {
        next, operator := i + 2, "||";
      }
    } else if ch == '&' && At(c, i + 1, '&') {
      next, operator := i + 2, "&&";
    } else if ch == '&' && !(At(c, i - 1, '>') || At(c, i - 1, '<') || At(c, i + 1, '>')) {
      refused := true;
    } else if ch == ';' || ch == '\n' {
      operator := [ch];
    } else if (ch == '<' || ch == '>') && At(c, i + 1, '(') {
      refused := true;
    } else if ch == '<' && At(c, i + 1, '<') && At(c, i + 2, '<') {
      next, text := i + 3, "<<<";
    } else if ch == '<' && At(c, i + 1, '<') {
      refused, next, text := HereDocument(c, i, delimiters);
    }
  }

  /** The branch of a here-document: its opening line and its bodies belong to the segment. */
  method HereDocument(c: string, i: nat, delimiters: string -> seq<Delimiter>)
    returns (refused: bool, j: nat, text: string)
    requires At(c, i, '<') && At(c, i + 1, '<') && !At(c, i + 2, '<')
    requires !At(c, i + 1, '(')
    ensures StopAt(c, i, NoQuote, delimiters) == if refused then Refuse else Move(j, NoQuote, "")
    ensures !refused ==> i < j <= |c| && text == c[i..j]
  {
    var nl := NewlineFrom(c, i);
    var ds := delimiters(c[i..nl]);
    var operator := ScanOpeningLine(c[i..nl]);
    if operator || ds == [] || nl == |c| {
      return true, 0, "";
    }
    var unterminated;
    j, unterminated, text := ReadBodies(c, nl, ds);
    JoinSlices(c, i, nl, j);
    refused, text := unterminated, c[i..nl] + text;
  }

  /** One iteration in statement mode. */
  lemma StatementMove(done: seq<string>, operators: seq<string>, c: string, i: nat, quote: Quote, cur: string,
                      delimiters: string -> seq<Delimiter>)
    requires i < |c|
    ensures var stop := StopAt(c, i, quote, delimiters);
            After(done, operators, StatementsFrom(c, i, quote, cur, delimiters))
            == if stop.Refuse? then Err(UncertainShellParse)
               else if stop.operator == "" then
                 After(done, operators, StatementsFrom(c, stop.next, stop.quote, cur + c[i..stop.next], delimiters))
               else
                 After(done + [cur], operators + [stop.operator],
                       StatementsFrom(c, stop.next, stop.quote, "", delimiters))
    ensures cur + c[i..i + 1] == cur + [c[i]]
    ensures i + 1 < |c| ==> cur + c[i..i + 2] == cur + [c[i]] + [c[i + 1]]
  {
    var stop := StopAt(c, i, quote, delimiters);
    if stop.Move? && stop.operator != "" {
      PushOperator(done, operators, cur, stop.operator, StatementsFrom(c, stop.next, stop.quote, "", delimiters));
    }
  }

  /** One character in pipe mode that cuts nothing. */
  lemma PipeOrdinary(c: string, i: nat, q: Quoting, cur: string)
    requires i < |c| && !(q.Plain? && c[i] == '|')
    ensures PipeFrom(c[i..], q, cur) == PipeFrom(c[i + 1..], Step(q, c[i]), cur + [c[i]])
    ensures Run(q, c[i..]) == Run(Step(q, c[i]), c[i + 1..])
  {
    assert c[i..][1..] == c[i + 1..];
  }

  /** A backslash and the character after it. */
  lemma PipeEscaped(c: string, i: nat, q: Quoting, cur: string)
    requires i + 1 < |c| && c[i] == '\\' && (q.Plain? || q.Double?)
    ensures PipeFrom(c[i..], q, cur) == PipeFrom(c[i + 2..], q, cur + c[i..i + 2])
    ensures Run(q, c[i..]) == Run(q, c[i + 2..])
  {
    PipeOrdinary(c, i, q, cur);
    PipeOrdinary(c, i + 1, Step(q, c[i]), cur + [c[i]]);
    assert cur + [c[i]] + [c[i + 1]] == cur + c[i..i + 2];
  }

  /** A `|` in plain text, alone or doubled. */
  lemma PipeAt(c: string, i: nat, cur: string)
    requires At(c, i, '|')
    ensures At(c, i + 1, '|') ==> PipeFrom(c[i..], Plain, cur) == PipeFrom(c[i + 2..], Plain, cur + "||")
    ensures At(c, i + 1, '|') ==> Run(Plain, c[i..]) == Run(Plain, c[i + 2..])
    ensures !At(c, i + 1, '|') ==> PipeFrom(c[i..], Plain, cur) == [cur] + PipeFrom(c[i + 1..], Plain, "")
    ensures Run(Plain, c[i..]) == Run(Plain, c[i + 1..])
  {
    assert c[i..][1..] == c[i + 1..];
    if i + 1 < |c| {
      assert c[i..][2..] == c[i + 2..] && c[i + 1..][1..] == c[i + 2..];
    }
  }

  /** The split that puts finished segments and their operators before the rest. */
  function After(done: seq<string>, operators: seq<string>, rest: Result<Split, Uncertain>): Result<Split, Uncertain> {
    if rest.Err? then rest else Ok(Split(done + rest.value.segments, operators + rest.value.operators))
  }

  lemma NothingDone(rest: Result<Split, Uncertain>)
    ensures After([], [], rest) == rest
  {
    if rest.Ok? {
      assert [] + rest.value.segments == rest.value.segments && [] + rest.value.operators == rest.value.operators;
    }
  }

  lemma PushOperator(done: seq<string>, operators: seq<string>, cur: string, operator: string,
                     rest: Result<Split, Uncertain>)
    ensures After(done, operators, Cut(cur, operator, rest)) == After(done + [cur], operators + [operator], rest)
  {
    if rest.Ok? {
      assert done + ([cur] + rest.value.segments) == done + [cur] + rest.value.segments;
      assert operators + ([operator] + rest.value.operators) == operators + [operator] + rest.value.operators;
    }
  }
}
