/** The identity of a command (hooks/completion_lib.py): a run is "the same command" when only its display
    tails (`| tail -2`, `| grep FAIL`) and trailing redirects differ. */
module CommandKey {
  import opened Wrappers
  import opened ShellScan

  /** The host's text operations this model does not look into (str.lower, and the start of the leftmost
      match of the trailing-redirect pattern), and its set of display tools. */
  datatype Text = Text(lower: string -> string, redirect: Pattern, displayTokens: set<string>)

  /** A pattern that matches no empty string: a match starts before the end. */
  type Pattern = search: string -> Option<nat> | forall s :: search(s).Some? ==> search(s).value < |s|
    witness _ => None

  // ---------------------------------------------------------------- stripping

  function StripLeft(s: string): string {
    if s != "" && IsSpace(s[0]) then StripLeft(s[1..]) else s
  }

  function StripRight(s: string): string {
    if s != "" && IsSpace(s[|s| - 1]) then StripRight(s[..|s| - 1]) else s
  }

  function Strip(s: string): string { StripRight(StripLeft(s)) }

  function StripSemicolons(s: string): string {
    if s != "" && s[|s| - 1] == ';' then StripSemicolons(s[..|s| - 1]) else s
  }

  // ---------------------------------------------------------------- display segments

  predicate IsLetter(ch: char) { 'a' <= ch <= 'z' || 'A' <= ch <= 'Z' || ch == '_' }

  /** `NAME=...`, an assignment before a command. */
  predicate IsAssignment(word: string) {
    word != "" && IsLetter(word[0]) && NameThenEquals(word[1..])
  }

  predicate NameThenEquals(rest: string) {
    rest != "" && (rest[0] == '=' || ((IsLetter(rest[0]) || '0' <= rest[0] <= '9') && NameThenEquals(rest[1..])))
  }

  /** The text after the last `/`. */
  function BaseName(word: string): string {
    if word == "" then "" else if word[|word| - 1] == '/' then ""
    else BaseName(word[..|word| - 1]) + [word[|word| - 1]]
  }

  predicate IsWrapper(word: string) { word in {"env", "command", "nohup", "time"} }

  predicate TakesOperand(option: string) {
    |option| == 2 && option[0] == '-' && option[1] in {'u', 'C', 'S', 'f', 'o'}
  }

  /** The words before the command name: an operand (`skip`), an assignment, a wrapper or its option. */
  predicate IsPrefix(word: string, skip: bool) { skip || IsAssignment(word) || IsWrapper(word) || IsOption(word) }

  predicate IsOption(word: string) { word != "" && word[0] == '-' }

  /** Whether the word after `word` is an operand. */
  predicate SkipsNext(word: string, skip: bool) {
    !skip && !IsAssignment(word) && !IsWrapper(word) && TakesOperand(word)
  }

  /** The command name among `words`; `skip` says that the first word is the operand of an option. */
  function HeadOf(words: seq<string>, skip: bool, text: Text): string {
    if words == [] then ""
    else if IsPrefix(words[0], skip) then HeadOf(words[1..], SkipsNext(words[0], skip), text)
    else text.lower(BaseName(words[0]))
  }

  /** `_segment_head_token`. */
  method SegmentHeadToken(segment: string, text: Text) returns (head: string)
    ensures head == HeadOf(Words(Strip(segment)), false, text)
  {
    var words, quote := ShellWords(Strip(segment));
    head := FirstCommandWord(words, text);
  }

  method FirstCommandWord(words: seq<string>, text: Text) returns (head: string)
    ensures head == HeadOf(words, false, text)
  {
    var skipOperand := false;
    var k := 0;
    assert words[0..] == words;
    while k < |words|
      invariant 0 <= k <= |words|
      invariant HeadOf(words, false, text) == HeadOf(words[k..], skipOperand, text)
    {
      var tok := words[k];
      assert words[k..][1..] == words[k + 1..];
      k := k + 1;
      if skipOperand {
        skipOperand := false;
        continue;
      }
      if IsAssignment(tok) {
        continue;
      }
      if IsWrapper(tok) {
        continue;
      }
      if IsOption(tok) {
        skipOperand := TakesOperand(tok);
        continue;
      }
      return text.lower(BaseName(tok));
    }
    return "";
  }

  predicate NoLongOption(words: seq<string>) {
    forall k :: 0 <= k < |words| ==> !LongOption(words[k])
  }

  predicate LongOption(word: string) { "--" <= word && word != "--" }

  /** A segment that only shows what another command printed. */
  predicate IsDisplay(segment: string, text: Text) {
    var words := Words(Strip(segment));
    HeadOf(words, false, text) in text.displayTokens && NoLongOption(words)
  }

  /** `_display_segment`. */
  method DisplaySegment(segment: string, text: Text) returns (display: bool)
    ensures display <==> IsDisplay(segment, text)
  {
    var head := SegmentHeadToken(segment, text);
    if head !in text.displayTokens {
      return false;
    }
    var words, quote := ShellWords(Strip(segment));
    display := WithoutLongOption(words);
  }

  /** The loop of `_display_segment`. */
  method WithoutLongOption(words: seq<string>) returns (without: bool)
    ensures without <==> NoLongOption(words)
  {
    for k := 0 to |words|
      invariant forall m :: 0 <= m < k ==> !LongOption(words[m])
    {
      if LongOption(words[k]) {
        return false;
      }
    }
    return true;
  }

  // ---------------------------------------------------------------- what the head of a segment is

  /** Word `k` is the operand of the option before it, which is not an operand itself. */
  predicate Operand(words: seq<string>, k: nat)
    requires k < |words|
  {
    k > 0 && !Operand(words, k - 1) && words[k - 1] in {"-u", "-C", "-S", "-f", "-o"}
  }

  /** Word `k` can be the command: no operand, no assignment, no wrapper and no option. */
  predicate Commands(words: seq<string>, k: nat)
    requires k < |words|
  {
    !Operand(words, k) && !IsAssignment(words[k]) && words[k] !in {"env", "command", "nohup", "time"}
    && !("-" <= words[k])
  }

  /** A name, then `=`. */
  lemma {:induction false} AssignmentIsExact(word: string)
    ensures NameThenEquals(word) <==> exists n :: 0 <= n < |word| && word[n] == '='
                                                && forall k :: 0 <= k < n ==> IsLetter(word[k]) || '0' <= word[k] <= '9'
    decreases word
  {
    if word != "" {
      AssignmentIsExact(word[1..]);
      if NameThenEquals(word) && word[0] != '=' {
        var n :| 0 <= n < |word[1..]| && word[1..][n] == '='
                 && forall k :: 0 <= k < n ==> IsLetter(word[1..][k]) || '0' <= word[1..][k] <= '9';
        assert word[n + 1] == '=';
        assert forall k :: 0 < k < n + 1 ==> word[k] == word[1..][k - 1];
      }
      if n :| 0 <= n < |word| && word[n] == '='
              && forall k :: 0 <= k < n ==> IsLetter(word[k]) || '0' <= word[k] <= '9' {
        if n > 0 {
          assert word[1..][n - 1] == '=';
          assert forall k :: 0 <= k < n - 1 ==> word[1..][k] == word[k + 1];
        }
      }
    }
  }

  /** The base name is what follows the last slash. */
  lemma {:induction false} BaseNameIsExact(word: string)
    ensures var n := |word| - |BaseName(word)|;
            && 0 <= n && BaseName(word) == word[n..] && '/' !in BaseName(word) && (n > 0 ==> word[n - 1] == '/')
    decreases word
  {
    if word != "" && word[|word| - 1] != '/' {
      var rest := word[..|word| - 1];
      BaseNameIsExact(rest);
      assert word == rest + [word[|word| - 1]];
    }
  }

  /** The first word from `k` on that can be the command, or their number. */
  ghost predicate FirstCommand(words: seq<string>, k: nat, m: nat) {
    k <= m <= |words| && (forall l :: k <= l < m ==> !Commands(words, l)) && (m < |words| ==> Commands(words, m))
  }

  lemma {:induction false} HeadFrom(words: seq<string>, k: nat, text: Text) returns (m: nat)
    requires k <= |words|
    ensures FirstCommand(words, k, m)
    ensures HeadOf(words[k..], k < |words| && Operand(words, k), text)
            == if m < |words| then text.lower(BaseName(words[m])) else ""
    decreases |words| - k
  {
    m := k;
    if k < |words| {
      OneWord(words, k, text);
      if !Commands(words, k) {
        m := HeadFrom(words, k + 1, text);
      }
    }
  }

  lemma OneWord(words: seq<string>, k: nat, text: Text)
    requires k < |words|
    ensures HeadOf(words[k..], Operand(words, k), text)
            == if Commands(words, k) then text.lower(BaseName(words[k]))
               else HeadOf(words[k + 1..], k + 1 < |words| && Operand(words, k + 1), text)
  {
    var rest, skip := words[k..], Operand(words, k);
    assert rest[0] == words[k] && rest[1..] == words[k + 1..];
    OptionsWithOperand(words[k]);
    assert Commands(words, k) <==> !IsPrefix(words[k], skip);
    if k + 1 < |words| {
      assert SkipsNext(words[k], skip) <==> Operand(words, k + 1);
    }
  }

  lemma OptionsWithOperand(word: string)
    ensures TakesOperand(word) <==> word in {"-u", "-C", "-S", "-f", "-o"}
    ensures IsOption(word) <==> "-" <= word
    ensures TakesOperand(word) ==> !IsAssignment(word) && !IsWrapper(word)
  {
    if TakesOperand(word) {
      assert word == ['-', word[1]];
    }
  }

  /** The head of a segment is the base name of its first word that can be the command, or "" when there is none. */
  lemma HeadIsExact(words: seq<string>, text: Text) returns (m: nat)
    ensures m <= |words| && (forall l :: 0 <= l < m ==> !Commands(words, l)) && (m < |words| ==> Commands(words, m))
    ensures HeadOf(words, false, text) == if m < |words| then text.lower(BaseName(words[m])) else ""
  {
    m := HeadFrom(words, 0, text);
    assert words[0..] == words;
  }

  /** A display segment runs a display tool, and none of its words but a bare `--` starts with two dashes. */
  lemma DisplayIsExact(segment: string, text: Text) returns (m: nat)
    ensures var words := Words(Strip(segment));
            && m <= |words| && (forall l :: 0 <= l < m ==> !Commands(words, l)) && (m < |words| ==> Commands(words, m))
            && (IsDisplay(segment, text)
                <==> (if m < |words| then text.lower(BaseName(words[m])) else "") in text.displayTokens
                     && forall word :: word in words && "--" <= word ==> word == "--")
  {
    m := HeadIsExact(Words(Strip(segment)), text);
    LongOptionsAreWords(Words(Strip(segment)));
  }

  lemma LongOptionsAreWords(words: seq<string>)
    ensures NoLongOption(words) <==> forall word :: word in words && "--" <= word ==> word == "--"
  {
    if NoLongOption(words) {
      forall word | word in words && "--" <= word
        ensures word == "--"
      {
        var k :| 0 <= k < |words| && words[k] == word;
        assert !LongOption(words[k]);
      }
    } else {
      var k :| 0 <= k < |words| && LongOption(words[k]);
      assert words[k] in words;
    }
  }

  // ---------------------------------------------------------------- normalize_command_key

  /** The segments without the display segments at the end; the first segment always stays. */
  function DropTails(segments: seq<string>, display: string -> bool): seq<string> {
    if |segments| > 1 && display(segments[|segments| - 1]) then DropTails(segments[..|segments| - 1], display)
    else segments
  }

  /** `key` without the redirects at its end that stand outside quotes. */
  function DropRedirects(key: string, text: Text): string
    decreases |key|
  {
    match text.redirect(key)
    case None => key
    case Some(start) =>
      if QuoteOf(Run(Plain, key[..start])) != NoQuote then key else DropRedirects(key[..start], text)
  }

  /** What `normalize_command_key` makes of the segments of a command. */
  function KeyOf(segments: seq<string>, text: Text): string {
    TextKey(JoinPipes(DropTails(segments, s => IsDisplay(s, text))), text)
  }

  /** What it makes of the text of the segments that stay. */
  function TextKey(joined: string, text: Text): string {
    Strip(StripSemicolons(Strip(DropRedirects(Strip(joined), text))))
  }

  function NormalKey(command: string, text: Text): string {
    KeyOf(Pipeline(command), text)
  }

  method NormalizeCommandKey(command: string, text: Text) returns (key: string)
    ensures key == NormalKey(command, text)
  {
    ghost var display := s => IsDisplay(s, text);
    var segments, quote := SplitPipes(command);
    while |segments| > 1
      invariant DropTails(segments, display) == DropTails(Pipeline(command), display)
    {
      var shown := DisplaySegment(segments[|segments| - 1], text);
      if !shown {
        break;
      }
      segments := segments[..|segments| - 1];
    }
    key := Strip(JoinPipes(segments));
    while true
      invariant DropRedirects(Strip(JoinPipes(segments)), text) == DropRedirects(key, text)
      decreases |key|
    {
      var m := text.redirect(key);
      if m.None? {
        break;
      }
      var prefix := key[..m.value];
      var inside := InsideQuotes(prefix);
      if inside {
        break;
      }
      key := prefix;
    }
    key := Strip(StripSemicolons(Strip(key)));
  }

  // ---------------------------------------------------------------- what a key is

  predicate Blank(s: string) { forall k :: 0 <= k < |s| ==> IsSpace(s[k]) }

  /** No whitespace at either end. */
  predicate Solid(s: string) { s == "" || (!IsSpace(s[0]) && !IsSpace(s[|s| - 1])) }

  predicate Semicolons(s: string) { forall k :: 0 <= k < |s| ==> s[k] == ';' }

  /** `n` segments stay: at least the first, all behind them are display segments, and the last one that stays is none
      unless it is the first. */
  predicate Kept(segments: seq<string>, n: nat, display: string -> bool) {
    && 1 <= n <= |segments| && (forall k :: n <= k < |segments| ==> display(segments[k]))
    && (n > 1 ==> !display(segments[n - 1]))
  }

  /** `core` is cut at the places `at`, from its end on: each is where a redirect at the end of the text so far starts,
      outside quotes; and what is left ends in no redirect, or in one that starts inside quotes. */
  ghost predicate CutAt(core: string, at: seq<nat>, text: Text) {
    && at != [] && at[0] == |core|
    && (forall k :: 0 <= k < |at| - 1 ==>
          at[k + 1] < at[k] <= |core| && UnquotedRedirect(core[..at[k]], at[k + 1], text))
    && at[|at| - 1] <= |core|
    && var left := core[..at[|at| - 1]];
       text.redirect(left).None? || QuoteOf(Run(Plain, left[..text.redirect(left).value])) != NoQuote
  }

  predicate UnquotedRedirect(s: string, start: nat, text: Text) {
    start < |s| && text.redirect(s) == Some(start) && QuoteOf(Run(Plain, s[..start])) == NoQuote
  }

  /** What stands around a key: whitespace before it, and behind it whitespace, semicolons, and whitespace. */
  datatype Around = Around(before: string, gap: string, semicolons: string, after: string)

  /** `left` is `key` with `w` around it, which leaves no whitespace and no semicolon that could be taken too. */
  predicate Finishes(left: string, key: string, w: Around) {
    && left == w.before + (key + w.gap + w.semicolons) + w.after
    && Blank(w.before) && Blank(w.gap) && Blank(w.after) && Semicolons(w.semicolons) && Solid(key)
    && (w.semicolons == "" ==> w.gap == "")
    && (key + w.gap != "" ==> (key + w.gap)[|key + w.gap| - 1] != ';')
  }

  /** How a text reads as a key: its core within whitespace, the cuts in the core, and what is around the key in the
      text left. */
  datatype Reading = Reading(a: string, core: string, b: string, at: seq<nat>, around: Around) {
    function Left(): string
      requires at != [] && at[|at| - 1] <= |core|
    {
      core[..at[|at| - 1]]
    }
  }

  ghost predicate TextReads(joined: string, r: Reading, key: string, text: Text) {
    && joined == r.a + r.core + r.b && Blank(r.a) && Blank(r.b) && Solid(r.core)
    && CutAt(r.core, r.at, text) && Finishes(r.Left(), key, r.around)
  }

  /** A command reads as a key when the text of the first `kept` of its segments does, and those are the ones that
      stay. */
  ghost predicate ReadsAs(command: string, kept: nat, r: Reading, key: string, text: Text) {
    && Kept(Pipeline(command), kept, s => IsDisplay(s, text))
    && TextReads(JoinPipes(Pipeline(command)[..kept]), r, key, text)
  }

  lemma {:induction false} StripLeftIs(s: string) returns (a: string)
    ensures s == a + StripLeft(s) && Blank(a) && (StripLeft(s) != "" ==> !IsSpace(StripLeft(s)[0]))
    decreases s
  {
    if s != "" && IsSpace(s[0]) {
      var rest := StripLeftIs(s[1..]);
      a := [s[0]] + rest;
      assert s == [s[0]] + (rest + StripLeft(s));
    } else {
      a := "";
      assert "" + s == s;
    }
  }

  lemma {:induction false} StripRightIs(s: string) returns (b: string)
    ensures s == StripRight(s) + b && Blank(b)
    ensures StripRight(s) != "" ==> !IsSpace(StripRight(s)[|StripRight(s)| - 1])
    decreases |s|
  {
    if s != "" && IsSpace(s[|s| - 1]) {
      var rest := StripRightIs(s[..|s| - 1]);
      b := rest + [s[|s| - 1]];
      assert s == StripRight(s) + rest + [s[|s| - 1]] == StripRight(s) + b;
    } else {
      b := "";
      assert s + "" == s;
    }
  }

  /** Stripping takes the whitespace at both ends and nothing else. */
  lemma StripIs(s: string) returns (a: string, b: string)
    ensures s == a + Strip(s) + b && Blank(a) && Blank(b) && Solid(Strip(s))
  {
    a := StripLeftIs(s);
    b := StripRightIs(StripLeft(s));
    assert s == a + (Strip(s) + b) == a + Strip(s) + b;
    if Strip(s) != "" {
      assert StripLeft(s)[0] == Strip(s)[0];
    }
  }

  lemma {:induction false} StripSemicolonsIs(s: string) returns (semicolons: string)
    ensures s == StripSemicolons(s) + semicolons && Semicolons(semicolons)
    ensures StripSemicolons(s) != "" ==> StripSemicolons(s)[|StripSemicolons(s)| - 1] != ';'
    decreases |s|
  {
    if s != "" && s[|s| - 1] == ';' {
      var rest := StripSemicolonsIs(s[..|s| - 1]);
      semicolons := rest + [';'];
      assert s == StripSemicolons(s) + rest + [';'] == StripSemicolons(s) + semicolons;
    } else {
      semicolons := "";
      assert s + "" == s;
    }
  }

  lemma {:induction false} DropTailsIs(segments: seq<string>, display: string -> bool) returns (n: nat)
    requires segments != []
    ensures Kept(segments, n, display) && DropTails(segments, display) == segments[..n]
    decreases |segments|
  {
    n := |segments|;
    assert segments[..n] == segments;
    if n > 1 && display(segments[n - 1]) {
      var rest := segments[..n - 1];
      n := DropTailsIs(rest, display);
      assert rest[..n] == segments[..n];
    }
  }

  lemma {:induction false} DropRedirectsIs(core: string, text: Text) returns (at: seq<nat>)
    ensures CutAt(core, at, text) && DropRedirects(core, text) == core[..at[|at| - 1]]
    decreases |core|
  {
    assert core[..|core|] == core;
    at := [|core|];
    if text.redirect(core).Some? && QuoteOf(Run(Plain, core[..text.redirect(core).value])) == NoQuote {
      var start := text.redirect(core).value;
      var rest := DropRedirectsIs(core[..start], text);
      CutBefore(core, start, rest, text);
      at := [|core|] + rest;
      assert core[..start][..rest[|rest| - 1]] == core[..at[|at| - 1]];
    }
  }

  lemma CutBefore(core: string, start: nat, rest: seq<nat>, text: Text)
    requires UnquotedRedirect(core, start, text) && CutAt(core[..start], rest, text)
    ensures CutAt(core, [|core|] + rest, text)
  {
    var at := [|core|] + rest;
    assert core[..|core|] == core && core[..start][..rest[|rest| - 1]] == core[..at[|at| - 1]];
    forall k | 0 <= k < |at| - 1
      ensures at[k + 1] < at[k] <= |core| && UnquotedRedirect(core[..at[k]], at[k + 1], text)
    {
      if k > 0 {
        assert core[..start][..rest[k - 1]] == core[..at[k]];
        assert UnquotedRedirect(core[..start][..rest[k - 1]], rest[k], text);
      }
    }
  }

  lemma TextKeyIsRead(joined: string, text: Text) returns (r: Reading)
    ensures TextReads(joined, r, TextKey(joined, text), text)
  {
    var a, b := StripIs(joined);
    var at := DropRedirectsIs(Strip(joined), text);
    var around := KeyFinishes(Strip(joined)[..at[|at| - 1]]);
    r := Reading(a, Strip(joined), b, at, around);
  }

  /** The key of a command is one that the command reads as. */
  lemma KeyIsRead(command: string, text: Text) returns (kept: nat, r: Reading)
    ensures ReadsAs(command, kept, r, NormalKey(command, text), text)
  {
    PipelineShape(command, Plain, "");
    kept := DropTailsIs(Pipeline(command), s => IsDisplay(s, text));
    r := TextKeyIsRead(JoinPipes(Pipeline(command)[..kept]), text);
  }

  lemma KeyFinishes(left: string) returns (w: Around)
    ensures Finishes(left, Strip(StripSemicolons(Strip(left))), w)
  {
    var a, d := StripIs(left);
    var semicolons := StripSemicolonsIs(Strip(left));
    var bare := StripSemicolons(Strip(left));
    var x, b := StripIs(bare);
    var key := Strip(bare);
    Inside(bare, semicolons, x, key, b);
    assert bare == key + b && left == a + (key + b + semicolons) + d;
    w := Around(a, b, semicolons, d);
  }

  lemma Inside(bare: string, semicolons: string, x: string, key: string, b: string)
    requires Solid(bare + semicolons) && bare == x + key + b && Blank(x) && Blank(b)
    ensures x == "" && (semicolons == "" ==> b == "")
  {
    Ends(x, key + b, semicolons);
    Ends(x + key, b, semicolons);
    assert x + (key + b) + semicolons == bare + semicolons;
  }

  lemma Ends(x: string, y: string, z: string)
    ensures x != "" ==> (x + y + z)[0] == x[0]
    ensures z == "" && y != "" ==> (x + y + z)[|x + y + z| - 1] == y[|y| - 1]
  {
  }

  lemma OneTextKey(joined: string, r: Reading, key: string, text: Text)
    requires TextReads(joined, r, key, text)
    ensures key == TextKey(joined, text)
  {
    StripOf(r.a, r.core, r.b);
    CutIsDropRedirects(r.core, r.at, 0, text);
    assert r.core[..r.at[0]] == r.core;
    FinishIsStrip(r.Left(), key, r.around);
  }

  /** A command reads as one key only: its reading fixes the key. */
  lemma OnlyOneKey(command: string, kept: nat, r: Reading, key: string, text: Text)
    requires ReadsAs(command, kept, r, key, text)
    ensures key == NormalKey(command, text)
  {
    KeptIsDropTails(Pipeline(command), kept, s => IsDisplay(s, text));
    OneTextKey(JoinPipes(Pipeline(command)[..kept]), r, key, text);
  }

  lemma {:induction false} KeptIsDropTails(segments: seq<string>, n: nat, display: string -> bool)
    requires Kept(segments, n, display)
    ensures DropTails(segments, display) == segments[..n]
    decreases |segments|
  {
    if n == |segments| {
      assert segments[..n] == segments;
    } else {
      var rest := segments[..|segments| - 1];
      KeptIsDropTails(rest, n, display);
      assert rest[..n] == segments[..n];
    }
  }

  lemma {:induction false} CutIsDropRedirects(core: string, at: seq<nat>, k: nat, text: Text)
    requires CutAt(core, at, text) && k < |at|
    ensures at[k] <= |core| && DropRedirects(core[..at[k]], text) == core[..at[|at| - 1]]
    decreases |at| - k
  {
    if k < |at| - 1 {
      assert UnquotedRedirect(core[..at[k]], at[k + 1], text);
      CutIsDropRedirects(core, at, k + 1, text);
      assert core[..at[k]][..at[k + 1]] == core[..at[k + 1]];
    }
  }

  lemma {:induction false} StripLeftOf(a: string, s: string)
    requires Blank(a) && (s != "" ==> !IsSpace(s[0]))
    ensures StripLeft(a + s) == s
    decreases a
  {
    if a == "" {
      assert a + s == s;
    } else {
      assert (a + s)[1..] == a[1..] + s;
      StripLeftOf(a[1..], s);
    }
  }

  lemma {:induction false} StripRightOf(s: string, b: string)
    requires Blank(b) && (s != "" ==> !IsSpace(s[|s| - 1]))
    ensures StripRight(s + b) == s
    decreases |b|
  {
    if b == "" {
      assert s + b == s;
    } else {
      assert (s + b)[..|s + b| - 1] == s + b[..|b| - 1];
      StripRightOf(s, b[..|b| - 1]);
    }
  }

  lemma {:induction false} StripSemicolonsOf(s: string, semicolons: string)
    requires Semicolons(semicolons) && (s != "" ==> s[|s| - 1] != ';')
    ensures StripSemicolons(s + semicolons) == s
    decreases |semicolons|
  {
    if semicolons == "" {
      assert s + semicolons == s;
    } else {
      assert (s + semicolons)[..|s + semicolons| - 1] == s + semicolons[..|semicolons| - 1];
      StripSemicolonsOf(s, semicolons[..|semicolons| - 1]);
    }
  }

  lemma StripOf(a: string, s: string, b: string)
    requires Blank(a) && Blank(b) && Solid(s)
    ensures Strip(a + s + b) == s
  {
    if s == "" {
      assert Blank(a + b) && a + s + b == (a + b) + "";
      StripLeftOf(a + b, "");
    } else {
      assert a + s + b == a + (s + b) && (s + b)[0] == s[0];
      StripLeftOf(a, s + b);
      StripRightOf(s, b);
    }
  }

  lemma FinishIsStrip(left: string, key: string, w: Around)
    requires Finishes(left, key, w)
    ensures key == Strip(StripSemicolons(Strip(left)))
  {
    var a, b, semicolons, d := w.before, w.gap, w.semicolons, w.after;
    if key == "" {
      FinishOfNothing(left, a, b, semicolons, d);
    } else {
      var whole := key + b + semicolons;
      assert Solid(whole) by {
        assert whole[0] == key[0];
        Ends(key, b, semicolons);
        assert semicolons != "" ==> whole[|whole| - 1] == semicolons[|semicolons| - 1] == ';';
        assert semicolons == "" ==> whole == key;
      }
      StripOf(a, whole, d);
      StripSemicolonsOf(key + b, semicolons);
      StripOf("", key, b);
      assert "" + key + b == key + b;
    }
  }

  lemma FinishOfNothing(left: string, a: string, b: string, semicolons: string, d: string)
    requires left == a + ("" + b + semicolons) + d && Blank(a) && Blank(b) && Blank(d) && Semicolons(semicolons)
    ensures Strip(StripSemicolons(Strip(left))) == ""
  {
    assert left == (a + b) + semicolons + d && Blank(a + b);
    assert Solid(semicolons) by {
      assert !IsSpace(';');
    }
    StripOf(a + b, semicolons, d);
    StripSemicolonsOf("", semicolons);
    assert "" + semicolons == semicolons;
  }

  /** Two commands have one key exactly when they read as one: they agree up to display tails, redirects at the end
      outside quotes, and whitespace and semicolons at the ends. */
  lemma SameKeyMeansSameReading(c: string, d: string, text: Text)
    ensures NormalKey(c, text) == NormalKey(d, text)
            <==> exists m, r, n, s, key :: ReadsAs(c, m, r, key, text) && ReadsAs(d, n, s, key, text)
  {
    var m, r := KeyIsRead(c, text);
    var n, s := KeyIsRead(d, text);
    if m', x, n', y, key :| ReadsAs(c, m', x, key, text) && ReadsAs(d, n', y, key, text) {
      OnlyOneKey(c, m', x, key, text);
      OnlyOneKey(d, n', y, key, text);
    }
  }

  /** A command whose trailing redirect starts inside an open quotation keeps its text. */
  lemma QuotedRedirectStays(command: string, kept: nat, r: Reading, key: string, text: Text)
    requires ReadsAs(command, kept, r, key, text) && text.redirect(r.core).Some?
    requires QuoteOf(Run(Plain, r.core[..text.redirect(r.core).value])) != NoQuote
    ensures Finishes(r.core, key, r.around) && key == NormalKey(command, text)
  {
    OnlyOneKey(command, kept, r, key, text);
    QuotedTextStays(JoinPipes(Pipeline(command)[..kept]), r, key, text);
  }

  lemma QuotedTextStays(joined: string, r: Reading, key: string, text: Text)
    requires TextReads(joined, r, key, text) && text.redirect(r.core).Some?
    requires QuoteOf(Run(Plain, r.core[..text.redirect(r.core).value])) != NoQuote
    ensures Finishes(r.core, key, r.around)
  {
    FirstCut(r.core, r.at, text);
    assert r.Left() == r.core;
  }

  lemma FirstCut(core: string, at: seq<nat>, text: Text)
    requires CutAt(core, at, text)
    ensures |at| > 1 ==> UnquotedRedirect(core, at[1], text)
  {
    assert core[..at[0]] == core;
  }

  lemma {:induction false} JoinedInTwo(segments: seq<string>, n: nat) returns (rest: string)
    requires 1 <= n <= |segments|
    ensures JoinPipes(segments) == JoinPipes(segments[..n]) + rest
    ensures rest == if n == |segments| then "" else "|" + JoinPipes(segments[n..])
    decreases |segments|
  {
    if n == |segments| {
      rest := "";
      assert segments[..n] == segments && JoinPipes(segments) + "" == JoinPipes(segments);
    } else if n == 1 {
      rest := "|" + JoinPipes(segments[1..]);
      assert segments[..1] == [segments[0]];
      assert segments[0] + "|" + JoinPipes(segments[1..]) == segments[0] + rest;
    } else {
      rest := JoinedInTwo(segments[1..], n - 1);
      assert segments[..n][1..] == segments[1..][..n - 1] && segments[1..][n - 1..] == segments[n..];
      assert segments[0] + "|" + (JoinPipes(segments[1..][..n - 1]) + rest)
          == segments[0] + "|" + JoinPipes(segments[1..][..n - 1]) + rest;
    }
  }

  lemma KeyInLeft(left: string, key: string, w: Around) returns (z: string)
    requires Finishes(left, key, w)
    ensures left == w.before + key + z
  {
    z := w.gap + w.semicolons + w.after;
    assert w.before + (key + w.gap + w.semicolons) + w.after == w.before + key + z;
  }

  lemma Regrouped(a: string, key: string, z: string, cut: string, p: string, s: string)
    ensures p + ((a + key + z) + cut) + s == (p + a) + key + (z + cut + s)
  {
  }

  lemma CommandIsJoined(command: string, n: nat) returns (rest: string)
    requires 1 <= n <= |Pipeline(command)|
    ensures command == JoinPipes(Pipeline(command)[..n]) + rest
  {
    rest := JoinedInTwo(Pipeline(command), n);
    JoinedPipelineIsTheCommand(command);
  }

  lemma KeyStandsInTheText(joined: string, r: Reading, key: string, text: Text) returns (before: string, after: string)
    requires TextReads(joined, r, key, text)
    ensures joined == before + key + after && Blank(before)
  {
    var z := KeyInLeft(r.Left(), key, r.around);
    var cut := r.core[|r.Left()|..];
    before, after := r.a + r.around.before, z + cut + r.b;
    Regrouped(r.around.before, key, z, cut, r.a, r.b);
    assert r.core == r.Left() + cut;
  }

  /** A key stands in its command as it is, with nothing but whitespace before it. */
  lemma KeyStandsInTheCommand(command: string, kept: nat, r: Reading, key: string, text: Text)
    returns (before: string, after: string)
    requires ReadsAs(command, kept, r, key, text)
    ensures command == before + key + after && Blank(before)
  {
    var rest := CommandIsJoined(command, kept);
    before, after := KeyStandsInTheText(JoinPipes(Pipeline(command)[..kept]), r, key, text);
    Appended(before, key, after, rest);
    after := after + rest;
  }

  lemma Appended(a: string, b: string, c: string, d: string)
    ensures a + b + c + d == a + b + (c + d)
  {
  }

  lemma {:induction false} TailsDropOff(segments: seq<string>, tails: seq<string>, display: string -> bool)
    requires segments != []
    requires forall k :: 0 <= k < |tails| ==> display(tails[k])
    ensures DropTails(segments + tails, display) == DropTails(segments, display)
    decreases |tails|
  {
    if tails == [] {
      assert segments + tails == segments;
    } else {
      var n := |tails| - 1;
      assert (segments + tails)[..|segments| + n] == segments + tails[..n];
      TailsDropOff(segments, tails[..n], display);
    }
  }

  /** Display tails do not change identity. */
  lemma DisplayTailsKeepTheKey(c: string, t: string, text: Text)
    requires EndsClean(c, Plain)
    requires t != "" ==> t[0] != '|'
    requires forall k :: 0 <= k < |Pipeline(t)| ==> IsDisplay(Pipeline(t)[k], text)
    ensures NormalKey(c + "|" + t, text) == NormalKey(c, text)
  {
    PipelineOfTail(c, Plain, "", t);
    PipelineShape(c, Plain, "");
    TailsDropOff(Pipeline(c), Pipeline(t), s => IsDisplay(s, text));
  }

  /** `c|t` is `c` shown through display segments, `c` ending cleanly. */
  predicate ShownThrough(command: string, c: string, t: string, text: Text) {
    && command == c + "|" + t
    && EndsClean(c, Plain)
    && (t != "" ==> t[0] != '|')
    && forall k :: 0 <= k < |Pipeline(t)| ==> IsDisplay(Pipeline(t)[k], text)
  }
}
