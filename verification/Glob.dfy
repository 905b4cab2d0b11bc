/** The segment matcher of the regression selector (scripts/itd_regression_select.py): a memoised walk over
    pattern tokens and path segments, against what a pattern means. */
module Glob {

  /** The positions the text cuts at are "/"; empty segments and "." are dropped. */
  function Split(text: string, cur: string): seq<string> {
    if text == "" then [cur]
    else if text[0] == '/' then [cur] + Split(text[1..], "")
    else Split(text[1..], cur + [text[0]])
  }

  function NonTrivial(parts: seq<string>): seq<string> {
    if parts == [] then []
    else if parts[0] == "" || parts[0] == "." then NonTrivial(parts[1..])
    else [parts[0]] + NonTrivial(parts[1..])
  }

  function Parts(text: string): seq<string> { NonTrivial(Split(text, "")) }

  /** Whether one segment matches one token (fnmatch). */
  type Fnmatch = (string, string) -> bool

  const ANY := "**"

  /** The segments from `from` to `to` are a block for `token`: `**` takes any number of whole segments, every
      other token exactly one segment, which it matches. */
  predicate Block(path: seq<string>, token: string, from: nat, to: nat, fn: Fnmatch) {
    from <= to <= |path| && (token != ANY ==> to == from + 1 && fn(path[from], token))
  }

  /** A split of the path into one block for every token, at the positions `cuts`. */
  ghost predicate SplitsInto(path: seq<string>, pattern: seq<string>, cuts: seq<nat>, fn: Fnmatch) {
    && |cuts| == |pattern| + 1 && cuts[0] == 0 && cuts[|pattern|] == |path|
    && forall k :: 0 <= k < |pattern| ==> Block(path, pattern[k], cuts[k], cuts[k + 1], fn)
  }

  /** What a pattern means. */
  ghost predicate Matches(path: seq<string>, pattern: seq<string>, fn: Fnmatch) {
    exists cuts :: SplitsInto(path, pattern, cuts, fn)
  }

  /** The meaning from position `pi` of the pattern and `si` of the path on. */
  ghost predicate MatchesAt(path: seq<string>, pattern: seq<string>, pi: nat, si: nat, fn: Fnmatch)
    requires pi <= |pattern| && si <= |path|
  {
    Matches(path[si..], pattern[pi..], fn)
  }

  lemma MatchesEnd(path: seq<string>, fn: Fnmatch)
    ensures Matches(path, [], fn) <==> path == []
  {
    if path == [] {
      assert SplitsInto(path, [], [0], fn);
    }
  }

  /** A plain token takes the first segment. */
  lemma MatchesToken(path: seq<string>, pattern: seq<string>, fn: Fnmatch)
    requires pattern != [] && pattern[0] != ANY
    ensures Matches(path, pattern, fn) <==>
            path != [] && fn(path[0], pattern[0]) && Matches(path[1..], pattern[1..], fn)
  {
    if Matches(path, pattern, fn) {
      var cuts :| SplitsInto(path, pattern, cuts, fn);
      MatchesSkip(path, pattern, cuts, fn);
    }
    if path != [] && fn(path[0], pattern[0]) && Matches(path[1..], pattern[1..], fn) {
      var rest :| SplitsInto(path[1..], pattern[1..], rest, fn);
      MatchesJoin(path, pattern, 1, rest, fn);
    }
  }

  /** `**` takes any number of segments. */
  lemma MatchesAny(path: seq<string>, pattern: seq<string>, fn: Fnmatch)
    requires pattern != [] && pattern[0] == ANY
    ensures Matches(path, pattern, fn) <==> exists n :: 0 <= n <= |path| && Matches(path[n..], pattern[1..], fn)
  {
    if Matches(path, pattern, fn) {
      var cuts :| SplitsInto(path, pattern, cuts, fn);
      MatchesSkip(path, pattern, cuts, fn);
    }
    if exists n :: 0 <= n <= |path| && Matches(path[n..], pattern[1..], fn) {
      var n: nat :| n <= |path| && Matches(path[n..], pattern[1..], fn);
      var rest :| SplitsInto(path[n..], pattern[1..], rest, fn);
      MatchesJoin(path, pattern, n, rest, fn);
    }
  }

  /** The split without the block of the first token. */
  lemma MatchesSkip(path: seq<string>, pattern: seq<string>, cuts: seq<nat>, fn: Fnmatch)
    requires pattern != [] && SplitsInto(path, pattern, cuts, fn)
    ensures cuts[1] <= |path| && Matches(path[cuts[1]..], pattern[1..], fn)
    ensures pattern[0] != ANY ==> cuts[1] == 1 <= |path| && fn(path[0], pattern[0])
  {
    CutsIncrease(path, pattern, cuts, fn);
    var n := cuts[1];
    assert Block(path, pattern[0], cuts[0], cuts[1], fn);
    var rest: seq<nat> := seq(|pattern|, k requires 0 <= k < |pattern| => cuts[k + 1] - n);
    forall k | 0 <= k < |pattern| - 1
      ensures Block(path[n..], pattern[1..][k], rest[k], rest[k + 1], fn)
    {
      assert Block(path, pattern[k + 1], cuts[k + 1], cuts[k + 2], fn);
    }
    assert SplitsInto(path[n..], pattern[1..], rest, fn);
  }

  lemma CutsIncrease(path: seq<string>, pattern: seq<string>, cuts: seq<nat>, fn: Fnmatch)
    requires pattern != [] && SplitsInto(path, pattern, cuts, fn)
    ensures forall k :: 1 <= k < |cuts| ==> cuts[1] <= cuts[k]
  {
    forall k | 1 <= k < |cuts|
      ensures cuts[1] <= cuts[k]
    {
      CutIncreases(path, pattern, cuts, k, fn);
    }
  }

  lemma {:induction false} CutIncreases(path: seq<string>, pattern: seq<string>, cuts: seq<nat>, k: nat, fn: Fnmatch)
    requires pattern != [] && SplitsInto(path, pattern, cuts, fn) && 1 <= k < |cuts|
    ensures cuts[1] <= cuts[k]
    decreases k
  {
    if k > 1 {
      assert Block(path, pattern[k - 1], cuts[k - 1], cuts[k], fn);
      CutIncreases(path, pattern, cuts, k - 1, fn);
    }
  }

  /** A split of the rest with a block of `n` segments for the first token before it. */
  lemma MatchesJoin(path: seq<string>, pattern: seq<string>, n: nat, rest: seq<nat>, fn: Fnmatch)
    requires pattern != [] && n <= |path| && SplitsInto(path[n..], pattern[1..], rest, fn)
    requires pattern[0] != ANY ==> n == 1 && fn(path[0], pattern[0])
    ensures Matches(path, pattern, fn)
  {
    var cuts: seq<nat> := [0] + seq(|rest|, k requires 0 <= k < |rest| => rest[k] + n);
    forall k | 0 <= k < |pattern|
      ensures Block(path, pattern[k], cuts[k], cuts[k + 1], fn)
    {
      if k > 0 {
        assert Block(path[n..], pattern[1..][k - 1], rest[k - 1], rest[k], fn);
      }
    }
    assert SplitsInto(path, pattern, cuts, fn);
  }

  // ---------------------------------------------------------------- the walk

  /** The meaning at a position, one step of the walk at a time. */
  lemma EndAt(path: seq<string>, pattern: seq<string>, si: nat, fn: Fnmatch)
    requires si <= |path|
    ensures MatchesAt(path, pattern, |pattern|, si, fn) <==> si == |path|
  {
    assert pattern[|pattern|..] == [];
    MatchesEnd(path[si..], fn);
  }

  lemma TokenAt(path: seq<string>, pattern: seq<string>, pi: nat, si: nat, fn: Fnmatch)
    requires pi < |pattern| && si <= |path| && pattern[pi] != ANY
    ensures MatchesAt(path, pattern, pi, si, fn) <==>
            si < |path| && fn(path[si], pattern[pi]) && MatchesAt(path, pattern, pi + 1, si + 1, fn)
  {
    MatchesToken(path[si..], pattern[pi..], fn);
    assert pattern[pi..][1..] == pattern[pi + 1..];
    if si < |path| {
      assert path[si..][1..] == path[si + 1..];
    }
  }

  /** The rest of the pattern from `pi` on matches some rest of the path from `si` on. */
  ghost predicate MatchesLater(path: seq<string>, pattern: seq<string>, pi: nat, si: nat, fn: Fnmatch)
    requires pi <= |pattern|
  {
    exists k :: si <= k <= |path| && MatchesAt(path, pattern, pi, k, fn)
  }

  lemma AnyAt(path: seq<string>, pattern: seq<string>, pi: nat, si: nat, fn: Fnmatch)
    requires pi < |pattern| && si <= |path| && pattern[pi] == ANY
    ensures MatchesAt(path, pattern, pi, si, fn) <==> MatchesLater(path, pattern, pi + 1, si, fn)
  {
    var rest, next := path[si..], pi + 1;
    MatchesAny(rest, pattern[pi..], fn);
    assert pattern[pi..][1..] == pattern[next..];
    forall n | 0 <= n <= |rest|
      ensures rest[n..] == path[si + n..]
    {
    }
    if exists n :: 0 <= n <= |rest| && Matches(rest[n..], pattern[next..], fn) {
      var n: nat :| n <= |rest| && Matches(rest[n..], pattern[next..], fn);
      assert MatchesAt(path, pattern, next, si + n, fn);
    }
    if MatchesLater(path, pattern, next, si, fn) {
      var k: nat :| si <= k <= |path| && MatchesAt(path, pattern, next, k, fn);
      assert Matches(rest[k - si..], pattern[next..], fn);
    }
  }

  lemma LastAnyAt(path: seq<string>, pattern: seq<string>, si: nat, fn: Fnmatch)
    requires pattern != [] && si <= |path| && pattern[|pattern| - 1] == ANY
    ensures MatchesAt(path, pattern, |pattern| - 1, si, fn)
  {
    AnyAt(path, pattern, |pattern| - 1, si, fn);
    EndAt(path, pattern, |path|, fn);
  }

  /** A position of the walk: a token and a segment. */
  type Position = (nat, nat)

  /** Every position seen at token `from` or later is a finished non-match. */
  ghost predicate Settled(seen: set<Position>, path: seq<string>, pattern: seq<string>, from: nat, fn: Fnmatch) {
    forall p: Position :: p in seen ==>
      p.0 <= |pattern| && p.1 <= |path| && (p.0 >= from ==> !MatchesAt(path, pattern, p.0, p.1, fn))
  }

  /** The walk of one match: the memo `seen` is shared by all its calls. */
  class Walker {
    const path: seq<string>
    const pattern: seq<string>
    const fn: Fnmatch
    var seen: set<Position>
    ghost var expansions: nat

    constructor (path: seq<string>, pattern: seq<string>, fn: Fnmatch)
      ensures this.path == path && this.pattern == pattern && this.fn == fn && seen == {} && expansions == 0
    {
      this.path, this.pattern, this.fn, seen, expansions := path, pattern, fn, {}, 0;
    }

    /** `walk`.  The positions seen at earlier tokens are the calls still under way; they are never met again. */
    method Walk(pi: nat, si: nat) returns (found: bool)
      requires pi <= |pattern| && si <= |path| && Settled(seen, path, pattern, pi, fn)
      requires expansions == |seen|
      modifies this`seen, this`expansions
      ensures found <==> MatchesAt(path, pattern, pi, si, fn)
      ensures old(seen) <= seen && (forall p: Position :: p in seen && p !in old(seen) ==> p.0 >= pi)
      ensures forall p: Position :: p in seen ==> p.0 <= |pattern| && p.1 <= |path|
      ensures !found ==> Settled(seen, path, pattern, pi, fn)
      ensures expansions == |seen|
      decreases |pattern| - pi
    {
      if (pi, si) in seen {
        return false;
      }
      seen := seen + {(pi, si)};
      expansions := expansions + 1;
      var p: nat, s: nat := pi, si;
      while p < |pattern|
        invariant pi <= p <= |pattern| && s <= |path|
        invariant MatchesAt(path, pattern, pi, si, fn) <==> MatchesAt(path, pattern, p, s, fn)
        invariant seen == old(seen) + {(pi, si)} && expansions == |seen|
      {
        var token := pattern[p];
        if token == ANY {
          if p + 1 == |pattern| {
            LastAnyAt(path, pattern, s, fn);
            return true;
          }
          AnyAt(path, pattern, p, s, fn);
          ghost var next := p + 1;
          for skip := s to |path| + 1
            invariant forall k :: s <= k < skip ==> !MatchesAt(path, pattern, next, k, fn)
            invariant old(seen) + {(pi, si)} <= seen && expansions == |seen|
            invariant forall q: Position :: q in seen && q !in old(seen) && q != (pi, si) ==> q.0 > p
            invariant Settled(seen, path, pattern, p + 1, fn)
          {
            var found' := Walk(p + 1, skip);
            if found' {
              return true;
            }
          }
          return false;
        }
        TokenAt(path, pattern, p, s, fn);
        if s >= |path| {
          return false;
        }
        if !fn(path[s], token) {
          return false;
        }
        p := p + 1;
        s := s + 1;
      }
      EndAt(path, pattern, s, fn);
      return s == |path|;
    }
  }

  /** There are no more positions than pairs of a token and a segment, ends included. */
  lemma {:induction false} FewPositions(seen: set<Position>, tokens: nat, segments: nat)
    requires forall p: Position :: p in seen ==> p.0 <= tokens && p.1 <= segments
    ensures |seen| <= (tokens + 1) * (segments + 1)
    decreases tokens
  {
    var row := set p: Position | p in seen && p.0 == tokens;
    var rest := seen - row;
    assert |seen| == |row| + |rest| by {
      assert seen == row + rest && row !! rest;
    }
    FewInRow(row, tokens, segments);
    if tokens == 0 {
      assert rest == {};
    } else {
      var before: nat := tokens - 1;
      FewPositions(rest, before, segments);
      OneRowMore(tokens, segments);
    }
  }

  lemma OneRowMore(tokens: nat, segments: nat)
    ensures (tokens + 1) * (segments + 1) == tokens * (segments + 1) + (segments + 1)
  {
  }

  lemma {:induction false} FewInRow(row: set<Position>, token: nat, segments: nat)
    requires forall p: Position :: p in row ==> p.0 == token && p.1 <= segments
    ensures |row| <= segments + 1
    decreases segments
  {
    var rest := row - {(token, segments)};
    assert |row| <= |rest| + 1;
    if segments == 0 {
      assert rest == {};
    } else {
      FewInRow(rest, token, segments - 1);
    }
  }

  /** `_segment_match`: exactly what the pattern means; every position is expanded at most once. */
  method SegmentMatch(path: string, pattern: string, fn: Fnmatch) returns (found: bool, ghost expansions: nat)
    ensures found <==> Matches(Parts(path), Parts(pattern), fn)
    ensures expansions <= (|Parts(pattern)| + 1) * (|Parts(path)| + 1)
  {
    var w := new Walker(Parts(path), Parts(pattern), fn);
    found := w.Walk(0, 0);
    expansions := w.expansions;
    FewPositions(w.seen, |w.pattern|, |w.path|);
    assert w.path[0..] == w.path && w.pattern[0..] == w.pattern;
  }

  // ---------------------------------------------------------------- match_rule

  /** A rule of the impact map: the suites it names, or None when it says that there is no impact. */
  datatype Rule = Rule(pattern: string, suites: seq<string>, noImpact: bool)

  ghost predicate RuleMatches(path: string, rule: Rule, fn: Fnmatch) { Matches(Parts(path), Parts(rule.pattern), fn) }

  /** `match_rule`: the position of the first rule that matches, or the number of rules. */
  method MatchRule(path: string, rules: seq<Rule>, fn: Fnmatch) returns (at: nat)
    ensures at <= |rules| && (at < |rules| ==> RuleMatches(path, rules[at], fn))
    ensures forall k :: 0 <= k < at ==> !RuleMatches(path, rules[k], fn)
  {
    for k := 0 to |rules|
      invariant forall m :: 0 <= m < k ==> !RuleMatches(path, rules[m], fn)
    {
      var found, expansions := SegmentMatch(path, rules[k].pattern, fn);
      if found {
        return k;
      }
    }
    return |rules|;
  }
}
