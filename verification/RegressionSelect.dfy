/** The regression selector (scripts/itd_regression_select.py, `select`): the suites a list of changed paths calls
    for, as the closure of an impact map that may have cycles. */
module RegressionSelect {
  import opened Wrappers
  import opened Glob

  /** The impact map: what every node leads to. */
  type Edges = map<string, seq<string>>

  function Next(edges: Edges, node: string): seq<string> { if node in edges then edges[node] else [] }

  // ---------------------------------------------------------------- reachability

  ghost predicate IsPath(edges: Edges, path: seq<string>) {
    path != [] && forall k :: 0 < k < |path| ==> path[k] in Next(edges, path[k - 1])
  }

  ghost predicate Reachable(edges: Edges, roots: set<string>, node: string) {
    exists path :: IsPath(edges, path) && path[0] in roots && path[|path| - 1] == node
  }

  lemma RootIsReachable(edges: Edges, roots: set<string>, node: string)
    requires node in roots
    ensures Reachable(edges, roots, node)
  {
    var path := [node];
    assert IsPath(edges, path) && path[|path| - 1] == node;
  }

  lemma SuccessorIsReachable(edges: Edges, roots: set<string>, node: string, next: string)
    requires Reachable(edges, roots, node) && next in Next(edges, node)
    ensures Reachable(edges, roots, next)
  {
    var path :| IsPath(edges, path) && path[0] in roots && path[|path| - 1] == node;
    var longer := path + [next];
    assert IsPath(edges, longer) && longer[0] in roots && longer[|longer| - 1] == next;
  }

  ghost predicate Closed(edges: Edges, nodes: set<string>) {
    forall n, m :: n in nodes && m in Next(edges, n) ==> m in nodes
  }

  /** A set that holds the roots and is closed holds everything on a path from a root. */
  lemma {:induction false} ClosedHoldsPaths(edges: Edges, nodes: set<string>, path: seq<string>, k: nat)
    requires Closed(edges, nodes) && IsPath(edges, path) && path[0] in nodes && k < |path|
    ensures path[k] in nodes
    decreases k
  {
    if k > 0 {
      ClosedHoldsPaths(edges, nodes, path, k - 1);
    }
  }

  lemma ClosedHoldsReachable(edges: Edges, nodes: set<string>, roots: set<string>)
    requires Closed(edges, nodes) && roots <= nodes
    ensures forall n :: Reachable(edges, roots, n) ==> n in nodes
  {
    forall n | Reachable(edges, roots, n)
      ensures n in nodes
    {
      var path :| IsPath(edges, path) && path[0] in roots && path[|path| - 1] == n;
      ClosedHoldsPaths(edges, nodes, path, |path| - 1);
    }
  }

  // ---------------------------------------------------------------- the worklist

  function Elements(list: seq<string>): set<string> { set x | x in list }

  /** Every node the worklist can ever meet. */
  ghost function Universe(edges: Edges, roots: set<string>): set<string> {
    roots + set n, m | n in edges && m in edges[n] :: m
  }

  /** Everything found is reachable, and what is seen leads only to what is found. */
  ghost predicate Exploring(edges: Edges, roots: set<string>, seen: set<string>, found: set<string>) {
    && roots <= found <= Universe(edges, roots)
    && (forall n :: n in found ==> Reachable(edges, roots, n))
    && forall n, m :: n in seen && m in Next(edges, n) ==> m in found
  }

  lemma ExploringStarts(edges: Edges, roots: set<string>)
    ensures Exploring(edges, roots, {}, roots)
  {
    forall n | n in roots
      ensures Reachable(edges, roots, n)
    {
      RootIsReachable(edges, roots, n);
    }
  }

  lemma ExploringExpands(edges: Edges, roots: set<string>, seen: set<string>, found: set<string>, node: string)
    requires Exploring(edges, roots, seen, found) && node in found
    ensures Exploring(edges, roots, seen + {node}, found + Elements(Next(edges, node)))
  {
    forall m | m in Next(edges, node)
      ensures Reachable(edges, roots, m) && m in Universe(edges, roots)
    {
      SuccessorIsReachable(edges, roots, node, m);
    }
  }

  lemma Pop(queue: seq<string>, more: seq<string>)
    requires queue != []
    ensures Elements(queue) == Elements(queue[1..]) + {queue[0]}
    ensures Elements(queue[1..] + more) == Elements(queue[1..]) + Elements(more)
  {
    assert queue == [queue[0]] + queue[1..];
  }

  predicate Distinct(list: seq<string>) { forall i, j :: 0 <= i < j < |list| ==> list[i] != list[j] }

  lemma Appended(order: seq<string>, node: string)
    requires Distinct(order) && node !in Elements(order)
    ensures Distinct(order + [node]) && Elements(order + [node]) == Elements(order) + {node}
  {
    assert node !in order;
  }

  /** The state of the worklist loop: `order` lists what was seen, each node once, and what is found is seen or in
      the queue. */
  ghost predicate Searching(edges: Edges, roots: set<string>, order: seq<string>, seen: set<string>,
                            queue: seq<string>)
  {
    Exploring(edges, roots, seen, seen + Elements(queue)) && seen == Elements(order) && Distinct(order)
  }

  lemma SearchSkips(edges: Edges, roots: set<string>, order: seq<string>, seen: set<string>, queue: seq<string>)
    requires Searching(edges, roots, order, seen, queue) && queue != [] && queue[0] in seen
    ensures Searching(edges, roots, order, seen, queue[1..])
  {
    Pop(queue, []);
    assert seen + Elements(queue[1..]) == seen + Elements(queue);
  }

  lemma SearchExpands(edges: Edges, roots: set<string>, order: seq<string>, seen: set<string>, queue: seq<string>)
    requires Searching(edges, roots, order, seen, queue) && queue != [] && queue[0] !in seen
    ensures Searching(edges, roots, order + [queue[0]], seen + {queue[0]}, queue[1..] + Next(edges, queue[0]))
    ensures queue[0] in Universe(edges, roots)
  {
    var node := queue[0];
    var rest, next := Elements(queue[1..]), Elements(Next(edges, node));
    Pop(queue, Next(edges, node));
    Appended(order, node);
    ExploringExpands(edges, roots, seen, seen + Elements(queue), node);
    assert (seen + (rest + {node})) + next == (seen + {node}) + (rest + next);
  }

  /** The worklist loop of `select`: exactly the reachable nodes, each once, on any map and with any repetition
      in the queue. */
  method Closure(edges: Edges, roots: seq<string>) returns (order: seq<string>)
    ensures forall n :: n in order <==> Reachable(edges, Elements(roots), n)
    ensures Distinct(order)
  {
    var seen: set<string> := {};
    var queue := roots;
    ghost var start := Elements(roots);
    ghost var all := Universe(edges, start);
    order := [];
    ExploringStarts(edges, start);
    assert {} + Elements(queue) == start;
    while queue != []
      invariant Searching(edges, start, order, seen, queue)
      decreases all - seen, |queue|
    {
      var node := queue[0];
      if node in seen {
        SearchSkips(edges, start, order, seen, queue);
        queue := queue[1..];
        continue;
      }
      SearchExpands(edges, start, order, seen, queue);
      queue := queue[1..] + Next(edges, node);
      seen := seen + {node};
      order := order + [node];
    }
    AllFound(edges, start, seen, order);
  }

  lemma AllFound(edges: Edges, roots: set<string>, seen: set<string>, order: seq<string>)
    requires Searching(edges, roots, order, seen, [])
    ensures forall n :: n in order <==> Reachable(edges, roots, n)
    ensures Distinct(order)
  {
    assert Elements([]) == {} && seen + {} == seen;
    ClosedHoldsReachable(edges, seen, roots);
  }

  // ---------------------------------------------------------------- select

  /** The repository around the map: the suite files, the mirror, and the path operations. */
  datatype Repo = Repo(isSuite: string -> bool, stem: string -> string, normal: string -> string,
                       relative: string -> bool, hasFile: string -> bool, mirror: set<string>, fn: Fnmatch)

  datatype Refusal = NothingChanged | NotRelative | Unmapped | NoSuite | MissingSuite | NothingRunnable

  /** The suites to run, those that need another context, and the paths a rule declares to have no impact. */
  datatype Selection = Selection(runnable: set<string>, outside: set<string>, closureSuites: set<string>,
                                 ruledNoImpact: set<string>)

  /** The normalized paths, in order and once each. */
  method Normalize(changed: seq<string>, repo: Repo) returns (paths: Result<seq<string>, Refusal>)
    ensures paths.Err? ==> paths.error == NotRelative
    ensures paths.Ok? <==> forall k :: 0 <= k < |changed| ==> repo.relative(repo.normal(changed[k]))
    ensures paths.Ok? ==> Elements(paths.value) == Roots(changed, repo)
  {
    var out: seq<string> := [];
    for k := 0 to |changed|
      invariant forall m :: 0 <= m < k ==> repo.relative(repo.normal(changed[m]))
      invariant Elements(out) == Roots(changed[..k], repo)
    {
      var value := repo.normal(changed[k]);
      assert changed[..k + 1] == changed[..k] + [changed[k]];
      RootsGrow(changed[..k], changed[k], repo);
      if !repo.relative(value) {
        return Err(NotRelative);
      }
      if value !in out {
        out := out + [value];
      }
    }
    assert changed[..|changed|] == changed;
    return Ok(out);
  }

  function Roots(changed: seq<string>, repo: Repo): set<string> { set raw | raw in changed :: repo.normal(raw) }

  lemma RootsGrow(changed: seq<string>, raw: string, repo: Repo)
    ensures Roots(changed + [raw], repo) == Roots(changed, repo) + {repo.normal(raw)}
  {
    assert raw in changed + [raw];
    assert forall r :: r in changed ==> r in changed + [raw];
  }

  predicate Mapped(path: string, edges: Edges, repo: Repo) { path in edges || repo.isSuite(path) }

  /** The position of the first rule from `k` on that matches `path`, or the number of rules. */
  ghost function RuleFor(path: string, rules: seq<Rule>, k: nat, repo: Repo): (at: nat)
    requires k <= |rules|
    ensures k <= at <= |rules| && (at < |rules| ==> RuleMatches(path, rules[at], repo.fn))
    ensures forall m :: k <= m < at ==> !RuleMatches(path, rules[m], repo.fn)
    decreases |rules| - k
  {
    if k == |rules| || RuleMatches(path, rules[k], repo.fn) then k else RuleFor(path, rules, k + 1, repo)
  }

  /** What a changed path asks for by itself: nothing when the map knows it, else what its first rule says. */
  datatype Effect = InMap | NoRule | NoImpact | Suites(names: set<string>)

  ghost function EffectOf(path: string, edges: Edges, rules: seq<Rule>, repo: Repo): Effect {
    if Mapped(path, edges, repo) then InMap
    else
      var at := RuleFor(path, rules, 0, repo);
      if at == |rules| then NoRule else if rules[at].noImpact then NoImpact else Suites(Elements(rules[at].suites))
  }

  /** A rule calls for suite `name` because of one of `paths`. */
  ghost predicate RuledSuite(name: string, paths: set<string>, edges: Edges, rules: seq<Rule>, repo: Repo) {
    exists path :: path in paths && EffectOf(path, edges, rules, repo).Suites?
                   && name in EffectOf(path, edges, rules, repo).names
  }

  /** Suite `name` is called for by the changed paths: a reachable node is that suite, or a rule names it. */
  ghost predicate CalledFor(name: string, roots: set<string>, edges: Edges, rules: seq<Rule>, repo: Repo) {
    ReachableSuite(name, roots, edges, repo) || RuledSuite(name, roots, edges, rules, repo)
  }

  ghost predicate ReachableSuite(name: string, roots: set<string>, edges: Edges, repo: Repo) {
    exists node :: Reachable(edges, roots, node) && repo.isSuite(node) && repo.stem(node) == name
  }

  /** What the rules say about `paths`. */
  ghost predicate Ruled(paths: set<string>, edges: Edges, rules: seq<Rule>, repo: Repo, suites: set<string>,
                        out: set<string>, unmapped: set<string>)
  {
    && (forall name :: name in suites <==> RuledSuite(name, paths, edges, rules, repo))
    && (forall path :: path in out <==> path in paths && EffectOf(path, edges, rules, repo).NoImpact?)
    && (forall path :: path in unmapped <==> path in paths && EffectOf(path, edges, rules, repo).NoRule?)
  }

  /** The loop of `select` over the changed paths that the map does not know. */
  method ApplyRules(paths: seq<string>, edges: Edges, rules: seq<Rule>, repo: Repo)
    returns (suites: set<string>, out: set<string>, unmapped: set<string>)
    ensures Ruled(Elements(paths), edges, rules, repo, suites, out, unmapped)
  {
    suites, out, unmapped := {}, {}, {};
    for n := 0 to |paths|
      invariant Ruled(Elements(paths[..n]), edges, rules, repo, suites, out, unmapped)
    {
      var value := paths[n];
      assert Elements(paths[..n + 1]) == Elements(paths[..n]) + {value};
      if value in edges || repo.isSuite(value) {
        continue;
      }
      var k := FindRule(value, rules, repo);
      if k == |rules| {
        unmapped := unmapped + {value};
      } else if rules[k].noImpact {
        out := out + {value};
      } else {
        suites := suites + Elements(rules[k].suites);
      }
    }
    assert paths[..|paths|] == paths;
  }

  method FindRule(path: string, rules: seq<Rule>, repo: Repo) returns (at: nat)
    ensures at == RuleFor(path, rules, 0, repo)
  {
    at := MatchRule(path, rules, repo.fn);
  }

  /** The suites of the closure and of the rules. */
  method SuiteNames(order: seq<string>, ruled: set<string>, repo: Repo) returns (names: set<string>)
    ensures names == ruled + set n | n in order && repo.isSuite(n) :: repo.stem(n)
  {
    names := ruled;
    for k := 0 to |order|
      invariant names == ruled + set n | n in order[..k] && repo.isSuite(n) :: repo.stem(n)
    {
      assert order[..k + 1] == order[..k] + [order[k]];
      if repo.isSuite(order[k]) {
        names := names + {repo.stem(order[k])};
      }
    }
    assert order[..|order|] == order;
  }

  /** The suites that are outside a mirror that is not empty. */
  predicate IsOutside(name: string, repo: Repo) { repo.mirror != {} && name !in repo.mirror }

  ghost predicate AllRelative(changed: seq<string>, repo: Repo) {
    forall k :: 0 <= k < |changed| ==> repo.relative(repo.normal(changed[k]))
  }

  ghost predicate SomeUnmapped(roots: set<string>, edges: Edges, rules: seq<Rule>, repo: Repo) {
    exists path :: path in roots && EffectOf(path, edges, rules, repo).NoRule?
  }

  /** What `select` answers: its refusals in their order, and what a selection holds. */
  ghost predicate Answers(changed: seq<string>, edges: Edges, rules: seq<Rule>, repo: Repo,
                          r: Result<Selection, Refusal>)
  {
    var roots := Roots(changed, repo);
    if changed == [] then r == Err(NothingChanged)
    else if !AllRelative(changed, repo) then r == Err(NotRelative)
    else if SomeUnmapped(roots, edges, rules, repo) then r == Err(Unmapped)
    else if forall name :: !CalledFor(name, roots, edges, rules, repo) then r == Err(NoSuite)
    else if exists name :: CalledFor(name, roots, edges, rules, repo) && !repo.hasFile(name) then r == Err(MissingSuite)
    else if forall name :: CalledFor(name, roots, edges, rules, repo) ==> IsOutside(name, repo) then
      r == Err(NothingRunnable)
    else r.Ok? && Selects(roots, edges, rules, repo, r.value)
  }

  ghost predicate Selects(roots: set<string>, edges: Edges, rules: seq<Rule>, repo: Repo, s: Selection) {
    && (forall name :: name in s.closureSuites <==> CalledFor(name, roots, edges, rules, repo))
    && s.runnable + s.outside == s.closureSuites && s.runnable !! s.outside && s.runnable != {}
    && (forall name :: name in s.outside <==> name in s.closureSuites && IsOutside(name, repo))
    && (forall name :: name in s.closureSuites ==> repo.hasFile(name))
    && forall path :: path in s.ruledNoImpact <==> path in roots && EffectOf(path, edges, rules, repo).NoImpact?
  }

  /** The end of `select`, from the suites it gathered: its last three refusals, and the split by the mirror. */
  ghost predicate Weighs(suites: set<string>, out: set<string>, repo: Repo, r: Result<Selection, Refusal>) {
    if suites == {} then r == Err(NoSuite)
    else if exists name :: name in suites && !repo.hasFile(name) then r == Err(MissingSuite)
    else if forall name :: name in suites ==> IsOutside(name, repo) then r == Err(NothingRunnable)
    else r == Ok(Selection(suites - Outside(suites, repo), Outside(suites, repo), suites, out))
  }

  function Outside(suites: set<string>, repo: Repo): set<string> { set name | name in suites && IsOutside(name, repo) }

  method Weigh(suites: set<string>, out: set<string>, repo: Repo) returns (r: Result<Selection, Refusal>)
    ensures Weighs(suites, out, repo, r)
  {
    if suites == {} {
      return Err(NoSuite);
    }
    var missing := set name | name in suites && !repo.hasFile(name);
    if missing != {} {
      var name :| name in missing;
      return Err(MissingSuite);
    }
    assert forall name :: name in suites && !repo.hasFile(name) ==> name in missing;
    var outside := Outside(suites, repo);
    var runnable := suites - outside;
    if runnable == {} {
      forall name | name in suites
        ensures IsOutside(name, repo)
      {
        assert name !in runnable;
      }
      return Err(NothingRunnable);
    }
    var name :| name in runnable;
    return Ok(Selection(runnable, outside, suites, out));
  }

  lemma WeighedAnswers(changed: seq<string>, edges: Edges, rules: seq<Rule>, repo: Repo, suites: set<string>,
                       out: set<string>, r: Result<Selection, Refusal>)
    requires changed != [] && AllRelative(changed, repo)
    requires !SomeUnmapped(Roots(changed, repo), edges, rules, repo)
    requires forall name :: name in suites <==> CalledFor(name, Roots(changed, repo), edges, rules, repo)
    requires forall path :: path in out <==> path in Roots(changed, repo)
                                             && EffectOf(path, edges, rules, repo).NoImpact?
    requires Weighs(suites, out, repo, r)
    ensures Answers(changed, edges, rules, repo, r)
  {
    if r.Ok? {
      assert r.value.runnable + r.value.outside == suites;
      assert forall name :: name in suites && !IsOutside(name, repo) ==> name in r.value.runnable;
    }
  }

  /** `select`. */
  method Select(changed: seq<string>, edges: Edges, rules: seq<Rule>, repo: Repo)
    returns (r: Result<Selection, Refusal>)
    ensures Answers(changed, edges, rules, repo, r)
  {
    if changed == [] {
      return Err(NothingChanged);
    }
    var normalized := Normalize(changed, repo);
    if normalized.Err? {
      return Err(normalized.error);
    }
    var ruled, out, unmapped := ApplyRules(normalized.value, edges, rules, repo);
    if unmapped != {} {
      var path :| path in unmapped;
      return Err(Unmapped);
    }
    var order := Closure(edges, normalized.value);
    var suites := SuiteNames(order, ruled, repo);
    r := Weigh(suites, out, repo);
    WeighedAnswers(changed, edges, rules, repo, suites, out, r);
  }

  /** The closure of a joined list of changes is the union of the closures: nothing is lost or gained by
      selecting for several changes at once. */
  lemma ClosureOfJoinedChanges(a: seq<string>, b: seq<string>, edges: Edges, rules: seq<Rule>, repo: Repo, name: string)
    ensures CalledFor(name, Roots(a + b, repo), edges, rules, repo)
            <==> CalledFor(name, Roots(a, repo), edges, rules, repo)
                 || CalledFor(name, Roots(b, repo), edges, rules, repo)
  {
    var x, y, both := Roots(a, repo), Roots(b, repo), Roots(a + b, repo);
    assert both == x + y by {
      assert forall r :: r in a + b <==> r in a || r in b;
    }
    forall node
      ensures Reachable(edges, both, node) <==> Reachable(edges, x, node) || Reachable(edges, y, node)
    {
      if Reachable(edges, both, node) {
        var path :| IsPath(edges, path) && path[0] in both && path[|path| - 1] == node;
        assert path[0] in x || path[0] in y;
      }
    }
    if ReachableSuite(name, both, edges, repo) {
      var node :| Reachable(edges, both, node) && repo.isSuite(node) && repo.stem(node) == name;
      assert Reachable(edges, x, node) || Reachable(edges, y, node);
    }
    if ReachableSuite(name, x, edges, repo) {
      var node :| Reachable(edges, x, node) && repo.isSuite(node) && repo.stem(node) == name;
      assert Reachable(edges, both, node);
    }
    if ReachableSuite(name, y, edges, repo) {
      var node :| Reachable(edges, y, node) && repo.isSuite(node) && repo.stem(node) == name;
      assert Reachable(edges, both, node);
    }
  }
}
