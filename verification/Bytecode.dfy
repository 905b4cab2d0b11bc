/** The install-time bytecode (scripts/itd_hook_bytecode.py) and its use by the dispatcher (hooks/itd_dispatch.py).

    A cache of compiled hooks is worth having only if it can never be told from compiling: whatever happens to
    bytecode and source files after an installation, loading a hook yields what compiling its source on disk
    yields. */
module Bytecode {
  import opened Wrappers

  type Path = string

  type Bytes = seq<int>

  /** A code object. */
  datatype Code = Code(text: Bytes)

  /** A row of the inventory. */
  datatype Row = Row(source: Path, sourceSha: string, bytecode: Path, bytecodeSha: string)

  const CHECKED_HASH_PYC: Bytes := [3, 0, 0, 0]

  /** The interpreter, the hashes and the directory layout.  `compile` is None when the source does not compile;
      `managed` holds for the files of the managed directories, `cached` for the .pyc files of their __pycache__. */
  datatype Host = Host(compile: (Path, Bytes) -> Option<Code>, marshal: Code -> Bytes, unmarshal: Bytes -> Option<Code>,
                       sha: Bytes -> string, sourceHash: Bytes -> Bytes, magic: Bytes,
                       render: seq<Row> -> Bytes, parse: Bytes -> Option<seq<Row>>,
                       cachePath: Path -> Path, managed: Path -> bool, cached: Path -> bool,
                       isPython: (Path, Bytes) -> bool, sorted: set<Path> -> seq<Path>, inventory: Path)
  {
    /** A sorted listing lists what it was given. */
    ghost predicate Listing() { forall paths :: Lists(sorted(paths), paths) }

    /** The .pyc files, the managed sources and the inventory are different files. */
    ghost predicate Layout() {
      && (forall path :: managed(path) ==> cached(cachePath(path)))
      && (forall path :: cached(path) ==> !managed(path))
      && !managed(inventory) && !cached(inventory)
    }

    /** The header has its sixteen bytes, and what was written can be read back. */
    ghost predicate Codec() {
      && |magic| == 4 && (forall data :: |sourceHash(data)| == 8)
      && (forall code :: unmarshal(marshal(code)) == Some(code))
      && (forall rows :: parse(render(rows)) == Some(rows))
    }
  }

  /** `list` holds every element of `paths` once. */
  ghost predicate Lists(list: seq<Path>, paths: set<Path>) {
    (forall p :: p in list <==> p in paths) && forall i, j :: 0 <= i < j < |list| ==> list[i] != list[j]
  }

  type Files = map<Path, Bytes>

  function Sources(h: Host, f: Files): set<Path> { set p | p in f && h.managed(p) && h.isPython(p, f[p]) }

  /** `expected_bytecode`: the header, the hash of the source, and the code object. */
  function Pyc(h: Host, code: Code, source: Bytes): Bytes {
    h.magic + CHECKED_HASH_PYC + h.sourceHash(source) + h.marshal(code)
  }

  /** The bytecode due for a source; None when it does not compile. */
  function Due(h: Host, f: Files, s: Path): Option<Bytes> {
    if s in f && h.compile(s, f[s]).Some? then Some(Pyc(h, h.compile(s, f[s]).value, f[s])) else None
  }

  predicate Compiles(h: Host, f: Files) { forall s :: s in Sources(h, f) ==> Due(h, f, s).Some? }

  /** The bytecode of `s` is due and is not what is there. */
  predicate Stale(h: Host, f: Files, s: Path) {
    Due(h, f, s).Some? && !Current(f, h.cachePath(s), Due(h, f, s).value)
  }

  predicate Current(f: Files, path: Path, data: Bytes) { path in f && f[path] == data }

  function Owned(h: Host, f: Files): set<Path> { set s | s in Sources(h, f) :: h.cachePath(s) }

  /** Bytecode nobody owns. */
  function Extra(h: Host, f: Files): set<Path> { set p | p in f && h.cached(p) && p !in Owned(h, f) }

  /** `f` with the bytecode of the sources `todo` of `before` written where it was missing or different. */
  function WriteStale(h: Host, before: Files, f: Files, todo: seq<Path>): Files
    decreases |todo|
  {
    if todo == [] then f
    else
      var n := |todo| - 1;
      var written := WriteStale(h, before, f, todo[..n]);
      if Stale(h, before, todo[n]) then written[h.cachePath(todo[n]) := Due(h, before, todo[n]).value] else written
  }

  function RowOf(h: Host, f: Files, s: Path): Row {
    Row(s, if s in f then h.sha(f[s]) else "", h.cachePath(s),
        if h.cachePath(s) in f then h.sha(f[h.cachePath(s)]) else "")
  }

  /** The inventory of the bytecode of `pairs` as it stands in `f`. */
  function Rows(h: Host, f: Files, pairs: seq<Path>): seq<Row> {
    seq(|pairs|, k requires 0 <= k < |pairs| => RowOf(h, f, pairs[k]))
  }

  /** What an installer run makes of the files. */
  function Installed(h: Host, f: Files): Files
  {
    var pairs := h.sorted(Sources(h, f));
    var compiled := WriteStale(h, f, f, pairs) - Extra(h, f);
    compiled[h.inventory := h.render(Rows(h, compiled, pairs))]
  }

  /** Sources that share a bytecode file, like `x.py` and `x.sh`, are due the same bytecode. */
  ghost predicate SharedAgree(h: Host, f: Files) {
    forall s, t :: s in Sources(h, f) && t in Sources(h, f) && h.cachePath(s) == h.cachePath(t)
                   ==> Due(h, f, s) == Due(h, f, t)
  }

  // ---------------------------------------------------------------- the installer

  /** What `plan` finds: the sources, the bytecode due, and the bytecode nobody owns. */
  datatype Plan = Plan(pairs: seq<Path>, stale: map<Path, Bytes>, extra: set<Path>)

  class Installer {
    var files: Files
    const h: Host

    constructor (h: Host, files: Files)
      ensures this.h == h && this.files == files
    {
      this.h, this.files := h, files;
    }

    /** `plan`; Err names a source that does not compile. */
    method MakePlan() returns (plan: Result<Plan, Path>)
      requires h.Listing()
      ensures plan.Ok? <==> Compiles(h, files)
      ensures plan.Err? ==> plan.error in Sources(h, files) && Due(h, files, plan.error).None?
      ensures plan.Ok? ==> Planned(h, files, plan.value)
    {
      var pairs := h.sorted(Sources(h, files));
      var stale: map<Path, Bytes> := map[];
      for k := 0 to |pairs|
        invariant forall m :: 0 <= m < k ==> Due(h, files, pairs[m]).Some?
        invariant StaleAmong(h, files, pairs[..k], stale)
      {
        assert pairs[k] in pairs && pairs[..k + 1] == pairs[..k] + [pairs[k]];
        var expected := Due(h, files, pairs[k]);
        if expected.None? {
          return Err(pairs[k]);
        }
        if !Current(files, h.cachePath(pairs[k]), expected.value) {
          stale := stale[pairs[k] := expected.value];
        }
      }
      assert pairs[..|pairs|] == pairs;
      return Ok(Plan(pairs, stale, Extra(h, files)));
    }

    /** `main` without --check; `done` is false when a source does not compile, and `touched` says that some
        file was written or removed. */
    method Install() returns (done: bool, touched: bool)
      requires h.Listing()
      modifies this`files
      ensures done <==> Compiles(h, old(files))
      ensures files == if done then Installed(h, old(files)) else old(files)
      ensures done ==> (touched <==> !Clean(h, old(files)))
      ensures !touched ==> files == old(files)
    {
      var plan := MakePlan();
      if plan.Err? {
        return false, false;
      }
      var pairs, extra := plan.value.pairs, plan.value.extra;
      ghost var before := files;
      WriteBytecode(plan.value);
      RemoveAll(extra);
      var text := h.render(Rows(h, files, pairs));
      var rewrite := !Current(files, h.inventory, text);
      touched := plan.value.stale != map[] || extra != {} || rewrite;
      if rewrite {
        files := files[h.inventory := text];
      }
      InstalledIs(h, before, plan.value, files, rewrite);
      return true, touched;
    }

    method WriteBytecode(plan: Plan)
      requires Planned(h, files, plan)
      modifies this`files
      ensures files == WriteStale(h, old(files), old(files), plan.pairs)
      ensures plan.stale == map[] ==> files == old(files)
    {
      for k := 0 to |plan.pairs|
        invariant files == WriteStale(h, old(files), old(files), plan.pairs[..k])
        invariant plan.stale == map[] ==> files == old(files)
      {
        assert plan.pairs[..k + 1][..k] == plan.pairs[..k];
        var s := plan.pairs[k];
        assert s in plan.pairs;
        if s in plan.stale {
          files := files[h.cachePath(s) := plan.stale[s]];
        }
      }
      assert plan.pairs[..|plan.pairs|] == plan.pairs;
    }

    method RemoveAll(extra: set<Path>)
      modifies this`files
      ensures files == old(files) - extra
    {
      var rest := extra;
      while rest != {}
        invariant rest <= extra && files == old(files) - (extra - rest)
        decreases |rest|
      {
        var path :| path in rest;
        files := files - {path};
        rest := rest - {path};
      }
      assert extra - rest == extra;
    }

    /** `main --check`: whether bytecode and inventory are current; Err when a source does not compile. */
    method Check() returns (current: Result<bool, Path>)
      requires h.Listing()
      ensures current.Ok? <==> Compiles(h, files)
      ensures current.Ok? ==> (current.value <==> Clean(h, files))
    {
      var plan := MakePlan();
      if plan.Err? {
        return Err(plan.error);
      }
      if plan.value.stale != map[] || plan.value.extra != {} {
        return Ok(false);
      }
      return Ok(Current(files, h.inventory, h.render(Rows(h, files, plan.value.pairs))));
    }
  }

  /** Nothing is stale, nothing is extra, and the inventory is that of the files. */
  ghost predicate Clean(h: Host, f: Files) {
    && (forall s :: s in Sources(h, f) ==> !Stale(h, f, s)) && Extra(h, f) == {}
    && Current(f, h.inventory, h.render(Rows(h, f, h.sorted(Sources(h, f)))))
  }

  /** The three steps of the installer. */
  lemma InstalledIs(h: Host, before: Files, plan: Plan, after: Files, rewrite: bool)
    requires h.Listing() && Planned(h, before, plan)
    requires var compiled := WriteStale(h, before, before, plan.pairs) - plan.extra;
             var text := h.render(Rows(h, compiled, plan.pairs));
             && rewrite == !Current(compiled, h.inventory, text)
             && after == if rewrite then compiled[h.inventory := text] else compiled
    requires plan.stale == map[] ==> WriteStale(h, before, before, plan.pairs) == before
    ensures after == Installed(h, before)
    ensures plan.stale == map[] && plan.extra == {} && !rewrite <==> Clean(h, before)
    ensures plan.stale == map[] && plan.extra == {} && !rewrite ==> after == before
  {
    var compiled := WriteStale(h, before, before, plan.pairs) - plan.extra;
    var text := h.render(Rows(h, compiled, plan.pairs));
    if !rewrite {
      assert compiled[h.inventory := text] == compiled;
    }
    if plan.extra == {} {
      assert compiled == WriteStale(h, before, before, plan.pairs);
    }
  }

  /** `stale` holds the bytecode that is due among `list`. */
  ghost predicate StaleAmong(h: Host, f: Files, list: seq<Path>, stale: map<Path, Bytes>) {
    && (forall s :: s in stale <==> s in list && Stale(h, f, s))
    && forall s :: s in stale ==> Some(stale[s]) == Due(h, f, s)
  }

  ghost predicate Planned(h: Host, f: Files, plan: Plan) {
    plan.pairs == h.sorted(Sources(h, f)) && plan.extra == Extra(h, f) && StaleAmong(h, f, plan.pairs, plan.stale)
  }

  // ---------------------------------------------------------------- loading a hook

  /** The bytecode hashes the inventory of `f` vouches for (`trust_bytecode`). */
  function Trusted(h: Host, f: Files): map<Path, string> {
    if h.inventory !in f then map[]
    else match h.parse(f[h.inventory]) case None => map[] case Some(rows) => TrustedRows(rows)
  }

  function TrustedRows(rows: seq<Row>): map<Path, string> {
    if rows == [] then map[]
    else
      var n := |rows| - 1;
      TrustedRows(rows[..n])[rows[n].bytecode := rows[n].bytecodeSha]
  }

  /** `cached_code`: the bytecode of `path`, when it is the installer's and was compiled from this source. */
  function CachedCode(h: Host, f: Files, path: Path, source: Bytes): Option<Code> {
    var pyc := h.cachePath(path);
    if pyc !in f then None
    else
      var data := f[pyc];
      if pyc !in Trusted(h, f) || Trusted(h, f)[pyc] != h.sha(data) || |data| < 16 || data[..4] != h.magic
         || data[4..8] != CHECKED_HASH_PYC || data[8..16] != h.sourceHash(source) then None
      else h.unmarshal(data[16..])
  }

  /** `load_code`: None when the source does not compile. */
  function LoadCode(h: Host, f: Files, path: Path): Option<Code>
    requires path in f
  {
    match CachedCode(h, f, path, f[path])
    case Some(code) => Some(code)
    case None => h.compile(path, f[path])
  }

  // ---------------------------------------------------------------- the installation is clean

  lemma {:induction false} WriteStaleGives(h: Host, before: Files, f: Files, todo: seq<Path>, pyc: Path)
    requires forall s :: s in todo ==> Due(h, before, s).Some?
    ensures var out := WriteStale(h, before, f, todo);
            if exists s :: s in todo && Stale(h, before, s) && h.cachePath(s) == pyc then
              pyc in out && exists s :: s in todo && h.cachePath(s) == pyc && Some(out[pyc]) == Due(h, before, s)
            else (pyc in out <==> pyc in f) && (pyc in f ==> out[pyc] == f[pyc])
    decreases |todo|
  {
    if todo != [] {
      var n := |todo| - 1;
      WriteStaleGives(h, before, f, todo[..n], pyc);
      assert todo == todo[..n] + [todo[n]];
    }
  }

  /** A file that is no bytecode of a listed source is as before. */
  lemma {:induction false} WriteStaleKeeps(h: Host, before: Files, f: Files, todo: seq<Path>, path: Path)
    requires forall s :: s in todo ==> h.cachePath(s) != path
    ensures var out := WriteStale(h, before, f, todo);
            (path in out <==> path in f) && (path in f ==> out[path] == f[path])
    decreases |todo|
  {
    if todo != [] {
      var n := |todo| - 1;
      assert forall s :: s in todo[..n] ==> s in todo;
      WriteStaleKeeps(h, before, f, todo[..n], path);
    }
  }

  /** Installing changes bytecode and inventory only. */
  lemma InstalledKeeps(h: Host, f: Files, path: Path)
    requires h.Listing() && h.Layout() && !h.cached(path) && path != h.inventory
    ensures (path in Installed(h, f) <==> path in f) && (path in f ==> Installed(h, f)[path] == f[path])
  {
    var pairs := h.sorted(Sources(h, f));
    assert Lists(pairs, Sources(h, f));
    WriteStaleKeeps(h, f, f, pairs, path);
  }

  lemma SourcesStay(h: Host, f: Files)
    requires h.Listing() && h.Layout()
    ensures Sources(h, Installed(h, f)) == Sources(h, f)
    ensures forall s :: s in Sources(h, f) ==> s in Installed(h, f) && Installed(h, f)[s] == f[s]
  {
    forall p | h.managed(p)
      ensures (p in Installed(h, f) <==> p in f) && (p in f ==> Installed(h, f)[p] == f[p])
    {
      InstalledKeeps(h, f, p);
    }
  }

  /** After an installation every source has exactly the bytecode it is due, when sources that share a bytecode file
      agree on it. */
  lemma SourceHasItsBytecode(h: Host, f: Files, s: Path)
    requires h.Listing() && h.Layout() && SharedAgree(h, f) && Compiles(h, f) && s in Sources(h, f)
    ensures Current(Installed(h, f), h.cachePath(s), Due(h, f, s).value)
  {
    var pairs, pyc := h.sorted(Sources(h, f)), h.cachePath(s);
    assert Lists(pairs, Sources(h, f));
    WriteStaleGives(h, f, f, pairs, pyc);
    var out := WriteStale(h, f, f, pairs);
    if Stale(h, f, s) {
      assert s in pairs;
      var t :| t in pairs && h.cachePath(t) == pyc && Some(out[pyc]) == Due(h, f, t);
      assert t in Sources(h, f);
    } else {
      assert forall t :: t in pairs && h.cachePath(t) == pyc ==> t in Sources(h, f) && !Stale(h, f, t);
    }
    assert Current(out, pyc, Due(h, f, s).value) && pyc in Owned(h, f);
  }

  lemma NoExtraLeft(h: Host, f: Files)
    requires h.Listing() && h.Layout()
    ensures Extra(h, Installed(h, f)) == {}
  {
    SourcesStay(h, f);
    var pairs := h.sorted(Sources(h, f));
    assert Lists(pairs, Sources(h, f));
    forall p
      ensures p in Installed(h, f) && h.cached(p) ==> p in Owned(h, f)
    {
      if p !in Owned(h, f) {
        assert forall s :: s in pairs ==> s in Sources(h, f);
        WriteStaleKeeps(h, f, f, pairs, p);
      }
    }
  }

  /** After an installation every cached file belongs to a source, and everything else but the inventory is as it
      was. */
  lemma OrphansAreRemoved(h: Host, f: Files, p: Path)
    requires h.Listing() && h.Layout()
    ensures p in Installed(h, f) && h.cached(p)
            ==> exists s :: s in f && h.managed(s) && h.isPython(s, f[s]) && h.cachePath(s) == p
    ensures !h.cached(p) && p != h.inventory
            ==> (p in Installed(h, f) <==> p in f) && (p in f ==> Installed(h, f)[p] == f[p])
  {
    NoExtraLeft(h, f);
    SourcesStay(h, f);
    if p in Installed(h, f) && h.cached(p) {
      assert p !in Extra(h, Installed(h, f));
      assert p in Owned(h, Installed(h, f));
      var s :| s in Sources(h, Installed(h, f)) && h.cachePath(s) == p;
      assert s in Sources(h, f);
    }
    if !h.cached(p) && p != h.inventory {
      InstalledKeeps(h, f, p);
    }
  }

  /** A check finds no drift exactly when every source has the bytecode it is due, every cached file belongs to a
      source, and the inventory is that of the files. */
  lemma CleanIsExact(h: Host, f: Files)
    requires Compiles(h, f)
    ensures Clean(h, f)
            <==> && (forall s :: s in f && h.managed(s) && h.isPython(s, f[s])
                                 ==> h.cachePath(s) in f && Some(f[h.cachePath(s)]) == Due(h, f, s))
                 && (forall p :: p in f && h.cached(p)
                                 ==> exists s :: s in f && h.managed(s) && h.isPython(s, f[s]) && h.cachePath(s) == p)
                 && Current(f, h.inventory, h.render(Rows(h, f, h.sorted(Sources(h, f)))))
  {
    assert forall s :: s in Sources(h, f) ==> (Stale(h, f, s)
                                               <==> !(h.cachePath(s) in f && Some(f[h.cachePath(s)]) == Due(h, f, s)));
    forall p | p in f && h.cached(p)
      ensures p in Extra(h, f)
              <==> !exists s :: s in f && h.managed(s) && h.isPython(s, f[s]) && h.cachePath(s) == p
    {
      if s :| s in f && h.managed(s) && h.isPython(s, f[s]) && h.cachePath(s) == p {
        assert s in Sources(h, f);
      }
    }
  }

  /** Right after an installation a check reports no drift and a second installation touches nothing, if and only if
      sources that share a bytecode file are due the same bytecode; otherwise every run rewrites that file. */
  lemma InstalledIsClean(h: Host, f: Files)
    requires h.Listing() && h.Layout() && Compiles(h, f)
    ensures Compiles(h, Installed(h, f))
    ensures Clean(h, Installed(h, f)) <==> SharedAgree(h, f)
  {
    var g := Installed(h, f);
    SourcesStay(h, f);
    NoExtraLeft(h, f);
    InventoryStands(h, f);
    forall s | s in Sources(h, f)
      ensures Due(h, g, s) == Due(h, f, s) && (SharedAgree(h, f) ==> !Stale(h, g, s))
    {
      if SharedAgree(h, f) {
        SourceHasItsBytecode(h, f, s);
      }
    }
    if Clean(h, g) {
      forall s | s in Sources(h, f)
        ensures Current(g, h.cachePath(s), Due(h, f, s).value)
      {
        assert !Stale(h, g, s);
      }
    }
  }

  lemma InventoryStands(h: Host, f: Files)
    requires h.Listing() && h.Layout()
    ensures var g, pairs := Installed(h, f), h.sorted(Sources(h, f));
            Current(g, h.inventory, h.render(Rows(h, g, pairs)))
  {
    var pairs := h.sorted(Sources(h, f));
    assert Lists(pairs, Sources(h, f));
    var compiled := WriteStale(h, f, f, pairs) - Extra(h, f);
    var g := Installed(h, f);
    forall k | 0 <= k < |pairs|
      ensures RowOf(h, g, pairs[k]) == RowOf(h, compiled, pairs[k])
    {
      assert pairs[k] in Sources(h, f);
      assert pairs[k] != h.inventory && h.cachePath(pairs[k]) != h.inventory;
    }
    assert Rows(h, g, pairs) == Rows(h, compiled, pairs);
  }

  // ---------------------------------------------------------------- the cache refines compilation

  lemma {:induction false} TrustedNamesASource(h: Host, f: Files, pairs: seq<Path>, pyc: Path) returns (s: Path)
    requires pyc in TrustedRows(Rows(h, f, pairs))
    ensures s in pairs && h.cachePath(s) == pyc
    ensures TrustedRows(Rows(h, f, pairs))[pyc] == RowOf(h, f, s).bytecodeSha
    decreases |pairs|
  {
    var n := |pairs| - 1;
    assert Rows(h, f, pairs)[..n] == Rows(h, f, pairs[..n]);
    if h.cachePath(pairs[n]) == pyc {
      s := pairs[n];
    } else {
      s := TrustedNamesASource(h, f, pairs[..n], pyc);
    }
  }

  ghost predicate NoCollision<T, V(!new)>(hash: T -> V, a: T, b: T) { hash(a) == hash(b) ==> a == b }

  /** Bytecode that is used for `path` was compiled by the installer from a source `s` with that bytecode file,
      from the text that `path` holds now. */
  lemma CachedCodeIsCompiled(h: Host, f: Files, g: Files, path: Path) returns (s: Path)
    requires h.Listing() && h.Layout() && h.Codec() && SharedAgree(h, f) && Compiles(h, f)
    requires Current(g, h.inventory, Installed(h, f)[h.inventory]) && path in g
    requires CachedCode(h, g, path, g[path]).Some?
    requires forall pyc :: pyc in g && pyc in Installed(h, f) ==> NoCollision(h.sha, g[pyc], Installed(h, f)[pyc])
    requires forall t :: t in Sources(h, f) ==> NoCollision(h.sourceHash, g[path], f[t])
    ensures s in Sources(h, f) && h.cachePath(s) == h.cachePath(path) && f[s] == g[path]
    ensures CachedCode(h, g, path, g[path]) == h.compile(s, g[path])
  {
    var installed, pyc := Installed(h, f), h.cachePath(path);
    var pairs := h.sorted(Sources(h, f));
    assert Lists(pairs, Sources(h, f));
    InventoryStands(h, f);
    assert Trusted(h, g) == TrustedRows(Rows(h, installed, pairs));
    s := TrustedNamesASource(h, installed, pairs, pyc);
    assert s in Sources(h, f);
    SourceHasItsBytecode(h, f, s);
    assert h.sha(g[pyc]) == h.sha(installed[pyc]);
    assert g[pyc] == installed[pyc] == Due(h, f, s).value;
    assert h.sourceHash(g[path]) == h.sourceHash(f[s]);
    assert g[path] == f[s];
  }

  lemma SameBytecode(h: Host, a: Code, source: Bytes, b: Code, other: Bytes)
    requires h.Codec() && Pyc(h, a, source) == Pyc(h, b, other)
    ensures a == b && h.sourceHash(source) == h.sourceHash(other)
  {
    assert |h.sourceHash(source)| == 8 && |h.sourceHash(other)| == 8;
    assert Pyc(h, a, source)[8..16] == h.sourceHash(source) && Pyc(h, b, other)[8..16] == h.sourceHash(other);
    assert Pyc(h, a, source)[16..] == h.marshal(a) && Pyc(h, b, other)[16..] == h.marshal(b);
    assert h.unmarshal(h.marshal(a)) == h.unmarshal(h.marshal(b));
  }

  /** Whatever happens to bytecode and sources after an installation, the inventory untouched and no hash
      colliding: loading a hook is compiling it.  (A file that was no source of the installation and shares its
      bytecode file with one must compile like it.) */
  lemma LoadingIsCompiling(h: Host, f: Files, g: Files, path: Path)
    requires h.Listing() && h.Layout() && h.Codec() && SharedAgree(h, f) && Compiles(h, f)
    requires Current(g, h.inventory, Installed(h, f)[h.inventory]) && path in g
    requires forall pyc :: pyc in g && pyc in Installed(h, f) ==> NoCollision(h.sha, g[pyc], Installed(h, f)[pyc])
    requires forall t :: t in Sources(h, f) ==> NoCollision(h.sourceHash, g[path], f[t])
    requires path !in Sources(h, f) ==>
               forall s :: s in Sources(h, f) && h.cachePath(s) == h.cachePath(path)
                           ==> h.compile(s, g[path]) == h.compile(path, g[path])
    ensures LoadCode(h, g, path) == h.compile(path, g[path])
  {
    if CachedCode(h, g, path, g[path]).Some? {
      var s := CachedCodeIsCompiled(h, f, g, path);
      if path in Sources(h, f) {
        SameBytecode(h, h.compile(s, f[s]).value, f[s], h.compile(path, f[path]).value, f[path]);
      }
    }
  }

  /** Right after the installation the bytecode of every source is used. */
  lemma InstalledBytecodeIsUsed(h: Host, f: Files, s: Path)
    requires h.Listing() && h.Layout() && h.Codec() && SharedAgree(h, f) && Compiles(h, f) && s in Sources(h, f)
    ensures CachedCode(h, Installed(h, f), s, f[s]).Some?
  {
    var g, pairs := Installed(h, f), h.sorted(Sources(h, f));
    assert Lists(pairs, Sources(h, f));
    InventoryStands(h, f);
    SourceHasItsBytecode(h, f, s);
    var k :| 0 <= k < |pairs| && pairs[k] == s;
    TrustedHasEverySource(h, g, pairs, k);
    var t := TrustedNamesASource(h, g, pairs, h.cachePath(s));
    assert t in Sources(h, f);
  }

  lemma {:induction false} TrustedHasEverySource(h: Host, f: Files, pairs: seq<Path>, k: nat)
    requires k < |pairs|
    ensures h.cachePath(pairs[k]) in TrustedRows(Rows(h, f, pairs))
    decreases |pairs|
  {
    var n := |pairs| - 1;
    assert Rows(h, f, pairs)[..n] == Rows(h, f, pairs[..n]);
    if k < n {
      TrustedHasEverySource(h, f, pairs[..n], k);
    }
  }
}
