/**
 The import loader (internal/module/loader.go): a depth-first walk over the import graph that refuses cycles and
 compiles every library once.  Finding, reading, parsing and compiling one file are taken to succeed.
 */
module Loader {
  type Path = string
  type Alias = string

  datatype Import = Import(path: Path, alias: Alias)

  /** What compiling a library leaves behind; there is one compilation of each. */
  datatype Exports = Exports(lib: Path)

  datatype Setup = Setup(alias: Alias, exports: Exports)

  /** The path imports of every file, resolved. */
  type Files = map<Path, seq<Import>>

  ghost predicate Closed(files: Files) {
    forall p, i :: p in files && 0 <= i < |files[p]| ==> files[p][i].path in files
  }

  /** Libraries in the order they were compiled, setups in the order they were collected. */
  datatype Loaded = Loaded(order: seq<Path>, setups: seq<Setup>)

  datatype Outcome = Ok(st: Loaded) | Cycle

  function AddSetup(st: Loaded, imp: Import): Loaded {
    st.(setups := st.setups + [Setup(imp.alias, Exports(imp.path))])
  }

  ghost function Visit(files: Files, path: Path, isLib: bool, stack: set<Path>, st: Loaded): Outcome
    requires Closed(files) && path in files
    decreases files.Keys - stack, 0
  {
    if path in stack then Cycle
    else if isLib && path in st.order then Ok(st)
    else
      assert files.Keys - (stack + {path}) < files.Keys - stack by {
        assert path in files.Keys - stack && path !in files.Keys - (stack + {path});
      }
      var r := VisitAll(files, files[path], stack + {path}, st);
      if r.Cycle? then Cycle else if isLib then Ok(r.st.(order := r.st.order + [path])) else r
  }

  ghost function VisitAll(files: Files, imps: seq<Import>, stack: set<Path>, st: Loaded): Outcome
    requires Closed(files) && forall i :: 0 <= i < |imps| ==> imps[i].path in files
    decreases files.Keys - stack, |imps| + 1
  {
    if imps == [] then Ok(st) else
    var r := Visit(files, imps[0].path, true, stack, st);
    if r.Cycle? then Cycle else VisitAll(files, imps[1..], stack, AddSetup(r.st, imps[0]))
  }

  ghost function Load(files: Files, entry: Path): Outcome
    requires Closed(files) && entry in files
  {
    Visit(files, entry, false, {}, Loaded([], []))
  }

  // ---- walks ----

  predicate Imports(files: Files, p: Path, q: Path) {
    p in files && exists i :: 0 <= i < |files[p]| && files[p][i].path == q
  }

  ghost predicate Walk(files: Files, w: seq<Path>) {
    w != [] && forall i :: 0 <= i < |w| - 1 ==> Imports(files, w[i], w[i + 1])
  }

  predicate Repeats(w: seq<Path>) { exists i, j :: 0 <= i < j < |w| && w[i] == w[j] }

  ghost predicate CycleFrom(files: Files, entry: Path) { exists w :: Walk(files, w) && w[0] == entry && Repeats(w) }

  /** q is reached from p in one import or more. */
  ghost predicate Reaches(files: Files, p: Path, q: Path) {
    exists w :: Walk(files, w) && |w| >= 2 && w[0] == p && w[|w| - 1] == q
  }

  // ---- a refusal shows a cycle ----

  lemma {:induction false} VisitRefuses(files: Files, chain: seq<Path>, path: Path, isLib: bool,
    st: Loaded) returns (w: seq<Path>)
    requires Closed(files) && path in files && Walk(files, chain + [path])
    requires Visit(files, path, isLib, Elems(chain), st).Cycle?
    ensures Walk(files, w) && w[0] == (chain + [path])[0] && Repeats(w)
    decreases files.Keys - Elems(chain), 0
  {
    w := chain + [path];
    if path in Elems(chain) {
      var i :| 0 <= i < |chain| && chain[i] == path;
      assert w[i] == w[|chain|];
    } else {
      assert Elems(w) == Elems(chain) + {path} by {
        ElemsMore(chain, path);
      }
      assert path in files.Keys - Elems(chain);
      forall i | 0 <= i < |files[path]|
        ensures Imports(files, path, files[path][i].path)
      {
      }
      w := VisitAllRefuses(files, w, files[path], st);
    }
  }

  lemma {:induction false} VisitAllRefuses(files: Files, chain: seq<Path>, imps: seq<Import>,
    st: Loaded) returns (w: seq<Path>)
    requires Closed(files) && Walk(files, chain)
    requires forall i :: 0 <= i < |imps| ==> imps[i].path in files && Imports(files, chain[|chain| - 1], imps[i].path)
    requires VisitAll(files, imps, Elems(chain), st).Cycle?
    ensures Walk(files, w) && w[0] == chain[0] && Repeats(w)
    decreases files.Keys - Elems(chain), |imps| + 1
  {
    var r := Visit(files, imps[0].path, true, Elems(chain), st);
    if r.Cycle? {
      w := VisitRefuses(files, chain, imps[0].path, true, st);
    } else {
      w := VisitAllRefuses(files, chain, imps[1..], AddSetup(r.st, imps[0]));
    }
  }

  function Elems(s: seq<Path>): set<Path> { set x | x in s }

  lemma ElemsMore(s: seq<Path>, x: Path)
    ensures Elems(s + [x]) == Elems(s) + {x}
  {
  }

  // ---- what a load that succeeds has done ----

  predicate Distinct(s: seq<Path>) { forall i, j :: 0 <= i < j < |s| ==> s[i] != s[j] }

  /** Every library was compiled once, after all it imports, outside the files being visited. */
  ghost predicate Layered(files: Files, stack: set<Path>, order: seq<Path>) {
    && Distinct(order)
    && (forall p :: p in order ==> p in files && p !in stack)
    && forall i, q :: 0 <= i < |order| && Imports(files, order[i], q) ==> q in order[..i]
  }

  ghost predicate SetUp(files: Files, p: Path, setups: seq<Setup>) {
    p in files && forall i :: 0 <= i < |files[p]| ==> Setup(files[p][i].alias, Exports(files[p][i].path)) in setups
  }

  /** Every import of every compiled library has its setup, and every setup is of a compiled library. */
  ghost predicate AllSetUp(files: Files, st: Loaded) {
    && (forall p :: p in st.order ==> SetUp(files, p, st.setups))
    && forall x :: x in st.setups ==> x.exports.lib in st.order
  }

  ghost predicate Good(files: Files, stack: set<Path>, st: Loaded) {
    Layered(files, stack, st.order) && AllSetUp(files, st)
  }

  ghost predicate Extends(a: Loaded, b: Loaded) { a.order <= b.order && a.setups <= b.setups }

  ghost predicate ImportsAll(files: Files, p: Path, imps: seq<Import>) {
    forall i :: 0 <= i < |imps| ==> imps[i].path in files && Imports(files, p, imps[i].path)
  }

  ghost predicate Listed(imps: seq<Import>, st: Loaded) {
    forall i :: 0 <= i < |imps| ==> imps[i].path in st.order && Setup(imps[i].alias, Exports(imps[i].path)) in st.setups
  }

  lemma {:induction false} VisitGood(files: Files, path: Path, stack: set<Path>, st: Loaded)
    requires Closed(files) && path in files && Good(files, stack, st) && Visit(files, path, true, stack, st).Ok?
    ensures var t := Visit(files, path, true, stack, st).st;
      && Extends(st, t) && Good(files, stack, t) && path in t.order
      && forall q :: q in t.order && q !in st.order ==> q == path || Reaches(files, path, q)
    decreases files.Keys - stack, 0
  {
    hide Good, Reaches;
    if path !in st.order {
      assert path in files.Keys - stack;
      var up := stack + {path};
      Raise(files, stack, path, st);
      forall i | 0 <= i < |files[path]|
        ensures Imports(files, path, files[path][i].path)
      {
      }
      VisitAllGood(files, path, files[path], up, st);
      Compiled(files, stack, path, VisitAll(files, files[path], up, st).st);
    }
  }

  /** A file that is not compiled may go on the stack. */
  lemma {:induction false} Raise(files: Files, stack: set<Path>, path: Path, st: Loaded)
    requires Good(files, stack, st) && path !in st.order
    ensures Good(files, stack + {path}, st)
  {
  }

  /** With all its imports compiled, it is compiled and leaves the stack. */
  lemma {:induction false} Compiled(files: Files, stack: set<Path>, path: Path, st: Loaded)
    requires path in files && path !in stack && Good(files, stack + {path}, st) && Listed(files[path], st)
    ensures Good(files, stack, st.(order := st.order + [path]))
  {
    var order := st.order + [path];
    forall i, q | 0 <= i < |order| && Imports(files, order[i], q)
      ensures q in order[..i]
    {
      if i < |st.order| {
        assert order[i] == st.order[i];
        assert q in st.order[..i];
        assert order[..i] == st.order[..i];
      } else {
        var k :| 0 <= k < |files[path]| && files[path][k].path == q;
        assert order[..i] == st.order;
      }
    }
  }

  lemma {:induction false} VisitAllGood(files: Files, p: Path, imps: seq<Import>, stack: set<Path>, st: Loaded)
    requires Closed(files) && ImportsAll(files, p, imps) && Good(files, stack, st)
      && VisitAll(files, imps, stack, st).Ok?
    ensures var t := VisitAll(files, imps, stack, st).st;
      && Extends(st, t) && Good(files, stack, t) && Listed(imps, t)
      && forall q :: q in t.order && q !in st.order ==> Reaches(files, p, q)
    decreases files.Keys - stack, |imps| + 1
  {
    hide Good, Reaches, Imports;
    if imps != [] {
      var imp := imps[0];
      var a := Visit(files, imp.path, true, stack, st).st;
      VisitGood(files, imp.path, stack, st);
      var b := AddSetup(a, imp);
      SetupGood(files, stack, a, imp);
      VisitAllGood(files, p, imps[1..], stack, b);
      var t := VisitAll(files, imps, stack, st).st;
      assert t == VisitAll(files, imps[1..], stack, b).st;
      forall q | q in t.order && q !in st.order
        ensures Reaches(files, p, q)
      {
        if q in b.order {
          ReachesOn(files, p, imp.path, q);
        }
      }
      assert Setup(imp.alias, Exports(imp.path)) in b.setups;
      forall i | 0 <= i < |imps|
        ensures imps[i].path in t.order && Setup(imps[i].alias, Exports(imps[i].path)) in t.setups
      {
        if i > 0 {
          assert imps[i] == imps[1..][i - 1];
        }
      }
    }
  }

  lemma {:induction false} SetupGood(files: Files, stack: set<Path>, st: Loaded, imp: Import)
    requires Good(files, stack, st) && imp.path in st.order
    ensures Good(files, stack, AddSetup(st, imp)) && Extends(st, AddSetup(st, imp))
  {
  }

  lemma {:induction false} ReachesOn(files: Files, p: Path, m: Path, q: Path)
    requires Imports(files, p, m) && (q == m || Reaches(files, m, q))
    ensures Reaches(files, p, q)
  {
    hide Imports;
    if q == m {
      var w := [p, m];
      assert Walk(files, w) && w[0] == p && w[|w| - 1] == q;
    } else {
      var v :| Walk(files, v) && |v| >= 2 && v[0] == m && v[|v| - 1] == q;
      var w := [p] + v;
      forall i | 0 <= i < |w| - 1
        ensures Imports(files, w[i], w[i + 1])
      {
        if i > 0 {
          assert Imports(files, v[i - 1], v[i]);
        }
      }
      assert Walk(files, w) && w[0] == p && w[|w| - 1] == q;
    }
  }

  /** From a compiled library, a walk only goes to libraries compiled before it. */
  lemma {:induction false} WalkDown(files: Files, stack: set<Path>, order: seq<Path>, w: seq<Path>, i: nat, k: nat,
    at: nat)
    requires Layered(files, stack, order) && Walk(files, w) && i < k < |w| && at < |order| && w[i] == order[at]
    ensures w[k] in order[..at]
    decreases k
  {
    hide Imports;
    if k == i + 1 {
      assert Imports(files, w[i], w[i + 1]);
    } else {
      WalkDown(files, stack, order, w, i, k - 1, at);
      var m :| 0 <= m < at && order[m] == w[k - 1];
      assert Imports(files, w[k - 1], w[k - 1 + 1]);
      assert w[k] in order[..m];
    }
  }

  /** Every file a walk from the entry gets to is compiled. */
  lemma {:induction false} WalkIn(files: Files, stack: set<Path>, entry: Path, st: Loaded, w: seq<Path>, k: nat)
    requires Layered(files, stack, st.order) && entry in files && Listed(files[entry], st)
    requires Walk(files, w) && w[0] == entry && 0 < k < |w|
    ensures w[k] in st.order
    decreases k
  {
    assert Imports(files, w[k - 1], w[k - 1 + 1]);
    if k == 1 {
      var i :| 0 <= i < |files[entry]| && files[entry][i].path == w[1];
    } else {
      WalkIn(files, stack, entry, st, w, k - 1);
      var m :| 0 <= m < |st.order| && st.order[m] == w[k - 1];
    }
  }

  lemma {:induction false} LoadGood(files: Files, entry: Path)
    requires Closed(files) && entry in files && Load(files, entry).Ok?
    ensures var t := Load(files, entry).st;
      Good(files, {entry}, t) && Listed(files[entry], t) && forall q :: q in t.order ==> Reaches(files, entry, q)
  {
    hide Reaches;
    var none := Loaded([], []);
    assert Good(files, {entry}, none);
    forall i | 0 <= i < |files[entry]|
      ensures Imports(files, entry, files[entry][i].path)
    {
    }
    assert {} + {entry} == {entry};
    VisitAllGood(files, entry, files[entry], {entry}, none);
  }

  /** Loading fails exactly when the entry imports its way into a cycle. */
  lemma {:induction false} CycleExact(files: Files, entry: Path)
    requires Closed(files) && entry in files
    ensures Load(files, entry).Cycle? <==> CycleFrom(files, entry)
  {
    if Load(files, entry).Cycle? {
      assert [] + [entry] == [entry];
      assert Elems([]) == {};
      var w := VisitRefuses(files, [], entry, false, Loaded([], []));
    } else {
      LoadGood(files, entry);
      var t := Load(files, entry).st;
      forall w | Walk(files, w) && w[0] == entry && Repeats(w)
        ensures false
      {
        var i, j :| 0 <= i < j < |w| && w[i] == w[j];
        WalkIn(files, {entry}, entry, t, w, j);
        if i > 0 {
          var at :| 0 <= at < |t.order| && t.order[at] == w[i];
          WalkDown(files, {entry}, t.order, w, i, j, at);
        }
      }
    }
  }

  /**
   A load that succeeds compiles exactly the libraries the entry reaches, each once and after all it imports, and
   collects a setup for every import of the entry and of those libraries, each of a compiled library.
   */
  lemma {:induction false} LoadComplete(files: Files, entry: Path)
    requires Closed(files) && entry in files && Load(files, entry).Ok?
    ensures var t := Load(files, entry).st;
      && Distinct(t.order)
      && (forall q :: q in t.order <==> Reaches(files, entry, q))
      && (forall i, q :: 0 <= i < |t.order| && Imports(files, t.order[i], q) ==> q in t.order[..i])
      && SetUp(files, entry, t.setups) && AllSetUp(files, t)
  {
    LoadGood(files, entry);
    var t := Load(files, entry).st;
    forall q | Reaches(files, entry, q)
      ensures q in t.order
    {
      var w :| Walk(files, w) && |w| >= 2 && w[0] == entry && w[|w| - 1] == q;
      WalkIn(files, {entry}, entry, t, w, |w| - 1);
    }
  }

  // ---- merging the setups ----

  /** The index of the setup with that alias, |s| when there is none. */
  function Slot(s: seq<Setup>, alias: Alias): (i: nat)
    ensures i <= |s|
    ensures i < |s| ==> s[i].alias == alias
    ensures forall k :: 0 <= k < i ==> s[k].alias != alias
  {
    if s == [] || s[0].alias == alias then 0 else 1 + Slot(s[1..], alias)
  }

  function Merge1(out: seq<Setup>, x: Setup): seq<Setup> {
    var i := Slot(out, x.alias);
    if i < |out| then out[i := x] else out + [x]
  }

  lemma {:induction false} SlotIs(s: seq<Setup>, a: Alias, i: nat)
    requires i <= |s| && (i < |s| ==> s[i].alias == a) && forall k :: 0 <= k < i ==> s[k].alias != a
    ensures Slot(s, a) == i
  {
  }

  /** Putting a setup moves no alias from its slot. */
  lemma {:induction false} SlotPut(s: seq<Setup>, x: Setup)
    ensures forall a :: Slot(Merge1(s, x), a) == if Slot(s, a) < |s| then Slot(s, a) else if a == x.alias then |s|
      else |Merge1(s, x)|
  {
    var t := Merge1(s, x);
    forall a
      ensures Slot(t, a) == if Slot(s, a) < |s| then Slot(s, a) else if a == x.alias then |s| else |t|
    {
      SlotIs(t, a, if Slot(s, a) < |s| then Slot(s, a) else if a == x.alias then |s| else |t|);
    }
  }

  function Merged(s: seq<Setup>): seq<Setup> { if s == [] then [] else Merge1(Merged(s[..|s| - 1]), s[|s| - 1]) }

  /** What the entry's preamble leaves in the globals: each setup assigned in turn. */
  function Replay(s: seq<Setup>): map<Alias, Exports> {
    if s == [] then map[] else Replay(s[..|s| - 1])[s[|s| - 1].alias := s[|s| - 1].exports]
  }

  predicate OneEach(s: seq<Setup>) { forall i, j :: 0 <= i < j < |s| ==> s[i].alias != s[j].alias }

  lemma {:induction false} ReplayOne(s: seq<Setup>, i: nat)
    requires OneEach(s) && i < |s|
    ensures s[i].alias in Replay(s) && Replay(s)[s[i].alias] == s[i].exports
    decreases |s|
  {
    if i < |s| - 1 {
      ReplayOne(s[..|s| - 1], i);
    }
  }

  lemma {:induction false} ReplayIn(s: seq<Setup>, a: Alias)
    ensures a in Replay(s) <==> exists i :: 0 <= i < |s| && s[i].alias == a
    decreases |s|
  {
    if s != [] {
      ReplayIn(s[..|s| - 1], a);
    }
  }

  lemma {:induction false} ReplayPut(s: seq<Setup>, x: Setup)
    requires OneEach(s)
    ensures OneEach(Merge1(s, x)) && Replay(Merge1(s, x)) == Replay(s)[x.alias := x.exports]
  {
    var i := Slot(s, x.alias);
    var t := Merge1(s, x);
    if i < |s| {
      forall a
        ensures a in Replay(t) <==> a in Replay(s)
        ensures a in Replay(t) ==> Replay(t)[a] == if a == x.alias then x.exports else Replay(s)[a]
      {
        ReplayIn(s, a);
        ReplayIn(t, a);
        forall k | 0 <= k < |s|
          ensures t[k].alias == s[k].alias
        {
        }
        if a in Replay(t) {
          var k :| 0 <= k < |t| && t[k].alias == a;
          assert s[k].alias == a;
          ReplayOne(s, k);
          ReplayOne(t, k);
        }
      }
      ReplayIn(s, x.alias);
    } else {
      assert t[..|t| - 1] == s;
    }
  }

  /** Merging keeps one setup an alias, the last, and the globals are the same as without it. */
  lemma {:induction false} MergeKeeps(s: seq<Setup>)
    ensures OneEach(Merged(s)) && Replay(Merged(s)) == Replay(s)
    decreases |s|
  {
    if s != [] {
      MergeKeeps(s[..|s| - 1]);
      ReplayPut(Merged(s[..|s| - 1]), s[|s| - 1]);
    }
  }

  // ---- which import an alias stands for ----

  /** Library p is one of those, and imports q under the alias. */
  ghost predicate ImportsAs(files: Files, libs: seq<Path>, alias: Alias, q: Path) {
    exists p, i :: p in libs && p in files && 0 <= i < |files[p]| && files[p][i] == Import(q, alias)
  }

  ghost predicate OneOf(imps: seq<Import>, x: Setup) {
    exists i :: 0 <= i < |imps| && x == Setup(imps[i].alias, Exports(imps[i].path))
  }

  /** What a visit adds: the setups of the imports of the libraries it compiles. */
  ghost predicate Adds(files: Files, imps: seq<Import>, a: Loaded, b: Loaded) {
    && Extends(a, b)
    && forall x :: x in b.setups[|a.setups|..] <==>
      OneOf(imps, x) || ImportsAs(files, b.order[|a.order|..], x.alias, x.exports.lib)
  }

  lemma {:induction false} VisitAdds(files: Files, path: Path, stack: set<Path>, st: Loaded)
    requires Closed(files) && path in files && Visit(files, path, true, stack, st).Ok?
    ensures Adds(files, [], st, Visit(files, path, true, stack, st).st)
    decreases files.Keys - stack, 0
  {
    hide Adds, VisitAll;
    var t := Visit(files, path, true, stack, st).st;
    if path in st.order {
      NothingAdded(files, st);
    } else {
      assert path in files.Keys - stack;
      var r := VisitAll(files, files[path], stack + {path}, st).st;
      VisitAllAdds(files, files[path], stack + {path}, st);
      CompiledAdds(files, path, st, r);
    }
  }

  lemma NothingAdded(files: Files, st: Loaded)
    ensures Adds(files, [], st, st)
  {
    assert st.setups[|st.setups|..] == [] && st.order[|st.order|..] == [];
  }

  /** The imports of a library are its own once it is compiled. */
  lemma {:induction false} CompiledAdds(files: Files, path: Path, a: Loaded, b: Loaded)
    requires path in files && Adds(files, files[path], a, b)
    ensures Adds(files, [], a, b.(order := b.order + [path]))
  {
    var c := b.(order := b.order + [path]);
    var was, libs := b.order[|a.order|..], c.order[|a.order|..];
    assert libs == was + [path];
    forall x: Setup
      ensures ImportsAs(files, libs, x.alias, x.exports.lib) <==>
        ImportsAs(files, was, x.alias, x.exports.lib) || OneOf(files[path], x)
    {
      MoreLibs(files, was, path, x);
    }
  }

  lemma {:induction false} MoreLibs(files: Files, libs: seq<Path>, path: Path, x: Setup)
    requires path in files
    ensures ImportsAs(files, libs + [path], x.alias, x.exports.lib) <==>
      ImportsAs(files, libs, x.alias, x.exports.lib) || OneOf(files[path], x)
  {
    if OneOf(files[path], x) {
      var i :| 0 <= i < |files[path]| && x == Setup(files[path][i].alias, Exports(files[path][i].path));
      assert path in libs + [path] && files[path][i] == Import(x.exports.lib, x.alias);
    }
    if ImportsAs(files, libs, x.alias, x.exports.lib) {
      var p, i :| p in libs && p in files && 0 <= i < |files[p]| && files[p][i] == Import(x.exports.lib, x.alias);
      assert p in libs + [path];
    }
  }

  lemma {:induction false} VisitAllAdds(files: Files, imps: seq<Import>, stack: set<Path>, st: Loaded)
    requires Closed(files) && (forall i :: 0 <= i < |imps| ==> imps[i].path in files)
    requires VisitAll(files, imps, stack, st).Ok?
    ensures Adds(files, imps, st, VisitAll(files, imps, stack, st).st)
    decreases files.Keys - stack, |imps| + 1
  {
    hide Adds, Visit;
    if imps == [] {
      NothingAdded(files, st);
    } else {
      var a := Visit(files, imps[0].path, true, stack, st).st;
      var b := AddSetup(a, imps[0]);
      VisitAdds(files, imps[0].path, stack, st);
      VisitAllAdds(files, imps[1..], stack, b);
      AddsBoth(files, imps, st, a, VisitAll(files, imps[1..], stack, b).st);
    }
  }

  lemma {:induction false} AddsBoth(files: Files, imps: seq<Import>, st: Loaded, a: Loaded, t: Loaded)
    requires imps != [] && Adds(files, [], st, a) && Adds(files, imps[1..], AddSetup(a, imps[0]), t)
    ensures Adds(files, imps, st, t)
  {
    var b := AddSetup(a, imps[0]);
    var n, m := |st.setups|, |b.setups|;
    var own := Setup(imps[0].alias, Exports(imps[0].path));
    assert t.setups[n..] == a.setups[n..] + [own] + t.setups[m..] by {
      assert t.setups[..m] == b.setups;
      assert t.setups == b.setups + t.setups[m..];
    }
    var k := |st.order|;
    var first, second := a.order[k..], t.order[|b.order|..];
    assert t.order[k..] == first + second by {
      assert t.order == b.order + t.order[|b.order|..];
    }
    forall x: Setup
      ensures x in t.setups[n..] <==> OneOf(imps, x) || ImportsAs(files, t.order[k..], x.alias, x.exports.lib)
    {
      OneOfSplit(imps, x);
      LibsSplit(files, first, second, x);
      assert x in a.setups[n..] <==> OneOf([], x) || ImportsAs(files, first, x.alias, x.exports.lib);
      assert x in t.setups[m..] <==> OneOf(imps[1..], x) || ImportsAs(files, second, x.alias, x.exports.lib);
    }
  }

  lemma OneOfSplit(imps: seq<Import>, x: Setup)
    requires imps != []
    ensures OneOf(imps, x) <==> x == Setup(imps[0].alias, Exports(imps[0].path)) || OneOf(imps[1..], x)
  {
    if OneOf(imps[1..], x) {
      var i :| 0 <= i < |imps[1..]| && x == Setup(imps[1..][i].alias, Exports(imps[1..][i].path));
      assert imps[i + 1] == imps[1..][i];
    }
    if OneOf(imps, x) {
      var i :| 0 <= i < |imps| && x == Setup(imps[i].alias, Exports(imps[i].path));
      if i > 0 {
        assert imps[1..][i - 1] == imps[i];
      }
    }
  }

  lemma LibsSplit(files: Files, a: seq<Path>, b: seq<Path>, x: Setup)
    ensures ImportsAs(files, a + b, x.alias, x.exports.lib) <==>
      ImportsAs(files, a, x.alias, x.exports.lib) || ImportsAs(files, b, x.alias, x.exports.lib)
  {
    if ImportsAs(files, a, x.alias, x.exports.lib) {
      var p, i :| p in a && p in files && 0 <= i < |files[p]| && files[p][i] == Import(x.exports.lib, x.alias);
      assert p in a + b;
    }
    if ImportsAs(files, b, x.alias, x.exports.lib) {
      var p, i :| p in b && p in files && 0 <= i < |files[p]| && files[p][i] == Import(x.exports.lib, x.alias);
      assert p in a + b;
    }
  }

  /** Imports are followed in the order they stand in. */
  lemma {:induction false} VisitAllSplit(files: Files, imps: seq<Import>, k: nat, stack: set<Path>, st: Loaded)
    requires Closed(files) && k <= |imps| && (forall i :: 0 <= i < |imps| ==> imps[i].path in files)
    requires VisitAll(files, imps, stack, st).Ok?
    ensures VisitAll(files, imps[..k], stack, st).Ok?
    ensures VisitAll(files, imps, stack, st) ==
      VisitAll(files, imps[k..], stack, VisitAll(files, imps[..k], stack, st).st)
    decreases k
  {
    if k == 0 {
      assert imps[..0] == [] && imps[0..] == imps;
    } else {
      var r := Visit(files, imps[0].path, true, stack, st);
      VisitAllSplit(files, imps[1..], k - 1, stack, AddSetup(r.st, imps[0]));
      assert imps[..k][1..] == imps[1..][..k - 1] && imps[..k][0] == imps[0] && imps[1..][k - 1..] == imps[k..];
    }
  }

  /** The last setup of an alias is the one that counts. */
  lemma {:induction false} ReplayMore(s: seq<Setup>, more: seq<Setup>, a: Alias)
    ensures (forall x :: x in more ==> x.alias != a) ==>
      (a in Replay(s + more) <==> a in Replay(s)) && (a in Replay(s) ==> Replay(s + more)[a] == Replay(s)[a])
    ensures (exists x :: x in more && x.alias == a) ==>
      a in Replay(s + more) && exists x :: x in more && x.alias == a && Replay(s + more)[a] == x.exports
    decreases |more|
  {
    if more == [] {
      assert s + more == s;
    } else {
      var n := |more| - 1;
      assert (s + more)[..|s + more| - 1] == s + more[..n] && (s + more)[|s + more| - 1] == more[n];
      ReplayMore(s, more[..n], a);
      assert more == more[..n] + [more[n]];
      if more[n].alias != a && exists x :: x in more && x.alias == a {
        var x :| x in more && x.alias == a;
        assert x in more[..n];
      }
    }
  }

  /** Compiled for the first time behind the entry's i-th import: reached, but from none of the imports up to it. */
  ghost predicate Behind(files: Files, entry: Path, i: nat, p: Path)
    requires entry in files && i < |files[entry]|
  {
    Reaches(files, entry, p)
    && forall k :: 0 <= k <= i ==> p != files[entry][k].path && !Reaches(files, files[entry][k].path, p)
  }

  /** Some library compiled behind it imports q under the alias. */
  ghost predicate Shadows(files: Files, entry: Path, i: nat, alias: Alias, q: Path)
    requires entry in files && i < |files[entry]|
  {
    exists p, j :: Behind(files, entry, i, p) && p in files && 0 <= j < |files[p]| && files[p][j] == Import(q, alias)
  }

  /** The loader has compiled exactly those libraries after the first imports. */
  lemma {:induction false} EarlyOrder(files: Files, entry: Path, i: nat, p: Path)
    requires Closed(files) && entry in files && i < |files[entry]| && Load(files, entry).Ok?
    ensures VisitAll(files, files[entry][..i + 1], {entry}, Loaded([], [])).Ok?
    ensures p in VisitAll(files, files[entry][..i + 1], {entry}, Loaded([], [])).st.order <==>
      exists k :: 0 <= k <= i && (p == files[entry][k].path || Reaches(files, files[entry][k].path, p))
  {
    hide Reaches, Good, Imports;
    var imps, none := files[entry], Loaded([], []);
    assert {} + {entry} == {entry};
    VisitAllSplit(files, imps, i + 1, {entry}, none);
    EarlyGood(files, entry, i + 1, p);
    var early := VisitAll(files, imps[..i + 1], {entry}, none).st;
    if k :| 0 <= k <= i && (p == imps[k].path || Reaches(files, imps[k].path, p)) {
      assert imps[..i + 1][k] == imps[k];
      var at :| 0 <= at < |early.order| && early.order[at] == imps[k].path;
      if p != imps[k].path {
        DownIn(files, {entry}, early, imps[k].path, at, p);
      }
    }
  }

  lemma {:induction false} DownIn(files: Files, stack: set<Path>, st: Loaded, m: Path, at: nat, p: Path)
    requires Good(files, stack, st) && at < |st.order| && st.order[at] == m && Reaches(files, m, p)
    ensures p in st.order
  {
    var w :| Walk(files, w) && |w| >= 2 && w[0] == m && w[|w| - 1] == p;
    WalkDown(files, stack, st.order, w, 0, |w| - 1, at);
  }

  /** After k imports the compiled libraries are those imported and those they reach. */
  lemma {:induction false} EarlyGood(files: Files, entry: Path, k: nat, p: Path)
    requires Closed(files) && entry in files && k <= |files[entry]|
    requires VisitAll(files, files[entry][..k], {entry}, Loaded([], [])).Ok?
    ensures var t := VisitAll(files, files[entry][..k], {entry}, Loaded([], [])).st;
      && Good(files, {entry}, t) && Listed(files[entry][..k], t)
      && (p in t.order ==>
            exists j :: 0 <= j < k && (p == files[entry][j].path || Reaches(files, files[entry][j].path, p)))
    decreases k
  {
    hide Reaches, Imports;
    var none := Loaded([], []);
    var imps := files[entry];
    assert Good(files, {entry}, none);
    ImportsOwn(files, entry, k);
    hide Good;
    VisitAllGood(files, entry, imps[..k], {entry}, none);
    if k > 0 {
      assert imps[..k][..k - 1] == imps[..k - 1] && imps[..k][k - 1..] == [imps[k - 1]];
      VisitAllSplit(files, imps[..k], k - 1, {entry}, none);
      EarlyGood(files, entry, k - 1, p);
      var a := VisitAll(files, imps[..k - 1], {entry}, none).st;
      assert [imps[k - 1]][1..] == [];
      VisitGood(files, imps[k - 1].path, {entry}, a);
    }
  }

  lemma ImportsOwn(files: Files, entry: Path, k: nat)
    requires Closed(files) && entry in files && k <= |files[entry]|
    ensures ImportsAll(files, entry, files[entry][..k])
  {
    forall i | 0 <= i < k
      ensures files[entry][..k][i].path in files && Imports(files, entry, files[entry][..k][i].path)
    {
      assert files[entry][i].path == files[entry][..k][i].path;
    }
  }

  /**
   An import of the entry, the last under its alias, is what the alias stands for when the entry runs, as long as no
   library compiled behind it imports another under that alias; when those all import others, it is exactly then.
   */
  lemma {:induction false} EntryWinsExact(files: Files, entry: Path, i: nat)
    requires Closed(files) && entry in files && i < |files[entry]| && Load(files, entry).Ok?
    requires forall j :: i < j < |files[entry]| ==> files[entry][j].alias != files[entry][i].alias
    ensures var imp, globals := files[entry][i], Replay(Load(files, entry).st.setups);
      && imp.alias in globals
      && ((forall q :: Shadows(files, entry, i, imp.alias, q) ==> q == imp.path) ==>
            globals[imp.alias] == Exports(imp.path))
      && (!Shadows(files, entry, i, imp.alias, imp.path) ==>
            (globals[imp.alias] == Exports(imp.path) <==>
              forall q :: !Shadows(files, entry, i, imp.alias, q)))
  {
    hide Reaches, Good, Imports, VisitAll, Replay;
    var imps, none := files[entry], Loaded([], []);
    var imp := imps[i];
    LoadIs(files, entry);
    VisitAllSplit(files, imps, i + 1, {entry}, none);
    var early := VisitAll(files, imps[..i + 1], {entry}, none).st;
    var t := Load(files, entry).st;
    VisitAllAdds(files, imps[i + 1..], {entry}, early);
    var more := t.setups[|early.setups|..];
    assert t.setups == early.setups + more;
    LastOwn(files, entry, i);
    ReplayMore(early.setups, more, imp.alias);
    forall q
      ensures Setup(imp.alias, Exports(q)) in more <==> Shadows(files, entry, i, imp.alias, q)
    {
      ShadowIs(files, entry, i, early, t, q);
    }
    hide Shadows;
    if x :| x in more && x.alias == imp.alias {
      assert x == Setup(imp.alias, Exports(x.exports.lib));
    }
  }

  lemma LoadIs(files: Files, entry: Path)
    requires Closed(files) && entry in files
    ensures Load(files, entry) == VisitAll(files, files[entry], {entry}, Loaded([], []))
  {
    assert {} + {entry} == {entry};
    hide VisitAll;
  }

  /** Right after the i-th import its alias stands for it. */
  lemma {:induction false} LastOwn(files: Files, entry: Path, i: nat)
    requires Closed(files) && entry in files && i < |files[entry]|
    requires VisitAll(files, files[entry][..i + 1], {entry}, Loaded([], [])).Ok?
    ensures var imp := files[entry][i];
      var g := Replay(VisitAll(files, files[entry][..i + 1], {entry}, Loaded([], [])).st.setups);
      imp.alias in g && g[imp.alias] == Exports(imp.path)
  {
    var imps, none := files[entry][..i + 1], Loaded([], []);
    VisitAllSplit(files, imps, i, {entry}, none);
    var a := VisitAll(files, imps[..i], {entry}, none).st;
    assert imps[i..] == [files[entry][i]] && imps[i..][1..] == [];
    hide Visit;
  }

  /** The setups collected behind the i-th import, under its alias. */
  lemma {:induction false} ShadowIs(files: Files, entry: Path, i: nat, early: Loaded, t: Loaded, q: Path)
    requires Closed(files) && entry in files && i < |files[entry]| && Load(files, entry) == Ok(t)
    requires Ok(early) == VisitAll(files, files[entry][..i + 1], {entry}, Loaded([], []))
    requires Adds(files, files[entry][i + 1..], early, t)
    requires forall j :: i < j < |files[entry]| ==> files[entry][j].alias != files[entry][i].alias
    ensures Setup(files[entry][i].alias, Exports(q)) in t.setups[|early.setups|..] <==>
      Shadows(files, entry, i, files[entry][i].alias, q)
  {
    hide Reaches, Imports, VisitAll, Load;
    var alias := files[entry][i].alias;
    var x := Setup(alias, Exports(q));
    assert !OneOf(files[entry][i + 1..], x);
    LoadComplete(files, entry);
    var later := t.order[|early.order|..];
    assert t.order == early.order + later;
    forall p
      ensures p in later <==> Behind(files, entry, i, p)
    {
      EarlyOrder(files, entry, i, p);
      NewOnly(early.order, later, p);
    }
  }

  lemma NewOnly(a: seq<Path>, b: seq<Path>, p: Path)
    requires Distinct(a + b)
    ensures p in b <==> p in a + b && p !in a
  {
    if p in b {
      var j :| 0 <= j < |b| && b[j] == p;
      forall i | 0 <= i < |a|
        ensures a[i] != p
      {
        assert (a + b)[i] == a[i] && (a + b)[|a| + j] == p;
      }
    }
  }

  /** The entry imports x as m and then y, which imports z as m: to the entry m is z, not x. */
  lemma EntryShadowed()
    ensures var files: Files :=
        map["main" := [Import("x", "m"), Import("y", "n")], "x" := [], "y" := [Import("z", "m")], "z" := []];
      && Closed(files) && Load(files, "main").Ok?
      && "m" in Replay(Load(files, "main").st.setups)
      && Replay(Load(files, "main").st.setups)["m"] == Exports("z")
  {
    var files: Files :=
      map["main" := [Import("x", "m"), Import("y", "n")], "x" := [], "y" := [Import("z", "m")], "z" := []];
    var s0 := {} + {"main"};
    var l0 := Loaded([], []);
    var l1 := Loaded(["x"], []);
    assert Visit(files, "x", true, s0, l0) == Ok(l1);
    var l2 := AddSetup(l1, Import("x", "m"));
    var s1 := s0 + {"y"};
    var l3 := Loaded(["x", "z"], l2.setups);
    assert Visit(files, "z", true, s1, l2) == Ok(l3);
    var l4 := AddSetup(l3, Import("z", "m"));
    assert [Import("z", "m")][1..] == [];
    assert VisitAll(files, [Import("z", "m")], s1, l2) == VisitAll(files, [], s1, l4);
    var l5 := l4.(order := l4.order + ["y"]);
    assert Visit(files, "y", true, s0, l2) == Ok(l5);
    var l6 := AddSetup(l5, Import("y", "n"));
    assert [Import("x", "m"), Import("y", "n")][1..] == [Import("y", "n")] && [Import("y", "n")][1..] == [];
    assert VisitAll(files, [Import("y", "n")], s0, l2) == VisitAll(files, [], s0, l6);
    assert VisitAll(files, files["main"], s0, l0) == VisitAll(files, [Import("y", "n")], s0, l2);
    assert Load(files, "main") == Ok(l6);
    var z := [Setup("m", Exports("x")), Setup("m", Exports("z")), Setup("n", Exports("y"))];
    assert l6.setups == z;
    assert z[..2][..1] == z[..1];
    assert Replay(z[..2])["m"] == Exports("z");
  }
}

/** The loader object. */
module LoaderImpl {
  import opened Loader

  class ImportLoader {
    const files: Files
    var stack: set<Path>
    var compiled: map<Path, Exports>
    var setups: seq<Setup>
    ghost var order: seq<Path>

    ghost predicate Valid()
      reads this
    {
      Closed(files) && forall p :: (p in compiled <==> p in order) && (p in compiled ==> compiled[p] == Exports(p))
    }

    ghost function St(): Loaded
      reads this
    {
      Loaded(order, setups)
    }

    constructor (files: Files)
      requires Closed(files)
      ensures Valid() && this.files == files && stack == {} && St() == Loaded([], [])
    {
      this.files := files;
      stack, compiled, setups, order := {}, map[], [], [];
    }

    method CompileUnit(path: Path, isLib: bool) returns (ok: bool)
      requires Valid() && path in files
      modifies this
      ensures Valid()
      ensures stack == old(stack)
      ensures ok <==> Visit(files, path, isLib, old(stack), old(St())).Ok?
      ensures ok ==> Ok(St()) == Visit(files, path, isLib, old(stack), old(St()))
      decreases files.Keys - stack
    {
      if path in stack {
        return false;
      }
      if isLib && path in compiled {
        return true;
      }
      ghost var before := stack;
      assert path in files.Keys - stack;
      stack := stack + {path};
      ghost var up, st := stack, St();
      var imports := files[path];
      var i := 0;
      assert imports[0..] == imports;
      while i < |imports|
        invariant 0 <= i <= |imports| && Valid() && stack == up
        invariant VisitAll(files, imports, up, st) == VisitAll(files, imports[i..], up, St())
      {
        var imp := imports[i];
        assert imports[i..][0] == imp && imports[i..][1..] == imports[i + 1..];
        ghost var a := St();
        VisitLists(files, imp.path, up, a);
        var found := CompileUnit(imp.path, true);
        if !found {
          stack := stack - {path};
          return false;
        }
        setups := setups + [Setup(imp.alias, compiled[imp.path])];
        i := i + 1;
      }
      assert imports[i..] == [];
      if isLib {
        compiled := compiled[path := Exports(path)];
        order := order + [path];
      }
      stack := stack - {path};
      ok := true;
    }

    method MergeSetups(s: seq<Setup>) returns (out: seq<Setup>)
      ensures out == Merged(s)
    {
      var idx: map<Alias, nat> := map[];
      out := [];
      for k := 0 to |s|
        invariant out == Merged(s[..k])
        invariant forall a :: a in idx <==> Slot(out, a) < |out|
        invariant forall a :: a in idx ==> idx[a] == Slot(out, a)
      {
        assert s[..k + 1][..k] == s[..k];
        var pi := s[k];
        SlotPut(out, pi);
        if pi.alias in idx {
          out := out[idx[pi.alias] := pi];
        } else {
          idx := idx[pi.alias := |out|];
          out := out + [pi];
        }
      }
      assert s[..|s|] == s;
    }

    /** CompileFile: the setups the entry is compiled with. */
    method CompileEntry(entry: Path) returns (ok: bool, merged: seq<Setup>)
      requires Valid() && entry in files && stack == {} && St() == Loaded([], [])
      modifies this
      ensures ok <==> Load(files, entry).Ok?
      ensures ok ==> order == Load(files, entry).st.order && merged == Merged(Load(files, entry).st.setups)
    {
      merged := [];
      ok := CompileUnit(entry, false);
      if ok {
        merged := MergeSetups(setups);
      }
    }
  }

  lemma {:induction false} VisitLists(files: Files, path: Path, stack: set<Path>, st: Loaded)
    requires Closed(files) && path in files
    ensures Visit(files, path, true, stack, st).Ok? ==> path in Visit(files, path, true, stack, st).st.order
  {
  }
}
