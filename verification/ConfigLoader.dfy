/** The memoising configuration loader: import traversal with cycle detection, against the plain recursive meaning
    of a file. */
module ConfigLoader {
  import opened Options
  import opened ConfigTree

  /** The files that exist and parse, by real path, and the real path of a name imported by a file. */
  datatype World = World(files: map<string, Json>, resolve: (string, string) -> string)

  /** The names of an `import` value: one string or a list of strings. */
  function Names(v: Json): Option<seq<string>> {
    if v.Text? then Some([v.s])
    else if v.List? && forall i | 0 <= i < |v.items| :: v.items[i].Text? then
      Some(seq(|v.items|, i requires 0 <= i < |v.items| => v.items[i].s))
    else None
  }

  // ---------------------------------------------------------------- the meaning, without a memo

  /** What a file means when the files of `stack` are being loaded. */
  function LoadMeaning(w: World, p: string, stack: set<string>): Option<Json>
    decreases w.files.Keys - stack, 0
  {
    if p in stack || p !in w.files then None
    else
      var tree := TreeMeaning(w, p, w.files[p], stack + {p});
      if tree.None? then None else Some(Expand(tree.value))
  }

  /** The imported files, later ones on top. */
  function ImportMeaning(w: World, p: string, names: seq<string>, stack: set<string>): Option<Json>
    decreases w.files.Keys - stack, 1, |names|
  {
    if names == [] then Some(EMPTY)
    else
      var before := ImportMeaning(w, p, names[..|names| - 1], stack);
      var last := LoadMeaning(w, w.resolve(p, names[|names| - 1]), stack);
      if before.None? || last.None? then None else Some(Merge(before.value, last.value))
  }

  function ImportsOf(w: World, p: string, m: map<string, Json>, stack: set<string>): Option<Json>
    decreases w.files.Keys - stack, 2
  {
    if "import" !in m then Some(EMPTY)
    else if Names(m["import"]).None? then None
    else ImportMeaning(w, p, Names(m["import"]).value, stack)
  }

  /** A tree of file `p` with its imports replaced by what they mean. */
  function TreeMeaning(w: World, p: string, j: Json, stack: set<string>): Option<Json>
    decreases w.files.Keys - stack, 3, j, 1
  {
    match j
    case Dict(m) =>
      var imported := ImportsOf(w, p, m, stack);
      var rest := Entries(EntryMeanings(w, p, j, stack));
      if imported.None? || rest.None? then None else Some(Merge(imported.value, rest.value))
    case List(items) => Items(ItemMeanings(w, p, j, stack))
    case _ => Some(j)
  }

  function EntryMeanings(w: World, p: string, j: Json, stack: set<string>): map<string, Option<Json>>
    requires j.Dict?
    decreases w.files.Keys - stack, 3, j, 0
  {
    map k | k in j.m && k != "import" :: TreeMeaning(w, p, j.m[k], stack)
  }

  function ItemMeanings(w: World, p: string, j: Json, stack: set<string>): seq<Option<Json>>
    requires j.List?
    decreases w.files.Keys - stack, 3, j, 0
  {
    seq(|j.items|, i requires 0 <= i < |j.items| => TreeMeaning(w, p, j.items[i], stack))
  }

  function Entries(m: map<string, Option<Json>>): Option<Json> {
    if forall k | k in m :: m[k].Some? then Some(Dict(map k | k in m :: m[k].value)) else None
  }

  function Items(s: seq<Option<Json>>): Option<Json> {
    if forall i | 0 <= i < |s| :: s[i].Some? then Some(List(seq(|s|, i requires 0 <= i < |s| => s[i].value))) else None
  }

  // ---------------------------------------------------------------- the import graph

  function ImportItems(v: Json): seq<Json> {
    if v.List? then v.items else [v]
  }

  /** One string, or a list of strings. */
  predicate IsImport(v: Json) {
    forall i | 0 <= i < |ImportItems(v)| :: ImportItems(v)[i].Text?
  }

  lemma NamesAreItems(v: Json)
    ensures Names(v).Some? <==> IsImport(v)
    ensures Names(v).Some? ==> forall name :: name in Names(v).value <==> Text(name) in ImportItems(v)
  {
    if Names(v).Some? {
      var names := Names(v).value;
      assert |names| == |ImportItems(v)| && forall i | 0 <= i < |names| :: ImportItems(v)[i] == Text(names[i]);
    } else if v.List? {
      var i :| 0 <= i < |v.items| && !v.items[i].Text?;
      assert !ImportItems(v)[i].Text?;
    } else {
      assert ImportItems(v)[0] == v;
    }
  }

  /** Every import of the tree is a string or a list of strings. */
  predicate WellFormed(j: Json) {
    match j
    case Dict(m) =>
      ("import" in m ==> IsImport(m["import"])) && forall k | k in m && k != "import" :: WellFormed(m[k])
    case List(items) => forall i | 0 <= i < |items| :: WellFormed(items[i])
    case _ => true
  }

  /** The tree imports the name somewhere. */
  predicate Mentions(j: Json, name: string) {
    match j
    case Dict(m) =>
      || ("import" in m && IsImport(m["import"]) && Text(name) in ImportItems(m["import"]))
      || exists k :: k in m && k != "import" && Mentions(m[k], name)
    case List(items) => exists i :: 0 <= i < |items| && Mentions(items[i], name)
    case _ => false
  }

  predicate Good(w: World, p: string) {
    p in w.files && WellFormed(w.files[p])
  }

  ghost predicate Imports(w: World, p: string, q: string) {
    p in w.files && exists name: string :: Mentions(w.files[p], name) && q == w.resolve(p, name)
  }

  /** A walk along imports that starts at `p`. */
  ghost predicate Walk(w: World, p: string, walk: seq<string>) {
    walk != [] && walk[0] == p && forall i | 0 < i < |walk| :: Imports(w, walk[i - 1], walk[i])
  }

  predicate Distinct(walk: seq<string>) {
    forall i, j | 0 <= i < j < |walk| :: walk[i] != walk[j]
  }

  /** Everything reachable from `p` is present and well formed, and no import cycle is reachable. */
  ghost predicate Loadable(w: World, p: string) {
    forall walk | Walk(w, p, walk) :: Distinct(walk) && forall q | q in walk :: Good(w, q)
  }

  // ---------------------------------------------------------------- when a tree has a meaning

  ghost predicate AllLoad(w: World, p: string, names: seq<string>, stack: set<string>) {
    forall name | name in names :: LoadMeaning(w, w.resolve(p, name), stack).Some?
  }

  lemma {:induction false} ImportSome(w: World, p: string, names: seq<string>, stack: set<string>)
    ensures ImportMeaning(w, p, names, stack).Some? <==> AllLoad(w, p, names, stack)
    decreases |names|
  {
    if names != [] {
      var front := names[..|names| - 1];
      ImportSome(w, p, front, stack);
      assert names == front + [names[|names| - 1]];
    }
  }

  /** The tree is well formed and every file it imports loads. */
  ghost predicate Loads(w: World, p: string, j: Json, stack: set<string>) {
    WellFormed(j) && forall name | Mentions(j, name) :: LoadMeaning(w, w.resolve(p, name), stack).Some?
  }

  lemma {:induction false} TreeSome(w: World, p: string, j: Json, stack: set<string>)
    ensures TreeMeaning(w, p, j, stack).Some? <==> Loads(w, p, j, stack)
    decreases j
  {
    match j
    case Dict(m) =>
      if "import" in m {
        NamesAreItems(m["import"]);
        if Names(m["import"]).Some? { ImportSome(w, p, Names(m["import"]).value, stack); }
      }
      forall k | k in m && k != "import" ensures TreeMeaning(w, p, m[k], stack).Some? <==> Loads(w, p, m[k], stack) {
        TreeSome(w, p, m[k], stack);
      }
      var all := EntryMeanings(w, p, j, stack);
      assert forall k | k in m && k != "import" :: k in all && all[k] == TreeMeaning(w, p, m[k], stack);
    case List(items) =>
      forall i | 0 <= i < |items| ensures TreeMeaning(w, p, items[i], stack).Some? <==> Loads(w, p, items[i], stack) {
        TreeSome(w, p, items[i], stack);
      }
      var all := ItemMeanings(w, p, j, stack);
      assert forall i | 0 <= i < |items| :: all[i] == TreeMeaning(w, p, items[i], stack);
    case _ =>
  }

  /** One unfolding of success: the file is new, good, and everything it imports loads above it. */
  lemma LoadSome(w: World, p: string, stack: set<string>)
    ensures LoadMeaning(w, p, stack).Some? <==>
            (p !in stack && Good(w, p) && forall q | Imports(w, p, q) :: LoadMeaning(w, q, stack + {p}).Some?)
  {
    if p !in stack && p in w.files {
      TreeSome(w, p, w.files[p], stack + {p});
      assert forall name | Mentions(w.files[p], name) :: Imports(w, p, w.resolve(p, name));
    }
  }

  lemma {:induction false} SuccessOnWalk(w: World, p: string, stack: set<string>, walk: seq<string>)
    requires LoadMeaning(w, p, stack).Some? && Walk(w, p, walk)
    ensures Distinct(walk)
    ensures forall q | q in walk :: q !in stack && Good(w, q)
    decreases |walk|
  {
    LoadSome(w, p, stack);
    if |walk| > 1 {
      var rest := walk[1..];
      assert Imports(w, walk[0], walk[1]);
      assert Walk(w, rest[0], rest) by {
        forall i | 0 < i < |rest| ensures Imports(w, rest[i - 1], rest[i]) {
          assert rest[i - 1] == walk[i] && rest[i] == walk[i + 1];
          assert Imports(w, walk[(i + 1) - 1], walk[i + 1]);
        }
      }
      SuccessOnWalk(w, rest[0], stack + {p}, rest);
      assert walk == [p] + rest;
    } else {
      assert walk == [p];
    }
  }

  /** The walk ends in `stack` or at a bad file, or meets a file twice. */
  ghost predicate Blames(w: World, walk: seq<string>, stack: set<string>) {
    walk != [] && (walk[|walk| - 1] in stack || !Good(w, walk[|walk| - 1]) || !Distinct(walk))
  }

  lemma {:induction false} FailureHasWalk(w: World, p: string, stack: set<string>) returns (walk: seq<string>)
    requires LoadMeaning(w, p, stack).None?
    ensures Walk(w, p, walk) && Blames(w, walk, stack)
    decreases w.files.Keys - stack
  {
    LoadSome(w, p, stack);
    walk := [p];
    if p !in stack && Good(w, p) {
      var q :| Imports(w, p, q) && LoadMeaning(w, q, stack + {p}).None?;
      var rest := FailureHasWalk(w, q, stack + {p});
      walk := [p] + rest;
      assert Walk(w, p, walk) by {
        forall i | 0 < i < |walk| ensures Imports(w, walk[i - 1], walk[i]) {
          if i > 1 { assert Imports(w, rest[i - 2], rest[i - 1]); }
        }
      }
      assert walk[|walk| - 1] == rest[|rest| - 1];
      if rest[|rest| - 1] == p {
        assert walk[0] == walk[|walk| - 1];
      } else if !Distinct(rest) {
        var i, k :| 0 <= i < k < |rest| && rest[i] == rest[k];
        assert walk[i + 1] == walk[k + 1];
      }
    }
  }

  /** A file loads exactly when every file reachable from it is present and well formed and no cycle is reachable. */
  lemma LoadsIffNoCycle(w: World, p: string)
    ensures LoadMeaning(w, p, {}).Some? <==> Loadable(w, p)
  {
    if LoadMeaning(w, p, {}).Some? {
      forall walk | Walk(w, p, walk) ensures Distinct(walk) && forall q | q in walk :: Good(w, q) {
        SuccessOnWalk(w, p, {}, walk);
      }
    } else {
      var walk := FailureHasWalk(w, p, {});
      assert walk[|walk| - 1] in walk;
    }
  }

  // ---------------------------------------------------------------- the stack does not change a meaning

  lemma {:induction false} SameImports(w: World, p: string, names: seq<string>, s: set<string>, t: set<string>)
    requires forall name | name in names ::
              LoadMeaning(w, w.resolve(p, name), s) == LoadMeaning(w, w.resolve(p, name), t)
    ensures ImportMeaning(w, p, names, s) == ImportMeaning(w, p, names, t)
    decreases |names|
  {
    if names != [] {
      var front := names[..|names| - 1];
      assert names[|names| - 1] in names;
      SameImports(w, p, front, s, t);
    }
  }

  lemma {:induction false} SameTree(w: World, p: string, j: Json, s: set<string>, t: set<string>)
    requires forall name | Mentions(j, name) ::
              LoadMeaning(w, w.resolve(p, name), s) == LoadMeaning(w, w.resolve(p, name), t)
    ensures TreeMeaning(w, p, j, s) == TreeMeaning(w, p, j, t)
    decreases j
  {
    match j
    case Dict(m) =>
      assert ImportsOf(w, p, m, s) == ImportsOf(w, p, m, t) by {
        if "import" in m {
          NamesAreItems(m["import"]);
          if Names(m["import"]).Some? { SameImports(w, p, Names(m["import"]).value, s, t); }
        }
      }
      forall k | k in m && k != "import" ensures TreeMeaning(w, p, m[k], s) == TreeMeaning(w, p, m[k], t) {
        SameTree(w, p, m[k], s, t);
      }
      assert EntryMeanings(w, p, j, s) == EntryMeanings(w, p, j, t);
    case List(items) =>
      forall i | 0 <= i < |items| ensures TreeMeaning(w, p, items[i], s) == TreeMeaning(w, p, items[i], t) {
        SameTree(w, p, items[i], s, t);
      }
      assert ItemMeanings(w, p, j, s) == ItemMeanings(w, p, j, t);
    case _ =>
  }

  ghost predicate Closed(w: World, inside: iset<string>) {
    forall p, q | p in inside && Imports(w, p, q) :: q in inside
  }

  ghost const EVERYWHERE := iset q: string | |q| >= 0

  /** Inside an import-closed region, only the part of the stack in that region matters: a meaning found under
      one stack is the meaning under every stack that holds no more of the region. */
  lemma {:induction false} StackIrrelevant(w: World, p: string, s: set<string>, t: set<string>, inside: iset<string>)
    requires Closed(w, inside) && p in inside
    requires LoadMeaning(w, p, s).Some?
    requires forall q | q in t && q in inside :: q in s
    ensures LoadMeaning(w, p, t) == LoadMeaning(w, p, s)
    decreases w.files.Keys - s
  {
    LoadSome(w, p, s);
    forall name | Mentions(w.files[p], name)
      ensures LoadMeaning(w, w.resolve(p, name), s + {p}) == LoadMeaning(w, w.resolve(p, name), t + {p})
    {
      var q := w.resolve(p, name);
      assert Imports(w, p, q);
      StackIrrelevant(w, q, s + {p}, t + {p}, inside);
    }
    SameTree(w, p, w.files[p], s + {p}, t + {p});
  }

  // ---------------------------------------------------------------- what a loaded file holds

  /** The files that a dictionary imports, each as it loads by itself, in the order of the list. */
  ghost predicate AreImports(w: World, p: string, m: map<string, Json>, imports: seq<Json>) {
    if "import" !in m then imports == []
    else
      var v := m["import"];
      var items := ImportItems(v);
      && |imports| == |items|
      && forall i | 0 <= i < |items| ::
           items[i].Text? && LoadMeaning(w, w.resolve(p, items[i].s), {}) == Some(imports[i])
  }

  /** What the tree `j` of file `p` has become in `t`.  A dictionary holds at every path what its own entries say there,
      each parsed in turn; where they say nothing, what the last of its imports says that says anything.  A list keeps
      its items, each parsed, in their order; a leaf stays. */
  ghost predicate Parsed(w: World, p: string, j: Json, t: Json)
    decreases j
  {
    match j
    case Dict(m) => exists imports, own :: ParsedDict(w, p, j, t, imports, own)
    case List(items) =>
      t.List? && |t.items| == |items| && forall i | 0 <= i < |items| :: Parsed(w, p, items[i], t.items[i])
    case _ => t == j
  }

  ghost predicate ParsedDict(w: World, p: string, j: Json, t: Json, imports: seq<Json>, own: map<string, Json>)
    requires j.Dict?
    decreases j, 0
  {
    && AreImports(w, p, j.m, imports)
    && own.Keys == j.m.Keys - {"import"}
    && (forall k | k in j.m && k != "import" :: k in own && Parsed(w, p, j.m[k], own[k]))
    && Holds(t, imports + [Dict(own)])
  }

  /** The result of loading file `p`: its parsed tree with the special entries expanded. */
  ghost predicate LoadedFrom(w: World, p: string, r: Json) {
    p in w.files && exists t :: Parsed(w, p, w.files[p], t) && r == Expand(t)
  }

  lemma {:induction false} ImportsHold(w: World, p: string, names: seq<string>, stack: set<string>)
    returns (imports: seq<Json>)
    requires ImportMeaning(w, p, names, stack).Some?
    ensures |imports| == |names|
    ensures forall i | 0 <= i < |names| :: LoadMeaning(w, w.resolve(p, names[i]), {}) == Some(imports[i])
    ensures names != [] ==> Holds(ImportMeaning(w, p, names, stack).value, imports)
    decreases |names|
  {
    imports := [];
    if names != [] {
      var front, last := names[..|names| - 1], names[|names| - 1];
      imports := ImportsHold(w, p, front, stack);
      var q := w.resolve(p, last);
      StackIrrelevant(w, q, stack, {}, EVERYWHERE);
      var value := LoadMeaning(w, q, stack).value;
      if front == [] {
        HoldsOne(value);
        MergeIntoEmpty(value);
        assert imports + [value] == [value];
      } else {
        MergeHolds(ImportMeaning(w, p, front, stack).value, imports, value);
      }
      imports := imports + [value];
    }
  }

  lemma MergeIntoEmpty(j: Json)
    ensures Merge(EMPTY, j) == j
  {
    if j.Dict? { assert Merge(EMPTY, j).m == j.m; }
  }

  /** A parsed tree is what `Parsed` says, whatever was being loaded meanwhile. */
  lemma {:induction false} TreeIsParsed(w: World, p: string, j: Json, stack: set<string>)
    requires TreeMeaning(w, p, j, stack).Some?
    ensures Parsed(w, p, j, TreeMeaning(w, p, j, stack).value)
    decreases j
  {
    match j
    case Dict(m) => DictIsParsed(w, p, j, stack);
    case List(items) =>
      var all := ItemMeanings(w, p, j, stack);
      forall i | 0 <= i < |items| ensures all[i].Some? && Parsed(w, p, items[i], all[i].value) {
        assert all[i] == TreeMeaning(w, p, items[i], stack);
        TreeIsParsed(w, p, items[i], stack);
      }
    case _ =>
  }

  lemma {:induction false} DictIsParsed(w: World, p: string, j: Json, stack: set<string>)
    requires j.Dict? && TreeMeaning(w, p, j, stack).Some?
    ensures Parsed(w, p, j, TreeMeaning(w, p, j, stack).value)
    decreases j, 0
  {
    var all := EntryMeanings(w, p, j, stack);
    var own := map k | k in all :: all[k].value;
    forall k | k in j.m && k != "import" ensures k in own && Parsed(w, p, j.m[k], own[k]) {
      assert all[k] == TreeMeaning(w, p, j.m[k], stack);
      TreeIsParsed(w, p, j.m[k], stack);
    }
    var imports: seq<Json> := [];
    var imported := ImportsOf(w, p, j.m, stack).value;
    var t := Merge(imported, Dict(own));
    assert TreeMeaning(w, p, j, stack) == Some(t);
    if "import" in j.m {
      imports := ImportsHold(w, p, Names(j.m["import"]).value, stack);
    }
    if imports == [] {
      MergeIntoEmpty(Dict(own));
      HoldsOne(t);
    } else {
      MergeHolds(imported, imports, Dict(own));
    }
    assert imports == [] ==> imports + [Dict(own)] == [Dict(own)];
    assert ParsedDict(w, p, j, t, imports, own);
  }

  /** Nothing else is: what `Parsed` says at every path leaves one tree. */
  lemma {:induction false} ParsedIsExact(w: World, p: string, j: Json, t: Json, u: Json)
    requires Parsed(w, p, j, t) && Parsed(w, p, j, u)
    ensures t == u
    decreases j
  {
    match j
    case Dict(m) =>
      var imports, own :| ParsedDict(w, p, j, t, imports, own);
      var imports', own' :| ParsedDict(w, p, j, u, imports', own');
      forall k | k in own ensures k in own' && own[k] == own'[k] {
        ParsedIsExact(w, p, m[k], own[k], own'[k]);
      }
      assert own == own' && imports == imports';
      HoldsIsExact(t, u, imports + [Dict(own)]);
    case List(items) =>
      forall i | 0 <= i < |items| ensures t.items[i] == u.items[i] {
        ParsedIsExact(w, p, items[i], t.items[i], u.items[i]);
      }
      assert t.items == u.items;
    case _ =>
  }

  /** A load gives what `LoadedFrom` says and nothing else. */
  lemma LoadHolds(w: World, p: string, r: Json)
    requires LoadMeaning(w, p, {}).Some?
    ensures LoadMeaning(w, p, {}) == Some(r) <==> LoadedFrom(w, p, r)
  {
    assert {} + {p} == {p};
    var tree := TreeMeaning(w, p, w.files[p], {p}).value;
    TreeIsParsed(w, p, w.files[p], {p});
    if LoadedFrom(w, p, r) {
      var t :| Parsed(w, p, w.files[p], t) && r == Expand(t);
      ParsedIsExact(w, p, w.files[p], t, tree);
    }
  }

  lemma Parts(w: World, p: string, j: Json, t: Json) returns (imports: seq<Json>, own: map<string, Json>)
    requires j.Dict? && Parsed(w, p, j, t)
    ensures ParsedDict(w, p, j, t, imports, own)
  {
    imports, own :| ParsedDict(w, p, j, t, imports, own);
  }

  /** A loaded dictionary path by path: under every key the entry with the file's `default` below it and its `overwrite`
      on top of it, and these three come from the file's own entries before its imports, the last import first. */
  lemma LoadPrecedence(w: World, p: string, r: Json, k: string, path: seq<string>)
    requires LoadMeaning(w, p, {}) == Some(r) && w.files[p].Dict?
    ensures exists t, imports, own ::
              && ParsedDict(w, p, w.files[p], t, imports, own)
              && t.Dict? && r.Dict?
              && (k in r.m <==> k in t.m && !Special(k))
              && (k in r.m ==> Get(r, [k] + path)
                               == Resolved(Section(t, "default"), Expand(t.m[k]), Section(t, "overwrite"), path))
  {
    LoadHolds(w, p, r);
    var t :| Parsed(w, p, w.files[p], t) && r == Expand(t);
    var imports, own := Parts(w, p, w.files[p], t);
    assert HoldsAt(t, imports + [Dict(own)], []);
    if k in t.m && !Special(k) { ExpandPrecedence(t, k, path); }
  }

  /** No `import` in any dictionary of the tree. */
  predicate Bare(j: Json) {
    match j
    case Dict(m) => "import" !in m && forall k | k in m :: Bare(m[k])
    case List(items) => forall i | 0 <= i < |items| :: Bare(items[i])
    case _ => true
  }

  lemma {:induction false} BareStays(w: World, p: string, j: Json)
    requires Bare(j)
    ensures Parsed(w, p, j, j)
    decreases j
  {
    match j
    case Dict(m) =>
      forall k | k in m ensures Parsed(w, p, m[k], m[k]) { BareStays(w, p, m[k]); }
      HoldsOne(j);
      assert [] + [j] == [j];
      assert ParsedDict(w, p, j, j, [], m);
    case List(items) =>
      forall i | 0 <= i < |items| ensures Parsed(w, p, items[i], items[i]) { BareStays(w, p, items[i]); }
    case _ =>
  }

  /** A file whose imports are all at its top and which has no special entries: at every path its own entries stand as
      written, and where they say nothing the last import that says anything. */
  lemma PlainLoadHolds(w: World, p: string, r: Json)
    requires LoadMeaning(w, p, {}) == Some(r) && w.files[p].Dict?
    requires forall k | k in w.files[p].m && k != "import" :: Bare(w.files[p].m[k])
    requires Clean(Dict(w.files[p].m - {"import"}))
    ensures exists imports :: AreImports(w, p, w.files[p].m, imports)
                           && Holds(r, imports + [Dict(w.files[p].m - {"import"})])
  {
    LoadHolds(w, p, r);
    var m := w.files[p].m;
    var t :| Parsed(w, p, w.files[p], t) && r == Expand(t);
    var imports, own := Parts(w, p, w.files[p], t);
    forall k | k in own ensures own[k] == m[k] {
      BareStays(w, p, m[k]);
      ParsedIsExact(w, p, m[k], own[k], m[k]);
    }
    assert own == m - {"import"};
    ImportsClean(w, p, m, imports);
    CleanLayers(t, imports + [Dict(own)]);
    ExpandFixesClean(t);
  }

  lemma ImportsClean(w: World, p: string, m: map<string, Json>, imports: seq<Json>)
    requires AreImports(w, p, m, imports)
    ensures forall i | 0 <= i < |imports| :: Clean(imports[i])
  {
    forall i | 0 <= i < |imports| ensures Clean(imports[i]) {
      var items := ImportItems(m["import"]);
      assert items[i].Text? && LoadMeaning(w, w.resolve(p, items[i].s), {}) == Some(imports[i]);
      LoadsClean(w, w.resolve(p, items[i].s));
    }
  }

  lemma LoadsClean(w: World, p: string)
    ensures LoadMeaning(w, p, {}).Some? ==> Clean(LoadMeaning(w, p, {}).value)
  {
    if LoadMeaning(w, p, {}).Some? {
      ExpandClean(TreeMeaning(w, p, w.files[p], {} + {p}).value);
    }
  }

  // ---------------------------------------------------------------- the loader

  class ConfigLoader {
    const world: World
    var loading: set<string>
    var loaded: map<string, Json>

    /** The memo is right, closed under imports, and disjoint from what is being loaded. */
    ghost predicate Valid()
      reads this
    {
      && loading !! loaded.Keys
      && (forall p | p in loaded :: LoadMeaning(world, p, {}) == Some(loaded[p]))
      && Closed(world, Memoised())
    }

    ghost function Memoised(): iset<string>
      reads this
    {
      iset p: string | p in loaded
    }

    constructor (world: World)
      ensures Valid() && loading == {} && this.world == world
    {
      this.world, loading, loaded := world, {}, map[];
    }

    /** Loads one file: the result is the unmemoised meaning, and `loading` is restored whether it succeeds or not. */
    method LoadFile(p: string) returns (r: Option<Json>)
      requires Valid()
      modifies this
      ensures Valid() && loading == old(loading) && old(loaded.Keys) <= loaded.Keys
      ensures r == LoadMeaning(world, p, old(loading))
      ensures r.Some? ==> p in loaded
      decreases world.files.Keys - loading, 0
    {
      if p in loading { return None; }
      if p in loaded {
        LoadSome(world, p, {});
        StackIrrelevant(world, p, {}, loading, Memoised());
        return Some(loaded[p]);
      }
      if p !in world.files { return None; }
      ghost var stack := loading;
      loading := loading + {p};
      var tree := ParseImports(p, world.files[p]);
      loading := loading - {p};
      assert loading == stack;
      if tree.None? { return None; }
      r := Some(Expand(tree.value));
      StackIrrelevant(world, p, loading, {}, EVERYWHERE);
      loaded := loaded[p := r.value];
    }

    /** A load from the outside: it succeeds exactly when nothing reachable is missing, malformed or on a cycle,
        whatever was loaded or failed to load before. */
    method LoadFrom(p: string) returns (r: Option<Json>)
      requires Valid() && loading == {}
      modifies this
      ensures Valid() && loading == {}
      ensures r == LoadMeaning(world, p, {})
      ensures r.Some? <==> Loadable(world, p)
      ensures r.Some? ==> LoadedFrom(world, p, r.value)
    {
      r := LoadFile(p);
      LoadsIffNoCycle(world, p);
      if r.Some? { LoadHolds(world, p, r.value); }
    }

    /** Replaces the imports in a tree of file `p` by the loaded files. */
    method ParseImports(p: string, j: Json) returns (r: Option<Json>)
      requires Valid()
      modifies this
      ensures Valid() && loading == old(loading) && old(loaded.Keys) <= loaded.Keys
      ensures r == TreeMeaning(world, p, j, loading)
      ensures r.Some? ==> forall name | Mentions(j, name) :: world.resolve(p, name) in loaded
      decreases world.files.Keys - loading, 3, j, 1
    {
      match j
      case Dict(m) =>
        var imported := ParseImport(p, m);
        if imported.None? { return None; }
        if "import" in m { NamesAreItems(m["import"]); }
        var rest := ParseEntries(p, j);
        if rest.None? { return None; }
        r := Some(Merge(imported.value, rest.value));
      case List(items) =>
        r := ParseItems(p, j);
      case _ =>
        r := Some(j);
    }

    /** The `import` entry of a dictionary. */
    method ParseImport(p: string, m: map<string, Json>) returns (r: Option<Json>)
      requires Valid()
      modifies this
      ensures Valid() && loading == old(loading) && old(loaded.Keys) <= loaded.Keys
      ensures r == ImportsOf(world, p, m, loading)
      ensures r.Some? && "import" in m ==>
                forall name | name in Names(m["import"]).value :: world.resolve(p, name) in loaded
      decreases world.files.Keys - loading, 2
    {
      if "import" !in m { return Some(EMPTY); }
      var v := m["import"];
      if v.Text? {
        var one := LoadFile(world.resolve(p, v.s));
        assert ImportMeaning(world, p, [], loading) == Some(EMPTY);
        assert [v.s][..0] == [];
        if one.None? { return None; }
        return Some(Merge(EMPTY, one.value));
      }
      if !v.List? { return None; }
      r := ParseImportList(p, v);
    }

    /** A list of imports, merged in order; an item that is not a string is an error. */
    method ParseImportList(p: string, v: Json) returns (r: Option<Json>)
      requires Valid() && v.List?
      modifies this
      ensures Valid() && loading == old(loading) && old(loaded.Keys) <= loaded.Keys
      ensures r == if Names(v).None? then None else ImportMeaning(world, p, Names(v).value, loading)
      ensures r.Some? ==> forall name | name in Names(v).value :: world.resolve(p, name) in loaded
      decreases world.files.Keys - loading, 1
    {
      var acc, names := EMPTY, [];
      for i := 0 to |v.items|
        invariant Valid() && loading == old(loading) && old(loaded.Keys) <= loaded.Keys
        invariant |names| == i && forall k | 0 <= k < i :: v.items[k] == Text(names[k])
        invariant ImportMeaning(world, p, names, loading) == Some(acc)
        invariant forall name | name in names :: world.resolve(p, name) in loaded
      {
        if !v.items[i].Text? { return None; }
        var one := LoadFile(world.resolve(p, v.items[i].s));
        if one.None? {
          FailedImport(world, p, v, i, loading);
          return None;
        }
        assert (names + [v.items[i].s])[..i] == names;
        acc, names := Merge(acc, one.value), names + [v.items[i].s];
      }
      assert Names(v) == Some(names) by { NamesAre(v, names); }
      return Some(acc);
    }

    /** The entries of a dictionary other than `import`, in any order. */
    method ParseEntries(p: string, j: Json) returns (r: Option<Json>)
      requires Valid() && j.Dict?
      modifies this
      ensures Valid() && loading == old(loading) && old(loaded.Keys) <= loaded.Keys
      ensures r == Entries(EntryMeanings(world, p, j, loading))
      ensures r.Some? ==>
                forall k, name | k in j.m && k != "import" && Mentions(j.m[k], name) :: world.resolve(p, name) in loaded
      decreases world.files.Keys - loading, 3, j, 0
    {
      var todo, acc := j.m.Keys - {"import"}, map[];
      while todo != {}
        invariant Valid() && loading == old(loading) && old(loaded.Keys) <= loaded.Keys
        invariant todo <= j.m.Keys - {"import"}
        invariant acc.Keys == j.m.Keys - {"import"} - todo
        invariant forall k | k in acc :: TreeMeaning(world, p, j.m[k], loading) == Some(acc[k])
        invariant forall k, name | k in acc && Mentions(j.m[k], name) :: world.resolve(p, name) in loaded
      {
        var k :| k in todo;
        var value := ParseImports(p, j.m[k]);
        if value.None? {
          assert EntryMeanings(world, p, j, loading)[k] == None;
          return None;
        }
        todo, acc := todo - {k}, acc[k := value.value];
      }
      ghost var all := EntryMeanings(world, p, j, loading);
      assert acc == map k | k in all :: all[k].value;
      return Some(Dict(acc));
    }

    /** The items of a list, in order. */
    method ParseItems(p: string, j: Json) returns (r: Option<Json>)
      requires Valid() && j.List?
      modifies this
      ensures Valid() && loading == old(loading) && old(loaded.Keys) <= loaded.Keys
      ensures r == TreeMeaning(world, p, j, loading)
      ensures r.Some? ==> forall name | Mentions(j, name) :: world.resolve(p, name) in loaded
      decreases world.files.Keys - loading, 3, j, 0
    {
      var acc := [];
      for i := 0 to |j.items|
        invariant Valid() && loading == old(loading) && old(loaded.Keys) <= loaded.Keys
        invariant |acc| == i && forall k | 0 <= k < i :: TreeMeaning(world, p, j.items[k], loading) == Some(acc[k])
        invariant forall k, name | 0 <= k < i && Mentions(j.items[k], name) :: world.resolve(p, name) in loaded
      {
        var value := ParseImports(p, j.items[i]);
        if value.None? {
          assert ItemMeanings(world, p, j, loading)[i] == None;
          return None;
        }
        acc := acc + [value.value];
      }
      ghost var all := ItemMeanings(world, p, j, loading);
      assert acc == seq(|all|, i requires 0 <= i < |all| => all[i].value);
      return Some(List(acc));
    }
  }

  lemma NamesAre(v: Json, names: seq<string>)
    requires v.List? && |names| == |v.items| && forall k | 0 <= k < |names| :: v.items[k] == Text(names[k])
    ensures Names(v) == Some(names)
  {
    assert Names(v).value == names;
  }

  lemma FailedImport(w: World, p: string, v: Json, i: nat, stack: set<string>)
    requires v.List? && i < |v.items| && v.items[i].Text?
    requires LoadMeaning(w, w.resolve(p, v.items[i].s), stack).None?
    ensures Names(v).Some? ==> ImportMeaning(w, p, Names(v).value, stack).None?
  {
    if Names(v).Some? {
      assert Names(v).value[i] == v.items[i].s;
      ImportSome(w, p, Names(v).value, stack);
    }
  }
}
