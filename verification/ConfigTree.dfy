/** Configuration trees: recursive merge, and the expansion of `default` and `overwrite` entries. */
module ConfigTree {
  import opened Options

  datatype Json = Scalar(n: int) | Text(s: string) | List(items: seq<Json>) | Dict(m: map<string, Json>)

  const EMPTY := Dict(map[])

  /** `deep_merge`: two dictionaries are merged key by key, anything else is replaced. */
  function Merge(a: Json, b: Json): Json
    decreases a
  {
    if a.Dict? && b.Dict? then
      Dict(map k | k in a.m.Keys + b.m.Keys ::
             if k !in b.m then a.m[k] else if k in a.m then Merge(a.m[k], b.m[k]) else b.m[k])
    else b
  }

  /** `parse_default_and_overwrite`. */
  function Expand(j: Json): Json {
    if !j.Dict? then j
    else Dict(map k | k in j.m && !Special(k) :: Layer(Section(j, "default"), Expand(j.m[k]), Section(j, "overwrite")))
  }

  predicate Special(k: string) {
    k == "default" || k == "overwrite"
  }

  /** An expanded special section, if the dictionary has it. */
  function Section(j: Json, name: string): Option<Json>
    requires j.Dict?
    decreases j, 0
  {
    if name in j.m then Some(Expand(j.m[name])) else None
  }

  /** An entry of a dictionary, with the overwrite on top of it and the default below it. */
  function Layer(default': Option<Json>, own: Json, overwrite: Option<Json>): Json {
    var top := if overwrite.Some? then Merge(own, overwrite.value) else own;
    if default'.Some? then Merge(default'.value, top) else top
  }

  // ---------------------------------------------------------------- no special keys remain

  /** No `default` or `overwrite` key on any path of nested dictionaries. */
  predicate Clean(j: Json) {
    j.Dict? ==> forall k | k in j.m :: !Special(k) && Clean(j.m[k])
  }

  lemma {:induction false} MergeClean(a: Json, b: Json)
    requires Clean(a) && Clean(b)
    ensures Clean(Merge(a, b))
    decreases a
  {
    if a.Dict? && b.Dict? {
      forall k | k in a.m && k in b.m ensures Clean(Merge(a.m[k], b.m[k])) {
        MergeClean(a.m[k], b.m[k]);
      }
    }
  }

  /** Expansion leaves no special key behind. */
  lemma {:induction false} ExpandClean(j: Json)
    ensures Clean(Expand(j))
  {
    if j.Dict? {
      if "default" in j.m { ExpandClean(j.m["default"]); }
      if "overwrite" in j.m { ExpandClean(j.m["overwrite"]); }
      forall k | k in j.m && !Special(k) ensures Clean(Expand(j).m[k]) {
        ExpandClean(j.m[k]);
        var own, over := Expand(j.m[k]), Section(j, "overwrite");
        if over.Some? { MergeClean(own, over.value); }
        var top := if over.Some? then Merge(own, over.value) else own;
        if "default" in j.m { MergeClean(Expand(j.m["default"]), top); }
      }
    }
  }

  /** Leaves and lists stay as they are, and a dictionary keeps exactly its other keys. */
  lemma ExpandKeepsKeys(j: Json)
    ensures !j.Dict? ==> Expand(j) == j
    ensures j.Dict? ==> Expand(j).Dict?
    ensures j.Dict? ==> forall k :: k in Expand(j).m <==> k in j.m && k != "default" && k != "overwrite"
  {}

  /** A tree without special keys is left as it is. */
  lemma {:induction false} ExpandFixesClean(j: Json)
    requires Clean(j)
    ensures Expand(j) == j
  {
    if j.Dict? {
      forall k | k in j.m ensures k in Expand(j).m && Expand(j).m[k] == j.m[k] {
        ExpandFixesClean(j.m[k]);
      }
      assert Expand(j).m == j.m;
    }
  }

  lemma ExpandIdempotent(j: Json)
    ensures Expand(Expand(j)) == Expand(j)
  {
    ExpandClean(j);
    ExpandFixesClean(Expand(j));
  }

  // ---------------------------------------------------------------- who wins on a path

  function Get(j: Json, path: seq<string>): Option<Json>
    decreases |path|
  {
    if path == [] then Some(j)
    else if j.Dict? && path[0] in j.m then Get(j.m[path[0]], path[1..])
    else None
  }

  /** `j` has a value other than a dictionary at `path` or at a beginning of it. */
  predicate Decides(j: Json, path: seq<string>)
    decreases |path|
  {
    !j.Dict? || (path != [] && path[0] in j.m && Decides(j.m[path[0]], path[1..]))
  }

  /** `j` says nothing about `path`. */
  predicate Silent(j: Json, path: seq<string>) {
    !Decides(j, path) && Get(j, path).None?
  }

  /** What a merge holds at every path. */
  lemma {:induction false} MergeGet(a: Json, b: Json, path: seq<string>)
    ensures Decides(b, path) ==> Get(Merge(a, b), path) == Get(b, path)
    ensures Silent(b, path) ==> Get(Merge(a, b), path) == Get(a, path)
    ensures !Decides(b, path) && Get(b, path).Some? ==>
              Get(Merge(a, b), path) ==
              (if Get(a, path).Some? && Get(a, path).value.Dict?
               then Some(Merge(Get(a, path).value, Get(b, path).value))
               else Get(b, path))
    decreases |path|
  {
    if path != [] && a.Dict? && b.Dict? && path[0] in b.m && path[0] in a.m {
      MergeGet(a.m[path[0]], b.m[path[0]], path[1..]);
    }
  }

  lemma {:induction false} MergeDecides(a: Json, b: Json, path: seq<string>)
    ensures Silent(b, path) && Decides(a, path) && Get(a, path).Some? ==> Decides(Merge(a, b), path)
    ensures Decides(b, path) ==> Decides(Merge(a, b), path)
    ensures Silent(a, path) && Silent(b, path) ==> Silent(Merge(a, b), path)
    ensures !Decides(a, path) && Silent(b, path) ==> !Decides(Merge(a, b), path)
    ensures !Decides(b, path) && Get(b, path).Some? ==> !Decides(Merge(a, b), path)
    decreases |path|
  {
    MergeGet(a, b, path);
    if path != [] && a.Dict? && b.Dict? && path[0] in b.m && path[0] in a.m {
      MergeDecides(a.m[path[0]], b.m[path[0]], path[1..]);
    }
  }

  predicate SilentSection(section: Option<Json>, path: seq<string>) {
    section.None? || Silent(section.value, path)
  }

  /** How far down the path a leaf of `j` lies that decides it. */
  function LeafDepth(j: Json, path: seq<string>): (n: nat)
    requires Decides(j, path)
    ensures n <= |path|
    decreases |path|
  {
    if !j.Dict? then 0 else 1 + LeafDepth(j.m[path[0]], path[1..])
  }

  /** What a merge makes of a leaf of the lower side above the path, when the upper side says nothing about the path:
      the leaf gives way exactly if the upper side has something, necessarily a dictionary, in the place of the leaf. */
  lemma {:induction false} MergeOverLeaf(a: Json, b: Json, path: seq<string>)
    requires Silent(b, path) && Decides(a, path) && Get(a, path).None?
    ensures Get(Merge(a, b), path).None?
    ensures Get(b, path[..LeafDepth(a, path)]).Some? <==> Silent(Merge(a, b), path)
    decreases |path|
  {
    MergeGet(a, b, path);
    var n := LeafDepth(a, path);
    if a.Dict? && b.Dict? {
      assert path[..n][0] == path[0] && path[..n][1..] == path[1..][..n - 1];
      if path[0] in b.m {
        MergeOverLeaf(a.m[path[0]], b.m[path[0]], path[1..]);
      }
    }
  }

  /** A dictionary on top of what lies below it. */
  function Combined(below: Option<Json>, dict: Json): Json {
    if below.Some? then Merge(below.value, dict) else dict
  }

  function At(section: Option<Json>, path: seq<string>): Option<Json> {
    if section.Some? then Get(section.value, path) else None
  }

  /** What stands at a path inside an entry, by the three parties alone: a leaf of the overwrite; where the overwrite
      says nothing, a leaf of the entry; where both say nothing, the default. Dictionaries are combined. A leaf of the
      entry above the path hides the default, unless the overwrite has a dictionary in the place of that leaf. */
  function Resolved(default': Option<Json>, own: Json, overwrite: Option<Json>, path: seq<string>): Option<Json> {
    if overwrite.Some? && Decides(overwrite.value, path) then Get(overwrite.value, path)
    else if !SilentSection(overwrite, path) then
      Some(Combined(At(default', path), Combined(Get(own, path), Get(overwrite.value, path).value)))
    else if Silent(own, path) then At(default', path)
    else if Decides(own, path) && Get(own, path).Some? then Get(own, path)
    else if !Decides(own, path) then Some(Combined(At(default', path), Get(own, path).value))
    else if At(overwrite, path[..LeafDepth(own, path)]).Some? then At(default', path)
    else None
  }

  /** Precedence: an expanded dictionary holds at every path of every entry what the three parties resolve to. */
  lemma ExpandPrecedence(j: Json, k: string, path: seq<string>)
    requires j.Dict? && k in j.m && !Special(k)
    ensures Get(Expand(j), [k] + path) ==
            Resolved(Section(j, "default"), Expand(j.m[k]), Section(j, "overwrite"), path)
  {
    var default', own, overwrite := Section(j, "default"), Expand(j.m[k]), Section(j, "overwrite");
    assert Get(Expand(j), [k] + path) == Get(Layer(default', own, overwrite), path) by {
      assert ([k] + path)[1..] == path;
    }
    LayerPrecedence(default', own, overwrite, path);
    hide Layer, Expand, Section, Get, Decides, Silent, Merge, Resolved;
  }

  lemma LayerPrecedence(default': Option<Json>, own: Json, overwrite: Option<Json>, path: seq<string>)
    ensures Get(Layer(default', own, overwrite), path) == Resolved(default', own, overwrite, path)
  {
    var top := own;
    if overwrite.Some? {
      top := Merge(own, overwrite.value);
      MergeGet(own, overwrite.value, path);
      MergeDecides(own, overwrite.value, path);
      if Silent(overwrite.value, path) && Decides(own, path) && Get(own, path).None? {
        MergeOverLeaf(own, overwrite.value, path);
      }
    }
    if default'.Some? {
      MergeGet(default'.value, top, path);
    }
    hide Merge, LeafDepth, Get;
  }

  // ---------------------------------------------------------------- layers, seen path by path

  /** The same leaf, or two dictionaries, or nothing both times. */
  predicate Alike(a: Option<Json>, b: Option<Json>) {
    if a.Some? && a.value.Dict? then b.Some? && b.value.Dict? else a == b
  }

  /** The highest of the layers that says something about the path, or -1. */
  function Highest(layers: seq<Json>, path: seq<string>): (i: int)
    ensures -1 <= i < |layers|
    ensures i >= 0 ==> !Silent(layers[i], path)
    ensures forall j | i < j < |layers| :: Silent(layers[j], path)
  {
    if layers == [] then -1
    else if !Silent(layers[|layers| - 1], path) then |layers| - 1
    else Highest(layers[..|layers| - 1], path)
  }

  /** At this path `t` holds what the highest layer that says anything about it holds: its leaf, or a dictionary, or
      nothing if that layer has a leaf further up. */
  predicate HoldsAt(t: Json, layers: seq<Json>, path: seq<string>) {
    var i := Highest(layers, path);
    if i < 0 then Get(t, path).None? else Alike(Get(t, path), Get(layers[i], path))
  }

  ghost predicate Holds(t: Json, layers: seq<Json>) {
    forall path :: HoldsAt(t, layers, path)
  }

  lemma HoldsOne(t: Json)
    ensures Holds(t, [t])
  {
    forall path ensures HoldsAt(t, [t], path) {
      assert [t][..0] == [];
    }
  }

  /** Merging puts one more layer on top. */
  lemma MergeHolds(t: Json, layers: seq<Json>, top: Json)
    requires Holds(t, layers)
    ensures Holds(Merge(t, top), layers + [top])
  {
    forall path ensures HoldsAt(Merge(t, top), layers + [top], path) {
      assert HoldsAt(t, layers, path);
      assert (layers + [top])[..|layers|] == layers;
      MergeGet(t, top, path);
    }
  }

  /** A tree is determined by what it holds at every path. */
  lemma {:induction false} AlikeEverywhere(a: Json, b: Json)
    requires forall path :: Alike(Get(a, path), Get(b, path))
    ensures a == b
    decreases a
  {
    assert Alike(Get(a, []), Get(b, []));
    if a.Dict? {
      forall k: string
        ensures k in a.m <==> k in b.m
        ensures k in a.m && k in b.m ==> a.m[k] == b.m[k]
      {
        assert Alike(Get(a, [k]), Get(b, [k]));
        assert [k][1..] == [];
        assert Get(a, [k]) == if k in a.m then Some(a.m[k]) else None;
        assert Get(b, [k]) == if k in b.m then Some(b.m[k]) else None;
        if k in a.m && k in b.m {
          forall path ensures Alike(Get(a.m[k], path), Get(b.m[k], path)) {
            assert Alike(Get(a, [k] + path), Get(b, [k] + path));
            assert ([k] + path)[1..] == path;
          }
          AlikeEverywhere(a.m[k], b.m[k]);
        }
      }
      assert a.m == b.m;
    }
  }

  /** So the layers leave no choice. */
  lemma HoldsIsExact(a: Json, b: Json, layers: seq<Json>)
    requires Holds(a, layers) && Holds(b, layers)
    ensures a == b
  {
    forall path ensures Alike(Get(a, path), Get(b, path)) {
      assert HoldsAt(a, layers, path) && HoldsAt(b, layers, path);
    }
    AlikeEverywhere(a, b);
  }

  lemma {:induction false} CleanPath(j: Json, path: seq<string>)
    requires Clean(j) && Get(j, path).Some?
    ensures forall k | k in path :: !Special(k)
    decreases |path|
  {
    if path != [] { CleanPath(j.m[path[0]], path[1..]); }
  }

  lemma {:induction false} UncleanPath(j: Json) returns (path: seq<string>)
    requires !Clean(j)
    ensures Get(j, path).Some? && exists k :: k in path && Special(k)
  {
    var k :| k in j.m && (Special(k) || !Clean(j.m[k]));
    var rest := [];
    if !Special(k) { rest := UncleanPath(j.m[k]); }
    path := [k] + rest;
    assert path[1..] == rest && k in path;
    assert forall x | x in rest :: x in path;
  }

  /** Layers without special keys make a tree without special keys. */
  lemma CleanLayers(t: Json, layers: seq<Json>)
    requires Holds(t, layers) && forall i | 0 <= i < |layers| :: Clean(layers[i])
    ensures Clean(t)
  {
    if !Clean(t) {
      var path := UncleanPath(t);
      assert HoldsAt(t, layers, path);
      CleanPath(layers[Highest(layers, path)], path);
    }
  }
}
