/** Deleting a container together with the containers its label says it depends on. */
module DependentDeletion {
  import opened Options

  type Container = nat

  /** The containers that exist, each with the list in its label, and the containers that the store has records of. */
  datatype World = World(live: map<Container, seq<Container>>, records: set<Container>)

  /** `delete_container` with `depth` stack frames left; `None` means that they do not suffice. */
  function Delete(w: World, c: Container, depth: nat): Option<World>
    decreases depth, 0
  {
    if depth == 0 then None
    else
      var rest := DeleteAll(w, DependsOn(w.live, c), depth - 1);
      if rest.None? then None else Some(World(rest.value.live - {c}, rest.value.records - {c}))
  }

  /** The list in the label of a container; one that does not exist any more has none. */
  function DependsOn(live: map<Container, seq<Container>>, c: Container): seq<Container> {
    if c in live then live[c] else []
  }

  function DeleteAll(w: World, list: seq<Container>, depth: nat): Option<World>
    decreases depth, |list| + 1
  {
    if list == [] then Some(w)
    else
      var front := DeleteAll(w, list[..|list| - 1], depth);
      if front.None? then None else Delete(front.value, list[|list| - 1], depth)
  }

  // ---------------------------------------------------------------- the dependency graph

  predicate Edge(live: map<Container, seq<Container>>, x: Container, y: Container) {
    x in live && y in live[x]
  }

  predicate Walk(live: map<Container, seq<Container>>, c: Container, walk: seq<Container>) {
    walk != [] && walk[0] == c && forall i | 0 < i < |walk| :: Edge(live, walk[i - 1], walk[i])
  }

  predicate Distinct(walk: seq<Container>) {
    forall i, j | 0 <= i < j < |walk| :: walk[i] != walk[j]
  }

  ghost predicate Reaches(live: map<Container, seq<Container>>, c: Container, x: Container) {
    exists walk :: Walk(live, c, walk) && walk[|walk| - 1] == x
  }

  /** No cycle is reachable from `c`. */
  ghost predicate Acyclic(live: map<Container, seq<Container>>, c: Container) {
    forall walk | Walk(live, c, walk) :: Distinct(walk)
  }

  ghost predicate ReachedFrom(live: map<Container, seq<Container>>, list: seq<Container>, x: Container) {
    exists i :: 0 <= i < |list| && Reaches(live, list[i], x)
  }

  /** Everything that some container of the list reaches. */
  ghost function Below(live: map<Container, seq<Container>>, list: seq<Container>): iset<Container> {
    iset x: Container | ReachedFrom(live, list, x)
  }

  ghost function Purge(w: World, gone: iset<Container>): World {
    World(map x | x in w.live && x !in gone :: w.live[x], set x | x in w.records && x !in gone)
  }

  ghost predicate Closed(live: map<Container, seq<Container>>, gone: iset<Container>) {
    forall x, y | Edge(live, x, y) && x in gone :: y in gone
  }

  lemma WalkSnoc(live: map<Container, seq<Container>>, c: Container, walk: seq<Container>, y: Container)
    requires Walk(live, c, walk) && Edge(live, walk[|walk| - 1], y)
    ensures Walk(live, c, walk + [y]) && Reaches(live, c, y)
  {
    var longer := walk + [y];
    forall i | 0 < i < |longer| ensures Edge(live, longer[i - 1], longer[i]) {
      if i < |walk| { assert Edge(live, walk[i - 1], walk[i]); }
    }
    assert longer[|longer| - 1] == y;
  }

  lemma BelowClosed(live: map<Container, seq<Container>>, list: seq<Container>)
    ensures Closed(live, Below(live, list))
  {
    forall x, y | Edge(live, x, y) && x in Below(live, list) ensures y in Below(live, list) {
      var i :| 0 <= i < |list| && Reaches(live, list[i], x);
      var walk :| Walk(live, list[i], walk) && walk[|walk| - 1] == x;
      WalkSnoc(live, list[i], walk, y);
    }
  }

  /** In a closed set a walk stays. */
  lemma {:induction false} StaysGone(live: map<Container, seq<Container>>, gone: iset<Container>, c: Container,
                                     walk: seq<Container>, k: nat)
    requires Closed(live, gone) && Walk(live, c, walk) && k < |walk| && walk[k] in gone
    ensures walk[|walk| - 1] in gone
    decreases |walk| - k
  {
    if k + 1 < |walk| {
      assert Edge(live, walk[k + 1 - 1], walk[k + 1]);
      StaysGone(live, gone, c, walk, k + 1);
    }
  }

  /** A walk that ends outside a closed set is still there when the set is gone, and no other walk is new. */
  lemma WalkSurvives(w: World, gone: iset<Container>, c: Container, walk: seq<Container>)
    requires Closed(w.live, gone)
    ensures Walk(w.live, c, walk) && walk[|walk| - 1] !in gone ==> Walk(Purge(w, gone).live, c, walk)
    ensures Walk(Purge(w, gone).live, c, walk) ==> Walk(w.live, c, walk)
  {
    var live := Purge(w, gone).live;
    if Walk(w.live, c, walk) && walk[|walk| - 1] !in gone {
      forall i | 0 < i < |walk| ensures Edge(live, walk[i - 1], walk[i]) {
        assert Edge(w.live, walk[i - 1], walk[i]);
        if walk[i - 1] in gone { StaysGone(w.live, gone, c, walk, i - 1); }
      }
    }
    if Walk(live, c, walk) {
      forall i | 0 < i < |walk| ensures Edge(w.live, walk[i - 1], walk[i]) {
        assert Edge(live, walk[i - 1], walk[i]);
      }
    }
  }

  lemma ReachSurvives(w: World, gone: iset<Container>, c: Container, x: Container)
    requires Closed(w.live, gone) && x !in gone
    ensures Reaches(Purge(w, gone).live, c, x) <==> Reaches(w.live, c, x)
  {
    if Reaches(Purge(w, gone).live, c, x) {
      var walk :| Walk(Purge(w, gone).live, c, walk) && walk[|walk| - 1] == x;
      WalkSurvives(w, gone, c, walk);
    }
    if Reaches(w.live, c, x) {
      var walk :| Walk(w.live, c, walk) && walk[|walk| - 1] == x;
      WalkSurvives(w, gone, c, walk);
    }
  }

  // ---------------------------------------------------------------- what is deleted

  lemma PurgeTwice(w: World, list: seq<Container>, c: Container)
    ensures var gone := Below(w.live, list);
            Purge(Purge(w, gone), Below(Purge(w, gone).live, [c])) == Purge(w, Below(w.live, list + [c]))
  {
    var gone := Below(w.live, list);
    BelowClosed(w.live, list);
    forall x: Container | x !in gone
      ensures x in Below(Purge(w, gone).live, [c]) <==> x in Below(w.live, list + [c])
    {
      ReachSurvives(w, gone, c, x);
      BelowOne(Purge(w, gone).live, c, x);
      BelowSnoc(w.live, list, c, x);
    }
    forall x: Container | x in gone ensures x in Below(w.live, list + [c]) {
      BelowSnoc(w.live, list, c, x);
    }
    hide Below;
    var once, twice := Purge(w, Below(w.live, list + [c])), Purge(Purge(w, gone), Below(Purge(w, gone).live, [c]));
    assert once.live == twice.live && once.records == twice.records;
  }

  lemma BelowOne(live: map<Container, seq<Container>>, c: Container, x: Container)
    ensures x in Below(live, [c]) <==> Reaches(live, c, x)
  {
    assert [c][0] == c;
  }

  lemma BelowSnoc(live: map<Container, seq<Container>>, list: seq<Container>, c: Container, x: Container)
    ensures x in Below(live, list + [c]) <==> x in Below(live, list) || Reaches(live, c, x)
  {
    var longer := list + [c];
    assert longer[|list|] == c && forall i | 0 <= i < |list| :: longer[i] == list[i];
  }

  /** What a container reaches is itself and what its label reaches. */
  lemma ReachUnfold(live: map<Container, seq<Container>>, c: Container, x: Container)
    ensures Reaches(live, c, x) <==> x == c || x in Below(live, DependsOn(live, c))
  {
    if Reaches(live, c, x) && x != c {
      var walk :| Walk(live, c, walk) && walk[|walk| - 1] == x;
      assert Edge(live, walk[1 - 1], walk[1]);
      assert walk[1..][|walk[1..]| - 1] == x;
      assert walk[1] in live[c];
    }
    if x == c { assert Walk(live, c, [c]) && [c][|[c]| - 1] == c; }
    if x in Below(live, DependsOn(live, c)) {
      var i :| 0 <= i < |DependsOn(live, c)| && Reaches(live, DependsOn(live, c)[i], x);
      var walk :| Walk(live, DependsOn(live, c)[i], walk) && walk[|walk| - 1] == x;
      assert ([c] + walk)[|[c] + walk| - 1] == x;
    }
  }

  /** A deletion that ends has deleted the container and everything it depends on, directly or not, and nothing else. */
  lemma {:induction false} DeleteTakesReachable(w: World, c: Container, depth: nat)
    requires Delete(w, c, depth).Some?
    ensures Delete(w, c, depth).value == Purge(w, Below(w.live, [c]))
    decreases depth, 0
  {
    var list := DependsOn(w.live, c);
    var rest := DeleteAll(w, list, depth - 1).value;
    DeleteAllTakesReachable(w, list, depth - 1);
    forall x: Container ensures x in Below(w.live, [c]) <==> x == c || x in Below(w.live, list) {
      BelowOne(w.live, c, x);
      ReachUnfold(w.live, c, x);
    }
    hide Below;
    var all := Purge(w, Below(w.live, [c]));
    assert all.live == rest.live - {c} && all.records == rest.records - {c};
  }

  lemma {:induction false} DeleteAllTakesReachable(w: World, list: seq<Container>, depth: nat)
    requires DeleteAll(w, list, depth).Some?
    ensures DeleteAll(w, list, depth).value == Purge(w, Below(w.live, list))
    decreases depth, |list| + 1
  {
    if list == [] {
      assert Purge(w, Below(w.live, [])).live == w.live && Purge(w, Below(w.live, [])).records == w.records;
    } else {
      var before, c := list[..|list| - 1], list[|list| - 1];
      DeleteAllTakesReachable(w, before, depth);
      DeleteTakesReachable(DeleteAll(w, before, depth).value, c, depth);
      PurgeTwice(w, before, c);
      assert list == before + [c];
    }
  }

  // ---------------------------------------------------------------- when it ends

  /** If every container of a list is acyclic once those before it are gone, the whole list was. */
  lemma AcyclicBack(w: World, list: seq<Container>, c: Container)
    requires forall d | d in list :: Acyclic(w.live, d)
    requires Acyclic(Purge(w, Below(w.live, list)).live, c)
    ensures Acyclic(w.live, c)
  {
    var gone := Below(w.live, list);
    BelowClosed(w.live, list);
    forall walk | Walk(w.live, c, walk) ensures Distinct(walk) {
      forall i, j | 0 <= i < j < |walk| ensures walk[i] != walk[j] {
        if walk[i] in gone {
          var k :| 0 <= k < |list| && Reaches(w.live, list[k], walk[i]);
          var lead :| Walk(w.live, list[k], lead) && lead[|lead| - 1] == walk[i];
          var long := lead + walk[i..][1..];
          assert list[k] in list;
          assert Walk(w.live, list[k], long);
          assert long[|lead| - 1] == walk[i] && long[|lead| - 1 + j - i] == walk[j];
        } else if walk[j] !in gone {
          WalkSurvives(w, gone, c, walk[..j + 1]);
          assert Distinct(walk[..j + 1]);
          assert walk[..j + 1][i] == walk[i] && walk[..j + 1][j] == walk[j];
        }
      }
    }
  }

  lemma {:induction false} EndingIsAcyclic(w: World, c: Container, depth: nat)
    requires Delete(w, c, depth).Some?
    ensures Acyclic(w.live, c)
    decreases depth, 0
  {
    var list := DependsOn(w.live, c);
    EndingListIsAcyclic(w, list, depth - 1);
    forall walk | Walk(w.live, c, walk) ensures Distinct(walk) {
      if |walk| > 1 {
        assert Edge(w.live, walk[1 - 1], walk[1]);
        assert walk[1] in list;
        assert Distinct(walk[1..]);
        forall j | 0 < j < |walk| ensures walk[j] != c {
          var lasso := walk[1..][..j] + [walk[1]];
          assert lasso[0] == walk[1] && lasso[j] == walk[1];
          if walk[j] == c { WalkSnoc(w.live, walk[1], walk[1..][..j], walk[1]); }
        }
        assert forall i | 0 < i < |walk| :: walk[1..][i - 1] == walk[i];
      }
    }
  }

  lemma {:induction false} EndingListIsAcyclic(w: World, list: seq<Container>, depth: nat)
    requires DeleteAll(w, list, depth).Some?
    ensures forall d | d in list :: Acyclic(w.live, d)
    decreases depth, |list| + 1
  {
    if list != [] {
      var before, c := list[..|list| - 1], list[|list| - 1];
      EndingListIsAcyclic(w, before, depth);
      DeleteAllTakesReachable(w, before, depth);
      EndingIsAcyclic(DeleteAll(w, before, depth).value, c, depth);
      AcyclicBack(w, before, c);
      assert list == before + [c];
    }
  }

  /** Enough frames for the longest walk are enough. */
  lemma {:induction false} ShortWalksEnd(w: World, c: Container, depth: nat)
    requires forall walk | Walk(w.live, c, walk) :: |walk| <= depth
    ensures Delete(w, c, depth).Some?
    decreases depth, 0
  {
    assert Walk(w.live, c, [c]);
    forall d, walk | d in DependsOn(w.live, c) && Walk(w.live, d, walk) ensures |walk| <= depth - 1 {
      assert |[c] + walk| <= depth;
    }
    ShortWalksEndAll(w, DependsOn(w.live, c), depth - 1);
  }

  lemma {:induction false} ShortWalksEndAll(w: World, list: seq<Container>, depth: nat)
    requires forall d, walk | d in list && Walk(w.live, d, walk) :: |walk| <= depth
    ensures DeleteAll(w, list, depth).Some?
    decreases depth, |list| + 1
  {
    if list != [] {
      var before, c := list[..|list| - 1], list[|list| - 1];
      ShortWalksEndAll(w, before, depth);
      DeleteAllTakesReachable(w, before, depth);
      BelowClosed(w.live, before);
      var w' := DeleteAll(w, before, depth).value;
      forall walk | Walk(w'.live, c, walk) ensures |walk| <= depth {
        WalkSurvives(w, Below(w.live, before), c, walk);
        assert c in list && Walk(w.live, c, walk);
      }
      ShortWalksEnd(w', c, depth);
    }
  }

  lemma {:induction false} DistinctInside(walk: seq<Container>, all: set<Container>)
    requires Distinct(walk) && forall i | 0 <= i < |walk| :: walk[i] in all
    ensures |walk| <= |all|
    decreases |walk|
  {
    if walk != [] {
      var last := walk[|walk| - 1];
      DistinctInside(walk[..|walk| - 1], all - {last});
    }
  }

  /** A deletion ends, with a deep enough stack, if and only if no cycle of labels is reachable. */
  lemma DeletionEndsIff(w: World, c: Container)
    ensures (exists depth :: Delete(w, c, depth).Some?) <==> Acyclic(w.live, c)
  {
    if Acyclic(w.live, c) {
      var depth := |w.live| + 1;
      forall walk | Walk(w.live, c, walk) ensures |walk| <= depth {
        var front := walk[..|walk| - 1];
        forall i | 0 <= i < |front| ensures front[i] in w.live.Keys {
          assert Edge(w.live, walk[i + 1 - 1], walk[i + 1]);
        }
        assert Distinct(front) by { assert Distinct(walk); }
        DistinctInside(front, w.live.Keys);
        assert |w.live.Keys| == |w.live|;
      }
      ShortWalksEnd(w, c, depth);
    }
    if depth :| Delete(w, c, depth).Some? { EndingIsAcyclic(w, c, depth); }
  }

  /** For instance, two containers that name each other. */
  lemma CycleNeverEnds(c: Container, d: Container, records: set<Container>, depth: nat)
    ensures Delete(World(map[c := [d], d := [c]], records), c, depth).None?
  {
    var w := World(map[c := [d], d := [c]], records);
    DeletionEndsIff(w, c);
    assert !Acyclic(w.live, c) by {
      assert Walk(w.live, c, [c, d, c]) && [c, d, c][0] == [c, d, c][2];
    }
  }

  // ---------------------------------------------------------------- the controller

  lemma {:induction false} FailureStays(w: World, list: seq<Container>, n: nat, depth: nat)
    requires n <= |list| && DeleteAll(w, list[..n], depth).None?
    ensures DeleteAll(w, list, depth).None?
    decreases |list| - n
  {
    if n == |list| {
      assert list[..n] == list;
    } else {
      assert list[..n + 1][..n] == list[..n];
      FailureStays(w, list, n + 1, depth);
    }
  }

  class DockerController {
    var live: map<Container, seq<Container>>
    var records: set<Container>

    ghost function View(): World
      reads this
    {
      World(live, records)
    }

    constructor (live: map<Container, seq<Container>>, records: set<Container>)
      ensures View() == World(live, records)
    {
      this.live, this.records := live, records;
    }

    /** Dependencies first, in the order of the label, then the container and its records. */
    method DeleteContainer(c: Container, depth: nat) returns (ok: bool)
      modifies this
      ensures ok <==> Delete(old(View()), c, depth).Some?
      ensures ok ==> View() == Purge(old(View()), Below(old(live), [c])) && Acyclic(old(live), c)
      decreases depth
    {
      if depth == 0 { return false; }
      ghost var start := View();
      var list := DependsOn(live, c);
      for i := 0 to |list|
        invariant DeleteAll(start, list[..i], depth - 1) == Some(View())
      {
        assert list[..i + 1][..i] == list[..i];
        ghost var before := View();
        ok := DeleteContainer(list[i], depth - 1);
        if !ok {
          FailureStays(start, list, i + 1, depth - 1);
          return false;
        }
        DeleteTakesReachable(before, list[i], depth - 1);
      }
      assert list[..|list|] == list;
      live := live - {c};
      records := records - {c};
      DeleteTakesReachable(start, c, depth);
      EndingIsAcyclic(start, c, depth);
      return true;
    }
  }
}
