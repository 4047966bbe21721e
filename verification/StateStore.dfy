/** The in-memory state provider, and the etcd provider that keeps the same information in a flat key space. */
module StateStore {
  import opened Options
  import opened KeyRange

  // ---------------------------------------------------------------- the in-memory provider

  datatype Local = Local(containers: map<Key, set<Key>>, uses: map<Key, nat>)

  function LocalUsers(l: Local, c: Key): set<Key> {
    if c in l.containers then l.containers[c] else {}
  }

  function LocalUses(l: Local, c: Key): nat {
    if c in l.uses then l.uses[c] else 0
  }

  function LocalAllocate(l: Local, c: Key, s: Key): Local {
    Local(l.containers[c := LocalUsers(l, c) + {s}], l.uses[c := LocalUses(l, c) + 1])
  }

  function LocalRelease(l: Local, c: Key, s: Key): Local {
    if c in l.containers then l.(containers := l.containers[c := l.containers[c] - {s}]) else l
  }

  function LocalRemove(l: Local, c: Key): Local {
    Local(l.containers - {c}, l.uses - {c})
  }

  class LocalStateProvider {
    var containers: map<Key, set<Key>>
    var containerUses: map<Key, nat>

    ghost function View(): Local
      reads this
    {
      Local(containers, containerUses)
    }

    /** `allocate_container` creates the set when the counter is missing, so both must be there or neither. */
    ghost predicate Valid()
      reads this
    {
      containers.Keys == containerUses.Keys
    }

    constructor ()
      ensures Valid() && View() == Local(map[], map[])
    {
      containers, containerUses := map[], map[];
    }

    method AllocateContainer(c: Key, s: Key)
      requires Valid()
      modifies this
      ensures Valid() && View() == LocalAllocate(old(View()), c, s)
    {
      assert c in containerUses <==> c in containers;
      if c !in containerUses {
        containers := containers[c := {}];
      }
      containers := containers[c := containers[c] + {s}];
      assert containers == old(containers)[c := LocalUsers(old(View()), c) + {s}];
      if c !in containerUses {
        containerUses := containerUses[c := 0];
      }
      containerUses := containerUses[c := containerUses[c] + 1];
      assert containerUses == old(containerUses)[c := LocalUses(old(View()), c) + 1];
    }

    method ReleaseContainer(c: Key, s: Key)
      requires Valid()
      modifies this
      ensures Valid() && View() == LocalRelease(old(View()), c, s)
    {
      if c in containers {
        containers := containers[c := containers[c] - {s}];
      }
    }

    method RemoveContainer(c: Key)
      requires Valid()
      modifies this
      ensures Valid() && View() == LocalRemove(old(View()), c)
    {
      if c in containers {
        containers := containers - {c};
      }
      if c in containerUses {
        containerUses := containerUses - {c};
      }
    }
  }

  // ---------------------------------------------------------------- the key space

  function Bytes(text: string): Key {
    seq(|text|, i requires 0 <= i < |text| => text[i] as int % 256)
  }

  const COLON: Byte := 58

  predicate ColonFree(id: Key) {
    COLON !in id
  }

  function ContainerPrefix(prefix: Key, c: Key): Key {
    prefix + Bytes("container:") + c
  }

  function AllocationPrefix(prefix: Key, c: Key): Key {
    ContainerPrefix(prefix, c) + Bytes(":allocation:")
  }

  function AllocationKey(prefix: Key, c: Key, s: Key): Key {
    AllocationPrefix(prefix, c) + s
  }

  function UsesPrefix(prefix: Key): Key {
    prefix + Bytes("container-uses:")
  }

  function UsesKey(prefix: Key, c: Key): Key {
    UsesPrefix(prefix) + c
  }

  datatype Value = Mark | Number(n: nat)

  type Store = map<Key, Value>

  // ---------------------------------------------------------------- operations on the key space

  function EtcdAllocate(kv: Store, prefix: Key, c: Key, s: Key): Store {
    var kv' := kv[AllocationKey(prefix, c, s) := Mark];
    kv'[UsesKey(prefix, c) := Number(EtcdUses(kv', prefix, c) + 1)]
  }

  function EtcdRelease(kv: Store, prefix: Key, c: Key, s: Key): Store {
    kv - {AllocationKey(prefix, c, s)}
  }

  /** A ranged delete from the key prefix of the container, which ends without a colon. */
  function EtcdRemove(kv: Store, prefix: Key, c: Key): Store {
    DeleteRange(kv, ContainerPrefix(prefix, c)) - {UsesKey(prefix, c)}
  }

  function DeleteRange(kv: Store, p: Key): Store {
    map k | k in kv && !InRange(k, p, RangeEndOf(p)) :: kv[k]
  }

  function Range(kv: Store, p: Key): set<Key> {
    set k | k in kv && InRange(k, p, RangeEndOf(p))
  }

  function EtcdCurrentUses(kv: Store, prefix: Key, c: Key): nat {
    |Range(kv, AllocationPrefix(prefix, c))|
  }

  function EtcdUses(kv: Store, prefix: Key, c: Key): nat {
    var k := UsesKey(prefix, c);
    if k in kv && kv[k].Number? then kv[k].n else 0
  }

  /** `key.split(':')[-1]`. */
  function LastField(k: Key): Key {
    if k == [] then []
    else if k[|k| - 1] == COLON then []
    else LastField(k[..|k| - 1]) + [k[|k| - 1]]
  }

  function EtcdUsesAtLeast(kv: Store, prefix: Key, min: int): set<Key> {
    set k | k in Range(kv, UsesPrefix(prefix)) && kv[k].Number? && kv[k].n >= min :: LastField(k)
  }

  // ---------------------------------------------------------------- what the key space stands for

  /** The sessions that the keys record on container `c`. */
  ghost function EtcdUsers(kv: Store, prefix: Key, c: Key): set<Key> {
    set k | k in kv && HasPrefix(k, AllocationPrefix(prefix, c)) :: k[|AllocationPrefix(prefix, c)|..]
  }

  ghost predicate UsersAgree(kv: Store, prefix: Key, l: Local) {
    forall c | ColonFree(c) :: EtcdUsers(kv, prefix, c) == LocalUsers(l, c)
  }

  ghost predicate UsesAgree(kv: Store, prefix: Key, l: Local) {
    && (forall c | ColonFree(c) :: UsesKey(prefix, c) in kv <==> c in l.uses)
    && (forall c | c in l.uses :: ColonFree(c) && kv[UsesKey(prefix, c)] == Number(l.uses[c]))
    && (forall k | k in kv && HasPrefix(k, UsesPrefix(prefix)) :: ColonFree(k[|UsesPrefix(prefix)|..]))
  }

  /** The key space says about every container with a proper id what the maps say. */
  ghost predicate Refines(kv: Store, prefix: Key, l: Local) {
    UsersAgree(kv, prefix, l) && UsesAgree(kv, prefix, l)
  }

  // ---------------------------------------------------------------- keys do not interfere

  lemma AllocationUser(kv: Store, prefix: Key, c: Key, s: Key)
    ensures s in EtcdUsers(kv, prefix, c) <==> AllocationKey(prefix, c, s) in kv
  {
    var p := AllocationPrefix(prefix, c);
    if AllocationKey(prefix, c, s) in kv {
      assert AllocationKey(prefix, c, s)[|p|..] == s;
      assert HasPrefix(AllocationKey(prefix, c, s), p);
    }
    if s in EtcdUsers(kv, prefix, c) {
      var k :| k in kv && HasPrefix(k, p) && k[|p|..] == s;
      assert k == p + s;
    }
  }

  /** Two ids without colons, each followed by a colon, agree as soon as one is a prefix of the other. */
  lemma {:induction false} SameField(a: Key, b: Key, x: Key, y: Key)
    requires ColonFree(a) && ColonFree(b)
    requires HasPrefix(a + [COLON] + x, b + [COLON] + y)
    ensures a == b
  {
    var u, v := a + [COLON] + x, b + [COLON] + y;
    assert u[0] == v[0];
    if a != [] && b != [] {
      assert u[1..] == a[1..] + [COLON] + x && v[1..] == b[1..] + [COLON] + y;
      SameField(a[1..], b[1..], x, y);
    }
  }

  /** An allocation key of one container is never in the range of another. */
  lemma AllocationKeysApart(prefix: Key, c: Key, c': Key, s: Key)
    requires ColonFree(c) && ColonFree(c') && HasPrefix(AllocationKey(prefix, c', s), AllocationPrefix(prefix, c))
    ensures c == c'
  {
    var head := prefix + Bytes("container:");
    var tail := Bytes(":allocation:");
    assert tail == [COLON] + tail[1..];
    var k, p := AllocationKey(prefix, c', s), AllocationPrefix(prefix, c);
    assert k == head + (c' + [COLON] + (tail[1..] + s));
    assert p == head + (c + [COLON] + tail[1..]);
    StripHead(head, c' + [COLON] + (tail[1..] + s), c + [COLON] + tail[1..]);
    SameField(c', c, tail[1..] + s, tail[1..]);
  }

  lemma StripHead(head: Key, a: Key, b: Key)
    ensures HasPrefix(head + a, head + b) <==> HasPrefix(a, b)
  {
    if HasPrefix(a, b) {
      assert a == b + a[|b|..];
      assert head + a == (head + b) + a[|b|..];
    }
    if HasPrefix(head + a, head + b) {
      assert (head + a)[|head|..] == a;
      assert (head + b)[|head|..] == b;
      assert head + a == (head + b) + (head + a)[|head + b|..];
      assert a == b + (head + a)[|head + b|..];
    }
  }

  /** Use counters live apart from everything else a container has. */
  lemma UsesKeysApart(prefix: Key, k: Key, c: Key)
    requires HasPrefix(k, UsesPrefix(prefix))
    ensures !HasPrefix(k, ContainerPrefix(prefix, c)) && !HasPrefix(k, AllocationPrefix(prefix, c))
  {
    var i := |prefix| + 9;
    assert Bytes("container-uses:")[9] == 45 && Bytes("container:")[9] == COLON;
    assert UsesPrefix(prefix)[i] == 45;
    assert ContainerPrefix(prefix, c)[i] == COLON;
    assert AllocationPrefix(prefix, c)[i] == COLON;
  }

  lemma UsesKeyInjective(prefix: Key, c: Key, c': Key)
    requires UsesKey(prefix, c) == UsesKey(prefix, c')
    ensures c == c'
  {
    assert UsesKey(prefix, c)[|UsesPrefix(prefix)|..] == c;
    assert UsesKey(prefix, c')[|UsesPrefix(prefix)|..] == c';
  }

  // ---------------------------------------------------------------- the queries agree

  lemma {:induction false} InjectiveSize<A, B>(a: set<A>, b: set<B>, f: A -> B)
    requires forall x | x in a :: f(x) in b
    requires forall y | y in b :: exists x :: x in a && f(x) == y
    requires forall x, y | x in a && y in a && f(x) == f(y) :: x == y
    ensures |a| == |b|
    decreases |a|
  {
    if a == {} {
      assert b == {};
    } else {
      var x :| x in a;
      InjectiveSize(a - {x}, b - {f(x)}, f);
    }
  }

  /** The count that etcd returns for the allocation range is the number of sessions recorded. */
  lemma CountIsUsers(kv: Store, prefix: Key, c: Key)
    ensures EtcdCurrentUses(kv, prefix, c) == |EtcdUsers(kv, prefix, c)|
  {
    var p := AllocationPrefix(prefix, c);
    forall k ensures InRange(k, p, RangeEndOf(p)) <==> HasPrefix(k, p) {
      RangeIsPrefix(p, k);
    }
    var a, b := Range(kv, p), EtcdUsers(kv, prefix, c);
    var f := (k: Key) => if |p| <= |k| then k[|p|..] else [];
    forall y | y in b ensures exists x :: x in a && f(x) == y {
      AllocationUser(kv, prefix, c, y);
      assert f(AllocationKey(prefix, c, y)) == y;
    }
    forall x, y | x in a && y in a && f(x) == f(y) ensures x == y {
      assert x == p + x[|p|..] && y == p + y[|p|..];
    }
    InjectiveSize(a, b, f);
  }

  lemma {:induction false} LastFieldOf(head: Key, c: Key)
    requires ColonFree(c) && head != [] && head[|head| - 1] == COLON
    ensures LastField(head + c) == c
  {
    if c == [] {
      assert head + c == head;
    } else {
      assert (head + c)[..|head + c| - 1] == head + c[..|c| - 1];
      LastFieldOf(head, c[..|c| - 1]);
    }
  }

  /** Every query gives the same answer on both providers. */
  lemma QueriesAgree(kv: Store, prefix: Key, l: Local, c: Key, min: int)
    requires Refines(kv, prefix, l) && ColonFree(c)
    ensures EtcdCurrentUses(kv, prefix, c) == |LocalUsers(l, c)|
    ensures EtcdUses(kv, prefix, c) == LocalUses(l, c)
    ensures EtcdUsesAtLeast(kv, prefix, min) == set d | d in l.uses && l.uses[d] >= min
  {
    CountIsUsers(kv, prefix, c);
    forall d ensures d in EtcdUsesAtLeast(kv, prefix, min) <==> d in l.uses && l.uses[d] >= min {
      UsesRanged(kv, prefix, l, d, min);
    }
  }

  lemma UsesRanged(kv: Store, prefix: Key, l: Local, d: Key, min: int)
    requires Refines(kv, prefix, l)
    ensures d in EtcdUsesAtLeast(kv, prefix, min) <==> d in l.uses && l.uses[d] >= min
  {
    var p := UsesPrefix(prefix);
    assert Bytes("container-uses:")[14] == COLON;
    if d in l.uses && l.uses[d] >= min {
      var k := UsesKey(prefix, d);
      RangeIsPrefix(p, k);
      assert HasPrefix(k, p) && k in Range(kv, p);
      LastFieldOf(p, d);
    }
    if d in EtcdUsesAtLeast(kv, prefix, min) {
      var k :| k in Range(kv, p) && kv[k].Number? && kv[k].n >= min && LastField(k) == d;
      RangeIsPrefix(p, k);
      var e := k[|p|..];
      assert k == UsesKey(prefix, e);
      LastFieldOf(p, e);
    }
  }

  // ---------------------------------------------------------------- the updates agree

  lemma AllocateUsers(kv: Store, prefix: Key, c: Key, s: Key, d: Key)
    requires ColonFree(c) && ColonFree(d)
    ensures EtcdUsers(EtcdAllocate(kv, prefix, c, s), prefix, d)
         == EtcdUsers(kv, prefix, d) + (if c == d then {s} else {})
  {
    var kv' := EtcdAllocate(kv, prefix, c, s);
    forall x ensures x in EtcdUsers(kv', prefix, d) <==> x in EtcdUsers(kv, prefix, d) || (c == d && x == s) {
      AllocationUser(kv', prefix, d, x);
      AllocationUser(kv, prefix, d, x);
      var k := AllocationKey(prefix, d, x);
      assert HasPrefix(k, AllocationPrefix(prefix, d));
      if k == UsesKey(prefix, c) {
        UsesKeysApart(prefix, k, d);
      }
      if k == AllocationKey(prefix, c, s) {
        AllocationKeysApart(prefix, d, c, s);
        assert k[|AllocationPrefix(prefix, d)|..] == x;
        assert k[|AllocationPrefix(prefix, c)|..] == s;
      }
    }
  }

  lemma AllocateRefines(kv: Store, prefix: Key, l: Local, c: Key, s: Key)
    requires Refines(kv, prefix, l) && ColonFree(c)
    ensures Refines(EtcdAllocate(kv, prefix, c, s), prefix, LocalAllocate(l, c, s))
  {
    AllocateUsersAgree(kv, prefix, l, c, s);
    AllocateUsesAgree(kv, prefix, l, c, s);
    hide UsersAgree, UsesAgree;
  }

  lemma AllocateUsersAgree(kv: Store, prefix: Key, l: Local, c: Key, s: Key)
    requires UsersAgree(kv, prefix, l) && ColonFree(c)
    ensures UsersAgree(EtcdAllocate(kv, prefix, c, s), prefix, LocalAllocate(l, c, s))
  {
    var kv', l' := EtcdAllocate(kv, prefix, c, s), LocalAllocate(l, c, s);
    forall d | ColonFree(d) ensures EtcdUsers(kv', prefix, d) == LocalUsers(l', d) {
      AllocateUsers(kv, prefix, c, s, d);
    }
  }

  lemma AllocateUsesAgree(kv: Store, prefix: Key, l: Local, c: Key, s: Key)
    requires UsesAgree(kv, prefix, l) && ColonFree(c)
    ensures UsesAgree(EtcdAllocate(kv, prefix, c, s), prefix, LocalAllocate(l, c, s))
  {
    var kv', l' := EtcdAllocate(kv, prefix, c, s), LocalAllocate(l, c, s);
    var a := AllocationKey(prefix, c, s);
    UsesApartFromAllocation(prefix, c, c, s);
    forall d | ColonFree(d)
      ensures UsesKey(prefix, d) in kv' <==> d in l'.uses
      ensures d in l'.uses ==> kv'[UsesKey(prefix, d)] == Number(l'.uses[d])
    {
      UsesApartFromAllocation(prefix, d, c, s);
      if UsesKey(prefix, d) == UsesKey(prefix, c) {
        UsesKeyInjective(prefix, d, c);
      }
    }
    forall k | k in kv' && HasPrefix(k, UsesPrefix(prefix)) ensures ColonFree(k[|UsesPrefix(prefix)|..]) {
      if k == a {
        assert HasPrefix(a, AllocationPrefix(prefix, c));
        UsesKeysApart(prefix, a, c);
      } else if k == UsesKey(prefix, c) {
        assert k[|UsesPrefix(prefix)|..] == c;
      }
    }
  }

  lemma UsesApartFromAllocation(prefix: Key, d: Key, c: Key, s: Key)
    ensures UsesKey(prefix, d) != AllocationKey(prefix, c, s)
  {
    var k := UsesKey(prefix, d);
    assert HasPrefix(k, UsesPrefix(prefix));
    UsesKeysApart(prefix, k, c);
    assert HasPrefix(AllocationKey(prefix, c, s), AllocationPrefix(prefix, c));
  }

  lemma ReleaseRefines(kv: Store, prefix: Key, l: Local, c: Key, s: Key)
    requires Refines(kv, prefix, l) && ColonFree(c)
    ensures Refines(EtcdRelease(kv, prefix, c, s), prefix, LocalRelease(l, c, s))
  {
    var kv', l' := EtcdRelease(kv, prefix, c, s), LocalRelease(l, c, s);
    forall d | ColonFree(d)
      ensures EtcdUsers(kv', prefix, d) == LocalUsers(l', d)
      ensures UsesKey(prefix, d) in kv' <==> d in l'.uses
      ensures d in l'.uses ==> kv'[UsesKey(prefix, d)] == Number(l'.uses[d])
    {
      UsesApartFromAllocation(prefix, d, c, s);
      forall x ensures x in EtcdUsers(kv', prefix, d) <==> x in EtcdUsers(kv, prefix, d) && !(c == d && x == s) {
        AllocationUser(kv', prefix, d, x);
        AllocationUser(kv, prefix, d, x);
        var k := AllocationKey(prefix, d, x);
        if k == AllocationKey(prefix, c, s) {
          assert HasPrefix(k, AllocationPrefix(prefix, d));
          AllocationKeysApart(prefix, d, c, s);
          assert k[|AllocationPrefix(prefix, d)|..] == x;
          assert k[|AllocationPrefix(prefix, c)|..] == s;
        }
      }
    }
  }

  /** What removing a container leaves of another: nothing, if its id begins with the removed id. */
  lemma RemoveUsers(kv: Store, prefix: Key, c: Key, d: Key)
    ensures EtcdUsers(EtcdRemove(kv, prefix, c), prefix, d)
         == if HasPrefix(d + Bytes(":allocation:"), c) then {} else EtcdRemoveKeeps(kv, prefix, c, d)
  {
    var kv' := EtcdRemove(kv, prefix, c);
    var p := ContainerPrefix(prefix, c);
    var q := AllocationPrefix(prefix, d);
    var head := prefix + Bytes("container:");
    assert q == head + (d + Bytes(":allocation:")) && p == head + c;
    StripHead(head, d + Bytes(":allocation:"), c);
    forall x ensures x in EtcdUsers(kv', prefix, d) <==>
                     x in EtcdUsers(kv, prefix, d) && !HasPrefix(AllocationKey(prefix, d, x), p)
    {
      AllocationUser(kv', prefix, d, x);
      AllocationUser(kv, prefix, d, x);
      var k := AllocationKey(prefix, d, x);
      RangeIsPrefix(p, k);
      UsesApartFromAllocation(prefix, c, d, x);
    }
    if HasPrefix(q, p) {
      forall x ensures HasPrefix(AllocationKey(prefix, d, x), p) {
        assert q == p + q[|p|..];
        assert AllocationKey(prefix, d, x) == p + (q[|p|..] + x);
      }
    }
  }

  ghost function EtcdRemoveKeeps(kv: Store, prefix: Key, c: Key, d: Key): set<Key> {
    set x | x in EtcdUsers(kv, prefix, d) && !HasPrefix(AllocationKey(prefix, d, x), ContainerPrefix(prefix, c))
  }

  /** A colon-free id in front of `d:allocation:` is in front of `d`. */
  lemma ColonEndsId(c: Key, d: Key)
    requires ColonFree(c)
    ensures HasPrefix(d + Bytes(":allocation:"), c) <==> HasPrefix(d, c)
  {
    var t := Bytes(":allocation:");
    if HasPrefix(d + t, c) {
      assert d + t + [] == d + t;
      AllocationFieldEnds(c, d, []);
    }
    if HasPrefix(d, c) {
      assert d + t == c + (d[|c|..] + t);
    }
  }

  lemma RemoveUsersExact(kv: Store, prefix: Key, c: Key, d: Key)
    requires ColonFree(c) && ColonFree(d)
    ensures EtcdUsers(EtcdRemove(kv, prefix, c), prefix, d) == if HasPrefix(d, c) then {} else EtcdUsers(kv, prefix, d)
  {
    RemoveUsers(kv, prefix, c, d);
    ColonEndsId(c, d);
    if !HasPrefix(d, c) {
      forall x ensures !HasPrefix(AllocationKey(prefix, d, x), ContainerPrefix(prefix, c)) {
        var head := prefix + Bytes("container:");
        var rest := d + Bytes(":allocation:") + x;
        assert AllocationKey(prefix, d, x) == head + rest && ContainerPrefix(prefix, c) == head + c;
        StripHead(head, rest, c);
        if HasPrefix(rest, c) {
          AllocationFieldEnds(c, d, x);
        }
      }
    }
  }

  lemma AllocationFieldEnds(c: Key, d: Key, x: Key)
    requires ColonFree(c) && HasPrefix(d + Bytes(":allocation:") + x, c)
    ensures HasPrefix(d, c)
  {
    var t := Bytes(":allocation:") + x;
    var k := d + Bytes(":allocation:") + x;
    assert k == d + t && t[0] == COLON;
    assert k[|d|] == COLON;
    assert forall i | 0 <= i < |c| :: k[i] == c[i] && c[i] in c;
    assert |c| <= |d|;
    assert k[..|c|] == c && d[..|c|] == k[..|c|];
    assert d == c + d[|c|..];
  }

  /** Nobody is recorded on another container whose id begins with `c`. */
  ghost predicate NoLongerIds(l: Local, c: Key) {
    forall d | ColonFree(d) && d != c && HasPrefix(d, c) :: LocalUsers(l, d) == {}
  }

  /** Removing a container does what the in-memory provider does if and only if no container whose id
      extends the removed id has users: the deleted key range ends without a separator. */
  lemma RemoveRefinesIff(kv: Store, prefix: Key, l: Local, c: Key)
    requires Refines(kv, prefix, l) && ColonFree(c)
    ensures Refines(EtcdRemove(kv, prefix, c), prefix, LocalRemove(l, c)) <==> NoLongerIds(l, c)
  {
    hide UsersAgree, UsesAgree, NoLongerIds;
    RemoveUses(kv, prefix, l, c);
    RemoveUsersIff(kv, prefix, l, c);
  }

  /** For instance, of two containers named `1` and `12`: removing the first takes the second one's user away in etcd,
      and not in memory. */
  lemma RemoveTakesLongerIds(prefix: Key, c: Key, more: Key, s: Key)
    requires ColonFree(c) && ColonFree(more) && more != []
    ensures var kv, l := EtcdAllocate(map[], prefix, c + more, s), LocalAllocate(Local(map[], map[]), c + more, s);
            && Refines(kv, prefix, l)
            && !Refines(EtcdRemove(kv, prefix, c), prefix, LocalRemove(l, c))
            && EtcdCurrentUses(EtcdRemove(kv, prefix, c), prefix, c + more) == 0
            && LocalUsers(LocalRemove(l, c), c + more) == {s}
  {
    var kv, l := EtcdAllocate(map[], prefix, c + more, s), LocalAllocate(Local(map[], map[]), c + more, s);
    assert Refines(map[], prefix, Local(map[], map[]));
    AllocateRefines(map[], prefix, Local(map[], map[]), c + more, s);
    RemoveRefinesIff(kv, prefix, l, c);
    RemoveUsersExact(kv, prefix, c, c + more);
    CountIsUsers(EtcdRemove(kv, prefix, c), prefix, c + more);
    assert HasPrefix(c + more, c);
  }

  lemma RemoveUsersIff(kv: Store, prefix: Key, l: Local, c: Key)
    requires UsersAgree(kv, prefix, l) && ColonFree(c)
    ensures UsersAgree(EtcdRemove(kv, prefix, c), prefix, LocalRemove(l, c)) <==> NoLongerIds(l, c)
  {
    var kv', l' := EtcdRemove(kv, prefix, c), LocalRemove(l, c);
    assert HasPrefix(c, c);
    forall d | ColonFree(d)
      ensures EtcdUsers(kv', prefix, d) == if HasPrefix(d, c) then {} else LocalUsers(l, d)
      ensures LocalUsers(l', d) == if d == c then {} else LocalUsers(l, d)
    {
      RemoveUsersExact(kv, prefix, c, d);
    }
    hide EtcdUsers, EtcdRemove, LocalRemove, LocalUsers, HasPrefix, ColonFree;
  }

  lemma RemoveUses(kv: Store, prefix: Key, l: Local, c: Key)
    requires UsesAgree(kv, prefix, l) && ColonFree(c)
    ensures UsesAgree(EtcdRemove(kv, prefix, c), prefix, LocalRemove(l, c))
  {
    forall d ensures UsesKey(prefix, d) in EtcdRemove(kv, prefix, c) <==> UsesKey(prefix, d) in kv && d != c {
      var k := UsesKey(prefix, d);
      assert HasPrefix(k, UsesPrefix(prefix));
      UsesKeysApart(prefix, k, c);
      RangeIsPrefix(ContainerPrefix(prefix, c), k);
      if k == UsesKey(prefix, c) {
        UsesKeyInjective(prefix, d, c);
      }
    }
  }

  // ---------------------------------------------------------------- whole runs

  datatype Op = Allocate(c: Key, s: Key) | Release(c: Key, s: Key) | Remove(c: Key)

  function LocalApply(l: Local, op: Op): Local {
    match op
    case Allocate(c, s) => LocalAllocate(l, c, s)
    case Release(c, s) => LocalRelease(l, c, s)
    case Remove(c) => LocalRemove(l, c)
  }

  function EtcdApply(kv: Store, prefix: Key, op: Op): Store {
    match op
    case Allocate(c, s) => EtcdAllocate(kv, prefix, c, s)
    case Release(c, s) => EtcdRelease(kv, prefix, c, s)
    case Remove(c) => EtcdRemove(kv, prefix, c)
  }

  function LocalRun(l: Local, ops: seq<Op>): Local
    decreases |ops|
  {
    if ops == [] then l else LocalRun(LocalApply(l, ops[0]), ops[1..])
  }

  function EtcdRun(kv: Store, prefix: Key, ops: seq<Op>): Store
    decreases |ops|
  {
    if ops == [] then kv else EtcdRun(EtcdApply(kv, prefix, ops[0]), prefix, ops[1..])
  }

  /** Ids without colons, none of which begins with another. */
  predicate ProperIds(ids: set<Key>) {
    && (forall c | c in ids :: ColonFree(c))
    && (forall c, d | c in ids && d in ids && c != d :: !HasPrefix(d, c))
  }

  lemma OpRefines(kv: Store, prefix: Key, l: Local, op: Op, ids: set<Key>)
    requires Refines(kv, prefix, l) && l.containers.Keys <= ids && ProperIds(ids) && op.c in ids
    ensures Refines(EtcdApply(kv, prefix, op), prefix, LocalApply(l, op))
    ensures LocalApply(l, op).containers.Keys <= ids
  {
    hide Refines;
    match op
    case Allocate(c, s) => AllocateRefines(kv, prefix, l, c, s);
    case Release(c, s) => ReleaseRefines(kv, prefix, l, c, s);
    case Remove(c) =>
      assert NoLongerIds(l, c);
      RemoveRefinesIff(kv, prefix, l, c);
  }

  lemma {:induction false} RunRefines(kv: Store, prefix: Key, l: Local, ops: seq<Op>, ids: set<Key>)
    requires Refines(kv, prefix, l) && l.containers.Keys <= ids && ProperIds(ids)
    requires forall i | 0 <= i < |ops| :: ops[i].c in ids
    ensures Refines(EtcdRun(kv, prefix, ops), prefix, LocalRun(l, ops))
    decreases |ops|
  {
    if ops != [] {
      hide Refines, ProperIds, EtcdApply, LocalApply;
      OpRefines(kv, prefix, l, ops[0], ids);
      RunRefines(EtcdApply(kv, prefix, ops[0]), prefix, LocalApply(l, ops[0]), ops[1..], ids);
    }
  }

  /** With proper ids, the etcd provider answers every query after every sequence of updates as the map of sets does. */
  lemma EtcdRefinesLocal(prefix: Key, ops: seq<Op>, ids: set<Key>, c: Key, min: int)
    requires ProperIds(ids) && c in ids && forall i | 0 <= i < |ops| :: ops[i].c in ids
    ensures var kv, l := EtcdRun(map[], prefix, ops), LocalRun(Local(map[], map[]), ops);
            && EtcdCurrentUses(kv, prefix, c) == |LocalUsers(l, c)|
            && EtcdUses(kv, prefix, c) == LocalUses(l, c)
            && EtcdUsesAtLeast(kv, prefix, min) == set d | d in l.uses && l.uses[d] >= min
  {
    RunRefines(map[], prefix, Local(map[], map[]), ops, ids);
    QueriesAgree(EtcdRun(map[], prefix, ops), prefix, LocalRun(Local(map[], map[]), ops), c, min);
  }

  // ---------------------------------------------------------------- what the records say about the past

  /** The session was recorded on the container, and since then neither released nor the container removed. */
  predicate Held(ops: seq<Op>, c: Key, s: Key) {
    exists i :: 0 <= i < |ops| && ops[i] == Allocate(c, s)
             && forall k | i < k < |ops| :: ops[k] != Release(c, s) && ops[k] != Remove(c)
  }

  /** How often the container was taken since it was last removed. */
  function TakenSince(ops: seq<Op>, c: Key): nat {
    if ops == [] || ops[|ops| - 1] == Remove(c) then 0
    else
      var last := ops[|ops| - 1];
      TakenSince(ops[..|ops| - 1], c) + if last.Allocate? && last.c == c then 1 else 0
  }

  lemma {:induction false} LocalRunSnoc(l: Local, ops: seq<Op>, op: Op)
    ensures LocalRun(l, ops + [op]) == LocalApply(LocalRun(l, ops), op)
    decreases |ops|
  {
    hide LocalApply;
    if ops == [] {
      assert [op][1..] == [] && ops + [op] == [op];
      assert LocalRun(LocalApply(l, op), []) == LocalApply(l, op);
    } else {
      LocalRunSnoc(LocalApply(l, ops[0]), ops[1..], op);
      assert (ops + [op])[1..] == ops[1..] + [op];
    }
  }

  lemma HeldNext(ops: seq<Op>, op: Op, c: Key, s: Key)
    ensures Held(ops + [op], c, s)
       <==> op == Allocate(c, s) || (Held(ops, c, s) && op != Release(c, s) && op != Remove(c))
    ensures TakenSince(ops + [op], c)
         == if op == Remove(c) then 0 else TakenSince(ops, c) + if op.Allocate? && op.c == c then 1 else 0
  {
    var longer := ops + [op];
    assert longer[..|ops|] == ops && longer[|ops|] == op;
    if Held(longer, c, s) {
      var i :| 0 <= i < |longer| && longer[i] == Allocate(c, s)
            && forall k | i < k < |longer| :: longer[k] != Release(c, s) && longer[k] != Remove(c);
      if i < |ops| {
        assert ops[i] == Allocate(c, s);
        assert forall k | i < k < |ops| :: ops[k] == longer[k];
        assert longer[|ops|] != Release(c, s) && longer[|ops|] != Remove(c);
      }
    }
    if Held(ops, c, s) && op != Release(c, s) && op != Remove(c) {
      var i :| 0 <= i < |ops| && ops[i] == Allocate(c, s)
            && forall k | i < k < |ops| :: ops[k] != Release(c, s) && ops[k] != Remove(c);
      assert longer[i] == Allocate(c, s);
    }
    if op == Allocate(c, s) { assert longer[|ops|] == Allocate(c, s); }
  }

  /** After any updates the users of a container are the sessions recorded on it and not released or removed since, and
      its uses are as many as it was taken since it was last removed. */
  lemma {:induction false} LocalTellsHistory(ops: seq<Op>, c: Key, s: Key)
    ensures var l := LocalRun(Local(map[], map[]), ops);
            (s in LocalUsers(l, c) <==> Held(ops, c, s)) && LocalUses(l, c) == TakenSince(ops, c)
    decreases |ops|
  {
    if ops != [] {
      var front, op := ops[..|ops| - 1], ops[|ops| - 1];
      LocalTellsHistory(front, c, s);
      assert ops == front + [op];
      LocalRunSnoc(Local(map[], map[]), front, op);
      HeldNext(front, op, c, s);
      hide LocalRun, Held, TakenSince;
    }
  }

  /** The same of the etcd provider, with proper ids. */
  lemma EtcdTellsHistory(prefix: Key, ops: seq<Op>, ids: set<Key>, c: Key, s: Key)
    requires ProperIds(ids) && c in ids && forall i | 0 <= i < |ops| :: ops[i].c in ids
    ensures var kv := EtcdRun(map[], prefix, ops);
            (s in EtcdUsers(kv, prefix, c) <==> Held(ops, c, s)) && EtcdUses(kv, prefix, c) == TakenSince(ops, c)
  {
    var kv, l := EtcdRun(map[], prefix, ops), LocalRun(Local(map[], map[]), ops);
    RunRefines(map[], prefix, Local(map[], map[]), ops, ids);
    LocalTellsHistory(ops, c, s);
    QueriesAgree(kv, prefix, l, c, 0);
    hide EtcdRun, LocalRun, Held, TakenSince, EtcdUses, UsesAgree;
  }

  // ---------------------------------------------------------------- the etcd provider

  class EtcdStateProvider {
    const prefix: Key
    var kv: Store
    var sessionLeases: set<Key>   // the sessions this client has generated and not deleted

    constructor (prefix: Key)
      ensures this.prefix == prefix && kv == map[] && sessionLeases == {}
    {
      this.prefix, kv, sessionLeases := prefix, map[], {};
    }

    /** Fails for a session this client does not know. */
    method AllocateContainer(c: Key, s: Key) returns (known: bool)
      modifies this`kv
      ensures known == (s in sessionLeases)
      ensures kv == if known then EtcdAllocate(old(kv), prefix, c, s) else old(kv)
    {
      known := s in sessionLeases;
      if known {
        kv := kv[AllocationKey(prefix, c, s) := Mark];
        IncrementUses(c);
      }
    }

    /** `_increment_uses` when nobody else writes the counter: `UseCounter` has the loop with others at work. */
    method IncrementUses(c: Key)
      modifies this`kv
      ensures kv == old(kv)[UsesKey(prefix, c) := Number(EtcdUses(old(kv), prefix, c) + 1)]
    {
      var uses := ContainerTotalUses(c);
      kv := kv[UsesKey(prefix, c) := Number(uses + 1)];
    }

    method ReleaseContainer(c: Key, s: Key)
      modifies this`kv
      ensures kv == EtcdRelease(old(kv), prefix, c, s)
      ensures forall l | ColonFree(c) && old(Refines(kv, prefix, l)) :: Refines(kv, prefix, LocalRelease(l, c, s))
    {
      kv := kv - {AllocationKey(prefix, c, s)};
      forall l | ColonFree(c) && old(Refines(kv, prefix, l)) ensures Refines(kv, prefix, LocalRelease(l, c, s)) {
        ReleaseRefines(old(kv), prefix, l, c, s);
      }
    }

    method RemoveContainer(c: Key)
      modifies this`kv
      ensures kv == EtcdRemove(old(kv), prefix, c)
    {
      var p := ContainerPrefix(prefix, c);
      var end := RangeEnd(p);
      kv := map k | k in kv && !InRange(k, p, end) :: kv[k];
      kv := kv - {UsesKey(prefix, c)};
    }

    method ContainerCurrentUses(c: Key) returns (n: nat)
      ensures n == |EtcdUsers(kv, prefix, c)|
    {
      var p := AllocationPrefix(prefix, c);
      var end := RangeEnd(p);
      n := |set k | k in kv && InRange(k, p, end)|;
      CountIsUsers(kv, prefix, c);
    }

    method ContainerTotalUses(c: Key) returns (n: nat)
      ensures n == EtcdUses(kv, prefix, c)
      ensures forall l | ColonFree(c) && Refines(kv, prefix, l) :: n == LocalUses(l, c)
    {
      var key := UsesKey(prefix, c);
      n := if key in kv && kv[key].Number? then kv[key].n else 0;
      forall l | ColonFree(c) && Refines(kv, prefix, l) ensures n == LocalUses(l, c) {
        QueriesAgree(kv, prefix, l, c, 0);
      }
    }
  }
}
