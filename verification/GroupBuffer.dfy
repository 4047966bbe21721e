/** The trainer's bounded grouping queue.  A task runs from one `await` to the next without interference: each such
    segment is one step.  A task in `waiting` is parked on an event; `released` says that the event has been set
    since. */
module GroupBuffer {

  type Task = nat

  type Positive = n: nat | n > 0 witness 1

  datatype Item = Item(groupId: nat, payload: nat)

  datatype Config = Config(maxSize: int, groupSize: int)

  datatype Waiter =
    | Adder(item: Item, released: bool)
    | Getter(minimum: int, multiple: Positive, released: bool)

  datatype Batch = Batch(items: seq<Item>, minimum: int, multiple: Positive)

  /** The buffer, the parked tasks, and the history: all items accepted and all batches returned. */
  datatype State = State(
    queue: seq<Item>, groups: map<nat, seq<Item>>, putSignal: bool, getSignal: bool,
    waiting: map<Task, Waiter>, added: seq<Item>, batches: seq<Batch>)

  datatype Step =
    | AddArrives(t: Task, item: Item)
    | AddResumes(t: Task)
    | GetArrives(t: Task, minimum: int, multiple: Positive)
    | GetResumes(t: Task)
    | Cancelled(t: Task)

  const INIT := State([], map[], false, false, map[], [], [])

  predicate Strict(c: Config) {
    c.groupSize > 1
  }

  function Size(c: Config): Positive {
    if Strict(c) then c.groupSize else 1
  }

  // ---------------------------------------------------------------- least common multiples

  lemma ProductIsCommon(a: Positive, b: Positive)
    ensures a * b > 0 && (a * b) % a == 0 && (a * b) % b == 0
  {
    MultipleMod(b, a);
    MultipleMod(a, b);
  }

  lemma {:induction false} MultipleMod(k: nat, m: Positive)
    ensures (k * m) % m == 0 && (k * m) / m == k
    decreases k
  {
    if k > 0 {
      MultipleMod(k - 1, m);
      assert k * m == (k - 1) * m + m;
      AddMod((k - 1) * m, m);
    }
  }

  lemma AddMod(x: nat, m: Positive)
    ensures (x + m) % m == x % m && (x + m) / m == x / m + 1
  {
    var q, r := x / m, x % m;
    assert x + m == (q + 1) * m + r;
    DivUnique(x + m, q + 1, r, m);
  }

  lemma DivUnique(x: nat, q: nat, r: nat, m: Positive)
    requires x == q * m + r && r < m
    ensures x / m == q && x % m == r
  {
    if x / m > q {
      MulMono(q + 1, x / m, m);
    } else if x / m < q {
      MulMono(x / m + 1, q, m);
    }
  }

  function LeastFrom(a: Positive, b: Positive, n: Positive): (m: Positive)
    requires n <= a * b
    requires forall k | 0 < k < n :: k % a != 0 || k % b != 0
    ensures m % a == 0 && m % b == 0 && forall k | 0 < k < m :: k % a != 0 || k % b != 0
    decreases a * b - n
  {
    ProductIsCommon(a, b);
    if n % a == 0 && n % b == 0 then n else LeastFrom(a, b, n + 1)
  }

  function Lcm(a: Positive, b: Positive): (m: Positive)
    ensures m % a == 0 && m % b == 0 && forall k | 0 < k < m :: k % a != 0 || k % b != 0
  {
    ProductIsCommon(a, b);
    LeastFrom(a, b, 1)
  }

  /** Batches come in multiples of this. */
  function Unit(c: Config, multiple: Positive): (m: Positive)
    ensures m % Size(c) == 0 && m % multiple == 0
  {
    if Strict(c) then Lcm(c.groupSize, multiple) else multiple
  }

  function BatchLength(c: Config, length: nat, multiple: Positive): nat {
    var unit := Unit(c, multiple);
    length / unit * unit
  }

  // ---------------------------------------------------------------- the steps

  function Release(w: Waiter): Waiter {
    match w
    case Adder(item, _) => Adder(item, true)
    case Getter(minimum, multiple, _) => Getter(minimum, multiple, true)
  }

  function ReleaseAdders(waiting: map<Task, Waiter>): map<Task, Waiter> {
    map t | t in waiting :: if waiting[t].Adder? then Release(waiting[t]) else waiting[t]
  }

  function ReleaseGetters(waiting: map<Task, Waiter>): map<Task, Waiter> {
    map t | t in waiting :: if waiting[t].Getter? then Release(waiting[t]) else waiting[t]
  }

  function Group(groups: map<nat, seq<Item>>, id: nat): seq<Item> {
    if id in groups then groups[id] else []
  }

  /** The items that go to the queue when `item` is accepted: a whole group, the item alone, or nothing yet. */
  function Completed(c: Config, groups: map<nat, seq<Item>>, item: Item): seq<Item> {
    if !Strict(c) then [item]
    else if |Group(groups, item.groupId)| + 1 >= c.groupSize then Group(groups, item.groupId) + [item]
    else []
  }

  function Regrouped(c: Config, groups: map<nat, seq<Item>>, item: Item): map<nat, seq<Item>> {
    if !Strict(c) then groups
    else if |Group(groups, item.groupId)| + 1 >= c.groupSize then groups - {item.groupId}
    else groups[item.groupId := Group(groups, item.groupId) + [item]]
  }

  function Put(c: Config, s: State, item: Item): State {
    var ready := Completed(c, s.groups, item);
    s.(queue := s.queue + ready,
       groups := Regrouped(c, s.groups, item),
       putSignal := s.putSignal || ready != [],
       waiting := if ready != [] then ReleaseGetters(s.waiting) else s.waiting,
       added := s.added + [item])
  }

  predicate IsFull(c: Config, s: State) {
    |s.queue| >= c.maxSize
  }

  function TryAdd(c: Config, s: State, t: Task, item: Item): State {
    if IsFull(c, s) then s.(getSignal := false, waiting := s.waiting[t := Adder(item, false)])
    else Put(c, s.(waiting := s.waiting - {t}), item)
  }

  predicate MustWait(c: Config, s: State, minimum: int, multiple: Positive) {
    BatchLength(c, |s.queue|, multiple) < minimum
  }

  function Take(c: Config, s: State, minimum: int, multiple: Positive): State {
    var n := BatchLength(c, |s.queue|, multiple);
    BatchFits(c, |s.queue|, multiple);
    s.(queue := s.queue[n..],
       getSignal := true,
       waiting := ReleaseAdders(s.waiting),
       batches := s.batches + [Batch(s.queue[..n], minimum, multiple)])
  }

  lemma BatchFits(c: Config, length: nat, multiple: Positive)
    ensures BatchLength(c, length, multiple) <= length
  {}

  function TryGet(c: Config, s: State, t: Task, minimum: int, multiple: Positive): State {
    if MustWait(c, s, minimum, multiple) then
      s.(putSignal := false, waiting := s.waiting[t := Getter(minimum, multiple, false)])
    else Take(c, s.(waiting := s.waiting - {t}), minimum, multiple)
  }

  predicate Legal(s: State, step: Step) {
    match step
    case AddArrives(t, _) => t !in s.waiting
    case GetArrives(t, _, _) => t !in s.waiting
    case AddResumes(t) => t in s.waiting && s.waiting[t].Adder? && s.waiting[t].released
    case GetResumes(t) => t in s.waiting && s.waiting[t].Getter? && s.waiting[t].released
    case Cancelled(t) => t in s.waiting
  }

  function Apply(c: Config, s: State, step: Step): State
    requires Legal(s, step)
  {
    match step
    case AddArrives(t, item) => TryAdd(c, s, t, item)
    case GetArrives(t, minimum, multiple) => TryGet(c, s, t, minimum, multiple)
    case AddResumes(t) => TryAdd(c, s.(getSignal := false), t, s.waiting[t].item)
    case GetResumes(t) => TryGet(c, s.(putSignal := false), t, s.waiting[t].minimum, s.waiting[t].multiple)
    case Cancelled(t) => s.(waiting := s.waiting - {t})
  }

  // ---------------------------------------------------------------- complete groups

  predicate OneGroup(s: seq<Item>) {
    forall i, j | 0 <= i < j < |s| :: s[i].groupId == s[j].groupId
  }

  /** A concatenation of groups of `g` items, each with one group id. */
  predicate Grouped(s: seq<Item>, g: Positive)
    decreases |s|
  {
    s == [] || (|s| >= g && OneGroup(s[..g]) && Grouped(s[g..], g))
  }

  lemma {:induction false} GroupedConcat(a: seq<Item>, b: seq<Item>, g: Positive)
    requires Grouped(a, g) && Grouped(b, g)
    ensures Grouped(a + b, g)
    decreases |a|
  {
    if a == [] {
      assert a + b == b;
    } else {
      GroupedConcat(a[g..], b, g);
      assert (a + b)[..g] == a[..g] && (a + b)[g..] == a[g..] + b;
    }
  }

  lemma {:induction false} GroupedLength(s: seq<Item>, g: Positive)
    requires Grouped(s, g)
    ensures |s| % g == 0
    decreases |s|
  {
    if s != [] {
      GroupedLength(s[g..], g);
      AddMod(|s| - g, g);
    }
  }

  lemma {:induction false} GroupedSplit(s: seq<Item>, n: nat, g: Positive)
    requires Grouped(s, g) && n <= |s| && n % g == 0
    ensures Grouped(s[..n], g) && Grouped(s[n..], g)
    decreases n
  {
    if n > 0 {
      assert n >= g;
      AddMod(n - g, g);
      GroupedSplit(s[g..], n - g, g);
      assert s[..n][..g] == s[..g] && s[..n][g..] == s[g..][..n - g] && s[n..] == s[g..][n - g..];
    } else {
      assert s[..n] == [] && s[n..] == s;
    }
  }

  // ---------------------------------------------------------------- what every run keeps

  /** The items of one group, in order. */
  function Of(s: seq<Item>, id: nat): seq<Item> {
    if s == [] then []
    else Of(s[..|s| - 1], id) + if s[|s| - 1].groupId == id then [s[|s| - 1]] else []
  }

  lemma {:induction false} OfConcat(a: seq<Item>, b: seq<Item>, id: nat)
    ensures Of(a + b, id) == Of(a, id) + Of(b, id)
    decreases |b|
  {
    if b == [] {
      assert a + b == a;
    } else {
      OfConcat(a, b[..|b| - 1], id);
      assert (a + b)[..|a + b| - 1] == a + b[..|b| - 1];
    }
  }

  lemma {:induction false} OfUniform(s: seq<Item>, id: nat, own: nat)
    requires forall i | 0 <= i < |s| :: s[i].groupId == own
    ensures Of(s, id) == if id == own then s else []
    decreases |s|
  {
    if s != [] {
      OfUniform(s[..|s| - 1], id, own);
      assert s == s[..|s| - 1] + [s[|s| - 1]];
    }
  }

  lemma {:induction false} OfCounts(s: seq<Item>, x: Item)
    ensures multiset(Of(s, x.groupId))[x] == multiset(s)[x]
    decreases |s|
  {
    if s != [] {
      OfCounts(s[..|s| - 1], x);
      assert s == s[..|s| - 1] + [s[|s| - 1]];
    }
  }

  function Flat(batches: seq<Batch>): seq<Item> {
    if batches == [] then [] else Flat(batches[..|batches| - 1]) + batches[|batches| - 1].items
  }

  /** Partial groups are nonempty, short, and hold only their own items. */
  predicate Partial(c: Config, groups: map<nat, seq<Item>>) {
    forall id | id in groups ::
      && Strict(c) && 0 < |groups[id]| < c.groupSize
      && forall i | 0 <= i < |groups[id]| :: groups[id][i].groupId == id
  }

  /** Group by group, what came in is what went out, what is queued and what is still partial, in that order. */
  ghost predicate Conserved(s: State) {
    forall id :: Of(s.added, id) == Of(Flat(s.batches) + s.queue, id) + Group(s.groups, id)
  }

  predicate GoodBatch(c: Config, b: Batch) {
    Grouped(b.items, Size(c)) && |b.items| % b.multiple == 0 && |b.items| >= b.minimum
  }

  predicate GoodBatches(c: Config, s: State) {
    forall i | 0 <= i < |s.batches| :: GoodBatch(c, s.batches[i])
  }

  /** The length at which a queue of whole groups is full. */
  function FullLevel(c: Config): nat {
    if c.maxSize <= 0 then 0 else (c.maxSize + Size(c) - 1) / Size(c) * Size(c)
  }

  predicate Bounded(c: Config, s: State) {
    |s.queue| <= FullLevel(c)
  }

  /** A parked task that has not been released could not go on. */
  predicate NoLostSignal(c: Config, s: State) {
    forall t | t in s.waiting && !s.waiting[t].released ::
      if s.waiting[t].Adder? then IsFull(c, s) else MustWait(c, s, s.waiting[t].minimum, s.waiting[t].multiple)
  }

  ghost predicate Inv(c: Config, s: State) {
    && Grouped(s.queue, Size(c)) && Partial(c, s.groups) && Conserved(s)
    && GoodBatches(c, s) && Bounded(c, s) && NoLostSignal(c, s)
  }

  lemma FullLevelBound(c: Config)
    ensures FullLevel(c) >= c.maxSize
    ensures c.maxSize > 0 ==> FullLevel(c) < c.maxSize + Size(c)
    ensures FullLevel(c) % Size(c) == 0
  {
    if c.maxSize > 0 { MultipleMod((c.maxSize + Size(c) - 1) / Size(c), Size(c)); }
  }

  /** Below the limit there is room for one more group. */
  lemma RoomForGroup(c: Config, length: nat)
    requires length < c.maxSize && length % Size(c) == 0
    ensures length + Size(c) <= FullLevel(c)
  {
    var g := Size(c);
    FullLevelBound(c);
    var level := FullLevel(c);
    assert level > length || level == length by {}
    DividesGap(length, level, g);
  }

  lemma DividesGap(x: nat, y: nat, g: Positive)
    requires x % g == 0 && y % g == 0 && x < y
    ensures x + g <= y
  {
    var a, b := x / g, y / g;
    assert x == a * g && y == b * g;
    if b <= a { MulMono(b, a, g); }
    MulMono(a + 1, b, g);
  }

  lemma MulMono(a: nat, b: nat, g: nat)
    requires a <= b
    ensures a * g <= b * g
  {}

  /** A longer queue gives a longer batch. */
  lemma BatchMono(c: Config, x: nat, y: nat, multiple: Positive)
    requires x <= y
    ensures BatchLength(c, x, multiple) <= BatchLength(c, y, multiple)
  {
    var unit := Unit(c, multiple);
    DivMono(x, y, unit);
    MulMono(x / unit, y / unit, unit);
  }

  lemma DivMono(x: nat, y: nat, m: Positive)
    requires x <= y
    ensures x / m <= y / m
  {
    if y / m < x / m { MulMono(y / m + 1, x / m, m); }
  }

  // ---------------------------------------------------------------- one step at a time

  lemma PutKeepsGroups(c: Config, s: State, item: Item)
    requires Grouped(s.queue, Size(c)) && Partial(c, s.groups)
    ensures Grouped(Put(c, s, item).queue, Size(c)) && Partial(c, Put(c, s, item).groups)
    ensures |Completed(c, s.groups, item)| == 0 || |Completed(c, s.groups, item)| == Size(c)
  {
    var ready := Completed(c, s.groups, item);
    if ready != [] {
      assert |ready| == Size(c) && ready[Size(c)..] == [] && ready[..Size(c)] == ready;
      assert Grouped(ready, Size(c));
      GroupedConcat(s.queue, ready, Size(c));
    } else {
      assert s.queue + ready == s.queue;
    }
  }

  lemma PutConserves(c: Config, s: State, item: Item)
    requires Partial(c, s.groups) && Conserved(s)
    ensures Conserved(Put(c, s, item))
  {
    var s' := Put(c, s, item);
    forall id: nat ensures Of(s'.added, id) == Of(Flat(s'.batches) + s'.queue, id) + Group(s'.groups, id) {
      PutConservesGroup(c, s, item, id);
    }
  }

  lemma PutConservesGroup(c: Config, s: State, item: Item, id: nat)
    requires Partial(c, s.groups)
    requires Of(s.added, id) == Of(Flat(s.batches) + s.queue, id) + Group(s.groups, id)
    ensures var s' := Put(c, s, item);
            Of(s'.added, id) == Of(Flat(s'.batches) + s'.queue, id) + Group(s'.groups, id)
  {
    var s' := Put(c, s, item);
    var ready, out := Completed(c, s.groups, item), Flat(s.batches) + s.queue;
    ReadyIsOneGroup(c, s.groups, item);
    RegroupedKeeps(c, s.groups, item, id);
    assert s'.batches == s.batches && s'.added == s.added + [item] && s'.queue == s.queue + ready
           && s'.groups == Regrouped(c, s.groups, item);
    hide *;
    OfAppend(s.added, [item], id, item.groupId);
    OfAppend(out, ready, id, item.groupId);
    Assoc(Flat(s.batches), s.queue, ready);
    Exchange(Of(out, id), Group(s.groups, id), Only([item], id, item.groupId), Only(ready, id, item.groupId),
             Group(s'.groups, id));
  }

  /** `s` if it belongs to group `id`. */
  function Only(s: seq<Item>, id: nat, own: nat): seq<Item> {
    if id == own then s else []
  }

  lemma OfAppend(s: seq<Item>, t: seq<Item>, id: nat, own: nat)
    requires forall i | 0 <= i < |t| :: t[i].groupId == own
    ensures Of(s + t, id) == Of(s, id) + Only(t, id, own)
  {
    OfConcat(s, t, id);
    OfUniform(t, id, own);
  }

  lemma Assoc<T>(a: seq<T>, b: seq<T>, c: seq<T>)
    ensures a + (b + c) == a + b + c
  {}

  lemma ReadyIsOneGroup(c: Config, groups: map<nat, seq<Item>>, item: Item)
    requires Partial(c, groups)
    ensures forall i | 0 <= i < |Completed(c, groups, item)| :: Completed(c, groups, item)[i].groupId == item.groupId
  {}

  lemma RegroupedKeeps(c: Config, groups: map<nat, seq<Item>>, item: Item, id: nat)
    requires Partial(c, groups)
    ensures Group(groups, id) + Only([item], id, item.groupId)
            == Only(Completed(c, groups, item), id, item.groupId) + Group(Regrouped(c, groups, item), id)
  {}

  lemma Exchange<T>(a: seq<T>, b: seq<T>, c: seq<T>, d: seq<T>, e: seq<T>)
    requires b + c == d + e
    ensures a + b + c == a + d + e
  {
    assert a + b + c == a + (b + c);
    assert a + d + e == a + (d + e);
  }

  lemma PutStaysBounded(c: Config, s: State, item: Item)
    requires Grouped(s.queue, Size(c)) && Partial(c, s.groups) && Bounded(c, s) && !IsFull(c, s)
    ensures Bounded(c, Put(c, s, item))
  {
    PutKeepsGroups(c, s, item);
    GroupedLength(s.queue, Size(c));
    RoomForGroup(c, |s.queue|);
  }

  lemma PutSignals(c: Config, s: State, item: Item)
    requires NoLostSignal(c, s)
    ensures NoLostSignal(c, Put(c, s, item))
  {
    var s' := Put(c, s, item);
    if Completed(c, s.groups, item) == [] { assert s'.queue == s.queue; }
  }

  lemma PutKeepsInv(c: Config, s: State, item: Item)
    requires Inv(c, s) && !IsFull(c, s)
    ensures Inv(c, Put(c, s, item))
  {
    PutKeepsGroups(c, s, item);
    PutConserves(c, s, item);
    PutStaysBounded(c, s, item);
    PutSignals(c, s, item);
  }

  lemma BatchIsGood(c: Config, s: State, minimum: int, multiple: Positive)
    requires Grouped(s.queue, Size(c)) && !MustWait(c, s, minimum, multiple)
    ensures var s' := Take(c, s, minimum, multiple);
            GoodBatch(c, s'.batches[|s.batches|]) && Grouped(s'.queue, Size(c))
  {
    var unit := Unit(c, multiple);
    var n := BatchLength(c, |s.queue|, multiple);
    BatchFits(c, |s.queue|, multiple);
    MultipleMod(|s.queue| / unit, unit);
    ModTrans(n, unit, Size(c));
    ModTrans(n, unit, multiple);
    GroupedSplit(s.queue, n, Size(c));
  }

  /** What a batch leaves in the queue is shorter than a unit. */
  lemma LeftOver(c: Config, length: nat, multiple: Positive)
    ensures length - BatchLength(c, length, multiple) < Unit(c, multiple)
  {}

  /** The batch that `get` takes. */
  lemma WholeBatch(c: Config, s: State, minimum: int, multiple: Positive)
    requires Inv(c, s) && !MustWait(c, s, minimum, multiple)
    ensures var n := BatchLength(c, |s.queue|, multiple);
            n <= |s.queue| && n >= minimum && n % multiple == 0 && Grouped(s.queue[..n], Size(c))
            && |s.queue| - n < Unit(c, multiple)
  {
    BatchFits(c, |s.queue|, multiple);
    BatchIsGood(c, s, minimum, multiple);
    LeftOver(c, |s.queue|, multiple);
  }

  lemma ModTrans(n: nat, m: Positive, d: Positive)
    requires n % m == 0 && m % d == 0
    ensures n % d == 0
  {
    var a, b := n / m, m / d;
    assert n == a * m && m == b * d;
    assert n == (a * b) * d;
    MultipleMod(a * b, d);
  }

  lemma TakeConserves(c: Config, s: State, minimum: int, multiple: Positive)
    requires Conserved(s)
    ensures Conserved(Take(c, s, minimum, multiple))
  {
    var s' := Take(c, s, minimum, multiple);
    var n := BatchLength(c, |s.queue|, multiple);
    BatchFits(c, |s.queue|, multiple);
    assert s'.batches[..|s'.batches| - 1] == s.batches;
    assert s.queue == s.queue[..n] + s.queue[n..];
    assert Flat(s'.batches) + s'.queue == Flat(s.batches) + s.queue;
  }

  lemma TakeSignals(c: Config, s: State, minimum: int, multiple: Positive)
    requires NoLostSignal(c, s)
    ensures NoLostSignal(c, Take(c, s, minimum, multiple))
  {
    var s' := Take(c, s, minimum, multiple);
    assert |s'.queue| <= |s.queue| && (forall t | t in s'.waiting :: t in s.waiting);
    hide BatchLength, FullLevel;
    forall t | t in s'.waiting && !s'.waiting[t].released
      ensures s'.waiting[t].Getter? && MustWait(c, s', s'.waiting[t].minimum, s'.waiting[t].multiple)
    {
      assert s.waiting[t] == s'.waiting[t];
      BatchMono(c, |s'.queue|, |s.queue|, s.waiting[t].multiple);
    }
  }

  lemma TakeKeepsInv(c: Config, s: State, minimum: int, multiple: Positive)
    requires Inv(c, s) && !MustWait(c, s, minimum, multiple)
    ensures Inv(c, Take(c, s, minimum, multiple))
  {
    BatchIsGood(c, s, minimum, multiple);
    TakeConserves(c, s, minimum, multiple);
    TakeSignals(c, s, minimum, multiple);
    BatchFits(c, |s.queue|, multiple);
    hide BatchLength, Grouped, GoodBatch, Conserved, NoLostSignal, Partial, FullLevel;
  }

  lemma TryAddKeepsInv(c: Config, s: State, t: Task, item: Item)
    requires Inv(c, s)
    ensures Inv(c, TryAdd(c, s, t, item))
  {
    if !IsFull(c, s) {
      var s' := s.(waiting := s.waiting - {t});
      assert Inv(c, s');
      PutKeepsInv(c, s', item);
    }
  }

  lemma TryGetKeepsInv(c: Config, s: State, t: Task, minimum: int, multiple: Positive)
    requires Inv(c, s)
    ensures Inv(c, TryGet(c, s, t, minimum, multiple))
  {
    if !MustWait(c, s, minimum, multiple) {
      var s' := s.(waiting := s.waiting - {t});
      assert Inv(c, s');
      TakeKeepsInv(c, s', minimum, multiple);
    }
  }

  lemma StepKeepsInv(c: Config, s: State, step: Step)
    requires Inv(c, s) && Legal(s, step)
    ensures Inv(c, Apply(c, s, step))
  {
    match step
    case AddArrives(t, item) => TryAddKeepsInv(c, s, t, item);
    case GetArrives(t, minimum, multiple) => TryGetKeepsInv(c, s, t, minimum, multiple);
    case AddResumes(t) => TryAddKeepsInv(c, s.(getSignal := false), t, s.waiting[t].item);
    case GetResumes(t) => TryGetKeepsInv(c, s.(putSignal := false), t, s.waiting[t].minimum, s.waiting[t].multiple);
    case Cancelled(t) =>
  }

  // ---------------------------------------------------------------- runs

  ghost predicate LegalRun(c: Config, s: State, run: seq<Step>)
    decreases |run|
  {
    run == [] || (Legal(s, run[0]) && LegalRun(c, Apply(c, s, run[0]), run[1..]))
  }

  ghost function Exec(c: Config, s: State, run: seq<Step>): State
    requires LegalRun(c, s, run)
    decreases |run|
  {
    if run == [] then s else Exec(c, Apply(c, s, run[0]), run[1..])
  }

  lemma {:induction false} InvAlong(c: Config, s: State, run: seq<Step>)
    requires Inv(c, s) && LegalRun(c, s, run)
    ensures Inv(c, Exec(c, s, run))
    decreases |run|
  {
    if run != [] {
      StepKeepsInv(c, s, run[0]);
      InvAlong(c, Apply(c, s, run[0]), run[1..]);
    }
  }

  lemma InitInv(c: Config)
    ensures Inv(c, INIT)
  {}

  /** What holds after every run: every batch is made of whole groups, has a length that is a multiple of what was
      asked for and is long enough; group by group the items come out in the order they went in, none lost and
      none twice; the queue is bounded; and a parked task that could go on has been released. */
  lemma RunKeepsInv(c: Config, run: seq<Step>)
    requires LegalRun(c, INIT, run)
    ensures Inv(c, Exec(c, INIT, run))
    ensures c.maxSize > 0 ==> |Exec(c, INIT, run).queue| < c.maxSize + Size(c)
  {
    InitInv(c);
    InvAlong(c, INIT, run);
    FullLevelBound(c);
  }

  /** The items added are exactly those returned, queued, or in a partial group. */
  lemma RunConservesItems(c: Config, run: seq<Step>, x: Item)
    requires LegalRun(c, INIT, run)
    ensures var s := Exec(c, INIT, run);
            multiset(s.added)[x] ==
            multiset(Flat(s.batches))[x] + multiset(s.queue)[x] + multiset(Group(s.groups, x.groupId))[x]
  {
    RunKeepsInv(c, run);
    var s := Exec(c, INIT, run);
    OfCounts(s.added, x);
    OfCounts(Flat(s.batches) + s.queue, x);
    assert Of(s.added, x.groupId) == Of(Flat(s.batches) + s.queue, x.groupId) + Group(s.groups, x.groupId);
  }

  // ---------------------------------------------------------------- stalling

  /** An adder and a getter are both parked with nothing on its way to either. */
  predicate Stalled(s: State, adder: Task, getter: Task) {
    && adder in s.waiting && s.waiting[adder].Adder? && !s.waiting[adder].released
    && getter in s.waiting && s.waiting[getter].Getter? && !s.waiting[getter].released
  }

  ghost predicate CanStall(c: Config, minimum: int, multiple: Positive) {
    exists run, adder, getter ::
      && LegalRun(c, INIT, run)
      && var s := Exec(c, INIT, run);
         Stalled(s, adder, getter) && s.waiting[getter].minimum == minimum && s.waiting[getter].multiple == multiple
  }

  lemma FullMeansLevel(c: Config, length: nat)
    requires length % Size(c) == 0 && length >= c.maxSize
    ensures length >= FullLevel(c)
  {
    FullLevelBound(c);
    if length < FullLevel(c) { DividesGap(length, FullLevel(c), Size(c)); }
  }

  lemma StalledIsFull(c: Config, run: seq<Step>, adder: Task, getter: Task)
    requires LegalRun(c, INIT, run) && Stalled(Exec(c, INIT, run), adder, getter)
    ensures var w := Exec(c, INIT, run).waiting[getter];
            BatchLength(c, FullLevel(c), w.multiple) < w.minimum
  {
    RunKeepsInv(c, run);
    var s := Exec(c, INIT, run);
    GroupedLength(s.queue, Size(c));
    FullMeansLevel(c, |s.queue|);
  }

  function Fill(n: nat): seq<Step> {
    seq(n, i => AddArrives(0, Item(0, 0)))
  }

  /** A buffer that items of one group have filled up to `n` of the level at which it is full. */
  predicate Filled(c: Config, s: State, n: nat) {
    && s.waiting == map[]
    && Grouped(s.queue, Size(c)) && Partial(c, s.groups)
    && s.groups.Keys <= {0}
    && n == |s.queue| + |Group(s.groups, 0)|
    && n <= FullLevel(c)
  }

  lemma {:induction false} FillUp(c: Config, s: State, n: nat, rest: seq<Step>, left: nat) returns (s': State)
    requires Filled(c, s, n) && left == FullLevel(c) - n
    ensures Filled(c, s', FullLevel(c))
    ensures LegalRun(c, s', rest) ==>
              LegalRun(c, s, Fill(left) + rest) && Exec(c, s, Fill(left) + rest) == Exec(c, s', rest)
    decreases left
  {
    if left == 0 {
      s' := s;
      assert Fill(left) + rest == rest;
    } else {
      var step := AddArrives(0, Item(0, 0));
      FillOne(c, s, n);
      s' := FillUp(c, Apply(c, s, step), n + 1, rest, left - 1);
      assert Fill(left) + rest == [step] + (Fill(left - 1) + rest);
    }
  }

  lemma FillOne(c: Config, s: State, n: nat)
    requires Filled(c, s, n) && n < FullLevel(c)
    ensures Filled(c, Apply(c, s, AddArrives(0, Item(0, 0))), n + 1)
  {
    var item := Item(0, 0);
    GroupedLength(s.queue, Size(c));
    assert !IsFull(c, s) by {
      if |s.queue| >= c.maxSize { FullMeansLevel(c, |s.queue|); }
    }
    assert s.waiting - {0} == map[];
    PutKeepsGroups(c, s, item);
    assert s.(waiting := map[]) == s;
  }

  lemma FilledIsFull(c: Config, s: State)
    requires Filled(c, s, FullLevel(c))
    ensures |s.queue| == FullLevel(c) && IsFull(c, s)
  {
    FullLevelBound(c);
    GroupedLength(s.queue, Size(c));
    if |s.queue| < FullLevel(c) { DividesGap(|s.queue|, FullLevel(c), Size(c)); }
  }

  lemma FillThenStall(c: Config, minimum: int, multiple: Positive)
    requires BatchLength(c, FullLevel(c), multiple) < minimum
    ensures CanStall(c, minimum, multiple)
  {
    var adds, gets := AddArrives(1, Item(0, 1)), GetArrives(2, minimum, multiple);
    var full := FillUp(c, INIT, 0, [adds, gets], FullLevel(c));
    FilledIsFull(c, full);
    var s1 := Apply(c, full, adds);
    var s2 := Apply(c, s1, gets);
    assert s1.waiting == map[1 := Adder(Item(0, 1), false)];
    assert MustWait(c, s1, minimum, multiple) && s2.waiting == s1.waiting[2 := Getter(minimum, multiple, false)];
    assert Stalled(s2, 1, 2) && s2.waiting[2].minimum == minimum && s2.waiting[2].multiple == multiple;
    hide LegalRun, Exec, Apply;
    assert [gets] + [] == [gets] && [adds] + [gets] == [adds, gets];
    OneMore(c, s1, gets, []);
    OneMore(c, full, adds, [gets]);
  }

  lemma OneMore(c: Config, s: State, step: Step, rest: seq<Step>)
    requires Legal(s, step)
    ensures LegalRun(c, s, []) && Exec(c, s, []) == s
    ensures LegalRun(c, Apply(c, s, step), []) && Exec(c, Apply(c, s, step), []) == Apply(c, s, step)
    ensures LegalRun(c, Apply(c, s, step), rest) ==>
              && LegalRun(c, s, [step] + rest)
              && Exec(c, s, [step] + rest) == Exec(c, Apply(c, s, step), rest)
  {
    assert ([step] + rest)[1..] == rest;
  }

  /** A getter can be left waiting together with an adder, nothing being on its way to either, exactly when it asks
      for more than a full queue can give. */
  lemma StallsIff(c: Config, minimum: int, multiple: Positive)
    ensures CanStall(c, minimum, multiple) <==> BatchLength(c, FullLevel(c), multiple) < minimum
  {
    if CanStall(c, minimum, multiple) {
      var run, adder, getter :|
        && LegalRun(c, INIT, run)
        && var s := Exec(c, INIT, run);
           Stalled(s, adder, getter) && s.waiting[getter].minimum == minimum && s.waiting[getter].multiple == multiple;
      StalledIsFull(c, run, adder, getter);
    }
    if BatchLength(c, FullLevel(c), multiple) < minimum { FillThenStall(c, minimum, multiple); }
  }

  // ---------------------------------------------------------------- the buffer

  class Buffer {
    const config: Config
    var queue: seq<Item>
    var groups: map<nat, seq<Item>>
    var putSignal: bool
    var getSignal: bool
    var waiting: map<Task, Waiter>    // the waiters of the two events
    ghost var added: seq<Item>
    ghost var batches: seq<Batch>

    ghost function View(): State
      reads this
    {
      State(queue, groups, putSignal, getSignal, waiting, added, batches)
    }

    constructor (maxSize: int, groupSize: int)
      ensures config == Config(maxSize, groupSize) && View() == INIT && Inv(config, View())
    {
      config := Config(maxSize, groupSize);
      queue, groups, putSignal, getSignal, waiting, added, batches := [], map[], false, false, map[], [], [];
    }

    /** `add` from its start: park while the queue is full, else accept the item. */
    method Add(t: Task, item: Item) returns (accepted: bool)
      requires Inv(config, View())
      modifies this
      ensures View() == TryAdd(config, old(View()), t, item) && Inv(config, View())
      ensures accepted <==> |old(queue)| < config.maxSize
    {
      TryAddKeepsInv(config, View(), t, item);
      if |queue| >= config.maxSize {
        getSignal := false;
        waiting := waiting[t := Adder(item, false)];
        return false;
      }
      waiting := waiting - {t};
      Accept(item);
      return true;
    }

    /** `add` after its event was set. */
    method ResumeAdd(t: Task) returns (accepted: bool)
      requires Inv(config, View()) && Legal(View(), AddResumes(t))
      modifies this
      ensures View() == Apply(config, old(View()), AddResumes(t)) && Inv(config, View())
      ensures accepted <==> |old(queue)| < config.maxSize
    {
      getSignal := false;
      accepted := Add(t, waiting[t].item);
    }

    method Accept(item: Item)
      modifies this
      ensures View() == Put(config, old(View()), item)
    {
      added := added + [item];
      if config.groupSize > 1 {
        var id := item.groupId;
        if id !in groups { groups := groups[id := []]; }
        groups := groups[id := groups[id] + [item]];
        if |groups[id]| >= config.groupSize {
          queue := queue + groups[id];
          SetPut();
          groups := groups - {id};
        } else {
          assert queue + [] == queue;
        }
      } else {
        queue := queue + [item];
        SetPut();
      }
    }

    method SetPut()
      modifies this`putSignal, this`waiting
      ensures putSignal && waiting == ReleaseGetters(old(waiting))
    {
      putSignal, waiting := true, ReleaseGetters(waiting);
    }

    /** `get` from its start: park while the queue is too short, else return the longest batch. */
    method Get(t: Task, minimum: int, multiple: Positive) returns (items: seq<Item>, done: bool)
      requires Inv(config, View())
      modifies this
      ensures View() == TryGet(config, old(View()), t, minimum, multiple) && Inv(config, View())
      ensures done <==> BatchLength(config, |old(queue)|, multiple) >= minimum
      ensures done ==> |items| >= minimum && |items| % multiple == 0 && Grouped(items, Size(config))
      ensures done ==> old(queue) == items + queue && |queue| < Unit(config, multiple)
    {
      TryGetKeepsInv(config, View(), t, minimum, multiple);
      hide Inv, Grouped, Lcm;
      var unit := if config.groupSize > 1 then Lcm(config.groupSize, multiple) else multiple;
      var length := |queue| / unit * unit;
      if length < minimum {
        putSignal := false;
        waiting := waiting[t := Getter(minimum, multiple, false)];
        return [], false;
      }
      WholeBatch(config, View(), minimum, multiple);
      hide BatchLength;
      items := Deliver(t, minimum, multiple);
      return items, true;
    }

    /** Takes the batch off the queue and wakes the adders. */
    method Deliver(t: Task, minimum: int, multiple: Positive) returns (items: seq<Item>)
      requires !MustWait(config, View(), minimum, multiple)
      modifies this
      ensures View() == TryGet(config, old(View()), t, minimum, multiple)
      ensures |items| == BatchLength(config, |old(queue)|, multiple) <= |old(queue)|
      ensures items == old(queue)[..|items|] && queue == old(queue)[|items|..]
    {
      BatchFits(config, |queue|, multiple);
      hide BatchLength;
      items := PopLeft(BatchLength(config, |queue|, multiple));
      getSignal, waiting := true, ReleaseAdders(waiting - {t});
      batches := batches + [Batch(items, minimum, multiple)];
    }

    /** `get` after its event was set. */
    method ResumeGet(t: Task) returns (items: seq<Item>, done: bool)
      requires Inv(config, View()) && Legal(View(), GetResumes(t))
      modifies this
      ensures View() == Apply(config, old(View()), GetResumes(t)) && Inv(config, View())
      ensures done <==> BatchLength(config, |old(queue)|, old(waiting[t].multiple)) >= old(waiting[t].minimum)
      ensures done ==> old(queue) == items + queue
    {
      putSignal := false;
      items, done := Get(t, waiting[t].minimum, waiting[t].multiple);
    }

    method PopLeft(n: nat) returns (items: seq<Item>)
      requires n <= |queue|
      modifies this`queue
      ensures items == old(queue)[..n] && queue == old(queue)[n..]
    {
      items := [];
      for i := 0 to n
        invariant items == old(queue)[..i] && queue == old(queue)[i..]
      {
        items, queue := items + [queue[0]], queue[1..];
      }
    }
  }
}
