/** The compare-and-swap loop that counts container uses in etcd, run by any number of clients at once. */
module UseCounter {

  import opened Options

  /** A stored value with the revision of its last modification. */
  datatype Entry = Entry(value: nat, modRevision: nat)

  const MAX_ATTEMPTS := 16

  /** A client: the attempts it has used, and what it read in the current one. */
  datatype Client = Reading(attempt: nat) | Swapping(attempt: nat, seen: Option<Entry>) | Counted | GaveUp

  datatype State = State(
    entry: Option<Entry>,
    revision: nat,                // the store's revision; every write takes the next one
    clients: map<nat, Client>,
    counted: nat)                 // increments that succeeded since the counter was last deleted

  datatype Step = Arrive(id: nat) | Read(id: nat) | Swap(id: nat) | Delete

  function Init(): State {
    State(None, 0, map[], 0)
  }

  predicate Enabled(s: State, step: Step) {
    match step
    case Arrive(id) => id !in s.clients
    case Read(id) => id in s.clients && s.clients[id].Reading?
    case Swap(id) => id in s.clients && s.clients[id].Swapping?
    case Delete => true
  }

  /** The comparison of the transaction: absent then and now, or not modified since. */
  predicate Unchanged(entry: Option<Entry>, seen: Option<Entry>) {
    match seen
    case None => entry.None?
    case Some(e) => entry.Some? && entry.value.modRevision == e.modRevision
  }

  function Apply(s: State, step: Step): State
    requires Enabled(s, step)
  {
    match step
    case Arrive(id) => s.(clients := s.clients[id := Reading(0)])
    case Read(id) => s.(clients := s.clients[id := Swapping(s.clients[id].attempt, s.entry)])
    case Swap(id) =>
      var c := s.clients[id];
      if Unchanged(s.entry, c.seen) then
        var v := if c.seen.None? then 1 else c.seen.value.value + 1;
        State(Some(Entry(v, s.revision + 1)), s.revision + 1, s.clients[id := Counted], s.counted + 1)
      else if c.attempt + 1 < MAX_ATTEMPTS then s.(clients := s.clients[id := Reading(c.attempt + 1)])
      else s.(clients := s.clients[id := GaveUp])
    case Delete => s.(entry := None, revision := s.revision + 1, counted := 0)
  }

  /** What a client has seen is still what is stored, if the revisions agree. */
  ghost predicate Inv(s: State) {
    && (s.entry.Some? ==> s.entry.value.modRevision <= s.revision)
    && s.counted == (if s.entry.Some? then s.entry.value.value else 0)
    && forall id | id in s.clients && s.clients[id].Swapping? && s.clients[id].seen.Some? ::
         var seen := s.clients[id].seen.value;
         && seen.modRevision <= s.revision
         && (s.entry.Some? && s.entry.value.modRevision == seen.modRevision ==> s.entry.value == seen)
  }

  // ---------------------------------------------------------------- runs

  ghost predicate Legal(run: seq<Step>)
    decreases |run|, 0
  {
    run == [] || (Legal(run[..|run| - 1]) && Enabled(Exec(run[..|run| - 1]), run[|run| - 1]))
  }

  ghost function Exec(run: seq<Step>): State
    requires Legal(run)
    decreases |run|, 1
  {
    if run == [] then Init() else Apply(Exec(run[..|run| - 1]), run[|run| - 1])
  }

  lemma {:induction false} RunKeepsInv(run: seq<Step>)
    requires Legal(run)
    ensures Inv(Exec(run))
    decreases |run|
  {
    if run != [] { RunKeepsInv(run[..|run| - 1]); }
  }

  /** No increment is lost or doubled: in every interleaving the counter holds the number of clients whose
      transaction succeeded since the counter was last deleted. */
  lemma NoLostIncrement(run: seq<Step>)
    requires Legal(run)
    ensures var s := Exec(run);
            s.counted == if s.entry.Some? then s.entry.value.value else 0
  {
    RunKeepsInv(run);
  }

  // ---------------------------------------------------------------- calls that give up

  /** The step ends a call without having counted it: the last of its attempts fails. */
  predicate GivesUp(s: State, step: Step)
    requires Enabled(s, step)
  {
    step.Swap? && Apply(s, step).clients[step.id] == GaveUp
  }

  /** The step ends a call. */
  predicate Returns(s: State, step: Step)
    requires Enabled(s, step)
  {
    step.Swap? && !Apply(s, step).clients[step.id].Reading?
  }

  /** The calls that have returned since the counter was last deleted. */
  ghost function ReturnedCalls(run: seq<Step>): nat
    requires Legal(run)
    decreases |run|
  {
    if run == [] || run[|run| - 1] == Delete then 0
    else
      var front := run[..|run| - 1];
      ReturnedCalls(front) + if Returns(Exec(front), run[|run| - 1]) then 1 else 0
  }

  /** Those among them that gave up. */
  ghost function LostCalls(run: seq<Step>): nat
    requires Legal(run)
    decreases |run|
  {
    if run == [] || run[|run| - 1] == Delete then 0
    else
      var front := run[..|run| - 1];
      LostCalls(front) + if GivesUp(Exec(front), run[|run| - 1]) then 1 else 0
  }

  lemma {:induction false} CountedAreReturned(run: seq<Step>)
    requires Legal(run)
    ensures Exec(run).counted + LostCalls(run) == ReturnedCalls(run)
    decreases |run|
  {
    if run != [] { CountedAreReturned(run[..|run| - 1]); }
  }

  /** The uses on record are the calls that returned since the counter was last deleted, less those that gave up: their
      containers are allocated, but the uses are not counted. */
  lemma UsesAreCallsLessLost(run: seq<Step>)
    requires Legal(run)
    ensures var s := Exec(run);
            (if s.entry.Some? then s.entry.value.value else 0) == ReturnedCalls(run) - LostCalls(run)
  {
    NoLostIncrement(run);
    CountedAreReturned(run);
  }

  // ---------------------------------------------------------------- why a call gives up

  /** One failed attempt: where the client read, where somebody else wrote, and where its transaction failed. */
  datatype Round = Round(read: nat, write: nat, swap: nat)

  lemma {:induction false} PrefixLegal(run: seq<Step>, k: nat)
    requires Legal(run) && k <= |run|
    ensures Legal(run[..k])
    decreases |run|
  {
    if k == |run| {
      assert run[..k] == run;
    } else {
      PrefixLegal(run[..|run| - 1], k);
      assert run[..|run| - 1][..k] == run[..k];
    }
  }

  ghost function EntryAt(run: seq<Step>, k: nat): Option<Entry>
    requires Legal(run) && k <= |run|
  {
    PrefixLegal(run, k);
    Exec(run[..k]).entry
  }

  /** Step `k` changes what is stored, and it is not a step of client `id`. */
  ghost predicate WrittenByOther(run: seq<Step>, id: nat, k: nat)
    requires Legal(run)
  {
    k < |run| && EntryAt(run, k) != EntryAt(run, k + 1) && run[k] != Swap(id) && run[k] != Read(id)
        && run[k] != Arrive(id)
  }

  ghost predicate IsRound(run: seq<Step>, id: nat, r: Round)
    requires Legal(run)
  {
    && r.read < r.write < r.swap < |run|
    && run[r.read] == Read(id) && run[r.swap] == Swap(id) && WrittenByOther(run, id, r.write)
  }

  ghost predicate Rounds(run: seq<Step>, id: nat, rounds: seq<Round>)
    requires Legal(run)
  {
    && (forall i | 0 <= i < |rounds| :: IsRound(run, id, rounds[i]))
    && (forall i, j | 0 <= i < j < |rounds| :: rounds[i].swap < rounds[j].read)
  }

  /** The client has read at step `k`, and has not moved since. */
  ghost predicate ReadAt(run: seq<Step>, id: nat, k: nat, seen: Option<Entry>, rounds: seq<Round>)
    requires Legal(run)
  {
    && k < |run| && run[k] == Read(id) && EntryAt(run, k) == seen
    && (forall m | k < m < |run| :: run[m] != Swap(id) && run[m] != Read(id) && run[m] != Arrive(id))
    && (forall i | 0 <= i < |rounds| :: rounds[i].swap < k)
  }

  lemma EntryAtFront(run: seq<Step>, k: nat)
    requires Legal(run) && k < |run|
    ensures Legal(run[..|run| - 1]) && EntryAt(run, k) == EntryAt(run[..|run| - 1], k)
  {
    assert run[..|run| - 1][..k] == run[..k];
  }

  lemma RoundsOn(run: seq<Step>, id: nat, rounds: seq<Round>)
    requires run != [] && Legal(run) && Rounds(run[..|run| - 1], id, rounds)
    ensures Rounds(run, id, rounds)
  {
    var front := run[..|run| - 1];
    forall i | 0 <= i < |rounds| ensures IsRound(run, id, rounds[i]) {
      RoundOn(run, id, rounds[i]);
    }
  }

  lemma RoundOn(run: seq<Step>, id: nat, r: Round)
    requires run != [] && Legal(run) && IsRound(run[..|run| - 1], id, r)
    ensures IsRound(run, id, r)
  {
    hide EntryAt;
    EntryAtFront(run, r.write);
    EntryAtFront(run, r.write + 1);
  }

  /** Between two different contents there is a write. */
  lemma {:induction false} FindWrite(run: seq<Step>, k: nat, n: nat) returns (w: nat)
    requires Legal(run) && k <= n <= |run| && EntryAt(run, k) != EntryAt(run, n)
    ensures k <= w < n && EntryAt(run, w) != EntryAt(run, w + 1)
    decreases n - k
  {
    if EntryAt(run, k) != EntryAt(run, k + 1) { w := k; } else { w := FindWrite(run, k + 1, n); }
  }

  /** The rounds are the failed attempts of the client so far, and it has last read at step `k`. */
  ghost predicate Accounted(run: seq<Step>, id: nat, rounds: seq<Round>, k: nat)
    requires Legal(run)
  {
    && Rounds(run, id, rounds)
    && (id !in Exec(run).clients ==> rounds == [])
    && (id in Exec(run).clients ==>
          var c := Exec(run).clients[id];
          && (c.Reading? ==> |rounds| == c.attempt < MAX_ATTEMPTS)
          && (c.Swapping? ==> |rounds| == c.attempt < MAX_ATTEMPTS && ReadAt(run, id, k, c.seen, rounds))
          && (c == GaveUp ==> |rounds| == MAX_ATTEMPTS))
  }

  lemma {:induction false} FailedRounds(run: seq<Step>, id: nat) returns (rounds: seq<Round>, k: nat)
    requires Legal(run)
    ensures Accounted(run, id, rounds, k)
    decreases |run|
  {
    rounds, k := [], 0;
    if run != [] {
      var front, e := run[..|run| - 1], run[|run| - 1];
      rounds, k := FailedRounds(front, id);
      RoundsOn(run, id, rounds);
      if e == Read(id) {
        k := |run| - 1;
      } else if e == Swap(id) {
        rounds := AccountSwap(run, id, rounds, k);
      } else {
        AccountOther(run, id, rounds, k);
      }
    }
  }

  lemma AccountSwap(run: seq<Step>, id: nat, rounds: seq<Round>, k: nat) returns (rounds': seq<Round>)
    requires run != [] && Legal(run) && Accounted(run[..|run| - 1], id, rounds, k) && run[|run| - 1] == Swap(id)
    requires Rounds(run, id, rounds)
    ensures Accounted(run, id, rounds', k)
  {
    rounds' := rounds;
    if !Exec(run).clients[id].Counted? {
      var w := DisturbedBy(run, id, k, rounds);
      rounds' := rounds + [Round(k, w, |run| - 1)];
    }
    hide IsRound, WrittenByOther;
  }

  lemma AccountOther(run: seq<Step>, id: nat, rounds: seq<Round>, k: nat)
    requires run != [] && Legal(run) && Accounted(run[..|run| - 1], id, rounds, k)
    requires run[|run| - 1] != Read(id) && run[|run| - 1] != Swap(id) && Rounds(run, id, rounds)
    ensures Accounted(run, id, rounds, k)
  {
    hide IsRound, WrittenByOther, Rounds, ReadAt;
    var front := run[..|run| - 1];
    if run[|run| - 1] != Arrive(id) {
      if id in Exec(front).clients && Exec(front).clients[id].Swapping? {
        ReadAtOn(run, id, k, Exec(front).clients[id].seen, rounds);
      }
    }
  }

  lemma ReadAtOn(run: seq<Step>, id: nat, k: nat, seen: Option<Entry>, rounds: seq<Round>)
    requires run != [] && Legal(run) && ReadAt(run[..|run| - 1], id, k, seen, rounds)
    requires run[|run| - 1] != Read(id) && run[|run| - 1] != Swap(id) && run[|run| - 1] != Arrive(id)
    ensures ReadAt(run, id, k, seen, rounds)
  {
    hide EntryAt, Legal, Exec;
    EntryAtFront(run, k);
    var front := run[..|run| - 1];
    assert forall m | 0 <= m < |front| :: run[m] == front[m];
  }

  /** A failed transaction was preceded by somebody else's write. */
  lemma DisturbedBy(run: seq<Step>, id: nat, k: nat, rounds: seq<Round>) returns (w: nat)
    requires run != [] && Legal(run) && run[|run| - 1] == Swap(id) && !Exec(run).clients[id].Counted?
    requires var front := run[..|run| - 1];
             id in Exec(front).clients && Exec(front).clients[id].Swapping? &&
             ReadAt(front, id, k, Exec(front).clients[id].seen, rounds)
    ensures k < w < |run| - 1 && IsRound(run, id, Round(k, w, |run| - 1))
  {
    var front, n := run[..|run| - 1], |run| - 1;
    var seen := Exec(front).clients[id].seen;
    EntryAtFront(run, k);
    assert EntryAt(run, n) == Exec(front).entry;
    assert Exec(front).entry != seen;
    w := FindWrite(run, k, n);
    ReadWritesNothing(run, k);
    assert run[w] == front[w];
  }

  lemma ReadWritesNothing(run: seq<Step>, k: nat)
    requires Legal(run) && k < |run| && run[k].Read?
    ensures EntryAt(run, k + 1) == EntryAt(run, k)
  {
    PrefixLegal(run, k + 1);
    assert run[..k + 1][..k] == run[..k];
  }

  /** A call gives up only after sixteen attempts in each of which somebody else wrote between its read and its
      transaction. */
  lemma GivingUpTakesSixteenWrites(run: seq<Step>, id: nat) returns (rounds: seq<Round>)
    requires Legal(run) && id in Exec(run).clients && Exec(run).clients[id] == GaveUp
    ensures |rounds| == MAX_ATTEMPTS && Rounds(run, id, rounds)
  {
    var k;
    rounds, k := FailedRounds(run, id);
  }

  /** Every attempt of client 0 is overtaken by another client's call. */
  function Overtaking(n: nat): seq<Step> {
    if n == 0 then [Arrive(0)] else Overtaking(n - 1) + [Arrive(n), Read(0), Read(n), Swap(n), Swap(0)]
  }

  ghost predicate RunsTo(run: seq<Step>, s: State, lost: nat) {
    Legal(run) && Exec(run) == s && LostCalls(run) == lost
  }

  lemma Snoc(run: seq<Step>, s: State, e: Step, lost: nat)
    requires RunsTo(run, s, lost) && Enabled(s, e) && e != Delete
    ensures RunsTo(run + [e], Apply(s, e), lost + if GivesUp(s, e) then 1 else 0)
  {
    assert (run + [e])[..|run|] == run;
  }

  /** The state after `n` overtaken attempts. */
  predicate Overtaken(s: State, n: nat) {
    && 0 in s.clients && s.clients[0] == (if n < MAX_ATTEMPTS then Reading(n) else GaveUp)
    && (forall id | id in s.clients :: id <= n)
    && s.entry == (if n == 0 then None else Some(Entry(n, n))) && s.revision == n
  }

  /** What client 0 has read is not what is stored when its transaction comes. */
  lemma OvertakenOnce(run: seq<Step>, s: State, n: nat) returns (s': State)
    requires 0 < n <= MAX_ATTEMPTS && Overtaken(s, n - 1) && RunsTo(run, s, 0)
    ensures Overtaken(s', n)
    ensures RunsTo(run + [Arrive(n)] + [Read(0)] + [Read(n)] + [Swap(n)] + [Swap(0)], s',
                   if n < MAX_ATTEMPTS then 0 else 1)
  {
    hide RunsTo;
    s' := s;
    var longer := run;
    Snoc(longer, s', Arrive(n), 0);
    longer, s' := longer + [Arrive(n)], Apply(s', Arrive(n));
    Snoc(longer, s', Read(0), 0);
    longer, s' := longer + [Read(0)], Apply(s', Read(0));
    Snoc(longer, s', Read(n), 0);
    longer, s' := longer + [Read(n)], Apply(s', Read(n));
    Snoc(longer, s', Swap(n), 0);
    longer, s' := longer + [Swap(n)], Apply(s', Swap(n));
    Snoc(longer, s', Swap(0), 0);
    s' := Apply(s', Swap(0));
  }

  lemma {:induction false} OvertakenSoFar(n: nat) returns (s: State)
    requires n <= MAX_ATTEMPTS
    ensures Overtaken(s, n) && RunsTo(Overtaking(n), s, if n < MAX_ATTEMPTS then 0 else 1)
  {
    if n == 0 {
      Snoc([], Init(), Arrive(0), 0);
      s := Apply(Init(), Arrive(0));
      assert [] + [Arrive(0)] == Overtaking(0);
    } else {
      hide RunsTo, Overtaken;
      s := OvertakenSoFar(n - 1);
      var run := Overtaking(n - 1);
      s := OvertakenOnce(run, s, n);
      assert run + [Arrive(n)] + [Read(0)] + [Read(n)] + [Swap(n)] + [Swap(0)] == Overtaking(n);
    }
  }

  /** A call that is overtaken sixteen times gives up: seventeen calls have returned, and sixteen uses are on record. */
  lemma SixteenOvertakesLoseAUse()
    ensures var run := Overtaking(16);
            && Legal(run) && Exec(run).clients[0] == GaveUp && LostCalls(run) == 1
            && ReturnedCalls(run) == 17 && Exec(run).entry.Some? && Exec(run).entry.value.value == 16
  {
    var _ := OvertakenSoFar(16);
    UsesAreCallsLessLost(Overtaking(16));
  }

  // ---------------------------------------------------------------- the loop

  /** What others do to the key: count a use or more, or delete it. */
  datatype Write = Put(value: nat) | Erase

  datatype Stored = Stored(entry: Option<Entry>, revision: nat)

  function Written(st: Stored, writes: seq<Write>): Stored {
    if writes == [] then st
    else
      var before := Written(st, writes[..|writes| - 1]);
      match writes[|writes| - 1]
      case Put(v) => Stored(Some(Entry(v, before.revision + 1)), before.revision + 1)
      case Erase => Stored(None, if before.entry.Some? then before.revision + 1 else before.revision)
  }

  /** What others write before the read of an attempt, and between its read and its transaction. */
  datatype Meanwhile = Meanwhile(before: seq<Write>, between: seq<Write>)

  /** What is stored after the first `k` attempts, if all of them failed. */
  function AfterFailures(st: Stored, rounds: seq<Meanwhile>, k: nat): Stored
    requires k <= |rounds|
  {
    if k == 0 then st
    else Written(Written(AfterFailures(st, rounds, k - 1), rounds[k - 1].before), rounds[k - 1].between)
  }

  /** Attempt `k` fails. */
  predicate Disturbed(st: Stored, rounds: seq<Meanwhile>, k: nat)
    requires k < |rounds|
  {
    var read := Written(AfterFailures(st, rounds, k), rounds[k].before);
    !Unchanged(Written(read, rounds[k].between).entry, read.entry)
  }

  function Incremented(st: Stored): Stored {
    var v := if st.entry.Some? then st.entry.value.value else 0;
    Stored(Some(Entry(v + 1, st.revision + 1)), st.revision + 1)
  }

  predicate RevisionsOk(st: Stored) {
    st.entry.Some? ==> st.entry.value.modRevision <= st.revision
  }

  /** A revision is used for one write only: the same revision means the same entry. */
  lemma {:induction false} SameRevisionSameEntry(st: Stored, writes: seq<Write>)
    requires RevisionsOk(st)
    ensures var st' := Written(st, writes);
            && RevisionsOk(st') && st.revision <= st'.revision
            && (st'.entry.Some? && (st.entry.None? || st'.entry != st.entry) ==>
                st'.entry.value.modRevision > st.revision)
    decreases |writes|
  {
    if writes != [] { SameRevisionSameEntry(st, writes[..|writes| - 1]); }
  }

  class Counter {
    var entry: Option<Entry>
    var revision: nat

    ghost function View(): Stored
      reads this
    {
      Stored(entry, revision)
    }

    constructor ()
      ensures View() == Stored(None, 0) && RevisionsOk(View())
    {
      entry, revision := None, 0;
    }

    method Write(writes: seq<Write>)
      modifies this
      ensures View() == Written(old(View()), writes)
    {
      for i := 0 to |writes|
        invariant View() == Written(old(View()), writes[..i])
      {
        assert writes[..i + 1][..i] == writes[..i];
        match writes[i] {
          case Put(v) =>
            revision := revision + 1;
            entry := Some(Entry(v, revision));
          case Erase =>
            if entry.Some? { revision := revision + 1; }
            entry := None;
        }
      }
      assert writes[..|writes|] == writes;
    }

    /** `_increment_uses`, with what others write in the meantime: it counts the use in the first attempt that nobody
        disturbs, adding one to what is stored at that moment, and gives up when all sixteen attempts are disturbed. */
    method Increment(rounds: seq<Meanwhile>) returns (counted: bool)
      requires |rounds| == MAX_ATTEMPTS && RevisionsOk(View())
      modifies this
      ensures RevisionsOk(View())
      ensures counted <==> exists k :: 0 <= k < MAX_ATTEMPTS && !Disturbed(old(View()), rounds, k)
      ensures !counted ==> View() == AfterFailures(old(View()), rounds, MAX_ATTEMPTS)
      ensures counted ==>
                exists k :: && 0 <= k < MAX_ATTEMPTS && !Disturbed(old(View()), rounds, k)
                            && (forall j | 0 <= j < k :: Disturbed(old(View()), rounds, j))
                            && View() == Incremented(AfterFailures(old(View()), rounds, k + 1))
    {
      ghost var start := View();
      for attempt := 0 to MAX_ATTEMPTS
        invariant RevisionsOk(View()) && View() == AfterFailures(start, rounds, attempt)
        invariant forall j | 0 <= j < attempt :: Disturbed(start, rounds, j)
      {
        SameRevisionSameEntry(View(), rounds[attempt].before);
        Write(rounds[attempt].before);
        var seen := entry;
        SameRevisionSameEntry(View(), rounds[attempt].between);
        ghost var read := View();
        Write(rounds[attempt].between);
        assert View() == AfterFailures(start, rounds, attempt + 1);
        if Unchanged(entry, seen) {
          assert !Disturbed(start, rounds, attempt);
          var value := if seen.None? then 1 else seen.value.value + 1;
          revision := revision + 1;
          entry := Some(Entry(value, revision));
          assert View() == Incremented(AfterFailures(start, rounds, attempt + 1));
          return true;
        }
        assert Disturbed(start, rounds, attempt);
      }
      return false;
    }
  }
}
