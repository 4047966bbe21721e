/** The controller's session bookkeeping as a transition system.

    Every step is one critical section of the controller.  A session object is named by its
    reference (type `R`), not by its id: the id table can lose an object while a goroutine still
    holds a pointer to it, and the load counters must survive that. */
module SessionProtocol {

  /** A session id: Go's 64-bit `int`. */
  type Id = x: int | -0x8000_0000_0000_0000 <= x < 0x8000_0000_0000_0000

  datatype Session<W> = Session(
    id: Id, worker: W, index: int,
    finished: bool, cancelling: bool, interacting: bool,
    lastUpdate: int)

  datatype State<R, W> = State(
    objects: map<R, Session<W>>,  // every session object ever allocated
    table: map<Id, R>,           // SessionManager.Sessions
    current: map<W, int>,         // Worker.Current
    capacity: map<W, int>,        // Worker.Capacity
    pending: multiset<W>,         // dispatches that incremented Current but created no session yet
    nextId: Int32)                // SessionManager.nextSessionId

  datatype Step<R, W> =
    | Register(w: W, cap: int)
    | SetCapacity(w: W, cap: int)
    | Reserve(w: W)
    | Create(r: R, w: W, index: int, now: int)
    | Finish(r: R, notice: bool, now: int)
    | Resume(r: R, w: W, id: Id, index: int, syncTime: int, now: int)
    | BeginInteract(r: R, now: int)
    | EndInteract(r: R, now: int)
    | Clean(removeLine: int)

  const MAX_INT32 := 0x7FFF_FFFF

  type Int32 = x: int | -MAX_INT32 - 1 <= x <= MAX_INT32

  /** `atomic.Int32.Add(1)`: wraps around. */
  function NextId(n: Int32): Int32 {
    if n == MAX_INT32 then -MAX_INT32 - 1 else n + 1
  }

  function NewSession<W>(id: Id, w: W, index: int, now: int): Session<W> {
    Session(id, w, index, false, false, false, now)
  }

  function Init<R, W>(): State<R, W> {
    State(map[], map[], map[], map[], multiset{}, 0)
  }

  predicate Enabled<R, W>(s: State<R, W>, step: Step<R, W>) {
    match step
    case Register(w, cap) => w !in s.current && w !in s.capacity && cap > 0
    case SetCapacity(w, cap) => w in s.current && w in s.capacity && cap > 0
    case Reserve(w) => w in s.current && w in s.capacity && s.current[w] < s.capacity[w]
    case Create(r, w, _, _) => r !in s.objects && w in s.current && w in s.pending
    case Finish(r, _, _) => r in s.objects && s.objects[r].worker in s.current
    case Resume(r, w, id, _, _, _) => r !in s.objects && w in s.current && (id in s.table ==> s.table[id] in s.objects)
    case BeginInteract(r, _) => r in s.objects
    case EndInteract(r, _) => r in s.objects
    case Clean(_) => forall id | id in s.table :: s.table[id] in s.objects
  }

  /** How `ResumeSession` treats one reported id. */
  datatype ResumeCase = Mismatch | Keep | Revive | Adopt

  function Classify<R, W>(s: State<R, W>, w: W, id: Id, index: int, syncTime: int): ResumeCase
    requires id in s.table ==> s.table[id] in s.objects
  {
    if id !in s.table then Adopt
    else
      var o := s.objects[s.table[id]];
      if o.worker != w || o.index != index then Mismatch
      else if !o.finished then Keep
      else if o.lastUpdate > syncTime then Keep
      else Revive
  }

  function FinishObject<W>(o: Session<W>, notice: bool, now: int): Session<W> {
    if o.finished then o
    else if notice then o.(interacting := false, cancelling := true, lastUpdate := now)
    else o.(interacting := false, finished := true, lastUpdate := now)
  }

  /** The first critical section of a dispatch. */
  function ReserveIn<R, W>(s: State<R, W>, w: W): State<R, W>
    requires w in s.current
  {
    s.(current := s.current[w := s.current[w] + 1], pending := s.pending + multiset{w})
  }

  function CreateIn<R, W>(s: State<R, W>, r: R, w: W, index: int, now: int): State<R, W>
  {
    var id := NextId(s.nextId);
    s.(objects := s.objects[r := NewSession(id, w, index, now)],
       table := s.table[id := r],
       pending := s.pending - multiset{w},
       nextId := id)
  }

  function FinishIn<R, W>(s: State<R, W>, r: R, notice: bool, now: int): State<R, W>
    requires r in s.objects && s.objects[r].worker in s.current
  {
    var o := s.objects[r];
    var s' := s.(objects := s.objects[r := FinishObject(o, notice, now)]);
    if o.finished || notice then s' else s'.(current := s.current[o.worker := s.current[o.worker] - 1])
  }

  function ReviveIn<R, W>(s: State<R, W>, r: R, w: W, now: int): State<R, W>
    requires r in s.objects && w in s.current
  {
    s.(objects := s.objects[r := s.objects[r].(finished := false, lastUpdate := now)],
       current := s.current[w := s.current[w] + 1])
  }

  function AdoptIn<R, W>(s: State<R, W>, r: R, w: W, id: Id, index: int, now: int): State<R, W>
    requires w in s.current
  {
    s.(objects := s.objects[r := NewSession(id, w, index, now)],
       table := s.table[id := r],
       current := s.current[w := s.current[w] + 1])
  }

  function ResumeIn<R, W>(s: State<R, W>, r: R, w: W, id: Id, index: int, syncTime: int, now: int): State<R, W>
    requires w in s.current && (id in s.table ==> s.table[id] in s.objects)
  {
    match Classify(s, w, id, index, syncTime)
    case Mismatch => s
    case Keep => s
    case Revive => ReviveIn(s, s.table[id], w, now)
    case Adopt => AdoptIn(s, r, w, id, index, now)
  }

  /** The first critical section of `Interact`; `Busy` sessions are refused. */
  function BeginIn<R, W>(s: State<R, W>, r: R, now: int): State<R, W>
    requires r in s.objects
  {
    if Busy(s.objects[r]) then s
    else s.(objects := s.objects[r := s.objects[r].(interacting := true, lastUpdate := now)])
  }

  predicate Busy<W>(o: Session<W>) {
    o.interacting || o.cancelling
  }

  /** The deferred critical section of `Interact`. */
  function EndIn<R, W>(s: State<R, W>, r: R, now: int): State<R, W>
    requires r in s.objects
  {
    s.(objects := s.objects[r := s.objects[r].(interacting := false, lastUpdate := now)])
  }

  predicate Removable<W>(o: Session<W>, removeLine: int) {
    o.finished && o.lastUpdate < removeLine
  }

  function CleanIn<R, W>(s: State<R, W>, removeLine: int): State<R, W>
    requires forall id | id in s.table :: s.table[id] in s.objects
  {
    s.(table := map id | id in s.table && !Removable(s.objects[s.table[id]], removeLine) :: s.table[id])
  }

  function Apply<R, W>(s: State<R, W>, step: Step<R, W>): State<R, W>
    requires Enabled(s, step)
  {
    match step
    case Register(w, cap) => s.(current := s.current[w := 0], capacity := s.capacity[w := cap])
    case SetCapacity(w, cap) => s.(capacity := s.capacity[w := cap])
    case Reserve(w) => ReserveIn(s, w)
    case Create(r, w, index, now) => CreateIn(s, r, w, index, now)
    case Finish(r, notice, now) => FinishIn(s, r, notice, now)
    case Resume(r, w, id, index, syncTime, now) => ResumeIn(s, r, w, id, index, syncTime, now)
    case BeginInteract(r, now) => BeginIn(s, r, now)
    case EndInteract(r, now) => EndIn(s, r, now)
    case Clean(removeLine) => CleanIn(s, removeLine)
  }

  // ---------------------------------------------------------------- load conservation

  /** The unfinished session objects bound to `w`, in the table or not. */
  ghost function Live<R, W>(s: State<R, W>, w: W): set<R> {
    set r | r in s.objects && s.objects[r].worker == w && !s.objects[r].finished
  }

  /** The ids in the table whose session is unfinished and bound to `w`. */
  ghost function TableLive<R, W>(s: State<R, W>, w: W): set<Id>
    requires WellFormed(s)
  {
    set id | id in s.table && s.objects[s.table[id]].worker == w && !s.objects[s.table[id]].finished
  }

  ghost predicate WellFormed<R, W>(s: State<R, W>) {
    && (forall id | id in s.table :: s.table[id] in s.objects && s.objects[s.table[id]].id == id)
    && (forall r | r in s.objects :: s.objects[r].worker in s.current)
    && (forall w | w in s.pending :: w in s.current)
    && s.current.Keys == s.capacity.Keys
  }

  /** `Current` counts the unfinished session objects plus the dispatches still on their way. */
  ghost predicate Conserved<R, W>(s: State<R, W>) {
    forall w {:trigger Live(s, w)} | w in s.current :: s.current[w] == |Live(s, w)| + s.pending[w]
  }

  ghost predicate Inv<R, W>(s: State<R, W>) {
    WellFormed(s) && Conserved(s)
  }

  /** An unfinished session object that the id table no longer reaches. */
  predicate Orphan<R, W>(s: State<R, W>, r: R) {
    r in s.objects && !s.objects[r].finished &&
    !(s.objects[r].id in s.table && s.table[s.objects[r].id] == r)
  }

  /** Writing one object changes a live count by what that object contributes. */
  lemma OneChange<R, W>(s: State<R, W>, s': State<R, W>, r: R, w: W)
    requires s'.objects.Keys == s.objects.Keys + {r}
    requires forall q | q in s.objects && q != r :: s'.objects[q] == s.objects[q]
    ensures |Live(s', w)| == |Live(s, w)| - (if r in Live(s, w) then 1 else 0) + (if r in Live(s', w) then 1 else 0)
  {
    var others := Live(s, w) - {r};
    assert Live(s', w) - {r} == others;
    assert |Live(s, w)| == |others| + (if r in Live(s, w) then 1 else 0);
    assert |Live(s', w)| == |others| + (if r in Live(s', w) then 1 else 0);
  }

  lemma ReserveKeepsInv<R, W>(s: State<R, W>, step: Step<R, W>)
    requires Inv(s) && Enabled(s, step) && (step.Reserve? || step.Register? || step.SetCapacity?)
    ensures Inv(Apply(s, step))
  {
    var s' := Apply(s, step);
    forall w | w in s'.current ensures s'.current[w] == |Live(s', w)| + s'.pending[w] {
      assert Live(s', w) == Live(s, w);
      if step.Register? && w == step.w {
        assert Live(s, w) == {};
        assert w !in s.pending;
      }
    }
  }

  lemma CreateKeepsInv<R, W>(s: State<R, W>, r: R, w: W, index: int, now: int)
    requires Inv(s) && r !in s.objects && w in s.current && w in s.pending
    ensures Inv(CreateIn(s, r, w, index, now))
  {
    var s' := CreateIn(s, r, w, index, now);
    assert WellFormed(s');
    forall v | v in s'.current ensures s'.current[v] == |Live(s', v)| + s'.pending[v] {
      OneChange(s, s', r, v);
    }
  }

  lemma FinishKeepsInv<R, W>(s: State<R, W>, r: R, notice: bool, now: int)
    requires Inv(s) && r in s.objects
    ensures Inv(FinishIn(s, r, notice, now))
  {
    var s' := FinishIn(s, r, notice, now);
    assert WellFormed(s');
    forall v | v in s'.current ensures s'.current[v] == |Live(s', v)| + s'.pending[v] {
      OneChange(s, s', r, v);
    }
  }

  lemma ReviveKeepsInv<R, W>(s: State<R, W>, r: R, w: W, now: int)
    requires Inv(s) && r in s.objects && s.objects[r].worker == w && s.objects[r].finished
    ensures Inv(ReviveIn(s, r, w, now))
  {
    var s' := ReviveIn(s, r, w, now);
    assert WellFormed(s');
    forall v | v in s'.current ensures s'.current[v] == |Live(s', v)| + s'.pending[v] {
      OneChange(s, s', r, v);
    }
  }

  lemma AdoptKeepsInv<R, W>(s: State<R, W>, r: R, w: W, id: Id, index: int, now: int)
    requires Inv(s) && r !in s.objects && w in s.current && id !in s.table
    ensures Inv(AdoptIn(s, r, w, id, index, now))
  {
    var s' := AdoptIn(s, r, w, id, index, now);
    assert WellFormed(s');
    forall v | v in s'.current ensures s'.current[v] == |Live(s', v)| + s'.pending[v] {
      OneChange(s, s', r, v);
    }
  }

  /** As `ResumeKeepsInv`, for a caller that already has the object the id leads to. */
  lemma ResumedKeepsInv<R, W>(s: State<R, W>, r: R, w: W, id: Id, index: int, syncTime: int, now: int)
    requires Inv(s) && (id !in s.table ==> r !in s.objects) && w in s.current
    ensures Inv(ResumeIn(s, r, w, id, index, syncTime, now))
  {
    match Classify(s, w, id, index, syncTime)
    case Mismatch =>
    case Keep =>
    case Revive => ReviveKeepsInv(s, s.table[id], w, now);
    case Adopt => AdoptKeepsInv(s, r, w, id, index, now);
  }

  lemma ResumeKeepsInv<R, W>(s: State<R, W>, r: R, w: W, id: Id, index: int, syncTime: int, now: int)
    requires Inv(s) && r !in s.objects && w in s.current
    ensures Inv(ResumeIn(s, r, w, id, index, syncTime, now))
  {
    match Classify(s, w, id, index, syncTime)
    case Mismatch =>
    case Keep =>
    case Revive => ReviveKeepsInv(s, s.table[id], w, now);
    case Adopt => AdoptKeepsInv(s, r, w, id, index, now);
  }

  /** Steps that change neither who is unfinished nor any counter keep the invariant. */
  lemma SameLoadKeepsInv<R, W>(s: State<R, W>, s': State<R, W>)
    requires Inv(s) && WellFormed(s') && s'.current == s.current && s'.pending == s.pending
    requires s'.objects.Keys == s.objects.Keys
    requires forall r | r in s.objects ::
               s'.objects[r].worker == s.objects[r].worker && s'.objects[r].finished == s.objects[r].finished
    ensures Inv(s')
  {
    forall w | w in s'.current ensures s'.current[w] == |Live(s', w)| + s'.pending[w] {
      assert Live(s', w) == Live(s, w);
    }
  }

  lemma StepKeepsInv<R, W>(s: State<R, W>, step: Step<R, W>)
    requires Inv(s) && Enabled(s, step)
    ensures Inv(Apply(s, step))
  {
    match step
    case Register(_, _) => ReserveKeepsInv(s, step);
    case SetCapacity(_, _) => ReserveKeepsInv(s, step);
    case Reserve(_) => ReserveKeepsInv(s, step);
    case Create(r, w, index, now) => CreateKeepsInv(s, r, w, index, now);
    case Finish(r, notice, now) => FinishKeepsInv(s, r, notice, now);
    case Resume(r, w, id, index, syncTime, now) => ResumeKeepsInv(s, r, w, id, index, syncTime, now);
    case BeginInteract(r, now) => SameLoadKeepsInv(s, BeginIn(s, r, now));
    case EndInteract(r, now) => SameLoadKeepsInv(s, EndIn(s, r, now));
    case Clean(removeLine) => SameLoadKeepsInv(s, CleanIn(s, removeLine));
  }

  // ---------------------------------------------------------------- runs

  /** The steps of `run` can be taken one after the other from `s`. */
  predicate Legal<R, W>(s: State<R, W>, run: seq<Step<R, W>>)
    decreases |run|
  {
    run == [] || (Enabled(s, run[0]) && Legal(Apply(s, run[0]), run[1..]))
  }

  function Exec<R, W>(s: State<R, W>, run: seq<Step<R, W>>): State<R, W>
    requires Legal(s, run)
    decreases |run|
  {
    if run == [] then s else Exec(Apply(s, run[0]), run[1..])
  }

  lemma {:induction false} RunKeepsInv<R, W>(s: State<R, W>, run: seq<Step<R, W>>)
    requires Inv(s) && Legal(s, run)
    ensures Inv(Exec(s, run))
    decreases |run|
  {
    if run != [] {
      StepKeepsInv(s, run[0]);
      RunKeepsInv(Apply(s, run[0]), run[1..]);
    }
  }

  /** In every run, whatever is created, cancelled, resumed or cleaned in whatever order, every
      worker's load counter is exactly its unfinished sessions plus its dispatches in flight, so it
      is never negative. */
  lemma LoadConserved<R, W>(run: seq<Step<R, W>>)
    requires Legal(Init(), run)
    ensures Inv(Exec(Init(), run))
    ensures var s := Exec(Init(), run);
            forall w | w in s.current :: s.current[w] == |Live(s, w)| + s.pending[w] && s.current[w] >= 0
  {
    RunKeepsInv(Init(), run);
  }

  // ---------------------------------------------------------------- counting through the id table

  /** The counter agrees with what the id table shows for `w`. */
  ghost predicate ExactByTable<R, W>(s: State<R, W>, w: W)
    requires WellFormed(s) && w in s.current
  {
    s.current[w] == |TableLive(s, w)| + s.pending[w]
  }

  ghost predicate NoOrphans<R, W>(s: State<R, W>) {
    forall r | r in s.objects :: !Orphan(s, r)
  }

  ghost function Image<K, R>(ids: set<K>, m: map<K, R>): set<R>
    requires ids <= m.Keys
  {
    set i | i in ids :: m[i]
  }

  /** A map that is injective on `ids` keeps their number. */
  lemma {:induction false} ImageSize<K, R>(ids: set<K>, m: map<K, R>)
    requires ids <= m.Keys
    requires forall i, j | i in ids && j in ids && m[i] == m[j] :: i == j
    ensures |ids| == |Image(ids, m)|
    decreases |ids|
  {
    if ids != {} {
      var i :| i in ids;
      ImageSize(ids - {i}, m);
      assert Image(ids, m) == Image(ids - {i}, m) + {m[i]};
    }
  }

  /** The table count is the object count less the orphans. */
  lemma TableCount<R, W>(s: State<R, W>, w: W)
    requires WellFormed(s)
    ensures |TableLive(s, w)| == |Live(s, w) - (set r | r in s.objects && Orphan(s, r))|
  {
    var ids := TableLive(s, w);
    ImageSize(ids, s.table);
    var image := Image(ids, s.table);
    var reached := Live(s, w) - (set r | r in s.objects && Orphan(s, r));
    forall r | r in reached ensures r in image {
      assert s.objects[r].id in ids;
    }
    forall r | r in image ensures r in reached {
      var id :| id in ids && s.table[id] == r;
      assert s.objects[r].id == id;
    }
    assert image == reached;
  }

  /** Seen through the id table the counter of `w` is exact if and only if no unfinished session
      of `w` has been pushed out of the table. */
  lemma ExactIffNoOrphan<R, W>(s: State<R, W>, w: W)
    requires Inv(s) && w in s.current
    ensures ExactByTable(s, w) <==> (forall r | r in s.objects && s.objects[r].worker == w :: !Orphan(s, r))
  {
    TableCount(s, w);
    var orphans := set r | r in s.objects && Orphan(s, r);
    if forall r | r in s.objects && s.objects[r].worker == w :: !Orphan(s, r) {
      assert Live(s, w) - orphans == Live(s, w);
    } else {
      var r :| r in s.objects && s.objects[r].worker == w && Orphan(s, r);
      assert r in Live(s, w) * orphans;
      assert Live(s, w) == (Live(s, w) - orphans) + (Live(s, w) * orphans);
      assert |Live(s, w)| == |Live(s, w) - orphans| + |Live(s, w) * orphans|;
    }
  }

  /** The next id handed out belongs to a session that is still unfinished. */
  predicate Collides<R, W>(s: State<R, W>, step: Step<R, W>)
    requires WellFormed(s)
  {
    step.Create? && NextId(s.nextId) in s.table && !s.objects[s.table[NextId(s.nextId)]].finished
  }

  /** The only step that pushes an unfinished session out of the table is a `CreateSession` whose id
      is already taken by an unfinished session; that step always does. */
  lemma OrphansComeFromCollisions<R, W>(s: State<R, W>, step: Step<R, W>)
    requires Inv(s) && Enabled(s, step) && NoOrphans(s)
    ensures NoOrphans(Apply(s, step)) <==> !Collides(s, step)
  {
    hide Conserved;
    if step.Resume? {
      ResumeOrphansNobody(s, step);
    } else if step.Create? {
      CreateOrphansIff(s, step);
    } else {
      OthersOrphanNobody(s, step);
    }
    hide Apply, Enabled, Collides, Orphan;
  }

  lemma CreateOrphansIff<R, W>(s: State<R, W>, step: Step<R, W>)
    requires WellFormed(s) && Enabled(s, step) && NoOrphans(s) && step.Create?
    ensures NoOrphans(Apply(s, step)) <==> !Collides(s, step)
  {
    var id := NextId(s.nextId);
    var s' := Apply(s, step);
    if Collides(s, step) {
      assert Orphan(s', s.table[id]);
    } else {
      forall r | r in s'.objects ensures !Orphan(s', r) {
        assert !Orphan(s, r);
      }
    }
  }

  lemma OthersOrphanNobody<R, W>(s: State<R, W>, step: Step<R, W>)
    requires WellFormed(s) && Enabled(s, step) && NoOrphans(s) && !step.Create? && !step.Resume?
    ensures NoOrphans(Apply(s, step))
  {
    var s' := Apply(s, step);
    assert step.Clean? || s'.table == s.table;
    forall r | r in s'.objects ensures !Orphan(s', r) {
      assert !Orphan(s, r);
    }
  }

  lemma ResumeOrphansNobody<R, W>(s: State<R, W>, step: Step<R, W>)
    requires WellFormed(s) && Enabled(s, step) && NoOrphans(s) && step.Resume?
    ensures NoOrphans(Apply(s, step))
  {
    var s' := Apply(s, step);
    match Classify(s, step.w, step.id, step.index, step.syncTime) {
      case Mismatch =>
      case Keep =>
      case Revive =>
        assert s'.table == s.table;
      case Adopt =>
        forall r | r in s.objects ensures !Orphan(s', r) {
          assert !Orphan(s, r);
        }
    }
  }

  predicate CollisionFree<R, W>(s: State<R, W>, run: seq<Step<R, W>>)
    requires Inv(s) && Legal(s, run)
    decreases |run|
  {
    run == [] ||
    (StepKeepsInv(s, run[0]);
     !Collides(s, run[0]) && CollisionFree(Apply(s, run[0]), run[1..]))
  }

  lemma {:induction false} CollisionFreeRunHasNoOrphans<R, W>(s: State<R, W>, run: seq<Step<R, W>>)
    requires Inv(s) && Legal(s, run) && NoOrphans(s) && CollisionFree(s, run)
    ensures Inv(Exec(s, run)) && NoOrphans(Exec(s, run))
    decreases |run|
  {
    if run != [] {
      StepKeepsInv(s, run[0]);
      OrphansComeFromCollisions(s, run[0]);
      CollisionFreeRunHasNoOrphans(Apply(s, run[0]), run[1..]);
    }
  }

  /** With fresh ids, `Current` is exactly the unfinished sessions in the map plus the dispatches in flight. */
  lemma TableCountConserved<R, W>(run: seq<Step<R, W>>, w: W)
    requires Legal(Init(), run) && CollisionFree(Init(), run)
    requires w in Exec(Init(), run).current
    ensures Inv(Exec(Init(), run)) && ExactByTable(Exec(Init(), run), w)
  {
    CollisionFreeRunHasNoOrphans(Init(), run);
    ExactIffNoOrphan(Exec(Init(), run), w);
  }

  /** A worker reports session 1 to a restarted controller, which then hands id 1 out again. */
  function Colliding<R, W>(w: W, r0: R, r1: R): seq<Step<R, W>> {
    [Register(w, 2), Resume(r0, w, 1, 0, 0, 0), Reserve(w), Create(r1, w, 0, 0)]
  }

  /** The counter says two, the table shows one. */
  lemma CollisionDrifts<R, W>(w: W, r0: R, r1: R)
    requires r0 != r1
    ensures var run := Colliding(w, r0, r1);
            && Legal(Init(), run)
            && Inv(Exec(Init(), run))
            && w in Exec(Init(), run).current
            && Exec(Init(), run).current[w] == 2
            && Exec(Init(), run).pending[w] == 0
            && |TableLive(Exec(Init(), run), w)| == 1
  {
    CollidingRun(w, r0, r1);
    LoadConserved(Colliding(w, r0, r1));
    hide Legal, Exec;
    assert TableLive(Collided(w, r0, r1), w) == {1};
  }

  function Collided<R, W>(w: W, r0: R, r1: R): State<R, W> {
    var o := NewSession(1, w, 0, 0);
    State(map[r0 := o, r1 := o], map[1 := r1], map[w := 2], map[w := 2], multiset{}, 1)
  }

  lemma CollidingRun<R, W>(w: W, r0: R, r1: R)
    requires r0 != r1
    ensures Legal(Init(), Colliding(w, r0, r1)) && Exec(Init(), Colliding(w, r0, r1)) == Collided(w, r0, r1)
  {
    var run := Colliding(w, r0, r1);
    var o := NewSession(1, w, 0, 0);
    var s1: State<R, W> := State(map[], map[], map[w := 0], map[w := 2], multiset{}, 0);
    var s2 := State(map[r0 := o], map[1 := r0], map[w := 1], map[w := 2], multiset{}, 0);
    var s3 := State(map[r0 := o], map[1 := r0], map[w := 2], map[w := 2], multiset{w}, 0);
    hide Legal, Exec;
    OneStep(s3, run[3..], Collided(w, r0, r1));
    OneStep(s2, run[2..], s3);
    OneStep(s1, run[1..], s2);
    OneStep(Init(), run, s1);
  }

  lemma OneStep<R, W>(s: State<R, W>, run: seq<Step<R, W>>, s': State<R, W>)
    requires run != [] && Enabled(s, run[0]) && Apply(s, run[0]) == s' && Legal(s', run[1..])
    ensures Legal(s, run) && Exec(s, run) == Exec(s', run[1..])
  {}

  // ---------------------------------------------------------------- where fresh ids come from

  /** No id above the counter is in use, and the counter has not wrapped. */
  ghost predicate IdsBelow<R, W>(s: State<R, W>) {
    0 <= s.nextId && forall id | id in s.table :: id <= s.nextId
  }

  /** The step adopts an id that the counter has not reached yet. */
  predicate AdoptsAbove<R, W>(s: State<R, W>, step: Step<R, W>) {
    step.Resume? && step.id !in s.table && step.id > s.nextId
  }

  /** Exactly two things put an id above the counter: adopting one, and the counter's own wrap-around. */
  lemma StepKeepsIdsBelow<R, W>(s: State<R, W>, step: Step<R, W>)
    requires WellFormed(s) && IdsBelow(s) && Enabled(s, step)
    ensures IdsBelow(Apply(s, step)) <==> !AdoptsAbove(s, step) && !(step.Create? && s.nextId == MAX_INT32)
  {
    if AdoptsAbove(s, step) {
      assert step.id in Apply(s, step).table;
    }
    match step
    case Resume(_, w, id, index, syncTime, _) =>
      match Classify(s, w, id, index, syncTime) {
        case Mismatch =>
        case Keep =>
        case Revive =>
        case Adopt =>
      }
    case _ =>
  }

  /** No id is adopted before the counter has reached it. */
  predicate AdoptsOnlyBelow<R, W>(s: State<R, W>, run: seq<Step<R, W>>)
    requires Inv(s) && Legal(s, run)
    decreases |run|
  {
    run == [] ||
    (StepKeepsInv(s, run[0]);
     !AdoptsAbove(s, run[0]) && AdoptsOnlyBelow(Apply(s, run[0]), run[1..]))
  }

  function Creations<R, W>(run: seq<Step<R, W>>): nat {
    if run == [] then 0 else (if run[0].Create? then 1 else 0) + Creations(run[1..])
  }

  /** As long as workers only bring back ids that were handed out before, and fewer than 2^31 sessions are
      created, ids are fresh. */
  lemma {:induction false} CountedIdsAreFresh<R, W>(s: State<R, W>, run: seq<Step<R, W>>)
    requires Inv(s) && Legal(s, run) && IdsBelow(s)
    requires AdoptsOnlyBelow(s, run) && s.nextId + Creations(run) <= MAX_INT32
    ensures CollisionFree(s, run)
    decreases |run|
  {
    if run != [] {
      var s' := Apply(s, run[0]);
      StepKeepsInv(s, run[0]);
      StepKeepsIdsBelow(s, run[0]);
      CountedIdsAreFresh(s', run[1..]);
    }
  }

  // ---------------------------------------------------------------- capacity

  ghost predicate WithinCapacity<R, W>(s: State<R, W>) {
    forall w | w in s.current && w in s.capacity :: s.current[w] <= s.capacity[w]
  }

  /** The steps that may overload a worker: adopting or reviving on a full worker, and lowering capacity below the
      load. */
  predicate Overloads<R, W>(s: State<R, W>, step: Step<R, W>)
    requires Enabled(s, step)
  {
    match step
    case Resume(_, w, id, index, syncTime, _) =>
      w in s.capacity && s.current[w] == s.capacity[w] &&
      (Classify(s, w, id, index, syncTime).Revive? || Classify(s, w, id, index, syncTime).Adopt?)
    case SetCapacity(w, cap) => cap < s.current[w]
    case _ => false
  }

  /** Dispatching never overloads a worker: from a state within capacity, exactly the overloading steps leave it. */
  lemma OnlyOverloadsExceed<R, W>(s: State<R, W>, step: Step<R, W>)
    requires Inv(s) && Enabled(s, step) && WithinCapacity(s)
    ensures WithinCapacity(Apply(s, step)) <==> !Overloads(s, step)
  {
    match step
    case Register(w, _) =>
    case SetCapacity(w, cap) =>
      assert Overloads(s, step) ==> Apply(s, step).current[w] > Apply(s, step).capacity[w];
    case Reserve(_) =>
    case Resume(_, w, id, index, syncTime, _) =>
      assert Overloads(s, step) ==> Apply(s, step).current[w] > Apply(s, step).capacity[w];
    case _ =>
  }

  predicate NeverOverloads<R, W>(s: State<R, W>, run: seq<Step<R, W>>)
    requires Legal(s, run)
    decreases |run|
  {
    run == [] || (!Overloads(s, run[0]) && NeverOverloads(Apply(s, run[0]), run[1..]))
  }

  ghost predicate WithinCapacityThroughout<R, W>(s: State<R, W>, run: seq<Step<R, W>>)
    requires Legal(s, run)
    decreases |run|
  {
    WithinCapacity(s) && (run == [] || WithinCapacityThroughout(Apply(s, run[0]), run[1..]))
  }

  /** Dispatching alone never overloads: every state of a run is within capacity if and only if no step of the run
      lowers a capacity below the load or adds load to a full worker by resuming. */
  lemma {:induction false} DispatchRespectsCapacity<R, W>(s: State<R, W>, run: seq<Step<R, W>>)
    requires Inv(s) && Legal(s, run) && WithinCapacity(s)
    ensures WithinCapacityThroughout(s, run) <==> NeverOverloads(s, run)
    decreases |run|
  {
    if run != [] {
      var s' := Apply(s, run[0]);
      StepKeepsInv(s, run[0]);
      OnlyOverloadsExceed(s, run[0]);
      if WithinCapacity(s') {
        DispatchRespectsCapacity(s', run[1..]);
      } else {
        assert !WithinCapacityThroughout(s', run[1..]);
      }
    }
  }
}
