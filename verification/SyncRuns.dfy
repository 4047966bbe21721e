/** `Sync` interleaved with the rest of the controller.

    A sync holds the lock of its worker, and nothing else between its critical sections: gathering the worker's
    sessions, looking at the time stamp of one of them, finishing one, and resuming one.  Any step of the controller
    that does not need that worker's lock may come in between. */
module SyncRuns {
  import opened Options
  import opened SessionProtocol
  import opened SessionSync

  /** The worker, what it reported, and when it was asked. */
  datatype Call<W> = Call(worker: W, report: Report, time: int)

  datatype Progress<R, W> = Progress(
    s: State<R, W>,
    gathered: map<Id, R>,      // the sessions of the first loop
    unchecked: set<Id>,        // those it has not come to
    chosen: Option<R>,         // found old and unreported, about to be finished
    resumed: set<Id>)          // the reported ids that the second loop is through with

  datatype Event<R, W> =
    | Other(step: Step<R, W>)
    | Check(id: Id)                               // reads `LastUpdate`, without the session's lock
    | FinishChosen(now: int)                      // `FinishSession`, which does not look at `LastUpdate` again
    | ResumeReported(r: R, id: Id, now: int)      // `ResumeSession`

  /** The progress right after `GatherSessions`. */
  ghost function Start<R, W>(c: Call<W>, s: State<R, W>): Progress<R, W> {
    Progress(s, map id | id in BoundTo(s, c.worker) :: s.table[id], BoundTo(s, c.worker), None, {})
  }

  /** The step does not need the lock of `w`. */
  predicate Foreign<R, W(==)>(s: State<R, W>, w: W, step: Step<R, W>)
    requires Enabled(s, step)
  {
    match step
    case SetCapacity(v, _) => v != w
    case Reserve(v) => v != w
    case Finish(r, _, _) => s.objects[r].worker != w
    case Resume(_, v, _, _, _, _) => v != w
    case _ => true
  }

  /** The step happens after `time`. */
  predicate After<R, W>(step: Step<R, W>, time: int) {
    match step
    case Create(_, _, _, now) => now > time
    case Finish(_, _, now) => now > time
    case Resume(_, _, _, _, _, now) => now > time
    case BeginInteract(_, now) => now > time
    case EndInteract(_, now) => now > time
    case _ => true
  }

  predicate Possible<R, W(==)>(c: Call<W>, p: Progress<R, W>, e: Event<R, W>) {
    match e
    case Other(step) => Enabled(p.s, step) && Foreign(p.s, c.worker, step) && After(step, c.time)
    case Check(id) => p.chosen.None? && id in p.unchecked && id in p.gathered && p.gathered[id] in p.s.objects
    case FinishChosen(now) => p.chosen.Some? && Enabled(p.s, Finish(p.chosen.value, false, now)) && now > c.time
    case ResumeReported(r, id, now) =>
      && p.unchecked == {} && p.chosen.None? && id in c.report && id !in p.resumed && now > c.time
      && Enabled(p.s, Resume(r, c.worker, id, c.report[id], c.time, now))
  }

  function Move<R, W(==)>(c: Call<W>, p: Progress<R, W>, e: Event<R, W>): Progress<R, W>
    requires Possible(c, p, e)
  {
    match e
    case Other(step) => p.(s := Apply(p.s, step))
    case Check(id) =>
      var r := p.gathered[id];
      p.(unchecked := p.unchecked - {id},
         chosen := if id !in c.report && p.s.objects[r].lastUpdate < c.time then Some(r) else None)
    case FinishChosen(now) => p.(s := FinishIn(p.s, p.chosen.value, false, now), chosen := None)
    case ResumeReported(r, id, now) =>
      p.(s := ResumeIn(p.s, r, c.worker, id, c.report[id], c.time, now), resumed := p.resumed + {id})
  }

  predicate Complete<R, W>(c: Call<W>, p: Progress<R, W>) {
    p.unchecked == {} && p.chosen.None? && p.resumed == c.report.Keys
  }

  // ---------------------------------------------------------------- runs

  ghost predicate LegalRun<R, W>(c: Call<W>, p: Progress<R, W>, run: seq<Event<R, W>>)
    decreases |run|, 0
  {
    run == [] ||
    (&& LegalRun(c, p, run[..|run| - 1])
     && Possible(c, Reached(c, p, run[..|run| - 1]), run[|run| - 1]))
  }

  ghost function Reached<R, W>(c: Call<W>, p: Progress<R, W>, run: seq<Event<R, W>>): Progress<R, W>
    requires LegalRun(c, p, run)
    decreases |run|, 1
  {
    if run == [] then p else Move(c, Reached(c, p, run[..|run| - 1]), run[|run| - 1])
  }

  /** The step writes the time stamp of `r`: an interaction begins, or ends. */
  predicate Touches<R(==), W>(s: State<R, W>, step: Step<R, W>, r: R) {
    match step
    case BeginInteract(q, _) => q == r && r in s.objects && !Busy(s.objects[r])
    case EndInteract(q, _) => q == r && r in s.objects
    case _ => false
  }

  ghost predicate TouchedBy<R, W>(p: Progress<R, W>, e: Event<R, W>, r: R) {
    e.Other? && Touches(p.s, e.step, r)
  }

  /** The sessions that an interaction touched during the run. */
  ghost function Touched<R, W>(c: Call<W>, p: Progress<R, W>, run: seq<Event<R, W>>): set<R>
    requires LegalRun(c, p, run)
    decreases |run|
  {
    if run == [] then {}
    else
      var before := Reached(c, p, run[..|run| - 1]);
      Touched(c, p, run[..|run| - 1]) + set r | r in before.s.objects && TouchedBy(before, run[|run| - 1], r)
  }

  // ---------------------------------------------------------------- what other steps do to the worker's sessions

  /** The same session, as far as its fixed fields go. */
  predicate SameIdentity<W(==)>(o: Session<W>, o': Session<W>) {
    o'.id == o.id && o'.worker == o.worker && o'.index == o.index
  }

  ghost predicate Keeps<R, W>(s: State<R, W>, s': State<R, W>) {
    && (forall r | r in s.objects :: r in s'.objects && SameIdentity(s.objects[r], s'.objects[r]))
    && (forall id | id in s'.table :: (id in s.table && s'.table[id] == s.table[id]) || s'.table[id] !in s.objects)
    && s.current.Keys <= s'.current.Keys
  }

  ghost predicate LeavesWorker<R, W>(s: State<R, W>, s': State<R, W>, w: W, step: Step<R, W>, time: int) {
    && (forall r | r in s.objects && s.objects[r].worker == w ::
          && r in s'.objects
          && s'.objects[r].finished == s.objects[r].finished
          && (if Touches(s, step, r) then s'.objects[r].lastUpdate > time else s'.objects[r] == s.objects[r]))
    && (forall r | r in s'.objects && r !in s.objects :: !s'.objects[r].finished && s'.objects[r].lastUpdate > time)
  }

  lemma ResumeKeepsObjects<R, W>(s: State<R, W>, q: R, w: W, id: Id, index: int, time: int, now: int)
    requires WellFormed(s) && Enabled(s, Resume(q, w, id, index, time, now))
    ensures Keeps(s, ResumeIn(s, q, w, id, index, time, now))
  {
    match Classify(s, w, id, index, time)
    case Mismatch =>
    case Keep =>
    case Revive =>
    case Adopt =>
  }

  lemma StepKeeps<R, W>(s: State<R, W>, step: Step<R, W>)
    requires WellFormed(s) && Enabled(s, step)
    ensures Keeps(s, Apply(s, step))
  {
    hide ResumeIn, Classify;
    if step.Resume? { ResumeKeepsObjects(s, step.r, step.w, step.id, step.index, step.syncTime, step.now); }
  }

  lemma ForeignLeavesWorker<R, W>(s: State<R, W>, step: Step<R, W>, w: W, time: int)
    requires WellFormed(s) && Enabled(s, step) && Foreign(s, w, step) && After(step, time)
    ensures LeavesWorker(s, Apply(s, step), w, step, time)
  {
    match step
    case Resume(_, v, id, index, t, _) =>
      match Classify(s, v, id, index, t) {
        case Mismatch =>
        case Keep =>
        case Revive =>
        case Adopt =>
      }
    case _ =>
  }

  // ---------------------------------------------------------------- what a sync keeps

  /** `o` is what the sync makes of `o0`, at some time after the report. */
  predicate Outcome<W(==)>(c: Call<W>, o0: Session<W>, o: Session<W>) {
    o == SyncObject(o0, c.worker, c.report, c.time, o.lastUpdate) && (o == o0 || o.lastUpdate > c.time)
  }

  /** The session that goes by the id is not one that the report speaks of, or it is unfinished, or it was finished
      or touched after the report. */
  predicate Settles<W(==)>(c: Call<W>, id: Id, o: Session<W>)
    requires id in c.report
  {
    o.worker != c.worker || o.index != c.report[id] || !o.finished || o.lastUpdate > c.time
  }

  ghost predicate Handled<R, W>(c: Call<W>, p: Progress<R, W>, id: Id) {
    if id in c.report then id in p.resumed else id !in p.unchecked && !IsChosen(p, id)
  }

  ghost predicate IsChosen<R, W>(p: Progress<R, W>, id: Id) {
    p.chosen.Some? && id in p.gathered && p.gathered[id] == p.chosen.value
  }

  /** Objects stay, and the table never gets an old object back. */
  ghost predicate OldStays<R, W>(s0: State<R, W>, s: State<R, W>) {
    && (forall r | r in s0.objects :: r in s.objects && SameIdentity(s0.objects[r], s.objects[r]))
    && (forall id | id in s.table && s.table[id] in s0.objects :: id in s0.table && s0.table[id] == s.table[id])
    && s0.current.Keys <= s.current.Keys
  }

  ghost predicate CursorOk<R, W>(c: Call<W>, s0: State<R, W>, p: Progress<R, W>) {
    && p.gathered.Keys == BoundTo(s0, c.worker) && (forall id | id in p.gathered :: p.gathered[id] == s0.table[id])
    && p.unchecked <= p.gathered.Keys && p.resumed <= c.report.Keys
    && (p.resumed != {} ==> p.unchecked == {} && p.chosen.None?)
    && (p.chosen.Some? ==>
          && p.chosen.value in p.s.objects && p.s.objects[p.chosen.value].worker == c.worker
          && p.s.objects[p.chosen.value].id !in c.report && IsChosen(p, p.s.objects[p.chosen.value].id)
          && p.s.objects[p.chosen.value].id !in p.unchecked)
  }

  /** An untouched session of the worker is as it was, or what the sync makes of it once it has been handled. */
  ghost predicate OutcomesOk<R, W>(c: Call<W>, s0: State<R, W>, p: Progress<R, W>, touched: set<R>) {
    forall r | r in s0.objects && s0.objects[r].worker == c.worker && r !in touched && InTable(p.s, r) ::
      if Handled(c, p, s0.objects[r].id) then Outcome(c, s0.objects[r], p.s.objects[r])
      else p.s.objects[r] == s0.objects[r]
  }

  /** Sessions of the worker that are new or touched carry a time after the report; new ones are unfinished. */
  ghost predicate StampsOk<R, W>(c: Call<W>, s0: State<R, W>, p: Progress<R, W>, touched: set<R>) {
    && (forall r | r in p.s.objects && p.s.objects[r].worker == c.worker && r !in s0.objects ::
          !p.s.objects[r].finished && p.s.objects[r].lastUpdate > c.time)
    && (forall r | r in touched && r in p.s.objects && p.s.objects[r].worker == c.worker ::
          p.s.objects[r].lastUpdate > c.time)
    && (p.chosen.Some? && p.chosen.value in p.s.objects && p.chosen.value !in touched ==>
          p.s.objects[p.chosen.value].lastUpdate < c.time)
  }

  ghost predicate ResumedOk<R, W>(c: Call<W>, p: Progress<R, W>) {
    forall id | id in p.resumed && id in p.s.table && id in c.report :: p.s.table[id] in p.s.objects &&
      Settles(c, id, p.s.objects[p.s.table[id]])
  }

  ghost predicate SyncInv<R, W>(c: Call<W>, s0: State<R, W>, p: Progress<R, W>, touched: set<R>) {
    && Inv(p.s) && OldStays(s0, p.s) && CursorOk(c, s0, p)
    && OutcomesOk(c, s0, p, touched) && StampsOk(c, s0, p, touched) && ResumedOk(c, p)
  }

  // ---------------------------------------------------------------- one event

  lemma OldStaysOn<R, W>(s0: State<R, W>, s: State<R, W>, s': State<R, W>)
    requires OldStays(s0, s) && Keeps(s, s')
    ensures OldStays(s0, s')
  {}

  lemma OtherKeeps<R, W>(c: Call<W>, s0: State<R, W>, p: Progress<R, W>, touched: set<R>, step: Step<R, W>,
                         touched': set<R>)
    requires SyncInv(c, s0, p, touched) && Possible(c, p, Other(step))
    requires touched' == touched + set r | r in p.s.objects && Touches(p.s, step, r)
    ensures SyncInv(c, s0, Move(c, p, Other(step)), touched')
  {
    var p' := Move(c, p, Other(step));
    assert WellFormed(p.s) && Enabled(p.s, step) && Foreign(p.s, c.worker, step) && After(step, c.time);
    assert p' == p.(s := Apply(p.s, step));
    hide Possible, Move, Apply, Enabled, Foreign, After, Touches, WellFormed, Conserved, SyncObject, Keeps,
         LeavesWorker, OldStays, CursorOk, OutcomesOk, StampsOk, ResumedOk;
    StepKeeps(p.s, step);
    StepKeepsInv(p.s, step);
    ForeignLeavesWorker(p.s, step, c.worker, c.time);
    OldStaysOn(s0, p.s, p'.s);
    StampsStay(c, s0, p, p', touched, touched', step);
    OutcomesStay(c, s0, p, p', touched, touched', step);
    CursorStays(c, s0, p, p');
    ResumedStay(c, p, p', step);
  }

  lemma CursorStays<R, W>(c: Call<W>, s0: State<R, W>, p: Progress<R, W>, p': Progress<R, W>)
    requires CursorOk(c, s0, p) && SameCursor(p, p') && Keeps(p.s, p'.s)
    ensures CursorOk(c, s0, p')
  {}

  lemma ResumedStay<R, W>(c: Call<W>, p: Progress<R, W>, p': Progress<R, W>, step: Step<R, W>)
    requires ResumedOk(c, p) && SameCursor(p, p') && WellFormed(p'.s)
    requires Keeps(p.s, p'.s) && LeavesWorker(p.s, p'.s, c.worker, step, c.time)
    ensures ResumedOk(c, p')
  {
    hide Touches;
    forall id | id in p'.resumed && id in p'.s.table && id in c.report
      ensures p'.s.table[id] in p'.s.objects && Settles(c, id, p'.s.objects[p'.s.table[id]])
    {
      var r := p'.s.table[id];
      if r in p.s.objects {
        assert p.s.table[id] == r && Settles(c, id, p.s.objects[r]);
      }
    }
  }

  ghost predicate SameCursor<R, W>(p: Progress<R, W>, p': Progress<R, W>) {
    p'.gathered == p.gathered && p'.unchecked == p.unchecked && p'.chosen == p.chosen && p'.resumed == p.resumed
  }

  lemma StampsStay<R, W>(c: Call<W>, s0: State<R, W>, p: Progress<R, W>, p': Progress<R, W>, touched: set<R>,
                         touched': set<R>, step: Step<R, W>)
    requires StampsOk(c, s0, p, touched) && CursorOk(c, s0, p) && SameCursor(p, p')
    requires Keeps(p.s, p'.s) && LeavesWorker(p.s, p'.s, c.worker, step, c.time)
    requires touched' == touched + set r | r in p.s.objects && Touches(p.s, step, r)
    ensures StampsOk(c, s0, p', touched')
  {
    hide Touches;
  }

  lemma OutcomesStay<R, W>(c: Call<W>, s0: State<R, W>, p: Progress<R, W>, p': Progress<R, W>, touched: set<R>,
                           touched': set<R>, step: Step<R, W>)
    requires OutcomesOk(c, s0, p, touched) && OldStays(s0, p.s) && SameCursor(p, p')
    requires Keeps(p.s, p'.s) && LeavesWorker(p.s, p'.s, c.worker, step, c.time)
    requires touched' == touched + set r | r in p.s.objects && Touches(p.s, step, r)
    ensures OutcomesOk(c, s0, p', touched')
  {
    hide Touches, SyncObject, Outcome;
    forall r | r in s0.objects && s0.objects[r].worker == c.worker && r !in touched' && InTable(p'.s, r)
      ensures InTable(p.s, r) && p'.s.objects[r] == p.s.objects[r]
      ensures Handled(c, p', s0.objects[r].id) <==> Handled(c, p, s0.objects[r].id)
    {}
  }

  lemma CheckKeeps<R, W>(c: Call<W>, s0: State<R, W>, p: Progress<R, W>, touched: set<R>, id: Id)
    requires SyncInv(c, s0, p, touched) && Possible(c, p, Check(id)) && WellFormed(s0)
    ensures SyncInv(c, s0, Move(c, p, Check(id)), touched)
  {
    var p' := Move(c, p, Check(id));
    var r := p.gathered[id];
    assert r == s0.table[id] && s0.objects[r].id == id && SameIdentity(s0.objects[r], p.s.objects[r]);
    hide OutcomesOk, ResumedOk, WellFormed;
    assert CursorOk(c, s0, p');
    assert StampsOk(c, s0, p', touched);
    assert ResumedOk(c, p) ==> ResumedOk(c, p') by { SameResumed(c, p, p'); }
  }

  lemma SameResumed<R, W>(c: Call<W>, p: Progress<R, W>, p': Progress<R, W>)
    requires p'.s == p.s && p'.resumed == p.resumed
    ensures ResumedOk(c, p) <==> ResumedOk(c, p')
  {}

  lemma FinishKeeps<R, W>(c: Call<W>, s0: State<R, W>, p: Progress<R, W>, touched: set<R>, now: int)
    requires SyncInv(c, s0, p, touched) && Possible(c, p, FinishChosen(now)) && WellFormed(s0)
    ensures SyncInv(c, s0, Move(c, p, FinishChosen(now)), touched)
  {
    var p' := Move(c, p, FinishChosen(now));
    FinishMoves(c, p, now);
    ChosenIsOld(c, s0, p);
    FinishOutcomes(c, s0, p, p', touched, now);
    hide Move, Inv, OutcomesOk, OldStays, Keeps, Concludes, CursorOk, StampsOk, ResumedOk;
    OldStaysOn(s0, p.s, p'.s);
    FinishStamps(c, s0, p, p', touched, now);
    FinishResumed(c, p, p', now);
  }

  lemma FinishMoves<R, W>(c: Call<W>, p: Progress<R, W>, now: int)
    requires Inv(p.s) && Possible(c, p, FinishChosen(now))
    ensures var p' := Move(c, p, FinishChosen(now));
            Inv(p'.s) && Keeps(p.s, p'.s) && Concludes(p, p', now)
  {
    var step := SessionProtocol.Step.Finish(p.chosen.value, false, now);
    assert Move(c, p, FinishChosen(now)).s == Apply(p.s, step);
    StepKeeps(p.s, step);
    StepKeepsInv(p.s, step);
    hide Keeps, Inv;
  }

  lemma ChosenIsOld<R, W>(c: Call<W>, s0: State<R, W>, p: Progress<R, W>)
    requires WellFormed(s0) && CursorOk(c, s0, p) && p.chosen.Some?
    ensures p.chosen.value in s0.objects && p.resumed == {}
  {}

  /** The chosen object is rewritten and nothing is chosen any more. */
  ghost predicate Concludes<R, W>(p: Progress<R, W>, p': Progress<R, W>, now: int) {
    && p.chosen.Some? && p.chosen.value in p.s.objects
    && p'.s.table == p.s.table
    && p'.s.objects == p.s.objects[p.chosen.value := FinishObject(p.s.objects[p.chosen.value], false, now)]
    && p'.gathered == p.gathered && p'.unchecked == p.unchecked && p'.chosen.None? && p'.resumed == p.resumed
  }

  lemma FinishStamps<R, W>(c: Call<W>, s0: State<R, W>, p: Progress<R, W>, p': Progress<R, W>, touched: set<R>,
                           now: int)
    requires StampsOk(c, s0, p, touched) && CursorOk(c, s0, p) && Concludes(p, p', now) && now > c.time
    requires p.chosen.value in s0.objects
    ensures StampsOk(c, s0, p', touched)
  {}

  lemma FinishResumed<R, W>(c: Call<W>, p: Progress<R, W>, p': Progress<R, W>, now: int)
    requires ResumedOk(c, p) && Concludes(p, p', now) && p.resumed == {}
    ensures ResumedOk(c, p')
  {}

  lemma FinishOutcomes<R, W>(c: Call<W>, s0: State<R, W>, p: Progress<R, W>, p': Progress<R, W>, touched: set<R>,
                             now: int)
    requires SyncInv(c, s0, p, touched) && WellFormed(s0) && now > c.time && Concludes(p, p', now)
    ensures OutcomesOk(c, s0, p', touched)
  {
    forall r | r in s0.objects && s0.objects[r].worker == c.worker && r !in touched && InTable(p'.s, r)
      ensures if Handled(c, p', s0.objects[r].id) then Outcome(c, s0.objects[r], p'.s.objects[r])
              else p'.s.objects[r] == s0.objects[r]
    {
      var o0 := s0.objects[r];
      assert InTable(p.s, r) && s0.table[o0.id] == r && o0.id in p.gathered && p.gathered[o0.id] == r;
    }
  }

  lemma ResumeKeeps<R, W>(c: Call<W>, s0: State<R, W>, p: Progress<R, W>, touched: set<R>, q: R, id: Id, now: int)
    requires SyncInv(c, s0, p, touched) && Possible(c, p, ResumeReported(q, id, now)) && WellFormed(s0)
    ensures SyncInv(c, s0, Move(c, p, ResumeReported(q, id, now)), touched)
  {
    var p' := Move(c, p, ResumeReported(q, id, now));
    var step := SessionProtocol.Step.Resume(q, c.worker, id, c.report[id], c.time, now);
    assert p'.s == Apply(p.s, step) && Enabled(p.s, step) && p.unchecked == {} && now > c.time;
    hide Apply, Enabled, Move, Possible, OutcomesOk, StampsOk, ResumedOk, CursorOk, OldStays, Keeps, ResumesOne;
    StepKeeps(p.s, step);
    StepKeepsInv(p.s, step);
    OldStaysOn(s0, p.s, p'.s);
    ResumeMoves(c, p, q, id, now);
    ResumeOutcomes(c, s0, p, p', touched, q, id, now);
    ResumeStamps(c, s0, p, p', touched, q, id, now);
    ResumeCursor(c, s0, p, p', q, id, now);
    ResumeSettles(c, p, p', q, id, now);
  }

  lemma ResumeCursor<R, W>(c: Call<W>, s0: State<R, W>, p: Progress<R, W>, p': Progress<R, W>, q: R, id: Id, now: int)
    requires CursorOk(c, s0, p) && ResumesOne(c, p, p', q, id, now) && p.unchecked == {}
    ensures CursorOk(c, s0, p')
  {
    hide SyncObject;
  }

  lemma ResumeSettles<R, W>(c: Call<W>, p: Progress<R, W>, p': Progress<R, W>, q: R, id: Id, now: int)
    requires ResumedOk(c, p) && ResumesOne(c, p, p', q, id, now) && WellFormed(p.s) && now > c.time
    ensures ResumedOk(c, p')
  {
    if id in p.s.table {
      assert Settles(c, id, p'.s.objects[p.s.table[id]]);
    }
    hide SyncObject, Settles;
    forall i | i in p'.resumed && i in p'.s.table && i in c.report
      ensures p'.s.table[i] in p'.s.objects && Settles(c, i, p'.s.objects[p'.s.table[i]])
    {
      if i != id {
        assert i in p.resumed && p.s.table[i] in p.s.objects && p.s.objects[p.s.table[i]].id == i;
      }
    }
  }

  /** The second loop's turn for `id`: one known session becomes what the sync makes of it, or a new one comes. */
  ghost predicate ResumesOne<R, W>(c: Call<W>, p: Progress<R, W>, p': Progress<R, W>, q: R, id: Id, now: int) {
    && id in c.report && id !in p.resumed && p.chosen.None?
    && p'.gathered == p.gathered && p'.unchecked == p.unchecked && p'.chosen == p.chosen
    && p'.resumed == p.resumed + {id}
    && (id in p.s.table ==>
          && p.s.table[id] in p.s.objects && p.s.objects[p.s.table[id]].id == id
          && p'.s.table == p.s.table && p'.s.objects.Keys == p.s.objects.Keys
          && p'.s.objects[p.s.table[id]] == SyncObject(p.s.objects[p.s.table[id]], c.worker, c.report, c.time, now)
          && (forall r | r in p.s.objects && r != p.s.table[id] :: p'.s.objects[r] == p.s.objects[r]))
    && (id !in p.s.table ==>
          && q !in p.s.objects
          && p'.s.table == p.s.table[id := q]
          && p'.s.objects == p.s.objects[q := NewSession(id, c.worker, c.report[id], now)])
  }

  lemma ResumeMoves<R, W>(c: Call<W>, p: Progress<R, W>, q: R, id: Id, now: int)
    requires WellFormed(p.s) && Possible(c, p, ResumeReported(q, id, now))
    ensures ResumesOne(c, p, Move(c, p, ResumeReported(q, id, now)), q, id, now)
  {
    if id in p.s.table {
      ResumedObject(p.s, q, c.worker, id, c.report, c.time, now);
      hide ResumeIn, Classify, SyncObject;
    }
  }

  lemma ResumeOutcomes<R, W>(c: Call<W>, s0: State<R, W>, p: Progress<R, W>, p': Progress<R, W>, touched: set<R>,
                             q: R, id: Id, now: int)
    requires OutcomesOk(c, s0, p, touched) && OldStays(s0, p.s) && ResumesOne(c, p, p', q, id, now)
    requires CursorOk(c, s0, p) && now > c.time
    ensures OutcomesOk(c, s0, p', touched)
  {
    hide SyncObject, Outcome, CursorOk;
    forall r | r in s0.objects && s0.objects[r].worker == c.worker && r !in touched && InTable(p'.s, r)
      ensures if Handled(c, p', s0.objects[r].id) then Outcome(c, s0.objects[r], p'.s.objects[r])
              else p'.s.objects[r] == s0.objects[r]
    {
      assert InTable(p.s, r);
      if s0.objects[r].id == id {
        OutcomeOfResume(c, s0.objects[r], now);
      }
    }
  }

  lemma OutcomeOfResume<W>(c: Call<W>, o: Session<W>, now: int)
    requires o.id in c.report && now > c.time
    ensures Outcome(c, o, SyncObject(o, c.worker, c.report, c.time, now))
  {}

  lemma ResumeStamps<R, W>(c: Call<W>, s0: State<R, W>, p: Progress<R, W>, p': Progress<R, W>, touched: set<R>,
                           q: R, id: Id, now: int)
    requires StampsOk(c, s0, p, touched) && ResumesOne(c, p, p', q, id, now) && now > c.time
    ensures StampsOk(c, s0, p', touched)
  {
    if id in p.s.table {
      var o := p.s.objects[p.s.table[id]];
      var o' := SyncObject(o, c.worker, c.report, c.time, now);
      assert o' == o || (o.finished && !o'.finished && o'.lastUpdate == now && o'.worker == o.worker);
      hide SyncObject;
    }
  }

  // ---------------------------------------------------------------- whole runs

  lemma EventKeeps<R, W>(c: Call<W>, s0: State<R, W>, p: Progress<R, W>, touched: set<R>, e: Event<R, W>)
    requires Inv(s0) && SyncInv(c, s0, p, touched) && Possible(c, p, e)
    ensures SyncInv(c, s0, Move(c, p, e), touched + set r | r in p.s.objects && TouchedBy(p, e, r))
  {
    var touched' := touched + set r | r in p.s.objects && TouchedBy(p, e, r);
    match e
    case Other(step) =>
      assert touched' == touched + set r | r in p.s.objects && Touches(p.s, step, r);
      OtherKeeps(c, s0, p, touched, step, touched');
    case Check(id) =>
      assert touched' == touched;
      CheckKeeps(c, s0, p, touched, id);
    case FinishChosen(now) =>
      assert touched' == touched;
      FinishKeeps(c, s0, p, touched, now);
    case ResumeReported(r, id, now) =>
      assert touched' == touched;
      ResumeKeeps(c, s0, p, touched, r, id, now);
  }

  /** In every interleaving the load stays exact, and the sync does to an untouched session what it should. */
  lemma {:induction false} RunKeepsSyncInv<R, W>(c: Call<W>, s0: State<R, W>, run: seq<Event<R, W>>)
    requires Inv(s0) && LegalRun(c, Start(c, s0), run)
    ensures SyncInv(c, s0, Reached(c, Start(c, s0), run), Touched(c, Start(c, s0), run))
    decreases |run|
  {
    if run == [] {
    } else {
      hide SyncInv, Start, Possible, Move;
      var front := run[..|run| - 1];
      RunKeepsSyncInv(c, s0, front);
      EventKeeps(c, s0, Reached(c, Start(c, s0), front), Touched(c, Start(c, s0), front), run[|run| - 1]);
    }
  }

  /** However the rest of the controller interleaves with a sync, in the end every session of the worker in the table
      that was there before, last touched before the report, is unfinished if and only if it was reported; sessions
      created meanwhile are unfinished; and no other session of the worker has an old time stamp. */
  lemma SyncReconcilesInRuns<R, W>(c: Call<W>, s0: State<R, W>, run: seq<Event<R, W>>, id: Id)
    requires Inv(s0) && LegalRun(c, Start(c, s0), run) && Complete(c, Reached(c, Start(c, s0), run))
    requires var s := Reached(c, Start(c, s0), run).s;
             id in s.table && s.table[id] in s.objects && s.objects[s.table[id]].worker == c.worker
    ensures var s := Reached(c, Start(c, s0), run).s;
            var r := s.table[id];
            var o := s.objects[r];
            var untouched := r in s0.objects && r !in Touched(c, Start(c, s0), run);
            && (untouched && s0.objects[r].lastUpdate < c.time && (id in c.report ==> o.index == c.report[id]) ==>
                  (!o.finished <==> id in c.report))
            && (untouched ==> Outcome(c, s0.objects[r], o))
            && (!untouched ==> o.lastUpdate > c.time)
            && (r !in s0.objects ==> !o.finished)
  {
    RunKeepsSyncInv(c, s0, run);
    var p := Reached(c, Start(c, s0), run);
    var r := p.s.table[id];
    assert InTable(p.s, r) && p.s.objects[r].id == id;
    if r in s0.objects {
      assert s0.objects[r].id == id && s0.objects[r].worker == c.worker;
      assert Handled(c, p, id);
    }
  }

  lemma UntouchedOutcome<R, W>(c: Call<W>, s0: State<R, W>, run: seq<Event<R, W>>, r: R)
    requires Inv(s0) && r in s0.objects && s0.objects[r].worker == c.worker
    requires LegalRun(c, Start(c, s0), run) && Complete(c, Reached(c, Start(c, s0), run))
    requires InTable(Reached(c, Start(c, s0), run).s, r) && r !in Touched(c, Start(c, s0), run)
    ensures Outcome(c, s0.objects[r], Reached(c, Start(c, s0), run).s.objects[r])
  {
    RunKeepsSyncInv(c, s0, run);
    assert Handled(c, Reached(c, Start(c, s0), run), s0.objects[r].id);
  }

  lemma OutcomesAgree<W>(c: Call<W>, o0: Session<W>, o1: Session<W>, o2: Session<W>)
    requires Outcome(c, o0, o1) && Outcome(c, o0, o2)
    ensures o1.(lastUpdate := 0) == o2.(lastUpdate := 0)
  {}

  /** Two syncs of one report from one state, whatever the order of their loops and whatever comes in between, agree on
      every session that nobody else touched, up to the time they note on it. */
  lemma OutcomeFixed<R, W>(c: Call<W>, s0: State<R, W>, run1: seq<Event<R, W>>, run2: seq<Event<R, W>>, r: R)
    requires Inv(s0) && r in s0.objects && s0.objects[r].worker == c.worker
    requires LegalRun(c, Start(c, s0), run1) && Complete(c, Reached(c, Start(c, s0), run1))
    requires LegalRun(c, Start(c, s0), run2) && Complete(c, Reached(c, Start(c, s0), run2))
    requires InTable(Reached(c, Start(c, s0), run1).s, r) && r !in Touched(c, Start(c, s0), run1)
    requires InTable(Reached(c, Start(c, s0), run2).s, r) && r !in Touched(c, Start(c, s0), run2)
    ensures Reached(c, Start(c, s0), run1).s.objects[r].(lastUpdate := 0) ==
            Reached(c, Start(c, s0), run2).s.objects[r].(lastUpdate := 0)
  {
    hide LegalRun, Reached, Start, Complete, Touched, Outcome, Inv;
    UntouchedOutcome(c, s0, run1, r);
    UntouchedOutcome(c, s0, run2, r);
    OutcomesAgree(c, s0.objects[r], Reached(c, Start(c, s0), run1).s.objects[r],
                  Reached(c, Start(c, s0), run2).s.objects[r]);
  }

  // ---------------------------------------------------------------- reported ids

  /** Reported ids that a clean-up deleted after the sync was through with them. */
  ghost function Cleaned<R, W>(c: Call<W>, p: Progress<R, W>, run: seq<Event<R, W>>): set<Id>
    requires LegalRun(c, p, run)
    decreases |run|
  {
    if run == [] then {}
    else
      var before, e := Reached(c, p, run[..|run| - 1]), run[|run| - 1];
      Cleaned(c, p, run[..|run| - 1]) +
      if e.Other? && e.step.Clean? then before.resumed * before.s.table.Keys - Move(c, before, e).s.table.Keys else {}
  }

  /** Only a clean-up takes ids out of the table. */
  lemma OnlyCleanRemoves<R, W>(s: State<R, W>, step: Step<R, W>, id: Id)
    requires WellFormed(s) && Enabled(s, step) && id in s.table
    ensures id !in Apply(s, step).table ==> step.Clean? && Removable(s.objects[s.table[id]], step.removeLine)
  {
    match step
    case Resume(_, w, i, index, time, _) =>
      match Classify(s, w, i, index, time) {
        case Mismatch =>
        case Keep =>
        case Revive =>
        case Adopt =>
      }
    case _ =>
  }

  lemma {:induction false} ResumedAreThere<R, W>(c: Call<W>, s0: State<R, W>, run: seq<Event<R, W>>, id: Id)
    requires Inv(s0) && LegalRun(c, Start(c, s0), run) && id in Reached(c, Start(c, s0), run).resumed
    ensures id in Reached(c, Start(c, s0), run).s.table || id in Cleaned(c, Start(c, s0), run)
    decreases |run|
  {
    if run != [] {
      var front, e := run[..|run| - 1], run[|run| - 1];
      var p := Reached(c, Start(c, s0), front);
      RunKeepsSyncInv(c, s0, front);
      if id in p.resumed { ResumedAreThere(c, s0, front, id); }
      if id in p.s.table && id !in Move(c, p, e).s.table && e.Other? {
        OnlyCleanRemoves(p.s, e.step, id);
      }
      if e.ResumeReported? {
        match Classify(p.s, c.worker, e.id, c.report[e.id], c.time) {
          case Mismatch =>
          case Keep =>
          case Revive =>
          case Adopt =>
        }
      }
    }
  }

  /** After the sync every reported id exists and is unfinished, unless it belongs to somebody else, was finished or
      touched after the report, or was deleted again by a clean-up. */
  lemma ReportedExist<R, W>(c: Call<W>, s0: State<R, W>, run: seq<Event<R, W>>, id: Id)
    requires Inv(s0) && LegalRun(c, Start(c, s0), run) && Complete(c, Reached(c, Start(c, s0), run)) && id in c.report
    ensures var s := Reached(c, Start(c, s0), run).s;
            || id in Cleaned(c, Start(c, s0), run)
            || (id in s.table && s.table[id] in s.objects && Settles(c, id, s.objects[s.table[id]]))
  {
    RunKeepsSyncInv(c, s0, run);
    ResumedAreThere(c, s0, run, id);
  }

  /** A clean-up that deletes a reported id finds it finished, and either not the session that was reported or finished
      after the report, that is, between the report and the removal line. */
  lemma OnlyLateAreCleaned<R, W>(c: Call<W>, s0: State<R, W>, run: seq<Event<R, W>>, line: int, id: Id)
    requires Inv(s0) && LegalRun(c, Start(c, s0), run)
    requires var p := Reached(c, Start(c, s0), run);
             && Possible(c, p, Other(Clean(line)))
             && id in p.resumed && id in p.s.table && id !in Move(c, p, Other(Clean(line))).s.table
    ensures var s := Reached(c, Start(c, s0), run).s;
            && s.table[id] in s.objects && id in c.report
            && var o := s.objects[s.table[id]];
               o.finished && (o.worker != c.worker || o.index != c.report[id] || c.time < o.lastUpdate < line)
  {
    RunKeepsSyncInv(c, s0, run);
    OnlyCleanRemoves(Reached(c, Start(c, s0), run).s, Clean(line), id);
  }

  // ---------------------------------------------------------------- sessions touched after the report

  /** The event finishes a session that was touched after the report. */
  predicate FinishesLate<R, W>(c: Call<W>, p: Progress<R, W>, e: Event<R, W>) {
    && e.FinishChosen? && p.chosen.Some? && p.chosen.value in p.s.objects
    && !p.s.objects[p.chosen.value].finished && p.s.objects[p.chosen.value].lastUpdate > c.time
  }

  /** Since the last look at a time stamp, an interaction has touched `r`. */
  ghost predicate TouchedSinceCheck<R, W>(c: Call<W>, p: Progress<R, W>, run: seq<Event<R, W>>, r: R)
    requires LegalRun(c, p, run)
    decreases |run|
  {
    run != [] && !run[|run| - 1].Check? &&
    (TouchedBy(Reached(c, p, run[..|run| - 1]), run[|run| - 1], r) || TouchedSinceCheck(c, p, run[..|run| - 1], r))
  }

  lemma {:induction false} ChosenTouchedIff<R, W>(c: Call<W>, s0: State<R, W>, run: seq<Event<R, W>>, r: R)
    requires Inv(s0) && LegalRun(c, Start(c, s0), run) && Reached(c, Start(c, s0), run).chosen == Some(r)
    requires r in Reached(c, Start(c, s0), run).s.objects
    ensures Reached(c, Start(c, s0), run).s.objects[r].lastUpdate > c.time
       <==> TouchedSinceCheck(c, Start(c, s0), run, r)
    ensures Reached(c, Start(c, s0), run).s.objects[r].lastUpdate > c.time ||
            Reached(c, Start(c, s0), run).s.objects[r].lastUpdate < c.time
    decreases |run|
  {
    if run != [] {
      var front, e := run[..|run| - 1], run[|run| - 1];
      var p := Reached(c, Start(c, s0), front);
      RunKeepsSyncInv(c, s0, front);
      match e
      case Other(step) =>
        ChosenTouchedIff(c, s0, front, r);
        ForeignLeavesWorker(p.s, step, c.worker, c.time);
      case Check(_) =>
    }
  }

  ghost predicate FinishesTouched<R, W>(c: Call<W>, p: Progress<R, W>, run: seq<Event<R, W>>)
    requires LegalRun(c, p, run)
    decreases |run|
  {
    run != [] && (FinishesTouched(c, p, run[..|run| - 1]) ||
                  FinishesLate(c, Reached(c, p, run[..|run| - 1]), run[|run| - 1]))
  }

  /** Somewhere in the run an interaction gets in between the look at a session and its end. */
  ghost predicate Overtaken<R, W>(c: Call<W>, p: Progress<R, W>, run: seq<Event<R, W>>)
    requires LegalRun(c, p, run)
    decreases |run|
  {
    run != [] &&
    var front, e := run[..|run| - 1], run[|run| - 1];
    var before := Reached(c, p, front);
    || Overtaken(c, p, front)
    || (&& e.FinishChosen? && before.chosen.Some? && before.chosen.value in before.s.objects
        && !before.s.objects[before.chosen.value].finished && TouchedSinceCheck(c, p, front, before.chosen.value))
  }

  /** A sync finishes a session that was touched after the report if and only if an interaction touches an unfinished
      session between the sync's look at its time stamp and the end it puts to it. */
  lemma {:induction false} FinishesTouchedIffOvertaken<R, W>(c: Call<W>, s0: State<R, W>, run: seq<Event<R, W>>)
    requires Inv(s0) && LegalRun(c, Start(c, s0), run)
    ensures FinishesTouched(c, Start(c, s0), run) <==> Overtaken(c, Start(c, s0), run)
    decreases |run|
  {
    if run != [] {
      var front, e := run[..|run| - 1], run[|run| - 1];
      var p := Reached(c, Start(c, s0), front);
      FinishesTouchedIffOvertaken(c, s0, front);
      if e.FinishChosen? && p.chosen.Some? && p.chosen.value in p.s.objects {
        ChosenTouchedIff(c, s0, front, p.chosen.value);
      }
    }
  }

  lemma ResumeSpares<R, W>(c: Call<W>, s: State<R, W>, q: R, id: Id, now: int, r: R)
    requires WellFormed(s) && id in c.report && Enabled(s, Resume(q, c.worker, id, c.report[id], c.time, now))
    requires r in s.objects && s.objects[r].lastUpdate > c.time
    ensures var s' := ResumeIn(s, q, c.worker, id, c.report[id], c.time, now);
            r in s'.objects && s'.objects[r] == s.objects[r]
  {
    match Classify(s, c.worker, id, c.report[id], c.time)
    case Mismatch =>
    case Keep =>
    case Revive =>
    case Adopt =>
  }

  /** Apart from that, nothing the sync does changes a session touched after the report. */
  lemma OwnEventSpares<R, W>(c: Call<W>, s0: State<R, W>, run: seq<Event<R, W>>, e: Event<R, W>, r: R)
    requires Inv(s0) && LegalRun(c, Start(c, s0), run)
    requires var p := Reached(c, Start(c, s0), run);
             Possible(c, p, e) && !e.Other? && r in p.s.objects && p.s.objects[r].lastUpdate > c.time
    ensures var p := Reached(c, Start(c, s0), run);
            var p' := Move(c, p, e);
            r in p'.s.objects && (p'.s.objects[r] != p.s.objects[r] <==> FinishesLate(c, p, e) && p.chosen == Some(r))
  {
    RunKeepsSyncInv(c, s0, run);
    var p := Reached(c, Start(c, s0), run);
    if e.ResumeReported? { ResumeSpares(c, p.s, e.r, e.id, e.now, r); }
    hide LegalRun, Reached, Start, SyncInv, ResumeIn;
  }

  function Overtaking<R, W>(id: Id, r: R, now: int): seq<Event<R, W>> {
    [Check(id), Other(BeginInteract(r, now)), FinishChosen(now)]
  }

  /** It happens from every state with an idle session of the worker that the report does not list: the sync looks at
      it, a client begins to interact, and the sync finishes it. */
  lemma InteractionOvertakesSync<R, W>(c: Call<W>, s0: State<R, W>, id: Id, r: R, now: int)
    requires Inv(s0) && id in s0.table && s0.table[id] == r && s0.objects[r].worker == c.worker && id !in c.report
    requires !s0.objects[r].finished && !Busy(s0.objects[r]) && s0.objects[r].lastUpdate < c.time < now
    ensures var run := Overtaking(id, r, now);
            && LegalRun(c, Start(c, s0), run) && FinishesTouched(c, Start(c, s0), run)
            && r in Reached(c, Start(c, s0), run).s.objects && Reached(c, Start(c, s0), run).s.objects[r].finished
  {
    var p0 := Start(c, s0);
    var run: seq<Event<R, W>> := Overtaking(id, r, now);
    var p1 := Move(c, p0, Check(id));
    var p2 := Move(c, p1, Other(BeginInteract(r, now)));
    var p3 := Move(c, p2, FinishChosen(now));
    hide LegalRun, Reached;
    Snoc(c, p0, [], Check(id));
    assert [] + [Event<R, W>.Check(id)] == run[..1];
    Snoc(c, p0, run[..1], Other(BeginInteract(r, now)));
    assert run[..1] + [Other(BeginInteract(r, now))] == run[..2];
    Snoc(c, p0, run[..2], FinishChosen(now));
    assert run[..2] + [FinishChosen(now)] == run && run[..|run| - 1] == run[..2];
    assert FinishesLate(c, p2, FinishChosen(now));
  }

  lemma Snoc<R, W>(c: Call<W>, p: Progress<R, W>, run: seq<Event<R, W>>, e: Event<R, W>)
    requires LegalRun(c, p, run) && Possible(c, Reached(c, p, run), e)
    ensures LegalRun(c, p, run + [e]) && Reached(c, p, run + [e]) == Move(c, Reached(c, p, run), e)
  {
    assert (run + [e])[..|run|] == run;
  }

  /** Until it is complete a sync can always go on, whatever the others do. */
  lemma SyncNeverStuck<R, W>(c: Call<W>, s0: State<R, W>, run: seq<Event<R, W>>, fresh': R, now: int)
    requires Inv(s0) && c.worker in s0.current && LegalRun(c, Start(c, s0), run) && now > c.time
    requires fresh' !in Reached(c, Start(c, s0), run).s.objects
    ensures var p := Reached(c, Start(c, s0), run);
            Complete(c, p) || exists e :: Possible(c, p, e) && !e.Other?
  {
    RunKeepsSyncInv(c, s0, run);
    NextOwnEvent(c, s0, Reached(c, Start(c, s0), run), Touched(c, Start(c, s0), run), fresh', now);
  }

  lemma Missing<T>(a: set<T>, b: set<T>) returns (x: T)
    requires a < b
    ensures x in b && x !in a
  {
    assert b - a != {} by {
      if b - a == {} { assert forall y | y in b :: y !in b - a; }
    }
    x :| x in b - a;
  }

  lemma NextOwnEvent<R, W>(c: Call<W>, s0: State<R, W>, p: Progress<R, W>, touched: set<R>, fresh': R, now: int)
    requires Inv(s0) && c.worker in s0.current && SyncInv(c, s0, p, touched) && now > c.time && fresh' !in p.s.objects
    ensures Complete(c, p) || exists e :: Possible(c, p, e) && !e.Other?
  {
    assert c.worker in p.s.current;
    if p.chosen.Some? {
      assert Possible(c, p, FinishChosen(now));
    } else if p.unchecked != {} {
      var id :| id in p.unchecked;
      assert p.gathered[id] in p.s.objects by { assert p.gathered[id] == s0.table[id]; }
      assert Possible(c, p, Check(id));
    } else if p.resumed != c.report.Keys {
      var id := Missing(p.resumed, c.report.Keys);
      assert Possible(c, p, ResumeReported(fresh', id, now));
    }
  }

  // ---------------------------------------------------------------- syncing again

  /** Nothing is left for the report to say: old unreported sessions are finished, reported ones need nothing. */
  ghost predicate Settled<R, W>(c: Call<W>, s: State<R, W>) {
    && (forall r | r in s.objects && InTable(s, r) && s.objects[r].worker == c.worker && s.objects[r].id !in c.report ::
          s.objects[r].finished || s.objects[r].lastUpdate >= c.time)
    && (forall id | id in s.table && id in c.report && s.table[id] in s.objects ::
        Settles(c, id, s.objects[s.table[id]]))
  }

  /** A completed sync settles its report. */
  lemma CompleteIsSettled<R, W>(c: Call<W>, s0: State<R, W>, run: seq<Event<R, W>>)
    requires Inv(s0) && LegalRun(c, Start(c, s0), run) && Complete(c, Reached(c, Start(c, s0), run))
    ensures Settled(c, Reached(c, Start(c, s0), run).s)
  {
    RunKeepsSyncInv(c, s0, run);
    var p := Reached(c, Start(c, s0), run);
    forall r | r in p.s.objects && InTable(p.s, r) && p.s.objects[r].worker == c.worker
        && p.s.objects[r].id !in c.report
      ensures p.s.objects[r].finished || p.s.objects[r].lastUpdate >= c.time
    {
      if r in s0.objects {
        assert SameIdentity(s0.objects[r], p.s.objects[r]);
        assert Handled(c, p, s0.objects[r].id);
      }
    }
  }

  /** Every object that a step writes gets the time of the step. */
  ghost predicate Stamps<R, W>(s: State<R, W>, s': State<R, W>, time: int) {
    forall r | r in s'.objects :: (r in s.objects && s'.objects[r] == s.objects[r]) || s'.objects[r].lastUpdate > time
  }

  lemma StepStamps<R, W>(s: State<R, W>, step: Step<R, W>, time: int)
    requires WellFormed(s) && Enabled(s, step) && After(step, time)
    ensures Stamps(s, Apply(s, step), time)
  {
    match step
    case Resume(_, w, id, index, t, _) =>
      match Classify(s, w, id, index, t) {
        case Mismatch =>
        case Keep =>
        case Revive =>
        case Adopt =>
      }
    case _ =>
  }

  /** Nothing the controller does afterwards unsettles it. */
  lemma SettledStays<R, W>(c: Call<W>, s: State<R, W>, step: Step<R, W>)
    requires WellFormed(s) && Settled(c, s) && Enabled(s, step) && After(step, c.time)
    ensures Settled(c, Apply(s, step))
  {
    StepKeeps(s, step);
    StepStamps(s, step, c.time);
    hide Apply, Enabled, After, WellFormed;
  }

  lemma {:induction false} SettledAlong<R, W>(c: Call<W>, s: State<R, W>, run: seq<Step<R, W>>)
    requires Inv(s) && Settled(c, s) && Legal(s, run) && forall i | 0 <= i < |run| :: After(run[i], c.time)
    ensures Inv(Exec(s, run)) && Settled(c, Exec(s, run))
    decreases |run|
  {
    if run != [] {
      hide Settled, After, Inv, Apply;
      assert After(run[0], c.time);
      StepKeepsInv(s, run[0]);
      SettledStays(c, s, run[0]);
      SettledAlong(c, Apply(s, run[0]), run[1..]);
    }
  }

  /** What the second sync has gathered needs no finishing. */
  ghost predicate NothingDue<R, W>(c: Call<W>, p: Progress<R, W>) {
    && (forall id | id in p.gathered && id !in c.report ::
          && p.gathered[id] in p.s.objects && p.s.objects[p.gathered[id]].worker == c.worker
          && (p.s.objects[p.gathered[id]].finished || p.s.objects[p.gathered[id]].lastUpdate >= c.time))
    && (p.chosen.Some? ==>
          && p.chosen.value in p.s.objects && p.s.objects[p.chosen.value].worker == c.worker
          && p.s.objects[p.chosen.value].finished)
  }

  ghost predicate StillInv<R, W>(c: Call<W>, p: Progress<R, W>) {
    Inv(p.s) && Settled(c, p.s) && NothingDue(c, p)
  }

  lemma OtherKeepsStill<R, W>(c: Call<W>, p: Progress<R, W>, step: Step<R, W>)
    requires StillInv(c, p) && Possible(c, p, Other(step))
    ensures StillInv(c, Move(c, p, Other(step)))
  {
    var p' := Move(c, p, Other(step));
    StepKeepsInv(p.s, step);
    SettledStays(c, p.s, step);
    StepKeeps(p.s, step);
    ForeignLeavesWorker(p.s, step, c.worker, c.time);
    hide Inv, Settled, Apply, Enabled, Foreign, Touches;
    assert NothingDue(c, p');
  }

  /** An event of the second sync either changes nothing or adopts a reported id that has left the table. */
  lemma OwnEventIsStill<R, W>(c: Call<W>, p: Progress<R, W>, e: Event<R, W>)
    requires StillInv(c, p) && Possible(c, p, e) && !e.Other?
    ensures var s' := Move(c, p, e).s;
            s' == p.s <==> !(e.ResumeReported? && e.id !in p.s.table)
  {
    match e
    case Check(_) =>
    case FinishChosen(now) =>
      assert p.s.objects[p.chosen.value := p.s.objects[p.chosen.value]] == p.s.objects;
    case ResumeReported(r, id, now) =>
      if id in p.s.table {
        assert Settles(c, id, p.s.objects[p.s.table[id]]);
      } else {
        assert r in Move(c, p, e).s.objects;
      }
  }

  lemma OwnEventKeepsStill<R, W>(c: Call<W>, p: Progress<R, W>, e: Event<R, W>)
    requires StillInv(c, p) && Possible(c, p, e) && !e.Other?
    ensures StillInv(c, Move(c, p, e))
  {
    OwnEventIsStill(c, p, e);
    if e.ResumeReported? && e.id !in p.s.table {
      var step := SessionProtocol.Step.Resume(e.r, c.worker, e.id, c.report[e.id], c.time, e.now);
      assert Move(c, p, e).s == Apply(p.s, step);
      StepKeepsInv(p.s, step);
      SettledStays(c, p.s, step);
    }
  }

  lemma {:induction false} RunKeepsStill<R, W>(c: Call<W>, s1: State<R, W>, run: seq<Event<R, W>>)
    requires Inv(s1) && Settled(c, s1) && LegalRun(c, Start(c, s1), run)
    ensures StillInv(c, Reached(c, Start(c, s1), run))
    decreases |run|
  {
    if run == [] {
      assert forall id | id in BoundTo(s1, c.worker) :: InTable(s1, s1.table[id]);
    } else {
      var front, e := run[..|run| - 1], run[|run| - 1];
      RunKeepsStill(c, s1, front);
      hide StillInv, Start, Possible, Move;
      if e.Other? {
        OtherKeepsStill(c, Reached(c, Start(c, s1), front), e.step);
      } else {
        OwnEventKeepsStill(c, Reached(c, Start(c, s1), front), e);
      }
    }
  }

  /** Syncing again with a settled report, however the rest of the controller interleaves, changes nothing, except
      that it adopts a reported id that a clean-up has deleted in the meantime. */
  lemma SecondSyncIsStill<R, W>(c: Call<W>, s1: State<R, W>, run: seq<Event<R, W>>, e: Event<R, W>)
    requires Inv(s1) && Settled(c, s1) && LegalRun(c, Start(c, s1), run)
    requires Possible(c, Reached(c, Start(c, s1), run), e) && !e.Other?
    ensures var p := Reached(c, Start(c, s1), run);
            Move(c, p, e).s == p.s <==> !(e.ResumeReported? && e.id !in p.s.table)
  {
    RunKeepsStill(c, s1, run);
    OwnEventIsStill(c, Reached(c, Start(c, s1), run), e);
  }
}
