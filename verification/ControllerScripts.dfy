/** The lock scripts of the controller's functions and handlers, and that each keeps the locking discipline. */
module ControllerScripts {
  import opened LockOrder

  /** One turn of the retry loop of `DispatchTask`: the workers looked at and the one locked again. */
  datatype Round = Round(seen: seq<nat>, target: nat)

  /** A reported session: known sessions are locked, and taking one over or reviving it counts. */
  datatype Resumed = Resumed(session: nat, known: bool, counts: bool)

  /** A session that `Sync` finishes: already finished ones do not count. */
  datatype Finished = Finished(session: nat, counts: bool)

  datatype Goroutine =
    // task.go
    | CreateOrValidateTask
    | RegisterWorker
    | RefreshWorker(w: nat)
    | MarkWorkerStale(workers: seq<nat>)
    | DispatchTask(retries: seq<Round>, last: seq<nat>, target: nat, found: bool)
    | CallCancelAll(sessions: seq<nat>, workers: seq<nat>)
    | CallSyncAll
    | RemoveWorker(w: nat)
    | CleanWorkers(workers: seq<nat>)
    | DumpTasks(workers: seq<nat>)
    // session.go
    | GetSession
    | FinishSession(w: nat, f: Finished)
    | FinishSessions(sessions: seq<nat>)
    | CleanSessions(sessions: seq<nat>)
    | Interact(w: nat, s: nat, grpc: bool, accepted: bool, finished: bool, counts: bool)
    // worker.go
    | CallWorker(w: nat, grpc: bool)
    | FinalizeGrpcCall(w: nat)
    | SetStatus(w: nat)
    | Sync(w: nat, grpc: bool, answered: bool, checked: seq<Finished>, reported: seq<Resumed>)
    | CancelSession(w: nat, grpc: bool)
    | CancelWithNotice(w: nat, s: nat, grpc: bool, fallback: bool, exists': bool, counts: bool)
    | CancelAll(w: nat, grpc: bool)
    | CancelAllWithNotice(w: nat, grpc: bool, fallback: bool, sessions: seq<nat>)
    // one goroutine that does one thing after another, as the request handlers do
    | Then(first: Goroutine, second: Goroutine)

  function Locked(l: Lock, m: Mode, inner: seq<Action>): seq<Action> {
    [Acquire(l, m)] + inner + [Release(l)]
  }

  function EachWorker(workers: seq<nat>, m: Mode, looks: bool): seq<Action> {
    if workers == [] then []
    else Locked(Worker(workers[0]), m, if looks then [Look(workers[0])] else []) + EachWorker(workers[1..], m, looks)
  }

  function EachSession(sessions: seq<nat>): seq<Action> {
    if sessions == [] then [] else Locked(Session(sessions[0]), Read, []) + EachSession(sessions[1..])
  }

  function Retries(rounds: seq<Round>): seq<Action> {
    if rounds == [] then []
    else
      EachWorker(rounds[0].seen, Write, true)
      + Locked(Worker(rounds[0].target), Write, [Look(rounds[0].target)])
      + Retries(rounds[1..])
  }

  /** `FinishSession` after the worker lock has been taken. */
  function FinishInner(w: nat, f: Finished): seq<Action> {
    Locked(Session(f.session), Write, if f.counts then [Count(w)] else [])
  }

  function EachFinished(w: nat, checked: seq<Finished>): seq<Action> {
    if checked == [] then [] else FinishInner(w, checked[0]) + EachFinished(w, checked[1..])
  }

  /** `ResumeSession`, called by `Sync` under the worker lock. */
  function ResumeInner(w: nat, r: Resumed): seq<Action> {
    var count := if r.counts then [Count(w)] else [];
    Locked(SessionManager, Write, if r.known then Locked(Session(r.session), Write, count) else count)
  }

  function EachResumed(w: nat, reported: seq<Resumed>): seq<Action> {
    if reported == [] then [] else ResumeInner(w, reported[0]) + EachResumed(w, reported[1..])
  }

  /** A call to a worker; gRPC workers register the pending request before and drop it after. */
  function CallScript(w: nat, grpc: bool): seq<Action> {
    if grpc then Locked(Worker(w), Write, []) + [Call] + Locked(Worker(w), Write, []) else [Call]
  }

  function CancelScript(w: nat, grpc: bool): seq<Action> {
    CallScript(w, grpc) + Locked(Worker(w), Write, [])
  }

  function FinishScript(w: nat, f: Finished): seq<Action> {
    Locked(Worker(w), Write, FinishInner(w, f))
  }

  function SessionsScript(sessions: seq<nat>, m: Mode): seq<Action> {
    Locked(SessionManager, m, EachSession(sessions))
  }

  function Script(g: Goroutine): seq<Action> {
    match g
    case CreateOrValidateTask => Locked(TaskManager, Write, [])
    case RegisterWorker => Locked(TaskManager, Write, [])
    case RefreshWorker(w) =>
      // hand over hand: the task manager is released while the worker is still locked
      [Acquire(TaskManager, Write), Acquire(Worker(w), Write), Release(TaskManager), Release(Worker(w))]
    case MarkWorkerStale(workers) => Locked(TaskManager, Read, EachWorker(workers, Write, false))
    case DispatchTask(retries, last, target, found) =>
      Locked(TaskManager, Read,
             Retries(retries) + EachWorker(last, Write, true)
             + if found
               then Locked(Worker(target), Write, [Look(target), Count(target)]) + Locked(SessionManager, Write, [])
               else [])
    case CallCancelAll(sessions, workers) =>
      Locked(TaskManager, Read, SessionsScript(sessions, Read) + EachWorker(workers, Read, false))
    case CallSyncAll => Locked(TaskManager, Read, [])
    case RemoveWorker(w) => Locked(TaskManager, Write, Locked(Worker(w), Write, []))
    case CleanWorkers(workers) => Locked(TaskManager, Read, EachWorker(workers, Write, true))
    case DumpTasks(workers) => Locked(TaskManager, Read, EachWorker(workers, Read, true))
    case GetSession => Locked(SessionManager, Read, [])
    case FinishSession(w, f) => FinishScript(w, f)
    case FinishSessions(sessions) => SessionsScript(sessions, Read)
    case CleanSessions(sessions) => SessionsScript(sessions, Write)
    case Interact(w, s, grpc, accepted, finished, counts) =>
      Locked(Session(s), Write, [])
      + if accepted then
          CallScript(w, grpc) + (if finished then FinishScript(w, Finished(s, counts)) else [])
              + Locked(Session(s), Write, [])
        else []
    case CallWorker(w, grpc) => CallScript(w, grpc)
    case FinalizeGrpcCall(w) => Locked(Worker(w), Write, [])
    case SetStatus(w) => Locked(Worker(w), Write, [])
    case Sync(w, grpc, answered, checked, reported) =>
      CallScript(w, grpc)
      + Locked(Worker(w), Write,
               if answered
               then Locked(SessionManager, Read, []) + EachFinished(w, checked) + EachResumed(w, reported)
               else [])
    case CancelSession(w, grpc) => CancelScript(w, grpc)
    case CancelWithNotice(w, s, grpc, fallback, exists', counts) =>
      CallScript(w, grpc)
      + if fallback then
          CancelScript(w, grpc) + Locked(SessionManager, Read, [])
          + if exists' then FinishScript(w, Finished(s, counts)) else []
        else []
    case CancelAll(w, grpc) => CancelScript(w, grpc)
    case CancelAllWithNotice(w, grpc, fallback, sessions) =>
      CallScript(w, grpc) + if fallback then CancelScript(w, grpc) + SessionsScript(sessions, Read) else []
    case Then(first, second) => Script(first) + Script(second)
  }

  // ---------------------------------------------------------------- putting scripts together

  /** Run from `held`, `seg` obeys the discipline and gives back exactly what it took. */
  ghost predicate Neutral(seg: seq<Action>, held: Held) {
    forall rest :: Disciplined(rest, held) ==> Disciplined(seg + rest, held)
  }

  lemma EmptyNeutral(held: Held)
    ensures Neutral([], held)
  {
    forall rest | Disciplined(rest, held) ensures Disciplined([] + rest, held) {
      assert [] + rest == rest;
    }
  }

  lemma SequenceNeutral(a: seq<Action>, b: seq<Action>, held: Held)
    requires Neutral(a, held) && Neutral(b, held)
    ensures Neutral(a + b, held)
  {
    forall rest | Disciplined(rest, held) ensures Disciplined(a + b + rest, held) {
      assert Disciplined(b + rest, held);
      assert a + b + rest == a + (b + rest);
    }
  }

  lemma LockedNeutral(l: Lock, m: Mode, inner: seq<Action>, held: Held)
    requires Above(l, held) && Neutral(inner, held[l := m])
    ensures Neutral(Locked(l, m, inner), held)
  {
    forall rest | Disciplined(rest, held) ensures Disciplined(Locked(l, m, inner) + rest, held) {
      var inside := held[l := m];
      assert inside - {l} == held;
      var closing := [Release(l)] + rest;
      assert closing[1..] == rest;
      assert Disciplined(closing, inside);
      assert Disciplined(inner + closing, inside);
      var whole := Locked(l, m, inner) + rest;
      assert whole[0] == Acquire(l, m) && whole[1..] == inner + closing;
    }
  }

  lemma NeutralDisciplined(seg: seq<Action>)
    requires Neutral(seg, map[])
    ensures Disciplined(seg, map[])
  {
    assert Disciplined([], map[]);
    assert seg + [] == seg;
  }

  lemma {:induction false} EachWorkerNeutral(workers: seq<nat>, m: Mode, looks: bool, held: Held)
    requires forall h | h in held :: Level(h) < 1
    ensures Neutral(EachWorker(workers, m, looks), held)
  {
    EmptyNeutral(held);
    if workers != [] {
      var l := Worker(workers[0]);
      EmptyNeutral(held[l := m]);
      LockedNeutral(l, m, if looks then [Look(workers[0])] else [], held);
      EachWorkerNeutral(workers[1..], m, looks, held);
      SequenceNeutral(Locked(l, m, if looks then [Look(workers[0])] else []), EachWorker(workers[1..], m, looks), held);
    }
  }

  lemma {:induction false} EachSessionNeutral(sessions: seq<nat>, held: Held)
    requires forall h | h in held :: Level(h) < 3
    ensures Neutral(EachSession(sessions), held)
  {
    EmptyNeutral(held);
    if sessions != [] {
      var l := Session(sessions[0]);
      EmptyNeutral(held[l := Read]);
      LockedNeutral(l, Read, [], held);
      EachSessionNeutral(sessions[1..], held);
      SequenceNeutral(Locked(l, Read, []), EachSession(sessions[1..]), held);
    }
  }

  lemma {:induction false} RetriesNeutral(rounds: seq<Round>, held: Held)
    requires forall h | h in held :: Level(h) < 1
    ensures Neutral(Retries(rounds), held)
  {
    EmptyNeutral(held);
    if rounds != [] {
      var t := rounds[0].target;
      EachWorkerNeutral(rounds[0].seen, Write, true, held);
      LockedNeutral(Worker(t), Write, [Look(t)], held);
      RetriesNeutral(rounds[1..], held);
      SequenceNeutral(EachWorker(rounds[0].seen, Write, true), Locked(Worker(t), Write, [Look(t)]), held);
      SequenceNeutral(EachWorker(rounds[0].seen, Write, true) + Locked(Worker(t), Write, [Look(t)]),
                      Retries(rounds[1..]), held);
    }
  }

  lemma CountNeutral(w: nat, counts: bool, held: Held)
    requires counts ==> Holds(Thread([], held, false), Worker(w), Write)
    ensures Neutral(if counts then [Count(w)] else [], held)
  {
    EmptyNeutral(held);
    if counts {
    }
  }

  lemma FinishInnerNeutral(w: nat, f: Finished, held: Held)
    requires held == map[Worker(w) := Write]
    ensures Neutral(FinishInner(w, f), held)
  {
    CountNeutral(w, f.counts, held[Session(f.session) := Write]);
    LockedNeutral(Session(f.session), Write, if f.counts then [Count(w)] else [], held);
  }

  lemma {:induction false} EachFinishedNeutral(w: nat, checked: seq<Finished>, held: Held)
    requires held == map[Worker(w) := Write]
    ensures Neutral(EachFinished(w, checked), held)
  {
    EmptyNeutral(held);
    if checked != [] {
      FinishInnerNeutral(w, checked[0], held);
      EachFinishedNeutral(w, checked[1..], held);
      SequenceNeutral(FinishInner(w, checked[0]), EachFinished(w, checked[1..]), held);
    }
  }

  lemma ResumeInnerNeutral(w: nat, r: Resumed, held: Held)
    requires held == map[Worker(w) := Write]
    ensures Neutral(ResumeInner(w, r), held)
  {
    var inside := held[SessionManager := Write];
    var count := if r.counts then [Count(w)] else [];
    CountNeutral(w, r.counts, inside);
    CountNeutral(w, r.counts, inside[Session(r.session) := Write]);
    LockedNeutral(Session(r.session), Write, count, inside);
    LockedNeutral(SessionManager, Write, if r.known then Locked(Session(r.session), Write, count) else count, held);
  }

  lemma {:induction false} EachResumedNeutral(w: nat, reported: seq<Resumed>, held: Held)
    requires held == map[Worker(w) := Write]
    ensures Neutral(EachResumed(w, reported), held)
  {
    EmptyNeutral(held);
    if reported != [] {
      ResumeInnerNeutral(w, reported[0], held);
      EachResumedNeutral(w, reported[1..], held);
      SequenceNeutral(ResumeInner(w, reported[0]), EachResumed(w, reported[1..]), held);
    }
  }

  lemma PlainLockNeutral(l: Lock, m: Mode, held: Held)
    requires Above(l, held)
    ensures Neutral(Locked(l, m, []), held)
  {
    EmptyNeutral(held[l := m]);
    LockedNeutral(l, m, [], held);
  }

  lemma CallNeutral(w: nat, grpc: bool)
    ensures Neutral(CallScript(w, grpc), map[])
  {
    if grpc {
      PlainLockNeutral(Worker(w), Write, map[]);
      SequenceNeutral(Locked(Worker(w), Write, []), [Call], map[]);
      SequenceNeutral(Locked(Worker(w), Write, []) + [Call], Locked(Worker(w), Write, []), map[]);
    }
  }

  lemma CancelNeutral(w: nat, grpc: bool)
    ensures Neutral(CancelScript(w, grpc), map[])
  {
    CallNeutral(w, grpc);
    PlainLockNeutral(Worker(w), Write, map[]);
    SequenceNeutral(CallScript(w, grpc), Locked(Worker(w), Write, []), map[]);
  }

  lemma FinishNeutral(w: nat, f: Finished)
    ensures Neutral(FinishScript(w, f), map[])
  {
    FinishInnerNeutral(w, f, map[Worker(w) := Write]);
    LockedNeutral(Worker(w), Write, FinishInner(w, f), map[]);
  }

  lemma SessionsNeutral(sessions: seq<nat>, m: Mode, held: Held)
    requires forall h | h in held :: Level(h) < 2
    ensures Neutral(SessionsScript(sessions, m), held)
  {
    EachSessionNeutral(sessions, held[SessionManager := m]);
    LockedNeutral(SessionManager, m, EachSession(sessions), held);
  }

  lemma DispatchNeutral(retries: seq<Round>, last: seq<nat>, target: nat, found: bool)
    ensures Neutral(Script(DispatchTask(retries, last, target, found)), map[])
  {
    var held := map[TaskManager := Read];
    RetriesNeutral(retries, held);
    EachWorkerNeutral(last, Write, true, held);
    SequenceNeutral(Retries(retries), EachWorker(last, Write, true), held);
    var inside := held[Worker(target) := Write];
    SequenceNeutral([Look(target)], [Count(target)], inside);
    assert [Look(target)] + [Count(target)] == [Look(target), Count(target)];
    LockedNeutral(Worker(target), Write, [Look(target), Count(target)], held);
    PlainLockNeutral(SessionManager, Write, held);
    var taken := Locked(Worker(target), Write, [Look(target), Count(target)]) + Locked(SessionManager, Write, []);
    SequenceNeutral(Locked(Worker(target), Write, [Look(target), Count(target)]), Locked(SessionManager, Write, []),
                    held);
    EmptyNeutral(held);
    var tail := if found then taken else [];
    SequenceNeutral(Retries(retries) + EachWorker(last, Write, true), tail, held);
    LockedNeutral(TaskManager, Read, Retries(retries) + EachWorker(last, Write, true) + tail, map[]);
  }

  lemma InteractNeutral(w: nat, s: nat, grpc: bool, accepted: bool, finished: bool, counts: bool)
    ensures Neutral(Script(Interact(w, s, grpc, accepted, finished, counts)), map[])
  {
    PlainLockNeutral(Session(s), Write, map[]);
    CallNeutral(w, grpc);
    FinishNeutral(w, Finished(s, counts));
    EmptyNeutral(map[]);
    var mid := if finished then FinishScript(w, Finished(s, counts)) else [];
    SequenceNeutral(CallScript(w, grpc), mid, map[]);
    SequenceNeutral(CallScript(w, grpc) + mid, Locked(Session(s), Write, []), map[]);
    var tail := if accepted then CallScript(w, grpc) + mid + Locked(Session(s), Write, []) else [];
    SequenceNeutral(Locked(Session(s), Write, []), tail, map[]);
  }

  lemma SyncNeutral(w: nat, grpc: bool, answered: bool, checked: seq<Finished>, reported: seq<Resumed>)
    ensures Neutral(Script(Sync(w, grpc, answered, checked, reported)), map[])
  {
    var held := map[Worker(w) := Write];
    CallNeutral(w, grpc);
    PlainLockNeutral(SessionManager, Read, held);
    EachFinishedNeutral(w, checked, held);
    EachResumedNeutral(w, reported, held);
    SequenceNeutral(Locked(SessionManager, Read, []), EachFinished(w, checked), held);
    SequenceNeutral(Locked(SessionManager, Read, []) + EachFinished(w, checked), EachResumed(w, reported), held);
    EmptyNeutral(held);
    var inner := if answered
                 then Locked(SessionManager, Read, []) + EachFinished(w, checked) + EachResumed(w, reported)
                 else [];
    LockedNeutral(Worker(w), Write, inner, map[]);
    SequenceNeutral(CallScript(w, grpc), Locked(Worker(w), Write, inner), map[]);
  }

  lemma CancelWithNoticeNeutral(w: nat, s: nat, grpc: bool, fallback: bool, exists': bool, counts: bool)
    ensures Neutral(Script(CancelWithNotice(w, s, grpc, fallback, exists', counts)), map[])
  {
    CallNeutral(w, grpc);
    CancelNeutral(w, grpc);
    PlainLockNeutral(SessionManager, Read, map[]);
    FinishNeutral(w, Finished(s, counts));
    EmptyNeutral(map[]);
    var finish := if exists' then FinishScript(w, Finished(s, counts)) else [];
    SequenceNeutral(CancelScript(w, grpc), Locked(SessionManager, Read, []), map[]);
    SequenceNeutral(CancelScript(w, grpc) + Locked(SessionManager, Read, []), finish, map[]);
    var tail := if fallback then CancelScript(w, grpc) + Locked(SessionManager, Read, []) + finish else [];
    SequenceNeutral(CallScript(w, grpc), tail, map[]);
  }

  lemma CancelAllWithNoticeNeutral(w: nat, grpc: bool, fallback: bool, sessions: seq<nat>)
    ensures Neutral(Script(CancelAllWithNotice(w, grpc, fallback, sessions)), map[])
  {
    CallNeutral(w, grpc);
    CancelNeutral(w, grpc);
    SessionsNeutral(sessions, Read, map[]);
    EmptyNeutral(map[]);
    SequenceNeutral(CancelScript(w, grpc), SessionsScript(sessions, Read), map[]);
    SequenceNeutral(CallScript(w, grpc),
                    if fallback then CancelScript(w, grpc) + SessionsScript(sessions, Read) else [],
                    map[]);
  }

  lemma RefreshNeutral(w: nat)
    ensures Neutral(Script(RefreshWorker(w)), map[])
  {
    forall rest | Disciplined(rest, map[]) ensures Disciplined(Script(RefreshWorker(w)) + rest, map[]) {
      var all := Script(RefreshWorker(w)) + rest;
      var h1: Held := map[TaskManager := Write];
      var h2 := h1[Worker(w) := Write];
      assert h2 - {TaskManager} == map[Worker(w) := Write];
      assert map[Worker(w) := Write] - {Worker(w)} == map[];
      assert all[4..] == rest;
      assert all[3..][1..] == all[4..] && all[2..][1..] == all[3..] && all[1..][1..] == all[2..];
      assert Disciplined(all[3..], map[Worker(w) := Write]);
      assert Disciplined(all[2..], h2);
      assert Disciplined(all[1..], h1);
    }
  }

  /** The functions of task.go. */
  lemma TaskScriptsNeutral(g: Goroutine)
    requires g.CreateOrValidateTask? || g.RegisterWorker? || g.RefreshWorker? || g.MarkWorkerStale? || g.DispatchTask?
          || g.CallCancelAll? || g.CallSyncAll? || g.RemoveWorker? || g.CleanWorkers? || g.DumpTasks?
    ensures Neutral(Script(g), map[])
  {
    var read: Held := map[TaskManager := Read];
    match g
    case RefreshWorker(w) => RefreshNeutral(w);
    case MarkWorkerStale(workers) =>
      EachWorkerNeutral(workers, Write, false, read);
      LockedNeutral(TaskManager, Read, EachWorker(workers, Write, false), map[]);
    case DispatchTask(retries, last, target, found) => DispatchNeutral(retries, last, target, found);
    case CallCancelAll(sessions, workers) =>
      SessionsNeutral(sessions, Read, read);
      EachWorkerNeutral(workers, Read, false, read);
      SequenceNeutral(SessionsScript(sessions, Read), EachWorker(workers, Read, false), read);
      LockedNeutral(TaskManager, Read, SessionsScript(sessions, Read) + EachWorker(workers, Read, false), map[]);
    case RemoveWorker(w) =>
      PlainLockNeutral(Worker(w), Write, map[TaskManager := Write]);
      LockedNeutral(TaskManager, Write, Locked(Worker(w), Write, []), map[]);
    case CleanWorkers(workers) =>
      EachWorkerNeutral(workers, Write, true, read);
      LockedNeutral(TaskManager, Read, EachWorker(workers, Write, true), map[]);
    case DumpTasks(workers) =>
      EachWorkerNeutral(workers, Read, true, read);
      LockedNeutral(TaskManager, Read, EachWorker(workers, Read, true), map[]);
    case CallSyncAll => PlainLockNeutral(TaskManager, Read, map[]);
    case _ => PlainLockNeutral(TaskManager, Write, map[]);
  }

  /** Every goroutine of the controller keeps the discipline. */
  lemma {:induction false} ScriptNeutral(g: Goroutine)
    ensures Neutral(Script(g), map[])
  {
    match g
    case GetSession => PlainLockNeutral(SessionManager, Read, map[]);
    case FinishSession(w, f) => FinishNeutral(w, f);
    case FinishSessions(sessions) => SessionsNeutral(sessions, Read, map[]);
    case CleanSessions(sessions) => SessionsNeutral(sessions, Write, map[]);
    case Interact(w, s, grpc, accepted, finished, counts) => InteractNeutral(w, s, grpc, accepted, finished, counts);
    case CallWorker(w, grpc) => CallNeutral(w, grpc);
    case FinalizeGrpcCall(w) => PlainLockNeutral(Worker(w), Write, map[]);
    case SetStatus(w) => PlainLockNeutral(Worker(w), Write, map[]);
    case Sync(w, grpc, answered, checked, reported) => SyncNeutral(w, grpc, answered, checked, reported);
    case CancelSession(w, grpc) => CancelNeutral(w, grpc);
    case CancelWithNotice(w, s, grpc, fallback, exists', counts) =>
      CancelWithNoticeNeutral(w, s, grpc, fallback, exists', counts);
    case CancelAll(w, grpc) => CancelNeutral(w, grpc);
    case CancelAllWithNotice(w, grpc, fallback, sessions) => CancelAllWithNoticeNeutral(w, grpc, fallback, sessions);
    case Then(first, second) =>
      ScriptNeutral(first);
      ScriptNeutral(second);
      SequenceNeutral(Script(first), Script(second), map[]);
    case _ => TaskScriptsNeutral(g);
  }

  lemma EveryGoroutineDisciplined(g: Goroutine)
    ensures Disciplined(Script(g), map[])
  {
    ScriptNeutral(g);
    NeutralDisciplined(Script(g));
  }

  // ---------------------------------------------------------------- the controller

  /** A goroutine of the controller takes its next lock action, or a new one is started. */
  datatype Move = Next(t: nat) | Go(t: nat, g: Goroutine)

  function ToEvent(m: Move): Event {
    match m
    case Next(t) => Step(t)
    case Go(t, g) => Spawn(t, Script(g))
  }

  ghost predicate Possible(s: State, moves: seq<Move>)
    decreases |moves|
  {
    moves == [] ||
    (&& (match moves[0] case Next(t) => CanStep(s, t) case Go(t, _) => t !in s)
     && Possible(Apply(s, ToEvent(moves[0])), moves[1..]))
  }

  function Events(moves: seq<Move>): (run: seq<Event>)
    ensures |run| == |moves|
  {
    if moves == [] then [] else [ToEvent(moves[0])] + Events(moves[1..])
  }

  /** Whatever the controller does is a run of the lock model: the scripts themselves guarantee the discipline. */
  lemma {:induction false} PossibleIsLegal(s: State, moves: seq<Move>)
    requires Possible(s, moves)
    ensures Legal(s, Events(moves))
    decreases |moves|
  {
    if moves != [] {
      if moves[0].Go? {
        EveryGoroutineDisciplined(moves[0].g);
      }
      PossibleIsLegal(Apply(s, ToEvent(moves[0])), moves[1..]);
      assert Events(moves)[1..] == Events(moves[1..]);
    }
  }

  /** However the goroutines of the controller are started and interleaved, they can always go on
      until every one of them has finished, and no set of them waits in a circle. */
  lemma ControllerNeverDeadlocks(moves: seq<Move>)
    requires Possible(map[], moves)
    ensures Legal(map[], Events(moves))
    ensures var s := Exec(map[], Events(moves));
            && (exists rest :: OnlySteps(rest) && Legal(s, rest) && AllDone(Exec(s, rest)))
            && (forall path | WaitPath(s, path) :: path[0] != path[|path| - 1])
  {
    PossibleIsLegal(map[], moves);
    var run := Events(moves);
    RunKeepsInv(map[], run);
    var s := Exec(map[], run);
    var rest := CanFinish(s);
    assert OnlySteps(rest);
    forall path | WaitPath(s, path) ensures path[0] != path[|path| - 1] {
      NoWaitCycle(run, path);
    }
  }
}
