/** The controller's objects and the methods that update them in place.  Each method is proved to
    take the step of `SessionProtocol` it implements. */
module SessionManager {
  import SP = SessionProtocol
  import SS = SessionSync

  datatype WorkerStatus = Alive | Coma | Dead

  class Worker {
    const id: int
    var capacity: int
    var current: int
    var lastVisit: int
    var status: WorkerStatus
    var stale: bool

    constructor (id: int, capacity: int, now: int)
      ensures this.id == id && this.capacity == capacity && current == 0
      ensures lastVisit == now && status == Alive && !stale
    {
      this.id, this.capacity, current, lastVisit, status, stale := id, capacity, 0, now, Alive, false;
    }

    /** What the dispatcher sees after the heartbeat check; zero when the worker may not be chosen. */
    ghost function Available(now: int, heartbeatTimeout: int): int
      reads this
    {
      if status == Alive && !stale && now - lastVisit <= heartbeatTimeout then capacity - current else 0
    }
  }

  class Session {
    const id: SP.Id
    const worker: Worker
    const index: int
    var lastUpdate: int
    var interacting: bool
    var cancelling: bool
    var finished: bool

    constructor (id: SP.Id, worker: Worker, index: int, now: int)
      ensures this.worker == worker && Value() == SP.NewSession(id, worker, index, now)
    {
      this.id, this.worker, this.index := id, worker, index;
      lastUpdate, interacting, cancelling, finished := now, false, false, false;
    }

    ghost function Value(): SP.Session<Worker>
      reads this
    {
      SP.Session(id, worker, index, finished, cancelling, interacting, lastUpdate)
    }
  }

  /** The call to the worker that `FinishSession` starts in the background. */
  datatype CancelCall = NoCall | Cancel(id: SP.Id) | CancelWithNotice(id: SP.Id)

  datatype SyncResult = Skipped | Failed | Done(hardSync: bool)

  class SessionManager {
    var sessions: map<SP.Id, Session>
    var nextSessionId: SP.Int32
    ghost var objects: set<Session>        // every session allocated so far
    ghost var workers: set<Worker>         // every worker registered so far
    ghost var pending: multiset<Worker>    // dispatches between their two critical sections

    ghost function ObjectsView(): map<Session, SP.Session<Worker>>
      reads this`objects, objects
    {
      map r | r in objects :: r.Value()
    }

    ghost function CurrentView(): map<Worker, int>
      reads this`workers, workers
    {
      map w | w in workers :: w.current
    }

    ghost function CapacityView(): map<Worker, int>
      reads this`workers, workers
    {
      map w | w in workers :: w.capacity
    }

    /** The state of `SessionProtocol` that the objects represent. */
    ghost function View(): SP.State<Session, Worker>
      reads this, objects, workers
    {
      SP.State(ObjectsView(), sessions, CurrentView(), CapacityView(), pending, nextSessionId)
    }

    /** The table leads to allocated sessions, and those to registered workers. */
    ghost predicate Valid()
      reads this
    {
      && (forall id | id in sessions :: sessions[id] in objects)
      && (forall r | r in objects :: r.worker in workers)
    }

    constructor ()
      ensures Valid() && View() == SP.Init()
    {
      sessions, nextSessionId := map[], 0;
      objects, workers, pending := {}, {}, multiset{};
    }

    /** A worker has been registered with the controller. */
    ghost method AddWorker(worker: Worker)
      requires Valid() && worker !in workers && worker.current == 0 && worker.capacity > 0
      modifies this`workers
      ensures Valid() && workers == old(workers) + {worker}
      ensures View() == SP.Apply(old(View()), SP.Register(worker, worker.capacity))
    {
      workers := workers + {worker};
      assert CurrentView() == old(CurrentView())[worker := 0];
      assert CapacityView() == old(CapacityView())[worker := worker.capacity];
    }

    /** A heartbeat of a known worker announces its capacity. */
    method SetCapacity(worker: Worker, capacity: int, now: int)
      requires Valid() && worker in workers && capacity > 0
      modifies worker
      ensures View() == SP.Apply(old(View()), SP.SetCapacity(worker, capacity))
      ensures worker.status == Alive && worker.lastVisit == now && worker.stale == old(worker.stale)
    {
      worker.capacity, worker.lastVisit, worker.status := capacity, now, Alive;
      assert CurrentView() == old(CurrentView());
      assert CapacityView() == old(CapacityView())[worker := capacity];
    }

    method CreateSession(worker: Worker, index: int, now: int) returns (session: Session)
      requires Valid() && worker in workers
      modifies this
      ensures fresh(session) && session.worker == worker
      ensures View() == SP.CreateIn(old(View()), session, worker, index, now)
      ensures Valid() && workers == old(workers)
    {
      var sessionId := TakeId(worker);
      session := new Session(sessionId, worker, index, now);
      hide ObjectsView, CurrentView, CapacityView;
      Insert(sessionId, session);
    }

    /** The next id, which ends the dispatch's wait for a session. */
    method TakeId(worker: Worker) returns (sessionId: SP.Id)
      modifies this`nextSessionId, this`pending
      ensures sessionId == SP.NextId(old(nextSessionId))
      ensures View() == old(View()).(nextId := SP.NextId(old(nextSessionId)),
                                     pending := old(pending) - multiset{worker})
    {
      nextSessionId := SP.NextId(nextSessionId);
      pending := pending - multiset{worker};
      return nextSessionId;
    }

    /** Puts a new session object into the table. */
    method Insert(id: SP.Id, session: Session)
      requires Valid() && session !in objects && session.worker in workers
      modifies this`sessions, this`objects
      ensures Valid() && sessions == old(sessions)[id := session] && objects == old(objects) + {session}
      ensures View() == old(View()).(objects := old(ObjectsView())[session := session.Value()],
                                     table := old(sessions)[id := session])
    {
      sessions := sessions[id := session];
      objects := objects + {session};
      assert ObjectsView() == old(ObjectsView())[session := session.Value()];
    }

    /** Returns the session that now goes by the reported id, and whether a hard sync was started. */
    method ResumeSession(worker: Worker, sessionId: SP.Id, index: int, syncTime: int, now: int)
      returns (session: Session, hardSync: bool)
      requires Valid() && worker in workers
      modifies this, objects, worker`current
      ensures sessionId in sessions && session == sessions[sessionId]
      ensures sessionId !in old(sessions) ==> fresh(session)
      ensures View() == SP.ResumeIn(old(View()), session, worker, sessionId, index, syncTime, now)
      ensures hardSync == SP.Classify(old(View()), worker, sessionId, index, syncTime).Mismatch?
      ensures Valid() && workers == old(workers) && fresh(objects - old(objects))
    {
      hardSync := false;
      if sessionId in sessions {
        session := sessions[sessionId];
        assert ObjectsView()[session] == session.Value();
        if session.worker != worker || session.index != index {
          hardSync := true;
        } else if !session.finished || session.lastUpdate > syncTime {
          // not finished, or finished after the report was taken
        } else {
          assert SP.Classify(View(), worker, sessionId, index, syncTime) == SP.Revive;
          Revive(session, worker, now);
        }
      } else {
        session := Adopt(worker, sessionId, index, now);
      }
    }

    /** The branch of `ResumeSession` for a session that is actually not finished. */
    method Revive(session: Session, worker: Worker, now: int)
      requires session in objects && worker in workers
      modifies session, worker`current
      ensures View() == SP.ReviveIn(old(View()), session, worker, now)
    {
      session.lastUpdate := now;
      session.finished := false;
      worker.current := worker.current + 1;
      assert ObjectsView() == old(ObjectsView())[session := session.Value()];
      assert CurrentView() == old(CurrentView())[worker := old(worker.current) + 1];
      assert CapacityView() == old(CapacityView());
    }

    /** The branch of `ResumeSession` for an unknown id. */
    method Adopt(worker: Worker, sessionId: SP.Id, index: int, now: int) returns (session: Session)
      requires Valid() && worker in workers
      modifies this, worker`current
      ensures Valid() && workers == old(workers) && objects == old(objects) + {session}
      ensures fresh(session) && sessionId in sessions && sessions[sessionId] == session
      ensures View() == SP.AdoptIn(old(View()), session, worker, sessionId, index, now)
    {
      session := new Session(sessionId, worker, index, now);
      Insert(sessionId, session);
      worker.current := worker.current + 1;
      assert ObjectsView() == old(ObjectsView())[session := SP.NewSession(sessionId, worker, index, now)];
      assert CurrentView() == old(CurrentView())[worker := old(worker.current) + 1];
      assert CapacityView() == old(CapacityView());
    }

    method GetSession(id: SP.Id) returns (session: Session?)
      ensures session != null <==> id in sessions && !sessions[id].finished
      ensures session != null ==> session == sessions[id]
    {
      session := if id in sessions && !sessions[id].finished then sessions[id] else null;
    }

    method FinishSession(session: Session, propagate: bool, withNotice: bool, now: int) returns (call: CancelCall)
      requires Valid() && session in objects
      modifies session, session.worker`current
      ensures View() == SP.FinishIn(old(View()), session, withNotice, now)
      ensures call == if old(session.finished) || !propagate then NoCall
                      else if withNotice then CancelWithNotice(session.id) else Cancel(session.id)
    {
      call := NoCall;
      if session.finished {
        assert ObjectsView()[session] == session.Value();
        assert ObjectsView() == ObjectsView()[session := session.Value()];
        return;
      }
      session.interacting := false;
      if propagate {
        call := if withNotice then CancelWithNotice(session.id) else Cancel(session.id);
      }
      session.lastUpdate := now;
      if withNotice {
        session.cancelling := true;
        assert CurrentView() == old(CurrentView());
      } else {
        session.worker.current := session.worker.current - 1;
        session.finished := true;
        assert CurrentView() == old(CurrentView())[session.worker := old(session.worker.current) - 1];
      }
      assert ObjectsView() == old(ObjectsView())[session := session.Value()];
      assert CapacityView() == old(CapacityView());
    }

    /** The start of `Interact`: one interaction at a time, and none once a cancellation is under way. */
    method BeginInteract(session: Session, now: int) returns (accepted: bool)
      requires Valid() && session in objects
      modifies session
      ensures View() == SP.BeginIn(old(View()), session, now)
      ensures accepted <==> !old(session.interacting) && !old(session.cancelling)
    {
      assert ObjectsView()[session] == session.Value();
      accepted := !session.interacting && !session.cancelling;
      if accepted {
        session.lastUpdate := now;
        session.interacting := true;
        assert ObjectsView() == old(ObjectsView())[session := session.Value()];
      }
      assert CurrentView() == old(CurrentView()) && CapacityView() == old(CapacityView());
    }

    /** The deferred end of `Interact`. */
    method EndInteract(session: Session, now: int)
      requires Valid() && session in objects
      modifies session
      ensures View() == SP.EndIn(old(View()), session, now)
    {
      session.lastUpdate := now;
      session.interacting := false;
      assert ObjectsView() == old(ObjectsView())[session := session.Value()];
      assert CurrentView() == old(CurrentView()) && CapacityView() == old(CapacityView());
    }

    /** The ids of the worker's sessions in the table. */
    method GatherSessions(worker: Worker) returns (ids: set<SP.Id>)
      requires Valid()
      ensures ids <= sessions.Keys && forall id | id in sessions :: id in ids <==> sessions[id].worker == worker
      ensures ids == SS.BoundTo(View(), worker) && ids <= View().table.Keys
    {
      ids := {};
      var todo := sessions.Keys;
      while todo != {}
        invariant todo <= sessions.Keys
        invariant ids == set id | id in sessions.Keys - todo && sessions[id].worker == worker
        decreases |todo|
      {
        var id :| id in todo;
        todo := todo - {id};
        if sessions[id].worker == worker {
          ids := ids + {id};
        }
      }
      assert forall id | id in sessions :: ObjectsView()[sessions[id]] == sessions[id].Value();
    }

    /** The sessions of a worker that a background `FinishSession` will finish. */
    method FinishSessions(worker: Worker) returns (due: set<Session>)
      requires Valid()
      ensures due == set id | id in sessions && sessions[id].worker == worker && !sessions[id].finished :: sessions[id]
      ensures forall r | r in due :: r in SP.Live(View(), worker)
    {
      due := {};
      var todo := sessions.Keys;
      while todo != {}
        invariant todo <= sessions.Keys
        invariant due == set id | id in sessions.Keys - todo && sessions[id].worker == worker &&
                                  !sessions[id].finished :: sessions[id]
        decreases |todo|
      {
        var id :| id in todo;
        todo := todo - {id};
        if !sessions[id].finished && sessions[id].worker == worker {
          due := due + {sessions[id]};
        }
      }
      assert forall r | r in objects :: ObjectsView()[r] == r.Value();
    }

    /** Deletes the sessions finished long ago; returns the ones that a background `FinishSession` will expire. */
    method CleanSessions(finishLine: int, removeLine: int) returns (expired: set<Session>)
      requires Valid()
      modifies this`sessions
      ensures View() == SP.CleanIn(old(View()), removeLine)
      ensures forall id ::
                id in sessions <==>
                (id in old(sessions) && !(old(sessions)[id].finished && old(sessions)[id].lastUpdate < removeLine))
      ensures forall id | id in sessions :: sessions[id] == old(sessions)[id]
      ensures forall r ::
                r in expired <==>
                (r in old(sessions).Values && !r.finished && !r.interacting && r.lastUpdate < finishLine)
      ensures Valid()
    {
      var toBeRemoved;
      toBeRemoved, expired := ScanSessions(finishLine, removeLine);
      Delete(toBeRemoved, removeLine);
    }

    /** The deletions of `CleanSessions`. */
    method Delete(ids: set<SP.Id>, ghost removeLine: int)
      requires Valid()
      requires ids == set id | id in sessions && sessions[id].finished && sessions[id].lastUpdate < removeLine
      modifies this`sessions
      ensures Valid() && View() == SP.CleanIn(old(View()), removeLine) && sessions == old(sessions) - ids
    {
      assert forall id | id in sessions :: ObjectsView()[sessions[id]] == sessions[id].Value();
      sessions := sessions - ids;
      assert sessions == SP.CleanIn(old(View()), removeLine).table;
    }

    /** The loop of `CleanSessions`. */
    method ScanSessions(finishLine: int, removeLine: int) returns (toBeRemoved: set<SP.Id>, expired: set<Session>)
      ensures toBeRemoved == set id | id in sessions && sessions[id].finished && sessions[id].lastUpdate < removeLine
      ensures expired == set id | id in sessions && Expires(sessions[id], finishLine) :: sessions[id]
    {
      toBeRemoved, expired := {}, {};
      var todo := sessions.Keys;
      while todo != {}
        invariant todo <= sessions.Keys
        invariant forall id :: id in toBeRemoved <==>
                               && id in sessions && id !in todo
                               && sessions[id].finished && sessions[id].lastUpdate < removeLine
        invariant forall id | id in sessions && id !in todo && Expires(sessions[id], finishLine) ::
                    sessions[id] in expired
        invariant forall r | r in expired :: Expires(r, finishLine) && r in sessions.Values
        decreases |todo|
      {
        var id :| id in todo;
        var session := sessions[id];
        todo := todo - {id};
        if session.finished {
          if session.lastUpdate < removeLine {
            toBeRemoved := toBeRemoved + {id};
          }
        } else if !session.interacting && session.lastUpdate < finishLine {
          expired := expired + {session};
        }
      }
    }

    /** `report` is what the worker answered, if it answered. The code looks whether the worker is dead before and
        after the call, without its lock: `seenDead` is what it saw. A removal that comes later is overwritten. */
    method Sync(worker: Worker, seenDead: bool, report: map<SP.Id, int>, answered: bool, syncTime: int, now: int)
      returns (result: SyncResult)
      requires Valid() && worker in workers && SP.Inv(View())
      modifies this, objects, worker`current, worker`status, worker`lastVisit
      ensures Valid() && workers == old(workers) && fresh(objects - old(objects)) && SP.Inv(View())
      ensures seenDead <==> result == Skipped
      ensures result.Failed? <==> !seenDead && !answered
      ensures result.Skipped? ==> worker.status == old(worker.status) && View() == old(View())
      ensures result.Failed? ==> worker.status == Coma && View() == old(View())
      ensures result.Done? ==>
                && worker.status == Alive && worker.lastVisit == now
                && SS.Synced(old(View()), View(), worker, report, syncTime, now)
                && (result.hardSync <==> SS.Mismatched(old(View()), worker, report))
    {
      if seenDead {
        return Skipped;
      }
      NoteAnswer(worker, answered, now);
      if !answered {
        return Failed;
      }
      hide SP.Inv, SS.Synced, SS.Mismatched, View, ObjectsView, CurrentView, CapacityView;
      var hardSync := Reconcile(worker, report, syncTime, now);
      result := Done(hardSync);
    }

    /** The two loops of `Sync`. */
    method Reconcile(worker: Worker, report: map<SP.Id, int>, syncTime: int, now: int) returns (hardSync: bool)
      requires Valid() && worker in workers && SP.Inv(View())
      modifies this, objects, worker`current
      ensures Valid() && workers == old(workers) && fresh(objects - old(objects)) && SP.Inv(View())
      ensures SS.Synced(old(View()), View(), worker, report, syncTime, now)
      ensures hardSync <==> SS.Mismatched(old(View()), worker, report)
    {
      ghost var start := View();
      assert worker in start.current;
      hide SP.Inv, SS.Synced, SS.SyncedUpTo, SS.Mismatched, View, ObjectsView, CurrentView, CapacityView;
      FinishUnreported(start, worker, report, syncTime, now);
      hardSync := ResumeReported(start, worker, report, syncTime, now);
    }

    /** What a worker's answer, or its absence, says about the worker itself. */
    method NoteAnswer(worker: Worker, answered: bool, now: int)
      modifies worker`status, worker`lastVisit
      ensures worker.status == if answered then Alive else Coma
      ensures worker.lastVisit == if answered then now else old(worker.lastVisit)
      ensures View() == old(View())
    {
      if answered {
        worker.lastVisit := now;
        worker.status := Alive;
      } else {
        worker.status := Coma;
      }
      assert CurrentView() == old(CurrentView()) && CapacityView() == old(CapacityView());
      assert ObjectsView() == old(ObjectsView());
    }

    /** The first loop of `Sync`. */
    method FinishUnreported(ghost start: SP.State<Session, Worker>, worker: Worker, report: map<SP.Id, int>,
                            syncTime: int, now: int)
      requires Valid() && worker in workers && SP.Inv(start) && start == View()
      modifies objects, worker`current
      ensures SP.Inv(View()) && SS.SyncedUpTo(start, View(), worker, report, syncTime, now, start.table.Keys, {})
    {
      hide SP.Inv, SS.SyncedUpTo, SS.BoundTo, View, ObjectsView, CurrentView, CapacityView;
      var controllerSessions := GatherSessions(worker);
      var todo := controllerSessions;
      ghost var checked: set<SP.Id> := {};
      SS.SyncStart(start, worker, report, syncTime, now);
      while todo != {}
        invariant todo <= controllerSessions && checked == controllerSessions - todo
        invariant SP.Inv(View()) && SS.SyncedUpTo(start, View(), worker, report, syncTime, now, checked, {})
        decreases |todo|
      {
        var id :| id in todo;
        CheckOne(start, worker, report, syncTime, now, checked, id);
        todo := todo - {id};
        checked := checked + {id};
      }
      assert checked == controllerSessions;
      SS.CheckedAll(start, View(), worker, report, syncTime, now, checked);
    }

    /** One turn of the first loop of `Sync`. */
    method CheckOne(ghost start: SP.State<Session, Worker>, worker: Worker, report: map<SP.Id, int>,
                    syncTime: int, now: int, ghost checked: set<SP.Id>, id: SP.Id)
      requires Valid() && SP.Inv(start) && SP.Inv(View())
      requires SS.SyncedUpTo(start, View(), worker, report, syncTime, now, checked, {})
      requires id in sessions && sessions[id].worker == worker
      requires id in SS.BoundTo(start, worker) && id !in checked
      modifies sessions[id], worker`current
      ensures SP.Inv(View())
      ensures SS.SyncedUpTo(start, View(), worker, report, syncTime, now, checked + {id}, {})
    {
      var session := sessions[id];
      ghost var m := View();
      SS.CheckStep(start, m, worker, report, syncTime, now, checked, id);
      assert m.objects[session] == session.Value();
      SP.FinishKeepsInv(m, session, false, now);
      if id !in report && session.lastUpdate < syncTime {
        var _ := FinishSession(session, false, false, now);
      }
    }

    /** The second loop of `Sync`. */
    method ResumeReported(ghost start: SP.State<Session, Worker>, worker: Worker, report: map<SP.Id, int>,
                          syncTime: int, now: int)
      returns (hardSync: bool)
      requires Valid() && worker in workers && SP.Inv(start) && worker in start.current && SP.Inv(View())
      requires SS.SyncedUpTo(start, View(), worker, report, syncTime, now, start.table.Keys, {})
      modifies this, objects, worker`current
      ensures Valid() && workers == old(workers) && fresh(objects - old(objects)) && SP.Inv(View())
      ensures SS.Synced(start, View(), worker, report, syncTime, now)
      ensures hardSync <==> SS.Mismatched(start, worker, report)
    {
      var todo := report.Keys;
      ghost var resumed: set<SP.Id> := {};
      hardSync := false;
      hide SP.Inv, SS.SyncedUpTo, SS.MismatchedAt, View, ObjectsView, CurrentView, CapacityView;
      while todo != {}
        invariant Valid() && workers == old(workers) && fresh(objects - old(objects))
        invariant todo <= report.Keys && resumed == report.Keys - todo
        invariant SP.Inv(View())
        invariant SS.SyncedUpTo(start, View(), worker, report, syncTime, now, start.table.Keys, resumed)
        invariant hardSync <==> exists id :: id in resumed && SS.MismatchedAt(start, worker, report, id)
        decreases |todo|
      {
        var id :| id in todo;
        var mismatch := ResumeOne(start, worker, report, syncTime, now, resumed, id);
        hardSync := hardSync || mismatch;
        todo := todo - {id};
        resumed := resumed + {id};
      }
      assert resumed == report.Keys;
    }

    /** One turn of the second loop of `Sync`. */
    method ResumeOne(ghost start: SP.State<Session, Worker>, worker: Worker, report: map<SP.Id, int>,
                     syncTime: int, now: int, ghost resumed: set<SP.Id>, id: SP.Id)
      returns (mismatch: bool)
      requires Valid() && worker in workers && SP.Inv(start) && worker in start.current && SP.Inv(View())
      requires SS.SyncedUpTo(start, View(), worker, report, syncTime, now, start.table.Keys, resumed)
      requires id in report && id !in resumed
      modifies this, objects, worker`current
      ensures Valid() && workers == old(workers) && fresh(objects - old(objects)) && SP.Inv(View())
      ensures SS.SyncedUpTo(start, View(), worker, report, syncTime, now, start.table.Keys, resumed + {id})
      ensures mismatch == SS.MismatchedAt(start, worker, report, id)
    {
      ghost var m := View();
      SS.MismatchSeen(start, m, worker, report, syncTime, now, resumed, id);
      var session;
      session, mismatch := ResumeSession(worker, id, report[id], syncTime, now);
      SS.ResumeStep(start, m, worker, report, syncTime, now, resumed, id, session);
      SP.ResumedKeepsInv(m, session, worker, id, report[id], syncTime, now);
    }

    // -------------------------------------------------------------- dispatch

    /** One undisturbed pass of the selection loop of `DispatchTask`: the first candidate with the
        most room, if any has room.  Alive candidates whose heartbeat is late go into coma on the way. */
    method SelectWorker(candidates: seq<Worker>, now: int, heartbeatTimeout: int) returns (target: Worker?)
      modifies set w | w in candidates :: w`status
      ensures forall w | w in candidates ::
                w.status == if old(w.status == Alive && !w.stale && now - w.lastVisit > heartbeatTimeout) then Coma
                            else old(w.status)
      ensures target == null <==>
                forall w | w in candidates && old(w.status) == Alive && !w.stale
                           && now - w.lastVisit <= heartbeatTimeout ::
                  w.capacity <= w.current
      ensures target != null ==>
                && target in candidates && old(target.status) == Alive && !target.stale
                && now - target.lastVisit <= heartbeatTimeout
                && target.current < target.capacity
                && forall w | w in candidates && old(w.status) == Alive && !w.stale
                              && now - w.lastVisit <= heartbeatTimeout ::
                     w.capacity - w.current <= target.capacity - target.current
      ensures target == null <==> forall w | w in candidates :: old(w.Available(now, heartbeatTimeout)) <= 0
      ensures target != null ==>
                (exists k ::
                   && 0 <= k < |candidates| && candidates[k] == target
                   && old(target.Available(now, heartbeatTimeout)) > 0
                   && (forall j | 0 <= j < |candidates| ::
                         old(candidates[j].Available(now, heartbeatTimeout))
                         <= old(target.Available(now, heartbeatTimeout)))
                   && (forall j | 0 <= j < k ::
                         old(candidates[j].Available(now, heartbeatTimeout))
                         < old(target.Available(now, heartbeatTimeout))))
    {
      target := null;
      var maxAvailable := 0;
      ghost var k := 0;
      for i := 0 to |candidates|
        invariant forall w | w in candidates ::
                    w.status == if w in candidates[..i]
                                   && old(w.status == Alive && !w.stale && now - w.lastVisit > heartbeatTimeout)
                                then Coma else old(w.status)
        invariant target == null ==> maxAvailable == 0
        invariant forall j | 0 <= j < i :: old(candidates[j].Available(now, heartbeatTimeout)) <= maxAvailable
        invariant target != null ==>
                    && 0 <= k < i && candidates[k] == target && maxAvailable > 0
                    && old(target.Available(now, heartbeatTimeout)) == maxAvailable
                    && forall j | 0 <= j < k :: old(candidates[j].Available(now, heartbeatTimeout)) < maxAvailable
      {
        var worker := candidates[i];
        assert candidates[..i + 1] == candidates[..i] + [worker];
        if worker.status == Alive && !worker.stale {
          if now - worker.lastVisit > heartbeatTimeout {
            worker.status := Coma;
          } else {
            var available := worker.capacity - worker.current;
            if available > maxAvailable {
              maxAvailable, target, k := available, worker, i;
            }
          }
        }
      }
      assert candidates[..|candidates|] == candidates;
    }

    /** Selecting a worker changes nothing that the sessions depend on. */
    method SelectQuietly(candidates: seq<Worker>, now: int, heartbeatTimeout: int) returns (target: Worker?)
      requires Valid() && (forall w | w in candidates :: w in workers)
      modifies set w | w in candidates :: w`status
      ensures Valid() && View() == old(View())
      ensures forall w | w in candidates ::
                w.status == if old(w.status == Alive && !w.stale && now - w.lastVisit > heartbeatTimeout) then Coma
                            else old(w.status)
      ensures target == null <==> forall w | w in candidates :: old(w.Available(now, heartbeatTimeout)) <= 0
      ensures target != null ==>
                && target in candidates && old(target.Available(now, heartbeatTimeout)) > 0
                && forall w | w in candidates ::
                     old(w.Available(now, heartbeatTimeout)) <= old(target.Available(now, heartbeatTimeout))
    {
      target := SelectWorker(candidates, now, heartbeatTimeout);
      assert ObjectsView() == old(ObjectsView());
      assert CurrentView() == old(CurrentView()) && CapacityView() == old(CapacityView());
    }

    /** `DispatchTask` when nothing interferes between its critical sections. */
    method DispatchTask(candidates: seq<Worker>, index: int, now: int, heartbeatTimeout: int)
      returns (session: Session?, target: Worker?)
      requires Valid() && (forall w | w in candidates :: w in workers)
      modifies this, set w | w in candidates :: w
      ensures Valid() && workers == old(workers)
      ensures target == null <==> session == null
      ensures forall w | w in candidates ::
                w.status == if old(w.status == Alive && !w.stale && now - w.lastVisit > heartbeatTimeout) then Coma
                            else old(w.status)
      ensures target == null <==> forall w | w in candidates :: old(w.Available(now, heartbeatTimeout)) <= 0
      ensures target == null ==> View() == old(View())
      ensures target != null ==>
                && target in candidates && old(target.Available(now, heartbeatTimeout)) > 0
                && (forall w | w in candidates ::
                      old(w.Available(now, heartbeatTimeout)) <= old(target.Available(now, heartbeatTimeout)))
                && fresh(session)
                && View() == SP.CreateIn(SP.ReserveIn(old(View()), target), session, target, index, now)
    {
      session := null;
      target := SelectQuietly(candidates, now, heartbeatTimeout);
      if target == null {
        return;
      }
      // The second look, at the chosen worker only, cannot fail when nothing interferes.
      assert target.status == Alive && target.current < target.capacity;
      hide ObjectsView, CurrentView, CapacityView;
      Reserve(target);
      session := CreateSession(target, index, now);
    }

    /** The critical section of `DispatchTask` that takes a slot. */
    method Reserve(target: Worker)
      requires target in workers
      modifies this`pending, target`current
      ensures View() == SP.ReserveIn(old(View()), target)
    {
      target.current := target.current + 1;
      pending := pending + multiset{target};
      assert CurrentView() == old(CurrentView())[target := old(target.current) + 1];
      assert CapacityView() == old(CapacityView());
    }
  }

  /** A session that has been idle for too long and is not finished. */
  predicate Expires(session: Session, finishLine: int)
    reads session
  {
    !session.finished && !session.interacting && session.lastUpdate < finishLine
  }
}
