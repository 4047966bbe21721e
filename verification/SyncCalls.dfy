/** One `Sync` of a worker as an object: its critical sections are methods, and the controller's other methods may run
    between them. */
module SyncCalls {
  import opened Options
  import SP = SessionProtocol
  import SM = SessionManager
  import SR = SyncRuns

  class SyncCall {
    const manager: SM.SessionManager
    const worker: SM.Worker
    const report: map<SP.Id, int>
    const time: int
    var gathered: map<SP.Id, SM.Session>
    var unchecked: set<SP.Id>
    var chosen: SM.Session?
    var resumed: set<SP.Id>

    ghost function Parameters(): SR.Call<SM.Worker> {
      SR.Call(worker, report, time)
    }

    ghost function View(): SR.Progress<SM.Session, SM.Worker>
      reads this, manager, manager.objects, manager.workers
    {
      SR.Progress(manager.View(), gathered, unchecked, if chosen == null then None else Some(chosen), resumed)
    }

    /** `GatherSessions` at the start of the loops. */
    constructor (manager: SM.SessionManager, worker: SM.Worker, report: map<SP.Id, int>, time: int)
      requires manager.Valid()
      ensures this.manager == manager && Parameters() == SR.Call(worker, report, time)
      ensures View() == SR.Start(Parameters(), manager.View())
    {
      this.manager, this.worker, this.report, this.time := manager, worker, report, time;
      var ids := manager.GatherSessions(worker);
      gathered := map id | id in ids :: manager.sessions[id];
      unchecked, chosen, resumed := ids, null, {};
    }

    /** One turn of the first loop, up to the call of `FinishSession`. */
    method Check(id: SP.Id)
      requires manager.Valid() && SR.Possible(Parameters(), View(), SR.Check(id))
      modifies this`unchecked, this`chosen
      ensures View() == SR.Move(Parameters(), old(View()), SR.Check(id))
    {
      var session := gathered[id];
      assert manager.ObjectsView()[session] == session.Value();
      unchecked := unchecked - {id};
      if id !in report && session.lastUpdate < time {
        chosen := session;
      }
    }

    /** The rest of that turn. */
    method FinishChosen(now: int)
      requires manager.Valid() && SR.Possible(Parameters(), View(), SR.FinishChosen(now))
      modifies this`chosen, chosen, (if chosen == null then {} else {chosen.worker})`current
      ensures View() == SR.Move(Parameters(), old(View()), SR.FinishChosen(now))
    {
      hide SP.FinishIn, SP.Inv;
      var _ := manager.FinishSession(chosen, false, false, now);
      chosen := null;
    }

    /** One turn of the second loop. */
    method ResumeReported(id: SP.Id, now: int) returns (session: SM.Session, hardSync: bool)
      requires manager.Valid() && worker in manager.workers && unchecked == {} && chosen == null
      requires id in report && id !in resumed && now > time
      modifies this`resumed, manager, manager.objects, worker`current
      ensures manager.Valid()
      ensures id !in old(manager.sessions) ==> fresh(session)
      ensures View() == old(View()).(s := SP.ResumeIn(old(manager.View()), session, worker, id, report[id], time, now),
                                     resumed := old(resumed) + {id})
      ensures hardSync == SP.Classify(old(manager.View()), worker, id, report[id], time).Mismatch?
    {
      hide SP.ResumeIn, SP.Classify, SM.SessionManager.ObjectsView, SM.SessionManager.CurrentView,
           SM.SessionManager.CapacityView;
      session, hardSync := manager.ResumeSession(worker, id, report[id], time, now);
      resumed := resumed + {id};
    }
  }
}
