/** The interleaved allocation and the undisturbed one are the same code: when one call takes all the steps, the steps
    of `Allocation` make the turns of `AllocationTurns`. */
module AllocationSolo {
  import opened Allocation
  import AT = AllocationTurns

  /** `s'` is reached from `s` by steps of the start of `sid` only. */
  ghost predicate Alone(cfg: Config, s: State, sid: SessionId, s': State) {
    exists run :: OwnSteps(run, sid) && Legal(cfg, s, run) && Exec(cfg, s, run) == s'
  }

  ghost predicate OwnSteps(run: seq<Step>, sid: SessionId) {
    forall i | 0 <= i < |run| :: run[i].Go? && run[i].sid == sid
  }

  lemma AloneStays(cfg: Config, s: State, sid: SessionId)
    ensures Alone(cfg, s, sid, s)
  {
    assert OwnSteps([], sid) && Legal(cfg, s, []) && Exec(cfg, s, []) == s;
  }

  lemma AloneStep(cfg: Config, s: State, sid: SessionId, created: Container, s1: State, s2: State)
    requires Enabled(s, Go(sid, created)) && Apply(cfg, s, Go(sid, created)) == s1 && Alone(cfg, s1, sid, s2)
    ensures Alone(cfg, s, sid, s2)
  {
    var run :| OwnSteps(run, sid) && Legal(cfg, s1, run) && Exec(cfg, s1, run) == s2;
    var longer := [Go(sid, created)] + run;
    hide Apply, Enabled;
    assert longer[1..] == run && longer[0] == Go(sid, created);
    assert Legal(cfg, s, longer) && Exec(cfg, s, longer) == s2;
    assert OwnSteps(longer, sid);
  }

  lemma {:induction false} AloneTrans(cfg: Config, s: State, sid: SessionId, s1: State, s2: State)
    requires Alone(cfg, s, sid, s1) && Alone(cfg, s1, sid, s2)
    ensures Alone(cfg, s, sid, s2)
  {
    var run :| OwnSteps(run, sid) && Legal(cfg, s, run) && Exec(cfg, s, run) == s1;
    Along(cfg, s, sid, run, s2);
  }

  lemma {:induction false} Along(cfg: Config, s: State, sid: SessionId, run: seq<Step>, s2: State)
    requires OwnSteps(run, sid) && Legal(cfg, s, run) && Alone(cfg, Exec(cfg, s, run), sid, s2)
    ensures Alone(cfg, s, sid, s2)
    decreases |run|
  {
    if run != [] {
      hide Apply, Enabled, Alone;
      var s1 := Apply(cfg, s, run[0]);
      assert OwnSteps(run[1..], sid) by {
        assert forall i | 0 <= i < |run[1..]| :: run[1..][i] == run[i + 1];
      }
      Along(cfg, s1, sid, run[1..], s2);
      AloneStep(cfg, s, sid, run[0].created, s1, s2);
    }
  }

  /** The state in which the start of `sid` stands at this phase, all else being equal. */
  function InPhase(s: State, sid: SessionId, phase: Phase): State
    requires sid in s.starters
  {
    s.(starters := s.starters[sid := s.starters[sid].(phase := phase)])
  }

  /** It has something left to do, and knows the candidates. */
  predicate Working(s: State, sid: SessionId) {
    && sid in s.starters && s.starters[sid].todo != []
    && s.starters[sid].todo[0] in s.starters[sid].candidates
  }

  function Todo(s: State, sid: SessionId): Subtype
    requires Working(s, sid)
  {
    s.starters[sid].todo[0]
  }

  function Existing(s: State, sid: SessionId): seq<Container>
    requires Working(s, sid)
  {
    s.starters[sid].candidates[Todo(s, sid)]
  }

  /** Where the search stops. */
  function Stop(cfg: Config, s: State, sid: SessionId): nat
    requires Working(s, sid)
  {
    AT.First(cfg, Todo(s, sid), s.users, s.uses, Existing(s, sid))
  }

  lemma InPhaseTwice(s: State, sid: SessionId, a: Phase, b: Phase)
    requires sid in s.starters
    ensures InPhase(InPhase(s, sid, a), sid, b) == InPhase(s, sid, b)
  {
    var p := s.starters[sid];
    assert s.starters[sid := p.(phase := a)][sid := p.(phase := b)] == s.starters[sid := p.(phase := b)];
  }

  /** A read moves on and changes nothing else. */
  lemma ReadStep(cfg: Config, s: State, sid: SessionId, phase: Phase)
    requires Enabled(s, Go(sid, 0)) && Working(s, sid)
    requires s.starters[sid].phase.ReadUses? || s.starters[sid].phase.ReadUsers?
    requires NextStarter(cfg, s, s.starters[sid], 0) == s.starters[sid].(phase := phase)
    ensures Apply(cfg, s, Go(sid, 0)) == InPhase(s, sid, phase)
  {}

  /** One candidate is looked at: the search stops there, or goes on to the next. */
  lemma LookAtOne(cfg: Config, s: State, sid: SessionId, i: nat)
    requires Working(s, sid) && s.starters[sid].phase == ReadUses(i) && i < |Existing(s, sid)|
    ensures var here := AT.Eligible(cfg, Todo(s, sid), s.users, s.uses, Existing(s, sid)[i]);
            var next := InPhase(s, sid, if here then Record(i) else ReadUses(i + 1));
            forall end | Alone(cfg, next, sid, end) :: Alone(cfg, s, sid, end)
  {
    var t, c := Todo(s, sid), Existing(s, sid)[i];
    var here := AT.Eligible(cfg, t, s.users, s.uses, c);
    var next := InPhase(s, sid, if here then Record(i) else ReadUses(i + 1));
    forall end | Alone(cfg, next, sid, end) ensures Alone(cfg, s, sid, end) {
      if Reached(cfg.reuse(t), Uses(s, c)) {
        ReadStep(cfg, s, sid, ReadUses(i + 1));
        AloneStep(cfg, s, sid, 0, next, end);
      } else {
        var s1 := InPhase(s, sid, ReadUsers(i));
        ReadStep(cfg, s, sid, ReadUsers(i));
        ReadStep(cfg, s1, sid, if here then Record(i) else ReadUses(i + 1));
        InPhaseTwice(s, sid, ReadUsers(i), if here then Record(i) else ReadUses(i + 1));
        hide Alone, Apply;
        AloneStep(cfg, s1, sid, 0, next, end);
        AloneStep(cfg, s, sid, 0, s1, end);
      }
    }
  }

  /** The search reads on to the first eligible candidate, or to the end. */
  lemma {:induction false} SearchAlone(cfg: Config, s: State, sid: SessionId, i: nat)
    requires Working(s, sid) && s.starters[sid].phase == ReadUses(i) && i <= Stop(cfg, s, sid)
    ensures var n := Stop(cfg, s, sid);
            Alone(cfg, s, sid, InPhase(s, sid, if n == |Existing(s, sid)| then Unlock(false) else Record(n)))
    decreases |Existing(s, sid)| - i
  {
    var n, existing := Stop(cfg, s, sid), Existing(s, sid);
    var end := InPhase(s, sid, if n == |existing| then Unlock(false) else Record(n));
    if i == |existing| {
      ReadStep(cfg, s, sid, Unlock(false));
      AloneStays(cfg, end, sid);
      AloneStep(cfg, s, sid, 0, end, end);
    } else {
      LookAtOne(cfg, s, sid, i);
      hide Alone;
      if AT.Eligible(cfg, Todo(s, sid), s.users, s.uses, existing[i]) {
        assert n == i;
        AloneStays(cfg, end, sid);
      } else {
        var next := InPhase(s, sid, ReadUses(i + 1));
        SearchAlone(cfg, next, sid, i + 1);
        InPhaseTwice(s, sid, ReadUses(i + 1), if n == |existing| then Unlock(false) else Record(n));
      }
    }
  }

  /** The turn of the subtype is over. */
  function Served(p: Starter): Starter
    requires p.todo != []
  {
    Starter(p.todo[1..], p.candidates, if |p.todo| == 1 then Done else WantLock)
  }

  function WithStarter(s: State, sid: SessionId, p: Starter): State {
    s.(starters := s.starters[sid := p])
  }

  function Recorded(s: State, sid: SessionId, c: Container): State {
    s.(users := s.users[c := Users(s, c) + {sid}])
  }

  function Counted(s: State, c: Container): State {
    s.(uses := s.uses[c := Uses(s, c) + 1])
  }

  lemma RecordStep(cfg: Config, s: State, sid: SessionId, n: nat, c: Container)
    requires Working(s, sid) && s.starters[sid].phase == Record(n) && n < |Existing(s, sid)| && c == Existing(s, sid)[n]
    ensures Enabled(s, Go(sid, 0)) && Apply(cfg, s, Go(sid, 0)) == Recorded(InPhase(s, sid, Count(n)), sid, c)
  {}

  lemma CountStep(cfg: Config, s: State, s1: State, sid: SessionId, n: nat, c: Container)
    requires Working(s, sid) && n < |Existing(s, sid)| && c == Existing(s, sid)[n]
    requires s1 == Recorded(InPhase(s, sid, Count(n)), sid, c)
    ensures Enabled(s1, Go(sid, 0)) && Apply(cfg, s1, Go(sid, 0)) == Counted(InPhase(s1, sid, Unlock(true)), c)
  {
    var p := s1.starters[sid];
    assert p == s.starters[sid].(phase := Count(n));
    hide Recorded;
    assert NextStarter(cfg, s1, p, 0) == p.(phase := Unlock(true)) && NextLocks(s1, sid, p) == s1.locks;
    hide NextStarter, NextLocks;
  }

  lemma UnlockStep(cfg: Config, s: State, s2: State, sid: SessionId, base: State)
    requires Working(s, sid) && Todo(s, sid) in s.locks && s.locks[Todo(s, sid)] == sid
    requires sid in s2.starters && s2.starters[sid] == s.starters[sid].(phase := Unlock(true))
    requires base.starters == s.starters && base.locks == s.locks
    requires s2 == base.(starters := s2.starters) && s2.starters == s2.starters[sid := s2.starters[sid]]
    requires s2.starters[sid := Served(s.starters[sid])] == s.starters[sid := Served(s.starters[sid])]
    ensures Enabled(s2, Go(sid, 0))
    ensures Apply(cfg, s2, Go(sid, 0))
         == WithStarter(base, sid, Served(s.starters[sid])).(locks := s.locks - {Todo(s, sid)})
  {}

  /** The session is recorded and counted, and the lock given back. */
  lemma WriteAlone(cfg: Config, s: State, sid: SessionId, n: nat)
    requires Working(s, sid) && s.starters[sid].phase == Record(n) && n < |Existing(s, sid)|
    requires Todo(s, sid) in s.locks && s.locks[Todo(s, sid)] == sid
    ensures var c, p := Existing(s, sid)[n], s.starters[sid];
            Alone(cfg, s, sid,
                  WithStarter(Counted(Recorded(s, sid, c), c), sid, Served(p)).(locks := s.locks - {Todo(s, sid)}))
  {
    var c, p := Existing(s, sid)[n], s.starters[sid];
    var s1 := Recorded(InPhase(s, sid, Count(n)), sid, c);
    var s2 := Counted(InPhase(s1, sid, Unlock(true)), c);
    var end := WithStarter(Counted(Recorded(s, sid, c), c), sid, Served(p)).(locks := s.locks - {Todo(s, sid)});
    hide Alone, Apply, Enabled;
    RecordStep(cfg, s, sid, n, c);
    CountStep(cfg, s, s1, sid, n, c);
    InPhaseTwice(s, sid, Count(n), Unlock(true));
    UnlockStep(cfg, s, s2, sid, Counted(Recorded(s, sid, c), c));
    hide InPhase, Recorded, Counted, WithStarter;
    AloneStays(cfg, end, sid);
    AloneStep(cfg, s2, sid, 0, end, end);
    AloneStep(cfg, s1, sid, 0, s2, end);
    AloneStep(cfg, s, sid, 0, s1, end);
  }

  /** The lock is taken, and the search comes to its end. */
  lemma LockedSearch(cfg: Config, s: State, sid: SessionId)
    requires Working(s, sid) && s.starters[sid].phase == WantLock && Todo(s, sid) !in s.locks
    ensures var n := Stop(cfg, s, sid);
            Alone(cfg, s, sid,
                  InPhase(s, sid, if n == |Existing(s, sid)| then Unlock(false) else Record(n))
                  .(locks := s.locks[Todo(s, sid) := sid]))
  {
    var n := Stop(cfg, s, sid);
    var end := if n == |Existing(s, sid)| then Unlock(false) else Record(n);
    var locked := s.(locks := s.locks[Todo(s, sid) := sid]);
    var s1 := InPhase(locked, sid, ReadUses(0));
    assert Apply(cfg, s, Go(sid, 0)) == s1;
    SearchAlone(cfg, s1, sid, 0);
    InPhaseTwice(locked, sid, ReadUses(0), end);
    assert InPhase(locked, sid, end) == InPhase(s, sid, end).(locks := s.locks[Todo(s, sid) := sid]);
    hide Alone, Apply;
    AloneStep(cfg, s, sid, 0, s1, InPhase(locked, sid, end));
  }

  lemma LockForgotten(s: State, s1: State, sid: SessionId, n: nat, c: Container)
    requires Working(s, sid) && Todo(s, sid) !in s.locks
    requires s1 == InPhase(s, sid, Record(n)).(locks := s.locks[Todo(s, sid) := sid])
    ensures Served(s1.starters[sid]) == Served(s.starters[sid])
    ensures WithStarter(Counted(Recorded(s1, sid, c), c), sid, Served(s.starters[sid]))
            .(locks := s1.locks - {Todo(s, sid)})
         == WithStarter(Counted(Recorded(s, sid, c), c), sid, Served(s.starters[sid]))
  {
    var t, p := Todo(s, sid), s.starters[sid];
    assert s1.starters[sid := Served(p)] == s.starters[sid := Served(p)] && s.locks[t := sid] - {t} == s.locks;
  }

  /** With a candidate to be had, one round under the lock serves the subtype. */
  lemma FoundAlone(cfg: Config, s: State, sid: SessionId)
    requires Working(s, sid) && s.starters[sid].phase == WantLock && Todo(s, sid) !in s.locks
    requires Stop(cfg, s, sid) < |Existing(s, sid)|
    ensures var c, p := Existing(s, sid)[Stop(cfg, s, sid)], s.starters[sid];
            Alone(cfg, s, sid, WithStarter(Counted(Recorded(s, sid, c), c), sid, Served(p)))
  {
    var t, n, p := Todo(s, sid), Stop(cfg, s, sid), s.starters[sid];
    var c := Existing(s, sid)[n];
    var s1 := InPhase(s, sid, Record(n)).(locks := s.locks[t := sid]);
    var end := WithStarter(Counted(Recorded(s, sid, c), c), sid, Served(p));
    LockedSearch(cfg, s, sid);
    WriteAlone(cfg, s1, sid, n);
    hide Alone;
    LockForgotten(s, s1, sid, n, c);
    hide Counted, Recorded, WithStarter, InPhase, Stop;
    AloneTrans(cfg, s, sid, s1, end);
  }

  lemma GiveUpStep(cfg: Config, s: State, s1: State, sid: SessionId)
    requires Working(s, sid) && Todo(s, sid) !in s.locks
    requires s1 == InPhase(s, sid, Unlock(false)).(locks := s.locks[Todo(s, sid) := sid])
    ensures Enabled(s1, Go(sid, 0)) && Apply(cfg, s1, Go(sid, 0)) == InPhase(s, sid, Create)
  {
    var t, p := Todo(s, sid), s.starters[sid];
    assert s.locks[t := sid] - {t} == s.locks;
    assert s1.starters[sid := p.(phase := Create)] == s.starters[sid := p.(phase := Create)];
  }

  lemma CreateStep(cfg: Config, s: State, s2: State, sid: SessionId, created: Container)
    requires Working(s, sid) && s.starters[sid].phase == WantLock && s2 == InPhase(s, sid, Create)
    requires created !in s.shared && created !in s.users && created !in s.uses
    ensures var p, t := s.starters[sid], Todo(s, sid);
            && Enabled(s2, Go(sid, created))
            && Apply(cfg, s2, Go(sid, created))
               == WithStarter(s, sid, p.(candidates := p.candidates[t := p.candidates[t] + [created]]))
                  .(shared := s.shared[created := t])
  {
    var p, t := s.starters[sid], Todo(s, sid);
    var p1 := p.(candidates := p.candidates[t := p.candidates[t] + [created]]);
    assert s2.starters[sid := p1] == s.starters[sid := p1];
  }

  /** Without one, a container is created and joins the candidates. */
  lemma NotFoundAlone(cfg: Config, s: State, sid: SessionId, created: Container)
    requires Working(s, sid) && s.starters[sid].phase == WantLock && Todo(s, sid) !in s.locks
    requires Stop(cfg, s, sid) == |Existing(s, sid)|
    requires created !in s.shared && created !in s.users && created !in s.uses
    ensures var p, t := s.starters[sid], Todo(s, sid);
            Alone(cfg, s, sid,
                  WithStarter(s, sid, p.(candidates := p.candidates[t := p.candidates[t] + [created]]))
                  .(shared := s.shared[created := t]))
  {
    var t, p := Todo(s, sid), s.starters[sid];
    var s1 := InPhase(s, sid, Unlock(false)).(locks := s.locks[t := sid]);
    var s2 := InPhase(s, sid, Create);
    var end := WithStarter(s, sid, p.(candidates := p.candidates[t := p.candidates[t] + [created]]))
               .(shared := s.shared[created := t]);
    hide Alone;
    LockedSearch(cfg, s, sid);
    GiveUpStep(cfg, s, s1, sid);
    CreateStep(cfg, s, s2, sid, created);
    hide Apply, InPhase, WithStarter, Stop;
    AloneStays(cfg, end, sid);
    AloneStep(cfg, s2, sid, created, end, end);
    AloneStep(cfg, s1, sid, 0, s2, end);
    AloneTrans(cfg, s, sid, s1, end);
  }

  /** What the undisturbed turn starts from. */
  function Before(s: State, sid: SessionId, created: Container): AT.Progress
    requires sid in s.starters
  {
    AT.Progress(s.users, s.uses, created, s.starters[sid].candidates, [])
  }

  /** The state after the turn `q`. */
  function AfterTurn(s: State, sid: SessionId, created: Container, q: AT.Progress): State
    requires Working(s, sid)
  {
    WithStarter(s, sid, Served(s.starters[sid].(candidates := q.lists)))
    .(users := q.users, uses := q.uses,
      shared := if q.next == created then s.shared else s.shared[created := Todo(s, sid)])
  }

  /** When nobody interferes, the steps of a start for its next subtype end in just the turn of `AllocationTurns`: the
      same users, uses and candidates, the lock free, and nothing else changed but a container that was created. */
  lemma TurnAlone(cfg: Config, s: State, sid: SessionId, created: Container)
    requires Working(s, sid) && s.starters[sid].phase == WantLock && Todo(s, sid) !in s.locks
    requires created !in s.shared && created !in s.users && created !in s.uses
    ensures var q := AT.Turn(cfg, Before(s, sid, created), Todo(s, sid), Existing(s, sid), sid);
            Alone(cfg, s, sid, AfterTurn(s, sid, created, q))
  {
    hide Alone;
    if Stop(cfg, s, sid) < |Existing(s, sid)| {
      FoundAlone(cfg, s, sid);
      FoundIsTurn(cfg, s, sid, created);
    } else {
      var p := s.starters[sid];
      var p1 := p.(candidates := p.candidates[Todo(s, sid) := Existing(s, sid) + [created]]);
      var s1 := WithStarter(s, sid, p1).(shared := s.shared[created := Todo(s, sid)]);
      NotFoundAlone(cfg, s, sid, created);
      CreatedIsFound(cfg, s, s1, sid, created);
      FoundAlone(cfg, s1, sid);
      CreatedIsTurn(cfg, s, s1, sid, created);
      hide Stop, AfterTurn, Counted, Recorded, WithStarter, Served;
      var q := AT.Turn(cfg, Before(s, sid, created), Todo(s, sid), Existing(s, sid), sid);
      AloneTrans(cfg, s, sid, s1, AfterTurn(s, sid, created, q));
    }
  }

  lemma FoundIsTurn(cfg: Config, s: State, sid: SessionId, created: Container)
    requires Working(s, sid) && Stop(cfg, s, sid) < |Existing(s, sid)|
    ensures var c, p := Existing(s, sid)[Stop(cfg, s, sid)], s.starters[sid];
            var q := AT.Turn(cfg, Before(s, sid, created), Todo(s, sid), Existing(s, sid), sid);
            AfterTurn(s, sid, created, q) == WithStarter(Counted(Recorded(s, sid, c), c), sid, Served(p))
  {
    hide Served, AT.First;
    var p, q := s.starters[sid], AT.Turn(cfg, Before(s, sid, created), Todo(s, sid), Existing(s, sid), sid);
    assert q.lists == p.candidates && p.(candidates := q.lists) == p;
  }

  lemma CreatedIsTurn(cfg: Config, s: State, s1: State, sid: SessionId, created: Container)
    requires Working(s, sid) && Stop(cfg, s, sid) == |Existing(s, sid)|
    requires var t, p := Todo(s, sid), s.starters[sid];
             s1 == WithStarter(s, sid, p.(candidates := p.candidates[t := Existing(s, sid) + [created]]))
                   .(shared := s.shared[created := t])
    ensures var q := AT.Turn(cfg, Before(s, sid, created), Todo(s, sid), Existing(s, sid), sid);
            AfterTurn(s, sid, created, q)
            == WithStarter(Counted(Recorded(s1, sid, created), created), sid, Served(s1.starters[sid]))
  {
    hide Served;
    var p1 := s1.starters[sid];
    var q := AT.Turn(cfg, Before(s, sid, created), Todo(s, sid), Existing(s, sid), sid);
    assert q.lists == p1.candidates && s.starters[sid].(candidates := q.lists) == p1;
    assert s1.starters[sid := Served(p1)] == s.starters[sid := Served(p1)];
  }

  /** And the three steps of an end for one container take the session off it, and nothing else. */
  lemma EndAlone(cfg: Config, s: State, pid: nat)
    requires pid in s.enders && s.enders[pid].todo != [] && s.enders[pid].phase == EndLock
    requires s.enders[pid].todo[0].0 !in s.locks
    ensures var p := s.enders[pid];
            var c := p.todo[0].1;
            && Enabled(s, GoEnd(pid)) && var s1 := Apply(cfg, s, GoEnd(pid));
            && Enabled(s1, GoEnd(pid)) && var s2 := Apply(cfg, s1, GoEnd(pid));
            && Enabled(s2, GoEnd(pid)) && var s3 := Apply(cfg, s2, GoEnd(pid));
            && s3 == s.(users := s3.users, enders := s.enders[pid := Ender(p.sid, p.todo[1..], EndLock)])
            && (forall d :: Users(s3, d) == if d == c then Users(s, d) - {p.sid} else Users(s, d))
  {
    var p := s.enders[pid];
    var t := p.todo[0].0;
    assert s.locks[t := p.sid] - {t} == s.locks;
    var last := Ender(p.sid, p.todo[1..], EndLock);
    var held, freed := p.(phase := EndRelease), p.(phase := EndUnlock);
    assert s.enders[pid := held][pid := freed][pid := last] == s.enders[pid := last];
  }

  lemma CreatedIsFound(cfg: Config, s: State, s1: State, sid: SessionId, created: Container)
    requires Working(s, sid) && Stop(cfg, s, sid) == |Existing(s, sid)|
    requires created !in s.users && created !in s.uses
    requires var t, p := Todo(s, sid), s.starters[sid];
             s1 == WithStarter(s, sid, p.(candidates := p.candidates[t := Existing(s, sid) + [created]]))
                   .(shared := s.shared[created := t])
    ensures Working(s1, sid) && Existing(s1, sid) == Existing(s, sid) + [created]
    ensures Stop(cfg, s1, sid) == |Existing(s, sid)| && Existing(s1, sid)[Stop(cfg, s1, sid)] == created
  {
    var t, existing := Todo(s, sid), Existing(s, sid);
    var longer := existing + [created];
    AT.FirstOfLonger(cfg, t, s.users, s.uses, existing, longer);
    assert AT.Eligible(cfg, t, s.users, s.uses, longer[|existing|]);
  }
}
