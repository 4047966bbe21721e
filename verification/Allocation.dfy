/** How worker sessions share containers under concurrency and reuse limits.

    Any number of `start_session` and `end_session` calls interleave at every await.  The store keeps, for each
    container, the set of sessions recorded as using it and a counter of all uses; allocation is guarded by one
    owner-checked lock per subtype.  Clean-up and expiry may strike at any moment, without any lock. */
module Allocation {

  type Subtype = nat
  type Container = nat
  type SessionId = nat

  /** Limits per subtype; zero means unlimited. */
  datatype Config = Config(concurrency: Subtype -> nat, reuse: Subtype -> nat)

  /** Where a `start_session` stands in its loop over the shared subtypes. */
  datatype Phase =
    | WantLock
    | ReadUses(i: nat)    // holds the lock; next: read the total uses of candidate i
    | ReadUsers(i: nat)   // next: read the current users of candidate i
    | Record(i: nat)      // next: record the session as a user of candidate i
    | Count(i: nat)       // next: increment the use counter of candidate i
    | Unlock(found: bool)
    | Create
    | Done

  datatype Starter = Starter(
    todo: seq<Subtype>,                        // the subtypes still to be served, the current one first
    candidates: map<Subtype, seq<Container>>,  // listed before any lock was taken; created ones are appended
    phase: Phase)

  datatype EndPhase = EndLock | EndRelease | EndUnlock

  datatype Ender = Ender(sid: SessionId, todo: seq<(Subtype, Container)>, phase: EndPhase)

  datatype State = State(
    locks: map<Subtype, SessionId>,
    users: map<Container, set<SessionId>>,
    uses: map<Container, nat>,
    shared: map<Container, Subtype>,           // the shared containers created so far
    starters: map<SessionId, Starter>,
    enders: map<nat, Ender>)

  datatype Step =
    | Begin(sid: SessionId, todo: seq<Subtype>, candidates: map<Subtype, seq<Container>>)
    | Go(sid: SessionId, created: Container)
    | BeginEnd(pid: nat, sid: SessionId, held: seq<(Subtype, Container)>)
    | GoEnd(pid: nat)
    | Exclusive(c: Container, sid: SessionId)  // an exclusive container is created and recorded
    | Remove(c: Container)                     // `remove_container`: clean-up, or the end of an exclusive container
    | Expire(c: Container, sid: SessionId)     // an allocation record expires

  function Users(s: State, c: Container): set<SessionId> {
    if c in s.users then s.users[c] else {}
  }

  function Uses(s: State, c: Container): nat {
    if c in s.uses then s.uses[c] else 0
  }

  function Init(): State {
    State(map[], map[], map[], map[], map[], map[])
  }

  // ---------------------------------------------------------------- the lock

  /** `acquire_lock`: granted when free or already held by the same client. */
  predicate CanLock(s: State, t: Subtype, sid: SessionId) {
    t !in s.locks || s.locks[t] == sid
  }

  /** `release_lock`: only the owner's release has an effect. */
  function Unlocked(locks: map<Subtype, SessionId>, t: Subtype, sid: SessionId): map<Subtype, SessionId> {
    if t in locks && locks[t] == sid then locks - {t} else locks
  }

  // ---------------------------------------------------------------- steps

  predicate Reached(limit: nat, n: nat) {
    0 < limit <= n
  }

  predicate Enabled(s: State, step: Step) {
    match step
    case Begin(sid, todo, candidates) =>
      && sid !in s.starters
      && (forall t | t in todo :: t in candidates)
      && (forall t | t in candidates :: forall c | c in candidates[t] :: c in s.shared && s.shared[c] == t)
    case Go(sid, created) =>
      && sid in s.starters && s.starters[sid].todo != [] && s.starters[sid].phase != Done
      && var p := s.starters[sid];
         var t := p.todo[0];
         && t in p.candidates
         && match p.phase {
            case WantLock => CanLock(s, t, sid)
            case ReadUses(i) => i <= |p.candidates[t]|
            case ReadUsers(i) => i < |p.candidates[t]|
            case Record(i) => i < |p.candidates[t]|
            case Count(i) => i < |p.candidates[t]|
            case Create => created !in s.shared && created !in s.users && created !in s.uses
            case _ => true
          }
    case BeginEnd(pid, sid, _) => pid !in s.enders && sid in s.starters && s.starters[sid].phase == Done
    case GoEnd(pid) =>
      && pid in s.enders && s.enders[pid].todo != []
      && (s.enders[pid].phase == EndLock ==> CanLock(s, s.enders[pid].todo[0].0, s.enders[pid].sid))
    case Exclusive(c, _) => c !in s.shared
    case Remove(_) => true
    case Expire(_, _) => true
  }

  /** `start_session` from one await to the next: the caller, the locks, and the store. */
  function NextStarter(cfg: Config, s: State, p: Starter, created: Container): Starter
    requires p.todo != [] && p.todo[0] in p.candidates && p.phase != Done
    requires p.phase.ReadUses? ==> p.phase.i <= |p.candidates[p.todo[0]]|
    requires p.phase.ReadUsers? ==> p.phase.i < |p.candidates[p.todo[0]]|
  {
    var t := p.todo[0];
    var existing := p.candidates[t];
    match p.phase
    case WantLock => p.(phase := ReadUses(0))
    case ReadUses(i) =>
      p.(phase := if i == |existing| then Unlock(false)
                  else if Reached(cfg.reuse(t), Uses(s, existing[i])) then ReadUses(i + 1)
                  else ReadUsers(i))
    case ReadUsers(i) =>
      p.(phase := if Reached(cfg.concurrency(t), |Users(s, existing[i])|) then ReadUses(i + 1) else Record(i))
    case Record(i) => p.(phase := Count(i))
    case Count(i) => p.(phase := Unlock(true))
    case Unlock(found) =>
      if !found then p.(phase := Create)
      else Starter(p.todo[1..], p.candidates, if |p.todo| == 1 then Done else WantLock)
    case Create => Starter(p.todo, p.candidates[t := existing + [created]], WantLock)
  }

  function NextLocks(s: State, sid: SessionId, p: Starter): map<Subtype, SessionId>
    requires p.todo != []
  {
    if p.phase == WantLock then s.locks[p.todo[0] := sid]
    else if p.phase.Unlock? then Unlocked(s.locks, p.todo[0], sid)
    else s.locks
  }

  function StarterStep(cfg: Config, s: State, sid: SessionId, created: Container): State
    requires Enabled(s, Go(sid, created))
  {
    var p := s.starters[sid];
    var existing := p.candidates[p.todo[0]];
    State(
      NextLocks(s, sid, p),
      if p.phase.Record? then s.users[existing[p.phase.i] := Users(s, existing[p.phase.i]) + {sid}] else s.users,
      if p.phase.Count? then s.uses[existing[p.phase.i] := Uses(s, existing[p.phase.i]) + 1] else s.uses,
      if p.phase == Create then s.shared[created := p.todo[0]] else s.shared,
      s.starters[sid := NextStarter(cfg, s, p, created)],
      s.enders)
  }

  /** `end_session` from one await to the next. */
  function EnderStep(s: State, pid: nat): State
    requires Enabled(s, GoEnd(pid))
  {
    var p := s.enders[pid];
    var (t, c) := p.todo[0];
    match p.phase
    case EndLock => s.(locks := s.locks[t := p.sid], enders := s.enders[pid := p.(phase := EndRelease)])
    case EndRelease =>
      s.(users := if c in s.users then s.users[c := s.users[c] - {p.sid}] else s.users,
         enders := s.enders[pid := p.(phase := EndUnlock)])
    case EndUnlock =>
      s.(locks := Unlocked(s.locks, t, p.sid), enders := s.enders[pid := Ender(p.sid, p.todo[1..], EndLock)])
  }

  function Apply(cfg: Config, s: State, step: Step): State
    requires Enabled(s, step)
  {
    match step
    case Begin(sid, todo, candidates) =>
      s.(starters := s.starters[sid := Starter(todo, candidates, if todo == [] then Done else WantLock)])
    case Go(sid, created) => StarterStep(cfg, s, sid, created)
    case BeginEnd(pid, sid, todo) => s.(enders := s.enders[pid := Ender(sid, todo, EndLock)])
    case GoEnd(pid) => EnderStep(s, pid)
    case Exclusive(c, sid) => s.(users := s.users[c := Users(s, c) + {sid}], uses := s.uses[c := Uses(s, c) + 1])
    case Remove(c) => s.(users := s.users - {c}, uses := s.uses - {c})
    case Expire(c, sid) => s.(users := if c in s.users then s.users[c := s.users[c] - {sid}] else s.users)
  }

  // ---------------------------------------------------------------- the invariant

  predicate Critical(p: Starter) {
    p.phase.ReadUses? || p.phase.ReadUsers? || p.phase.Record? || p.phase.Count? || p.phase.Unlock?
  }

  predicate UsesRoom(cfg: Config, s: State, t: Subtype, c: Container) {
    !Reached(cfg.reuse(t), Uses(s, c))
  }

  predicate UsersRoom(cfg: Config, s: State, t: Subtype, c: Container) {
    !Reached(cfg.concurrency(t), |Users(s, c)|)
  }

  /** The lists of a starter hold shared containers of the right subtype. */
  ghost predicate Typed(s: State, p: Starter) {
    && (forall t | t in p.todo :: t in p.candidates)
    && (forall t | t in p.candidates :: forall c | c in p.candidates[t] :: c in s.shared && s.shared[c] == t)
  }

  /** In its critical section a starter holds the lock, and what it has read is still true where it matters. */
  ghost predicate Sound(cfg: Config, s: State, sid: SessionId, p: Starter) {
    && (p.todo == [] <==> p.phase == Done)
    && (Critical(p) ==>
          var t := p.todo[0];
          && t in s.locks && s.locks[t] == sid && t in p.candidates
          && match p.phase {
             case ReadUses(i) => i <= |p.candidates[t]|
             case ReadUsers(i) => i < |p.candidates[t]| && UsesRoom(cfg, s, t, p.candidates[t][i])
             case Record(i) =>
               i < |p.candidates[t]| && UsesRoom(cfg, s, t, p.candidates[t][i])
                   && UsersRoom(cfg, s, t, p.candidates[t][i])
             case Count(i) => i < |p.candidates[t]| && UsesRoom(cfg, s, t, p.candidates[t][i])
             case _ => true
           })
  }

  ghost predicate WithinLimits(cfg: Config, s: State) {
    forall c | c in s.shared ::
      && (cfg.concurrency(s.shared[c]) > 0 ==> |Users(s, c)| <= cfg.concurrency(s.shared[c]))
      && (cfg.reuse(s.shared[c]) > 0 ==> Uses(s, c) <= cfg.reuse(s.shared[c]))
  }

  ghost predicate Inv(cfg: Config, s: State) {
    && (forall sid | sid in s.starters :: Typed(s, s.starters[sid]))
    && (forall sid | sid in s.starters :: Sound(cfg, s, sid, s.starters[sid]))
    && (forall pid | pid in s.enders :: s.enders[pid].sid in s.starters && s.starters[s.enders[pid].sid].phase == Done)
    && WithinLimits(cfg, s)
  }

  /** Nothing that frees capacity, or leaves the locks of others alone, disturbs a starter. */
  lemma SoundStable(cfg: Config, s: State, s': State, sid: SessionId, p: Starter)
    requires Sound(cfg, s, sid, p)
    requires Critical(p) ==> p.todo[0] in s'.locks && s'.locks[p.todo[0]] == sid
    requires forall c :: Critical(p) && c in s.shared && s.shared[c] == p.todo[0] ==>
               |Users(s', c)| <= |Users(s, c)| && Uses(s', c) <= Uses(s, c)
    requires Typed(s, p)
    ensures Sound(cfg, s', sid, p)
  {
    if Critical(p) {
      var t := p.todo[0];
      forall i | 0 <= i < |p.candidates[t]|
        ensures |Users(s', p.candidates[t][i])| <= |Users(s, p.candidates[t][i])|
        ensures Uses(s', p.candidates[t][i]) <= Uses(s, p.candidates[t][i])
      {
        assert p.candidates[t][i] in p.candidates[t];
      }
    }
  }

  /** Two starters are never in the critical section of one subtype at the same time. */
  lemma MutualExclusion(cfg: Config, run: seq<Step>, a: SessionId, b: SessionId)
    requires Legal(cfg, Init(), run)
    requires var s := Exec(cfg, Init(), run);
             a in s.starters && b in s.starters && a != b && Critical(s.starters[a]) && Critical(s.starters[b])
    ensures var s := Exec(cfg, Init(), run);
            s.starters[a].todo != [] && s.starters[b].todo != [] && s.starters[a].todo[0] != s.starters[b].todo[0]
  {
    RunKeepsInv(cfg, Init(), run);
    var s := Exec(cfg, Init(), run);
    assert Sound(cfg, s, a, s.starters[a]) && Sound(cfg, s, b, s.starters[b]);
  }

  /** A step of `start_session` moves that starter alone, and takes no lock from anybody else. */
  lemma StarterMovesAlone(cfg: Config, s: State, sid: SessionId, created: Container)
    requires Enabled(s, Go(sid, created))
    ensures var s' := StarterStep(cfg, s, sid, created);
            && s'.starters.Keys == s.starters.Keys && s'.enders == s.enders
            && (forall other | other in s.starters && other != sid :: s'.starters[other] == s.starters[other])
            && (forall t | t in s.locks && s.locks[t] != sid :: t in s'.locks && s'.locks[t] == s.locks[t])
            && (forall c | c in s.shared :: c in s'.shared && s'.shared[c] == s.shared[c])
  {}

  /** It touches the store only inside the critical section, and only containers of the subtype it has locked. */
  lemma StarterTouches(cfg: Config, s: State, sid: SessionId, created: Container, c: Container)
    requires Enabled(s, Go(sid, created)) && Typed(s, s.starters[sid]) && c in s.shared
    requires !Critical(s.starters[sid]) || s.shared[c] != s.starters[sid].todo[0]
    ensures var s' := StarterStep(cfg, s, sid, created);
            Users(s', c) == Users(s, c) && Uses(s', c) == Uses(s, c)
  {
    var p := s.starters[sid];
    match p.phase
    case Record(i) => assert p.candidates[p.todo[0]][i] in p.candidates[p.todo[0]];
    case Count(i) => assert p.candidates[p.todo[0]][i] in p.candidates[p.todo[0]];
    case _ =>
  }

  /** A step of `start_session` leaves every other starter sound. */
  lemma StarterLeavesOthers(cfg: Config, s: State, sid: SessionId, created: Container, other: SessionId)
    requires Enabled(s, Go(sid, created)) && other in s.starters && other != sid
    requires Typed(s, s.starters[sid]) && Sound(cfg, s, sid, s.starters[sid])
    requires Typed(s, s.starters[other]) && Sound(cfg, s, other, s.starters[other])
    ensures Sound(cfg, StarterStep(cfg, s, sid, created), other, s.starters[other])
    ensures Typed(StarterStep(cfg, s, sid, created), s.starters[other])
  {
    StarterMovesAlone(cfg, s, sid, created);
    hide StarterStep;
    var s' := StarterStep(cfg, s, sid, created);
    var q := s.starters[other];
    forall c | Critical(q) && c in s.shared && s.shared[c] == q.todo[0]
      ensures Users(s', c) == Users(s, c) && Uses(s', c) == Uses(s, c)
    {
      StarterTouches(cfg, s, sid, created, c);
    }
    SoundStable(cfg, s, s', other, q);
  }

  /** Every step of `start_session` leaves that starter sound. */
  lemma StarterStaysSound(cfg: Config, s: State, sid: SessionId, created: Container)
    requires Enabled(s, Go(sid, created)) && Typed(s, s.starters[sid]) && Sound(cfg, s, sid, s.starters[sid])
    ensures var s' := StarterStep(cfg, s, sid, created);
            Typed(s', s'.starters[sid]) && Sound(cfg, s', sid, s'.starters[sid])
  {
    var p := s.starters[sid];
    match p.phase
    case ReadUses(_) => ReadingStaysSound(cfg, s, sid, created);
    case ReadUsers(_) => ReadingStaysSound(cfg, s, sid, created);
    case Record(_) => WritingStaysSound(cfg, s, sid, created);
    case Count(_) => WritingStaysSound(cfg, s, sid, created);
    case Create => CreatedTyped(s, p, created);
    case _ => LockingStaysSound(cfg, s, sid, created);
  }

  lemma LockingStaysSound(cfg: Config, s: State, sid: SessionId, created: Container)
    requires Enabled(s, Go(sid, created)) && Typed(s, s.starters[sid]) && Sound(cfg, s, sid, s.starters[sid])
    requires s.starters[sid].phase.WantLock? || s.starters[sid].phase.Unlock?
    ensures var s' := StarterStep(cfg, s, sid, created);
            Typed(s', s'.starters[sid]) && Sound(cfg, s', sid, s'.starters[sid])
  {
    var p := s.starters[sid];
    assert forall t | t in p.todo[1..] :: t in p.todo;
  }

  lemma ReadingStaysSound(cfg: Config, s: State, sid: SessionId, created: Container)
    requires Enabled(s, Go(sid, created)) && Typed(s, s.starters[sid]) && Sound(cfg, s, sid, s.starters[sid])
    requires s.starters[sid].phase.ReadUses? || s.starters[sid].phase.ReadUsers?
    ensures var s' := StarterStep(cfg, s, sid, created);
            Typed(s', s'.starters[sid]) && Sound(cfg, s', sid, s'.starters[sid])
  {}

  lemma WritingStaysSound(cfg: Config, s: State, sid: SessionId, created: Container)
    requires Enabled(s, Go(sid, created)) && Typed(s, s.starters[sid]) && Sound(cfg, s, sid, s.starters[sid])
    requires s.starters[sid].phase.Record? || s.starters[sid].phase.Count?
    ensures var s' := StarterStep(cfg, s, sid, created);
            Typed(s', s'.starters[sid]) && Sound(cfg, s', sid, s'.starters[sid])
  {}

  lemma CreatedTyped(s: State, p: Starter, created: Container)
    requires Typed(s, p) && p.todo != [] && created !in s.shared
    ensures var t := p.todo[0];
            Typed(s.(shared := s.shared[created := t]),
                  Starter(p.todo, p.candidates[t := p.candidates[t] + [created]], WantLock))
  {}

  lemma StarterStaysWithinLimits(cfg: Config, s: State, sid: SessionId, created: Container)
    requires WithinLimits(cfg, s)
    requires Enabled(s, Go(sid, created)) && Typed(s, s.starters[sid]) && Sound(cfg, s, sid, s.starters[sid])
    ensures WithinLimits(cfg, StarterStep(cfg, s, sid, created))
  {
    var p := s.starters[sid];
    var t := p.todo[0];
    match p.phase
    case WantLock =>
    case ReadUses(_) =>
    case ReadUsers(_) =>
    case Record(i) => assert p.candidates[t][i] in p.candidates[t];
    case Count(i) => assert p.candidates[t][i] in p.candidates[t];
    case Unlock(_) =>
    case Create =>
  }

  /** A step that takes no lock from a critical starter and adds no user or use leaves the invariant of the starters. */
  ghost predicate Frees(s: State, s': State) {
    && s'.shared == s.shared && s'.starters == s.starters
    && (forall c | c in s.shared :: Users(s', c) <= Users(s, c) && Uses(s', c) <= Uses(s, c))
  }

  lemma FreeingKeepsInv(cfg: Config, s: State, s': State)
    requires Inv(cfg, s) && Frees(s, s')
    requires forall sid | sid in s.starters && Critical(s.starters[sid]) && s.starters[sid].todo != [] ::
               var t := s.starters[sid].todo[0];
               t in s.locks && s.locks[t] == sid ==> t in s'.locks && s'.locks[t] == sid
    requires forall pid | pid in s'.enders ::
              s'.enders[pid].sid in s.starters && s.starters[s'.enders[pid].sid].phase == Done
    ensures Inv(cfg, s')
  {
    forall c | c in s.shared ensures |Users(s', c)| <= |Users(s, c)| && Uses(s', c) <= Uses(s, c) {
      SubsetSize(Users(s', c), Users(s, c));
    }
    forall sid | sid in s.starters ensures Typed(s', s.starters[sid]) && Sound(cfg, s', sid, s.starters[sid]) {
      assert Typed(s, s.starters[sid]) && Sound(cfg, s, sid, s.starters[sid]);
      SoundStable(cfg, s, s', sid, s.starters[sid]);
    }
  }

  lemma SubsetSize<T>(a: set<T>, b: set<T>)
    requires a <= b
    ensures |a| <= |b|
  {
    assert b == a + (b - a);
  }

  lemma EnderFrees(s: State, pid: nat)
    requires Enabled(s, GoEnd(pid))
    ensures var s' := EnderStep(s, pid);
            && Frees(s, s')
            && (forall t | t in s.locks && s.locks[t] != s.enders[pid].sid ::
                t in s'.locks && s'.locks[t] == s.locks[t])
            && s'.enders.Keys == s.enders.Keys
            && (forall q | q in s.enders :: s'.enders[q].sid == s.enders[q].sid)
  {
    match s.enders[pid].phase
    case EndLock =>
    case EndRelease =>
    case EndUnlock =>
  }

  lemma EnderKeepsInv(cfg: Config, s: State, pid: nat)
    requires Inv(cfg, s) && Enabled(s, GoEnd(pid))
    ensures Inv(cfg, EnderStep(s, pid))
  {
    assert s.starters[s.enders[pid].sid].phase == Done;
    EnderFrees(s, pid);
    hide EnderStep;
    FreeingKeepsInv(cfg, s, EnderStep(s, pid));
  }

  lemma GoKeepsInv(cfg: Config, s: State, sid: SessionId, created: Container)
    requires Inv(cfg, s) && Enabled(s, Go(sid, created))
    ensures Inv(cfg, StarterStep(cfg, s, sid, created))
  {
    StarterMovesAlone(cfg, s, sid, created);
    assert Typed(s, s.starters[sid]) && Sound(cfg, s, sid, s.starters[sid]);
    StarterStaysSound(cfg, s, sid, created);
    StarterStaysWithinLimits(cfg, s, sid, created);
    hide StarterStep;
    var s' := StarterStep(cfg, s, sid, created);
    forall other | other in s'.starters
      ensures Sound(cfg, s', other, s'.starters[other]) && Typed(s', s'.starters[other])
    {
      if other != sid {
        assert Typed(s, s.starters[other]) && Sound(cfg, s, other, s.starters[other]);
        StarterLeavesOthers(cfg, s, sid, created, other);
      }
    }
    assert s.starters[sid].phase != Done;
  }

  lemma BeginKeepsInv(cfg: Config, s: State, sid: SessionId, todo: seq<Subtype>,
                      candidates: map<Subtype, seq<Container>>)
    requires Inv(cfg, s) && Enabled(s, Begin(sid, todo, candidates))
    ensures Inv(cfg, Apply(cfg, s, Begin(sid, todo, candidates)))
  {
    var s' := Apply(cfg, s, Begin(sid, todo, candidates));
    forall other | other in s'.starters
      ensures Sound(cfg, s', other, s'.starters[other]) && Typed(s', s'.starters[other])
    {
      if other != sid {
        assert Typed(s, s.starters[other]) && Sound(cfg, s, other, s.starters[other]);
        SoundStable(cfg, s, s', other, s.starters[other]);
      }
    }
  }

  lemma StepKeepsInv(cfg: Config, s: State, step: Step)
    requires Inv(cfg, s) && Enabled(s, step)
    ensures Inv(cfg, Apply(cfg, s, step))
  {
    hide Inv, StarterStep, EnderStep;
    match step
    case Begin(sid, todo, candidates) => BeginKeepsInv(cfg, s, sid, todo, candidates);
    case Go(sid, created) => GoKeepsInv(cfg, s, sid, created);
    case GoEnd(pid) => EnderKeepsInv(cfg, s, pid);
    case _ => OtherKeepsInv(cfg, s, step);
  }

  lemma OtherKeepsInv(cfg: Config, s: State, step: Step)
    requires Inv(cfg, s) && Enabled(s, step) && !step.Begin? && !step.Go? && !step.GoEnd?
    ensures Inv(cfg, Apply(cfg, s, step))
  {
    FreeingKeepsInv(cfg, s, Apply(cfg, s, step));
  }

  predicate Legal(cfg: Config, s: State, run: seq<Step>)
    decreases |run|
  {
    run == [] || (Enabled(s, run[0]) && Legal(cfg, Apply(cfg, s, run[0]), run[1..]))
  }

  function Exec(cfg: Config, s: State, run: seq<Step>): State
    requires Legal(cfg, s, run)
    decreases |run|
  {
    if run == [] then s else Exec(cfg, Apply(cfg, s, run[0]), run[1..])
  }

  lemma {:induction false} RunKeepsInv(cfg: Config, s: State, run: seq<Step>)
    requires Inv(cfg, s) && Legal(cfg, s, run)
    ensures Inv(cfg, Exec(cfg, s, run))
    decreases |run|
  {
    if run != [] {
      StepKeepsInv(cfg, s, run[0]);
      RunKeepsInv(cfg, Apply(cfg, s, run[0]), run[1..]);
    }
  }

  /** However session starts, session ends, clean-up and expiry interleave, the recorded users of a shared
      container never exceed a positive concurrency limit, nor its recorded uses a positive reuse limit. */
  lemma LimitsHold(cfg: Config, run: seq<Step>, c: Container)
    requires Legal(cfg, Init(), run) && c in Exec(cfg, Init(), run).shared
    ensures var s := Exec(cfg, Init(), run);
            var t := s.shared[c];
            && (cfg.concurrency(t) > 0 ==> |Users(s, c)| <= cfg.concurrency(t))
            && (cfg.reuse(t) > 0 ==> Uses(s, c) <= cfg.reuse(t))
  {
    RunKeepsInv(cfg, Init(), run);
  }
}
