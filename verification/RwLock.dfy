/** The trainer's writer-preferring reader/writer lock.

    The lock's internal mutex is only held between two suspension points, so a task runs from one
    suspension to the next without interference: each such segment is one step.  A task takes the lock
    at most once at a time. */
module RwLock {

  type Task = nat

  /** Where a task is.  A parked task waits on the condition variable; `notified` says that it has been woken but
      has not run since. */
  datatype Phase =
    | ReaderParked(notified: bool)
    | WriterParked(notified: bool)
    | Reading
    | Writing

  datatype State = State(
    readers: int,
    writerActive: bool,
    waitingWriters: int,
    activeReaderTasks: set<Task>,
    asked: set<Task>,           // tasks that a writer has asked to cancel
    phase: map<Task, Phase>)    // the tasks inside the lock

  datatype Step =
    | ReaderArrives(t: Task)
    | ReaderWakes(t: Task)
    | ReaderLeaves(t: Task)
    | WriterArrives(t: Task)
    | WriterWakes(t: Task)
    | WriterLeaves(t: Task)
    | ReaderCancelled(t: Task, passed: set<Task>)   // cancelled while parked; the wake-up may be passed on
    | WriterCancelled(t: Task, passed: set<Task>)

  const INIT := State(0, false, 0, {}, {}, map[])

  predicate ReaderMustWait(s: State) {
    s.writerActive || s.waitingWriters > 0
  }

  predicate WriterMustWait(s: State) {
    s.writerActive || s.readers > 0
  }

  function Wake(p: Phase): Phase {
    match p
    case ReaderParked(_) => ReaderParked(true)
    case WriterParked(_) => WriterParked(true)
    case _ => p
  }

  function Notify(phase: map<Task, Phase>, who: set<Task>): map<Task, Phase> {
    map t | t in phase :: if t in who then Wake(phase[t]) else phase[t]
  }

  function TryRead(s: State, t: Task): State {
    if ReaderMustWait(s) then s.(phase := s.phase[t := ReaderParked(false)])
    else s.(readers := s.readers + 1, activeReaderTasks := s.activeReaderTasks + {t}, phase := s.phase[t := Reading])
  }

  function TryWrite(s: State, t: Task): State {
    if WriterMustWait(s) then s.(phase := s.phase[t := WriterParked(false)])
    else s.(writerActive := true, waitingWriters := s.waitingWriters - 1, phase := s.phase[t := Writing])
  }

  function Announce(s: State): State {
    s.(waitingWriters := s.waitingWriters + 1, asked := s.asked + s.activeReaderTasks)
  }

  function EndRead(s: State, t: Task): State {
    var phase := s.phase - {t};
    s.(readers := s.readers - 1,
       activeReaderTasks := s.activeReaderTasks - {t},
       asked := s.asked - {t},
       phase := if s.readers == 1 then Notify(phase, phase.Keys) else phase)
  }

  function EndWrite(s: State, t: Task): State {
    var phase := s.phase - {t};
    s.(writerActive := false, phase := Notify(phase, phase.Keys))
  }

  predicate Legal(s: State, step: Step) {
    match step
    case ReaderArrives(t) => t !in s.phase
    case WriterArrives(t) => t !in s.phase
    case ReaderWakes(t) => t in s.phase && s.phase[t] == ReaderParked(true)
    case WriterWakes(t) => t in s.phase && s.phase[t] == WriterParked(true)
    case ReaderLeaves(t) => t in s.phase && s.phase[t] == Reading
    case WriterLeaves(t) => t in s.phase && s.phase[t] == Writing
    case ReaderCancelled(t, _) => t in s.phase && s.phase[t].ReaderParked?
    case WriterCancelled(t, _) => t in s.phase && s.phase[t].WriterParked?
  }

  function Apply(s: State, step: Step): State {
    match step
    case ReaderArrives(t) => TryRead(s, t)
    case ReaderWakes(t) => TryRead(s, t)
    case ReaderLeaves(t) => EndRead(s, t)
    case WriterArrives(t) => TryWrite(Announce(s), t)
    case WriterWakes(t) => TryWrite(s, t)
    case WriterLeaves(t) => EndWrite(s, t)
    case ReaderCancelled(t, passed) => s.(phase := Notify(s.phase - {t}, passed))
    case WriterCancelled(t, passed) =>
      s.(waitingWriters := s.waitingWriters - 1, phase := Notify(s.phase - {t}, passed))
  }

  // ---------------------------------------------------------------- what every run keeps

  function Readers(phase: map<Task, Phase>): set<Task> {
    set t | t in phase && phase[t] == Reading
  }

  function Writers(phase: map<Task, Phase>): set<Task> {
    set t | t in phase && phase[t] == Writing
  }

  function ParkedWriters(phase: map<Task, Phase>): set<Task> {
    set t | t in phase && phase[t].WriterParked?
  }

  /** The fields count what they claim to count. */
  predicate Counted(s: State) {
    && s.activeReaderTasks == Readers(s.phase)
    && s.readers == |Readers(s.phase)|
    && s.waitingWriters == |ParkedWriters(s.phase)|
    && |Writers(s.phase)| == if s.writerActive then 1 else 0
  }

  predicate Exclusive(s: State) {
    s.writerActive ==> s.readers == 0
  }

  /** While a writer waits, everyone who reads has been asked to stop. */
  predicate Pressed(s: State) {
    s.waitingWriters > 0 ==> Readers(s.phase) <= s.asked
  }

  /** A parked task that could go on has a wake-up on its way. */
  predicate NoLostWakeup(s: State) {
    forall t | t in s.phase ::
      && (s.phase[t] == ReaderParked(false) ==> ReaderMustWait(s))
      && (s.phase[t] == WriterParked(false) ==> WriterMustWait(s))
  }

  predicate Safe(s: State) {
    Counted(s) && Exclusive(s) && Pressed(s)
  }

  lemma NotifyCounts(phase: map<Task, Phase>, who: set<Task>)
    ensures Readers(Notify(phase, who)) == Readers(phase)
    ensures Writers(Notify(phase, who)) == Writers(phase)
    ensures ParkedWriters(Notify(phase, who)) == ParkedWriters(phase)
  {}

  lemma PutCounts(phase: map<Task, Phase>, t: Task, p: Phase)
    ensures Readers(phase[t := p]) == if p == Reading then Readers(phase) + {t} else Readers(phase) - {t}
    ensures Writers(phase[t := p]) == if p == Writing then Writers(phase) + {t} else Writers(phase) - {t}
    ensures ParkedWriters(phase[t := p]) ==
            if p.WriterParked? then ParkedWriters(phase) + {t} else ParkedWriters(phase) - {t}
  {}

  lemma DropCounts(phase: map<Task, Phase>, t: Task)
    ensures Readers(phase - {t}) == Readers(phase) - {t}
    ensures Writers(phase - {t}) == Writers(phase) - {t}
    ensures ParkedWriters(phase - {t}) == ParkedWriters(phase) - {t}
  {}

  lemma StepKeepsSafe(s: State, step: Step)
    requires Safe(s) && Legal(s, step)
    ensures Safe(Apply(s, step))
  {
    hide Safe, TryRead, TryWrite, EndRead, EndWrite;
    match step
    case ReaderArrives(t) => ArrivalIsNew(s, t); TryReadKeeps(s, t);
    case ReaderWakes(t) => ArrivalIsNew(s, t); TryReadKeeps(s, t);
    case ReaderLeaves(t) => LeaveKeeps(s, step);
    case WriterArrives(t) => AnnounceKeeps(s, t);
    case WriterWakes(t) => WriterWakeKeeps(s, t);
    case WriterLeaves(t) => LeaveKeeps(s, step);
    case ReaderCancelled(t, passed) => CancelKeeps(s, step);
    case WriterCancelled(t, passed) => CancelKeeps(s, step);
  }

  lemma ArrivalIsNew(s: State, t: Task)
    requires Legal(s, ReaderArrives(t)) || Legal(s, ReaderWakes(t))
    ensures t !in Readers(s.phase) + Writers(s.phase) + ParkedWriters(s.phase)
  {}

  lemma LeaveKeeps(s: State, step: Step)
    requires Safe(s) && Legal(s, step) && (step.ReaderLeaves? || step.WriterLeaves?)
    ensures Safe(Apply(s, step))
  {
    var phase := s.phase - {step.t};
    DropCounts(s.phase, step.t);
    NotifyCounts(phase, phase.Keys);
    assert step.t in Readers(s.phase) || step.t in Writers(s.phase);
    assert step.t !in ParkedWriters(s.phase);
    assert step.t in Readers(s.phase) ==> step.t !in Writers(s.phase);
  }

  lemma CancelKeeps(s: State, step: Step)
    requires Safe(s) && Legal(s, step) && (step.ReaderCancelled? || step.WriterCancelled?)
    ensures Safe(Apply(s, step))
  {
    DropCounts(s.phase, step.t);
    NotifyCounts(s.phase - {step.t}, step.passed);
  }

  lemma AnnounceKeeps(s: State, t: Task)
    requires Safe(s) && Legal(s, WriterArrives(t))
    ensures Safe(TryWrite(Announce(s), t))
  {
    TryWriteKeeps(Announce(s), t);
  }

  lemma WriterWakeKeeps(s: State, t: Task)
    requires Safe(s) && Legal(s, WriterWakes(t))
    ensures Safe(TryWrite(s, t))
  {
    assert ParkedWriters(s.phase) + {t} == ParkedWriters(s.phase);
    TryWriteKeeps(s, t);
  }

  lemma TryReadKeeps(s: State, t: Task)
    requires Safe(s) && t !in Readers(s.phase) + Writers(s.phase) + ParkedWriters(s.phase)
    ensures Safe(TryRead(s, t))
  {
    hide Readers, Writers, ParkedWriters;
    PutCounts(s.phase, t, Reading);
    PutCounts(s.phase, t, ReaderParked(false));
  }

  /** Everything is in order and `t` is counted as waiting, whether it is already parked or about to. */
  predicate ReadyToWrite(s: State, t: Task) {
    && s.activeReaderTasks == Readers(s.phase)
    && s.readers == |Readers(s.phase)|
    && |Writers(s.phase)| == (if s.writerActive then 1 else 0)
    && s.waitingWriters == |ParkedWriters(s.phase) + {t}|
    && Exclusive(s) && Pressed(s)
    && t !in Readers(s.phase) && t !in Writers(s.phase)
  }

  lemma TryWriteKeeps(s: State, t: Task)
    requires ReadyToWrite(s, t)
    ensures Safe(TryWrite(s, t))
  {
    if WriterMustWait(s) { WriterParks(s, t); } else { WriterEnters(s, t); }
  }

  lemma WriterParks(s: State, t: Task)
    requires ReadyToWrite(s, t) && WriterMustWait(s)
    ensures Safe(TryWrite(s, t))
  {
    hide Readers, Writers, ParkedWriters;
    PutCounts(s.phase, t, WriterParked(false));
    assert Readers(s.phase) - {t} == Readers(s.phase);
    assert Writers(s.phase) - {t} == Writers(s.phase);
  }

  lemma WriterEnters(s: State, t: Task)
    requires ReadyToWrite(s, t) && !WriterMustWait(s)
    ensures Safe(TryWrite(s, t))
  {
    hide Readers, Writers, ParkedWriters;
    PutCounts(s.phase, t, Writing);
    assert Readers(s.phase) - {t} == Readers(s.phase);
    assert ParkedWriters(s.phase) - {t} == ParkedWriters(s.phase) + {t} - {t};
  }

  /** A step keeps every wake-up on its way, except the cancellation of the last waiting writer: nobody then tells
      a reader that parked behind it. */
  lemma StepKeepsWakeups(s: State, step: Step)
    requires Safe(s) && Legal(s, step) && NoLostWakeup(s)
    ensures NoLostWakeup(Apply(s, step)) <==> !StrandsReader(s, step)
  {
    ReadersCount(s, step);
    hide Safe, TryRead, TryWrite, EndRead, EndWrite, NoLostWakeup;
    match step
    case ReaderArrives(t) => TryReadWakeups(s, t);
    case ReaderWakes(t) => TryReadWakeups(s, t);
    case ReaderLeaves(t) => EndReadWakeups(s, t);
    case WriterArrives(t) => AnnounceWakeups(s, t);
    case WriterWakes(t) => TryWriteWakeups(s, t);
    case WriterLeaves(t) => EndWriteWakeups(s, t);
    case ReaderCancelled(t, passed) => ReaderCancelWakeups(s, t, passed);
    case WriterCancelled(t, passed) => WriterCancelWakeups(s, t, passed);
  }

  lemma ReadersCount(s: State, step: Step)
    requires Safe(s) && Legal(s, step)
    ensures s.readers >= 0
    ensures step.ReaderLeaves? ==> s.readers >= 1
  {
    if step.ReaderLeaves? { assert step.t in Readers(s.phase); }
  }

  lemma TryReadWakeups(s: State, t: Task)
    requires NoLostWakeup(s) && s.readers >= 0
    ensures NoLostWakeup(TryRead(s, t))
  {}

  lemma TryWriteWakeups(s: State, t: Task)
    requires NoLostWakeup(s)
    ensures NoLostWakeup(TryWrite(s, t))
  {}

  lemma AnnounceWakeups(s: State, t: Task)
    requires NoLostWakeup(s)
    ensures NoLostWakeup(TryWrite(Announce(s), t))
  {
    TryWriteWakeups(Announce(s), t);
  }

  lemma EndReadWakeups(s: State, t: Task)
    requires NoLostWakeup(s) && s.readers >= 1
    ensures NoLostWakeup(EndRead(s, t))
  {}

  lemma EndWriteWakeups(s: State, t: Task)
    ensures NoLostWakeup(EndWrite(s, t))
  {}

  lemma ReaderCancelWakeups(s: State, t: Task, passed: set<Task>)
    requires NoLostWakeup(s)
    ensures NoLostWakeup(s.(phase := Notify(s.phase - {t}, passed)))
  {}

  lemma WriterCancelWakeups(s: State, t: Task, passed: set<Task>)
    requires NoLostWakeup(s) && Legal(s, WriterCancelled(t, passed))
    ensures NoLostWakeup(Apply(s, WriterCancelled(t, passed))) <==> !StrandsReader(s, WriterCancelled(t, passed))
  {
    var step := WriterCancelled(t, passed);
    if StrandsReader(s, step) {
      var r :| r in s.phase && s.phase[r] == ReaderParked(false) && r !in passed;
      assert Apply(s, step).phase[r] == ReaderParked(false);
    }
  }

  /** The last waiting writer is cancelled while nobody writes, and a parked reader is neither woken already nor
      handed the wake-up. */
  predicate StrandsReader(s: State, step: Step) {
    && step.WriterCancelled?
    && !s.writerActive && s.waitingWriters == 1
    && exists r :: r in s.phase && s.phase[r] == ReaderParked(false) && r !in step.passed
  }

  // ---------------------------------------------------------------- runs

  ghost predicate LegalRun(s: State, run: seq<Step>)
    decreases |run|
  {
    run == [] || (Legal(s, run[0]) && LegalRun(Apply(s, run[0]), run[1..]))
  }

  ghost function Exec(s: State, run: seq<Step>): State
    decreases |run|
  {
    if run == [] then s else Exec(Apply(s, run[0]), run[1..])
  }

  /** In every run the counters are exact, a writer shares the lock with nobody, and readers in a writer's way
      have been asked to stop. */
  lemma RunKeepsSafe(run: seq<Step>)
    requires LegalRun(INIT, run)
    ensures Safe(Exec(INIT, run))
    ensures forall w, t | w in Exec(INIT, run).phase && Exec(INIT, run).phase[w] == Writing
                          && t in Exec(INIT, run).phase && t != w ::
              !Exec(INIT, run).phase[t].Reading? && !Exec(INIT, run).phase[t].Writing?
  {
    SafeAlong(INIT, run);
    var s := Exec(INIT, run);
    forall w, t | w in s.phase && s.phase[w] == Writing && t in s.phase && t != w
      ensures !s.phase[t].Reading? && !s.phase[t].Writing?
    {
      assert w in Writers(s.phase);
      assert |Writers(s.phase) - {w}| == 0;
      assert t !in Writers(s.phase) && t !in Readers(s.phase);
    }
  }

  lemma {:induction false} SafeAlong(s: State, run: seq<Step>)
    requires Safe(s) && LegalRun(s, run)
    ensures Safe(Exec(s, run))
    decreases |run|
  {
    if run != [] {
      StepKeepsSafe(s, run[0]);
      SafeAlong(Apply(s, run[0]), run[1..]);
    }
  }

  /** The run never cancels the last waiting writer over the head of a parked reader. */
  ghost predicate StrandsNobody(s: State, run: seq<Step>)
    decreases |run|
  {
    run == [] || (!StrandsReader(s, run[0]) && StrandsNobody(Apply(s, run[0]), run[1..]))
  }

  /** In a run that strands no reader, no parked task ever waits for a wake-up that nobody owes it. */
  lemma {:induction false} RunKeepsWakeups(s: State, run: seq<Step>)
    requires Safe(s) && NoLostWakeup(s) && LegalRun(s, run) && StrandsNobody(s, run)
    ensures NoLostWakeup(Exec(s, run))
    decreases |run|
  {
    if run != [] {
      StepKeepsSafe(s, run[0]);
      StepKeepsWakeups(s, run[0]);
      RunKeepsWakeups(Apply(s, run[0]), run[1..]);
    }
  }

  /** A run in which no waiting writer is cancelled strands nobody. */
  lemma {:induction false} CancelFreeStrandsNobody(s: State, run: seq<Step>)
    requires forall i | 0 <= i < |run| :: !run[i].WriterCancelled?
    ensures StrandsNobody(s, run)
    decreases |run|
  {
    if run != [] {
      assert !run[0].WriterCancelled?;
      CancelFreeStrandsNobody(Apply(s, run[0]), run[1..]);
    }
  }

  /** When the lock is free and somebody is parked, one wake-up that is already on its way lets a task in; if a writer
      is parked it is a writer that gets in. */
  lemma FreeLockIsTaken(s: State) returns (step: Step)
    requires Safe(s) && NoLostWakeup(s)
    requires s.readers == 0 && !s.writerActive && s.phase != map[]
    ensures Legal(s, step) && (step.ReaderWakes? || step.WriterWakes?)
    ensures s.waitingWriters > 0 ==> Apply(s, step).phase[step.t] == Writing
    ensures s.waitingWriters == 0 ==> Apply(s, step).phase[step.t] == Reading
  {
    assert Readers(s.phase) == {} && Writers(s.phase) == {};
    assert forall t | t in s.phase :: t !in Readers(s.phase) && t !in Writers(s.phase);
    if s.waitingWriters > 0 {
      var w :| w in ParkedWriters(s.phase);
      step := WriterWakes(w);
    } else {
      assert forall t | t in s.phase :: t !in ParkedWriters(s.phase);
      var r :| r in s.phase.Keys;
      step := ReaderWakes(r);
    }
  }

  predicate InPhase(s: State, t: Task, phase: Phase) {
    t in s.phase && s.phase[t] == phase
  }

  /** Who gets in, at every point of every run: a reader exactly if nobody writes and no writer is parked, however
      many read; a writer exactly if nobody writes or reads. */
  lemma EntersIff(run: seq<Step>, step: Step)
    requires LegalRun(INIT, run) && Legal(Exec(INIT, run), step)
    ensures var s := Exec(INIT, run);
            && (step.ReaderArrives? || step.ReaderWakes? ==>
                  (InPhase(Apply(s, step), step.t, Reading) <==>
                   forall u | u in s.phase :: !s.phase[u].Writing? && !s.phase[u].WriterParked?))
            && (step.WriterArrives? || step.WriterWakes? ==>
                  (InPhase(Apply(s, step), step.t, Writing) <==>
                   forall u | u in s.phase :: !s.phase[u].Writing? && !s.phase[u].Reading?))
  {
    hide LegalRun, Exec, Legal, Apply, InPhase, Safe;
    SafeAlong(INIT, run);
    if step.ReaderArrives? || step.ReaderWakes? { ReaderEntersIff(Exec(INIT, run), step); }
    if step.WriterArrives? || step.WriterWakes? { WriterEntersIff(Exec(INIT, run), step); }
  }

  lemma ReaderEntersIff(s: State, step: Step)
    requires Safe(s) && (step.ReaderArrives? || step.ReaderWakes?)
    ensures InPhase(Apply(s, step), step.t, Reading) <==>
            forall u | u in s.phase :: !s.phase[u].Writing? && !s.phase[u].WriterParked?
  {
    hide Safe;
    NobodyIff(s);
    assert InPhase(TryRead(s, step.t), step.t, Reading) <==> !ReaderMustWait(s);
  }

  lemma WriterEntersIff(s: State, step: Step)
    requires Safe(s) && (step.WriterArrives? || step.WriterWakes?)
    ensures InPhase(Apply(s, step), step.t, Writing) <==>
            forall u | u in s.phase :: !s.phase[u].Writing? && !s.phase[u].Reading?
  {
    hide Safe;
    NobodyIff(s);
    assert InPhase(TryWrite(s, step.t), step.t, Writing) <==> !WriterMustWait(s);
    assert InPhase(TryWrite(Announce(s), step.t), step.t, Writing) <==> !WriterMustWait(s);
  }

  /** The fields tell who is inside. */
  lemma NobodyIff(s: State)
    requires Safe(s)
    ensures s.writerActive <==> exists u :: u in s.phase && s.phase[u].Writing?
    ensures s.readers > 0 <==> exists u :: u in s.phase && s.phase[u].Reading?
    ensures s.waitingWriters > 0 <==> exists u :: u in s.phase && s.phase[u].WriterParked?
    ensures s.readers >= 0 && s.waitingWriters >= 0
  {
    if Readers(s.phase) != {} { var u :| u in Readers(s.phase); }
    if Writers(s.phase) != {} { var u :| u in Writers(s.phase); }
    if ParkedWriters(s.phase) != {} { var u :| u in ParkedWriters(s.phase); }
    assert forall u | u in s.phase :: s.phase[u].Reading? ==> u in Readers(s.phase);
    assert forall u | u in s.phase :: s.phase[u].Writing? ==> u in Writers(s.phase);
    assert forall u | u in s.phase :: s.phase[u].WriterParked? ==> u in ParkedWriters(s.phase);
  }

  /** Some writer waits in every state that the run passes through. */
  ghost predicate WriterWaitsThroughout(s: State, run: seq<Step>)
    decreases |run|
  {
    s.waitingWriters > 0 && (run == [] || WriterWaitsThroughout(Apply(s, run[0]), run[1..]))
  }

  /** Readers never overtake a waiting writer: over any stretch in which a writer waits, nobody starts reading. */
  lemma {:induction false} WriterBarsReaders(s: State, run: seq<Step>)
    requires Safe(s) && LegalRun(s, run) && WriterWaitsThroughout(s, run)
    ensures Readers(Exec(s, run).phase) <= Readers(s.phase)
    decreases |run|
  {
    if run != [] {
      var s' := Apply(s, run[0]);
      StepKeepsSafe(s, run[0]);
      assert Readers(s'.phase) <= Readers(s.phase);
      WriterBarsReaders(s', run[1..]);
    }
  }

  // ---------------------------------------------------------------- the lost wake-up

  const STRANDING: seq<Step> := [
    WriterArrives(1), ReaderArrives(2), WriterArrives(3), WriterLeaves(1), ReaderWakes(2), WriterCancelled(3, {})]

  /** Cancelling a waiting writer can strand a reader: the lock ends up free, with a reader parked and no step
      left except a new arrival or another cancellation. */
  lemma CancelledWriterStrandsReader()
    ensures LegalRun(INIT, STRANDING)
    ensures var s := Exec(INIT, STRANDING);
            && s.readers == 0 && !s.writerActive && s.waitingWriters == 0
            && s.phase == map[2 := ReaderParked(false)]
            && forall step | Legal(s, step) ::
                 step.ReaderArrives? || step.WriterArrives? || step == ReaderCancelled(2, step.passed)
  {
    hide LegalRun, Exec, Legal, Apply;
    var s := BeforeCancelling();
    LeadsToCancelling();
    var s' := s.(waitingWriters := 0, phase := map[2 := ReaderParked(false)]);
    CancellingStrands(s);
    NobodyLetIn(s');
    OneStep(s, STRANDING[5..], s');
    EmptyRun(s', STRANDING[6..]);
  }

  /** Reader 2 has been woken and gone back to sleep, because writer 3 is waiting. */
  function BeforeCancelling(): State {
    State(0, false, 1, {}, {}, map[2 := ReaderParked(false), 3 := WriterParked(true)])
  }

  lemma LeadsToCancelling()
    ensures LegalRun(BeforeCancelling(), STRANDING[5..]) ==>
              LegalRun(INIT, STRANDING) && Exec(INIT, STRANDING) == Exec(BeforeCancelling(), STRANDING[5..])
  {
    hide LegalRun, Exec;
    var s1 := State(0, true, 0, {}, {}, map[1 := Writing]);
    var s2 := s1.(phase := map[1 := Writing, 2 := ReaderParked(false)]);
    var s3 := s2.(waitingWriters := 1, phase := map[1 := Writing, 2 := ReaderParked(false), 3 := WriterParked(false)]);
    var s4 := s3.(writerActive := false, phase := map[2 := ReaderParked(true), 3 := WriterParked(true)]);
    assert Apply(INIT, STRANDING[0]) == s1;
    assert Apply(s1, STRANDING[1]) == s2;
    assert Apply(s2, STRANDING[2]) == s3;
    assert Apply(s3, STRANDING[3]) == s4;
    assert Apply(s4, STRANDING[4]) == BeforeCancelling();
    assert Legal(s4, STRANDING[4]) && Legal(s3, STRANDING[3]) && Legal(s2, STRANDING[2]);
    hide Legal, Apply;
    OneStep(s4, STRANDING[4..], BeforeCancelling());
    OneStep(s3, STRANDING[3..], s4);
    OneStep(s2, STRANDING[2..], s3);
    OneStep(s1, STRANDING[1..], s2);
    OneStep(INIT, STRANDING, s1);
  }

  lemma CancellingStrands(s: State)
    requires s == BeforeCancelling()
    ensures Legal(s, STRANDING[5])
    ensures Apply(s, STRANDING[5]) == s.(waitingWriters := 0, phase := map[2 := ReaderParked(false)])
  {}

  lemma NobodyLetIn(s: State)
    requires s.phase == map[2 := ReaderParked(false)]
    ensures forall step | Legal(s, step) ::
              step.ReaderArrives? || step.WriterArrives? || step == ReaderCancelled(2, step.passed)
  {}

  lemma OneStep(s: State, run: seq<Step>, s': State)
    requires run != [] && Legal(s, run[0]) && Apply(s, run[0]) == s'
    ensures LegalRun(s', run[1..]) ==> LegalRun(s, run)
    ensures Exec(s, run) == Exec(s', run[1..])
  {}

  lemma EmptyRun(s: State, run: seq<Step>)
    requires run == []
    ensures LegalRun(s, run) && Exec(s, run) == s
  {}

  // ---------------------------------------------------------------- the lock

  class WriteEnforceRWLock {
    var readers: int
    var writerActive: bool
    var waitingWriters: int
    var activeReaderTasks: set<Task>
    var asked: set<Task>
    var phase: map<Task, Phase>

    ghost function View(): State
      reads this
    {
      State(readers, writerActive, waitingWriters, activeReaderTasks, asked, phase)
    }

    ghost predicate Valid()
      reads this
    {
      Safe(View())
    }

    constructor ()
      ensures Valid() && View() == INIT
    {
      readers, writerActive, waitingWriters, activeReaderTasks, asked, phase := 0, false, 0, {}, {}, map[];
    }

    /** `acquire_reader` from its start or from a wake-up to its next suspension or its end. */
    method AcquireReader(t: Task) returns (acquired: bool)
      requires Valid() && (Legal(View(), ReaderArrives(t)) || Legal(View(), ReaderWakes(t)))
      modifies this
      ensures Valid() && View() == TryRead(old(View()), t)
      ensures acquired <==> !old(ReaderMustWait(View()))
      ensures acquired <==> t in activeReaderTasks
    {
      StepKeepsSafe(View(), if t in phase then ReaderWakes(t) else ReaderArrives(t));
      if writerActive || waitingWriters > 0 {
        phase := phase[t := ReaderParked(false)];
        acquired := false;
      } else {
        readers := readers + 1;
        activeReaderTasks := activeReaderTasks + {t};
        phase := phase[t := Reading];
        acquired := true;
      }
    }

    method ReleaseReader(t: Task)
      requires Valid() && Legal(View(), ReaderLeaves(t))
      modifies this
      ensures Valid() && View() == EndRead(old(View()), t)
    {
      StepKeepsSafe(View(), ReaderLeaves(t));
      readers := readers - 1;
      activeReaderTasks := activeReaderTasks - {t};
      asked := asked - {t};
      phase := phase - {t};
      if readers == 0 { NotifyAll(); }
    }

    /** `acquire_writer` from its start: announce, ask the readers to stop, and try. */
    method AcquireWriter(t: Task) returns (acquired: bool)
      requires Valid() && Legal(View(), WriterArrives(t))
      modifies this
      ensures Valid() && View() == TryWrite(Announce(old(View())), t)
      ensures acquired <==> !old(WriterMustWait(View()))
    {
      StepKeepsSafe(View(), WriterArrives(t));
      waitingWriters := waitingWriters + 1;
      asked := asked + activeReaderTasks;
      acquired := ProceedWriter(t);
    }

    /** The loop of `acquire_writer`, from its start or from a wake-up. */
    method ProceedWriter(t: Task) returns (acquired: bool)
      modifies this
      ensures View() == TryWrite(old(View()), t)
      ensures acquired <==> !old(WriterMustWait(View()))
    {
      acquired := !writerActive && readers <= 0;
      if acquired {
        writerActive := true;
        waitingWriters := waitingWriters - 1;
        phase := phase[t := Writing];
      } else {
        phase := phase[t := WriterParked(false)];
      }
    }

    method ReleaseWriter(t: Task)
      requires Valid() && Legal(View(), WriterLeaves(t))
      modifies this
      ensures Valid() && View() == EndWrite(old(View()), t)
    {
      StepKeepsSafe(View(), WriterLeaves(t));
      writerActive := false;
      phase := phase - {t};
      NotifyAll();
    }

    /** The `finally` of a writer cancelled while it waits: it withdraws its announcement and wakes nobody. */
    method CancelWriter(t: Task)
      requires Valid() && Legal(View(), WriterCancelled(t, {}))
      modifies this
      ensures Valid() && View() == Apply(old(View()), WriterCancelled(t, {}))
    {
      StepKeepsSafe(View(), WriterCancelled(t, {}));
      waitingWriters := waitingWriters - 1;
      phase := phase - {t};
      assert phase == Notify(phase, {});
    }

    method NotifyAll()
      modifies this`phase
      ensures phase == Notify(old(phase), old(phase).Keys)
    {
      phase := map t | t in phase :: Wake(phase[t]);
    }
  }
}
