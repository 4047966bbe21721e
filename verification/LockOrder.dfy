/** The controller's four levels of reader/writer locks, taken by any number of goroutines.

    A goroutine is the list of lock actions it will perform.  Locks behave as `sync.RWMutex`: a writer
    first announces itself, which keeps new readers out, and then waits for the readers to leave. */
module LockOrder {

  datatype Lock = TaskManager | Worker(w: nat) | SessionManager | Session(s: nat)

  datatype Mode = Read | Write

  datatype Action =
    | Acquire(lock: Lock, mode: Mode)
    | Release(lock: Lock)
    | Call             // a blocking call to a worker
    | Count(w: nat)    // changes `Worker.Current`
    | Look(w: nat)     // reads `Worker.Current`

  type Held = map<Lock, Mode>

  function Level(l: Lock): (n: nat)
    ensures n < 4
  {
    match l
    case TaskManager => 0
    case Worker(_) => 1
    case SessionManager => 2
    case Session(_) => 3
  }

  /** The locking discipline: locks are taken in level order, none is held across a call to a worker
      or at the end, and the load counter of a worker is only touched under the lock of that worker. */
  ghost predicate Disciplined(script: seq<Action>, held: Held)
    decreases |script|
  {
    if script == [] then held == map[]
    else
      match script[0]
      case Acquire(l, m) => Above(l, held) && Disciplined(script[1..], held[l := m])
      case Release(l) => l in held && Disciplined(script[1..], held - {l})
      case Call => held == map[] && Disciplined(script[1..], held)
      case Count(w) => Worker(w) in held && held[Worker(w)] == Write && Disciplined(script[1..], held)
      case Look(w) => Worker(w) in held && Disciplined(script[1..], held)
  }

  ghost predicate Above(l: Lock, held: Held) {
    forall h | h in held :: Level(h) < Level(l)
  }

  // ---------------------------------------------------------------- goroutines in parallel

  datatype Thread = Thread(script: seq<Action>, held: Held, announced: bool)

  type State = map<nat, Thread>

  predicate Wants(t: Thread, l: Lock) {
    t.script != [] && t.script[0].Acquire? && t.script[0].lock == l
  }

  predicate Announced(t: Thread, l: Lock) {
    t.announced && Wants(t, l)
  }

  predicate Holds(t: Thread, l: Lock, m: Mode) {
    l in t.held && t.held[l] == m
  }

  /** Thread `u` keeps `t` from taking its next action. */
  predicate Blocks(t: Thread, u: Thread) {
    t.script != [] && t.script[0].Acquire? &&
    var l := t.script[0].lock;
    if t.announced then l in u.held
    else Announced(u, l) || Holds(u, l, Write)
  }

  /** The wait-for graph. */
  predicate WaitsFor(s: State, t: nat, u: nat) {
    t in s && u in s && t != u && Blocks(s[t], s[u])
  }

  ghost predicate CanStep(s: State, t: nat) {
    t in s && s[t].script != [] && forall u | u in s && u != t :: !Blocks(s[t], s[u])
  }

  /** The next action of `t`; a writer takes two turns. */
  function Advance(t: Thread): Thread
    requires t.script != []
  {
    match t.script[0]
    case Acquire(l, m) =>
      if m == Write && !t.announced then t.(announced := true)
      else Thread(t.script[1..], t.held[l := m], false)
    case Release(l) => Thread(t.script[1..], t.held - {l}, false)
    case _ => t.(script := t.script[1..])
  }

  datatype Event = Step(t: nat) | Spawn(t: nat, script: seq<Action>)

  ghost predicate Enabled(s: State, e: Event) {
    match e
    case Step(t) => CanStep(s, t)
    case Spawn(t, script) => t !in s && Disciplined(script, map[])
  }

  function Apply(s: State, e: Event): State
    requires e.Step? ==> e.t in s && s[e.t].script != []
  {
    match e
    case Step(t) => s[t := Advance(s[t])]
    case Spawn(t, script) => s[t := Thread(script, map[], false)]
  }

  // ---------------------------------------------------------------- the invariant

  ghost predicate ThreadOk(t: Thread) {
    && Disciplined(t.script, t.held)
    && (t.announced ==> t.script != [] && t.script[0].Acquire? && t.script[0].mode == Write)
  }

  /** What two goroutines never have at the same time. */
  ghost predicate Compatible(t: Thread, u: Thread) {
    forall l ::
      && !(Holds(t, l, Write) && l in u.held)
      && !(Announced(t, l) && Announced(u, l))
      && !(Announced(t, l) && Holds(u, l, Write))
  }

  ghost predicate Inv(s: State) {
    && (forall t | t in s :: ThreadOk(s[t]))
    && (forall t, u | t in s && u in s && t != u :: Compatible(s[t], s[u]))
  }

  lemma AdvanceOk(t: Thread)
    requires ThreadOk(t) && t.script != []
    ensures ThreadOk(Advance(t))
  {}

  /** An unblocked step keeps a pair compatible. */
  lemma AdvanceCompatible(t: Thread, u: Thread)
    requires ThreadOk(t) && ThreadOk(u) && t.script != []
    requires Compatible(t, u) && Compatible(u, t) && !Blocks(t, u)
    ensures Compatible(Advance(t), u) && Compatible(u, Advance(t))
  {
    var t' := Advance(t);
    forall l
      ensures !(Holds(t', l, Write) && l in u.held) && !(Holds(u, l, Write) && l in t'.held)
      ensures !(Announced(t', l) && Announced(u, l))
      ensures !(Announced(t', l) && Holds(u, l, Write)) && !(Announced(u, l) && Holds(t', l, Write))
    {
      assert !(Holds(t, l, Write) && l in u.held) && !(Holds(u, l, Write) && l in t.held);
      assert !(Announced(u, l) && Holds(t, l, Write)) && !(Announced(t, l) && Holds(u, l, Write));
    }
  }

  lemma EventKeepsInv(s: State, e: Event)
    requires Inv(s) && Enabled(s, e)
    ensures Inv(Apply(s, e))
  {
    var s' := Apply(s, e);
    if e.Step? {
      AdvanceOk(s[e.t]);
      forall u | u in s && u != e.t ensures Compatible(s'[e.t], s'[u]) && Compatible(s'[u], s'[e.t]) {
        AdvanceCompatible(s[e.t], s[u]);
      }
    }
  }

  ghost predicate Legal(s: State, run: seq<Event>)
    decreases |run|
  {
    run == [] || (Enabled(s, run[0]) && Legal(Apply(s, run[0]), run[1..]))
  }

  ghost function Exec(s: State, run: seq<Event>): State
    requires Legal(s, run)
    decreases |run|
  {
    if run == [] then s else Exec(Apply(s, run[0]), run[1..])
  }

  lemma {:induction false} RunKeepsInv(s: State, run: seq<Event>)
    requires Inv(s) && Legal(s, run)
    ensures Inv(Exec(s, run))
    decreases |run|
  {
    if run != [] {
      EventKeepsInv(s, run[0]);
      RunKeepsInv(Apply(s, run[0]), run[1..]);
    }
  }

  // ---------------------------------------------------------------- no deadlock

  /** How far up the order the lock is that a thread is waiting for. */
  function Rank(t: Thread): (n: nat)
    requires t.script != [] && t.script[0].Acquire?
    ensures n < 8
  {
    2 * Level(t.script[0].lock) + if t.announced then 1 else 0
  }

  /** Whoever blocks a thread is unfinished and, if it waits itself, waits further up. */
  lemma WaitingClimbs(t: Thread, u: Thread)
    requires ThreadOk(t) && ThreadOk(u) && Compatible(t, u) && Compatible(u, t) && Blocks(t, u)
    ensures u.script != []
    ensures u.script[0].Acquire? ==> Rank(t) < Rank(u)
  {
    var l := t.script[0].lock;
    if l in u.held {
      assert u.script != [];
      if u.script[0].Acquire? {
        assert Above(u.script[0].lock, u.held);
      }
    }
  }

  /** `path` follows wait-for edges. */
  predicate WaitPath(s: State, path: seq<nat>) {
    |path| >= 2 && forall i | 0 <= i < |path| - 1 :: WaitsFor(s, path[i], path[i + 1])
  }

  predicate Waiting(s: State, t: nat) {
    t in s && s[t].script != [] && s[t].script[0].Acquire?
  }

  lemma {:induction false} PathClimbs(s: State, path: seq<nat>)
    requires Inv(s) && WaitPath(s, path) && Waiting(s, path[|path| - 1])
    ensures Waiting(s, path[0])
    ensures Rank(s[path[0]]) < Rank(s[path[|path| - 1]])
    decreases |path|
  {
    assert WaitsFor(s, path[0], path[1]);
    WaitingClimbs(s[path[0]], s[path[1]]);
    if |path| > 2 {
      var rest := path[1..];
      forall i | 0 <= i < |rest| - 1 ensures WaitsFor(s, rest[i], rest[i + 1]) {
        assert WaitsFor(s, path[i + 1], path[i + 2]);
      }
      PathClimbs(s, rest);
    }
  }

  /** In every reachable state the wait-for graph has no cycle. */
  lemma NoWaitCycle(run: seq<Event>, path: seq<nat>)
    requires Legal(map[], run) && WaitPath(Exec(map[], run), path)
    ensures path[0] != path[|path| - 1]
  {
    var s := Exec(map[], run);
    RunKeepsInv(map[], run);
    assert WaitsFor(s, path[0], path[1]);
    if path[0] == path[|path| - 1] {
      PathClimbs(s, path);
    }
  }

  /** From a thread that is not done, follow the wait-for edges to one that can move. */
  lemma FindRunnable(s: State, t: nat) returns (u: nat)
    requires Inv(s) && t in s && s[t].script != []
    ensures CanStep(s, u)
    decreases if s[t].script[0].Acquire? then 8 - Rank(s[t]) else 0
  {
    u := t;
    if !CanStep(s, t) {
      var b :| b in s && b != t && Blocks(s[t], s[b]);
      WaitingClimbs(s[t], s[b]);
      u := FindRunnable(s, b);
    }
  }

  ghost predicate AllDone(s: State) {
    forall t | t in s :: s[t].script == []
  }

  /** No run deadlocks: in every reachable state either all goroutines have finished or some goroutine can go on. */
  lemma NoDeadlock(run: seq<Event>)
    requires Legal(map[], run)
    ensures var s := Exec(map[], run); AllDone(s) || exists t :: CanStep(s, t)
  {
    var s := Exec(map[], run);
    RunKeepsInv(map[], run);
    if !AllDone(s) {
      var t :| t in s && s[t].script != [];
      var u := FindRunnable(s, t);
    }
  }

  /** The turns a thread still has to take. */
  function Turns(t: Thread): nat {
    2 * |t.script| - if t.announced && t.script != [] then 1 else 0
  }

  ghost function TotalTurns(s: State): nat
    decreases s.Keys
  {
    if s.Keys == {} then 0
    else
      var t :| t in s.Keys;
      Turns(s[t]) + TotalTurns(s - {t})
  }

  /** The total does not depend on the order of summation. */
  lemma {:induction false} TotalTurnsSplit(s: State, t: nat)
    requires t in s
    ensures TotalTurns(s) == Turns(s[t]) + TotalTurns(s - {t})
    decreases s.Keys
  {
    var c :| c in s.Keys && TotalTurns(s) == Turns(s[c]) + TotalTurns(s - {c});
    if c != t {
      TotalTurnsSplit(s - {c}, t);
      TotalTurnsSplit(s - {t}, c);
      assert s - {c} - {t} == s - {t} - {c};
    }
  }

  lemma StepSpendsTurn(s: State, t: nat)
    requires Inv(s) && CanStep(s, t)
    ensures TotalTurns(Apply(s, Step(t))) < TotalTurns(s)
  {
    var s' := Apply(s, Step(t));
    TotalTurnsSplit(s, t);
    TotalTurnsSplit(s', t);
    assert s' - {t} == s - {t};
  }

  ghost predicate OnlySteps(run: seq<Event>) {
    forall i | 0 <= i < |run| :: run[i].Step?
  }

  /** From every reachable state the goroutines that exist can all run to their end. */
  lemma {:induction false} CanFinish(s: State) returns (run: seq<Event>)
    requires Inv(s)
    ensures OnlySteps(run) && Legal(s, run) && AllDone(Exec(s, run))
    decreases TotalTurns(s)
  {
    if AllDone(s) {
      run := [];
    } else {
      var t :| t in s && s[t].script != [];
      var u := FindRunnable(s, t);
      EventKeepsInv(s, Step(u));
      StepSpendsTurn(s, u);
      hide Inv, TotalTurns;
      var rest := CanFinish(Apply(s, Step(u)));
      run := [Step(u)] + rest;
      assert run[1..] == rest;
    }
  }

  /** Nor can they run for ever: without new goroutines, every run is shorter than the turns left. */
  lemma {:induction false} RunsEnd(s: State, run: seq<Event>)
    requires Inv(s) && OnlySteps(run) && Legal(s, run)
    ensures |run| <= TotalTurns(s)
    decreases |run|
  {
    if run != [] {
      assert run[0].Step?;
      EventKeepsInv(s, run[0]);
      StepSpendsTurn(s, run[0].t);
      assert OnlySteps(run[1..]) by {
        assert forall i | 0 <= i < |run[1..]| :: run[1..][i] == run[i + 1];
      }
      RunsEnd(Apply(s, run[0]), run[1..]);
    }
  }

  /** No two goroutines are ever about to touch the same load counter with one of them writing. */
  lemma CounterRaceFree(run: seq<Event>, t: nat, u: nat, w: nat)
    requires Legal(map[], run)
    requires var s := Exec(map[], run); t in s && u in s && t != u
    requires var s := Exec(map[], run); s[t].script != [] && s[t].script[0] == Count(w)
    ensures var s := Exec(map[], run); s[u].script == [] || s[u].script[0] !in {Count(w), Look(w)}
  {
    var s := Exec(map[], run);
    RunKeepsInv(map[], run);
    assert Holds(s[t], Worker(w), Write);
    assert Compatible(s[t], s[u]);
  }
}
