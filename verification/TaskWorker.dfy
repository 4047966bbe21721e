/** The session map of a task worker: who is registered, and which environment coroutines are running. */
module TaskWorker {

  datatype State = State(
    sessions: map<nat, nat>,       // session_map: session id to its coroutine
    running: map<nat, nat>,        // coroutines that have not ended, with their session id
    cancels: set<(nat, nat)>)      // cancellations under way: session id and coroutine

  datatype Config = Config(concurrency: nat, fullAsync: bool)

  datatype Step =
    | Start(id: nat, task: nat)       // `start_sample` up to its await; refused requests change nothing
    | TaskEnds(task: nat)             // the wrapper unregisters the session
    | Cancel(id: nat)                 // `_cancel` is accepted
    | CancelDone(id: nat, task: nat)  // the end of `cancel_task`

  function Init(): State {
    State(map[], map[], {})
  }

  datatype Verdict = Accepted | AlreadyExists | LimitReached

  function Admit(c: Config, s: State, id: nat): Verdict {
    if id in s.sessions then AlreadyExists
    else if |s.sessions| >= c.concurrency then LimitReached
    else Accepted
  }

  predicate Enabled(c: Config, s: State, step: Step) {
    match step
    case Start(_, task) => task !in s.running
    case TaskEnds(task) => task in s.running
    case Cancel(id) => id in s.sessions
    case CancelDone(id, task) => (id, task) in s.cancels && (c.fullAsync || task !in s.running)
  }

  function Apply(c: Config, s: State, step: Step): State
    requires Enabled(c, s, step)
  {
    match step
    case Start(id, task) =>
      if Admit(c, s, id).Accepted? then s.(sessions := s.sessions[id := task], running := s.running[task := id]) else s
    case TaskEnds(task) => s.(sessions := s.sessions - {s.running[task]}, running := s.running - {task})
    case Cancel(id) => s.(cancels := s.cancels + {(id, s.sessions[id])})
    case CancelDone(id, task) => s.(sessions := s.sessions - {id}, cancels := s.cancels - {(id, task)})
  }

  predicate Legal(c: Config, s: State, run: seq<Step>)
    decreases |run|
  {
    run == [] || (Enabled(c, s, run[0]) && Legal(c, Apply(c, s, run[0]), run[1..]))
  }

  function Exec(c: Config, s: State, run: seq<Step>): State
    requires Legal(c, s, run)
    decreases |run|
  {
    if run == [] then s else Exec(c, Apply(c, s, run[0]), run[1..])
  }

  /** At no time are more sessions registered than the concurrency limit allows. */
  lemma {:induction false} RegisteredWithinLimit(c: Config, s: State, run: seq<Step>)
    requires |s.sessions| <= c.concurrency && Legal(c, s, run)
    ensures |Exec(c, s, run).sessions| <= c.concurrency
    decreases |run|
  {
    if run != [] {
      var s' := Apply(c, s, run[0]);
      match run[0] {
        case Start(id, task) =>
        case TaskEnds(task) => ShrinkSize(s.sessions, s.running[task]);
        case Cancel(_) =>
        case CancelDone(id, _) => ShrinkSize(s.sessions, id);
      }
      RegisteredWithinLimit(c, s', run[1..]);
    }
  }

  lemma ShrinkSize(m: map<nat, nat>, id: nat)
    ensures |m - {id}| <= |m|
  {
    assert (m - {id}).Keys == m.Keys - {id};
  }

  // ---------------------------------------------------------------- coroutines

  /** The ids that a run starts sessions under. */
  function Started(run: seq<Step>): seq<nat> {
    if run == [] then []
    else (if run[0].Start? then [run[0].id] else []) + Started(run[1..])
  }

  /** No session id is used twice. */
  predicate FreshIds(run: seq<Step>) {
    Distinct(Started(run))
  }

  predicate Distinct(ids: seq<nat>) {
    forall i, j | 0 <= i < j < |ids| :: ids[i] != ids[j]
  }

  lemma DistinctCons(id: nat, rest: seq<nat>)
    ensures Distinct([id] + rest) <==> Distinct(rest) && id !in rest
  {
    var ids := [id] + rest;
    assert forall j | 0 <= j < |rest| :: rest[j] == ids[j + 1];
    if Distinct(ids) {
      forall j | 0 <= j < |rest| ensures rest[j] != id {
        assert ids[0] != ids[j + 1];
      }
    }
  }

  /** Every running coroutine is registered under its id, and a cancellation concerns only that coroutine. */
  ghost predicate Tracked(s: State, used: set<nat>) {
    && (forall t | t in s.running :: s.running[t] in s.sessions && s.sessions[s.running[t]] == t)
    && (forall p | p in s.cancels :: p.0 in used && (p.0 in s.sessions ==> s.sessions[p.0] == p.1))
    && s.sessions.Keys <= used
  }

  lemma {:induction false} TrackedRun(c: Config, s: State, run: seq<Step>, used: set<nat>) returns (used': set<nat>)
    requires !c.fullAsync && Tracked(s, used) && Legal(c, s, run) && FreshIds(run)
    requires forall id | id in Started(run) :: id !in used
    ensures Tracked(Exec(c, s, run), used')
    decreases |run|
  {
    used' := used;
    if run != [] {
      var s' := Apply(c, s, run[0]);
      var rest := Started(run[1..]);
      if run[0].Start? {
        assert Started(run) == [run[0].id] + rest;
        DistinctCons(run[0].id, rest);
        assert Tracked(s', used + {run[0].id});
        assert forall id | id in rest :: id in Started(run);
        used' := TrackedRun(c, s', run[1..], used + {run[0].id});
      } else {
        assert Started(run) == rest;
        assert Tracked(s', used);
        used' := TrackedRun(c, s', run[1..], used);
      }
    }
  }

  lemma {:induction false} InjectiveSize(a: set<nat>, f: map<nat, nat>, b: set<nat>)
    requires a <= f.Keys && (forall x | x in a :: f[x] in b)
    requires forall x, y | x in a && y in a && f[x] == f[y] :: x == y
    ensures |a| <= |b|
    decreases |a|
  {
    if a != {} {
      var x :| x in a;
      InjectiveSize(a - {x}, f, b - {f[x]});
    }
  }

  lemma TrackedSize(s: State, used: set<nat>)
    requires Tracked(s, used)
    ensures |s.running| <= |s.sessions|
  {
    InjectiveSize(s.running.Keys, s.running, s.sessions.Keys);
  }

  ghost predicate CoroutinesBounded(c: Config) {
    forall run | Legal(c, Init(), run) && FreshIds(run) :: |Exec(c, Init(), run).running| <= c.concurrency
  }

  /** With fresh ids, the running environments stay within the concurrency limit in every run
      if and only if cancelling waits for the environment, which full-async tasks do not do. */
  lemma CoroutinesBoundedIff(c: Config)
    requires c.concurrency > 0
    ensures CoroutinesBounded(c) <==> !c.fullAsync
  {
    if c.fullAsync {
      CancelledTasksPileUp(c, c.concurrency + 1);
    } else {
      forall run | Legal(c, Init(), run) && FreshIds(run)
        ensures |Exec(c, Init(), run).running| <= c.concurrency
      {
        var used := TrackedRun(c, Init(), run, {});
        TrackedSize(Exec(c, Init(), run), used);
        RegisteredWithinLimit(c, Init(), run);
      }
    }
  }

  /** The full-async run that starts, cancels and drops sessions `n`, ..., `1`. */
  function PileUp(n: nat): seq<Step> {
    if n == 0 then [] else [Start(n, n), Cancel(n), CancelDone(n, n)] + PileUp(n - 1)
  }

  lemma CancelledTasksPileUp(c: Config, n: nat)
    requires c.fullAsync && c.concurrency > 0
    ensures Legal(c, Init(), PileUp(n)) && FreshIds(PileUp(n))
    ensures |Exec(c, Init(), PileUp(n)).running| == n
  {
    PileUpRuns(c, Init(), n);
    PileUpFresh(n);
  }

  lemma {:induction false} PileUpRuns(c: Config, s: State, n: nat)
    requires c.fullAsync && c.concurrency > 0
    requires s.sessions == map[] && s.cancels == {} && (forall t | t in s.running :: t > n)
    ensures Legal(c, s, PileUp(n))
    ensures |Exec(c, s, PileUp(n)).running| == |s.running| + n
    decreases n
  {
    if n > 0 {
      hide Legal, Exec, Apply;
      var s3 := s.(running := s.running[n := n]);
      PileUpRuns(c, s3, n - 1);
      OneSession(c, s, n, PileUp(n - 1), s3);
      assert |s3.running| == |s.running| + 1;
    }
  }

  lemma OneSession(c: Config, s: State, n: nat, rest: seq<Step>, s3: State)
    requires c.fullAsync && c.concurrency > 0
    requires s.sessions == map[] && s.cancels == {} && n !in s.running
    requires s3 == s.(running := s.running[n := n])
    ensures var run := [Start(n, n), Cancel(n), CancelDone(n, n)] + rest;
            Legal(c, s3, rest) ==> Legal(c, s, run) && Exec(c, s, run) == Exec(c, s3, rest)
  {
    var run := [Start(n, n), Cancel(n), CancelDone(n, n)] + rest;
    var s1 := s3.(sessions := map[n := n]);
    var s2 := s1.(cancels := {(n, n)});
    assert Apply(c, s, run[0]) == s1 && Apply(c, s1, run[1]) == s2;
    assert Apply(c, s2, run[2]) == s3;
    assert run[1..][1..] == run[2..] && run[2..][1..] == rest;
    if Legal(c, s3, rest) {
      assert Legal(c, s2, run[2..]) && Exec(c, s2, run[2..]) == Exec(c, s3, rest);
      assert Legal(c, s1, run[1..]) && Exec(c, s1, run[1..]) == Exec(c, s3, rest);
    }
  }

  lemma {:induction false} PileUpFresh(n: nat)
    ensures FreshIds(PileUp(n))
    ensures (forall id | id in Started(PileUp(n)) :: id <= n)
  {
    if n > 0 {
      PileUpFresh(n - 1);
      var rest := PileUp(n - 1);
      StartedCons(CancelDone(n, n), rest);
      StartedCons(Cancel(n), [CancelDone(n, n)] + rest);
      StartedCons(Start(n, n), [Cancel(n)] + ([CancelDone(n, n)] + rest));
      assert PileUp(n) == [Start(n, n)] + ([Cancel(n)] + ([CancelDone(n, n)] + rest));
      assert Started(PileUp(n)) == [n] + Started(rest);
      DistinctCons(n, Started(rest));
    }
  }

  lemma StartedCons(step: Step, rest: seq<Step>)
    ensures Started([step] + rest) == (if step.Start? then [step.id] else []) + Started(rest)
  {
    assert ([step] + rest)[1..] == rest;
  }

  // ---------------------------------------------------------------- the worker object

  class TaskWorker {
    const config: Config
    var sessionMap: map<nat, nat>
    ghost var running: map<nat, nat>
    ghost var cancels: set<(nat, nat)>

    ghost function View(): State
      reads this
    {
      State(sessionMap, running, cancels)
    }

    constructor (config: Config)
      ensures this.config == config && View() == Init()
    {
      this.config := config;
      sessionMap, running, cancels := map[], map[], {};
    }

    method StartSample(id: nat, task: nat) returns (verdict: Verdict)
      requires Enabled(config, View(), Start(id, task))
      modifies this
      ensures verdict.AlreadyExists? <==> id in old(sessionMap)
      ensures verdict.Accepted? <==> id !in old(sessionMap) && |old(sessionMap)| < config.concurrency
      ensures sessionMap == if verdict.Accepted? then old(sessionMap)[id := task] else old(sessionMap)
      ensures View() == Apply(config, old(View()), Start(id, task))
    {
      if id in sessionMap {
        return AlreadyExists;
      }
      if |sessionMap| >= config.concurrency {
        return LimitReached;
      }
      sessionMap := sessionMap[id := task];
      running := running[task := id];
      verdict := Accepted;
    }

    /** What the wrapper does with the session map when the environment of a session has ended. */
    method EndSample(id: nat, task: nat)
      requires Enabled(config, View(), TaskEnds(task)) && running[task] == id
      modifies this
      ensures View() == Apply(config, old(View()), TaskEnds(task))
      ensures sessionMap == old(sessionMap) - {id} && running == old(running) - {task}
    {
      sessionMap := sessionMap - {id};
      running := running - {task};
    }

    /** `_cancel` up to its first await: the coroutine to be cancelled, or nothing for an unknown session. */
    method BeginCancel(id: nat) returns (known: bool, task: nat)
      modifies this
      ensures known <==> id in old(sessionMap)
      ensures known ==> View() == Apply(config, old(View()), Cancel(id)) && task == old(sessionMap)[id]
      ensures known ==> sessionMap == old(sessionMap) && cancels == old(cancels) + {(id, task)}
      ensures !known ==> View() == old(View())
    {
      known, task := id in sessionMap, 0;
      if known {
        task := sessionMap[id];
        cancels := cancels + {(id, task)};
      }
    }

    /** The end of `cancel_task`. */
    method EndCancel(id: nat, task: nat)
      requires Enabled(config, View(), CancelDone(id, task))
      modifies this
      ensures View() == Apply(config, old(View()), CancelDone(id, task))
      ensures sessionMap == old(sessionMap) - {id} && cancels == old(cancels) - {(id, task)}
    {
      sessionMap := sessionMap - {id};
      cancels := cancels - {(id, task)};
    }
  }
}
