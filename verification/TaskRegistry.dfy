/** The controller's registry of tasks and their workers, with the removals that run later in goroutines of their own.
    Every step is one critical section under the registry's lock. */
module TaskRegistry {

  datatype Status = Alive | Coma | Dead

  datatype Info = Info(name: string, address: string, status: Status)

  /** The registered workers of each task, every worker ever created, and the removals that have been started but
      have not run. */
  datatype State<W> = State(tasks: map<string, seq<W>>, info: map<W, Info>, pending: multiset<W>)

  datatype Step<W> =
    | CreateTask(name: string)
    | Update(name: string, address: string, w: W)   // a heartbeat; `w` is the object made if the address is new
    | Schedule(w: W)                                 // a removal is started: the worker is idle in coma, or failed
    | Remove(w: W)                                   // a started removal runs
    | SetStatus(w: W, status: Status)                // `Sync` and `Cancel` write the status of any worker object

  function Init<W>(): State<W> {
    State(map[], map[], multiset{})
  }

  predicate Enabled<W(==)>(s: State<W>, step: Step<W>) {
    match step
    case CreateTask(_) => true
    case Update(_, _, w) => w !in s.info
    case Schedule(w) => w in s.info
    case Remove(w) => w in s.pending && w in s.info
    case SetStatus(w, status) => w in s.info && status != Dead
  }

  predicate At<W(==)>(s: State<W>, w: W, address: string) {
    w in s.info && s.info[w].address == address
  }

  /** The place of the first worker with the address, or the end. */
  function FirstAt<W(==)>(s: State<W>, workers: seq<W>, address: string): (i: nat)
    ensures i <= |workers| && (i < |workers| ==> At(s, workers[i], address))
    ensures forall k | 0 <= k < i :: !At(s, workers[k], address)
  {
    if workers == [] || At(s, workers[0], address) then 0 else 1 + FirstAt(s, workers[1..], address)
  }

  /** The workers with the address in the other tasks. */
  function OthersAt<W(==)>(s: State<W>, name: string, address: string): set<W> {
    set n, i | n in s.tasks && n != name && 0 <= i < |s.tasks[n]| && At(s, s.tasks[n][i], address) :: s.tasks[n][i]
  }

  function WithStatus<W(==)>(info: map<W, Info>, w: W, status: Status): map<W, Info>
    requires w in info
  {
    info[w := info[w].(status := status)]
  }

  function CreateTaskIn<W(==)>(s: State<W>, name: string): State<W> {
    if name in s.tasks && s.tasks[name] != [] then s else s.(tasks := s.tasks[name := []])
  }

  function UpdateIn<W(==)>(s: State<W>, name: string, address: string, w: W): State<W> {
    if name !in s.tasks then s
    else
      var workers := s.tasks[name];
      var i := FirstAt(s, workers, address);
      if i < |workers| then s.(info := WithStatus(s.info, workers[i], Alive))
      else Registered(s, name, address, w)
  }

  /** The worker is listed, and everybody else with its address is to be removed. */
  function Registered<W(==)>(s: State<W>, name: string, address: string, w: W): State<W>
    requires name in s.tasks
  {
    State(s.tasks[name := s.tasks[name] + [w]], s.info[w := Info(name, address, Alive)],
          s.pending + multiset(OthersAt(s, name, address)))
  }

  /** The sequence without the first occurrence. */
  function Less<W(==)>(workers: seq<W>, w: W): seq<W> {
    if workers == [] then [] else if workers[0] == w then workers[1..] else [workers[0]] + Less(workers[1..], w)
  }

  predicate Removes<W(==)>(s: State<W>, w: W)
    requires w in s.info
  {
    s.info[w].name in s.tasks && s.info[w].status != Dead
  }

  function RemoveIn<W(==)>(s: State<W>, w: W): State<W>
    requires w in s.info
  {
    if !Removes(s, w) then s
    else
      var name := s.info[w].name;
      var rest := Less(s.tasks[name], w);
      s.(tasks := if rest == [] then s.tasks - {name} else s.tasks[name := rest], info := WithStatus(s.info, w, Dead))
  }

  function Apply<W(==)>(s: State<W>, step: Step<W>): State<W>
    requires Enabled(s, step)
  {
    match step
    case CreateTask(name) => CreateTaskIn(s, name)
    case Update(name, address, w) => UpdateIn(s, name, address, w)
    case Schedule(w) => s.(pending := s.pending + multiset{w})
    case Remove(w) => RemoveIn(s.(pending := s.pending - multiset{w}), w)
    case SetStatus(w, status) => s.(info := WithStatus(s.info, w, status))
  }

  // ---------------------------------------------------------------- what every run keeps

  /** A registered worker is known, belongs to the task it is listed under, and is not dead. */
  predicate Listed<W(==)>(s: State<W>) {
    forall n, i | n in s.tasks && 0 <= i < |s.tasks[n]| ::
      s.tasks[n][i] in s.info && s.info[s.tasks[n][i]].name == n && s.info[s.tasks[n][i]].status != Dead
  }

  /** No two workers of a task share an address. */
  predicate LocallyUnique<W(==)>(s: State<W>)
    requires Listed(s)
  {
    forall n, i, j | n in s.tasks && 0 <= i < j < |s.tasks[n]| ::
      s.info[s.tasks[n][i]].address != s.info[s.tasks[n][j]].address
  }

  predicate OnList<W(==)>(s: State<W>, u: W) {
    u in s.info && s.info[u].name in s.tasks && u in s.tasks[s.info[u].name]
  }

  /** Of two workers of different tasks with the same address, one is about to be removed. */
  ghost predicate Contested<W(!new)>(s: State<W>) {
    forall u, v | OnList(s, u) && OnList(s, v) && Rivals(s.info[u], s.info[v]) :: u in s.pending || v in s.pending
  }

  predicate Rivals(a: Info, b: Info) {
    a.name != b.name && a.address == b.address
  }

  ghost predicate Inv<W(!new)>(s: State<W>) {
    Listed(s) && LocallyUnique(s) && Contested(s)
  }

  lemma {:induction false} LessSpec<W>(workers: seq<W>, w: W)
    ensures forall i | 0 <= i < |Less(workers, w)| :: Less(workers, w)[i] in workers
    ensures w !in workers ==> Less(workers, w) == workers
    ensures (forall i, j | 0 <= i < j < |workers| :: workers[i] != workers[j]) ==> w !in Less(workers, w)
    ensures forall i | 0 <= i < |workers| && workers[i] != w :: workers[i] in Less(workers, w)
    ensures |Less(workers, w)| == |workers| - (if w in workers then 1 else 0)
    decreases |workers|
  {
    if workers != [] && workers[0] != w { LessSpec(workers[1..], w); }
  }

  /** The rest keeps its order. */
  lemma {:induction false} LessKeepsPairs<W>(workers: seq<W>, w: W, i: nat, j: nat) returns (i': nat, j': nat)
    requires i < j < |Less(workers, w)|
    ensures i' < j' < |workers| && workers[i'] == Less(workers, w)[i] && workers[j'] == Less(workers, w)[j]
    decreases |workers|
  {
    if workers[0] == w {
      i', j' := i + 1, j + 1;
    } else if i == 0 {
      LessSpec(workers[1..], w);
      assert Less(workers, w)[j] == Less(workers[1..], w)[j - 1];
      var k :| 0 <= k < |workers[1..]| && workers[1..][k] == Less(workers[1..], w)[j - 1];
      i', j' := 0, k + 1;
    } else {
      i', j' := LessKeepsPairs(workers[1..], w, i - 1, j - 1);
      i', j' := i' + 1, j' + 1;
    }
  }

  lemma CreateKeepsInv<W(!new)>(s: State<W>, name: string)
    requires Inv(s)
    ensures Inv(CreateTaskIn(s, name))
  {}

  lemma StatusKeepsInv<W(!new)>(s: State<W>, w: W, status: Status)
    requires Inv(s) && w in s.info && status != Dead
    ensures Inv(s.(info := WithStatus(s.info, w, status)))
  {}

  lemma UpdateKeepsInv<W(!new)>(s: State<W>, name: string, address: string, w: W)
    requires Inv(s) && w !in s.info
    ensures Inv(UpdateIn(s, name, address, w))
  {
    if name in s.tasks {
      var workers := s.tasks[name];
      var i := FirstAt(s, workers, address);
      if i < |workers| { StatusKeepsInv(s, workers[i], Alive); } else { RegisterKeepsInv(s, name, address, w); }
    }
  }

  lemma RegisterKeepsInv<W(!new)>(s: State<W>, name: string, address: string, w: W)
    requires Inv(s) && w !in s.info && name in s.tasks && FirstAt(s, s.tasks[name], address) == |s.tasks[name]|
    ensures Inv(Registered(s, name, address, w))
  {
  }

  lemma RemoveKeepsInv<W(!new)>(s: State<W>, w: W)
    requires Inv(s) && w in s.pending && w in s.info
    ensures Inv(RemoveIn(s.(pending := s.pending - multiset{w}), w))
  {
    if Removes(s, w) {
      RemovedShrinks(s, w);
      RemovePairs(s, w);
    }
    RemoveContested(s, w);
  }

  lemma RemoveContested<W(!new)>(s: State<W>, w: W)
    requires Inv(s) && w in s.info
    ensures Contested(RemoveIn(s.(pending := s.pending - multiset{w}), w))
  {
    var s' := RemoveIn(s.(pending := s.pending - multiset{w}), w);
    forall u | OnList(s', u) ensures OnList(s, u) && u != w {
      if Removes(s, w) { RemovedShrinks(s, w); }
    }
  }

  lemma RemovePairs<W(!new)>(s: State<W>, w: W)
    requires Inv(s) && w in s.info && Removes(s, w) && Listed(RemoveIn(s, w))
    ensures LocallyUnique(RemoveIn(s, w))
  {
    var s', name := RemoveIn(s, w), s.info[w].name;
    forall n, i, j | n in s'.tasks && 0 <= i < j < |s'.tasks[n]|
      ensures s'.info[s'.tasks[n][i]].address != s'.info[s'.tasks[n][j]].address
    {
      if n == name { var i', j' := LessKeepsPairs(s.tasks[name], w, i, j); }
    }
  }

  /** After a removal the worker is in no task, and every other task is as before. */
  lemma RemovedShrinks<W(!new)>(s: State<W>, w: W)
    requires Inv(s) && w in s.info && Removes(s, w)
    ensures var s' := RemoveIn(s, w);
            && Listed(s')
            && (forall n | n in s'.tasks ::
                  n in s.tasks && w !in s'.tasks[n] && forall u | u in s'.tasks[n] :: u in s.tasks[n])
  {
    var name := s.info[w].name;
    LessSpec(s.tasks[name], w);
    forall i, j | 0 <= i < j < |s.tasks[name]| ensures s.tasks[name][i] != s.tasks[name][j] {
      assert s.info[s.tasks[name][i]].address != s.info[s.tasks[name][j]].address;
    }
  }

  lemma StepKeepsInv<W(!new)>(s: State<W>, step: Step<W>)
    requires Inv(s) && Enabled(s, step)
    ensures Inv(Apply(s, step))
  {
    hide Inv, CreateTaskIn, UpdateIn, RemoveIn;
    match step
    case CreateTask(name) => CreateKeepsInv(s, name);
    case Update(name, address, w) => UpdateKeepsInv(s, name, address, w);
    case Schedule(w) => ScheduleKeepsInv(s, w);
    case Remove(w) => RemoveKeepsInv(s, w);
    case SetStatus(w, status) => StatusKeepsInv(s, w, status);
  }

  lemma ScheduleKeepsInv<W(!new)>(s: State<W>, w: W)
    requires Inv(s)
    ensures Inv(s.(pending := s.pending + multiset{w}))
  {}

  predicate Legal<W(==)>(s: State<W>, run: seq<Step<W>>)
    decreases |run|
  {
    run == [] || (Enabled(s, run[0]) && Legal(Apply(s, run[0]), run[1..]))
  }

  function Exec<W(==)>(s: State<W>, run: seq<Step<W>>): State<W>
    requires Legal(s, run)
    decreases |run|
  {
    if run == [] then s else Exec(Apply(s, run[0]), run[1..])
  }

  lemma {:induction false} RunKeepsInv<W(!new)>(s: State<W>, run: seq<Step<W>>)
    requires Inv(s) && Legal(s, run)
    ensures Inv(Exec(s, run))
    decreases |run|
  {
    if run != [] {
      StepKeepsInv(s, run[0]);
      RunKeepsInv(Apply(s, run[0]), run[1..]);
    }
  }

  /** A worker that moved to another task is eventually forgotten by the old one: whenever no removal is under way, no
      address is registered twice, in whatever tasks, and no registered worker is dead. */
  lemma AddressesUnique<W(!new)>(run: seq<Step<W>>)
    requires Legal(Init(), run)
    ensures var s := Exec(Init(), run);
            && Listed(s)
            && (s.pending == multiset{} ==>
                  forall m, n, i, j | m in s.tasks && n in s.tasks && 0 <= i < |s.tasks[m]| && 0 <= j < |s.tasks[n]|
                                      && s.info[s.tasks[m][i]].address == s.info[s.tasks[n][j]].address ::
                    m == n && i == j)
  {
    RunKeepsInv(Init(), run);
    var s := Exec(Init(), run);
    hide Legal, Exec, Init;
    if s.pending == multiset{} {
      forall m, n, i, j | m in s.tasks && n in s.tasks && 0 <= i < |s.tasks[m]| && 0 <= j < |s.tasks[n]|
                          && s.info[s.tasks[m][i]].address == s.info[s.tasks[n][j]].address
        ensures m == n && i == j
      {
        assert OnList(s, s.tasks[m][i]) && OnList(s, s.tasks[n][j]);
      }
    }
  }

  // ---------------------------------------------------------------- who is registered

  /** Nothing but its own removal takes a worker off its list. */
  lemma OnlyRemovalUnlists<W(!new)>(s: State<W>, step: Step<W>, u: W)
    requires Inv(s) && Enabled(s, step) && OnList(s, u) && step != Remove(u)
    ensures OnList(Apply(s, step), u)
  {
    if step.Remove? && Removes(s, step.w) {
      LessSpec(s.tasks[s.info[step.w].name], step.w);
      var name := s.info[u].name;
      var i :| 0 <= i < |s.tasks[name]| && s.tasks[name][i] == u;
    }
  }

  /** And nothing but a heartbeat of its own, for a task that exists and has nobody at its address, puts one there. */
  lemma OnlyHeartbeatLists<W(!new)>(s: State<W>, step: Step<W>, u: W)
    requires Inv(s) && Enabled(s, step) && !OnList(s, u)
    ensures OnList(Apply(s, step), u) <==>
              && step.Update? && step.w == u && step.name in s.tasks
              && forall v | v in s.tasks[step.name] :: s.info[v].address != step.address
  {
    if step.Remove? && Removes(s, step.w) {
      LessSpec(s.tasks[s.info[step.w].name], step.w);
    }
  }

  // ---------------------------------------------------------------- when a task disappears

  /** A removal deletes the task exactly when its worker is not dead and the task has no other worker; in particular
      a task without workers is deleted too. */
  lemma RemoveDeletesIff<W(!new)>(s: State<W>, w: W)
    requires Inv(s) && w in s.info
    ensures var name := s.info[w].name;
            (name in s.tasks && name !in RemoveIn(s, w).tasks) <==>
            (s.info[w].status != Dead && name in s.tasks && forall u | u in s.tasks[name] :: u == w)
  {
    if Removes(s, w) {
      var name := s.info[w].name;
      var workers := s.tasks[name];
      LessSpec(workers, w);
      RemovedShrinks(s, w);
      if forall u | u in workers :: u == w {
        assert |workers| > 0 ==> workers[0] == w;
        if |Less(workers, w)| > 0 { assert Less(workers, w)[0] in workers; }
      }
    }
  }

  /** A removal of a worker that is still registered takes out that worker and nothing else. */
  lemma RemoveTakesOne<W(!new)>(s: State<W>, w: W)
    requires Inv(s) && w in s.info && s.info[w].name in s.tasks && w in s.tasks[s.info[w].name]
    ensures var s' := RemoveIn(s, w);
            && s'.info[w].status == Dead
            && (forall n | n in s'.tasks :: w !in s'.tasks[n])
            && (forall n, u | n in s.tasks && u in s.tasks[n] && u != w :: n in s'.tasks && u in s'.tasks[n])
  {
    var name := s.info[w].name;
    var k :| 0 <= k < |s.tasks[name]| && s.tasks[name][k] == w;
    assert Removes(s, w);
    LessSpec(s.tasks[name], w);
    RemovedShrinks(s, w);
    forall n, u | n in s.tasks && u in s.tasks[n] && u != w
      ensures n in RemoveIn(s, w).tasks && u in RemoveIn(s, w).tasks[n]
    {
      if n == name {
        var i :| 0 <= i < |s.tasks[n]| && s.tasks[n][i] == u;
        assert u in Less(s.tasks[name], w);
      }
    }
  }

  /** A task is created, its worker removed by one of two started removals and brought back to coma by a failed call,
      and the task is created anew. */
  function BeforeLateRemoval(): seq<Step<nat>> {
    [CreateTask("t"), Update("t", "a", 0), Schedule(0), Schedule(0), Remove(0), SetStatus(0, Coma), CreateTask("t")]
  }

  const ALIVE0: map<nat, Info> := map[0 := Info("t", "a", Alive)]
  const DEAD0: map<nat, Info> := map[0 := Info("t", "a", Dead)]
  const COMA0: map<nat, Info> := map[0 := Info("t", "a", Coma)]
  const REGISTERED: State<nat> := State(map["t" := [0]], ALIVE0, multiset{0, 0})
  const RECREATED: State<nat> := State(map["t" := []], COMA0, multiset{0})

  lemma UpToRegistered()
    ensures var run := BeforeLateRemoval();
            Legal(REGISTERED, run[4..]) ==> Legal(Init(), run) && Exec(Init(), run) == Exec(REGISTERED, run[4..])
  {
    var run := BeforeLateRemoval();
    var none: map<nat, Info> := map[];
    var s1: State<nat> := State(map["t" := []], none, multiset{});
    var s2: State<nat> := State(map["t" := [0]], ALIVE0, multiset{});
    var s3: State<nat> := State(map["t" := [0]], ALIVE0, multiset{0});
    RegisterFirst(s1, s2);
    hide Legal, Exec, UpdateIn;
  }

  lemma FromRegistered()
    ensures var run := BeforeLateRemoval()[4..];
            Legal(REGISTERED, run) && Exec(REGISTERED, run) == RECREATED
  {
    var run := BeforeLateRemoval();
    var s5: State<nat> := State(map[], DEAD0, multiset{0});
    var s6: State<nat> := State(map[], COMA0, multiset{0});
    assert Less([0 as nat], 0) == [];
    assert RemoveIn(State(map["t" := [0]], ALIVE0, multiset{0}), 0) == s5;
    hide Legal, Exec, RemoveIn;
  }

  /** The second removal then deletes the new task, which never had that worker. */
  lemma LateRemovalDeletesNewTask()
    ensures Legal(Init(), BeforeLateRemoval())
    ensures var s := Exec(Init(), BeforeLateRemoval());
            s.tasks == map["t" := []] && Enabled(s, Remove(0)) && Apply(s, Remove(0)).tasks == map[]
  {
    UpToRegistered();
    FromRegistered();
    hide Legal, Exec;
  }

  lemma RegisterFirst(s1: State<nat>, s2: State<nat>)
    requires s1 == State(map["t" := []], map[], multiset{})
    requires s2 == State(map["t" := [0]], map[0 as nat := Info("t", "a", Alive)], multiset{})
    ensures UpdateIn(s1, "t", "a", 0) == s2
  {
    assert OthersAt(s1, "t", "a") == {};
    assert s1.tasks["t"] == [] && s1.tasks["t"] + [0 as nat] == [0 as nat];
    assert Registered(s1, "t", "a", 0).tasks == map["t" := [0 as nat]];
    assert Registered(s1, "t", "a", 0).pending == multiset{};
  }

  // ---------------------------------------------------------------- the task manager

  class Worker {
    const name: string
    const address: string
    var capacity: int
    var current: int
    var lastVisit: int
    var status: Status

    constructor (name: string, address: string, capacity: int, now: int)
      ensures this.name == name && this.address == address && this.capacity == capacity
      ensures current == 0 && lastVisit == now && status == Alive
    {
      this.name, this.address, this.capacity := name, address, capacity;
      current, lastVisit, status := 0, now, Alive;
    }
  }

  class TaskManager {
    var tasks: map<string, seq<Worker>>
    ghost var workers: set<Worker>         // every worker created so far
    ghost var pending: multiset<Worker>    // removals started but not run

    ghost function InfoView(): map<Worker, Info>
      reads this`workers, workers
    {
      map w | w in workers :: Info(w.name, w.address, w.status)
    }

    ghost function View(): State<Worker>
      reads this, workers
    {
      State(tasks, InfoView(), pending)
    }

    ghost predicate Valid()
      reads this
    {
      forall n, i | n in tasks && 0 <= i < |tasks[n]| :: tasks[n][i] in workers
    }

    constructor ()
      ensures Valid() && View() == Init()
    {
      tasks, workers, pending := map[], {}, multiset{};
    }

    /** A heartbeat: `null` is the error of a bad argument or an unknown task. */
    method UpdateWorker(name: string, address: string, capacity: int, now: int) returns (worker: Worker?)
      requires Valid()
      modifies this, workers
      ensures Valid() && old(workers) <= workers
      ensures worker == null <==> address == "" || capacity <= 0 || name !in old(tasks)
      ensures worker == null ==> View() == old(View())
      ensures worker != null ==>
                && name in tasks && worker in tasks[name]
                && View() == UpdateIn(old(View()), name, address, worker)
                && worker.capacity == capacity && worker.lastVisit == now && worker.status == Alive
                && worker.address == address
                && (fresh(worker) <==> forall w | w in old(tasks)[name] :: w.address != address)
    {
      worker := null;
      if address == "" || capacity <= 0 || name !in tasks { return; }
      var i := Find(tasks[name], address);
      if i < |tasks[name]| {
        worker := tasks[name][i];
        Refresh(worker, capacity, now);
      } else {
        worker := Register(name, address, capacity, now);
      }
    }

    method Refresh(worker: Worker, capacity: int, now: int)
      requires Valid() && worker in workers
      modifies worker
      ensures View() == old(View()).(info := WithStatus(old(InfoView()), worker, Alive))
      ensures worker.capacity == capacity && worker.lastVisit == now && worker.status == Alive
    {
      worker.capacity, worker.lastVisit, worker.status := capacity, now, Alive;
      assert InfoView() == WithStatus(old(InfoView()), worker, Alive);
    }

    method Register(name: string, address: string, capacity: int, now: int) returns (worker: Worker)
      requires Valid() && name in tasks
      modifies this
      ensures Valid() && fresh(worker) && workers == old(workers) + {worker}
      ensures View() == Registered(old(View()), name, address, worker)
      ensures worker.name == name && worker.address == address
      ensures worker.capacity == capacity && worker.lastVisit == now && worker.status == Alive
    {
      var others := FindElsewhere(name, address);
      worker := new Worker(name, address, capacity, now);
      workers := workers + {worker};
      tasks := tasks[name := tasks[name] + [worker]];
      pending := pending + multiset(others);
      assert InfoView() == old(InfoView())[worker := Info(name, address, Alive)];
    }

    method Find(list: seq<Worker>, address: string) returns (i: nat)
      requires Valid() && forall w | w in list :: w in workers
      ensures i == FirstAt(View(), list, address)
    {
      i := 0;
      while i < |list| && list[i].address != address
        invariant i <= |list| && forall k | 0 <= k < i :: list[k].address != address
      {
        i := i + 1;
      }
    }

    /** The workers of the other tasks whose removal the heartbeat starts. */
    method FindElsewhere(name: string, address: string) returns (others: set<Worker>)
      requires Valid()
      ensures others == OthersAt(View(), name, address)
    {
      others := {};
      var todo := tasks.Keys - {name};
      while todo != {}
        invariant todo <= tasks.Keys - {name}
        invariant others == set n, i | n in tasks.Keys - {name} - todo && 0 <= i < |tasks[n]| &&
                                       tasks[n][i].address == address :: tasks[n][i]
        decreases |todo|
      {
        var n :| n in todo;
        ghost var before := others;
        for i := 0 to |tasks[n]|
          invariant others == before + set k | 0 <= k < i && tasks[n][k].address == address :: tasks[n][k]
        {
          if tasks[n][i].address == address { others := others + {tasks[n][i]}; }
        }
        todo := todo - {n};
      }
      assert forall n, i | n in tasks && 0 <= i < |tasks[n]| ::
          At(View(), tasks[n][i], address) <==> tasks[n][i].address == address;
    }

    /** The registered workers. */
    ghost function Listing(): set<Worker>
      reads this`tasks
    {
      set n, i | n in tasks && 0 <= i < |tasks[n]| :: tasks[n][i]
    }

    /** The workers among `some` that have been idle in coma for long. */
    ghost function Idle(some: set<Worker>, removeLine: int): set<Worker>
      reads some
    {
      set w | w in some && w.current == 0 && w.status == Coma && w.lastVisit < removeLine
    }

    /** Puts silent workers into coma and starts the removal of those that are idle and have been silent for long. */
    method CleanWorkers(comaLine: int, removeLine: int)
      requires Valid()
      modifies this`pending, set w | w in workers :: w`status
      ensures Valid() && tasks == old(tasks)
      ensures forall w | w in workers ::
                w.status == if w in Listing() && old(w.status) == Alive && w.lastVisit < comaLine then Coma
                    else old(w.status)
      ensures forall w ::
                pending[w] == old(pending)[w]
                            + if w in Listing() && w.current == 0 && w.status == Coma && w.lastVisit < removeLine
                              then 1 else 0
    {
      var due: set<Worker> := {};
      ghost var done: set<Worker> := {};
      var todo := tasks.Keys;
      while todo != {}
        invariant todo <= tasks.Keys && Valid() && done <= workers && pending == old(pending)
        invariant done == set n, i | n in tasks.Keys - todo && 0 <= i < |tasks[n]| :: tasks[n][i]
        invariant forall w | w in workers ::
                    w.status == if w in done && old(w.status) == Alive && w.lastVisit < comaLine then Coma
                        else old(w.status)
        invariant due == Idle(done, removeLine)
        decreases |todo|
      {
        var n :| n in todo;
        due := CleanList(done, due, tasks[n], comaLine, removeLine);
        done := done + set k | 0 <= k < |tasks[n]| :: tasks[n][k];
        todo := todo - {n};
      }
      assert done == Listing();
      pending := pending + multiset(due);
    }

    /** The workers of one task; `due` are the idle ones among those looked at before. */
    method CleanList(ghost done: set<Worker>, due: set<Worker>, list: seq<Worker>, comaLine: int, removeLine: int)
      returns (due': set<Worker>)
      requires due == Idle(done, removeLine)
      requires forall w | w in done :: !(w.status == Alive && w.lastVisit < comaLine)
      modifies set w | w in list :: w`status
      ensures forall w | w in list ::
                w.status == if old(w.status) == Alive && w.lastVisit < comaLine then Coma else old(w.status)
      ensures due' == Idle(done + set k | 0 <= k < |list| :: list[k], removeLine)
    {
      due' := due;
      ghost var now := done;
      for i := 0 to |list|
        invariant now == done + set k | 0 <= k < i :: list[k]
        invariant forall w | w in list ::
                    w.status == if w in now && old(w.status) == Alive && w.lastVisit < comaLine then Coma
                        else old(w.status)
        invariant forall w | w in now :: !(w.status == Alive && w.lastVisit < comaLine)
        invariant due' == Idle(now, removeLine)
      {
        assert list[i] in list;
        var stale := CleanWorker(now, list[i], comaLine, removeLine);
        if stale { due' := due' + {list[i]}; }
        now := now + {list[i]};
      }
    }

    /** One turn of the loop of `CleanWorkers`; going over a worker twice changes nothing more. */
    method CleanWorker(ghost done: set<Worker>, w: Worker, comaLine: int, removeLine: int) returns (stale: bool)
      requires w in done ==> !(w.status == Alive && w.lastVisit < comaLine)
      modifies w`status
      ensures w.status == if old(w.status) == Alive && w.lastVisit < comaLine then Coma else old(w.status)
      ensures Idle(done + {w}, removeLine) == old(Idle(done, removeLine)) + if stale then {w} else {}
    {
      if w.status == Alive && w.lastVisit < comaLine { w.status := Coma; }
      stale := w.current == 0 && w.status == Coma && w.lastVisit < removeLine;
    }

    /** A started removal runs. */
    method RemoveWorker(worker: Worker)
      requires Valid() && worker in workers && worker in pending
      modifies this, worker`status
      ensures Valid() && View() == Apply(old(View()), Remove(worker))
    {
      pending := pending - multiset{worker};
      if worker.name !in tasks || worker.status == Dead { return; }
      Bury(worker);
      hide Less, Valid;
      Unlist(worker);
    }

    method Bury(worker: Worker)
      requires Valid() && worker in workers
      modifies worker`status
      ensures InfoView() == WithStatus(old(InfoView()), worker, Dead)
    {
      worker.status := Dead;
    }

    /** Takes a worker off the list of its task, and the task off the registry when nobody is left. */
    method Unlist(worker: Worker)
      requires Valid() && worker.name in tasks
      modifies this`tasks
      ensures Valid()
      ensures var rest := Less(old(tasks)[worker.name], worker);
              tasks == if rest == [] then old(tasks) - {worker.name} else old(tasks)[worker.name := rest]
    {
      var rest := Less(tasks[worker.name], worker);
      LessSpec(tasks[worker.name], worker);
      hide Less;
      if rest == [] {
        tasks := tasks - {worker.name};
      } else {
        tasks := tasks[worker.name := rest];
      }
    }
  }
}
