/** Requests that wait for a response on the worker's stream.

    Every caller owns a channel with one place; the reader of the stream hands a response over while it holds the
    worker's lock.  Steps are as small as the code allows to interleave: taking the lock, sending, deleting the
    entry and releasing the lock are separate, and so are a caller's removal of its entry and the closing of
    its channel. */
module PendingRpc {
  import opened Options

  type Id = nat

  datatype Msg = Msg(id: Id, body: nat)

  /** Where a caller is: in the `select`, past it, past the removal of its entry, past closing the channel. */
  datatype Phase = Waiting | Leaving | Unregistered | Closed

  /** A caller, the place in its channel, what it took from it, and how often anything was sent to it. */
  datatype Call = Call(phase: Phase, buffer: seq<Msg>, got: Option<Msg>, sent: nat)

  /** The reader of the stream inside its critical section. */
  datatype Stage = Found | Sent | Finished

  datatype Reader = Reader(msg: Msg, stage: Stage)

  datatype State = State(calls: map<Id, Call>, pending: set<Id>, lock: Option<Reader>)

  datatype Step =
    | Register(id: Id)
    | Receive(id: Id)
    | GiveUp(id: Id)         // the stream failed, the context ended, or the time is up
    | Unregister(id: Id)
    | Close(id: Id)
    | Respond(msg: Msg)      // a response arrives: lock and look up
    | SendOn
    | Delete
    | Unlock

  const INIT := State(map[], {}, None)

  predicate In(s: State, id: Id, phase: Phase) {
    id in s.calls && s.calls[id].phase == phase
  }

  /** A send goes through at once: the channel is open and its place is free. */
  predicate Open(s: State, id: Id) {
    id in s.calls && s.calls[id].phase != Closed && s.calls[id].buffer == []
  }

  predicate Legal(s: State, step: Step) {
    match step
    case Register(id) => s.lock.None? && id !in s.calls
    case Receive(id) => In(s, id, Waiting) && s.calls[id].buffer != []
    case GiveUp(id) => In(s, id, Waiting)
    case Unregister(id) => s.lock.None? && In(s, id, Leaving)
    case Close(id) => In(s, id, Unregistered)
    case Respond(_) => s.lock.None?
    case SendOn => s.lock.Some? && s.lock.value.stage == Found && Open(s, s.lock.value.msg.id)
    case Delete => s.lock.Some? && s.lock.value.stage == Sent
    case Unlock => s.lock.Some? && s.lock.value.stage == Finished
  }

  function WithCall(s: State, id: Id, c: Call): State {
    s.(calls := s.calls[id := c])
  }

  function Apply(s: State, step: Step): State
    requires Legal(s, step)
  {
    match step
    case Register(id) => State(s.calls[id := Call(Waiting, [], None, 0)], s.pending + {id}, s.lock)
    case Receive(id) => WithCall(s, id, Taken(s.calls[id]))
    case GiveUp(id) => WithCall(s, id, s.calls[id].(phase := Leaving))
    case Unregister(id) => State(s.calls[id := s.calls[id].(phase := Unregistered)], s.pending - {id}, s.lock)
    case Close(id) => WithCall(s, id, s.calls[id].(phase := Closed))
    case Respond(msg) => s.(lock := Some(Reader(msg, if msg.id in s.pending then Found else Finished)))
    case SendOn =>
      var msg := s.lock.value.msg;
      WithCall(s, msg.id, Given(s.calls[msg.id], msg)).(lock := Some(Reader(msg, Sent)))
    case Delete =>
      var msg := s.lock.value.msg;
      s.(pending := s.pending - {msg.id}, lock := Some(Reader(msg, Finished)))
    case Unlock => s.(lock := None)
  }

  function Taken(c: Call): Call
    requires c.buffer != []
  {
    c.(phase := Leaving, buffer := c.buffer[1..], got := Some(c.buffer[0]))
  }

  function Given(c: Call, msg: Msg): Call {
    c.(buffer := c.buffer + [msg], sent := c.sent + 1)
  }

  // ---------------------------------------------------------------- what every run keeps

  /** At most one response was ever sent to the caller, it carries the caller's own id, and it is in the channel or
      has been taken. */
  predicate CallOk(id: Id, c: Call) {
    && c.sent == |c.buffer| + (if c.got.Some? then 1 else 0)
    && c.sent <= 1
    && (c.buffer != [] ==> c.buffer[0].id == id)
    && (c.got.Some? ==> c.got.value.id == id && c.phase != Waiting)
  }

  predicate CallsOk(s: State) {
    forall id | id in s.calls :: CallOk(id, s.calls[id])
  }

  /** Nothing has been sent yet to a caller with an entry, except in the middle of the hand-over. */
  predicate PendingOk(s: State) {
    forall id | id in s.pending ::
      && (In(s, id, Waiting) || In(s, id, Leaving))
      && (s.calls[id].sent == 0 || s.lock == Some(Reader(Msg(id, BodyOf(s)), Sent)))
  }

  function BodyOf(s: State): nat {
    if s.lock.Some? then s.lock.value.msg.body else 0
  }

  predicate LockOk(s: State) {
    s.lock.Some? && s.lock.value.stage != Finished ==>
      && s.lock.value.msg.id in s.pending
      && (s.lock.value.stage == Sent && s.lock.value.msg.id in s.calls ==> s.calls[s.lock.value.msg.id].sent == 1)
  }

  /** A waiting caller still has its entry, unless its response is already there. */
  predicate WaitingOk(s: State) {
    forall id | id in s.calls && s.calls[id].phase == Waiting :: id in s.pending || s.calls[id].buffer != []
  }

  predicate Inv(s: State) {
    CallsOk(s) && PendingOk(s) && LockOk(s) && WaitingOk(s)
  }

  lemma StepKeepsInv(s: State, step: Step)
    requires Inv(s) && Legal(s, step)
    ensures Inv(Apply(s, step))
  {
    if step.Respond? || step.SendOn? || step.Delete? || step.Unlock? {
      ReaderKeepsInv(s, step);
    } else {
      CallerKeepsInv(s, step);
    }
    hide *;
  }

  lemma ReaderKeepsInv(s: State, step: Step)
    requires Inv(s) && Legal(s, step) && (step.Respond? || step.SendOn? || step.Delete? || step.Unlock?)
    ensures Inv(Apply(s, step))
  {}

  lemma CallerKeepsInv(s: State, step: Step)
    requires Inv(s) && Legal(s, step) && !(step.Respond? || step.SendOn? || step.Delete? || step.Unlock?)
    ensures Inv(Apply(s, step))
  {}

  ghost predicate LegalRun(s: State, run: seq<Step>)
    decreases |run|
  {
    run == [] || (Legal(s, run[0]) && LegalRun(Apply(s, run[0]), run[1..]))
  }

  ghost function Exec(s: State, run: seq<Step>): State
    requires LegalRun(s, run)
    decreases |run|
  {
    if run == [] then s else Exec(Apply(s, run[0]), run[1..])
  }

  lemma {:induction false} InvAlong(s: State, run: seq<Step>)
    requires Inv(s) && LegalRun(s, run)
    ensures Inv(Exec(s, run))
    decreases |run|
  {
    if run != [] {
      StepKeepsInv(s, run[0]);
      InvAlong(Apply(s, run[0]), run[1..]);
    }
  }

  /** What the reader does next under the lock. */
  function ReaderStep(stage: Stage): Step {
    match stage
    case Found => SendOn
    case Sent => Delete
    case Finished => Unlock
  }

  /** In every run, a send meets an open channel with a free place, so the reader of the stream neither panics nor
      blocks while it holds the lock: whatever it has to do next it can do now. */
  lemma ReaderNeverStuck(run: seq<Step>)
    requires LegalRun(INIT, run)
    ensures var s := Exec(INIT, run);
            s.lock.Some? ==> Legal(s, ReaderStep(s.lock.value.stage))
  {
    InvAlong(INIT, run);
  }

  /** Every request gets at most one response, and it is one for that request. */
  lemma OneOwnResponse(run: seq<Step>, id: Id)
    requires LegalRun(INIT, run) && id in Exec(INIT, run).calls
    ensures var c := Exec(INIT, run).calls[id];
            c.sent <= 1 && (c.got.Some? ==> c.got.value.id == id) && (c.phase == Waiting ==> c.got.None?)
  {
    InvAlong(INIT, run);
  }

  /** Nothing is left behind: when every call has returned, no entry remains. */
  lemma NoEntryLeaks(run: seq<Step>)
    requires LegalRun(INIT, run)
    ensures forall id | id in Exec(INIT, run).pending ::
              In(Exec(INIT, run), id, Waiting) || In(Exec(INIT, run), id, Leaving)
    ensures (forall id | id in Exec(INIT, run).calls :: In(Exec(INIT, run), id, Closed)) ==>
              Exec(INIT, run).pending == {}
  {
    InvAlong(INIT, run);
    var s := Exec(INIT, run);
    assert forall id | id in s.pending :: id in s.calls && !In(s, id, Closed);
    if s.pending != {} {
      var id :| id in s.pending;
      assert id in s.calls && !In(s, id, Closed);
    }
  }

  /** A response that arrives while its caller waits is delivered: with the lock free, handing it over leads to a
      state in which the caller can take exactly that message. */
  lemma WaitingCallerIsServed(run: seq<Step>, msg: Msg)
    requires LegalRun(INIT, run)
    requires var s := Exec(INIT, run); s.lock.None? && In(s, msg.id, Waiting) && s.calls[msg.id].buffer == []
    ensures var s := Exec(INIT, run);
            var handOver := [Respond(msg), SendOn, Delete, Unlock, Receive(msg.id)];
            && LegalRun(s, handOver)
            && msg.id in Exec(s, handOver).calls
            && Exec(s, handOver).calls[msg.id] == Call(Leaving, [], Some(msg), 1)
  {
    InvAlong(INIT, run);
    var s := Exec(INIT, run);
    hide LegalRun, Exec;
    HandOver(s, msg);
  }

  lemma HandOver(s: State, msg: Msg)
    requires Inv(s) && s.lock.None? && In(s, msg.id, Waiting) && s.calls[msg.id].buffer == []
    ensures var handOver := [Respond(msg), SendOn, Delete, Unlock, Receive(msg.id)];
            && LegalRun(s, handOver)
            && msg.id in Exec(s, handOver).calls
            && Exec(s, handOver).calls[msg.id] == Call(Leaving, [], Some(msg), 1)
  {
    assert WaitingOk(s) && CallOk(msg.id, s.calls[msg.id]);
    assert s.calls[msg.id] == Call(Waiting, [], None, 0) && msg.id in s.pending;
    var s2 := State(s.calls[msg.id := Call(Waiting, [msg], None, 1)], s.pending, Some(Reader(msg, Sent)));
    hide Inv, LegalRun, Exec;
    GiveBack(s2, msg);
    var s1 := Apply(s, Respond(msg));
    assert Given(s.calls[msg.id], msg) == Call(Waiting, [msg], None, 1);
    OneStep(s1, [SendOn, Delete, Unlock, Receive(msg.id)], [Delete, Unlock, Receive(msg.id)], s2);
    OneStep(s, [Respond(msg), SendOn, Delete, Unlock, Receive(msg.id)], [SendOn, Delete, Unlock, Receive(msg.id)], s1);
  }

  lemma GiveBack(s2: State, msg: Msg)
    requires s2.lock == Some(Reader(msg, Sent))
    requires msg.id in s2.calls && s2.calls[msg.id] == Call(Waiting, [msg], None, 1)
    ensures var rest := [Delete, Unlock, Receive(msg.id)];
            && LegalRun(s2, rest)
            && msg.id in Exec(s2, rest).calls
            && Exec(s2, rest).calls[msg.id] == Call(Leaving, [], Some(msg), 1)
  {
    hide LegalRun, Exec;
    var s3 := Apply(s2, Delete);
    var s4 := Apply(s3, Unlock);
    var s5 := Apply(s4, Receive(msg.id));
    NoStep(s5);
    OneStep(s4, [Receive(msg.id)], [], s5);
    OneStep(s3, [Unlock, Receive(msg.id)], [Receive(msg.id)], s4);
    OneStep(s2, [Delete, Unlock, Receive(msg.id)], [Unlock, Receive(msg.id)], s3);
  }

  lemma OneStep(s: State, run: seq<Step>, rest: seq<Step>, s': State)
    requires run != [] && rest == run[1..] && Legal(s, run[0]) && Apply(s, run[0]) == s'
    ensures LegalRun(s', rest) ==> LegalRun(s, run) && Exec(s, run) == Exec(s', rest)
  {}

  lemma NoStep(s: State)
    ensures LegalRun(s, []) && Exec(s, []) == s
  {}

  /** A response for a request that is unknown, already answered or given up changes nothing. */
  lemma LateResponseIsDropped(s: State, msg: Msg)
    requires Inv(s) && s.lock.None? && msg.id !in s.pending
    ensures LegalRun(s, [Respond(msg), Unlock]) && Exec(s, [Respond(msg), Unlock]) == s
  {
    var s1 := Apply(s, Respond(msg));
    assert [Respond(msg), Unlock][1..] == [Unlock] && [Unlock][1..] == [];
    assert LegalRun(s1, [Unlock]) && Apply(s1, Unlock) == s;
    assert Exec(s, []) == s;
  }

  // ---------------------------------------------------------------- the worker

  /** A Go channel with one place. */
  class Channel {
    var buffer: seq<Msg>
    var closed: bool

    constructor ()
      ensures buffer == [] && !closed
    {
      buffer, closed := [], false;
    }

    /** Sending on a closed channel panics and on a full one blocks: the caller must exclude both. */
    method Send(msg: Msg)
      requires !closed && |buffer| < 1
      modifies this
      ensures buffer == old(buffer) + [msg] && !closed
    {
      buffer := buffer + [msg];
    }

    method Shut()
      requires !closed
      modifies this
      ensures closed && buffer == old(buffer)
    {
      closed := true;
    }
  }

  class Worker {
    var pendingRpc: map<Id, Channel>

    /** Every entry has a channel of its own that is open and empty. */
    ghost predicate Valid()
      reads this, pendingRpc.Values
    {
      && (forall id | id in pendingRpc :: !pendingRpc[id].closed && pendingRpc[id].buffer == [])
      && (forall i, j | i in pendingRpc && j in pendingRpc && i != j :: pendingRpc[i] != pendingRpc[j])
    }

    constructor ()
      ensures Valid() && pendingRpc == map[]
    {
      pendingRpc := map[];
    }

    method Begin(id: Id) returns (ch: Channel)
      requires Valid() && id !in pendingRpc
      modifies this
      ensures Valid() && fresh(ch) && pendingRpc == old(pendingRpc)[id := ch]
    {
      ch := new Channel();
      pendingRpc := pendingRpc[id := ch];
    }

    /** Hands a response to the caller that waits for it, or drops it. */
    method FinalizeGrpcCall(id: Id, response: Msg)
      requires Valid()
      modifies this, pendingRpc.Values
      ensures Valid() && pendingRpc == old(pendingRpc) - {id}
      ensures id in old(pendingRpc) ==> old(pendingRpc)[id].buffer == [response] && !old(pendingRpc)[id].closed
      ensures forall other | other in old(pendingRpc) && other != id :: old(pendingRpc)[other].buffer == []
    {
      if id in pendingRpc {
        pendingRpc[id].Send(response);
        pendingRpc := pendingRpc - {id};
      }
    }

    /** What a caller does on its way out; its channel may or may not have been served. */
    method End(id: Id, ch: Channel)
      requires Valid() && !ch.closed
      requires forall other | other in pendingRpc :: (pendingRpc[other] == ch <==> other == id)
      modifies this, ch
      ensures Valid() && pendingRpc == old(pendingRpc) - {id}
      ensures ch.closed && ch.buffer == old(ch.buffer)
    {
      pendingRpc := pendingRpc - {id};
      ch.Shut();
    }
  }
}
