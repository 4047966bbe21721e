/** The rendezvous between a client and the environment of one session on a task worker.

    A state is what `SessionController` and `Session` hold between two await points; an event is the code
    that runs from one await point to the next.  The run starts after the first part of `start_sample`,
    which creates the session and the task of its environment, and waits for the first output. */
module Handshake {

  datatype Item = Chat(text: int) | Reward(reward: int)

  datatype Input = NoInput | Messages(ms: seq<Item>) | Cancelled

  datatype Status = Running | Finished(code: int)

  /** `TaskOutput`, as far as the client sees it. */
  datatype Output = Output(status: Status, history: seq<Item>, ptr: nat)

  /** The task of the environment: created, at work, in `env_pull`, over, or cancelled before its first step. */
  datatype EnvPhase = Unstarted | Busy | Asking | Ended | Killed

  datatype State = State(
    history: seq<Item>,     // Session.history
    out: Output,            // SessionController.env_output
    input: Input,           // SessionController.env_input
    agentSignal: nat,
    envSignal: nat,
    fullHistory: bool,
    env: EnvPhase,
    waiting: bool,          // a client is inside agent_pull and holds agent_lock
    cancelling: bool,       // RunningSampleData.cancelling
    fullAsync: bool)        // Task.full_async: a cancellation cancels the task of the environment

  datatype Event =
    | Inject(items: seq<Item>)          // the environment appends to the history
    | Rewrite(items: seq<Item>)         // `cover` or `clear`
    | SetFullHistory(full: bool)
    | Begin                             // the environment's task takes its first step
    | Ask                               // `env_pull` up to its await
    | Receive                           // `env_pull` after its await, and the rest of `action`
    | Interrupt                         // the task is cancelled while it waits in `env_pull`
    | Kill                              // the task is cancelled before its first step: nothing of it ever runs
    | End(code: int)                    // the wrapper unregisters the session and calls `env_finish`
    | Send(ms: seq<Item>)               // `interact` up to the await in `agent_pull`
    | Reply                             // `agent_pull` after its await, and the rest of the request
    | Cancel                            // `_cancel` up to its first await

  function Init(fullAsync: bool): State {
    State([], Output(Running, [], 0), NoInput, 0, 0, false, Unstarted, true, false, fullAsync)
  }

  /** The session is still in the worker's session map. */
  predicate Alive(env: EnvPhase) {
    env != Ended && env != Killed
  }

  predicate Enabled(s: State, e: Event) {
    match e
    case Inject(_) => s.env == Busy
    case Rewrite(_) => s.env == Busy
    case SetFullHistory(_) => s.env == Busy
    case Ask => s.env == Busy
    case Receive => s.env == Asking && s.envSignal > 0
    case Begin => s.env == Unstarted
    case Interrupt => s.env == Asking && s.cancelling && s.fullAsync
    case Kill => s.env == Unstarted && s.cancelling && s.fullAsync
    case End(_) => s.env == Busy
    case Send(ms) => Alive(s.env) && !s.waiting && !s.cancelling && ms != []
    case Reply => s.waiting && s.agentSignal > 0
    case Cancel => Alive(s.env)
  }

  /** The pointer that `env_pull` and `env_finish` set. */
  function NextPtr(s: State): nat {
    if s.fullHistory then 0 else |s.out.history|
  }

  function Apply(s: State, e: Event): State
    requires Enabled(s, e)
  {
    match e
    case Inject(items) => s.(history := s.history + items)
    case Rewrite(items) => s.(history := items)
    case SetFullHistory(full) => s.(fullHistory := full)
    case Ask =>
      s.(out := Output(s.out.status, s.history, NextPtr(s)), agentSignal := s.agentSignal + 1, env := Asking)
    case Receive =>
      var s' := s.(envSignal := s.envSignal - 1, env := Busy);
      if s.input.Messages? then
        var h := s.history + s.input.ms;
        s'.(history := h, out := s.out.(history := h))
      else s'
    case Begin => s.(env := Busy)
    case Interrupt => s.(env := Busy)
    case Kill => s.(env := Killed)
    case End(code) =>
      s.(out := Output(Finished(code), s.history, NextPtr(s)), agentSignal := s.agentSignal + 1, env := Ended)
    case Send(ms) => s.(input := Messages(ms), envSignal := s.envSignal + 1, waiting := true)
    case Reply => s.(agentSignal := s.agentSignal - 1, waiting := false)
    case Cancel => s.(cancelling := true, input := Cancelled, envSignal := s.envSignal + 1)
  }

  /** Python's `history[ptr:]`. */
  function Slice(h: seq<Item>, ptr: nat): seq<Item> {
    if ptr <= |h| then h[ptr..] else []
  }

  // ---------------------------------------------------------------- what the client saw

  /** What went over the wire, in order. */
  datatype Segment = Replied(items: seq<Item>) | Sent(items: seq<Item>)

  function Observe(s: State, log: seq<Segment>, e: Event): seq<Segment>
    requires Enabled(s, e)
  {
    match e
    case Send(ms) => log + [Sent(ms)]
    case Reply => log + [Replied(Slice(s.out.history, s.out.ptr))]
    case _ => log
  }

  function Flatten(log: seq<Segment>): seq<Item> {
    if log == [] then [] else Flatten(log[..|log| - 1]) + log[|log| - 1].items
  }

  predicate Alternates(log: seq<Segment>) {
    forall i | 0 <= i < |log| :: log[i].Replied? <==> i % 2 == 0
  }

  /** No cancellation, no rewriting of the history, no full-history mode. */
  predicate Plain(e: Event) {
    !e.Rewrite? && !e.SetFullHistory? && !e.Interrupt? && !e.Kill? && !e.Cancel?
  }

  predicate Legal(s: State, run: seq<Event>)
    decreases |run|
  {
    run == [] || (Enabled(s, run[0]) && Legal(Apply(s, run[0]), run[1..]))
  }

  function Exec(s: State, run: seq<Event>): State
    requires Legal(s, run)
    decreases |run|
  {
    if run == [] then s else Exec(Apply(s, run[0]), run[1..])
  }

  function Transcript(s: State, log: seq<Segment>, run: seq<Event>): seq<Segment>
    requires Legal(s, run)
    decreases |run|
  {
    if run == [] then log else Transcript(Apply(s, run[0]), Observe(s, log, run[0]), run[1..])
  }

  // ---------------------------------------------------------------- strict alternation, nothing lost

  /** Whose turn it is, and how far the client's transcript has got at that point. */
  ghost predicate Turn(s: State, log: seq<Segment>) {
    var seen := Flatten(log);
    // the environment is working, or about to, and the client waits
    || (&& (s.env == Busy || s.env == Unstarted) && s.waiting && s.agentSignal == 0 && s.envSignal == 0
        && seen == s.out.history && s.out.history <= s.history && |log| % 2 == 0)
    // output is ready, the client has not picked it up
    || (&& (s.env == Asking || s.env == Ended) && s.waiting && s.agentSignal == 1 && s.envSignal == 0
        && s.out.history == s.history && s.out.ptr <= |s.history| && seen == s.history[..s.out.ptr] && |log| % 2 == 0)
    // the environment waits and the client is working
    || (&& s.env == Asking && !s.waiting && s.agentSignal == 0 && s.envSignal == 0
        && s.out.history == s.history && seen == s.history && |log| % 2 == 1)
    // messages are ready, the environment has not picked them up
    || (&& s.env == Asking && s.waiting && s.agentSignal == 0 && s.envSignal == 1 && s.input.Messages?
        && s.out.history == s.history && seen == s.history + s.input.ms && |log| % 2 == 0)
    // all is over
    || (&& s.env == Ended && !s.waiting && s.agentSignal == 0 && s.envSignal == 0
        && s.out.history == s.history && seen == s.history && |log| % 2 == 1)
  }

  ghost predicate PlainInv(s: State, log: seq<Segment>) {
    !s.fullHistory && !s.cancelling && Alternates(log) && Turn(s, log)
  }

  lemma FlattenAppend(log: seq<Segment>, seg: Segment)
    ensures Flatten(log + [seg]) == Flatten(log) + seg.items
  {
    assert (log + [seg])[..|log|] == log;
  }

  lemma PlainEventKeepsInv(s: State, log: seq<Segment>, e: Event)
    requires PlainInv(s, log) && Enabled(s, e) && Plain(e)
    ensures PlainInv(Apply(s, e), Observe(s, log, e))
  {
    match e
    case Send(ms) => SendKeepsInv(s, log, ms);
    case Reply => ReplyKeepsInv(s, log);
    case Receive => ReceiveKeepsInv(s, log);
    case _ =>
  }

  lemma SendKeepsInv(s: State, log: seq<Segment>, ms: seq<Item>)
    requires PlainInv(s, log) && Enabled(s, Send(ms))
    ensures PlainInv(Apply(s, Send(ms)), log + [Sent(ms)])
  {
    FlattenAppend(log, Sent(ms));
    hide Flatten;
  }

  lemma ReplyKeepsInv(s: State, log: seq<Segment>)
    requires PlainInv(s, log) && Enabled(s, Reply)
    ensures PlainInv(Apply(s, Reply), Observe(s, log, Reply))
  {
    var seg := Replied(Slice(s.out.history, s.out.ptr));
    FlattenAppend(log, seg);
    hide Flatten;
    assert s.history == s.history[..s.out.ptr] + s.history[s.out.ptr..];
  }

  lemma ReceiveKeepsInv(s: State, log: seq<Segment>)
    requires PlainInv(s, log) && Enabled(s, Receive)
    ensures PlainInv(Apply(s, Receive), log)
  {
    hide Flatten, Alternates;
  }

  lemma {:induction false} PlainRunKeepsInv(s: State, log: seq<Segment>, run: seq<Event>)
    requires PlainInv(s, log) && Legal(s, run) && forall i | 0 <= i < |run| :: Plain(run[i])
    ensures PlainInv(Exec(s, run), Transcript(s, log, run))
    decreases |run|
  {
    if run != [] {
      PlainEventKeepsInv(s, log, run[0]);
      PlainRunKeepsInv(Apply(s, run[0]), Observe(s, log, run[0]), run[1..]);
    }
  }

  /** In every plain run client and environment strictly alternate, and whenever the client has the turn, the
      replies it got and the messages it sent make up the session history exactly, through the final reply. */
  lemma TranscriptIsHistory(fullAsync: bool, run: seq<Event>)
    requires Legal(Init(fullAsync), run) && forall i | 0 <= i < |run| :: Plain(run[i])
    ensures var s, log := Exec(Init(fullAsync), run), Transcript(Init(fullAsync), [], run);
            && Alternates(log)
            && (!s.waiting ==> Flatten(log) == s.history && log != [] && log[|log| - 1].Replied?)
            && (!s.waiting ==> s.env == Asking || s.env == Ended)
  {
    PlainRunKeepsInv(Init(fullAsync), [], run);
  }

  /** In a plain run somebody can always go on until the environment has ended and the client knows. */
  lemma PlainRunNeverStuck(fullAsync: bool, run: seq<Event>)
    requires Legal(Init(fullAsync), run) && forall i | 0 <= i < |run| :: Plain(run[i])
    ensures var s := Exec(Init(fullAsync), run);
            || (s.env == Ended && !s.waiting)
            || s.env == Busy || Enabled(s, Begin) || Enabled(s, Receive) || Enabled(s, Reply)
                || Enabled(s, Send([Chat(0)]))
  {
    PlainRunKeepsInv(Init(fullAsync), [], run);
  }

  // ---------------------------------------------------------------- what a reply says about the end

  lemma {:induction false} SplitRun(s: State, run: seq<Event>, k: nat)
    requires Legal(s, run) && k <= |run|
    ensures Legal(s, run[..k]) && Legal(Exec(s, run[..k]), run[k..])
    ensures Exec(s, run) == Exec(Exec(s, run[..k]), run[k..])
    decreases |run|
  {
    if k > 0 {
      SplitRun(Apply(s, run[0]), run[1..], k - 1);
      assert run[..k][1..] == run[1..][..k - 1] && run[k..] == run[1..][k - 1..];
    } else {
      assert run[0..] == run;
    }
  }

  /** The output is that of a running session until the session ends, and then carries the code of that end. */
  lemma {:induction false} StatusIs(s: State, run: seq<Event>)
    requires Legal(s, run) && (s.env == Ended || s.out.status == Running)
    ensures (forall k | 0 <= k < |run| :: !run[k].End?) ==> Exec(s, run).out.status == s.out.status
    ensures forall k | 0 <= k < |run| && run[k].End? :: Exec(s, run).out.status == Finished(run[k].code)
    ensures s.env == Ended ==> forall k | 0 <= k < |run| :: !run[k].End?
    decreases |run|
  {
    if run != [] {
      StatusIs(Apply(s, run[0]), run[1..]);
      assert forall k | 0 < k < |run| :: run[k] == run[1..][k - 1];
    }
  }

  /** In every run, whatever is rewritten or cancelled: a reply says that the session is running exactly if no end
      comes before it, and otherwise that it is finished, with the code of the end. */
  lemma ReplyTellsEnd(fullAsync: bool, run: seq<Event>, i: nat)
    requires Legal(Init(fullAsync), run) && i < |run| && run[i] == Reply
    ensures Legal(Init(fullAsync), run[..i])
    ensures var status := Exec(Init(fullAsync), run[..i]).out.status;
            && (status == Running <==> forall k | 0 <= k < i :: !run[k].End?)
            && (forall k | 0 <= k < i && run[k].End? :: status == Finished(run[k].code))
  {
    SplitRun(Init(fullAsync), run, i);
    StatusIs(Init(fullAsync), run[..i]);
    assert forall k | 0 <= k < i :: run[..i][k] == run[k];
  }

  lemma {:induction false} OnlyReplyFrees(s: State, run: seq<Event>)
    requires Legal(s, run) && s.waiting && !Exec(s, run).waiting
    ensures exists i :: 0 <= i < |run| && run[i] == Reply
    decreases |run|
  {
    if run[0] != Reply {
      OnlyReplyFrees(Apply(s, run[0]), run[1..]);
      var i :| 0 <= i < |run[1..]| && run[1..][i] == Reply;
      assert run[i + 1] == Reply;
    }
  }

  /** In a plain run, once the session has ended and the client is free, the last reply it got carries the code. */
  lemma LastReplyHasCode(fullAsync: bool, run: seq<Event>, k: nat) returns (i: nat)
    requires Legal(Init(fullAsync), run) && (forall j | 0 <= j < |run| :: Plain(run[j]))
    requires k < |run| && run[k].End? && !Exec(Init(fullAsync), run).waiting
    ensures k < i < |run| && run[i] == Reply && forall j | i < j < |run| :: run[j] != Reply
    ensures Legal(Init(fullAsync), run[..i])
    ensures Exec(Init(fullAsync), run[..i]).out.status == Finished(run[k].code)
  {
    var s := Init(fullAsync);
    SplitRun(s, run, k);
    PlainRunKeepsInv(s, [], run[..k]);
    assert run[k..][0] == run[k];
    assert Exec(s, run[..k]).waiting;
    OnlyReplyFrees(Exec(s, run[..k]), run[k..]);
    var j :| 0 <= j < |run[k..]| && run[k..][j] == Reply;
    i := LastOf(run, Reply, k + j);
    ReplyTellsEnd(fullAsync, run, i);
  }

  lemma {:induction false} LastOf(run: seq<Event>, e: Event, j: nat) returns (i: nat)
    requires j < |run| && run[j] == e
    ensures j <= i < |run| && run[i] == e && forall k | i < k < |run| :: run[k] != e
    decreases |run| - j
  {
    i := j;
    if k :| j < k < |run| && run[k] == e {
      i := LastOf(run, e, k);
    }
  }

  // ---------------------------------------------------------------- rewritten histories

  /** In full-history mode every reply carries the whole history, rewritten or not. */
  lemma FullModeRepliesWhole(s: State, e: Event)
    requires Enabled(s, e) && (e.Ask? || e.End?)
    ensures var s' := Apply(s, e);
            Slice(s'.out.history, s'.out.ptr) == s.history <==> s.fullHistory || s.out.history == [] || s.history == []
  {
    var s' := Apply(s, e);
    if Slice(s'.out.history, s'.out.ptr) == s.history && s.history != [] {
      assert s'.out.ptr == 0;
    }
  }

  /** Neither a cancellation nor a change of mode. */
  predicate Steady(e: Event) {
    Plain(e) || e.Rewrite?
  }

  predicate Uncancelled(e: Event) {
    Steady(e) || e.SetFullHistory?
  }

  predicate Working(s: State) {
    (s.env == Busy || s.env == Unstarted) && s.waiting && s.agentSignal == 0 && s.envSignal == 0
  }

  predicate Ready(s: State) {
    (s.env == Asking || s.env == Ended) && s.waiting && s.agentSignal == 1 && s.envSignal == 0
        && s.out.history == s.history
  }

  predicate ClientsTurn(s: State) {
    (s.env == Asking || s.env == Ended) && !s.waiting && s.agentSignal == 0 && s.envSignal == 0
        && s.out.history == s.history
  }

  predicate Answered(s: State) {
    && s.env == Asking && s.waiting && s.agentSignal == 0 && s.envSignal == 1 && s.out.history == s.history
    && s.input.Messages?
  }

  /** Whose turn it is, and what the client has seen, when the history may be rewritten. */
  predicate RewriteInv(s: State, log: seq<Segment>) {
    var seen := Flatten(log);
    && !s.fullHistory && !s.cancelling
    && (|| (Working(s) && seen == s.out.history)
        || (Ready(s) && s.out.ptr == |seen|)
        || (ClientsTurn(s) && seen == s.history)
        || (Answered(s) && seen == s.history + s.input.ms))
  }

  /** Whenever the client has the turn, what it has seen is the history. */
  predicate UpToDate(s: State, log: seq<Segment>, run: seq<Event>)
    requires Legal(s, run)
    decreases |run|
  {
    && (!s.waiting ==> Flatten(log) == s.history)
    && (run == [] || UpToDate(Apply(s, run[0]), Observe(s, log, run[0]), run[1..]))
  }

  /** Whenever the environment asks or ends, and the client gets to see it, the history begins with what was there at
      the last exchange. */
  predicate HistoryExtends(s: State, run: seq<Event>)
    requires Legal(s, run)
    decreases |run|
  {
    run == [] ||
    (&& ((run[0].Ask? || run[0].End?) && Reply in run[1..] ==> s.out.history <= s.history)
     && HistoryExtends(Apply(s, run[0]), run[1..]))
  }

  lemma {:induction false} UpToDateIff(s: State, log: seq<Segment>, run: seq<Event>)
    requires RewriteInv(s, log) && Legal(s, run) && forall i | 0 <= i < |run| :: Steady(run[i])
    ensures UpToDate(s, log, run) <==>
            ((Ready(s) && Reply in run ==> Flatten(log) <= s.history) && HistoryExtends(s, run))
    decreases |run|
  {
    TurnsAreUpToDate(s, log);
    if run != [] {
      var e, rest := run[0], run[1..];
      var s', log' := Apply(s, e), Observe(s, log, e);
      assert run == [e] + rest && Steady(e) && Enabled(s, e);
      assert forall i | 0 <= i < |rest| :: rest[i] == run[i + 1];
      assert Reply in run <==> e == Reply || Reply in rest;
      if e.Reply? && !(Flatten(log) <= s.history) {
        ReplyLosesSight(s, log);
        hide Flatten, Slice, Apply, Observe, Enabled, RewriteInv;
        assert !UpToDate(s', log', rest);
      } else {
        RewriteInvStays(s, log, e);
        hide Flatten, Slice, Apply, Observe, Enabled, RewriteInv;
        UpToDateIff(s', log', rest);
        ExtendsStep(s, log, e, Reply in rest);
        hide Ready;
      }
    }
  }

  lemma TurnsAreUpToDate(s: State, log: seq<Segment>)
    requires RewriteInv(s, log)
    ensures !s.waiting ==> Flatten(log) == s.history
    ensures Ready(s) || Working(s) || !s.waiting || Answered(s)
  {
    hide Flatten;
  }

  /** A reply to a client that has seen more than the history begins with leaves it with something else. */
  lemma ReplyLosesSight(s: State, log: seq<Segment>)
    requires RewriteInv(s, log) && Enabled(s, Reply) && !(Flatten(log) <= s.history)
    ensures var s' := Apply(s, Reply);
            Ready(s) && !s'.waiting && Flatten(Observe(s, log, Reply)) != s'.history
  {
    FlattenAppend(log, Replied(Slice(s.out.history, s.out.ptr)));
    hide Flatten;
    CatchesUp(Flatten(log), s.history);
  }

  /** One event's share of what `HistoryExtends` asks for. */
  lemma ExtendsStep(s: State, log: seq<Segment>, e: Event, more: bool)
    requires RewriteInv(s, log) && Enabled(s, e) && Steady(e) && (e.Reply? ==> Flatten(log) <= s.history)
    ensures var s', log' := Apply(s, e), Observe(s, log, e);
            (Ready(s') && more ==> Flatten(log') <= s'.history)
            <==> && (Ready(s) && (e == Reply || more) ==> Flatten(log) <= s.history)
                 && ((e.Ask? || e.End?) && more ==> s.out.history <= s.history)
  {
    hide Flatten, Slice;
  }

  lemma RewriteInvStays(s: State, log: seq<Segment>, e: Event)
    requires RewriteInv(s, log) && Enabled(s, e) && Steady(e) && (e.Reply? ==> Flatten(log) <= s.history)
    ensures RewriteInv(Apply(s, e), Observe(s, log, e))
  {
    match e
    case Reply => ReplyBringsUpToDate(s, log);
    case Send(ms) => SentIsSeen(s, log, ms);
    case Receive => ReceivedIsSeen(s, log);
    case _ => hide Flatten;
  }

  lemma ReplyBringsUpToDate(s: State, log: seq<Segment>)
    requires RewriteInv(s, log) && Enabled(s, Reply) && Flatten(log) <= s.history
    ensures RewriteInv(Apply(s, Reply), Observe(s, log, Reply))
  {
    FlattenAppend(log, Replied(Slice(s.out.history, s.out.ptr)));
    hide Flatten;
    CatchesUp(Flatten(log), s.history);
    hide Slice;
  }

  lemma SentIsSeen(s: State, log: seq<Segment>, ms: seq<Item>)
    requires RewriteInv(s, log) && Enabled(s, Send(ms))
    ensures RewriteInv(Apply(s, Send(ms)), log + [Sent(ms)])
  {
    FlattenAppend(log, Sent(ms));
    hide Flatten;
  }

  lemma ReceivedIsSeen(s: State, log: seq<Segment>)
    requires RewriteInv(s, log) && Enabled(s, Receive)
    ensures RewriteInv(Apply(s, Receive), log)
  {
    hide Flatten;
  }

  lemma CatchesUp(seen: seq<Item>, h: seq<Item>)
    ensures seen + Slice(h, |seen|) == h <==> seen <= h
  {
    if seen + Slice(h, |seen|) == h { assert seen == h[..|seen|]; }
    if seen <= h { assert h == h[..|seen|] + h[|seen|..]; }
  }

  /** In every run without cancellation and full-history mode, with `cover` and `clear` allowed: the client's
      transcript is the history at each of its turns if and only if, at every output that the client gets to see, the
      history still begins with what it was at the last exchange. */
  lemma RewrittenTranscriptIff(fullAsync: bool, run: seq<Event>)
    requires Legal(Init(fullAsync), run) && forall i | 0 <= i < |run| :: Steady(run[i])
    ensures UpToDate(Init(fullAsync), [], run) <==> HistoryExtends(Init(fullAsync), run)
  {
    UpToDateIff(Init(fullAsync), [], run);
  }

  /** Whenever the client has the turn, the last reply was the whole history. */
  predicate RepliesWhole(s: State, log: seq<Segment>, run: seq<Event>)
    requires Legal(s, run)
    decreases |run|
  {
    && (!s.waiting ==> log != [] && log[|log| - 1] == Replied(s.history))
    && (run == [] || RepliesWhole(Apply(s, run[0]), Observe(s, log, run[0]), run[1..]))
  }

  /** Whenever the environment asks or ends, and the client gets to see it, full-history mode is on, or there was
      nothing to leave out. */
  predicate FullWhenSeen(s: State, run: seq<Event>)
    requires Legal(s, run)
    decreases |run|
  {
    run == [] ||
    (&& ((run[0].Ask? || run[0].End?) && Reply in run[1..] ==> s.fullHistory || s.out.history == [] || s.history == [])
     && FullWhenSeen(Apply(s, run[0]), run[1..]))
  }

  predicate TurnInv(s: State, log: seq<Segment>) {
    && !s.cancelling
    && (Working(s) || Ready(s) || Answered(s)
        || (ClientsTurn(s) && log != [] && log[|log| - 1] == Replied(s.history)))
  }

  lemma {:induction false} RepliesWholeIff(s: State, log: seq<Segment>, run: seq<Event>)
    requires TurnInv(s, log) && Legal(s, run) && forall i | 0 <= i < |run| :: Uncancelled(run[i])
    ensures RepliesWhole(s, log, run) <==>
            ((Ready(s) && Reply in run ==> Slice(s.out.history, s.out.ptr) == s.history) && FullWhenSeen(s, run))
    decreases |run|
  {
    if run != [] {
      var e, rest := run[0], run[1..];
      var s', log' := Apply(s, e), Observe(s, log, e);
      assert run == [e] + rest && Uncancelled(e);
      assert forall i | 0 <= i < |rest| :: rest[i] == run[i + 1];
      if e.Ask? || e.End? { FullModeRepliesWhole(s, e); }
      if e.Reply? && Slice(s.out.history, s.out.ptr) != s.history {
        assert !RepliesWhole(s', log', rest);
      } else {
        RepliesWholeIff(s', log', rest);
      }
    }
  }

  /** In every run without cancellation, with any rewriting and any switching of modes: at each of the client's turns
      the last reply is the whole history if and only if full-history mode was on at every output it got to see, or
      one of the two histories involved was empty. */
  lemma FullHistoryIff(fullAsync: bool, run: seq<Event>)
    requires Legal(Init(fullAsync), run) && forall i | 0 <= i < |run| :: Uncancelled(run[i])
    ensures RepliesWhole(Init(fullAsync), [], run) <==> FullWhenSeen(Init(fullAsync), run)
  {
    RepliesWholeIff(Init(fullAsync), [], run);
  }

  const COVERING: seq<Event> := [Begin, Ask, Reply, Send([Chat(1)]), Receive, Rewrite([Chat(2)]), Ask, Reply]

  const SENT := State([], Output(Running, [], 0), Messages([Chat(1)]), 0, 1, false, Asking, true, false, false)
  const COVERED := State([Chat(2)], Output(Running, [Chat(1)], 0), Messages([Chat(1)]), 0, 0, false, Busy,
                         true, false, false)
  const SENT_LOG := [Replied([]), Sent([Chat(1)])]

  /** After `cover`, a reply can lose everything the environment says. */
  lemma CoverLosesOutput()
    ensures Legal(Init(false), COVERING)
    ensures Transcript(Init(false), [], COVERING) == [Replied([]), Sent([Chat(1)]), Replied([])]
    ensures Exec(Init(false), COVERING).history == [Chat(2)]
  {
    hide Legal, Exec, Transcript;
    AfterCover();
    UpToCover();
    UpToSend();
    assert SENT_LOG + [Replied([])] == [Replied([]), Sent([Chat(1)]), Replied([])];
  }

  const REPLIED := State([], Output(Running, [], 0), NoInput, 0, 0, false, Asking, false, false, false)

  lemma UpToSend()
    ensures Legal(SENT, COVERING[4..]) ==>
              && Legal(Init(false), COVERING) && Exec(Init(false), COVERING) == Exec(SENT, COVERING[4..])
              && Transcript(Init(false), [], COVERING) == Transcript(SENT, SENT_LOG, COVERING[4..])
  {
    hide Legal, Exec, Transcript;
    assert [Replied([])] + [Sent([Chat(1)])] == SENT_LOG;
    NextEvent(REPLIED, [Replied([])], COVERING[3..], SENT);
    UpToReply();
  }

  lemma UpToReply()
    ensures Legal(REPLIED, COVERING[3..]) ==>
              && Legal(Init(false), COVERING) && Exec(Init(false), COVERING) == Exec(REPLIED, COVERING[3..])
              && Transcript(Init(false), [], COVERING) == Transcript(REPLIED, [Replied([])], COVERING[3..])
  {
    hide Legal, Exec, Transcript;
    var begun := Init(false).(env := Busy);
    var asked := State([], Output(Running, [], 0), NoInput, 1, 0, false, Asking, true, false, false);
    assert [] + [Replied([])] == [Replied([])];
    NextEvent(asked, [], COVERING[2..], REPLIED);
    NextEvent(begun, [], COVERING[1..], asked);
    NextEvent(Init(false), [], COVERING, begun);
  }

  lemma UpToCover()
    ensures Legal(COVERED, COVERING[6..]) ==>
              && Legal(SENT, COVERING[4..]) && Exec(SENT, COVERING[4..]) == Exec(COVERED, COVERING[6..])
              && Transcript(SENT, SENT_LOG, COVERING[4..]) == Transcript(COVERED, SENT_LOG, COVERING[6..])
  {
    hide Legal, Exec, Transcript;
    var received := COVERED.(history := [Chat(1)]);
    assert [] + [Chat(1)] == [Chat(1)];
    NextEvent(received, SENT_LOG, COVERING[5..], COVERED);
    NextEvent(SENT, SENT_LOG, COVERING[4..], received);
  }

  lemma AfterCover()
    ensures Legal(COVERED, COVERING[6..]) && Exec(COVERED, COVERING[6..]).history == [Chat(2)]
    ensures Transcript(COVERED, SENT_LOG, COVERING[6..]) == SENT_LOG + [Replied([])]
  {
    hide Legal, Exec, Transcript;
    var asked := State([Chat(2)], Output(Running, [Chat(2)], 1), Messages([Chat(1)]), 1, 0, false, Asking,
                       true, false, false);
    var replied := asked.(agentSignal := 0, waiting := false);
    var log := SENT_LOG + [Replied([])];
    ReplyNothing(asked, replied);
    assert Apply(COVERED, Ask) == asked;
    hide Apply, Observe;
    NoEvent(replied, log, COVERING[8..]);
    NextEvent(asked, SENT_LOG, COVERING[7..], replied);
    NextEvent(COVERED, SENT_LOG, COVERING[6..], asked);
  }

  lemma ReplyNothing(asked: State, replied: State)
    requires asked.waiting && asked.agentSignal == 1 && asked.out.history == [Chat(2)] && asked.out.ptr == 1
    requires replied == asked.(agentSignal := 0, waiting := false)
    ensures Apply(asked, Reply) == replied && Observe(asked, SENT_LOG, Reply) == SENT_LOG + [Replied([])]
  {
    assert [Chat(2)][1..] == [];
  }

  lemma NextEvent(s: State, log: seq<Segment>, run: seq<Event>, s': State)
    requires run != [] && Enabled(s, run[0]) && Apply(s, run[0]) == s'
    ensures Legal(s', run[1..]) ==>
              && Legal(s, run) && Exec(s, run) == Exec(s', run[1..])
              && Transcript(s, log, run) == Transcript(s', Observe(s, log, run[0]), run[1..])
  {}

  lemma NoEvent(s: State, log: seq<Segment>, run: seq<Event>)
    requires run == []
    ensures Legal(s, run) && Exec(s, run) == s && Transcript(s, log, run) == log
  {}

  // ---------------------------------------------------------------- cancellation

  /** Once cancelled, the environment will only ever be given the cancellation. */
  ghost predicate CancelFinal(s: State) {
    s.cancelling ==> s.input == Cancelled
  }

  /** A client that waits for an environment that has ended finds its output ready. */
  ghost predicate Deliverable(s: State) {
    s.agentSignal + 1 >= (if s.env == Ended then 1 else 0) + (if s.waiting then 1 else 0)
  }

  /** The inputs that `env_pull` returns along a run. */
  function Pulled(s: State, run: seq<Event>): seq<Input>
    requires Legal(s, run)
    decreases |run|
  {
    if run == [] then []
    else (if run[0].Receive? then [s.input] else []) + Pulled(Apply(s, run[0]), run[1..])
  }

  lemma {:induction false} RunKeepsFinal(s: State, run: seq<Event>)
    requires CancelFinal(s) && Deliverable(s) && Legal(s, run)
    ensures CancelFinal(Exec(s, run)) && Deliverable(Exec(s, run))
    decreases |run|
  {
    if run != [] {
      RunKeepsFinal(Apply(s, run[0]), run[1..]);
    }
  }

  lemma {:induction false} PulledAfterCancel(s: State, run: seq<Event>)
    requires CancelFinal(s) && Deliverable(s) && s.cancelling && Legal(s, run)
    ensures forall i | 0 <= i < |Pulled(s, run)| :: Pulled(s, run)[i] == Cancelled
    decreases |run|
  {
    if run != [] {
      PulledAfterCancel(Apply(s, run[0]), run[1..]);
    }
  }

  /** Until the environment picks a cancellation up, the signal it needs is there. */
  lemma {:induction false} SignalStays(s: State, run: seq<Event>)
    requires s.envSignal > 0 && Legal(s, run) && forall i | 0 <= i < |run| :: !run[i].Receive?
    ensures Exec(s, run).envSignal > 0
    decreases |run|
  {
    if run != [] {
      SignalStays(Apply(s, run[0]), run[1..]);
    }
  }

  /** Cancellation is final: whatever came before, and whatever was in flight, every later return of
      `env_pull` carries CANCELLED, and the next `env_pull` of the environment does not block. */
  lemma CancelIsFinal(fullAsync: bool, before: seq<Event>, after: seq<Event>)
    requires Legal(Init(fullAsync), before) && Enabled(Exec(Init(fullAsync), before), Cancel)
    requires Legal(Apply(Exec(Init(fullAsync), before), Cancel), after)
    ensures var s := Apply(Exec(Init(fullAsync), before), Cancel);
            && (forall i | 0 <= i < |Pulled(s, after)| :: Pulled(s, after)[i] == Cancelled)
            && (Pulled(s, after) == [] ==>
                  Exec(s, after).envSignal > 0 && (Exec(s, after).env == Asking ==> Enabled(Exec(s, after), Receive)))
  {
    RunKeepsFinal(Init(fullAsync), before);
    var s := Apply(Exec(Init(fullAsync), before), Cancel);
    PulledAfterCancel(s, after);
    if Pulled(s, after) == [] {
      NothingPulled(s, after);
      SignalStays(s, after);
    }
  }

  lemma {:induction false} NothingPulled(s: State, run: seq<Event>)
    requires Legal(s, run) && Pulled(s, run) == []
    ensures forall i | 0 <= i < |run| :: !run[i].Receive?
    decreases |run|
  {
    if run != [] {
      NothingPulled(Apply(s, run[0]), run[1..]);
      forall i | 0 <= i < |run| ensures !run[i].Receive? {
        if i > 0 { assert run[i] == run[1..][i - 1]; }
      }
    }
  }

  /** A client waits, and no continuation ever lets it go on. */
  ghost predicate Stranded(s: State) {
    s.waiting && forall run | Legal(s, run) :: !Enabled(Exec(s, run), Reply)
  }

  /** A waiting client has its answer, or the environment will work, or the environment was killed before it began. */
  ghost predicate Served(s: State) {
    && Deliverable(s)
    && (s.env == Unstarted || s.env == Killed ==> s.waiting && s.agentSignal == 0)
    && (s.env == Asking && s.waiting ==> s.agentSignal > 0 || s.envSignal > 0)
  }

  lemma {:induction false} RunKeepsServed(s: State, run: seq<Event>)
    requires Served(s) && CancelFinal(s) && Legal(s, run)
    ensures Served(Exec(s, run))
    decreases |run|
  {
    if run != [] {
      RunKeepsServed(Apply(s, run[0]), run[1..]);
    }
  }

  /** Nothing happens any more in a session whose environment was killed. */
  lemma KilledIsDead(s: State, run: seq<Event>)
    requires s.env == Killed && s.agentSignal == 0 && Legal(s, run)
    ensures run == []
  {}

  /** The way on for a client that waits. */
  lemma WayOut(s: State) returns (run: seq<Event>)
    requires Served(s) && s.waiting && s.env != Killed
    ensures Legal(s, run) && Enabled(Exec(s, run), Reply)
  {
    run := if s.agentSignal > 0 then [] else if s.env == Busy then [End(0)]
           else if s.env == Unstarted then [Begin] + [End(0)] else [Receive] + [End(0)];
    if s.agentSignal == 0 {
      var s1 := if s.env == Busy then s else Apply(s, run[0]);
      assert [End(0)][1..] == [] && (|run| == 2 ==> run[1..] == [End(0)]);
      assert Legal(Apply(s1, End(0)), []);
      assert Legal(s1, [End(0)]) && Exec(s1, [End(0)]) == Apply(s1, End(0));
    }
  }

  lemma {:induction false} KilledIffKill(s: State, run: seq<Event>)
    requires Served(s) && CancelFinal(s) && s.env != Killed && Legal(s, run)
    ensures Exec(s, run).env == Killed <==> Kill in run
    decreases |run|
  {
    if run != [] {
      var s' := Apply(s, run[0]);
      assert run == [run[0]] + run[1..];
      if run[0] == Kill {
        KilledIsDead(s', run[1..]);
      } else {
        KilledIffKill(s', run[1..]);
      }
    }
  }

  /** In every run, cancelled or not, a client is stranded if and only if the task of its environment was cancelled
      before its first step. */
  lemma StrandedIffKilled(fullAsync: bool, run: seq<Event>)
    requires Legal(Init(fullAsync), run)
    ensures Stranded(Exec(Init(fullAsync), run)) <==> Kill in run
  {
    var s := Exec(Init(fullAsync), run);
    RunKeepsServed(Init(fullAsync), run);
    KilledIffKill(Init(fullAsync), run);
    if s.env == Killed {
      forall more | Legal(s, more) ensures !Enabled(Exec(s, more), Reply) { KilledIsDead(s, more); }
    } else if s.waiting {
      var more := WayOut(s);
    }
  }

  /** So only full-async sessions can strand a client; a client of any other session is answered when the session
      ends. */
  lemma {:induction false} ClientNeverStranded(run: seq<Event>)
    requires Legal(Init(false), run)
    ensures !Stranded(Exec(Init(false), run))
    ensures var s := Exec(Init(false), run); s.env == Ended && s.waiting ==> Enabled(s, Reply)
  {
    RunKeepsServed(Init(false), run);
    NoKill(Init(false), run);
    StrandedIffKilled(false, run);
  }

  lemma {:induction false} NoKill(s: State, run: seq<Event>)
    requires !s.fullAsync && Legal(s, run)
    ensures Kill !in run
    decreases |run|
  {
    if run != [] {
      NoKill(Apply(s, run[0]), run[1..]);
      assert run == [run[0]] + run[1..];
    }
  }

  /** A cancellation that is handled before the new task has taken its first step strands the client of a full-async
      session. */
  lemma EarlyCancelStrands()
    ensures Legal(Init(true), [Cancel, Kill]) && Stranded(Exec(Init(true), [Cancel, Kill]))
  {
    assert [Cancel, Kill][1..] == [Kill] && [Kill][1..] == [];
    var s1 := Apply(Init(true), Cancel);
    assert Legal(Apply(s1, Kill), []);
    assert Legal(s1, [Kill]);
    assert Legal(Init(true), [Cancel, Kill]);
    StrandedIffKilled(true, [Cancel, Kill]);
  }

  // ---------------------------------------------------------------- splitting a reply

  function ChatItems(h: seq<Item>): seq<Item> {
    if h == [] then [] else ChatItems(h[..|h| - 1]) + if h[|h| - 1].Chat? then [h[|h| - 1]] else []
  }

  function RewardItems(h: seq<Item>): seq<Item> {
    if h == [] then [] else RewardItems(h[..|h| - 1]) + if h[|h| - 1].Reward? then [h[|h| - 1]] else []
  }

  method SplitHistory(history: seq<Item>) returns (chat: seq<Item>, rewards: seq<Item>)
    ensures chat == ChatItems(history) && rewards == RewardItems(history)
  {
    chat, rewards := [], [];
    for i := 0 to |history|
      invariant chat == ChatItems(history[..i]) && rewards == RewardItems(history[..i])
    {
      assert history[..i + 1][..i] == history[..i];
      assert history[..i + 1] == history[..i] + [history[i]];
      if history[i].Reward? {
        rewards := rewards + [history[i]];
      } else {
        chat := chat + [history[i]];
      }
    }
    assert history[..|history|] == history;
  }

  predicate Increasing(at: seq<nat>) {
    forall i, k | 0 <= i < k < |at| :: at[i] < at[k]
  }

  /** These are the items of one kind, chat or reward, all of them and in their order, with their positions. */
  predicate PicksOut(h: seq<Item>, at: seq<nat>, items: seq<Item>, chat: bool) {
    && Increasing(at) && |at| == |items|
    && (forall i | 0 <= i < |at| :: at[i] < |h| && items[i] == h[at[i]])
    && (forall i: nat | i < |h| :: i in at <==> h[i].Chat? == chat)
  }

  lemma PicksNext(h: seq<Item>, at: seq<nat>, items: seq<Item>, chat: bool)
    requires h != [] && PicksOut(h[..|h| - 1], at, items, chat)
    ensures var n := |h| - 1;
            if h[n].Chat? == chat then PicksOut(h, at + [n], items + [h[n]], chat) else PicksOut(h, at, items, chat)
  {
    var n := |h| - 1;
    assert forall i: nat | i < n :: h[i] == h[..n][i];
    assert n !in at && forall i | 0 <= i < |at| :: at[i] < n;
    assert forall i: nat :: i in at + [n] <==> i in at || i == n;
  }

  /** Each side keeps the order: it is the history at increasing positions, and these are all of its kind. */
  lemma {:induction false} SplitKeepsOrder(h: seq<Item>) returns (cs: seq<nat>, rs: seq<nat>)
    ensures PicksOut(h, cs, ChatItems(h), true) && PicksOut(h, rs, RewardItems(h), false)
  {
    cs, rs := [], [];
    if h != [] {
      var n := |h| - 1;
      cs, rs := SplitKeepsOrder(h[..n]);
      PicksNext(h, cs, ChatItems(h[..n]), true);
      PicksNext(h, rs, RewardItems(h[..n]), false);
      hide PicksOut;
      assert ChatItems(h[..n]) + [] == ChatItems(h[..n]) && RewardItems(h[..n]) + [] == RewardItems(h[..n]);
      if h[n].Chat? { cs := cs + [n]; } else { rs := rs + [n]; }
    }
  }

  /** What the client is told: the chat part of a reply, whether the session is over, and the last reward. */
  datatype Response = Response(messages: seq<Item>, status: Status, finish: bool, reward: int)

  /** The content of a response to `start_sample` and `interact`. */
  method Respond(status: Status, reply: seq<Item>) returns (r: Response)
    ensures r.messages == ChatItems(reply)
    ensures r.status == status && (r.finish <==> status != Running)
    ensures (forall i | 0 <= i < |reply| :: !reply[i].Reward?) ==> r.reward == 0
    ensures forall i | 0 <= i < |reply| && reply[i].Reward? && (forall k | i < k < |reply| :: !reply[k].Reward?) ::
              r.reward == reply[i].reward
  {
    var chat, rewards := SplitHistory(reply);
    ghost var cs, rs := SplitKeepsOrder(reply);
    var reward := 0;
    if |rewards| > 0 {
      ghost var last := rs[|rs| - 1];
      assert rewards[|rewards| - 1] == reply[last] && last in rs;
      reward := rewards[|rewards| - 1].reward;
    }
    r := Response(chat, status, status != Running, reward);
  }

  /** Every item goes to exactly one side. */
  lemma {:induction false} SplitKeepsItems(h: seq<Item>)
    ensures multiset(ChatItems(h)) + multiset(RewardItems(h)) == multiset(h)
    ensures forall x | x in ChatItems(h) :: x.Chat?
    ensures forall x | x in RewardItems(h) :: x.Reward?
  {
    if h != [] {
      SplitKeepsItems(h[..|h| - 1]);
      assert h == h[..|h| - 1] + [h[|h| - 1]];
    }
  }

  /** Splitting slice by slice gives the split of the whole. */
  lemma {:induction false} ChatItemsConcat(a: seq<Item>, b: seq<Item>)
    ensures ChatItems(a + b) == ChatItems(a) + ChatItems(b)
  {
    if b == [] {
      assert a + b == a;
    } else {
      ChatItemsConcat(a, b[..|b| - 1]);
      assert (a + b)[..|a + b| - 1] == a + b[..|b| - 1];
    }
  }

  /** The chat messages on the wire, in order. */
  function ChatLog(log: seq<Segment>): seq<Item> {
    if log == [] then [] else ChatLog(log[..|log| - 1]) + ChatItems(log[|log| - 1].items)
  }

  lemma {:induction false} ChatLogFlatten(log: seq<Segment>)
    ensures ChatLog(log) == ChatItems(Flatten(log))
  {
    if log != [] {
      ChatLogFlatten(log[..|log| - 1]);
      ChatItemsConcat(Flatten(log[..|log| - 1]), log[|log| - 1].items);
    }
  }

  /** What the client reads after rewards have been split off is the chat part of the history. */
  lemma ChatTranscriptIsHistory(fullAsync: bool, run: seq<Event>)
    requires Legal(Init(fullAsync), run) && forall i | 0 <= i < |run| :: Plain(run[i])
    requires !Exec(Init(fullAsync), run).waiting
    ensures ChatLog(Transcript(Init(fullAsync), [], run)) == ChatItems(Exec(Init(fullAsync), run).history)
  {
    TranscriptIsHistory(fullAsync, run);
    ChatLogFlatten(Transcript(Init(fullAsync), [], run));
  }

  // ---------------------------------------------------------------- the controller object

  /** `SessionController` and the `Session` around it; each method runs from one await point to the next. */
  class Session {
    var history: seq<Item>
    var out: Output
    var input: Input
    var agentSignal: nat
    var envSignal: nat
    var fullHistory: bool
    ghost var env: EnvPhase
    var waiting: bool                // agent_lock is held
    var cancelling: bool
    const fullAsync: bool

    ghost function View(): State
      reads this
    {
      State(history, out, input, agentSignal, envSignal, fullHistory, env, waiting, cancelling, fullAsync)
    }

    constructor (fullAsync: bool)
      ensures View() == Init(fullAsync)
    {
      this.fullAsync := fullAsync;
      history, out, input := [], Output(Running, [], 0), NoInput;
      agentSignal, envSignal, fullHistory := 0, 0, false;
      env, waiting, cancelling := Unstarted, true, false;
    }

    /** The environment's task takes its first step. */
    ghost method TakeFirstStep()
      requires Enabled(View(), Begin)
      modifies this`env
      ensures View() == Apply(old(View()), Begin)
    {
      env := Busy;
    }

    /** `env_pull` up to its await. */
    method EnvPullEnter()
      requires Enabled(View(), Ask)
      modifies this
      ensures View() == Apply(old(View()), Ask)
    {
      if fullHistory {
        out := out.(ptr := 0);
      } else {
        out := out.(ptr := |out.history|);
      }
      out := out.(history := history);
      agentSignal := agentSignal + 1;
      env := Asking;
    }

    /** `env_pull` after its await, and the rest of `action`: raises when the answer is a cancellation. */
    method EnvPullLeave() returns (response: Input, raised: bool)
      requires Enabled(View(), Receive)
      modifies this
      ensures View() == Apply(old(View()), Receive)
      ensures response == old(input) && raised == old(!input.Messages?)
    {
      envSignal := envSignal - 1;
      env := Busy;
      response := input;
      raised := !response.Messages?;
      if !raised {
        var i := 0;
        while i < |response.ms|
          invariant 0 <= i <= |response.ms|
          invariant history == old(history) + response.ms[..i]
          invariant out == old(out) && agentSignal == old(agentSignal) && envSignal == old(envSignal) - 1
          invariant input == old(input) && fullHistory == old(fullHistory) && env == Busy
          invariant waiting == old(waiting) && cancelling == old(cancelling)
        {
          history := history + [response.ms[i]];
          i := i + 1;
        }
        assert response.ms[..i] == response.ms;
        out := out.(history := history);
      }
    }

    method EnvFinish(code: int)
      requires Enabled(View(), End(code))
      modifies this
      ensures View() == Apply(old(View()), End(code))
    {
      var before := out.history;
      out := Output(Finished(code), history, 0);
      if !fullHistory {
        out := out.(ptr := |before|);
      }
      agentSignal := agentSignal + 1;
      env := Ended;
    }

    /** `interact` up to the await in `agent_pull`; refuses while another request waits or after a cancellation. */
    method AgentPullEnter(messages: seq<Item>) returns (accepted: bool)
      requires Alive(env) && messages != []
      modifies this
      ensures accepted <==> old(Enabled(View(), Send(messages)))
      ensures accepted ==> View() == Apply(old(View()), Send(messages))
      ensures !accepted ==> View() == old(View())
    {
      accepted := !waiting && !cancelling;
      if accepted {
        input := Messages(messages);
        envSignal := envSignal + 1;
        waiting := true;
      }
    }

    /** `agent_pull` after its await. */
    method AgentPullLeave() returns (status: Status, reply: seq<Item>)
      requires Enabled(View(), Reply)
      modifies this
      ensures View() == Apply(old(View()), Reply)
      ensures status == out.status && reply == Slice(old(out.history), old(out.ptr))
    {
      agentSignal := agentSignal - 1;
      waiting := false;
      status := out.status;
      reply := if out.ptr <= |out.history| then out.history[out.ptr..] else [];
    }

    /** `_cancel` up to its first await. */
    method CancelEnter()
      requires Enabled(View(), Cancel)
      modifies this
      ensures View() == Apply(old(View()), Cancel)
    {
      cancelling := true;
      input := Cancelled;
      envSignal := envSignal + 1;
    }
  }
}
