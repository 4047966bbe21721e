/** What one undisturbed `start_session` takes and `end_session` gives back, with each turn's order of candidates
    left to chance.

    Between the two the code stores a map from subtypes to containers: of several containers that one call takes for
    one subtype it keeps the last, and the others stay recorded. */
module AllocationTurns {
  import opened Allocation

  /** The candidate may serve one more session. */
  predicate Eligible(cfg: Config, t: Subtype, users: map<Container, set<SessionId>>, uses: map<Container, nat>,
                     c: Container)
  {
    && !Reached(cfg.reuse(t), UsesIn(uses, c))
    && !Reached(cfg.concurrency(t), |UsersIn(users, c)|)
  }

  function UsersIn(users: map<Container, set<SessionId>>, c: Container): set<SessionId> {
    if c in users then users[c] else {}
  }

  function UsesIn(uses: map<Container, nat>, c: Container): nat {
    if c in uses then uses[c] else 0
  }

  /** What the shared part of `start_session` has done so far: the records, the next unused container, the candidate
      lists, and the containers taken, one for each turn. */
  datatype Progress = Progress(
    users: map<Container, set<SessionId>>,
    uses: map<Container, nat>,
    next: Container,
    lists: map<Subtype, seq<Container>>,
    taken: seq<Container>)

  /** The shared part of one call: turn `k` serves `todo[k]`, with its candidates in the order `orders[k]`. */
  datatype Call = Call(
    cfg: Config,
    start: Progress,
    todo: seq<Subtype>,
    orders: seq<seq<Container>>,
    sid: SessionId)

  // ---------------------------------------------------------------- one turn

  /** Where the search among the candidates stops: at the first eligible one, or at the end. */
  function First(cfg: Config, t: Subtype, users: map<Container, set<SessionId>>, uses: map<Container, nat>,
                 order: seq<Container>): (i: nat)
    ensures i <= |order|
    ensures i < |order| ==> Eligible(cfg, t, users, uses, order[i])
    ensures forall j | 0 <= j < i :: !Eligible(cfg, t, users, uses, order[j])
  {
    if order == [] || Eligible(cfg, t, users, uses, order[0]) then 0 else 1 + First(cfg, t, users, uses, order[1..])
  }

  lemma FirstOfLonger(cfg: Config, t: Subtype, users: map<Container, set<SessionId>>, uses: map<Container, nat>,
                      order: seq<Container>, existing: seq<Container>)
    requires order <= existing
    ensures var i := First(cfg, t, users, uses, existing);
            First(cfg, t, users, uses, order) == if i < |order| then i else |order|
  {
    var i, m := First(cfg, t, users, uses, existing), First(cfg, t, users, uses, order);
    assert m < |order| ==> order[m] == existing[m];
    assert i < |order| ==> order[i] == existing[i];
  }

  /** The container a turn takes: the first eligible candidate in that turn's order, or a new one. */
  function Selected(cfg: Config, p: Progress, t: Subtype, order: seq<Container>): Container {
    var i := First(cfg, t, p.users, p.uses, order);
    if i < |order| then order[i] else p.next
  }

  function Turn(cfg: Config, p: Progress, t: Subtype, order: seq<Container>, sid: SessionId): Progress {
    var c := Selected(cfg, p, t, order);
    var created := First(cfg, t, p.users, p.uses, order) == |order|;
    Progress(p.users[c := UsersIn(p.users, c) + {sid}],
             p.uses[c := UsesIn(p.uses, c) + 1],
             if created then p.next + 1 else p.next,
             p.lists[t := if created then order + [c] else order],
             p.taken + [c])
  }

  /** After the first `k` turns. */
  function Served(call: Call, k: nat): Progress
    requires k <= |call.todo| == |call.orders|
  {
    if k == 0 then call.start
    else Turn(call.cfg, Served(call, k - 1), call.todo[k - 1], call.orders[k - 1], call.sid)
  }

  /** What a shuffle can make of the candidates of `t`. */
  ghost predicate ShuffleOf(p: Progress, t: Subtype, order: seq<Container>) {
    t in p.lists && multiset(order) == multiset(p.lists[t])
  }

  /** Records and candidates are about containers that exist, and a candidate belongs to one subtype, by its label. */
  ghost predicate Consistent(p: Progress) {
    && (forall c | c in p.users :: c < p.next)
    && (forall c | c in p.uses :: c < p.next)
    && (forall t, c | t in p.lists && c in p.lists[t] :: c < p.next)
    && (forall t, u, c | t in p.lists && u in p.lists && c in p.lists[t] && c in p.lists[u] :: t == u)
  }

  ghost predicate ShuffledAt(call: Call, k: nat)
    requires k < |call.todo| == |call.orders|
  {
    ShuffleOf(Served(call, k), call.todo[k], call.orders[k])
  }

  /** The call starts soundly, and each turn's order is a shuffle of that turn's candidates. */
  ghost predicate LegalCall(call: Call) {
    && Consistent(call.start) && call.start.taken == [] && |call.todo| == |call.orders|
    && forall k: nat | k < |call.todo| :: ShuffledAt(call, k)
  }

  /** The sessions recorded on `c` after `sid` has been recorded on the containers in `taken`. */
  function WithSession(before: set<SessionId>, taken: seq<Container>, c: Container, sid: SessionId): set<SessionId> {
    if c in taken then before + {sid} else before
  }

  /** The records differ by `sid` on the containers in `taken`, and nowhere else. */
  ghost predicate Recorded(users0: map<Container, set<SessionId>>, users: map<Container, set<SessionId>>,
                           taken: seq<Container>, sid: SessionId)
  {
    forall c: Container :: UsersIn(users, c) == WithSession(UsersIn(users0, c), taken, c, sid)
  }

  /** Every container in `taken` has been counted as often as it was taken. */
  ghost predicate Counted(uses0: map<Container, nat>, uses: map<Container, nat>, taken: seq<Container>) {
    forall c: Container :: UsesIn(uses, c) == UsesIn(uses0, c) + multiset(taken)[c]
  }

  /** Every turn took a container that is a candidate of its subtype now. */
  ghost predicate OwnCandidates(p: Progress, todo: seq<Subtype>) {
    && |p.taken| <= |todo|
    && forall i | 0 <= i < |p.taken| :: todo[i] in p.lists && p.taken[i] in p.lists[todo[i]]
  }

  lemma SameMembers(a: seq<Container>, b: seq<Container>)
    requires multiset(a) == multiset(b)
    ensures forall c :: c in a <==> c in b
  {
    forall c ensures c in a <==> c in b {
      assert c in a <==> c in multiset(a);
    }
  }

  /** The effects of a turn, told by what was selected. */
  lemma AsOneTurn(cfg: Config, p: Progress, q: Progress, t: Subtype, order: seq<Container>, existing: seq<Container>,
                  sid: SessionId)
    requires forall c | c in order :: c < p.next
    requires var c := Selected(cfg, p, t, order);
             && q.users == p.users[c := UsersIn(p.users, c) + {sid}] && q.uses == p.uses[c := UsesIn(p.uses, c) + 1]
             && (c in order ==> q.next == p.next && existing == order)
             && (c !in order ==> q.next == p.next + 1 && existing == order + [c])
             && q.lists == p.lists[t := existing] && q.taken == p.taken + [c]
    ensures q == Turn(cfg, p, t, order, sid)
  {}

  lemma TurnKeepsConsistent(cfg: Config, p: Progress, t: Subtype, order: seq<Container>, sid: SessionId)
    requires Consistent(p) && ShuffleOf(p, t, order)
    ensures Consistent(Turn(cfg, p, t, order, sid))
  {
    TurnKeepsLists(cfg, p, t, order, sid);
    var q, c := Turn(cfg, p, t, order, sid), Selected(cfg, p, t, order);
    assert q.users.Keys == p.users.Keys + {c} && q.uses.Keys == p.uses.Keys + {c};
    hide Turn, Selected, ShuffleOf;
    forall u, v, d | u in q.lists && v in q.lists && d in q.lists[u] && d in q.lists[v] ensures u == v {
      assert d != c ==> d in p.lists[u] && d in p.lists[v];
    }
  }

  lemma TurnKeepsLists(cfg: Config, p: Progress, t: Subtype, order: seq<Container>, sid: SessionId)
    requires ShuffleOf(p, t, order)
    ensures var q := Turn(cfg, p, t, order, sid);
            && q.lists.Keys == p.lists.Keys && p.next <= q.next
            && var c := Selected(cfg, p, t, order);
            && ((c in p.lists[t] && q.next == p.next) || (c == p.next && q.next == p.next + 1))
            && (forall u | u in p.lists && u != t :: q.lists[u] == p.lists[u])
            && (forall c :: c in q.lists[t] <==> c in p.lists[t] || c == Selected(cfg, p, t, order))
            && q.taken == p.taken + [Selected(cfg, p, t, order)]
  {
    SameMembers(order, p.lists[t]);
  }

  lemma TurnRecords(cfg: Config, start: Progress, p: Progress, t: Subtype, order: seq<Container>, sid: SessionId)
    requires Recorded(start.users, p.users, p.taken, sid) && Counted(start.uses, p.uses, p.taken)
    ensures var q := Turn(cfg, p, t, order, sid);
            Recorded(start.users, q.users, q.taken, sid) && Counted(start.uses, q.uses, q.taken)
  {
    hide Turn, Selected, First, UsersIn, UsesIn;
    var q := Turn(cfg, p, t, order, sid);
    forall c: Container
      ensures UsersIn(q.users, c) == WithSession(UsersIn(start.users, c), q.taken, c, sid)
      ensures UsesIn(q.uses, c) == UsesIn(start.uses, c) + multiset(q.taken)[c]
    {
      TurnAt(cfg, p, t, order, sid, c);
      assert UsersIn(p.users, c) == WithSession(UsersIn(start.users, c), p.taken, c, sid);
      assert UsesIn(p.uses, c) == UsesIn(start.uses, c) + multiset(p.taken)[c];
    }
  }

  lemma TurnAt(cfg: Config, p: Progress, t: Subtype, order: seq<Container>, sid: SessionId, c: Container)
    ensures var q, s := Turn(cfg, p, t, order, sid), Selected(cfg, p, t, order);
            && q.taken == p.taken + [s]
            && UsersIn(q.users, c) == (if c == s then UsersIn(p.users, c) + {sid} else UsersIn(p.users, c))
            && UsesIn(q.uses, c) == (if c == s then UsesIn(p.uses, c) + 1 else UsesIn(p.uses, c))
  {
    hide Selected;
  }

  /** From one turn to the next. */
  lemma OneTurn(call: Call, k: nat)
    requires LegalCall(call) && k < |call.todo|
    ensures ShuffleOf(Served(call, k), call.todo[k], call.orders[k])
    ensures Served(call, k + 1) == Turn(call.cfg, Served(call, k), call.todo[k], call.orders[k], call.sid)
  {
    assert ShuffledAt(call, k);
  }

  lemma NoTurn(call: Call)
    requires LegalCall(call)
    ensures var p := Served(call, 0);
            && p == call.start && OwnCandidates(p, call.todo)
            && Recorded(p.users, p.users, p.taken, call.sid) && Counted(p.uses, p.uses, p.taken)
  {}

  lemma TurnKeepsOwn(cfg: Config, p: Progress, todo: seq<Subtype>, order: seq<Container>, sid: SessionId)
    requires OwnCandidates(p, todo) && |p.taken| < |todo| && ShuffleOf(p, todo[|p.taken|], order)
    ensures OwnCandidates(Turn(cfg, p, todo[|p.taken|], order, sid), todo)
  {
    var t := todo[|p.taken|];
    TurnKeepsLists(cfg, p, t, order, sid);
    var q := Turn(cfg, p, t, order, sid);
    hide Turn, Selected, ShuffleOf;
    forall i | 0 <= i < |q.taken| ensures todo[i] in q.lists && q.taken[i] in q.lists[todo[i]] {
      assert i < |p.taken| ==> q.taken[i] == p.taken[i];
    }
  }

  /** What holds after every turn. */
  lemma {:induction false} ServedKeeps(call: Call, k: nat)
    requires LegalCall(call) && k <= |call.todo|
    ensures var p := Served(call, k);
            && Consistent(p) && |p.taken| == k && OwnCandidates(p, call.todo) && call.start.next <= p.next
            && Recorded(call.start.users, p.users, p.taken, call.sid) && Counted(call.start.uses, p.uses, p.taken)
  {
    hide Served, Consistent, Recorded, Counted, OwnCandidates, Turn, ShuffleOf, Selected;
    if k > 0 {
      OneTurn(call, k - 1);
      ServedKeeps(call, k - 1);
      var p, t, order := Served(call, k - 1), call.todo[k - 1], call.orders[k - 1];
      TurnKeepsConsistent(call.cfg, p, t, order, call.sid);
      TurnRecords(call.cfg, call.start, p, t, order, call.sid);
      TurnKeepsLists(call.cfg, p, t, order, call.sid);
      TurnKeepsOwn(call.cfg, p, call.todo, order, call.sid);
    } else {
      NoTurn(call);
    }
  }

  lemma {:induction false} TakenAt(call: Call, i: nat, k: nat)
    requires LegalCall(call) && i < k <= |call.todo|
    ensures var p := Served(call, k);
            && |p.taken| == k
            && p.taken[i] == Selected(call.cfg, Served(call, i), call.todo[i], call.orders[i])
            && p.taken[..i] == Served(call, i).taken
  {
    hide Served, Turn, Selected, Consistent, Recorded, Counted, OwnCandidates, ShuffleOf;
    OneTurn(call, k - 1);
    ServedKeeps(call, k - 1);
    TurnKeepsLists(call.cfg, Served(call, k - 1), call.todo[k - 1], call.orders[k - 1], call.sid);
    if i < k - 1 {
      TakenAt(call, i, k - 1);
    }
  }

  // ---------------------------------------------------------------- a subtype asked for again

  /** In this order an eligible candidate stands before `c`. */
  predicate Overtaken(cfg: Config, t: Subtype, users: map<Container, set<SessionId>>, uses: map<Container, nat>,
                      order: seq<Container>, c: Container)
  {
    exists j :: 0 <= j < |order| && c !in order[..j + 1] && Eligible(cfg, t, users, uses, order[j])
  }

  /** With these sessions on it and `n` uses, a container of this subtype takes no further session. */
  predicate Full(cfg: Config, t: Subtype, sessions: set<SessionId>, n: nat) {
    Reached(cfg.concurrency(t), |sessions|) || Reached(cfg.reuse(t), n)
  }

  /** A search over an order in which `c` stands finds `c` exactly if `c` is eligible and not overtaken. */
  lemma SelectedIff(cfg: Config, p: Progress, t: Subtype, order: seq<Container>, c: Container)
    requires c in order && (forall d | d in order :: d < p.next)
    ensures Selected(cfg, p, t, order) == c
       <==> Eligible(cfg, t, p.users, p.uses, c) && !Overtaken(cfg, t, p.users, p.uses, order, c)
  {
    var i := First(cfg, t, p.users, p.uses, order);
    var m :| 0 <= m < |order| && order[m] == c;
    if Eligible(cfg, t, p.users, p.uses, c) && order[i] != c {
      assert c !in order[..i + 1];
      assert Overtaken(cfg, t, p.users, p.uses, order, c);
    }
  }

  /** A container of `t` stays as it is while other subtypes have their turns. */
  lemma {:induction false} OthersLeaveAlone(call: Call, t: Subtype, c: Container, j: nat, k: nat)
    requires LegalCall(call) && j <= k <= |call.todo|
    requires forall i | j <= i < k :: call.todo[i] != t
    requires t in Served(call, j).lists && c in Served(call, j).lists[t]
    ensures var p, q := Served(call, j), Served(call, k);
            && UsersIn(q.users, c) == UsersIn(p.users, c)
            && UsesIn(q.uses, c) == UsesIn(p.uses, c)
            && t in q.lists && q.lists[t] == p.lists[t]
  {
    hide Served, Recorded, Counted, OwnCandidates;
    if j < k {
      OneTurn(call, k - 1);
      OthersLeaveAlone(call, t, c, j, k - 1);
      ServedKeeps(call, k - 1);
      var q, order := Served(call, k - 1), call.orders[k - 1];
      SameMembers(order, q.lists[call.todo[k - 1]]);
      assert Selected(call.cfg, q, call.todo[k - 1], order) != c;
      hide Consistent, Selected;
    }
  }

  /** A later turn of a subtype takes another container than the turn before exactly if an eligible candidate
      stands before the earlier one in the later turn's order, or the earlier one is full once it is recorded. */
  lemma LaterTurnDiffersIff(call: Call, j: nat, k: nat)
    requires LegalCall(call)
    requires j < k < |call.todo| && call.todo[j] == call.todo[k]
    requires forall i | j < i < k :: call.todo[i] != call.todo[k]
    ensures var t, taken, p, q := call.todo[k], Served(call, |call.todo|).taken, Served(call, j), Served(call, k);
            && |taken| == |call.todo|
            && (taken[k] != taken[j]
                <==> || Overtaken(call.cfg, t, q.users, q.uses, call.orders[k], taken[j])
                     || Full(call.cfg, t, UsersIn(p.users, taken[j]) + {call.sid}, UsesIn(p.uses, taken[j]) + 1))
  {
    hide Served, Consistent, Turn, Selected, Overtaken, UsersIn, UsesIn, Reached;
    TakenAt(call, j, |call.todo|);
    TakenAt(call, k, |call.todo|);
    CandidatesExist(call, k);
    var t, p, q := call.todo[k], Served(call, j), Served(call, k);
    var c := Selected(call.cfg, p, t, call.orders[j]);
    OneTurn(call, j);
    OneTurn(call, k);
    TurnKeepsLists(call.cfg, p, t, call.orders[j], call.sid);
    TurnAt(call.cfg, p, t, call.orders[j], call.sid, c);
    OthersLeaveAlone(call, t, c, j + 1, k);
    SameMembers(call.orders[k], q.lists[t]);
    SelectedIff(call.cfg, q, t, call.orders[k], c);
  }

  // ---------------------------------------------------------------- when every turn takes the same

  predicate FirstTurn(todo: seq<Subtype>, f: nat) {
    f < |todo| && todo[f] !in todo[..f]
  }

  /** Turn `k` takes the container that the subtype's first turn `f` took, if all its turns in between did.
      Everything here is known beforehand: the records before the call, and the orders. */
  predicate Stays(cfg: Config, users: map<Container, set<SessionId>>, uses: map<Container, nat>, todo: seq<Subtype>,
                  orders: seq<seq<Container>>, sid: SessionId, f: nat, k: nat)
    requires f < k < |todo| == |orders|
  {
    var t, i, turns := todo[f], First(cfg, todo[f], users, uses, orders[f]), multiset(todo[..k])[todo[f]];
    if i < |orders[f]| then
      var c := orders[f][i];
      && !Overtaken(cfg, t, users, uses, orders[k], c)
      && !Full(cfg, t, UsersIn(users, c) + {sid}, UsesIn(uses, c) + turns)
    else
      !Full(cfg, t, {sid}, turns)
  }

  /** No turn displaces the container of an earlier one. */
  predicate NoneDisplaced(cfg: Config, users: map<Container, set<SessionId>>, uses: map<Container, nat>,
                          todo: seq<Subtype>, orders: seq<seq<Container>>, sid: SessionId)
    requires |todo| == |orders|
  {
    forall f, k | 0 <= f < k < |todo| && FirstTurn(todo, f) && todo[k] == todo[f] ::
      Stays(cfg, users, uses, todo, orders, sid, f, k)
  }

  /** The store says the same about every candidate in `order`, save perhaps `c`. */
  ghost predicate Agree(users0: map<Container, set<SessionId>>, uses0: map<Container, nat>,
                        users1: map<Container, set<SessionId>>, uses1: map<Container, nat>, order: seq<Container>)
  {
    forall d | d in order :: UsersIn(users0, d) == UsersIn(users1, d) && UsesIn(uses0, d) == UsesIn(uses1, d)
  }

  lemma FirstAgrees(cfg: Config, t: Subtype, users0: map<Container, set<SessionId>>, uses0: map<Container, nat>,
                    users1: map<Container, set<SessionId>>, uses1: map<Container, nat>, order: seq<Container>)
    requires Agree(users0, uses0, users1, uses1, order)
    ensures First(cfg, t, users0, uses0, order) == First(cfg, t, users1, uses1, order)
  {
    hide First, UsersIn, UsesIn;
    var i, j := First(cfg, t, users0, uses0, order), First(cfg, t, users1, uses1, order);
    assert i < |order| ==> order[i] in order;
    assert j < |order| ==> order[j] in order;
  }

  /** All turns of the subtype of turn `f` up to turn `k` took what turn `f` took. */
  ghost predicate Steady(call: Call, f: nat, k: nat)
    requires |call.todo| == |call.orders|
  {
    && FirstTurn(call.todo, f) && f < k <= |call.todo|
    && |Served(call, k).taken| == k
    && forall i | f <= i < k && call.todo[i] == call.todo[f] :: Served(call, k).taken[i] == Served(call, k).taken[f]
  }

  lemma SteadyBefore(call: Call, f: nat, j: nat, k: nat)
    requires LegalCall(call) && Steady(call, f, k) && f < j <= k
    ensures Steady(call, f, j) && Served(call, j).taken[f] == Served(call, k).taken[f]
  {
    hide Served, Consistent, Recorded, Counted, OwnCandidates;
    ServedKeeps(call, j);
    if j < k {
      TakenAt(call, j, k);
    }
  }

  /** As long as the turns are steady no further container is created for the subtype. */
  lemma {:induction false} SteadyMembers(call: Call, f: nat, k: nat)
    requires LegalCall(call) && Steady(call, f, k)
    ensures var t, c := call.todo[f], Served(call, k).taken[f];
            && t in Served(call, k).lists
            && forall d :: d in Served(call, k).lists[t] <==> d in call.orders[f] || d == c
  {
    hide Served, Consistent, Recorded, Counted, OwnCandidates;
    var p, u, order := Served(call, k - 1), call.todo[k - 1], call.orders[k - 1];
    OneTurn(call, k - 1);
    SameMembers(order, p.lists[u]);
    TurnKeepsLists(call.cfg, p, u, order, call.sid);
    ServedKeeps(call, k - 1);
    hide Selected, Turn;
    if f < k - 1 {
      SteadyBefore(call, f, k - 1, k);
      SteadyMembers(call, f, k - 1);
    }
  }

  /** A steady run has touched no candidate of the subtype but the one. */
  lemma SteadyTouchesOne(call: Call, f: nat, k: nat)
    requires LegalCall(call) && Steady(call, f, k)
    ensures var t, p := call.todo[f], Served(call, k);
            && t in p.lists
            && (forall i | 0 <= i < k :: p.taken[i] == p.taken[f] <==> call.todo[i] == t)
            && (forall d | d in p.lists[t] && d != p.taken[f] :: d !in p.taken)
  {
    hide Served, Recorded, Counted;
    ServedKeeps(call, k);
    assert forall i | 0 <= i < f :: call.todo[i] == call.todo[..f][i];
  }

  /** Two sequences whose marked positions are the same. */
  lemma {:induction false} CountsAgree<A, B>(a: seq<A>, b: seq<B>, x: A, y: B)
    requires |a| == |b| && forall i | 0 <= i < |a| :: a[i] == x <==> b[i] == y
    ensures multiset(a)[x] == multiset(b)[y]
  {
    if a != [] {
      var n := |a| - 1;
      assert a == a[..n] + [a[n]] && b == b[..n] + [b[n]];
      CountsAgree(a[..n], b[..n], x, y);
    }
  }

  /** What the first turn of a subtype takes, in terms of the records before the call. */
  lemma FirstTurnTakes(call: Call, f: nat)
    requires LegalCall(call) && FirstTurn(call.todo, f)
    ensures var t, order := call.todo[f], call.orders[f];
            var i, c := First(call.cfg, t, call.start.users, call.start.uses, order), Served(call, f + 1).taken;
            && |c| == f + 1
            && (i < |order| ==> c[f] == order[i])
            && (i == |order| ==> c[f] >= call.start.next)
  {
    hide Served;
    TakenAt(call, f, f + 1);
    ServedKeeps(call, f);
    var p, t, order := Served(call, f), call.todo[f], call.orders[f];
    OneTurn(call, f);
    SameMembers(order, p.lists[t]);
    assert forall i | 0 <= i < f :: call.todo[i] == call.todo[..f][i];
    forall d | d in order
      ensures UsersIn(call.start.users, d) == UsersIn(p.users, d) && UsesIn(call.start.uses, d) == UsesIn(p.uses, d)
    {
      assert d !in p.taken;
      assert UsersIn(p.users, d) == WithSession(UsersIn(call.start.users, d), p.taken, d, call.sid);
    }
    hide First;
    FirstAgrees(call.cfg, t, call.start.users, call.start.uses, p.users, p.uses, order);
  }

  /** What the records say after a steady run, in terms of what they said before the call. */
  lemma SteadyRecords(call: Call, f: nat, k: nat)
    requires LegalCall(call) && Steady(call, f, k)
    ensures var t, p, start := call.todo[f], Served(call, k), call.start;
            var c := p.taken[f];
            && UsersIn(p.users, c) == UsersIn(start.users, c) + {call.sid}
            && UsesIn(p.uses, c) == UsesIn(start.uses, c) + multiset(call.todo[..k])[t]
            && (c >= start.next ==> UsersIn(start.users, c) == {} && UsesIn(start.uses, c) == 0)
            && forall d | t in p.lists && d in p.lists[t] && d != c ::
                 UsersIn(p.users, d) == UsersIn(start.users, d) && UsesIn(p.uses, d) == UsesIn(start.uses, d)
  {
    hide Served;
    var t, p, start := call.todo[f], Served(call, k), call.start;
    var c := p.taken[f];
    SteadyTouchesOne(call, f, k);
    CountsAgree(p.taken, call.todo[..k], c, t);
    ServedKeeps(call, k);
    forall d | t in p.lists && d in p.lists[t] && d != c
      ensures UsersIn(p.users, d) == UsersIn(start.users, d) && UsesIn(p.uses, d) == UsesIn(start.uses, d)
    {
      assert UsersIn(p.users, d) == WithSession(UsersIn(start.users, d), p.taken, d, call.sid);
    }
  }

  lemma OvertakenAgrees(cfg: Config, t: Subtype, users0: map<Container, set<SessionId>>, uses0: map<Container, nat>,
                        users1: map<Container, set<SessionId>>, uses1: map<Container, nat>,
                        order: seq<Container>, c: Container)
    requires forall d | d in order && d != c :: UsersIn(users0, d) == UsersIn(users1, d)
                                             && UsesIn(uses0, d) == UsesIn(uses1, d)
    ensures Overtaken(cfg, t, users0, uses0, order, c) == Overtaken(cfg, t, users1, uses1, order, c)
  {
    forall j | 0 <= j < |order| && c !in order[..j + 1]
      ensures Eligible(cfg, t, users0, uses0, order[j]) == Eligible(cfg, t, users1, uses1, order[j])
    {
      assert order[j] == order[..j + 1][j];
    }
  }

  /** The next turn of a steady run stays with the container exactly if `Stays` says so. */
  lemma SteadyStaysIff(call: Call, f: nat, k: nat)
    requires LegalCall(call) && k < |call.todo| && Steady(call, f, k) && call.todo[k] == call.todo[f]
    ensures Steady(call, f, k + 1)
       <==> Stays(call.cfg, call.start.users, call.start.uses, call.todo, call.orders, call.sid, f, k)
  {
    hide Served, Consistent, Recorded, Counted, OwnCandidates, Turn, Selected, Overtaken, Reached;
    var cfg, t, p, order, start := call.cfg, call.todo[f], Served(call, k), call.orders[k], call.start;
    var c := p.taken[f];
    TakenAt(call, k, k + 1);
    OneTurn(call, k);
    SameMembers(order, p.lists[t]);
    CandidatesExist(call, k);
    SteadyMembers(call, f, k);
    SelectedIff(cfg, p, t, order, c);
    SteadyRecords(call, f, k);
    OvertakenAgrees(cfg, t, p.users, p.uses, start.users, start.uses, order, c);
    SteadyBefore(call, f, f + 1, k);
    FirstTurnTakes(call, f);
    if First(cfg, t, start.users, start.uses, call.orders[f]) == |call.orders[f]| {
      assert {call.sid} == UsersIn(start.users, c) + {call.sid};
      NotOvertaken(cfg, t, start.users, start.uses, call.orders[f], order, c);
    }
  }

  lemma CandidatesExist(call: Call, k: nat)
    requires LegalCall(call) && k < |call.todo|
    ensures forall d | d in call.orders[k] :: d < Served(call, k).next
  {
    hide Served;
    OneTurn(call, k);
    ServedKeeps(call, k);
    SameMembers(call.orders[k], Served(call, k).lists[call.todo[k]]);
  }

  lemma NotOvertaken(cfg: Config, t: Subtype, users: map<Container, set<SessionId>>, uses: map<Container, nat>,
                     before: seq<Container>, order: seq<Container>, c: Container)
    requires First(cfg, t, users, uses, before) == |before| && forall d | d in order :: d in before || d == c
    ensures !Overtaken(cfg, t, users, uses, order, c)
  {
    forall j | 0 <= j < |order| && c !in order[..j + 1] ensures !Eligible(cfg, t, users, uses, order[j]) {
      assert order[j] == order[..j + 1][j];
      assert order[j] in before;
    }
  }

  lemma {:induction false} StaysMakeSteady(call: Call, f: nat, k: nat)
    requires LegalCall(call) && FirstTurn(call.todo, f) && f < k <= |call.todo|
    requires NoneDisplaced(call.cfg, call.start.users, call.start.uses, call.todo, call.orders, call.sid)
    ensures Steady(call, f, k)
  {
    hide Served, Consistent, Recorded, Counted, OwnCandidates, Stays;
    ServedKeeps(call, k);
    if f < k - 1 {
      StaysMakeSteady(call, f, k - 1);
      TakenAt(call, k - 1, k);
      if call.todo[k - 1] == call.todo[f] {
        SteadyStaysIff(call, f, k - 1);
      }
    }
  }

  /** All turns of the same subtype took the same container. */
  ghost predicate SameForSame(todo: seq<Subtype>, taken: seq<Container>) {
    |taken| == |todo| && forall i, k | 0 <= i < |todo| && 0 <= k < |todo| && todo[i] == todo[k] :: taken[i] == taken[k]
  }

  lemma {:induction false} FirstTurnOf(todo: seq<Subtype>, k: nat) returns (f: nat)
    requires k < |todo|
    ensures FirstTurn(todo, f) && f <= k && todo[f] == todo[k]
  {
    f := k;
    if todo[k] in todo[..k] {
      var i :| 0 <= i < k && todo[i] == todo[k];
      f := FirstTurnOf(todo, i);
    }
  }

  /** Every subtype gets one container, however often it is asked for, exactly if no turn displaces another. */
  lemma NoneDisplacedIff(call: Call)
    requires LegalCall(call)
    ensures SameForSame(call.todo, Served(call, |call.todo|).taken)
       <==> NoneDisplaced(call.cfg, call.start.users, call.start.uses, call.todo, call.orders, call.sid)
  {
    hide Served, Consistent, Recorded, Counted, OwnCandidates, Stays;
    var n := |call.todo|;
    ServedKeeps(call, n);
    var taken := Served(call, n).taken;
    if NoneDisplaced(call.cfg, call.start.users, call.start.uses, call.todo, call.orders, call.sid) {
      forall i, k | 0 <= i < n && 0 <= k < n && call.todo[i] == call.todo[k] ensures taken[i] == taken[k] {
        var f := FirstTurnOf(call.todo, i);
        var g := FirstTurnOf(call.todo, k);
        assert f == g;
        StaysMakeSteady(call, f, n);
      }
    }
    if SameForSame(call.todo, taken) {
      forall f, k | 0 <= f < k < n && FirstTurn(call.todo, f) && call.todo[k] == call.todo[f]
        ensures Stays(call.cfg, call.start.users, call.start.uses, call.todo, call.orders, call.sid, f, k)
      {
        assert Steady(call, f, n);
        SteadyBefore(call, f, k, n);
        SteadyBefore(call, f, k + 1, n);
        SteadyStaysIff(call, f, k);
      }
    }
  }

  // ---------------------------------------------------------------- what is stored, and what is left behind

  /** The map stored for `end_session`: of several containers of one subtype it keeps the last. */
  function Stored(todo: seq<Subtype>, taken: seq<Container>): map<Subtype, Container>
    requires |taken| == |todo|
  {
    if todo == [] then map[]
    else
      var n := |todo| - 1;
      Stored(todo[..n], taken[..n])[todo[n] := taken[n]]
  }

  lemma {:induction false} StoredIsOne(todo: seq<Subtype>, taken: seq<Container>, t: Subtype)
    requires |taken| == |todo|
    ensures t in Stored(todo, taken) <==> t in todo
    ensures t in todo ==> exists i :: 0 <= i < |todo| && todo[i] == t && taken[i] == Stored(todo, taken)[t]
  {
    if todo != [] {
      var n := |todo| - 1;
      StoredIsOne(todo[..n], taken[..n], t);
      assert todo == todo[..n] + [todo[n]];
    }
  }

  lemma StoredSnoc(todo: seq<Subtype>, taken: seq<Container>, t: Subtype, c: Container)
    requires |taken| == |todo|
    ensures Stored(todo + [t], taken + [c]) == Stored(todo, taken)[t := c]
  {
    assert (todo + [t])[..|todo|] == todo && (taken + [c])[..|todo|] == taken;
  }

  lemma StoredNothing(alone: map<Subtype, Container>)
    ensures alone + Stored([], []) == alone
  {}

  lemma StoredNext(alone: map<Subtype, Container>, todo: seq<Subtype>, taken: seq<Container>, k: nat, c: Container)
    requires |taken| == k < |todo|
    ensures alone + Stored(todo[..k + 1], taken + [c]) == (alone + Stored(todo[..k], taken))[todo[k] := c]
  {
    assert todo[..k + 1] == todo[..k] + [todo[k]];
    StoredSnoc(todo[..k], taken, todo[k], c);
  }

  /** If no container serves two subtypes, all of them are stored exactly if every subtype has only one. */
  lemma AllStoredIff(todo: seq<Subtype>, taken: seq<Container>)
    requires |taken| == |todo|
    requires forall i, k | 0 <= i < |todo| && 0 <= k < |todo| && taken[i] == taken[k] :: todo[i] == todo[k]
    ensures (forall c | c in taken :: c in Stored(todo, taken).Values) <==> SameForSame(todo, taken)
  {
    var session := Stored(todo, taken);
    if SameForSame(todo, taken) {
      forall c | c in taken ensures c in session.Values {
        var i :| 0 <= i < |todo| && taken[i] == c;
        StoredIsOne(todo, taken, todo[i]);
        assert session[todo[i]] == c;
      }
    }
    if forall c | c in taken :: c in session.Values {
      forall i | 0 <= i < |todo| ensures todo[i] in session && session[todo[i]] == taken[i] {
        assert taken[i] in session.Values;
        var t :| t in session && session[t] == taken[i];
        StoredIsOne(todo, taken, t);
      }
    }
  }

  /** All containers of a whole call are in the stored map exactly if no turn displaces another. */
  lemma NothingForgottenIff(call: Call)
    requires LegalCall(call)
    ensures |Served(call, |call.todo|).taken| == |call.todo|
    ensures (forall c | c in Served(call, |call.todo|).taken ::
               c in Stored(call.todo, Served(call, |call.todo|).taken).Values)
       <==> NoneDisplaced(call.cfg, call.start.users, call.start.uses, call.todo, call.orders, call.sid)
  {
    hide Served, Recorded, Counted, Stored, NoneDisplaced, SameForSame;
    ServedKeeps(call, |call.todo|);
    AllStoredIff(call.todo, Served(call, |call.todo|).taken);
    NoneDisplacedIff(call);
  }

  // ---------------------------------------------------------------- exclusive containers

  /** A subtype whose containers serve one session only in this call. */
  predicate SoleUse(cfg: Config, immutable: bool, t: Subtype) {
    cfg.reuse(t) == 1 || (cfg.reuse(t) != 0 && !immutable)
  }

  function Exclusives(cfg: Config, immutable: bool, subtypes: seq<Subtype>): seq<Subtype> {
    if subtypes == [] then []
    else
      var n := |subtypes| - 1;
      Exclusives(cfg, immutable, subtypes[..n]) + (if SoleUse(cfg, immutable, subtypes[n]) then [subtypes[n]] else [])
  }

  function Shared(cfg: Config, immutable: bool, subtypes: seq<Subtype>): seq<Subtype> {
    if subtypes == [] then []
    else
      var n := |subtypes| - 1;
      Shared(cfg, immutable, subtypes[..n]) + (if SoleUse(cfg, immutable, subtypes[n]) then [] else [subtypes[n]])
  }

  lemma {:induction false} Apart(cfg: Config, immutable: bool, subtypes: seq<Subtype>)
    ensures forall t | t in Exclusives(cfg, immutable, subtypes) :: SoleUse(cfg, immutable, t)
    ensures forall t | t in Shared(cfg, immutable, subtypes) :: !SoleUse(cfg, immutable, t)
  {
    if subtypes != [] {
      Apart(cfg, immutable, subtypes[..|subtypes| - 1]);
    }
  }

  /** The containers `from`, `from + 1` and so on, `n` of them. */
  function Fresh(from: Container, n: nat): (cs: seq<Container>)
    ensures |cs| == n && forall i | 0 <= i < n :: cs[i] == from + i
  {
    if n == 0 then [] else Fresh(from, n - 1) + [from + n - 1]
  }

  /** What recording the session on `c` changes. */
  function Allocated(p: Progress, c: Container, sid: SessionId): Progress {
    p.(users := p.users[c := UsersIn(p.users, c) + {sid}], uses := p.uses[c := UsesIn(p.uses, c) + 1])
  }

  /** `n` new containers, each for the session alone. */
  function Opened(p: Progress, n: nat, sid: SessionId): Progress {
    if n == 0 then p
    else
      var q := Opened(p, n - 1, sid);
      Allocated(q.(next := q.next + 1), q.next, sid)
  }

  lemma NothingOpened(cfg: Config, immutable: bool, p: Progress, sid: SessionId)
    ensures Exclusives(cfg, immutable, []) == [] && Shared(cfg, immutable, []) == []
    ensures Opened(p, 0, sid) == p && Stored([], Fresh(p.next, 0)) == map[]
  {}

  lemma OpenedNext(p: Progress, n: nat, sid: SessionId)
    ensures var q := Opened(p, n, sid);
            Opened(p, n + 1, sid) == Allocated(q.(next := q.next + 1), q.next, sid)
  {
    hide Allocated;
  }

  lemma StoredFresh(from: Container, e: seq<Subtype>, t: Subtype)
    ensures Stored(e + [t], Fresh(from, |e| + 1)) == Stored(e, Fresh(from, |e|))[t := from + |e|]
  {
    hide Stored;
    StoredSnoc(e, Fresh(from, |e|), t, from + |e|);
    assert Fresh(from, |e| + 1) == Fresh(from, |e|) + [from + |e|];
  }

  lemma {:induction false} OpenedAt(p: Progress, n: nat, sid: SessionId, c: Container)
    requires c < p.next || (c !in p.users && c !in p.uses)
    ensures var q := Opened(p, n, sid);
            && q.next == p.next + n && q.lists == p.lists && q.taken == p.taken
            && UsersIn(q.users, c) == (if p.next <= c < p.next + n then {sid} else UsersIn(p.users, c))
            && UsesIn(q.uses, c) == (if p.next <= c < p.next + n then 1 else UsesIn(p.uses, c))
  {
    if n > 0 {
      OpenedAt(p, n - 1, sid, c);
    }
  }

  lemma SplitNext(cfg: Config, immutable: bool, subtypes: seq<Subtype>, i: nat)
    requires i < |subtypes|
    ensures Exclusives(cfg, immutable, subtypes[..i + 1])
         == Exclusives(cfg, immutable, subtypes[..i])
             + (if SoleUse(cfg, immutable, subtypes[i]) then [subtypes[i]] else [])
    ensures Shared(cfg, immutable, subtypes[..i + 1])
         == Shared(cfg, immutable, subtypes[..i]) + (if SoleUse(cfg, immutable, subtypes[i]) then [] else [subtypes[i]])
  {
    assert subtypes[..i + 1][..i] == subtypes[..i];
  }

  predicate NoRepeat(ts: seq<Subtype>) {
    forall i, k | 0 <= i < k < |ts| :: ts[i] != ts[k]
  }

  /** Exclusive containers are all new, so the stored map has them all exactly if no exclusive subtype repeats. */
  lemma ExclusivesStoredIff(ts: seq<Subtype>, from: Container)
    ensures (forall c | c in Fresh(from, |ts|) :: c in Stored(ts, Fresh(from, |ts|)).Values) <==> NoRepeat(ts)
  {
    AllStoredIff(ts, Fresh(from, |ts|));
  }

  /** The session is no longer recorded on these containers; the rest is as before. */
  ghost predicate Withdrawn(users0: map<Container, set<SessionId>>, users1: map<Container, set<SessionId>>,
                            done: set<Container>, sid: SessionId)
  {
    forall c: Container :: UsersIn(users1, c) == if c in done then UsersIn(users0, c) - {sid} else UsersIn(users0, c)
  }

  lemma WithdrawnMore(users0: map<Container, set<SessionId>>, users1: map<Container, set<SessionId>>,
                      users2: map<Container, set<SessionId>>, done: set<Container>, c: Container, sid: SessionId)
    requires Withdrawn(users0, users1, done, sid) && Withdrawn(users1, users2, {c}, sid)
    ensures Withdrawn(users0, users2, done + {c}, sid)
  {
    forall d: Container
      ensures UsersIn(users2, d) == if d in done + {c} then UsersIn(users0, d) - {sid} else UsersIn(users0, d)
    {
      assert UsersIn(users1, d) == if d in done then UsersIn(users0, d) - {sid} else UsersIn(users0, d);
      assert UsersIn(users2, d) == if d in {c} then UsersIn(users1, d) - {sid} else UsersIn(users1, d);
    }
  }

  /** What ending a session leaves recorded on a container. */
  function UsersAfterEnd(users: map<Container, set<SessionId>>, session: map<Subtype, Container>,
                         exclusive: set<Container>, sid: SessionId, c: Container): set<SessionId>
  {
    if c in exclusive then {} else if c in session.Values then UsersIn(users, c) - {sid} else UsersIn(users, c)
  }

  /** The stored map keeps every container of the call exactly if no exclusive subtype was asked for twice and no
      shared turn displaced another's container. */
  predicate KeepsTrack(cfg: Config, users: map<Container, set<SessionId>>, uses: map<Container, nat>, immutable: bool,
                       subtypes: seq<Subtype>, orders: seq<seq<Container>>, sid: SessionId)
    requires |orders| == |Shared(cfg, immutable, subtypes)|
  {
    && NoRepeat(Exclusives(cfg, immutable, subtypes))
    && NoneDisplaced(cfg, users, uses, Shared(cfg, immutable, subtypes), orders, sid)
  }

  /** The shared part of a call that begins with `p`, once its exclusive containers exist. */
  function SharedCall(cfg: Config, p: Progress, immutable: bool, subtypes: seq<Subtype>, orders: seq<seq<Container>>,
                      sid: SessionId): Call
  {
    Call(cfg, Opened(p, |Exclusives(cfg, immutable, subtypes)|, sid), Shared(cfg, immutable, subtypes), orders, sid)
  }

  /** Candidates are never among the containers from `lo` up to the start of the shared part. */
  ghost predicate Avoid(p: Progress, lo: Container, hi: Container) {
    forall t, c | t in p.lists && c in p.lists[t] :: c < lo || hi <= c
  }

  lemma {:induction false} ServedAvoids(call: Call, lo: Container, k: nat)
    requires LegalCall(call) && Avoid(call.start, lo, call.start.next) && k <= |call.todo|
    ensures Avoid(Served(call, k), lo, call.start.next)
    ensures k < |call.todo| ==> forall d: Container | d in call.orders[k] :: d < lo || call.start.next <= d
    ensures forall c: Container | c in Served(call, k).taken :: c < lo || call.start.next <= c
  {
    hide Served, Consistent, Recorded, Counted, Turn;
    if k == 0 {
      NoTurn(call);
    } else {
      ServedAvoids(call, lo, k - 1);
      ServedKeeps(call, k - 1);
      OneTurn(call, k - 1);
      var p, t, order := Served(call, k - 1), call.todo[k - 1], call.orders[k - 1];
      TurnKeepsLists(call.cfg, p, t, order, call.sid);
      assert Selected(call.cfg, p, t, order) in order || Selected(call.cfg, p, t, order) == p.next;
    }
    ServedKeeps(call, k);
    if k < |call.todo| {
      OneTurn(call, k);
      SameMembers(call.orders[k], Served(call, k).lists[call.todo[k]]);
    }
  }

  lemma NoneDisplacedAgrees(cfg: Config, users0: map<Container, set<SessionId>>, uses0: map<Container, nat>,
                            users1: map<Container, set<SessionId>>, uses1: map<Container, nat>,
                            todo: seq<Subtype>, orders: seq<seq<Container>>, sid: SessionId)
    requires |todo| == |orders|
    requires forall k | 0 <= k < |orders| :: Agree(users0, uses0, users1, uses1, orders[k])
    ensures NoneDisplaced(cfg, users0, uses0, todo, orders, sid) == NoneDisplaced(cfg, users1, uses1, todo, orders, sid)
  {
    forall f, k | 0 <= f < k < |todo|
      ensures Stays(cfg, users0, uses0, todo, orders, sid, f, k) == Stays(cfg, users1, uses1, todo, orders, sid, f, k)
    {
      hide First, Overtaken, Full, UsersIn, UsesIn;
      var t := todo[f];
      FirstAgrees(cfg, t, users0, uses0, users1, uses1, orders[f]);
      var i := First(cfg, t, users0, uses0, orders[f]);
      if i < |orders[f]| {
        OvertakenAgrees(cfg, t, users0, uses0, users1, uses1, orders[k], orders[f][i]);
        assert orders[f][i] in orders[f];
      }
    }
  }

  /** After the session has ended it is recorded nowhere exactly if the stored map kept track of every container,
      which the records before the call and the orders decide; everybody else's records are as they were. */
  lemma EndUndoesStartIff(cfg: Config, p0: Progress, immutable: bool, subtypes: seq<Subtype>,
                          orders: seq<seq<Container>>, sid: SessionId)
    requires Consistent(p0) && p0.taken == [] && forall c: Container | c in p0.users :: sid !in p0.users[c]
    requires LegalCall(SharedCall(cfg, p0, immutable, subtypes, orders, sid))
    ensures var call, e := SharedCall(cfg, p0, immutable, subtypes, orders, sid), Exclusives(cfg, immutable, subtypes);
            var p, alone := Served(call, |call.todo|), Stored(e, Fresh(p0.next, |e|));
            && |p.taken| == |call.todo|
            && var session := alone + Stored(call.todo, p.taken);
            && (forall c: Container ::
                UsersAfterEnd(p.users, session, alone.Values, sid, c) - {sid} == UsersIn(p0.users, c))
            && ((forall c: Container :: sid !in UsersAfterEnd(p.users, session, alone.Values, sid, c))
                <==> KeepsTrack(cfg, p0.users, p0.uses, immutable, subtypes, orders, sid))
  {
    hide Served, Stored, Exclusives, Shared, NoneDisplaced, NoRepeat, Opened, Recorded, Counted;
    var call, e := SharedCall(cfg, p0, immutable, subtypes, orders, sid), Exclusives(cfg, immutable, subtypes);
    var n, created := |call.todo|, Fresh(p0.next, |e|);
    var p, alone := Served(call, n), Stored(e, created);
    ServedKeeps(call, n);
    var shared := Stored(call.todo, p.taken);
    var session := alone + shared;
    Apart(cfg, immutable, subtypes);
    OpenedAt(p0, |e|, sid, 0);
    assert Avoid(call.start, p0.next, call.start.next);
    ServedAvoids(call, p0.next, n);
    assert forall c: Container | c in created :: p0.next <= c < call.start.next;
    forall c: Container
      ensures UsersAfterEnd(p.users, session, alone.Values, sid, c) - {sid} == UsersIn(p0.users, c)
      ensures sid in UsersAfterEnd(p.users, session, alone.Values, sid, c)
         <==> (c in created && c !in alone.Values) || (c in p.taken && c !in shared.Values)
    {
      RecordedAt(p0, call, |e|, c);
      ValuesOfBoth(e, created, call.todo, p.taken, c);
      AfterEndAt(p0.users, p.users, session, alone.Values, sid, c, c in created || c in p.taken);
    }
    ExclusivesStoredIff(e, p0.next);
    NothingForgottenIff(call);
    forall k | 0 <= k < |orders| ensures Agree(p0.users, p0.uses, call.start.users, call.start.uses, orders[k]) {
      ServedAvoids(call, p0.next, k);
      forall d: Container | d in orders[k]
        ensures UsersIn(p0.users, d) == UsersIn(call.start.users, d) && UsesIn(p0.uses, d) == UsesIn(call.start.uses, d)
      {
        OpenedAt(p0, |e|, sid, d);
      }
    }
    NoneDisplacedAgrees(cfg, p0.users, p0.uses, call.start.users, call.start.uses, call.todo, orders, sid);
  }

  lemma AfterEndAt(users0: map<Container, set<SessionId>>, users1: map<Container, set<SessionId>>,
                   session: map<Subtype, Container>, exclusive: set<Container>, sid: SessionId, c: Container,
                   held: bool)
    requires UsersIn(users1, c) == UsersIn(users0, c) + (if held then {sid} else {}) && sid !in UsersIn(users0, c)
    requires c in exclusive ==> UsersIn(users0, c) == {}
    ensures UsersAfterEnd(users1, session, exclusive, sid, c) - {sid} == UsersIn(users0, c)
    ensures sid in UsersAfterEnd(users1, session, exclusive, sid, c)
       <==> held && c !in exclusive && c !in session.Values
  {}

  /** Who is recorded on a container when a call is through. */
  lemma RecordedAt(p0: Progress, call: Call, n: nat, c: Container)
    requires Consistent(p0) && LegalCall(call) && call.start == Opened(p0, n, call.sid)
    requires forall d: Container | d in p0.users :: call.sid !in p0.users[d]
    ensures var p := Served(call, |call.todo|);
            UsersIn(p.users, c) == UsersIn(p0.users, c)
                + (if c in Fresh(p0.next, n) || c in p.taken then {call.sid} else {})
  {
    hide Served, Opened;
    var p := Served(call, |call.todo|);
    ServedKeeps(call, |call.todo|);
    assert UsersIn(p.users, c) == WithSession(UsersIn(call.start.users, c), p.taken, c, call.sid);
    OpenedAt(p0, n, call.sid, c);
    if p0.next <= c < p0.next + n {
      assert Fresh(p0.next, n)[c - p0.next] == c;
    }
  }

  lemma ValuesOfBoth(e: seq<Subtype>, created: seq<Container>, todo: seq<Subtype>, taken: seq<Container>, c: Container)
    requires |created| == |e| && |taken| == |todo| && (forall t | t in e :: t !in todo)
    ensures var alone, shared := Stored(e, created), Stored(todo, taken);
            && (c in (alone + shared).Values <==> c in alone.Values || c in shared.Values)
            && (c in alone.Values ==> c in created)
            && (c in shared.Values ==> c in taken)
  {
    var alone, shared := Stored(e, created), Stored(todo, taken);
    forall t ensures t in alone ==> t in e && alone[t] in created {
      StoredIsOne(e, created, t);
    }
    forall t ensures t in shared ==> t in todo && shared[t] in taken {
      StoredIsOne(todo, taken, t);
    }
    if c in alone.Values {
      var t :| t in alone && alone[t] == c;
      assert (alone + shared)[t] == c;
    }
    if c in shared.Values {
      var t :| t in shared && shared[t] == c;
      assert (alone + shared)[t] == c;
    }
  }

  // ---------------------------------------------------------------- who gets a container of its own

  predicate AskedOnce(subtypes: seq<Subtype>, t: Subtype) {
    Times(subtypes, t) == 1
  }

  /** With a limit, the container has served fewer sessions than that; and so for those it serves now. */
  predicate Room(cfg: Config, p: Progress, t: Subtype, c: Container) {
    && (cfg.reuse(t) == 0 || UsesIn(p.uses, c) < cfg.reuse(t))
    && (cfg.concurrency(t) == 0 || |UsersIn(p.users, c)| < cfg.concurrency(t))
  }

  /** Some listed candidate may serve one more session. */
  predicate HasRoom(cfg: Config, p: Progress, t: Subtype) {
    t in p.lists && exists c :: c in p.lists[t] && Room(cfg, p, t, c)
  }

  lemma EligibleIsRoom(cfg: Config, p: Progress, t: Subtype, c: Container)
    ensures Eligible(cfg, t, p.users, p.uses, c) <==> Room(cfg, p, t, c)
  {}

  /** How often `t` was asked for. */
  function Times(ts: seq<Subtype>, t: Subtype): nat {
    multiset(ts)[t]
  }

  lemma TimesSnoc(ts: seq<Subtype>, x: Subtype, t: Subtype)
    ensures Times([], t) == 0 && Times(ts + [x], t) == Times(ts, t) + (if x == t then 1 else 0)
    ensures ts + [] == ts
  {}

  /** A request goes to the part of its kind, as often as it was made. */
  lemma {:induction false} PartOf(cfg: Config, immutable: bool, subtypes: seq<Subtype>, t: Subtype)
    ensures var own := cfg.reuse(t) == 1 || (!immutable && cfg.reuse(t) > 0);
            && Times(Exclusives(cfg, immutable, subtypes), t) == (if own then Times(subtypes, t) else 0)
            && Times(Shared(cfg, immutable, subtypes), t) == (if own then 0 else Times(subtypes, t))
  {
    hide Exclusives, Shared, Times;
    if subtypes == [] {
      NothingOpened(cfg, immutable, Untouched(t, [], 0), 0);
      TimesSnoc([], t, t);
    } else {
      var n := |subtypes| - 1;
      var front, x := subtypes[..n], subtypes[n];
      PartOf(cfg, immutable, front, t);
      SplitNext(cfg, immutable, subtypes, n);
      assert subtypes[..n + 1] == subtypes && subtypes == front + [x];
      TimesSnoc(front, x, t);
      TimesSnoc(Exclusives(cfg, immutable, front), x, t);
      TimesSnoc(Shared(cfg, immutable, front), x, t);
    }
  }

  lemma CountedIn(s: seq<nat>, t: nat)
    ensures multiset(s)[t] > 0 <==> t in s
  {
    assert t in s <==> t in multiset(s);
  }

  lemma OnceIsFirst(ts: seq<Subtype>, t: Subtype, i: nat)
    requires Times(ts, t) == 1 && i < |ts| && ts[i] == t
    ensures FirstTurn(ts, i)
  {
    assert ts == ts[..i] + ts[i..] && ts[i..][0] == t;
    CountedIn(ts[..i], t);
    CountedIn(ts[i..], t);
  }

  /** The only turn of a subtype takes a listed candidate with room whenever there is one. */
  lemma OnceTakesListed(call: Call, t: Subtype, i: nat)
    requires LegalCall(call) && i < |call.todo| && call.todo[i] == t && Times(call.todo, t) == 1
    requires HasRoom(call.cfg, call.start, t)
    ensures var taken := Served(call, |call.todo|).taken;
            && |taken| == |call.todo| && taken[i] in call.start.lists[t]
            && Room(call.cfg, call.start, t, taken[i])
  {
    hide Served, Consistent, Recorded, Counted, OwnCandidates, Turn, Selected;
    OnceIsFirst(call.todo, t, i);
    FirstTurnTakes(call, i);
    TakenAt(call, i, i + 1);
    TakenAt(call, i, |call.todo|);
    ListedUntil(call, t, i);
    OneTurn(call, i);
    SameMembers(call.orders[i], call.start.lists[t]);
    var c :| c in call.start.lists[t] && Room(call.cfg, call.start, t, c);
    var j :| 0 <= j < |call.orders[i]| && call.orders[i][j] == c;
    EligibleIsRoom(call.cfg, call.start, t, c);
    EligibleIsRoom(call.cfg, call.start, t, Served(call, |call.todo|).taken[i]);
  }

  /** However often a subtype is asked for: a turn takes a candidate with room exactly if there is one at that moment,
      and creates a container otherwise. */
  lemma TurnTakesCandidateIff(call: Call, k: nat)
    requires LegalCall(call) && k < |call.todo|
    ensures var t, p, taken := call.todo[k], Served(call, k), Served(call, |call.todo|).taken;
            && |taken| == |call.todo| && t in p.lists
            && (HasRoom(call.cfg, p, t) <==> taken[k] in p.lists[t] && Room(call.cfg, p, t, taken[k]))
            && (!HasRoom(call.cfg, p, t) <==> taken[k] == p.next)
  {
    hide Served, Consistent, Recorded, Counted, OwnCandidates, Turn;
    var t, p, order := call.todo[k], Served(call, k), call.orders[k];
    TakenAt(call, k, |call.todo|);
    OneTurn(call, k);
    SameMembers(order, p.lists[t]);
    CandidatesExist(call, k);
    EligibleIsRoom(call.cfg, p, t, Selected(call.cfg, p, t, order));
    if HasRoom(call.cfg, p, t) {
      var c :| c in p.lists[t] && Room(call.cfg, p, t, c);
      EligibleIsRoom(call.cfg, p, t, c);
      var j :| 0 <= j < |order| && order[j] == c;
    }
  }

  /** Until its first turn a subtype's candidates are the listed ones. */
  lemma {:induction false} ListedUntil(call: Call, t: Subtype, k: nat)
    requires LegalCall(call) && k <= |call.todo| && t !in call.todo[..k] && t in call.start.lists
    ensures t in Served(call, k).lists && Served(call, k).lists[t] == call.start.lists[t]
  {
    hide Served, Turn, Selected;
    if k == 0 {
      NoTurn(call);
    } else {
      assert call.todo[..k] == call.todo[..k - 1] + [call.todo[k - 1]];
      ListedUntil(call, t, k - 1);
      OneTurn(call, k - 1);
      TurnKeepsLists(call.cfg, Served(call, k - 1), call.todo[k - 1], call.orders[k - 1], call.sid);
    }
  }

  /** Who gets a container of its own: a request with reuse limit 1, or a mutable one with any limit, ends up alone on
      a container that is new and marked for deletion.  Every other request takes, if it is the only one of its
      subtype, a listed candidate with room whenever there is one, and its container is not marked. */
  lemma PlacedByLimits(cfg: Config, p0: Progress, immutable: bool, subtypes: seq<Subtype>,
                       orders: seq<seq<Container>>, sid: SessionId, t: Subtype)
    requires Consistent(p0) && p0.taken == [] && t in subtypes
    requires LegalCall(SharedCall(cfg, p0, immutable, subtypes, orders, sid))
    ensures var call, e := SharedCall(cfg, p0, immutable, subtypes, orders, sid), Exclusives(cfg, immutable, subtypes);
            var p, alone := Served(call, |call.todo|), Stored(e, Fresh(p0.next, |e|));
            && |p.taken| == |call.todo|
            && var session := alone + Stored(call.todo, p.taken);
            && t in session
            && (if cfg.reuse(t) == 1 || (!immutable && cfg.reuse(t) > 0) then
                  && session[t] in alone.Values && p0.next <= session[t] < p.next
                  && UsersIn(p.users, session[t]) == {sid} && UsesIn(p.uses, session[t]) == 1
                  && (forall u | u in session && u != t :: session[u] != session[t])
                else
                  && session[t] !in alone.Values
                  && t in p0.lists && (session[t] in p0.lists[t] || p0.next <= session[t] < p.next)
                  && (AskedOnce(subtypes, t) && HasRoom(cfg, p0, t) ==>
                        && session[t] in p0.lists[t] && Room(cfg, p0, t, session[t])))
  {
    hide Served, Stored, Exclusives, Shared, Opened, Recorded, Counted, LegalCall, Consistent, Room;
    PartOf(cfg, immutable, subtypes, t);
    var call, e := SharedCall(cfg, p0, immutable, subtypes, orders, sid), Exclusives(cfg, immutable, subtypes);
    CountedIn(subtypes, t);
    CountedIn(e, t);
    CountedIn(call.todo, t);
    if t in e {
      PlacedAlone(cfg, p0, immutable, subtypes, orders, sid, t);
    } else {
      PlacedShared(cfg, p0, immutable, subtypes, orders, sid, t);
    }
  }

  lemma PlacedAlone(cfg: Config, p0: Progress, immutable: bool, subtypes: seq<Subtype>,
                    orders: seq<seq<Container>>, sid: SessionId, t: Subtype)
    requires Consistent(p0) && p0.taken == [] && t in Exclusives(cfg, immutable, subtypes)
    requires LegalCall(SharedCall(cfg, p0, immutable, subtypes, orders, sid))
    ensures var call, e := SharedCall(cfg, p0, immutable, subtypes, orders, sid), Exclusives(cfg, immutable, subtypes);
            var p, alone := Served(call, |call.todo|), Stored(e, Fresh(p0.next, |e|));
            && |p.taken| == |call.todo|
            && var session := alone + Stored(call.todo, p.taken);
            && t in session && session[t] in alone.Values && p0.next <= session[t] < p.next
            && UsersIn(p.users, session[t]) == {sid} && UsesIn(p.uses, session[t]) == 1
            && (forall u | u in session && u != t :: session[u] != session[t])
  {
    hide Served, Stored, Exclusives, Shared, Opened, Consistent, OwnCandidates;
    var call, e := SharedCall(cfg, p0, immutable, subtypes, orders, sid), Exclusives(cfg, immutable, subtypes);
    var n, created := |call.todo|, Fresh(p0.next, |e|);
    ServedKeeps(call, n);
    var p, alone := Served(call, n), Stored(e, created);
    var shared := Stored(call.todo, p.taken);
    Apart(cfg, immutable, subtypes);
    StoredIsOne(e, created, t);
    StoredIsOne(call.todo, p.taken, t);
    var c := alone[t];
    assert (alone + shared)[t] == c;
    OpenedAfter(p0, |e|, sid, c);
    ServedAvoids(call, p0.next, n);
    assert c !in p.taken;
    CountedIn(p.taken, c);
    assert UsersIn(p.users, c) == WithSession(UsersIn(call.start.users, c), p.taken, c, sid);
    forall u | u in alone + shared && u != t ensures (alone + shared)[u] != c {
      StoredIsOne(e, created, u);
      StoredIsOne(call.todo, p.taken, u);
    }
  }

  lemma PlacedShared(cfg: Config, p0: Progress, immutable: bool, subtypes: seq<Subtype>,
                     orders: seq<seq<Container>>, sid: SessionId, t: Subtype)
    requires Consistent(p0) && p0.taken == [] && t in Shared(cfg, immutable, subtypes)
    requires Times(Shared(cfg, immutable, subtypes), t) == Times(subtypes, t)
    requires LegalCall(SharedCall(cfg, p0, immutable, subtypes, orders, sid))
    ensures var call, e := SharedCall(cfg, p0, immutable, subtypes, orders, sid), Exclusives(cfg, immutable, subtypes);
            var p, alone := Served(call, |call.todo|), Stored(e, Fresh(p0.next, |e|));
            && |p.taken| == |call.todo|
            && var session := alone + Stored(call.todo, p.taken);
            && t in session && session[t] !in alone.Values
            && t in p0.lists && (session[t] in p0.lists[t] || p0.next <= session[t] < p.next)
            && (AskedOnce(subtypes, t) && HasRoom(cfg, p0, t) ==>
                  && session[t] in p0.lists[t] && Room(cfg, p0, t, session[t]))
  {
    hide Served, Stored, Exclusives, Shared, Opened, Consistent, Recorded, Counted, Room;
    var call, e := SharedCall(cfg, p0, immutable, subtypes, orders, sid), Exclusives(cfg, immutable, subtypes);
    var n, created := |call.todo|, Fresh(p0.next, |e|);
    ServedKeeps(call, n);
    var p, alone := Served(call, n), Stored(e, created);
    var shared := Stored(call.todo, p.taken);
    StoredIsOne(call.todo, p.taken, t);
    var i :| 0 <= i < n && call.todo[i] == t && p.taken[i] == shared[t];
    var c := shared[t];
    assert (alone + shared)[t] == c;
    OpenedAfter(p0, |e|, sid, c);
    ServedAvoids(call, p0.next, n);
    TakenIsBelow(p, call.todo, i);
    ListedOrNew(call, t, n, c);
    assert c in p.taken && forall d | d in created :: p0.next <= d < call.start.next;
    StoredAreCreated(e, created, c);
    if AskedOnce(subtypes, t) && HasRoom(cfg, p0, t) {
      forall d | d in p0.lists[t]
        ensures Room(cfg, p0, t, d) == Room(cfg, call.start, t, d)
      {
        OpenedAfter(p0, |e|, sid, d);
        SameRoom(cfg, t, p0, call.start, d);
      }
      OnceTakesListed(call, t, i);
    }
  }

  /** What the first loop leaves to the second. */
  lemma OpenedAfter(p0: Progress, n: nat, sid: SessionId, c: Container)
    requires Consistent(p0)
    ensures var q := Opened(p0, n, sid);
            && q.next == p0.next + n && q.lists == p0.lists && q.taken == p0.taken && Avoid(q, p0.next, q.next)
            && UsersIn(q.users, c) == (if p0.next <= c < p0.next + n then {sid} else UsersIn(p0.users, c))
            && UsesIn(q.uses, c) == (if p0.next <= c < p0.next + n then 1 else UsesIn(p0.uses, c))
            && (forall t, d | t in p0.lists && d in p0.lists[t] :: d < p0.next)
  {
    hide Opened;
    OpenedAt(p0, n, sid, c);
  }

  lemma TakenIsBelow(p: Progress, todo: seq<Subtype>, i: nat)
    requires Consistent(p) && OwnCandidates(p, todo) && i < |p.taken|
    ensures p.taken[i] < p.next
  {}

  /** A candidate is a listed one, or was created in the meantime. */
  lemma {:induction false} ListedOrNew(call: Call, t: Subtype, k: nat, c: Container)
    requires LegalCall(call) && k <= |call.todo|
    requires t in Served(call, k).lists && c in Served(call, k).lists[t]
    ensures t in call.start.lists && (c in call.start.lists[t] || call.start.next <= c)
  {
    hide Served, Consistent, Recorded, Counted, OwnCandidates, Turn;
    if k == 0 {
      NoTurn(call);
    } else {
      var p, u, order := Served(call, k - 1), call.todo[k - 1], call.orders[k - 1];
      OneTurn(call, k - 1);
      TurnKeepsLists(call.cfg, p, u, order, call.sid);
      ServedKeeps(call, k - 1);
      if c in p.lists[t] {
        ListedOrNew(call, t, k - 1, c);
      } else {
        SameMembers(order, p.lists[u]);
        ListsStay(call, t, k - 1);
      }
    }
  }

  lemma {:induction false} ListsStay(call: Call, t: Subtype, k: nat)
    requires LegalCall(call) && k <= |call.todo| && t in Served(call, k).lists
    ensures t in call.start.lists
  {
    hide Served, Consistent, Turn;
    if k == 0 {
      NoTurn(call);
    } else {
      OneTurn(call, k - 1);
      TurnKeepsLists(call.cfg, Served(call, k - 1), call.todo[k - 1], call.orders[k - 1], call.sid);
      ListsStay(call, t, k - 1);
    }
  }

  lemma SameRoom(cfg: Config, t: Subtype, p: Progress, q: Progress, c: Container)
    requires UsersIn(p.users, c) == UsersIn(q.users, c) && UsesIn(p.uses, c) == UsesIn(q.uses, c)
    ensures Room(cfg, p, t, c) == Room(cfg, q, t, c)
  {}

  lemma StoredAreCreated(e: seq<Subtype>, created: seq<Container>, c: Container)
    requires |created| == |e| && c !in created
    ensures c !in Stored(e, created).Values
  {
    forall t ensures t in Stored(e, created) ==> Stored(e, created)[t] in created {
      StoredIsOne(e, created, t);
    }
  }

  // ---------------------------------------------------------------- what that means for particular calls

  lemma {:induction false} PartsOfDistinct(cfg: Config, immutable: bool, subtypes: seq<Subtype>)
    requires NoRepeat(subtypes)
    ensures var e, s := Exclusives(cfg, immutable, subtypes), Shared(cfg, immutable, subtypes);
            && NoRepeat(e) && NoRepeat(s)
            && (forall t | t in e :: t in subtypes) && (forall t | t in s :: t in subtypes)
  {
    if subtypes != [] {
      var n := |subtypes| - 1;
      PartsOfDistinct(cfg, immutable, subtypes[..n]);
      assert subtypes[n] !in subtypes[..n];
    }
  }

  /** Asking for every subtype once is always undone. */
  lemma DistinctKeepsTrack(cfg: Config, users: map<Container, set<SessionId>>, uses: map<Container, nat>,
                           immutable: bool, subtypes: seq<Subtype>, orders: seq<seq<Container>>, sid: SessionId)
    requires NoRepeat(subtypes) && |orders| == |Shared(cfg, immutable, subtypes)|
    ensures KeepsTrack(cfg, users, uses, immutable, subtypes, orders, sid)
  {
    PartsOfDistinct(cfg, immutable, subtypes);
  }

  /** Nothing is recorded yet, and these are the candidates of the one subtype `t`. */
  function Untouched(t: Subtype, listed: seq<Container>, next: Container): Progress {
    Progress(map[], map[], next, map[t := listed], [])
  }

  /** A shared subtype asked for twice, with every container limited to one session at a time: the second turn
      passes over the container of the first, which stays recorded. */
  lemma LimitForgetsFirst(t: Subtype, sid: SessionId)
    ensures var cfg, p0 := Config(_ => 1, _ => 0), Untouched(t, [], 0);
            && Consistent(p0) && LegalCall(SharedCall(cfg, p0, true, [t, t], [[], [0]], sid))
            && Shared(cfg, true, [t, t]) == [t, t]
            && !KeepsTrack(cfg, p0.users, p0.uses, true, [t, t], [[], [0]], sid)
  {
    var cfg, p0 := Config(_ => 1, _ => 0), Untouched(t, [], 0);
    TwiceShared(cfg, t, [], 0, [0], sid);
    TwiceKeepsTrackIff(cfg, p0, t, [], [0], sid);
  }

  /** Without limits and candidates the second turn takes the container that the first one created. */
  lemma UnlimitedKeepsTrack(t: Subtype, sid: SessionId)
    ensures var cfg, p0 := Config(_ => 0, _ => 0), Untouched(t, [], 0);
            && Consistent(p0) && LegalCall(SharedCall(cfg, p0, true, [t, t], [[], [0]], sid))
            && Shared(cfg, true, [t, t]) == [t, t]
            && KeepsTrack(cfg, p0.users, p0.uses, true, [t, t], [[], [0]], sid)
  {
    var cfg, p0 := Config(_ => 0, _ => 0), Untouched(t, [], 0);
    TwiceShared(cfg, t, [], 0, [0], sid);
    TwiceKeepsTrackIff(cfg, p0, t, [], [0], sid);
    hide LegalCall, Consistent, SharedCall, Shared, KeepsTrack;
  }

  /** Without limits but with two candidates the shuffle alone can make the second turn take the other one. */
  lemma ShuffleForgetsFirst(t: Subtype, sid: SessionId)
    ensures var cfg, p0 := Config(_ => 0, _ => 0), Untouched(t, [0, 1], 2);
            && Consistent(p0) && LegalCall(SharedCall(cfg, p0, true, [t, t], [[0, 1], [1, 0]], sid))
            && Shared(cfg, true, [t, t]) == [t, t]
            && !KeepsTrack(cfg, p0.users, p0.uses, true, [t, t], [[0, 1], [1, 0]], sid)
  {
    var cfg, p0 := Config(_ => 0, _ => 0), Untouched(t, [0, 1], 2);
    TwiceShared(cfg, t, [0, 1], 2, [1, 0], sid);
    TwiceKeepsTrackIff(cfg, p0, t, [0, 1], [1, 0], sid);
    assert Overtaken(cfg, t, p0.users, p0.uses, [1, 0], 0) by {
      assert 0 !in [1, 0][..1] && Eligible(cfg, t, p0.users, p0.uses, [1, 0][0]);
    }
  }

  /** The second of two turns takes what the first one took. */
  predicate SecondStays(cfg: Config, p: Progress, t: Subtype, first: seq<Container>, second: seq<Container>,
                        sid: SessionId)
  {
    var i := First(cfg, t, p.users, p.uses, first);
    if i < |first| then
      && !Overtaken(cfg, t, p.users, p.uses, second, first[i])
      && !Full(cfg, t, UsersIn(p.users, first[i]) + {sid}, UsesIn(p.uses, first[i]) + 1)
    else
      !Full(cfg, t, {sid}, 1)
  }

  /** For a shared subtype asked for twice it all hangs on the second turn. */
  lemma TwiceKeepsTrackIff(cfg: Config, p: Progress, t: Subtype, first: seq<Container>, second: seq<Container>,
                           sid: SessionId)
    requires cfg.reuse(t) == 0
    ensures Shared(cfg, true, [t, t]) == [t, t]
    ensures KeepsTrack(cfg, p.users, p.uses, true, [t, t], [first, second], sid)
       <==> SecondStays(cfg, p, t, first, second, sid)
  {
    hide Exclusives, Shared, First, Overtaken, Full, Reached;
    PartsOfTwo(cfg, true, t);
    TwoTurns(cfg, p, [t, t], [first, second], sid);
    assert [t, t][..1] == [t] && multiset([t])[t] == 1;
    hide NoneDisplaced;
  }

  lemma TwoTurns(cfg: Config, p: Progress, todo: seq<Subtype>, orders: seq<seq<Container>>, sid: SessionId)
    requires |todo| == 2 == |orders| && todo[0] == todo[1]
    ensures NoneDisplaced(cfg, p.users, p.uses, todo, orders, sid)
       <==> Stays(cfg, p.users, p.uses, todo, orders, sid, 0, 1)
  {
    hide Stays;
    assert FirstTurn(todo, 0);
  }

  /** An exclusive subtype asked for twice always leaves its first container behind. */
  lemma ExclusiveForgetsFirst(cfg: Config, users: map<Container, set<SessionId>>, uses: map<Container, nat>,
                              immutable: bool, t: Subtype, sid: SessionId)
    requires SoleUse(cfg, immutable, t)
    ensures Shared(cfg, immutable, [t, t]) == []
    ensures !KeepsTrack(cfg, users, uses, immutable, [t, t], [], sid)
  {
    PartsOfTwo(cfg, immutable, t);
    assert !NoRepeat([t, t]) by {
      assert [t, t][0] == [t, t][1];
    }
  }

  lemma PartsOfTwo(cfg: Config, immutable: bool, t: Subtype)
    ensures Exclusives(cfg, immutable, [t, t]) == if SoleUse(cfg, immutable, t) then [t, t] else []
    ensures Shared(cfg, immutable, [t, t]) == if SoleUse(cfg, immutable, t) then [] else [t, t]
  {
    SplitNext(cfg, immutable, [t, t], 0);
    SplitNext(cfg, immutable, [t, t], 1);
    assert [t, t][..1] == [t] && [t, t][..2] == [t, t] && [t, t][..0] == [];
  }

  /** Two turns of one subtype that nobody has used yet, the first in the order in which the candidates are listed. */
  lemma TwiceShared(cfg: Config, t: Subtype, listed: seq<Container>, next: Container, second: seq<Container>,
                    sid: SessionId)
    requires cfg.reuse(t) == 0 && (forall c | c in listed :: c < next)
    requires multiset(second) == multiset(if listed == [] then [next] else listed)
    ensures var p0 := Untouched(t, listed, next);
            Consistent(p0) && LegalCall(SharedCall(cfg, p0, true, [t, t], [listed, second], sid))
  {
    var p0 := Untouched(t, listed, next);
    PartsOfTwo(cfg, true, t);
    var call := SharedCall(cfg, p0, true, [t, t], [listed, second], sid);
    assert Served(call, 0) == p0;
    assert listed != [] ==> Eligible(cfg, t, p0.users, p0.uses, listed[0]);
    assert Served(call, 1).lists[t] == if listed == [] then [next] else listed;
    assert ShuffledAt(call, 0) && ShuffledAt(call, 1);
  }
}
