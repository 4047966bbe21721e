/** `start_session` and `end_session` as the controller runs them when nothing interferes. */
module Allocator {
  import opened Allocation
  import opened AllocationTurns

  class Controller {
    const cfg: Config
    var locks: map<Subtype, SessionId>
    var users: map<Container, set<SessionId>>
    var uses: map<Container, nat>
    var next: Container                        // container ids come out of Docker unused
    var live: set<Container>                   // the containers that Docker runs

    /** No record is about a container that does not exist yet. */
    ghost predicate Valid()
      reads this
    {
      (forall c | c in users :: c < next) && (forall c | c in uses :: c < next) && (forall c | c in live :: c < next)
    }

    /** The containers in `live` are those there were, and the ones created since then. */
    ghost predicate Grown(live0: set<Container>, next0: Container)
      reads this
    {
      next0 <= next && forall c: Container :: c in live <==> c in live0 || next0 <= c < next
    }

    function Snapshot(lists: map<Subtype, seq<Container>>, taken: seq<Container>): Progress
      reads this
    {
      Progress(users, uses, next, lists, taken)
    }

    constructor (cfg: Config)
      ensures Valid() && this.cfg == cfg && users == map[] && uses == map[] && locks == map[] && live == {}
    {
      this.cfg := cfg;
      locks, users, uses, next, live := map[], map[], map[], 0, {};
    }

    method CreateContainer() returns (c: Container)
      requires Valid()
      modifies this`next, this`live
      ensures Valid() && c == old(next) && next == c + 1 && Grown(old(live), old(next))
    {
      c, next := next, next + 1;
      live := live + {c};
    }

    method AllocateContainer(c: Container, sid: SessionId)
      requires Valid() && c < next
      modifies this`users, this`uses
      ensures Valid()
      ensures users == old(users)[c := UsersIn(old(users), c) + {sid}]
      ensures uses == old(uses)[c := UsesIn(old(uses), c) + 1]
    {
      users := users[c := UsersIn(users, c) + {sid}];
      uses := uses[c := UsesIn(uses, c) + 1];
    }

    method OpenOne(sid: SessionId, ghost lists: map<Subtype, seq<Container>>) returns (c: Container)
      requires Valid()
      modifies this`users, this`uses, this`next, this`live
      ensures Valid() && c == old(next) && next == c + 1 && Grown(old(live), old(next))
      ensures var p := old(Snapshot(lists, [])); Snapshot(lists, []) == Allocated(p.(next := c + 1), c, sid)
    {
      c := CreateContainer();
      AllocateContainer(c, sid);
    }

    /** The search of `start_session`, under the lock: the index of the first candidate with room, or the end. */
    method FirstEligible(t: Subtype, existing: seq<Container>) returns (i: nat)
      ensures i <= |existing|
      ensures i < |existing| ==> Eligible(cfg, t, users, uses, existing[i])
      ensures forall j | 0 <= j < i :: !Eligible(cfg, t, users, uses, existing[j])
    {
      i := 0;
      while i < |existing|
        invariant 0 <= i <= |existing|
        invariant forall j | 0 <= j < i :: !Eligible(cfg, t, users, uses, existing[j])
      {
        if Reached(cfg.reuse(t), UsesIn(uses, existing[i])) {
          i := i + 1;
          continue;
        }
        if Reached(cfg.concurrency(t), |UsersIn(users, existing[i])|) {
          i := i + 1;
          continue;
        }
        break;
      }
    }

    /** What `start_session` does under the lock: search, and record the session where the search stops. */
    method TryAllocate(t: Subtype, existing: seq<Container>, sid: SessionId) returns (i: nat)
      requires Valid() && t !in locks && (forall c | c in existing :: c < next)
      modifies this`locks, this`users, this`uses
      ensures Valid() && locks == old(locks)
      ensures i == First(cfg, t, old(users), old(uses), existing)
      ensures i == |existing| ==> users == old(users) && uses == old(uses)
      ensures i < |existing| ==>
                && users == old(users)[existing[i] := UsersIn(old(users), existing[i]) + {sid}]
                && uses == old(uses)[existing[i] := UsesIn(old(uses), existing[i]) + 1]
    {
      locks := locks[t := sid];
      i := FirstEligible(t, existing);
      if i < |existing| {
        assert existing[i] in existing;
        AllocateContainer(existing[i], sid);
      }
      locks := locks - {t};
    }

    /** The loop of `start_session` for one shared subtype.  It searches a second time only when it has created a
        container, and an unused container is always eligible. */
    method AllocateShared(t: Subtype, order: seq<Container>, sid: SessionId,
                          ghost lists: map<Subtype, seq<Container>>, ghost taken: seq<Container>)
      returns (selected: Container, existing: seq<Container>)
      requires Valid() && t !in locks && (forall c | c in order :: c < next)
      modifies this
      ensures Valid() && locks == old(locks) && Grown(old(live), old(next))
      ensures var p := old(Snapshot(lists, taken));
              && selected == Selected(cfg, p, t, order)
              && Snapshot(lists[t := existing], taken + [selected]) == Turn(cfg, p, t, order, sid)
    {
      hide First;
      existing := order;
      ghost var created := false;
      while true
        invariant Valid() && locks == old(locks) && users == old(users) && uses == old(uses)
        invariant Grown(old(live), old(next))
        invariant !created ==> existing == order && next == old(next)
        invariant created ==> existing == order + [old(next)] && next == old(next) + 1
        invariant created ==> Eligible(cfg, t, users, uses, existing[|order|])
        invariant created ==> First(cfg, t, users, uses, order) == |order|
        invariant forall c | c in existing :: c < next
        decreases !created
      {
        var i := TryAllocate(t, existing, sid);
        if i < |existing| {
          FirstOfLonger(cfg, t, old(users), old(uses), order, existing);
          selected := existing[i];
          break;
        }
        if created {
          // the search would have stopped at the container of the last round, which is unused
          assert false;
        }
        var c := CreateContainer();
        existing := existing + [c];
        created := true;
      }
      AsOneTurn(cfg, old(Snapshot(lists, taken)), Snapshot(lists[t := existing], taken + [selected]), t, order,
                existing, sid);
    }

    /** The first loop of `start_session`: a new container for every exclusive subtype. */
    method AllocateExclusives(immutable: bool, subtypes: seq<Subtype>, sid: SessionId,
                              ghost listed: map<Subtype, seq<Container>>)
      returns (session: map<Subtype, Container>, shared: seq<Subtype>)
      requires Valid()
      modifies this`users, this`uses, this`next, this`live
      ensures Valid() && Grown(old(live), old(next))
      ensures shared == Shared(cfg, immutable, subtypes)
      ensures var e := Exclusives(cfg, immutable, subtypes);
              && Snapshot(listed, []) == Opened(old(Snapshot(listed, [])), |e|, sid)
              && session == Stored(e, Fresh(old(next), |e|))
    {
      session, shared := map[], [];
      ghost var e: seq<Subtype> := [];
      ghost var p0 := Snapshot(listed, []);
      NothingOpened(cfg, immutable, p0, sid);
      hide Exclusives, Shared, Stored, SoleUse, Opened, Allocated;
      for i := 0 to |subtypes|
        invariant Valid() && next == old(next) + |e| && Grown(old(live), old(next))
        invariant e == Exclusives(cfg, immutable, subtypes[..i]) && shared == Shared(cfg, immutable, subtypes[..i])
        invariant Snapshot(listed, []) == Opened(p0, |e|, sid)
        invariant session == Stored(e, Fresh(p0.next, |e|))
      {
        var t := subtypes[i];
        SplitNext(cfg, immutable, subtypes, i);
        if SoleUse(cfg, immutable, t) {
          OpenedNext(p0, |e|, sid);
          StoredFresh(p0.next, e, t);
          var c := OpenOne(sid, listed);
          session := session[t := c];
          e := e + [t];
        } else {
          shared := shared + [t];
        }
      }
      assert subtypes[..|subtypes|] == subtypes;
    }

    /** The second loop of `start_session`: one turn for every shared subtype. */
    method AllocateInTurn(shared: seq<Subtype>, listed: map<Subtype, seq<Container>>, orders: seq<seq<Container>>,
                          sid: SessionId, alone: map<Subtype, Container>)
      returns (session: map<Subtype, Container>, ghost taken: seq<Container>)
      requires Valid() && locks == map[]
      requires LegalCall(Call(cfg, Snapshot(listed, []), shared, orders, sid))
      modifies this
      ensures Valid() && locks == map[] && |taken| == |shared| && Grown(old(live), old(next))
      ensures var p := Served(old(Call(cfg, Snapshot(listed, []), shared, orders, sid)), |shared|);
              users == p.users && uses == p.uses && next == p.next && taken == p.taken
      ensures session == alone + Stored(shared, taken)
    {
      hide Served, Consistent, Recorded, Counted, OwnCandidates, Turn, Selected, Stored;
      ghost var call := Call(cfg, Snapshot(listed, []), shared, orders, sid);
      var lists := listed;
      session, taken := alone, [];
      NoTurn(call);
      StoredNothing(alone);
      assert shared[..0] == [];
      for k := 0 to |shared|
        invariant Valid() && locks == map[] && |taken| == k && Grown(old(live), old(next))
        invariant Snapshot(lists, taken) == Served(call, k)
        invariant session == alone + Stored(shared[..k], taken)
      {
        OneTurn(call, k);
        CandidatesExist(call, k);
        var t := shared[k];
        var selected, existing := AllocateShared(t, orders[k], sid, lists, taken);
        lists := lists[t := existing];
        StoredNext(alone, shared, taken, k, selected);
        taken := taken + [selected];
        session := session[t := selected];
      }
      assert shared[..|shared|] == shared;
    }

    /** `start_session` without a homepage.  `exclusive` and `session` are what is stored for `end_session`. */
    method StartSession(subtypes: seq<Subtype>, immutable: bool, listed: map<Subtype, seq<Container>>,
                        orders: seq<seq<Container>>, sid: SessionId)
      returns (session: map<Subtype, Container>, exclusive: set<Container>)
      requires Valid() && locks == map[]
      requires LegalCall(SharedCall(cfg, Snapshot(listed, []), immutable, subtypes, orders, sid))
      modifies this
      ensures Valid() && locks == map[] && Grown(old(live), old(next))
      ensures var call := old(SharedCall(cfg, Snapshot(listed, []), immutable, subtypes, orders, sid));
              var e := Exclusives(cfg, immutable, subtypes);
              var p := Served(call, |call.todo|);
              && users == p.users && uses == p.uses && next == p.next
              && |p.taken| == |call.todo|
              && session == Stored(e, Fresh(old(next), |e|)) + Stored(call.todo, p.taken)
              && exclusive == Stored(e, Fresh(old(next), |e|)).Values
    {
      hide Served, Stored, Exclusives, Shared, Opened, Fresh, LegalCall;
      var alone, shared := AllocateExclusives(immutable, subtypes, sid, listed);
      exclusive := alone.Values;
      ghost var taken;
      session, taken := AllocateInTurn(shared, listed, orders, sid, alone);
    }

    method ReleaseLocked(t: Subtype, c: Container, sid: SessionId)
      requires Valid() && t !in locks
      modifies this`users, this`locks
      ensures Valid() && locks == old(locks)
      ensures Withdrawn(old(users), users, {c}, sid)
    {
      locks := locks[t := sid];
      if c in users {
        users := users[c := users[c] - {sid}];
      }
      locks := locks - {t};
    }

    /** The first loop of `end_session`: the containers that are not exclusive are released under their lock. */
    method ReleaseShared(sid: SessionId, session: map<Subtype, Container>, exclusive: set<Container>)
      requires Valid() && locks == map[]
      modifies this`users, this`locks
      ensures Valid() && locks == map[]
      ensures Withdrawn(old(users), users, session.Values - exclusive, sid)
    {
      var todo := set t | t in session && session[t] !in exclusive;
      ghost var done: set<Container> := {};
      while todo != {}
        invariant Valid() && locks == map[] && todo <= session.Keys
        invariant forall t | t in todo :: session[t] !in exclusive
        invariant forall c | c in done :: c in session.Values && c !in exclusive
        invariant forall t | t in session && session[t] !in exclusive && t !in todo :: session[t] in done
        invariant Withdrawn(old(users), users, done, sid)
        decreases |todo|
      {
        hide Withdrawn;
        var t :| t in todo;
        ghost var before := users;
        ReleaseLocked(t, session[t], sid);
        WithdrawnMore(old(users), before, users, done, session[t], sid);
        todo := todo - {t};
        done := done + {session[t]};
      }
    }

    /** The second loop of `end_session`: the exclusive containers are deleted, and with them what is stored on them. */
    method DeleteExclusives(exclusive: set<Container>)
      requires Valid()
      modifies this`users, this`uses, this`live
      ensures Valid()
      ensures forall c: Container :: c in live <==> c in old(live) && c !in exclusive
      ensures forall c: Container :: UsersIn(users, c) == if c in exclusive then {} else UsersIn(old(users), c)
      ensures forall c: Container :: UsesIn(uses, c) == if c in exclusive then 0 else UsesIn(old(uses), c)
    {
      var todo := exclusive;
      while todo != {}
        invariant Valid() && todo <= exclusive
        invariant forall c: Container :: c in live <==> c in old(live) && (c in exclusive ==> c in todo)
        invariant forall c: Container ::
                    UsersIn(users, c) == if c in exclusive && c !in todo then {} else UsersIn(old(users), c)
        invariant forall c: Container ::
                    UsesIn(uses, c) == if c in exclusive && c !in todo then 0 else UsesIn(old(uses), c)
        decreases |todo|
      {
        var c :| c in todo;
        users, uses, live := users - {c}, uses - {c}, live - {c};
        todo := todo - {c};
      }
    }

    method EndSession(sid: SessionId, session: map<Subtype, Container>, exclusive: set<Container>)
      requires Valid() && locks == map[]
      modifies this`users, this`uses, this`locks, this`live
      ensures Valid() && locks == map[]
      ensures forall c: Container :: c in live <==> c in old(live) && c !in exclusive
      ensures forall c: Container :: UsersIn(users, c) == UsersAfterEnd(old(users), session, exclusive, sid, c)
      ensures forall c: Container :: UsesIn(uses, c) == if c in exclusive then 0 else UsesIn(old(uses), c)
    {
      ReleaseShared(sid, session, exclusive);
      DeleteExclusives(exclusive);
    }

    /** A session that is started and ended is recorded nowhere afterwards exactly if `KeepsTrack` held before.  The
        container of a request with reuse limit 1, or of a mutable one with any limit, was new and is gone again; that
        of any other request is still there, and it was a listed one with room if there was one to be had. */
    method StartThenEnd(subtypes: seq<Subtype>, immutable: bool, listed: map<Subtype, seq<Container>>,
                        orders: seq<seq<Container>>, sid: SessionId)
      returns (session: map<Subtype, Container>)
      requires Valid() && locks == map[] && Consistent(Snapshot(listed, []))
      requires forall t, c | t in listed && c in listed[t] :: c in live
      requires LegalCall(SharedCall(cfg, Snapshot(listed, []), immutable, subtypes, orders, sid))
      requires forall c | c in users :: sid !in users[c]
      modifies this
      ensures Valid() && locks == map[]
      ensures forall c: Container :: UsersIn(users, c) - {sid} == UsersIn(old(users), c)
      ensures (forall c: Container :: sid !in UsersIn(users, c))
         <==> KeepsTrack(cfg, old(users), old(uses), immutable, subtypes, orders, sid)
      ensures forall t | t in subtypes ::
                && t in session
                && (if cfg.reuse(t) == 1 || (!immutable && cfg.reuse(t) > 0) then
                      session[t] >= old(next) && session[t] !in live
                    else
                      && session[t] in live
                      && (AskedOnce(subtypes, t) && HasRoom(cfg, old(Snapshot(listed, [])), t) ==>
                            session[t] in listed[t] && Room(cfg, old(Snapshot(listed, [])), t, session[t])))
    {
      hide Served, Stored, Exclusives, Shared, NoneDisplaced, NoRepeat, Opened, UsersAfterEnd, LegalCall, Consistent,
           Room, Times;
      ghost var p0 := Snapshot(listed, []);
      EndUndoesStartIff(cfg, p0, immutable, subtypes, orders, sid);
      var exclusive;
      session, exclusive := StartSession(subtypes, immutable, listed, orders, sid);
      EndSession(sid, session, exclusive);
      hide KeepsTrack, UsersIn, UsesIn;
      forall t | t in subtypes
        ensures t in session
        ensures if cfg.reuse(t) == 1 || (!immutable && cfg.reuse(t) > 0)
                then session[t] >= p0.next && session[t] !in live
                else t in listed && session[t] in live
                     && (AskedOnce(subtypes, t) && HasRoom(cfg, p0, t) ==>
                           session[t] in listed[t] && Room(cfg, p0, t, session[t]))
      {
        PlacedByLimits(cfg, p0, immutable, subtypes, orders, sid, t);
      }
    }
  }
}
