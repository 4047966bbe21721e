/** Who may interact with a session: the flags of `Interact` and `FinishSession` over whole runs of the controller.

    A client's interaction begins in one critical section, which accepts or refuses it, and ends in a deferred one.
    A finish clears the flag of an interaction that is under way, and with notice bars the session for good. */
module Interactions {
  import opened SessionProtocol

  lemma {:induction false} PrefixLegal<R, W>(s: State<R, W>, run: seq<Step<R, W>>, k: nat)
    requires Legal(s, run) && k <= |run|
    ensures Legal(s, run[..k])
    ensures k < |run| ==> Enabled(Exec(s, run[..k]), run[k])
    decreases |run|
  {
    if k > 0 {
      PrefixLegal(Apply(s, run[0]), run[1..], k - 1);
      assert run[..k][1..] == run[1..][..k - 1];
    }
  }

  lemma {:induction false} ExecSnoc<R, W>(s: State<R, W>, run: seq<Step<R, W>>, step: Step<R, W>)
    requires Legal(s, run) && Enabled(Exec(s, run), step)
    ensures Legal(s, run + [step]) && Exec(s, run + [step]) == Apply(Exec(s, run), step)
    decreases |run|
  {
    if run == [] {
      assert [step][1..] == [];
      assert Legal(Apply(s, step), []);
      assert run + [step] == [step];
    } else {
      ExecSnoc(Apply(s, run[0]), run[1..], step);
      assert (run + [step])[1..] == run[1..] + [step];
    }
  }

  /** The state before step `k`. */
  ghost function At<R, W>(run: seq<Step<R, W>>, k: nat): State<R, W>
    requires Legal(Init(), run) && k <= |run|
  {
    PrefixLegal(Init(), run, k);
    Exec(Init(), run[..k])
  }

  lemma AtNext<R, W>(run: seq<Step<R, W>>, k: nat)
    requires Legal(Init(), run) && k < |run|
    ensures Enabled(At(run, k), run[k]) && At(run, k + 1) == Apply(At(run, k), run[k])
  {
    PrefixLegal(Init(), run, k);
    ExecSnoc(Init(), run[..k], run[k]);
    assert run[..k + 1] == run[..k] + [run[k]];
  }

  // ---------------------------------------------------------------- who a session is

  lemma StepKeepsIdentity<R, W>(s: State<R, W>, step: Step<R, W>, r: R)
    requires Enabled(s, step) && r in s.objects
    ensures var s' := Apply(s, step);
            && r in s'.objects && s'.objects[r].id == s.objects[r].id
            && s'.objects[r].worker == s.objects[r].worker && s'.objects[r].index == s.objects[r].index
  {}

  lemma {:induction false} IdentityStays<R, W>(run: seq<Step<R, W>>, r: R, k: nat, n: nat)
    requires Legal(Init(), run) && k <= n <= |run| && r in At(run, k).objects
    ensures r in At(run, n).objects
    ensures var o, o' := At(run, k).objects[r], At(run, n).objects[r];
            o'.id == o.id && o'.worker == o.worker && o'.index == o.index
    decreases n
  {
    if k < n {
      hide At, Legal, Apply, Enabled;
      IdentityStays(run, r, k, n - 1);
      AtNext(run, n - 1);
      StepKeepsIdentity(At(run, n - 1), run[n - 1], r);
    }
  }

  /** A dispatched session carries the worker and the index it was created for, and an adopted one those of the report,
      for as long as it exists; at first it is unfinished, stamped with that moment, and the one its id leads to. */
  lemma BornAsAsked<R, W>(run: seq<Step<R, W>>, k: nat, n: nat)
    requires Legal(Init(), run) && k < n <= |run|
    requires run[k].Create? || (run[k].Resume? && run[k].id !in At(run, k).table)
    ensures var r, s := run[k].r, At(run, k + 1);
            && r in s.objects && s.objects[r].id in s.table && s.table[s.objects[r].id] == r
            && !s.objects[r].finished && s.objects[r].lastUpdate == run[k].now
            && (run[k].Resume? ==> s.objects[r].id == run[k].id)
            && r in At(run, n).objects
            && At(run, n).objects[r].worker == run[k].w && At(run, n).objects[r].index == run[k].index
  {
    AtNext(run, k);
    IdentityStays(run, run[k].r, k + 1, n);
  }

  // ---------------------------------------------------------------- events of a session

  /** Step `i` begins an interaction with `r`, and is accepted. */
  ghost predicate Accepted<R, W>(run: seq<Step<R, W>>, r: R, i: nat)
    requires Legal(Init(), run)
  {
    && i < |run| && run[i].BeginInteract? && run[i].r == r
    && r in At(run, i).objects && !Busy(At(run, i).objects[r])
  }

  /** Step `k` finishes the unfinished session `r`. */
  ghost predicate Finishes<R, W>(run: seq<Step<R, W>>, r: R, k: nat)
    requires Legal(Init(), run)
  {
    k < |run| && run[k].Finish? && run[k].r == r && r in At(run, k).objects && !At(run, k).objects[r].finished
  }

  predicate Ends<R(==), W>(run: seq<Step<R, W>>, r: R, k: nat) {
    k < |run| && run[k].EndInteract? && run[k].r == r
  }

  /** Before step `n` the session was finished with notice: it is being cancelled. */
  ghost predicate Notified<R, W>(run: seq<Step<R, W>>, r: R, n: nat)
    requires Legal(Init(), run)
  {
    exists k :: 0 <= k < n && Finishes(run, r, k) && run[k].notice
  }

  /** Step `k` clears the flag of whatever interaction there is. */
  ghost predicate Stops<R, W>(run: seq<Step<R, W>>, r: R, k: nat)
    requires Legal(Init(), run)
  {
    Ends(run, r, k) || Finishes(run, r, k)
  }

  /** Interaction `i` began, and since then nothing has ended or finished on the session. */
  ghost predicate Open<R, W>(run: seq<Step<R, W>>, r: R, i: nat, n: nat)
    requires Legal(Init(), run)
  {
    i < n && Accepted(run, r, i) && forall k: nat | i < k < n :: !Stops(run, r, k)
  }

  ghost predicate SomeOpen<R, W>(run: seq<Step<R, W>>, r: R, n: nat)
    requires Legal(Init(), run)
  {
    exists i: nat :: Open(run, r, i, n)
  }

  // ---------------------------------------------------------------- the flags

  /** What one step does to the flags of one session. */
  ghost predicate FlagsMove<R, W>(s: State<R, W>, step: Step<R, W>, s': State<R, W>, r: R) {
    if r !in s.objects then r in s'.objects ==> !s'.objects[r].interacting && !s'.objects[r].cancelling
    else
      var o := s.objects[r];
      var finishes := step.Finish? && step.r == r && !o.finished;
      && r in s'.objects
      && s'.objects[r].cancelling == (o.cancelling || (finishes && step.notice))
      && s'.objects[r].interacting ==
         if finishes || (step.EndInteract? && step.r == r) then false
         else if step.BeginInteract? && step.r == r && !o.interacting && !o.cancelling then true
         else o.interacting
  }

  lemma StepMovesFlags<R, W>(s: State<R, W>, step: Step<R, W>, r: R)
    requires Enabled(s, step)
    ensures FlagsMove(s, step, Apply(s, step), r)
  {
    hide Apply, Enabled, FlagsMove;
    if step.Resume? { ResumeKeepsFlags(s, step, r); }
    else if step.Finish? { FinishMovesFlags(s, step, r); }
    else { OtherMovesFlags(s, step, r); }
  }

  lemma FinishMovesFlags<R, W>(s: State<R, W>, step: Step<R, W>, r: R)
    requires Enabled(s, step) && step.Finish?
    ensures FlagsMove(s, step, Apply(s, step), r)
  {
    hide ResumeIn, Classify;
  }

  lemma OtherMovesFlags<R, W>(s: State<R, W>, step: Step<R, W>, r: R)
    requires Enabled(s, step) && !step.Resume? && !step.Finish?
    ensures FlagsMove(s, step, Apply(s, step), r)
  {
    hide ResumeIn, Classify, FinishObject;
  }

  lemma ResumeKeepsFlags<R, W>(s: State<R, W>, step: Step<R, W>, r: R)
    requires Enabled(s, step) && step.Resume?
    ensures FlagsMove(s, step, Apply(s, step), r)
  {}

  lemma NothingBefore<R, W>(run: seq<Step<R, W>>, r: R, n: nat)
    requires Legal(Init(), run) && n <= |run| && r !in At(run, n).objects
    ensures !Notified(run, r, n) && !SomeOpen(run, r, n)
  {
    hide At, Legal;
    forall k | 0 <= k < n && r in At(run, k).objects ensures false {
      IdentityStays(run, r, k, n);
    }
  }

  lemma OpenNext<R, W>(run: seq<Step<R, W>>, r: R, m: nat)
    requires Legal(Init(), run) && m < |run|
    ensures Notified(run, r, m + 1) <==> Notified(run, r, m) || (Finishes(run, r, m) && run[m].notice)
    ensures SomeOpen(run, r, m + 1)
       <==> Accepted(run, r, m) || (SomeOpen(run, r, m) && !Stops(run, r, m))
  {
    hide At, Legal, Accepted, Finishes, Stops;
    if Accepted(run, r, m) { assert Open(run, r, m, m + 1); }
    if SomeOpen(run, r, m) && !Stops(run, r, m) {
      var i: nat :| Open(run, r, i, m);
      assert Open(run, r, i, m + 1);
    }
    if SomeOpen(run, r, m + 1) {
      var i: nat :| Open(run, r, i, m + 1);
      if i < m { assert Open(run, r, i, m); }
    }
  }

  /** In every run: a session is being cancelled exactly if it was finished with notice while unfinished, and its flag
      is up exactly if since some accepted interaction began nothing has ended or finished on it. */
  lemma {:induction false} FlagsIff<R, W>(run: seq<Step<R, W>>, r: R, n: nat)
    requires Legal(Init(), run) && n <= |run| && r in At(run, n).objects
    ensures At(run, n).objects[r].cancelling <==> Notified(run, r, n)
    ensures At(run, n).objects[r].interacting <==> SomeOpen(run, r, n)
    decreases n
  {
    if n > 0 {
      hide At, Legal, Apply, Enabled, Notified, SomeOpen;
      var m := n - 1;
      AtNext(run, m);
      StepMovesFlags(At(run, m), run[m], r);
      OpenNext(run, r, m);
      if r in At(run, m).objects {
        FlagsIff(run, r, m);
      } else {
        NothingBefore(run, r, m);
      }
    }
  }

  // ---------------------------------------------------------------- who is let in

  /** An interaction that begins at this point of the run is accepted, and raises the flag. */
  ghost predicate LetsIn<R, W>(s: State<R, W>, r: R, now: int) {
    && r in s.objects && !Busy(s.objects[r])
    && Apply(s, BeginInteract(r, now)).objects[r].interacting
  }

  /** It is refused, and nothing changes. */
  ghost predicate Refuses<R, W>(s: State<R, W>, r: R, now: int) {
    r in s.objects && Busy(s.objects[r]) && Apply(s, BeginInteract(r, now)) == s
  }

  /** At every point of every run: an interaction is let in if the session was never finished with notice and none is
      open, and refused without effect otherwise. */
  lemma AdmissionIff<R, W>(run: seq<Step<R, W>>, r: R, n: nat, now: int)
    requires Legal(Init(), run) && n <= |run| && r in At(run, n).objects
    ensures LetsIn(At(run, n), r, now) <==> !Notified(run, r, n) && !SomeOpen(run, r, n)
    ensures Refuses(At(run, n), r, now) <==> !LetsIn(At(run, n), r, now)
  {
    hide At, Legal, Notified, SomeOpen, LetsIn, Refuses, Apply;
    FlagsIff(run, r, n);
    EntryIff(At(run, n), r, now);
  }

  lemma EntryIff<R, W>(s: State<R, W>, r: R, now: int)
    requires r in s.objects
    ensures LetsIn(s, r, now) <==> !s.objects[r].cancelling && !s.objects[r].interacting
    ensures Refuses(s, r, now) <==> !LetsIn(s, r, now)
  {
    hide ResumeIn, Classify, FinishObject;
  }

  /** Once a session has been finished with notice nobody gets in any more, whatever happens in between. */
  lemma NoticeIsFinal<R, W>(run: seq<Step<R, W>>, r: R, k: nat, n: nat, now: int)
    requires Legal(Init(), run) && k < n <= |run|
    requires Finishes(run, r, k) && run[k].notice
    ensures Refuses(At(run, n), r, now)
  {
    IdentityStays(run, r, k, n);
    AdmissionIff(run, r, n, now);
  }

  /** A session that is new at step `c`, created or adopted, lets the first interaction in. */
  lemma NewLetsIn<R, W>(run: seq<Step<R, W>>, r: R, c: nat, n: nat, now: int)
    requires Legal(Init(), run) && c < n <= |run|
    requires r !in At(run, c).objects && r in At(run, c + 1).objects
    requires forall k | c < k < n :: !Accepted(run, r, k) && !(Finishes(run, r, k) && run[k].notice)
    ensures LetsIn(At(run, n), r, now)
  {
    IdentityStays(run, r, c + 1, n);
    AdmissionIff(run, r, n, now);
    forall k | 0 <= k <= c ensures !Accepted(run, r, k) && !Finishes(run, r, k) {
      if r in At(run, k).objects { IdentityStays(run, r, k, c); }
    }
  }

  /** A session whose interaction has ended, and which was never finished with notice, lets the next one in. */
  lemma EndedLetsIn<R, W>(run: seq<Step<R, W>>, r: R, e: nat, n: nat, now: int)
    requires Legal(Init(), run) && e < n <= |run| && Ends(run, r, e) && r in At(run, e).objects
    requires forall k | e < k < n :: !Accepted(run, r, k)
    requires !Notified(run, r, n)
    ensures LetsIn(At(run, n), r, now)
  {
    IdentityStays(run, r, e, n);
    assert Stops(run, r, e);
    AdmissionIff(run, r, n, now);
  }

  // ---------------------------------------------------------------- one at a time

  /** Whose deferred end each `EndInteract` is: `owner[k]` is where the interaction began that ends at `k`. */
  ghost predicate Owners<R, W>(run: seq<Step<R, W>>, owner: map<nat, nat>)
    requires Legal(Init(), run)
  {
    && (forall k: nat | k < |run| && run[k].EndInteract? ::
          k in owner && owner[k] < k && Accepted(run, run[k].r, owner[k]))
    && (forall k: nat, l: nat | k < |run| && l < |run| && run[k].EndInteract? && run[l].EndInteract? && k in owner
                             && l in owner && owner[k] == owner[l] :: k == l)
  }

  /** Interaction `i` with `r` has begun before step `n` and not ended. */
  ghost predicate UnderWay<R, W>(run: seq<Step<R, W>>, owner: map<nat, nat>, r: R, i: nat, n: nat)
    requires Legal(Init(), run) && Owners(run, owner) && n <= |run|
  {
    i < n && Accepted(run, r, i) && forall k: nat | i < k < n && Ends(run, r, k) :: owner[k] != i
  }

  /** No finish has cut it off either. */
  ghost predicate Uncut<R, W>(run: seq<Step<R, W>>, r: R, i: nat, n: nat)
    requires Legal(Init(), run)
  {
    forall k: nat | i < k < n :: !Finishes(run, r, k)
  }

  /** Interaction `o` was cut off by a finish at `f`, and ends only at `k`, when a later one has begun at `b`. */
  ghost predicate LateEnd<R, W>(run: seq<Step<R, W>>, owner: map<nat, nat>, r: R, o: nat, f: nat, b: nat, k: nat)
    requires Legal(Init(), run) && Owners(run, owner)
  {
    && o < f < b < k && Finishes(run, r, f) && Accepted(run, r, b) && Ends(run, r, k) && owner[k] == o
  }

  lemma {:induction false} First<R, W>(run: seq<Step<R, W>>, r: R, i: nat, k: nat) returns (l: nat)
    requires Legal(Init(), run) && i < k && Stops(run, r, k)
    ensures i < l <= k && Stops(run, r, l) && forall m: nat | i < m < l :: !Stops(run, r, m)
    decreases k
  {
    l := k;
    if m: nat :| i < m < k && Stops(run, r, m) {
      l := First(run, r, i, m);
    }
  }

  /** Between two accepted interactions something clears the flag; nobody is let in before that. */
  lemma FirstStop<R, W>(run: seq<Step<R, W>>, r: R, i: nat, j: nat) returns (k: nat)
    requires Legal(Init(), run) && i < j && Accepted(run, r, i) && Accepted(run, r, j)
    ensures i < k < j && Stops(run, r, k)
    ensures forall b: nat | i < b <= k :: !Accepted(run, r, b)
  {
    hide At, Legal;
    FlagsIff(run, r, j);
    assert !Open(run, r, i, j);
    k :| i < k < j && Stops(run, r, k);
    k := First(run, r, i, k);
    forall b: nat | i < b <= k ensures !Accepted(run, r, b) {
      assert Open(run, r, i, b);
      OpenBars(run, r, i, b);
    }
  }

  lemma OpenBars<R, W>(run: seq<Step<R, W>>, r: R, i: nat, b: nat)
    requires Legal(Init(), run) && Open(run, r, i, b)
    ensures !Accepted(run, r, b)
  {
    hide At, Legal;
    if b < |run| && r in At(run, b).objects { FlagsIff(run, r, b); }
  }

  /** In every run: if an interaction is let in while another one is under way that no finish has cut off, then the end
      of one that was cut off has come late, and cleared the flag of one that began after the cut. */
  lemma {:induction false} OverlapNeedsLateEnd<R, W>(run: seq<Step<R, W>>, owner: map<nat, nat>, r: R, i: nat, j: nat)
    returns (o: nat, f: nat, b: nat, k: nat)
    requires Legal(Init(), run) && Owners(run, owner) && i < j < |run| && Accepted(run, r, j)
    requires UnderWay(run, owner, r, i, j) && Uncut(run, r, i, j)
    ensures k < j && LateEnd(run, owner, r, o, f, b, k)
    decreases j
  {
    k := FirstStop(run, r, i, j);
    o, b := owner[k], i;
    assert o < i;
    if Uncut(run, r, o, i) {
      assert UnderWay(run, owner, r, o, i) by {
        forall l: nat | o < l < i && Ends(run, r, l) ensures owner[l] != o {
          assert l < k;
        }
      }
      o, f, b, k := OverlapNeedsLateEnd(run, owner, r, o, i);
    } else {
      f :| o < f < i && Finishes(run, r, f);
    }
  }

  /** And that is enough: once somebody else's end has cleared the flag of an interaction under way, the next is let in
      beside it. */
  lemma LateEndLetsIn<R, W>(run: seq<Step<R, W>>, owner: map<nat, nat>, r: R, b: nat, k: nat, now: int)
    requires Legal(Init(), run) && Owners(run, owner) && b < k < |run| && Ends(run, r, k) && owner[k] != b
    requires UnderWay(run, owner, r, b, k) && !Notified(run, r, k + 1)
    ensures UnderWay(run, owner, r, b, k + 1) && LetsIn(At(run, k + 1), r, now)
  {
    IdentityStays(run, r, b, k);
    EndedLetsIn(run, r, k, k + 1, now);
  }

  /** So in a run without late ends no interaction is let in while one is under way, unless a finish has cut that
      off. */
  lemma OneAtATime<R, W>(run: seq<Step<R, W>>, owner: map<nat, nat>, r: R, i: nat, j: nat)
    requires Legal(Init(), run) && Owners(run, owner) && i < j < |run| && Accepted(run, r, j)
    requires UnderWay(run, owner, r, i, j)
    requires forall o: nat, f: nat, b: nat, k: nat | k < j :: !LateEnd(run, owner, r, o, f, b, k)
    ensures !Uncut(run, r, i, j)
  {
    if Uncut(run, r, i, j) {
      var o, f, b, k := OverlapNeedsLateEnd(run, owner, r, i, j);
      assert false;
    }
  }

  /** A session is adopted, an interaction with it begins and is cut off by a finish, another one begins, the first one
      ends at last, and a third one begins. */
  function LateRun<R, W>(w: W, r: R): seq<Step<R, W>> {
    [Register(w, 1), Resume(r, w, 1, 0, 0, 0), BeginInteract(r, 1), Finish(r, false, 2), BeginInteract(r, 3),
     EndInteract(r, 4), BeginInteract(r, 5)]
  }

  /** Then two interactions are under way at once, and neither has been cut off. */
  lemma TwoAtATime<R, W>(w: W, r: R)
    ensures var run, owner := LateRun(w, r), map[5 := 2];
            && Legal(Init(), run) && Owners(run, owner)
            && LateEnd(run, owner, r, 2, 3, 4, 5)
            && UnderWay(run, owner, r, 4, 7) && Uncut(run, r, 4, 7)
            && UnderWay(run, owner, r, 6, 7) && Uncut(run, r, 6, 7)
  {
    var run := LateRun(w, r);
    LateRunStates(w, r);
    assert forall k: nat | k < 7 && run[k].EndInteract? :: k == 5;
    hide At, Legal, Busy;
    assert Accepted(run, r, 2) && Accepted(run, r, 4) && Accepted(run, r, 6) && Finishes(run, r, 3);
  }

  function Late<R, W>(w: W, r: R, load: int, o: Session<W>): State<R, W> {
    State(map[r := o], map[1 := r], map[w := load], map[w := 1], multiset{}, 0)
  }

  lemma LateRunStates<R, W>(w: W, r: R)
    ensures var run := LateRun(w, r);
            && Legal(Init(), run)
            && (forall k: nat | k == 2 || k == 4 || k == 6 ::
                  r in At(run, k).objects && !Busy(At(run, k).objects[r]))
            && r in At(run, 3).objects && !At(run, 3).objects[r].finished
  {
    var run, o := LateRun(w, r), NewSession(1, w, 0, 0);
    var o3 := o.(interacting := true, lastUpdate := 1);
    var o4 := o3.(interacting := false, finished := true, lastUpdate := 2);
    var o5 := o4.(interacting := true, lastUpdate := 3);
    var o6 := o5.(interacting := false, lastUpdate := 4);
    var s2, s3, s4 := Late(w, r, 1, o), Late(w, r, 1, o3), Late(w, r, 0, o4);
    var s5, s6 := Late(w, r, 0, o5), Late(w, r, 0, o6);
    Adopted(w, r);
    LateSteps(w, r, o, o3, o4, o5, o6);
    hide Legal, Exec, Apply, Enabled, Late, LateRun;
    StepTo(Init(), run[..2], run[2], s3, run[..3]);
    StepTo(Init(), run[..3], run[3], s4, run[..4]);
    StepTo(Init(), run[..4], run[4], s5, run[..5]);
    StepTo(Init(), run[..5], run[5], s6, run[..6]);
    StepTo(Init(), run[..6], run[6], Apply(s6, run[6]), run[..7]);
    assert run[..7] == run;
    LateObjects(w, r, o, o3, o4, o6);
  }

  lemma LateObjects<R, W>(w: W, r: R, o: Session<W>, o3: Session<W>, o4: Session<W>, o6: Session<W>)
    ensures Late(w, r, 1, o).objects == map[r := o] && Late(w, r, 1, o3).objects == map[r := o3]
    ensures Late(w, r, 0, o4).objects == map[r := o4] && Late(w, r, 0, o6).objects == map[r := o6]
  {}

  lemma Adopted<R, W>(w: W, r: R)
    ensures |LateRun(w, r)| == 7
    ensures var run := LateRun(w, r)[..2];
            Legal(Init(), run) && Exec(Init(), run) == Late(w, r, 1, NewSession(1, w, 0, 0))
  {
    var run := LateRun(w, r);
    var s1: State<R, W> := State(map[], map[], map[w := 0], map[w := 1], multiset{}, 0);
    assert Apply(Init(), run[0]) == s1;
    assert Apply(s1, run[1]) == Late(w, r, 1, NewSession(1, w, 0, 0));
    StepTo(Init(), run[..0], run[0], s1, run[..1]);
    StepTo(Init(), run[..1], run[1], Late(w, r, 1, NewSession(1, w, 0, 0)), run[..2]);
  }

  lemma LateSteps<R, W>(w: W, r: R, o: Session<W>, o3: Session<W>, o4: Session<W>, o5: Session<W>, o6: Session<W>)
    requires o == NewSession(1, w, 0, 0)
    requires o3 == o.(interacting := true, lastUpdate := 1)
    requires o4 == o3.(interacting := false, finished := true, lastUpdate := 2)
    requires o5 == o4.(interacting := true, lastUpdate := 3) && o6 == o5.(interacting := false, lastUpdate := 4)
    ensures var run := LateRun(w, r);
            && Enabled(Late(w, r, 1, o), run[2]) && Apply(Late(w, r, 1, o), run[2]) == Late(w, r, 1, o3)
            && Enabled(Late(w, r, 1, o3), run[3]) && Apply(Late(w, r, 1, o3), run[3]) == Late(w, r, 0, o4)
            && Enabled(Late(w, r, 0, o4), run[4]) && Apply(Late(w, r, 0, o4), run[4]) == Late(w, r, 0, o5)
            && Enabled(Late(w, r, 0, o5), run[5]) && Apply(Late(w, r, 0, o5), run[5]) == Late(w, r, 0, o6)
            && Enabled(Late(w, r, 0, o6), run[6])
  {}

  lemma StepTo<R, W>(s: State<R, W>, run: seq<Step<R, W>>, step: Step<R, W>, s': State<R, W>, longer: seq<Step<R, W>>)
    requires longer == run + [step]
    requires Legal(s, run) && Enabled(Exec(s, run), step) && Apply(Exec(s, run), step) == s'
    ensures Legal(s, longer) && Exec(s, longer) == s'
  {
    ExecSnoc(s, run, step);
  }
}
