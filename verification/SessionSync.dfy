/** What one `Sync` of a worker does to the sessions, as a relation between the state before and after. */
module SessionSync {
  import opened SessionProtocol

  /** The sessions a worker says it is running, with their task index. */
  type Report = map<Id, int>

  /** What a sync makes of an object that was in the table. */
  function SyncObject<W(==)>(o: Session<W>, w: W, report: Report, syncTime: int, now: int): Session<W> {
    if o.worker != w then o
    else if o.id in report then
      if o.index == report[o.id] && o.finished && o.lastUpdate <= syncTime
      then o.(finished := false, lastUpdate := now)
      else o
    else if o.lastUpdate < syncTime then FinishObject(o, false, now)
    else o
  }

  ghost predicate InTable<R, W>(s: State<R, W>, r: R) {
    r in s.objects && s.objects[r].id in s.table && s.table[s.objects[r].id] == r
  }

  /** Whether the object of `r` has been dealt with once the ids in `checked` went through the first
      loop of `Sync` and the ids in `resumed` through the second. */
  ghost predicate Handled<R, W>(s: State<R, W>, r: R, report: Report, checked: set<Id>, resumed: set<Id>) {
    InTable(s, r) && (s.objects[r].id in resumed || (s.objects[r].id in checked && s.objects[r].id !in report))
  }

  /** The table keeps its entries and gains the ids in `resumed`, each with a session adopted from the report. */
  ghost predicate TableSynced<R, W>(s: State<R, W>, s': State<R, W>, w: W, report: Report, now: int, resumed: set<Id>) {
    && resumed <= report.Keys
    && s'.table.Keys == s.table.Keys + resumed
    && (forall id {:trigger s'.table[id]} | id in s.table :: s'.table[id] == s.table[id])
    && (forall id {:trigger s'.table[id]} | id in resumed && id !in s.table ::
          && s'.table[id] !in s.objects && s'.table[id] in s'.objects
          && s'.objects[s'.table[id]] == NewSession(id, w, report[id], now))
    && (forall r | r in s'.objects :: r in s.objects || InTable(s', r))
  }

  /** Exactly the handled objects have been synced. */
  ghost predicate ObjectsSynced<R, W>(s: State<R, W>, s': State<R, W>, w: W, report: Report,
                                      syncTime: int, now: int, checked: set<Id>, resumed: set<Id>)
  {
    forall r | r in s.objects :: r in s'.objects &&
      s'.objects[r] == (if Handled(s, r, report, checked, resumed)
                        then SyncObject(s.objects[r], w, report, syncTime, now)
                        else s.objects[r])
  }

  ghost predicate RestSame<R, W>(s: State<R, W>, s': State<R, W>, w: W) {
    && s'.capacity == s.capacity && s'.pending == s.pending && s'.nextId == s.nextId
    && s'.current.Keys == s.current.Keys
    && (forall v | v in s.current && v != w :: s'.current[v] == s.current[v])
  }

  /** `s'` is `s` after a sync that has come as far as `checked` and `resumed`. */
  ghost predicate SyncedUpTo<R, W>(s: State<R, W>, s': State<R, W>, w: W, report: Report,
                                   syncTime: int, now: int, checked: set<Id>, resumed: set<Id>)
  {
    && TableSynced(s, s', w, report, now, resumed)
    && ObjectsSynced(s, s', w, report, syncTime, now, checked, resumed)
    && RestSame(s, s', w)
  }

  /** The whole sync. */
  ghost predicate Synced<R, W>(s: State<R, W>, s': State<R, W>, w: W, report: Report, syncTime: int, now: int) {
    SyncedUpTo(s, s', w, report, syncTime, now, s.table.Keys, report.Keys)
  }

  ghost predicate MismatchedAt<R, W>(s: State<R, W>, w: W, report: Report, id: Id) {
    id in report && id in s.table && s.table[id] in s.objects &&
    (s.objects[s.table[id]].worker != w || s.objects[s.table[id]].index != report[id])
  }

  // ---------------------------------------------------------------- one turn of each loop

  /** Whether an id mismatches does not change while the sync runs. */
  lemma MismatchSeen<R, W>(s: State<R, W>, m: State<R, W>, w: W, report: Report, syncTime: int, now: int,
                           resumed: set<Id>, id: Id)
    requires WellFormed(s) && WellFormed(m) && id in report
    requires SyncedUpTo(s, m, w, report, syncTime, now, s.table.Keys, resumed)
    requires id !in resumed
    ensures MismatchedAt(s, w, report, id) <==> Classify(m, w, id, report[id], syncTime).Mismatch?
  {
    if id in s.table {
      assert m.table[id] == s.table[id];
    }
  }

  /** The ids of the worker's sessions in the table. */
  ghost function BoundTo<R, W>(s: State<R, W>, w: W): set<Id> {
    set id | id in s.table && s.table[id] in s.objects && s.objects[s.table[id]].worker == w
  }

  lemma SyncStart<R, W>(s: State<R, W>, w: W, report: Report, syncTime: int, now: int)
    ensures SyncedUpTo(s, s, w, report, syncTime, now, {}, {})
  {}

  /** If only the object behind `id` changes, and to what a sync makes of it, then `id` is handled. */
  lemma HandleOne<R, W>(s: State<R, W>, m: State<R, W>, m': State<R, W>, w: W, report: Report, syncTime: int, now: int,
                        checked: set<Id>, resumed: set<Id>, checked': set<Id>, resumed': set<Id>, id: Id)
    requires ObjectsSynced(s, m, w, report, syncTime, now, checked, resumed)
    requires id in s.table && s.table[id] in s.objects && s.objects[s.table[id]].id == id
    requires checked <= checked' <= checked + {id} && resumed <= resumed' <= resumed + {id}
    requires Handled(s, s.table[id], report, checked', resumed')
    requires forall q | q in m.objects :: q in m'.objects && (q != s.table[id] ==> m'.objects[q] == m.objects[q])
    requires s.table[id] in m'.objects
    requires m'.objects[s.table[id]] == SyncObject(s.objects[s.table[id]], w, report, syncTime, now)
    ensures ObjectsSynced(s, m', w, report, syncTime, now, checked', resumed')
  {
    forall q | q in s.objects
      ensures q in m'.objects
      ensures m'.objects[q] == (if Handled(s, q, report, checked', resumed')
                                then SyncObject(s.objects[q], w, report, syncTime, now)
                                else s.objects[q])
    {
      if q != s.table[id] {
        assert s.objects[q].id == id ==> !InTable(s, q);
        assert s.objects[q].id != id ==> (s.objects[q].id in checked' <==> s.objects[q].id in checked);
        assert s.objects[q].id != id ==> (s.objects[q].id in resumed' <==> s.objects[q].id in resumed);
        assert Handled(s, q, report, checked', resumed') <==> Handled(s, q, report, checked, resumed);
      }
    }
  }

  /** One turn of the first loop. */
  lemma CheckStep<R, W>(s: State<R, W>, m: State<R, W>, w: W, report: Report, syncTime: int, now: int,
                        checked: set<Id>, id: Id)
    requires WellFormed(s) && WellFormed(m) && SyncedUpTo(s, m, w, report, syncTime, now, checked, {})
    requires id in BoundTo(s, w) && id !in checked
    ensures id in m.table && m.table[id] == s.table[id]
    ensures m.table[id] in m.objects && m.objects[m.table[id]] == s.objects[s.table[id]]
    ensures m.objects[m.table[id]].worker in m.current
    ensures SyncedUpTo(s,
                       if id !in report && m.objects[m.table[id]].lastUpdate < syncTime
                       then FinishIn(m, m.table[id], false, now) else m,
                       w, report, syncTime, now, checked + {id}, {})
  {
    var r := s.table[id];
    assert m.table[id] == r;
    assert !Handled(s, r, report, checked, {});
    assert m.objects[r] == s.objects[r];
    if id in report {
      CheckReported(s, m, w, report, syncTime, now, checked, id);
    } else {
      var m' := if m.objects[r].lastUpdate < syncTime then FinishIn(m, r, false, now) else m;
      CheckedObject(m, r, w, report, syncTime, now);
      hide FinishIn;
      HandleOne(s, m, m', w, report, syncTime, now, checked, {}, checked + {id}, {}, id);
      TableUnmoved(s, m, m', w, report, now, {}, {});
      hide ObjectsSynced, TableSynced;
      assert RestSame(s, m', w);
    }
  }

  /** The first loop rewrites an unreported object to what a sync makes of it. */
  lemma CheckedObject<R, W>(m: State<R, W>, r: R, w: W, report: Report, syncTime: int, now: int)
    requires r in m.objects && m.objects[r].worker == w && w in m.current && m.objects[r].id !in report
    ensures var m' := if m.objects[r].lastUpdate < syncTime then FinishIn(m, r, false, now) else m;
            && m'.table == m.table && m'.objects.Keys == m.objects.Keys
            && m'.objects[r] == SyncObject(m.objects[r], w, report, syncTime, now)
                && m'.objects[r].id == m.objects[r].id
            && (forall q | q in m.objects && q != r :: m'.objects[q] == m.objects[q])
            && RestSame(m, m', w)
  {}

  /** The first loop does nothing to reported ids. */
  lemma CheckReported<R, W>(s: State<R, W>, m: State<R, W>, w: W, report: Report, syncTime: int, now: int,
                            checked: set<Id>, id: Id)
    requires SyncedUpTo(s, m, w, report, syncTime, now, checked, {}) && id in report
    ensures SyncedUpTo(s, m, w, report, syncTime, now, checked + {id}, {})
  {
    forall r | r in s.objects
      ensures Handled(s, r, report, checked + {id}, {}) <==> Handled(s, r, report, checked, {})
    {}
  }

  /** Ids of other workers need no check. */
  lemma CheckedAll<R, W>(s: State<R, W>, m: State<R, W>, w: W, report: Report, syncTime: int, now: int,
                         checked: set<Id>)
    requires SyncedUpTo(s, m, w, report, syncTime, now, checked, {})
    requires checked <= s.table.Keys
    requires BoundTo(s, w) <= checked
    ensures SyncedUpTo(s, m, w, report, syncTime, now, s.table.Keys, {})
  {}

  /** One turn of the second loop. */
  lemma ResumeStep<R, W>(s: State<R, W>, m: State<R, W>, w: W, report: Report, syncTime: int, now: int,
                         resumed: set<Id>, id: Id, r: R)
    requires WellFormed(s) && WellFormed(m) && w in s.current
    requires SyncedUpTo(s, m, w, report, syncTime, now, s.table.Keys, resumed)
    requires id in report && id !in resumed
    requires id !in m.table ==> r !in m.objects
    ensures SyncedUpTo(s, ResumeIn(m, r, w, id, report[id], syncTime, now), w, report, syncTime, now,
                       s.table.Keys, resumed + {id})
  {
    if id in s.table {
      ResumeKnown(s, m, w, report, syncTime, now, resumed, id, r);
    } else {
      ResumeUnknown(s, m, w, report, syncTime, now, resumed, id, r);
    }
  }

  lemma ResumeKnown<R, W>(s: State<R, W>, m: State<R, W>, w: W, report: Report, syncTime: int, now: int,
                          resumed: set<Id>, id: Id, r: R)
    requires WellFormed(s) && WellFormed(m) && w in s.current
    requires SyncedUpTo(s, m, w, report, syncTime, now, s.table.Keys, resumed)
    requires id in report && id !in resumed && id in s.table
    ensures SyncedUpTo(s, ResumeIn(m, r, w, id, report[id], syncTime, now), w, report, syncTime, now,
                       s.table.Keys, resumed + {id})
  {
    var q := s.table[id];
    assert m.table[id] == q;
    assert !Handled(s, q, report, s.table.Keys, resumed);
    assert m.objects[q] == s.objects[q];
    var m' := ResumeIn(m, r, w, id, report[id], syncTime, now);
    ResumedObject(m, r, w, id, report, syncTime, now);
    hide ResumeIn, Classify;
    HandleOne(s, m, m', w, report, syncTime, now, s.table.Keys, resumed, s.table.Keys, resumed + {id}, id);
    TableUnmoved(s, m, m', w, report, now, resumed, resumed + {id});
    hide ObjectsSynced, TableSynced;
    assert RestSame(s, m', w);
  }

  /** `ResumeSession` on a known id rewrites that one object, to what a sync makes of it. */
  lemma ResumedObject<R, W>(m: State<R, W>, r: R, w: W, id: Id, report: Report, syncTime: int, now: int)
    requires WellFormed(m) && w in m.current && id in report && id in m.table
    ensures var m' := ResumeIn(m, r, w, id, report[id], syncTime, now);
            && m'.table == m.table && m'.objects.Keys == m.objects.Keys
            && m'.objects[m.table[id]] == SyncObject(m.objects[m.table[id]], w, report, syncTime, now)
            && m'.objects[m.table[id]].id == id
            && (forall q | q in m.objects && q != m.table[id] :: m'.objects[q] == m.objects[q])
            && RestSame(m, m', w)
  {
    match Classify(m, w, id, report[id], syncTime)
    case Mismatch =>
    case Keep =>
    case Revive =>
  }

  /** Rewriting objects of known ids leaves the table part of a sync as it was. */
  lemma TableUnmoved<R, W>(s: State<R, W>, m: State<R, W>, m': State<R, W>, w: W, report: Report, now: int,
                           resumed: set<Id>, resumed': set<Id>)
    requires WellFormed(s) && WellFormed(m) && TableSynced(s, m, w, report, now, resumed)
    requires m'.table == m.table && m'.objects.Keys == m.objects.Keys
    requires resumed <= resumed' <= resumed + s.table.Keys && resumed' <= report.Keys
    requires forall q | q in m.objects :: m'.objects[q].id == m.objects[q].id
    requires forall q | q in m.objects && q !in s.objects :: m'.objects[q] == m.objects[q]
    ensures TableSynced(s, m', w, report, now, resumed')
  {
    forall p | p in m'.objects ensures p in s.objects || InTable(m', p) {
      assert p in m.objects;
      assert InTable(m, p) ==> InTable(m', p);
    }
  }

  lemma ResumeUnknown<R, W>(s: State<R, W>, m: State<R, W>, w: W, report: Report, syncTime: int, now: int,
                            resumed: set<Id>, id: Id, r: R)
    requires WellFormed(s) && WellFormed(m) && w in s.current
    requires SyncedUpTo(s, m, w, report, syncTime, now, s.table.Keys, resumed)
    requires id in report && id !in resumed && id !in s.table && r !in m.objects
    ensures SyncedUpTo(s, ResumeIn(m, r, w, id, report[id], syncTime, now), w, report, syncTime, now,
                       s.table.Keys, resumed + {id})
  {
    var m' := AdoptIn(m, r, w, id, report[id], now);
    assert ResumeIn(m, r, w, id, report[id], syncTime, now) == m';
    AdoptedTable(s, m, w, report, now, resumed, id, r);
  }

  lemma AdoptedTable<R, W>(s: State<R, W>, m: State<R, W>, w: W, report: Report, now: int,
                           resumed: set<Id>, id: Id, r: R)
    requires WellFormed(m) && TableSynced(s, m, w, report, now, resumed) && w in m.current
    requires s.objects.Keys <= m.objects.Keys
    requires id in report && id !in resumed && id !in s.table && r !in m.objects
    ensures TableSynced(s, AdoptIn(m, r, w, id, report[id], now), w, report, now, resumed + {id})
  {
    var m' := AdoptIn(m, r, w, id, report[id], now);
    forall p | p in m'.objects ensures p in s.objects || InTable(m', p) {
      if p != r {
        assert p in m.objects;
        assert InTable(m, p) ==> InTable(m', p);
      }
    }
  }

  // ---------------------------------------------------------------- what a completed sync means

  /** Some reported session is bound to another worker or another index: the hard-sync branch. */
  ghost predicate Mismatched<R, W>(s: State<R, W>, w: W, report: Report) {
    exists id :: id in report && MismatchedAt(s, w, report, id)
  }

  /** A session of the worker that was last touched before the report is unfinished afterwards
      exactly when the worker reported it; every reported id exists and, unless it was
      finished after the report was taken, is unfinished. */
  lemma SyncReconciles<R, W>(s: State<R, W>, s': State<R, W>, w: W, report: Report, syncTime: int, now: int)
    requires WellFormed(s) && WellFormed(s') && Synced(s, s', w, report, syncTime, now)
    requires !Mismatched(s, w, report)
    ensures forall id | id in s'.table && s'.objects[s'.table[id]].worker == w
                     && (id in s.table ==> s.objects[s.table[id]].lastUpdate < syncTime) ::
              !s'.objects[s'.table[id]].finished <==> id in report
    ensures forall id | id in report ::
              id in s'.table &&
              (s'.objects[s'.table[id]].finished <==>
               id in s.table && s.objects[s.table[id]].finished && s.objects[s.table[id]].lastUpdate > syncTime)
  {
    forall id | id in s.table && s.objects[s.table[id]].worker == w
      ensures s'.objects[s'.table[id]] == SyncObject(s.objects[s.table[id]], w, report, syncTime, now)
    {
      assert Handled(s, s.table[id], report, s.table.Keys, report.Keys);
    }
    forall id | id in report && id in s.table
      ensures s'.objects[s'.table[id]].finished <==>
              s.objects[s.table[id]].finished && s.objects[s.table[id]].lastUpdate > syncTime
    {
      assert !MismatchedAt(s, w, report, id);
    }
  }

  /** A session touched after the report was taken is left exactly as it is, and so is every session of another worker,
      and one touched at that very time that is unfinished or not reported. */
  lemma SyncLeavesLaterSessions<R, W>(s: State<R, W>, s': State<R, W>, w: W, report: Report, syncTime: int, now: int,
                                      r: R)
    requires WellFormed(s) && Synced(s, s', w, report, syncTime, now)
    requires r in s.objects
    requires || s.objects[r].lastUpdate > syncTime || s.objects[r].worker != w
             || (s.objects[r].lastUpdate == syncTime && (s.objects[r].id !in report || !s.objects[r].finished))
    ensures r in s'.objects && s'.objects[r] == s.objects[r]
  {}

  /** A sync creates no unfinished object outside the table, and leaves those there were. */
  lemma SyncKeepsOrphans<R, W>(s: State<R, W>, s': State<R, W>, w: W, report: Report, syncTime: int, now: int)
    requires WellFormed(s) && Synced(s, s', w, report, syncTime, now)
    ensures forall r :: Orphan(s', r) <==> Orphan(s, r)
    ensures forall r | Orphan(s, r) :: s'.objects[r] == s.objects[r]
  {
    forall r ensures Orphan(s', r) <==> Orphan(s, r) {
      if r in s.objects {
      } else if r in s'.objects {
        assert InTable(s', r);
      }
    }
    forall r | Orphan(s, r) ensures s'.objects[r] == s.objects[r] {
    }
  }

  /** After a sync the counter is as exact as before: whatever the table missed before, it misses now. */
  lemma SyncKeepsExact<R, W>(s: State<R, W>, s': State<R, W>, w: W, report: Report, syncTime: int, now: int)
    requires Inv(s) && Inv(s') && w in s.current && Synced(s, s', w, report, syncTime, now)
    ensures ExactByTable(s', w) <==> ExactByTable(s, w)
  {
    SyncKeepsOrphans(s, s', w, report, syncTime, now);
    ExactIffNoOrphan(s, w);
    ExactIffNoOrphan(s', w);
    if r :| r in s.objects && s.objects[r].worker == w && Orphan(s, r) {
      assert Orphan(s', r);
    }
    if r :| r in s'.objects && s'.objects[r].worker == w && Orphan(s', r) {
      assert Orphan(s, r);
    }
  }

  /** Repeating a sync with the same report and report time changes nothing, whenever it is repeated. */
  lemma SyncIdempotent<R, W>(s: State<R, W>, s1: State<R, W>, s2: State<R, W>,
                             w: W, report: Report, syncTime: int, now1: int, now2: int)
    requires Inv(s) && Inv(s1) && Inv(s2)
    requires w in s.current
    requires Synced(s, s1, w, report, syncTime, now1) && Synced(s1, s2, w, report, syncTime, now2)
    ensures s2 == s1
  {
    ObjectsSettled(s, s1, s2, w, report, syncTime, now1, now2);
    TableSettled(s, s1, s2, w, report, now1, now2);
    hide ObjectsSynced, TableSynced, WellFormed;
    assert s2.current == s1.current by {
      assert Live(s2, w) == Live(s1, w);
    }
  }

  lemma TableSettled<R, W>(s: State<R, W>, s1: State<R, W>, s2: State<R, W>,
                           w: W, report: Report, now1: int, now2: int)
    requires TableSynced(s, s1, w, report, now1, report.Keys) && TableSynced(s1, s2, w, report, now2, report.Keys)
    ensures s2.table == s1.table
  {
    forall id ensures id in s2.table <==> id in s1.table {
      assert id in s1.table <==> id in s.table.Keys + report.Keys;
      assert id in s2.table <==> id in s1.table.Keys + report.Keys;
    }
    forall id | id in s1.table ensures s2.table[id] == s1.table[id] {
    }
  }

  lemma ObjectsSettled<R, W>(s: State<R, W>, s1: State<R, W>, s2: State<R, W>,
                             w: W, report: Report, syncTime: int, now1: int, now2: int)
    requires WellFormed(s) && WellFormed(s1)
    requires Synced(s, s1, w, report, syncTime, now1) && Synced(s1, s2, w, report, syncTime, now2)
    ensures s2.objects == s1.objects
  {
    forall r | r in s1.objects ensures r in s2.objects && s2.objects[r] == s1.objects[r] {
      ObjectSettled(s, s1, s2, w, report, syncTime, now1, now2, r);
    }
    forall r | r in s2.objects ensures r in s1.objects {
      assert r in s1.objects || InTable(s2, r);
    }
  }

  lemma ObjectSettled<R, W>(s: State<R, W>, s1: State<R, W>, s2: State<R, W>,
                            w: W, report: Report, syncTime: int, now1: int, now2: int, r: R)
    requires WellFormed(s) && WellFormed(s1) && r in s1.objects
    requires Synced(s, s1, w, report, syncTime, now1) && Synced(s1, s2, w, report, syncTime, now2)
    ensures r in s2.objects && s2.objects[r] == s1.objects[r]
  {
    if r in s.objects {
      if InTable(s1, r) {
        SyncObjectSettles(s.objects[r], w, report, syncTime, now1, now2);
      }
    } else {
      assert InTable(s1, r);
    }
  }

  lemma SyncObjectSettles<W>(o: Session<W>, w: W, report: Report, syncTime: int, now1: int, now2: int)
    ensures SyncObject(SyncObject(o, w, report, syncTime, now1), w, report, syncTime, now2)
            == SyncObject(o, w, report, syncTime, now1)
  {}

  /** The order in which the loops meet the sessions does not matter: two completed syncs from one
      state agree on every counter and on the content of every id. */
  lemma SyncOrderIrrelevant<R, W>(s: State<R, W>, s1: State<R, W>, s2: State<R, W>,
                                  w: W, report: Report, syncTime: int, now: int)
    requires Inv(s) && Inv(s1) && Inv(s2)
    requires w in s.current
    requires Synced(s, s1, w, report, syncTime, now) && Synced(s, s2, w, report, syncTime, now)
    ensures s1.table.Keys == s2.table.Keys
    ensures forall id | id in s1.table :: s1.objects[s1.table[id]] == s2.objects[s2.table[id]]
    ensures s1.current == s2.current
  {
    hide TableLive, Live, WellFormed, ObjectsSynced, TableSynced;
    SameContent(s, s1, s2, w, report, syncTime, now);
    SameTableLive(s1, s2, w);
    LiveSplit(s, s1, w, report, syncTime, now);
    LiveSplit(s, s2, w, report, syncTime, now);
  }

  lemma SameTableLive<R, W>(s1: State<R, W>, s2: State<R, W>, w: W)
    requires WellFormed(s1) && WellFormed(s2) && s1.table.Keys == s2.table.Keys
    requires forall id | id in s1.table :: s1.objects[s1.table[id]] == s2.objects[s2.table[id]]
    ensures TableLive(s1, w) == TableLive(s2, w)
  {}

  lemma SameContent<R, W>(s: State<R, W>, s1: State<R, W>, s2: State<R, W>,
                          w: W, report: Report, syncTime: int, now: int)
    requires WellFormed(s) && WellFormed(s1) && WellFormed(s2)
    requires Synced(s, s1, w, report, syncTime, now) && Synced(s, s2, w, report, syncTime, now)
    ensures s1.table.Keys == s2.table.Keys
    ensures forall id | id in s1.table :: s1.objects[s1.table[id]] == s2.objects[s2.table[id]]
  {
    hide SyncObject;
    forall id | id in s1.table ensures s1.objects[s1.table[id]] == s2.objects[s2.table[id]] {
      assert id in s2.table;
      if id in s.table {
        assert s1.table[id] == s2.table[id] == s.table[id];
        assert Handled(s, s.table[id], report, s.table.Keys, report.Keys)
          <==> Handled(s, s.table[id], report, s.table.Keys, report.Keys);
      }
    }
  }

  /** The live sessions after a sync: those in the table, and the orphans there were before. */
  lemma LiveSplit<R, W>(s: State<R, W>, s': State<R, W>, w: W, report: Report, syncTime: int, now: int)
    requires WellFormed(s) && WellFormed(s') && Synced(s, s', w, report, syncTime, now)
    ensures |Live(s', w)| == |TableLive(s', w)| + |set r | r in s.objects && s.objects[r].worker == w && Orphan(s, r)|
  {
    TableCount(s', w);
    SyncKeepsOrphans(s, s', w, report, syncTime, now);
    OrphanPart(s', w);
    assert (set r | r in s'.objects && s'.objects[r].worker == w && Orphan(s', r))
        == (set r | r in s.objects && s.objects[r].worker == w && Orphan(s, r)) by {
      assert forall r :: Orphan(s', r) ==> r in s.objects && s'.objects[r] == s.objects[r];
    }
  }

  lemma OrphanPart<R, W>(s: State<R, W>, w: W)
    ensures |Live(s, w)| == |Live(s, w) - (set r | r in s.objects && Orphan(s, r))|
                          + |set r | r in s.objects && s.objects[r].worker == w && Orphan(s, r)|
  {
    var orphans := set r | r in s.objects && Orphan(s, r);
    var mine := set r | r in s.objects && s.objects[r].worker == w && Orphan(s, r);
    assert Live(s, w) * orphans == mine;
  }

}
