/** The rdf:type membership index kept up to date from the change log
    (crates/polargraph-server/src/type_index.rs). */
module TypeIndex {

  type NodeId = nat
  type Timestamp = nat

  const SYNC_BATCH: nat := 1000

  /** A subject's rdf:type entry: (subject, class). */
  type TypePair = (NodeId, NodeId)

  /** A quad in a change record, as far as the index looks at it. */
  datatype LoggedQuad = LoggedQuad(isTypeRelation: bool, subject: NodeId)

  /** One commit: its log record and the rdf:type pairs live once it is done. */
  datatype Commit = Commit(ts: Timestamp, quads: seq<LoggedQuad>, types: set<TypePair>)

  /** The store's history and the point up to which its log has been pruned. */
  datatype ChangeLog = ChangeLog(history: seq<Commit>, floor: Timestamp) {

    /** Commit times increase, and a record names every subject whose
        membership its commit changes. */
    ghost predicate Valid() { Increasing() && AllComplete() }

    ghost predicate Increasing() { forall i: nat, j: nat :: InOrder(i, j) }

    predicate InOrder(i: nat, j: nat) { i < j < |history| ==> history[i].ts < history[j].ts }

    ghost predicate AllComplete() { forall n: nat :: CompleteAt(n) }

    ghost predicate CompleteAt(n: nat) { n < |history| ==> Complete(TypesUpTo(n), history[n]) }

    ghost predicate Complete(before: set<TypePair>, c: Commit) {
      forall pair :: (pair in before) != (pair in c.types) ==> Touches(c, pair.0)
    }

    ghost predicate Touches(c: Commit, s: NodeId) {
      exists k :: 0 <= k < |c.quads| && c.quads[k].isTypeRelation && c.quads[k].subject == s
    }

    /** One past the last of the first `n` commits at or before `ts`. */
    function PositionIn(n: nat, ts: Timestamp): (p: nat)
      requires n <= |history|
      ensures p <= n && (p > 0 ==> history[p - 1].ts <= ts)
      ensures forall i :: p <= i < n ==> history[i].ts > ts
    {
      if n == 0 then 0 else if history[n - 1].ts <= ts then n else PositionIn(n - 1, ts)
    }

    function TypesUpTo(n: nat): set<TypePair>
      requires n <= |history|
    {
      if n == 0 then {} else history[n - 1].types
    }

    /** The rdf:type pairs a snapshot at `ts` sees, over all graphs. */
    function TypesAt(ts: Timestamp): set<TypePair> { TypesUpTo(PositionIn(|history|, ts)) }

    /** Up to `limit` logged commits after `after`, of those committed so far. */
    function ChangesAfter(after: Timestamp, limit: nat, committed: nat): seq<Commit>
      requires committed <= |history|
    {
      history[BatchStart(after)..BatchEnd(after, limit, committed)]
    }

    /** Records at or below the floor are gone. */
    function BatchStart(after: Timestamp): (p: nat)
      ensures p <= |history|
    {
      PositionIn(|history|, if after < floor then floor else after)
    }

    function BatchEnd(after: Timestamp, limit: nat, committed: nat): (p: nat)
      requires committed <= |history|
      ensures BatchStart(after) <= p <= |history|
    {
      var start := BatchStart(after);
      if committed <= start then start else if start + limit < committed then start + limit else committed
    }
  }

  // ── The two maps ─────────────────────────────────────────────────────────

  type Groups = map<NodeId, set<NodeId>>

  /** `groups` lists exactly the pairs of a relation, key first, with no empty set. */
  predicate Lists(groups: Groups, k: NodeId, x: NodeId) { k in groups && x in groups[k] }

  ghost predicate Mirror(byClass: Groups, ofSubject: Groups, types: set<TypePair>) {
    (forall s: NodeId, c: NodeId :: Lists(byClass, c, s) <==> (s, c) in types) &&
    (forall s: NodeId, c: NodeId :: Lists(ofSubject, s, c) <==> (s, c) in types) &&
    NoEmpty(byClass) && NoEmpty(ofSubject)
  }

  /** The relation determines both maps. */
  lemma MirrorUnique(b1: Groups, o1: Groups, b2: Groups, o2: Groups, types: set<TypePair>)
    requires Mirror(b1, o1, types) && Mirror(b2, o2, types)
    ensures b1 == b2 && o1 == o2
  {
    SameGroups(b1, b2);
    SameGroups(o1, o2);
  }

  lemma SameGroups(a: Groups, b: Groups)
    requires forall k: NodeId, x: NodeId :: Lists(a, k, x) <==> Lists(b, k, x)
    requires NoEmpty(a) && NoEmpty(b)
    ensures a == b
  {
    forall k | k in a ensures k in b && a[k] == b[k] {
      var x :| x in a[k];
      assert Lists(a, k, x);
      forall y: NodeId ensures y in a[k] <==> y in b[k] { assert Lists(a, k, y) <==> Lists(b, k, y); }
    }
    forall k | k in b ensures k in a {
      var x :| x in b[k];
      assert Lists(b, k, x);
    }
  }

  function Insert(groups: Groups, k: NodeId, x: NodeId): Groups {
    groups[k := (if k in groups then groups[k] else {}) + {x}]
  }

  /** Drop one member, and the entry with it when it was the last. */
  function Remove(groups: Groups, k: NodeId, x: NodeId): Groups {
    if k !in groups then groups
    else if groups[k] - {x} == {} then groups - {k}
    else groups[k := groups[k] - {x}]
  }

  predicate NoEmpty(groups: Groups) { forall k :: k in groups ==> groups[k] != {} }

  lemma InsertLists(groups: Groups, k: NodeId, x: NodeId)
    requires NoEmpty(groups)
    ensures NoEmpty(Insert(groups, k, x))
    ensures forall k': NodeId, y: NodeId ::
              Lists(Insert(groups, k, x), k', y) <==> Lists(groups, k', y) || (k' == k && y == x)
  {}

  lemma RemoveLists(groups: Groups, k: NodeId, x: NodeId)
    requires NoEmpty(groups)
    ensures NoEmpty(Remove(groups, k, x))
    ensures forall k': NodeId, y: NodeId ::
              Lists(Remove(groups, k, x), k', y) <==> Lists(groups, k', y) && !(k' == k && y == x)
  {
    if k in groups && groups[k] - {x} == {} {
      assert forall y :: y in groups[k] ==> y == x || y in groups[k] - {x};
    }
  }

  // ── Replacing one subject's classes ──────────────────────────────────────

  function ClassesOf(types: set<TypePair>, s: NodeId): set<NodeId> { set pair | pair in types && pair.0 == s :: pair.1 }

  lemma ClassesMember(types: set<TypePair>, s: NodeId, c: NodeId)
    ensures c in ClassesOf(types, s) <==> (s, c) in types
  {
    if (s, c) in types { assert (s, c).0 == s && (s, c).1 == c; }
    if c in ClassesOf(types, s) {
      var pair :| pair in types && pair.0 == s && pair.1 == c;
      assert pair == (s, c);
    }
  }

  /** `old` for the subjects still to be refreshed, `now` for those done. */
  ghost function Mixed(was: set<TypePair>, now: set<TypePair>, todo: set<NodeId>): set<TypePair> {
    set pair | pair in was + now && if pair.0 in todo then pair in was else pair in now
  }

  /** Take `s` out of the members of each class in `gone`. */
  method Withdraw(byClass: Groups, gone: set<NodeId>, s: NodeId) returns (b: Groups)
    requires NoEmpty(byClass)
    ensures NoEmpty(b)
    ensures forall c: NodeId, t: NodeId :: Lists(b, c, t) <==> Lists(byClass, c, t) && !(t == s && c in gone)
  {
    b := byClass;
    var todo := gone;
    while todo != {}
      invariant todo <= gone && NoEmpty(b)
      invariant forall c: NodeId, t: NodeId :: Lists(b, c, t) <==> Lists(byClass, c, t) && !(t == s && c in gone - todo)
      decreases |todo|
    {
      var c :| c in todo;
      RemoveLists(b, c, s);
      b, todo := Remove(b, c, s), todo - {c};
    }
  }

  /** Add `s` to the members of each class in `added`. */
  method Enrol(byClass: Groups, added: set<NodeId>, s: NodeId) returns (b: Groups)
    requires NoEmpty(byClass)
    ensures NoEmpty(b)
    ensures forall c: NodeId, t: NodeId :: Lists(b, c, t) <==> Lists(byClass, c, t) || (t == s && c in added)
  {
    b := byClass;
    var todo := added;
    while todo != {}
      invariant todo <= added && NoEmpty(b)
      invariant forall c: NodeId, t: NodeId :: Lists(b, c, t) <==> Lists(byClass, c, t) || (t == s && c in added - todo)
      decreases |todo|
    {
      var c :| c in todo;
      InsertLists(b, c, s);
      b, todo := Insert(b, c, s), todo - {c};
    }
  }

  /** The maps, and the time up to which commits are reflected in them. */
  datatype IndexState = IndexState(byClass: Groups, ofSubject: Groups, applied: Timestamp) {
    ghost predicate Reflects(log: ChangeLog) { Mirror(byClass, ofSubject, log.TypesAt(applied)) }
  }

  /** What one catch-up does when `started` commits had landed as it began: the maps
      reflect the log up to some time past all of them, no earlier than before; a
      rebuild counts as a change, anything else only if membership did change. */
  ghost predicate Synced(log: ChangeLog, started: nat, oracle: Timestamp, was: IndexState, now: IndexState,
      changed: bool)
    requires started <= |log.history|
  {
    now.Reflects(log) && (forall i :: 0 <= i < started ==> log.history[i].ts <= now.applied) &&
    if was.applied < log.floor then now.applied == oracle && changed
    else was.applied <= now.applied && Reached(log, was.applied, now.applied) &&
         (changed <==> log.TypesAt(was.applied) != log.TypesAt(now.applied))
  }

  /** `at` is the old time or that of a commit. */
  predicate Reached(log: ChangeLog, before: Timestamp, at: Timestamp) {
    at == before || exists i :: 0 <= i < |log.history| && log.history[i].ts == at
  }

  class Index {
    var byClass: Groups
    var ofSubject: Groups
    var applied: Timestamp

    function State(): IndexState
      reads this
    {
      IndexState(byClass, ofSubject, applied)
    }

    /** The index reflects the store as of `applied`. */
    ghost predicate Reflects(log: ChangeLog)
      reads this
    {
      State().Reflects(log)
    }

    constructor (log: ChangeLog, oracle: Timestamp)
      ensures Reflects(log) && applied == oracle
    {
      byClass, ofSubject, applied := map[], map[], 0;
      new;
      Rebuild(log, oracle);
    }

    /** Scan every rdf:type pair of the snapshot at `at`. */
    method Rebuild(log: ChangeLog, at: Timestamp)
      modifies this
      ensures Reflects(log) && applied == at
    {
      var b: Groups, o: Groups := map[], map[];
      var rest := log.TypesAt(at);
      ghost var all := rest;
      while rest != {}
        invariant rest <= all
        invariant Mirror(b, o, all - rest)
        decreases |rest|
      {
        var pair :| pair in rest;
        InsertLists(b, pair.1, pair.0);
        InsertLists(o, pair.0, pair.1);
        ghost var done := all - rest;
        b, o := Insert(b, pair.1, pair.0), Insert(o, pair.0, pair.1);
        rest := rest - {pair};
        assert all - rest == done + {pair} && pair == (pair.0, pair.1);
      }
      assert all - rest == all;
      byClass, ofSubject, applied := b, o, at;
    }

    /** Give `s` the classes `classes`, touching only the differences. */
    method Refresh(s: NodeId, classes: set<NodeId>, ghost types: set<TypePair>,
        ghost types': set<TypePair>) returns (changed: bool)
      requires Mirror(byClass, ofSubject, types)
      requires forall t: NodeId, c: NodeId :: (t, c) in types' <==> if t == s then c in classes else (t, c) in types
      modifies this`byClass, this`ofSubject
      ensures Mirror(byClass, ofSubject, types')
      ensures changed <==> types != types'
    {
      var before := if s in ofSubject then ofSubject[s] else {};
      forall c: NodeId ensures c in before <==> (s, c) in types { assert Lists(ofSubject, s, c) <==> c in before; }
      if before == classes {
        changed := false;
        assert types == types' by {
          forall pair ensures pair in types <==> pair in types' { assert pair == (pair.0, pair.1); }
        }
        return;
      }
      changed := true;
      var o := ofSubject;
      ghost var b0 := byClass;
      var b := Withdraw(byClass, before - classes, s);
      b := Enrol(b, classes - before, s);
      forall t: NodeId, c: NodeId ensures Lists(b, c, t) <==> (t, c) in types' {
        assert Lists(b0, c, t) <==> (t, c) in types;
      }
      ghost var o' := o;
      o := o - {s};
      if classes != {} {
        o := o[s := classes];
      }
      forall t: NodeId, c: NodeId ensures Lists(o, t, c) <==> (t, c) in types' {
        assert Lists(o', t, c) <==> (t, c) in types;
      }
      byClass, ofSubject := b, o;
      assert types != types' by {
        var c :| (c in before) != (c in classes);
        assert ((s, c) in types) != ((s, c) in types');
      }
    }

    /** Catch up with the log. `committed[k]` says how much of the history had
        been committed when batch `k` was read; commits may land in between. */
    method Sync(log: ChangeLog, committed: seq<nat>, oracle: Timestamp) returns (changed: bool)
      requires log.Valid() && Reflects(log)
      requires committed != [] && (forall k :: 0 <= k < |committed| ==> committed[k] <= |log.history|)
      requires forall j, k :: 0 <= j < k < |committed| ==> committed[j] <= committed[k]
      requires forall i :: 0 <= i < |log.history| && log.history[i].ts <= oracle ==> i < committed[0]
      requires forall i :: 0 <= i < committed[0] ==> log.history[i].ts <= oracle
      modifies this
      ensures Synced(log, committed[0], oracle, old(State()), State(), changed)
    {
      if applied < log.floor {
        Rebuild(log, oracle);
        return true;
      }
      var at, touched := ReadChanges(log, committed);
      changed := RefreshAll(log, at, touched);
    }

    /** Read the log in batches, collecting the subjects of rdf:type changes. */
    method ReadChanges(log: ChangeLog, committed: seq<nat>) returns (at: Timestamp, touched: set<NodeId>)
      requires log.Valid() && applied >= log.floor
      requires committed != [] && (forall k :: 0 <= k < |committed| ==> committed[k] <= |log.history|)
      requires forall j, k :: 0 <= j < k < |committed| ==> committed[j] <= committed[k]
      ensures at >= applied && Reached(log, applied, at)
      ensures Covers(log, applied, at, touched)
      ensures forall i :: 0 <= i < committed[0] ==> log.history[i].ts <= at
    {
      at, touched := applied, {};
      var k := 0;
      while true
        invariant at >= applied && Reached(log, applied, at)
        invariant Covers(log, applied, at, touched)
        decreases |log.history| - log.PositionIn(|log.history|, at)
      {
        var now := committed[if k < |committed| then k else |committed| - 1];
        var more;
        at, touched, more := ReadBatch(log, now, at, touched, applied);
        k := k + 1;
        if !more {
          CaughtUp(log, at, now);
          break;
        }
      }
    }

    /** One batch; `more` when it was full, so that another may follow. */
    method ReadBatch(log: ChangeLog, now: nat, after: Timestamp, before: set<NodeId>, ghost start: Timestamp)
        returns (at: Timestamp, touched: set<NodeId>, more: bool)
      requires log.Valid() && log.floor <= after && now <= |log.history|
      requires Covers(log, start, after, before)
      ensures at >= after && Reached(log, after, at) && Covers(log, start, at, touched)
      ensures more ==> log.PositionIn(|log.history|, at) > log.PositionIn(|log.history|, after)
      ensures !more ==> now <= log.PositionIn(|log.history|, at)
    {
      var records := log.ChangesAfter(after, SYNC_BATCH, now);
      if records == [] {
        NothingLeft(log, after, now);
        return after, before, false;
      }
      touched := Collect(records, before);
      at, more := records[|records| - 1].ts, |records| == SYNC_BATCH;
      BatchRead(log, start, after, now, before, touched);
    }

    /** Recompute the classes of every touched subject from the snapshot at `at`. */
    method RefreshAll(log: ChangeLog, at: Timestamp, touched: set<NodeId>) returns (changed: bool)
      requires Reflects(log)
      requires Covers(log, applied, at, touched)
      modifies this
      ensures Reflects(log) && applied == at
      ensures changed <==> log.TypesAt(old(applied)) != log.TypesAt(at)
    {
      ghost var before, after := log.TypesAt(applied), log.TypesAt(at);
      var snapshot := log.TypesAt(at);
      applied := at;
      changed := false;
      var todo := touched;
      assert Mixed(before, after, touched) == before;
      while todo != {}
        invariant todo <= touched
        invariant applied == at
        invariant Mirror(byClass, ofSubject, Mixed(before, after, todo))
        invariant changed <==> Mixed(before, after, todo) != before
        decreases |todo|
      {
        var s :| s in todo;
        ghost var types, types' := Mixed(before, after, todo), Mixed(before, after, todo - {s});
        forall t: NodeId, c: NodeId
          ensures (t, c) in types' <==> if t == s then c in ClassesOf(snapshot, s) else (t, c) in types
        {
          ClassesMember(snapshot, s, c);
        }
        var more := Refresh(s, ClassesOf(snapshot, s), types, types');
        MixedChanges(before, after, todo, s);
        changed, todo := changed || more, todo - {s};
      }
      assert Mixed(before, after, {}) == after;
    }

    /** Current instances of any of `classes`. */
    method InstancesOf(classes: seq<NodeId>, ghost log: ChangeLog) returns (r: set<NodeId>)
      requires Reflects(log)
      ensures forall s: NodeId :: s in r <==> exists i :: 0 <= i < |classes| && (s, classes[i]) in log.TypesAt(applied)
    {
      r := {};
      for i := 0 to |classes|
        invariant forall s: NodeId :: s in r <==> exists j :: 0 <= j < i && (s, classes[j]) in log.TypesAt(applied)
      {
        var members := if classes[i] in byClass then byClass[classes[i]] else {};
        forall s: NodeId ensures s in members <==> (s, classes[i]) in log.TypesAt(applied) {
          assert Lists(byClass, classes[i], s) <==> s in members;
        }
        r := r + members;
      }
    }
  }

  /** Two indexes at one point of the log hold the same maps: an index that has
      caught up, by whatever route, equals one rebuilt from scratch there. */
  lemma CaughtUpIsRebuilt(caughtUp: Index, rebuilt: Index, log: ChangeLog)
    requires caughtUp.Reflects(log) && rebuilt.Reflects(log) && caughtUp.applied == rebuilt.applied
    ensures caughtUp.byClass == rebuilt.byClass && caughtUp.ofSubject == rebuilt.ofSubject
  {
    MirrorUnique(caughtUp.byClass, caughtUp.ofSubject, rebuilt.byClass, rebuilt.ofSubject,
      log.TypesAt(caughtUp.applied));
  }

  /** A refreshed subject either keeps its pairs or makes the whole differ for good. */
  lemma MixedChanges(was: set<TypePair>, now: set<TypePair>, todo: set<NodeId>, s: NodeId)
    requires s in todo
    ensures Mixed(was, now, todo - {s}) == was
       <==> Mixed(was, now, todo) == was && Mixed(was, now, todo - {s}) == Mixed(was, now, todo)
  {
    var a, b := Mixed(was, now, todo), Mixed(was, now, todo - {s});
    if b == was {
      forall pair ensures pair in a <==> pair in was { assert pair in b <==> pair in was; }
    }
  }

  method Collect(records: seq<Commit>, before: set<NodeId>) returns (touched: set<NodeId>)
    ensures before <= touched
    ensures Named(records, touched)
  {
    touched := before;
    for i := 0 to |records|
      invariant before <= touched
      invariant forall j, k :: 0 <= j < i && 0 <= k < |records[j].quads| && records[j].quads[k].isTypeRelation ==>
                  records[j].quads[k].subject in touched
    {
      var quads := records[i].quads;
      for m := 0 to |quads|
        invariant before <= touched
        invariant forall j, k :: 0 <= j < i && 0 <= k < |records[j].quads| && records[j].quads[k].isTypeRelation ==>
                    records[j].quads[k].subject in touched
        invariant forall k :: 0 <= k < m && quads[k].isTypeRelation ==> quads[k].subject in touched
      {
        if quads[m].isTypeRelation {
          touched := touched + {quads[m].subject};
        }
      }
    }
  }

  // ── Batches cover what changed ───────────────────────────────────────────

  lemma PositionOfCommit(log: ChangeLog, i: nat)
    requires log.Increasing() && i < |log.history|
    ensures log.PositionIn(|log.history|, log.history[i].ts) == i + 1
  {
    forall j | i < j < |log.history| ensures log.history[i].ts < log.history[j].ts { assert log.InOrder(i, j); }
  }

  /** Between two points of the history, a pair changes only in a commit whose
      record names its subject. */
  lemma {:induction false} ChangesTouched(log: ChangeLog, from: nat, until: nat, pair: TypePair)
    requires log.AllComplete() && from <= until <= |log.history|
    requires (pair in log.TypesUpTo(from)) != (pair in log.TypesUpTo(until))
    ensures exists i :: from <= i < until && log.Touches(log.history[i], pair.0)
    decreases until
  {
    if (pair in log.TypesUpTo(until - 1)) != (pair in log.TypesUpTo(until)) {
      assert log.CompleteAt(until - 1);
    } else {
      ChangesTouched(log, from, until - 1, pair);
    }
  }

  /** The time of a batch's last record marks where the batch ended. */
  lemma BatchEndsAt(log: ChangeLog, at: Timestamp, now: nat)
    requires log.Increasing() && log.floor <= at && now <= |log.history|
    requires log.ChangesAfter(at, SYNC_BATCH, now) != []
    ensures var records := log.ChangesAfter(at, SYNC_BATCH, now);
            var last := records[|records| - 1].ts;
            last > at && log.PositionIn(|log.history|, last) == log.BatchEnd(at, SYNC_BATCH, now)
  {
    PositionOfCommit(log, log.BatchEnd(at, SYNC_BATCH, now) - 1);
  }

  /** A batch moves past its records, and one that is not full past all that had
      been committed. */
  lemma BatchAdvances(log: ChangeLog, at: Timestamp, now: nat)
    requires log.Increasing() && log.floor <= at && now <= |log.history|
    requires log.ChangesAfter(at, SYNC_BATCH, now) != []
    ensures var records := log.ChangesAfter(at, SYNC_BATCH, now);
            var from, last := log.PositionIn(|log.history|, at), records[|records| - 1].ts;
            var until := log.PositionIn(|log.history|, last);
            last > at && Reached(log, at, last) && from < until && records == log.history[from..until] &&
            (|records| < SYNC_BATCH ==> now <= until)
  {
    BatchEndsAt(log, at, now);
    var until := log.BatchEnd(at, SYNC_BATCH, now);
    assert log.history[until - 1].ts == log.ChangesAfter(at, SYNC_BATCH, now)[until - 1 - log.BatchStart(at)].ts;
  }

  ghost predicate Named(records: seq<Commit>, touched: set<NodeId>) {
    forall i, k :: 0 <= i < |records| && 0 <= k < |records[i].quads| && records[i].quads[k].isTypeRelation ==>
      records[i].quads[k].subject in touched
  }

  /** Every subject whose classes differ between two points is in `touched`. */
  ghost predicate Covers(log: ChangeLog, a: Timestamp, b: Timestamp, touched: set<NodeId>) {
    forall pair :: (pair in log.TypesAt(a)) != (pair in log.TypesAt(b)) ==> pair.0 in touched
  }

  lemma StretchCovers(log: ChangeLog, from: nat, until: nat, touched: set<NodeId>, pair: TypePair)
    requires log.AllComplete() && from <= until <= |log.history| && Named(log.history[from..until], touched)
    requires (pair in log.TypesUpTo(from)) != (pair in log.TypesUpTo(until))
    ensures pair.0 in touched
  {
    ChangesTouched(log, from, until, pair);
    var i :| from <= i < until && log.Touches(log.history[i], pair.0);
    assert log.history[from..until][i - from] == log.history[i];
  }

  lemma BatchCovers(log: ChangeLog, start: Timestamp, at: Timestamp, before: set<NodeId>, last: Timestamp,
      touched: set<NodeId>)
    requires log.AllComplete()
    requires var from, until := log.PositionIn(|log.history|, at), log.PositionIn(|log.history|, last);
             from <= until && Named(log.history[from..until], touched)
    requires Covers(log, start, at, before) && before <= touched
    ensures Covers(log, start, last, touched)
  {
    forall pair | (pair in log.TypesAt(start)) != (pair in log.TypesAt(last)) ensures pair.0 in touched {
      if (pair in log.TypesAt(at)) != (pair in log.TypesAt(last)) {
        StretchCovers(log, log.PositionIn(|log.history|, at), log.PositionIn(|log.history|, last), touched, pair);
      }
    }
  }

  lemma NothingLeft(log: ChangeLog, at: Timestamp, now: nat)
    requires log.floor <= at && now <= |log.history| && log.ChangesAfter(at, SYNC_BATCH, now) == []
    ensures now <= log.PositionIn(|log.history|, at)
  {}

  lemma BatchRead(log: ChangeLog, start: Timestamp, at: Timestamp, now: nat, before: set<NodeId>, touched: set<NodeId>)
    requires log.Valid() && log.floor <= at && now <= |log.history| && log.ChangesAfter(at, SYNC_BATCH, now) != []
    requires Covers(log, start, at, before) && before <= touched &&
             Named(log.ChangesAfter(at, SYNC_BATCH, now), touched)
    ensures var records := log.ChangesAfter(at, SYNC_BATCH, now);
            var last := records[|records| - 1].ts;
            last > at && Reached(log, at, last) && Covers(log, start, last, touched) && |records| <= SYNC_BATCH &&
            log.PositionIn(|log.history|, last) > log.PositionIn(|log.history|, at) &&
            (|records| < SYNC_BATCH ==> now <= log.PositionIn(|log.history|, last))
  {
    var records := log.ChangesAfter(at, SYNC_BATCH, now);
    BatchAdvances(log, at, now);
    BatchCovers(log, start, at, before, records[|records| - 1].ts, touched);
  }

  lemma CaughtUp(log: ChangeLog, at: Timestamp, now: nat)
    requires log.Increasing() && log.floor <= at && now <= |log.history|
    requires now <= log.PositionIn(|log.history|, at)
    ensures forall i :: 0 <= i < now ==> log.history[i].ts <= at
  {
    var p := log.PositionIn(|log.history|, at);
    forall i | 0 <= i < now ensures log.history[i].ts <= at {
      if i < p - 1 { assert log.InOrder(i, p - 1); }
    }
  }

  // ── Over the life of a server ────────────────────────────────────────────

  /** Store and index at one moment; `clock` is the latest time given out so far. */
  datatype Moment = Moment(log: ChangeLog, index: IndexState, clock: Timestamp)

  /** `later` adds commits to `log`, all after `clock`. */
  ghost predicate Continues(later: ChangeLog, log: ChangeLog, clock: Timestamp) {
    later.Valid() && log.history <= later.history && later.floor == log.floor &&
    forall i :: |log.history| <= i < |later.history| ==> later.history[i].ts > clock
  }

  /** `clock` is no earlier than any time given out. */
  ghost predicate Current(m: Moment) {
    m.index.applied <= m.clock && forall i :: 0 <= i < |m.log.history| ==> m.log.history[i].ts <= m.clock
  }

  ghost predicate Lands(a: Moment, b: Moment) { b.index == a.index && Continues(b.log, a.log, a.clock) }

  ghost predicate Prunes(a: Moment, b: Moment) {
    b.index == a.index && b.log.history == a.log.history && a.log.floor <= b.log.floor && b.log.Valid()
  }

  /** A catch-up, with commits landing meanwhile. */
  ghost predicate CatchesUp(a: Moment, b: Moment) {
    exists oracle, changed :: a.clock <= oracle && oracle <= b.clock && Continues(b.log, a.log, oracle) &&
      Synced(b.log, |a.log.history|, oracle, a.index, b.index, changed)
  }

  ghost predicate Next(a: Moment, b: Moment) {
    a.clock <= b.clock && Current(b) && (Lands(a, b) || Prunes(a, b) || CatchesUp(a, b))
  }

  ghost predicate Life(ms: seq<Moment>) {
    ms != [] && ms[0].log.Valid() && Current(ms[0]) && ms[0].index.Reflects(ms[0].log) &&
    forall k :: 0 <= k < |ms| - 1 ==> Next(ms[k], ms[k + 1])
  }

  lemma {:induction false} PositionContinues(later: ChangeLog, log: ChangeLog, clock: Timestamp, ts: Timestamp, n: nat)
    requires Continues(later, log, clock) && ts <= clock && |log.history| <= n <= |later.history|
    ensures later.PositionIn(n, ts) == log.PositionIn(|log.history|, ts)
  {
    if n > |log.history| {
      PositionContinues(later, log, clock, ts, n - 1);
    } else {
      SamePosition(later, log, ts, n);
    }
  }

  lemma {:induction false} SamePosition(a: ChangeLog, b: ChangeLog, ts: Timestamp, n: nat)
    requires n <= |a.history| && n <= |b.history| && a.history[..n] == b.history[..n]
    ensures a.PositionIn(n, ts) == b.PositionIn(n, ts)
  {
    if n > 0 {
      assert a.history[n - 1] == a.history[..n][n - 1] == b.history[..n][n - 1] == b.history[n - 1];
      assert a.history[..n - 1] == a.history[..n][..n - 1] == b.history[..n][..n - 1] == b.history[..n - 1];
      SamePosition(a, b, ts, n - 1);
    }
  }

  /** Later commits do not change what a snapshot sees. */
  lemma TypesContinue(later: ChangeLog, log: ChangeLog, clock: Timestamp, ts: Timestamp)
    requires Continues(later, log, clock) && ts <= clock
    ensures later.TypesAt(ts) == log.TypesAt(ts)
  {
    PositionContinues(later, log, clock, ts, |later.history|);
  }

  lemma PruningKeepsTypes(a: ChangeLog, b: ChangeLog, ts: Timestamp)
    requires a.history == b.history
    ensures a.TypesAt(ts) == b.TypesAt(ts)
  {
    SamePosition(a, b, ts, |a.history|);
  }

  /** Each event keeps the index true to its own point in time, and that point never
      moves back. */
  lemma NextReflects(a: Moment, b: Moment)
    requires a.log.Valid() && Current(a) && a.index.Reflects(a.log) && Next(a, b)
    ensures b.log.Valid() && b.index.Reflects(b.log) && a.index.applied <= b.index.applied
    ensures a.log.history <= b.log.history
  {
    if Lands(a, b) {
      TypesContinue(b.log, a.log, a.clock, a.index.applied);
    } else if Prunes(a, b) {
      PruningKeepsTypes(a.log, b.log, a.index.applied);
    }
  }

  /** At every moment of a server's life the index holds exactly the memberships of
      the store as of `applied`, whatever commits, prunings and catch-ups came before. */
  lemma {:induction false} AlwaysReflects(ms: seq<Moment>, k: nat)
    requires Life(ms) && k < |ms|
    ensures ms[k].log.Valid() && Current(ms[k]) && ms[k].index.Reflects(ms[k].log)
  {
    if k > 0 {
      AlwaysReflects(ms, k - 1);
      assert Next(ms[k - 1], ms[k]);
      NextReflects(ms[k - 1], ms[k]);
    }
  }

  lemma {:induction false} NeverBack(ms: seq<Moment>, j: nat, k: nat)
    requires Life(ms) && j <= k < |ms|
    ensures ms[j].index.applied <= ms[k].index.applied && ms[j].log.history <= ms[k].log.history
    decreases k
  {
    if j < k {
      NeverBack(ms, j, k - 1);
      AlwaysReflects(ms, k - 1);
      assert Next(ms[k - 1], ms[k]);
      NextReflects(ms[k - 1], ms[k]);
    }
  }

  /** After a catch-up the index accounts for every commit that had landed when it
      began, for good. */
  lemma CaughtUpForGood(ms: seq<Moment>, j: nat, k: nat, i: nat)
    requires Life(ms) && j < k < |ms| && CatchesUp(ms[j], ms[j + 1]) && i < |ms[j].log.history|
    ensures i < |ms[k].log.history| && ms[k].log.history[i].ts <= ms[k].index.applied
  {
    NeverBack(ms, j, j + 1);
    NeverBack(ms, j + 1, k);
    NeverBack(ms, j, k);
  }

  /** ... and while nothing has landed since, it holds the memberships of the store
      as it stands. */
  lemma CaughtUpIsCurrent(ms: seq<Moment>, j: nat, k: nat)
    requires Life(ms) && j < k < |ms| && CatchesUp(ms[j], ms[j + 1]) && |ms[k].log.history| == |ms[j].log.history|
    ensures Mirror(ms[k].index.byClass, ms[k].index.ofSubject, ms[k].log.TypesUpTo(|ms[k].log.history|))
  {
    AlwaysReflects(ms, k);
    var n := |ms[k].log.history|;
    if n > 0 {
      CaughtUpForGood(ms, j, k, n - 1);
      assert ms[k].log.PositionIn(n, ms[k].index.applied) == n;
    }
  }
}
