/**
 Planning the copy of in-flight checkpoints into saver threads: one plan per case that has no thread
 yet, made from its newest row, in thread order. A thread id is the text of the case's UUID; texts of
 UUIDs are ordered as their 128-bit numbers are, and stand here for those numbers.
 */
module Migration {
  import opened Sequences

  type ThreadId = nat

  /** A row of pipeline_checkpoints; `payload` is the state it carries. */
  datatype Row = Row(thread: ThreadId, runId: string, agent: string, updatedAt: int, payload: string)

  datatype Plan = Plan(thread: ThreadId, runId: string, agent: string, updatedAt: int, payload: string)

  function PlanOf(row: Row): Plan { Plan(row.thread, row.runId, row.agent, row.updatedAt, row.payload) }

  // ---- what a plan must be ----

  /** Row i is the newest of its thread, and the first among equally new ones. */
  predicate Newest(rows: seq<Row>, i: nat) {
    && i < |rows|
    && (forall j | 0 <= j < |rows| && rows[j].thread == rows[i].thread :: rows[j].updatedAt <= rows[i].updatedAt)
    && (forall j | 0 <= j < i && rows[j].thread == rows[i].thread :: rows[j].updatedAt < rows[i].updatedAt)
  }

  predicate Ascending(plans: seq<Plan>) {
    forall i, j | 0 <= i < j < |plans| :: plans[i].thread < plans[j].thread
  }

  predicate FromNewest(rows: seq<Row>, p: Plan) {
    exists i :: 0 <= i < |rows| && Newest(rows, i) && p == PlanOf(rows[i])
  }

  predicate Covers(plans: seq<Plan>, t: ThreadId) {
    exists i :: 0 <= i < |plans| && plans[i].thread == t
  }

  /** One entry per unmigrated thread with rows, carrying its newest row, in ascending order. */
  predicate IsPlan(rows: seq<Row>, migrated: set<ThreadId>, plans: seq<Plan>) {
    && Ascending(plans)
    && (forall p | p in plans :: p.thread !in migrated && FromNewest(rows, p))
    && (forall i | 0 <= i < |rows| && rows[i].thread !in migrated :: Covers(plans, rows[i].thread))
  }

  // ---- planning ----

  /** latest holds, for every thread of the rows seen, the newest first row. */
  predicate IsLatest(rows: seq<Row>, latest: map<ThreadId, Row>) {
    && (forall i | 0 <= i < |rows| :: rows[i].thread in latest)
    && (forall t | t in latest :: exists i :: 0 <= i < |rows| && Newest(rows, i) && rows[i].thread == t && latest[t] == rows[i])
  }

  /** The dictionary after one more row, which replaces its thread's entry only when strictly newer. */
  function Noted(latest: map<ThreadId, Row>, row: Row): map<ThreadId, Row> {
    if row.thread !in latest || row.updatedAt > latest[row.thread].updatedAt then latest[row.thread := row] else latest
  }

  method LatestRows(rows: seq<Row>) returns (latest: map<ThreadId, Row>)
    ensures IsLatest(rows, latest)
  {
    latest := map[];
    var i := 0;
    while i < |rows|
      invariant i <= |rows| && IsLatest(rows[..i], latest)
    {
      LatestNext(rows, i, latest);
      if rows[i].thread !in latest || rows[i].updatedAt > latest[rows[i].thread].updatedAt {
        latest := latest[rows[i].thread := rows[i]];
      }
      i := i + 1;
    }
    WholeLatest(rows, i, latest);
  }

  lemma WholeLatest(rows: seq<Row>, i: nat, latest: map<ThreadId, Row>)
    requires i == |rows| && IsLatest(rows[..i], latest)
    ensures IsLatest(rows, latest)
  {
    assert rows[..i] == rows;
  }

  lemma LatestNext(rows: seq<Row>, i: nat, latest: map<ThreadId, Row>)
    requires i < |rows| && IsLatest(rows[..i], latest)
    ensures IsLatest(rows[..i + 1], Noted(latest, rows[i]))
  {
    assert rows[..i] + [rows[i]] == rows[..i + 1];
    LatestStep(rows[..i], rows[i], rows[..i + 1], latest);
  }

  lemma NewestStands(rows: seq<Row>, row: Row, k: nat)
    requires Newest(rows, k) && (rows[k].thread == row.thread ==> row.updatedAt <= rows[k].updatedAt)
    ensures Newest(rows + [row], k)
  {
    var more := rows + [row];
    forall j | 0 <= j < |more| && more[j].thread == more[k].thread ensures more[j].updatedAt <= more[k].updatedAt {
      assert j < |rows| ==> more[j] == rows[j];
    }
  }

  /** Row i of the list is the newest of t, and is what the dictionary holds. */
  predicate Holds(rows: seq<Row>, latest: map<ThreadId, Row>, t: ThreadId, i: nat) {
    i < |rows| && Newest(rows, i) && rows[i].thread == t && t in latest && latest[t] == rows[i]
  }

  lemma LatestStep(rows: seq<Row>, row: Row, more: seq<Row>, latest: map<ThreadId, Row>)
    requires IsLatest(rows, latest) && more == rows + [row]
    ensures IsLatest(more, Noted(latest, row))
  {
    var after := Noted(latest, row);
    forall t | t in after ensures exists i :: 0 <= i < |more| && Newest(more, i) && more[i].thread == t && after[t] == more[i] {
      var i := HolderAfter(rows, latest, row, t);
    }
    forall i | 0 <= i < |more| ensures more[i].thread in after {
      assert i < |rows| ==> more[i] == rows[i];
    }
  }

  lemma HolderAfter(rows: seq<Row>, latest: map<ThreadId, Row>, row: Row, t: ThreadId) returns (i: nat)
    requires IsLatest(rows, latest) && t in Noted(latest, row)
    ensures Holds(rows + [row], Noted(latest, row), t, i)
  {
    if t == row.thread && (t !in latest || row.updatedAt > latest[t].updatedAt) {
      NewestAtEnd(rows, latest, row);
      i := |rows|;
    } else {
      i :| 0 <= i < |rows| && Newest(rows, i) && rows[i].thread == t && latest[t] == rows[i];
      NewestStands(rows, row, i);
      assert (rows + [row])[i] == rows[i];
    }
  }

  lemma NewestAtEnd(rows: seq<Row>, latest: map<ThreadId, Row>, row: Row)
    requires IsLatest(rows, latest)
    requires row.thread !in latest || row.updatedAt > latest[row.thread].updatedAt
    ensures Newest(rows + [row], |rows|)
  {
    var more := rows + [row];
    forall j | 0 <= j < |rows| && rows[j].thread == row.thread ensures rows[j].updatedAt < row.updatedAt {
      assert rows[j].thread in latest;
      var k :| 0 <= k < |rows| && Newest(rows, k) && rows[k].thread == row.thread && latest[row.thread] == rows[k];
    }
  }

  /** Where p goes in a list sorted by thread. */
  function Inserted(plans: seq<Plan>, p: Plan): seq<Plan> {
    if plans == [] || Last(plans).thread <= p.thread then plans + [p]
    else Inserted(Front(plans), p) + [Last(plans)]
  }

  function SortedByThread(plans: seq<Plan>): seq<Plan> {
    if plans == [] then [] else Inserted(SortedByThread(Front(plans)), Last(plans))
  }

  /** No two plans for one thread. */
  predicate Distinct(plans: seq<Plan>) {
    forall i, j | 0 <= i < j < |plans| :: plans[i].thread != plans[j].thread
  }

  lemma {:induction false} InsertedAscends(plans: seq<Plan>, p: Plan)
    requires Ascending(plans) && forall q | q in plans :: q.thread != p.thread
    ensures Ascending(Inserted(plans, p))
    ensures forall q :: q in Inserted(plans, p) <==> q in plans || q == p
  {
    if plans != [] {
      assert Last(plans) in plans;
      var f := Front(plans);
      assert plans == f + [Last(plans)];
      if Last(plans).thread > p.thread {
        InsertedAscends(f, p);
        var r := Inserted(f, p);
        forall i | 0 <= i < |r| ensures r[i].thread < Last(plans).thread {
          assert r[i] in r;
        }
      }
    }
  }

  lemma {:induction false} SortedAscends(plans: seq<Plan>)
    requires Distinct(plans)
    ensures Ascending(SortedByThread(plans))
    ensures forall q :: q in SortedByThread(plans) <==> q in plans
  {
    if plans != [] {
      var f := Front(plans);
      assert plans == f + [Last(plans)];
      SortedAscends(f);
      forall q | q in SortedByThread(f) ensures q.thread != Last(plans).thread {
        var i :| 0 <= i < |f| && f[i] == q;
        assert plans[i] == q;
      }
      InsertedAscends(SortedByThread(f), Last(plans));
    }
  }

  /** The plans hold exactly the unmigrated threads already visited. */
  predicate Collected(latest: map<ThreadId, Row>, migrated: set<ThreadId>, todo: set<ThreadId>, plans: seq<Plan>) {
    && Distinct(plans)
    && (forall p | p in plans :: p.thread in latest && p.thread !in todo && p.thread !in migrated && p == PlanOf(latest[p.thread]))
    && (forall t | t in latest && t !in todo && t !in migrated :: PlanOf(latest[t]) in plans)
  }

  lemma CollectOne(latest: map<ThreadId, Row>, migrated: set<ThreadId>, todo: set<ThreadId>, plans: seq<Plan>, t: ThreadId)
    requires Collected(latest, migrated, todo, plans) && t in todo && t in latest && latest[t].thread == t
    ensures Collected(latest, migrated, todo - {t}, if t in migrated then plans else plans + [PlanOf(latest[t])])
  {
    if t !in migrated {
      forall i | 0 <= i < |plans| ensures plans[i].thread != t {
        assert plans[i] in plans;
      }
    }
  }

  /** Plans every unmigrated thread, then sorts by thread. */
  method PlanMigrations(rows: seq<Row>, migrated: set<ThreadId>) returns (plans: seq<Plan>)
    ensures IsPlan(rows, migrated, plans)
  {
    var latest := LatestRows(rows);
    plans := [];
    var todo := latest.Keys;
    while todo != {}
      invariant todo <= latest.Keys && Collected(latest, migrated, todo, plans)
      decreases todo
    {
      var t :| t in todo;
      CollectOne(latest, migrated, todo, plans, t);
      if t !in migrated {
        plans := plans + [PlanOf(latest[t])];
      }
      todo := todo - {t};
    }
    CollectedIsPlan(rows, latest, migrated, plans);
    plans := SortedByThread(plans);
  }

  lemma CollectedIsPlan(rows: seq<Row>, latest: map<ThreadId, Row>, migrated: set<ThreadId>, plans: seq<Plan>)
    requires IsLatest(rows, latest) && Collected(latest, migrated, {}, plans)
    ensures IsPlan(rows, migrated, SortedByThread(plans))
  {
    var sorted := SortedByThread(plans);
    SortedAscends(plans);
    forall p | p in sorted ensures p.thread !in migrated && FromNewest(rows, p) {}
    forall i | 0 <= i < |rows| && rows[i].thread !in migrated ensures Covers(sorted, rows[i].thread) {
      var t := rows[i].thread;
      var k :| 0 <= k < |sorted| && sorted[k] == PlanOf(latest[t]);
      assert sorted[k].thread == t;
    }
  }

  // ---- the plan is unique ----

  /** Every entry of one plan stands in the other. */
  lemma SameEntries(rows: seq<Row>, migrated: set<ThreadId>, a: seq<Plan>, b: seq<Plan>, p: Plan)
    requires IsPlan(rows, migrated, a) && IsPlan(rows, migrated, b) && p in a
    ensures p in b
  {
    var i := NewestOf(rows, p);
    assert Covers(b, rows[i].thread);
    var k :| 0 <= k < |b| && b[k].thread == p.thread;
    assert b[k] in b;
    var j := NewestOf(rows, b[k]);
    NewestUnique(rows, i, j);
  }

  lemma NewestOf(rows: seq<Row>, p: Plan) returns (i: nat)
    requires FromNewest(rows, p)
    ensures i < |rows| && Newest(rows, i) && p == PlanOf(rows[i])
  {
    i :| 0 <= i < |rows| && Newest(rows, i) && p == PlanOf(rows[i]);
  }

  lemma NewestUnique(rows: seq<Row>, i: nat, j: nat)
    requires Newest(rows, i) && Newest(rows, j) && rows[i].thread == rows[j].thread
    ensures i == j
  {
  }

  lemma NonEmptyHas(b: seq<Plan>)
    ensures b == [] || exists p :: p in b
  {
    if b != [] {
      assert b[0] in b;
    }
  }

  lemma FrontEntries(a: seq<Plan>)
    requires Ascending(a) && a != []
    ensures Ascending(Front(a)) && forall p :: p in Front(a) <==> p in a && p != Last(a)
    ensures Last(a) in a && forall p | p in a :: p == Last(a) || p.thread < Last(a).thread
  {
    var f := Front(a);
    assert forall i | 0 <= i < |f| :: f[i] == a[i];
    assert a == f + [Last(a)];
  }

  lemma {:induction false} AscendingUnique(a: seq<Plan>, b: seq<Plan>)
    requires Ascending(a) && Ascending(b) && forall p :: p in a <==> p in b
    ensures a == b
    decreases |a|
  {
    if a == [] {
      NonEmptyHas(b);
    } else {
      FrontEntries(a);
      NonEmptyHas(b);
      FrontEntries(b);
      assert Last(a) == Last(b);
      assert a == Front(a) + [Last(a)] && b == Front(b) + [Last(b)];
      AscendingUnique(Front(a), Front(b));
    }
  }

  /** So a plan is determined by the rows and the migrated threads. */
  lemma PlanUnique(rows: seq<Row>, migrated: set<ThreadId>, a: seq<Plan>, b: seq<Plan>)
    requires IsPlan(rows, migrated, a) && IsPlan(rows, migrated, b)
    ensures a == b
  {
    forall p: Plan ensures p in a <==> p in b {
      if p in a { SameEntries(rows, migrated, a, b, p); }
      if p in b { SameEntries(rows, migrated, b, a, p); }
    }
    AscendingUnique(a, b);
  }

  // ---- resuming ----

  function Threads(plans: seq<Plan>): set<ThreadId> {
    set i | 0 <= i < |plans| :: plans[i].thread
  }

  lemma PrefixThreads(plans: seq<Plan>, k: nat)
    requires k <= |plans|
    ensures forall j | 0 <= j < k :: plans[j].thread in Threads(plans[..k])
  {
    forall j | 0 <= j < k ensures plans[j].thread in Threads(plans[..k]) {
      assert plans[..k][j] == plans[j];
    }
  }

  /** A later entry is of none of the first k threads. */
  lemma LaterEntry(plans: seq<Plan>, k: nat, p: Plan)
    requires Ascending(plans) && k <= |plans| && p in plans[k..]
    ensures p in plans && p.thread !in Threads(plans[..k])
  {
    var i :| k <= i < |plans| && plans[i] == p;
    forall j | 0 <= j < k ensures plans[..k][j].thread != p.thread {
      assert plans[..k][j] == plans[j];
    }
  }

  lemma SuffixCovers(plans: seq<Plan>, k: nat, t: ThreadId)
    requires k <= |plans| && Covers(plans, t) && t !in Threads(plans[..k])
    ensures Covers(plans[k..], t)
  {
    PrefixThreads(plans, k);
    var j :| 0 <= j < |plans| && plans[j].thread == t;
    assert plans[k..][j - k] == plans[j];
  }

  lemma SuffixAscends(plans: seq<Plan>, k: nat)
    requires Ascending(plans) && k <= |plans|
    ensures Ascending(plans[k..])
  {
  }

  lemma SuffixIsPlan(rows: seq<Row>, migrated: set<ThreadId>, plans: seq<Plan>, k: nat)
    requires IsPlan(rows, migrated, plans) && k <= |plans|
    ensures IsPlan(rows, migrated + Threads(plans[..k]), plans[k..])
  {
    var done, rest := migrated + Threads(plans[..k]), plans[k..];
    SuffixAscends(plans, k);
    forall p | p in rest ensures p.thread !in done && FromNewest(rows, p) {
      LaterEntry(plans, k, p);
    }
    forall i | 0 <= i < |rows| && rows[i].thread !in done ensures Covers(rest, rows[i].thread) {
      SuffixCovers(plans, k, rows[i].thread);
    }
  }

  /** After any prefix of the plan has been applied, planning again gives exactly the rest of it; after
      all of it, nothing. */
  lemma ReplanIsSuffix(rows: seq<Row>, migrated: set<ThreadId>, plans: seq<Plan>, k: nat, again: seq<Plan>)
    requires IsPlan(rows, migrated, plans) && k <= |plans|
    requires IsPlan(rows, migrated + Threads(plans[..k]), again)
    ensures again == plans[k..]
    ensures k == |plans| ==> again == []
  {
    SuffixIsPlan(rows, migrated, plans, k);
    PlanUnique(rows, migrated + Threads(plans[..k]), again, plans[k..]);
  }

  // ---- the apply loop ----

  datatype Thread = Thread(payload: string)

  /** The saver: threads with a checkpoint. */
  class Saver {
    var threads: map<ThreadId, Thread>

    constructor ()
      ensures threads == map[]
    {
      threads := map[];
    }

    method MigrateOne(p: Plan)
      modifies this
      ensures threads == old(threads)[p.thread := Thread(p.payload)]
    {
      threads := threads[p.thread := Thread(p.payload)];
    }
  }

  /** The threads after the first k plans were written. */
  function Written(threads: map<ThreadId, Thread>, plans: seq<Plan>): map<ThreadId, Thread> {
    if plans == [] then threads else Written(threads, Front(plans))[Last(plans).thread := Thread(Last(plans).payload)]
  }

  /** The write loop, dying after `survives` writes if there are more. */
  method Apply(plans: seq<Plan>, saver: Saver, survives: nat) returns (written: nat)
    modifies saver
    ensures written == if survives < |plans| then survives else |plans|
    ensures saver.threads == Written(old(saver.threads), plans[..written])
  {
    written := 0;
    while written < |plans| && written < survives
      invariant written <= |plans| && written <= survives
      invariant saver.threads == Written(old(saver.threads), plans[..written])
    {
      assert Front(plans[..written + 1]) == plans[..written];
      saver.MigrateOne(plans[written]);
      written := written + 1;
    }
  }

  /** One run of the migrator. */
  method Migrate(rows: seq<Row>, saver: Saver, survives: nat) returns (plans: seq<Plan>, written: nat)
    modifies saver
    ensures IsPlan(rows, old(saver.threads).Keys, plans)
    ensures written == if survives < |plans| then survives else |plans|
    ensures saver.threads == Written(old(saver.threads), plans[..written])
  {
    plans := PlanMigrations(rows, saver.threads.Keys);
    written := Apply(plans, saver, survives);
  }

  lemma {:induction false} WrittenKeys(threads: map<ThreadId, Thread>, plans: seq<Plan>)
    ensures Written(threads, plans).Keys == threads.Keys + Threads(plans)
  {
    if plans != [] {
      var f := Front(plans);
      WrittenKeys(threads, f);
      assert forall i | 0 <= i < |f| :: f[i] == plans[i];
      assert Threads(plans) == Threads(f) + {Last(plans).thread} by {
        forall t | t in Threads(f) + {Last(plans).thread} ensures t in Threads(plans) {
          if t == Last(plans).thread { assert plans[|plans| - 1].thread == t; }
        }
      }
    }
  }

  lemma {:induction false} WrittenSplit(threads: map<ThreadId, Thread>, a: seq<Plan>, b: seq<Plan>)
    ensures Written(threads, a + b) == Written(Written(threads, a), b)
  {
    if b == [] {
      assert a + b == a;
    } else {
      WrittenSplit(threads, a, Front(b));
      assert Front(a + b) == a + Front(b);
    }
  }

  lemma RestWrites(threads: map<ThreadId, Thread>, plans: seq<Plan>, k: nat)
    requires k <= |plans|
    ensures Written(Written(threads, plans[..k]), plans[k..]) == Written(threads, plans)
  {
    WrittenSplit(threads, plans[..k], plans[k..]);
    assert plans[..k] + plans[k..] == plans;
  }

  /** A run that died after k writes, followed by a complete one, leaves exactly the saver that one
      undisturbed run would have left. */
  lemma RerunCompletes(rows: seq<Row>, threads: map<ThreadId, Thread>, plans: seq<Plan>, k: nat, again: seq<Plan>)
    requires IsPlan(rows, threads.Keys, plans) && k <= |plans|
    requires IsPlan(rows, Written(threads, plans[..k]).Keys, again)
    ensures Written(Written(threads, plans[..k]), again) == Written(threads, plans)
  {
    WrittenKeys(threads, plans[..k]);
    ReplanIsSuffix(rows, threads.Keys, plans, k, again);
    RestWrites(threads, plans, k);
  }

  lemma {:induction false} WrittenAt(threads: map<ThreadId, Thread>, plans: seq<Plan>, i: nat)
    requires Ascending(plans) && i < |plans|
    ensures plans[i].thread in Written(threads, plans) && Written(threads, plans)[plans[i].thread] == Thread(plans[i].payload)
  {
    if i < |plans| - 1 {
      var f := Front(plans);
      assert forall j | 0 <= j < |f| :: f[j] == plans[j];
      WrittenAt(threads, f, i);
    }
  }

  lemma {:induction false} WrittenElsewhere(threads: map<ThreadId, Thread>, plans: seq<Plan>, t: ThreadId)
    requires forall i | 0 <= i < |plans| :: plans[i].thread != t
    ensures t in Written(threads, plans) <==> t in threads
    ensures t in threads ==> Written(threads, plans)[t] == threads[t]
  {
    if plans != [] {
      var f := Front(plans);
      assert forall j | 0 <= j < |f| :: f[j] == plans[j];
      WrittenElsewhere(threads, f, t);
    }
  }

  /** A complete run leaves, for every case with rows and no thread, a thread with the state of its newest
      row. */
  lemma CompleteRunHolds(rows: seq<Row>, threads: map<ThreadId, Thread>, plans: seq<Plan>, i: nat)
    requires IsPlan(rows, threads.Keys, plans) && i < |rows| && Newest(rows, i) && rows[i].thread !in threads
    ensures rows[i].thread in Written(threads, plans)
    ensures Written(threads, plans)[rows[i].thread] == Thread(rows[i].payload)
  {
    assert Covers(plans, rows[i].thread);
    var k :| 0 <= k < |plans| && plans[k].thread == rows[i].thread;
    WrittenAt(threads, plans, k);
    var n := PlanCarries(rows, threads.Keys, plans, k);
    NewestUnique(rows, i, n);
  }

  /** All other threads stay as they are: those that were there, and those without rows, which are not made. */
  lemma CompleteRunKeeps(rows: seq<Row>, threads: map<ThreadId, Thread>, plans: seq<Plan>, t: ThreadId)
    requires IsPlan(rows, threads.Keys, plans)
    requires t in threads || forall i | 0 <= i < |rows| :: rows[i].thread != t
    ensures t in Written(threads, plans) <==> t in threads
    ensures t in threads ==> Written(threads, plans)[t] == threads[t]
  {
    forall k | 0 <= k < |plans| ensures plans[k].thread != t {
      assert plans[k] in plans;
      var n := PlanCarries(rows, threads.Keys, plans, k);
    }
    WrittenElsewhere(threads, plans, t);
  }

  /** Every entry of a plan carries the columns of its case's newest row. */
  lemma PlanCarries(rows: seq<Row>, migrated: set<ThreadId>, plans: seq<Plan>, k: nat) returns (i: nat)
    requires IsPlan(rows, migrated, plans) && k < |plans|
    ensures Newest(rows, i) && rows[i].thread == plans[k].thread
    ensures plans[k].runId == rows[i].runId && plans[k].agent == rows[i].agent
    ensures plans[k].updatedAt == rows[i].updatedAt && plans[k].payload == rows[i].payload
  {
    assert plans[k] in plans;
    i :| 0 <= i < |rows| && Newest(rows, i) && plans[k] == PlanOf(rows[i]);
  }

  /** After a complete run, a further run plans nothing. */
  lemma CompleteRunIsLast(rows: seq<Row>, threads: map<ThreadId, Thread>, plans: seq<Plan>, again: seq<Plan>)
    requires IsPlan(rows, threads.Keys, plans) && IsPlan(rows, Written(threads, plans).Keys, again)
    ensures again == []
  {
    WrittenKeys(threads, plans);
    assert plans[..|plans|] == plans;
    ReplanIsSuffix(rows, threads.Keys, plans, |plans|, again);
  }
}
