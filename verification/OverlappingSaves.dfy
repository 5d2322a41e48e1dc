/**
 Saves of case results whose transactions overlap. Each empties the seven child tables, one DELETE
 after the other, and its inserts appear at its commit. Under READ COMMITTED a DELETE finds the rows
 that were committed when it started, so what another save commits after that stays beside the rows
 of this one. That a DELETE waits while another transaction is deleting the same rows is left out:
 it only rules out interleavings.
 */
module OverlappingSaves {
  import opened Sequences
  import opened Wrappers
  import opened PersistResults

  type TxId = nat

  /** A save; for each table whose DELETE has started, how many saves had committed by then. */
  datatype Saving = Saving(target: CaseId, results: Results, seen: seq<nat>)

  /** A child row, and which of the committed saves inserted it; -1 if it was there before. */
  datatype Stored = Stored(child: Child, saver: int)

  /** The committed rows, the committed saves in commit order, and the open ones. */
  datatype State = State(rows: seq<Stored>, log: seq<Saving>, open: map<TxId, Saving>)

  datatype Action =
    | Begin(tx: TxId, target: CaseId, results: Results)
    | DeleteNext(tx: TxId)
    | Commit(tx: TxId)
    | Abort(tx: TxId)

  function Index(t: Table): (i: nat)
    ensures i < |TABLES| && TABLES[i] == t
  {
    match t
    case Evidence => 0
    case Fact => 1
    case Witness => 2
    case LegalRule => 3
    case Precedent => 4
    case Argument => 5
    case HearingAnalysis => 6
  }

  predicate Deleted(d: Saving) { |d.seen| == |TABLES| }

  /** How many saves had committed when `d` started to delete from table t. */
  function SeenAt(d: Saving, t: Table): nat { if Index(t) < |d.seen| then d.seen[Index(t)] else 0 }

  /** The DELETE of `d` found the row. */
  predicate Removes(d: Saving, r: Stored) { r.child.owner == d.target && r.saver < SeenAt(d, r.child.table) }

  function Kept(rows: seq<Stored>, d: Saving): seq<Stored> {
    if rows == [] then []
    else if Removes(d, Last(rows)) then Kept(Front(rows), d)
    else Kept(Front(rows), d) + [Last(rows)]
  }

  function Stamp(children: seq<Child>, saver: int): seq<Stored> {
    seq(|children|, k requires 0 <= k < |children| => Stored(children[k], saver))
  }

  /** Reading the state for the rows and for the case row does not raise. */
  predicate Readable(c: CaseId, r: Results) {
    Projections(c, r, TABLES).Some? && !Unhashable(r.complexity) && !Unhashable(r.route)
  }

  function Init(children: seq<Child>): State { State(Stamp(children, -1), [], map[]) }

  predicate Enabled(s: State, a: Action) {
    match a
    case Begin(x, _, _) => x !in s.open
    case DeleteNext(x) => x in s.open && |s.open[x].seen| < |TABLES|
    case Commit(x) => x in s.open && Deleted(s.open[x]) && Readable(s.open[x].target, s.open[x].results)
    case Abort(x) => x in s.open
  }

  function Act(s: State, a: Action): State
    requires Enabled(s, a)
  {
    match a
    case Begin(x, c, r) => s.(open := s.open[x := Saving(c, r, [])])
    case DeleteNext(x) => s.(open := s.open[x := s.open[x].(seen := s.open[x].seen + [|s.log|])])
    case Commit(x) => Committing(s, s.open[x]).(open := s.open - {x})
    case Abort(x) => s.(open := s.open - {x})
  }

  function Committing(s: State, d: Saving): State
    requires Projections(d.target, d.results, TABLES).Some?
  {
    s.(rows := Kept(s.rows, d) + Stamp(Projections(d.target, d.results, TABLES).value, |s.log|), log := s.log + [d])
  }

  ghost predicate Leads(s: State, acts: seq<Action>, t: State)
    decreases |acts|
  {
    if acts == [] then s == t
    else exists m :: Leads(s, Front(acts), m) && Enabled(m, Last(acts)) && t == Act(m, Last(acts))
  }

  ghost predicate Reachable(children: seq<Child>, s: State) {
    exists acts :: Leads(Init(children), acts, s)
  }

  // ---- what should be left ----

  /** A later save of c has deleted what save i left in table t. */
  ghost predicate Overwritten(log: seq<Saving>, i: int, t: Table, c: CaseId) {
    exists j: nat :: i < j < |log| && log[j].target == c && i < SeenAt(log[j], t)
  }

  /** What a save means to put into table t. */
  function Written(d: Saving, t: Table): seq<Child> {
    var rows := Projection(t, d.target, d.results);
    if rows.Some? then rows.value else []
  }

  /** The rows for case c in table t that save i inserted; those there before for -1. */
  function Source(children: seq<Child>, log: seq<Saving>, i: int, t: Table, c: CaseId): seq<Child>
    requires -1 <= i < |log|
  {
    if i == -1 then RowsOf(children, t, c) else if log[i].target == c then Written(log[i], t) else []
  }

  /** What is left of them: all or nothing. */
  ghost function Share(children: seq<Child>, log: seq<Saving>, i: int, t: Table, c: CaseId): seq<Stored>
    requires -1 <= i < |log|
  {
    if Overwritten(log, i, t, c) then [] else Stamp(Source(children, log, i, t, c), i)
  }

  /** The shares of all saves, in commit order. */
  ghost function Shares(children: seq<Child>, log: seq<Saving>, t: Table, c: CaseId): seq<seq<Stored>> {
    seq(|log|, i requires 0 <= i < |log| => Share(children, log, i, t, c))
  }

  function Concat(parts: seq<seq<Stored>>): seq<Stored> {
    if parts == [] then [] else Concat(Front(parts)) + Last(parts)
  }

  /** What is left of the rows there before and of all saves. */
  ghost function Left(children: seq<Child>, log: seq<Saving>, t: Table, c: CaseId): seq<Stored> {
    Share(children, log, -1, t, c) + Concat(Shares(children, log, t, c))
  }

  /** The stored rows of a case in a table. */
  function StoredOf(rows: seq<Stored>, t: Table, c: CaseId): seq<Stored> {
    if rows == [] then []
    else if Belongs(Last(rows), t, c) then StoredOf(Front(rows), t, c) + [Last(rows)]
    else StoredOf(Front(rows), t, c)
  }

  function Children(rows: seq<Stored>): seq<Child> { seq(|rows|, k requires 0 <= k < |rows| => rows[k].child) }

  // ---- sorting out the rows ----

  lemma {:induction false} StoredOfSplit(a: seq<Stored>, b: seq<Stored>, t: Table, c: CaseId)
    ensures StoredOf(a + b, t, c) == StoredOf(a, t, c) + StoredOf(b, t, c)
  {
    if b == [] {
      assert a + b == a;
    } else {
      StoredOfSplit(a, Front(b), t, c);
      assert Front(a + b) == a + Front(b);
    }
  }

  lemma {:induction false} KeptSplit(a: seq<Stored>, b: seq<Stored>, d: Saving)
    ensures Kept(a + b, d) == Kept(a, d) + Kept(b, d)
  {
    if b == [] {
      assert a + b == a;
    } else {
      KeptSplit(a, Front(b), d);
      assert Front(a + b) == a + Front(b);
    }
  }

  lemma KeptAppend(a: seq<Stored>, r: Stored, d: Saving)
    ensures Kept(a + [r], d) == if Removes(d, r) then Kept(a, d) else Kept(a, d) + [r]
  {
    assert Front(a + [r]) == a;
  }

  predicate Belongs(r: Stored, t: Table, c: CaseId) { r.child.owner == c && r.child.table == t }

  lemma StoredOfAppend(a: seq<Stored>, r: Stored, t: Table, c: CaseId)
    ensures StoredOf(a + [r], t, c) == if Belongs(r, t, c) then StoredOf(a, t, c) + [r] else StoredOf(a, t, c)
  {
    assert Front(a + [r]) == a;
  }

  /** Deleting and looking at one table may change places. */
  lemma {:induction false} StoredOfKept(rows: seq<Stored>, d: Saving, t: Table, c: CaseId)
    ensures StoredOf(Kept(rows, d), t, c) == Kept(StoredOf(rows, t, c), d)
  {
    if rows != [] {
      var f, r := Front(rows), Last(rows);
      StoredOfKept(f, d, t, c);
      FrontAndLast(rows);
      KeptAppend(f, r, d);
      StoredOfAppend(f, r, t, c);
      if Belongs(r, t, c) {
        KeptAppend(StoredOf(f, t, c), r, d);
      }
      if !Removes(d, r) {
        StoredOfAppend(Kept(f, d), r, t, c);
      }
    }
  }

  lemma StampFront(children: seq<Child>, saver: int)
    requires children != []
    ensures Front(Stamp(children, saver)) == Stamp(Front(children), saver) && Last(Stamp(children, saver)) == Stored(Last(children), saver)
    ensures Stamp(children, saver) == Stamp(Front(children), saver) + [Stored(Last(children), saver)]
  {
  }

  lemma {:induction false} StoredOfStamp(children: seq<Child>, saver: int, t: Table, c: CaseId)
    ensures StoredOf(Stamp(children, saver), t, c) == Stamp(RowsOf(children, t, c), saver)
  {
    if children != [] {
      StampFront(children, saver);
      StoredOfStamp(Front(children), saver, t, c);
      var last := Last(children);
      if last.owner == c && last.table == t {
        StampFront(RowsOf(children, t, c), saver);
        assert Front(RowsOf(children, t, c)) == RowsOf(Front(children), t, c);
      }
    }
  }

  /** The rows of one save in one table go all or not at all. */
  lemma {:induction false} KeptStamp(children: seq<Child>, saver: int, d: Saving, t: Table, c: CaseId)
    requires AllOf(children, t, c)
    ensures Kept(Stamp(children, saver), d) == if d.target == c && saver < SeenAt(d, t) then [] else Stamp(children, saver)
  {
    if children != [] {
      StampFront(children, saver);
      assert Last(children) == children[|children| - 1];
      KeptStamp(Front(children), saver, d, t, c);
    }
  }

  lemma {:induction false} RowsOfAllOf(children: seq<Child>, t: Table, c: CaseId)
    ensures AllOf(RowsOf(children, t, c), t, c)
  {
    if children != [] {
      RowsOfAllOf(Front(children), t, c);
    }
  }

  // ---- one commit ----

  lemma OverwrittenNext(log: seq<Saving>, d: Saving, i: int, t: Table, c: CaseId)
    requires i < |log|
    ensures Overwritten(log + [d], i, t, c) <==> Overwritten(log, i, t, c) || (d.target == c && i < SeenAt(d, t))
  {
    var more := log + [d];
    if Overwritten(log, i, t, c) {
      var j: nat :| i < j < |log| && log[j].target == c && i < SeenAt(log[j], t);
      assert more[j] == log[j];
    }
    if d.target == c && i < SeenAt(d, t) {
      assert more[|log|] == d;
    }
  }

  lemma {:induction false} KeptConcat(parts: seq<seq<Stored>>, kept: seq<seq<Stored>>, d: Saving)
    requires |kept| == |parts| && forall k | 0 <= k < |parts| :: kept[k] == Kept(parts[k], d)
    ensures Concat(kept) == Kept(Concat(parts), d)
  {
    if parts != [] {
      KeptConcat(Front(parts), Front(kept), d);
      KeptSplit(Concat(Front(parts)), Last(parts), d);
    }
  }

  lemma SourceOwn(children: seq<Child>, log: seq<Saving>, i: int, t: Table, c: CaseId)
    requires -1 <= i < |log|
    ensures AllOf(Source(children, log, i, t, c), t, c)
  {
    if i == -1 {
      RowsOfAllOf(children, t, c);
    } else {
      ProjectionOwn(t, c, log[i].results);
    }
  }

  lemma ShareNext(children: seq<Child>, log: seq<Saving>, d: Saving, i: int, t: Table, c: CaseId)
    requires -1 <= i < |log|
    ensures Share(children, log + [d], i, t, c) == Kept(Share(children, log, i, t, c), d)
  {
    OverwrittenNext(log, d, i, t, c);
    SourceOwn(children, log, i, t, c);
    KeptStamp(Source(children, log, i, t, c), i, d, t, c);
  }

  /** A commit keeps, of what was left, what its deletes did not find, and adds its own. */
  lemma LeftNext(children: seq<Child>, log: seq<Saving>, d: Saving, t: Table, c: CaseId)
    ensures Left(children, log + [d], t, c) == Kept(Left(children, log, t, c), d) + Share(children, log + [d], |log|, t, c)
  {
    var first, parts := Share(children, log, -1, t, c), Shares(children, log, t, c);
    var more := Shares(children, log + [d], t, c);
    forall i | 0 <= i < |parts| ensures Front(more)[i] == Kept(parts[i], d) {
      ShareNext(children, log, d, i, t, c);
    }
    ShareNext(children, log, d, -1, t, c);
    KeptMore(first, parts, more, d);
  }

  lemma KeptMore(first: seq<Stored>, parts: seq<seq<Stored>>, more: seq<seq<Stored>>, d: Saving)
    requires |more| == |parts| + 1 && forall i | 0 <= i < |parts| :: Front(more)[i] == Kept(parts[i], d)
    ensures Kept(first, d) + Concat(more) == Kept(first + Concat(parts), d) + Last(more)
  {
    KeptConcat(parts, Front(more), d);
    KeptSplit(first, Concat(parts), d);
    Associative(Kept(first, d), Kept(Concat(parts), d), Last(more));
  }

  lemma WrittenIs(d: Saving, t: Table)
    requires Projections(d.target, d.results, TABLES).Some?
    ensures Projection(t, d.target, d.results) == Some(Written(d, t))
    ensures RowsOf(Projections(d.target, d.results, TABLES).value, t, d.target) == Written(d, t)
  {
    TablesDistinct();
    EveryTable(t);
    RowsOfProjections(d.target, d.results, TABLES, t);
  }

  /** What a commit adds to a table. */
  lemma NewShare(children: seq<Child>, log: seq<Saving>, d: Saving, t: Table, c: CaseId)
    requires Projections(d.target, d.results, TABLES).Some?
    ensures StoredOf(Stamp(Projections(d.target, d.results, TABLES).value, |log|), t, c)
            == Share(children, log + [d], |log|, t, c)
  {
    StoredOfStamp(Projections(d.target, d.results, TABLES).value, |log|, t, c);
    if d.target == c {
      WrittenIs(d, t);
    } else {
      NoRowsElsewhere(d.target, d.results, TABLES, t, c);
    }
  }

  lemma CommitLeaves(children: seq<Child>, s: State, d: Saving, t: Table, c: CaseId)
    requires Projections(d.target, d.results, TABLES).Some?
    requires StoredOf(s.rows, t, c) == Left(children, s.log, t, c)
    ensures StoredOf(Committing(s, d).rows, t, c) == Left(children, s.log + [d], t, c)
  {
    NewShare(children, s.log, d, t, c);
    StoredOfSplit(Kept(s.rows, d), Stamp(Projections(d.target, d.results, TABLES).value, |s.log|), t, c);
    StoredOfKept(s.rows, d, t, c);
    LeftNext(children, s.log, d, t, c);
  }

  // ---- every reachable state ----

  ghost predicate Inv(children: seq<Child>, s: State) {
    && (forall i | 0 <= i < |s.log| :: Readable(s.log[i].target, s.log[i].results))
    && (forall t, c :: StoredOf(s.rows, t, c) == Left(children, s.log, t, c))
  }

  lemma CommitKeepsInv(children: seq<Child>, s: State, x: TxId)
    requires Inv(children, s) && Enabled(s, Commit(x))
    ensures Inv(children, Act(s, Commit(x)))
  {
    var d, s' := s.open[x], Act(s, Commit(x));
    forall t, c ensures StoredOf(s'.rows, t, c) == Left(children, s'.log, t, c) {
      CommitLeaves(children, s, d, t, c);
    }
  }

  lemma {:induction false} LeadsKeepsInv(children: seq<Child>, s: State, acts: seq<Action>, t: State)
    requires Inv(children, s) && Leads(s, acts, t)
    ensures Inv(children, t)
    decreases |acts|
  {
    if acts != [] {
      var a := Last(acts);
      var m :| Leads(s, Front(acts), m) && Enabled(m, a) && t == Act(m, a);
      LeadsKeepsInv(children, s, Front(acts), m);
      if a.Commit? {
        CommitKeepsInv(children, m, a.tx);
      } else {
        assert t.rows == m.rows && t.log == m.log;
      }
    }
  }

  lemma ReachableInv(children: seq<Child>, s: State)
    requires Reachable(children, s)
    ensures Inv(children, s)
  {
    var acts :| Leads(Init(children), acts, s);
    var i := Init(children);
    forall t, c ensures StoredOf(i.rows, t, c) == Left(children, i.log, t, c) {
      StoredOfStamp(children, -1, t, c);
    }
    LeadsKeepsInv(children, i, acts, s);
  }

  // ---- the theorems ----

  lemma {:induction false} ChildrenOf(rows: seq<Stored>, t: Table, c: CaseId)
    ensures RowsOf(Children(rows), t, c) == Children(StoredOf(rows, t, c))
  {
    if rows != [] {
      ChildrenOf(Front(rows), t, c);
      assert Front(Children(rows)) == Children(Front(rows));
      var rest := StoredOf(Front(rows), t, c);
      assert Children(rest + [Last(rows)]) == Children(rest) + [Last(rows).child];
    }
  }

  /** In every state of every interleaving, a table holds for a case exactly what the rows there before
      and each committed save left, in commit order: a save's whole projection, unless a later one
      started to delete from that table after it had committed. */
  lemma RowsAreLeft(children: seq<Child>, s: State, t: Table, c: CaseId)
    requires Reachable(children, s)
    ensures RowsOf(Children(s.rows), t, c) == Children(Left(children, s.log, t, c))
    ensures forall i | 0 <= i < |s.log| :: Projection(t, s.log[i].target, s.log[i].results) == Some(Written(s.log[i], t))
  {
    ReachableInv(children, s);
    forall i | 0 <= i < |s.log| ensures Projection(t, s.log[i].target, s.log[i].results) == Some(Written(s.log[i], t)) {
      assert Readable(s.log[i].target, s.log[i].results);
      WrittenIs(s.log[i], t);
    }
    ChildrenOf(s.rows, t, c);
  }

  /** Save z is the last committed one of case c. */
  predicate IsLast(log: seq<Saving>, c: CaseId, z: nat) {
    z < |log| && log[z].target == c && forall j | z < j < |log| :: log[j].target != c
  }

  /** Save i of case c came before z and is not overwritten. */
  ghost predicate Lingers(log: seq<Saving>, t: Table, c: CaseId, z: nat, i: nat) {
    i < z <= |log| && log[i].target == c && !Overwritten(log, i, t, c)
  }

  lemma {:induction false} NothingIff(parts: seq<seq<Stored>>)
    ensures Concat(parts) == [] <==> forall k | 0 <= k < |parts| :: parts[k] == []
  {
    if parts != [] {
      NothingIff(Front(parts));
      assert forall k | 0 <= k < |parts| - 1 :: Front(parts)[k] == parts[k];
      assert Last(parts) == parts[|parts| - 1];
    }
  }

  /** Empty parts at the end add nothing. */
  lemma {:induction false} ThroughLast(parts: seq<seq<Stored>>, n: nat)
    requires n < |parts| && forall k | n < k < |parts| :: parts[k] == []
    ensures Concat(parts) == Concat(parts[..n]) + parts[n]
    decreases |parts|
  {
    if n == |parts| - 1 {
      assert Front(parts) == parts[..n];
    } else {
      ThroughLast(Front(parts), n);
      assert Front(parts)[..n] == parts[..n];
    }
  }

  /** What comes before part n, when nothing comes after it. */
  lemma SplitAt(parts: seq<seq<Stored>>, n: nat) returns (before: seq<Stored>)
    requires n < |parts| && forall k | n < k < |parts| :: parts[k] == []
    ensures Concat(parts) == before + parts[n]
    ensures before == [] <==> forall k: nat | k < n :: parts[k] == []
  {
    ThroughLast(parts, n);
    before := Concat(parts[..n]);
    NothingIff(parts[..n]);
    assert forall k: nat | k < n :: parts[..n][k] == parts[k];
  }

  /** A share is empty when it is overwritten or was so from the start. */
  lemma ShareEmptyIff(children: seq<Child>, log: seq<Saving>, i: nat, t: Table, c: CaseId)
    requires i < |log|
    ensures Share(children, log, i, t, c) == []
            <==> (log[i].target == c && !Overwritten(log, i, t, c) ==> Written(log[i], t) == [])
  {
  }

  /** The shares before that of the last save z are all empty exactly when the saves that linger wrote
      nothing; those after it are empty anyway. */
  lemma SharesAround(children: seq<Child>, log: seq<Saving>, t: Table, c: CaseId, z: nat)
    requires IsLast(log, c, z)
    ensures (forall i: nat | i < z :: Share(children, log, i, t, c) == []) <==>
              forall i: nat | Lingers(log, t, c, z, i) :: Written(log[i], t) == []
    ensures forall i | z < i < |log| :: Share(children, log, i, t, c) == []
    ensures Share(children, log, z, t, c) == Stamp(Written(log[z], t), z)
  {
    forall i: nat | i < z
      ensures Share(children, log, i, t, c) == [] <==> (Lingers(log, t, c, z, i) ==> Written(log[i], t) == [])
    {
      ShareEmptyIff(children, log, i, t, c);
    }
  }

  /** What the last save of the case finds left: nothing, exactly when those that linger wrote nothing. */
  lemma LeftBefore(children: seq<Child>, log: seq<Saving>, t: Table, c: CaseId, z: nat) returns (before: seq<Stored>)
    requires IsLast(log, c, z)
    ensures Left(children, log, t, c) == before + Stamp(Written(log[z], t), z)
    ensures before == [] <==> forall i: nat | Lingers(log, t, c, z, i) :: Written(log[i], t) == []
  {
    var parts := Shares(children, log, t, c);
    SharesAround(children, log, t, c, z);
    assert forall i: nat | i < |log| :: parts[i] == Share(children, log, i, t, c);
    before := SplitAt(parts, z);
    NoneFromBefore(children, log, t, c, z);
    assert [] + Concat(parts) == Concat(parts);
  }

  /** Of the rows there before any save, none is left after one of the case. */
  lemma NoneFromBefore(children: seq<Child>, log: seq<Saving>, t: Table, c: CaseId, z: nat)
    requires z < |log| && log[z].target == c
    ensures Share(children, log, -1, t, c) == []
  {
    assert -1 < SeenAt(log[z], t);
  }

  lemma ChildrenOfStamp(a: seq<Stored>, children: seq<Child>, saver: int)
    ensures Children(a + Stamp(children, saver)) == Children(a) + children
  {
  }

  /** Exactly when the last committed save of a case has replaced the rows of a table: when every earlier
      save that lingers had no rows for it. */
  lemma ReplacedIff(children: seq<Child>, s: State, t: Table, c: CaseId, z: nat)
    requires Reachable(children, s) && IsLast(s.log, c, z)
    ensures Some(RowsOf(Children(s.rows), t, c)) == Projection(t, c, s.log[z].results)
            <==> forall i: nat | Lingers(s.log, t, c, z, i) :: Written(s.log[i], t) == []
  {
    RowsAreLeft(children, s, t, c);
    var before := LeftBefore(children, s.log, t, c, z);
    var own := Written(s.log[z], t);
    ChildrenOfStamp(before, own, z);
    assert |RowsOf(Children(s.rows), t, c)| == |before| + |own|;
    assert before == [] ==> Children(before) + own == own;
  }

  /** The last save started to delete from table t after every earlier save of the case had committed. */
  predicate DeletesAfterAll(log: seq<Saving>, t: Table, c: CaseId, z: nat)
    requires z < |log|
  {
    forall i: nat | i < z && log[i].target == c :: i < SeenAt(log[z], t)
  }

  /** The last committed save of case c before z, if there is one. */
  lemma Previous(log: seq<Saving>, c: CaseId, z: nat, i: nat) returns (p: nat)
    requires i < z <= |log| && log[i].target == c
    ensures i <= p < z && log[p].target == c && forall j | p < j < z :: log[j].target != c
  {
    p := z - 1;
    while log[p].target != c
      invariant i <= p < z && forall j | p < j < z :: log[j].target != c
      decreases p
    {
      p := p - 1;
    }
  }

  /** No save lingers exactly when the last one did not overlap any other: it alone can overwrite the one
      before it. */
  lemma NoneLingersIff(log: seq<Saving>, t: Table, c: CaseId, z: nat)
    requires IsLast(log, c, z)
    ensures (forall i: nat :: !Lingers(log, t, c, z, i)) <==> DeletesAfterAll(log, t, c, z)
  {
    if DeletesAfterAll(log, t, c, z) {
      forall i: nat ensures !Lingers(log, t, c, z, i) {
        assert i < z && log[i].target == c ==> i < SeenAt(log[z], t);
      }
    }
    if forall i: nat :: !Lingers(log, t, c, z, i) {
      forall i: nat | i < z && log[i].target == c ensures i < SeenAt(log[z], t) {
        var p := Previous(log, c, z, i);
        assert !Lingers(log, t, c, z, p);
      }
    }
  }

  /** For a table that every save of the case writes to: its rows are those of the last committed save
      exactly when that save started to delete from the table after all others had committed. */
  lemma ReplacedIffNoOverlap(children: seq<Child>, s: State, t: Table, c: CaseId, z: nat)
    requires Reachable(children, s) && IsLast(s.log, c, z)
    requires forall i | 0 <= i < z && s.log[i].target == c :: Written(s.log[i], t) != []
    ensures Some(RowsOf(Children(s.rows), t, c)) == Projection(t, c, s.log[z].results) <==> DeletesAfterAll(s.log, t, c, z)
  {
    ReplacedIff(children, s, t, c, z);
    NoneLingersIff(s.log, t, c, z);
  }

  /** Without overlap the rows are replaced, whatever the saves write. */
  lemma SerialReplaces(children: seq<Child>, s: State, t: Table, c: CaseId, z: nat)
    requires Reachable(children, s) && IsLast(s.log, c, z) && DeletesAfterAll(s.log, t, c, z)
    ensures Some(RowsOf(Children(s.rows), t, c)) == Projection(t, c, s.log[z].results)
  {
    ReplacedIff(children, s, t, c, z);
    NoneLingersIff(s.log, t, c, z);
  }

  // ---- an overlap ----

  lemma ReachableNext(children: seq<Child>, s: State, a: Action)
    requires Reachable(children, s) && Enabled(s, a)
    ensures Reachable(children, Act(s, a))
  {
    var acts :| Leads(Init(children), acts, s);
    assert Front(acts + [a]) == acts;
    assert Leads(Init(children), acts + [a], Act(s, a));
  }

  /** The seven deletes of a save, nothing committing in between. */
  lemma {:induction false} DeletesAll(children: seq<Child>, s: State, x: TxId) returns (t: State)
    requires Reachable(children, s) && x in s.open && |s.open[x].seen| <= |TABLES|
    requires forall j | 0 <= j < |s.open[x].seen| :: s.open[x].seen[j] == |s.log|
    ensures Reachable(children, t) && t.rows == s.rows && t.log == s.log && t.open.Keys == s.open.Keys
    ensures forall y | y in s.open && y != x :: t.open[y] == s.open[y]
    ensures Deleted(t.open[x]) && t.open[x].target == s.open[x].target && t.open[x].results == s.open[x].results
    ensures forall j | 0 <= j < |TABLES| :: t.open[x].seen[j] == |s.log|
    decreases |TABLES| - |s.open[x].seen|
  {
    if Deleted(s.open[x]) {
      t := s;
    } else {
      ReachableNext(children, s, DeleteNext(x));
      t := DeletesAll(children, Act(s, DeleteNext(x)), x);
    }
  }

  /** Two saves of a new case that have both deleted before either commits. */
  lemma BothDeleted(c: CaseId, r: Results, q: Results) returns (s: State)
    ensures Reachable([], s) && s.rows == [] && s.log == [] && 0 in s.open && 1 in s.open
    ensures Deleted(s.open[0]) && s.open[0].target == c && s.open[0].results == r
    ensures Deleted(s.open[1]) && s.open[1].target == c && s.open[1].results == q
    ensures forall j | 0 <= j < |TABLES| :: s.open[1].seen[j] == 0
  {
    s := Init([]);
    assert Leads(s, [], s);
    ReachableNext([], s, Begin(0, c, r));
    s := Act(s, Begin(0, c, r));
    ReachableNext([], s, Begin(1, c, q));
    s := Act(s, Begin(1, c, q));
    s := DeletesAll([], s, 0);
    s := DeletesAll([], s, 1);
  }

  /** A table after two saves, the second of which did not see the first. */
  lemma TwoLeft(log: seq<Saving>, t: Table, c: CaseId)
    requires |log| == 2 && log[0].target == c == log[1].target && SeenAt(log[1], t) == 0
    ensures Left([], log, t, c) == Stamp(Written(log[0], t), 0) + Stamp(Written(log[1], t), 1)
  {
    NoneFromBefore([], log, t, c, 1);
    var parts := Shares([], log, t, c);
    assert !Overwritten(log, 0, t, c) && !Overwritten(log, 1, t, c);
    assert parts == [Stamp(Written(log[0], t), 0), Stamp(Written(log[1], t), 1)];
    ConcatTwo(parts[0], parts[1]);
    assert [] + Concat(parts) == Concat(parts);
  }

  lemma ConcatTwo(a: seq<Stored>, b: seq<Stored>)
    ensures Concat([a, b]) == a + b
  {
    var parts := [a, b];
    assert Front(parts) == [a] && Last(parts) == b;
    assert Front([a]) == [] && Last([a]) == a;
    assert Concat([a]) == Concat(Front([a])) + a == a;
  }

  /** The condition is needed: for any two readable states of a case there is a run after which every
      table holds the rows of both. */
  lemma OverlapDoubles(c: CaseId, r: Results, q: Results) returns (s: State)
    requires Readable(c, r) && Readable(c, q)
    ensures Reachable([], s) && |s.log| == 2 && IsLast(s.log, c, 1) && s.log[1].results == q
    ensures forall t :: Projection(t, c, r).Some? && Projection(t, c, q).Some?
              && RowsOf(Children(s.rows), t, c) == Projection(t, c, r).value + Projection(t, c, q).value
  {
    s := BothDeleted(c, r, q);
    ReachableNext([], s, Commit(0));
    s := Act(s, Commit(0));
    ReachableNext([], s, Commit(1));
    s := Act(s, Commit(1));
    forall t ensures Projection(t, c, r).Some? && Projection(t, c, q).Some?
               && RowsOf(Children(s.rows), t, c) == Projection(t, c, r).value + Projection(t, c, q).value
    {
      RowsAreLeft([], s, t, c);
      TwoLeft(s.log, t, c);
      ChildrenOfStamp([], Written(s.log[0], t), 0);
      ChildrenOfStamp(Stamp(Written(s.log[0], t), 0), Written(s.log[1], t), 1);
      assert [] + Stamp(Written(s.log[0], t), 0) == Stamp(Written(s.log[0], t), 0);
      assert Children([]) + Written(s.log[0], t) == Written(s.log[0], t);
    }
  }

  /** From every state of every run: a save during which no other commits leaves exactly its projection in
      every table, whatever else is open. */
  lemma SaveAlone(children: seq<Child>, s: State, x: TxId, c: CaseId, r: Results) returns (e: State)
    requires Reachable(children, s) && x !in s.open && Readable(c, r)
    ensures Reachable(children, e) && |e.log| == |s.log| + 1 && Last(e.log).target == c && Last(e.log).results == r
    ensures forall t :: Some(RowsOf(Children(e.rows), t, c)) == Projection(t, c, r)
  {
    ReachableNext(children, s, Begin(x, c, r));
    var d := DeletesAll(children, Act(s, Begin(x, c, r)), x);
    ReachableNext(children, d, Commit(x));
    e := Act(d, Commit(x));
    forall t ensures Some(RowsOf(Children(e.rows), t, c)) == Projection(t, c, r) {
      SerialReplaces(children, e, t, c, |s.log|);
    }
  }
}
