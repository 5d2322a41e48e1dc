/**
 Starting and restarting a case: any number of concurrent process and restart requests, and of other
 writers of the case status, each in its own transaction. The status flip is a conditional UPDATE:
 it waits for the row lock, tests the committed status, and holds the lock until the transaction
 ends. A transaction may abort, or its process die, at any step before its commit.
 */
module CaseStart {
  import opened Sequences
  import opened Wrappers

  datatype Status =
    | Draft | Extracting | AwaitingIntakeConfirmation
    | Pending | Processing | ReadyForReview | Escalated | CaseClosed
    | Failed | FailedRetryable
    | AwaitingReviewGate1 | AwaitingReviewGate2 | AwaitingReviewGate3 | AwaitingReviewGate4

  const STARTABLE: set<Status> := {Pending, ReadyForReview, FailedRetryable}
  const RESTARTABLE: set<Status> := {Failed, FailedRetryable, Escalated}

  /** A request to one of the two endpoints, or any other code that sets the status of a case. */
  datatype Kind = Process | Restart | Writer(target: Status)

  predicate Endpoint(k: Kind) { !k.Writer? }

  predicate Admits(k: Kind, s: Status) {
    match k
    case Process => s in STARTABLE
    case Restart => s in RESTARTABLE
    case Writer(_) => true
  }

  function Target(k: Kind): Status { if k.Writer? then k.target else Processing }

  type CaseId = nat
  type TxId = nat

  datatype Phase =
    | Begun
    | Flipped(from: Status)     // holds the row lock; `from` is the status the UPDATE found
    | Inserted(from: Status)    // and has inserted its job row

  /** An open transaction; `rows` are its uncommitted case-pipeline rows. */
  datatype Tx = Tx(kind: Kind, target: CaseId, phase: Phase, rows: seq<CaseId>)

  /** A committed status change. */
  datatype Change = Change(kind: Kind, target: CaseId, from: Status)

  datatype State = State(
    cases: map<CaseId, Status>,        // committed
    jobs: seq<CaseId>,                 // committed case-pipeline rows of the two endpoints
    holder: map<CaseId, TxId>,         // row locks
    txs: map<TxId, Tx>,
    history: seq<Change>)

  function Init(cases: map<CaseId, Status>): State { State(cases, [], map[], map[], []) }

  datatype Action =
    | Begin(t: TxId, kind: Kind, target: CaseId)
    | Flip(t: TxId)
    | Insert(t: TxId)
    | Commit(t: TxId)
    | Abort(t: TxId)

  predicate Enabled(s: State, a: Action) {
    match a
    case Begin(t, _, c) => t !in s.txs && c in s.cases
    case Flip(t) => t in s.txs && s.txs[t].phase.Begun? && s.txs[t].target in s.cases && s.txs[t].target !in s.holder
    case Insert(t) => t in s.txs && s.txs[t].phase.Flipped? && Endpoint(s.txs[t].kind)
    case Commit(t) => t in s.txs && if Endpoint(s.txs[t].kind) then s.txs[t].phase.Inserted? else s.txs[t].phase.Flipped?
    case Abort(t) => t in s.txs
  }

  /** Ends t: its lock, if it has one, is released. */
  function Ended(s: State, t: TxId): State
    requires t in s.txs
  {
    s.(txs := s.txs - {t}, holder := if s.txs[t].phase.Begun? then s.holder else s.holder - {s.txs[t].target})
  }

  function Act(s: State, a: Action): State
    requires Enabled(s, a)
  {
    match a
    case Begin(t, kind, c) => s.(txs := s.txs[t := Tx(kind, c, Begun, [])])
    case Flip(t) =>
      var x := s.txs[t];
      if Admits(x.kind, s.cases[x.target])
      then s.(txs := s.txs[t := x.(phase := Flipped(s.cases[x.target]))], holder := s.holder[x.target := t])
      else Ended(s, t)                                       // 409: no row matched
    case Insert(t) =>
      var x := s.txs[t];
      s.(txs := s.txs[t := x.(phase := Inserted(x.phase.from), rows := x.rows + [x.target])])
    case Commit(t) =>
      var x := s.txs[t];
      Ended(s, t).(cases := s.cases[x.target := Target(x.kind)], jobs := s.jobs + x.rows,
                   history := s.history + [Change(x.kind, x.target, x.phase.from)])
    case Abort(t) => Ended(s, t)
  }

  ghost predicate Leads(s: State, acts: seq<Action>, t: State)
    decreases |acts|
  {
    if acts == [] then s == t
    else exists m :: Leads(s, Front(acts), m) && Enabled(m, Last(acts)) && t == Act(m, Last(acts))
  }

  ghost predicate Reachable(cases: map<CaseId, Status>, s: State) {
    exists acts :: Leads(Init(cases), acts, s)
  }

  // ---- the sequential reference: each change one atomic compare-and-swap plus insert ----

  datatype Table = Table(cases: map<CaseId, Status>, jobs: seq<CaseId>)

  /** One atomic request; None when its status test fails. */
  function Swap(tab: Table, k: Kind, c: CaseId): Option<Table> {
    if c in tab.cases && Admits(k, tab.cases[c])
    then Some(Table(tab.cases[c := Target(k)], if Endpoint(k) then tab.jobs + [c] else tab.jobs))
    else None
  }

  /** The changes one after the other, each of them succeeding on the status it names. */
  function Replay(tab: Table, history: seq<Change>): Option<Table> {
    if history == [] then Some(tab)
    else
      var m := Replay(tab, Front(history));
      var e := Last(history);
      if m.Some? && e.target in m.value.cases && m.value.cases[e.target] == e.from
      then Swap(m.value, e.kind, e.target) else None
  }

  // ---- the invariant ----

  predicate TxOk(s: State, t: TxId)
    requires t in s.txs
  {
    var x := s.txs[t];
    && x.target in s.cases
    && x.rows == (if x.phase.Inserted? then [x.target] else [])
    && (!x.phase.Begun? ==> && x.target in s.holder && s.holder[x.target] == t
                            && s.cases[x.target] == x.phase.from && Admits(x.kind, x.phase.from))
  }

  predicate Inv(cases: map<CaseId, Status>, s: State) {
    && (forall t | t in s.txs :: TxOk(s, t))
    && Replay(Table(cases, []), s.history) == Some(Table(s.cases, s.jobs))
  }

  lemma CommitKeepsInv(cases: map<CaseId, Status>, s: State, t: TxId)
    requires Inv(cases, s) && Enabled(s, Commit(t))
    ensures Inv(cases, Act(s, Commit(t)))
  {
    var x := s.txs[t];
    assert TxOk(s, t);
    var e := Change(x.kind, x.target, x.phase.from);
    assert s.jobs + [] == s.jobs;
    var after := s.cases[x.target := Target(x.kind)];
    assert after.Keys == s.cases.Keys;
    var s' := Act(s, Commit(t));
    forall u | u in s'.txs ensures TxOk(s', u) {
      assert TxOk(Ended(s, t).(cases := after), u);
    }
  }

  lemma ActKeepsInv(cases: map<CaseId, Status>, s: State, a: Action)
    requires Inv(cases, s) && Enabled(s, a)
    ensures Inv(cases, Act(s, a))
  {
    var s' := Act(s, a);
    if a.Commit? {
      CommitKeepsInv(cases, s, a.t);
    } else if a.Abort? || (a.Flip? && !Admits(s.txs[a.t].kind, s.cases[s.txs[a.t].target])) {
      assert s' == Ended(s, a.t).(cases := s.cases);
    } else {
      forall u | u in s'.txs ensures TxOk(s', u) {
        assert u in s.txs ==> TxOk(s, u);
      }
    }
  }

  lemma {:induction false} LeadsKeepsInv(cases: map<CaseId, Status>, s: State, acts: seq<Action>, t: State)
    requires Inv(cases, s) && Leads(s, acts, t)
    ensures Inv(cases, t)
    decreases |acts|
  {
    if acts != [] {
      var m :| Leads(s, Front(acts), m) && Enabled(m, Last(acts)) && t == Act(m, Last(acts));
      LeadsKeepsInv(cases, s, Front(acts), m);
      ActKeepsInv(cases, m, Last(acts));
    }
  }

  // ---- the theorems ----

  /** In every state of every interleaving, the committed cases and job rows are what the committed
      changes give when made one at a time, in commit order, each by an atomic test-and-set. */
  lemma SerializesInCommitOrder(cases: map<CaseId, Status>, s: State)
    requires Reachable(cases, s)
    ensures Replay(Table(cases, []), s.history) == Some(Table(s.cases, s.jobs))
    ensures forall t, u | t in s.txs && u in s.txs && t != u && s.txs[t].target == s.txs[u].target ::
              s.txs[t].phase.Begun? || s.txs[u].phase.Begun?
  {
    var acts :| Leads(Init(cases), acts, s);
    LeadsKeepsInv(cases, Init(cases), acts, s);
    forall t, u | t in s.txs && u in s.txs && t != u && s.txs[t].target == s.txs[u].target
      ensures s.txs[t].phase.Begun? || s.txs[u].phase.Begun?
    {
      assert TxOk(s, t) && TxOk(s, u);
    }
  }

  /** Successful process and restart requests of case c. */
  function Starts(history: seq<Change>, c: CaseId): nat {
    if history == [] then 0
    else Starts(Front(history), c) + if Last(history).target == c && Endpoint(Last(history).kind) then 1 else 0
  }

  function Rows(jobs: seq<CaseId>, c: CaseId): nat { multiset(jobs)[c] }

  lemma {:induction false} ReplayCounts(tab: Table, history: seq<Change>, c: CaseId)
    requires Replay(tab, history).Some?
    ensures Rows(Replay(tab, history).value.jobs, c) == Rows(tab.jobs, c) + Starts(history, c)
  {
    if history != [] {
      ReplayCounts(tab, Front(history), c);
    }
  }

  /** For every case, at every moment, whatever aborted or died: the successful flips to processing by
      the two endpoints are as many as the case-pipeline rows they inserted. */
  lemma StartsEqualRows(cases: map<CaseId, Status>, s: State, c: CaseId)
    requires Reachable(cases, s)
    ensures Starts(s.history, c) == Rows(s.jobs, c)
  {
    SerializesInCommitOrder(cases, s);
    ReplayCounts(Table(cases, []), s.history, c);
  }

  predicate StartOf(e: Change, c: CaseId) { e.target == c && Endpoint(e.kind) }

  lemma {:induction false} ReplayPrefix(tab: Table, history: seq<Change>, i: nat)
    requires i <= |history| && Replay(tab, history).Some?
    ensures Replay(tab, history[..i]).Some?
    decreases |history|
  {
    if i < |history| {
      ReplayPrefix(tab, Front(history), i);
      assert Front(history)[..i] == history[..i];
    } else {
      assert history[..i] == history;
    }
  }

  /** Without a change of c in between, its status stands. */
  lemma {:induction false} StatusStands(tab: Table, history: seq<Change>, i: nat, j: nat, c: CaseId)
    requires i <= j <= |history| && Replay(tab, history[..i]).Some? && Replay(tab, history[..j]).Some?
    requires c in Replay(tab, history[..i]).value.cases
    requires forall k | i <= k < j :: history[k].target != c
    ensures c in Replay(tab, history[..j]).value.cases
    ensures Replay(tab, history[..j]).value.cases[c] == Replay(tab, history[..i]).value.cases[c]
    decreases j
  {
    if i < j {
      assert Front(history[..j]) == history[..j - 1];
      StatusStands(tab, history, i, j - 1, c);
    }
  }

  /** What the table holds before and after a change. */
  lemma AtChange(tab: Table, history: seq<Change>, k: nat)
    requires k < |history| && Replay(tab, history).Some?
    ensures var e, before, after := history[k], Replay(tab, history[..k]), Replay(tab, history[..k + 1]);
            && before.Some? && e.target in before.value.cases && before.value.cases[e.target] == e.from
            && Admits(e.kind, e.from)
            && after.Some? && e.target in after.value.cases && after.value.cases[e.target] == Target(e.kind)
  {
    ReplayPrefix(tab, history, k);
    ReplayPrefix(tab, history, k + 1);
    assert Front(history[..k + 1]) == history[..k] && Last(history[..k + 1]) == history[k];
  }

  /** The last change of c before j, when there is one at or after i. */
  lemma LastChange(history: seq<Change>, c: CaseId, i: nat, j: nat) returns (k: nat)
    requires i < j <= |history| && history[i].target == c
    ensures i <= k < j && history[k].target == c && forall m | k < m < j :: history[m].target != c
  {
    k := j - 1;
    while history[k].target != c
      invariant i <= k < j && forall m | k < m < j :: history[m].target != c
      decreases k
    {
      k := k - 1;
    }
  }

  /** At most one success per stay: between two successful requests for the same case, some other
      writer put the case back into a status the second request admits, and it was still there. */
  lemma OneStartPerStay(cases: map<CaseId, Status>, s: State, c: CaseId, i: nat, j: nat) returns (k: nat)
    requires Reachable(cases, s) && i < j < |s.history|
    requires StartOf(s.history[i], c) && StartOf(s.history[j], c)
    ensures i < k < j && s.history[k].target == c && s.history[k].kind.Writer?
    ensures Admits(s.history[j].kind, s.history[k].kind.target) && s.history[j].from == s.history[k].kind.target
    ensures forall m | k < m < j :: s.history[m].target != c
  {
    var h, tab := s.history, Table(cases, []);
    SerializesInCommitOrder(cases, s);
    k := LastChange(h, c, i, j);
    AtChange(tab, h, k);
    AtChange(tab, h, j);
    StatusStands(tab, h, k + 1, j, c);
  }

  // ---- the statuses by name ----

  /** The request may start a case of this status; another writer may change any. */
  predicate MayFlip(k: Kind, s: Status) {
    match k
    case Process => s == Pending || s == ReadyForReview || s == FailedRetryable
    case Restart => s == Failed || s == FailedRetryable || s == Escalated
    case Writer(_) => true
  }

  /** On every run, every committed start was made from one of the three statuses its endpoint admits. */
  lemma StartedFrom(cases: map<CaseId, Status>, s: State, i: nat)
    requires Reachable(cases, s) && i < |s.history|
    ensures MayFlip(s.history[i].kind, s.history[i].from)
  {
    SerializesInCommitOrder(cases, s);
    AtChange(Table(cases, []), s.history, i);
  }

  /** A flip that gets the row lock goes through exactly when the committed status is one of those, and
      then notes it and holds the lock; otherwise the request ends with nothing changed. */
  lemma FlipIff(s: State, t: TxId)
    requires Enabled(s, Flip(t))
    ensures var x, e := s.txs[t], Act(s, Flip(t));
            && e.cases == s.cases && e.jobs == s.jobs && e.history == s.history
            && (if MayFlip(x.kind, s.cases[x.target])
                then t in e.txs && e.txs[t].phase == Flipped(s.cases[x.target]) && x.target in e.holder && e.holder[x.target] == t
                else t !in e.txs && e.holder == s.holder)
  {
  }

  /** On every run, a case has the status its last committed change gave it: processing, after a start. */
  lemma StatusIsLastChange(cases: map<CaseId, Status>, s: State, c: CaseId, k: nat)
    requires Reachable(cases, s) && k < |s.history| && s.history[k].target == c
    requires forall m | k < m < |s.history| :: s.history[m].target != c
    ensures c in s.cases
    ensures s.cases[c] == if s.history[k].kind.Writer? then s.history[k].kind.target else Processing
  {
    var h, tab := s.history, Table(cases, []);
    SerializesInCommitOrder(cases, s);
    AtChange(tab, h, k);
    assert h[..|h|] == h;
    StatusStands(tab, h, k + 1, |h|, c);
  }

  /** And the status it had at first, if there was none. */
  lemma StatusUntouched(cases: map<CaseId, Status>, s: State, c: CaseId)
    requires Reachable(cases, s) && c in cases && forall m | 0 <= m < |s.history| :: s.history[m].target != c
    ensures c in s.cases && s.cases[c] == cases[c]
  {
    var h, tab := s.history, Table(cases, []);
    SerializesInCommitOrder(cases, s);
    assert h[..|h|] == h && h[..0] == [];
    StatusStands(tab, h, 0, |h|, c);
  }
}
