/**
 The checkpoint store: one row per (case, run), written by an upsert that is retried on transient
 errors, read back with version and shape checks. Whether a failed attempt took effect is not known
 to the writer; each attempt's outcome is a parameter. Writes of one key come one after another.
 */
module PipelineState {
  import opened Sequences
  import opened Wrappers

  const MAX_RETRIES: nat := 3
  const READABLE: set<int> := {2, 3}

  datatype Key = Key(caseId: string, runId: string)

  /** A case state: its version stamp, and everything else. */
  datatype CaseState = CaseState(schemaVersion: int, content: string)

  /** The version field as decoded from JSON; a list or object cannot be looked up in a set. */
  datatype Version = Number(n: int) | OtherScalar | Container

  /** The stored JSON value, as far as the reader looks at it: `state` is None when the object fails
      validation. */
  datatype Stored =
    | Undecodable
    | NotObject
    | Object(version: Option<Version>, state: Option<CaseState>)

  datatype Row = Row(agent: string, stored: Stored)

  type Rows = map<Key, Row>

  function Serialize(s: CaseState): Stored { Object(Some(Number(s.schemaVersion)), Some(s)) }

  // ---- writing ----

  datatype Outcome =
    | Done
    | Transient(applied: bool)      // OperationalError or another driver error, before or after the commit took effect
    | Integrity
    | Unknown(applied: bool)
    | Cancelled(applied: bool)      // CancelledError, which no handler catches

  datatype Reply = Returned | IntegrityRaised | CancelRaised

  predicate Applied(o: Outcome) {
    o.Done? || (!o.Integrity? && o.applied)
  }

  function Attempted(rows: Rows, key: Key, row: Row, o: Outcome): Rows {
    if Applied(o) then rows[key := row] else rows
  }

  function ReplyTo(o: Outcome): Reply {
    if o.Integrity? then IntegrityRaised else if o.Cancelled? then CancelRaised else Returned
  }

  /** The retry loop from its a-th attempt on: the table it leaves, its reply, the attempts made. */
  function PersistFrom(rows: Rows, key: Key, row: Row, outcome: nat -> Outcome, a: nat): (Rows, Reply, nat)
    requires 1 <= a <= MAX_RETRIES
    decreases MAX_RETRIES - a
  {
    var r := Attempted(rows, key, row, outcome(a));
    if outcome(a).Transient? && a < MAX_RETRIES then PersistFrom(r, key, row, outcome, a + 1)
    else (r, ReplyTo(outcome(a)), a)
  }

  // ---- reading ----

  datatype LoadResult = NoCheckpoint | Loaded(state: CaseState) | SchemaMismatch | Corrupt | TypeErrorRaised

  function Decode(s: Stored): LoadResult {
    match s
    case Undecodable => Corrupt
    case NotObject => Corrupt
    case Object(version, state) =>
      if version.None? then Corrupt
      else if version.value.Container? then TypeErrorRaised
      else if version.value.OtherScalar? || version.value.n !in READABLE then SchemaMismatch
      else if state.None? then Corrupt
      else Loaded(state.value)
  }

  function Load(rows: Rows, key: Key): LoadResult {
    if key in rows then Decode(rows[key].stored) else NoCheckpoint
  }

  class CheckpointTable {
    var rows: Rows

    constructor ()
      ensures rows == map[]
    {
      rows := map[];
    }

    method PersistCaseState(key: Key, agent: string, state: CaseState, outcome: nat -> Outcome)
      returns (reply: Reply, attempts: nat)
      modifies this
      ensures (rows, reply, attempts) == PersistFrom(old(rows), key, Row(agent, Serialize(state)), outcome, 1)
    {
      var row := Row(agent, Serialize(state));
      attempts := 1;
      while true
        invariant 1 <= attempts <= MAX_RETRIES
        invariant PersistFrom(old(rows), key, row, outcome, 1) == PersistFrom(rows, key, row, outcome, attempts)
        decreases MAX_RETRIES - attempts
      {
        match outcome(attempts) {
          case Done =>
            rows := rows[key := row];
            return Returned, attempts;
          case Integrity =>
            return IntegrityRaised, attempts;
          case Transient(applied) =>
            if applied { rows := rows[key := row]; }
            if attempts == MAX_RETRIES { return Returned, attempts; }
            attempts := attempts + 1;
          case Unknown(applied) =>
            if applied { rows := rows[key := row]; }
            return Returned, attempts;
          case Cancelled(applied) =>
            if applied { rows := rows[key := row]; }
            return CancelRaised, attempts;
        }
      }
    }

    method LoadCaseState(key: Key) returns (r: LoadResult)
      ensures r == Load(rows, key)
    {
      if key !in rows { return NoCheckpoint; }
      match rows[key].stored {
        case Undecodable => return Corrupt;
        case NotObject => return Corrupt;
        case Object(version, state) =>
          if version == None { return Corrupt; }
          match version.value {
            case Container => return TypeErrorRaised;
            case OtherScalar => return SchemaMismatch;
            case Number(n) =>
              if n !in READABLE { return SchemaMismatch; }
              if state == None { return Corrupt; }
              return Loaded(state.value);
          }
      }
    }
  }

  // ---- one write ----

  /** Some attempt from `a` to the last one made took effect. */
  predicate TookEffect(outcome: nat -> Outcome, a: nat, last: nat) {
    exists k :: a <= k <= last && Applied(outcome(k))
  }

  /** The attempts run from `a` to `last`: all before the last failed transiently, and the last either
      did not, or was the third. */
  predicate AttemptsRun(outcome: nat -> Outcome, a: nat, last: nat) {
    && a <= last <= MAX_RETRIES
    && (forall k | a <= k < last :: outcome(k).Transient?)
    && (!outcome(last).Transient? || last == MAX_RETRIES)
  }

  lemma {:induction false} PersistFromOutcome(rows: Rows, key: Key, row: Row, outcome: nat -> Outcome, a: nat)
    requires 1 <= a <= MAX_RETRIES
    ensures var (r, reply, last) := PersistFrom(rows, key, row, outcome, a);
            && AttemptsRun(outcome, a, last) && reply == ReplyTo(outcome(last))
            && r == if TookEffect(outcome, a, last) then rows[key := row] else rows
    decreases MAX_RETRIES - a
  {
    if outcome(a).Transient? && a < MAX_RETRIES {
      var m := Attempted(rows, key, row, outcome(a));
      PersistFromOutcome(m, key, row, outcome, a + 1);
      var last := PersistFrom(rows, key, row, outcome, a).2;
      assert TookEffect(outcome, a, last) <==> Applied(outcome(a)) || TookEffect(outcome, a + 1, last);
    }
  }

  /** The attempt stored the row, whatever the writer was told. */
  predicate Stores(o: Outcome) {
    match o
    case Done => true
    case Integrity => false
    case Transient(applied) => applied
    case Unknown(applied) => applied
    case Cancelled(applied) => applied
  }

  /** For every sequence of outcomes: at most three attempts, one more only after a transient error; no
      other key touched, the key at its old or its new row, and at the new one exactly when some attempt
      made took effect. An exception says nothing about that: it is raised only for the last attempt. */
  lemma PersistOutcome(rows: Rows, key: Key, row: Row, outcome: nat -> Outcome)
    ensures var (r, reply, last) := PersistFrom(rows, key, row, outcome, 1);
            && 1 <= last <= 3 && (forall k | 1 <= k < last :: outcome(k).Transient?)
            && (outcome(last).Transient? ==> last == 3)
            && r == (if exists k :: 1 <= k <= last && Stores(outcome(k)) then rows[key := row] else rows)
            && (forall k | k != key :: (k in r <==> k in rows) && (k in r ==> r[k] == rows[k]))
            && reply == (if outcome(last).Integrity? then IntegrityRaised
                         else if outcome(last).Cancelled? then CancelRaised else Returned)
  {
    PersistFromOutcome(rows, key, row, outcome, 1);
    var last := PersistFrom(rows, key, row, outcome, 1).2;
    forall k: nat ensures Applied(outcome(k)) <==> Stores(outcome(k)) {}
    assert TookEffect(outcome, 1, last) <==> exists k :: 1 <= k <= last && Stores(outcome(k));
  }

  /** A raised IntegrityError does not mean the new state is absent: an earlier attempt of the same
      call may have committed it. */
  lemma RaisedYetStored(rows: Rows, key: Key, row: Row)
    ensures var outcome := (a: nat) => if a == 1 then Transient(true) else Integrity;
            PersistFrom(rows, key, row, outcome, 1) == (rows[key := row], IntegrityRaised, 2)
  {
    var outcome := (a: nat) => if a == 1 then Transient(true) else Integrity;
    PersistFromOutcome(rows, key, row, outcome, 1);
    assert Applied(outcome(1));
  }

  // ---- histories of writes ----

  datatype Call = Call(key: Key, agent: string, state: CaseState, outcome: nat -> Outcome)

  function Persisted(rows: Rows, c: Call): Rows {
    PersistFrom(rows, c.key, Row(c.agent, Serialize(c.state)), c.outcome, 1).0
  }

  function After(rows: Rows, calls: seq<Call>): Rows {
    if calls == [] then rows else Persisted(After(rows, Front(calls)), Last(calls))
  }

  /** Some attempt of the call took effect. */
  predicate Effective(c: Call) {
    exists k: nat :: 1 <= k <= MAX_RETRIES && AttemptsRun(c.outcome, 1, k) && TookEffect(c.outcome, 1, k)
  }

  /** Call i is the last for its key that took effect. */
  predicate LastEffective(calls: seq<Call>, key: Key, i: nat) {
    && i < |calls| && calls[i].key == key && Effective(calls[i])
    && forall j | i < j < |calls| :: calls[j].key != key || !Effective(calls[j])
  }

  lemma PersistedIff(rows: Rows, c: Call)
    ensures Persisted(rows, c) == if Effective(c) then rows[c.key := Row(c.agent, Serialize(c.state))] else rows
  {
    var row := Row(c.agent, Serialize(c.state));
    PersistFromOutcome(rows, c.key, row, c.outcome, 1);
    var last := PersistFrom(rows, c.key, row, c.outcome, 1).2;
    if Effective(c) {
      var k: nat :| 1 <= k <= MAX_RETRIES && AttemptsRun(c.outcome, 1, k) && TookEffect(c.outcome, 1, k);
    }
  }

  lemma {:induction false} RowIsLastEffective(rows: Rows, calls: seq<Call>, key: Key, i: nat)
    requires LastEffective(calls, key, i)
    ensures key in After(rows, calls) && After(rows, calls)[key] == Row(calls[i].agent, Serialize(calls[i].state))
    decreases |calls|
  {
    var c := Last(calls);
    PersistedIff(After(rows, Front(calls)), c);
    if i < |calls| - 1 {
      assert Front(calls)[i] == calls[i];
      assert forall j | 0 <= j < |calls| - 1 :: Front(calls)[j] == calls[j];
      RowIsLastEffective(rows, Front(calls), key, i);
    }
  }

  lemma {:induction false} NoEffectNoChange(rows: Rows, calls: seq<Call>, key: Key)
    requires forall i | 0 <= i < |calls| :: calls[i].key != key || !Effective(calls[i])
    ensures (key in After(rows, calls) <==> key in rows)
    ensures key in rows ==> After(rows, calls)[key] == rows[key]
    decreases |calls|
  {
    if calls != [] {
      PersistedIff(After(rows, Front(calls)), Last(calls));
      assert forall j | 0 <= j < |calls| - 1 :: Front(calls)[j] == calls[j];
      NoEffectNoChange(rows, Front(calls), key);
    }
  }

  /** Over any history of calls, whatever their keys and outcomes, a load finds the state of the last
      call for its key that took effect, and returns it exactly when its version is 2 or 3. */
  lemma LoadReturnsLastEffective(rows: Rows, calls: seq<Call>, key: Key, i: nat)
    requires LastEffective(calls, key, i)
    ensures Load(After(rows, calls), key)
            == if calls[i].state.schemaVersion == 2 || calls[i].state.schemaVersion == 3
               then Loaded(calls[i].state) else SchemaMismatch
  {
    RowIsLastEffective(rows, calls, key, i);
  }

  /** When none took effect, a load finds what was there before. */
  lemma LoadUnaffected(rows: Rows, calls: seq<Call>, key: Key)
    requires forall i | 0 <= i < |calls| :: !LastEffective(calls, key, i)
    ensures Load(After(rows, calls), key) == Load(rows, key)
  {
    if i :| 0 <= i < |calls| && calls[i].key == key && Effective(calls[i]) {
      var k := LatestFrom(calls, key, i);
    }
    NoEffectNoChange(rows, calls, key);
  }

  lemma LatestFrom(calls: seq<Call>, key: Key, i: nat) returns (k: nat)
    requires i < |calls| && calls[i].key == key && Effective(calls[i])
    ensures LastEffective(calls, key, k)
  {
    k := |calls| - 1;
    while calls[k].key != key || !Effective(calls[k])
      invariant i <= k < |calls|
      invariant forall j | k < j < |calls| :: calls[j].key != key || !Effective(calls[j])
      decreases k
    {
      k := k - 1;
    }
  }
}
