/**
 Writing a terminal case state back to the relational tables: in one transaction the seven child
 tables of the case are emptied and refilled from the state, the audit log is appended to, and the
 case row is updated; then the state is checkpointed. Agent output is loosely typed, and reading it
 can raise; so can the database. Here saves are made one after another.
 */
module PersistResults {
  import opened PipelineState
  import opened Sequences
  import opened Text
  import opened Wrappers

  type CaseId = string

  datatype Table = Evidence | Fact | Witness | LegalRule | Precedent | Argument | HearingAnalysis

  const TABLES: seq<Table> := [Evidence, Fact, Witness, LegalRule, Precedent, Argument, HearingAnalysis]

  /** How large a number is: Huge ones are finite, but a hundred times one is not; Beyond is an integer no
      float can hold; the rest of the unusual are NaN and the infinities. */
  datatype Size = Ordinary | Huge | Beyond | NonFinite

  /** A decoded value: missing or null, text, a number (booleans count as such), a list, an object. */
  datatype Value =
    | Absent
    | Txt(text: string)
    | Number(zero: bool, size: Size)
    | List(empty: bool)
    | Object(fields: map<string, Value>)

  type Fields = map<string, Value>

  datatype Item = NotDict | Dict(fields: Fields)

  /** One side of the arguments: its key and its value, None when that is not a list. */
  datatype Group = Group(side: string, items: Option<seq<Item>>)

  datatype Results = Results(
    status: string, runId: string,
    evidence: seq<Item>, facts: seq<Item>, witnesses: seq<Item>, statements: seq<Item>,
    legalRules: seq<Item>, precedents: seq<Item>, arguments: seq<Group>, hearing: Option<Fields>,
    auditLog: seq<string>, complexity: Value, route: Value, jurisdictionValid: Option<bool>,
    full: CaseState)

  /** A child row: the side of an argument, its key text, and the fields its other columns are taken from. */
  datatype Child = Child(table: Table, owner: CaseId, side: string, title: string, fields: Fields)

  datatype AuditRow = AuditRow(owner: CaseId, entry: string)

  datatype CaseRow = CaseRow(status: string, latestRunId: Option<string>, gateState: Option<string>,
                             complexity: Option<string>, route: Option<string>, jurisdictionValid: Option<bool>)

  datatype Db = Db(children: seq<Child>, audit: seq<AuditRow>, cases: map<CaseId, CaseRow>)

  // ---- one item; None: reading it raised ----

  function Get(fields: Fields, key: string): Value {
    if key in fields then fields[key] else Absent
  }

  predicate Truthy(v: Value) {
    match v
    case Absent => false
    case Txt(t) => t != ""
    case Number(zero, _) => !zero
    case List(empty) => !empty
    case Object(fields) => fields != map[]
  }

  /** Lists and objects cannot be looked up in a dictionary or a set. */
  predicate Unhashable(v: Value) { v.List? || v.Object? }

  /** The witness score: a hundred times the value inside a credibility object, rounded, or else the flat
      score as an integer. Neither works on NaN or an infinity, nor the first on an overflow. */
  predicate ScoreRaises(fields: Fields) {
    var nested, flat := Get(fields, "credibility"), Get(fields, "credibility_score");
    if nested.Object? && Get(nested.fields, "value").Number? then !Get(nested.fields, "value").size.Ordinary?
    else flat.Number? && flat.size.NonFinite?
  }

  /** Turning a number into a float. */
  predicate FloatRaises(v: Value) { v.Number? && v.size.Beyond? }

  /** Computing the other columns of a row raises. */
  predicate ColumnsRaise(t: Table, fields: Fields) {
    match t
    case Evidence => Unhashable(Get(fields, "strength"))
    case Fact => Unhashable(Get(fields, "confidence"))
    case Witness => ScoreRaises(fields)
    case LegalRule => FloatRaises(Get(fields, "relevance_score"))
    case Precedent => FloatRaises(Get(fields, "similarity_score"))
    case _ => false
  }

  /** The first truthy value among the keys, stripped; only text can be stripped. */
  function FirstText(fields: Fields, keys: seq<string>): Option<string> {
    if keys == [] then Some("")
    else
      var v := Get(fields, keys[0]);
      if !Truthy(v) then FirstText(fields, keys[1..])
      else if v.Txt? then Some(Strip(v.text)) else None
  }

  function LabelKeys(t: Table): seq<string> {
    match t
    case Fact => ["description"]
    case Witness => ["name"]
    case LegalRule => ["statute_name", "citation", "name"]
    case Precedent => ["citation", "case_name"]
    case _ => ["legal_basis", "text", "claim"]
  }

  const EVIDENCE_TYPES: set<string> := {"documentary", "testimonial", "physical", "digital", "expert"}
  const ARGUMENT_SIDES: set<string> := {"prosecution", "defense", "claimant", "respondent"}

  function EvidenceAlias(t: string): string {
    if t == "document" || t == "other" then "documentary" else if t == "testimony" then "testimonial" else t
  }

  function SideAlias(side: string): string {
    if side == "claimant" then "prosecution" else if side == "respondent" then "defense" else side
  }

  /** The rows of one item: none or one. */
  function ItemRows(t: Table, c: CaseId, side: string, item: Item): Option<seq<Child>> {
    if item.NotDict? then Some([])
    else if t == Evidence then
      var kind := Get(item.fields, "evidence_type");
      if Unhashable(kind) then None
      else if !kind.Txt? || EvidenceAlias(kind.text) !in EVIDENCE_TYPES then Some([])
      else if ColumnsRaise(t, item.fields) then None
      else Some([Child(t, c, side, EvidenceAlias(kind.text), item.fields)])
    else
      var title := FirstText(item.fields, LabelKeys(t));
      if title.None? then None
      else if title.value == "" then Some([])
      else if ColumnsRaise(t, item.fields) then None
      else Some([Child(t, c, side, title.value, item.fields)])
  }

  function Join(a: Option<seq<Child>>, b: Option<seq<Child>>): Option<seq<Child>> {
    if a.Some? && b.Some? then Some(a.value + b.value) else None
  }

  function ItemsRows(t: Table, c: CaseId, side: string, items: seq<Item>): Option<seq<Child>> {
    if items == [] then Some([]) else Join(ItemsRows(t, c, side, Front(items)), ItemRows(t, c, side, Last(items)))
  }

  function GroupRows(c: CaseId, g: Group): Option<seq<Child>> {
    if g.items.None? || SideAlias(g.side) !in ARGUMENT_SIDES then Some([]) else ItemsRows(Argument, c, SideAlias(g.side), g.items.value)
  }

  function GroupsRows(c: CaseId, groups: seq<Group>): Option<seq<Child>> {
    if groups == [] then Some([]) else Join(GroupsRows(c, Front(groups)), GroupRows(c, Last(groups)))
  }

  /** What a table should hold of a state. */
  function Projection(t: Table, c: CaseId, r: Results): Option<seq<Child>> {
    match t
    case Evidence => ItemsRows(t, c, "", r.evidence)
    case Fact => ItemsRows(t, c, "", r.facts)
    case Witness => ItemsRows(t, c, "", if r.witnesses != [] then r.witnesses else r.statements)
    case LegalRule => ItemsRows(t, c, "", r.legalRules)
    case Precedent => ItemsRows(t, c, "", r.precedents)
    case Argument => GroupsRows(c, r.arguments)
    case HearingAnalysis => Some(if r.hearing.Some? then [Child(t, c, "", "", r.hearing.value)] else [])
  }

  function Projections(c: CaseId, r: Results, tables: seq<Table>): Option<seq<Child>> {
    if tables == [] then Some([]) else Join(Projections(c, r, Front(tables)), Projection(Last(tables), c, r))
  }

  // ---- the case row ----

  const CASE_STATUSES: set<string> := {
    "draft", "extracting", "awaiting_intake_confirmation", "pending", "processing", "ready_for_review",
    "escalated", "closed", "failed", "failed_retryable", "awaiting_review_gate1", "awaiting_review_gate2",
    "awaiting_review_gate3", "awaiting_review_gate4"}

  function Choose(v: Value, allowed: set<string>, was: Option<string>): Option<string> {
    if v.Txt? && v.text in allowed then Some(v.text) else was
  }

  /** The updated cases; None when the metadata hold an unhashable complexity or route. A missing case
      is skipped. */
  function UpdatedCases(cases: map<CaseId, CaseRow>, c: CaseId, r: Results, gate: Option<string>): Option<map<CaseId, CaseRow>> {
    if c !in cases then Some(cases)
    else if Unhashable(r.complexity) || Unhashable(r.route) then None
    else
      var row := cases[c];
      Some(cases[c := CaseRow(
        if r.status in CASE_STATUSES then r.status else "processing",
        if r.runId != "" then Some(r.runId) else row.latestRunId,
        if gate.Some? then gate else row.gateState,
        Choose(r.complexity, {"low", "medium", "high"}, row.complexity),
        Choose(r.route, {"proceed_automated", "proceed_with_review", "escalate_human"}, row.route),
        if r.jurisdictionValid.Some? then r.jurisdictionValid else row.jurisdictionValid)])
  }

  // ---- one save ----

  /** The rows of c in the given tables are gone. */
  function Without(children: seq<Child>, tables: seq<Table>, c: CaseId): seq<Child> {
    if children == [] then []
    else if Last(children).owner == c && Last(children).table in tables then Without(Front(children), tables, c)
    else Without(Front(children), tables, c) + [Last(children)]
  }

  function AuditRows(c: CaseId, log: seq<string>): seq<AuditRow> {
    seq(|log|, i requires 0 <= i < |log| => AuditRow(c, log[i]))
  }

  /** The database a save means to leave; None when reading the state raises. */
  function Intended(db: Db, c: CaseId, r: Results, gate: Option<string>): Option<Db> {
    var rows, cases := Projections(c, r, TABLES), UpdatedCases(db.cases, c, r, gate);
    if rows.None? || cases.None? then None
    else Some(Db(Without(db.children, TABLES, c) + rows.value, db.audit + AuditRows(c, r.auditLog), cases.value))
  }

  /** Where the database fails the save; a commit may fail after it took effect. */
  datatype Fault = AtDelete | AtFlush | AtCommit(applied: bool)

  predicate Committed(db: Db, c: CaseId, r: Results, gate: Option<string>, fault: Option<Fault>) {
    Intended(db, c, r, gate).Some? && (fault.None? || fault == Some(AtCommit(true)))
  }

  function Save(db: Db, c: CaseId, r: Results, gate: Option<string>, fault: Option<Fault>): Db {
    if Committed(db, c, r, gate, fault) then Intended(db, c, r, gate).value else db
  }

  datatype SaveReply = Saved | SaveRaised | CheckpointRaised

  class Session {
    var committed: Db
    var working: Db             // what the open transaction sees

    constructor (db: Db)
      ensures committed == working == db
    {
      committed, working := db, db;
    }

    method DeleteRows(t: Table, c: CaseId)
      modifies `working
      ensures working == old(working).(children := Without(old(working).children, [t], c))
    {
      var kept: seq<Child> := [];
      var all := working.children;
      var i := 0;
      while i < |all|
        invariant i <= |all| && kept == Without(all[..i], [t], c) && working == old(working)
      {
        assert Front(all[..i + 1]) == all[..i];
        if !(all[i].owner == c && all[i].table == t) {
          kept := kept + [all[i]];
        }
        i := i + 1;
      }
      assert all[..i] == all;
      working := working.(children := kept);
    }

    method ClearChildRows(c: CaseId)
      modifies `working
      ensures working == old(working).(children := Without(old(working).children, TABLES, c))
    {
      var i := 0;
      WithoutNone(working.children, TABLES[..0], c);
      while i < |TABLES|
        invariant i <= |TABLES|
        invariant working == old(working).(children := Without(old(working).children, TABLES[..i], c))
      {
        DeleteRows(TABLES[i], c);
        WithoutTwice(old(working).children, TABLES[..i], TABLES[i], c);
        assert TABLES[..i + 1] == TABLES[..i] + [TABLES[i]];
        i := i + 1;
      }
      assert TABLES[..i] == TABLES;
    }

    method InsertItems(t: Table, c: CaseId, side: string, items: seq<Item>) returns (raised: bool)
      modifies `working
      ensures raised <==> ItemsRows(t, c, side, items).None?
      ensures !raised ==> working == old(working).(children := old(working).children + ItemsRows(t, c, side, items).value)
    {
      var i := 0;
      assert working.children + [] == working.children;
      while i < |items|
        invariant i <= |items| && Added(old(working), working, ItemsRows(t, c, side, items[..i]))
      {
        ItemsRowsNext(t, c, side, items, i);
        var rows := ItemRows(t, c, side, items[i]);
        if rows.None? {
          NoneStays(t, c, side, items, i + 1);
          return true;
        }
        AddedMore(old(working), working, ItemsRows(t, c, side, items[..i]), rows.value);
        working := working.(children := working.children + rows.value);
        i := i + 1;
      }
      assert items[..i] == items;
      return false;
    }

    method InsertArguments(c: CaseId, groups: seq<Group>) returns (raised: bool)
      modifies `working
      ensures raised <==> GroupsRows(c, groups).None?
      ensures !raised ==> working == old(working).(children := old(working).children + GroupsRows(c, groups).value)
    {
      var i := 0;
      assert working.children + [] == working.children;
      while i < |groups|
        invariant i <= |groups| && Added(old(working), working, GroupsRows(c, groups[..i]))
      {
        GroupsRowsNext(c, groups, i);
        ghost var before := working;
        var g := groups[i];
        if g.items.Some? && SideAlias(g.side) in ARGUMENT_SIDES {
          raised := InsertItems(Argument, c, SideAlias(g.side), g.items.value);
          if raised {
            NoneStaysInGroups(c, groups, i + 1);
            return;
          }
        }
        AddedMore(old(working), before, GroupsRows(c, groups[..i]), GroupRows(c, g).value);
        assert before.children + [] == before.children;
        i := i + 1;
      }
      assert groups[..i] == groups;
      return false;
    }

    method InsertTable(t: Table, c: CaseId, r: Results) returns (raised: bool)
      modifies `working
      ensures raised <==> Projection(t, c, r).None?
      ensures !raised ==> working == old(working).(children := old(working).children + Projection(t, c, r).value)
    {
      match t {
        case Evidence => raised := InsertItems(t, c, "", r.evidence);
        case Fact => raised := InsertItems(t, c, "", r.facts);
        case Witness => raised := InsertItems(t, c, "", if r.witnesses != [] then r.witnesses else r.statements);
        case LegalRule => raised := InsertItems(t, c, "", r.legalRules);
        case Precedent => raised := InsertItems(t, c, "", r.precedents);
        case Argument => raised := InsertArguments(c, r.arguments);
        case HearingAnalysis =>
          raised := false;
          if r.hearing.Some? {
            working := working.(children := working.children + [Child(t, c, "", "", r.hearing.value)]);
          }
      }
    }

    /** The inserters run in table order. */
    method InsertAll(c: CaseId, r: Results) returns (raised: bool)
      modifies `working
      ensures raised <==> Projections(c, r, TABLES).None?
      ensures !raised ==> working == old(working).(children := old(working).children + Projections(c, r, TABLES).value)
    {
      var i := 0;
      assert working.children + [] == working.children;
      while i < |TABLES|
        invariant i <= |TABLES| && Added(old(working), working, Projections(c, r, TABLES[..i]))
      {
        ProjectionsNext(c, r, TABLES, i);
        raised := InsertTable(TABLES[i], c, r);
        if raised {
          NoneStaysInTables(c, r, TABLES, i + 1);
          return;
        }
        i := i + 1;
      }
      assert TABLES[..i] == TABLES;
      return false;
    }

    method InsertAuditLog(c: CaseId, log: seq<string>)
      modifies `working
      ensures working == old(working).(audit := old(working).audit + AuditRows(c, log))
    {
      var i := 0;
      while i < |log|
        invariant i <= |log| && working == old(working).(audit := old(working).audit + AuditRows(c, log)[..i])
      {
        working := working.(audit := working.audit + [AuditRow(c, log[i])]);
        i := i + 1;
      }
    }

    /** The body of the try block, up to the commit. */
    method Write(c: CaseId, r: Results, gate: Option<string>, fault: Option<Fault>) returns (raised: bool)
      modifies `working
      ensures raised <==> Intended(old(working), c, r, gate).None? || fault == Some(AtDelete) || fault == Some(AtFlush)
      ensures !raised ==> Some(working) == Intended(old(working), c, r, gate)
    {
      if fault == Some(AtDelete) { return true; }
      ClearChildRows(c);
      raised := InsertAll(c, r);
      if raised { return; }
      InsertAuditLog(c, r.auditLog);
      if fault == Some(AtFlush) { return true; }
      var cases := UpdatedCases(working.cases, c, r, gate);
      if cases.None? { return true; }
      working := working.(cases := cases.value);
      return false;
    }

    method PersistCaseResults(c: CaseId, r: Results, gate: Option<string>, fault: Option<Fault>,
                              checkpoints: CheckpointTable, outcome: nat -> Outcome)
      returns (reply: SaveReply)
      requires committed == working
      modifies this, checkpoints
      ensures committed == working == Save(old(committed), c, r, gate, fault)
      ensures reply == SaveRaised <==> fault.Some? || !Committed(old(committed), c, r, gate, fault)
      ensures reply == SaveRaised && fault != Some(AtCommit(true)) ==> committed == old(committed)
      ensures checkpoints.rows == if reply != SaveRaised && r.runId != "" then
                Persisted(old(checkpoints.rows), Call(Key(c, r.runId), "terminal", r.full, outcome))
              else old(checkpoints.rows)
    {
      var raised := Write(c, r, gate, fault);
      if !raised && fault.Some? && fault.value.AtCommit? {
        if fault.value.applied { committed := working; }
        raised := true;
      }
      if raised {
        working := committed;              // rollback
        return SaveRaised;
      }
      committed := working;
      reply := Saved;
      if r.runId != "" {
        var answer, attempts := checkpoints.PersistCaseState(Key(c, r.runId), "terminal", r.full, outcome);
        if answer != Returned { reply := CheckpointRaised; }
      }
    }
  }

  /** `after` is `before` with the rows added. */
  predicate Added(before: Db, after: Db, rows: Option<seq<Child>>) {
    rows.Some? && after == before.(children := before.children + rows.value)
  }

  lemma AddedMore(before: Db, after: Db, rows: Option<seq<Child>>, more: seq<Child>)
    requires Added(before, after, rows)
    ensures Added(before, after.(children := after.children + more), Join(rows, Some(more)))
  {
    assert before.children + (rows.value + more) == before.children + rows.value + more;
  }

  lemma ItemsRowsNext(t: Table, c: CaseId, side: string, items: seq<Item>, i: nat)
    requires i < |items|
    ensures ItemsRows(t, c, side, items[..i + 1]) == Join(ItemsRows(t, c, side, items[..i]), ItemRows(t, c, side, items[i]))
  {
    assert Front(items[..i + 1]) == items[..i];
  }

  lemma GroupsRowsNext(c: CaseId, groups: seq<Group>, i: nat)
    requires i < |groups|
    ensures GroupsRows(c, groups[..i + 1]) == Join(GroupsRows(c, groups[..i]), GroupRows(c, groups[i]))
  {
    assert Front(groups[..i + 1]) == groups[..i];
  }

  lemma ProjectionsNext(c: CaseId, r: Results, tables: seq<Table>, i: nat)
    requires i < |tables|
    ensures Projections(c, r, tables[..i + 1]) == Join(Projections(c, r, tables[..i]), Projection(tables[i], c, r))
  {
    assert Front(tables[..i + 1]) == tables[..i];
  }

  lemma {:induction false} NoneStays(t: Table, c: CaseId, side: string, items: seq<Item>, i: nat)
    requires i <= |items| && ItemsRows(t, c, side, items[..i]).None?
    ensures ItemsRows(t, c, side, items).None?
    decreases |items|
  {
    if i < |items| {
      assert Front(items)[..i] == items[..i];
      NoneStays(t, c, side, Front(items), i);
    } else {
      assert items[..i] == items;
    }
  }

  lemma {:induction false} NoneStaysInGroups(c: CaseId, groups: seq<Group>, i: nat)
    requires i <= |groups| && GroupsRows(c, groups[..i]).None?
    ensures GroupsRows(c, groups).None?
    decreases |groups|
  {
    if i < |groups| {
      assert Front(groups)[..i] == groups[..i];
      NoneStaysInGroups(c, Front(groups), i);
    } else {
      assert groups[..i] == groups;
    }
  }

  lemma {:induction false} NoneStaysInTables(c: CaseId, r: Results, tables: seq<Table>, i: nat)
    requires i <= |tables| && Projections(c, r, tables[..i]).None?
    ensures Projections(c, r, tables).None?
    decreases |tables|
  {
    if i < |tables| {
      assert Front(tables)[..i] == tables[..i];
      NoneStaysInTables(c, r, Front(tables), i);
    } else {
      assert tables[..i] == tables;
    }
  }

  lemma {:induction false} WithoutNone(children: seq<Child>, tables: seq<Table>, c: CaseId)
    requires |tables| == 0
    ensures Without(children, tables, c) == children
  {
    if children != [] {
      WithoutNone(Front(children), tables, c);
      assert Last(children).table !in tables;
      FrontAndLast(children);
    }
  }

  lemma {:induction false} WithoutTwice(children: seq<Child>, tables: seq<Table>, t: Table, c: CaseId)
    ensures Without(Without(children, tables, c), [t], c) == Without(children, tables + [t], c)
  {
    if children != [] {
      WithoutTwice(Front(children), tables, t, c);
      assert Last(children).table in tables + [t] <==> Last(children).table in tables || Last(children).table == t;
    }
  }

  // ---- what one save leaves ----

  /** The rows of a case in a table, in the order they were inserted. */
  function RowsOf(children: seq<Child>, t: Table, c: CaseId): seq<Child> {
    if children == [] then []
    else if Last(children).owner == c && Last(children).table == t then RowsOf(Front(children), t, c) + [Last(children)]
    else RowsOf(Front(children), t, c)
  }

  function AuditOf(audit: seq<AuditRow>, c: CaseId): seq<string> {
    if audit == [] then []
    else if Last(audit).owner == c then AuditOf(Front(audit), c) + [Last(audit).entry]
    else AuditOf(Front(audit), c)
  }

  lemma {:induction false} RowsOfSplit(a: seq<Child>, b: seq<Child>, t: Table, c: CaseId)
    ensures RowsOf(a + b, t, c) == RowsOf(a, t, c) + RowsOf(b, t, c)
  {
    if b == [] {
      assert a + b == a;
    } else {
      RowsOfSplit(a, Front(b), t, c);
      assert Front(a + b) == a + Front(b);
    }
  }

  lemma {:induction false} AuditOfSplit(a: seq<AuditRow>, b: seq<AuditRow>, c: CaseId)
    ensures AuditOf(a + b, c) == AuditOf(a, c) + AuditOf(b, c)
  {
    if b == [] {
      assert a + b == a;
    } else {
      AuditOfSplit(a, Front(b), c);
      assert Front(a + b) == a + Front(b);
    }
  }

  lemma {:induction false} AuditOfNew(c: CaseId, log: seq<string>, d: CaseId)
    ensures AuditOf(AuditRows(c, log), d) == if c == d then log else []
  {
    if log != [] {
      AuditOfNew(c, Front(log), d);
      assert Front(AuditRows(c, log)) == AuditRows(c, Front(log));
      assert log == Front(log) + [Last(log)];
    }
  }

  lemma {:induction false} WithoutClears(children: seq<Child>, c: CaseId, t: Table, d: CaseId)
    ensures RowsOf(Without(children, TABLES, c), t, d) == if c == d then [] else RowsOf(children, t, d)
  {
    if children != [] {
      WithoutClears(Front(children), c, t, d);
      var w := Without(Front(children), TABLES, c);
      assert Front(w + [Last(children)]) == w;
      EveryTable(Last(children).table);
    }
  }

  lemma EveryTable(t: Table)
    ensures t in TABLES
  {
    assert TABLES[0] == Evidence && TABLES[1] == Fact && TABLES[2] == Witness && TABLES[3] == LegalRule
           && TABLES[4] == Precedent && TABLES[5] == Argument && TABLES[6] == HearingAnalysis;
  }

  /** All the rows are of case c and table t. */
  predicate AllOf(rows: seq<Child>, t: Table, c: CaseId) {
    forall i | 0 <= i < |rows| :: rows[i].table == t && rows[i].owner == c
  }

  lemma {:induction false} ItemsRowsOwn(t: Table, c: CaseId, side: string, items: seq<Item>)
    ensures ItemsRows(t, c, side, items).Some? ==> AllOf(ItemsRows(t, c, side, items).value, t, c)
  {
    if items != [] {
      ItemsRowsOwn(t, c, side, Front(items));
    }
  }

  lemma {:induction false} GroupsRowsOwn(c: CaseId, groups: seq<Group>)
    ensures GroupsRows(c, groups).Some? ==> AllOf(GroupsRows(c, groups).value, Argument, c)
  {
    if groups != [] {
      GroupsRowsOwn(c, Front(groups));
      if Last(groups).items.Some? {
        ItemsRowsOwn(Argument, c, SideAlias(Last(groups).side), Last(groups).items.value);
      }
    }
  }

  lemma ProjectionOwn(t: Table, c: CaseId, r: Results)
    ensures Projection(t, c, r).Some? ==> AllOf(Projection(t, c, r).value, t, c)
  {
    match t {
      case Evidence => ItemsRowsOwn(t, c, "", r.evidence);
      case Fact => ItemsRowsOwn(t, c, "", r.facts);
      case Witness => ItemsRowsOwn(t, c, "", if r.witnesses != [] then r.witnesses else r.statements);
      case LegalRule => ItemsRowsOwn(t, c, "", r.legalRules);
      case Precedent => ItemsRowsOwn(t, c, "", r.precedents);
      case Argument => GroupsRowsOwn(c, r.arguments);
      case HearingAnalysis =>
    }
  }

  lemma {:induction false} RowsOfOwn(rows: seq<Child>, t: Table, c: CaseId, u: Table, d: CaseId)
    requires AllOf(rows, t, c)
    ensures RowsOf(rows, u, d) == if t == u && c == d then rows else []
  {
    if rows != [] {
      assert Last(rows) == rows[|rows| - 1];
      RowsOfOwn(Front(rows), t, c, u, d);
    }
  }

  predicate Distinct(tables: seq<Table>) {
    forall i, j | 0 <= i < j < |tables| :: tables[i] != tables[j]
  }

  /** The last table's projection, seen through table t. */
  lemma LastProjection(a: seq<Child>, u: Table, c: CaseId, r: Results, t: Table, d: CaseId)
    requires Projection(u, c, r).Some?
    ensures RowsOf(a + Projection(u, c, r).value, t, d)
            == if t == u && c == d then RowsOf(a, t, d) + Projection(u, c, r).value else RowsOf(a, t, d)
  {
    var rows := Projection(u, c, r).value;
    ProjectionOwn(u, c, r);
    RowsOfSplit(a, rows, t, d);
    RowsOfOwn(rows, u, c, t, d);
  }

  lemma {:induction false} NoRowsElsewhere(c: CaseId, r: Results, tables: seq<Table>, t: Table, d: CaseId)
    requires Projections(c, r, tables).Some? && (c != d || t !in tables)
    ensures RowsOf(Projections(c, r, tables).value, t, d) == []
  {
    if tables != [] {
      assert tables == Front(tables) + [Last(tables)];
      NoRowsElsewhere(c, r, Front(tables), t, d);
      LastProjection(Projections(c, r, Front(tables)).value, Last(tables), c, r, t, d);
    }
  }

  lemma DistinctFront(tables: seq<Table>)
    requires Distinct(tables) && tables != []
    ensures Distinct(Front(tables)) && Last(tables) !in Front(tables)
    ensures forall t :: t in tables <==> t in Front(tables) || t == Last(tables)
  {
    var f := Front(tables);
    assert forall i | 0 <= i < |f| :: f[i] == tables[i];
    assert tables == f + [Last(tables)];
  }

  /** Distinct tables do not mix: each finds its own projection in the concatenation. */
  lemma {:induction false} RowsOfProjections(c: CaseId, r: Results, tables: seq<Table>, t: Table)
    requires Distinct(tables) && Projections(c, r, tables).Some? && t in tables
    ensures Projection(t, c, r).Some?
    ensures RowsOf(Projections(c, r, tables).value, t, c) == Projection(t, c, r).value
  {
    var f, u := Front(tables), Last(tables);
    DistinctFront(tables);
    LastProjection(Projections(c, r, f).value, u, c, r, t, c);
    if t == u {
      NoRowsElsewhere(c, r, f, t, c);
    } else {
      RowsOfProjections(c, r, f, t);
    }
  }

  lemma RefilledTables(kept: seq<Child>, c: CaseId, r: Results, tables: seq<Table>, t: Table, d: CaseId)
    requires Distinct(tables) && Projections(c, r, tables).Some? && t in tables
    ensures Projection(t, c, r).Some?
    ensures RowsOf(kept + Projections(c, r, tables).value, t, d)
            == if c == d then RowsOf(kept, t, d) + Projection(t, c, r).value else RowsOf(kept, t, d)
  {
    RowsOfSplit(kept, Projections(c, r, tables).value, t, d);
    RowsOfProjections(c, r, tables, t);
    if c != d {
      NoRowsElsewhere(c, r, tables, t, d);
    }
  }

  lemma TablesDistinct()
    ensures Distinct(TABLES)
  {
  }

  lemma ChildrenReplaced(children: seq<Child>, c: CaseId, r: Results, t: Table, d: CaseId)
    requires Projections(c, r, TABLES).Some?
    ensures Projection(t, c, r).Some?
    ensures RowsOf(Without(children, TABLES, c) + Projections(c, r, TABLES).value, t, d)
            == if c == d then Projection(t, c, r).value else RowsOf(children, t, d)
  {
    WithoutClears(children, c, t, d);
    EveryTable(t);
    TablesDistinct();
    RefilledTables(Without(children, TABLES, c), c, r, TABLES, t, d);
  }

  lemma AuditAppended(audit: seq<AuditRow>, c: CaseId, log: seq<string>, d: CaseId)
    ensures AuditOf(audit + AuditRows(c, log), d) == if c == d then AuditOf(audit, d) + log else AuditOf(audit, d)
  {
    AuditOfSplit(audit, AuditRows(c, log), d);
    AuditOfNew(c, log, d);
  }

  /** A committed save leaves, in every table, exactly the projection of its state for its case,
      whatever was there; every other case keeps its rows; the log is appended. */
  lemma SaveReplaces(db: Db, c: CaseId, r: Results, gate: Option<string>, fault: Option<Fault>, t: Table, d: CaseId)
    requires Committed(db, c, r, gate, fault)
    ensures var e := Save(db, c, r, gate, fault);
            && (c == d ==> Some(RowsOf(e.children, t, d)) == Projection(t, c, r))
            && (c != d ==> RowsOf(e.children, t, d) == RowsOf(db.children, t, d))
            && AuditOf(e.audit, d) == if c == d then AuditOf(db.audit, d) + r.auditLog else AuditOf(db.audit, d)
  {
    ChildrenReplaced(db.children, c, r, t, d);
    AuditAppended(db.audit, c, r.auditLog, d);
  }

  // ---- histories ----

  datatype SaveCall = SaveCall(target: CaseId, results: Results, gate: Option<string>, fault: Option<Fault>)

  predicate Effects(db: Db, s: SaveCall) { Committed(db, s.target, s.results, s.gate, s.fault) }

  function AfterSaves(db: Db, saves: seq<SaveCall>): Db {
    if saves == [] then db
    else
      var s := Last(saves);
      Save(AfterSaves(db, Front(saves)), s.target, s.results, s.gate, s.fault)
  }

  /** Save i of the history committed. */
  predicate CommittedAt(db: Db, saves: seq<SaveCall>, i: nat)
    requires i < |saves|
  {
    Effects(AfterSaves(db, saves[..i]), saves[i])
  }

  /** Save i is the last committed one for its case. */
  predicate LastCommitted(db: Db, saves: seq<SaveCall>, c: CaseId, i: nat) {
    && i < |saves| && saves[i].target == c && CommittedAt(db, saves, i)
    && forall j | i < j < |saves| :: saves[j].target != c || !CommittedAt(db, saves, j)
  }

  /** All committed logs for c, one after the other. */
  function CommittedLogs(db: Db, saves: seq<SaveCall>, c: CaseId): seq<string> {
    if saves == [] then []
    else if Last(saves).target == c && Effects(AfterSaves(db, Front(saves)), Last(saves))
    then CommittedLogs(db, Front(saves), c) + Last(saves).results.auditLog
    else CommittedLogs(db, Front(saves), c)
  }

  lemma CommittedAtFront(db: Db, saves: seq<SaveCall>, j: nat)
    requires j < |saves| - 1
    ensures Front(saves)[j] == saves[j] && (CommittedAt(db, Front(saves), j) <==> CommittedAt(db, saves, j))
  {
    assert Front(saves)[..j] == saves[..j];
  }

  lemma LastStep(db: Db, saves: seq<SaveCall>, t: Table, c: CaseId)
    requires saves != []
    ensures var m, e, s := AfterSaves(db, Front(saves)), AfterSaves(db, saves), Last(saves);
            && (CommittedAt(db, saves, |saves| - 1) <==> Effects(m, s))
            && (if s.target == c && Effects(m, s)
                then Some(RowsOf(e.children, t, c)) == Projection(t, c, s.results)
                else RowsOf(e.children, t, c) == RowsOf(m.children, t, c))
  {
    assert saves[..|saves| - 1] == Front(saves);
    var m, s := AfterSaves(db, Front(saves)), Last(saves);
    if Effects(m, s) {
      SaveReplaces(m, s.target, s.results, s.gate, s.fault, t, c);
    }
  }

  /** After any history of saves, a case's rows in every table are exactly the projection of the last
      state committed for it. */
  lemma {:induction false} RowsAreLastCommitted(db: Db, saves: seq<SaveCall>, c: CaseId, i: nat, t: Table)
    requires LastCommitted(db, saves, c, i)
    ensures Some(RowsOf(AfterSaves(db, saves).children, t, c)) == Projection(t, c, saves[i].results)
    decreases |saves|
  {
    LastStep(db, saves, t, c);
    if i < |saves| - 1 {
      CommittedAtFront(db, saves, i);
      forall j | i < j < |saves| - 1
        ensures Front(saves)[j].target != c || !CommittedAt(db, Front(saves), j)
      {
        CommittedAtFront(db, saves, j);
      }
      RowsAreLastCommitted(db, Front(saves), c, i, t);
    }
  }

  /** A case that no save committed keeps the rows it had. */
  lemma {:induction false} RowsUntouched(db: Db, saves: seq<SaveCall>, c: CaseId, t: Table)
    requires forall i | 0 <= i < |saves| :: saves[i].target != c || !CommittedAt(db, saves, i)
    ensures RowsOf(AfterSaves(db, saves).children, t, c) == RowsOf(db.children, t, c)
    decreases |saves|
  {
    if saves != [] {
      LastStep(db, saves, t, c);
      forall j | 0 <= j < |saves| - 1
        ensures Front(saves)[j].target != c || !CommittedAt(db, Front(saves), j)
      {
        CommittedAtFront(db, saves, j);
      }
      RowsUntouched(db, Front(saves), c, t);
    }
  }

  lemma SaveAudit(m: Db, s: SaveCall, c: CaseId)
    ensures AuditOf(Save(m, s.target, s.results, s.gate, s.fault).audit, c)
            == if s.target == c && Effects(m, s) then AuditOf(m.audit, c) + s.results.auditLog else AuditOf(m.audit, c)
  {
    if Effects(m, s) {
      SaveReplaces(m, s.target, s.results, s.gate, s.fault, Evidence, c);
    }
  }

  /** The last save of a history adds to the audit log what it adds to the committed logs. */
  lemma AuditStep(db: Db, saves: seq<SaveCall>, c: CaseId, logs: seq<string>)
    requires saves != [] && AuditOf(AfterSaves(db, Front(saves)).audit, c) == logs + CommittedLogs(db, Front(saves), c)
    ensures AuditOf(AfterSaves(db, saves).audit, c) == logs + CommittedLogs(db, saves, c)
  {
    SaveAudit(AfterSaves(db, Front(saves)), Last(saves), c);
    var before, log := CommittedLogs(db, Front(saves), c), Last(saves).results.auditLog;
    Associative(logs, before, log);
  }

  /** The audit log of a case only grows: it is what it was, then the logs of all committed saves in
      order, repeats included. */
  lemma {:induction false} AuditIsAllLogs(db: Db, saves: seq<SaveCall>, c: CaseId)
    ensures AuditOf(AfterSaves(db, saves).audit, c) == AuditOf(db.audit, c) + CommittedLogs(db, saves, c)
    decreases |saves|
  {
    if saves != [] {
      AuditIsAllLogs(db, Front(saves), c);
      AuditStep(db, saves, c, AuditOf(db.audit, c));
    }
  }

  /** What a what-if run loads after a committed save of a known case: its own state exactly when the
      checkpoint write took effect, and otherwise whatever that run id had before. */
  lemma WhatIfLoads(db: Db, c: CaseId, r: Results, gate: Option<string>, rows: Rows, outcome: nat -> Outcome)
    requires Committed(db, c, r, gate, None) && c in db.cases && r.runId != ""
    ensures var e := Save(db, c, r, gate, None);
            var call := Call(Key(c, r.runId), "terminal", r.full, outcome);
            && c in e.cases && e.cases[c].latestRunId == Some(r.runId)
            && Load(Persisted(rows, call), Key(c, e.cases[c].latestRunId.value))
               == if !Effective(call) then Load(rows, Key(c, r.runId))
                  else if r.full.schemaVersion in READABLE then Loaded(r.full) else SchemaMismatch
  {
    PersistedIff(rows, Call(Key(c, r.runId), "terminal", r.full, outcome));
  }
}
