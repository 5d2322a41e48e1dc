/**
 What a committed save leaves for each item of the state, told by the names of the fields: which items
 get a row, what it is called, and what becomes of the columns of the case row.
 */
module SavedRows {
  import opened Sequences
  import opened Text
  import opened Wrappers
  import opened PersistResults

  // ---- one item ----

  function Field(fields: Fields, key: string): Value { if key in fields then fields[key] else Absent }

  predicate Falsy(v: Value) {
    v == Absent || v == Txt("") || (v.Number? && v.zero) || (v.List? && v.empty) || v == Object(map[])
  }

  /** The fields that may name an item, the preferred one first. */
  function TitleFields(t: Table): seq<string> {
    match t
    case Fact => ["description"]
    case Witness => ["name"]
    case LegalRule => ["statute_name", "citation", "name"]
    case Precedent => ["citation", "case_name"]
    case _ => ["legal_basis", "text", "claim"]
  }

  /** keys[i] is the first of the keys whose field is not falsy. */
  predicate FirstOf(fields: Fields, keys: seq<string>, i: nat) {
    i < |keys| && !Falsy(Field(fields, keys[i])) && forall j | 0 <= j < i :: Falsy(Field(fields, keys[j]))
  }

  predicate AllFalsy(fields: Fields, keys: seq<string>) { forall j | 0 <= j < |keys| :: Falsy(Field(fields, keys[j])) }

  /** The evidence type that a text stands for. */
  function KindOf(text: string): Option<string> {
    if text == "documentary" || text == "document" || text == "other" then Some("documentary")
    else if text == "testimonial" || text == "testimony" then Some("testimonial")
    else if text == "physical" || text == "digital" || text == "expert" then Some(text)
    else None
  }

  /** The item is to have a row of this name. */
  ghost predicate HasTitle(t: Table, fields: Fields, title: string) {
    if t == Evidence then
      var kind := Field(fields, "evidence_type"); kind.Txt? && KindOf(kind.text) == Some(title)
    else
      exists i: nat :: FirstOf(fields, TitleFields(t), i) && NamesBy(fields, TitleFields(t), i, title)
  }

  predicate NamesBy(fields: Fields, keys: seq<string>, i: nat, title: string) {
    && i < |keys| && Field(fields, keys[i]).Txt?
    && title == Strip(Field(fields, keys[i]).text) && title != ""
  }

  /** The item is to have no row. */
  ghost predicate HasNone(t: Table, fields: Fields) {
    if t == Evidence then
      var kind := Field(fields, "evidence_type");
      !kind.List? && !kind.Object? && (kind.Txt? ==> KindOf(kind.text) == None)
    else
      || AllFalsy(fields, TitleFields(t))
      || exists i: nat :: FirstOf(fields, TitleFields(t), i) && BlankAt(fields, TitleFields(t), i)
  }

  predicate BlankAt(fields: Fields, keys: seq<string>, i: nat) {
    i < |keys| && Field(fields, keys[i]).Txt? && Strip(Field(fields, keys[i]).text) == ""
  }

  lemma {:induction false} FirstTextIs(fields: Fields, keys: seq<string>, i: nat)
    requires FirstOf(fields, keys, i)
    ensures FirstText(fields, keys)
            == if Field(fields, keys[i]).Txt? then Some(Strip(Field(fields, keys[i]).text)) else None
    decreases |keys|
  {
    if i > 0 {
      assert Falsy(Field(fields, keys[0]));
      assert FirstOf(fields, keys[1..], i - 1);
      FirstTextIs(fields, keys[1..], i - 1);
    }
  }

  lemma {:induction false} NoFirstText(fields: Fields, keys: seq<string>)
    requires AllFalsy(fields, keys)
    ensures FirstText(fields, keys) == Some("")
    decreases |keys|
  {
    if keys != [] {
      assert Falsy(Field(fields, keys[0]));
      NoFirstText(fields, keys[1..]);
    }
  }

  lemma {:induction false} FirstExists(fields: Fields, keys: seq<string>) returns (i: nat)
    requires !AllFalsy(fields, keys)
    ensures FirstOf(fields, keys, i)
  {
    i := 0;
    while Falsy(Field(fields, keys[i]))
      invariant i < |keys| && forall j | 0 <= j < i :: Falsy(Field(fields, keys[j]))
      decreases |keys| - i
    {
      i := i + 1;
    }
  }

  /** The title of an item, outside evidence. */
  lemma TextReads(t: Table, fields: Fields)
    requires t != Evidence
    ensures forall title | HasTitle(t, fields, title) :: FirstText(fields, TitleFields(t)) == Some(title) && title != ""
    ensures HasNone(t, fields) ==> FirstText(fields, TitleFields(t)) == Some("")
    ensures FirstText(fields, TitleFields(t)).Some? ==>
              if FirstText(fields, TitleFields(t)).value == "" then HasNone(t, fields)
              else HasTitle(t, fields, FirstText(fields, TitleFields(t)).value)
  {
    var keys := TitleFields(t);
    if AllFalsy(fields, keys) {
      NoFirstText(fields, keys);
    } else {
      var i := FirstExists(fields, keys);
      FirstTextIs(fields, keys, i);
      assert FirstOf(fields, TitleFields(t), i);
      if FirstText(fields, keys).Some? && FirstText(fields, keys).value != "" {
        assert NamesBy(fields, TitleFields(t), i, FirstText(fields, keys).value);
      }
    }
  }

  lemma FieldsAre(t: Table)
    requires t == Fact || t == Witness || t == LegalRule || t == Precedent || t == Argument
    ensures LabelKeys(t) == TitleFields(t)
  {
  }

  predicate ItemTable(t: Table) { t != HearingAnalysis }

  /** The row of the item. */
  ghost predicate IsRowOf(t: Table, c: CaseId, side: string, item: Item, row: Child) {
    item.Dict? && HasTitle(t, item.fields, row.title) && row == Child(t, c, side, row.title, item.fields)
  }

  ghost predicate Skipped(t: Table, item: Item) { item.NotDict? || HasNone(t, item.fields) }

  /** Every item gives one row, named by its first field that is not falsy, or none, or raises. */
  lemma ItemReads(t: Table, c: CaseId, side: string, item: Item)
    requires ItemTable(t)
    ensures item.Dict? && !ColumnsRaise(t, item.fields) ==>
              forall title | HasTitle(t, item.fields, title) ::
                ItemRows(t, c, side, item) == Some([Child(t, c, side, title, item.fields)])
    ensures Skipped(t, item) ==> ItemRows(t, c, side, item) == Some([])
    ensures ItemRows(t, c, side, item).Some? ==>
              (Skipped(t, item) && ItemRows(t, c, side, item).value == [])
              || (exists row :: IsRowOf(t, c, side, item, row) && ItemRows(t, c, side, item).value == [row])
  {
    if item.Dict? {
      if t == Evidence {
        EvidenceReads(c, side, item);
      } else {
        FieldsAre(t);
        TextReads(t, item.fields);
        var rows := ItemRows(t, c, side, item);
        if rows.Some? && rows.value != [] {
          assert IsRowOf(t, c, side, item, rows.value[0]);
        }
      }
    }
  }

  lemma EvidenceReads(c: CaseId, side: string, item: Item)
    requires item.Dict?
    ensures !ColumnsRaise(Evidence, item.fields) ==>
              forall title | HasTitle(Evidence, item.fields, title) ::
                ItemRows(Evidence, c, side, item) == Some([Child(Evidence, c, side, title, item.fields)])
    ensures HasNone(Evidence, item.fields) ==> ItemRows(Evidence, c, side, item) == Some([])
    ensures ItemRows(Evidence, c, side, item).Some? ==>
              (HasNone(Evidence, item.fields) && ItemRows(Evidence, c, side, item).value == [])
              || (exists row :: IsRowOf(Evidence, c, side, item, row) && ItemRows(Evidence, c, side, item).value == [row])
  {
    var kind := Field(item.fields, "evidence_type");
    if kind.Txt? {
      KindIs(kind.text);
      var rows := ItemRows(Evidence, c, side, item);
      if rows.Some? && rows.value != [] {
        assert IsRowOf(Evidence, c, side, item, rows.value[0]);
      }
    }
  }

  lemma KindIs(text: string)
    ensures KindOf(text) == if EvidenceAlias(text) in EVIDENCE_TYPES then Some(EvidenceAlias(text)) else None
  {
  }

  // ---- the items of a table ----

  /** The rows are those of the items at the positions `at`, in order; all other items are skipped. */
  ghost predicate Lists(t: Table, c: CaseId, side: string, items: seq<Item>, rows: seq<Child>, at: seq<nat>) {
    && |at| == |rows|
    && (forall k | 0 <= k < |at| :: at[k] < |items| && IsRowOf(t, c, side, items[at[k]], rows[k]))
    && (forall k, l | 0 <= k < l < |at| :: at[k] < at[l])
    && (forall i | 0 <= i < |items| :: i in at || Skipped(t, items[i]))
  }

  lemma ListsNone(t: Table, c: CaseId, side: string, items: seq<Item>, item: Item, rows: seq<Child>, at: seq<nat>)
    requires Lists(t, c, side, items, rows, at) && Skipped(t, item)
    ensures Lists(t, c, side, items + [item], rows, at)
  {
    var more := items + [item];
    forall i | 0 <= i < |more| ensures i in at || Skipped(t, more[i]) {
      assert i < |items| ==> more[i] == items[i];
    }
  }

  lemma ListsOne(t: Table, c: CaseId, side: string, items: seq<Item>, item: Item, rows: seq<Child>, row: Child, at: seq<nat>)
    requires Lists(t, c, side, items, rows, at) && IsRowOf(t, c, side, item, row)
    ensures Lists(t, c, side, items + [item], rows + [row], at + [|items|])
  {
    var more, at' := items + [item], at + [|items|];
    forall i | 0 <= i < |more| ensures i in at' || Skipped(t, more[i]) {
      if i < |items| {
        assert more[i] == items[i];
      } else {
        assert at'[|at|] == i;
      }
    }
  }

  lemma {:induction false} ItemsListed(t: Table, c: CaseId, side: string, items: seq<Item>) returns (at: seq<nat>)
    requires ItemTable(t) && ItemsRows(t, c, side, items).Some?
    ensures Lists(t, c, side, items, ItemsRows(t, c, side, items).value, at)
  {
    if items == [] {
      at := [];
    } else {
      var f, item := Front(items), Last(items);
      at := ItemsListed(t, c, side, f);
      ItemReads(t, c, side, item);
      FrontAndLast(items);
      var rows := ItemsRows(t, c, side, f).value;
      if ItemRows(t, c, side, item).value == [] {
        ListsNone(t, c, side, f, item, rows, at);
        assert rows + [] == rows;
      } else {
        ListsOne(t, c, side, f, item, rows, ItemRows(t, c, side, item).value[0], at);
        at := at + [|f|];
      }
    }
  }

  /** The items that a table is filled from. */
  function ItemsFor(t: Table, r: Results): seq<Item> {
    match t
    case Evidence => r.evidence
    case Fact => r.facts
    case Witness => if r.witnesses != [] then r.witnesses else r.statements
    case LegalRule => r.legalRules
    case Precedent => r.precedents
    case _ => []
  }

  /** What a committed save leaves in a table is the projection of its state. */
  lemma SavedProjection(db: Db, c: CaseId, r: Results, gate: Option<string>, fault: Option<Fault>, t: Table)
    requires Committed(db, c, r, gate, fault)
    ensures Projection(t, c, r) == Some(RowsOf(Save(db, c, r, gate, fault).children, t, c))
  {
    SaveReplaces(db, c, r, gate, fault, t, c);
  }

  lemma ItemsSaved(t: Table, c: CaseId, r: Results, rows: seq<Child>) returns (at: seq<nat>)
    requires t == Evidence || t == Fact || t == Witness || t == LegalRule || t == Precedent
    requires Projection(t, c, r) == Some(rows)
    ensures Lists(t, c, "", ItemsFor(t, r), rows, at)
  {
    at := ItemsListed(t, c, "", ItemsFor(t, r));
  }

  /** After a committed save, each of these tables has for the case one row for every item that a field
      names, in order, and no other. */
  lemma SavedItems(db: Db, c: CaseId, r: Results, gate: Option<string>, fault: Option<Fault>, t: Table) returns (at: seq<nat>)
    requires Committed(db, c, r, gate, fault)
    requires t == Evidence || t == Fact || t == Witness || t == LegalRule || t == Precedent
    ensures Lists(t, c, "", ItemsFor(t, r), RowsOf(Save(db, c, r, gate, fault).children, t, c), at)
  {
    SavedProjection(db, c, r, gate, fault, t);
    at := ItemsSaved(t, c, r, RowsOf(Save(db, c, r, gate, fault).children, t, c));
  }

  /** And the one hearing analysis, if the state has one. */
  lemma SavedHearing(db: Db, c: CaseId, r: Results, gate: Option<string>, fault: Option<Fault>)
    requires Committed(db, c, r, gate, fault)
    ensures RowsOf(Save(db, c, r, gate, fault).children, HearingAnalysis, c)
            == if r.hearing.Some? then [Child(HearingAnalysis, c, "", "", r.hearing.value)] else []
  {
    SavedProjection(db, c, r, gate, fault, HearingAnalysis);
  }

  // ---- the arguments ----

  /** The side that a group key stands for. */
  function SideOf(key: string): Option<string> {
    if key == "prosecution" || key == "claimant" then Some("prosecution")
    else if key == "defense" || key == "respondent" then Some("defense")
    else None
  }

  lemma SideIs(key: string)
    ensures SideOf(key) == if SideAlias(key) in ARGUMENT_SIDES then Some(SideAlias(key)) else None
  {
  }

  /** Item i of group g of the arguments, which stands on a side. */
  predicate IsArgument(groups: seq<Group>, g: nat, i: nat) {
    g < |groups| && groups[g].items.Some? && i < |groups[g].items.value| && SideOf(groups[g].side).Some?
  }

  predicate Before(p: (nat, nat), q: (nat, nat)) { p.0 < q.0 || (p.0 == q.0 && p.1 < q.1) }

  ghost predicate ArgumentRow(c: CaseId, groups: seq<Group>, p: (nat, nat), row: Child) {
    IsArgument(groups, p.0, p.1)
    && IsRowOf(Argument, c, SideOf(groups[p.0].side).value, groups[p.0].items.value[p.1], row)
  }

  /** The rows are those of the arguments at the places `at`, in order; all others are skipped. */
  ghost predicate ListsArguments(c: CaseId, groups: seq<Group>, rows: seq<Child>, at: seq<(nat, nat)>) {
    && |at| == |rows|
    && (forall k | 0 <= k < |at| :: ArgumentRow(c, groups, at[k], rows[k]))
    && (forall k, l | 0 <= k < l < |at| :: Before(at[k], at[l]))
    && (forall g: nat, i: nat | IsArgument(groups, g, i) :: (g, i) in at || Skipped(Argument, groups[g].items.value[i]))
  }

  function InGroup(g: nat, at: seq<nat>): seq<(nat, nat)> {
    seq(|at|, k requires 0 <= k < |at| => (g, at[k]))
  }

  lemma ArgumentsNone(c: CaseId, groups: seq<Group>, g: Group, rows: seq<Child>, at: seq<(nat, nat)>)
    requires ListsArguments(c, groups, rows, at) && (g.items.None? || SideOf(g.side).None?)
    ensures ListsArguments(c, groups + [g], rows, at)
  {
    var more := groups + [g];
    forall k | 0 <= k < |at| ensures ArgumentRow(c, more, at[k], rows[k]) {
      assert ArgumentRow(c, groups, at[k], rows[k]);
    }
    forall n: nat, i: nat | IsArgument(more, n, i) ensures (n, i) in at || Skipped(Argument, more[n].items.value[i]) {
      assert IsArgument(groups, n, i);
    }
  }

  lemma MoreOrdered(at: seq<(nat, nat)>, n: nat, places: seq<nat>)
    requires (forall k | 0 <= k < |at| :: at[k].0 < n) && forall k, l | 0 <= k < l < |at| :: Before(at[k], at[l])
    requires forall k, l | 0 <= k < l < |places| :: places[k] < places[l]
    ensures var all := at + InGroup(n, places); forall k, l | 0 <= k < l < |all| :: Before(all[k], all[l])
  {
  }

  lemma MoreRows(c: CaseId, groups: seq<Group>, g: Group, rows: seq<Child>, at: seq<(nat, nat)>, own: seq<Child>, places: seq<nat>, k: nat)
    requires ListsArguments(c, groups, rows, at) && g.items.Some? && SideOf(g.side).Some?
    requires Lists(Argument, c, SideOf(g.side).value, g.items.value, own, places) && k < |at| + |places|
    ensures ArgumentRow(c, groups + [g], (at + InGroup(|groups|, places))[k], (rows + own)[k])
  {
    if k < |at| {
      assert ArgumentRow(c, groups, at[k], rows[k]);
    } else {
      assert (at + InGroup(|groups|, places))[k] == (|groups|, places[k - |at|]);
    }
  }

  lemma ArgumentsMore(c: CaseId, groups: seq<Group>, g: Group, rows: seq<Child>, at: seq<(nat, nat)>, own: seq<Child>, places: seq<nat>)
    requires ListsArguments(c, groups, rows, at) && g.items.Some? && SideOf(g.side).Some?
    requires Lists(Argument, c, SideOf(g.side).value, g.items.value, own, places)
    ensures ListsArguments(c, groups + [g], rows + own, at + InGroup(|groups|, places))
  {
    var more, all := groups + [g], at + InGroup(|groups|, places);
    forall k | 0 <= k < |all| ensures ArgumentRow(c, more, all[k], (rows + own)[k]) {
      MoreRows(c, groups, g, rows, at, own, places, k);
    }
    assert forall k | 0 <= k < |at| :: ArgumentRow(c, groups, at[k], rows[k]);
    MoreOrdered(at, |groups|, places);
    forall n: nat, i: nat | IsArgument(more, n, i) ensures (n, i) in all || Skipped(Argument, more[n].items.value[i]) {
      PlaceFound(groups, g, at, places, n, i);
    }
  }

  lemma PlaceFound(groups: seq<Group>, g: Group, at: seq<(nat, nat)>, places: seq<nat>, n: nat, i: nat)
    requires IsArgument(groups + [g], n, i)
    ensures n < |groups| ==> IsArgument(groups, n, i) && (groups + [g])[n] == groups[n]
    ensures n < |groups| && (n, i) in at ==> (n, i) in at + InGroup(|groups|, places)
    ensures n == |groups| && i in places ==> (n, i) in at + InGroup(|groups|, places)
    ensures n >= |groups| ==> n == |groups| && (groups + [g])[n] == g
  {
    if n == |groups| && i in places {
      var k :| 0 <= k < |places| && places[k] == i;
      assert InGroup(|groups|, places)[k] == (n, i);
    }
  }

  lemma {:induction false} GroupsListed(c: CaseId, groups: seq<Group>) returns (at: seq<(nat, nat)>)
    requires GroupsRows(c, groups).Some?
    ensures ListsArguments(c, groups, GroupsRows(c, groups).value, at)
  {
    if groups == [] {
      at := [];
    } else {
      var f, g := Front(groups), Last(groups);
      at := GroupsListed(c, f);
      FrontAndLast(groups);
      SideIs(g.side);
      var rows := GroupsRows(c, f).value;
      if g.items.None? || SideOf(g.side).None? {
        ArgumentsNone(c, f, g, rows, at);
        assert rows + [] == rows;
      } else {
        var places := ItemsListed(Argument, c, SideOf(g.side).value, g.items.value);
        ArgumentsMore(c, f, g, rows, at, GroupRows(c, g).value, places);
        at := at + InGroup(|f|, places);
      }
    }
  }

  lemma ArgumentsSaved(c: CaseId, groups: seq<Group>, rows: seq<Child>) returns (at: seq<(nat, nat)>)
    requires GroupsRows(c, groups) == Some(rows)
    ensures ListsArguments(c, groups, rows, at)
  {
    at := GroupsListed(c, groups);
  }

  /** After a committed save, the arguments of a case are those of the groups that stand on a side, each
      item that a field names on the side of its group, in order. */
  lemma SavedArguments(db: Db, c: CaseId, r: Results, gate: Option<string>, fault: Option<Fault>) returns (at: seq<(nat, nat)>)
    requires Committed(db, c, r, gate, fault)
    ensures ListsArguments(c, r.arguments, RowsOf(Save(db, c, r, gate, fault).children, Argument, c), at)
  {
    SavedProjection(db, c, r, gate, fault, Argument);
    at := ArgumentsSaved(c, r.arguments, RowsOf(Save(db, c, r, gate, fault).children, Argument, c));
  }

  // ---- when a save raises ----

  /** Some other column of the item's row cannot be computed. */
  predicate Unreadable(t: Table, fields: Fields) {
    match t
    case Evidence => Field(fields, "strength").List? || Field(fields, "strength").Object?
    case Fact => Field(fields, "confidence").List? || Field(fields, "confidence").Object?
    case Witness =>
      (match Field(fields, "credibility")
       case Object(inner) =>
         if Field(inner, "value").Number? then Field(inner, "value").size != Ordinary
         else Field(fields, "credibility_score").Number? && Field(fields, "credibility_score").size == NonFinite
       case _ => Field(fields, "credibility_score").Number? && Field(fields, "credibility_score").size == NonFinite)
    case LegalRule => Field(fields, "relevance_score").Number? && Field(fields, "relevance_score").size == Beyond
    case Precedent => Field(fields, "similarity_score").Number? && Field(fields, "similarity_score").size == Beyond
    case Argument => false
    case HearingAnalysis => false
  }

  lemma ColumnsAre(t: Table, fields: Fields)
    ensures ColumnsRaise(t, fields) <==> Unreadable(t, fields)
  {
  }

  /** The item is neither skipped nor has a name and readable columns. */
  ghost predicate Raises(t: Table, item: Item) {
    !Skipped(t, item) && (Unreadable(t, item.fields) || forall title :: !HasTitle(t, item.fields, title))
  }

  lemma ItemRaisesIff(t: Table, c: CaseId, side: string, item: Item)
    requires ItemTable(t)
    ensures ItemRows(t, c, side, item).None? <==> Raises(t, item)
  {
    ItemReads(t, c, side, item);
    if item.Dict? {
      ColumnsAre(t, item.fields);
      if ColumnsRaise(t, item.fields) && !HasNone(t, item.fields) {
        TitledRaises(t, c, side, item);
      }
    }
  }

  lemma TitledRaises(t: Table, c: CaseId, side: string, item: Item)
    requires ItemTable(t) && item.Dict? && ColumnsRaise(t, item.fields) && !HasNone(t, item.fields)
    ensures ItemRows(t, c, side, item).None?
  {
    if t == Evidence {
      var kind := Field(item.fields, "evidence_type");
      if kind.Txt? { KindIs(kind.text); }
    } else {
      FieldsAre(t);
      TextReads(t, item.fields);
    }
  }

  lemma {:induction false} ItemsRaiseIff(t: Table, c: CaseId, side: string, items: seq<Item>)
    requires ItemTable(t)
    ensures ItemsRows(t, c, side, items).None? <==> exists i :: 0 <= i < |items| && Raises(t, items[i])
  {
    if items != [] {
      var f := Front(items);
      ItemsRaiseIff(t, c, side, f);
      ItemRaisesIff(t, c, side, Last(items));
      assert forall i | 0 <= i < |f| :: f[i] == items[i];
      assert Last(items) == items[|items| - 1];
    }
  }

  /** Some argument raises. */
  ghost predicate ArgumentRaises(groups: seq<Group>) {
    exists g: nat, i: nat :: IsArgument(groups, g, i) && Raises(Argument, groups[g].items.value[i])
  }

  lemma ArgumentRaisesFront(groups: seq<Group>)
    requires groups != []
    ensures ArgumentRaises(groups) <==>
              ArgumentRaises(Front(groups))
              || (Last(groups).items.Some? && SideOf(Last(groups).side).Some?
                  && exists i :: 0 <= i < |Last(groups).items.value| && Raises(Argument, Last(groups).items.value[i]))
  {
    var f, n := Front(groups), |groups| - 1;
    assert Last(groups) == groups[n];
    if g: nat, i: nat :| IsArgument(f, g, i) && Raises(Argument, f[g].items.value[i]) {
      assert IsArgument(groups, g, i);
    }
    if Last(groups).items.Some? && SideOf(Last(groups).side).Some? {
      if i :| 0 <= i < |Last(groups).items.value| && Raises(Argument, Last(groups).items.value[i]) {
        assert IsArgument(groups, n, i);
      }
    }
    if g: nat, i: nat :| IsArgument(groups, g, i) && Raises(Argument, groups[g].items.value[i]) {
      assert g < n ==> IsArgument(f, g, i);
    }
  }

  lemma {:induction false} GroupsRaiseIff(c: CaseId, groups: seq<Group>)
    ensures GroupsRows(c, groups).None? <==> ArgumentRaises(groups)
  {
    if groups != [] {
      var g := Last(groups);
      GroupsRaiseIff(c, Front(groups));
      ArgumentRaisesFront(groups);
      SideIs(g.side);
      if g.items.Some? && SideOf(g.side).Some? {
        ItemsRaiseIff(Argument, c, SideOf(g.side).value, g.items.value);
      }
    }
  }

  /** Some item of the table raises. */
  ghost predicate TableRaises(t: Table, r: Results) {
    if t == Argument then ArgumentRaises(r.arguments)
    else exists i :: 0 <= i < |ItemsFor(t, r)| && Raises(t, ItemsFor(t, r)[i])
  }

  lemma TableRaisesIff(t: Table, c: CaseId, r: Results)
    ensures Projection(t, c, r).None? <==> TableRaises(t, r)
  {
    if t == Argument {
      GroupsRaiseIff(c, r.arguments);
    } else if t != HearingAnalysis {
      ItemsRaiseIff(t, c, "", ItemsFor(t, r));
    }
  }

  lemma {:induction false} TablesRaiseIff(c: CaseId, r: Results, tables: seq<Table>)
    ensures Projections(c, r, tables).None? <==> exists t :: t in tables && TableRaises(t, r)
  {
    if tables != [] {
      TablesRaiseIff(c, r, Front(tables));
      TableRaisesIff(Last(tables), c, r);
      FrontAndLast(tables);
    }
  }

  /** Reading a state for a save raises exactly when some item of it does, or the case is known and its
      complexity or route is a list or an object; a case that is not known is passed over. */
  lemma SaveRaisesIff(db: Db, c: CaseId, r: Results, gate: Option<string>)
    ensures Intended(db, c, r, gate).None? <==>
              || (exists t :: TableRaises(t, r))
              || (c in db.cases && (r.complexity.List? || r.complexity.Object? || r.route.List? || r.route.Object?))
    ensures Intended(db, c, r, gate).Some? && c !in db.cases ==> Intended(db, c, r, gate).value.cases == db.cases
  {
    TablesRaiseIff(c, r, TABLES);
    forall t ensures t in TABLES {
      EveryTable(t);
    }
  }

  // ---- the case row ----

  const STATUSES: set<string> := {
    "draft", "extracting", "awaiting_intake_confirmation", "pending", "processing", "ready_for_review",
    "escalated", "closed", "failed", "failed_retryable", "awaiting_review_gate1", "awaiting_review_gate2",
    "awaiting_review_gate3", "awaiting_review_gate4"}

  /** The case row that a committed save leaves. */
  lemma RowAfterSave(m: Db, s: SaveCall, d: CaseId)
    requires d in m.cases
    ensures var e := Save(m, s.target, s.results, s.gate, s.fault);
            && d in e.cases
            && (s.target != d || !Effects(m, s) ==> e.cases[d] == m.cases[d])
            && (s.target == d && Effects(m, s) ==> RowSaved(m.cases[d], s, e.cases[d]))
  {
  }

  predicate SetsComplexity(s: SaveCall) {
    var v := s.results.complexity; v == Txt("low") || v == Txt("medium") || v == Txt("high")
  }

  predicate SetsRoute(s: SaveCall) {
    var v := s.results.route; v == Txt("proceed_automated") || v == Txt("proceed_with_review") || v == Txt("escalate_human")
  }

  function TextOf(v: Value): Option<string> { if v.Txt? then Some(v.text) else None }

  /** Column by column: what the save sets, and what it leaves. */
  predicate RowSaved(before: CaseRow, s: SaveCall, after: CaseRow) {
    var r := s.results;
    && after.status == (if r.status in STATUSES then r.status else "processing")
    && after.latestRunId == (if r.runId == "" then before.latestRunId else Some(r.runId))
    && after.gateState == (if s.gate == None then before.gateState else s.gate)
    && after.complexity == (if SetsComplexity(s) then TextOf(r.complexity) else before.complexity)
    && after.route == (if SetsRoute(s) then TextOf(r.route) else before.route)
    && after.jurisdictionValid == (if r.jurisdictionValid == None then before.jurisdictionValid else r.jurisdictionValid)
  }

  /** Save i of the history is the last committed one for c among those that set the column. */
  ghost predicate LastSetting(db: Db, saves: seq<SaveCall>, c: CaseId, i: nat, sets: SaveCall -> bool) {
    && i < |saves| && saves[i].target == c && CommittedAt(db, saves, i) && sets(saves[i])
    && forall j | i < j < |saves| && sets(saves[j]) :: saves[j].target != c || !CommittedAt(db, saves, j)
  }

  /** A column that a save sets to `value` when `sets` says so, and otherwise leaves. */
  ghost predicate Column<X(!new)>(column: CaseRow -> X, sets: SaveCall -> bool, value: SaveCall -> X) {
    forall before, s, after | RowSaved(before, s, after) ::
      column(after) == if sets(s) then value(s) else column(before)
  }

  lemma {:induction false} KeepsCase(db: Db, saves: seq<SaveCall>, c: CaseId)
    requires c in db.cases
    ensures c in AfterSaves(db, saves).cases
  {
    if saves != [] {
      KeepsCase(db, Front(saves), c);
      RowAfterSave(AfterSaves(db, Front(saves)), Last(saves), c);
    }
  }

  /** After any history of saves, a column of the case row holds what the last committed save that sets it
      set it to. */
  lemma {:induction false} ColumnIsLastSet<X(!new)>(db: Db, saves: seq<SaveCall>, c: CaseId, i: nat,
                                              column: CaseRow -> X, sets: SaveCall -> bool, value: SaveCall -> X)
    requires c in db.cases && LastSetting(db, saves, c, i, sets) && Column(column, sets, value)
    ensures c in AfterSaves(db, saves).cases && column(AfterSaves(db, saves).cases[c]) == value(saves[i])
    decreases |saves|
  {
    var f, s := Front(saves), Last(saves);
    KeepsCase(db, f, c);
    RowAfterSave(AfterSaves(db, f), s, c);
    assert saves[..|saves| - 1] == f;
    if i < |saves| - 1 {
      CommittedAtFront(db, saves, i);
      forall j | i < j < |f| && sets(f[j]) ensures f[j].target != c || !CommittedAt(db, f, j) {
        CommittedAtFront(db, saves, j);
      }
      ColumnIsLastSet(db, f, c, i, column, sets, value);
    }
  }

  /** The six columns, each with the saves that set it. */
  lemma CaseRowIsLastSet(db: Db, saves: seq<SaveCall>, c: CaseId, i: nat)
    requires c in db.cases
    ensures c in AfterSaves(db, saves).cases
    ensures var row := AfterSaves(db, saves).cases[c];
            && (LastSetting(db, saves, c, i, s => true) ==>
                  row.status == if saves[i].results.status in STATUSES then saves[i].results.status else "processing")
            && (LastSetting(db, saves, c, i, (s: SaveCall) => s.results.runId != "") ==> row.latestRunId == Some(saves[i].results.runId))
            && (LastSetting(db, saves, c, i, (s: SaveCall) => s.gate != None) ==> row.gateState == saves[i].gate)
            && (LastSetting(db, saves, c, i, (s: SaveCall) => s.results.jurisdictionValid != None) ==>
                  row.jurisdictionValid == saves[i].results.jurisdictionValid)
  {
    KeepsCase(db, saves, c);
    if LastSetting(db, saves, c, i, s => true) {
      ColumnIsLastSet(db, saves, c, i, (row: CaseRow) => row.status, s => true,
                      (s: SaveCall) => if s.results.status in STATUSES then s.results.status else "processing");
    }
    if LastSetting(db, saves, c, i, (s: SaveCall) => s.results.runId != "") {
      ColumnIsLastSet(db, saves, c, i, (row: CaseRow) => row.latestRunId, (s: SaveCall) => s.results.runId != "",
                      (s: SaveCall) => Some(s.results.runId));
    }
    if LastSetting(db, saves, c, i, (s: SaveCall) => s.gate != None) {
      ColumnIsLastSet(db, saves, c, i, (row: CaseRow) => row.gateState, (s: SaveCall) => s.gate != None, (s: SaveCall) => s.gate);
    }
    if LastSetting(db, saves, c, i, (s: SaveCall) => s.results.jurisdictionValid != None) {
      ColumnIsLastSet(db, saves, c, i, (row: CaseRow) => row.jurisdictionValid,
                      (s: SaveCall) => s.results.jurisdictionValid != None, (s: SaveCall) => s.results.jurisdictionValid);
    }
  }

  lemma LevelsAreLastSet(db: Db, saves: seq<SaveCall>, c: CaseId, i: nat)
    requires c in db.cases
    ensures c in AfterSaves(db, saves).cases
    ensures var row := AfterSaves(db, saves).cases[c];
            && (LastSetting(db, saves, c, i, SetsComplexity) ==> row.complexity == TextOf(saves[i].results.complexity))
            && (LastSetting(db, saves, c, i, SetsRoute) ==> row.route == TextOf(saves[i].results.route))
  {
    KeepsCase(db, saves, c);
    if LastSetting(db, saves, c, i, SetsComplexity) {
      ColumnIsLastSet(db, saves, c, i, (row: CaseRow) => row.complexity, SetsComplexity,
                      (s: SaveCall) => TextOf(s.results.complexity));
    }
    if LastSetting(db, saves, c, i, SetsRoute) {
      ColumnIsLastSet(db, saves, c, i, (row: CaseRow) => row.route, SetsRoute, (s: SaveCall) => TextOf(s.results.route));
    }
  }
}
