/**
 The six-phase graph with four human gates: its topology, and its execution in supersteps.
 A superstep runs every scheduled node, in any order; the nodes they trigger form the next one.
 */
module GateGraph {
  import opened Sequences
  import opened Wrappers

  datatype Scope = Evidence | Facts | Witnesses | Law

  type Gate = g: nat | 1 <= g <= 4 witness 1

  datatype Node =
    | Start | End
    | Intake | ResearchDispatch | Research(scope: Scope) | ResearchJoin | Synthesis | Auditor
    | Pause(gate: Gate) | Apply(gate: Gate)
    | Terminal

  const RESEARCH_SCOPES: seq<Scope> := [Evidence, Facts, Witnesses, Law]

  function AllScopes(): set<Scope> { {Evidence, Facts, Witnesses, Law} }

  lemma EveryScope(s: Scope)
    ensures s in AllScopes()
  {
    match s
    case Evidence => case Facts => case Witnesses => case Law =>
  }

  // ---- topology ----

  datatype Route = Route(advance: Node, rerun: Node)

  /** The declared graph: plain edges, fan-out targets, and the targets of the gate-apply nodes. */
  class StateGraph {
    var nodes: set<Node>
    var edges: set<(Node, Node)>
    var fanout: map<Node, set<Node>>
    var routes: map<Node, Route>

    constructor ()
      ensures nodes == {} && edges == {} && fanout == map[] && routes == map[]
    {
      nodes, edges, fanout, routes := {}, {}, map[], map[];
    }

    method AddNode(n: Node)
      modifies this`nodes
      ensures nodes == old(nodes) + {n}
    {
      nodes := nodes + {n};
    }

    method AddGateApply(n: Node, advance: Node, rerun: Node)
      modifies this`nodes, this`routes
      ensures nodes == old(nodes) + {n} && routes == old(routes)[n := Route(advance, rerun)]
    {
      nodes := nodes + {n};
      routes := routes[n := Route(advance, rerun)];
    }

    method AddEdge(a: Node, b: Node)
      modifies this`edges
      ensures edges == old(edges) + {(a, b)}
    {
      edges := edges + {(a, b)};
    }

    method AddConditionalEdges(a: Node, targets: set<Node>)
      modifies this`fanout
      ensures fanout == old(fanout)[a := targets]
    {
      fanout := fanout[a := targets];
    }
  }

  function ResearchNodes(scopes: set<Scope>): set<Node> { set s | s in scopes :: Research(s) }

  /** The one plain successor of a node, if it has one. */
  function Successor(n: Node): Option<Node> {
    match n
    case Start => Some(Intake)
    case Intake => Some(Pause(1))
    case Research(_) => Some(ResearchJoin)
    case ResearchJoin => Some(Pause(2))
    case Synthesis => Some(Pause(3))
    case Auditor => Some(Pause(4))
    case Pause(g) => Some(Apply(g))
    case Terminal => Some(End)
    case _ => None
  }

  /** Where phase `k` begins; phase 5 is the end of the graph. */
  function Entry(k: nat): Node {
    if k == 1 then Intake else if k == 2 then ResearchDispatch else if k == 3 then Synthesis
    else if k == 4 then Auditor else End
  }

  /** The research nodes, one `add_node` a scope. */
  method AddResearchNodes(g: StateGraph)
    modifies g`nodes
    ensures g.nodes == old(g.nodes) + ResearchNodes(AllScopes())
  {
    ghost var done: set<Scope> := {};
    for i := 0 to |RESEARCH_SCOPES|
      invariant done == set j | 0 <= j < i :: RESEARCH_SCOPES[j]
      invariant g.nodes == old(g.nodes) + ResearchNodes(done)
    {
      g.AddNode(Research(RESEARCH_SCOPES[i]));
      done := done + {RESEARCH_SCOPES[i]};
    }
    ScopesListed();
  }

  lemma ScopesListed()
    ensures (set j | 0 <= j < |RESEARCH_SCOPES| :: RESEARCH_SCOPES[j]) == AllScopes()
  {
    var listed := set j | 0 <= j < |RESEARCH_SCOPES| :: RESEARCH_SCOPES[j];
    assert RESEARCH_SCOPES[0] in listed && RESEARCH_SCOPES[1] in listed;
    assert RESEARCH_SCOPES[2] in listed && RESEARCH_SCOPES[3] in listed;
  }

  /** The join edges, one `add_edge` a scope. */
  method AddJoinEdges(g: StateGraph)
    modifies g`edges
    ensures g.edges == old(g.edges) + set s | s in AllScopes() :: (Research(s), ResearchJoin)
  {
    ghost var done: set<Scope> := {};
    for i := 0 to |RESEARCH_SCOPES|
      invariant done == set j | 0 <= j < i :: RESEARCH_SCOPES[j]
      invariant g.edges == old(g.edges) + set s | s in done :: (Research(s), ResearchJoin)
    {
      g.AddEdge(Research(RESEARCH_SCOPES[i]), ResearchJoin);
      done := done + {RESEARCH_SCOPES[i]};
    }
    ScopesListed();
  }

  method AddPhaseNodes(g: StateGraph)
    modifies g`nodes
    ensures g.nodes == old(g.nodes) + PhaseNodes()
  {
    g.AddNode(Intake);
    g.AddNode(ResearchDispatch);
    AddResearchNodes(g);
    g.AddNode(ResearchJoin);
    g.AddNode(Synthesis);
    g.AddNode(Auditor);
  }

  /** One gate: its pause node and its apply node. */
  method AddGate(g: StateGraph, k: Gate, advance: Node, rerun: Node)
    modifies g`nodes, g`routes
    ensures g.nodes == old(g.nodes) + {Pause(k), Apply(k)}
    ensures g.routes == old(g.routes)[Apply(k) := Route(advance, rerun)]
  {
    g.AddNode(Pause(k));
    g.AddGateApply(Apply(k), advance, rerun);
  }

  function GateNodes(): set<Node> {
    {Pause(1), Apply(1), Pause(2), Apply(2), Pause(3), Apply(3), Pause(4), Apply(4)}
  }

  function GateRoutes(): map<Node, Route> {
    map[Apply(1) := Route(ResearchDispatch, Intake), Apply(2) := Route(Synthesis, ResearchDispatch),
        Apply(3) := Route(Auditor, Synthesis), Apply(4) := Route(End, Auditor)]
  }

  method AddGates(g: StateGraph)
    requires g.routes == map[]
    modifies g`nodes, g`routes
    ensures g.nodes == old(g.nodes) + GateNodes() && g.routes == GateRoutes()
  {
    AddGate(g, 1, ResearchDispatch, Intake);
    AddGate(g, 2, Synthesis, ResearchDispatch);
    AddGate(g, 3, Auditor, Synthesis);
    AddGate(g, 4, End, Auditor);
  }

  lemma GatesAre(n: Node)
    ensures n in GateNodes() <==> n.Pause? || n.Apply?
    ensures n in GateRoutes() <==> n.Apply?
    ensures n.Apply? ==> GateRoutes()[n] == Route(Entry(n.gate + 1), Entry(n.gate))
  {
    if n.Pause? || n.Apply? {
      assert n.gate == 1 || n.gate == 2 || n.gate == 3 || n.gate == 4;
    }
  }

  function EarlyEdges(): set<(Node, Node)> {
    {(Start, Intake), (Intake, Pause(1)), (Pause(1), Apply(1))}
    + set s | s in AllScopes() :: (Research(s), ResearchJoin)
  }

  function LateEdges(): set<(Node, Node)> {
    {(ResearchJoin, Pause(2)), (Pause(2), Apply(2)), (Synthesis, Pause(3)), (Pause(3), Apply(3)),
     (Auditor, Pause(4)), (Pause(4), Apply(4)), (Terminal, End)}
  }

  function PlainEdges(): set<(Node, Node)> { EarlyEdges() + LateEdges() }

  /** The declared edges give every node exactly the successor the run follows. */
  lemma EdgesAreSuccessors(a: Node, b: Node)
    ensures (a, b) in PlainEdges() <==> Successor(a) == Some(b)
  {
    match a
    case Research(s) =>
      EveryScope(s);
      assert (Research(s), ResearchJoin) in set s | s in AllScopes() :: (Research(s), ResearchJoin);
    case Pause(g) => assert g == 1 || g == 2 || g == 3 || g == 4;
    case _ =>
  }

  method AddEarlyEdges(g: StateGraph)
    requires g.edges == {} && g.fanout == map[]
    modifies g`edges, g`fanout
    ensures g.edges == EarlyEdges() && g.fanout == map[ResearchDispatch := ResearchNodes(AllScopes())]
  {
    g.AddEdge(Start, Intake);
    g.AddEdge(Intake, Pause(1));
    g.AddEdge(Pause(1), Apply(1));
    g.AddConditionalEdges(ResearchDispatch, ResearchNodes(AllScopes()));
    AddJoinEdges(g);
  }

  method AddLateEdges(g: StateGraph)
    modifies g`edges
    ensures g.edges == old(g.edges) + LateEdges()
  {
    g.AddEdge(ResearchJoin, Pause(2));
    g.AddEdge(Pause(2), Apply(2));
    g.AddEdge(Synthesis, Pause(3));
    g.AddEdge(Pause(3), Apply(3));
    g.AddEdge(Auditor, Pause(4));
    g.AddEdge(Pause(4), Apply(4));
    g.AddEdge(Terminal, End);
  }

  method BuildTopology() returns (g: StateGraph)
    ensures fresh(g)
    ensures forall n :: n in g.nodes <==> n != Start && n != End
    ensures forall a, b :: (a, b) in g.edges <==> Successor(a) == Some(b)
    ensures g.fanout == map[ResearchDispatch := ResearchNodes(AllScopes())]
    ensures forall n :: n in g.routes <==> n.Apply?
    ensures forall k: Gate :: Apply(k) in g.routes && g.routes[Apply(k)] == Route(Entry(k + 1), Entry(k))
  {
    g := new StateGraph();
    AddPhaseNodes(g);
    AddGates(g);
    g.AddNode(Terminal);
    AddEarlyEdges(g);
    AddLateEdges(g);
    forall n: Node ensures n in g.nodes <==> n != Start && n != End {
      NodesAre(n);
    }
    forall n: Node ensures n in g.routes <==> n.Apply? {
      GatesAre(n);
    }
    forall k: Gate ensures Apply(k) in g.routes && g.routes[Apply(k)] == Route(Entry(k + 1), Entry(k)) {
      GatesAre(Apply(k));
    }
    forall a, b ensures (a, b) in g.edges <==> Successor(a) == Some(b) {
      EdgesAreSuccessors(a, b);
    }
  }

  function PhaseNodes(): set<Node> {
    {Intake, ResearchDispatch, ResearchJoin, Synthesis, Auditor} + ResearchNodes(AllScopes())
  }

  lemma NodesAre(n: Node)
    ensures n in PhaseNodes() + GateNodes() + {Terminal} <==> n != Start && n != End
  {
    GatesAre(n);
    if n.Research? {
      EveryScope(n.scope);
    }
  }

  // ---- the judge's reply ----

  /** Keys of `extra_instructions`: a research scope, or anything else. */
  datatype Key = ScopeKey(scope: Scope) | OtherKey(name: string)

  /** `notes` as the apply node tells them apart: falsy, plain text, or a dictionary. */
  datatype Notes = NoNotes | TextNotes | DictNotes(keys: set<Key>)

  /** `corrected` holds the keys of an `extra_instructions` entry among the field corrections. */
  datatype Reply =
    | Dict(action: Option<string>, notes: Notes, corrected: Option<set<Key>>)
    | Bare(text: string)
    | Malformed

  datatype Action = Advance | Rerun | Halt

  /** Anything unrecognised advances. */
  function ActionOf(r: Reply): Action {
    var text := match r case Dict(a, _, _) => a case Bare(t) => Some(t) case Malformed => None;
    if text == Some("rerun") then Rerun else if text == Some("halt") then Halt else Advance
  }

  const GATE_NAMES := ["gate1", "gate2", "gate3", "gate4"]

  /** `extra_instructions` after the apply node: replaced as a whole, and only by a rerun. */
  function ExtraAfter(extra: set<Key>, g: Gate, r: Reply): set<Key> {
    if ActionOf(r) != Rerun || !r.Dict? then extra
    else if r.corrected.Some? then r.corrected.value
    else match r.notes
         case NoNotes => extra
         case TextNotes => {OtherKey(GATE_NAMES[g - 1])}
         case DictNotes(keys) => if keys == {} then extra else keys
  }

  /** The branches a dispatch fans out to: the scopes named in the instructions, or all four. */
  function Targets(extra: set<Key>): set<Scope> {
    var named := set s | s in AllScopes() && ScopeKey(s) in extra;
    if named == {} then AllScopes() else named
  }

  // ---- execution ----

  datatype Event = Ran(node: Node) | Fanned(targets: set<Scope>) | Decided(gate: Gate, reply: Reply)

  datatype State = State(active: set<Node>, next: set<Node>, extra: set<Key>, pending: Reply, history: seq<Event>)

  /** The end of a superstep: what was triggered becomes what runs. */
  function Settle(s: State): State {
    if s.active == {} then s.(active := s.next - {End}, next := {}) else s
  }

  function Triggered(s: State, n: Node): set<Node> {
    match n
    case ResearchDispatch => ResearchNodes(Targets(s.extra))
    case Apply(g) =>
      {match ActionOf(s.pending) case Advance => Entry(g + 1) case Rerun => Entry(g) case Halt => Terminal}
    case _ => if Successor(n).Some? then {Successor(n).value} else {}
  }

  function EventOf(s: State, n: Node): Event {
    match n
    case ResearchDispatch => Fanned(Targets(s.extra))
    case Apply(g) => Decided(g, s.pending)
    case _ => Ran(n)
  }

  /** Node `n` of the current superstep runs; a pause node receives the judge's reply. */
  function Exec(s: State, n: Node, reply: Reply): State
    requires n in s.active
  {
    Settle(State(s.active - {n}, s.next + Triggered(s, n),
                 if n.Apply? then ExtraAfter(s.extra, n.gate, s.pending) else s.extra,
                 if n.Pause? then reply else if n.Apply? then Malformed else s.pending,
                 s.history + [EventOf(s, n)]))
  }

  function InitState(extra: set<Key>): State { State({Intake}, {}, extra, Malformed, []) }

  ghost predicate ReachableIn(extra: set<Key>, s: State, steps: nat)
    decreases steps
  {
    if steps == 0 then s == InitState(extra)
    else exists m: State, n: Node, reply: Reply ::
           ReachableIn(extra, m, steps - 1) && n in m.active && s == Exec(m, n, reply)
  }

  ghost predicate Reachable(extra: set<Key>, s: State) { exists steps: nat :: ReachableIn(extra, s, steps) }

  // ---- what the history says ----

  function PhaseOf(n: Node): nat {
    match n
    case Start => 0
    case Intake => 1
    case ResearchDispatch => 2
    case Research(_) => 2
    case ResearchJoin => 2
    case Synthesis => 3
    case Auditor => 4
    case Pause(g) => g
    case Apply(g) => g
    case Terminal => 5
    case End => 5
  }

  function NodeOf(e: Event): Node {
    match e
    case Ran(n) => n
    case Fanned(_) => ResearchDispatch
    case Decided(g, _) => Apply(g)
  }

  predicate IsDecision(e: Event, a: Action) { e.Decided? && ActionOf(e.reply) == a }

  /** The gates at which the judge advanced, in order. */
  function Advances(h: seq<Event>): seq<nat> {
    if h == [] then []
    else if IsDecision(Last(h), Advance) then Advances(Front(h)) + [Last(h).gate]
    else Advances(Front(h))
  }

  function Ladder(n: nat): seq<nat> { seq(n, i => i + 1) }

  /** `extra_instructions` in force after `h`. */
  function ExtraOf(extra: set<Key>, h: seq<Event>): set<Key> {
    if h == [] then extra
    else if Last(h).Decided? then ExtraAfter(ExtraOf(extra, Front(h)), Last(h).gate, Last(h).reply)
    else ExtraOf(extra, Front(h))
  }

  /** Since the last dispatch: the branches it sent, and those that have run. */
  function Sent(h: seq<Event>): set<Scope> {
    if h == [] then {} else if Last(h).Fanned? then Last(h).targets else Sent(Front(h))
  }

  function Returned(h: seq<Event>): set<Scope> {
    if h == [] || Last(h).Fanned? then {}
    else if Last(h).Ran? && Last(h).node.Research? then Returned(Front(h)) + {Last(h).node.scope}
    else Returned(Front(h))
  }

  /** The nodes that may run next after `h`. */
  function After(h: seq<Event>): set<Node> {
    if h == [] then {Intake}
    else match Last(h)
         case Fanned(targets) => ResearchNodes(targets)
         case Decided(g, reply) =>
           (match ActionOf(reply) case Advance => {Entry(g + 1)} - {End} case Rerun => {Entry(g)} case Halt => {Terminal})
         case Ran(n) =>
           if n.Research? then (if Returned(h) == Sent(h) then {ResearchJoin} else ResearchNodes(Sent(h) - Returned(h)))
           else if Successor(n).Some? then {Successor(n).value} - {End} else {}
  }

  /** Each event was allowed by those before it, and fanned out to the branches in force. */
  predicate Allowed(extra: set<Key>, h: seq<Event>, e: Event) {
    && NodeOf(e) in After(h)
    && (e.Fanned? ==> e.targets == Targets(ExtraOf(extra, h)))
    && (e.Ran? ==> !e.node.ResearchDispatch? && !e.node.Apply?)
  }

  predicate Orderly(extra: set<Key>, h: seq<Event>) {
    h == [] || (Orderly(extra, Front(h)) && Allowed(extra, Front(h), Last(h)))
  }

  /** Between the branches of a dispatch, the join is already triggered. */
  predicate MidFan(h: seq<Event>) {
    h != [] && Last(h).Ran? && Last(h).node.Research? && Returned(h) != Sent(h)
  }

  predicate Inv(extra: set<Key>, s: State) {
    && Orderly(extra, s.history) && s.extra == ExtraOf(extra, s.history)
    && s.active == After(s.history)
    && s.next == (if MidFan(s.history) then {ResearchJoin} else {})
  }

  /** While branches are out, some have not returned, and all that returned were sent. */
  lemma {:induction false} FanShape(extra: set<Key>, h: seq<Event>)
    requires Orderly(extra, h) && h != []
    ensures (Last(h).Fanned? ==> Sent(h) != {} && Returned(h) == {})
    ensures (Last(h).Ran? && Last(h).node.Research? ==>
               Last(h).node.scope in Sent(h) && Last(h).node.scope !in Returned(Front(h)) && Returned(h) <= Sent(h))
  {
    var f, e := Front(h), Last(h);
    assert Allowed(extra, f, e);
    if e.Ran? && e.node.Research? {
      assert f != [];
      FanShape(extra, f);
    }
  }

  predicate IsPlain(n: Node) { !n.Research? && !n.ResearchDispatch? && !n.Apply? }

  /** A node that is no branch runs alone. */
  lemma PlainAlone(extra: set<Key>, s: State, n: Node)
    requires Inv(extra, s) && n in s.active && IsPlain(n)
    ensures s.active == {n} && s.next == {}
  {
  }

  lemma PlainExec(s: State, n: Node, reply: Reply)
    requires s.active == {n} && s.next == {} && IsPlain(n)
    ensures var t := Exec(s, n, reply);
            && t.history == s.history + [Ran(n)] && t.extra == s.extra && t.next == {}
            && t.active == if Successor(n).Some? then {Successor(n).value} - {End} else {}
  {
    assert s.active - {n} == {};
  }

  lemma PlainKeepsInv(extra: set<Key>, s: State, n: Node, reply: Reply)
    requires Inv(extra, s) && n in s.active && IsPlain(n)
    ensures Inv(extra, Exec(s, n, reply))
  {
    PlainAlone(extra, s, n);
    PlainExec(s, n, reply);
    var h := s.history + [Ran(n)];
    assert Front(h) == s.history && Last(h) == Ran(n);
  }

  lemma DispatchKeepsInv(extra: set<Key>, s: State, reply: Reply)
    requires Inv(extra, s) && ResearchDispatch in s.active
    ensures Inv(extra, Exec(s, ResearchDispatch, reply))
  {
    var branches := ResearchNodes(Targets(s.extra));
    assert branches - {End} == branches;
  }

  lemma ApplyKeepsInv(extra: set<Key>, s: State, g: Gate, reply: Reply)
    requires Inv(extra, s) && Apply(g) in s.active
    ensures Inv(extra, Exec(s, Apply(g), reply))
  {
    assert Exec(s, Apply(g), reply).active == After(s.history + [Decided(g, s.pending)]);
  }

  lemma BranchExec(s: State, sc: Scope, reply: Reply, out: set<Scope>)
    requires Research(sc) in s.active && s.active == ResearchNodes(out) && (s.next == {} || s.next == {ResearchJoin})
    ensures var t := Exec(s, Research(sc), reply);
            && t.history == s.history + [Ran(Research(sc))] && t.extra == s.extra
            && (if out == {sc} then t.active == {ResearchJoin} && t.next == {}
                else t.active == ResearchNodes(out - {sc}) && t.next == {ResearchJoin})
  {
    assert s.active - {Research(sc)} == ResearchNodes(out - {sc});
    assert s.next + {ResearchJoin} == {ResearchJoin};
    if out != {sc} {
      assert sc in out;
      var other :| other in out && other != sc;
      assert Research(other) in ResearchNodes(out - {sc});
    } else {
      assert out - {sc} == {};
    }
  }

  lemma BranchKeepsInv(extra: set<Key>, s: State, sc: Scope, reply: Reply)
    requires Inv(extra, s) && Research(sc) in s.active
    ensures Inv(extra, Exec(s, Research(sc), reply))
  {
    var h := s.history;
    var h' := h + [Ran(Research(sc))];
    BranchExec(s, sc, reply, Sent(h) - Returned(h));
    FanShape(extra, h);
    FanShape(extra, h');
    assert Sent(h') - Returned(h') == Sent(h) - Returned(h) - {sc};
  }

  lemma ExecKeepsInv(extra: set<Key>, s: State, n: Node, reply: Reply)
    requires Inv(extra, s) && n in s.active
    ensures Inv(extra, Exec(s, n, reply))
  {
    match n
    case Research(sc) => BranchKeepsInv(extra, s, sc, reply);
    case ResearchDispatch => DispatchKeepsInv(extra, s, reply);
    case Apply(g) => ApplyKeepsInv(extra, s, g, reply);
    case _ => PlainKeepsInv(extra, s, n, reply);
  }

  lemma {:induction false} ReachableInInv(extra: set<Key>, s: State, steps: nat)
    requires ReachableIn(extra, s, steps)
    ensures Inv(extra, s)
    decreases steps
  {
    if steps > 0 {
      var m: State, n: Node, reply: Reply :|
        ReachableIn(extra, m, steps - 1) && n in m.active && s == Exec(m, n, reply);
      ReachableInInv(extra, m, steps - 1);
      ExecKeepsInv(extra, m, n, reply);
    }
  }

  lemma ReachableInv(extra: set<Key>, s: State)
    requires Reachable(extra, s)
    ensures Inv(extra, s)
  {
    var steps: nat :| ReachableIn(extra, s, steps);
    ReachableInInv(extra, s, steps);
  }

  // ---- the gates in order ----

  function Halts(h: seq<Event>): nat {
    if h == [] then 0 else Halts(Front(h)) + if IsDecision(Last(h), Halt) then 1 else 0
  }

  function Level(h: seq<Event>): nat { |Advances(h)| + 1 }

  /** What the gates passed say about what may run. */
  ghost predicate LevelsOk(h: seq<Event>) {
    && Advances(h) == Ladder(|Advances(h)|) && |Advances(h)| <= 4
    && (Halts(h) == 0 ==> (forall n | n in After(h) :: PhaseOf(n) == Level(h) <= 4)
                          && (After(h) == {} <==> |Advances(h)| == 4))
    && (Halts(h) > 0 ==> Halts(h) == 1 && |Advances(h)| < 4 && After(h) <= {Terminal}
                         && (After(h) == {} <==> Last(h) == Ran(Terminal)))
    && (Out(h) ==> Level(h) == 2)
  }

  /** The branches are out: dispatched, not yet joined. */
  predicate Out(h: seq<Event>) {
    h != [] && (Last(h).Fanned? || (Last(h).Ran? && Last(h).node.Research?))
  }

  lemma LevelsFanned(extra: set<Key>, h: seq<Event>)
    requires Orderly(extra, h) && h != [] && LevelsOk(Front(h)) && Last(h).Fanned?
    ensures LevelsOk(h)
  {
    assert ResearchDispatch in After(Front(h));
    FanShape(extra, h);
    var sc :| sc in Last(h).targets;
    assert Research(sc) in After(h);
  }

  lemma LevelsBranch(extra: set<Key>, h: seq<Event>)
    requires Orderly(extra, h) && h != [] && LevelsOk(Front(h)) && Last(h).Ran? && Last(h).node.Research?
    ensures LevelsOk(h)
  {
    assert Last(h).node in After(Front(h));
    FanShape(extra, h);
    if Returned(h) != Sent(h) {
      assert !(Sent(h) <= Returned(h));
      var sc :| sc in Sent(h) && sc !in Returned(h);
      assert Research(sc) in After(h);
    } else {
      assert ResearchJoin in After(h);
    }
  }

  lemma LevelsPlain(extra: set<Key>, h: seq<Event>)
    requires Orderly(extra, h) && h != [] && LevelsOk(Front(h)) && Last(h).Ran? && !Last(h).node.Research?
    ensures LevelsOk(h)
  {
    var n := Last(h).node;
    assert n in After(Front(h));
    if n != Terminal {
      assert Successor(n).value in After(h);
    }
  }

  lemma LevelsDecided(extra: set<Key>, h: seq<Event>)
    requires Orderly(extra, h) && h != [] && LevelsOk(Front(h)) && Last(h).Decided?
    ensures LevelsOk(h)
  {
    var g := Last(h).gate;
    assert Apply(g) in After(Front(h));
    match ActionOf(Last(h).reply)
    case Advance => assert g < 4 ==> Entry(g + 1) in After(h);
    case Rerun => assert Entry(g) in After(h);
    case Halt => assert Terminal in After(h);
  }

  /** Advances climb the gates one by one, and only the nodes of the level reached may run. */
  lemma {:induction false} OrderlyLevels(extra: set<Key>, h: seq<Event>)
    requires Orderly(extra, h)
    ensures LevelsOk(h)
  {
    if h != [] {
      OrderlyLevels(extra, Front(h));
      match Last(h)
      case Fanned(_) => LevelsFanned(extra, h);
      case Decided(_, _) => LevelsDecided(extra, h);
      case Ran(n) =>
        if n.Research? {
          LevelsBranch(extra, h);
        } else {
          LevelsPlain(extra, h);
        }
    }
  }

  lemma {:induction false} OrderlyPrefix(extra: set<Key>, h: seq<Event>, i: nat)
    requires Orderly(extra, h) && i <= |h|
    ensures Orderly(extra, h[..i])
    ensures i < |h| ==> Allowed(extra, h[..i], h[i])
  {
    if i < |h| {
      var f := Front(h);
      OrderlyPrefix(extra, f, i);
      assert f[..i] == h[..i];
      if i < |f| {
        assert f[i] == h[i];
      } else {
        assert h[..i] == f;
      }
    } else {
      assert h[..i] == h;
    }
  }

  /** On every run: a node of phase k runs only after an advance at each of the gates 1..k-1, in
      that order, and after no halt; the terminal node runs only after one halt. */
  lemma PhaseNeedsAdvances(extra: set<Key>, s: State, i: nat)
    requires Reachable(extra, s) && i < |s.history|
    ensures var k := PhaseOf(NodeOf(s.history[i]));
            if 1 <= k <= 4 then Advances(s.history[..i]) == Ladder(k - 1) && Halts(s.history[..i]) == 0
            else s.history[i] == Ran(Terminal) && Halts(s.history[..i]) == 1
  {
    ReachableInv(extra, s);
    OrderlyPrefix(extra, s.history, i);
    OrderlyLevels(extra, s.history[..i]);
  }

  predicate RunOver(s: State) { s.active == {} && s.next == {} }

  /** The run is over exactly after a halt that reached the terminal node, or after advances at all
      four gates; and it never has both. */
  lemma RunOverIff(extra: set<Key>, s: State)
    requires Reachable(extra, s)
    ensures RunOver(s) <==> Advances(s.history) == [1, 2, 3, 4]
                            || (Halts(s.history) == 1 && Last(s.history) == Ran(Terminal))
    ensures Halts(s.history) <= 1 && !(Advances(s.history) == [1, 2, 3, 4] && Halts(s.history) > 0)
  {
    ReachableInv(extra, s);
    OrderlyLevels(extra, s.history);
    assert Ladder(4) == [1, 2, 3, 4];
    if MidFan(s.history) {
      FanShape(extra, s.history);
      var sc :| sc in Sent(s.history) - Returned(s.history);
      assert Research(sc) in s.active;
    }
  }

  lemma {:induction false} NoAdvanceSameLevel(h: seq<Event>, i: nat, j: nat)
    requires i <= j <= |h| && forall k | i <= k < j :: !IsDecision(h[k], Advance)
    ensures Advances(h[..j]) == Advances(h[..i])
    decreases j - i
  {
    if i < j {
      assert Front(h[..j]) == h[..j - 1];
      NoAdvanceSameLevel(h, i, j - 1);
    }
  }

  lemma StaysAtGate(extra: set<Key>, h: seq<Event>, i: nat, j: nat)
    requires Orderly(extra, h) && i < j < |h| && h[i].Decided?
    requires forall k | i <= k < j :: !IsDecision(h[k], Advance) && !IsDecision(h[k], Halt)
    ensures PhaseOf(NodeOf(h[j])) == h[i].gate
  {
    LevelAt(extra, h, i);
    LevelAt(extra, h, j);
    NoAdvanceSameLevel(h, i, j);
    NoHaltSame(h, i, j);
  }

  lemma EntersPhase(extra: set<Key>, h: seq<Event>, i: nat)
    requires Orderly(extra, h) && i + 1 < |h| && IsDecision(h[i], Rerun)
    ensures NodeOf(h[i + 1]) == Entry(h[i].gate)
  {
    OrderlyPrefix(extra, h, i + 1);
    assert Last(h[..i + 1]) == h[i];
  }

  /** After a rerun at gate g the run re-enters phase g, and until the judge advances or halts only
      nodes of phase g run. */
  lemma RerunStaysInPhase(extra: set<Key>, s: State, i: nat, j: nat)
    requires Reachable(extra, s) && i < j < |s.history| && IsDecision(s.history[i], Rerun)
    requires forall k | i < k < j :: !IsDecision(s.history[k], Advance) && !IsDecision(s.history[k], Halt)
    ensures PhaseOf(NodeOf(s.history[j])) == s.history[i].gate
    ensures NodeOf(s.history[i + 1]) == Entry(s.history[i].gate)
  {
    ReachableInv(extra, s);
    StaysAtGate(extra, s.history, i, j);
    EntersPhase(extra, s.history, i);
  }

  lemma LevelAt(extra: set<Key>, h: seq<Event>, i: nat)
    requires Orderly(extra, h) && i < |h|
    ensures Halts(h[..i]) == 0 ==> PhaseOf(NodeOf(h[i])) == Level(h[..i]) <= 4
    ensures Halts(h[..i]) > 0 ==> h[i] == Ran(Terminal)
  {
    OrderlyPrefix(extra, h, i);
    OrderlyLevels(extra, h[..i]);
  }

  lemma {:induction false} NoHaltSame(h: seq<Event>, i: nat, j: nat)
    requires i <= j <= |h| && forall k | i <= k < j :: !IsDecision(h[k], Halt)
    ensures Halts(h[..j]) == Halts(h[..i])
    decreases j - i
  {
    if i < j {
      assert Front(h[..j]) == h[..j - 1];
      NoHaltSame(h, i, j - 1);
    }
  }

  // ---- the research fan-out ----

  function Joins(h: seq<Event>): nat {
    if h == [] then 0 else Joins(Front(h)) + if Last(h) == Ran(ResearchJoin) then 1 else 0
  }

  function Dispatches(h: seq<Event>): nat {
    if h == [] then 0 else Dispatches(Front(h)) + if Last(h).Fanned? then 1 else 0
  }

  /** The join runs exactly once for each dispatch, after every dispatched branch ran, each once. */
  lemma {:induction false} JoinsMatchDispatches(extra: set<Key>, h: seq<Event>)
    requires Orderly(extra, h)
    ensures Dispatches(h) == Joins(h) + if Out(h) then 1 else 0
    ensures h != [] && Last(h) == Ran(ResearchJoin) ==> Returned(h) == Sent(h) != {}
  {
    if h != [] {
      var f, e := Front(h), Last(h);
      JoinsMatchDispatches(extra, f);
      assert NodeOf(e) in After(f);
      if f != [] {
        FanShape(extra, f);
      }
    }
  }

  /** On every run, at every moment: one join for each dispatch, save the one still out. */
  lemma OneJoinPerDispatch(extra: set<Key>, s: State)
    requires Reachable(extra, s)
    ensures Dispatches(s.history) == if Out(s.history) then Joins(s.history) + 1 else Joins(s.history)
  {
    ReachableInv(extra, s);
    JoinsMatchDispatches(extra, s.history);
  }

  lemma {:induction false} SentIsTargets(extra: set<Key>, h: seq<Event>, d: nat, j: nat)
    requires Orderly(extra, h) && d < j <= |h| && h[d].Fanned?
    requires forall k | d < k < j :: !h[k].Fanned?
    ensures Sent(h[..j]) == Targets(ExtraOf(extra, h[..d]))
    decreases j
  {
    assert Front(h[..j]) == h[..j - 1];
    if j == d + 1 {
      OrderlyPrefix(extra, h, d);
    } else {
      SentIsTargets(extra, h, d, j - 1);
    }
  }

  /** Every join comes after exactly the branches its dispatch named: all four when the
      instructions in force at the dispatch name no research scope, else those scopes. */
  lemma JoinAfterItsBranches(extra: set<Key>, s: State, d: nat, j: nat)
    requires Reachable(extra, s) && d < j < |s.history|
    requires s.history[d].Fanned? && s.history[j] == Ran(ResearchJoin)
    requires forall k | d < k < j :: !s.history[k].Fanned?
    ensures Returned(s.history[..j]) == Targets(ExtraOf(extra, s.history[..d]))
    ensures Returned(s.history[..j]) == AllScopes() <==>
              ((forall sc: Scope :: ScopeKey(sc) !in ExtraOf(extra, s.history[..d]))
               || (forall sc: Scope :: ScopeKey(sc) in ExtraOf(extra, s.history[..d])))
  {
    var h := s.history;
    ReachableInv(extra, s);
    OrderlyPrefix(extra, h, j);
    OrderlyPrefix(extra, h, j + 1);
    assert Front(h[..j + 1]) == h[..j] && Last(h[..j + 1]) == h[j];
    JoinsMatchDispatches(extra, h[..j + 1]);
    SentIsTargets(extra, h, d, j);
    TargetsAllIff(ExtraOf(extra, h[..d]));
  }

  lemma TargetsAllIff(extra: set<Key>)
    ensures Targets(extra) == AllScopes() <==>
              ((forall sc: Scope :: ScopeKey(sc) !in extra) || (forall sc: Scope :: ScopeKey(sc) in extra))
  {
    var named := set s | s in AllScopes() && ScopeKey(s) in extra;
    forall sc: Scope ensures sc in AllScopes() {
      EveryScope(sc);
    }
    assert forall sc: Scope :: sc in named <==> ScopeKey(sc) in extra;
    if named == AllScopes() {
      assert forall sc: Scope :: ScopeKey(sc) in extra by {
        forall sc: Scope ensures ScopeKey(sc) in extra {
          assert sc in named;
        }
      }
    }
  }

  lemma ReachStep(extra: set<Key>, s: State, n: Node, reply: Reply)
    requires Reachable(extra, s) && n in s.active
    ensures Reachable(extra, Exec(s, n, reply))
  {
    var k: nat :| ReachableIn(extra, s, k);
    assert ReachableIn(extra, Exec(s, n, reply), k + 1);
  }

  /** A superstep of one node that triggers one other. */
  lemma SingleStep(s: State, n: Node, reply: Reply, m: Node) returns (t: State)
    requires Reachable({}, s) && s.active == {n} && s.next == {} && Triggered(s, n) == {m} && m != End
    ensures Reachable({}, t) && t.active == {m} && t.next == {} && t.history == s.history + [EventOf(s, n)]
    ensures t.extra == if n.Apply? then ExtraAfter(s.extra, n.gate, s.pending) else s.extra
    ensures n.Pause? ==> t.pending == reply
  {
    ReachStep({}, s, n, reply);
    t := Exec(s, n, reply);
    assert {m} - {End} == {m};
  }

  /** No research branch has run. */
  ghost predicate NoBranch(h: seq<Event>) {
    forall sc: Scope :: Ran(Research(sc)) !in h
  }

  lemma NoBranchStep(s: State, n: Node)
    requires NoBranch(s.history) && !n.Research?
    ensures NoBranch(s.history + [EventOf(s, n)])
  {
  }

  /** Intake, gate 1 with the given reply: back to intake, or on to research. */
  lemma FirstGate(s: State, reply: Reply, target: Node) returns (t: State)
    requires Reachable({}, s) && s.active == {Intake} && s.next == {} && NoBranch(s.history)
    requires target == if ActionOf(reply) == Rerun then Intake else ResearchDispatch
    requires ActionOf(reply) != Halt
    ensures Reachable({}, t) && t.next == {} && t.active == {target} && t.extra == ExtraAfter(s.extra, 1, reply)
    ensures NoBranch(t.history)
  {
    NoBranchStep(s, Intake);
    var a := SingleStep(s, Intake, reply, Pause(1));
    NoBranchStep(a, Pause(1));
    var b := SingleStep(a, Pause(1), reply, Apply(1));
    NoBranchStep(b, Apply(1));
    t := SingleStep(b, Apply(1), reply, target);
  }

  lemma OneBranchTargets(extra: set<Key>)
    requires extra == {ScopeKey(Evidence)}
    ensures Targets(extra) == {Evidence} && ResearchNodes(Targets(extra)) == {Research(Evidence)}
  {
    assert Evidence in AllScopes();
    assert (set s | s in AllScopes() && ScopeKey(s) in extra) == {Evidence};
    assert ResearchNodes({Evidence}) == {Research(Evidence)};
  }

  /** A research round with one branch. */
  lemma OneBranchRound(b: State) returns (s: State)
    requires Reachable({}, b) && b.active == {ResearchDispatch} && b.next == {} && b.extra == {ScopeKey(Evidence)}
    ensures Reachable({}, s)
    ensures s.history == b.history + [Fanned({Evidence})] + [Ran(Research(Evidence))] + [Ran(ResearchJoin)]
  {
    OneBranchTargets(b.extra);
    var c := SingleStep(b, ResearchDispatch, Malformed, Research(Evidence));
    var d := SingleStep(c, Research(Evidence), Malformed, ResearchJoin);
    s := SingleStep(d, ResearchJoin, Malformed, Pause(2));
  }

  /** The four-branch join is not guaranteed: a rerun at gate 1 whose notes name a single scope
      leaves the next research round with that one branch. */
  lemma JoinAfterOneBranch() returns (s: State)
    ensures Reachable({}, s)
    ensures s.history != [] && Last(s.history) == Ran(ResearchJoin)
    ensures forall sc: Scope :: Ran(Research(sc)) in s.history <==> sc == Evidence
  {
    var rerun := Dict(Some("rerun"), DictNotes({ScopeKey(Evidence)}), None);
    assert ReachableIn({}, InitState({}), 0);
    var a := FirstGate(InitState({}), rerun, Intake);
    var b := FirstGate(a, Malformed, ResearchDispatch);
    s := OneBranchRound(b);
  }
}
