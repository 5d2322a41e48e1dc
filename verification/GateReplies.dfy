/**
 What the judge's reply does to a run, told by its text: which phase comes next, when the run ends, and
 which research branches a later dispatch sends.
 */
module GateReplies {
  import opened Sequences
  import opened Wrappers
  import opened GateGraph

  /** The reply is the action `text`, bare or as the action of a dictionary. */
  predicate Told(r: Reply, text: string) {
    match r
    case Bare(t) => t == text
    case Dict(action, _, _) => action == Some(text)
    case Malformed => false
  }

  /** Where the phases begin. */
  const ENTRIES: seq<Node> := [Intake, ResearchDispatch, Synthesis, Auditor]

  /** The event after i is one of node n; or n is what runs next, if there is none yet. */
  predicate NextIs(s: State, i: nat, n: Node) {
    if i + 1 < |s.history| then NodeOf(s.history[i + 1]) == n
    else i + 1 == |s.history| && s.active == {n} && s.next == {}
  }

  lemma AfterEvent(extra: set<Key>, s: State, i: nat)
    requires Reachable(extra, s) && i < |s.history|
    ensures i + 1 < |s.history| ==> NodeOf(s.history[i + 1]) in After(s.history[..i + 1])
    ensures i + 1 == |s.history| ==> s.active == After(s.history[..i + 1])
    ensures i + 1 == |s.history| && !(s.history[i].Ran? && s.history[i].node.Research?) ==> s.next == {}
    ensures Last(s.history[..i + 1]) == s.history[i]
  {
    ReachableInv(extra, s);
    OrderlyPrefix(extra, s.history, i + 1);
    assert s.history[..|s.history|] == s.history;
  }

  /** The terminal node is the last to run. */
  lemma TerminalLast(extra: set<Key>, s: State, i: nat)
    requires Reachable(extra, s) && i < |s.history| && NodeOf(s.history[i]) == Terminal
    ensures |s.history| == i + 1 && s.history[i] == Ran(Terminal) && RunOver(s)
  {
    AfterEvent(extra, s, i);
    assert After(s.history[..i + 1]) == {End} - {End} == {};
  }

  /** A reply whose text is "halt" leads to the terminal node, and the run is over then. */
  lemma HaltEnds(extra: set<Key>, s: State, i: nat)
    requires Reachable(extra, s) && i < |s.history| && s.history[i].Decided? && Told(s.history[i].reply, "halt")
    ensures NextIs(s, i, Terminal) && |s.history| <= i + 2
    ensures |s.history| == i + 2 ==> s.history[i + 1] == Ran(Terminal) && RunOver(s)
  {
    AfterEvent(extra, s, i);
    if i + 1 < |s.history| {
      TerminalLast(extra, s, i + 1);
    }
  }

  /** A reply whose text is "rerun" leads back to the start of the gate's phase. */
  lemma RerunRepeats(extra: set<Key>, s: State, i: nat)
    requires Reachable(extra, s) && i < |s.history| && s.history[i].Decided? && Told(s.history[i].reply, "rerun")
    ensures NextIs(s, i, ENTRIES[s.history[i].gate - 1])
  {
    AfterEvent(extra, s, i);
    assert s.history[i].gate == 1 || s.history[i].gate == 2 || s.history[i].gate == 3 || s.history[i].gate == 4;
  }

  /** Every other reply leads to the start of the next phase, and at gate 4 ends the run. */
  lemma OthersAdvance(extra: set<Key>, s: State, i: nat)
    requires Reachable(extra, s) && i < |s.history| && s.history[i].Decided?
    requires !Told(s.history[i].reply, "halt") && !Told(s.history[i].reply, "rerun")
    ensures s.history[i].gate < 4 ==> NextIs(s, i, ENTRIES[s.history[i].gate])
    ensures s.history[i].gate == 4 ==> |s.history| == i + 1 && RunOver(s)
  {
    AfterEvent(extra, s, i);
    assert s.history[i].gate == 1 || s.history[i].gate == 2 || s.history[i].gate == 3 || s.history[i].gate == 4;
  }

  lemma PauseExec(s: State, g: Gate, reply: Reply)
    requires s.active == {Pause(g)} && s.next == {}
    ensures var t := Exec(s, Pause(g), reply);
            t.active == {Apply(g)} && t.pending == reply && t.history == s.history + [Ran(Pause(g))]
  {
    assert s.active - {Pause(g)} == {};
    assert {Apply(g)} - {End} == {Apply(g)};
  }

  lemma ApplyExec(t: State, g: Gate, other: Reply)
    requires Apply(g) in t.active
    ensures Exec(t, Apply(g), other).history == t.history + [Decided(g, t.pending)]
  {
  }

  /** The reply given at a pause is the one decided on at that gate. */
  lemma ReplyReachesGate(extra: set<Key>, s: State, g: Gate, reply: Reply, other: Reply)
    requires Reachable(extra, s) && Pause(g) in s.active
    ensures Exec(s, Pause(g), reply).active == {Apply(g)}
    ensures Exec(Exec(s, Pause(g), reply), Apply(g), other).history
            == s.history + [Ran(Pause(g))] + [Decided(g, reply)]
  {
    ReachableInv(extra, s);
    PlainAlone(extra, s, Pause(g));
    PauseExec(s, g, reply);
    ApplyExec(Exec(s, Pause(g), reply), g, other);
  }

  // ---- which branches a dispatch sends ----

  /** The instructions a decision leaves behind: those of a rerun with corrections or notes. */
  function Instructed(e: Event): Option<set<Key>> {
    if !e.Decided? || !e.reply.Dict? || e.reply.action != Some("rerun") then None
    else if e.reply.corrected.Some? then e.reply.corrected
    else match e.reply.notes
      case NoNotes => None
      case TextNotes => Some({OtherKey(["gate1", "gate2", "gate3", "gate4"][e.gate - 1])})
      case DictNotes(keys) => if keys == {} then None else Some(keys)
  }

  /** What the last instructing decision before d said; the initial instructions if there was none. */
  predicate InForce(extra: set<Key>, h: seq<Event>, d: nat, keys: set<Key>)
    requires d <= |h|
  {
    || (keys == extra && forall k | 0 <= k < d :: Instructed(h[k]) == None)
    || (exists k :: 0 <= k < d && Instructed(h[k]) == Some(keys) && forall m | k < m < d :: Instructed(h[m]) == None)
  }

  lemma {:induction false} InForceIs(extra: set<Key>, h: seq<Event>, d: nat, keys: set<Key>)
    requires d <= |h| && InForce(extra, h, d, keys)
    ensures ExtraOf(extra, h[..d]) == keys
  {
    if d > 0 {
      var e := h[d - 1];
      assert Front(h[..d]) == h[..d - 1] && Last(h[..d]) == e;
      if Instructed(e) == None {
        InForceIs(extra, h, d - 1, keys);
      }
    }
  }

  /** The branches returned are those that ran since the dispatch. */
  lemma {:induction false} ReturnedRan(h: seq<Event>, d: nat, j: nat, sc: Scope)
    requires d < j <= |h| && h[d].Fanned? && forall k | d < k < j :: !h[k].Fanned?
    ensures sc in Returned(h[..j]) <==> exists m :: d < m < j && h[m] == Ran(Research(sc))
    decreases j
  {
    assert Front(h[..j]) == h[..j - 1] && Last(h[..j]) == h[j - 1];
    if d < j - 1 {
      ReturnedRan(h, d, j - 1, sc);
    }
  }

  /** On every run: between a dispatch and its join exactly those branches run whose scope the
      instructions in force name, or all four when they name none. */
  lemma BranchesFollowInstructions(extra: set<Key>, s: State, d: nat, j: nat, keys: set<Key>, sc: Scope)
    requires Reachable(extra, s) && d < j < |s.history|
    requires s.history[d].Fanned? && s.history[j] == Ran(ResearchJoin) && forall k | d < k < j :: !s.history[k].Fanned?
    requires InForce(extra, s.history, d, keys)
    ensures (exists m :: d < m < j && s.history[m] == Ran(Research(sc)))
            <==> ScopeKey(sc) in keys || forall other: Scope :: ScopeKey(other) !in keys
  {
    JoinAfterItsBranches(extra, s, d, j);
    InForceIs(extra, s.history, d, keys);
    ReturnedRan(s.history, d, j, sc);
    TargetIff(keys, sc);
  }

  lemma TargetIff(keys: set<Key>, sc: Scope)
    ensures sc in Targets(keys) <==> ScopeKey(sc) in keys || forall other: Scope :: ScopeKey(other) !in keys
  {
    EveryScope(sc);
    var named := set s | s in AllScopes() && ScopeKey(s) in keys;
    forall other: Scope ensures other in named <==> ScopeKey(other) in keys {
      EveryScope(other);
    }
  }

  lemma NotReturnedBefore(extra: set<Key>, s: State, n: nat, sc: Scope)
    requires Reachable(extra, s) && n < |s.history| && s.history[n] == Ran(Research(sc))
    ensures sc !in Returned(s.history[..n])
  {
    ReachableInv(extra, s);
    OrderlyPrefix(extra, s.history, n + 1);
    assert Front(s.history[..n + 1]) == s.history[..n] && Last(s.history[..n + 1]) == s.history[n];
    FanShape(extra, s.history[..n + 1]);
  }

  /** No branch runs twice after one dispatch. */
  lemma BranchOnce(extra: set<Key>, s: State, d: nat, m: nat, n: nat)
    requires Reachable(extra, s) && d < m < n < |s.history| && s.history[d].Fanned?
    requires forall k | d < k < n :: !s.history[k].Fanned?
    requires s.history[m].Ran? && s.history[m].node.Research?
    ensures s.history[n] != s.history[m]
  {
    if s.history[n] == s.history[m] {
      var sc := s.history[m].node.scope;
      NotReturnedBefore(extra, s, n, sc);
      ReturnedRan(s.history, d, n, sc);
    }
  }
}
