/**
 The server-sent-event relay: a producer task copies a Redis channel into an unbounded queue until
 a terminal event, a consumer turns the queue into frames, with heartbeats, a watchdog and a check
 for a client that left. Steps of the two tasks interleave in any order. Both streams are covered:
 pipeline progress and case intake.
 */
module SseRelay {
  import opened Sequences

  datatype Stream = Pipeline | Intake

  /** A field of the decoded object: a string, a list or object (which no set can hold), or another
      value. */
  datatype Field = Missing | Text(text: string) | Unhashable | Scalar

  datatype Message =
    | Unparsable                     // not JSON
    | NotObject                      // JSON, but not an object
    | Object(kind: Field, agent: Field, phase: Field, typ: Field)

  /** What the channel delivers: subscription notices are passed over. */
  datatype Entry = Control | Data(message: Message)

  datatype Verdict = Keep | Terminal | Raises

  function InSet(f: Field, texts: set<string>): Verdict {
    match f
    case Unhashable => Raises
    case Text(t) => if t in texts then Terminal else Keep
    case _ => Keep
  }

  /** What the producer does after handing a message on: go on, stop, or die of an exception (which
      also stops it). */
  function Judge(stream: Stream, m: Message): Verdict {
    match m
    case Unparsable => Keep
    case NotObject => Raises
    case Object(kind, agent, phase, typ) =>
      if stream == Intake then InSet(typ, {"done", "error", "confirmed"})
      else if kind == Text("interrupt") then Terminal
      else if agent == Text("hearing-governance") then InSet(phase, {"completed", "failed"})
      else if agent == Text("pipeline") then InSet(phase, {"terminal", "awaiting_review", "cancelled"})
      else Keep
  }

  predicate Stops(stream: Stream, m: Message) { Judge(stream, m) != Keep }

  datatype Name = Named(name: string) | RenderedValue | Unnamed

  /** The SSE event name of a message. */
  function EventName(stream: Stream, m: Message): Name {
    if stream == Intake then Unnamed
    else match m
      case Object(Text(k), _, _, _) => Named(k)
      case Object(Missing, _, _, _) => Named("progress")
      case Object(_, _, _, _) => RenderedValue
      case _ => Named("progress")
  }

  datatype Frame =
    | Snapshot
    | Payload(name: Name, message: Message)
    | Heartbeat
    | AuthExpiring
    | WatchdogTimeout

  datatype Producer = Listening | Judging(message: Message) | Closing | Done
  datatype Reason = Drained | Disconnected | Watchdog
  datatype Consumer = Top | Waiting | Emitted | Closed(reason: Reason)

  /** `taken` entries have been received; `lost` records that the producer's connection broke. */
  datatype State = State(taken: nat, producer: Producer, lost: bool, queue: seq<Message>,
                         consumer: Consumer, frames: seq<Frame>)

  function Init(snapshots: nat): State {
    State(0, Listening, false, [], Top, seq(snapshots, _ => Snapshot))
  }

  datatype Action =
    | Take | JudgeTaken | Unsubscribe | LoseRedis
    | Check(disconnected: bool, expired: bool)
    | Get | AfterEmit
    | Timeout(authExpiring: bool)
    | ClientLeaves

  predicate Open(s: State) { !s.consumer.Closed? }

  predicate Exhausted(s: State) { s.producer.Done? && s.queue == [] }

  predicate Enabled(channel: seq<Entry>, s: State, a: Action) {
    match a
    case Take => s.producer.Listening? && s.taken < |channel|
    case JudgeTaken => s.producer.Judging?
    case Unsubscribe => s.producer.Closing?
    case LoseRedis => s.producer.Listening?
    case Check(_, _) => s.consumer.Top?
    case Get => s.consumer.Waiting? && s.queue != []
    case AfterEmit => s.consumer.Emitted?
    case Timeout(_) => s.consumer.Waiting?
    case ClientLeaves => Open(s)
  }

  /** Closing the stream cancels the producer. */
  function Close(s: State, reason: Reason): State {
    s.(consumer := Closed(reason), producer := Done)
  }

  function Act(stream: Stream, channel: seq<Entry>, s: State, a: Action): State
    requires Enabled(channel, s, a)
  {
    match a
    case Take =>
      var e := channel[s.taken];
      if e.Control? then s.(taken := s.taken + 1)
      else s.(taken := s.taken + 1, producer := Judging(e.message), queue := s.queue + [e.message])
    case JudgeTaken => s.(producer := if Stops(stream, s.producer.message) then Closing else Listening)
    case Unsubscribe => s.(producer := Done)
    case LoseRedis => s.(producer := Closing, lost := true)
    case Check(disconnected, expired) =>
      if disconnected then Close(s, Disconnected)
      else if expired then Close(s.(frames := s.frames + [WatchdogTimeout]), Watchdog)
      else s.(consumer := Waiting)
    case Get =>
      s.(queue := s.queue[1..], consumer := Emitted,
         frames := s.frames + [Payload(EventName(stream, s.queue[0]), s.queue[0])])
    case AfterEmit => if Exhausted(s) then Close(s, Drained) else s.(consumer := Top)
    case Timeout(authExpiring) =>
      if Exhausted(s) then Close(s, Drained)
      else s.(consumer := Top, frames := s.frames + [Heartbeat] + Warning(stream, authExpiring))
    case ClientLeaves => Close(s, Disconnected)
  }

  function Warning(stream: Stream, authExpiring: bool): seq<Frame> {
    if stream == Pipeline && authExpiring then [AuthExpiring] else []
  }

  // ---- runs ----

  /** The actions lead from `s` to `t`. */
  ghost predicate Leads(stream: Stream, channel: seq<Entry>, s: State, acts: seq<Action>, t: State)
    decreases |acts|
  {
    if acts == [] then s == t
    else exists m ::
        Leads(stream, channel, s, Front(acts), m) && Enabled(channel, m, Last(acts))
        && t == Act(stream, channel, m, Last(acts))
  }

  ghost predicate Reachable(stream: Stream, channel: seq<Entry>, s: State) {
    exists snapshots: nat, acts: seq<Action> :: Leads(stream, channel, Init(snapshots), acts, s)
  }

  // ---- what was sent, what should be ----

  /** The messages among the entries. */
  function Messages(entries: seq<Entry>): seq<Message> {
    if entries == [] then []
    else if Last(entries).Data? then Messages(Front(entries)) + [Last(entries).message]
    else Messages(Front(entries))
  }

  /** The messages among the frames. */
  function Sent(frames: seq<Frame>): seq<Message> {
    if frames == [] then []
    else if Last(frames).Payload? then Sent(Front(frames)) + [Last(frames).message]
    else Sent(Front(frames))
  }

  /** The messages up to and including the first that gets one of the verdicts. */
  function ThroughFirst(stream: Stream, ms: seq<Message>, verdicts: set<Verdict>): seq<Message> {
    if ms == [] then []
    else if Judge(stream, ms[0]) in verdicts then [ms[0]]
    else [ms[0]] + ThroughFirst(stream, ms[1..], verdicts)
  }

  predicate AllKeep(stream: Stream, ms: seq<Message>) {
    forall i | 0 <= i < |ms| :: Judge(stream, ms[i]) == Keep
  }

  /** The last of the messages is the first that stops the producer. */
  predicate EndsAtStop(stream: Stream, ms: seq<Message>) {
    ms != [] && AllKeep(stream, Front(ms)) && Stops(stream, Last(ms))
  }

  // ---- the invariant ----

  /** What the messages taken so far, `ms`, say about the producer. */
  predicate Taken(stream: Stream, s: State, ms: seq<Message>) {
    match s.producer
    case Listening => AllKeep(stream, ms)
    case Judging(m) => ms != [] && Last(ms) == m
    case _ => s.lost || EndsAtStop(stream, ms) || (s.consumer.Closed? && !s.consumer.reason.Drained?)
  }

  predicate InvOn(stream: Stream, s: State, ms: seq<Message>) {
    && Sent(s.frames) + s.queue == ms
    && (ms != [] ==> AllKeep(stream, Front(ms)))
    && Taken(stream, s, ms)
    && (s.consumer.Closed? ==> s.producer.Done?)
    && (s.consumer == Closed(Drained) ==> s.queue == [])
  }

  predicate Inv(stream: Stream, channel: seq<Entry>, s: State) {
    s.taken <= |channel| && InvOn(stream, s, Messages(channel[..s.taken]))
  }

  lemma {:induction false} NothingSent(n: nat)
    ensures Sent(seq(n, _ => Snapshot)) == []
  {
    if n > 0 {
      NothingSent(n - 1);
      assert Front(seq(n, _ => Snapshot)) == seq(n - 1, _ => Snapshot);
    }
  }

  lemma MessagesNext(channel: seq<Entry>, i: nat)
    requires i < |channel|
    ensures Messages(channel[..i + 1])
            == if channel[i].Data? then Messages(channel[..i]) + [channel[i].message] else Messages(channel[..i])
  {
    assert Front(channel[..i + 1]) == channel[..i];
  }

  lemma TakeDataKeepsInv(stream: Stream, channel: seq<Entry>, s: State)
    requires Inv(stream, channel, s) && Enabled(channel, s, Take) && channel[s.taken].Data?
    ensures Inv(stream, channel, Act(stream, channel, s, Take))
  {
    MessagesNext(channel, s.taken);
  }

  lemma JudgeKeepsInv(stream: Stream, channel: seq<Entry>, s: State)
    requires Inv(stream, channel, s) && Enabled(channel, s, JudgeTaken)
    ensures Inv(stream, channel, Act(stream, channel, s, JudgeTaken))
  {
    var ms := Messages(channel[..s.taken]);
    assert ms == Front(ms) + [Last(ms)];
  }

  lemma ProducerKeepsInv(stream: Stream, channel: seq<Entry>, s: State, a: Action)
    requires Inv(stream, channel, s) && Enabled(channel, s, a)
    requires a.Take? || a.JudgeTaken? || a.Unsubscribe? || a.LoseRedis?
    ensures Inv(stream, channel, Act(stream, channel, s, a))
  {
    match a
    case Take =>
      if channel[s.taken].Data? {
        TakeDataKeepsInv(stream, channel, s);
      } else {
        MessagesNext(channel, s.taken);
      }
    case JudgeTaken => JudgeKeepsInv(stream, channel, s);
    case _ =>
  }

  /** A message leaves the queue exactly as it enters the stream. */
  lemma GetMovesOne(frames: seq<Frame>, queue: seq<Message>, f: Frame)
    requires queue != [] && f.Payload? && f.message == queue[0]
    ensures Sent(frames + [f]) + queue[1..] == Sent(frames) + queue
  {
    assert Sent(frames) + queue == Sent(frames) + [queue[0]] + queue[1..];
  }

  lemma OtherFramesSendNothing(stream: Stream, channel: seq<Entry>, s: State, a: Action)
    requires Enabled(channel, s, a)
    requires a.Check? || a.AfterEmit? || a.Timeout? || a.ClientLeaves?
    ensures var t := Act(stream, channel, s, a);
            && Sent(t.frames) == Sent(s.frames) && t.queue == s.queue && t.taken == s.taken && t.lost == s.lost
            && (t.consumer.Closed? ==> t.producer.Done?) && (!t.consumer.Closed? ==> t.producer == s.producer)
            && (t.consumer == Closed(Drained) ==> Exhausted(s))
  {
    if a.Timeout? {
      assert s.frames + [Heartbeat] + [] == s.frames + [Heartbeat];
    }
  }

  lemma ConsumerKeepsInv(stream: Stream, channel: seq<Entry>, s: State, a: Action)
    requires Inv(stream, channel, s) && Enabled(channel, s, a)
    requires a.Check? || a.Get? || a.AfterEmit? || a.Timeout? || a.ClientLeaves?
    ensures Inv(stream, channel, Act(stream, channel, s, a))
  {
    if a.Get? {
      GetMovesOne(s.frames, s.queue, Payload(EventName(stream, s.queue[0]), s.queue[0]));
    } else {
      OtherFramesSendNothing(stream, channel, s, a);
    }
  }

  lemma {:induction false} LeadsKeepsInv(stream: Stream, channel: seq<Entry>, s: State, acts: seq<Action>, t: State)
    requires Inv(stream, channel, s) && Leads(stream, channel, s, acts, t)
    ensures Inv(stream, channel, t)
    decreases |acts|
  {
    if acts != [] {
      var a := Last(acts);
      var m :| Leads(stream, channel, s, Front(acts), m) && Enabled(channel, m, a) && t == Act(stream, channel, m, a);
      LeadsKeepsInv(stream, channel, s, Front(acts), m);
      if a.Take? || a.JudgeTaken? || a.Unsubscribe? || a.LoseRedis? {
        ProducerKeepsInv(stream, channel, m, a);
      } else {
        ConsumerKeepsInv(stream, channel, m, a);
      }
    }
  }

  lemma ReachableInv(stream: Stream, channel: seq<Entry>, s: State)
    requires Reachable(stream, channel, s)
    ensures Inv(stream, channel, s)
  {
    var snapshots: nat, acts: seq<Action> :| Leads(stream, channel, Init(snapshots), acts, s);
    NothingSent(snapshots);
    LeadsKeepsInv(stream, channel, Init(snapshots), acts, s);
  }

  // ---- the frames ----

  /** The SSE event name a browser listens for: the message's own kind, or "progress". */
  predicate Announced(stream: Stream, f: Frame) {
    match f
    case Payload(name, m) =>
      if stream == Intake then name == Unnamed
      else if m.Object? && m.kind.Text? then name == Named(m.kind.text)
      else name == if !m.Object? || m.kind.Missing? then Named("progress") else RenderedValue
    case AuthExpiring => stream == Pipeline
    case _ => true
  }

  /** The watchdog's frame is the last, and stands exactly where the watchdog closed the stream. */
  predicate FramesOk(stream: Stream, s: State) {
    && (forall f | f in s.frames :: Announced(stream, f))
    && (forall i | 0 <= i < |s.frames| :: s.frames[i] == WatchdogTimeout ==> i == |s.frames| - 1 && s.consumer == Closed(Watchdog))
    && (s.consumer == Closed(Watchdog) ==> s.frames != [] && Last(s.frames) == WatchdogTimeout)
  }

  lemma ActKeepsFrames(stream: Stream, channel: seq<Entry>, s: State, a: Action)
    requires FramesOk(stream, s) && Enabled(channel, s, a)
    ensures FramesOk(stream, Act(stream, channel, s, a)) && s.frames <= Act(stream, channel, s, a).frames
  {
  }

  lemma {:induction false} LeadsKeepsFrames(stream: Stream, channel: seq<Entry>, s: State, acts: seq<Action>, t: State)
    requires FramesOk(stream, s) && Leads(stream, channel, s, acts, t)
    ensures FramesOk(stream, t) && s.frames <= t.frames
    decreases |acts|
  {
    if acts != [] {
      var m :| Leads(stream, channel, s, Front(acts), m) && Enabled(channel, m, Last(acts))
               && t == Act(stream, channel, m, Last(acts));
      LeadsKeepsFrames(stream, channel, s, Front(acts), m);
      ActKeepsFrames(stream, channel, m, Last(acts));
    }
  }

  /** In every interleaving: the snapshots come first, every payload frame is named by its message,
      and a watchdog frame is the last of a stream the watchdog closed. */
  lemma FramesWellFormed(stream: Stream, channel: seq<Entry>, snapshots: nat, acts: seq<Action>, s: State)
    requires Leads(stream, channel, Init(snapshots), acts, s)
    ensures FramesOk(stream, s) && seq(snapshots, _ => Snapshot) <= s.frames
  {
    LeadsKeepsFrames(stream, channel, Init(snapshots), acts, s);
  }

  function Count(frames: seq<Frame>, f: Frame): nat { multiset(frames)[f] }

  /** The timeouts among the actions; those that found the login about to expire. */
  function Timeouts(acts: seq<Action>): nat {
    if acts == [] then 0 else Timeouts(Front(acts)) + if Last(acts).Timeout? then 1 else 0
  }

  function Expiring(acts: seq<Action>): nat {
    if acts == [] then 0 else Expiring(Front(acts)) + if Last(acts).Timeout? && Last(acts).authExpiring then 1 else 0
  }

  lemma BeatsStep(stream: Stream, channel: seq<Entry>, s: State, a: Action)
    requires Enabled(channel, s, a) && Open(Act(stream, channel, s, a))
    ensures var t := Act(stream, channel, s, a);
            && Open(s)
            && Count(t.frames, Heartbeat) == Count(s.frames, Heartbeat) + (if a.Timeout? then 1 else 0)
            && Count(t.frames, AuthExpiring)
               == Count(s.frames, AuthExpiring) + (if stream == Pipeline && a.Timeout? && a.authExpiring then 1 else 0)
  {
  }

  /** While a stream is open, it has sent one heartbeat for every timeout of its wait, and a pipeline stream
      one warning for every timeout that found the login about to expire. */
  lemma {:induction false} HeartbeatPerTimeout(stream: Stream, channel: seq<Entry>, snapshots: nat, acts: seq<Action>, s: State)
    requires Leads(stream, channel, Init(snapshots), acts, s) && Open(s)
    ensures Count(s.frames, Heartbeat) == Timeouts(acts)
    ensures Count(s.frames, AuthExpiring) == if stream == Pipeline then Expiring(acts) else 0
    decreases |acts|
  {
    if acts != [] {
      var m :| Leads(stream, channel, Init(snapshots), Front(acts), m) && Enabled(channel, m, Last(acts))
               && s == Act(stream, channel, m, Last(acts));
      BeatsStep(stream, channel, m, Last(acts));
      HeartbeatPerTimeout(stream, channel, snapshots, Front(acts), m);
    }
  }

  // ---- the theorems ----

  lemma {:induction false} MessagesSplit(a: seq<Entry>, b: seq<Entry>)
    ensures Messages(a + b) == Messages(a) + Messages(b)
  {
    if b == [] {
      assert a + b == a;
    } else {
      MessagesSplit(a, Front(b));
      assert Front(a + b) == a + Front(b);
    }
  }

  /** In every state of every interleaving, what the client received is a prefix of the channel's
      messages: in order, nothing skipped, nothing twice; nothing after the first stop. */
  lemma SentIsPrefix(stream: Stream, channel: seq<Entry>, s: State)
    requires Reachable(stream, channel, s)
    ensures Sent(s.frames) <= Messages(channel)
    ensures Sent(s.frames) <= ThroughFirst(stream, Messages(channel), {Terminal, Raises})
  {
    ReachableInv(stream, channel, s);
    var ms := Messages(channel[..s.taken]);
    MessagesSplit(channel[..s.taken], channel[s.taken..]);
    assert channel[..s.taken] + channel[s.taken..] == channel;
    StopsWhereEnds(stream, ms, Messages(channel[s.taken..]));
  }

  lemma {:induction false} StopsWhereEnds(stream: Stream, ms: seq<Message>, rest: seq<Message>)
    requires ms != [] ==> AllKeep(stream, Front(ms))
    ensures ms <= ThroughFirst(stream, ms + rest, {Terminal, Raises})
    ensures ms != [] && Stops(stream, Last(ms)) ==> ThroughFirst(stream, ms + rest, {Terminal, Raises}) == ms
  {
    if ms != [] {
      assert (ms + rest)[1..] == ms[1..] + rest;
      if |ms| > 1 {
        assert Front(ms)[0] == ms[0];
        assert Front(ms[1..]) == Front(ms)[1..];
      }
      StopsWhereEnds(stream, ms[1..], rest);
    }
  }

  /** A stream that closes with neither a departed client nor the watchdog nor a lost connection has
      sent exactly the channel's messages up to and including the first that stops the producer. */
  lemma DrainedSendsAll(stream: Stream, channel: seq<Entry>, s: State)
    requires Reachable(stream, channel, s) && s.consumer == Closed(Drained) && !s.lost
    ensures Sent(s.frames) == ThroughFirst(stream, Messages(channel), {Terminal, Raises})
    ensures EndsAtStop(stream, Sent(s.frames))
  {
    ReachableInv(stream, channel, s);
    var ms := Messages(channel[..s.taken]);
    assert Sent(s.frames) + [] == Sent(s.frames);
    MessagesSplit(channel[..s.taken], channel[s.taken..]);
    assert channel[..s.taken] + channel[s.taken..] == channel;
    StopsWhereEnds(stream, ms, Messages(channel[s.taken..]));
  }

  lemma {:induction false} FirstStopIsTerminal(stream: Stream, ms: seq<Message>)
    requires EndsAtStop(stream, ThroughFirst(stream, ms, {Terminal, Raises}))
    ensures var all, terminal := ThroughFirst(stream, ms, {Terminal, Raises}), ThroughFirst(stream, ms, {Terminal});
            && (Judge(stream, Last(all)) == Terminal <==> forall m | m in terminal :: Judge(stream, m) != Raises)
            && (Judge(stream, Last(all)) == Terminal ==> all == terminal)
            && terminal != []
  {
    var all, terminal := ThroughFirst(stream, ms, {Terminal, Raises}), ThroughFirst(stream, ms, {Terminal});
    if Judge(stream, ms[0]) == Keep {
      var rest := ThroughFirst(stream, ms[1..], {Terminal, Raises});
      assert all == [ms[0]] + rest;
      assert all[1..] == rest;
      assert Front(all)[1..] == Front(rest) && Last(all) == Last(rest);
      assert AllKeep(stream, Front(rest));
      FirstStopIsTerminal(stream, ms[1..]);
    } else {
      assert ms[0] in terminal;
    }
  }

  /** Such a stream delivers up to and including the first terminal event exactly when no message up
      to that event makes the terminal test raise (a JSON value that is not an object, or a list or
      object in the tested field): such a message ends the stream early. */
  lemma ExactlyOnceToTerminalIff(stream: Stream, channel: seq<Entry>, s: State)
    requires Reachable(stream, channel, s) && s.consumer == Closed(Drained) && !s.lost
    ensures var terminal := ThroughFirst(stream, Messages(channel), {Terminal});
            && Sent(s.frames) != []
            && (Judge(stream, Last(Sent(s.frames))) == Terminal <==> forall m | m in terminal :: Judge(stream, m) != Raises)
            && ((forall m | m in terminal :: Judge(stream, m) != Raises) ==> Sent(s.frames) == terminal)
  {
    DrainedSendsAll(stream, channel, s);
    FirstStopIsTerminal(stream, Messages(channel));
  }

  /** The events that end a stream. */
  predicate EndsStream(stream: Stream, m: Message) {
    m.Object? &&
    match stream
    case Intake => m.typ == Text("done") || m.typ == Text("error") || m.typ == Text("confirmed")
    case Pipeline =>
      || m.kind == Text("interrupt")
      || (m.agent == Text("hearing-governance") && (m.phase == Text("completed") || m.phase == Text("failed")))
      || (m.agent == Text("pipeline")
          && (m.phase == Text("terminal") || m.phase == Text("awaiting_review") || m.phase == Text("cancelled")))
  }

  /** The messages on which the test for such an event raises. */
  predicate BreaksTest(stream: Stream, m: Message) {
    || m.NotObject?
    || (m.Object? && stream == Intake && m.typ.Unhashable?)
    || (m.Object? && stream == Pipeline && m.kind != Text("interrupt") && m.phase.Unhashable?
        && (m.agent == Text("hearing-governance") || m.agent == Text("pipeline")))
  }

  lemma VerdictIs(stream: Stream, m: Message)
    ensures Judge(stream, m) == Terminal <==> EndsStream(stream, m)
    ensures Judge(stream, m) == Raises <==> BreaksTest(stream, m)
  {
  }

  /** Such a stream ends with an event that ends it, or with a message on which the test raises, and none
      of either kind comes before; the former, if no message on the channel is of the latter kind. */
  lemma DrainedEndsAtEvent(stream: Stream, channel: seq<Entry>, s: State)
    requires Reachable(stream, channel, s) && s.consumer == Closed(Drained) && !s.lost
    ensures var sent := Sent(s.frames);
            && sent != [] && sent <= Messages(channel)
            && (EndsStream(stream, Last(sent)) || BreaksTest(stream, Last(sent)))
            && (forall i | 0 <= i < |sent| - 1 :: !EndsStream(stream, sent[i]) && !BreaksTest(stream, sent[i]))
            && ((forall m | m in Messages(channel) :: !BreaksTest(stream, m)) ==> EndsStream(stream, Last(sent)))
  {
    DrainedSendsAll(stream, channel, s);
    SentIsPrefix(stream, channel, s);
    var sent := Sent(s.frames);
    VerdictIs(stream, Last(sent));
    forall i | 0 <= i < |sent| - 1 ensures !EndsStream(stream, sent[i]) && !BreaksTest(stream, sent[i]) {
      assert Front(sent)[i] == sent[i];
      VerdictIs(stream, sent[i]);
    }
    assert Last(sent) == Messages(channel)[|sent| - 1];
  }

  // ---- progress ----

  lemma {:induction false} Chain(stream: Stream, channel: seq<Entry>, s: State, a: seq<Action>, m: State, b: seq<Action>, t: State)
    requires Leads(stream, channel, s, a, m) && Leads(stream, channel, m, b, t)
    ensures Leads(stream, channel, s, a + b, t)
    decreases |b|
  {
    if b == [] {
      assert a + b == a;
    } else {
      var n :| Leads(stream, channel, m, Front(b), n) && Enabled(channel, n, Last(b)) && t == Act(stream, channel, n, Last(b));
      Chain(stream, channel, s, a, m, Front(b), n);
      assert Front(a + b) == a + Front(b) && Last(a + b) == Last(b);
    }
  }

  lemma Single(stream: Stream, channel: seq<Entry>, s: State, a: Action)
    requires Enabled(channel, s, a)
    ensures Leads(stream, channel, s, [a], Act(stream, channel, s, a))
  {
    assert Front([a]) == [];
    assert Leads(stream, channel, s, [], s);
  }

  /** Steps of a connected client before the watchdog, with Redis up. */
  predicate Benign(acts: seq<Action>) {
    forall a | a in acts :: !a.LoseRedis? && !a.ClientLeaves? && (a.Check? ==> !a.disconnected && !a.expired)
  }

  /** Once the producer is done, the consumer sends the whole queue and closes. */
  lemma {:induction false} Drains(stream: Stream, channel: seq<Entry>, s: State) returns (acts: seq<Action>, t: State)
    requires s.producer.Done? && Open(s)
    ensures Leads(stream, channel, s, acts, t) && Benign(acts) && t.consumer == Closed(Drained)
    ensures Sent(t.frames) == Sent(s.frames) + s.queue && t.lost == s.lost
    decreases |s.queue|, if s.consumer.Emitted? then 2 else if s.consumer.Top? then 1 else 0
  {
    var a := if s.consumer.Top? then Check(false, false)
             else if s.consumer.Emitted? then AfterEmit
             else if s.queue == [] then Timeout(false) else Get;
    var m := Act(stream, channel, s, a);
    Single(stream, channel, s, a);
    if a.Get? {
      GetMovesOne(s.frames, s.queue, Payload(EventName(stream, s.queue[0]), s.queue[0]));
    } else {
      OtherFramesSendNothing(stream, channel, s, a);
    }
    if Open(m) {
      var more, e := Drains(stream, channel, m);
      Chain(stream, channel, s, [a], m, more, e);
      acts, t := [a] + more, e;
    } else {
      acts, t := [a], m;
    }
  }

  /** While the channel still holds a stopping message, the producer can get to its end. */
  lemma {:induction false} ProducerFinishes(stream: Stream, channel: seq<Entry>, s: State) returns (acts: seq<Action>, t: State)
    requires Inv(stream, channel, s) && Open(s) && !s.lost && !AllKeep(stream, Messages(channel))
    ensures Leads(stream, channel, s, acts, t) && Benign(acts)
    ensures t.producer.Done? && Open(t) && !t.lost
    decreases |channel| - s.taken, if s.producer.Judging? then 3 else if s.producer.Listening? then 2 else if s.producer.Closing? then 1 else 0
  {
    assert channel[..|channel|] == channel;
    if s.producer.Done? {
      acts, t := [], s;
    } else {
      var a := if s.producer.Listening? then Take else if s.producer.Judging? then JudgeTaken else Unsubscribe;
      var m := Act(stream, channel, s, a);
      Single(stream, channel, s, a);
      ProducerKeepsInv(stream, channel, s, a);
      var more, e := ProducerFinishes(stream, channel, m);
      Chain(stream, channel, s, [a], m, more, e);
      acts, t := [a] + more, e;
    }
  }

  /** No stream is stuck: from every reachable open state, if the connection has held and the channel
      has a stopping message, the stream can still close with everything sent. */
  lemma {:induction false} StreamCompletes(stream: Stream, channel: seq<Entry>, s: State) returns (acts: seq<Action>, t: State)
    requires Reachable(stream, channel, s) && Open(s) && !s.lost && !AllKeep(stream, Messages(channel))
    ensures Leads(stream, channel, s, acts, t) && Benign(acts) && t.consumer == Closed(Drained)
    ensures Reachable(stream, channel, t) && !t.lost
    ensures Sent(t.frames) == ThroughFirst(stream, Messages(channel), {Terminal, Raises})
  {
    ReachableInv(stream, channel, s);
    var a, m := ProducerFinishes(stream, channel, s);
    var b, e := Drains(stream, channel, m);
    Chain(stream, channel, s, a, m, b, e);
    acts, t := a + b, e;
    var snapshots: nat, past: seq<Action> :| Leads(stream, channel, Init(snapshots), past, s);
    Chain(stream, channel, Init(snapshots), past, s, acts, t);
    DrainedSendsAll(stream, channel, t);
  }

  /** The condition is needed: a JSON array on the channel, followed by the gate pause, closes the
      stream with the pause never sent. */
  lemma ArrayHidesPause() returns (channel: seq<Entry>, t: State)
    ensures Reachable(Pipeline, channel, t) && t.consumer == Closed(Drained) && !t.lost
    ensures Messages(channel) == [NotObject, Object(Text("progress"), Text("pipeline"), Text("awaiting_review"), Missing)]
    ensures Sent(t.frames) == [NotObject]
  {
    var pause := Object(Text("progress"), Text("pipeline"), Text("awaiting_review"), Missing);
    channel := [Data(NotObject)] + [Data(pause)];
    MessagesSplit([Data(NotObject)], [Data(pause)]);
    assert Front([Data(NotObject)]) == [] == Front([Data(pause)]);
    assert Messages([]) == [];
    assert Judge(Pipeline, Messages(channel)[0]) == Raises;
    var snapshots := 0;
    assert Leads(Pipeline, channel, Init(snapshots), [], Init(snapshots));
    var acts;
    acts, t := StreamCompletes(Pipeline, channel, Init(snapshots));
  }
}
