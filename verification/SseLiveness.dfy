/**
 Liveness of the event-stream relay: in every fair infinite behaviour, a stream whose channel has a
 message that stops the producer closes, whatever else happens; without faults it has then sent all.
 */
module SseLiveness {
  import opened Sequences
  import opened SseRelay

  /** One of the two tasks acts, or nothing happens here. */
  datatype Move = Do(action: Action) | Rest

  type Run = nat -> State
  type Schedule = nat -> Move

  /** The stream, its channel, and an infinite behaviour of the two tasks. */
  datatype Behaviour = Behaviour(stream: Stream, channel: seq<Entry>, snapshots: nat, run: Run, moves: Schedule)

  ghost predicate MovesAt(b: Behaviour, i: nat) {
    match b.moves(i)
    case Rest => b.run(i + 1) == b.run(i)
    case Do(a) => Enabled(b.channel, b.run(i), a) && b.run(i + 1) == Act(b.stream, b.channel, b.run(i), a)
  }

  ghost predicate IsBehaviour(b: Behaviour) {
    b.run(0) == Init(b.snapshots) && forall i: nat :: MovesAt(b, i)
  }

  // ---- fairness ----

  predicate OfProducer(m: Move) {
    m.Do? && (m.action.Take? || m.action.JudgeTaken? || m.action.Unsubscribe? || m.action.LoseRedis?)
  }

  predicate OfConsumer(m: Move) { m.Do? && !OfProducer(m) }

  predicate ProducerCan(channel: seq<Entry>, s: State) {
    s.producer.Judging? || s.producer.Closing? || (s.producer.Listening? && s.taken < |channel|)
  }

  ghost predicate ProducerActsAt(b: Behaviour, i: nat) {
    exists k: nat :: i <= k && (OfProducer(b.moves(k)) || !ProducerCan(b.channel, b.run(k)))
  }

  ghost predicate ConsumerActsAt(b: Behaviour, i: nat) {
    exists k: nat :: i <= k && (OfConsumer(b.moves(k)) || !Open(b.run(k)))
  }

  predicate CanGet(s: State) { s.consumer.Waiting? && s.queue != [] }

  ghost predicate NeverGets(b: Behaviour, m: nat) {
    forall k: nat | m <= k :: !CanGet(b.run(k))
  }

  /** A consumer that finds messages waiting again and again gets one. */
  ghost predicate GetHappensAt(b: Behaviour, i: nat) {
    || (exists k: nat :: i <= k && b.moves(k) == Do(Get))
    || (exists m: nat :: i <= m && NeverGets(b, m))
  }

  ghost predicate Fair(b: Behaviour) {
    && (forall i: nat :: ProducerActsAt(b, i))
    && (forall i: nat :: ConsumerActsAt(b, i))
    && (forall i: nat :: GetHappensAt(b, i))
  }

  /** What is assumed of a behaviour: its channel has a message that stops the producer. */
  ghost predicate Good(b: Behaviour) {
    IsBehaviour(b) && Fair(b) && !AllKeep(b.stream, Messages(b.channel))
  }

  // ---- what every state keeps ----

  lemma {:induction false} AllReachable(b: Behaviour, i: nat)
    requires IsBehaviour(b)
    ensures Reachable(b.stream, b.channel, b.run(i))
  {
    if i == 0 {
      assert Leads(b.stream, b.channel, Init(b.snapshots), [], b.run(0));
    } else {
      AllReachable(b, i - 1);
      assert MovesAt(b, i - 1);
      if b.moves(i - 1).Do? {
        var snapshots: nat, acts :| Leads(b.stream, b.channel, Init(snapshots), acts, b.run(i - 1));
        var more := acts + [b.moves(i - 1).action];
        assert Front(more) == acts;
        assert Leads(b.stream, b.channel, Init(snapshots), more, b.run(i));
      }
    }
  }

  // ---- the producer finishes ----

  function ProducerPc(p: Producer): nat {
    match p
    case Judging(_) => 3
    case Listening => 2
    case Closing => 1
    case Done => 0
  }

  /** The producer of `t` is where that of `s` is, or done. */
  predicate SamePlace(s: State, t: State) {
    t.taken == s.taken && (t.producer == s.producer || t.producer.Done?)
  }

  lemma OthersLeaveProducer(b: Behaviour, i: nat)
    requires IsBehaviour(b) && !OfProducer(b.moves(i))
    ensures SamePlace(b.run(i), b.run(i + 1))
  {
    assert MovesAt(b, i);
  }

  /** While the channel holds a stopping message, a producer that is not done can move. */
  lemma CanMove(b: Behaviour, k: nat)
    requires Good(b) && !b.run(k).producer.Done?
    ensures ProducerCan(b.channel, b.run(k))
  {
    AllReachable(b, k);
    ReachableInv(b.stream, b.channel, b.run(k));
    assert b.channel[..|b.channel|] == b.channel;
  }

  /** The producer's next move, unless it is done before. */
  lemma NextOfProducer(b: Behaviour, i: nat) returns (k: nat)
    requires Good(b) && !b.run(i).producer.Done?
    ensures i <= k && SamePlace(b.run(i), b.run(k))
    ensures b.run(k).producer.Done? || OfProducer(b.moves(k))
  {
    assert ProducerActsAt(b, i);
    var last: nat :| i <= last && (OfProducer(b.moves(last)) || !ProducerCan(b.channel, b.run(last)));
    k := i;
    while k < last && !OfProducer(b.moves(k)) && !b.run(k).producer.Done?
      invariant i <= k <= last && SamePlace(b.run(i), b.run(k))
      decreases last - k
    {
      OthersLeaveProducer(b, k);
      k := k + 1;
    }
    if !b.run(k).producer.Done? {
      CanMove(b, k);
    }
  }

  /** The producer's move takes an entry or brings it closer to its end. */
  lemma OfProducerMoves(b: Behaviour, k: nat)
    requires IsBehaviour(b) && OfProducer(b.moves(k))
    ensures b.run(k + 1).taken <= |b.channel|
    ensures b.run(k).taken < b.run(k + 1).taken
            || (b.run(k).taken == b.run(k + 1).taken && ProducerPc(b.run(k + 1).producer) < ProducerPc(b.run(k).producer))
  {
    AllReachable(b, k);
    ReachableInv(b.stream, b.channel, b.run(k));
    assert MovesAt(b, k);
  }

  lemma {:induction false} ProducerEnds(b: Behaviour, i: nat) returns (k: nat)
    requires Good(b)
    ensures i <= k && b.run(k).producer.Done?
    decreases |b.channel| - b.run(i).taken, ProducerPc(b.run(i).producer)
  {
    k := i;
    if !b.run(i).producer.Done? {
      k := NextOfProducer(b, i);
      if !b.run(k).producer.Done? {
        OfProducerMoves(b, k);
        var m := k + 1;
        k := ProducerEnds(b, m);
      }
    }
  }

  // ---- then the consumer empties the queue and closes ----

  /** The producer is done, and no more is queued than `n` messages. */
  predicate Ebbs(s: State, n: nat) { s.producer.Done? && |s.queue| <= n }

  lemma EbbsOn(b: Behaviour, i: nat, n: nat)
    requires IsBehaviour(b) && Ebbs(b.run(i), n)
    ensures Ebbs(b.run(i + 1), if b.moves(i) == Do(Get) && n > 0 then n - 1 else n)
  {
    assert MovesAt(b, i);
  }

  lemma {:induction false} EbbsTo(b: Behaviour, i: nat, k: nat, n: nat)
    requires IsBehaviour(b) && i <= k && Ebbs(b.run(i), n)
    ensures Ebbs(b.run(k), n)
    decreases k - i
  {
    if i < k {
      EbbsTo(b, i, k - 1, n);
      EbbsOn(b, k - 1, n);
    }
  }

  /** The consumer's next move, which finds it as it was. */
  lemma NextOfConsumer(b: Behaviour, i: nat) returns (k: nat)
    requires IsBehaviour(b) && Fair(b) && Open(b.run(i))
    ensures i <= k && OfConsumer(b.moves(k)) && b.run(k).consumer == b.run(i).consumer
  {
    assert ConsumerActsAt(b, i);
    var last: nat :| i <= last && (OfConsumer(b.moves(last)) || !Open(b.run(last)));
    k := i;
    while !OfConsumer(b.moves(k))
      invariant i <= k <= last && b.run(k).consumer == b.run(i).consumer
      decreases last - k
    {
      assert MovesAt(b, k);
      k := k + 1;
    }
  }

  function ConsumerPc(c: Consumer): nat {
    match c
    case Emitted => 3
    case Top => 2
    case Waiting => 1
    case Closed(_) => 0
  }

  /** With nothing left to get, at most three moves of the consumer close the stream. */
  lemma {:induction false} ClosesWithoutGet(b: Behaviour, i: nat) returns (k: nat)
    requires IsBehaviour(b) && Fair(b) && b.run(i).producer.Done? && NeverGets(b, i)
    ensures i <= k && !Open(b.run(k))
    decreases ConsumerPc(b.run(i).consumer)
  {
    k := i;
    if Open(b.run(i)) {
      k := NextOfConsumer(b, i);
      EbbsTo(b, i, k, |b.run(i).queue|);
      assert MovesAt(b, k) && !CanGet(b.run(k));
      var m := k + 1;
      k := ClosesWithoutGet(b, m);
    }
  }

  lemma {:induction false} ConsumerEnds(b: Behaviour, i: nat, n: nat) returns (k: nat)
    requires IsBehaviour(b) && Fair(b) && Ebbs(b.run(i), n)
    ensures i <= k && !Open(b.run(k))
    decreases n
  {
    assert GetHappensAt(b, i);
    if g: nat :| i <= g && b.moves(g) == Do(Get) {
      EbbsTo(b, i, g, n);
      assert MovesAt(b, g);
      EbbsOn(b, g, n);
      k := ConsumerEnds(b, g + 1, n - 1);
    } else {
      var m: nat :| i <= m && NeverGets(b, m);
      EbbsTo(b, i, m, n);
      k := ClosesWithoutGet(b, m);
    }
  }

  // ---- the main result ----

  /** The client stays, the watchdog does not fire, the connection to Redis holds. */
  predicate Harmless(m: Move) { m.Do? ==> Benign([m.action]) }

  ghost predicate FaultFree(b: Behaviour) { forall i: nat :: Harmless(b.moves(i)) }

  lemma {:induction false} HarmlessSoFar(b: Behaviour, i: nat)
    requires IsBehaviour(b) && FaultFree(b)
    ensures !b.run(i).lost && (Open(b.run(i)) || b.run(i).consumer == Closed(Drained))
  {
    if i > 0 {
      HarmlessSoFar(b, i - 1);
      assert MovesAt(b, i - 1) && Harmless(b.moves(i - 1));
      assert b.moves(i - 1).Do? ==> b.moves(i - 1).action in [b.moves(i - 1).action];
    }
  }

  /** In every fair behaviour, a stream whose channel has a stopping message closes; if no fault occurs
      it is closed by neither client nor watchdog, with the messages up to and including the first that
      stops the producer sent, each once. */
  lemma EveryStreamEnds(b: Behaviour) returns (k: nat)
    requires IsBehaviour(b) && Fair(b) && !AllKeep(b.stream, Messages(b.channel))
    ensures !Open(b.run(k))
    ensures FaultFree(b) ==> && b.run(k).consumer == Closed(Drained)
                             && Sent(b.run(k).frames) == ThroughFirst(b.stream, Messages(b.channel), {Terminal, Raises})
  {
    var i := ProducerEnds(b, 0);
    k := ConsumerEnds(b, i, |b.run(i).queue|);
    if FaultFree(b) {
      HarmlessSoFar(b, k);
      AllReachable(b, k);
      DrainedSendsAll(b.stream, b.channel, b.run(k));
    }
  }
}
