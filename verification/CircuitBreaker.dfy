/**
 The Redis-backed circuit breaker. Failures (one Lua script) and successes (one MULTI/EXEC
 pipeline) are atomic; a recovery check is three separate steps: read the state, read the opening
 time and compare it with the clock, write half_open. Clock values are reals.
 */
module CircuitBreaker {
  import opened Sequences
  import opened Wrappers

  datatype Circuit = Closed | Open | HalfOpen

  /** The keys state, failures and opened_at; a missing failure counter counts from zero. */
  datatype Store = Store(state: Option<Circuit>, failures: int, openedAt: Option<real>)

  datatype Config = Config(threshold: int, timeout: real)

  const EMPTY := Store(None, 0, None)

  function View(s: Store): Circuit {
    if s.state.Some? then s.state.value else Closed
  }

  function RecordedFailure(cfg: Config, s: Store, now: real): Store {
    if View(s) == HalfOpen || s.failures + 1 >= cfg.threshold
    then Store(Some(Open), s.failures + 1, Some(now))
    else s.(failures := s.failures + 1)
  }

  function FailureReply(cfg: Config, s: Store): Circuit {
    if View(s) == HalfOpen || s.failures + 1 >= cfg.threshold then Open else Closed
  }

  function RecordedSuccess(s: Store): Store {
    Store(Some(Closed), 0, None)
  }

  predicate Elapsed(cfg: Config, s: Store, now: real) {
    s.openedAt.Some? && now - s.openedAt.value >= cfg.timeout
  }

  function Checked(cfg: Config, s: Store, now: real): Store {
    if View(s) == Open && Elapsed(cfg, s, now) then s.(state := Some(HalfOpen)) else s
  }

  // ---- the breaker object and the Redis server it talks to ----

  class Redis {
    var reachable: bool
    var state: Option<Circuit>
    var failures: int
    var openedAt: Option<real>

    function Keys(): Store
      reads this
    {
      Store(state, failures, openedAt)
    }

    constructor ()
      ensures reachable && Keys() == EMPTY
    {
      reachable, state, failures, openedAt := true, None, 0, None;
    }
  }

  class CircuitBreaker {
    const redis: Redis
    const failureThreshold: int
    const recoveryTimeout: real

    function Settings(): Config { Config(failureThreshold, recoveryTimeout) }

    constructor (redis: Redis, failureThreshold: int, recoveryTimeout: real)
      ensures this.redis == redis && Settings() == Config(failureThreshold, recoveryTimeout)
    {
      this.redis, this.failureThreshold, this.recoveryTimeout := redis, failureThreshold, recoveryTimeout;
    }

    method GetState() returns (c: Circuit)
      ensures c == if redis.reachable then View(redis.Keys()) else Closed
    {
      if !redis.reachable { return Closed; }
      if redis.state == Some(Open) { return Open; }
      if redis.state == Some(HalfOpen) { return HalfOpen; }
      return Closed;
    }

    method CheckRecovery(now: real) returns (c: Circuit)
      modifies redis
      ensures redis.reachable == old(redis.reachable)
      ensures redis.Keys() == if redis.reachable then Checked(Settings(), old(redis.Keys()), now) else old(redis.Keys())
      ensures c == if redis.reachable then View(redis.Keys()) else Closed
    {
      if !redis.reachable { return Closed; }
      var state := redis.state;
      if state == Some(Open) {
        var openedAt := redis.openedAt;
        if openedAt.Some? && now - openedAt.value >= recoveryTimeout {
          redis.state := Some(HalfOpen);
          return HalfOpen;
        }
        return Open;
      }
      if state == Some(HalfOpen) { return HalfOpen; }
      return Closed;
    }

    method RecordSuccess()
      modifies redis
      ensures redis.reachable == old(redis.reachable)
      ensures redis.Keys() == if redis.reachable then RecordedSuccess(old(redis.Keys())) else old(redis.Keys())
    {
      if redis.reachable {
        redis.state := Some(Closed);
        redis.failures := 0;
        redis.openedAt := None;
      }
    }

    method RecordFailure(now: real) returns (c: Circuit)
      modifies redis
      ensures redis.reachable == old(redis.reachable)
      ensures redis.Keys() == if redis.reachable then RecordedFailure(Settings(), old(redis.Keys()), now) else old(redis.Keys())
      ensures c == if redis.reachable then FailureReply(Settings(), old(redis.Keys())) else Closed
    {
      if !redis.reachable { return Closed; }
      redis.failures := redis.failures + 1;
      if redis.state == Some(HalfOpen) {
        redis.state, redis.openedAt := Some(Open), Some(now);
        return Open;
      }
      if redis.failures >= failureThreshold {
        redis.state, redis.openedAt := Some(Open), Some(now);
        return Open;
      }
      return Closed;
    }
  }

  // ---- one call at a time: a fold over the event log ----

  datatype Event = Failure(now: real) | Success | Check(now: real)

  function Apply(cfg: Config, s: Store, e: Event): Store {
    match e
    case Failure(now) => RecordedFailure(cfg, s, now)
    case Success => RecordedSuccess(s)
    case Check(now) => Checked(cfg, s, now)
  }

  function After(cfg: Config, log: seq<Event>): Store {
    if log == [] then EMPTY else Apply(cfg, After(cfg, Front(log)), Last(log))
  }

  /** Failures since the last success. */
  function FailureRun(log: seq<Event>): nat {
    if log == [] || Last(log).Success? then 0
    else FailureRun(Front(log)) + if Last(log).Failure? then 1 else 0
  }

  /** Where the last failure since the last success stands in the log, or -1. */
  function LastFailure(log: seq<Event>): (f: int)
    ensures -1 <= f < |log| && (f >= 0 ==> log[f].Failure?)
  {
    if log == [] || Last(log).Success? then -1
    else if Last(log).Failure? then |log| - 1
    else LastFailure(Front(log))
  }

  /** Entry i is a check at least the timeout after the failure at f. */
  predicate Probes(cfg: Config, log: seq<Event>, f: int, i: nat)
    requires 0 <= f < |log| && log[f].Failure?
  {
    f < i < |log| && log[i].Check? && log[i].now - log[f].now >= cfg.timeout
  }

  /** Some check came at least the timeout after the last failure. */
  predicate Probed(cfg: Config, log: seq<Event>) {
    var f := LastFailure(log);
    f >= 0 && exists i: nat :: i < |log| && Probes(cfg, log, f, i)
  }

  function AtLeastOne(threshold: int): nat { if threshold < 1 then 1 else threshold }

  lemma ProbedStep(cfg: Config, log: seq<Event>)
    requires log != []
    ensures Last(log).Check? ==>
              (Probed(cfg, log) <==> Probed(cfg, Front(log))
                                     || (LastFailure(log) >= 0 && Last(log).now - log[LastFailure(log)].now >= cfg.timeout))
    ensures !Last(log).Check? ==> !Probed(cfg, log)
  {
    var p, f := Front(log), LastFailure(log);
    if Last(log).Check? && f >= 0 {
      assert LastFailure(p) == f;
      forall i: nat | i < |p| ensures Probes(cfg, p, f, i) <==> Probes(cfg, log, f, i) {}
      ProbedIs(cfg, log, f, p);
    }
  }

  lemma ProbedIs(cfg: Config, log: seq<Event>, f: int, p: seq<Event>)
    requires log != [] && p == Front(log) && Last(log).Check? && f >= 0 && LastFailure(log) == f == LastFailure(p)
    requires f < |p| && forall i: nat | i < |p| :: Probes(cfg, p, f, i) <==> Probes(cfg, log, f, i)
    ensures Probed(cfg, log) <==> Probed(cfg, p) || Last(log).now - log[f].now >= cfg.timeout
  {
    if Probed(cfg, p) {
      var i: nat :| i < |p| && Probes(cfg, p, f, i);
      assert Probes(cfg, log, f, i);
    }
    if Last(log).now - log[f].now >= cfg.timeout {
      assert Probes(cfg, log, f, |log| - 1);
    }
    if Probed(cfg, log) {
      var i: nat :| i < |log| && Probes(cfg, log, f, i);
      assert i < |p| ==> Probes(cfg, p, f, i);
    }
  }

  /** Run one call at a time, the breaker is closed exactly while fewer failures than the threshold
      followed the last success; otherwise it opened at the last failure, and it is half-open
      exactly when a check came at least the timeout after that failure. */
  lemma {:induction false} BreakerIsFold(cfg: Config, log: seq<Event>)
    ensures var s := After(cfg, log);
            && s.failures == FailureRun(log)
            && (View(s) == Closed <==> FailureRun(log) < AtLeastOne(cfg.threshold))
            && (View(s) == HalfOpen <==> FailureRun(log) >= AtLeastOne(cfg.threshold) && Probed(cfg, log))
            && (if View(s) == Closed then s.openedAt == None
                else LastFailure(log) >= 0 && s.openedAt == Some(log[LastFailure(log)].now))
  {
    if log != [] {
      BreakerIsFold(cfg, Front(log));
      ProbedStep(cfg, log);
    }
  }

  /** What record_failure answers is the state it leaves. */
  lemma ReplyIsState(cfg: Config, log: seq<Event>, now: real)
    ensures FailureReply(cfg, After(cfg, log)) == View(After(cfg, log + [Event.Failure(now)]))
  {
    assert Front(log + [Event.Failure(now)]) == log;
    BreakerIsFold(cfg, log);
  }

  // ---- many processes: a check is three steps ----

  datatype Pc =
    | SawOpen                            // read the state, not yet the opening time
    | WillSet(seen: real, read: real)    // the timeout had elapsed at `read`; half_open not yet written

  datatype System = System(store: Store, pcs: map<nat, Pc>, clock: real)

  datatype Action =
    | StartCheck(p: nat)
    | ReadOpenedAt(p: nat, now: real)
    | SetHalfOpen(p: nat)
    | Abandon(p: nat)                    // the process dies or loses Redis in the middle of a check
    | Fail(now: real)
    | Succeed

  function Start(clock: real): System { System(EMPTY, map[], clock) }

  predicate Enabled(s: System, a: Action) {
    match a
    case StartCheck(p) => p !in s.pcs
    case ReadOpenedAt(p, now) => p in s.pcs && s.pcs[p].SawOpen? && s.clock <= now
    case SetHalfOpen(p) => p in s.pcs && s.pcs[p].WillSet?
    case Abandon(p) => p in s.pcs
    case Fail(now) => s.clock <= now
    case Succeed => true
  }

  function Act(cfg: Config, s: System, a: Action): System {
    match a
    case StartCheck(p) => if View(s.store) == Open then s.(pcs := s.pcs[p := SawOpen]) else s
    case ReadOpenedAt(p, now) =>
      s.(pcs := if Elapsed(cfg, s.store, now) then s.pcs[p := WillSet(s.store.openedAt.value, now)] else s.pcs - {p},
         clock := now)
    case SetHalfOpen(p) => s.(store := s.store.(state := Some(HalfOpen)), pcs := s.pcs - {p})
    case Abandon(p) => s.(pcs := s.pcs - {p})
    case Fail(now) => s.(store := RecordedFailure(cfg, s.store, now), clock := now)
    case Succeed => s.(store := RecordedSuccess(s.store))
  }

  function End(cfg: Config, s: System, acts: seq<Action>): System {
    if acts == [] then s else Act(cfg, End(cfg, s, Front(acts)), Last(acts))
  }

  predicate IsRun(cfg: Config, s: System, acts: seq<Action>) {
    acts == [] || (IsRun(cfg, s, Front(acts)) && Enabled(End(cfg, s, Front(acts)), Last(acts)))
  }

  /** An open breaker has its opening time; a closed one has none, and fewer failures than the threshold. */
  predicate KeysOk(cfg: Config, s: Store) {
    && (View(s) == Open ==> s.openedAt.Some?)
    && (View(s) == Closed ==> s.openedAt.None? && s.failures < AtLeastOne(cfg.threshold))
    && 0 <= s.failures
  }

  lemma {:induction false} OpenHasTime(cfg: Config, clock: real, acts: seq<Action>)
    ensures KeysOk(cfg, End(cfg, Start(clock), acts).store)
  {
    if acts != [] {
      OpenHasTime(cfg, clock, Front(acts));
    }
  }

  predicate OpenedBy(s: System) { s.store.openedAt.Some? ==> s.store.openedAt.value <= s.clock }

  lemma {:induction false} OpenedInThePast(cfg: Config, clock: real, acts: seq<Action>)
    requires IsRun(cfg, Start(clock), acts)
    ensures OpenedBy(End(cfg, Start(clock), acts))
  {
    if acts != [] {
      OpenedInThePast(cfg, clock, Front(acts));
    }
  }

  /** The three steps of a check, taken without interruption, are the check. */
  lemma StepsAreCheck(cfg: Config, s: System, p: nat, now: real)
    requires p !in s.pcs && s.clock <= now
    ensures var a := Act(cfg, s, StartCheck(p));
            if View(s.store) != Open then a == s && Checked(cfg, s.store, now) == s.store
            else
              var b := Act(cfg, a, ReadOpenedAt(p, now));
              Enabled(a, ReadOpenedAt(p, now)) &&
              if !Elapsed(cfg, s.store, now) then b.store == Checked(cfg, s.store, now) == s.store && b.pcs == s.pcs
              else Enabled(b, SetHalfOpen(p)) && Act(cfg, b, SetHalfOpen(p)).store == Checked(cfg, s.store, now)
                   && Act(cfg, b, SetHalfOpen(p)).pcs == s.pcs
  {
    var a := Act(cfg, s, StartCheck(p));
    if View(s.store) == Open {
      var b := Act(cfg, a, ReadOpenedAt(p, now));
      assert a.pcs - {p} == s.pcs;
      assert Elapsed(cfg, s.store, now) ==> b.pcs - {p} == s.pcs;
    }
  }

  /** In every run: a process in the middle of a check started it when the breaker was open; and one about
      to write has read the opening time since, and found the timeout passed. */
  lemma {:induction false} CheckSawOpen(cfg: Config, clock: real, acts: seq<Action>, p: nat) returns (i: nat, j: nat)
    requires var s := Start(clock); IsRun(cfg, s, acts) && p in End(cfg, s, acts).pcs
    ensures i <= j < |acts| && acts[i] == StartCheck(p) && View(End(cfg, Start(clock), acts[..i]).store) == Open
    ensures var pc := End(cfg, Start(clock), acts).pcs[p];
            pc.WillSet? ==> && acts[j] == ReadOpenedAt(p, pc.read) && pc.read - pc.seen >= cfg.timeout
                            && End(cfg, Start(clock), acts[..j]).store.openedAt == Some(pc.seen)
  {
    var f, a := Front(acts), Last(acts);
    assert acts[..|acts| - 1] == f;
    if a == StartCheck(p) {
      i, j := |f|, |f|;
    } else {
      i, j := CheckSawOpen(cfg, clock, f, p);
      assert acts[..i] == f[..i] && acts[..j] == f[..j];
      if a.ReadOpenedAt? && a.p == p {
        j := |f|;
      }
    }
  }

  /** No failure or success, and process p does not die. */
  predicate Quiet(acts: seq<Action>, p: nat) {
    forall a | a in acts :: !a.Fail? && !a.Succeed? && a != Abandon(p)
  }

  /** Whenever p compares the opening time t with its clock, the timeout has passed. */
  predicate Late(cfg: Config, acts: seq<Action>, p: nat, t: real) {
    forall a | a in acts && a.ReadOpenedAt? && a.p == p :: a.now - t >= cfg.timeout
  }

  lemma {:induction false} QuietRun(cfg: Config, s: System, acts: seq<Action>, p: nat)
    requires IsRun(cfg, s, acts) && Quiet(acts, p)
    requires View(s.store) == Open && s.store.openedAt.Some? && p !in s.pcs
    requires Late(cfg, acts, p, s.store.openedAt.value)
    ensures var e := End(cfg, s, acts);
            && e.store.openedAt == s.store.openedAt && View(e.store) != Closed
            && (StartCheck(p) in acts && p !in e.pcs ==> View(e.store) == HalfOpen)
  {
    if acts != [] {
      assert Front(acts) + [Last(acts)] == acts;
      assert Last(acts) in acts && forall a | a in Front(acts) :: a in acts;
      QuietRun(cfg, s, Front(acts), p);
    }
  }

  /** From every reachable open state: once a process has started and finished a check after the
      timeout, with no failure or success meanwhile, the breaker is half-open, whatever checks of
      other processes were interleaved with it. */
  lemma UndisturbedCheck(cfg: Config, clock: real, past: seq<Action>, acts: seq<Action>, p: nat)
    requires var s := End(cfg, Start(clock), past);
             && IsRun(cfg, s, acts) && View(s.store) == Open && p !in s.pcs
             && Quiet(acts, p) && StartCheck(p) in acts && p !in End(cfg, s, acts).pcs
             && (s.store.openedAt.Some? ==> Late(cfg, acts, p, s.store.openedAt.value))
    ensures View(End(cfg, End(cfg, Start(clock), past), acts).store) == HalfOpen
  {
    OpenHasTime(cfg, clock, past);
    QuietRun(cfg, End(cfg, Start(clock), past), acts, p);
  }

  // ---- when interleaved checks still refine the fold ----

  /** Some process has decided to write half_open and not yet written. */
  predicate Pending(s: System) {
    exists p :: p in s.pcs && s.pcs[p].WillSet?
  }

  /** No failure or success falls between a process's decision and its write. */
  predicate NoOverlap(cfg: Config, s: System, acts: seq<Action>) {
    acts == []
    || (NoOverlap(cfg, s, Front(acts))
        && (Last(acts).Fail? || Last(acts).Succeed? ==> !Pending(End(cfg, s, Front(acts)))))
  }

  function LoggedAs(s: System, a: Action): seq<Event> {
    match a
    case Fail(now) => [Event.Failure(now)]
    case Succeed => [Event.Success]
    case SetHalfOpen(p) => if p in s.pcs && s.pcs[p].WillSet? then [Check(s.pcs[p].read)] else []
    case _ => []
  }

  /** The run as a log: every check stands where it wrote. */
  function Log(cfg: Config, s: System, acts: seq<Action>): seq<Event> {
    if acts == [] then [] else Log(cfg, s, Front(acts)) + LoggedAs(End(cfg, s, Front(acts)), Last(acts))
  }

  /** No failure or check in the log is later than `clock`. */
  predicate By(log: seq<Event>, clock: real) {
    forall e | e in log && !e.Success? :: e.now <= clock
  }

  /** What a pending write knows is still so. */
  predicate Current(cfg: Config, s: System, pc: Pc) {
    pc.WillSet? ==> && s.store.openedAt == Some(pc.seen) && View(s.store) != Closed
                    && pc.read - pc.seen >= cfg.timeout && pc.read <= s.clock
  }

  predicate AllCurrent(cfg: Config, s: System) {
    forall p | p in s.pcs :: Current(cfg, s, s.pcs[p])
  }

  /** One step taken where no update meets a pending write. */
  lemma StepRefines(cfg: Config, m: System, a: Action, log: seq<Event>)
    requires Enabled(m, a) && (a.Fail? || a.Succeed? ==> !Pending(m))
    requires m.store == After(cfg, log) && By(log, m.clock) && AllCurrent(cfg, m)
    ensures var e := Act(cfg, m, a);
            e.store == After(cfg, log + LoggedAs(m, a)) && By(log + LoggedAs(m, a), e.clock) && AllCurrent(cfg, e)
  {
    if a.SetHalfOpen? {
      assert Current(cfg, m, m.pcs[a.p]);
    } else if !a.Fail? && !a.Succeed? {
      BreakerIsFold(cfg, log);
      assert log + LoggedAs(m, a) == log;
    }
  }

  /** In every interleaved run in which no failure or success falls between a decision and its
      write, the keys are those of the one-call-at-a-time breaker on the run's log. */
  lemma {:induction false} NoOverlapRefines(cfg: Config, clock: real, acts: seq<Action>)
    requires var s := Start(clock); IsRun(cfg, s, acts) && NoOverlap(cfg, s, acts)
    ensures var s := Start(clock);
            && End(cfg, s, acts).store == After(cfg, Log(cfg, s, acts))
            && By(Log(cfg, s, acts), End(cfg, s, acts).clock)
            && AllCurrent(cfg, End(cfg, s, acts))
  {
    if acts != [] {
      var s := Start(clock);
      NoOverlapRefines(cfg, clock, Front(acts));
      StepRefines(cfg, End(cfg, s, Front(acts)), Last(acts), Log(cfg, s, Front(acts)));
    }
  }

  // ---- which keys a log of single calls can explain ----

  /** A half-open breaker was probed after its timeout. */
  lemma {:induction false} HalfOpenSince(cfg: Config, log: seq<Event>) returns (check: Event)
    requires View(After(cfg, log)) == HalfOpen
    ensures check in log && check.Check? && Elapsed(cfg, After(cfg, log), check.now)
  {
    BreakerIsFold(cfg, log);
    var i: nat :| i < |log| && Probes(cfg, log, LastFailure(log), i);
    check := log[i];
  }

  /** Some log of single calls, nothing in it later than now, leads to these keys. */
  ghost predicate Explained(cfg: Config, s: System) {
    exists log :: By(log, s.clock) && After(cfg, log) == s.store
  }

  /** A breaker that is not closed has its failures, and a half-open one its timeout behind it. */
  predicate Earned(cfg: Config, s: System) {
    && (View(s.store) != Closed ==> s.store.failures >= AtLeastOne(cfg.threshold))
    && (View(s.store) == HalfOpen ==> Elapsed(cfg, s.store, s.clock))
  }

  /** `n` failures at one moment. */
  function Failures(n: nat, at: real): seq<Event> { seq(n, _ => Event.Failure(at)) }

  lemma {:induction false} AfterFailures(cfg: Config, log: seq<Event>, n: nat, at: real)
    requires After(cfg, log) == Store(After(cfg, log).state, 0, None) && View(After(cfg, log)) == Closed
    ensures After(cfg, log + Failures(n, at))
            == if n < AtLeastOne(cfg.threshold) then Store(After(cfg, log).state, n, None) else Store(Some(Open), n, Some(at))
  {
    if n == 0 {
      assert log + Failures(n, at) == log;
    } else {
      AfterFailures(cfg, log, n - 1, at);
      assert Front(log + Failures(n, at)) == log + Failures(n - 1, at);
    }
  }

  /** The log that explains earned keys: the failures at once, and one check if half-open. */
  lemma Explanation(cfg: Config, s: System) returns (log: seq<Event>)
    requires KeysOk(cfg, s.store) && OpenedBy(s) && Earned(cfg, s)
    ensures By(log, s.clock) && After(cfg, log) == s.store
  {
    var start := if s.store.state == Some(Closed) then [Event.Success] else [];
    var at := if s.store.openedAt.Some? then s.store.openedAt.value else s.clock;
    assert Front([Event.Success]) == [];
    AfterFailures(cfg, start, s.store.failures, at);
    log := start + Failures(s.store.failures, at);
    if View(s.store) == HalfOpen {
      assert Front(log + [Check(s.clock)]) == log;
      log := log + [Check(s.clock)];
    }
  }

  /** In every state of every interleaved run: the keys are those of some log of single calls exactly
      when a breaker that is not closed has at least the threshold of failures on its count, and a
      half-open one opened at least the timeout ago. */
  lemma ExplainedIff(cfg: Config, clock: real, acts: seq<Action>)
    requires IsRun(cfg, Start(clock), acts)
    ensures var s := End(cfg, Start(clock), acts); Explained(cfg, s) <==> Earned(cfg, s)
  {
    var s := End(cfg, Start(clock), acts);
    OpenHasTime(cfg, clock, acts);
    OpenedInThePast(cfg, clock, acts);
    if Earned(cfg, s) {
      var log := Explanation(cfg, s);
    }
    if Explained(cfg, s) {
      var log :| By(log, s.clock) && After(cfg, log) == s.store;
      BreakerIsFold(cfg, log);
      if View(s.store) == HalfOpen {
        var check := HalfOpenSince(cfg, log);
      }
    }
  }

  // ---- which updates are safe ----

  /** The failure opens the breaker. */
  predicate Opens(cfg: Config, s: Store, a: Action) { a.Fail? && s.failures + 1 >= cfg.threshold }

  /** The update and then the write of a process that had decided before it. */
  lemma StaleWrite(cfg: Config, m: System, a: Action, p: nat)
    requires (a.Fail? || a.Succeed?) && Enabled(m, a) && Enabled(Act(cfg, m, a), SetHalfOpen(p)) && KeysOk(cfg, m.store)
    ensures Earned(cfg, Act(cfg, Act(cfg, m, a), SetHalfOpen(p))) <==> cfg.timeout <= 0.0 && Opens(cfg, m.store, a)
  {
  }

  lemma TwoMore(cfg: Config, s: System, acts: seq<Action>, a: Action, b: Action)
    ensures End(cfg, s, acts + [a]) == Act(cfg, End(cfg, s, acts), a)
    ensures IsRun(cfg, s, acts + [a]) <==> IsRun(cfg, s, acts) && Enabled(End(cfg, s, acts), a)
    ensures End(cfg, s, acts + [a] + [b]) == Act(cfg, End(cfg, s, acts + [a]), b)
    ensures IsRun(cfg, s, acts + [a] + [b]) <==> IsRun(cfg, s, acts + [a]) && Enabled(End(cfg, s, acts + [a]), b)
  {
    assert Front(acts + [a]) == acts;
    assert Front(acts + [a] + [b]) == acts + [a];
  }

  /** After any run whatever: if a failure or success falls between the decision of p and its write, the
      write leaves keys that no log of calls up to that moment explains, unless there is no timeout and
      the failure opened the breaker. */
  lemma OverlapEscapesIff(cfg: Config, clock: real, acts: seq<Action>, a: Action, p: nat)
    requires IsRun(cfg, Start(clock), acts + [a] + [SetHalfOpen(p)]) && (a.Fail? || a.Succeed?)
    ensures Explained(cfg, End(cfg, Start(clock), acts + [a] + [SetHalfOpen(p)]))
            <==> cfg.timeout <= 0.0 && Opens(cfg, End(cfg, Start(clock), acts).store, a)
  {
    var s := Start(clock);
    TwoMore(cfg, s, acts, a, SetHalfOpen(p));
    OpenHasTime(cfg, clock, acts);
    ExplainedIff(cfg, clock, acts + [a] + [SetHalfOpen(p)]);
    StaleWrite(cfg, End(cfg, s, acts), a, p);
  }

  /** So, after any run, no write that was pending at a failure or success can leave unexplained keys
      exactly when none was pending, or there is no timeout and the failure opened the breaker. */
  lemma UpdateSafeIff(cfg: Config, clock: real, acts: seq<Action>, a: Action)
    requires IsRun(cfg, Start(clock), acts + [a]) && (a.Fail? || a.Succeed?)
    ensures var m := End(cfg, Start(clock), acts);
            (forall p | Enabled(Act(cfg, m, a), SetHalfOpen(p)) ::
               Explained(cfg, End(cfg, Start(clock), acts + [a] + [SetHalfOpen(p)])))
            <==> !Pending(m) || (cfg.timeout <= 0.0 && Opens(cfg, m.store, a))
  {
    var s, m := Start(clock), End(cfg, Start(clock), acts);
    forall p | Enabled(Act(cfg, m, a), SetHalfOpen(p))
      ensures Explained(cfg, End(cfg, s, acts + [a] + [SetHalfOpen(p)])) <==> cfg.timeout <= 0.0 && Opens(cfg, m.store, a)
    {
      TwoMore(cfg, s, acts, a, SetHalfOpen(p));
      OverlapEscapesIff(cfg, clock, acts, a, p);
    }
    assert forall p :: Enabled(Act(cfg, m, a), SetHalfOpen(p)) <==> p in m.pcs && m.pcs[p].WillSet?;
  }

  /** The overlap can happen: a stale write turns a freshly closed breaker half-open, and one more
      failure then opens it with a single failure on the count. */
  lemma StaleWriteReopens(cfg: Config, p: nat) returns (acts: seq<Action>)
    requires cfg == Config(3, 60.0)
    ensures var s := Start(0.0);
            && IsRun(cfg, s, acts)
            && View(End(cfg, s, acts).store) == Open && End(cfg, s, acts).store.failures == 1
            && FailureReply(cfg, End(cfg, s, acts).store) == Closed
  {
    var s := Start(0.0);
    var a0: seq<Action> := [];
    var a3 := a0 + [Fail(0.0)] + [Fail(0.0)] + [Fail(0.0)];
    var a5 := a3 + [StartCheck(p)] + [ReadOpenedAt(p, 60.0)];
    Extend(cfg, s, a0, Fail(0.0));
    Extend(cfg, s, a0 + [Fail(0.0)], Fail(0.0));
    Extend(cfg, s, a0 + [Fail(0.0)] + [Fail(0.0)], Fail(0.0));
    Extend(cfg, s, a3, StartCheck(p));
    Extend(cfg, s, a3 + [StartCheck(p)], ReadOpenedAt(p, 60.0));
    Extend(cfg, s, a5, Succeed);
    Extend(cfg, s, a5 + [Succeed], SetHalfOpen(p));
    Extend(cfg, s, a5 + [Succeed] + [SetHalfOpen(p)], Fail(61.0));
    acts := a5 + [Succeed] + [SetHalfOpen(p)] + [Fail(61.0)];
  }

  lemma Extend(cfg: Config, s: System, acts: seq<Action>, a: Action)
    requires IsRun(cfg, s, acts) && Enabled(End(cfg, s, acts), a)
    ensures IsRun(cfg, s, acts + [a]) && End(cfg, s, acts + [a]) == Act(cfg, End(cfg, s, acts), a)
  {
    assert Front(acts + [a]) == acts;
  }
}
