/** The consumer service: a rate configuration derived once at start-up, a
    timing gate that pads every message's work up to a minimum duration, and
    the consume callback that acks a handled message or nacks it with
    requeue, one message in flight at a time.

    Time is a natural number of milliseconds. The real work of a message is
    not run here: its outcome (how long it took, or that it threw) is a
    parameter, and the clock is the sum of the time each message occupies. */
module Consumer {
  import opened Transport

  /** Milliseconds in the one-second window the rates are expressed over. */
  const MsPerSecond: nat := 1000
  /** Defaults used when the environment leaves a setting unset or empty. */
  const DefaultMaxInProgressPerSecond: nat := 10
  const DefaultConsumersCount: nat := 1

  // ---------------------------------------------------------------------
  // Rate configuration
  // ---------------------------------------------------------------------

  /** `process.env.X ? Number(process.env.X) : default`, with `None`
      standing for an unset or empty variable. */
  function Setting(env: Option<nat>, default: nat): nat
  {
    match env
    case None => default
    case Some(x) => x
  }

  /** `Math.floor(MAX_IN_PROGRESS_PER_SECOND / CONSUMERS_COUNT)`: on
      non-negative integers the floor of the quotient is Dafny's `/`. */
  function PerInstanceRate(maxPerSecond: nat, consumers: nat): (r: nat)
    requires consumers >= 1
    ensures r * consumers <= maxPerSecond < (r + 1) * consumers
  {
    maxPerSecond / consumers
  }

  /** `Math.ceil(1000 / rate)`: the shortest whole number of milliseconds
      such that `rate` messages of that length fill at least one second. */
  function MinExecutionTime(rate: nat): (m: nat)
    requires rate >= 1
    ensures m * rate >= MsPerSecond
    ensures (m - 1) * rate < MsPerSecond
    ensures 1 <= m <= MsPerSecond
  {
    var q := (MsPerSecond + rate - 1) / rate;
    var rem := (MsPerSecond + rate - 1) % rate;
    assert MsPerSecond + rate - 1 == q * rate + rem;
    assert (q - 1) * rate == q * rate - rate;
    q
  }

  /** The configuration every other part of the consumer reads: computed
      once, never changed. */
  datatype RateConfig = RateConfig(perInstance: nat, minExecutionMs: nat) {
    predicate Valid() {
      perInstance >= 1 && minExecutionMs == MinExecutionTime(perInstance)
    }
  }

  /** The configuration as it should be derived: rejected (`None`) when the
      instance count is zero or the per-instance rate floors to zero, since
      neither yields a finite minimum duration. When accepted, the
      per-instance ceilings of all instances together stay within the
      global target. */
  function MakeRateConfig(maxPerSecond: nat, consumers: nat): (c: Option<RateConfig>)
    ensures c.Some? <==> consumers >= 1 && maxPerSecond >= consumers
    ensures c.Some? ==> c.value.Valid()
    ensures c.Some? ==> c.value.perInstance * consumers <= maxPerSecond
    ensures c.Some? ==> maxPerSecond < (c.value.perInstance + 1) * consumers
  {
    if consumers == 0 then None
    else
      var rate := PerInstanceRate(maxPerSecond, consumers);
      if rate == 0 then None
      else Some(RateConfig(rate, MinExecutionTime(rate)))
  }

  /** The configuration a consumer starts with when the environment sets
      nothing: ten messages per second on one instance, 100 ms each. */
  lemma DefaultConfig()
    ensures MakeRateConfig(Setting(None, DefaultMaxInProgressPerSecond),
                           Setting(None, DefaultConsumersCount))
            == Some(RateConfig(10, 100))
  {
  }

  /** A JavaScript number that may be `Infinity`. */
  datatype Millis = Finite(ms: nat) | Infinite

  /** `MIN_EXECUTION_TIME_IN_MS` as the source computes it, with no check on
      the rate: `Math.ceil(1000 / 0)` is `Infinity`. For a rate of at least
      one the value is finite, and `MinExecutionTime`'s contract gives
      `m.ms * rate >= MsPerSecond`. */
  function MinExecutionTimeAsWritten(rate: nat): (m: Millis)
    ensures rate >= 1 ==> m == Finite(MinExecutionTime(rate))
    ensures rate == 0 ==> m.Infinite?
  {
    if rate == 0 then Infinite else Finite(MinExecutionTime(rate))
  }

  /** With a global target of 5 messages per second over 10 instances the
      source goes ahead with a per-instance rate of 0: its minimum duration
      is not a finite number and no duration, however long, makes that rate
      a ceiling one second can hold. `MakeRateConfig` rejects the same
      input. */
  lemma ZeroRateHasNoFiniteMinimum()
    ensures PerInstanceRate(5, 10) == 0
    ensures MinExecutionTimeAsWritten(PerInstanceRate(5, 10)).Infinite?
    ensures forall m: nat :: m * PerInstanceRate(5, 10) < MsPerSecond
    ensures MakeRateConfig(5, 10) == None
  {
  }

  // ---------------------------------------------------------------------
  // Timing gate and simulated work
  // ---------------------------------------------------------------------

  /** `Math.max(0, MIN_EXECUTION_TIME_IN_MS - resolvedAfter)`: how long the
      handler idles after the work. Only this message's own work time enters
      it: nothing is carried over from earlier messages. */
  function TimeToIdle(minMs: nat, resolvedAfter: nat): (idle: nat)
    ensures resolvedAfter >= minMs ==> idle == 0
    ensures resolvedAfter < minMs ==> idle == minMs - resolvedAfter
    ensures resolvedAfter + idle >= minMs
    ensures resolvedAfter + idle == Max(minMs, resolvedAfter)
  {
    var d: int := minMs - resolvedAfter;
    if 0 >= d then 0 else d
  }

  function Max(a: nat, b: nat): nat {
    if a >= b then a else b
  }

  /** `Math.floor(Math.random() * 80 + 20)`, the simulated work time, with
      the random draw as a parameter in [0, 1). */
  function WorkDuration(random: real): (d: nat)
    requires 0.0 <= random < 1.0
    ensures 20 <= d <= 99
  {
    var x := random * 80.0 + 20.0;
    assert 20.0 <= x < 100.0;
    x.Floor
  }

  /** What `handleMessage` did with one delivery: it resolved after its
      measured work time (and then idled), or it threw after some time. */
  datatype Outcome = Resolved(resolvedAfter: nat) | Threw(elapsed: nat)

  /** How long one delivery keeps the consumer busy, from delivery to ack or
      nack. A handled message occupies at least the minimum duration, and a
      slow one exactly its own work time: the gate never shortens work. */
  function Occupancy(cfg: RateConfig, o: Outcome): (t: nat)
    ensures o.Resolved? ==> t >= cfg.minExecutionMs && t >= o.resolvedAfter
    ensures o.Resolved? && o.resolvedAfter >= cfg.minExecutionMs ==> t == o.resolvedAfter
    ensures o.Resolved? && o.resolvedAfter < cfg.minExecutionMs ==> t == cfg.minExecutionMs
    ensures o.Threw? ==> t == o.elapsed
  {
    match o
    case Resolved(r) => r + TimeToIdle(cfg.minExecutionMs, r)
    case Threw(e) => e
  }

  /** Time spent on a run of deliveries handled one after the other. */
  function Elapsed(cfg: RateConfig, os: seq<Outcome>): nat
  {
    if os == [] then 0 else Occupancy(cfg, os[0]) + Elapsed(cfg, os[1..])
  }

  /** Number of deliveries in a run that were handled (and so acked). */
  function Successes(os: seq<Outcome>): nat
  {
    if os == [] then 0 else (if os[0].Resolved? then 1 else 0) + Successes(os[1..])
  }

  /** No carry-over: the time of two runs back to back is the sum of their
      times, whatever happened in the first. */
  lemma {:induction false} ElapsedAdditive(cfg: RateConfig, a: seq<Outcome>, b: seq<Outcome>)
    ensures Elapsed(cfg, a + b) == Elapsed(cfg, a) + Elapsed(cfg, b)
  {
    if a != [] {
      assert (a + b)[0] == a[0];
      assert (a + b)[1..] == a[1..] + b;
      ElapsedAdditive(cfg, a[1..], b);
    } else {
      assert a + b == b;
    }
  }

  /** Every handled message in a run costs at least the minimum duration. */
  lemma {:induction false} ElapsedCoversSuccesses(cfg: RateConfig, os: seq<Outcome>)
    requires cfg.Valid()
    ensures Elapsed(cfg, os) >= Successes(os) * cfg.minExecutionMs
  {
    if os != [] {
      ElapsedCoversSuccesses(cfg, os[1..]);
      var s, m := Successes(os[1..]), cfg.minExecutionMs;
      if os[0].Resolved? {
        assert Successes(os) == 1 + s;
        MulSucc(s, m);
      } else {
        assert Successes(os) == s;
      }
    }
  }

  /** Spacing: between the completion of the i-th and the j-th delivery at
      least the minimum duration passes for every message handled in
      between (completion k happens at time `Elapsed(cfg, os[..k])`). */
  lemma SuccessSpacing(cfg: RateConfig, os: seq<Outcome>, i: nat, j: nat)
    requires cfg.Valid()
    requires i <= j <= |os|
    ensures Elapsed(cfg, os[..j]) - Elapsed(cfg, os[..i])
            >= Successes(os[i..j]) * cfg.minExecutionMs
  {
    assert os[..j] == os[..i] + os[i..j];
    ElapsedAdditive(cfg, os[..i], os[i..j]);
    ElapsedCoversSuccesses(cfg, os[i..j]);
  }

  /** The throughput ceiling: a run of serialized deliveries that fits in
      `seconds` seconds handles at most `perInstance` messages per second. */
  lemma RateCeiling(cfg: RateConfig, os: seq<Outcome>, seconds: nat)
    requires cfg.Valid()
    requires Elapsed(cfg, os) <= MsPerSecond * seconds
    ensures Successes(os) <= cfg.perInstance * seconds
  {
    var s, m, r := Successes(os), cfg.minExecutionMs, cfg.perInstance;
    ElapsedCoversSuccesses(cfg, os);
    MulMonotone(MsPerSecond, m * r, seconds);
    MulRearrange(m, r, seconds);
    MulCancel(s, r * seconds, m);
  }

  lemma MulSucc(s: nat, m: nat)
    ensures (1 + s) * m == m + s * m
  {
  }

  lemma MulMonotone(a: nat, b: nat, k: nat)
    requires a <= b
    ensures a * k <= b * k
  {
  }

  lemma MulRearrange(m: nat, r: nat, k: nat)
    ensures (m * r) * k == (r * k) * m
  {
  }

  lemma MulStrict(a: nat, b: nat, m: nat)
    requires m >= 1 && a > b
    ensures a * m > b * m
  {
  }

  lemma MulCancel(a: nat, b: nat, m: nat)
    requires m >= 1 && a * m <= b * m
    ensures a <= b
  {
    if a > b {
      MulStrict(a, b, m);
    }
  }

  // ---------------------------------------------------------------------
  // The consume callback and the queue it drives
  // ---------------------------------------------------------------------

  /** The part of the channel's state the consumer changes between two
      deliveries (no message is unacknowledged then). */
  datatype QueueState = QueueState(ready: seq<Msg>, acked: seq<Msg>)

  /** One delivery settled: the head of the queue is acked when handled and
      nacked with requeue (back behind the waiting messages) when it threw.
      Either way the message is neither lost nor duplicated, and it is acked
      exactly when it was handled. */
  function Settle(s: QueueState, o: Outcome): (t: QueueState)
    requires s.ready != []
    ensures multiset(t.ready) + multiset(t.acked) == multiset(s.ready) + multiset(s.acked)
    ensures |t.acked| == |s.acked| + (if o.Resolved? then 1 else 0)
    ensures |t.ready| == |s.ready| - (if o.Resolved? then 1 else 0)
    ensures t.acked[..|s.acked|] == s.acked
    ensures o.Resolved? ==> t.acked[|s.acked|] == s.ready[0] && t.ready == s.ready[1..]
    ensures o.Threw? ==> t.ready[..|s.ready| - 1] == s.ready[1..]
                         && t.ready[|s.ready| - 1] == s.ready[0]
  {
    assert s.ready == [s.ready[0]] + s.ready[1..];
    match o
    case Resolved(_) => QueueState(s.ready[1..], s.acked + [s.ready[0]])
    case Threw(_) => QueueState(s.ready[1..] + [s.ready[0]], s.acked)
  }

  /** The consumer's run over a sequence of outcomes, one per delivery; it
      stops when the outcomes run out or the queue is empty. */
  function Consume(s: QueueState, os: seq<Outcome>): QueueState
    decreases |os|
  {
    if os == [] || s.ready == [] then s else Consume(Settle(s, os[0]), os[1..])
  }

  /** How many deliveries `Consume` settles. */
  function Processed(s: QueueState, os: seq<Outcome>): nat
    decreases |os|
  {
    if os == [] || s.ready == [] then 0 else 1 + Processed(Settle(s, os[0]), os[1..])
  }

  /** Nothing is ever dropped: every message is still queued or acked, and
      the acked log only grows. */
  lemma {:induction false} ConsumeConserves(s: QueueState, os: seq<Outcome>)
    ensures var t := Consume(s, os);
            multiset(t.ready) + multiset(t.acked) == multiset(s.ready) + multiset(s.acked)
            && |s.acked| <= |t.acked| && t.acked[..|s.acked|] == s.acked
    decreases |os|
  {
    if os != [] && s.ready != [] {
      var s1 := Settle(s, os[0]);
      ConsumeConserves(s1, os[1..]);
      var t := Consume(s1, os[1..]);
      assert t.acked[..|s.acked|] == t.acked[..|s1.acked|][..|s.acked|];
    }
  }

  /** Exactly one ack per handled delivery, and none for one that threw. */
  lemma {:induction false} ConsumeAcksSuccesses(s: QueueState, os: seq<Outcome>)
    ensures Processed(s, os) <= |os|
    ensures |Consume(s, os).acked| == |s.acked| + Successes(os[..Processed(s, os)])
    decreases |os|
  {
    if os != [] && s.ready != [] {
      var s1 := Settle(s, os[0]);
      ConsumeAcksSuccesses(s1, os[1..]);
      var k := Processed(s1, os[1..]);
      assert os[..k + 1][0] == os[0];
      assert os[..k + 1][1..] == os[1..][..k];
    } else {
      assert os[..0] == [];
    }
  }

  /** The run stops short of its outcomes only when the queue is empty. */
  lemma {:induction false} ConsumeStopsWhenDrained(s: QueueState, os: seq<Outcome>)
    ensures Processed(s, os) < |os| ==> Consume(s, os).ready == []
    decreases |os|
  {
    if os != [] && s.ready != [] {
      ConsumeStopsWhenDrained(Settle(s, os[0]), os[1..]);
    }
  }

  /** The consume callback for one delivered message `m`: await the handler
      (whose outcome is `o`), then ack on success or nack with requeue on
      failure. Returns the time the delivery kept the consumer busy. */
  method HandleDelivery(ch: Channel, cfg: RateConfig, m: Msg, o: Outcome) returns (spent: nat)
    requires ch.unacked == Some(m)
    modifies ch
    ensures spent == Occupancy(cfg, o)
    ensures ch.unacked == None
    ensures o.Resolved? ==> ch.ready == old(ch.ready) && ch.acked == old(ch.acked) + [m]
    ensures o.Threw? ==> ch.ready == old(ch.ready) + [m] && ch.acked == old(ch.acked)
  {
    match o
    case Resolved(resolvedAfter) =>
      var timeToIdle := TimeToIdle(cfg.minExecutionMs, resolvedAfter);
      spent := resolvedAfter + timeToIdle;
      ch.Ack(m);
    case Threw(e) =>
      spent := e;
      ch.Nack(m);
  }

  /** The consumer's subscription: take deliveries one at a time while the
      broker has any and outcomes remain, settling each before the next.
      Returns how many deliveries were settled and the time they took; the
      number of acks in that time respects the gate's minimum duration. */
  method Run(ch: Channel, cfg: RateConfig, os: seq<Outcome>) returns (n: nat, spent: nat)
    requires cfg.Valid()
    requires ch.unacked == None
    modifies ch
    ensures ch.unacked == None
    ensures QueueState(ch.ready, ch.acked) == Consume(QueueState(old(ch.ready), old(ch.acked)), os)
    ensures n == Processed(QueueState(old(ch.ready), old(ch.acked)), os) && n <= |os|
    ensures n < |os| ==> ch.ready == []
    ensures spent == Elapsed(cfg, os[..n])
    ensures |ch.acked| >= |old(ch.acked)|
    ensures (|ch.acked| - |old(ch.acked)|) * cfg.minExecutionMs <= spent
    ensures multiset(ch.ready) + multiset(ch.acked) == multiset(old(ch.ready)) + multiset(old(ch.acked))
  {
    ghost var s0 := QueueState(ch.ready, ch.acked);
    n, spent := 0, 0;
    var drained := false;
    while n < |os| && !drained
      invariant n <= |os|
      invariant ch.unacked == None
      invariant drained ==> ch.ready == []
      invariant Consume(s0, os) == Consume(QueueState(ch.ready, ch.acked), os[n..])
      invariant Processed(s0, os) == n + Processed(QueueState(ch.ready, ch.acked), os[n..])
      invariant spent == Elapsed(cfg, os[..n])
      decreases |os| - n, if drained then 0 else 1
    {
      ghost var s := QueueState(ch.ready, ch.acked);
      var d := ch.Deliver();
      if d.None? {
        drained := true;
      } else {
        var t := HandleDelivery(ch, cfg, d.value, os[n]);
        ConsumeStep(s, os, n);
        ElapsedStep(cfg, os, n);
        spent := spent + t;
        n := n + 1;
      }
    }
    RunSummary(cfg, s0, os, n);
  }

  /** One iteration of `Run`'s loop, in terms of the specification. */
  lemma ConsumeStep(s: QueueState, os: seq<Outcome>, n: nat)
    requires n < |os| && s.ready != []
    ensures Consume(s, os[n..]) == Consume(Settle(s, os[n]), os[n + 1..])
    ensures Processed(s, os[n..]) == 1 + Processed(Settle(s, os[n]), os[n + 1..])
  {
  }

  lemma ElapsedStep(cfg: RateConfig, os: seq<Outcome>, n: nat)
    requires n < |os|
    ensures Elapsed(cfg, os[..n + 1]) == Elapsed(cfg, os[..n]) + Occupancy(cfg, os[n])
  {
    assert os[..n + 1] == os[..n] + [os[n]];
    ElapsedAdditive(cfg, os[..n], [os[n]]);
  }

  /** What `Run` promises about the acks, from the lemmas on `Consume`. */
  lemma RunSummary(cfg: RateConfig, s0: QueueState, os: seq<Outcome>, n: nat)
    requires cfg.Valid() && n == Processed(s0, os)
    ensures n <= |os|
    ensures |Consume(s0, os).acked| >= |s0.acked|
    ensures (|Consume(s0, os).acked| - |s0.acked|) * cfg.minExecutionMs
            <= Elapsed(cfg, os[..n])
    ensures multiset(Consume(s0, os).ready) + multiset(Consume(s0, os).acked)
            == multiset(s0.ready) + multiset(s0.acked)
  {
    ConsumeAcksSuccesses(s0, os);
    ConsumeConserves(s0, os);
    ElapsedCoversSuccesses(cfg, os[..n]);
  }
}
