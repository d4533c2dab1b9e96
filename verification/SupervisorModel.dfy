/** The production loop of the main program as a controller: error counting, recovery with
    a capped doubling backoff, and the watchdog. */
module SupervisorModel {
  import opened Numerals
  import opened PnetStack
  import opened DeviceModel
  import opened DeviceTheorems

  const MAX_CONSECUTIVE_ERRORS: nat := 5
  const BACKOFF_BASE: u32 := 1_000_000
  const BACKOFF_MAX: u32 := 30_000_000
  const PING_MS: nat := 15_000

  // ---------------------------------------------------------------- the controller alone

  /** The loop's local variables; `live` says that the device has a handle. */
  datatype Controller = Controller(live: bool, errors: nat, attempts: nat, backoff: u32)

  /** What the environment decides in one iteration: whether the tick of a live device
      succeeds, and whether a restart would. */
  datatype Outcome = Outcome(tickOk: bool, restartOk: bool)

  const STARTED: Controller := Controller(true, 0, 0, BACKOFF_BASE)

  /** A device without a handle cannot tick. */
  predicate TickFails(c: Controller, o: Outcome) {
    !(c.live && o.tickOk)
  }

  predicate Recovers(c: Controller, o: Outcome) {
    TickFails(c, o) && c.errors + 1 >= MAX_CONSECUTIVE_ERRORS
  }

  /** useconds_t has 32 bits. */
  function Doubled(backoff: u32): u32 {
    var b := Low(backoff * 2, 0x1_0000_0000);
    if b > BACKOFF_MAX then BACKOFF_MAX else b
  }

  function Advance(c: Controller, o: Outcome): Controller {
    if !TickFails(c, o) then c.(errors := 0, attempts := 0, backoff := BACKOFF_BASE)
    else if !Recovers(c, o) then c.(errors := c.errors + 1)
    else Controller(o.restartOk, if o.restartOk then 0 else c.errors + 1, c.attempts + 1, Doubled(c.backoff))
  }

  /** The controller at the head of iteration `n`, once the initial start succeeded. */
  function At(trace: seq<Outcome>, n: nat): Controller
    requires n <= |trace|
  {
    if n == 0 then STARTED else Advance(At(trace, n - 1), trace[n - 1])
  }

  predicate FailedAt(trace: seq<Outcome>, n: nat)
    requires n < |trace|
  {
    TickFails(At(trace, n), trace[n])
  }

  predicate RecoversAt(trace: seq<Outcome>, n: nat)
    requires n < |trace|
  {
    Recovers(At(trace, n), trace[n])
  }

  // ---------------------------------------------------------------- backoff

  /** The backoff in microseconds after `k` attempts without a successful tick. */
  function BackoffFor(k: nat): nat {
    Least(1_000_000 * Pow(2, k), 30_000_000)
  }

  lemma {:induction false} PowerOfTwo(k: nat)
    requires k >= 5
    ensures Pow(2, k) >= 32
  {
    if k > 5 {
      PowerOfTwo(k - 1);
    } else {
      SmallPowers();
    }
  }

  lemma SmallPowers()
    ensures Pow(2, 0) == 1 && Pow(2, 1) == 2 && Pow(2, 2) == 4 && Pow(2, 3) == 8 && Pow(2, 4) == 16 && Pow(2, 5) == 32
  {
  }

  lemma BackoffDoubles(k: nat)
    ensures BACKOFF_BASE <= BackoffFor(k) <= BACKOFF_MAX
    ensures Doubled(BackoffFor(k)) == BackoffFor(k + 1)
    ensures BackoffFor(0) == BACKOFF_BASE
  {
    PowPositive(2, k);
    assert Pow(2, k + 1) == 2 * Pow(2, k);
  }

  /** At every loop head the backoff is 1 s doubled once per attempt, capped at 30 s, and
      doubling it again stays within 32 bits. */
  lemma {:induction false} BackoffClosedForm(trace: seq<Outcome>, n: nat)
    requires n <= |trace|
    ensures At(trace, n).backoff == BackoffFor(At(trace, n).attempts)
    ensures At(trace, n).backoff * 2 < 0x1_0000_0000
  {
    hide BackoffFor, Doubled;
    BackoffDoubles(At(trace, n).attempts);
    if n > 0 {
      BackoffClosedForm(trace, n - 1);
      BackoffDoubles(At(trace, n - 1).attempts);
    }
  }

  /** How long iteration `n` sleeps for recovery. */
  function SleepAt(trace: seq<Outcome>, n: nat): nat
    requires n < |trace|
  {
    if RecoversAt(trace, n) then At(trace, n).backoff else 0
  }

  /** Attempts, and microseconds slept for them, since the latest successful tick. */
  function Since(trace: seq<Outcome>, n: nat): (nat, nat)
    requires n <= |trace|
  {
    if n == 0 || !FailedAt(trace, n - 1) then (0, 0)
    else
      var (k, slept) := Since(trace, n - 1);
      (if RecoversAt(trace, n - 1) then k + 1 else k, slept + SleepAt(trace, n - 1))
  }

  /** 1 + 2 + 4 + 8 + 16 seconds, then 30 seconds each. */
  function TotalSleep(k: nat): int {
    if k <= 5 then (Pow(2, k) - 1) * 1_000_000 else (31 + 30 * (k - 5)) * 1_000_000
  }

  lemma TotalSleepGrows(k: nat)
    ensures TotalSleep(k + 1) == TotalSleep(k) + BackoffFor(k)
    ensures TotalSleep(0) == 0
  {
    SmallPowers();
    if k >= 5 {
      PowerOfTwo(k);
    } else {
      assert Pow(2, k + 1) == 2 * Pow(2, k);
      assert Pow(2, k) <= 16;
    }
  }

  /** The total backoff over k attempts without a successful tick. */
  lemma {:induction false} BackoffTotal(trace: seq<Outcome>, n: nat)
    requires n <= |trace|
    ensures Since(trace, n).0 == At(trace, n).attempts
    ensures Since(trace, n).1 == TotalSleep(Since(trace, n).0)
  {
    hide BackoffFor, Doubled, TotalSleep;
    TotalSleepGrows(0);
    if n > 0 {
      BackoffTotal(trace, n - 1);
      BackoffClosedForm(trace, n - 1);
      TotalSleepGrows(At(trace, n - 1).attempts);
    }
  }

  // ---------------------------------------------------------------- when recovery starts

  /** The latest recovery attempt before iteration `n` did not bring the device back. */
  predicate LastRestartFailed(trace: seq<Outcome>, n: nat)
    requires n <= |trace|
  {
    exists i | 0 <= i < n :: FailedRestart(trace, i, n)
  }

  /** Iteration `i` attempted recovery in vain, and no later one before `n` attempted it. */
  predicate FailedRestart(trace: seq<Outcome>, i: nat, n: nat)
    requires i < n <= |trace|
  {
    RecoversAt(trace, i) && !trace[i].restartOk && forall j | i < j < n :: !RecoversAt(trace, j)
  }

  lemma {:induction false} HandleOfErrors(trace: seq<Outcome>, n: nat)
    requires n <= |trace|
    ensures At(trace, n).errors >= MAX_CONSECUTIVE_ERRORS <==> !At(trace, n).live
    ensures !At(trace, n).live <==> n > 0 && RecoversAt(trace, n - 1) && !trace[n - 1].restartOk
  {
    if n > 0 { HandleOfErrors(trace, n - 1); }
  }

  /** At every loop head: five or more consecutive errors, no handle, and a failed last
      restart are the same thing; then the next tick must fail and recovery is retried at
      once. */
  lemma ErrorsMeanNoHandle(trace: seq<Outcome>, n: nat)
    requires n <= |trace|
    ensures At(trace, n).errors >= 5 <==> !At(trace, n).live
    ensures !At(trace, n).live <==> LastRestartFailed(trace, n)
    ensures n < |trace| && !At(trace, n).live ==> FailedAt(trace, n) && RecoversAt(trace, n)
  {
    hide Advance;
    HandleOfErrors(trace, n);
    if n > 0 && LastRestartFailed(trace, n) {
      var i :| 0 <= i < n && FailedRestart(trace, i, n);
      HandleOfErrors(trace, i + 1);
      RetriesAtOnce(trace, i + 1);
    }
    RetriesAtOnce(trace, n);
    if !At(trace, n).live {
      assert FailedRestart(trace, n - 1, n);
    }
  }

  lemma RetriesAtOnce(trace: seq<Outcome>, n: nat)
    requires n <= |trace|
    ensures n < |trace| && !At(trace, n).live ==> FailedAt(trace, n) && RecoversAt(trace, n)
  {
    HandleOfErrors(trace, n);
  }

  /** The last `k` ticks failed, and no recovery came between them. */
  predicate FailedRun(trace: seq<Outcome>, n: nat, k: nat)
    requires n <= |trace|
  {
    k <= n && forall j | n - k <= j < n :: FailedAt(trace, j) && !RecoversAt(trace, j)
  }

  lemma {:induction false} ErrorsCountFailures(trace: seq<Outcome>, n: nat, k: nat)
    requires n <= |trace| && At(trace, n).live
    ensures At(trace, n).errors >= k <==> FailedRun(trace, n, k)
    decreases n
  {
    HandleOfErrors(trace, n);
    if n > 0 && k > 0 {
      if FailedAt(trace, n - 1) && !RecoversAt(trace, n - 1) {
        ErrorsCountFailures(trace, n - 1, k - 1);
        assert FailedRun(trace, n, k) <==> FailedRun(trace, n - 1, k - 1);
      }
    }
  }

  /** While the device has a handle, recovery starts in iteration `n` if and only if its
      tick fails and so did the four before, without a recovery between them. */
  lemma RecoveryTrigger(trace: seq<Outcome>, n: nat)
    requires n < |trace| && At(trace, n).live
    ensures RecoversAt(trace, n) <==> FailedAt(trace, n) && FailedRun(trace, n, 4)
  {
    hide FailedRun;
    ErrorsCountFailures(trace, n, 4);
  }

  // ---------------------------------------------------------------- the watchdog

  /** Subtraction of unsigned long. */
  function Minus(a: nat, b: nat): int {
    if a >= b then a - b else a - b + (ULONG_MAX + 1)
  }

  /** last_watchdog_ms before iteration `n`, for the clock readings `times`. */
  function LastPing(times: seq<nat>, n: nat): nat
    requires n <= |times|
    decreases n, 0
  {
    if n == 0 then 0 else if PingAt(times, n - 1) then times[n - 1] else LastPing(times, n - 1)
  }

  predicate PingAt(times: seq<nat>, n: nat)
    requires n < |times|
    decreases n, 1
  {
    Minus(times[n], LastPing(times, n)) >= PING_MS
  }

  predicate Monotone(times: seq<nat>) {
    forall i, j | 0 <= i <= j < |times| :: times[i] <= times[j]
  }

  predicate NoPingBetween(times: seq<nat>, i: nat, j: nat)
    requires i <= j <= |times|
  {
    forall k | i < k < j :: !PingAt(times, k)
  }

  lemma {:induction false} LastPingStays(times: seq<nat>, i: nat, j: nat)
    requires i < j <= |times| && PingAt(times, i) && NoPingBetween(times, i, j)
    ensures LastPing(times, j) == times[i]
  {
    if i + 1 < j { LastPingStays(times, i, j - 1); }
  }

  /** On a monotone clock whose readings are at most `d` ms apart, successive pings are at
      least 15000 and at most 14999 + d ms apart. */
  lemma WatchdogGap(times: seq<nat>, d: nat, i: nat, j: nat)
    requires Monotone(times) && i < j < |times|
    requires forall k | i <= k < j :: times[k + 1] - times[k] <= d
    requires PingAt(times, i) && PingAt(times, j) && NoPingBetween(times, i, j)
    ensures 15_000 <= times[j] - times[i] <= 14_999 + d
  {
    LastPingStays(times, i, j);
    if i + 1 < j {
      LastPingStays(times, i, j - 1);
      assert !PingAt(times, j - 1);
    }
    assert times[j - 1 + 1] - times[j - 1] <= d;
  }

  /** While no ping comes, less than 15 s have passed since the last one. */
  lemma PingsAreNotMissed(times: seq<nat>, i: nat, j: nat)
    requires Monotone(times) && i < j < |times| && PingAt(times, i) && NoPingBetween(times, i, j + 1)
    ensures times[j] - times[i] < 15_000
  {
    assert NoPingBetween(times, i, j);
    LastPingStays(times, i, j);
    assert !PingAt(times, j);
  }

  /** The clock, read once per iteration in microseconds: between two readings lie the tick
      sleep, the backoff of the iteration that reads, and at most `work` besides. */
  predicate Paced(trace: seq<Outcome>, clock: seq<nat>, tickUs: u32, work: nat) {
    && |clock| == |trace|
    && forall k | 0 <= k < |clock| - 1 ::
      clock[k] <= clock[k + 1] <= clock[k] + tickUs + SleepAt(trace, k + 1) + work
  }

  function Millis(clock: seq<nat>): (ms: seq<nat>)
    ensures |ms| == |clock| && forall i | 0 <= i < |ms| :: ms[i] == clock[i] / 1000
  {
    seq(|clock|, i requires 0 <= i < |clock| => clock[i] / 1000)
  }

  lemma {:induction false} ClockGrows(trace: seq<Outcome>, clock: seq<nat>, tickUs: u32, work: nat, i: nat, j: nat)
    requires Paced(trace, clock, tickUs, work) && i <= j < |clock|
    ensures clock[i] <= clock[j]
  {
    if i < j {
      ClockGrows(trace, clock, tickUs, work, i, j - 1);
      assert clock[j - 1] <= clock[j - 1 + 1];
    }
  }

  /** With the backoff invariant: whatever ticks and restarts do, successive pings are at
      most 15 s, a 30 s backoff, one tick sleep and the work allowance apart. */
  lemma WatchdogUnderBackoff(trace: seq<Outcome>, clock: seq<nat>, tickUs: u32, work: nat, i: nat, j: nat)
    requires Paced(trace, clock, tickUs, work) && i < j < |clock|
    requires var ms := Millis(clock); PingAt(ms, i) && PingAt(ms, j) && NoPingBetween(ms, i, j)
    ensures var ms := Millis(clock);
      15_000 <= ms[j] - ms[i] <= 15_000 + (30_000_000 + tickUs + work) / 1000
  {
    hide Advance, PingAt, BackoffFor;
    var ms := Millis(clock);
    var d := (30_000_000 + tickUs + work) / 1000 + 1;
    forall a, b | 0 <= a <= b < |ms|
      ensures ms[a] <= ms[b]
    {
      ClockGrows(trace, clock, tickUs, work, a, b);
      Quotients(clock[a], clock[b], 0);
    }
    forall k | i <= k < j
      ensures ms[k + 1] - ms[k] <= d
    {
      BackoffClosedForm(trace, k + 1);
      BackoffDoubles(At(trace, k + 1).attempts);
      Quotients(clock[k], clock[k + 1], 30_000_000 + tickUs + work);
    }
    WatchdogGap(ms, d, i, j);
  }

  lemma Quotients(a: nat, b: nat, d: nat)
    ensures a <= b ==> a / 1000 <= b / 1000
    ensures b <= a + d ==> b / 1000 <= a / 1000 + d / 1000 + 1
  {
  }

  // ---------------------------------------------------------------- the loop over the real device

  /** What one iteration meets: the stack's events, whether the stack could be created
      anew, and the clock in milliseconds. */
  datatype Round = Round(events: seq<Event>, stackOk: bool, nowMs: nat)

  /** The device and the loop's variables; `pings` lists the times of the watchdog calls. */
  datatype Loop = Loop(dev: Device, errors: nat, attempts: nat, backoff: u32, lastPing: nat, pings: seq<nat>)

  /** The part of an iteration before the watchdog. */
  function Serve(s: Loop, cfg: DeviceConfig, r: Round): Loop {
    var (d, rc) := TickDevice(s.dev, r.events);
    if rc == 0 then s.(dev := d, errors := 0, attempts := 0, backoff := BACKOFF_BASE)
    else
      var e := d.(errors := d.errors + 1);
      if s.errors + 1 < MAX_CONSECUTIVE_ERRORS then s.(dev := e, errors := s.errors + 1)
      else
        var (n, started) := InitAndStart(cfg, r.stackOk);
        s.(dev := n, errors := if started == 0 then 0 else s.errors + 1, attempts := s.attempts + 1,
           backoff := Doubled(s.backoff))
  }

  function Iterate(s: Loop, cfg: DeviceConfig, r: Round): Loop {
    var t := Serve(s, cfg, r);
    if Minus(r.nowMs, t.lastPing) >= PING_MS then t.(lastPing := r.nowMs, pings := t.pings + [r.nowMs]) else t
  }

  function IterateAll(s: Loop, cfg: DeviceConfig, rounds: seq<Round>): Loop {
    if rounds == [] then s
    else Iterate(IterateAll(s, cfg, rounds[..|rounds| - 1]), cfg, rounds[|rounds| - 1])
  }

  function Entered(d: Device): Loop {
    Loop(d, 0, 0, BACKOFF_BASE, 0, [])
  }

  function Control(s: Loop): Controller {
    Controller(s.dev.live, s.errors, s.attempts, s.backoff)
  }

  function OutcomeOf(s: Loop, r: Round): Outcome {
    Outcome(TickDevice(s.dev, r.events).1 == 0, r.stackOk)
  }

  /** What the loop does with the device: a failed tick counts on it, and the fifth in a row
      replaces it by a freshly started one. */
  lemma ServeDevice(s: Loop, cfg: DeviceConfig, r: Round)
    ensures TickDevice(s.dev, r.events).1 == 0 ==> Serve(s, cfg, r).dev == TickDevice(s.dev, r.events).0
    ensures TickDevice(s.dev, r.events).1 != 0 && s.errors < 4 ==>
      Serve(s, cfg, r).dev == s.dev.(errors := s.dev.errors + 1) && Serve(s, cfg, r).errors == s.errors + 1
    ensures TickDevice(s.dev, r.events).1 != 0 && s.errors >= 4 && r.stackOk ==>
      Serve(s, cfg, r).dev == InitDevice(cfg).(live := true, state := CONNECTED) && Serve(s, cfg, r).errors == 0
    ensures TickDevice(s.dev, r.events).1 != 0 && s.errors >= 4 && !r.stackOk ==>
      Serve(s, cfg, r).dev == ZeroDevice() && Serve(s, cfg, r).errors == s.errors + 1
  {
    hide InitAndStart, ZeroBytes, OnEvents, Doubled;
    StartNeedsOnlyTheStack(cfg, r.stackOk);
    TickAndStop(s.dev, r.events);
  }

  /** The loop over the real device is an instance of the controller. */
  lemma LoopRefinesController(s: Loop, cfg: DeviceConfig, r: Round)
    ensures Control(Iterate(s, cfg, r)) == Advance(Control(s), OutcomeOf(s, r))
  {
    hide InitAndStart, ZeroBytes;
    StartNeedsOnlyTheStack(cfg, r.stackOk);
    OnEventsKeeps(s.dev, r.events);
  }

  function OutcomesOf(s: Loop, cfg: DeviceConfig, rounds: seq<Round>): (t: seq<Outcome>)
    ensures |t| == |rounds|
  {
    if rounds == [] then []
    else
      var n := |rounds| - 1;
      OutcomesOf(s, cfg, rounds[..n]) + [OutcomeOf(IterateAll(s, cfg, rounds[..n]), rounds[n])]
  }

  lemma {:induction false} AtPrefix(a: seq<Outcome>, b: seq<Outcome>, n: nat)
    requires n <= |a| && a <= b
    ensures At(a, n) == At(b, n)
  {
    hide Advance;
    if n > 0 { AtPrefix(a, b, n - 1); }
  }

  /** So everything proved of the controller holds of the loop, from a successful start on. */
  lemma {:induction false} LoopRunsController(s: Loop, cfg: DeviceConfig, rounds: seq<Round>)
    requires Control(s) == STARTED
    ensures Control(IterateAll(s, cfg, rounds)) == At(OutcomesOf(s, cfg, rounds), |rounds|)
  {
    hide Iterate, Advance, OutcomeOf;
    if rounds != [] {
      var n := |rounds| - 1;
      LoopRunsController(s, cfg, rounds[..n]);
      LoopRefinesController(IterateAll(s, cfg, rounds[..n]), cfg, rounds[n]);
      AtPrefix(OutcomesOf(s, cfg, rounds[..n]), OutcomesOf(s, cfg, rounds), n);
    }
  }

  function EventsOf(rounds: seq<Round>): (p: seq<seq<Event>>)
    ensures |p| == |rounds| && forall i | 0 <= i < |p| :: p[i] == rounds[i].events
  {
    seq(|rounds|, i requires 0 <= i < |rounds| => rounds[i].events)
  }

  /** The composition theorem: once the initial start succeeded, no event sequence can make
      a tick fail. The loop never counts an error, never recovers, and has ticked the
      device once per iteration. */
  lemma {:induction false} TicksNeverFail(cfg: DeviceConfig, rounds: seq<Round>)
    ensures var s := IterateAll(Entered(InitAndStart(cfg, true).0), cfg, rounds);
      && s.errors == 0 && s.attempts == 0 && s.backoff == 1_000_000
      && s.dev == TickAll(InitAndStart(cfg, true).0, EventsOf(rounds))
      && s.dev.cycles == |rounds| && s.dev.errors == 0
      && forall next: seq<Event> :: TickDevice(s.dev, next).1 == 0
  {
    hide InitAndStart, OnEvents, TickDevice, ZeroBytes, DataPrevails, LatestStartup;
    var start := InitAndStart(cfg, true).0;
    StartedDeviceHistory(cfg, EventsOf(rounds));
    assert Operational(start) by { StartNeedsOnlyTheStack(cfg, true); }
    TicksFoldHistory(start, EventsOf(rounds));
    OperationalTicks(TickAll(start, EventsOf(rounds)));
    if rounds != [] {
      var n := |rounds| - 1;
      TicksNeverFail(cfg, rounds[..n]);
      assert EventsOf(rounds)[..n] == EventsOf(rounds[..n]);
    }
  }

  lemma OperationalTicks(d: Device)
    requires Operational(d)
    ensures forall next: seq<Event> :: TickDevice(d, next).1 == 0
  {
  }

  function TimesOf(rounds: seq<Round>): (t: seq<nat>)
    ensures |t| == |rounds| && forall i | 0 <= i < |t| :: t[i] == rounds[i].nowMs
  {
    seq(|rounds|, i requires 0 <= i < |rounds| => rounds[i].nowMs)
  }

  /** The pings sent so far are at least 15000 and at most 14999 + d ms apart, and the last
      one is remembered. */
  predicate PingsSpaced(s: Loop, d: nat) {
    && (forall k | 0 <= k < |s.pings| - 1 :: 15_000 <= s.pings[k + 1] - s.pings[k] <= 14_999 + d)
    && s.lastPing == (if s.pings == [] then 0 else s.pings[|s.pings| - 1])
  }

  lemma PingStep(s: Loop, cfg: DeviceConfig, r: Round, d: nat)
    requires PingsSpaced(s, d) && s.lastPing <= r.nowMs
    requires s.pings != [] ==> r.nowMs - s.lastPing <= PING_MS - 1 + d
    ensures PingsSpaced(Iterate(s, cfg, r), d)
    ensures 0 <= r.nowMs - Iterate(s, cfg, r).lastPing < PING_MS
  {
    hide Serve;
    ServeKeepsPings(s, cfg, r);
  }

  lemma TimesPrefix(rounds: seq<Round>, n: nat)
    requires n <= |rounds| && Monotone(TimesOf(rounds))
    ensures Monotone(TimesOf(rounds[..n]))
    ensures 0 < n < |rounds| ==> rounds[n - 1].nowMs <= rounds[n].nowMs
  {
    var times := TimesOf(rounds);
    forall i, j | 0 <= i <= j < n
      ensures TimesOf(rounds[..n])[i] <= TimesOf(rounds[..n])[j]
    {
      assert times[i] <= times[j];
    }
    assert 0 < n < |rounds| ==> times[n - 1] <= times[n];
  }

  /** The pings the loop sends, on a monotone clock with readings at most `d` ms apart; since
      the last one less than 15 s have passed. */
  lemma {:induction false} LoopPingGaps(dev: Device, cfg: DeviceConfig, rounds: seq<Round>, d: nat)
    requires Monotone(TimesOf(rounds))
    requires forall k | 0 <= k < |rounds| - 1 :: rounds[k + 1].nowMs - rounds[k].nowMs <= d
    ensures var s := IterateAll(Entered(dev), cfg, rounds);
      && PingsSpaced(s, d)
      && (rounds != [] ==> 0 <= rounds[|rounds| - 1].nowMs - s.lastPing < 15_000)
  {
    hide Iterate, PingsSpaced, Monotone, TimesOf;
    if rounds == [] {
      NoPingsYet(dev, d);
    } else {
      var n := |rounds| - 1;
      TimesPrefix(rounds, n);
      LoopPingGaps(dev, cfg, rounds[..n], d);
      if n == 0 {
        NoPingsYet(dev, d);
      } else {
        assert rounds[n - 1 + 1].nowMs - rounds[n - 1].nowMs <= d;
      }
      PingStep(IterateAll(Entered(dev), cfg, rounds[..n]), cfg, rounds[n], d);
    }
  }

  lemma NoPingsYet(dev: Device, d: nat)
    ensures PingsSpaced(Entered(dev), d)
  {
  }

  lemma ServeKeepsPings(s: Loop, cfg: DeviceConfig, r: Round)
    ensures Serve(s, cfg, r).pings == s.pings && Serve(s, cfg, r).lastPing == s.lastPing
  {
    hide TickDevice, InitAndStart, Doubled;
  }
}
