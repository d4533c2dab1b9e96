/** The production loop itself, over the device object. */
module Supervisor {
  import opened Numerals
  import opened DeviceModel
  import opened IoDevice
  import opened SupervisorModel

  /** The local variables of main that live across iterations. */
  class Variables {
    var errors: nat
    var attempts: nat
    var backoff: u32
    var lastPing: nat
    var pings: seq<nat>

    constructor ()
      ensures errors == 0 && attempts == 0 && backoff == BACKOFF_BASE && lastPing == 0 && pings == []
    {
      errors, attempts, backoff, lastPing, pings := 0, 0, BACKOFF_BASE, 0, [];
    }
  }

  ghost function StateOf(dev: IoDev, v: Variables): Loop
    reads dev, dev.inputData, dev.outputData, v
  {
    Loop(dev.View(), v.errors, v.attempts, v.backoff, v.lastPing, v.pings)
  }

  /** Stop, wait, back off and start again. The sleep itself takes time only. */
  method Recover(dev: IoDev, v: Variables, cfg: DeviceConfig, stackOk: bool)
    requires dev.Valid()
    modifies dev, dev.inputData, dev.outputData, v`errors, v`attempts, v`backoff
    ensures dev.Valid()
    ensures var (d, started) := InitAndStart(cfg, stackOk);
      && dev.View() == d && v.errors == (if started == 0 then 0 else old(v.errors))
      && v.attempts == old(v.attempts) + 1 && v.backoff == Doubled(old(v.backoff))
  {
    hide InitAndStart, Low, ZeroDevice;
    v.attempts := v.attempts + 1;
    DeviceStopAndCleanup(dev);
    var doubled := Low(v.backoff * 2, 0x1_0000_0000);
    if doubled > BACKOFF_MAX {
      doubled := BACKOFF_MAX;
    }
    v.backoff := doubled;
    var rc := DeviceInitAndStart(dev, cfg, stackOk);
    if rc == 0 {
      v.errors := 0;
    }
  }

  method ServeOnce(dev: IoDev, v: Variables, cfg: DeviceConfig, r: Round)
    requires dev.Valid()
    modifies dev, dev.inputData, dev.outputData, v`errors, v`attempts, v`backoff
    ensures dev.Valid() && StateOf(dev, v) == Serve(old(StateOf(dev, v)), cfg, r)
  {
    hide TickDevice, InitAndStart, Doubled;
    var rc := dev.Tick(r.events);
    if rc == 0 {
      v.errors, v.attempts, v.backoff := 0, 0, BACKOFF_BASE;
    } else {
      dev.errors := dev.errors + 1;
      v.errors := v.errors + 1;
      if v.errors >= MAX_CONSECUTIVE_ERRORS {
        Recover(dev, v, cfg, r.stackOk);
      }
    }
  }

  /** `while (g_running)`, for as many iterations as there are rounds. */
  method ProductionLoop(dev: IoDev, cfg: DeviceConfig, rounds: seq<Round>) returns (v: Variables)
    requires dev.Valid()
    modifies dev, dev.inputData, dev.outputData
    ensures dev.Valid() && fresh(v)
    ensures StateOf(dev, v) == IterateAll(Entered(old(dev.View())), cfg, rounds)
  {
    hide Serve;
    v := new Variables();
    ghost var start := StateOf(dev, v);
    var i := 0;
    while i < |rounds|
      invariant 0 <= i <= |rounds| && dev.Valid()
      invariant StateOf(dev, v) == IterateAll(start, cfg, rounds[..i])
    {
      var r := rounds[i];
      assert rounds[..i + 1][..i] == rounds[..i];
      ServeOnce(dev, v, cfg, r);
      if Minus(r.nowMs, v.lastPing) >= PING_MS {
        v.pings := v.pings + [r.nowMs];
        v.lastPing := r.nowMs;
      }
      i := i + 1;
    }
    assert rounds[..i] == rounds;
  }
}
