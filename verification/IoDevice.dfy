/** The IO device in its own form: a record whose fields and buffers every call changes in
    place, and the stack object behind its handle. */
module IoDevice {
  import opened CStrings
  import opened Numerals
  import opened PnetStack
  import opened DeviceModel

  /** plug_all_modules. The stack accepts every plug_module call, so only the submodules
      are plugged here. */
  method PlugAll(net: Pnet) returns (rc: int)
    requires net.Valid()
    modifies net`count, net.submodules
    ensures net.Valid() && (net.View(), rc) == PlugMany(old(net.View()), PLUGS)
  {
    hide PlugInto, PLUGS;
    ghost var t := net.View();
    var i := 0;
    assert PLUGS[0..] == PLUGS;
    while i < |PLUGS|
      invariant 0 <= i <= |PLUGS| && net.Valid()
      invariant PlugMany(net.View(), PLUGS[i..]) == PlugMany(t, PLUGS)
    {
      assert PLUGS[i..][0] == PLUGS[i] && PLUGS[i..][1..] == PLUGS[i + 1..];
      rc := net.PlugSubmodule(PLUGS[i]);
      if rc != 0 {
        return rc;
      }
      i := i + 1;
    }
    return 0;
  }

  class IoDev {
    var config: DeviceConfig
    var state: State
    var handle: Pnet?
    var arep: u32
    var cycles: nat
    var errors: nat
    const inputData: array<u8>
    const outputData: array<u8>
    var inputSize: u16
    var outputSize: u16

    ghost predicate Valid()
      reads this, handle, if handle == null then {} else {handle.submodules}
    {
      && inputData.Length == DATA_SIZE && outputData.Length == DATA_SIZE && inputData != outputData
      && (handle != null ==>
        handle.Valid() && handle.submodules.Length == MAX_SUBMODULES)
    }

    ghost function View(): Device
      reads this, inputData, outputData
    {
      Device(config, state, handle != null, arep, cycles, errors, inputData[..], outputData[..], inputSize, outputSize)
    }

    /** A zeroed record, as main declares it. */
    constructor ()
      ensures Valid() && View() == ZeroDevice() && fresh(inputData) && fresh(outputData)
    {
      config, state, handle, arep, cycles, errors := ZERO_CONFIG, IDLE, null, 0, 0, 0;
      inputData := new u8[DATA_SIZE](_ => 0);
      outputData := new u8[DATA_SIZE](_ => 0);
      inputSize, outputSize := 0, 0;
      new;
      assert inputData[..] == ZeroBytes() && outputData[..] == ZeroBytes();
    }

    method ClearData()
      requires Valid()
      modifies inputData, outputData
      ensures inputData[..] == ZeroBytes() && outputData[..] == ZeroBytes()
    {
      forall i | 0 <= i < inputData.Length {
        inputData[i] := 0;
      }
      forall i | 0 <= i < outputData.Length {
        outputData[i] := 0;
      }
      assert inputData[..] == ZeroBytes() && outputData[..] == ZeroBytes();
    }

    /** io_device_init */
    method Init(cfg: DeviceConfig) returns (rc: int)
      requires Valid()
      modifies this, inputData, outputData
      ensures Valid() && View() == InitDevice(cfg) && rc == 0
    {
      hide ZeroBytes;
      ClearData();
      config := cfg;
      state, handle, arep, cycles, errors := INITIALIZED, null, 0, 0, 0;
      inputSize, outputSize := 1, 1;
      rc := 0;
    }

    /** io_device_start; `stackOk` says whether pnet_init can allocate. */
    method Start(stackOk: bool) returns (rc: int)
      requires Valid()
      modifies this
      ensures Valid() && (View(), rc) == StartDevice(old(View()), stackOk)
      ensures handle != old(handle) && handle != null ==> fresh(handle) && fresh(handle.submodules)
      ensures rc == 0 ==> handle != null && (handle.View(), 0) == PlugMany([], PLUGS)
    {
      hide PlugMany, PLUGS;
      if state != INITIALIZED {
        return -1;
      }
      if !stackOk {
        handle := null;
        state := ERROR;
        return -1;
      }
      var net := new Pnet();
      handle := net;
      var plugged := PlugAll(net);
      if plugged != 0 {
        state := ERROR;
        return -1;
      }
      state := CONNECTED;
      return 0;
    }

    /** app_state_ind_cb */
    method AppStateInd(e: Event)
      modifies `state, `arep
      ensures View() == OnEvent(old(View()), e)
    {
      if e.Startup? {
        arep := e.arep;
      }
      if e.Data? {
        state := RUNNING;
      } else if e.Abort? {
        state := CONNECTED;
        arep := 0;
      }
    }

    /** io_device_tick; the stack reports `events` while it handles the period. */
    method Tick(events: seq<Event>) returns (rc: int)
      requires Valid()
      modifies `state, `arep, `cycles
      ensures Valid() && (View(), rc) == TickDevice(old(View()), events)
    {
      hide OnEvent;
      if handle == null {
        return -1;
      }
      if state == ERROR {
        return -1;
      }
      ghost var d := View();
      var i := 0;
      while i < |events|
        invariant 0 <= i <= |events|
        invariant View() == OnEvents(d, events[..i]) && cycles == old(cycles)
      {
        assert events[..i + 1][..i] == events[..i];
        EventKeepsCounters(OnEvents(d, events[..i]), events[i]);
        AppStateInd(events[i]);
        i := i + 1;
      }
      assert events[..i] == events;
      cycles := cycles + 1;
      return 0;
    }

    /** io_device_cleanup */
    method Cleanup()
      requires Valid()
      modifies this, inputData, outputData
      ensures Valid() && View() == ZeroDevice() && handle == null
    {
      hide ZeroBytes;
      handle := null;
      ClearData();
      config := ZERO_CONFIG;
      arep, cycles, errors, inputSize, outputSize := 0, 0, 0, 0, 0;
      state := IDLE;
    }

    /** io_device_stop */
    method StopDev() returns (rc: int)
      requires Valid()
      modifies this, inputData, outputData
      ensures Valid() && (View(), rc) == StopDevice(old(View()))
      ensures handle == null
    {
      hide ZeroDevice;
      if handle == null {
        return -1;
      }
      Cleanup();
      return 0;
    }

    /** io_device_update_input; the stack reads its own number of bytes from `data`. */
    method Update(data: seq<u8>, len: u16) returns (rc: int)
      requires Valid() && len <= |data|
      requires handle != null ==> BytesTaken(handle.View(), INPUT_AT) <= |data|
      modifies `inputSize, inputData, if handle == null then {} else {handle.submodules}
      ensures Valid()
      ensures old(handle) == null ==> rc == -1 && View() == old(View())
      ensures old(handle) != null ==>
        && FullBuffers(old(handle.View())) && BytesTaken(old(handle.View()), INPUT_AT) <= |data|
        && (World(View(), handle.View()), rc) == UpdateInput(World(old(View()), old(handle.View())), data, len)
    {
      hide SetInput, BytesTaken, ZeroBytes, ZeroSubmodule;
      if handle == null {
        return -1;
      }
      if len > DATA_SIZE {
        return -1;
      }
      ghost var was := inputData[..];
      ghost var d, t := View(), handle.View();
      forall i | 0 <= i < len {
        inputData[i] := data[i];
      }
      assert inputData[..] == data[..len] + was[len..];
      inputSize := len;
      assert handle.View() == t;
      rc := handle.InputSetDataAndIops(INPUT_AT, data, GOOD);
      assert View() == d.(input := data[..len] + was[len..], inputSize := len);
    }

    /** io_device_read_output */
    method Read(room: u16) returns (bytes: Option<seq<u8>>)
      requires Valid()
      requires handle != null ==> BytesGiven(handle.View(), OUTPUT_AT, room) <= DATA_SIZE
      modifies `outputSize, outputData
      ensures Valid()
      ensures handle == null ==> bytes == None && View() == old(View())
      ensures handle != null ==>
        && FullBuffers(handle.View())
        && (World(View(), handle.View()), bytes) == ReadOutput(World(old(View()), handle.View()), room)
    {
      hide GetOutput, ZeroBytes, ZeroSubmodule;
      if handle == null {
        return None;
      }
      var r := handle.OutputGetDataAndIops(OUTPUT_AT, room);
      if r.None? {
        return None;
      }
      var data := r.value.0;
      OutputFits(handle.View(), room);
      ghost var was := outputData[..];
      ghost var d, t := View(), handle.View();
      forall i | 0 <= i < |data| {
        outputData[i] := data[i];
      }
      assert outputData[..] == data + was[|data|..];
      outputSize := |data|;
      assert View() == d.(output := data + was[|data|..], outputSize := |data|) && handle.View() == t;
      return Some(data);
    }
  }

  lemma EventKeepsCounters(d: Device, e: Event)
    ensures OnEvent(d, e).cycles == d.cycles
  {
  }

  lemma OutputFits(t: Table, room: u16)
    requires FullBuffers(t) && BytesGiven(t, OUTPUT_AT, room) <= DATA_SIZE
    ensures GetOutput(t, OUTPUT_AT, room).Some? ==> |GetOutput(t, OUTPUT_AT, room).value.0| <= DATA_SIZE
  {
  }

  /** device_init_and_start */
  method DeviceInitAndStart(dev: IoDev, cfg: DeviceConfig, stackOk: bool) returns (rc: int)
    requires dev.Valid()
    modifies dev, dev.inputData, dev.outputData
    ensures dev.Valid() && (dev.View(), rc) == InitAndStart(cfg, stackOk)
  {
    hide StartDevice, ZeroDevice;
    var r := dev.Init(cfg);
    r := dev.Start(stackOk);
    if r < 0 {
      dev.Cleanup();
      return -1;
    }
    return 0;
  }

  /** device_stop_and_cleanup */
  method DeviceStopAndCleanup(dev: IoDev)
    requires dev.Valid()
    modifies dev, dev.inputData, dev.outputData
    ensures dev.Valid() && dev.View() == ZeroDevice() && dev.handle == null
  {
    var rc := dev.StopDev();
    dev.Cleanup();
  }
}
