/** The device record as a value, and what each call of the device API does to it. */
module DeviceModel {
  import opened CStrings
  import opened Numerals
  import opened PnetStack

  /** io_device_cfg_t */
  datatype DeviceConfig = DeviceConfig(
    productName: string, stationName: string, interfaceName: string,
    ipAddr: u32, netmask: u32, gateway: u32, vendorId: u16, deviceId: u16, tickUs: u32,
    sendHello: bool, fileDirectory: string)

  const ZERO_CONFIG: DeviceConfig := DeviceConfig("", "", "", 0, 0, 0, 0, 0, 0, false, "")

  datatype State = IDLE | INITIALIZED | CONNECTED | RUNNING | ERROR

  datatype Event = Abort | Startup(arep: u32) | PrmEnd | ApplRdy | Data

  /** io_device_t; `live` says that pnet_handle is not null. */
  datatype Device = Device(
    config: DeviceConfig, state: State, live: bool, arep: u32, cycles: nat, errors: nat,
    input: seq<u8>, output: seq<u8>, inputSize: u16, outputSize: u16)

  function ZeroDevice(): Device {
    Device(ZERO_CONFIG, IDLE, false, 0, 0, 0, ZeroBytes(), ZeroBytes(), 0, 0)
  }

  // ---------------------------------------------------------------- the five plugs

  const INPUT_AT: Address := Address(0, 1, 1)
  const OUTPUT_AT: Address := Address(0, 1, 2)

  const PLUGS: seq<Plug> := [
    Plug(Address(0, 0, 0), 1, 1, 0, 0, 0),
    Plug(Address(0, 0, 0x8000), 1, 0x8000, 0, 0, 0),
    Plug(Address(0, 0, 0x8001), 1, 0x8001, 0, 0, 0),
    Plug(INPUT_AT, 0x30, 0x31, 0x20, 1, 0),
    Plug(OUTPUT_AT, 0x30, 0x32, 0x40, 0, 1)]

  /** Plugging one after the other until one fails. */
  function PlugMany(t: Table, plugs: seq<Plug>): (Table, int)
    decreases |plugs|
  {
    if plugs == [] then (t, 0)
    else
      var (u, rc) := PlugInto(t, plugs[0]);
      if rc != 0 then (u, rc) else PlugMany(u, plugs[1..])
  }

  // ---------------------------------------------------------------- lifecycle

  function InitDevice(cfg: DeviceConfig): Device {
    Device(cfg, INITIALIZED, false, 0, 0, 0, ZeroBytes(), ZeroBytes(), 1, 1)
  }

  /** `stackOk` says whether the stack can be created. */
  function StartDevice(d: Device, stackOk: bool): (Device, int) {
    if d.state != INITIALIZED then (d, -1)
    else if !stackOk then (d.(live := false, state := ERROR), -1)
    else if PlugMany([], PLUGS).1 != 0 then (d.(live := true, state := ERROR), -1)
    else (d.(live := true, state := CONNECTED), 0)
  }

  /** app_state_ind_cb */
  function OnEvent(d: Device, e: Event): Device {
    match e
    case Startup(arep) => d.(arep := arep)
    case Data => d.(state := RUNNING)
    case Abort => d.(state := CONNECTED, arep := 0)
    case PrmEnd | ApplRdy => d
  }

  function OnEvents(d: Device, events: seq<Event>): Device {
    if events == [] then d else OnEvent(OnEvents(d, events[..|events| - 1]), events[|events| - 1])
  }

  /** io_device_tick, while the stack delivers `events`. */
  function TickDevice(d: Device, events: seq<Event>): (Device, int) {
    if !d.live || d.state == ERROR then (d, -1)
    else
      var e := OnEvents(d, events);
      (e.(cycles := e.cycles + 1), 0)
  }

  function StopDevice(d: Device): (Device, int) {
    if !d.live then (d, -1) else (ZeroDevice(), 0)
  }

  /** device_init_and_start of the main program. */
  function InitAndStart(cfg: DeviceConfig, stackOk: bool): (Device, int) {
    var (d, rc) := StartDevice(InitDevice(cfg), stackOk);
    if rc < 0 then (ZeroDevice(), -1) else (d, 0)
  }

  // ---------------------------------------------------------------- process data

  /** The device together with the table of its stack. */
  datatype World = World(dev: Device, table: Table)

  function UpdateInput(w: World, data: seq<u8>, len: u16): (World, int)
    requires FullBuffers(w.table) && |w.dev.input| == DATA_SIZE
    requires len <= |data| && BytesTaken(w.table, INPUT_AT) <= |data|
  {
    if !w.dev.live || len > DATA_SIZE then (w, -1)
    else
      var (t, rc) := SetInput(w.table, INPUT_AT, data, GOOD);
      (World(w.dev.(input := data[..len] + w.dev.input[len..], inputSize := len), t), rc)
  }

  function ReadOutput(w: World, room: u16): (World, Option<seq<u8>>)
    requires FullBuffers(w.table) && |w.dev.output| == DATA_SIZE
    requires BytesGiven(w.table, OUTPUT_AT, room) <= DATA_SIZE
  {
    if !w.dev.live then (w, None)
    else
      match GetOutput(w.table, OUTPUT_AT, room)
      case None => (w, None)
      case Some((bytes, _)) =>
        (w.(dev := w.dev.(output := bytes + w.dev.output[|bytes|..], outputSize := |bytes|)), Some(bytes))
  }
}
