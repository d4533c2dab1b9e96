/** What holds over every run of the device: its state is a fold of the reported events,
    the lifecycle invariant, and the process image in the stack. */
module DeviceTheorems {
  import opened CStrings
  import opened Numerals
  import opened PnetStack
  import opened DeviceModel

  // ---------------------------------------------------------------- plugging

  /** On a fresh stack all five plugs succeed, at five different addresses. */
  lemma FreshPlugsSucceed()
    ensures PlugMany([], PLUGS).1 == 0
    ensures |PlugMany([], PLUGS).0| == 5
    ensures forall i | 0 <= i < 5 :: PlugMany([], PLUGS).0[i] == Plugged(PLUGS[i])
    ensures forall i, j | 0 <= i < j < 5 :: PLUGS[i].at != PLUGS[j].at
  {
    hide Plugged;
    PlugAppends([], PLUGS);
  }

  lemma {:induction false} PlugAppends(t: Table, plugs: seq<Plug>)
    requires |t| + |plugs| <= MAX_SUBMODULES
    ensures PlugMany(t, plugs).1 == 0 && |PlugMany(t, plugs).0| == |t| + |plugs|
    ensures PlugMany(t, plugs).0[..|t|] == t
    ensures forall i | 0 <= i < |plugs| :: PlugMany(t, plugs).0[|t| + i] == Plugged(plugs[i])
    decreases |plugs|
  {
    hide Plugged;
    if plugs != [] {
      var u := t + [Plugged(plugs[0])];
      PlugAppends(u, plugs[1..]);
      var r := PlugMany(t, plugs).0;
      assert r == PlugMany(u, plugs[1..]).0;
      assert r[..|t|] == r[..|u|][..|t|] == t;
      assert r[|t|] == r[..|u|][|t|] == Plugged(plugs[0]);
      forall i | 0 < i < |plugs|
        ensures r[|t| + i] == Plugged(plugs[i])
      {
        assert plugs[1..][i - 1] == plugs[i];
        assert r[|u| + (i - 1)] == Plugged(plugs[1..][i - 1]);
      }
    }
  }

  /** Starting an initialised device fails exactly when the stack cannot be created. */
  lemma StartNeedsOnlyTheStack(cfg: DeviceConfig, stackOk: bool)
    ensures InitAndStart(cfg, stackOk) ==
      if stackOk then (InitDevice(cfg).(live := true, state := CONNECTED), 0) else (ZeroDevice(), -1)
  {
    hide PlugMany, ZeroBytes;
    FreshPlugsSucceed();
  }

  /** The five submodules of a started device, with the numbers spelled out. */
  lemma PlugNumbers()
    ensures var t := PlugMany([], PLUGS).0;
      && |t| == 5
      && t[0].at == Address(0, 0, 0) && t[1].at == Address(0, 0, 0x8000) && t[2].at == Address(0, 0, 0x8001)
      && t[3].at == Address(0, 1, 1) && t[4].at == Address(0, 1, 2)
      && (forall i | 0 <= i < 3 :: t[i].moduleIdent == 1 && t[i].direction == 0 && t[i].inputLen == t[i].outputLen == 0)
      && t[0].submoduleIdent == 1 && t[1].submoduleIdent == 0x8000 && t[2].submoduleIdent == 0x8001
      && t[3].moduleIdent == t[4].moduleIdent == 0x30 && t[3].submoduleIdent == 0x31 && t[4].submoduleIdent == 0x32
      && t[3].direction == 0x20 && t[3].inputLen == 1 && t[3].outputLen == 0
      && t[4].direction == 0x40 && t[4].inputLen == 0 && t[4].outputLen == 1
      && forall i | 0 <= i < 5 :: t[i].plugged && t[i].inputIops == t[i].outputIops == 0x80
  {
    hide ZeroBytes, PlugMany;
    FreshPlugsSucceed();
    forall i | 0 <= i < 5
      ensures PlugMany([], PLUGS).0[i] == Plugged(PLUGS[i])
    {
    }
  }

  // ---------------------------------------------------------------- single calls

  /** An initialised device has its configuration, no handle, and cleared data of one byte
      each way. */
  lemma InitEffect(cfg: DeviceConfig)
    ensures var d := InitDevice(cfg);
      && d.config == cfg && d.state == INITIALIZED && !d.live
      && d.arep == 0 && d.cycles == 0 && d.errors == 0 && d.inputSize == 1 && d.outputSize == 1
    ensures Cleared(InitDevice(cfg))
  {
  }

  /** Start needs an initialised device and a stack; a missing stack is an ERROR. */
  lemma StartEffect(d: Device, stackOk: bool)
    ensures StartDevice(d, stackOk).1 == 0 <==> d.state == INITIALIZED && stackOk
    ensures d.state == INITIALIZED && stackOk ==> StartDevice(d, stackOk) == (d.(live := true, state := CONNECTED), 0)
    ensures d.state == INITIALIZED && !stackOk ==> StartDevice(d, stackOk) == (d.(live := false, state := ERROR), -1)
    ensures d.state != INITIALIZED ==> StartDevice(d, stackOk) == (d, -1)
  {
    hide PlugMany;
    FreshPlugsSucceed();
  }

  /** A tick needs a handle and no ERROR; a stop needs a handle and leaves nothing. */
  lemma TickAndStop(d: Device, events: seq<Event>)
    ensures TickDevice(d, events).1 == 0 <==> d.live && d.state != ERROR
    ensures TickDevice(d, events).1 == 0 ==> TickDevice(d, events).0.cycles == d.cycles + 1
    ensures TickDevice(d, events).1 != 0 ==> TickDevice(d, events) == (d, -1)
    ensures StopDevice(d).1 == 0 <==> d.live
    ensures !d.live ==> StopDevice(d) == (d, -1)
    ensures d.live ==>
      && StopDevice(d).0.state == IDLE && !StopDevice(d).0.live && StopDevice(d).0.arep == 0
      && StopDevice(d).0.cycles == 0 && StopDevice(d).0.errors == 0
      && StopDevice(d).0.inputSize == 0 && StopDevice(d).0.outputSize == 0
  {
    OnEventsKeeps(d, events);
  }

  /** What a cleaned-up record holds. */
  lemma CleanupEffect()
    ensures var d := ZeroDevice();
      && d.config == DeviceConfig("", "", "", 0, 0, 0, 0, 0, 0, false, "")
      && d.state == IDLE && !d.live && d.arep == 0 && d.cycles == 0 && d.errors == 0
      && d.inputSize == 0 && d.outputSize == 0
    ensures Cleared(ZeroDevice())
  {
  }

  /** All 256 bytes each way are zero. */
  predicate Cleared(d: Device) {
    |d.input| == |d.output| == 256 && forall i | 0 <= i < 256 :: d.input[i] == 0 && d.output[i] == 0
  }

  // ---------------------------------------------------------------- the device as a fold of its events

  /** The latest DATA or ABORT event is DATA. */
  predicate DataPrevails(events: seq<Event>) {
    exists i | 0 <= i < |events| :: events[i].Data? && forall j | i < j < |events| :: !events[j].Abort?
  }

  /** Event `i` is the latest STARTUP, and no ABORT came after it. */
  predicate LatestStartup(events: seq<Event>, i: nat) {
    && i < |events| && events[i].Startup?
    && forall j | i < j < |events| :: !events[j].Abort? && !events[j].Startup?
  }

  lemma {:induction false} StateOfHistory(d: Device, events: seq<Event>)
    requires d.state == CONNECTED
    ensures OnEvents(d, events).state == if DataPrevails(events) then RUNNING else CONNECTED
  {
    if events != [] {
      var n := |events| - 1;
      var before := events[..n];
      StateOfHistory(d, before);
      match events[n]
      case Data => assert DataPrevails(events);
      case Abort =>
      case Startup(_) | PrmEnd | ApplRdy =>
        if DataPrevails(before) {
          var i :| 0 <= i < n && before[i].Data? && forall j | i < j < n :: !before[j].Abort?;
          assert events[i].Data?;
        }
        if DataPrevails(events) {
          var i :| 0 <= i <= n && events[i].Data? && forall j | i < j <= n :: !events[j].Abort?;
          assert before[i].Data?;
        }
    }
  }

  lemma {:induction false} ArepOfHistory(d: Device, events: seq<Event>)
    requires d.arep == 0
    ensures forall i: nat | LatestStartup(events, i) :: OnEvents(d, events).arep == events[i].arep
    ensures (forall i: nat :: !LatestStartup(events, i)) ==> OnEvents(d, events).arep == 0
  {
    if events != [] {
      var n := |events| - 1;
      var before := events[..n];
      ArepOfHistory(d, before);
      if events[n].Startup? {
        assert LatestStartup(events, n);
      } else if !events[n].Abort? {
        forall i: nat
          ensures LatestStartup(before, i) <==> LatestStartup(events, i)
        {
          assert i < n ==> before[i] == events[i];
        }
      }
    }
  }

  function Flatten(periods: seq<seq<Event>>): seq<Event> {
    if periods == [] then [] else Flatten(periods[..|periods| - 1]) + periods[|periods| - 1]
  }

  /** Ticking once per element of `periods`. */
  function TickAll(d: Device, periods: seq<seq<Event>>): Device {
    if periods == [] then d else TickDevice(TickAll(d, periods[..|periods| - 1]), periods[|periods| - 1]).0
  }

  predicate Operational(d: Device) {
    d.live && (d.state == CONNECTED || d.state == RUNNING)
  }

  lemma {:induction false} OnEventsConcat(d: Device, a: seq<Event>, b: seq<Event>)
    ensures OnEvents(d, a + b) == OnEvents(OnEvents(d, a), b)
  {
    if b == [] {
      assert a + b == a;
    } else {
      var n := |b| - 1;
      OnEventsConcat(d, a, b[..n]);
      assert (a + b)[..|a + b| - 1] == a + b[..n];
    }
  }

  lemma {:induction false} OnEventsKeeps(d: Device, events: seq<Event>)
    ensures OnEvents(d, events) == d.(state := OnEvents(d, events).state, arep := OnEvents(d, events).arep)
    ensures Operational(d) ==> Operational(OnEvents(d, events))
  {
    if events != [] { OnEventsKeeps(d, events[..|events| - 1]); }
  }

  /** The cycle counter has no influence on how events are taken. */
  lemma {:induction false} OnEventsCycles(d: Device, n: nat, events: seq<Event>)
    ensures OnEvents(d.(cycles := n), events) == OnEvents(d, events).(cycles := n)
  {
    if events != [] { OnEventsCycles(d, n, events[..|events| - 1]); }
  }

  /** An operational device stays so, every tick succeeds, and after any number of ticks it
      is what the whole event history makes of it. */
  lemma {:induction false} TicksFoldHistory(d: Device, periods: seq<seq<Event>>)
    requires Operational(d)
    ensures TickAll(d, periods) == OnEvents(d, Flatten(periods)).(cycles := d.cycles + |periods|)
    ensures Operational(TickAll(d, periods))
  {
    hide OnEvent;
    OnEventsKeeps(d, Flatten(periods));
    if periods != [] {
      var n := |periods| - 1;
      TicksFoldHistory(d, periods[..n]);
      var h := Flatten(periods[..n]);
      OnEventsCycles(OnEvents(d, h), d.cycles + n, periods[n]);
      OnEventsConcat(d, h, periods[n]);
      OnEventsKeeps(OnEvents(d, h), periods[n]);
      OnEventsKeeps(d, h);
    }
  }

  /** After a successful start: RUNNING exactly when the latest DATA or ABORT event is DATA,
      and the active relation is that of the latest STARTUP since the last ABORT, else 0. */
  lemma StartedDeviceHistory(cfg: DeviceConfig, periods: seq<seq<Event>>)
    ensures var d := TickAll(InitAndStart(cfg, true).0, periods); var h := Flatten(periods);
      && d.state == (if DataPrevails(h) then RUNNING else CONNECTED)
      && (forall i: nat | LatestStartup(h, i) :: d.arep == h[i].arep)
      && ((forall i: nat :: !LatestStartup(h, i)) ==> d.arep == 0)
      && d.live && d.cycles == |periods| && d.errors == 0 && d.config == cfg
  {
    hide OnEvent, TickDevice;
    StartNeedsOnlyTheStack(cfg, true);
    var d := InitDevice(cfg).(live := true, state := CONNECTED);
    TicksFoldHistory(d, periods);
    StateOfHistory(d, Flatten(periods));
    ArepOfHistory(d, Flatten(periods));
    OnEventsKeeps(d, Flatten(periods));
  }

  // ---------------------------------------------------------------- lifecycle

  datatype Call =
    | CallInit(cfg: DeviceConfig) | CallStart(stackOk: bool) | CallTick(events: seq<Event>)
    | CallStop | CallCleanup | CallUpdate(data: seq<u8>, len: u16) | CallRead(room: u16)

  /** What callers owe: a buffer of at least `len` bytes and of the one byte the stack reads. */
  predicate Callable(c: Call) {
    c.CallUpdate? ==> c.len <= |c.data| && |c.data| > 0
  }

  /** The stack table is the five plugged submodules, whatever their data. */
  predicate PluggedTable(t: Table) {
    && |t| == 5 && FullBuffers(t)
    && forall i | 0 <= i < 5 ::
      t[i] == Plugged(PLUGS[i]).(inputData := t[i].inputData, outputData := t[i].outputData,
        inputIops := t[i].inputIops, outputIops := t[i].outputIops)
  }

  /** The handle is live exactly in the states CONNECTED and RUNNING; cached sizes fit. */
  predicate Lifecycle(w: World) {
    && (w.dev.live <==> w.dev.state == CONNECTED || w.dev.state == RUNNING)
    && |w.dev.input| == DATA_SIZE && |w.dev.output| == DATA_SIZE
    && w.dev.inputSize <= DATA_SIZE && w.dev.outputSize <= DATA_SIZE
    && if w.dev.live then PluggedTable(w.table) else w.table == []
  }

  lemma LookupPlugged(t: Table)
    requires PluggedTable(t)
    ensures |t| == 5 && Lookup(t, INPUT_AT, 0) == 3 && Lookup(t, OUTPUT_AT, 0) == 4
    ensures BytesTaken(t, INPUT_AT) == 1 && t[4].outputLen == 1
    ensures forall room: u16 :: BytesGiven(t, OUTPUT_AT, room) == Least(1, room)
  {
    hide ZeroBytes;
    forall i | 0 <= i < 5
      ensures t[i].at == PLUGS[i].at && t[i].plugged && t[i].outputLen == PLUGS[i].outputLen
      ensures t[i].inputLen == PLUGS[i].inputLen
    {
    }
    LookupStep(t, INPUT_AT, 0);
    LookupStep(t, INPUT_AT, 1);
    LookupStep(t, INPUT_AT, 2);
    LookupStep(t, OUTPUT_AT, 0);
    LookupStep(t, OUTPUT_AT, 1);
    LookupStep(t, OUTPUT_AT, 2);
    LookupStep(t, OUTPUT_AT, 3);
  }

  lemma LookupStep(t: Table, at: Address, i: nat)
    requires i < |t| && !(t[i].at == at && t[i].plugged)
    ensures Lookup(t, at, i) == Lookup(t, at, i + 1)
  {
  }

  /** Why every data call is safe. */
  lemma TableReady(w: World)
    requires Lifecycle(w)
    ensures FullBuffers(w.table) && BytesTaken(w.table, INPUT_AT) <= 1
    ensures forall room: u16 :: BytesGiven(w.table, OUTPUT_AT, room) <= 1
  {
    if w.dev.live { LookupPlugged(w.table); }
  }

  /** A device without a handle has no table. */
  function Holding(d: Device, t: Table): World {
    World(d, if d.live then t else [])
  }

  /** What one API call does to the device and its stack. */
  function Perform(w: World, c: Call): World
    requires Lifecycle(w) && Callable(c)
  {
    TableReady(w);
    match c
    case CallInit(cfg) => Holding(InitDevice(cfg), [])
    case CallStart(ok) =>
      var (d, rc) := StartDevice(w.dev, ok);
      Holding(d, if rc == 0 then PlugMany([], PLUGS).0 else w.table)
    case CallTick(events) => Holding(TickDevice(w.dev, events).0, w.table)
    case CallStop => Holding(StopDevice(w.dev).0, w.table)
    case CallCleanup => Holding(ZeroDevice(), [])
    case CallUpdate(data, len) => UpdateInput(w, data, len).0
    case CallRead(room) => ReadOutput(w, room).0
  }


  function PerformAll(w: World, calls: seq<Call>): (r: World)
    requires Lifecycle(w) && forall i | 0 <= i < |calls| :: Callable(calls[i])
    ensures Lifecycle(r)
  {
    if calls == [] then w
    else
      var v := PerformAll(w, calls[..|calls| - 1]);
      PerformKeeps(v, calls[|calls| - 1]);
      Perform(v, calls[|calls| - 1])
  }

  lemma PerformKeeps(w: World, c: Call)
    requires Lifecycle(w) && Callable(c)
    ensures Lifecycle(Perform(w, c))
  {
    hide PluggedTable, UpdateInput, ReadOutput, PlugMany, PLUGS, OnEvents, ZeroBytes;
    match c
    case CallStart(ok) => FreshTable();
    case CallTick(events) => OnEventsKeeps(w.dev, events);
    case CallUpdate(data, len) => UpdateKeeps(w, data, len);
    case CallRead(room) => ReadKeeps(w, room);
    case CallInit(_) | CallStop | CallCleanup =>
  }

  lemma FreshTable()
    ensures PlugMany([], PLUGS).1 == 0 && PluggedTable(PlugMany([], PLUGS).0)
  {
    hide ZeroBytes, PlugMany, PLUGS;
    FreshPlugsSucceed();
  }

  lemma UpdateKeeps(w: World, data: seq<u8>, len: u16)
    requires Lifecycle(w) && len <= |data| && |data| > 0
    ensures FullBuffers(w.table) && BytesTaken(w.table, INPUT_AT) <= |data|
    ensures Lifecycle(UpdateInput(w, data, len).0)
    ensures w.dev.live && len <= DATA_SIZE ==>
      var r := UpdateInput(w, data, len);
      && r.1 == 0 && r.0.dev == w.dev.(input := data[..len] + w.dev.input[len..], inputSize := len)
      && r.0.table == w.table[3 := w.table[3].(inputData := [data[0]] + w.table[3].inputData[1..], inputIops := GOOD)]
  {
    hide ZeroBytes, PLUGS, Lookup, PluggedTable;
    TableReady(w);
    if w.dev.live && len <= DATA_SIZE {
      LookupPlugged(w.table);
      assert data[..1] == [data[0]];
      WritePlugged(w.table, [data[0]] + w.table[3].inputData[1..]);
    }
  }

  /** An update is refused exactly without a handle or with more than 256 bytes, and then
      changes nothing; otherwise the stack marks the data good. */
  lemma UpdateRefused(w: World, data: seq<u8>, len: u16)
    requires Lifecycle(w) && len <= |data| && |data| > 0
    ensures FullBuffers(w.table) && BytesTaken(w.table, INPUT_AT) <= |data|
    ensures UpdateInput(w, data, len).1 == 0 <==> w.dev.live && len <= 256
    ensures !w.dev.live || len > 256 ==> UpdateInput(w, data, len) == (w, -1)
    ensures w.dev.live && len <= 256 ==>
      |UpdateInput(w, data, len).0.table| == 5 && UpdateInput(w, data, len).0.table[3].inputIops == 0x80
  {
    hide PluggedTable, BytesTaken, SetInput;
    UpdateKeeps(w, data, len);
    if w.dev.live { InputBuffer(w); }
  }

  lemma WritePlugged(t: Table, bytes: seq<u8>)
    requires PluggedTable(t) && |bytes| == DATA_SIZE
    ensures PluggedTable(t[3 := t[3].(inputData := bytes, inputIops := GOOD)])
  {
    hide ZeroBytes;
  }

  lemma ReadKeeps(w: World, room: u16)
    requires Lifecycle(w)
    ensures FullBuffers(w.table) && BytesGiven(w.table, OUTPUT_AT, room) <= DATA_SIZE
    ensures Lifecycle(ReadOutput(w, room).0)
    ensures var r := ReadOutput(w, room);
      if w.dev.live then
        var bytes := w.table[4].outputData[..Least(1, room)];
        && r.1 == Some(bytes) && r.0.table == w.table
        && r.0.dev == w.dev.(output := bytes + w.dev.output[|bytes|..], outputSize := |bytes|)
      else r == (w, None)
  {
    hide ZeroBytes, PLUGS, Lookup, PluggedTable;
    TableReady(w);
    if w.dev.live {
      LookupPlugged(w.table);
    }
  }

  /** A zeroed record without a stack, as the main program starts with. */
  function Zeroed(): World {
    World(ZeroDevice(), [])
  }

  /** Over every sequence of API calls: no handle in IDLE, INITIALIZED and ERROR, a live one
      in CONNECTED and RUNNING, and then the five submodules are plugged; cached sizes stay
      within the buffers. Stopping a live device always gives the zeroed record. */
  lemma LifecycleHolds(calls: seq<Call>)
    requires forall i | 0 <= i < |calls| :: Callable(calls[i])
    ensures Lifecycle(Zeroed())
    ensures var w := PerformAll(Zeroed(), calls);
      && Lifecycle(w)
      && (w.dev.state in {IDLE, INITIALIZED, ERROR} <==> !w.dev.live)
      && (w.dev.live ==> Perform(w, CallStop) == Zeroed())
      && Perform(Perform(w, CallStop), CallCleanup) == Zeroed()
  {
    hide PerformAll, PluggedTable, ZeroBytes, PlugMany, UpdateInput, ReadOutput;
    var w := PerformAll(Zeroed(), calls);
    PerformKeeps(w, CallStop);
  }

  // ---------------------------------------------------------------- the process image

  predicate DataCall(c: Call) {
    c.CallRead? || (c.CallUpdate? && 0 < c.len <= DATA_SIZE)
  }

  /** The first byte of the latest update, or what was there before. */
  function LatestInput(calls: seq<Call>, before: u8): u8
    requires forall i | 0 <= i < |calls| :: Callable(calls[i])
    requires forall i | 0 <= i < |calls| :: DataCall(calls[i])
  {
    if calls == [] then before
    else
      var c := calls[|calls| - 1];
      assert Callable(c) && DataCall(c);
      if c.CallUpdate? then c.data[0] else LatestInput(calls[..|calls| - 1], before)
  }

  /** `u` differs from `t` only in the input submodule: its first input byte is `x`, and its
      provider status may be another. */
  predicate InputByteSet(t: Table, u: Table, x: u8) {
    && |t| == |u| == 5 && |t[3].inputData| == DATA_SIZE
    && u[3].inputData == [x] + t[3].inputData[1..]
    && u[3].(inputData := [], inputIops := 0) == t[3].(inputData := [], inputIops := 0)
    && (forall i | 0 <= i < 5 && i != 3 :: u[i] == t[i])
  }

  lemma InputUntouched(t: Table)
    requires |t| == 5 && |t[3].inputData| == DATA_SIZE
    ensures InputByteSet(t, t, t[3].inputData[0])
  {
  }

  lemma InputSetTwice(t: Table, u: Table, v: Table, x: u8, y: u8)
    requires InputByteSet(t, u, x) && InputByteSet(u, v, y)
    ensures InputByteSet(t, v, y) && u[3].inputData[0] == x
  {
  }

  /** What one such call does to the input side. */
  lemma CallInput(w: World, c: Call)
    requires Lifecycle(w) && w.dev.live && Callable(c) && DataCall(c)
    ensures |w.table| == 5 && |w.table[3].inputData| == DATA_SIZE
    ensures var v := Perform(w, c);
      && v.dev.live && v.dev.state == w.dev.state
      && v.dev.input[0] == (if c.CallUpdate? then c.data[0] else w.dev.input[0])
      && InputByteSet(w.table, v.table, if c.CallUpdate? then c.data[0] else w.table[3].inputData[0])
  {
    hide PluggedTable, ZeroBytes, UpdateInput, ReadOutput, BytesGiven;
    InputBuffer(w);
    match c
    case CallUpdate(data, len) => UpdateKeeps(w, data, len);
    case CallRead(room) =>
      ReadKeeps(w, room);
      InputUntouched(w.table);
  }

  /** Over any run of non-empty updates and reads: the stack's input byte is the first byte
      of the latest update, the cached byte agrees with it, and nothing else in the stack's
      table changes. */
  lemma {:induction false} ProcessImage(w: World, calls: seq<Call>)
    requires Lifecycle(w) && w.dev.live
    requires forall i | 0 <= i < |calls| :: Callable(calls[i])
    requires forall i | 0 <= i < |calls| :: DataCall(calls[i])
    requires w.dev.input[0] == w.table[3].inputData[0]
    ensures var v := PerformAll(w, calls); var x := LatestInput(calls, w.dev.input[0]);
      && v.dev.live && v.dev.state == w.dev.state
      && v.dev.input[0] == x && InputByteSet(w.table, v.table, x)
  {
    hide PluggedTable, ZeroBytes, Perform, Lifecycle, InputByteSet;
    InputBuffer(w);
    BuffersFull(w);
    if calls == [] {
      InputUntouched(w.table);
    } else {
      var n := |calls| - 1;
      var v := PerformAll(w, calls[..n]);
      ProcessImage(w, calls[..n]);
      CallInput(v, calls[n]);
      var x := LatestInput(calls[..n], w.dev.input[0]);
      var y := if calls[n].CallUpdate? then calls[n].data[0] else v.table[3].inputData[0];
      InputSetTwice(w.table, v.table, Perform(v, calls[n]).table, x, y);
    }
  }

  /** The size of the latest read, or what was cached before. */
  function LatestSize(calls: seq<Call>, before: nat): nat {
    if calls == [] then before
    else
      var c := calls[|calls| - 1];
      if c.CallRead? then Least(1, c.room) else LatestSize(calls[..|calls| - 1], before)
  }

  /** Some read asked for at least a byte. */
  predicate ByteRead(calls: seq<Call>) {
    exists i | 0 <= i < |calls| :: calls[i].CallRead? && calls[i].room > 0
  }

  /** The same runs seen from the output side: the cached size is that of the latest read,
      the cached byte is the stack's output byte once a read has asked for one, no other
      cached byte changes, and the next read still returns the untouched output byte. */
  lemma OutputImage(w: World, calls: seq<Call>, room: u16)
    requires Lifecycle(w) && w.dev.live
    requires forall i | 0 <= i < |calls| :: Callable(calls[i])
    requires forall i | 0 <= i < |calls| :: DataCall(calls[i])
    requires w.dev.input[0] == w.table[3].inputData[0]
    ensures |w.table| == 5 && |w.table[4].outputData| == DATA_SIZE
    ensures var v := PerformAll(w, calls); var byte := w.table[4].outputData[0];
      && v.dev.outputSize == LatestSize(calls, w.dev.outputSize)
      && v.dev.output == (if ByteRead(calls) then [byte] else w.dev.output[..1]) + w.dev.output[1..]
      && FullBuffers(v.table) && BytesGiven(v.table, OUTPUT_AT, room) <= DATA_SIZE
      && ReadOutput(v, room).1 == Some([byte][..Least(1, room)])
  {
    hide PluggedTable, ZeroBytes, UpdateInput, ReadOutput, ByteRead, LatestInput, BytesGiven;
    ProcessImage(w, calls);
    InputBuffer(w);
    ReadKeeps(PerformAll(w, calls), room);
    OutputCache(w, calls);
    var byte := w.table[4].outputData[0];
    assert w.table[4].outputData[..Least(1, room)] == [byte][..Least(1, room)];
  }

  lemma {:induction false} OutputCache(w: World, calls: seq<Call>)
    requires Lifecycle(w) && w.dev.live
    requires forall i | 0 <= i < |calls| :: Callable(calls[i])
    requires forall i | 0 <= i < |calls| :: DataCall(calls[i])
    requires w.dev.input[0] == w.table[3].inputData[0]
    ensures |w.table| == 5 && |w.table[4].outputData| == DATA_SIZE
    ensures var v := PerformAll(w, calls); var byte := w.table[4].outputData[0];
      && v.dev.outputSize == LatestSize(calls, w.dev.outputSize)
      && v.dev.output == (if ByteRead(calls) then [byte] else w.dev.output[..1]) + w.dev.output[1..]
  {
    hide PluggedTable, ZeroBytes, Perform, Lifecycle, ByteRead, LatestInput, BytesGiven;
    InputBuffer(w);
    BuffersFull(w);
    if calls == [] {
      NoByteRead();
      assert w.dev.output[..1] + w.dev.output[1..] == w.dev.output;
    } else {
      var n := |calls| - 1;
      OutputCache(w, calls[..n]);
      ProcessImage(w, calls[..n]);
      ByteReadStep(calls);
      CallOutput(PerformAll(w, calls[..n]), calls[n]);
    }
  }

  /** What one such call does to the cached output. */
  lemma CallOutput(w: World, c: Call)
    requires Lifecycle(w) && w.dev.live && Callable(c) && DataCall(c)
    ensures |w.table| == 5 && |w.table[4].outputData| == DATA_SIZE
    ensures var v := Perform(w, c);
      && v.dev.outputSize == (if c.CallRead? then Least(1, c.room) else w.dev.outputSize)
      && v.dev.output ==
        if c.CallRead? && c.room > 0 then [w.table[4].outputData[0]] + w.dev.output[1..] else w.dev.output
  {
    hide PluggedTable, ZeroBytes, UpdateInput, ReadOutput, BytesGiven;
    InputBuffer(w);
    match c
    case CallUpdate(data, len) => UpdateKeeps(w, data, len);
    case CallRead(room) =>
      ReadKeeps(w, room);
      var data := w.table[4].outputData;
      assert data[..0] == [] && data[..1] == [data[0]];
  }

  lemma NoByteRead()
    ensures !ByteRead([])
  {
  }

  lemma BuffersFull(w: World)
    requires Lifecycle(w)
    ensures |w.dev.input| == |w.dev.output| == DATA_SIZE
  {
  }

  lemma ByteReadStep(calls: seq<Call>)
    requires calls != []
    ensures var c := calls[|calls| - 1];
      ByteRead(calls) <==> ByteRead(calls[..|calls| - 1]) || (c.CallRead? && c.room > 0)
  {
    var less := calls[..|calls| - 1];
    assert forall i | 0 <= i < |less| :: less[i] == calls[i];
  }

  lemma InputBuffer(w: World)
    requires Lifecycle(w) && w.dev.live
    ensures |w.table| == 5 && |w.table[3].inputData| == DATA_SIZE && |w.table[4].outputData| == DATA_SIZE
  {
  }

  /** An update agrees with the stack exactly when it is not empty, or happens to repeat
      the cached byte: the stack takes its byte from the caller's buffer all the same. */
  lemma EmptyUpdate(w: World, data: seq<u8>, len: u16)
    requires Lifecycle(w) && w.dev.live && len <= |data| && 0 < |data| && len <= DATA_SIZE
    ensures var v := Perform(w, CallUpdate(data, len));
      && |v.table| == 5 && v.table[3].inputData != [] && v.dev.input != []
      && (v.dev.input[0] == v.table[3].inputData[0] <==> len > 0 || data[0] == w.dev.input[0])
  {
    hide PluggedTable, ZeroBytes, UpdateInput;
    UpdateKeeps(w, data, len);
    InputBuffer(w);
  }
}
