/** What the configuration file means: the settings record with its fixed-size byte
    buffers, the reading of one line, and the text that is saved. */
module ConfigModel {
  import opened CStrings
  import opened Numerals

  datatype Key =
    | ProductName | StationName | Interface | IpAddr | Netmask | Gateway
    | VendorId | DeviceId | TickUs | SendHello | FileDirectory
    | LogLevel | LogFile
    | SecurityEnabled
    | RealtimeEnabled | RtPriority | RtScheduling | LockMemory | IsolateCpu

  /** How the value of a key is stored and written. */
  datatype Kind = Chars(cap: nat) | Address | Ident | Word | Integer | Switch

  datatype Value = Text(bytes: seq<char>) | Number(n: int) | Flag(on: bool)

  /** app_config_t, as far as the file reaches it, with every char array in full. The last
      five fields are not saved: the network mirror and the path of the file. */
  datatype Settings = Settings(
    productName: seq<char>, stationName: seq<char>, interfaceName: seq<char>,
    ipAddr: u32, netmask: u32, gateway: u32, vendorId: u16, deviceId: u16, tickUs: u32,
    sendHello: bool, fileDirectory: seq<char>,
    logLevel: i32, logFile: seq<char>,
    securityEnabled: bool,
    realtimeEnabled: bool, rtPriority: i32, rtScheduling: bool, lockMemory: bool, isolateCpu: i32,
    netIfName: seq<char>, netIpAddr: u32, netNetmask: u32, netGateway: u32,
    configFile: seq<char>)

  function KeyName(k: Key): string {
    match k
    case ProductName => "product_name"
    case StationName => "station_name"
    case Interface => "interface"
    case IpAddr => "ip_addr"
    case Netmask => "netmask"
    case Gateway => "gateway"
    case VendorId => "vendor_id"
    case DeviceId => "device_id"
    case TickUs => "tick_us"
    case SendHello => "send_hello"
    case FileDirectory => "file_directory"
    case LogLevel => "log_level"
    case LogFile => "log_file"
    case SecurityEnabled => "security_enabled"
    case RealtimeEnabled => "realtime_enabled"
    case RtPriority => "rt_priority"
    case RtScheduling => "rt_scheduling"
    case LockMemory => "lock_memory"
    case IsolateCpu => "isolate_cpu"
  }

  function KindOf(k: Key): Kind {
    match k
    case ProductName => Chars(26)
    case StationName => Chars(241)
    case Interface => Chars(16)
    case FileDirectory => Chars(240)
    case LogFile => Chars(256)
    case IpAddr | Netmask | Gateway => Address
    case VendorId | DeviceId => Ident
    case TickUs => Word
    case LogLevel | RtPriority | IsolateCpu => Integer
    case SendHello | SecurityEnabled | RealtimeEnabled | RtScheduling | LockMemory => Switch
  }

  function Get(s: Settings, k: Key): (v: Value)
    ensures v.Text? <==> KindOf(k).Chars?
    ensures v.Flag? <==> KindOf(k).Switch?
  {
    match k
    case ProductName => Text(s.productName)
    case StationName => Text(s.stationName)
    case Interface => Text(s.interfaceName)
    case IpAddr => Number(s.ipAddr)
    case Netmask => Number(s.netmask)
    case Gateway => Number(s.gateway)
    case VendorId => Number(s.vendorId)
    case DeviceId => Number(s.deviceId)
    case TickUs => Number(s.tickUs)
    case SendHello => Flag(s.sendHello)
    case FileDirectory => Text(s.fileDirectory)
    case LogLevel => Number(s.logLevel)
    case LogFile => Text(s.logFile)
    case SecurityEnabled => Flag(s.securityEnabled)
    case RealtimeEnabled => Flag(s.realtimeEnabled)
    case RtPriority => Number(s.rtPriority)
    case RtScheduling => Flag(s.rtScheduling)
    case LockMemory => Flag(s.lockMemory)
    case IsolateCpu => Number(s.isolateCpu)
  }

  /** The buffers have their declared sizes and end in a NUL. */
  ghost predicate WellFormed(s: Settings) {
    && (forall k: Key | KindOf(k).Chars? :: |Get(s, k).bytes| == KindOf(k).cap && Terminated(Get(s, k).bytes))
    && |s.netIfName| == 16 && Terminated(s.netIfName)
    && |s.configFile| == 256 && Terminated(s.configFile)
  }

  /** The network record repeats the device's interface and addresses. */
  predicate Mirrored(s: Settings) {
    && s.netIfName == s.interfaceName
    && s.netIpAddr == s.ipAddr && s.netNetmask == s.netmask && s.netGateway == s.gateway
  }

  /** The string held under a character key. */
  function StrOf(s: Settings, k: Key): string
    requires KindOf(k).Chars?
  {
    CStr(Get(s, k).bytes)
  }

  // ---------------------------------------------------------------- one assignment

  function IsTrue(v: string): bool {
    v == "true" || v == "1"
  }

  /** What the text `v` means under key `k`. */
  function Meaning(k: Key, v: string): Value {
    match KindOf(k)
    case Chars(cap) => Text(Field(v, cap))
    case Address => Number(ParseIp(v))
    case Ident => Number(Low(StrToUL(v, 0), 0x1_0000))
    case Word => Number(Low(StrToUL(v, 0), 0x1_0000_0000))
    case Integer => Number(Atoi(v))
    case Switch => Flag(IsTrue(v))
  }


  /** The strcmp chain of apply_kv. */
  function KeyOf(name: string): Option<Key> {
    if name == KeyName(ProductName) then Some(ProductName)
    else if name == KeyName(StationName) then Some(StationName)
    else if name == KeyName(Interface) then Some(Interface)
    else if name == KeyName(IpAddr) then Some(IpAddr)
    else if name == KeyName(Netmask) then Some(Netmask)
    else if name == KeyName(Gateway) then Some(Gateway)
    else if name == KeyName(VendorId) then Some(VendorId)
    else if name == KeyName(DeviceId) then Some(DeviceId)
    else if name == KeyName(TickUs) then Some(TickUs)
    else if name == KeyName(SendHello) then Some(SendHello)
    else if name == KeyName(FileDirectory) then Some(FileDirectory)
    else if name == KeyName(LogLevel) then Some(LogLevel)
    else if name == KeyName(LogFile) then Some(LogFile)
    else if name == KeyName(SecurityEnabled) then Some(SecurityEnabled)
    else if name == KeyName(RealtimeEnabled) then Some(RealtimeEnabled)
    else if name == KeyName(RtPriority) then Some(RtPriority)
    else if name == KeyName(RtScheduling) then Some(RtScheduling)
    else if name == KeyName(LockMemory) then Some(LockMemory)
    else if name == KeyName(IsolateCpu) then Some(IsolateCpu)
    else None
  }

  /** apply_kv: the branch for key `k`, on the bytes. */
  function Put(s: Settings, k: Key, v: string): Settings
    requires WellFormed(s)
  {
    match k
    case ProductName => s.(productName := NCopy(Get(s, k).bytes, v))
    case StationName => s.(stationName := NCopy(Get(s, k).bytes, v))
    case Interface => s.(interfaceName := NCopy(Get(s, k).bytes, v), netIfName := NCopy(s.netIfName, v))
    case IpAddr => s.(ipAddr := ParseIp(v), netIpAddr := ParseIp(v))
    case Netmask => s.(netmask := ParseIp(v), netNetmask := ParseIp(v))
    case Gateway => s.(gateway := ParseIp(v), netGateway := ParseIp(v))
    case VendorId => s.(vendorId := Low(StrToUL(v, 0), 0x1_0000))
    case DeviceId => s.(deviceId := Low(StrToUL(v, 0), 0x1_0000))
    case TickUs => s.(tickUs := Low(StrToUL(v, 0), 0x1_0000_0000))
    case SendHello => s.(sendHello := IsTrue(v))
    case FileDirectory => s.(fileDirectory := NCopy(Get(s, k).bytes, v))
    case LogLevel => s.(logLevel := Atoi(v))
    case LogFile => s.(logFile := NCopy(Get(s, k).bytes, v))
    case SecurityEnabled => s.(securityEnabled := IsTrue(v))
    case RealtimeEnabled => s.(realtimeEnabled := IsTrue(v))
    case RtPriority => s.(rtPriority := Atoi(v))
    case RtScheduling => s.(rtScheduling := IsTrue(v))
    case LockMemory => s.(lockMemory := IsTrue(v))
    case IsolateCpu => s.(isolateCpu := Atoi(v))
  }

  /** An assignment gives its key a value that does not depend on what was there before. */
  lemma PutSets(s: Settings, k: Key, v: string)
    requires WellFormed(s)
    ensures Get(Put(s, k, v), k) == Meaning(k, v)
  {
    hide ParseIp, StrToUL, Low, Atoi, IsTrue, NCopy, Field;
    if KindOf(k).Chars? {
      NCopyForgets(Get(s, k).bytes, v);
    }
  }

  /** It leaves every other key alone. */
  lemma PutKeeps(s: Settings, k: Key, v: string, j: Key)
    requires WellFormed(s) && j != k
    ensures Get(Put(s, k, v), j) == Get(s, j)
  {
    hide WellFormed, Get, Put;
    match KindOf(k)
    case Chars(_) => TextKeeps(s, k, v, j);
    case Address => AddressKeeps(s, k, v, j);
    case Ident | Word | Integer => NumberKeeps(s, k, v, j);
    case Switch => SwitchKeeps(s, k, v, j);
  }

  lemma TextKeeps(s: Settings, k: Key, v: string, j: Key)
    requires WellFormed(s) && j != k && KindOf(k).Chars?
    ensures Get(Put(s, k, v), j) == Get(s, j)
  {
    hide ParseIp, StrToUL, Low, Atoi, IsTrue, NCopy, WellFormed;
  }

  lemma AddressKeeps(s: Settings, k: Key, v: string, j: Key)
    requires WellFormed(s) && j != k && KindOf(k).Address?
    ensures Get(Put(s, k, v), j) == Get(s, j)
  {
    hide ParseIp, StrToUL, Low, Atoi, IsTrue, NCopy, WellFormed;
  }

  lemma NumberKeeps(s: Settings, k: Key, v: string, j: Key)
    requires WellFormed(s) && j != k && (KindOf(k).Ident? || KindOf(k).Word? || KindOf(k).Integer?)
    ensures Get(Put(s, k, v), j) == Get(s, j)
  {
    hide ParseIp, StrToUL, Low, Atoi, IsTrue, NCopy, WellFormed;
  }

  lemma SwitchKeeps(s: Settings, k: Key, v: string, j: Key)
    requires WellFormed(s) && j != k && KindOf(k).Switch?
    ensures Get(Put(s, k, v), j) == Get(s, j)
  {
    hide ParseIp, StrToUL, Low, Atoi, IsTrue, NCopy, WellFormed;
  }

  lemma PutGet(s: Settings, k: Key, v: string)
    requires WellFormed(s)
    ensures forall j :: Get(Put(s, k, v), j) == if j == k then Meaning(k, v) else Get(s, j)
    ensures WellFormed(Put(s, k, v))
    ensures Mirrored(s) ==> Mirrored(Put(s, k, v))
    ensures Put(s, k, v).configFile == s.configFile
  {
    hide ParseIp, StrToUL, Low, Atoi, IsTrue, Get, Put;
    forall j
      ensures Get(Put(s, k, v), j) == if j == k then Meaning(k, v) else Get(s, j)
    {
      if j == k { PutSets(s, k, v); } else { PutKeeps(s, k, v, j); }
    }
    PutMirror(s, k, v);
  }

  lemma InterfaceBytes(s: Settings)
    ensures Get(s, Interface) == Text(s.interfaceName)
  {
  }

  lemma PutInterface(s: Settings, v: string)
    requires WellFormed(s)
    ensures var t := Put(s, Interface, v);
      && |t.netIfName| == 16 && Terminated(t.netIfName)
      && (s.netIfName == s.interfaceName ==> t.netIfName == t.interfaceName)
  {
    InterfaceBytes(s);
    hide NCopy, Get;
    NCopyForgets(s.netIfName, v);
  }

  lemma PutMirror(s: Settings, k: Key, v: string)
    requires WellFormed(s)
    ensures |Put(s, k, v).netIfName| == 16 && Terminated(Put(s, k, v).netIfName)
    ensures Mirrored(s) ==> Mirrored(Put(s, k, v))
    ensures Put(s, k, v).configFile == s.configFile
  {
    hide ParseIp, StrToUL, Low, Atoi, IsTrue, NCopy, Get, Terminated;
    if k == Interface {
      PutInterface(s, v);
    }
  }

  // ---------------------------------------------------------------- one line

  /** The assignment a line body makes, if any: `key=value` split at the first '=', both
      sides stripped and non-empty; blank lines and comments make none. */
  function Assignment(body: string): Option<(string, string)> {
    var t := Strip(body);
    if t == [] || t[0] == '#' || t[0] == ';' then None
    else
      var left := Until(t, {'='});
      if |left| == |t| then None
      else
        var key := Strip(left);
        var val := Strip(t[|left| + 1..]);
        if key == [] || val == [] then None else Some((key, val))
  }

  function Apply(s: Settings, key: string, val: string): Settings
    requires WellFormed(s)
  {
    match KeyOf(key)
    case None => s
    case Some(k) => Put(s, k, val)
  }

  function Step(s: Settings, body: string): Settings
    requires WellFormed(s)
  {
    match Assignment(body)
    case None => s
    case Some((key, val)) => Apply(s, key, val)
  }

  /** The key and value a line body assigns, for one of the known keys. */
  function Assigned(body: string): Option<(Key, string)> {
    match Assignment(body)
    case None => None
    case Some((key, val)) =>
      match KeyOf(key)
      case None => None
      case Some(k) => Some((k, val))
  }

  // ---------------------------------------------------------------- the whole file

  const LINE_SIZE: nat := 512

  /** The line bodies of a file, one per fgets call. */
  function Bodies(text: string): seq<string>
    decreases |text|
  {
    if text == [] then []
    else
      var n := ChunkLen(text, LINE_SIZE);
      [Body(text[..n])] + Bodies(text[n..])
  }

  function Run(s: Settings, bodies: seq<string>): (r: Settings)
    requires WellFormed(s)
    ensures WellFormed(r) && r.configFile == s.configFile && (Mirrored(s) ==> Mirrored(r))
  {
    if bodies == [] then s
    else
      var t := Run(s, bodies[..|bodies| - 1]);
      var b := bodies[|bodies| - 1];
      if Assigned(b).Some? then PutGet(t, Assigned(b).value.0, Assigned(b).value.1); Step(t, b) else Step(t, b)
  }

  /** The default strings. */
  function DefaultText(k: Key): string
    requires KindOf(k).Chars?
  {
    match k
    case ProductName => "p-net IO Device"
    case StationName => "iodevice1"
    case Interface => "eth0"
    case FileDirectory => "/tmp/pnet"
    case LogFile => "/var/log/pnet-manager.log"
  }

  function DefaultPath(): string {
    "/etc/pnet-manager/config.conf"
  }

  function Defaults(): (s: Settings)
    ensures WellFormed(s) && Mirrored(s)
  {
    hide DefaultText, DefaultPath, Field;
    Settings(
      Field(DefaultText(ProductName), 26), Field(DefaultText(StationName), 241), Field(DefaultText(Interface), 16),
      0xC0A8_0064, 0xFFFF_FF00, 0xC0A8_0001, 1, 1, 1000,
      true, Field(DefaultText(FileDirectory), 240),
      2, Field(DefaultText(LogFile), 256),
      true,
      true, 80, true, true, -1,
      Field(DefaultText(Interface), 16), 0xC0A8_0064, 0xFFFF_FF00, 0xC0A8_0001,
      Field(DefaultPath(), 256))
  }

  function Start(path: string): (s: Settings)
    ensures WellFormed(s) && Mirrored(s)
  {
    hide ParseIp, Defaults;
    var d := Defaults();
    assert forall k :: Get(d.(configFile := Field(path, 256)), k) == Get(d, k);
    d.(configFile := Field(path, 256))
  }

  /** app_config_load on a file with content `text`. */
  function Load(text: string, path: string): (s: Settings)
    ensures WellFormed(s) && Mirrored(s)
  {
    Run(Start(path), Bodies(text))
  }

  // ---------------------------------------------------------------- saving

  function Show(s: Settings, k: Key): string {
    var v := Get(s, k);
    match KindOf(k)
    case Chars(_) => CStr(v.bytes)
    case Address => FormatIp(v.n)
    case Ident => ShowHex(v.n)
    case Word => ShowUInt(v.n)
    case Integer => ShowInt(v.n)
    case Switch => if v.on then "true" else "false"
  }

  datatype Item = Gap | Comment(heading: Heading) | Entry(key: Key)

  datatype Heading = Banner | Caution | Device | Logging | Security | RealTime

  function HeadingText(h: Heading): string {
    match h
    case Banner => "# p-net IO Device Manager Configuration"
    case Caution => "# Auto-generated - edit with care"
    case Device => "# IO Device"
    case Logging => "# Logging"
    case Security => "# Security"
    case RealTime => "# Real-time"
  }

  /** The lines of a saved file, in order. */
  const LAYOUT: seq<Item> := [
    Comment(Banner), Comment(Caution), Gap,
    Comment(Device),
    Entry(ProductName), Entry(StationName), Entry(Interface),
    Entry(IpAddr), Entry(Netmask), Entry(Gateway),
    Entry(VendorId), Entry(DeviceId), Entry(TickUs), Entry(SendHello), Entry(FileDirectory),
    Gap, Comment(Logging),
    Entry(LogLevel), Entry(LogFile),
    Gap, Comment(Security),
    Entry(SecurityEnabled),
    Gap, Comment(RealTime),
    Entry(RealtimeEnabled), Entry(RtPriority), Entry(RtScheduling), Entry(LockMemory), Entry(IsolateCpu)]

  function Line(s: Settings, item: Item): string {
    match item
    case Gap => ""
    case Comment(h) => HeadingText(h)
    case Entry(k) => KeyName(k) + "=" + Show(s, k)
  }

  function SavedLines(s: Settings): (lines: seq<string>)
    ensures |lines| == |LAYOUT|
  {
    seq(|LAYOUT|, i requires 0 <= i < |LAYOUT| => Line(s, LAYOUT[i]))
  }

  /** The text app_config_save writes. */
  function Save(s: Settings): string {
    Unlines(SavedLines(s))
  }

  // ---------------------------------------------------------------- validation

  /** The conditions app_config_validate puts on the numbers. */
  predicate ValidNumbers(s: Settings) {
    && s.ipAddr != 0 && s.ipAddr != 0xFFFF_FFFF
    && s.tickUs != 0 && s.vendorId != 0 && s.deviceId != 0
    && 0 <= s.logLevel <= 3
    && (s.realtimeEnabled ==> 1 <= s.rtPriority <= 99)
  }

  predicate Valid(s: Settings) {
    StrOf(s, Interface) != [] && ValidNumbers(s)
  }
}
