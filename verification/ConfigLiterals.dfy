/** The configuration format letter by letter: every key by its own name, what each key
    writes into the record, what the saved file says, the defaults, and what validation
    refuses. Nothing here goes through KeyName, LAYOUT, DefaultText or ValidNumbers. */
module ConfigLiterals {
  import opened CStrings
  import opened Numerals
  import opened ConfigModel
  import opened ConfigMeaning
  import opened ConfigRoundTrip
  import opened ConfigTheorems

  // ---------------------------------------------------------------- characters and lines

  /** White space is space, tab, line feed, vertical tab, form feed and carriage return. */
  lemma SpaceCodes(c: char)
    ensures IsSpace(c) <==> c as int in {32, 9, 10, 11, 12, 13}
  {
  }

  /** A line's text stops at the first carriage return, line feed or NUL. */
  lemma BodyEnds(l: string, c: char, t: string)
    requires forall i | 0 <= i < |l| :: l[i] != '\r' && l[i] != '\n' && l[i] != '\0'
    requires c == '\r' || c == '\n' || c == '\0'
    ensures Body(l + [c] + t) == l && Body(l) == l
  {
    UntilIs(l, ENDS, |l|);
    UntilIs(l + [c] + t, ENDS, |l|);
    assert (l + [c] + t)[..|l|] == l;
  }

  lemma NoEquals(body: string)
    requires '=' !in body
    ensures Assignment(body) == None
  {
    hide Strip;
    var i, j := StripSpan(body);
    UntilIs(Strip(body), {'='}, |Strip(body)|);
  }

  /** Every line with an '=', cut at the first: it assigns the stripped right side to the
      stripped left side, unless one of them is empty or the line is a comment. */
  lemma LineMeaning(a: string, b: string)
    requires '=' !in a
    ensures Assignment(a + "=" + b) ==
      if Strip(a) == "" || Strip(b) == "" || Strip(a)[0] == '#' || Strip(a)[0] == ';' then None
      else Some((Strip(a), Strip(b)))
  {
    hide Strip;
    var body := a + "=" + b;
    var left, right := LStrip(a), RStripped(b);
    StripAround(a, b);
    var t := left + "=" + right;
    LeftPart(a);
    assert t[|left|] == '=';
    UntilIs(t, {'='}, |left|);
    assert t[..|left|] == left && t[|left| + 1..] == right;
    StripRStripped(b);
    StripLStripped(a);
  }

  lemma StripAround(a: string, b: string)
    ensures Strip(a + "=" + b) == LStrip(a) + "=" + RStripped(b)
  {
    var s := a + "=" + b;
    var i, d := SkipBlank(a, 0), DropBlank(b, |b|);
    var e := |a| + 1 + d;
    MiddleAround(a, b, i, d);
    StripIs(s, i, e);
    assert s[i..e] == a[i..] + "=" + b[..d];
  }

  lemma MiddleAround(a: string, b: string, i: nat, d: nat)
    requires i <= |a| && Blank(a, 0, i) && (i < |a| ==> !IsSpace(a[i]))
    requires d <= |b| && Blank(b, d, |b|) && (d > 0 ==> !IsSpace(b[d - 1]))
    ensures Middle(a + "=" + b, i, |a| + 1 + d)
  {
    var s, e := a + "=" + b, |a| + 1 + d;
    assert !IsSpace('=') && s[|a|] == '=';
    hide IsSpace;
    BlankShift(s, |a| + 1, e, |s|);
    assert s[|a| + 1..] == b;
    assert forall k | 0 <= k < |a| :: s[k] == a[k];
    assert d > 0 ==> s[e - 1] == b[d - 1];
  }

  lemma LeftPart(a: string)
    requires '=' !in a
    ensures '=' !in LStrip(a)
    ensures Strip(a) == "" <==> LStrip(a) == ""
    ensures Strip(a) != "" ==> Strip(a)[0] == LStrip(a)[0]
  {
  }

  lemma StripLStripped(s: string)
    ensures Strip(LStrip(s)) == Strip(s)
  {
    var l := LStrip(s);
    assert SkipBlank(l, 0) == 0;
    assert l[0..] == l;
  }

  // ---------------------------------------------------------------- the nineteen keys

  /** A value that is not blank and fits behind `name=` in one line. */
  predicate Fits(name: string, v: string) {
    Free(v, ENDS) && Strip(v) != "" && |name| + 1 + |v| < 512
  }

  /** The known keys; any other name is ignored. */
  lemma KnownNames(name: string)
    ensures KeyOf(name) == Some(ProductName) <==> name == "product_name"
    ensures KeyOf(name) == Some(StationName) <==> name == "station_name"
    ensures KeyOf(name) == Some(Interface) <==> name == "interface"
    ensures KeyOf(name) == Some(FileDirectory) <==> name == "file_directory"
    ensures KeyOf(name) == Some(LogFile) <==> name == "log_file"
    ensures KeyOf(name) == Some(IpAddr) <==> name == "ip_addr"
    ensures KeyOf(name) == Some(Netmask) <==> name == "netmask"
    ensures KeyOf(name) == Some(Gateway) <==> name == "gateway"
    ensures KeyOf(name) == Some(VendorId) <==> name == "vendor_id"
    ensures KeyOf(name) == Some(DeviceId) <==> name == "device_id"
    ensures KeyOf(name) == Some(TickUs) <==> name == "tick_us"
    ensures KeyOf(name) == Some(LogLevel) <==> name == "log_level"
    ensures KeyOf(name) == Some(RtPriority) <==> name == "rt_priority"
    ensures KeyOf(name) == Some(IsolateCpu) <==> name == "isolate_cpu"
    ensures KeyOf(name) == Some(SendHello) <==> name == "send_hello"
    ensures KeyOf(name) == Some(SecurityEnabled) <==> name == "security_enabled"
    ensures KeyOf(name) == Some(RealtimeEnabled) <==> name == "realtime_enabled"
    ensures KeyOf(name) == Some(RtScheduling) <==> name == "rt_scheduling"
    ensures KeyOf(name) == Some(LockMemory) <==> name == "lock_memory"
  {
    hide KeyOf, KeyName;
    KeyOfSound(name);
    TextKeyNames();
    NumberKeyNames();
    SwitchKeyNames();
    KeyOfName(ProductName);
    KeyOfName(StationName);
    KeyOfName(Interface);
    KeyOfName(FileDirectory);
    KeyOfName(LogFile);
    KeyOfName(IpAddr);
    KeyOfName(Netmask);
    KeyOfName(Gateway);
    KeyOfName(VendorId);
    KeyOfName(DeviceId);
    KeyOfName(TickUs);
    KeyOfName(LogLevel);
    KeyOfName(RtPriority);
    KeyOfName(IsolateCpu);
    KeyOfName(SendHello);
    KeyOfName(SecurityEnabled);
    KeyOfName(RealtimeEnabled);
    KeyOfName(RtScheduling);
    KeyOfName(LockMemory);
  }

  lemma TextKeyNames()
    ensures KeyName(ProductName) == "product_name"
    ensures KeyName(StationName) == "station_name"
    ensures KeyName(Interface) == "interface"
    ensures KeyName(FileDirectory) == "file_directory"
    ensures KeyName(LogFile) == "log_file"
  {
  }

  lemma NumberKeyNames()
    ensures KeyName(IpAddr) == "ip_addr"
    ensures KeyName(Netmask) == "netmask"
    ensures KeyName(Gateway) == "gateway"
    ensures KeyName(VendorId) == "vendor_id"
    ensures KeyName(DeviceId) == "device_id"
    ensures KeyName(TickUs) == "tick_us"
    ensures KeyName(LogLevel) == "log_level"
    ensures KeyName(RtPriority) == "rt_priority"
    ensures KeyName(IsolateCpu) == "isolate_cpu"
  {
  }

  lemma SwitchKeyNames()
    ensures KeyName(SendHello) == "send_hello"
    ensures KeyName(SecurityEnabled) == "security_enabled"
    ensures KeyName(RealtimeEnabled) == "realtime_enabled"
    ensures KeyName(RtScheduling) == "rt_scheduling"
    ensures KeyName(LockMemory) == "lock_memory"
  {
  }

  /** A file of one entry: the record is the default with one assignment. */
  lemma LoadOne(k: Key, v: string, path: string)
    requires Free(v, ENDS) && Strip(v) != "" && |KeyName(k)| + 1 + |v| < 512
    ensures Load(KeyName(k) + "=" + v, path) == Put(Start(path), k, Strip(v))
  {
    hide KeyName, Assigned, Body, Bodies, Strip, Put, Run, Start, Step, WellFormed;
    var l := KeyName(k) + "=" + v;
    KeyNames(k);
    EntryLine(k, v);
    RunLastLine(Start(path), l);
    RunOne(Start(path), Body(l));
    StepPut(Start(path), Body(l), k, Strip(v));
  }

  lemma RunOne(s: Settings, b: string)
    requires WellFormed(s)
    ensures Run(s, [b]) == Step(s, b)
  {
    hide Step, WellFormed;
    RunSnoc(s, [], b);
    assert [] + [b] == [b];
  }

  lemma StepPut(s: Settings, b: string, k: Key, v: string)
    requires WellFormed(s) && Assigned(b) == Some((k, v))
    ensures Step(s, b) == Put(s, k, v)
  {
    hide Assignment, KeyOf, Put, WellFormed;
  }

  lemma NamedEntry(k: Key, name: string, head: string, v: string, path: string)
    requires KeyName(k) == name && head == name + "=" && Fits(name, v)
    ensures Load(head + v, path) == Put(Start(path), k, Strip(v))
  {
    hide KeyName, Load, Put, Start, Strip;
    LoadOne(k, v, path);
  }

  /** The five strings, cut to their buffers; the interface is the network's as well. */
  lemma LoadTexts(v: string, path: string)
    ensures Fits("product_name", v) ==>
      Load("product_name=" + v, path) == Start(path).(productName := Field(Strip(v), 26))
    ensures Fits("station_name", v) ==>
      Load("station_name=" + v, path) == Start(path).(stationName := Field(Strip(v), 241))
    ensures Fits("interface", v) ==>
      Load("interface=" + v, path)
        == Start(path).(interfaceName := Field(Strip(v), 16), netIfName := Field(Strip(v), 16))
    ensures Fits("file_directory", v) ==>
      Load("file_directory=" + v, path) == Start(path).(fileDirectory := Field(Strip(v), 240))
    ensures Fits("log_file", v) ==>
      Load("log_file=" + v, path) == Start(path).(logFile := Field(Strip(v), 256))
  {
    hide Load, Start, Strip, KeyName, Field, Put, Fits, WellFormed;
    TextKeyNames();
    PutTexts(Start(path), Strip(v));
    if Fits("product_name", v) { NamedEntry(ProductName, "product_name", "product_name=", v, path); }
    if Fits("station_name", v) { NamedEntry(StationName, "station_name", "station_name=", v, path); }
    if Fits("interface", v) { NamedEntry(Interface, "interface", "interface=", v, path); }
    if Fits("file_directory", v) { NamedEntry(FileDirectory, "file_directory", "file_directory=", v, path); }
    if Fits("log_file", v) { NamedEntry(LogFile, "log_file", "log_file=", v, path); }
  }

  lemma PutTexts(s: Settings, v: string)
    requires WellFormed(s)
    ensures Put(s, ProductName, v) == s.(productName := Field(v, 26))
    ensures Put(s, StationName, v) == s.(stationName := Field(v, 241))
    ensures Put(s, Interface, v) == s.(interfaceName := Field(v, 16), netIfName := Field(v, 16))
    ensures Put(s, FileDirectory, v) == s.(fileDirectory := Field(v, 240))
    ensures Put(s, LogFile, v) == s.(logFile := Field(v, 256))
  {
    hide NCopy, Field, WellFormed, Terminated;
    TextSizes(s);
    TextFields(s);
    NCopyForgets(s.productName, v);
    NCopyForgets(s.stationName, v);
    NCopyForgets(s.interfaceName, v);
    NCopyForgets(s.fileDirectory, v);
    NCopyForgets(s.logFile, v);
    NCopyForgets(s.netIfName, v);
  }

  lemma TextSizes(s: Settings)
    requires WellFormed(s)
    ensures |s.productName| == 26 && Terminated(s.productName)
    ensures |s.stationName| == 241 && Terminated(s.stationName)
    ensures |s.interfaceName| == 16 && Terminated(s.interfaceName)
    ensures |s.fileDirectory| == 240 && Terminated(s.fileDirectory)
    ensures |s.logFile| == 256 && Terminated(s.logFile)
    ensures |s.netIfName| == 16 && Terminated(s.netIfName)
  {
    hide Terminated;
    TextFields(s);
    assert |Get(s, ProductName).bytes| == KindOf(ProductName).cap && Terminated(Get(s, ProductName).bytes);
    assert |Get(s, StationName).bytes| == KindOf(StationName).cap && Terminated(Get(s, StationName).bytes);
    assert |Get(s, Interface).bytes| == KindOf(Interface).cap && Terminated(Get(s, Interface).bytes);
    assert |Get(s, FileDirectory).bytes| == KindOf(FileDirectory).cap && Terminated(Get(s, FileDirectory).bytes);
    assert |Get(s, LogFile).bytes| == KindOf(LogFile).cap && Terminated(Get(s, LogFile).bytes);
  }

  /** The three addresses, with their copies in the network record. */
  lemma LoadAddresses(v: string, path: string)
    ensures Fits("ip_addr", v) ==>
      Load("ip_addr=" + v, path) == Start(path).(ipAddr := ParseIp(Strip(v)), netIpAddr := ParseIp(Strip(v)))
    ensures Fits("netmask", v) ==>
      Load("netmask=" + v, path) == Start(path).(netmask := ParseIp(Strip(v)), netNetmask := ParseIp(Strip(v)))
    ensures Fits("gateway", v) ==>
      Load("gateway=" + v, path) == Start(path).(gateway := ParseIp(Strip(v)), netGateway := ParseIp(Strip(v)))
  {
    hide Load, Start, Strip, KeyName, Put, Fits, WellFormed, ParseIp, StrToUL, Low, Atoi;
    NumberKeyNames();
    PutAddresses(Start(path), Strip(v));
    if Fits("ip_addr", v) { NamedEntry(IpAddr, "ip_addr", "ip_addr=", v, path); }
    if Fits("netmask", v) { NamedEntry(Netmask, "netmask", "netmask=", v, path); }
    if Fits("gateway", v) { NamedEntry(Gateway, "gateway", "gateway=", v, path); }
  }

  lemma PutAddresses(s: Settings, v: string)
    requires WellFormed(s)
    ensures Put(s, IpAddr, v) == s.(ipAddr := ParseIp(v), netIpAddr := ParseIp(v))
    ensures Put(s, Netmask, v) == s.(netmask := ParseIp(v), netNetmask := ParseIp(v))
    ensures Put(s, Gateway, v) == s.(gateway := ParseIp(v), netGateway := ParseIp(v))
  {
    hide WellFormed, ParseIp, StrToUL, Low, Atoi;
  }

  /** The ids keep 16 bits of what strtoul reads with base 0, the tick 32. */
  lemma LoadUnsigned(v: string, path: string)
    ensures Fits("vendor_id", v) ==>
      Load("vendor_id=" + v, path) == Start(path).(vendorId := Low(StrToUL(Strip(v), 0), 0x1_0000))
    ensures Fits("device_id", v) ==>
      Load("device_id=" + v, path) == Start(path).(deviceId := Low(StrToUL(Strip(v), 0), 0x1_0000))
    ensures Fits("tick_us", v) ==>
      Load("tick_us=" + v, path) == Start(path).(tickUs := Low(StrToUL(Strip(v), 0), 0x1_0000_0000))
  {
    hide Load, Start, Strip, KeyName, Put, Fits, WellFormed, ParseIp, StrToUL, Low, Atoi;
    NumberKeyNames();
    PutUnsigned(Start(path), Strip(v));
    if Fits("vendor_id", v) { NamedEntry(VendorId, "vendor_id", "vendor_id=", v, path); }
    if Fits("device_id", v) { NamedEntry(DeviceId, "device_id", "device_id=", v, path); }
    if Fits("tick_us", v) { NamedEntry(TickUs, "tick_us", "tick_us=", v, path); }
  }

  lemma PutUnsigned(s: Settings, v: string)
    requires WellFormed(s)
    ensures Put(s, VendorId, v) == s.(vendorId := Low(StrToUL(v, 0), 0x1_0000))
    ensures Put(s, DeviceId, v) == s.(deviceId := Low(StrToUL(v, 0), 0x1_0000))
    ensures Put(s, TickUs, v) == s.(tickUs := Low(StrToUL(v, 0), 0x1_0000_0000))
  {
    hide WellFormed, ParseIp, StrToUL, Low, Atoi;
  }

  /** The numbers read by atoi. */
  lemma LoadIntegers(v: string, path: string)
    ensures Fits("log_level", v) ==>
      Load("log_level=" + v, path) == Start(path).(logLevel := Atoi(Strip(v)))
    ensures Fits("rt_priority", v) ==>
      Load("rt_priority=" + v, path) == Start(path).(rtPriority := Atoi(Strip(v)))
    ensures Fits("isolate_cpu", v) ==>
      Load("isolate_cpu=" + v, path) == Start(path).(isolateCpu := Atoi(Strip(v)))
  {
    hide Load, Start, Strip, KeyName, Put, Fits, WellFormed, ParseIp, StrToUL, Low, Atoi;
    NumberKeyNames();
    PutIntegers(Start(path), Strip(v));
    if Fits("log_level", v) { NamedEntry(LogLevel, "log_level", "log_level=", v, path); }
    if Fits("rt_priority", v) { NamedEntry(RtPriority, "rt_priority", "rt_priority=", v, path); }
    if Fits("isolate_cpu", v) { NamedEntry(IsolateCpu, "isolate_cpu", "isolate_cpu=", v, path); }
  }

  lemma PutIntegers(s: Settings, v: string)
    requires WellFormed(s)
    ensures Put(s, LogLevel, v) == s.(logLevel := Atoi(v))
    ensures Put(s, RtPriority, v) == s.(rtPriority := Atoi(v))
    ensures Put(s, IsolateCpu, v) == s.(isolateCpu := Atoi(v))
  {
    hide WellFormed, ParseIp, StrToUL, Low, Atoi;
  }

  /** A switch is on for exactly the texts "true" and "1". */
  lemma LoadSwitches(v: string, path: string)
    ensures Fits("send_hello", v) ==>
      Load("send_hello=" + v, path) == Start(path).(sendHello := Strip(v) == "true" || Strip(v) == "1")
    ensures Fits("security_enabled", v) ==>
      Load("security_enabled=" + v, path) == Start(path).(securityEnabled := Strip(v) == "true" || Strip(v) == "1")
    ensures Fits("realtime_enabled", v) ==>
      Load("realtime_enabled=" + v, path) == Start(path).(realtimeEnabled := Strip(v) == "true" || Strip(v) == "1")
    ensures Fits("rt_scheduling", v) ==>
      Load("rt_scheduling=" + v, path) == Start(path).(rtScheduling := Strip(v) == "true" || Strip(v) == "1")
    ensures Fits("lock_memory", v) ==>
      Load("lock_memory=" + v, path) == Start(path).(lockMemory := Strip(v) == "true" || Strip(v) == "1")
  {
    hide Load, Start, Strip, KeyName, Put, Fits, WellFormed, ParseIp, StrToUL, Low, Atoi;
    SwitchKeyNames();
    PutSwitches(Start(path), Strip(v));
    if Fits("send_hello", v) { NamedEntry(SendHello, "send_hello", "send_hello=", v, path); }
    if Fits("security_enabled", v) { NamedEntry(SecurityEnabled, "security_enabled", "security_enabled=", v, path); }
    if Fits("realtime_enabled", v) { NamedEntry(RealtimeEnabled, "realtime_enabled", "realtime_enabled=", v, path); }
    if Fits("rt_scheduling", v) { NamedEntry(RtScheduling, "rt_scheduling", "rt_scheduling=", v, path); }
    if Fits("lock_memory", v) { NamedEntry(LockMemory, "lock_memory", "lock_memory=", v, path); }
  }

  lemma PutSwitches(s: Settings, v: string)
    requires WellFormed(s)
    ensures Put(s, SendHello, v) == s.(sendHello := v == "true" || v == "1")
    ensures Put(s, SecurityEnabled, v) == s.(securityEnabled := v == "true" || v == "1")
    ensures Put(s, RealtimeEnabled, v) == s.(realtimeEnabled := v == "true" || v == "1")
    ensures Put(s, RtScheduling, v) == s.(rtScheduling := v == "true" || v == "1")
    ensures Put(s, LockMemory, v) == s.(lockMemory := v == "true" || v == "1")
  {
    hide WellFormed, ParseIp, StrToUL, Low, Atoi;
  }

  // ---------------------------------------------------------------- the saved file

  function OnOff(on: bool): string {
    if on then "true" else "false"
  }

  /** The file save writes, line by line. */
  function FileLines(s: Settings): seq<string> {
    [
      "# p-net IO Device Manager Configuration",
      "# Auto-generated - edit with care",
      "",
      "# IO Device",
      "product_name=" + CStr(s.productName),
      "station_name=" + CStr(s.stationName),
      "interface=" + CStr(s.interfaceName),
      "ip_addr=" + FormatIp(s.ipAddr),
      "netmask=" + FormatIp(s.netmask),
      "gateway=" + FormatIp(s.gateway),
      "vendor_id=" + ShowHex(s.vendorId),
      "device_id=" + ShowHex(s.deviceId),
      "tick_us=" + ShowUInt(s.tickUs),
      "send_hello=" + OnOff(s.sendHello),
      "file_directory=" + CStr(s.fileDirectory),
      "",
      "# Logging",
      "log_level=" + ShowInt(s.logLevel),
      "log_file=" + CStr(s.logFile),
      "",
      "# Security",
      "security_enabled=" + OnOff(s.securityEnabled),
      "",
      "# Real-time",
      "realtime_enabled=" + OnOff(s.realtimeEnabled),
      "rt_priority=" + ShowInt(s.rtPriority),
      "rt_scheduling=" + OnOff(s.rtScheduling),
      "lock_memory=" + OnOff(s.lockMemory),
      "isolate_cpu=" + ShowInt(s.isolateCpu)]
  }

  lemma SavedText(s: Settings)
    ensures Save(s) == Unlines(FileLines(s))
  {
    hide SavedLines, LAYOUT, OnOff, Unlines, CStr, FormatIp, ShowHex, ShowUInt, ShowInt;
    SavedRemarks(s);
    SavedTexts(s);
    SavedNumbers(s);
    SavedSwitches(s);
    assert SavedLines(s) == FileLines(s);
  }

  lemma SavedEntry(s: Settings, k: Key, name: string, head: string)
    requires KeyName(k) == name && head == name + "="
    ensures SavedLines(s)[Slot(k)] == head + Show(s, k)
  {
    hide KeyName, Slot, Show, LAYOUT;
    LineAt(s, Slot(k));
  }

  lemma SavedTexts(s: Settings)
    ensures |SavedLines(s)| == 29
    ensures SavedLines(s)[4] == "product_name=" + CStr(s.productName)
    ensures SavedLines(s)[5] == "station_name=" + CStr(s.stationName)
    ensures SavedLines(s)[6] == "interface=" + CStr(s.interfaceName)
    ensures SavedLines(s)[14] == "file_directory=" + CStr(s.fileDirectory)
    ensures SavedLines(s)[18] == "log_file=" + CStr(s.logFile)
  {
    hide SavedLines, KeyName, Show, LAYOUT, OnOff, CStr, FormatIp, ShowHex, ShowUInt, ShowInt;
    LayoutSizeIs();
    TextKeyNames();
    ShownTexts(s);
    SavedEntry(s, ProductName, "product_name", "product_name=");
    SavedEntry(s, StationName, "station_name", "station_name=");
    SavedEntry(s, Interface, "interface", "interface=");
    SavedEntry(s, FileDirectory, "file_directory", "file_directory=");
    SavedEntry(s, LogFile, "log_file", "log_file=");
  }

  lemma ShownTexts(s: Settings)
    ensures Show(s, ProductName) == CStr(s.productName)
    ensures Show(s, StationName) == CStr(s.stationName)
    ensures Show(s, Interface) == CStr(s.interfaceName)
    ensures Show(s, FileDirectory) == CStr(s.fileDirectory)
    ensures Show(s, LogFile) == CStr(s.logFile)
  {
    hide CStr, FormatIp, ShowHex, ShowUInt, ShowInt;
  }

  lemma SavedNumbers(s: Settings)
    ensures |SavedLines(s)| == 29
    ensures SavedLines(s)[7] == "ip_addr=" + FormatIp(s.ipAddr)
    ensures SavedLines(s)[8] == "netmask=" + FormatIp(s.netmask)
    ensures SavedLines(s)[9] == "gateway=" + FormatIp(s.gateway)
    ensures SavedLines(s)[10] == "vendor_id=" + ShowHex(s.vendorId)
    ensures SavedLines(s)[11] == "device_id=" + ShowHex(s.deviceId)
    ensures SavedLines(s)[12] == "tick_us=" + ShowUInt(s.tickUs)
    ensures SavedLines(s)[17] == "log_level=" + ShowInt(s.logLevel)
    ensures SavedLines(s)[25] == "rt_priority=" + ShowInt(s.rtPriority)
    ensures SavedLines(s)[28] == "isolate_cpu=" + ShowInt(s.isolateCpu)
  {
    hide SavedLines, KeyName, Show, LAYOUT, OnOff, CStr, FormatIp, ShowHex, ShowUInt, ShowInt;
    LayoutSizeIs();
    NumberKeyNames();
    ShownNumbers(s);
    SavedEntry(s, IpAddr, "ip_addr", "ip_addr=");
    SavedEntry(s, Netmask, "netmask", "netmask=");
    SavedEntry(s, Gateway, "gateway", "gateway=");
    SavedEntry(s, VendorId, "vendor_id", "vendor_id=");
    SavedEntry(s, DeviceId, "device_id", "device_id=");
    SavedEntry(s, TickUs, "tick_us", "tick_us=");
    SavedEntry(s, LogLevel, "log_level", "log_level=");
    SavedEntry(s, RtPriority, "rt_priority", "rt_priority=");
    SavedEntry(s, IsolateCpu, "isolate_cpu", "isolate_cpu=");
  }

  lemma ShownNumbers(s: Settings)
    ensures Show(s, IpAddr) == FormatIp(s.ipAddr)
    ensures Show(s, Netmask) == FormatIp(s.netmask)
    ensures Show(s, Gateway) == FormatIp(s.gateway)
    ensures Show(s, VendorId) == ShowHex(s.vendorId)
    ensures Show(s, DeviceId) == ShowHex(s.deviceId)
    ensures Show(s, TickUs) == ShowUInt(s.tickUs)
    ensures Show(s, LogLevel) == ShowInt(s.logLevel)
    ensures Show(s, RtPriority) == ShowInt(s.rtPriority)
    ensures Show(s, IsolateCpu) == ShowInt(s.isolateCpu)
  {
    hide CStr, FormatIp, ShowHex, ShowUInt, ShowInt;
  }

  lemma SavedSwitches(s: Settings)
    ensures |SavedLines(s)| == 29
    ensures SavedLines(s)[13] == "send_hello=" + OnOff(s.sendHello)
    ensures SavedLines(s)[21] == "security_enabled=" + OnOff(s.securityEnabled)
    ensures SavedLines(s)[24] == "realtime_enabled=" + OnOff(s.realtimeEnabled)
    ensures SavedLines(s)[26] == "rt_scheduling=" + OnOff(s.rtScheduling)
    ensures SavedLines(s)[27] == "lock_memory=" + OnOff(s.lockMemory)
  {
    hide SavedLines, KeyName, Show, LAYOUT, OnOff, CStr, FormatIp, ShowHex, ShowUInt, ShowInt;
    LayoutSizeIs();
    SwitchKeyNames();
    ShownSwitches(s);
    SavedEntry(s, SendHello, "send_hello", "send_hello=");
    SavedEntry(s, SecurityEnabled, "security_enabled", "security_enabled=");
    SavedEntry(s, RealtimeEnabled, "realtime_enabled", "realtime_enabled=");
    SavedEntry(s, RtScheduling, "rt_scheduling", "rt_scheduling=");
    SavedEntry(s, LockMemory, "lock_memory", "lock_memory=");
  }

  lemma ShownSwitches(s: Settings)
    ensures Show(s, SendHello) == OnOff(s.sendHello)
    ensures Show(s, SecurityEnabled) == OnOff(s.securityEnabled)
    ensures Show(s, RealtimeEnabled) == OnOff(s.realtimeEnabled)
    ensures Show(s, RtScheduling) == OnOff(s.rtScheduling)
    ensures Show(s, LockMemory) == OnOff(s.lockMemory)
  {
    hide CStr, FormatIp, ShowHex, ShowUInt, ShowInt;
  }

  lemma SavedRemarks(s: Settings)
    ensures |SavedLines(s)| == 29
    ensures SavedLines(s)[0] == "# p-net IO Device Manager Configuration"
    ensures SavedLines(s)[1] == "# Auto-generated - edit with care"
    ensures SavedLines(s)[3] == "# IO Device"
    ensures SavedLines(s)[16] == "# Logging"
    ensures SavedLines(s)[20] == "# Security"
    ensures SavedLines(s)[23] == "# Real-time"
    ensures SavedLines(s)[2] == ""
    ensures SavedLines(s)[15] == ""
    ensures SavedLines(s)[19] == ""
    ensures SavedLines(s)[22] == ""
  {
    hide SavedLines, LAYOUT, HeadingText;
    LayoutSizeIs();
    LayoutRemarks();
    HeadingWords();
    LineAt(s, 0);
    LineAt(s, 1);
    LineAt(s, 2);
    LineAt(s, 3);
    LineAt(s, 15);
    LineAt(s, 16);
    LineAt(s, 19);
    LineAt(s, 20);
    LineAt(s, 22);
    LineAt(s, 23);
  }

  lemma LayoutRemarks()
    ensures |LAYOUT| == 29
    ensures LAYOUT[0] == Comment(Banner)
    ensures LAYOUT[1] == Comment(Caution)
    ensures LAYOUT[3] == Comment(Device)
    ensures LAYOUT[16] == Comment(Logging)
    ensures LAYOUT[20] == Comment(Security)
    ensures LAYOUT[23] == Comment(RealTime)
    ensures LAYOUT[2] == Gap
    ensures LAYOUT[15] == Gap
    ensures LAYOUT[19] == Gap
    ensures LAYOUT[22] == Gap
  {
  }

  lemma HeadingWords()
    ensures HeadingText(Banner) == "# p-net IO Device Manager Configuration"
    ensures HeadingText(Caution) == "# Auto-generated - edit with care"
    ensures HeadingText(Device) == "# IO Device"
    ensures HeadingText(Logging) == "# Logging"
    ensures HeadingText(Security) == "# Security"
    ensures HeadingText(RealTime) == "# Real-time"
  {
  }

  lemma LayoutSizeIs()
    ensures |LAYOUT| == 29
  {
  }

  // ---------------------------------------------------------------- the defaults

  /** The record load starts from, field by field. */
  lemma DefaultValues(path: string)
    ensures var s := Start(path);
      && CStr(s.productName) == "p-net IO Device" && CStr(s.stationName) == "iodevice1"
      && CStr(s.interfaceName) == CStr(s.netIfName) == "eth0"
      && CStr(s.fileDirectory) == "/tmp/pnet" && CStr(s.logFile) == "/var/log/pnet-manager.log"
    ensures var s := Start(path);
      && s.ipAddr == s.netIpAddr == ParseIp("192.168.0.100")
      && s.netmask == s.netNetmask == ParseIp("255.255.255.0")
      && s.gateway == s.netGateway == ParseIp("192.168.0.1")
      && s.vendorId == 1 && s.deviceId == 1 && s.tickUs == 1000 && s.sendHello
      && s.logLevel == 2 && s.securityEnabled
      && s.realtimeEnabled && s.rtPriority == 80 && s.rtScheduling && s.lockMemory && s.isolateCpu == -1
  {
    hide ParseIp, DefaultText, Start, CStr, StrOf, Tidy, Get;
    BuiltInAddresses();
    DefaultStrings();
    DefaultNumbers(path);
    StringsOf(Start(path));
    StartString(path, ProductName);
    StartString(path, StationName);
    StartString(path, Interface);
    StartString(path, FileDirectory);
    StartString(path, LogFile);
  }

  /** Without a file the record is the same, under the built-in path. */
  lemma BuiltInPath(path: string)
    ensures Defaults() == Start(path).(configFile := Defaults().configFile)
    ensures CStr(Defaults().configFile) == "/etc/pnet-manager/config.conf"
    ensures Free(path, {'\0'}) && |path| < 256 ==> CStr(Start(path).configFile) == path
  {
    hide DefaultText, CStr, Padded;
    PathText();
    if Free(path, {'\0'}) && |path| < 256 { PaddedText(path, 256); }
  }

  lemma PathText()
    ensures CStr(Field(DefaultPath(), 256)) == "/etc/pnet-manager/config.conf"
  {
    hide Padded;
    PaddedText(DefaultPath(), 256);
  }

  lemma StringsOf(s: Settings)
    ensures StrOf(s, ProductName) == CStr(s.productName) && StrOf(s, StationName) == CStr(s.stationName)
    ensures StrOf(s, Interface) == CStr(s.interfaceName) && StrOf(s, FileDirectory) == CStr(s.fileDirectory)
    ensures StrOf(s, LogFile) == CStr(s.logFile)
  {
    hide CStr;
    TextFields(s);
  }

  lemma DefaultStrings()
    ensures DefaultText(ProductName) == "p-net IO Device" && DefaultText(StationName) == "iodevice1"
    ensures DefaultText(Interface) == "eth0" && DefaultText(FileDirectory) == "/tmp/pnet"
    ensures DefaultText(LogFile) == "/var/log/pnet-manager.log"
  {
  }

  // ---------------------------------------------------------------- validation

  /** One bad field is enough to be refused. */
  lemma RefusedFields(s: Settings)
    requires |s.interfaceName| > 0
    ensures s.interfaceName[0] == '\0' ==> !Valid(s)
    ensures s.ipAddr == 0 || s.ipAddr == 0xFFFF_FFFF ==> !Valid(s)
    ensures s.tickUs == 0 || s.vendorId == 0 || s.deviceId == 0 ==> !Valid(s)
    ensures s.logLevel < 0 || s.logLevel > 3 ==> !Valid(s)
    ensures s.realtimeEnabled && (s.rtPriority < 1 || s.rtPriority > 99) ==> !Valid(s)
  {
  }

  /** Nothing else is refused: the valid defaults stay valid under every other value of one
      field, and of any field that validation does not read. */
  lemma AcceptedFields(path: string)
    ensures Valid(Start(path))
    ensures forall v: u16 :: Valid(Start(path).(vendorId := v)) <==> v != 0
    ensures forall v: u16 :: Valid(Start(path).(deviceId := v)) <==> v != 0
    ensures forall v: u32 :: Valid(Start(path).(tickUs := v)) <==> v != 0
    ensures forall v: u32 :: Valid(Start(path).(ipAddr := v)) <==> v != 0 && v != 0xFFFF_FFFF
    ensures forall v: i32 :: Valid(Start(path).(logLevel := v)) <==> v in {0, 1, 2, 3}
    ensures forall v: i32 :: Valid(Start(path).(rtPriority := v)) <==> 1 <= v <= 99
    ensures forall v: i32 :: Valid(Start(path).(realtimeEnabled := false, rtPriority := v))
  {
    hide Start, StrOf;
    LoadedValidity("", path);
    DefaultNumbers(path);
    SameInterface(Start(path));
  }

  lemma DefaultNumbers(path: string)
    ensures var s := Start(path);
      && s.ipAddr == s.netIpAddr == 0xC0A8_0064 && s.netmask == s.netNetmask == 0xFFFF_FF00
      && s.gateway == s.netGateway == 0xC0A8_0001
      && s.vendorId == 1 && s.deviceId == 1 && s.tickUs == 1000 && s.sendHello
      && s.logLevel == 2 && s.securityEnabled
      && s.realtimeEnabled && s.rtPriority == 80 && s.rtScheduling && s.lockMemory && s.isolateCpu == -1
  {
    hide DefaultText, Field, DefaultPath;
  }

  lemma SameInterface(s: Settings)
    ensures forall v: u16 :: StrOf(s.(vendorId := v), Interface) == StrOf(s, Interface)
    ensures forall v: u16 :: StrOf(s.(deviceId := v), Interface) == StrOf(s, Interface)
    ensures forall v: u32 :: StrOf(s.(tickUs := v), Interface) == StrOf(s, Interface)
    ensures forall v: u32 :: StrOf(s.(ipAddr := v), Interface) == StrOf(s, Interface)
    ensures forall v: i32 :: StrOf(s.(logLevel := v), Interface) == StrOf(s, Interface)
    ensures forall v: i32 :: StrOf(s.(rtPriority := v), Interface) == StrOf(s, Interface)
    ensures forall v: i32 :: StrOf(s.(realtimeEnabled := false, rtPriority := v), Interface) == StrOf(s, Interface)
  {
    hide CStr;
  }
}
