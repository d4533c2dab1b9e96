/** The configuration record with its char arrays, and the four operations of the module:
    default, apply_kv, load and save. */
module AppConfig {
  import opened CStrings
  import opened Numerals
  import opened ConfigModel
  import opened ConfigMeaning
  import opened CBuffers

  class Config {
    const productName: array<char>
    const stationName: array<char>
    const interfaceName: array<char>
    var ipAddr: u32
    var netmask: u32
    var gateway: u32
    var vendorId: u16
    var deviceId: u16
    var tickUs: u32
    var sendHello: bool
    const fileDirectory: array<char>
    var logLevel: i32
    const logFile: array<char>
    var securityEnabled: bool
    var realtimeEnabled: bool
    var rtPriority: i32
    var rtScheduling: bool
    var lockMemory: bool
    var isolateCpu: i32
    const netIfName: array<char>
    var netIpAddr: u32
    var netNetmask: u32
    var netGateway: u32
    const configFile: array<char>

    ghost const buffers: set<array<char>> :=
      {productName, stationName, interfaceName, fileDirectory, logFile, netIfName, configFile}

    /** The buffers have their declared sizes and do not overlap. */
    ghost predicate Valid() {
      && productName.Length == 26 && stationName.Length == 241 && interfaceName.Length == 16
      && fileDirectory.Length == 240 && logFile.Length == 256
      && netIfName.Length == 16 && netIfName != interfaceName
      && configFile.Length == 256 && configFile != logFile
    }

    function View(): Settings
      reads this, buffers
    {
      Settings(
        productName[..], stationName[..], interfaceName[..],
        ipAddr, netmask, gateway, vendorId, deviceId, tickUs,
        sendHello, fileDirectory[..],
        logLevel, logFile[..],
        securityEnabled,
        realtimeEnabled, rtPriority, rtScheduling, lockMemory, isolateCpu,
        netIfName[..], netIpAddr, netNetmask, netGateway,
        configFile[..])
    }

    constructor ()
      ensures Valid() && fresh(buffers)
    {
      productName := new char[26];
      stationName := new char[241];
      interfaceName := new char[16];
      fileDirectory := new char[240];
      logFile := new char[256];
      netIfName := new char[16];
      configFile := new char[256];
    }

    /** strncpy into one of the buffers. */
    method Copy(dst: array<char>, v: string)
      requires Valid() && dst in buffers
      modifies dst
      ensures dst[..] == NCopy(old(dst[..]), v)
      ensures forall b | b in buffers && b != dst :: b[..] == old(b[..])
    {
      StrNCpy(dst, v);
      assert forall b | b in buffers && b != dst :: b[..] == old(b[..]);
    }

    method PutText(k: Key, val: string)
      requires Valid() && WellFormed(View()) && KindOf(k).Chars?
      modifies buffers
      ensures View() == Put(old(View()), k, val)
    {
      hide NCopy, WellFormed;
      match k
      case ProductName => Copy(productName, val);
      case StationName => Copy(stationName, val);
      case Interface => Copy(interfaceName, val); Copy(netIfName, val);
      case FileDirectory => Copy(fileDirectory, val);
      case LogFile => Copy(logFile, val);
    }

    method PutAddress(k: Key, val: string)
      requires WellFormed(View()) && KindOf(k).Address?
      modifies this
      ensures View() == Put(old(View()), k, val)
    {
      hide ParseIp, StrToUL, Atoi, Low, WellFormed;
      match k
      case IpAddr =>
        var ip := ParseIp(val);
        ipAddr := ip;
        netIpAddr := ip;
      case Netmask =>
        var mask := ParseIp(val);
        netmask := mask;
        netNetmask := mask;
      case Gateway =>
        var gw := ParseIp(val);
        gateway := gw;
        netGateway := gw;
    }

    method PutUnsigned(k: Key, val: string)
      requires WellFormed(View()) && (KindOf(k).Ident? || KindOf(k).Word?)
      modifies this
      ensures View() == Put(old(View()), k, val)
    {
      hide ParseIp, StrToUL, Atoi, Low, WellFormed;
      match k
      case VendorId => vendorId := Low(StrToUL(val, 0), 0x1_0000);
      case DeviceId => deviceId := Low(StrToUL(val, 0), 0x1_0000);
      case TickUs => tickUs := Low(StrToUL(val, 0), 0x1_0000_0000);
    }

    method PutInteger(k: Key, val: string)
      requires WellFormed(View()) && KindOf(k).Integer?
      modifies this
      ensures View() == Put(old(View()), k, val)
    {
      hide ParseIp, StrToUL, Atoi, Low, WellFormed;
      match k
      case LogLevel => logLevel := Atoi(val);
      case RtPriority => rtPriority := Atoi(val);
      case IsolateCpu => isolateCpu := Atoi(val);
    }

    method PutSwitch(k: Key, val: string)
      requires WellFormed(View()) && KindOf(k).Switch?
      modifies this
      ensures View() == Put(old(View()), k, val)
    {
      hide IsTrue, WellFormed;
      match k
      case SendHello => sendHello := IsTrue(val);
      case SecurityEnabled => securityEnabled := IsTrue(val);
      case RealtimeEnabled | RtScheduling | LockMemory => PutRealTime(k, val);
    }

    method PutRealTime(k: Key, val: string)
      requires WellFormed(View()) && (k.RealtimeEnabled? || k.RtScheduling? || k.LockMemory?)
      modifies this
      ensures View() == Put(old(View()), k, val)
    {
      hide IsTrue, WellFormed;
      match k
      case RealtimeEnabled => realtimeEnabled := IsTrue(val);
      case RtScheduling => rtScheduling := IsTrue(val);
      case LockMemory => lockMemory := IsTrue(val);
    }

    /** apply_kv: the strcmp chain, then the branch of the key. */
    method ApplyKv(key: string, val: string)
      requires Valid() && WellFormed(View())
      modifies this, buffers
      ensures View() == Apply(old(View()), key, val)
    {
      hide KeyOf, Put, KindOf, WellFormed;
      match KeyOf(key)
      case None =>
      case Some(k) =>
        if KindOf(k).Chars? {
          PutText(k, val);
        } else if KindOf(k).Switch? {
          PutSwitch(k, val);
        } else if KindOf(k).Address? {
          PutAddress(k, val);
        } else if KindOf(k).Integer? {
          PutInteger(k, val);
        } else {
          PutUnsigned(k, val);
        }
    }

    // -------------------------------------------------------------- app_config_default

    method Erase(dst: array<char>)
      requires dst in buffers
      modifies dst
      ensures dst[..] == Zeros(dst.Length)
      ensures forall b | b in buffers && b != dst :: b[..] == old(b[..])
    {
      forall i | 0 <= i < dst.Length {
        dst[i] := NUL;
      }
      assert forall b | b in buffers && b != dst :: b[..] == old(b[..]);
    }

    /** memset(cfg, 0, ..) on the buffers. */
    method Clear()
      requires Valid()
      modifies buffers
      ensures forall b | b in buffers :: b[..] == Zeros(b.Length)
    {
      hide Zeros;
      Erase(productName);
      Erase(stationName);
      Erase(interfaceName);
      Erase(fileDirectory);
      Erase(logFile);
      Erase(netIfName);
      Erase(configFile);
    }

    method SetTexts()
      requires Valid()
      modifies buffers
      ensures productName[..] == Field(DefaultText(ProductName), 26)
      ensures stationName[..] == Field(DefaultText(StationName), 241)
      ensures interfaceName[..] == Field(DefaultText(Interface), 16)
      ensures fileDirectory[..] == Field(DefaultText(FileDirectory), 240)
      ensures netIfName[..] == Field(DefaultText(Interface), 16)
      ensures logFile[..] == Field(DefaultText(LogFile), 256)
      ensures configFile[..] == Field(DefaultPath(), 256)
    {
      hide NCopy, Field, DefaultText, DefaultPath, Zeros;
      Clear();
      forall n: nat, v | n > 0
        ensures NCopy(Zeros(n), v) == Field(v, n)
      {
        NCopyForgets(Zeros(n), v);
      }
      Copy(productName, DefaultText(ProductName));
      Copy(stationName, DefaultText(StationName));
      Copy(interfaceName, DefaultText(Interface));
      Copy(fileDirectory, DefaultText(FileDirectory));
      Copy(netIfName, DefaultText(Interface));
      Copy(logFile, DefaultText(LogFile));
      Copy(configFile, DefaultPath());
    }

    static method BuiltIn() returns (ip: u32, mask: u32, gw: u32)
      ensures ip == 0xC0A8_0064 && mask == 0xFFFF_FF00 && gw == 0xC0A8_0001
    {
      hide *;
      BuiltInAddresses();
      ip := ParseIp("192.168.0.100");
      mask := ParseIp("255.255.255.0");
      gw := ParseIp("192.168.0.1");
    }

    method SetAddresses()
      modifies `ipAddr, `netmask, `gateway, `netIpAddr, `netNetmask, `netGateway
      ensures ipAddr == netIpAddr == 0xC0A8_0064
      ensures netmask == netNetmask == 0xFFFF_FF00
      ensures gateway == netGateway == 0xC0A8_0001
    {
      ipAddr, netmask, gateway := BuiltIn();
      netIpAddr, netNetmask, netGateway := ipAddr, netmask, gateway;
    }

    method SetSwitches()
      modifies `sendHello, `securityEnabled, `realtimeEnabled, `rtScheduling, `lockMemory
      ensures sendHello && securityEnabled && realtimeEnabled && rtScheduling && lockMemory
    {
      sendHello := true;
      securityEnabled, realtimeEnabled := true, true;
      rtScheduling, lockMemory := true, true;
    }

    method SetNumbers()
      modifies `vendorId, `deviceId, `tickUs, `rtPriority, `isolateCpu, `logLevel
      ensures vendorId == deviceId == 1 && tickUs == 1000
      ensures rtPriority == 80 && isolateCpu == -1 && logLevel == 2
    {
      vendorId, deviceId, tickUs := 1, 1, 1000;
      rtPriority, isolateCpu, logLevel := 80, -1, 2;
    }

    /** app_config_default: whatever the record held before is gone. */
    method SetDefaults()
      requires Valid()
      modifies this, buffers
      ensures View() == Defaults()
    {
      hide Field, DefaultText, DefaultPath, WellFormed, Get, KindOf;
      SetTexts();
      SetAddresses();
      SetSwitches();
      SetNumbers();
    }

    // -------------------------------------------------------------- app_config_load

    /** The defaults, and the path of the file. */
    method SetStart(path: string)
      requires Valid()
      modifies this, buffers
      ensures View() == Start(path)
    {
      hide Defaults, Field, WellFormed, NCopy, Terminated;
      SetDefaults();
      Copy(configFile, path);
      EndOfPath(Defaults());
      NCopyForgets(Defaults().configFile, path);
    }

    /** One round of the loop over the lines. */
    method LoadLine(line: array<char>, text: string, pos: nat) returns (n: nat)
      requires Valid() && WellFormed(View())
      requires line.Length == LINE_SIZE && line !in buffers && pos < |text|
      modifies this, buffers, line
      ensures WellFormed(View()) && 0 < n && pos + n <= |text|
      ensures Run(View(), Bodies(text[pos + n..])) == Run(old(View()), Bodies(text[pos..]))
    {
      hide Apply, KeyOf, Assignment, Strip, WellFormed, Valid, View, Bodies, Body;
      ghost var rest := text[pos..];
      TakeChunk(rest);
      n := ReadLine(line, text, pos);
      var a := SplitLine(line);
      RunCons(View(), Body(rest[..n]), Bodies(rest[n..]));
      if a.Some? {
        ApplyKv(a.value.0, a.value.1);
      }
      assert rest[n..] == text[pos + n..];
    }

    /** `file` is None when the file cannot be opened. */
    method LoadFile(file: Option<string>, path: string) returns (rc: int)
      requires Valid()
      modifies this, buffers
      ensures rc == if file.None? then -1 else 0
      ensures file.None? ==> View() == old(View())
      ensures file.Some? ==> View() == Load(file.value, path)
    {
      hide Start, WellFormed, Valid, View, Run, Bodies;
      if file.None? {
        return -1;
      }
      var text := file.value;
      SetStart(path);
      var line := new char[LINE_SIZE];
      var pos := 0;
      assert text[0..] == text;
      while pos < |text|
        invariant 0 <= pos <= |text|
        invariant WellFormed(View())
        invariant Run(View(), Bodies(text[pos..])) == Load(text, path)
      {
        var n := LoadLine(line, text, pos);
        pos := pos + n;
      }
      assert text[pos..] == "";
      EndOfFile(View());
      return 0;
    }

    // -------------------------------------------------------------- app_config_save

    /** One fprintf of a full line: `file` already holds the first `i` lines. */
    static method FPrintLn(file: string, ghost s: Settings, ghost i: nat, line: string) returns (r: string)
      requires i < |LAYOUT| && file == Unlines(SavedLines(s)[..i]) && line == Line(s, LAYOUT[i])
      ensures r == Unlines(SavedLines(s)[..i + 1])
    {
      hide LAYOUT, Line;
      r := file + line + ['\n'];
      ghost var lines := SavedLines(s);
      assert lines[..i + 1] == lines[..i] + [line];
      UnlinesConcat(lines[..i], [line]);
      assert Unlines([line]) == line + ['\n'] by { assert [line][1..] == []; }
    }

    method SaveBanner() returns (file: string)
      requires Valid()
      ensures file == Unlines(SavedLines(View())[..3])
    {
      hide SavedLines, KeyName, HeadingText, Show;
      ghost var s := View();
      file := "";
      assert SavedLines(s)[..0] == [];
      file := FPrintLn(file, s, 0, HeadingText(Banner));
      file := FPrintLn(file, s, 1, HeadingText(Caution));
      file := FPrintLn(file, s, 2, "");
    }

    method SaveDevice(printed: string) returns (file: string)
      requires Valid() && printed == Unlines(SavedLines(View())[..3])
      ensures file == Unlines(SavedLines(View())[..7])
    {
      hide Unlines, SavedLines, KeyName, HeadingText, FormatIp, ShowHex, ShowUInt, ShowInt, CStr;
      ghost var s := View();
      file := printed;
      file := FPrintLn(file, s, 3, HeadingText(Device));
      file := FPrintLn(file, s, 4, KeyName(ProductName) + "=" + CStr(productName[..]));
      file := FPrintLn(file, s, 5, KeyName(StationName) + "=" + CStr(stationName[..]));
      file := FPrintLn(file, s, 6, KeyName(Interface) + "=" + CStr(interfaceName[..]));
    }

    method SaveAddresses(printed: string) returns (file: string)
      requires Valid() && printed == Unlines(SavedLines(View())[..7])
      ensures file == Unlines(SavedLines(View())[..10])
    {
      hide Unlines, SavedLines, KeyName, HeadingText, FormatIp, ShowHex, ShowUInt, ShowInt, CStr;
      ghost var s := View();
      file := printed;
      var ip := FormatIp(ipAddr);
      file := FPrintLn(file, s, 7, KeyName(IpAddr) + "=" + ip);
      ip := FormatIp(netmask);
      file := FPrintLn(file, s, 8, KeyName(Netmask) + "=" + ip);
      ip := FormatIp(gateway);
      file := FPrintLn(file, s, 9, KeyName(Gateway) + "=" + ip);
    }

    method SaveStack(printed: string) returns (file: string)
      requires Valid() && printed == Unlines(SavedLines(View())[..10])
      ensures file == Unlines(SavedLines(View())[..13])
    {
      hide Unlines, SavedLines, KeyName, HeadingText, FormatIp, ShowHex, ShowUInt, ShowInt, CStr;
      ghost var s := View();
      file := printed;
      file := FPrintLn(file, s, 10, KeyName(VendorId) + "=" + ShowHex(vendorId));
      file := FPrintLn(file, s, 11, KeyName(DeviceId) + "=" + ShowHex(deviceId));
      file := FPrintLn(file, s, 12, KeyName(TickUs) + "=" + ShowUInt(tickUs));
    }

    method SaveHello(printed: string) returns (file: string)
      requires Valid() && printed == Unlines(SavedLines(View())[..13])
      ensures file == Unlines(SavedLines(View())[..15])
    {
      hide Unlines, SavedLines, KeyName, HeadingText, FormatIp, ShowHex, ShowUInt, ShowInt, CStr;
      ghost var s := View();
      file := printed;
      file := FPrintLn(file, s, 13, KeyName(SendHello) + "=" + (if sendHello then "true" else "false"));
      file := FPrintLn(file, s, 14, KeyName(FileDirectory) + "=" + CStr(fileDirectory[..]));
    }

    method SaveLogging(printed: string) returns (file: string)
      requires Valid() && printed == Unlines(SavedLines(View())[..15])
      ensures file == Unlines(SavedLines(View())[..19])
    {
      hide Unlines, SavedLines, KeyName, HeadingText, FormatIp, ShowHex, ShowUInt, ShowInt, CStr;
      ghost var s := View();
      file := printed;
      file := FPrintLn(file, s, 15, "");
      file := FPrintLn(file, s, 16, HeadingText(Logging));
      file := FPrintLn(file, s, 17, KeyName(LogLevel) + "=" + ShowInt(logLevel));
      file := FPrintLn(file, s, 18, KeyName(LogFile) + "=" + CStr(logFile[..]));
    }

    method SaveSecurity(printed: string) returns (file: string)
      requires Valid() && printed == Unlines(SavedLines(View())[..19])
      ensures file == Unlines(SavedLines(View())[..22])
    {
      hide Unlines, SavedLines, KeyName, HeadingText, FormatIp, ShowHex, ShowUInt, ShowInt, CStr;
      ghost var s := View();
      file := printed;
      file := FPrintLn(file, s, 19, "");
      file := FPrintLn(file, s, 20, HeadingText(Security));
      file := FPrintLn(file, s, 21, KeyName(SecurityEnabled) + "=" + (if securityEnabled then "true" else "false"));
    }

    method SaveRealTime(printed: string) returns (file: string)
      requires Valid() && printed == Unlines(SavedLines(View())[..22])
      ensures file == Unlines(SavedLines(View())[..25])
    {
      hide Unlines, SavedLines, KeyName, HeadingText, FormatIp, ShowHex, ShowUInt, ShowInt, CStr;
      ghost var s := View();
      file := printed;
      file := FPrintLn(file, s, 22, "");
      file := FPrintLn(file, s, 23, HeadingText(RealTime));
      file := FPrintLn(file, s, 24, KeyName(RealtimeEnabled) + "=" + (if realtimeEnabled then "true" else "false"));
    }

    method SaveScheduling(printed: string) returns (file: string)
      requires Valid() && printed == Unlines(SavedLines(View())[..25])
      ensures file == Unlines(SavedLines(View())[..27])
    {
      hide Unlines, SavedLines, KeyName, HeadingText, FormatIp, ShowHex, ShowUInt, ShowInt, CStr;
      ghost var s := View();
      file := printed;
      file := FPrintLn(file, s, 25, KeyName(RtPriority) + "=" + ShowInt(rtPriority));
      file := FPrintLn(file, s, 26, KeyName(RtScheduling) + "=" + (if rtScheduling then "true" else "false"));
    }

    method SaveMachine(printed: string) returns (file: string)
      requires Valid() && printed == Unlines(SavedLines(View())[..27])
      ensures file == Unlines(SavedLines(View())[..29])
    {
      hide Unlines, SavedLines, KeyName, HeadingText, FormatIp, ShowHex, ShowUInt, ShowInt, CStr;
      ghost var s := View();
      file := printed;
      file := FPrintLn(file, s, 27, KeyName(LockMemory) + "=" + (if lockMemory then "true" else "false"));
      file := FPrintLn(file, s, 28, KeyName(IsolateCpu) + "=" + ShowInt(isolateCpu));
    }

    /** `canOpen` says whether fopen succeeds; `file` is what was written. */
    method SaveFile(canOpen: bool) returns (rc: int, file: string)
      requires Valid()
      ensures rc == if canOpen then 0 else -1
      ensures canOpen ==> file == Save(View())
    {
      hide SavedLines, HeadingText, KeyName, Show, CStr, LAYOUT;
      if !canOpen {
        return -1, "";
      }
      ghost var s := View();
      file := SaveBanner();
      file := SaveDevice(file);
      file := SaveAddresses(file);
      file := SaveStack(file);
      file := SaveHello(file);
      file := SaveLogging(file);
      file := SaveSecurity(file);
      file := SaveRealTime(file);
      file := SaveScheduling(file);
      file := SaveMachine(file);
      LayoutSize();
      assert SavedLines(s)[..29] == SavedLines(s);
      return 0, file;
    }

    // -------------------------------------------------------------- app_config_validate

    method Validate() returns (rc: int)
      requires Valid()
      ensures rc == if ConfigModel.Valid(View()) then 0 else -1
    {
      assert interfaceName[0] == NUL <==> StrOf(View(), Interface) == [];
      if interfaceName[0] == NUL {
        return -1;
      }
      if ipAddr == 0 {
        return -1;
      }
      if ipAddr == 0x0000_0000 || ipAddr == 0xFFFF_FFFF {
        return -1;
      }
      if tickUs == 0 {
        return -1;
      }
      if vendorId == 0 {
        return -1;
      }
      if deviceId == 0 {
        return -1;
      }
      if logLevel < 0 || logLevel > 3 {
        return -1;
      }
      if realtimeEnabled {
        if rtPriority < 1 || rtPriority > 99 {
          return -1;
        }
      }
      return 0;
    }
  }

  lemma LayoutSize()
    ensures |LAYOUT| == 29
  {
  }

  lemma EndOfFile(s: Settings)
    requires WellFormed(s)
    ensures Run(s, Bodies("")) == s
  {
  }

  lemma EndOfPath(s: Settings)
    requires WellFormed(s)
    ensures |s.configFile| == 256 && Terminated(s.configFile)
  {
  }
}
