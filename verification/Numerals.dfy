/** The numeric printers and readers of the program: %u, %d, 0x%04X and the dotted quad on
    one side (snprintf, ISO/IEC 9899:2011 section 7.21.6.5); strtoul, atoi and sscanf's %u
    on the other (7.22.1.4, 7.22.1.2, 7.21.6.2). `unsigned long` has 64 bits. */
module Numerals {
  import opened CStrings

  type u8 = x: int | 0 <= x < 0x100
  type u16 = x: int | 0 <= x < 0x1_0000
  type u32 = x: int | 0 <= x < 0x1_0000_0000
  type i32 = x: int | -0x8000_0000 <= x < 0x8000_0000

  const ULONG_MAX: int := 0xFFFF_FFFF_FFFF_FFFF
  const LONG_MAX: int := 0x7FFF_FFFF_FFFF_FFFF

  // ---------------------------------------------------------------- digits

  /** The value of a digit; 16, which no base reaches, for any other character. */
  function DigitVal(c: char): nat {
    if '0' <= c <= '9' then c as int - '0' as int
    else if 'A' <= c <= 'F' then c as int - 'A' as int + 10
    else if 'a' <= c <= 'f' then c as int - 'a' as int + 10
    else 16
  }

  function DigitChar(d: nat): (c: char)
    requires d < 16
    ensures DigitVal(c) == d && (c == '0' <==> d == 0)
  {
    if d < 10 then ('0' as int + d) as char else ('A' as int + d - 10) as char
  }

  predicate AllDigits(s: string, b: nat) {
    forall i | 0 <= i < |s| :: DigitVal(s[i]) < b
  }

  function Value(s: string, b: nat): nat {
    if s == [] then 0 else Value(s[..|s| - 1], b) * b + DigitVal(s[|s| - 1])
  }

  function Digits(n: nat, b: nat): (s: string)
    requires 2 <= b <= 16
    ensures s != [] && AllDigits(s, b)
    ensures n > 0 ==> s[0] != '0'
  {
    if n < b then [DigitChar(n)] else Quotient(n, b); Digits(n / b, b) + [DigitChar(n % b)]
  }

  lemma Quotient(n: nat, b: nat)
    requires 2 <= b <= n
    ensures 0 < n / b < n && n == n / b * b + n % b
  {
    var q := n / b;
    assert n == b * q + n % b;
    assert q <= 0 ==> b * q <= 0;
    assert q >= 0 ==> 2 * q <= b * q;
  }

  lemma {:induction false} ValueDigits(n: nat, b: nat)
    requires 2 <= b <= 16
    ensures Value(Digits(n, b), b) == n
  {
    if n < b {
      assert Digits(n, b)[..0] == [];
    } else {
      Quotient(n, b);
      ValueDigits(n / b, b);
      assert Digits(n, b)[..|Digits(n, b)| - 1] == Digits(n / b, b);
    }
  }

  function Pow(b: nat, k: nat): nat {
    if k == 0 then 1 else b * Pow(b, k - 1)
  }

  lemma {:induction false} DigitsLength(n: nat, b: nat, k: nat)
    requires 2 <= b <= 16 && k > 0 && n < Pow(b, k)
    ensures |Digits(n, b)| <= k
  {
    if n >= b {
      Quotient(n, b);
      assert Pow(b, k) == b * Pow(b, k - 1);
      QuotientBelow(n, b, Pow(b, k - 1));
      DigitsLength(n / b, b, k - 1);
    }
  }

  lemma QuotientBelow(n: nat, b: nat, p: nat)
    requires 0 < b && n < b * p
    ensures n / b < p
  {
    var q := n / b;
    assert n == b * q + n % b;
    if q >= p { ProductGrows(b, p, q); }
  }

  lemma ProductGrows(b: nat, p: nat, q: nat)
    requires p <= q
    ensures b * p <= b * q
  {
    var d := q - p;
    assert b * q == b * p + b * d;
  }

  lemma {:induction false} DigitsAtLeast(n: nat, k: nat)
    requires n >= Pow(10, k)
    ensures |Digits(n, 10)| > k
  {
    if k > 0 {
      PowPositive(10, k - 1);
      assert n >= 10 * Pow(10, k - 1);
      DigitsAtLeast(n / 10, k - 1);
    }
  }

  lemma PowPositive(b: nat, k: nat)
    requires b > 0
    ensures Pow(b, k) > 0
  {
  }

  lemma SmallDigits(n: nat)
    ensures n < 100 ==> |Digits(n, 10)| <= 2
    ensures n < 256 ==> |Digits(n, 10)| <= 3
    ensures n < 0x1_0000_0000 ==> |Digits(n, 10)| <= 10
    ensures n < 0x1_0000 ==> |Digits(n, 16)| <= 4
  {
    assert Pow(10, 3) == 1000;
    assert Pow(10, 6) == 1000 * Pow(10, 3);
    assert Pow(10, 10) == 10000 * Pow(10, 6);
    assert Pow(16, 4) == 0x1_0000;
    if n < 100 { DigitsLength(n, 10, 2); }
    if n < 256 { DigitsLength(n, 10, 3); }
    if n < 0x1_0000_0000 { DigitsLength(n, 10, 10); }
    if n < 0x1_0000 { DigitsLength(n, 16, 4); }
  }

  function DigitEnd(s: string, i: nat, b: nat): (n: nat)
    requires i <= |s|
    ensures i <= n <= |s| && (forall k | i <= k < n :: DigitVal(s[k]) < b)
    ensures n < |s| ==> DigitVal(s[n]) >= b
    decreases |s| - i
  {
    if i == |s| || DigitVal(s[i]) >= b then i else DigitEnd(s, i + 1, b)
  }

  function DigitRun(s: string, b: nat): (r: string)
    ensures r <= s && AllDigits(r, b)
    ensures forall i | 0 <= i < |r| :: DigitVal(s[i]) < b
    ensures |r| < |s| ==> DigitVal(s[|r|]) >= b
  {
    s[..DigitEnd(s, 0, b)]
  }

  lemma DigitRunIs(d: string, rest: string, b: nat)
    requires AllDigits(d, b) && (rest != [] ==> DigitVal(rest[0]) >= b)
    ensures DigitRun(d + rest, b) == d
  {
    var s := d + rest;
    var r := DigitRun(s, b);
    assert forall i | 0 <= i < |d| :: s[i] == d[i];
    assert r == s[..|r|] && d == s[..|d|];
  }

  // ---------------------------------------------------------------- readers

  /** Conversion to an unsigned type of `m` values. */
  function Low(v: int, m: int): (r: int)
    requires 0 <= v && 0 < m
    ensures 0 <= r < m
  {
    if v < m then v else v % m
  }

  /** Conversion to int. */
  function ToInt32(v: int): i32 {
    if -0x8000_0000 <= v < 0x8000_0000 then v
    else (v + 0x8000_0000) % 0x1_0000_0000 - 0x8000_0000
  }

  function Sign(t: string): (bool, string) {
    if t != [] && t[0] == '-' then (true, t[1..])
    else if t != [] && t[0] == '+' then (false, t[1..])
    else (false, t)
  }

  /** The base strtoul settles on, and where its digits start. */
  function Radix(u: string, base: nat): (r: (nat, string))
  {
    if base != 0 then (base, u)
    else if |u| > 2 && u[0] == '0' && (u[1] == 'x' || u[1] == 'X') && DigitVal(u[2]) < 16 then (16, u[2..])
    else if u != [] && u[0] == '0' then (8, u)
    else (10, u)
  }

  function StrToUL(s: string, base: nat): (v: int)
    ensures 0 <= v <= ULONG_MAX
  {
    var (negative, u) := Sign(LStrip(s));
    var (b, d) := Radix(u, base);
    var m := Value(DigitRun(d, b), b);
    if m > ULONG_MAX then ULONG_MAX
    else if negative && m > 0 then ULONG_MAX + 1 - m
    else m
  }

  /** atoi as (int)strtol(s, NULL, 10), with the conversion to int keeping the low 32 bits. */
  function Atoi(s: string): i32 {
    var (negative, u) := Sign(LStrip(s));
    var m: int := Value(DigitRun(u, 10), 10);
    var v := if negative then (if m > LONG_MAX then -LONG_MAX - 1 else -m)
             else (if m > LONG_MAX then LONG_MAX else m);
    ToInt32(v)
  }

  /** One %u of sscanf: the number and the unread rest. */
  function ScanUInt(s: string): Option<(u32, string)> {
    var (negative, u) := Sign(LStrip(s));
    var run := DigitRun(u, 10);
    if run == [] then None else Some((Low(StrToUL(s, 10), 0x1_0000_0000), u[|run|..]))
  }

  /** `n` numbers separated by single dots, as sscanf reads "%u.%u. ..". */
  function ScanDotted(s: string, n: nat): (r: Option<seq<u32>>)
    requires n > 0
    ensures r.Some? ==> |r.value| == n
  {
    match ScanUInt(s)
    case None => None
    case Some((a, rest)) =>
      if n == 1 then Some([a])
      else if rest == [] || rest[0] != '.' then None
      else match ScanDotted(rest[1..], n - 1)
        case None => None
        case Some(more) => Some([a] + more)
  }

  /** parse_ip: the first octet lands in the highest byte, 0 stands for failure. */
  function ParseIp(s: string): u32 {
    match ScanDotted(s, 4)
    case None => 0
    case Some(q) =>
      if q[0] > 255 || q[1] > 255 || q[2] > 255 || q[3] > 255 then 0
      else q[0] * 0x100_0000 + q[1] * 0x1_0000 + q[2] * 0x100 + q[3]
  }

  // ---------------------------------------------------------------- printers

  function ShowUInt(n: nat): string {
    Digits(n, 10)
  }

  function ShowInt(n: int): string {
    if n < 0 then "-" + Digits(-n, 10) else Digits(n, 10)
  }

  /** 0x%04X */
  function ShowHex(n: u16): string {
    var d := Digits(n, 16);
    "0x" + seq(if |d| < 4 then 4 - |d| else 0, _ => '0') + d
  }

  function Octet(ip: u32, i: nat): (o: nat)
    requires i < 4
    ensures o < 256
  {
    if i == 0 then ip / 0x100_0000
    else if i == 1 then ip / 0x1_0000 % 256
    else if i == 2 then ip / 0x100 % 256
    else ip % 256
  }

  function Octets(ip: u32): (q: seq<u32>)
    ensures |q| == 4
  {
    [Octet(ip, 0), Octet(ip, 1), Octet(ip, 2), Octet(ip, 3)]
  }

  function ShowDotted(q: seq<u32>): string
    requires q != []
  {
    if |q| == 1 then ShowUInt(q[0]) else ShowUInt(q[0]) + ("." + ShowDotted(q[1..]))
  }

  function FormatIp(ip: u32): string {
    ShowDotted(Octets(ip))
  }

  // ---------------------------------------------------------------- reading back

  lemma NoLeadingBlank(s: string)
    requires s != [] ==> !IsSpace(s[0])
    ensures LStrip(s) == s
  {
  }

  /** Text that starts with a digit is read from its first character on. */
  lemma Unsigned(d: string, rest: string)
    requires d != [] && AllDigits(d, 16)
    ensures Sign(LStrip(d + rest)) == (false, d + rest)
  {
    var s := d + rest;
    assert s[0] == d[0] && DigitVal(s[0]) < 16;
    NoLeadingBlank(s);
  }

  lemma StrToULIs(s: string, base: nat, u: string, b: nat, d: string)
    requires Sign(LStrip(s)) == (false, u) && Radix(u, base) == (b, d)
    requires Value(DigitRun(d, b), b) <= ULONG_MAX
    ensures StrToUL(s, base) == Value(DigitRun(d, b), b)
  {
  }

  lemma ScanPrinted(n: u32, rest: string)
    requires rest != [] ==> DigitVal(rest[0]) >= 10
    ensures ScanUInt(ShowUInt(n) + rest) == Some((n, rest))
  {
    var d := Digits(n, 10);
    Unsigned(d, rest);
    DigitRunIs(d, rest, 10);
    ValueDigits(n, 10);
    StrToULIs(d + rest, 10, d + rest, 10, d + rest);
    assert (d + rest)[|d|..] == rest;
  }

  /** One more number in front of a dotted text. */
  lemma ScanDottedCons(n: u32, t: string, k: nat, q: seq<u32>)
    requires k > 0 && ScanDotted(t, k) == Some(q)
    ensures ScanDotted(ShowUInt(n) + ("." + t), k + 1) == Some([n] + q)
  {
    ScanNextDot(n, t);
    assert ("." + t)[1..] == t;
  }

  lemma ScanNextDot(n: u32, t: string)
    ensures ScanUInt(ShowUInt(n) + ("." + t)) == Some((n, "." + t))
  {
    ScanPrinted(n, "." + t);
  }

  /** sscanf reads back every dotted list of numbers. */
  lemma {:induction false} ScanShown(q: seq<u32>)
    requires q != []
    ensures ScanDotted(ShowDotted(q), |q|) == Some(q)
  {
    hide ScanUInt, ShowUInt;
    if |q| == 1 {
      ScanPrinted(q[0], []);
      assert ShowUInt(q[0]) + [] == ShowUInt(q[0]) && [q[0]] == q;
    } else {
      ScanShown(q[1..]);
      ScanDottedCons(q[0], ShowDotted(q[1..]), |q| - 1, q[1..]);
      assert q == [q[0]] + q[1..];
    }
  }

  /** Every 32-bit address survives the dotted quad. */
  lemma IpRoundTrip(ip: u32)
    ensures ParseIp(FormatIp(ip)) == ip
  {
    ScanShown(Octets(ip));
    OctetsCompose(ip);
  }

  lemma OctetsCompose(ip: u32)
    ensures ip == Octet(ip, 0) * 0x100_0000 + Octet(ip, 1) * 0x1_0000 + Octet(ip, 2) * 0x100 + Octet(ip, 3)
  {
    var two, three := ip / 0x1_0000, ip / 0x100;
    SplitByte(ip);
    SplitByte(three);
    SplitByte(two);
    QuotientIs(ip, 0x1_0000, three / 0x100, three % 0x100 * 0x100 + ip % 0x100);
    QuotientIs(ip, 0x100_0000, two / 0x100, two % 0x100 * 0x1_0000 + three % 0x100 * 0x100 + ip % 0x100);
  }

  lemma SplitByte(n: nat)
    ensures n == n / 0x100 * 0x100 + n % 0x100
  {
  }

  lemma Printed(n: nat, b: nat)
    requires 2 <= b <= 16
    ensures DigitRun(Digits(n, b), b) == Digits(n, b) && Value(Digits(n, b), b) == n
  {
    DigitRunIs(Digits(n, b), [], b);
    assert Digits(n, b) + [] == Digits(n, b);
    ValueDigits(n, b);
  }

  /** Base 0 takes a printed number for octal only when it is 0, so every 32-bit tick
      survives. */
  lemma UIntRoundTrip(n: u32)
    ensures StrToUL(ShowUInt(n), 0) == n
  {
    var d := ShowUInt(n);
    var b := if n == 0 then 8 else 10;
    Unsigned(d, []);
    assert d + [] == d;
    PrintedRadix(n);
    Printed(n, b);
    assert n == 0 ==> Digits(n, 8) == d;
    StrToULIs(d, 0, d, b, d);
  }

  lemma PrintedRadix(n: nat)
    ensures Radix(Digits(n, 10), 0) == (if n == 0 then 8 else 10, Digits(n, 10))
  {
  }

  lemma {:induction false} LeadingZeros(z: string, d: string, b: nat)
    requires forall i | 0 <= i < |z| :: z[i] == '0'
    ensures Value(z + d, b) == Value(d, b)
    decreases |z| + |d|
  {
    if d != [] {
      assert (z + d)[..|z + d| - 1] == z + d[..|d| - 1];
      LeadingZeros(z, d[..|d| - 1], b);
    } else if z != [] {
      assert (z + d)[..|z + d| - 1] == z[..|z| - 1] + d;
      LeadingZeros(z[..|z| - 1], d, b);
    }
  }

  lemma HexRadix(t: string)
    requires t != [] && AllDigits(t, 16)
    ensures Radix("0x" + t, 0) == (16, t) && Sign(LStrip("0x" + t)) == (false, "0x" + t)
  {
    var s := "0x" + t;
    assert s[2..] == t && s[2] == t[0];
    Unsigned("0", "x" + t);
    assert s == "0" + ("x" + t);
  }

  lemma HexRoundTrip(n: u16)
    ensures StrToUL(ShowHex(n), 0) == n
  {
    var d := Digits(n, 16);
    var z := seq(if |d| < 4 then 4 - |d| else 0, _ => '0');
    var t := z + d;
    assert ShowHex(n) == "0x" + t;
    HexRadix(t);
    assert t + [] == t;
    DigitRunIs(t, [], 16);
    LeadingZeros(z, d, 16);
    ValueDigits(n, 16);
  }

  lemma AtoiIs(s: string, negative: bool, u: string, m: nat)
    requires Sign(LStrip(s)) == (negative, u) && Value(DigitRun(u, 10), 10) == m
    requires m < 0x8000_0000 || (negative && m == 0x8000_0000)
    ensures Atoi(s) == if negative then -(m as int) else m
  {
  }

  /** Every int survives %d and atoi. */
  lemma IntRoundTrip(n: i32)
    ensures Atoi(ShowInt(n)) == n
  {
    var m: nat := if n < 0 then -(n as int) else n;
    var d := Digits(m, 10);
    Printed(m, 10);
    if n < 0 {
      NoLeadingBlank("-" + d);
      assert ("-" + d)[1..] == d;
      AtoiIs("-" + d, true, d, m);
    } else {
      Unsigned(d, []);
      assert d + [] == d;
      AtoiIs(d, false, d, m);
    }
  }

  // ---------------------------------------------------------------- shape of printed text

  /** Visible ASCII characters only: no blanks, no line breaks, no NUL. */
  predicate Plain(t: string) {
    t != [] && forall i | 0 <= i < |t| :: '!' <= t[i] <= '~'
  }

  lemma PlainText(t: string)
    requires Plain(t)
    ensures Trimmed(t) && Free(t, ENDS) && Strip(t) == t
  {
    StripTrimmed(t);
  }

  lemma PlainDigits(d: string)
    requires d != [] && AllDigits(d, 16)
    ensures Plain(d)
  {
    forall i | 0 <= i < |d|
      ensures '!' <= d[i] <= '~'
    {
      assert DigitVal(d[i]) < 16;
    }
  }

  lemma ShownPlain(n: int, b: nat)
    requires 2 <= b <= 16 && n >= 0
    ensures Plain(Digits(n, b))
  {
    PlainDigits(Digits(n, b));
  }

  lemma {:induction false} DottedShape(q: seq<u32>)
    requires q != [] && forall i | 0 <= i < |q| :: q[i] < 256
    ensures Plain(ShowDotted(q)) && |ShowDotted(q)| < 4 * |q|
  {
    hide Digits;
    ShownPlain(q[0], 10);
    SmallDigits(q[0]);
    if |q| > 1 {
      DottedShape(q[1..]);
    }
  }

  /** A dotted quad fits char[16]. */
  lemma IpShape(ip: u32)
    ensures Plain(FormatIp(ip)) && |FormatIp(ip)| <= 15
  {
    DottedShape(Octets(ip));
  }

  lemma HexShape(n: u16)
    ensures Plain(ShowHex(n)) && |ShowHex(n)| == 6
  {
    hide Digits;
    ShownPlain(n, 16);
    SmallDigits(n);
  }

  lemma IntShape(n: i32)
    ensures Plain(ShowInt(n)) && |ShowInt(n)| <= 11
  {
    hide Digits;
    ShownPlain(if n < 0 then -(n as int) else n, 10);
    SmallDigits(if n < 0 then -(n as int) else n);
  }

  /** What parse_ip accepts: four numbers of at most 255, which become the octets of the
      result; anything else gives 0. */
  lemma ParsedOctets(s: string)
    ensures match ScanDotted(s, 4)
      case None => ParseIp(s) == 0
      case Some(q) =>
        if forall i | 0 <= i < 4 :: q[i] <= 255 then Octets(ParseIp(s)) == q else ParseIp(s) == 0
  {
    hide ScanDotted, Octets;
    match ScanDotted(s, 4)
    case None =>
    case Some(q) =>
      if q[0] <= 255 && q[1] <= 255 && q[2] <= 255 && q[3] <= 255 {
        OctetsOf(q[0], q[1], q[2], q[3]);
        assert q == [q[0], q[1], q[2], q[3]];
      }
  }

  lemma OctetsOf(a: u8, b: u8, c: u8, d: u8)
    ensures Octets(a * 0x100_0000 + b * 0x1_0000 + c * 0x100 + d) == [a, b, c, d]
  {
    var ip: u32 := a * 0x100_0000 + b * 0x1_0000 + c * 0x100 + d;
    LowByte(0, a);
    LowByte(a, b);
    LowByte(a * 0x100 + b, c);
    LowByte(a * 0x1_0000 + b * 0x100 + c, d);
    QuotientIs(ip, 0x100_0000, a, b * 0x1_0000 + c * 0x100 + d);
    QuotientIs(ip, 0x1_0000, a * 0x100 + b, c * 0x100 + d);
    QuotientIs(ip, 0x100, a * 0x1_0000 + b * 0x100 + c, d);
  }

  lemma LowByte(high: nat, low: u8)
    ensures (high * 0x100 + low) % 0x100 == low
  {
  }

  lemma QuotientIs(n: nat, m: nat, q: nat, r: nat)
    requires m in {0x100, 0x1_0000, 0x100_0000} && n == q * m + r && r < m
    ensures n / m == q
  {
  }

  // ---------------------------------------------------------------- the built-in addresses

  /** The three addresses of app_config_default. */
  lemma BuiltInAddresses()
    ensures ParseIp("192.168.0.100") == 0xC0A8_0064
    ensures ParseIp("255.255.255.0") == 0xFFFF_FF00
    ensures ParseIp("192.168.0.1") == 0xC0A8_0001
  {
    hide ParseIp, ShowUInt, FormatIp;
    ShowSmall();
    var a, b, c, d := ShowUInt(192), ShowUInt(168), ShowUInt(255), ShowUInt(100);
    var zero, one := ShowUInt(0), ShowUInt(1);
    FormatIs(0xC0A8_0064, 192, 168, 0, 100);
    assert a + ("." + (b + ("." + (zero + ("." + d))))) == "192.168.0.100";
    FormatIs(0xFFFF_FF00, 255, 255, 255, 0);
    assert c + ("." + (c + ("." + (c + ("." + zero))))) == "255.255.255.0";
    FormatIs(0xC0A8_0001, 192, 168, 0, 1);
    assert a + ("." + (b + ("." + (zero + ("." + one))))) == "192.168.0.1";
  }

  lemma FormatIs(ip: u32, a: u32, b: u32, c: u32, d: u32)
    requires Octets(ip) == [a, b, c, d]
    ensures ParseIp(ShowUInt(a) + ("." + (ShowUInt(b) + ("." + (ShowUInt(c) + ("." + ShowUInt(d))))))) == ip
  {
    hide ShowUInt, ParseIp, Octets;
    IpRoundTrip(ip);
    var q := [a, b, c, d];
    assert q[1..] == [b, c, d] && q[1..][1..] == [c, d] && q[1..][1..][1..] == [d];
    ShowDottedCons(q);
    ShowDottedCons(q[1..]);
    ShowDottedCons(q[1..][1..]);
  }

  lemma ShowDottedCons(q: seq<u32>)
    requires |q| > 1
    ensures ShowDotted(q) == ShowUInt(q[0]) + ("." + ShowDotted(q[1..]))
  {
  }

  lemma ShowSmall()
    ensures ShowUInt(192) == "192" && ShowUInt(168) == "168" && ShowUInt(255) == "255"
    ensures ShowUInt(100) == "100" && ShowUInt(0) == "0" && ShowUInt(1) == "1"
  {
  }

  // ---------------------------------------------------------------- what the readers accept

  /** The low part is what division by `m` leaves. */
  lemma LowRemainder(v: int, m: int)
    requires 0 <= v && 0 < m
    ensures v == v / m * m + Low(v, m)
    ensures v < m ==> Low(v, m) == v
  {
    assert v == m * (v / m) + v % m;
    if v < m { SmallQuotient(v, m); }
  }

  lemma SmallQuotient(v: int, m: int)
    requires 0 <= v < m
    ensures v / m == 0
  {
  }

  /** Text of digits that ends where `y` begins. */
  predicate DigitsThen(d: string, y: string, b: nat) {
    d != "" && AllDigits(d, b) && (y == "" || DigitVal(y[0]) >= b)
  }

  /** White space and one sign are skipped. */
  lemma SignedText(w: string, sign: string, t: string)
    requires Blank(w, 0, |w|) && sign in {"", "+", "-"} && t != "" && DigitVal(t[0]) < 16
    ensures Sign(LStrip(w + (sign + t))) == (sign == "-", t)
  {
    var u := sign + t;
    assert !IsSpace(u[0]);
    StripBlanks(w, u);
    if sign == "" {
      assert u == t;
    } else {
      assert u[0] == sign[0] && u[1..] == t;
    }
  }

  lemma StripBlanks(w: string, u: string)
    requires Blank(w, 0, |w|) && u != "" && !IsSpace(u[0])
    ensures LStrip(w + u) == u
  {
    var s, n := w + u, SkipBlank(w + u, 0);
    assert s[|w|] == u[0];
    assert forall k | 0 <= k < |w| :: s[k] == w[k];
    assert s[|w|..] == u;
  }

  /** atoi on any decimal text, signed or not, whatever follows it: the number, or its low
      32 bits as an int. */
  lemma AtoiReads(w: string, sign: string, d: string, y: string)
    requires Blank(w, 0, |w|) && sign in {"", "+", "-"} && DigitsThen(d, y, 10)
    ensures var m: int := Value(d, 10); var v := if sign == "-" then -m else m;
      && (-0x8000_0000 <= v < 0x8000_0000 ==> Atoi(w + (sign + (d + y))) == v)
      && (m <= LONG_MAX ==> (Atoi(w + (sign + (d + y))) - v) % 0x1_0000_0000 == 0)
  {
    hide Sign, LStrip, Value, DigitRun;
    SignedText(w, sign, d + y);
    DigitRunIs(d, y, 10);
  }

  /** strtoul with base 0 on hexadecimal, octal and decimal text; too large is the largest. */
  lemma StrToULReads(w: string, d: string, y: string)
    requires Blank(w, 0, |w|)
    ensures DigitsThen(d, y, 16) ==>
      StrToUL(w + ("0x" + (d + y)), 0) == StrToUL(w + ("0X" + (d + y)), 0) == Capped(Value(d, 16))
    ensures DigitsThen(d, y, 8) ==> StrToUL(w + ("0" + (d + y)), 0) == Capped(Value(d, 8))
    ensures DigitsThen(d, y, 10) && d[0] != '0' ==> StrToUL(w + (d + y), 0) == Capped(Value(d, 10))
  {
    hide Value;
    if DigitsThen(d, y, 16) {
      HexReads(w, "0x", d, y);
      HexReads(w, "0X", d, y);
    }
    if DigitsThen(d, y, 8) { OctalReads(w, d, y); }
    if DigitsThen(d, y, 10) && d[0] != '0' {
      PlainReads(w, d + y, 10, d + y, d, y);
    }
  }

  function Capped(m: nat): int {
    if m > ULONG_MAX then ULONG_MAX else m
  }

  lemma PlainReads(w: string, u: string, b: nat, t: string, d: string, y: string)
    requires Blank(w, 0, |w|) && u != "" && DigitVal(u[0]) < 16
    requires Radix(u, 0) == (b, t) && t == d + y && AllDigits(d, b) && (y == "" || DigitVal(y[0]) >= b)
    ensures StrToUL(w + u, 0) == Capped(Value(d, b))
  {
    hide Sign, LStrip, Value, DigitRun, Radix;
    SignedText(w, "", u);
    assert "" + u == u;
    DigitRunIs(d, y, b);
  }

  lemma HexReads(w: string, prefix: string, d: string, y: string)
    requires Blank(w, 0, |w|) && prefix in {"0x", "0X"} && DigitsThen(d, y, 16)
    ensures StrToUL(w + (prefix + (d + y)), 0) == Capped(Value(d, 16))
  {
    hide Value, StrToUL;
    var u := prefix + (d + y);
    assert u[2] == d[0] && u[2..] == d + y;
    PlainReads(w, u, 16, d + y, d, y);
  }

  lemma OctalReads(w: string, d: string, y: string)
    requires Blank(w, 0, |w|) && DigitsThen(d, y, 8)
    ensures StrToUL(w + ("0" + (d + y)), 0) == Capped(Value(d, 8))
  {
    hide Value, StrToUL;
    var u, e := "0" + (d + y), "0" + d;
    assert u == e + y && u[1] == d[0];
    PlainReads(w, u, 8, u, e, y);
    LeadingZeros("0", d, 8);
  }

  /** %04X: four upper-case digits, the highest first. */
  lemma HexText(n: u16)
    ensures ShowHex(n)
      == "0x" + [HexDigit(n / 0x1000), HexDigit(n / 0x100 % 16), HexDigit(n / 0x10 % 16), HexDigit(n % 16)]
  {
    hide DigitChar, HexDigit, Digits;
    UpperHex(n % 16);
    UpperHex(n / 0x10 % 16);
    UpperHex(n / 0x100 % 16);
    UpperHex(n / 0x1000);
    ZeroDigit();
    DigitsDown(n);
  }

  function HexDigit(d: nat): char
    requires d < 16
  {
    "0123456789ABCDEF"[d]
  }

  lemma UpperHex(d: nat)
    requires d < 16
    ensures DigitChar(d) == HexDigit(d)
  {
  }

  lemma ZeroDigit()
    ensures HexDigit(0) == '0'
  {
  }

  lemma DigitsDown(n: u16)
    ensures n < 0x10 ==> Digits(n, 16) == [DigitChar(n % 16)] && n / 0x10 == 0
    ensures 0x10 <= n < 0x100 ==> Digits(n, 16) == [DigitChar(n / 0x10 % 16), DigitChar(n % 16)]
    ensures 0x100 <= n < 0x1000 ==>
      Digits(n, 16) == [DigitChar(n / 0x100 % 16), DigitChar(n / 0x10 % 16), DigitChar(n % 16)]
    ensures n < 0x100 ==> n / 0x100 == 0
    ensures n < 0x1000 ==> n / 0x1000 == 0
    ensures n >= 0x1000 ==>
      Digits(n, 16) == [DigitChar(n / 0x1000), DigitChar(n / 0x100 % 16), DigitChar(n / 0x10 % 16), DigitChar(n % 16)]
  {
    hide DigitChar;
    var a := n / 0x10;
    var b := a / 0x10;
    var c := b / 0x10;
    assert b == n / 0x100 && c == n / 0x1000;
  }
}
