/** Saving and loading: the exact round trip, the normal form, and what happens to
    arbitrary files. */
module ConfigRoundTrip {
  import opened CStrings
  import opened Numerals
  import opened ConfigModel
  import opened ConfigMeaning

  // ---------------------------------------------------------------- key names

  predicate NameChar(c: char) {
    'a' <= c <= 'z' || c == '_'
  }

  predicate Name(n: string) {
    7 <= |n| <= 16 && forall i | 0 <= i < |n| :: NameChar(n[i])
  }

  lemma TextNames(k: Key)
    requires KindOf(k).Chars?
    ensures Name(KeyName(k))
  {
  }

  lemma NumberNames(k: Key)
    requires !KindOf(k).Chars? && !KindOf(k).Switch?
    ensures Name(KeyName(k))
  {
  }

  lemma SwitchNames(k: Key)
    requires KindOf(k).Switch?
    ensures Name(KeyName(k))
  {
  }

  lemma KeyNames(k: Key)
    ensures Name(KeyName(k))
  {
    hide KeyName, Name;
    if KindOf(k).Chars? {
      TextNames(k);
    } else if KindOf(k).Switch? {
      SwitchNames(k);
    } else {
      NumberNames(k);
    }
  }

  /** Length and first letter tell the names apart. */
  function Signature(k: Key): (nat, char) {
    match k
    case ProductName => (12, 'p')
    case StationName => (12, 's')
    case Interface => (9, 'i')
    case IpAddr => (7, 'i')
    case Netmask => (7, 'n')
    case Gateway => (7, 'g')
    case VendorId => (9, 'v')
    case DeviceId => (9, 'd')
    case TickUs => (7, 't')
    case SendHello => (10, 's')
    case FileDirectory => (14, 'f')
    case LogLevel => (9, 'l')
    case LogFile => (8, 'l')
    case SecurityEnabled => (16, 's')
    case RealtimeEnabled => (16, 'r')
    case RtPriority => (11, 'r')
    case RtScheduling => (13, 'r')
    case LockMemory => (11, 'l')
    case IsolateCpu => (11, 'i')
  }

  lemma NameSignature(k: Key)
    ensures |KeyName(k)| > 0 && (|KeyName(k)|, KeyName(k)[0]) == Signature(k)
  {
  }

  lemma NamesDiffer(j: Key, k: Key)
    ensures KeyName(j) == KeyName(k) ==> j == k
  {
    hide KeyName;
    NameSignature(j);
    NameSignature(k);
  }

  /** The strcmp chain finds each key by its own name. */
  lemma KeyOfName(k: Key)
    ensures KeyOf(KeyName(k)) == Some(k)
  {
    hide KeyName, KeyOf;
    KeyOfFinds(k);
    KeyOfSound(KeyName(k));
    NamesDiffer(KeyOf(KeyName(k)).value, k);
  }

  lemma KeyOfSound(name: string)
    ensures KeyOf(name).Some? ==> KeyName(KeyOf(name).value) == name
  {
    hide KeyName;
  }

  lemma KeyOfFinds(k: Key)
    ensures KeyOf(KeyName(k)).Some?
  {
    hide KeyName;
  }

  // ---------------------------------------------------------------- saved lines

  lemma BodyOfFree(l: string)
    requires Free(l, ENDS)
    ensures Body(l) == l
  {
    UntilIs(l, ENDS, |l|);
  }

  /** A remark assigns nothing. */
  lemma RemarkLine(l: string)
    requires l == "" || l[0] == '#'
    ensures Assignment(Body(l)) == None
  {
    var b := Body(l);
    if l == "" {
      NothingAssigned();
    } else {
      assert b != [] && b[0] == '#' by { UntilKeepsFirst(l); }
      var i, j := StripSpan(b);
      assert !IsSpace(b[0]);
    }
  }

  lemma UntilKeepsFirst(l: string)
    requires l != "" && l[0] !in ENDS
    ensures Body(l) != "" && Body(l)[0] == l[0]
  {
  }

  lemma StripNamed(n: string, v: string)
    requires n != [] && !IsSpace(n[0]) && !IsSpace(n[|n| - 1])
    ensures Strip(n + v) == n + RStripped(v)
  {
    var s := n + v;
    var j := DropBlank(v, |v|);
    var e := |n| + j;
    assert Middle(s, 0, e) by {
      assert forall k | e <= k < |s| :: s[k] == v[k - |n|];
      assert j > 0 ==> s[e - 1] == v[j - 1];
      assert j == 0 ==> s[e - 1] == n[|n| - 1];
    }
    StripIs(s, 0, e);
    assert s[0..e] == n + v[..j];
  }

  function RStripped(v: string): string {
    v[..DropBlank(v, |v|)]
  }

  lemma StripRStripped(v: string)
    ensures Strip(RStripped(v)) == Strip(v)
  {
    var i, j := StripSpan(v);
    var e := DropBlank(v, |v|);
    if i < j {
      StripIs(RStripped(v), i, j);
      assert RStripped(v)[i..j] == v[i..j];
    } else {
      StripTrimmed(v);
      StripTrimmed(RStripped(v));
    }
  }

  /** `key=value` assigns the stripped value, unless nothing is left of it. */
  lemma EntryLine(k: Key, v: string)
    requires Free(v, ENDS)
    ensures Assigned(Body(KeyName(k) + "=" + v)) == if Strip(v) == [] then None else Some((k, Strip(v)))
  {
    var n := KeyName(k);
    KeyNames(k);
    KeyOfName(k);
    hide KeyName, KeyOf, IsSpace, Strip;
    var body := n + "=" + v;
    BodyOfFree(body);
    var w := RStripped(v);
    StripEntry(n, v);
    var t := n + "=" + w;
    assert t[|n|] == '=';
    UntilIs(t, {'='}, |n|);
    assert t[..|n|] == n && t[|n| + 1..] == w;
    StripName(n);
    StripRStripped(v);
  }

  lemma StripName(n: string)
    requires n != [] && forall i | 0 <= i < |n| :: NameChar(n[i])
    ensures Strip(n) == n
  {
    StripTrimmed(n);
  }

  lemma StripEntry(n: string, v: string)
    requires n != [] && forall i | 0 <= i < |n| :: NameChar(n[i])
    ensures Strip(n + "=" + v) == n + "=" + RStripped(v)
  {
    StripNamed(n + "=", v);
  }

  // ---------------------------------------------------------------- printed values

  /** The strings of a record contain no line break. */
  ghost predicate LineSafe(s: Settings) {
    forall k: Key | KindOf(k).Chars? :: Free(StrOf(s, k), BREAKS)
  }

  /** What is printed for a number or a switch is read back as the same value. */
  lemma ShownValue(s: Settings, k: Key)
    requires !KindOf(k).Chars?
    ensures Plain(Show(s, k)) && |Show(s, k)| <= 15
    ensures Meaning(k, Show(s, k)) == Get(s, k)
  {
    hide FormatIp, ParseIp, ShowHex, StrToUL, ShowUInt, ShowInt, Atoi;
    var v := Get(s, k);
    match KindOf(k)
    case Address => IpShape(v.n); IpRoundTrip(v.n);
    case Ident => HexShape(v.n); HexRoundTrip(v.n);
    case Word => WordShape(v.n); UIntRoundTrip(v.n);
    case Integer => IntShape(v.n); IntRoundTrip(v.n);
    case Switch =>
  }

  lemma WordShape(n: u32)
    ensures Plain(ShowUInt(n)) && |ShowUInt(n)| <= 10
  {
    ShownPlain(n, 10);
    SmallDigits(n);
  }

  lemma ShownText(s: Settings, k: Key)
    requires WellFormed(s) && KindOf(k).Chars?
    ensures Show(s, k) == StrOf(s, k) && |StrOf(s, k)| < KindOf(k).cap <= 256
    ensures Free(StrOf(s, k), {NUL})
  {
    TerminatedText(Get(s, k).bytes);
  }

  lemma ShownFits(s: Settings, k: Key)
    requires WellFormed(s)
    ensures |Show(s, k)| <= 255
    ensures LineSafe(s) ==> Free(Show(s, k), ENDS)
  {
    hide Show, StrOf;
    if KindOf(k).Chars? {
      ShownText(s, k);
    } else {
      ShownValue(s, k);
      PlainText(Show(s, k));
    }
  }

  // ---------------------------------------------------------------- the saved file

  function Slot(k: Key): (i: nat)
    ensures i < |LAYOUT| && LAYOUT[i] == Entry(k)
  {
    match k
    case ProductName => 4
    case StationName => 5
    case Interface => 6
    case IpAddr => 7
    case Netmask => 8
    case Gateway => 9
    case VendorId => 10
    case DeviceId => 11
    case TickUs => 12
    case SendHello => 13
    case FileDirectory => 14
    case LogLevel => 17
    case LogFile => 18
    case SecurityEnabled => 21
    case RealtimeEnabled => 24
    case RtPriority => 25
    case RtScheduling => 26
    case LockMemory => 27
    case IsolateCpu => 28
  }

  lemma HeadingShape(h: Heading)
    ensures |HeadingText(h)| < 60 && Free(HeadingText(h), {'\n'})
    ensures HeadingText(h) != "" && HeadingText(h)[0] == '#'
  {
    match h
    case Banner => BannerShape();
    case Caution => CautionShape();
    case Device | Logging | Security | RealTime =>
  }

  lemma BannerShape()
    ensures |HeadingText(Banner)| < 60 && Free(HeadingText(Banner), {'\n'})
  {
  }

  lemma CautionShape()
    ensures |HeadingText(Caution)| < 60 && Free(HeadingText(Caution), {'\n'})
  {
  }

  lemma LayoutEntries(i: nat)
    requires i < |LAYOUT| && LAYOUT[i].Entry?
    ensures i == Slot(LAYOUT[i].key)
  {
  }

  lemma LineAt(s: Settings, i: nat)
    requires i < |LAYOUT|
    ensures SavedLines(s)[i] == Line(s, LAYOUT[i])
  {
    hide LAYOUT, Line;
  }

  /** What line `i` of a saved file assigns. */
  lemma SavedLine(s: Settings, i: nat)
    requires WellFormed(s) && LineSafe(s) && i < |LAYOUT|
    ensures var l := SavedLines(s)[i];
      && |l| < LINE_SIZE && Free(l, {'\n'})
      && Assigned(Body(l)) == match LAYOUT[i]
         case Gap | Comment(_) => None
         case Entry(k) => if Strip(Show(s, k)) == [] then None else Some((k, Strip(Show(s, k))))
  {
    hide SavedLines, LAYOUT, Show, KeyName, HeadingText, Body, LineSafe, Assignment, KeyOf, Strip;
    LineAt(s, i);
    match LAYOUT[i]
    case Gap =>
      RemarkLine("");
    case Comment(h) =>
      HeadingShape(h);
      RemarkLine(HeadingText(h));
    case Entry(k) =>
      ShownFits(s, k);
      KeyNames(k);
      EntryLine(k, Show(s, k));
  }

  lemma SavedFits(s: Settings)
    requires WellFormed(s) && LineSafe(s)
    ensures FitLines(SavedLines(s) + [""]) && Save(s) == Join(SavedLines(s) + [""], '\n')
  {
    hide SavedLines, LAYOUT, LineSafe;
    UnlinesJoin(SavedLines(s));
    forall l | l in SavedLines(s)
      ensures |l| < LINE_SIZE && Free(l, {'\n'})
    {
      var i :| 0 <= i < |SavedLines(s)| && SavedLines(s)[i] == l;
      SavedLine(s, i);
    }
  }

  /** The value of a key after saving and loading. */
  ghost function Normal(s: Settings, k: Key, path: string): Value
    requires WellFormed(s)
  {
    if !KindOf(k).Chars? then Get(s, k)
    else
      var t := Strip(StrOf(s, k));
      if t == [] then Get(Start(path), k) else Text(Field(t, KindOf(k).cap))
  }

  lemma SavedAssigns(s: Settings, k: Key, i: nat)
    requires WellFormed(s) && LineSafe(s) && i < |LAYOUT|
    ensures var l := SavedLines(s)[i]; var t := Strip(Show(s, k));
      && (Assigns(Body(l), k) <==> i == Slot(k) && t != [])
      && (Assigns(Body(l), k) ==> Assigned(Body(l)) == Some((k, t)))
  {
    hide SavedLines, LineSafe, Body, Assigned, Show, Slot, Strip, LAYOUT;
    SavedLine(s, i);
    if LAYOUT[i].Entry? { LayoutEntries(i); }
  }

  lemma SlotInside(s: Settings, k: Key)
    ensures Slot(k) < |SavedLines(s) + [""]|
  {
    hide LAYOUT, Slot;
  }

  /** The same for every line of the file, of which the last is empty. */
  lemma FileAssigns(s: Settings, k: Key, i: nat)
    requires WellFormed(s) && LineSafe(s) && i < |SavedLines(s) + [""]|
    ensures var l := (SavedLines(s) + [""])[i]; var t := Strip(Show(s, k));
      && (Assigns(Body(l), k) <==> i == Slot(k) && t != [])
      && (Assigns(Body(l), k) ==> Assigned(Body(l)) == Some((k, t)))
  {
    hide LAYOUT, LineSafe, Body, Assigned, Assigns, Assignment, Show, Slot, Strip, WellFormed;
    if i < |LAYOUT| {
      SavedAssigns(s, k, i);
    } else {
      RemarkLine("");
      NotAssigned("", k);
    }
  }

  lemma NotAssigned(l: string, k: Key)
    requires Assignment(Body(l)) == None
    ensures !Assigns(Body(l), k)
  {
    hide Assignment, Body;
  }

  /** Normal form: numbers and switches come back unchanged, a string comes back stripped,
      and one that strips to nothing comes back as the default. */
  lemma LoadSaved(s: Settings, path: string, k: Key)
    requires WellFormed(s) && LineSafe(s)
    ensures Get(Load(Save(s), path), k) == Normal(s, k, path)
  {
    hide *;
    var lines := SavedLines(s) + [""];
    SavedFits(s);
    var t := Strip(Show(s, k));
    forall i | 0 <= i < |lines|
      ensures Assigns(Body(lines[i]), k) <==> i == Slot(k) && t != []
      ensures Assigns(Body(lines[i]), k) ==> Assigned(Body(lines[i])) == Some((k, t))
    {
      FileAssigns(s, k, i);
    }
    SlotInside(s, k);
    if t == [] {
      FileDefaultSurvives(lines, path, k);
    } else {
      FileLastWriteWins(lines, path, k, Slot(k));
    }
    NormalMeaning(s, k, path);
  }

  lemma NormalMeaning(s: Settings, k: Key, path: string)
    requires WellFormed(s)
    ensures var t := Strip(Show(s, k));
      Normal(s, k, path) == if t == [] then Get(Start(path), k) else Meaning(k, t)
  {
    hide Strip, Start;
    if KindOf(k).Chars? {
      ShownText(s, k);
    } else {
      ShownValue(s, k);
      PlainText(Show(s, k));
    }
  }
}
