/** The main results about configuration files. */
module ConfigTheorems {
  import opened CStrings
  import opened Numerals
  import opened ConfigModel
  import opened ConfigMeaning
  import opened ConfigRoundTrip

  // ---------------------------------------------------------------- what load can produce

  /** The bytes under a character key are a non-empty string without line breaks that does
      not start with white space, nor end with it unless it fills the buffer, followed by
      nothing but NULs. */
  predicate Tidy(b: seq<char>) {
    && CStr(b) != [] && !IsSpace(CStr(b)[0]) && Free(CStr(b), BREAKS)
    && (Trimmed(CStr(b)) || |CStr(b)| == |b| - 1)
    && |CStr(b)| < |b| && b == Padded(CStr(b), |b|)
  }

  ghost predicate Canonical(s: Settings) {
    && WellFormed(s) && Mirrored(s)
    && forall k: Key | KindOf(k).Chars? :: Tidy(Get(s, k).bytes)
  }

  lemma TidyField(v: string, cap: nat)
    requires cap > 1 && v != [] && Trimmed(v) && Free(v, ENDS)
    ensures Tidy(Field(v, cap)) && CStr(Field(v, cap)) == Truncate(v, cap - 1)
  {
    PaddedText(Truncate(v, cap - 1), cap);
  }

  lemma AssignmentShape(body: string)
    requires Free(body, ENDS) && Assignment(body).Some?
    ensures var v := Assignment(body).value.1; v != [] && Trimmed(v) && Free(v, ENDS)
  {
    var t := Strip(body);
    StripKeepsFree(body, ENDS);
    var n := |Until(t, {'='})|;
    StripKeepsFree(t[n + 1..], ENDS);
    StripTrimmed(t[n + 1..]);
  }

  lemma StepCanonical(s: Settings, body: string)
    requires Canonical(s) && Free(body, ENDS)
    ensures Canonical(Step(s, body))
  {
    hide Assignment, KeyOf, Get, Step, WellFormed, Mirrored, Tidy, Field, IsSpace;
    StepGet(s, body, Interface);
    forall k: Key | KindOf(k).Chars?
      ensures Tidy(Get(Step(s, body), k).bytes)
    {
      StepGet(s, body, k);
      if Assigns(body, k) {
        AssignmentShape(body);
        TidyField(Assigned(body).value.1, KindOf(k).cap);
      }
    }
  }

  lemma {:induction false} RunCanonical(s: Settings, bodies: seq<string>)
    requires Canonical(s) && forall i | 0 <= i < |bodies| :: Free(bodies[i], ENDS)
    ensures Canonical(Run(s, bodies))
  {
    hide Step, Canonical, WellFormed;
    assert WellFormed(s) by { CanonicalWellFormed(s); }
    if bodies != [] {
      var n := |bodies| - 1;
      RunCanonical(s, bodies[..n]);
      StepCanonical(Run(s, bodies[..n]), bodies[n]);
    }
  }

  lemma CanonicalWellFormed(s: Settings)
    requires Canonical(s)
    ensures WellFormed(s) && Mirrored(s)
  {
  }

  lemma {:induction false} BodiesFree(text: string)
    ensures forall i | 0 <= i < |Bodies(text)| :: Free(Bodies(text)[i], ENDS)
    decreases |text|
  {
    if text != [] {
      BodiesFree(text[ChunkLen(text, LINE_SIZE)..]);
    }
  }

  lemma DefaultTextShape(k: Key)
    requires KindOf(k).Chars?
    ensures var t := DefaultText(k);
      t != [] && |t| < KindOf(k).cap && Trimmed(t) && Free(t, ENDS)
  {
  }

  lemma StartText(path: string, k: Key)
    requires KindOf(k).Chars?
    ensures Get(Start(path), k) == Text(Field(DefaultText(k), KindOf(k).cap))
  {
    hide ParseIp, DefaultText, Field;
  }

  lemma StartString(path: string, k: Key)
    requires KindOf(k).Chars?
    ensures Tidy(Get(Start(path), k).bytes) && StrOf(Start(path), k) == DefaultText(k)
    ensures Strip(DefaultText(k)) == DefaultText(k) != []
  {
    hide DefaultText, Start, Get, Field, Tidy;
    StartText(path, k);
    DefaultTextShape(k);
    TidyField(DefaultText(k), KindOf(k).cap);
    StripTrimmed(DefaultText(k));
  }

  lemma StartCanonical(path: string)
    ensures Canonical(Start(path))
  {
    hide Start, Get, Tidy;
    forall k: Key | KindOf(k).Chars?
      ensures Tidy(Get(Start(path), k).bytes)
    {
      StartString(path, k);
    }
  }

  /** Whatever the file holds, load yields a canonical record: NUL-terminated and
      NUL-padded non-empty strings without line breaks, white space at their ends only where
      the buffer is full, and a network record that agrees with the device. */
  lemma LoadCanonical(text: string, path: string)
    ensures Canonical(Load(text, path)) && Load(text, path).configFile == Field(path, 256)
  {
    hide Canonical, Bodies;
    StartCanonical(path);
    BodiesFree(text);
    RunCanonical(Start(path), Bodies(text));
  }

  // ---------------------------------------------------------------- exact round trip

  /** Same strings, same numbers, same switches. */
  ghost predicate SameSaved(s: Settings, t: Settings) {
    forall k :: if KindOf(k).Chars? then StrOf(s, k) == StrOf(t, k) else Get(s, k) == Get(t, k)
  }

  /** Every saved string is non-empty, without line breaks, and trimmed. */
  ghost predicate Clean(s: Settings) {
    forall k: Key | KindOf(k).Chars? ::
      StrOf(s, k) != [] && Trimmed(StrOf(s, k)) && Free(StrOf(s, k), BREAKS)
  }

  /** The string that comes back, for a record without line breaks. */
  lemma LoadedString(s: Settings, path: string, k: Key)
    requires WellFormed(s) && LineSafe(s) && KindOf(k).Chars?
    ensures var t := Strip(StrOf(s, k));
      StrOf(Load(Save(s), path), k) == if t == [] then StrOf(Start(path), k) else t
  {
    hide Load, Save, Strip, Start, WellFormed;
    LoadSaved(s, path, k);
    var t := Strip(StrOf(s, k));
    ShownText(s, k);
    var i, j := StripSpan(StrOf(s, k));
    if t != [] {
      PaddedText(t, KindOf(k).cap);
    }
  }

  /** The exact round trip: saving and loading returns every saved field unchanged if and
      only if every saved string is clean. */
  lemma RoundTripExactly(s: Settings, path: string)
    requires WellFormed(s)
    ensures SameSaved(Load(Save(s), path), s) <==> Clean(s)
  {
    hide Load, Save, Strip, WellFormed, Start, Get, StrOf, Trimmed, Tidy;
    var l := Load(Save(s), path);
    LoadCanonical(Save(s), path);
    if LineSafe(s) {
      forall k
        ensures KindOf(k).Chars? ==> (StrOf(l, k) == StrOf(s, k) <==> StrOf(s, k) != [] && Trimmed(StrOf(s, k)))
        ensures !KindOf(k).Chars? ==> Get(l, k) == Get(s, k)
      {
        if KindOf(k).Chars? {
          LoadedString(s, path, k);
          StripTrimmed(StrOf(s, k));
          LoadedNonEmpty(l, k);
          StartString(path, k);
        } else {
          LoadSaved(s, path, k);
        }
      }
    } else {
      var k :| KindOf(k).Chars? && !Free(StrOf(s, k), BREAKS);
      LoadedNonEmpty(l, k);
    }
  }

  lemma LoadedNonEmpty(s: Settings, k: Key)
    requires Canonical(s) && KindOf(k).Chars?
    ensures StrOf(s, k) != [] && Free(StrOf(s, k), BREAKS)
  {
    assert Tidy(Get(s, k).bytes);
  }

  // ---------------------------------------------------------------- saving and loading again

  /** The records that come back byte for byte are the canonical, clean ones of that path. */
  lemma FixedExactly(s: Settings, path: string)
    ensures Load(Save(s), path) == s <==> Canonical(s) && Clean(s) && s.configFile == Field(path, 256)
  {
    hide Load, Save, Get, WellFormed, Mirrored, Trimmed, Field, Clean, Canonical;
    var l := Load(Save(s), path);
    LoadCanonical(Save(s), path);
    if Canonical(s) && Clean(s) && s.configFile == Field(path, 256) {
      CleanIsFixed(s, path);
    }
    if l == s {
      RoundTripExactly(s, path);
      SameAsItself(s);
    }
  }

  lemma SameAsItself(s: Settings)
    ensures SameSaved(s, s)
  {
    hide Get, StrOf;
  }

  lemma CleanIsFixed(s: Settings, path: string)
    requires Canonical(s) && Clean(s) && s.configFile == Field(path, 256)
    ensures Load(Save(s), path) == s
  {
    hide Load, Save, Get, WellFormed, Mirrored, Trimmed, Field;
    var l := Load(Save(s), path);
    RoundTripExactly(s, path);
    LoadCanonical(Save(s), path);
    forall k
      ensures Get(l, k) == Get(s, k)
    {
      if KindOf(k).Chars? {
        CapOf(s, k);
        CapOf(l, k);
        assert Tidy(Get(s, k).bytes) && Tidy(Get(l, k).bytes);
        assert StrOf(l, k) == StrOf(s, k);
      }
    }
    SameSettings(l, s);
  }

  lemma CapOf(s: Settings, k: Key)
    requires WellFormed(s) && KindOf(k).Chars?
    ensures |Get(s, k).bytes| == KindOf(k).cap
  {
  }

  /** One trip cleans every record without line breaks. */
  lemma TripIsClean(s: Settings, path: string)
    requires WellFormed(s) && LineSafe(s)
    ensures Clean(Load(Save(s), path))
  {
    hide Load, Save, WellFormed, Get, Strip, StrOf, Canonical, DefaultText;
    var l := Load(Save(s), path);
    LoadCanonical(Save(s), path);
    forall k: Key | KindOf(k).Chars?
      ensures StrOf(l, k) != [] && Trimmed(StrOf(l, k)) && Free(StrOf(l, k), BREAKS)
    {
      LoadedString(s, path, k);
      LoadedNonEmpty(l, k);
      StripTrimmed(StrOf(s, k));
      StartString(path, k);
      DefaultTextShape(k);
    }
  }

  /** Saving and loading a second time changes nothing. */
  lemma SecondTripChangesNothing(s: Settings, path: string)
    requires WellFormed(s) && LineSafe(s)
    ensures var once := Load(Save(s), path); Load(Save(once), path) == once
  {
    hide Load, Save, WellFormed, Canonical, Clean;
    TripIsClean(s, path);
    LoadCanonical(Save(s), path);
    CleanIsFixed(Load(Save(s), path), path);
  }

  /** After the trip a record is valid if and only if its numbers were: the interface name
      can only gain. In particular a valid record stays valid. */
  lemma ValidAfterTrip(s: Settings, path: string)
    requires WellFormed(s) && LineSafe(s)
    ensures Valid(Load(Save(s), path)) <==> ValidNumbers(s)
  {
    hide Load, Save, WellFormed, Canonical, Get, StrOf;
    var l := Load(Save(s), path);
    LoadCanonical(Save(s), path);
    LoadedNonEmpty(l, Interface);
    forall k | !KindOf(k).Chars?
      ensures Get(l, k) == Get(s, k)
    {
      LoadSaved(s, path, k);
    }
    SameNumbers(l, s);
  }

  lemma SameNumbers(s: Settings, t: Settings)
    requires forall k | !KindOf(k).Chars? :: Get(s, k) == Get(t, k)
    ensures ValidNumbers(s) <==> ValidNumbers(t)
  {
    hide Get;
    AddressFields(s);
    AddressFields(t);
    NumberFields(s);
    NumberFields(t);
    FlagFields(s);
    FlagFields(t);
  }

  /** The defaults are valid, and a record that load produced can only be invalid for its
      numbers. */
  lemma LoadedValidity(text: string, path: string)
    ensures Valid(Start(path))
    ensures Valid(Load(text, path)) <==> ValidNumbers(Load(text, path))
  {
    hide Load, Canonical, Get, StrOf, Field, DefaultText;
    LoadCanonical(text, path);
    LoadedNonEmpty(Load(text, path), Interface);
    StartCanonical(path);
    LoadedNonEmpty(Start(path), Interface);
  }

  // ---------------------------------------------------------------- arbitrary files

  /** The copy into `cap` bytes cuts the value right behind white space. */
  predicate CutAtBlank(v: string, cap: nat) {
    1 < cap <= |v| && IsSpace(v[cap - 2])
  }

  /** The copy does that to the last value the file assigns to `k`. */
  predicate EndsCut(text: string, k: Key)
    requires KindOf(k).Chars?
  {
    match Latest(Bodies(text), k)
    case None => false
    case Some(v) => CutAtBlank(v, KindOf(k).cap)
  }

  lemma {:induction false} LatestShape(bodies: seq<string>, k: Key)
    requires forall i | 0 <= i < |bodies| :: Free(bodies[i], ENDS)
    ensures match Latest(bodies, k) case None => true case Some(v) => v != [] && Trimmed(v) && Free(v, ENDS)
  {
    hide Assignment, KeyOf, Trimmed;
    if bodies != [] {
      var n := |bodies| - 1;
      LatestShape(bodies[..n], k);
      if Assigns(bodies[n], k) { AssignmentShape(bodies[n]); }
    }
  }

  /** A loaded string ends in white space if and only if the file's last value for it was
      cut behind white space; it then fills its buffer. */
  lemma BlankEnd(text: string, path: string, k: Key)
    requires KindOf(k).Chars?
    ensures Trimmed(StrOf(Load(text, path), k)) <==> !EndsCut(text, k)
    ensures EndsCut(text, k) ==> |StrOf(Load(text, path), k)| == KindOf(k).cap - 1
  {
    hide Bodies, Get, Run, Start, Field, DefaultText, Tidy, KindOf, Latest;
    RunLatest(Start(path), Bodies(text), k);
    BodiesFree(text);
    LatestShape(Bodies(text), k);
    DefaultTextShape(k);
    match Latest(Bodies(text), k)
    case None => StartString(path, k);
    case Some(v) => TidyField(v, KindOf(k).cap);
  }

  lemma CanonicalLineSafe(s: Settings)
    requires Canonical(s)
    ensures LineSafe(s)
  {
    forall k: Key | KindOf(k).Chars?
      ensures Free(StrOf(s, k), BREAKS)
    {
      LoadedNonEmpty(s, k);
    }
  }

  lemma StripAtFirst(t: string)
    requires t != [] && !IsSpace(t[0])
    ensures Strip(t) == RStripped(t) != []
  {
    assert SkipBlank(t, 0) == 0 && t[0..] == t;
  }

  /** Any file at all: one save and load removes the white space at which the copy into a
      buffer cut the file's last value for a key, and nothing else; from then on the record
      is a fixed point. It already is one if and only if no value was cut there. */
  lemma AnyFileStabilises(text: string, path: string)
    ensures var first := Load(text, path); var second := Load(Save(first), path);
      && (forall k: Key | KindOf(k).Chars? :: StrOf(second, k) == RStripped(StrOf(first, k)))
      && (forall k: Key | KindOf(k).Chars? :: StrOf(second, k) != StrOf(first, k) <==> EndsCut(text, k))
      && (forall k: Key | !KindOf(k).Chars? :: Get(second, k) == Get(first, k))
      && Load(Save(second), path) == second
      && (second == first <==> forall k: Key | KindOf(k).Chars? :: !EndsCut(text, k))
  {
    hide Load, Save, Get, StrOf, Strip, Trimmed, RStripped, EndsCut, Clean, Canonical, LineSafe;
    var first := Load(text, path);
    LoadCanonical(text, path);
    CanonicalLineSafe(first);
    var second := Load(Save(first), path);
    forall k: Key
      ensures KindOf(k).Chars? ==> StrOf(second, k) == RStripped(StrOf(first, k))
      ensures KindOf(k).Chars? ==> (StrOf(second, k) != StrOf(first, k) <==> EndsCut(text, k))
      ensures !KindOf(k).Chars? ==> Get(second, k) == Get(first, k)
    {
      if KindOf(k).Chars? {
        SecondString(text, path, k);
      } else {
        LoadSaved(first, path, k);
      }
    }
    SecondTripChangesNothing(first, path);
    if forall k: Key | KindOf(k).Chars? :: !EndsCut(text, k) {
      UncutIsClean(text, path);
      CleanIsFixed(first, path);
    }
  }

  lemma SecondString(text: string, path: string, k: Key)
    requires KindOf(k).Chars?
    ensures var first := Load(text, path); var second := Load(Save(first), path);
      && StrOf(second, k) == RStripped(StrOf(first, k))
      && (StrOf(second, k) != StrOf(first, k) <==> EndsCut(text, k))
  {
    hide Load, Save, Get, StrOf, Strip, Trimmed, RStripped, EndsCut, Canonical, LineSafe;
    var first := Load(text, path);
    LoadCanonical(text, path);
    CanonicalLineSafe(first);
    LoadedString(first, path, k);
    TidyStart(first, k);
    StripAtFirst(StrOf(first, k));
    StripTrimmed(StrOf(first, k));
    BlankEnd(text, path, k);
  }

  lemma UncutIsClean(text: string, path: string)
    requires forall k: Key | KindOf(k).Chars? :: !EndsCut(text, k)
    ensures Clean(Load(text, path))
  {
    hide Load, StrOf, Trimmed, EndsCut, Canonical;
    LoadCanonical(text, path);
    forall k: Key | KindOf(k).Chars?
      ensures StrOf(Load(text, path), k) != [] && Trimmed(StrOf(Load(text, path), k))
      ensures Free(StrOf(Load(text, path), k), BREAKS)
    {
      LoadedNonEmpty(Load(text, path), k);
      BlankEnd(text, path, k);
    }
  }

  lemma TidyStart(s: Settings, k: Key)
    requires Canonical(s) && KindOf(k).Chars?
    ensures StrOf(s, k) != [] && !IsSpace(StrOf(s, k)[0])
  {
    assert Tidy(Get(s, k).bytes);
  }

  /** A file of one entry. */
  lemma SingleEntry(k: Key, v: string, path: string)
    requires Free(v, ENDS) && Strip(v) != [] && |KeyName(k)| + 1 + |v| < LINE_SIZE
    ensures Get(Load(KeyName(k) + "=" + v, path), k) == Meaning(k, Strip(v))
  {
    hide Load, KeyName, Assigned, Body, Strip, Get, Meaning;
    var l := KeyName(k) + "=" + v;
    KeyNames(k);
    EntryLine(k, v);
    FileLastWriteWins([l], path, k, 0);
    assert Join([l], '\n') == l;
  }

  /** Files for which the first record is not yet a fixed point: a product name of 24
      visible characters, a space and one more letter is cut after the space. */
  lemma TruncationExposesBlank(name: string, path: string)
    requires Plain(name) && |name| == 24
    ensures var first := Load(KeyName(ProductName) + "=" + (name + " b"), path);
      StrOf(first, ProductName) == name + " " && Load(Save(first), path) != first
  {
    hide Load, KeyName, Save, Get, Strip, Field, Tidy, Canonical, EndsCut, Meaning;
    var v := name + " b";
    var text := KeyName(ProductName) + "=" + v;
    var first := Load(text, path);
    CutName(name);
    KeyNames(ProductName);
    SingleEntry(ProductName, v, path);
    assert StrOf(first, ProductName) == name + " ";
    assert !Trimmed(StrOf(first, ProductName)) by { assert (name + " ")[24] == ' '; }
    BlankEnd(text, path, ProductName);
    AnyFileStabilises(text, path);
  }

  lemma CutName(name: string)
    requires Plain(name) && |name| == 24
    ensures var v := name + " b";
      && Free(v, ENDS) && Strip(v) == v
      && Meaning(ProductName, v) == Text(Field(v, 26)) && CStr(Field(v, 26)) == name + " "
  {
    hide Strip, Field, Tidy;
    var v := name + " b";
    PlainText(name);
    StripTrimmed(v);
    TidyField(v, 26);
    assert Truncate(v, 25) == name + " ";
  }
}
