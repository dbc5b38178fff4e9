/** The VID:PID list: how the settings normalise what the user typed, how the
    launcher parses the result, and why both mean the same list. */
module UsbIds {
  import opened Options
  import opened Text

  datatype DeviceId = DeviceId(vendor: nat, product: nat)

  const MAX_FILTERS: nat := 32
  const MAX_TEXT: nat := 512

  // --------------------------------------------------------------- hex entries

  predicate LowerHex(c: char)
  {
    '0' <= c <= '9' || 'a' <= c <= 'f'
  }

  predicate IsHex(c: char)
  {
    LowerHex(c) || 'A' <= c <= 'F'
  }

  function HexValue(c: char): (v: nat)
    requires IsHex(c)
    ensures v < 16
  {
    if c <= '9' then c as int - '0' as int
    else if c <= 'F' then c as int - 'A' as int + 10
    else c as int - 'a' as int + 10
  }

  predicate IsWord(s: string)
  {
    |s| == 4 && IsHex(s[0]) && IsHex(s[1]) && IsHex(s[2]) && IsHex(s[3])
  }

  function WordValue(s: string): nat
    requires IsWord(s)
  {
    ((HexValue(s[0]) * 16 + HexValue(s[1])) * 16 + HexValue(s[2])) * 16 + HexValue(s[3])
  }

  /** `[0-9a-f]{4}:[0-9a-f]{4}`, ignoring case. */
  predicate IsEntry(s: string)
  {
    |s| == 9 && IsWord(s[..4]) && s[4] == ':' && IsWord(s[5..])
  }

  function IdOf(s: string): DeviceId
    requires IsEntry(s)
  {
    DeviceId(WordValue(s[..4]), WordValue(s[5..]))
  }

  function LowerChar(c: char): char
  {
    if 'A' <= c <= 'Z' then c + 32 as char else c
  }

  function Lower(s: string): (r: string)
    ensures |r| == |s|
  {
    seq(|s|, i requires 0 <= i < |s| => LowerChar(s[i]))
  }

  /** An entry as the settings store it. */
  predicate IsStored(s: string)
  {
    IsEntry(s) && Lower(s) == s
  }

  lemma WordInjective(a: string, b: string)
    requires IsWord(a) && IsWord(b) && WordValue(a) == WordValue(b)
    requires forall i :: 0 <= i < 4 ==> LowerHex(a[i]) && LowerHex(b[i])
    ensures a == b
  {
    assert HexValue(a[0]) == HexValue(b[0]) && HexValue(a[1]) == HexValue(b[1]);
    assert HexValue(a[2]) == HexValue(b[2]) && HexValue(a[3]) == HexValue(b[3]);
    assert a[0] == b[0] && a[1] == b[1] && a[2] == b[2] && a[3] == b[3];
  }

  lemma StoredChars(s: string, i: nat)
    requires IsStored(s) && i < 9 && i != 4
    ensures LowerHex(s[i])
  {
    var head, tail := s[..4], s[5..];
    assert i < 4 ==> s[i] == head[i];
    assert i > 4 ==> s[i] == tail[i - 5];
    assert Lower(s)[i] == LowerChar(s[i]);
  }

  /** Stored entries name different devices unless they are the same text. */
  lemma StoredInjective(a: string, b: string)
    requires IsStored(a) && IsStored(b) && IdOf(a) == IdOf(b)
    ensures a == b
  {
    forall i: nat | i < 9 && i != 4 ensures LowerHex(a[i]) && LowerHex(b[i]) {
      StoredChars(a, i);
      StoredChars(b, i);
    }
    WordInjective(a[..4], b[..4]);
    WordInjective(a[5..], b[5..]);
    assert a == a[..4] + [a[4]] + a[5..] && b == b[..4] + [b[4]] + b[5..];
  }

  lemma LowerWord(s: string)
    requires IsWord(s)
    ensures IsWord(Lower(s)) && WordValue(Lower(s)) == WordValue(s)
  {
    assert forall i :: 0 <= i < 4 ==> Lower(s)[i] == LowerChar(s[i]);
  }

  lemma LowerEntry(s: string)
    requires IsEntry(s)
    ensures IsStored(Lower(s)) && IdOf(Lower(s)) == IdOf(s)
  {
    LowerWord(s[..4]);
    LowerWord(s[5..]);
    assert Lower(s)[..4] == Lower(s[..4]) && Lower(s)[5..] == Lower(s[5..]);
    assert Lower(Lower(s)) == Lower(s);
  }

  // ------------------------------------------------------------ normalisation

  /** A character of the class `[,\s]`. */
  predicate IsSeparator(c: char)
  {
    c == ',' || IsSpace(c)
  }

  /** Length of the longest front part made only of separators, or only of others. */
  function Span(s: string, separators: bool): (n: nat)
    ensures n <= |s|
    ensures forall i :: 0 <= i < n ==> IsSeparator(s[i]) == separators
    ensures n < |s| ==> IsSeparator(s[n]) != separators
  {
    if s == [] || IsSeparator(s[0]) != separators then 0 else 1 + Span(s[1..], separators)
  }

  /** All fields between runs of separators, empty ones included. */
  function Fields(s: string): seq<string>
    decreases |s|
  {
    var n := Span(s, false);
    if n == |s| then [s]
    else
      var run := Span(s[n..], true);
      [s[..n]] + Fields(s[n + run..])
  }

  function DropTrailingEmpty(fields: seq<string>): seq<string>
    decreases |fields|
  {
    if fields != [] && fields[|fields| - 1] == [] then DropTrailingEmpty(fields[..|fields| - 1]) else fields
  }

  /** `String.split("[,\\s]+")`: a leading empty field stays, trailing ones go. */
  function Split(s: string): seq<string>
  {
    DropTrailingEmpty(Fields(s))
  }

  /** Adding to an insertion-ordered set. */
  function Add<T(==)>(found: seq<T>, x: T): seq<T>
  {
    if x in found then found else found + [x]
  }

  /** The insertion-ordered set of the normalisation, or None where it throws. */
  function Collect(entries: seq<string>, found: seq<string>): Option<seq<string>>
    decreases |entries|
  {
    if entries == [] then Some(found)
    else if !IsEntry(entries[0]) then None
    else
      var more := Add(found, Lower(entries[0]));
      if |more| > MAX_FILTERS then None else Collect(entries[1..], more)
  }

  function Join(list: seq<string>): string
    decreases |list|
  {
    if list == [] then ""
    else if |list| == 1 then list[0]
    else list[0] + "," + Join(list[1..])
  }

  /** The entries of a settings text; None is the exception. */
  function Entries(text: Option<string>): Option<seq<string>>
  {
    if text == None || Trim(text.value) == [] then Some([])
    else if |text.value| > MAX_TEXT then None
    else Collect(Split(Trim(text.value)), [])
  }

  function Normalize(text: Option<string>): Option<string>
  {
    match Entries(text)
    case None => None
    case Some(list) => Some(Join(list))
  }

  ghost predicate Distinct<T>(s: seq<T>)
  {
    forall i, j :: 0 <= i < j < |s| ==> s[i] != s[j]
  }

  /** A normalised list. */
  ghost predicate StoredList(list: seq<string>)
  {
    |list| <= MAX_FILTERS && Distinct(list) && forall i :: 0 <= i < |list| ==> IsStored(list[i])
  }

  lemma {:induction false} CollectGivesStored(entries: seq<string>, found: seq<string>)
    requires StoredList(found) && Collect(entries, found).Some?
    ensures StoredList(Collect(entries, found).value)
    decreases |entries|
  {
    if entries != [] {
      LowerEntry(entries[0]);
      CollectGivesStored(entries[1..], Add(found, Lower(entries[0])));
    }
  }

  lemma NormalizedIsStored(text: Option<string>)
    requires Entries(text).Some?
    ensures StoredList(Entries(text).value)
  {
    if text.Some? && Trim(text.value) != [] { CollectGivesStored(Split(Trim(text.value)), []); }
  }

  /** Collecting a stored list again keeps it as it is. */
  lemma {:induction false} CollectStored(list: seq<string>, done: nat)
    requires StoredList(list) && done <= |list|
    ensures Collect(list[done..], list[..done]) == Some(list)
    decreases |list| - done
  {
    if done < |list| {
      var e := list[done];
      assert list[done..][0] == e && list[done..][1..] == list[done + 1..];
      assert list[..done] + [e] == list[..done + 1];
      assert e !in list[..done];
      CollectStored(list, done + 1);
    } else {
      assert list[..done] == list;
    }
  }

  lemma SpanOfEntry(e: string, rest: string)
    requires IsStored(e)
    requires rest == [] || IsSeparator(rest[0])
    ensures Span(e + rest, false) == 9
  {
    var s := e + rest;
    forall i: nat | i < 9 ensures !IsSeparator(s[i]) {
      assert s[i] == e[i];
      if i != 4 { StoredChars(e, i); }
    }
    assert |s| > 9 ==> s[9] == rest[0];
  }

  lemma {:induction false} JoinLength(list: seq<string>)
    requires forall i :: 0 <= i < |list| ==> |list[i]| == 9
    ensures |Join(list)| == if list == [] then 0 else 10 * |list| - 1
    decreases |list|
  {
    if |list| > 1 { JoinLength(list[1..]); }
  }

  lemma {:induction false} JoinStart(list: seq<string>)
    requires list != [] && forall i :: 0 <= i < |list| ==> IsStored(list[i])
    ensures Join(list) != [] && LowerHex(Join(list)[0])
    decreases |list|
  {
    StoredChars(list[0], 0);
  }

  lemma FieldsCons(e: string, rest: string)
    requires IsStored(e) && rest != [] && !IsSeparator(rest[0])
    ensures Fields(e + "," + rest) == [e] + Fields(rest)
  {
    var s := e + "," + rest;
    SpanOfEntry(e, "," + rest);
    assert s == e + ("," + rest);
    var tail := s[9..];
    assert tail[0] == ',' && tail[1..] == rest;
    assert Span(rest, true) == 0;
    assert Span(tail, true) == 1;
    assert s[..9] == e && s[9 + 1..] == rest;
  }

  lemma {:induction false} FieldsOfJoin(list: seq<string>)
    requires list != [] && forall i :: 0 <= i < |list| ==> IsStored(list[i])
    ensures Fields(Join(list)) == list
    decreases |list|
  {
    if |list| == 1 {
      SpanOfEntry(list[0], "");
      assert list[0] + "" == list[0];
    } else {
      var rest := list[1..];
      JoinStart(rest);
      FieldsOfJoin(rest);
      FieldsCons(list[0], Join(rest));
    }
  }

  lemma {:induction false} JoinEnd(list: seq<string>)
    requires list != [] && forall i :: 0 <= i < |list| ==> IsStored(list[i])
    ensures Join(list) != [] && LowerHex(Join(list)[|Join(list)| - 1])
    decreases |list|
  {
    if |list| == 1 {
      StoredChars(list[0], 8);
    } else {
      JoinEnd(list[1..]);
    }
  }

  /** A stored list is read back as itself from its own text. */
  lemma EntriesOfJoin(list: seq<string>)
    requires StoredList(list)
    ensures Entries(Some(Join(list))) == Some(list)
  {
    if list != [] {
      var s := Join(list);
      JoinStart(list);
      JoinEnd(list);
      assert Trim(s) == s;
      JoinLength(list);
      FieldsOfJoin(list);
      assert IsStored(list[|list| - 1]);
      assert list[0..] == list && list[..0] == [];
      CollectStored(list, 0);
    }
  }

  /** Normalising twice is normalising once, for every text the settings accept. */
  lemma NormalizeIdempotent(text: Option<string>)
    requires Normalize(text).Some?
    ensures Normalize(Normalize(text)) == Normalize(text)
  {
    NormalizedIsStored(text);
    EntriesOfJoin(Entries(text).value);
  }

  // ------------------------------------------------- what the user may type

  const HEX_DIGITS: string := "0123456789abcdef"

  /** Sixteen digits, of either case, each worth its place. */
  lemma HexDigits(c: char)
    ensures IsHex(c) <==> LowerChar(c) in HEX_DIGITS
    ensures IsHex(c) ==> HEX_DIGITS[HexValue(c)] == LowerChar(c)
  {
  }

  lemma EntryHex(s: string)
    ensures IsEntry(s) <==>
            && |s| == 9 && s[4] == ':' && IsHex(s[0]) && IsHex(s[1]) && IsHex(s[2]) && IsHex(s[3])
            && IsHex(s[5]) && IsHex(s[6]) && IsHex(s[7]) && IsHex(s[8])
  {
    if |s| == 9 {
      var head, tail := s[..4], s[5..];
      assert head[0] == s[0] && head[1] == s[1] && head[2] == s[2] && head[3] == s[3];
      assert tail[0] == s[5] && tail[1] == s[6] && tail[2] == s[7] && tail[3] == s[8];
    }
  }

  /** An entry is four digits, a colon and four digits. */
  lemma EntryIff(s: string)
    ensures IsEntry(s) <==>
            |s| == 9 && s[4] == ':' && forall i :: 0 <= i < 9 && i != 4 ==> LowerChar(s[i]) in HEX_DIGITS
  {
    EntryHex(s);
    forall i | 0 <= i < |s| ensures IsHex(s[i]) <==> LowerChar(s[i]) in HEX_DIGITS { HexDigits(s[i]); }
  }

  /** Commas and white space of any kind and number. */
  predicate IsGap(s: string)
  {
    s != [] && forall i :: 0 <= i < |s| ==>
      s[i] == ',' || s[i] == ' ' || s[i] == '\t' || s[i] == '\n' || s[i] as int == 11 || s[i] as int == 12 || s[i] == '\r'
  }

  /** Entries with a gap between any two. */
  function Interspersed(list: seq<string>, gaps: seq<string>): string
    requires |list| == |gaps| + 1
    decreases |list|
  {
    if |list| == 1 then list[0] else list[0] + gaps[0] + Interspersed(list[1..], gaps[1..])
  }

  ghost predicate Gaps(list: seq<string>, gaps: seq<string>)
  {
    && |list| == |gaps| + 1
    && (forall i :: 0 <= i < |list| ==> IsEntry(list[i]))
    && (forall i :: 0 <= i < |gaps| ==> IsGap(gaps[i]))
  }

  lemma EntryHasNoSeparator(e: string)
    requires IsEntry(e)
    ensures forall i :: 0 <= i < |e| ==> !IsSeparator(e[i]) && e[i] > ' '
  {
    EntryIff(e);
    forall i | 0 <= i < |e| ensures !IsSeparator(e[i]) && e[i] > ' ' {
      if i != 4 { HexDigits(e[i]); }
    }
  }

  lemma SpanIs(part: string, rest: string, separators: bool)
    requires forall i :: 0 <= i < |part| ==> IsSeparator(part[i]) == separators
    requires rest != [] ==> IsSeparator(rest[0]) != separators
    ensures Span(part + rest, separators) == |part|
  {
    var s := part + rest;
    assert forall i :: 0 <= i < |part| ==> s[i] == part[i];
    assert rest != [] ==> s[|part|] == rest[0];
  }

  lemma FieldThenGap(e: string, gap: string, rest: string)
    requires (forall i :: 0 <= i < |e| ==> !IsSeparator(e[i])) && IsGap(gap) && rest != [] && !IsSeparator(rest[0])
    ensures Fields(e + gap + rest) == [e] + Fields(rest)
  {
    var s := e + (gap + rest);
    assert e + gap + rest == s && (gap + rest)[0] == gap[0];
    SpanIs(e, gap + rest, false);
    assert s[..|e|] == e && s[|e|..] == gap + rest;
    SpanIs(gap, rest, true);
    assert s[|e| + |gap|..] == rest;
  }

  lemma {:induction false} FieldsOfInterspersed(list: seq<string>, gaps: seq<string>)
    requires Gaps(list, gaps)
    ensures var text := Interspersed(list, gaps);
            && text != [] && text[0] == list[0][0] && text[|text| - 1] == list[|list| - 1][8]
            && Fields(text) == list
    decreases |list|
  {
    EntryHasNoSeparator(list[0]);
    if |list| == 1 {
      SpanIs(list[0], "", false);
      assert list[0] + "" == list[0];
    } else {
      FieldsOfInterspersed(list[1..], gaps[1..]);
      EntryHasNoSeparator(list[1]);
      FieldThenGap(list[0], gaps[0], Interspersed(list[1..], gaps[1..]));
      assert list == [list[0]] + list[1..];
    }
  }

  /** However the user separates entries, the settings see exactly those entries. */
  lemma TypedAsMeant(list: seq<string>, gaps: seq<string>)
    requires Gaps(list, gaps)
    ensures var text := Interspersed(list, gaps);
            Trim(text) == text && Split(text) == list
            && Entries(Some(text)) == if |text| > MAX_TEXT then None else Collect(list, [])
  {
    FieldsOfInterspersed(list, gaps);
    EntryHasNoSeparator(list[0]);
    EntryHasNoSeparator(list[|list| - 1]);
    TrimmedStays(Interspersed(list, gaps));
    assert list[|list| - 1] != [];
  }

  // ------------------------------------------------------- the launcher's parser

  /** The launcher's loop over the rest of the text; None is its -1. */
  function FilterFrom(s: string, found: seq<DeviceId>): Option<seq<DeviceId>>
    requires s != []
    decreases |s|
  {
    if |found| >= MAX_FILTERS || |s| < 9 || s[4] != ':' then None
    else if |s| > 9 && s[9] != ',' then None
    else if !IsEntry(s[..9]) then None
    else
      var more := Add(found, IdOf(s[..9]));
      if |s| == 9 then Some(more)
      else if |s| == 10 then None
      else FilterFrom(s[10..], more)
  }

  function ParseFilter(s: string): Option<seq<DeviceId>>
  {
    if s == [] || s == "-" then Some([])
    else if |s| > MAX_TEXT then None
    else FilterFrom(s, [])
  }

  /** `parse_usb_device_filter` with its offset loop. */
  method ScanFilter(value: string) returns (r: Option<seq<DeviceId>>)
    ensures r == ParseFilter(value)
    ensures r.Some? ==> |r.value| <= MAX_FILTERS && Distinct(r.value)
  {
    if value == [] || value == "-" { return Some([]); }
    if |value| > MAX_TEXT { return None; }
    var offset := 0;
    var found: seq<DeviceId> := [];
    while offset < |value|
      invariant offset < |value|
      invariant |found| <= MAX_FILTERS && Distinct(found)
      invariant FilterFrom(value[offset..], found) == ParseFilter(value)
      decreases |value| - offset
    {
      ghost var rest := value[offset..];
      if |found| >= MAX_FILTERS || |value| - offset < 9 || value[offset + 4] != ':' { return None; }
      if |value| - offset > 9 && value[offset + 9] != ',' { return None; }
      var entry := value[offset..offset + 9];
      assert entry == rest[..9];
      assert entry[4] == value[offset + 4];
      if !IsWord(entry[..4]) || !IsWord(entry[5..]) { return None; }
      var id := IdOf(entry);
      if id !in found { found := found + [id]; }
      offset := offset + 9;
      if offset == |value| { return Some(found); }
      offset := offset + 1;
      if offset == |value| { return None; }
      assert rest[10..] == value[offset..];
    }
    assert false;
  }

  function Ids(list: seq<string>): (r: seq<DeviceId>)
    requires forall i :: 0 <= i < |list| ==> IsEntry(list[i])
    ensures |r| == |list|
  {
    seq(|list|, i requires 0 <= i < |list| => IdOf(list[i]))
  }

  lemma MemberById(found: seq<string>, e: string)
    requires StoredList(found) && IsStored(e)
    ensures e in found <==> IdOf(e) in Ids(found)
  {
    if IdOf(e) in Ids(found) {
      var i :| 0 <= i < |found| && Ids(found)[i] == IdOf(e);
      StoredInjective(found[i], e);
    }
    if e in found {
      var i :| 0 <= i < |found| && found[i] == e;
      assert Ids(found)[i] == IdOf(e);
    }
  }

  lemma FilterCons(e: string, rest: string, found: seq<DeviceId>)
    requires IsEntry(e) && rest != [] && |found| < MAX_FILTERS
    ensures FilterFrom(e + "," + rest, found) == FilterFrom(rest, Add(found, IdOf(e)))
  {
    var s := e + "," + rest;
    assert s[..9] == e && s[10..] == rest && s[4] == e[4] && s[9] == ',';
  }

  lemma FilterLast(e: string, found: seq<DeviceId>)
    requires IsEntry(e) && |found| < MAX_FILTERS
    ensures FilterFrom(e, found) == Some(Add(found, IdOf(e)))
  {
    assert e[..9] == e;
  }

  lemma IdsSnoc(list: seq<string>, e: string)
    requires AllEntries(list) && IsEntry(e)
    ensures AllEntries(list + [e]) && Ids(list + [e]) == Ids(list) + [IdOf(e)]
  {
  }

  lemma AddNew(list: seq<string>, done: nat)
    requires StoredList(list) && done < |list|
    ensures Add(Ids(list[..done]), IdOf(list[done])) == Ids(list[..done + 1])
  {
    var front, e := list[..done], list[done];
    assert StoredList(front);
    MemberById(front, e);
    assert e !in front;
    IdsSnoc(front, e);
    assert list[..done + 1] == front + [e];
  }

  lemma JoinCons(list: seq<string>, done: nat)
    requires done + 1 < |list|
    ensures Join(list[done..]) == list[done] + "," + Join(list[done + 1..])
  {
    assert list[done..][1..] == list[done + 1..];
  }

  /** The launcher reads a stored list's text entry by entry. */
  lemma {:induction false} FilterOfJoin(list: seq<string>, done: nat)
    requires StoredList(list) && done < |list|
    ensures FilterFrom(Join(list[done..]), Ids(list[..done])) == Some(Ids(list))
    decreases |list| - done
  {
    AddNew(list, done);
    if done + 1 == |list| {
      FilterLast(list[done], Ids(list[..done]));
      assert list[..done + 1] == list && list[done..] == [list[done]];
    } else {
      JoinCons(list, done);
      JoinStart(list[done + 1..]);
      FilterCons(list[done], Join(list[done + 1..]), Ids(list[..done]));
      FilterOfJoin(list, done + 1);
    }
  }

  /** The text handed to the launcher: "-" stands for the empty list. */
  function FilterArgument(normalized: string): string
  {
    if normalized == [] then "-" else normalized
  }

  lemma LauncherReadsStored(list: seq<string>)
    requires StoredList(list)
    ensures ParseFilter(FilterArgument(Join(list))) == Some(Ids(list))
  {
    if list != [] {
      JoinStart(list);
      JoinLength(list);
      assert list[0..] == list && list[..0] == [];
      assert Ids(list[..0]) == [];
      FilterOfJoin(list, 0);
    }
  }

  // ------------------------------------------------------------ the whole chain

  /** First occurrences, in order. */
  function Firsts(ids: seq<DeviceId>): (r: seq<DeviceId>)
    decreases |ids|
  {
    if ids == [] then [] else Add(Firsts(ids[..|ids| - 1]), ids[|ids| - 1])
  }

  ghost predicate AllEntries(list: seq<string>)
  {
    forall i :: 0 <= i < |list| ==> IsEntry(list[i])
  }

  lemma {:induction false} FirstsGrow(ids: seq<DeviceId>, k: nat)
    requires k <= |ids|
    ensures |Firsts(ids[..k])| <= |Firsts(ids)|
    decreases |ids| - k
  {
    if k == |ids| {
      assert ids[..k] == ids;
    } else {
      FirstsGrow(ids, k + 1);
      assert ids[..k + 1][..k] == ids[..k];
    }
  }

  /** The text is a comma-separated list of entries in either case. */
  ghost predicate Written(s: string, list: seq<string>)
  {
    list != [] && AllEntries(list) && s == Join(list)
  }

  /** The launcher looks at its limit before each entry, repeated ones included. */
  ghost predicate RoomFor(list: seq<string>)
    requires list != [] && AllEntries(list)
  {
    |Firsts(Ids(list)[..|list| - 1])| < 32
  }

  lemma JoinNotEmpty(list: seq<string>)
    requires list != [] && AllEntries(list)
    ensures Join(list) != []
  {
    assert |list[0]| == 9;
  }

  /** One more id, and the limit it was checked against. */
  lemma FirstsStep(ids: seq<DeviceId>, done: nat)
    requires done < |ids|
    ensures Firsts(ids[..done + 1]) == Add(Firsts(ids[..done]), ids[done])
    ensures |Firsts(ids[..done])| <= |Firsts(ids[..|ids| - 1])|
  {
    assert ids[..done + 1][..done] == ids[..done];
    assert ids[..|ids| - 1][..done] == ids[..done];
    FirstsGrow(ids[..|ids| - 1], done);
  }

  lemma FilterFull(s: string, found: seq<DeviceId>)
    requires s != [] && |found| >= MAX_FILTERS
    ensures FilterFrom(s, found) == None
  {
  }

  /** What the launcher makes of one entry. */
  lemma FilterEntry(list: seq<string>, done: nat, found: seq<DeviceId>)
    requires AllEntries(list) && done < |list|
    ensures Join(list[done..]) != [] && (done + 1 < |list| ==> Join(list[done + 1..]) != [])
    ensures FilterFrom(Join(list[done..]), found) ==
            if |found| >= MAX_FILTERS then None
            else if done + 1 == |list| then Some(Add(found, IdOf(list[done])))
            else FilterFrom(Join(list[done + 1..]), Add(found, IdOf(list[done])))
  {
    JoinNotEmpty(list[done..]);
    if done + 1 < |list| { JoinNotEmpty(list[done + 1..]); }
    if |found| >= MAX_FILTERS {
      FilterFull(Join(list[done..]), found);
    } else if done + 1 == |list| {
      assert list[done..] == [list[done]];
      FilterLast(list[done], found);
    } else {
      JoinCons(list, done);
      FilterCons(list[done], Join(list[done + 1..]), found);
    }
  }

  lemma {:induction false} FilterOfEntries(list: seq<string>, ids: seq<DeviceId>, done: nat)
    requires AllEntries(list) && ids == Ids(list) && done < |list| && Join(list[done..]) != []
    ensures FilterFrom(Join(list[done..]), Firsts(ids[..done])) ==
            if |Firsts(ids[..|ids| - 1])| < MAX_FILTERS then Some(Firsts(ids)) else None
    decreases |list| - done
  {
    FirstsStep(ids, done);
    FilterEntry(list, done, Firsts(ids[..done]));
    assert ids[..|ids|] == ids && ids[done] == IdOf(list[done]);
    if done + 1 < |list| && |Firsts(ids[..done])| < MAX_FILTERS { FilterOfEntries(list, ids, done + 1); }
  }

  lemma {:induction false} FilterIsWritten(s: string, found: seq<DeviceId>) returns (list: seq<string>)
    requires s != [] && FilterFrom(s, found).Some?
    ensures Written(s, list)
    decreases |s|
  {
    var e := s[..9];
    if |s| == 9 {
      list := [e];
    } else {
      var rest := FilterIsWritten(s[10..], Add(found, IdOf(e)));
      list := [e] + rest;
      assert list[1..] == rest && s == e + "," + s[10..];
    }
  }

  lemma WrittenIsRead(s: string, list: seq<string>)
    requires s != "-" && |s| <= MAX_TEXT && Written(s, list)
    ensures s != [] && ParseFilter(s) == if RoomFor(list) then Some(Firsts(Ids(list))) else None
  {
    JoinNotEmpty(list);
    assert list[0..] == list && Ids(list)[..0] == [];
    FilterOfEntries(list, Ids(list), 0);
  }

  /** Exactly which texts the launcher takes, whoever wrote them, and what it makes of
      them: nothing or "-" for no device, and otherwise at most 512 characters of entries
      with single commas between them, of which it keeps the first of each device. */
  lemma FilterMeaning(s: string)
    ensures s == "" || s == "-" ==> ParseFilter(s) == Some([])
    ensures s != "" && s != "-" ==>
              (ParseFilter(s).Some? <==> |s| <= 512 && exists list :: Written(s, list) && RoomFor(list))
    ensures forall list :: s != "-" && ParseFilter(s).Some? && Written(s, list) ==> ParseFilter(s).value == Firsts(Ids(list))
  {
    if s != [] && s != "-" && |s| <= MAX_TEXT && FilterFrom(s, []).Some? {
      var list := FilterIsWritten(s, []);
      WrittenIsRead(s, list);
    }
    forall list | s != "-" && |s| <= MAX_TEXT && Written(s, list)
      ensures s != [] && ParseFilter(s) == if RoomFor(list) then Some(Firsts(Ids(list))) else None
    {
      WrittenIsRead(s, list);
    }
  }

  lemma AddIds(found: seq<string>, e: string)
    requires StoredList(found) && IsStored(e)
    ensures AllEntries(Add(found, e))
    ensures Ids(Add(found, e)) == Add(Ids(found), IdOf(e))
  {
    MemberById(found, e);
  }

  /** Adding one entry to the ordered set adds its device to the first occurrences. */
  lemma CollectStep(front: seq<string>, e: string, found: seq<string>)
    requires AllEntries(front) && IsEntry(e)
    requires StoredList(found) && Ids(found) == Firsts(Ids(front))
    ensures AllEntries(front + [e])
    ensures AllEntries(Add(found, Lower(e))) && Ids(Add(found, Lower(e))) == Firsts(Ids(front + [e]))
  {
    LowerEntry(e);
    AddIds(found, Lower(e));
    var after := Ids(front + [e]);
    assert after[..|front|] == Ids(front) && after[|front|] == IdOf(e);
  }

  lemma AddStored(found: seq<string>, e: string)
    requires StoredList(found) && IsEntry(e) && |Add(found, Lower(e))| <= MAX_FILTERS
    ensures StoredList(Add(found, Lower(e)))
  {
    LowerEntry(e);
  }

  /** The devices typed are all readable and not too many. */
  ghost predicate Acceptable(entries: seq<string>)
  {
    AllEntries(entries) && |Firsts(Ids(entries))| <= MAX_FILTERS
  }

  ghost predicate Collected(entries: seq<string>, r: Option<seq<string>>)
  {
    && (r.Some? <==> Acceptable(entries))
    && (r.Some? ==> AllEntries(entries) && AllEntries(r.value) && Ids(r.value) == Firsts(Ids(entries)))
  }

  lemma TooManyStays(front: seq<string>, rest: seq<string>)
    requires AllEntries(front) && |Firsts(Ids(front))| > MAX_FILTERS
    ensures !Acceptable(front + rest)
  {
    if AllEntries(front + rest) {
      assert Ids(front + rest)[..|front|] == Ids(front);
      FirstsGrow(Ids(front + rest), |front|);
    }
  }

  lemma BadEntryStays(front: seq<string>, rest: seq<string>)
    requires rest != [] && !IsEntry(rest[0])
    ensures !AllEntries(front + rest)
  {
    assert (front + rest)[|front|] == rest[0];
  }

  /** The ordered set succeeds exactly when every field is an entry and at most 32
      different devices are named, and then it names them in first-occurrence order. */
  lemma {:induction false} CollectMeaning(front: seq<string>, rest: seq<string>, found: seq<string>)
    requires AllEntries(front) && StoredList(found) && Ids(found) == Firsts(Ids(front))
    ensures Collected(front + rest, Collect(rest, found))
    decreases |rest|
  {
    if rest == [] {
      assert front + rest == front;
    } else if !IsEntry(rest[0]) {
      BadEntryStays(front, rest);
    } else {
      var more := Add(found, Lower(rest[0]));
      CollectStep(front, rest[0], found);
      assert front + rest == (front + [rest[0]]) + rest[1..];
      if |more| <= MAX_FILTERS {
        AddStored(found, rest[0]);
        CollectMeaning(front + [rest[0]], rest[1..], more);
      } else {
        TooManyStays(front + [rest[0]], rest[1..]);
      }
    }
  }

  /** What the user typed, as devices: the fields of the trimmed text. */
  function Typed(text: Option<string>): seq<string>
  {
    if text == None || Trim(text.value) == [] then [] else Split(Trim(text.value))
  }

  ghost predicate TooLong(text: Option<string>)
  {
    text.Some? && Trim(text.value) != [] && |text.value| > MAX_TEXT
  }

  /** Main result: the settings accept a text exactly when it is short enough, each
      field is a VID:PID and at most 32 devices are named; and the launcher then
      reads from the normalised text exactly the devices typed, each once, in the
      order of their first occurrence. */
  lemma TypedListReachesLauncher(text: Option<string>)
    ensures Normalize(text).Some? <==>
            !TooLong(text) && AllEntries(Typed(text)) && |Firsts(Ids(Typed(text)))| <= MAX_FILTERS
    ensures Normalize(text).Some? ==>
            ParseFilter(FilterArgument(Normalize(text).value)) == Some(Firsts(Ids(Typed(text))))
  {
    var typed := Typed(text);
    assert Ids([]) == [] && [] + typed == typed;
    CollectMeaning([], typed, []);
    if Entries(text).Some? {
      NormalizedIsStored(text);
      LauncherReadsStored(Entries(text).value);
    }
  }

  lemma {:induction false} JoinSnoc(list: seq<string>, e: string)
    ensures Join(list + [e]) == if list == [] then e else Join(list) + "," + e
    decreases |list|
  {
    if list == [] {
      assert list + [e] == [e];
    } else {
      assert (list + [e])[1..] == list[1..] + [e];
      JoinSnoc(list[1..], e);
      if |list| == 1 { assert list[1..] == []; }
    }
  }

  /** The second loop of the normalisation: a growing text. */
  method BuildText(normalized: seq<string>) returns (result: string)
    requires forall i :: 0 <= i < |normalized| ==> |normalized[i]| > 0
    ensures result == Join(normalized)
  {
    result := "";
    for k := 0 to |normalized|
      invariant result == Join(normalized[..k])
      invariant k > 0 ==> result != ""
    {
      assert normalized[..k + 1] == normalized[..k] + [normalized[k]];
      JoinSnoc(normalized[..k], normalized[k]);
      if result != "" { result := result + ","; }
      result := result + normalized[k];
    }
    assert normalized[..|normalized|] == normalized;
  }

  /** `normalizeUsbExclusiveDeviceIds`. */
  method NormalizeText(text: Option<string>) returns (r: Option<string>)
    ensures r == Normalize(text)
  {
    if text == None || Trim(text.value) == [] { return Some(""); }
    if |text.value| > MAX_TEXT { return None; }
    var entries := Split(Trim(text.value));
    var normalized: seq<string> := [];
    assert entries[0..] == entries;
    for k := 0 to |entries|
      invariant Collect(entries[k..], normalized) == Entries(text)
    {
      if !IsEntry(entries[k]) { return None; }
      assert entries[k..][1..] == entries[k + 1..];
      if Lower(entries[k]) !in normalized { normalized := normalized + [Lower(entries[k])]; }
      if |normalized| > MAX_FILTERS { return None; }
    }
    NormalizedIsStored(text);
    var result := BuildText(normalized);
    return Some(result);
  }
}
