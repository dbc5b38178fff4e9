/** The launcher's state record as text: one `key=value` line per field, written to
    a temporary file and renamed into place, and read back line by line. */
module StateFile {
  import opened Options

  const INT_MAX: nat := 0x7FFF_FFFF
  const U64_LIMIT: nat := 0x1_0000_0000_0000_0000

  /** How a field is printed and parsed; Text carries its buffer size. */
  datatype Kind = Text(size: nat) | Pid | Counter | Status | Epoch

  datatype Field = Field(key: string, kind: Kind)

  datatype Value = Str(text: string) | Num(n: int)

  // ------------------------------------------------------------------ numbers

  function Digit(d: nat): char
    requires d < 10
  {
    '0' + d as char
  }

  function Decimal(n: nat): (r: string)
    ensures |r| > 0
  {
    if n < 10 then [Digit(n)] else Decimal(n / 10) + [Digit(n % 10)]
  }

  predicate AllDigits(s: string)
  {
    forall i :: 0 <= i < |s| ==> '0' <= s[i] <= '9'
  }

  function Digits(s: string): nat
    requires AllDigits(s)
  {
    if s == [] then 0 else Digits(s[..|s| - 1]) * 10 + (s[|s| - 1] as int - '0' as int)
  }

  /** The longest run of digits at the front. */
  function LeadingDigits(s: string): (r: string)
    ensures AllDigits(r)
    ensures AllDigits(s) ==> r == s
  {
    if s == [] || !('0' <= s[0] <= '9') then [] else [s[0]] + LeadingDigits(s[1..])
  }

  function Signed(n: int): string
  {
    if n < 0 then "-" + Decimal(-n) else Decimal(n)
  }

  /** `strtoull` on the whole value: None for junk, an empty value or overflow. */
  function ParseU64(s: string): Option<nat>
  {
    if s == [] || !AllDigits(s) || Digits(s) >= U64_LIMIT then None else Some(Digits(s))
  }

  /** `atoi` and `strtoll`: an optional minus sign, then leading digits. */
  function ParseSigned(s: string): int
  {
    if s != [] && s[0] == '-' then -(Digits(LeadingDigits(s[1..])) as int) else Digits(LeadingDigits(s))
  }

  lemma {:induction false} DecimalRoundTrip(n: nat)
    ensures AllDigits(Decimal(n)) && Digits(Decimal(n)) == n
  {
    if n >= 10 {
      DecimalRoundTrip(n / 10);
      var d := Decimal(n);
      assert d[..|d| - 1] == Decimal(n / 10);
    }
  }

  function Pow10(k: nat): nat
  {
    if k == 0 then 1 else 10 * Pow10(k - 1)
  }

  lemma {:induction false} DecimalLength(n: nat, k: nat)
    requires k > 0 && n < Pow10(k)
    ensures |Decimal(n)| <= k
    decreases k
  {
    if n >= 10 {
      assert k > 1 by { assert Pow10(1) == 10; }
      DecimalLength(n / 10, k - 1);
    }
  }

  lemma SignedRoundTrip(n: int)
    ensures ParseSigned(Signed(n)) == n
  {
    DecimalRoundTrip(if n < 0 then -n else n);
    if n < 0 { assert Signed(n)[1..] == Decimal(-n); }
  }

  // ------------------------------------------------------------------- fields

  predicate Fits(k: Kind, v: Value)
  {
    match k
    case Text(size) => v.Str? && |v.text| < size && '\n' !in v.text
    case Pid => v.Num? && 0 <= v.n <= INT_MAX
    case Counter => v.Num? && 0 <= v.n < U64_LIMIT
    case Status => v.Num? && -0x8000_0000 <= v.n < 0x8000_0000
    case Epoch => v.Num? && -0x8000_0000_0000_0000 <= v.n < 0x8000_0000_0000_0000
  }

  function Print(k: Kind, v: Value): string
    requires Fits(k, v)
  {
    match v
    case Str(text) => text
    case Num(n) => Signed(n)
  }

  /** `snprintf` keeps what fits; numbers that do not parse keep the earlier value. */
  function Parse(k: Kind, value: string, was: Value): Value
  {
    match k
    case Text(size) => Str(if |value| < size then value else if size == 0 then [] else value[..size - 1])
    case Pid => if ParseU64(value).Some? && ParseU64(value).value <= INT_MAX then Num(ParseU64(value).value) else was
    case Counter => if ParseU64(value).Some? then Num(ParseU64(value).value) else was
    case Status | Epoch => Num(ParseSigned(value))
  }

  lemma FieldRoundTrip(k: Kind, v: Value, was: Value)
    requires Fits(k, v)
    ensures Parse(k, Print(k, v), was) == v
    ensures '\n' !in Print(k, v)
  {
    if v.Num? {
      SignedRoundTrip(v.n);
      DecimalRoundTrip(if v.n < 0 then -v.n else v.n);
    }
  }

  // --------------------------------------------------------------- whole files

  ghost predicate AllFit(schema: seq<Field>, state: seq<Value>)
  {
    |schema| == |state| && forall i :: 0 <= i < |schema| ==> Fits(schema[i].kind, state[i])
  }

  function Line(f: Field, v: Value): string
    requires Fits(f.kind, v)
  {
    f.key + "=" + Print(f.kind, v)
  }

  function Body(schema: seq<Field>, state: seq<Value>): string
    requires AllFit(schema, state)
  {
    if schema == [] then "" else Line(schema[0], state[0]) + "\n" + Body(schema[1..], state[1..])
  }

  /** What `write_state` prints. */
  function Contents(schema: seq<Field>, state: seq<Value>): string
    requires AllFit(schema, state)
  {
    "format=7\n" + Body(schema, state)
  }

  /** Index of the first `c`, or the length. */
  function IndexOf(s: string, c: char): (i: nat)
    ensures i <= |s|
    ensures c !in s[..i]
    ensures i < |s| ==> s[i] == c
  {
    if s == [] || s[0] == c then 0 else 1 + IndexOf(s[1..], c)
  }

  /** `strtok_r` on newlines: the maximal newline-free runs. */
  function Tokens(text: string): seq<string>
    decreases |text|
  {
    if text == [] then []
    else if text[0] == '\n' then Tokens(text[1..])
    else
      var n := IndexOf(text, '\n');
      [text[..n]] + Tokens(text[n..])
  }

  function KeyIndex(schema: seq<Field>, key: string): (i: nat)
    ensures i <= |schema|
    ensures i < |schema| ==> schema[i].key == key
    ensures forall j :: 0 <= j < i ==> schema[j].key != key
  {
    if schema == [] || schema[0].key == key then 0 else 1 + KeyIndex(schema[1..], key)
  }

  /** One line of `read_state`. */
  function Absorb(schema: seq<Field>, state: seq<Value>, line: string): (r: seq<Value>)
    requires |state| == |schema|
    ensures |r| == |state|
  {
    var eq := IndexOf(line, '=');
    if eq == |line| then state
    else
      var i := KeyIndex(schema, line[..eq]);
      if i == |schema| then state
      else state[i := Parse(schema[i].kind, line[eq + 1..], state[i])]
  }

  function AbsorbAll(schema: seq<Field>, state: seq<Value>, lines: seq<string>): (r: seq<Value>)
    requires |state| == |schema|
    ensures |r| == |state|
    decreases |lines|
  {
    if lines == [] then state else AbsorbAll(schema, Absorb(schema, state, lines[0]), lines[1..])
  }

  /** `read_state` over an initialised record. */
  function Read(schema: seq<Field>, initial: seq<Value>, text: string): seq<Value>
    requires |initial| == |schema|
  {
    AbsorbAll(schema, initial, Tokens(text))
  }

  /** The loop of `read_state`: take the next token, absorb it, go on. */
  method ReadLines(schema: seq<Field>, initial: seq<Value>, text: string) returns (state: seq<Value>)
    requires |initial| == |schema|
    ensures state == Read(schema, initial, text)
  {
    state := initial;
    var rest := text;
    while rest != []
      invariant |state| == |schema|
      invariant AbsorbAll(schema, state, Tokens(rest)) == Read(schema, initial, text)
      decreases |rest|
    {
      if rest[0] == '\n' {
        rest := rest[1..];
      } else {
        var n := IndexOf(rest, '\n');
        assert Tokens(rest)[1..] == Tokens(rest[n..]);
        state := Absorb(schema, state, rest[..n]);
        rest := rest[n..];
      }
    }
  }

  ghost predicate GoodSchema(schema: seq<Field>)
  {
    && (forall i :: 0 <= i < |schema| ==>
          schema[i].key != [] && '=' !in schema[i].key && '\n' !in schema[i].key && schema[i].key != "format")
    && (forall i, j :: 0 <= i < j < |schema| ==> schema[i].key != schema[j].key)
  }

  lemma IndexOfAt(a: string, c: char, b: string)
    requires c !in a
    ensures IndexOf(a + [c] + b, c) == |a|
  {
    var s := a + [c] + b;
    var i := IndexOf(s, c);
    assert s[|a|] == c;
    var front := s[..i];
    assert forall j :: 0 <= j < i ==> s[j] in front;
    assert forall j :: 0 <= j < |a| ==> s[j] == a[j] && a[j] in a;
  }

  lemma TokensOfLine(line: string, rest: string)
    requires line != [] && '\n' !in line
    ensures Tokens(line + "\n" + rest) == [line] + Tokens(rest)
  {
    var text := line + "\n" + rest;
    IndexOfAt(line, '\n', rest);
    assert text[0] == line[0] && line[0] in line;
    assert text[..|line|] == line && text[|line|..] == ['\n'] + rest;
    assert (['\n'] + rest)[1..] == rest;
  }

  function Lines(schema: seq<Field>, state: seq<Value>): seq<string>
    requires AllFit(schema, state)
  {
    if schema == [] then [] else [Line(schema[0], state[0])] + Lines(schema[1..], state[1..])
  }

  lemma {:induction false} TokensOfBody(schema: seq<Field>, state: seq<Value>)
    requires AllFit(schema, state)
    requires forall i :: 0 <= i < |schema| ==> '\n' !in schema[i].key
    ensures Tokens(Body(schema, state)) == Lines(schema, state)
  {
    if schema != [] {
      TokensOfBody(schema[1..], state[1..]);
      FieldRoundTrip(schema[0].kind, state[0], state[0]);
      TokensOfLine(Line(schema[0], state[0]), Body(schema[1..], state[1..]));
    }
  }

  lemma AbsorbOwnLine(schema: seq<Field>, was: seq<Value>, i: nat, v: Value)
    requires GoodSchema(schema) && |was| == |schema| && i < |schema| && Fits(schema[i].kind, v)
    ensures Absorb(schema, was, Line(schema[i], v)) == was[i := v]
  {
    var f := schema[i];
    var line := Line(f, v);
    IndexOfAt(f.key, '=', Print(f.kind, v));
    assert line == f.key + ['='] + Print(f.kind, v);
    assert line[..|f.key|] == f.key && line[|f.key| + 1..] == Print(f.kind, v);
    assert KeyIndex(schema, f.key) == i;
    FieldRoundTrip(f.kind, v, was[i]);
  }

  lemma LinesStep(schema: seq<Field>, state: seq<Value>, from: nat)
    requires AllFit(schema, state) && from < |schema|
    requires AllFit(schema[from..], state[from..]) && AllFit(schema[from + 1..], state[from + 1..])
    ensures Lines(schema[from..], state[from..]) ==
            [Line(schema[from], state[from])] + Lines(schema[from + 1..], state[from + 1..])
  {
    assert schema[from..][1..] == schema[from + 1..] && state[from..][1..] == state[from + 1..];
  }

  lemma SpliceStep(was: seq<Value>, state: seq<Value>, from: nat)
    requires |was| == |state| && from < |was|
    ensures was[from := state[from]][..from + 1] + state[from + 1..] == was[..from] + state[from..]
  {
  }

  lemma {:induction false} AbsorbSuffix(schema: seq<Field>, was: seq<Value>, state: seq<Value>, from: nat)
    requires GoodSchema(schema) && AllFit(schema, state) && |was| == |schema| && from <= |schema|
    requires AllFit(schema[from..], state[from..])
    ensures AbsorbAll(schema, was, Lines(schema[from..], state[from..])) == was[..from] + state[from..]
    decreases |schema| - from
  {
    if from < |schema| {
      LinesStep(schema, state, from);
      var line, rest := Line(schema[from], state[from]), Lines(schema[from + 1..], state[from + 1..]);
      assert ([line] + rest)[0] == line && ([line] + rest)[1..] == rest;
      AbsorbOwnLine(schema, was, from, state[from]);
      AbsorbSuffix(schema, was[from := state[from]], state, from + 1);
      SpliceStep(was, state, from);
    }
  }

  lemma FormatLineIgnored(schema: seq<Field>, was: seq<Value>)
    requires GoodSchema(schema) && |was| == |schema|
    ensures Absorb(schema, was, "format=7") == was
  {
    IndexOfAt("format", '=', "7");
    assert "format=7" == "format" + ['='] + "7";
    assert "format=7"[..6] == "format";
  }

  /** Main result: whatever the record was initialised to, reading a written record
      gives back every field, for every schema with distinct keys and every state
      that fits its fields. */
  lemma ReadAfterWrite(schema: seq<Field>, initial: seq<Value>, state: seq<Value>)
    requires GoodSchema(schema) && AllFit(schema, state) && |initial| == |schema|
    ensures Read(schema, initial, Contents(schema, state)) == state
  {
    TokensOfBody(schema, state);
    assert Contents(schema, state) == "format=7" + "\n" + Body(schema, state);
    TokensOfLine("format=7", Body(schema, state));
    FormatLineIgnored(schema, initial);
    var lines := Tokens(Contents(schema, state));
    assert lines[0] == "format=7" && lines[1..] == Lines(schema, state);
    assert schema[0..] == schema && state[0..] == state;
    AbsorbSuffix(schema, initial, state, 0);
    assert initial[..0] + state[0..] == state;
  }

  // ------------------------------------------------ records with fields missing

  /** The lines of some of the fields, in any order. */
  function PartOf(schema: seq<Field>, state: seq<Value>, picks: seq<nat>): string
    requires AllFit(schema, state) && forall i :: 0 <= i < |picks| ==> picks[i] < |schema|
  {
    if picks == [] then "" else Line(schema[picks[0]], state[picks[0]]) + "\n" + PartOf(schema, state, picks[1..])
  }

  /** A record that holds some fields in some order, each as often as it likes: those are
      read as written, and all others keep what they were initialised to. */
  lemma {:induction false} PartialRecord(schema: seq<Field>, initial: seq<Value>, state: seq<Value>, picks: seq<nat>)
    requires GoodSchema(schema) && AllFit(schema, state) && |initial| == |schema|
    requires forall i :: 0 <= i < |picks| ==> picks[i] < |schema|
    ensures var r := Read(schema, initial, PartOf(schema, state, picks));
            forall i :: 0 <= i < |schema| ==> r[i] == if i in picks then state[i] else initial[i]
    decreases |picks|
  {
    if picks != [] {
      var k, rest := picks[0], picks[1..];
      var line := Line(schema[k], state[k]);
      FieldRoundTrip(schema[k].kind, state[k], state[k]);
      TokensOfLine(line, PartOf(schema, state, rest));
      var lines := Tokens(PartOf(schema, state, picks));
      assert lines[0] == line && lines[1..] == Tokens(PartOf(schema, state, rest));
      AbsorbOwnLine(schema, initial, k, state[k]);
      PartialRecord(schema, initial[k := state[k]], state, rest);
      assert forall i :: i in picks <==> i == k || i in rest;
    }
  }

  ghost predicate NoField(schema: seq<Field>, line: string)
  {
    '=' !in line || forall i :: 0 <= i < |schema| ==> schema[i].key != line[..IndexOf(line, '=')]
  }

  lemma JunkAlone(schema: seq<Field>, was: seq<Value>, junk: string)
    requires |was| == |schema| && NoField(schema, junk)
    ensures Absorb(schema, was, junk) == was
  {
    var eq := IndexOf(junk, '=');
    if eq < |junk| { assert junk[eq] in junk; }
  }

  lemma {:induction false} AbsorbAppend(schema: seq<Field>, was: seq<Value>, a: seq<string>, b: seq<string>)
    requires |was| == |schema|
    ensures AbsorbAll(schema, was, a + b) == AbsorbAll(schema, AbsorbAll(schema, was, a), b)
    decreases |a|
  {
    if a == [] {
      assert a + b == b;
    } else {
      assert (a + b)[0] == a[0] && (a + b)[1..] == a[1..] + b;
      AbsorbAppend(schema, Absorb(schema, was, a[0]), a[1..], b);
    }
  }

  /** A line that is no field of the schema changes nothing, wherever it stands. */
  lemma JunkIsIgnored(schema: seq<Field>, was: seq<Value>, before: seq<string>, junk: string, after: seq<string>)
    requires |was| == |schema| && NoField(schema, junk)
    ensures AbsorbAll(schema, was, before + ([junk] + after)) == AbsorbAll(schema, was, before + after)
  {
    var middle := AbsorbAll(schema, was, before);
    AbsorbAppend(schema, was, before, [junk] + after);
    AbsorbAppend(schema, was, before, after);
    JunkAlone(schema, middle, junk);
    assert ([junk] + after)[0] == junk && ([junk] + after)[1..] == after;
  }

  /** Whatever a line holds, texts stay within their buffers, as the longest beginning
      that fits, and pids and counters within their types. */
  lemma ParsedFits(k: Kind, value: string, was: Value)
    requires '\n' !in value && (if k.Text? then k.size > 0 else (k.Pid? || k.Counter?) && Fits(k, was))
    ensures Fits(k, Parse(k, value, was))
    ensures k.Text? ==> Parse(k, value, was).text <= value && (|value| >= k.size ==> |Parse(k, value, was).text| == k.size - 1)
    ensures k.Text? && |value| < k.size ==> Parse(k, value, was).text == value
  {
    if k.Text? && |value| >= k.size { assert forall c :: c in value[..k.size - 1] ==> c in value; }
  }

  // -------------------------------------------------------------- the real file

  const FIELDS: nat := 20

  /** The fields of `LauncherState` in file order, with their buffer sizes. */
  function FieldAt(i: nat): Field
    requires i < FIELDS
  {
    match i
    case 0 => Field("state", Text(24))
    case 1 => Field("cgroup_mode", Text(16))
    case 2 => Field("host_usb_mode", Text(16))
    case 3 => Field("launch_mode", Text(16))
    case 4 => Field("supervisor_pid", Pid)
    case 5 => Field("supervisor_start_ticks", Counter)
    case 6 => Field("supervisor_exe_dev", Counter)
    case 7 => Field("supervisor_exe_ino", Counter)
    case 8 => Field("init_host_pid", Pid)
    case 9 => Field("init_start_ticks", Counter)
    case 10 => Field("init_exe_dev", Counter)
    case 11 => Field("init_exe_ino", Counter)
    case 12 => Field("init_pid_ns_ino", Counter)
    case 13 => Field("init_mnt_ns_ino", Counter)
    case 14 => Field("init_uts_ns_ino", Counter)
    case 15 => Field("init_ipc_ns_ino", Counter)
    case 16 => Field("init_cgroup_ns_ino", Counter)
    case 17 => Field("init_net_ns_ino", Counter)
    case 18 => Field("wait_status", Status)
    case _ => Field("updated_epoch", Epoch)
  }

  function Schema(): (r: seq<Field>)
  {
    seq(FIELDS, i requires 0 <= i < FIELDS => FieldAt(i))
  }

  function MaxLength(k: Kind): nat
  {
    match k
    case Text(size) => if size == 0 then 0 else size - 1
    case Pid => 10
    case Counter => 20
    case Status => 11
    case Epoch => 20
  }

  lemma PrintLength(k: Kind, v: Value)
    requires Fits(k, v)
    ensures |Print(k, v)| <= MaxLength(k)
  {
    if v.Num? {
      var m: nat := if v.n < 0 then -v.n else v.n;
      assert Pow10(10) == 10_000_000_000 && Pow10(20) == 100_000_000_000_000_000_000 && Pow10(19) == 10_000_000_000_000_000_000;
      DecimalLength(m, match k case Pid => 10 case Counter => 20 case Status => 10 case _ => 19);
    }
  }

  function MaxBody(schema: seq<Field>): nat
  {
    if schema == [] then 0 else |schema[0].key| + 2 + MaxLength(schema[0].kind) + MaxBody(schema[1..])
  }

  lemma {:induction false} BodyLength(schema: seq<Field>, state: seq<Value>)
    requires AllFit(schema, state)
    ensures |Body(schema, state)| <= MaxBody(schema)
  {
    if schema != [] {
      PrintLength(schema[0].kind, state[0]);
      BodyLength(schema[1..], state[1..]);
    }
  }

  /** A fingerprint of a key: its first character, the one a third of the way in and
      three times the last, added up.  The sum differs for all twenty keys, so that
      comparing twenty numbers shows the keys distinct. */
  function Mark(key: string): nat
    requires |key| >= 3
  {
    key[0] as int + key[|key| / 3] as int + 3 * key[|key| - 1] as int
  }

  predicate Plain(key: string)
  {
    forall i :: 0 <= i < |key| ==> key[i] == '_' || 'a' <= key[i] <= 'z'
  }

  predicate GoodKey(key: string, mark: nat)
  {
    3 <= |key| <= 22 && key[0] != 'f' && Plain(key) && Mark(key) == mark
  }

  /** The fingerprints of the keys, in file order. */
  const MARKS: seq<nat> := [534, 513, 502, 521, 529, 575, 574, 553, 500, 565, 554, 533, 550, 547, 555, 543, 541, 548, 580, 545]

  lemma Keys0()
    ensures GoodKey("state", 534)
    ensures GoodKey("cgroup_mode", 513)
    ensures GoodKey("host_usb_mode", 502)
    ensures GoodKey("launch_mode", 521)
    ensures GoodKey("supervisor_pid", 529)
  {
  }

  lemma Keys5()
    ensures GoodKey("supervisor_start_ticks", 575)
    ensures GoodKey("supervisor_exe_dev", 574)
    ensures GoodKey("supervisor_exe_ino", 553)
    ensures GoodKey("init_host_pid", 500)
    ensures GoodKey("init_start_ticks", 565)
  {
  }

  lemma Keys10()
    ensures GoodKey("init_exe_dev", 554)
    ensures GoodKey("init_exe_ino", 533)
    ensures GoodKey("init_pid_ns_ino", 550)
    ensures GoodKey("init_mnt_ns_ino", 547)
    ensures GoodKey("init_uts_ns_ino", 555)
  {
  }

  lemma Keys15()
    ensures GoodKey("init_ipc_ns_ino", 543)
    ensures GoodKey("init_cgroup_ns_ino", 541)
    ensures GoodKey("init_net_ns_ino", 548)
    ensures GoodKey("wait_status", 580)
    ensures GoodKey("updated_epoch", 545)
  {
  }

  lemma FieldIsGood(i: nat)
    requires i < FIELDS
    ensures GoodKey(FieldAt(i).key, MARKS[i])
  {
    Keys0();
    Keys5();
    Keys10();
    Keys15();
  }

  lemma MarksDiffer(i: nat, j: nat)
    requires i < j < FIELDS
    ensures MARKS[i] != MARKS[j]
  {
  }

  lemma SchemaIsGood()
    ensures GoodSchema(Schema())
  {
    forall i: nat | i < FIELDS ensures GoodKey(FieldAt(i).key, MARKS[i]) { FieldIsGood(i); }
    forall i, j | 0 <= i < j < FIELDS ensures Schema()[i].key != Schema()[j].key {
      FieldIsGood(i);
      FieldIsGood(j);
      MarksDiffer(i, j);
    }
  }

  lemma {:induction false} MaxBodyBound(schema: seq<Field>)
    requires forall i :: 0 <= i < |schema| ==> |schema[i].key| + 2 + MaxLength(schema[i].kind) <= 47
    ensures MaxBody(schema) <= 47 * |schema|
  {
    if schema != [] { MaxBodyBound(schema[1..]); }
  }

  /** The record never overflows the 1024-byte print buffer nor the 4096-byte read
      buffer, and reading it back recovers every field of `LauncherState`. */
  lemma LauncherRecordRoundTrip(initial: seq<Value>, state: seq<Value>)
    requires AllFit(Schema(), state) && |initial| == FIELDS
    ensures |Contents(Schema(), state)| < 1024
    ensures Read(Schema(), initial, Contents(Schema(), state)) == state
  {
    SchemaIsGood();
    ReadAfterWrite(Schema(), initial, state);
    forall i | 0 <= i < FIELDS ensures |Schema()[i].key| + 2 + MaxLength(Schema()[i].kind) <= 47 {
      FieldIsGood(i);
    }
    MaxBodyBound(Schema());
    BodyLength(Schema(), state);
  }

  /** The condition on pids is needed: a negative one is printed but never read back. */
  lemma NegativePidIsLost(n: int, was: Value)
    requires n < 0
    ensures Parse(Pid, Signed(n), was) == was
  {
    assert Signed(n)[0] == '-';
  }

  // ------------------------------------------------------- the file on the disk

  /** What `write` may answer: part of the bytes, EINTR, or another error. */
  datatype Answer = Wrote(count: nat) | Interrupted | Failed

  /** The control directory. `moments` is every directory content that any other
      process, or a reader after a crash, can ever have seen. */
  class Directory {
    var files: map<string, string>
    ghost var moments: seq<map<string, string>>

    constructor (initial: map<string, string>)
      ensures files == initial && moments == [initial]
    {
      files := initial;
      moments := [initial];
    }

    /** One system call that replaces the directory content. */
    method Put(next: map<string, string>)
      modifies this
      ensures files == next && moments == old(moments) + [next]
    {
      files := next;
      moments := moments + [next];
    }

    /** `write_all`: the answers the kernel gives, then whole writes once the list
        is used up. */
    method WriteAll(name: string, contents: string, answers: seq<Answer>) returns (ok: bool)
      requires name in files && files[name] == []
      modifies this
      ensures ok ==> files == old(files)[name := contents]
      ensures name in files && files - {name} == old(files) - {name}
      ensures ok <==> AllTaken(answers, |contents|)
      ensures |moments| >= |old(moments)| && moments[..|old(moments)|] == old(moments)
      ensures forall k :: |old(moments)| <= k < |moments| ==> moments[k] - {name} == old(files) - {name}
    {
      var offset, turn := 0, 0;
      ok := true;
      while offset < |contents|
        invariant offset <= |contents| && turn <= |answers|
        invariant files == old(files)[name := contents[..offset]]
        invariant AllTaken(answers, |contents|) == AllTaken(answers[turn..], |contents| - offset)
        invariant |moments| >= |old(moments)| && moments[..|old(moments)|] == old(moments)
        invariant forall k :: |old(moments)| <= k < |moments| ==> moments[k] - {name} == old(files) - {name}
        decreases |contents| - offset + |answers| - turn
      {
        var answer := if turn < |answers| then answers[turn] else Wrote(|contents| - offset);
        if turn < |answers| {
          assert answers[turn..][1..] == answers[turn + 1..];
          turn := turn + 1;
        }
        match answer {
          case Failed => return false;
          case Interrupted =>
          case Wrote(count) =>
            var n := if count <= |contents| - offset then count else |contents| - offset;
            offset := offset + n;
            Put(files[name := contents[..offset]]);
        }
      }
      assert contents[..offset] == contents;
    }

    /** `write_state`, with the outcome of every system call as a parameter. */
    method WriteState(destination: string, temporary: string, state: seq<Value>, now: int,
                      answers: seq<Answer>, synced: bool, renamed: bool, unlinked: bool)
        returns (ok: bool)
      requires AllFit(Schema(), state) && Fits(Epoch, Num(now)) && destination != temporary
      modifies this
      ensures AllFit(Schema(), Stamped(state, now))
      ensures ok <==> temporary !in old(files) && AllTaken(answers, |Contents(Schema(), Stamped(state, now))|)
                      && synced && renamed
      // success: the new record is in place and nothing else changed
      ensures ok ==> files == old(files)[destination := Contents(Schema(), Stamped(state, now))]
      // failure: the directory is as before, and the temporary file is gone if it could be
      ensures !ok ==> files - {temporary} == old(files) - {temporary}
      ensures !ok && (unlinked || temporary in old(files)) ==> files == old(files)
      // at every moment of the call: the whole old record or the whole new one
      ensures |moments| >= |old(moments)| && moments[..|old(moments)|] == old(moments)
      ensures forall k :: |old(moments)| <= k < |moments| ==>
                OldOrNew(moments[k], old(files), destination, temporary, Stamped(state, now))
    {
      var record := Stamped(state, now);
      StampedFits(state, now);
      var contents := Contents(Schema(), record);
      ghost var before := files;
      if temporary in files {
        return false;
      }
      Put(files[temporary := ""]);
      assert files - {temporary} == before;
      var written := WriteAll(temporary, contents, answers);
      assert files - {temporary} == before;
      if !written || !synced {
        if unlinked { Put(files - {temporary}); }
        return false;
      }
      if !renamed {
        if unlinked { Put(files - {temporary}); }
        return false;
      }
      Put((files - {temporary})[destination := contents]);
      return true;
    }
  }

  function Stamped(state: seq<Value>, now: int): (r: seq<Value>)
    requires |state| == FIELDS
    ensures |r| == FIELDS
    ensures forall i :: 0 <= i < FIELDS ==> r[i] == if i == 19 then Num(now) else state[i]
  {
    state[FIELDS - 1 := Num(now)]
  }

  lemma StampedFits(state: seq<Value>, now: int)
    requires AllFit(Schema(), state) && Fits(Epoch, Num(now))
    ensures AllFit(Schema(), Stamped(state, now))
  {
    assert FieldAt(FIELDS - 1).kind == Epoch;
  }

  /** `initialize_state`. */
  function Initial(clock: int): (r: seq<Value>)
    ensures |r| == FIELDS
  {
    seq(FIELDS, i requires 0 <= i < FIELDS =>
      if i < 3 then Str("unknown") else if i == 3 then Str("systemd")
      else if i == 18 then Num(-1) else if i == 19 then Num(clock) else Num(0))
  }

  /** `read_state`: None when the file is missing or empty; at most 4095 bytes are read. */
  function ReadState(files: map<string, string>, path: string, clock: int): Option<seq<Value>>
  {
    if path !in files || files[path] == [] then None
    else
      var text := files[path];
      Some(Read(Schema(), Initial(clock), if |text| <= 4095 then text else text[..4095]))
  }

  /** `read_state` fails exactly on a missing or empty file, and reads every record of up
      to 4095 bytes to its end. */
  lemma ReadStateIff(files: map<string, string>, path: string, clock: int)
    ensures ReadState(files, path, clock) == None <==> path !in files || files[path] == ""
    ensures path in files && 0 < |files[path]| <= 4095 ==>
              ReadState(files, path, clock) == Some(Read(Schema(), Initial(clock), files[path]))
  {
  }

  /** A record without a launch mode, as older launchers wrote it, is one of systemd; one
      without an init or a supervisor has none. */
  lemma OldRecordDefaults(state: seq<Value>, picks: seq<nat>, clock: int)
    requires AllFit(Schema(), state) && forall i :: 0 <= i < |picks| ==> picks[i] < FIELDS
    ensures var r := Read(Schema(), Initial(clock), PartOf(Schema(), state, picks));
            && (3 !in picks ==> r[3] == Str("systemd"))
            && (0 !in picks ==> r[0] == Str("unknown"))
            && (forall i :: 4 <= i < 18 && i !in picks ==> r[i] == Num(0))
            && (18 !in picks ==> r[18] == Num(-1))
            && (forall i :: 0 <= i < FIELDS && i in picks ==> r[i] == state[i])
  {
    SchemaIsGood();
    PartialRecord(Schema(), Initial(clock), state, picks);
  }

  /** The directory apart from the temporary file is the old one, or the whole new
      record is in place. */
  ghost predicate OldOrNew(seen: map<string, string>, before: map<string, string>,
                           path: string, temporary: string, state: seq<Value>)
    requires AllFit(Schema(), state)
  {
    seen - {temporary} == before || seen == before[path := Contents(Schema(), state)]
  }

  /** What a concurrent `read_state` therefore returns: the old answer or exactly
      the state being written, never a mixture. */
  lemma ReaderSeesOldOrNew(seen: map<string, string>, before: map<string, string>,
                           path: string, temporary: string, state: seq<Value>, clock: int)
    requires AllFit(Schema(), state) && path != temporary
    requires OldOrNew(seen, before, path, temporary, state)
    ensures ReadState(seen, path, clock) in {ReadState(before, path, clock), Some(state)}
  {
    if seen - {temporary} == before {
      assert path in seen <==> path in before;
      assert path in seen ==> seen[path] == before[path];
    } else {
      LauncherRecordRoundTrip(Initial(clock), state);
    }
  }

  /** Whether the answers let `remaining` bytes out before an error. */
  function AllTaken(answers: seq<Answer>, remaining: nat): bool
  {
    if remaining == 0 || answers == [] then true
    else match answers[0]
      case Failed => false
      case Interrupted => AllTaken(answers[1..], remaining)
      case Wrote(count) => AllTaken(answers[1..], if count <= remaining then remaining - count else 0)
  }
}
