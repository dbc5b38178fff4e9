/** The validator of authorized_keys text, and why it accepts every public-key line
    the key generator writes. */
module AuthorizedKeys {
  import opened Options
  import opened Bytes
  import opened Text
  import Base64
  import SshKey

  const MAX_BYTES: nat := 32768
  const MAX_KEYS: nat := 32
  const MAX_LINE: nat := 16384

  const ALLOWED_TYPES: set<string> := {
    "ssh-ed25519", "ssh-rsa", "ecdsa-sha2-nistp256", "ecdsa-sha2-nistp384", "ecdsa-sha2-nistp521",
    "sk-ssh-ed25519@openssh.com", "sk-ecdsa-sha2-nistp256@openssh.com"}

  /** What is saved. */
  datatype Saved = Saved(count: nat, contents: string)

  // ---------------------------------------------------------------------- text

  /** CR LF and lone CR become LF. */
  function Newlines(s: string): string
    decreases |s|
  {
    if s == [] then ""
    else if s[0] == '\r' then "\n" + Newlines(if |s| > 1 && s[1] == '\n' then s[2..] else s[1..])
    else [s[0]] + Newlines(s[1..])
  }

  function NewlineAt(s: string): (n: nat)
    ensures n <= |s| && forall i :: 0 <= i < n ==> s[i] != '\n'
    ensures n < |s| ==> s[n] == '\n'
  {
    if s == [] || s[0] == '\n' then 0 else 1 + NewlineAt(s[1..])
  }

  /** `split("\n", -1)`. */
  function Lines(s: string): (r: seq<string>)
    decreases |s|
  {
    var n := NewlineAt(s);
    if n == |s| then [s] else [s[..n]] + Lines(s[n + 1..])
  }

  function SpaceAt(s: string): (n: nat)
    ensures n <= |s|
    ensures forall i :: 0 <= i < n ==> !IsSpace(s[i])
    ensures n < |s| ==> IsSpace(s[n])
  {
    if s == [] || IsSpace(s[0]) then 0 else 1 + SpaceAt(s[1..])
  }

  function SkipSpace(s: string): string
  {
    if s == [] || !IsSpace(s[0]) then s else SkipSpace(s[1..])
  }

  /** UTF-16 units, and bytes of UTF-8. */
  function Units(s: string): nat
  {
    if s == [] then 0 else Units(s[..|s| - 1]) + if s[|s| - 1] as int < 0x1_0000 then 1 else 2
  }

  function Utf8(s: string): nat
  {
    if s == [] then 0
    else
      var c := s[|s| - 1] as int;
      Utf8(s[..|s| - 1]) + if c < 0x80 then 1 else if c < 0x800 then 2 else if c < 0x1_0000 then 3 else 4
  }

  // ------------------------------------------------------------------ one line

  /** The pattern `[A-Za-z0-9+/]+={0,2}`. */
  predicate IsBase64Text(s: string)
  {
    var n := |s|;
    var core := if n >= 2 && s[n - 1] == '=' && s[n - 2] == '=' then s[..n - 2]
                else if n >= 1 && s[n - 1] == '=' then s[..n - 1] else s;
    core != [] && forall i :: 0 <= i < |core| ==> Base64.IsLetter(core[i])
  }

  function AsciiChar(b: byte): char
  {
    if b < 128 then b as char else '\U{FFFD}'
  }

  function AsText(b: seq<byte>): (r: string)
    ensures |r| == |b|
  {
    seq(|b|, i requires 0 <= i < |b| => AsciiChar(b[i]))
  }

  /** `validateBlobType`. */
  predicate BlobHasType(declared: string, blob: seq<byte>)
  {
    |blob| >= 5 &&
    var n := GetU32(blob, 0);
    0 < n <= |blob| - 4 && n <= 256 && AsText(blob[4..4 + n]) == declared
  }

  /** A trimmed line that is one bare public key. */
  predicate IsKeyLine(line: string)
  {
    var n := SpaceAt(line);
    Units(line) <= MAX_LINE && n < |line| && line[..n] in ALLOWED_TYPES &&
    var rest := SkipSpace(line[n..]);
    var text := rest[..SpaceAt(rest)];
    IsBase64Text(text) && Base64.Decode(text).Some? && BlobHasType(line[..n], Base64.Decode(text).value)
  }

  predicate Ignored(line: string)
  {
    line == [] || line[0] == '#'
  }

  // ------------------------------------------------------------------ the loop

  /** One line that counts: refused, or appended within the two limits. */
  function Accept(isKey: string -> bool, line: string, now: Saved): (r: Option<Saved>)
    ensures r.Some? ==> WithinLimits(r.value)
  {
    var more := Saved(now.count + 1, now.contents + line + "\n");
    if isKey(line) && WithinLimits(more) then Some(more) else None
  }

  predicate WithinLimits(s: Saved)
  {
    s.count <= MAX_KEYS && Utf8(s.contents) <= MAX_BYTES
  }

  /** The line loop, for any test of a trimmed line. */
  function Process(isKey: string -> bool, lines: seq<string>, now: Saved): Option<Saved>
    decreases |lines|
  {
    if lines == [] then Some(now)
    else
      var line := Trim(lines[0]);
      if Ignored(line) then Process(isKey, lines[1..], now)
      else
        var next :- Accept(isKey, line, now);
        Process(isKey, lines[1..], next)
  }

  const NOTHING: Saved := Saved(0, "")

  /** One turn of the loop. */
  lemma ProcessAt(isKey: string -> bool, lines: seq<string>, k: nat, now: Saved)
    requires k < |lines|
    ensures Process(isKey, lines[k..], now) ==
            if Ignored(Trim(lines[k])) then Process(isKey, lines[k + 1..], now)
            else if Accept(isKey, Trim(lines[k]), now).None? then None
            else Process(isKey, lines[k + 1..], Accept(isKey, Trim(lines[k]), now).value)
  {
    assert lines[k..][0] == lines[k] && lines[k..][1..] == lines[k + 1..];
  }

  /** The body of the loop on a line that counts. */
  method AcceptLine(isKey: string -> bool, line: string, keyCount: nat, normalized: string) returns (r: Option<Saved>)
    ensures r == Accept(isKey, line, Saved(keyCount, normalized))
  {
    if !isKey(line) { return None; }
    var count := keyCount + 1;
    if count > MAX_KEYS { return None; }
    var text := normalized + line + "\n";
    if Utf8(text) > MAX_BYTES { return None; }
    return Some(Saved(count, text));
  }

  method ProcessLines(isKey: string -> bool, lines: seq<string>) returns (r: Option<Saved>)
    ensures r == Process(isKey, lines, NOTHING)
  {
    var now := NOTHING;
    ghost var target := Process(isKey, lines, NOTHING);
    assert lines[0..] == lines;
    for k := 0 to |lines|
      invariant Process(isKey, lines[k..], now) == target
    {
      var line := Trim(lines[k]);
      ProcessAt(isKey, lines, k, now);
      if !Ignored(line) {
        var next := AcceptLine(isKey, line, now.count, now.contents);
        if next.None? { return None; }
        now := next.value;
      }
    }
    return Some(now);
  }

  /** The validator, for any test of a trimmed line. */
  function ValidateWith(isKey: string -> bool, text: string): Option<Saved>
  {
    if '\0' in text then None
    else
      var r :- Process(isKey, Lines(Newlines(text)), NOTHING);
      if r.count == 0 then None else Some(r)
  }

  function Validate(input: Option<string>): Option<Saved>
  {
    if input.None? then None else ValidateWith(IsKeyLine, input.value)
  }

  /** `validateAndSave`, up to writing the file. */
  method ValidateText(input: Option<string>) returns (r: Option<Saved>)
    ensures r == Validate(input)
  {
    if input.None? || '\0' in input.value { return None; }
    r := ProcessLines(IsKeyLine, Lines(Newlines(input.value)));
    if r.Some? && r.value.count == 0 { return None; }
  }

  // ------------------------------------------------------------------- meaning

  /** The trimmed lines that are neither blank nor comments. */
  function Kept(lines: seq<string>): seq<string>
    decreases |lines|
  {
    if lines == [] then []
    else (if Ignored(Trim(lines[0])) then [] else [Trim(lines[0])]) + Kept(lines[1..])
  }

  function Unlines(lines: seq<string>): string
  {
    if lines == [] then "" else lines[0] + "\n" + Unlines(lines[1..])
  }

  ghost predicate AllKeys(isKey: string -> bool, lines: seq<string>)
  {
    forall i :: 0 <= i < |lines| ==> isKey(lines[i])
  }

  lemma {:induction false} Utf8Grows(a: string, b: string)
    ensures Utf8(a) <= Utf8(a + b)
    decreases |b|
  {
    if b == [] {
      assert a + b == a;
    } else {
      Utf8Grows(a, b[..|b| - 1]);
      assert (a + b)[..|a + b| - 1] == a + b[..|b| - 1];
    }
  }

  /** What the loop should give: the kept lines, if all are keys within the limits. */
  ghost function Expected(isKey: string -> bool, kept: seq<string>, now: Saved): Option<Saved>
  {
    var all := Saved(now.count + |kept|, now.contents + Unlines(kept));
    if AllKeys(isKey, kept) && WithinLimits(all) then Some(all) else None
  }

  lemma ExpectedNone(isKey: string -> bool, now: Saved)
    requires WithinLimits(now)
    ensures Expected(isKey, [], now) == Some(now)
  {
    assert now.contents + "" == now.contents;
  }

  lemma ExpectedStep(isKey: string -> bool, line: string, rest: seq<string>, now: Saved)
    ensures Expected(isKey, [line] + rest, now) ==
            if Accept(isKey, line, now).None? then None else Expected(isKey, rest, Accept(isKey, line, now).value)
  {
    var kept, more := [line] + rest, now.contents + line + "\n";
    assert kept[0] == line && kept[1..] == rest;
    assert now.contents + Unlines(kept) == more + Unlines(rest);
    Utf8Grows(more, Unlines(rest));
  }

  lemma KeptCons(lines: seq<string>)
    requires lines != []
    ensures Kept(lines) == if Ignored(Trim(lines[0])) then Kept(lines[1..]) else [Trim(lines[0])] + Kept(lines[1..])
  {
  }

  /** The loop accepts exactly when every kept line is a key and the two limits hold,
      and then it has saved the kept lines in order. */
  lemma {:induction false} ProcessMeaning(isKey: string -> bool, lines: seq<string>, now: Saved)
    requires WithinLimits(now)
    ensures Process(isKey, lines, now) == Expected(isKey, Kept(lines), now)
    decreases |lines|
  {
    if lines == [] {
      ExpectedNone(isKey, now);
    } else {
      var line := Trim(lines[0]);
      KeptCons(lines);
      if Ignored(line) {
        ProcessMeaning(isKey, lines[1..], now);
      } else {
        ExpectedStep(isKey, line, Kept(lines[1..]), now);
        var next := Accept(isKey, line, now);
        if next.Some? { ProcessMeaning(isKey, lines[1..], next.value); }
      }
    }
  }

  /** The lines of a text that count. */
  function KeptOf(text: string): seq<string>
  {
    Kept(Lines(Newlines(text)))
  }

  ghost predicate Acceptable(isKey: string -> bool, text: string)
  {
    && '\0' !in text && AllKeys(isKey, KeptOf(text)) && 1 <= |KeptOf(text)| <= MAX_KEYS
    && Utf8(Unlines(KeptOf(text))) <= MAX_BYTES
  }

  lemma ValidateWithMeaning(isKey: string -> bool, text: string)
    ensures ValidateWith(isKey, text) ==
            if Acceptable(isKey, text) then Some(Saved(|KeptOf(text)|, Unlines(KeptOf(text)))) else None
  {
    ProcessMeaning(isKey, Lines(Newlines(text)), NOTHING);
    assert "" + Unlines(KeptOf(text)) == Unlines(KeptOf(text));
  }

  /** Main result: a text is accepted exactly when it has no NUL, between one and 32
      lines besides blanks and comments, each a bare supported key, and fits in 32 KiB;
      what is saved is those lines, trimmed, in order. */
  lemma ValidateMeaning(text: string)
    ensures Validate(Some(text)) ==
            if Acceptable(IsKeyLine, text) then Some(Saved(|KeptOf(text)|, Unlines(KeptOf(text)))) else None
  {
    ValidateWithMeaning(IsKeyLine, text);
  }

  // ----------------------------------------------------- what is saved is stable

  /** A line as it is saved. */
  ghost predicate Settled(line: string)
  {
    '\n' !in line && '\r' !in line && '\0' !in line && !Ignored(line) && Trim(line) == line
  }

  ghost predicate AllSettled(lines: seq<string>)
  {
    forall i :: 0 <= i < |lines| ==> Settled(lines[i])
  }

  lemma {:induction false} NewlinesChars(s: string)
    ensures '\r' !in Newlines(s)
    ensures '\0' !in s ==> '\0' !in Newlines(s)
    decreases |s|
  {
    if s != [] {
      NewlinesChars(if s[0] == '\r' && |s| > 1 && s[1] == '\n' then s[2..] else s[1..]);
    }
  }

  lemma {:induction false} NewlinesStay(s: string)
    requires '\r' !in s
    ensures Newlines(s) == s
    decreases |s|
  {
    if s != [] { NewlinesStay(s[1..]); }
  }

  /** A character that the text lacks, every line lacks; a newline, every line lacks. */
  lemma {:induction false} LinesLack(s: string, c: char, i: nat)
    requires (c == '\n' || c !in s) && i < |Lines(s)|
    ensures c !in Lines(s)[i]
    decreases |s|
  {
    var n := NewlineAt(s);
    if n == |s| {
      assert s[..n] == s;
    } else if i > 0 {
      LinesLack(s[n + 1..], c, i - 1);
    }
  }

  lemma {:induction false} TrimLeftIs(s: string)
    ensures TrimLeft(s) != [] ==> TrimLeft(s)[0] > ' '
    ensures forall c :: c in TrimLeft(s) ==> c in s
    decreases |s|
  {
    if s != [] && s[0] <= ' ' { TrimLeftIs(s[1..]); }
  }

  lemma {:induction false} TrimRightIs(s: string)
    ensures TrimRight(s) != [] ==> TrimRight(s)[|TrimRight(s)| - 1] > ' ' && TrimRight(s)[0] == s[0]
    ensures forall c :: c in TrimRight(s) ==> c in s
    decreases |s|
  {
    if s != [] && s[|s| - 1] <= ' ' { TrimRightIs(s[..|s| - 1]); }
  }

  lemma TrimSettles(line: string)
    requires '\n' !in line && '\r' !in line && '\0' !in line && !Ignored(Trim(line))
    ensures Settled(Trim(line))
  {
    TrimLeftIs(line);
    TrimRightIs(TrimLeft(line));
    TrimmedStays(Trim(line));
  }

  lemma {:induction false} KeptSettled(lines: seq<string>)
    requires forall i :: 0 <= i < |lines| ==> '\n' !in lines[i] && '\r' !in lines[i] && '\0' !in lines[i]
    ensures AllSettled(Kept(lines))
    decreases |lines|
  {
    if lines != [] {
      KeptSettled(lines[1..]);
      if !Ignored(Trim(lines[0])) { TrimSettles(lines[0]); }
    }
  }

  lemma KeptOfSettled(text: string)
    requires '\0' !in text
    ensures AllSettled(KeptOf(text))
  {
    NewlinesChars(text);
    var lines := Lines(Newlines(text));
    forall i | 0 <= i < |lines| ensures '\n' !in lines[i] && '\r' !in lines[i] && '\0' !in lines[i] {
      LinesLack(Newlines(text), '\n', i);
      LinesLack(Newlines(text), '\r', i);
      LinesLack(Newlines(text), '\0', i);
    }
    KeptSettled(lines);
  }

  lemma LinesCons(line: string, rest: string)
    requires '\n' !in line
    ensures Lines(line + "\n" + rest) == [line] + Lines(rest)
  {
    var s := line + "\n" + rest;
    var n := NewlineAt(s);
    assert s[|line|] == '\n';
    assert forall i :: 0 <= i < |line| ==> s[i] == line[i] && line[i] in line;
    assert n == |line|;
    assert s[..n] == line && s[n + 1..] == rest;
  }

  lemma Prepend(a: string, middle: seq<string>, z: string)
    ensures [a] + middle + [z] == [a] + (middle + [z])
  {
  }

  lemma {:induction false} LinesOfUnlines(lines: seq<string>)
    requires forall i :: 0 <= i < |lines| ==> '\n' !in lines[i]
    ensures Lines(Unlines(lines)) == lines + [""]
    decreases |lines|
  {
    if lines != [] {
      var rest := lines[1..];
      var tail := Unlines(rest);
      LinesOfUnlines(rest);
      assert Unlines(lines) == lines[0] + "\n" + tail;
      LinesCons(lines[0], tail);
      Prepend(lines[0], rest, "");
      assert lines == [lines[0]] + rest;
    }
  }

  lemma {:induction false} UnlinesLack(lines: seq<string>, c: char)
    requires c != '\n' && forall i :: 0 <= i < |lines| ==> c !in lines[i]
    ensures c !in Unlines(lines)
    decreases |lines|
  {
    if lines != [] { UnlinesLack(lines[1..], c); }
  }

  lemma {:induction false} KeptOfKept(lines: seq<string>)
    requires AllSettled(lines)
    ensures Kept(lines + [""]) == lines
    decreases |lines|
  {
    var all := lines + [""];
    if lines == [] {
      assert all[0] == "" && all[1..] == [];
    } else {
      assert all[0] == lines[0] && all[1..] == lines[1..] + [""];
      KeptOfKept(lines[1..]);
      assert lines == [lines[0]] + lines[1..];
    }
  }

  lemma KeptOfUnlines(lines: seq<string>)
    requires AllSettled(lines)
    ensures '\0' !in Unlines(lines) && KeptOf(Unlines(lines)) == lines
  {
    LinesOfUnlines(lines);
    UnlinesLack(lines, '\r');
    UnlinesLack(lines, '\0');
    NewlinesStay(Unlines(lines));
    KeptOfKept(lines);
  }

  /** Validating what was saved saves the same again. */
  lemma SavedIsStable(text: string)
    requires Validate(Some(text)).Some?
    ensures Validate(Some(Validate(Some(text)).value.contents)) == Validate(Some(text))
  {
    ValidateMeaning(text);
    KeptOfSettled(text);
    KeptOfUnlines(KeptOf(text));
    ValidateMeaning(Unlines(KeptOf(text)));
  }

  // -------------------------------------------------------- what a key line is

  /** The seven key types. */
  predicate Supported(kind: string)
  {
    || kind == "ssh-ed25519" || kind == "ssh-rsa"
    || kind == "ecdsa-sha2-nistp256" || kind == "ecdsa-sha2-nistp384" || kind == "ecdsa-sha2-nistp521"
    || kind == "sk-ssh-ed25519@openssh.com" || kind == "sk-ecdsa-sha2-nistp256@openssh.com"
  }

  ghost predicate Blank(s: string)
  {
    s != [] && forall i :: 0 <= i < |s| ==> IsSpace(s[i])
  }

  ghost predicate Unbroken(s: string)
  {
    forall i :: 0 <= i < |s| ==> !IsSpace(s[i])
  }

  /** The blob begins with the length and the characters of this type. */
  ghost predicate NamesType(blob: seq<byte>, kind: string)
  {
    |blob| >= 4 + |kind| && GetU32(blob, 0) == |kind| && forall i :: 0 <= i < |kind| ==> blob[4 + i] == kind[i] as int
  }

  /** A line cut into type, blanks, base64 text and the rest; the text decodes to `blob`. */
  ghost predicate Parts(line: string, kind: string, gap: string, text: string, rest: string, blob: seq<byte>)
  {
    && line == kind + gap + text + rest
    && Supported(kind) && Blank(gap) && Unbroken(text) && (rest != [] ==> IsSpace(rest[0]))
    && IsBase64Text(text) && Base64.Decode(text) == Some(blob) && NamesType(blob, kind)
  }

  ghost predicate IsKey(line: string)
  {
    Units(line) <= 16384 && exists kind, gap, text, rest, blob :: Parts(line, kind, gap, text, rest, blob)
  }

  ghost predicate Plain(s: string)
  {
    0 < |s| <= 256 && forall i :: 0 <= i < |s| ==> 32 < s[i] as int < 128
  }

  lemma SshTypesPlain()
    ensures Plain("ssh-ed25519") && Plain("ssh-rsa")
  {
  }

  lemma EcdsaTypesPlain()
    ensures Plain("ecdsa-sha2-nistp256") && Plain("ecdsa-sha2-nistp384") && Plain("ecdsa-sha2-nistp521")
  {
  }

  lemma SecurityKeyTypesPlain()
    ensures Plain("sk-ssh-ed25519@openssh.com") && Plain("sk-ecdsa-sha2-nistp256@openssh.com")
  {
  }

  lemma SupportedText(kind: string)
    requires Supported(kind)
    ensures Plain(kind) && Unbroken(kind)
  {
    SshTypesPlain();
    EcdsaTypesPlain();
    SecurityKeyTypesPlain();
    assert Plain(kind);
  }

  lemma AllowedIsSupported(kind: string)
    ensures kind in ALLOWED_TYPES <==> Supported(kind)
  {
  }

  lemma TypeIsNamed(kind: string, blob: seq<byte>)
    requires Supported(kind)
    ensures BlobHasType(kind, blob) <==> NamesType(blob, kind)
  {
    SupportedText(kind);
    if |blob| >= 4 + |kind| && GetU32(blob, 0) == |kind| {
      var text := AsText(blob[4..4 + |kind|]);
      assert forall i :: 0 <= i < |kind| ==> (text[i] == kind[i] <==> blob[4 + i] == kind[i] as int);
    }
  }

  /** Where the first word, the blanks after it and the next word end. */
  lemma SpaceAtWord(word: string, rest: string)
    requires Unbroken(word) && (rest != [] ==> IsSpace(rest[0]))
    ensures SpaceAt(word + rest) == |word|
  {
    var s := word + rest;
    assert forall i :: 0 <= i < |word| ==> s[i] == word[i];
    assert rest != [] ==> s[|word|] == rest[0];
  }

  lemma {:induction false} SkipBlank(gap: string, rest: string)
    requires (forall i :: 0 <= i < |gap| ==> IsSpace(gap[i])) && rest != [] && !IsSpace(rest[0])
    ensures SkipSpace(gap + rest) == rest
  {
    if gap == [] {
      assert gap + rest == rest;
    } else {
      assert (gap + rest)[1..] == gap[1..] + rest;
      SkipBlank(gap[1..], rest);
    }
  }

  lemma {:induction false} SkipSplits(s: string) returns (gap: string)
    ensures s == gap + SkipSpace(s) && (forall i :: 0 <= i < |gap| ==> IsSpace(gap[i]))
    ensures s != [] && IsSpace(s[0]) ==> gap != []
  {
    gap := "";
    if s != [] && IsSpace(s[0]) {
      var more := SkipSplits(s[1..]);
      gap := [s[0]] + more;
      assert s == [s[0]] + s[1..];
    }
  }

  /** How the validator cuts such a line. */
  lemma CutsInto(line: string, kind: string, gap: string, text: string, rest: string)
    requires line == kind + gap + text + rest
    requires Unbroken(kind) && Blank(gap) && Unbroken(text) && text != [] && (rest != [] ==> IsSpace(rest[0]))
    ensures SpaceAt(line) == |kind| < |line| && line[..|kind|] == kind
    ensures var words := SkipSpace(line[|kind|..]);
            words[..SpaceAt(words)] == text
  {
    var tail := gap + (text + rest);
    Regroup(line, kind, gap, text, rest);
    SpaceAtWord(kind, tail);
    SecondWord(gap, text, rest);
  }

  lemma Regroup(line: string, kind: string, gap: string, text: string, rest: string)
    requires line == kind + gap + text + rest && gap != []
    ensures var tail := gap + (text + rest);
            line == kind + tail && tail[0] == gap[0] && |kind| < |line| && line[..|kind|] == kind && line[|kind|..] == tail
  {
  }

  lemma SecondWord(gap: string, text: string, rest: string)
    requires Blank(gap) && Unbroken(text) && text != [] && (rest != [] ==> IsSpace(rest[0]))
    ensures var words := SkipSpace(gap + (text + rest));
            words[..SpaceAt(words)] == text
  {
    assert (text + rest)[0] == text[0];
    SkipBlank(gap, text + rest);
    SpaceAtWord(text, rest);
    assert (text + rest)[..|text|] == text;
  }

  lemma PartsAreKey(line: string, kind: string, gap: string, text: string, rest: string, blob: seq<byte>)
    requires Parts(line, kind, gap, text, rest, blob)
    ensures IsKeyLine(line) <==> Units(line) <= MAX_LINE
  {
    SupportedText(kind);
    AllowedIsSupported(kind);
    TypeIsNamed(kind, blob);
    CutsInto(line, kind, gap, text, rest);
  }

  lemma KeyHasParts(line: string)
    requires IsKeyLine(line)
    ensures IsKey(line)
  {
    var n := SpaceAt(line);
    var kind := line[..n];
    var gap := SkipSplits(line[n..]);
    var text, rest := Words(line, kind, gap);
    AllowedIsSupported(kind);
    TypeIsNamed(kind, Base64.Decode(text).value);
    assert Parts(line, kind, gap, text, rest, Base64.Decode(text).value);
  }

  lemma Words(line: string, kind: string, gap: string) returns (text: string, rest: string)
    requires SpaceAt(line) < |line| && kind == line[..SpaceAt(line)]
    requires line[SpaceAt(line)..] == gap + SkipSpace(line[SpaceAt(line)..])
    ensures line == kind + gap + text + rest && Unbroken(text) && (rest != [] ==> IsSpace(rest[0]))
    ensures var words := SkipSpace(line[SpaceAt(line)..]);
            text == words[..SpaceAt(words)]
  {
    var tail := line[SpaceAt(line)..];
    var words := SkipSpace(tail);
    text, rest := words[..SpaceAt(words)], words[SpaceAt(words)..];
    assert line == kind + tail && tail == gap + words && words == text + rest;
  }

  /** A line is a key exactly when it is at most 16384 units long and is one of the seven
      types, blanks, and base64 text of a blob that names that very type, with at most a
      comment after it. */
  lemma KeyLineIff(line: string)
    ensures IsKeyLine(line) <==> IsKey(line)
  {
    if IsKeyLine(line) { KeyHasParts(line); }
    if IsKey(line) {
      var kind, gap, text, rest, blob :| Parts(line, kind, gap, text, rest, blob);
      PartsAreKey(line, kind, gap, text, rest, blob);
    }
  }

  /** The two replacements of the source, one after the other. */
  function ReplaceCrLf(s: string): string
    decreases |s|
  {
    if s == [] then ""
    else if |s| >= 2 && s[0] == '\r' && s[1] == '\n' then "\n" + ReplaceCrLf(s[2..])
    else [s[0]] + ReplaceCrLf(s[1..])
  }

  function ReplaceCr(s: string): (r: string)
    ensures |r| == |s| && forall i :: 0 <= i < |s| ==> r[i] == if s[i] == '\r' then '\n' else s[i]
  {
    seq(|s|, i requires 0 <= i < |s| => if s[i] == '\r' then '\n' else s[i])
  }

  /** One pass does both. */
  lemma {:induction false} NewlinesIsBoth(s: string)
    ensures Newlines(s) == ReplaceCr(ReplaceCrLf(s))
    decreases |s|
  {
    if s != [] {
      var two := |s| >= 2 && s[0] == '\r' && s[1] == '\n';
      var rest := if two then s[2..] else s[1..];
      var first := if s[0] == '\r' then '\n' else s[0];
      NewlinesIsBoth(rest);
      assert Newlines(s) == [first] + Newlines(rest);
      assert ReplaceCrLf(s) == [if two then '\n' else s[0]] + ReplaceCrLf(rest);
    }
  }

  /** Exactly which texts are accepted, line by line. */
  lemma AcceptedIff(text: string)
    ensures Validate(Some(text)).Some? <==>
            && '\0' !in text && 1 <= |KeptOf(text)| <= 32 && Utf8(Unlines(KeptOf(text))) <= 32768
            && forall i :: 0 <= i < |KeptOf(text)| ==> IsKey(KeptOf(text)[i])
  {
    ValidateMeaning(text);
    forall i | 0 <= i < |KeptOf(text)| ensures IsKeyLine(KeptOf(text)[i]) <==> IsKey(KeptOf(text)[i]) {
      KeyLineIff(KeptOf(text)[i]);
    }
  }

  /** A line around a blob of another type is refused, whatever the two types are. */
  lemma OtherTypeRefused(kind: string, gap: string, text: string, rest: string, blob: seq<byte>)
    requires Unbroken(kind) && Blank(gap) && Unbroken(text) && text != [] && (rest != [] ==> IsSpace(rest[0]))
    requires Base64.Decode(text) == Some(blob) && !NamesType(blob, kind)
    ensures !IsKeyLine(kind + gap + text + rest)
  {
    CutsInto(kind + gap + text + rest, kind, gap, text, rest);
    AllowedIsSupported(kind);
    if Supported(kind) { TypeIsNamed(kind, blob); }
  }

  // ------------------------------------------------- the generator's public line

  const ED25519: string := "ssh-ed25519"
  const COMMENT: string := "dawnshell-client"

  /** Three words with one blank between them. */
  function Line3(a: string, b: string, c: string): string
  {
    a + " " + b + " " + c
  }

  /** The public-key line `generate` returns. */
  function PublicLine(public: seq<byte>): string
    requires |public| == 32
  {
    Line3(ED25519, Base64.Wrapped(Base64.Encode(SshKey.PublicBlob(public)), 0), COMMENT)
  }

  /** Printable words: every character above the blank. */
  ghost predicate Visible(s: string)
  {
    s != [] && forall i :: 0 <= i < |s| ==> s[i] > ' '
  }

  lemma SpaceAfter(a: string, rest: string)
    requires Visible(a)
    ensures SpaceAt(a + (" " + rest)) == |a|
  {
    var s := a + (" " + rest);
    assert s[|a|] == ' ' && forall i :: 0 <= i < |a| ==> s[i] == a[i];
  }

  lemma {:induction false} Line3Words(a: string, b: string, c: string)
    requires Visible(a) && Visible(b) && Visible(c)
    ensures var line := Line3(a, b, c);
            && SpaceAt(line) == |a| < |line| && line[..|a|] == a
            && var rest := SkipSpace(line[|a|..]);
               rest[..SpaceAt(rest)] == b
  {
    var line, tail := Line3(a, b, c), b + (" " + c);
    assert line == a + (" " + tail);
    SpaceAfter(a, tail);
    SpaceAfter(b, c);
    assert line[..|a|] == a && line[|a|..] == " " + tail;
    assert (" " + tail)[1..] == tail && tail[0] == b[0];
    assert SkipSpace(" " + tail) == SkipSpace(tail) == tail;
    assert tail[..|b|] == b;
  }

  lemma Line3Settled(a: string, b: string, c: string)
    requires Visible(a) && Visible(b) && Visible(c) && a[0] != '#'
    ensures Settled(Line3(a, b, c))
  {
    var line := Line3(a, b, c);
    assert line[0] == a[0] && line[|line| - 1] == c[|c| - 1];
    assert forall i :: 0 <= i < |line| ==> line[i] >= ' ';
    TrimmedStays(line);
  }

  lemma {:induction false} LengthBounds(s: string)
    ensures Units(s) <= 2 * |s| && Utf8(s) <= 4 * |s|
    decreases |s|
  {
    if s != [] { LengthBounds(s[..|s| - 1]); }
  }

  lemma TextCons(block: string, rest: string)
    requires |block| == 4 && (forall i :: 0 <= i < 4 ==> Base64.IsLetter(block[i])) && IsBase64Text(rest)
    ensures IsBase64Text(block + rest)
  {
  }

  lemma BlockIsText(b: seq<byte>)
    requires 1 <= |b| <= 3
    ensures IsBase64Text(Base64.Block(b))
    ensures |b| == 3 ==> forall i :: 0 <= i < 4 ==> Base64.IsLetter(Base64.Block(b)[i])
  {
    Base64.BlockLetters(b);
    assert !Base64.IsLetter('=');
  }

  lemma {:induction false} EncodeIsText(b: seq<byte>)
    requires b != []
    ensures IsBase64Text(Base64.Encode(b))
    decreases |b|
  {
    if |b| <= 3 {
      BlockIsText(b);
    } else {
      BlockIsText(b[..3]);
      EncodeIsText(b[3..]);
      TextCons(Base64.Block(b[..3]), Base64.Encode(b[3..]));
    }
  }

  lemma TypeText()
    ensures Visible(ED25519) && ED25519[0] != '#' && |ED25519| == 11
    ensures AsText(SshKey.KEY_TYPE) == ED25519
  {
  }

  lemma CommentText()
    ensures Visible(COMMENT) && |COMMENT| == 16
  {
  }

  lemma BlobIsEd25519(public: seq<byte>)
    requires |public| == 32
    ensures BlobHasType(ED25519, SshKey.PublicBlob(public))
  {
    var blob := SshKey.PublicBlob(public);
    assert blob[0..4] == PutU32(11);
    GetPutU32(blob, 0, 11);
    assert blob[4..15] == SshKey.KEY_TYPE;
    TypeText();
  }

  lemma KeyLineOf(a: string, b: string, c: string, blob: seq<byte>)
    requires Visible(a) && Visible(b) && Visible(c)
    requires a in ALLOWED_TYPES && IsBase64Text(b) && Base64.Decode(b) == Some(blob) && BlobHasType(a, blob)
    requires Units(Line3(a, b, c)) <= MAX_LINE
    ensures IsKeyLine(Line3(a, b, c))
  {
    Line3Words(a, b, c);
  }

  lemma EncodedIsVisible(blob: seq<byte>)
    requires blob != []
    ensures Visible(Base64.Encode(blob)) && |Base64.Encode(blob)| == (|blob| + 2) / 3 * 4
  {
    Base64.EncodeLength(blob);
    Base64.EncodeLetters(blob);
  }

  /** A bare key line of any supported type, around any blob of that type. */
  lemma EncodedLineIsKey(a: string, blob: seq<byte>, c: string)
    requires Visible(a) && Visible(c) && a[0] != '#' && a in ALLOWED_TYPES && BlobHasType(a, blob)
    requires 2 * (|a| + |c| + 2 + (|blob| + 2) / 3 * 4) <= MAX_LINE
    ensures IsKeyLine(Line3(a, Base64.Encode(blob), c)) && Settled(Line3(a, Base64.Encode(blob), c))
  {
    var text := Base64.Encode(blob);
    EncodedIsVisible(blob);
    EncodeIsText(blob);
    Base64.DecodeEncode(blob);
    LengthBounds(Line3(a, text, c));
    KeyLineOf(a, text, c, blob);
    Line3Settled(a, text, c);
  }

  lemma PublicLineText(public: seq<byte>)
    requires |public| == 32
    ensures |PublicLine(public)| == 97
    ensures Visible(ED25519) && Visible(COMMENT) && ED25519[0] != '#' && |ED25519| == 11 && |COMMENT| == 16
  {
    TypeText();
    CommentText();
    EncodedIsVisible(SshKey.PublicBlob(public));
  }

  lemma PublicLineIsKey(public: seq<byte>)
    requires |public| == 32
    ensures |PublicLine(public)| == 97
    ensures IsKeyLine(PublicLine(public)) && Settled(PublicLine(public))
  {
    PublicLineText(public);
    BlobIsEd25519(public);
    EncodedLineIsKey(ED25519, SshKey.PublicBlob(public), COMMENT);
  }

  lemma OneLine(line: string)
    requires Settled(line)
    ensures KeptOf(line) == [line]
  {
    NewlinesStay(line);
    assert NewlineAt(line) == |line| by { assert forall i :: 0 <= i < |line| ==> line[i] in line; }
    assert Lines(line) == [line];
    var lines := [line];
    assert lines[1..] == [] && lines[0] == line;
    assert Kept(lines) == [line] + Kept([]);
  }

  lemma OneKeyAccepted(isKey: string -> bool, line: string)
    requires Settled(line) && isKey(line) && 4 * (|line| + 1) <= MAX_BYTES
    ensures ValidateWith(isKey, line) == Some(Saved(1, line + "\n"))
  {
    OneLine(line);
    assert Unlines([line]) == line + "\n" by { assert [line][1..] == []; assert line + "\n" + "" == line + "\n"; }
    LengthBounds(line + "\n");
    ValidateWithMeaning(isKey, line);
  }

  /** Main result: for every public key, the line the generator writes is accepted
      as exactly one key and saved as it is. */
  lemma GeneratedKeyAccepted(public: seq<byte>)
    requires |public| == 32
    ensures Validate(Some(PublicLine(public))) == Some(Saved(1, PublicLine(public) + "\n"))
  {
    PublicLineIsKey(public);
    OneKeyAccepted(IsKeyLine, PublicLine(public));
  }
}
