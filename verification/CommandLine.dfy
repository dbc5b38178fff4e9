/** The command the app hands to a shell, how a POSIX shell splits it into words,
    and what the launcher's argument parser makes of those words. */
module CommandLine {
  import opened Options
  import opened UsbIds

  // ------------------------------------------------------------------ the shell

  datatype Token = Word(text: string) | Redirect | AndIf

  /** The quoting the next character is under (section 2.2 of the POSIX Shell
      Command Language). */
  datatype Quoting = Unquoted | SingleQuoted | DoubleQuoted

  /** Characters with a meaning this fragment of the shell does not interpret. */
  predicate OutsideFragment(c: char)
  {
    || c == '|' || c == ';' || c == '<' || c == '(' || c == ')' || c == '$' || c == '`' || c == '*' || c == '?'
    || c == '[' || c == '#' || c == '~' || c == '=' || c == '!' || c == '{' || c == '}' || c == '\n'
  }

  /** Characters that stand for themselves outside quotes. */
  predicate Ordinary(c: char)
  {
    !OutsideFragment(c) && c != ' ' && c != '\t' && c != '\'' && c != '"' && c != '\\' && c != '>' && c != '&'
  }

  function Text(current: Option<string>): string
  {
    if current.Some? then current.value else ""
  }

  function Emit(tokens: seq<Token>, rest: Option<seq<Token>>): Option<seq<Token>>
  {
    if rest.Some? then Some(tokens + rest.value) else None
  }

  function Flush(current: Option<string>): seq<Token>
  {
    if current.Some? then [Word(current.value)] else []
  }

  /** Token recognition: `current` is the word being built, if any. None for an
      unterminated quote or a construct outside the fragment. */
  function Lex(s: string, quoting: Quoting, current: Option<string>): Option<seq<Token>>
    decreases |s|
  {
    if s == [] then if quoting == Unquoted then Some(Flush(current)) else None
    else
      var c, rest := s[0], s[1..];
      match quoting
      case SingleQuoted =>
        if c == '\'' then Lex(rest, Unquoted, current)
        else Lex(rest, SingleQuoted, Some(Text(current) + [c]))
      case DoubleQuoted =>
        if c == '"' then Lex(rest, Unquoted, current)
        else if c == '$' || c == '`' then None
        else if c == '\\' then
          if rest == [] then None
          else if rest[0] == '\n' then Lex(rest[1..], DoubleQuoted, current)
          else if rest[0] in "$`\"\\" then Lex(rest[1..], DoubleQuoted, Some(Text(current) + [rest[0]]))
          else Lex(rest, DoubleQuoted, Some(Text(current) + [c]))
        else Lex(rest, DoubleQuoted, Some(Text(current) + [c]))
      case Unquoted =>
        if c == ' ' || c == '\t' then Emit(Flush(current), Lex(rest, Unquoted, None))
        else if c == '\'' then Lex(rest, SingleQuoted, Some(Text(current)))
        else if c == '"' then Lex(rest, DoubleQuoted, Some(Text(current)))
        else if c == '\\' then
          if rest == [] then None
          else if rest[0] == '\n' then Lex(rest[1..], Unquoted, current)
          else Lex(rest[1..], Unquoted, Some(Text(current) + [rest[0]]))
        else if c == '>' then
          if current.Some? || (rest != [] && rest[0] in ">&|") then None
          else Emit([Redirect], Lex(rest, Unquoted, None))
        else if c == '&' then
          if rest != [] && rest[0] == '&' then Emit(Flush(current) + [AndIf], Lex(rest[1..], Unquoted, None)) else None
        else if OutsideFragment(c) then None
        else Lex(rest, Unquoted, Some(Text(current) + [c]))
  }

  /** A simple command: its words, and where its output goes if redirected. */
  datatype Simple = Simple(argv: seq<string>, output: Option<string>)

  /** Tokens to the commands joined by `&&`. */
  function Group(tokens: seq<Token>, now: Simple): Option<seq<Simple>>
    decreases |tokens|
  {
    if tokens == [] then if now.argv == [] then None else Some([now])
    else match tokens[0]
      case Word(w) => Group(tokens[1..], now.(argv := now.argv + [w]))
      case Redirect =>
        if |tokens| < 2 || !tokens[1].Word? then None
        else Group(tokens[2..], now.(output := Some(tokens[1].text)))
      case AndIf =>
        if now.argv == [] then None
        else
          var rest := Group(tokens[1..], Simple([], None));
          if rest.Some? then Some([now] + rest.value) else None
  }

  function Shell(s: string): Option<seq<Simple>>
  {
    var tokens := Lex(s, Unquoted, None);
    if tokens.None? then None else Group(tokens.value, Simple([], None))
  }

  // ------------------------------------------------------------------- quoting

  /** Every quote replaced by: close, a double-quoted quote, open again. */
  function Escape(v: string): string
  {
    if v == [] then ""
    else (if v[0] == '\'' then "'\"'\"'" else [v[0]]) + Escape(v[1..])
  }

  /** `shellQuote`; None is its exception on a NUL. */
  function ShellQuote(v: string): Option<string>
  {
    if '\0' in v then None else Some(Quoted(v))
  }

  function Quoted(v: string): string
  {
    "'" + Escape(v) + "'"
  }

  lemma QuoteEscape(tail: string, text: string)
    ensures Lex("'\"'\"'" + tail, SingleQuoted, Some(text)) == Lex(tail, SingleQuoted, Some(text + "'"))
  {
    var s0 := "'\"'\"'" + tail;
    var s1, s2 := "\"'\"'" + tail, "'\"'" + tail;
    var s3, s4 := "\"'" + tail, "'" + tail;
    assert s0[1..] == s1 && s1[1..] == s2 && s2[1..] == s3 && s3[1..] == s4 && s4[1..] == tail;
    assert Lex(s0, SingleQuoted, Some(text)) == Lex(s1, Unquoted, Some(text));
    assert Lex(s1, Unquoted, Some(text)) == Lex(s2, DoubleQuoted, Some(text));
    assert Lex(s2, DoubleQuoted, Some(text)) == Lex(s3, DoubleQuoted, Some(text + "'"));
    assert Lex(s3, DoubleQuoted, Some(text + "'")) == Lex(s4, Unquoted, Some(text + "'"));
    assert Lex(s4, Unquoted, Some(text + "'")) == Lex(tail, SingleQuoted, Some(text + "'"));
  }

  lemma {:induction false} LexEscape(v: string, rest: string, text: string)
    ensures Lex(Escape(v) + "'" + rest, SingleQuoted, Some(text)) == Lex(rest, Unquoted, Some(text + v))
    decreases |v|
  {
    var s := Escape(v) + "'" + rest;
    if v == [] {
      assert s[1..] == rest && text + v == text;
    } else {
      var tail := Escape(v[1..]) + "'" + rest;
      LexEscape(v[1..], rest, text + [v[0]]);
      assert text + [v[0]] + v[1..] == text + v;
      if v[0] == '\'' {
        assert s == "'\"'\"'" + tail;
        QuoteEscape(tail, text);
      } else {
        assert s[0] == v[0] && s[1..] == tail;
      }
    }
  }

  /** Quoting is undone by the shell for every text, in every context: the quoted
      form adds exactly the text to the word being built. */
  lemma QuotedIsLiteral(v: string, rest: string, current: Option<string>)
    ensures Lex(Quoted(v) + rest, Unquoted, current) == Lex(rest, Unquoted, Some(Text(current) + v))
  {
    var s := Quoted(v) + rest;
    var tail := Escape(v) + "'" + rest;
    assert s[0] == '\'' && s[1..] == tail;
    LexEscape(v, rest, Text(current));
  }

  /** A whole quoted command word. */
  lemma QuoteRoundTrip(v: string)
    ensures Shell(Quoted(v)) == Some([Simple([v], None)])
  {
    QuotedIsLiteral(v, "", None);
    assert Quoted(v) + "" == Quoted(v) && "" + v == v;
    assert Lex("", Unquoted, Some(v)) == Some([Word(v)]);
    assert Group([Word(v)], Simple([], None)) == Group([], Simple([v], None)) by {
      assert [Word(v)][1..] == [] && [] + [v] == [v];
    }
  }

  lemma {:induction false} OrdinaryIsLiteral(w: string, rest: string, current: Option<string>)
    requires forall i :: 0 <= i < |w| ==> Ordinary(w[i])
    requires w != []
    ensures Lex(w + rest, Unquoted, current) == Lex(rest, Unquoted, Some(Text(current) + w))
    decreases |w|
  {
    var s := w + rest;
    assert s[0] == w[0] && s[1..] == w[1..] + rest;
    if |w| == 1 {
      assert w == [w[0]] && s[1..] == rest;
    } else {
      OrdinaryIsLiteral(w[1..], rest, Some(Text(current) + [w[0]]));
      assert Text(current) + [w[0]] + w[1..] == Text(current) + w;
    }
  }

  lemma Blank(rest: string, current: Option<string>)
    ensures Lex(" " + rest, Unquoted, current) == Emit(Flush(current), Lex(rest, Unquoted, None))
  {
    assert (" " + rest)[1..] == rest;
  }

  /** The words appended one by one, each as a blank and a quoted text. */
  function Arguments(words: seq<string>): string
    decreases |words|
  {
    if words == [] then "" else " " + Quoted(words[0]) + Arguments(words[1..])
  }

  function AsTokens(words: seq<string>): (r: seq<Token>)
    ensures |r| == |words|
  {
    seq(|words|, i requires 0 <= i < |words| => Word(words[i]))
  }

  lemma {:induction false} LexArguments(words: seq<string>, current: string)
    ensures Lex(Arguments(words), Unquoted, Some(current)) == Some([Word(current)] + AsTokens(words))
    decreases |words|
  {
    if words != [] {
      var tail := Arguments(words[1..]);
      assert Arguments(words) == " " + (Quoted(words[0]) + tail);
      Blank(Quoted(words[0]) + tail, Some(current));
      QuotedIsLiteral(words[0], tail, None);
      assert "" + words[0] == words[0];
      LexArguments(words[1..], words[0]);
      assert [Word(words[0])] + AsTokens(words[1..]) == AsTokens(words);
    } else {
      assert [Word(current)] + AsTokens(words) == [Word(current)];
    }
  }

  lemma {:induction false} GroupWords(words: seq<string>, now: Simple)
    requires words != []
    ensures Group(AsTokens(words), now) == Some([now.(argv := now.argv + words)])
    decreases |words|
  {
    var next := now.(argv := now.argv + [words[0]]);
    assert AsTokens(words)[1..] == AsTokens(words[1..]);
    if |words| == 1 {
      assert words == [words[0]];
    } else {
      GroupWords(words[1..], next);
      assert now.argv + [words[0]] + words[1..] == now.argv + words;
    }
  }

  // ------------------------------------------------------------ the app's command

  datatype Operation = Start | Restart | Status | Stop | ForceStop

  /** The stored settings the command depends on; None is a missing key. */
  datatype Settings = Settings(cgroup: Option<string>, fallback: bool,
                               usbMode: Option<string>, legacyShare: bool, usbIds: Option<string>)

  const ROOTFS: string := "/data/local/debian"
  const MOTD_TITLE: string := "DawnShell Debian 13 emergency environment\n"
  const MOTD_BOOT: string := "Started during Direct Boot; "
  const MOTD_UNLOCK: string := "remains active after Android unlock.\n"
  const MOTD: string := MOTD_TITLE + (MOTD_BOOT + MOTD_UNLOCK)

  function OperationName(op: Operation): string
  {
    match op
    case Start => "start"
    case Restart => "restart"
    case Status => "status"
    case Stop => "stop"
    case ForceStop => "force-stop"
  }

  function CgroupText(s: Settings): string
  {
    if s.cgroup == Some("v2") || s.cgroup == Some("v1") then s.cgroup.value else "auto"
  }

  function UsbText(s: Settings): string
  {
    if s.usbMode == None && s.legacyShare then "direct"
    else if s.usbMode == Some("direct") || s.usbMode == Some("exclusive") then s.usbMode.value
    else "off"
  }

  /** A list the settings refuse counts as empty. */
  function UsbIdText(s: Settings): string
  {
    var normalized := Normalize(s.usbIds);
    if normalized.Some? then normalized.value else ""
  }

  /** The words after the operation name. */
  function Words(op: Operation, run: string, log: string, s: Settings): seq<string>
  {
    if op == Start || op == Restart then
      [ROOTFS, run, log, CgroupText(s), if s.fallback then "fallback" else "strict",
       UsbText(s), FilterArgument(UsbIdText(s))]
    else [ROOTFS, run]
  }

  function Launching(probe: string, op: Operation, run: string, log: string, s: Settings): string
  {
    Quoted(probe) + " " + OperationName(op) + Arguments(Words(op, run, log, s))
  }

  /** A start or restart first writes the welcome text. */
  function Prefixed(op: Operation, command: string): string
  {
    if op == Start || op == Restart
    then "printf %s " + Quoted(MOTD) + " > " + Quoted(ROOTFS + "/etc/motd") + " && " + command
    else command
  }

  /** `lifecycleCommand`; None where quoting a path throws. */
  function LifecycleCommand(probe: string, op: Operation, run: string, log: string, s: Settings): Option<string>
  {
    if '\0' in probe || '\0' in run then None
    else if (op == Start || op == Restart) && '\0' in log then None
    else Some(Prefixed(op, Launching(probe, op, run, log, s)))
  }

  lemma EmitTwice(a: seq<Token>, b: seq<Token>, r: Option<seq<Token>>)
    ensures Emit(a, Emit(b, r)) == Emit(a + b, r)
  {
    if r.Some? { assert a + (b + r.value) == a + b + r.value; }
  }

  lemma QuotedWord(v: string, rest: string)
    ensures Lex(Quoted(v) + (" " + rest), Unquoted, None) == Emit([Word(v)], Lex(rest, Unquoted, None))
  {
    QuotedIsLiteral(v, " " + rest, None);
    assert "" + v == v;
    Blank(rest, Some(v));
  }

  lemma OrdinaryWord(w: string, rest: string)
    requires w != [] && forall i :: 0 <= i < |w| ==> Ordinary(w[i])
    ensures Lex(w + (" " + rest), Unquoted, None) == Emit([Word(w)], Lex(rest, Unquoted, None))
  {
    OrdinaryIsLiteral(w, " " + rest, None);
    assert "" + w == w;
    Blank(rest, Some(w));
  }

  lemma EmitNothing(r: Option<seq<Token>>)
    ensures Emit([], r) == r
  {
    if r.Some? { assert [] + r.value == r.value; }
  }

  lemma RedirectSign(rest: string)
    ensures Lex("> " + rest, Unquoted, None) == Emit([Redirect], Lex(rest, Unquoted, None))
  {
    var s := "> " + rest;
    assert s[0] == '>' && s[1..] == " " + rest && s[1..][0] == ' ';
    Blank(rest, None);
    EmitNothing(Lex(rest, Unquoted, None));
  }

  lemma AndSign(rest: string)
    ensures Lex("&& " + rest, Unquoted, None) == Emit([AndIf], Lex(rest, Unquoted, None))
  {
    var s := "&& " + rest;
    assert s[0] == '&' && s[1..][0] == '&' && s[1..][1..] == " " + rest;
    Blank(rest, None);
    EmitNothing(Lex(rest, Unquoted, None));
    assert Flush(None) + [AndIf] == [AndIf];
  }

  lemma NameIsOrdinary(op: Operation)
    ensures OperationName(op) != []
    ensures forall i :: 0 <= i < |OperationName(op)| ==> Ordinary(OperationName(op)[i])
  {
  }

  lemma LexLaunching(probe: string, op: Operation, run: string, log: string, s: Settings)
    ensures Lex(Launching(probe, op, run, log, s), Unquoted, None) ==
            Some(AsTokens([probe, OperationName(op)] + Words(op, run, log, s)))
  {
    LexLaunch(probe, op, Words(op, run, log, s));
  }

  lemma LexLaunch(probe: string, op: Operation, words: seq<string>)
    ensures Lex(Quoted(probe) + " " + OperationName(op) + Arguments(words), Unquoted, None) ==
            Some(AsTokens([probe, OperationName(op)] + words))
  {
    NameIsOrdinary(op);
    LexNamed(probe, OperationName(op), words);
  }

  lemma TwoMoreTokens(a: string, b: string, words: seq<string>)
    ensures [Word(a)] + ([Word(b)] + AsTokens(words)) == AsTokens([a, b] + words)
  {
  }

  lemma NameThenArguments(name: string, words: seq<string>)
    requires name != [] && forall i :: 0 <= i < |name| ==> Ordinary(name[i])
    ensures Lex(name + Arguments(words), Unquoted, None) == Some([Word(name)] + AsTokens(words))
  {
    OrdinaryIsLiteral(name, Arguments(words), None);
    assert "" + name == name;
    LexArguments(words, name);
  }

  lemma Associate(a: string, b: string, c: string, d: string)
    ensures a + b + c + d == a + (b + (c + d))
  {
  }

  lemma LexNamed(probe: string, name: string, words: seq<string>)
    requires name != [] && forall i :: 0 <= i < |name| ==> Ordinary(name[i])
    ensures Lex(Quoted(probe) + " " + name + Arguments(words), Unquoted, None) ==
            Some(AsTokens([probe, name] + words))
  {
    Associate(Quoted(probe), " ", name, Arguments(words));
    QuotedWord(probe, name + Arguments(words));
    NameThenArguments(name, words);
    TwoMoreTokens(probe, name, words);
  }

  lemma LexConjunction(path: string, rest: string)
    ensures Lex(Quoted(path) + (" " + ("&& " + rest)), Unquoted, None) ==
            Emit([Word(path), AndIf], Lex(rest, Unquoted, None))
  {
    AndSign(rest);
    QuotedWord(path, "&& " + rest);
    EmitTwice([Word(path)], [AndIf], Lex(rest, Unquoted, None));
    assert [Word(path)] + [AndIf] == [Word(path), AndIf];
  }

  lemma LexRedirected(text: string, rest: string)
    ensures Lex(Quoted(text) + (" " + ("> " + rest)), Unquoted, None) ==
            Emit([Word(text), Redirect], Lex(rest, Unquoted, None))
  {
    RedirectSign(rest);
    QuotedWord(text, "> " + rest);
    EmitTwice([Word(text)], [Redirect], Lex(rest, Unquoted, None));
    assert [Word(text)] + [Redirect] == [Word(text), Redirect];
  }

  lemma LexTwo(a: string, b: string, rest: string)
    requires a != [] && forall i :: 0 <= i < |a| ==> Ordinary(a[i])
    requires b != [] && forall i :: 0 <= i < |b| ==> Ordinary(b[i])
    ensures Lex(a + (" " + (b + (" " + rest))), Unquoted, None) ==
            Emit([Word(a), Word(b)], Lex(rest, Unquoted, None))
  {
    var tail := b + (" " + rest);
    OrdinaryWord(b, rest);
    OrdinaryWord(a, tail);
    EmitTwice([Word(a)], [Word(b)], Lex(rest, Unquoted, None));
    assert [Word(a)] + [Word(b)] == [Word(a), Word(b)];
  }

  lemma PrefixOrdinary()
    ensures forall i :: 0 <= i < |"printf"| ==> Ordinary("printf"[i])
    ensures forall i :: 0 <= i < |"%s"| ==> Ordinary("%s"[i])
  {
  }

  /** Associativity of the pieces, with the blanks split off. */
  lemma Pieces(p: string, a: string, b: string, text: string, path: string, rest: string)
    requires p == a + " " + b + " "
    ensures p + text + " > " + path + " && " + rest ==
            a + (" " + (b + (" " + (text + (" " + ("> " + (path + (" " + ("&& " + rest)))))))))
  {
    assert " > " == " " + "> " && " && " == " " + "&& ";
    var s1 := path + (" " + ("&& " + rest));
    assert path + " && " + rest == s1;
    var s2 := text + (" " + ("> " + s1));
    assert text + " > " + path + " && " + rest == s2;
    assert p + text + " > " + path + " && " + rest == p + s2;
    assert p + s2 == a + (" " + (b + (" " + s2)));
  }

  lemma EmitPrefix(a: string, b: string, text: string, path: string, r: Option<seq<Token>>)
    ensures Emit([Word(a), Word(b)], Emit([Word(text), Redirect], Emit([Word(path), AndIf], r)))
         == Emit([Word(a), Word(b), Word(text), Redirect, Word(path), AndIf], r)
  {
    EmitTwice([Word(text), Redirect], [Word(path), AndIf], r);
    EmitTwice([Word(a), Word(b)], [Word(text), Redirect] + [Word(path), AndIf], r);
    assert [Word(a), Word(b)] + ([Word(text), Redirect] + [Word(path), AndIf])
        == [Word(a), Word(b), Word(text), Redirect, Word(path), AndIf];
  }

  /** A prefix of two words, a text, a redirection and the conjunction. */
  lemma LexPrefix(p: string, a: string, b: string, text: string, path: string, rest: string)
    requires p == a + " " + b + " "
    requires a != [] && forall i :: 0 <= i < |a| ==> Ordinary(a[i])
    requires b != [] && forall i :: 0 <= i < |b| ==> Ordinary(b[i])
    ensures Lex(p + Quoted(text) + " > " + Quoted(path) + " && " + rest, Unquoted, None)
         == Emit([Word(a), Word(b), Word(text), Redirect, Word(path), AndIf], Lex(rest, Unquoted, None))
  {
    Pieces(p, a, b, Quoted(text), Quoted(path), rest);
    var s1 := Quoted(path) + (" " + ("&& " + rest));
    var s2 := Quoted(text) + (" " + ("> " + s1));
    LexTwo(a, b, s2);
    LexRedirected(text, s1);
    LexConjunction(path, rest);
    EmitPrefix(a, b, text, path, Lex(rest, Unquoted, None));
  }

  // -------------------------------------------------------- the launcher's parser

  datatype CgroupPolicy = AutoCgroup | ForceV2 | ForceV1
  datatype UsbPolicy = UsbOff | UsbDirect | UsbExclusive

  datatype LaunchRequest = LaunchRequest(root: string, run: string, log: string, cgroup: CgroupPolicy,
                                         fallback: bool, usb: UsbPolicy, devices: seq<DeviceId>)

  datatype Rejection = BadCgroup | BadLaunch | BadUsb | BadFilter | EmptyFilter

  /** What `main` decides to do. */
  datatype Decision =
    | RunStart(request: LaunchRequest)
    | RunRestart(request: LaunchRequest)
    | RunStatus(root: string, run: string)
    | RunStop(root: string, run: string)
    | RunForceStop(root: string, run: string)
    | Reject(why: Rejection)
    | OtherCommand

  function ParseCgroup(v: string): Option<CgroupPolicy>
  {
    if v == "auto" then Some(AutoCgroup) else if v == "v2" then Some(ForceV2)
    else if v == "v1" then Some(ForceV1) else None
  }

  function ParseLaunch(v: string): Option<bool>
  {
    if v == "strict" || v == "off" then Some(false)
    else if v == "fallback" || v == "compat" || v == "allow" then Some(true) else None
  }

  predicate ExplicitLaunch(v: string)
  {
    v == "strict" || v == "fallback" || v == "compat" || v == "allow"
  }

  function ParseUsb(v: string): Option<UsbPolicy>
  {
    if v == "off" || v == "blocked" then Some(UsbOff)
    else if v == "direct" || v == "shared" then Some(UsbDirect)
    else if v == "exclusive" then Some(UsbExclusive) else None
  }

  function At(argv: seq<string>, i: nat, default: string): string
  {
    if i < |argv| then argv[i] else default
  }

  function ParseLaunchArguments(argv: seq<string>, restart: bool): Decision
    requires 5 <= |argv| <= 9
  {
    var cgroup := ParseCgroup(At(argv, 5, "auto"));
    var explicit := |argv| >= 7 && ExplicitLaunch(argv[6]);
    var launch := ParseLaunch(if explicit then argv[6] else "strict");
    var usb := ParseUsb(At(argv, if explicit then 7 else 6, "off"));
    var devices := ParseFilter(At(argv, if explicit then 8 else 7, "-"));
    if cgroup.None? then Reject(BadCgroup)
    else if launch.None? then Reject(BadLaunch)
    else if usb.None? then Reject(BadUsb)
    else if devices.None? then Reject(BadFilter)
    else if usb.value == UsbExclusive && devices.value == [] then Reject(EmptyFilter)
    else
      var request := LaunchRequest(argv[2], argv[3], argv[4], cgroup.value, launch.value, usb.value, devices.value);
      if restart then RunRestart(request) else RunStart(request)
  }

  /** The part of `main` these commands reach. */
  function ParseArguments(argv: seq<string>): Decision
  {
    if 5 <= |argv| <= 9 && argv[1] == "start" then ParseLaunchArguments(argv, false)
    else if |argv| == 4 && argv[1] == "status" then RunStatus(argv[2], argv[3])
    else if |argv| == 4 && argv[1] == "stop" then RunStop(argv[2], argv[3])
    else if |argv| == 4 && argv[1] == "force-stop" then RunForceStop(argv[2], argv[3])
    else if 5 <= |argv| <= 9 && argv[1] == "restart" then ParseLaunchArguments(argv, true)
    else OtherCommand
  }

  // ------------------------------------------------------------ what should happen

  function MeantCgroup(s: Settings): CgroupPolicy
  {
    match s.cgroup
    case Some(v) => if v == "v2" then ForceV2 else if v == "v1" then ForceV1 else AutoCgroup
    case None => AutoCgroup
  }

  function MeantUsb(s: Settings): UsbPolicy
  {
    match s.usbMode
    case None => if s.legacyShare then UsbDirect else UsbOff
    case Some(v) => if v == "direct" then UsbDirect else if v == "exclusive" then UsbExclusive else UsbOff
  }

  /** The devices typed, each once, in order; none when the list is refused. */
  ghost function MeantDevices(s: Settings): seq<DeviceId>
  {
    if !TooLong(s.usbIds) && AllEntries(Typed(s.usbIds)) && |Firsts(Ids(Typed(s.usbIds)))| <= MAX_FILTERS
    then Firsts(Ids(Typed(s.usbIds))) else []
  }

  ghost function Meant(op: Operation, run: string, log: string, s: Settings): Decision
  {
    match op
    case Status => RunStatus(ROOTFS, run)
    case Stop => RunStop(ROOTFS, run)
    case ForceStop => RunForceStop(ROOTFS, run)
    case _ =>
      if MeantUsb(s) == UsbExclusive && MeantDevices(s) == [] then Reject(EmptyFilter)
      else
        var request := LaunchRequest(ROOTFS, run, log, MeantCgroup(s), s.fallback, MeantUsb(s), MeantDevices(s));
        if op == Restart then RunRestart(request) else RunStart(request)
  }

  lemma DevicesArrive(s: Settings)
    ensures ParseFilter(FilterArgument(UsbIdText(s))) == Some(MeantDevices(s))
  {
    TypedListReachesLauncher(s.usbIds);
  }

  lemma PoliciesArrive(s: Settings)
    ensures ParseCgroup(CgroupText(s)) == Some(MeantCgroup(s))
    ensures ParseUsb(UsbText(s)) == Some(MeantUsb(s))
  {
  }

  lemma LaunchArrives(argv: seq<string>, restart: bool, run: string, log: string, s: Settings)
    requires |argv| == 9 && argv[2..] == Words(Start, run, log, s)
    ensures ParseLaunchArguments(argv, restart) == Meant(if restart then Restart else Start, run, log, s)
  {
    DevicesArrive(s);
    PoliciesArrive(s);
    var words := argv[2..];
    assert argv[2] == words[0] && argv[3] == words[1] && argv[4] == words[2] && argv[5] == words[3];
    assert argv[6] == words[4] && argv[7] == words[5] && argv[8] == words[6];
    assert ParseLaunch(words[4]) == Some(s.fallback);
    assert ExplicitLaunch(argv[6]);
  }

  lemma ArgumentsArrive(probe: string, op: Operation, run: string, log: string, s: Settings)
    ensures ParseArguments([probe, OperationName(op)] + Words(op, run, log, s)) == Meant(op, run, log, s)
  {
    var argv := [probe, OperationName(op)] + Words(op, run, log, s);
    assert argv[2..] == Words(op, run, log, s);
    assert argv[1] == OperationName(op);
    if op == Start || op == Restart {
      LaunchArrives(argv, op == Restart, run, log, s);
      assert |argv| == 9;
    } else {
      assert argv[2] == ROOTFS && argv[3] == run;
    }
  }

  // ----------------------------------------------------- the launcher's short forms

  /** The seven arguments of a launch written out: missing ones are `auto`, `strict`,
      `off` and `-`, and the launch policy may be left out before the USB policy. */
  function WrittenOut(argv: seq<string>): (r: seq<string>)
    requires 5 <= |argv| <= 9
    ensures |r| >= 9
  {
    if |argv| == 5 then argv + ["auto", "strict", "off", "-"]
    else if |argv| == 6 then argv + ["strict", "off", "-"]
    else
      var full := if ExplicitLaunch(argv[6]) then argv else argv[..6] + ["strict"] + argv[6..];
      full + (if |full| == 7 then ["off", "-"] else if |full| == 8 then ["-"] else [])
  }

  /** Every short form means what its written-out form means; a ninth argument after a
      left-out launch policy is not looked at. */
  lemma ShortFormsAreWrittenOut(argv: seq<string>)
    requires 5 <= |argv| <= 9
    ensures ParseArguments(argv) == ParseArguments(WrittenOut(argv)[..9])
  {
    var full := WrittenOut(argv);
    assert forall i :: 0 <= i < 5 ==> full[..9][i] == argv[i];
    StrictIsExplicit();
    if |argv| >= 7 && !ExplicitLaunch(argv[6]) {
      assert full[5] == argv[5] && full[6] == "strict" && full[7] == argv[6];
      assert |argv| >= 8 ==> full[8] == argv[7];
    }
    LaunchBy(argv, full[..9], false);
    LaunchBy(argv, full[..9], true);
  }

  lemma StrictIsExplicit()
    ensures ExplicitLaunch("strict") && ParseLaunch("strict") == Some(false)
  {
  }

  lemma LaunchBy(argv: seq<string>, full: seq<string>, restart: bool)
    requires 5 <= |argv| <= 9 && |full| == 9 && forall i :: 0 <= i < 5 ==> full[i] == argv[i]
    requires ExplicitLaunch(full[6]) && full[5] == At(argv, 5, "auto")
    requires var explicit := |argv| >= 7 && ExplicitLaunch(argv[6]);
             && full[6] == (if explicit then argv[6] else "strict")
             && full[7] == At(argv, if explicit then 7 else 6, "off")
             && full[8] == At(argv, if explicit then 8 else 7, "-")
    ensures ParseLaunchArguments(argv, restart) == ParseLaunchArguments(full, restart)
  {
  }

  /** A filter text the launcher takes, and one that names no device. */
  ghost predicate FilterTaken(v: string)
  {
    v == "" || v == "-" || (|v| <= 512 && exists list :: Written(v, list) && RoomFor(list))
  }

  lemma {:induction false} FirstsNotEmpty(ids: seq<DeviceId>)
    requires ids != []
    ensures Firsts(ids) != []
  {
    if |ids| > 1 { FirstsNotEmpty(ids[..|ids| - 1]); }
  }

  /** A text names no device only if it is empty or a single dash. */
  lemma NoDevices(v: string)
    ensures ParseFilter(v).Some? <==> FilterTaken(v)
    ensures ParseFilter(v) == Some([]) <==> v == "" || v == "-"
  {
    FilterMeaning(v);
    if v != "" && v != "-" && ParseFilter(v).Some? {
      var list :| Written(v, list) && RoomFor(list);
      FirstsNotEmpty(Ids(list));
    }
  }

  predicate KnownCgroup(v: string)
  {
    v == "auto" || v == "v1" || v == "v2"
  }

  predicate KnownUsb(v: string)
  {
    v == "off" || v == "blocked" || v == "direct" || v == "shared" || v == "exclusive"
  }

  /** What a written-out launch is refused for: the first of the cgroup policy, the USB
      policy and the filter that is not understood, or exclusive USB without a device. */
  ghost function Refusal(argv: seq<string>): Option<Rejection>
    requires |argv| == 9
  {
    if !KnownCgroup(argv[5]) then Some(BadCgroup)
    else if !KnownUsb(argv[7]) then Some(BadUsb)
    else if !FilterTaken(argv[8]) then Some(BadFilter)
    else if argv[7] == "exclusive" && (argv[8] == "" || argv[8] == "-") then Some(EmptyFilter)
    else None
  }

  predicate CgroupIs(v: string, policy: CgroupPolicy)
  {
    match policy
    case AutoCgroup => v == "auto"
    case ForceV2 => v == "v2"
    case ForceV1 => v == "v1"
  }

  predicate UsbIs(v: string, policy: UsbPolicy)
  {
    match policy
    case UsbOff => v == "off" || v == "blocked"
    case UsbDirect => v == "direct" || v == "shared"
    case UsbExclusive => v == "exclusive"
  }

  /** The request carries the words it was given. */
  predicate Carries(r: LaunchRequest, argv: seq<string>)
    requires |argv| == 9
  {
    && r.root == argv[2] && r.run == argv[3] && r.log == argv[4]
    && CgroupIs(argv[5], r.cgroup) && UsbIs(argv[7], r.usb) && (r.fallback <==> argv[6] != "strict")
    && ParseFilter(argv[8]) == Some(r.devices)
  }

  /** Every written-out launch, from the app or not: refused exactly for what `Refusal`
      says, and otherwise run with exactly the words given. */
  lemma LaunchDecision(argv: seq<string>)
    requires |argv| == 9 && (argv[1] == "start" || argv[1] == "restart") && ExplicitLaunch(argv[6])
    ensures match Refusal(argv)
            case Some(why) => ParseArguments(argv) == Reject(why)
            case None =>
              && (if argv[1] == "start" then ParseArguments(argv).RunStart? else ParseArguments(argv).RunRestart?)
              && Carries(ParseArguments(argv).request, argv)
  {
    NoDevices(argv[8]);
    WordsKnown(argv[5], argv[6], argv[7]);
    LaunchTable(argv, argv[1] == "restart");
  }

  lemma WordsKnown(cgroup: string, launch: string, usb: string)
    ensures ParseCgroup(cgroup).Some? <==> KnownCgroup(cgroup)
    ensures ParseCgroup(cgroup).Some? ==> CgroupIs(cgroup, ParseCgroup(cgroup).value)
    ensures ParseUsb(usb).Some? <==> KnownUsb(usb)
    ensures ParseUsb(usb).Some? ==> UsbIs(usb, ParseUsb(usb).value)
    ensures ExplicitLaunch(launch) ==> ParseLaunch(launch) == Some(launch != "strict")
  {
  }

  lemma LaunchTable(argv: seq<string>, restart: bool)
    requires |argv| == 9 && ExplicitLaunch(argv[6]) && ParseLaunch(argv[6]) == Some(argv[6] != "strict")
    requires (ParseCgroup(argv[5]).Some? <==> KnownCgroup(argv[5])) && (ParseUsb(argv[7]).Some? <==> KnownUsb(argv[7]))
    requires ParseCgroup(argv[5]).Some? ==> CgroupIs(argv[5], ParseCgroup(argv[5]).value)
    requires ParseUsb(argv[7]).Some? ==> UsbIs(argv[7], ParseUsb(argv[7]).value)
    requires ParseFilter(argv[8]).Some? <==> FilterTaken(argv[8])
    requires ParseFilter(argv[8]) == Some([]) <==> argv[8] == "" || argv[8] == "-"
    ensures var d := ParseLaunchArguments(argv, restart);
            match Refusal(argv)
            case Some(why) => d == Reject(why)
            case None => (if restart then d.RunRestart? else d.RunStart?) && Carries(d.request, argv)
  {
  }

  lemma GroupWord(w: string, rest: seq<Token>, now: Simple)
    ensures Group([Word(w)] + rest, now) == Group(rest, now.(argv := now.argv + [w]))
  {
    assert ([Word(w)] + rest)[1..] == rest;
  }

  lemma GroupRedirect(w: string, rest: seq<Token>, now: Simple)
    ensures Group([Redirect, Word(w)] + rest, now) == Group(rest, now.(output := Some(w)))
  {
    assert ([Redirect, Word(w)] + rest)[2..] == rest;
  }

  lemma {:induction false} GroupAnd(rest: seq<Token>, now: Simple)
    requires now.argv != []
    ensures var inner := Group(rest, Simple([], None));
            Group([AndIf] + rest, now) == if inner.None? then None else Some([now] + inner.value)
  {
    assert ([AndIf] + rest)[1..] == rest;
  }

  lemma {:induction false} GroupPrefix(a: string, b: string, text: string, path: string, rest: seq<Token>)
    ensures var inner := Group(rest, Simple([], None));
            Group([Word(a), Word(b), Word(text), Redirect, Word(path), AndIf] + rest, Simple([], None))
            == if inner.None? then None else Some([Simple([a, b, text], Some(path))] + inner.value)
  {
    var t4 := [AndIf] + rest;
    var t3 := [Redirect, Word(path)] + t4;
    var t2 := [Word(text)] + t3;
    var t1 := [Word(b)] + t2;
    assert [Word(a), Word(b), Word(text), Redirect, Word(path), AndIf] + rest == [Word(a)] + t1;
    GroupWord(a, t1, Simple([], None));
    GroupWord(b, t2, Simple([a], None));
    GroupWord(text, t3, Simple([a, b], None));
    GroupRedirect(path, t4, Simple([a, b, text], None));
    GroupAnd(rest, Simple([a, b, text], Some(path)));
    assert [] + [a] == [a] && [a] + [b] == [a, b] && [a, b] + [text] == [a, b, text];
  }

  /** The commands the shell is meant to run. */
  function MeantCommands(op: Operation, argv: seq<string>): seq<Simple>
  {
    if op == Start || op == Restart
    then [Simple(["printf", "%s", MOTD], Some(ROOTFS + "/etc/motd")), Simple(argv, None)]
    else [Simple(argv, None)]
  }

  lemma ShellRunsPlain(s: string, argv: seq<string>)
    requires argv != [] && Lex(s, Unquoted, None) == Some(AsTokens(argv))
    ensures Shell(s) == Some([Simple(argv, None)])
  {
    GroupWords(argv, Simple([], None));
    assert [] + argv == argv;
  }

  lemma ShellRunsPrefixed(p: string, a: string, b: string, text: string, path: string, rest: string, argv: seq<string>)
    requires p == a + " " + b + " "
    requires a != [] && forall i :: 0 <= i < |a| ==> Ordinary(a[i])
    requires b != [] && forall i :: 0 <= i < |b| ==> Ordinary(b[i])
    requires argv != [] && Lex(rest, Unquoted, None) == Some(AsTokens(argv))
    ensures Shell(p + Quoted(text) + " > " + Quoted(path) + " && " + rest)
         == Some([Simple([a, b, text], Some(path)), Simple(argv, None)])
  {
    LexPrefix(p, a, b, text, path, rest);
    GroupWords(argv, Simple([], None));
    assert [] + argv == argv;
    GroupPrefix(a, b, text, path, AsTokens(argv));
    var first, second := Simple([a, b, text], Some(path)), Simple(argv, None);
    assert [first] + [second] == [first, second];
  }

  lemma ShellRunsStart(rest: string, argv: seq<string>)
    requires argv != [] && Lex(rest, Unquoted, None) == Some(AsTokens(argv))
    ensures Shell("printf %s " + Quoted(MOTD) + " > " + Quoted(ROOTFS + "/etc/motd") + " && " + rest)
         == Some([Simple(["printf", "%s", MOTD], Some(ROOTFS + "/etc/motd")), Simple(argv, None)])
  {
    var p, a, b := "printf %s ", "printf", "%s";
    PrefixOrdinary();
    assert p == a + " " + b + " ";
    ShellRunsPrefixed(p, a, b, MOTD, ROOTFS + "/etc/motd", rest, argv);
  }

  lemma ShellRunsEither(op: Operation, rest: string, argv: seq<string>)
    requires argv != [] && Lex(rest, Unquoted, None) == Some(AsTokens(argv))
    ensures Shell(Prefixed(op, rest)) == Some(MeantCommands(op, argv))
  {
    if op == Start || op == Restart {
      ShellRunsStart(rest, argv);
    } else {
      ShellRunsPlain(rest, argv);
    }
  }

  /** What the shell runs: the launcher with exactly the words given, after writing
      the welcome text for a start or a restart. */
  lemma ShellRuns(probe: string, op: Operation, run: string, log: string, s: Settings)
    requires '\0' !in probe && '\0' !in run && (op == Start || op == Restart ==> '\0' !in log)
    ensures LifecycleCommand(probe, op, run, log, s).Some?
    ensures Shell(LifecycleCommand(probe, op, run, log, s).value)
         == Some(MeantCommands(op, [probe, OperationName(op)] + Words(op, run, log, s)))
  {
    LexLaunching(probe, op, run, log, s);
    ShellRunsEither(op, Launching(probe, op, run, log, s), [probe, OperationName(op)] + Words(op, run, log, s));
  }

  /** The shell's last command is `probe`, not redirected, and `main` decides `d`. */
  predicate Decides(commands: Option<seq<Simple>>, probe: string, d: Decision)
  {
    && commands.Some? && |commands.value| > 0
    && var last := commands.value[|commands.value| - 1];
       last.output == None && |last.argv| > 0 && last.argv[0] == probe && ParseArguments(last.argv) == d
  }

  lemma LastDecides(commands: Option<seq<Simple>>, op: Operation, argv: seq<string>, d: Decision)
    requires commands == Some(MeantCommands(op, argv)) && argv != [] && ParseArguments(argv) == d
    ensures Decides(commands, argv[0], d)
  {
  }

  /** Main result: for every settings value and all paths without NUL, the shell
      ends by running the launcher, and the launcher decides exactly what the
      settings mean. */
  lemma CommandArrives(probe: string, op: Operation, run: string, log: string, s: Settings)
    requires '\0' !in probe && '\0' !in run && (op == Start || op == Restart ==> '\0' !in log)
    ensures LifecycleCommand(probe, op, run, log, s).Some?
    ensures Decides(Shell(LifecycleCommand(probe, op, run, log, s).value), probe, Meant(op, run, log, s))
  {
    var argv := [probe, OperationName(op)] + Words(op, run, log, s);
    ShellRuns(probe, op, run, log, s);
    ArgumentsArrive(probe, op, run, log, s);
    LastDecides(Shell(LifecycleCommand(probe, op, run, log, s).value), op, argv, Meant(op, run, log, s));
  }

  // ------------------------------------------------------- what su is handed

  lemma {:induction false} EscapeNoNul(v: string)
    requires '\0' !in v
    ensures '\0' !in Escape(v)
  {
    if v != [] { EscapeNoNul(v[1..]); }
  }

  lemma QuotedNoNul(v: string)
    requires '\0' !in v
    ensures '\0' !in Quoted(v)
  {
    EscapeNoNul(v);
  }

  lemma {:induction false} ArgumentsNoNul(words: seq<string>)
    requires forall i :: 0 <= i < |words| ==> '\0' !in words[i]
    ensures '\0' !in Arguments(words)
    decreases |words|
  {
    if words != [] {
      QuotedNoNul(words[0]);
      ArgumentsNoNul(words[1..]);
    }
  }

  lemma {:induction false} JoinNoNul(list: seq<string>)
    requires forall i :: 0 <= i < |list| ==> IsStored(list[i])
    ensures '\0' !in Join(list)
    decreases |list|
  {
    if list != [] {
      forall i: nat | i < 9 ensures list[0][i] != '\0' {
        if i != 4 { StoredChars(list[0], i); }
      }
      JoinNoNul(list[1..]);
    }
  }

  lemma UsbTextsNoNul(s: Settings)
    ensures '\0' !in FilterArgument(UsbIdText(s))
  {
    if Normalize(s.usbIds).Some? {
      NormalizedIsStored(s.usbIds);
      JoinNoNul(Entries(s.usbIds).value);
    }
  }

  predicate Visible(s: string)
  {
    forall i :: 0 <= i < |s| ==> s[i] != '\0'
  }

  lemma RootNoNul()
    ensures Visible(ROOTFS) && Visible("/etc/motd")
  {
  }

  lemma TitleNoNul()
    ensures Visible(MOTD_TITLE)
  {
  }

  lemma TextNoNul()
    ensures Visible(MOTD_BOOT) && Visible(MOTD_UNLOCK)
  {
  }

  lemma ConstantsNoNul()
    ensures '\0' !in ROOTFS && '\0' !in MOTD && '\0' !in ROOTFS + "/etc/motd"
  {
    RootNoNul();
    TitleNoNul();
    TextNoNul();
    ConcatNoNul(MOTD_BOOT, MOTD_UNLOCK);
    ConcatNoNul(MOTD_TITLE, MOTD_BOOT + MOTD_UNLOCK);
    ConcatNoNul(ROOTFS, "/etc/motd");
  }

  lemma ConcatNoNul(a: string, b: string)
    requires Visible(a) && Visible(b)
    ensures '\0' !in a && '\0' !in b && '\0' !in a + b
  {
  }

  lemma WordsNoNul(op: Operation, run: string, log: string, s: Settings)
    requires '\0' !in run && (op == Start || op == Restart ==> '\0' !in log)
    ensures forall i :: 0 <= i < |Words(op, run, log, s)| ==> '\0' !in Words(op, run, log, s)[i]
  {
    UsbTextsNoNul(s);
    ConstantsNoNul();
  }

  lemma LaunchNoNul(probe: string, op: Operation, words: seq<string>)
    requires '\0' !in probe && forall i :: 0 <= i < |words| ==> '\0' !in words[i]
    ensures '\0' !in Quoted(probe) + " " + OperationName(op) + Arguments(words)
  {
    QuotedNoNul(probe);
    ArgumentsNoNul(words);
  }

  lemma PrefixedNoNul(op: Operation, command: string)
    requires '\0' !in command
    ensures '\0' !in Prefixed(op, command)
  {
    ConstantsNoNul();
    QuotedNoNul(MOTD);
    QuotedNoNul(ROOTFS + "/etc/motd");
  }

  /** The app gets a command to hand to su exactly when no path in it holds a NUL, and
      then the whole command holds none, so su's argument is not cut short. */
  lemma CommandHasNoNul(probe: string, op: Operation, run: string, log: string, s: Settings)
    ensures LifecycleCommand(probe, op, run, log, s).Some? <==>
            '\0' !in probe && '\0' !in run && (op == Start || op == Restart ==> '\0' !in log)
    ensures LifecycleCommand(probe, op, run, log, s).Some? ==>
            '\0' !in LifecycleCommand(probe, op, run, log, s).value
  {
    if LifecycleCommand(probe, op, run, log, s).Some? {
      WordsNoNul(op, run, log, s);
      LaunchNoNul(probe, op, Words(op, run, log, s));
      PrefixedNoNul(op, Launching(probe, op, run, log, s));
    }
  }
}
