/** Base64 (section 4 of RFC 4648) as the key generator writes it, with optional
    line breaks, and a standard decoder. */
module Base64 {
  import opened Options
  import opened Bytes

  type sextet = x: int | 0 <= x < 64

  // ------------------------------------------------------------------ alphabet

  function Letter(v: sextet): char
  {
    if v < 26 then 'A' + v as char
    else if v < 52 then 'a' + (v - 26) as char
    else if v < 62 then '0' + (v - 52) as char
    else if v == 62 then '+' else '/'
  }

  predicate IsLetter(c: char)
  {
    'A' <= c <= 'Z' || 'a' <= c <= 'z' || '0' <= c <= '9' || c == '+' || c == '/'
  }

  function ValueOf(c: char): sextet
    requires IsLetter(c)
  {
    if 'A' <= c <= 'Z' then c as int - 'A' as int
    else if 'a' <= c <= 'z' then c as int - 'a' as int + 26
    else if '0' <= c <= '9' then c as int - '0' as int + 52
    else if c == '+' then 62 else 63
  }

  lemma LetterValue(v: sextet)
    ensures IsLetter(Letter(v)) && ValueOf(Letter(v)) == v
  {
  }

  // ------------------------------------------------------------------ encoding

  /** Sextet `k` of a 24-bit value, most significant first. */
  function Sextet(value: nat, k: nat): sextet
    requires k < 4
  {
    match k
    case 0 => value / 0x4_0000 % 64
    case 1 => value / 0x1000 % 64
    case 2 => value / 0x40 % 64
    case 3 => value % 64
  }

  /** Up to three bytes as one 24-bit value, missing ones zero. */
  function Packed(b: seq<byte>): (v: nat)
    requires 1 <= |b| <= 3
    ensures v < 0x100_0000
  {
    var x: nat, y: nat, z: nat := b[0], if |b| > 1 then b[1] else 0, if |b| > 2 then b[2] else 0;
    x * 0x1_0000 + y * 0x100 + z
  }

  /** The four characters for one, two or three bytes. */
  function Block(b: seq<byte>): (r: string)
    requires 1 <= |b| <= 3
    ensures |r| == 4
  {
    var value := Packed(b);
    [Letter(Sextet(value, 0)), Letter(Sextet(value, 1)),
     if |b| > 1 then Letter(Sextet(value, 2)) else '=',
     if |b| > 2 then Letter(Sextet(value, 3)) else '=']
  }

  /** The characters without line breaks. */
  function Encode(b: seq<byte>): string
  {
    if b == [] then ""
    else if |b| <= 3 then Block(b)
    else Block(b[..3]) + Encode(b[3..])
  }

  /** Lines of `width` characters; a width of 0 means one line. */
  function Wrapped(s: string, width: nat): string
    decreases |s|
  {
    if width == 0 || |s| <= width then s else s[..width] + "\n" + Wrapped(s[width..], width)
  }

  function LastLine(s: string, width: nat): (n: nat)
    ensures width > 0 && s != [] ==> 1 <= n <= width
    ensures s == [] ==> n == 0
    decreases |s|
  {
    if width == 0 || |s| <= width then |s| else LastLine(s[width..], width)
  }

  /** One more character goes on the last line, or starts a new one when it is full. */
  lemma {:induction false} WrappedSnoc(s: string, c: char, width: nat)
    requires width > 0
    ensures LastLine(s + [c], width) == if LastLine(s, width) == width then 1 else LastLine(s, width) + 1
    ensures Wrapped(s + [c], width) ==
            Wrapped(s, width) + (if LastLine(s, width) == width then "\n" else "") + [c]
    decreases |s|
  {
    var t := s + [c];
    if |s| > width {
      WrappedSnoc(s[width..], c, width);
      assert t[..width] == s[..width] && t[width..] == s[width..] + [c];
    } else if |s| == width {
      assert t[..width] == s && t[width..] == [c];
    }
  }

  /** The inner loop of `encodeBase64`: four characters, with the line breaks. */
  method AppendBlock(text: string, at: nat, block: string, lineLength: nat, ghost flat: string)
      returns (output: string, column: nat)
    requires text == Wrapped(flat, lineLength) && (lineLength > 0 ==> at == LastLine(flat, lineLength))
    ensures output == Wrapped(flat + block, lineLength)
    ensures lineLength > 0 ==> column == LastLine(flat + block, lineLength)
  {
    output, column := text, at;
    assert flat + block[..0] == flat;
    for k := 0 to |block|
      invariant output == Wrapped(flat + block[..k], lineLength)
      invariant lineLength > 0 ==> column == LastLine(flat + block[..k], lineLength)
    {
      assert flat + block[..k + 1] == flat + block[..k] + [block[k]];
      if lineLength > 0 { WrappedSnoc(flat + block[..k], block[k], lineLength); }
      if lineLength > 0 && column == lineLength {
        output := output + "\n";
        column := 0;
      }
      output := output + [block[k]];
      column := column + 1;
    }
    assert block[..|block|] == block;
  }

  /** `encodeBase64`: blocks of three bytes, and a column that breaks the lines. */
  method EncodeText(input: seq<byte>, lineLength: nat) returns (output: string)
    ensures output == Wrapped(Encode(input), lineLength)
  {
    output := "";
    ghost var flat := "";
    var column, offset := 0, 0;
    while offset < |input|
      invariant offset <= |input|
      invariant Encode(input) == flat + Encode(input[offset..])
      invariant output == Wrapped(flat, lineLength)
      invariant lineLength > 0 ==> column == LastLine(flat, lineLength)
    {
      var n := if |input| - offset < 3 then |input| - offset else 3;
      EncodeAt(input, offset, n, flat);
      var block := Block(input[offset..offset + n]);
      output, column := AppendBlock(output, column, block, lineLength, flat);
      flat := flat + block;
      offset := offset + n;
    }
    assert flat + "" == flat;
  }

  lemma {:induction false} EncodeStep(b: seq<byte>)
    requires b != []
    ensures var n := if |b| < 3 then |b| else 3;
            Encode(b) == Block(b[..n]) + Encode(b[n..])
  {
    if |b| <= 3 {
      assert b[..|b|] == b && b[|b|..] == [];
      assert Block(b) + "" == Block(b);
    }
  }

  lemma EncodeAt(input: seq<byte>, offset: nat, n: nat, flat: string)
    requires offset < |input| && n == (if |input| - offset < 3 then |input| - offset else 3)
    requires Encode(input) == flat + Encode(input[offset..])
    ensures Encode(input) == flat + Block(input[offset..offset + n]) + Encode(input[offset + n..])
  {
    EncodeStep(input[offset..]);
    Slices(input, offset, n);
    Associate(flat, Block(input[offset..offset + n]), Encode(input[offset + n..]));
  }

  lemma Slices(input: seq<byte>, offset: nat, n: nat)
    requires offset + n <= |input|
    ensures input[offset..][..n] == input[offset..offset + n] && input[offset..][n..] == input[offset + n..]
  {
  }

  lemma Associate(a: string, b: string, c: string)
    ensures a + (b + c) == a + b + c
  {
  }

  // ------------------------------------------------------------------ decoding

  function Unwrap(s: string): string
  {
    if s == [] then "" else if s[0] == '\n' then Unwrap(s[1..]) else [s[0]] + Unwrap(s[1..])
  }

  /** Full groups of four letters, then a last group that may be padded or cut. */
  function Decode(s: string): Option<seq<byte>>
    decreases |s|
  {
    if s == [] then Some([])
    else if |s| >= 4 && IsLetter(s[0]) && IsLetter(s[1]) && IsLetter(s[2]) && IsLetter(s[3]) then
      var rest := Decode(s[4..]);
      if rest.None? then None else Some(Three(s) + rest.value)
    else if !(|s| >= 2 && IsLetter(s[0]) && IsLetter(s[1])) then None
    else if |s| == 2 || (|s| == 4 && s[2] == '=' && s[3] == '=') then Some(One(s))
    else if IsLetter(s[2]) && (|s| == 3 || (|s| == 4 && s[3] == '=')) then Some(Two(s))
    else None
  }

  function Three(s: string): (r: seq<byte>)
    requires |s| >= 4 && IsLetter(s[0]) && IsLetter(s[1]) && IsLetter(s[2]) && IsLetter(s[3])
  {
    Unpack3(((ValueOf(s[0]) * 64 + ValueOf(s[1])) * 64 + ValueOf(s[2])) * 64 + ValueOf(s[3]))
  }

  function Two(s: string): (r: seq<byte>)
    requires |s| >= 3 && IsLetter(s[0]) && IsLetter(s[1]) && IsLetter(s[2])
  {
    Unpack2(((ValueOf(s[0]) * 64 + ValueOf(s[1])) * 64 + ValueOf(s[2])) / 4)
  }

  function One(s: string): (r: seq<byte>)
    requires |s| >= 2 && IsLetter(s[0]) && IsLetter(s[1])
  {
    [(ValueOf(s[0]) * 64 + ValueOf(s[1])) / 16]
  }

  function Unpack3(v: nat): seq<byte>
    requires v < 0x100_0000
  {
    [v / 0x1_0000, v / 0x100 % 0x100, v % 0x100]
  }

  function Unpack2(v: nat): seq<byte>
    requires v < 0x1_0000
  {
    [v / 0x100, v % 0x100]
  }

  lemma Unpack3At(x: byte, y: byte, z: byte)
    ensures Unpack3(x as int * 0x1_0000 + y as int * 0x100 + z) == [x, y, z]
  {
    var v: nat := x as int * 0x1_0000 + y as int * 0x100 + z;
    var w: nat := x as int * 0x100 + y;
    assert v == w * 0x100 + z;
    assert v / 0x100 == w && v % 0x100 == z;
    assert w / 0x100 == x && w % 0x100 == y;
    assert v / 0x1_0000 == w / 0x100;
  }

  lemma SextetsOf(value: nat)
    requires value < 0x100_0000
    ensures ((Sextet(value, 0) * 64 + Sextet(value, 1)) * 64 + Sextet(value, 2)) * 64 + Sextet(value, 3) == value
  {
    var a := value / 64;
    var b := a / 64;
    assert value / 0x1000 == b && value / 0x4_0000 == b / 64;
    assert value == a * 64 + value % 64 && a == b * 64 + a % 64 && b == b / 64 * 64 + b % 64;
  }

  lemma BlockLetters(b: seq<byte>)
    requires 1 <= |b| <= 3
    ensures IsLetter(Block(b)[0]) && ValueOf(Block(b)[0]) == Sextet(Packed(b), 0)
    ensures IsLetter(Block(b)[1]) && ValueOf(Block(b)[1]) == Sextet(Packed(b), 1)
    ensures if |b| > 1 then IsLetter(Block(b)[2]) && ValueOf(Block(b)[2]) == Sextet(Packed(b), 2) else Block(b)[2] == '='
    ensures if |b| > 2 then IsLetter(Block(b)[3]) && ValueOf(Block(b)[3]) == Sextet(Packed(b), 3) else Block(b)[3] == '='
  {
    var v := Packed(b);
    LetterValue(Sextet(v, 0));
    LetterValue(Sextet(v, 1));
    LetterValue(Sextet(v, 2));
    LetterValue(Sextet(v, 3));
  }

  lemma DecodeThree(b: seq<byte>)
    requires |b| == 3
    ensures IsLetter(Block(b)[0]) && IsLetter(Block(b)[1]) && IsLetter(Block(b)[2]) && IsLetter(Block(b)[3])
    ensures Three(Block(b)) == b
  {
    BlockLetters(b);
    SextetsOf(Packed(b));
    Unpack3At(b[0], b[1], b[2]);
  }

  /** Dropping zero sextets: the front of the number. */
  lemma FrontOfTwo(v: nat, x: nat)
    requires v < 0x100_0000 && v == 0x1000 * x
    ensures Sextet(v, 0) * 64 + Sextet(v, 1) == x
  {
    SextetsOf(v);
  }

  lemma FrontOfThree(v: nat, x: nat)
    requires v < 0x100_0000 && v == 0x40 * x
    ensures (Sextet(v, 0) * 64 + Sextet(v, 1)) * 64 + Sextet(v, 2) == x
  {
    SextetsOf(v);
  }

  lemma DecodeOne(b: seq<byte>)
    requires |b| == 1
    ensures Decode(Block(b)) == Some(b)
  {
    BlockLetters(b);
    var x: nat := b[0];
    FrontOfTwo(Packed(b), 16 * x);
    assert One(Block(b)) == b;
  }

  lemma Unpack2At(x: nat, y: nat)
    requires x < 0x100 && y < 0x100
    ensures Unpack2(x * 0x100 + y) == [x, y]
  {
  }

  lemma TwoOfBlock(b: seq<byte>)
    requires |b| == 2
    ensures IsLetter(Block(b)[0]) && IsLetter(Block(b)[1]) && IsLetter(Block(b)[2])
    ensures Two(Block(b)) == b
  {
    BlockLetters(b);
    FrontOfThree(Packed(b), 4 * (b[0] as int * 0x100 + b[1] as int));
    Unpack2At(b[0], b[1]);
  }

  lemma DecodeTwo(b: seq<byte>)
    requires |b| == 2
    ensures Decode(Block(b)) == Some(b)
  {
    BlockLetters(b);
    TwoOfBlock(b);
  }

  lemma DecodeFull(b: seq<byte>, rest: string, tail: seq<byte>)
    requires |b| == 3 && Decode(rest) == Some(tail)
    ensures Decode(Block(b) + rest) == Some(b + tail)
  {
    DecodeThree(b);
    var s := Block(b) + rest;
    assert s[4..] == rest;
    assert Three(s) == Three(Block(b));
  }

  lemma {:induction false} DecodeEncode(b: seq<byte>)
    ensures Decode(Encode(b)) == Some(b)
    decreases |b|
  {
    if |b| == 1 {
      DecodeOne(b);
    } else if |b| == 2 {
      DecodeTwo(b);
    } else if |b| >= 3 {
      DecodeEncode(b[3..]);
      DecodeFull(b[..3], Encode(b[3..]), b[3..]);
      EncodeStep(b);
      assert b == b[..3] + b[3..];
    }
  }

  lemma {:induction false} UnwrapConcat(a: string, b: string)
    ensures Unwrap(a + b) == Unwrap(a) + Unwrap(b)
    decreases |a|
  {
    if a == [] {
      assert a + b == b;
    } else {
      assert (a + b)[1..] == a[1..] + b;
      UnwrapConcat(a[1..], b);
    }
  }

  lemma {:induction false} UnwrapPlain(s: string)
    requires '\n' !in s
    ensures Unwrap(s) == s
  {
    if s != [] { UnwrapPlain(s[1..]); }
  }

  lemma {:induction false} UnwrapWrapped(s: string, width: nat)
    requires '\n' !in s
    ensures Unwrap(Wrapped(s, width)) == s
    decreases |s|
  {
    if width == 0 || |s| <= width {
      UnwrapPlain(s);
    } else {
      var head, tail := s[..width], s[width..];
      UnwrapWrapped(tail, width);
      UnwrapPlain(head);
      UnwrapConcat(head + "\n", Wrapped(tail, width));
      UnwrapConcat(head, "\n");
      assert Unwrap("\n") == "";
      assert head + "" == head && s == head + tail;
    }
  }

  lemma {:induction false} EncodeLetters(b: seq<byte>)
    ensures forall i :: 0 <= i < |Encode(b)| ==> IsLetter(Encode(b)[i]) || Encode(b)[i] == '='
    decreases |b|
  {
    if |b| > 3 { EncodeLetters(b[3..]); }
  }

  lemma BlocksOf(n: nat)
    requires n >= 3
    ensures (n + 2) / 3 == (n - 3 + 2) / 3 + 1
  {
  }

  /** Four characters for every three bytes begun. */
  lemma {:induction false} EncodeLength(b: seq<byte>)
    ensures |Encode(b)| == (|b| + 2) / 3 * 4
    decreases |b|
  {
    if |b| > 3 {
      EncodeLength(b[3..]);
      EncodeStep(b);
      BlocksOf(|b|);
    }
  }

  /** Main result: for every byte sequence and every line length, skipping the line
      breaks and decoding gives the bytes back. */
  lemma RoundTrip(b: seq<byte>, width: nat)
    ensures Decode(Unwrap(Wrapped(Encode(b), width))) == Some(b)
  {
    EncodeLetters(b);
    UnwrapWrapped(Encode(b), width);
    DecodeEncode(b);
  }
}
