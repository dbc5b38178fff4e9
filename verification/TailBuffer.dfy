/** The output collector: a ring of bytes that keeps the end of a stream, and the
    reader that takes the end of a file; both report the same whole lines. */
module TailBuffer {
  import opened Bytes

  const NEWLINE: byte := 10

  /** A report, and whether earlier output was left out. */
  datatype Report = Report(omitted: bool, text: seq<byte>)

  // ------------------------------------------------------------------ meaning

  function Last(s: seq<byte>, n: nat): (r: seq<byte>)
    ensures |r| == if |s| <= n then |s| else n
  {
    if |s| <= n then s else s[|s| - n..]
  }

  function First(s: seq<byte>, n: nat): seq<byte>
  {
    if |s| <= n then s else s[..n]
  }

  /** What follows the first newline; nothing when there is none. */
  function AfterNewline(s: seq<byte>): seq<byte>
  {
    if s == [] then [] else if s[0] == NEWLINE then s[1..] else AfterNewline(s[1..])
  }

  /** The end of a stream: all of it if it fits, and otherwise its last bytes from
      the first line that begins among them. */
  function TailReport(stream: seq<byte>, capacity: nat): Report
  {
    if |stream| <= capacity then Report(false, stream)
    else Report(true, AfterNewline(Last(stream, capacity)))
  }

  /** The suffix of length `n` begins a line whose newline lies in the last `capacity` bytes. */
  predicate LineStart(stream: seq<byte>, capacity: nat, n: nat)
  {
    n < capacity && n < |stream| && stream[|stream| - n - 1] == NEWLINE
  }

  lemma {:induction false} AfterNewlineIs(s: seq<byte>)
    ensures var t := AfterNewline(s);
            |t| <= |s| && t == s[|s| - |t|..]
            && (NEWLINE in s ==> |t| < |s| && s[|s| - |t| - 1] == NEWLINE && NEWLINE !in s[..|s| - |t| - 1])
            && (NEWLINE !in s ==> t == [])
  {
    if s != [] && s[0] != NEWLINE {
      AfterNewlineIs(s[1..]);
      var t := AfterNewline(s[1..]);
      assert s == [s[0]] + s[1..];
      if NEWLINE in s[1..] {
        assert s[..|s| - |t| - 1] == [s[0]] + s[1..][..|s| - 1 - |t| - 1];
      }
    }
  }

  /** An omitting report is the longest end of the stream that starts a line within
      the window, or nothing when no line starts there. */
  lemma TailReportIsWholeLines(stream: seq<byte>, capacity: nat)
    requires |stream| > capacity
    ensures TailReport(stream, capacity).omitted
    ensures |TailReport(stream, capacity).text| <= |stream|
    ensures TailReport(stream, capacity).text == Last(stream, |TailReport(stream, capacity).text|)
    ensures TailReport(stream, capacity).text != [] ==>
              LineStart(stream, capacity, |TailReport(stream, capacity).text|)
    ensures forall n: nat :: LineStart(stream, capacity, n) ==> n <= |TailReport(stream, capacity).text|
  {
    var w, t := Last(stream, capacity), TailReport(stream, capacity).text;
    AfterNewlineIs(w);
    assert forall k :: 0 <= k < capacity ==> w[k] == stream[|stream| - capacity + k];
    forall n: nat | LineStart(stream, capacity, n) ensures n <= |t| {
      var k := capacity - n - 1;
      assert w[k] == NEWLINE;
      assert forall j :: 0 <= j < capacity - |t| - 1 ==> w[j] in w[..capacity - |t| - 1];
    }
  }

  lemma LastSnoc(s: seq<byte>, x: byte, n: nat)
    requires n > 0
    ensures Last(s + [x], n) == (if |s| < n then Last(s, n) else Last(s, n)[1..]) + [x]
  {
  }

  /** `length` bytes of a ring from `start` on. */
  function Ring(a: seq<byte>, start: nat, length: nat): (r: seq<byte>)
    requires length <= |a| && (length > 0 ==> start < |a|)
    ensures |r| == length
  {
    seq(length, i requires 0 <= i < length => a[Wrap(start + i, |a|)])
  }

  function Wrap(k: nat, n: nat): (r: nat)
    requires k < 2 * n
    ensures r < n
  {
    if k < n then k else k - n
  }

  lemma WrapAround(k: nat, n: nat)
    requires k < 2 * n
    ensures k % n == Wrap(k, n)
  {
    if k < n { assert k == 0 * n + k; } else { assert k == 1 * n + (k - n); }
  }

  lemma RingGrows(a: seq<byte>, start: nat, length: nat, x: byte)
    requires length < |a| && start < |a|
    ensures Ring(a[Wrap(start + length, |a|) := x], start, length + 1) == Ring(a, start, length) + [x]
  {
    var n := |a|;
    var grown := Ring(a[Wrap(start + length, n) := x], start, length + 1);
    forall i | 0 <= i < length ensures grown[i] == Ring(a, start, length)[i] {
      assert Wrap(start + i, n) != Wrap(start + length, n);
    }
    assert grown == grown[..length] + [grown[length]];
    assert grown[..length] == Ring(a, start, length);
  }

  lemma RingTurns(a: seq<byte>, start: nat, x: byte)
    requires start < |a|
    ensures Ring(a[start := x], Wrap(start + 1, |a|), |a|) == Ring(a, start, |a|)[1..] + [x]
  {
    var n := |a|;
    var turned, rest := Ring(a[start := x], Wrap(start + 1, n), n), Ring(a, start, n)[1..];
    forall i | 0 <= i < n - 1 ensures turned[i] == rest[i] {
      assert rest[i] == a[Wrap(start + (i + 1), n)];
      assert Wrap(Wrap(start + 1, n) + i, n) == Wrap(start + (i + 1), n);
    }
    assert turned[n - 1] == x by { assert Wrap(Wrap(start + 1, n) + (n - 1), n) == start; }
    assert turned == turned[..n - 1] + [turned[n - 1]];
    assert turned[..n - 1] == rest;
  }

  /** The two copies that unroll a ring. */
  lemma RingUnrolled(a: seq<byte>, start: nat, length: nat)
    requires length <= |a| && start < |a|
    ensures length <= |a| - start ==> Ring(a, start, length) == a[start..start + length]
    ensures length > |a| - start ==> Ring(a, start, length) == a[start..] + a[..length - (|a| - start)]
  {
    assert forall i :: 0 <= i < length ==> Ring(a, start, length)[i] == a[Wrap(start + i, |a|)];
  }

  // ------------------------------------------------------------- the collector

  class OutputCollector {
    const bytes: array<byte>
    const retainTail: bool
    var start: nat
    var length: nat
    var truncated: bool
    ghost var stream: seq<byte>

    ghost predicate Valid()
      reads this, bytes
    {
      && length <= bytes.Length
      && (length < bytes.Length || !retainTail ==> start == 0)
      && (if retainTail then
            && start < bytes.Length
            && Ring(bytes[..], start, length) == Last(stream, bytes.Length)
            && (truncated <==> |stream| > bytes.Length)
          else bytes[..length] == First(stream, bytes.Length) && !truncated)
    }

    constructor (capacity: nat, retainTail: bool)
      requires retainTail ==> capacity > 0
      ensures Valid() && stream == [] && fresh(bytes)
      ensures bytes.Length == capacity && this.retainTail == retainTail
    {
      this.bytes := new byte[capacity](_ => 0);
      this.retainTail := retainTail;
      start, length, truncated, stream := 0, 0, false, [];
    }

    /** One turn of the tail-mode loop. */
    method Push(x: byte)
      requires Valid() && retainTail
      modifies this, bytes
      ensures Valid() && stream == old(stream) + [x]
    {
      ghost var a, n := bytes[..], bytes.Length;
      LastSnoc(stream, x, n);
      if length < bytes.Length {
        RingGrows(a, start, length, x);
        var at := (start + length) % bytes.Length;
        WrapAround(start + length, n);
        bytes[at] := x;
        assert bytes[..] == a[at := x];
        length := length + 1;
      } else {
        RingTurns(a, start, x);
        bytes[start] := x;
        assert bytes[..] == a[start := x];
        WrapAround(start + 1, n);
        start := (start + 1) % bytes.Length;
        truncated := true;
      }
      stream := stream + [x];
    }

    /** `append`: however a stream is cut into chunks, the collector only sees their
        concatenation. */
    method Append(source: seq<byte>)
      requires Valid()
      modifies this, bytes
      ensures Valid() && stream == old(stream) + source
    {
      if |source| == 0 {
        assert stream + source == stream;
        return;
      }
      if !retainTail {
        var room := bytes.Length - length;
        var copy := if |source| < room then |source| else room;
        ghost var a := bytes[..length];
        forall i | 0 <= i < copy { bytes[length + i] := source[i]; }
        assert bytes[..length + copy] == a + source[..copy];
        length := length + copy;
        stream := stream + source;
        return;
      }
      for index := 0 to |source|
        invariant Valid() && stream == old(stream) + source[..index]
      {
        Push(source[index]);
        assert source[..index + 1] == source[..index] + [source[index]];
      }
      assert source[..|source|] == source;
    }

    /** `output`, up to the decoding of the bytes as text. */
    method Output() returns (r: Report)
      requires Valid()
      ensures retainTail ==> r == TailReport(stream, bytes.Length)
      ensures !retainTail ==> r == Report(false, First(stream, bytes.Length))
    {
      var output: seq<byte>;
      if length == 0 {
        output := [];
      } else {
        var first := if length < bytes.Length - start then length else bytes.Length - start;
        output := bytes[start..start + first];
        if first < length { output := output + bytes[..length - first]; }
        RingUnrolled(bytes[..], start, length);
        assert bytes[start..start + first] == bytes[..][start..start + first];
        assert bytes[..length - first] == bytes[..][..length - first];
      }
      assert retainTail ==> output == Last(stream, bytes.Length);
      assert !retainTail ==> output == bytes[..length];
      var offset := 0;
      if truncated {
        offset := SkipLine(output);
      }
      return Report(truncated, output[offset..]);
    }
  }

  /** The loop that drops the cut line at the front. */
  method SkipLine(s: seq<byte>) returns (offset: nat)
    ensures offset <= |s| && s[offset..] == AfterNewline(s)
  {
    offset := 0;
    while offset < |s| && s[offset] != NEWLINE
      invariant offset <= |s| && AfterNewline(s[offset..]) == AfterNewline(s)
    {
      assert s[offset..][1..] == s[offset + 1..];
      offset := offset + 1;
    }
    if offset < |s| {
      assert s[offset..][1..] == s[offset + 1..];
      offset := offset + 1;
    }
  }

  function Concat(chunks: seq<seq<byte>>): seq<byte>
  {
    if chunks == [] then [] else Concat(chunks[..|chunks| - 1]) + chunks[|chunks| - 1]
  }

  /** `run` and then `output`: the report depends on the stream alone. */
  method Collect(chunks: seq<seq<byte>>, capacity: nat, retainTail: bool) returns (r: Report)
    requires retainTail ==> capacity > 0
    ensures retainTail ==> r == TailReport(Concat(chunks), capacity)
    ensures !retainTail ==> r == Report(false, First(Concat(chunks), capacity))
  {
    var c := new OutputCollector(capacity, retainTail);
    for k := 0 to |chunks|
      invariant c.Valid() && c.stream == Concat(chunks[..k]) && fresh(c) && fresh(c.bytes)
    {
      assert chunks[..k + 1][..k] == chunks[..k];
      c.Append(chunks[k]);
    }
    assert chunks[..|chunks|] == chunks;
    r := c.Output();
  }

  /** `readTail` of the operation log: seek near the end, read, drop the cut line. */
  method ReadTail(file: seq<byte>, capacity: nat) returns (r: Report)
    ensures r == TailReport(file, capacity)
  {
    var start := if |file| > capacity then |file| - capacity else 0;
    var bytes := file[start..];
    var offset := 0;
    if start > 0 {
      offset := SkipLine(bytes);
    }
    return Report(start > 0, bytes[offset..]);
  }
}
