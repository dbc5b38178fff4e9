/** Octets, fixed-width big-endian words, and the two's-complement view of a
    32-bit word.  Every integer width of the protocol is written out here. */
module Bytes {

  type byte = x: int | 0 <= x < 256
  type u16 = x: int | 0 <= x < 0x1_0000
  type u32 = x: int | 0 <= x < 0x1_0000_0000
  type u64 = x: int | 0 <= x < 0x1_0000_0000_0000_0000
  type i32 = x: int | -0x8000_0000 <= x < 0x8000_0000

  function PutU16(v: u16): (r: seq<byte>)
    ensures |r| == 2
  {
    [v / 0x100, v % 0x100]
  }

  function PutU32(v: u32): (r: seq<byte>)
    ensures |r| == 4
  {
    PutU16(v / 0x1_0000) + PutU16(v % 0x1_0000)
  }

  function PutU64(v: u64): (r: seq<byte>)
    ensures |r| == 8
  {
    PutU32(v / 0x1_0000_0000) + PutU32(v % 0x1_0000_0000)
  }

  function GetU16(s: seq<byte>, at: nat): (v: u16)
    requires at + 2 <= |s|
  {
    (s[at] as int) * 0x100 + (s[at + 1] as int)
  }

  function GetU32(s: seq<byte>, at: nat): (v: u32)
    requires at + 4 <= |s|
  {
    (GetU16(s, at) as int) * 0x1_0000 + (GetU16(s, at + 2) as int)
  }

  function GetU64(s: seq<byte>, at: nat): (v: u64)
    requires at + 8 <= |s|
  {
    (GetU32(s, at) as int) * 0x1_0000_0000 + (GetU32(s, at + 4) as int)
  }

  /** The unsigned word a signed status travels in. */
  function ToWord(v: i32): (w: u32)
  {
    if v < 0 then v + 0x1_0000_0000 else v
  }

  function FromWord(w: u32): (v: i32)
    ensures ToWord(v) == w
  {
    if w < 0x8000_0000 then w else w - 0x1_0000_0000
  }

  lemma GetPutU16(s: seq<byte>, at: nat, v: u16)
    requires at + 2 <= |s| && s[at..at + 2] == PutU16(v)
    ensures GetU16(s, at) == v
  {
    assert s[at] == s[at..at + 2][0] && s[at + 1] == s[at..at + 2][1];
  }

  lemma GetPutU32(s: seq<byte>, at: nat, v: u32)
    requires at + 4 <= |s| && s[at..at + 4] == PutU32(v)
    ensures GetU32(s, at) == v
  {
    assert s[at..at + 2] == s[at..at + 4][..2] == PutU16(v / 0x1_0000);
    assert s[at + 2..at + 4] == s[at..at + 4][2..] == PutU16(v % 0x1_0000);
    GetPutU16(s, at, v / 0x1_0000);
    GetPutU16(s, at + 2, v % 0x1_0000);
  }

  lemma GetPutU64(s: seq<byte>, at: nat, v: u64)
    requires at + 8 <= |s| && s[at..at + 8] == PutU64(v)
    ensures GetU64(s, at) == v
  {
    assert s[at..at + 4] == s[at..at + 8][..4] == PutU32(v / 0x1_0000_0000);
    assert s[at + 4..at + 8] == s[at..at + 8][4..] == PutU32(v % 0x1_0000_0000);
    GetPutU32(s, at, v / 0x1_0000_0000);
    GetPutU32(s, at + 4, v % 0x1_0000_0000);
  }

  lemma PutGetU16(s: seq<byte>, at: nat)
    requires at + 2 <= |s|
    ensures PutU16(GetU16(s, at)) == s[at..at + 2]
  {
  }

  lemma PutGetU32(s: seq<byte>, at: nat)
    requires at + 4 <= |s|
    ensures PutU32(GetU32(s, at)) == s[at..at + 4]
  {
    PutGetU16(s, at);
    PutGetU16(s, at + 2);
    assert s[at..at + 4] == s[at..at + 2] + s[at + 2..at + 4];
  }

  lemma Halves(high: u32, low: u32)
    ensures (high * 0x1_0000_0000 + low) / 0x1_0000_0000 == high
    ensures (high * 0x1_0000_0000 + low) % 0x1_0000_0000 == low
  {
  }

  lemma PutGetU64(s: seq<byte>, at: nat)
    requires at + 8 <= |s|
    ensures PutU64(GetU64(s, at)) == s[at..at + 8]
  {
    var high, low := GetU32(s, at), GetU32(s, at + 4);
    Halves(high, low);
    assert PutU64(GetU64(s, at)) == PutU32(high) + PutU32(low);
    PutGetU32(s, at);
    PutGetU32(s, at + 4);
    assert s[at..at + 8] == s[at..at + 4] + s[at + 4..at + 8];
  }
}
