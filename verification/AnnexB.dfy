/** Splitting an Annex-B byte stream into access units at its access unit
    delimiters (NAL unit type 9), after a 3- or a 4-byte start code. */
module AnnexB {
  import opened Bytes

  const MAX_UNITS: nat := 1024

  // ------------------------------------------------------------------- meaning

  /** A delimiter: 00 00 01, a header of type 9 and at least one byte more. */
  predicate Delimiter(data: seq<byte>, p: nat)
  {
    p + 4 < |data| && data[p] == 0 && data[p + 1] == 0 && data[p + 2] == 1 && data[p + 3] % 32 == 9
  }

  /** Where a delimiter's start code begins: one zero earlier if there is one. */
  function StartOf(data: seq<byte>, p: nat): (r: nat)
    ensures r <= p
  {
    if 0 < p <= |data| && data[p - 1] == 0 then p - 1 else p
  }

  /** All delimiters from position `k` on, in order. */
  function DelimitersFrom(data: seq<byte>, k: nat): (r: seq<nat>)
    decreases |data| - k
  {
    if k >= |data| then []
    else (if Delimiter(data, k) then [k] else []) + DelimitersFrom(data, k + 1)
  }

  lemma {:induction false} DelimitersSound(data: seq<byte>, k: nat)
    ensures forall i :: 0 <= i < |DelimitersFrom(data, k)| ==>
              k <= DelimitersFrom(data, k)[i] && Delimiter(data, DelimitersFrom(data, k)[i])
    ensures forall i, j :: 0 <= i < j < |DelimitersFrom(data, k)| ==>
              DelimitersFrom(data, k)[i] < DelimitersFrom(data, k)[j]
    decreases |data| - k
  {
    if k < |data| { DelimitersSound(data, k + 1); }
  }

  lemma {:induction false} DelimitersComplete(data: seq<byte>, k: nat, p: nat)
    requires k <= p && Delimiter(data, p)
    ensures p in DelimitersFrom(data, k)
    decreases |data| - k
  {
    if k < p { DelimitersComplete(data, k + 1, p); }
  }

  /** The starts of all the delimiters, in order. */
  function Starts(data: seq<byte>): (r: seq<nat>)
    ensures |r| == |DelimitersFrom(data, 0)|
  {
    var all := DelimitersFrom(data, 0);
    seq(|all|, i requires 0 <= i < |all| => StartOf(data, all[i]))
  }

  lemma DelimitersApart(data: seq<byte>, p: nat, q: nat)
    requires Delimiter(data, p) && Delimiter(data, q) && p < q
    ensures q >= p + 4 && StartOf(data, q) >= p + 4
  {
    assert data[p + 3] != 0;
  }

  lemma {:induction false} SkipTo(data: seq<byte>, a: nat, b: nat)
    requires a <= b && forall p: nat :: a <= p < b ==> !Delimiter(data, p)
    ensures DelimitersFrom(data, a) == DelimitersFrom(data, b)
    decreases b - a
  {
    if a < b { SkipTo(data, a + 1, b); }
  }

  // -------------------------------------------------------------------- the scan

  /** The loop's test at one index: a 3-byte code, else a 4-byte one. */
  predicate Hit(data: seq<byte>, i: nat)
  {
    i + 4 < |data| &&
    if data[i] == 0 && data[i + 1] == 0 && data[i + 2] == 1 then data[i + 3] % 32 == 9
    else i + 5 < |data| && data[i] == 0 && data[i + 1] == 0 && data[i + 2] == 0 && data[i + 3] == 1
         && data[i + 4] % 32 == 9
  }

  lemma HitIsDelimiter(data: seq<byte>, i: nat)
    ensures Hit(data, i) <==> Delimiter(data, i) || (i < |data| && data[i] == 0 && Delimiter(data, i + 1))
  {
  }

  /** `find_aud`. */
  method FindAud(data: seq<byte>, from: nat) returns (found: bool, position: nat)
    ensures found ==> from <= position && Hit(data, position) && forall i: nat :: from <= i < position ==> !Hit(data, i)
    ensures !found ==> forall i: nat :: from <= i ==> !Hit(data, i)
  {
    var index := from;
    while index + 4 < |data|
      invariant forall i: nat :: from <= i < index ==> !Hit(data, i)
      decreases |data| - index
    {
      var prefix := 0;
      if data[index] == 0 && data[index + 1] == 0 && data[index + 2] == 1 {
        prefix := 3;
      } else if index + 5 < |data| && data[index] == 0 && data[index + 1] == 0
                && data[index + 2] == 0 && data[index + 3] == 1 {
        prefix := 4;
      }
      if prefix > 0 && data[index + prefix] % 32 == 9 {
        return true, index;
      }
      index := index + 1;
    }
    return false, 0;
  }

  /** No start code crosses the search position from the left. */
  predicate Clean(data: seq<byte>, search: nat)
  {
    search == 0 || (Delimiter(data, search) ==> data[search - 1] != 0)
  }

  /** The delimiter behind a hit. */
  function Behind(data: seq<byte>, position: nat): nat
  {
    if Delimiter(data, position) then position else position + 1
  }

  lemma HitStart(data: seq<byte>, search: nat, position: nat)
    requires Clean(data, search) && search <= position && Hit(data, position)
    requires forall i: nat :: search <= i < position ==> !Hit(data, i)
    ensures Delimiter(data, Behind(data, position)) && StartOf(data, Behind(data, position)) == position
    ensures Clean(data, position + 4)
  {
    HitIsDelimiter(data, position);
    if search < position {
      HitIsDelimiter(data, position - 1);
      assert !Hit(data, position - 1);
    }
  }

  lemma NoneBefore(data: seq<byte>, search: nat, position: nat)
    requires search <= position && forall i: nat :: search <= i < position ==> !Hit(data, i)
    ensures DelimitersFrom(data, search) == DelimitersFrom(data, Behind(data, position))
  {
    forall i: nat | search <= i < Behind(data, position) ensures !Delimiter(data, i) {
      if i < position {
        HitIsDelimiter(data, i);
        assert !Hit(data, i);
      }
    }
    SkipTo(data, search, Behind(data, position));
  }

  lemma NoneWithin(data: seq<byte>, p: nat, next: nat)
    requires Delimiter(data, p) && p < next <= p + 4
    ensures DelimitersFrom(data, p) == [p] + DelimitersFrom(data, next)
  {
    forall i: nat | p + 1 <= i < next ensures !Delimiter(data, i) {
      if Delimiter(data, i) { DelimitersApart(data, p, i); }
    }
    SkipTo(data, p + 1, next);
  }

  /** One turn: the position found is the start of the next delimiter, and the
      search resumes past it without skipping one or finding it again. */
  lemma FoundIsNext(data: seq<byte>, search: nat, position: nat)
    requires Clean(data, search) && search <= position && Hit(data, position)
    requires forall i: nat :: search <= i < position ==> !Hit(data, i)
    ensures Clean(data, position + 4)
    ensures Behind(data, position) < |data| && StartOf(data, Behind(data, position)) == position
    ensures DelimitersFrom(data, search) == [Behind(data, position)] + DelimitersFrom(data, position + 4)
  {
    HitStart(data, search, position);
    NoneBefore(data, search, position);
    NoneWithin(data, Behind(data, position), position + 4);
  }

  lemma NotFoundIsNone(data: seq<byte>, search: nat)
    requires forall i: nat :: search <= i ==> !Hit(data, i)
    ensures DelimitersFrom(data, search) == []
  {
    forall i: nat | search <= i ensures !Delimiter(data, i) {
      HitIsDelimiter(data, i);
    }
    if search < |data| { SkipTo(data, search, |data|); }
  }

  /** `inspect_vector`: every delimiter is counted exactly once. */
  method CountUnits(data: seq<byte>) returns (count: nat)
    ensures count == |DelimitersFrom(data, 0)|
  {
    count := 0;
    var search := 0;
    var found, aud := FindAud(data, search);
    while found
      invariant Clean(data, search)
      invariant found ==> search <= aud && Hit(data, aud) && forall i: nat :: search <= i < aud ==> !Hit(data, i)
      invariant !found ==> forall i: nat :: search <= i ==> !Hit(data, i)
      invariant count + |DelimitersFrom(data, search)| == |DelimitersFrom(data, 0)|
      decreases |data| - search, found
    {
      FoundIsNext(data, search, aud);
      count := count + 1;
      search := aud + 4;
      found, aud := FindAud(data, search);
    }
    NotFoundIsNone(data, search);
  }

  // ---------------------------------------------------------------- access units

  ghost predicate Rising(b: seq<nat>)
  {
    forall i, j :: 0 <= i < j < |b| ==> b[i] < b[j]
  }

  ghost predicate Within(b: seq<nat>, n: nat)
  {
    forall i :: 0 <= i < |b| ==> b[i] <= n
  }

  /** The pieces between consecutive boundaries. */
  function Units(data: seq<byte>, boundaries: seq<nat>): (r: seq<seq<byte>>)
    requires Rising(boundaries) && Within(boundaries, |data|)
    decreases |boundaries|
  {
    if |boundaries| < 2 then []
    else [data[boundaries[0]..boundaries[1]]] + Units(data, boundaries[1..])
  }

  function Concat(units: seq<seq<byte>>): seq<byte>
  {
    if units == [] then [] else units[0] + Concat(units[1..])
  }

  lemma {:induction false} UnitsConcat(data: seq<byte>, boundaries: seq<nat>)
    requires |boundaries| > 0 && Rising(boundaries) && Within(boundaries, |data|)
    ensures boundaries[0] <= boundaries[|boundaries| - 1]
    ensures Concat(Units(data, boundaries)) == data[boundaries[0]..boundaries[|boundaries| - 1]]
    decreases |boundaries|
  {
    if |boundaries| >= 2 {
      var rest := boundaries[1..];
      UnitsConcat(data, rest);
      assert rest[0] == boundaries[1] && rest[|rest| - 1] == boundaries[|boundaries| - 1];
      var units := Units(data, boundaries);
      assert units[1..] == Units(data, rest);
    }
  }

  /** What a successful split is: it starts at 0, ends at the length, rises strictly,
      and unit i begins at delimiter i's start code (unit 0 at 0) and holds delimiter i. */
  ghost predicate Split(data: seq<byte>, boundaries: seq<nat>)
  {
    var all := DelimitersFrom(data, 0);
    var n := |boundaries| - 1;
    && 0 < n <= |all|
    && boundaries[0] == 0 && boundaries[n] == |data|
    && Rising(boundaries)
    && (forall i :: 1 <= i < n ==> boundaries[i] == StartOf(data, all[i]))
    && (forall i :: 0 <= i < n ==> boundaries[i] <= all[i] < boundaries[i + 1])
  }

  /** The access units of a split put together are the whole file. */
  lemma SplitConcatenates(data: seq<byte>, boundaries: seq<nat>)
    requires Split(data, boundaries)
    ensures Rising(boundaries) && Within(boundaries, |data|)
    ensures Concat(Units(data, boundaries)) == data
  {
    UnitsConcat(data, boundaries);
    assert data[0..|data|] == data;
  }

  /** Each delimiter lies in the unit of its own number only. */
  lemma DelimiterInItsUnit(data: seq<byte>, boundaries: seq<nat>, i: nat, j: nat)
    requires Split(data, boundaries) && i < |boundaries| - 1 && j < |boundaries| - 1
    ensures boundaries[i] <= DelimitersFrom(data, 0)[j] < boundaries[i + 1] <==> i == j
  {
    assert i < j ==> boundaries[i + 1] <= boundaries[j];
    assert j < i ==> boundaries[j + 1] <= boundaries[i];
  }

  lemma SplitFromStarts(data: seq<byte>, b: seq<nat>)
    requires 2 <= |b| <= |Starts(data)| + 1
    requires b[0] == 0 && b[|b| - 1] == |data|
    requires forall i :: 1 <= i < |b| - 1 ==> b[i] == Starts(data)[i]
    ensures Split(data, b)
  {
    var all, n := DelimitersFrom(data, 0), |b| - 1;
    DelimitersSound(data, 0);
    forall i, j | 0 <= i < j < |b| ensures b[i] <= all[i] < b[j] {
      if j < n { DelimitersApart(data, all[i], all[j]); }
    }
  }

  /** After `count` delimiters the scan stands at `search`: the rest is still ahead. */
  ghost predicate StandsAt(data: seq<byte>, count: nat, search: nat)
  {
    count <= |Starts(data)| && Clean(data, search)
    && DelimitersFrom(data, 0)[count..] == DelimitersFrom(data, search)
  }

  /** One turn of the scan in terms of the list of all delimiters. */
  lemma NextInList(data: seq<byte>, count: nat, search: nat, aud: nat)
    requires StandsAt(data, count, search) && search <= aud && Hit(data, aud)
    requires forall i: nat :: search <= i < aud ==> !Hit(data, i)
    ensures count < |Starts(data)| && Starts(data)[count] == aud && StandsAt(data, count + 1, aud + 4)
  {
    FoundIsNext(data, search, aud);
    var all := DelimitersFrom(data, 0);
    assert all[count] == all[count..][0] && all[count + 1..] == all[count..][1..];
  }

  method NextStart(data: seq<byte>, search: nat, ghost count: nat) returns (found: bool, aud: nat)
    requires StandsAt(data, count, search)
    ensures found <==> count < |Starts(data)|
    ensures found ==> Starts(data)[count] == aud && StandsAt(data, count + 1, aud + 4)
  {
    found, aud := FindAud(data, search);
    if found {
      NextInList(data, count, search, aud);
    } else {
      NotFoundIsNone(data, search);
    }
  }

  lemma StandsAtStart(data: seq<byte>)
    ensures StandsAt(data, 0, 0)
  {
  }

  /** The scan of `load_access_units`: at most 1024 starts, the first ones. */
  method FillBoundaries(data: seq<byte>, boundaries: array<nat>) returns (count: nat)
    requires boundaries.Length == MAX_UNITS + 1
    modifies boundaries
    ensures count == if |Starts(data)| < MAX_UNITS then |Starts(data)| else MAX_UNITS
    ensures boundaries[..count] == Starts(data)[..count]
  {
    count := 0;
    var search := 0;
    ghost var starts := Starts(data);
    StandsAtStart(data);
    while count < MAX_UNITS
      invariant count <= MAX_UNITS && count <= |starts| && starts == Starts(data)
      invariant StandsAt(data, count, search)
      invariant boundaries[..count] == starts[..count]
    {
      var found, aud := NextStart(data, search, count);
      if !found { break; }
      boundaries[count] := aud;
      count := count + 1;
      search := aud + 4;
    }
  }

  /** `load_access_units` on a file already read, into the caller's 1025 entries. */
  method LoadAccessUnits(data: seq<byte>, expected: nat, boundaries: array<nat>) returns (ok: bool, count: nat)
    requires boundaries.Length == MAX_UNITS + 1
    modifies boundaries
    ensures count == if |DelimitersFrom(data, 0)| < MAX_UNITS then |DelimitersFrom(data, 0)| else MAX_UNITS
    ensures ok <==> count != 0 && count == expected
    ensures ok ==> Split(data, boundaries[..count + 1])
  {
    count := FillBoundaries(data, boundaries);
    if count == 0 || count != expected {
      return false, count;
    }
    assert forall i :: 0 <= i < count ==> boundaries[i] == boundaries[..count][i];
    if boundaries[0] != 0 { boundaries[0] := 0; }
    boundaries[count] := |data|;
    SplitFromStarts(data, boundaries[..count + 1]);
    return true, count;
  }
}
