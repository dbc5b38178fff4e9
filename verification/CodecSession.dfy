/** One codec session of the worker: input records, end of stream and flush.
    MediaCodec itself is a parameter: every call receives the answers that the
    platform gives to the buffer requests the session makes. */
module CodecSession {
  import opened Bytes
  import opened CodecStatus

  const FLAG_CODEC_CONFIG: u32 := 2
  const MAX_RECORD: nat := 8 * 1024 * 1024 - 16

  /** What the codec's input side received, oldest first. */
  datatype Event =
    | Record(data: seq<byte>, pts: u64, config: bool)
    | Padding(pts: u64)        // an empty buffer handed back after an oversized packet
    | EndOfStream(pts: u64)
    | Flushed(complete: bool)  // the input codec was flushed; the session only if complete

  /** One pass of `pump_transcoder`. */
  datatype Pump =
    | Pumped(frames: nat, eosSignaled: bool)
    | PumpFailed(frames: nat)

  /** The platform's answer to one input attempt; `queued` tells whether it took the
      buffer back, with the record or, when that does not fit, empty. */
  datatype Intake =
    | NoBuffer
    | Buffer(mapped: bool, capacity: nat, queued: bool)

  datatype Answer = Answer(before: Pump, intake: Intake, after: Pump)

  datatype Stats = Stats(records: nat, frames: nat, bytes: nat, eosCount: nat, again: nat, errors: nat,
                         surfaceFrames: nat)

  datatype Session = Session(
    transcoder: bool, encoder: bool,
    inputEos: bool, encoderEosSignaled: bool, pendingImage: bool,
    lastPts: u64, havePts: bool,
    stats: Stats, fed: seq<Event>)

  function NewSession(transcoder: bool, encoder: bool): Session
  {
    Session(transcoder, encoder, false, false, false, 0, false, Stats(0, 0, 0, 0, 0, 0, 0), [])
  }

  // ------------------------------------------------------------ specification

  function PumpedState(s: Session, p: Pump): Session
  {
    if !s.transcoder || s.encoderEosSignaled then s
    else s.(stats := s.stats.(surfaceFrames := s.stats.surfaceFrames + p.frames),
            encoderEosSignaled := p.Pumped? && p.eosSignaled)
  }

  predicate PumpOk(s: Session, p: Pump)
  {
    !s.transcoder || s.encoderEosSignaled || p.Pumped?
  }

  predicate OnlyConfigFlag(flags: u32)
  {
    flags == 0 || flags == FLAG_CODEC_CONFIG
  }

  /** Encoders that are not transcoders must see increasing timestamps. */
  predicate Timed(s: Session)
  {
    s.encoder && !s.transcoder
  }

  function Taken(s: Session, data: seq<byte>, pts: u64, flags: u32): Session
  {
    var config := flags == FLAG_CODEC_CONFIG;
    s.(stats := s.stats.(records := s.stats.records + 1, bytes := s.stats.bytes + |data|,
                         frames := if config then s.stats.frames else s.stats.frames + 1),
       havePts := s.havePts || (!config && Timed(s)),
       lastPts := if !config && Timed(s) then pts else s.lastPts,
       fed := s.fed + [Record(data, pts, config)])
  }

  function QueueInternal(s: Session, data: seq<byte>, pts: u64, flags: u32, a: Answer): (Session, i32)
  {
    if s.inputEos then (s, ERROR_SESSION)
    else if |data| == 0 || |data| > MAX_RECORD || !OnlyConfigFlag(flags) then (s, ERROR_PROTOCOL)
    else if Timed(s) && flags == 0 && s.havePts && pts <= s.lastPts then (s, ERROR_PROTOCOL)
    else
      var s1 := PumpedState(s, a.before);
      if !PumpOk(s, a.before) then (s1, ERROR_CODEC)
      else match a.intake
      case NoBuffer => (s1, AGAIN)
      case Buffer(mapped, capacity, queued) =>
        if !mapped || |data| > capacity then
          (if queued then s1.(fed := s1.fed + [Padding(pts)]) else s1, ERROR_LIMIT)
        else if !queued then (s1, ERROR_CODEC)
        else
          var s2 := Taken(s1, data, pts, flags);
          (PumpedState(s2, a.after), if PumpOk(s2, a.after) then OK else ERROR_CODEC)
  }

  function CountAgain(s: Session): Session
  {
    s.(stats := s.stats.(again := s.stats.again + 1))
  }

  function CountError(s: Session): Session
  {
    s.(stats := s.stats.(errors := s.stats.errors + 1))
  }

  /** `dscw_codec_queue`. */
  function Queue(s: Session, data: seq<byte>, pts: u64, flags: u32, a: Answer): (Session, i32)
  {
    var (t, status) := QueueInternal(s, data, pts, flags, a);
    (if status == AGAIN then CountAgain(t) else if status < OK then CountError(t) else t, status)
  }

  function Ended(s: Session, pts: u64): Session
  {
    s.(inputEos := true, stats := s.stats.(eosCount := s.stats.eosCount + 1), fed := s.fed + [EndOfStream(pts)])
  }

  /** `dscw_codec_queue_eos`. */
  function QueueEos(s: Session, pts: u64, a: Answer): (Session, i32)
  {
    if s.inputEos then (CountError(s), ERROR_SESSION)
    else
      var s1 := PumpedState(s, a.before);
      if !PumpOk(s, a.before) then (s1, ERROR_CODEC)
      else match a.intake
      case NoBuffer => (CountAgain(s1), AGAIN)
      case Buffer(_, _, queued) =>
        if !queued then (CountError(s1), ERROR_CODEC)
        else
          var s2 := Ended(s1, pts);
          (PumpedState(s2, a.after), if PumpOk(s2, a.after) then OK else ERROR_CODEC)
  }

  /** `dscw_codec_flush`: the input codec first; a transcoder flushes its encoder
      next, and resets the session only when that succeeds too. */
  function Flush(s: Session, input: bool, encoder: bool): (Session, i32)
  {
    if !input then (CountError(s), ERROR_CODEC)
    else if s.transcoder && !encoder then (CountError(s).(fed := s.fed + [Flushed(false)]), ERROR_CODEC)
    else (s.(inputEos := false, encoderEosSignaled := false, pendingImage := false, havePts := false,
             fed := s.fed + [Flushed(true)]), OK)
  }

  // ----------------------------------------------------- what every run keeps

  /** No flush of the input codec separates event i from the end of the history. */
  ghost predicate Current(fed: seq<Event>, i: int)
  {
    0 <= i < |fed| && forall k :: i < k < |fed| ==> !fed[k].Flushed?
  }

  /** Events i and j belong to the same stream: i comes first and no flush lies
      after i up to and including j. */
  ghost predicate SameStream(fed: seq<Event>, i: int, j: int)
  {
    0 <= i < j < |fed| && forall k :: i < k <= j ==> !fed[k].Flushed?
  }

  /** The same with complete flushes only. */
  ghost predicate SameStretch(fed: seq<Event>, i: int, j: int)
  {
    0 <= i < j < |fed| && forall k :: i < k <= j ==> fed[k] != Flushed(true)
  }

  predicate Frame(e: Event)
  {
    e.Record? && !e.config
  }

  ghost predicate CurrentFrame(fed: seq<Event>, i: int)
  {
    Current(fed, i) && Frame(fed[i])
  }

  /** The codec is fed correctly: until a complete flush nothing but incomplete
      flushes follows an end of stream, and within a stream a timed session's
      frames carry increasing timestamps. */
  ghost predicate WellFed(fed: seq<Event>, timed: bool)
  {
    && (forall i, j :: SameStretch(fed, i, j) && fed[i].EndOfStream? ==> fed[j] == Flushed(false))
    && (timed ==> forall i, j :: SameStream(fed, i, j) && Frame(fed[i]) && Frame(fed[j]) ==> fed[i].pts < fed[j].pts)
  }

  /** Event i is an end of stream with no complete flush after it. */
  ghost predicate OpenEnd(fed: seq<Event>, i: int)
  {
    0 <= i < |fed| && fed[i].EndOfStream? && forall k :: i < k < |fed| ==> fed[k] != Flushed(true)
  }

  ghost predicate EndIsOpen(fed: seq<Event>)
  {
    exists i :: OpenEnd(fed, i)
  }

  /** The flags of a session say what it was fed since its last complete flush. */
  ghost predicate HistoryInv(fed: seq<Event>, timed: bool, eos: bool, have: bool, last: u64)
  {
    && WellFed(fed, timed)
    && (eos <==> EndIsOpen(fed))
    && (timed ==> forall i :: CurrentFrame(fed, i) ==> have && fed[i].pts <= last)
    && (timed && have ==> exists i :: CurrentFrame(fed, i) && fed[i].pts == last)
  }

  ghost predicate SessionInv(s: Session)
  {
    HistoryInv(s.fed, Timed(s), s.inputEos, s.havePts, s.lastPts)
  }

  lemma CurrentAfter(fed: seq<Event>, e: Event)
    requires !e.Flushed?
    ensures forall i :: Current(fed + [e], i) <==> i == |fed| || Current(fed, i)
  {
    var more := fed + [e];
    forall i
      ensures Current(more, i) <==> i == |fed| || Current(fed, i)
    {
      if Current(more, i) && i < |fed| {
        forall k | i < k < |fed| ensures !fed[k].Flushed? { assert more[k] == fed[k]; }
      }
    }
  }

  lemma OpenEndAfter(fed: seq<Event>, e: Event)
    requires e != Flushed(true)
    ensures forall i :: OpenEnd(fed + [e], i) <==> OpenEnd(fed, i) || (i == |fed| && e.EndOfStream?)
  {
    var more := fed + [e];
    forall i
      ensures OpenEnd(more, i) <==> OpenEnd(fed, i) || (i == |fed| && e.EndOfStream?)
    {
      if OpenEnd(more, i) && i < |fed| {
        forall k | i < k < |fed| ensures fed[k] != Flushed(true) { assert more[k] == fed[k]; }
      }
    }
  }

  lemma StretchesAfter(fed: seq<Event>, e: Event)
    requires forall i, j :: SameStretch(fed, i, j) && fed[i].EndOfStream? ==> fed[j] == Flushed(false)
    requires e.Flushed? || !EndIsOpen(fed)
    ensures var more := fed + [e];
            forall i, j :: SameStretch(more, i, j) && more[i].EndOfStream? ==> more[j] == Flushed(false)
  {
    var more := fed + [e];
    forall i, j | SameStretch(more, i, j) && more[i].EndOfStream?
      ensures more[j] == Flushed(false)
    {
      forall k | i < k <= j && k < |fed| ensures fed[k] != Flushed(true) { assert more[k] == fed[k]; }
      if j < |fed| {
        assert SameStretch(fed, i, j);
      } else {
        assert more[j] != Flushed(true);
        assert OpenEnd(fed, i);
      }
    }
  }

  lemma FramesAfter(fed: seq<Event>, e: Event)
    requires forall i, j :: SameStream(fed, i, j) && Frame(fed[i]) && Frame(fed[j]) ==> fed[i].pts < fed[j].pts
    requires Frame(e) ==> forall i :: CurrentFrame(fed, i) ==> fed[i].pts < e.pts
    ensures var more := fed + [e];
            forall i, j :: SameStream(more, i, j) && Frame(more[i]) && Frame(more[j]) ==> more[i].pts < more[j].pts
  {
    var more := fed + [e];
    forall i, j | SameStream(more, i, j) && Frame(more[i]) && Frame(more[j])
      ensures more[i].pts < more[j].pts
    {
      forall k | i < k <= j && k < |fed| ensures !fed[k].Flushed? { assert more[k] == fed[k]; }
      if j < |fed| {
        assert SameStream(fed, i, j);
      } else {
        assert CurrentFrame(fed, i);
      }
    }
  }

  lemma FeedKeeps(fed: seq<Event>, timed: bool, have: bool, last: u64, e: Event)
    requires HistoryInv(fed, timed, false, have, last) && !e.Flushed?
    requires timed && Frame(e) && have ==> last < e.pts
    ensures HistoryInv(fed + [e], timed, e.EndOfStream?, have || (timed && Frame(e)),
                       if timed && Frame(e) then e.pts else last)
  {
    CurrentAfter(fed, e);
    OpenEndAfter(fed, e);
    StretchesAfter(fed, e);
    if timed { FramesAfter(fed, e); }
    if e.EndOfStream? { assert OpenEnd(fed + [e], |fed|); }
    if timed && Frame(e) {
      assert CurrentFrame(fed + [e], |fed|);
    } else if timed && have {
      var i :| CurrentFrame(fed, i) && fed[i].pts == last;
      assert CurrentFrame(fed + [e], i);
    }
  }

  /** A flush of the input codec starts a stream; only a complete one opens it. */
  lemma FlushKeeps(fed: seq<Event>, timed: bool, eos: bool, have: bool, last: u64, complete: bool)
    requires HistoryInv(fed, timed, eos, have, last) && (timed ==> complete)
    ensures HistoryInv(fed + [Flushed(complete)], timed, eos && !complete, have && !complete, last)
  {
    var e := Flushed(complete);
    var more := fed + [e];
    StretchesAfter(fed, e);
    if timed { FramesAfter(fed, e); }
    forall i | Current(more, i) ensures i == |fed| { assert more[|fed|] == e; }
    if complete {
      assert more[|fed|] == Flushed(true);
      assert forall i :: !OpenEnd(more, i);
    } else {
      OpenEndAfter(fed, e);
    }
  }

  /** One request to a session, with the platform's answers. */
  datatype Op =
    | Input(data: seq<byte>, pts: u64, flags: u32, answer: Answer)
    | Eos(eosPts: u64, answer: Answer)
    | FlushOp(input: bool, encoder: bool)

  function ApplyOp(s: Session, op: Op): (Session, i32)
  {
    match op
    case Input(data, pts, flags, a) => Queue(s, data, pts, flags, a)
    case Eos(pts, a) => QueueEos(s, pts, a)
    case FlushOp(input, encoder) => Flush(s, input, encoder)
  }

  function RunOps(s: Session, ops: seq<Op>): Session
  {
    if ops == [] then s else ApplyOp(RunOps(s, ops[..|ops| - 1]), ops[|ops| - 1]).0
  }

  /** The part of a session its history determines. */
  predicate Feeds(s: Session, t: Session, e: Event)
  {
    && t.fed == s.fed + [e] && SameMode(s, t)
    && t.inputEos == e.EndOfStream?
    && t.havePts == (s.havePts || (Timed(s) && Frame(e)))
    && t.lastPts == if Timed(s) && Frame(e) then e.pts else s.lastPts
  }

  predicate Idles(s: Session, t: Session)
  {
    t.fed == s.fed && SameMode(s, t) && t.inputEos == s.inputEos && t.havePts == s.havePts && t.lastPts == s.lastPts
  }

  predicate SameMode(s: Session, t: Session)
  {
    t.transcoder == s.transcoder && t.encoder == s.encoder
  }

  /** What one input attempt can do to the history. */
  predicate InputShaped(s: Session, t: Session, pts: u64, r: Event)
  {
    || Idles(s, t)
    || (!s.inputEos && Feeds(s, t, Padding(pts)))
    || (!s.inputEos && Feeds(s, t, r) && (Timed(s) && Frame(r) && s.havePts ==> s.lastPts < r.pts))
  }

  lemma InternalShape(s: Session, data: seq<byte>, pts: u64, flags: u32, a: Answer)
    ensures InputShaped(s, QueueInternal(s, data, pts, flags, a).0, pts, Record(data, pts, flags == FLAG_CODEC_CONFIG))
  {
    var s1 := PumpedState(s, a.before);
    var s2 := Taken(s1, data, pts, flags);
    if OnlyConfigFlag(flags) && !s.inputEos {
      TakenFeeds(s1, data, pts, flags);
      assert Idles(s2, PumpedState(s2, a.after));
    }
  }

  lemma InputShape(s: Session, data: seq<byte>, pts: u64, flags: u32, a: Answer)
    ensures InputShaped(s, Queue(s, data, pts, flags, a).0, pts, Record(data, pts, flags == FLAG_CODEC_CONFIG))
  {
    InternalShape(s, data, pts, flags, a);
    var t := QueueInternal(s, data, pts, flags, a).0;
    assert Idles(t, CountAgain(t)) && Idles(t, CountError(t));
  }

  lemma TakenFeeds(s: Session, data: seq<byte>, pts: u64, flags: u32)
    requires !s.inputEos
    ensures Feeds(s, Taken(s, data, pts, flags), Record(data, pts, flags == FLAG_CODEC_CONFIG))
  {
  }

  lemma EosShape(s: Session, pts: u64, a: Answer)
    ensures Idles(s, QueueEos(s, pts, a).0) || (!s.inputEos && Feeds(s, QueueEos(s, pts, a).0, EndOfStream(pts)))
  {
    var s1 := PumpedState(s, a.before);
    assert Idles(s, s1) && Idles(s1, CountAgain(s1)) && Idles(s1, CountError(s1));
    var s2 := Ended(s1, pts);
    assert !s.inputEos ==> Feeds(s1, s2, EndOfStream(pts));
    assert Idles(s2, PumpedState(s2, a.after));
  }

  lemma FeedsKeepsInv(s: Session, t: Session, e: Event)
    requires SessionInv(s) && !s.inputEos && Feeds(s, t, e) && !e.Flushed?
    requires Timed(s) && Frame(e) && s.havePts ==> s.lastPts < e.pts
    ensures SessionInv(t)
  {
    FeedKeeps(s.fed, Timed(s), s.havePts, s.lastPts, e);
  }

  lemma InputKeepsInv(s: Session, data: seq<byte>, pts: u64, flags: u32, a: Answer)
    requires SessionInv(s)
    ensures SessionInv(Queue(s, data, pts, flags, a).0)
  {
    var t := Queue(s, data, pts, flags, a).0;
    InputShape(s, data, pts, flags, a);
    if !Idles(s, t) {
      FeedsKeepsInv(s, t, t.fed[|s.fed|]);
    }
  }

  lemma EosKeepsInv(s: Session, pts: u64, a: Answer)
    requires SessionInv(s)
    ensures SessionInv(QueueEos(s, pts, a).0)
  {
    var t := QueueEos(s, pts, a).0;
    EosShape(s, pts, a);
    if !Idles(s, t) {
      FeedsKeepsInv(s, t, EndOfStream(pts));
    }
  }

  lemma OpKeepsInv(s: Session, op: Op)
    requires SessionInv(s)
    ensures SessionInv(ApplyOp(s, op).0)
  {
    match op
    case Input(data, pts, flags, a) => InputKeepsInv(s, data, pts, flags, a);
    case Eos(pts, a) => EosKeepsInv(s, pts, a);
    case FlushOp(input, encoder) =>
      if input { FlushKeeps(s.fed, Timed(s), s.inputEos, s.havePts, s.lastPts, !s.transcoder || encoder); }
  }

  /** Every session, however it is driven and whatever the platform answers. */
  lemma {:induction false} SessionsAreWellFed(transcoder: bool, encoder: bool, ops: seq<Op>)
    ensures SessionInv(RunOps(NewSession(transcoder, encoder), ops))
    decreases |ops|
  {
    if ops != [] {
      SessionsAreWellFed(transcoder, encoder, ops[..|ops| - 1]);
      OpKeepsInv(RunOps(NewSession(transcoder, encoder), ops[..|ops| - 1]), ops[|ops| - 1]);
    }
  }

  /** What the status of an input attempt tells the caller: success means the record
      entered the codec exactly once, AGAIN and a closed stream mean nothing did, and
      a refusal leaves at most an empty buffer, or, in a transcoder whose pump then
      failed, the record itself. */
  ghost predicate InputPromise(s: Session, t: Session, status: i32, pts: u64, r: Event)
  {
    && SessionInv(t) && SameMode(s, t) && InputFeeds(s.fed, t.fed, status, s.transcoder, pts, r)
    && (EndIsOpen(s.fed) ==> status == ERROR_SESSION && t.fed == s.fed)
  }

  predicate InputFeeds(before: seq<Event>, after: seq<Event>, status: i32, transcoder: bool, pts: u64, r: Event)
  {
    && (status == OK || status == AGAIN || status < OK)
    && (status == OK ==> after == before + [r])
    && (status == AGAIN ==> after == before)
    && (status < OK ==> after == before || after == before + [Padding(pts)] || (transcoder && after == before + [r]))
  }

  lemma {:induction false} InternalFeeds(s: Session, data: seq<byte>, pts: u64, flags: u32, a: Answer)
    ensures var (t, status) := QueueInternal(s, data, pts, flags, a);
            InputFeeds(s.fed, t.fed, status, s.transcoder, pts, Record(data, pts, flags == FLAG_CODEC_CONFIG))
            && t.transcoder == s.transcoder
  {
  }

  lemma QueueFeeds(s: Session, data: seq<byte>, pts: u64, flags: u32, a: Answer)
    ensures InputFeeds(s.fed, Queue(s, data, pts, flags, a).0.fed, Queue(s, data, pts, flags, a).1, s.transcoder, pts,
                       Record(data, pts, flags == FLAG_CODEC_CONFIG))
    ensures Queue(s, data, pts, flags, a).0.transcoder == s.transcoder
  {
    InternalFeeds(s, data, pts, flags, a);
  }

  lemma QueueStatus(s: Session, data: seq<byte>, pts: u64, flags: u32, a: Answer)
    requires SessionInv(s)
    ensures InputPromise(s, Queue(s, data, pts, flags, a).0, Queue(s, data, pts, flags, a).1, pts,
                         Record(data, pts, flags == FLAG_CODEC_CONFIG))
  {
    InputKeepsInv(s, data, pts, flags, a);
    InputShape(s, data, pts, flags, a);
    QueueFeeds(s, data, pts, flags, a);
  }

  // ------------------------------------------------- exactly which status is given

  /** What the codec has been fed so far says about a record: OK leaves it to the platform. */
  ghost function InputVerdict(fed: seq<Event>, timed: bool, data: seq<byte>, pts: u64, flags: u32): i32
  {
    if EndIsOpen(fed) then ERROR_SESSION
    else if |data| == 0 || |data| > MAX_RECORD || (flags != 0 && flags != FLAG_CODEC_CONFIG) then ERROR_PROTOCOL
    else if timed && flags == 0 && exists i :: CurrentFrame(fed, i) && pts <= fed[i].pts then ERROR_PROTOCOL
    else OK
  }

  /** A transcoder pumps before and after each input, until its encoder got the end. */
  predicate BreaksBefore(s: Session, a: Answer)
  {
    s.transcoder && !s.encoderEosSignaled && a.before.PumpFailed?
  }

  predicate BreaksAfter(s: Session, a: Answer)
  {
    s.transcoder && !s.encoderEosSignaled && (a.before.Pumped? ==> !a.before.eosSignaled) && a.after.PumpFailed?
  }

  /** What the platform's answers make of a buffer of n bytes. */
  function PlatformVerdict(s: Session, a: Answer, n: nat): i32
  {
    if BreaksBefore(s, a) then ERROR_CODEC
    else match a.intake
    case NoBuffer => AGAIN
    case Buffer(mapped, capacity, queued) =>
      if n > 0 && (!mapped || n > capacity) then ERROR_LIMIT
      else if !queued || BreaksAfter(s, a) then ERROR_CODEC
      else OK
  }

  /** The status of every input attempt, from the codec's history and the platform's
      answers: when the platform takes the record it is OK exactly if no end is open, size
      and flags are legal, and a timed frame is later than every frame of its stream. */
  lemma QueueVerdict(s: Session, data: seq<byte>, pts: u64, flags: u32, a: Answer)
    requires SessionInv(s)
    ensures var verdict := InputVerdict(s.fed, Timed(s), data, pts, flags);
            Queue(s, data, pts, flags, a).1 == if verdict != OK then verdict else PlatformVerdict(s, a, |data|)
  {
    if Timed(s) && s.havePts {
      var i :| CurrentFrame(s.fed, i) && s.fed[i].pts == s.lastPts;
    }
    assert s.inputEos <==> EndIsOpen(s.fed);
  }

  lemma EosVerdict(s: Session, pts: u64, a: Answer)
    requires SessionInv(s)
    ensures QueueEos(s, pts, a).1 == if EndIsOpen(s.fed) then ERROR_SESSION else PlatformVerdict(s, a, 0)
  {
  }

  /** The same over every run of a session of either kind. */
  lemma {:induction false} AcceptedIff(transcoder: bool, encoder: bool, ops: seq<Op>, data: seq<byte>, pts: u64, flags: u32, a: Answer)
    ensures var s := RunOps(NewSession(transcoder, encoder), ops);
            var verdict := InputVerdict(s.fed, encoder && !transcoder, data, pts, flags);
            && Queue(s, data, pts, flags, a).1 == (if verdict != OK then verdict else PlatformVerdict(s, a, |data|))
            && QueueEos(s, pts, a).1 == (if EndIsOpen(s.fed) then ERROR_SESSION else PlatformVerdict(s, a, 0))
            && s.transcoder == transcoder
  {
    var s := RunOps(NewSession(transcoder, encoder), ops);
    SessionsAreWellFed(transcoder, encoder, ops);
    ModeIsKept(transcoder, encoder, ops);
    QueueVerdict(s, data, pts, flags, a);
    EosVerdict(s, pts, a);
  }

  lemma {:induction false} ModeIsKept(transcoder: bool, encoder: bool, ops: seq<Op>)
    ensures var s := RunOps(NewSession(transcoder, encoder), ops);
            s.transcoder == transcoder && Timed(s) == (encoder && !transcoder)
    decreases |ops|
  {
    if ops != [] {
      var before, op := ops[..|ops| - 1], ops[|ops| - 1];
      ModeIsKept(transcoder, encoder, before);
      OpKeepsMode(RunOps(NewSession(transcoder, encoder), before), op);
    }
  }

  lemma OpKeepsMode(s: Session, op: Op)
    ensures SameMode(s, ApplyOp(s, op).0)
  {
    match op
    case Input(data, pts, flags, a) => InputShape(s, data, pts, flags, a);
    case Eos(pts, a) => EosShape(s, pts, a);
    case FlushOp(_, _) =>
  }

  // -------------------------------------------------------------- the statistics

  /** Records, frames, bytes and ends of stream in a history. */
  datatype Tally = Tally(records: nat, frames: nat, bytes: nat, ends: nat)

  function Plus(t: Tally, e: Event): Tally
  {
    match e
    case Record(data, _, config) =>
      Tally(t.records + 1, t.frames + (if config then 0 else 1), t.bytes + |data|, t.ends)
    case EndOfStream(_) => t.(ends := t.ends + 1)
    case _ => t
  }

  function TallyOf(fed: seq<Event>): Tally
  {
    if fed == [] then Tally(0, 0, 0, 0) else Plus(TallyOf(fed[..|fed| - 1]), fed[|fed| - 1])
  }

  function Counters(s: Session): Tally
  {
    Tally(s.stats.records, s.stats.frames, s.stats.bytes, s.stats.eosCount)
  }

  /** Nothing was fed and nothing counted, or one event was both. */
  predicate CountedStep(s: Session, t: Session)
  {
    || (t.fed == s.fed && Counters(t) == Counters(s))
    || (|t.fed| == |s.fed| + 1 && t.fed[..|s.fed|] == s.fed && Counters(t) == Plus(Counters(s), t.fed[|s.fed|]))
  }

  /** How one operation moves the two failure counters: a failing pump around an end of
      stream is not counted as an error. */
  predicate CountsFailures(s: Session, op: Op)
  {
    var (t, status) := ApplyOp(s, op);
    && t.stats.again == s.stats.again + (if status == AGAIN then 1 else 0)
    && t.stats.errors == s.stats.errors + (if status < OK && !PumpBroke(s, op) then 1 else 0)
  }

  predicate PumpBroke(s: Session, op: Op)
  {
    && op.Eos? && !s.inputEos
    && (BreaksBefore(s, op.answer) || (op.answer.intake.Buffer? && op.answer.intake.queued && BreaksAfter(s, op.answer)))
  }

  lemma OpCounts(s: Session, op: Op)
    ensures CountedStep(s, ApplyOp(s, op).0)
  {
    match op
    case Input(data, pts, flags, a) => InputCounts(s, data, pts, flags, a);
    case Eos(pts, a) => EosCounts(s, pts, a);
    case FlushOp(_, _) =>
  }

  lemma InputCounts(s: Session, data: seq<byte>, pts: u64, flags: u32, a: Answer)
    ensures CountedStep(s, Queue(s, data, pts, flags, a).0)
  {
    InternalCounts(s, data, pts, flags, a);
  }

  lemma InternalCounts(s: Session, data: seq<byte>, pts: u64, flags: u32, a: Answer)
    ensures CountedStep(s, QueueInternal(s, data, pts, flags, a).0)
  {
    var s1 := PumpedState(s, a.before);
    assert s1.fed == s.fed && Counters(s1) == Counters(s);
    assert (s.fed + [Padding(pts)])[..|s.fed|] == s.fed;
    var s2 := Taken(s1, data, pts, flags);
    assert CountedStep(s1, s2);
    assert PumpedState(s2, a.after).fed == s2.fed && Counters(PumpedState(s2, a.after)) == Counters(s2);
  }

  lemma EosCounts(s: Session, pts: u64, a: Answer)
    ensures CountedStep(s, QueueEos(s, pts, a).0)
  {
    var s1 := PumpedState(s, a.before);
    assert s1.fed == s.fed && Counters(s1) == Counters(s);
    var s2 := Ended(s1, pts);
    assert CountedStep(s1, s2);
    assert PumpedState(s2, a.after).fed == s2.fed && Counters(PumpedState(s2, a.after)) == Counters(s2);
  }

  lemma FailuresCounted(s: Session, op: Op)
    ensures CountsFailures(s, op)
  {
    match op
    case Input(data, pts, flags, a) => InputFailures(s, data, pts, flags, a);
    case Eos(pts, a) => EosFailures(s, pts, a);
    case FlushOp(_, _) =>
  }

  lemma InputFailures(s: Session, data: seq<byte>, pts: u64, flags: u32, a: Answer)
    ensures CountsFailures(s, Input(data, pts, flags, a))
  {
    var s1 := PumpedState(s, a.before);
    assert s1.stats.again == s.stats.again && s1.stats.errors == s.stats.errors;
    var s2 := PumpedState(Taken(s1, data, pts, flags), a.after);
    assert s2.stats.again == s.stats.again && s2.stats.errors == s.stats.errors;
  }

  lemma EosFailures(s: Session, pts: u64, a: Answer)
    ensures CountsFailures(s, Eos(pts, a))
  {
    var s1 := PumpedState(s, a.before);
    assert s1.stats.again == s.stats.again && s1.stats.errors == s.stats.errors;
    var s2 := PumpedState(Ended(s1, pts), a.after);
    assert s2.stats.again == s.stats.again && s2.stats.errors == s.stats.errors;
  }

  /** The operation gets as far as its first pump. */
  ghost predicate Admits(s: Session, op: Op)
  {
    match op
    case Input(data, pts, flags, _) => InputVerdict(s.fed, Timed(s), data, pts, flags) == OK
    case Eos(_, _) => !EndIsOpen(s.fed)
    case FlushOp(_, _) => false
  }

  /** It fed the codec, so that a second pump followed. */
  predicate FedOne(s: Session, t: Session)
  {
    |t.fed| > |s.fed| && (t.fed[|s.fed|].Record? || t.fed[|s.fed|].EndOfStream?)
  }

  /** Frames a transcoder moved to its encoder in one operation: those of the pump before
      the input, and of the pump after it unless the encoder has got its end. */
  ghost predicate FramesCounted(s: Session, op: Op)
  {
    var t := ApplyOp(s, op).0;
    t.stats.surfaceFrames == s.stats.surfaceFrames +
      if !s.transcoder || s.encoderEosSignaled || !Admits(s, op) then 0
      else op.answer.before.frames
           + if FedOne(s, t) && op.answer.before.Pumped? && !op.answer.before.eosSignaled then op.answer.after.frames else 0
  }

  lemma SurfaceFrames(s: Session, op: Op)
    requires SessionInv(s)
    ensures FramesCounted(s, op)
  {
    match op
    case Input(data, pts, flags, a) => InputFrames(s, data, pts, flags, a);
    case Eos(pts, a) => EosFrames(s, pts, a);
    case FlushOp(_, _) =>
  }

  lemma InputFrames(s: Session, data: seq<byte>, pts: u64, flags: u32, a: Answer)
    requires SessionInv(s)
    ensures FramesCounted(s, Input(data, pts, flags, a))
  {
    if Timed(s) && s.havePts {
      var i :| CurrentFrame(s.fed, i) && s.fed[i].pts == s.lastPts;
    }
    var s1 := PumpedState(s, a.before);
    assert s1.fed == s.fed;
    assert Taken(s1, data, pts, flags).fed[|s.fed|].Record?;
  }

  lemma EosFrames(s: Session, pts: u64, a: Answer)
    requires SessionInv(s)
    ensures FramesCounted(s, Eos(pts, a))
  {
    var s1 := PumpedState(s, a.before);
    assert s1.fed == s.fed;
    assert Ended(s1, pts).fed[|s.fed|].EndOfStream?;
  }

  /** Over every run the counters of a session are those of its history. */
  lemma {:induction false} StatsMatchHistory(transcoder: bool, encoder: bool, ops: seq<Op>)
    ensures var s := RunOps(NewSession(transcoder, encoder), ops);
            Counters(s) == TallyOf(s.fed)
    decreases |ops|
  {
    if ops != [] {
      StatsMatchHistory(transcoder, encoder, ops[..|ops| - 1]);
      OpCounts(RunOps(NewSession(transcoder, encoder), ops[..|ops| - 1]), ops[|ops| - 1]);
    }
  }

  // ------------------------------------------------------ end of stream and flush

  /** The same for the end of stream: success ends the stream exactly once. */
  ghost predicate EosPromise(s: Session, t: Session, status: i32, pts: u64)
  {
    && SessionInv(t) && SameMode(s, t) && EosFeeds(s.fed, t.fed, status, s.transcoder, pts)
    && (status == OK ==> EndIsOpen(t.fed))
    && (status == AGAIN ==> t.inputEos == s.inputEos)
    && (EndIsOpen(s.fed) ==> status == ERROR_SESSION && t.fed == s.fed)
  }

  predicate EosFeeds(before: seq<Event>, after: seq<Event>, status: i32, transcoder: bool, pts: u64)
  {
    && (status == OK || status == AGAIN || status < OK)
    && (status == OK ==> after == before + [EndOfStream(pts)])
    && (status == AGAIN ==> after == before)
    && (status < OK ==> after == before || (transcoder && after == before + [EndOfStream(pts)]))
  }

  lemma QueueEosFeeds(s: Session, pts: u64, a: Answer)
    ensures EosFeeds(s.fed, QueueEos(s, pts, a).0.fed, QueueEos(s, pts, a).1, s.transcoder, pts)
    ensures QueueEos(s, pts, a).0.transcoder == s.transcoder
  {
  }

  lemma EosStatus(s: Session, pts: u64, a: Answer)
    requires SessionInv(s)
    ensures EosPromise(s, QueueEos(s, pts, a).0, QueueEos(s, pts, a).1, pts)
  {
    EosKeepsInv(s, pts, a);
    EosShape(s, pts, a);
    QueueEosFeeds(s, pts, a);
  }

  /** Success of a flush opens the session again; a flush that fails after the input
      codec was flushed leaves the end of stream in force. */
  ghost predicate FlushPromise(s: Session, t: Session, status: i32)
  {
    && SessionInv(t) && SameMode(s, t)
    && (status == OK ==> !EndIsOpen(t.fed) && !StreamEnded(t.fed) && t.fed == s.fed + [Flushed(true)])
    && (status == OK ==> !t.encoderEosSignaled && !t.pendingImage)
    && (status != OK ==> (EndIsOpen(t.fed) <==> EndIsOpen(s.fed)) && t.encoderEosSignaled == s.encoderEosSignaled)
    && (status != OK ==> t.fed == s.fed || (s.transcoder && t.fed == s.fed + [Flushed(false)]))
  }

  lemma FlushStatus(s: Session, input: bool, encoder: bool)
    requires SessionInv(s)
    ensures FlushPromise(s, Flush(s, input, encoder).0, Flush(s, input, encoder).1)
    ensures Flush(s, input, encoder).1 == if input && (s.transcoder ==> encoder) then OK else ERROR_CODEC
  {
    OpKeepsInv(s, FlushOp(input, encoder));
    var fed := Flush(s, input, encoder).0.fed;
    if Flush(s, input, encoder).1 == OK {
      assert fed[|fed| - 1] == Flushed(true);
      assert forall i :: Current(fed, i) ==> i == |fed| - 1;
    }
  }

  predicate ResetsSession(s: Session, op: Op)
  {
    op.FlushOp? && op.input && (s.transcoder ==> op.encoder)
  }

  /** `more` continues `fed` with incomplete flushes only. */
  ghost predicate OnlyHalfFlushes(fed: seq<Event>, more: seq<Event>)
  {
    |fed| <= |more| && more[..|fed|] == fed && forall k :: |fed| <= k < |more| ==> more[k] == Flushed(false)
  }

  /** Once the end of stream is in, and until a flush succeeds, every input and every
      further end of stream is refused and the codec receives nothing. */
  lemma {:induction false} EndedUntilFlushed(s: Session, ops: seq<Op>)
    requires s.inputEos && forall k :: 0 <= k < |ops| ==> !ResetsSession(s, ops[k])
    ensures RunOps(s, ops).inputEos && RunOps(s, ops).transcoder == s.transcoder
    ensures OnlyHalfFlushes(s.fed, RunOps(s, ops).fed)
    ensures forall op: Op :: !op.FlushOp? ==> ApplyOp(RunOps(s, ops), op).1 == ERROR_SESSION
    decreases |ops|
  {
    if ops != [] {
      EndedUntilFlushed(s, ops[..|ops| - 1]);
      assert !ResetsSession(s, ops[|ops| - 1]);
    }
  }

  /** A successful flush ends that, whatever came before. */
  lemma FlushReopens(s: Session, encoder: bool, data: seq<byte>, pts: u64, a: Answer)
    requires 0 < |data| <= MAX_RECORD && a.before.Pumped? && a.after.Pumped?
    requires a.intake.Buffer? && a.intake.mapped && |data| <= a.intake.capacity && a.intake.queued
    requires Flush(s, true, encoder).1 == OK
    ensures Queue(Flush(s, true, encoder).0, data, pts, 0, a).1 == OK
  {
  }

  // ------------------------------------------------ the flag and the input codec

  /** The current stream of the input codec has its end of stream. */
  ghost predicate StreamEnded(fed: seq<Event>)
  {
    exists i :: Current(fed, i) && fed[i].EndOfStream?
  }

  /** A transcoder's encoder refused a flush its decoder had already done, after the
      end of stream and with no complete flush since. */
  ghost predicate HalfFlushedSinceEnd(fed: seq<Event>)
  {
    exists i, k :: OpenEnd(fed, i) && i < k < |fed| && fed[k] == Flushed(false)
  }

  /** Over every run: the end-of-stream flag tells the truth about the input codec's
      current stream exactly when no flush half-failed since the end of stream. */
  lemma {:induction false} FlagMatchesStream(transcoder: bool, encoder: bool, ops: seq<Op>)
    ensures var s := RunOps(NewSession(transcoder, encoder), ops);
            (s.inputEos <==> StreamEnded(s.fed)) <==> !HalfFlushedSinceEnd(s.fed)
  {
    SessionsAreWellFed(transcoder, encoder, ops);
    FlagMatches(RunOps(NewSession(transcoder, encoder), ops));
  }

  lemma FlagMatches(s: Session)
    requires SessionInv(s)
    ensures (s.inputEos <==> StreamEnded(s.fed)) <==> !HalfFlushedSinceEnd(s.fed)
  {
    var fed := s.fed;
    if j :| Current(fed, j) && fed[j].EndOfStream? {
      assert OpenEnd(fed, j);
      forall i, k | OpenEnd(fed, i) && i < k < |fed| ensures fed[k] != Flushed(false) {
        assert i < j ==> SameStretch(fed, i, j);
        assert j < i ==> SameStretch(fed, j, i);
      }
    } else if i :| OpenEnd(fed, i) {
      assert !Current(fed, i);
      var k :| i < k < |fed| && fed[k].Flushed?;
      assert fed[k] == Flushed(false);
    }
  }

  /** Sessions that are not transcoders never get there: their flag is always right. */
  lemma {:induction false} PlainSessionsMatch(encoder: bool, ops: seq<Op>)
    ensures var s := RunOps(NewSession(false, encoder), ops);
            !s.transcoder && (s.inputEos <==> StreamEnded(s.fed))
  {
    FlagMatchesStream(false, encoder, ops);
    NoHalfFlushes(encoder, ops);
  }

  lemma {:induction false} NoHalfFlushes(encoder: bool, ops: seq<Op>)
    ensures var s := RunOps(NewSession(false, encoder), ops);
            !s.transcoder && forall k :: 0 <= k < |s.fed| ==> s.fed[k] != Flushed(false)
    decreases |ops|
  {
    if ops != [] {
      NoHalfFlushes(encoder, ops[..|ops| - 1]);
      NoHalfFlush(RunOps(NewSession(false, encoder), ops[..|ops| - 1]), ops[|ops| - 1]);
    }
  }

  lemma NoHalfFlush(s: Session, op: Op)
    requires !s.transcoder && forall k :: 0 <= k < |s.fed| ==> s.fed[k] != Flushed(false)
    ensures !ApplyOp(s, op).0.transcoder
    ensures forall k :: 0 <= k < |ApplyOp(s, op).0.fed| ==> ApplyOp(s, op).0.fed[k] != Flushed(false)
  {
    match op
    case Input(data, pts, flags, a) => InputShape(s, data, pts, flags, a);
    case Eos(pts, a) => EosShape(s, pts, a);
    case FlushOp(_, _) =>
  }

  /** It happens: a transcoder whose encoder refuses the flush has a decoder with an
      empty stream that the session keeps closed. */
  lemma {:induction false} HalfFlushShutsAFreshStream(pts: u64) returns (ops: seq<Op>)
    ensures var s := RunOps(NewSession(true, false), ops);
            s.inputEos && !StreamEnded(s.fed) && s.fed == [EndOfStream(pts), Flushed(false)]
  {
    var a := Answer(Pumped(0, false), Buffer(true, 0, true), Pumped(0, false));
    var one, two := Eos(pts, a), FlushOp(true, false);
    ops := [one, two];
    assert ops[..1] == [one] && [one][..0] == [];
    assert RunOps(NewSession(true, false), []) == NewSession(true, false);
    assert RunOps(NewSession(true, false), [one]) == QueueEos(NewSession(true, false), pts, a).0;
    var s := RunOps(NewSession(true, false), ops);
    assert s == Flush(RunOps(NewSession(true, false), [one]), true, false).0;
    assert s.fed == [EndOfStream(pts), Flushed(false)];
    forall i | Current(s.fed, i) ensures !s.fed[i].EndOfStream? { assert s.fed[1].Flushed?; }
  }

  // ------------------------------------------------------ the session object

  class CodecObject {
    var transcoder: bool
    var encoder: bool
    var inputEos: bool
    var encoderEosSignaled: bool
    var pendingImage: bool
    var lastPts: u64
    var havePts: bool
    var stats: Stats
    var fed: seq<Event>

    function View(): Session
      reads this
    {
      Session(transcoder, encoder, inputEos, encoderEosSignaled, pendingImage, lastPts, havePts, stats, fed)
    }

    ghost predicate Valid()
      reads this
    {
      SessionInv(View())
    }

    constructor (transcoder: bool, encoder: bool)
      ensures Valid() && View() == NewSession(transcoder, encoder)
    {
      this.transcoder, this.encoder := transcoder, encoder;
      inputEos, encoderEosSignaled, pendingImage, havePts := false, false, false, false;
      lastPts, stats, fed := 0, Stats(0, 0, 0, 0, 0, 0, 0), [];
    }

    /** `pump_transcoder`: the input side is untouched, and once the end of stream
        has been signalled to the encoder nothing moves any more. */
    method PumpTranscoder(p: Pump) returns (status: i32)
      requires transcoder
      modifies this
      ensures View() == PumpedState(old(View()), p)
      ensures Idles(old(View()), View()) && (old(encoderEosSignaled) ==> View() == old(View()) && status == OK)
      ensures status == if PumpOk(old(View()), p) then OK else ERROR_CODEC
    {
      if encoderEosSignaled { return OK; }
      stats := stats.(surfaceFrames := stats.surfaceFrames + p.frames);
      if p.PumpFailed? { return ERROR_CODEC; }
      encoderEosSignaled := p.eosSignaled;
      return OK;
    }

    /** `queue_internal`. */
    method QueueRecord(data: seq<byte>, pts: u64, flags: u32, a: Answer) returns (status: i32)
      modifies this
      ensures (View(), status) == QueueInternal(old(View()), data, pts, flags, a)
    {
      if inputEos { return ERROR_SESSION; }
      if |data| == 0 || |data| > MAX_RECORD || !OnlyConfigFlag(flags) { return ERROR_PROTOCOL; }
      if encoder && !transcoder && flags == 0 && havePts && pts <= lastPts { return ERROR_PROTOCOL; }
      if transcoder {
        status := PumpTranscoder(a.before);
        if status != OK { return; }
      }
      if a.intake.NoBuffer? { return AGAIN; }
      if !a.intake.mapped || |data| > a.intake.capacity {
        if a.intake.queued { fed := fed + [Padding(pts)]; }
        return ERROR_LIMIT;
      }
      if !a.intake.queued { return ERROR_CODEC; }
      CountRecord(data, pts, flags);
      status := OK;
      if transcoder { status := PumpTranscoder(a.after); }
    }

    method CountRecord(data: seq<byte>, pts: u64, flags: u32)
      modifies this
      ensures View() == Taken(old(View()), data, pts, flags)
    {
      fed := fed + [Record(data, pts, flags == FLAG_CODEC_CONFIG)];
      stats := stats.(records := stats.records + 1, bytes := stats.bytes + |data|);
      if flags != FLAG_CODEC_CONFIG {
        stats := stats.(frames := stats.frames + 1);
        if encoder && !transcoder {
          havePts := true;
          lastPts := pts;
        }
      }
    }

    /** `dscw_codec_queue`: success puts the record into the codec exactly once, AGAIN
        and a closed stream leave the codec alone, and the history stays well fed. */
    method Enqueue(data: seq<byte>, pts: u64, flags: u32, a: Answer) returns (status: i32)
      requires Valid()
      modifies this
      ensures Valid() && (View(), status) == Queue(old(View()), data, pts, flags, a)
      ensures InputPromise(old(View()), View(), status, pts, Record(data, pts, flags == FLAG_CODEC_CONFIG))
      ensures var verdict := InputVerdict(old(fed), encoder && !transcoder, data, pts, flags);
              status == if verdict != OK then verdict else PlatformVerdict(old(View()), a, |data|)
    {
      ghost var before := View();
      status := TryQueue(data, pts, flags, a);
      QueueStatus(before, data, pts, flags, a);
      QueueVerdict(before, data, pts, flags, a);
    }

    method TryQueue(data: seq<byte>, pts: u64, flags: u32, a: Answer) returns (status: i32)
      modifies this
      ensures (View(), status) == Queue(old(View()), data, pts, flags, a)
    {
      status := QueueRecord(data, pts, flags, a);
      if status == AGAIN {
        stats := stats.(again := stats.again + 1);
      } else if status < OK {
        stats := stats.(errors := stats.errors + 1);
      }
    }

    /** `dscw_codec_queue_eos`: success ends the stream exactly once. */
    method EnqueueEos(pts: u64, a: Answer) returns (status: i32)
      requires Valid()
      modifies this
      ensures Valid() && (View(), status) == QueueEos(old(View()), pts, a)
      ensures EosPromise(old(View()), View(), status, pts)
      ensures status == if EndIsOpen(old(fed)) then ERROR_SESSION else PlatformVerdict(old(View()), a, 0)
    {
      ghost var before := View();
      status := TryEos(pts, a);
      EosVerdict(before, pts, a);
      EosStatus(before, pts, a);
    }

    method TryEos(pts: u64, a: Answer) returns (status: i32)
      modifies this
      ensures (View(), status) == QueueEos(old(View()), pts, a)
    {
      if inputEos {
        stats := stats.(errors := stats.errors + 1);
        return ERROR_SESSION;
      }
      if transcoder {
        status := PumpTranscoder(a.before);
        if status != OK { return; }
      }
      if a.intake.NoBuffer? {
        stats := stats.(again := stats.again + 1);
        return AGAIN;
      }
      if !a.intake.queued {
        stats := stats.(errors := stats.errors + 1);
        return ERROR_CODEC;
      }
      fed := fed + [EndOfStream(pts)];
      inputEos := true;
      stats := stats.(eosCount := stats.eosCount + 1);
      status := OK;
      if transcoder { status := PumpTranscoder(a.after); }
    }

    /** `dscw_codec_flush`: success opens the session again; a flush that fails after
        the input codec was flushed leaves the end of stream in force. */
    method Reset(input: bool, encoderToo: bool) returns (status: i32)
      requires Valid()
      modifies this
      ensures Valid() && (View(), status) == Flush(old(View()), input, encoderToo)
      ensures FlushPromise(old(View()), View(), status)
      ensures status == if input && (transcoder ==> encoderToo) then OK else ERROR_CODEC
    {
      ghost var before := View();
      if !input {
        stats := stats.(errors := stats.errors + 1);
        status := ERROR_CODEC;
      } else if transcoder && !encoderToo {
        stats := stats.(errors := stats.errors + 1);
        fed := fed + [Flushed(false)];
        status := ERROR_CODEC;
      } else {
        inputEos, encoderEosSignaled, pendingImage, havePts := false, false, false, false;
        fed := fed + [Flushed(true)];
        status := OK;
      }
      assert (View(), status) == Flush(before, input, encoderToo);
      FlushStatus(before, input, encoderToo);
    }
  }
}
