/**
 Terminal output batching: raw bytes are forwarded in chunks, block events are
 interleaved at the byte they belong to, and the middle of an oversized backlog
 is replaced by a marker.
 */
module OutputPump {
  import opened Common
  import opened Osc133

  const MAX_CHUNK := 64 * 1024
  const MAX_PENDING := 256 * 1024

  /** "\r\n ESC[33m[output dropped: terminal fell behind]ESC[0m \r\n". */
  const DROPPED_MARKER: seq<byte> := [
    13, 10, 27, 91, 51, 51, 109, 91, 111, 117, 116, 112, 117, 116, 32, 100, 114, 111, 112, 112, 101, 100, 58, 32,
    116, 101, 114, 109, 105, 110, 97, 108, 32, 102, 101, 108, 108, 32, 98, 101, 104, 105, 110, 100, 93, 27, 91,
    48, 109, 13, 10]

  const EDGE: nat := (MAX_PENDING - |DROPPED_MARKER|) / 2

  datatype Signal = Bell | Notify(message: Option<string>)

  datatype Event = Data(data: seq<byte>, dropped: bool) | BlockEvent(block: Block) | Attention(signal: Signal) | Closed

  datatype Pump = Pump(pending: seq<byte>, dropped: bool, scanner: Scanner, log: seq<Event>)

  const Idle := Pump([], false, Fresh, [])

  /** What the select loop can be woken by while the channel is open. */
  datatype Step = Message(data: seq<byte>, signals: seq<Signal>) | Tick

  // ---------- one step ----------

  function Min(a: nat, b: nat): nat {
    if a < b then a else b
  }

  function FlushOne(p: Pump): Pump {
    var split := Min(|p.pending|, MAX_CHUNK);
    p.(pending := p.pending[split..], dropped := false, log := p.log + [Data(p.pending[..split], p.dropped)])
  }

  function DropMiddle(pending: seq<byte>): seq<byte> {
    var tailStart := if EDGE <= |pending| then |pending| - EDGE else 0;
    pending[..Min(EDGE, |pending|)] + DROPPED_MARKER + pending[tailStart..]
  }

  /** Append the bytes up to one mark, flush a chunk, then emit the mark's event. */
  function PlaceMark(p: Pump, segment: seq<byte>, block: Block): Pump {
    var q := p.(pending := p.pending + segment);
    var r := if q.pending != [] then FlushOne(q) else q;
    r.(log := r.log + [BlockEvent(block)])
  }

  function Cursor(marks: seq<Mark>): nat {
    if marks == [] then 0 else marks[|marks| - 1].end
  }

  function PlaceMarks(p: Pump, data: seq<byte>, marks: seq<Mark>): Pump
    requires Increasing(marks, |data|)
  {
    if marks == [] then p
    else
      var n := |marks| - 1;
      assert Increasing(marks[..n], |data|);
      PlaceMark(PlaceMarks(p, data, marks[..n]), data[Cursor(marks[..n])..marks[n].end], marks[n].event)
  }

  function Announce(signals: seq<Signal>): seq<Event> {
    seq(|signals|, i requires 0 <= i < |signals| => Attention(signals[i]))
  }

  function Relieve(p: Pump): Pump {
    var q := if |p.pending| > MAX_PENDING then p.(pending := DropMiddle(p.pending), dropped := true) else p;
    if |q.pending| >= MAX_CHUNK then FlushOne(q) else q
  }

  function Backlog(p: Pump, data: seq<byte>, interpret: Interpretation): Pump {
    var marks := Marks(p.scanner, data, interpret);
    MarksIncrease(p.scanner, data, interpret);
    var q := PlaceMarks(p, data, marks);
    q.(pending := q.pending + data[Cursor(marks)..], scanner := Advance(p.scanner, data, interpret))
  }

  function Receive(p: Pump, data: seq<byte>, signals: seq<Signal>, interpret: Interpretation): Pump {
    var q := Relieve(Backlog(p, data, interpret));
    q.(log := q.log + Announce(signals))
  }

  function Apply(p: Pump, step: Step, interpret: Interpretation): Pump {
    match step
    case Message(data, signals) => Receive(p, data, signals, interpret)
    case Tick => if p.pending != [] then FlushOne(p) else p
  }

  function Run(steps: seq<Step>, interpret: Interpretation): Pump {
    if steps == [] then Idle
    else Apply(Run(steps[..|steps| - 1], interpret), steps[|steps| - 1], interpret)
  }

  function Drain(p: Pump): Pump
    decreases |p.pending|
  {
    if p.pending == [] then p else Drain(FlushOne(p))
  }

  function Close(p: Pump): Pump {
    var q := Drain(p);
    q.(log := q.log + [Closed])
  }

  // ---------- observations ----------

  function Bytes(log: seq<Event>): seq<byte> {
    if log == [] then []
    else
      var e := log[|log| - 1];
      Bytes(log[..|log| - 1]) + (if e.Data? then e.data else [])
  }

  function Blocks(log: seq<Event>): seq<Block> {
    if log == [] then []
    else
      var e := log[|log| - 1];
      Blocks(log[..|log| - 1]) + (if e.BlockEvent? then [e.block] else [])
  }

  /** For each block event, how many bytes were emitted before it. */
  function BlockOffsets(log: seq<Event>): seq<nat> {
    if log == [] then []
    else
      var n := |log| - 1;
      BlockOffsets(log[..n]) + (if log[n].BlockEvent? then [|Bytes(log[..n])|] else [])
  }

  function Drops(log: seq<Event>): nat {
    if log == [] then 0
    else
      var e := log[|log| - 1];
      Drops(log[..|log| - 1]) + (if e.Data? && e.dropped then 1 else 0)
  }

  function Received(steps: seq<Step>): seq<byte> {
    if steps == [] then []
    else
      var s := steps[|steps| - 1];
      Received(steps[..|steps| - 1]) + (if s.Message? then s.data else [])
  }

  /** Every byte the pump has taken responsibility for: emitted, then waiting. */
  function Stream(p: Pump): seq<byte> {
    Bytes(p.log) + p.pending
  }

  ghost predicate WellSized(log: seq<Event>) {
    forall i :: 0 <= i < |log| && log[i].Data? ==> 0 < |log[i].data| <= MAX_CHUNK
  }

  ghost predicate Small(steps: seq<Step>) {
    forall i :: 0 <= i < |steps| && steps[i].Message? ==> |steps[i].data| <= MAX_CHUNK
  }

  // ---------- effect of each operation on the observations ----------

  lemma Logged(log: seq<Event>, e: Event)
    ensures Bytes(log + [e]) == Bytes(log) + (if e.Data? then e.data else [])
    ensures Blocks(log + [e]) == Blocks(log) + (if e.BlockEvent? then [e.block] else [])
    ensures BlockOffsets(log + [e]) == BlockOffsets(log) + (if e.BlockEvent? then [|Bytes(log)|] else [])
    ensures Drops(log + [e]) == Drops(log) + (if e.Data? && e.dropped then 1 else 0)
  {
    assert (log + [e])[..|log|] == log;
  }

  lemma {:induction false} AnnounceIsSilent(log: seq<Event>, signals: seq<Signal>)
    ensures var after := log + Announce(signals);
            && Bytes(after) == Bytes(log) && Blocks(after) == Blocks(log)
            && BlockOffsets(after) == BlockOffsets(log) && Drops(after) == Drops(log)
  {
    if signals == [] {
      assert log + Announce(signals) == log;
    } else {
      var n := |signals| - 1;
      AnnounceIsSilent(log, signals[..n]);
      Logged(log + Announce(signals[..n]), Attention(signals[n]));
      assert log + Announce(signals) == log + Announce(signals[..n]) + [Attention(signals[n])];
    }
  }

  function Excess(length: nat): nat {
    if length <= MAX_CHUNK then 0 else length - MAX_CHUNK
  }

  lemma FlushFacts(p: Pump)
    requires p.pending != []
    ensures var q := FlushOne(p);
            && Stream(q) == Stream(p) && |q.pending| == Excess(|p.pending|) && !q.dropped
            && Blocks(q.log) == Blocks(p.log) && BlockOffsets(q.log) == BlockOffsets(p.log)
            && Drops(q.log) == Drops(p.log) + (if p.dropped then 1 else 0)
            && (WellSized(p.log) ==> WellSized(q.log))
  {
    hide Bytes, Blocks, BlockOffsets, Drops;
    var split := Min(|p.pending|, MAX_CHUNK);
    Logged(p.log, Data(p.pending[..split], p.dropped));
    assert p.pending[..split] + p.pending[split..] == p.pending;
    Associate(Bytes(p.log), p.pending[..split], p.pending[split..]);
  }

  /**
   When a mark's event goes out, every byte up to the mark has been emitted
   except the part of the backlog beyond one chunk.
   */
  lemma PlaceMarkFacts(p: Pump, segment: seq<byte>, block: Block)
    requires !p.dropped && segment != []
    ensures var q := PlaceMark(p, segment, block);
            && Stream(q) == Stream(p) + segment && !q.dropped
            && |q.pending| == Excess(|p.pending| + |segment|)
            && Blocks(q.log) == Blocks(p.log) + [block] && Drops(q.log) == Drops(p.log)
            && BlockOffsets(q.log) == BlockOffsets(p.log) + [|Stream(p)| + |segment| - |q.pending|]
            && (WellSized(p.log) ==> WellSized(q.log))
  {
    hide Bytes, Blocks, BlockOffsets, Drops, FlushOne;
    var q := p.(pending := p.pending + segment);
    Associate(Bytes(p.log), p.pending, segment);
    FlushFacts(q);
    var r := FlushOne(q);
    Logged(r.log, BlockEvent(block));
  }

  /** Each offset is at most one chunk short of the mark it belongs to. */
  ghost predicate Near(offsets: seq<nat>, marks: seq<Mark>) {
    && |offsets| == |marks|
    && forall j :: 0 <= j < |marks| ==> marks[j].end - MAX_CHUNK < offsets[j] <= marks[j].end
  }

  function Events(marks: seq<Mark>): seq<Block> {
    seq(|marks|, i requires 0 <= i < |marks| => marks[i].event)
  }

  lemma EventsSnoc(blocks: seq<Block>, marks: seq<Mark>)
    requires marks != []
    ensures blocks + Events(marks[..|marks| - 1]) + [marks[|marks| - 1].event] == blocks + Events(marks)
  {}

  lemma PlaceMarksLast(p: Pump, data: seq<byte>, marks: seq<Mark>)
    requires marks != [] && Increasing(marks, |data|)
    ensures var early, mark := marks[..|marks| - 1], marks[|marks| - 1];
            && Increasing(early, |data|) && Cursor(early) < mark.end <= |data| && Cursor(marks) == mark.end
            && PlaceMarks(p, data, marks)
               == PlaceMark(PlaceMarks(p, data, early), data[Cursor(early)..mark.end], mark.event)
  {
    hide PlaceMark;
  }

  lemma NoMarksPlaced(p: Pump, data: seq<byte>)
    ensures PlaceMarks(p, data, []) == p && Cursor([]) == 0 && Events([]) == [] && data[..0] == []
  {}

  lemma {:induction false} PlaceMarksFacts(p: Pump, data: seq<byte>, marks: seq<Mark>)
    requires !p.dropped && WellSized(p.log) && Increasing(marks, |data|)
    ensures Cursor(marks) <= |data|
    ensures var q := PlaceMarks(p, data, marks);
            && Stream(q) == Stream(p) + data[..Cursor(marks)] && !q.dropped && WellSized(q.log)
            && |q.pending| <= |p.pending| + Cursor(marks)
            && Blocks(q.log) == Blocks(p.log) + Events(marks) && Drops(q.log) == Drops(p.log)
  {
    hide PlaceMark, PlaceMarks, Blocks, Drops, Events, Increasing, Cursor, Stream, WellSized;
    if marks == [] {
      NoMarksPlaced(p, data);
    } else {
      var early, mark := marks[..|marks| - 1], marks[|marks| - 1];
      PlaceMarksLast(p, data, marks);
      PlaceMarksFacts(p, data, early);
      PlaceMarkFacts(PlaceMarks(p, data, early), data[Cursor(early)..mark.end], mark.event);
      JoinSlices(Stream(p), data, Cursor(early), mark.end);
      EventsSnoc(Blocks(p.log), marks);
    }
  }

  /** How much of the backlog still waits when the last of these marks of one message is announced. */
  function Left(waiting: nat, marks: seq<Mark>): nat {
    if marks == [] then waiting else if |marks| == 1 then Excess(waiting + marks[0].end) else 0
  }

  /**
   Where the marks of one message of at most one chunk are announced, when
   `waiting` bytes, less than a chunk, were waiting before it and `base` bytes
   had arrived: only the first one can be early.
   */
  function Announced(waiting: nat, base: nat, marks: seq<Mark>): (offsets: seq<nat>)
    requires waiting <= MAX_CHUNK
    ensures |offsets| == |marks|
    ensures marks != [] ==> (offsets[0] == base + marks[0].end <==> waiting + marks[0].end <= MAX_CHUNK)
    ensures forall j :: 1 <= j < |marks| ==> offsets[j] == base + marks[j].end
  {
    seq(|marks|, j requires 0 <= j < |marks| =>
      base + marks[j].end - (if j == 0 then Excess(waiting + marks[0].end) else 0))
  }

  lemma AnnouncedSnoc(waiting: nat, base: nat, marks: seq<Mark>)
    requires marks != [] && waiting <= MAX_CHUNK
    ensures var n := |marks| - 1;
            && Left(waiting, marks) <= base + marks[n].end
            && Announced(waiting, base, marks)
               == Announced(waiting, base, marks[..n]) + [base + marks[n].end - Left(waiting, marks)]
  {}

  lemma LeftSnoc(waiting: nat, data: seq<byte>, marks: seq<Mark>)
    requires marks != [] && waiting < MAX_CHUNK && |data| <= MAX_CHUNK && Increasing(marks, |data|)
    ensures var n := |marks| - 1;
            Left(waiting, marks) == Excess(Left(waiting, marks[..n]) + marks[n].end - Cursor(marks[..n]))
  {
    var n := |marks| - 1;
    if n == 1 { assert marks[..n][0] == marks[0] && marks[0].end < marks[1].end; }
  }

  lemma PlaceMarkOffset(q: Pump, segment: seq<byte>, block: Block)
    requires !q.dropped && segment != []
    ensures var r := PlaceMark(q, segment, block);
            var at := |Stream(q)| + |segment| - Excess(|q.pending| + |segment|);
            |r.pending| == Excess(|q.pending| + |segment|) && 0 <= at && BlockOffsets(r.log) == BlockOffsets(q.log) + [at]
  {
    hide PlaceMark, Bytes, BlockOffsets, Blocks, Drops, WellSized;
    PlaceMarkFacts(q, segment, block);
  }

  lemma PlacedLength(p: Pump, data: seq<byte>, marks: seq<Mark>)
    requires !p.dropped && WellSized(p.log) && Increasing(marks, |data|)
    ensures var q := PlaceMarks(p, data, marks); !q.dropped && |Stream(q)| == |Stream(p)| + Cursor(marks)
  {
    hide PlaceMarks, Bytes, Blocks, Drops, WellSized, Stream;
    PlaceMarksFacts(p, data, marks);
  }

  lemma {:induction false} PlaceMarksOffsets(p: Pump, data: seq<byte>, marks: seq<Mark>)
    requires !p.dropped && WellSized(p.log) && Increasing(marks, |data|)
    requires |p.pending| < MAX_CHUNK && |data| <= MAX_CHUNK
    ensures BlockOffsets(PlaceMarks(p, data, marks).log)
         == BlockOffsets(p.log) + Announced(|p.pending|, |Stream(p)|, marks)
    ensures |PlaceMarks(p, data, marks).pending| == Left(|p.pending|, marks)
  {
    hide PlaceMark, PlaceMarks, BlockOffsets, Announced, Left, WellSized, Stream, Excess, Increasing, Cursor;
    if marks == [] {
      NoMarksPlaced(p, data);
      NothingAnnounced(|p.pending|, |Stream(p)|);
    } else {
      var early, mark := marks[..|marks| - 1], marks[|marks| - 1];
      PlaceMarksLast(p, data, marks);
      PlaceMarksOffsets(p, data, early);
      PlacedLength(p, data, early);
      PlaceMarkOffset(PlaceMarks(p, data, early), data[Cursor(early)..mark.end], mark.event);
      LeftSnoc(|p.pending|, data, marks);
      AnnouncedSnoc(|p.pending|, |Stream(p)|, marks);
      Associate(BlockOffsets(p.log), Announced(|p.pending|, |Stream(p)|, early),
        [|Stream(p)| + mark.end - Left(|p.pending|, marks)]);
    }
  }

  lemma NothingAnnounced(waiting: nat, base: nat)
    requires waiting <= MAX_CHUNK
    ensures Announced(waiting, base, []) == [] && Left(waiting, []) == waiting
  {}

  lemma AnnouncedNear(waiting: nat, base: nat, marks: seq<Mark>)
    requires waiting < MAX_CHUNK && forall j :: 0 <= j < |marks| ==> marks[j].end <= MAX_CHUNK
    ensures Near(Announced(waiting, base, marks), Shift(marks, base))
  {}

  lemma BacklogFacts(p: Pump, data: seq<byte>, interpret: Interpretation)
    requires !p.dropped && WellSized(p.log)
    ensures var q := Backlog(p, data, interpret);
            && Stream(q) == Stream(p) + data && !q.dropped && WellSized(q.log)
            && |q.pending| <= |p.pending| + |data|
            && Blocks(q.log) == Blocks(p.log) + Events(Marks(p.scanner, data, interpret))
            && Drops(q.log) == Drops(p.log)
  {
    hide Marks, Advance, PlaceMarks, Blocks, Drops, Events, Increasing, WellSized, Cursor;
    var marks := Marks(p.scanner, data, interpret);
    MarksIncrease(p.scanner, data, interpret);
    PlaceMarksFacts(p, data, marks);
    var q := PlaceMarks(p, data, marks);
    Associate(Bytes(q.log), q.pending, data[Cursor(marks)..]);
    assert data[Cursor(marks)..|data|] == data[Cursor(marks)..] && data[..|data|] == data;
    JoinSlices(Stream(p), data, Cursor(marks), |data|);
  }

  // ---------- runs whose messages fit one chunk ----------

  ghost predicate Faithful(p: Pump, received: seq<byte>, interpret: Interpretation) {
    && !p.dropped && Stream(p) == received && Drops(p.log) == 0 && WellSized(p.log)
    && p.scanner == Advance(Fresh, received, interpret)
    && Blocks(p.log) == Events(Marks(Fresh, received, interpret))
    && Near(BlockOffsets(p.log), Marks(Fresh, received, interpret))
  }

  ghost predicate Lossless(p: Pump, received: seq<byte>, interpret: Interpretation) {
    |p.pending| < MAX_CHUNK && Faithful(p, received, interpret)
  }

  lemma FlushKeepsFaith(p: Pump, received: seq<byte>, interpret: Interpretation)
    requires Faithful(p, received, interpret) && p.pending != []
    ensures Faithful(FlushOne(p), received, interpret)
  {
    FlushFacts(p);
  }

  lemma AnnounceKeepsFaith(p: Pump, signals: seq<Signal>, received: seq<byte>, interpret: Interpretation)
    requires Faithful(p, received, interpret)
    ensures Faithful(p.(log := p.log + Announce(signals)), received, interpret)
  {
    AnnounceIsSilent(p.log, signals);
  }

  lemma EventsConcat(x: seq<Mark>, y: seq<Mark>, offset: nat)
    ensures Events(x) + Events(y) == Events(x + Shift(y, offset))
  {}

  lemma NearConcat(before: seq<nat>, offsets: seq<nat>, x: seq<Mark>, y: seq<Mark>)
    requires Near(before, x) && Near(offsets, y)
    ensures Near(before + offsets, x + y)
  {}

  lemma ReceiveNear(p: Pump, received: seq<byte>, data: seq<byte>, interpret: Interpretation)
    requires Lossless(p, received, interpret) && |data| <= MAX_CHUNK
    ensures Near(BlockOffsets(Backlog(p, data, interpret).log), Marks(Fresh, received + data, interpret))
  {
    MarksConcat(Fresh, received, data, interpret);
    MarksIncrease(p.scanner, data, interpret);
    var marks := Marks(p.scanner, data, interpret);
    PlaceMarksOffsets(p, data, marks);
    AnnouncedNear(|p.pending|, |received|, marks);
    NearConcat(BlockOffsets(p.log), Announced(|p.pending|, |received|, marks), Marks(Fresh, received, interpret),
      Shift(marks, |received|));
  }

  lemma BacklogKeepsFaith(p: Pump, received: seq<byte>, data: seq<byte>, interpret: Interpretation)
    requires Lossless(p, received, interpret) && |data| <= MAX_CHUNK
    ensures Faithful(Backlog(p, data, interpret), received + data, interpret)
    ensures |Backlog(p, data, interpret).pending| < 2 * MAX_CHUNK
  {
    BacklogFacts(p, data, interpret);
    ReceiveNear(p, received, data, interpret);
    AdvanceConcat(Fresh, received, data, interpret);
    MarksConcat(Fresh, received, data, interpret);
    EventsConcat(Marks(Fresh, received, interpret), Marks(p.scanner, data, interpret), |received|);
  }

  lemma LosslessReceive(p: Pump, received: seq<byte>, data: seq<byte>, signals: seq<Signal>, interpret: Interpretation)
    requires Lossless(p, received, interpret) && |data| <= MAX_CHUNK
    ensures Lossless(Receive(p, data, signals, interpret), received + data, interpret)
  {
    BacklogKeepsFaith(p, received, data, interpret);
    var q := Backlog(p, data, interpret);
    if |q.pending| >= MAX_CHUNK {
      FlushKeepsFaith(q, received + data, interpret);
    }
    AnnounceKeepsFaith(Relieve(q), signals, received + data, interpret);
  }

  /**
   If no message exceeds one chunk, then at every point of every run the
   emitted bytes followed by the waiting ones are exactly the received bytes,
   nothing is ever dropped, less than one chunk waits, and the block events are
   those of the whole stream scanned at once, each less than one chunk early.
   */
  lemma {:induction false} SmallRunIsLossless(steps: seq<Step>, interpret: Interpretation)
    requires Small(steps)
    ensures Lossless(Run(steps, interpret), Received(steps), interpret)
  {
    if steps != [] {
      var n := |steps| - 1;
      SmallRunIsLossless(steps[..n], interpret);
      var p := Run(steps[..n], interpret);
      match steps[n] {
        case Message(data, signals) =>
          LosslessReceive(p, Received(steps[..n]), data, signals, interpret);
        case Tick =>
          if p.pending != [] { FlushFacts(p); }
      }
    }
  }

  lemma {:induction false} DrainFacts(p: Pump)
    ensures Drain(p).pending == [] && Bytes(Drain(p).log) == Stream(p)
    ensures Blocks(Drain(p).log) == Blocks(p.log)
    ensures !p.dropped ==> Drops(Drain(p).log) == Drops(p.log)
    ensures Closed !in p.log ==> Closed !in Drain(p).log
    decreases |p.pending|
  {
    if p.pending != [] {
      FlushFacts(p);
      DrainFacts(FlushOne(p));
    }
  }

  /** A fresh session is lossless to the end: what was emitted is what was received, then one Closed event. */
  lemma CloseIsComplete(steps: seq<Step>, interpret: Interpretation)
    requires Small(steps)
    ensures var log := Close(Run(steps, interpret)).log;
            && Bytes(log) == Received(steps)
            && Blocks(log) == Events(Marks(Fresh, Received(steps), interpret))
            && log != [] && log[|log| - 1] == Closed && Closed !in log[..|log| - 1]
  {
    SmallRunIsLossless(steps, interpret);
    RunNeverCloses(steps, interpret);
    var p := Run(steps, interpret);
    DrainFacts(p);
    Logged(Drain(p).log, Closed);
  }

  lemma {:induction false} PlaceMarksNeverClose(p: Pump, data: seq<byte>, marks: seq<Mark>)
    requires Increasing(marks, |data|) && Closed !in p.log
    ensures Closed !in PlaceMarks(p, data, marks).log
  {
    if marks != [] {
      assert Increasing(marks[..|marks| - 1], |data|);
      PlaceMarksNeverClose(p, data, marks[..|marks| - 1]);
    }
  }

  lemma {:induction false} RunNeverCloses(steps: seq<Step>, interpret: Interpretation)
    ensures Closed !in Run(steps, interpret).log
  {
    if steps != [] {
      var n := |steps| - 1;
      RunNeverCloses(steps[..n], interpret);
      var p := Run(steps[..n], interpret);
      if steps[n].Message? {
        var marks := Marks(p.scanner, steps[n].data, interpret);
        MarksIncrease(p.scanner, steps[n].data, interpret);
        PlaceMarksNeverClose(p, steps[n].data, marks);
      }
    }
  }

  // ---------- the exact byte of a block event ----------

  lemma BacklogOffsets(p: Pump, data: seq<byte>, interpret: Interpretation)
    requires !p.dropped && WellSized(p.log) && |p.pending| < MAX_CHUNK && |data| <= MAX_CHUNK
    ensures BlockOffsets(Backlog(p, data, interpret).log)
         == BlockOffsets(p.log) + Announced(|p.pending|, |Stream(p)|, Marks(p.scanner, data, interpret))
  {
    hide Marks, Advance, BlockOffsets, Announced, PlaceMarks, WellSized, Increasing, Stream;
    MarksIncrease(p.scanner, data, interpret);
    PlaceMarksOffsets(p, data, Marks(p.scanner, data, interpret));
  }

  lemma RelieveKeepsOffsets(p: Pump)
    requires |p.pending| <= MAX_PENDING
    ensures BlockOffsets(Relieve(p).log) == BlockOffsets(p.log)
  {
    hide BlockOffsets, FlushOne, DropMiddle, WellSized;
    if |p.pending| >= MAX_CHUNK { FlushFacts(p); }
  }

  lemma ReceiveOffsets(p: Pump, received: seq<byte>, data: seq<byte>, signals: seq<Signal>, interpret: Interpretation)
    requires Lossless(p, received, interpret) && |data| <= MAX_CHUNK
    ensures BlockOffsets(Receive(p, data, signals, interpret).log)
         == BlockOffsets(p.log) + Announced(|p.pending|, |received|, Marks(p.scanner, data, interpret))
  {
    hide Marks, Advance, Bytes, BlockOffsets, Announced, Backlog, Relieve, Announce, Near, Events, WellSized;
    BacklogOffsets(p, data, interpret);
    BacklogKeepsFaith(p, received, data, interpret);
    var q := Backlog(p, data, interpret);
    RelieveKeepsOffsets(q);
    AnnounceIsSilent(Relieve(q).log, signals);
  }

  /**
   The marks of one message that fits a chunk: every one after the first is
   announced exactly behind its own bytes, and the first one is if and only if
   the bytes waiting before the message and those up to the mark fit one chunk.
   */
  lemma AlignedIffBacklogFits(p: Pump, received: seq<byte>, data: seq<byte>, signals: seq<Signal>,
                              interpret: Interpretation)
    requires Lossless(p, received, interpret) && |data| <= MAX_CHUNK
    ensures var marks := Marks(p.scanner, data, interpret);
            var offsets := BlockOffsets(Receive(p, data, signals, interpret).log);
            var before := |BlockOffsets(p.log)|;
            && |offsets| == before + |marks| && offsets[..before] == BlockOffsets(p.log)
            && (marks != [] ==>
                  (offsets[before] == |received| + marks[0].end <==> |p.pending| + marks[0].end <= MAX_CHUNK))
            && forall j :: 1 <= j < |marks| ==> offsets[before + j] == |received| + marks[j].end
  {
    hide Marks, BlockOffsets, Receive;
    ReceiveOffsets(p, received, data, signals, interpret);
  }

  /** How many block events were not announced at the end of their own mark. */
  function Early(offsets: seq<nat>, marks: seq<Mark>): nat
    requires |offsets| == |marks|
  {
    if marks == [] then 0
    else
      var n := |marks| - 1;
      Early(offsets[..n], marks[..n]) + (if offsets[n] != marks[n].end then 1 else 0)
  }

  /** The first mark of the message does not fit one chunk together with what is waiting. */
  predicate Overflows(p: Pump, step: Step, interpret: Interpretation) {
    step.Message? &&
    var marks := Marks(p.scanner, step.data, interpret);
    marks != [] && |p.pending| + marks[0].end > MAX_CHUNK
  }

  function OverflowCount(steps: seq<Step>, interpret: Interpretation): nat {
    if steps == [] then 0
    else
      var n := |steps| - 1;
      OverflowCount(steps[..n], interpret) + (if Overflows(Run(steps[..n], interpret), steps[n], interpret) then 1 else 0)
  }

  lemma {:induction false} EarlyConcat(before: seq<nat>, x: seq<Mark>, offsets: seq<nat>, y: seq<Mark>)
    requires |before| == |x| && |offsets| == |y|
    ensures Early(before + offsets, x + y) == Early(before, x) + Early(offsets, y)
  {
    if y == [] {
      assert before + offsets == before && x + y == x;
    } else {
      var n := |y| - 1;
      EarlyConcat(before, x, offsets[..n], y[..n]);
      assert (before + offsets)[..|x| + n] == before + offsets[..n] && (x + y)[..|x| + n] == x + y[..n];
    }
  }

  lemma {:induction false} EarlyInMessage(waiting: nat, base: nat, marks: seq<Mark>)
    requires waiting <= MAX_CHUNK
    ensures Early(Announced(waiting, base, marks), Shift(marks, base))
         == if marks != [] && waiting + marks[0].end > MAX_CHUNK then 1 else 0
  {
    if marks != [] {
      var n := |marks| - 1;
      EarlyInMessage(waiting, base, marks[..n]);
      AnnouncedSnoc(waiting, base, marks);
      assert Announced(waiting, base, marks)[..n] == Announced(waiting, base, marks[..n]);
      assert Shift(marks, base)[..n] == Shift(marks[..n], base);
    }
  }

  lemma EarlyReceive(p: Pump, received: seq<byte>, data: seq<byte>, signals: seq<Signal>, interpret: Interpretation)
    requires Lossless(p, received, interpret) && |data| <= MAX_CHUNK
    ensures var q := Receive(p, data, signals, interpret);
            && |BlockOffsets(p.log)| == |Marks(Fresh, received, interpret)|
            && |BlockOffsets(q.log)| == |Marks(Fresh, received + data, interpret)|
            && Early(BlockOffsets(q.log), Marks(Fresh, received + data, interpret))
               == Early(BlockOffsets(p.log), Marks(Fresh, received, interpret))
                  + (if Overflows(p, Message(data, signals), interpret) then 1 else 0)
  {
    hide Marks, Advance, Bytes, BlockOffsets, Announced, Early, Receive;
    var marks := Marks(p.scanner, data, interpret);
    ReceiveOffsets(p, received, data, signals, interpret);
    MarksConcat(Fresh, received, data, interpret);
    EarlyConcat(BlockOffsets(p.log), Marks(Fresh, received, interpret),
      Announced(|p.pending|, |received|, marks), Shift(marks, |received|));
    EarlyInMessage(|p.pending|, |received|, marks);
  }

  lemma EarlyTick(p: Pump, interpret: Interpretation)
    ensures BlockOffsets(Apply(p, Tick, interpret).log) == BlockOffsets(p.log)
  {
    if p.pending != [] { FlushFacts(p); }
  }

  /**
   In every run of messages of at most one chunk, exactly as many block events
   are announced early as there are messages whose first mark did not fit one
   chunk together with the backlog: at most one per message, and none at all
   if and only if every such mark fits.
   */
  lemma {:induction false} EarlyEventsAreCounted(steps: seq<Step>, interpret: Interpretation)
    requires Small(steps)
    ensures var log := Run(steps, interpret).log;
            var marks := Marks(Fresh, Received(steps), interpret);
            |BlockOffsets(log)| == |marks| && Early(BlockOffsets(log), marks) == OverflowCount(steps, interpret)
  {
    hide Marks, BlockOffsets, Receive, Early, Overflows, Lossless;
    if steps == [] {
      NoneEarly(interpret);
    } else {
      var n := |steps| - 1;
      SmallPrefix(steps);
      EarlyEventsAreCounted(steps[..n], interpret);
      SmallRunIsLossless(steps[..n], interpret);
      var p, received := Run(steps[..n], interpret), Received(steps[..n]);
      match steps[n] {
        case Message(data, signals) =>
          EarlyReceive(p, received, data, signals, interpret);
        case Tick =>
          EarlyTick(p, interpret);
          TickNeverOverflows(p, interpret);
          assert received + [] == received;
      }
    }
  }

  lemma NoneEarly(interpret: Interpretation)
    ensures Marks(Fresh, [], interpret) == [] && BlockOffsets([]) == [] && Early([], []) == 0
  {}

  lemma TickNeverOverflows(p: Pump, interpret: Interpretation)
    ensures !Overflows(p, Tick, interpret)
  {}

  lemma QuietReceive(data: seq<byte>, interpret: Interpretation)
    requires ESC !in data && |data| < MAX_CHUNK
    ensures Receive(Idle, data, [], interpret) == Idle.(pending := data)
  {
    TextStaysGround(Fresh, data, interpret);
    assert [] + data[0..] == data && [] + Announce([]) == [];
  }

  lemma PlaceSingle(p: Pump, data: seq<byte>, marks: seq<Mark>, block: Block)
    requires data != [] && marks == [Mark(|data|, block)]
    ensures Increasing(marks, |data|) && PlaceMarks(p, data, marks) == PlaceMark(p, data, block)
  {
    hide PlaceMark;
    assert marks[..0] == [] && data[0..|data|] == data;
    assert PlaceMarks(p, data, marks[..0]) == p;
  }

  lemma SingleBacklog(p: Pump, data: seq<byte>, block: Block, interpret: Interpretation)
    requires data != [] && Marks(p.scanner, data, interpret) == [Mark(|data|, block)]
    ensures Backlog(p, data, interpret)
         == PlaceMark(p, data, block).(scanner := Advance(p.scanner, data, interpret))
  {
    hide Marks, Advance, PlaceMark, PlaceMarks;
    PlaceSingle(p, data, Marks(p.scanner, data, interpret), block);
    assert PlaceMark(p, data, block).pending + data[|data|..] == PlaceMark(p, data, block).pending;
  }

  lemma SmallReceiveOffsets(p: Pump, data: seq<byte>, interpret: Interpretation)
    requires |Backlog(p, data, interpret).pending| < MAX_CHUNK
    ensures BlockOffsets(Receive(p, data, [], interpret).log) == BlockOffsets(Backlog(p, data, interpret).log)
  {
    hide Backlog, BlockOffsets, DropMiddle, FlushOne, Announce;
    AnnounceIsSilent(Backlog(p, data, interpret).log, []);
  }

  lemma SingleMarkReceive(p: Pump, data: seq<byte>, block: Block, interpret: Interpretation)
    requires data != [] && !p.dropped && |p.pending| + |data| < 2 * MAX_CHUNK
    requires Marks(p.scanner, data, interpret) == [Mark(|data|, block)]
    ensures BlockOffsets(Receive(p, data, [], interpret).log)
         == BlockOffsets(p.log) + [|Stream(p)| + |data| - Excess(|p.pending| + |data|)]
  {
    hide Marks, Advance, Bytes, Blocks, Drops, BlockOffsets, PlaceMark, Backlog, Receive, WellSized;
    SingleBacklog(p, data, block, interpret);
    PlaceMarkFacts(p, data, block);
    SmallReceiveOffsets(p, data, interpret);
  }

  /**
   The alignment can fail with small messages: when one byte less than a chunk
   is waiting, a mark is announced after exactly one chunk, before its own end.
   */
  lemma MisplacedMark(body: seq<byte>, interpret: Interpretation)
    requires Plain(body) && |body| <= MAX_BODY && interpret(body).Some?
    ensures var text := seq(MAX_CHUNK - 1, _ => 97 as byte);
            var mark := MarkBytes(body);
            var steps := [Message(text, []), Message(mark, [])];
            Small(steps) && BlockOffsets(Run(steps, interpret).log) == [MAX_CHUNK] && MAX_CHUNK < |text| + |mark|
  {
    hide Marks, Advance, Bytes, BlockOffsets, Receive;
    var text := seq(MAX_CHUNK - 1, _ => 97 as byte);
    var mark := MarkBytes(body);
    var steps := [Message(text, []), Message(mark, [])];
    var p := Idle.(pending := text);
    assert steps[..1] == [Message(text, [])] && steps[..1][..0] == [];
    QuietReceive(text, interpret);
    assert Run(steps[..1], interpret) == p;
    MarkRead(Fresh, body, interpret);
    EmptyLog();
    SingleMarkReceive(p, mark, interpret(body).value, interpret);
  }

  lemma EmptyLog()
    ensures Bytes([]) == [] && BlockOffsets([]) == []
  {}

  // ---------- runs with messages of any size ----------

  /** The received stream split into the parts that went out and the parts that were replaced by a marker. */
  datatype Ledger = Ledger(kept: seq<seq<byte>>, lost: seq<seq<byte>>)

  function Weave(kept: seq<seq<byte>>, between: seq<seq<byte>>): seq<byte>
    requires |kept| == |between| + 1
  {
    if between == [] then kept[0]
    else
      var n := |between|;
      Weave(kept[..n], between[..n - 1]) + between[n - 1] + kept[n]
  }

  function Markers(count: nat): seq<seq<byte>> {
    seq(count, _ => DROPPED_MARKER)
  }

  function Last(l: Ledger): seq<byte>
    requires l.kept != []
  {
    l.kept[|l.kept| - 1]
  }

  ghost predicate Balanced(stream: seq<byte>, received: seq<byte>, l: Ledger) {
    && |l.kept| == |l.lost| + 1
    && Weave(l.kept, l.lost) == received
    && Weave(l.kept, Markers(|l.lost|)) == stream
    && forall i :: 0 <= i < |l.lost| ==> l.lost[i] != []
  }

  /** Bytes that can still wait in front of the last kept part. */
  const LEAD: nat := EDGE + |DROPPED_MARKER| - MAX_CHUNK

  ghost predicate Anchored(pending: seq<byte>, l: Ledger) {
    l.kept != [] && (l.lost != [] ==> EDGE <= |Last(l)| && |pending| <= |Last(l)| + LEAD)
  }

  ghost predicate Settled(p: Pump, received: seq<byte>, l: Ledger) {
    && Balanced(Stream(p), received, l) && Anchored(p.pending, l)
    && !p.dropped && WellSized(p.log) && |p.pending| <= MAX_PENDING - MAX_CHUNK
    && Drops(p.log) == |l.lost|
  }

  function Extend(l: Ledger, data: seq<byte>): Ledger
    requires l.kept != []
  {
    l.(kept := l.kept[|l.kept| - 1 := Last(l) + data])
  }

  lemma WeaveExtend(kept: seq<seq<byte>>, between: seq<seq<byte>>, data: seq<byte>)
    requires |kept| == |between| + 1
    ensures Weave(kept[|kept| - 1 := kept[|kept| - 1] + data], between) == Weave(kept, between) + data
  {
    if between != [] {
      var n := |between|;
      assert kept[n := kept[n] + data][..n] == kept[..n];
      Associate(Weave(kept[..n], between[..n - 1]) + between[n - 1], kept[n], data);
    }
  }

  lemma WeaveSplit(kept: seq<seq<byte>>, between: seq<seq<byte>>, head: seq<byte>, gap: seq<byte>, tail: seq<byte>)
    requires |kept| == |between| + 1
    ensures var n := |between|;
            Weave(kept[n := head] + [tail], between + [gap]) == Weave(kept[n := head], between) + gap + tail
  {
    var n := |between|;
    var split := kept[n := head];
    assert (split + [tail])[..n + 1] == split && (between + [gap])[..n] == between;
  }

  /** Cutting the middle of the backlog cuts inside the last kept part. */
  lemma CutInside(emitted: seq<byte>, pending: seq<byte>, front: seq<byte>, last: seq<byte>)
    requires emitted + pending == front + last
    requires 2 * EDGE <= |pending| <= |last| + EDGE && EDGE <= |last|
    ensures var at := |last| - |pending| + EDGE;
            && 0 <= at <= |last| - EDGE
            && emitted + pending[..EDGE] == front + last[..at]
            && pending[|pending| - EDGE..] == last[|last| - EDGE..]
  {
    var whole := emitted + pending;
    var at := |last| - |pending| + EDGE;
    assert whole[..|emitted| + EDGE] == emitted + pending[..EDGE];
    assert whole[..|front| + at] == front + last[..at];
    assert whole[|whole| - EDGE..] == pending[|pending| - EDGE..];
    assert whole[|whole| - EDGE..] == last[|last| - EDGE..];
  }

  lemma DropMiddleShape(pending: seq<byte>)
    requires |pending| > MAX_PENDING
    ensures DropMiddle(pending) == pending[..EDGE] + DROPPED_MARKER + pending[|pending| - EDGE..]
    ensures |DropMiddle(pending)| == 2 * EDGE + |DROPPED_MARKER|
    ensures MAX_PENDING - 1 <= |DropMiddle(pending)| <= MAX_PENDING
  {}

  /** Everything woven before the last kept part. */
  function Front(kept: seq<seq<byte>>, between: seq<seq<byte>>): seq<byte>
    requires |kept| == |between| + 1
  {
    var n := |between|;
    if n == 0 then [] else Weave(kept[..n], between[..n - 1]) + between[n - 1]
  }

  lemma FrontThenLast(kept: seq<seq<byte>>, between: seq<seq<byte>>, last: seq<byte>)
    requires |kept| == |between| + 1
    ensures Weave(kept[|between| := last], between) == Front(kept, between) + last
  {
    assert kept[|between| := last][..|between|] == kept[..|between|];
  }

  lemma SplitReceived(l: Ledger, received: seq<byte>, head: seq<byte>, gap: seq<byte>, tail: seq<byte>)
    requires |l.kept| == |l.lost| + 1 && Weave(l.kept, l.lost) == received && Last(l) == head + gap + tail
    ensures Weave(l.kept[|l.lost| := head] + [tail], l.lost + [gap]) == received
  {
    var n := |l.lost|;
    WeaveSplit(l.kept, l.lost, head, gap, tail);
    FrontThenLast(l.kept, l.lost, head);
    FrontThenLast(l.kept, l.lost, head + gap + tail);
    assert l.kept[n := head + gap + tail] == l.kept;
    assert Front(l.kept, l.lost) + head + gap + tail == Front(l.kept, l.lost) + (head + gap + tail);
  }

  lemma SplitStream(l: Ledger, front: seq<byte>, head: seq<byte>, tail: seq<byte>)
    requires |l.kept| == |l.lost| + 1 && front == Front(l.kept, Markers(|l.lost|))
    ensures Weave(l.kept[|l.lost| := head] + [tail], Markers(|l.lost| + 1)) == front + head + DROPPED_MARKER + tail
  {
    var n := |l.lost|;
    WeaveSplit(l.kept, Markers(n), head, DROPPED_MARKER, tail);
    FrontThenLast(l.kept, Markers(n), head);
    assert Markers(n + 1) == Markers(n) + [DROPPED_MARKER];
  }

  lemma CutPieces(emitted: seq<byte>, pending: seq<byte>, front: seq<byte>, last: seq<byte>)
    returns (head: seq<byte>, gap: seq<byte>, tail: seq<byte>)
    requires emitted + pending == front + last && |pending| > MAX_PENDING
    requires |pending| <= |last| + EDGE && EDGE <= |last|
    ensures last == head + gap + tail && gap != [] && |tail| == EDGE
    ensures emitted + DropMiddle(pending) == front + head + DROPPED_MARKER + tail
  {
    CutInside(emitted, pending, front, last);
    DropMiddleShape(pending);
    var at := |last| - |pending| + EDGE;
    head, gap, tail := last[..at], last[at..|last| - EDGE], last[|last| - EDGE..];
    Associate(emitted, pending[..EDGE], DROPPED_MARKER);
    Associate(emitted, pending[..EDGE] + DROPPED_MARKER, tail);
  }

  lemma DropBalances(p: Pump, received: seq<byte>, l: Ledger) returns (l': Ledger)
    requires Balanced(Stream(p), received, l) && Anchored(p.pending, l) && |p.pending| > MAX_PENDING
    ensures Balanced(Bytes(p.log) + DropMiddle(p.pending), received, l')
    ensures |l'.lost| == |l.lost| + 1 && |Last(l')| == EDGE
  {
    var n := |l.lost|;
    var last, front := Last(l), Front(l.kept, Markers(n));
    assert l.kept[n := last] == l.kept;
    FrontThenLast(l.kept, Markers(n), last);
    var head, gap, tail := CutPieces(Bytes(p.log), p.pending, front, last);
    l' := Ledger(l.kept[n := head] + [tail], l.lost + [gap]);
    SplitReceived(l, received, head, gap, tail);
    SplitStream(l, front, head, tail);
  }

  /** Everything `Settled` asks for except the bound on the backlog. */
  ghost predicate Carried(p: Pump, received: seq<byte>, l: Ledger) {
    && Balanced(Stream(p), received, l) && Anchored(p.pending, l)
    && !p.dropped && WellSized(p.log) && Drops(p.log) == |l.lost|
  }

  lemma CarriedBacklog(p: Pump, received: seq<byte>, l: Ledger, data: seq<byte>, interpret: Interpretation)
    requires Settled(p, received, l)
    ensures Carried(Backlog(p, data, interpret), received + data, Extend(l, data))
    ensures |Backlog(p, data, interpret).pending| <= |p.pending| + |data|
  {
    hide Backlog, Weave, Bytes, Drops;
    BacklogFacts(p, data, interpret);
    WeaveExtend(l.kept, l.lost, data);
    WeaveExtend(l.kept, Markers(|l.lost|), data);
  }

  lemma FlushCarries(p: Pump, received: seq<byte>, l: Ledger)
    requires Carried(p, received, l) && p.pending != []
    ensures Carried(FlushOne(p), received, l) && |FlushOne(p).pending| == Excess(|p.pending|)
  {
    hide Weave, Bytes, Drops, FlushOne;
    FlushFacts(p);
  }

  lemma DropCarries(p: Pump, received: seq<byte>, l: Ledger) returns (l': Ledger)
    requires Carried(p, received, l) && |p.pending| > MAX_PENDING
    ensures Carried(Relieve(p), received, l') && |l'.lost| == |l.lost| + 1
    ensures |Relieve(p).pending| <= MAX_PENDING - MAX_CHUNK
  {
    hide Weave, Bytes, Drops, DropMiddle, FlushOne;
    DropMiddleShape(p.pending);
    l' := DropBalances(p, received, l);
    FlushFacts(p.(pending := DropMiddle(p.pending), dropped := true));
  }

  lemma AnnounceCarries(p: Pump, received: seq<byte>, l: Ledger, signals: seq<Signal>)
    requires Settled(p, received, l)
    ensures Settled(p.(log := p.log + Announce(signals)), received, l)
  {
    hide Weave, Bytes, Drops;
    AnnounceIsSilent(p.log, signals);
  }

  lemma SettledReceive(p: Pump, received: seq<byte>, l: Ledger, data: seq<byte>, signals: seq<Signal>,
                       interpret: Interpretation)
    returns (l': Ledger)
    requires Settled(p, received, l)
    ensures Settled(Receive(p, data, signals, interpret), received + data, l')
    ensures |data| <= MAX_CHUNK ==> |l'.lost| == |l.lost|
  {
    hide Backlog, Weave, Bytes, Drops, Balanced, WellSized;
    CarriedBacklog(p, received, l, data, interpret);
    var q := Backlog(p, data, interpret);
    l' := Extend(l, data);
    if |q.pending| > MAX_PENDING {
      l' := DropCarries(q, received + data, l');
    } else if |q.pending| >= MAX_CHUNK {
      FlushCarries(q, received + data, l');
    }
    AnnounceCarries(Relieve(q), received + data, l', signals);
  }

  lemma SettledTick(p: Pump, received: seq<byte>, l: Ledger, interpret: Interpretation)
    requires Settled(p, received, l)
    ensures Settled(Apply(p, Tick, interpret), received, l)
  {
    if p.pending != [] { FlushCarries(p, received, l); }
  }

  lemma SettledIdle()
    ensures Settled(Idle, [], Ledger([[]], []))
  {}

  /**
   Whatever the message sizes, the stream the pump stands for is the received
   stream with some non-empty gaps, each replaced by exactly one marker; the
   number of gaps is the number of Data events flagged as dropped. The last
   part has at least EDGE bytes once anything was lost, so the newest output
   always survives, and no more than MAX_PENDING - MAX_CHUNK bytes wait.
   */
  lemma {:induction false} RunIsAccountedFor(steps: seq<Step>, interpret: Interpretation) returns (l: Ledger)
    ensures Settled(Run(steps, interpret), Received(steps), l)
    ensures Small(steps) ==> l.lost == []
  {
    hide Settled, Receive, Small;
    if steps == [] {
      SettledIdle();
      l := Ledger([[]], []);
    } else {
      var n := |steps| - 1;
      var p, received := Run(steps[..n], interpret), Received(steps[..n]);
      var before := RunIsAccountedFor(steps[..n], interpret);
      match steps[n] {
        case Message(data, signals) =>
          l := SettledReceive(p, received, before, data, signals, interpret);
        case Tick =>
          SettledTick(p, received, before, interpret);
          l := before;
          assert received + [] == received;
      }
      if Small(steps) { SmallPrefix(steps); }
    }
  }

  /** Whatever was dropped from the bytes, no block event is: they are those of the whole received stream. */
  ghost predicate Marked(p: Pump, received: seq<byte>, interpret: Interpretation) {
    && p.scanner == Advance(Fresh, received, interpret)
    && Blocks(p.log) == Events(Marks(Fresh, received, interpret))
  }

  lemma FlushKeepsBlocks(p: Pump)
    ensures FlushOne(p).scanner == p.scanner && Blocks(FlushOne(p).log) == Blocks(p.log)
  {
    Logged(p.log, Data(p.pending[..Min(|p.pending|, MAX_CHUNK)], p.dropped));
  }

  lemma MarkedReceive(p: Pump, received: seq<byte>, data: seq<byte>, signals: seq<Signal>, interpret: Interpretation)
    requires Marked(p, received, interpret) && !p.dropped && WellSized(p.log)
    ensures Marked(Receive(p, data, signals, interpret), received + data, interpret)
  {
    hide Marks, Advance, Blocks, DropMiddle, FlushOne, PlaceMarks;
    BacklogFacts(p, data, interpret);
    AdvanceConcat(Fresh, received, data, interpret);
    MarksConcat(Fresh, received, data, interpret);
    EventsConcat(Marks(Fresh, received, interpret), Marks(p.scanner, data, interpret), |received|);
    var q := Backlog(p, data, interpret);
    FlushKeepsBlocks(q);
    FlushKeepsBlocks(q.(pending := DropMiddle(q.pending), dropped := true));
    AnnounceIsSilent(Relieve(q).log, signals);
  }

  lemma {:induction false} RunIsMarked(steps: seq<Step>, interpret: Interpretation)
    ensures Marked(Run(steps, interpret), Received(steps), interpret)
  {
    hide Marked, Receive, Settled;
    if steps == [] {
      IdleIsMarked(interpret);
    } else {
      var n := |steps| - 1;
      RunIsMarked(steps[..n], interpret);
      var p, received := Run(steps[..n], interpret), Received(steps[..n]);
      var l := RunIsAccountedFor(steps[..n], interpret);
      SettledIsUp(p, received, l);
      match steps[n] {
        case Message(data, signals) => MarkedReceive(p, received, data, signals, interpret);
        case Tick =>
          assert received + [] == received;
          MarkedTick(p, received, interpret);
      }
    }
  }

  lemma SettledIsUp(p: Pump, received: seq<byte>, l: Ledger)
    requires Settled(p, received, l)
    ensures !p.dropped && WellSized(p.log)
  {}

  lemma MarkedTick(p: Pump, received: seq<byte>, interpret: Interpretation)
    requires Marked(p, received, interpret)
    ensures Marked(Apply(p, Tick, interpret), received, interpret)
  {
    FlushKeepsBlocks(p);
  }

  lemma IdleIsMarked(interpret: Interpretation)
    ensures Marked(Idle, [], interpret)
  {}

  /**
   Closing after any run: the emitted bytes are the received ones with each gap
   replaced by a marker, the flagged Data events count the gaps, the block
   events are those of the received stream, and one Closed event ends the log.
   */
  lemma CloseIsAccountedFor(steps: seq<Step>, interpret: Interpretation) returns (l: Ledger)
    ensures var log := Close(Run(steps, interpret)).log;
            && Balanced(Bytes(log), Received(steps), l) && Drops(log) == |l.lost|
            && Blocks(log) == Events(Marks(Fresh, Received(steps), interpret))
            && log != [] && log[|log| - 1] == Closed && Closed !in log[..|log| - 1]
  {
    hide Marks, Weave, Bytes, Drops, Blocks, Drain;
    l := RunIsAccountedFor(steps, interpret);
    RunIsMarked(steps, interpret);
    RunNeverCloses(steps, interpret);
    var p := Run(steps, interpret);
    DrainFacts(p);
    Logged(Drain(p).log, Closed);
  }

  lemma SmallPrefix(steps: seq<Step>)
    requires steps != [] && Small(steps)
    ensures Small(steps[..|steps| - 1])
    ensures var s := steps[|steps| - 1]; s.Message? ==> |s.data| <= MAX_CHUNK
  {}

  function Total(parts: seq<seq<byte>>): nat {
    if parts == [] then 0 else Total(parts[..|parts| - 1]) + |parts[|parts| - 1]|
  }

  lemma {:induction false} WeaveLength(kept: seq<seq<byte>>, between: seq<seq<byte>>)
    requires |kept| == |between| + 1
    ensures |Weave(kept, between)| == Total(kept) + Total(between)
  {
    if between != [] {
      WeaveLength(kept[..|between|], between[..|between| - 1]);
    } else {
      assert Total(kept[..0]) == 0;
    }
  }

  lemma {:induction false} MarkersTotal(count: nat)
    ensures Total(Markers(count)) == count * |DROPPED_MARKER|
  {
    if count > 0 {
      MarkersTotal(count - 1);
      assert Markers(count)[..count - 1] == Markers(count - 1);
    }
  }

  /** Conservation: bytes out plus bytes lost equal bytes in plus one marker per drop. */
  lemma BytesAreConserved(p: Pump, received: seq<byte>, l: Ledger)
    requires Settled(p, received, l)
    ensures |Stream(p)| + Total(l.lost) == |received| + Drops(p.log) * |DROPPED_MARKER|
  {
    WeaveLength(l.kept, l.lost);
    WeaveLength(l.kept, Markers(|l.lost|));
    MarkersTotal(|l.lost|);
  }

  lemma EndsWithLast(kept: seq<seq<byte>>, between: seq<seq<byte>>)
    requires |kept| == |between| + 1
    ensures Weave(kept, between) == Front(kept, between) + kept[|between|]
  {
    hide Weave, Front;
    assert kept[|between| := kept[|between|]] == kept;
    FrontThenLast(kept, between, kept[|between|]);
  }

  /** The newest output survives: the stream ends like the received bytes on at least the last EDGE of them. */
  lemma NewestSurvives(p: Pump, received: seq<byte>, l: Ledger)
    requires Settled(p, received, l)
    ensures l.lost == [] ==> Stream(p) == received
    ensures l.lost != [] ==>
              && EDGE <= |received| && EDGE <= |Stream(p)|
              && Stream(p)[|Stream(p)| - EDGE..] == received[|received| - EDGE..]
  {
    hide Weave, Front, Bytes;
    EndsWithLast(l.kept, l.lost);
    EndsWithLast(l.kept, Markers(|l.lost|));
    if l.lost == [] {
      assert Markers(0) == [];
    } else {
      SuffixOf(Front(l.kept, l.lost), Last(l), EDGE);
      SuffixOf(Front(l.kept, Markers(|l.lost|)), Last(l), EDGE);
    }
  }

  lemma SuffixOf(front: seq<byte>, last: seq<byte>, n: nat)
    requires n <= |last|
    ensures (front + last)[|front + last| - n..] == last[|last| - n..]
  {}

  // ---------- when bytes go out ----------

  lemma RunSnoc(steps: seq<Step>, step: Step, interpret: Interpretation)
    ensures Run(steps + [step], interpret) == Apply(Run(steps, interpret), step, interpret)
    ensures Received(steps + [step]) == Received(steps) + (if step.Message? then step.data else [])
  {
    assert (steps + [step])[..|steps|] == steps;
  }

  /** A tick emits the oldest waiting bytes, one chunk at most, in one Data event; without any it emits nothing. */
  lemma TickEmits(p: Pump, interpret: Interpretation)
    ensures var q := Apply(p, Tick, interpret);
            if p.pending == [] then q == p
            else exists data ::
                   && q.log == p.log + [Data(data, p.dropped)] && p.pending == data + q.pending
                   && (|data| == MAX_CHUNK || (|data| < MAX_CHUNK && q.pending == []))
  {
    var q := Apply(p, Tick, interpret);
    if p.pending != [] {
      var split := Min(|p.pending|, MAX_CHUNK);
      var data := p.pending[..split];
      assert q.log == p.log + [Data(data, p.dropped)] && p.pending == data + q.pending;
    }
  }

  /** With messages of at most one chunk, every tick empties the backlog: all that was received is out. */
  lemma TickDelivers(steps: seq<Step>, interpret: Interpretation)
    requires Small(steps)
    ensures var p := Run(steps + [Tick], interpret); p.pending == [] && Bytes(p.log) == Received(steps)
  {
    hide Bytes;
    SmallRunIsLossless(steps, interpret);
    RunSnoc(steps, Tick, interpret);
    var p := Run(steps, interpret);
    if p.pending != [] { FlushFacts(p); }
    var q := Apply(p, Tick, interpret);
    assert q.pending == [] && Bytes(q.log) + [] == Bytes(q.log);
  }

  lemma TickShrinks(p: Pump, interpret: Interpretation)
    ensures |Apply(p, Tick, interpret).pending| == Excess(|p.pending|)
    ensures Stream(Apply(p, Tick, interpret)) == Stream(p)
  {
    if p.pending != [] { FlushFacts(p); }
  }

  /** Whatever was received, three ticks without a message empty the backlog. */
  lemma ThreeTicksDeliver(steps: seq<Step>, interpret: Interpretation)
    ensures var p := Run(steps, interpret);
            var q := Run(steps + [Tick] + [Tick] + [Tick], interpret);
            q.pending == [] && Bytes(q.log) == Stream(p)
  {
    hide Run, Apply, Bytes, Settled;
    var l := RunIsAccountedFor(steps, interpret);
    WaitingIsBounded(Run(steps, interpret), Received(steps), l);
    RunSnoc(steps, Tick, interpret);
    RunSnoc(steps + [Tick], Tick, interpret);
    RunSnoc(steps + [Tick] + [Tick], Tick, interpret);
    TickShrinks(Run(steps, interpret), interpret);
    TickShrinks(Run(steps + [Tick], interpret), interpret);
    TickShrinks(Run(steps + [Tick] + [Tick], interpret), interpret);
    var q := Run(steps + [Tick] + [Tick] + [Tick], interpret);
    assert Bytes(q.log) + [] == Bytes(q.log);
  }

  lemma WaitingIsBounded(p: Pump, received: seq<byte>, l: Ledger)
    requires Settled(p, received, l)
    ensures |p.pending| <= 3 * MAX_CHUNK
  {}

  /** A message without a mark that does not fill a chunk waits for the next tick. */
  lemma SmallMessageWaits(p: Pump, data: seq<byte>, signals: seq<Signal>, interpret: Interpretation)
    requires Marks(p.scanner, data, interpret) == [] && |p.pending| + |data| < MAX_CHUNK
    ensures var q := Receive(p, data, signals, interpret);
            q.pending == p.pending + data && q.log == p.log + Announce(signals) && q.dropped == p.dropped
  {
    hide Marks, Advance, DropMiddle, FlushOne;
    assert data[0..] == data;
  }

  /** A message without a mark causes a drop exactly if the backlog then exceeds 256 KiB. */
  lemma DropsIffFull(p: Pump, data: seq<byte>, signals: seq<Signal>, interpret: Interpretation)
    requires !p.dropped && Marks(p.scanner, data, interpret) == []
    ensures Drops(Receive(p, data, signals, interpret).log)
         == Drops(p.log) + (if |p.pending| + |data| > MAX_PENDING then 1 else 0)
  {
    hide Marks, Advance, Drops, Bytes, FlushOne, DropMiddle;
    var q := Backlog(p, data, interpret);
    assert q.pending == p.pending + data && q.log == p.log by { assert data[0..] == data; }
    if |q.pending| > MAX_PENDING {
      DropMiddleShape(q.pending);
      FlushFacts(q.(pending := DropMiddle(q.pending), dropped := true));
    } else if |q.pending| >= MAX_CHUNK {
      FlushFacts(q);
    }
    AnnounceIsSilent(Relieve(q).log, signals);
  }

  /** The attention signals in the log, in order. */
  function Signals(log: seq<Event>): seq<Signal> {
    if log == [] then []
    else
      var e := log[|log| - 1];
      Signals(log[..|log| - 1]) + (if e.Attention? then [e.signal] else [])
  }

  function SignalsIn(steps: seq<Step>): seq<Signal> {
    if steps == [] then []
    else
      var s := steps[|steps| - 1];
      SignalsIn(steps[..|steps| - 1]) + (if s.Message? then s.signals else [])
  }

  lemma SignalsSnoc(log: seq<Event>, e: Event)
    ensures Signals(log + [e]) == Signals(log) + (if e.Attention? then [e.signal] else [])
  {
    assert (log + [e])[..|log|] == log;
  }

  lemma {:induction false} AnnouncedSignals(log: seq<Event>, signals: seq<Signal>)
    ensures Signals(log + Announce(signals)) == Signals(log) + signals
  {
    if signals == [] {
      assert log + Announce(signals) == log;
    } else {
      var n := |signals| - 1;
      hide Signals;
      AnnouncedSignals(log, signals[..n]);
      SignalsSnoc(log + Announce(signals[..n]), Attention(signals[n]));
      assert log + Announce(signals) == log + Announce(signals[..n]) + [Attention(signals[n])];
      Associate(Signals(log), signals[..n], [signals[n]]);
      assert signals[..n] + [signals[n]] == signals;
    }
  }

  lemma FlushIsNoSignal(p: Pump)
    ensures Signals(FlushOne(p).log) == Signals(p.log)
  {
    SignalsSnoc(p.log, Data(p.pending[..Min(|p.pending|, MAX_CHUNK)], p.dropped));
  }

  lemma {:induction false} MarksAreNoSignals(p: Pump, data: seq<byte>, marks: seq<Mark>)
    requires Increasing(marks, |data|)
    ensures Signals(PlaceMarks(p, data, marks).log) == Signals(p.log)
  {
    hide FlushOne, Signals;
    if marks != [] {
      var early, mark := marks[..|marks| - 1], marks[|marks| - 1];
      PlaceMarksLast(p, data, marks);
      MarksAreNoSignals(p, data, early);
      var q := PlaceMarks(p, data, early);
      var r := q.(pending := q.pending + data[Cursor(early)..mark.end]);
      FlushIsNoSignal(r);
      SignalsSnoc(r.log, BlockEvent(mark.event));
      SignalsSnoc(FlushOne(r).log, BlockEvent(mark.event));
    }
  }

  lemma ReceiveSignals(p: Pump, data: seq<byte>, signals: seq<Signal>, interpret: Interpretation)
    ensures Signals(Receive(p, data, signals, interpret).log) == Signals(p.log) + signals
  {
    hide Marks, Advance, PlaceMarks, FlushOne, Signals, DropMiddle, Announce;
    MarksIncrease(p.scanner, data, interpret);
    MarksAreNoSignals(p, data, Marks(p.scanner, data, interpret));
    var q := Backlog(p, data, interpret);
    FlushIsNoSignal(q);
    FlushIsNoSignal(q.(pending := DropMiddle(q.pending), dropped := true));
    AnnouncedSignals(Relieve(q).log, signals);
  }

  /** Over every run the attention signals of the messages are announced, all of them and in order. */
  lemma {:induction false} SignalsAreAnnounced(steps: seq<Step>, interpret: Interpretation)
    ensures Signals(Run(steps, interpret).log) == SignalsIn(steps)
  {
    if steps != [] {
      hide Receive, FlushOne;
      var n := |steps| - 1;
      SignalsAreAnnounced(steps[..n], interpret);
      var p := Run(steps[..n], interpret);
      match steps[n] {
        case Message(data, signals) => ReceiveSignals(p, data, signals, interpret);
        case Tick => FlushIsNoSignal(p);
      }
    }
  }

  // ---------- the pump object ----------

  lemma {:induction false} PlaceMarksIgnoreScanner(p: Pump, q: Pump, data: seq<byte>, marks: seq<Mark>)
    requires Increasing(marks, |data|) && q == p.(scanner := q.scanner)
    ensures PlaceMarks(q, data, marks) == PlaceMarks(p, data, marks).(scanner := q.scanner)
  {
    if marks != [] {
      assert Increasing(marks[..|marks| - 1], |data|);
      PlaceMarksIgnoreScanner(p, q, data, marks[..|marks| - 1]);
    }
  }

  class Forwarder {
    const parser: Osc133Parser
    var pending: seq<byte>
    var dropped: bool
    /** Events handed to the application bus, oldest first. */
    var log: seq<Event>

    ghost function View(): Pump
      reads this, parser
    {
      Pump(pending, dropped, parser.View(), log)
    }

    constructor (interpret: Interpretation)
      ensures View() == Idle && fresh(parser) && parser.interpret == interpret
    {
      parser := new Osc133Parser(interpret);
      pending := [];
      dropped := false;
      log := [];
    }

    method Emit(e: Event)
      modifies this`log
      ensures log == old(log) + [e]
    {
      log := log + [e];
    }

    method Flush()
      modifies this
      ensures View() == FlushOne(old(View()))
    {
      var split := if |pending| < MAX_CHUNK then |pending| else MAX_CHUNK;
      var remainder := pending[split..];
      var data := pending[..split];
      pending := remainder;
      var flag := dropped;
      dropped := false;
      Emit(Data(data, flag));
    }

    method CutMiddle()
      modifies this`pending
      ensures pending == DropMiddle(old(pending))
    {
      var edge := (MAX_PENDING - |DROPPED_MARKER|) / 2;
      var tailStart := if edge <= |pending| then |pending| - edge else 0;
      var tail := pending[tailStart..];
      if edge < |pending| {
        pending := pending[..edge];
      }
      pending := pending + DROPPED_MARKER;
      pending := pending + tail;
    }

    method EmitMark(segment: seq<byte>, block: Block)
      modifies this
      ensures View() == PlaceMark(old(View()), segment, block)
    {
      pending := pending + segment;
      if pending != [] {
        Flush();
      }
      Emit(BlockEvent(block));
    }

    method EmitMarks(data: seq<byte>, marks: seq<Mark>) returns (cursor: nat)
      requires Increasing(marks, |data|)
      modifies this
      ensures cursor == Cursor(marks)
      ensures View() == PlaceMarks(old(View()), data, marks)
    {
      hide PlaceMark;
      cursor := 0;
      for i := 0 to |marks|
        invariant Increasing(marks[..i], |data|)
        invariant cursor == Cursor(marks[..i])
        invariant View() == PlaceMarks(old(View()), data, marks[..i])
      {
        var earlier := marks[..i + 1];
        assert earlier[..i] == marks[..i] && Increasing(earlier, |data|);
        EmitMark(data[cursor..marks[i].end], marks[i].event);
        cursor := marks[i].end;
      }
      assert marks[..|marks|] == marks;
    }

    method EmitSignals(signals: seq<Signal>)
      modifies this`log
      ensures log == old(log) + Announce(signals)
    {
      for i := 0 to |signals|
        invariant log == old(log) + Announce(signals[..i])
      {
        Emit(Attention(signals[i]));
      }
      assert signals[..|signals|] == signals;
    }

    method RelievePressure()
      modifies this
      ensures View() == Relieve(old(View()))
    {
      if |pending| > MAX_PENDING {
        CutMiddle();
        dropped := true;
      }
      if |pending| >= MAX_CHUNK {
        Flush();
      }
    }

    method OnMessage(data: seq<byte>, signals: seq<Signal>)
      modifies this, parser
      ensures View() == Receive(old(View()), data, signals, parser.interpret)
    {
      hide Marks, Advance, PlaceMarks, Relieve, Announce;
      MarksIncrease(parser.View(), data, parser.interpret);
      var marks := parser.PushIndexed(data);
      ghost var mid := View();
      var cursor := EmitMarks(data, marks);
      PlaceMarksIgnoreScanner(old(View()), mid, data, marks);
      if cursor < |data| {
        pending := pending + data[cursor..];
      }
      assert View() == Backlog(old(View()), data, parser.interpret);
      RelievePressure();
      EmitSignals(signals);
    }

    method OnTick()
      modifies this
      ensures View() == Apply(old(View()), Tick, parser.interpret)
    {
      if pending != [] {
        Flush();
      }
    }

    method OnClose()
      modifies this
      ensures View() == Close(old(View()))
    {
      while pending != []
        invariant Drain(View()) == Drain(old(View()))
        decreases |pending|
      {
        Flush();
      }
      Emit(Closed);
    }
  }
}
