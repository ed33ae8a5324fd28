/**
 The streaming OSC 133 scanner that runs beside the raw terminal output.

 `interpret` stands for the decoding of an OSC body into a block event
 (UTF-8 check, `133;X` fields, exit-code number); every statement below holds
 for any such decoding.
 */
module Osc133 {
  import opened Common

  const MAX_BODY := 256

  datatype Block = PromptStart | CommandStart | OutputStart | CommandEnd(exitCode: Option<int>)

  datatype Mode = Ground | Esc | Osc

  datatype Scanner = Scanner(mode: Mode, body: seq<byte>)

  /** A block event with the exclusive end offset of the OSC sequence that carried it. */
  datatype Mark = Mark(end: nat, event: Block)

  type Interpretation = seq<byte> -> Option<Block>

  const Fresh := Scanner(Ground, [])

  /** One byte through the scanner. */
  function Feed(s: Scanner, b: byte, interpret: Interpretation): (Scanner, Option<Block>)
    decreases s.mode.Osc?
  {
    match s.mode
    case Ground => (if b == ESC then s.(mode := Esc) else s, None)
    case Esc => (if b == RIGHT_BRACKET then Scanner(Osc, []) else s.(mode := Ground), None)
    case Osc =>
      if b == BEL then
        (Fresh, interpret(s.body))
      else if b == ESC then
        (s.(body := s.body + [b]), None)
      else if s.body != [] && s.body[|s.body| - 1] == ESC then
        var body := s.body[..|s.body| - 1];
        if b == BACKSLASH then (Fresh, interpret(body)) else Feed(Fresh, b, interpret)
      else if |s.body| < MAX_BODY then
        (s.(body := s.body + [b]), None)
      else
        (Fresh, None)
  }

  /** The scanner after a whole byte sequence. */
  function Advance(s: Scanner, data: seq<byte>, interpret: Interpretation): Scanner {
    if data == [] then s
    else
      var n := |data| - 1;
      Feed(Advance(s, data[..n], interpret), data[n], interpret).0
  }

  /** The marks completed inside `data`, in order. */
  function Marks(s: Scanner, data: seq<byte>, interpret: Interpretation): seq<Mark> {
    if data == [] then []
    else
      var n := |data| - 1;
      var event := Feed(Advance(s, data[..n], interpret), data[n], interpret).1;
      Marks(s, data[..n], interpret) + Found(event, n + 1)
  }

  function Shift(marks: seq<Mark>, offset: nat): seq<Mark> {
    seq(|marks|, i requires 0 <= i < |marks| => Mark(marks[i].end + offset, marks[i].event))
  }

  ghost predicate Increasing(marks: seq<Mark>, limit: nat) {
    && (forall i :: 0 <= i < |marks| ==> 0 < marks[i].end <= limit)
    && (forall i, j :: 0 <= i < j < |marks| ==> marks[i].end < marks[j].end)
  }

  /** Marks end at strictly increasing offsets inside the message. */
  lemma {:induction false} MarksIncrease(s: Scanner, data: seq<byte>, interpret: Interpretation)
    ensures Increasing(Marks(s, data, interpret), |data|)
  {
    if data != [] {
      MarksIncrease(s, data[..|data| - 1], interpret);
    }
  }

  function Found(event: Option<Block>, end: nat): seq<Mark> {
    if event.Some? then [Mark(end, event.value)] else []
  }

  lemma Nothing(s: Scanner, interpret: Interpretation)
    ensures Advance(s, [], interpret) == s && Marks(s, [], interpret) == []
  {}

  lemma AdvanceSnoc(s: Scanner, data: seq<byte>, b: byte, interpret: Interpretation)
    ensures Advance(s, data + [b], interpret) == Feed(Advance(s, data, interpret), b, interpret).0
  {
    assert (data + [b])[..|data|] == data;
  }

  lemma MarksSnoc(s: Scanner, data: seq<byte>, b: byte, interpret: Interpretation)
    ensures Marks(s, data + [b], interpret)
         == Marks(s, data, interpret) + Found(Feed(Advance(s, data, interpret), b, interpret).1, |data| + 1)
  {
    assert (data + [b])[..|data|] == data;
  }

  lemma {:induction false} AdvanceConcat(s: Scanner, a: seq<byte>, b: seq<byte>, interpret: Interpretation)
    ensures Advance(s, a + b, interpret) == Advance(Advance(s, a, interpret), b, interpret)
  {
    if b == [] {
      assert a + b == a;
    } else {
      var n := |b| - 1;
      assert a + b == (a + b[..n]) + [b[n]];
      AdvanceConcat(s, a, b[..n], interpret);
      AdvanceSnoc(s, a + b[..n], b[n], interpret);
    }
  }

  lemma MarksConcatLast(s: Scanner, a: seq<byte>, b: seq<byte>, interpret: Interpretation)
    requires b != []
    ensures Marks(s, a + b, interpret)
         == Marks(s, a + b[..|b| - 1], interpret)
            + Found(Feed(Advance(Advance(s, a, interpret), b[..|b| - 1], interpret), b[|b| - 1], interpret).1,
                    |b| + |a|)
  {
    hide Marks, Advance, Feed;
    var n := |b| - 1;
    assert a + b == (a + b[..n]) + [b[n]];
    MarksSnoc(s, a + b[..n], b[n], interpret);
    AdvanceConcat(s, a, b[..n], interpret);
  }

  lemma MarksLast(s: Scanner, data: seq<byte>, interpret: Interpretation)
    requires data != []
    ensures Marks(s, data, interpret)
         == Marks(s, data[..|data| - 1], interpret)
            + Found(Feed(Advance(s, data[..|data| - 1], interpret), data[|data| - 1], interpret).1, |data|)
  {}

  /** Cutting the stream anywhere changes no mark: only the offsets are rebased. */
  lemma {:induction false} MarksConcat(s: Scanner, a: seq<byte>, b: seq<byte>, interpret: Interpretation)
    ensures Marks(s, a + b, interpret)
         == Marks(s, a, interpret) + Shift(Marks(Advance(s, a, interpret), b, interpret), |a|)
  {
    hide Marks, Advance, Feed;
    var mid := Advance(s, a, interpret);
    if b == [] {
      assert a + b == a;
      Nothing(mid, interpret);
      assert Marks(s, a, interpret) + Shift([], |a|) == Marks(s, a, interpret);
    } else {
      hide Shift;
      var n := |b| - 1;
      MarksConcat(s, a, b[..n], interpret);
      MarksConcatLast(s, a, b, interpret);
      MarksLast(mid, b, interpret);
      ShiftFound(Marks(s, a, interpret), Marks(mid, b[..n], interpret),
        Feed(Advance(mid, b[..n], interpret), b[n], interpret).1, n + 1, |a|);
    }
  }

  lemma ShiftFound(head: seq<Mark>, early: seq<Mark>, event: Option<Block>, end: nat, offset: nat)
    ensures head + Shift(early, offset) + Found(event, end + offset) == head + Shift(early + Found(event, end), offset)
  {}

  // ---------- what the byte machine recognises ----------

  ghost predicate Plain(text: seq<byte>) {
    ESC !in text && BEL !in text
  }

  lemma {:induction false} TextStaysGround(s: Scanner, text: seq<byte>, interpret: Interpretation)
    requires s.mode == Ground && ESC !in text
    ensures Advance(s, text, interpret) == s
    ensures Marks(s, text, interpret) == []
  {
    if text != [] {
      TextStaysGround(s, text[..|text| - 1], interpret);
    }
  }

  lemma FeedBody(body: seq<byte>, b: byte, interpret: Interpretation)
    requires Plain(body) && b != ESC && b != BEL
    ensures Feed(Scanner(Osc, body), b, interpret)
         == (if |body| < MAX_BODY then Scanner(Osc, body + [b]) else Fresh, None)
  {
    assert body != [] ==> body[|body| - 1] in body;
  }

  lemma {:induction false} BodyAccumulates(body: seq<byte>, interpret: Interpretation)
    requires Plain(body)
    ensures Advance(Scanner(Osc, []), body, interpret)
         == if |body| <= MAX_BODY then Scanner(Osc, body) else Fresh
    ensures Marks(Scanner(Osc, []), body, interpret) == []
  {
    var s := Scanner(Osc, []);
    if body == [] {
      Nothing(s, interpret);
    } else {
      var n := |body| - 1;
      var early, b := body[..n], body[n];
      assert b in body && early + [b] == body;
      BodyAccumulates(early, interpret);
      if n <= MAX_BODY { FeedBody(early, b, interpret); }
      AdvanceSnoc(s, early, b, interpret);
      MarksSnoc(s, early, b, interpret);
    }
  }

  datatype Ending = Bell | StringTerminator | Cancel(b: byte) | Overflow(b: byte)

  /**
   The pieces every stream falls into: a single byte, a two-byte escape, or an
   OSC sequence with `escs` ESC bytes between its body and the byte that ends it.
   */
  datatype Token = Text(b: byte) | Escape(b: byte) | Sequence(body: seq<byte>, escs: nat, close: Ending)

  function Escs(count: nat): seq<byte> {
    if count == 0 then [] else Escs(count - 1) + [ESC]
  }

  function Closing(close: Ending): byte {
    match close
    case Bell => BEL
    case StringTerminator => BACKSLASH
    case Cancel(b) => b
    case Overflow(b) => b
  }

  function Encode(t: Token): seq<byte> {
    match t
    case Text(b) => [b]
    case Escape(b) => [ESC, b]
    case Sequence(body, escs, close) => [ESC, RIGHT_BRACKET] + body + Escs(escs) + [Closing(close)]
  }

  /**
   A sequence ends with BEL, with ST, with any other byte behind an ESC, or
   with the byte that would make its body longer than 256.
   */
  ghost predicate Valid(t: Token) {
    match t
    case Text(b) => b != ESC
    case Escape(b) => b != RIGHT_BRACKET
    case Sequence(body, escs, close) =>
      Plain(body) && |body| <= MAX_BODY &&
      match close
      case Bell => true
      case StringTerminator => escs > 0
      case Cancel(b) => escs > 0 && b != ESC && b != BEL && b != BACKSLASH
      case Overflow(b) => escs == 0 && |body| == MAX_BODY && b != ESC && b != BEL
  }

  /** What a token announces: only BEL and ST complete a mark. */
  function EventOf(t: Token, interpret: Interpretation): Option<Block> {
    if !t.Sequence? then None
    else if t.close.Bell? then interpret(t.body + Escs(t.escs))
    else if t.close.StringTerminator? && t.escs > 0 then interpret(t.body + Escs(t.escs - 1))
    else None
  }

  function EncodeAll(tokens: seq<Token>): seq<byte> {
    if tokens == [] then [] else EncodeAll(tokens[..|tokens| - 1]) + Encode(tokens[|tokens| - 1])
  }

  /** The marks a reader of the grammar expects, without any byte machine. */
  function Expected(tokens: seq<Token>, interpret: Interpretation): seq<Mark> {
    if tokens == [] then []
    else
      var n := |tokens| - 1;
      Expected(tokens[..n], interpret) + Found(EventOf(tokens[n], interpret), |EncodeAll(tokens)|)
  }

  ghost predicate AllValid(tokens: seq<Token>) {
    forall i :: 0 <= i < |tokens| ==> Valid(tokens[i])
  }

  lemma Single(s: Scanner, b: byte, interpret: Interpretation)
    ensures Advance(s, [b], interpret) == Feed(s, b, interpret).0
    ensures Marks(s, [b], interpret) == Found(Feed(s, b, interpret).1, 1)
  {
    assert [] + [b] == [b];
    AdvanceSnoc(s, [], b, interpret);
    MarksSnoc(s, [], b, interpret);
  }

  /** After a silent prefix only the offsets of the continuation's marks change. */
  lemma SilentThen(s: Scanner, a: seq<byte>, mid: Scanner, b: seq<byte>, interpret: Interpretation)
    requires Marks(s, a, interpret) == [] && Advance(s, a, interpret) == mid
    ensures Advance(s, a + b, interpret) == Advance(mid, b, interpret)
    ensures Marks(s, a + b, interpret) == Shift(Marks(mid, b, interpret), |a|)
  {
    AdvanceConcat(s, a, b, interpret);
    MarksConcat(s, a, b, interpret);
  }

  lemma {:induction false} EscsAccumulate(body: seq<byte>, count: nat, interpret: Interpretation)
    ensures Advance(Scanner(Osc, body), Escs(count), interpret) == Scanner(Osc, body + Escs(count))
    ensures Marks(Scanner(Osc, body), Escs(count), interpret) == []
  {
    var s := Scanner(Osc, body);
    if count == 0 {
      Nothing(s, interpret);
      assert body + [] == body;
    } else {
      var early := Escs(count - 1);
      assert Escs(count) == early + [ESC];
      EscsAccumulate(body, count - 1, interpret);
      hide Marks, Advance, Feed, Escs;
      FeedEsc(body + early, interpret);
      AdvanceSnoc(s, early, ESC, interpret);
      MarksSnoc(s, early, ESC, interpret);
      Associate(body, early, [ESC]);
    }
  }

  lemma FeedEsc(body: seq<byte>, interpret: Interpretation)
    ensures Feed(Scanner(Osc, body), ESC, interpret) == (Scanner(Osc, body + [ESC]), None)
  {}

  lemma OpenOsc(s: Scanner, interpret: Interpretation)
    requires s.mode == Ground
    ensures Advance(s, [ESC, RIGHT_BRACKET], interpret) == Scanner(Osc, [])
    ensures Marks(s, [ESC, RIGHT_BRACKET], interpret) == []
  {
    assert [ESC] + [RIGHT_BRACKET] == [ESC, RIGHT_BRACKET];
    Single(s, ESC, interpret);
    AdvanceSnoc(s, [ESC], RIGHT_BRACKET, interpret);
    MarksSnoc(s, [ESC], RIGHT_BRACKET, interpret);
  }

  function Opened(body: seq<byte>, escs: nat): seq<byte> {
    [ESC, RIGHT_BRACKET] + body + Escs(escs)
  }

  lemma BodyRead(s: Scanner, body: seq<byte>, escs: nat, interpret: Interpretation)
    requires s.mode == Ground && Plain(body) && |body| <= MAX_BODY
    ensures Advance(s, Opened(body, escs), interpret) == Scanner(Osc, body + Escs(escs))
    ensures Marks(s, Opened(body, escs), interpret) == []
  {
    hide Marks, Advance, Escs;
    OpenOsc(s, interpret);
    BodyAccumulates(body, interpret);
    SilentThen(s, [ESC, RIGHT_BRACKET], Scanner(Osc, []), body, interpret);
    EscsAccumulate(body, escs, interpret);
    SilentThen(s, [ESC, RIGHT_BRACKET] + body, Scanner(Osc, body), Escs(escs), interpret);
  }

  lemma CloseFeeds(t: Token, interpret: Interpretation)
    requires t.Sequence? && Valid(t)
    ensures Feed(Scanner(Osc, t.body + Escs(t.escs)), Closing(t.close), interpret) == (Fresh, EventOf(t, interpret))
  {
    if t.escs > 0 {
      FeedAfterEsc(t.body + Escs(t.escs - 1), Closing(t.close), interpret);
      Associate(t.body, Escs(t.escs - 1), [ESC]);
    } else {
      assert t.body + [] == t.body;
      if !t.close.Bell? { FeedBody(t.body, Closing(t.close), interpret); }
    }
  }

  lemma FeedAfterEsc(body: seq<byte>, b: byte, interpret: Interpretation)
    requires b != ESC
    ensures Feed(Scanner(Osc, body + [ESC]), b, interpret)
         == (Fresh, if b == BEL then interpret(body + [ESC]) else if b == BACKSLASH then interpret(body) else None)
  {
    var all := body + [ESC];
    assert all[|all| - 1] == ESC && all[..|all| - 1] == body;
  }

  lemma EscapeScanned(s: Scanner, b: byte, interpret: Interpretation)
    requires s.mode == Ground && b != RIGHT_BRACKET
    ensures Advance(s, [ESC, b], interpret) == s && Marks(s, [ESC, b], interpret) == []
  {
    assert [ESC] + [b] == [ESC, b];
    Single(s, ESC, interpret);
    AdvanceSnoc(s, [ESC], b, interpret);
    MarksSnoc(s, [ESC], b, interpret);
  }

  lemma TokenScanned(t: Token, interpret: Interpretation)
    requires Valid(t)
    ensures Advance(Fresh, Encode(t), interpret) == Fresh
    ensures Marks(Fresh, Encode(t), interpret) == Found(EventOf(t, interpret), |Encode(t)|)
  {
    match t
    case Text(b) => Single(Fresh, b, interpret);
    case Escape(b) => EscapeScanned(Fresh, b, interpret);
    case Sequence(body, escs, close) =>
      hide Marks, Advance, Feed, Escs;
      BodyRead(Fresh, body, escs, interpret);
      AdvanceSnoc(Fresh, Opened(body, escs), Closing(close), interpret);
      MarksSnoc(Fresh, Opened(body, escs), Closing(close), interpret);
      CloseFeeds(t, interpret);
  }

  lemma ScannedAfter(before: seq<byte>, t: Token, interpret: Interpretation)
    requires Valid(t) && Advance(Fresh, before, interpret) == Fresh
    ensures Advance(Fresh, before + Encode(t), interpret) == Fresh
    ensures Marks(Fresh, before + Encode(t), interpret)
         == Marks(Fresh, before, interpret) + Found(EventOf(t, interpret), |before + Encode(t)|)
  {
    hide Marks, Advance, Encode, EventOf, Valid;
    TokenScanned(t, interpret);
    AdvanceConcat(Fresh, before, Encode(t), interpret);
    MarksConcat(Fresh, before, Encode(t), interpret);
    assert Shift(Found(EventOf(t, interpret), |Encode(t)|), |before|)
        == Found(EventOf(t, interpret), |before + Encode(t)|);
  }

  /**
   The byte machine reads back exactly the marks that were written: one per
   sequence that BEL or ST ends, at the offset of its last byte, and nothing
   from text, escapes, cancelled or overlong sequences.
   */
  lemma {:induction false} ScanInvertsEncode(tokens: seq<Token>, interpret: Interpretation)
    requires AllValid(tokens)
    ensures Advance(Fresh, EncodeAll(tokens), interpret) == Fresh
    ensures Marks(Fresh, EncodeAll(tokens), interpret) == Expected(tokens, interpret)
  {
    hide Marks, Advance, Encode, EventOf, Valid;
    if tokens == [] {
      Nothing(Fresh, interpret);
    } else {
      var n := |tokens| - 1;
      ScanInvertsEncode(tokens[..n], interpret);
      ScannedAfter(EncodeAll(tokens[..n]), tokens[n], interpret);
    }
  }

  // ---------- every stream is made of tokens ----------

  /** A token cut short by the end of the data. */
  datatype Tail = NoTail | EscTail | OpenTail(body: seq<byte>, escs: nat)

  function TailBytes(t: Tail): seq<byte> {
    match t
    case NoTail => []
    case EscTail => [ESC]
    case OpenTail(body, escs) => Opened(body, escs)
  }

  ghost predicate ValidTail(t: Tail) {
    t.OpenTail? ==> Plain(t.body) && |t.body| <= MAX_BODY
  }

  function TailScanner(t: Tail): Scanner {
    match t
    case NoTail => Fresh
    case EscTail => Scanner(Esc, [])
    case OpenTail(body, escs) => Scanner(Osc, body + Escs(escs))
  }

  /** One more byte either lengthens the tail or completes it to a token. */
  lemma NextByte(tail: Tail, b: byte) returns (done: seq<Token>, tail': Tail)
    requires ValidTail(tail)
    ensures AllValid(done) && ValidTail(tail') && |done| <= 1
    ensures TailBytes(tail) + [b] == (if done == [] then [] else Encode(done[0])) + TailBytes(tail')
  {
    done, tail' := [], NoTail;
    match tail
    case NoTail =>
      if b == ESC { tail' := EscTail; } else { done := [Text(b)]; }
    case EscTail =>
      if b == RIGHT_BRACKET { tail' := OpenTail([], 0); } else { done := [Escape(b)]; }
    case OpenTail(body, escs) =>
      if b == BEL {
        done := [Sequence(body, escs, Bell)];
      } else if b == ESC {
        tail' := OpenTail(body, escs + 1);
      } else if escs > 0 {
        done := [Sequence(body, escs, if b == BACKSLASH then StringTerminator else Cancel(b))];
      } else if |body| < MAX_BODY {
        tail' := OpenTail(body + [b], 0);
      } else {
        done := [Sequence(body, escs, Overflow(b))];
      }
  }

  /** Every byte stream is a sequence of tokens and at most one unfinished one. */
  lemma {:induction false} Tokenize(data: seq<byte>) returns (tokens: seq<Token>, tail: Tail)
    ensures AllValid(tokens) && ValidTail(tail) && data == EncodeAll(tokens) + TailBytes(tail)
  {
    if data == [] {
      tokens, tail := [], NoTail;
    } else {
      var n := |data| - 1;
      var early, cut := Tokenize(data[..n]);
      var done, rest := NextByte(cut, data[n]);
      tokens, tail := early + done, rest;
      hide Encode, TailBytes, Valid, ValidTail;
      JoinToken(data, early, cut, done, rest);
    }
  }

  lemma JoinToken(data: seq<byte>, early: seq<Token>, cut: Tail, done: seq<Token>, rest: Tail)
    requires data != [] && data[..|data| - 1] == EncodeAll(early) + TailBytes(cut) && |done| <= 1
    requires TailBytes(cut) + [data[|data| - 1]] == (if done == [] then [] else Encode(done[0])) + TailBytes(rest)
    ensures data == EncodeAll(early + done) + TailBytes(rest)
  {
    hide Encode, TailBytes;
    var b := data[|data| - 1];
    assert data == data[..|data| - 1] + [b];
    Associate(EncodeAll(early), TailBytes(cut), [b]);
    if done == [] {
      assert early + done == early && [] + TailBytes(rest) == TailBytes(rest);
    } else {
      assert (early + done)[..|early|] == early;
      Associate(EncodeAll(early), Encode(done[0]), TailBytes(rest));
    }
  }

  lemma TailIsSilent(tail: Tail, interpret: Interpretation)
    requires ValidTail(tail)
    ensures Advance(Fresh, TailBytes(tail), interpret) == TailScanner(tail)
    ensures Marks(Fresh, TailBytes(tail), interpret) == []
  {
    match tail
    case NoTail =>
    case EscTail => Single(Fresh, ESC, interpret);
    case OpenTail(body, escs) => BodyRead(Fresh, body, escs, interpret);
  }

  lemma ReadTokens(tokens: seq<Token>, tail: Tail, interpret: Interpretation)
    requires AllValid(tokens) && ValidTail(tail)
    ensures var data := EncodeAll(tokens) + TailBytes(tail);
            Marks(Fresh, data, interpret) == Expected(tokens, interpret) && Advance(Fresh, data, interpret) == TailScanner(tail)
  {
    hide Marks, Advance, Valid, ValidTail, TailBytes, TailScanner;
    ScanInvertsEncode(tokens, interpret);
    TailIsSilent(tail, interpret);
    AdvanceConcat(Fresh, EncodeAll(tokens), TailBytes(tail), interpret);
    MarksConcat(Fresh, EncodeAll(tokens), TailBytes(tail), interpret);
    var found := Expected(tokens, interpret);
    assert found + Shift([], |EncodeAll(tokens)|) == found;
  }

  /**
   So the scanner is a reader of this grammar on every stream: whatever bytes
   arrive, the marks found are those of the tokens the stream is made of.
   */
  lemma ScanReadsEveryStream(data: seq<byte>, interpret: Interpretation) returns (tokens: seq<Token>, tail: Tail)
    ensures AllValid(tokens) && ValidTail(tail) && data == EncodeAll(tokens) + TailBytes(tail)
    ensures Marks(Fresh, data, interpret) == Expected(tokens, interpret)
    ensures Advance(Fresh, data, interpret) == TailScanner(tail)
  {
    hide Marks, Advance, Valid, ValidTail, TailBytes, TailScanner;
    tokens, tail := Tokenize(data);
    ReadTokens(tokens, tail, interpret);
  }

  // ---------- when a mark behind text is seen ----------

  function TrailingEscs(text: seq<byte>): nat {
    if text == [] || text[|text| - 1] != ESC then 0 else 1 + TrailingEscs(text[..|text| - 1])
  }

  /** The last ESC of the text has no partner. */
  predicate Dangling(text: seq<byte>) {
    TrailingEscs(text) % 2 == 1
  }

  /** No bracket of the text opens an OSC sequence: colours, cursor moves and any other escapes are fine. */
  ghost predicate Quiet(text: seq<byte>) {
    forall i :: 0 <= i < |text| && text[i] == RIGHT_BRACKET ==> !Dangling(text[..i])
  }

  lemma DanglingSnoc(text: seq<byte>, b: byte)
    ensures Dangling(text + [b]) <==> b == ESC && !Dangling(text)
  {
    assert (text + [b])[..|text|] == text;
  }

  lemma QuietSnoc(text: seq<byte>)
    requires text != [] && Quiet(text)
    ensures var n := |text| - 1; Quiet(text[..n]) && (text[n] == RIGHT_BRACKET ==> !Dangling(text[..n]))
  {
    hide Dangling;
    assert forall i :: 0 <= i < |text| - 1 ==> text[..|text| - 1][..i] == text[..i];
  }

  lemma FeedOutside(s: Scanner, b: byte, interpret: Interpretation)
    requires s.mode == Ground
    ensures Feed(s, b, interpret) == (if b == ESC then s.(mode := Esc) else s, None)
    ensures b != RIGHT_BRACKET ==> Feed(s.(mode := Esc), b, interpret) == (s, None)
  {}

  lemma {:induction false} TextStaysOutside(s: Scanner, text: seq<byte>, interpret: Interpretation)
    requires s.mode == Ground && Quiet(text)
    ensures Advance(s, text, interpret) == if Dangling(text) then s.(mode := Esc) else s
    ensures Marks(s, text, interpret) == []
  {
    if text == [] {
      Nothing(s, interpret);
    } else {
      hide Marks, Advance, Feed, Dangling, Quiet;
      var n := |text| - 1;
      var early, b := text[..n], text[n];
      assert text == early + [b];
      QuietSnoc(text);
      TextStaysOutside(s, early, interpret);
      DanglingSnoc(early, b);
      FeedOutside(s, b, interpret);
      AdvanceSnoc(s, early, b, interpret);
      MarksSnoc(s, early, b, interpret);
    }
  }

  /** The bytes of a mark with this body. */
  function MarkBytes(body: seq<byte>): seq<byte> {
    Encode(Sequence(body, 0, Bell))
  }

  /** What a mark announces when its introducer is seen: an overlong body gives nothing. */
  function MarkEvent(body: seq<byte>, interpret: Interpretation): Option<Block> {
    if |body| <= MAX_BODY then interpret(body) else None
  }

  lemma OverlongRead(s: Scanner, body: seq<byte>, interpret: Interpretation)
    requires s.mode == Ground && Plain(body) && |body| > MAX_BODY
    ensures Marks(s, MarkBytes(body), interpret) == []
  {
    hide Marks, Advance;
    OpenOsc(s, interpret);
    BodyAccumulates(body, interpret);
    SilentThen(s, [ESC, RIGHT_BRACKET], Scanner(Osc, []), body, interpret);
    Single(Fresh, BEL, interpret);
    SilentThen(s, [ESC, RIGHT_BRACKET] + body, Fresh, [BEL], interpret);
    assert MarkBytes(body) == [ESC, RIGHT_BRACKET] + body + [BEL];
  }

  lemma MarkRead(s: Scanner, body: seq<byte>, interpret: Interpretation)
    requires s.mode == Ground && Plain(body)
    ensures Marks(s, MarkBytes(body), interpret) == Found(MarkEvent(body, interpret), |MarkBytes(body)|)
  {
    hide Marks, Advance;
    if |body| > MAX_BODY {
      OverlongRead(s, body, interpret);
    } else {
      BodyRead(s, body, 0, interpret);
      assert body + Escs(0) == body;
      MarksSnoc(s, Opened(body, 0), BEL, interpret);
    }
  }

  /** Outside ground the introducer is lost: its ESC is taken as a partner or cancels the open sequence. */
  lemma IntroducerLost(s: Scanner, interpret: Interpretation)
    requires s.mode != Ground
    ensures Advance(s, [ESC, RIGHT_BRACKET], interpret).mode == Ground
    ensures Marks(s, [ESC, RIGHT_BRACKET], interpret) == []
  {
    hide Marks, Advance;
    Single(s, ESC, interpret);
    var s1 := Feed(s, ESC, interpret).0;
    if s.mode == Osc { FeedAfterEsc(s.body, RIGHT_BRACKET, interpret); }
    assert [ESC] + [RIGHT_BRACKET] == [ESC, RIGHT_BRACKET];
    AdvanceSnoc(s, [ESC], RIGHT_BRACKET, interpret);
    MarksSnoc(s, [ESC], RIGHT_BRACKET, interpret);
  }

  lemma MarkMissed(s: Scanner, body: seq<byte>, interpret: Interpretation)
    requires s.mode != Ground && Plain(body)
    ensures Marks(s, MarkBytes(body), interpret) == []
  {
    hide Marks, Advance;
    IntroducerLost(s, interpret);
    var mid := Advance(s, [ESC, RIGHT_BRACKET], interpret);
    var rest := body + [BEL];
    assert ESC !in rest;
    TextStaysGround(mid, rest, interpret);
    SilentThen(s, [ESC, RIGHT_BRACKET], mid, rest, interpret);
    assert MarkBytes(body) == [ESC, RIGHT_BRACKET] + rest;
  }

  /**
   For every scanner and every text in front of it, a mark is announced if and
   only if the text leaves the scanner outside escapes and sequences.
   */
  lemma MarkSeenIffGround(s: Scanner, text: seq<byte>, body: seq<byte>, interpret: Interpretation)
    requires Plain(body)
    ensures Marks(s, text + MarkBytes(body), interpret)
         == Marks(s, text, interpret)
            + (if Advance(s, text, interpret).mode == Ground then Found(MarkEvent(body, interpret), |text + MarkBytes(body)|) else [])
  {
    hide Marks, Advance, MarkBytes;
    var mid := Advance(s, text, interpret);
    MarksConcat(s, text, MarkBytes(body), interpret);
    if mid.mode == Ground { MarkRead(mid, body, interpret); } else { MarkMissed(mid, body, interpret); }
    assert Shift(Marks(mid, MarkBytes(body), interpret), |text|)
        == if mid.mode == Ground then Found(MarkEvent(body, interpret), |text + MarkBytes(body)|) else [];
  }

  /**
   The same on bytes, for every stream: a mark behind complete tokens and a
   tail is announced if and only if there is no tail, that is, neither an ESC
   without partner nor an open OSC sequence.
   */
  lemma MarkSeenIff(tokens: seq<Token>, tail: Tail, body: seq<byte>, interpret: Interpretation)
    requires AllValid(tokens) && ValidTail(tail) && Plain(body)
    ensures var text := EncodeAll(tokens) + TailBytes(tail);
            Marks(Fresh, text + MarkBytes(body), interpret)
            == Expected(tokens, interpret)
               + (if tail.NoTail? then Found(MarkEvent(body, interpret), |text + MarkBytes(body)|) else [])
  {
    hide Marks, Advance, MarkBytes, AllValid, ValidTail, TailBytes;
    ReadTokens(tokens, tail, interpret);
    MarkSeenIffGround(Fresh, EncodeAll(tokens) + TailBytes(tail), body, interpret);
  }

  /**
   For text without any OSC sequence: a mark behind it is announced if and only
   if the text does not end in an odd number of ESC bytes.
   */
  lemma MarkSeenAfterTextIff(s: Scanner, text: seq<byte>, body: seq<byte>, interpret: Interpretation)
    requires s.mode == Ground && Quiet(text) && Plain(body)
    ensures Marks(s, text + MarkBytes(body), interpret)
         == if Dangling(text) then [] else Found(MarkEvent(body, interpret), |text + MarkBytes(body)|)
  {
    hide Marks, Advance, Dangling, MarkBytes, Quiet;
    TextStaysOutside(s, text, interpret);
    MarkSeenIffGround(s, text, body, interpret);
  }

  /** A doubled ESC hides the mark behind it. */
  lemma DoubledEscHidesMark(body: seq<byte>, interpret: Interpretation)
    requires Plain(body)
    ensures Marks(Fresh, [ESC] + MarkBytes(body), interpret) == []
  {
    hide Marks, MarkBytes;
    assert EncodeAll([]) + TailBytes(EscTail) == [ESC];
    MarkSeenIff([], EscTail, body, interpret);
  }

  /** So does an OSC sequence that was left open right before it: the introducer only cancels that one. */
  lemma OpenOscHidesMark(left: seq<byte>, body: seq<byte>, interpret: Interpretation)
    requires Plain(left) && |left| <= MAX_BODY && Plain(body)
    ensures Marks(Fresh, Opened(left, 0) + MarkBytes(body), interpret) == []
  {
    hide Marks, MarkBytes, Opened;
    assert EncodeAll([]) + TailBytes(OpenTail(left, 0)) == Opened(left, 0);
    MarkSeenIff([], OpenTail(left, 0), body, interpret);
  }

  // ---------- the scanner object ----------

  class Osc133Parser {
    const interpret: Interpretation
    var mode: Mode
    var body: seq<byte>

    ghost function View(): Scanner
      reads this
    {
      Scanner(mode, body)
    }

    constructor (interpret: Interpretation)
      ensures this.interpret == interpret && View() == Fresh
    {
      this.interpret := interpret;
      mode := Ground;
      body := [];
    }

    method FeedByte(b: byte) returns (event: Option<Block>)
      modifies this
      ensures (View(), event) == Feed(old(View()), b, interpret)
      decreases mode.Osc?
    {
      event := None;
      match mode {
        case Ground =>
          if b == ESC { mode := Esc; }
        case Esc =>
          if b == RIGHT_BRACKET {
            mode := Osc;
            body := [];
          } else {
            mode := Ground;
          }
        case Osc =>
          if b == BEL {
            event := interpret(body);
            body := [];
            mode := Ground;
            return;
          }
          if b == ESC {
            body := body + [b];
            return;
          }
          if body != [] && body[|body| - 1] == ESC {
            body := body[..|body| - 1];
            if b == BACKSLASH {
              event := interpret(body);
              body := [];
              mode := Ground;
              return;
            }
            body := [];
            mode := Ground;
            event := FeedByte(b);
            return;
          }
          if |body| < MAX_BODY {
            body := body + [b];
          } else {
            body := [];
            mode := Ground;
          }
      }
    }

    method PushIndexed(data: seq<byte>) returns (events: seq<Mark>)
      modifies this
      ensures events == Marks(old(View()), data, interpret)
      ensures View() == Advance(old(View()), data, interpret)
    {
      events := [];
      for i := 0 to |data|
        invariant events == Marks(old(View()), data[..i], interpret)
        invariant View() == Advance(old(View()), data[..i], interpret)
      {
        assert data[..i + 1][..i] == data[..i];
        var event := FeedByte(data[i]);
        if event.Some? {
          events := events + [Mark(i + 1, event.value)];
        }
      }
      assert data[..|data|] == data;
    }
  }
}
