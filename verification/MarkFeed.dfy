/**
 The replay splitter of the browser harness: it searches each chunk, together
 with a short carried-over tail, for OSC 133 marks with a regular expression.
 */
module MarkFeed {
  import opened Common

  const SEMICOLON: byte := 0x3b

  /** ESC ] 1 3 3 ; */
  const INTRO: seq<byte> := [ESC, RIGHT_BRACKET, 0x31, 0x33, 0x33, SEMICOLON]

  const MAX_HELD := 24

  // ---------- the regular expression ----------

  predicate Letter(b: byte) {
    0x41 <= b <= 0x5a || 0x61 <= b <= 0x7a
  }

  predicate Ends(b: byte) {
    b == BEL || b == ESC
  }

  /** The length of the terminator of a mark. */
  function Closing(w: seq<byte>): nat {
    if w != [] && w[|w| - 1] == BEL then 1 else 2
  }

  function Params(w: seq<byte>): seq<byte>
    requires 7 + Closing(w) <= |w|
  {
    w[7..|w| - Closing(w)]
  }

  /** `w` as a whole matches the mark expression. */
  predicate IsMark(w: seq<byte>) {
    && 7 + Closing(w) <= |w| && w[..6] == INTRO && Letter(w[6])
    && (Params(w) != [] ==> Params(w)[0] == SEMICOLON)
    && (forall i :: 0 <= i < |Params(w)| ==> !Ends(Params(w)[i]))
    && (Closing(w) == 2 ==> w[|w| - 2] == ESC && w[|w| - 1] == BACKSLASH)
  }

  function BodyEnd(s: seq<byte>, k: nat): (r: nat)
    requires k <= |s|
    ensures k <= r <= |s|
    ensures forall i :: k <= i < r ==> !Ends(s[i])
    ensures r < |s| ==> Ends(s[r])
    decreases |s| - k
  {
    if k < |s| && !Ends(s[k]) then BodyEnd(s, k + 1) else k
  }

  /** Where a match starting at `a` ends, as the expression engine finds it. */
  function MatchEnd(s: seq<byte>, a: nat): Option<nat> {
    if a + 7 <= |s| && s[a..a + 6] == INTRO && Letter(s[a + 6]) then
      var k := if a + 7 < |s| && s[a + 7] == SEMICOLON then BodyEnd(s, a + 7) else a + 7;
      if k < |s| && s[k] == BEL then Some(k + 1)
      else if k + 1 < |s| && s[k] == ESC && s[k + 1] == BACKSLASH then Some(k + 2)
      else None
    else None
  }

  lemma MatchIsMark(s: seq<byte>, a: nat)
    ensures var e := MatchEnd(s, a);
            e.Some? ==> a + 8 <= e.value <= |s| && IsMark(s[a..e.value])
  {
    var e := MatchEnd(s, a);
    if e.Some? {
      var w := s[a..e.value];
      assert w[..6] == s[a..a + 6];
      assert forall i :: 0 <= i < |w| ==> w[i] == s[a + i];
      assert forall i :: 0 <= i < |Params(w)| ==> Params(w)[i] == s[a + 7 + i];
    }
  }

  lemma MarkIsMatch(s: seq<byte>, a: nat, e: nat)
    requires a <= e <= |s| && IsMark(s[a..e])
    ensures MatchEnd(s, a) == Some(e)
  {
    var w := s[a..e];
    assert w[..6] == s[a..a + 6];
    assert forall i :: 0 <= i < |w| ==> w[i] == s[a + i];
    var close := e - Closing(w);
    assert forall i :: a + 7 <= i < close ==> s[i] == Params(w)[i - a - 7];
    assert s[a + 7] == SEMICOLON ==> a + 7 < close;
    var k := if s[a + 7] == SEMICOLON then BodyEnd(s, a + 7) else a + 7;
    assert Ends(s[close]);
    assert k == close;
  }

  /** Inside a mark ESC occurs only in a two-byte terminator. */
  lemma EscInMark(w: seq<byte>, i: nat)
    requires IsMark(w) && 0 < i < |w| && w[i] == ESC
    ensures i == |w| - 2 && Closing(w) == 2 && w[i + 1] == BACKSLASH
  {
    assert forall k :: 0 <= k < 6 ==> w[k] == w[..6][k] == INTRO[k];
    assert i >= 7;
    assert forall k :: 7 <= k < |w| - Closing(w) ==> w[k] == Params(w)[k - 7];
  }

  lemma MatchOpens(s: seq<byte>, b: nat)
    requires MatchEnd(s, b).Some?
    ensures b + 7 <= |s| && s[b] == ESC && s[b + 1] == RIGHT_BRACKET
  {
    assert s[b..b + 6][0] == s[b] && s[b..b + 6][1] == s[b + 1];
  }

  /** Nothing inside a mark can start another one. */
  lemma NoNestedStart(s: seq<byte>, a: nat, e: nat, b: nat)
    requires a < b < e <= |s| && IsMark(s[a..e])
    ensures MatchEnd(s, b) == None
    ensures s[b] == ESC ==> b == e - 2 && Closing(s[a..e]) == 2 && s[b + 1] == BACKSLASH
  {
    hide IsMark, MatchEnd;
    var w := s[a..e];
    assert w[b - a] == s[b];
    if s[b] == ESC {
      EscInMark(w, b - a);
      assert w[b - a + 1] == s[b + 1];
    }
    if MatchEnd(s, b).Some? {
      MatchOpens(s, b);
    }
  }

  // ---------- marks of a whole stream ----------

  datatype Block = Block(phase: char, params: seq<byte>)

  datatype Placement = Placement(offset: nat, block: Block)

  /** The phase table: A to D in either case, anything else is not announced. */
  function Phase(letter: byte): Option<char> {
    if letter == 0x41 || letter == 0x61 then Some('A')
    else if letter == 0x42 || letter == 0x62 then Some('B')
    else if letter == 0x43 || letter == 0x63 then Some('C')
    else if letter == 0x44 || letter == 0x64 then Some('D')
    else None
  }

  predicate Recognised(w: seq<byte>) {
    IsMark(w) && Phase(w[6]).Some?
  }

  function BlockOf(w: seq<byte>): Block
    requires Recognised(w)
  {
    Block(Phase(w[6]).value, Params(w))
  }

  function At(s: seq<byte>, a: nat): seq<Placement> {
    MatchIsMark(s, a);
    var e := MatchEnd(s, a);
    if e.Some? && Recognised(s[a..e.value]) then [Placement(e.value, BlockOf(s[a..e.value]))] else []
  }

  /** The recognised marks starting in `lo..hi`, each with the offset where it ends. */
  function Between(s: seq<byte>, lo: nat, hi: nat): seq<Placement>
    requires lo <= hi
  {
    if lo == hi then [] else Between(s, lo, hi - 1) + At(s, hi - 1)
  }

  /** Scanning the whole stream at once. */
  function Marks(s: seq<byte>): seq<Placement> {
    Between(s, 0, |s|)
  }

  lemma {:induction false} BetweenSplit(s: seq<byte>, lo: nat, mid: nat, hi: nat)
    requires lo <= mid <= hi
    ensures Between(s, lo, hi) == Between(s, lo, mid) + Between(s, mid, hi)
  {
    if mid < hi {
      BetweenSplit(s, lo, mid, hi - 1);
    }
  }

  lemma {:induction false} NothingBetween(s: seq<byte>, lo: nat, hi: nat)
    requires lo <= hi && forall i :: lo <= i < hi ==> At(s, i) == []
    ensures Between(s, lo, hi) == []
  {
    if lo < hi {
      NothingBetween(s, lo, hi - 1);
    }
  }

  lemma {:induction false} BetweenAgrees(s: seq<byte>, t: seq<byte>, lo: nat, hi: nat)
    requires lo <= hi && forall i :: lo <= i < hi ==> At(s, i) == At(t, i)
    ensures Between(s, lo, hi) == Between(t, lo, hi)
  {
    if lo < hi {
      BetweenAgrees(s, t, lo, hi - 1);
    }
  }

  // ---------- one feed ----------

  datatype Event = Data(data: seq<byte>) | Announce(block: Block)

  datatype Feed = Feed(buf: seq<byte>, idx: nat, log: seq<Event>)

  const Start := Feed([], 0, [])

  /** The leftmost match starting at or after `from`. */
  function NextMatch(s: seq<byte>, from: nat): (r: Option<nat>)
    ensures r.Some? ==> from <= r.value < |s| && MatchEnd(s, r.value).Some?
    ensures forall i :: from <= i < (if r.Some? then r.value else |s|) ==> MatchEnd(s, i) == None
    decreases |s| - from
  {
    if from >= |s| then None
    else if MatchEnd(s, from).Some? then Some(from)
    else NextMatch(s, from + 1)
  }

  function Announced(w: seq<byte>): seq<Event> {
    if Recognised(w) then [Announce(BlockOf(w))] else []
  }

  function Scan(s: seq<byte>, cursor: nat): (seq<Event>, nat)
    requires cursor <= |s|
    decreases |s| - cursor
  {
    var a := NextMatch(s, cursor);
    if a.None? then ([], cursor)
    else
      MatchIsMark(s, a.value);
      var e := MatchEnd(s, a.value).value;
      var (rest, last) := Scan(s, e);
      ([Data(s[cursor..e])] + Announced(s[a.value..e]) + rest, last)
  }

  function LastEsc(s: seq<byte>): (r: Option<nat>)
    ensures r.Some? ==> r.value < |s| && s[r.value] == ESC
    ensures forall i :: (if r.Some? then r.value + 1 else 0) <= i < |s| ==> s[i] != ESC
  {
    if s == [] then None
    else if s[|s| - 1] == ESC then Some(|s| - 1)
    else LastEsc(s[..|s| - 1])
  }

  /** The expression for the beginning of a mark: a prefix of the introduction, or it and no line break. */
  predicate MayGrow(v: seq<byte>) {
    v != [] && (v <= INTRO || (INTRO <= v && forall i :: 6 <= i < |v| ==> v[i] != LF && v[i] != CR))
  }

  /** How much of the tail goes out now. */
  function HoldFrom(tail: seq<byte>): (r: nat)
    ensures r <= |tail| && |tail| - r <= MAX_HELD
  {
    var esc := LastEsc(tail);
    if esc.Some? && |tail| - esc.value <= MAX_HELD && MayGrow(tail[esc.value..]) then esc.value else |tail|
  }

  function Push(f: Feed, chunk: seq<byte>): Feed
    requires f.idx <= |f.buf|
  {
    var buf := f.buf + chunk;
    var pending := buf[f.idx..];
    var (events, cursor) := Scan(pending, 0);
    ScanEnds(pending, 0);
    var tail := pending[cursor..];
    var flushable := tail[..HoldFrom(tail)];
    Feed(buf, f.idx + cursor + |flushable|, f.log + events + (if flushable != [] then [Data(flushable)] else []))
  }

  lemma {:induction false} ScanEnds(s: seq<byte>, cursor: nat)
    requires cursor <= |s|
    ensures cursor <= Scan(s, cursor).1 <= |s|
    decreases |s| - cursor
  {
    var a := NextMatch(s, cursor);
    if a.Some? {
      MatchIsMark(s, a.value);
      ScanEnds(s, MatchEnd(s, a.value).value);
    }
  }

  function PushAll(chunks: seq<seq<byte>>): (f: Feed)
    ensures f.idx <= |f.buf|
  {
    if chunks == [] then Start
    else
      var f := PushAll(chunks[..|chunks| - 1]);
      ScanEnds((f.buf + chunks[|chunks| - 1])[f.idx..], 0);
      Push(f, chunks[|chunks| - 1])
  }

  // ---------- what the log means ----------

  function Bytes(log: seq<Event>): seq<byte> {
    if log == [] then []
    else
      var e := log[|log| - 1];
      Bytes(log[..|log| - 1]) + (if e.Data? then e.data else [])
  }

  /** Each announced block with the number of bytes emitted before it, counted from `base`. */
  function Placed(log: seq<Event>, base: nat): seq<Placement> {
    if log == [] then []
    else
      var n := |log| - 1;
      Placed(log[..n], base)
      + (if log[n].Announce? then [Placement(base + |Bytes(log[..n])|, log[n].block)] else [])
  }

  lemma {:induction false} BytesConcat(x: seq<Event>, y: seq<Event>)
    ensures Bytes(x + y) == Bytes(x) + Bytes(y)
  {
    if y == [] {
      assert x + y == x;
    } else {
      var n := |y| - 1;
      assert (x + y)[..|x| + n] == x + y[..n];
      BytesConcat(x, y[..n]);
      Associate(Bytes(x), Bytes(y[..n]), if y[n].Data? then y[n].data else []);
    }
  }

  lemma {:induction false} PlacedConcat(x: seq<Event>, y: seq<Event>, base: nat)
    ensures Placed(x + y, base) == Placed(x, base) + Placed(y, base + |Bytes(x)|)
  {
    if y == [] {
      assert x + y == x;
    } else {
      var n := |y| - 1;
      assert (x + y)[..|x| + n] == x + y[..n];
      PlacedConcat(x, y[..n], base);
      BytesConcat(x, y[..n]);
    }
  }

  // ---------- one scan finds exactly the marks ----------

  lemma SliceOfSlice(s: seq<byte>, k: nat, i: nat, e: nat)
    requires k <= |s| && i <= e <= |s| - k
    ensures s[k..][i..e] == s[k + i..k + e]
  {}

  /** Matching depends only on the text, not on where the slice begins. */
  lemma MatchInSlice(s: seq<byte>, k: nat, i: nat)
    requires k <= |s|
    ensures var e := MatchEnd(s[k..], i);
            MatchEnd(s, k + i) == if e.Some? then Some(k + e.value) else None
  {
    hide IsMark, MatchEnd;
    MatchIsMark(s[k..], i);
    MatchIsMark(s, k + i);
    if MatchEnd(s[k..], i).Some? {
      var e := MatchEnd(s[k..], i).value;
      SliceOfSlice(s, k, i, e);
      MarkIsMatch(s, k + i, k + e);
    } else if MatchEnd(s, k + i).Some? {
      var e := MatchEnd(s, k + i).value;
      SliceOfSlice(s, k, i, e - k);
      MarkIsMatch(s[k..], i, e - k);
    }
  }

  /** Matching a prefix of the stream finds the marks that fit in it. */
  lemma MatchInPrefix(s: seq<byte>, n: nat, a: nat)
    requires n <= |s|
    ensures var e := MatchEnd(s, a);
            MatchEnd(s[..n], a) == if e.Some? && e.value <= n then e else None
  {
    hide IsMark, MatchEnd;
    MatchIsMark(s[..n], a);
    MatchIsMark(s, a);
    if MatchEnd(s[..n], a).Some? {
      var e := MatchEnd(s[..n], a).value;
      assert s[..n][a..e] == s[a..e];
      MarkIsMatch(s, a, e);
    } else if MatchEnd(s, a).Some? && MatchEnd(s, a).value <= n {
      var e := MatchEnd(s, a).value;
      assert s[..n][a..e] == s[a..e];
      MarkIsMatch(s[..n], a, e);
    }
  }

  /** Nothing but the match itself starts between the cursor and the end of the match. */
  lemma MarksUpToMatch(s: seq<byte>, cursor: nat, a: nat, e: nat)
    requires cursor <= a && MatchEnd(s, a) == Some(e) && e <= |s|
    requires forall i :: cursor <= i < a ==> MatchEnd(s, i) == None
    ensures a < e && Between(s, cursor, e) == At(s, a)
  {
    hide MatchEnd, IsMark, Between;
    MatchIsMark(s, a);
    forall i | a < i < e ensures At(s, i) == [] {
      NoNestedStart(s, a, e, i);
    }
    BetweenSplit(s, cursor, a, e);
    BetweenSplit(s, a, a + 1, e);
    NothingBetween(s, cursor, a);
    NothingBetween(s, a + 1, e);
    BetweenOne(s, a);
  }

  lemma BetweenOne(s: seq<byte>, a: nat)
    ensures Between(s, a, a + 1) == At(s, a)
  {
    hide At;
    assert Between(s, a, a) == [];
  }

  lemma StepPlaced(s: seq<byte>, cursor: nat, a: nat, e: nat, base: nat)
    requires cursor <= a < e <= |s| && MatchEnd(s, a) == Some(e)
    ensures var x := [Data(s[cursor..e])] + Announced(s[a..e]);
            Bytes(x) == s[cursor..e] && Placed(x, base + cursor) == Shifted(At(s, a), base)
  {
    hide IsMark, MatchEnd;
    var d := Data(s[cursor..e]);
    assert [d][..0] == [] && Bytes([d]) == [] + s[cursor..e] == s[cursor..e];
    assert Placed([d], base + cursor) == [];
    if Recognised(s[a..e]) {
      var b := Announce(BlockOf(s[a..e]));
      assert ([d] + [b])[..1] == [d];
      assert Bytes([d] + [b]) == s[cursor..e];
    } else {
      assert [d] + [] == [d];
    }
  }

  function Shifted(marks: seq<Placement>, base: nat): seq<Placement> {
    seq(|marks|, i requires 0 <= i < |marks| => Placement(marks[i].offset + base, marks[i].block))
  }

  lemma ShiftedConcat(x: seq<Placement>, y: seq<Placement>, base: nat)
    ensures Shifted(x + y, base) == Shifted(x, base) + Shifted(y, base)
  {}

  /** One pass of the search loop emits the bytes up to the last match and places every recognised mark. */
  lemma {:induction false} ScanFacts(s: seq<byte>, cursor: nat, base: nat)
    requires cursor <= |s|
    ensures var (events, last) := Scan(s, cursor);
            && cursor <= last <= |s| && Bytes(events) == s[cursor..last]
            && Placed(events, base + cursor) == Shifted(Between(s, cursor, |s|), base)
            && forall i :: last <= i < |s| ==> MatchEnd(s, i) == None
    decreases |s| - cursor
  {
    hide MatchEnd, IsMark, Bytes, Placed, Between, Announced, At;
    var found := NextMatch(s, cursor);
    if found.None? {
      NoMarks(s, cursor, base);
    } else {
      var a := found.value;
      MatchIsMark(s, a);
      var e := MatchEnd(s, a).value;
      var (rest, last) := Scan(s, e);
      ScanFacts(s, e, base);
      var x := [Data(s[cursor..e])] + Announced(s[a..e]);
      StepPlaced(s, cursor, a, e, base);
      MarksUpToMatch(s, cursor, a, e);
      BetweenSplit(s, cursor, e, |s|);
      ShiftedConcat(At(s, a), Between(s, e, |s|), base);
      BytesConcat(x, rest);
      PlacedConcat(x, rest, base + cursor);
      assert s[cursor..e] + s[e..last] == s[cursor..last];
    }
  }

  lemma NoMarks(s: seq<byte>, cursor: nat, base: nat)
    requires cursor <= |s| && forall i :: cursor <= i < |s| ==> MatchEnd(s, i) == None
    ensures Bytes([]) == s[cursor..cursor] && Placed([], base + cursor) == Shifted(Between(s, cursor, |s|), base)
  {
    NothingBetween(s, cursor, |s|);
  }

  lemma AtInSlice(s: seq<byte>, k: nat, i: nat)
    requires k <= |s|
    ensures At(s, k + i) == Shifted(At(s[k..], i), k)
  {
    hide IsMark, MatchEnd;
    MatchInSlice(s, k, i);
    MatchIsMark(s[k..], i);
    if MatchEnd(s[k..], i).Some? {
      SliceOfSlice(s, k, i, MatchEnd(s[k..], i).value);
    }
  }

  lemma {:induction false} BetweenInSlice(s: seq<byte>, k: nat, hi: nat)
    requires k <= |s|
    ensures Between(s, k, k + hi) == Shifted(Between(s[k..], 0, hi), k)
  {
    hide At;
    if hi > 0 {
      BetweenInSlice(s, k, hi - 1);
      AtInSlice(s, k, hi - 1);
      ShiftedConcat(Between(s[k..], 0, hi - 1), At(s[k..], hi - 1), k);
    }
  }

  // ---------- a feed ----------

  ghost predicate Consistent(f: Feed) {
    f.idx <= |f.buf| && Bytes(f.log) == f.buf[..f.idx]
  }

  lemma TailLog(flushable: seq<byte>, base: nat)
    ensures var x := if flushable != [] then [Data(flushable)] else [];
            Bytes(x) == flushable && Placed(x, base) == []
  {
    if flushable != [] {
      assert [Data(flushable)][..0] == [] && Bytes([]) + flushable == flushable;
    }
  }

  lemma LogOfPush(f: Feed, events: seq<Event>, flushable: seq<byte>)
    ensures var x := if flushable != [] then [Data(flushable)] else [];
            && Bytes(f.log + events + x) == Bytes(f.log) + Bytes(events) + flushable
            && Placed(f.log + events + x, 0) == Placed(f.log, 0) + Placed(events, |Bytes(f.log)|)
  {
    hide Bytes, Placed;
    var x := if flushable != [] then [Data(flushable)] else [];
    TailLog(flushable, |Bytes(f.log + events)|);
    BytesConcat(f.log, events);
    BytesConcat(f.log + events, x);
    PlacedConcat(f.log, events, 0);
    PlacedConcat(f.log + events, x, 0);
    assert Placed(f.log, 0) + Placed(events, |Bytes(f.log)|) + [] == Placed(f.log, 0) + Placed(events, |Bytes(f.log)|);
  }

  lemma ThreeSlices(buf: seq<byte>, i: nat, c: nat, h: nat)
    requires i + c + h <= |buf|
    ensures buf[..i] + buf[i..][0..c] + buf[i..][c..][..h] == buf[..i + c + h]
  {}

  /** Whatever the bytes: a feed only emits, in order, and keeps back at most 24 bytes. */
  lemma PushConserves(f: Feed, chunk: seq<byte>)
    requires Consistent(f)
    ensures var g := Push(f, chunk);
            && Consistent(g) && g.buf == f.buf + chunk && f.idx <= g.idx && |g.buf| - g.idx <= MAX_HELD
            && Placed(g.log, 0) == Placed(f.log, 0) + Between(g.buf, f.idx, |g.buf|)
  {
    hide Bytes, Placed, Between, Scan, HoldFrom;
    var buf := f.buf + chunk;
    var pending := buf[f.idx..];
    var (events, cursor) := Scan(pending, 0);
    ScanFacts(pending, 0, f.idx);
    BetweenInSlice(buf, f.idx, |pending|);
    var tail := pending[cursor..];
    LogOfPush(f, events, tail[..HoldFrom(tail)]);
    assert f.buf[..f.idx] == buf[..f.idx];
    ThreeSlices(buf, f.idx, cursor, HoldFrom(tail));
  }

  lemma {:induction false} PushAllConserves(chunks: seq<seq<byte>>)
    ensures var f := PushAll(chunks);
            Consistent(f) && f.buf == Flatten(chunks) && |f.buf| - f.idx <= MAX_HELD
  {
    if chunks != [] {
      hide Push, Bytes;
      PushAllConserves(chunks[..|chunks| - 1]);
      PushConserves(PushAll(chunks[..|chunks| - 1]), chunks[|chunks| - 1]);
    }
  }

  // ---------- safe marks are never cut ----------

  /** Terminated by BEL, at most 25 bytes long, and on one line. */
  predicate Safe(w: seq<byte>) {
    w != [] && w[|w| - 1] == BEL && |w| <= MAX_HELD + 1 && LF !in w && CR !in w
  }

  lemma {:induction false} LastMatch(s: seq<byte>, cursor: nat) returns (b: nat)
    requires cursor <= |s|
    ensures Scan(s, cursor).1 == cursor || (cursor <= b && MatchEnd(s, b) == Some(Scan(s, cursor).1))
    decreases |s| - cursor
  {
    hide MatchEnd, IsMark;
    b := cursor;
    var a := NextMatch(s, cursor);
    if a.Some? {
      MatchIsMark(s, a.value);
      var e := MatchEnd(s, a.value).value;
      b := LastMatch(s, e);
      if Scan(s, e).1 == e { b := a.value; }
    }
  }

  lemma MarkOpens(s: seq<byte>, a: nat, e: nat)
    requires MatchEnd(s, a) == Some(e)
    ensures a + 8 <= e <= |s| && s[a] == ESC && s[a + 1] == RIGHT_BRACKET
  {
    MatchIsMark(s, a);
    var w := s[a..e];
    assert w[..6][0] == s[a] && w[..6][1] == s[a + 1];
  }

  /** The search never passes the start of a safe mark that is still incomplete. */
  lemma ScanStopsBefore(s: seq<byte>, i0: nat, n: nat, a: nat, e: nat)
    requires i0 <= a < n < e <= |s| && MatchEnd(s, a) == Some(e) && Safe(s[a..e])
    ensures Scan(s[..n][i0..], 0).1 <= a - i0
  {
    hide MatchEnd, IsMark, Scan;
    var pending := s[..n][i0..];
    var b := LastMatch(pending, 0);
    var cursor := Scan(pending, 0).1;
    MarkOpens(s, a, e);
    MatchIsMark(s, a);
    if cursor > a - i0 {
      MarkOpens(pending, b, cursor);
      MatchIsMark(pending, b);
      assert pending[a - i0] == s[a] && pending[b] == s[b + i0];
      if b < a - i0 {
        NoNestedStart(pending, b, cursor, a - i0);
        assert false;
      } else if b == a - i0 {
        MatchInSlice(s[..n], i0, b);
        MatchInPrefix(s, n, a);
        assert false;
      } else {
        NoNestedStart(s, a, e, b + i0);
        assert false;
      }
    }
  }

  lemma PrefixMayGrow(s: seq<byte>, a: nat, n: nat, e: nat)
    requires a < n < e <= |s| && IsMark(s[a..e]) && Safe(s[a..e])
    ensures MayGrow(s[a..n])
  {
    var w, v := s[a..e], s[a..n];
    assert v == w[..n - a];
    if |v| <= 6 {
      assert v == w[..6][..|v|];
    } else {
      assert v[..6] == w[..6];
      forall i | 6 <= i < |v| ensures v[i] != LF && v[i] != CR {
        assert v[i] == w[i] && w[i] in w;
      }
    }
  }

  lemma LastEscIs(tail: seq<byte>, x: nat)
    requires x < |tail| && tail[x] == ESC && forall i :: x < i < |tail| ==> tail[i] != ESC
    ensures LastEsc(tail) == Some(x)
  {
    var r := LastEsc(tail);
    assert r.Some? && r.value >= x;
  }

  lemma HoldsFrom(tail: seq<byte>, x: nat)
    requires x < |tail| <= x + MAX_HELD && tail[x] == ESC && MayGrow(tail[x..])
    requires forall i :: x < i < |tail| ==> tail[i] != ESC
    ensures HoldFrom(tail) == x
  {
    hide MayGrow;
    LastEscIs(tail, x);
  }

  lemma PushIndex(f: Feed, chunk: seq<byte>, pending: seq<byte>)
    requires f.idx <= |f.buf| && pending == (f.buf + chunk)[f.idx..]
    ensures Scan(pending, 0).1 <= |pending|
    ensures Push(f, chunk).idx == f.idx + Scan(pending, 0).1 + HoldFrom(pending[Scan(pending, 0).1..])
  {
    hide Scan, HoldFrom;
    ScanEnds(pending, 0);
  }

  lemma TailHeld(s: seq<byte>, from: nat, n: nat, a: nat, e: nat)
    requires from <= a < n < e <= |s| && MatchEnd(s, a) == Some(e) && Safe(s[a..e])
    ensures HoldFrom(s[from..n]) == a - from
  {
    hide MatchEnd, MayGrow, HoldFrom;
    var tail, x := s[from..n], a - from;
    MatchIsMark(s, a);
    MarkOpens(s, a, e);
    forall i | x < i < |tail| ensures tail[i] != ESC {
      assert tail[i] == s[from + i];
      NoNestedStart(s, a, e, from + i);
    }
    PrefixMayGrow(s, a, n, e);
    assert tail[x..] == s[a..n];
    HoldsFrom(tail, x);
  }

  /** An incomplete safe mark is held back from its first byte. */
  lemma HeldBack(f: Feed, chunk: seq<byte>, s: seq<byte>, a: nat, e: nat)
    requires f.idx <= |f.buf| && f.buf + chunk <= s && f.idx <= a < |f.buf + chunk| < e
    requires MatchEnd(s, a) == Some(e) && e <= |s| && Safe(s[a..e])
    ensures Push(f, chunk).idx == a
  {
    hide MatchEnd, Safe, Scan, HoldFrom, Push;
    var n := |f.buf + chunk|;
    var pending := s[..n][f.idx..];
    assert f.buf + chunk == s[..n];
    ScanStopsBefore(s, f.idx, n, a, e);
    PushIndex(f, chunk, pending);
    var from := f.idx + Scan(pending, 0).1;
    assert pending[Scan(pending, 0).1..] == s[from..n];
    TailHeld(s, from, n, a, e);
  }

  ghost predicate AllSafe(s: seq<byte>) {
    forall a, e :: 0 <= a <= e <= |s| && Recognised(s[a..e]) ==> Safe(s[a..e])
  }

  /** The splitter agrees so far with the scan of the whole stream `s`. */
  ghost predicate OnTrack(f: Feed, s: seq<byte>) {
    Consistent(f) && f.buf <= s && Placed(f.log, 0) == Between(s, 0, f.idx)
  }

  lemma ScanIsDone(f: Feed, chunk: seq<byte>, i: nat)
    requires f.idx <= |f.buf| && Push(f, chunk).idx <= i < |f.buf + chunk|
    ensures At(f.buf + chunk, i) == []
  {
    hide MatchEnd, Scan, Push, HoldFrom, Bytes, Placed, Between, IsMark;
    var buf := f.buf + chunk;
    PushIndex(f, chunk, buf[f.idx..]);
    ScanFacts(buf[f.idx..], 0, 0);
    MatchInSlice(buf, f.idx, i - f.idx);
  }

  lemma PrefixBounds(f: Feed, chunk: seq<byte>)
    requires Consistent(f)
    ensures f.idx <= |f.buf| && Push(f, chunk).idx <= |f.buf + chunk|
  {
    hide Push, Bytes;
    PushConserves(f, chunk);
  }

  lemma SafeMark(s: seq<byte>, a: nat, e: nat)
    requires AllSafe(s) && a <= e <= |s| && Recognised(s[a..e])
    ensures Safe(s[a..e])
  {}

  lemma AtInPrefix(f: Feed, chunk: seq<byte>, s: seq<byte>, i: nat)
    requires AllSafe(s) && Consistent(f) && f.buf + chunk <= s && f.idx <= i < Push(f, chunk).idx
    ensures At(f.buf + chunk, i) == At(s, i)
  {
    hide Push, MatchEnd, IsMark, Bytes, AllSafe, Consistent, Recognised, Safe;
    var n := |f.buf + chunk|;
    assert f.buf + chunk == s[..n];
    PrefixBounds(f, chunk);
    MatchInPrefix(s, n, i);
    MatchIsMark(s, i);
    if MatchEnd(s, i).Some? {
      var e := MatchEnd(s, i).value;
      if e <= n {
        assert s[..n][i..e] == s[i..e];
      } else if Recognised(s[i..e]) {
        SafeMark(s, i, e);
        HeldBack(f, chunk, s, i, e);
      }
    }
  }

  lemma PushOnTrack(f: Feed, chunk: seq<byte>, s: seq<byte>)
    requires AllSafe(s) && OnTrack(f, s) && f.buf + chunk <= s
    ensures OnTrack(Push(f, chunk), s)
  {
    hide Push, AllSafe, At, Bytes, Placed;
    PushConserves(f, chunk);
    var g := Push(f, chunk);
    BetweenSplit(g.buf, f.idx, g.idx, |g.buf|);
    forall i | g.idx <= i < |g.buf| ensures At(g.buf, i) == [] { ScanIsDone(f, chunk, i); }
    NothingBetween(g.buf, g.idx, |g.buf|);
    forall i | f.idx <= i < g.idx ensures At(g.buf, i) == At(s, i) { AtInPrefix(f, chunk, s, i); }
    BetweenAgrees(g.buf, s, f.idx, g.idx);
    BetweenSplit(s, 0, f.idx, g.idx);
  }

  lemma {:induction false} PushAllOnTrack(chunks: seq<seq<byte>>, s: seq<byte>)
    requires AllSafe(s) && Flatten(chunks) <= s
    ensures OnTrack(PushAll(chunks), s) && PushAll(chunks).buf == Flatten(chunks)
  {
    PushAllConserves(chunks);
    if chunks != [] {
      hide Push, Bytes, Placed, AllSafe;
      var n := |chunks| - 1;
      PushAllConserves(chunks[..n]);
      PushAllOnTrack(chunks[..n], s);
      PushOnTrack(PushAll(chunks[..n]), chunks[n], s);
    }
  }

  ghost predicate ChunkIndependent(s: seq<byte>) {
    forall chunks: seq<seq<byte>> :: Flatten(chunks) == s ==> Placed(PushAll(chunks).log, 0) == Marks(s)
  }

  // ---------- and unsafe ones can be ----------

  /** A cut inside an unsafe mark after which the splitter has already let go of its first byte. */
  lemma CutPoint(s: seq<byte>, a: nat, e: nat) returns (n: nat)
    requires a <= e <= |s| && IsMark(s[a..e]) && !Safe(s[a..e])
    ensures a < n < e && Push(Start, s[..n]).idx > a
  {
    n := CutInside(s, a, e);
    hide Scan, Push, HoldFrom, IsMark;
    var pending := s[..n];
    assert [] + pending == pending && pending[0..] == pending;
    PushIndex(Start, pending, pending);
    LetsGo(s, a, e, n, Scan(pending, 0).1);
  }

  ghost predicate Careless(s: seq<byte>, a: nat, n: nat)
    requires a < n <= |s|
  {
    || (s[n - 1] == ESC && a < n - 1) || n - a > MAX_HELD
    || exists q :: a + 6 <= q < n && (s[q] == LF || s[q] == CR)
  }

  lemma CutInside(s: seq<byte>, a: nat, e: nat) returns (n: nat)
    requires a <= e <= |s| && IsMark(s[a..e]) && !Safe(s[a..e])
    ensures a + 6 < n < e && Careless(s, a, n)
  {
    var w := s[a..e];
    assert forall i :: 0 <= i < |w| ==> w[i] == s[a + i];
    if Closing(w) == 2 {
      n := e - 1;
    } else if |w| > MAX_HELD + 1 {
      n := a + MAX_HELD + 1;
    } else {
      var q :| 0 <= q < |w| && (w[q] == LF || w[q] == CR);
      assert forall i :: 0 <= i < 6 ==> w[i] == w[..6][i] == INTRO[i];
      n := a + q + 1;
      assert s[a + q] == LF || s[a + q] == CR;
    }
  }

  lemma LetsGo(s: seq<byte>, a: nat, e: nat, n: nat, cursor: nat)
    requires a + 6 < n < e <= |s| && IsMark(s[a..e]) && cursor <= n
    requires Careless(s, a, n)
    ensures cursor + HoldFrom(s[..n][cursor..]) > a
  {
    var tail := s[..n][cursor..];
    var esc := LastEsc(tail);
    var w := s[a..e];
    assert w[..6][0] == s[a];
    if esc.Some? && cursor + esc.value <= a {
      assert tail[a - cursor] == s[a];
      assert esc.value == a - cursor;
      var v := tail[esc.value..];
      assert v == s[a..n];
      assert forall i :: 0 <= i < |v| ==> v[i] == s[a + i];
      if q :| a + 6 <= q < n && (s[q] == LF || s[q] == CR) {
        assert v[q - a] == s[q];
      }
    }
  }

  lemma {:induction false} BetweenOrigin(s: seq<byte>, lo: nat, hi: nat, p: Placement) returns (i: nat)
    requires lo <= hi && p in Between(s, lo, hi)
    ensures lo <= i < hi && MatchEnd(s, i) == Some(p.offset)
  {
    hide MatchEnd, IsMark;
    if p in At(s, hi - 1) {
      i := hi - 1;
    } else {
      i := BetweenOrigin(s, lo, hi - 1, p);
    }
  }

  lemma MarkIsListed(s: seq<byte>, a: nat, e: nat)
    requires a < |s| && MatchEnd(s, a) == Some(e) && e <= |s| && Recognised(s[a..e])
    ensures Placement(e, BlockOf(s[a..e])) in Marks(s)
  {
    hide MatchEnd, IsMark;
    MatchIsMark(s, a);
    BetweenSplit(s, 0, a, |s|);
    BetweenSplit(s, a, a + 1, |s|);
    BetweenOne(s, a);
    assert Placement(e, BlockOf(s[a..e])) in At(s, a);
  }

  lemma NeverEndsThere(s: seq<byte>, n: nat, idx: nat, a: nat, e: nat)
    requires a < n < e <= |s| && a < idx <= |s| && MatchEnd(s, a) == Some(e)
    ensures forall p :: p in Between(s[..n], 0, n) || p in Between(s, idx, |s|) ==> p.offset != e
  {
    hide MatchEnd, IsMark, Between;
    MatchIsMark(s, a);
    forall p | p in Between(s[..n], 0, n) ensures p.offset != e {
      var i := BetweenOrigin(s[..n], 0, n, p);
      MatchIsMark(s[..n], i);
    }
    forall p | p in Between(s, idx, |s|) ensures p.offset != e {
      var i := BetweenOrigin(s, idx, |s|, p);
      MatchIsMark(s, i);
      if i < e { NoNestedStart(s, a, e, i); }
    }
  }

  lemma TwoChunks(x: seq<byte>, y: seq<byte>)
    ensures Flatten([x, y]) == x + y
    ensures Push(Start, x).idx <= |Push(Start, x).buf|
    ensures PushAll([x, y]) == Push(Push(Start, x), y)
  {
    hide Push;
    assert [x, y][..1] == [x] && [x][..0] == [];
    assert PushAll([]) == Start && Flatten<byte>([]) == [];
    assert PushAll([x]) == Push(Start, x) && Flatten([x]) == x;
    PushAllConserves([x]);
  }

  lemma NothingYet()
    ensures Consistent(Start) && Placed(Start.log, 0) == []
  {}

  lemma FirstPush(x: seq<byte>)
    ensures var f := Push(Start, x);
            Consistent(f) && f.buf == x && f.idx <= |x| && Placed(f.log, 0) == Between(x, 0, |x|)
  {
    hide Push, Bytes, Placed, Between;
    NothingYet();
    assert [] + x == x;
    PushConserves(Start, x);
    assert [] + Between(x, 0, |x|) == Between(x, 0, |x|);
  }

  lemma TwoPushes(x: seq<byte>, y: seq<byte>)
    ensures var f := Push(Start, x);
            && f.idx <= |x|
            && Placed(PushAll([x, y]).log, 0) == Between(x, 0, |x|) + Between(x + y, f.idx, |x + y|)
  {
    hide Push, Bytes, Placed, Between, PushAll;
    TwoChunks(x, y);
    FirstPush(x);
    PushConserves(Push(Start, x), y);
  }

  lemma CutLosesMark(s: seq<byte>, a: nat, e: nat) returns (chunks: seq<seq<byte>>)
    requires a <= e <= |s| && Recognised(s[a..e]) && !Safe(s[a..e])
    ensures Flatten(chunks) == s && Placed(PushAll(chunks).log, 0) != Marks(s)
  {
    hide MatchEnd, IsMark, Push, Bytes, Placed, Between, Safe, Flatten, PushAll, Marks;
    MarkIsMatch(s, a, e);
    MarkOpens(s, a, e);
    var n := CutPoint(s, a, e);
    chunks := [s[..n], s[n..]];
    TwoChunks(s[..n], s[n..]);
    assert s[..n] + s[n..] == s;
    TwoPushes(s[..n], s[n..]);
    NeverEndsThere(s, n, Push(Start, s[..n]).idx, a, e);
    MarkIsListed(s, a, e);
  }

  /**
   The block events of a stream and their byte offsets are the same for every
   way of cutting it into chunks if and only if every recognised mark in it is
   terminated by BEL, at most 25 bytes long and free of line breaks.
   */
  lemma ChunkIndependentIffSafe(s: seq<byte>)
    ensures ChunkIndependent(s) <==> AllSafe(s)
  {
    hide Safe, Recognised, Placed, PushAll, Marks;
    if AllSafe(s) {
      forall chunks: seq<seq<byte>> | Flatten(chunks) == s ensures Placed(PushAll(chunks).log, 0) == Marks(s) {
        SafeStreamFeeds(chunks, s);
      }
    } else {
      var a, e :| 0 <= a <= e <= |s| && Recognised(s[a..e]) && !Safe(s[a..e]);
      var chunks := CutLosesMark(s, a, e);
    }
  }

  lemma SafeStreamFeeds(chunks: seq<seq<byte>>, s: seq<byte>)
    requires AllSafe(s) && Flatten(chunks) == s
    ensures Placed(PushAll(chunks).log, 0) == Marks(s)
  {
    hide Placed, Between, AllSafe, Push, At;
    PushAllOnTrack(chunks, s);
    var f := PushAll(chunks);
    BetweenSplit(s, 0, f.idx, |s|);
    if chunks != [] {
      var g := PushAll(chunks[..|chunks| - 1]);
      PushAllConserves(chunks[..|chunks| - 1]);
      forall i | f.idx <= i < |s| ensures At(s, i) == [] {
        ScanIsDone(g, chunks[|chunks| - 1], i);
      }
      NothingBetween(s, f.idx, |s|);
    } else {
      NothingBetween(s, 0, 0);
    }
  }

  // ---------- what a stream of text and marks announces ----------

  /** Text without ESC, or a mark with its letter, its parameters and its terminator. */
  datatype Piece = Text(bytes: seq<byte>) | MarkPiece(letter: byte, params: seq<byte>, bell: bool)

  ghost predicate GoodPiece(p: Piece) {
    match p
    case Text(bytes) => ESC !in bytes
    case MarkPiece(letter, params, _) =>
      && ('A' <= letter as char <= 'Z' || 'a' <= letter as char <= 'z')
      && (params != [] ==> params[0] == ';' as int) && ESC !in params && BEL !in params
  }

  function PieceBytes(p: Piece): seq<byte> {
    match p
    case Text(bytes) => bytes
    case MarkPiece(letter, params, bell) =>
      [0x1b, 0x5d, 0x31, 0x33, 0x33, 0x3b] + [letter] + params + (if bell then [0x07] else [0x1b, 0x5c])
  }

  function StreamOf(pieces: seq<Piece>): seq<byte> {
    if pieces == [] then [] else PieceBytes(pieces[0]) + StreamOf(pieces[1..])
  }

  /** The letter of a mark as a capital. */
  function Capital(letter: byte): char {
    if letter >= 97 then (letter - 32) as char else letter as char
  }

  /** Only the letters A to D announce a block, under their capital and where the mark ends. */
  function PieceBlocks(p: Piece, end: nat): seq<Placement> {
    if p.MarkPiece? && 'A' <= Capital(p.letter) <= 'D' then [Placement(end, Block(Capital(p.letter), p.params))] else []
  }

  function BlocksOf(pieces: seq<Piece>, from: nat): seq<Placement> {
    if pieces == [] then []
    else
      var end := from + |PieceBytes(pieces[0])|;
      PieceBlocks(pieces[0], end) + BlocksOf(pieces[1..], end)
  }

  lemma PhaseIsCapital(letter: byte)
    requires 'A' <= letter as char <= 'Z' || 'a' <= letter as char <= 'z'
    ensures Phase(letter) == if 'A' <= Capital(letter) <= 'D' then Some(Capital(letter)) else None
  {}

  lemma MarkPieceIsMark(p: Piece)
    requires p.MarkPiece? && GoodPiece(p)
    ensures var w := PieceBytes(p);
            |w| >= 8 && IsMark(w) && w[6] == p.letter && Params(w) == p.params
  {
    var w := PieceBytes(p);
    assert w[..6] == INTRO;
    assert w[|w| - 1] == (if p.bell then BEL else BACKSLASH);
    assert w[7..|w| - Closing(w)] == p.params;
  }

  lemma NothingInside(s: seq<byte>, lo: nat, e: nat)
    requires lo < e <= |s| && IsMark(s[lo..e])
    ensures Between(s, lo, e) == At(s, lo)
  {
    hide IsMark, MatchEnd, Between;
    BetweenSplit(s, lo, lo + 1, e);
    BetweenOne(s, lo);
    forall i | lo + 1 <= i < e ensures At(s, i) == [] {
      NoNestedStart(s, lo, e, i);
    }
    NothingBetween(s, lo + 1, e);
    assert At(s, lo) + [] == At(s, lo);
  }

  lemma AtMark(s: seq<byte>, lo: nat, e: nat)
    requires lo <= e <= |s| && MatchEnd(s, lo) == Some(e)
    ensures At(s, lo) == BlocksIn(s[lo..e], e)
  {
    hide MatchEnd, Phase;
  }

  /** What a text that matches announces when it ends at `e`. */
  function BlocksIn(w: seq<byte>, e: nat): seq<Placement> {
    if Recognised(w) then [Placement(e, BlockOf(w))] else []
  }

  lemma PieceAnnounces(p: Piece, e: nat)
    requires p.MarkPiece? && GoodPiece(p)
    ensures IsMark(PieceBytes(p)) && |PieceBytes(p)| >= 8 && BlocksIn(PieceBytes(p), e) == PieceBlocks(p, e)
  {
    MarkPieceIsMark(p);
    PhaseIsCapital(p.letter);
    hide IsMark, PieceBytes, Phase;
  }

  lemma MarkFound(s: seq<byte>, lo: nat, p: Piece)
    requires p.MarkPiece? && GoodPiece(p) && lo + |PieceBytes(p)| <= |s| && s[lo..lo + |PieceBytes(p)|] == PieceBytes(p)
    ensures Between(s, lo, lo + |PieceBytes(p)|) == PieceBlocks(p, lo + |PieceBytes(p)|)
  {
    hide IsMark, MatchEnd, Between, PieceBytes, GoodPiece, At, BlocksIn, PieceBlocks;
    var e := lo + |PieceBytes(p)|;
    PieceAnnounces(p, e);
    NothingInside(s, lo, e);
    MarkIsMatch(s, lo, e);
    AtMark(s, lo, e);
  }

  lemma TextIsSilent(s: seq<byte>, lo: nat, hi: nat)
    requires lo <= hi <= |s| && ESC !in s[lo..hi]
    ensures Between(s, lo, hi) == []
  {
    hide MatchEnd, Between;
    forall i | lo <= i < hi ensures At(s, i) == [] {
      assert s[lo..hi][i - lo] == s[i];
      if MatchEnd(s, i).Some? { MatchOpens(s, i); }
    }
    NothingBetween(s, lo, hi);
  }

  lemma {:induction false} PiecesFound(s: seq<byte>, lo: nat, pieces: seq<Piece>)
    requires lo <= |s| && s[lo..] == StreamOf(pieces) && forall i :: 0 <= i < |pieces| ==> GoodPiece(pieces[i])
    ensures Between(s, lo, |s|) == BlocksOf(pieces, lo)
    decreases |pieces|
  {
    hide Between, GoodPiece, PieceBytes, PieceBlocks;
    if pieces == [] {
      NothingBetween(s, lo, |s|);
    } else {
      var mid := lo + |PieceBytes(pieces[0])|;
      assert |s| - lo == |StreamOf(pieces)|;
      assert s[lo..mid] == s[lo..][..mid - lo] == PieceBytes(pieces[0]);
      assert s[mid..] == s[lo..][mid - lo..] == StreamOf(pieces[1..]);
      PieceFound(s, lo, pieces[0]);
      PiecesFound(s, mid, pieces[1..]);
      BetweenSplit(s, lo, mid, |s|);
    }
  }

  lemma PieceFound(s: seq<byte>, lo: nat, p: Piece)
    requires GoodPiece(p) && lo + |PieceBytes(p)| <= |s| && s[lo..lo + |PieceBytes(p)|] == PieceBytes(p)
    ensures Between(s, lo, lo + |PieceBytes(p)|) == PieceBlocks(p, lo + |PieceBytes(p)|)
  {
    if p.MarkPiece? { MarkFound(s, lo, p); } else { TextIsSilent(s, lo, lo + |PieceBytes(p)|); }
  }

  /**
   A stream of text and marks announces exactly the letters A to D of its
   marks, as capitals, in order, with their parameters and where they end; and
   so does every way of feeding it in chunks if its marks are safe.
   */
  lemma LettersAreAnnounced(pieces: seq<Piece>, chunks: seq<seq<byte>>)
    requires forall i :: 0 <= i < |pieces| ==> GoodPiece(pieces[i])
    ensures Marks(StreamOf(pieces)) == BlocksOf(pieces, 0)
    ensures AllSafe(StreamOf(pieces)) && Flatten(chunks) == StreamOf(pieces) ==>
              Placed(PushAll(chunks).log, 0) == BlocksOf(pieces, 0)
  {
    hide GoodPiece, AllSafe, PushAll, Placed, Between;
    var s := StreamOf(pieces);
    assert s[0..] == s;
    PiecesFound(s, 0, pieces);
    if AllSafe(s) && Flatten(chunks) == s { SafeStreamFeeds(chunks, s); }
  }

  // ---------- the splitter object ----------

  class Splitter {
    var buf: seq<byte>
    var idx: nat
    /** Events sent to the terminal listeners, oldest first. */
    var log: seq<Event>

    ghost function View(): Feed
      reads this
    {
      Feed(buf, idx, log)
    }

    ghost predicate Valid()
      reads this
    {
      idx <= |buf|
    }

    constructor ()
      ensures Valid() && View() == Start
    {
      buf, idx, log := [], 0, [];
    }

    method Emit(e: Event)
      modifies this`log
      ensures log == old(log) + [e]
    {
      log := log + [e];
    }

    /** The search loop over one pending slice. */
    method EmitMatches(pending: seq<byte>) returns (cursor: nat)
      modifies this`log
      ensures (log, cursor) == (old(log) + Scan(pending, 0).0, Scan(pending, 0).1)
    {
      hide MatchEnd, IsMark, Announced;
      cursor := 0;
      ghost var done: seq<Event> := [];
      var next := NextMatch(pending, 0);
      while next.Some?
        invariant cursor <= |pending| && next == NextMatch(pending, cursor)
        invariant log == old(log) + done
        invariant done + Scan(pending, cursor).0 == Scan(pending, 0).0
        invariant Scan(pending, cursor).1 == Scan(pending, 0).1
        decreases |pending| - cursor
      {
        var a := next.value;
        MatchIsMark(pending, a);
        var e := MatchEnd(pending, a).value;
        ghost var step := [Data(pending[cursor..e])] + Announced(pending[a..e]);
        Associate(done, step, Scan(pending, e).0);
        Associate(old(log), done, step);
        EmitMatch(pending[cursor..e], pending[a..e]);
        done := done + step;
        cursor := e;
        next := NextMatch(pending, cursor);
      }
      assert done + [] == done;
    }

    method EmitMatch(segment: seq<byte>, w: seq<byte>)
      requires IsMark(w)
      modifies this`log
      ensures log == old(log) + ([Data(segment)] + Announced(w))
    {
      Emit(Data(segment));
      var phase := Phase(w[6]);
      if phase.Some? {
        Emit(Announce(Block(phase.value, Params(w))));
      }
    }

    method FeedChunk(chunk: seq<byte>)
      requires Valid()
      modifies this
      ensures Valid() && View() == Push(old(View()), chunk)
    {
      hide Scan, HoldFrom;
      buf := buf + chunk;
      var pending := buf[idx..];
      ScanEnds(pending, 0);
      var cursor := EmitMatches(pending);
      var tail := pending[cursor..];
      var flushable := tail[..HoldFrom(tail)];
      if flushable != [] {
        Emit(Data(flushable));
      }
      idx := idx + cursor + |flushable|;
    }
  }
}
