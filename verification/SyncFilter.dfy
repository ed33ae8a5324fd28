/**
 The filter between the session and the terminal widget: inside a DEC 2026
 synchronized-update block a full-screen erase is rewritten and a scrollback
 erase is dropped; everything else is passed on.
 */
module SyncFilter {
  import opened Common

  const LEFT_BRACKET: byte := 0x5b
  const SEMICOLON: byte := 0x3b
  const QUESTION: byte := 0x3f
  const SPACE: byte := 0x20
  const SET: byte := 0x68
  const RESET: byte := 0x6c
  const ERASE: byte := 0x4a
  const MAX_PARAMS := 64

  /** "2026". */
  const SYNC_MODE: seq<byte> := [0x32, 0x30, 0x32, 0x36]

  datatype Mode = Ground | Esc | Csi

  datatype Filter = Filter(mode: Mode, csi: seq<byte>, inSync: bool)

  const Fresh := Filter(Ground, [], false)

  predicate IsFinal(b: byte) {
    0x40 <= b <= 0x7e
  }

  predicate IsParam(b: byte) {
    0x20 <= b <= 0x3f
  }

  // ---------- control sequences ----------

  function Split(s: seq<byte>): (r: seq<seq<byte>>)
    ensures r != []
  {
    if s == [] then [[]]
    else
      var rest := Split(s[1..]);
      if s[0] == SEMICOLON then [[]] + rest else [[s[0]] + rest[0]] + rest[1..]
  }

  function Trim(s: seq<byte>): seq<byte> {
    if s != [] && s[0] == SPACE then Trim(s[1..])
    else if s != [] && s[|s| - 1] == SPACE then Trim(s[..|s| - 1])
    else s
  }

  predicate NamesSync(params: seq<byte>)
    requires params != []
  {
    exists i :: 0 <= i < |Split(params[1..])| && Trim(Split(params[1..])[i]) == SYNC_MODE
  }

  predicate SetsMode(params: seq<byte>, final: byte) {
    params != [] && params[0] == QUESTION && (final == SET || final == RESET)
  }

  function EmitCsi(params: seq<byte>, final: byte): seq<byte> {
    [ESC, LEFT_BRACKET] + params + [final]
  }

  /** Whether the sequence erases with the given selector. */
  predicate Erases(params: seq<byte>, final: byte, selector: byte) {
    final == ERASE && QUESTION !in params && params != [] && Split(params)[0] == [selector]
  }

  function SyncAfter(inSync: bool, params: seq<byte>, final: byte): bool {
    if SetsMode(params, final) && NamesSync(params) then final == SET else inSync
  }

  /** ESC 7, cursor home, erase below, ESC 8. */
  const REPAINT: seq<byte> := [ESC, 0x37] + [ESC, LEFT_BRACKET, 0x31, SEMICOLON, 0x31, 0x48]
                              + [ESC, LEFT_BRACKET, ERASE] + [ESC, 0x38]

  function Rewrite(inSync: bool, params: seq<byte>, final: byte): seq<byte> {
    if inSync && !SetsMode(params, final) && Erases(params, final, 0x33) then []
    else if inSync && !SetsMode(params, final) && Erases(params, final, 0x32) then REPAINT
    else EmitCsi(params, final)
  }

  // ---------- one byte ----------

  function Feed(f: Filter, b: byte): (Filter, seq<byte>) {
    match f.mode
    case Ground => if b == ESC then (f.(mode := Esc), []) else (f, [b])
    case Esc => if b == LEFT_BRACKET then (f.(mode := Csi, csi := []), []) else (f.(mode := Ground), [ESC, b])
    case Csi =>
      if IsFinal(b) then
        (Filter(Ground, [], SyncAfter(f.inSync, f.csi, b)), Rewrite(f.inSync, f.csi, b))
      else if IsParam(b) && |f.csi| + 1 <= MAX_PARAMS then
        (f.(csi := f.csi + [b]), [])
      else if IsParam(b) then
        (f.(mode := Ground, csi := []), [ESC, LEFT_BRACKET] + (f.csi + [b]) + [b])
      else
        (f.(mode := Ground, csi := []), [ESC, LEFT_BRACKET] + f.csi + [b])
  }

  function After(f: Filter, input: seq<byte>): Filter {
    if input == [] then f else Feed(After(f, input[..|input| - 1]), input[|input| - 1]).0
  }

  function Output(f: Filter, input: seq<byte>): seq<byte> {
    if input == [] then []
    else
      var n := |input| - 1;
      Output(f, input[..n]) + Feed(After(f, input[..n]), input[n]).1
  }

  lemma {:induction false} Concat(f: Filter, a: seq<byte>, b: seq<byte>)
    ensures After(f, a + b) == After(After(f, a), b)
    ensures Output(f, a + b) == Output(f, a) + Output(After(f, a), b)
  {
    if b == [] {
      assert a + b == a;
    } else {
      var n := |b| - 1;
      assert (a + b)[..|a| + n] == a + b[..n];
      Concat(f, a, b[..n]);
      hide Feed;
      Associate(Output(f, a), Output(After(f, a), b[..n]), Feed(After(After(f, a), b[..n]), b[n]).1);
    }
  }

  /** The shortcut for plain chunks gives what the byte loop would give. */
  lemma {:induction false} PlainPasses(f: Filter, input: seq<byte>)
    requires f.mode == Ground && ESC !in input
    ensures After(f, input) == f && Output(f, input) == input
  {
    if input != [] {
      var n := |input| - 1;
      PlainPasses(f, input[..n]);
      assert input[n] in input && input[..n] + [input[n]] == input;
    }
  }

  // ---------- conservation outside synchronized updates ----------

  /** What the filter has read but not yet passed on. */
  function Held(f: Filter): seq<byte> {
    match f.mode
    case Ground => []
    case Esc => [ESC]
    case Csi => [ESC, LEFT_BRACKET] + f.csi
  }

  /** The byte that makes a control sequence longer than 64 parameter bytes. */
  predicate Overflows(f: Filter, b: byte) {
    f.mode == Csi && IsParam(b) && |f.csi| == MAX_PARAMS
  }

  ghost predicate Inv(f: Filter) {
    |f.csi| <= MAX_PARAMS
  }

  function OverflowCount(f: Filter, input: seq<byte>): nat {
    if input == [] then 0
    else
      var n := |input| - 1;
      OverflowCount(f, input[..n]) + (if Overflows(After(f, input[..n]), input[n]) then 1 else 0)
  }

  /** No synchronized update is open at any byte of the input. */
  ghost predicate NeverSyncs(f: Filter, input: seq<byte>) {
    forall n :: 0 <= n <= |input| ==> !After(f, input[..n]).inSync
  }

  lemma FeedConserves(f: Filter, b: byte)
    requires Inv(f) && !f.inSync
    ensures Inv(Feed(f, b).0)
    ensures Feed(f, b).1 + Held(Feed(f, b).0) == Held(f) + [b] + (if Overflows(f, b) then [b] else [])
  {
    hide SyncAfter, Erases;
  }

  lemma {:induction false} RunConserves(f: Filter, input: seq<byte>)
    requires Inv(f) && NeverSyncs(f, input)
    ensures Inv(After(f, input))
    ensures |Output(f, input)| + |Held(After(f, input))| == |Held(f)| + |input| + OverflowCount(f, input)
    ensures OverflowCount(f, input) == 0 ==> Output(f, input) + Held(After(f, input)) == Held(f) + input
  {
    hide Feed, Held, Overflows;
    assert input[..|input|] == input;
    if input == [] {
      assert Held(f) + [] == Held(f) && [] + Held(f) == Held(f);
    } else {
      var n := |input| - 1;
      NeverSyncsPrefix(f, input);
      RunConserves(f, input[..n]);
      var g := After(f, input[..n]);
      FeedConserves(g, input[n]);
      JoinRun(Output(f, input[..n]), Feed(g, input[n]).1, Held(Feed(g, input[n]).0), Held(g), Held(f), input,
        if Overflows(g, input[n]) then [input[n]] else []);
    }
  }

  lemma NeverSyncsPrefix(f: Filter, input: seq<byte>)
    requires input != [] && NeverSyncs(f, input)
    ensures NeverSyncs(f, input[..|input| - 1]) && !After(f, input[..|input| - 1]).inSync
  {
    var early := input[..|input| - 1];
    forall n | 0 <= n <= |early| ensures !After(f, early[..n]).inSync {
      assert early[..n] == input[..n];
    }
  }

  lemma JoinRun(out: seq<byte>, step: seq<byte>, held': seq<byte>, held: seq<byte>, start: seq<byte>, input: seq<byte>,
                extra: seq<byte>)
    requires input != [] && step + held' == held + [input[|input| - 1]] + extra
    ensures |step| + |held'| == |held| + 1 + |extra|
    ensures extra == [] && out + held == start + input[..|input| - 1] ==> out + step + held' == start + input
  {
    if extra == [] && out + held == start + input[..|input| - 1] {
      var last := [input[|input| - 1]];
      assert input[..|input| - 1] + last == input;
      Associate(out, step, held');
      Associate(out, held, last);
      Associate(start, input[..|input| - 1], last);
      assert held + last + [] == held + last;
    }
  }

  /**
   While no synchronized update is open, the filter passes on exactly what it
   reads, apart from an unfinished sequence it still holds, if and only if no
   control sequence reaches a 65th parameter byte; each time one does, exactly
   one byte too many comes out.
   */
  lemma PassesUnchangedIff(f: Filter, input: seq<byte>)
    requires Inv(f) && NeverSyncs(f, input)
    ensures Output(f, input) + Held(After(f, input)) == Held(f) + input <==> OverflowCount(f, input) == 0
  {
    hide Output, After, Held, OverflowCount;
    RunConserves(f, input);
  }

  lemma OverflowFeed(early: seq<byte>, last: byte)
    requires |early| == MAX_PARAMS && IsParam(last)
    ensures Feed(Fresh, ESC) == (Filter(Esc, [], false), [])
    ensures Feed(Filter(Esc, [], false), LEFT_BRACKET) == (Filter(Csi, [], false), [])
    ensures Feed(Filter(Csi, early, false), last) == (Fresh, [ESC, LEFT_BRACKET] + (early + [last]) + [last])
  {}

  /** A control sequence with a 65th parameter byte comes out with that byte doubled. */
  lemma OverlongDoublesByte(params: seq<byte>)
    requires |params| == MAX_PARAMS + 1 && forall i :: 0 <= i < |params| ==> IsParam(params[i])
    ensures Output(Fresh, [ESC, LEFT_BRACKET] + params) == [ESC, LEFT_BRACKET] + params + [params[MAX_PARAMS]]
  {
    hide After, Output, Feed;
    var open, early, last := [ESC, LEFT_BRACKET], params[..MAX_PARAMS], params[MAX_PARAMS];
    var g := Filter(Csi, [], false);
    assert early + [last] == params;
    OverflowFeed(early, last);
    Two(Fresh, ESC, LEFT_BRACKET);
    ParamsCollect(g, early);
    One(g.(csi := early), last);
    Concat(Fresh, open, early);
    Concat(Fresh, open + early, [last]);
    Associate(open, early, [last]);
  }

  // ---------- what a whole frame becomes ----------

  /**
   The units of every stream: a byte, a two-byte escape, a control sequence,
   one broken off by a byte that cannot belong to it, and one broken off by its
   65th parameter byte.
   */
  datatype Token =
    | Char(b: byte)
    | Escape(b: byte)
    | Control(params: seq<byte>, final: byte)
    | Aborted(params: seq<byte>, b: byte)
    | Overlong(params: seq<byte>, b: byte)

  ghost predicate AllParams(params: seq<byte>) {
    |params| <= MAX_PARAMS && forall i :: 0 <= i < |params| ==> IsParam(params[i])
  }

  ghost predicate WellFormed(t: Token) {
    match t
    case Char(b) => b != ESC
    case Escape(b) => b != LEFT_BRACKET
    case Control(params, final) => AllParams(params) && IsFinal(final)
    case Aborted(params, b) => AllParams(params) && !IsParam(b) && !IsFinal(b)
    case Overlong(params, b) => AllParams(params) && |params| == MAX_PARAMS && IsParam(b)
  }

  function Encode(t: Token): seq<byte> {
    match t
    case Char(b) => [b]
    case Escape(b) => [ESC, b]
    case Control(params, final) => EmitCsi(params, final)
    case Aborted(params, b) => EmitCsi(params, b)
    case Overlong(params, b) => EmitCsi(params, b)
  }

  function EncodeAll(tokens: seq<Token>): seq<byte> {
    if tokens == [] then [] else EncodeAll(tokens[..|tokens| - 1]) + Encode(tokens[|tokens| - 1])
  }

  function SyncAfterToken(inSync: bool, t: Token): bool {
    if t.Control? then SyncAfter(inSync, t.params, t.final) else inSync
  }

  /** Only an erase inside a synchronized update is rewritten, and only a 65th parameter byte comes out twice. */
  function RewriteToken(inSync: bool, t: Token): seq<byte> {
    match t
    case Control(params, final) => Rewrite(inSync, params, final)
    case Overlong(_, b) => Encode(t) + [b]
    case _ => Encode(t)
  }

  function SyncAfterAll(inSync: bool, tokens: seq<Token>): bool {
    if tokens == [] then inSync
    else SyncAfterToken(SyncAfterAll(inSync, tokens[..|tokens| - 1]), tokens[|tokens| - 1])
  }

  function RewriteAll(inSync: bool, tokens: seq<Token>): seq<byte> {
    if tokens == [] then []
    else
      var n := |tokens| - 1;
      RewriteAll(inSync, tokens[..n]) + RewriteToken(SyncAfterAll(inSync, tokens[..n]), tokens[n])
  }

  lemma {:induction false} ParamsCollect(f: Filter, params: seq<byte>)
    requires f.mode == Csi && f.csi == [] && |params| <= MAX_PARAMS
    requires forall i :: 0 <= i < |params| ==> IsParam(params[i])
    ensures After(f, params) == f.(csi := params) && Output(f, params) == []
  {
    if params != [] {
      var n := |params| - 1;
      ParamsCollect(f, params[..n]);
      assert params[..n] + [params[n]] == params;
    }
  }

  lemma Two(f: Filter, a: byte, b: byte)
    ensures var g := Feed(f, a).0;
            After(f, [a, b]) == Feed(g, b).0 && Output(f, [a, b]) == Feed(f, a).1 + Feed(g, b).1
  {
    hide Feed;
    assert [a, b][..1] == [a] && [a][..0] == [];
    assert After(f, []) == f && Output(f, []) == [];
    assert [] + Feed(f, a).1 == Feed(f, a).1;
  }

  lemma One(f: Filter, a: byte)
    ensures After(f, [a]) == Feed(f, a).0 && Output(f, [a]) == Feed(f, a).1
  {
    hide Feed;
    assert [a][..0] == [] && After(f, []) == f && [] + Feed(f, a).1 == Feed(f, a).1;
  }

  lemma OpenPasses(inSync: bool, params: seq<byte>)
    requires AllParams(params)
    ensures var f := Filter(Ground, [], inSync);
            && After(f, [ESC, LEFT_BRACKET] + params) == Filter(Csi, params, inSync)
            && Output(f, [ESC, LEFT_BRACKET] + params) == []
  {
    hide After, Output, AllParams;
    var f, g := Filter(Ground, [], inSync), Filter(Csi, [], inSync);
    Two(f, ESC, LEFT_BRACKET);
    CollectAll(g, params);
    Concat(f, [ESC, LEFT_BRACKET], params);
  }

  lemma CollectAll(f: Filter, params: seq<byte>)
    requires f.mode == Csi && f.csi == [] && AllParams(params)
    ensures After(f, params) == f.(csi := params) && Output(f, params) == []
  {
    ParamsCollect(f, params);
  }

  lemma LastByte(inSync: bool, t: Token)
    requires WellFormed(t) && (t.Control? || t.Aborted? || t.Overlong?)
    ensures var b := if t.Control? then t.final else t.b;
            && Encode(t) == [ESC, LEFT_BRACKET] + t.params + [b]
            && Feed(Filter(Csi, t.params, inSync), b)
               == (Filter(Ground, [], SyncAfterToken(inSync, t)), RewriteToken(inSync, t))
  {
    hide SyncAfter, Rewrite;
    if t.Overlong? {
      Associate([ESC, LEFT_BRACKET], t.params, [t.b]);
    }
  }

  lemma SequencePasses(inSync: bool, t: Token)
    requires WellFormed(t) && !t.Char? && !t.Escape?
    ensures var f := Filter(Ground, [], inSync);
            && After(f, Encode(t)) == f.(inSync := SyncAfterToken(inSync, t))
            && Output(f, Encode(t)) == RewriteToken(inSync, t)
  {
    var b := if t.Control? then t.final else t.b;
    LastByte(inSync, t);
    OpenPasses(inSync, t.params);
    hide After, Output, Feed, Encode, RewriteToken, SyncAfterToken, WellFormed;
    One(Filter(Csi, t.params, inSync), b);
    Concat(Filter(Ground, [], inSync), [ESC, LEFT_BRACKET] + t.params, [b]);
  }

  lemma TokenPasses(inSync: bool, t: Token)
    requires WellFormed(t)
    ensures var f := Filter(Ground, [], inSync);
            && After(f, Encode(t)) == f.(inSync := SyncAfterToken(inSync, t))
            && Output(f, Encode(t)) == RewriteToken(inSync, t)
  {
    hide After, Output;
    var f := Filter(Ground, [], inSync);
    if t.Char? {
      One(f, t.b);
    } else if t.Escape? {
      Two(f, ESC, t.b);
    } else {
      SequencePasses(inSync, t);
    }
  }

  lemma Nothing(f: Filter)
    ensures After(f, []) == f && Output(f, []) == []
  {}

  ghost predicate AllWellFormed(tokens: seq<Token>) {
    forall i :: 0 <= i < |tokens| ==> WellFormed(tokens[i])
  }

  /**
   A stream comes out token by token unchanged, except that inside a
   synchronized update a full erase becomes a repaint from the top-left corner
   and a scrollback erase disappears, and that anywhere a 65th parameter byte
   is doubled.
   */
  lemma {:induction false} FrameIsRewritten(inSync: bool, tokens: seq<Token>)
    requires AllWellFormed(tokens)
    ensures var f := Filter(Ground, [], inSync);
            && After(f, EncodeAll(tokens)) == f.(inSync := SyncAfterAll(inSync, tokens))
            && Output(f, EncodeAll(tokens)) == RewriteAll(inSync, tokens)
  {
    hide After, Output, RewriteToken, SyncAfterToken, WellFormed, Encode;
    if tokens == [] {
      Nothing(Filter(Ground, [], inSync));
    } else {
      var n := |tokens| - 1;
      FrameIsRewritten(inSync, tokens[..n]);
      TokenPasses(SyncAfterAll(inSync, tokens[..n]), tokens[n]);
      Concat(Filter(Ground, [], inSync), EncodeAll(tokens[..n]), Encode(tokens[n]));
    }
  }

  /** The filter in the middle of a unit of which `Held` is what was read. */
  ghost predicate MidToken(f: Filter) {
    (f.mode == Csi ==> AllParams(f.csi)) && (f.mode != Csi ==> f.csi == [])
  }

  /** One more byte lengthens what is held or completes it to a token. */
  lemma NextByte(f: Filter, b: byte) returns (done: seq<Token>)
    requires MidToken(f)
    ensures AllWellFormed(done) && |done| <= 1 && MidToken(Feed(f, b).0)
    ensures Held(f) + [b] == (if done == [] then [] else Encode(done[0])) + Held(Feed(f, b).0)
  {
    hide SyncAfter, Rewrite;
    done := [];
    match f.mode
    case Ground => if b != ESC { done := [Char(b)]; }
    case Esc => if b != LEFT_BRACKET { done := [Escape(b)]; }
    case Csi =>
      if IsFinal(b) {
        done := [Control(f.csi, b)];
      } else if !IsParam(b) {
        done := [Aborted(f.csi, b)];
      } else if |f.csi| == MAX_PARAMS {
        done := [Overlong(f.csi, b)];
      } else {
        Associate([ESC, LEFT_BRACKET], f.csi, [b]);
      }
  }

  lemma JoinToken(input: seq<byte>, early: seq<Token>, held: seq<byte>, done: seq<Token>, rest: seq<byte>)
    requires input != [] && input[..|input| - 1] == EncodeAll(early) + held && |done| <= 1
    requires held + [input[|input| - 1]] == (if done == [] then [] else Encode(done[0])) + rest
    ensures input == EncodeAll(early + done) + rest
  {
    hide Encode;
    var b := input[|input| - 1];
    assert input == input[..|input| - 1] + [b];
    Associate(EncodeAll(early), held, [b]);
    if done == [] {
      assert early + done == early && [] + rest == rest;
    } else {
      assert (early + done)[..|early|] == early;
      Associate(EncodeAll(early), Encode(done[0]), rest);
    }
  }

  lemma {:induction false} Tokenize(inSync: bool, input: seq<byte>) returns (tokens: seq<Token>)
    ensures var f := After(Filter(Ground, [], inSync), input);
            AllWellFormed(tokens) && MidToken(f) && input == EncodeAll(tokens) + Held(f)
  {
    tokens := [];
    if input != [] {
      hide Feed, Encode, Held, WellFormed, MidToken;
      var n := |input| - 1;
      var early := Tokenize(inSync, input[..n]);
      var f := After(Filter(Ground, [], inSync), input[..n]);
      var done := NextByte(f, input[n]);
      JoinToken(input, early, Held(f), done, Held(Feed(f, input[n]).0));
      tokens := early + done;
    }
  }

  lemma HeldPasses(inSync: bool, g: Filter)
    requires MidToken(g)
    ensures After(Filter(Ground, [], inSync), Held(g)) == g.(inSync := inSync)
    ensures Output(Filter(Ground, [], inSync), Held(g)) == []
  {
    match g.mode
    case Ground => Nothing(Filter(Ground, [], inSync));
    case Esc => One(Filter(Ground, [], inSync), ESC);
    case Csi => OpenPasses(inSync, g.csi);
  }

  /**
   So for every byte stream, inside and outside synchronized updates: it is made
   of such tokens and what the filter still holds, and the output is exactly
   the tokens rewritten one by one.
   */
  lemma EveryStreamIsRewritten(inSync: bool, input: seq<byte>) returns (tokens: seq<Token>)
    ensures AllWellFormed(tokens)
    ensures var f := Filter(Ground, [], inSync);
            && input == EncodeAll(tokens) + Held(After(f, input))
            && Output(f, input) == RewriteAll(inSync, tokens)
            && After(f, input).inSync == SyncAfterAll(inSync, tokens)
  {
    hide After, Output, WellFormed, Held, MidToken;
    var f := Filter(Ground, [], inSync);
    tokens := Tokenize(inSync, input);
    var held := Held(After(f, input));
    FrameIsRewritten(inSync, tokens);
    HeldPasses(SyncAfterAll(inSync, tokens), After(f, input));
    Concat(f, EncodeAll(tokens), held);
    assert RewriteAll(inSync, tokens) + [] == RewriteAll(inSync, tokens);
  }

  // ---------- which sequences open an update or erase ----------

  /** The first field of the parameters is the single byte `d`. */
  predicate Leads(params: seq<byte>, d: byte) {
    params != [] && params[0] == d && (|params| == 1 || params[1] == ';' as int)
  }

  lemma FirstFieldIs(params: seq<byte>, d: byte)
    requires d != SEMICOLON
    ensures Split(params)[0] == [d] <==> Leads(params, d)
  {
    if params != [] && params[0] != SEMICOLON {
      var rest := Split(params[1..]);
      assert Split(params)[0] == [params[0]] + rest[0];
      assert rest[0] == [] ==> Split(params)[0] == [params[0]];
      assert rest[0] != [] ==> |Split(params)[0]| > 1;
      assert Split(params[1..])[0] == [] <==> params[1..] == [] || params[1..][0] == SEMICOLON;
      assert |params| > 1 ==> params[1..][0] == params[1];
    }
  }

  /**
   Inside an update CSI J is touched exactly when its first parameter is 2 or 3
   and no question mark occurs: 3 disappears, 2 becomes save cursor, home, erase
   below, restore cursor. Everything else, and everything outside an update,
   comes out as it went in.
   */
  lemma RewriteIff(inSync: bool, params: seq<byte>, final: byte)
    ensures var erase := inSync && final == 'J' as int && '?' as int !in params;
            Rewrite(inSync, params, final)
            == if erase && Leads(params, '3' as int) then []
               else if erase && Leads(params, '2' as int)
               then [0x1b, 0x37, 0x1b, 0x5b, 0x31, 0x3b, 0x31, 0x48, 0x1b, 0x5b, 0x4a, 0x1b, 0x38]
               else [0x1b, 0x5b] + params + [final]
  {
    FirstFieldIs(params, 0x32);
    FirstFieldIs(params, 0x33);
    hide Split;
    assert REPAINT == [0x1b, 0x37, 0x1b, 0x5b, 0x31, 0x3b, 0x31, 0x48, 0x1b, 0x5b, 0x4a, 0x1b, 0x38];
  }

  /**
   A control sequence is ESC [, at most 64 bytes from blank to question mark and
   a byte from at sign to tilde; it comes out rewritten as a whole. Broken off
   by any other byte it comes out as it went in.
   */
  lemma ControlSequence(inSync: bool, params: seq<byte>, last: byte)
    requires |params| <= 64 && forall i :: 0 <= i < |params| ==> ' ' <= params[i] as char <= '?'
    requires last as char < ' ' || last as char > '?'
    ensures Output(Filter(Ground, [], inSync), [0x1b, 0x5b] + params + [last])
         == if '@' <= last as char <= '~' then Rewrite(inSync, params, last) else [0x1b, 0x5b] + params + [last]
  {
    ByteClasses(last);
    forall i | 0 <= i < |params| ensures IsParam(params[i]) { ByteClasses(params[i]); }
    hide Output, After, Rewrite, IsParam, IsFinal, Feed;
    var t := if IsFinal(last) then Control(params, last) else Aborted(params, last);
    SequencePasses(inSync, t);
  }

  lemma ByteClasses(b: byte)
    ensures IsParam(b) <==> ' ' <= b as char <= '?'
    ensures IsFinal(b) <==> '@' <= b as char <= '~'
  {}

  function Join(fields: seq<seq<byte>>): seq<byte>
    requires fields != []
  {
    if |fields| == 1 then fields[0] else fields[0] + [0x3b] + Join(fields[1..])
  }

  lemma {:induction false} SplitField(field: seq<byte>, rest: seq<byte>)
    requires SEMICOLON !in field
    ensures Split(field) == [field] && Split(field + [SEMICOLON] + rest) == [field] + Split(rest)
  {
    if field == [] {
      assert (field + [SEMICOLON] + rest)[1..] == rest;
    } else {
      SplitField(field[1..], rest);
      assert (field + [SEMICOLON] + rest)[1..] == field[1..] + [SEMICOLON] + rest;
      assert field == [field[0]] + field[1..];
    }
  }

  lemma {:induction false} SplitJoin(fields: seq<seq<byte>>)
    requires fields != [] && forall i :: 0 <= i < |fields| ==> SEMICOLON !in fields[i]
    ensures Split(Join(fields)) == fields
  {
    hide Split;
    if |fields| == 1 {
      SplitField(fields[0], []);
    } else {
      SplitJoin(fields[1..]);
      SplitField(fields[0], Join(fields[1..]));
    }
  }

  function Spaces(n: nat): seq<byte> {
    if n == 0 then [] else [0x20] + Spaces(n - 1)
  }

  lemma {:induction false} SpacesSnoc(n: nat)
    ensures Spaces(n + 1) == Spaces(n) + [0x20]
  {
    if n > 0 { SpacesSnoc(n - 1); }
  }

  /** The field is 2026 between spaces. */
  ghost predicate Is2026(field: seq<byte>) {
    exists a: nat, b: nat :: field == Spaces(a) + [0x32, 0x30, 0x32, 0x36] + Spaces(b)
  }

  lemma TrimStep(s: seq<byte>)
    ensures Trim(s) == if s != [] && s[0] == SPACE then Trim(s[1..])
                       else if s != [] && s[|s| - 1] == SPACE then Trim(s[..|s| - 1]) else s
  {}

  lemma {:induction false} TrimSplits(s: seq<byte>) returns (a: nat, b: nat)
    ensures s == Spaces(a) + Trim(s) + Spaces(b)
    decreases |s|
  {
    hide Trim, Spaces;
    TrimStep(s);
    if s != [] && s[0] == SPACE {
      a, b := TrimSplits(s[1..]);
      assert s == [SPACE] + s[1..];
      PadFront(s[1..], a, Trim(s), b);
      a := a + 1;
    } else if s != [] && s[|s| - 1] == SPACE {
      var n := |s| - 1;
      a, b := TrimSplits(s[..n]);
      assert s == s[..n] + [SPACE];
      PadBack(s[..n], a, Trim(s), b);
      b := b + 1;
    } else {
      a, b := 0, 0;
      NoPad(s);
    }
  }

  lemma NoPad(s: seq<byte>)
    ensures s == Spaces(0) + s + Spaces(0)
  {}

  lemma PadFront(s: seq<byte>, a: nat, t: seq<byte>, b: nat)
    requires s == Spaces(a) + t + Spaces(b)
    ensures [SPACE] + s == Spaces(a + 1) + t + Spaces(b)
  {
    var pad, tail := Spaces(a), Spaces(b);
    assert Spaces(a + 1) == [SPACE] + pad;
    hide Spaces;
    assert [SPACE] + (pad + t + tail) == [SPACE] + pad + t + tail;
  }

  lemma PadBack(s: seq<byte>, a: nat, t: seq<byte>, b: nat)
    requires s == Spaces(a) + t + Spaces(b)
    ensures s + [SPACE] == Spaces(a) + t + Spaces(b + 1)
  {
    SpacesSnoc(b);
    hide Spaces;
    Associate(Spaces(a) + t, Spaces(b), [SPACE]);
  }

  lemma {:induction false} TrimPadded(a: nat, b: nat)
    ensures Trim(Spaces(a) + SYNC_MODE + Spaces(b)) == SYNC_MODE
    decreases a, b
  {
    var s := Spaces(a) + SYNC_MODE + Spaces(b);
    if a > 0 {
      TrimPadded(a - 1, b);
      var rest := Spaces(a - 1) + SYNC_MODE + Spaces(b);
      PadFront(rest, a - 1, SYNC_MODE, b);
      assert s[0] == SPACE && s[1..] == rest;
    } else if b > 0 {
      TrimPadded(0, b - 1);
      var rest := Spaces(0) + SYNC_MODE + Spaces(b - 1);
      PadBack(rest, 0, SYNC_MODE, b - 1);
      assert s == rest + [SPACE] && s[..|s| - 1] == rest && s[0] == 0x32;
    } else {
      assert s == SYNC_MODE;
    }
  }

  lemma TrimIff(field: seq<byte>)
    ensures Trim(field) == SYNC_MODE <==> Is2026(field)
  {
    if Trim(field) == SYNC_MODE {
      var a, b := TrimSplits(field);
    }
    if a: nat, b: nat :| field == Spaces(a) + [0x32, 0x30, 0x32, 0x36] + Spaces(b) {
      TrimPadded(a, b);
    }
  }

  /**
   An update opens with CSI ? ... h and closes with CSI ? ... l when one of the
   fields is 2026; any other sequence leaves it as it is.
   */
  lemma UpdateSwitchesIff(inSync: bool, fields: seq<seq<byte>>, final: byte)
    requires fields != [] && forall i :: 0 <= i < |fields| ==> SEMICOLON !in fields[i]
    ensures var named := exists i :: 0 <= i < |fields| && Is2026(fields[i]);
            SyncAfter(inSync, ['?' as int] + Join(fields), final)
            == if named && final == 'h' as int then true else if named && final == 'l' as int then false else inSync
  {
    hide Trim, Is2026, Split;
    SplitJoin(fields);
    var params: seq<byte> := ['?' as int] + Join(fields);
    assert params[1..] == Join(fields);
    forall i | 0 <= i < |fields| ensures Trim(fields[i]) == SYNC_MODE <==> Is2026(fields[i]) { TrimIff(fields[i]); }
  }

  lemma OtherSequencesKeepUpdate(inSync: bool, params: seq<byte>, final: byte)
    requires params == [] || params[0] != '?' as int
    ensures SyncAfter(inSync, params, final) == inSync
  {}

  // ---------- the filter object ----------

  class SyncClearFilter {
    var mode: Mode
    var csi: seq<byte>
    var inSync: bool

    ghost function View(): Filter
      reads this
    {
      Filter(mode, csi, inSync)
    }

    constructor ()
      ensures View() == Fresh
    {
      mode, csi, inSync := Ground, [], false;
    }

    method Reset()
      modifies this
      ensures View() == Fresh
    {
      mode, csi, inSync := Ground, [], false;
    }

    method HandleCsi(params: seq<byte>, final: byte) returns (out: seq<byte>)
      modifies this`inSync
      ensures out == Rewrite(old(inSync), params, final) && inSync == SyncAfter(old(inSync), params, final)
    {
      if SetsMode(params, final) {
        if NamesSync(params) {
          inSync := final == SET;
        }
        return EmitCsi(params, final);
      }
      if inSync && Erases(params, final, 0x33) { return []; }
      if inSync && Erases(params, final, 0x32) { return REPAINT; }
      return EmitCsi(params, final);
    }

    method FeedByte(b: byte) returns (out: seq<byte>)
      modifies this
      ensures (View(), out) == Feed(old(View()), b)
    {
      out := [];
      match mode {
        case Ground =>
          if b == ESC { mode := Esc; } else { out := [b]; }
        case Esc =>
          if b == LEFT_BRACKET {
            mode := Csi;
            csi := [];
          } else {
            out := [ESC, b];
            mode := Ground;
          }
        case Csi =>
          if IsFinal(b) {
            var params := csi;
            mode := Ground;
            csi := [];
            out := HandleCsi(params, b);
          } else if IsParam(b) {
            csi := csi + [b];
            if |csi| > MAX_PARAMS {
              out := [ESC, LEFT_BRACKET] + csi + [b];
              mode := Ground;
              csi := [];
            }
          } else {
            out := [ESC, LEFT_BRACKET] + csi + [b];
            mode := Ground;
            csi := [];
          }
      }
    }

    method Push(input: seq<byte>) returns (out: seq<byte>)
      modifies this
      ensures View() == After(old(View()), input) && out == Output(old(View()), input)
    {
      hide Feed;
      if !inSync && mode == Ground && ESC !in input {
        PlainPasses(View(), input);
        return input;
      }
      out := [];
      for i := 0 to |input|
        invariant View() == After(old(View()), input[..i])
        invariant out == Output(old(View()), input[..i])
      {
        assert input[..i + 1][..i] == input[..i];
        var more := FeedByte(input[i]);
        out := out + more;
      }
      assert input[..|input|] == input;
    }
  }
}
