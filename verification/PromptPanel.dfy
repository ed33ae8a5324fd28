/**
 The session input box: every key goes to the shell, printable keys are shown
 at once as a prediction, and each look at the shell's own input line
 reconciles the prediction with what was echoed.
 */
module PromptPanel {
  import opened Common
  import opened Text

  datatype KeyEvent = KeyEvent(key: string, meta: bool, ctrl: bool, alt: bool, composing: bool)

  datatype Panel = Panel(
    mirrorRef: string, mirror: string, pending: string, base: string, mismatches: nat, uncover: bool,
    localCmd: Option<string>, misses: nat, forwarded: nat, lastEdit: bool,
    submitted: seq<string>, sent: seq<string>)

  const Initial := Panel("", "", "", "", 0, false, None, 0, 0, false, [], [])

  /** The text in the box. */
  function Shown(p: Panel): string {
    if p.localCmd.Some? then p.localCmd.value else if p.uncover then "" else p.mirror + p.pending
  }

  // ---------- keys ----------

  function LowerLetter(key: string): Option<char> {
    if |key| != 1 then None
    else if 'a' <= key[0] <= 'z' then Some(key[0])
    else if 'A' <= key[0] <= 'Z' then Some((key[0] as int - 'A' as int + 'a' as int) as char)
    else None
  }

  /** The characters written to the PTY for a key, if any. */
  function EncodeKey(e: KeyEvent): Option<string> {
    if e.composing || e.meta then None
    else if e.ctrl && !e.alt then
      var letter := LowerLetter(e.key);
      if letter.Some? then Some([(letter.value as int - 96) as char])
      else if e.key == "Enter" then Some("\n")
      else None
    else if e.key == "Enter" then Some("\r")
    else if e.key == "Backspace" then Some("\U{7f}")
    else if e.key == "Tab" then Some("\t")
    else if e.key == "Escape" then Some("\U{1b}")
    else if e.key == "ArrowUp" then Some("\U{1b}[A")
    else if e.key == "ArrowDown" then Some("\U{1b}[B")
    else if e.key == "ArrowRight" then Some("\U{1b}[C")
    else if e.key == "ArrowLeft" then Some("\U{1b}[D")
    else if e.key == "Home" then Some("\U{1b}[H")
    else if e.key == "End" then Some("\U{1b}[F")
    else if e.key == "Delete" then Some("\U{1b}[3~")
    else if e.key == "PageUp" then Some("\U{1b}[5~")
    else if e.key == "PageDown" then Some("\U{1b}[6~")
    else if |e.key| == 1 then Some(e.key)
    else None
  }

  predicate IsEdit(key: string) {
    |key| == 1 || key == "Backspace" || key == "Tab" || key == "Delete"
  }

  function Chop(s: string): string {
    if s == "" then "" else s[..|s| - 1]
  }

  function RunLocal(p: Panel, cmd: string): Panel {
    if cmd == "/clear" then p.(submitted := p.submitted + ["clear"], sent := p.sent + ["clear\n"]) else p
  }

  /** Slash-command mode; the flag says whether the key was consumed. */
  function LocalKey(p: Panel, e: KeyEvent): (Panel, bool) {
    if p.localCmd.None? then
      if e.key == "/" && !e.meta && !e.ctrl && !e.alt && p.mirrorRef == "" && p.pending == ""
      then (p.(localCmd := Some("/")), true)
      else (p, false)
    else
      var current := p.localCmd.value;
      if e.meta || e.ctrl then (p, false)
      else if e.key == "Escape" then (p.(localCmd := None), true)
      else if e.key == "Backspace" then
        (p.(localCmd := if Chop(current) == "" then None else Some(Chop(current))), true)
      else if e.key == "Enter" then (RunLocal(p.(localCmd := None), Trim(current, JsSpace)), true)
      else if |e.key| == 1 && !e.alt then (p.(localCmd := Some(current + e.key)), true)
      else (p, true)
  }

  function Predict(p: Panel, e: KeyEvent): Panel {
    if p.uncover || e.meta || e.ctrl || e.alt then p
    else if |e.key| == 1 then
      p.(base := if p.pending == "" then p.mirrorRef else p.base, pending := p.pending + e.key)
    else if e.key == "Backspace" then p.(pending := Chop(p.pending))
    else
      p.(submitted := if e.key == "Enter" then p.submitted + [p.mirrorRef + p.pending] else p.submitted,
         pending := "", base := p.mirrorRef)
  }

  function Forward(p: Panel, data: string, edit: bool): Panel {
    p.(forwarded := p.forwarded + 1, lastEdit := edit, sent := p.sent + [data])
  }

  function KeyDown(p: Panel, e: KeyEvent): Panel {
    var (q, consumed) := LocalKey(p, e);
    if consumed then q
    else
      var data := EncodeKey(e);
      if data.None? then q else Forward(Predict(q, e), data.value, IsEdit(e.key))
  }

  // ---------- looking at the shell's line ----------

  /** The line extends the base by a prefix of the prediction. */
  predicate Confirms(p: Panel, line: string) {
    p.base <= line && line[|p.base|..] <= p.pending
  }

  predicate Freezes(p: Panel, line: string) {
    p.pending != "" && !Confirms(p, line) && p.mismatches < 1
  }

  function Reconcile(p: Panel, line: string): Panel {
    if p.pending == "" then p.(base := line, mismatches := 0)
    else if Confirms(p, line) then
      p.(base := line, mismatches := 0, pending := p.pending[|line| - |p.base|..])
    else if p.mismatches < 1 then p.(mismatches := p.mismatches + 1)
    else p.(base := line, mismatches := 0, pending := "")
  }

  function Tally(p: Panel, line: string): Panel {
    if p.forwarded == 0 then p
    else
      var misses :=
        if !p.lastEdit then 0
        else if |line| == 0 && p.forwarded >= 2 then p.misses + 1
        else if |line| > 0 then 0
        else p.misses;
      var q := p.(misses := misses, forwarded := 0);
      if misses >= 3 then q.(uncover := true, mirror := "") else q
  }

  function Refresh(p: Panel, read: Option<string>): Panel {
    if p.uncover then p.(mirror := "")
    else if read.None? then p.(mirrorRef := "", mirror := "", pending := "", base := "")
    else
      var line := read.value;
      var q := Reconcile(p, line);
      if Freezes(p, line) then q else Tally(q.(mirrorRef := line, mirror := line), line)
  }

  /** Switching the box to another session. The mismatch and forward counters survive. */
  function ChangeSession(p: Panel): Panel {
    p.(mirror := "", mirrorRef := "", pending := "", base := "", uncover := false, localCmd := None,
       misses := 0, lastEdit := false)
  }

  datatype Step = Key(event: KeyEvent) | Look(read: Option<string>) | Switch

  function Apply(p: Panel, step: Step): Panel {
    match step
    case Key(event) => KeyDown(p, event)
    case Look(read) => Refresh(p, read)
    case Switch => ChangeSession(p)
  }

  function Run(steps: seq<Step>): Panel {
    if steps == [] then Initial else Apply(Run(steps[..|steps| - 1]), steps[|steps| - 1])
  }

  // ---------- what every reachable state satisfies ----------

  ghost predicate Inv(p: Panel) {
    && p.base == p.mirrorRef
    && p.mirror == (if p.uncover then "" else p.mirrorRef)
    && p.mismatches <= 1
    && (p.localCmd.Some? ==> p.localCmd.value != "" && p.localCmd.value[0] == '/')
    && p.misses <= 3 && (p.uncover <==> p.misses == 3)
    && (p.uncover ==> p.mirrorRef == "")
  }

  lemma LocalKeepsInv(p: Panel, e: KeyEvent)
    requires Inv(p)
    ensures Inv(LocalKey(p, e).0)
  {
    hide Trim;
  }

  lemma PredictKeepsInv(p: Panel, e: KeyEvent)
    requires Inv(p)
    ensures Inv(Predict(p, e))
  {}

  lemma KeyKeepsInv(p: Panel, e: KeyEvent)
    requires Inv(p)
    ensures Inv(KeyDown(p, e))
  {
    hide EncodeKey, LocalKey, Predict;
    LocalKeepsInv(p, e);
    PredictKeepsInv(LocalKey(p, e).0, e);
  }

  lemma RefreshKeepsInv(p: Panel, read: Option<string>)
    requires Inv(p)
    ensures Inv(Refresh(p, read))
  {
    hide Confirms;
    if !p.uncover && read.Some? {
      var q := Reconcile(p, read.value);
      assert q.mismatches <= 1 && q.misses == p.misses && q.localCmd == p.localCmd;
    }
  }

  /**
   In every reachable state the prediction starts from the mirror, the mirror
   is what is shown, a composed command starts with a slash, and the box is
   uncovered exactly when three misses have been counted.
   */
  lemma {:induction false} Reachable(steps: seq<Step>)
    ensures Inv(Run(steps))
  {
    if steps != [] {
      var n := |steps| - 1;
      Reachable(steps[..n]);
      match steps[n] {
        case Key(event) => KeyKeepsInv(Run(steps[..n]), event);
        case Look(read) => RefreshKeepsInv(Run(steps[..n]), read);
        case Switch =>
      }
    }
  }

  // ---------- reconciliation ----------

  lemma TallyKeepsText(p: Panel, line: string)
    ensures var q := Tally(p, line);
            && q.mirrorRef == p.mirrorRef && q.pending == p.pending && q.base == p.base
            && q.mismatches == p.mismatches && q.localCmd == p.localCmd
            && (line != "" && p.misses < 3 && !p.uncover ==> !q.uncover) && (p.uncover ==> q.uncover)
  {}

  lemma ConfirmedText(base: string, pending: string, line: string)
    requires base <= line && line[|base|..] <= pending
    ensures line + pending[|line| - |base|..] == base + pending
  {
    assert pending == line[|base|..] + pending[|line| - |base|..];
    assert line == base + line[|base|..];
    Associate(base, line[|base|..], pending[|line| - |base|..]);
  }

  /** A look that confirms the prediction moves text from the prediction to the mirror and changes nothing else. */
  lemma ConfirmKeepsText(p: Panel, line: string)
    requires Inv(p) && !p.uncover && Confirms(p, line)
    ensures var q := Refresh(p, Some(line));
            && q.mirrorRef + q.pending == p.mirrorRef + p.pending
            && q.mirrorRef == line && q.mismatches == 0
  {
    hide Tally;
    ConfirmedText(p.base, p.pending, line);
    TallyKeepsText(Reconcile(p, line).(mirrorRef := line, mirror := line), line);
    if p.pending == "" {
      assert line[|p.base|..] == "" && line + "" == line;
    }
  }

  /** The line is mirrored with nothing left to reconcile. */
  ghost predicate Quiet(p: Panel, line: string) {
    Inv(p) && p.mirrorRef == line && p.mismatches == 0 && (p.uncover || p.forwarded == 0)
  }

  lemma QuietIsStable(p: Panel, line: string)
    requires Quiet(p, line)
    ensures Refresh(p, Some(line)) == p
  {
    assert line[|line|..] == "" && p.pending[0..] == p.pending;
  }

  lemma AcceptedLookIsQuiet(p: Panel, line: string)
    requires Inv(p) && !p.uncover && !Freezes(p, line)
    ensures Quiet(Refresh(p, Some(line)), line)
  {
    RefreshKeepsInv(p, Some(line));
  }

  /**
   From any covered state a stable shell line is mirrored within two looks,
   and every look after that changes nothing.
   */
  lemma ConvergesInTwoLooks(p: Panel, line: string)
    requires Inv(p) && !p.uncover
    ensures var q := Refresh(Refresh(p, Some(line)), Some(line));
            q.mirrorRef == line && Refresh(q, Some(line)) == q
  {
    hide Tally;
    var first := Refresh(p, Some(line));
    RefreshKeepsInv(p, Some(line));
    if Freezes(p, line) {
      AcceptedLookIsQuiet(first, line);
      QuietIsStable(Refresh(first, Some(line)), line);
    } else {
      AcceptedLookIsQuiet(p, line);
      QuietIsStable(first, line);
    }
  }

  /** One look is enough exactly when the first read does not contradict the prediction inside its grace. */
  lemma ConvergesAtOnceIff(p: Panel, line: string)
    requires Inv(p) && !p.uncover && p.mirrorRef != line
    ensures Refresh(p, Some(line)).mirrorRef == line <==> !Freezes(p, line)
  {}

  // ---------- an honest shell ----------

  /** A panel beside a shell that echoes the typed characters in order, at its own pace. */
  datatype World = World(panel: Panel, typed: string, echoed: nat, glitched: bool)

  datatype Move = Type(c: char) | Echo | See | Glitch(line: string)

  function Plain(c: char): KeyEvent {
    KeyEvent([c], false, false, false, false)
  }

  /**
   Which moves an honest session makes. A glitch is a read that contradicts
   the prediction, never twice without a true read in between and not with a
   spent grace. The first
   character of an empty line is not a slash, which opens command mode instead.
   */
  ghost predicate Allowed(w: World, start: string, m: Move) {
    match m
    case Type(c) => start + w.typed != "" || c != '/'
    case Echo => w.echoed < |w.typed|
    case See => true
    case Glitch(line) => !w.glitched && w.panel.pending != "" && !Confirms(w.panel, line)
  }

  function Act(w: World, start: string, m: Move): World {
    match m
    case Type(c) => w.(panel := KeyDown(w.panel, Plain(c)), typed := w.typed + [c])
    case Echo => w.(echoed := w.echoed + 1)
    case See =>
      var shown := if w.echoed <= |w.typed| then w.typed[..w.echoed] else w.typed;
      w.(panel := Refresh(w.panel, Some(start + shown)), glitched := false)
    case Glitch(line) => w.(panel := Refresh(w.panel, Some(line)), glitched := true)
  }

  function Play(w: World, start: string, moves: seq<Move>): World {
    if moves == [] then w else Act(Play(w, start, moves[..|moves| - 1]), start, moves[|moves| - 1])
  }

  ghost predicate AllAllowed(w: World, start: string, moves: seq<Move>) {
    forall i :: 0 <= i < |moves| ==> Allowed(Play(w, start, moves[..i]), start, moves[i])
  }

  /** A covered box showing `start` without a prediction, whatever its counters say. */
  ghost predicate Ready(p: Panel, start: string) {
    Inv(p) && p.mirrorRef == start && p.pending == "" && !p.uncover && p.localCmd.None?
  }

  /** Nothing typed yet; a spent grace counts as a glitch just seen. */
  function Begin(p: Panel): World {
    World(p, "", 0, p.mismatches == 1)
  }

  ghost predicate Honest(w: World, start: string) {
    var p := w.panel;
    && Inv(p) && w.echoed <= |w.typed|
    && (start != "" ==> !p.uncover)
    && (!p.uncover ==>
          && p.localCmd.None?
          && p.mismatches == (if w.glitched then 1 else 0)
          && p.mirrorRef + p.pending == start + w.typed
          && |start| <= |p.mirrorRef| <= |start| + w.echoed)
  }

  lemma TypeIsHonest(w: World, start: string, c: char)
    requires Honest(w, start) && Allowed(w, start, Type(c))
    ensures Honest(Act(w, start, Type(c)), start)
  {
    var p := w.panel;
    KeyKeepsInv(p, Plain(c));
    if !p.uncover {
      assert p.mirrorRef == "" && p.pending == "" ==> start + w.typed == "";
      Associate(p.mirrorRef, p.pending, [c]);
      Associate(start, w.typed, [c]);
    }
  }

  /** An honest read confirms whatever part of the prediction it covers. */
  lemma HonestReadConfirms(p: Panel, start: string, typed: string, echoed: nat)
    requires p.base == p.mirrorRef && p.mirrorRef + p.pending == start + typed
    requires echoed <= |typed| && |start| <= |p.mirrorRef| <= |start| + echoed
    ensures Confirms(p, start + typed[..echoed])
  {
    var whole, line := start + typed, start + typed[..echoed];
    assert line == whole[..|line|];
    assert p.base == whole[..|p.base|];
    assert p.pending == whole[|p.base|..];
    assert line[|p.base|..] == whole[|p.base|..|line|];
  }

  lemma SeeIsHonest(w: World, start: string)
    requires Honest(w, start)
    ensures Honest(Act(w, start, See), start)
  {
    hide Tally;
    var p, line := w.panel, start + w.typed[..w.echoed];
    RefreshKeepsInv(p, Some(line));
    if !p.uncover {
      HonestReadConfirms(p, start, w.typed, w.echoed);
      ConfirmKeepsText(p, line);
      TallyKeepsText(Reconcile(p, line).(mirrorRef := line, mirror := line), line);
    }
  }

  lemma GlitchIsHonest(w: World, start: string, line: string)
    requires Honest(w, start) && Allowed(w, start, Glitch(line))
    ensures Honest(Act(w, start, Glitch(line)), start)
  {
    RefreshKeepsInv(w.panel, Some(line));
  }

  lemma {:induction false} PlayIsHonest(w: World, start: string, moves: seq<Move>)
    requires Honest(w, start) && AllAllowed(w, start, moves)
    ensures Honest(Play(w, start, moves), start)
  {
    hide Honest, Allowed;
    if moves != [] {
      var n := |moves| - 1;
      AllowedPrefix(w, start, moves);
      PlayIsHonest(w, start, moves[..n]);
      MoveIsHonest(Play(w, start, moves[..n]), start, moves[n]);
    }
  }

  lemma AllowedPrefix(w: World, start: string, moves: seq<Move>)
    requires moves != [] && AllAllowed(w, start, moves)
    ensures var n := |moves| - 1;
            AllAllowed(w, start, moves[..n]) && Allowed(Play(w, start, moves[..n]), start, moves[n])
  {
    hide Allowed, Play;
    var n := |moves| - 1;
    forall i | 0 <= i < n ensures Allowed(Play(w, start, moves[..n][..i]), start, moves[..n][i]) {
      assert moves[..n][..i] == moves[..i];
    }
  }

  lemma MoveIsHonest(w: World, start: string, m: Move)
    requires Honest(w, start) && Allowed(w, start, m)
    ensures Honest(Act(w, start, m), start)
  {
    match m
    case Type(c) => TypeIsHonest(w, start, c);
    case Echo =>
    case See => SeeIsHonest(w, start);
    case Glitch(line) => GlitchIsHonest(w, start, line);
  }

  /**
   Honest echo: for every interleaving of keys, echoes, looks and isolated
   contradicting reads, a covered box shows the starting line followed by
   everything typed, and Enter records exactly that text. A session whose
   starting line is not empty stays covered.
   */
  lemma HonestEcho(p: Panel, start: string, moves: seq<Move>)
    requires Ready(p, start) && AllAllowed(Begin(p), start, moves)
    ensures var w := Play(Begin(p), start, moves);
            && (start != "" ==> !w.panel.uncover)
            && (!w.panel.uncover ==>
                  && Shown(w.panel) == start + w.typed
                  && KeyDown(w.panel, KeyEvent("Enter", false, false, false, false)).submitted
                     == w.panel.submitted + [start + w.typed])
  {
    hide Play;
    StartIsHonest(p, start);
    PlayIsHonest(Begin(p), start, moves);
  }

  lemma PlaySnoc(w: World, start: string, moves: seq<Move>, m: Move)
    ensures Play(w, start, moves + [m]) == Act(Play(w, start, moves), start, m)
  {
    assert (moves + [m])[..|moves|] == moves;
  }

  const Pair := [Type('l'), Type('s'), See]

  lemma PairPlay(w: World, moves: seq<Move>)
    ensures Play(w, "", moves + Pair) == Act(Act(Act(Play(w, "", moves), "", Type('l')), "", Type('s')), "", See)
  {
    hide Play, Act;
    PlaySnoc(w, "", moves, Type('l'));
    PlaySnoc(w, "", moves + [Type('l')], Type('s'));
    PlaySnoc(w, "", moves + [Type('l')] + [Type('s')], See);
    assert moves + Pair == moves + [Type('l')] + [Type('s')] + [See];
  }

  ghost predicate Blank(w: World, misses: nat) {
    var p := w.panel;
    && p.misses == misses && p.uncover == (misses == 3) && p.localCmd.None?
    && p.mirrorRef == p.base == "" && p.forwarded == 0 && w.echoed == 0
  }

  lemma PairIsOneMiss(w: World, misses: nat)
    requires Blank(w, misses) && misses < 3
    ensures Blank(Act(Act(Act(w, "", Type('l')), "", Type('s')), "", See), misses + 1)
  {
    var v := Act(w, "", Type('l'));
    assert v.panel == Forward(Predict(w.panel, Plain('l')), "l", true);
    var u := Act(v, "", Type('s'));
    assert u.panel == Forward(Predict(v.panel, Plain('s')), "s", true);
    assert "" + u.typed[..0] == "";
    assert Confirms(u.panel, "");
  }

  lemma PlainMovesAllowed(w: World, moves: seq<Move>)
    requires forall m :: m in moves ==> m in Pair
    ensures AllAllowed(w, "", moves)
  {
    hide Play;
    forall i | 0 <= i < |moves| ensures Allowed(Play(w, "", moves[..i]), "", moves[i]) {
      assert moves[i] in Pair;
    }
  }

  lemma ThreePairsUncover(w: World)
    requires Blank(w, 0)
    ensures Play(w, "", Pair + Pair + Pair).panel.uncover
  {
    assert Play(w, "", []) == w;
    hide Play, Act;
    assert [] + Pair == Pair;
    PairPlay(w, []);
    PairIsOneMiss(w, 0);
    PairPlay(w, Pair);
    PairIsOneMiss(Play(w, "", Pair), 1);
    PairPlay(w, Pair + Pair);
    PairIsOneMiss(Play(w, "", Pair + Pair), 2);
  }

  /** On an empty line an honest but slow shell does uncover the prompt: two keys per look, three times. */
  lemma SlowEchoUncovers()
    ensures var moves := Pair + Pair + Pair;
            && Ready(Initial, "") && AllAllowed(Begin(Initial), "", moves)
            && Play(Begin(Initial), "", moves).panel.uncover
  {
    hide Play, AllAllowed;
    PlainMovesAllowed(Begin(Initial), Pair + Pair + Pair);
    ThreePairsUncover(Begin(Initial));
  }

  /** Whether the last read so far contradicted the prediction, or the grace was spent before. */
  function Spent(before: bool, moves: seq<Move>): bool {
    if moves == [] then before
    else
      match moves[|moves| - 1]
      case See => false
      case Glitch(_) => true
      case _ => Spent(before, moves[..|moves| - 1])
  }

  lemma {:induction false} GlitchedIsSpent(w: World, start: string, moves: seq<Move>)
    ensures Play(w, start, moves).glitched == Spent(w.glitched, moves)
  {
    hide KeyDown, Refresh;
    if moves != [] { GlitchedIsSpent(w, start, moves[..|moves| - 1]); }
  }

  /**
   After every honest play from a box with any grace counter, a contradicting
   read leaves the text in place if and only if the grace is not spent: the
   last read before it, if any, was a true one.
   */
  lemma GraceHoldsIff(p: Panel, start: string, moves: seq<Move>, line: string)
    requires Ready(p, start) && AllAllowed(Begin(p), start, moves)
    requires var q := Play(Begin(p), start, moves).panel; !q.uncover && q.pending != "" && !Confirms(q, line)
    ensures var w := Play(Begin(p), start, moves);
            Shown(Refresh(w.panel, Some(line))) == start + w.typed <==> !Spent(p.mismatches == 1, moves)
  {
    hide Play, AllAllowed, Refresh, Spent;
    StartIsHonest(p, start);
    PlayIsHonest(Begin(p), start, moves);
    GlitchedIsSpent(Begin(p), start, moves);
    var w := Play(Begin(p), start, moves);
    Contradicted(w, start, line);
  }

  lemma Contradicted(w: World, start: string, line: string)
    requires Honest(w, start) && !w.panel.uncover && w.panel.pending != "" && !Confirms(w.panel, line)
    ensures Shown(Refresh(w.panel, Some(line))) == start + w.typed <==> !w.glitched
  {
    hide Tally;
    var p, text := w.panel, start + w.typed;
    if w.glitched {
      var q := Reconcile(p, line).(mirrorRef := line, mirror := line);
      TallyKeepsText(q, line);
      TallyShows(q, line);
      assert text == p.base + p.pending && text[|p.base|..] == p.pending && p.base <= text;
      assert line != text;
      assert line + "" == line;
    }
  }

  lemma TallyShows(p: Panel, line: string)
    requires p.mirror == line && !p.uncover
    ensures Tally(p, line).mirror == if Tally(p, line).uncover then "" else line
  {}

  lemma RunSnoc(steps: seq<Step>, step: Step)
    ensures Run(steps + [step]) == Apply(Run(steps), step)
  {
    assert (steps + [step])[..|steps|] == steps;
  }

  const Enter := Key(KeyEvent("Enter", false, false, false, false))

  /** A contradicted prediction, then Enter or another session, then a new key. */
  function Distracted(between: Step): seq<Step> {
    [Key(Plain('a'))] + [Look(Some("x"))] + [between] + [Key(Plain('b'))]
  }

  lemma FirstKey()
    ensures var p := KeyDown(Initial, Plain('a'));
            && p.mirrorRef == "" && p.base == "" && p.pending == "a" && p.mismatches == 0 && !p.uncover && p.localCmd.None?
  {
    assert KeyDown(Initial, Plain('a')) == Forward(Predict(Initial, Plain('a')), "a", true);
  }

  lemma FirstContradiction(p: Panel)
    requires p.mirrorRef == "" && p.base == "" && p.pending == "a" && p.mismatches == 0 && !p.uncover && p.localCmd.None?
    ensures var q := Refresh(p, Some("x"));
            q.mirrorRef == "" && q.pending == "a" && q.mismatches == 1 && !q.uncover && q.localCmd.None?
  {
    assert "x"[0..] == "x" && "x"[0] != "a"[0];
    assert !("x" <= "a") && !Confirms(p, "x");
  }

  lemma SpentGrace()
    ensures var p := Run([Key(Plain('a'))] + [Look(Some("x"))]);
            && Inv(p) && p.mirrorRef == "" && p.pending == "a" && p.mismatches == 1 && !p.uncover && p.localCmd.None?
  {
    var key, look := Key(Plain('a')), Look(Some("x"));
    assert Run([]) == Initial && [] + [key] == [key];
    Reachable([key] + [look]);
    RunSnoc([], key);
    RunSnoc([key], look);
    hide KeyDown, Refresh, Run, Inv;
    FirstKey();
    FirstContradiction(KeyDown(Initial, Plain('a')));
  }

  lemma GraceOutlives(p: Panel, between: Step)
    requires between == Enter || between == Switch
    requires Inv(p) && p.mirrorRef == "" && p.mismatches == 1 && !p.uncover && p.localCmd.None?
    ensures var q := Apply(p, between);
            && Inv(q) && q.mirrorRef == "" && q.pending == "" && q.mismatches == 1 && !q.uncover && q.localCmd.None?
  {}

  lemma SpentGraceDrops(q: Panel)
    requires Inv(q) && q.mirrorRef == "" && q.pending == "" && q.mismatches == 1 && !q.uncover && q.localCmd.None?
    ensures var r := KeyDown(q, Plain('b')); Shown(r) == "b" && Shown(Refresh(r, Some("y"))) == "y"
  {
    hide Tally;
    var r := KeyDown(q, Plain('b'));
    assert r == Forward(Predict(q, Plain('b')), "b", true);
    assert "" + "b" == "b" && "y" + "" == "y" && "y"[0..] == "y" && !("y" <= "b") && !Confirms(r, "y");
    var t := Reconcile(r, "y").(mirrorRef := "y", mirror := "y");
    TallyKeepsText(t, "y");
    TallyShows(t, "y");
  }

  /**
   A run in which the first and only contradicting read of a line drops the
   typed text, because the grace was spent before Enter or in another session.
   */
  lemma SpentGraceSurvives(between: Step)
    requires between == Enter || between == Switch
    ensures Shown(Run(Distracted(between))) == "b" && Shown(Run(Distracted(between) + [Look(Some("y"))])) == "y"
  {
    hide Apply, Run, Shown, Inv;
    var steps := [Key(Plain('a'))] + [Look(Some("x"))];
    SpentGrace();
    RunSnoc(steps, between);
    GraceOutlives(Run(steps), between);
    var q := Run(steps + [between]);
    RunSnoc(steps + [between], Key(Plain('b')));
    RunSnoc(Distracted(between), Look(Some("y")));
    SpentGraceDrops(q);
    KeyAndLook(q, Plain('b'), "y");
  }

  lemma KeyAndLook(p: Panel, e: KeyEvent, line: string)
    ensures Apply(p, Key(e)) == KeyDown(p, e)
    ensures Apply(KeyDown(p, e), Look(Some(line))) == Refresh(KeyDown(p, e), Some(line))
  {}

  // ---------- when an honest session uncovers ----------

  /** Forwards since the last look, on top of those before the first move. */
  function KeysSinceLook(before: nat, moves: seq<Move>): nat {
    if moves == [] then before
    else
      var earlier := KeysSinceLook(before, moves[..|moves| - 1]);
      match moves[|moves| - 1]
      case Type(_) => earlier + 1
      case See => 0
      case _ => earlier
  }

  /** Whether the last forward was an edit key, as every typed one is. */
  predicate EditLast(before: bool, moves: seq<Move>) {
    before || exists i :: 0 <= i < |moves| && moves[i].Type?
  }

  /** Looks made before anything was echoed, each after two or more forwards ending in an edit. */
  function BlindLooks(p: Panel, moves: seq<Move>): nat {
    if moves == [] then 0
    else
      var n := |moves| - 1;
      BlindLooks(p, moves[..n])
      + (if moves[n].See? && Echo !in moves[..n] && EditLast(p.lastEdit, moves[..n])
            && KeysSinceLook(p.forwarded, moves[..n]) >= 2 then 1 else 0)
  }

  /** A look came before the first typed key and after a forward that was no edit, such as an arrow key. */
  predicate Forgiven(p: Panel, moves: seq<Move>) {
    moves != [] &&
    var n := |moves| - 1;
    || Forgiven(p, moves[..n])
    || (moves[n].See? && !EditLast(p.lastEdit, moves[..n]) && KeysSinceLook(p.forwarded, moves[..n]) > 0)
  }

  /** The misses an honest session on an empty line has counted. */
  function HonestMisses(p: Panel, moves: seq<Move>): nat {
    (if Forgiven(p, moves) then 0 else p.misses) + BlindLooks(p, moves)
  }

  /** What the counters of a box on an empty line say about the moves so far. */
  ghost predicate Tracks(w: World, p: Panel, moves: seq<Move>) {
    && (w.echoed > 0 <==> Echo in moves) && (w.typed != "" ==> EditLast(p.lastEdit, moves))
    && (!EditLast(p.lastEdit, moves) ==> BlindLooks(p, moves) == 0)
    && (w.panel.uncover <==> HonestMisses(p, moves) >= 3)
    && (!w.panel.uncover ==>
          && w.panel.forwarded == KeysSinceLook(p.forwarded, moves)
          && w.panel.lastEdit == EditLast(p.lastEdit, moves)
          && (Echo !in moves ==> w.panel.misses == HonestMisses(p, moves)))
  }

  lemma TypeCounts(w: World, c: char)
    requires Honest(w, "") && Allowed(w, "", Type(c))
    ensures var q := Act(w, "", Type(c)).panel;
            && q.uncover == w.panel.uncover && q.misses == w.panel.misses
            && (!q.uncover ==> q.forwarded == w.panel.forwarded + 1 && q.lastEdit)
  {
    var p := w.panel;
    if !p.uncover {
      assert p.mirrorRef == "" && p.pending == "" ==> "" + w.typed == "";
      assert KeyDown(p, Plain(c)) == Forward(Predict(p, Plain(c)), [c], true);
    }
  }

  lemma SeeCounts(w: World)
    requires Honest(w, "") && !w.panel.uncover
    ensures var p, q := w.panel, Act(w, "", See).panel;
            && q.forwarded == 0 && q.lastEdit == p.lastEdit
            && (w.echoed == 0 ==>
                  && q.misses == (if p.forwarded > 0 && !p.lastEdit then 0
                                  else p.misses + (if p.forwarded >= 2 then 1 else 0))
                  && q.uncover == (q.misses >= 3))
            && (w.echoed > 0 && p.misses < 3 ==> !q.uncover)
  {
    hide Tally, Refresh;
    var p, line := w.panel, "" + w.typed[..w.echoed];
    HonestReadConfirms(p, "", w.typed, w.echoed);
    assert w.echoed > 0 ==> line[0] == w.typed[0];
    ConfirmedRefresh(p, line);
    TallyCounts(Reconcile(p, line).(mirrorRef := line, mirror := line), line);
  }

  lemma ConfirmedRefresh(p: Panel, line: string)
    requires !p.uncover && Confirms(p, line)
    ensures var r := Reconcile(p, line).(mirrorRef := line, mirror := line);
            && Refresh(p, Some(line)) == Tally(r, line)
            && r.forwarded == p.forwarded && r.lastEdit == p.lastEdit && r.misses == p.misses && r.uncover == p.uncover
  {
    hide Tally, Confirms;
  }

  lemma TallyCounts(p: Panel, line: string)
    requires !p.uncover && p.misses < 3
    ensures var q := Tally(p, line);
            && q.forwarded == 0 && q.lastEdit == p.lastEdit && (line != "" ==> !q.uncover)
            && (line == "" ==>
                  && q.misses == (if p.forwarded > 0 && !p.lastEdit then 0
                                  else p.misses + (if p.forwarded >= 2 then 1 else 0))
                  && q.uncover == (q.misses >= 3))
  {}

  lemma UncoveredStays(w: World, m: Move)
    requires w.panel.uncover
    ensures Act(w, "", m).panel.uncover
  {
    hide EncodeKey, Trim;
  }

  lemma GlitchCounts(w: World, line: string)
    requires Honest(w, "") && Allowed(w, "", Glitch(line)) && !w.panel.uncover
    ensures var p, q := w.panel, Act(w, "", Glitch(line)).panel;
            q.uncover == p.uncover && q.misses == p.misses && q.forwarded == p.forwarded && q.lastEdit == p.lastEdit
  {}

  lemma EditSnoc(before: bool, moves: seq<Move>, m: Move)
    ensures EditLast(before, moves + [m]) <==> EditLast(before, moves) || m.Type?
  {
    var all := moves + [m];
    assert all[|moves|] == m;
    if i :| 0 <= i < |moves| && moves[i].Type? { assert all[i].Type?; }
  }

  lemma CountsSnoc(p: Panel, moves: seq<Move>, m: Move)
    ensures var keys, edit := KeysSinceLook(p.forwarded, moves), EditLast(p.lastEdit, moves);
            && KeysSinceLook(p.forwarded, moves + [m]) == (if m.Type? then keys + 1 else if m.See? then 0 else keys)
            && EditLast(p.lastEdit, moves + [m]) == (edit || m.Type?)
            && BlindLooks(p, moves + [m])
               == BlindLooks(p, moves) + (if m.See? && Echo !in moves && edit && keys >= 2 then 1 else 0)
            && Forgiven(p, moves + [m]) == (Forgiven(p, moves) || (m.See? && !edit && keys > 0))
            && (Echo in moves + [m] <==> Echo in moves || m == Echo)
  {
    assert (moves + [m])[..|moves|] == moves;
    EditSnoc(p.lastEdit, moves, m);
  }

  lemma TracksStep(w: World, p: Panel, moves: seq<Move>, m: Move)
    requires Honest(w, "") && Allowed(w, "", m) && Tracks(w, p, moves) && p.misses < 3
    ensures Tracks(Act(w, "", m), p, moves + [m])
  {
    CountsSnoc(p, moves, m);
    HonestCounters(w);
    hide EditLast, BlindLooks, Forgiven, KeysSinceLook;
    if w.panel.uncover {
      hide Act;
      UncoveredStays(w, m);
      EchoesCount(w, m);
    } else {
      hide Honest, KeyDown, Refresh;
      match m
      case Type(c) => TypeCounts(w, c);
      case Echo =>
      case See => SeeCounts(w);
      case Glitch(line) => GlitchCounts(w, line);
    }
  }

  lemma HonestCounters(w: World)
    requires Honest(w, "")
    ensures w.echoed <= |w.typed| && (!w.panel.uncover ==> w.panel.misses < 3)
  {}

  lemma EchoesCount(w: World, m: Move)
    ensures Act(w, "", m).echoed == w.echoed + (if m.Echo? then 1 else 0)
    ensures Act(w, "", m).typed == w.typed + (if m.Type? then [m.c] else "")
  {}

  lemma {:induction false} PlayTracks(p: Panel, moves: seq<Move>)
    requires Ready(p, "") && AllAllowed(Begin(p), "", moves)
    ensures Tracks(Play(Begin(p), "", moves), p, moves)
  {
    hide Tracks, Honest, Allowed, Act;
    var w := Begin(p);
    if moves == [] {
      TracksNothing(p);
    } else {
      var n := |moves| - 1;
      AllowedPrefix(w, "", moves);
      PlayTracks(p, moves[..n]);
      StartIsHonest(p, "");
      PlayIsHonest(w, "", moves[..n]);
      TracksStep(Play(w, "", moves[..n]), p, moves[..n], moves[n]);
      assert moves[..n] + [moves[n]] == moves;
    }
  }

  lemma TracksNothing(p: Panel)
    requires Ready(p, "")
    ensures Tracks(Begin(p), p, [])
  {}

  lemma StartIsHonest(p: Panel, start: string)
    requires Ready(p, start)
    ensures Honest(Begin(p), start)
  {
    assert start + "" == start;
  }

  /**
   An honest session on an empty line uncovers the prompt if and only if three
   looks found nothing echoed yet, each after two or more forwards ending in an
   edit. Misses from before count, unless the first look came after a forward
   that was no edit and before any typed key. Glitches and later echoes do not
   matter.
   */
  lemma HonestUncoversIff(p: Panel, moves: seq<Move>)
    requires Ready(p, "") && AllAllowed(Begin(p), "", moves)
    ensures Play(Begin(p), "", moves).panel.uncover <==> HonestMisses(p, moves) >= 3
  {
    hide Play, HonestMisses, AllAllowed;
    PlayTracks(p, moves);
  }

  // ---------- command mode ----------

  /**
   While a slash command is composed, nothing is written to the PTY except by
   a Ctrl chord, or by Enter on exactly "/clear" (ignoring outer whitespace),
   and no prediction or mirror changes on keys without Ctrl.
   */
  lemma CommandModeIsLocal(p: Panel, e: KeyEvent)
    requires p.localCmd.Some? && !e.ctrl
    ensures var q := KeyDown(p, e);
            && q.sent == (if !e.meta && e.key == "Enter" && Trim(p.localCmd.value, JsSpace) == "/clear"
                          then p.sent + ["clear\n"] else p.sent)
            && q.pending == p.pending && q.mirrorRef == p.mirrorRef && q.forwarded == p.forwarded
  {
    hide EncodeKey, Trim, Predict, Forward;
    if e.meta {
      MetaEncodesNothing(e);
    } else {
      assert LocalKey(p, e).1;
    }
  }

  lemma MetaEncodesNothing(e: KeyEvent)
    requires e.meta
    ensures EncodeKey(e) == None
  {}

  // ---------- what reaches the shell ----------

  /** The keys with a name and the characters a terminal sends for them. */
  const NamedKeys: map<string, string> := map[
    "Enter" := "\r", "Backspace" := "\U{7f}", "Tab" := "\t", "Escape" := "\U{1b}",
    "ArrowUp" := "\U{1b}[A", "ArrowDown" := "\U{1b}[B", "ArrowRight" := "\U{1b}[C", "ArrowLeft" := "\U{1b}[D",
    "Home" := "\U{1b}[H", "End" := "\U{1b}[F", "Delete" := "\U{1b}[3~",
    "PageUp" := "\U{1b}[5~", "PageDown" := "\U{1b}[6~"]

  const LETTERS := "abcdefghijklmnopqrstuvwxyz"
  const CAPITALS := "ABCDEFGHIJKLMNOPQRSTUVWXYZ"

  /** Ctrl with the n-th letter, in either case, is control code n. */
  ghost predicate IsCtrlCode(key: string, data: string) {
    exists i :: 0 <= i < 26 && (key == [LETTERS[i]] || key == [CAPITALS[i]]) && data == [(i + 1) as char]
  }

  /** The table of what a key event types, apart from how the panel computes it. */
  ghost predicate Types(e: KeyEvent, data: string) {
    && !e.composing && !e.meta
    && (if e.ctrl && !e.alt then IsCtrlCode(e.key, data) || (e.key == "Enter" && data == "\n")
        else if e.key in NamedKeys then data == NamedKeys[e.key]
        else |e.key| == 1 && data == e.key)
  }

  lemma AlphabetIs(i: nat)
    requires i < 26
    ensures LETTERS[i] as int == 97 + i && CAPITALS[i] as int == 65 + i
  {}

  lemma CtrlCodeIs(i: nat, key: string)
    requires i < 26 && (key == [LETTERS[i]] || key == [CAPITALS[i]])
    ensures LowerLetter(key).Some? && LowerLetter(key).value as int == 97 + i
  {
    AlphabetIs(i);
    hide LETTERS, CAPITALS;
  }

  lemma LetterIs(key: string) returns (i: nat)
    requires LowerLetter(key).Some?
    ensures i < 26 && (key == [LETTERS[i]] || key == [CAPITALS[i]]) && LowerLetter(key).value as int == 97 + i
  {
    i := LowerLetter(key).value as int - 97;
    AlphabetIs(i);
    hide LETTERS, CAPITALS;
    assert key == [key[0]];
  }

  lemma CtrlCodeIff(key: string, data: string)
    ensures IsCtrlCode(key, data) <==> LowerLetter(key).Some? && data == [(LowerLetter(key).value as int - 96) as char]
  {
    hide LowerLetter;
    if i :| 0 <= i < 26 && (key == [LETTERS[i]] || key == [CAPITALS[i]]) && data == [(i + 1) as char] {
      CtrlCodeIs(i, key);
    }
    if LowerLetter(key).Some? {
      var i := LetterIs(key);
      assert LETTERS[i] == LETTERS[i];
    }
  }

  lemma NamedAreLong(key: string)
    requires key in NamedKeys
    ensures |key| > 1
  {}

  lemma NamedEncoded(e: KeyEvent)
    requires !e.composing && !e.meta && !(e.ctrl && !e.alt)
    ensures EncodeKey(e) == if e.key in NamedKeys then Some(NamedKeys[e.key]) else if |e.key| == 1 then Some(e.key) else None
  {}

  /** The panel encodes exactly what the table says. */
  lemma EncodeKeyIff(e: KeyEvent, data: string)
    ensures EncodeKey(e) == Some(data) <==> Types(e, data)
  {
    if !e.composing && !e.meta {
      if e.ctrl && !e.alt {
        CtrlCodeIff(e.key, data);
        assert LowerLetter("Enter") == None;
      } else {
        NamedEncoded(e);
      }
    }
  }

  /** A slash that opens command mode instead of being typed. */
  predicate OpensCommand(p: Panel, e: KeyEvent) {
    && p.localCmd.None? && e.key == "/" && !e.meta && !e.ctrl && !e.alt
    && p.mirrorRef == "" && p.pending == ""
  }

  /** A key that a composed command takes for itself. */
  predicate StaysLocal(p: Panel, e: KeyEvent) {
    p.localCmd.Some? && !e.meta && !e.ctrl
  }

  /** What one step writes to the PTY. */
  ghost predicate Writes(p: Panel, step: Step, out: seq<string>) {
    match step
    case Key(e) =>
      if OpensCommand(p, e) then out == []
      else if StaysLocal(p, e) then
        out == (if e.key == "Enter" && Trim(p.localCmd.value, JsSpace) == "/clear" then ["clear\n"] else [])
      else (exists data :: Types(e, data) && out == [data]) || ((forall data :: !Types(e, data)) && out == [])
    case _ => out == []
  }

  lemma KeyWrites(p: Panel, e: KeyEvent) returns (out: seq<string>)
    ensures Writes(p, Key(e), out) && KeyDown(p, e).sent == p.sent + out
  {
    hide EncodeKey, Trim, Types;
    var data := EncodeKey(e);
    if OpensCommand(p, e) {
      out := [];
    } else if StaysLocal(p, e) {
      out := if e.key == "Enter" && Trim(p.localCmd.value, JsSpace) == "/clear" then ["clear\n"] else [];
    } else {
      assert LocalKey(p, e) == (p, false);
      assert Predict(p, e).sent == p.sent;
      out := if data.Some? then [data.value] else [];
      forall d ensures Types(e, d) <==> data == Some(d) { EncodeKeyIff(e, d); }
    }
  }

  /** Looks and session changes write nothing. */
  lemma OnlyKeysWrite(p: Panel, step: Step)
    requires !step.Key?
    ensures Apply(p, step).sent == p.sent
  {
    hide Confirms;
  }

  /** `outs` are what the steps of a run write, one by one. */
  ghost predicate WrittenBy(steps: seq<Step>, outs: seq<seq<string>>) {
    |outs| == |steps| && forall i :: 0 <= i < |steps| ==> Writes(Run(steps[..i]), steps[i], outs[i])
  }

  lemma WrittenSnoc(steps: seq<Step>, step: Step, outs: seq<seq<string>>, out: seq<string>)
    requires WrittenBy(steps, outs) && Writes(Run(steps), step, out)
    ensures WrittenBy(steps + [step], outs + [out])
  {
    hide Writes, Run;
    var all := steps + [step];
    forall i | 0 <= i < |all| ensures Writes(Run(all[..i]), all[i], (outs + [out])[i]) {
      assert all[..i] == steps[..i];
      if i == |steps| { assert steps[..i] == steps; }
    }
  }

  /** Over every run the shell gets exactly what the table says for each key, in order, and nothing else. */
  lemma {:induction false} RunWrites(steps: seq<Step>) returns (outs: seq<seq<string>>)
    ensures WrittenBy(steps, outs) && Run(steps).sent == Flatten(outs)
  {
    outs := [];
    if steps != [] {
      hide Writes, Apply, WrittenBy;
      var n := |steps| - 1;
      var early := RunWrites(steps[..n]);
      var out := StepWrites(Run(steps[..n]), steps[n]);
      outs := early + [out];
      assert outs[..n] == early;
      WrittenSnoc(steps[..n], steps[n], early, out);
      assert steps[..n] + [steps[n]] == steps;
    }
  }

  lemma StepWrites(p: Panel, step: Step) returns (out: seq<string>)
    ensures Writes(p, step, out) && Apply(p, step).sent == p.sent + out
  {
    hide KeyDown, Refresh;
    if step.Key? {
      out := KeyWrites(p, step.event);
    } else {
      out := [];
      OnlyKeysWrite(p, step);
    }
  }

  /** One string per typed character. */
  function Singles(text: string): seq<string> {
    seq(|text|, i requires 0 <= i < |text| => [text[i]])
  }

  lemma TypeSends(w: World, start: string, c: char)
    requires Honest(w, start) && Allowed(w, start, Type(c)) && !w.panel.uncover
    ensures Act(w, start, Type(c)).panel.sent == w.panel.sent + [[c]]
  {
    var p := w.panel;
    assert p.mirrorRef == "" && p.pending == "" ==> start + w.typed == "";
    assert KeyDown(p, Plain(c)) == Forward(Predict(p, Plain(c)), [c], true);
  }

  lemma MoveUncovers(w: World, start: string, m: Move)
    ensures w.panel.uncover ==> Act(w, start, m).panel.uncover
    ensures !m.Type? ==> Act(w, start, m).panel.sent == w.panel.sent && Act(w, start, m).typed == w.typed
    ensures m.Type? ==> Act(w, start, m).typed == w.typed + [m.c]
  {
    hide EncodeKey, Trim, Confirms;
  }

  /**
   After every honest play that leaves the box covered, what was sent to the
   shell is what was typed, character by character.
   */
  lemma {:induction false} HonestSent(p: Panel, start: string, moves: seq<Move>)
    requires Ready(p, start) && AllAllowed(Begin(p), start, moves)
    requires !Play(Begin(p), start, moves).panel.uncover
    ensures var w := Play(Begin(p), start, moves);
            && w.panel.sent == p.sent + Singles(w.typed)
            && KeyDown(w.panel, Enter.event).sent == p.sent + Singles(w.typed) + ["\r"]
  {
    hide Honest, Allowed, Act, KeyDown;
    var w := Play(Begin(p), start, moves);
    StartIsHonest(p, start);
    PlayIsHonest(Begin(p), start, moves);
    if moves == [] {
      assert Singles("") == [] && p.sent + [] == p.sent;
    } else {
      var n := |moves| - 1;
      var v := Play(Begin(p), start, moves[..n]);
      AllowedPrefix(Begin(p), start, moves);
      MoveUncovers(v, start, moves[n]);
      HonestSent(p, start, moves[..n]);
      PlayIsHonest(Begin(p), start, moves[..n]);
      if moves[n].Type? {
        TypeSends(v, start, moves[n].c);
        SinglesSnoc(p.sent, v.typed, moves[n].c);
      }
    }
    EnterSends(w, start);
  }

  lemma SinglesSnoc(sent: seq<string>, text: string, c: char)
    ensures sent + Singles(text) + [[c]] == sent + Singles(text + [c])
  {}

  lemma EnterSends(w: World, start: string)
    requires Honest(w, start) && !w.panel.uncover
    ensures KeyDown(w.panel, Enter.event).sent == w.panel.sent + ["\r"]
  {}

  // ---------- what keys do to the box ----------

  /** Backspace takes back the last predicted character, and the shell is told of both. */
  lemma BackspaceUndoes(p: Panel, c: char)
    requires p.localCmd.None? && !p.uncover && !OpensCommand(p, Plain(c)) && p.base == p.mirrorRef
    ensures var q := KeyDown(KeyDown(p, Plain(c)), KeyEvent("Backspace", false, false, false, false));
            && q.pending == p.pending && q.mirrorRef == p.mirrorRef && q.base == p.base && q.submitted == p.submitted
            && q.sent == p.sent + [[c], "\U{7f}"] && q.lastEdit
  {
    var r := KeyDown(p, Plain(c));
    assert r == Forward(Predict(p, Plain(c)), [c], true);
    assert (p.pending + [c])[..|p.pending|] == p.pending;
    var back := KeyEvent("Backspace", false, false, false, false);
    assert KeyDown(r, back) == Forward(Predict(r, back), "\U{7f}", true);
  }

  /**
   Every other named key hands the line over to the shell: nothing stays
   predicted, only Enter records the text, and only Tab and Delete count as edits.
   */
  lemma NamedKeyEndsPrediction(p: Panel, key: string)
    requires p.localCmd.None? && !p.uncover && key in NamedKeys && key != "Backspace"
    ensures var q := KeyDown(p, KeyEvent(key, false, false, false, false));
            && q.pending == "" && q.base == q.mirrorRef == p.mirrorRef && q.mirror == p.mirror
            && q.submitted == (if key == "Enter" then p.submitted + [p.mirrorRef + p.pending] else p.submitted)
            && q.sent == p.sent + [NamedKeys[key]] && q.forwarded == p.forwarded + 1
            && (q.lastEdit <==> key == "Tab" || key == "Delete")
  {
    var e := KeyEvent(key, false, false, false, false);
    NamedEncoded(e);
    NamedAreLong(key);
    hide EncodeKey;
    assert LocalKey(p, e) == (p, false);
  }

  /** Without a line to read the box is empty. */
  lemma NoLineBlanks(p: Panel)
    requires p.localCmd.None?
    ensures Shown(Refresh(p, None)) == ""
    ensures !p.uncover ==> Refresh(p, None).pending == Refresh(p, None).mirrorRef == ""
  {
    assert "" + "" == "";
  }

  /** Nothing of one session's line, command or misses is carried to the next. */
  lemma SwitchForgets(p: Panel, q: Panel)
    requires p.mismatches == q.mismatches && p.forwarded == q.forwarded && p.submitted == q.submitted && p.sent == q.sent
    ensures ChangeSession(p) == ChangeSession(q)
    ensures Shown(ChangeSession(p)) == "" && !ChangeSession(p).uncover && Ready(ChangeSession(p), "") == (p.mismatches <= 1)
  {
    assert "" + "" == "";
  }

  /** Forwards made before a session change still count towards the first miss after it. */
  lemma ForwardsOutliveSwitch(p: Panel)
    requires p.forwarded >= 1
    ensures var q := Refresh(KeyDown(ChangeSession(p), Plain('a')), Some(""));
            q.misses == 1 && ChangeSession(p).misses == 0
  {
    var r := KeyDown(ChangeSession(p), Plain('a'));
    assert r == Forward(Predict(ChangeSession(p), Plain('a')), "a", true);
    assert Confirms(r, "");
  }

  /** The panel while the text of a slash command is composed character by character. */
  function Compose(p: Panel, text: string): Panel {
    if text == "" then KeyDown(p, Plain('/')) else KeyDown(Compose(p, text[..|text| - 1]), Plain(text[|text| - 1]))
  }

  /** On an empty line a slash and the characters after it are shown as composed and stay out of the shell. */
  lemma {:induction false} CommandIsComposed(p: Panel, text: string)
    requires OpensCommand(p, Plain('/'))
    ensures Compose(p, text) == p.(localCmd := Some("/" + text)) && Shown(Compose(p, text)) == "/" + text
  {
    hide EncodeKey, Predict, Forward, Trim;
    if text != "" {
      var n := |text| - 1;
      CommandIsComposed(p, text[..n]);
      Associate("/", text[..n], [text[n]]);
      assert text[..n] + [text[n]] == text;
      var q, e := Compose(p, text[..n]), Plain(text[n]);
      assert LocalKey(q, e) == (q.(localCmd := Some(q.localCmd.value + e.key)), true);
    } else {
      assert "/" + "" == "/";
    }
  }

  /** Backspace shortens the command and leaves the mode with the slash, Escape leaves it, Enter runs it. */
  lemma CommandEnds(p: Panel, text: string)
    requires p.localCmd == Some("/" + text)
    ensures KeyDown(p, KeyEvent("Escape", false, false, false, false)) == p.(localCmd := None)
    ensures KeyDown(p, KeyEvent("Backspace", false, false, false, false))
         == p.(localCmd := if text == "" then None else Some("/" + text[..|text| - 1]))
    ensures var q := KeyDown(p, Enter.event);
            var runs := Trim("/" + text, JsSpace) == "/clear";
            && q.localCmd.None? && q.sent == (if runs then p.sent + ["clear\n"] else p.sent)
            && q.submitted == (if runs then p.submitted + ["clear"] else p.submitted)
  {
    hide EncodeKey, Predict, Forward, Trim;
    var cmd := "/" + text;
    assert Chop(cmd) == cmd[..|cmd| - 1];
    assert text != "" ==> cmd[..|cmd| - 1] == "/" + text[..|text| - 1];
  }

  /**
   While uncovered the box no longer knows the line, so a slash in the middle
   of it is taken for a command and never reaches the shell.
   */
  lemma UncoveredSwallowsSlash(p: Panel)
    requires Inv(p) && p.uncover && p.localCmd.None? && p.pending == ""
    ensures var q := KeyDown(p, Plain('a'));
            && q.sent == p.sent + ["a"]
            && KeyDown(q, Plain('/')).sent == q.sent && KeyDown(q, Plain('/')).localCmd == Some("/")
  {
    assert KeyDown(p, Plain('a')) == Forward(Predict(p, Plain('a')), "a", true);
  }

  const TabKey := Key(KeyEvent("Tab", false, false, false, false))

  /** Such a state is reached by pressing Tab twice before each of three looks at an empty line. */
  lemma TabsUncover()
    ensures var turn := [TabKey] + [TabKey] + [Look(Some(""))];
            var p := Run(turn + turn + turn);
            Inv(p) && p.uncover && p.localCmd.None? && p.pending == ""
  {
    var turn := [TabKey] + [TabKey] + [Look(Some(""))];
    Reachable(turn + turn + turn);
    assert Run([]) == Initial && [] + turn == turn;
    TabTurn([], 0);
    TabTurn(turn, 1);
    TabTurn(turn + turn, 2);
  }

  ghost predicate Missed(p: Panel, misses: nat) {
    && p.misses == misses && p.uncover == (misses == 3) && p.localCmd.None? && p.pending == "" && p.mirrorRef == ""
    && p.forwarded == 0
  }

  lemma TabTurn(steps: seq<Step>, misses: nat)
    requires Missed(Run(steps), misses) && misses < 3
    ensures Missed(Run(steps + ([TabKey] + [TabKey] + [Look(Some(""))])), misses + 1)
  {
    var p := Run(steps);
    hide Run, KeyDown, Refresh;
    RunSnoc(steps, TabKey);
    RunSnoc(steps + [TabKey], TabKey);
    RunSnoc(steps + [TabKey] + [TabKey], Look(Some("")));
    assert steps + ([TabKey] + [TabKey] + [Look(Some(""))]) == steps + [TabKey] + [TabKey] + [Look(Some(""))];
    NamedKeyEndsPrediction(p, "Tab");
    TabKeeps(p);
    var q := KeyDown(p, TabKey.event);
    NamedKeyEndsPrediction(q, "Tab");
    TabKeeps(q);
    EmptyLookCounts(KeyDown(q, TabKey.event), misses);
  }

  lemma EmptyLookCounts(p: Panel, misses: nat)
    requires p.misses == misses < 3 && !p.uncover && p.localCmd.None? && p.pending == "" && p.mirrorRef == ""
    requires p.forwarded >= 2 && p.lastEdit
    ensures Missed(Refresh(p, Some("")), misses + 1)
  {}

  lemma TabKeeps(p: Panel)
    requires p.localCmd.None? && !p.uncover
    ensures var q := KeyDown(p, TabKey.event); q.misses == p.misses && !q.uncover && q.localCmd.None?
  {}

  // ---------- the uncover fallback over a whole run ----------

  /** An accepted look at an empty line after at least two forwards, the last of them an edit. */
  ghost predicate Counts(p: Panel, step: Step) {
    && step.Look? && step.read == Some("") && !p.uncover && !Freezes(p, "")
    && p.forwarded >= 2 && p.lastEdit
  }

  /** A session change, or an accepted look after a forward that was not an edit or that finds text. */
  ghost predicate Clears(p: Panel, step: Step) {
    || step.Switch?
    || (&& step.Look? && step.read.Some? && !p.uncover && !Freezes(p, step.read.value)
        && p.forwarded > 0 && (!p.lastEdit || step.read.value != ""))
  }

  /** Counted looks since the last clearing step. */
  ghost function Streak(steps: seq<Step>): nat {
    if steps == [] then 0
    else
      var n := |steps| - 1;
      var p := Run(steps[..n]);
      if Clears(p, steps[n]) then 0 else Streak(steps[..n]) + (if Counts(p, steps[n]) then 1 else 0)
  }

  lemma KeyKeepsMisses(p: Panel, e: KeyEvent)
    ensures KeyDown(p, e).misses == p.misses
  {
    hide EncodeKey, Trim;
  }

  lemma ReconcileKeepsCounts(p: Panel, line: string)
    ensures var q := Reconcile(p, line);
            q.misses == p.misses && q.forwarded == p.forwarded && q.lastEdit == p.lastEdit && q.uncover == p.uncover
  {
    hide Confirms;
  }

  lemma LookTallies(p: Panel, read: Option<string>)
    requires Inv(p)
    ensures var q := Refresh(p, read);
            var step := Look(read);
            q.misses == if Clears(p, step) then 0 else p.misses + (if Counts(p, step) then 1 else 0)
  {
    if read.Some? {
      hide Reconcile, Freezes;
      ReconcileKeepsCounts(p, read.value);
    }
  }

  lemma StepTallies(p: Panel, step: Step)
    requires Inv(p)
    ensures var q := Apply(p, step);
            q.misses == if Clears(p, step) then 0 else p.misses + (if Counts(p, step) then 1 else 0)
  {
    match step
    case Key(e) =>
      hide KeyDown;
      KeyKeepsMisses(p, e);
    case Look(read) =>
      hide Refresh, Inv;
      LookTallies(p, read);
    case Switch =>
  }

  /** The box is uncovered exactly when three looks have been counted since the last clearing step. */
  lemma {:induction false} UncoveredIffThree(steps: seq<Step>)
    ensures Run(steps).misses == Streak(steps)
    ensures Run(steps).uncover <==> Streak(steps) == 3
  {
    hide Apply;
    Reachable(steps);
    if steps != [] {
      var n := |steps| - 1;
      UncoveredIffThree(steps[..n]);
      Reachable(steps[..n]);
      StepTallies(Run(steps[..n]), steps[n]);
    }
  }

  lemma {:induction false} StreakWitness(steps: seq<Step>) returns (at: seq<nat>)
    ensures |at| == Streak(steps)
    ensures forall i, j :: 0 <= i < j < |at| ==> at[i] < at[j]
    ensures forall i :: 0 <= i < |at| ==> at[i] < |steps| && Counts(Run(steps[..at[i]]), steps[at[i]])
    ensures forall i, m :: 0 <= i < |at| && at[i] <= m < |steps| ==> !Clears(Run(steps[..m]), steps[m])
  {
    hide Counts, Clears, Run;
    if steps == [] {
      at := [];
    } else {
      var n := |steps| - 1;
      var p := Run(steps[..n]);
      assert forall m :: 0 <= m <= n ==> steps[..n][..m] == steps[..m];
      if Clears(p, steps[n]) {
        at := [];
      } else {
        at := StreakWitness(steps[..n]);
        if Counts(p, steps[n]) { at := at + [n]; }
      }
    }
  }

  /**
   In every run that ends uncovered there are three looks at an empty line,
   each after two or more forwards ending in an edit key, with no session
   change and no clearing look from the first of them on.
   */
  lemma UncoverHasThreeCauses(steps: seq<Step>) returns (a: nat, b: nat, c: nat)
    requires Run(steps).uncover
    ensures a < b < c < |steps|
    ensures forall i :: i in {a, b, c} ==> Counts(Run(steps[..i]), steps[i])
    ensures forall m :: a <= m < |steps| ==> !Clears(Run(steps[..m]), steps[m])
  {
    hide Counts, Clears, Run;
    UncoveredIffThree(steps);
    var at := StreakWitness(steps);
    a, b, c := at[0], at[1], at[2];
  }

  /** Once uncovered, only a session change covers the prompt again. */
  lemma OnlySwitchCovers(p: Panel, step: Step)
    requires Inv(p) && p.uncover
    ensures Apply(p, step).uncover <==> !step.Switch?
  {}

  // ---------- the box object ----------

  class PromptBox {
    var mirrorRef: string
    var mirror: string
    var pending: string
    var base: string
    var mismatches: nat
    var uncover: bool
    var localCmd: Option<string>
    var misses: nat
    var forwarded: nat
    var lastEdit: bool
    /** Commands recorded for the next block label, oldest first. */
    var submitted: seq<string>
    /** Writes handed to the session's input chain, oldest first. */
    var sent: seq<string>

    ghost function View(): Panel
      reads this
    {
      Panel(mirrorRef, mirror, pending, base, mismatches, uncover, localCmd, misses, forwarded, lastEdit,
            submitted, sent)
    }

    constructor ()
      ensures View() == Initial
    {
      mirrorRef, mirror, pending, base := "", "", "", "";
      mismatches, misses, forwarded := 0, 0, 0;
      uncover, lastEdit := false, false;
      localCmd := None;
      submitted, sent := [], [];
    }

    method OnSessionChange()
      modifies this
      ensures View() == ChangeSession(old(View()))
    {
      mirror := "";
      mirrorRef := "";
      pending := "";
      base := "";
      uncover := false;
      localCmd := None;
      misses := 0;
      lastEdit := false;
    }

    method CountMiss(line: string)
      modifies this
      ensures View() == Tally(old(View()), line)
    {
      if forwarded > 0 {
        if !lastEdit {
          misses := 0;
        } else if |line| == 0 && forwarded >= 2 {
          misses := misses + 1;
        } else if |line| > 0 {
          misses := 0;
        }
        forwarded := 0;
        if misses >= 3 {
          uncover := true;
          mirror := "";
        }
      }
    }

    method RefreshMirror(read: Option<string>)
      modifies this
      ensures View() == Refresh(old(View()), read)
    {
      hide Tally;
      if uncover {
        mirror := "";
        return;
      }
      if read.None? {
        mirrorRef, mirror, pending, base := "", "", "", "";
        return;
      }
      var line := read.value;
      var next := pending;
      var acceptLine := true;
      if pending == "" {
        base := line;
        mismatches := 0;
      } else if base <= line && line[|base|..] <= pending {
        var echoed := line[|base|..];
        base := line;
        mismatches := 0;
        next := pending[|echoed|..];
      } else if mismatches < 1 {
        mismatches := mismatches + 1;
        acceptLine := false;
      } else {
        base := line;
        mismatches := 0;
        next := "";
      }
      if !acceptLine { return; }
      pending := next;
      mirrorRef := line;
      mirror := line;
      CountMiss(line);
    }

    method HandleLocalCommandKey(e: KeyEvent) returns (consumed: bool)
      modifies this
      ensures (View(), consumed) == LocalKey(old(View()), e)
    {
      hide Trim;
      if localCmd.None? {
        if e.key == "/" && !e.meta && !e.ctrl && !e.alt && mirrorRef == "" && pending == "" {
          localCmd := Some("/");
          return true;
        }
        return false;
      }
      var current := localCmd.value;
      if e.meta || e.ctrl { return false; }
      if e.key == "Escape" {
        localCmd := None;
        return true;
      }
      if e.key == "Backspace" {
        var next := Chop(current);
        localCmd := if next == "" then None else Some(next);
        return true;
      }
      if e.key == "Enter" {
        var cmd := Trim(current, JsSpace);
        localCmd := None;
        if cmd == "/clear" {
          submitted := submitted + ["clear"];
          sent := sent + ["clear\n"];
        }
        return true;
      }
      if |e.key| == 1 && !e.alt {
        localCmd := Some(current + e.key);
      }
      return true;
    }

    method PredictKey(e: KeyEvent)
      modifies this
      ensures View() == Predict(old(View()), e)
    {
      if uncover || e.meta || e.ctrl || e.alt { return; }
      if |e.key| == 1 {
        if pending == "" { base := mirrorRef; }
        pending := pending + e.key;
      } else if e.key == "Backspace" {
        pending := Chop(pending);
      } else {
        if e.key == "Enter" {
          submitted := submitted + [mirrorRef + pending];
        }
        pending := "";
        base := mirrorRef;
      }
    }

    method ForwardBytes(data: string, edit: bool)
      modifies this
      ensures View() == Forward(old(View()), data, edit)
    {
      forwarded := forwarded + 1;
      lastEdit := edit;
      sent := sent + [data];
    }

    method OnKeyDown(e: KeyEvent)
      modifies this
      ensures View() == KeyDown(old(View()), e)
    {
      hide EncodeKey, LocalKey, Predict;
      var consumed := HandleLocalCommandKey(e);
      if consumed { return; }
      var data := EncodeKey(e);
      if data.None? { return; }
      PredictKey(e);
      ForwardBytes(data.value, IsEdit(e.key));
    }
  }
}
