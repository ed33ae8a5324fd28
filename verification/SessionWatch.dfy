/** Reading the remote watch report, and merging attention updates of a session. */
module SessionWatch {
  import opened Common
  import opened Text

  const BEGIN := "TETHRA_WATCH_BEGIN"
  const END := "TETHRA_WATCH_END"

  datatype Watch = Watch(tmux: bool, hooks: bool, major: nat, found: map<string, string>, inBlock: bool)

  const Blank := Watch(false, false, 0, map[], false)

  datatype Status = Status(session: string, waiting: bool, supported: bool, message: Option<string>)

  // ---------- one line ----------

  /** Rust's `split_once('=')`. */
  function SplitOnce(s: string): Option<(string, string)> {
    var k := Find(s, '=');
    if k.None? then None else Some((s[..k.value], s[k.value + 1..]))
  }

  /** The last `alert=` field, or none. */
  function AlertOf(fields: seq<string>): string {
    if fields == [] then "none"
    else
      var n := |fields| - 1;
      var pair := SplitOnce(fields[n]);
      if pair.Some? && pair.value.0 == "alert" then pair.value.1 else AlertOf(fields[..n])
  }

  /** The session a trimmed report line speaks about, with its alert. */
  function SessionLine(line: string): Option<(string, string)> {
    if !("session=" <= line) then None
    else
      var parts := Words(line[8..], RustSpace);
      if parts == [] then None else Some((parts[0], AlertOf(parts[1..])))
  }

  function ReadField(w: Watch, line: string): Watch {
    if "session=" <= line then
      var entry := SessionLine(line);
      if entry.None? then w else w.(found := w.found[entry.value.0 := entry.value.1])
    else
      var pair := SplitOnce(line);
      if pair.None? then w
      else if pair.value.0 == "tmux" then w.(tmux := pair.value.1 == "1")
      else if pair.value.0 == "hooks" then w.(hooks := pair.value.1 == "1")
      else if pair.value.0 == "tmux_major" then w.(major := ParseUnsigned(pair.value.1, U32_MAX))
      else w
  }

  function ReadLine(w: Watch, line: string): Watch {
    if line == BEGIN then w.(inBlock := true) else if !w.inBlock then w else ReadField(w, line)
  }

  // ---------- the report ----------

  function TrimAll(lines: seq<string>): seq<string> {
    seq(|lines|, i requires 0 <= i < |lines| => Trim(lines[i], RustSpace))
  }

  /** Reads trimmed lines up to the end marker. */
  function ReadAll(w: Watch, lines: seq<string>): Watch
    decreases |lines|
  {
    if lines == [] || lines[0] == END then w else ReadAll(ReadLine(w, lines[0]), lines[1..])
  }

  function Supported(w: Watch): bool {
    w.tmux && (w.hooks || w.major >= 2)
  }

  function StatusOf(w: Watch, name: string): Status {
    Status(name, name in w.found && w.found[name] == "bell", Supported(w),
      if !w.tmux then Some("no watch on this host")
      else if !Supported(w) then Some("no watch on this host (tmux too old)")
      else None)
  }

  function Report(w: Watch, want: seq<string>): seq<Status> {
    seq(|want|, i requires 0 <= i < |want| => StatusOf(w, want[i]))
  }

  method ParseWatch(stdout: string, want: seq<string>) returns (result: seq<Status>)
    ensures result == Report(ReadAll(Blank, TrimAll(Lines(stdout))), want)
    ensures |result| == |want| && forall i :: 0 <= i < |want| ==> result[i].session == want[i]
  {
    hide Trim, ReadLine, Lines;
    var lines := Lines(stdout);
    ghost var all := TrimAll(lines);
    var w := Blank;
    var i := 0;
    assert all[0..] == all;
    while i < |lines|
      invariant i <= |lines|
      invariant ReadAll(w, all[i..]) == ReadAll(Blank, all)
    {
      var line := Trim(lines[i], RustSpace);
      assert all[i..][0] == line && all[i..][1..] == all[i + 1..];
      if line == END { break; }
      w := ReadLine(w, line);
      i := i + 1;
    }
    result := Report(w, want);
  }

  // ---------- only the block matters ----------

  /** The lines in front of the end marker, or all of them. */
  function UpToEnd(lines: seq<string>): (r: seq<string>)
    ensures END !in r
  {
    if lines == [] || lines[0] == END then [] else [lines[0]] + UpToEnd(lines[1..])
  }

  /** The lines behind the first begin marker, if there is one. */
  function AfterBegin(lines: seq<string>): (r: Option<seq<string>>)
    ensures r.None? <==> BEGIN !in lines
    ensures r.Some? && END !in lines ==> END !in r.value
  {
    if lines == [] then None else if lines[0] == BEGIN then Some(lines[1..]) else AfterBegin(lines[1..])
  }

  /** The report inside the output: what follows the begin marker, up to the end marker if it arrived. */
  function Block(lines: seq<string>): Option<seq<string>> {
    AfterBegin(UpToEnd(lines))
  }

  lemma {:induction false} StopsAtEnd(w: Watch, lines: seq<string>)
    ensures ReadAll(w, lines) == ReadAll(w, UpToEnd(lines))
    decreases |lines|
  {
    if lines != [] && lines[0] != END {
      hide ReadLine;
      StopsAtEnd(ReadLine(w, lines[0]), lines[1..]);
      assert UpToEnd(lines)[1..] == UpToEnd(lines[1..]);
    }
  }

  const Opened := Blank.(inBlock := true)

  lemma {:induction false} StartsAtBegin(lines: seq<string>)
    requires END !in lines
    ensures ReadAll(Blank, lines)
         == var block := AfterBegin(lines); if block.None? then Blank else ReadAll(Opened, block.value)
  {
    if lines != [] && lines[0] != BEGIN {
      StartsAtBegin(lines[1..]);
    }
  }

  /**
   Whatever the output is, only the lines between its markers are read; without
   an end marker everything after the begin marker, without a begin marker nothing.
   */
  lemma OnlyTheBlockMatters(lines: seq<string>)
    ensures ReadAll(Blank, lines)
         == var block := Block(lines); if block.None? then Blank else ReadAll(Opened, block.value)
  {
    hide ReadAll;
    StopsAtEnd(Blank, lines);
    StartsAtBegin(UpToEnd(lines));
  }

  // ---------- who is waiting ----------

  /** The alert of the last line about `name`. */
  function LastAlert(block: seq<string>, name: string): Option<string> {
    if block == [] then None
    else
      var n := |block| - 1;
      var entry := SessionLine(block[n]);
      if entry.Some? && entry.value.0 == name then Some(entry.value.1) else LastAlert(block[..n], name)
  }

  lemma {:induction false} ReadAllSnoc(w: Watch, block: seq<string>, line: string)
    requires END !in block && line != END
    ensures ReadAll(w, block + [line]) == ReadLine(ReadAll(w, block), line)
    decreases |block|
  {
    hide ReadLine;
    if block == [] {
      assert block + [line] == [line] && [line][1..] == [];
    } else {
      assert block[0] in block && forall x :: x in block[1..] ==> x in block;
      assert (block + [line])[1..] == block[1..] + [line];
      ReadAllSnoc(ReadLine(w, block[0]), block[1..], line);
    }
  }

  lemma LineUpdates(w: Watch, line: string, name: string)
    requires w.inBlock
    ensures var v := ReadLine(w, line);
            var entry := SessionLine(line);
            && v.inBlock
            && (if entry.Some? && entry.value.0 == name then name in v.found && v.found[name] == entry.value.1
                else (name in v.found <==> name in w.found) && (name in w.found ==> v.found[name] == w.found[name]))
  {
    hide Words, AlertOf, ParseUnsigned, SplitOnce;
    assert BEGIN[0] == 'T' && "session="[0] == 's';
    if line == BEGIN {
      assert !("session=" <= line);
    }
  }

  lemma {:induction false} FoundIsLast(block: seq<string>, name: string)
    requires END !in block
    ensures var w := ReadAll(Opened, block);
            w.inBlock && LastAlert(block, name) == if name in w.found then Some(w.found[name]) else None
  {
    hide ReadLine, SessionLine;
    if block != [] {
      var n := |block| - 1;
      assert block == block[..n] + [block[n]] && block[n] in block;
      FoundIsLast(block[..n], name);
      ReadAllSnoc(Opened, block[..n], block[n]);
      LineUpdates(ReadAll(Opened, block[..n]), block[n], name);
    }
  }

  /**
   For every output, a wanted session is reported waiting exactly when the last
   line about it inside the report carries a bell as its last alert.
   */
  lemma WaitingIffLastBell(lines: seq<string>, want: seq<string>, i: nat)
    requires i < |want|
    ensures Report(ReadAll(Blank, lines), want)[i].waiting <==>
              Block(lines).Some? && LastAlert(Block(lines).value, want[i]) == Some("bell")
  {
    hide ReadAll, LastAlert;
    OnlyTheBlockMatters(lines);
    if Block(lines).Some? { FoundIsLast(Block(lines).value, want[i]); }
  }

  // ---------- what a printed report says ----------

  /** The lines the watch script prints inside its block. */
  datatype Fact = Tmux(on: bool) | Hooks(on: bool) | Major(version: nat) | Session(name: string, alerts: seq<string>)

  function Flag(on: bool): string {
    if on then "1" else "0"
  }

  function AlertFields(alerts: seq<string>): seq<string> {
    seq(|alerts|, i requires 0 <= i < |alerts| => "alert=" + alerts[i])
  }

  function PrintFact(f: Fact): string {
    match f
    case Tmux(on) => "tmux=" + Flag(on)
    case Hooks(on) => "hooks=" + Flag(on)
    case Major(version) => "tmux_major=" + Digits(version)
    case Session(name, alerts) => "session=" + Unwords([name] + AlertFields(alerts))
  }

  ghost predicate Printable(f: Fact) {
    f.Session? ==> IsWord(f.name, RustSpace) && forall i :: 0 <= i < |f.alerts| ==> Solid(f.alerts[i])
  }

  ghost predicate Solid(s: string) {
    forall i :: 0 <= i < |s| ==> !RustSpace(s[i])
  }

  function PrintFacts(facts: seq<Fact>): seq<string> {
    seq(|facts|, i requires 0 <= i < |facts| => PrintFact(facts[i]))
  }

  function TmuxOn(facts: seq<Fact>): bool {
    if facts == [] then false
    else var f := facts[|facts| - 1]; if f.Tmux? then f.on else TmuxOn(facts[..|facts| - 1])
  }

  function HooksOn(facts: seq<Fact>): bool {
    if facts == [] then false
    else var f := facts[|facts| - 1]; if f.Hooks? then f.on else HooksOn(facts[..|facts| - 1])
  }

  /** The last version; one that does not fit 32 bits counts as 0. */
  function MajorOf(facts: seq<Fact>): nat {
    if facts == [] then 0
    else
      var f := facts[|facts| - 1];
      if f.Major? then (if f.version < 0x1_0000_0000 then f.version else 0) else MajorOf(facts[..|facts| - 1])
  }

  /** The last alert of the last line about a session rang the bell. */
  predicate Rings(facts: seq<Fact>, name: string) {
    facts != [] &&
    var f := facts[|facts| - 1];
    if f.Session? && f.name == name then f.alerts != [] && f.alerts[|f.alerts| - 1] == "bell"
    else Rings(facts[..|facts| - 1], name)
  }

  lemma SplitAtEquals(key: string, value: string)
    requires '=' !in key
    ensures SplitOnce(key + "=" + value) == Some((key, value))
  {
    var s := key + "=" + value;
    var k := Find(s, '=');
    assert s[|key|] == '=';
    assert forall i :: 0 <= i < |key| ==> s[i] == key[i];
    assert k == Some(|key|);
    assert s[..|key|] == key && s[|key| + 1..] == value;
  }

  lemma {:induction false} LastAlertField(alerts: seq<string>)
    ensures AlertOf(AlertFields(alerts)) == if alerts == [] then "none" else alerts[|alerts| - 1]
  {
    if alerts != [] {
      var n := |alerts| - 1;
      SplitAtEquals("alert", alerts[n]);
      assert "alert" + "=" + alerts[n] == "alert=" + alerts[n];
    }
  }

  lemma PrintedSession(f: Fact)
    requires f.Session? && Printable(f)
    ensures SessionLine(PrintFact(f)) == Some((f.name, if f.alerts == [] then "none" else f.alerts[|f.alerts| - 1]))
  {
    var words := [f.name] + AlertFields(f.alerts);
    forall i | 0 <= i < |words| ensures IsWord(words[i], RustSpace) {
      if i > 0 { AlertIsWord(f.alerts[i - 1]); }
    }
    hide RustSpace, IsWord, Words, Unwords, AlertOf;
    assert RustSpace(' ') by { SpaceIsSpace(); }
    WordsOfUnwords(words, RustSpace);
    LastAlertField(f.alerts);
    assert words[1..] == AlertFields(f.alerts);
    var line := "session=" + Unwords(words);
    assert "session=" <= line && line[8..] == Unwords(words);
  }

  lemma SpaceIsSpace()
    ensures RustSpace(' ')
  {}

  lemma AlertIsWord(alert: string)
    requires Solid(alert)
    ensures IsWord("alert=" + alert, RustSpace)
  {
    var field := "alert=" + alert;
    assert forall i :: 6 <= i < |field| ==> field[i] == alert[i - 6];
    assert forall i :: 0 <= i < 6 ==> field[i] == "alert="[i];
  }

  lemma FlagReads(on: bool)
    ensures Flag(on) == "1" <==> on
  {}

  lemma MarkersStartWithT()
    ensures BEGIN[0] == 'T' && END[0] == 'T' && "session="[0] == 's'
  {}

  lemma FieldLine(w: Watch, key: string, value: string)
    requires w.inBlock && key != "" && '=' !in key && key[0] != 'T' && key[0] != 's'
    ensures var line := key + "=" + value;
            && line != BEGIN && line != END
            && ReadLine(w, line)
               == if key == "tmux" then w.(tmux := value == "1")
                  else if key == "hooks" then w.(hooks := value == "1")
                  else if key == "tmux_major" then w.(major := ParseUnsigned(value, U32_MAX))
                  else w
  {
    hide SplitOnce, ParseUnsigned, SessionLine;
    MarkersStartWithT();
    SplitAtEquals(key, value);
    var line := key + "=" + value;
    assert line[0] == key[0];
    assert !("session=" <= line);
  }

  lemma SessionRead(w: Watch, f: Fact)
    requires w.inBlock && f.Session? && Printable(f)
    ensures PrintFact(f) != BEGIN && PrintFact(f) != END
    ensures ReadLine(w, PrintFact(f))
         == w.(found := w.found[f.name := if f.alerts == [] then "none" else f.alerts[|f.alerts| - 1]])
  {
    PrintedSession(f);
    hide SessionLine, SplitOnce, Unwords, Printable;
    MarkersStartWithT();
    assert PrintFact(f)[0] == 's' && "session=" <= PrintFact(f);
  }

  /** What each printed line does to the reader inside the block. */
  lemma PrintedFact(w: Watch, f: Fact)
    requires w.inBlock && Printable(f)
    ensures PrintFact(f) != BEGIN && PrintFact(f) != END
    ensures var v := ReadLine(w, PrintFact(f));
            match f
            case Tmux(on) => v == w.(tmux := on)
            case Hooks(on) => v == w.(hooks := on)
            case Major(n) => v == w.(major := if n < 0x1_0000_0000 then n else 0)
            case Session(name, alerts) =>
              v == w.(found := w.found[name := if alerts == [] then "none" else alerts[|alerts| - 1]])
  {
    hide ReadLine, ParseUnsigned, Digits;
    match f
    case Tmux(on) =>
      FieldLine(w, "tmux", Flag(on));
      assert "tmux" + "=" == "tmux=";
    case Hooks(on) =>
      FieldLine(w, "hooks", Flag(on));
      assert "hooks" + "=" == "hooks=";
    case Major(n) =>
      FieldLine(w, "tmux_major", Digits(n));
      assert "tmux_major" + "=" == "tmux_major=";
      NumberReadsBack(n, U32_MAX);
    case Session(_, _) =>
      SessionRead(w, f);
  }

  lemma {:induction false} PrintedFacts(facts: seq<Fact>, name: string)
    requires forall i :: 0 <= i < |facts| ==> Printable(facts[i])
    ensures END !in PrintFacts(facts)
    ensures var w := ReadAll(Opened, PrintFacts(facts));
            && w.inBlock && w.tmux == TmuxOn(facts) && w.hooks == HooksOn(facts) && w.major == MajorOf(facts)
            && (name in w.found && w.found[name] == "bell" <==> Rings(facts, name))
  {
    hide ReadLine, PrintFact, Printable;
    if facts != [] {
      var n := |facts| - 1;
      PrintedFacts(facts[..n], name);
      var before := PrintFacts(facts[..n]);
      PrintedFact(ReadAll(Opened, before), facts[n]);
      ReadAllSnoc(Opened, before, PrintFact(facts[n]));
      assert PrintFacts(facts) == before + [PrintFact(facts[n])];
      assert "none" != "bell";
    }
  }

  /**
   From a report printed line by line the reader gets back what was written: a
   session waits exactly if the last alert of the last line about it is a bell,
   and watching is supported exactly with tmux and either hooks or a version
   from 2 on, with the message that fits.
   */
  lemma ReportReadsBack(facts: seq<Fact>, want: seq<string>, i: nat)
    requires (forall k :: 0 <= k < |facts| ==> Printable(facts[k])) && i < |want|
    ensures var s := Report(ReadAll(Blank, [BEGIN] + PrintFacts(facts)), want)[i];
            && s.session == want[i] && (s.waiting <==> Rings(facts, want[i]))
            && (s.supported <==> TmuxOn(facts) && (HooksOn(facts) || MajorOf(facts) >= 2))
            && s.message == (if s.supported then None
                             else if TmuxOn(facts) then Some("no watch on this host (tmux too old)")
                             else Some("no watch on this host"))
  {
    var lines := PrintFacts(facts);
    assert BEGIN != END && ([BEGIN] + lines)[1..] == lines;
    PrintedFacts(facts, want[i]);
    hide PrintFacts, Rings, TmuxOn, HooksOn, MajorOf;
    assert ReadAll(Blank, [BEGIN] + lines) == ReadAll(Opened, lines);
  }

  // ---------- attention ----------

  datatype State = Running | Waiting | Done | Failed

  datatype Attention = Attention(state: State, message: Option<string>, noWatch: Option<bool>)

  datatype Update = Update(next: Attention, source: string)

  function Or<T>(a: Option<T>, b: Option<T>): Option<T> {
    if a.Some? then a else b
  }

  predicate Trusted(source: string) {
    source == "bel" || source == "osc" || source == "tmux"
  }

  function Merge(prev: Option<Attention>, u: Update): Attention {
    if u.source == "silence" then
      if prev.Some? then prev.value else Attention(Running, None, None)
    else if u.next.state == Waiting && !Trusted(u.source) then
      if prev.Some? then prev.value else Attention(Running, None, u.next.noWatch)
    else
      Attention(u.next.state,
        Or(u.next.message, if prev.Some? then prev.value.message else None),
        Or(u.next.noWatch, if prev.Some? then prev.value.noWatch else None))
  }

  function MergeAll(updates: seq<Update>): Option<Attention> {
    if updates == [] then None else Some(Merge(MergeAll(updates[..|updates| - 1]), updates[|updates| - 1]))
  }

  /** An update that may decide the state: not silence, and no untrusted claim to be waiting. */
  predicate Decides(u: Update) {
    u.source != "silence" && (u.next.state == Waiting ==> Trusted(u.source))
  }

  /** The state of the last deciding update, or running. */
  function Decided(updates: seq<Update>): State {
    if updates == [] then Running
    else
      var u := updates[|updates| - 1];
      if Decides(u) then u.next.state else Decided(updates[..|updates| - 1])
  }

  /** After any updates the state is that of the last one allowed to decide it. */
  lemma {:induction false} StateIsDecided(updates: seq<Update>)
    requires updates != []
    ensures MergeAll(updates).value.state == Decided(updates)
  {
    var n := |updates| - 1;
    if n > 0 {
      StateIsDecided(updates[..n]);
    } else {
      assert updates[..n] == [];
    }
  }

  /** So nobody is ever shown waiting without a bell, notification or watch update that said so. */
  lemma {:induction false} WaitingHasCause(updates: seq<Update>) returns (i: nat)
    requires updates != [] && MergeAll(updates).value.state == Waiting
    ensures i < |updates| && updates[i].source in {"bel", "osc", "tmux"} && updates[i].next.state == Waiting
    ensures forall j :: i < j < |updates| ==> !Decides(updates[j])
  {
    StateIsDecided(updates);
    i := LastDecider(updates);
  }

  /** Each of those sources arms waiting at once; an update of any other source to another state clears it, silence never. */
  lemma LastUpdateDecides(updates: seq<Update>, u: Update)
    ensures var before, after := MergeAll(updates), MergeAll(updates + [u]).value.state;
            var kept := if before.Some? then before.value.state else Running;
            && (u.source in {"bel", "osc", "tmux"} ==> after == u.next.state)
            && (u.source == "silence" ==> after == kept)
            && (u.source !in {"bel", "osc", "tmux", "silence"} ==> after == if u.next.state == Waiting then kept else u.next.state)
  {
    assert (updates + [u])[..|updates|] == updates;
  }

  lemma {:induction false} LastDecider(updates: seq<Update>) returns (i: nat)
    requires Decided(updates) != Running
    ensures i < |updates| && Decides(updates[i]) && updates[i].next.state == Decided(updates)
    ensures forall j :: i < j < |updates| ==> !Decides(updates[j])
  {
    var n := |updates| - 1;
    if Decides(updates[n]) {
      i := n;
    } else {
      i := LastDecider(updates[..n]);
    }
  }

  /** The message of the last deciding update that has one. */
  function LastMessage(updates: seq<Update>): Option<string> {
    if updates == [] then None
    else
      var u := updates[|updates| - 1];
      if Decides(u) && u.next.message.Some? then u.next.message else LastMessage(updates[..|updates| - 1])
  }

  /** The watch flag of the last deciding update that has one; a first, distrusted claim to be waiting leaves its own. */
  function LastNoWatch(updates: seq<Update>): Option<bool> {
    if updates == [] then None
    else
      var u := updates[|updates| - 1];
      if Decides(u) && u.next.noWatch.Some? then u.next.noWatch
      else if |updates| == 1 && u.source != "silence" then u.next.noWatch
      else LastNoWatch(updates[..|updates| - 1])
  }

  /** A message and a watch flag stay until a deciding update brings a new one. */
  lemma {:induction false} DetailsAreKept(updates: seq<Update>)
    requires updates != []
    ensures MergeAll(updates).value.message == LastMessage(updates)
    ensures MergeAll(updates).value.noWatch == LastNoWatch(updates)
  {
    var n := |updates| - 1;
    if n > 0 {
      DetailsAreKept(updates[..n]);
    } else {
      assert updates[..n] == [];
    }
  }
}
