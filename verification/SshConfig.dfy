/** Normalising an OpenSSH client configuration for import, and the host aliases it names. */
module SshConfig {
  import opened Common
  import opened Text

  // ---------- lines ----------

  function Unlines(lines: seq<string>): string {
    if lines == [] then "" else lines[0] + "\n" + Unlines(lines[1..])
  }

  ghost predicate OneLine(s: string) {
    '\n' !in s
  }

  lemma FindFirst(s: string, rest: string)
    requires OneLine(s)
    ensures Find(s + "\n" + rest, '\n') == Some(|s|)
  {
    var whole := s + "\n" + rest;
    assert whole[|s|] == '\n';
    assert forall i :: 0 <= i < |s| ==> whole[i] == s[i];
  }

  function StripAll(lines: seq<string>): seq<string> {
    seq(|lines|, i requires 0 <= i < |lines| => StripCr(lines[i]))
  }

  lemma NoLines()
    ensures Lines("") == []
  {}

  lemma FirstLine(line: string, rest: string)
    requires OneLine(line)
    ensures Lines(line + "\n" + rest) == [StripCr(line)] + Lines(rest)
  {
    FindFirst(line, rest);
    var whole := line + "\n" + rest;
    assert whole[..|line|] == line && whole[|line| + 1..] == rest;
  }

  lemma {:induction false} LinesOfUnlines(lines: seq<string>)
    requires forall i :: 0 <= i < |lines| ==> OneLine(lines[i])
    ensures Lines(Unlines(lines)) == StripAll(lines)
  {
    hide Lines, StripCr;
    NoLines();
    if lines != [] {
      LinesOfUnlines(lines[1..]);
      FirstLine(lines[0], Unlines(lines[1..]));
      assert [StripCr(lines[0])] + StripAll(lines[1..]) == StripAll(lines);
    }
  }

  lemma {:induction false} LinesAreSingle(text: string)
    ensures forall i :: 0 <= i < |Lines(text)| ==> OneLine(Lines(text)[i])
    decreases |text|
  {
    if text != "" {
      var k := Find(text, '\n');
      if k.Some? {
        LinesAreSingle(text[k.value + 1..]);
      }
    }
  }

  // ---------- directives ----------

  datatype Directive = Directive(keyword: string, value: string)

  function FirstSpace(s: string): (r: Option<nat>)
    ensures r.Some? ==> r.value < |s| && RustSpace(s[r.value]) && forall i :: 0 <= i < r.value ==> !RustSpace(s[i])
    ensures r.None? ==> forall i :: 0 <= i < |s| ==> !RustSpace(s[i])
  {
    if s == "" then None
    else if RustSpace(s[0]) then Some(0)
    else
      var r := FirstSpace(s[1..]);
      if r.None? then None else Some(r.value + 1)
  }

  predicate Separator(c: char) {
    RustSpace(c) || c == '='
  }

  function BeforeComment(line: string): string {
    var k := Find(line, '#');
    if k.None? then line else line[..k.value]
  }

  /** Where the keyword ends: at the first whitespace, or without any at the first equals sign. */
  function KeywordEnd(body: string): (r: Option<nat>)
    ensures r.Some? ==> r.value < |body| && forall i :: 0 <= i < r.value ==> !RustSpace(body[i])
  {
    var space := FirstSpace(body);
    if space.Some? then space else Find(body, '=')
  }

  function ValueFrom(rest: string): string {
    Trim(TrimStart(rest, Separator), RustSpace)
  }

  /** Keyword and value of a trimmed, comment-free line. */
  function SplitBody(body: string): Option<Directive> {
    var at := KeywordEnd(body);
    if at.None? then None
    else
      var keyword, value := body[..at.value], ValueFrom(body[at.value..]);
      if keyword != "" && value != "" then Some(Directive(keyword, value)) else None
  }

  function SplitDirective(line: string): Option<Directive> {
    if line == "" || line[0] == '#' then None else SplitBody(Trim(BeforeComment(line), RustSpace))
  }

  /** The directive on a line of the file, if it carries one. */
  function Read(line: string): Option<Directive> {
    SplitDirective(Trim(line, RustSpace))
  }

  function Print(d: Directive): string {
    d.keyword + " " + d.value
  }

  // ---------- trimming ----------

  lemma SliceLacks(s: string, i: nat, j: nat, c: char)
    requires i <= j <= |s| && c !in s
    ensures c !in s[i..j]
  {
    assert forall k :: i <= k < j ==> s[i..j][k - i] == s[k];
  }

  lemma TrimLacks(s: string, c: char)
    requires c !in s
    ensures c !in Trim(s, RustSpace) && c !in ValueFrom(s)
  {
    hide RustSpace;
    var a := TrimStart(s, RustSpace);
    SliceLacks(s, |s| - |a|, |s|, c);
    SliceLacks(a, 0, |Trim(s, RustSpace)|, c);
    var b := TrimStart(s, Separator);
    SliceLacks(s, |s| - |b|, |s|, c);
    var d := TrimStart(b, RustSpace);
    SliceLacks(b, |b| - |d|, |b|, c);
    SliceLacks(d, 0, |Trim(b, RustSpace)|, c);
  }

  /** A keyword and value that a directive can carry. */
  ghost predicate Clean(d: Directive) {
    && d.keyword != "" && d.value != ""
    && (forall i :: 0 <= i < |d.keyword| ==> !RustSpace(d.keyword[i]))
    && Trimmed(d.value, RustSpace) && d.value[0] != '='
    && '#' !in d.keyword && '#' !in d.value && '\n' !in Print(d)
  }

  lemma ValueIsClean(s: string)
    ensures Trimmed(ValueFrom(s), RustSpace) && (ValueFrom(s) != "" ==> !Separator(ValueFrom(s)[0]))
  {
    hide RustSpace;
    var rest := TrimStart(s, Separator);
    TrimIsTrimmed(rest, RustSpace);
    if rest != "" {
      assert TrimStart(rest, RustSpace) == rest;
    }
  }

  lemma BodyLacks(body: string, at: nat, c: char)
    requires at <= |body| && c !in body && c != ' '
    ensures c !in body[..at] && c !in ValueFrom(body[at..])
    ensures c !in Print(Directive(body[..at], ValueFrom(body[at..])))
  {
    hide RustSpace, Trim;
    assert body[..at] == body[0..at] && body[at..] == body[at..|body|];
    SliceLacks(body, 0, at, c);
    SliceLacks(body, at, |body|, c);
    TrimLacks(body[at..], c);
  }

  lemma BodyIsClean(body: string)
    requires '#' !in body && '\n' !in body && SplitBody(body).Some?
    ensures Clean(SplitBody(body).value)
  {
    hide RustSpace, ValueFrom, Print, KeywordEnd;
    var at := KeywordEnd(body).value;
    ValueIsClean(body[at..]);
    BodyLacks(body, at, '#');
    BodyLacks(body, at, '\n');
  }

  lemma CommentFree(line: string)
    requires OneLine(line)
    ensures '#' !in BeforeComment(line) && '\n' !in BeforeComment(line)
  {}

  lemma SplitIsClean(line: string)
    requires OneLine(line) && SplitDirective(line).Some?
    ensures Clean(SplitDirective(line).value)
  {
    hide RustSpace, SplitBody, Clean, Trim, BeforeComment;
    CommentFree(line);
    TrimLacks(BeforeComment(line), '#');
    TrimLacks(BeforeComment(line), '\n');
    BodyIsClean(Trim(BeforeComment(line), RustSpace));
  }

  lemma SpaceAfterKeyword(keyword: string, value: string)
    requires forall i :: 0 <= i < |keyword| ==> !RustSpace(keyword[i])
    ensures FirstSpace(keyword + " " + value) == Some(|keyword|)
  {
    assert RustSpace(' ');
    hide RustSpace;
    var line, k := keyword + " " + value, |keyword|;
    assert line[k] == ' ' && forall i :: 0 <= i < k ==> line[i] == keyword[i];
  }

  lemma ValueOfPrinted(value: string)
    requires value != "" && Trimmed(value, RustSpace) && value[0] != '='
    ensures ValueFrom(" " + value) == value
  {
    DropSeparator(value);
    TrimOfTrimmed(value, RustSpace);
  }

  lemma SplitPrinted(d: Directive)
    requires Clean(d)
    ensures SplitBody(Print(d)) == Some(d)
  {
    hide RustSpace, ValueFrom, FirstSpace;
    SpaceAfterKeyword(d.keyword, d.value);
    ValueOfPrinted(d.value);
    assert Print(d)[..|d.keyword|] == d.keyword && Print(d)[|d.keyword|..] == " " + d.value;
  }

  /** Every directive survives being printed and read again. */
  lemma ReadPrint(d: Directive)
    requires Clean(d)
    ensures Read(Print(d)) == Some(d)
  {
    hide RustSpace, SplitBody;
    var line := Print(d);
    assert line[0] == d.keyword[0] && line[|line| - 1] == d.value[|d.value| - 1];
    TrimOfTrimmed(line, RustSpace);
    assert d.keyword[0] in d.keyword;
    assert '#' !in line;
    SplitPrinted(d);
  }

  lemma DropSeparator(value: string)
    requires value != "" && !Separator(value[0])
    ensures TrimStart(" " + value, Separator) == value
  {
    assert (" " + value)[1..] == value;
  }

  // ---------- how a directive may be written ----------

  lemma FindHash(body: string, rest: string)
    requires '#' !in body
    ensures BeforeComment(body + "#" + rest) == body
  {
    var line := body + "#" + rest;
    var k := Find(line, '#');
    assert line[|body|] == '#';
    assert forall i :: 0 <= i < |body| ==> line[i] == body[i];
    assert k == Some(|body|);
    assert line[..|body|] == body;
  }

  lemma NoComment(body: string)
    requires '#' !in body
    ensures BeforeComment(body) == body
  {}

  lemma FirstSpaceAt(keyword: string, rest: string)
    requires rest != "" && RustSpace(rest[0]) && forall i :: 0 <= i < |keyword| ==> !RustSpace(keyword[i])
    ensures FirstSpace(keyword + rest) == Some(|keyword|)
  {
    hide RustSpace;
    var body := keyword + rest;
    assert body[|keyword|] == rest[0];
    assert forall i :: 0 <= i < |keyword| ==> body[i] == keyword[i];
  }

  lemma SpacedBody(d: Directive, sep: string)
    requires Clean(d) && sep != "" && RustSpace(sep[0]) && AllSpace(sep, Separator)
    ensures SplitBody(d.keyword + sep + d.value) == Some(d)
  {
    hide RustSpace, Separator, FirstSpace, ValueFrom;
    var rest := sep + d.value;
    assert rest[0] == sep[0];
    FirstSpaceAt(d.keyword, rest);
    Associate(d.keyword, sep, d.value);
    var body := d.keyword + rest;
    assert body[..|d.keyword|] == d.keyword && body[|d.keyword|..] == rest;
    SeparatorsDropped(sep, d.value);
  }

  lemma SeparatorsDropped(sep: string, value: string)
    requires AllSpace(sep, Separator) && value != "" && Trimmed(value, RustSpace) && value[0] != '='
    ensures ValueFrom(sep + value) == value
  {
    assert !Separator(value[0]);
    hide RustSpace, Separator;
    TrimStartPadded(sep, value, Separator);
    TrimOfTrimmed(value, RustSpace);
  }

  lemma BodyIsSolid(d: Directive, sep: string)
    requires Clean(d) && AllSpace(sep, Separator)
    ensures var body := d.keyword + sep + d.value;
            body != "" && Trimmed(body, RustSpace) && '#' !in body && body[0] != '#'
  {
    assert !Separator('#');
    hide RustSpace, Separator;
    var body := d.keyword + sep + d.value;
    assert body[0] == d.keyword[0] && body[|body| - 1] == d.value[|d.value| - 1];
    assert d.keyword[0] in d.keyword;
    assert '#' !in sep;
  }

  /**
   A directive is read back however it is indented, whatever whitespace and
   equals signs follow the whitespace behind its keyword, and whatever blanks
   and comment follow its value.
   */
  lemma ReadRendered(d: Directive, indent: string, sep: string, trail: string, comment: string)
    requires Clean(d) && sep != "" && RustSpace(sep[0]) && AllSpace(sep, Separator)
    requires AllSpace(indent, RustSpace) && AllSpace(trail, RustSpace)
    ensures Read(indent + (d.keyword + sep + d.value) + trail) == Some(d)
    ensures Read(indent + (d.keyword + sep + d.value) + (trail + "#" + comment)) == Some(d)
  {
    var body := d.keyword + sep + d.value;
    BodyIsSolid(d, sep);
    SpacedBody(d, sep);
    hide RustSpace, Separator, SplitBody, Clean;
    ReadPadded(body, indent, trail);
    ReadCommented(body, indent, trail, comment);
  }

  lemma ReadPadded(body: string, indent: string, trail: string)
    requires body != "" && Trimmed(body, RustSpace) && '#' !in body && body[0] != '#'
    requires AllSpace(indent, RustSpace) && AllSpace(trail, RustSpace)
    ensures Read(indent + body + trail) == SplitBody(body)
  {
    hide RustSpace, SplitBody, Trim;
    TrimPadded(indent, body, trail, RustSpace);
    NoComment(body);
    TrimOfTrimmed(body, RustSpace);
  }

  lemma ReadCommented(body: string, indent: string, trail: string, comment: string)
    requires body != "" && Trimmed(body, RustSpace) && '#' !in body && body[0] != '#'
    requires AllSpace(indent, RustSpace) && AllSpace(trail, RustSpace)
    ensures Read(indent + body + (trail + "#" + comment)) == SplitBody(body)
  {
    HashIsSolid();
    hide RustSpace, SplitBody, Trim, BeforeComment;
    Commented(body, indent, trail, comment);
    TrimPadded("", body, trail, RustSpace);
    assert "" + body + trail == body + trail;
  }

  lemma HashIsSolid()
    ensures !RustSpace('#')
  {}

  /** What is left of a commented line after trimming starts with its body. */
  lemma Commented(body: string, indent: string, trail: string, comment: string)
    requires body != "" && Trimmed(body, RustSpace) && '#' !in body && AllSpace(indent, RustSpace)
    requires AllSpace(trail, RustSpace) && !RustSpace('#')
    ensures var line := Trim(indent + body + (trail + "#" + comment), RustSpace);
            line != "" && line[0] == body[0] && BeforeComment(line) == body + trail
  {
    var rest := trail + "#" + comment;
    var core := body + trail + "#";
    assert '#' !in trail;
    assert indent + body + rest == indent + (core + comment);
    hide RustSpace, TrimStart, TrimEnd, BeforeComment;
    assert (core + comment)[0] == body[0];
    TrimStartPadded(indent, core + comment, RustSpace);
    var end := EndOf(core, comment);
    assert core + end == (body + trail) + "#" + end;
    FindHash(body + trail, end);
    assert (core + end)[0] == body[0];
  }

  /** Trimming the end never goes beyond a solid character. */
  lemma EndOf(front: string, tail: string) returns (end: string)
    requires front != "" && !RustSpace(front[|front| - 1])
    ensures TrimEnd(front + tail, RustSpace) == front + end
  {
    hide RustSpace, TrimEnd;
    var whole := front + tail;
    var r := TrimEnd(whole, RustSpace);
    assert whole[|front| - 1] == front[|front| - 1];
    assert |r| >= |front|;
    end := r[|front|..];
    assert r[..|front|] == whole[..|front|] == front;
  }

  /**
   Written with an equals sign right behind the keyword, a directive is read
   back if and only if its value contains no whitespace.
   */
  lemma EqualsFormReadIff(d: Directive)
    requires Clean(d) && '=' !in d.keyword
    ensures Read(d.keyword + "=" + d.value) == Some(d) <==> Unspaced(d.value)
  {
    var body := d.keyword + "=" + d.value;
    assert AllSpace("=", Separator);
    BodyIsSolid(d, "=");
    EqualsBody(d);
    hide RustSpace, SplitBody, Trim, Clean;
    TrimOfTrimmed(body, RustSpace);
    NoComment(body);
  }

  lemma EqualsBody(d: Directive)
    requires Clean(d) && '=' !in d.keyword
    ensures SplitBody(d.keyword + "=" + d.value) == Some(d) <==> Unspaced(d.value)
  {
    hide RustSpace, FirstSpace, ValueFrom, Separator, Unspaced;
    EqualsValue(d.value);
    var k, body := |d.keyword|, d.keyword + "=" + d.value;
    assert Unspaced(d.keyword) by { UnspacedIf(d.keyword); }
    EqualsFirst(d.keyword, d.value);
    assert body[..k] == d.keyword && body[k..] == "=" + d.value;
    if Unspaced(d.value) {
      NoSpaceAnywhere(d.keyword, d.value);
    } else {
      SpaceInValue(d.keyword, d.value);
    }
  }

  ghost predicate Unspaced(s: string) {
    forall i :: 0 <= i < |s| ==> !RustSpace(s[i])
  }

  lemma UnspacedIf(s: string)
    requires forall i :: 0 <= i < |s| ==> !RustSpace(s[i])
    ensures Unspaced(s)
  {}

  lemma EqualsValue(value: string)
    requires value != "" && Trimmed(value, RustSpace) && value[0] != '='
    ensures ValueFrom("=" + value) == value
  {
    hide RustSpace, ValueFrom;
    assert AllSpace("=", Separator);
    SeparatorsDropped("=", value);
  }

  lemma EqualsIsSolid()
    ensures !RustSpace('=')
  {}

  lemma NoSpaceAnywhere(keyword: string, value: string)
    requires Unspaced(keyword) && Unspaced(value)
    ensures FirstSpace(keyword + "=" + value) == None
  {
    EqualsIsSolid();
    hide RustSpace;
    var k, body := |keyword|, keyword + "=" + value;
    assert forall i :: 0 <= i < k ==> body[i] == keyword[i];
    assert body[k] == '=';
    assert forall i :: k < i < |body| ==> body[i] == value[i - k - 1];
  }

  lemma SpaceInValue(keyword: string, value: string)
    requires Unspaced(keyword) && !Unspaced(value)
    ensures FirstSpace(keyword + "=" + value).Some? && FirstSpace(keyword + "=" + value).value > |keyword|
  {
    EqualsIsSolid();
    hide RustSpace;
    var j :| 0 <= j < |value| && RustSpace(value[j]);
    var k, body := |keyword|, keyword + "=" + value;
    hide FirstSpace;
    assert body[k + 1 + j] == value[j];
    assert forall i :: 0 <= i < k ==> body[i] == keyword[i];
    assert body[k] == '=';
  }

  lemma EqualsFirst(keyword: string, value: string)
    requires '=' !in keyword
    ensures Find(keyword + "=" + value, '=') == Some(|keyword|)
  {
    var body := keyword + "=" + value;
    assert body[|keyword|] == '=';
    assert forall i :: 0 <= i < |keyword| ==> body[i] == keyword[i];
  }

  // ---------- sanitizing ----------

  function Lower(c: char): char {
    if 'A' <= c <= 'Z' then (c as int - 'A' as int + 'a' as int) as char else c
  }

  predicate EqIgnoreCase(s: string, word: string) {
    |s| == |word| && forall i :: 0 <= i < |s| ==> Lower(s[i]) == Lower(word[i])
  }

  predicate HasKeyword(line: string, word: string) {
    var d := Read(line);
    d.Some? && EqIgnoreCase(d.value.keyword, word)
  }

  datatype Warning = MatchSkipped | IncludeNotExpanded

  /** Whether the last line lies in a Match section. */
  function InMatch(lines: seq<string>): bool {
    if lines == [] then false
    else
      var n := |lines| - 1;
      if HasKeyword(lines[n], "match") then true
      else if HasKeyword(lines[n], "host") then false
      else InMatch(lines[..n])
  }

  function Normal(line: string): string {
    var d := Read(line);
    if d.Some? then Print(d.value) else line
  }

  /** The normalised lines outside Match sections, in order. */
  function Kept(lines: seq<string>): seq<string> {
    if lines == [] then []
    else
      var n := |lines| - 1;
      Kept(lines[..n]) + (if InMatch(lines) then [] else [Normal(lines[n])])
  }

  function Warnings(lines: seq<string>): seq<Warning> {
    if lines == [] then []
    else
      var n := |lines| - 1;
      var before := Warnings(lines[..n]);
      if HasKeyword(lines[n], "match") then
        if MatchSkipped in before then before else before + [MatchSkipped]
      else if HasKeyword(lines[n], "include") && IncludeNotExpanded !in before then before + [IncludeNotExpanded]
      else before
  }

  /** The section a line belongs to is the one opened by the last Host or Match before it. */
  lemma {:induction false} InMatchIff(lines: seq<string>)
    ensures InMatch(lines) <==> exists j :: OpenedBy(lines, j)
  {
    hide HasKeyword;
    if lines != [] {
      var n := |lines| - 1;
      InMatchIff(lines[..n]);
      if HasKeyword(lines[n], "match") {
        assert OpenedBy(lines, n);
      } else if InMatch(lines) {
        var j :| OpenedBy(lines[..n], j);
        assert OpenedBy(lines, j);
      } else if !HasKeyword(lines[n], "host") {
        assert forall j :: OpenedBy(lines, j) ==> OpenedBy(lines[..n], j);
      }
    }
  }

  /** The last section of `lines` is the Match section that starts at line `j`. */
  ghost predicate OpenedBy(lines: seq<string>, j: int) {
    && 0 <= j < |lines| && HasKeyword(lines[j], "match")
    && forall k :: j < k < |lines| ==> !HasKeyword(lines[k], "host")
  }

  /** Normalising a line does not change its directive, and doing it twice changes nothing more. */
  lemma NormalKeepsRead(line: string)
    requires OneLine(line)
    ensures Read(Normal(line)) == Read(line) && Normal(Normal(line)) == Normal(line) && OneLine(Normal(line))
  {
    hide SplitDirective;
    if Read(line).Some? {
      TrimLacks(line, '\n');
      SplitIsClean(Trim(line, RustSpace));
      ReadPrint(Read(line).value);
    }
  }

  ghost predicate AllSingle(lines: seq<string>) {
    forall i :: 0 <= i < |lines| ==> OneLine(lines[i])
  }

  /** Nothing that is kept opens a Match section or needs normalising again. */
  lemma {:induction false} KeptIsClean(lines: seq<string>)
    requires AllSingle(lines)
    ensures AllSingle(Kept(lines))
    ensures forall i :: 0 <= i < |Kept(lines)| ==>
              !HasKeyword(Kept(lines)[i], "match") && Normal(Kept(lines)[i]) == Kept(lines)[i]
  {
    hide Read, Normal, EqIgnoreCase;
    if lines != [] {
      var n := |lines| - 1;
      KeptIsClean(lines[..n]);
      NormalKeepsRead(lines[n]);
    }
  }

  lemma {:induction false} KeepsCleanLines(lines: seq<string>)
    requires forall i :: 0 <= i < |lines| ==> !HasKeyword(lines[i], "match") && Normal(lines[i]) == lines[i]
    ensures !InMatch(lines) && Kept(lines) == lines
  {
    hide HasKeyword, Normal;
    if lines != [] {
      KeepsCleanLines(lines[..|lines| - 1]);
    }
  }

  /** Sanitizing the kept lines again keeps all of them, unchanged. */
  lemma SanitizeIsIdempotent(lines: seq<string>)
    requires AllSingle(lines)
    ensures Kept(Kept(lines)) == Kept(lines)
  {
    KeptIsClean(lines);
    KeepsCleanLines(Kept(lines));
  }

  // ---------- the same on the text ----------

  function Sanitize(text: string): string {
    Unlines(Kept(Lines(text)))
  }

  predicate EndsCr(line: string) {
    line != "" && line[|line| - 1] == '\r'
  }

  lemma StripCrKeepsRead(line: string)
    ensures Read(StripCr(line)) == Read(line)
  {
    hide SplitDirective, Trim;
    if EndsCr(line) {
      TrimDropsCr(StripCr(line));
      assert line == StripCr(line) + "\r";
    }
  }

  lemma TrimStartIs(lead: string, rest: string)
    requires forall i :: 0 <= i < |lead| ==> RustSpace(lead[i])
    requires rest != "" ==> !RustSpace(rest[0])
    ensures TrimStart(lead + rest, RustSpace) == rest
  {
    hide RustSpace, TrimStart;
    var s := lead + rest;
    var r := TrimStart(s, RustSpace);
    var p := |s| - |r|;
    assert forall i :: 0 <= i < |lead| ==> s[i] == lead[i];
    assert rest != "" ==> s[|lead|] == rest[0];
    assert r != "" ==> r[0] == s[p];
    assert p == |lead|;
    assert s[|lead|..] == rest;
  }

  lemma TrimStartSplits(s: string) returns (lead: string)
    ensures s == lead + TrimStart(s, RustSpace)
    ensures forall i :: 0 <= i < |lead| ==> RustSpace(lead[i])
  {
    hide RustSpace, TrimStart;
    lead := s[..|s| - |TrimStart(s, RustSpace)|];
  }

  lemma TrimStartThenCr(lead: string, rest: string)
    requires forall i :: 0 <= i < |lead| ==> RustSpace(lead[i])
    requires rest != "" ==> !RustSpace(rest[0])
    ensures TrimStart(lead + rest + "\r", RustSpace) == if rest == "" then "" else rest + "\r"
  {
    assert RustSpace('\r');
    hide RustSpace, TrimStart;
    if rest == "" {
      TrimStartIs(lead + "\r", "");
      assert lead + rest + "\r" == lead + "\r" + "";
    } else {
      TrimStartIs(lead, rest + "\r");
      Associate(lead, rest, "\r");
    }
  }

  lemma TrimEndDropsCr(s: string)
    ensures TrimEnd(s + "\r", RustSpace) == TrimEnd(s, RustSpace)
  {
    assert (s + "\r")[..|s|] == s;
  }

  lemma TrimDropsCr(s: string)
    ensures Trim(s + "\r", RustSpace) == Trim(s, RustSpace)
  {
    hide RustSpace, TrimStart, TrimEnd;
    var rest := TrimStart(s, RustSpace);
    var lead := TrimStartSplits(s);
    TrimStartThenCr(lead, rest);
    TrimEndDropsCr(rest);
  }

  /** A line that carries a directive is printed without a trailing carriage return. */
  lemma PrintedHasNoCr(line: string)
    requires OneLine(line) && Read(line).Some?
    ensures !EndsCr(Normal(line))
  {
    TrimLacks(line, '\n');
    SplitIsClean(Trim(line, RustSpace));
    var d := Read(line).value;
    assert Print(d)[|Print(d)| - 1] == d.value[|d.value| - 1];
    assert RustSpace('\r');
  }

  ghost predicate NoCr(lines: seq<string>) {
    forall i :: 0 <= i < |lines| ==> !EndsCr(lines[i])
  }

  /** Line `i` lies outside every Match section, carries no directive and ends in a carriage return. */
  predicate RawCr(lines: seq<string>, i: nat) {
    i < |lines| && !InMatch(lines[..i + 1]) && Read(lines[i]).None? && EndsCr(lines[i])
  }

  lemma RawCrInPrefix(lines: seq<string>, i: nat)
    requires i + 1 < |lines|
    ensures RawCr(lines[..|lines| - 1], i) <==> RawCr(lines, i)
  {
    hide InMatch, Read, EndsCr;
    assert lines[..|lines| - 1][..i + 1] == lines[..i + 1];
  }

  lemma {:induction false} KeptCr(lines: seq<string>)
    requires AllSingle(lines)
    ensures NoCr(Kept(lines)) <==> forall i: nat :: !RawCr(lines, i)
  {
    hide Read, InMatch, EndsCr;
    if lines != [] {
      var n := |lines| - 1;
      KeptCr(lines[..n]);
      assert lines[..n + 1] == lines;
      if Read(lines[n]).Some? { PrintedHasNoCr(lines[n]); }
      NoCrSnoc(Kept(lines[..n]), Normal(lines[n]));
      assert Kept(lines[..n]) + [] == Kept(lines[..n]);
      assert NoCr(Kept(lines)) <==> NoCr(Kept(lines[..n])) && !RawCr(lines, n);
      hide RawCr, NoCr;
      forall i: nat | i < n ensures RawCr(lines[..n], i) <==> RawCr(lines, i) { RawCrInPrefix(lines, i); }
      RawCrBounded(lines);
      RawCrBounded(lines[..n]);
    }
  }

  lemma RawCrBounded(lines: seq<string>)
    ensures forall i: nat :: RawCr(lines, i) ==> i < |lines|
  {}

  lemma NoCrSnoc(lines: seq<string>, last: string)
    ensures NoCr(lines + [last]) <==> NoCr(lines) && !EndsCr(last)
  {
    var all := lines + [last];
    assert all[|lines|] == last && forall i :: 0 <= i < |lines| ==> all[i] == lines[i];
  }

  function TextLength(lines: seq<string>): nat {
    if lines == [] then 0 else |lines[0]| + 1 + TextLength(lines[1..])
  }

  lemma {:induction false} UnlinesLength(lines: seq<string>)
    ensures |Unlines(lines)| == TextLength(lines)
  {
    if lines != [] {
      UnlinesLength(lines[1..]);
    }
  }

  /** Stripping shortens the text unless there is nothing to strip. */
  lemma {:induction false} StrippingShows(lines: seq<string>)
    ensures TextLength(StripAll(lines)) <= TextLength(lines)
    ensures NoCr(lines) ==> StripAll(lines) == lines
    ensures !NoCr(lines) ==> TextLength(StripAll(lines)) < TextLength(lines)
  {
    if lines != [] {
      StrippingShows(lines[1..]);
      assert StripAll(lines)[1..] == StripAll(lines[1..]);
      if NoCr(lines) {
        assert NoCr(lines[1..]);
      } else if !EndsCr(lines[0]) {
        var i :| 0 <= i < |lines| && EndsCr(lines[i]);
        assert lines[1..][i - 1] == lines[i];
      }
    }
  }

  lemma StrippedStaysClean(line: string)
    requires OneLine(line) && Normal(line) == line && !HasKeyword(line, "match")
    ensures Normal(StripCr(line)) == StripCr(line) && !HasKeyword(StripCr(line), "match")
  {
    hide Read, EqIgnoreCase;
    StripCrKeepsRead(line);
    if Read(line).Some? {
      PrintedHasNoCr(line);
    }
  }

  lemma SecondPass(text: string)
    ensures Sanitize(Sanitize(text)) == Unlines(StripAll(Kept(Lines(text))))
    ensures AllSingle(Lines(text))
  {
    hide Lines, Unlines, StripCr, HasKeyword, Normal, Kept;
    LinesAreSingle(text);
    var kept := Kept(Lines(text));
    KeptIsClean(Lines(text));
    LinesOfUnlines(kept);
    forall i | 0 <= i < |kept|
      ensures !HasKeyword(StripAll(kept)[i], "match") && Normal(StripAll(kept)[i]) == StripAll(kept)[i]
    {
      StrippedStaysClean(kept[i]);
    }
    KeepsCleanLines(StripAll(kept));
  }

  /**
   Sanitizing a text twice gives the same text as once if and only if no line
   outside the Match sections without a directive ends in a carriage return
   after line splitting (as in a comment ended by two of them).
   */
  lemma SanitizeTextIdempotentIff(text: string)
    ensures Sanitize(Sanitize(text)) == Sanitize(text) <==> forall i: nat :: !RawCr(Lines(text), i)
  {
    hide Lines, Unlines, Kept, RawCr, NoCr, StripAll, TextLength;
    SecondPass(text);
    var kept := Kept(Lines(text));
    KeptCr(Lines(text));
    StrippingShows(kept);
    UnlinesLength(kept);
    UnlinesLength(StripAll(kept));
  }

  lemma KeptOne(line: string)
    requires Read(line).None?
    ensures Kept([line]) == [line] && Unlines([line]) == line + "\n"
  {
    hide Read;
    assert [line][..0] == [] && [line][1..] == [] && Kept([]) == [];
    assert !InMatch([line]);
  }

  lemma TrimHash()
    ensures Trim("#", RustSpace) == "#"
  {
    assert !RustSpace('#');
    TrimOfTrimmed("#", RustSpace);
  }

  lemma HashIsComment()
    ensures SplitDirective("#") == None
  {
    hide SplitBody, Trim;
    assert "#"[0] == '#';
  }

  lemma CommentReadsNone()
    ensures Read("#").None? && Read("#\r").None?
  {
    hide SplitDirective, Trim, RustSpace;
    TrimHash();
    HashIsComment();
    TrimDropsCr("#");
    assert "#" + "\r" == "#\r";
  }

  /** A comment ended by two carriage returns loses one on every pass. */
  lemma DoubleCrIsNotStable()
    ensures Sanitize("#\r\r\n") == "#\r\n" && Sanitize("#\r\n") == "#\n"
  {
    hide Read, Kept, Lines, Unlines;
    CommentReadsNone();
    KeptOne("#\r");
    KeptOne("#");
    FirstLine("#\r\r", "");
    FirstLine("#\r", "");
    NoLines();
    assert "#\r\r"[..2] == "#\r" && "#\r"[..1] == "#";
    assert "#\r\r" + "\n" + "" == "#\r\r\n" && "#\r" + "\n" + "" == "#\r\n";
    assert ["#\r"] + [] == ["#\r"] && ["#"] + [] == ["#"];
  }

  // ---------- aliases ----------

  /** Rust's ASCII whitespace. */
  predicate AsciiSpace(c: char) {
    c == ' ' || c == '\t' || c == '\n' || c == '\U{0c}' || c == '\r'
  }

  predicate Concrete(alias: string) {
    alias != "" && alias[0] != '!' && '*' !in alias && '?' !in alias && '[' !in alias
  }

  function ConcreteOnly(words: seq<string>): seq<string> {
    if words == [] then []
    else
      var n := |words| - 1;
      ConcreteOnly(words[..n]) + (if Concrete(words[n]) then [words[n]] else [])
  }

  /** The concrete names a line declares. */
  function Declared(line: string): seq<string> {
    if HasKeyword(line, "host") then ConcreteOnly(Words(Read(line).value.value, AsciiSpace)) else []
  }

  /** Every concrete name of the file, repetitions included. */
  function Candidates(lines: seq<string>): seq<string> {
    if lines == [] then []
    else Candidates(lines[..|lines| - 1]) + Declared(lines[|lines| - 1])
  }

  /** The first occurrence of each element. */
  function Distinct(names: seq<string>): seq<string> {
    if names == [] then []
    else
      var n := |names| - 1;
      var before := Distinct(names[..n]);
      if names[n] in before then before else before + [names[n]]
  }

  function Aliases(lines: seq<string>): seq<string> {
    Distinct(Candidates(lines))
  }

  lemma DeclaredByRead(a: string, b: string)
    requires Read(a) == Read(b)
    ensures Declared(a) == Declared(b)
  {}

  /** Only lines that name no host are dropped. */
  lemma {:induction false} KeptDeclares(lines: seq<string>)
    requires AllSingle(lines)
    ensures Candidates(Kept(lines)) == Candidates(lines)
  {
    hide Read, EqIgnoreCase, ConcreteOnly, Words, Normal;
    if lines != [] {
      var n := |lines| - 1;
      KeptDeclares(lines[..n]);
      var before := Kept(lines[..n]);
      if InMatch(lines) {
        assert before + [] == before;
        MatchIsNoHost(lines[n]);
        assert Candidates(lines[..n]) + [] == Candidates(lines[..n]);
      } else {
        NormalKeepsRead(lines[n]);
        DeclaredByRead(Normal(lines[n]), lines[n]);
        assert (before + [Normal(lines[n])])[..|before|] == before;
      }
    }
  }

  lemma MatchIsNoHost(line: string)
    ensures HasKeyword(line, "match") ==> !HasKeyword(line, "host")
  {
    assert |"match"| == 5 && |"host"| == 4;
  }

  lemma {:induction false} StripDeclares(lines: seq<string>)
    ensures Candidates(StripAll(lines)) == Candidates(lines)
  {
    hide Declared, StripCr;
    if lines != [] {
      var n := |lines| - 1;
      StripDeclares(lines[..n]);
      assert StripAll(lines)[..n] == StripAll(lines[..n]);
      StripCrKeepsRead(lines[n]);
      DeclaredByRead(StripCr(lines[n]), lines[n]);
    }
  }

  /** Sanitizing a text leaves its concrete aliases, and their order, unchanged. */
  lemma SanitizeKeepsAliases(text: string)
    ensures Aliases(Lines(Sanitize(text))) == Aliases(Lines(text))
  {
    hide Lines, Unlines, Kept, Candidates, HasKeyword, Normal, StripAll;
    LinesAreSingle(text);
    KeptIsClean(Lines(text));
    LinesOfUnlines(Kept(Lines(text)));
    StripDeclares(Kept(Lines(text)));
    KeptDeclares(Lines(text));
  }

  /** Each element once, exactly the elements of the input, by first occurrence. */
  lemma {:induction false} DistinctIsFirstOccurrence(names: seq<string>)
    ensures forall i, j :: 0 <= i < j < |Distinct(names)| ==> Distinct(names)[i] != Distinct(names)[j]
    ensures forall x :: x in Distinct(names) <==> x in names
    ensures forall k :: 0 <= k <= |names| ==> Distinct(names[..k]) <= Distinct(names)
  {
    if names != [] {
      var n := |names| - 1;
      DistinctIsFirstOccurrence(names[..n]);
      assert names[..n + 1] == names;
      assert names == names[..n] + [names[n]];
      forall k | 0 <= k <= |names| ensures Distinct(names[..k]) <= Distinct(names) {
        if k <= n { assert names[..n][..k] == names[..k]; }
      }
    }
  }

  lemma {:induction false} ConcreteOnlyIsConcrete(words: seq<string>)
    ensures forall x :: x in ConcreteOnly(words) <==> x in words && Concrete(x)
  {
    hide Concrete;
    if words != [] {
      ConcreteOnlyIsConcrete(words[..|words| - 1]);
      assert words == words[..|words| - 1] + [words[|words| - 1]];
    }
  }

  lemma {:induction false} CandidatesAreConcrete(lines: seq<string>)
    ensures forall x :: x in Candidates(lines) ==> Concrete(x)
  {
    hide Concrete, Words, ConcreteOnly, Read, EqIgnoreCase;
    if lines != [] {
      var n := |lines| - 1;
      CandidatesAreConcrete(lines[..n]);
      if HasKeyword(lines[n], "host") {
        ConcreteOnlyIsConcrete(Words(Read(lines[n]).value.value, AsciiSpace));
      }
    }
  }

  /** The imported aliases are distinct and free of patterns. */
  lemma AliasesAreImportable(lines: seq<string>)
    ensures forall i, j :: 0 <= i < j < |Aliases(lines)| ==> Aliases(lines)[i] != Aliases(lines)[j]
    ensures forall x :: x in Aliases(lines) ==> Concrete(x)
    ensures forall x :: x in Aliases(lines) <==> x in Candidates(lines)
  {
    hide Candidates, Distinct, Concrete;
    DistinctIsFirstOccurrence(Candidates(lines));
    CandidatesAreConcrete(lines);
  }

  /** The word in any mixture of small and capital letters. */
  predicate InAnyCase(s: string, word: string) {
    |s| == |word| && forall i :: 0 <= i < |s| ==>
      s[i] == word[i] || ('a' <= word[i] <= 'z' && s[i] as int == word[i] as int - 32)
  }

  lemma SameLetter(c: char, w: char)
    requires 'a' <= w <= 'z'
    ensures Lower(c) == Lower(w) <==> c == w || c as int == w as int - 32
  {}

  lemma EqIgnoreCaseIff(s: string, word: string)
    requires forall i :: 0 <= i < |word| ==> 'a' <= word[i] <= 'z'
    ensures EqIgnoreCase(s, word) <==> InAnyCase(s, word)
  {
    hide Lower;
    if |s| == |word| {
      forall i | 0 <= i < |s|
        ensures Lower(s[i]) == Lower(word[i]) <==> s[i] == word[i] || s[i] as int == word[i] as int - 32
      {
        SameLetter(s[i], word[i]);
      }
    }
  }

  /** Host, Match and Include count in any case, and nothing else does. */
  lemma KeywordsAnyCase(line: string, word: string)
    requires word in {"host", "match", "include"}
    ensures HasKeyword(line, word) <==> Read(line).Some? && InAnyCase(Read(line).value.keyword, word)
  {
    assert forall i :: 0 <= i < |word| ==> 'a' <= word[i] <= 'z';
    hide Read, EqIgnoreCase, InAnyCase;
    if Read(line).Some? { EqIgnoreCaseIff(Read(line).value.keyword, word); }
  }

  lemma {:induction false} AllConcreteKept(names: seq<string>)
    requires forall i :: 0 <= i < |names| ==> Concrete(names[i])
    ensures ConcreteOnly(names) == names
  {
    hide Concrete;
    if names != [] {
      AllConcreteKept(names[..|names| - 1]);
      assert names == names[..|names| - 1] + [names[|names| - 1]];
    }
  }

  lemma AsciiIsSpace(c: char)
    ensures AsciiSpace(c) ==> RustSpace(c)
  {}

  lemma BlankIsSpace()
    ensures AsciiSpace(' ')
  {}

  lemma HostAnyCase(keyword: string)
    requires InAnyCase(keyword, "host")
    ensures EqIgnoreCase(keyword, "host")
  {
    assert forall i :: 0 <= i < 4 ==> 'a' <= "host"[i] <= 'z';
    EqIgnoreCaseIff(keyword, "host");
  }

  /** A Host line, its keyword in any case, declares its concrete names in order. */
  lemma HostLineDeclares(keyword: string, names: seq<string>)
    requires InAnyCase(keyword, "host") && AreWords(names, AsciiSpace) && Clean(Directive(keyword, Unwords(names)))
    ensures var line := keyword + " " + Unwords(names);
            && Declared(line) == ConcreteOnly(names)
            && ((forall i :: 0 <= i < |names| ==> Concrete(names[i])) ==> Declared(line) == names)
  {
    hide Read, Clean, EqIgnoreCase, InAnyCase, Words, Unwords, ConcreteOnly, Concrete, AsciiSpace, AreWords;
    BlankIsSpace();
    HostAnyCase(keyword);
    ReadPrint(Directive(keyword, Unwords(names)));
    WordsOfUnwords(names, AsciiSpace);
    if forall i :: 0 <= i < |names| ==> Concrete(names[i]) { AllConcreteKept(names); }
  }

  /** A name is imported exactly if some Host line lists it and it holds no pattern. */
  lemma {:induction false} CandidateIff(lines: seq<string>, x: string)
    ensures x in Candidates(lines) <==>
      && (exists i :: 0 <= i < |lines| && Lists(lines[i], x))
      && x != "" && x[0] != '!' && '*' !in x && '?' !in x && '[' !in x
  {
    if lines != [] {
      var n := |lines| - 1;
      CandidateIff(lines[..n], x);
      DeclaredIff(lines[n], x);
      hide Lists, Declared;
      assert (exists i :: 0 <= i < |lines| && Lists(lines[i], x)) <==>
             (exists i :: 0 <= i < n && Lists(lines[..n][i], x)) || Lists(lines[n], x) by { ListsSnoc(lines, x); }
    }
  }

  ghost predicate Lists(line: string, x: string) {
    HasKeyword(line, "host") && x in Words(Read(line).value.value, AsciiSpace)
  }

  lemma DeclaredIff(line: string, x: string)
    ensures x in Declared(line) <==> Lists(line, x) && Concrete(x)
  {
    hide Words, Read, EqIgnoreCase, ConcreteOnly, Concrete;
    if HasKeyword(line, "host") { ConcreteOnlyIsConcrete(Words(Read(line).value.value, AsciiSpace)); }
  }

  lemma ListsSnoc(lines: seq<string>, x: string)
    requires lines != []
    ensures var n := |lines| - 1;
            (exists i :: 0 <= i < |lines| && Lists(lines[i], x)) <==>
            (exists i :: 0 <= i < n && Lists(lines[..n][i], x)) || Lists(lines[n], x)
  {
    hide Lists;
    var n := |lines| - 1;
    if i :| 0 <= i < n && Lists(lines[..n][i], x) { assert Lists(lines[i], x); }
    if i :| 0 <= i < |lines| && Lists(lines[i], x) { assert i < n ==> Lists(lines[..n][i], x); }
  }

  /** Line `i` lies behind a Match line with no Host line in between, or is one. */
  ghost predicate InSection(lines: seq<string>, i: nat)
    requires i < |lines|
  {
    exists j :: 0 <= j <= i && HasKeyword(lines[j], "match") && forall k :: j < k <= i ==> !HasKeyword(lines[k], "host")
  }

  lemma SectionIsMatch(lines: seq<string>)
    requires lines != []
    ensures InMatch(lines) <==> InSection(lines, |lines| - 1)
  {
    hide HasKeyword, InMatch;
    InMatchIff(lines);
    if j :| OpenedBy(lines, j) { assert InSection(lines, |lines| - 1); }
    if InSection(lines, |lines| - 1) {
      var j :| 0 <= j < |lines| && HasKeyword(lines[j], "match")
               && forall k :: j < k <= |lines| - 1 ==> !HasKeyword(lines[k], "host");
      assert OpenedBy(lines, j);
    }
  }

  lemma SectionInPrefix(lines: seq<string>, n: nat, i: nat)
    requires i < n <= |lines|
    ensures InSection(lines[..n], i) <==> InSection(lines, i)
  {
    hide HasKeyword;
    var early := lines[..n];
    assert forall k :: 0 <= k < n ==> early[k] == lines[k];
  }

  /** `kept` are the lines at the positions `at`, normalised, and those are all outside Match sections. */
  ghost predicate Picks(at: seq<nat>, kept: seq<string>, lines: seq<string>) {
    && |at| == |kept|
    && (forall k, m :: 0 <= k < m < |at| ==> at[k] < at[m])
    && (forall k :: 0 <= k < |at| ==> at[k] < |lines| && KeptFrom(kept[k], lines[at[k]]))
    && (forall i :: 0 <= i < |lines| ==> (i in at <==> !InSection(lines, i)))
  }

  lemma PicksNext(at: seq<nat>, kept: seq<string>, lines: seq<string>, x: string)
    requires lines != [] && Picks(at, kept, lines[..|lines| - 1]) && KeptFrom(x, lines[|lines| - 1])
    ensures var n := |lines| - 1;
            if InSection(lines, n) then Picks(at, kept, lines) else Picks(at + [n], kept + [x], lines)
  {
    hide InSection, KeptFrom;
    var n := |lines| - 1;
    forall i | 0 <= i < n ensures InSection(lines[..n], i) <==> InSection(lines, i) { SectionInPrefix(lines, n, i); }
    assert n !in at;
    assert forall k :: 0 <= k < |at| ==> lines[..n][at[k]] == lines[at[k]];
  }

  lemma NothingPicked()
    ensures Picks([], [], [])
  {}

  /**
   Sanitizing keeps exactly the lines outside Match sections, in order: a
   directive as keyword, one blank and value, any other line as it is.
   */
  lemma {:induction false} KeptLinesAre(lines: seq<string>) returns (at: seq<nat>)
    ensures Picks(at, Kept(lines), lines)
  {
    hide InSection, Read, InMatch, KeptFrom, Normal, Picks;
    if lines == [] {
      at := [];
      NothingPicked();
    } else {
      var n := |lines| - 1;
      at := KeptLinesAre(lines[..n]);
      SectionIsMatch(lines);
      NormalFrom(lines[n]);
      PicksNext(at, Kept(lines[..n]), lines, Normal(lines[n]));
      if !InMatch(lines) { at := at + [n]; }
      assert Kept(lines[..n]) + [] == Kept(lines[..n]);
    }
  }

  ghost predicate KeptFrom(kept: string, line: string) {
    var d := Read(line);
    kept == if d.Some? then d.value.keyword + " " + d.value.value else line
  }

  lemma NormalFrom(line: string)
    ensures KeptFrom(Normal(line), line)
  {
    hide Read;
  }

  // ---------- warnings ----------

  ghost predicate Occurs(lines: seq<string>, word: string) {
    exists i :: 0 <= i < |lines| && HasKeyword(lines[i], word)
  }

  lemma OccursSnoc(lines: seq<string>, word: string)
    requires lines != []
    ensures Occurs(lines, word) <==> Occurs(lines[..|lines| - 1], word) || HasKeyword(lines[|lines| - 1], word)
  {
    hide HasKeyword;
    var n := |lines| - 1;
    if Occurs(lines[..n], word) {
      var i :| 0 <= i < n && HasKeyword(lines[..n][i], word);
      assert HasKeyword(lines[i], word);
    }
    if Occurs(lines, word) {
      var i :| 0 <= i < |lines| && HasKeyword(lines[i], word);
      assert i < n ==> HasKeyword(lines[..n][i], word);
    }
  }

  /** Each warning appears at most once, and exactly when its directive occurs somewhere. */
  lemma {:induction false} WarnedIff(lines: seq<string>)
    ensures MatchSkipped in Warnings(lines) <==> Occurs(lines, "match")
    ensures IncludeNotExpanded in Warnings(lines) <==> Occurs(lines, "include")
    ensures forall i, j :: 0 <= i < j < |Warnings(lines)| ==> Warnings(lines)[i] != Warnings(lines)[j]
  {
    hide HasKeyword;
    if lines != [] {
      MatchIsNoInclude(lines[|lines| - 1]);
      OccursSnoc(lines, "match");
      OccursSnoc(lines, "include");
      WarnedIff(lines[..|lines| - 1]);
    }
  }

  lemma MatchIsNoInclude(line: string)
    ensures HasKeyword(line, "match") ==> !HasKeyword(line, "include")
  {
    assert |"match"| == 5 && |"include"| == 7;
  }

  // ---------- the loops ----------

  lemma {:induction false} UnlinesSnoc(lines: seq<string>, line: string)
    ensures Unlines(lines + [line]) == Unlines(lines) + line + "\n"
  {
    if lines == [] {
      assert [] + [line] == [line] && [line][1..] == [];
    } else {
      UnlinesSnoc(lines[1..], line);
      assert (lines + [line])[1..] == lines[1..] + [line];
    }
  }

  method SanitizeText(contents: string) returns (output: string, warnings: seq<Warning>)
    ensures output == Sanitize(contents)
    ensures warnings == Warnings(Lines(contents))
  {
    hide Read, EqIgnoreCase, Lines, Unlines;
    var lines := Lines(contents);
    output, warnings := "", [];
    NoText();
    var inMatch := false;
    for i := 0 to |lines|
      invariant inMatch == InMatch(lines[..i])
      invariant output == Unlines(Kept(lines[..i]))
      invariant warnings == Warnings(lines[..i])
    {
      var line := lines[i];
      assert lines[..i + 1][..i] == lines[..i];
      var directive := Read(line);
      if directive.Some? {
        if EqIgnoreCase(directive.value.keyword, "match") {
          inMatch := true;
          if MatchSkipped !in warnings {
            warnings := warnings + [MatchSkipped];
          }
          assert Kept(lines[..i + 1]) == Kept(lines[..i]) + [] == Kept(lines[..i]);
          continue;
        }
        if EqIgnoreCase(directive.value.keyword, "host") {
          inMatch := false;
        }
        if EqIgnoreCase(directive.value.keyword, "include") && IncludeNotExpanded !in warnings {
          warnings := warnings + [IncludeNotExpanded];
        }
      }
      assert inMatch == InMatch(lines[..i + 1]);
      if !inMatch {
        UnlinesSnoc(Kept(lines[..i]), Normal(line));
        output := output + Normal(line) + "\n";
      } else {
        assert Kept(lines[..i + 1]) == Kept(lines[..i]) + [] == Kept(lines[..i]);
      }
    }
    assert lines[..|lines|] == lines;
  }

  lemma NoText()
    ensures Unlines([]) == ""
  {}

  lemma DistinctSnoc(names: seq<string>, name: string)
    ensures Distinct(names + [name])
         == if name in Distinct(names) then Distinct(names) else Distinct(names) + [name]
  {
    assert (names + [name])[..|names|] == names;
  }

  lemma ConcreteSnoc(before: seq<string>, words: seq<string>, j: nat)
    requires j < |words|
    ensures before + ConcreteOnly(words[..j + 1])
         == before + ConcreteOnly(words[..j]) + (if Concrete(words[j]) then [words[j]] else [])
  {
    hide Concrete;
    assert words[..j + 1][..j] == words[..j];
  }

  method AddAliases(words: seq<string>, known: seq<string>, knownSet: set<string>, ghost before: seq<string>)
    returns (aliases: seq<string>, seen: set<string>)
    requires known == Distinct(before) && forall x :: x in knownSet <==> x in known
    ensures aliases == Distinct(before + ConcreteOnly(words)) && forall x :: x in seen <==> x in aliases
  {
    aliases, seen := known, knownSet;
    assert before + ConcreteOnly(words[..0]) == before;
    hide Concrete, ConcreteOnly, Distinct;
    for j := 0 to |words|
      invariant aliases == Distinct(before + ConcreteOnly(words[..j]))
      invariant forall x :: x in seen <==> x in aliases
    {
      ConcreteSnoc(before, words, j);
      DistinctSnoc(before + ConcreteOnly(words[..j]), words[j]);
      if !Concrete(words[j]) {
        assert before + ConcreteOnly(words[..j]) + [] == before + ConcreteOnly(words[..j]);
        continue;
      }
      if words[j] !in seen {
        seen := seen + {words[j]};
        aliases := aliases + [words[j]];
      }
    }
    assert words[..|words|] == words;
  }

  method ConcreteAliases(contents: string) returns (aliases: seq<string>)
    ensures aliases == Aliases(Lines(contents))
  {
    hide Read, EqIgnoreCase, Lines, Words, ConcreteOnly, Distinct;
    var lines := Lines(contents);
    aliases := [];
    NoAliases();
    var seen: set<string> := {};
    for i := 0 to |lines|
      invariant aliases == Distinct(Candidates(lines[..i]))
      invariant forall x :: x in seen <==> x in aliases
    {
      assert lines[..i + 1][..i] == lines[..i];
      ghost var before := Candidates(lines[..i]);
      var directive := Read(lines[i]);
      if directive.None? || !EqIgnoreCase(directive.value.keyword, "host") {
        assert Candidates(lines[..i + 1]) == before + [] == before;
        continue;
      }
      aliases, seen := AddAliases(Words(directive.value.value, AsciiSpace), aliases, seen, before);
    }
    assert lines[..|lines|] == lines;
  }

  lemma NoAliases()
    ensures Distinct([]) == []
  {}
}
