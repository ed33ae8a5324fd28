/** String operations of the two host languages. */
module Text {
  import opened Common

  /** Rust's `char::is_whitespace`. */
  predicate RustSpace(c: char) {
    || '\t' <= c <= '\r' || c == ' ' || c == '\U{85}' || c == '\U{a0}' || c == '\U{1680}'
    || '\U{2000}' <= c <= '\U{200a}' || c == '\U{2028}' || c == '\U{2029}' || c == '\U{202f}'
    || c == '\U{205f}' || c == '\U{3000}'
  }

  /** The characters JavaScript's `trim` removes. */
  predicate JsSpace(c: char) {
    (RustSpace(c) && c != '\U{85}') || c == '\U{feff}'
  }

  /** The Unicode characters with the White_Space property. */
  const WHITE_SPACE := "\t\n\U{0b}\U{0c}\r \U{85}\U{a0}\U{1680}\U{2000}\U{2001}\U{2002}\U{2003}\U{2004}\U{2005}\U{2006}\U{2007}\U{2008}\U{2009}\U{200a}\U{2028}\U{2029}\U{202f}\U{205f}\U{3000}"

  lemma RustSpaceIff(c: char)
    ensures RustSpace(c) <==> c in WHITE_SPACE
  {}

  /** JavaScript leaves out the next-line character and adds the byte order mark. */
  lemma JsSpaceIff(c: char)
    ensures JsSpace(c) <==> (c in WHITE_SPACE && c != '\U{85}') || c == '\U{feff}'
  {
    RustSpaceIff(c);
  }

  function TrimStart(s: string, space: char -> bool): (r: string)
    ensures |r| <= |s| && r == s[|s| - |r|..]
    ensures r != [] ==> !space(r[0])
    ensures forall i :: 0 <= i < |s| - |r| ==> space(s[i])
  {
    if s != [] && space(s[0]) then
      var r := TrimStart(s[1..], space);
      assert s[1..][|s| - 1 - |r|..] == s[|s| - |r|..];
      assert forall i :: 0 < i < |s| - |r| ==> s[i] == s[1..][i - 1];
      r
    else s
  }

  function TrimEnd(s: string, space: char -> bool): (r: string)
    ensures |r| <= |s| && r == s[..|r|]
    ensures r != [] ==> !space(r[|r| - 1])
    ensures forall i :: |r| <= i < |s| ==> space(s[i])
  {
    if s != [] && space(s[|s| - 1]) then
      var r := TrimEnd(s[..|s| - 1], space);
      assert s[..|s| - 1][..|r|] == s[..|r|];
      assert forall i :: |r| <= i < |s| - 1 ==> s[i] == s[..|s| - 1][i];
      r
    else s
  }

  function Trim(s: string, space: char -> bool): string {
    TrimEnd(TrimStart(s, space), space)
  }

  ghost predicate Trimmed(s: string, space: char -> bool) {
    s != "" ==> !space(s[0]) && !space(s[|s| - 1])
  }

  lemma TrimOfTrimmed(s: string, space: char -> bool)
    requires Trimmed(s, space)
    ensures Trim(s, space) == s
  {}

  lemma TrimIsTrimmed(s: string, space: char -> bool)
    ensures Trimmed(Trim(s, space), space)
  {
    var front := TrimStart(s, space);
    var r := TrimEnd(front, space);
    assert r != "" ==> r[0] == front[0];
  }

  ghost predicate AllSpace(s: string, space: char -> bool) {
    forall i :: 0 <= i < |s| ==> space(s[i])
  }

  lemma {:induction false} TrimStartPadded(lead: string, rest: string, space: char -> bool)
    requires AllSpace(lead, space) && rest != "" && !space(rest[0])
    ensures TrimStart(lead + rest, space) == rest
  {
    if lead == "" {
      assert lead + rest == rest;
    } else {
      assert (lead + rest)[1..] == lead[1..] + rest;
      TrimStartPadded(lead[1..], rest, space);
    }
  }

  lemma {:induction false} TrimEndPadded(front: string, trail: string, space: char -> bool)
    requires AllSpace(trail, space) && front != "" && !space(front[|front| - 1])
    ensures TrimEnd(front + trail, space) == front
  {
    if trail == "" {
      assert front + trail == front;
    } else {
      var n := |trail| - 1;
      assert (front + trail)[..|front| + n] == front + trail[..n];
      TrimEndPadded(front, trail[..n], space);
    }
  }

  /** Whitespace around a trimmed text is what trimming removes. */
  lemma TrimPadded(lead: string, core: string, trail: string, space: char -> bool)
    requires AllSpace(lead, space) && AllSpace(trail, space) && core != "" && Trimmed(core, space)
    ensures Trim(lead + core + trail, space) == core
  {
    hide TrimStart, TrimEnd;
    assert (core + trail)[0] == core[0];
    Associate(lead, core, trail);
    TrimStartPadded(lead, core + trail, space);
    TrimEndPadded(core, trail, space);
  }

  /** The pieces of `s` between occurrences of `c`; there is always at least one. */
  function Split(s: string, c: char): (r: seq<string>)
    ensures r != []
  {
    if s == "" then [""]
    else
      var rest := Split(s[1..], c);
      if s[0] == c then [""] + rest else [[s[0]] + rest[0]] + rest[1..]
  }

  /** The piece before the first occurrence of `c`. */
  function Before(s: string, c: char): string {
    if s == "" || s[0] == c then "" else [s[0]] + Before(s[1..], c)
  }

  predicate IsDigit(c: char) {
    '0' <= c <= '9'
  }

  predicate AllDigits(s: string) {
    forall i :: 0 <= i < |s| ==> IsDigit(s[i])
  }

  /** The value of a string of decimal digits. */
  function Value(s: string): nat
    requires AllDigits(s)
  {
    if s == "" then 0 else 10 * Value(s[..|s| - 1]) + (s[|s| - 1] as int - '0' as int)
  }

  /** Rust's `str::parse` for an unsigned type with this maximum, with errors read as zero. */
  function ParseUnsigned(s: string, max: nat): nat {
    var digits := if s != "" && s[0] == '+' then s[1..] else s;
    if digits != "" && AllDigits(digits) && Value(digits) <= max then Value(digits) else 0
  }

  function Digits(n: nat): string {
    if n < 10 then [(n + '0' as int) as char] else Digits(n / 10) + [(n % 10 + '0' as int) as char]
  }

  lemma {:induction false} ValueOfDigits(n: nat)
    ensures Digits(n) != "" && AllDigits(Digits(n)) && Value(Digits(n)) == n
  {
    if n >= 10 {
      ValueOfDigits(n / 10);
      assert Digits(n)[..|Digits(n)| - 1] == Digits(n / 10);
    } else {
      assert Digits(n)[..0] == "";
    }
  }

  /** A number reads back, with or without a plus sign, if it fits the type, and as zero otherwise. */
  lemma NumberReadsBack(n: nat, max: nat)
    ensures ParseUnsigned(Digits(n), max) == if n <= max then n else 0
    ensures ParseUnsigned("+" + Digits(n), max) == if n <= max then n else 0
  {
    ValueOfDigits(n);
    hide Digits, Value;
    assert IsDigit(Digits(n)[0]);
    assert ("+" + Digits(n))[1..] == Digits(n);
  }

  /** Text with anything but digits behind an optional plus sign reads as zero. */
  lemma OtherTextReadsZero(s: string, i: nat, max: nat)
    requires i < |s| && !('0' <= s[i] <= '9') && !(i == 0 && s[i] == '+')
    ensures ParseUnsigned(s, max) == 0
  {
    var digits := if s[0] == '+' then s[1..] else s;
    var k := if s[0] == '+' then i - 1 else i;
    assert digits[k] == s[i];
  }

  function StripCr(line: string): string {
    if line != "" && line[|line| - 1] == '\r' then line[..|line| - 1] else line
  }

  function Find(s: string, c: char): (r: Option<nat>)
    ensures r.Some? ==> r.value < |s| && s[r.value] == c && c !in s[..r.value]
    ensures r.None? ==> c !in s
  {
    if s == "" then None
    else if s[0] == c then Some(0)
    else
      var r := Find(s[1..], c);
      if r.None? then None
      else
        assert s[..r.value + 1] == [s[0]] + s[1..][..r.value];
        Some(r.value + 1)
  }

  /** Rust's `str::lines`. */
  function Lines(text: string): seq<string>
    decreases |text|
  {
    if text == "" then []
    else
      var k := Find(text, '\n');
      if k.None? then [text] else [StripCr(text[..k.value])] + Lines(text[k.value + 1..])
  }

  /** The maximal pieces of `s` without a separator. */
  function Words(s: string, space: char -> bool): seq<string> {
    WordsFrom(s, "", space)
  }

  function WordsFrom(s: string, word: string, space: char -> bool): seq<string> {
    if s == "" then (if word == "" then [] else [word])
    else if space(s[0]) then (if word == "" then [] else [word]) + WordsFrom(s[1..], "", space)
    else WordsFrom(s[1..], word + [s[0]], space)
  }

  function Unwords(words: seq<string>): string {
    if words == [] then "" else if |words| == 1 then words[0] else words[0] + " " + Unwords(words[1..])
  }

  ghost predicate AreWords(words: seq<string>, space: char -> bool) {
    forall i :: 0 <= i < |words| ==> IsWord(words[i], space)
  }

  ghost predicate IsWord(word: string, space: char -> bool) {
    word != "" && forall i :: 0 <= i < |word| ==> !space(word[i])
  }

  lemma {:induction false} WordsRun(w: string, rest: string, word: string, space: char -> bool)
    requires forall i :: 0 <= i < |w| ==> !space(w[i])
    ensures WordsFrom(w + rest, word, space) == WordsFrom(rest, word + w, space)
  {
    if w == "" {
      assert w + rest == rest && word + w == word;
    } else {
      assert (w + rest)[0] == w[0] && (w + rest)[1..] == w[1..] + rest;
      WordsRun(w[1..], rest, word + [w[0]], space);
      assert word + [w[0]] + w[1..] == word + w;
    }
  }

  /** Words joined by single spaces are found again. */
  lemma {:induction false} WordsOfUnwords(words: seq<string>, space: char -> bool)
    requires AreWords(words, space) && space(' ')
    ensures Words(Unwords(words), space) == words
  {
    if words != [] {
      var w := words[0];
      assert IsWord(w, space);
      if |words| == 1 {
        WordsRun(w, "", "", space);
        assert w + "" == w && "" + w == w;
      } else {
        var rest := " " + Unwords(words[1..]);
        forall i | 0 <= i < |words[1..]| ensures IsWord(words[1..][i], space) { assert words[1..][i] == words[i + 1]; }
        WordsOfUnwords(words[1..], space);
        WordsRun(w, rest, "", space);
        assert w + rest == w + " " + Unwords(words[1..]) && "" + w == w;
        assert rest[1..] == Unwords(words[1..]);
      }
    }
  }
}
