/** The `user@host[:port]` text of a host tile and the parser that reads it back. */
module QuickConnect {
  import opened Common
  import opened Text

  const SSH_PORT := 22

  datatype Target = Target(username: string, hostname: string, port: nat)

  function LastIndex(s: string, c: char): (r: Option<nat>)
    ensures r.Some? ==> r.value < |s| && s[r.value] == c && forall i :: r.value < i < |s| ==> s[i] != c
    ensures r.None? ==> forall i :: 0 <= i < |s| ==> s[i] != c
  {
    if s == "" then None
    else if s[|s| - 1] == c then Some(|s| - 1)
    else LastIndex(s[..|s| - 1], c)
  }

  predicate IsPortText(s: string) {
    s != "" && AllDigits(s)
  }

  /** Where a trailing port starts, if the text after the last colon is a number and the colon is not first. */
  function PortColon(host: string): (r: Option<nat>)
    ensures r.Some? ==> 0 < r.value < |host|
  {
    var colon := LastIndex(host, ':');
    if colon.Some? && colon.value > 0 && IsPortText(host[colon.value + 1..]) then colon else None
  }

  function ParseHost(username: string, host: string): Option<Target>
    requires host != ""
  {
    var colon := PortColon(host);
    if colon.None? then Some(Target(username, host, SSH_PORT))
    else
      var port := Value(host[colon.value + 1..]);
      if port < 1 || port > 65535 then None else Some(Target(username, host[..colon.value], port))
  }

  function Parse(input: string): Option<Target> {
    var trimmed := Trim(input, JsSpace);
    var at := LastIndex(trimmed, '@');
    if at.None? || at.value == 0 || at.value == |trimmed| - 1 then None
    else
      var username := Trim(trimmed[..at.value], JsSpace);
      var host := Trim(trimmed[at.value + 1..], JsSpace);
      if username == "" || host == "" then None else ParseHost(username, host)
  }

  function PortSuffix(port: nat): string {
    if port == SSH_PORT then "" else ":" + Digits(port)
  }

  function Print(t: Target): string {
    t.username + "@" + t.hostname + PortSuffix(t.port)
  }

  // ---------- trimming ----------

  lemma TrimStartsSolid(s: string)
    requires s != "" && !JsSpace(s[0])
    ensures Trim(s, JsSpace) == TrimEnd(s, JsSpace)
  {
    hide JsSpace;
  }

  /** Trailing whitespace is only looked for after the last solid character. */
  lemma TrimEndAppend(s: string, tail: string)
    requires s != "" && !JsSpace(s[|s| - 1])
    ensures TrimEnd(s + tail, JsSpace) == s + TrimEnd(tail, JsSpace)
  {
    hide JsSpace, TrimEnd;
    var whole := s + tail;
    var r, q := TrimEnd(whole, JsSpace), TrimEnd(tail, JsSpace);
    assert whole[|s| - 1] == s[|s| - 1];
    assert forall i :: 0 <= i < |tail| ==> whole[|s| + i] == tail[i];
    assert |r| >= |s|;
    assert r != "" ==> whole[|r| - 1] == r[|r| - 1];
    assert q != "" ==> tail[|q| - 1] == q[|q| - 1];
    assert |r| == |s| + |q|;
    assert whole[..|r|] == s + tail[..|q|];
  }

  lemma TrimEndSolid(s: string)
    requires s != "" && !JsSpace(s[|s| - 1])
    ensures TrimEnd(s, JsSpace) == s
  {
    hide JsSpace;
  }

  // ---------- what every accepted text gives ----------

  /** Every accepted text has a user, a host and a port that can be dialled. */
  lemma ParseIsDialable(input: string)
    ensures var t := Parse(input);
            t.Some? ==> t.value.username != "" && t.value.hostname != "" && 1 <= t.value.port <= 65535
                        && Trimmed(t.value.username, JsSpace) && !JsSpace(t.value.hostname[0]) && '@' !in t.value.hostname
  {
    hide JsSpace, Trim, PortColon;
    var trimmed := Trim(input, JsSpace);
    var at := LastIndex(trimmed, '@');
    if Parse(input).Some? {
      TrimIsTrimmed(trimmed[..at.value], JsSpace);
      var host := Trim(trimmed[at.value + 1..], JsSpace);
      TrimIsTrimmed(trimmed[at.value + 1..], JsSpace);
      assert '@' !in trimmed[at.value + 1..];
      TrimLacksAt(trimmed[at.value + 1..]);
      var h := Parse(input).value.hostname;
      assert h == host[..|h|] && h[0] == host[0];
    }
  }

  lemma TrimLacksAt(s: string)
    requires '@' !in s
    ensures '@' !in Trim(s, JsSpace)
  {
    hide JsSpace;
    var front := TrimStart(s, JsSpace);
    assert '@' !in front;
    var r := TrimEnd(front, JsSpace);
    assert forall i :: 0 <= i < |r| ==> r[i] == front[i];
  }

  // ---------- round trip ----------

  /** A user and a host text that survive being joined by an at sign. */
  ghost predicate Joinable(t: Target) {
    && t.username != "" && Trimmed(t.username, JsSpace)
    && t.hostname != "" && !JsSpace(t.hostname[0]) && '@' !in t.hostname
  }

  lemma LastOf(front: string, c: char, rest: string)
    requires c !in rest
    ensures LastIndex(front + [c] + rest, c) == Some(|front|)
  {
    hide LastIndex;
    var whole := front + [c] + rest;
    assert whole[|front|] == c && whole[|front| + 1..] == rest;
    assert forall i :: |front| < i < |whole| ==> whole[i] == rest[i - |front| - 1];
  }

  lemma SuffixLacksAt(port: nat)
    ensures '@' !in PortSuffix(port)
  {
    ValueOfDigits(port);
    hide Digits;
  }

  /** Trimming the tile's text only touches the end of its host part. */
  lemma TrimPrinted(user: string, host: string)
    requires user != "" && !JsSpace(user[0])
    ensures Trim(user + "@" + host, JsSpace) == user + "@" + TrimEnd(host, JsSpace)
  {
    AtIsSolid();
    hide JsSpace, TrimEnd, TrimStart;
    var front := user + "@";
    assert front[|front| - 1] == '@' && (front + host)[0] == user[0];
    TrimStartsSolid(front + host);
    TrimEndAppend(front, host);
  }

  lemma TrimSolid(s: string)
    requires s != "" && Trimmed(s, JsSpace)
    ensures Trim(s, JsSpace) == s
  {
    hide JsSpace, TrimEnd, TrimStart;
    TrimStartsSolid(s);
    TrimEndSolid(s);
  }

  /** The at sign in front of a host without one is the one that splits the text. */
  lemma SplitAtSign(user: string, host: string)
    requires user != "" && Trimmed(user, JsSpace) && host != "" && Trimmed(host, JsSpace) && '@' !in host
    requires Trim(user + "@" + host, JsSpace) == user + "@" + host
    ensures Parse(user + "@" + host) == ParseHost(user, host)
  {
    hide JsSpace, ParseHost, LastIndex, Trim;
    var text := user + "@" + host;
    LastOf(user, '@', host);
    assert text[..|user|] == user && text[|user| + 1..] == host;
    TrimSolid(user);
    TrimSolid(host);
  }

  lemma HostEndTrimmed(host: string)
    requires host != "" && !JsSpace(host[0])
    ensures var r := TrimEnd(host, JsSpace);
            r != "" && Trimmed(r, JsSpace) && TrimEnd(r, JsSpace) == r && ('@' !in host ==> '@' !in r)
  {
    hide JsSpace, TrimEnd;
    var r := TrimEnd(host, JsSpace);
    assert r != "";
    assert r[0] == host[0] && forall i :: 0 <= i < |r| ==> r[i] == host[i];
    TrimEndSolid(r);
  }

  /** For joinable parts, reading the tile's text comes down to reading its host part. */
  lemma ParsePrinted(t: Target)
    requires Joinable(t)
    ensures TrimEnd(t.hostname + PortSuffix(t.port), JsSpace) != ""
    ensures Parse(Print(t)) == ParseHost(t.username, TrimEnd(t.hostname + PortSuffix(t.port), JsSpace))
  {
    hide JsSpace, ParseHost, TrimEnd, Trim, PortSuffix;
    var user, host := t.username, t.hostname + PortSuffix(t.port);
    SuffixLacksAt(t.port);
    assert host[0] == t.hostname[0] && '@' !in host;
    HostEndTrimmed(host);
    var r := TrimEnd(host, JsSpace);
    TrimPrinted(user, host);
    TrimPrinted(user, r);
    SplitAtSign(user, r);
    Associate(user + "@", t.hostname, PortSuffix(t.port));
    assert Print(t) == user + "@" + host;
    ParseTrims(Print(t), user + "@" + r);
  }

  lemma ParseTrims(x: string, y: string)
    requires Trim(x, JsSpace) == Trim(y, JsSpace)
    ensures Parse(x) == Parse(y)
  {}

  lemma AtIsSolid()
    ensures !JsSpace('@')
  {}

  lemma PortColonPrinted(host: string, port: nat)
    requires host != ""
    ensures PortColon(host + ":" + Digits(port)) == Some(|host|)
  {
    ValueOfDigits(port);
    hide Digits;
    LastOf(host, ':', Digits(port));
    assert (host + ":" + Digits(port))[|host| + 1..] == Digits(port);
  }

  lemma DigitsAreSolid(port: nat)
    ensures Digits(port) != "" && !JsSpace(Digits(port)[|Digits(port)| - 1])
  {
    ValueOfDigits(port);
    hide Digits;
    assert IsDigit(Digits(port)[|Digits(port)| - 1]);
  }

  lemma ParseColonHost(user: string, host: string, port: nat)
    requires host != ""
    ensures ParseHost(user, host + ":" + Digits(port))
         == if 1 <= port <= 65535 then Some(Target(user, host, port)) else None
  {
    hide PortColon;
    ValueOfDigits(port);
    hide Digits;
    PortColonPrinted(host, port);
    var whole := host + ":" + Digits(port);
    assert whole[|host| + 1..] == Digits(port) && whole[..|host|] == host;
  }

  lemma ColonHostIsSolid(host: string, port: nat)
    requires host != ""
    ensures var whole := host + ":" + Digits(port); whole[0] == host[0] && TrimEnd(whole, JsSpace) == whole
  {
    DigitsAreSolid(port);
    hide Digits, JsSpace, TrimEnd;
    var whole := host + ":" + Digits(port);
    assert whole[|whole| - 1] == Digits(port)[|Digits(port)| - 1];
    TrimEndSolid(whole);
  }

  lemma ParseHostWithPort(t: Target)
    requires Joinable(t) && t.port != SSH_PORT
    ensures Parse(Print(t)) == if 1 <= t.port <= 65535 then Some(t) else None
  {
    hide JsSpace, TrimEnd, Parse, Print, ParseHost, Digits;
    ParsePrinted(t);
    assert t.hostname + PortSuffix(t.port) == t.hostname + ":" + Digits(t.port);
    ColonHostIsSolid(t.hostname, t.port);
    ParseColonHost(t.username, t.hostname, t.port);
  }

  lemma ParseHostWithoutPort(t: Target)
    requires Joinable(t) && t.port == SSH_PORT
    ensures Parse(Print(t)) == Some(t) <==> !JsSpace(t.hostname[|t.hostname| - 1]) && PortColon(t.hostname).None?
  {
    hide JsSpace, PortColon, Parse, Print;
    ParsePrinted(t);
    var r := TrimEnd(t.hostname, JsSpace);
    assert t.hostname + "" == t.hostname;
    if !JsSpace(t.hostname[|t.hostname| - 1]) {
      TrimEndSolid(t.hostname);
    } else {
      assert |r| < |t.hostname|;
    }
  }

  /** A colon behind at least one character, followed by digits and nothing else. */
  ghost predicate EndsInPort(host: string) {
    exists k :: 0 < k < |host| - 1 && host[k] == ':' && forall i :: k < i < |host| ==> '0' <= host[i] <= '9'
  }

  lemma PortColonIff(host: string)
    ensures PortColon(host).Some? <==> EndsInPort(host)
  {
    hide LastIndex;
    var colon := LastIndex(host, ':');
    if PortColon(host).Some? {
      var k := colon.value;
      assert forall i :: k < i < |host| ==> host[i] == host[k + 1..][i - k - 1];
      assert 0 < k < |host| - 1 && host[k] == ':' && forall i :: k < i < |host| ==> '0' <= host[i] <= '9';
    }
    if k :| 0 < k < |host| - 1 && host[k] == ':' && forall i :: k < i < |host| ==> '0' <= host[i] <= '9' {
      assert colon == Some(k);
    }
  }

  /**
   The tile's text reads back as the same target if and only if the user is
   trimmed and not empty, the host is not empty, starts solid and has no at
   sign, the port can be dialled, and a host shown without its port neither
   ends in whitespace nor itself ends in a colon and digits after its start.
   */
  lemma RoundTripIff(t: Target)
    ensures Parse(Print(t)) == Some(t) <==>
      && Joinable(t) && 1 <= t.port <= 65535
      && (t.port == 22 ==> !JsSpace(t.hostname[|t.hostname| - 1]) && !EndsInPort(t.hostname))
  {
    hide JsSpace, PortColon, Parse, Print, EndsInPort;
    ParseIsDialable(Print(t));
    PortColonIff(t.hostname);
    if Joinable(t) {
      if t.port == SSH_PORT { ParseHostWithoutPort(t); } else { ParseHostWithPort(t); }
    }
  }

  /** In particular it holds for every trimmed user, every trimmed host without at sign or colon, and every port. */
  lemma RoundTrip(t: Target)
    requires t.username != "" && Trimmed(t.username, JsSpace) && t.hostname != "" && Trimmed(t.hostname, JsSpace)
    requires '@' !in t.hostname && ':' !in t.hostname && 1 <= t.port <= 65535
    ensures Parse(Print(t)) == Some(t)
  {
    hide JsSpace, Parse, Print;
    RoundTripIff(t);
  }

  /** A host that itself ends in a colon and a port number loses it: the number is dialled as the port. */
  lemma ColonHostIsMisread(user: string, host: string, port: nat)
    requires Joinable(Target(user, host, port)) && 1 <= port <= 65535
    ensures var t := Target(user, host + ":" + Digits(port), SSH_PORT);
            Parse(Print(t)) == Some(Target(user, host, port)) && Parse(Print(t)) != Some(t)
  {
    ValueOfDigits(port);
    hide JsSpace, TrimEnd, PortColon, Parse, Print, ParseHost, Digits;
    var t := Target(user, host + ":" + Digits(port), SSH_PORT);
    ColonHostIsSolid(host, port);
    assert '@' !in Digits(port) && '@' !in t.hostname;
    ParsePrinted(t);
    assert t.hostname + "" == t.hostname;
    ParseColonHost(user, host, port);
    assert |t.hostname| > |host|;
  }

  /** For instance an IPv6 address. */
  lemma Ipv6IsMisread()
    ensures Parse(Print(Target("root", "fe80::1", SSH_PORT))) == Some(Target("root", "fe80:", 1))
  {
    assert Digits(1) == "1" && "fe80:" + ":" + "1" == "fe80::1";
    ColonHostIsMisread("root", "fe80:", 1);
  }

  lemma SpacesLackAt(s: string)
    requires AllSpace(s, JsSpace)
    ensures '@' !in s
  {
    AtIsSolid();
    hide JsSpace;
  }

  /** Blanks around the text, the user and the host do not matter; the last at sign splits. */
  lemma PaddingIsIgnored(lead: string, user: string, left: string, right: string, host: string, trail: string)
    requires user != "" && Trimmed(user, JsSpace) && host != "" && Trimmed(host, JsSpace) && '@' !in host
    requires AllSpace(lead, JsSpace) && AllSpace(left, JsSpace) && AllSpace(right, JsSpace) && AllSpace(trail, JsSpace)
    ensures Parse(lead + (user + left + "@" + (right + host)) + trail) == ParseHost(user, host)
  {
    hide JsSpace, ParseHost, LastIndex, Trim;
    var front, back := user + left, right + host;
    var core := front + "@" + back;
    assert core[0] == user[0] && core[|core| - 1] == host[|host| - 1];
    TrimPadded(lead, core, trail, JsSpace);
    SpacesLackAt(right);
    assert '@' !in back;
    LastOf(front, '@', back);
    assert core[..|front|] == front && core[|front| + 1..] == back;
    TrimPadded("", user, left, JsSpace);
    assert "" + user + left == front;
    TrimPadded(right, host, "", JsSpace);
    assert right + host + "" == back;
  }

  lemma NoAtIsRejected(text: string)
    requires '@' !in text
    ensures Parse(text) == None
  {
    hide JsSpace, ParseHost, Trim;
    TrimLacksAt(text);
  }
}
