/** The order on release tags that decides whether an update is offered. */
module Versions {
  import opened Common
  import opened Text

  function DropVs(v: string): string {
    if v != "" && v[0] == 'v' then DropVs(v[1..]) else v
  }

  function Components(pieces: seq<string>): seq<nat> {
    seq(|pieces|, i requires 0 <= i < |pieces| => ParseUnsigned(pieces[i], U64_MAX))
  }

  function Parts(v: string): seq<nat> {
    Components(Split(Before(DropVs(v), '-'), '.'))
  }

  /** Missing components count as zero. */
  function At(parts: seq<nat>, i: nat): nat {
    if i < |parts| then parts[i] else 0
  }

  /** Lexicographic comparison of the components, padded with zeros for ever. */
  ghost predicate Newer(a: seq<nat>, b: seq<nat>) {
    exists i: nat :: At(a, i) > At(b, i) && forall j: nat :: j < i ==> At(a, j) == At(b, j)
  }

  ghost predicate Equivalent(a: seq<nat>, b: seq<nat>) {
    forall i: nat :: At(a, i) == At(b, i)
  }

  method IsNewer(candidate: string, current: string) returns (newer: bool)
    ensures newer <==> Newer(Parts(candidate), Parts(current))
  {
    hide Parts;
    var a, b := Parts(candidate), Parts(current);
    var n := if |a| > |b| then |a| else |b|;
    for i := 0 to n
      invariant forall j: nat :: j < i ==> At(a, j) == At(b, j)
    {
      var x := if i < |a| then a[i] else 0;
      var y := if i < |b| then b[i] else 0;
      if x != y {
        assert At(a, i) == x && At(b, i) == y;
        newer := x > y;
        if newer {
          assert Newer(a, b);
        } else {
          assert !Newer(a, b) by { FirstDifferenceDecides(a, b, i); }
        }
        return;
      }
    }
    assert Equivalent(a, b);
    newer := false;
  }

  lemma FirstDifferenceDecides(a: seq<nat>, b: seq<nat>, i: nat)
    requires At(a, i) < At(b, i) && forall j: nat :: j < i ==> At(a, j) == At(b, j)
    ensures !Newer(a, b)
  {}

  /** Two versions differ at a first place, or not at all. */
  lemma {:induction false} Compare(a: seq<nat>, b: seq<nat>, i: nat)
    requires forall j: nat :: j < i ==> At(a, j) == At(b, j)
    ensures Newer(a, b) || Newer(b, a) || Equivalent(a, b)
    decreases |a| + |b| - i
  {
    if At(a, i) > At(b, i) {
      assert Newer(a, b);
    } else if At(a, i) < At(b, i) {
      assert Newer(b, a);
    } else if i < |a| + |b| {
      Compare(a, b, i + 1);
    } else {
      assert Equivalent(a, b);
    }
  }

  /**
   A strict weak order: irreflexive, asymmetric and transitive, and not being
   comparable is the same as being equal up to zeros.
   */
  lemma IsStrictWeakOrder(a: seq<nat>, b: seq<nat>, c: seq<nat>)
    ensures !Newer(a, a)
    ensures !(Newer(a, b) && Newer(b, a))
    ensures Newer(a, b) && Newer(b, c) ==> Newer(a, c)
    ensures !Newer(a, b) && !Newer(b, a) <==> Equivalent(a, b)
    ensures Equivalent(a, b) ==> (Newer(a, c) <==> Newer(b, c)) && (Newer(c, a) <==> Newer(c, b))
  {
    Compare(a, b, 0);
    Asymmetric(a, b);
    if Newer(a, b) && Newer(b, c) {
      Transitive(a, b, c);
    }
    if Equivalent(a, b) {
      Congruent(a, b, c);
    }
  }

  lemma Asymmetric(a: seq<nat>, b: seq<nat>)
    ensures Newer(a, b) ==> !Newer(b, a)
  {
    if Newer(a, b) {
      var i: nat :| At(a, i) > At(b, i) && forall j: nat :: j < i ==> At(a, j) == At(b, j);
      FirstDifferenceDecides(b, a, i);
    }
  }

  lemma Transitive(a: seq<nat>, b: seq<nat>, c: seq<nat>)
    requires Newer(a, b) && Newer(b, c)
    ensures Newer(a, c)
  {
    var i: nat :| At(a, i) > At(b, i) && forall j: nat :: j < i ==> At(a, j) == At(b, j);
    var k: nat :| At(b, k) > At(c, k) && forall j: nat :: j < k ==> At(b, j) == At(c, j);
    var m := if i < k then i else k;
    assert At(a, m) > At(c, m);
    assert forall j: nat :: j < m ==> At(a, j) == At(c, j);
  }

  lemma Congruent(a: seq<nat>, b: seq<nat>, c: seq<nat>)
    requires Equivalent(a, b)
    ensures Newer(a, c) <==> Newer(b, c)
    ensures Newer(c, a) <==> Newer(c, b)
  {
    if i: nat :| At(a, i) > At(c, i) && forall j: nat :: j < i ==> At(a, j) == At(c, j) {
      assert At(b, i) > At(c, i) && forall j: nat :: j < i ==> At(b, j) == At(c, j);
    }
    if i: nat :| At(b, i) > At(c, i) && forall j: nat :: j < i ==> At(b, j) == At(c, j) {
      assert At(a, i) > At(c, i) && forall j: nat :: j < i ==> At(a, j) == At(c, j);
    }
    if i: nat :| At(c, i) > At(a, i) && forall j: nat :: j < i ==> At(c, j) == At(a, j) {
      assert At(c, i) > At(b, i) && forall j: nat :: j < i ==> At(c, j) == At(b, j);
    }
    if i: nat :| At(c, i) > At(b, i) && forall j: nat :: j < i ==> At(c, j) == At(b, j) {
      assert At(c, i) > At(a, i) && forall j: nat :: j < i ==> At(c, j) == At(a, j);
    }
  }

  // ---------- what the tag's spelling does not change ----------

  lemma {:induction false} DropVsFromFront(s: string, tail: string)
    requires tail != "" && tail[0] != 'v'
    ensures DropVs(s + tail) == DropVs(s) + tail
  {
    if s == "" {
      assert s + tail == tail;
    } else if s[0] == 'v' {
      assert (s + tail)[1..] == s[1..] + tail;
      DropVsFromFront(s[1..], tail);
    }
  }

  /** Text after a piece that contains the separator is not looked at. */
  lemma {:induction false} BeforeAppend(s: string, tail: string)
    ensures Before(s + tail, '-') == if '-' in s then Before(s, '-') else s + Before(tail, '-')
  {
    if s == "" {
      assert s + tail == tail && "" + Before(tail, '-') == Before(tail, '-');
    } else {
      assert (s + tail)[1..] == s[1..] + tail;
      BeforeAppend(s[1..], tail);
      assert s == [s[0]] + s[1..];
      if '-' !in s {
        Associate([s[0]], s[1..], Before(tail, '-'));
      }
    }
  }

  /** Puts a character in front of the first piece. */
  function Prefixed(c: char, pieces: seq<string>): seq<string>
    requires pieces != []
  {
    [[c] + pieces[0]] + pieces[1..]
  }

  lemma SplitStep(c: char, s: string)
    ensures Split([c] + s, '.') == if c == '.' then [""] + Split(s, '.') else Prefixed(c, Split(s, '.'))
  {
    assert ([c] + s)[1..] == s;
  }

  lemma PrefixedAppend(c: char, x: seq<string>, y: seq<string>)
    requires x != []
    ensures Prefixed(c, x + y) == Prefixed(c, x) + y
  {}

  lemma {:induction false} SplitAppend(s: string, t: string)
    ensures Split(s + "." + t, '.') == Split(s, '.') + Split(t, '.')
  {
    if s == "" {
      SplitStep('.', t);
      assert s + "." + t == ['.'] + t && Split("", '.') == [""];
    } else {
      hide Split, Prefixed;
      var rest := s[1..] + "." + t;
      assert s + "." + t == [s[0]] + rest && s == [s[0]] + s[1..];
      SplitStep(s[0], rest);
      SplitStep(s[0], s[1..]);
      SplitAppend(s[1..], t);
      if s[0] == '.' {
        Associate([""], Split(s[1..], '.'), Split(t, '.'));
      } else {
        PrefixedAppend(s[0], Split(s[1..], '.'), Split(t, '.'));
      }
    }
  }

  lemma BeforeWhole(s: string)
    requires '-' !in s
    ensures Before(s, '-') == s
  {
    BeforeAppend(s, "");
    assert s + "" == s;
  }

  /** A leading v, or anything after a dash, never changes a version. */
  lemma SpellingIsIgnored(s: string, rest: string)
    ensures Parts("v" + s) == Parts(s)
    ensures Parts(s + ("-" + rest)) == Parts(s)
  {
    assert ("v" + s)[1..] == s;
    DropVsFromFront(s, "-" + rest);
    BeforeAppend(DropVs(s), "-" + rest);
    var v := DropVs(s);
    if '-' !in v {
      BeforeWhole(v);
      assert v + "" == v;
    }
  }

  lemma ZeroComponent()
    ensures Split("0", '.') == ["0"] && ParseUnsigned("0", U64_MAX) == 0 && Before(".0", '-') == ".0"
  {
    assert "0"[1..] == "" && Split("", '.') == [""];
    assert "0"[..0] == "";
    BeforeWhole(".0");
  }

  /** Appending a zero component gives an equivalent version. */
  lemma TrailingZeroIsIgnored(s: string)
    ensures Equivalent(Parts(s + ".0"), Parts(s))
  {
    hide Split, ParseUnsigned, Before;
    var v := DropVs(s);
    DropVsFromFront(s, ".0");
    BeforeAppend(v, ".0");
    ZeroComponent();
    if '-' !in v {
      BeforeWhole(v);
      SplitAppend(v, "0");
      assert v + "." + "0" == v + ".0";
      assert Components(Split(v, '.') + ["0"]) == Components(Split(v, '.')) + [0];
    }
  }

  // ---------- versions as numbers ----------

  /** Components with dots in between. */
  function PrintVersion(ns: seq<nat>): string
    requires ns != []
  {
    var n := |ns| - 1;
    if n == 0 then Digits(ns[0]) else PrintVersion(ns[..n]) + "." + Digits(ns[n])
  }

  lemma DigitsHaveNo(n: nat, c: char)
    requires c < '0' || c > '9'
    ensures c !in Digits(n) && Digits(n) != ""
  {
    ValueOfDigits(n);
    hide Digits;
  }

  lemma {:induction false} SplitWhole(s: string)
    requires '.' !in s
    ensures Split(s, '.') == [s]
  {
    if s != "" {
      SplitWhole(s[1..]);
      assert s == [s[0]] + s[1..];
    }
  }

  lemma {:induction false} PrintedPieces(ns: seq<nat>)
    requires ns != []
    ensures Split(PrintVersion(ns), '.') == seq(|ns|, i requires 0 <= i < |ns| => Digits(ns[i]))
    ensures PrintVersion(ns) != "" && '-' !in PrintVersion(ns) && 'v' !in PrintVersion(ns)
  {
    hide Split, Digits;
    var n := |ns| - 1;
    DigitsHaveNo(ns[n], '.');
    DigitsHaveNo(ns[n], '-');
    DigitsHaveNo(ns[n], 'v');
    SplitWhole(Digits(ns[n]));
    if n > 0 {
      PrintedPieces(ns[..n]);
      SplitAppend(PrintVersion(ns[..n]), Digits(ns[n]));
    }
  }

  /** A printed version reads back as its components, whatever follows a dash and whatever v precedes it. */
  lemma VersionRoundTrip(ns: seq<nat>, suffix: string)
    requires ns != [] && forall i :: 0 <= i < |ns| ==> ns[i] <= U64_MAX
    ensures Parts(PrintVersion(ns)) == ns
    ensures Parts("v" + PrintVersion(ns)) == ns
    ensures Parts(PrintVersion(ns) + ("-" + suffix)) == ns
  {
    var text := PrintVersion(ns);
    PrintedParts(ns);
    hide Parts, PrintVersion;
    SpellingIsIgnored(text, suffix);
  }

  lemma PrintedParts(ns: seq<nat>)
    requires ns != [] && forall i :: 0 <= i < |ns| ==> ns[i] <= U64_MAX
    ensures Parts(PrintVersion(ns)) == ns
  {
    hide Split, Before, Digits, ParseUnsigned, PrintVersion;
    PrintedPieces(ns);
    var text := PrintVersion(ns);
    assert text[0] in text && DropVs(text) == text;
    BeforeWhole(text);
    forall i | 0 <= i < |ns| ensures ParseUnsigned(Digits(ns[i]), U64_MAX) == ns[i] {
      NumberReadsBack(ns[i], U64_MAX);
    }
  }

  /** So printed releases compare as their component lists do, number by number. */
  lemma PrintedOrder(a: seq<nat>, b: seq<nat>)
    requires a != [] && forall i :: 0 <= i < |a| ==> a[i] <= U64_MAX
    requires b != [] && forall i :: 0 <= i < |b| ==> b[i] <= U64_MAX
    ensures Newer(Parts(PrintVersion(a)), Parts(PrintVersion(b))) <==> Newer(a, b)
  {
    VersionRoundTrip(a, "");
    VersionRoundTrip(b, "");
  }
}
