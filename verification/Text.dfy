/** Python string operations on `seq<char>`. */
module Text {
  import opened Wrappers

  /** `str.isspace` per character, the characters `str.strip` removes. */
  predicate IsSpace(c: char) {
    var n := c as int;
    || 9 <= n <= 13 || 28 <= n <= 32 || n == 0x85 || n == 0xA0 || n == 0x1680
    || 0x2000 <= n <= 0x200A || n == 0x2028 || n == 0x2029 || n == 0x202F || n == 0x205F || n == 0x3000
  }

  /** Tab to carriage return, the four separators, the space, and the other spaces of Unicode. */
  lemma SpacesAre(c: char)
    ensures IsSpace(c) <==>
            || c as int in {9, 10, 11, 12, 13, 28, 29, 30, 31, 32, 133, 160, 5760, 8232, 8233, 8239, 8287, 12288}
            || c as int in {8192, 8193, 8194, 8195, 8196, 8197, 8198, 8199, 8200, 8201, 8202}
  {
  }

  predicate Blank(s: string) { forall i :: 0 <= i < |s| ==> IsSpace(s[i]) }

  function LStrip(s: string): (r: string)
    ensures r != [] ==> !IsSpace(r[0])
    ensures |r| <= |s| && r == s[|s| - |r|..] && Blank(s[..|s| - |r|])
  {
    if s != [] && IsSpace(s[0]) then LStrip(s[1..]) else s
  }

  function RStrip(s: string): (r: string)
    ensures r != [] ==> !IsSpace(r[|r| - 1])
    ensures r <= s && Blank(s[|r|..])
  {
    if s != [] && IsSpace(s[|s| - 1]) then
      var r := RStrip(s[..|s| - 1]);
      assert s[|r|..] == s[..|s| - 1][|r|..] + [s[|s| - 1]];
      r
    else s
  }

  /** `s.strip()`. */
  function Strip(s: string): (r: string)
    ensures r != [] ==> !IsSpace(r[0]) && !IsSpace(r[|r| - 1])
  {
    RStrip(LStrip(s))
  }

  /** The characters of `s` that are not white space, in order. */
  function Ink(s: string): (r: string) {
    if s == [] then []
    else (if IsSpace(s[0]) then [] else [s[0]]) + Ink(s[1..])
  }

  lemma {:induction false} InkConcat(a: string, b: string)
    ensures Ink(a + b) == Ink(a) + Ink(b)
  {
    if a == [] {
      assert a + b == b;
    } else {
      assert (a + b)[1..] == a[1..] + b;
      InkConcat(a[1..], b);
    }
  }

  lemma {:induction false} InkBlank(s: string)
    ensures Ink(s) == [] <==> Blank(s)
  {
    if s != [] {
      InkBlank(s[1..]);
      if Blank(s[1..]) && IsSpace(s[0]) {
        assert forall i :: 0 < i < |s| ==> s[i] == s[1..][i - 1];
      }
      if Blank(s) {
        assert Blank(s[1..]);
      }
    }
  }

  lemma LStripInk(s: string)
    ensures Ink(LStrip(s)) == Ink(s)
  {
    var l := LStrip(s);
    hide LStrip;
    assert s == s[..|s| - |l|] + l;
    InkConcat(s[..|s| - |l|], l);
    InkBlank(s[..|s| - |l|]);
  }

  lemma RStripInk(s: string)
    ensures Ink(RStrip(s)) == Ink(s)
  {
    var r := RStrip(s);
    hide RStrip;
    assert s == r + s[|r|..];
    InkConcat(r, s[|r|..]);
    InkBlank(s[|r|..]);
  }

  /** Stripping removes only white space, and everything exactly when there is nothing else. */
  lemma StripInk(s: string)
    ensures Ink(Strip(s)) == Ink(s)
    ensures Strip(s) == [] <==> Blank(s)
  {
    hide LStrip, RStrip;
    LStripInk(s);
    RStripInk(LStrip(s));
    InkBlank(s);
    InkBlank(Strip(s));
  }

  // ----- stripping what has been put together -----

  lemma StripTrimmed(s: string)
    requires s != [] ==> !IsSpace(s[0]) && !IsSpace(s[|s| - 1])
    ensures Strip(s) == s
  {
  }

  lemma {:induction false} LStripPadded(b: string, s: string)
    requires Blank(b)
    ensures LStrip(b + s) == LStrip(s)
  {
    if b == [] {
      assert b + s == s;
    } else {
      assert (b + s)[1..] == b[1..] + s;
      LStripPadded(b[1..], s);
    }
  }

  lemma {:induction false} RStripPadded(s: string, b: string)
    requires Blank(b)
    ensures RStrip(s + b) == RStrip(s)
  {
    if b == [] {
      assert s + b == s;
    } else {
      assert (s + b)[..|s + b| - 1] == s + b[..|b| - 1];
      RStripPadded(s, b[..|b| - 1]);
    }
  }

  lemma NotBlankPart(s: string, a: string, b: string)
    requires s == a + b && !Blank(s)
    ensures !Blank(a) || !Blank(b)
  {
    var i :| 0 <= i < |s| && !IsSpace(s[i]);
    if i < |a| {
      assert !IsSpace(a[i]);
    } else {
      assert !IsSpace(b[i - |a|]);
    }
  }

  /** Stripping on the right leaves everything up to the last character that is not white space. */
  lemma {:induction false} RStripConcat(p: string, s: string)
    requires !Blank(s)
    ensures RStrip(p + s) == p + RStrip(s)
  {
    if IsSpace(s[|s| - 1]) {
      var t := s[..|s| - 1];
      NotBlankPart(s, t, [s[|s| - 1]]);
      assert (p + s)[..|p + s| - 1] == p + t;
      RStripConcat(p, t);
    } else {
      assert (p + s)[|p + s| - 1] == s[|s| - 1];
    }
  }

  lemma {:induction false} LStripConcat(s: string, p: string)
    requires !Blank(s)
    ensures LStrip(s + p) == LStrip(s) + p
  {
    if IsSpace(s[0]) {
      var t := s[1..];
      NotBlankPart(s, [s[0]], t);
      assert (s + p)[1..] == t + p;
      LStripConcat(t, p);
    } else {
      assert (s + p)[0] == s[0];
    }
  }

  lemma LStripBlank(s: string)
    requires Blank(s)
    ensures LStrip(s) == []
  {
    assert LStrip([]) == [];
    hide LStrip, Blank;
    assert s + [] == s;
    LStripPadded(s, []);
  }

  lemma RStripBlank(s: string)
    requires Blank(s)
    ensures RStrip(s) == []
  {
    assert RStrip([]) == [];
    hide RStrip, Blank;
    assert [] + s == s;
    RStripPadded([], s);
  }

  lemma StripPadded(a: string, s: string, b: string)
    requires Blank(a) && Blank(b)
    ensures Strip(a + s + b) == Strip(s)
  {
    hide LStrip, RStrip;
    assert a + s + b == a + (s + b);
    LStripPadded(a, s + b);
    if Blank(s) {
      LStripBlank(s);
      LStripPadded(s, b);
      LStripBlank(b);
    } else {
      LStripConcat(s, b);
      RStripPadded(LStrip(s), b);
    }
  }

  predicate Trimmed(s: string) { s == "" || (!IsSpace(s[0]) && !IsSpace(s[|s| - 1])) }

  /** `t` is `s` without the white space around it. */
  ghost predicate Trims(s: string, t: string) {
    exists a, b :: s == a + t + b && Blank(a) && Blank(b) && Trimmed(t)
  }

  lemma StripTrims(s: string)
    ensures Trims(s, Strip(s))
  {
    var l, r := LStrip(s), Strip(s);
    hide LStrip, RStrip, IsSpace;
    var a, b := s[..|s| - |l|], l[|r|..];
    assert s == a + l && l == r + b;
    assert s == a + r + b;
  }

  lemma StripExactly(s: string, t: string)
    ensures Trims(s, t) <==> t == Strip(s)
  {
    hide LStrip, RStrip, IsSpace;
    StripTrims(s);
    if Trims(s, t) {
      var a, b :| s == a + t + b && Blank(a) && Blank(b) && Trimmed(t);
      StripPadded(a, t, b);
      StripTrimmed(t);
    }
  }

  // ----- searching -----

  predicate At(s: string, p: string, i: nat) { i + |p| <= |s| && s[i..i + |p|] == p }

  ghost predicate Contains(s: string, p: string) { exists i: nat :: At(s, p, i) }

  function FindFrom(s: string, p: string, i: nat): (r: Option<nat>)
    requires i <= |s|
    ensures r.Some? ==> i <= r.value && At(s, p, r.value) && forall j: nat :: i <= j < r.value ==> !At(s, p, j)
    ensures r.None? ==> forall j: nat :: i <= j ==> !At(s, p, j)
    decreases |s| - i
  {
    if At(s, p, i) then Some(i)
    else if i == |s| then None
    else FindFrom(s, p, i + 1)
  }

  /** `s.find(p)`: the first occurrence. */
  function Find(s: string, p: string): (r: Option<nat>)
    ensures r.Some? ==> At(s, p, r.value) && forall j: nat :: j < r.value ==> !At(s, p, j)
    ensures r.None? ==> forall j: nat :: !At(s, p, j)
  {
    FindFrom(s, p, 0)
  }

  lemma FindIs(s: string, p: string, i: nat)
    requires At(s, p, i) && forall j: nat :: j < i ==> !At(s, p, j)
    ensures Find(s, p) == Some(i)
  {
    hide At;
  }

  /** An occurrence in a concatenation that does not straddle it lies in one of the parts. */
  lemma AtLeft(a: string, b: string, p: string, i: nat)
    requires i + |p| <= |a|
    ensures At(a + b, p, i) <==> At(a, p, i)
  {
    assert (a + b)[i..i + |p|] == a[i..i + |p|];
  }

  lemma AtRight(a: string, b: string, p: string, i: nat)
    requires |a| <= i
    ensures At(a + b, p, i) <==> At(b, p, i - |a|)
  {
    if i + |p| <= |a + b| {
      assert (a + b)[i..i + |p|] == b[i - |a|..i - |a| + |p|];
    }
  }

  lemma AtChars(s: string, p: string, i: nat)
    requires At(s, p, i)
    ensures forall k :: i <= k < i + |p| ==> s[k] == p[k - i]
  {
    forall k | i <= k < i + |p| ensures s[k] == p[k - i] {
      assert s[i..i + |p|][k - i] == s[k];
    }
  }

  /** Where two lines meet: a pattern without the line feed lies in front of it or behind it. */
  lemma AtAcrossLine(a: string, b: string, p: string, i: nat)
    requires '\n' !in p && p != [] && At(a + "\n" + b, p, i)
    ensures At(a, p, i) || (i > |a| && At(b, p, i - |a| - 1))
  {
    var s := a + "\n" + b;
    AtChars(s, p, i);
    assert s[|a|] == '\n';
    if i + |p| <= |a| {
      assert s == a + ("\n" + b);
      AtLeft(a, "\n" + b, p, i);
    } else if i > |a| {
      AtRight(a + "\n", b, p, i);
    }
  }

  /** The first occurrence of a pattern that stands at the start of a line, the lines before lacking it. */
  lemma FindAfterLine(a: string, b: string, p: string)
    requires '\n' !in p && p != [] && !Contains(a, p) && p <= b
    ensures Find(a + "\n" + b, p) == Some(|a| + 1)
  {
    hide Find;
    var s := a + "\n" + b;
    AtRight(a + "\n", b, p, |a| + 1);
    forall j: nat | j < |a| + 1 ensures !At(s, p, j) {
      if At(s, p, j) {
        AtAcrossLine(a, b, p, j);
      }
    }
    FindIs(s, p, |a| + 1);
  }

  lemma ContainsLines(a: string, b: string, p: string)
    requires '\n' !in p && p != [] && !Contains(a, p) && !Contains(b, p)
    ensures !Contains(a + "\n" + b, p)
  {
    forall i: nat ensures !At(a + "\n" + b, p, i) {
      if At(a + "\n" + b, p, i) {
        AtAcrossLine(a, b, p, i);
      }
    }
  }

  /** Some line of `s` starts with `m`. */
  ghost predicate HasLine(s: string, m: string) { Contains("\n" + s, "\n" + m) }

  lemma NoLineAcross(a: string, b: string, m: string)
    requires '\n' !in m && !HasLine(a, m) && !HasLine(b, m)
    ensures !HasLine(a + "\n" + b, m)
  {
    var p, s := "\n" + m, "\n" + (a + "\n" + b);
    assert s == ("\n" + a) + ("\n" + b);
    forall i: nat ensures !At(s, p, i) {
      if At(s, p, i) {
        AtChars(s, p, i);
        assert s[|a| + 1] == '\n';
        if i > |a| {
          AtRight("\n" + a, "\n" + b, p, i);
        } else if i + |p| <= |a| + 1 {
          AtLeft("\n" + a, "\n" + b, p, i);
        }
      }
    }
  }

  lemma OnlyLine(s: string, m: string)
    requires '\n' !in s && HasLine(s, m)
    ensures m <= s
  {
    var i: nat :| At("\n" + s, "\n" + m, i);
    AtChars("\n" + s, "\n" + m, i);
    assert ("\n" + s)[i] == '\n';
    assert i == 0;
    assert m == ("\n" + m)[1..] == ("\n" + s)[..1 + |m|][1..] == s[..|m|];
  }

  lemma NoLineSingle(s: string, m: string)
    requires '\n' !in s && !(m <= s)
    ensures !HasLine(s, m)
  {
    if HasLine(s, m) {
      OnlyLine(s, m);
    }
  }

  lemma NoLinePrefix(a: string, b: string, m: string)
    requires !HasLine(a + b, m)
    ensures !HasLine(a, m)
  {
    assert "\n" + (a + b) == ("\n" + a) + b;
    forall i: nat ensures !At("\n" + a, "\n" + m, i) {
      if At("\n" + a, "\n" + m, i) {
        AtLeft("\n" + a, b, "\n" + m, i);
      }
    }
  }

  lemma FindNoMarker(s: string, m: string)
    requires !HasLine(s, m)
    ensures Find(s, "\n" + m) == None
  {
    hide Find;
    forall i: nat ensures !At(s, "\n" + m, i) {
      AtRight("\n", s, "\n" + m, i + 1);
    }
  }

  /** The first occurrence of a marker at the start of a line, right behind a text that lacks it. */
  lemma FindMarker(a: string, m: string, b: string)
    requires '\n' !in m && !HasLine(a, m)
    ensures Find(a + ("\n" + m) + b, "\n" + m) == Some(|a|)
  {
    hide Find;
    var p, s := "\n" + m, a + ("\n" + m) + b;
    assert s[|a|..|a| + |p|] == p;
    FindNoMarker(a, m);
    forall j: nat | j < |a| ensures !At(s, p, j) {
      if At(s, p, j) {
        AtChars(s, p, j);
        assert s[|a|] == '\n';
        if j + |p| <= |a| {
          assert s == a + (p + b);
          AtLeft(a, p + b, p, j);
        }
      }
    }
    FindIs(s, p, |a|);
  }

  // ----- lines -----

  /** The characters at which `str.splitlines` breaks, all of them white space. */
  predicate IsBreak(c: char) {
    var n := c as int;
    10 <= n <= 13 || 28 <= n <= 30 || n == 0x85 || n == 0x2028 || n == 0x2029
  }

  lemma BreaksAre(c: char)
    ensures IsBreak(c) <==> c as int in {10, 11, 12, 13, 28, 29, 30, 133, 8232, 8233}
    ensures IsBreak(c) ==> IsSpace(c)
  {
  }

  predicate SingleLine(s: string) { forall i :: 0 <= i < |s| ==> !IsBreak(s[i]) }

  /** The length of the first line. */
  function LineEnd(s: string): (n: nat)
    ensures n <= |s| && SingleLine(s[..n]) && (n < |s| ==> IsBreak(s[n]))
  {
    if s == [] || IsBreak(s[0]) then 0 else 1 + LineEnd(s[1..])
  }

  /** `s.splitlines()`; a carriage return and a line feed together are one break. */
  function Lines(s: string): (r: seq<string>) {
    if s == [] then []
    else
      var n := LineEnd(s);
      if n == |s| then [s]
      else [s[..n]] + Lines(s[if s[n] == '\r' && n + 1 < |s| && s[n + 1] == '\n' then n + 2 else n + 1..])
  }

  /** `"\n".join(parts)`. */
  function JoinLines(parts: seq<string>): string {
    if parts == [] then "" else if |parts| == 1 then parts[0] else parts[0] + "\n" + JoinLines(parts[1..])
  }

  lemma LineEndIs(s: string, n: nat)
    requires n <= |s| && SingleLine(s[..n]) && (n < |s| ==> IsBreak(s[n]))
    ensures LineEnd(s) == n
  {
    hide LineEnd;
    var m := LineEnd(s);
    assert forall i :: 0 <= i < n ==> s[..n][i] == s[i] && !IsBreak(s[i]);
    assert forall i :: 0 <= i < m ==> s[..m][i] == s[i] && !IsBreak(s[i]);
  }

  lemma {:induction false} LinesAreSingle(s: string)
    ensures forall i :: 0 <= i < |Lines(s)| ==> SingleLine(Lines(s)[i])
    decreases |s|
  {
    if s != [] {
      var n := LineEnd(s);
      hide LineEnd;
      if n == |s| {
        assert s[..n] == s;
      } else {
        LinesAreSingle(s[if s[n] == '\r' && n + 1 < |s| && s[n + 1] == '\n' then n + 2 else n + 1..]);
      }
    }
  }

  /** The first line and the others: a carriage return and a line feed together are one break, and a break at the end
      starts no further line. */
  lemma FirstLine(line: string, rest: string, end: string)
    requires SingleLine(line)
    requires end == "\r\n" || (|end| == 1 && IsBreak(end[0]))
    requires end == "\r" ==> rest == "" || rest[0] != '\n'
    ensures Lines(line + end + rest) == [line] + Lines(rest)
    ensures Lines("") == [] && (line != "" ==> Lines(line) == [line])
  {
    var s, n := line + end + rest, |line|;
    assert s[..n] == line && s[n] == end[0];
    LineEndIs(s, n);
    assert line[..n] == line;
    LineEndIs(line, n);
    hide LineEnd, IsBreak;
    if end == "\r\n" {
      assert s[n + 1] == '\n' && s[n + 2..] == rest;
    } else {
      assert s[n + 1..] == rest && (rest != "" ==> s[n + 1] == rest[0]);
    }
  }

  /** Splitting into lines undoes joining single lines, unless the last one is empty. */
  lemma {:induction false} LinesOfJoin(parts: seq<string>)
    requires parts != [] && parts[|parts| - 1] != []
    requires forall i :: 0 <= i < |parts| ==> SingleLine(parts[i])
    ensures Lines(JoinLines(parts)) == parts
    decreases |parts|
  {
    var s, n := JoinLines(parts), |parts[0]|;
    if |parts| == 1 {
      assert s[..n] == s;
      LineEndIs(s, n);
    } else {
      assert s[..n] == parts[0] && s[n] == '\n';
      LineEndIs(s, n);
      assert s[n + 1..] == JoinLines(parts[1..]);
      LinesOfJoin(parts[1..]);
    }
  }

  lemma {:induction false} JoinSnoc(parts: seq<string>, last: string)
    requires parts != []
    ensures JoinLines(parts + [last]) == JoinLines(parts) + "\n" + last
    decreases |parts|
  {
    if |parts| == 1 {
      assert (parts + [last])[1..] == [last];
    } else {
      assert (parts + [last])[1..] == parts[1..] + [last];
      JoinSnoc(parts[1..], last);
    }
  }

  /** No line of a joined text starts with the marker unless one of its parts does. */
  lemma {:induction false} NoLineJoined(parts: seq<string>, m: string)
    requires '\n' !in m && m != []
    requires forall i :: 0 <= i < |parts| ==> '\n' !in parts[i] && !(m <= parts[i])
    ensures !HasLine(JoinLines(parts), m)
    decreases |parts|
  {
    hide HasLine;
    if parts == [] {
      NoLineSingle("", m);
    } else {
      NoLineSingle(parts[0], m);
      if |parts| > 1 {
        NoLineJoined(parts[1..], m);
        NoLineAcross(parts[0], JoinLines(parts[1..]), m);
      }
    }
  }

  /** A joined text starts as its first part and ends as its last. */
  lemma {:induction false} JoinEnds(parts: seq<string>)
    requires parts != [] && parts[0] != [] && parts[|parts| - 1] != []
    ensures var s := JoinLines(parts);
            s != [] && s[0] == parts[0][0] && s[|s| - 1] == parts[|parts| - 1][|parts[|parts| - 1]| - 1]
    decreases |parts|
  {
    if |parts| > 1 {
      JoinSnoc(parts[..|parts| - 1], parts[|parts| - 1]);
      assert parts == parts[..|parts| - 1] + [parts[|parts| - 1]];
    }
  }
}
