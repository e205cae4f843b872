/** The header block of a part (`_parse_multipart_headers` in server/hot_path/model_executor.py) and the length it
    announces: what the code computes, then what a reader of the bytes would say, and that they agree. */
module MultipartHeaders {
  import opened Wrappers

  newtype byte = x: int | 0 <= x < 256
  type bytes = seq<byte>

  const CRLF: bytes := [13, 10]
  const HEADER_END: bytes := [13, 10, 13, 10]
  const CONTENT_LENGTH: bytes :=  // "content-length"
    [99, 111, 110, 116, 101, 110, 116, 45, 108, 101, 110, 103, 116, 104]

  datatype Error =
    | NonAsciiHeader
    | HeaderWithoutColon
    | MissingContentLength
    | InvalidContentLength
    | PartNotFollowedByCrlf
    | Incomplete

  // ----- Python helpers on byte strings -----

  predicate OccursAt(s: bytes, pattern: bytes, k: nat) {
    k + |pattern| <= |s| && s[k..k + |pattern|] == pattern
  }

  /** `s.find(pattern, from)`: the first occurrence at or after `from`. */
  function Find(s: bytes, pattern: bytes, from: nat): (r: Option<nat>)
    ensures r.Some? ==> from <= r.value && OccursAt(s, pattern, r.value)
    ensures forall k: nat :: from <= k && OccursAt(s, pattern, k) ==> r.Some? && r.value <= k
    decreases |s| - from
  {
    if from + |pattern| > |s| then None
    else if OccursAt(s, pattern, from) then Some(from)
    else if from == |s| then None
    else Find(s, pattern, from + 1)
  }

  /** A Python slice bound: negative counts from the end, and it is clamped. */
  function Bound(i: int, n: nat): (r: nat)
    ensures r <= n
  {
    if i < 0 then (if i + n < 0 then 0 else i + n) else if i < n then i else n
  }

  /** `s[i:j]`. */
  function Slice(s: bytes, i: int, j: int): bytes {
    var lo, hi := Bound(i, |s|), Bound(j, |s|);
    if lo < hi then s[lo..hi] else []
  }

  predicate IsSpace(c: byte) { 9 <= c <= 13 || 28 <= c <= 32 }

  function Strip(s: bytes): bytes {
    if s != [] && IsSpace(s[0]) then Strip(s[1..])
    else if s != [] && IsSpace(s[|s| - 1]) then Strip(s[..|s| - 1])
    else s
  }

  function Lower(s: bytes): bytes {
    seq(|s|, i requires 0 <= i < |s| => if 65 <= s[i] <= 90 then s[i] + 32 else s[i])
  }

  /** `s.split("\r\n")`. */
  function Lines(s: bytes): seq<bytes>
    decreases |s|
  {
    match Find(s, CRLF, 0)
    case None => [s]
    case Some(k) => [s[..k]] + Lines(s[k + 2..])
  }

  predicate IsDigit(c: byte) { 48 <= c <= 57 }

  /** Digits of a base-10 `int(...)` literal, with single underscores between digits. */
  function Digits(s: bytes, acc: nat, afterDigit: bool): Option<nat> {
    if s == [] then if afterDigit then Some(acc) else None
    else if IsDigit(s[0]) then Digits(s[1..], 10 * acc + (s[0] - 48) as nat, true)
    else if s[0] == 95 && afterDigit then Digits(s[1..], acc, false)
    else None
  }

  /** `int(s)` on stripped ASCII text. */
  function ParseInt(s: bytes): Option<int> {
    if s != [] && s[0] == 45 then
      match Digits(s[1..], 0, false) { case None => None case Some(n) => Some(-(n as int)) }
    else if s != [] && s[0] == 43 then Digits(s[1..], 0, false)
    else Digits(s, 0, false)
  }

  // ----- headers -----

  /** Adds the header lines to `headers`, a later line replacing an earlier one. */
  function HeaderMap(lines: seq<bytes>, headers: map<bytes, bytes>): Result<map<bytes, bytes>, Error> {
    if lines == [] then Ok(headers)
    else
      match Find(lines[0], [58], 0)
      case None => Raised(HeaderWithoutColon)
      case Some(k) =>
        HeaderMap(lines[1..], headers[Lower(lines[0][..k]) := Strip(lines[0][k + 1..])])
  }

  predicate IsAscii(s: bytes) { forall i :: 0 <= i < |s| ==> s[i] < 128 }

  function ParseHeaders(header: bytes): Result<map<bytes, bytes>, Error> {
    if IsAscii(header) then HeaderMap(Lines(header), map[]) else Raised(NonAsciiHeader)
  }

  /** The loop of `_parse_multipart_headers`. */
  method ParseMultipartHeaders(header: bytes) returns (r: Result<map<bytes, bytes>, Error>)
    ensures r == ParseHeaders(header)
  {
    if !IsAscii(header) {
      return Raised(NonAsciiHeader);
    }
    var lines := Lines(header);
    var headers := map[];
    for n := 0 to |lines|
      invariant HeaderMap(lines, map[]) == HeaderMap(lines[n..], headers)
    {
      assert lines[n..][1..] == lines[n + 1..];
      match Find(lines[n], [58], 0) {
        case None => return Raised(HeaderWithoutColon);
        case Some(k) => headers := headers[Lower(lines[n][..k]) := Strip(lines[n][k + 1..])];
      }
    }
    return Ok(headers);
  }

  function ContentLength(header: bytes): Result<int, Error> {
    match ParseHeaders(header)
    case Raised(e) => Raised(e)
    case Ok(headers) =>
      if CONTENT_LENGTH !in headers then Raised(MissingContentLength)
      else
        match ParseInt(headers[CONTENT_LENGTH])
        case None => Raised(InvalidContentLength)
        case Some(n) => Ok(n)
  }

  // ----- what the bytes say -----

  /** The bytes of a text of ASCII characters. */
  function Ascii(s: string): bytes
    requires forall i :: 0 <= i < |s| ==> s[i] < 128 as char
  {
    seq(|s|, i requires 0 <= i < |s| => s[i] as byte)
  }

  /** The white space is the ASCII part of what `str.strip` takes off, and the digits are the ten ASCII ones. */
  lemma ByteClasses(c: byte)
    ensures IsSpace(c) <==> c in {9, 10, 11, 12, 13, 28, 29, 30, 31, 32}
    ensures IsDigit(c) <==> c in Ascii("0123456789")
  {
    assert Ascii("0123456789") == [48, 49, 50, 51, 52, 53, 54, 55, 56, 57];
  }

  /** What decodes as ASCII is the bytes of some text of ASCII characters. */
  lemma AsciiExactly(s: bytes)
    ensures IsAscii(s) <==>
            exists t: string :: (forall i :: 0 <= i < |t| ==> t[i] < 128 as char) && s == Ascii(t)
  {
    if IsAscii(s) {
      var t := seq(|s|, i requires 0 <= i < |s| => s[i] as char);
      assert s == Ascii(t);
    }
  }

  predicate Blank(s: bytes) { forall i :: 0 <= i < |s| ==> IsSpace(s[i]) }

  predicate NoCrlf(s: bytes) { forall i :: 0 <= i < |s| - 1 ==> !(s[i] == 13 && s[i + 1] == 10) }

  /** `"\r\n".join(lines)`. */
  function JoinCrlf(lines: seq<bytes>): bytes
    requires lines != []
  {
    if |lines| == 1 then lines[0] else lines[0] + [13, 10] + JoinCrlf(lines[1..])
  }

  /** A list of lines, as a header block is cut into them. */
  predicate AreLines(lines: seq<bytes>) {
    lines != [] && forall i :: 0 <= i < |lines| ==> NoCrlf(lines[i])
  }

  /** The byte is the character, or the capital of the character. */
  predicate SameLetter(b: byte, c: byte) { b == c || (65 <= b <= 90 && c == b + 32) }

  /** The bytes before the first colon are `key` up to ASCII case. */
  predicate Names(line: bytes, key: bytes) {
    && |key| < |line| && line[|key|] == 58
    && forall i :: 0 <= i < |key| ==> line[i] != 58 && SameLetter(line[i], key[i])
  }

  predicate NoCapitals(s: bytes) { forall i :: 0 <= i < |s| ==> !(65 <= s[i] <= 90) }

  ghost predicate SomeNames(lines: seq<bytes>, key: bytes) { exists i :: 0 <= i < |lines| && Names(lines[i], key) }

  /** The last line that names `key`. */
  ghost predicate LastNaming(lines: seq<bytes>, key: bytes, i: int) {
    && 0 <= i < |lines| && Names(lines[i], key)
    && forall j :: i < j < |lines| ==> !Names(lines[j], key)
  }

  /** `t` is `s` without the white space around it. */
  ghost predicate Trims(s: bytes, t: bytes) {
    exists i, j :: Around(s, t, i, j)
  }

  predicate Around(s: bytes, t: bytes, i: int, j: int) {
    && 0 <= i <= j <= |s| && t == s[i..j] && Blank(s[..i]) && Blank(s[j..])
    && (t != [] ==> !IsSpace(t[0]) && !IsSpace(t[|t| - 1]))
  }

  /** Digits with single underscores between them. */
  predicate WellFormed(s: bytes) { s != [] && s[0] != 95 && IsDigit(s[|s| - 1]) && Grouped(s) }

  predicate Grouped(s: bytes) {
    forall i :: 0 <= i < |s| ==> IsDigit(s[i]) || (s[i] == 95 && i + 1 < |s| && IsDigit(s[i + 1]))
  }

  /** Their value, the last digit counting once and what stands before it ten times. */
  function ValueOf(s: bytes): nat {
    if s == [] then 0
    else
      var d := s[|s| - 1];
      if IsDigit(d) then 10 * ValueOf(s[..|s| - 1]) + (d - 48) as nat else ValueOf(s[..|s| - 1])
  }

  /** An integer with an optional sign. */
  ghost predicate Denotes(s: bytes, n: int) {
    || (WellFormed(s) && n == ValueOf(s))
    || (s != [] && s[0] == 43 && WellFormed(s[1..]) && n == ValueOf(s[1..]))
    || (s != [] && s[0] == 45 && WellFormed(s[1..]) && n == -(ValueOf(s[1..]) as int))
  }

  /** An integer, perhaps with white space around it. */
  ghost predicate Reads(s: bytes, n: int) { exists t :: Trims(s, t) && Denotes(t, n) }

  ghost predicate IsHeaderLine(line: bytes) { NoCrlf(line) && IsAscii(line) && 58 in line }

  /** The last line of that name holds the integer `n`. */
  ghost predicate Announced(lines: seq<bytes>, key: bytes, n: int) {
    exists i :: LastNaming(lines, key, i) && Reads(lines[i][|key| + 1..], n)
  }

  /** Header lines that announce a body of `n` bytes. */
  ghost predicate Announce(lines: seq<bytes>, n: int) {
    && lines != [] && (forall i :: 0 <= i < |lines| ==> IsHeaderLine(lines[i]))
    && Announced(lines, Ascii("content-length"), n)
  }

  // ----- cutting a header block into its lines -----

  lemma OccursShift(a: bytes, b: bytes, pattern: bytes, k: nat)
    ensures OccursAt(a + b, pattern, |a| + k) <==> OccursAt(b, pattern, k)
  {
    if k + |pattern| <= |b| {
      assert (a + b)[|a| + k..|a| + k + |pattern|] == b[k..k + |pattern|];
    }
  }

  lemma OccursFirst(s: bytes, pattern: bytes, k: nat)
    requires pattern != [] && OccursAt(s, pattern, k)
    ensures k < |s| && s[k] == pattern[0]
  {
    assert s[k] == s[k..k + |pattern|][0];
  }

  lemma CrlfAt(s: bytes, k: nat)
    ensures OccursAt(s, CRLF, k) <==> k + 2 <= |s| && s[k] == 13 && s[k + 1] == 10
  {
    if k + 2 <= |s| {
      assert s[k..k + 2] == [s[k], s[k + 1]];
    }
  }

  lemma BlankLineAt(s: bytes, k: nat)
    ensures OccursAt(s, HEADER_END, k) <==> OccursAt(s, CRLF, k) && OccursAt(s, CRLF, k + 2)
  {
    CrlfAt(s, k);
    CrlfAt(s, k + 2);
    if k + 4 <= |s| {
      assert s[k..k + 4] == [s[k], s[k + 1], s[k + 2], s[k + 3]];
    }
  }

  lemma NoCrlfNoFind(s: bytes)
    ensures NoCrlf(s) <==> Find(s, CRLF, 0) == None
  {
    hide Find, OccursAt;
    if Find(s, CRLF, 0).Some? {
      CrlfAt(s, Find(s, CRLF, 0).value);
    } else {
      forall i | 0 <= i < |s| - 1 ensures !(s[i] == 13 && s[i + 1] == 10) {
        CrlfAt(s, i);
      }
    }
  }

  /** No line break in a line, nor across its end. */
  lemma NoneInLine(line: bytes, x: bytes, k: nat)
    requires NoCrlf(line) && OccursAt(line + CRLF + x, CRLF, k)
    ensures k >= |line|
  {
    CrlfAt(line + CRLF + x, k);
  }

  lemma FirstCrlf(line: bytes, x: bytes)
    requires NoCrlf(line)
    ensures Find(line + CRLF + x, CRLF, 0) == Some(|line|)
  {
    hide Find, OccursAt;
    var s := line + CRLF + x;
    CrlfAt(s, |line|);
    NoneInLine(line, x, Find(s, CRLF, 0).value);
  }

  lemma {:induction false} LinesOfJoin(lines: seq<bytes>)
    requires AreLines(lines)
    ensures Lines(JoinCrlf(lines)) == lines
  {
    hide Find;
    if |lines| == 1 {
      NoCrlfNoFind(lines[0]);
    } else {
      FirstCrlf(lines[0], JoinCrlf(lines[1..]));
      LinesOfJoin(lines[1..]);
      var s, k := JoinCrlf(lines), |lines[0]|;
      assert s[..k] == lines[0] && s[k + 2..] == JoinCrlf(lines[1..]);
    }
  }

  /** Every header block is cut into lines, in one way. */
  lemma {:induction false} JoinOfLines(s: bytes)
    ensures AreLines(Lines(s)) && JoinCrlf(Lines(s)) == s
    decreases |s|
  {
    hide Find;
    NoCrlfNoFind(s);
    if Find(s, CRLF, 0).Some? {
      var k := Find(s, CRLF, 0).value;
      CrlfAt(s, k);
      JoinOfLines(s[k + 2..]);
      BeforeTheFirst(s, k);
      assert s == s[..k] + [13, 10] + s[k + 2..];
      assert Lines(s)[1..] == Lines(s[k + 2..]);
    }
  }

  lemma BeforeTheFirst(s: bytes, k: nat)
    requires Find(s, CRLF, 0) == Some(k)
    ensures k <= |s| && NoCrlf(s[..k])
  {
    hide Find, OccursAt;
    CrlfAt(s, k);
    forall i | 0 <= i < k - 1 ensures !(s[..k][i] == 13 && s[..k][i + 1] == 10) {
      CrlfAt(s, i);
    }
  }

  /** The blank line behind lines that are not empty is the first one. */
  lemma {:induction false} BlankLineEnds(lines: seq<bytes>)
    requires AreLines(lines) && forall i :: 0 <= i < |lines| ==> lines[i] != []
    ensures Find(JoinCrlf(lines) + HEADER_END, HEADER_END, 0) == Some(|JoinCrlf(lines)|)
  {
    hide Find, OccursAt;
    var h := JoinCrlf(lines);
    var s := h + HEADER_END;
    CrlfAt(s, |h|);
    CrlfAt(s, |h| + 2);
    BlankLineAt(s, |h|);
    BlankLineNotBefore(lines, Find(s, HEADER_END, 0).value);
  }

  lemma {:induction false} BlankLineNotBefore(lines: seq<bytes>, k: nat)
    requires AreLines(lines) && forall i :: 0 <= i < |lines| ==> lines[i] != []
    requires OccursAt(JoinCrlf(lines) + HEADER_END, HEADER_END, k)
    ensures k >= |JoinCrlf(lines)|
  {
    hide OccursAt, NoCrlf;
    var line, s := lines[0], JoinCrlf(lines) + HEADER_END;
    BlankLineAt(s, k);
    if |lines| == 1 {
      assert s == line + CRLF + CRLF;
      NoneInLine(line, CRLF, k);
    } else {
      var more := JoinCrlf(lines[1..]) + HEADER_END;
      assert s == line + CRLF + more && s == (line + CRLF) + more;
      NoneInLine(line, more, k);
      CrlfAt(s, k);
      CrlfAt(s, k + 2);
      if k == |line| {
        NextLineStarts(lines[1..]);
      } else {
        OccursShift(line + CRLF, more, HEADER_END, k - |line| - 2);
        BlankLineNotBefore(lines[1..], k - |line| - 2);
      }
    }
  }

  lemma NextLineStarts(lines: seq<bytes>)
    requires AreLines(lines) && lines[0] != []
    ensures var more := JoinCrlf(lines) + HEADER_END; |more| >= 2 && !(more[0] == 13 && more[1] == 10)
  {
    var more := JoinCrlf(lines) + HEADER_END;
    assert more[0] == lines[0][0];
    if |lines[0]| > 1 {
      assert more[1] == lines[0][1];
    } else {
      assert more[1] == 13;
    }
  }

  lemma {:induction false} JoinIsAscii(lines: seq<bytes>)
    requires lines != []
    ensures IsAscii(JoinCrlf(lines)) <==> forall i :: 0 <= i < |lines| ==> IsAscii(lines[i])
  {
    if |lines| > 1 {
      var more := JoinCrlf(lines[1..]);
      JoinIsAscii(lines[1..]);
      AsciiConcat(lines[0] + [13, 10], more);
      AsciiConcat(lines[0], [13, 10]);
      assert forall i :: 1 <= i < |lines| ==> lines[i] == lines[1..][i - 1];
    }
  }

  lemma AsciiConcat(a: bytes, b: bytes)
    ensures IsAscii(a + b) <==> IsAscii(a) && IsAscii(b)
  {
    assert forall i :: 0 <= i < |a| ==> (a + b)[i] == a[i];
    assert forall i :: 0 <= i < |b| ==> (a + b)[|a| + i] == b[i];
  }

  // ----- names and values -----

  lemma ColonAt(line: bytes)
    ensures var found := Find(line, [58], 0);
            && (found.Some? <==> 58 in line)
            && (found.Some? ==> found.value < |line| && line[found.value] == 58)
            && (found.Some? ==> forall i :: 0 <= i < found.value ==> line[i] != 58)
  {
    hide Find, OccursAt;
    var found := Find(line, [58], 0);
    forall k: nat | k < |line| ensures OccursAt(line, [58], k) <==> line[k] == 58 {
      OneByte(line, k);
    }
    if found.Some? {
      OccursFirst(line, [58], found.value);
    }
  }

  lemma OneByte(s: bytes, k: nat)
    requires k < |s|
    ensures OccursAt(s, [58], k) <==> s[k] == 58
  {
    assert s[k..k + 1] == [s[k]];
  }

  /** The map's key for a line is the name that a reader sees. */
  lemma NamesExactly(line: bytes, key: bytes)
    requires Find(line, [58], 0).Some?
    ensures var k := Find(line, [58], 0).value;
            Lower(line[..k]) == key <==> k == |key| && NoCapitals(key) && Names(line, key)
    ensures Names(line, key) ==> Find(line, [58], 0).value == |key|
  {
    hide Find;
    ColonAt(line);
    var k := Find(line, [58], 0).value;
    assert forall i :: 0 <= i < k ==> line[..k][i] == line[i];
    if Lower(line[..k]) == key {
      assert forall i :: 0 <= i < k ==> key[i] == Lower(line[..k])[i];
    }
  }

  lemma {:induction false} StripTrims(s: bytes) returns (i: int, j: int)
    ensures Around(s, Strip(s), i, j)
  {
    hide Around;
    if s != [] && IsSpace(s[0]) {
      i, j := StripTrims(s[1..]);
      AroundLeft(s, Strip(s), i, j);
      i, j := i + 1, j + 1;
    } else if s != [] && IsSpace(s[|s| - 1]) {
      i, j := StripTrims(s[..|s| - 1]);
      AroundRight(s, Strip(s), i, j);
    } else {
      i, j := 0, |s|;
      AroundNothing(s);
    }
  }

  lemma AroundNothing(s: bytes)
    requires s != [] ==> !IsSpace(s[0]) && !IsSpace(s[|s| - 1])
    ensures Around(s, s, 0, |s|)
  {
    assert s[0..|s|] == s;
  }

  lemma BlankConcat(a: bytes, b: bytes)
    requires Blank(a) && Blank(b)
    ensures Blank(a + b)
  {
  }

  lemma AroundLeft(s: bytes, t: bytes, i: int, j: int)
    requires s != [] && IsSpace(s[0]) && Around(s[1..], t, i, j)
    ensures Around(s, t, i + 1, j + 1)
  {
    BlankConcat([s[0]], s[1..][..i]);
    assert s[..i + 1] == [s[0]] + s[1..][..i];
    assert s[j + 1..] == s[1..][j..];
    assert s[i + 1..j + 1] == s[1..][i..j];
  }

  lemma AroundRight(s: bytes, t: bytes, i: int, j: int)
    requires s != [] && IsSpace(s[|s| - 1]) && Around(s[..|s| - 1], t, i, j)
    ensures Around(s, t, i, j)
  {
    var u := s[..|s| - 1];
    BlankConcat(u[j..], [s[|s| - 1]]);
    assert s[..i] == u[..i];
    assert s[j..] == u[j..] + [s[|s| - 1]];
    assert s[i..j] == u[i..j];
  }

  lemma TrimsOnce(s: bytes, t: bytes, u: bytes)
    requires Trims(s, t) && Trims(s, u)
    ensures t == u
  {
    var i, j :| Around(s, t, i, j);
    var k, l :| Around(s, u, k, l);
    if t != [] {
      AroundInside(s, t, i, j, u, k, l);
      AroundInside(s, u, k, l, t, i, j);
    } else if u != [] {
      AroundInside(s, u, k, l, t, i, j);
    }
  }

  lemma AroundInside(s: bytes, t: bytes, i: int, j: int, u: bytes, k: int, l: int)
    requires Around(s, t, i, j) && Around(s, u, k, l) && t != []
    ensures u != [] && k <= i && j <= l
  {
    assert t[0] == s[i] && t[|t| - 1] == s[j - 1];
    assert forall n :: 0 <= n < k ==> s[..k][n] == s[n];
    assert forall n :: l <= n < |s| ==> s[l..][n - l] == s[n];
  }

  /** Stripping is taking off the white space around. */
  lemma TrimsExactly(s: bytes, t: bytes)
    ensures Trims(s, t) <==> t == Strip(s)
  {
    var i, j := StripTrims(s);
    hide Strip, Around;
    if Trims(s, t) {
      TrimsOnce(s, t, Strip(s));
    }
  }

  // ----- integers -----

  predicate WellFormedAfter(s: bytes, after: bool) {
    (s == [] ==> after) && (s != [] ==> (s[0] != 95 || after) && IsDigit(s[|s| - 1])) && Grouped(s)
  }

  function ValueAfter(acc: nat, s: bytes): nat {
    if s == [] then acc
    else
      var d := s[|s| - 1];
      var n := ValueAfter(acc, s[..|s| - 1]);
      if IsDigit(d) then 10 * n + (d - 48) as nat else n
  }

  lemma {:induction false} ValueFirst(acc: nat, s: bytes)
    requires s != []
    ensures ValueAfter(acc, s) == ValueAfter(ValueAfter(acc, s[..1]), s[1..])
  {
    if |s| == 1 {
      assert s[..1] == s && s[1..] == [];
    } else {
      var t := s[..|s| - 1];
      ValueFirst(acc, t);
      assert t[..1] == s[..1] && t[1..] == s[1..][..|s[1..]| - 1];
    }
  }

  lemma ValueOfOne(acc: nat, s: bytes)
    requires s != []
    ensures ValueAfter(acc, s[..1]) == if IsDigit(s[0]) then 10 * acc + (s[0] - 48) as nat else acc
  {
    assert s[..1][..0] == [];
    assert ValueAfter(acc, s[..1][..0]) == acc;
  }

  lemma {:induction false} DigitsFrom(s: bytes, acc: nat, after: bool)
    ensures Digits(s, acc, after).Some? <==> WellFormedAfter(s, after)
    ensures Digits(s, acc, after).Some? ==> Digits(s, acc, after).value == ValueAfter(acc, s)
  {
    if s != [] {
      ValueFirst(acc, s);
      ValueOfOne(acc, s);
      var t := s[1..];
      assert forall i :: 0 <= i < |t| ==> t[i] == s[i + 1];
      if IsDigit(s[0]) {
        DigitsFrom(t, 10 * acc + (s[0] - 48) as nat, true);
      } else if s[0] == 95 && after {
        DigitsFrom(t, acc, false);
      }
      hide ValueAfter, Digits;
      TailWellFormed(s, after);
    }
  }

  lemma TailWellFormed(s: bytes, after: bool)
    requires s != []
    ensures WellFormedAfter(s, after) <==>
            (IsDigit(s[0]) && WellFormedAfter(s[1..], true)) || (s[0] == 95 && after && WellFormedAfter(s[1..], false))
  {
    var t := s[1..];
    if WellFormedAfter(s, after) {
      TakeFromFront(s, after);
    }
    if IsDigit(s[0]) && WellFormedAfter(t, true) {
      AddInFront(s, after, true);
    }
    if s[0] == 95 && after && WellFormedAfter(t, false) {
      AddInFront(s, after, false);
    }
  }

  lemma TakeFromFront(s: bytes, after: bool)
    requires s != [] && WellFormedAfter(s, after)
    ensures if IsDigit(s[0]) then WellFormedAfter(s[1..], true)
            else s[0] == 95 && after && WellFormedAfter(s[1..], false)
  {
    var t := s[1..];
    forall i | 0 <= i < |t| ensures IsDigit(t[i]) || (t[i] == 95 && i + 1 < |t| && IsDigit(t[i + 1])) {
      assert t[i] == s[i + 1] && (i + 1 < |t| ==> t[i + 1] == s[i + 2]);
    }
    if t != [] {
      assert t[0] == s[1] && t[|t| - 1] == s[|s| - 1];
    }
  }

  lemma AddInFront(s: bytes, after: bool, digit: bool)
    requires s != [] && WellFormedAfter(s[1..], digit)
    requires if digit then IsDigit(s[0]) else s[0] == 95 && after
    ensures WellFormedAfter(s, after)
  {
    var t := s[1..];
    assert forall i :: 0 <= i < |t| ==> t[i] == s[i + 1];
    forall i | 0 < i < |s| ensures IsDigit(s[i]) || (s[i] == 95 && i + 1 < |s| && IsDigit(s[i + 1])) {
      assert s[i] == t[i - 1] && (i + 1 < |s| ==> s[i + 1] == t[i]);
    }
    if t == [] {
      assert |s| == 1;
    } else {
      assert s[1] == t[0] && s[|s| - 1] == t[|t| - 1];
    }
  }

  lemma {:induction false} ValueOfAll(s: bytes)
    ensures ValueAfter(0, s) == ValueOf(s)
  {
    if s != [] {
      ValueOfAll(s[..|s| - 1]);
    }
  }

  /** Digit by digit from the left is the value of the digits. */
  lemma DigitsExactly(s: bytes, n: nat)
    ensures Digits(s, 0, false) == Some(n) <==> WellFormed(s) && ValueOf(s) == n
  {
    hide Digits, ValueAfter, ValueOf, Grouped;
    DigitsFrom(s, 0, false);
    ValueOfAll(s);
  }

  lemma ParseIntExactly(s: bytes, n: int)
    ensures ParseInt(s) == Some(n) <==> Denotes(s, n)
  {
    hide Digits, ValueOf;
    if n >= 0 {
      DigitsExactly(s, n);
      if s != [] {
        DigitsExactly(s[1..], n);
      }
    }
    if n <= 0 && s != [] {
      DigitsExactly(s[1..], -n);
    }
  }

  lemma ReadsExactly(s: bytes, n: int)
    ensures ParseInt(Strip(s)) == Some(n) <==> Reads(s, n)
  {
    hide Strip, ParseInt, Denotes, Trims;
    TrimsExactly(s, Strip(s));
    ParseIntExactly(Strip(s), n);
    if Reads(s, n) {
      var t :| Trims(s, t) && Denotes(t, n);
      TrimsExactly(s, t);
    }
  }

  // ----- what the map holds -----

  lemma LastOf(lines: seq<bytes>, key: bytes) returns (i: int)
    ensures if SomeNames(lines, key) then LastNaming(lines, key, i) else i == -1
  {
    hide Names;
    i := |lines| - 1;
    while i >= 0 && !Names(lines[i], key)
      invariant -1 <= i < |lines|
      invariant forall j :: i < j < |lines| ==> !Names(lines[j], key)
    {
      i := i - 1;
    }
  }

  lemma {:induction false} WithoutColon(lines: seq<bytes>, headers: map<bytes, bytes>)
    ensures HeaderMap(lines, headers) ==
            if exists i :: 0 <= i < |lines| && 58 !in lines[i] then Raised(HeaderWithoutColon)
            else HeaderMap(lines, headers)
    ensures HeaderMap(lines, headers).Ok? <==> forall i :: 0 <= i < |lines| ==> 58 in lines[i]
  {
    hide Find, Lower, Strip;
    if lines != [] {
      ColonAt(lines[0]);
      var found := Find(lines[0], [58], 0);
      if found.Some? {
        var k := found.value;
        WithoutColon(lines[1..], headers[Lower(lines[0][..k]) := Strip(lines[0][k + 1..])]);
        assert forall i :: 0 < i < |lines| ==> lines[i] == lines[1..][i - 1];
        assert forall i :: 0 <= i < |lines| - 1 ==> lines[1..][i] == lines[i + 1];
      }
    }
  }

  function TextBehind(line: bytes, key: bytes): bytes {
    if |key| < |line| then line[|key| + 1..] else []
  }

  lemma {:induction false} MapLooks(lines: seq<bytes>, headers: map<bytes, bytes>, key: bytes)
    requires NoCapitals(key) && HeaderMap(lines, headers).Ok?
    ensures var m := HeaderMap(lines, headers).value;
            && (!SomeNames(lines, key) ==> (key in m <==> key in headers) && (key in m ==> m[key] == headers[key]))
            && forall i :: LastNaming(lines, key, i) ==> key in m && m[key] == Strip(TextBehind(lines[i], key))
  {
    hide Find, Lower, Strip, Names, NoCapitals;
    if lines != [] {
      var next := MapStep(lines, headers, key);
      MapLooks(lines[1..], next, key);
      hide HeaderMap;
      assert forall i :: 0 < i < |lines| ==> lines[i] == lines[1..][i - 1];
      assert forall i :: 0 <= i < |lines| - 1 ==> lines[1..][i] == lines[i + 1];
      var m := HeaderMap(lines, headers).value;
      forall i | LastNaming(lines, key, i)
        ensures key in m && m[key] == Strip(TextBehind(lines[i], key))
      {
        if i > 0 {
          assert LastNaming(lines[1..], key, i - 1);
        } else {
          assert !SomeNames(lines[1..], key);
        }
      }
    }
  }

  lemma MapStep(lines: seq<bytes>, headers: map<bytes, bytes>, key: bytes)
    returns (next: map<bytes, bytes>)
    requires lines != [] && NoCapitals(key) && HeaderMap(lines, headers).Ok?
    ensures HeaderMap(lines, headers) == HeaderMap(lines[1..], next)
    ensures if Names(lines[0], key) then key in next && next[key] == Strip(TextBehind(lines[0], key))
            else (key in next <==> key in headers) && (key in next ==> next[key] == headers[key])
  {
    hide Find, Lower, Strip, SameLetter, NoCapitals;
    ColonAt(lines[0]);
    NamesExactly(lines[0], key);
    var k := Find(lines[0], [58], 0).value;
    next := headers[Lower(lines[0][..k]) := Strip(lines[0][k + 1..])];
  }

  /** For header lines with colons, the map holds exactly the names of the lines in lower case, and under a name the
      text after the colon of the last line with that name, without the white space around it. */
  lemma HeadersExactly(lines: seq<bytes>, key: bytes)
    requires AreLines(lines) && forall i :: 0 <= i < |lines| ==> IsAscii(lines[i]) && 58 in lines[i]
    ensures ParseHeaders(JoinCrlf(lines)).Ok?
    ensures var m := ParseHeaders(JoinCrlf(lines)).value;
            && (key in m <==> NoCapitals(key) && SomeNames(lines, key))
            && forall i :: key in m && LastNaming(lines, key, i) ==> Trims(lines[i][|key| + 1..], m[key])
  {
    hide HeaderMap, Lines, JoinCrlf, SameLetter, Strip, Trims, NoCapitals, IsAscii, NoCrlf;
    LinesOfJoin(lines);
    JoinIsAscii(lines);
    WithoutColon(lines, map[]);
    KeysAreLower(lines, map[], key);
    var m := HeaderMap(lines, map[]).value;
    if NoCapitals(key) {
      MapLooks(lines, map[], key);
      var last := LastOf(lines, key);
      forall i | LastNaming(lines, key, i) ensures Trims(lines[i][|key| + 1..], m[key]) {
        TrimsExactly(lines[i][|key| + 1..], m[key]);
      }
    }
  }

  lemma {:induction false} KeysAreLower(lines: seq<bytes>, headers: map<bytes, bytes>, key: bytes)
    requires HeaderMap(lines, headers).Ok? && key !in headers
    ensures key in HeaderMap(lines, headers).value ==> NoCapitals(key)
  {
    hide Find, Lower, Strip, Names, NoCapitals;
    if lines != [] {
      ColonAt(lines[0]);
      NamesExactly(lines[0], key);
      var k := Find(lines[0], [58], 0).value;
      if Lower(lines[0][..k]) != key {
        KeysAreLower(lines[1..], headers[Lower(lines[0][..k]) := Strip(lines[0][k + 1..])], key);
      }
    }
  }

  // ----- the announced length -----

  lemma LengthName()
    ensures Ascii("content-length") == CONTENT_LENGTH && |CONTENT_LENGTH| == 14 && NoCapitals(CONTENT_LENGTH)
  {
  }

  ghost predicate AllAscii(lines: seq<bytes>) { forall i :: 0 <= i < |lines| ==> IsAscii(lines[i]) }

  ghost predicate AllColons(lines: seq<bytes>) { forall i :: 0 <= i < |lines| ==> 58 in lines[i] }

  /** The length of a header block of these lines, for any lines: which error is raised when, and which integer is
      read from which line. */
  lemma LengthExactly(lines: seq<bytes>, n: int)
    requires AreLines(lines)
    ensures var r, name := ContentLength(JoinCrlf(lines)), Ascii("content-length");
            && (r == Raised(NonAsciiHeader) <==> !AllAscii(lines))
            && (r == Raised(HeaderWithoutColon) <==> AllAscii(lines) && !AllColons(lines))
            && (r == Raised(MissingContentLength) <==> AllAscii(lines) && AllColons(lines) && !SomeNames(lines, name))
            && (r == Ok(n) <==> AllAscii(lines) && AllColons(lines) && Announced(lines, name, n))
  {
    hide HeaderMap, Lines, JoinCrlf, IsAscii, NoCrlf, ParseInt, SomeNames, Announced, Ascii;
    LengthName();
    LinesOfJoin(lines);
    JoinIsAscii(lines);
    WithoutColon(lines, map[]);
    if HeaderMap(lines, map[]).Ok? {
      NamedLength(lines, n);
    }
  }

  lemma NamedLength(lines: seq<bytes>, n: int)
    requires HeaderMap(lines, map[]).Ok?
    ensures var m := HeaderMap(lines, map[]).value;
            && (CONTENT_LENGTH in m <==> SomeNames(lines, CONTENT_LENGTH))
            && (CONTENT_LENGTH in m && ParseInt(m[CONTENT_LENGTH]) == Some(n) <==> Announced(lines, CONTENT_LENGTH, n))
  {
    hide HeaderMap, SameLetter, Strip, NoCapitals, ParseInt, Reads, CONTENT_LENGTH;
    LengthName();
    MapLooks(lines, map[], CONTENT_LENGTH);
    var i := LastOf(lines, CONTENT_LENGTH);
    if i >= 0 {
      ReadsExactly(lines[i][15..], n);
    }
  }

  /** What the writer and the reader of a header agree on. */
  lemma AnnounceExactly(lines: seq<bytes>, n: int)
    requires AreLines(lines)
    ensures Announce(lines, n) <==> ContentLength(JoinCrlf(lines)) == Ok(n)
  {
    hide ContentLength, IsAscii, NoCrlf, Announced, Ascii;
    LengthExactly(lines, n);
  }
}
