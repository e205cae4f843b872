/** Assembling a transcript from timed segments of which later ones replace those they overlap
    (scripts/apple_speech_stt/AppleSpeechSTT.swift): as a stream, and as a batch. */
module Transcript {
  import Text

  datatype TimedText = TimedText(start: real, end: real, text: string)

  /** A recogniser result as it arrives, its text not yet trimmed. */
  type Result = TimedText

  // ----- trimming -----

  /** The characters of `whitespacesAndNewlines`. */
  predicate IsTrimmable(c: char) {
    var n := c as int;
    || 9 <= n <= 13 || n == 0x20 || n == 0x85 || n == 0xA0 || n == 0x1680
    || 0x2000 <= n <= 0x200A || n == 0x2028 || n == 0x2029 || n == 0x202F || n == 0x205F || n == 0x3000
  }

  function Trim(s: string): string
    decreases |s|
  {
    if s == "" then ""
    else if IsTrimmable(s[0]) then Trim(s[1..])
    else if IsTrimmable(s[|s| - 1]) then Trim(s[..|s| - 1])
    else s
  }

  /** These are the characters Python strips as well, but for the four separators. */
  lemma TrimmableIs(c: char)
    ensures IsTrimmable(c) <==> Text.IsSpace(c) && !(28 <= c as int <= 31)
  {
  }

  predicate AllTrimmable(s: string) { forall i :: 0 <= i < |s| ==> IsTrimmable(s[i]) }

  /** `t` is `s` from `i` to `j`, with only trimmable characters around it and none at its ends. */
  predicate Around(s: string, t: string, i: int, j: int) {
    && 0 <= i <= j <= |s| && t == s[i..j] && AllTrimmable(s[..i]) && AllTrimmable(s[j..])
    && (t != "" ==> !IsTrimmable(t[0]) && !IsTrimmable(t[|t| - 1]))
  }

  lemma AllTrimmableConcat(a: string, b: string)
    requires AllTrimmable(a) && AllTrimmable(b)
    ensures AllTrimmable(a + b)
  {
  }

  lemma AroundLeft(s: string, t: string, i: int, j: int)
    requires s != "" && IsTrimmable(s[0]) && Around(s[1..], t, i, j)
    ensures Around(s, t, i + 1, j + 1)
  {
    hide IsTrimmable;
    var u := s[1..];
    AllTrimmableConcat([s[0]], u[..i]);
    assert s[..i + 1] == [s[0]] + u[..i];
    assert s[j + 1..] == u[j..];
    assert s[i + 1..j + 1] == u[i..j];
  }

  lemma AroundRight(s: string, t: string, i: int, j: int)
    requires s != "" && IsTrimmable(s[|s| - 1]) && Around(s[..|s| - 1], t, i, j)
    ensures Around(s, t, i, j)
  {
    hide IsTrimmable;
    var u := s[..|s| - 1];
    AllTrimmableConcat(u[j..], [s[|s| - 1]]);
    assert s[..i] == u[..i];
    assert s[j..] == u[j..] + [s[|s| - 1]];
    assert s[i..j] == u[i..j];
  }

  /** Trimming takes off what is trimmable on both sides, and nothing else. */
  lemma {:induction false} TrimExactly(s: string) returns (i: int, j: int)
    ensures Around(s, Trim(s), i, j)
    decreases |s|
  {
    hide IsTrimmable, Around;
    if s == "" {
      i, j := 0, 0;
      AroundAll(s);
    } else if IsTrimmable(s[0]) {
      i, j := TrimExactly(s[1..]);
      AroundLeft(s, Trim(s), i, j);
      i, j := i + 1, j + 1;
    } else if IsTrimmable(s[|s| - 1]) {
      i, j := TrimExactly(s[..|s| - 1]);
      AroundRight(s, Trim(s), i, j);
    } else {
      i, j := 0, |s|;
      AroundAll(s);
    }
  }

  lemma AroundAll(s: string)
    requires s != "" ==> !IsTrimmable(s[0]) && !IsTrimmable(s[|s| - 1])
    ensures Around(s, s, 0, |s|)
  {
    assert s[0..|s|] == s;
  }

  predicate Accepted(r: Result) { Trim(r.text) != "" }

  /** A result is accepted when there is anything in it to say. */
  lemma AcceptedExactly(r: Result)
    ensures Accepted(r) <==> exists k :: 0 <= k < |r.text| && !IsTrimmable(r.text[k])
  {
    hide IsTrimmable;
    var s := r.text;
    var i, j := TrimExactly(s);
    hide Trim;
    if Accepted(r) {
      assert Trim(s)[0] == s[i];
    } else {
      forall k | 0 <= k < |s| ensures IsTrimmable(s[k]) {
        assert s[k] == if k < i then s[..i][k] else s[j..][k - j];
      }
    }
  }

  function Segment(r: Result): TimedText { r.(text := Trim(r.text)) }

  // ----- replacing overlaps -----

  predicate Overlaps(a: TimedText, b: TimedText) { !(a.end <= b.start || a.start >= b.end) }

  ghost predicate During(x: real, a: TimedText) { a.start < x < a.end }

  /** Two segments of positive length overlap when some moment is inside both. */
  lemma OverlapsExactly(a: TimedText, b: TimedText)
    requires a.start < a.end && b.start < b.end
    ensures Overlaps(a, b) <==> exists x :: During(x, a) && During(x, b)
  {
    var from, to := if a.start < b.start then b.start else a.start, if a.end < b.end then a.end else b.end;
    if Overlaps(a, b) {
      var x := (from + to) / 2.0;
      assert During(x, a) && During(x, b);
    }
  }

  function Retained(segments: seq<TimedText>, newer: TimedText): seq<TimedText> {
    if segments == [] then []
    else
      var n := |segments| - 1;
      var rest := Retained(segments[..n], newer);
      if Overlaps(segments[n], newer) then rest else rest + [segments[n]]
  }

  /** Behind every segment that does not start later. */
  function Insert(segments: seq<TimedText>, x: TimedText): seq<TimedText> {
    if segments == [] then [x]
    else
      var n := |segments| - 1;
      if x.start < segments[n].start then Insert(segments[..n], x) + [segments[n]] else segments + [x]
  }

  /** `sorted` by start, which is stable. */
  function Sort(segments: seq<TimedText>): seq<TimedText> {
    if segments == [] then [] else Insert(Sort(segments[..|segments| - 1]), segments[|segments| - 1])
  }

  function ReplacingOverlaps(segments: seq<TimedText>, replacement: TimedText): seq<TimedText> {
    Sort(Retained(segments, replacement) + [replacement])
  }

  function CombinedText(segments: seq<TimedText>): string {
    if segments == [] then "" else segments[0].text + CombinedText(segments[1..])
  }

  /** Where the text of segment `j` begins when the texts are laid end to end. */
  function Offset(segments: seq<TimedText>, j: nat): nat
    requires j <= |segments|
  {
    if j == 0 then 0 else Offset(segments, j - 1) + |segments[j - 1].text|
  }

  ghost predicate EndToEnd(segments: seq<TimedText>, text: string) {
    && |text| == Offset(segments, |segments|)
    && forall j :: 0 <= j < |segments| ==> StandsAt(text, Offset(segments, j), segments[j].text)
  }

  predicate StandsAt(text: string, at: nat, part: string) {
    at + |part| <= |text| && text[at..at + |part|] == part
  }

  lemma {:induction false} OffsetSuffix(segments: seq<TimedText>, j: nat)
    requires 0 < j <= |segments|
    ensures Offset(segments, j) == |segments[0].text| + Offset(segments[1..], j - 1)
  {
    if j > 1 {
      OffsetSuffix(segments, j - 1);
    }
  }

  /** The combined text is the segments' texts end to end. */
  lemma {:induction false} TextsEndToEnd(segments: seq<TimedText>)
    ensures EndToEnd(segments, CombinedText(segments))
  {
    if segments == [] {
      hide StandsAt;
    } else {
      TextsEndToEnd(segments[1..]);
      hide EndToEnd;
      EndToEndCons(segments, CombinedText(segments[1..]));
    }
  }

  lemma EndToEndCons(segments: seq<TimedText>, text: string)
    requires segments != [] && EndToEnd(segments[1..], text)
    ensures EndToEnd(segments, segments[0].text + text)
  {
    hide Offset, StandsAt;
    var first, rest := segments[0].text, segments[1..];
    OffsetsCons(segments, rest);
    forall j | 0 <= j < |segments|
      ensures StandsAt(first + text, Offset(segments, j), segments[j].text)
    {
      if j > 0 {
        assert StandsAt(text, Offset(rest, j - 1), rest[j - 1].text);
        StandsBehind(first, text, Offset(rest, j - 1), rest[j - 1].text);
      } else {
        StandsFirst(first, text);
      }
    }
  }

  lemma OffsetsCons(segments: seq<TimedText>, rest: seq<TimedText>)
    requires segments != [] && rest == segments[1..]
    ensures Offset(segments, 0) == 0
    ensures forall j :: 0 < j <= |segments| ==> Offset(segments, j) == |segments[0].text| + Offset(rest, j - 1)
  {
    forall j | 0 < j <= |segments| ensures Offset(segments, j) == |segments[0].text| + Offset(rest, j - 1) {
      OffsetSuffix(segments, j);
    }
  }

  lemma StandsFirst(first: string, text: string)
    ensures StandsAt(first + text, 0, first)
  {
  }

  lemma StandsBehind(first: string, text: string, at: nat, part: string)
    requires StandsAt(text, at, part)
    ensures StandsAt(first + text, |first| + at, part)
  {
    assert (first + text)[|first| + at..|first| + at + |part|] == text[at..at + |part|];
  }

  // ----- the two forms, folded over the results -----

  function Streamed(results: seq<Result>): seq<TimedText> {
    if results == [] then []
    else
      var n := |results| - 1;
      if Accepted(results[n]) then ReplacingOverlaps(Streamed(results[..n]), Segment(results[n]))
      else Streamed(results[..n])
  }

  function Collected(results: seq<Result>): seq<TimedText> {
    if results == [] then []
    else
      var n := |results| - 1;
      if Accepted(results[n]) then Retained(Collected(results[..n]), Segment(results[n])) + [Segment(results[n])]
      else Collected(results[..n])
  }

  method CollectTranscript(results: seq<Result>) returns (text: string)
    ensures text == CombinedText(Sort(Collected(results)))
  {
    var segments: seq<TimedText> := [];
    for i := 0 to |results|
      invariant segments == Collected(results[..i])
    {
      hide Trim, Sort, CombinedText;
      assert results[..i + 1][..i] == results[..i];
      if Trim(results[i].text) != "" {
        var segment := TimedText(results[i].start, results[i].end, Trim(results[i].text));
        segments := RemoveOverlapping(segments, segment);
        segments := segments + [segment];
      }
    }
    assert results[..|results|] == results;
    text := CombinedText(Sort(segments));
  }

  method RemoveOverlapping(segments: seq<TimedText>, newer: TimedText) returns (rest: seq<TimedText>)
    ensures rest == Retained(segments, newer)
  {
    rest := [];
    for i := 0 to |segments|
      invariant rest == Retained(segments[..i], newer)
    {
      assert segments[..i + 1][..i] == segments[..i];
      if segments[i].end <= newer.start || segments[i].start >= newer.end {
        rest := rest + [segments[i]];
      }
    }
    assert segments[..|segments|] == segments;
  }

  // ----- both forms agree -----

  ghost predicate Ordered(s: seq<TimedText>) { forall i, j :: 0 <= i < j < |s| ==> s[i].start <= s[j].start }

  lemma {:induction false} InsertAdds(s: seq<TimedText>, x: TimedText)
    ensures multiset(Insert(s, x)) == multiset(s) + multiset{x}
  {
    if s != [] {
      var n := |s| - 1;
      assert s == s[..n] + [s[n]];
      InsertAdds(s[..n], x);
    }
  }

  lemma InsertIn(s: seq<TimedText>, x: TimedText)
    ensures forall k :: 0 <= k < |Insert(s, x)| ==> Insert(s, x)[k] == x || Insert(s, x)[k] in s
  {
    InsertAdds(s, x);
    hide Insert;
    forall k | 0 <= k < |Insert(s, x)|
      ensures Insert(s, x)[k] == x || Insert(s, x)[k] in s
    {
      assert Insert(s, x)[k] in multiset(Insert(s, x));
    }
  }

  lemma {:induction false} InsertKeepsOrder(s: seq<TimedText>, x: TimedText)
    requires Ordered(s)
    ensures Ordered(Insert(s, x))
  {
    if s != [] && x.start < s[|s| - 1].start {
      var n := |s| - 1;
      InsertKeepsOrder(s[..n], x);
      InsertIn(s[..n], x);
      var t := Insert(s[..n], x);
      assert Insert(s, x) == t + [s[n]];
      hide Insert;
      forall k | 0 <= k < |t|
        ensures t[k].start <= s[n].start
      {
        assert t[k] == x || t[k] in s[..n];
      }
    }
  }

  lemma {:induction false} SortSorts(s: seq<TimedText>)
    ensures Ordered(Sort(s)) && multiset(Sort(s)) == multiset(s)
  {
    if s != [] {
      var n := |s| - 1;
      assert s == s[..n] + [s[n]];
      SortSorts(s[..n]);
      InsertKeepsOrder(Sort(s[..n]), s[n]);
      InsertAdds(Sort(s[..n]), s[n]);
    }
  }

  lemma {:induction false} SortOfOrdered(s: seq<TimedText>)
    requires Ordered(s)
    ensures Sort(s) == s
  {
    if s != [] {
      SortOfOrdered(s[..|s| - 1]);
      InsertLast(s[..|s| - 1], s[|s| - 1]);
    }
  }

  lemma InsertLast(s: seq<TimedText>, x: TimedText)
    requires s != [] ==> s[|s| - 1].start <= x.start
    ensures Insert(s, x) == s + [x]
  {
  }

  lemma RetainedSnoc(s: seq<TimedText>, x: TimedText, newer: TimedText)
    ensures Retained(s + [x], newer) == if Overlaps(x, newer) then Retained(s, newer) else Retained(s, newer) + [x]
  {
    assert (s + [x])[..|s|] == s;
  }

  lemma {:induction false} RetainedIn(s: seq<TimedText>, newer: TimedText)
    ensures forall i :: 0 <= i < |Retained(s, newer)| ==>
              Retained(s, newer)[i] in s && !Overlaps(Retained(s, newer)[i], newer)
  {
    hide Overlaps;
    if s != [] {
      RetainedIn(s[..|s| - 1], newer);
    }
  }

  lemma {:induction false} RetainedOrdered(s: seq<TimedText>, newer: TimedText)
    requires Ordered(s)
    ensures Ordered(Retained(s, newer))
  {
    hide Overlaps;
    if s != [] {
      RetainedOrdered(s[..|s| - 1], newer);
      RetainedIn(s[..|s| - 1], newer);
    }
  }

  lemma InsertSnoc(s: seq<TimedText>, y: TimedText, x: TimedText)
    requires x.start < y.start
    ensures Insert(s + [y], x) == Insert(s, x) + [y]
  {
    assert (s + [y])[..|s|] == s;
  }

  lemma InsertBefore(s: seq<TimedText>, x: TimedText)
    requires s != [] && x.start < s[|s| - 1].start
    ensures Insert(s, x) == Insert(s[..|s| - 1], x) + [s[|s| - 1]]
  {
  }

  /** Filtering commutes with a stable insertion. */
  lemma {:induction false} RetainedOfInsert(s: seq<TimedText>, x: TimedText, newer: TimedText)
    requires Ordered(s)
    ensures Retained(Insert(s, x), newer)
         == if Overlaps(x, newer) then Retained(s, newer) else Insert(Retained(s, newer), x)
  {
    if s == [] {
      RetainedSnoc(s, x, newer);
      assert s + [x] == [x];
    } else {
      hide Overlaps, Insert, Retained;
      var n := |s| - 1;
      assert s == s[..n] + [s[n]];
      if x.start < s[n].start {
        InsertBefore(s, x);
        RetainedOfInsert(s[..n], x, newer);
        RetainedSnoc(Insert(s[..n], x), s[n], newer);
        RetainedSnoc(s[..n], s[n], newer);
        InsertSnoc(Retained(s[..n], newer), s[n], x);
      } else {
        InsertLast(s, x);
        RetainedSnoc(s, x, newer);
        RetainedIn(s, newer);
        InsertBehind(s, Retained(s, newer), x);
      }
    }
  }

  lemma InsertBehind(s: seq<TimedText>, r: seq<TimedText>, x: TimedText)
    requires s != [] && Ordered(s) && s[|s| - 1].start <= x.start
    requires forall i :: 0 <= i < |r| ==> r[i] in s
    ensures Insert(r, x) == r + [x]
  {
    if r != [] {
      assert r[|r| - 1] in s;
    }
    InsertLast(r, x);
  }

  lemma NoneRetained(newer: TimedText)
    ensures Retained(Sort([]), newer) == Sort(Retained([], newer))
  {
  }

  lemma {:induction false} RetainedOfSort(s: seq<TimedText>, newer: TimedText)
    ensures Retained(Sort(s), newer) == Sort(Retained(s, newer))
  {
    hide Overlaps, Insert, Retained, Sort, Ordered;
    if s == [] {
      NoneRetained(newer);
    } else {
      var front, last := s[..|s| - 1], s[|s| - 1];
      assert s == front + [last];
      RetainedOfSort(front, newer);
      SortSorts(front);
      SortSnoc(front, last);
      RetainedSnoc(front, last, newer);
      RetainedOfInsert(Sort(front), last, newer);
      SortSnoc(Retained(front, newer), last);
    }
  }

  lemma SortSnoc(s: seq<TimedText>, x: TimedText)
    ensures Sort(s + [x]) == Insert(Sort(s), x)
  {
    assert (s + [x])[..|s|] == s;
  }

  /** The stream keeps at all times exactly the segments of the batch, sorted: whatever the intervals. */
  lemma {:induction false} StreamIsBatch(results: seq<Result>)
    ensures Streamed(results) == Sort(Collected(results))
  {
    hide Insert, Retained, Trim, Overlaps;
    if results != [] {
      var n := |results| - 1;
      StreamIsBatch(results[..n]);
      if Accepted(results[n]) {
        var xs, y := Collected(results[..n]), Segment(results[n]);
        RetainedOfSort(xs, y);
        SortSorts(Retained(xs, y));
        SortOfOrdered(Sort(Retained(xs, y)));
        SortSnoc(Sort(Retained(xs, y)), y);
        SortSnoc(Retained(xs, y), y);
      }
    }
  }

  // ----- which segments are kept -----

  ghost predicate Replaced(x: TimedText, later: seq<Result>) {
    exists j :: 0 <= j < |later| && Accepted(later[j]) && Overlaps(x, Segment(later[j]))
  }

  /** The accepted segments that no later accepted one overlaps, in order of arrival. */
  ghost function Survivors(results: seq<Result>): seq<TimedText> {
    if results == [] then []
    else if Accepted(results[0]) && !Replaced(Segment(results[0]), results[1..]) then
      [Segment(results[0])] + Survivors(results[1..])
    else Survivors(results[1..])
  }

  lemma ReplacedSnoc(x: TimedText, later: seq<Result>, r: Result)
    ensures Replaced(x, later + [r]) <==> Replaced(x, later) || (Accepted(r) && Overlaps(x, Segment(r)))
  {
    hide Overlaps, Trim, Accepted;
    if Replaced(x, later) {
      var j :| 0 <= j < |later| && Accepted(later[j]) && Overlaps(x, Segment(later[j]));
      assert (later + [r])[j] == later[j];
    }
    assert (later + [r])[|later|] == r;
  }

  lemma NoneOrOne(x: TimedText, newer: TimedText)
    ensures Retained([], newer) == []
    ensures Retained([x], newer) == if Overlaps(x, newer) then [] else [x]
  {
    var none: seq<TimedText> := [];
    assert [x] == none + [x];
    RetainedSnoc(none, x, newer);
  }

  lemma {:induction false} RetainedCons(x: TimedText, s: seq<TimedText>, newer: TimedText)
    ensures Retained([x] + s, newer) == if Overlaps(x, newer) then Retained(s, newer) else [x] + Retained(s, newer)
  {
    hide Overlaps, Retained;
    if s == [] {
      NoneOrOne(x, newer);
      assert [x] + s == [x];
    } else {
      var front, last := s[..|s| - 1], s[|s| - 1];
      RetainedCons(x, front, newer);
      assert [x] + s == ([x] + front) + [last];
      RetainedSnoc([x] + front, last, newer);
      assert s == front + [last];
      RetainedSnoc(front, last, newer);
    }
  }

  /** An accepted result takes out the survivors it overlaps and adds itself. */
  lemma {:induction false} SurvivorsSnoc(results: seq<Result>, r: Result)
    ensures Survivors(results + [r])
         == if Accepted(r) then Retained(Survivors(results), Segment(r)) + [Segment(r)] else Survivors(results)
  {
    hide Overlaps, Trim, Accepted, Replaced;
    if results == [] {
      assert results + [r] == [r] && [r][1..] == [];
      NothingReplaces(Segment(r));
    } else {
      var x, rest := Segment(results[0]), results[1..];
      assert (results + [r])[1..] == rest + [r];
      SurvivorsSnoc(rest, r);
      ReplacedSnoc(x, rest, r);
      SurvivorsUnfold(results);
      SurvivorsUnfold(results + [r]);
      hide Survivors, Retained;
      RetainedCons(x, Survivors(rest), Segment(r));
    }
  }

  lemma SurvivorsUnfold(results: seq<Result>)
    requires results != []
    ensures Survivors(results)
         == if Accepted(results[0]) && !Replaced(Segment(results[0]), results[1..])
            then [Segment(results[0])] + Survivors(results[1..]) else Survivors(results[1..])
  {
  }

  lemma NothingReplaces(x: TimedText)
    ensures !Replaced(x, []) && Retained([], x) == []
  {
  }

  /** A segment is kept exactly when no later accepted segment overlaps it. */
  lemma {:induction false} KeptExactly(results: seq<Result>)
    ensures Collected(results) == Survivors(results)
    ensures Streamed(results) == Sort(Survivors(results))
  {
    hide Overlaps, Trim, Accepted, Replaced, Sort, Streamed;
    StreamIsBatch(results);
    if results != [] {
      var n := |results| - 1;
      KeptExactly(results[..n]);
      assert results == results[..n] + [results[n]];
      SurvivorsSnoc(results[..n], results[n]);
    }
  }

  // ----- sorted and disjoint -----

  ghost predicate Disjoint(s: seq<TimedText>) { forall i, j :: 0 <= i < j < |s| ==> !Overlaps(s[i], s[j]) }

  ghost predicate Positive(s: seq<TimedText>) { forall i :: 0 <= i < |s| ==> s[i].start < s[i].end }

  lemma {:induction false} RetainedDisjoint(s: seq<TimedText>, newer: TimedText)
    requires Disjoint(s)
    ensures Disjoint(Retained(s, newer))
  {
    hide Overlaps;
    if s != [] {
      var n := |s| - 1;
      RetainedDisjoint(s[..n], newer);
      RetainedIn(s[..n], newer);
      forall x | x in s[..n]
        ensures !Overlaps(x, s[n])
      {
        var i :| 0 <= i < n && s[i] == x;
      }
    }
  }

  lemma ReplacedDisjoint(s: seq<TimedText>, y: TimedText)
    requires Disjoint(s) && Positive(s) && y.start < y.end
    ensures Disjoint(Retained(s, y) + [y]) && Positive(Retained(s, y) + [y])
  {
    RetainedDisjoint(s, y);
    RetainedIn(s, y);
    hide Retained, Overlaps;
    assert forall i :: 0 <= i < |Retained(s, y)| ==> Retained(s, y)[i] in s;
  }

  lemma {:induction false} CollectedDisjoint(results: seq<Result>)
    requires forall i :: 0 <= i < |results| && Accepted(results[i]) ==> results[i].start < results[i].end
    ensures Disjoint(Collected(results)) && Positive(Collected(results))
  {
    if results != [] {
      var n := |results| - 1;
      CollectedDisjoint(results[..n]);
      hide Trim, Accepted, Retained, Disjoint, Positive;
      if Accepted(results[n]) {
        ReplacedDisjoint(Collected(results[..n]), Segment(results[n]));
      }
    }
  }

  lemma OverlapIsSymmetric(a: TimedText, b: TimedText)
    ensures Overlaps(a, b) <==> Overlaps(b, a)
  {
  }

  lemma {:induction false} InsertDisjoint(s: seq<TimedText>, x: TimedText)
    requires Ordered(s) && Disjoint(s) && forall i :: 0 <= i < |s| ==> !Overlaps(s[i], x)
    ensures Disjoint(Insert(s, x))
  {
    hide Overlaps;
    if s != [] {
      var n := |s| - 1;
      assert s == s[..n] + [s[n]];
      if x.start < s[n].start {
        InsertDisjoint(s[..n], x);
        InsertIn(s[..n], x);
        var t := Insert(s[..n], x);
        forall k | 0 <= k < |t|
          ensures !Overlaps(t[k], s[n])
        {
          assert t[k] == x || t[k] in s[..n];
          OverlapIsSymmetric(s[n], x);
        }
      }
    }
  }

  lemma {:induction false} SortDisjoint(s: seq<TimedText>)
    requires Disjoint(s) && Positive(s)
    ensures Disjoint(Sort(s)) && Positive(Sort(s))
  {
    hide Overlaps, Insert;
    if s != [] {
      var n := |s| - 1;
      assert s == s[..n] + [s[n]];
      SortDisjoint(s[..n]);
      SortSorts(s[..n]);
      SortSorts(s);
      forall k | 0 <= k < |Sort(s[..n])|
        ensures !Overlaps(Sort(s[..n])[k], s[n])
      {
        assert Sort(s[..n])[k] in multiset(Sort(s[..n]));
        assert Sort(s[..n])[k] in s[..n];
      }
      InsertDisjoint(Sort(s[..n]), s[n]);
      forall k | 0 <= k < |Sort(s)|
        ensures Sort(s)[k].start < Sort(s)[k].end
      {
        assert Sort(s)[k] in multiset(Sort(s));
        assert Sort(s)[k] in s;
      }
    }
  }

  /** For intervals of positive length the list kept is sorted and pairwise disjoint at all times. */
  lemma SortedAndDisjoint(results: seq<Result>)
    requires forall i :: 0 <= i < |results| && Accepted(results[i]) ==> results[i].start < results[i].end
    ensures var s := Streamed(results);
            forall i, j :: 0 <= i < j < |s| ==> s[i].start < s[i].end <= s[j].start < s[j].end
  {
    hide Trim, Accepted, Retained, Sort, Collected, Streamed;
    StreamIsBatch(results);
    CollectedDisjoint(results);
    SortDisjoint(Collected(results));
    SortSorts(Collected(results));
  }

  // ----- the emitter -----

  datatype Line = Line(text: string, final: bool)

  datatype Half = Half(segments: seq<TimedText>, last: string)

  datatype Emitter = Emitter(partialHalf: Half, finalHalf: Half, lines: seq<Line>)

  const FRESH := Emitter(Half([], ""), Half([], ""), [])

  function AcceptHalf(h: Half, r: Result): Half {
    if Accepted(r) then
      var segments := ReplacingOverlaps(h.segments, Segment(r));
      Half(segments, CombinedText(segments))
    else h
  }

  function AcceptStep(e: Emitter, r: Result, final: bool): Emitter {
    var before := if final then e.finalHalf else e.partialHalf;
    var after := AcceptHalf(before, r);
    var lines := if after.last != before.last then e.lines + [Line(after.last, final)] else e.lines;
    if final then Emitter(e.partialHalf, after, lines) else Emitter(after, e.finalHalf, lines)
  }

  type Event = (Result, bool)

  function Emitted(events: seq<Event>): Emitter {
    if events == [] then FRESH
    else AcceptStep(Emitted(events[..|events| - 1]), events[|events| - 1].0, events[|events| - 1].1)
  }

  function ResultsOf(events: seq<Event>, final: bool): seq<Result> {
    if events == [] then []
    else
      var n := |events| - 1;
      if events[n].1 == final then ResultsOf(events[..n], final) + [events[n].0] else ResultsOf(events[..n], final)
  }

  function TextsOf(lines: seq<Line>, final: bool): seq<string> {
    if lines == [] then []
    else
      var n := |lines| - 1;
      if lines[n].final == final then TextsOf(lines[..n], final) + [lines[n].text] else TextsOf(lines[..n], final)
  }

  function HalfOf(e: Emitter, final: bool): Half { if final then e.finalHalf else e.partialHalf }

  /** The lines of one kind: never the same text twice in a row, and the last one is the present text. */
  ghost predicate LinesOk(e: Emitter, final: bool) {
    var texts, last := TextsOf(e.lines, final), HalfOf(e, final).last;
    && (if texts == [] then last == "" else texts[|texts| - 1] == last)
    && (texts != [] ==> texts[0] != "")
    && (forall i :: 0 < i < |texts| ==> texts[i - 1] != texts[i])
  }

  lemma TextsSnoc(lines: seq<Line>, l: Line, final: bool)
    ensures TextsOf(lines + [l], final)
         == if l.final == final then TextsOf(lines, final) + [l.text] else TextsOf(lines, final)
  {
    assert (lines + [l])[..|lines|] == lines;
  }

  lemma AcceptKeepsLines(e: Emitter, r: Result, kind: bool, final: bool)
    requires LinesOk(e, final)
    ensures LinesOk(AcceptStep(e, r, kind), final)
  {
    hide AcceptHalf, TextsOf;
    var after := AcceptHalf(HalfOf(e, kind), r);
    if after.last != HalfOf(e, kind).last {
      TextsSnoc(e.lines, Line(after.last, kind), final);
    }
  }

  lemma {:induction false} EmitterFollows(events: seq<Event>, final: bool)
    ensures HalfOf(Emitted(events), final).segments == Streamed(ResultsOf(events, final))
    ensures HalfOf(Emitted(events), final).last == CombinedText(Streamed(ResultsOf(events, final)))
    ensures LinesOk(Emitted(events), final)
  {
    hide ReplacingOverlaps, CombinedText, Trim, Accepted;
    if events == [] {
      NoSegments();
    } else {
      var n := |events| - 1;
      EmitterFollows(events[..n], final);
      AcceptKeepsLines(Emitted(events[..n]), events[n].0, events[n].1, final);
      hide LinesOk, TextsOf;
      if events[n].1 == final {
        StreamedSnoc(ResultsOf(events[..n], final), events[n].0);
      }
    }
  }

  lemma NoSegments()
    ensures CombinedText([]) == ""
  {
  }

  lemma StreamedSnoc(results: seq<Result>, r: Result)
    ensures Streamed(results + [r])
         == if Accepted(r) then ReplacingOverlaps(Streamed(results), Segment(r)) else Streamed(results)
  {
    hide ReplacingOverlaps, Trim;
    assert (results + [r])[..|results|] == results;
  }

  /** However partial and final results interleave, the last line of a kind is the batch transcript of the
      results of that kind, and no line of a kind repeats the one before it. */
  lemma StreamSaysTheBatch(events: seq<Event>, final: bool)
    ensures var texts := TextsOf(Emitted(events).lines, final);
            var batch := CombinedText(Sort(Survivors(ResultsOf(events, final))));
            && (if texts == [] then batch == "" else texts[|texts| - 1] == batch)
            && (forall i :: 0 < i < |texts| ==> texts[i - 1] != texts[i])
  {
    hide Emitted, TextsOf, Sort, CombinedText, Survivors, Streamed, ResultsOf, Collected;
    EmitterFollows(events, final);
    KeptExactly(ResultsOf(events, final));
  }

  class StreamEmitter {
    var partialSegments: seq<TimedText>
    var finalSegments: seq<TimedText>
    var lastPartial: string
    var lastFinal: string
    var lines: seq<Line>  // what has been written out

    function View(): Emitter
      reads this
    {
      Emitter(Half(partialSegments, lastPartial), Half(finalSegments, lastFinal), lines)
    }

    constructor ()
      ensures View() == FRESH && LinesKept()
    {
      partialSegments, finalSegments, lastPartial, lastFinal, lines := [], [], "", "", [];
    }

    method Accept(result: Result, final: bool)
      requires LinesKept()
      modifies this
      ensures View() == AcceptStep(old(View()), result, final) && LinesKept()
    {
      hide Trim, Sort, Retained, CombinedText;
      var text := Trim(result.text);
      if text == "" {
        return;
      }
      var segment := TimedText(result.start, result.end, text);
      if final {
        finalSegments := ReplacingOverlaps(finalSegments, segment);
        var combined := CombinedText(finalSegments);
        if combined == lastFinal {
          return;
        }
        lastFinal := combined;
        lines := lines + [Line(combined, true)];
      } else {
        partialSegments := ReplacingOverlaps(partialSegments, segment);
        var combined := CombinedText(partialSegments);
        if combined == lastPartial {
          return;
        }
        lastPartial := combined;
        lines := lines + [Line(combined, false)];
      }
    }

    /** The last texts are those of the segments kept. */
    ghost predicate LinesKept()
      reads this
    {
      lastPartial == CombinedText(partialSegments) && lastFinal == CombinedText(finalSegments)
    }
  }
}
