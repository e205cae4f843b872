/** Splitting the text of a speech order into the pieces that are synthesised one after another
    (server/hot_path/speech_executor.py, `split_speech_order_text`). */
module OrderText {
  import opened Text

  const SENTENCE_ENDINGS: set<char> := {'。', '！', '？', '!', '?'}
  const SOFT_SENTENCE_PAUSES: set<char> := {'、', ','}
  const SOFT_SENTENCE_MIN_CHARS := 16

  /** The piece that begins at `start` is cut after position `i`. */
  predicate CutsAt(text: string, start: nat, i: nat)
    requires start <= i < |text|
  {
    || text[i] in SENTENCE_ENDINGS
    || (text[i] in SOFT_SENTENCE_PAUSES && i + 1 - start >= SOFT_SENTENCE_MIN_CHARS)
  }

  // ----- what a split is, without saying how it is found -----

  function Join(pieces: seq<string>): string {
    if pieces == [] then [] else pieces[0] + Join(pieces[1..])
  }

  /** A piece is complete where a sentence ends, and at a pause once it has sixteen characters. */
  predicate Complete(piece: string) {
    piece != [] && (piece[|piece| - 1] in "。！？!?" || (piece[|piece| - 1] in "、," && |piece| >= 16))
  }

  /** It is not complete before its last character. */
  ghost predicate Uncut(piece: string) { forall n :: 0 < n < |piece| ==> !Complete(piece[..n]) }

  /** Consecutive pieces of the text; each but the last ends as soon as it is complete, the last never is. */
  ghost predicate IsSplit(text: string, pieces: seq<string>) {
    && pieces != []
    && Join(pieces) == text
    && (forall p :: 0 <= p < |pieces| ==> Uncut(pieces[p]))
    && (forall p :: 0 <= p < |pieces| - 1 ==> Complete(pieces[p]))
    && !Complete(pieces[|pieces| - 1])
  }

  /** The pieces from the first one on, the rest of which starts at `from`. */
  function Pieces(text: string, from: nat): (r: seq<string>)
    requires from <= |text|
    ensures r != []
    decreases |text|, |text| - from
  {
    if from == |text| then [text]
    else if CutsAt(text, 0, from) then [text[..from + 1]] + Pieces(text[from + 1..], 0)
    else Pieces(text, from + 1)
  }

  lemma {:induction false} PiecesAreSplit(text: string, from: nat)
    requires from <= |text|
    requires forall i :: 0 <= i < from ==> !CutsAt(text, 0, i)
    ensures IsSplit(text, Pieces(text, from))
    decreases |text|, |text| - from
  {
    hide CutsAt, Complete;
    if from == |text| {
      NeverComplete(text);
      assert Join([text][1..]) == [] && text + [] == text;
    } else if CutsAt(text, 0, from) {
      PiecesAreSplit(text[from + 1..], 0);
      UncutPrefix(text, from);
      CutCompletes(text, 0, from);
      PrependPiece(text, from + 1, Pieces(text[from + 1..], 0));
    } else {
      PiecesAreSplit(text, from + 1);
    }
  }

  /** The cut behind position `i` is where the piece is complete. */
  lemma CutCompletes(text: string, start: nat, i: nat)
    requires start <= i < |text|
    ensures CutsAt(text, start, i) <==> Complete(text[start..i + 1])
  {
    Endings(text[i]);
    hide SENTENCE_ENDINGS, SOFT_SENTENCE_PAUSES;
  }

  lemma Endings(c: char)
    ensures c in SENTENCE_ENDINGS <==> c in "。！？!?"
    ensures c in SOFT_SENTENCE_PAUSES <==> c in "、,"
  {
  }

  lemma UncutPrefix(text: string, from: nat)
    requires from < |text| && forall i :: 0 <= i < from ==> !CutsAt(text, 0, i)
    ensures Uncut(text[..from + 1])
  {
    hide CutsAt, Complete;
    var first := text[..from + 1];
    forall n | 0 < n < |first|
      ensures !Complete(first[..n])
    {
      CutCompletes(text, 0, n - 1);
      assert first[..n] == text[0..n - 1 + 1];
    }
  }

  lemma NeverComplete(text: string)
    requires forall i :: 0 <= i < |text| ==> !CutsAt(text, 0, i)
    ensures Uncut(text) && !Complete(text)
  {
    if text == [] {
      assert !Complete(text);
    } else {
      hide CutsAt, Complete;
      assert text[..|text| - 1 + 1] == text == text[0..|text| - 1 + 1];
      UncutPrefix(text, |text| - 1);
      CutCompletes(text, 0, |text| - 1);
    }
  }

  lemma PrependPiece(text: string, n: nat, rest: seq<string>)
    requires 0 < n <= |text| && IsSplit(text[n..], rest)
    requires Uncut(text[..n]) && Complete(text[..n])
    ensures IsSplit(text, [text[..n]] + rest)
  {
    var all := [text[..n]] + rest;
    assert all[1..] == rest && text == text[..n] + text[n..];
    assert forall p :: 0 < p < |all| ==> all[p] == rest[p - 1];
  }

  /** There is only one split of a text. */
  lemma {:induction false} SplitIsUnique(text: string, p: seq<string>, q: seq<string>)
    requires IsSplit(text, p) && IsSplit(text, q)
    ensures p == q
    decreases |p|
  {
    FirstPiece(text, p);
    FirstPiece(text, q);
    if |p[0]| < |q[0]| {
      Incomplete(text, p[0], q[0]);
    } else if |q[0]| < |p[0]| {
      Incomplete(text, q[0], p[0]);
    } else if |p| > 1 {
      SplitIsUnique(text[|p[0]|..], p[1..], q[1..]);
      assert p == [p[0]] + p[1..] && q == [q[0]] + q[1..];
    }
  }

  lemma Incomplete(text: string, shorter: string, piece: string)
    requires shorter <= text && piece <= text && |shorter| < |piece| && Uncut(piece)
    ensures !Complete(shorter)
  {
    if shorter != [] {
      assert shorter == piece[..|shorter|];
    }
  }

  lemma FirstPiece(text: string, p: seq<string>)
    requires IsSplit(text, p)
    ensures p[0] <= text && Uncut(p[0])
    ensures Complete(p[0]) <==> |p| > 1
    ensures |p| == 1 ==> p == [text]
    ensures |p| > 1 ==> IsSplit(text[|p[0]|..], p[1..])
  {
    if |p| == 1 {
      assert p[1..] == [] && p[0] + [] == p[0];
    } else {
      assert text[|p[0]|..] == Join(p[1..]);
    }
  }

  // ----- segments -----

  /** A piece contributes its stripped text, if there is any. */
  function Kept(piece: string): seq<string> { if Strip(piece) == [] then [] else [Strip(piece)] }

  function Segments(pieces: seq<string>): seq<string> {
    if pieces == [] then [] else Kept(pieces[0]) + Segments(pieces[1..])
  }

  /** The loop over the characters of the text. */
  method SplitSpeechOrderText(text: string) returns (segments: seq<string>)
    ensures segments == Segments(Pieces(text, 0))
  {
    hide Strip, Pieces, Segments, CutsAt;
    SegmentsOfText(text);
    var stripped := Strip(text);
    if stripped == [] {
      return [];
    }
    segments := [];
    var start := 0;
    WholeText(text);
    for index := 0 to |text|
      invariant start <= index
      invariant Segments(Pieces(text, 0)) == segments + Segments(Pieces(text[start..], index - start))
    {
      CutJoins(text, start, index, segments);
      if CutsAt(text, start, index) {
        var segment := Strip(text[start..index + 1]);
        if segment != [] {
          segments := segments + [segment];
        }
        start := index + 1;
      }
    }
    LastJoins(text, start, segments);
    var tail := Strip(text[start..]);
    if tail != [] {
      segments := segments + [tail];
    }
    if segments == [] {
      segments := [stripped];
    }
  }

  lemma WholeText(text: string)
    ensures Segments(Pieces(text, 0)) == [] + Segments(Pieces(text[0..], 0))
  {
    assert text[0..] == text;
  }

  /** What one turn of the loop adds. */
  lemma CutJoins(text: string, start: nat, index: nat, segments: seq<string>)
    requires start <= index < |text|
    ensures segments + Segments(Pieces(text[start..], index - start)) ==
              if !CutsAt(text, start, index) then segments + Segments(Pieces(text[start..], index + 1 - start))
              else if Strip(text[start..index + 1]) == [] then segments + Segments(Pieces(text[index + 1..], 0))
              else segments + [Strip(text[start..index + 1])] + Segments(Pieces(text[index + 1..], 0))
  {
    hide Strip, Pieces, Segments, CutsAt, Kept;
    PiecesStep(text, start, index);
    KeptJoins(segments, text[start..index + 1], Segments(Pieces(text[index + 1..], 0)));
  }

  /** What is added behind the loop. */
  lemma LastJoins(text: string, start: nat, segments: seq<string>)
    requires start <= |text|
    ensures segments + Segments(Pieces(text[start..], |text| - start))
         == if Strip(text[start..]) == [] then segments else segments + [Strip(text[start..])]
  {
    hide Strip, Pieces, Segments;
    LastPiece(text, start);
    assert segments + [] == segments;
  }

  lemma KeptJoins(segments: seq<string>, piece: string, rest: seq<string>)
    ensures segments + (Kept(piece) + rest)
         == if Strip(piece) == [] then segments + rest else segments + [Strip(piece)] + rest
  {
    hide Strip;
    assert [] + rest == rest;
  }

  lemma PiecesStep(text: string, start: nat, index: nat)
    requires start <= index < |text|
    ensures Segments(Pieces(text[start..], index - start)) ==
              if CutsAt(text, start, index)
              then Kept(text[start..index + 1]) + Segments(Pieces(text[index + 1..], 0))
              else Segments(Pieces(text[start..], index + 1 - start))
  {
    hide Kept;
    var rest, more := text[start..], Pieces(text[index + 1..], 0);
    assert rest[..index - start + 1] == text[start..index + 1];
    assert rest[index - start + 1..] == text[index + 1..];
    assert ([text[start..index + 1]] + more)[1..] == more;
  }

  lemma LastPiece(text: string, start: nat)
    requires start <= |text|
    ensures Segments(Pieces(text[start..], |text| - start)) == Kept(text[start..])
  {
    hide Kept;
    assert [text[start..]][1..] == [];
    assert Kept(text[start..]) + [] == Kept(text[start..]);
  }

  // ----- what splitting promises -----

  /** Splitting and stripping lose white space only. */
  lemma {:induction false} SegmentsInk(pieces: seq<string>)
    ensures Ink(Join(Segments(pieces))) == Ink(Join(pieces))
  {
    hide Strip, Ink;
    if pieces != [] {
      var rest := Segments(pieces[1..]);
      SegmentsInk(pieces[1..]);
      StripInk(pieces[0]);
      InkConcat(pieces[0], Join(pieces[1..]));
      KeptInk(pieces[0], rest);
    }
  }

  lemma KeptInk(piece: string, rest: seq<string>)
    ensures Ink(Join(Kept(piece) + rest)) == Ink(piece) + Ink(Join(rest))
  {
    hide Strip, Ink;
    StripInk(piece);
    if Strip(piece) == [] {
      InkBlank(piece);
      assert Kept(piece) + rest == rest;
      assert [] + Ink(Join(rest)) == Ink(Join(rest));
    } else {
      assert ([Strip(piece)] + rest)[1..] == rest;
      InkConcat(Strip(piece), Join(rest));
    }
  }

  /** A segment is a stripped piece with something in it. */
  predicate IsKept(segment: string, pieces: seq<string>) {
    segment != [] && exists p :: 0 <= p < |pieces| && segment == Strip(pieces[p])
  }

  lemma {:induction false} SegmentsKept(pieces: seq<string>)
    ensures forall k :: 0 <= k < |Segments(pieces)| ==> IsKept(Segments(pieces)[k], pieces)
  {
    if pieces != [] {
      hide Strip, IsKept;
      var rest := Segments(pieces[1..]);
      SegmentsKept(pieces[1..]);
      KeptFirst(pieces);
      forall k | 0 <= k < |rest|
        ensures IsKept(rest[k], pieces)
      {
        KeptLater(rest[k], pieces);
      }
    }
  }

  lemma KeptFirst(pieces: seq<string>)
    requires pieces != []
    ensures forall k :: 0 <= k < |Kept(pieces[0])| ==> IsKept(Kept(pieces[0])[k], pieces)
  {
    hide Strip;
  }

  lemma KeptLater(segment: string, pieces: seq<string>)
    requires pieces != [] && IsKept(segment, pieces[1..])
    ensures IsKept(segment, pieces)
  {
    hide Strip;
    var p :| 0 <= p < |pieces[1..]| && segment == Strip(pieces[1..][p]);
    assert pieces[p + 1] == pieces[1..][p];
  }

  lemma SegmentsOfText(text: string)
    ensures Segments(Pieces(text, 0)) == [] <==> Strip(text) == []
  {
    hide Strip, Pieces, Ink;
    var segments := Segments(Pieces(text, 0));
    PiecesAreSplit(text, 0);
    SegmentsInk(Pieces(text, 0));
    StripInk(text);
    InkBlank(text);
    if segments == [] {
      InkBlank([]);
    } else {
      SegmentsKept(Pieces(text, 0));
      assert IsKept(segments[0], Pieces(text, 0));
      InkConcat(segments[0], Join(segments[1..]));
      InkBlank(segments[0]);
    }
  }

  /** The whole promise, for any text: the pieces are its one split, the segments are those pieces
      stripped, white space is all that is lost, no segment has a sentence ending before its last
      character, and there is no segment exactly when the text is blank. */
  lemma {:induction false} SplittingPromise(text: string, pieces: seq<string>)
    requires IsSplit(text, pieces)
    ensures var segments := Segments(Pieces(text, 0));
            && pieces == Pieces(text, 0)
            && Ink(Join(segments)) == Ink(text)
            && (segments == [] <==> Blank(text))
            && (forall k :: 0 <= k < |segments| ==> IsKept(segments[k], pieces))
            && forall k, i :: 0 <= k < |segments| && 0 <= i < |segments[k]| - 1 ==>
                 segments[k][i] !in "。！？!?"
  {
    hide Strip, Segments, Pieces, Ink;
    PiecesAreSplit(text, 0);
    SplitIsUnique(text, pieces, Pieces(text, 0));
    SegmentsInk(pieces);
    SegmentsKept(pieces);
    SegmentsOfText(text);
    StripInk(text);
    var segments := Segments(pieces);
    forall k, i | 0 <= k < |segments| && 0 <= i < |segments[k]| - 1
      ensures segments[k][i] !in "。！？!?"
    {
      assert IsKept(segments[k], pieces);
      var p :| 0 <= p < |pieces| && segments[k] == Strip(pieces[p]);
      StripWithin(pieces[p], i);
    }
  }

  lemma StripWithin(piece: string, i: nat)
    requires Uncut(piece) && i < |Strip(piece)| - 1
    ensures Strip(piece)[i] !in "。！？!?"
  {
    hide LStrip, RStrip, IsSpace, Blank;
    var l := LStrip(piece);
    var at := |piece| - |l| + i;
    assert Strip(piece)[i] == l[i] == piece[at];
    assert !Complete(piece[..at + 1]);
  }
}
