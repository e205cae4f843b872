/** Normalising utterances, the append-dedupe scorer (make-model/make_model/append_dedupe.py) and the guard
    that may suppress an utterance on its verdict (server/tomoko/append_dedupe.py). */
module AppendDedupe {
  import opened Wrappers
  import opened Text

  // ----- compacting -----

  const PUNCTUATION := " \t\r\n。、，,.!！?？「」『』()（）[]【】"

  function StripPunctuation(s: string): string
    decreases |s|
  {
    if s == "" then ""
    else if s[0] in PUNCTUATION then StripPunctuation(s[1..])
    else if s[|s| - 1] in PUNCTUATION then StripPunctuation(s[..|s| - 1])
    else s
  }

  function WithoutPunctuation(s: string): string {
    if s == "" then "" else (if s[0] in PUNCTUATION then "" else [s[0]]) + WithoutPunctuation(s[1..])
  }

  function Compact(text: string): string { WithoutPunctuation(StripPunctuation(text)) }

  ghost predicate Unpunctuated(s: string) { forall i :: 0 <= i < |s| ==> s[i] !in PUNCTUATION }

  lemma {:induction false} WithoutConcat(a: string, b: string)
    ensures WithoutPunctuation(a + b) == WithoutPunctuation(a) + WithoutPunctuation(b)
  {
    hide PUNCTUATION;
    if a == "" {
      assert a + b == b;
    } else {
      assert (a + b)[1..] == a[1..] + b;
      WithoutConcat(a[1..], b);
    }
  }

  /** Stripping first makes no difference: compacting removes every punctuation mark and nothing else. */
  lemma {:induction false} CompactRemovesAll(s: string)
    ensures Compact(s) == WithoutPunctuation(s)
    decreases |s|
  {
    hide PUNCTUATION;
    if s == "" {
    } else if s[0] in PUNCTUATION {
      CompactRemovesAll(s[1..]);
    } else if s[|s| - 1] in PUNCTUATION {
      var n := |s| - 1;
      CompactRemovesAll(s[..n]);
      assert s == s[..n] + [s[n]];
      WithoutConcat(s[..n], [s[n]]);
      assert [s[n]][1..] == "";
      assert WithoutPunctuation([s[n]]) == "" + WithoutPunctuation("");
    }
  }

  lemma {:induction false} WithoutIsUnpunctuated(s: string)
    ensures Unpunctuated(WithoutPunctuation(s))
  {
    hide PUNCTUATION;
    if s != "" {
      WithoutIsUnpunctuated(s[1..]);
    }
  }

  lemma {:induction false} WithoutOfUnpunctuated(s: string)
    requires Unpunctuated(s)
    ensures WithoutPunctuation(s) == s
  {
    hide PUNCTUATION;
    if s != "" {
      WithoutOfUnpunctuated(s[1..]);
      assert s == [s[0]] + s[1..];
    }
  }

  // ----- taking fillers off the front -----

  const FILLERS: seq<string> := ["えーっと", "えっと", "あの", "まあ", "なんか", "うん", "その"]

  /** A filler comes off only when at least two characters stay. */
  predicate Applies(s: string, i: nat) {
    i < |FILLERS| && FILLERS[i] <= s && |s| > |FILLERS[i]| + 1
  }

  function FirstFrom(s: string, i: nat): (r: Option<nat>)
    ensures r.Some? ==> i <= r.value && Applies(s, r.value)
    ensures r.None? ==> forall j: nat :: i <= j ==> !Applies(s, j)
    decreases |FILLERS| - i
  {
    if i >= |FILLERS| then None else if Applies(s, i) then Some(i) else FirstFrom(s, i + 1)
  }

  function Off(s: string, i: nat): (r: string)
    requires Applies(s, i)
    ensures |r| < |s|
  {
    FillerLengths(i);
    s[|FILLERS[i]|..]
  }

  lemma FillerLengths(i: nat)
    requires i < |FILLERS|
    ensures 2 <= |FILLERS[i]|
  {
  }

  /** Fillers taken off as long as one applies. */
  function Normal(s: string): string
    decreases |s|
  {
    var i := FirstFrom(s, 0);
    if i.None? then s else Normal(Off(s, i.value))
  }

  function Normalize(text: string): string { Normal(Compact(text)) }

  /** The filler two characters can begin. */
  function Which(a: char, b: char): nat {
    if a == 'え' then (if b == 'ー' then 0 else 1)
    else if a == 'あ' then 2 else if a == 'ま' then 3 else if a == 'な' then 4 else if a == 'う' then 5 else 6
  }

  lemma FillerIs(i: nat)
    requires i < |FILLERS|
    ensures 2 <= |FILLERS[i]| && Which(FILLERS[i][0], FILLERS[i][1]) == i
  {
  }

  /** At most one filler applies at a time. */
  lemma OneApplies(s: string, i: nat, j: nat)
    requires Applies(s, i) && Applies(s, j)
    ensures i == j
  {
    hide FILLERS, Which;
    FillerIs(i);
    FillerIs(j);
    assert s[0] == FILLERS[i][0] == FILLERS[j][0] && s[1] == FILLERS[i][1] == FILLERS[j][1];
  }

  lemma NormalStep(s: string, i: nat)
    requires Applies(s, i)
    ensures Normal(s) == Normal(Off(s, i))
  {
    hide FILLERS, Applies, Off;
    OneApplies(s, i, FirstFrom(s, 0).value);
  }

  /** `normalize_for_append_dedupe`: passes over the fillers until one changes nothing. */
  method NormalizeForAppendDedupe(text: string) returns (normalized: string)
    ensures normalized == Normalize(text)
  {
    hide FILLERS, Normal, Compact, Applies;
    normalized := Compact(text);
    var changed := true;
    while changed
      invariant Normal(normalized) == Normalize(text)
      invariant !changed ==> forall i: nat :: !Applies(normalized, i)
      decreases |normalized|, changed
    {
      changed := false;
      ghost var before := normalized;
      for i := 0 to |FILLERS|
        invariant Normal(normalized) == Normalize(text)
        invariant changed ==> |normalized| < |before|
        invariant !changed ==> normalized == before && forall j: nat :: j < i ==> !Applies(before, j)
      {
        if Applies(normalized, i) {
          NormalStep(normalized, i);
          normalized := Off(normalized, i);
          changed := true;
        }
      }
      NoMoreFillers(normalized);
    }
    NormalForm(normalized);
  }

  lemma NoMoreFillers(s: string)
    ensures forall j: nat :: |FILLERS| <= j ==> !Applies(s, j)
  {
    hide FILLERS;
  }

  lemma NormalForm(s: string)
    requires forall i: nat :: !Applies(s, i)
    ensures Normal(s) == s
  {
    hide Applies, FILLERS;
  }

  lemma {:induction false} NormalIsSuffix(s: string)
    ensures var n := Normal(s);
            |n| <= |s| && n == s[|s| - |n|..] && (forall i: nat :: !Applies(n, i)) && (s != "" ==> n != "")
    decreases |s|
  {
    hide FILLERS, Applies;
    var i := FirstFrom(s, 0);
    if i.Some? {
      OffShape(s, i.value);
      NormalIsSuffix(Off(s, i.value));
    }
  }

  lemma OffShape(s: string, i: nat)
    requires Applies(s, i)
    ensures var r := Off(s, i); 2 <= |r| < |s| && r == s[|s| - |r|..]
  {
    hide FILLERS;
    FillerLengths(i);
  }

  /** Normalising ends in a suffix of the compacted text, with no filler left to take off, empty only for a
      text of punctuation alone; and normalising that again changes nothing. */
  lemma {:induction false} NormalizeIsIdempotent(text: string)
    ensures var n, c := Normalize(text), Compact(text);
            && |n| <= |c| && n == c[|c| - |n|..]
            && (forall i: nat :: !Applies(n, i))
            && (n == "" <==> WithoutPunctuation(text) == "")
            && Normalize(n) == n
  {
    hide FILLERS, Applies, Normal, PUNCTUATION, StripPunctuation, WithoutPunctuation;
    CompactRemovesAll(text);
    NormalIsSuffix(Compact(text));
    WithoutIsUnpunctuated(text);
    var n, c := Normalize(text), Compact(text);
    assert forall i :: 0 <= i < |n| ==> n[i] == c[|c| - |n| + i];
    WithoutOfUnpunctuated(n);
    CompactRemovesAll(n);
    NormalForm(n);
  }

  /** Takes fillers off in a given order. */
  function TakeOff(s: string, order: seq<nat>): Option<string>
    decreases |order|
  {
    if order == [] then Some(s) else if Applies(s, order[0]) then TakeOff(Off(s, order[0]), order[1..]) else None
  }

  /** The order in which fillers are tried does not matter: every way of taking them off until none applies
      gives the same text. */
  lemma {:induction false} OrderDoesNotMatter(s: string, order: seq<nat>)
    requires TakeOff(s, order).Some? && forall i: nat :: !Applies(TakeOff(s, order).value, i)
    ensures TakeOff(s, order).value == Normal(s)
    decreases |order|
  {
    hide FILLERS, Applies, Normal, Off;
    if order == [] {
      NormalForm(s);
    } else {
      NormalStep(s, order[0]);
      OrderDoesNotMatter(Off(s, order[0]), order[1..]);
    }
  }

  /** There is such a way, the one the passes take. */
  lemma {:induction false} AWayOff(s: string) returns (order: seq<nat>)
    ensures TakeOff(s, order) == Some(Normal(s))
    decreases |s|
  {
    hide FILLERS, Applies, Off;
    var i := FirstFrom(s, 0);
    if i.None? {
      order := [];
    } else {
      var later := AWayOff(Off(s, i.value));
      order := [i.value] + later;
      assert order[1..] == later;
    }
  }

  /** In front of one character a filler stays, in front of two it comes off. */
  lemma FillerComesOff(i: nat, rest: string)
    requires i < |FILLERS|
    ensures Applies(FILLERS[i] + rest, i) <==> |rest| >= 2
    ensures |rest| >= 2 ==> Off(FILLERS[i] + rest, i) == rest
  {
    hide FILLERS;
  }

  // ----- the scorer -----

  const CONTINUATION_CUES := ["もう少し", "具体的", "というのは", "つまり", "補足", "設定ファイル", "言い換えると"]
  const NEW_INTENT_CUES := ["ところで", "別件", "音量", "予定", "テレビ", "ライト", "タイマー", "話変わる"]
  const CORRECTION_CUES := ["いや", "違う", "じゃなくて", "ではなく", "訂正", "やっぱり"]
  const VAGUE_CUES := ["わかってない", "分かってない", "わからない", "分からない", "曖昧", "微妙"]

  predicate ContainsAny(text: string, cues: seq<string>) { exists i :: 0 <= i < |cues| && Find(text, cues[i]).Some? }

  datatype Sample = Sample(previous: string, current: string, timeDeltaMs: int, tomokoSpeaking: bool, queueActive: bool)

  /** What comes from outside the rules: the sequence matcher's similarity and the overlap of terms. */
  datatype Measures = Measures(similarity: real, topicOverlap: real)

  datatype Debug = Debug(
    previousNormalized: string, currentNormalized: string, measures: Measures, contains: bool,
    timeClose: bool, timeMedium: bool,
    continuationCue: bool, newIntentCue: bool, correctionCue: bool, previousVague: bool)

  function DebugOf(s: Sample, m: Measures): Debug {
    var p, c := Normalize(s.previous), Normalize(s.current);
    Debug(p, c, m,
          (p != "" && Find(c, p).Some?) || (c != "" && Find(p, c).Some?),
          0 <= s.timeDeltaMs <= 1500, 1500 < s.timeDeltaMs <= 5000,
          ContainsAny(c, CONTINUATION_CUES), ContainsAny(c, NEW_INTENT_CUES), ContainsAny(c, CORRECTION_CUES),
          ContainsAny(p, VAGUE_CUES))
  }

  datatype Label = Duplicate | Continuation | NewIntent

  datatype Scores = Scores(duplicate: real, continuation: real, newIntent: real)

  function Min(a: real, b: real): real { if b < a then b else a }
  function Max(a: real, b: real): real { if b > a then b else a }
  function Clamp(v: real): real { Max(0.0, Min(1.0, v)) }
  function ClampAll(s: Scores): Scores { Scores(Clamp(s.duplicate), Clamp(s.continuation), Clamp(s.newIntent)) }
  function One(b: bool): real { if b then 1.0 else 0.0 }

  function Heuristic(s: Sample, d: Debug): Scores {
    var timeBonus := if d.timeClose then 0.08 else if d.timeMedium then 0.03 else 0.0;
    var activeBonus := if s.tomokoSpeaking || s.queueActive then 0.05 else 0.0;
    var duplicate := Min(0.98, d.measures.similarity * 0.78 + One(d.contains) * 0.16 + timeBonus + activeBonus);
    var corrected := if d.correctionCue then duplicate * 0.35 else duplicate;
    ClampAll(Scores(
      if d.continuationCue && d.previousVague then corrected * 0.5 else corrected,
      0.16 + 0.42 * One(d.continuationCue) + 0.16 * One(d.previousVague) + 0.12 * (1.0 - d.measures.topicOverlap),
      0.12 + 0.48 * One(d.newIntentCue) + 0.42 * One(d.correctionCue) + 0.18 * (1.0 - d.measures.topicOverlap)))
  }

  /** A cue counts wherever it stands in the text. */
  lemma ContainsAnyExactly(text: string, cues: seq<string>)
    ensures ContainsAny(text, cues) <==> exists cue :: cue in cues && Contains(text, cue)
  {
    hide Find, Contains;
    forall i | 0 <= i < |cues| ensures Find(text, cues[i]).Some? <==> Contains(text, cues[i]) {
      FindContains(text, cues[i]);
    }
    if ContainsAny(text, cues) {
      var i :| 0 <= i < |cues| && Find(text, cues[i]).Some?;
      assert cues[i] in cues;
    }
  }

  /** What the rules look at: whether one normalised text, if not empty, is part of the other, and how soon the second
      came. */
  lemma DebugExactly(s: Sample, m: Measures)
    ensures var d, p, c := DebugOf(s, m), Normalize(s.previous), Normalize(s.current);
            && (d.contains <==> (p != "" && Contains(c, p)) || (c != "" && Contains(p, c)))
            && (d.timeClose <==> 0 <= s.timeDeltaMs < 1501) && (d.timeMedium <==> 1501 <= s.timeDeltaMs < 5001)
            && (d.correctionCue <==> exists cue :: cue in CORRECTION_CUES && Contains(c, cue))
            && (d.continuationCue <==> exists cue :: cue in CONTINUATION_CUES && Contains(c, cue))
            && (d.newIntentCue <==> exists cue :: cue in NEW_INTENT_CUES && Contains(c, cue))
            && (d.previousVague <==> exists cue :: cue in VAGUE_CUES && Contains(p, cue))
  {
    var p, c := Normalize(s.previous), Normalize(s.current);
    hide Normalize, Find, CORRECTION_CUES, CONTINUATION_CUES, NEW_INTENT_CUES, VAGUE_CUES;
    FindContains(c, p);
    FindContains(p, c);
    ContainsAnyExactly(c, CORRECTION_CUES);
    ContainsAnyExactly(c, CONTINUATION_CUES);
    ContainsAnyExactly(c, NEW_INTENT_CUES);
    ContainsAnyExactly(p, VAGUE_CUES);
    hide ContainsAny, Contains;
  }

  lemma FindContains(s: string, p: string)
    ensures Find(s, p).Some? <==> Contains(s, p)
  {
    hide Find;
  }

  predicate InUnit(v: real) { 0.0 <= v <= 1.0 }

  /** What a fact is worth, in hundredths. */
  function Worth(fact: bool, hundredths: real): real { if fact then hundredths else 0.0 }

  /** The heuristic scores in hundredths: similarity counts 78, a containing text 16, a second text that comes within
      1.5 s 8 and within 5 s 3, and an active queue 5, up to 98; a correction leaves 35 parts in a hundred of that and a
      continued vague text half. Cues raise the others, and so does a change of topic. */
  lemma HeuristicExactly(s: Sample, d: Debug)
    requires InUnit(d.measures.similarity) && InUnit(d.measures.topicOverlap) && !(d.timeClose && d.timeMedium)
    ensures var h := Heuristic(s, d);
            var evidence := d.measures.similarity * 78.0 + Worth(d.contains, 16.0) + Worth(d.timeClose, 8.0)
                            + Worth(d.timeMedium, 3.0) + Worth(s.tomokoSpeaking || s.queueActive, 5.0);
            var capped := if evidence > 98.0 then 98.0 else evidence;
            var novelty := 1.0 - d.measures.topicOverlap;
            var intent := 12.0 + Worth(d.newIntentCue, 48.0) + Worth(d.correctionCue, 42.0) + novelty * 18.0;
            && (!d.correctionCue && !(d.continuationCue && d.previousVague) ==> h.duplicate * 100.0 == capped)
            && (d.correctionCue && !(d.continuationCue && d.previousVague) ==> h.duplicate * 10000.0 == capped * 35.0)
            && (!d.correctionCue && d.continuationCue && d.previousVague ==> h.duplicate * 200.0 == capped)
            && (d.correctionCue && d.continuationCue && d.previousVague ==> h.duplicate * 20000.0 == capped * 35.0)
            && h.continuation * 100.0
               == 16.0 + Worth(d.continuationCue, 42.0) + Worth(d.previousVague, 16.0) + novelty * 12.0
            && h.newIntent * 100.0 == if intent > 100.0 then 100.0 else intent
  {
  }

  function Blend(weight: real, raw: real, heuristic: real): real { (1.0 - weight) * Clamp(raw) + weight * heuristic }

  /** `_apply_safety_adjustments`, one rule after the other. */
  function Repeated(d: Debug, s: Scores): Scores {
    if d.previousNormalized == d.currentNormalized && d.currentNormalized != "" then
      s.(duplicate := Max(s.duplicate, 0.92), newIntent := Min(s.newIntent, 0.18))
    else s
  }

  function Corrected(d: Debug, s: Scores): Scores {
    if d.correctionCue then
      var duplicate := Min(s.duplicate, 0.42);
      s.(duplicate := duplicate, newIntent := Max(s.newIntent, duplicate + 0.04))
    else s
  }

  function Continued(d: Debug, s: Scores): Scores {
    if d.continuationCue && d.previousVague then
      s.(duplicate := Min(s.duplicate, 0.44), continuation := Max(s.continuation, 0.58))
    else s
  }

  function Adjusted(d: Debug, s: Scores): Scores {
    ClampAll(Continued(d, Corrected(d, Repeated(d, ClampAll(s)))))
  }

  /** The adjustments of scores within their bounds: a repetition lifts the duplicate to 92 hundredths and keeps a new
      intent down to 18, a correction keeps the duplicate down to 42 and the new intent 4 above it, a continued vague
      text keeps the duplicate down to 44 and lifts the continuation to 58; what no cue touches stays. */
  lemma AdjustedExactly(d: Debug, s: Scores)
    requires InUnit(s.duplicate) && InUnit(s.continuation) && InUnit(s.newIntent)
    ensures var a, repeated := Adjusted(d, s), d.previousNormalized == d.currentNormalized != "";
            var vague := d.continuationCue && d.previousVague;
            var lifted := if repeated && s.duplicate < 0.92 then 0.92 else s.duplicate;
            var corrected := if d.correctionCue && lifted > 0.42 then 0.42 else lifted;
            var kept := if repeated && s.newIntent > 0.18 then 0.18 else s.newIntent;
            && a.duplicate == (if vague && corrected > 0.44 then 0.44 else corrected)
            && a.continuation == (if vague && s.continuation < 0.58 then 0.58 else s.continuation)
            && a.newIntent == (if d.correctionCue && kept < corrected + 0.04 then corrected + 0.04 else kept)
  {
  }

  /** The first of the labels, in their order, with the greatest score. */
  function Best(s: Scores): Label {
    if s.duplicate >= s.continuation && s.duplicate >= s.newIntent then Duplicate
    else if s.continuation >= s.newIntent then Continuation
    else NewIntent
  }

  /** The verdict has the greatest score; of equal ones a duplicate goes before a continuation, and that before a new
      intent. */
  lemma BestExactly(s: Scores)
    ensures Best(s) == Duplicate <==> s.continuation <= s.duplicate && s.newIntent <= s.duplicate
    ensures Best(s) == Continuation <==> s.duplicate < s.continuation && s.newIntent <= s.continuation
    ensures Best(s) == NewIntent <==> s.duplicate < s.newIntent && s.continuation < s.newIntent
  {
  }

  /** A blend goes from the raw score, cut to its bounds, to the heuristic one as the weight goes from zero to one. */
  lemma BlendExactly(weight: real, raw: real, heuristic: real)
    ensures Blend(0.0, raw, heuristic) == if raw < 0.0 then 0.0 else if raw > 1.0 then 1.0 else raw
    ensures Blend(1.0, raw, heuristic) == heuristic
    ensures var bounded := Blend(0.0, raw, heuristic);
            Blend(weight, raw, heuristic) - bounded == weight * (heuristic - bounded)
  {
  }

  /** `predict` without its linear algebra: `raw` are the scores the weights and biases give. */
  function Predict(s: Sample, m: Measures, heuristicWeight: real, raw: Scores): (Scores, Label) {
    var d := DebugOf(s, m);
    var h, w := Heuristic(s, d), Clamp(heuristicWeight);
    var scores := Adjusted(d, Scores(Blend(w, raw.duplicate, h.duplicate),
                                     Blend(w, raw.continuation, h.continuation),
                                     Blend(w, raw.newIntent, h.newIntent)));
    (scores, Best(scores))
  }

  // ----- the guard -----

  datatype GuardConfig = GuardConfig(suppress: real, maxContinuation: real, maxNewIntent: real, maxTimeDeltaMs: int)

  predicate Suppresses(g: GuardConfig, s: Sample, m: Measures, heuristicWeight: real, raw: Scores) {
    var (scores, verdict) := Predict(s, m, heuristicWeight, raw);
    && verdict == Duplicate
    && scores.duplicate >= g.suppress
    && scores.continuation <= g.maxContinuation
    && scores.newIntent <= g.maxNewIntent
    && 0 <= s.timeDeltaMs <= g.maxTimeDeltaMs
    && (s.tomokoSpeaking || s.queueActive)
  }

  /** What is suppressed scores high enough as a duplicate, and low enough as anything else. */
  lemma SuppressedScores(g: GuardConfig, s: Sample, m: Measures, heuristicWeight: real, raw: Scores)
    requires Suppresses(g, s, m, heuristicWeight, raw)
    ensures var scores := Predict(s, m, heuristicWeight, raw).0;
            && g.suppress <= scores.duplicate
            && scores.continuation <= g.maxContinuation && scores.continuation <= scores.duplicate
            && scores.newIntent <= g.maxNewIntent && scores.newIntent <= scores.duplicate
  {
    hide DebugOf, Heuristic, Adjusted, Blend;
  }

  /** The current text corrects, or continues a vague previous text. */
  predicate Protected(s: Sample) {
    || ContainsAny(Normalize(s.current), CORRECTION_CUES)
    || (ContainsAny(Normalize(s.current), CONTINUATION_CUES) && ContainsAny(Normalize(s.previous), VAGUE_CUES))
  }

  lemma CuesLower(d: Debug, s: Scores)
    ensures d.correctionCue ==> var a := Adjusted(d, s); a.duplicate <= 0.42 && a.duplicate < a.newIntent
    ensures d.continuationCue && d.previousVague ==>
              var a := Adjusted(d, s); a.duplicate <= 0.44 && a.duplicate < a.continuation
  {
  }

  /** Whatever the weights, the biases and the heuristic weight: a correction, or a continuation of a vague
      text, is never labelled a duplicate, so no configuration of the guard suppresses it. */
  lemma ProtectedIsNeverDuplicate(g: GuardConfig, s: Sample, m: Measures, heuristicWeight: real, raw: Scores)
    requires Protected(s)
    ensures Predict(s, m, heuristicWeight, raw).1 != Duplicate && !Suppresses(g, s, m, heuristicWeight, raw)
  {
    var d := DebugOf(s, m);
    hide Normalize, ContainsAny, Find;
    var h, w := Heuristic(s, d), Clamp(heuristicWeight);
    hide Heuristic, Blend, Clamp, Adjusted;
    CuesLower(d, Scores(Blend(w, raw.duplicate, h.duplicate), Blend(w, raw.continuation, h.continuation),
                        Blend(w, raw.newIntent, h.newIntent)));
  }

  lemma UnprotectedCanBeDuplicate(d: Debug)
    requires !d.correctionCue && !(d.continuationCue && d.previousVague)
    ensures Adjusted(d, Scores(1.0, 0.0, 0.0)) == Scores(1.0, 0.0, 0.0)
  {
  }

  ghost predicate CanSuppress(g: GuardConfig, s: Sample, m: Measures) {
    exists heuristicWeight, raw :: Suppresses(g, s, m, heuristicWeight, raw)
  }

  /** A guard whose thresholds a score can meet may suppress an utterance, under some weights, exactly when it is
      not protected, comes in time, and tomoko is speaking or about to. */
  lemma SuppressionExactly(g: GuardConfig, s: Sample, m: Measures)
    requires g.suppress <= 1.0 && 0.0 <= g.maxContinuation && 0.0 <= g.maxNewIntent
    ensures CanSuppress(g, s, m)
       <==> !Protected(s) && 0 <= s.timeDeltaMs <= g.maxTimeDeltaMs && (s.tomokoSpeaking || s.queueActive)
  {
    if CanSuppress(g, s, m) {
      var w, raw :| Suppresses(g, s, m, w, raw);
      if Protected(s) {
        ProtectedIsNeverDuplicate(g, s, m, w, raw);
      }
    } else if !Protected(s) {
      hide Normalize, ContainsAny, Heuristic;
      UnprotectedCanBeDuplicate(DebugOf(s, m));
      hide Adjusted;
      assert Predict(s, m, 0.0, Scores(1.0, 0.0, 0.0)).0 == Scores(1.0, 0.0, 0.0);
      assert !Suppresses(g, s, m, 0.0, Scores(1.0, 0.0, 0.0));
    }
  }

  /** A repetition that is not protected scores at least 0.92, whatever the weights. */
  lemma RepetitionScoresHigh(s: Sample, m: Measures, heuristicWeight: real, raw: Scores)
    requires !Protected(s) && Normalize(s.previous) == Normalize(s.current) != ""
    ensures var (scores, verdict) := Predict(s, m, heuristicWeight, raw);
            scores.duplicate >= 0.92 && scores.newIntent <= 0.18 && verdict != NewIntent
  {
    hide Normalize, ContainsAny, Find, Heuristic, Blend;
  }
}
