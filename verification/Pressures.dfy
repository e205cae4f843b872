/** The four pressure models (server/tomoko/pressures.py), on reals. */
module Pressures {
  import opened Wrappers

  datatype TurnMaterials = TurnMaterials(
    userSpeaking: bool,
    speechProbability: real,
    pYielding: Option<real>,
    silenceMs: int,
    pBcReact: Option<real>,
    pBcEmo: Option<real>,
    sttPartial: string)

  datatype Personality = Personality(
    talkativeness: real, curiosity: real, restraint: real, empathy: real, interruptTolerance: real)

  datatype World = World(
    externalResultImportance: real,
    memoryRelevance: real,
    calendarUrgency: real,
    candidatePressure: real,
    followupImportance: real,
    curiosityRelevance: real,
    userPresent: bool)

  datatype DialoguePressure = DialoguePressure(
    replyReadiness: real, turnOpportunity: real, interruptionRisk: real)

  datatype NaturalPressure = NaturalPressure(
    backchannelDesire: real, lightReactionDesire: real, fillerDesire: real, clarificationDesire: real,
    naturalness: real)

  datatype MotivationPressure = MotivationPressure(
    initiativeDesire: real, personalityPush: real, thresholdShift: real, restraint: real)

  datatype WorldPressure = WorldPressure(importance: real, urgency: real, deliverability: real)

  function Max(a: real, b: real): real { if a < b then b else a }

  function Min(a: real, b: real): real { if b < a then b else a }

  function Clamp(v: real): (r: real)
    ensures 0.0 <= r <= 1.0
  {
    Max(0.0, Min(1.0, v))
  }

  /** A product of two quantities, named so that proofs can treat it as a whole. */
  function Times(a: real, b: real): real { a * b }

  /** `value or 0.0`. */
  function OrZero(v: Option<real>): real { if v.Some? then v.value else 0.0 }

  function Silence(t: TurnMaterials, fullMs: real): real
    requires fullMs > 0.0
  {
    Min(1.0, t.silenceMs as real / fullMs)
  }

  function InterruptionRisk(t: TurnMaterials, yielding: real): real {
    if t.userSpeaking then Times(t.speechProbability, 1.0 - yielding) else 0.0
  }

  function Dialogue(t: TurnMaterials, saturation: real, stablePrefix: string, finalText: string): DialoguePressure {
    var text := if finalText != "" then finalText else if stablePrefix != "" then stablePrefix else t.sttPartial;
    var yielding := Clamp(OrZero(t.pYielding));
    var risk := InterruptionRisk(t, yielding);
    var turn := Clamp(Max(yielding, Silence(t, 1200.0)) - risk * 0.4);
    var reply := Clamp(
      saturation * 0.62
      + (if text != "" then 1.0 else 0.0) * 0.18
      + (if finalText != "" then 1.0 else 0.0) * 0.15
      + turn * 0.25
      - risk * 0.25);
    DialoguePressure(reply, turn, Clamp(risk))
  }

  function Naturalness(t: TurnMaterials, p: Personality): (r: real)
    ensures 0.0 <= r <= 1.0
  {
    Clamp(Times(Max(Clamp(OrZero(t.pYielding)), Silence(t, 1800.0)), 1.0 - Clamp(p.restraint) * 0.35))
  }

  function Natural(t: TurnMaterials, p: Personality): NaturalPressure {
    var react, emo := Clamp(OrZero(t.pBcReact)), Clamp(OrZero(t.pBcEmo));
    var naturalness := Naturalness(t, p);
    NaturalPressure(
      Clamp(Times(Max(react, emo), naturalness)),
      Clamp(Times(react * 0.7 + emo * 0.3, naturalness)),
      Clamp(Times(Silence(t, 1800.0), p.empathy)),
      0.0,
      naturalness)
  }

  /** `_conversation_heat`: the last six turns, four of which are full heat. */
  function Heat(history: seq<string>): real {
    Min(1.0, (if |history| > 6 then 6 else |history|) as real / 4.0)
  }

  const IGNORED: set<char> :=
    {' ', '　', '、', '。', '！', '？', '!', '?', '.', ',', ':', ';', '「', '」', '『', '』', '（', '）',
     '(', ')', '[', ']', '【', '】', '\n', '\t'}

  function TopicChars(text: string): set<char> { (set c | c in text) - IGNORED }

  function Concat(texts: seq<string>): string {
    if texts == [] then [] else texts[0] + Concat(texts[1..])
  }

  function Overlap(a: set<char>, b: set<char>): real
    requires a != {}
  {
    assert |a + b| != 0 by {
      var c :| c in a;
      assert c in a + b;
    }
    |a * b| as real / |a + b| as real
  }

  /** `_topic_continuity`: shared characters of the current text and the last six turns. */
  function Continuity(history: seq<string>, text: string): real {
    var current := TopicChars(text);
    var previous := TopicChars(Concat(if |history| > 6 then history[|history| - 6..] else history));
    if current == {} || previous == {} then 0.0 else Overlap(current, previous)
  }

  /** The initiative formula, on clamped personality values. */
  function Initiative(silence: real, speech: real, talk: real, curiosity: real, tolerance: real,
                      restraint: real, drive: real): real
  {
    Clamp(Times(silence, talk * 0.45 + curiosity * 0.2) + drive * 0.35
          - Times(speech, 0.22 - tolerance * 0.12) - restraint * 0.22)
  }

  function Shift(initiative: real, tolerance: real, heat: real, topic: real, restraint: real): real {
    Min(0.22, Clamp(initiative * 0.16 + tolerance * 0.06 + heat * 0.04 + topic * 0.04 - restraint * 0.06))
  }

  function Drive(talk: real, curiosity: real, heat: real, topic: real): real {
    talk * 0.42 + curiosity * 0.28 + heat * 0.22 + topic * 0.20
  }

  function Motivation(t: TurnMaterials, p: Personality, history: seq<string>, text: string): MotivationPressure {
    var talk, curiosity := Clamp(p.talkativeness), Clamp(p.curiosity);
    var restraint, tolerance := Clamp(p.restraint), Clamp(p.interruptTolerance);
    var heat, topic := Heat(history), Continuity(history, text);
    var initiative := Initiative(Silence(t, 8000.0), t.speechProbability, talk, curiosity, tolerance, restraint,
                                 Drive(talk, curiosity, heat, topic));
    MotivationPressure(
      initiative, Clamp(talk * 0.6 + curiosity * 0.4), Shift(initiative, tolerance, heat, topic, restraint), restraint)
  }

  function Max6(a: real, b: real, c: real, d: real, e: real, f: real): real {
    Max(a, Max(b, Max(c, Max(d, Max(e, f)))))
  }

  function WorldModel(t: TurnMaterials, w: World, p: Personality): WorldPressure {
    var presence := if w.userPresent then 1.0 else 0.0;
    var importance := Clamp(Max6(
      w.externalResultImportance, w.calendarUrgency, w.candidatePressure,
      w.followupImportance, w.memoryRelevance, Times(w.curiosityRelevance, p.curiosity)));
    var urgency := Clamp(
      w.calendarUrgency * 0.6 + w.externalResultImportance * 0.3
      + w.candidatePressure * 0.25 + w.followupImportance * 0.2);
    var yielding := Clamp(OrZero(t.pYielding));
    var deliverability := Clamp(
      Max(yielding, Silence(t, 2200.0)) - t.speechProbability * 0.35 - p.restraint * 0.1);
    WorldPressure(importance * presence, urgency * presence, deliverability * presence)
  }

  // ----- monotonicity of each model -----

  ghost predicate Unit(v: real) { 0.0 <= v <= 1.0 }

  ghost predicate UnitMaterials(t: TurnMaterials) {
    Unit(t.speechProbability) && Unit(OrZero(t.pYielding)) && t.silenceMs >= 0
  }

  /** `b` is a better moment to speak than `a`: more silence, more yielding, less speech, all else equal. */
  ghost predicate BetterMoment(a: TurnMaterials, b: TurnMaterials) {
    && UnitMaterials(a) && UnitMaterials(b)
    && a.silenceMs <= b.silenceMs
    && OrZero(a.pYielding) <= OrZero(b.pYielding)
    && b.speechProbability <= a.speechProbability
    && b.userSpeaking == a.userSpeaking && b.pBcReact == a.pBcReact && b.pBcEmo == a.pBcEmo
    && b.sttPartial == a.sttPartial
  }

  lemma TimesMono(a: real, b: real, x: real, y: real)
    requires 0.0 <= a <= b && 0.0 <= x <= y
    ensures 0.0 <= Times(a, x) <= Times(b, y)
  {
    assert a * x <= a * y;
    assert a * y <= b * y;
  }

  lemma SilenceMono(a: TurnMaterials, b: TurnMaterials, fullMs: real)
    requires fullMs > 0.0 && BetterMoment(a, b)
    ensures 0.0 <= Silence(a, fullMs) <= Silence(b, fullMs)
  {
    var x, y := a.silenceMs as real, b.silenceMs as real;
    TimesMono(x, y, 1.0 / fullMs, 1.0 / fullMs);
    assert x / fullMs == Times(x, 1.0 / fullMs) && y / fullMs == Times(y, 1.0 / fullMs);
  }

  lemma RiskMono(a: TurnMaterials, b: TurnMaterials)
    requires BetterMoment(a, b)
    ensures 0.0 <= InterruptionRisk(b, OrZero(b.pYielding)) <= InterruptionRisk(a, OrZero(a.pYielding))
  {
    TimesMono(b.speechProbability, a.speechProbability, 1.0 - OrZero(b.pYielding), 1.0 - OrZero(a.pYielding));
  }

  lemma {:induction false} DialogueMono(a: TurnMaterials, b: TurnMaterials, s: real, t: real,
                                          prefix: string, final: string)
    requires BetterMoment(a, b) && s <= t
    ensures var x, y := Dialogue(a, s, prefix, final), Dialogue(b, t, prefix, final);
            && x.replyReadiness <= y.replyReadiness
            && x.turnOpportunity <= y.turnOpportunity
            && y.interruptionRisk <= x.interruptionRisk
  {
    RiskMono(a, b);
    SilenceMono(a, b, 1200.0);
    hide InterruptionRisk, Silence;
  }

  lemma NaturalnessMono(a: TurnMaterials, b: TurnMaterials, p: Personality)
    requires BetterMoment(a, b)
    ensures Naturalness(a, p) <= Naturalness(b, p)
  {
    SilenceMono(a, b, 1800.0);
    hide Silence, Times;
    var calm := 1.0 - Clamp(p.restraint) * 0.35;
    TimesMono(Max(Clamp(OrZero(a.pYielding)), Silence(a, 1800.0)), Max(Clamp(OrZero(b.pYielding)), Silence(b, 1800.0)),
              calm, calm);
  }

  lemma {:induction false} NaturalMono(a: TurnMaterials, b: TurnMaterials, p: Personality)
    requires BetterMoment(a, b) && 0.0 <= p.empathy
    ensures var x, y := Natural(a, p), Natural(b, p);
            && x.backchannelDesire <= y.backchannelDesire
            && x.lightReactionDesire <= y.lightReactionDesire
            && x.fillerDesire <= y.fillerDesire
            && x.naturalness <= y.naturalness
  {
    SilenceMono(a, b, 1800.0);
    NaturalnessMono(a, b, p);
    hide Silence, Naturalness, Times;
    var react, emo := Clamp(OrZero(a.pBcReact)), Clamp(OrZero(a.pBcEmo));
    var x, y := Naturalness(a, p), Naturalness(b, p);
    TimesMono(Max(react, emo), Max(react, emo), x, y);
    TimesMono(react * 0.7 + emo * 0.3, react * 0.7 + emo * 0.3, x, y);
    TimesMono(Silence(a, 1800.0), Silence(b, 1800.0), p.empathy, p.empathy);
  }

  lemma InitiativeMono(silence: real, silence': real, speech: real, speech': real, talk: real, curiosity: real,
                       tolerance: real, restraint: real, drive: real)
    requires 0.0 <= silence <= silence' && 0.0 <= speech' <= speech
    requires Unit(talk) && Unit(curiosity) && Unit(tolerance)
    ensures Initiative(silence, speech, talk, curiosity, tolerance, restraint, drive)
            <= Initiative(silence', speech', talk, curiosity, tolerance, restraint, drive)
  {
    hide Times;
    var eager, drag := talk * 0.45 + curiosity * 0.2, 0.22 - tolerance * 0.12;
    TimesMono(silence, silence', eager, eager);
    TimesMono(speech', speech, drag, drag);
  }

  lemma {:induction false} MotivationMono(a: TurnMaterials, b: TurnMaterials, p: Personality,
                                            history: seq<string>, text: string)
    requires BetterMoment(a, b)
    ensures var x, y := Motivation(a, p, history, text), Motivation(b, p, history, text);
            && x.initiativeDesire <= y.initiativeDesire
            && x.thresholdShift <= y.thresholdShift
            && x.personalityPush == y.personalityPush && x.restraint == y.restraint
  {
    SilenceMono(a, b, 8000.0);
    hide Silence, Heat, Continuity, Initiative, Drive, Clamp;
    var talk, curiosity, tolerance, restraint :=
      Clamp(p.talkativeness), Clamp(p.curiosity), Clamp(p.interruptTolerance), Clamp(p.restraint);
    InitiativeMono(Silence(a, 8000.0), Silence(b, 8000.0), a.speechProbability, b.speechProbability, talk, curiosity,
                   tolerance, restraint, Drive(talk, curiosity, Heat(history), Continuity(history, text)));
    ShiftMono(Motivation(a, p, history, text).initiativeDesire, Motivation(b, p, history, text).initiativeDesire,
              tolerance, Heat(history), Continuity(history, text), restraint);
    hide Shift;
  }

  lemma ShiftMono(x: real, y: real, tolerance: real, heat: real, topic: real, restraint: real)
    requires x <= y
    ensures Shift(x, tolerance, heat, topic, restraint) <= Shift(y, tolerance, heat, topic, restraint)
  {
  }

  lemma WorldMono(a: TurnMaterials, b: TurnMaterials, w: World, p: Personality)
    requires BetterMoment(a, b)
    ensures var x, y := WorldModel(a, w, p), WorldModel(b, w, p);
            x.importance == y.importance && x.urgency == y.urgency && x.deliverability <= y.deliverability
  {
    SilenceMono(a, b, 2200.0);
    hide Silence, Max6;
  }

  // ----- how far each material moves each pressure -----

  /** Strictly between its bounds, where clamping changes nothing. */
  predicate Inside(v: real) { 0.0 < v < 1.0 }

  lemma ClampInside(v: real)
    ensures Inside(Clamp(v)) ==> Clamp(v) == v
    ensures Clamp(v) == 0.0 <==> v <= 0.0
    ensures Clamp(v) == 1.0 <==> v >= 1.0
  {
  }

  /** Which text there is counts by presence: any text for 18 hundredths, a final one for 15 more. */
  function TextWorth(t: TurnMaterials, stablePrefix: string, finalText: string): real {
    if finalText != "" then 0.33 else if stablePrefix != "" || t.sttPartial != "" then 0.18 else 0.0
  }

  /** Two moments whose readiness is inside its bounds differ by what the saturation, the text, the turn and the risk
      differ by, each with its weight; a silent user is no risk, and yielding or 1200 ms of silence is a full turn. */
  lemma DialogueMoves(a: TurnMaterials, b: TurnMaterials, s: real, t: real, prefix: string, final: string,
                      prefix': string, final': string)
    ensures var x, y := Dialogue(a, s, prefix, final), Dialogue(b, t, prefix', final');
            var risk, risk' := InterruptionRisk(a, Clamp(OrZero(a.pYielding))),
                               InterruptionRisk(b, Clamp(OrZero(b.pYielding)));
            Inside(x.replyReadiness) && Inside(y.replyReadiness) ==>
              y.replyReadiness - x.replyReadiness ==
                (t - s) * 0.62 + (TextWorth(b, prefix', final') - TextWorth(a, prefix, final))
                + (y.turnOpportunity - x.turnOpportunity) * 0.25 - (risk' - risk) * 0.25
  {
    hide InterruptionRisk, Silence;
  }

  /** A missing value counts as zero. */
  predicate Gives(v: Option<real>, x: real) { match v case None => x == 0.0 case Some(y) => x == y }

  /** Without speech there is no risk, and the turn is as open as the user yields or as the silence is long. */
  lemma SilentTurn(t: TurnMaterials, saturation: real, prefix: string, final: string, yielding: real)
    requires !t.userSpeaking && t.silenceMs >= 0 && Gives(t.pYielding, yielding)
    ensures var d := Dialogue(t, saturation, prefix, final);
            && d.interruptionRisk == 0.0
            && (d.turnOpportunity == 1.0 <==> yielding >= 1.0 || t.silenceMs >= 1200)
            && (d.turnOpportunity == 0.0 <==> yielding <= 0.0 && t.silenceMs == 0)
            && (d.turnOpportunity * 1200.0 >= t.silenceMs as real || t.silenceMs > 1200)
  {
  }

  /** Speech is a risk in proportion to its probability and to how little the user yields, and closes the turn. */
  lemma SpokenTurn(t: TurnMaterials, saturation: real, prefix: string, final: string, yielding: real)
    requires t.userSpeaking && Unit(t.speechProbability) && Unit(yielding) && Gives(t.pYielding, yielding)
    ensures var d := Dialogue(t, saturation, prefix, final);
            && d.interruptionRisk == t.speechProbability - t.speechProbability * yielding
            && (Inside(d.turnOpportunity) ==>
                  d.turnOpportunity == Max(yielding, Silence(t, 1200.0)) - d.interruptionRisk * 0.4)
  {
    hide Silence, Times;
    var speech := t.speechProbability;
    TimesMono(speech, 1.0, 1.0 - yielding, 1.0);
    HeldBack(speech, yielding);
  }

  lemma HeldBack(speech: real, yielding: real)
    ensures Times(speech, 1.0 - yielding) == speech - speech * yielding && Times(1.0, 1.0) == 1.0
  {
  }

  /** For materials within their bounds: the open moment held back by restraint, and the desires as parts of it. */
  lemma NaturalExactly(t: TurnMaterials, p: Personality, react: real, emo: real, yielding: real)
    requires t.silenceMs >= 0 && Unit(p.empathy) && Unit(p.restraint) && Unit(react) && Unit(emo) && Unit(yielding)
    requires Gives(t.pBcReact, react) && Gives(t.pBcEmo, emo) && Gives(t.pYielding, yielding)
    ensures var n := Natural(t, p);
            && n.naturalness == Times(Max(yielding, Silence(t, 1800.0)), 1.0 - p.restraint * 0.35)
            && n.backchannelDesire == Times(Max(react, emo), n.naturalness)
            && n.lightReactionDesire == Times(react * 0.7 + emo * 0.3, n.naturalness)
            && n.fillerDesire == Times(Silence(t, 1800.0), p.empathy) && n.clarificationDesire == 0.0
            && n.lightReactionDesire <= n.backchannelDesire <= n.naturalness <= Max(yielding, Silence(t, 1800.0))
  {
    SilenceUnit(t, 1800.0);
    hide Silence;
    var open := Max(yielding, Silence(t, 1800.0));
    TimesUnit(open, 1.0 - p.restraint * 0.35);
    TimesUnit(Silence(t, 1800.0), p.empathy);
    var natural := Natural(t, p).naturalness;
    TimesUnit(Max(react, emo), natural);
    TimesUnit(react * 0.7 + emo * 0.3, natural);
    TimesMono(react * 0.7 + emo * 0.3, Max(react, emo), natural, natural);
    hide Times;
  }

  lemma SilenceUnit(t: TurnMaterials, fullMs: real)
    requires fullMs > 0.0 && t.silenceMs >= 0
    ensures Unit(Silence(t, fullMs)) && (Silence(t, fullMs) == 1.0 <==> t.silenceMs as real >= fullMs)
  {
    var x := t.silenceMs as real;
    TimesMono(0.0, x, 1.0 / fullMs, 1.0 / fullMs);
    assert x / fullMs == Times(x, 1.0 / fullMs);
    if x < fullMs {
      assert x / fullMs < 1.0;
    }
  }

  lemma TimesUnit(a: real, b: real)
    requires Unit(a) && Unit(b)
    ensures Unit(Times(a, b)) && Times(a, b) <= a && Times(a, b) <= b && Times(a, b) == a * b
  {
    TimesMono(a, a, b, 1.0);
    TimesMono(a, 1.0, b, b);
  }

  /** Each of the last six turns up to the fourth warms the conversation by a quarter. */
  lemma HeatExactly(history: seq<string>)
    ensures Heat(history) == if |history| >= 4 then 1.0 else |history| as real * 0.25
  {
  }

  /** The characters of a text that say what it is about: all but white space, brackets and punctuation. */
  lemma TopicExactly(text: string, c: char)
    ensures c in TopicChars(text) <==> c in text && c !in IGNORED
  {
    hide IGNORED;
  }

  /** The continuity of the topic: nothing in common, all in common, or the part of all characters that is shared by
      the text and the last six turns. */
  lemma ContinuityExactly(history: seq<string>, text: string)
    ensures var recent := if |history| > 6 then history[|history| - 6..] else history;
            var a, b, r := TopicChars(text), TopicChars(Concat(recent)), Continuity(history, text);
            && Unit(r) && (r == 0.0 <==> a * b == {})
            && (a != {} ==> (r == 1.0 <==> a == b))
            && (a + b != {} ==> r == |a * b| as real / |a + b| as real)
  {
    var recent := if |history| > 6 then history[|history| - 6..] else history;
    var a, b := TopicChars(text), TopicChars(Concat(recent));
    hide TopicChars, Concat, Overlap;
    if a != {} && b != {} {
      OverlapExactly(a, b);
    } else {
      assert a * b == {} && |a * b| == 0;
      assert Continuity(history, text) == 0.0;
      if a + b != {} {
        ZeroOver(|a + b|);
      }
    }
  }

  lemma ZeroOver(n: nat)
    requires n > 0
    ensures 0.0 / n as real == 0.0
  {
  }

  lemma OverlapExactly(a: set<char>, b: set<char>)
    requires a != {}
    ensures var r := Overlap(a, b);
            && Unit(r) && (r == 0.0 <==> a * b == {}) && (r == 1.0 <==> a == b)
            && r == |a * b| as real / |a + b| as real
  {
    SharedCount(a, b);
    RatioExactly(|a * b|, |a + b|);
  }

  lemma RatioExactly(k: nat, n: nat)
    requires k <= n && n > 0
    ensures var r := k as real / n as real;
            Unit(r) && (r == 0.0 <==> k == 0) && (r == 1.0 <==> k == n)
  {
    var x, y := k as real, n as real;
    var inverse := 1.0 / y;
    assert y * inverse == 1.0 && x / y == Times(x, inverse);
    assert Times(y - x, inverse) == 1.0 - Times(x, inverse);
    TimesSign(x, inverse);
    TimesSign(y - x, inverse);
  }

  lemma TimesSign(a: real, b: real)
    requires 0.0 <= a && 0.0 < b
    ensures Times(a, b) >= 0.0 && (Times(a, b) == 0.0 <==> a == 0.0)
  {
  }

  lemma SharedCount(a: set<char>, b: set<char>)
    requires a != {}
    ensures |a * b| <= |a + b| && |a + b| > 0 && (|a * b| == 0 <==> a * b == {}) && (|a * b| == |a + b| <==> a == b)
  {
    var c :| c in a;
    assert c in a + b;
    var rest := (a - b) + (b - a);
    assert a + b == a * b + rest;
    assert |a + b| == |a * b| + |rest|;
    if |rest| == 0 {
      assert rest == {} && forall x :: x in a <==> x in b by {
        assert forall x :: x in a && x !in b ==> x in rest;
        assert forall x :: x in b && x !in a ==> x in rest;
      }
    }
    if a == b {
      assert rest == {};
    }
  }

  lemma {:induction false} ConcatHas(texts: seq<string>, c: char)
    ensures c in Concat(texts) <==> exists i :: 0 <= i < |texts| && c in texts[i]
  {
    if texts != [] {
      ConcatHas(texts[1..], c);
      assert forall i :: 0 < i < |texts| ==> texts[i] == texts[1..][i - 1];
      assert forall i :: 0 <= i < |texts| - 1 ==> texts[1..][i] == texts[i + 1];
    }
  }

  /** Two moments, personalities or conversations whose initiative is inside its bounds differ in it by what each of
      the quantities behind it differs by, with its weight. */
  lemma MotivationMoves(a: TurnMaterials, b: TurnMaterials, p: Personality, q: Personality,
                        history: seq<string>, text: string, history': seq<string>, text': string)
    requires UnitPersonality(p) && UnitPersonality(q)
    ensures var x, y := Motivation(a, p, history, text), Motivation(b, q, history', text');
            && y.restraint - x.restraint == q.restraint - p.restraint
            && y.personalityPush - x.personalityPush
               == (q.talkativeness - p.talkativeness) * 0.6 + (q.curiosity - p.curiosity) * 0.4
            && (Inside(x.initiativeDesire) && Inside(y.initiativeDesire) ==>
                  y.initiativeDesire - x.initiativeDesire ==
                    (Drives(b, q) - Drives(a, p)) + (q.talkativeness - p.talkativeness) * 0.147
                    + (q.curiosity - p.curiosity) * 0.098 + (Heat(history') - Heat(history)) * 0.077
                    + (Continuity(history', text') - Continuity(history, text)) * 0.07
                    - (q.restraint - p.restraint) * 0.22)
  {
    hide Silence, Heat, Continuity, Times, Shift;
    ClampUnit(p);
    ClampUnit(q);
  }

  /** The threshold shift: initiative, tolerance, heat and topic lower the thresholds and restraint raises them again,
      never below what they were and never by more than 22 hundredths. */
  lemma ShiftExactly(t: TurnMaterials, p: Personality, history: seq<string>, text: string)
    requires UnitPersonality(p)
    ensures var m := Motivation(t, p, history, text);
            var v := m.initiativeDesire * 0.16 + p.interruptTolerance * 0.06 + Heat(history) * 0.04
                     + Continuity(history, text) * 0.04 - p.restraint * 0.06;
            m.thresholdShift == if v < 0.0 then 0.0 else if v > 0.22 then 0.22 else v
  {
    hide Silence, Heat, Continuity, Times, Initiative, Drive;
    ClampUnit(p);
  }

  ghost predicate UnitPersonality(p: Personality) {
    && Unit(p.talkativeness) && Unit(p.curiosity) && Unit(p.restraint) && Unit(p.empathy)
    && Unit(p.interruptTolerance)
  }

  lemma ClampUnit(p: Personality)
    requires UnitPersonality(p)
    ensures Clamp(p.talkativeness) == p.talkativeness && Clamp(p.curiosity) == p.curiosity
    ensures Clamp(p.restraint) == p.restraint && Clamp(p.interruptTolerance) == p.interruptTolerance
  {
  }

  /** What silence invites and speech holds back: up to 45 hundredths of the talkativeness and 20 of the curiosity,
      and 22 hundredths of the speech, or 10 when interruptions are fully tolerated. */
  function Drives(t: TurnMaterials, p: Personality): real {
    Times(Silence(t, 8000.0), p.talkativeness * 0.45 + p.curiosity * 0.2)
    - Times(t.speechProbability, 0.22 - p.interruptTolerance * 0.12)
  }

  /** The largest of some numbers. */
  ghost predicate Largest(v: real, of: seq<real>) {
    (forall i :: 0 <= i < |of| ==> of[i] <= v) && exists i :: 0 <= i < |of| && of[i] == v
  }

  lemma LargestIsMax(v: real, of: seq<real>)
    requires |of| == 6 && Largest(v, of)
    ensures v == Max6(of[0], of[1], of[2], of[3], of[4], of[5])
  {
  }

  /** An absent user quiets the world. */
  lemma NobodyThere(t: TurnMaterials, w: World, p: Personality)
    requires !w.userPresent
    ensures WorldModel(t, w, p) == WorldPressure(0.0, 0.0, 0.0)
  {
    hide Max6, Silence;
  }

  /** For a present user importance is the largest material, within the bounds. */
  lemma ImportanceExactly(t: TurnMaterials, w: World, p: Personality, v: real)
    requires w.userPresent
    requires Largest(v, [w.externalResultImportance, w.calendarUrgency, w.candidatePressure, w.followupImportance,
                         w.memoryRelevance, Times(w.curiosityRelevance, p.curiosity)])
    ensures WorldModel(t, w, p).importance == if v < 0.0 then 0.0 else if v > 1.0 then 1.0 else v
  {
    LargestIsMax(v, [w.externalResultImportance, w.calendarUrgency, w.candidatePressure, w.followupImportance,
                     w.memoryRelevance, Times(w.curiosityRelevance, p.curiosity)]);
    hide Max6, Silence, Times;
  }

  /** Urgency counts the calendar twelve, results six, candidates five and follow-ups four twentieths, and delivery
      waits for an open moment, kept down by speech and restraint. */
  lemma WorldExactly(t: TurnMaterials, w: World, p: Personality, yielding: real)
    requires w.userPresent && t.silenceMs >= 0 && Gives(t.pYielding, yielding)
    ensures var m := WorldModel(t, w, p);
            && (Inside(m.urgency) ==>
                  m.urgency * 20.0 == w.calendarUrgency * 12.0 + w.externalResultImportance * 6.0
                                      + w.candidatePressure * 5.0 + w.followupImportance * 4.0)
            && (Inside(m.deliverability) ==>
                  m.deliverability + t.speechProbability * 0.35 + p.restraint * 0.1
                  == Max(Clamp(yielding), Silence(t, 2200.0)))
            && (t.speechProbability == 0.0 && p.restraint == 0.0 ==>
                  (m.deliverability == 1.0 <==> yielding >= 1.0 || t.silenceMs >= 2200))
  {
    SilenceUnit(t, 2200.0);
    hide Silence, Max6;
  }
}
