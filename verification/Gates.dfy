/** The two decision gates (server/tomoko/gates.py) and the pipeline that feeds them
    (server/tomoko/conversation.py). */
module Gates {
  import opened Wrappers
  import opened Pressures

  datatype FireThresholds = FireThresholds(fire: real, cancel: real)

  datatype EmissionThresholds = EmissionThresholds(
    emit: real, replaceMargin: real, append: real, stop: real, holdInterruption: real)

  const FIRE_DEFAULTS := FireThresholds(0.62, 0.8)

  const EMISSION_DEFAULTS := EmissionThresholds(0.6, 0.25, 0.62, 0.8, 0.45)

  datatype Pressure = Pressure(
    dialogue: DialoguePressure, natural: NaturalPressure, motivation: MotivationPressure, world: WorldPressure)

  function ThresholdShift(v: real): real { Max(0.0, Min(0.22, v)) }

  // ----- the fire gate -----

  datatype FireDecision = DoNotFire | Fire | CancelOrReplacePending

  function NaturalDesire(n: NaturalPressure): real {
    Max(n.backchannelDesire, Max(n.lightReactionDesire, Max(n.fillerDesire, n.clarificationDesire)))
  }

  function WeightedScore(p: Pressure): real {
    p.dialogue.replyReadiness * 0.55
    + p.dialogue.turnOpportunity * 0.2
    + NaturalDesire(p.natural) * 0.18
    + p.motivation.initiativeDesire * 0.25
    + p.motivation.personalityPush * 0.12
    + p.world.importance * 0.28
    + p.world.urgency * 0.3
    + p.world.deliverability * 0.18
    - p.dialogue.interruptionRisk * 0.35
    - p.motivation.restraint * 0.12
  }

  function FireScore(p: Pressure): real {
    Max6(
      WeightedScore(p),
      p.dialogue.replyReadiness,
      NaturalDesire(p.natural),
      p.motivation.initiativeDesire,
      Min(1.0, p.world.importance * 0.7 + p.world.deliverability * 0.3),
      p.world.urgency)
  }

  function DecideFire(th: FireThresholds, score: real, thresholdShift: real, pending: bool): FireDecision {
    var shift := ThresholdShift(thresholdShift);
    if pending && score >= Max(0.5, th.cancel - shift * 0.5) then CancelOrReplacePending
    else if score >= Max(0.35, th.fire - shift) then Fire
    else DoNotFire
  }

  function FireGate(th: FireThresholds, p: Pressure, pending: bool): FireDecision {
    DecideFire(th, FireScore(p), p.motivation.thresholdShift, pending)
  }

  // ----- the emission gate -----

  datatype EmissionDecision = EmitNow | AppendAfterCurrent | ReplaceCurrent | Hold | Suppress | StopSpeech

  datatype Candidate = Candidate(priority: real, freshness: real, confidence: real, misunderstandingRisk: real)

  /** What the gate is told besides the pressures: the score of the current speech, if there is one. */
  datatype Situation = Situation(current: Option<real>, stopIntent: real, rejection: real, fatigue: real)

  function EmissionRisk(p: Pressure, t: TurnMaterials): real {
    Max(p.dialogue.interruptionRisk, InterruptionRisk(t, OrZero(t.pYielding)))
  }

  function EmissionScore(p: Pressure, t: TurnMaterials, c: Candidate, s: Situation): real {
    c.priority * 0.5
    + c.freshness * 0.2
    + c.confidence * 0.25
    + p.dialogue.turnOpportunity * 0.22
    + p.natural.naturalness * 0.12
    + p.motivation.initiativeDesire * 0.25
    + p.world.urgency * 0.18
    + p.world.deliverability * 0.18
    - EmissionRisk(p, t) * 0.75
    - c.misunderstandingRisk * 0.45
    - s.rejection * 0.5
    - s.fatigue * 0.35
    - p.motivation.restraint * 0.12
  }

  function DecideEmission(th: EmissionThresholds, score: real, risk: real, thresholdShift: real, s: Situation)
    : EmissionDecision
  {
    if s.stopIntent >= th.stop then StopSpeech
    else
      var shift := ThresholdShift(thresholdShift);
      var emit := Max(0.35, th.emit - shift);
      if risk >= th.holdInterruption && score < emit then Hold
      else if s.current.Some? then
        if score > s.current.value + Max(0.05, th.replaceMargin - shift * 0.5) then ReplaceCurrent
        else if score >= Max(0.35, th.append - shift) then AppendAfterCurrent
        else Hold
      else if score >= emit then EmitNow
      else Suppress
  }

  function EmissionGate(th: EmissionThresholds, p: Pressure, t: TurnMaterials, c: Candidate, s: Situation)
    : EmissionDecision
  {
    DecideEmission(th, EmissionScore(p, t, c, s), EmissionRisk(p, t), p.motivation.thresholdShift, s)
  }

  // ----- the pipeline of one observation -----

  /** Everything a decision depends on besides the turn materials and the saturation. */
  datatype Setting = Setting(
    personality: Personality, world: World, history: seq<string>,
    text: string, stablePrefix: string, finalText: string)

  function AllPressures(t: TurnMaterials, saturation: real, k: Setting): Pressure {
    Pressure(
      Dialogue(t, saturation, k.stablePrefix, k.finalText),
      Natural(t, k.personality),
      Motivation(t, k.personality, k.history, k.text),
      WorldModel(t, k.world, k.personality))
  }

  /** The candidate the conversation core prepares from the fire score and the saturation. */
  function Prepared(fireScore: real, saturation: real): Candidate {
    Candidate(Clamp(fireScore), 1.0, saturation, 0.0)
  }

  function FireRank(d: FireDecision): int {
    match d case DoNotFire => 0 case Fire => 1 case CancelOrReplacePending => 2
  }

  function EmissionRank(d: EmissionDecision): int {
    match d
    case Hold => 0 case Suppress => 0
    case AppendAfterCurrent => 1
    case EmitNow => 2 case ReplaceCurrent => 2
    case StopSpeech => 3
  }

  /** The order of the decisions; holding back is one rank, and so is speaking at once. */
  lemma Ranks()
    ensures FireRank(DoNotFire) < FireRank(Fire) < FireRank(CancelOrReplacePending)
    ensures EmissionRank(Hold) == EmissionRank(Suppress) < EmissionRank(AppendAfterCurrent)
    ensures EmissionRank(AppendAfterCurrent) < EmissionRank(EmitNow) == EmissionRank(ReplaceCurrent)
    ensures EmissionRank(ReplaceCurrent) < EmissionRank(StopSpeech)
  {
  }

  // ----- monotonicity from the materials to the decisions -----

  /** `y` presses at least as hard as `x` on everything the gates reward, and no harder on what they fear. */
  ghost predicate Presses(x: Pressure, y: Pressure) {
    && x.dialogue.replyReadiness <= y.dialogue.replyReadiness
    && x.dialogue.turnOpportunity <= y.dialogue.turnOpportunity
    && y.dialogue.interruptionRisk <= x.dialogue.interruptionRisk
    && x.natural.backchannelDesire <= y.natural.backchannelDesire
    && x.natural.lightReactionDesire <= y.natural.lightReactionDesire
    && x.natural.fillerDesire <= y.natural.fillerDesire
    && x.natural.clarificationDesire == y.natural.clarificationDesire
    && x.natural.naturalness <= y.natural.naturalness
    && x.motivation.initiativeDesire <= y.motivation.initiativeDesire
    && x.motivation.thresholdShift <= y.motivation.thresholdShift
    && x.motivation.personalityPush == y.motivation.personalityPush
    && x.motivation.restraint == y.motivation.restraint
    && x.world.importance == y.world.importance
    && x.world.urgency == y.world.urgency
    && x.world.deliverability <= y.world.deliverability
  }

  lemma PressuresMono(a: TurnMaterials, b: TurnMaterials, s: real, t: real, k: Setting)
    requires BetterMoment(a, b) && s <= t && 0.0 <= k.personality.empathy
    ensures Presses(AllPressures(a, s, k), AllPressures(b, t, k))
  {
    DialogueMono(a, b, s, t, k.stablePrefix, k.finalText);
    NaturalMono(a, b, k.personality);
    MotivationMono(a, b, k.personality, k.history, k.text);
    WorldMono(a, b, k.world, k.personality);
    assert Natural(a, k.personality).clarificationDesire == Natural(b, k.personality).clarificationDesire;
    hide Dialogue, Natural, Motivation, WorldModel, BetterMoment;
  }

  lemma FireScoreMono(x: Pressure, y: Pressure)
    requires Presses(x, y)
    ensures FireScore(x) <= FireScore(y)
  {
    assert NaturalDesire(x.natural) <= NaturalDesire(y.natural);
    hide NaturalDesire;
    assert WeightedScore(x) <= WeightedScore(y);
    hide WeightedScore;
  }

  lemma DecideFireMono(th: FireThresholds, s: real, t: real, u: real, v: real, pending: bool)
    requires s <= t && u <= v
    ensures FireRank(DecideFire(th, s, u, pending)) <= FireRank(DecideFire(th, t, v, pending))
  {
  }

  /** A better moment never lowers the fire decision, whatever the thresholds. */
  lemma {:induction false} FireIsMonotone(th: FireThresholds, a: TurnMaterials, b: TurnMaterials, s: real, t: real,
                                            k: Setting, pending: bool)
    requires BetterMoment(a, b) && s <= t && 0.0 <= k.personality.empathy
    ensures FireScore(AllPressures(a, s, k)) <= FireScore(AllPressures(b, t, k))
    ensures FireRank(FireGate(th, AllPressures(a, s, k), pending))
         <= FireRank(FireGate(th, AllPressures(b, t, k), pending))
  {
    var x, y := AllPressures(a, s, k), AllPressures(b, t, k);
    PressuresMono(a, b, s, t, k);
    FireScoreMono(x, y);
    hide AllPressures, FireScore, DecideFire, BetterMoment;
    DecideFireMono(th, FireScore(x), FireScore(y), x.motivation.thresholdShift, y.motivation.thresholdShift, pending);
  }

  lemma EmissionScoreMono(x: Pressure, y: Pressure, a: TurnMaterials, b: TurnMaterials,
                          c: Candidate, d: Candidate, s: Situation)
    requires Presses(x, y) && BetterMoment(a, b)
    requires d == c.(priority := d.priority, confidence := d.confidence)
    requires c.priority <= d.priority && c.confidence <= d.confidence
    ensures EmissionScore(x, a, c, s) <= EmissionScore(y, b, d, s)
    ensures EmissionRisk(y, b) <= EmissionRisk(x, a)
  {
    RiskMono(a, b);
    hide InterruptionRisk, BetterMoment;
    assert EmissionRisk(y, b) <= EmissionRisk(x, a);
    hide EmissionRisk;
  }

  lemma DecideEmissionMono(th: EmissionThresholds, s: real, t: real, r: real, q: real, u: real, v: real, k: Situation)
    requires s <= t && q <= r && u <= v
    ensures EmissionRank(DecideEmission(th, s, r, u, k)) <= EmissionRank(DecideEmission(th, t, q, v, k))
    ensures DecideEmission(th, s, r, u, k) == StopSpeech <==> DecideEmission(th, t, q, v, k) == StopSpeech
  {
  }

  /** A better moment never lowers emission of the same candidate; it neither causes nor prevents a stop. */
  lemma {:induction false} EmissionIsMonotone(
      th: EmissionThresholds, a: TurnMaterials, b: TurnMaterials, s: real, t: real,
      k: Setting, c: Candidate, situation: Situation)
    requires BetterMoment(a, b) && s <= t && 0.0 <= k.personality.empathy
    ensures var before := EmissionGate(th, AllPressures(a, s, k), a, c, situation);
            var after := EmissionGate(th, AllPressures(b, t, k), b, c, situation);
            EmissionRank(before) <= EmissionRank(after) && (before == StopSpeech <==> after == StopSpeech)
  {
    EmissionFollows(th, a, b, s, t, k, c, c, situation);
  }

  lemma EmissionFollows(th: EmissionThresholds, a: TurnMaterials, b: TurnMaterials, s: real, t: real, k: Setting,
                        c: Candidate, d: Candidate, situation: Situation)
    requires BetterMoment(a, b) && s <= t && 0.0 <= k.personality.empathy
    requires d == c.(priority := d.priority, confidence := d.confidence)
    requires c.priority <= d.priority && c.confidence <= d.confidence
    ensures var before := EmissionGate(th, AllPressures(a, s, k), a, c, situation);
            var after := EmissionGate(th, AllPressures(b, t, k), b, d, situation);
            EmissionRank(before) <= EmissionRank(after) && (before == StopSpeech <==> after == StopSpeech)
  {
    var x, y := AllPressures(a, s, k), AllPressures(b, t, k);
    PressuresMono(a, b, s, t, k);
    EmissionScoreMono(x, y, a, b, c, d, situation);
    hide AllPressures, EmissionScore, EmissionRisk, DecideEmission, BetterMoment;
    DecideEmissionMono(th, EmissionScore(x, a, c, situation), EmissionScore(y, b, d, situation),
                       EmissionRisk(x, a), EmissionRisk(y, b),
                       x.motivation.thresholdShift, y.motivation.thresholdShift, situation);
  }

  /** The whole pipeline: the candidate's priority and confidence come from the same materials, and
      a better moment or a more complete utterance still never lowers what is emitted. */
  lemma {:induction false} PipelineIsMonotone(
      th: EmissionThresholds, a: TurnMaterials, b: TurnMaterials, s: real, t: real, k: Setting, situation: Situation)
    requires BetterMoment(a, b) && s <= t && 0.0 <= k.personality.empathy
    ensures var x, y := AllPressures(a, s, k), AllPressures(b, t, k);
            var before := EmissionGate(th, x, a, Prepared(FireScore(x), s), situation);
            var after := EmissionGate(th, y, b, Prepared(FireScore(y), t), situation);
            EmissionRank(before) <= EmissionRank(after) && (before == StopSpeech <==> after == StopSpeech)
  {
    var x, y := AllPressures(a, s, k), AllPressures(b, t, k);
    PressuresMono(a, b, s, t, k);
    FireScoreMono(x, y);
    hide AllPressures, FireScore, EmissionGate, BetterMoment, Presses;
    EmissionFollows(th, a, b, s, t, k, Prepared(FireScore(x), s), Prepared(FireScore(y), t), situation);
  }

  // ----- where the decisions lie -----

  /** With the default thresholds motivation can only move a decision inside a bracket. */
  lemma DefaultBrackets(p: Pressure, pending: bool)
    ensures var score, d := FireScore(p), FireGate(FIRE_DEFAULTS, p, pending);
            && (score >= 0.62 ==> d != DoNotFire)
            && (score < 0.4 ==> d == DoNotFire)
            && (d == CancelOrReplacePending ==> pending && score >= 0.69)
            && (pending && score >= 0.8 ==> d == CancelOrReplacePending)
  {
    hide FireScore;
  }

  /** A final transcript that is at all complete, heard while the user is not speaking, always fires. */
  lemma FinalTextFires(t: TurnMaterials, saturation: real, k: Setting, pending: bool)
    requires !t.userSpeaking && k.finalText != "" && saturation >= 0.47
    ensures FireGate(FIRE_DEFAULTS, AllPressures(t, saturation, k), pending) != DoNotFire
  {
    var d := Dialogue(t, saturation, k.stablePrefix, k.finalText);
    assert d.replyReadiness >= 0.62;
    hide Natural, Motivation, WorldModel, Dialogue, WeightedScore, NaturalDesire;
    DefaultBrackets(AllPressures(t, saturation, k), pending);
  }

  // ----- how far each input moves a score -----

  lemma LargestOfFour(n: NaturalPressure, v: real)
    ensures NaturalDesire(n) == v <==>
            Largest(v, [n.backchannelDesire, n.lightReactionDesire, n.fillerDesire, n.clarificationDesire])
  {
    var of := [n.backchannelDesire, n.lightReactionDesire, n.fillerDesire, n.clarificationDesire];
    assert of[0] == n.backchannelDesire && of[1] == n.lightReactionDesire && of[2] == n.fillerDesire
           && of[3] == n.clarificationDesire;
  }

  /** The fire score is the largest of six: five grounds that suffice alone, and their weighted sum. */
  lemma FireScoreExactly(p: Pressure, desire: real, matter: real)
    requires Largest(desire, [p.natural.backchannelDesire, p.natural.lightReactionDesire, p.natural.fillerDesire,
                              p.natural.clarificationDesire])
    requires var m := p.world.importance * 0.7 + p.world.deliverability * 0.3; matter == if m > 1.0 then 1.0 else m
    ensures Largest(FireScore(p), [WeightedScore(p), p.dialogue.replyReadiness, desire, p.motivation.initiativeDesire,
                                   matter, p.world.urgency])
  {
    LargestOfFour(p.natural, desire);
    hide WeightedScore, NaturalDesire;
    var of := [WeightedScore(p), p.dialogue.replyReadiness, desire, p.motivation.initiativeDesire, matter,
               p.world.urgency];
    MaxIsLargest(of);
  }

  lemma MaxIsLargest(of: seq<real>)
    requires |of| == 6
    ensures Largest(Max6(of[0], of[1], of[2], of[3], of[4], of[5]), of)
  {
    var v := Max6(of[0], of[1], of[2], of[3], of[4], of[5]);
    assert v == of[0] || v == of[1] || v == of[2] || v == of[3] || v == of[4] || v == of[5];
  }

  /** What each pressure adds to the weighted sum, for any two pressures. */
  lemma WeightsOfFire(x: Pressure, y: Pressure)
    ensures WeightedScore(y) - WeightedScore(x) ==
            (y.dialogue.replyReadiness - x.dialogue.replyReadiness) * 0.55
            + (y.dialogue.turnOpportunity - x.dialogue.turnOpportunity) * 0.2
            - (y.dialogue.interruptionRisk - x.dialogue.interruptionRisk) * 0.35
            + (NaturalDesire(y.natural) - NaturalDesire(x.natural)) * 0.18
            + (y.motivation.initiativeDesire - x.motivation.initiativeDesire) * 0.25
            + (y.motivation.personalityPush - x.motivation.personalityPush) * 0.12
            - (y.motivation.restraint - x.motivation.restraint) * 0.12
            + (y.world.importance - x.world.importance) * 0.28 + (y.world.urgency - x.world.urgency) * 0.3
            + (y.world.deliverability - x.world.deliverability) * 0.18
  {
    hide NaturalDesire;
  }

  /** Nothing presses. */
  const REST := Pressure(
    DialoguePressure(0.0, 0.0, 0.0), NaturalPressure(0.0, 0.0, 0.0, 0.0, 0.0), MotivationPressure(0.0, 0.0, 0.0, 0.0),
    WorldPressure(0.0, 0.0, 0.0))

  lemma RestIsZero(t: TurnMaterials)
    requires !t.userSpeaking
    ensures WeightedScore(REST) == 0.0
    ensures EmissionScore(REST, t, Candidate(0.0, 0.0, 0.0, 0.0), Situation(None, 0.0, 0.0, 0.0)) == 0.0
  {
    assert NaturalDesire(REST.natural) == 0.0 && EmissionRisk(REST, t) == 0.0 by { hide WeightedScore, EmissionScore; }
    hide NaturalDesire, EmissionRisk;
  }

  /** What each field of candidate, situation and pressure adds to the emission score, for any two inputs. */
  lemma WeightsOfEmission(x: Pressure, y: Pressure, t: TurnMaterials, u: TurnMaterials, c: Candidate, d: Candidate,
                          s: Situation, r: Situation)
    ensures EmissionScore(y, u, d, r) - EmissionScore(x, t, c, s) ==
            (d.priority - c.priority) * 0.5 + (d.freshness - c.freshness) * 0.2 + (d.confidence - c.confidence) * 0.25
            - (d.misunderstandingRisk - c.misunderstandingRisk) * 0.45
            - (r.rejection - s.rejection) * 0.5 - (r.fatigue - s.fatigue) * 0.35
            + (y.dialogue.turnOpportunity - x.dialogue.turnOpportunity) * 0.22
            + (y.natural.naturalness - x.natural.naturalness) * 0.12
            + (y.motivation.initiativeDesire - x.motivation.initiativeDesire) * 0.25
            - (y.motivation.restraint - x.motivation.restraint) * 0.12
            + (y.world.urgency - x.world.urgency) * 0.18
            + (y.world.deliverability - x.world.deliverability) * 0.18
            - (EmissionRisk(y, u) - EmissionRisk(x, t)) * 0.75
  {
    hide EmissionRisk;
  }

  /** The risk is the larger of what the dialogue says and what the materials say; these count only a speaking user,
      in proportion to the probability of speech and to how little the user yields. */
  lemma RiskExactly(p: Pressure, t: TurnMaterials, yielding: real)
    requires Unit(t.speechProbability) && Unit(yielding) && Gives(t.pYielding, yielding)
    requires p.dialogue.interruptionRisk >= 0.0
    ensures var said, heard := p.dialogue.interruptionRisk, t.speechProbability * (1.0 - yielding);
            EmissionRisk(p, t) == if t.userSpeaking && heard > said then heard else said
  {
    TimesMono(t.speechProbability, 1.0, 1.0 - yielding, 1.0);
    assert Times(t.speechProbability, 1.0 - yielding) == t.speechProbability * (1.0 - yielding);
    hide Times;
  }

  // ----- which decision, exactly -----

  /** The part of a threshold shift that counts. */
  predicate Counts(shift: real, given: real) {
    if given < 0.0 then shift == 0.0 else if given > 0.22 then shift == 0.22 else shift == given
  }

  /** A threshold lowered by a shift, down to its floor. */
  function Lowered(threshold: real, shift: real, floor: real): real {
    if threshold - shift < floor then floor else threshold - shift
  }

  /** The three fire decisions, for any thresholds. */
  lemma FireExactly(th: FireThresholds, score: real, given: real, shift: real, pending: bool)
    requires Counts(shift, given)
    ensures var d := DecideFire(th, score, given, pending);
            var fire, cancel := Lowered(th.fire, shift, 0.35), Lowered(th.cancel, shift / 2.0, 0.5);
            && (d == CancelOrReplacePending <==> pending && score >= cancel)
            && (d == Fire <==> score >= fire && !(pending && score >= cancel))
            && (d == DoNotFire <==> score < fire && !(pending && score >= cancel))
  {
  }

  /** With the default ones no floor is ever reached. */
  lemma DefaultFire(score: real, given: real, shift: real, pending: bool)
    requires Counts(shift, given)
    ensures var d := DecideFire(FIRE_DEFAULTS, score, given, pending);
            && (d == CancelOrReplacePending <==> pending && score >= 0.8 - shift * 0.5)
            && (d == Fire <==> score >= 0.62 - shift && (pending ==> score < 0.8 - shift * 0.5))
            && (d == DoNotFire <==> score < 0.62 - shift)
  {
    FireExactly(FIRE_DEFAULTS, score, given, shift, pending);
    hide DecideFire;
  }

  /** The six emission decisions, for any thresholds: only with nothing playing is speech emitted or suppressed, only
      with something playing is it replaced or appended to, and a hold is for what cannot be said against the user's
      speech or beside the current one. */
  lemma EmissionExactly(th: EmissionThresholds, score: real, risk: real, given: real, shift: real, s: Situation)
    requires Counts(shift, given)
    ensures var d := DecideEmission(th, score, risk, given, s);
            var stopped, quiet := s.stopIntent >= th.stop, s.current.None?;
            var emit, append := Lowered(th.emit, shift, 0.35), Lowered(th.append, shift, 0.35);
            var drowned := risk >= th.holdInterruption && score < emit;
            var beaten := !quiet && score - s.current.value > Lowered(th.replaceMargin, shift / 2.0, 0.05);
            && (d == StopSpeech <==> stopped)
            && (d == EmitNow <==> !stopped && quiet && score >= emit)
            && (d == Suppress <==> !stopped && quiet && score < emit && risk < th.holdInterruption)
            && (d == ReplaceCurrent <==> !stopped && !quiet && !drowned && beaten)
            && (d == AppendAfterCurrent <==> !stopped && !quiet && !drowned && !beaten && score >= append)
            && (d == Hold <==> !stopped && (drowned || (!quiet && !beaten && score < append)))
  {
  }

  /** With the default ones no floor is ever reached, and what is loud enough to be appended is not drowned. */
  lemma DefaultEmission(score: real, risk: real, given: real, shift: real, s: Situation)
    requires Counts(shift, given)
    ensures var d := DecideEmission(EMISSION_DEFAULTS, score, risk, given, s);
            var stopped, quiet := s.stopIntent >= 0.8, s.current.None?;
            var drowned := risk >= 0.45 && score < 0.6 - shift;
            && (d == StopSpeech <==> stopped)
            && (d == EmitNow <==> !stopped && quiet && score >= 0.6 - shift)
            && (d == Suppress <==> !stopped && quiet && score < 0.6 - shift && risk < 0.45)
            && (d == ReplaceCurrent <==>
                !stopped && !quiet && !drowned && score - s.current.value > 0.25 - shift * 0.5)
            && (d == AppendAfterCurrent <==>
                !stopped && !quiet && 0.62 - shift <= score <= s.current.value + 0.25 - shift * 0.5)
            && (d == Hold <==>
                !stopped && (drowned || (!quiet && score < 0.62 - shift
                                         && score - s.current.value <= 0.25 - shift * 0.5)))
  {
    EmissionExactly(EMISSION_DEFAULTS, score, risk, given, shift, s);
    hide DecideEmission;
  }

  // ----- a final text is spoken -----

  /** The saturation that makes up for restraint, a recent rejection and fatigue. */
  predicate Outweighs(saturation: real, restraint: real, s: Situation) {
    saturation * 0.56 >= 0.235 + restraint * 0.12 + s.rejection * 0.5 + s.fatigue * 0.35
  }

  lemma ReadinessOfFinal(t: TurnMaterials, saturation: real, k: Setting)
    requires !t.userSpeaking && k.finalText != "" && 0.0 <= saturation <= 1.0
    ensures var p := AllPressures(t, saturation, k);
            p.dialogue.replyReadiness >= saturation * 0.62 + 0.33 && p.dialogue.interruptionRisk == 0.0
            && p.dialogue.turnOpportunity >= 0.0 && EmissionRisk(p, t) == 0.0
  {
    hide Natural, Motivation, WorldModel, Silence;
  }

  lemma NothingNegative(t: TurnMaterials, saturation: real, k: Setting)
    ensures var p := AllPressures(t, saturation, k);
            && p.natural.naturalness >= 0.0 && p.motivation.initiativeDesire >= 0.0 && p.world.urgency >= 0.0
            && p.world.deliverability >= 0.0 && p.motivation.restraint == Clamp(k.personality.restraint)
  {
    hide Dialogue, Silence, Naturalness, Max6, Shift, Heat, Continuity, Drive, Times;
  }

  /** A final transcript heard while the user is not speaking and nothing plays is spoken at once when it is complete
      enough. */
  lemma FinalTextIsSpoken(t: TurnMaterials, saturation: real, k: Setting, s: Situation)
    requires !t.userSpeaking && k.finalText != "" && 0.0 <= saturation <= 1.0
    requires s.current.None? && s.stopIntent < 0.8 && Outweighs(saturation, Clamp(k.personality.restraint), s)
    ensures var p := AllPressures(t, saturation, k);
            EmissionGate(EMISSION_DEFAULTS, p, t, Prepared(FireScore(p), saturation), s) == EmitNow
  {
    var p := AllPressures(t, saturation, k);
    ReadinessOfFinal(t, saturation, k);
    NothingNegative(t, saturation, k);
    var c := Prepared(FireScore(p), saturation);
    assert c.priority >= saturation * 0.62 + 0.33 by { hide AllPressures, WeightedScore, NaturalDesire; }
    hide AllPressures, FireScore, EmissionRisk, Clamp;
    assert EmissionScore(p, t, c, s) >= 0.6;
    hide EmissionScore;
    DefaultEmission(EmissionScore(p, t, c, s), EmissionRisk(p, t), p.motivation.thresholdShift,
                    ThresholdShift(p.motivation.thresholdShift), s);
  }

  /** A silent user who has only just stopped, and nothing that presses but the text. */
  function Quietly(finalText: string, restraint: real): (TurnMaterials, Setting) {
    (TurnMaterials(false, 0.0, None, 0, None, None, ""),
     Setting(Personality(0.0, 0.0, restraint, 0.0, 0.0), World(0.0, 0.0, 0.0, 0.0, 0.0, 0.0, true), [], "", "",
             finalText))
  }

  lemma QuietFront(saturation: real, finalText: string, restraint: real)
    requires finalText != "" && 0.0 <= saturation <= 1.0
    ensures var (t, k) := Quietly(finalText, restraint);
            Dialogue(t, saturation, "", finalText) == DialoguePressure(saturation * 0.62 + 0.33, 0.0, 0.0)
            && Natural(t, k.personality) == NaturalPressure(0.0, 0.0, 0.0, 0.0, 0.0)
  {
  }

  lemma QuietMotives(finalText: string, restraint: real)
    requires Unit(restraint)
    ensures var (t, k) := Quietly(finalText, restraint);
            Motivation(t, k.personality, [], "") == MotivationPressure(0.0, 0.0, 0.0, restraint)
  {
    hide Continuity, Heat, Silence, Initiative, Drive;
    NothingSaid();
    var (t, k) := Quietly(finalText, restraint);
    assert Drive(0.0, 0.0, 0.0, 0.0) == 0.0 by { NoDrive(); }
    NoSilence(t, 8000.0);
    NoInitiative(restraint);
  }

  lemma NothingSaid()
    ensures Continuity([], "") == 0.0 && Heat([]) == 0.0
  {
    hide IGNORED;
    assert TopicChars("") == {};
  }

  lemma NoDrive()
    ensures Drive(0.0, 0.0, 0.0, 0.0) == 0.0
  {
  }

  lemma NoSilence(t: TurnMaterials, fullMs: real)
    requires t.silenceMs == 0 && fullMs > 0.0
    ensures Silence(t, fullMs) == 0.0
  {
  }

  lemma NoInitiative(restraint: real)
    requires Unit(restraint)
    ensures Initiative(0.0, 0.0, 0.0, 0.0, 0.0, restraint, 0.0) == 0.0
  {
  }

  lemma QuietWorld(finalText: string, restraint: real)
    requires Unit(restraint)
    ensures var (t, k) := Quietly(finalText, restraint);
            WorldModel(t, k.world, k.personality) == WorldPressure(0.0, 0.0, 0.0)
  {
    assert Max6(0.0, 0.0, 0.0, 0.0, 0.0, Times(0.0, 0.0)) == 0.0;
    assert Silence(Quietly(finalText, restraint).0, 2200.0) == 0.0;
    hide Max6, Silence, Times;
  }

  lemma QuietPressures(saturation: real, finalText: string, restraint: real)
    requires finalText != "" && 0.0 <= saturation <= 1.0 && Unit(restraint)
    ensures var (t, k) := Quietly(finalText, restraint);
            AllPressures(t, saturation, k) ==
              Pressure(DialoguePressure(saturation * 0.62 + 0.33, 0.0, 0.0), NaturalPressure(0.0, 0.0, 0.0, 0.0, 0.0),
                       MotivationPressure(0.0, 0.0, 0.0, restraint), WorldPressure(0.0, 0.0, 0.0))
  {
    hide Dialogue, Natural, Motivation, WorldModel;
    QuietFront(saturation, finalText, restraint);
    QuietMotives(finalText, restraint);
    QuietWorld(finalText, restraint);
  }

  /** That bound cannot be lowered: where nothing else presses it decides. */
  lemma SpokenExactly(saturation: real, finalText: string, restraint: real, s: Situation)
    requires finalText != "" && 0.0 <= saturation <= 1.0 && Unit(restraint)
    requires s.current.None? && s.stopIntent < 0.8
    ensures var (t, k) := Quietly(finalText, restraint);
            var p := AllPressures(t, saturation, k);
            var d := EmissionGate(EMISSION_DEFAULTS, p, t, Prepared(FireScore(p), saturation), s);
            && (d == EmitNow <==> Outweighs(saturation, restraint, s)) && (d == Suppress <==> d != EmitNow)
  {
    QuietPressures(saturation, finalText, restraint);
    var (t, k) := Quietly(finalText, restraint);
    var p := AllPressures(t, saturation, k);
    hide AllPressures;
    assert FireScore(p) == saturation * 0.62 + 0.33;
    hide FireScore;
    var c := Prepared(FireScore(p), saturation);
    DefaultEmission(EmissionScore(p, t, c, s), EmissionRisk(p, t), 0.0, 0.0, s);
    hide DecideEmission;
  }
}
