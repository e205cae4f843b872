/** The main-reply prompt printer (server/tomoko/prompt.py) and the chat-message parser
    (server/llm/chat.py, and its copy in server/hot_path/model_executor.py), which must undo each other. */
module Prompt {
  import opened Wrappers
  import opened Text

  datatype Item = Item(speaker: string, text: string)

  datatype Candidate = Candidate(source: string, sourceKey: string, text: string, active: bool)

  datatype Status = Status(activity: string, summary: string)

  /** The calendar is given as the list of its items in sorted order. */
  datatype Snapshot = Snapshot(
    history: seq<Item>,
    recentUtterances: seq<string>,
    summaries: seq<(string, string)>,
    calendar: seq<(string, string)>,
    status: Option<Status>,
    candidates: seq<Candidate>)

  datatype Role = System | User | Assistant

  datatype Message = Message(role: Role, content: string)

  const SYSTEM := "SYSTEM:"
  const INSTRUCTION := "INSTRUCTION:"
  const TRANSCRIPT := "SESSION_TRANSCRIPT:"
  const RUNTIME := "RUNTIME_CONTEXT:"
  const RECALL := "VOLATILE_RECALL:"

  const IDENTITY := "あなたは「トモコ」。ユーザーと同じ部屋にいる日本語の音声パートナー。\n"
  const SPOKEN := "出力はそのまま音声合成で読み上げられる。話し言葉だけで返し、"
  const NO_SYMBOLS := "箇条書き・記号・絵文字・英語の混在は使わない。\n"
  const SENTENCES := "一文は短めにして、文末は必ず「。」「！」「？」のどれかで区切る。\n"
  const CONTENT_FIRST := "質問には最初の一文から中身のある答えを言う。前置きや相槌だけで終わらせない。\n"
  const HONESTY := "知らないこと・できないことは正直にそう言う。"
  const DEFAULT_SYSTEM_HEADER := IDENTITY + SPOKEN + NO_SYMBOLS + SENTENCES + CONTENT_FIRST + HONESTY

  const ORDER := "次のtomoko発話だけ返す。"
  const FIRST_SENTENCE := "最初の一文は短く、聞かれたことの要点から先に答える。"
  const REST := "続きの文で少し詳しく足して、全体で2〜4文。"
  const SMALL_TALK := "軽い雑談や言いかけには一文で短く返す。"
  const MAIN_REPLY_INSTRUCTION := ORDER + FIRST_SENTENCE + REST + SMALL_TALK

  // ----- the printer -----

  function Lower(s: string): string {
    seq(|s|, i requires 0 <= i < |s| => if 'A' <= s[i] <= 'Z' then s[i] - 'A' + 'a' else s[i])
  }

  predicate IsClockQuestion(text: string) {
    Find(text, "何時").Some? || Find(text, "いま何時").Some? || Find(Lower(text), "what time").Some?
  }

  function SummaryLines(items: seq<(string, string)>): seq<string> {
    seq(|items|, i requires 0 <= i < |items| => "summary[" + items[i].0 + "]=" + items[i].1)
  }

  function CalendarLines(items: seq<(string, string)>): seq<string> {
    seq(|items|, i requires 0 <= i < |items| => "calendar[" + items[i].0 + "]=" + items[i].1)
  }

  function StatusLines(status: Option<Status>): seq<string> {
    if status.None? then []
    else ["user_status=" + status.value.activity]
         + if status.value.summary != "" then ["user_status_summary=" + status.value.summary] else []
  }

  function RuntimeLines(s: Snapshot, current: string): seq<string> {
    SummaryLines(s.summaries)
    + (if IsClockQuestion(current) then [] else CalendarLines(s.calendar))
    + StatusLines(s.status)
  }

  function CandidateLines(candidates: seq<Candidate>): seq<string> {
    if candidates == [] then []
    else
      var c := candidates[0];
      (if c.active then ["candidate[" + c.source + ":" + c.sourceKey + "]=" + c.text] else [])
      + CandidateLines(candidates[1..])
  }

  function RuntimeContext(s: Snapshot, current: string): string { JoinLines(RuntimeLines(s, current)) }

  function Recall(s: Snapshot): string { JoinLines(CandidateLines(s.candidates)) }

  /** The turns shown: the history, or else the recent utterances as if the user had said them. */
  function Shown(s: Snapshot): seq<Item> {
    if s.history != [] then s.history
    else seq(|s.recentUtterances|, i requires 0 <= i < |s.recentUtterances| => Item("user", s.recentUtterances[i]))
  }

  function ItemLine(item: Item): string {
    (if item.speaker == "tomoko" then "tomoko" else "user") + ": " + item.text
  }

  function ItemLines(items: seq<Item>): seq<string> {
    seq(|items|, i requires 0 <= i < |items| => ItemLine(items[i]))
  }

  function Transcript(s: Snapshot, current: string): string {
    JoinLines(ItemLines(Shown(s) + [Item("user", current)]))
  }

  /** A section with its heading on the lines below what stands so far, if there is anything in it. */
  function Section(heading: string, body: string): string {
    if body == "" then "" else "\n" + heading + ("\n" + body)
  }

  function Sections(header: string, tail: string): string {
    SYSTEM + "\n"
    + (header + "\n" + (INSTRUCTION + "\n" + (MAIN_REPLY_INSTRUCTION + "\n" + (TRANSCRIPT + "\n" + tail))))
  }

  function BuildMainReply(header: string, s: Snapshot, current: string): string {
    Sections(header, Transcript(s, current) + Section(RUNTIME, RuntimeContext(s, current)) + Section(RECALL, Recall(s)))
  }

  // ----- the parser -----

  /** `text.split(marker, 1)`, when the marker occurs. */
  function Before(text: string, marker: string): string
    requires Find(text, marker).Some?
  {
    text[..Find(text, marker).value]
  }

  function After(text: string, marker: string): string
    requires Find(text, marker).Some?
  {
    text[Find(text, marker).value + |marker|..]
  }

  function SectionBetween(text: string, start: string, stop: string): string {
    if Find(text, start).None? then ""
    else
      var tail := After(text, start);
      if Find(tail, stop).Some? then Strip(Before(tail, stop)) else Strip(tail)
  }

  function SplitMarker(text: string, marker: string): (string, string) {
    if Find(text, "\n" + marker).None? then (text, "")
    else (Before(text, "\n" + marker), Strip(After(text, "\n" + marker)))
  }

  /** Transcript, runtime context and recall of what follows the transcript's heading. */
  function SplitTrailing(tail: string): (string, string, string) {
    var (rest, recall) := SplitMarker(tail, RECALL);
    var (transcript, runtime) := SplitMarker(rest, RUNTIME);
    (Strip(transcript), Strip(runtime), Strip(recall))
  }

  function SystemContent(system: string, instruction: string): string {
    JoinLines((if Strip(system) != "" then [Strip(system)] else [])
              + (if Strip(instruction) != "" then [Strip(instruction)] else []))
  }

  function LineTurns(line: string): seq<Message> {
    if "user: " <= line then [Message(User, line[6..])]
    else if "tomoko: " <= line then [Message(Assistant, line[8..])]
    else []
  }

  function Turns(lines: seq<string>): (r: seq<Message>) {
    if lines == [] then [] else Turns(lines[..|lines| - 1]) + LineTurns(lines[|lines| - 1])
  }

  function TrailingContext(runtime: string, recall: string): string {
    JoinLines((if runtime != "" then [RUNTIME, runtime] else []) + (if recall != "" then [RECALL, recall] else []))
  }

  function WithContext(content: string, context: string): string {
    if context == "" then content else content + "\n\n" + context
  }

  /** The chat messages of a prompt, or none when it is not of the transcript form. */
  function ParseMessages(prompt: string): Option<seq<Message>> {
    if Find(prompt, TRANSCRIPT).None? || Find(prompt, SYSTEM).None? then None
    else
      var system :=
        SystemContent(SectionBetween(prompt, SYSTEM, INSTRUCTION), SectionBetween(prompt, INSTRUCTION, TRANSCRIPT));
      var (transcript, runtime, recall) := SplitTrailing(Strip(After(prompt, TRANSCRIPT)));
      Finish(system, Turns(Lines(transcript)), TrailingContext(runtime, recall))
  }

  function Finish(system: string, turns: seq<Message>, context: string): Option<seq<Message>> {
    if turns == [] || turns[|turns| - 1].role != User then None
    else Some([Message(System, system)] + turns[..|turns| - 1]
              + [Message(User, WithContext(turns[|turns| - 1].content, context))])
  }

  lemma FinishRewrites(system: string, turns: seq<Message>, context: string)
    ensures var messages := [Message(System, system)] + turns;
            var last := |messages| - 1;
            Finish(system, turns, context)
            == if |messages| <= 1 || messages[last].role != User then None
               else if context == "" then Some(messages)
               else Some(messages[last := Message(User, messages[last].content + "\n\n" + context)])
  {
    if turns != [] {
      var n := |turns| - 1;
      var front := [Message(System, system)] + turns[..n];
      var m := Message(User, WithContext(turns[n].content, context));
      assert [Message(System, system)] + turns == front + [turns[n]];
      assert turns[n].role == User ==> Finish(system, turns, context) == Some(front + [m]);
      assert (front + [turns[n]])[n + 1 := m] == front + [m];
      assert context == "" && turns[n].role == User ==> m == turns[n];
    }
  }

  /** `_session_transcript_messages`: appends to the message list in a loop and rewrites its last entry. */
  method SessionTranscriptMessages(prompt: string) returns (result: Option<seq<Message>>)
    ensures result == ParseMessages(prompt)
  {
    hide Lines, Find, Strip, SectionBetween, SplitTrailing, SystemContent, TrailingContext, Finish;
    if Find(prompt, TRANSCRIPT).None? || Find(prompt, SYSTEM).None? {
      return None;
    }
    var system :=
      SystemContent(SectionBetween(prompt, SYSTEM, INSTRUCTION), SectionBetween(prompt, INSTRUCTION, TRANSCRIPT));
    var (transcript, runtime, recall) := SplitTrailing(Strip(After(prompt, TRANSCRIPT)));
    var messages := AppendTurns(system, Lines(transcript));
    var context := TrailingContext(runtime, recall);
    FinishRewrites(system, Turns(Lines(transcript)), context);
    var last := |messages| - 1;
    if |messages| <= 1 || messages[last].role != User {
      return None;
    }
    if context != "" {
      messages := messages[last := Message(User, messages[last].content + "\n\n" + context)];
    }
    result := Some(messages);
  }

  /** The loop over the transcript's lines. */
  method AppendTurns(system: string, lines: seq<string>) returns (messages: seq<Message>)
    ensures messages == [Message(System, system)] + Turns(lines)
  {
    messages := [Message(System, system)];
    for i := 0 to |lines|
      invariant messages == [Message(System, system)] + Turns(lines[..i])
    {
      assert lines[..i + 1][..i] == lines[..i];
      if "user: " <= lines[i] {
        messages := messages + [Message(User, lines[i][6..])];
      } else if "tomoko: " <= lines[i] {
        messages := messages + [Message(Assistant, lines[i][8..])];
      }
    }
    assert lines[..|lines|] == lines;
  }

  // ----- the sections come apart again -----

  ghost predicate CleanHeader(header: string) { !Contains(header, INSTRUCTION) && !Contains(header, TRANSCRIPT) }

  lemma MarkerLetters(s: string, p: string)
    requires Contains(s, p)
    ensures forall c :: c in p ==> c in s
  {
    var i: nat :| At(s, p, i);
    AtChars(s, p, i);
    forall c | c in p ensures c in s {
      var k :| 0 <= k < |p| && p[k] == c;
      assert s[i + k] == c;
    }
  }

  lemma LacksMarker(s: string, p: string, c: char)
    requires c in p && c !in s
    ensures !Contains(s, p)
  {
    hide Contains;
    if Contains(s, p) {
      MarkerLetters(s, p);
    }
  }

  lemma OrderIsClean()
    ensures ORDER != "" && !IsSpace(ORDER[0]) && 'S' !in ORDER
  {
  }

  lemma FirstSentenceIsClean()
    ensures 'S' !in FIRST_SENTENCE
  {
  }

  lemma RestIsClean()
    ensures 'S' !in REST
  {
  }

  lemma SmallTalkIsClean()
    ensures SMALL_TALK != "" && !IsSpace(SMALL_TALK[|SMALL_TALK| - 1]) && 'S' !in SMALL_TALK
  {
    assert |SMALL_TALK| == 19;
  }

  lemma InstructionIsClean()
    ensures !Contains(MAIN_REPLY_INSTRUCTION, INSTRUCTION) && !Contains(MAIN_REPLY_INSTRUCTION, TRANSCRIPT)
    ensures MAIN_REPLY_INSTRUCTION != "" && Strip(MAIN_REPLY_INSTRUCTION) == MAIN_REPLY_INSTRUCTION
  {
    hide ORDER, FIRST_SENTENCE, REST, SMALL_TALK, Strip;
    OrderIsClean();
    FirstSentenceIsClean();
    RestIsClean();
    SmallTalkIsClean();
    var s := MAIN_REPLY_INSTRUCTION;
    assert s[0] == ORDER[0] && s[|s| - 1] == SMALL_TALK[|SMALL_TALK| - 1];
    LacksMarker(s, INSTRUCTION, 'S');
    LacksMarker(s, TRANSCRIPT, 'S');
    StripTrimmed(s);
  }

  lemma IdentityIsClean()
    ensures 'S' !in IDENTITY && 'S' !in SPOKEN
  {
  }

  lemma StyleIsClean()
    ensures 'S' !in NO_SYMBOLS && 'S' !in SENTENCES
  {
  }

  lemma ContentIsClean()
    ensures 'S' !in CONTENT_FIRST && 'S' !in HONESTY
  {
  }

  lemma DefaultHeaderIsClean()
    ensures CleanHeader(DEFAULT_SYSTEM_HEADER)
  {
    hide IDENTITY, SPOKEN, NO_SYMBOLS, SENTENCES, CONTENT_FIRST, HONESTY, Contains;
    IdentityIsClean();
    StyleIsClean();
    ContentIsClean();
    LacksMarker(DEFAULT_SYSTEM_HEADER, INSTRUCTION, 'S');
    LacksMarker(DEFAULT_SYSTEM_HEADER, TRANSCRIPT, 'S');
  }

  lemma AfterLine(a: string, b: string, p: string, rest: string)
    requires '\n' !in p && p != [] && !Contains(a, p) && b == p + rest
    ensures var s := a + "\n" + b;
            Find(s, p) == Some(|a| + 1) && Before(s, p) == a + "\n" && After(s, p) == rest
  {
    hide Find;
    FindAfterLine(a, b, p);
  }

  lemma BetweenLines(a: string, p: string, body: string, q: string, rest: string)
    requires '\n' !in p && p != [] && '\n' !in q && q != [] && !Contains(a, p) && !Contains(body, q)
    ensures SectionBetween(a + "\n" + (p + "\n" + (body + "\n" + (q + rest))), p, q) == Strip(body)
  {
    hide Find, Strip;
    var tail := "\n" + (body + "\n" + (q + rest));
    assert p + "\n" + (body + "\n" + (q + rest)) == p + tail;
    AfterLine(a, p + tail, p, tail);
    LacksMarker("", q, q[0]);
    ContainsLines("", body, q);
    assert "" + "\n" + body == "\n" + body;
    assert tail == ("\n" + body) + "\n" + (q + rest);
    AfterLine("\n" + body, q + rest, q, rest);
    assert "\n" + body + "\n" == "\n" + body + "\n";
    StripPadded("\n", body, "\n");
  }

  lemma FirstSection(start: string, header: string, stop: string, rest: string)
    requires '\n' !in stop && stop != [] && !Contains(header, stop)
    ensures var s := start + "\n" + (header + "\n" + (stop + rest));
            Find(s, start).Some? && SectionBetween(s, start, stop) == Strip(header)
  {
    hide Find, Strip;
    var tail := "\n" + (header + "\n" + (stop + rest));
    var s := start + "\n" + (header + "\n" + (stop + rest));
    assert s == start + tail;
    assert s[0..0 + |start|] == start;
    FindIs(s, start, 0);
    assert After(s, start) == tail;
    LacksMarker("", stop, stop[0]);
    ContainsLines("", header, stop);
    assert "" + "\n" + header == "\n" + header;
    assert tail == ("\n" + header) + "\n" + (stop + rest);
    AfterLine("\n" + header, stop + rest, stop, rest);
    StripPadded("\n", header, "\n");
  }

  lemma MarkersDiffer()
    ensures SYSTEM != [] && INSTRUCTION != [] && TRANSCRIPT != []
    ensures '\n' !in SYSTEM && '\n' !in INSTRUCTION && '\n' !in TRANSCRIPT
    ensures !Contains(SYSTEM, INSTRUCTION) && !Contains(SYSTEM, TRANSCRIPT) && !Contains(INSTRUCTION, TRANSCRIPT)
  {
    hide Contains;
    LacksMarker(SYSTEM, INSTRUCTION, 'I');
    LacksMarker(SYSTEM, TRANSCRIPT, 'R');
    LacksMarker(INSTRUCTION, TRANSCRIPT, 'E');
  }

  lemma {:induction false} SystemSection(header: string, tail: string)
    requires CleanHeader(header)
    ensures Find(Sections(header, tail), SYSTEM).Some?
    ensures SectionBetween(Sections(header, tail), SYSTEM, INSTRUCTION) == Strip(header)
  {
    hide SYSTEM, INSTRUCTION, TRANSCRIPT, MAIN_REPLY_INSTRUCTION, Find, Strip, SectionBetween, Contains;
    MarkersDiffer();
    var rest := "\n" + (MAIN_REPLY_INSTRUCTION + "\n" + (TRANSCRIPT + "\n" + tail));
    FirstSection(SYSTEM, header, INSTRUCTION, rest);
    assert INSTRUCTION + rest == INSTRUCTION + "\n" + (MAIN_REPLY_INSTRUCTION + "\n" + (TRANSCRIPT + "\n" + tail));
  }

  lemma {:induction false} InstructionSection(header: string, tail: string)
    requires CleanHeader(header)
    ensures SectionBetween(Sections(header, tail), INSTRUCTION, TRANSCRIPT) == MAIN_REPLY_INSTRUCTION
  {
    hide SYSTEM, INSTRUCTION, TRANSCRIPT, MAIN_REPLY_INSTRUCTION, Find, Strip, SectionBetween, Contains;
    MarkersDiffer();
    InstructionIsClean();
    var a := SYSTEM + "\n" + header;
    ContainsLines(SYSTEM, header, INSTRUCTION);
    var from := TRANSCRIPT + ("\n" + tail);
    assert from == TRANSCRIPT + "\n" + tail;
    var rest := INSTRUCTION + "\n" + (MAIN_REPLY_INSTRUCTION + "\n" + from);
    assert SYSTEM + "\n" + (header + "\n" + rest) == a + "\n" + rest;
    BetweenLines(a, INSTRUCTION, MAIN_REPLY_INSTRUCTION, TRANSCRIPT, "\n" + tail);
  }

  lemma FrontIsClean(header: string)
    requires CleanHeader(header)
    ensures !Contains(SYSTEM + "\n" + header + "\n" + INSTRUCTION + "\n" + MAIN_REPLY_INSTRUCTION, TRANSCRIPT)
  {
    hide SYSTEM, INSTRUCTION, TRANSCRIPT, MAIN_REPLY_INSTRUCTION, Strip, Contains;
    MarkersDiffer();
    InstructionIsClean();
    ContainsLines(SYSTEM, header, TRANSCRIPT);
    ContainsLines(SYSTEM + "\n" + header, INSTRUCTION, TRANSCRIPT);
    ContainsLines(SYSTEM + "\n" + header + "\n" + INSTRUCTION, MAIN_REPLY_INSTRUCTION, TRANSCRIPT);
  }

  lemma TranscriptSection(header: string, tail: string)
    requires CleanHeader(header)
    ensures Find(Sections(header, tail), TRANSCRIPT).Some? && After(Sections(header, tail), TRANSCRIPT) == "\n" + tail
  {
    hide SYSTEM, INSTRUCTION, TRANSCRIPT, MAIN_REPLY_INSTRUCTION, Find, Contains, CleanHeader;
    MarkersDiffer();
    FrontIsClean(header);
    var from := TRANSCRIPT + ("\n" + tail);
    assert from == TRANSCRIPT + "\n" + tail;
    var a := SYSTEM + "\n" + header + "\n" + INSTRUCTION + "\n" + MAIN_REPLY_INSTRUCTION;
    assert Sections(header, tail) == a + "\n" + from;
    AfterLine(a, from, TRANSCRIPT, "\n" + tail);
  }

  // ----- the contexts come apart again -----

  lemma Stripped(s: string)
    requires Trimmed(s)
    ensures Strip(s) == s
  {
    StripTrimmed(s);
  }

  /** A marker section at the end of a text. */
  lemma SplitLast(text: string, marker: string, body: string)
    requires '\n' !in marker && !HasLine(text, marker) && Trimmed(body)
    ensures SplitMarker(text + Section(marker, body), marker) == (text, body)
  {
    hide Find, Strip, HasLine;
    if body == "" {
      assert text + "" == text;
      FindNoMarker(text, marker);
    } else {
      FindMarker(text, marker, "\n" + body);
      var s := text + ("\n" + marker) + ("\n" + body);
      assert text + Section(marker, body) == s;
      assert After(s, "\n" + marker) == "\n" + body;
      assert "\n" + body + "" == "\n" + body;
      StripPadded("\n", body, "");
      Stripped(body);
    }
  }

  ghost predicate TidyContexts(runtime: string, recall: string) {
    Trimmed(runtime) && Trimmed(recall) && !HasLine(runtime, RECALL)
  }

  lemma NoRecallBefore(t: string, runtime: string)
    requires !HasLine(t, RECALL) && !HasLine(runtime, RECALL)
    ensures !HasLine(t + Section(RUNTIME, runtime), RECALL)
  {
    hide HasLine;
    if runtime == "" {
      assert t + Section(RUNTIME, runtime) == t;
    } else {
      assert RUNTIME[0] == 'R' && RECALL[0] == 'V';
      NoLineSingle(RUNTIME, RECALL);
      NoLineAcross(RUNTIME, runtime, RECALL);
      NoLineAcross(t, RUNTIME + "\n" + runtime, RECALL);
      assert t + Section(RUNTIME, runtime) == t + "\n" + (RUNTIME + "\n" + runtime);
    }
  }

  /** What follows the transcript's heading, stripped: the transcript is touched only when no context follows it. */
  lemma TailStripped(t: string, runtime: string, recall: string)
    requires t != "" && !IsSpace(t[0]) && Trimmed(runtime) && Trimmed(recall)
    ensures Strip("\n" + (t + Section(RUNTIME, runtime) + Section(RECALL, recall)))
         == if runtime == "" && recall == "" then Strip(t) else t + Section(RUNTIME, runtime) + Section(RECALL, recall)
  {
    hide Strip;
    var x := t + Section(RUNTIME, runtime) + Section(RECALL, recall);
    assert "\n" + x + "" == "\n" + x;
    StripPadded("\n", x, "");
    if runtime == "" && recall == "" {
      assert x == t;
    } else {
      assert x[0] == t[0];
      assert recall != "" ==> x[|x| - 1] == recall[|recall| - 1];
      assert recall == "" ==> x[|x| - 1] == runtime[|runtime| - 1];
      Stripped(x);
    }
  }

  lemma StripPrefix(t: string)
    requires t != "" && !IsSpace(t[0])
    ensures Strip(t) <= t && Strip(Strip(t)) == Strip(t)
  {
    StripTrimmed(Strip(t));
    assert LStrip(t) == t;
    hide LStrip, RStrip;
  }

  lemma {:induction false} ContextsSplit(t: string, runtime: string, recall: string)
    requires t != "" && !IsSpace(t[0]) && !HasLine(t, RECALL) && !HasLine(t, RUNTIME)
    requires TidyContexts(runtime, recall)
    ensures SplitTrailing(Strip("\n" + (t + Section(RUNTIME, runtime) + Section(RECALL, recall))))
         == (Strip(t), runtime, recall)
  {
    hide Strip, HasLine, SplitMarker, Section;
    TailStripped(t, runtime, recall);
    StripPrefix(t);
    Stripped(runtime);
    Stripped(recall);
    if runtime == "" && recall == "" {
      var u := Strip(t);
      assert t == u + t[|u|..];
      NoLinePrefix(u, t[|u|..], RECALL);
      NoLinePrefix(u, t[|u|..], RUNTIME);
      NoSections(u);
      SplitLast(u, RECALL, "");
      SplitLast(u, RUNTIME, "");
    } else {
      NoRecallBefore(t, runtime);
      SplitLast(t + Section(RUNTIME, runtime), RECALL, recall);
      SplitLast(t, RUNTIME, runtime);
    }
  }

  lemma NoSections(t: string)
    ensures t + Section(RUNTIME, "") == t && t + Section(RECALL, "") == t
  {
  }

  // ----- the transcript comes apart again -----

  /** The transcript's last line once stripped: a blank utterance leaves only the speaker. */
  function LastLine(current: string): string {
    if Blank(current) then "user:" else "user: " + RStrip(current)
  }

  lemma LastLineStripped(current: string)
    ensures RStrip("user: " + current) == LastLine(current)
  {
    hide RStrip;
    if Blank(current) {
      assert "user: " + current == "user:" + (" " + current);
      RStripPadded("user:", " " + current);
      RStripInked("user:");
    } else {
      RStripConcat("user: ", current);
    }
  }

  lemma RStripInked(s: string)
    requires s != "" && !IsSpace(s[|s| - 1])
    ensures RStrip(s) == s
  {
  }

  lemma ItemLinesSnoc(items: seq<Item>, item: Item)
    ensures ItemLines(items + [item]) == ItemLines(items) + [ItemLine(item)]
  {
  }

  /** Every item line starts with its speaker. */
  lemma ItemLineStart(item: Item)
    ensures var line := ItemLine(item);
            line != "" && !IsSpace(line[0]) && !(RECALL <= line) && !(RUNTIME <= line)
  {
    assert ItemLine(item)[0] == 't' || ItemLine(item)[0] == 'u';
    assert RECALL[0] == 'V' && RUNTIME[0] == 'R';
  }

  lemma TranscriptStripped(items: seq<Item>, current: string)
    ensures var t := JoinLines(ItemLines(items + [Item("user", current)]));
            && t != "" && !IsSpace(t[0])
            && Strip(t) == JoinLines(ItemLines(items) + [LastLine(current)])
  {
    hide RStrip, LStrip, IsSpace, LastLine;
    var front, last := ItemLines(items), "user: " + current;
    ItemLinesSnoc(items, Item("user", current));
    assert ItemLine(Item("user", current)) == last;
    LastLineStripped(current);
    LStripStart(JoinLines(front + [last]), front, last, items);
    if front == [] {
      assert front + [last] == [last] && front + [LastLine(current)] == [LastLine(current)];
    } else {
      JoinSnoc(front, last);
      JoinSnoc(front, LastLine(current));
      assert !Blank(last) by { assert last[0] == 'u'; UIsInk(); }
      RStripConcat(JoinLines(front) + "\n", last);
    }
  }

  lemma UIsInk()
    ensures !IsSpace('u')
  {
  }

  lemma LStripStart(t: string, front: seq<string>, last: string, items: seq<Item>)
    requires front == ItemLines(items) && "user: " <= last && t == JoinLines(front + [last])
    ensures t != "" && !IsSpace(t[0]) && LStrip(t) == t
  {
    if front != [] {
      ItemLineStart(items[0]);
      assert front[0] == ItemLine(items[0]);
    }
    JoinEnds(front + [last]);
  }

  function ItemMessage(item: Item): Message {
    Message(if item.speaker == "tomoko" then Assistant else User, item.text)
  }

  function ItemMessages(items: seq<Item>): seq<Message> {
    seq(|items|, i requires 0 <= i < |items| => ItemMessage(items[i]))
  }

  lemma LineTurnsOfItem(item: Item)
    ensures LineTurns(ItemLine(item)) == [ItemMessage(item)]
  {
    var line := ItemLine(item);
    if item.speaker == "tomoko" {
      assert line == "tomoko: " + item.text;
      assert line[0] == 't';
    } else {
      assert line == "user: " + item.text;
    }
  }

  lemma {:induction false} TurnsOfItems(items: seq<Item>)
    ensures Turns(ItemLines(items)) == ItemMessages(items)
  {
    hide LineTurns, ItemLine, ItemMessage;
    if items != [] {
      var n := |items| - 1;
      assert ItemLines(items)[..n] == ItemLines(items[..n]);
      TurnsOfItems(items[..n]);
      LineTurnsOfItem(items[n]);
    }
  }

  ghost predicate SingleLines(items: seq<Item>) { forall i :: 0 <= i < |items| ==> SingleLine(items[i].text) }

  lemma ItemLineSingle(item: Item)
    requires SingleLine(item.text)
    ensures SingleLine(ItemLine(item)) && '\n' !in ItemLine(item)
  {
    var who := (if item.speaker == "tomoko" then "tomoko" else "user") + ": ";
    assert SingleLine(who);
    assert ItemLine(item) == who + item.text;
    SingleConcat(who, item.text);
    SingleNoFeed(ItemLine(item));
  }

  lemma SingleConcat(a: string, b: string)
    requires SingleLine(a) && SingleLine(b)
    ensures SingleLine(a + b)
  {
  }

  lemma SingleNoFeed(s: string)
    requires SingleLine(s)
    ensures '\n' !in s
  {
    assert IsBreak('\n');
  }

  lemma NoMarkersInTranscript(items: seq<Item>)
    requires SingleLines(items)
    ensures !HasLine(JoinLines(ItemLines(items)), RECALL) && !HasLine(JoinLines(ItemLines(items)), RUNTIME)
  {
    hide ItemLine, SingleLine, HasLine, RECALL, RUNTIME;
    forall i | 0 <= i < |items|
      ensures '\n' !in ItemLine(items[i]) && !(RECALL <= ItemLine(items[i])) && !(RUNTIME <= ItemLine(items[i]))
    {
      ItemLineStart(items[i]);
      ItemLineSingle(items[i]);
    }
    MarkersAreLines();
    NoLineJoined(ItemLines(items), RECALL);
    NoLineJoined(ItemLines(items), RUNTIME);
  }

  lemma MarkersAreLines()
    ensures RECALL != "" && '\n' !in RECALL && RUNTIME != "" && '\n' !in RUNTIME
  {
  }

  lemma LastLineTurns(current: string)
    ensures LineTurns(LastLine(current)) == if Blank(current) then [] else [Message(User, RStrip(current))]
  {
    hide RStrip;
    if Blank(current) {
      assert LastLine(current) == "user:";
    }
  }

  lemma LastLineSingle(current: string)
    requires SingleLine(current)
    ensures SingleLine(LastLine(current)) && LastLine(current) != ""
  {
    hide IsSpace;
    assert SingleLine("user: ") && SingleLine("user:");
    if !Blank(current) {
      var r := RStrip(current);
      assert r <= current;
      hide RStrip;
      assert forall i :: 0 <= i < |r| ==> r[i] == current[i];
      SingleConcat("user: ", r);
    }
  }

  lemma TurnsParsed(items: seq<Item>, current: string)
    requires SingleLines(items) && SingleLine(current)
    ensures var t := JoinLines(ItemLines(items) + [LastLine(current)]);
            Turns(Lines(t)) == ItemMessages(items) + if Blank(current) then [] else [Message(User, RStrip(current))]
  {
    hide LineTurns, LastLine, ItemLine, SingleLine, Lines, RStrip, IsSpace;
    var lines := ItemLines(items) + [LastLine(current)];
    LastLineSingle(current);
    forall i | 0 <= i < |items| ensures SingleLine(ItemLine(items[i])) {
      ItemLineSingle(items[i]);
    }
    LinesOfJoin(lines);
    assert lines[..|lines| - 1] == ItemLines(items);
    TurnsOfItems(items);
    LastLineTurns(current);
  }

  // ----- the round trip -----

  function ExpectedSystem(header: string): string {
    if Strip(header) == "" then MAIN_REPLY_INSTRUCTION else Strip(header) + "\n" + MAIN_REPLY_INSTRUCTION
  }

  /** One system message, the turns with tomoko as the assistant, and the utterance with the contexts appended. */
  function Composed(header: string, s: Snapshot, current: string): seq<Message> {
    [Message(System, ExpectedSystem(header))] + ItemMessages(Shown(s))
    + [Message(User, WithContext(current, TrailingContext(RuntimeContext(s, current), Recall(s))))]
  }

  lemma JoinTwo(a: string, b: string)
    ensures JoinLines([b]) == b && JoinLines([a, b]) == a + "\n" + b
  {
    assert [a, b][1..] == [b];
  }

  lemma SystemParsed(header: string)
    ensures SystemContent(Strip(header), MAIN_REPLY_INSTRUCTION) == ExpectedSystem(header)
  {
    hide Strip, JoinLines, MAIN_REPLY_INSTRUCTION;
    InstructionIsClean();
    StripTrimmed(Strip(header));
    JoinTwo(Strip(header), MAIN_REPLY_INSTRUCTION);
    var none: seq<string> := [];
    assert none + [MAIN_REPLY_INSTRUCTION] == [MAIN_REPLY_INSTRUCTION];
    assert [Strip(header)] + [MAIN_REPLY_INSTRUCTION] == [Strip(header), MAIN_REPLY_INSTRUCTION];
  }

  /** The system message: both sections on their own lines, or the one that is not blank, or nothing. */
  lemma SystemIs(system: string, instruction: string, s: string, i: string)
    requires Trims(system, s) && Trims(instruction, i)
    ensures SystemContent(system, instruction) == if s == "" then i else if i == "" then s else s + "\n" + i
  {
    hide Strip, JoinLines, Trims;
    StripExactly(system, s);
    StripExactly(instruction, i);
    JoinTwo(s, i);
    JoinTwo(i, s);
    JoinNone();
    var none: seq<string> := [];
    if s == "" && i == "" {
      assert none + none == none;
    } else if s == "" {
      assert none + [i] == [i];
    } else if i == "" {
      assert [s] + none == [s];
    } else {
      assert [s] + [i] == [s, i];
    }
  }

  /** A prompt of another form, without an instruction: all that follows the system heading is the system message. */
  lemma WithoutInstruction(prompt: string, before: string, after: string, system: string)
    requires prompt == before + SYSTEM + after && Find(prompt, SYSTEM) == Some(|before|)
    requires !Contains(prompt, INSTRUCTION) && Trims(after, system) && ParseMessages(prompt).Some?
    ensures var messages := ParseMessages(prompt).value; messages != [] && messages[0] == Message(System, system)
  {
    hide Find, Strip, SystemContent, Trims, After, At, ParseMessages, SectionBetween, Contains, SYSTEM, INSTRUCTION,
         TRANSCRIPT;
    StripExactly(after, system);
    RestBehind(prompt, before, SYSTEM, after);
    NoMarkerBehind(before + SYSTEM, after);
    TrimmedTwice(after, system);
    TrimmedTwice("", "");
    SystemIs(system, "", system, "");
    OnlySection(prompt, SYSTEM, INSTRUCTION);
    NoSection(prompt, INSTRUCTION, TRANSCRIPT);
    FirstIsSystem(prompt);
  }

  lemma RestBehind(text: string, before: string, marker: string, after: string)
    requires text == before + marker + after && Find(text, marker) == Some(|before|)
    ensures After(text, marker) == after
  {
    hide Find;
  }

  lemma OnlySection(text: string, start: string, stop: string)
    requires Find(text, start).Some? && Find(After(text, start), stop).None?
    ensures SectionBetween(text, start, stop) == Strip(After(text, start))
  {
  }

  lemma NoSection(text: string, start: string, stop: string)
    requires Find(text, start).None?
    ensures SectionBetween(text, start, stop) == ""
  {
  }

  lemma FirstIsSystem(prompt: string)
    requires ParseMessages(prompt).Some?
    ensures var messages := ParseMessages(prompt).value;
            var system, instruction := SectionBetween(prompt, SYSTEM, INSTRUCTION),
                                       SectionBetween(prompt, INSTRUCTION, TRANSCRIPT);
            messages != [] && messages[0] == Message(System, SystemContent(system, instruction))
  {
    hide Find, Strip, SectionBetween, SystemContent, SplitTrailing, TrailingContext, Lines, Turns, WithContext;
  }

  lemma NoMarkerBehind(a: string, b: string)
    requires !Contains(a + b, INSTRUCTION)
    ensures Find(b, INSTRUCTION).None? && Find(a + b, INSTRUCTION).None?
  {
    hide INSTRUCTION;
    forall i: nat ensures !At(b, INSTRUCTION, i) {
      AtRight(a, b, INSTRUCTION, |a| + i);
    }
  }

  lemma TrimmedTwice(s: string, t: string)
    requires t == "" || Trims(s, t)
    ensures Trims(t, t)
  {
    var nothing: string := "";
    assert t == nothing + t + nothing && Blank(nothing);
  }

  /** What the parser makes of a prompt whose transcript has no line that starts with a context's heading. */
  lemma ParsedOver(header: string, t: string, runtime: string, recall: string)
    requires CleanHeader(header) && TidyContexts(runtime, recall)
    requires t != "" && !IsSpace(t[0]) && !HasLine(t, RECALL) && !HasLine(t, RUNTIME)
    ensures ParseMessages(Sections(header, t + Section(RUNTIME, runtime) + Section(RECALL, recall)))
         == Finish(ExpectedSystem(header), Turns(Lines(Strip(t))), TrailingContext(runtime, recall))
  {
    hide MAIN_REPLY_INSTRUCTION, Find, Strip, SectionBetween, SystemContent, ExpectedSystem, SplitTrailing,
         TrailingContext, Finish, Lines, Turns, CleanHeader, TidyContexts, HasLine, Sections, Section, IsSpace;
    var tail := t + Section(RUNTIME, runtime) + Section(RECALL, recall);
    SystemSection(header, tail);
    InstructionSection(header, tail);
    TranscriptSection(header, tail);
    SystemParsed(header);
    ContextsSplit(t, runtime, recall);
  }

  /** What the parser makes of a built prompt, once the utterances are single lines. */
  lemma Parsed(header: string, s: Snapshot, current: string)
    requires CleanHeader(header) && TidyContexts(RuntimeContext(s, current), Recall(s))
    requires SingleLines(Shown(s)) && SingleLine(current)
    ensures ParseMessages(BuildMainReply(header, s, current))
         == Finish(ExpectedSystem(header),
                   ItemMessages(Shown(s)) + (if Blank(current) then [] else [Message(User, RStrip(current))]),
                   TrailingContext(RuntimeContext(s, current), Recall(s)))
  {
    hide Strip, RStrip, ExpectedSystem, ParseMessages, TrailingContext, Finish, Lines, Turns, ItemLines, ItemMessages,
         LastLine, RuntimeContext, Recall, CleanHeader, TidyContexts, HasLine, Sections, Section, IsSpace, JoinLines,
         Shown;
    TranscriptStripped(Shown(s), current);
    NoMarkersInTranscript(Shown(s) + [Item("user", current)]);
    ParsedOver(header, Transcript(s, current), RuntimeContext(s, current), Recall(s));
    TurnsParsed(Shown(s), current);
  }

  /** Whatever the prompt, the parsed turns before the last hold no line break. */
  lemma {:induction false} ParsedTurnsAreSingle(prompt: string, i: nat)
    ensures var r := ParseMessages(prompt);
            r.Some? && 0 < i < |r.value| - 1 ==> SingleLine(r.value[i].content)
  {
    hide Find, Strip, SectionBetween, SystemContent, SplitTrailing, TrailingContext, Lines, Turns, SingleLine,
         WithContext;
    var r := ParseMessages(prompt);
    if r.Some? && 0 < i < |r.value| - 1 {
      var (transcript, runtime, recall) := SplitTrailing(Strip(After(prompt, TRANSCRIPT)));
      LinesAreSingle(transcript);
      TurnsAreSingle(Lines(transcript), i - 1);
    }
  }

  lemma {:induction false} TurnsAreSingle(lines: seq<string>, i: nat)
    requires i < |Turns(lines)| && forall k :: 0 <= k < |lines| ==> SingleLine(lines[k])
    ensures SingleLine(Turns(lines)[i].content)
  {
    var n := |lines| - 1;
    if i < |Turns(lines[..n])| {
      TurnsAreSingle(lines[..n], i);
    } else {
      var line := lines[n];
      assert "user: " <= line ==> forall k :: 0 <= k < |line| - 6 ==> line[6..][k] == line[k + 6];
      assert "tomoko: " <= line ==> forall k :: 0 <= k < |line| - 8 ==> line[8..][k] == line[k + 8];
    }
  }

  lemma RStripFixed(s: string)
    ensures !Blank(s) && RStrip(s) == s <==> s != "" && !IsSpace(s[|s| - 1])
  {
    if s != "" && !IsSpace(s[|s| - 1]) {
      RStripInked(s);
    }
    if Blank(s) {
      RStripBlank(s);
    }
  }

  lemma BrokenTurnIsLost(header: string, s: Snapshot, current: string, i: nat)
    requires i < |Shown(s)| && !SingleLine(Shown(s)[i].text)
    ensures ParseMessages(BuildMainReply(header, s, current)) != Some(Composed(header, s, current))
  {
    hide SingleLine, Shown, ParseMessages, BuildMainReply, TrailingContext, RuntimeContext, Recall, ExpectedSystem,
         WithContext;
    assert Composed(header, s, current)[i + 1] == ItemMessage(Shown(s)[i]);
    if ParseMessages(BuildMainReply(header, s, current)) == Some(Composed(header, s, current)) {
      ParsedTurnsAreSingle(BuildMainReply(header, s, current), i + 1);
    }
  }

  lemma SingleTurnsComeBack(header: string, s: Snapshot, current: string)
    requires CleanHeader(header) && TidyContexts(RuntimeContext(s, current), Recall(s))
    requires SingleLines(Shown(s)) && SingleLine(current)
    ensures ParseMessages(BuildMainReply(header, s, current)) == Some(Composed(header, s, current))
       <==> !Blank(current) && RStrip(current) == current
  {
    hide RStrip, SingleLine, SingleLines, Shown, ParseMessages, BuildMainReply, TrailingContext, RuntimeContext, Recall,
         ExpectedSystem, Blank, IsSpace, Finish, ItemMessages, WithContext, CleanHeader, TidyContexts;
    Parsed(header, s, current);
    FinishGives(ExpectedSystem(header), ItemMessages(Shown(s)), current,
                TrailingContext(RuntimeContext(s, current), Recall(s)));
  }

  // ----- utterances that break a line -----

  /** No line of the text starts with the heading of a context. */
  ghost predicate NoHeadings(text: string) { !HasLine(text, RECALL) && !HasLine(text, RUNTIME) }

  lemma LineIn(word: string, text: string, m: string)
    requires '\n' !in word && HasLine(word + text, m)
    ensures m <= word + text || HasLine(text, m)
  {
    var s, p := "\n" + (word + text), "\n" + m;
    var i: nat :| At(s, p, i);
    AtChars(s, p, i);
    assert s == ("\n" + word) + text && s[i] == '\n';
    assert forall k :: 0 < k <= |word| ==> s[k] == word[k - 1] && s[k] != '\n';
    if i == 0 {
      assert m == p[1..] == s[..|p|][1..] == (word + text)[..|m|];
    } else {
      assert i > |word|;
      AtRight("\n" + word, text, p, i);
      AtRight("\n", text, p, i - |word|);
    }
  }

  lemma AfterWord(word: string, text: string, m: string)
    requires '\n' !in word && !(m <= word + text) && !HasLine(text, m)
    ensures !HasLine(word + text, m)
  {
    hide HasLine;
    if HasLine(word + text, m) {
      LineIn(word, text, m);
    }
  }

  /** Headings in no line of the utterance are headings in no line of the transcript. */
  lemma NoHeadingsInTranscript(items: seq<Item>, current: string)
    requires SingleLines(items) && NoHeadings(current)
    ensures NoHeadings(JoinLines(ItemLines(items + [Item("user", current)])))
  {
    var last := "user: " + current;
    assert last[0] == 'u' && RECALL[0] == 'V' && RUNTIME[0] == 'R' && RECALL != "" && RUNTIME != "";
    AfterWord("user: ", current, RECALL);
    AfterWord("user: ", current, RUNTIME);
    ItemLinesSnoc(items, Item("user", current));
    assert ItemLine(Item("user", current)) == last;
    NoMarkersInTranscript(items);
    hide HasLine, RECALL, RUNTIME, ItemLine;
    if items == [] {
      assert ItemLines(items) + [last] == [last];
    } else {
      JoinSnoc(ItemLines(items), last);
      MarkersAreLines();
      NoLineAcross(JoinLines(ItemLines(items)), last, RECALL);
      NoLineAcross(JoinLines(ItemLines(items)), last, RUNTIME);
    }
  }

  /** A turn parsed from lines cannot give back an utterance that breaks one. */
  lemma BrokenContentIsLost(system: string, lines: seq<string>, items: seq<Message>, current: string, context: string)
    requires forall k :: 0 <= k < |lines| ==> SingleLine(lines[k])
    requires !SingleLine(current)
    ensures Finish(system, Turns(lines), context)
         != Some([Message(System, system)] + items + [Message(User, WithContext(current, context))])
  {
    var turns := Turns(lines);
    hide Turns, SingleLine, WithContext;
    if turns != [] && turns[|turns| - 1].role == User {
      var last := turns[|turns| - 1].content;
      TurnsAreSingle(lines, |turns| - 1);
      WithContextInjective(last, current, context);
      var got := [Message(System, system)] + turns[..|turns| - 1] + [Message(User, WithContext(last, context))];
      var want := [Message(System, system)] + items + [Message(User, WithContext(current, context))];
      assert Finish(system, turns, context) == Some(got);
      assert got[|got| - 1] == Message(User, WithContext(last, context));
      assert want[|want| - 1] == Message(User, WithContext(current, context));
      assert last != current;
    }
  }

  lemma WithContextInjective(a: string, b: string, context: string)
    ensures WithContext(a, context) == WithContext(b, context) ==> a == b
  {
    if context != "" && WithContext(a, context) == WithContext(b, context) {
      var x, y := WithContext(a, context), WithContext(b, context);
      assert |a| == |b| && a == x[..|a|] && b == y[..|b|];
    }
  }

  lemma BrokenUtteranceIsLost(header: string, s: Snapshot, current: string)
    requires CleanHeader(header) && TidyContexts(RuntimeContext(s, current), Recall(s))
    requires SingleLines(Shown(s)) && !SingleLine(current) && NoHeadings(current)
    ensures ParseMessages(BuildMainReply(header, s, current)) != Some(Composed(header, s, current))
  {
    hide Strip, RStrip, ExpectedSystem, ParseMessages, TrailingContext, Finish, Lines, Turns, ItemLines, ItemMessages,
         LastLine, RuntimeContext, Recall, CleanHeader, TidyContexts, HasLine, Sections, Section, IsSpace, JoinLines,
         Shown, SingleLine, WithContext;
    var t := Transcript(s, current);
    TranscriptStripped(Shown(s), current);
    NoHeadingsInTranscript(Shown(s), current);
    ParsedOver(header, t, RuntimeContext(s, current), Recall(s));
    LinesAreSingle(Strip(t));
    BrokenContentIsLost(ExpectedSystem(header), Lines(Strip(t)), ItemMessages(Shown(s)), current,
                        TrailingContext(RuntimeContext(s, current), Recall(s)));
  }

  lemma HeadedComesApart(header: string, s: Snapshot, first: string, body: string)
    requires var current := first + "\n\n" + RUNTIME + "\n" + body;
             CleanHeader(header) && RuntimeContext(s, current) == "" && Recall(s) == ""
    requires SingleLines(Shown(s)) && SingleLine(first) && first != "" && !IsSpace(first[|first| - 1])
    requires body != "" && TidyContexts(body, "")
    ensures var current := first + "\n\n" + RUNTIME + "\n" + body;
            ParseMessages(BuildMainReply(header, s, current)) == Some(Composed(header, s, current))
  {
    var current := first + "\n\n" + RUNTIME + "\n" + body;
    var t := JoinLines(ItemLines(Shown(s) + [Item("user", first)]));
    hide Strip, RStrip, ExpectedSystem, ParseMessages, Finish, Lines, Turns, ItemLines, ItemMessages, IsSpace, Blank,
         LastLine, RuntimeContext, Recall, CleanHeader, TidyContexts, HasLine, Sections, JoinLines, Shown, SingleLine;
    HeadedTranscript(Shown(s), first, body);
    TranscriptStripped(Shown(s), first);
    NoMarkersInTranscript(Shown(s) + [Item("user", first)]) by { SinglesWith(Shown(s), first); }
    LineFeedBehind(t);
    assert t + "\n" + Section(RUNTIME, body) + Section(RECALL, "") == Transcript(s, current);
    assert Transcript(s, current) + Section(RUNTIME, "") + Section(RECALL, "") == Transcript(s, current);
    ParsedOver(header, t + "\n", body, "");
    TurnsParsed(Shown(s), first);
    RStripFixed(first);
    hide Section;
    HeadedContexts(first, body);
    FinishGives(ExpectedSystem(header), ItemMessages(Shown(s)), first, TrailingContext(body, ""));
  }

  lemma SinglesWith(items: seq<Item>, first: string)
    requires SingleLines(items) && SingleLine(first)
    ensures SingleLines(items + [Item("user", first)])
  {
    hide SingleLine;
  }

  lemma HeadedTranscript(items: seq<Item>, first: string, body: string)
    ensures JoinLines(ItemLines(items + [Item("user", first + "\n\n" + RUNTIME + "\n" + body)]))
         == JoinLines(ItemLines(items + [Item("user", first)])) + ("\n\n" + RUNTIME + "\n" + body)
  {
    var rest := "\n\n" + RUNTIME + "\n" + body;
    var long := first + "\n\n" + RUNTIME + "\n" + body;
    assert long == first + rest;
    hide RUNTIME;
    ItemLinesSnoc(items, Item("user", first));
    ItemLinesSnoc(items, Item("user", long));
    assert ItemLine(Item("user", long)) == ItemLine(Item("user", first)) + rest;
    JoinTail(ItemLines(items), ItemLine(Item("user", first)), rest);
  }

  lemma JoinTail(front: seq<string>, last: string, rest: string)
    ensures JoinLines(front + [last + rest]) == JoinLines(front + [last]) + rest
  {
    if front == [] {
      assert front + [last + rest] == [last + rest] && front + [last] == [last];
    } else {
      JoinSnoc(front, last + rest);
      JoinSnoc(front, last);
    }
  }

  lemma LineFeedBehind(t: string)
    requires NoHeadings(t) && t != "" && !IsSpace(t[0])
    ensures NoHeadings(t + "\n") && !IsSpace((t + "\n")[0]) && Strip(t + "\n") == Strip(t)
  {
    NoLineSingle("", RECALL);
    NoLineSingle("", RUNTIME);
    MarkersAreLines();
    assert t + "\n" + "" == t + "\n" && "" + t + "\n" == t + "\n";
    hide HasLine, Strip;
    NoLineAcross(t, "", RECALL);
    NoLineAcross(t, "", RUNTIME);
    StripPadded("", t, "\n");
    StripPadded("", t, "");
  }

  lemma HeadedContexts(first: string, body: string)
    requires body != ""
    ensures TrailingContext("", "") == ""
    ensures TrailingContext(body, "") == RUNTIME + "\n" + body
    ensures WithContext(first, TrailingContext(body, "")) == first + "\n\n" + RUNTIME + "\n" + body
  {
    JoinTwo(RUNTIME, body);
    var none: seq<string> := [];
    assert [RUNTIME, body] + none == [RUNTIME, body];
  }

  // ----- what a prompt says, told without the printer or the parser -----

  predicate SameLetter(c: char, lower: char) { c == lower || ('A' <= c <= 'Z' && lower == c - 'A' + 'a') }

  /** The utterance asks for the time in Japanese, or in English with any letters as capitals. */
  ghost predicate AsksTime(text: string) {
    Contains(text, "何時") || exists i: nat :: SpelledAt(text, i, "what time")
  }

  predicate SpelledAt(text: string, i: nat, word: string) {
    i + |word| <= |text| && forall k :: 0 <= k < |word| ==> SameLetter(text[i + k], word[k])
  }

  predicate Keyed(line: string, kind: string, key: string, text: string) {
    line == kind + "[" + key + "]=" + text
  }

  /** One line a summary, one line a calendar item unless the utterance asks for the time, and one or two lines for
      the status. */
  ghost predicate RuntimeShows(s: Snapshot, current: string, lines: seq<string>) {
    var n := |s.summaries|;
    var m := n + if AsksTime(current) then 0 else |s.calendar|;
    && m <= |lines|
    && (forall i :: 0 <= i < n ==> Keyed(lines[i], "summary", s.summaries[i].0, s.summaries[i].1))
    && (forall i :: n <= i < m ==> Keyed(lines[i], "calendar", s.calendar[i - n].0, s.calendar[i - n].1))
    && match s.status
       case None => |lines| == m
       case Some(status) =>
         && |lines| == m + (if status.summary == "" then 1 else 2)
         && lines[m] == "user_status=" + status.activity
         && (status.summary != "" ==> lines[m + 1] == "user_status_summary=" + status.summary)
  }

  ghost predicate IsRuntime(s: Snapshot, current: string, text: string) {
    exists lines :: RuntimeShows(s, current, lines) && text == JoinLines(lines)
  }

  /** The candidates at these places are the active ones, and the lines are theirs. */
  ghost predicate RecallShows(candidates: seq<Candidate>, places: seq<nat>, lines: seq<string>) {
    && |lines| == |places|
    && (forall j, k :: 0 <= j < k < |places| ==> places[j] < places[k])
    && (forall i: nat :: i in places <==> i < |candidates| && candidates[i].active)
    && forall j :: 0 <= j < |places| && places[j] < |candidates| ==>
         var c := candidates[places[j]]; Keyed(lines[j], "candidate", c.source + ":" + c.sourceKey, c.text)
  }

  ghost predicate IsRecall(s: Snapshot, text: string) {
    exists places, lines :: RecallShows(s.candidates, places, lines) && text == JoinLines(lines)
  }

  /** One message a turn: the history with tomoko as the assistant, or without a history what was last said. */
  function TurnMessages(s: Snapshot): seq<Message> {
    if s.history != [] then
      seq(|s.history|, i requires 0 <= i < |s.history| =>
        Message(if s.history[i].speaker == "tomoko" then Assistant else User, s.history[i].text))
    else
      seq(|s.recentUtterances|, i requires 0 <= i < |s.recentUtterances| => Message(User, s.recentUtterances[i]))
  }

  /** The contexts behind the utterance, each under its heading. */
  function Appended(runtime: string, recall: string): string {
    if runtime == "" && recall == "" then ""
    else
      "\n\n" + (if runtime == "" then "" else "RUNTIME_CONTEXT:\n" + runtime)
      + (if runtime == "" || recall == "" then "" else "\n")
      + (if recall == "" then "" else "VOLATILE_RECALL:\n" + recall)
  }

  /** One system message, one message a turn, and the utterance with the contexts behind it. */
  function Expected(header: string, s: Snapshot, current: string, runtime: string, recall: string): seq<Message> {
    [Message(System, ExpectedSystem(header))] + TurnMessages(s) + [Message(User, current + Appended(runtime, recall))]
  }

  /** No turn shown breaks a line. */
  ghost predicate SingleTurns(s: Snapshot) {
    if s.history != [] then forall i :: 0 <= i < |s.history| ==> SingleLine(s.history[i].text)
    else forall i :: 0 <= i < |s.recentUtterances| ==> SingleLine(s.recentUtterances[i])
  }

  lemma ClockExactly(text: string)
    ensures IsClockQuestion(text) <==> AsksTime(text)
  {
    hide SpelledAt, At, Lower;
    if i: nat :| At(text, "いま何時", i) {
      InnerClock(text, i);
    }
    forall i: nat
      ensures At(Lower(text), "what time", i) <==> SpelledAt(text, i, "what time")
    {
      SpelledLower(text, i, "what time");
    }
  }

  lemma InnerClock(text: string, i: nat)
    requires At(text, "いま何時", i)
    ensures At(text, "何時", i + 2)
  {
    assert text[i..i + 4][2..] == text[i + 2..i + 4] && "いま何時"[2..] == "何時";
  }

  lemma SpelledLower(text: string, i: nat, word: string)
    requires forall k :: 0 <= k < |word| ==> !('A' <= word[k] <= 'Z')
    ensures At(Lower(text), word, i) <==> SpelledAt(text, i, word)
  {
    var lower := Lower(text);
    if At(lower, word, i) {
      AtChars(lower, word, i);
      assert forall k :: 0 <= k < |word| ==> lower[i + k] == word[k];
    }
    if SpelledAt(text, i, word) {
      forall k | 0 <= k < |word| ensures lower[i..i + |word|][k] == word[k] {
        assert SameLetter(text[i + k], word[k]);
      }
    }
  }

  lemma RuntimeIs(s: Snapshot, current: string, text: string)
    ensures IsRuntime(s, current, text) <==> text == RuntimeContext(s, current)
  {
    ClockExactly(current);
    hide JoinLines, AsksTime, IsClockQuestion;
    RuntimeLinesShow(s, current);
    if IsRuntime(s, current, text) {
      var lines :| RuntimeShows(s, current, lines) && text == JoinLines(lines);
      SameRuntime(s, current, lines, RuntimeLines(s, current));
    }
  }

  lemma RuntimeLinesShow(s: Snapshot, current: string)
    requires IsClockQuestion(current) <==> AsksTime(current)
    ensures RuntimeShows(s, current, RuntimeLines(s, current))
  {
    hide AsksTime, IsClockQuestion, Keyed;
    var lines, n, calendar := RuntimeLines(s, current), |s.summaries|, CalendarLines(s.calendar);
    forall i | 0 <= i < n ensures Keyed(lines[i], "summary", s.summaries[i].0, s.summaries[i].1) {
      PairIs("summary[", "summary", s.summaries[i]);
    }
    if !AsksTime(current) {
      forall i | n <= i < n + |calendar|
        ensures Keyed(lines[i], "calendar", s.calendar[i - n].0, s.calendar[i - n].1)
      {
        assert lines[i] == calendar[i - n];
        PairIs("calendar[", "calendar", s.calendar[i - n]);
      }
    }
  }

  lemma PairIs(opening: string, kind: string, item: (string, string))
    requires opening == kind + "["
    ensures Keyed(opening + item.0 + "]=" + item.1, kind, item.0, item.1)
  {
  }

  lemma SameRuntime(s: Snapshot, current: string, a: seq<string>, b: seq<string>)
    requires RuntimeShows(s, current, a) && RuntimeShows(s, current, b)
    ensures a == b
  {
    hide AsksTime;
  }

  lemma {:induction false} RecallLinesShow(candidates: seq<Candidate>) returns (places: seq<nat>)
    ensures RecallShows(candidates, places, CandidateLines(candidates))
  {
    places := [];
    if candidates != [] {
      var n := |candidates| - 1;
      CandidateLinesSnoc(candidates[..n], candidates[n]);
      assert candidates[..n] + [candidates[n]] == candidates;
      places := RecallLinesShow(candidates[..n]);
      hide CandidateLines;
      RecallNext(candidates, places, CandidateLines(candidates[..n]));
      if candidates[n].active {
        places := places + [n];
      } else {
        assert CandidateLines(candidates[..n]) + [] == CandidateLines(candidates[..n]);
      }
    }
  }

  lemma RecallNext(candidates: seq<Candidate>, places: seq<nat>, lines: seq<string>)
    requires candidates != [] && RecallShows(candidates[..|candidates| - 1], places, lines)
    ensures var c := candidates[|candidates| - 1];
            if c.active then
              RecallShows(candidates, places + [|candidates| - 1],
                          lines + ["candidate[" + c.source + ":" + c.sourceKey + "]=" + c.text])
            else RecallShows(candidates, places, lines)
  {
    hide Keyed;
    var n := |candidates| - 1;
    var c, front := candidates[n], candidates[..n];
    KeyedCandidate(c.source, c.sourceKey, c.text);
    forall j | 0 <= j < |places| ensures places[j] < n {
      assert places[j] in places;
    }
    forall i: nat ensures i in places <==> i < n && candidates[i].active {
      assert i < n ==> front[i] == candidates[i];
    }
    if c.active {
      MorePlaces(places, n);
    }
  }

  lemma MorePlaces(places: seq<nat>, n: nat)
    requires forall j, k :: 0 <= j < k < |places| ==> places[j] < places[k]
    requires forall j :: 0 <= j < |places| ==> places[j] < n
    ensures var more := places + [n];
            && (forall j, k :: 0 <= j < k < |more| ==> more[j] < more[k])
            && forall i: nat :: i in more <==> i in places || i == n
  {
  }

  lemma KeyedCandidate(source: string, key: string, text: string)
    ensures Keyed("candidate[" + source + ":" + key + "]=" + text, "candidate", source + ":" + key, text)
  {
    assert "candidate[" + source + ":" + key == "candidate" + "[" + (source + ":" + key);
  }

  lemma {:induction false} CandidateLinesSnoc(candidates: seq<Candidate>, c: Candidate)
    ensures CandidateLines(candidates + [c])
         == CandidateLines(candidates)
            + if c.active then ["candidate[" + c.source + ":" + c.sourceKey + "]=" + c.text] else []
  {
    if candidates != [] {
      assert (candidates + [c])[1..] == candidates[1..] + [c];
      CandidateLinesSnoc(candidates[1..], c);
    } else {
      assert ([] + [c])[1..] == [];
    }
  }

  lemma RecallIs(s: Snapshot, text: string)
    ensures IsRecall(s, text) <==> text == Recall(s)
  {
    var places := RecallLinesShow(s.candidates);
    hide JoinLines, RecallShows;
    if IsRecall(s, text) {
      var others, lines :| RecallShows(s.candidates, others, lines) && text == JoinLines(lines);
      SameRecall(s.candidates, places, CandidateLines(s.candidates), others, lines);
    }
  }

  lemma SameRecall(candidates: seq<Candidate>, p: seq<nat>, a: seq<string>, q: seq<nat>, b: seq<string>)
    requires RecallShows(candidates, p, a) && RecallShows(candidates, q, b)
    ensures a == b
  {
    SamePlaces(p, q);
  }

  lemma {:induction false} SamePlaces(p: seq<nat>, q: seq<nat>)
    requires forall j, k :: 0 <= j < k < |p| ==> p[j] < p[k]
    requires forall j, k :: 0 <= j < k < |q| ==> q[j] < q[k]
    requires forall i: nat :: i in p <==> i in q
    ensures p == q
  {
    if p == [] {
      Inhabited(q);
    } else {
      assert p[|p| - 1] in p && p[|p| - 1] in q;
      assert q[|q| - 1] in q && q[|q| - 1] in p;
      assert p[|p| - 1] == q[|q| - 1];
      var front, other := p[..|p| - 1], q[..|q| - 1];
      InitHolds(p, front);
      InitHolds(q, other);
      forall i: nat ensures i in front <==> i in other {}
      SamePlaces(front, other);
    }
  }

  lemma Inhabited(q: seq<nat>)
    ensures q != [] ==> exists i: nat :: i in q
  {
    if q != [] {
      assert q[0] in q;
    }
  }

  lemma InitHolds(p: seq<nat>, front: seq<nat>)
    requires p != [] && front == p[..|p| - 1] && forall j, k :: 0 <= j < k < |p| ==> p[j] < p[k]
    ensures forall i: nat :: i in front <==> i in p && i != p[|p| - 1]
  {
    assert p == front + [p[|p| - 1]];
  }

  lemma JoinFour(a: string, b: string, c: string, d: string)
    ensures JoinLines([a, b] + [c, d]) == a + "\n" + b + "\n" + (c + "\n" + d)
  {
    JoinTwo(c, d);
    assert [a, b] + [c, d] == [a, b, c, d] && [a, b, c, d][1..] == [b, c, d] && [b, c, d][1..] == [c, d];
    assert a + "\n" + (b + "\n" + (c + "\n" + d)) == a + "\n" + b + "\n" + (c + "\n" + d);
  }

  lemma TrailingIs(runtime: string, recall: string)
    ensures TrailingContext(runtime, recall) ==
            (if runtime == "" then "" else RUNTIME + "\n" + runtime)
            + (if runtime == "" || recall == "" then "" else "\n")
            + (if recall == "" then "" else RECALL + "\n" + recall)
  {
    var none: seq<string> := [];
    JoinTwo(RUNTIME, runtime);
    JoinTwo(RECALL, recall);
    JoinFour(RUNTIME, runtime, RECALL, recall);
    assert [RUNTIME, runtime] + none == [RUNTIME, runtime] && none + [RECALL, recall] == [RECALL, recall];
    hide RUNTIME, RECALL;
  }

  lemma AppendedIs(current: string, runtime: string, recall: string)
    ensures WithContext(current, TrailingContext(runtime, recall)) == current + Appended(runtime, recall)
  {
    TrailingIs(runtime, recall);
    var r := if runtime == "" then "" else RUNTIME + "\n" + runtime;
    var m := if runtime == "" || recall == "" then "" else "\n";
    var v := if recall == "" then "" else RECALL + "\n" + recall;
    assert TrailingContext(runtime, recall) == r + m + v;
    assert Appended(runtime, recall) == if runtime == "" && recall == "" then "" else "\n\n" + r + m + v by {
      assert RUNTIME + "\n" == "RUNTIME_CONTEXT:\n" && RECALL + "\n" == "VOLATILE_RECALL:\n";
    }
    hide TrailingContext, Appended, RUNTIME, RECALL;
    if runtime == "" && recall == "" {
      assert r + m + v == "";
    } else {
      assert r + m + v != "";
      Behind(current, r, m, v);
    }
  }

  lemma Behind(current: string, r: string, m: string, v: string)
    ensures current + "\n\n" + (r + m + v) == current + ("\n\n" + r + m + v)
  {
  }

  lemma TurnMessagesAre(s: Snapshot)
    ensures TurnMessages(s) == ItemMessages(Shown(s)) && (SingleTurns(s) <==> SingleLines(Shown(s)))
  {
    hide SingleLine;
    var shown := Shown(s);
    assert TurnMessages(s) == ItemMessages(shown);
    if s.history == [] {
      assert forall i :: 0 <= i < |shown| ==> shown[i].text == s.recentUtterances[i];
    }
  }

  lemma ExpectedIs(header: string, s: Snapshot, current: string, runtime: string, recall: string)
    requires IsRuntime(s, current, runtime) && IsRecall(s, recall)
    ensures Expected(header, s, current, runtime, recall) == Composed(header, s, current)
    ensures runtime == RuntimeContext(s, current) && recall == Recall(s)
  {
    hide IsRuntime, IsRecall, RuntimeContext, Recall, TurnMessages, ItemMessages, Shown, Appended, WithContext,
         TrailingContext, ExpectedSystem;
    RuntimeIs(s, current, runtime);
    RecallIs(s, recall);
    AppendedIs(current, runtime, recall);
    TurnMessagesAre(s);
  }

  // ----- the exact condition -----

  lemma ComesApart(header: string, s: Snapshot, current: string)
    requires CleanHeader(header) && TidyContexts(RuntimeContext(s, current), Recall(s))
    requires SingleLine(current) || NoHeadings(current)
    ensures ParseMessages(BuildMainReply(header, s, current)) == Some(Composed(header, s, current))
       <==> SingleLines(Shown(s)) && SingleLine(current) && current != "" && !IsSpace(current[|current| - 1])
  {
    hide RStrip, SingleLine, Shown, ParseMessages, BuildMainReply, Composed, RuntimeContext, Recall, CleanHeader,
         TidyContexts, IsSpace, NoHeadings;
    if !SingleLines(Shown(s)) {
      var i :| 0 <= i < |Shown(s)| && !SingleLine(Shown(s)[i].text);
      BrokenTurnIsLost(header, s, current, i);
    } else if SingleLine(current) {
      SingleTurnsComeBack(header, s, current);
      RStripFixed(current);
    } else {
      BrokenUtteranceIsLost(header, s, current);
    }
  }

  /** With a header free of the section markers and tidy contexts, the messages of the built prompt are
      one system message, then exactly the turns shown, then the utterance with its contexts appended
      unchanged - even when an utterance contains a section marker - if and only if no turn and no utterance
      breaks a line and the utterance is not empty and does not end in white space. Left aside is an
      utterance of several lines one of which is a context's heading, which may come back. */
  lemma {:induction false} RoundTrip(header: string, s: Snapshot, current: string, runtime: string, recall: string)
    requires CleanHeader(header) && TidyContexts(runtime, recall)
    requires IsRuntime(s, current, runtime) && IsRecall(s, recall) && (SingleLine(current) || NoHeadings(current))
    ensures ParseMessages(BuildMainReply(header, s, current)) == Some(Expected(header, s, current, runtime, recall))
       <==> SingleTurns(s) && SingleLine(current) && current != "" && !IsSpace(current[|current| - 1])
  {
    hide SingleLine, Shown, ParseMessages, BuildMainReply, Expected, Composed, RuntimeContext, Recall, CleanHeader,
         TidyContexts, IsSpace, NoHeadings, IsRuntime, IsRecall, SingleTurns, SingleLines;
    ExpectedIs(header, s, current, runtime, recall);
    TurnMessagesAre(s);
    ComesApart(header, s, current);
  }

  predicate Says(line: string, tomoko: bool, text: string) {
    line == if tomoko then "tomoko: " + text else "user: " + text
  }

  /** One line a turn, and one for the utterance. */
  ghost predicate TranscriptShows(s: Snapshot, current: string, lines: seq<string>) {
    var n := if s.history != [] then |s.history| else |s.recentUtterances|;
    && |lines| == n + 1 && Says(lines[n], false, current)
    && forall i :: 0 <= i < n ==>
         if s.history == [] then Says(lines[i], false, s.recentUtterances[i])
         else Says(lines[i], s.history[i].speaker == "tomoko", s.history[i].text)
  }

  /** The text of the prompt itself, section by section. */
  lemma PromptPrinted(header: string, s: Snapshot, current: string, turns: seq<string>, runtime: string, recall: string)
    requires TranscriptShows(s, current, turns) && IsRuntime(s, current, runtime) && IsRecall(s, recall)
    ensures BuildMainReply(header, s, current) ==
            "SYSTEM:\n" + header + "\nINSTRUCTION:\n" + MAIN_REPLY_INSTRUCTION + "\nSESSION_TRANSCRIPT:\n"
            + JoinLines(turns)
            + (if runtime == "" then "" else "\nRUNTIME_CONTEXT:\n" + runtime)
            + (if recall == "" then "" else "\nVOLATILE_RECALL:\n" + recall)
  {
    RuntimeIs(s, current, runtime);
    RecallIs(s, recall);
    LinesShown(s, current, turns);
    SectionsAre(runtime, recall);
    hide JoinLines, MAIN_REPLY_INSTRUCTION, IsRuntime, IsRecall, RuntimeContext, Recall, ItemLines, TranscriptShows,
         Section;
    var turn, r, v := JoinLines(turns), Section(RUNTIME, runtime), Section(RECALL, recall);
    HeadIs(header, turn + r + v);
    hide RUNTIME, RECALL, Sections;
    var head := "SYSTEM:\n" + header + "\nINSTRUCTION:\n" + MAIN_REPLY_INSTRUCTION + "\nSESSION_TRANSCRIPT:\n";
    Flat(head, turn, r, v);
  }

  lemma Flat(a: string, b: string, c: string, d: string)
    ensures a + (b + c + d) == a + b + c + d
  {
  }

  lemma LinesShown(s: Snapshot, current: string, turns: seq<string>)
    requires TranscriptShows(s, current, turns)
    ensures turns == ItemLines(Shown(s) + [Item("user", current)])
  {
    hide Says, ItemLine;
    var shown := Shown(s) + [Item("user", current)];
    forall i | 0 <= i < |turns| ensures turns[i] == ItemLine(shown[i]) {
      ItemLineSays(shown[i], turns[i]);
    }
  }

  lemma ItemLineSays(item: Item, line: string)
    ensures line == ItemLine(item) <==> Says(line, item.speaker == "tomoko", item.text)
  {
    assert "tomoko" + ": " == "tomoko: " && "user" + ": " == "user: ";
  }

  lemma SectionsAre(runtime: string, recall: string)
    ensures Section(RUNTIME, runtime) == if runtime == "" then "" else "\nRUNTIME_CONTEXT:\n" + runtime
    ensures Section(RECALL, recall) == if recall == "" then "" else "\nVOLATILE_RECALL:\n" + recall
  {
    assert "\n" + RUNTIME + ("\n" + runtime) == "\nRUNTIME_CONTEXT:\n" + runtime;
    assert "\n" + RECALL + ("\n" + recall) == "\nVOLATILE_RECALL:\n" + recall;
  }

  lemma HeadIs(header: string, tail: string)
    ensures Sections(header, tail) == "SYSTEM:\n" + header + "\nINSTRUCTION:\n" + MAIN_REPLY_INSTRUCTION
                                      + "\nSESSION_TRANSCRIPT:\n" + tail
  {
    hide MAIN_REPLY_INSTRUCTION;
    assert SYSTEM + "\n" == "SYSTEM:\n" && "\n" + INSTRUCTION + "\n" == "\nINSTRUCTION:\n";
    assert "\n" + TRANSCRIPT + "\n" == "\nSESSION_TRANSCRIPT:\n";
    Grouped(SYSTEM, header, INSTRUCTION, MAIN_REPLY_INSTRUCTION, TRANSCRIPT, tail);
  }

  lemma Grouped(a: string, b: string, c: string, d: string, e: string, tail: string)
    ensures a + "\n" + (b + "\n" + (c + "\n" + (d + "\n" + (e + "\n" + tail))))
         == a + "\n" + b + ("\n" + c + "\n") + d + ("\n" + e + "\n") + tail
  {
  }

  lemma FinishGives(system: string, turns: seq<Message>, current: string, context: string)
    ensures Finish(system, turns + (if Blank(current) then [] else [Message(User, RStrip(current))]), context)
         == Some([Message(System, system)] + turns + [Message(User, WithContext(current, context))])
       <==> !Blank(current) && RStrip(current) == current
  {
    hide Blank;
    var r := RStrip(current);
    hide RStrip;
    var all := turns + [Message(User, r)];
    var want := [Message(System, system)] + turns + [Message(User, WithContext(current, context))];
    assert all[..|all| - 1] == turns;
    if Blank(current) {
      assert turns + [] == turns;
    } else {
      var got := [Message(System, system)] + turns + [Message(User, WithContext(r, context))];
      assert Finish(system, all, context) == Some(got);
      assert got == want ==> got[|got| - 1] == want[|want| - 1];
      assert WithContext(r, context) == WithContext(current, context) ==> |r| == |current|;
    }
  }

  /** An utterance of several lines one of which is a context's heading can come back: it is taken for a context and
      then appended as one. */
  lemma HeadedUtteranceComesBack(header: string, s: Snapshot, first: string, body: string)
    requires var current := first + "\n\n" + RUNTIME + "\n" + body;
             CleanHeader(header) && IsRuntime(s, current, "") && IsRecall(s, "")
    requires SingleTurns(s) && SingleLine(first) && first != "" && !IsSpace(first[|first| - 1])
    requires body != "" && TidyContexts(body, "")
    ensures var current := first + "\n\n" + RUNTIME + "\n" + body;
            ParseMessages(BuildMainReply(header, s, current)) == Some(Expected(header, s, current, "", ""))
  {
    hide SingleLine, Shown, ParseMessages, BuildMainReply, Expected, Composed, RuntimeContext, Recall, CleanHeader,
         TidyContexts, IsSpace, IsRuntime, IsRecall, SingleTurns, SingleLines, RUNTIME;
    ExpectedIs(header, s, first + "\n\n" + RUNTIME + "\n" + body, "", "");
    TurnMessagesAre(s);
    HeadedComesApart(header, s, first, body);
  }

  // ----- which snapshots have tidy contexts -----

  /** On one line, and empty or not ending in white space. */
  predicate Plain(text: string) { '\n' !in text && (text == "" || !IsSpace(text[|text| - 1])) }

  ghost predicate PlainSnapshot(s: Snapshot) {
    && (forall i :: 0 <= i < |s.summaries| ==> '\n' !in s.summaries[i].0 && Plain(s.summaries[i].1))
    && (forall i :: 0 <= i < |s.calendar| ==> '\n' !in s.calendar[i].0 && Plain(s.calendar[i].1))
    && (s.status.Some? ==> Plain(s.status.value.activity) && Plain(s.status.value.summary))
    && (forall i :: 0 <= i < |s.candidates| ==> PlainCandidate(s.candidates[i]))
  }

  predicate PlainCandidate(c: Candidate) { '\n' !in c.source && '\n' !in c.sourceKey && Plain(c.text) }

  predicate ContextLine(line: string) { line != "" && Trimmed(line) && '\n' !in line && !(RECALL <= line) }

  lemma ContextLineFrom(heading: string, text: string)
    requires heading != "" && Trimmed(heading) && '\n' !in heading && heading[0] != 'V' && Plain(text)
    ensures ContextLine(heading + text)
  {
    hide IsSpace;
    var line := heading + text;
    assert line[0] == heading[0] && RECALL[0] == 'V';
    assert text != "" ==> line[|line| - 1] == text[|text| - 1];
    assert text == "" ==> line == heading;
  }

  lemma ContextLinesTidy(lines: seq<string>)
    requires forall i :: 0 <= i < |lines| ==> ContextLine(lines[i])
    ensures Trimmed(JoinLines(lines)) && !HasLine(JoinLines(lines), RECALL)
  {
    hide IsSpace, HasLine, JoinLines, RECALL;
    MarkersAreLines();
    NoLineJoined(lines, RECALL);
    if lines == [] {
      JoinNone();
    } else {
      JoinEnds(lines);
    }
  }

  lemma JoinNone()
    ensures JoinLines([]) == ""
  {
  }

  lemma BracketHeading(kind: string, key: string)
    requires kind != "" && !IsSpace(kind[0]) && kind[0] != 'V' && '\n' !in kind && '\n' !in key
    ensures var h := kind + "[" + key + "]=";
            h != "" && Trimmed(h) && '\n' !in h && h[0] != 'V'
  {
    var h := kind + "[" + key + "]=";
    assert h[0] == kind[0] && h[|h| - 1] == '=';
    assert !IsSpace('=');
  }

  lemma PairLineTidy(kind: string, item: (string, string))
    requires kind != "" && !IsSpace(kind[0]) && kind[0] != 'V' && '\n' !in kind
    requires '\n' !in item.0 && Plain(item.1)
    ensures ContextLine(kind + "[" + item.0 + "]=" + item.1)
  {
    hide IsSpace, ContextLine;
    BracketHeading(kind, item.0);
    ContextLineFrom(kind + "[" + item.0 + "]=", item.1);
  }

  lemma StatusLinesTidy(status: Option<Status>)
    requires status.Some? ==> Plain(status.value.activity) && Plain(status.value.summary)
    ensures forall i :: 0 <= i < |StatusLines(status)| ==> ContextLine(StatusLines(status)[i])
  {
    if status.Some? {
      assert Trimmed("user_status=") && Trimmed("user_status_summary=");
      hide ContextLine;
      ContextLineFrom("user_status=", status.value.activity);
      ContextLineFrom("user_status_summary=", status.value.summary);
    }
  }

  lemma {:induction false} CandidateLinesTidy(candidates: seq<Candidate>)
    requires forall i :: 0 <= i < |candidates| ==> PlainCandidate(candidates[i])
    ensures forall i :: 0 <= i < |CandidateLines(candidates)| ==> ContextLine(CandidateLines(candidates)[i])
  {
    hide IsSpace, ContextLine;
    if candidates != [] {
      var c := candidates[0];
      assert PlainCandidate(c);
      CandidateLinesTidy(candidates[1..]);
      CandidateLineTidy(c);
    }
  }

  lemma CandidateLineTidy(c: Candidate)
    requires PlainCandidate(c)
    ensures ContextLine("candidate[" + c.source + ":" + c.sourceKey + "]=" + c.text)
  {
    assert !IsSpace('c');
    hide ContextLine, IsSpace, Plain;
    var key := c.source + ":" + c.sourceKey;
    BracketHeading("candidate", key);
    ContextLineFrom("candidate" + "[" + key + "]=", c.text);
    assert "candidate[" + c.source + ":" + c.sourceKey + "]=" == "candidate" + "[" + key + "]=";
  }

  lemma RuntimeLinesTidy(s: Snapshot, current: string)
    requires PlainSnapshot(s)
    ensures forall i :: 0 <= i < |RuntimeLines(s, current)| ==> ContextLine(RuntimeLines(s, current)[i])
  {
    assert !IsSpace('s') && !IsSpace('c');
    hide ContextLine, IsSpace, Plain, StatusLines, IsClockQuestion, PlainCandidate;
    forall i | 0 <= i < |s.summaries| ensures ContextLine("summary[" + s.summaries[i].0 + "]=" + s.summaries[i].1) {
      PairLineTidy("summary", s.summaries[i]);
      assert "summary" + "[" == "summary[";
    }
    forall i | 0 <= i < |s.calendar| ensures ContextLine("calendar[" + s.calendar[i].0 + "]=" + s.calendar[i].1) {
      PairLineTidy("calendar", s.calendar[i]);
      assert "calendar" + "[" == "calendar[";
    }
    StatusLinesTidy(s.status);
  }

  /** A snapshot whose texts are single lines not ending in white space has tidy contexts, so for such a
      snapshot only the turns themselves decide whether the prompt comes apart as it was built. */
  lemma {:induction false} PlainSnapshotRoundTrip(header: string, s: Snapshot, current: string, runtime: string,
                                                   recall: string)
    requires CleanHeader(header) && PlainSnapshot(s) && (SingleLine(current) || NoHeadings(current))
    requires IsRuntime(s, current, runtime) && IsRecall(s, recall)
    ensures ParseMessages(BuildMainReply(header, s, current)) == Some(Expected(header, s, current, runtime, recall))
       <==> SingleTurns(s) && SingleLine(current) && current != "" && !IsSpace(current[|current| - 1])
  {
    hide ParseMessages, BuildMainReply, Expected, SingleTurns, IsSpace, SingleLine, HasLine, CleanHeader, RuntimeLines,
         CandidateLines, ContextLine, JoinLines, IsRuntime, IsRecall;
    RuntimeIs(s, current, runtime);
    RecallIs(s, recall);
    RuntimeLinesTidy(s, current);
    ContextLinesTidy(RuntimeLines(s, current));
    CandidateLinesTidy(s.candidates);
    ContextLinesTidy(CandidateLines(s.candidates));
    RoundTrip(header, s, current, runtime, recall);
  }
}
