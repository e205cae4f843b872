/** Streaming the first sentence of a reply and continuing it in the background
    (server/tomoko/conversation.py). */
module FirstSentence {
  import opened Wrappers
  import opened Text
  import OrderText

  predicate IsEnding(c: char) { c == '。' || c == '！' || c == '？' || c == '!' || c == '?' }

  /** A reply's first sentence ends at the characters at which an order's text is split into sentences. */
  lemma EndingsAgree(c: char)
    ensures IsEnding(c) <==> c in OrderText.SENTENCE_ENDINGS
  {
  }

  ghost predicate NoEnding(s: string) { forall i :: 0 <= i < |s| ==> !IsEnding(s[i]) }

  /** `_first_sentence_cutoff`: just behind the first sentence ending. */
  function Cutoff(s: string): (r: Option<nat>)
    ensures r.None? <==> NoEnding(s)
    ensures r.Some? ==> 0 < r.value <= |s| && IsEnding(s[r.value - 1]) && NoEnding(s[..r.value - 1])
  {
    if s == [] then None
    else if IsEnding(s[0]) then Some(1)
    else
      var r := Cutoff(s[1..]);
      if r.None? then None else Some(r.value + 1)
  }

  /** `s[n:]`. */
  function Drop(s: string, n: nat): string { if n <= |s| then s[n..] else "" }

  function Concat(deltas: seq<string>): string { if deltas == [] then "" else deltas[0] + Concat(deltas[1..]) }

  /** The emitted deltas, the rest of the delta in which the sentence ended, and the deltas not read. */
  datatype Collected = Collected(emitted: seq<string>, tail: string, unread: seq<string>)

  /** The delta in which the sentence ends. */
  function Cut(current: string, delta: string, unread: seq<string>): Collected
    requires Cutoff(current + delta).Some?
  {
    var cutoff := Cutoff(current + delta).value;
    var emit := Drop(Strip((current + delta)[..cutoff]), |current|);
    Collected(if emit == "" then [] else [emit], (current + delta)[cutoff..], unread)
  }

  /** What the loop does from a point at which it has emitted `current`. */
  function Collect(current: string, deltas: seq<string>): Collected
    decreases |deltas|
  {
    if deltas == [] then Collected([], "", [])
    else if deltas[0] == "" then Collect(current, deltas[1..])
    else
      if Cutoff(current + deltas[0]).Some? then Cut(current, deltas[0], deltas[1..])
      else
        var rest := Collect(current + deltas[0], deltas[1..]);
        rest.(emitted := [deltas[0]] + rest.emitted)
  }

  /** Nothing empty is ever emitted. */
  lemma {:induction false} NothingEmptyIsEmitted(current: string, deltas: seq<string>)
    ensures "" !in Collect(current, deltas).emitted
    decreases |deltas|
  {
    hide Cutoff, Strip;
    if deltas != [] {
      NothingEmptyIsEmitted(current, deltas[1..]);
      NothingEmptyIsEmitted(current + deltas[0], deltas[1..]);
    }
  }

  lemma CollectMore(current: string, deltas: seq<string>)
    requires deltas != [] && deltas[0] != "" && Cutoff(current + deltas[0]).None?
    ensures var c, more := Collect(current, deltas), Collect(current + deltas[0], deltas[1..]);
            c == Collected([deltas[0]] + more.emitted, more.tail, more.unread)
            && Concat(c.emitted) == deltas[0] + Concat(more.emitted)
  {
    hide Cutoff, Cut;
    var more := Collect(current + deltas[0], deltas[1..]);
    assert ([deltas[0]] + more.emitted)[1..] == more.emitted;
  }

  lemma CollectSkips(current: string, deltas: seq<string>)
    requires deltas != [] && deltas[0] == ""
    ensures Collect(current, deltas) == Collect(current, deltas[1..]) && Concat(deltas) == Concat(deltas[1..])
  {
    hide Cutoff, Cut;
    assert "" + Concat(deltas[1..]) == Concat(deltas[1..]);
  }

  lemma CollectCuts(current: string, deltas: seq<string>)
    requires deltas != [] && deltas[0] != "" && Cutoff(current + deltas[0]).Some?
    ensures var c := Cutoff(current + deltas[0]).value;
            Collect(current, deltas) == Cut(current, deltas[0], deltas[1..])
            && Concat(Collect(current, deltas).emitted) == Drop(Strip((current + deltas[0])[..c]), |current|)
  {
    hide Cutoff, Drop, Strip;
    var emit := Drop(Strip((current + deltas[0])[..Cutoff(current + deltas[0]).value]), |current|);
    assert emit + "" == emit;
  }

  /** `_collect_first_sentence_events`: the text is that of the event marked complete. */
  method CollectFirstSentence(deltas: seq<string>)
    returns (emitted: seq<string>, text: string, tail: string, unread: seq<string>)
    ensures Collected(emitted, tail, unread) == Collect("", deltas)
    ensures text == Concat(emitted)
  {
    hide Cutoff, Strip, Drop, Collect, Concat;
    emitted, text, tail, unread := [], "", "", deltas;
    NothingCollected();
    assert emitted + Collect(text, unread).emitted == Collect(text, unread).emitted;
    while unread != []
      invariant tail == "" && text == Concat(emitted)
      invariant Collect("", deltas) == Prepend(emitted, Collect(text, unread))
      invariant unread == [] ==> Collected(emitted, tail, unread) == Collect("", deltas)
      decreases |unread|
    {
      ghost var before := unread;
      var delta := unread[0];
      unread := unread[1..];
      if delta == "" {
        CollectSkips(text, before);
      } else {
        var candidate := text + delta;
        var cutoff := Cutoff(candidate);
        if cutoff.None? {
          CollectMore(text, before);
          ConcatSnoc(emitted, delta);
          PrependOne(emitted, delta, Collect(candidate, unread));
          emitted, text := emitted + [delta], candidate;
        } else {
          CollectCuts(text, before);
          var emit := Drop(Strip(candidate[..cutoff.value]), |text|);
          tail := candidate[cutoff.value..];
          if emit != "" {
            ConcatSnoc(emitted, emit);
            emitted, text := emitted + [emit], text + emit;
          } else {
            NothingMore(emitted);
          }
          break;
        }
      }
      if unread == [] {
        CollectNone(text);
        NothingMore(emitted);
      }
    }
  }

  function Prepend(emitted: seq<string>, rest: Collected): Collected { rest.(emitted := emitted + rest.emitted) }

  lemma PrependOne(emitted: seq<string>, delta: string, rest: Collected)
    ensures Prepend(emitted, Collected([delta] + rest.emitted, rest.tail, rest.unread))
         == Prepend(emitted + [delta], rest)
  {
    assert emitted + ([delta] + rest.emitted) == emitted + [delta] + rest.emitted;
  }

  lemma NothingMore(emitted: seq<string>)
    ensures emitted + [] == emitted
  {
  }

  lemma CollectNone(current: string)
    ensures Collect(current, []) == Collected([], "", [])
  {
  }

  lemma NothingCollected()
    ensures Concat([]) == "" && Collect("", []) == Collected([], "", [])
  {
  }

  lemma {:induction false} ConcatSnoc(deltas: seq<string>, last: string)
    ensures Concat(deltas + [last]) == Concat(deltas) + last
  {
    if deltas == [] {
      assert deltas + [last] == [last];
    } else {
      assert (deltas + [last])[1..] == deltas[1..] + [last];
      ConcatSnoc(deltas[1..], last);
    }
  }

  /** `_consume_reply_continuation`: the text of the follow-up order, empty when there is none. */
  method ConsumeContinuation(tail: string, unread: seq<string>) returns (text: string)
    ensures text == Strip(tail + Concat(unread))
  {
    var parts, rest := tail, unread;
    assert tail + Concat(unread) == parts + Concat(rest);
    while rest != []
      invariant tail + Concat(unread) == parts + Concat(rest)
      decreases |rest|
    {
      hide Strip;
      if rest[0] != "" {
        parts := parts + rest[0];
      }
      rest := rest[1..];
    }
    assert parts + "" == parts;
    text := Strip(parts);
  }

  // ----- what is conserved -----

  /** The reply up to and including its first sentence ending, or all of it. */
  function FirstOf(reply: string): string { if Cutoff(reply).None? then reply else reply[..Cutoff(reply).value] }

  lemma CutoffIs(s: string, c: nat)
    requires 0 < c <= |s| && IsEnding(s[c - 1]) && NoEnding(s[..c - 1])
    ensures Cutoff(s) == Some(c)
  {
    hide Cutoff, IsEnding;
    assert !NoEnding(s) by { assert IsEnding(s[c - 1]); }
    var d := Cutoff(s).value;
    assert forall i :: 0 <= i < c - 1 ==> s[..c - 1][i] == s[i] && !IsEnding(s[i]);
    assert forall i :: 0 <= i < d - 1 ==> s[..d - 1][i] == s[i] && !IsEnding(s[i]);
  }

  lemma CutoffPrefix(s: string, t: string)
    requires Cutoff(s).Some?
    ensures Cutoff(s + t) == Cutoff(s)
  {
    hide IsEnding;
    var c := Cutoff(s).value;
    hide Cutoff;
    assert (s + t)[..c - 1] == s[..c - 1];
    CutoffIs(s + t, c);
  }

  /** Whatever the chunking, and whatever the reply starts with, the tail and the unread stream are the
      reply behind its first sentence; every delta read before is emitted as it is. */
  lemma {:induction false} RestIsConserved(current: string, deltas: seq<string>)
    requires Cutoff(current).None?
    ensures var reply, c := current + Concat(deltas), Collect(current, deltas);
            && reply == FirstOf(reply) + (c.tail + Concat(c.unread))
            && (Cutoff(reply).None? ==> current + Concat(c.emitted) == reply)
    decreases |deltas|
  {
    hide Cutoff, Strip, Drop, Collect;
    if deltas == [] {
      CollectNone(current);
    } else if deltas[0] == "" {
      CollectSkips(current, deltas);
      RestIsConserved(current, deltas[1..]);
    } else {
      var candidate, more := current + deltas[0], Concat(deltas[1..]);
      assert current + Concat(deltas) == candidate + more;
      if Cutoff(candidate).None? {
        CollectMore(current, deltas);
        RestIsConserved(candidate, deltas[1..]);
      } else {
        CollectCuts(current, deltas);
        CutoffPrefix(candidate, more);
        CutConserves(current, deltas[0], deltas[1..]);
      }
    }
  }

  lemma CutConserves(current: string, delta: string, unread: seq<string>)
    requires Cutoff(current + delta).Some? && Cutoff(current + delta + Concat(unread)) == Cutoff(current + delta)
    ensures var reply, c := current + delta + Concat(unread), Cut(current, delta, unread);
            reply == FirstOf(reply) + (c.tail + Concat(c.unread))
  {
    hide Cutoff, Strip, Drop, Concat;
    var s, c, rest := current + delta, Cutoff(current + delta).value, Concat(unread);
    assert s + rest == (s + rest)[..c] + (s[c..] + rest);
  }

  lemma StripOfSentence(s: string)
    requires s != "" && !IsSpace(s[0]) && IsEnding(s[|s| - 1])
    ensures Strip(s) == s
  {
    StripTrimmed(s);
  }

  /** A reply that does not start with white space: what has been emitted is its first sentence. */
  lemma {:induction false} TextIsFirst(current: string, deltas: seq<string>)
    requires Cutoff(current).None?
    requires var reply := current + Concat(deltas); reply != "" && !IsSpace(reply[0])
    ensures current + Concat(Collect(current, deltas).emitted) == FirstOf(current + Concat(deltas))
    decreases |deltas|
  {
    hide Cutoff, Strip, IsEnding, IsSpace, Collect, Drop;
    if deltas == [] {
      CollectNone(current);
    } else if deltas[0] == "" {
      CollectSkips(current, deltas);
      TextIsFirst(current, deltas[1..]);
    } else {
      var candidate, more := current + deltas[0], Concat(deltas[1..]);
      assert current + Concat(deltas) == candidate + more;
      if Cutoff(candidate).None? {
        CollectMore(current, deltas);
        TextIsFirst(candidate, deltas[1..]);
      } else {
        CollectCuts(current, deltas);
        CutAtEnding(current, deltas[0], more);
        assert (candidate + more)[..Cutoff(candidate).value] == candidate[..Cutoff(candidate).value];
      }
    }
  }

  lemma CutAtEnding(current: string, delta: string, more: string)
    requires Cutoff(current).None? && Cutoff(current + delta).Some?
    requires !IsSpace((current + delta)[0])
    ensures var c := Cutoff(current + delta).value;
            var emit := Drop(Strip((current + delta)[..c]), |current|);
            Cutoff(current + delta + more) == Some(c) && current + emit == (current + delta)[..c] && emit != ""
  {
    hide Cutoff, Strip, IsSpace, IsEnding;
    var candidate, c := current + delta, Cutoff(current + delta).value;
    CutoffPrefix(candidate, more);
    StripOfSentence(candidate[..c]);
    assert forall i :: 0 <= i < |current| ==> candidate[i] == current[i] && !IsEnding(current[i]);
  }

  /** The text of the first event marked complete. */
  function TextOf(deltas: seq<string>): string { Concat(Collect("", deltas).emitted) }

  /** Whatever the chunking, the reply order says the same; the core strips the text before it speaks it. */
  ghost predicate SpokenAlike(reply: string) {
    forall d, e :: Concat(d) == reply && Concat(e) == reply ==> Strip(TextOf(d)) == Strip(TextOf(e))
  }

  /** Every way of cutting the reply into deltas makes the same reply order if and only if the reply has no
      ending or does not start with white space; the order then says the reply up to its first ending. */
  lemma ChunkingIsIgnoredExactly(reply: string)
    ensures SpokenAlike(reply) <==> Cutoff(reply).None? || !IsSpace(reply[0])
    ensures Cutoff(reply).None? || !IsSpace(reply[0]) ==>
              forall deltas :: Concat(deltas) == reply ==> TextOf(deltas) == FirstOf(reply)
  {
    hide Collect, Cutoff, Strip, IsSpace, FirstOf, TextOf, Concat, Ink;
    if Cutoff(reply).None? || !IsSpace(reply[0]) {
      forall deltas | Concat(deltas) == reply
        ensures TextOf(deltas) == FirstOf(reply)
      {
        TextWhenSafe(deltas);
      }
    } else {
      var once, twice := [reply], [reply[..1], reply[1..]];
      AtOnce(reply);
      FirstCharacterIsLost(reply);
      ConcatTwo(reply);
      assert Ink(Strip(TextOf(once))) != Ink(Strip(TextOf(twice)));
      assert Concat(once) == reply && Concat(twice) == reply;
    }
  }

  lemma ConcatTwo(reply: string)
    requires reply != ""
    ensures Concat([reply]) == reply && Concat([reply[..1], reply[1..]]) == reply
  {
    ConcatOne(reply);
    ConcatOne(reply[1..]);
    assert [reply[..1], reply[1..]][1..] == [reply[1..]];
  }

  lemma EmptyHasNoCutoff()
    ensures Cutoff("").None?
  {
  }

  lemma ConcatOne(s: string)
    ensures Concat([s]) == s
  {
    assert s + "" == s;
  }

  lemma TextWhenSafe(deltas: seq<string>)
    requires Cutoff(Concat(deltas)).None? || !IsSpace(Concat(deltas)[0])
    ensures TextOf(deltas) == FirstOf(Concat(deltas))
  {
    EmptyHasNoCutoff();
    hide Collect, Cutoff, IsSpace;
    assert "" + Concat(deltas) == Concat(deltas);
    assert "" + TextOf(deltas) == TextOf(deltas);
    if Cutoff(Concat(deltas)).None? {
      RestIsConserved("", deltas);
    } else {
      TextIsFirst("", deltas);
    }
  }

  /** A reply that arrives at once loses only the white space it starts with. */
  lemma AtOnce(reply: string)
    requires Cutoff(reply).Some?
    ensures TextOf([reply]) == Strip(FirstOf(reply)) && Ink(Strip(TextOf([reply]))) == Ink(FirstOf(reply))
  {
    hide Cutoff, IsSpace, Strip, Collect, Concat, Ink;
    var first := FirstOf(reply);
    assert "" + reply == reply;
    CollectCuts("", [reply]);
    assert Strip(first)[0..] == Strip(first);
    StripInk(first);
    StripInk(Strip(first));
  }

  /** The first sentence is not blank: it ends in its ending. */
  lemma FirstIsInked(reply: string)
    requires Cutoff(reply).Some?
    ensures var s := Strip(FirstOf(reply)); s != "" && !IsSpace(s[0]) && |Ink(s)| > 0
  {
    var first := FirstOf(reply);
    EndingsAreInk(first);
    StripInk(first);
    hide Cutoff, Strip, IsSpace;
    assert !Blank(first) by { assert !IsSpace(first[|first| - 1]); }
    assert Strip(first) != "";
  }

  lemma EndingsAreInk(s: string)
    ensures forall i :: 0 <= i < |s| && IsEnding(s[i]) ==> !IsSpace(s[i])
  {
  }

  /** Cut behind its first character, a reply that starts with white space loses the first character of its
      first sentence that is not. */
  lemma FirstCharacterIsLost(reply: string)
    requires Cutoff(reply).Some? && IsSpace(reply[0])
    ensures var twice := [reply[..1], reply[1..]];
            |Ink(FirstOf(reply))| > 0 && Ink(Strip(TextOf(twice))) == Ink(FirstOf(reply))[1..]
  {
    var first := Strip(FirstOf(reply));
    FirstIsInked(reply);
    StripInk(FirstOf(reply));
    TwoDeltas(reply);
    hide Cutoff, IsSpace, Strip, Collect, Concat, IsEnding;
    var text := reply[..1] + Drop(first, 1);
    assert first == [first[0]] + first[1..];
    InkConcat([first[0]], first[1..]);
    InkConcat(reply[..1], first[1..]);
    assert Ink(reply[..1]) == "" && Ink([first[0]]) == [first[0]] by { InkOne(reply[0]); InkOne(first[0]); }
    assert "" + Ink(first[1..]) == Ink(first[1..]);
    assert ([first[0]] + Ink(first[1..]))[1..] == Ink(first[1..]);
    StripInk(text);
  }

  lemma InkOne(c: char)
    ensures Ink([c]) == if IsSpace(c) then "" else [c]
  {
    assert [c][1..] == "";
    assert "" + "" == "" && [c] + "" == [c];
  }

  lemma TwoDeltas(reply: string)
    requires Cutoff(reply).Some? && IsSpace(reply[0])
    ensures TextOf([reply[..1], reply[1..]]) == reply[..1] + Drop(Strip(FirstOf(reply)), 1)
  {
    EndingsAreInk(reply);
    assert reply != "";
    NoEndingYet(reply);
    hide Cutoff, IsSpace, Strip, Collect, Concat, IsEnding;
    var d, e := reply[..1], reply[1..];
    assert [d, e][1..] == [e] && "" + d == d && d + e == reply;
    assert |reply| == 1 ==> d == reply;
    CollectMore("", [d, e]);
    CollectCuts(d, [e]);
  }

  lemma NoEndingYet(reply: string)
    requires reply != "" && IsSpace(reply[0])
    ensures Cutoff(reply[..1]).None?
  {
    EndingsAreInk(reply);
    hide IsSpace, IsEnding;
    assert NoEnding(reply[..1]);
  }

  /** The text when the sentence of `reply` ends in the delta after `before`. */
  function TextAt(before: string, reply: string): string { before + Drop(Strip(FirstOf(reply)), |before|) }

  /** That is `before`, then the stripped sentence from the position on that `before` reaches. */
  lemma TextAtExactly(before: string, reply: string)
    ensures var text, sentence := TextAt(before, reply), Strip(FirstOf(reply));
            && before <= text
            && |text| == (if |sentence| > |before| then |sentence| else |before|)
            && forall i :: |before| <= i < |text| ==> text[i] == sentence[i]
  {
    hide Strip;
  }

  /** The sentence ends in delta `n`. */
  ghost predicate EndsIn(current: string, deltas: seq<string>, n: nat) {
    n < |deltas| && Cutoff(current + Concat(deltas[..n])).None? && Cutoff(current + Concat(deltas[..n + 1])).Some?
  }

  /** What is emitted for any chunking of any reply with an ending: everything before the delta `n` in which the
      sentence ends, and then the stripped sentence from that position on. So a reply that starts with white
      space loses from that delta as many characters as were stripped. */
  lemma {:induction false} TextExactly(current: string, deltas: seq<string>) returns (n: nat)
    requires Cutoff(current).None? && Cutoff(current + Concat(deltas)).Some?
    ensures EndsIn(current, deltas, n)
    ensures current + Concat(Collect(current, deltas).emitted)
         == TextAt(current + Concat(deltas[..n]), current + Concat(deltas))
    decreases |deltas|
  {
    hide Cutoff, Collect, TextAt, Concat, EndsIn;
    NothingConcat(current);
    if deltas != [] {
      var rest, candidate := deltas[1..], current + deltas[0];
      ConcatHead(current, deltas);
      if deltas[0] != "" && Cutoff(candidate).Some? {
        n := 0;
        CutHere(current, deltas);
      } else {
        assert deltas[0] == "" ==> candidate == current;
        var m := TextExactly(candidate, rest);
        n := m + 1;
        EndsLater(current, deltas, m);
      }
    }
  }

  lemma NothingConcat(current: string)
    ensures current + Concat([]) == current
  {
  }

  lemma CutHere(current: string, deltas: seq<string>)
    requires deltas != [] && deltas[0] != "" && Cutoff(current).None? && Cutoff(current + deltas[0]).Some?
    ensures EndsIn(current, deltas, 0)
    ensures current + Concat(Collect(current, deltas).emitted)
         == TextAt(current + Concat(deltas[..0]), current + Concat(deltas))
  {
    hide Cutoff, Strip, Drop, Collect, FirstOf, Concat;
    var candidate, more := current + deltas[0], Concat(deltas[1..]);
    ConcatHead(current, deltas);
    CollectCuts(current, deltas);
    CutoffPrefix(candidate, more);
    FirstPrefix(candidate, more);
    assert deltas[..0] == [] && deltas[..1] == [deltas[0]];
    ConcatOne(deltas[0]);
    NothingConcat(current);
  }

  lemma EmittedOn(current: string, deltas: seq<string>)
    requires deltas != [] && (deltas[0] == "" || Cutoff(current + deltas[0]).None?)
    ensures current + Concat(Collect(current, deltas).emitted)
         == current + deltas[0] + Concat(Collect(current + deltas[0], deltas[1..]).emitted)
  {
    hide Cutoff, Collect, Concat;
    if deltas[0] == "" {
      CollectSkips(current, deltas);
      assert current + deltas[0] == current;
    } else {
      CollectMore(current, deltas);
    }
  }

  lemma EndsLater(current: string, deltas: seq<string>, m: nat)
    requires deltas != [] && (deltas[0] == "" || Cutoff(current + deltas[0]).None?)
    requires EndsIn(current + deltas[0], deltas[1..], m)
    requires current + deltas[0] + Concat(Collect(current + deltas[0], deltas[1..]).emitted)
          == TextAt(current + deltas[0] + Concat(deltas[1..][..m]), current + deltas[0] + Concat(deltas[1..]))
    ensures EndsIn(current, deltas, m + 1)
    ensures current + Concat(Collect(current, deltas).emitted)
         == TextAt(current + Concat(deltas[..m + 1]), current + Concat(deltas))
  {
    hide Cutoff, Collect, TextAt, Concat;
    EmittedOn(current, deltas);
    ConcatFront(current, deltas, m);
    ConcatFront(current, deltas, m + 1);
    ConcatHead(current, deltas);
  }

  lemma ConcatHead(current: string, deltas: seq<string>)
    requires deltas != []
    ensures current + Concat(deltas) == current + deltas[0] + Concat(deltas[1..])
  {
  }

  lemma ConcatFront(current: string, deltas: seq<string>, m: nat)
    requires m < |deltas|
    ensures current + Concat(deltas[..m + 1]) == current + deltas[0] + Concat(deltas[1..][..m])
  {
    assert deltas[..m + 1][1..] == deltas[1..][..m];
  }

  lemma FirstPrefix(s: string, t: string)
    requires Cutoff(s).Some? && Cutoff(s + t) == Cutoff(s)
    ensures FirstOf(s + t) == s[..Cutoff(s).value]
  {
    hide Cutoff;
    assert (s + t)[..Cutoff(s).value] == s[..Cutoff(s).value];
  }

  /** The whole reply is spoken: the deltas emitted are the first sentence, it followed by the tail and the
      unread stream is the whole reply, and the reply order and the follow-up order together hold every
      character of the reply that is not white space, in order. */
  lemma {:induction false} WholeReplyIsSpoken(deltas: seq<string>)
    requires Cutoff(Concat(deltas)).None? || !IsSpace(Concat(deltas)[0])
    ensures var reply, c := Concat(deltas), Collect("", deltas);
            && TextOf(deltas) + c.tail + Concat(c.unread) == reply
            && Ink(Strip(TextOf(deltas))) + Ink(Strip(c.tail + Concat(c.unread))) == Ink(reply)
  {
    EmptyHasNoCutoff();
    hide Collect, Cutoff, IsSpace, Strip, Ink, TextOf;
    var c := Collect("", deltas);
    var rest := c.tail + Concat(c.unread);
    TextWhenSafe(deltas);
    RestIsConserved("", deltas);
    assert "" + Concat(deltas) == Concat(deltas);
    StripInk(TextOf(deltas));
    StripInk(rest);
    InkConcat(TextOf(deltas), rest);
  }
}
