/**
 * The message list (components/MessageList.tsx): splitting a model reply into markdown
 * text and specialist cards around the matches of the specialist pattern, and the
 * quick-reply visibility rule.
 */
module MessageList {
  import opened Wrappers
  import opened JsStrings
  import opened ChatTypes
  import Chat

  // ---------------------------------------------------------------- quick replies

  /** `showQuickReplies`: not typing, and the last message is a model reply that is not
      an error (`!isError` holds for an absent flag). */
  predicate ShowQuickReplies(isTyping: bool, messages: seq<Message>) {
    && !isTyping
    && |messages| > 0
    && messages[|messages| - 1].role == Model
    && messages[|messages| - 1].isError != Some(true)
  }

  /** Quick replies never show while a reply is being typed, nor before any message. */
  lemma HiddenWhileTyping(messages: seq<Message>)
    ensures !ShowQuickReplies(true, messages) && !ShowQuickReplies(false, [])
  {
  }

  /** After a turn they show exactly when the stream did not throw. */
  lemma QuickRepliesAfterTurn(messages: seq<Message>, text: string, image: Option<string>,
                              userId: string, modelId: string,
                              stream: seq<Chat.StreamChunk>, thrown: Option<Chat.Thrown>)
    requires Chat.FreshIds(messages, userId, modelId)
    ensures var after := Chat.Turn(messages, text, image, userId, modelId, stream, thrown);
      ShowQuickReplies(false, after) <==> thrown.None?
  {
    Chat.TurnAppendsTwo(messages, text, image, userId, modelId, stream, thrown);
    Chat.TurnModelMessage(messages, text, image, userId, modelId, stream, thrown);
  }

  // ---------------------------------------------------------------- segmentation

  /** One match of the specialist pattern: where it starts, where the pattern's
      `lastIndex` is left after it, and its three capture groups. */
  datatype Match = Match(index: nat, end: nat, name: string, expertise: string, conditions: string)

  /** What successive `exec` calls with the `g` flag deliver: non-empty matches inside
      the text, each starting at or after the previous one's end. */
  predicate WellFormed(text: string, ms: seq<Match>) {
    && (forall k :: 0 <= k < |ms| ==> ms[k].index < ms[k].end <= |text|)
    && (forall k :: 0 < k < |ms| ==> ms[k - 1].end <= ms[k].index)
  }

  /** A rendered piece: markdown text, or a specialist card. */
  datatype Part = TextPart(content: string) | Card(name: string, expertise: string, conditions: string)

  /** The card a match renders as: its capture groups, trimmed. */
  function CardOf(m: Match): Part {
    Card(Trim(m.name), Trim(m.expertise), Trim(m.conditions))
  }

  predicate Trimmed(s: string) {
    s == [] || (!IsSpace(s[0]) && !IsSpace(s[|s| - 1]))
  }

  /** A card's fields never start or end with whitespace. */
  lemma CardFieldsTrimmed(m: Match)
    ensures Trimmed(CardOf(m).name) && Trimmed(CardOf(m).expertise) && Trimmed(CardOf(m).conditions)
  {
  }

  /** A card's name is empty exactly when its capture group was blank. */
  lemma CardNameEmptyIff(m: Match)
    ensures CardOf(m).name == [] <==> AllSpace(m.name)
  {
    TrimEmptyIff(m.name);
  }

  /** The text each match covers. */
  function Spans(text: string, ms: seq<Match>): seq<string>
    requires WellFormed(text, ms)
  {
    seq(|ms|, k requires 0 <= k < |ms| => text[ms[k].index..ms[k].end])
  }

  /** The parts laid back out, each card replaced by the next matched span. */
  function Layout(parts: seq<Part>, spans: seq<string>): string
    decreases |parts|
  {
    if parts == [] then ""
    else
      var last := parts[|parts| - 1];
      if last.TextPart? then Layout(parts[..|parts| - 1], spans) + last.content
      else if spans == [] then Layout(parts[..|parts| - 1], spans)
      else Layout(parts[..|parts| - 1], spans[..|spans| - 1]) + spans[|spans| - 1]
  }

  /** The cards among the parts, in order. */
  function Cards(parts: seq<Part>): seq<Part>
    decreases |parts|
  {
    if parts == [] then []
    else
      var last := parts[|parts| - 1];
      Cards(parts[..|parts| - 1]) + (if last.Card? then [last] else [])
  }

  predicate NoEmptyText(parts: seq<Part>) {
    forall i :: 0 <= i < |parts| ==> parts[i].TextPart? ==> parts[i].content != ""
  }

  /** Between two text parts there is always a card. */
  predicate NoAdjacentText(parts: seq<Part>) {
    forall i :: 0 < i < |parts| ==> !(parts[i - 1].TextPart? && parts[i].TextPart?)
  }

  lemma AppendText(parts: seq<Part>, spans: seq<string>, content: string)
    ensures Layout(parts + [TextPart(content)], spans) == Layout(parts, spans) + content
    ensures Cards(parts + [TextPart(content)]) == Cards(parts)
  {
    assert (parts + [TextPart(content)])[..|parts|] == parts;
  }

  lemma AppendCard(parts: seq<Part>, spans: seq<string>, card: Part, span: string)
    requires card.Card?
    ensures Layout(parts + [card], spans + [span]) == Layout(parts, spans) + span
    ensures Cards(parts + [card]) == Cards(parts) + [card]
  {
    assert (parts + [card])[..|parts|] == parts;
    assert (spans + [span])[..|spans|] == spans;
  }

  lemma PushText(parts: seq<Part>, content: string)
    requires NoEmptyText(parts) && NoAdjacentText(parts)
    requires content != "" && (parts == [] || parts[|parts| - 1].Card?)
    ensures NoEmptyText(parts + [TextPart(content)]) && NoAdjacentText(parts + [TextPart(content)])
  {
    var r := parts + [TextPart(content)];
    assert forall i :: 0 <= i < |parts| ==> r[i] == parts[i];
  }

  lemma PushCard(parts: seq<Part>, card: Part)
    requires NoEmptyText(parts) && NoAdjacentText(parts) && card.Card?
    ensures NoEmptyText(parts + [card]) && NoAdjacentText(parts + [card])
  {
    var r := parts + [card];
    assert forall i :: 0 <= i < |parts| ==> r[i] == parts[i];
  }

  /** The cards of the first `k` matches. */
  function CardsOf(ms: seq<Match>, k: nat): (r: seq<Part>)
    requires k <= |ms|
    ensures |r| == k
  {
    if k == 0 then [] else CardsOf(ms, k - 1) + [CardOf(ms[k - 1])]
  }

  /** The `i`-th card is the card of the `i`-th match. */
  lemma {:induction false} CardsOfIndex(ms: seq<Match>, k: nat, i: nat)
    requires i < k <= |ms|
    ensures CardsOf(ms, k)[i] == CardOf(ms[i])
    decreases k
  {
    var prev, c := CardsOf(ms, k - 1), CardOf(ms[k - 1]);
    assert CardsOf(ms, k) == prev + [c];
    if i < k - 1 {
      CardsOfIndex(ms, k - 1, i);
      assert (prev + [c])[i] == prev[i];
    }
  }

  /** Each card sits where its match starts: the parts before the j-th card lay out,
      with the first j spans, to the text before the j-th match. */
  predicate CardsInPlace(text: string, ms: seq<Match>, parts: seq<Part>)
    requires WellFormed(text, ms)
  {
    forall p :: 0 <= p < |parts| && parts[p].Card? ==>
      var j := |Cards(parts[..p])|;
      j < |ms| && Layout(parts[..p], Spans(text, ms)[..j]) == text[..ms[j].index]
  }

  /** A text part at the end moves no card. */
  lemma PlaceText(text: string, ms: seq<Match>, parts: seq<Part>, content: string)
    requires WellFormed(text, ms) && CardsInPlace(text, ms, parts)
    ensures CardsInPlace(text, ms, parts + [TextPart(content)])
  {
    var r := parts + [TextPart(content)];
    forall p | 0 <= p < |r| && r[p].Card?
      ensures |Cards(r[..p])| < |ms| && Layout(r[..p], Spans(text, ms)[..|Cards(r[..p])|]) == text[..ms[|Cards(r[..p])|].index]
    {
      assert r[..p] == parts[..p] && r[p] == parts[p];
    }
  }

  /** The card of match `k`, pushed once the layout reaches the match's start. */
  lemma PlaceCard(text: string, ms: seq<Match>, k: nat, mid: seq<Part>)
    requires WellFormed(text, ms) && k < |ms| && CardsInPlace(text, ms, mid)
    requires Layout(mid, Spans(text, ms)[..k]) == text[..ms[k].index]
    requires Cards(mid) == CardsOf(ms, k)
    ensures CardsInPlace(text, ms, mid + [CardOf(ms[k])])
  {
    var r := mid + [CardOf(ms[k])];
    forall p | 0 <= p < |r| && r[p].Card?
      ensures |Cards(r[..p])| < |ms| && Layout(r[..p], Spans(text, ms)[..|Cards(r[..p])|]) == text[..ms[|Cards(r[..p])|].index]
    {
      if p < |mid| {
        assert r[..p] == mid[..p] && r[p] == mid[p];
      } else {
        assert r[..p] == mid;
      }
    }
  }

  /** A match at [1, 2) of "aa" cannot have its card first. */
  lemma CardNotBeforeItsText()
    ensures var ms := [Match(1, 2, "n", "e", "c")];
      WellFormed("aa", ms) && !CardsInPlace("aa", ms, [CardOf(ms[0]), TextPart("a")])
  {
    var ms := [Match(1, 2, "n", "e", "c")];
    var parts := [CardOf(ms[0]), TextPart("a")];
    assert parts[..0] == [];
    assert "aa"[..1] == "a";
  }

  /** What holds after the loop has handled the first `k` matches. */
  predicate Rendered(text: string, ms: seq<Match>, k: nat, parts: seq<Part>, lastIndex: nat)
    requires WellFormed(text, ms)
  {
    && k <= |ms|
    && lastIndex == (if k == 0 then 0 else ms[k - 1].end)
    && lastIndex <= |text|
    && Layout(parts, Spans(text, ms)[..k]) == text[..lastIndex]
    && Cards(parts) == CardsOf(ms, k)
    && NoEmptyText(parts) && NoAdjacentText(parts)
    && CardsInPlace(text, ms, parts)
    && (k > 0 ==> parts != [] && parts[|parts| - 1].Card?)
  }

  lemma SpansStep(text: string, ms: seq<Match>, k: nat)
    requires WellFormed(text, ms) && k < |ms|
    ensures Spans(text, ms)[..k + 1] == Spans(text, ms)[..k] + [text[ms[k].index..ms[k].end]]
  {
  }

  lemma PrefixGlue(text: string, a: nat, b: nat)
    requires a <= b <= |text|
    ensures text[..a] + text[a..b] == text[..b]
  {
  }

  /** The layout so far reaches the start of match `k`: emit its card. */
  lemma CardStep(text: string, ms: seq<Match>, k: nat, mid: seq<Part>)
    requires WellFormed(text, ms) && k < |ms|
    requires Layout(mid, Spans(text, ms)[..k]) == text[..ms[k].index]
    requires Cards(mid) == CardsOf(ms, k)
    requires NoEmptyText(mid) && NoAdjacentText(mid) && CardsInPlace(text, ms, mid)
    ensures Rendered(text, ms, k + 1, mid + [CardOf(ms[k])], ms[k].end)
  {
    PlaceCard(text, ms, k, mid);
    var m := ms[k];
    var spans := Spans(text, ms)[..k];
    var card := CardOf(m);
    SpansStep(text, ms, k);
    AppendCard(mid, spans, card, text[m.index..m.end]);
    PushCard(mid, card);
    PrefixGlue(text, m.index, m.end);
  }

  /** Match `k` starts after the rendered prefix: emit the text in between. */
  lemma GapStep(text: string, ms: seq<Match>, k: nat, parts: seq<Part>, lastIndex: nat)
    requires WellFormed(text, ms) && k < |ms| && Rendered(text, ms, k, parts, lastIndex)
    requires lastIndex < ms[k].index
    ensures var mid := parts + [TextPart(text[lastIndex..ms[k].index])];
      && Layout(mid, Spans(text, ms)[..k]) == text[..ms[k].index]
      && Cards(mid) == CardsOf(ms, k)
      && NoEmptyText(mid) && NoAdjacentText(mid) && CardsInPlace(text, ms, mid)
  {
    var gap := text[lastIndex..ms[k].index];
    PlaceText(text, ms, parts, gap);
    AppendText(parts, Spans(text, ms)[..k], gap);
    PushText(parts, gap);
    PrefixGlue(text, lastIndex, ms[k].index);
  }

  /** After the last match: the rest of the text, if any. */
  lemma FinishStep(text: string, ms: seq<Match>, parts: seq<Part>, lastIndex: nat)
    requires WellFormed(text, ms) && Rendered(text, ms, |ms|, parts, lastIndex)
    ensures var out := if lastIndex < |text| then parts + [TextPart(text[lastIndex..])] else parts;
      && Layout(out, Spans(text, ms)) == text
      && Cards(out) == CardsOf(ms, |ms|)
      && NoEmptyText(out) && NoAdjacentText(out) && CardsInPlace(text, ms, out)
  {
    var spans := Spans(text, ms);
    assert spans[..|ms|] == spans;
    if lastIndex < |text| {
      var tail := text[lastIndex..];
      PlaceText(text, ms, parts, tail);
      AppendText(parts, spans, tail);
      PushText(parts, tail);
      assert text[..lastIndex] + tail == text;
    } else {
      assert text[..lastIndex] == text;
    }
  }

  /** One iteration: the text before the match, if any, then the match's card. */
  method RenderMatch(text: string, ms: seq<Match>, k: nat, parts: seq<Part>, lastIndex: nat)
    returns (parts': seq<Part>, lastIndex': nat)
    requires WellFormed(text, ms) && k < |ms| && Rendered(text, ms, k, parts, lastIndex)
    ensures Rendered(text, ms, k + 1, parts', lastIndex')
    ensures lastIndex' > lastIndex
  {
    var m := ms[k];
    parts' := parts;
    if m.index > lastIndex {
      GapStep(text, ms, k, parts, lastIndex);
      parts' := parts' + [TextPart(text[lastIndex..m.index])];
    }
    CardStep(text, ms, k, parts');
    parts' := parts' + [CardOf(m)];
    lastIndex' := m.end;
  }

  /** `renderMessageContent` up to the JSX: the loop over the matches, then the text
      after the last one. */
  method RenderParts(text: string, ms: seq<Match>) returns (parts: seq<Part>)
    requires WellFormed(text, ms)
    ensures Layout(parts, Spans(text, ms)) == text
    ensures |Cards(parts)| == |ms| && forall i :: 0 <= i < |ms| ==> Cards(parts)[i] == CardOf(ms[i])
    ensures NoEmptyText(parts) && NoAdjacentText(parts)
    ensures CardsInPlace(text, ms, parts)
  {
    parts := [];
    var lastIndex := 0;
    var k := 0;
    while k < |ms|
      invariant Rendered(text, ms, k, parts, lastIndex)
      decreases |text| - lastIndex
    {
      parts, lastIndex := RenderMatch(text, ms, k, parts, lastIndex);
      k := k + 1;
    }
    FinishStep(text, ms, parts, lastIndex);
    if lastIndex < |text| {
      parts := parts + [TextPart(text[lastIndex..])];
    }
    forall i | 0 <= i < |ms| ensures Cards(parts)[i] == CardOf(ms[i]) {
      CardsOfIndex(ms, |ms|, i);
    }
  }
}
