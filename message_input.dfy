/**
 * The message composer (components/MessageInput.tsx): the speech-transcript merge,
 * the submit and research guards, the Enter rule, the "Listening" placeholder cycle,
 * the data-URL payload split and the microphone toggle.
 */
module MessageInput {
  import opened Wrappers
  import opened JsStrings

  // ---------------------------------------------------------------- whitespace runs

  /** No two whitespace characters stand next to each other. */
  predicate NoDoubleSpace(s: string) {
    forall i :: 0 <= i < |s| - 1 ==> !(IsSpace(s[i]) && IsSpace(s[i + 1]))
  }

  /** Every whitespace character is a plain space. */
  predicate OnlyBlanks(s: string) {
    forall i :: 0 <= i < |s| ==> IsSpace(s[i]) ==> s[i] == ' '
  }

  /** `s.replace(/\s+/g, ' ')`: each maximal run of whitespace becomes one space. */
  function Collapse(s: string): (r: string)
    ensures r == [] <==> s == []
    ensures r != [] ==> (IsSpace(r[0]) <==> IsSpace(s[0]))
    ensures NoDoubleSpace(r) && OnlyBlanks(r)
    decreases |s|
  {
    if s == [] then []
    else if IsSpace(s[0]) then
      var t := TrimStart(s);
      [' '] + Collapse(t)
    else
      [s[0]] + Collapse(s[1..])
  }

  /** Any slice keeps both properties. */
  lemma SliceKeepsRuns(s: string, i: nat, j: nat)
    requires i <= j <= |s| && NoDoubleSpace(s) && OnlyBlanks(s)
    ensures NoDoubleSpace(s[i..j]) && OnlyBlanks(s[i..j])
  {
    var r := s[i..j];
    assert forall k :: 0 <= k < |r| ==> r[k] == s[i + k];
  }

  /** `trim` cuts a slice out of the string. */
  lemma TrimIsSlice(s: string) returns (i: nat, j: nat)
    ensures i <= j <= |s| && Trim(s) == s[i..j]
  {
    var t := TrimStart(s);
    var r := TrimEnd(t);
    TrimStartSuffix(s);
    TrimEndPrefix(t);
    i := |s| - |t|;
    j := i + |r|;
    assert t == s[i..];
    assert r == t[..|r|];
  }

  /** Trimming keeps both properties. */
  lemma TrimKeepsRuns(s: string)
    requires NoDoubleSpace(s) && OnlyBlanks(s)
    ensures NoDoubleSpace(Trim(s)) && OnlyBlanks(Trim(s))
  {
    var i, j := TrimIsSlice(s);
    SliceKeepsRuns(s, i, j);
  }

  /** The transcript merge: `(prev + ' ' + finalTranscript).replace(/\s+/g, ' ').trim()`. */
  function Merge(prev: string, final: string): (r: string)
    ensures r == [] || (!IsSpace(r[0]) && !IsSpace(r[|r| - 1]))
    ensures NoDoubleSpace(r) && OnlyBlanks(r)
  {
    var c := Collapse(prev + " " + final);
    TrimKeepsRuns(c);
    Trim(c)
  }

  // ---------------------------------------------------------------- words

  /** The maximal runs of non-whitespace characters, in order. */
  function Words(s: string): (r: seq<string>)
    ensures s != [] && !IsSpace(s[0]) ==> |r| > 0
    ensures forall k :: 0 <= k < |r| ==> r[k] != []
    decreases |s|
  {
    if s == [] then []
    else if IsSpace(s[0]) then Words(s[1..])
    else if |s| == 1 || IsSpace(s[1]) then [[s[0]]] + Words(s[1..])
    else
      var ws := Words(s[1..]);
      [[s[0]] + ws[0]] + ws[1..]
  }

  /** A word character followed by a space or by nothing is a word of its own. */
  lemma ConsSpace(c: char, r: string)
    requires !IsSpace(c) && (r == [] || IsSpace(r[0]))
    ensures Words([c] + r) == [[c]] + Words(r)
  {
    var s := [c] + r;
    assert s[0] == c && s[1..] == r;
    if r != [] { assert s[1] == r[0]; }
  }

  /** A word character followed by another joins the first word of the rest. */
  lemma ConsLetter(c: char, r: string)
    requires !IsSpace(c) && r != [] && !IsSpace(r[0])
    ensures |Words(r)| > 0
    ensures Words([c] + r) == [[c] + Words(r)[0]] + Words(r)[1..]
  {
    var s := [c] + r;
    assert s[0] == c && s[1..] == r && s[1] == r[0];
  }

  lemma GlueHead(h: seq<string>, wa: seq<string>, wb: seq<string>)
    ensures h + (wa + wb) == (h + wa) + wb
  {
  }

  lemma Glue(c: string, wa: seq<string>, wb: seq<string>)
    requires |wa| > 0
    ensures [c + (wa + wb)[0]] + (wa + wb)[1..] == ([c + wa[0]] + wa[1..]) + wb
  {
    assert (wa + wb)[1..] == wa[1..] + wb;
  }

  /** Every word is a run of non-whitespace characters. */
  lemma {:induction false} WordsHaveNoSpace(s: string)
    ensures forall k, i :: 0 <= k < |Words(s)| && 0 <= i < |Words(s)[k]| ==> !IsSpace(Words(s)[k][i])
    decreases |s|
  {
    if s != [] {
      WordsHaveNoSpace(s[1..]);
      if !IsSpace(s[0]) && |s| > 1 && !IsSpace(s[1]) {
        var ws := Words(s[1..]);
        assert s == [s[0]] + s[1..];
        ConsLetter(s[0], s[1..]);
        var w := [s[0]] + ws[0];
        assert forall i :: 0 < i < |w| ==> w[i] == ws[0][i - 1];
      }
    }
  }

  /** Leading whitespace separates nothing. */
  lemma {:induction false} WordsAfterSpaces(sp: string, b: string)
    requires AllSpace(sp)
    ensures Words(sp + b) == Words(b)
    decreases |sp|
  {
    if sp != [] {
      var s := sp + b;
      assert s[0] == sp[0] && IsSpace(sp[0]);
      assert s[1..] == sp[1..] + b;
      assert Words(s) == Words(s[1..]);
      WordsAfterSpaces(sp[1..], b);
    } else {
      assert sp + b == b;
    }
  }

  /** The step of `WordsAppend` for a string starting with a word character. */
  lemma WordsAppendLetter(a: string, sp: string, b: string)
    requires a != [] && !IsSpace(a[0]) && sp != [] && AllSpace(sp)
    requires Words(a[1..] + sp + b) == Words(a[1..]) + Words(b)
    ensures Words(a + sp + b) == Words(a) + Words(b)
  {
    var c, ra := a[0], a[1..];
    var rest := ra + sp + b;
    assert a == [c] + ra;
    assert a + sp + b == [c] + rest;
    if ra == [] || IsSpace(ra[0]) {
      assert rest[0] == if ra == [] then sp[0] else ra[0];
      ConsSpace(c, rest);
      ConsSpace(c, ra);
      GlueHead([[c]], Words(ra), Words(b));
    } else {
      assert rest[0] == ra[0];
      ConsLetter(c, rest);
      ConsLetter(c, ra);
      Glue([c], Words(ra), Words(b));
    }
  }

  /** A whitespace run between two strings separates their words. */
  lemma {:induction false} WordsAppend(a: string, sp: string, b: string)
    requires sp != [] && AllSpace(sp)
    ensures Words(a + sp + b) == Words(a) + Words(b)
    decreases |a|
  {
    if a == [] {
      assert a + sp + b == sp + b;
      WordsAfterSpaces(sp, b);
    } else {
      assert (a + sp + b)[1..] == a[1..] + sp + b;
      WordsAppend(a[1..], sp, b);
      if IsSpace(a[0]) {
        assert (a + sp + b)[0] == a[0];
      } else {
        WordsAppendLetter(a, sp, b);
      }
    }
  }

  /** Replacing whitespace runs by single spaces keeps the words. */
  lemma {:induction false} WordsCollapse(s: string)
    ensures Words(Collapse(s)) == Words(s)
    decreases |s|
  {
    if s == [] {
    } else if IsSpace(s[0]) {
      var t := TrimStart(s);
      TrimStartSuffix(s);
      var sp := s[..|s| - |t|];
      assert AllSpace(sp);
      assert s == sp + t;
      WordsCollapse(t);
      assert AllSpace(" ");
      WordsAfterSpaces(" ", Collapse(t));
      WordsAfterSpaces(sp, t);
    } else {
      var c, r := s[0], s[1..];
      var cr := Collapse(r);
      assert s == [c] + r;
      assert Collapse(s) == [c] + cr;
      WordsCollapse(r);
      if r == [] || IsSpace(r[0]) {
        ConsSpace(c, cr);
        ConsSpace(c, r);
      } else {
        ConsLetter(c, cr);
        ConsLetter(c, r);
      }
    }
  }

  lemma WordsTrimStart(s: string)
    ensures Words(TrimStart(s)) == Words(s)
  {
    var t := TrimStart(s);
    TrimStartSuffix(s);
    var sp := s[..|s| - |t|];
    assert AllSpace(sp);
    assert s == sp + t;
    WordsAfterSpaces(sp, t);
  }

  lemma WordsTrimEnd(t: string)
    ensures Words(TrimEnd(t)) == Words(t)
  {
    var r := TrimEnd(t);
    TrimEndPrefix(t);
    if |r| < |t| {
      var sp := t[|r|..];
      assert sp != [] && AllSpace(sp);
      assert t == r + sp + [];
      WordsAppend(r, sp, []);
      assert r + [] == r;
    }
  }

  /** Trimming keeps the words. */
  lemma WordsTrim(s: string)
    ensures Words(Trim(s)) == Words(s)
  {
    WordsTrimStart(s);
    WordsTrimEnd(TrimStart(s));
  }

  /** The merged text holds the words already typed followed by the words heard, in order. */
  lemma MergeWords(prev: string, final: string)
    ensures Words(Merge(prev, final)) == Words(prev) + Words(final)
  {
    var x := prev + " " + final;
    assert AllSpace(" ");
    var c := Collapse(x);
    assert Words(Merge(prev, final)) == Words(c) by {
      WordsTrim(c);
    }
    assert Words(c) == Words(x) by {
      WordsCollapse(x);
    }
    assert Words(x) == Words(prev) + Words(final) by {
      WordsAppend(prev, " ", final);
    }
  }

  // ---------------------------------------------------------------- recognition results

  /** One entry of `event.results`: its `isFinal` flag and its first alternative's transcript. */
  datatype SpeechResult = SpeechResult(isFinal: bool, transcript: string)

  /** The transcripts of the final results, concatenated in order. */
  function FinalText(results: seq<SpeechResult>): string
    decreases |results|
  {
    if results == [] then ""
    else
      var last := results[|results| - 1];
      FinalText(results[..|results| - 1]) + (if last.isFinal then last.transcript else "")
  }

  /** Concatenating the final transcripts distributes over appending results. */
  lemma {:induction false} FinalTextAppend(a: seq<SpeechResult>, b: seq<SpeechResult>)
    ensures FinalText(a + b) == FinalText(a) + FinalText(b)
    decreases |b|
  {
    if b == [] {
      assert a + b == a;
    } else {
      var b' := b[..|b| - 1];
      assert (a + b)[..|a + b| - 1] == a + b';
      FinalTextAppend(a, b');
    }
  }

  /** An interim result contributes nothing, wherever it stands. */
  lemma InterimIgnored(a: seq<SpeechResult>, r: SpeechResult, b: seq<SpeechResult>)
    requires !r.isFinal
    ensures FinalText(a + [r] + b) == FinalText(a + b)
  {
    FinalTextAppend(a + [r], b);
    FinalTextAppend(a, [r]);
    FinalTextAppend(a, b);
    assert FinalText([r]) == FinalText([]) + "";
  }

  /** The results the loop reads: from `resultIndex` to the end. */
  function FromIndex(results: seq<SpeechResult>, resultIndex: nat): seq<SpeechResult> {
    if resultIndex < |results| then results[resultIndex..] else []
  }

  /** The `onresult` loop over `event.results`. */
  method CollectFinal(results: seq<SpeechResult>, resultIndex: nat) returns (finalTranscript: string)
    ensures finalTranscript == FinalText(FromIndex(results, resultIndex))
  {
    finalTranscript := "";
    if resultIndex >= |results| {
      return;
    }
    var i := resultIndex;
    while i < |results|
      invariant resultIndex <= i <= |results|
      invariant finalTranscript == FinalText(results[resultIndex..i])
      decreases |results| - i
    {
      assert results[resultIndex..i + 1][..i - resultIndex] == results[resultIndex..i];
      if results[i].isFinal {
        finalTranscript := finalTranscript + results[i].transcript;
      }
      i := i + 1;
    }
    assert results[resultIndex..i] == results[resultIndex..];
  }

  // ---------------------------------------------------------------- the data URL

  /** `s.split(sep)` for a one-character separator. */
  function Split(s: string, sep: char): (r: seq<string>)
    ensures |r| >= 1
    ensures forall k :: 0 <= k < |r| ==> sep !in r[k]
    decreases |s|
  {
    if s == [] then [""]
    else
      var rest := Split(s[1..], sep);
      if s[0] == sep then [""] + rest else [[s[0]] + rest[0]] + rest[1..]
  }

  /** The fields joined back with the separator. */
  function Join(parts: seq<string>, sep: char): string
    decreases |parts|
  {
    if parts == [] then ""
    else if |parts| == 1 then parts[0]
    else parts[0] + [sep] + Join(parts[1..], sep)
  }

  /** Splitting loses nothing: joining the fields gives the string back. */
  lemma {:induction false} JoinSplit(s: string, sep: char)
    ensures Join(Split(s, sep), sep) == s
    decreases |s|
  {
    if s != [] {
      var rest := Split(s[1..], sep);
      JoinSplit(s[1..], sep);
      if s[0] == sep {
        assert ([""] + rest)[1..] == rest;
      } else {
        var r := Split(s, sep);
        assert r[1..] == rest[1..];
        if |rest| > 1 {
          assert Join(r, sep) == [s[0]] + rest[0] + [sep] + Join(rest[1..], sep);
        }
      }
    }
  }

  /** A field without the separator, then the separator, then the rest. */
  lemma {:induction false} SplitAfterField(a: string, sep: char, b: string)
    requires sep !in a
    ensures Split(a + [sep] + b, sep) == [a] + Split(b, sep)
    decreases |a|
  {
    if a == [] {
      assert [sep] + b == a + [sep] + b;
      assert ([sep] + b)[1..] == b;
    } else {
      assert (a + [sep] + b)[1..] == a[1..] + [sep] + b;
      SplitAfterField(a[1..], sep, b);
      assert [a[0]] + a[1..] == a;
    }
  }

  lemma {:induction false} SplitField(s: string, sep: char)
    requires sep !in s
    ensures Split(s, sep) == [s]
    decreases |s|
  {
    if s != [] {
      SplitField(s[1..], sep);
      assert [s[0]] + s[1..] == s;
    }
  }

  /** `reader.result.split(',')[1]`: the text between the first and second commas,
      or None (`undefined`) when the data URL holds no comma. */
  function Payload(dataUrl: string): (r: Option<string>)
    ensures r.Some? ==> ',' !in r.value
  {
    var parts := Split(dataUrl, ',');
    if |parts| > 1 then Some(parts[1]) else None
  }

  /** A string without a comma splits into itself alone. */
  lemma PayloadPresentIff(dataUrl: string)
    ensures Payload(dataUrl).Some? <==> ',' in dataUrl
  {
    var parts := Split(dataUrl, ',');
    if ',' !in dataUrl {
      SplitField(dataUrl, ',');
    } else {
      JoinSplit(dataUrl, ',');
    }
  }

  /** For `data:<mime>;base64,<data>` the payload is exactly the base64 data. */
  lemma PayloadOfDataUrl(header: string, data: string)
    requires ',' !in header && ',' !in data
    ensures Payload(header + "," + data) == Some(data)
  {
    SplitAfterField(header, ',', data);
    SplitField(data, ',');
  }

  // ---------------------------------------------------------------- the form

  /** The placeholders the text area shows; `Text` gives their wording. */
  datatype Placeholder = Initial | Symptoms | Medicine | ResearchHint | Listening(dots: nat)
  {
    function Text(): string {
      match this
      case Initial => "Describe your symptoms..."
      case Symptoms => "Describe your symptoms (e.g. 'I have a sharp pain in my knee')..."
      case Medicine => "Ask about this medicine..."
      case ResearchHint => "Enter a condition to research (e.g. 'Migraine')..."
      case Listening(dots) => ListeningText(dots)
    }
  }
  const ResearchPrefix := "Please research and provide detailed information about: "

  /** One call of `onSendMessage(text, image)`. */
  datatype Outgoing = Outgoing(text: string, image: Option<string>)

  /** The composer's text, selected image payload, placeholder and the calls made so far. */
  datatype Form = Form(text: string, image: Option<string>, placeholder: Placeholder, sent: seq<Outgoing>)

  /** JavaScript truthiness of a `string | null`. */
  predicate Truthy(image: Option<string>) {
    image.Some? && image.value != ""
  }

  predicate CanSubmit(f: Form, isLoading: bool) {
    (Trim(f.text) != "" || Truthy(f.image)) && !isLoading
  }

  /** `handleSubmit`. */
  function SubmitForm(f: Form, isLoading: bool): (r: Form)
    ensures f.sent <= r.sent && |r.sent| <= |f.sent| + 1
  {
    if CanSubmit(f, isLoading) then
      f.(text := "", image := None,
         sent := f.sent + [Outgoing(Trim(f.text), if Truthy(f.image) then f.image else None)])
    else f
  }

  /** Submitting sends one message exactly when the guard holds, and otherwise changes
      nothing; a sent message is never blank, and afterwards text and image are cleared. */
  lemma SubmitRule(f: Form, isLoading: bool)
    ensures var r := SubmitForm(f, isLoading);
      && r.placeholder == f.placeholder
      && (|r.sent| == |f.sent| + 1 <==> CanSubmit(f, isLoading))
      && (!CanSubmit(f, isLoading) ==> r == f)
      && (CanSubmit(f, isLoading) ==>
            && r.sent[..|f.sent|] == f.sent
            && r.text == "" && r.image.None?
            && var m := r.sent[|f.sent|];
               && m.text == Trim(f.text)
               && (m.text != "" || Truthy(m.image))
               && (m.image.Some? ==> m.image == f.image && m.image.value != ""))
  {
    var r := SubmitForm(f, isLoading);
    if CanSubmit(f, isLoading) {
      assert r.sent[..|f.sent|] == f.sent;
    }
  }

  /** A second submit right after the first sends nothing. */
  lemma SubmitOnce(f: Form, isLoading: bool)
    ensures SubmitForm(SubmitForm(f, isLoading), isLoading) == SubmitForm(f, isLoading)
  {
    var r := SubmitForm(f, isLoading);
    if CanSubmit(f, isLoading) {
      TrimEmptyIff(r.text);
    }
  }

  /** The research request sent for a query. */
  function ResearchQuery(query: string): (r: string)
    ensures |r| == |ResearchPrefix| + |query|
    ensures r[..|ResearchPrefix|] == ResearchPrefix && r[|ResearchPrefix|..] == query
  {
    ResearchPrefix + query
  }

  /** `handleResearch`. */
  function ResearchForm(f: Form, isLoading: bool): (r: Form)
    ensures f.sent <= r.sent && |r.sent| <= |f.sent| + 1 && r.image == f.image
  {
    if Trim(f.text) == "" then f.(placeholder := ResearchHint)
    else if !isLoading then f.(text := "", sent := f.sent + [Outgoing(ResearchQuery(Trim(f.text)), None)])
    else f
  }

  /** Research with blank text only changes the placeholder; otherwise, unless loading,
      it sends the prefixed non-blank query without an image and clears the text.
      The selected image is never touched. */
  lemma ResearchRule(f: Form, isLoading: bool)
    ensures var r := ResearchForm(f, isLoading);
      && r.image == f.image
      && (Trim(f.text) == "" ==> r == f.(placeholder := ResearchHint))
      && (Trim(f.text) != "" && isLoading ==> r == f)
      && (Trim(f.text) != "" && !isLoading ==>
            && r.text == "" && r.placeholder == f.placeholder
            && |r.sent| == |f.sent| + 1 && r.sent[..|f.sent|] == f.sent
            && var m := r.sent[|f.sent|];
               && m.image.None?
               && m.text[..|ResearchPrefix|] == ResearchPrefix
               && m.text[|ResearchPrefix|..] == Trim(f.text)
               && !IsSpace(m.text[|m.text| - 1]))
  {
    var r := ResearchForm(f, isLoading);
    if Trim(f.text) != "" && !isLoading {
      var m := r.sent[|f.sent|];
      assert r.sent[..|f.sent|] == f.sent;
      assert m.text[|ResearchPrefix|..] == Trim(f.text);
      assert m.text[|m.text| - 1] == Trim(f.text)[|Trim(f.text)| - 1];
    }
  }

  /** A form whose text is empty after submitting cannot be researched into a message. */
  lemma ResearchAfterSubmit(f: Form, isLoading: bool)
    requires CanSubmit(f, isLoading)
    ensures ResearchForm(SubmitForm(f, isLoading), isLoading).sent == SubmitForm(f, isLoading).sent
  {
  }

  // ---------------------------------------------------------------- the placeholder cycle

  function Dots(n: nat): (r: string)
    ensures |r| == n && forall i :: 0 <= i < n ==> r[i] == '.'
  {
    if n == 0 then "" else Dots(n - 1) + "."
  }

  /** "Listening" followed by `dots` dots. */
  function ListeningText(dots: nat): (r: string)
    ensures |r| == 9 + dots && r[..9] == "Listening"
    ensures forall i :: 9 <= i < |r| ==> r[i] == '.'
  {
    "Listening" + Dots(dots)
  }

  /** The dot count after `n` interval ticks since listening started. */
  function DotsAfter(n: nat): nat {
    if n == 0 then 0 else (DotsAfter(n - 1) + 1) % 4
  }

  /** The dot count cycles 0, 1, 2, 3: after `n` ticks it is `n mod 4`. */
  lemma {:induction false} DotsCycle(n: nat)
    ensures DotsAfter(n) == n % 4 && DotsAfter(n) < 4
  {
    if n > 0 {
      DotsCycle(n - 1);
    }
  }

  // ---------------------------------------------------------------- the microphone

  /** Speech support, the listening flag and the permission-error banner. */
  datatype Mic = Mic(supported: bool, listening: bool, permissionError: bool)

  /** `toggleListening`; `throws` says whether `start()`/`stop()` raised. */
  function Toggle(m: Mic, throws: bool): (r: Mic)
    ensures r.supported == m.supported && (m.supported ==> !r.permissionError)
  {
    if !m.supported then m
    else if throws then m.(permissionError := false, listening := false)
    else if m.listening then m.(permissionError := false)
    else m.(permissionError := false, listening := true)
  }

  /** Without speech support the toggle does nothing; with it, it clears the banner,
      starts listening when idle and never stops by itself (only `onend` does) —
      unless the recognizer throws, which leaves it not listening. */
  lemma ToggleRule(m: Mic, throws: bool)
    ensures var r := Toggle(m, throws);
      && r.supported == m.supported
      && (!m.supported ==> r == m)
      && (m.supported ==> !r.permissionError)
      && (m.supported && !throws ==> r.listening)
      && (m.supported && throws ==> !r.listening)
  {
  }

  predicate IsPermissionError(error: string) {
    error == "not-allowed" || error == "permission-denied"
  }

  // ---------------------------------------------------------------- the component

  class InputState {
    var text: string
    var selectedImage: Option<string>
    var placeholderText: Placeholder
    var sent: seq<Outgoing>
    var isSpeechSupported: bool
    var isListening: bool
    var permissionError: bool
    var dots: nat

    ghost function FormOf(): Form
      reads this
    {
      Form(text, selectedImage, placeholderText, sent)
    }

    ghost function MicOf(): Mic
      reads this
    {
      Mic(isSpeechSupported, isListening, permissionError)
    }

    /** The first render; `speechSupported` is what the mount effect finds in `window`. */
    constructor (speechSupported: bool)
      ensures FormOf() == Form("", None, Initial, [])
      ensures MicOf() == Mic(speechSupported, false, false) && dots == 0
    {
      text := "";
      selectedImage := None;
      placeholderText := Initial;
      sent := [];
      isSpeechSupported := speechSupported;
      isListening := false;
      permissionError := false;
      dots := 0;
    }

    /** `recognition.onresult`: the final transcripts are merged into the text only when
        there are some. */
    method OnResult(results: seq<SpeechResult>, resultIndex: nat)
      modifies this
      ensures var heard := FinalText(FromIndex(results, resultIndex));
        text == if heard == "" then old(text) else Merge(old(text), heard)
      ensures selectedImage == old(selectedImage) && placeholderText == old(placeholderText)
      ensures sent == old(sent) && MicOf() == old(MicOf()) && dots == old(dots)
    {
      var finalTranscript := CollectFinal(results, resultIndex);
      if finalTranscript != "" {
        text := Merge(text, finalTranscript);
      }
    }

    /** `recognition.onend`. */
    method OnEnd()
      modifies this
      ensures MicOf() == old(MicOf()).(listening := false)
      ensures FormOf() == old(FormOf()) && dots == old(dots)
    {
      isListening := false;
    }

    /** `recognition.onerror`: a denied microphone raises the banner. */
    method OnError(error: string)
      modifies this
      ensures MicOf() == old(MicOf()).(listening := false,
                                      permissionError := old(permissionError) || IsPermissionError(error))
      ensures FormOf() == old(FormOf()) && dots == old(dots)
    {
      isListening := false;
      if IsPermissionError(error) {
        permissionError := true;
      }
    }

    /** The banner's timeout firing. */
    method HidePermissionError()
      modifies this
      ensures MicOf() == old(MicOf()).(permissionError := false)
      ensures FormOf() == old(FormOf()) && dots == old(dots)
    {
      permissionError := false;
    }

    /** The placeholder effect, run when `isListening` or `selectedImage` changes. */
    method PlaceholderEffect()
      modifies this
      ensures isListening ==> dots == 0 && placeholderText == Listening(0)
      ensures !isListening ==> dots == old(dots)
      ensures !isListening ==>
        placeholderText == if Truthy(selectedImage) then Medicine else Symptoms
      ensures text == old(text) && selectedImage == old(selectedImage) && sent == old(sent)
      ensures MicOf() == old(MicOf())
    {
      if isListening {
        dots := 0;
        placeholderText := Listening(0);
      } else if Truthy(selectedImage) {
        placeholderText := Medicine;
      } else {
        placeholderText := Symptoms;
      }
    }

    /** One tick of the 500 ms interval, which runs only while listening. */
    method Tick()
      requires isListening
      modifies this
      ensures dots == (old(dots) + 1) % 4 && placeholderText == Listening(dots)
      ensures text == old(text) && selectedImage == old(selectedImage) && sent == old(sent)
      ensures MicOf() == old(MicOf())
    {
      dots := (dots + 1) % 4;
      placeholderText := Listening(dots);
    }

    method ToggleListening(throws: bool)
      modifies this
      ensures MicOf() == Toggle(old(MicOf()), throws)
      ensures FormOf() == old(FormOf()) && dots == old(dots)
    {
      if !isSpeechSupported {
        return;
      }
      permissionError := false;
      if throws {
        isListening := false;
      } else if !isListening {
        isListening := true;
      }
    }

    /** `handleFileSelect` once the reader has produced `dataUrl` (None: no file chosen). */
    method FileSelect(dataUrl: Option<string>)
      modifies this
      ensures selectedImage == if dataUrl.Some? then Payload(dataUrl.value) else old(selectedImage)
      ensures text == old(text) && placeholderText == old(placeholderText) && sent == old(sent)
      ensures MicOf() == old(MicOf()) && dots == old(dots)
    {
      if dataUrl.Some? {
        var parts := Split(dataUrl.value, ',');
        selectedImage := if |parts| > 1 then Some(parts[1]) else None;
      }
    }

    method ClearImage()
      modifies this
      ensures FormOf() == old(FormOf()).(image := None)
      ensures MicOf() == old(MicOf()) && dots == old(dots)
    {
      selectedImage := None;
    }

    /** `handleInput`. */
    method Input(value: string)
      modifies this
      ensures FormOf() == old(FormOf()).(text := value)
      ensures MicOf() == old(MicOf()) && dots == old(dots)
    {
      text := value;
    }

    method HandleSubmit(isLoading: bool)
      modifies this
      ensures FormOf() == SubmitForm(old(FormOf()), isLoading)
      ensures MicOf() == old(MicOf()) && dots == old(dots)
    {
      var trimmed := Trim(text);
      if (trimmed != "" || Truthy(selectedImage)) && !isLoading {
        sent := sent + [Outgoing(trimmed, if Truthy(selectedImage) then selectedImage else None)];
        text := "";
        selectedImage := None;
      }
    }

    method HandleResearch(isLoading: bool)
      modifies this
      ensures FormOf() == ResearchForm(old(FormOf()), isLoading)
      ensures MicOf() == old(MicOf()) && dots == old(dots)
    {
      ghost var before := FormOf();
      var trimmed := Trim(text);
      assert trimmed == Trim(before.text);
      if trimmed == "" {
        placeholderText := ResearchHint;
        assert FormOf() == before.(placeholder := ResearchHint);
        return;
      }
      if !isLoading {
        sent := sent + [Outgoing(ResearchQuery(trimmed), None)];
        text := "";
        assert FormOf() == before.(text := "", sent := before.sent + [Outgoing(ResearchQuery(trimmed), None)]);
      }
    }

    /** `handleKeyDown`: Enter submits, Shift+Enter (a new line) does not. */
    method HandleKeyDown(key: string, shiftKey: bool, isLoading: bool)
      modifies this
      ensures FormOf() == if key == "Enter" && !shiftKey then SubmitForm(old(FormOf()), isLoading) else old(FormOf())
      ensures MicOf() == old(MicOf()) && dots == old(dots)
    {
      if key == "Enter" && !shiftKey {
        HandleSubmit(isLoading);
      }
    }
  }
}
