/**
 * One chat turn: the user message and the model placeholder appended to the
 * list, the placeholder rewritten by id as the answer streams in, the grounding
 * sources merged with URI de-duplication, and a failure turned into one of a
 * fixed set of replies by an ordered chain of substring checks.
 */
module Chat {
  import opened Wrappers
  import opened ChatTypes
  import JsStrings

  // ---------------------------------------------------------------- stream input

  /** The `web` part of a grounding chunk; the title may be missing. */
  datatype Web = Web(uri: Option<string>, title: Option<string>)

  datatype GroundingChunk = GroundingChunk(web: Option<Web>)

  /** One streamed response: its text and, possibly, grounding chunks. */
  datatype StreamChunk = StreamChunk(text: string, groundingChunks: Option<seq<GroundingChunk>>)

  /** What the stream can throw: an `Error` with its message, or any other value. */
  datatype Thrown = ErrorValue(message: string) | OtherValue

  // ---------------------------------------------------------------- grounding sources

  /** `c.web?.uri` is truthy. */
  predicate HasUri(c: GroundingChunk) {
    c.web.Some? && c.web.value.uri.Some? && c.web.value.uri.value != ""
  }

  /** `{ title: c.web.title || '', uri: c.web.uri }`. */
  function SourceOf(c: GroundingChunk): (s: GroundingSource)
    requires HasUri(c)
    ensures s.uri == c.web.value.uri.value && s.uri != ""
    ensures s.title.Some?
    ensures c.web.value.title.Some? && c.web.value.title.value != "" ==> s.title == c.web.value.title
    ensures c.web.value.title.None? || c.web.value.title.value == "" ==> s.title == Some("")
  {
    var t := c.web.value.title;
    GroundingSource(Some(if t.Some? then t.value else ""), c.web.value.uri.value)
  }

  /** The filter and map over a chunk's grounding chunks. */
  function NewSources(chunks: seq<GroundingChunk>): (r: seq<GroundingSource>)
    ensures |r| <= |chunks|
    ensures forall i :: 0 <= i < |r| ==> r[i].uri != ""
    decreases |chunks|
  {
    if chunks == [] then []
    else (if HasUri(chunks[0]) then [SourceOf(chunks[0])] else []) + NewSources(chunks[1..])
  }

  /** A single chunk gives its source exactly when it has a URI. */
  lemma NewSourcesSingle(c: GroundingChunk)
    ensures NewSources([c]) == if HasUri(c) then [SourceOf(c)] else []
  {
    assert [c][1..] == [];
  }

  /** The filter and map work chunk by chunk, in order: they distribute over concatenation. */
  lemma {:induction false} NewSourcesAppend(a: seq<GroundingChunk>, b: seq<GroundingChunk>)
    ensures NewSources(a + b) == NewSources(a) + NewSources(b)
    decreases |a|
  {
    if a == [] {
      assert a + b == b;
    } else {
      assert (a + b)[0] == a[0];
      assert (a + b)[1..] == a[1..] + b;
      NewSourcesAppend(a[1..], b);
    }
  }

  /** A new source is exactly a chunk with a URI, mapped. */
  lemma {:induction false} NewSourcesMembers(chunks: seq<GroundingChunk>, s: GroundingSource)
    ensures s in NewSources(chunks) <==> exists c :: c in chunks && HasUri(c) && SourceOf(c) == s
    decreases |chunks|
  {
    if chunks != [] {
      NewSourcesMembers(chunks[1..], s);
      var c0 := chunks[0];
      if s in NewSources(chunks) && !(HasUri(c0) && SourceOf(c0) == s) {
        var c :| c in chunks[1..] && HasUri(c) && SourceOf(c) == s;
        assert c in chunks;
      }
      if exists c :: c in chunks && HasUri(c) && SourceOf(c) == s {
        var c :| c in chunks && HasUri(c) && SourceOf(c) == s;
        if c != c0 {
          assert c in chunks[1..];
        }
      }
    }
  }

  function Uris(sources: seq<GroundingSource>): set<string> {
    set i | 0 <= i < |sources| :: sources[i].uri
  }

  /** The new sources whose URI is not already accumulated, in order. */
  function Fresh(existing: set<string>, sources: seq<GroundingSource>): (r: seq<GroundingSource>)
    ensures forall s :: s in r <==> s in sources && s.uri !in existing
    ensures |r| <= |sources|
    decreases |sources|
  {
    if sources == [] then []
    else (if sources[0].uri in existing then [] else [sources[0]]) + Fresh(existing, sources[1..])
  }

  /** A single source is kept exactly when its URI is not already accumulated. */
  lemma FreshSingle(existing: set<string>, s: GroundingSource)
    ensures Fresh(existing, [s]) == if s.uri in existing then [] else [s]
  {
    assert [s][1..] == [];
  }

  /** The filter keeps the order of the batch: it distributes over concatenation. */
  lemma {:induction false} FreshAppend(existing: set<string>, a: seq<GroundingSource>, b: seq<GroundingSource>)
    ensures Fresh(existing, a + b) == Fresh(existing, a) + Fresh(existing, b)
    decreases |a|
  {
    if a == [] {
      assert a + b == b;
    } else {
      assert (a + b)[0] == a[0];
      assert (a + b)[1..] == a[1..] + b;
      FreshAppend(existing, a[1..], b);
    }
  }

  /** The filter keeps every copy of a source with an unseen URI and no copy of the others. */
  lemma {:induction false} FreshCount(existing: set<string>, sources: seq<GroundingSource>, s: GroundingSource)
    ensures multiset(Fresh(existing, sources))[s] == if s.uri in existing then 0 else multiset(sources)[s]
    decreases |sources|
  {
    if sources != [] {
      var head := if sources[0].uri in existing then [] else [sources[0]];
      FreshCount(existing, sources[1..], s);
      assert Fresh(existing, sources) == head + Fresh(existing, sources[1..]);
      assert multiset(Fresh(existing, sources)) == multiset(head) + multiset(Fresh(existing, sources[1..]));
      assert sources == [sources[0]] + sources[1..];
      assert multiset(sources) == multiset([sources[0]]) + multiset(sources[1..]);
    }
  }

  /** `[...accumulated, ...newSources.filter(s => !existingUris.has(s.uri))]`. */
  function MergeSources(accumulated: seq<GroundingSource>, newSources: seq<GroundingSource>): (r: seq<GroundingSource>)
    ensures |r| >= |accumulated| && r[..|accumulated|] == accumulated
    ensures forall s :: s in r[|accumulated|..] <==> s in newSources && s.uri !in Uris(accumulated)
    ensures r[|accumulated|..] == Fresh(Uris(accumulated), newSources)
  {
    var unique := Fresh(Uris(accumulated), newSources);
    assert (accumulated + unique)[|accumulated|..] == unique;
    accumulated + unique
  }

  /** De-duplication is only against what was accumulated before: the appended tail
      holds every copy the batch has of a source with an unseen URI, so a batch that
      repeats a new URI keeps all its copies, and no copy of the others. */
  lemma BatchDuplicatesKept(accumulated: seq<GroundingSource>, newSources: seq<GroundingSource>, s: GroundingSource)
    ensures var tail := MergeSources(accumulated, newSources)[|accumulated|..];
      multiset(tail)[s] == if s.uri in Uris(accumulated) then 0 else multiset(newSources)[s]
  {
    FreshCount(Uris(accumulated), newSources, s);
  }

  /** A source already accumulated is never added again. */
  lemma MergeKeepsUrisOnce(accumulated: seq<GroundingSource>, newSources: seq<GroundingSource>, i: nat)
    requires i < |MergeSources(accumulated, newSources)| && i >= |accumulated|
    ensures MergeSources(accumulated, newSources)[i].uri !in Uris(accumulated)
  {
    var r := MergeSources(accumulated, newSources);
    assert r[i] in r[|accumulated|..];
  }

  /** The sources accumulated after each of the streamed chunks. */
  function SourcesAfter(stream: seq<StreamChunk>): (r: seq<GroundingSource>)
    ensures forall i :: 0 <= i < |r| ==> r[i].uri != ""
    decreases |stream|
  {
    if stream == [] then []
    else
      var acc := SourcesAfter(stream[..|stream| - 1]);
      var last := stream[|stream| - 1];
      if last.groundingChunks.None? then acc
      else
        var newSources := NewSources(last.groundingChunks.value);
        if |newSources| > 0 then MergeSources(acc, newSources) else acc
  }

  /** One more chunk: the sources merged so far, then that chunk's new ones. */
  lemma SourcesAfterStep(stream: seq<StreamChunk>, i: nat)
    requires i < |stream|
    ensures var acc := SourcesAfter(stream[..i]);
      SourcesAfter(stream[..i + 1]) ==
        if stream[i].groundingChunks.None? then acc
        else if |NewSources(stream[i].groundingChunks.value)| > 0 then MergeSources(acc, NewSources(stream[i].groundingChunks.value))
        else acc
  {
    assert stream[..i + 1][..i] == stream[..i];
  }

  /** Sources once accumulated stay, in place, whatever arrives later. */
  lemma {:induction false} SourcesOnlyGrow(stream: seq<StreamChunk>, k: nat)
    requires k <= |stream|
    ensures var before := SourcesAfter(stream[..k]);
      |SourcesAfter(stream)| >= |before| && SourcesAfter(stream)[..|before|] == before
    decreases |stream| - k
  {
    if k < |stream| {
      var init := stream[..|stream| - 1];
      assert init[..k] == stream[..k];
      SourcesOnlyGrow(init, k);
      var before := SourcesAfter(stream[..k]);
      var mid := SourcesAfter(init);
      assert SourcesAfter(stream)[..|mid|] == mid;
      assert mid[..|before|] == before;
    } else {
      assert stream[..k] == stream;
    }
  }

  /** The text accumulated from the streamed chunks: their texts concatenated in order. */
  function TextAfter(stream: seq<StreamChunk>): string
    decreases |stream|
  {
    if stream == [] then "" else TextAfter(stream[..|stream| - 1]) + stream[|stream| - 1].text
  }

  lemma TextAfterStep(stream: seq<StreamChunk>, i: nat)
    requires i < |stream|
    ensures TextAfter(stream[..i + 1]) == TextAfter(stream[..i]) + stream[i].text
  {
    assert stream[..i + 1][..i] == stream[..i];
  }

  /** The accumulated text extends what was shown before, by exactly the later texts. */
  lemma {:induction false} TextAfterAppend(a: seq<StreamChunk>, b: seq<StreamChunk>)
    ensures TextAfter(a + b) == TextAfter(a) + TextAfter(b)
    decreases |b|
  {
    if b == [] {
      assert a + b == a;
    } else {
      var b' := b[..|b| - 1];
      assert (a + b)[..|a + b| - 1] == a + b';
      TextAfterAppend(a, b');
    }
  }

  /** `groundingSources: accumulatedSources.length > 0 ? accumulatedSources : undefined`. */
  function SourcesField(sources: seq<GroundingSource>): (r: Option<seq<GroundingSource>>)
    ensures r.None? <==> sources == []
    ensures r.Some? ==> r.value == sources
  {
    if |sources| > 0 then Some(sources) else None
  }

  // ---------------------------------------------------------------- update by id

  /** The two rewrites of the placeholder: streamed content, or a failure reply. */
  datatype Update = Content(text: string, sources: seq<GroundingSource>) | Failed(text: string)

  /** The spread update of the matching message: id, role and attachment are kept. */
  function Apply(m: Message, u: Update): (r: Message)
    ensures r.id == m.id && r.role == m.role && r.attachment == m.attachment
    ensures r.text == u.text
    ensures u.Failed? ==> r.isError == Some(true) && r.groundingSources == m.groundingSources
    ensures u.Content? ==> r.isError == m.isError
  {
    match u
    case Content(text, sources) => m.(text := text, groundingSources := SourcesField(sources))
    case Failed(text) => m.(text := text, isError := Some(true))
  }

  /** `prev.map(msg => msg.id === id ? update(msg) : msg)`. */
  function UpdateById(messages: seq<Message>, id: string, u: Update): (r: seq<Message>)
    ensures |r| == |messages|
    ensures forall i :: 0 <= i < |messages| ==> r[i] == if messages[i].id == id then Apply(messages[i], u) else messages[i]
  {
    seq(|messages|, i requires 0 <= i < |messages| => if messages[i].id == id then Apply(messages[i], u) else messages[i])
  }

  /** Rewriting the content twice is rewriting it once with the later content. */
  lemma ContentOverwrites(messages: seq<Message>, id: string, a: Update, b: Update)
    requires a.Content? && b.Content?
    ensures UpdateById(UpdateById(messages, id, a), id, b) == UpdateById(messages, id, b)
  {
    var l := UpdateById(UpdateById(messages, id, a), id, b);
    var r := UpdateById(messages, id, b);
    forall i | 0 <= i < |messages| ensures l[i] == r[i] {
    }
  }

  // ---------------------------------------------------------------- error replies

  const Offline := "It looks like " + "you're offline. " + "Please check " + "your internet " + "connection and " + "try again."
  const HighTraffic := "I'm currently " + "experiencing " + "high traffic. " + "Please give " + "me a moment " + "and try again."
  const MessageLimit := "I've reached " + "my message limit " + "for now. Please " + "wait a minute " + "before asking " + "again."
  const Configuration := "There seems " + "to be a configuration " + "issue with the " + "service connection. " + "Please refresh " + "the page."
  const Region := "I'm sorry, but " + "this service " + "might not be " + "available in " + "your region " + "yet."
  const Safety := "I couldn't provide " + "a response to " + "that specific " + "request due " + "to safety guidelines. " + "Please try asking " + "in a different " + "way."
  const Fallback := "I'm having trouble " + "connecting right " + "now. Please " + "try again in " + "a moment."

  /** The message the chat service throws for an HTTP 503, written in pieces
      around its keyword. */
  const ServiceOverloadedHead := "The " + "service " + "is " + "currently "
  const OverloadedKeyword := "overloaded"
  const ServiceOverloadedTail := ". Please " + "try " + "again " + "in a " + "moment."
  const ServiceOverloaded := ServiceOverloadedHead + OverloadedKeyword + ServiceOverloadedTail

  datatype Category = Network | Overload | RateLimit | Auth | Location | Unsafe | Passthrough | Default

  predicate AnyOf(s: string, needles: seq<string>) {
    exists k :: 0 <= k < |needles| && JsStrings.Contains(s, needles[k])
  }

  const NetworkNeedles := ["fetch failed", "networkerror", "failed to fetch", "network request failed"]
  const OverloadNeedles := ["503", "overloaded", "capacity"]
  const RateLimitNeedles := ["429", "quota", "limit"]
  const AuthNeedles := ["403", "key", "unauthorized", "permission"]
  const LocationNeedles := ["location", "region", "supported"]
  const SafetyNeedles := ["safety", "blocked", "candidate"]

  /** The if-else chain over the lowercased message of a thrown `Error`. */
  function Classify(e: Thrown): (r: Category)
    ensures e.OtherValue? ==> r == Default
    ensures r == Passthrough ==> e.ErrorValue? && |e.message| < 200 && !JsStrings.Contains(JsStrings.Lower(e.message), "{")
  {
    match e
    case OtherValue => Default
    case ErrorValue(message) =>
      var msg := JsStrings.Lower(message);
      if JsStrings.Contains(msg, "fetch failed") || JsStrings.Contains(msg, "networkerror")
         || JsStrings.Contains(msg, "failed to fetch") || JsStrings.Contains(msg, "network request failed") then Network
      else if JsStrings.Contains(msg, "503") || JsStrings.Contains(msg, "overloaded") || JsStrings.Contains(msg, "capacity") then Overload
      else if JsStrings.Contains(msg, "429") || JsStrings.Contains(msg, "quota") || JsStrings.Contains(msg, "limit") then RateLimit
      else if JsStrings.Contains(msg, "403") || JsStrings.Contains(msg, "key") || JsStrings.Contains(msg, "unauthorized")
         || JsStrings.Contains(msg, "permission") then Auth
      else if JsStrings.Contains(msg, "location") || JsStrings.Contains(msg, "region") || JsStrings.Contains(msg, "supported") then Location
      else if JsStrings.Contains(msg, "safety") || JsStrings.Contains(msg, "blocked") || JsStrings.Contains(msg, "candidate") then Unsafe
      else if !JsStrings.Contains(msg, "{") && !JsStrings.Contains(msg, "Error:") && |message| < 200 then Passthrough
      else Default
  }

  /** The ordered keyword rules, as a table. */
  const Rules: seq<(Category, seq<string>)> := [
    (Network, NetworkNeedles), (Overload, OverloadNeedles), (RateLimit, RateLimitNeedles),
    (Auth, AuthNeedles), (Location, LocationNeedles), (Unsafe, SafetyNeedles)
  ]

  /** The category of the first rule with a keyword in `msg`, if any. */
  function FirstMatch(msg: string, rules: seq<(Category, seq<string>)>): (r: Option<Category>)
    decreases |rules|
  {
    if rules == [] then None
    else if AnyOf(msg, rules[0].1) then Some(rules[0].0)
    else FirstMatch(msg, rules[1..])
  }

  /** First match means: no rule matches and the result is None, or the result is
      the category of a matching rule with no matching rule before it. */
  lemma {:induction false} FirstMatchSpec(msg: string, rules: seq<(Category, seq<string>)>)
    ensures FirstMatch(msg, rules).None? <==> forall k :: 0 <= k < |rules| ==> !AnyOf(msg, rules[k].1)
    ensures FirstMatch(msg, rules).Some? ==>
      exists k :: (0 <= k < |rules| && rules[k].0 == FirstMatch(msg, rules).value
        && AnyOf(msg, rules[k].1) && forall j :: 0 <= j < k ==> !AnyOf(msg, rules[j].1))
    decreases |rules|
  {
    if rules != [] && !AnyOf(msg, rules[0].1) {
      var tail := rules[1..];
      FirstMatchSpec(msg, tail);
      assert forall k :: 1 <= k < |rules| ==> rules[k] == tail[k - 1];
      var r := FirstMatch(msg, tail);
      if r.Some? {
        var k :| 0 <= k < |tail| && tail[k].0 == r.value && AnyOf(msg, tail[k].1)
          && forall j :: 0 <= j < k ==> !AnyOf(msg, tail[j].1);
        assert rules[k + 1].0 == r.value && AnyOf(msg, rules[k + 1].1);
        assert forall j :: 0 <= j < k + 1 ==> !AnyOf(msg, rules[j].1) by {
          forall j | 0 < j < k + 1 ensures !AnyOf(msg, rules[j].1) {
            assert rules[j] == tail[j - 1];
          }
        }
      } else {
        forall k | 0 <= k < |rules| ensures !AnyOf(msg, rules[k].1) {
          if k > 0 { assert rules[k] == tail[k - 1]; }
        }
      }
    }
  }

  /** The passthrough test as it reduces: a lowercased message never contains
      "Error:", so only the brace and the length decide. */
  predicate PassesThrough(message: string) {
    !JsStrings.Contains(JsStrings.Lower(message), "{") && |message| < 200
  }

  lemma AnyOf3(msg: string, a: string, b: string, c: string)
    ensures AnyOf(msg, [a, b, c]) <==>
      (JsStrings.Contains(msg, a) || JsStrings.Contains(msg, b) || JsStrings.Contains(msg, c))
  {
    var n := [a, b, c];
    if JsStrings.Contains(msg, a) { assert JsStrings.Contains(msg, n[0]); }
    if JsStrings.Contains(msg, b) { assert JsStrings.Contains(msg, n[1]); }
    if JsStrings.Contains(msg, c) { assert JsStrings.Contains(msg, n[2]); }
  }

  lemma AnyOf4(msg: string, a: string, b: string, c: string, d: string)
    ensures AnyOf(msg, [a, b, c, d]) <==>
      (JsStrings.Contains(msg, a) || JsStrings.Contains(msg, b) || JsStrings.Contains(msg, c) || JsStrings.Contains(msg, d))
  {
    var n := [a, b, c, d];
    if JsStrings.Contains(msg, a) { assert JsStrings.Contains(msg, n[0]); }
    if JsStrings.Contains(msg, b) { assert JsStrings.Contains(msg, n[1]); }
    if JsStrings.Contains(msg, c) { assert JsStrings.Contains(msg, n[2]); }
    if JsStrings.Contains(msg, d) { assert JsStrings.Contains(msg, n[3]); }
  }

  /** `FirstMatch` over the rule table, unrolled. */
  lemma FirstMatchOfRules(msg: string)
    ensures FirstMatch(msg, Rules) ==
      if AnyOf(msg, NetworkNeedles) then Some(Network)
      else if AnyOf(msg, OverloadNeedles) then Some(Overload)
      else if AnyOf(msg, RateLimitNeedles) then Some(RateLimit)
      else if AnyOf(msg, AuthNeedles) then Some(Auth)
      else if AnyOf(msg, LocationNeedles) then Some(Location)
      else if AnyOf(msg, SafetyNeedles) then Some(Unsafe)
      else None
  {
    var r1 := Rules[1..];
    var r2 := r1[1..];
    var r3 := r2[1..];
    var r4 := r3[1..];
    var r5 := r4[1..];
    assert Rules[0] == (Network, NetworkNeedles) && r1[0] == (Overload, OverloadNeedles);
    assert r2[0] == (RateLimit, RateLimitNeedles) && r3[0] == (Auth, AuthNeedles);
    assert r4[0] == (Location, LocationNeedles) && r5[0] == (Unsafe, SafetyNeedles);
    assert r5[1..] == [];
    assert FirstMatch(msg, r5) == if AnyOf(msg, SafetyNeedles) then Some(Unsafe) else None;
    assert FirstMatch(msg, r4) == if AnyOf(msg, LocationNeedles) then Some(Location) else FirstMatch(msg, r5);
    assert FirstMatch(msg, r3) == if AnyOf(msg, AuthNeedles) then Some(Auth) else FirstMatch(msg, r4);
    assert FirstMatch(msg, r2) == if AnyOf(msg, RateLimitNeedles) then Some(RateLimit) else FirstMatch(msg, r3);
    assert FirstMatch(msg, r1) == if AnyOf(msg, OverloadNeedles) then Some(Overload) else FirstMatch(msg, r2);
  }

  /** The chain is first-match over the rule table, then passthrough, then the default. */
  lemma ClassifyIsFirstMatch(message: string)
    ensures Classify(ErrorValue(message)) ==
      match FirstMatch(JsStrings.Lower(message), Rules)
      case Some(c) => c
      case None => if PassesThrough(message) then Passthrough else Default
  {
    var msg := JsStrings.Lower(message);
    JsStrings.LowerMissesUpper(message, "Error:", 0);
    FirstMatchOfRules(msg);
    AnyOf4(msg, "fetch failed", "networkerror", "failed to fetch", "network request failed");
    AnyOf3(msg, "503", "overloaded", "capacity");
    AnyOf3(msg, "429", "quota", "limit");
    AnyOf4(msg, "403", "key", "unauthorized", "permission");
    AnyOf3(msg, "location", "region", "supported");
    AnyOf3(msg, "safety", "blocked", "candidate");
  }

  /** The reply shown for a failure. */
  function ErrorReply(e: Thrown): (r: string)
    ensures e.OtherValue? ==> r == Fallback
    ensures Classify(e) == Passthrough ==> e.ErrorValue? && r == e.message && |r| < 200
  {
    match Classify(e)
    case Network => Offline
    case Overload => HighTraffic
    case RateLimit => MessageLimit
    case Auth => Configuration
    case Location => Region
    case Unsafe => Safety
    case Passthrough => e.message
    case Default => Fallback
  }

  /** Neither case of `f` or `w` occurs in `s`. */
  predicate LacksFW(s: string) {
    'f' !in s && 'F' !in s && 'w' !in s && 'W' !in s
  }

  lemma HeadLacksFW()
    ensures LacksFW(ServiceOverloadedHead)
  {
  }

  lemma TailLacksFW()
    ensures LacksFW(ServiceOverloadedTail)
  {
  }

  /** Neither case of `f` or `w` occurs in the overload message. */
  lemma NoFOrW()
    ensures 'f' !in JsStrings.Lower(ServiceOverloaded)
    ensures 'w' !in JsStrings.Lower(ServiceOverloaded)
  {
    HeadLacksFW();
    TailLacksFW();
    assert LacksFW(OverloadedKeyword);
    JsStrings.LowerAvoids(ServiceOverloaded, 'f');
    JsStrings.LowerAvoids(ServiceOverloaded, 'w');
  }

  lemma NoNetworkKeyword()
    ensures !AnyOf(JsStrings.Lower(ServiceOverloaded), NetworkNeedles)
  {
    NoFOrW();
    var msg := JsStrings.Lower(ServiceOverloaded);
    JsStrings.MissingChar(msg, "fetch failed", 'f');
    JsStrings.MissingChar(msg, "networkerror", 'w');
    JsStrings.MissingChar(msg, "failed to fetch", 'f');
    JsStrings.MissingChar(msg, "network request failed", 'w');
    AnyOf4(msg, "fetch failed", "networkerror", "failed to fetch", "network request failed");
  }

  lemma KeywordIsLower()
    ensures JsStrings.Lower(OverloadedKeyword) == OverloadedKeyword
  {
    JsStrings.LowerOfLower(OverloadedKeyword);
  }

  lemma Middle(a: string, k: string, b: string)
    ensures JsStrings.At(a + k + b, k, |a|)
  {
    assert (a + k + b)[|a|..|a| + |k|] == k;
  }

  lemma HasOverloadKeyword()
    ensures AnyOf(JsStrings.Lower(ServiceOverloaded), OverloadNeedles)
  {
    var h, k, t := ServiceOverloadedHead, OverloadedKeyword, ServiceOverloadedTail;
    JsStrings.LowerAppend(h + k, t);
    JsStrings.LowerAppend(h, k);
    KeywordIsLower();
    var msg := JsStrings.Lower(ServiceOverloaded);
    assert msg == JsStrings.Lower(h) + k + JsStrings.Lower(t);
    Middle(JsStrings.Lower(h), k, JsStrings.Lower(t));
    AnyOf3(msg, "503", "overloaded", "capacity");
  }

  /** The service's own overload message gets the high-traffic reply: it holds
      none of the network keywords and does hold "overloaded". */
  lemma OverloadedServiceReply()
    ensures Classify(ErrorValue(ServiceOverloaded)) == Overload
    ensures ErrorReply(ErrorValue(ServiceOverloaded)) == HighTraffic
  {
    NoNetworkKeyword();
    HasOverloadKeyword();
    ClassifyIsFirstMatch(ServiceOverloaded);
    FirstMatchOfRules(JsStrings.Lower(ServiceOverloaded));
  }

  // ---------------------------------------------------------------- the turn

  /** The user's bubble: an image attachment exactly when the image payload is truthy. */
  function UserMessage(id: string, text: string, image: Option<string>): (r: Message)
    ensures r.id == id && r.role == User && r.text == text && r.isError.None? && r.groundingSources.None?
    ensures r.attachment.Some? <==> image.Some? && image.value != ""
    ensures r.attachment.Some? ==> r.attachment.value.content == image.value
  {
    Message(id, User, text, None, None,
      if image.Some? && image.value != "" then Some(Image(image.value)) else None)
  }

  function Placeholder(id: string): Message {
    Message(id, Model, "", None, None, None)
  }

  /** The list once `stream` has arrived: the placeholder rewritten with the content
      accumulated so far, if anything arrived. */
  function AfterStream(added: seq<Message>, modelId: string, stream: seq<StreamChunk>): seq<Message> {
    if stream == [] then added else UpdateById(added, modelId, Content(TextAfter(stream), SourcesAfter(stream)))
  }

  /** Each chunk rewrites the placeholder again, with everything accumulated so far. */
  lemma StreamStep(added: seq<Message>, modelId: string, stream: seq<StreamChunk>, i: nat)
    requires i < |stream|
    ensures AfterStream(added, modelId, stream[..i + 1]) ==
      UpdateById(AfterStream(added, modelId, stream[..i]), modelId,
        Content(TextAfter(stream[..i + 1]), SourcesAfter(stream[..i + 1])))
  {
    var next := Content(TextAfter(stream[..i + 1]), SourcesAfter(stream[..i + 1]));
    assert stream[..i + 1] != [];
    if i > 0 {
      assert stream[..i] != [];
      ContentOverwrites(added, modelId, Content(TextAfter(stream[..i]), SourcesAfter(stream[..i])), next);
    }
  }

  /** The list after a whole turn: the two new messages appended, the placeholder
      rewritten with the streamed content if anything arrived, then with the failure
      reply if the stream threw. */
  function Turn(messages: seq<Message>, text: string, image: Option<string>, userId: string, modelId: string,
                stream: seq<StreamChunk>, thrown: Option<Thrown>): (r: seq<Message>)
    ensures |r| == |messages| + 2
  {
    var added := messages + [UserMessage(userId, text, image)] + [Placeholder(modelId)];
    AfterFailure(AfterStream(added, modelId, stream), modelId, thrown)
  }

  /** The list once the stream has ended: unchanged, or, if it threw, the
      placeholder rewritten with the failure reply. */
  function AfterFailure(streamed: seq<Message>, modelId: string, thrown: Option<Thrown>): seq<Message> {
    if thrown.None? then streamed else UpdateById(streamed, modelId, Failed(ErrorReply(thrown.value)))
  }

  predicate FreshIds(messages: seq<Message>, userId: string, modelId: string) {
    userId != modelId && forall i :: 0 <= i < |messages| ==> messages[i].id != modelId
  }

  /** A turn appends exactly two messages and leaves the earlier ones as they were. */
  lemma TurnAppendsTwo(messages: seq<Message>, text: string, image: Option<string>, userId: string, modelId: string,
                       stream: seq<StreamChunk>, thrown: Option<Thrown>)
    requires FreshIds(messages, userId, modelId)
    ensures var r := Turn(messages, text, image, userId, modelId, stream, thrown);
      && |r| == |messages| + 2
      && r[..|messages|] == messages
      && r[|messages|] == UserMessage(userId, text, image)
      && (r[|messages|].attachment.Some? <==> image.Some? && image.value != "")
      && r[|messages| + 1].id == modelId && r[|messages| + 1].role == Model && r[|messages| + 1].attachment.None?
  {
    var r := Turn(messages, text, image, userId, modelId, stream, thrown);
    forall i | 0 <= i < |messages| ensures r[i] == messages[i] {
    }
  }

  /** The model message of a turn: the concatenated chunk texts and the merged sources,
      or, if the stream threw, the failure reply marked as an error (keeping any sources
      already shown). */
  lemma TurnModelMessage(messages: seq<Message>, text: string, image: Option<string>, userId: string, modelId: string,
                         stream: seq<StreamChunk>, thrown: Option<Thrown>)
    requires FreshIds(messages, userId, modelId)
    ensures var m := Turn(messages, text, image, userId, modelId, stream, thrown)[|messages| + 1];
      && m.text == (if thrown.Some? then ErrorReply(thrown.value) else TextAfter(stream))
      && m.isError == (if thrown.Some? then Some(true) else None)
      && m.groundingSources == (if stream == [] then None else SourcesField(SourcesAfter(stream)))
  {
    var added := messages + [UserMessage(userId, text, image)] + [Placeholder(modelId)];
    var n := |messages| + 1;
    var p := AfterStream(added, modelId, stream)[n];
    assert added[n] == Placeholder(modelId);
    assert p == if stream == [] then Placeholder(modelId)
      else Apply(Placeholder(modelId), Content(TextAfter(stream), SourcesAfter(stream)));
  }

  // ---------------------------------------------------------------- the component

  class ChatApp {
    var messages: seq<Message>
    var isTyping: bool

    constructor ()
      ensures messages == [] && !isTyping
    {
      messages := [];
      isTyping := false;
    }

    /** `handleSendMessage`: the stream delivers `stream` and then either ends
        (`thrown` is None) or throws. The ids are the two fresh uuids. */
    method SendMessage(text: string, image: Option<string>, userId: string, modelId: string,
                       stream: seq<StreamChunk>, thrown: Option<Thrown>)
      modifies this
      ensures messages == Turn(old(messages), text, image, userId, modelId, stream, thrown)
      ensures !isTyping
    {
      var userMessage := UserMessage(userId, text, image);
      messages := messages + [userMessage];
      isTyping := true;
      var initialModelMessage := Placeholder(modelId);
      messages := messages + [initialModelMessage];
      ReadStream(modelId, stream);
      Finish(modelId, thrown);
    }

    /** The `catch` and `finally` blocks. */
    method Finish(modelId: string, thrown: Option<Thrown>)
      modifies this
      ensures messages == AfterFailure(old(messages), modelId, thrown)
      ensures !isTyping
    {
      if thrown.Some? {
        var errorMessage := ErrorReply(thrown.value);
        messages := UpdateById(messages, modelId, Failed(errorMessage));
      }
      isTyping := false;
    }

    /** The `for await` loop: after each chunk the placeholder shows everything
        accumulated so far. */
    method ReadStream(modelId: string, stream: seq<StreamChunk>)
      modifies this`messages
      ensures messages == AfterStream(old(messages), modelId, stream)
    {
      ghost var added := messages;
      var accumulatedText := "";
      var accumulatedSources: seq<GroundingSource> := [];
      for i := 0 to |stream|
        invariant accumulatedText == TextAfter(stream[..i])
        invariant accumulatedSources == SourcesAfter(stream[..i])
        invariant messages == AfterStream(added, modelId, stream[..i])
      {
        var chunk := stream[i];
        TextAfterStep(stream, i);
        SourcesAfterStep(stream, i);
        StreamStep(added, modelId, stream, i);
        accumulatedText := accumulatedText + chunk.text;
        if chunk.groundingChunks.Some? {
          var newSources := NewSources(chunk.groundingChunks.value);
          if |newSources| > 0 {
            accumulatedSources := MergeSources(accumulatedSources, newSources);
          }
        }
        messages := UpdateById(messages, modelId, Content(accumulatedText, accumulatedSources));
      }
      assert stream[..|stream|] == stream;
    }
  }
}
