/**
 * The playback scheduler of a live call, as pure state transitions: the
 * `nextStartTime` cursor, the insertion-ordered set of playing sources, and the
 * logs of `source.start(at)` calls, `source.stop()` calls and status reports.
 * A source is identified by its position in the log of start calls.
 */
module Playback {

  const Speaking := "Speaking..."
  const Listening := "Listening..."

  type Seconds = r: real | r >= 0.0
  type Handle = nat

  /** One `source.start(start)` of a buffer lasting `duration` seconds. */
  datatype Scheduled = Scheduled(start: real, duration: real) {
    function End(): real { start + duration }
  }

  datatype Scheduler = Scheduler(
    cursor: real,            // nextStartTime
    active: seq<Handle>,     // the `sources` set, in insertion order
    scheduled: seq<Scheduled>,
    stopped: seq<Handle>,
    status: seq<string>)

  const Initial := Scheduler(0.0, [], [], [], [])

  function Max(a: real, b: real): real { if a >= b then a else b }

  /** `h` was started before `g` and has ended by the time `g` starts. */
  predicate Before(s: Scheduler, h: Handle, g: Handle)
    requires h < |s.scheduled| && g < |s.scheduled|
  {
    h < g && s.scheduled[h].End() <= s.scheduled[g].start
  }

  /** The scheduler's invariant: active sources are started sources, in start order,
      pairwise non-overlapping, all ending by the cursor; durations are non-negative. */
  predicate Valid(s: Scheduler) {
    && (forall i :: 0 <= i < |s.active| ==> s.active[i] < |s.scheduled|)
    && (forall k :: 0 <= k < |s.scheduled| ==> s.scheduled[k].duration >= 0.0)
    && (forall i :: 0 <= i < |s.active| ==> s.scheduled[s.active[i]].End() <= s.cursor)
    && (forall i, j :: 0 <= i < j < |s.active| ==> Before(s, s.active[i], s.active[j]))
  }

  /** The audio branch of `onmessage` once the chunk is decoded: start it at
      max(cursor, clock), move the cursor to its end and add its source to the set. */
  function Schedule(s: Scheduler, duration: Seconds, clock: Seconds): (r: Scheduler)
    ensures |r.scheduled| == |s.scheduled| + 1 && r.scheduled[..|s.scheduled|] == s.scheduled
    ensures var p := r.scheduled[|s.scheduled|];
      && p.start >= s.cursor && p.start >= clock && (p.start == s.cursor || p.start == clock)
      && p.duration == duration && r.cursor == p.start + duration
    ensures r.active == s.active + [|s.scheduled|]
    ensures r.stopped == s.stopped && r.status == s.status
  {
    var start := Max(s.cursor, clock);
    s.(cursor := start + duration,
       active := s.active + [|s.scheduled|],
       scheduled := s.scheduled + [Scheduled(start, duration)])
  }

  /** `sources.delete(h)`. */
  function Remove(a: seq<Handle>, h: Handle): (r: seq<Handle>)
    ensures forall x :: x in r <==> x in a && x != h
    ensures |r| <= |a|
  {
    if a == [] then []
    else (if a[0] == h then [] else [a[0]]) + Remove(a[1..], h)
  }

  /** `onended` of source `h`: it leaves the set, and "Listening..." is reported exactly
      when the set is then empty. */
  function Ended(s: Scheduler, h: Handle): (r: Scheduler)
    ensures forall x :: x in r.active <==> x in s.active && x != h
    ensures r.status == s.status + (if r.active == [] then [Listening] else [])
    ensures r.cursor == s.cursor && r.scheduled == s.scheduled && r.stopped == s.stopped
  {
    var active := Remove(s.active, h);
    s.(active := active, status := if active == [] then s.status + [Listening] else s.status)
  }

  /** The interrupted branch of `onmessage`: stop every source in insertion order,
      clear the set, reset the cursor to 0 and report "Listening...". */
  function Interrupt(s: Scheduler): (r: Scheduler)
    ensures r.active == [] && r.cursor == 0.0
    ensures r.stopped == s.stopped + s.active && r.status == s.status + [Listening]
    ensures r.scheduled == s.scheduled
  {
    s.(cursor := 0.0, active := [], stopped := s.stopped + s.active, status := s.status + [Listening])
  }

  /** What a message's audio field holds: nothing, a chunk that fails to decode, a
      decoded chunk, or a path whose reading throws. */
  datatype Audio = NoAudio | Undecodable | Decoded(duration: Seconds) | Unreadable

  /** `onmessage`: reading an audio field that throws aborts the callback at once; an
      audio payload first reports "Speaking..."; a decode failure then aborts the
      callback, so the interrupted flag of that message is never examined; otherwise
      the chunk is scheduled and only then is the flag handled. */
  function Receive(s: Scheduler, audio: Audio, interrupted: bool, clock: Seconds): (r: Scheduler)
    ensures audio != NoAudio && audio != Unreadable ==> |r.status| > |s.status| && r.status[|s.status|] == Speaking
    ensures audio == NoAudio ==> r.scheduled == s.scheduled
    ensures audio == Unreadable ==> r == s
    ensures audio == Undecodable ==> r == s.(status := s.status + [Speaking])
    ensures audio.Decoded? ==> |r.scheduled| == |s.scheduled| + 1
    ensures audio.Decoded? && interrupted ==>
      r.active == [] && r.stopped == s.stopped + s.active + [|s.scheduled|]
    ensures interrupted && audio != Undecodable && audio != Unreadable ==> r.active == [] && r.cursor == 0.0
    ensures interrupted && audio != Undecodable && audio != Unreadable ==> |r.status| > 0 && r.status[|r.status| - 1] == Listening
    ensures audio == NoAudio && !interrupted ==> r == s
    ensures audio.Decoded? ==> r.scheduled[|s.scheduled|] == Scheduled(Max(s.cursor, clock), audio.duration)
    ensures audio.Decoded? && !interrupted ==> r.cursor == Max(s.cursor, clock) + audio.duration
    ensures !interrupted ==> r.stopped == s.stopped
  {
    match audio
    case NoAudio => if interrupted then Interrupt(s) else s
    case Undecodable => s.(status := s.status + [Speaking])
    case Unreadable => s
    case Decoded(d) =>
      var played := Schedule(s.(status := s.status + [Speaking]), d, clock);
      if interrupted then Interrupt(played) else played
  }

  /** The callbacks that drive the scheduler. */
  datatype Event = Message(audio: Audio, interrupted: bool, clock: Seconds) | SourceEnded(h: Handle)

  /** One callback only appends to the logs of starts, stops and status reports. */
  function Step(s: Scheduler, e: Event): (r: Scheduler)
    ensures s.scheduled <= r.scheduled && s.stopped <= r.stopped && s.status <= r.status
  {
    match e
    case Message(audio, interrupted, clock) => Receive(s, audio, interrupted, clock)
    case SourceEnded(h) => Ended(s, h)
  }

  /** The callbacks in order; the logs of the whole call extend those it started with. */
  function Run(s: Scheduler, events: seq<Event>): (r: Scheduler)
    ensures s.scheduled <= r.scheduled && s.stopped <= r.stopped && s.status <= r.status
    decreases |events|
  {
    if events == [] then s else Run(Step(s, events[0]), events[1..])
  }

  /** A scheduler that has started nothing is valid, whatever it has reported. */
  lemma IdleValid(s: Scheduler)
    requires s.active == [] && s.scheduled == []
    ensures Valid(s)
  {
  }

  /** A new chunk starts no earlier than the end of every active one. */
  lemma ScheduleValid(s: Scheduler, duration: Seconds, clock: Seconds)
    requires Valid(s)
    ensures Valid(Schedule(s, duration, clock))
  {
    var r := Schedule(s, duration, clock);
    var n := |s.scheduled|;
    forall i, j | 0 <= i < j < |r.active| ensures Before(r, r.active[i], r.active[j]) {
      if j == |s.active| {
        assert r.active[j] == n && r.active[i] == s.active[i];
      } else {
        assert Before(s, s.active[i], s.active[j]);
      }
    }
  }

  lemma {:induction false} RemoveKeepsOrder(s: Scheduler, a: seq<Handle>, h: Handle)
    requires forall i :: 0 <= i < |a| ==> a[i] < |s.scheduled|
    requires forall i, j :: 0 <= i < j < |a| ==> Before(s, a[i], a[j])
    ensures forall i :: 0 <= i < |Remove(a, h)| ==> Remove(a, h)[i] in a
    ensures forall i, j :: 0 <= i < j < |Remove(a, h)| ==> Before(s, Remove(a, h)[i], Remove(a, h)[j])
    decreases |a|
  {
    if a != [] {
      var rest := Remove(a[1..], h);
      RemoveKeepsOrder(s, a[1..], h);
      var r := Remove(a, h);
      if a[0] != h {
        assert r == [a[0]] + rest;
        forall j | 0 < j < |r| ensures Before(s, r[0], r[j]) {
          assert r[j] == rest[j - 1] && rest[j - 1] in a[1..];
          var k :| 1 <= k < |a| && a[k] == r[j];
        }
      }
    }
  }

  lemma EndedValid(s: Scheduler, h: Handle)
    requires Valid(s)
    ensures Valid(Ended(s, h))
  {
    RemoveKeepsOrder(s, s.active, h);
  }

  lemma ReceiveValid(s: Scheduler, audio: Audio, interrupted: bool, clock: Seconds)
    requires Valid(s)
    ensures Valid(Receive(s, audio, interrupted, clock))
  {
    if audio.Decoded? {
      ScheduleValid(s.(status := s.status + [Speaking]), audio.duration, clock);
    }
  }

  /** Whatever the callbacks and their order, the invariant holds throughout. */
  lemma {:induction false} RunValid(s: Scheduler, events: seq<Event>)
    requires Valid(s)
    ensures Valid(Run(s, events))
    decreases |events|
  {
    if events != [] {
      match events[0] {
        case Message(audio, interrupted, clock) => ReceiveValid(s, audio, interrupted, clock);
        case SourceEnded(h) => EndedValid(s, h);
      }
      RunValid(Step(s, events[0]), events[1..]);
    }
  }

  /** Decoded chunks with no interruption. */
  predicate Uninterrupted(events: seq<Event>) {
    forall k :: 0 <= k < |events| ==> events[k].Message? && events[k].audio.Decoded? && !events[k].interrupted
  }

  function Durations(events: seq<Event>): real
    requires Uninterrupted(events)
    decreases |events|
  {
    if events == [] then 0.0 else events[0].audio.duration + Durations(events[1..])
  }

  /** The clock of every chunk is at most the cursor when it arrives. */
  predicate ClockBehind(cursor: real, events: seq<Event>)
    requires Uninterrupted(events)
    decreases |events|
  {
    events == [] || (events[0].clock <= cursor && ClockBehind(cursor + events[0].audio.duration, events[1..]))
  }

  lemma DurationsPrefix(events: seq<Event>, k: nat)
    requires Uninterrupted(events) && 0 < k <= |events|
    ensures Uninterrupted(events[1..][..k - 1])
    ensures Durations(events[..k]) == events[0].audio.duration + Durations(events[1..][..k - 1])
  {
    assert events[..k][1..] == events[1..][..k - 1];
  }

  /** The k-th start of a run, from the (k-1)-th start of the run after its first chunk. */
  lemma GaplessShift(cursor: real, d: real, n: nat, scheduled: seq<Scheduled>, events: seq<Event>, k: nat)
    requires Uninterrupted(events) && 0 < k < |events| && d == events[0].audio.duration
    requires |scheduled| >= n + |events|
    requires forall j :: 0 <= j < |events[1..]| ==>
      scheduled[(n + 1) + j].start == cursor + d + Durations(events[1..][..j])
    ensures scheduled[n + k].start == cursor + Durations(events[..k])
  {
    DurationsPrefix(events, k);
    assert scheduled[n + k] == scheduled[(n + 1) + (k - 1)];
  }

  /** Gapless chaining: with no interruption and the clock never ahead of the cursor, the
      k-th chunk starts at the first chunk's start plus the durations of the k before it,
      so each starts exactly where its predecessor ends, and the cursor ends at the last end. */
  lemma {:induction false} Gapless(s: Scheduler, events: seq<Event>)
    requires Uninterrupted(events) && ClockBehind(s.cursor, events)
    ensures var r := Run(s, events);
      && |r.scheduled| == |s.scheduled| + |events|
      && r.scheduled[..|s.scheduled|] == s.scheduled
      && (forall k :: 0 <= k < |events| ==> r.scheduled[|s.scheduled| + k].start == s.cursor + Durations(events[..k]))
      && r.cursor == s.cursor + Durations(events)
    decreases |events|
  {
    if events != [] {
      var e := events[0];
      var s1 := Step(s, e);
      assert s1 == Schedule(s.(status := s.status + [Speaking]), e.audio.duration, e.clock);
      assert s1.cursor == s.cursor + e.audio.duration;
      Gapless(s1, events[1..]);
      var r := Run(s, events);
      assert r == Run(s1, events[1..]);
      var n := |s.scheduled|;
      assert r.scheduled[n] == r.scheduled[..n + 1][n] == s1.scheduled[n];
      forall k | 0 < k < |events| ensures r.scheduled[n + k].start == s.cursor + Durations(events[..k]) {
        GaplessShift(s.cursor, e.audio.duration, n, r.scheduled, events, k);
      }
    }
  }

  /** Messages without interruption. */
  predicate NoInterrupt(events: seq<Event>) {
    forall k :: 0 <= k < |events| ==> events[k].Message? ==> !events[k].interrupted
  }

  /** Without an interruption the cursor never moves back. */
  lemma {:induction false} CursorNeverDecreases(s: Scheduler, events: seq<Event>)
    requires NoInterrupt(events)
    ensures Run(s, events).cursor >= s.cursor
    decreases |events|
  {
    if events != [] {
      CursorNeverDecreases(Step(s, events[0]), events[1..]);
    }
  }
}
