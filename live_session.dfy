/**
 * One live voice call: the state `startLiveSession` keeps in its closure and the
 * callbacks that change it. The playback part of that state is exactly a
 * `Playback.Scheduler`, and every callback is proved to perform the matching
 * pure transition.
 */
module LiveSession {
  import opened Wrappers
  import AudioCodec
  import Playback

  datatype Voice = Voice(id: string, title: string)

  /** The prebuilt voices a call can be configured with. */
  const VoiceOptions: seq<Voice> := [
    Voice("Kore", "Kore (Calm)"),
    Voice("Puck", "Puck (Energetic)"),
    Voice("Fenrir", "Fenrir (Deep)"),
    Voice("Zephyr", "Zephyr (Gentle)"),
    Voice("Charon", "Charon (Steady)")
  ]

  const DefaultVoice := "Kore"

  /** The default `voiceName` is the first option; the ids are distinct, and each label
      starts with its id. */
  lemma VoiceOptionsWellFormed()
    ensures |VoiceOptions| == 5 && VoiceOptions[0].id == DefaultVoice
    ensures forall i, j :: 0 <= i < j < |VoiceOptions| ==> VoiceOptions[i].id != VoiceOptions[j].id
    ensures forall i :: 0 <= i < |VoiceOptions| ==>
      |VoiceOptions[i].id| <= |VoiceOptions[i].title| && VoiceOptions[i].title[..|VoiceOptions[i].id|] == VoiceOptions[i].id
  {
  }

  const Connecting := "Connecting..."
  const Connected := "Connected"
  const Disconnected := "Disconnected"
  const ErrorStatus := "Error"
  const FailedToConnect := "Failed to connect"

  /** The sample rate inbound chunks are decoded at. */
  const OutputRate := 24000

  /** What a teardown releases, in the order it releases it. */
  datatype Resource = MicTracks | SourceNode | ScriptProcessor | InputContext | OutputContext | Transport

  /** A part of the model's turn, reduced to the data of its inline audio. */
  datatype Part = Part(inlineData: Option<string>)

  /** The model's turn in a server message; its `parts` list may be missing. */
  datatype ModelTurn = ModelTurn(parts: Option<seq<Part>>)

  /** The two fields of a server message the call looks at: the model's turn and the
      interrupted flag. */
  datatype ServerMessage = ServerMessage(modelTurn: Option<ModelTurn>, interrupted: bool)

  /** A `TypeError`: a property read on `undefined`. */
  datatype TypeError = TypeError

  /** The optional chain that reads the audio of a message. Only `[0]` is not guarded by
      `?.`, so a model turn without `parts` throws, while a missing turn, an empty
      `parts` list or a part without inline data give `undefined`. */
  function ReadAudio(m: ServerMessage): (r: Result<Option<string>, TypeError>)
    ensures r.Failure? <==> m.modelTurn.Some? && m.modelTurn.value.parts.None?
    ensures r.Success? && r.value.Some? ==>
      m.modelTurn.Some? && m.modelTurn.value.parts.Some? && |m.modelTurn.value.parts.value| > 0
      && m.modelTurn.value.parts.value[0].inlineData == r.value
    ensures m.modelTurn.None? ==> r == Success(None)
  {
    match m.modelTurn
    case None => Success(None)
    case Some(turn) =>
      match turn.parts
      case None => Failure(TypeError)
      case Some(parts) => Success(if parts == [] then None else parts[0].inlineData)
  }

  /** What a message's audio field means for playback. */
  function MessageAudio(m: ServerMessage): (r: Playback.Audio)
    ensures r.Unreadable? <==> ReadAudio(m).Failure?
    ensures ReadAudio(m).Success? ==> r == AudioOf(ReadAudio(m).value)
  {
    match ReadAudio(m)
    case Failure(_) => Playback.Unreadable
    case Success(audio) => AudioOf(audio)
  }

  /** How `onmessage` treats a message's audio: absent or empty strings are skipped;
      a payload that fails `atob` or `decodeAudioData` aborts the callback. */
  function AudioOf(audio: Option<string>): (r: Playback.Audio)
    ensures r.NoAudio? <==> audio.None? || audio.value == ""
    ensures r.Decoded? <==> r != Playback.NoAudio && AudioCodec.DecodeChunk(audio.value).Success?
  {
    if audio.None? || audio.value == "" then Playback.NoAudio
    else match AudioCodec.DecodeChunk(audio.value)
      case Failure(_) => Playback.Undecodable
      case Success(b) => Playback.Decoded(ChunkSeconds(b))
  }

  /** The duration of a buffer decoded at the output rate, as a division by that
      constant rate. */
  function ChunkSeconds(b: AudioCodec.AudioBuffer): Playback.Seconds {
    b.length as real / 24000.0
  }

  /** Every buffer the call decodes is at the output rate, so `ChunkSeconds` is
      its `duration`. */
  lemma ChunkSecondsIsDuration(base64: string)
    requires AudioCodec.DecodeChunk(base64).Success?
    ensures AudioCodec.DecodeChunk(base64).value.sampleRate == OutputRate
    ensures ChunkSeconds(AudioCodec.DecodeChunk(base64).value) == AudioCodec.Duration(AudioCodec.DecodeChunk(base64).value)
  {
    var bytes := AudioCodec.DecodeBytes(base64).value;
    assert AudioCodec.DecodeChunk(base64) == AudioCodec.ToAudioBuffer(bytes, 24000, 1);
  }

  /** A frame the call sends is playable by the call itself, one output sample per
      input sample (so it would last |data| / 24000 seconds, not |data| / 16000). */
  lemma SentFrameIsPlayable(data: seq<real>)
    requires |data| > 0
    ensures AudioOf(Some(AudioCodec.PcmBlob(data).data)) == Playback.Decoded(|data| as real / 24000.0)
  {
    AudioCodec.ChunkRoundTrip(data);
    Base64Nonempty(data);
  }

  lemma Base64Nonempty(data: seq<real>)
    requires |data| > 0
    ensures AudioCodec.PcmBlob(data).data != ""
  {
    var packed := AudioCodec.PackLE(AudioCodec.Quantized(data));
    Base64EncodeLength(packed);
  }

  lemma Base64EncodeLength(b: seq<AudioCodec.Byte>)
    requires |b| > 0
    ensures |AudioCodec.Base64.Encode(b)| > 0
  {
    AudioCodec.Base64.EncodeLength(b);
  }

  /** `decodeAudioData(decode(base64Audio), outputAudioContext, 24000, 1)`. */
  method DecodeChunk(base64Audio: string) returns (r: Result<AudioCodec.AudioBuffer, AudioCodec.Thrown>)
    ensures r == AudioCodec.DecodeChunk(base64Audio)
  {
    var bytes := AudioCodec.Decode(base64Audio);
    if bytes.Failure? {
      return Failure(bytes.error);
    }
    r := AudioCodec.DecodeAudioData(bytes.value, OutputRate, 1);
  }

  /** The meter level for a frame's RMS: five times the RMS, capped at 1. */
  function VolumeLevel(rms: real): (v: real)
    requires rms >= 0.0
    ensures 0.0 <= v <= 1.0
    ensures v == 1.0 <==> rms >= 0.2
    ensures v < 1.0 ==> v == rms * 5.0
  {
    if rms * 5.0 <= 1.0 then rms * 5.0 else 1.0
  }

  function SumOfSquares(frame: seq<real>): (r: real)
    ensures r >= 0.0
    decreases |frame|
  {
    if frame == [] then 0.0 else SumOfSquares(frame[..|frame| - 1]) + frame[|frame| - 1] * frame[|frame| - 1]
  }

  /** The volume loop of `onaudioprocess`: the mean of the squared samples. */
  method MeanSquare(frame: seq<real>) returns (m: real)
    requires |frame| > 0
    ensures m == SumOfSquares(frame) / |frame| as real
  {
    var sum := 0.0;
    for i := 0 to |frame|
      invariant sum == SumOfSquares(frame[..i])
    {
      assert frame[..i + 1][..i] == frame[..i];
      sum := sum + frame[i] * frame[i];
    }
    assert frame[..|frame|] == frame;
    m := sum / |frame| as real;
  }

  /** The place of a resource in the cleanup code. */
  function Rank(x: Resource): nat {
    match x
    case MicTracks => 0
    case SourceNode => 1
    case ScriptProcessor => 2
    case InputContext => 3
    case OutputContext => 4
    case Transport => 5
  }

  /** Teardown of a started call: the microphone tracks, the capture graph if the
      socket opened, both audio contexts and the transport. */
  function Released(capturing: bool): (r: seq<Resource>)
    ensures |r| >= 4 && r[0] == MicTracks && r[|r| - 1] == Transport
    ensures (SourceNode in r) == capturing && (ScriptProcessor in r) == capturing
    ensures InputContext in r && OutputContext in r
    ensures forall i, j :: 0 <= i < j < |r| ==> Rank(r[i]) < Rank(r[j])
  {
    [MicTracks] + (if capturing then [SourceNode, ScriptProcessor] else []) + [InputContext, OutputContext, Transport]
  }

  /** The scheduler's invariant, with every started source playing a decoded buffer
      of the duration it was scheduled for. */
  predicate CallValid(s: Playback.Scheduler, buffers: seq<AudioCodec.AudioBuffer>) {
    && Playback.Valid(s)
    && |buffers| == |s.scheduled|
    && (forall k :: 0 <= k < |s.scheduled| ==> s.scheduled[k].duration == ChunkSeconds(buffers[k]))
  }

  /** A call that has started nothing is valid. */
  lemma IdleCallValid(s: Playback.Scheduler)
    requires s.active == [] && s.scheduled == []
    ensures CallValid(s, [])
  {
    Playback.IdleValid(s);
  }

  lemma ScheduleCallValid(s: Playback.Scheduler, buffers: seq<AudioCodec.AudioBuffer>,
                          buffer: AudioCodec.AudioBuffer, clock: Playback.Seconds)
    requires CallValid(s, buffers)
    ensures CallValid(Playback.Schedule(s, ChunkSeconds(buffer), clock), buffers + [buffer])
  {
    Playback.ScheduleValid(s, ChunkSeconds(buffer), clock);
    var r := Playback.Schedule(s, ChunkSeconds(buffer), clock);
    var bs := buffers + [buffer];
    forall k | 0 <= k < |r.scheduled| ensures r.scheduled[k].duration == ChunkSeconds(bs[k]) {
      if k < |s.scheduled| {
        assert r.scheduled[k] == r.scheduled[..|s.scheduled|][k] == s.scheduled[k];
      }
    }
  }

  lemma EndedCallValid(s: Playback.Scheduler, buffers: seq<AudioCodec.AudioBuffer>, h: Playback.Handle)
    requires CallValid(s, buffers)
    ensures CallValid(Playback.Ended(s, h), buffers)
  {
    Playback.EndedValid(s, h);
  }

  class Session {
    var voiceName: string
    var started: bool
    var capturing: bool
    var nextStartTime: real
    var sources: seq<Playback.Handle>
    var scheduled: seq<Playback.Scheduled>
    var buffers: seq<AudioCodec.AudioBuffer>
    var stopped: seq<Playback.Handle>
    var status: seq<string>
    var volumes: seq<real>
    var sent: seq<AudioCodec.Blob>
    var released: seq<Resource>

    /** The playback part of the state. */
    ghost function State(): Playback.Scheduler
      reads this
    {
      Playback.Scheduler(nextStartTime, sources, scheduled, stopped, status)
    }

    /** `CallValid` of the current state. */
    ghost predicate Valid()
      reads this
    {
      CallValid(State(), buffers)
    }

    /** `startLiveSession`. Without microphone access it reports "Failed to connect",
        closes both audio contexts and returns a teardown that does nothing. With
        access it reports "Connecting..." and connects; when `live.connect` throws,
        the catch reports "Failed to connect", stops the microphone tracks, closes both
        contexts and returns the teardown that does nothing. */
    constructor (micGranted: bool, connectThrows: bool, voice: string)
      ensures Valid() && voiceName == voice
      ensures started == (micGranted && !connectThrows) && !capturing
      ensures State() == Playback.Initial.(status := status)
      ensures status == (if micGranted then [Connecting] else []) + (if started then [] else [FailedToConnect])
      ensures buffers == [] && volumes == [] && sent == []
      ensures released == if started then [] else (if micGranted then [MicTracks] else []) + [InputContext, OutputContext]
    {
      voiceName := voice;
      capturing := false;
      nextStartTime := 0.0;
      sources := [];
      scheduled := [];
      buffers := [];
      stopped := [];
      volumes := [];
      sent := [];
      if !micGranted {
        started := false;
        status := [FailedToConnect];
        released := [InputContext, OutputContext];
      } else if connectThrows {
        started := false;
        status := [Connecting, FailedToConnect];
        released := [MicTracks, InputContext, OutputContext];
      } else {
        started := true;
        status := [Connecting];
        released := [];
      }
      new;
      IdleCallValid(State());
    }

    /** `onopen`: reports "Connected" and wires the microphone to the capture processor. */
    method OnOpen()
      requires started
      modifies this
      ensures capturing && status == old(status) + [Connected]
      ensures State() == old(State()).(status := old(status) + [Connected])
      ensures unchanged(this`buffers, this`volumes, this`sent, this`released, this`started, this`voiceName)
      ensures Valid() <==> old(Valid())
    {
      status := status + [Connected];
      capturing := true;
    }

    /** `onaudioprocess` for one captured frame: reports the meter level and sends the
        frame as 16-bit PCM. `rms` is the platform's square root of the mean square. */
    method OnAudioProcess(frame: seq<real>, rms: real)
      requires capturing && |frame| > 0
      requires rms >= 0.0 && rms * rms == SumOfSquares(frame) / |frame| as real
      modifies this
      ensures volumes == old(volumes) + [VolumeLevel(rms)]
      ensures sent == old(sent) + [AudioCodec.PcmBlob(frame)]
      ensures State() == old(State())
      ensures unchanged(this`buffers, this`released, this`capturing, this`started, this`voiceName)
    {
      var meanSquare := MeanSquare(frame);
      // Math.sqrt(meanSquare) is the platform's; `rms` is its result
      assert rms * rms == meanSquare;
      ReportVolume(rms);
      Send(frame);
    }

    /** `onVolumeChange(Math.min(rms * 5, 1))`. */
    method ReportVolume(rms: real)
      requires rms >= 0.0
      modifies this`volumes
      ensures volumes == old(volumes) + [VolumeLevel(rms)]
    {
      volumes := volumes + [VolumeLevel(rms)];
    }

    /** `sendRealtimeInput` of the frame's PCM blob. */
    method Send(frame: seq<real>)
      modifies this`sent
      ensures sent == old(sent) + [AudioCodec.PcmBlob(frame)]
    {
      var pcmBlob := AudioCodec.CreateBlob(frame);
      sent := sent + [pcmBlob];
    }

    /** `onmessage`: performs `Playback.Receive` on the decoded audio, and keeps the
        decoded buffer of every source it starts. */
    method OnMessage(message: ServerMessage, clock: Playback.Seconds)
      requires started && Valid()
      modifies this
      ensures Valid()
      ensures State() == Playback.Receive(old(State()), MessageAudio(message), message.interrupted, clock)
      ensures buffers == old(buffers) + (if MessageAudio(message).Decoded?
        then [AudioCodec.DecodeChunk(ReadAudio(message).value.value).value] else [])
      ensures unchanged(this`volumes, this`sent, this`released, this`capturing, this`started, this`voiceName)
    {
      Playback.ReceiveValid(State(), MessageAudio(message), message.interrupted, clock);
      var base64Audio := ReadAudio(message);
      if base64Audio.Failure? {
        // reading the audio threw, which ends the callback
        return;
      }
      if base64Audio.value.Some? && base64Audio.value.value != "" {
        var played := PlayChunk(base64Audio.value.value, clock);
        if !played {
          // the awaited decoding threw, which ends the callback
          return;
        }
      }
      if message.interrupted {
        StopAll();
      }
    }

    /** The audio branch of `onmessage`: reports "Speaking...", then decodes the chunk
        and plays it; `played` is false when the decoding throws. */
    method PlayChunk(base64Audio: string, clock: Playback.Seconds) returns (played: bool)
      requires Valid() && base64Audio != ""
      modifies this
      ensures Valid()
      ensures played <==> AudioCodec.DecodeChunk(base64Audio).Success?
      ensures var speaking := old(State()).(status := old(status) + [Playback.Speaking]);
        State() == if played
          then Playback.Schedule(speaking, ChunkSeconds(AudioCodec.DecodeChunk(base64Audio).value), clock)
          else speaking
      ensures buffers == old(buffers) + (if played then [AudioCodec.DecodeChunk(base64Audio).value] else [])
      ensures unchanged(this`volumes, this`sent, this`released, this`capturing, this`started, this`voiceName)
    {
      status := status + [Playback.Speaking];
      var audioBuffer := DecodeChunk(base64Audio);
      if audioBuffer.Failure? {
        return false;
      }
      Play(audioBuffer.value, clock);
      played := true;
    }

    /** Starts a decoded buffer at max(cursor, clock) and tracks its source. */
    method Play(buffer: AudioCodec.AudioBuffer, clock: Playback.Seconds)
      requires Valid()
      modifies this
      ensures Valid()
      ensures State() == Playback.Schedule(old(State()), ChunkSeconds(buffer), clock)
      ensures buffers == old(buffers) + [buffer]
      ensures unchanged(this`volumes, this`sent, this`released, this`capturing, this`started, this`voiceName)
    {
      ScheduleCallValid(State(), buffers, buffer, clock);
      ghost var target := Playback.Schedule(State(), ChunkSeconds(buffer), clock);
      var duration := ChunkSeconds(buffer);
      nextStartTime := Playback.Max(nextStartTime, clock);
      scheduled := scheduled + [Playback.Scheduled(nextStartTime, duration)];
      buffers := buffers + [buffer];
      nextStartTime := nextStartTime + duration;
      sources := sources + [|scheduled| - 1];
      assert State() == target;
    }

    /** Stops every tracked source in insertion order, clears the set, rewinds the
        cursor and reports "Listening...". */
    method StopAll()
      requires Valid()
      modifies this
      ensures Valid()
      ensures State() == Playback.Interrupt(old(State()))
      ensures unchanged(this`buffers, this`volumes, this`sent, this`released, this`capturing, this`started, this`voiceName)
    {
      stopped := stopped + sources;
      sources := [];
      nextStartTime := 0.0;
      status := status + [Playback.Listening];
    }

    /** `onended` of a started source; the platform also fires it for a stopped one. */
    method OnEnded(h: Playback.Handle)
      requires started && Valid() && h < |scheduled|
      modifies this
      ensures Valid()
      ensures State() == Playback.Ended(old(State()), h)
      ensures unchanged(this`buffers, this`volumes, this`sent, this`released, this`capturing, this`started, this`voiceName)
    {
      EndedCallValid(State(), buffers, h);
      ghost var target := Playback.Ended(State(), h);
      sources := Playback.Remove(sources, h);
      if |sources| == 0 {
        status := status + [Playback.Listening];
      }
      assert State() == target;
    }

    /** `onclose`. */
    method OnClose()
      requires started
      modifies this
      ensures status == old(status) + [Disconnected]
      ensures State() == old(State()).(status := old(status) + [Disconnected])
      ensures unchanged(this`buffers, this`volumes, this`sent, this`released, this`capturing, this`started, this`voiceName)
    {
      status := status + [Disconnected];
    }

    /** `onerror`. */
    method OnError()
      requires started
      modifies this
      ensures status == old(status) + [ErrorStatus]
      ensures State() == old(State()).(status := old(status) + [ErrorStatus])
      ensures unchanged(this`buffers, this`volumes, this`sent, this`released, this`capturing, this`started, this`voiceName)
    {
      status := status + [ErrorStatus];
    }

    /** The returned teardown. It keeps no record of having run, so every call releases
        everything again; the teardown of a failed start does nothing. */
    method Teardown()
      modifies this
      ensures released == old(released) + (if started then Released(capturing) else [])
      ensures State() == old(State())
      ensures unchanged(this`buffers, this`volumes, this`sent, this`capturing, this`started, this`voiceName)
    {
      if started {
        released := released + [MicTracks];
        if capturing {
          released := released + [SourceNode, ScriptProcessor];
        }
        released := released + [InputContext, OutputContext, Transport];
      }
    }
  }

  /** The call's first status reports, from the start of the playback state. */
  const Opened := Playback.Initial.(status := [Connecting, Connected])

  /** A chunk played to its end: the status goes Speaking, then Listening. */
  lemma PlayThenListen(d: Playback.Seconds, clock: Playback.Seconds)
    ensures Playback.Run(Opened, [Playback.Message(Playback.Decoded(d), false, clock), Playback.SourceEnded(0)]).status
      == [Connecting, Connected, Playback.Speaking, Playback.Listening]
  {
    var events := [Playback.Message(Playback.Decoded(d), false, clock), Playback.SourceEnded(0)];
    var s1 := Playback.Step(Opened, events[0]);
    assert s1.active == [0];
    var s2 := Playback.Step(s1, events[1]);
    assert Playback.Remove([0], 0) == [];
    assert events[1..][1..] == [];
    assert Playback.Run(Opened, events) == Playback.Run(s1, events[1..]) == Playback.Run(s2, []);
  }

  /** A message whose model turn has no `parts` throws before its interrupted flag is
      read, so even when that flag is set the playing source goes on playing. */
  lemma PartlessInterruptKeepsPlaying(d: Playback.Seconds, clock: Playback.Seconds)
    ensures var m := ServerMessage(Some(ModelTurn(None)), true);
      Playback.Run(Opened, [Playback.Message(Playback.Decoded(d), false, clock),
                            Playback.Message(MessageAudio(m), m.interrupted, clock)]).active == [0]
  {
    var m := ServerMessage(Some(ModelTurn(None)), true);
    var events := [Playback.Message(Playback.Decoded(d), false, clock),
                   Playback.Message(MessageAudio(m), m.interrupted, clock)];
    var s1 := Playback.Step(Opened, events[0]);
    assert s1.active == [0];
    assert MessageAudio(m) == Playback.Unreadable;
    var s2 := Playback.Step(s1, events[1]);
    assert events[1..][1..] == [];
    assert Playback.Run(Opened, events) == Playback.Run(s1, events[1..]) == Playback.Run(s2, []);
  }

  /** An interruption stops the playing source; when the platform then fires its
      `onended`, the set is already empty and "Listening..." is reported a second time. */
  lemma InterruptReportsListeningTwice(d: Playback.Seconds, clock: Playback.Seconds)
    ensures var r := Playback.Run(Opened, [Playback.Message(Playback.Decoded(d), false, clock),
                                           Playback.Message(Playback.NoAudio, true, clock),
                                           Playback.SourceEnded(0)]);
      && r.stopped == [0] && r.cursor == 0.0
      && r.status == [Connecting, Connected, Playback.Speaking, Playback.Listening, Playback.Listening]
  {
    var events := [Playback.Message(Playback.Decoded(d), false, clock),
                   Playback.Message(Playback.NoAudio, true, clock),
                   Playback.SourceEnded(0)];
    var s1 := Playback.Step(Opened, events[0]);
    assert s1.active == [0];
    var s2 := Playback.Step(s1, events[1]);
    assert s2.active == [] && s2.stopped == [0];
    var s3 := Playback.Step(s2, events[2]);
    assert events[1..][1..] == [events[2]] && events[1..][1..][1..] == [];
    assert Playback.Run(Opened, events) == Playback.Run(s1, events[1..]) == Playback.Run(s2, events[1..][1..]) == Playback.Run(s3, []);
  }
}
