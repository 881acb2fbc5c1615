/**
 * The integer part of the live-call audio codec: binary strings to bytes and back,
 * 16-bit PCM samples packed little-endian, and the de-interleaving of an inbound
 * chunk into an audio buffer's channels. Captured samples are reals; multiplying
 * by 32768 is exact in binary floating point, so the stored value is the
 * truncation of the product, wrapped to 16 bits. Inbound samples stay integers:
 * the division by 32768 into float channel data is not modelled.
 */
module AudioCodec {
  import opened Wrappers
  import Base64

  type Byte = Base64.Byte
  type Int16 = x: int | -32768 <= x < 32768

  /** What the codec can throw: `atob`'s DOMException, the RangeError of an
      Int16Array over an odd number of bytes, and the NotSupportedError of
      `createBuffer` for zero channels or zero frames. */
  datatype Thrown = InvalidCharacterError | RangeError | NotSupportedError

  /** ToInt16 (ECMA-262 section 7.1.8) of an integral number: the one value of the
      signed 16-bit range congruent to `x` modulo 2^16. */
  function ToInt16(x: int): (r: Int16)
    ensures (x - r) % 65536 == 0
    ensures -32768 <= x < 32768 ==> r == x
  {
    var m := x % 65536;
    if m >= 32768 then m - 65536 else m
  }

  /** ToIntegerOrInfinity of a finite number: truncation toward zero. */
  function Truncate(x: real): (r: int)
    ensures x >= 0.0 ==> r as real <= x < r as real + 1.0
    ensures x < 0.0 ==> r as real - 1.0 < x <= r as real
  {
    if x >= 0.0 then x.Floor else -((-x).Floor)
  }

  /** What `int16[i] = data[i] * 32768` stores for a captured sample. */
  function Quantize(x: real): (r: Int16)
  {
    ToInt16(Truncate(x * 32768.0))
  }

  /** Inside [-1, 1) the stored sample is the truncated product, with no wrap-around,
      and it has the sample's sign. */
  lemma QuantizeInRange(x: real)
    requires -1.0 <= x < 1.0
    ensures Quantize(x) == Truncate(x * 32768.0)
    ensures (Quantize(x) >= 0) == (x > -1.0 / 32768.0)
  {
  }

  /** The full-scale sample 1.0 scales to 32768, which wraps to the most negative value. */
  lemma FullScaleWraps()
    ensures Quantize(1.0) == -32768
  {
    assert Truncate(32768.0) == 32768;
  }

  /** ToUint8 (ECMA-262 section 7.1.11): what a Uint8Array stores. */
  function ToUint8(x: int): (r: Byte)
    ensures (x - r) % 256 == 0
    ensures 0 <= x < 256 ==> r == x
  {
    x % 256
  }

  /** The two bytes of a sample in memory, two's complement, low byte first. */
  function LowByte(s: Int16): Byte { (s as int % 65536) % 256 }
  function HighByte(s: Int16): Byte { (s as int % 65536) / 256 }

  /** The sample an Int16Array reads from a low and a high byte. */
  function Sample(lo: Byte, hi: Byte): Int16 { ToInt16(lo as int + 256 * hi as int) }

  lemma SampleOfBytes(s: Int16)
    ensures Sample(LowByte(s), HighByte(s)) == s
  {
  }

  lemma BytesOfSample(lo: Byte, hi: Byte)
    ensures LowByte(Sample(lo, hi)) == lo && HighByte(Sample(lo, hi)) == hi
  {
  }

  /** The buffer of an Int16Array on a little-endian host: two bytes per sample. */
  function PackLE(s: seq<Int16>): (r: seq<Byte>)
    ensures |r| == 2 * |s|
    ensures forall i :: 0 <= i < |s| ==> r[2 * i] == LowByte(s[i]) && r[2 * i + 1] == HighByte(s[i])
  {
    seq(2 * |s|, k requires 0 <= k < 2 * |s| => if k % 2 == 0 then LowByte(s[k / 2]) else HighByte(s[k / 2]))
  }

  /** An Int16Array viewing an even number of bytes on a little-endian host. */
  function UnpackLE(b: seq<Byte>): (r: seq<Int16>)
    requires |b| % 2 == 0
    ensures |r| == |b| / 2
    ensures forall i :: 0 <= i < |r| ==> r[i] == Sample(b[2 * i], b[2 * i + 1])
  {
    seq(|b| / 2, i requires 0 <= i < |b| / 2 => Sample(b[2 * i], b[2 * i + 1]))
  }

  /** Packing then viewing the bytes as samples gives the samples back. */
  lemma UnpackPack(s: seq<Int16>)
    ensures UnpackLE(PackLE(s)) == s
  {
    var u := UnpackLE(PackLE(s));
    forall i | 0 <= i < |s| ensures u[i] == s[i] { SampleOfBytes(s[i]); }
  }

  lemma PackUnpackAt(b: seq<Byte>, k: nat)
    requires |b| % 2 == 0 && k < |b|
    ensures |PackLE(UnpackLE(b))| == |b| && PackLE(UnpackLE(b))[k] == b[k]
  {
    var u := UnpackLE(b);
    var j := k / 2;
    assert u[j] == Sample(b[2 * j], b[2 * j + 1]);
    BytesOfSample(b[2 * j], b[2 * j + 1]);
    if k % 2 == 0 {
      assert k == 2 * j;
    } else {
      assert k == 2 * j + 1;
    }
  }

  /** Viewing an even number of bytes as samples and packing them again gives the bytes back. */
  lemma PackUnpack(b: seq<Byte>)
    requires |b| % 2 == 0
    ensures PackLE(UnpackLE(b)) == b
  {
    forall k | 0 <= k < |b| ensures PackLE(UnpackLE(b))[k] == b[k] {
      PackUnpackAt(b, k);
    }
  }

  /** `decode` as a function: `atob`, then one byte per character. */
  function DecodeBytes(base64: string): (r: Result<seq<Byte>, Thrown>)
    ensures r.Failure? <==> Base64.Atob(base64).Failure?
    ensures r.Failure? ==> r == Failure(InvalidCharacterError)
    ensures r.Success? ==> |r.value| == |Base64.Atob(base64).value|
  {
    match Base64.Atob(base64)
    case Failure(_) => Failure(InvalidCharacterError)
    case Success(binary) => Success(Base64.Codes(binary))
  }

  /** `decode`: fills a Uint8Array with the character codes of `atob(base64)`. */
  method Decode(base64: string) returns (r: Result<array<Byte>, Thrown>)
    ensures DecodeBytes(base64).Failure? ==> r == Failure(InvalidCharacterError)
    ensures DecodeBytes(base64).Success? ==>
      r.Success? && fresh(r.value) && r.value[..] == DecodeBytes(base64).value
  {
    var atob := Base64.Atob(base64);
    if atob.Failure? {
      return Failure(InvalidCharacterError);
    }
    var binaryString := atob.value;
    var len := |binaryString|;
    var bytes := new Byte[len];
    for i := 0 to len
      invariant forall k :: 0 <= k < i ==> bytes[k] == binaryString[k] as int
    {
      bytes[i] := ToUint8(binaryString[i] as int);
    }
    assert bytes[..] == Base64.Codes(binaryString);
    return Success(bytes);
  }

  /** `encode`: one character per byte, then `btoa`, which cannot throw here. */
  method Encode(bytes: array<Byte>) returns (r: string)
    ensures r == Base64.Encode(bytes[..])
    ensures Base64.Atob(r) == Success(Base64.Chars(bytes[..]))
  {
    var binary := "";
    var len := bytes.Length;
    for i := 0 to len
      invariant binary == Base64.Chars(bytes[..i])
    {
      binary := binary + [bytes[i] as char];
    }
    assert bytes[..len] == bytes[..];
    assert Base64.Codes(binary) == bytes[..];
    var btoa := Base64.Btoa(binary);
    r := btoa.value;
    Base64.AtobOfEncode(bytes[..]);
  }

  /** The outbound wire representation of one captured frame. */
  datatype Blob = Blob(data: string, mimeType: string)

  const PcmMimeType := "audio/pcm;rate=16000"

  /** The Int16Array `createBlob` fills from a captured frame. */
  function Quantized(data: seq<real>): (r: seq<Int16>)
    ensures |r| == |data| && forall i :: 0 <= i < |data| ==> r[i] == Quantize(data[i])
  {
    seq(|data|, i requires 0 <= i < |data| => Quantize(data[i]))
  }

  /** What `createBlob` sends for a captured frame. */
  function PcmBlob(data: seq<real>): Blob {
    Blob(Base64.Encode(PackLE(Quantized(data))), PcmMimeType)
  }

  /** `createBlob`: stores each scaled sample into an Int16Array, views its buffer as
      bytes and base64-encodes them. */
  method CreateBlob(data: seq<real>) returns (blob: Blob)
    ensures blob == PcmBlob(data)
    ensures blob.mimeType == "audio/pcm;rate=16000"
    ensures DecodeBytes(blob.data) == Success(PackLE(Quantized(data)))
  {
    var l := |data|;
    var int16 := new Int16[l];
    for i := 0 to l
      invariant forall k :: 0 <= k < i ==> int16[k] == Quantize(data[k])
    {
      int16[i] := Quantize(data[i]);
    }
    assert int16[..] == Quantized(data);
    var packed := PackLE(int16[..]);
    var bytes := new Byte[|packed|](k requires 0 <= k < |packed| => packed[k]);
    assert bytes[..] == packed;
    var data := Encode(bytes);
    assert Base64.Codes(Base64.Chars(packed)) == packed;
    blob := Blob(data, PcmMimeType);
  }

  /** The integer content of an AudioBuffer: its rate and, per channel, its frames. */
  datatype AudioBuffer = AudioBuffer(sampleRate: nat, length: nat, channels: seq<seq<Int16>>)

  lemma FrameIndex(i: nat, c: nat, n: nat, total: nat)
    requires c < n && i < total / n
    ensures i * n + c < total
  {
    assert (i + 1) * n <= (total / n) * n <= total;
  }

  /** Channel `c`, frame `i` is interleaved sample `i * n + c`. */
  function Interleaved(samples: seq<Int16>, n: nat, c: nat, i: nat): Int16
    requires c < n && i < |samples| / n
  {
    FrameIndex(i, c, n, |samples|);
    samples[i * n + c]
  }

  function Deinterleave(samples: seq<Int16>, n: nat): (r: seq<seq<Int16>>)
    requires n > 0
    ensures |r| == n && forall c :: 0 <= c < n ==> |r[c]| == |samples| / n
    ensures forall c, i :: 0 <= c < n && 0 <= i < |samples| / n ==> r[c][i] == Interleaved(samples, n, c, i)
  {
    seq(n, c requires 0 <= c < n =>
      seq(|samples| / n, i requires 0 <= i < |samples| / n => Interleaved(samples, n, c, i)))
  }

  /** `decodeAudioData` as a function of the chunk's bytes. */
  function ToAudioBuffer(bytes: seq<Byte>, sampleRate: nat, numChannels: nat): (r: Result<AudioBuffer, Thrown>)
    ensures |bytes| % 2 == 1 ==> r == Failure(RangeError)
    ensures |bytes| % 2 == 0 && r.Failure? ==> r == Failure(NotSupportedError)
    ensures r.Success? <==> |bytes| % 2 == 0 && numChannels > 0 && |bytes| / 2 >= numChannels
    ensures r.Success? ==> r.value.sampleRate == sampleRate && r.value.length == |bytes| / 2 / numChannels
    ensures r.Success? ==> r.value.channels == Deinterleave(UnpackLE(bytes), numChannels)
  {
    if |bytes| % 2 == 1 then Failure(RangeError)
    else
      var samples := UnpackLE(bytes);
      if numChannels == 0 || |samples| / numChannels == 0 then Failure(NotSupportedError)
      else Success(AudioBuffer(sampleRate, |samples| / numChannels, Deinterleave(samples, numChannels)))
  }

  /** For one channel the buffer holds the chunk's samples unchanged. */
  lemma MonoIsIdentity(bytes: seq<Byte>, sampleRate: nat)
    requires |bytes| % 2 == 0 && |bytes| >= 2
    ensures ToAudioBuffer(bytes, sampleRate, 1) == Success(AudioBuffer(sampleRate, |bytes| / 2, [UnpackLE(bytes)]))
  {
    var s := UnpackLE(bytes);
    var d := Deinterleave(s, 1);
    forall i | 0 <= i < |s| ensures d[0][i] == s[i] {
      assert d[0][i] == Interleaved(s, 1, 0, i);
    }
    assert d[0] == s;
    assert d == [d[0]];
  }

  /** The inner loop of `decodeAudioData`: fills one channel of the buffer. */
  method CopyChannel(buffer: array2<Int16>, samples: seq<Int16>, channel: nat)
    requires buffer.Length0 > 0 && channel < buffer.Length0 && buffer.Length1 == |samples| / buffer.Length0
    modifies buffer
    ensures forall i :: 0 <= i < buffer.Length1 ==> buffer[channel, i] == Interleaved(samples, buffer.Length0, channel, i)
    ensures forall c, i :: 0 <= c < buffer.Length0 && c != channel && 0 <= i < buffer.Length1 ==> buffer[c, i] == old(buffer[c, i])
  {
    for i := 0 to buffer.Length1
      invariant forall j :: 0 <= j < i ==> buffer[channel, j] == Interleaved(samples, buffer.Length0, channel, j)
      invariant forall c, j :: 0 <= c < buffer.Length0 && c != channel && 0 <= j < buffer.Length1 ==> buffer[c, j] == old(buffer[c, j])
    {
      buffer[channel, i] := Interleaved(samples, buffer.Length0, channel, i);
    }
  }

  /** `decodeAudioData`: views the bytes as samples (throwing on an odd length), creates a
      buffer of numChannels by samples / numChannels frames, and copies channel c, frame i
      from sample i * numChannels + c. The source's frame count is a float quotient; the
      buffer's length is its truncation and the writes past it are dropped, which is why
      only whole frames are copied here. */
  method DecodeAudioData(data: array<Byte>, sampleRate: nat, numChannels: nat) returns (r: Result<AudioBuffer, Thrown>)
    ensures r == ToAudioBuffer(data[..], sampleRate, numChannels)
  {
    if data.Length % 2 == 1 {
      return Failure(RangeError);
    }
    var dataInt16 := UnpackLE(data[..]);
    if numChannels == 0 || |dataInt16| / numChannels == 0 {
      return Failure(NotSupportedError);
    }
    var frameCount := |dataInt16| / numChannels;
    var buffer := new Int16[numChannels, frameCount];
    for channel := 0 to numChannels
      invariant forall c, i :: 0 <= c < channel && 0 <= i < frameCount ==>
        buffer[c, i] == Interleaved(dataInt16, numChannels, c, i)
    {
      CopyChannel(buffer, dataInt16, channel);
    }
    var channels := seq(numChannels, c requires 0 <= c < numChannels reads buffer =>
      seq(frameCount, i requires 0 <= i < frameCount reads buffer => buffer[c, i]));
    ghost var wanted := Deinterleave(dataInt16, numChannels);
    forall c | 0 <= c < numChannels ensures channels[c] == wanted[c] {
      assert forall i :: 0 <= i < frameCount ==> channels[c][i] == buffer[c, i];
    }
    assert channels == wanted;
    return Success(AudioBuffer(sampleRate, frameCount, channels));
  }

  /** An inbound chunk as the live session decodes it: 24 kHz, one channel. */
  function DecodeChunk(base64: string): (r: Result<AudioBuffer, Thrown>)
    ensures DecodeBytes(base64).Failure? ==> r == Failure(InvalidCharacterError)
    ensures r.Success? ==> r.value.sampleRate == 24000 && |r.value.channels| == 1
    ensures r.Success? ==> DecodeBytes(base64).Success? && r.value.length == |DecodeBytes(base64).value| / 2
  {
    match DecodeBytes(base64)
    case Failure(e) => Failure(e)
    case Success(bytes) => ToAudioBuffer(bytes, 24000, 1)
  }

  /** A buffer's duration in seconds. */
  function Duration(b: AudioBuffer): (d: real)
    ensures d >= 0.0
  {
    if b.sampleRate == 0 then 0.0 else b.length as real / b.sampleRate as real
  }

  /** A non-empty frame sent by `createBlob`, decoded as an inbound chunk, gives back
      its quantized samples in a single channel. */
  lemma ChunkRoundTrip(data: seq<real>)
    requires |data| > 0
    ensures DecodeChunk(PcmBlob(data).data) == Success(AudioBuffer(24000, |data|, [Quantized(data)]))
  {
    var packed := PackLE(Quantized(data));
    assert Base64.Atob(Base64.Encode(packed)) == Success(Base64.Chars(packed)) by {
      Base64.AtobOfEncode(packed);
    }
    assert Base64.Codes(Base64.Chars(packed)) == packed;
    assert DecodeBytes(PcmBlob(data).data) == Success(packed);
    UnpackPack(Quantized(data));
    MonoIsIdentity(packed, 24000);
  }
}
