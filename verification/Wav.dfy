/** PCM16 WAV files: the encoder, the strict chunk walker for recordings and the lenient
    one for uploaded prompts. */
module Wav {
  import opened Common
  import opened Bits

  type Sample = s: int | -32768 <= s < 32768

  datatype WavError =
    | BadRate | BadHeader | TruncatedChunk | NotMonoPCM16 | NoData
    | BadFmtChunk | NotPCM | BadChannels | BadDepth

  datatype Audio = Audio(pcm: seq<Sample>, rate: nat)

  const TWO32: nat := 0x1_0000_0000

  // ------------------------------------------------------ little-endian numbers

  function Put16(v: nat): (s: seq<Byte>)
    ensures |s| == 2
  {
    [v % 256, (v / 256) % 256]
  }

  function Put32(v: nat): (s: seq<Byte>)
    ensures |s| == 4
  {
    [v % 256, (v / 256) % 256, (v / 65536) % 256, (v / 16777216) % 256]
  }

  function Get16(data: seq<Byte>, i: nat): (v: nat)
    requires i + 2 <= |data|
    ensures v < 65536
  {
    var low, high: int := data[i], data[i + 1];
    low + 256 * high
  }

  function Get32(data: seq<Byte>, i: nat): (v: nat)
    requires i + 4 <= |data|
    ensures v < TWO32
  {
    var low, high: int := Get16(data, i), Get16(data, i + 2);
    low + 65536 * high
  }

  /** `int16(u)` */
  function Signed(u: nat): Sample
    requires u < 65536
  {
    if u < 32768 then u else u - 65536
  }

  /** `uint16(s)` */
  function Unsigned(s: Sample): (u: nat)
    ensures u < 65536 && Signed(u) == s
  {
    if s >= 0 then s else s + 65536
  }

  lemma PutGet16(v: nat)
    requires v < 65536
    ensures Get16(Put16(v), 0) == v
  {}

  lemma PutGet32(v: nat)
    ensures Get32(Put32(v), 0) == v % TWO32
  {
    FourDigits(v);
    var s := Put32(v);
    var d0, d1, d2, d3: int := s[0], s[1], s[2], s[3];
    assert Get16(s, 0) == d0 + 256 * d1 && Get16(s, 2) == d2 + 256 * d3;
    hide Get16, Put32;
    assert Get32(s, 0) == d0 + 256 * d1 + 65536 * (d2 + 256 * d3);
  }

  lemma FourDigits(v: nat)
    ensures v % TWO32 == v % 256 + 256 * ((v / 256) % 256) + 65536 * ((v / 65536) % 256)
                         + 16777216 * ((v / 16777216) % 256)
  {
    var a := v / 256;
    var b := a / 256;
    var c := b / 256;
    assert v / 65536 == b && v / 16777216 == c;
    assert v == 256 * a + v % 256 && a == 256 * b + a % 256 && b == 256 * c + b % 256;
    assert c == 256 * (c / 256) + c % 256;
    Remainder(v, c / 256, v % 256 + 256 * (a % 256) + 65536 * (b % 256) + 16777216 * (c % 256));
  }

  lemma Remainder(v: nat, q: nat, r: nat)
    requires v == TWO32 * q + r && r < TWO32
    ensures v % TWO32 == r
  {}

  // -------------------------------------------------------------------- encoder

  const RIFF: seq<Byte> := [82, 73, 70, 70]
  const WAVE: seq<Byte> := [87, 65, 86, 69]
  const FMT: seq<Byte> := [102, 109, 116, 32]
  const DATA: seq<Byte> := [100, 97, 116, 97]

  function SampleBytes(pcm: seq<Sample>): (s: seq<Byte>)
    ensures |s| == 2 * |pcm|
  {
    if |pcm| == 0 then [] else SampleBytes(pcm[..|pcm| - 1]) + Put16(Unsigned(pcm[|pcm| - 1]))
  }

  function RiffChunk(dataSize: nat): (s: seq<Byte>)
    ensures |s| == 12
  {
    RIFF + Put32((36 + dataSize) % TWO32) + WAVE
  }

  function FmtChunk(rate: nat): (s: seq<Byte>)
    ensures |s| == 24
  {
    FMT + Put32(16) + Put16(1) + Put16(1) + Put32(rate % TWO32) + Put32((rate * 2) % TWO32) + Put16(2) + Put16(16)
  }

  function DataHeader(dataSize: nat): (s: seq<Byte>)
    ensures |s| == 8
  {
    DATA + Put32(dataSize % TWO32)
  }

  function EncodedHeader(rate: nat, dataSize: nat): (s: seq<Byte>)
    ensures |s| == 44
  {
    RiffChunk(dataSize) + FmtChunk(rate) + DataHeader(dataSize)
  }

  function Encode(pcm: seq<Sample>, rate: int): Result<seq<Byte>, WavError> {
    if rate <= 0 then Err(BadRate)
    else Ok(EncodedHeader(rate, 2 * |pcm|) + SampleBytes(pcm))
  }

  /** `copy(buffer[at:], bytes)` */
  method PutBytes(buffer: array<Byte>, at: nat, bytes: seq<Byte>)
    requires at + |bytes| <= buffer.Length
    modifies buffer
    ensures buffer[..at + |bytes|] == old(buffer[..at]) + bytes
  {
    for i := 0 to |bytes|
      invariant forall j :: 0 <= j < at ==> buffer[j] == old(buffer[j])
      invariant forall j :: 0 <= j < i ==> buffer[at + j] == bytes[j]
    {
      buffer[at + i] := bytes[i];
    }
  }

  method PutFmtChunk(buffer: array<Byte>, rate: nat)
    requires buffer.Length >= 36
    modifies buffer
    ensures buffer[..36] == old(buffer[..12]) + FmtChunk(rate)
  {
    ghost var before := buffer[..12];
    PutBytes(buffer, 12, FMT);
    PutBytes(buffer, 16, Put32(16));
    PutBytes(buffer, 20, Put16(1));
    PutBytes(buffer, 22, Put16(1));
    assert buffer[..24] == before + (FMT + Put32(16) + Put16(1) + Put16(1));
    PutBytes(buffer, 24, Put32(rate % TWO32));
    PutBytes(buffer, 28, Put32((rate * 2) % TWO32));
    PutBytes(buffer, 32, Put16(2));
    PutBytes(buffer, 34, Put16(16));
    assert buffer[..36] == before + FmtChunk(rate);
  }

  method PutHeader(buffer: array<Byte>, rate: nat, dataSize: nat)
    requires buffer.Length >= 44
    modifies buffer
    ensures buffer[..44] == EncodedHeader(rate, dataSize)
  {
    PutBytes(buffer, 0, RIFF);
    PutBytes(buffer, 4, Put32((36 + dataSize) % TWO32));
    PutBytes(buffer, 8, WAVE);
    assert buffer[..12] == RiffChunk(dataSize);
    PutFmtChunk(buffer, rate);
    PutBytes(buffer, 36, DATA);
    PutBytes(buffer, 40, Put32(dataSize % TWO32));
    assert buffer[..44] == RiffChunk(dataSize) + FmtChunk(rate) + (DATA + Put32(dataSize % TWO32));
  }

  method EncodePCM16WAV(pcm: seq<Sample>, rate: int) returns (r: Result<seq<Byte>, WavError>)
    ensures r == Encode(pcm, rate)
  {
    if rate <= 0 {
      return Err(BadRate);
    }
    var dataSize := |pcm| * 2;
    var buffer := new Byte[44 + dataSize](_ => 0);
    PutHeader(buffer, rate, dataSize);
    PutSamples(buffer, pcm);
    return Ok(buffer[..]);
  }

  method PutSamples(buffer: array<Byte>, pcm: seq<Sample>)
    requires buffer.Length == 44 + 2 * |pcm|
    modifies buffer
    ensures buffer[..] == old(buffer[..44]) + SampleBytes(pcm)
  {
    hide Put16, Unsigned;
    ghost var header := buffer[..44];
    for index := 0 to |pcm|
      invariant buffer[..44 + 2 * index] == header + SampleBytes(pcm[..index])
    {
      PutBytes(buffer, 44 + index * 2, Put16(Unsigned(pcm[index])));
      assert pcm[..index + 1][..index] == pcm[..index];
    }
    assert pcm[..|pcm|] == pcm && buffer[..] == buffer[..44 + 2 * |pcm|];
  }

  // --------------------------------------------------------------- sample frames

  function Samples(bytes: seq<Byte>): (pcm: seq<Sample>)
    ensures |pcm| == |bytes| / 2
  {
    seq(|bytes| / 2, i requires 0 <= i < |bytes| / 2 => Signed(Get16(bytes, 2 * i)))
  }

  /** Go's `x / 2`, which rounds toward zero. */
  function HalfTowardZero(x: int): int {
    if x >= 0 then x / 2 else -((-x) / 2)
  }

  function MonoFrame(bytes: seq<Byte>, channels: nat, i: nat): Sample
    requires channels == 1 || channels == 2
    requires 2 * channels * (i + 1) <= |bytes|
  {
    if channels == 1 then Signed(Get16(bytes, 2 * i))
    else HalfTowardZero(Signed(Get16(bytes, 4 * i)) + Signed(Get16(bytes, 4 * i + 2)))
  }

  // ------------------------------------------------------------- strict decoder

  predicate HasWavHeader(data: seq<Byte>) {
    |data| >= 12 && data[..4] == RIFF && data[8..12] == WAVE
  }

  predicate MonoPCM16(data: seq<Byte>, start: nat)
    requires start + 16 <= |data|
  {
    Get16(data, start) == 1 && Get16(data, start + 2) == 1 && Get16(data, start + 14) == 16
  }

  /** What the walkers remember: the last sample rate and the last data chunk. */
  datatype Found = Found(rate: nat, pcm: seq<Byte>)

  function StrictChunk(data: seq<Byte>, offset: nat, found: Found): Result<Found, WavError>
    requires offset + 8 <= |data|
  {
    var size := Get32(data, offset + 4);
    var start := offset + 8;
    if start + size > |data| then Err(TruncatedChunk)
    else if data[offset..offset + 4] == FMT then
      if size < 16 || !MonoPCM16(data, start) then Err(NotMonoPCM16) else Ok(found.(rate := Get32(data, start + 4)))
    else if data[offset..offset + 4] == DATA then Ok(found.(pcm := data[start..start + size]))
    else Ok(found)
  }

  function NextChunk(data: seq<Byte>, offset: nat): (next: nat)
    requires offset + 8 <= |data|
    ensures next >= offset + 8
  {
    var size := Get32(data, offset + 4);
    offset + 8 + size + size % 2
  }

  function StrictWalk(data: seq<Byte>, offset: nat, found: Found): Result<Found, WavError>
    decreases |data| - offset
  {
    if offset + 8 > |data| then Ok(found)
    else
      var next :- StrictChunk(data, offset, found);
      StrictWalk(data, NextChunk(data, offset), next)
  }

  /** One turn of the strict loop. */
  lemma StrictStep(data: seq<Byte>, offset: nat, found: Found)
    ensures StrictWalk(data, offset, found)
            == if offset + 8 > |data| then Ok(found)
               else if StrictChunk(data, offset, found).Err? then StrictChunk(data, offset, found)
               else StrictWalk(data, NextChunk(data, offset), StrictChunk(data, offset, found).value)
  {}

  function DecodeStrict(data: seq<Byte>): Result<Audio, WavError> {
    if !HasWavHeader(data) then Err(BadHeader)
    else
      var found :- StrictWalk(data, 12, Found(0, []));
      if found.rate == 0 || |found.pcm| == 0 || |found.pcm| % 2 != 0 then Err(NoData)
      else Ok(Audio(Samples(found.pcm), found.rate))
  }

  method DecodePCM16WAV(data: seq<Byte>) returns (r: Result<Audio, WavError>)
    ensures r == DecodeStrict(data)
  {
    hide Get16, Get32, Samples, StrictWalk;
    if |data| < 12 || data[..4] != RIFF || data[8..12] != WAVE {
      return Err(BadHeader);
    }
    var sampleRate: nat := 0;
    var pcmBytes: seq<Byte> := [];
    var offset: nat := 12;
    while offset + 8 <= |data|
      invariant StrictWalk(data, 12, Found(0, [])) == StrictWalk(data, offset, Found(sampleRate, pcmBytes))
      decreases |data| - offset
    {
      ghost var before := Found(sampleRate, pcmBytes);
      StrictStep(data, offset, before);
      var size := Get32(data, offset + 4);
      var start, end := offset + 8, offset + 8 + size;
      if end > |data| {
        return Err(TruncatedChunk);
      }
      if data[offset..offset + 4] == FMT {
        if size < 16 || Get16(data, start) != 1 || Get16(data, start + 2) != 1 || Get16(data, start + 14) != 16 {
          return Err(NotMonoPCM16);
        }
        sampleRate := Get32(data, start + 4);
      } else if data[offset..offset + 4] == DATA {
        pcmBytes := data[start..end];
      }
      assert StrictChunk(data, offset, before) == Ok(Found(sampleRate, pcmBytes));
      offset := end + size % 2;
    }
    StrictStep(data, offset, Found(sampleRate, pcmBytes));
    if sampleRate <= 0 || |pcmBytes| == 0 || |pcmBytes| % 2 != 0 {
      return Err(NoData);
    }
    var pcm := ToSamples(pcmBytes);
    return Ok(Audio(pcm, sampleRate));
  }

  method ToSamples(pcmBytes: seq<Byte>) returns (r: seq<Sample>)
    ensures r == Samples(pcmBytes)
  {
    var pcm := new Sample[|pcmBytes| / 2](_ => 0);
    for index := 0 to pcm.Length
      invariant forall j :: 0 <= j < index ==> pcm[j] == Samples(pcmBytes)[j]
    {
      pcm[index] := Signed(Get16(pcmBytes, index * 2));
    }
    return pcm[..];
  }

  // ------------------------------------------------------------ lenient decoder

  const MAX_INT: int := 0x7fff_ffff_ffff_ffff
  const SECOND: int := 1_000_000_000

  /** Signed 64-bit wrap-around. */
  function Wrap64(x: int): int {
    (x + 0x8000_0000_0000_0000) % 0x1_0000_0000_0000_0000 - 0x8000_0000_0000_0000
  }

  /** How many samples a duration in nanoseconds allows; 0 stands for no limit. */
  function DurationSampleLimit(duration: int, rate: int): int {
    if duration <= 0 || rate <= 0 then 0
    else
      var seconds := duration / SECOND;
      if seconds > MAX_INT / rate then MAX_INT
      else
        var whole := Wrap64(seconds * rate);
        var fraction := Wrap64((duration % SECOND) * rate) / SECOND;
        if fraction > MAX_INT - whole then MAX_INT else whole + fraction
  }

  datatype Format = Format(audioFormat: nat, channels: nat, rate: nat, bits: nat)

  datatype Heard = Heard(format: Format, pcm: seq<Byte>)

  function LenientEnd(data: seq<Byte>, offset: nat): (end: nat)
    requires offset + 8 <= |data|
    ensures offset + 8 <= end <= |data|
  {
    var size := Get32(data, offset + 4);
    if size <= |data| - (offset + 8) then offset + 8 + size else |data|
  }

  function LenientChunk(data: seq<Byte>, offset: nat, heard: Heard): Result<Heard, WavError>
    requires offset + 8 <= |data|
  {
    var start, end := offset + 8, LenientEnd(data, offset);
    if data[offset..offset + 4] == FMT then
      if end - start < 16 then Err(BadFmtChunk)
      else Ok(heard.(format := Format(Get16(data, start), Get16(data, start + 2),
                                      Get32(data, start + 4), Get16(data, start + 14))))
    else if data[offset..offset + 4] == DATA then Ok(heard.(pcm := data[start..end]))
    else Ok(heard)
  }

  function LenientWalk(data: seq<Byte>, offset: nat, heard: Heard): Result<Heard, WavError>
    decreases |data| - offset
  {
    if offset + 8 > |data| then Ok(heard)
    else
      var next :- LenientChunk(data, offset, heard);
      var size := Get32(data, offset + 4);
      if size == 0 then Ok(next) else LenientWalk(data, LenientEnd(data, offset) + size % 2, next)
  }

  function MonoSamples(bytes: seq<Byte>, channels: nat, frames: nat): (pcm: seq<Sample>)
    requires channels == 1 || channels == 2
    requires 2 * channels * frames <= |bytes|
    ensures |pcm| == frames
  {
    seq(frames, i requires 0 <= i < frames => FrameInRange(bytes, channels, frames, i); MonoFrame(bytes, channels, i))
  }

  lemma FrameInRange(bytes: seq<Byte>, channels: nat, frames: nat, i: nat)
    requires channels == 1 || channels == 2
    requires i < frames && 2 * channels * frames <= |bytes|
    ensures 2 * channels * (i + 1) <= |bytes|
  {}

  function FinishLenient(heard: Heard, maxDuration: int): Result<Audio, WavError> {
    var f := heard.format;
    if f.audioFormat != 1 then Err(NotPCM)
    else if f.channels != 1 && f.channels != 2 then Err(BadChannels)
    else if f.bits != 16 then Err(BadDepth)
    else if f.rate == 0 then Err(BadRate)
    else if |heard.pcm| < 2 * f.channels then Err(NoData)
    else
      var frames := |heard.pcm| / (2 * f.channels);
      var limit := DurationSampleLimit(maxDuration, f.rate);
      var kept := if limit > 0 && frames > limit then limit else frames;
      Ok(Audio(MonoSamples(heard.pcm, f.channels, kept), f.rate))
  }

  function DecodeLenient(data: seq<Byte>, maxDuration: int): Result<Audio, WavError> {
    if !HasWavHeader(data) then Err(BadHeader)
    else
      var heard :- LenientWalk(data, 12, Heard(Format(0, 0, 0, 0), []));
      FinishLenient(heard, maxDuration)
  }

  method DecodeWAVFlexibleWithin(data: seq<Byte>, maxDuration: int) returns (r: Result<Audio, WavError>)
    ensures r == DecodeLenient(data, maxDuration)
  {
    if |data| < 12 || data[..4] != RIFF || data[8..12] != WAVE {
      return Err(BadHeader);
    }
    var heard := WalkChunks(data);
    if heard.Err? {
      return Err(heard.error);
    }
    r := MixDown(heard.value, maxDuration);
  }

  /** One turn of the lenient loop. */
  lemma LenientStep(data: seq<Byte>, offset: nat, heard: Heard)
    ensures LenientWalk(data, offset, heard)
            == if offset + 8 > |data| then Ok(heard)
               else if LenientChunk(data, offset, heard).Err? then LenientChunk(data, offset, heard)
               else if Get32(data, offset + 4) == 0 then LenientChunk(data, offset, heard)
               else LenientWalk(data, LenientEnd(data, offset) + Get32(data, offset + 4) % 2,
                                LenientChunk(data, offset, heard).value)
  {}

  method WalkChunks(data: seq<Byte>) returns (r: Result<Heard, WavError>)
    requires |data| >= 12
    ensures r == LenientWalk(data, 12, Heard(Format(0, 0, 0, 0), []))
  {
    hide Get16, Get32, LenientWalk;
    ghost var goal := LenientWalk(data, 12, Heard(Format(0, 0, 0, 0), []));
    var audioFormat, channels, sampleRate, bitsPerSample: nat := 0, 0, 0, 0;
    var pcmBytes: seq<Byte> := [];
    var offset: nat := 12;
    var stop := false;
    while !stop && offset + 8 <= |data|
      invariant !stop ==>
          goal == LenientWalk(data, offset, Heard(Format(audioFormat, channels, sampleRate, bitsPerSample), pcmBytes))
      invariant stop ==> goal == Ok(Heard(Format(audioFormat, channels, sampleRate, bitsPerSample), pcmBytes))
      decreases !stop, |data| - offset
    {
      ghost var before := Heard(Format(audioFormat, channels, sampleRate, bitsPerSample), pcmBytes);
      LenientStep(data, offset, before);
      var size := Get32(data, offset + 4);
      var start, end := offset + 8, |data|;
      if size <= |data| - start {
        end := start + size;
      }
      if data[offset..offset + 4] == FMT {
        if end - start < 16 {
          return Err(BadFmtChunk);
        }
        audioFormat := Get16(data, start);
        channels := Get16(data, start + 2);
        sampleRate := Get32(data, start + 4);
        bitsPerSample := Get16(data, start + 14);
      } else if data[offset..offset + 4] == DATA {
        pcmBytes := data[start..end];
      }
      assert LenientChunk(data, offset, before)
          == Ok(Heard(Format(audioFormat, channels, sampleRate, bitsPerSample), pcmBytes));
      if size == 0 {
        stop := true;
      } else {
        offset := end + size % 2;
      }
    }
    LenientStep(data, offset, Heard(Format(audioFormat, channels, sampleRate, bitsPerSample), pcmBytes));
    return Ok(Heard(Format(audioFormat, channels, sampleRate, bitsPerSample), pcmBytes));
  }

  method MixDown(heard: Heard, maxDuration: int) returns (r: Result<Audio, WavError>)
    ensures r == FinishLenient(heard, maxDuration)
  {
    var f := heard.format;
    if f.audioFormat != 1 {
      return Err(NotPCM);
    }
    if f.channels != 1 && f.channels != 2 {
      return Err(BadChannels);
    }
    if f.bits != 16 {
      return Err(BadDepth);
    }
    if f.rate <= 0 {
      return Err(BadRate);
    }
    var bytesPerFrame := 2 * f.channels;
    if |heard.pcm| < bytesPerFrame {
      return Err(NoData);
    }
    var frames := |heard.pcm| / bytesPerFrame;
    var limit := DurationSampleLimit(maxDuration, f.rate);
    if limit > 0 && frames > limit {
      frames := limit;
    }
    var mono := MixFrames(heard.pcm, f.channels, frames);
    return Ok(Audio(mono, f.rate));
  }

  method MixFrames(pcmBytes: seq<Byte>, channels: nat, frames: nat) returns (r: seq<Sample>)
    requires channels == 1 || channels == 2
    requires 2 * channels * frames <= |pcmBytes|
    ensures r == MonoSamples(pcmBytes, channels, frames)
  {
    hide Get16, Signed;
    ghost var spec := MonoSamples(pcmBytes, channels, frames);
    var bytesPerFrame := 2 * channels;
    var mono := new Sample[frames](_ => 0);
    for index := 0 to frames
      invariant forall j :: 0 <= j < index ==> mono[j] == spec[j]
    {
      FrameInRange(pcmBytes, channels, frames, index);
      var base := index * bytesPerFrame;
      var left: int := Signed(Get16(pcmBytes, base));
      if channels == 1 {
        mono[index] := left;
        continue;
      }
      var right: int := Signed(Get16(pcmBytes, base + 2));
      mono[index] := HalfTowardZero(left + right);
    }
    return mono[..];
  }
}
