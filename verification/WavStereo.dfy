/** Two-channel WAV files, which only the lenient decoder takes: it mixes each pair of samples
    into their half sum, rounded toward zero. */
module WavStereo {
  import opened Common
  import opened Bits
  import opened Wav
  import opened WavAgreement

  type Pair = (Sample, Sample)

  /** Left and right in turn. */
  function Flat(pairs: seq<Pair>): (s: seq<Sample>)
    ensures |s| == 2 * |pairs|
  {
    seq(2 * |pairs|, k requires 0 <= k < 2 * |pairs| => if k % 2 == 0 then pairs[k / 2].0 else pairs[k / 2].1)
  }

  function Interleaved(pairs: seq<Pair>): (s: seq<Byte>)
    ensures |s| == 4 * |pairs|
  {
    SampleBytes(Flat(pairs))
  }

  function Sum(p: Pair): int {
    var left, right: int := p.0, p.1;
    left + right
  }

  /** `r` is half of `sum`, rounded toward zero. */
  predicate IsHalf(r: int, sum: int) {
    if sum >= 0 then 0 <= sum - 2 * r <= 1 else -1 <= sum - 2 * r <= 0
  }

  predicate IsMix(pcm: seq<Sample>, pairs: seq<Pair>) {
    |pcm| == |pairs| && forall i :: 0 <= i < |pairs| ==> IsHalf(pcm[i], Sum(pairs[i]))
  }

  lemma FrameIsHalf(pairs: seq<Pair>, i: nat)
    requires i < |pairs|
    ensures 4 * (i + 1) <= |Interleaved(pairs)|
    ensures IsHalf(MonoFrame(Interleaved(pairs), 2, i), Sum(pairs[i]))
  {
    hide Get16, SampleBytes;
    var bytes, flat := Interleaved(pairs), Flat(pairs);
    SamplesOfBytes(flat);
    assert Samples(bytes)[2 * i] == flat[2 * i] == pairs[i].0;
    assert Samples(bytes)[2 * i + 1] == flat[2 * i + 1] == pairs[i].1;
  }

  lemma MonoSamplesAreHalves(pairs: seq<Pair>)
    ensures IsMix(MonoSamples(Interleaved(pairs), 2, |pairs|), pairs)
  {
    forall i | 0 <= i < |pairs|
      ensures IsHalf(MonoSamples(Interleaved(pairs), 2, |pairs|)[i], Sum(pairs[i]))
    {
      FrameIsHalf(pairs, i);
    }
  }

  predicate IsStereo(heard: Heard, pairs: seq<Pair>, rate: nat) {
    heard == Heard(Format(1, 2, rate, 16), Interleaved(pairs))
  }

  /** Whatever two-channel file the chunks come from, the decoder returns the mix. */
  lemma StereoIsMixed(data: seq<Byte>, pairs: seq<Pair>, rate: nat)
    requires pairs != [] && rate > 0 && HasWavHeader(data)
    requires var heard := LenientWalk(data, 12, Heard(Format(0, 0, 0, 0), []));
             heard.Ok? && IsStereo(heard.value, pairs, rate)
    ensures var r := DecodeLenient(data, 0);
            r.Ok? && r.value.rate == rate && IsMix(r.value.pcm, pairs)
  {
    hide LenientWalk, MonoSamples, Interleaved;
    MonoSamplesAreHalves(pairs);
    assert |Interleaved(pairs)| / 4 == |pairs|;
  }

  // ------------------------------------------------------------------ such a file

  function StereoFmt(rate: nat): (s: seq<Byte>)
    ensures |s| == 24
  {
    FMT + Put32(16) + Put16(1) + Put16(2) + Put32(rate % TWO32) + Put32((rate * 4) % TWO32) + Put16(4) + Put16(16)
  }

  function StereoFile(pairs: seq<Pair>, rate: nat): seq<Byte> {
    RiffChunk(4 * |pairs|) + StereoFmt(rate) + DataHeader(4 * |pairs|) + Interleaved(pairs)
  }

  lemma StereoFmtParts(rate: nat)
    ensures var f := StereoFmt(rate);
            && f[0..4] == FMT && f[4..8] == Put32(16) && f[8..10] == Put16(1) && f[10..12] == Put16(2)
            && f[12..16] == Put32(rate % TWO32) && f[22..24] == Put16(16)
  {}

  lemma StereoFmtAt(data: seq<Byte>, rate: nat)
    requires 36 <= |data| && data[12..36] == StereoFmt(rate) && rate < TWO32
    ensures data[12..16] == FMT && Get32(data, 16) == 16
    ensures Get16(data, 20) == 1 && Get16(data, 22) == 2 && Get32(data, 24) == rate && Get16(data, 34) == 16
  {
    hide StereoFmt, Put16, Put32, Get16, Get32;
    StereoFmtParts(rate);
    SliceOfSlice(data, 12, 36, 0, 4);
    SliceOfSlice(data, 12, 36, 4, 8);
    SliceOfSlice(data, 12, 36, 8, 10);
    SliceOfSlice(data, 12, 36, 10, 12);
    SliceOfSlice(data, 12, 36, 12, 16);
    SliceOfSlice(data, 12, 36, 22, 24);
    Get32At(data, 16, 16);
    Get16At(data, 20, 1);
    Get16At(data, 22, 2);
    Get32At(data, 24, rate);
    Get16At(data, 34, 16);
  }

  lemma StereoParts(pairs: seq<Pair>, rate: nat)
    ensures var data := StereoFile(pairs, rate);
            && HasWavHeader(data) && |data| == 44 + 4 * |pairs|
            && data[12..36] == StereoFmt(rate) && data[36..36 + 8] == DataHeader(4 * |pairs|)
            && data[44..|data|] == Interleaved(pairs)
  {
    hide StereoFmt, DataHeader, Interleaved;
    var data := StereoFile(pairs, rate);
    var r := RiffChunk(4 * |pairs|);
    assert data[..4] == r[..4] == RIFF && data[8..12] == r[8..12] == WAVE;
  }

  lemma StereoIsHeard(pairs: seq<Pair>, rate: nat)
    requires pairs != [] && rate < TWO32 && 4 * |pairs| < TWO32
    ensures LenientWalk(StereoFile(pairs, rate), 12, Heard(Format(0, 0, 0, 0), []))
            == Ok(Heard(Format(1, 2, rate, 16), Interleaved(pairs)))
    ensures StrictChunk(StereoFile(pairs, rate), 12, Found(0, [])) == Err(NotMonoPCM16)
  {
    hide *;
    var data := StereoFile(pairs, rate);
    var none := Heard(Format(0, 0, 0, 0), []);
    var fmt := Heard(Format(1, 2, rate, 16), []);
    StereoParts(pairs, rate);
    StereoFmtIsHeard(data, rate);
    StereoDataIsHeard(data, 4 * |pairs|, fmt);
    LenientStep(data, 12, none);
    LenientStep(data, 36, fmt);
    LenientStep(data, |data|, fmt.(pcm := data[44..|data|]));
  }

  lemma StereoFmtIsHeard(data: seq<Byte>, rate: nat)
    requires 36 <= |data| && data[12..36] == StereoFmt(rate) && rate < TWO32
    ensures Get32(data, 16) == 16 && LenientEnd(data, 12) == 36
    ensures LenientChunk(data, 12, Heard(Format(0, 0, 0, 0), [])) == Ok(Heard(Format(1, 2, rate, 16), []))
    ensures StrictChunk(data, 12, Found(0, [])) == Err(NotMonoPCM16)
  {
    hide StereoFmt, Get16, Get32;
    StereoFmtAt(data, rate);
  }

  lemma StereoDataIsHeard(data: seq<Byte>, size: nat, heard: Heard)
    requires 44 + size == |data| && data[36..36 + 8] == DataHeader(size) && 0 < size < TWO32 && size % 2 == 0
    ensures Get32(data, 40) == size && LenientEnd(data, 36) == |data|
    ensures LenientChunk(data, 36, heard) == Ok(heard.(pcm := data[44..|data|]))
  {
    hide DataHeader, Get16, Get32;
    DataAt(data, 36, size);
  }

  /** Stereo, for every recording: the lenient decoder returns the mix of a two-channel file,
      the strict decoder refuses it. */
  lemma StereoFileIsMixed(pairs: seq<Pair>, rate: nat)
    requires pairs != [] && 0 < rate < TWO32 && 4 * |pairs| < TWO32
    ensures var r := DecodeLenient(StereoFile(pairs, rate), 0);
            r.Ok? && r.value.rate == rate && IsMix(r.value.pcm, pairs)
    ensures DecodeStrict(StereoFile(pairs, rate)) == Err(NotMonoPCM16)
  {
    hide StereoFile, LenientWalk, StrictChunk, FinishLenient;
    StereoParts(pairs, rate);
    StereoIsHeard(pairs, rate);
    StereoIsMixed(StereoFile(pairs, rate), pairs, rate);
  }

  lemma MixIsUnique(a: seq<Sample>, b: seq<Sample>, pairs: seq<Pair>)
    requires IsMix(a, pairs) && IsMix(b, pairs)
    ensures a == b
  {}

  /** Equal channels give the mono recording back. */
  lemma EqualChannelsAreMono(pcm: seq<Sample>, rate: nat)
    requires pcm != [] && 0 < rate < TWO32 && 4 * |pcm| < TWO32
    ensures var pairs := seq(|pcm|, i requires 0 <= i < |pcm| => (pcm[i], pcm[i]));
            DecodeLenient(StereoFile(pairs, rate), 0) == Ok(Audio(pcm, rate))
  {
    hide StereoFile, DecodeLenient;
    var pairs := seq(|pcm|, i requires 0 <= i < |pcm| => (pcm[i], pcm[i]));
    StereoFileIsMixed(pairs, rate);
    MixIsUnique(DecodeLenient(StereoFile(pairs, rate), 0).value.pcm, pcm, pairs);
  }

  function Swapped(pairs: seq<Pair>): (s: seq<Pair>)
    ensures |s| == |pairs| && forall i :: 0 <= i < |pairs| ==> s[i] == (pairs[i].1, pairs[i].0)
  {
    seq(|pairs|, i requires 0 <= i < |pairs| => (pairs[i].1, pairs[i].0))
  }

  /** Swapping the channels changes nothing. */
  lemma SwappedChannelsSame(pairs: seq<Pair>, rate: nat)
    requires pairs != [] && 0 < rate < TWO32 && 4 * |pairs| < TWO32
    ensures DecodeLenient(StereoFile(Swapped(pairs), rate), 0) == DecodeLenient(StereoFile(pairs, rate), 0)
  {
    hide StereoFile, DecodeLenient;
    StereoFileIsMixed(pairs, rate);
    StereoFileIsMixed(Swapped(pairs), rate);
    var a := DecodeLenient(StereoFile(pairs, rate), 0).value;
    var b := DecodeLenient(StereoFile(Swapped(pairs), rate), 0).value;
    MixIsUnique(a.pcm, b.pcm, pairs);
  }
}
