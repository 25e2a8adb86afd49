/** Encoding and decoding WAV files, and where the strict and the lenient decoder agree. */
module WavAgreement {
  import opened Common
  import opened Bits
  import opened Wav

  // -------------------------------------------------------------- duration limit

  lemma SplitProduct(duration: int, rate: int)
    requires duration >= 0 && rate >= 0
    ensures duration * rate == SECOND * ((duration / SECOND) * rate) + (duration % SECOND) * rate
    ensures (duration * rate) / SECOND == (duration / SECOND) * rate + ((duration % SECOND) * rate) / SECOND
  {
    var s, f := duration / SECOND, duration % SECOND;
    assert duration == SECOND * s + f;
    assert duration * rate == (SECOND * s + f) * rate == SECOND * (s * rate) + f * rate;
  }

  lemma ProductIsMonotonic(a: int, b: int, c: int)
    requires 0 <= a <= b && c >= 0
    ensures 0 <= a * c <= b * c
  {}

  lemma BoundedFraction(f: int, rate: int)
    requires 0 <= f < SECOND && 0 <= rate < TWO32
    ensures 0 <= f * rate < SECOND * TWO32
  {
    ProductIsMonotonic(f, SECOND - 1, rate);
  }

  lemma SecondsOverflow(s: int, rate: int)
    requires s >= 0 && rate > 0
    ensures s > MAX_INT / rate <==> s * rate > MAX_INT
  {
    var q := MAX_INT / rate;
    assert q * rate <= MAX_INT < (q + 1) * rate;
    if s > q {
      assert s * rate >= (q + 1) * rate;
    } else {
      assert s * rate <= q * rate;
    }
  }

  /** For every sample rate a WAV header can hold, the limit is the exact number of whole
      samples the duration spans, capped at the largest 64-bit integer. */
  lemma DurationLimitIsExact(duration: int, rate: int)
    requires 0 < duration <= MAX_INT && 0 < rate < TWO32
    ensures DurationSampleLimit(duration, rate)
         == if (duration * rate) / SECOND > MAX_INT then MAX_INT else (duration * rate) / SECOND
  {
    var s, f := duration / SECOND, duration % SECOND;
    SplitProduct(duration, rate);
    BoundedFraction(f, rate);
    SecondsOverflow(s, rate);
    LimitOfParts(s * rate, f * rate);
    assert DurationSampleLimit(duration, rate)
        == if s > MAX_INT / rate then MAX_INT else CappedSum(s * rate, f * rate);
  }

  /** The last step of the limit, on the two products. */
  function CappedSum(whole: int, part: int): int {
    if Wrap64(part) / SECOND > MAX_INT - Wrap64(whole) then MAX_INT else Wrap64(whole) + Wrap64(part) / SECOND
  }

  lemma LimitOfParts(whole: int, part: int)
    requires 0 <= whole && 0 <= part < SECOND * TWO32
    ensures whole <= MAX_INT ==>
              CappedSum(whole, part) == if whole + part / SECOND > MAX_INT then MAX_INT else whole + part / SECOND
    ensures whole > MAX_INT ==> whole + part / SECOND > MAX_INT
  {}

  // ------------------------------------------------------------------- samples

  lemma MonoIsPlain(bytes: seq<Byte>)
    ensures MonoSamples(bytes, 1, |bytes| / 2) == Samples(bytes)
  {}

  lemma {:induction false} SamplesOfBytes(pcm: seq<Sample>)
    ensures Samples(SampleBytes(pcm)) == pcm
  {
    if |pcm| > 0 {
      var init, last := pcm[..|pcm| - 1], pcm[|pcm| - 1];
      SamplesOfBytes(init);
      var a, b := SampleBytes(init), Put16(Unsigned(last));
      PutGet16(Unsigned(last));
      forall i | 0 <= i < |pcm|
        ensures Samples(a + b)[i] == pcm[i]
      {
        if i < |init| {
          assert Get16(a + b, 2 * i) == Get16(a, 2 * i);
          assert Samples(a)[i] == init[i];
        } else {
          assert Get16(a + b, 2 * i) == Get16(b, 0);
        }
      }
    }
  }

  lemma Get16At(data: seq<Byte>, at: nat, v: nat)
    requires at + 2 <= |data| && data[at..at + 2] == Put16(v) && v < 65536
    ensures Get16(data, at) == v
  {
    PutGet16(v);
    assert data[at] == data[at..at + 2][0] && data[at + 1] == data[at..at + 2][1];
  }

  lemma Get32At(data: seq<Byte>, at: nat, v: nat)
    requires at + 4 <= |data| && data[at..at + 4] == Put32(v)
    ensures Get32(data, at) == v % TWO32
  {
    PutGet32(v);
    var s := data[at..at + 4];
    assert data[at] == s[0] && data[at + 1] == s[1] && data[at + 2] == s[2] && data[at + 3] == s[3];
  }

  // ------------------------------------------------------------ walking agreement

  /** The strict walk, cut off behind the first chunk of length zero. */
  function StrictUntilEmpty(data: seq<Byte>, offset: nat, found: Found): Result<Found, WavError>
    decreases |data| - offset
  {
    if offset + 8 > |data| then Ok(found)
    else
      var next :- StrictChunk(data, offset, found);
      if Get32(data, offset + 4) == 0 then Ok(next) else StrictUntilEmpty(data, NextChunk(data, offset), next)
  }

  /** The strict walk meets no chunk of length zero. */
  predicate NoEmptyChunk(data: seq<Byte>, offset: nat)
    decreases |data| - offset
  {
    offset + 8 <= |data| ==> Get32(data, offset + 4) != 0 && NoEmptyChunk(data, NextChunk(data, offset))
  }

  lemma {:induction false} NoEmptyChunkNoCut(data: seq<Byte>, offset: nat, found: Found)
    requires NoEmptyChunk(data, offset)
    ensures StrictUntilEmpty(data, offset, found) == StrictWalk(data, offset, found)
    decreases |data| - offset
  {
    if offset + 8 <= |data| && StrictChunk(data, offset, found).Ok? {
      NoEmptyChunkNoCut(data, NextChunk(data, offset), StrictChunk(data, offset, found).value);
    }
  }

  /** Both walkers remember the same file. */
  predicate SameFile(found: Found, heard: Heard) {
    && heard.pcm == found.pcm && heard.format.rate == found.rate
    && (found.rate > 0 ==> heard.format.audioFormat == 1 && heard.format.channels == 1 && heard.format.bits == 16)
  }

  lemma ChunksAgree(data: seq<Byte>, offset: nat, found: Found, heard: Heard)
    requires offset + 8 <= |data| && SameFile(found, heard) && StrictChunk(data, offset, found).Ok?
    ensures LenientChunk(data, offset, heard).Ok?
    ensures SameFile(StrictChunk(data, offset, found).value, LenientChunk(data, offset, heard).value)
    ensures LenientEnd(data, offset) + Get32(data, offset + 4) % 2 == NextChunk(data, offset)
  {
    hide Get16, Get32;
    assert LenientEnd(data, offset) == offset + 8 + Get32(data, offset + 4);
  }

  lemma {:induction false} WalkersAgree(data: seq<Byte>, offset: nat, found: Found, heard: Heard)
    requires SameFile(found, heard) && StrictWalk(data, offset, found).Ok?
    ensures StrictUntilEmpty(data, offset, found).Ok? && LenientWalk(data, offset, heard).Ok?
    ensures SameFile(StrictUntilEmpty(data, offset, found).value, LenientWalk(data, offset, heard).value)
    decreases |data| - offset
  {
    LenientStep(data, offset, heard);
    if offset + 8 <= |data| {
      hide LenientWalk, SameFile, StrictChunk, LenientChunk, Get32, NextChunk;
      ChunksAgree(data, offset, found, heard);
      var next := StrictChunk(data, offset, found).value;
      var after := LenientChunk(data, offset, heard);
      if Get32(data, offset + 4) != 0 {
        WalkersAgree(data, NextChunk(data, offset), next, after.value);
      }
    }
  }

  lemma FinishAgrees(found: Found, heard: Heard)
    requires SameFile(found, heard)
    ensures FinishLenient(heard, 0).Ok? <==> found.rate > 0 && |found.pcm| >= 2
    ensures FinishLenient(heard, 0).Ok? ==> FinishLenient(heard, 0) == Ok(Audio(Samples(found.pcm), found.rate))
  {
    MonoIsPlain(found.pcm);
  }

  /** Agreement, exactly: on a file the strict decoder accepts, the lenient one returns the
      same audio if and only if what lies behind the first empty chunk changes neither the
      sample rate nor the samples. */
  lemma DecodersAgreeExactly(data: seq<Byte>)
    requires DecodeStrict(data).Ok?
    ensures var all := StrictWalk(data, 12, Found(0, [])).value;
            var cut := StrictUntilEmpty(data, 12, Found(0, []));
            && cut.Ok?
            && (DecodeLenient(data, 0) == DecodeStrict(data)
                <==> cut.value.rate == all.rate && Samples(cut.value.pcm) == Samples(all.pcm))
  {
    var heard := Heard(Format(0, 0, 0, 0), []);
    WalkersAgree(data, 12, Found(0, []), heard);
    FinishAgrees(StrictUntilEmpty(data, 12, Found(0, [])).value, LenientWalk(data, 12, heard).value);
    assert |Samples(StrictWalk(data, 12, Found(0, [])).value.pcm)| > 0;
  }

  /** In particular, on every accepted file without an empty chunk. */
  lemma DecodersAgree(data: seq<Byte>)
    requires DecodeStrict(data).Ok? && NoEmptyChunk(data, 12)
    ensures DecodeLenient(data, 0) == DecodeStrict(data)
  {
    NoEmptyChunkNoCut(data, 12, Found(0, []));
    DecodersAgreeExactly(data);
  }

  /** From `offset` on there are only chunks that neither walker looks into. */
  predicate NothingHeardFrom(data: seq<Byte>, offset: nat)
    decreases |data| - offset
  {
    offset + 8 <= |data| ==>
      && data[offset..offset + 4] != FMT && data[offset..offset + 4] != DATA
      && NothingHeardFrom(data, NextChunk(data, offset))
  }

  /** Behind the first empty chunk there is no fmt chunk and no data chunk. */
  predicate NothingBehindEmpty(data: seq<Byte>, offset: nat)
    decreases |data| - offset
  {
    offset + 8 <= |data| ==>
      if Get32(data, offset + 4) == 0 then NothingHeardFrom(data, NextChunk(data, offset))
      else NothingBehindEmpty(data, NextChunk(data, offset))
  }

  lemma {:induction false} NothingHeardChangesNothing(data: seq<Byte>, offset: nat, found: Found)
    requires NothingHeardFrom(data, offset) && StrictWalk(data, offset, found).Ok?
    ensures StrictWalk(data, offset, found) == Ok(found)
    decreases |data| - offset
  {
    if offset + 8 <= |data| {
      NothingHeardChangesNothing(data, NextChunk(data, offset), found);
    }
  }

  lemma {:induction false} CutLosesNothing(data: seq<Byte>, offset: nat, found: Found)
    requires NothingBehindEmpty(data, offset) && StrictWalk(data, offset, found).Ok?
    ensures StrictUntilEmpty(data, offset, found) == StrictWalk(data, offset, found)
    decreases |data| - offset
  {
    if offset + 8 <= |data| {
      var next := StrictChunk(data, offset, found).value;
      if Get32(data, offset + 4) == 0 {
        NothingHeardChangesNothing(data, NextChunk(data, offset), next);
      } else {
        CutLosesNothing(data, NextChunk(data, offset), next);
      }
    }
  }

  /** Read off the chunks themselves: the decoders agree on every accepted file that has no
      fmt and no data chunk behind its first empty chunk, if it has one. */
  lemma DecodersAgreeByChunks(data: seq<Byte>)
    requires DecodeStrict(data).Ok? && NothingBehindEmpty(data, 12)
    ensures DecodeLenient(data, 0) == DecodeStrict(data)
  {
    CutLosesNothing(data, 12, Found(0, []));
    DecodersAgreeExactly(data);
  }

  // ----------------------------------------------------------------- round trip

  /** The fmt and data chunks the encoder writes, found at `at` behind any beginning. */
  predicate EncodedAt(data: seq<Byte>, at: nat, pcm: seq<Sample>, rate: nat) {
    at + 32 + 2 * |pcm| == |data| && data[at..] == FmtChunk(rate) + DataHeader(2 * |pcm|) + SampleBytes(pcm)
  }

  lemma FmtParts(rate: nat)
    ensures var f := FmtChunk(rate);
            && f[0..4] == FMT && f[4..8] == Put32(16) && f[8..10] == Put16(1) && f[10..12] == Put16(1)
            && f[12..16] == Put32(rate % TWO32) && f[22..24] == Put16(16)
  {}

  lemma FmtAt(data: seq<Byte>, at: nat, rate: nat)
    requires at + 24 <= |data| && data[at..at + 24] == FmtChunk(rate)
    ensures data[at..at + 4] == FMT && Get32(data, at + 4) == 16
    ensures MonoPCM16(data, at + 8) && Get32(data, at + 12) == rate % TWO32
  {
    hide FmtChunk, Put16, Put32, Get16, Get32;
    FmtParts(rate);
    SliceOfSlice(data, at, at + 24, 0, 4);
    SliceOfSlice(data, at, at + 24, 4, 8);
    SliceOfSlice(data, at, at + 24, 8, 10);
    SliceOfSlice(data, at, at + 24, 10, 12);
    SliceOfSlice(data, at, at + 24, 12, 16);
    SliceOfSlice(data, at, at + 24, 22, 24);
    Get32At(data, at + 4, 16);
    Get16At(data, at + 8, 1);
    Get16At(data, at + 10, 1);
    Get32At(data, at + 12, rate % TWO32);
    Get16At(data, at + 22, 16);
  }

  lemma DataAt(data: seq<Byte>, at: nat, size: nat)
    requires at + 8 <= |data| && data[at..at + 8] == DataHeader(size)
    ensures data[at..at + 4] == DATA && data[at..at + 4] != FMT && Get32(data, at + 4) == size % TWO32
  {
    hide Put32, Get32;
    var d := DataHeader(size);
    assert d[0..4] == DATA && d[4..8] == Put32(size % TWO32);
    SliceOfSlice(data, at, at + 8, 0, 4);
    SliceOfSlice(data, at, at + 8, 4, 8);
    Get32At(data, at + 4, size % TWO32);
    DataIsNotFmt();
  }

  lemma DataIsNotFmt()
    ensures DATA != FMT
  {
    assert DATA[0] != FMT[0];
  }

  lemma PartsOfEncoded(data: seq<Byte>, at: nat, pcm: seq<Sample>, rate: nat)
    requires EncodedAt(data, at, pcm, rate)
    ensures data[at..at + 24] == FmtChunk(rate) && data[at + 24..at + 24 + 8] == DataHeader(2 * |pcm|)
    ensures data[at + 32..] == SampleBytes(pcm) && at + 24 + 8 + 2 * |pcm| == |data| && (2 * |pcm|) % 2 == 0
  {
    hide FmtChunk, DataHeader, SampleBytes;
    var s := data[at..];
    assert s[0..24] == FmtChunk(rate) && s[24..32] == DataHeader(2 * |pcm|) && s[32..] == SampleBytes(pcm);
  }

  /** The strict walk over the encoder's two chunks. */
  lemma WalkEncoded(data: seq<Byte>, at: nat, pcm: seq<Sample>, rate: nat, found: Found)
    requires EncodedAt(data, at, pcm, rate) && 0 < rate < TWO32 && 2 * |pcm| < TWO32
    ensures StrictWalk(data, at, found) == Ok(Found(rate, SampleBytes(pcm)))
  {
    PartsOfEncoded(data, at, pcm, rate);
    FmtStep(data, at, rate, found);
    DataStep(data, at + 24, 2 * |pcm|, found.(rate := rate));
    assert data[at + 32..|data|] == data[at + 32..];
    WalkTwoChunks(data, at, at + 24, found, found.(rate := rate), Found(rate, SampleBytes(pcm)));
  }

  lemma WalkTwoChunks(data: seq<Byte>, a: nat, b: nat, found: Found, next: Found, last: Found)
    requires a + 8 <= |data| && b + 8 <= |data|
    requires StrictChunk(data, a, found) == Ok(next) && NextChunk(data, a) == b
    requires StrictChunk(data, b, next) == Ok(last) && NextChunk(data, b) == |data|
    ensures StrictWalk(data, a, found) == Ok(last)
  {
    assert StrictWalk(data, |data|, last) == Ok(last);
    assert StrictWalk(data, b, next) == Ok(last);
  }

  lemma TwoChunksNotEmpty(data: seq<Byte>, a: nat, b: nat)
    requires a + 8 <= |data| && b + 8 <= |data|
    requires Get32(data, a + 4) != 0 && NextChunk(data, a) == b
    requires Get32(data, b + 4) != 0 && NextChunk(data, b) == |data|
    ensures NoEmptyChunk(data, a)
  {
    assert NoEmptyChunk(data, |data|);
    assert NoEmptyChunk(data, b);
  }

  lemma EncodedHasNoEmptyChunk(data: seq<Byte>, at: nat, pcm: seq<Sample>, rate: nat)
    requires EncodedAt(data, at, pcm, rate) && 0 < rate < TWO32 && 0 < 2 * |pcm| < TWO32
    ensures NoEmptyChunk(data, at)
  {
    PartsOfEncoded(data, at, pcm, rate);
    FmtStep(data, at, rate, Found(0, []));
    DataStep(data, at + 24, 2 * |pcm|, Found(0, []));
    TwoChunksNotEmpty(data, at, at + 24);
  }

  lemma FmtStep(data: seq<Byte>, at: nat, rate: nat, found: Found)
    requires at + 24 <= |data| && data[at..at + 24] == FmtChunk(rate) && rate < TWO32
    ensures Get32(data, at + 4) != 0 && NextChunk(data, at) == at + 24
    ensures StrictChunk(data, at, found) == Ok(found.(rate := rate))
  {
    hide FmtChunk, Get16, Get32;
    FmtAt(data, at, rate);
  }

  lemma DataStep(data: seq<Byte>, at: nat, size: nat, found: Found)
    requires at + 8 + size == |data| && data[at..at + 8] == DataHeader(size) && size < TWO32 && size % 2 == 0
    ensures Get32(data, at + 4) == size && NextChunk(data, at) == |data|
    ensures StrictChunk(data, at, found) == Ok(found.(pcm := data[at + 8..|data|]))
  {
    hide DataHeader, Get16, Get32;
    DataAt(data, at, size);
  }

  lemma EncodedShape(pcm: seq<Sample>, rate: nat)
    requires rate > 0
    ensures var data := Encode(pcm, rate).value; HasWavHeader(data) && EncodedAt(data, 12, pcm, rate)
  {
    var data := Encode(pcm, rate).value;
    var r := RiffChunk(2 * |pcm|);
    assert data == r + (FmtChunk(rate) + DataHeader(2 * |pcm|) + SampleBytes(pcm));
    assert data[..4] == r[..4] == RIFF && data[8..12] == r[8..12] == WAVE;
  }

  lemma {:induction false} WalkedSizes(data: seq<Byte>, offset: nat, found: Found)
    requires StrictWalk(data, offset, found).Ok? && |found.pcm| < TWO32 && found.rate < TWO32
    ensures |StrictWalk(data, offset, found).value.pcm| < TWO32 && StrictWalk(data, offset, found).value.rate < TWO32
    decreases |data| - offset
  {
    if offset + 8 <= |data| {
      WalkedSizes(data, NextChunk(data, offset), StrictChunk(data, offset, found).value);
    }
  }

  /** Strict round trip, exactly: what was encoded comes back if and only if there are
      samples and both sizes the header stores fit 32 bits. */
  lemma StrictRoundTrip(pcm: seq<Sample>, rate: int)
    requires rate > 0
    ensures DecodeStrict(Encode(pcm, rate).value) == Ok(Audio(pcm, rate))
       <==> pcm != [] && rate < TWO32 && 2 * |pcm| < TWO32
  {
    var data := Encode(pcm, rate).value;
    EncodedShape(pcm, rate);
    if rate < TWO32 && 2 * |pcm| < TWO32 {
      WalkEncoded(data, 12, pcm, rate, Found(0, []));
      SamplesOfBytes(pcm);
    } else if StrictWalk(data, 12, Found(0, [])).Ok? {
      WalkedSizes(data, 12, Found(0, []));
    }
  }

  lemma {:induction false} HeardSizes(data: seq<Byte>, offset: nat, heard: Heard)
    requires LenientWalk(data, offset, heard).Ok? && |heard.pcm| < TWO32 && heard.format.rate < TWO32
    ensures |LenientWalk(data, offset, heard).value.pcm| < TWO32
    ensures LenientWalk(data, offset, heard).value.format.rate < TWO32
    decreases |data| - offset
  {
    if offset + 8 <= |data| && Get32(data, offset + 4) != 0 {
      HeardSizes(data, LenientEnd(data, offset) + Get32(data, offset + 4) % 2, LenientChunk(data, offset, heard).value);
    }
  }

  /** Whatever the lenient decoder returns has samples, and fits the sizes a header holds. */
  lemma LenientResultFits(data: seq<Byte>)
    requires DecodeLenient(data, 0).Ok?
    ensures var audio := DecodeLenient(data, 0).value;
            audio.pcm != [] && 2 * |audio.pcm| < TWO32 && audio.rate < TWO32
  {
    HeardSizes(data, 12, Heard(Format(0, 0, 0, 0), []));
    FramesFit(LenientWalk(data, 12, Heard(Format(0, 0, 0, 0), [])).value);
  }

  lemma FramesFit(heard: Heard)
    requires FinishLenient(heard, 0).Ok?
    ensures 0 < |FinishLenient(heard, 0).value.pcm| && 2 * |FinishLenient(heard, 0).value.pcm| <= |heard.pcm|
  {
    if heard.format.channels == 1 {
      assert |heard.pcm| / 2 * 2 <= |heard.pcm|;
    } else {
      assert |heard.pcm| / 4 * 4 <= |heard.pcm|;
    }
  }

  /** Lenient round trip, exactly: under the same condition as the strict one. */
  lemma LenientRoundTrip(pcm: seq<Sample>, rate: int)
    requires rate > 0
    ensures DecodeLenient(Encode(pcm, rate).value, 0) == Ok(Audio(pcm, rate))
       <==> pcm != [] && rate < TWO32 && 2 * |pcm| < TWO32
  {
    var data := Encode(pcm, rate).value;
    if pcm != [] && rate < TWO32 && 2 * |pcm| < TWO32 {
      EncodedShape(pcm, rate);
      EncodedHasNoEmptyChunk(data, 12, pcm, rate);
      StrictRoundTrip(pcm, rate);
      DecodersAgree(data);
    } else if DecodeLenient(data, 0).Ok? {
      LenientResultFits(data);
    }
  }

  /** A duration limit changes neither verdict nor rate: it keeps the first samples, and all
      of them if it spans no whole sample. */
  lemma LimitKeepsPrefix(data: seq<Byte>, maxDuration: int)
    ensures var full, cut := DecodeLenient(data, 0), DecodeLenient(data, maxDuration);
            if full.Err? then cut == full
            else
              var limit := DurationSampleLimit(maxDuration, full.value.rate);
              && cut.Ok? && cut.value.rate == full.value.rate
              && cut.value.pcm == if 0 < limit < |full.value.pcm| then full.value.pcm[..limit] else full.value.pcm
  {
    if HasWavHeader(data) {
      var heard := LenientWalk(data, 12, Heard(Format(0, 0, 0, 0), []));
      if heard.Ok? && FinishLenient(heard.value, 0).Ok? {
        LimitCutsFrames(heard.value, maxDuration);
      }
    }
  }

  lemma LimitCutsFrames(heard: Heard, maxDuration: int)
    requires FinishLenient(heard, 0).Ok?
    ensures var full, cut := FinishLenient(heard, 0).value, FinishLenient(heard, maxDuration);
            var limit := DurationSampleLimit(maxDuration, full.rate);
            && cut.Ok? && cut.value.rate == full.rate
            && cut.value.pcm == if 0 < limit < |full.pcm| then full.pcm[..limit] else full.pcm
  {
    hide MonoFrame;
  }

  /** The header of an encoded file says what the file is: sizes that count its bytes, and a
      byte rate and frame size that follow from rate, channels and sample size. */
  lemma HeaderDescribesFile(pcm: seq<Sample>, rate: nat)
    requires rate > 0
    ensures var data := Encode(pcm, rate).value;
            && |data| == 44 + 2 * |pcm|
            && Get32(data, 4) == (|data| - 8) % TWO32 && Get32(data, 40) == (|data| - 44) % TWO32
            && Get16(data, 20) == 1 && Get16(data, 22) == 1 && Get16(data, 34) == 16
            && Get32(data, 24) == rate % TWO32
            && Get16(data, 32) == Get16(data, 22) * Get16(data, 34) / 8
            && Get32(data, 28) == (rate * Get16(data, 32)) % TWO32
  {
    hide *;
    HeaderValues(pcm, rate);
    HeaderBytes(pcm, rate);
  }

  lemma HeaderValues(pcm: seq<Sample>, rate: nat)
    requires rate > 0
    ensures var data := Encode(pcm, rate).value;
            && |data| == 44 + 2 * |pcm|
            && Get32(data, 4) == (36 + 2 * |pcm|) % TWO32 && Get32(data, 40) == (2 * |pcm|) % TWO32
            && Get16(data, 20) == 1 && Get16(data, 22) == 1 && Get16(data, 34) == 16
            && Get32(data, 24) == rate % TWO32 && Get32(data, 28) == (rate * 2) % TWO32 && Get16(data, 32) == 2
  {
    hide Put16, Put32, Get16, Get32, SampleBytes, EncodedHeader;
    HeaderBytes(pcm, rate);
    HeaderNumbers(Encode(pcm, rate).value, (36 + 2 * |pcm|) % TWO32, (2 * |pcm|) % TWO32, rate);
  }

  lemma HeaderNumbers(data: seq<Byte>, riff: nat, size: nat, rate: nat)
    requires |data| >= 44 && riff < TWO32 && size < TWO32
    requires data[4..8] == Put32(riff) && data[40..44] == Put32(size)
    requires data[20..22] == Put16(1) && data[22..24] == Put16(1) && data[24..28] == Put32(rate % TWO32)
    requires data[28..32] == Put32((rate * 2) % TWO32) && data[32..34] == Put16(2) && data[34..36] == Put16(16)
    ensures Get32(data, 4) == riff && Get32(data, 40) == size
    ensures Get16(data, 20) == 1 && Get16(data, 22) == 1 && Get16(data, 34) == 16
    ensures Get32(data, 24) == rate % TWO32 && Get32(data, 28) == (rate * 2) % TWO32 && Get16(data, 32) == 2
  {
    hide Put16, Put32, Get16, Get32;
    Get32At(data, 4, riff);
    Get16At(data, 20, 1);
    Get16At(data, 22, 1);
    Get32At(data, 24, rate % TWO32);
    Get32At(data, 28, (rate * 2) % TWO32);
    Get16At(data, 32, 2);
    Get16At(data, 34, 16);
    Get32At(data, 40, size);
  }

  lemma HeaderBytes(pcm: seq<Sample>, rate: nat)
    requires rate > 0
    ensures var data := Encode(pcm, rate).value;
            && |data| == 44 + 2 * |pcm|
            && data[4..8] == Put32((36 + 2 * |pcm|) % TWO32) && data[40..44] == Put32((2 * |pcm|) % TWO32)
            && data[20..22] == Put16(1) && data[22..24] == Put16(1) && data[24..28] == Put32(rate % TWO32)
            && data[28..32] == Put32((rate * 2) % TWO32) && data[32..34] == Put16(2) && data[34..36] == Put16(16)
  {
    hide Put16, Put32, SampleBytes;
  }

  // --------------------------------------------------- an empty chunk hides the rest

  const LIST: seq<Byte> := [76, 73, 83, 84]

  function WithEmptyChunk(pcm: seq<Sample>, rate: nat): seq<Byte> {
    RiffChunk(2 * |pcm|) + (LIST + Put32(0)) + (FmtChunk(rate) + DataHeader(2 * |pcm|) + SampleBytes(pcm))
  }

  /** Without the proviso the decoders part: behind an empty chunk the strict decoder still
      finds any recording, the lenient one stops and sees no format at all. */
  lemma EmptyChunkHidesFile(pcm: seq<Sample>, rate: nat)
    requires pcm != [] && 0 < rate < TWO32 && 2 * |pcm| < TWO32
    ensures DecodeStrict(WithEmptyChunk(pcm, rate)) == Ok(Audio(pcm, rate))
    ensures DecodeLenient(WithEmptyChunk(pcm, rate), 0) == Err(NotPCM)
  {
    var data := WithEmptyChunk(pcm, rate);
    var r := RiffChunk(2 * |pcm|);
    assert data[..4] == r[..4] == RIFF && data[8..12] == r[8..12] == WAVE;
    assert data[12..16] == LIST && data[16..20] == Put32(0);
    assert LIST[0] != FMT[0] && LIST[0] != DATA[0];
    Get32At(data, 16, 0);
    assert data[20..] == FmtChunk(rate) + DataHeader(2 * |pcm|) + SampleBytes(pcm);
    assert NextChunk(data, 12) == 20 && StrictChunk(data, 12, Found(0, [])) == Ok(Found(0, []));
    WalkEncoded(data, 20, pcm, rate, Found(0, []));
    SamplesOfBytes(pcm);
  }
}
