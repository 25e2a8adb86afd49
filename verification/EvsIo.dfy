/** EVS payloads in AMR-WB interoperable mode: the compact format of annex A.2.1 of
    3GPP TS 26.445, whose speech is rotated by one bit, the header-full format of
    annex A.2.2, and the dispatch between the two by payload size. */
module EvsIo {
  import opened Common
  import opened Bits
  import opened AmrPacket
  import opened AmrRoundTrip
  import opened OctetAligned

  datatype EvsError =
    | TruncatedEvsPayload | TruncatedEvsToc | ExpectedToc | MultipleFrames | PrimaryFrameType
    | TruncatedEvsSpeech | EmptyStorage | UnsupportedMode | TruncatedStorage

  const SID_MODE: nat := 9
  const SID_FRAME_TYPE: nat := 25
  const IO_FRAME_TYPE_BASE: nat := 16

  const PROTECTED_BITS: seq<nat> := [136, 184, 256, 288, 320, 368, 400, 464, 480]
  const COMPACT_PADDING: seq<nat> := [1, 4, 0, 0, 0, 0, 0, 0, 0]

  function SpeechBitCount(mode: nat): nat
    requires mode <= 9
  {
    AMR_WB_SPEECH_BITS[mode]
  }

  function SpeechByteCount(mode: nat): nat
    requires mode <= 9
  {
    AMR_WB_FRAME_BYTES[mode]
  }

  /** `byte(mode<<3) | amrQualityBit` */
  function GoodHeader(mode: nat): Byte
    requires mode <= 9
  {
    8 * mode + 4
  }

  function StorageSpeech(storage: seq<Byte>): Result<(nat, seq<Byte>), EvsError> {
    if |storage| == 0 then Err(EmptyStorage)
    else
      var mode := FrameType(storage[0]);
      if mode > SID_MODE || (mode <= 8 && AMR_WB_SPEECH_BITS[mode] == 0) then Err(UnsupportedMode)
      else if |storage| < 1 + AMR_WB_FRAME_BYTES[mode] then Err(TruncatedStorage)
      else Ok((mode, storage[1..1 + AMR_WB_FRAME_BYTES[mode]]))
  }

  lemma {:induction false} CompactSizes(mode: nat)
    requires mode <= 8
    ensures 0 < SpeechBitCount(mode) && SpeechByteCount(mode) == ByteCount(SpeechBitCount(mode))
    ensures 3 + SpeechBitCount(mode) + COMPACT_PADDING[mode] == PROTECTED_BITS[mode]
    ensures PROTECTED_BITS[mode] % 8 == 0
  {
    if mode <= 4 {
      assert mode == 0 || mode == 1 || mode == 2 || mode == 3 || mode == 4;
    } else {
      assert mode == 5 || mode == 6 || mode == 7 || mode == 8;
    }
  }

  // ------------------------------------------------------------------- printers

  /** Mode request, then the speech with its first bit moved to the end, then padding. */
  function CompactBits(mode: nat, speech: seq<Byte>, cmr: nat): (s: seq<bool>)
    requires mode <= 8 && |speech| == SpeechByteCount(mode)
    ensures |s| == PROTECTED_BITS[mode]
  {
    CompactSizes(mode);
    var d := BitsOf(speech);
    ToBits(3, cmr % 8) + d[1..SpeechBitCount(mode)] + [d[0]] + Zeros(COMPACT_PADDING[mode])
  }

  function StorageToHeaderFull(storage: seq<Byte>, cmr: nat): Result<seq<Byte>, EvsError> {
    var (mode, speech) :- StorageSpeech(storage);
    var ft := if mode <= 8 then IO_FRAME_TYPE_BASE + mode else SID_FRAME_TYPE;
    Ok([128 + 16 * (cmr % 8), ft] + speech)
  }

  function StorageToCompact(storage: seq<Byte>, cmr: nat): Result<seq<Byte>, EvsError> {
    var (mode, speech) :- StorageSpeech(storage);
    if mode == SID_MODE then StorageToHeaderFull(storage, cmr) else Ok(Pack(CompactBits(mode, speech, cmr)))
  }

  method StorageToEVSIOHeaderFull(storage: seq<Byte>, cmr: Byte) returns (r: Result<seq<Byte>, EvsError>)
    ensures r == StorageToHeaderFull(storage, cmr)
    ensures r.Ok? <==> StorageSpeech(storage).Ok?
    ensures r.Ok? ==> && |r.value| == 2 + |StorageSpeech(storage).value.1|
                      && r.value[0] >= 128 && (r.value[0] / 16) % 8 == cmr % 8 && r.value[0] % 16 == 0
                      && r.value[1] == IO_FRAME_TYPE_BASE + StorageSpeech(storage).value.0
                      && r.value[2..] == StorageSpeech(storage).value.1
  {
    var parsed := StorageSpeech(storage);
    if parsed.Err? {
      return Err(parsed.error);
    }
    var (mode, speech) := parsed.value;
    var ft := SID_FRAME_TYPE;
    if mode <= 8 {
      ft := IO_FRAME_TYPE_BASE + mode;
    }
    return Ok([128 + 16 * (cmr % 8), ft] + speech);
  }

  method StorageToEVSIOCompact(storage: seq<Byte>, cmr: Byte) returns (r: Result<seq<Byte>, EvsError>)
    ensures r == StorageToCompact(storage, cmr)
  {
    var parsed := StorageSpeech(storage);
    if parsed.Err? {
      return Err(parsed.error);
    }
    var (mode, speech) := parsed.value;
    if mode == SID_MODE {
      r := StorageToEVSIOHeaderFull(storage, cmr);
      return;
    }
    CompactSizes(mode);
    var writer := new AmrBitWriter();
    writer.Write(3, cmr % 8);
    assert [] + ToBits(3, cmr % 8) == ToBits(3, cmr % 8);
    WriteRotated(writer, speech, AMR_WB_SPEECH_BITS[mode]);
    var pad := COMPACT_PADDING[mode];
    ZeroBits(pad);
    ghost var rotated := writer.bits;
    if pad > 0 {
      writer.Write(pad, 0);
    }
    assert writer.bits == rotated + Zeros(pad);
    assert writer.bits == CompactBits(mode, speech, cmr);
    var payload := writer.Bytes();
    return Ok(payload);
  }

  /** Speech bits 1 to `bits - 1`, then bit 0. */
  method WriteRotated(writer: AmrBitWriter, speech: seq<Byte>, bits: nat)
    requires 0 < bits <= 8 * |speech|
    modifies writer
    ensures writer.bits == old(writer.bits) + BitsOf(speech)[1..bits] + [BitsOf(speech)[0]]
  {
    ghost var d := BitsOf(speech);
    for index := 1 to bits
      invariant writer.bits == old(writer.bits) + d[1..index]
    {
      BitsOfAt(speech, index);
      SingleBit(d[index]);
      assert d[1..index + 1] == d[1..index] + [d[index]];
      writer.Write(1, Num(Bit(speech[index / 8], index % 8)));
    }
    BitsOfAt(speech, 0);
    SingleBit(d[0]);
    writer.Write(1, Num(Bit(speech[0], 0)));
  }

  // -------------------------------------------------------------------- parsers

  /** The mode whose compact payload has this size. */
  function CompactModeFrom(bits: int, mode: nat): (r: Option<nat>)
    requires mode <= 9
    decreases 9 - mode
  {
    if mode == 9 then None else if PROTECTED_BITS[mode] == bits then Some(mode) else CompactModeFrom(bits, mode + 1)
  }

  function CompactMode(bits: int): Option<nat> {
    CompactModeFrom(bits, 0)
  }

  function UnpackCompact(payload: seq<Byte>, mode: nat): Result<seq<Byte>, EvsError>
    requires mode <= 8
  {
    var n := SpeechBitCount(mode);
    var b := BitsOf(payload);
    CompactSizes(mode);
    if |b| < 3 then Err(TruncatedEvsPayload)
    else if |b| < 3 + n then Err(TruncatedEvsSpeech)
    else Ok([GoodHeader(mode)] + Pack([b[2 + n]] + b[3..2 + n]))
  }

  function ParseHeaderFull(payload: seq<Byte>): Result<seq<Byte>, EvsError> {
    if |payload| == 0 then Err(TruncatedEvsPayload)
    else
      var index := if payload[0] >= 128 then 1 else 0;
      if index >= |payload| then Err(TruncatedEvsToc)
      else
        var toc := payload[index];
        if toc >= 128 then Err(ExpectedToc)
        else if (toc / 64) % 2 == 1 then Err(MultipleFrames)
        else
          var ft := toc % 64;
          var speech := payload[index + 1..];
          if IO_FRAME_TYPE_BASE <= ft <= IO_FRAME_TYPE_BASE + 8 then
            var mode := ft - IO_FRAME_TYPE_BASE;
            if |speech| < SpeechByteCount(mode) then Err(TruncatedEvsSpeech)
            else Ok([GoodHeader(mode)] + speech[..SpeechByteCount(mode)])
          else if ft == SID_FRAME_TYPE then
            if |speech| < SpeechByteCount(SID_MODE) then Err(TruncatedEvsSpeech)
            else Ok([GoodHeader(SID_MODE)] + speech[..SpeechByteCount(SID_MODE)])
          else Err(PrimaryFrameType)
  }

  /** Size decides the format: a compact size means compact. */
  function Decode(payload: seq<Byte>, bits: int): Result<seq<Byte>, EvsError> {
    if |payload| == 0 || bits <= 0 then Err(TruncatedEvsPayload)
    else
      var need := (bits + 7) / 8;
      if need > |payload| then Err(TruncatedEvsPayload)
      else
        var mode := CompactMode(bits);
        CompactModeFound(bits);
        if mode.Some? then UnpackCompact(payload[..need], mode.value) else ParseHeaderFull(payload[..need])
  }

  lemma CompactModeFound(bits: int)
    ensures CompactMode(bits).Some? ==> CompactMode(bits).value <= 8 && PROTECTED_BITS[CompactMode(bits).value] == bits
    ensures forall m :: 0 <= m <= 8 && PROTECTED_BITS[m] == bits ==> CompactMode(bits).Some?
  {
    CompactModeFoundFrom(bits, 0);
  }

  lemma {:induction false} CompactModeFoundFrom(bits: int, mode: nat)
    requires mode <= 9
    ensures var r := CompactModeFrom(bits, mode);
            && (r.Some? ==> mode <= r.value <= 8 && PROTECTED_BITS[r.value] == bits)
            && (forall m :: mode <= m <= 8 && PROTECTED_BITS[m] == bits ==> r.Some?)
    decreases 9 - mode
  {
    if mode < 9 && PROTECTED_BITS[mode] != bits {
      CompactModeFoundFrom(bits, mode + 1);
    }
  }

  method EvsCompactIOMode(bits: int) returns (r: Option<nat>)
    ensures r == CompactMode(bits)
  {
    for mode := 0 to 9
      invariant CompactMode(bits) == CompactModeFrom(bits, mode)
    {
      if bits == PROTECTED_BITS[mode] {
        return Some(mode);
      }
    }
    return None;
  }

  method UnpackEVSCompactIO(payload: seq<Byte>, mode: nat) returns (r: Result<seq<Byte>, EvsError>)
    requires mode <= 8
    ensures r == UnpackCompact(payload, mode)
  {
    hide BitsOf, Pack, Value, LateFirst, UnpackCompact;
    CompactSizes(mode);
    UnpackCases(payload, mode);
    var bits := AMR_WB_SPEECH_BITS[mode];
    var reader := new AmrBitReader(payload);
    ghost var b := BitsOf(payload);
    var head := reader.Read(3);
    if head == None {
      return Err(TruncatedEvsPayload);
    }
    var speech := NewBuffer(AMR_WB_FRAME_BYTES[mode]);
    ghost var len := 8 * speech.Length;
    LateFirstStart(b, len);
    var index := 1;
    while index < bits
      invariant 1 <= index <= bits && reader.Valid() && reader.bit == 2 + index <= |b|
      invariant index <= len && BitsOf(speech[..]) == Filled(LateFirst(b, index), index, len)
    {
      var bit := reader.ReadBit();
      if bit == None {
        return Err(TruncatedEvsSpeech);
      }
      LateFirstNext(b, index, len);
      if bit.value {
        SetSpeechBit(speech, index);
      }
      index := index + 1;
    }
    var d0 := reader.ReadBit();
    if d0 == None {
      return Err(TruncatedEvsSpeech);
    }
    if d0.value {
      SetSpeechBit(speech, 0);
    }
    LateFirstDone(b, bits, speech[..]);
    return Ok([GoodHeader(mode)] + speech[..]);
  }

  lemma UnpackCases(payload: seq<Byte>, mode: nat)
    requires mode <= 8
    ensures var b := BitsOf(payload); var n := SpeechBitCount(mode);
            UnpackCompact(payload, mode)
            == if |b| < 3 then Err(TruncatedEvsPayload)
               else if |b| < 3 + n then Err(TruncatedEvsSpeech)
               else Ok([GoodHeader(mode)] + Pack([b[2 + n]] + b[3..2 + n]))
  {}

  /** The speech read so far: bit 0 still missing, bits 1 to `index - 1` in place. */
  function LateFirst(b: seq<bool>, index: nat): (s: seq<bool>)
    requires 1 <= index && 2 + index <= |b|
    ensures |s| == index
  {
    [false] + b[3..2 + index]
  }

  lemma LateFirstStart(b: seq<bool>, len: nat)
    requires len >= 1 && 3 <= |b|
    ensures Filled(LateFirst(b, 1), 1, len) == Zeros(len)
  {
    assert LateFirst(b, 1) == [false] == Zeros(1);
  }

  lemma LateFirstNext(b: seq<bool>, index: nat, len: nat)
    requires 1 <= index < len && 3 + index <= |b|
    ensures Filled(LateFirst(b, index + 1), index + 1, len)
         == if b[2 + index] then Filled(LateFirst(b, index), index, len)[index := true]
            else Filled(LateFirst(b, index), index, len)
  {}

  lemma FirstLast(b: seq<bool>, n: nat, len: nat)
    requires 1 <= n <= len && 3 + n <= |b|
    ensures Filled([b[2 + n]] + b[3..2 + n], n, len)
         == if b[2 + n] then Filled(LateFirst(b, n), n, len)[0 := true] else Filled(LateFirst(b, n), n, len)
  {}

  lemma LateFirstDone(b: seq<bool>, n: nat, speech: seq<Byte>)
    requires 1 <= n && 3 + n <= |b| && |speech| == ByteCount(n)
    requires var filled := Filled(LateFirst(b, n), n, 8 * |speech|);
             BitsOf(speech) == if b[2 + n] then filled[0 := true] else filled
    ensures speech == Pack([b[2 + n]] + b[3..2 + n])
  {
    hide BitsOf, Pack, Filled, LateFirst;
    FirstLast(b, n, 8 * |speech|);
    FilledIsPadded([b[2 + n]] + b[3..2 + n], speech);
  }

  method EvsIOPayloadToStorageBits(payload: seq<Byte>, bits: int) returns (r: Result<seq<Byte>, EvsError>)
    ensures r == Decode(payload, bits)
  {
    if |payload| == 0 || bits <= 0 {
      return Err(TruncatedEvsPayload);
    }
    var need := (bits + 7) / 8;
    if need > |payload| {
      return Err(TruncatedEvsPayload);
    }
    CompactModeFound(bits);
    var mode := EvsCompactIOMode(bits);
    if mode != None {
      r := UnpackEVSCompactIO(payload[..need], mode.value);
    } else {
      r := ParseHeaderFull(payload[..need]);
    }
  }

  // ------------------------------------------------------------------- theorems

  /** A compact payload has exactly the protected size of its mode. */
  lemma CompactPayloadSize(storage: seq<Byte>, cmr: nat)
    requires StorageSpeech(storage).Ok? && StorageSpeech(storage).value.0 <= 8
    ensures StorageToCompact(storage, cmr).Ok?
    ensures 8 * |StorageToCompact(storage, cmr).value| == PROTECTED_BITS[StorageSpeech(storage).value.0]
  {
    CompactSizes(StorageSpeech(storage).value.0);
  }

  lemma WholeBytesNeedNoPadding(s: seq<bool>)
    requires |s| % 8 == 0
    ensures BitsOf(Pack(s)) == s
  {
    BitsOfPack(s);
    assert 8 * ByteCount(|s|) == |s|;
    assert Padded(s) == s;
  }

  /** The rotated speech, read back with bit 0 in front again. */
  lemma RotationUndone(mode: nat, speech: seq<Byte>, cmr: nat)
    requires mode <= 8 && |speech| == SpeechByteCount(mode)
    ensures var s := CompactBits(mode, speech, cmr); var n := SpeechBitCount(mode);
            |s| >= 3 + n > 3 && [s[2 + n]] + s[3..2 + n] == BitsOf(speech)[..n]
  {
    CompactSizes(mode);
    var d := BitsOf(speech);
    var n := SpeechBitCount(mode);
    var s := CompactBits(mode, speech, cmr);
    assert s[3..2 + n] == d[1..n];
    assert s[2 + n] == d[0];
  }

  /** Compact round trip: for every mode 0 to 8, any mode request and any storage frame,
      the packed payload decodes to the frame with quality bit set and spare bits clear. */
  lemma CompactRoundTrip(storage: seq<Byte>, cmr: nat)
    requires StorageSpeech(storage).Ok? && StorageSpeech(storage).value.0 <= 8
    ensures var (mode, speech) := StorageSpeech(storage).value;
            var payload := StorageToCompact(storage, cmr).value;
            Decode(payload, 8 * |payload|) == Ok([GoodHeader(mode)] + Cleaned(speech, SpeechBitCount(mode)))
  {
    var (mode, speech) := StorageSpeech(storage).value;
    var payload := StorageToCompact(storage, cmr).value;
    CompactPayloadSize(storage, cmr);
    hide BitsOf, Pack, CompactBits, UnpackCompact, CompactMode;
    StorageSpeechSizes(storage);
    CompactSizes(mode);
    UnpackCases(payload, mode);
    WholeBytesNeedNoPadding(CompactBits(mode, speech, cmr));
    RotationUndone(mode, speech, cmr);
    CompactSizesDiffer(mode);
    assert payload[..|payload|] == payload;
  }

  /** No two modes share a compact size. */
  lemma CompactSizesDiffer(mode: nat)
    requires mode <= 8
    ensures CompactMode(PROTECTED_BITS[mode]) == Some(mode)
  {
    CompactModeFound(PROTECTED_BITS[mode]);
    assert forall i, j :: 0 <= i < j < 9 ==> PROTECTED_BITS[i] < PROTECTED_BITS[j];
  }

  /** Every payload of a compact size decodes, and packing the result under the payload's
      own mode request gives the payload back exactly when its padding bits are zero. */
  lemma CompactRepacks(payload: seq<Byte>, mode: nat)
    requires mode <= 8 && 8 * |payload| == PROTECTED_BITS[mode]
    ensures var b := BitsOf(payload); var n := SpeechBitCount(mode);
            && |b| >= 3 + n
            && Decode(payload, 8 * |payload|).Ok?
            && (StorageToCompact(Decode(payload, 8 * |payload|).value, Value(b[..3])) == Ok(payload)
                <==> b[3 + n..] == Zeros(COMPACT_PADDING[mode]))
  {
    hide BitsOf, Pack, Value, ToBits, Decode, StorageSpeech, CompactBits;
    var b := BitsOf(payload);
    var n := SpeechBitCount(mode);
    RepackedBits(b, mode);
    CompactDecodes(payload, mode);
    var speech := Pack([b[2 + n]] + b[3..2 + n]);
    GoodStorageSpeech(mode, speech);
    CompactSizes(mode);
    PackDetermines(CompactBits(mode, speech, Value(b[..3])), payload);
    assert b == b[..3 + n] + b[3 + n..];
  }

  lemma GoodStorageSpeech(mode: nat, speech: seq<Byte>)
    requires mode <= 8 && |speech| == SpeechByteCount(mode)
    ensures StorageSpeech([GoodHeader(mode)] + speech) == Ok((mode, speech))
  {
    CompactSizes(mode);
    var storage := [GoodHeader(mode)] + speech;
    assert storage[1..] == speech && FrameType(storage[0]) == mode;
    assert storage[1..1 + |speech|] == speech;
  }

  lemma CompactDecodes(payload: seq<Byte>, mode: nat)
    requires mode <= 8 && 8 * |payload| == PROTECTED_BITS[mode]
    ensures var b := BitsOf(payload); var n := SpeechBitCount(mode);
            && |b| >= 3 + n && n > 0
            && Decode(payload, 8 * |payload|) == Ok([GoodHeader(mode)] + Pack([b[2 + n]] + b[3..2 + n]))
  {
    hide BitsOf, Pack, UnpackCompact, CompactMode;
    CompactSizes(mode);
    CompactSizesDiffer(mode);
    UnpackCases(payload, mode);
    assert payload[..|payload|] == payload;
  }

  lemma PackDetermines(s: seq<bool>, payload: seq<Byte>)
    requires |s| % 8 == 0
    ensures Pack(s) == payload <==> s == BitsOf(payload)
  {
    if Pack(s) == payload {
      WholeBytesNeedNoPadding(s);
    }
    if s == BitsOf(payload) {
      PackOfBits(payload);
    }
  }

  lemma RepackedBits(b: seq<bool>, mode: nat)
    requires mode <= 8 && |b| == PROTECTED_BITS[mode]
    ensures var n := SpeechBitCount(mode);
            && |b| == 3 + n + COMPACT_PADDING[mode] && n > 0
            && |Pack([b[2 + n]] + b[3..2 + n])| == SpeechByteCount(mode)
            && CompactBits(mode, Pack([b[2 + n]] + b[3..2 + n]), Value(b[..3]))
               == b[..3 + n] + Zeros(COMPACT_PADDING[mode])
  {
    hide BitsOf, Pack, Value, ToBits;
    CompactSizes(mode);
    var n := SpeechBitCount(mode);
    var s := [b[2 + n]] + b[3..2 + n];
    var d := BitsOf(Pack(s));
    BitsOfPack(s);
    assert d[1..n] == b[3..2 + n] && d[0] == b[2 + n];
    SmallPowers();
    ValueFits(b[..3]);
    BitsOfValue(b[..3]);
    assert b[..3 + n] == b[..3] + b[3..2 + n] + [b[2 + n]];
  }

  /** The only header-full size that is also a compact size is mode 7's, which equals
      compact mode 8. */
  lemma OnlySizeCollision(mode: nat)
    requires mode <= 9
    ensures CompactMode(8 * (2 + SpeechByteCount(mode))) == if mode == 7 then Some(8) else None
  {
    CompactModeFound(8 * (2 + SpeechByteCount(mode)));
    if mode <= 4 {
      assert mode == 0 || mode == 1 || mode == 2 || mode == 3 || mode == 4;
    } else {
      assert mode == 5 || mode == 6 || mode == 7 || mode == 8 || mode == 9;
    }
  }

  /** Without the request byte, which the parser does not insist on, there is no collision. */
  lemma BareSizesNeverCollide(mode: nat)
    requires mode <= 9
    ensures CompactMode(8 * (1 + SpeechByteCount(mode))) == None
  {
    CompactModeFound(8 * (1 + SpeechByteCount(mode)));
    if mode <= 4 {
      assert mode == 0 || mode == 1 || mode == 2 || mode == 3 || mode == 4;
    } else {
      assert mode == 5 || mode == 6 || mode == 7 || mode == 8 || mode == 9;
    }
  }

  /** So a header-full payload without it decodes to its mode and speech, mode 7 included. */
  lemma BareHeaderFullDecodes(mode: nat, speech: seq<Byte>)
    requires mode <= 9 && |speech| == SpeechByteCount(mode)
    ensures var payload := [IO_FRAME_TYPE_BASE + mode] + speech;
            Decode(payload, 8 * |payload|) == Ok([GoodHeader(mode)] + speech)
  {
    var payload: seq<Byte> := [IO_FRAME_TYPE_BASE + mode] + speech;
    hide ParseHeaderFull, SpeechByteCount, CompactMode;
    BareSizesNeverCollide(mode);
    HeaderFullParses(payload, 0, mode, speech);
    assert payload[..|payload|] == payload;
  }

  /** A frame type and speech behind at most one request byte. */
  lemma HeaderFullParses(payload: seq<Byte>, index: nat, mode: nat, speech: seq<Byte>)
    requires mode <= 9 && |speech| == SpeechByteCount(mode) && index <= 1
    requires |payload| > 0 && (payload[0] >= 128 <==> index == 1)
    requires payload[index..] == [IO_FRAME_TYPE_BASE + mode] + speech
    ensures ParseHeaderFull(payload) == Ok([GoodHeader(mode)] + speech)
  {
    hide SpeechByteCount, GoodHeader;
    var rest := payload[index..];
    assert |payload| > index && payload[index] == rest[0] == IO_FRAME_TYPE_BASE + mode;
    assert payload[index + 1..] == rest[1..] == speech;
    assert speech[..|speech|] == speech;
  }

  /** Header-full output decodes back to its mode and speech for every mode but 7, whose
      60-byte payload is taken for compact mode 8. */
  lemma HeaderFullRoundTrip(storage: seq<Byte>, cmr: nat)
    requires StorageSpeech(storage).Ok?
    ensures var (mode, speech) := StorageSpeech(storage).value;
            var full := StorageToHeaderFull(storage, cmr);
            && full.Ok?
            && (Decode(full.value, 8 * |full.value|) == Ok([GoodHeader(mode)] + speech) <==> mode != 7)
            && (mode == 7 ==> Decode(full.value, 8 * |full.value|).Ok?
                              && Decode(full.value, 8 * |full.value|).value[0] == GoodHeader(8))
  {
    hide Decode;
    var (mode, speech) := StorageSpeech(storage).value;
    var payload := StorageToHeaderFull(storage, cmr).value;
    if mode == 7 {
      CollidingSizeIsCompact(payload);
    } else {
      hide StorageToHeaderFull, StorageSpeech;
      RequestedHeaderFullDecodes(payload, mode, speech);
    }
  }

  lemma CollidingSizeIsCompact(payload: seq<Byte>)
    requires |payload| == 2 + SpeechByteCount(7)
    ensures Decode(payload, 8 * |payload|).Ok? && Decode(payload, 8 * |payload|).value[0] == GoodHeader(8)
  {
    hide UnpackCompact, CompactMode;
    OnlySizeCollision(7);
    CompactSizes(8);
    UnpackCases(payload, 8);
    assert payload[..|payload|] == payload;
  }

  lemma RequestedHeaderFullDecodes(payload: seq<Byte>, mode: nat, speech: seq<Byte>)
    requires mode <= 9 && mode != 7 && |speech| == SpeechByteCount(mode)
    requires |payload| > 0 && payload[0] >= 128 && payload[1..] == [IO_FRAME_TYPE_BASE + mode] + speech
    ensures Decode(payload, 8 * |payload|) == Ok([GoodHeader(mode)] + speech)
  {
    hide ParseHeaderFull, CompactMode, SpeechByteCount;
    OnlySizeCollision(mode);
    HeaderFullParses(payload, 1, mode, speech);
    assert payload[..|payload|] == payload;
  }

  /** The mode request comes back, modulo 8, from where either format carries it: bits 4 to 6 of
      the header-full request byte, the first three bits of a compact payload. */
  lemma RequestComesBack(storage: seq<Byte>, cmr: nat)
    requires StorageSpeech(storage).Ok?
    ensures StorageToHeaderFull(storage, cmr).Ok? && StorageToCompact(storage, cmr).Ok?
    ensures (StorageToHeaderFull(storage, cmr).value[0] / 16) % 8 == cmr % 8
    ensures StorageSpeech(storage).value.0 <= 8 ==>
              Value(BitsOf(StorageToCompact(storage, cmr).value)[..3]) == cmr % 8
  {
    hide BitsOf, Pack, Value, CompactBits, StorageSpeech;
    var (mode, speech) := StorageSpeech(storage).value;
    if mode <= 8 {
      StorageSpeechSizes(storage);
      CompactSizes(mode);
      WholeBytesNeedNoPadding(CompactBits(mode, speech, cmr));
      RequestBits(mode, speech, cmr);
    }
  }

  lemma StorageSpeechSizes(storage: seq<Byte>)
    requires StorageSpeech(storage).Ok?
    ensures var (mode, speech) := StorageSpeech(storage).value;
            mode <= 9 && |speech| == SpeechByteCount(mode)
  {}

  lemma RequestBits(mode: nat, speech: seq<Byte>, cmr: nat)
    requires mode <= 8 && |speech| == SpeechByteCount(mode)
    ensures |CompactBits(mode, speech, cmr)| >= 3 && Value(CompactBits(mode, speech, cmr)[..3]) == cmr % 8
  {
    hide BitsOf, Value, ToBits;
    CompactSizes(mode);
    assert CompactBits(mode, speech, cmr)[..3] == ToBits(3, cmr % 8);
    SmallPowers();
    ValueOfBits(3, cmr % 8);
  }

  /** A comfort-noise frame asked for in compact form goes out header-full, and survives. */
  lemma SidGoesHeaderFull(storage: seq<Byte>, cmr: nat)
    requires StorageSpeech(storage).Ok? && StorageSpeech(storage).value.0 == SID_MODE
    ensures var payload := StorageToCompact(storage, cmr);
            && payload.Ok?
            && Decode(payload.value, 8 * |payload.value|)
               == Ok([GoodHeader(SID_MODE)] + StorageSpeech(storage).value.1)
  {
    HeaderFullRoundTrip(storage, cmr);
  }
}
