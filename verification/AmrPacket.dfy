/** RTP payloads of AMR and AMR-WB in the bandwidth-efficient format, section 4.3 of
    RFC 4867: a 4-bit mode request, a table of contents and the speech bits, packed
    without gaps and padded to whole bytes. */
module AmrPacket {
  import opened Common
  import opened Bits

  datatype AmrError =
    | TruncatedPayload | TooManyFrames | TruncatedToc | TruncatedSpeech
    | UnsupportedFrameType | InvalidLength | LengthMismatch

  type Table = t: seq<nat> | |t| == 16 witness [0, 0, 0, 0, 0, 0, 0, 0, 0, 0, 0, 0, 0, 0, 0, 0]

  const AMR_NB_SPEECH_BITS: Table := [95, 103, 118, 134, 148, 159, 204, 244, 39, 43, 38, 37, 0, 0, 0, 0]
  const AMR_WB_SPEECH_BITS: Table := [132, 177, 253, 285, 317, 365, 397, 461, 477, 40, 0, 0, 0, 0, 0, 0]
  const MAX_FRAMES := 32

  /** A storage frame, header byte first, and the decoder's bad-frame flag. */
  datatype Frame = Frame(storage: seq<Byte>, bad: nat)

  datatype Parsed = Parsed(cmr: nat, frames: seq<Frame>)

  // --------------------------------------------------- table-of-contents entries

  function FrameType(e: Byte): (ft: nat)
    ensures ft < 16
  {
    (e / 8) % 16
  }

  predicate Quality(e: Byte) {
    (e / 4) % 2 == 1
  }

  predicate Follow(e: Byte) {
    e >= 128
  }

  /** `e & 0x7c` */
  function Header(e: Byte): Byte {
    e % 128 - e % 4
  }

  function BadFlag(e: Byte): nat {
    if Quality(e) then 0 else 1
  }

  function EntryBits(e: Byte): (s: seq<bool>)
    ensures |s| == 6
  {
    [Follow(e)] + ToBits(4, FrameType(e)) + [Quality(e)]
  }

  function MakeEntry(follow: bool, frameType: nat, quality: bool): (e: Byte)
    requires frameType < 16
    ensures Follow(e) == follow && FrameType(e) == frameType && Quality(e) == quality && e % 4 == 0
  {
    128 * Num(follow) + 8 * frameType + 4 * Num(quality)
  }

  function EntryOf(s: seq<bool>): (e: Byte)
    requires |s| == 6
    ensures EntryBits(e) == s && e % 4 == 0
  {
    ValueFits(s[1..5]);
    SmallPowers();
    BitsOfValue(s[1..5]);
    assert s == [s[0]] + s[1..5] + [s[5]];
    MakeEntry(s[0], Value(s[1..5]), s[5])
  }

  lemma EntryParts(e: Byte)
    requires e % 4 == 0
    ensures e == MakeEntry(Follow(e), FrameType(e), Quality(e))
  {
    var h := e / 4;
    assert e == 4 * h && e / 8 == h / 2;
    var f := h / 2;
    assert h == 2 * f + h % 2 && f == 16 * (f / 16) + f % 16;
  }

  lemma EntryRoundTrip(e: Byte)
    requires e % 4 == 0
    ensures EntryOf(EntryBits(e)) == e
  {
    var s := EntryBits(e);
    assert s[1..5] == ToBits(4, FrameType(e)) && s[0] == Follow(e) && s[5] == Quality(e);
    assert Value(s[1..5]) == FrameType(e) by {
      SmallPowers();
      ValueOfBits(4, FrameType(e));
    }
    EntryParts(e);
  }

  lemma EntryAt(b: seq<bool>, pos: nat)
    requires pos + 6 <= |b|
    ensures Value(b[pos + 1..pos + 5]) < 16
    ensures EntryOf(b[pos..pos + 6]) == MakeEntry(b[pos], Value(b[pos + 1..pos + 5]), b[pos + 5])
  {
    SmallPowers();
    ValueFits(b[pos + 1..pos + 5]);
    SliceOfSlice(b, pos, pos + 6, 1, 5);
  }

  function FrameOf(e: Byte, speech: seq<bool>): Frame {
    Frame([Header(e)] + Pack(speech), BadFlag(e))
  }

  // -------------------------------------------------------- what the parser does

  function ReadToc(b: seq<bool>, pos: nat, toc: seq<Byte>): Result<(seq<Byte>, nat), AmrError>
    requires pos <= |b|
    decreases |b| - pos
  {
    if |toc| >= MAX_FRAMES then Err(TooManyFrames)
    else if |b| - pos < 6 then Err(TruncatedToc)
    else
      var e := EntryOf(b[pos..pos + 6]);
      if Follow(e) then ReadToc(b, pos + 6, toc + [e]) else Ok((toc + [e], pos + 6))
  }

  function ReadFrames(b: seq<bool>, pos: nat, toc: seq<Byte>, frames: seq<Frame>, bits: Table)
      : Result<seq<Frame>, AmrError>
    requires pos <= |b| && |frames| <= |toc|
    decreases |toc| - |frames|
  {
    if |frames| == |toc| then Ok(frames)
    else
      var e := toc[|frames|];
      var n := bits[FrameType(e)];
      if |b| - pos < n then Err(TruncatedSpeech)
      else ReadFrames(b, pos + n, toc, frames + [FrameOf(e, b[pos..pos + n])], bits)
  }

  lemma TocEnds(b: seq<bool>, pos: nat, toc: seq<Byte>)
    requires pos <= |b|
    ensures ReadToc(b, pos, toc).Ok? ==> pos <= ReadToc(b, pos, toc).value.1 <= |b|
    decreases |b| - pos
  {}

  function ParseBandwidthEfficient(payload: seq<Byte>, bits: Table): Result<Parsed, AmrError> {
    if |payload| == 0 then Err(TruncatedPayload)
    else
      var b := BitsOf(payload);
      TocEnds(b, 4, []);
      var (toc, pos) :- ReadToc(b, 4, []);
      var frames :- ReadFrames(b, pos, toc, [], bits);
      Ok(Parsed(Value(b[..4]), frames))
  }

  method ReadTocLoop(reader: AmrBitReader) returns (r: Result<seq<Byte>, AmrError>)
    requires reader.Valid()
    modifies reader
    ensures reader.Valid()
    ensures var spec := ReadToc(BitsOf(reader.data), old(reader.bit), []);
            if r.Ok? then spec == Ok((r.value, reader.bit)) else spec == Err(r.error)
  {
    hide BitsOf, EntryOf, MakeEntry, Value;
    ghost var b := BitsOf(reader.data);
    ghost var goal := ReadToc(b, reader.bit, []);
    var toc: seq<Byte> := [];
    while true
      invariant reader.Valid() && goal == ReadToc(b, reader.bit, toc)
      decreases |b| - reader.bit
    {
      if |toc| >= MAX_FRAMES {
        return Err(TooManyFrames);
      }
      ghost var pos := reader.bit;
      var follow := reader.ReadBit();
      if follow == None {
        return Err(TruncatedToc);
      }
      var frameType := reader.Read(4);
      if frameType == None {
        return Err(TruncatedToc);
      }
      var quality := reader.ReadBit();
      if quality == None {
        return Err(TruncatedToc);
      }
      EntryAt(b, pos);
      var entry := MakeEntry(follow.value, frameType.value, quality.value);
      toc := toc + [entry];
      if !follow.value {
        return Ok(toc);
      }
    }
  }

  method ParseBandwidthEfficientFrames(payload: seq<Byte>, bits: Table) returns (r: Result<Parsed, AmrError>)
    ensures r == ParseBandwidthEfficient(payload, bits)
  {
    hide BitsOf, ReadToc, Value, Pack;
    if |payload| == 0 {
      return Err(TruncatedPayload);
    }
    var reader := new AmrBitReader(payload);
    ghost var b := BitsOf(payload);
    var cmr := reader.Read(4);
    if cmr == None {
      return Err(TruncatedPayload);
    }
    var read := ReadTocLoop(reader);
    if read.Err? {
      return Err(read.error);
    }
    var toc := read.value;
    var frames: seq<Frame> := [];
    ghost var goal := ReadFrames(b, reader.bit, toc, [], bits);
    for i := 0 to |toc|
      invariant reader.Valid() && |frames| == i
      invariant goal == ReadFrames(b, reader.bit, toc, frames, bits)
    {
      var entry := toc[i];
      ghost var pos := reader.bit;
      var speech := reader.ReadBitsAsBytes(bits[FrameType(entry)]);
      if speech == None {
        return Err(TruncatedSpeech);
      }
      var badFrame := if Quality(entry) then 0 else 1;
      frames := frames + [Frame([Header(entry)] + speech.value, badFrame)];
      assert frames[i] == FrameOf(entry, b[pos..reader.bit]);
    }
    return Ok(Parsed(cmr.value, frames));
  }

  // ------------------------------------------------------------- serialisation

  /** The speech bits a storage frame of this type carries. */
  function SpeechBits(f: Frame, bits: Table): seq<bool>
    requires |f.storage| > 0 && |f.storage| == 1 + ByteCount(bits[FrameType(f.storage[0])])
  {
    BitsOf(f.storage[1..])[..bits[FrameType(f.storage[0])]]
  }

  /** A storage frame in canonical form: clean header, the length its type has, and
      spare bits zero. */
  predicate Canonical(f: Frame, bits: Table) {
    && |f.storage| > 0
    && f.storage[0] < 128 && f.storage[0] % 4 == 0
    && f.bad == BadFlag(f.storage[0])
    && |f.storage| == 1 + ByteCount(bits[FrameType(f.storage[0])])
    && f.storage[1..] == Pack(SpeechBits(f, bits))
  }

  predicate AllCanonical(frames: seq<Frame>, bits: Table) {
    forall i :: 0 <= i < |frames| ==> Canonical(frames[i], bits)
  }

  /** The entry for frame `i`, with the follow bit on all but the last. */
  function TocEntry(frames: seq<Frame>, i: nat): Byte
    requires i < |frames| && |frames[i].storage| > 0 && frames[i].storage[0] < 128
  {
    frames[i].storage[0] + if i < |frames| - 1 then 128 else 0
  }

  function TocOf(frames: seq<Frame>): (toc: seq<Byte>)
    requires forall i :: 0 <= i < |frames| ==> |frames[i].storage| > 0 && frames[i].storage[0] < 128
    ensures |toc| == |frames|
  {
    seq(|frames|, i requires 0 <= i < |frames| => TocEntry(frames, i))
  }

  function TocBits(toc: seq<Byte>): (s: seq<bool>)
    ensures |s| == 6 * |toc|
  {
    if |toc| == 0 then [] else EntryBits(toc[0]) + TocBits(toc[1..])
  }

  function AllSpeechBits(frames: seq<Frame>, bits: Table): seq<bool>
    requires AllCanonical(frames, bits)
  {
    if |frames| == 0 then [] else SpeechBits(frames[0], bits) + AllSpeechBits(frames[1..], bits)
  }

  lemma CanonicalHeaders(frames: seq<Frame>, bits: Table)
    requires AllCanonical(frames, bits)
    ensures forall i :: 0 <= i < |frames| ==> |frames[i].storage| > 0 && frames[i].storage[0] < 128
  {
    hide Pack, SpeechBits, FrameType;
  }

  /** The bits of a payload, before padding. */
  function Serialize(cmr: nat, frames: seq<Frame>, bits: Table): seq<bool>
    requires AllCanonical(frames, bits)
  {
    CanonicalHeaders(frames, bits);
    ToBits(4, cmr) + TocBits(TocOf(frames)) + AllSpeechBits(frames, bits)
  }
}
