/** RTP payloads of AMR and AMR-WB in the octet-aligned format, section 4.4 of RFC 4867,
    the printers of both formats, and their agreement. */
module OctetAligned {
  import opened Common
  import opened Bits
  import opened AmrPacket
  import opened AmrRoundTrip

  const AMR_NB_FRAME_BYTES: Table := [12, 13, 15, 17, 19, 20, 26, 31, 5, 0, 0, 0, 0, 0, 0, 0]
  const AMR_WB_FRAME_BYTES: Table := [17, 23, 32, 36, 40, 46, 50, 58, 60, 5, 0, 0, 0, 0, 0, 0]
  const NO_MODE_REQUEST: nat := 15

  // -------------------------------------------------------- what the parser does

  function OctetToc(p: seq<Byte>, index: nat, toc: seq<Byte>): Result<seq<Byte>, AmrError>
    decreases |p| - index
  {
    if index >= |p| then Err(TruncatedToc)
    else if |toc| >= MAX_FRAMES then Err(TooManyFrames)
    else if Follow(p[index]) then OctetToc(p, index + 1, toc + [p[index]])
    else Ok(toc + [p[index]])
  }

  function OctetFrames(p: seq<Byte>, index: nat, toc: seq<Byte>, frames: seq<Frame>, sizes: Table)
      : Result<seq<Frame>, AmrError>
    requires |frames| <= |toc|
    decreases |toc| - |frames|
  {
    if |frames| == |toc| then Ok(frames)
    else
      var e := toc[|frames|];
      var n := sizes[FrameType(e)];
      if n == 0 && FrameType(e) < 14 then Err(UnsupportedFrameType)
      else if index + n > |p| then Err(TruncatedSpeech)
      else OctetFrames(p, index + n, toc, frames + [Frame([Header(e)] + p[index..index + n], BadFlag(e))], sizes)
  }

  function ParseOctetAligned(p: seq<Byte>, sizes: Table): Result<Parsed, AmrError> {
    if |p| < 2 then Err(TruncatedPayload)
    else
      var toc :- OctetToc(p, 1, []);
      var frames :- OctetFrames(p, 1 + |toc|, toc, [], sizes);
      Ok(Parsed(p[0] / 16, frames))
  }

  method ParseOctetAlignedFrames(payload: seq<Byte>, sizes: Table) returns (r: Result<Parsed, AmrError>)
    ensures r == ParseOctetAligned(payload, sizes)
  {
    hide FrameType, Header;
    if |payload| < 2 {
      return Err(TruncatedPayload);
    }
    var cmr := payload[0] / 16;
    var index: nat := 1;
    var toc: seq<Byte> := [];
    while true
      invariant index == 1 + |toc|
      invariant OctetToc(payload, 1, []) == OctetToc(payload, index, toc)
      decreases |payload| - index
    {
      if index >= |payload| {
        return Err(TruncatedToc);
      }
      if |toc| >= MAX_FRAMES {
        return Err(TooManyFrames);
      }
      var entry := payload[index];
      toc := toc + [entry];
      index := index + 1;
      if !Follow(entry) {
        break;
      }
    }
    var frames: seq<Frame> := [];
    ghost var goal := OctetFrames(payload, index, toc, [], sizes);
    for i := 0 to |toc|
      invariant |frames| == i && goal == OctetFrames(payload, index, toc, frames, sizes)
    {
      var entry := toc[i];
      var frameBytes := sizes[FrameType(entry)];
      if frameBytes == 0 && FrameType(entry) < 14 {
        return Err(UnsupportedFrameType);
      }
      if index + frameBytes > |payload| {
        return Err(TruncatedSpeech);
      }
      var storage := [Header(entry)] + payload[index..index + frameBytes];
      index := index + frameBytes;
      var badFrame := if Quality(entry) then 0 else 1;
      frames := frames + [Frame(storage, badFrame)];
    }
    return Ok(Parsed(cmr, frames));
  }

  // ------------------------------------------------------------------- printers

  function PrintOctetAligned(storage: seq<Byte>, written: int, sizes: Table): Result<seq<Byte>, AmrError> {
    if written <= 0 || written > |storage| then Err(InvalidLength)
    else
      var n := sizes[FrameType(storage[0])];
      if n == 0 || written != n + 1 then Err(LengthMismatch)
      else Ok([240, Header(storage[0])] + storage[1..written])
  }

  function PrintBandwidthEfficient(storage: seq<Byte>, written: int, bits: Table): Result<seq<Byte>, AmrError> {
    if written <= 0 || written > |storage| then Err(InvalidLength)
    else
      var ft := FrameType(storage[0]);
      var n := bits[ft];
      if n == 0 && ft < 14 then Err(UnsupportedFrameType)
      else if written != 1 + ByteCount(n) then Err(LengthMismatch)
      else
        Ok(Pack(OneFrameBits(storage[0], BitsOf(storage[1..written])[..n])))
  }

  /** Mode request 15, one entry without follow bit, the speech. */
  function OneFrameBits(header: Byte, speech: seq<bool>): seq<bool> {
    ToBits(4, NO_MODE_REQUEST) + [false] + ToBits(4, FrameType(header)) + [Quality(header)] + speech
  }

  lemma SingleBit(b: bool)
    ensures ToBits(1, Num(b)) == [b]
  {}

  method StorageFrameToRTP(storage: seq<Byte>, written: int, sizes: Table) returns (r: Result<seq<Byte>, AmrError>)
    ensures r == PrintOctetAligned(storage, written, sizes)
  {
    if written <= 0 || written > |storage| {
      return Err(InvalidLength);
    }
    var frameBytes := sizes[FrameType(storage[0])];
    if frameBytes == 0 || written != frameBytes + 1 {
      return Err(LengthMismatch);
    }
    hide FrameType, Header;
    var payload := new Byte[frameBytes + 2](_ => 0);
    payload[0], payload[1] := 240, Header(storage[0]);
    for i := 1 to written
      invariant payload[0] == 240 && payload[1] == Header(storage[0])
      invariant forall j :: 1 <= j < i ==> payload[j + 1] == storage[j]
    {
      payload[i + 1] := storage[i];
    }
    assert payload[..] == [240, Header(storage[0])] + storage[1..written];
    return Ok(payload[..]);
  }

  method StorageFrameToBandwidthEfficientRTP(storage: seq<Byte>, written: int, bits: Table)
      returns (r: Result<seq<Byte>, AmrError>)
    ensures r == PrintBandwidthEfficient(storage, written, bits)
  {
    if written <= 0 || written > |storage| {
      return Err(InvalidLength);
    }
    var frameType := FrameType(storage[0]);
    var n := bits[frameType];
    if n == 0 && frameType < 14 {
      return Err(UnsupportedFrameType);
    }
    if written != 1 + (n + 7) / 8 && n > 0 {
      return Err(LengthMismatch);
    }
    if n == 0 && written != 1 {
      return Err(LengthMismatch);
    }
    var writer := new AmrBitWriter();
    writer.Write(4, 15);
    writer.Write(1, Num(false));
    writer.Write(4, frameType);
    writer.Write(1, Num(Quality(storage[0])));
    SingleBit(false);
    SingleBit(Quality(storage[0]));
    assert writer.bits == [] + ToBits(4, 15) + [false] + ToBits(4, frameType) + [Quality(storage[0])];
    if n > 0 {
      writer.WriteBytes(storage[1..written], n);
    }
    assert [] + ToBits(4, 15) == ToBits(4, 15);
    assert writer.bits == OneFrameBits(storage[0], BitsOf(storage[1..written])[..n]);
    var payload := writer.Bytes();
    return Ok(payload);
  }

  // ------------------------------------------------------------ octet round trip

  function Speech(frames: seq<Frame>): seq<Byte>
    requires forall i :: 0 <= i < |frames| ==> |frames[i].storage| > 0
  {
    if |frames| == 0 then [] else frames[0].storage[1..] + Speech(frames[1..])
  }

  /** A frame as the octet-aligned format carries it: its type has data, or is a
      no-data type from 14 on. */
  predicate Carried(f: Frame, sizes: Table) {
    && |f.storage| > 0 && f.storage[0] < 128 && f.storage[0] % 4 == 0
    && |f.storage| == 1 + sizes[FrameType(f.storage[0])]
    && (sizes[FrameType(f.storage[0])] > 0 || FrameType(f.storage[0]) >= 14)
    && f.bad == BadFlag(f.storage[0])
  }

  predicate AllCarried(frames: seq<Frame>, sizes: Table) {
    forall i :: 0 <= i < |frames| ==> Carried(frames[i], sizes)
  }

  function OctetSerialize(cmr: nat, frames: seq<Frame>, sizes: Table): seq<Byte>
    requires cmr < 16 && AllCarried(frames, sizes)
  {
    [16 * cmr] + TocOf(frames) + Speech(frames)
  }

  lemma {:induction false} OctetTocComplete(p: seq<Byte>, index: nat, toc: seq<Byte>, more: seq<Byte>)
    requires |more| > 0 && |toc| + |more| <= MAX_FRAMES
    requires index + |more| <= |p| && p[index..index + |more|] == more
    requires Chained(more)
    ensures OctetToc(p, index, toc) == Ok(toc + more)
    decreases |more|
  {
    assert p[index] == more[0];
    if |more| > 1 {
      var rest := more[1..];
      assert forall i :: 0 <= i < |rest| ==> rest[i] == more[i + 1];
      SliceOfSlice(p, index, index + |more|, 1, |more|);
      OctetTocComplete(p, index + 1, toc + [more[0]], rest);
      assert toc + [more[0]] + rest == toc + more;
    } else {
      assert more == [more[0]];
    }
  }

  /** `toc` describes the frames; its reserved bits and follow bits are its own. */
  ghost predicate Describes(toc: seq<Byte>, frames: seq<Frame>) {
    |toc| == |frames|
    && forall i :: 0 <= i < |toc| ==> |frames[i].storage| > 0 && frames[i].storage[0] == Header(toc[i])
  }

  ghost predicate SpeechAt(p: seq<Byte>, index: nat, frames: seq<Frame>)
    requires forall i :: 0 <= i < |frames| ==> |frames[i].storage| > 0
  {
    index + |Speech(frames)| <= |p| && p[index..index + |Speech(frames)|] == Speech(frames)
  }

  /** One turn of the frame loop. */
  lemma OctetFramesStep(p: seq<Byte>, index: nat, toc: seq<Byte>, frames: seq<Frame>, f: Frame, sizes: Table)
    requires |frames| < |toc| && index + sizes[FrameType(toc[|frames|])] <= |p|
    requires sizes[FrameType(toc[|frames|])] > 0 || FrameType(toc[|frames|]) >= 14
    requires var n := sizes[FrameType(toc[|frames|])];
             f == Frame([Header(toc[|frames|])] + p[index..index + n], BadFlag(toc[|frames|]))
    ensures OctetFrames(p, index, toc, frames, sizes)
            == OctetFrames(p, index + sizes[FrameType(toc[|frames|])], toc, frames + [f], sizes)
  {}

  lemma {:induction false} OctetFramesComplete(p: seq<Byte>, index: nat, toc: seq<Byte>, frames: seq<Frame>, k: nat,
                                               sizes: Table)
    requires k <= |frames| && AllCarried(frames, sizes) && Describes(toc, frames) && SpeechAt(p, index, frames[k..])
    ensures OctetFrames(p, index, toc, frames[..k], sizes) == Ok(frames)
    decreases |frames| - k
  {
    if k == |frames| {
      assert frames[..k] == frames;
    } else {
      hide Header, FrameType, BadFlag, Speech, SpeechAt, Carried, OctetFrames;
      OctetFrameRead(p, index, toc, frames, k, sizes);
      OctetFramesStep(p, index, toc, frames[..k], frames[k], sizes);
      assert frames[..k] + [frames[k]] == frames[..k + 1];
      OctetFramesComplete(p, index + |frames[k].storage| - 1, toc, frames, k + 1, sizes);
    }
  }

  /** The frame the parser reads at `index` is frame `k`, and the others follow. */
  lemma OctetFrameRead(p: seq<Byte>, index: nat, toc: seq<Byte>, frames: seq<Frame>, k: nat, sizes: Table)
    requires k < |frames| && AllCarried(frames, sizes) && Describes(toc, frames) && SpeechAt(p, index, frames[k..])
    ensures var n := |frames[k].storage| - 1;
            && n == sizes[FrameType(toc[k])] && (n > 0 || FrameType(toc[k]) >= 14)
            && SpeechAt(p, index + n, frames[k + 1..]) && index + n <= |p|
            && frames[k] == Frame([Header(toc[k])] + p[index..index + n], BadFlag(toc[k]))
  {
    var f := frames[k];
    var n := |f.storage| - 1;
    assert frames[k..][1..] == frames[k + 1..] && frames[k..][0] == f;
    var speech := Speech(frames[k..]);
    HeaderKeepsFields(toc[k]);
    assert Carried(f, sizes);
    SliceOfSlice(p, index, index + |speech|, 0, n);
    SliceOfSlice(p, index, index + |speech|, n, |speech|);
    assert speech[0..n] == f.storage[1..] && speech[n..|speech|] == Speech(frames[k + 1..]);
    assert f.storage == [f.storage[0]] + f.storage[1..];
  }

  // ------------------------------------------------------------ the octet language

  /** The follow bit on all entries but the last. */
  ghost predicate Chained(toc: seq<Byte>) {
    forall i :: 0 <= i < |toc| ==> (Follow(toc[i]) <==> i < |toc| - 1)
  }

  lemma {:induction false} OctetTocSound(p: seq<Byte>, index: nat, toc: seq<Byte>)
    requires OctetToc(p, index, toc).Ok?
    ensures var t := OctetToc(p, index, toc).value;
            && |toc| < |t| <= MAX_FRAMES && t[..|toc|] == toc
            && index + |t| - |toc| <= |p| && p[index..index + |t| - |toc|] == t[|toc|..]
            && Chained(t[|toc|..])
    decreases |p| - index
  {
    if Follow(p[index]) {
      OctetTocSound(p, index + 1, toc + [p[index]]);
      var t := OctetToc(p, index, toc).value;
      assert t[..|toc|] == t[..|toc| + 1][..|toc|] && t[|toc|] == t[..|toc| + 1][|toc|];
      assert p[index..index + |t| - |toc|] == [p[index]] + p[index + 1..index + |t| - |toc|];
      assert t[|toc|..] == [t[|toc|]] + t[|toc| + 1..];
    }
  }

  /** `fs` continues `k` frames with what the toc and the bytes from `index` on say. */
  ghost predicate OctetDecoded(p: seq<Byte>, index: nat, toc: seq<Byte>, k: nat, fs: seq<Frame>, sizes: Table) {
    && k <= |fs| == |toc|
    && (forall i :: k <= i < |fs| ==> Carried(fs[i], sizes) && fs[i].storage[0] == Header(toc[i]))
    && SpeechAt(p, index, fs[k..])
  }

  lemma OctetFrameTaken(p: seq<Byte>, index: nat, toc: seq<Byte>, frames: seq<Frame>, f: Frame, fs: seq<Frame>,
                        sizes: Table)
    requires |frames| < |toc| && index + sizes[FrameType(toc[|frames|])] <= |p|
    requires sizes[FrameType(toc[|frames|])] > 0 || FrameType(toc[|frames|]) >= 14
    requires var n := sizes[FrameType(toc[|frames|])];
             && f == Frame([Header(toc[|frames|])] + p[index..index + n], BadFlag(toc[|frames|]))
             && frames + [f] <= fs && OctetDecoded(p, index + n, toc, |frames| + 1, fs, sizes)
    ensures frames <= fs && OctetDecoded(p, index, toc, |frames|, fs, sizes)
  {
    hide FrameType, Header, BadFlag, Carried, SpeechAt, Speech;
    var e := toc[|frames|];
    FrameIsCarried(e, p[index..index + sizes[FrameType(e)]], sizes);
    assert fs[|frames|] == (frames + [f])[|frames|] == f;
    assert fs[|frames|..] == [f] + fs[|frames| + 1..];
    assert Carried(f, sizes) && f.storage[1..] == p[index..index + sizes[FrameType(e)]];
    CarriedHasHeader(fs, |frames| + 1, sizes);
    SpeechJoins(p, index, f, fs[|frames| + 1..]);
  }

  lemma CarriedHasHeader(fs: seq<Frame>, k: nat, sizes: Table)
    requires k <= |fs| && forall i :: k <= i < |fs| ==> Carried(fs[i], sizes)
    ensures forall i :: k <= i < |fs| ==> |fs[i].storage| > 0
  {}

  lemma {:induction false} OctetFramesSound(p: seq<Byte>, index: nat, toc: seq<Byte>, frames: seq<Frame>, sizes: Table)
    requires |frames| <= |toc| && index <= |p| && OctetFrames(p, index, toc, frames, sizes).Ok?
    ensures frames <= OctetFrames(p, index, toc, frames, sizes).value
    ensures OctetDecoded(p, index, toc, |frames|, OctetFrames(p, index, toc, frames, sizes).value, sizes)
    decreases |toc| - |frames|
  {
    if |frames| == |toc| {
      assert frames[|frames|..] == [];
    } else {
      hide FrameType, Header, BadFlag, OctetDecoded;
      var e := toc[|frames|];
      var n := sizes[FrameType(e)];
      var f := Frame([Header(e)] + p[index..index + n], BadFlag(e));
      OctetFramesSound(p, index + n, toc, frames + [f], sizes);
      OctetFrameTaken(p, index, toc, frames, f, OctetFrames(p, index, toc, frames, sizes).value, sizes);
    }
  }

  lemma FrameIsCarried(e: Byte, speech: seq<Byte>, sizes: Table)
    requires |speech| == sizes[FrameType(e)] && (|speech| > 0 || FrameType(e) >= 14)
    ensures Carried(Frame([Header(e)] + speech, BadFlag(e)), sizes)
  {
    HeaderKeepsFields(e);
  }

  lemma SpeechJoins(p: seq<Byte>, index: nat, f: Frame, rest: seq<Frame>)
    requires |f.storage| > 0 && forall i :: 0 <= i < |rest| ==> |rest[i].storage| > 0
    requires var n := |f.storage| - 1;
             index + n <= |p| && p[index..index + n] == f.storage[1..] && SpeechAt(p, index + n, rest)
    ensures SpeechAt(p, index, [f] + rest)
  {
    var n := |f.storage| - 1;
    assert ([f] + rest)[1..] == rest;
    assert p[index..index + n + |Speech(rest)|] == p[index..index + n] + p[index + n..index + n + |Speech(rest)|];
  }

  /** The entry without its two reserved bits. */
  function Unreserved(e: Byte): Byte {
    e - e % 4
  }

  function UnreservedToc(toc: seq<Byte>): (r: seq<Byte>)
    ensures |r| == |toc| && forall i :: 0 <= i < |toc| ==> r[i] == Unreserved(toc[i])
  {
    seq(|toc|, i requires 0 <= i < |toc| => Unreserved(toc[i]))
  }

  /** A payload with the reserved bits of its first byte and of `n` entries cleared. */
  function WithoutReserved(p: seq<Byte>, n: nat): (s: seq<Byte>)
    requires 1 + n <= |p|
    ensures |s| == |p|
  {
    [16 * (p[0] / 16)] + UnreservedToc(p[1..1 + n]) + p[1 + n..]
  }

  lemma UnreservedParts(e: Byte, h: Byte)
    requires h < 128 && h % 4 == 0
    ensures Unreserved(e) == h + (if Follow(e) then 128 else 0) <==> h == Header(e)
    ensures Follow(Unreserved(e)) == Follow(e)
  {
    var q := e / 4;
    assert e == 4 * q + e % 4 && Unreserved(e) == 4 * q;
    assert Follow(e) <==> q >= 32;
    assert e % 128 == if q >= 32 then e - 128 else e;
  }

  /** The entries, reserved bits aside, are those of the frames. */
  lemma TocMatches(toc: seq<Byte>, frames: seq<Frame>, sizes: Table)
    requires AllCarried(frames, sizes) && |toc| == |frames|
    ensures UnreservedToc(toc) == TocOf(frames) <==> Describes(toc, frames) && Chained(toc)
  {
    forall i | 0 <= i < |toc|
      ensures Unreserved(toc[i]) == TocOf(frames)[i]
         <==> frames[i].storage[0] == Header(toc[i]) && (Follow(toc[i]) <==> i < |toc| - 1)
    {
      EntryMatches(toc[i], frames, i, sizes);
    }
    if UnreservedToc(toc) == TocOf(frames) {
      assert forall i :: 0 <= i < |toc| ==> UnreservedToc(toc)[i] == TocOf(frames)[i];
    }
  }

  lemma EntryMatches(e: Byte, frames: seq<Frame>, i: nat, sizes: Table)
    requires AllCarried(frames, sizes) && i < |frames|
    ensures Unreserved(e) == TocOf(frames)[i]
       <==> frames[i].storage[0] == Header(e) && (Follow(e) <==> i < |frames| - 1)
  {
    var h := frames[i].storage[0];
    assert Carried(frames[i], sizes);
    UnreservedParts(e, h);
    assert TocOf(frames)[i] == h + if i < |frames| - 1 then 128 else 0;
    assert Follow(TocOf(frames)[i]) <==> i < |frames| - 1;
  }

  /** The three parts of a payload that begins with a serialisation, reserved bits aside. */
  lemma OctetSplit(p: seq<Byte>, cmr: nat, frames: seq<Frame>, sizes: Table)
    requires cmr < 16 && AllCarried(frames, sizes) && 1 + |frames| <= |p|
    ensures OctetSerialize(cmr, frames, sizes) <= WithoutReserved(p, |frames|)
       <==> && p[0] / 16 == cmr
            && UnreservedToc(p[1..1 + |frames|]) == TocOf(frames)
            && SpeechAt(p, 1 + |frames|, frames)
  {
    var n := |frames|;
    var w, s := WithoutReserved(p, n), OctetSerialize(cmr, frames, sizes);
    var tail := Speech(frames);
    assert w[1 + n..] == p[1 + n..] && w[0] == 16 * (p[0] / 16) && w[1..1 + n] == UnreservedToc(p[1..1 + n]);
    assert s[0] == 16 * cmr && s[1..1 + n] == TocOf(frames) && s[1 + n..] == tail;
    if s <= w {
      assert s == w[..|s|] && w[..|s|][1..1 + n] == w[1..1 + n] && w[..|s|][1 + n..] == p[1 + n..|s|];
    }
    if p[0] / 16 == cmr && w[1..1 + n] == TocOf(frames) && SpeechAt(p, 1 + n, frames) {
      assert w[..|s|] == [w[0]] + w[1..1 + n] + w[1 + n..|s|];
      assert w[1 + n..|s|] == p[1 + n..|s|];
    }
  }

  /** Whatever the parser accepts begins with the serialisation of what it returns. */
  lemma OctetParsedReserialises(p: seq<Byte>, sizes: Table)
    requires ParseOctetAligned(p, sizes).Ok?
    ensures var r := ParseOctetAligned(p, sizes).value;
            && r.cmr < 16 && 1 <= |r.frames| <= MAX_FRAMES && AllCarried(r.frames, sizes) && 1 + |r.frames| <= |p|
            && OctetSerialize(r.cmr, r.frames, sizes) <= WithoutReserved(p, |r.frames|)
  {
    hide OctetToc, OctetFrames, WithoutReserved, OctetSerialize, Speech, SpeechAt, Header, Carried, Chained;
    hide UnreservedToc;
    var r := ParseOctetAligned(p, sizes).value;
    var toc := OctetToc(p, 1, []).value;
    OctetTocSound(p, 1, []);
    OctetFramesSound(p, 1 + |toc|, toc, [], sizes);
    assert toc[0..] == toc && r.frames[0..] == r.frames && p[1..1 + |toc|] == toc;
    CarriedHasHeader(r.frames, 0, sizes);
    assert Describes(toc, r.frames);
    TocMatches(toc, r.frames, sizes);
    OctetSplit(p, r.cmr, r.frames, sizes);
  }

  /** And whatever begins with a serialisation of 1 to 32 frames parses to them, with any
      reserved bits and anything behind. */
  lemma OctetSerialisedParses(p: seq<Byte>, cmr: nat, frames: seq<Frame>, sizes: Table)
    requires cmr < 16 && 1 <= |frames| <= MAX_FRAMES && AllCarried(frames, sizes) && 1 + |frames| <= |p|
    requires OctetSerialize(cmr, frames, sizes) <= WithoutReserved(p, |frames|)
    ensures ParseOctetAligned(p, sizes) == Ok(Parsed(cmr, frames))
  {
    hide OctetToc, OctetFrames, WithoutReserved, OctetSerialize, Speech, SpeechAt, Header, Carried, UnreservedToc;
    var n := |frames|;
    var toc := p[1..1 + n];
    OctetSplit(p, cmr, frames, sizes);
    TocMatches(toc, frames, sizes);
    OctetTocComplete(p, 1, [], toc);
    assert [] + toc == toc && frames[0..] == frames && frames[..0] == [];
    OctetFramesComplete(p, 1 + n, toc, frames, 0, sizes);
  }

  /** The octet-aligned parser's language and its result, exactly, up to reserved bits. */
  lemma OctetParserIsExactInverse(p: seq<Byte>, cmr: nat, frames: seq<Frame>, sizes: Table)
    ensures ParseOctetAligned(p, sizes) == Ok(Parsed(cmr, frames))
       <==> && cmr < 16 && 1 <= |frames| <= MAX_FRAMES && AllCarried(frames, sizes) && 1 + |frames| <= |p|
            && OctetSerialize(cmr, frames, sizes) <= WithoutReserved(p, |frames|)
  {
    if ParseOctetAligned(p, sizes) == Ok(Parsed(cmr, frames)) {
      OctetParsedReserialises(p, sizes);
    }
    if cmr < 16 && 1 <= |frames| <= MAX_FRAMES && AllCarried(frames, sizes) && 1 + |frames| <= |p| {
      if OctetSerialize(cmr, frames, sizes) <= WithoutReserved(p, |frames|) {
        OctetSerialisedParses(p, cmr, frames, sizes);
      }
    }
  }

  /** Where the payload says what: the mode request in the first byte; for frame `i` the follow
      bit, the frame type and the quality bit in byte `1 + i`. A frame is reported bad exactly
      when its quality bit is clear. */
  lemma OctetFieldsOnPayload(p: seq<Byte>, sizes: Table, i: nat)
    requires ParseOctetAligned(p, sizes).Ok? && i < |ParseOctetAligned(p, sizes).value.frames|
    ensures var r := ParseOctetAligned(p, sizes).value;
            var f := r.frames[i];
            && 1 + i < |p| && |f.storage| > 0
            && r.cmr == p[0] / 16
            && (p[1 + i] >= 128 <==> i < |r.frames| - 1)
            && f.storage[0] == 8 * ((p[1 + i] / 8) % 16) + 4 * ((p[1 + i] / 4) % 2)
            && f.bad in {0, 1} && (f.bad == 0 <==> (p[1 + i] / 4) % 2 == 1)
  {
    hide OctetToc, OctetFrames, Speech, SpeechAt;
    var r := ParseOctetAligned(p, sizes).value;
    var toc := OctetToc(p, 1, []).value;
    OctetTocSound(p, 1, []);
    OctetFramesSound(p, 1 + |toc|, toc, [], sizes);
    assert toc[0..] == toc && p[1..1 + |toc|] == toc;
    assert p[1 + i] == toc[i];
    assert Carried(r.frames[i], sizes) && r.frames[i].storage[0] == Header(toc[i]);
    HeaderKeepsFields(toc[i]);
    SumOfFields(toc[i]);
    SumOfFields(Header(toc[i]));
  }

  /** A serialisation has no reserved bits to clear. */
  lemma SerialisedIsUnreserved(cmr: nat, frames: seq<Frame>, sizes: Table)
    requires cmr < 16 && 1 <= |frames| && AllCarried(frames, sizes)
    ensures var s := OctetSerialize(cmr, frames, sizes);
            1 + |frames| <= |s| && WithoutReserved(s, |frames|) == s
  {
    var s := OctetSerialize(cmr, frames, sizes);
    var n := |frames|;
    TocIsUnreserved(frames, sizes);
    assert s[1..1 + n] == TocOf(frames);
    assert s == [s[0]] + s[1..1 + n] + s[1 + n..];
    assert s[0] == 16 * (s[0] / 16);
  }

  lemma TocIsUnreserved(frames: seq<Frame>, sizes: Table)
    requires AllCarried(frames, sizes)
    ensures UnreservedToc(TocOf(frames)) == TocOf(frames)
  {
    forall i | 0 <= i < |frames|
      ensures Unreserved(TocOf(frames)[i]) == TocOf(frames)[i]
    {
      assert Carried(frames[i], sizes);
    }
  }

  // ------------------------------------------------------- framing independence

  /** Every type with storage bytes has speech bits, and the bytes are those bits
      rounded up. */
  predicate TablesAgree(sizes: Table, bits: Table) {
    forall ft :: 0 <= ft < 16 && sizes[ft] > 0 ==> bits[ft] > 0 && sizes[ft] == ByteCount(bits[ft])
  }

  lemma CodecTablesAgree()
    ensures TablesAgree(AMR_NB_FRAME_BYTES, AMR_NB_SPEECH_BITS)
    ensures TablesAgree(AMR_WB_FRAME_BYTES, AMR_WB_SPEECH_BITS)
  {}

  /** A frame lasts 20 ms, so fifty times its speech bits make the codec's bit rate. */
  lemma SpeechSizesAreBitRates()
    ensures forall mode :: 0 <= mode < 8 ==>
              50 * AMR_NB_SPEECH_BITS[mode] == [4750, 5150, 5900, 6700, 7400, 7950, 10200, 12200][mode]
    ensures forall mode :: 0 <= mode < 9 ==>
              50 * AMR_WB_SPEECH_BITS[mode]
              == [6600, 8850, 12650, 14250, 15850, 18250, 19850, 23050, 23850][mode]
    ensures AMR_NB_SPEECH_BITS[8] == 39 && AMR_WB_SPEECH_BITS[9] == 40
  {}

  /** Frames both formats carry, in canonical form, come out of either parser the same,
      with the same mode request. */
  lemma FramingIndependence(cmr: nat, frames: seq<Frame>, sizes: Table, bits: Table)
    requires cmr < 16 && 1 <= |frames| <= MAX_FRAMES
    requires AllCarried(frames, sizes) && AllCanonical(frames, bits)
    ensures ParseOctetAligned(OctetSerialize(cmr, frames, sizes), sizes) == Ok(Parsed(cmr, frames))
    ensures ParseBandwidthEfficient(Pack(Serialize(cmr, frames, bits)), bits) == Ok(Parsed(cmr, frames))
  {
    SerialisedIsUnreserved(cmr, frames, sizes);
    OctetSerialisedParses(OctetSerialize(cmr, frames, sizes), cmr, frames, sizes);
    PackedStarts(Serialize(cmr, frames, bits));
    SerialisedParses(Pack(Serialize(cmr, frames, bits)), cmr, frames, bits);
  }

  /** A storage frame's speech with the spare bits of its last byte cleared. */
  function Cleaned(speech: seq<Byte>, n: nat): seq<Byte>
    requires n <= 8 * |speech|
  {
    Pack(BitsOf(speech)[..n])
  }

  lemma PrintersAcceptTogether(storage: seq<Byte>, written: int, sizes: Table, bits: Table)
    requires TablesAgree(sizes, bits)
    ensures PrintOctetAligned(storage, written, sizes).Ok?
       <==> PrintBandwidthEfficient(storage, written, bits).Ok? && sizes[FrameType(storage[0])] > 0
  {}

  lemma OctetPrintParses(storage: seq<Byte>, written: int, sizes: Table)
    requires PrintOctetAligned(storage, written, sizes).Ok?
    ensures var h := Header(storage[0]);
            ParseOctetAligned(PrintOctetAligned(storage, written, sizes).value, sizes)
            == Ok(Parsed(NO_MODE_REQUEST, [Frame([h] + storage[1..written], BadFlag(h))]))
  {
    var h := Header(storage[0]);
    HeaderKeepsFields(storage[0]);
    var f := Frame([h] + storage[1..written], BadFlag(h));
    assert f.storage[1..] == storage[1..written];
    assert Speech([f]) == f.storage[1..] + Speech([]);
    assert TocOf([f]) == [h];
    assert OctetSerialize(15, [f], sizes) == [240, h] + storage[1..written];
    SerialisedIsUnreserved(15, [f], sizes);
    OctetSerialisedParses(OctetSerialize(15, [f], sizes), 15, [f], sizes);
  }

  lemma BandwidthEfficientPrintParses(storage: seq<Byte>, written: int, bits: Table)
    requires PrintBandwidthEfficient(storage, written, bits).Ok?
    ensures var h := Header(storage[0]);
            ParseBandwidthEfficient(PrintBandwidthEfficient(storage, written, bits).value, bits)
            == Ok(Parsed(NO_MODE_REQUEST,
                         [Frame([h] + Cleaned(storage[1..written], bits[FrameType(storage[0])]), BadFlag(h))]))
  {
    var h := Header(storage[0]);
    HeaderKeepsFields(storage[0]);
    var s := BitsOf(storage[1..written])[..bits[FrameType(storage[0])]];
    var f := FrameOf(storage[0], s);
    FrameOfIsCanonical(storage[0], s, bits);
    OneFrameSerialises(f, storage[0], s, bits);
    PackedStarts(Serialize(15, [f], bits));
    SerialisedParses(Pack(Serialize(15, [f], bits)), 15, [f], bits);
  }

  lemma OneFrameSerialises(f: Frame, header: Byte, s: seq<bool>, bits: Table)
    requires Canonical(f, bits) && SpeechBits(f, bits) == s && f.storage[0] == Header(header)
    ensures AllCanonical([f], bits) && Serialize(15, [f], bits) == OneFrameBits(header, s)
  {
    hide BitsOf, Pack, ToBits, SpeechBits, Header;
    HeaderKeepsFields(header);
    assert TocOf([f]) == [Header(header)];
    assert TocBits([Header(header)]) == EntryBits(Header(header)) + [];
    assert AllSpeechBits([f], bits) == s + [];
    assert Serialize(15, [f], bits) == ToBits(4, 15) + EntryBits(Header(header)) + s;
  }

  /** Whatever storage frame the octet-aligned printer takes, the bandwidth-efficient one
      takes too. Both results parse to mode request 15, the same header and the same
      bad-frame flag, and to the same speech exactly when the frame's spare bits are zero. */
  lemma PrintedFramesAgree(storage: seq<Byte>, written: int, sizes: Table, bits: Table)
    requires TablesAgree(sizes, bits) && PrintOctetAligned(storage, written, sizes).Ok?
    ensures PrintBandwidthEfficient(storage, written, bits).Ok?
    ensures var octet := ParseOctetAligned(PrintOctetAligned(storage, written, sizes).value, sizes);
            var dense := ParseBandwidthEfficient(PrintBandwidthEfficient(storage, written, bits).value, bits);
            && octet.Ok? && dense.Ok?
            && octet.value.cmr == dense.value.cmr == NO_MODE_REQUEST
            && |octet.value.frames| == |dense.value.frames| == 1
            && octet.value.frames[0].bad == dense.value.frames[0].bad == BadFlag(storage[0])
            && octet.value.frames[0].storage == [Header(storage[0])] + storage[1..written]
            && (octet == dense <==> storage[1..written] == Cleaned(storage[1..written], bits[FrameType(storage[0])]))
  {
    PrintersAcceptTogether(storage, written, sizes, bits);
    OctetPrintParses(storage, written, sizes);
    BandwidthEfficientPrintParses(storage, written, bits);
    HeaderKeepsFields(storage[0]);
    var h := Header(storage[0]);
    var body, clean := storage[1..written], Cleaned(storage[1..written], bits[FrameType(storage[0])]);
    assert ([h] + body)[1..] == body && ([h] + clean)[1..] == clean;
  }
}
