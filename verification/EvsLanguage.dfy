/** Which EVS payloads are accepted, what they decode to, and why the others are refused. */
module EvsLanguage {
  import opened Common
  import opened Bits
  import opened AmrPacket
  import opened AmrRoundTrip
  import opened OctetAligned
  import opened EvsIo

  /** A storage header for a good frame of the mode. */
  lemma GoodHeaderIsGood(mode: nat)
    requires mode <= 9
    ensures FrameType(GoodHeader(mode)) == mode && Quality(GoodHeader(mode))
    ensures !Follow(GoodHeader(mode)) && GoodHeader(mode) % 4 == 0 && BadFlag(GoodHeader(mode)) == 0
  {
    FieldsOfSum(0, mode, 1, 0);
  }

  /** Where the frame type stands: behind the request byte, if there is one. */
  function TocAt(p: seq<Byte>): nat {
    if |p| > 0 && p[0] >= 128 then 1 else 0
  }

  /** A frame type from 16 to 25 behind at most one request byte, and at least the speech of its
      mode. */
  predicate IsHeaderFull(p: seq<Byte>, mode: nat, speech: seq<Byte>) {
    var i := TocAt(p);
    mode <= 9 && |speech| == SpeechByteCount(mode) && [16 + mode] + speech <= p[i..]
  }

  /** Header-full payloads, exactly; what follows the speech is ignored. */
  lemma HeaderFullExactly(p: seq<Byte>, mode: nat, speech: seq<Byte>)
    requires mode <= 9 && |speech| == SpeechByteCount(mode)
    ensures ParseHeaderFull(p) == Ok([8 * mode + 4] + speech) <==> IsHeaderFull(p, mode, speech)
  {
    hide SpeechByteCount;
    var i := TocAt(p);
    if IsHeaderFull(p, mode, speech) {
      assert p[i..][0] == ([16 + mode] + speech)[0];
      assert p[i + 1..][..|speech|] == ([16 + mode] + speech)[1..] == speech;
    }
    if ParseHeaderFull(p).Ok? {
      ParsedHeaderFull(p);
      hide ParseHeaderFull, TocAt;
      var found := p[i + 1..i + 1 + SpeechByteCount(p[i] - 16)];
      if ParseHeaderFull(p) == Ok([8 * mode + 4] + speech) {
        SameStorage(p[i] - 16, found, mode, speech);
        assert p[i..] == [p[i]] + p[i + 1..];
      }
    }
  }

  lemma ParsedHeaderFull(p: seq<Byte>)
    requires ParseHeaderFull(p).Ok?
    ensures var i := TocAt(p);
            && i < |p| && 16 <= p[i] <= 25 && i + 1 + SpeechByteCount(p[i] - 16) <= |p|
            && ParseHeaderFull(p).value == [8 * (p[i] - 16) + 4] + p[i + 1..i + 1 + SpeechByteCount(p[i] - 16)]
  {
    hide SpeechByteCount;
    var i := TocAt(p);
    var speech := p[i + 1..];
    assert speech[..SpeechByteCount(p[i] - 16)] == p[i + 1..i + 1 + SpeechByteCount(p[i] - 16)];
  }

  lemma SameStorage(mode: nat, speech: seq<Byte>, other: nat, otherSpeech: seq<Byte>)
    requires mode <= 9 && [8 * mode + 4] + speech == [8 * other + 4] + otherSpeech
    ensures mode == other && speech == otherSpeech
  {
    var a, b := [8 * mode + 4] + speech, [8 * other + 4] + otherSpeech;
    assert a[0] == b[0] && a[1..] == b[1..];
  }

  /** Why a payload is no header-full one, each reason exactly. */
  lemma HeaderFullRefusedExactly(p: seq<Byte>)
    ensures var i := TocAt(p);
            var r := ParseHeaderFull(p);
            && (r == Err(TruncatedEvsPayload) <==> p == [])
            && (r == Err(TruncatedEvsToc) <==> |p| == 1 && p[0] >= 128)
            && (r == Err(ExpectedToc) <==> |p| > 1 && p[0] >= 128 && p[1] >= 128)
            && (r == Err(MultipleFrames) <==> i < |p| && 64 <= p[i] < 128)
            && (r == Err(PrimaryFrameType) <==> i < |p| && (p[i] < 16 || 25 < p[i] < 64))
            && (r == Err(TruncatedEvsSpeech)
                <==> i < |p| && 16 <= p[i] <= 25 && |p| < i + 1 + SpeechByteCount(p[i] - 16))
  {
    hide SpeechByteCount, GoodHeader;
  }

  /** Every size is compact for one mode at most; a payload of such a size decodes as compact,
      whatever it holds, and any other as header-full. */
  lemma DecodeExactly(payload: seq<Byte>, bits: int)
    ensures var r := Decode(payload, bits);
            var need := (bits + 7) / 8;
            if payload == [] || bits <= 0 || need > |payload| then r == Err(TruncatedEvsPayload)
            else if exists m :: 0 <= m <= 8 && PROTECTED_BITS[m] == bits then
              exists m :: 0 <= m <= 8 && PROTECTED_BITS[m] == bits && r == UnpackCompact(payload[..need], m) && r.Ok?
            else r == ParseHeaderFull(payload[..need])
  {
    hide UnpackCompact, ParseHeaderFull, CompactMode;
    var need := (bits + 7) / 8;
    if payload != [] && bits > 0 && need <= |payload| {
      CompactModeFound(bits);
      if CompactMode(bits).Some? {
        var m := CompactMode(bits).value;
        CompactSizes(m);
        UnpackCases(payload[..need], m);
      }
    }
  }
}
