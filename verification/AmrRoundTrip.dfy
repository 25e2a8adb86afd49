/** The bandwidth-efficient parser accepts exactly the payloads that begin with the
    section 4.3 serialisation of 1 to 32 frames, and returns those frames. */
module AmrRoundTrip {
  import opened Common
  import opened Bits
  import opened AmrPacket

  ghost predicate StartsAt(b: seq<bool>, pos: nat, s: seq<bool>) {
    pos + |s| <= |b| && b[pos..pos + |s|] == s
  }

  lemma SliceStarts(b: seq<bool>, pos: nat, n: nat)
    requires pos + n <= |b|
    ensures StartsAt(b, pos, b[pos..pos + n])
  {}

  lemma StartsAtSplit(b: seq<bool>, pos: nat, s: seq<bool>, t: seq<bool>)
    ensures StartsAt(b, pos, s + t) <==> StartsAt(b, pos, s) && StartsAt(b, pos + |s|, t)
  {
    if StartsAt(b, pos, s + t) {
      SliceOfSlice(b, pos, pos + |s + t|, 0, |s|);
      SliceOfSlice(b, pos, pos + |s + t|, |s|, |s + t|);
      assert (s + t)[0..|s|] == s && (s + t)[|s|..|s + t|] == t;
    }
    if StartsAt(b, pos, s) && StartsAt(b, pos + |s|, t) {
      assert b[pos..pos + |s + t|] == b[pos..pos + |s|] + b[pos + |s|..pos + |s| + |t|];
    }
  }

  lemma FieldsOfSum(follow: nat, ft: nat, quality: nat, reserved: nat)
    requires follow < 2 && ft < 16 && quality < 2 && reserved < 4
    ensures var e := 128 * follow + 8 * ft + 4 * quality + reserved;
            && e % 128 == 8 * ft + 4 * quality + reserved && e % 4 == reserved
            && (e / 8) % 16 == ft && (e / 4) % 2 == quality
  {
    var e := 128 * follow + 8 * ft + 4 * quality + reserved;
    assert e / 4 == 2 * (16 * follow + ft) + quality && e / 8 == 16 * follow + ft;
  }

  lemma SumOfFields(e: Byte)
    ensures e == 128 * Num(Follow(e)) + 8 * FrameType(e) + 4 * Num(Quality(e)) + e % 4
  {
    var h := e / 4;
    var t := e / 8;
    assert e == 4 * h + e % 4 && h == 2 * t + h % 2 && t == 16 * (t / 16) + t % 16;
  }

  lemma HeaderKeepsFields(e: Byte)
    ensures Header(e) < 128 && Header(e) % 4 == 0
    ensures FrameType(Header(e)) == FrameType(e) && Quality(Header(e)) == Quality(e)
    ensures e % 4 == 0 ==> e == Header(e) + if Follow(e) then 128 else 0
  {
    SumOfFields(e);
    FieldsOfSum(Num(Follow(e)), FrameType(e), Num(Quality(e)), e % 4);
    assert Header(e) == 8 * FrameType(e) + 4 * Num(Quality(e));
    FieldsOfSum(0, FrameType(e), Num(Quality(e)), 0);
  }

  lemma FrameOfIsCanonical(e: Byte, s: seq<bool>, bits: Table)
    requires |s| == bits[FrameType(e)]
    ensures Canonical(FrameOf(e, s), bits) && SpeechBits(FrameOf(e, s), bits) == s
  {
    HeaderKeepsFields(e);
    BitsOfPack(s);
    assert FrameOf(e, s).storage[1..] == Pack(s);
    assert Padded(s)[..|s|] == s;
  }

  lemma CanonicalFrameIsRebuilt(f: Frame, bits: Table, e: Byte)
    requires Canonical(f, bits) && e == f.storage[0] + (if Follow(e) then 128 else 0)
    ensures |SpeechBits(f, bits)| == bits[FrameType(e)] && FrameOf(e, SpeechBits(f, bits)) == f
  {
    hide Pack, BitsOf;
    HeaderKeepsFields(e);
    assert Header(e) == f.storage[0] && FrameType(e) == FrameType(f.storage[0]);
    assert f.storage == [f.storage[0]] + f.storage[1..];
  }

  // ------------------------------------------------------------------ soundness

  ghost predicate ProperToc(toc: seq<Byte>) {
    forall i :: 0 <= i < |toc| ==> toc[i] % 4 == 0 && (Follow(toc[i]) <==> i < |toc| - 1)
  }

  lemma {:induction false} TocSound(b: seq<bool>, pos: nat, toc: seq<Byte>)
    requires pos <= |b| && ReadToc(b, pos, toc).Ok?
    ensures var (t, end) := ReadToc(b, pos, toc).value;
            && |toc| < |t| <= MAX_FRAMES && t[..|toc|] == toc
            && ProperToc(t[|toc|..])
            && end == pos + |TocBits(t[|toc|..])| && StartsAt(b, pos, TocBits(t[|toc|..]))
    decreases |b| - pos
  {
    var e := EntryOf(b[pos..pos + 6]);
    if Follow(e) {
      TocSound(b, pos + 6, toc + [e]);
      var t := ReadToc(b, pos, toc).value.0;
      var rest := t[|toc| + 1..];
      assert t[|toc|] == t[..|toc| + 1][|toc|] == e;
      assert t[|toc|..] == [e] + rest;
      StartsAtSplit(b, pos, EntryBits(e), TocBits(rest));
      assert t[..|toc|] == t[..|toc| + 1][..|toc|];
    } else {
      assert (toc + [e])[|toc|..] == [e] && TocBits([e]) == EntryBits(e) + [];
    }
  }

  lemma AllSpeechCons(f: Frame, rest: seq<Frame>, bits: Table)
    requires Canonical(f, bits) && AllCanonical(rest, bits)
    ensures AllCanonical([f] + rest, bits)
    ensures AllSpeechBits([f] + rest, bits) == SpeechBits(f, bits) + AllSpeechBits(rest, bits)
  {
    assert ([f] + rest)[1..] == rest;
  }

  /** `fs` continues `frames` with what the toc and the bits from `pos` on say. */
  ghost predicate Decoded(b: seq<bool>, pos: nat, toc: seq<Byte>, k: nat, fs: seq<Frame>, bits: Table) {
    && k <= |fs| == |toc|
    && AllCanonical(fs[k..], bits)
    && (forall i :: k <= i < |fs| ==> |fs[i].storage| > 0 && fs[i].storage[0] == Header(toc[i]))
    && StartsAt(b, pos, AllSpeechBits(fs[k..], bits))
  }

  lemma DecodedStep(b: seq<bool>, pos: nat, toc: seq<Byte>, k: nat, fs: seq<Frame>, bits: Table)
    requires k < |toc| && pos + bits[FrameType(toc[k])] <= |b|
    requires Decoded(b, pos + bits[FrameType(toc[k])], toc, k + 1, fs, bits)
    requires fs[k] == FrameOf(toc[k], b[pos..pos + bits[FrameType(toc[k])]])
    ensures Decoded(b, pos, toc, k, fs, bits)
  {
    hide StartsAt, Pack, BitsOf, Header;
    var s := b[pos..pos + bits[FrameType(toc[k])]];
    assert StartsAt(b, pos, s) by {
      SliceStarts(b, pos, |s|);
    }
    FrameOfIsCanonical(toc[k], s, bits);
    AllSpeechCons(fs[k], fs[k + 1..], bits);
    assert fs[k..] == [fs[k]] + fs[k + 1..];
    StartsAtSplit(b, pos, s, AllSpeechBits(fs[k + 1..], bits));
  }

  /** One turn of the frame loop. */
  lemma ReadFramesStep(b: seq<bool>, pos: nat, toc: seq<Byte>, frames: seq<Frame>, bits: Table)
    requires pos <= |b| && |frames| < |toc|
    ensures var n := bits[FrameType(toc[|frames|])];
            if pos + n > |b| then ReadFrames(b, pos, toc, frames, bits) == Err(TruncatedSpeech)
            else ReadFrames(b, pos, toc, frames, bits)
                 == ReadFrames(b, pos + n, toc, frames + [FrameOf(toc[|frames|], b[pos..pos + n])], bits)
  {}

  lemma FrameTaken(b: seq<bool>, pos: nat, toc: seq<Byte>, frames: seq<Frame>, fs: seq<Frame>, bits: Table)
    requires |frames| < |toc| && pos + bits[FrameType(toc[|frames|])] <= |b|
    requires var n := bits[FrameType(toc[|frames|])];
             && frames + [FrameOf(toc[|frames|], b[pos..pos + n])] <= fs
             && Decoded(b, pos + n, toc, |frames| + 1, fs, bits)
    ensures frames <= fs && Decoded(b, pos, toc, |frames|, fs, bits)
  {
    hide FrameOf, FrameType, AllCanonical, AllSpeechBits, StartsAt;
    var f := FrameOf(toc[|frames|], b[pos..pos + bits[FrameType(toc[|frames|])]]);
    assert fs[|frames|] == (frames + [f])[|frames|] == f;
    DecodedStep(b, pos, toc, |frames|, fs, bits);
  }

  lemma NothingLeft(b: seq<bool>, pos: nat, toc: seq<Byte>, frames: seq<Frame>, bits: Table)
    requires pos <= |b| && |frames| == |toc|
    ensures Decoded(b, pos, toc, |frames|, frames, bits)
  {
    assert frames[|frames|..] == [];
  }

  lemma {:induction false} FramesSound(b: seq<bool>, pos: nat, toc: seq<Byte>, frames: seq<Frame>, bits: Table)
    requires pos <= |b| && |frames| <= |toc| && ReadFrames(b, pos, toc, frames, bits).Ok?
    ensures frames <= ReadFrames(b, pos, toc, frames, bits).value
    ensures Decoded(b, pos, toc, |frames|, ReadFrames(b, pos, toc, frames, bits).value, bits)
    decreases |toc| - |frames|
  {
    if |frames| < |toc| {
      ReadFramesStep(b, pos, toc, frames, bits);
      var n := bits[FrameType(toc[|frames|])];
      var longer := frames + [FrameOf(toc[|frames|], b[pos..pos + n])];
      FramesSound(b, pos + n, toc, longer, bits);
      FrameTaken(b, pos, toc, frames, ReadFrames(b, pos + n, toc, longer, bits).value, bits);
    } else {
      NothingLeft(b, pos, toc, frames, bits);
    }
  }

  lemma TocOfParsed(toc: seq<Byte>, frames: seq<Frame>)
    requires ProperToc(toc) && |frames| == |toc|
    requires forall i :: 0 <= i < |frames| ==> |frames[i].storage| > 0 && frames[i].storage[0] == Header(toc[i])
    ensures forall i :: 0 <= i < |frames| ==> frames[i].storage[0] < 128
    ensures TocOf(frames) == toc
  {
    forall i | 0 <= i < |frames|
      ensures frames[i].storage[0] < 128 && TocEntry(frames, i) == toc[i]
    {
      HeaderKeepsFields(toc[i]);
    }
  }

  lemma CmrSound(b: seq<bool>)
    requires |b| >= 4
    ensures Value(b[..4]) < 16 && StartsAt(b, 0, ToBits(4, Value(b[..4])))
  {
    SmallPowers();
    ValueFits(b[..4]);
    BitsOfValue(b[..4]);
    assert b[..4] == b[0..4];
  }

  lemma CmrComplete(b: seq<bool>, cmr: nat)
    requires cmr < 16 && StartsAt(b, 0, ToBits(4, cmr))
    ensures |b| >= 4 && Value(b[..4]) == cmr
  {
    assert b[..4] == b[0..4];
    SmallPowers();
    ValueOfBits(4, cmr);
  }

  /** Whatever the parser accepts, serialising what it returns gives back exactly the
      bits it consumed: the payload begins with them. */
  lemma ParsedReserialises(payload: seq<Byte>, bits: Table)
    requires ParseBandwidthEfficient(payload, bits).Ok?
    ensures var p := ParseBandwidthEfficient(payload, bits).value;
            && p.cmr < 16 && 1 <= |p.frames| <= MAX_FRAMES && AllCanonical(p.frames, bits)
            && StartsAt(BitsOf(payload), 0, Serialize(p.cmr, p.frames, bits))
  {
    hide ReadToc, ReadFrames, Serialize, AllSpeechBits, BitsOf, Value, TocBits, Canonical;
    var b := BitsOf(payload);
    var p := ParseBandwidthEfficient(payload, bits).value;
    TocEnds(b, 4, []);
    TocSound(b, 4, []);
    var (toc, pos) := ReadToc(b, 4, []).value;
    assert toc[0..] == toc;
    FramesSound(b, pos, toc, [], bits);
    assert p.frames[0..] == p.frames;
    TocOfParsed(toc, p.frames);
    CmrSound(b);
    SerialiseSplit(b, p.cmr, p.frames, bits);
  }

  // --------------------------------------------------------------- completeness

  lemma ReadTocStep(b: seq<bool>, pos: nat, toc: seq<Byte>, e: Byte)
    requires |toc| < MAX_FRAMES && e % 4 == 0 && StartsAt(b, pos, EntryBits(e))
    ensures ReadToc(b, pos, toc) == if Follow(e) then ReadToc(b, pos + 6, toc + [e]) else Ok((toc + [e], pos + 6))
  {
    EntryRoundTrip(e);
  }

  lemma ProperParts(toc: seq<Byte>)
    requires ProperToc(toc) && |toc| > 0
    ensures toc[0] % 4 == 0 && (Follow(toc[0]) <==> |toc| > 1)
    ensures ProperToc(toc[1..])
  {
    forall i | 0 <= i < |toc| - 1
      ensures toc[1..][i] % 4 == 0 && (Follow(toc[1..][i]) <==> i < |toc| - 2)
    {
      assert toc[1..][i] == toc[i + 1];
    }
  }

  lemma TocBitsParts(b: seq<bool>, pos: nat, toc: seq<Byte>)
    requires |toc| > 0 && StartsAt(b, pos, TocBits(toc))
    ensures StartsAt(b, pos, EntryBits(toc[0])) && StartsAt(b, pos + 6, TocBits(toc[1..]))
  {
    StartsAtSplit(b, pos, EntryBits(toc[0]), TocBits(toc[1..]));
  }

  /** One turn of the table-of-contents loop. */
  lemma TocTurn(b: seq<bool>, pos: nat, toc: seq<Byte>, more: seq<Byte>)
    requires |more| > 0 && |toc| < MAX_FRAMES && ProperToc(more) && StartsAt(b, pos, TocBits(more))
    ensures StartsAt(b, pos + 6, TocBits(more[1..])) && ProperToc(more[1..])
    ensures ReadToc(b, pos, toc)
            == if |more| > 1 then ReadToc(b, pos + 6, toc + [more[0]]) else Ok((toc + [more[0]], pos + 6))
  {
    ProperParts(more);
    TocBitsParts(b, pos, more);
    ReadTocStep(b, pos, toc, more[0]);
  }

  lemma {:induction false} TocComplete(b: seq<bool>, pos: nat, toc: seq<Byte>, more: seq<Byte>)
    requires |more| > 0 && |toc| + |more| <= MAX_FRAMES && ProperToc(more)
    requires StartsAt(b, pos, TocBits(more))
    ensures ReadToc(b, pos, toc) == Ok((toc + more, pos + 6 * |more|))
    decreases |more|
  {
    hide *;
    TocTurn(b, pos, toc, more);
    if |more| > 1 {
      TocComplete(b, pos + 6, toc + [more[0]], more[1..]);
      assert toc + [more[0]] + more[1..] == toc + more;
    } else {
      assert more == [more[0]];
    }
  }

  lemma FrameFound(b: seq<bool>, pos: nat, frames: seq<Frame>, k: nat, bits: Table)
    requires k < |frames| && AllCanonical(frames, bits)
    requires StartsAt(b, pos, SpeechBits(frames[k], bits))
    ensures var n := |SpeechBits(frames[k], bits)|;
            ReadFrames(b, pos, TocOf(frames), frames[..k], bits)
            == ReadFrames(b, pos + n, TocOf(frames), frames[..k + 1], bits)
  {
    var f := frames[k];
    assert Canonical(f, bits);
    CanonicalFrameIsRebuilt(f, bits, TocOf(frames)[k]);
    ReadFramesStep(b, pos, TocOf(frames), frames[..k], bits);
    assert frames[..k] + [f] == frames[..k + 1];
  }

  lemma {:induction false} FramesComplete(b: seq<bool>, pos: nat, frames: seq<Frame>, k: nat, bits: Table)
    requires k <= |frames| && AllCanonical(frames, bits)
    requires StartsAt(b, pos, AllSpeechBits(frames[k..], bits))
    ensures ReadFrames(b, pos, TocOf(frames), frames[..k], bits) == Ok(frames)
    decreases |frames| - k
  {
    if k == |frames| {
      assert frames[..k] == frames;
    } else {
      var s := SpeechBits(frames[k], bits);
      var rest := frames[k + 1..];
      assert frames[k..][1..] == rest && frames[k..][0] == frames[k];
      StartsAtSplit(b, pos, s, AllSpeechBits(rest, bits));
      FrameFound(b, pos, frames, k, bits);
      FramesComplete(b, pos + |s|, frames, k + 1, bits);
    }
  }

  lemma TocOfIsProper(frames: seq<Frame>, bits: Table)
    requires AllCanonical(frames, bits)
    ensures ProperToc(TocOf(frames))
  {
    forall i | 0 <= i < |frames|
      ensures TocOf(frames)[i] % 4 == 0 && (Follow(TocOf(frames)[i]) <==> i < |frames| - 1)
    {
      assert Canonical(frames[i], bits);
    }
  }

  lemma SerialiseSplit(b: seq<bool>, cmr: nat, frames: seq<Frame>, bits: Table)
    requires AllCanonical(frames, bits)
    ensures StartsAt(b, 0, Serialize(cmr, frames, bits))
       <==> && StartsAt(b, 0, ToBits(4, cmr)) && StartsAt(b, 4, TocBits(TocOf(frames)))
            && StartsAt(b, 4 + 6 * |frames|, AllSpeechBits(frames, bits))
  {
    var head, mid, tail := ToBits(4, cmr), TocBits(TocOf(frames)), AllSpeechBits(frames, bits);
    assert Serialize(cmr, frames, bits) == head + (mid + tail);
    StartsAtSplit(b, 0, head, mid + tail);
    StartsAtSplit(b, 4, mid, tail);
  }

  lemma WholeTocComplete(b: seq<bool>, frames: seq<Frame>, bits: Table)
    requires 1 <= |frames| <= MAX_FRAMES && AllCanonical(frames, bits) && StartsAt(b, 4, TocBits(TocOf(frames)))
    ensures ReadToc(b, 4, []) == Ok((TocOf(frames), 4 + 6 * |frames|))
  {
    TocOfIsProper(frames, bits);
    TocComplete(b, 4, [], TocOf(frames));
    assert [] + TocOf(frames) == TocOf(frames);
  }

  lemma WholeFramesComplete(b: seq<bool>, frames: seq<Frame>, bits: Table)
    requires AllCanonical(frames, bits) && StartsAt(b, 4 + 6 * |frames|, AllSpeechBits(frames, bits))
    ensures ReadFrames(b, 4 + 6 * |frames|, TocOf(frames), [], bits) == Ok(frames)
  {
    hide *;
    assert frames[0..] == frames && frames[..0] == [];
    FramesComplete(b, 4 + 6 * |frames|, frames, 0, bits);
  }

  /** Every payload that begins with a serialisation parses back to what it serialises,
      whatever follows it. */
  lemma SerialisedParses(payload: seq<Byte>, cmr: nat, frames: seq<Frame>, bits: Table)
    requires cmr < 16 && 1 <= |frames| <= MAX_FRAMES && AllCanonical(frames, bits)
    requires StartsAt(BitsOf(payload), 0, Serialize(cmr, frames, bits))
    ensures ParseBandwidthEfficient(payload, bits) == Ok(Parsed(cmr, frames))
  {
    var b := BitsOf(payload);
    SerialiseSplit(b, cmr, frames, bits);
    CmrComplete(b, cmr);
    WholeTocComplete(b, frames, bits);
    WholeFramesComplete(b, frames, bits);
  }

  /** The two together: the parser's language and its result, exactly. */
  lemma ParserIsExactInverse(payload: seq<Byte>, cmr: nat, frames: seq<Frame>, bits: Table)
    ensures ParseBandwidthEfficient(payload, bits) == Ok(Parsed(cmr, frames))
       <==> && cmr < 16 && 1 <= |frames| <= MAX_FRAMES && AllCanonical(frames, bits)
            && StartsAt(BitsOf(payload), 0, Serialize(cmr, frames, bits))
  {
    if ParseBandwidthEfficient(payload, bits) == Ok(Parsed(cmr, frames)) {
      ParsedReserialises(payload, bits);
    }
    if cmr < 16 && 1 <= |frames| <= MAX_FRAMES && AllCanonical(frames, bits) {
      if StartsAt(BitsOf(payload), 0, Serialize(cmr, frames, bits)) {
        SerialisedParses(payload, cmr, frames, bits);
      }
    }
  }

  lemma PackedStarts(s: seq<bool>)
    ensures StartsAt(BitsOf(Pack(s)), 0, s)
  {
    BitsOfPack(s);
    assert Padded(s)[0..|s|] == s;
  }

  // ------------------------------------------------------- fields on the payload

  lemma {:induction false} TocBitsAt(b: seq<bool>, pos: nat, toc: seq<Byte>, i: nat)
    requires i < |toc| && StartsAt(b, pos, TocBits(toc))
    ensures StartsAt(b, pos + 6 * i, EntryBits(toc[i]))
    decreases i
  {
    TocBitsParts(b, pos, toc);
    if i > 0 {
      TocBitsAt(b, pos + 6, toc[1..], i - 1);
    }
  }

  lemma EntryOnPayload(b: seq<bool>, pos: nat, e: Byte)
    requires StartsAt(b, pos, EntryBits(e))
    ensures pos + 6 <= |b|
    ensures b[pos] == Follow(e) && Value(b[pos + 1..pos + 5]) == FrameType(e) && b[pos + 5] == Quality(e)
  {
    var s := EntryBits(e);
    assert b[pos..pos + 6] == s;
    assert b[pos] == s[0] && b[pos + 5] == s[5] && s[1..5] == ToBits(4, FrameType(e));
    SliceOfSlice(b, pos, pos + 6, 1, 5);
    SmallPowers();
    ValueOfBits(4, FrameType(e));
  }

  /** Where the payload says what: the mode request in the first four bits; for frame `i` the
      follow bit, four bits of frame type and the quality bit. A frame is reported bad exactly
      when its quality bit is clear. */
  lemma FrameFieldsOnPayload(payload: seq<Byte>, bits: Table, i: nat)
    requires ParseBandwidthEfficient(payload, bits).Ok?
    requires i < |ParseBandwidthEfficient(payload, bits).value.frames|
    ensures var r := ParseBandwidthEfficient(payload, bits).value;
            var b := BitsOf(payload);
            var at := 4 + 6 * i;
            var f := r.frames[i];
            && at + 6 <= |b| && |f.storage| > 0
            && r.cmr == Value(b[..4])
            && (b[at] <==> i < |r.frames| - 1)
            && f.storage[0] == 8 * Value(b[at + 1..at + 5]) + (if b[at + 5] then 4 else 0)
            && f.bad in {0, 1} && (f.bad == 0 <==> b[at + 5])
  {
    hide Serialize, BitsOf, Value, EntryBits, TocBits, AllSpeechBits, Pack;
    var r := ParseBandwidthEfficient(payload, bits).value;
    var b := BitsOf(payload);
    ParsedReserialises(payload, bits);
    SerialiseSplit(b, r.cmr, r.frames, bits);
    TocBitsAt(b, 4, TocOf(r.frames), i);
    EntryOnPayload(b, 4 + 6 * i, TocOf(r.frames)[i]);
    EntryOfFrame(r.frames, i, bits);
  }

  lemma EntryOfFrame(frames: seq<Frame>, i: nat, bits: Table)
    requires i < |frames| && AllCanonical(frames, bits)
    ensures var e := TocOf(frames)[i];
            var h := frames[i].storage[0];
            && (Follow(e) <==> i < |frames| - 1)
            && h == 8 * FrameType(e) + (if Quality(e) then 4 else 0)
            && frames[i].bad == if Quality(e) then 0 else 1
  {
    hide Pack, BitsOf;
    assert Canonical(frames[i], bits);
    var h := frames[i].storage[0];
    var e := TocOf(frames)[i];
    SumOfFields(h);
    HeaderKeepsFields(e);
    assert Header(e) == h;
  }
}
