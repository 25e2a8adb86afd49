/** Which AMR payloads the two parsers refuse, and with which error. */
module AmrErrors {
  import opened Common
  import opened Bits
  import opened AmrPacket
  import opened AmrRoundTrip
  import opened OctetAligned

  // ------------------------------------------------------- bandwidth-efficient

  predicate FollowAt(b: seq<bool>, pos: nat, i: nat) {
    pos + 6 * i < |b| && b[pos + 6 * i]
  }

  /** The first `n` entries from bit `pos` on all carry the follow bit. */
  predicate AllFollow(b: seq<bool>, pos: nat, n: nat) {
    forall i :: 0 <= i < n ==> FollowAt(b, pos, i)
  }

  lemma FollowBit(b: seq<bool>, pos: nat)
    requires pos + 6 <= |b|
    ensures Follow(EntryOf(b[pos..pos + 6])) == b[pos]
  {
    EntryAt(b, pos);
  }

  lemma AllFollowNext(b: seq<bool>, pos: nat, n: nat)
    requires n > 0 && pos + 6 * n <= |b|
    ensures AllFollow(b, pos, n) <==> b[pos] && AllFollow(b, pos + 6, n - 1)
  {
    var behind := pos + 6;
    assert FollowAt(b, pos, 0) == b[pos];
    if b[pos] && AllFollow(b, behind, n - 1) {
      forall i | 0 <= i < n
        ensures FollowAt(b, pos, i)
      {
        if i > 0 {
          assert FollowAt(b, behind, i - 1);
        }
      }
    }
    if AllFollow(b, pos, n) {
      forall i | 0 <= i < n - 1
        ensures FollowAt(b, behind, i)
      {
        assert FollowAt(b, pos, i + 1);
      }
    }
  }

  /** Too many entries when all that are allowed carry the follow bit; cut off when there is
      room for fewer and all of those do. */
  lemma {:induction false} TocRefused(b: seq<bool>, pos: nat, toc: seq<Byte>)
    requires pos <= |b| && |toc| <= MAX_FRAMES
    ensures var left, room := MAX_FRAMES - |toc|, (|b| - pos) / 6;
            && (ReadToc(b, pos, toc) == Err(TooManyFrames) <==> room >= left && AllFollow(b, pos, left))
            && (ReadToc(b, pos, toc) == Err(TruncatedToc) <==> room < left && AllFollow(b, pos, room))
            && (ReadToc(b, pos, toc).Err? ==> ReadToc(b, pos, toc).error in {TooManyFrames, TruncatedToc})
    decreases |b| - pos
  {
    var left, room := MAX_FRAMES - |toc|, (|b| - pos) / 6;
    if left > 0 && room > 0 {
      hide AllFollow, EntryOf;
      var e := EntryOf(b[pos..pos + 6]);
      FollowBit(b, pos);
      TocRefused(b, pos + 6, toc + [e]);
      assert (|b| - (pos + 6)) / 6 == room - 1;
      AllFollowNext(b, pos, if room >= left then left else room);
    }
  }

  function SpeechTotal(toc: seq<Byte>, bits: Table): nat {
    if |toc| == 0 then 0 else bits[FrameType(toc[0])] + SpeechTotal(toc[1..], bits)
  }

  /** The frames are refused exactly when there are fewer bits than their types ask for. */
  lemma {:induction false} FramesRefused(b: seq<bool>, pos: nat, toc: seq<Byte>, frames: seq<Frame>, bits: Table)
    requires pos <= |b| && |frames| <= |toc|
    ensures ReadFrames(b, pos, toc, frames, bits).Err? <==> |b| - pos < SpeechTotal(toc[|frames|..], bits)
    ensures ReadFrames(b, pos, toc, frames, bits).Err? ==>
              ReadFrames(b, pos, toc, frames, bits) == Err(TruncatedSpeech)
    decreases |toc| - |frames|
  {
    if |frames| < |toc| {
      var n := bits[FrameType(toc[|frames|])];
      assert toc[|frames|..][1..] == toc[|frames| + 1..];
      ReadFramesStep(b, pos, toc, frames, bits);
      if pos + n <= |b| {
        FramesRefused(b, pos + n, toc, frames + [FrameOf(toc[|frames|], b[pos..pos + n])], bits);
      }
    }
  }

  /** Refusal, exactly: no payload at all; 32 entries that all announce another; a table of
      contents cut off; or, behind a complete one, fewer bits than its types ask for. */
  lemma RefusedExactly(payload: seq<Byte>, bits: Table)
    ensures var r := ParseBandwidthEfficient(payload, bits);
            var b := BitsOf(payload);
            && (r == Err(TruncatedPayload) <==> payload == [])
            && (r == Err(TooManyFrames) <==> |b| >= 4 + 6 * 32 && AllFollow(b, 4, 32))
            && (r == Err(TruncatedToc)
                <==> 4 <= |b| < 4 + 6 * 32 && AllFollow(b, 4, (|b| - 4) / 6))
            && (r == Err(TruncatedSpeech)
                <==> payload != [] && ReadToc(b, 4, []).Ok?
                     && |b| < ReadToc(b, 4, []).value.1 + SpeechTotal(ReadToc(b, 4, []).value.0, bits))
            && (r.Err? ==> r.error in {TruncatedPayload, TooManyFrames, TruncatedToc, TruncatedSpeech})
  {
    hide BitsOf, ReadToc, ReadFrames, AllFollow;
    if payload != [] {
      var b := BitsOf(payload);
      TocRefused(b, 4, []);
      TocEnds(b, 4, []);
      if ReadToc(b, 4, []).Ok? {
        var (toc, pos) := ReadToc(b, 4, []).value;
        assert toc[0..] == toc;
        FramesRefused(b, pos, toc, [], bits);
      }
    }
  }

  // -------------------------------------------------------------- octet-aligned

  predicate AllAnnounce(entries: seq<Byte>) {
    forall e :: e in entries ==> e >= 128
  }

  lemma AllAnnounceCons(e: Byte, entries: seq<Byte>)
    ensures AllAnnounce([e] + entries) <==> e >= 128 && AllAnnounce(entries)
  {
    assert e in [e] + entries;
    assert forall x :: x in entries ==> x in [e] + entries;
  }

  /** The `n` entries from byte `index` on all carry the follow bit. */
  predicate OctetsFollow(p: seq<Byte>, index: nat, n: nat)
    requires index + n <= |p|
  {
    AllAnnounce(p[index..index + n])
  }

  lemma OctetsFollowNext(p: seq<Byte>, index: nat, n: nat)
    requires n > 0 && index + n <= |p|
    ensures OctetsFollow(p, index, n) <==> p[index] >= 128 && OctetsFollow(p, index + 1, n - 1)
  {
    hide AllAnnounce;
    assert p[index..index + n] == [p[index]] + p[index + 1..index + 1 + (n - 1)];
    AllAnnounceCons(p[index], p[index + 1..index + 1 + (n - 1)]);
  }

  /** Here the end of the payload is noticed before the limit on frames. */
  lemma {:induction false} OctetTocRefused(p: seq<Byte>, index: nat, toc: seq<Byte>)
    requires index <= |p| && |toc| <= MAX_FRAMES
    ensures var left, room := MAX_FRAMES - |toc|, |p| - index;
            && (OctetToc(p, index, toc) == Err(TooManyFrames) <==> room > left && OctetsFollow(p, index, left))
            && (OctetToc(p, index, toc) == Err(TruncatedToc) <==> room <= left && OctetsFollow(p, index, room))
            && (OctetToc(p, index, toc).Err? ==> OctetToc(p, index, toc).error in {TooManyFrames, TruncatedToc})
    decreases |p| - index
  {
    var left, room := MAX_FRAMES - |toc|, |p| - index;
    if left > 0 && room > 0 {
      hide OctetsFollow;
      OctetTocRefused(p, index + 1, toc + [p[index]]);
      OctetsFollowNext(p, index, if room <= left then room else left);
    }
  }

  /** The entry announces data of a type that has none. */
  predicate Unsupported(e: Byte, sizes: Table) {
    sizes[FrameType(e)] == 0 && FrameType(e) < 14
  }

  /** The first `n` entries are supported, and their data fits behind `index`. */
  predicate OctetsFit(p: seq<Byte>, index: nat, toc: seq<Byte>, n: nat, sizes: Table)
    requires n <= |toc|
  {
    (forall i :: 0 <= i < n ==> !Unsupported(toc[i], sizes)) && index + SpeechTotal(toc[..n], sizes) <= |p|
  }

  lemma OctetsFitNext(p: seq<Byte>, index: nat, toc: seq<Byte>, n: nat, sizes: Table)
    requires 0 < n <= |toc|
    ensures OctetsFit(p, index, toc, n, sizes)
       <==> !Unsupported(toc[0], sizes) && OctetsFit(p, index + sizes[FrameType(toc[0])], toc[1..], n - 1, sizes)
  {
    hide FrameType;
    assert toc[..n][1..] == toc[1..][..n - 1];
    assert forall i :: 0 <= i < n - 1 ==> toc[1..][i] == toc[i + 1];
    if !Unsupported(toc[0], sizes) && OctetsFit(p, index + sizes[FrameType(toc[0])], toc[1..], n - 1, sizes) {
      forall i | 0 <= i < n
        ensures !Unsupported(toc[i], sizes)
      {
        if i > 0 {
          assert !Unsupported(toc[1..][i - 1], sizes);
        }
      }
    }
  }

  /** The frames are accepted exactly when every type is supported and all the data is there;
      otherwise the error is about the first frame that cannot be read. */
  lemma {:induction false} OctetFramesRefused(p: seq<Byte>, index: nat, toc: seq<Byte>, frames: seq<Frame>,
                                              sizes: Table)
    requires index <= |p| && |frames| <= |toc|
    ensures var r := OctetFrames(p, index, toc, frames, sizes);
            var rest := toc[|frames|..];
            && (r.Ok? <==> OctetsFit(p, index, rest, |rest|, sizes))
            && (r.Err? ==> exists k :: BadFrame(p, index, rest, k, sizes) && r.error == FrameError(rest, k, sizes))
    decreases |toc| - |frames|
  {
    var rest := toc[|frames|..];
    if |frames| < |toc| {
      hide OctetsFit, FrameType, Header, BadFlag, Unsupported;
      var e := toc[|frames|];
      var n := sizes[FrameType(e)];
      assert rest[0] == e && rest[1..] == toc[|frames| + 1..];
      OctetsFitNext(p, index, rest, |rest|, sizes);
      FirstFrame(p, index, toc, frames, sizes);
      if !Unsupported(e, sizes) && index + n <= |p| {
        var longer := frames + [Frame([Header(e)] + p[index..index + n], BadFlag(e))];
        OctetFramesRefused(p, index + n, toc, longer, sizes);
        if OctetFrames(p, index + n, toc, longer, sizes).Err? {
          var k :| BadFrame(p, index + n, rest[1..], k, sizes)
                   && OctetFrames(p, index + n, toc, longer, sizes).error == FrameError(rest[1..], k, sizes);
          BadFrameLater(p, index, rest, k, sizes);
        }
      } else {
        FirstIsBad(p, index, rest, sizes);
      }
    } else {
      assert rest == [];
    }
  }

  /** Frame `k` is the first that cannot be read. */
  predicate BadFrame(p: seq<Byte>, index: nat, toc: seq<Byte>, k: nat, sizes: Table) {
    k < |toc| && OctetsFit(p, index, toc, k, sizes) && !OctetsFit(p, index, toc, k + 1, sizes)
  }

  function FrameError(toc: seq<Byte>, k: nat, sizes: Table): AmrError
    requires k < |toc|
  {
    if Unsupported(toc[k], sizes) then UnsupportedFrameType else TruncatedSpeech
  }

  /** One turn of the frame loop. */
  lemma FirstFrame(p: seq<Byte>, index: nat, toc: seq<Byte>, frames: seq<Frame>, sizes: Table)
    requires index <= |p| && |frames| < |toc|
    ensures var e := toc[|frames|];
            var n := sizes[FrameType(e)];
            OctetFrames(p, index, toc, frames, sizes)
            == if Unsupported(e, sizes) then Err(UnsupportedFrameType)
               else if index + n > |p| then Err(TruncatedSpeech)
               else OctetFrames(p, index + n, toc, frames + [Frame([Header(e)] + p[index..index + n], BadFlag(e))],
                                sizes)
  {}

  lemma FirstIsBad(p: seq<Byte>, index: nat, toc: seq<Byte>, sizes: Table)
    requires |toc| > 0 && index <= |p|
    requires Unsupported(toc[0], sizes) || index + sizes[FrameType(toc[0])] > |p|
    ensures BadFrame(p, index, toc, 0, sizes) && !OctetsFit(p, index, toc, |toc|, sizes)
    ensures FrameError(toc, 0, sizes)
            == if Unsupported(toc[0], sizes) then UnsupportedFrameType else TruncatedSpeech
  {
    hide Unsupported, FrameType;
    OctetsFitNext(p, index, toc, 1, sizes);
    OctetsFitNext(p, index, toc, |toc|, sizes);
    assert toc[..0] == [];
  }

  lemma BadFrameLater(p: seq<Byte>, index: nat, toc: seq<Byte>, k: nat, sizes: Table)
    requires |toc| > 0 && !Unsupported(toc[0], sizes)
    requires BadFrame(p, index + sizes[FrameType(toc[0])], toc[1..], k, sizes)
    ensures BadFrame(p, index, toc, k + 1, sizes)
    ensures FrameError(toc, k + 1, sizes) == FrameError(toc[1..], k, sizes)
  {
    hide Unsupported, FrameType, OctetsFit;
    OctetsFitNext(p, index, toc, k + 1, sizes);
    OctetsFitNext(p, index, toc, k + 2, sizes);
  }

  /** Refusal, exactly: fewer than two bytes; a table of contents that runs to the end of the
      payload, or beyond 32 entries; or a frame of an unsupported type or cut off, whichever
      comes first. */
  lemma OctetRefusedExactly(p: seq<Byte>, sizes: Table)
    ensures var r := ParseOctetAligned(p, sizes);
            && (r == Err(TruncatedPayload) <==> |p| < 2)
            && (r == Err(TruncatedToc) <==> 2 <= |p| <= 33 && OctetsFollow(p, 1, |p| - 1))
            && (r == Err(TooManyFrames) <==> |p| > 33 && OctetsFollow(p, 1, 32))
            && (r.Err? && r.error in {UnsupportedFrameType, TruncatedSpeech} ==>
                  OctetToc(p, 1, []).Ok?
                  && var toc := OctetToc(p, 1, []).value;
                     exists k :: BadFrame(p, 1 + |toc|, toc, k, sizes) && r.error == FrameError(toc, k, sizes))
            && (r.Ok? ==> var toc := OctetToc(p, 1, []).value; OctetsFit(p, 1 + |toc|, toc, |toc|, sizes))
            && (r.Err? ==> r.error in {TruncatedPayload, TruncatedToc, TooManyFrames, UnsupportedFrameType,
                                       TruncatedSpeech})
  {
    hide OctetToc, OctetFrames, OctetsFollow, OctetsFit, BadFrame;
    if |p| >= 2 {
      OctetTocRefused(p, 1, []);
      if OctetToc(p, 1, []).Ok? {
        var toc := OctetToc(p, 1, []).value;
        OctetTocSound(p, 1, []);
        assert toc[0..] == toc;
        OctetFramesRefused(p, 1 + |toc|, toc, [], sizes);
      }
    }
  }
}
