/** Reading the last lines of a log file backwards in blocks, against splitting the whole
    file and keeping the last lines. */
module LastLines {
  type Line = seq<char>

  const BLOCK_SIZE: nat := 32768
  const DEFAULT_MAX_BYTES: nat := 1048576

  // ----------------------------------------------------------------- whole lines

  function Newlines(s: Line): nat {
    if |s| == 0 then 0 else (if s[0] == '\n' then 1 else 0) + Newlines(s[1..])
  }

  /** `strings.Split(s, "\n")` */
  function Split(s: Line): (r: seq<Line>)
    ensures |r| == 1 + Newlines(s)
  {
    if |s| == 0 then [[]]
    else
      var rest := Split(s[1..]);
      if s[0] == '\n' then [[]] + rest else [[s[0]] + rest[0]] + rest[1..]
  }

  predicate IsSpace(c: char) {
    c == ' ' || c == '\t' || c == '\n' || c == '\r' || c == 11 as char || c == 12 as char
  }

  predicate Blank(line: Line) {
    forall i :: 0 <= i < |line| ==> IsSpace(line[i])
  }

  function TrimBlank(lines: seq<Line>): (r: seq<Line>)
    ensures |r| <= |lines| && r == lines[..|r|]
    ensures |r| > 0 ==> !Blank(r[|r| - 1])
    ensures forall i :: |r| <= i < |lines| ==> Blank(lines[i])
  {
    if |lines| > 0 && Blank(lines[|lines| - 1]) then TrimBlank(lines[..|lines| - 1]) else lines
  }

  function LastN(lines: seq<Line>, n: nat): seq<Line> {
    if |lines| <= n then lines else lines[|lines| - n..]
  }

  /** The simple version: split everything, drop blank lines at the end, keep the last. */
  function Simple(content: Line, maxLines: nat): seq<Line> {
    LastN(TrimBlank(Split(content)), maxLines)
  }

  // ------------------------------------------------------------ the backward scan

  function Min(a: nat, b: nat): nat {
    if a < b then a else b
  }

  /** Where the scan stops when it has read back to `offset`. */
  function ScanOffset(content: Line, maxLines: nat, maxBytes: nat, offset: nat): (r: nat)
    requires offset <= |content|
    ensures r <= offset
  {
    if offset > 0 && |content| - offset < maxBytes && Newlines(content[offset..]) <= maxLines
    then ScanOffset(content, maxLines, maxBytes, offset - Min(BLOCK_SIZE, offset))
    else offset
  }

  function EffectiveCap(maxBytes: int): nat {
    if maxBytes <= 0 then DEFAULT_MAX_BYTES else maxBytes
  }

  function StopOffset(content: Line, maxLines: nat, maxBytes: int): (r: nat)
    ensures r <= |content|
  {
    ScanOffset(content, maxLines, EffectiveCap(maxBytes), |content|)
  }

  lemma {:induction false} NewlinesAppend(a: Line, b: Line)
    ensures Newlines(a + b) == Newlines(a) + Newlines(b)
  {
    if |a| == 0 {
      assert a + b == b;
    } else {
      NewlinesAppend(a[1..], b);
      assert (a + b)[1..] == a[1..] + b;
    }
  }

  /** `bytes.Count(b, []byte{'\n'})` */
  method CountNewlines(b: Line) returns (n: nat)
    ensures n == Newlines(b)
  {
    n := 0;
    for i := 0 to |b|
      invariant n == Newlines(b[..i])
    {
      NewlinesAppend(b[..i], [b[i]]);
      assert b[..i + 1] == b[..i] + [b[i]];
      if b[i] == '\n' {
        n := n + 1;
      }
    }
    assert b[..|b|] == b;
  }

  function Joined(chunks: seq<Line>): Line {
    if |chunks| == 0 then [] else Joined(chunks[1..]) + chunks[0]
  }

  lemma {:induction false} JoinedAppend(chunks: seq<Line>, c: Line)
    ensures Joined(chunks + [c]) == c + Joined(chunks)
  {
    if |chunks| == 0 {
      assert (chunks + [c])[1..] == [];
    } else {
      JoinedAppend(chunks[1..], c);
      assert (chunks + [c])[1..] == chunks[1..] + [c];
      assert c + Joined(chunks[1..]) + chunks[0] == c + (Joined(chunks[1..]) + chunks[0]);
    }
  }

  lemma NothingInEmpty(content: Line, maxLines: int, maxBytes: int)
    requires |content| == 0 && maxLines > 0
    ensures LastN(TrimBlank(Split(content[StopOffset(content, maxLines, maxBytes)..])), maxLines) == []
  {
    assert content[0..] == content && Blank(Split(content)[0]);
  }

  /** One turn of the trimming loop. */
  lemma TrimStep(lines: seq<Line>)
    ensures TrimBlank(lines)
            == if |lines| > 0 && Blank(lines[|lines| - 1]) then TrimBlank(lines[..|lines| - 1]) else lines
  {}

  method ReadLastLines(content: Line, maxLines: int, maxBytes: int) returns (lines: seq<Line>)
    ensures maxLines <= 0 ==> lines == []
    ensures maxLines > 0 ==>
              lines == LastN(TrimBlank(Split(content[StopOffset(content, maxLines, maxBytes)..])), maxLines)
  {
    hide Joined, Split, ScanOffset, TrimBlank, Newlines;
    if maxLines <= 0 {
      return [];
    }
    var cap := maxBytes;
    if cap <= 0 {
      cap := DEFAULT_MAX_BYTES;
    }
    if |content| == 0 {
      NothingInEmpty(content, maxLines, maxBytes);
      return [];
    }
    var chunks := ScanBack(content, maxLines, cap);
    var buf := JoinChunks(chunks);
    var all := DropBlankLines(Split(buf));
    if |all| <= maxLines {
      return all;
    }
    return all[|all| - maxLines..];
  }

  method DropBlankLines(lines: seq<Line>) returns (all: seq<Line>)
    ensures all == TrimBlank(lines)
  {
    all := lines;
    while |all| > 0 && Blank(all[|all| - 1])
      invariant TrimBlank(all) == TrimBlank(lines)
      decreases |all|
    {
      all := all[..|all| - 1];
    }
  }

  /** One turn of the block loop. */
  lemma ScanStep(content: Line, maxLines: nat, maxBytes: nat, offset: nat)
    requires offset <= |content|
    ensures ScanOffset(content, maxLines, maxBytes, offset)
            == if offset > 0 && |content| - offset < maxBytes && Newlines(content[offset..]) <= maxLines
               then ScanOffset(content, maxLines, maxBytes, offset - Min(BLOCK_SIZE, offset))
               else offset
  {}

  lemma BlockInFront(content: Line, offset: nat, step: nat, chunks: seq<Line>)
    requires step <= offset <= |content| && Joined(chunks) == content[offset..]
    ensures var b := content[offset - step..offset];
            && Joined(chunks + [b]) == content[offset - step..]
            && Newlines(content[offset - step..]) == Newlines(content[offset..]) + Newlines(b)
  {
    var b := content[offset - step..offset];
    assert content[offset - step..] == b + content[offset..];
    JoinedAppend(chunks, b);
    NewlinesAppend(b, content[offset..]);
  }

  /** The blocks read, last block of the file first. */
  method ScanBack(content: Line, maxLines: nat, cap: nat) returns (chunks: seq<Line>)
    ensures Joined(chunks) == content[ScanOffset(content, maxLines, cap, |content|)..]
  {
    assert content[|content|..] == [] && Newlines([]) == 0 && Joined([]) == [];
    hide Joined, Newlines, ScanOffset;
    var offset := |content|;
    var readBytes := 0;
    var newlines: nat := 0;
    chunks := [];
    while offset > 0 && readBytes < cap && newlines <= maxLines
      invariant 0 <= offset <= |content| && readBytes == |content| - offset
      invariant newlines == Newlines(content[offset..])
      invariant Joined(chunks) == content[offset..]
      invariant ScanOffset(content, maxLines, cap, |content|) == ScanOffset(content, maxLines, cap, offset)
      decreases offset
    {
      var step := BLOCK_SIZE;
      if offset < step {
        step := offset;
      }
      ScanStep(content, maxLines, cap, offset);
      BlockInFront(content, offset, step, chunks);
      offset := offset - step;
      var b := content[offset..offset + step];
      chunks := chunks + [b];
      readBytes := readBytes + |b|;
      var count := CountNewlines(b);
      newlines := newlines + count;
    }
    ScanStep(content, maxLines, cap, offset);
  }

  method JoinChunks(chunks: seq<Line>) returns (buf: Line)
    ensures buf == Joined(chunks)
  {
    buf := [];
    var i := |chunks|;
    assert chunks[..i] == chunks && buf + Joined(chunks) == Joined(chunks);
    while i > 0
      invariant 0 <= i <= |chunks|
      invariant buf + Joined(chunks[..i]) == Joined(chunks)
    {
      i := i - 1;
      JoinedAppend(chunks[..i], chunks[i]);
      assert chunks[..i + 1] == chunks[..i] + [chunks[i]];
      buf := buf + chunks[i];
    }
    assert chunks[..0] == [];
  }

  // ---------------------------------------------------------- splitting a suffix

  /** The last line of `x` run together with the first of `y`. */
  function Glue(x: seq<Line>, y: seq<Line>): seq<Line>
    requires |x| > 0 && |y| > 0
  {
    x[..|x| - 1] + [x[|x| - 1] + y[0]] + y[1..]
  }

  function Prefixed(c: char, x: seq<Line>): (r: seq<Line>)
    requires |x| > 0
    ensures |r| == |x|
  {
    [[c] + x[0]] + x[1..]
  }

  lemma GluePrefixed(c: char, x: seq<Line>, y: seq<Line>)
    requires |x| > 0 && |y| > 0
    ensures Glue(Prefixed(c, x), y) == Prefixed(c, Glue(x, y))
  {
    if |x| == 1 {
      assert [c] + x[0] + y[0] == [c] + (x[0] + y[0]);
    } else {
      assert Prefixed(c, x)[|x| - 1] == x[|x| - 1];
    }
  }

  lemma GlueNewLine(x: seq<Line>, y: seq<Line>)
    requires |x| > 0 && |y| > 0
    ensures Glue([[]] + x, y) == [[]] + Glue(x, y)
  {
    assert ([[]] + x)[..|x|] == [[]] + x[..|x| - 1];
  }

  lemma SplitFirst(s: Line)
    requires |s| > 0
    ensures Split(s) == if s[0] == '\n' then [[]] + Split(s[1..]) else Prefixed(s[0], Split(s[1..]))
  {}

  lemma {:induction false} SplitAppend(a: Line, b: Line)
    ensures Split(a + b) == Glue(Split(a), Split(b))
  {
    if |a| == 0 {
      assert a + b == b && [] + Split(b)[0] == Split(b)[0];
    } else {
      SplitFirst(a);
      SplitFirst(a + b);
      hide Glue, Prefixed, Split;
      var t := a[1..];
      SplitAppend(t, b);
      assert (a + b)[1..] == t + b;
      if a[0] == '\n' {
        GlueNewLine(Split(t), Split(b));
      } else {
        GluePrefixed(a[0], Split(t), Split(b));
      }
    }
  }

  lemma {:induction false} LastPieceEmpty(p: Line)
    requires |p| > 0
    ensures Split(p)[Newlines(p)] == [] <==> p[|p| - 1] == '\n'
  {
    var init, last := p[..|p| - 1], [p[|p| - 1]];
    SplitAppend(init, last);
    assert p == init + last;
    NewlinesAppend(init, last);
    assert last[1..] == [];
    assert Split([]) == [[]];
  }

  lemma {:induction false} NoNewlineOnePiece(p: Line)
    requires Newlines(p) == 0
    ensures Split(p) == [p]
  {
    if |p| > 0 {
      NoNewlineOnePiece(p[1..]);
      assert p == [p[0]] + p[1..];
    }
  }

  lemma {:induction false} TrimIsUnique(lines: seq<Line>, k: nat)
    requires k <= |lines| && (k > 0 ==> !Blank(lines[k - 1]))
    requires forall i :: k <= i < |lines| ==> Blank(lines[i])
    ensures TrimBlank(lines) == lines[..k]
  {
    if k < |lines| {
      TrimIsUnique(lines[..|lines| - 1], k);
    }
  }

  lemma NonBlankTail(a: Line, b: Line)
    requires !Blank(b)
    ensures !Blank(a + b)
  {
    var i :| 0 <= i < |b| && !IsSpace(b[i]);
    assert (a + b)[|a| + i] == b[i];
  }

  lemma GlueAt(x: seq<Line>, y: seq<Line>, i: nat)
    requires |x| > 0 && i < |y|
    ensures |Glue(x, y)| == |x| - 1 + |y|
    ensures Glue(x, y)[|x| - 1 + i] == if i == 0 then x[|x| - 1] + y[0] else y[i]
  {}

  lemma GluePrefix(x: seq<Line>, y: seq<Line>, k: nat)
    requires |x| > 0 && 0 < k <= |y|
    ensures Glue(x, y)[..|x| - 1 + k] == Glue(x, y[..k])
  {
    GlueAt(x, y, 0);
    GlueAt(x, y[..k], 0);
  }

  lemma {:induction false} TrimGlued(x: seq<Line>, y: seq<Line>)
    requires |x| > 0 && |y| > 0 && |TrimBlank(y)| > 0
    ensures TrimBlank(Glue(x, y)) == Glue(x, TrimBlank(y))
    decreases |y|
  {
    hide TrimBlank, Blank, Glue;
    var n := |y| - 1;
    GlueAt(x, y, n);
    TrimStep(y);
    TrimStep(Glue(x, y));
    if Blank(y[n]) {
      TrimGlued(x, y[..n]);
      GluePrefix(x, y, n);
    } else if n == 0 {
      NonBlankTail(x[|x| - 1], y[0]);
    }
  }

  ghost predicate AllBlank(content: Line) {
    TrimBlank(Split(content)) == []
  }

  /** Lines left after trimming the part of the file the scan has read. */
  function LinesKept(content: Line, off: nat): nat
    requires off <= |content|
  {
    |TrimBlank(Split(content[off..]))|
  }

  /** `g` ends like `y`, but for the line at which `y` begins. */
  ghost predicate EndsLike(g: seq<Line>, y: seq<Line>) {
    |y| <= |g| && forall i :: 0 < i < |y| ==> g[|g| - |y| + i] == y[i]
  }

  lemma LastNWithin(g: seq<Line>, y: seq<Line>, n: nat)
    requires EndsLike(g, y) && |y| > n
    ensures LastN(g, n) == LastN(y, n)
  {}

  lemma LastNWhole(g: seq<Line>, y: seq<Line>)
    requires EndsLike(g, y) && |y| > 0
    ensures LastN(g, |y|) == LastN(y, |y|) <==> g[|g| - |y|] == y[0]
  {
    assert LastN(g, |y|) == g[|g| - |y|..] && LastN(y, |y|) == y;
    if g[|g| - |y|] != y[0] {
      assert g[|g| - |y|..][0] != y[0];
    }
  }

  lemma LastNBeyond(g: seq<Line>, y: seq<Line>, n: nat)
    requires 0 < |y| <= |g| && |y| < n && (|g| == |y| ==> g[0] != y[0])
    ensures LastN(g, n) != LastN(y, n)
  {}

  /** The last lines of a glued list against those of its second part. */
  lemma LastNGlued(x: seq<Line>, y: seq<Line>, n: nat)
    requires |x| > 0 && |y| > 0 && n > 0
    requires |x| == 1 ==> x[0] != []
    ensures LastN(y, n) == LastN(Glue(x, y), n) <==> |y| > n || (|y| == n && x[|x| - 1] == [])
  {
    hide LastN;
    var g, last := Glue(x, y), x[|x| - 1];
    assert last + y[0] == y[0] <==> last == [] by {
      assert |last + y[0]| == |last| + |y[0]| && (last == [] ==> last + y[0] == y[0]);
    }
    assert EndsLike(g, y) && g[|g| - |y|] == last + y[0];
    if |y| > n {
      LastNWithin(g, y, n);
    } else if |y| == n {
      LastNWhole(g, y);
    } else {
      LastNBeyond(g, y, n);
    }
  }

  lemma SuffixAgrees(content: Line, off: nat, maxLines: nat)
    requires 0 < off <= |content| && maxLines > 0 && LinesKept(content, off) > 0
    ensures LastN(TrimBlank(Split(content[off..])), maxLines) == Simple(content, maxLines)
       <==> LinesKept(content, off) > maxLines || (LinesKept(content, off) == maxLines && content[off - 1] == '\n')
  {
    hide Split, TrimBlank, Glue, LastN, Newlines;
    var p, s := content[..off], content[off..];
    assert content == p + s;
    SplitAppend(p, s);
    TrimGlued(Split(p), Split(s));
    LastPieceEmpty(p);
    if Newlines(p) == 0 {
      NoNewlineOnePiece(p);
    }
    LastNGlued(Split(p), TrimBlank(Split(s)), maxLines);
  }

  lemma AllBlankSuffix(content: Line, off: nat)
    requires off <= |content| && AllBlank(content)
    ensures LinesKept(content, off) == 0
  {
    var p, s := content[..off], content[off..];
    assert content == p + s;
    SplitAppend(p, s);
    if |TrimBlank(Split(s))| > 0 {
      TrimGlued(Split(p), Split(s));
      assert false;
    }
  }

  /** What the backward scan returns. */
  function Backward(content: Line, maxLines: nat, maxBytes: int): seq<Line> {
    LastN(TrimBlank(Split(content[StopOffset(content, maxLines, maxBytes)..])), maxLines)
  }

  /** The backward scan returns the simple version's lines if and only if it read the whole
      file, or kept more lines than were asked for, or kept exactly as many and stopped
      right behind a newline, or there is nothing but blank lines. */
  lemma BackwardScanExact(content: Line, maxLines: nat, maxBytes: int)
    requires maxLines > 0
    ensures var off := StopOffset(content, maxLines, maxBytes);
            Backward(content, maxLines, maxBytes) == Simple(content, maxLines)
            <==> || off == 0
                 || LinesKept(content, off) > maxLines
                 || (LinesKept(content, off) == maxLines && content[off - 1] == '\n')
                 || AllBlank(content)
  {
    hide Split, TrimBlank, Newlines, StopOffset;
    var off := StopOffset(content, maxLines, maxBytes);
    if off == 0 {
      assert content[0..] == content;
    } else if AllBlank(content) {
      AllBlankSuffix(content, off);
    } else if LinesKept(content, off) > 0 {
      SuffixAgrees(content, off, maxLines);
    }
  }

  lemma {:induction false} StopReason(content: Line, maxLines: nat, maxBytes: nat, offset: nat)
    requires offset <= |content|
    ensures var r := ScanOffset(content, maxLines, maxBytes, offset);
            r == 0 || |content| - r >= maxBytes || Newlines(content[r..]) > maxLines
    decreases offset
  {
    if offset > 0 && |content| - offset < maxBytes && Newlines(content[offset..]) <= maxLines {
      StopReason(content, maxLines, maxBytes, offset - Min(BLOCK_SIZE, offset));
    }
  }

  /** If the byte cap does not stop the scan, because it reads the whole file or finds enough
      newlines, and the file's last line is not blank, leaving aside one final newline, the
      backward scan refines the simple version. */
  lemma BackwardScanRefines(content: Line, maxLines: nat, maxBytes: int)
    requires maxLines > 0
    requires var off := StopOffset(content, maxLines, maxBytes);
             off == 0 || Newlines(content[off..]) > maxLines
    requires |TrimBlank(Split(content))| >= |Split(content)| - 1
    ensures Backward(content, maxLines, maxBytes) == Simple(content, maxLines)
  {
    var off := StopOffset(content, maxLines, maxBytes);
    BackwardScanExact(content, maxLines, maxBytes);
    if off > 0 {
      FewBlankBehind(content, off);
    }
  }

  /** A scan that ends below the cap was not stopped by it. */
  lemma BelowCapNotStopped(content: Line, maxLines: nat, maxBytes: int)
    requires |content| - StopOffset(content, maxLines, maxBytes) < EffectiveCap(maxBytes)
    ensures var off := StopOffset(content, maxLines, maxBytes);
            off == 0 || Newlines(content[off..]) > maxLines
  {
    StopReason(content, maxLines, EffectiveCap(maxBytes), |content|);
  }

  /** Why the scan ends, and that it reads no further: at the start of the file, at the cap or
      with enough newlines; before its last block it was below the cap with too few. */
  lemma ScanEndsExactly(content: Line, maxLines: nat, maxBytes: int)
    ensures var off := StopOffset(content, maxLines, maxBytes);
            var cap := if maxBytes > 0 then maxBytes else 1048576;
            && (off == 0 || |content| - off >= cap || Newlines(content[off..]) > maxLines)
            && (off < |content| ==>
                  exists last :: off < last <= |content| && last - off <= 32768
                                 && |content| - last < cap && Newlines(content[last..]) <= maxLines)
  {
    StopReason(content, maxLines, EffectiveCap(maxBytes), |content|);
    LastBlock(content, maxLines, EffectiveCap(maxBytes), |content|);
  }

  lemma {:induction false} LastBlock(content: Line, maxLines: nat, maxBytes: nat, offset: nat)
    requires offset <= |content|
    ensures var off := ScanOffset(content, maxLines, maxBytes, offset);
            off < offset ==>
              exists last :: off < last <= |content| && last - off <= BLOCK_SIZE
                             && |content| - last < maxBytes && Newlines(content[last..]) <= maxLines
    decreases offset
  {
    if offset > 0 && |content| - offset < maxBytes && Newlines(content[offset..]) <= maxLines {
      var next := offset - Min(BLOCK_SIZE, offset);
      LastBlock(content, maxLines, maxBytes, next);
      assert ScanOffset(content, maxLines, maxBytes, next) == next ==>
               next < offset <= |content| && offset - next <= BLOCK_SIZE;
    }
  }

  /** One blank line at the end of the file is at most one at the end of a longer suffix. */
  lemma FewBlankBehind(content: Line, off: nat)
    requires off <= |content| && Newlines(content[off..]) >= 2
    requires |TrimBlank(Split(content))| >= |Split(content)| - 1
    ensures LinesKept(content, off) >= Newlines(content[off..])
  {
    hide Split, TrimBlank, Newlines, Blank;
    var p, s := content[..off], content[off..];
    assert content == p + s;
    SplitAppend(p, s);
    var ss, whole := Split(s), Split(content);
    var n := |ss|;
    assert whole[|whole| - 2] == ss[n - 2] && whole[|whole| - 1] == ss[n - 1];
    assert !Blank(ss[n - 2]) || !Blank(ss[n - 1]);
    assert n - 1 <= |TrimBlank(ss)|;
  }

  // -------------------------------------------------------------- blank endings

  function Repeat(n: nat): Line {
    seq(n, i => '\n')
  }

  lemma {:induction false} RepeatSplit(n: nat)
    ensures Newlines(Repeat(n)) == n && TrimBlank(Split(Repeat(n))) == []
    ensures forall i :: 0 <= i < |Split(Repeat(n))| ==> Split(Repeat(n))[i] == []
  {
    if n > 0 {
      RepeatSplit(n - 1);
      assert Repeat(n)[1..] == Repeat(n - 1);
    }
    TrimIsUnique(Split(Repeat(n)), 0);
  }

  /** Where the proviso fails: a line followed by more blank lines than a block holds is
      not found at all, although the simple version returns it. */
  lemma BlankEndingHidesLine(n: nat, maxLines: nat, maxBytes: int)
    requires n >= BLOCK_SIZE > maxLines > 0
    ensures Backward(['x'] + Repeat(n), maxLines, maxBytes) == []
    ensures Simple(['x'] + Repeat(n), maxLines) == [['x']]
  {
    BlankBlockFindsNothing(n, maxLines, maxBytes);
    SimpleFindsLine(n, maxLines);
  }

  lemma BlankBlockFindsNothing(n: nat, maxLines: nat, maxBytes: int)
    requires n >= BLOCK_SIZE > maxLines > 0
    ensures Backward(['x'] + Repeat(n), maxLines, maxBytes) == []
  {
    hide Split, TrimBlank;
    var content := ['x'] + Repeat(n);
    var off := |content| - BLOCK_SIZE;
    assert content[|content|..] == [] && content[off..] == Repeat(BLOCK_SIZE);
    RepeatSplit(BLOCK_SIZE);
    assert StopOffset(content, maxLines, maxBytes) == ScanOffset(content, maxLines, EffectiveCap(maxBytes), off) == off;
  }

  lemma SimpleFindsLine(n: nat, maxLines: nat)
    requires n > 0 && maxLines > 0
    ensures Simple(['x'] + Repeat(n), maxLines) == [['x']]
  {
    hide TrimBlank;
    var content := ['x'] + Repeat(n);
    RepeatSplit(n);
    assert content[1..] == Repeat(n);
    var lines := Split(content);
    assert lines[0] == ['x'] + Split(Repeat(n))[0];
    assert forall i :: 1 <= i < |lines| ==> lines[i] == Split(Repeat(n))[i];
    assert lines[0] == ['x'] && !IsSpace(lines[0][0]);
    TrimIsUnique(lines, 1);
    assert lines[..1] == [['x']];
  }
}
