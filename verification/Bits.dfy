/** Bytes as numbers below 256, the bit string a byte string spells (most significant
    bit first), and the hand-written bit reader and writer over them. */
module Bits {
  import opened Common

  type Byte = n: nat | n < 256

  function Num(b: bool): nat {
    if b then 1 else 0
  }

  function Pow2(n: nat): nat {
    if n == 0 then 1 else 2 * Pow2(n - 1)
  }

  /** `v >> i` */
  function Shr(v: nat, i: nat): nat {
    if i == 0 then v else Shr(v / 2, i - 1)
  }

  /** The low `n` bits of `v`, most significant first. */
  function ToBits(n: nat, v: nat): (s: seq<bool>)
    ensures |s| == n
  {
    if n == 0 then [] else ToBits(n - 1, v / 2) + [v % 2 == 1]
  }

  function Value(s: seq<bool>): nat {
    if |s| == 0 then 0 else 2 * Value(s[..|s| - 1]) + Num(s[|s| - 1])
  }

  lemma {:induction false} ValueFits(s: seq<bool>)
    ensures Value(s) < Pow2(|s|)
  {
    if |s| > 0 {
      ValueFits(s[..|s| - 1]);
    }
  }

  lemma {:induction false} BitsOfValue(s: seq<bool>)
    ensures ToBits(|s|, Value(s)) == s
  {
    if |s| > 0 {
      BitsOfValue(s[..|s| - 1]);
      assert Value(s) / 2 == Value(s[..|s| - 1]);
    }
  }

  lemma {:induction false} ValueOfBits(n: nat, v: nat)
    requires v < Pow2(n)
    ensures Value(ToBits(n, v)) == v
  {
    if n > 0 {
      ValueOfBits(n - 1, v / 2);
      assert ToBits(n, v)[..n - 1] == ToBits(n - 1, v / 2);
    }
  }

  lemma {:induction false} ToBitsAt(n: nat, v: nat, k: nat)
    requires k < n
    ensures ToBits(n, v)[k] == (Shr(v, n - 1 - k) % 2 == 1)
  {
    if k < n - 1 {
      ToBitsAt(n - 1, v / 2, k);
    }
  }

  lemma SmallPowers()
    ensures Pow2(1) == 2 && Pow2(2) == 4 && Pow2(3) == 8 && Pow2(4) == 16 && Pow2(8) == 256
  {
    assert Pow2(4) == 2 * Pow2(3);
    assert Pow2(5) == 32;
    assert Pow2(6) == 64;
    assert Pow2(7) == 128;
  }

  function ByteOf(s: seq<bool>): (b: Byte)
    requires |s| == 8
    ensures ToBits(8, b) == s
  {
    ValueFits(s);
    SmallPowers();
    BitsOfValue(s);
    Value(s)
  }

  /** `b & (1 << (7 - k)) != 0` */
  predicate Bit(b: Byte, k: nat)
    requires k < 8
  {
    ToBits(8, b)[k]
  }

  /** `b | (1 << (7 - k))` */
  function SetBit(b: Byte, k: nat): Byte
    requires k < 8
  {
    ByteOf(ToBits(8, b)[k := true])
  }

  lemma SliceOfSlice<T>(s: seq<T>, i: nat, j: nat, k: nat, l: nat)
    requires i <= j <= |s| && k <= l <= j - i
    ensures s[i..j][k..l] == s[i + k..i + l]
  {
    var a, b := s[i..j][k..l], s[i + k..i + l];
    forall x | 0 <= x < l - k
      ensures a[x] == b[x]
    {
      assert a[x] == s[i..j][k + x];
    }
  }

  // ------------------------------------------------------------- byte strings

  /** The bits of a byte string, first byte first. */
  function BitsOf(data: seq<Byte>): (s: seq<bool>)
    ensures |s| == 8 * |data|
  {
    if |data| == 0 then [] else ToBits(8, data[0]) + BitsOf(data[1..])
  }

  lemma {:induction false} BitsOfAt(data: seq<Byte>, i: nat)
    requires i < 8 * |data|
    ensures BitsOf(data)[i] == Bit(data[i / 8], i % 8)
  {
    if i >= 8 {
      BitsOfAt(data[1..], i - 8);
      assert (i - 8) / 8 == i / 8 - 1 && (i - 8) % 8 == i % 8;
    }
  }

  function Zeros(n: nat): (s: seq<bool>)
    ensures |s| == n && forall i :: 0 <= i < n ==> !s[i]
  {
    seq(n, i => false)
  }

  function ByteCount(bits: nat): nat {
    (bits + 7) / 8
  }

  /** `s` rounded up to whole bytes with zero bits. */
  function Padded(s: seq<bool>): (p: seq<bool>)
    ensures |p| == 8 * ByteCount(|s|)
  {
    s + Zeros(8 * ByteCount(|s|) - |s|)
  }

  function Pack(s: seq<bool>): (data: seq<Byte>)
    ensures |data| == ByteCount(|s|)
  {
    var p := Padded(s);
    seq(ByteCount(|s|), j requires 0 <= j < ByteCount(|s|) => ByteOf(p[8 * j..8 * j + 8]))
  }

  lemma BitsOfPack(s: seq<bool>)
    ensures BitsOf(Pack(s)) == Padded(s)
  {
    var p := Padded(s);
    forall i | 0 <= i < |p|
      ensures BitsOf(Pack(s))[i] == p[i]
    {
      BitsOfAt(Pack(s), i);
      assert p[8 * (i / 8)..8 * (i / 8) + 8][i % 8] == p[i];
    }
  }

  lemma SameBitsSameByte(a: Byte, b: Byte)
    requires ToBits(8, a) == ToBits(8, b)
    ensures a == b
  {
    SmallPowers();
    ValueOfBits(8, a);
    ValueOfBits(8, b);
  }

  lemma {:induction false} SameBitsSameBytes(a: seq<Byte>, b: seq<Byte>)
    requires BitsOf(a) == BitsOf(b)
    ensures a == b
  {
    if |a| > 0 {
      assert |a| == |b|;
      assert BitsOf(a)[..8] == ToBits(8, a[0]) && BitsOf(a)[8..] == BitsOf(a[1..]);
      assert BitsOf(b)[..8] == ToBits(8, b[0]) && BitsOf(b)[8..] == BitsOf(b[1..]);
      SameBitsSameByte(a[0], b[0]);
      SameBitsSameBytes(a[1..], b[1..]);
    }
  }

  lemma PackOfBits(data: seq<Byte>)
    ensures Pack(BitsOf(data)) == data
  {
    BitsOfPack(BitsOf(data));
    SameBitsSameBytes(Pack(BitsOf(data)), data);
  }

  lemma {:induction false} BitsOfSetBit(data: seq<Byte>, i: nat)
    requires i < 8 * |data|
    ensures BitsOf(data[i / 8 := SetBit(data[i / 8], i % 8)]) == BitsOf(data)[i := true]
  {
    var next := data[i / 8 := SetBit(data[i / 8], i % 8)];
    if i >= 8 {
      var rest := data[1..];
      BitsOfSetBit(rest, i - 8);
      assert (i - 8) / 8 == i / 8 - 1 && (i - 8) % 8 == i % 8;
      assert next[1..] == rest[i / 8 - 1 := SetBit(rest[i / 8 - 1], i % 8)];
    } else {
      assert next[1..] == data[1..];
    }
  }

  lemma {:induction false} BitsOfZeros(data: seq<Byte>)
    requires forall j :: 0 <= j < |data| ==> data[j] == 0
    ensures BitsOf(data) == Zeros(8 * |data|)
  {
    ZeroBits(8);
    if |data| > 0 {
      BitsOfZeros(data[1..]);
    }
  }

  lemma ZeroBits(n: nat)
    ensures ToBits(n, 0) == Zeros(n)
  {}

  /** A buffer of `len` bits that holds the first `i` bits of `s` and zeros after. */
  function Filled(s: seq<bool>, i: nat, len: nat): seq<bool>
    requires i <= |s| && i <= len
  {
    s[..i] + Zeros(len - i)
  }

  lemma FillNext(s: seq<bool>, i: nat, len: nat)
    requires i < |s| && i < len
    ensures Filled(s, i + 1, len) == if s[i] then Filled(s, i, len)[i := true] else Filled(s, i, len)
  {}

  lemma FilledIsPadded(s: seq<bool>, data: seq<Byte>)
    requires |data| == ByteCount(|s|) && BitsOf(data) == Filled(s, |s|, 8 * |data|)
    ensures data == Pack(s)
  {
    BitsOfPack(s);
    assert Filled(s, |s|, 8 * |data|) == Padded(s);
    SameBitsSameBytes(data, Pack(s));
  }

  method SetSpeechBit(speech: array<Byte>, index: nat)
    requires index < 8 * speech.Length
    modifies speech
    ensures BitsOf(speech[..]) == BitsOf(old(speech[..]))[index := true]
  {
    ghost var before := speech[..];
    speech[index / 8] := SetBit(speech[index / 8], index % 8);
    assert speech[..] == before[index / 8 := SetBit(before[index / 8], index % 8)];
    BitsOfSetBit(before, index);
  }

  method NewBuffer(n: nat) returns (out: array<Byte>)
    ensures fresh(out) && out.Length == n && BitsOf(out[..]) == Zeros(8 * n)
  {
    out := new Byte[n](_ => 0);
    BitsOfZeros(out[..]);
  }

  // ------------------------------------------------------------- the bit reader

  class AmrBitReader {
    const data: seq<Byte>
    var bit: nat

    ghost predicate Valid()
      reads this
    {
      bit <= 8 * |data|
    }

    constructor (payload: seq<Byte>)
      ensures data == payload && bit == 0 && Valid()
    {
      data := payload;
      bit := 0;
    }

    function Remaining(): nat
      requires Valid()
      reads this
    {
      |data| * 8 - bit
    }

    /** The next `n` bits as a number; at end of data, or for more than a byte, nothing
        is consumed. */
    method Read(n: nat) returns (r: Option<nat>)
      requires Valid()
      modifies this
      ensures Valid()
      ensures r.Some? == (n == 0 || (n <= 8 && old(bit) + n <= 8 * |data|))
      ensures r.Some? ==> bit == old(bit) + n && r.value == Value(BitsOf(data)[old(bit)..bit]) < Pow2(n)
      ensures r.None? ==> bit == old(bit)
    {
      if n == 0 {
        return Some(0);
      }
      if n > 8 || Remaining() < n {
        return None;
      }
      var value: nat := 0;
      for i := 0 to n
        invariant bit == old(bit) + i && Valid() && old(bit) + n <= 8 * |data|
        invariant value == Value(BitsOf(data)[old(bit)..bit])
      {
        ghost var s := BitsOf(data)[old(bit)..bit + 1];
        assert s[..|s| - 1] == BitsOf(data)[old(bit)..bit];
        BitsOfAt(data, bit);
        value := value * 2;
        if Bit(data[bit / 8], bit % 8) {
          value := value + 1;
        }
        bit := bit + 1;
      }
      ValueFits(BitsOf(data)[old(bit)..bit]);
      return Some(value);
    }

    method ReadBit() returns (r: Option<bool>)
      requires Valid()
      modifies this
      ensures Valid()
      ensures r.Some? == (old(bit) < 8 * |data|)
      ensures r.Some? ==> bit == old(bit) + 1 && r.value == BitsOf(data)[old(bit)]
      ensures r.None? ==> bit == old(bit)
    {
      var v := Read(1);
      if v.None? {
        return None;
      }
      ghost var s := BitsOf(data)[old(bit)..bit];
      assert Value(s[..0]) == 0;
      return Some(v.value == 1);
    }

    method ReadBitsAsBytes(n: nat) returns (r: Option<seq<Byte>>)
      requires Valid()
      modifies this
      ensures Valid()
      ensures r.Some? == (old(bit) + n <= 8 * |data|)
      ensures r.Some? ==> bit == old(bit) + n && r.value == Pack(BitsOf(data)[old(bit)..bit])
      ensures r.None? ==> bit == old(bit)
    {
      if n == 0 {
        assert BitsOf(data)[bit..bit] == [];
        return Some([]);
      }
      if Remaining() < n {
        return None;
      }
      var out := NewBuffer((n + 7) / 8);
      ghost var s := BitsOf(data)[old(bit)..old(bit) + n];
      for i := 0 to n
        invariant bit == old(bit) + i && Valid() && old(bit) + n <= 8 * |data|
        invariant BitsOf(out[..]) == Filled(s, i, 8 * out.Length)
      {
        var b := ReadBit();
        assert b.value == s[i];
        FillNext(s, i, 8 * out.Length);
        if b.value {
          SetSpeechBit(out, i);
        }
      }
      FilledIsPadded(s, out[..]);
      return Some(out[..]);
    }
  }

  // ------------------------------------------------------------- the bit writer

  class AmrBitWriter {
    var bits: seq<bool>

    constructor ()
      ensures bits == []
    {
      bits := [];
    }

    method Write(n: nat, value: nat)
      modifies this
      ensures bits == old(bits) + ToBits(n, value)
    {
      ghost var s := ToBits(n, value);
      var i := n;
      while i > 0
        invariant 0 <= i <= n
        invariant bits == old(bits) + s[..n - i]
      {
        i := i - 1;
        ToBitsAt(n, value, n - 1 - i);
        assert s[..n - i] == s[..n - i - 1] + [s[n - i - 1]];
        bits := bits + [Shr(value, i) % 2 == 1];
      }
      assert s[..n] == s;
    }

    method WriteBytes(data: seq<Byte>, nbits: nat)
      requires nbits <= 8 * |data|
      modifies this
      ensures bits == old(bits) + BitsOf(data)[..nbits]
    {
      ghost var s := BitsOf(data);
      for i := 0 to nbits
        invariant bits == old(bits) + s[..i]
      {
        BitsOfAt(data, i);
        assert s[..i + 1] == s[..i] + [s[i]];
        bits := bits + [Bit(data[i / 8], i % 8)];
      }
    }

    method Bytes() returns (r: seq<Byte>)
      ensures r == Pack(bits)
    {
      var out := NewBuffer((|bits| + 7) / 8);
      for i := 0 to |bits|
        invariant BitsOf(out[..]) == Filled(bits, i, 8 * out.Length)
      {
        FillNext(bits, i, 8 * out.Length);
        if bits[i] {
          SetSpeechBit(out, i);
        }
      }
      FilledIsPadded(bits, out[..]);
      return out[..];
    }
  }
}
