/** Bit streams packed into bytes: LSB first (UCI payloads, CORESET frequency bitmaps) and MSB first
    (DCI payloads). */
module Bits {
  import opened Wire

  datatype Order = LsbFirst | MsbFirst

  /** Bit `k` of a byte, `(b >> k) & 1`: shift right `k` times, keep the low bit. */
  predicate Bit(b: nat, k: nat)
  {
    if k == 0 then b % 2 == 1 else Bit(b / 2, k - 1)
  }

  /** `b | (1 << k)`. */
  function SetBit(b: nat, k: nat): nat
  {
    if k == 0 then b / 2 * 2 + 1 else b % 2 + 2 * SetBit(b / 2, k - 1)
  }

  function Pow2(n: nat): (p: nat)
    ensures p > 0
  {
    if n == 0 then 1 else 2 * Pow2(n - 1)
  }

  /** The number whose binary digits, low end first, are `s`. */
  function Value(s: seq<bool>): (v: nat)
    ensures v < Pow2(|s|)
  {
    if s == [] then 0 else (if s[0] then 1 else 0) + 2 * Value(s[1..])
  }

  function ByteValue(s: seq<bool>): Byte
    requires |s| == 8
  {
    assert Pow2(8) == 0x100 by { assert Pow2(4) == 16; }
    Value(s)
  }

  lemma {:induction false} BitOfValue(s: seq<bool>, k: nat)
    requires k < |s|
    ensures Bit(Value(s), k) == s[k]
  {
    var v, low := Value(s[1..]), if s[0] then 1 else 0;
    HalfOf(low, v);
    if k > 0 {
      BitOfValue(s[1..], k - 1);
    }
  }

  lemma HalfOf(low: nat, v: nat)
    requires low < 2
    ensures (low + 2 * v) / 2 == v && (low + 2 * v) % 2 == low
  {
  }

  lemma {:induction false} SetBitOfValue(s: seq<bool>, k: nat)
    requires k < |s|
    ensures SetBit(Value(s), k) == Value(s[k := true])
  {
    HalfOf(if s[0] then 1 else 0, Value(s[1..]));
    if k == 0 {
      assert s[0 := true][1..] == s[1..];
    } else {
      SetBitOfValue(s[1..], k - 1);
      assert s[k := true][1..] == s[1..][k - 1 := true];
    }
  }

  /** The lane of stream bit `i` in its byte. */
  function Lane(order: Order, i: nat): (k: nat)
    ensures k < 8
  {
    if order == LsbFirst then i % 8 else 7 - i % 8
  }

  /** The least number of bytes that hold so many bits. */
  function BytesFor(nofBits: nat): (n: nat)
    ensures nofBits <= 8 * n < nofBits + 8
  {
    (nofBits + 7) / 8
  }

  predicate StreamBit(order: Order, bytes: seq<Byte>, i: nat)
    requires i / 8 < |bytes|
  {
    Bit(bytes[i / 8], Lane(order, i))
  }

  function Unpack(order: Order, bytes: seq<Byte>, n: nat): (bits: seq<bool>)
    requires BytesFor(n) <= |bytes|
    ensures |bits| == n
    ensures forall i :: 0 <= i < n ==> bits[i] == StreamBit(order, bytes, i)
  {
    seq(n, i requires 0 <= i < n => StreamBit(order, bytes, i))
  }

  /** The stream index that lands in lane `k` of byte `j`. */
  function StreamIndex(order: Order, j: nat, k: nat): nat
    requires k < 8
  {
    8 * j + if order == LsbFirst then k else 7 - k
  }

  /** The eight lanes of byte `j`; positions past the end of the stream are zero. */
  function Lanes(order: Order, bits: seq<bool>, j: nat): (s: seq<bool>)
    ensures |s| == 8
  {
    seq(8, k requires 0 <= k < 8 => StreamIndex(order, j, k) < |bits| && bits[StreamIndex(order, j, k)])
  }

  function PackByte(order: Order, bits: seq<bool>, j: nat): Byte
  {
    ByteValue(Lanes(order, bits, j))
  }

  /** The stream in exactly `n` bytes, zero filled. */
  function Pack(order: Order, bits: seq<bool>, n: nat): (bytes: seq<Byte>)
    ensures |bytes| == n
    ensures forall j :: 0 <= j < n ==> bytes[j] == PackByte(order, bits, j)
  {
    seq(n, j requires 0 <= j < n => PackByte(order, bits, j))
  }

  lemma LaneOfStreamBit(order: Order, i: nat)
    ensures StreamIndex(order, i / 8, Lane(order, i)) == i
  {
  }

  lemma PackByteBit(order: Order, bits: seq<bool>, i: nat)
    ensures Bit(PackByte(order, bits, i / 8), Lane(order, i)) == (i < |bits| && bits[i])
  {
    LaneOfStreamBit(order, i);
    BitOfValue(Lanes(order, bits, i / 8), Lane(order, i));
  }

  /** Every bit position of the packed bytes reads back as the stream bit, and as zero past its end. */
  lemma PackedBits(order: Order, bits: seq<bool>, n: nat)
    ensures forall i {:trigger StreamBit(order, Pack(order, bits, n), i)} ::
              0 <= i < 8 * n ==> StreamBit(order, Pack(order, bits, n), i) == (i < |bits| && bits[i])
  {
    forall i | 0 <= i < 8 * n
      ensures StreamBit(order, Pack(order, bits, n), i) == (i < |bits| && bits[i])
    {
      PackByteBit(order, bits, i);
    }
  }

  /** The same place by place: low bit first, stream bit `i` is bit `i % 8` of its byte, high bit first it is bit
      `7 - i % 8`, and both are zero past the end. */
  lemma PackedPlaces(bits: seq<bool>, n: nat, i: nat)
    requires i < 8 * n
    ensures Bit(Pack(LsbFirst, bits, n)[i / 8], i % 8) == (i < |bits| && bits[i])
    ensures Bit(Pack(MsbFirst, bits, n)[i / 8], 7 - i % 8) == (i < |bits| && bits[i])
  {
    PackByteBit(LsbFirst, bits, i);
    PackByteBit(MsbFirst, bits, i);
  }

  /** And a bit is what a shift and a mask leave. */
  lemma {:induction false} BitIsShifted(b: nat, k: nat)
    ensures Bit(b, k) <==> b / Pow2(k) % 2 == 1
  {
    if k > 0 {
      BitIsShifted(b / 2, k - 1);
      assert b / 2 / Pow2(k - 1) == b / Pow2(k) by { DivTwice(b, Pow2(k - 1)); }
    }
  }

  lemma DivTwice(b: nat, p: nat)
    requires p > 0
    ensures b / 2 / p == b / (2 * p)
  {
    var h := b / 2;
    var q, r := h / p, h % p;
    var low := b % 2;
    assert b == 2 * h + low && h == p * q + r;
    assert 2 * (p * q) == 2 * p * q;
    assert b == 2 * p * q + (2 * r + low) && 2 * r + low < 2 * p;
    Quotient(b, 2 * p, q, 2 * r + low);
  }

  lemma Quotient(b: nat, d: nat, q: nat, r: nat)
    requires r < d && b == d * q + r
    ensures b / d == q
  {
    var k := b / d;
    assert b == d * k + b % d;
    assert d * (k - q) == d * k - d * q;
    Multiples(d, k - q);
  }

  lemma Multiples(d: nat, x: int)
    ensures x >= 1 ==> d * x >= d
    ensures x <= -1 ==> d * x + d <= 0
  {
    if x >= 1 {
      assert d * x == d * (x - 1) + d && d * (x - 1) >= 0;
    } else if x <= -1 {
      assert d * x == d * (x + 1) - d && d * (x + 1) <= 0;
    }
  }

  lemma PackRoundTrip(order: Order, bits: seq<bool>, n: nat)
    requires |bits| <= 8 * n
    ensures Unpack(order, Pack(order, bits, n), |bits|) == bits
  {
    PackedBits(order, bits, n);
  }

  /** Setting the next stream bit in place extends the packed prefix by that bit. */
  lemma PackStep(order: Order, bits: seq<bool>, i: nat, j: nat)
    requires i < |bits|
    ensures PackByte(order, bits[..i + 1], j) ==
            if j == i / 8 && bits[i] then SetBit(PackByte(order, bits[..i], j), Lane(order, i))
            else PackByte(order, bits[..i], j)
  {
    var u, w := Lanes(order, bits[..i], j), Lanes(order, bits[..i + 1], j);
    LaneOfStreamBit(order, i);
    if j == i / 8 && bits[i] {
      SetBitOfValue(u, Lane(order, i));
      assert w == u[Lane(order, i) := true];
    } else {
      assert w == u;
    }
  }

  /** The two zones of a pack loop, one byte apart at most. */
  lemma PackStepAll(order: Order, bits: seq<bool>, i: nat, n: nat)
    requires i < |bits| <= 8 * n
    ensures var u := Pack(order, bits[..i], n);
            Pack(order, bits[..i + 1], n) ==
            if bits[i] then u[i / 8 := PackByte(order, bits[..i + 1], i / 8)] else u
    ensures bits[i] ==> PackByte(order, bits[..i + 1], i / 8) == SetBit(PackByte(order, bits[..i], i / 8), Lane(order, i))
  {
    forall j | 0 <= j < n
      ensures PackByte(order, bits[..i + 1], j) ==
              if j == i / 8 && bits[i] then SetBit(PackByte(order, bits[..i], j), Lane(order, i))
              else PackByte(order, bits[..i], j)
    {
      PackStep(order, bits, i, j);
    }
  }

  lemma PackNothing(order: Order, n: nat)
    ensures forall j :: 0 <= j < n ==> Pack(order, [], n)[j] == 0
  {
    ZeroValue(8);
    forall j | 0 <= j < n ensures Pack(order, [], n)[j] == 0 {
      assert Lanes(order, [], j) == seq(8, _ => false);
    }
  }

  lemma ZeroValue(n: nat)
    ensures Value(seq(n, _ => false)) == 0
  {
    if n > 0 {
      ZeroValue(n - 1);
      assert seq(n, _ => false)[1..] == seq(n - 1, _ => false);
    }
  }

  /** `|=` of one bit of the stream, into a zone that holds those before it. */
  method OrInto(buf: array<Byte>, pos: nat, order: Order, bits: seq<bool>, n: nat, i: nat, ghost base: seq<Byte>)
    requires i < |bits| <= 8 * n && pos + n <= buf.Length == |base|
    requires buf[..] == Overwrite(base, pos, Pack(order, bits[..i], n))
    modifies buf
    ensures buf[..] == Overwrite(base, pos, Pack(order, bits[..i + 1], n))
  {
    hide SetBit, PackByte, Lane, Overwrite;
    PackStepAll(order, bits, i, n);
    if bits[i] {
      ghost var u := Pack(order, bits[..i], n);
      assert buf[pos + i / 8] == buf[..][pos..pos + n][i / 8] == u[i / 8];
      OverwriteByte(base, pos, u, i / 8, PackByte(order, bits[..i + 1], i / 8));
      buf[pos + i / 8] := SetBit(buf[pos + i / 8], Lane(order, i));
    }
  }

  /** memset the zone to zero, then `|=` every set bit of the stream. */
  method PackInto(buf: array<Byte>, pos: nat, order: Order, bits: seq<bool>, n: nat)
    requires |bits| <= 8 * n && pos + n <= buf.Length
    modifies buf
    ensures buf[..] == Overwrite(old(buf[..]), pos, Pack(order, bits, n))
  {
    hide SetBit, PackByte, Lane, Overwrite;
    ghost var base := buf[..];
    PackNothing(order, n);
    Copy(buf, pos, seq(n, _ => 0));
    assert seq(n, _ => 0) == Pack(order, [], n);
    assert bits[..0] == [];
    for i := 0 to |bits|
      invariant buf[..] == Overwrite(base, pos, Pack(order, bits[..i], n))
    {
      OrInto(buf, pos, order, bits, n, i, base);
    }
    assert bits[..|bits|] == bits;
  }

  /** decode_payload_bits: reads `n` bits, LSB first, from `pos`. */
  method UnpackFrom(buf: array<Byte>, pos: nat, n: nat) returns (bits: seq<bool>)
    requires pos + BytesFor(n) <= buf.Length
    ensures bits == Unpack(LsbFirst, buf[pos..pos + BytesFor(n)], n)
  {
    bits := [];
    for i := 0 to n
      invariant |bits| == i
      invariant forall k :: 0 <= k < i ==> bits[k] == StreamBit(LsbFirst, buf[pos..pos + BytesFor(n)], k)
    {
      assert buf[pos..pos + BytesFor(n)][i / 8] == buf[pos + i / 8];
      bits := bits + [Bit(buf[pos + i / 8], i % 8)];
    }
  }
}
