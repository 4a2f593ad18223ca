/** Little-endian wire primitives shared by every writer and parser: machine integers, packed
    field lists (the model of `#pragma pack(1)` structs) and in-place writes into a byte buffer. */
module Wire {

  datatype Option<+T> = None | Some(value: T)
  {
    predicate IsFailure()
    {
      None?
    }

    function PropagateFailure<U>(): Option<U>
      requires None?
    {
      None
    }

    function Extract(): T
      requires Some?
    {
      value
    }
  }

  type Byte = x: nat | x < 0x100
  type U16 = x: nat | x < 0x1_0000
  type U32 = x: nat | x < 0x1_0000_0000

  /** A slot as the indications carry it: the configured numerology and the received SFN and slot. */
  datatype SlotPoint = SlotPoint(numerology: nat, sfn: U16, slot: U16)

  // ---------------------------------------------------------------- integers

  function Le16(v: U16): (s: seq<Byte>)
  {
    [v % 0x100, v / 0x100]
  }

  function Le32(v: U32): (s: seq<Byte>)
  {
    [v % 0x100, v / 0x100 % 0x100, v / 0x1_0000 % 0x100, v / 0x100_0000]
  }

  function U16At(s: seq<Byte>, i: nat): U16
    requires i + 2 <= |s|
  {
    s[i] as int + 0x100 * (s[i + 1] as int)
  }

  function U32At(s: seq<Byte>, i: nat): U32
    requires i + 4 <= |s|
  {
    s[i] as int + 0x100 * (s[i + 1] as int) + 0x1_0000 * (s[i + 2] as int) + 0x100_0000 * (s[i + 3] as int)
  }

  /** The number whose base-256 digits these are, least first. */
  function LittleEndian(s: seq<Byte>): nat
  {
    if s == [] then 0 else s[0] + 0x100 * LittleEndian(s[1..])
  }

  /** What is written and read as a word is its little-endian number. */
  lemma WordsLittleEndian(v: U16, w: U32, s: seq<Byte>, i: nat)
    ensures |Le16(v)| == 2 && LittleEndian(Le16(v)) == v && |Le32(w)| == 4 && LittleEndian(Le32(w)) == w
    ensures i + 2 <= |s| ==> U16At(s, i) == LittleEndian(s[i..i + 2])
    ensures i + 4 <= |s| ==> U32At(s, i) == LittleEndian(s[i..i + 4])
  {
    JoinWord(w);
    TwoDigits(Le16(v));
    FourDigits(Le32(w));
    if i + 2 <= |s| {
      TwoDigits(s[i..i + 2]);
    }
    if i + 4 <= |s| {
      FourDigits(s[i..i + 4]);
    }
  }

  lemma TwoDigits(s: seq<Byte>)
    requires |s| == 2
    ensures LittleEndian(s) == s[0] as int + 0x100 * s[1] as int
  {
    assert s[1..][1..] == [];
    assert LittleEndian(s[1..]) == s[1] + 0x100 * LittleEndian(s[1..][1..]);
  }

  lemma FourDigits(s: seq<Byte>)
    requires |s| == 4
    ensures LittleEndian(s) == s[0] as int + 0x100 * s[1] as int + 0x1_0000 * s[2] as int + 0x100_0000 * s[3] as int
  {
    assert s[2..] == s[1..][1..];
    TwoDigits(s[2..]);
  }

  // ---------------------------------------------------------------- concatenation

  lemma Regroup<T>(a: seq<T>, b: seq<T>, c: seq<T>)
    ensures a + b + c == a + (b + c)
  {
  }

  lemma Regroup4<T>(a: seq<T>, b: seq<T>, c: seq<T>, d: seq<T>, post: seq<T>)
    ensures a + b + c + d + post == a + (b + (c + (d + post)))
  {
    Regroup(a + b + c, d, post);
    Regroup(a + b, c, d + post);
    Regroup(a, b, c + (d + post));
  }

  // ---------------------------------------------------------------- packed structs

  /** One member of a packed struct. */
  datatype Field = F8(u8: Byte) | F16(u16: U16) | F32(u32: U32) | Raw(bytes: seq<Byte>)

  /** The width a reader must know to pick a member up again. */
  datatype Shape = S8 | S16 | S32 | SRaw(n: nat)

  function FieldBytes(f: Field): seq<Byte>
  {
    match f
    case F8(v) => [v]
    case F16(v) => Le16(v)
    case F32(v) => Le32(v)
    case Raw(b) => b
  }

  function ShapeOf(f: Field): Shape
  {
    match f
    case F8(_) => S8
    case F16(_) => S16
    case F32(_) => S32
    case Raw(b) => SRaw(|b|)
  }

  function Width(h: Shape): nat
  {
    match h
    case S8 => 1
    case S16 => 2
    case S32 => 4
    case SRaw(n) => n
  }

  function TotalWidth(hs: seq<Shape>): nat
  {
    if hs == [] then 0 else Width(hs[0]) + TotalWidth(hs[1..])
  }

  function Shapes(fs: seq<Field>): (hs: seq<Shape>)
    ensures |hs| == |fs|
    ensures forall i :: 0 <= i < |fs| ==> hs[i] == ShapeOf(fs[i])
  {
    seq(|fs|, i requires 0 <= i < |fs| => ShapeOf(fs[i]))
  }

  /** The bytes of a packed struct. */
  function Encode(fs: seq<Field>): seq<Byte>
  {
    if fs == [] then [] else FieldBytes(fs[0]) + Encode(fs[1..])
  }

  function ReadField(h: Shape, s: seq<Byte>): Field
    requires Width(h) <= |s|
  {
    match h
    case S8 => F8(s[0])
    case S16 => F16(U16At(s, 0))
    case S32 => F32(U32At(s, 0))
    case SRaw(n) => Raw(s[..n])
  }

  datatype Decoded = Decoded(fields: seq<Field>, rest: seq<Byte>)

  function As8(f: Field): Byte
  {
    if f.F8? then f.u8 else 0
  }

  function As16(f: Field): U16
  {
    if f.F16? then f.u16 else 0
  }

  function As32(f: Field): U32
  {
    if f.F32? then f.u32 else 0
  }

  /** Reads a packed struct off the front of `s`, or fails when `s` is too short. */
  function Decode(hs: seq<Shape>, s: seq<Byte>): (r: Option<Decoded>)
    ensures r.Some? ==> |r.value.fields| == |hs|
  {
    if hs == [] then Some(Decoded([], s))
    else if |s| < Width(hs[0]) then None
    else match Decode(hs[1..], s[Width(hs[0])..])
      case None => None
      case Some(d) => Some(Decoded([ReadField(hs[0], s)] + d.fields, d.rest))
  }

  /** Reading back what was written gives the same fields, whatever follows them. */
  lemma {:induction false} EncodeDecode(fs: seq<Field>, rest: seq<Byte>)
    ensures Decode(Shapes(fs), Encode(fs) + rest) == Some(Decoded(fs, rest))
  {
    hide FieldBytes, ShapeOf, Decode, Encode, Shapes;
    if fs == [] {
      DecodeNothing(rest);
    } else {
      EncodeDecode(fs[1..], rest);
      DecodeCons(fs[0], fs[1..], Encode(fs[1..]) + rest, rest);
      EncodeHead(fs, rest);
      assert [fs[0]] + fs[1..] == fs;
    }
  }

  lemma DecodeNothing(rest: seq<Byte>)
    ensures Shapes([]) == [] && Encode([]) + rest == rest && Decode([], rest) == Some(Decoded([], rest))
  {
  }

  lemma EncodeHead(fs: seq<Field>, rest: seq<Byte>)
    requires fs != []
    ensures Encode(fs) + rest == FieldBytes(fs[0]) + (Encode(fs[1..]) + rest)
    ensures Shapes(fs) == [ShapeOf(fs[0])] + Shapes(fs[1..])
  {
    hide FieldBytes, ShapeOf, Shapes;
    ShapesHead(fs);
    Regroup(FieldBytes(fs[0]), Encode(fs[1..]), rest);
  }

  lemma ShapesHead(fs: seq<Field>)
    requires fs != []
    ensures Shapes(fs) == [ShapeOf(fs[0])] + Shapes(fs[1..])
  {
    hide ShapeOf;
  }

  lemma DecodeCons(f: Field, fs: seq<Field>, tail: seq<Byte>, rest: seq<Byte>)
    requires Decode(Shapes(fs), tail) == Some(Decoded(fs, rest))
    ensures Decode([ShapeOf(f)] + Shapes(fs), FieldBytes(f) + tail) == Some(Decoded([f] + fs, rest))
  {
    hide FieldBytes, ShapeOf, ReadField, Width, Shapes;
    ReadFieldBack(f, tail);
    assert ([ShapeOf(f)] + Shapes(fs))[1..] == Shapes(fs);
  }

  lemma ReadFieldBack(f: Field, tail: seq<Byte>)
    ensures |FieldBytes(f)| == Width(ShapeOf(f))
    ensures ReadField(ShapeOf(f), FieldBytes(f) + tail) == f
    ensures (FieldBytes(f) + tail)[Width(ShapeOf(f))..] == tail
  {
    match f
    case F8(_) =>
    case F16(v) => assert v == v % 0x100 + 0x100 * (v / 0x100);
    case F32(v) => JoinWord(v);
    case Raw(_) =>
  }

  lemma JoinWord(v: int)
    requires 0 <= v < 0x1_0000_0000
    ensures v == v % 0x100 + 0x100 * (v / 0x100 % 0x100) + 0x1_0000 * (v / 0x1_0000 % 0x100) + 0x100_0000 * (v / 0x100_0000)
  {
    assert v / 0x1_0000 == v / 0x100 / 0x100;
    assert v / 0x100_0000 == v / 0x1_0000 / 0x100;
  }

  lemma Le16At(s: seq<Byte>)
    requires 2 <= |s|
    ensures Le16(U16At(s, 0)) == s[..2]
  {
    var v := U16At(s, 0);
    assert v % 0x100 == s[0] && v / 0x100 == s[1];
  }

  lemma {:induction false} EncodeAppend(a: seq<Field>, b: seq<Field>)
    ensures Encode(a + b) == Encode(a) + Encode(b)
  {
    hide FieldBytes;
    if a == [] {
      assert a + b == b;
    } else {
      EncodeAppend(a[1..], b);
      assert (a + b)[1..] == a[1..] + b;
      Regroup(FieldBytes(a[0]), Encode(a[1..]), Encode(b));
    }
  }

  lemma {:induction false} EncodeWidth(fs: seq<Field>)
    ensures |Encode(fs)| == TotalWidth(Shapes(fs))
  {
    if fs != [] {
      EncodeWidth(fs[1..]);
      assert Shapes(fs)[1..] == Shapes(fs[1..]);
    }
  }

  lemma FourWidths(hs: seq<Shape>)
    requires 4 <= |hs|
    ensures TotalWidth(hs) == Width(hs[0]) + Width(hs[1]) + Width(hs[2]) + Width(hs[3]) + TotalWidth(hs[4..])
  {
    hide Width;
    assert TotalWidth(hs) == Width(hs[0]) + TotalWidth(hs[1..]);
    assert TotalWidth(hs[1..]) == Width(hs[1]) + TotalWidth(hs[1..][1..]);
    assert hs[1..][1..] == hs[2..] && hs[2..][1..] == hs[3..] && hs[3..][1..] == hs[4..];
    assert TotalWidth(hs[2..]) == Width(hs[2]) + TotalWidth(hs[3..]);
  }

  lemma SubSlice(s: seq<Byte>, p: nat, e: nat, a: nat, b: nat)
    requires p <= e <= |s| && a <= b <= e - p
    ensures s[p..e][a..b] == s[p + a..p + b]
  {
    forall i | 0 <= i < b - a ensures s[p..e][a..b][i] == s[p + a..p + b][i] {
      assert s[p..e][a + i] == s[p + a + i];
    }
  }

  lemma U16Back(pre: seq<Byte>, v: U16, post: seq<Byte>)
    ensures U16At(pre + Le16(v) + post, |pre|) == v
  {
  }

  /** The head every indication with a 16-bit count shares: eight envelope bytes, SFN, slot and the count. */
  lemma MessageHeadBack(envelope: seq<Byte>, sfn: U16, slot: U16, n: U16, body: seq<Byte>)
    requires |envelope| == 8
    ensures var s := envelope + Le16(sfn) + Le16(slot) + Le16(n) + body;
            U16At(s, 8) == sfn && U16At(s, 10) == slot && U16At(s, 12) == n && s[14..] == body
  {
    var s := envelope + Le16(sfn) + Le16(slot) + Le16(n) + body;
    assert s == envelope + Le16(sfn) + (Le16(slot) + Le16(n) + body);
    U16Back(envelope, sfn, Le16(slot) + Le16(n) + body);
    assert s == (envelope + Le16(sfn)) + Le16(slot) + (Le16(n) + body);
    U16Back(envelope + Le16(sfn), slot, Le16(n) + body);
    U16Back(envelope + Le16(sfn) + Le16(slot), n, body);
  }

  /** The same with the 8-bit count of RACH and SRS. */
  lemma ShortMessageHeadBack(envelope: seq<Byte>, sfn: U16, slot: U16, n: Byte, body: seq<Byte>)
    requires |envelope| == 8
    ensures var s := envelope + Le16(sfn) + Le16(slot) + ([n] + body);
            U16At(s, 8) == sfn && U16At(s, 10) == slot && s[12] == n && s[13..] == body
  {
    var s := envelope + Le16(sfn) + Le16(slot) + ([n] + body);
    assert s == envelope + Le16(sfn) + (Le16(slot) + ([n] + body));
    U16Back(envelope, sfn, Le16(slot) + ([n] + body));
    U16Back(envelope + Le16(sfn), slot, [n] + body);
  }

  lemma Middle(pre: seq<Byte>, x: seq<Byte>, post: seq<Byte>)
    ensures (pre + x + post)[|pre|..|pre| + |x|] == x
  {
  }

  // ---------------------------------------------------------------- in-place writes

  function Zeros(n: nat): (s: seq<Byte>)
    ensures |s| == n
  {
    seq(n, _ => 0)
  }

  /** `s` with `x` written over it from `pos`. */
  function Overwrite(s: seq<Byte>, pos: nat, x: seq<Byte>): (r: seq<Byte>)
    requires pos + |x| <= |s|
    ensures |r| == |s| && r[pos..pos + |x|] == x
    ensures forall i :: 0 <= i < pos || pos + |x| <= i < |s| ==> r[i] == s[i]
  {
    s[..pos] + x + s[pos + |x|..]
  }

  /** Two writes that meet are one write. */
  lemma OverwriteMeets(s: seq<Byte>, pos: nat, x: seq<Byte>, y: seq<Byte>)
    requires pos + |x| + |y| <= |s|
    ensures Overwrite(Overwrite(s, pos, x), pos + |x|, y) == Overwrite(s, pos, x + y)
  {
  }

  /** Writing what is there already, behind a first write, changes nothing. */
  lemma OverwriteSame(s: seq<Byte>, pos: nat, x: seq<Byte>, gap: seq<Byte>)
    requires pos + |x| + |gap| <= |s| && gap == s[pos + |x|..pos + |x| + |gap|]
    ensures Overwrite(s, pos, x + gap) == Overwrite(s, pos, x)
  {
    var l, r := Overwrite(s, pos, x + gap), Overwrite(s, pos, x);
    forall i | 0 <= i < |s| ensures l[i] == r[i] {
      if pos + |x| <= i < pos + |x| + |gap| {
        assert (x + gap)[i - pos] == gap[i - pos - |x|];
      }
    }
  }

  lemma OverwriteBefore(s: seq<Byte>, pos: nat, x: seq<Byte>, y: seq<Byte>)
    requires pos + |x| + |y| <= |s|
    ensures Overwrite(Overwrite(s, pos + |x|, y), pos, x) == Overwrite(s, pos, x + y)
  {
  }

  /** A later write inside an earlier one changes just that part of it (back-patching). */
  lemma OverwriteInside(s: seq<Byte>, pos: nat, a: seq<Byte>, b: seq<Byte>, c: seq<Byte>, x: seq<Byte>)
    requires |b| == |x| && pos + |a| + |b| + |c| <= |s|
    ensures Overwrite(Overwrite(s, pos, a + b + c), pos + |a|, x) == Overwrite(s, pos, a + x + c)
  {
    var l := Overwrite(Overwrite(s, pos, a + b + c), pos + |a|, x);
    var r := Overwrite(s, pos, a + x + c);
    forall i | 0 <= i < |s| ensures l[i] == r[i] {
      if pos <= i < pos + |a| + |b| + |c| {
        assert Overwrite(s, pos, a + b + c)[i] == (a + b + c)[i - pos];
      }
    }
  }

  /** Changing one byte of a zone already written. */
  lemma OverwriteByte(s: seq<Byte>, pos: nat, x: seq<Byte>, i: nat, b: Byte)
    requires pos + |x| <= |s| && i < |x|
    ensures Overwrite(s, pos, x)[pos + i := b] == Overwrite(s, pos, x[i := b])
  {
  }

  /** memcpy. */
  method Copy(buf: array<Byte>, pos: nat, x: seq<Byte>)
    requires pos + |x| <= buf.Length
    modifies buf
    ensures buf[..] == Overwrite(old(buf[..]), pos, x)
  {
    for i := 0 to |x|
      invariant buf[..] == Overwrite(old(buf[..]), pos, x[..i])
    {
      OverwriteMeets(old(buf[..]), pos, x[..i], [x[i]]);
      assert x[..i + 1] == x[..i] + [x[i]];
      buf[pos + i] := x[i];
    }
    assert x[..|x|] == x;
  }

  /** Writes a packed struct at `pos` and returns the cursor past it. */
  method PutFields(buf: array<Byte>, pos: nat, fs: seq<Field>) returns (next: nat)
    requires pos + |Encode(fs)| <= buf.Length
    modifies buf
    ensures next == pos + |Encode(fs)|
    ensures buf[..] == Overwrite(old(buf[..]), pos, Encode(fs))
  {
    hide FieldBytes, Encode, Overwrite;
    next := pos;
    EncodeNothing(fs, old(buf[..]), pos);
    for i := 0 to |fs|
      invariant next == pos + |Encode(fs[..i])| && next + |Encode(fs[i..])| == pos + |Encode(fs)|
      invariant buf[..] == Overwrite(old(buf[..]), pos, Encode(fs[..i]))
    {
      EncodeStep(fs, i);
      Copy(buf, next, FieldBytes(fs[i]));
      OverwriteMeets(old(buf[..]), pos, Encode(fs[..i]), FieldBytes(fs[i]));
      next := next + |FieldBytes(fs[i])|;
    }
    assert fs[..|fs|] == fs;
  }

  lemma EncodeNothing(fs: seq<Field>, base: seq<Byte>, pos: nat)
    requires pos <= |base|
    ensures Encode(fs[..0]) == [] && Encode(fs[0..]) == Encode(fs) && Overwrite(base, pos, []) == base
  {
    assert fs[0..] == fs;
  }

  /** The next field, moved from what is left to what is written. */
  lemma EncodeStep(fs: seq<Field>, i: nat)
    requires i < |fs|
    ensures Encode(fs[..i + 1]) == Encode(fs[..i]) + FieldBytes(fs[i])
    ensures |Encode(fs[i..])| == |FieldBytes(fs[i])| + |Encode(fs[i + 1..])|
  {
    hide FieldBytes;
    EncodeAppend(fs[..i], [fs[i]]);
    assert fs[..i + 1] == fs[..i] + [fs[i]];
    assert Encode([fs[i]]) == FieldBytes(fs[i]) + Encode([]);
    assert fs[i..][1..] == fs[i + 1..];
  }
}
