/** The generic PDU frame of DL_TTI, UL_TTI and UL_DCI requests: type, size, configuration; and the walk a
    receiver takes over a list of PDUs by hopping from size to size. */
module PduFrame {
  import opened Wire

  const FRAME: nat := 4

  function PduBytes(pduType: U16, body: seq<Byte>): (b: seq<Byte>)
    requires |body| + FRAME < 0x1_0000
    ensures |b| == |body| + FRAME
  {
    Le16(pduType) + Le16(|body| + FRAME) + body
  }

  // ---------------------------------------------------------------- what several PDUs share

  datatype Bwp = Bwp(start: U16, size: U16, scs: Byte, extendedPrefix: bool)

  function Flag(b: bool): Byte
  {
    if b then 1 else 0
  }

  /** A configuration as read, and what follows it. */
  datatype Read<+T> = Read(pdu: T, rest: seq<Byte>)

  /** A byte that is 0 or 1. */
  function ReadFlag(b: Byte): Option<bool>
  {
    if b == 0 then Some(false) else if b == 1 then Some(true) else None
  }

  function ReadBwp(f: seq<Field>, at: nat): Option<Bwp>
    requires at + 4 <= |f|
  {
    var prefix :- ReadFlag(As8(f[at + 3]));
    Some(Bwp(As16(f[at + 1]), As16(f[at]), As8(f[at + 2]), prefix))
  }

  /** A field that says nothing: every byte of it is zero. */
  predicate Blank(f: Field)
  {
    match f
    case F8(v) => v == 0
    case F16(v) => v == 0
    case F32(v) => v == 0
    case Raw(b) => forall i :: 0 <= i < |b| ==> b[i] == 0
  }

  predicate AllBlank(fs: seq<Field>)
  {
    forall i :: 0 <= i < |fs| ==> Blank(fs[i])
  }

  // ---------------------------------------------------------------- writing in place

  /** Appends a packed struct to what has been written from `start` on, over `base`. */
  method Append(buf: array<Byte>, next: nat, fs: seq<Field>, ghost base: seq<Byte>, ghost start: nat, ghost acc: seq<Byte>)
    returns (next': nat, ghost acc': seq<Byte>)
    requires |base| == buf.Length && next == start + |acc| && next + |Encode(fs)| <= buf.Length
    requires buf[..] == Overwrite(base, start, acc)
    modifies buf
    ensures acc' == acc + Encode(fs) && next' == start + |acc'|
    ensures start + |acc'| <= buf.Length && buf[..] == Overwrite(base, start, acc')
  {
    next' := PutFields(buf, next, fs);
    OverwriteMeets(base, start, acc, Encode(fs));
    acc' := acc + Encode(fs);
  }

  /** The PDU type goes in first; the size is left for `Finish`. */
  method Begin(buf: array<Byte>, pos: nat, pduType: U16) returns (next: nat)
    requires pos + FRAME <= buf.Length
    modifies buf
    ensures next == pos + FRAME && buf[..] == Overwrite(old(buf[..]), pos, Le16(pduType))
  {
    Copy(buf, pos, Le16(pduType));
    next := pos + FRAME;
  }

  /** Back-patches the size once the cursor has passed the whole PDU. */
  method Finish(buf: array<Byte>, pos: nat, next: nat, pduType: U16, ghost base: seq<Byte>, ghost body: seq<Byte>) returns (size: nat)
    requires |base| == buf.Length && next == pos + FRAME + |body| <= buf.Length && |body| + FRAME < 0x1_0000
    requires buf[..] == Overwrite(Overwrite(base, pos, Le16(pduType)), pos + FRAME, body)
    modifies buf
    ensures size == next - pos && buf[..] == Overwrite(base, pos, PduBytes(pduType, body))
  {
    size := next - pos;
    Copy(buf, pos + 2, Le16(size));
    FrameWrites(base, pos, Le16(pduType), Le16(size), body);
  }

  lemma FrameWrites(s: seq<Byte>, pos: nat, t: seq<Byte>, n: seq<Byte>, body: seq<Byte>)
    requires |t| == |n| == 2 && pos + FRAME + |body| <= |s|
    ensures Overwrite(Overwrite(Overwrite(s, pos, t), pos + FRAME, body), pos + 2, n) == Overwrite(s, pos, t + n + body)
  {
    var gap := s[pos + 2..pos + FRAME];
    hide Overwrite;
    OverwriteSame(s, pos, t, gap);
    OverwriteMeets(s, pos, t + gap, body);
    OverwriteInside(s, pos, t, gap, body, n);
  }

  // ---------------------------------------------------------------- walking

  /** A PDU that says its own length. */
  predicate Framed(b: seq<Byte>)
  {
    FRAME <= |b| && U16At(b, 2) == |b|
  }

  lemma PduFramed(pduType: U16, body: seq<Byte>)
    requires |body| + FRAME < 0x1_0000
    ensures Framed(PduBytes(pduType, body)) && U16At(PduBytes(pduType, body), 0) == pduType && PduBytes(pduType, body)[FRAME..] == body
  {
    var b := PduBytes(pduType, body);
    U16Back([], pduType, Le16(|b|) + body);
    assert b == [] + Le16(pduType) + (Le16(|b|) + body);
    U16Back(Le16(pduType), |b|, body);
  }

  datatype Hops = Hops(extents: seq<seq<Byte>>, rest: seq<Byte>)

  /** `n` hops from the front of `s`, each by the size the PDU declares; fails when a PDU is not there. */
  function Hop(s: seq<Byte>, n: nat): Option<Hops>
    decreases n
  {
    if n == 0 then Some(Hops([], s))
    else if |s| < FRAME || !(FRAME <= U16At(s, 2) <= |s|) then None
    else
      var h :- Hop(s[U16At(s, 2)..], n - 1);
      Some(Hops([s[..U16At(s, 2)]] + h.extents, h.rest))
  }

  function Joined(bs: seq<seq<Byte>>): seq<Byte>
  {
    if bs == [] then [] else bs[0] + Joined(bs[1..])
  }

  lemma {:induction false} JoinedSnoc(bs: seq<seq<Byte>>, b: seq<Byte>)
    ensures Joined(bs + [b]) == Joined(bs) + b
  {
    if bs != [] {
      JoinedSnoc(bs[1..], b);
      assert (bs + [b])[1..] == bs[1..] + [b];
    } else {
      assert [b][1..] == [];
    }
  }

  /** Hopping over PDUs laid end to end meets exactly those PDUs and lands exactly behind the last one taken. */
  lemma {:induction false} HopMeetsAll(bs: seq<seq<Byte>>, n: nat, post: seq<Byte>)
    requires n <= |bs| && forall i :: 0 <= i < |bs| ==> Framed(bs[i])
    ensures Hop(Joined(bs) + post, n) == Some(Hops(bs[..n], Joined(bs[n..]) + post))
    decreases n
  {
    if n == 0 {
      assert bs[0..] == bs;
    } else {
      var b := bs[0];
      var s := Joined(bs) + post;
      assert s == b + (Joined(bs[1..]) + post);
      assert U16At(s, 2) == U16At(b, 2);
      assert s[..|b|] == b && s[|b|..] == Joined(bs[1..]) + post;
      HopMeetsAll(bs[1..], n - 1, post);
      assert bs[1..][n - 1..] == bs[n..];
      assert [b] + bs[1..][..n - 1] == bs[..n];
    }
  }

  lemma {:induction false} JoinedEmpty(bs: seq<seq<Byte>>)
    requires forall i :: 0 <= i < |bs| ==> Framed(bs[i])
    ensures Joined(bs) == [] <==> bs == []
  {
    if bs != [] {
      assert |Joined(bs)| >= |bs[0]|;
    }
  }
}
