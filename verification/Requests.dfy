/** What DL_TTI, UL_TTI and UL_DCI requests share: a fixed head, then PDUs end to end, then the back-patched headers. */
module Requests {
  import opened Wire
  import opened Envelope
  import opened PduFrame

  /** A request body: head, then PDUs. */
  function Body(head: seq<Byte>, extents: seq<seq<Byte>>): seq<Byte>
  {
    head + Joined(extents)
  }

  function Message(cellId: Byte, typeId: U16, head: seq<Byte>, extents: seq<seq<Byte>>): seq<Byte>
    requires |Body(head, extents)| < 0x1_0000_0000
  {
    HeaderBytes(cellId, typeId, |Body(head, extents)|) + Body(head, extents)
  }

  predicate AllFramed(extents: seq<seq<Byte>>)
  {
    forall i :: 0 <= i < |extents| ==> Framed(extents[i])
  }

  /** The message declares its own length: it ends exactly 8 + `length` bytes from its start. */
  lemma LengthDeclared(cellId: Byte, typeId: U16, head: seq<Byte>, extents: seq<seq<Byte>>)
    requires |Body(head, extents)| < 0x1_0000_0000
    ensures var s := Message(cellId, typeId, head, extents);
            s[0] == 1 && s[1] == cellId && U16At(s, 2) == typeId && |s| == HEADERS + U32At(s, 4) && s[HEADERS..] == Body(head, extents)
  {
    LengthBack(cellId, typeId, |Body(head, extents)|, Body(head, extents));
  }

  /** A receiver that hops from the end of the head as often as an 8-bit count allows meets the PDUs in order, and
      lands at the declared end if and only if there were fewer than 256. */
  lemma Walkable(cellId: Byte, typeId: U16, head: seq<Byte>, extents: seq<seq<Byte>>)
    requires |Body(head, extents)| < 0x1_0000_0000 && AllFramed(extents)
    ensures var s := Message(cellId, typeId, head, extents);
            var n := |extents| % 0x100;
            && HEADERS + |head| <= |s|
            && Hop(s[HEADERS + |head|..], n) == Some(Hops(extents[..n], Joined(extents[n..])))
            && (Joined(extents[n..]) == [] <==> |extents| < 0x100)
  {
    hide Hop, Joined, HeaderBytes;
    var s := Message(cellId, typeId, head, extents);
    var n := |extents| % 0x100;
    assert s[HEADERS + |head|..] == Joined(extents) + [];
    HopMeetsAll(extents, n, []);
    assert Joined(extents[n..]) + [] == Joined(extents[n..]);
    JoinedEmpty(extents[n..]);
  }

  lemma JoinedNone()
    ensures Joined([]) == []
  {
  }

  lemma {:induction false} JoinedPrefix(done: seq<seq<Byte>>, all: seq<seq<Byte>>)
    requires done <= all
    ensures |Joined(done)| <= |Joined(all)|
  {
    if done != [] {
      JoinedPrefix(done[1..], all[1..]);
    }
  }

  /** Bumping the PDU count inside the head already in place. */
  method BumpByte(buf: array<Byte>, ghost base: seq<Byte>, pos: nat, ghost x: seq<Byte>, at: nat)
    requires |base| == buf.Length && pos + |x| <= buf.Length && at < |x| && buf[..] == Overwrite(base, pos, x)
    modifies buf
    ensures buf[..] == Overwrite(base, pos, x[at := (x[at] as int + 1) % 0x100])
  {
    OverwriteByte(base, pos, x, at, (x[at] as int + 1) % 0x100);
    assert buf[pos + at] == buf[..][pos..pos + |x|][at];
    buf[pos + at] := (buf[pos + at] as int + 1) % 0x100;
  }
}
