/** TX_DATA.request (SCF 222, section 3.4.6): the transport blocks of a slot, listed in the message and scattered
    into the data buffer on 32-byte boundaries. */
module TxData {
  import opened Wire
  import opened Envelope
  import opened Reports

  const OFFSET_TAG: U16 := 2
  const MESSAGE_HEAD: nat := 14
  const RECORD: nat := 18
  const ALIGN: nat := 32

  type Block = b: seq<Byte> | |b| < 0x1_0000_0000 witness []

  datatype TxPdu = TxPdu(index: U16, block: Block)

  // ---------------------------------------------------------------- alignment

  /** `(~n + 1) & 31` on 32-bit words, with `~n` written out as 2^32 - 1 - n. */
  function Padding(n: U32): nat
  {
    (0xFFFF_FFFF - n + 1) % 0x1_0000_0000 % ALIGN
  }

  /** What one copied block adds to the running offset; the sum is taken in 32 bits. */
  function Stride(n: U32): U32
  {
    (n + Padding(n)) % 0x1_0000_0000
  }

  predicate AlignsWord(x: bv32, y: bv32)
  {
    y < 32 && (x + y) & 31 == 0
  }

  /** On machine words the padding expression is the one number below 32 that aligns `x`. */
  lemma PaddingOnWords(x: bv32)
    ensures forall y: bv32 :: AlignsWord(x, y) <==> y == (!x + 1) & 31
  {
    forall y: bv32 ensures AlignsWord(x, y) <==> y == (!x + 1) & 31 {
      PaddingUnique(x, y);
    }
  }

  lemma PaddingUnique(x: bv32, y: bv32)
    ensures AlignsWord(x, y) <==> y == (!x + 1) & 31
  {
  }

  predicate Aligns(n: nat, y: nat)
  {
    y < ALIGN && (n + y) % ALIGN == 0
  }

  lemma PaddingValue(n: U32)
    ensures Padding(n) == (32 - n % 32) % 32
  {
    var q, r := n / 32, n % 32;
    assert n == 32 * q + r;
    if r == 0 {
      assert 0xFFFF_FFFF - n + 1 == 32 * (0x800_0000 - q);
    } else {
      assert 0xFFFF_FFFF - n + 1 == 32 * (0x800_0000 - q - 1) + (32 - r);
    }
  }

  lemma AlignsOnce(n: nat, y: nat)
    ensures Aligns(n, y) <==> y == (32 - n % 32) % 32
  {
    var q, r := n / 32, n % 32;
    assert n + y == 32 * q + (r + y);
    assert (n + y) % 32 == (r + y) % 32;
  }

  /** And on numbers `Padding` is that number, so a stride is the length rounded up, unless it reaches 2^32. */
  lemma PaddingAligns(n: U32)
    ensures forall y: nat :: Aligns(n, y) <==> y == Padding(n)
    ensures n <= 0xFFFF_FFE0 ==> Stride(n) == n + Padding(n)
    ensures n > 0xFFFF_FFE0 ==> Stride(n) == 0
    ensures n % ALIGN == 0 ==> Padding(n) == 0
  {
    PaddingValue(n);
    forall y: nat ensures Aligns(n, y) <==> y == Padding(n) {
      AlignsOnce(n, y);
    }
  }

  // ---------------------------------------------------------------- the plan

  /** Where a block is listed, and whether it was copied there. */
  datatype Placement = Placement(offset: nat, copied: bool)

  /** `cap` is the length of the data buffer, if there is one. */
  predicate Room(cap: Option<nat>, offset: nat, n: nat)
  {
    cap.Some? && offset + n <= cap.value
  }

  function Next(cap: Option<nat>, offset: nat, n: U32): nat
  {
    if Room(cap, offset, n) then offset + Stride(n) else offset
  }

  function Plan(cap: Option<nat>, offset: nat, pdus: seq<TxPdu>): (ps: seq<Placement>)
    ensures |ps| == |pdus|
    decreases |pdus|
  {
    if pdus == [] then []
    else
      var n := |pdus[0].block|;
      [Placement(offset, Room(cap, offset, n))] + Plan(cap, Next(cap, offset, n), pdus[1..])
  }

  /** data_bytes_written. */
  function Written(cap: Option<nat>, offset: nat, pdus: seq<TxPdu>): nat
    decreases |pdus|
  {
    if pdus == [] then offset else Written(cap, Next(cap, offset, |pdus[0].block|), pdus[1..])
  }

  /** The data buffer after the copies. */
  function Scattered(data: seq<Byte>, offset: nat, pdus: seq<TxPdu>): (r: seq<Byte>)
    ensures |r| == |data|
    decreases |pdus|
  {
    if pdus == [] then data
    else
      var b := pdus[0].block;
      if Room(Some(|data|), offset, |b|)
      then Scattered(Overwrite(data, offset, b), offset + Stride(|b|), pdus[1..])
      else Scattered(data, offset, pdus[1..])
  }

  // ---------------------------------------------------------------- the message

  function RecordFields(p: TxPdu, offset: nat): seq<Field>
  {
    [F32(|p.block|), F16(p.index), F32(1), F16(OFFSET_TAG), F16(|p.block| % 0x1_0000), F32(offset % 0x1_0000_0000)]
  }

  function RecordsBytes(cap: Option<nat>, offset: nat, pdus: seq<TxPdu>): seq<Byte>
    decreases |pdus|
  {
    if pdus == [] then []
    else Encode(RecordFields(pdus[0], offset)) + RecordsBytes(cap, Next(cap, offset, |pdus[0].block|), pdus[1..])
  }

  function BodyBytes(sfn: U16, slot: U16, cap: Option<nat>, pdus: seq<TxPdu>): seq<Byte>
  {
    Encode([F16(sfn), F16(slot), F16(|pdus| % 0x1_0000)]) + RecordsBytes(cap, 0, pdus)
  }

  function MessageBytes(cellId: Byte, sfn: U16, slot: U16, cap: Option<nat>, pdus: seq<TxPdu>): seq<Byte>
  {
    HeaderBytes(cellId, TX_DATA_REQUEST, |BodyBytes(sfn, slot, cap, pdus)| % 0x1_0000_0000) + BodyBytes(sfn, slot, cap, pdus)
  }

  lemma RecordWidth(p: TxPdu, offset: nat)
    ensures |Encode(RecordFields(p, offset))| == RECORD
  {
    var f := RecordFields(p, offset);
    EncodeWidth(f);
    assert Shapes(f) == [S32, S16, S32, S16, S16, S32];
    assert TotalWidth([S32, S16, S32, S16, S16, S32]) == 18 by {
      assert TotalWidth([S16, S16, S32]) == 8;
      assert TotalWidth([S32, S16, S16, S32]) == 12;
    }
  }

  lemma {:induction false} RecordsWidth(cap: Option<nat>, offset: nat, pdus: seq<TxPdu>)
    ensures |RecordsBytes(cap, offset, pdus)| == RECORD * |pdus|
    decreases |pdus|
  {
    if pdus != [] {
      RecordWidth(pdus[0], offset);
      RecordsWidth(cap, Next(cap, offset, |pdus[0].block|), pdus[1..]);
    }
  }

  lemma HeadWidth(sfn: U16, slot: U16, n: U16)
    ensures Encode([F16(sfn), F16(slot), F16(n)]) == Le16(sfn) + Le16(slot) + Le16(n)
  {
    var f := [F16(sfn), F16(slot), F16(n)];
    assert f[1..] == [F16(slot), F16(n)] && f[1..][1..] == [F16(n)];
    assert Encode([F16(n)]) == Le16(n) + Encode([]);
  }

  // ---------------------------------------------------------------- the serializer

  /** One record of the message and, when it fits, its block: the body of the loop. */
  method PutPdu(p: TxPdu, msgBuf: array<Byte>, pos: nat, dataBuf: array?<Byte>, offset: nat) returns (next: nat, nextOffset: nat)
    requires pos + RECORD <= msgBuf.Length && (dataBuf != null ==> dataBuf != msgBuf)
    modifies msgBuf, dataBuf
    ensures next == pos + RECORD && nextOffset == Next(Cap(dataBuf), offset, |p.block|)
    ensures |Encode(RecordFields(p, offset))| == RECORD
    ensures msgBuf[..] == Overwrite(old(msgBuf[..]), pos, Encode(RecordFields(p, offset)))
    ensures dataBuf != null ==>
              dataBuf[..] == if Room(Cap(dataBuf), offset, |p.block|) then Overwrite(old(dataBuf[..]), offset, p.block) else old(dataBuf[..])
  {
    RecordWidth(p, offset);
    next := PutFields(msgBuf, pos, RecordFields(p, offset));
    nextOffset := offset;
    if dataBuf != null && offset + |p.block| <= dataBuf.Length {
      Copy(dataBuf, offset, p.block);
      nextOffset := offset + Stride(|p.block|);
    }
  }

  function Cap(dataBuf: array?<Byte>): Option<nat>
  {
    if dataBuf == null then None else Some(dataBuf.Length)
  }

  /** serialize_tx_data_request. The caller must leave room for the records, which the code does not check. */
  method Serialize(cellId: Byte, sfn: U16, slot: U16, pdus: seq<TxPdu>, msgBuf: array<Byte>, dataBuf: array?<Byte>, m: Metrics)
    returns (bytes: int, dataWritten: nat)
    requires MESSAGE_HEAD <= msgBuf.Length ==> MESSAGE_HEAD + RECORD * |pdus| <= msgBuf.Length
    requires dataBuf != null ==> dataBuf != msgBuf
    modifies msgBuf, dataBuf, m
    ensures msgBuf.Length < MESSAGE_HEAD ==>
              bytes == -1 && dataWritten == 0 && msgBuf[..] == old(msgBuf[..]) && m.now == old(m.now)
              && (dataBuf != null ==> dataBuf[..] == old(dataBuf[..]))
    ensures MESSAGE_HEAD <= msgBuf.Length ==>
              && |MessageBytes(cellId, sfn, slot, Cap(dataBuf), pdus)| == bytes == MESSAGE_HEAD + RECORD * |pdus|
              && msgBuf[..] == Overwrite(old(msgBuf[..]), 0, MessageBytes(cellId, sfn, slot, Cap(dataBuf), pdus))
              && (dataBuf != null ==> dataBuf[..] == Scattered(old(dataBuf[..]), 0, pdus))
              && dataWritten == Written(Cap(dataBuf), 0, pdus)
              && m.now == old(m.now).(txDataReqs := Bump(old(m.now).txDataReqs, 1), txDataBytes := Bump(old(m.now).txDataBytes, dataWritten))
  {
    hide RecordsBytes, Scattered, Written, BodyBytes, MessageBytes, Overwrite, Bump, HeaderBytes, Cap;
    dataWritten := 0;
    if msgBuf.Length < MESSAGE_HEAD {
      return -1, 0;
    }
    dataWritten := PutBody(sfn, slot, pdus, msgBuf, dataBuf);
    Count(m, dataWritten);
    MessageWidth(cellId, sfn, slot, Cap(dataBuf), pdus);
    bytes := MESSAGE_HEAD + RECORD * |pdus|;
    WriteHeaders(msgBuf, cellId, TX_DATA_REQUEST, (bytes - HEADERS) % 0x1_0000_0000, old(msgBuf[..]), BodyBytes(sfn, slot, Cap(dataBuf), pdus));
  }

  lemma MessageWidth(cellId: Byte, sfn: U16, slot: U16, cap: Option<nat>, pdus: seq<TxPdu>)
    ensures |BodyBytes(sfn, slot, cap, pdus)| == MESSAGE_HEAD + RECORD * |pdus| - HEADERS
    ensures MessageBytes(cellId, sfn, slot, cap, pdus) ==
            HeaderBytes(cellId, TX_DATA_REQUEST, (MESSAGE_HEAD + RECORD * |pdus| - HEADERS) % 0x1_0000_0000) + BodyBytes(sfn, slot, cap, pdus)
  {
    HeadWidth(sfn, slot, |pdus| % 0x1_0000);
    RecordsWidth(cap, 0, pdus);
  }

  /** SFN, slot, count and the records, behind the room left for the headers. */
  method PutBody(sfn: U16, slot: U16, pdus: seq<TxPdu>, msgBuf: array<Byte>, dataBuf: array?<Byte>) returns (dataWritten: nat)
    requires MESSAGE_HEAD + RECORD * |pdus| <= msgBuf.Length && (dataBuf != null ==> dataBuf != msgBuf)
    modifies msgBuf, dataBuf
    ensures var body := BodyBytes(sfn, slot, Cap(dataBuf), pdus);
            HEADERS + |body| <= msgBuf.Length && msgBuf[..] == Overwrite(old(msgBuf[..]), HEADERS, body)
    ensures dataBuf != null ==> dataBuf[..] == Scattered(old(dataBuf[..]), 0, pdus)
    ensures dataWritten == Written(Cap(dataBuf), 0, pdus)
  {
    hide RecordsBytes, Scattered, Written, Encode;
    ghost var base := msgBuf[..];
    ghost var head := Encode([F16(sfn), F16(slot), F16(|pdus| % 0x1_0000)]);
    HeadWidth(sfn, slot, |pdus| % 0x1_0000);
    var next := PutFields(msgBuf, HEADERS, [F16(sfn), F16(slot), F16(|pdus| % 0x1_0000)]);
    next, dataWritten := PutAll(pdus, msgBuf, next, dataBuf);
    OverwriteMeets(base, HEADERS, head, RecordsBytes(Cap(dataBuf), 0, pdus));
  }

  method Count(m: Metrics, dataWritten: nat)
    modifies m
    ensures m.now == old(m.now).(txDataReqs := Bump(old(m.now).txDataReqs, 1), txDataBytes := Bump(old(m.now).txDataBytes, dataWritten))
  {
    m.now := m.now.(txDataReqs := Bump(m.now.txDataReqs, 1));
    m.now := m.now.(txDataBytes := Bump(m.now.txDataBytes, dataWritten));
  }

  method PutAll(pdus: seq<TxPdu>, msgBuf: array<Byte>, start: nat, dataBuf: array?<Byte>) returns (next: nat, offset: nat)
    requires start + RECORD * |pdus| <= msgBuf.Length && (dataBuf != null ==> dataBuf != msgBuf)
    modifies msgBuf, dataBuf
    ensures next == start + RECORD * |pdus| && |RecordsBytes(Cap(dataBuf), 0, pdus)| == RECORD * |pdus|
    ensures msgBuf[..] == Overwrite(old(msgBuf[..]), start, RecordsBytes(Cap(dataBuf), 0, pdus))
    ensures offset == Written(Cap(dataBuf), 0, pdus)
    ensures dataBuf != null ==> dataBuf[..] == Scattered(old(dataBuf[..]), 0, pdus)
  {
    hide Next, Room, Stride, RecordFields, Encode, RecordsBytes, Scattered, Written;
    ghost var base := msgBuf[..];
    ghost var cap := Cap(dataBuf);
    ghost var done: seq<Byte> := [];
    ghost var data0 := if dataBuf == null then [] else dataBuf[..];
    next, offset := start, 0;
    assert pdus[0..] == pdus;
    RecordsWidth(cap, 0, pdus);
    Nothing(base, start, RecordsBytes(cap, 0, pdus));
    for i := 0 to |pdus|
      invariant next == start + RECORD * i && |done| == RECORD * i
      invariant done + RecordsBytes(cap, offset, pdus[i..]) == RecordsBytes(cap, 0, pdus)
      invariant msgBuf[..] == Overwrite(base, start, done)
      invariant Written(cap, offset, pdus[i..]) == Written(cap, 0, pdus)
      invariant dataBuf != null ==> Scattered(dataBuf[..], offset, pdus[i..]) == Scattered(data0, 0, pdus)
    {
      var p := pdus[i];
      ghost var at, before := offset, if dataBuf == null then [] else dataBuf[..];
      next, offset := PutPdu(p, msgBuf, next, dataBuf, offset);
      assert pdus[i..][0] == p && pdus[i..][1..] == pdus[i + 1..];
      OverwriteMeets(base, start, done, Encode(RecordFields(p, at)));
      PlanStep(cap, at, pdus[i..], done);
      if dataBuf != null {
        ScatterUnfold(before, at, pdus[i..]);
      }
      done := done + Encode(RecordFields(p, at));
    }
    assert pdus[|pdus|..] == [];
    PlanEnd(cap, offset, done);
    if dataBuf != null {
      ScatterEnd(dataBuf[..], offset);
    }
  }

  lemma Nothing(base: seq<Byte>, start: nat, all: seq<Byte>)
    requires start <= |base|
    ensures Overwrite(base, start, []) == base && [] + all == all
  {
  }

  lemma PlanStep(cap: Option<nat>, offset: nat, pdus: seq<TxPdu>, done: seq<Byte>)
    requires pdus != []
    ensures var next := Next(cap, offset, |pdus[0].block|);
            && done + Encode(RecordFields(pdus[0], offset)) + RecordsBytes(cap, next, pdus[1..]) == done + RecordsBytes(cap, offset, pdus)
            && Written(cap, next, pdus[1..]) == Written(cap, offset, pdus)
  {
    hide Next, RecordFields, Encode;
    var a, b := Encode(RecordFields(pdus[0], offset)), RecordsBytes(cap, Next(cap, offset, |pdus[0].block|), pdus[1..]);
    assert done + a + b == done + (a + b);
  }

  lemma PlanEnd(cap: Option<nat>, offset: nat, done: seq<Byte>)
    ensures done + RecordsBytes(cap, offset, []) == done && Written(cap, offset, []) == offset
  {
  }

  lemma ScatterEnd(data: seq<Byte>, offset: nat)
    ensures Scattered(data, offset, []) == data
  {
  }

  // ---------------------------------------------------------------- placement

  /** `n` rounded up to the alignment. */
  function RoundedUp(n: nat): nat
  {
    (n + ALIGN - 1) / ALIGN * ALIGN
  }

  lemma RoundUp(n: nat, pad: nat)
    requires pad < ALIGN && (n + pad) % ALIGN == 0
    ensures RoundedUp(n) == n + pad
  {
  }

  /** A stride is the length rounded up, in 32 bits. */
  lemma StrideRounds(n: U32)
    ensures Stride(n) == RoundedUp(n) % 0x1_0000_0000 && Stride(n) % ALIGN == 0
    ensures n <= RoundedUp(n) < n + ALIGN && (n <= 0xFFFF_FFE0 <==> Stride(n) == RoundedUp(n))
  {
    hide Padding;
    PaddingAligns(n);
    assert Aligns(n, Padding(n));
    RoundUp(n, Padding(n));
  }

  lemma SumAligned(a: nat, b: nat)
    requires a % 32 == 0 && b % 32 == 0
    ensures (a + b) % 32 == 0
  {
    var q, o := a / 32, b / 32;
    assert a + b == 32 * (q + o);
  }

  /** One turn of the loop: the running offset stays aligned, never goes back, and clears a block that was copied. */
  lemma NextMoves(cap: nat, offset: nat, n: U32)
    requires offset % ALIGN == 0 && offset < cap + ALIGN
    ensures var next := Next(Some(cap), offset, n);
            && offset <= next < cap + ALIGN && next % ALIGN == 0
            && (Room(Some(cap), offset, n) ==> offset + n <= cap && next == offset + RoundedUp(n) % 0x1_0000_0000)
            && (Room(Some(cap), offset, n) && n <= 0xFFFF_FFE0 ==> offset + n <= next)
            && (!Room(Some(cap), offset, n) ==> next == offset)
  {
    hide Stride, RoundedUp;
    StrideRounds(n);
    SumAligned(offset, Stride(n));
  }

  lemma PlanUnfold(cap: Option<nat>, offset: nat, pdus: seq<TxPdu>)
    requires pdus != []
    ensures var n := |pdus[0].block|;
            var ps, rest := Plan(cap, offset, pdus), Plan(cap, Next(cap, offset, n), pdus[1..]);
            && ps == [Placement(offset, Room(cap, offset, n))] + rest && ps[1..] == rest
            && forall i :: 0 <= i < |rest| ==> ps[i + 1] == rest[i] && pdus[i + 1] == pdus[1..][i]
  {
  }

  /** A placement lies where it may: aligned, not before the running offset, and, if copied, with its whole block inside. */
  predicate Sound(cap: nat, offset: nat, p: Placement, n: nat)
  {
    offset <= p.offset < cap + ALIGN && p.offset % ALIGN == 0 && (p.copied ==> p.offset + n <= cap)
  }

  /** Every listed offset is aligned and every copied block inside the buffer, whatever the buffer's length. */
  lemma {:induction false} Placements(cap: nat, offset: nat, pdus: seq<TxPdu>)
    requires offset % ALIGN == 0 && offset < cap + ALIGN
    ensures forall i :: 0 <= i < |pdus| ==> Sound(cap, offset, Plan(Some(cap), offset, pdus)[i], |pdus[i].block|)
    ensures offset <= Written(Some(cap), offset, pdus) < cap + ALIGN
    decreases |pdus|
  {
    hide Room, Stride, Next, Plan, RoundedUp;
    if pdus != [] {
      var n := |pdus[0].block|;
      var next := Next(Some(cap), offset, n);
      NextMoves(cap, offset, n);
      Placements(cap, next, pdus[1..]);
      PlanUnfold(Some(cap), offset, pdus);
      var ps, rest := Plan(Some(cap), offset, pdus), Plan(Some(cap), next, pdus[1..]);
      forall i | 0 <= i < |pdus| ensures Sound(cap, offset, ps[i], |pdus[i].block|) {
        if i > 0 {
          assert ps[(i - 1) + 1] == rest[i - 1] && pdus[(i - 1) + 1] == pdus[1..][i - 1];
          assert Sound(cap, next, rest[i - 1], |pdus[1..][i - 1].block|);
        }
      }
    }
  }

  /** Offsets never go back, and a copied block whose rounded length does not wrap ends before any later block starts. */
  lemma {:induction false} PlacementsApart(cap: nat, offset: nat, pdus: seq<TxPdu>, i: nat, j: nat)
    requires offset % ALIGN == 0 && offset < cap + ALIGN && i < j < |pdus|
    ensures var ps := Plan(Some(cap), offset, pdus);
            && ps[i].offset <= ps[j].offset
            && (ps[i].copied && |pdus[i].block| <= 0xFFFF_FFE0 ==> ps[i].offset + |pdus[i].block| <= ps[j].offset)
    decreases |pdus|
  {
    hide Room, Stride, Next, Plan, RoundedUp, Sound;
    if i == 0 {
      FirstApart(cap, offset, pdus, j);
    } else {
      var next := Next(Some(cap), offset, |pdus[0].block|);
      NextMoves(cap, offset, |pdus[0].block|);
      PlacementsApart(cap, next, pdus[1..], i - 1, j - 1);
      PlanAt(Some(cap), offset, pdus, i - 1);
      PlanAt(Some(cap), offset, pdus, j - 1);
    }
  }

  lemma PlanAt(cap: Option<nat>, offset: nat, pdus: seq<TxPdu>, i: nat)
    requires i + 1 < |pdus|
    ensures Plan(cap, offset, pdus)[i + 1] == Plan(cap, Next(cap, offset, |pdus[0].block|), pdus[1..])[i]
    ensures pdus[i + 1] == pdus[1..][i]
  {
    hide Next, Room;
  }

  lemma FirstApart(cap: nat, offset: nat, pdus: seq<TxPdu>, j: nat)
    requires offset % ALIGN == 0 && offset < cap + ALIGN && 0 < j < |pdus|
    ensures var ps, n := Plan(Some(cap), offset, pdus), |pdus[0].block|;
            ps[0].offset <= ps[j].offset && (ps[0].copied && n <= 0xFFFF_FFE0 ==> ps[0].offset + n <= ps[j].offset)
  {
    hide Room, Stride, Next, Plan, RoundedUp;
    var n := |pdus[0].block|;
    var next := Next(Some(cap), offset, n);
    NextMoves(cap, offset, n);
    PlanUnfold(Some(cap), offset, pdus);
    Placements(cap, next, pdus[1..]);
    PlanAt(Some(cap), offset, pdus, j - 1);
    assert Sound(cap, next, Plan(Some(cap), next, pdus[1..])[j - 1], |pdus[1..][j - 1].block|);
  }

  function Zeroed(n: U32): Block
  {
    seq(n, _ => 0)
  }

  /** Whatever the blocks, each copied one ends before any later offset. */
  ghost predicate AlwaysApart(cap: nat)
  {
    forall pdus: seq<TxPdu>, i: nat, j: nat :: i < j < |pdus| ==> Ahead(cap, pdus, i, j)
  }

  predicate Ahead(cap: nat, pdus: seq<TxPdu>, i: nat, j: nat)
    requires i < j < |pdus|
  {
    var ps := Plan(Some(cap), 0, pdus);
    ps[i].copied ==> ps[i].offset + |pdus[i].block| <= ps[j].offset
  }

  /** A block of more than 0xFFFF_FFE0 bytes that fits does not move the running offset: the next one is put over it. */
  lemma WrappedStride(cap: nat, long: TxPdu, p: TxPdu)
    requires 0xFFFF_FFE0 < |long.block| <= cap
    ensures !Ahead(cap, [long, p], 0, 1)
  {
    hide Padding;
    var n := |long.block|;
    PaddingAligns(n);
    assert [long, p][1..] == [p];
    PlanUnfold(Some(cap), 0, [long, p]);
    PlanUnfold(Some(cap), 0, [p]);
  }

  /** Copied blocks always lie apart if and only if the buffer is too short for a block whose rounded length wraps. */
  lemma ApartExactly(cap: nat)
    ensures AlwaysApart(cap) <==> cap <= 0xFFFF_FFE0
  {
    hide Plan;
    if cap <= 0xFFFF_FFE0 {
      forall pdus: seq<TxPdu>, i: nat, j: nat | i < j < |pdus| ensures Ahead(cap, pdus, i, j) {
        Placements(cap, 0, pdus);
        assert Sound(cap, 0, Plan(Some(cap), 0, pdus)[i], |pdus[i].block|);
        PlacementsApart(cap, 0, pdus, i, j);
      }
    } else {
      hide Ahead;
      var long := TxPdu(0, Zeroed(0xFFFF_FFE1));
      WrappedStride(cap, long, long);
      assert !Ahead(cap, [long, long], 0, 1);
    }
  }

  /** The sum of the copied blocks, each rounded up to the alignment in 32 bits. */
  function CopiedSum(ps: seq<Placement>, pdus: seq<TxPdu>): nat
    requires |ps| == |pdus|
  {
    if ps == [] then 0
    else (if ps[0].copied then RoundedUp(|pdus[0].block|) % 0x1_0000_0000 else 0) + CopiedSum(ps[1..], pdus[1..])
  }

  lemma {:induction false} WrittenIsSum(cap: nat, offset: nat, pdus: seq<TxPdu>)
    requires offset % ALIGN == 0 && offset < cap + ALIGN
    ensures Written(Some(cap), offset, pdus) == offset + CopiedSum(Plan(Some(cap), offset, pdus), pdus)
    decreases |pdus|
  {
    hide Room, Stride, Next, Plan, RoundedUp;
    if pdus != [] {
      var n := |pdus[0].block|;
      var next := Next(Some(cap), offset, n);
      NextMoves(cap, offset, n);
      PlanUnfold(Some(cap), offset, pdus);
      WrittenIsSum(cap, next, pdus[1..]);
    }
  }

  /** Which blocks are copied, and to where: block `i` if and only if there is a data buffer and the block fits it behind
      the copied blocks before it, each rounded up. */
  lemma {:induction false} CopiedExactly(cap: Option<nat>, offset: nat, pdus: seq<TxPdu>, i: nat)
    requires i < |pdus|
    ensures var ps := Plan(cap, offset, pdus);
            && ps[i].offset == offset + CopiedSum(ps[..i], pdus[..i])
            && (ps[i].copied <==> cap.Some? && ps[i].offset + |pdus[i].block| <= cap.value)
    decreases i
  {
    hide Stride, RoundedUp;
    var n := |pdus[0].block|;
    var next := Next(cap, offset, n);
    var ps, rest := Plan(cap, offset, pdus), Plan(cap, next, pdus[1..]);
    StrideRounds(n);
    if i == 0 {
      assert ps[..0] == [] && ps[0] == Placement(offset, Room(cap, offset, n));
    } else {
      CopiedExactly(cap, next, pdus[1..], i - 1);
      PlanAt(cap, offset, pdus, i - 1);
      assert ps[..i][1..] == rest[..i - 1] && pdus[..i][1..] == pdus[1..][..i - 1];
      assert ps[..i][0] == ps[0] && pdus[..i][0] == pdus[0];
    }
  }

  /** The room a list of blocks takes when each starts on a multiple of 32 bytes. */
  function Needed(pdus: seq<TxPdu>): nat
  {
    if pdus == [] then 0 else (|pdus[0].block| + 31) / 32 * 32 + Needed(pdus[1..])
  }

  predicate NoneWraps(pdus: seq<TxPdu>)
  {
    forall i :: 0 <= i < |pdus| ==> |pdus[i].block| <= 0xFFFF_FFE0
  }

  lemma NoneWrapsTail(all: seq<TxPdu>, tail: seq<TxPdu>)
    requires NoneWraps(all) && all != [] && tail == all[1..]
    ensures NoneWraps(tail)
  {
  }

  lemma {:induction false} FrontPlaced(cap: nat, offset: nat, pdus: seq<TxPdu>, i: nat)
    requires i < |pdus| && NoneWraps(pdus[..i]) && offset + Needed(pdus[..i]) + |pdus[i].block| <= cap
    ensures Plan(Some(cap), offset, pdus)[i] == Placement(offset + Needed(pdus[..i]), true)
    decreases i
  {
    hide Stride;
    var n := |pdus[0].block|;
    var next := Next(Some(cap), offset, n);
    StrideRounds(n);
    if i == 0 {
      assert pdus[..0] == [];
    } else {
      assert pdus[..i][0] == pdus[0] && pdus[..i][1..] == pdus[1..][..i - 1];
      NoneWrapsTail(pdus[..i], pdus[1..][..i - 1]);
      FrontPlaced(cap, next, pdus[1..], i - 1);
      PlanAt(Some(cap), offset, pdus, i - 1);
    }
  }

  /** Bytes in front of the running offset are never touched again. */
  lemma {:induction false} ScatterKeepsFront(data: seq<Byte>, offset: nat, pdus: seq<TxPdu>, k: nat)
    requires offset % ALIGN == 0 && offset < |data| + ALIGN && k < offset && k < |data|
    ensures Scattered(data, offset, pdus)[k] == data[k]
    decreases |pdus|
  {
    hide Room, Stride, Next, RoundedUp, Scattered;
    if pdus == [] {
      ScatterEnd(data, offset);
    } else {
      var b := pdus[0].block;
      NextMoves(|data|, offset, |b|);
      ScatterUnfold(data, offset, pdus);
      ScatterKeepsFront(AfterCopy(data, offset, b), Next(Some(|data|), offset, |b|), pdus[1..], k);
    }
  }

  /** The data buffer after one turn of the loop. */
  function AfterCopy(data: seq<Byte>, offset: nat, b: Block): (d: seq<Byte>)
    ensures |d| == |data|
    ensures forall k :: 0 <= k < |data| && k < offset ==> d[k] == data[k]
    ensures Room(Some(|data|), offset, |b|) ==> d[offset..offset + |b|] == b
  {
    if Room(Some(|data|), offset, |b|) then Overwrite(data, offset, b) else data
  }

  /** Every copied block whose rounded length does not wrap is found, byte for byte, at its planned offset once all the
      copies are done. */
  lemma {:induction false} BlockInPlace(data: seq<Byte>, offset: nat, pdus: seq<TxPdu>, i: nat)
    requires offset % ALIGN == 0 && offset < |data| + ALIGN
    requires i < |pdus| && Plan(Some(|data|), offset, pdus)[i].copied && |pdus[i].block| <= 0xFFFF_FFE0
    ensures var p := Plan(Some(|data|), offset, pdus)[i];
            p.offset + |pdus[i].block| <= |data| && Scattered(data, offset, pdus)[p.offset..p.offset + |pdus[i].block|] == pdus[i].block
    decreases |pdus|
  {
    hide Plan, Stride, Next, Scattered, Room, RoundedUp, AfterCopy;
    var b := pdus[0].block;
    var cap := Some(|data|);
    var next := Next(cap, offset, |b|);
    NextMoves(|data|, offset, |b|);
    PlanUnfold(cap, offset, pdus);
    ScatterUnfold(data, offset, pdus);
    var d1 := AfterCopy(data, offset, b);
    if i == 0 {
      FirstInPlace(data, offset, pdus);
    } else {
      assert Plan(cap, offset, pdus)[(i - 1) + 1] == Plan(cap, next, pdus[1..])[i - 1];
      BlockInPlace(d1, next, pdus[1..], i - 1);
    }
  }

  /** As long as they fit, blocks are copied end to end from the front of the buffer, each on the next multiple of 32. */
  lemma FrontInPlace(data: seq<Byte>, pdus: seq<TxPdu>, i: nat)
    requires i < |pdus| && NoneWraps(pdus[..i + 1]) && Needed(pdus[..i]) + |pdus[i].block| <= |data|
    ensures var at := Needed(pdus[..i]);
            && Plan(Some(|data|), 0, pdus)[i] == Placement(at, true)
            && Scattered(data, 0, pdus)[at..at + |pdus[i].block|] == pdus[i].block
  {
    hide Plan, Scattered, Needed;
    assert pdus[..i + 1][..i] == pdus[..i];
    assert pdus[..i + 1][i] == pdus[i];
    forall j | 0 <= j < i ensures |pdus[..i][j].block| <= 0xFFFF_FFE0 {
      assert pdus[..i + 1][j] == pdus[..i][j];
    }
    FrontPlaced(|data|, 0, pdus, i);
    BlockInPlace(data, 0, pdus, i);
  }

  lemma FirstInPlace(data: seq<Byte>, offset: nat, pdus: seq<TxPdu>)
    requires pdus != [] && offset % ALIGN == 0 && offset < |data| + ALIGN
    requires Room(Some(|data|), offset, |pdus[0].block|) && |pdus[0].block| <= 0xFFFF_FFE0
    ensures var b := pdus[0].block; offset + |b| <= |data| && Scattered(data, offset, pdus)[offset..offset + |b|] == b
  {
    hide Stride, Next, Scattered, RoundedUp, AfterCopy;
    var b := pdus[0].block;
    var next := Next(Some(|data|), offset, |b|);
    NextMoves(|data|, offset, |b|);
    ScatterUnfold(data, offset, pdus);
    var d1 := AfterCopy(data, offset, b);
    var r := Scattered(data, offset, pdus);
    forall k | 0 <= k < |b| ensures r[offset..offset + |b|][k] == b[k] {
      ScatterKeepsFront(d1, next, pdus[1..], offset + k);
      assert d1[offset..offset + |b|][k] == d1[offset + k];
    }
  }

  lemma ScatterUnfold(data: seq<Byte>, offset: nat, pdus: seq<TxPdu>)
    requires pdus != []
    ensures var b := pdus[0].block;
            Scattered(data, offset, pdus) == Scattered(AfterCopy(data, offset, b), Next(Some(|data|), offset, |b|), pdus[1..])
  {
  }

  /** A byte that no copied block covers keeps its old value. */
  lemma {:induction false} RestUntouched(data: seq<Byte>, offset: nat, pdus: seq<TxPdu>, k: nat)
    requires k < |data|
    requires var ps := Plan(Some(|data|), offset, pdus);
             forall i :: 0 <= i < |ps| && ps[i].copied ==> !(ps[i].offset <= k < ps[i].offset + |pdus[i].block|)
    ensures Scattered(data, offset, pdus)[k] == data[k]
    decreases |pdus|
  {
    if pdus != [] {
      var b := pdus[0].block;
      var cap := Some(|data|);
      var next := Next(cap, offset, |b|);
      var ps, rest := Plan(cap, offset, pdus), Plan(cap, next, pdus[1..]);
      assert ps[0] == Placement(offset, Room(cap, offset, |b|));
      forall i | 0 <= i < |rest| && rest[i].copied ensures !(rest[i].offset <= k < rest[i].offset + |pdus[1..][i].block|) {
        assert ps[i + 1] == rest[i];
      }
      RestUntouched(if Room(cap, offset, |b|) then Overwrite(data, offset, b) else data, next, pdus[1..], k);
    }
  }

  /** In whole 32-byte units the running offset never leaves the buffer, however long the blocks. */
  lemma {:induction false} WrittenStaysIn(cap: nat, offset: nat, pdus: seq<TxPdu>)
    requires cap % ALIGN == 0 && offset % ALIGN == 0 && offset <= cap
    ensures Written(Some(cap), offset, pdus) <= cap
    decreases |pdus|
  {
    hide Stride, Next;
    if pdus != [] {
      NextStaysIn(cap, offset, |pdus[0].block|);
      WrittenStaysIn(cap, Next(Some(cap), offset, |pdus[0].block|), pdus[1..]);
    }
  }

  lemma NextStaysIn(cap: nat, offset: nat, n: U32)
    requires cap % ALIGN == 0 && offset % ALIGN == 0 && offset <= cap
    ensures Next(Some(cap), offset, n) <= cap && Next(Some(cap), offset, n) % ALIGN == 0
  {
    hide Padding, Stride, RoundedUp;
    PaddingAligns(n);
    if n <= 0xFFFF_FFE0 && offset + n <= cap {
      StrideRounds(n);
      SumAligned(offset, RoundedUp(n));
      AlignedRoom(cap, offset + RoundedUp(n), offset + n);
    }
  }

  lemma AlignedRoom(cap: nat, x: nat, y: nat)
    requires cap % 32 == 0 && x % 32 == 0 && y <= cap && x < y + 32
    ensures x <= cap
  {
    var q, o := cap / 32, x / 32;
    assert cap == 32 * q && x == 32 * o;
  }

  /** Blocks of 32 bytes and a short one behind them. */
  function Filling(k: nat, r: nat): seq<TxPdu>
    requires r < ALIGN
  {
    if k == 0 then [TxPdu(0, Zeroed(r))] else [TxPdu(0, Zeroed(ALIGN))] + Filling(k - 1, r)
  }

  /** They fill any buffer that is not a whole number of units to its end, and are reported past it. */
  lemma {:induction false} FillingOverflows(cap: nat, offset: nat, k: nat, r: nat)
    requires 0 < r < ALIGN && offset + ALIGN * k + r == cap
    ensures Written(Some(cap), offset, Filling(k, r)) == cap - r + ALIGN
    decreases k
  {
    hide Stride;
    var n := if k == 0 then r else ALIGN;
    var pdus := Filling(k, r);
    assert |pdus[0].block| == n && Stride(n) == ALIGN by {
      StrideRounds(n);
    }
    if k == 0 {
      assert pdus[1..] == [];
    } else {
      assert pdus[1..] == Filling(k - 1, r);
      FillingOverflows(cap, offset + ALIGN, k - 1, r);
    }
  }

  /** With a data buffer in whole 32-byte units no list of blocks is reported to fill more than the buffer; with any
      other length some list is. */
  lemma WrittenFits(cap: nat)
    ensures (forall pdus :: Written(Some(cap), 0, pdus) <= cap) <==> cap % ALIGN == 0
  {
    hide Written;
    if cap % ALIGN == 0 {
      forall pdus ensures Written(Some(cap), 0, pdus) <= cap {
        WrittenStaysIn(cap, 0, pdus);
      }
    } else {
      FillingOverflows(cap, 0, cap / ALIGN, cap % ALIGN);
    }
  }

  // ---------------------------------------------------------------- the message speaks of the data buffer

  /** What a reader of the message takes from record `i`. */
  datatype Listed = Listed(length: nat, index: nat, tlvCount: nat, tag: nat, tlvLength: nat, offset: nat)

  function ReadRecord(s: seq<Byte>): Option<Listed>
  {
    match Decode([S32, S16, S32, S16, S16, S32], s)
    case None => None
    case Some(d) =>
      if |d.fields| == 6 && d.fields[0].F32? && d.fields[1].F16? && d.fields[2].F32? && d.fields[3].F16? && d.fields[4].F16? && d.fields[5].F32?
      then Some(Listed(d.fields[0].u32, d.fields[1].u16, d.fields[2].u32, d.fields[3].u16, d.fields[4].u16, d.fields[5].u32))
      else None
  }

  lemma RecordBack(p: TxPdu, offset: nat, rest: seq<Byte>)
    ensures ReadRecord(Encode(RecordFields(p, offset)) + rest) ==
            Some(Listed(|p.block|, p.index, 1, 2, |p.block| % 0x1_0000, offset % 0x1_0000_0000))
  {
    hide Encode, Decode;
    var f := RecordFields(p, offset);
    assert Shapes(f) == [S32, S16, S32, S16, S16, S32];
    EncodeDecode(f, rest);
  }

  lemma {:induction false} RecordsBack(cap: Option<nat>, offset: nat, pdus: seq<TxPdu>, i: nat)
    requires i < |pdus|
    ensures |RecordsBytes(cap, offset, pdus)| == RECORD * |pdus|
    ensures ReadRecord(RecordsBytes(cap, offset, pdus)[RECORD * i..]) ==
            Some(Listed(|pdus[i].block|, pdus[i].index, 1, 2, |pdus[i].block| % 0x1_0000, Plan(cap, offset, pdus)[i].offset % 0x1_0000_0000))
    decreases i
  {
    hide Next, Room, ReadRecord, Encode, Decode, RecordFields, RecordsBytes, Plan;
    var next := Next(cap, offset, |pdus[0].block|);
    var first, rest := Encode(RecordFields(pdus[0], offset)), RecordsBytes(cap, next, pdus[1..]);
    RecordsWidth(cap, offset, pdus);
    RecordsWidth(cap, next, pdus[1..]);
    RecordWidth(pdus[0], offset);
    RecordsUnfold(cap, offset, pdus);
    if i == 0 {
      assert (first + rest)[0..] == first + rest;
      RecordBack(pdus[0], offset, rest);
    } else {
      RecordsBack(cap, next, pdus[1..], i - 1);
      PlanAt(cap, offset, pdus, i - 1);
      Behind(first, rest, RECORD * (i - 1));
    }
  }

  lemma RecordsUnfold(cap: Option<nat>, offset: nat, pdus: seq<TxPdu>)
    requires pdus != []
    ensures RecordsBytes(cap, offset, pdus)
            == Encode(RecordFields(pdus[0], offset)) + RecordsBytes(cap, Next(cap, offset, |pdus[0].block|), pdus[1..])
    ensures Plan(cap, offset, pdus)[0].offset == offset
  {
  }

  lemma Behind(a: seq<Byte>, b: seq<Byte>, k: nat)
    requires k <= |b|
    ensures (a + b)[|a| + k..] == b[k..]
  {
  }

  /** What a reader takes from the headers and the head of the message. */
  lemma MessageHeadRead(cellId: Byte, sfn: U16, slot: U16, cap: Option<nat>, pdus: seq<TxPdu>)
    ensures var s := MessageBytes(cellId, sfn, slot, cap, pdus);
            && |s| == 14 + 18 * |pdus| && s[0] == 1 && s[1] == cellId && U16At(s, 2) == 0x84
            && U32At(s, 4) == (|s| - 8) % 0x1_0000_0000
            && U16At(s, 8) == sfn && U16At(s, 10) == slot && U16At(s, 12) == |pdus| % 0x1_0000
  {
    hide RecordsBytes, HeaderBytes, Encode;
    var body, records, n := BodyBytes(sfn, slot, cap, pdus), RecordsBytes(cap, 0, pdus), |pdus| % 0x1_0000;
    var header := HeaderBytes(cellId, TX_DATA_REQUEST, |body| % 0x1_0000_0000);
    HeadWidth(sfn, slot, n);
    RecordsWidth(cap, 0, pdus);
    LengthBack(cellId, TX_DATA_REQUEST, |body| % 0x1_0000_0000, body);
    MessageHeadBack(header, sfn, slot, n, records);
    assert header + body == header + Le16(sfn) + Le16(slot) + Le16(n) + records;
  }

  /** Reading record `i` of the finished message gives the full length and, in 32 bits, the offset at which block `i` of
      the finished data buffer lies, if it was copied. */
  lemma MessageLocatesBlocks(cellId: Byte, sfn: U16, slot: U16, data: seq<Byte>, pdus: seq<TxPdu>, i: nat)
    requires i < |pdus|
    ensures var s := MessageBytes(cellId, sfn, slot, Some(|data|), pdus);
            var p := Plan(Some(|data|), 0, pdus)[i];
            && MESSAGE_HEAD + RECORD * i <= |s|
            && ReadRecord(s[MESSAGE_HEAD + RECORD * i..]) ==
               Some(Listed(|pdus[i].block|, pdus[i].index, 1, 2, |pdus[i].block| % 0x1_0000, p.offset % 0x1_0000_0000))
            && (|data| <= 0xFFFF_FFE0 ==> p.offset < 0x1_0000_0000)
            && (p.copied && |pdus[i].block| <= 0xFFFF_FFE0 ==>
                  && p.offset + |pdus[i].block| <= |data|
                  && Scattered(data, 0, pdus)[p.offset..p.offset + |pdus[i].block|] == pdus[i].block)
  {
    hide Plan, Scattered, RecordsBytes, ReadRecord, HeaderBytes, Encode;
    var cap := Some(|data|);
    var records := RecordsBytes(cap, 0, pdus);
    var s := MessageBytes(cellId, sfn, slot, cap, pdus);
    RecordsBack(cap, 0, pdus, i);
    Placements(|data|, 0, pdus);
    if Plan(cap, 0, pdus)[i].copied && |pdus[i].block| <= 0xFFFF_FFE0 {
      BlockInPlace(data, 0, pdus, i);
    }
    assert Sound(|data|, 0, Plan(cap, 0, pdus)[i], |pdus[i].block|);
    HeadWidth(sfn, slot, |pdus| % 0x1_0000);
    var head := HeaderBytes(cellId, TX_DATA_REQUEST, |BodyBytes(sfn, slot, cap, pdus)| % 0x1_0000_0000)
                + Encode([F16(sfn), F16(slot), F16(|pdus| % 0x1_0000)]);
    assert |head| == MESSAGE_HEAD && s == head + records;
    assert s[MESSAGE_HEAD + RECORD * i..] == records[RECORD * i..];
  }
}
