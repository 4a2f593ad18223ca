/** RX_DATA.indication (SCF 222, section 3.4.7): transport blocks handed over as slices of the data buffer. */
module RxDataMessages {
  import opened Wire
  import opened Reports

  const MESSAGE_HEAD: nat := 14
  const RECORD: nat := 16

  // ---------------------------------------------------------------- what a message says

  /** The block of declared length `len` when `offset` bytes have been handed out; there may be no data buffer. */
  function Block(data: Option<nat>, offset: nat, len: nat): Option<Span>
  {
    if data.Some? && offset + len <= data.value then Some(Span(offset, len)) else None
  }

  function Advance(data: Option<nat>, offset: nat, len: nat): nat
  {
    if Block(data, offset, len).Some? then offset + len else offset
  }

  function First(slot: SlotPoint, s: seq<Byte>, data: Option<nat>, offset: nat): RxDataIndication
    requires RECORD <= |s|
  {
    RxDataIndication(slot, U32At(s, 0), U16At(s, 4), s[6], Block(data, offset, U32At(s, 7)))
  }

  function Walk(slot: SlotPoint, s: seq<Byte>, n: nat, data: Option<nat>, offset: nat): seq<RxDataIndication>
    decreases n
  {
    if n == 0 || |s| < RECORD then []
    else [First(slot, s, data, offset)] + Walk(slot, s[RECORD..], n - 1, data, Advance(data, offset, U32At(s, 7)))
  }

  /** The lengths the records declare, delivered or not. */
  function Declared(s: seq<Byte>, n: nat): seq<nat>
    decreases n
  {
    if n == 0 || |s| < RECORD then [] else [U32At(s, 7)] + Declared(s[RECORD..], n - 1)
  }

  function Notifications(s: seq<Byte>, numerology: nat, data: Option<nat>): seq<RxDataIndication>
  {
    if |s| < MESSAGE_HEAD then []
    else Walk(SlotPoint(numerology, U16At(s, 8), U16At(s, 10)), s[MESSAGE_HEAD..], U16At(s, 12), data, 0)
  }

  function DeclaredIn(s: seq<Byte>): seq<nat>
  {
    if |s| < MESSAGE_HEAD then [] else Declared(s[MESSAGE_HEAD..], U16At(s, 12))
  }

  // ---------------------------------------------------------------- the dispatcher

  lemma Start(c: Counters, all: seq<RxDataIndication>, lens: seq<nat>)
    ensures [] + all == all && [] + lens == lens && CountAllRxData(c, []) == c
  {
  }

  lemma Snoc(c: Counters, lens: seq<nat>, x: nat)
    ensures CountAllRxData(c, lens + [x]) == CountRxData(CountAllRxData(c, lens), x)
  {
    assert (lens + [x])[..|lens|] == lens;
  }

  lemma WalkStep(slot: SlotPoint, s: seq<Byte>, p: nat, n: nat, data: Option<nat>, offset: nat,
                 done: seq<RxDataIndication>, all: seq<RxDataIndication>, lens: seq<nat>, allLens: seq<nat>)
    requires p + RECORD <= |s| && 0 < n
    requires done + Walk(slot, s[p..], n, data, offset) == all && lens + Declared(s[p..], n) == allLens
    ensures var len := U32At(s[p..], 7);
            && done + [First(slot, s[p..], data, offset)] + Walk(slot, s[p + RECORD..], n - 1, data, Advance(data, offset, len)) == all
            && lens + [len] + Declared(s[p + RECORD..], n - 1) == allLens
  {
    hide First;
    assert s[p..][RECORD..] == s[p + RECORD..];
  }

  lemma End(slot: SlotPoint, s: seq<Byte>, n: nat, data: Option<nat>, offset: nat, done: seq<RxDataIndication>, lens: seq<nat>)
    requires n == 0 || |s| < RECORD
    ensures done + Walk(slot, s, n, data, offset) == done && lens + Declared(s, n) == lens
  {
  }

  method Report(n: Notifier, m: Metrics, r: RxDataIndication, len: nat)
    modifies n`rxData, m
    ensures n.rxData == old(n.rxData) + [r] && m.now == CountRxData(old(m.now), len)
  {
    n.rxData := n.rxData + [r];
    m.now := m.now.(rxDataPdus := Bump(m.now.rxDataPdus, 1));
    m.now := m.now.(rxDataBytes := Bump(m.now.rxDataBytes, len));
  }

  /** The body of the loop: one record, and the slice of the data buffer it is given. */
  method ReadRecord(buf: array<Byte>, bufLen: nat, p: nat, slot: SlotPoint, data: Option<nat>, offset: nat)
    returns (ind: RxDataIndication, len: nat, next: nat)
    requires p + RECORD <= bufLen <= buf.Length
    ensures ind == First(slot, buf[..bufLen][p..], data, offset)
    ensures len == U32At(buf[..bufLen][p..], 7) && next == Advance(data, offset, len)
  {
    var r := buf[p..p + RECORD];
    assert forall i :: 0 <= i < RECORD ==> r[i] == buf[..bufLen][p..][i];
    len := U32At(r, 7);
    var block: Option<Span> := None;
    next := offset;
    if data.Some? && offset + len <= data.value {
      block := Some(Span(offset, len));
      next := offset + len;
    }
    ind := RxDataIndication(slot, U32At(r, 0), U16At(r, 4), r[6], block);
  }

  /** dispatch_rx_data_indication. `data` is the length of the data buffer, if there is one. */
  method Dispatch(buf: array<Byte>, bufLen: nat, data: Option<nat>, numerology: nat, n: Notifier, m: Metrics)
    requires bufLen <= buf.Length
    modifies n`rxData, m
    ensures n.rxData == old(n.rxData) + Notifications(buf[..bufLen], numerology, data)
    ensures m.now == CountAllRxData(old(m.now), DeclaredIn(buf[..bufLen]))
  {
    hide Walk, Declared, CountAllRxData;
    if bufLen < MESSAGE_HEAD {
      Start(m.now, n.rxData, []);
      return;
    }
    var head := buf[..MESSAGE_HEAD];
    assert head == buf[..bufLen][..MESSAGE_HEAD];
    DispatchAll(buf, bufLen, data, SlotPoint(numerology, U16At(head, 8), U16At(head, 10)), U16At(head, 12), n, m);
  }

  method DispatchAll(buf: array<Byte>, bufLen: nat, data: Option<nat>, slot: SlotPoint, nofPdus: nat, n: Notifier, m: Metrics)
    requires MESSAGE_HEAD <= bufLen <= buf.Length
    modifies n`rxData, m
    ensures n.rxData == old(n.rxData) + Walk(slot, buf[..bufLen][MESSAGE_HEAD..], nofPdus, data, 0)
    ensures m.now == CountAllRxData(old(m.now), Declared(buf[..bufLen][MESSAGE_HEAD..], nofPdus))
  {
    hide Walk, Declared, First, Block, Advance, CountAllRxData, CountRxData;
    ghost var s := buf[..bufLen];
    ghost var all, allLens := Walk(slot, s[MESSAGE_HEAD..], nofPdus, data, 0), Declared(s[MESSAGE_HEAD..], nofPdus);
    ghost var done: seq<RxDataIndication>, lens: seq<nat> := [], [];
    Start(m.now, all, allLens);
    var p: int := MESSAGE_HEAD;
    var offset := 0;
    var i := 0;
    while i < nofPdus
      invariant 0 <= i <= nofPdus && MESSAGE_HEAD <= p <= bufLen
      invariant done + Walk(slot, s[p..], nofPdus - i, data, offset) == all
      invariant lens + Declared(s[p..], nofPdus - i) == allLens
      invariant n.rxData == old(n.rxData) + done && m.now == CountAllRxData(old(m.now), lens)
    {
      if p + RECORD > bufLen {
        break;
      }
      var ind, len, next := ReadRecord(buf, bufLen, p, slot, data, offset);
      WalkStep(slot, s, p, nofPdus - i, data, offset, done, all, lens, allLens);
      Snoc(old(m.now), lens, len);
      Report(n, m, ind, len);
      done, lens := done + [ind], lens + [len];
      p, offset, i := p + RECORD, next, i + 1;
    }
    End(slot, s[p..], nofPdus - i, data, offset, done, lens);
  }

  // ---------------------------------------------------------------- delivery

  function Spans(rs: seq<RxDataIndication>): seq<Span>
  {
    if rs == [] then [] else (if rs[0].block.Some? then [rs[0].block.value] else []) + Spans(rs[1..])
  }

  /** Spans that tile `from..to`, each starting where the one before it ended. */
  predicate Tiles(spans: seq<Span>, from: nat, to: nat)
  {
    if spans == [] then from == to
    else spans[0].start == from && Tiles(spans[1..], from + spans[0].length, to)
  }

  /** How far into the data buffer a walk hands out blocks. */
  function Reach(s: seq<Byte>, n: nat, data: Option<nat>, offset: nat): nat
    decreases n
  {
    if n == 0 || |s| < RECORD then offset else Reach(s[RECORD..], n - 1, data, Advance(data, offset, U32At(s, 7)))
  }

  /** What is delivered tiles the front of the data buffer and never leaves it. */
  lemma {:induction false} DeliveredTile(slot: SlotPoint, s: seq<Byte>, n: nat, data: Option<nat>, offset: nat)
    requires data.Some? ==> offset <= data.value
    ensures Tiles(Spans(Walk(slot, s, n, data, offset)), offset, Reach(s, n, data, offset))
    ensures data.Some? ==> Reach(s, n, data, offset) <= data.value
    decreases n
  {
    if n > 0 && RECORD <= |s| {
      var next := Advance(data, offset, U32At(s, 7));
      var rest := Walk(slot, s[RECORD..], n - 1, data, next);
      DeliveredTile(slot, s[RECORD..], n - 1, data, next);
      var w := Walk(slot, s, n, data, offset);
      assert w[1..] == rest;
      var f := w[0].block;
      if f.Some? {
        assert ([f.value] + Spans(rest))[1..] == Spans(rest);
      } else {
        assert [] + Spans(rest) == Spans(rest);
      }
    }
  }

  /** Tiling spans are in order, disjoint, and inside their range. */
  lemma {:induction false} TilesAreApart(spans: seq<Span>, from: nat, to: nat)
    requires Tiles(spans, from, to)
    ensures from <= to
    ensures forall i :: 0 <= i < |spans| ==> from <= spans[i].start && spans[i].start + spans[i].length <= to
    ensures forall i, j :: 0 <= i < j < |spans| ==> spans[i].start + spans[i].length <= spans[j].start
  {
    if spans != [] {
      TilesAreApart(spans[1..], from + spans[0].length, to);
    }
  }

  function Gather(data: seq<Byte>, spans: seq<Span>): seq<Byte>
    requires forall i :: 0 <= i < |spans| ==> spans[i].start + spans[i].length <= |data|
  {
    if spans == [] then [] else data[spans[0].start..spans[0].start + spans[0].length] + Gather(data, spans[1..])
  }

  lemma {:induction false} GatherTiles(data: seq<Byte>, spans: seq<Span>, from: nat, to: nat)
    requires Tiles(spans, from, to) && to <= |data|
    requires forall i :: 0 <= i < |spans| ==> spans[i].start + spans[i].length <= |data|
    ensures from <= to && Gather(data, spans) == data[from..to]
  {
    TilesAreApart(spans, from, to);
    if spans != [] {
      var mid := from + spans[0].length;
      GatherTiles(data, spans[1..], mid, to);
      Adjacent(data, from, mid, to);
    }
  }

  lemma Adjacent(data: seq<Byte>, from: nat, mid: nat, to: nat)
    requires from <= mid <= to <= |data|
    ensures data[from..mid] + data[mid..to] == data[from..to]
  {
  }

  lemma {:induction false} AllDelivered(slot: SlotPoint, s: seq<Byte>, n: nat, len: nat, offset: nat)
    requires offset <= len
    ensures |Walk(slot, s, n, Some(len), offset)| == |Declared(s, n)|
    ensures AllBlocks(Walk(slot, s, n, Some(len), offset)) <==> offset + Sum(Declared(s, n)) <= len
    ensures offset + Sum(Declared(s, n)) <= len ==> Reach(s, n, Some(len), offset) == offset + Sum(Declared(s, n))
    decreases n
  {
    hide AllBlocks, Sum;
    if n == 0 || |s| < RECORD {
      NothingDeclared();
    } else {
      var x := U32At(s, 7);
      var next := Advance(Some(len), offset, x);
      AllDelivered(slot, s[RECORD..], n - 1, len, next);
      SumCons(x, Declared(s[RECORD..], n - 1));
      AllBlocksCons(First(slot, s, Some(len), offset), Walk(slot, s[RECORD..], n - 1, Some(len), next));
    }
  }

  lemma SumCons(x: nat, rest: seq<nat>)
    ensures Sum([x] + rest) == x + Sum(rest)
  {
    SumAppend([x], rest);
    assert [x][..0] == [];
    assert Sum([x]) == x;
  }

  lemma NothingDeclared()
    ensures Sum([]) == 0 && AllBlocks([])
  {
  }

  predicate AllBlocks(rs: seq<RxDataIndication>)
  {
    forall i :: 0 <= i < |rs| ==> rs[i].block.Some?
  }

  lemma AllBlocksCons(r: RxDataIndication, rest: seq<RxDataIndication>)
    ensures AllBlocks([r] + rest) <==> r.block.Some? && AllBlocks(rest)
  {
    var w := [r] + rest;
    if AllBlocks(w) {
      assert w[0] == r;
      forall i | 0 <= i < |rest| ensures rest[i].block.Some? {
        assert w[i + 1] == rest[i];
      }
    }
  }

  /** Every block is delivered if and only if the declared lengths fit the data buffer together; then the blocks,
      joined, are the buffer's prefix of that total length. */
  lemma Delivery(s: seq<Byte>, numerology: nat, data: seq<Byte>)
    ensures var rs := Notifications(s, numerology, Some(|data|));
            var total := Sum(DeclaredIn(s));
            && (AllBlocks(rs) <==> total <= |data|)
            && (forall i :: 0 <= i < |Spans(rs)| ==> Spans(rs)[i].start + Spans(rs)[i].length <= |data|)
            && (total <= |data| ==> Gather(data, Spans(rs)) == data[..total])
  {
    hide Walk, Declared, Spans, Sum, AllBlocks, Reach;
    if MESSAGE_HEAD <= |s| {
      var slot, t, n := SlotPoint(numerology, U16At(s, 8), U16At(s, 10)), s[MESSAGE_HEAD..], U16At(s, 12);
      DeliveredTile(slot, t, n, Some(|data|), 0);
      AllDelivered(slot, t, n, |data|, 0);
      var spans := Spans(Walk(slot, t, n, Some(|data|), 0));
      TilesAreApart(spans, 0, Reach(t, n, Some(|data|), 0));
      GatherTiles(data, spans, 0, Reach(t, n, Some(|data|), 0));
    } else {
      NothingSpans();
      NothingDeclared();
    }
  }

  lemma NothingSpans()
    ensures Spans([]) == []
  {
  }

  // ---------------------------------------------------------------- round trip

  datatype Record = Record(handle: U32, rnti: U16, harqId: Byte, length: U32, cqi: Byte, timingAdvance: U16, rssi: U16)

  function RecordBytes(r: Record): (b: seq<Byte>)
    ensures |b| == RECORD
  {
    Le32(r.handle) + Le16(r.rnti) + [r.harqId] + Le32(r.length) + [r.cqi] + Le16(r.timingAdvance) + Le16(r.rssi)
  }

  function AllRecordBytes(rs: seq<Record>): seq<Byte>
  {
    if rs == [] then [] else RecordBytes(rs[0]) + AllRecordBytes(rs[1..])
  }

  /** What the receiver should be told: each block starts where the blocks that fitted before it end, and one that does
      not fit the data buffer there, or has no data buffer, is left out. */
  function Meaning(slot: SlotPoint, rs: seq<Record>, data: Option<nat>, offset: nat): seq<RxDataIndication>
  {
    if rs == [] then []
    else
      var r := rs[0];
      var end := offset + r.length;
      if data.None? || data.value < end
      then [RxDataIndication(slot, r.handle, r.rnti, r.harqId, None)] + Meaning(slot, rs[1..], data, offset)
      else [RxDataIndication(slot, r.handle, r.rnti, r.harqId, Some(Span(offset, r.length)))] + Meaning(slot, rs[1..], data, end)
  }

  lemma RecordBack(slot: SlotPoint, r: Record, post: seq<Byte>, data: Option<nat>, offset: nat)
    ensures var s := RecordBytes(r) + post;
            && First(slot, s, data, offset) == RxDataIndication(slot, r.handle, r.rnti, r.harqId, Block(data, offset, r.length))
            && U32At(s, 7) == r.length && s[RECORD..] == post
  {
    var s := RecordBytes(r) + post;
    assert forall i :: 0 <= i < RECORD ==> s[i] == RecordBytes(r)[i];
    JoinWord(r.handle);
    JoinWord(r.length);
  }

  lemma {:induction false} WalkBack(slot: SlotPoint, rs: seq<Record>, post: seq<Byte>, data: Option<nat>, offset: nat)
    ensures Walk(slot, AllRecordBytes(rs) + post, |rs|, data, offset) == Meaning(slot, rs, data, offset)
    ensures Declared(AllRecordBytes(rs) + post, |rs|) == seq(|rs|, i requires 0 <= i < |rs| => rs[i].length)
  {
    hide First, RecordBytes;
    if rs != [] {
      var rest := AllRecordBytes(rs[1..]) + post;
      RecordBack(slot, rs[0], rest, data, offset);
      assert AllRecordBytes(rs) + post == RecordBytes(rs[0]) + rest;
      WalkBack(slot, rs[1..], post, data, Advance(data, offset, rs[0].length));
    }
  }

  function MessageBytes(envelope: seq<Byte>, sfn: U16, slot: U16, rs: seq<Record>): seq<Byte>
    requires |rs| < 0x1_0000
  {
    envelope + Le16(sfn) + Le16(slot) + Le16(|rs|) + AllRecordBytes(rs)
  }

  /** A whole message, whatever follows it: one notification per record, in order, each with the block that comes next. */
  lemma {:induction false} RoundTrip(envelope: seq<Byte>, sfn: U16, slot: U16, rs: seq<Record>, post: seq<Byte>, numerology: nat, data: Option<nat>)
    requires |envelope| == 8 && |rs| < 0x1_0000
    ensures var s := MessageBytes(envelope, sfn, slot, rs) + post;
            && Notifications(s, numerology, data) == Meaning(SlotPoint(numerology, sfn, slot), rs, data, 0)
            && DeclaredIn(s) == seq(|rs|, i requires 0 <= i < |rs| => rs[i].length)
  {
    hide Walk, Declared, Meaning, AllRecordBytes;
    var body := AllRecordBytes(rs) + post;
    MessageHeadBack(envelope, sfn, slot, |rs|, body);
    assert MessageBytes(envelope, sfn, slot, rs) + post == envelope + Le16(sfn) + Le16(slot) + Le16(|rs|) + body;
    WalkBack(SlotPoint(numerology, sfn, slot), rs, post, data, 0);
  }
}
