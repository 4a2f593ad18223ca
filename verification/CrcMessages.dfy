/** CRC.indication (SCF 222, section 3.4.8), in the layout without the 10.04 extensions. */
module CrcMessages {
  import opened Wire
  import opened Reports

  const MESSAGE_HEAD: nat := 14
  const RECORD_HEAD: nat := 10
  const RECORD_TAIL: nat := 5

  // ---------------------------------------------------------------- what a message says

  /** The measurements behind the code-block status array, when the buffer still holds them. */
  function MeasurementAt(s: seq<Byte>): Option<CrcMeasurement>
    requires RECORD_HEAD <= |s|
  {
    var q := RECORD_HEAD + U16At(s, 8);
    if q + RECORD_TAIL <= |s| then Some(CrcMeasurement(s[q], U16At(s, q + 3))) else None
  }

  function First(slot: SlotPoint, s: seq<Byte>): CrcIndication
    requires RECORD_HEAD <= |s|
  {
    CrcIndication(slot, U32At(s, 0), U16At(s, 4), s[6], s[7] == 0, MeasurementAt(s))
  }

  /** Where the cursor goes after the record; the status array is skipped unchecked, so it may leave the buffer. */
  function FirstSize(s: seq<Byte>): (n: nat)
    requires RECORD_HEAD <= |s|
    ensures RECORD_HEAD <= n
  {
    RECORD_HEAD + U16At(s, 8) + if MeasurementAt(s).Some? then RECORD_TAIL else 0
  }

  function From(s: seq<Byte>, p: nat): seq<Byte>
  {
    if p <= |s| then s[p..] else []
  }

  function Walk(slot: SlotPoint, s: seq<Byte>, n: nat): seq<CrcIndication>
    decreases n
  {
    if n == 0 || |s| < RECORD_HEAD then []
    else [First(slot, s)] + Walk(slot, From(s, FirstSize(s)), n - 1)
  }

  function Notifications(s: seq<Byte>, numerology: nat): seq<CrcIndication>
  {
    if |s| < MESSAGE_HEAD then []
    else Walk(SlotPoint(numerology, U16At(s, 8), U16At(s, 10)), s[MESSAGE_HEAD..], U16At(s, 12))
  }

  // ---------------------------------------------------------------- the dispatcher

  /** The body of the loop: reads the record at `p` field by field. */
  method ReadRecord(buf: array<Byte>, bufLen: nat, p: nat, slot: SlotPoint) returns (ind: CrcIndication, next: nat)
    requires p + RECORD_HEAD <= bufLen <= buf.Length
    ensures ind == First(slot, buf[p..bufLen])
    ensures next == p + FirstSize(buf[p..bufLen])
  {
    ghost var s := buf[p..bufLen];
    var head := buf[p..p + RECORD_HEAD];
    assert forall i :: 0 <= i < RECORD_HEAD ==> head[i] == s[i];
    var q := p + RECORD_HEAD + U16At(head, 8);
    var measured: Option<CrcMeasurement> := None;
    if q + RECORD_TAIL <= bufLen {
      var tail := buf[q..q + RECORD_TAIL];
      assert forall i :: 0 <= i < RECORD_TAIL ==> tail[i] == s[q - p + i];
      measured := Some(CrcMeasurement(tail[0], U16At(tail, 3)));
      q := q + RECORD_TAIL;
    }
    ind := CrcIndication(slot, U32At(head, 0), U16At(head, 4), head[6], head[7] == 0, measured);
    next := q;
  }

  method Report(n: Notifier, m: Metrics, r: CrcIndication)
    modifies n`crc, m
    ensures n.crc == old(n.crc) + [r] && m.now == CountCrc(old(m.now), r)
  {
    n.crc := n.crc + [r];
    m.now := m.now.(crcTotal := Bump(m.now.crcTotal, 1));
    if r.ok {
      m.now := m.now.(crcOk := Bump(m.now.crcOk, 1));
    } else {
      m.now := m.now.(crcFail := Bump(m.now.crcFail, 1));
    }
  }

  lemma WalkStep(slot: SlotPoint, s: seq<Byte>, p: nat, n: nat, done: seq<CrcIndication>, all: seq<CrcIndication>)
    requires p <= |s| && 0 < n && RECORD_HEAD <= |s[p..]| && done + Walk(slot, s[p..], n) == all
    ensures done + [First(slot, s[p..])] + Walk(slot, From(s, p + FirstSize(s[p..])), n - 1) == all
  {
    hide First;
    var e := p + FirstSize(s[p..]);
    if e <= |s| {
      assert s[p..][FirstSize(s[p..])..] == s[e..];
    }
    assert Walk(slot, s[p..], n) == [First(slot, s[p..])] + Walk(slot, From(s, e), n - 1);
  }

  lemma Start(c: Counters, all: seq<CrcIndication>)
    ensures [] + all == all && CountAllCrc(c, []) == c
  {
  }

  lemma Snoc(c: Counters, done: seq<CrcIndication>, r: CrcIndication)
    ensures CountAllCrc(c, done + [r]) == CountCrc(CountAllCrc(c, done), r)
  {
    assert (done + [r])[..|done|] == done;
  }

  lemma End(slot: SlotPoint, s: seq<Byte>, n: nat, done: seq<CrcIndication>)
    requires n == 0 || |s| < RECORD_HEAD
    ensures done + Walk(slot, s, n) == done
  {
  }

  /** dispatch_crc_indication. */
  method Dispatch(buf: array<Byte>, bufLen: nat, numerology: nat, n: Notifier, m: Metrics)
    requires bufLen <= buf.Length
    modifies n`crc, m
    ensures n.crc == old(n.crc) + Notifications(buf[..bufLen], numerology)
    ensures m.now == CountAllCrc(old(m.now), Notifications(buf[..bufLen], numerology))
  {
    hide Walk, CountAllCrc;
    if bufLen < MESSAGE_HEAD {
      Start(m.now, n.crc);
      return;
    }
    var head := buf[..MESSAGE_HEAD];
    assert head == buf[..bufLen][..MESSAGE_HEAD];
    DispatchAll(buf, bufLen, SlotPoint(numerology, U16At(head, 8), U16At(head, 10)), U16At(head, 12), n, m);
  }

  method DispatchAll(buf: array<Byte>, bufLen: nat, slot: SlotPoint, nofRecords: nat, n: Notifier, m: Metrics)
    requires MESSAGE_HEAD <= bufLen <= buf.Length
    modifies n`crc, m
    ensures var all := Walk(slot, buf[..bufLen][MESSAGE_HEAD..], nofRecords);
            n.crc == old(n.crc) + all && m.now == CountAllCrc(old(m.now), all)
  {
    hide Walk, First, FirstSize, CountAllCrc, CountCrc;
    ghost var s := buf[..bufLen];
    ghost var all := Walk(slot, s[MESSAGE_HEAD..], nofRecords);
    ghost var done: seq<CrcIndication> := [];
    var p: int := MESSAGE_HEAD;
    var i := 0;
    Start(m.now, all);
    while i < nofRecords
      invariant 0 <= i <= nofRecords && MESSAGE_HEAD <= p
      invariant done + Walk(slot, From(s, p), nofRecords - i) == all
      invariant n.crc == old(n.crc) + done && m.now == CountAllCrc(old(m.now), done)
    {
      if p + RECORD_HEAD > bufLen {
        break;
      }
      assert s[p..] == buf[p..bufLen];
      var ind, next := ReadRecord(buf, bufLen, p, slot);
      WalkStep(slot, s, p, nofRecords - i, done, all);
      Snoc(old(m.now), done, ind);
      Report(n, m, ind);
      done := done + [ind];
      p := next;
      i := i + 1;
    }
    End(slot, From(s, p), nofRecords - i, done);
  }

  // ---------------------------------------------------------------- round trip

  /** One record as L1 lays it out. */
  datatype Record = Record(handle: U32, rnti: U16, harqId: Byte, status: Byte, blockStatus: seq<Byte>, cqi: Byte, timingAdvance: U16, rssi: U16)

  predicate WellFormed(r: Record)
  {
    |r.blockStatus| < 0x1_0000
  }

  function RecordBytes(r: Record): seq<Byte>
    requires WellFormed(r)
  {
    Le32(r.handle) + Le16(r.rnti) + [r.harqId, r.status] + Le16(|r.blockStatus|) + r.blockStatus + [r.cqi] + Le16(r.timingAdvance) + Le16(r.rssi)
  }

  function AllRecordBytes(rs: seq<Record>): seq<Byte>
    requires forall i :: 0 <= i < |rs| ==> WellFormed(rs[i])
  {
    if rs == [] then [] else RecordBytes(rs[0]) + AllRecordBytes(rs[1..])
  }

  function Meaning(slot: SlotPoint, r: Record): CrcIndication
  {
    CrcIndication(slot, r.handle, r.rnti, r.harqId, r.status == 0, Some(CrcMeasurement(r.cqi, r.rssi)))
  }

  lemma {:induction false} RecordBack(slot: SlotPoint, r: Record, post: seq<Byte>)
    requires WellFormed(r)
    ensures var s := RecordBytes(r) + post; First(slot, s) == Meaning(slot, r) && FirstSize(s) == |RecordBytes(r)|
  {
    var s := RecordBytes(r) + post;
    var n := |r.blockStatus|;
    var head := Le32(r.handle) + Le16(r.rnti) + [r.harqId, r.status] + Le16(n);
    var tail := [r.cqi] + Le16(r.timingAdvance) + Le16(r.rssi);
    assert s == head + r.blockStatus + (tail + post);
    assert forall i :: 0 <= i < RECORD_HEAD ==> s[i] == head[i];
    assert forall i :: 0 <= i < RECORD_TAIL ==> s[RECORD_HEAD + n + i] == tail[i];
    JoinWord(r.handle);
  }

  lemma {:induction false} WalkBack(slot: SlotPoint, rs: seq<Record>, post: seq<Byte>)
    requires forall i :: 0 <= i < |rs| ==> WellFormed(rs[i])
    ensures Walk(slot, AllRecordBytes(rs) + post, |rs|) == seq(|rs|, i requires 0 <= i < |rs| => Meaning(slot, rs[i]))
  {
    hide Walk, First, FirstSize, RecordBytes, Meaning;
    if rs == [] {
      NoWalk(slot, post);
      assert AllRecordBytes(rs) + post == post;
    } else {
      var rest := AllRecordBytes(rs[1..]) + post;
      FirstStep(slot, rs[0], rest, |rs| - 1);
      Regroup(RecordBytes(rs[0]), AllRecordBytes(rs[1..]), post);
      WalkBack(slot, rs[1..], post);
    }
  }

  lemma NoWalk(slot: SlotPoint, s: seq<Byte>)
    ensures Walk(slot, s, 0) == []
  {
  }

  lemma FirstStep(slot: SlotPoint, r: Record, rest: seq<Byte>, n: nat)
    requires WellFormed(r)
    ensures Walk(slot, RecordBytes(r) + rest, n + 1) == [Meaning(slot, r)] + Walk(slot, rest, n)
  {
    hide First, FirstSize, Meaning;
    RecordBack(slot, r, rest);
    assert (RecordBytes(r) + rest)[|RecordBytes(r)|..] == rest;
  }

  function MessageBytes(envelope: seq<Byte>, sfn: U16, slot: U16, rs: seq<Record>): seq<Byte>
    requires |envelope| == 8 && |rs| < 0x1_0000
    requires forall i :: 0 <= i < |rs| ==> WellFormed(rs[i])
  {
    envelope + Le16(sfn) + Le16(slot) + Le16(|rs|) + AllRecordBytes(rs)
  }

  /** The receiver is told exactly what each record means, in order. */
  lemma {:induction false} RoundTrip(envelope: seq<Byte>, sfn: U16, slot: U16, rs: seq<Record>, post: seq<Byte>, numerology: nat)
    requires |envelope| == 8 && |rs| < 0x1_0000
    requires forall i :: 0 <= i < |rs| ==> WellFormed(rs[i])
    ensures Notifications(MessageBytes(envelope, sfn, slot, rs) + post, numerology) ==
            seq(|rs|, i requires 0 <= i < |rs| => Meaning(SlotPoint(numerology, sfn, slot), rs[i]))
  {
    hide Walk, Meaning, AllRecordBytes;
    var body := AllRecordBytes(rs) + post;
    MessageHeadBack(envelope, sfn, slot, |rs|, body);
    assert MessageBytes(envelope, sfn, slot, rs) + post == envelope + Le16(sfn) + Le16(slot) + Le16(|rs|) + body;
    WalkBack(SlotPoint(numerology, sfn, slot), rs, post);
  }

  // ---------------------------------------------------------------- truncation

  /** `cut` is what is left of the notifications `full`: a prefix, whose last element may lack its measurements. */
  ghost predicate Truncates(cut: seq<CrcIndication>, full: seq<CrcIndication>)
  {
    && |cut| <= |full|
    && (forall i :: 0 <= i < |cut| - 1 ==> cut[i] == full[i])
    && (cut != [] ==> var last := |cut| - 1; cut[last] == full[last] || cut[last] == full[last].(measured := None))
  }

  /** Cutting a record: either it is whole, or only its measurements are lost and nothing can follow it. */
  lemma FirstTruncated(slot: SlotPoint, s: seq<Byte>, c: nat)
    requires RECORD_HEAD <= c <= |s|
    ensures if MeasurementAt(s[..c]).Some? then
              var e := FirstSize(s);
              First(slot, s[..c]) == First(slot, s) && FirstSize(s[..c]) == e <= c && From(s[..c], e) == From(s, e)[..c - e]
            else
              First(slot, s[..c]) == First(slot, s).(measured := None) && |From(s[..c], FirstSize(s[..c]))| < RECORD_TAIL
  {
    assert forall i :: 0 <= i < c ==> s[..c][i] == s[i];
    assert U16At(s[..c], 8) == U16At(s, 8);
    if MeasurementAt(s[..c]).Some? {
      var e := FirstSize(s);
      assert s[..c][e..] == s[e..][..c - e];
    }
  }

  lemma {:induction false} WalkTruncates(slot: SlotPoint, s: seq<Byte>, c: nat, n: nat)
    requires c <= |s|
    ensures Truncates(Walk(slot, s[..c], n), Walk(slot, s, n))
    decreases n
  {
    hide First, FirstSize, MeasurementAt, Truncates;
    if n > 0 && RECORD_HEAD <= c {
      FirstTruncated(slot, s, c);
      var e := FirstSize(s);
      var rest := Walk(slot, From(s, e), n - 1);
      if MeasurementAt(s[..c]).Some? {
        WalkTruncates(slot, From(s, e), c - e, n - 1);
        TruncatesCons(First(slot, s), Walk(slot, From(s, e)[..c - e], n - 1), rest);
      } else {
        assert Walk(slot, From(s[..c], FirstSize(s[..c])), n - 1) == [];
        assert Walk(slot, s[..c], n) == [First(slot, s[..c])];
        TruncatesLast(First(slot, s), rest);
      }
    } else {
      TruncatesNil(Walk(slot, s, n));
    }
  }

  lemma TruncatesCons(x: CrcIndication, cut: seq<CrcIndication>, full: seq<CrcIndication>)
    requires Truncates(cut, full)
    ensures Truncates([x] + cut, [x] + full)
  {
  }

  lemma TruncatesLast(x: CrcIndication, full: seq<CrcIndication>)
    ensures Truncates([x.(measured := None)], [x] + full)
  {
  }

  lemma TruncatesNil(full: seq<CrcIndication>)
    ensures Truncates([], full)
  {
  }

  /** Cutting a message anywhere loses notifications only at the end, and measurements only of the last one kept. */
  lemma Truncation(s: seq<Byte>, c: nat, numerology: nat)
    requires c <= |s|
    ensures Truncates(Notifications(s[..c], numerology), Notifications(s, numerology))
  {
    hide Walk, Truncates;
    TruncatesNil(Notifications(s, numerology));
    if MESSAGE_HEAD <= c {
      assert forall i :: 0 <= i < c ==> s[..c][i] == s[i];
      var slot := SlotPoint(numerology, U16At(s, 8), U16At(s, 10));
      assert s[..c][MESSAGE_HEAD..] == s[MESSAGE_HEAD..][..c - MESSAGE_HEAD];
      WalkTruncates(slot, s[MESSAGE_HEAD..], c - MESSAGE_HEAD, U16At(s, 12));
    }
  }
}
