/** What the indication parsers hand to the upper layer, and the runtime counters they keep. */
module Reports {
  import opened Wire

  // ---------------------------------------------------------------- UCI

  datatype Detection = CrcPass | CrcFailure | Dtx | NoDtx | DtxNotChecked

  datatype UciField = UciField(status: Detection, expectedBits: nat, payload: seq<bool>)

  /** The head shared by all UCI reports; SINR and RSRP carry fixed "not reported" values. */
  datatype Measured = Measured(handle: U32, rnti: U16, sinr: int, timingAdvance: Option<U16>, rssi: U16, rsrp: U16)

  datatype UciPdu =
    | Pusch(head: Measured, harq: Option<UciField>, csi1: Option<UciField>, csi2: Option<UciField>)
    | Pucch01(head: Measured, format: nat, srDetected: Option<bool>, harqValues: Option<seq<Byte>>)
    | Pucch234(head: Measured, format: nat, sr: Option<seq<bool>>, harq: Option<UciField>, csi1: Option<UciField>, csi2: Option<UciField>)

  datatype UciIndication = UciIndication(slot: SlotPoint, pdu: UciPdu)

  // ---------------------------------------------------------------- CRC, RX_DATA, RACH, SRS

  datatype CrcMeasurement = CrcMeasurement(sinr: Byte, rssi: U16)

  datatype CrcIndication = CrcIndication(slot: SlotPoint, handle: U32, rnti: U16, harqId: Byte, ok: bool, measured: Option<CrcMeasurement>)

  /** A slice of the data buffer, handed over without copying. */
  datatype Span = Span(start: nat, length: nat)

  datatype RxDataIndication = RxDataIndication(slot: SlotPoint, handle: U32, rnti: U16, harqId: Byte, block: Option<Span>)

  datatype Preamble = Preamble(index: Byte, power: U32)

  datatype RachIndication =
    RachIndication(slot: SlotPoint, symbol: Byte, slotIndex: Byte, ra: Byte, avgRssi: Byte, avgSnr: Byte, preambles: seq<Preamble>)

  datatype SrsIndication = SrsIndication(slot: SlotPoint, handle: U32, rnti: U16, timingAdvance: Option<U16>)

  /** The upper layer, as the log of the calls it received. */
  class Notifier {
    var uci: seq<UciIndication>
    var crc: seq<CrcIndication>
    var rxData: seq<RxDataIndication>
    var rach: seq<RachIndication>
    var srs: seq<SrsIndication>

    constructor ()
      ensures uci == [] && crc == [] && rxData == [] && rach == [] && srs == []
    {
      uci, crc, rxData, rach, srs := [], [], [], [], [];
    }
  }

  // ---------------------------------------------------------------- counters

  const U64: int := 0x1_0000_0000_0000_0000

  type Count = x: nat | x < 0x1_0000_0000_0000_0000

  /** fetch_add on a 64-bit counter. */
  function Bump(counter: Count, amount: nat): Count
  {
    (counter + amount) % U64
  }

  function OkCount(s: seq<CrcIndication>): nat
  {
    if s == [] then 0 else OkCount(s[..|s| - 1]) + if s[|s| - 1].ok then 1 else 0
  }

  function FailCount(s: seq<CrcIndication>): nat
  {
    if s == [] then 0 else FailCount(s[..|s| - 1]) + if s[|s| - 1].ok then 0 else 1
  }

  datatype UciKind = OnPusch | OnPucch01 | OnPucch234

  function KindOf(u: UciIndication): UciKind
  {
    match u.pdu
    case Pusch(_, _, _, _) => OnPusch
    case Pucch01(_, _, _, _) => OnPucch01
    case Pucch234(_, _, _, _, _, _) => OnPucch234
  }

  predicate OfKind(u: UciIndication, k: UciKind)
  {
    if k.OnPusch? then u.pdu.Pusch? else if k.OnPucch01? then u.pdu.Pucch01? else u.pdu.Pucch234?
  }

  function KindCount(s: seq<UciIndication>, k: UciKind): nat
  {
    if s == [] then 0 else KindCount(s[..|s| - 1], k) + if OfKind(s[|s| - 1], k) then 1 else 0
  }

  function Sum(s: seq<nat>): nat
  {
    if s == [] then 0 else Sum(s[..|s| - 1]) + s[|s| - 1]
  }

  lemma {:induction false} OkAndFail(s: seq<CrcIndication>)
    ensures OkCount(s) + FailCount(s) == |s|
  {
    if s != [] {
      OkAndFail(s[..|s| - 1]);
    }
  }

  lemma {:induction false} KindsCover(s: seq<UciIndication>)
    ensures KindCount(s, OnPusch) + KindCount(s, OnPucch01) + KindCount(s, OnPucch234) == |s|
  {
    if s != [] {
      KindsCover(s[..|s| - 1]);
    }
  }

  lemma {:induction false} SumAppend(a: seq<nat>, b: seq<nat>)
    ensures Sum(a + b) == Sum(a) + Sum(b)
  {
    if b == [] {
      assert a + b == a;
    } else {
      assert (a + b)[..|a + b| - 1] == a + b[..|b| - 1];
      SumAppend(a, b[..|b| - 1]);
    }
  }

  /** bridge_runtime_metrics. */
  datatype Counters = Counters(
    txDataReqs: Count, txDataBytes: Count, ulPusch: Count, ulPucch: Count, ulPrach: Count, ulSrs: Count,
    crcTotal: Count, crcOk: Count, crcFail: Count, rxDataPdus: Count, rxDataBytes: Count,
    uciTotal: Count, uciPusch: Count, uciPucch01: Count, uciPucch234: Count, rachTotal: Count, srsTotal: Count)

  const ZERO_COUNTERS := Counters(0, 0, 0, 0, 0, 0, 0, 0, 0, 0, 0, 0, 0, 0, 0, 0, 0)

  class Metrics {
    var now: Counters

    constructor ()
      ensures now == ZERO_COUNTERS
    {
      now := ZERO_COUNTERS;
    }

    /** reset_bridge_runtime_metrics. */
    method Reset()
      modifies this
      ensures now == ZERO_COUNTERS
    {
      now := ZERO_COUNTERS;
    }
  }

  function CountCrc(c: Counters, r: CrcIndication): Counters
  {
    if r.ok then c.(crcTotal := Bump(c.crcTotal, 1), crcOk := Bump(c.crcOk, 1))
    else c.(crcTotal := Bump(c.crcTotal, 1), crcFail := Bump(c.crcFail, 1))
  }

  function CountUci(c: Counters, r: UciIndication): Counters
  {
    var d := c.(uciTotal := Bump(c.uciTotal, 1));
    match KindOf(r)
    case OnPusch => d.(uciPusch := Bump(c.uciPusch, 1))
    case OnPucch01 => d.(uciPucch01 := Bump(c.uciPucch01, 1))
    case OnPucch234 => d.(uciPucch234 := Bump(c.uciPucch234, 1))
  }

  function CountRxData(c: Counters, declared: nat): Counters
  {
    c.(rxDataPdus := Bump(c.rxDataPdus, 1), rxDataBytes := Bump(c.rxDataBytes, declared))
  }

  function CountAllCrc(c: Counters, rs: seq<CrcIndication>): Counters
  {
    if rs == [] then c else CountCrc(CountAllCrc(c, rs[..|rs| - 1]), rs[|rs| - 1])
  }

  function CountAllUci(c: Counters, rs: seq<UciIndication>): Counters
  {
    if rs == [] then c else CountUci(CountAllUci(c, rs[..|rs| - 1]), rs[|rs| - 1])
  }

  function CountAllRxData(c: Counters, declared: seq<nat>): Counters
  {
    if declared == [] then c else CountRxData(CountAllRxData(c, declared[..|declared| - 1]), declared[|declared| - 1])
  }

  function CountRach(c: Counters, n: nat): Counters
  {
    c.(rachTotal := Bump(c.rachTotal, n))
  }

  function CountSrs(c: Counters, n: nat): Counters
  {
    c.(srsTotal := Bump(c.srsTotal, n))
  }

  lemma BumpBump(x: Count, a: nat, b: nat)
    ensures Bump(Bump(x, a), b) == Bump(x, a + b)
  {
    ModSum(x + a, b);
  }

  /** Counting one by one is counting the whole run, modulo 2^64. */
  lemma {:induction false} CrcCounted(c: Counters, rs: seq<CrcIndication>)
    ensures CountAllCrc(c, rs) ==
            c.(crcTotal := Bump(c.crcTotal, |rs|), crcOk := Bump(c.crcOk, OkCount(rs)), crcFail := Bump(c.crcFail, FailCount(rs)))
  {
    if rs != [] {
      var init := rs[..|rs| - 1];
      CrcCounted(c, init);
      BumpBump(c.crcTotal, |init|, 1);
      BumpBump(c.crcOk, OkCount(init), 1);
      BumpBump(c.crcFail, FailCount(init), 1);
    }
  }

  lemma {:induction false} UciCounted(c: Counters, rs: seq<UciIndication>)
    ensures CountAllUci(c, rs) ==
            c.(uciTotal := Bump(c.uciTotal, |rs|), uciPusch := Bump(c.uciPusch, KindCount(rs, OnPusch)),
               uciPucch01 := Bump(c.uciPucch01, KindCount(rs, OnPucch01)), uciPucch234 := Bump(c.uciPucch234, KindCount(rs, OnPucch234)))
  {
    if rs != [] {
      var init := rs[..|rs| - 1];
      UciCounted(c, init);
      BumpBump(c.uciTotal, |init|, 1);
      BumpBump(c.uciPusch, KindCount(init, OnPusch), 1);
      BumpBump(c.uciPucch01, KindCount(init, OnPucch01), 1);
      BumpBump(c.uciPucch234, KindCount(init, OnPucch234), 1);
    }
  }

  lemma {:induction false} RxDataCounted(c: Counters, declared: seq<nat>)
    ensures CountAllRxData(c, declared) ==
            c.(rxDataPdus := Bump(c.rxDataPdus, |declared|), rxDataBytes := Bump(c.rxDataBytes, Sum(declared)))
  {
    if declared != [] {
      var init := declared[..|declared| - 1];
      RxDataCounted(c, init);
      BumpBump(c.rxDataPdus, |init|, 1);
      BumpBump(c.rxDataBytes, Sum(init), declared[|declared| - 1]);
    }
  }

  lemma ModSum(a: nat, b: nat)
    ensures (a % U64 + b % U64) % U64 == (a + b) % U64
    ensures (a % U64 + b) % U64 == (a + b) % U64
  {
    var qa, qb := a / U64, b / U64;
    assert a == qa * U64 + a % U64 && b == qb * U64 + b % U64;
  }

  lemma {:induction false} OkCountAppend(a: seq<CrcIndication>, b: seq<CrcIndication>)
    ensures OkCount(a + b) == OkCount(a) + OkCount(b)
  {
    if b == [] {
      assert a + b == a;
    } else {
      assert (a + b)[..|a + b| - 1] == a + b[..|b| - 1];
      OkCountAppend(a, b[..|b| - 1]);
    }
  }

  lemma {:induction false} KindCountAppend(a: seq<UciIndication>, b: seq<UciIndication>, k: UciKind)
    ensures KindCount(a + b, k) == KindCount(a, k) + KindCount(b, k)
  {
    if b == [] {
      assert a + b == a;
    } else {
      assert (a + b)[..|a + b| - 1] == a + b[..|b| - 1];
      KindCountAppend(a, b[..|b| - 1], k);
    }
  }
}
