/** What one received message, and any sequence of them, makes the receive thread report and count. */
module RxReports {
  import opened Wire
  import opened Reports
  import opened SlotStream
  import U = UciIndication
  import C = CrcMessages
  import R = RxDataMessages
  import A = RachMessages
  import S = SrsMessages

  const PARAM_RESPONSE: int := 0x01
  const CONFIG_RESPONSE: int := 0x03
  const STOP_INDICATION: int := 0x06
  const ERROR_INDICATION: int := 0x07
  const SLOT_INDICATION: int := 0x82
  const RX_DATA_INDICATION: int := 0x85
  const CRC_INDICATION: int := 0x86
  const UCI_INDICATION: int := 0x87
  const SRS_INDICATION: int := 0x88
  const RACH_INDICATION: int := 0x89

  /** A message that passed the length guard: its identifier, its bytes, the length of its data buffer, and the reading of
      the clock when it is parsed. */
  datatype Received = Received(msgId: int, bytes: seq<Byte>, data: Option<nat>, time: int)

  datatype Config = Config(numerology: nat, lim: U.Limits)

  datatype P5Event = ParamResponse(error: Byte) | ConfigResponse(error: Byte) | StopIndication

  datatype ErrorReport = ErrorReport(slot: SlotPoint, messageId: Byte, error: Byte)

  // ---------------------------------------------------------------- one message

  function SlotsOf(c: Config, v: Received): seq<SlotReport>
  {
    if v.msgId != SLOT_INDICATION then []
    else match Parse(v.bytes, c.numerology)
      case None => []
      case Some(p) => [SlotReport(p, v.time)]
  }

  function CrcOf(c: Config, v: Received): seq<CrcIndication>
  {
    if v.msgId == CRC_INDICATION then C.Notifications(v.bytes, c.numerology) else []
  }

  function RxDataOf(c: Config, v: Received): seq<RxDataIndication>
  {
    if v.msgId == RX_DATA_INDICATION then R.Notifications(v.bytes, c.numerology, v.data) else []
  }

  function DeclaredOf(v: Received): seq<nat>
  {
    if v.msgId == RX_DATA_INDICATION then R.DeclaredIn(v.bytes) else []
  }

  function UciOf(c: Config, v: Received): seq<UciIndication>
  {
    if v.msgId == UCI_INDICATION then U.Notifications(v.bytes, c.numerology, c.lim) else []
  }

  function RachOf(c: Config, v: Received): seq<RachIndication>
  {
    if v.msgId == RACH_INDICATION then A.Notifications(v.bytes, c.numerology) else []
  }

  function SrsOf(c: Config, v: Received): seq<SrsIndication>
  {
    if v.msgId == SRS_INDICATION then S.Notifications(v.bytes, c.numerology) else []
  }

  function P5Of(v: Received): seq<P5Event>
  {
    if v.msgId == PARAM_RESPONSE && 9 <= |v.bytes| then [ParamResponse(v.bytes[8])]
    else if v.msgId == CONFIG_RESPONSE && 9 <= |v.bytes| then [ConfigResponse(v.bytes[8])]
    else if v.msgId == STOP_INDICATION then [StopIndication]
    else []
  }

  function ErrorsOf(c: Config, v: Received): seq<ErrorReport>
  {
    if v.msgId == ERROR_INDICATION && 14 <= |v.bytes|
    then [ErrorReport(SlotPoint(c.numerology, U16At(v.bytes, 8), U16At(v.bytes, 10)), v.bytes[12], v.bytes[13])]
    else []
  }

  /** The counters after one message. */
  function Counted(c: Config, k: Counters, v: Received): Counters
  {
    match v.msgId
    case 0x86 => CountAllCrc(k, CrcOf(c, v))
    case 0x85 => CountAllRxData(k, DeclaredOf(v))
    case 0x87 => CountAllUci(k, UciOf(c, v))
    case 0x89 => CountRach(k, |RachOf(c, v)|)
    case 0x88 => CountSrs(k, |SrsOf(c, v)|)
    case _ => k
  }

  // ---------------------------------------------------------------- any sequence of messages

  /** Everything reported to the indications notifier, and the lengths declared on the way. */
  datatype Totals = Totals(crc: seq<CrcIndication>, rxData: seq<RxDataIndication>, declared: seq<nat>, uci: seq<UciIndication>,
                           rach: seq<RachIndication>, srs: seq<SrsIndication>)

  function TotalsOf(c: Config, vs: seq<Received>): Totals
  {
    if vs == [] then Totals([], [], [], [], [], [])
    else
      var t, v := TotalsOf(c, vs[..|vs| - 1]), vs[|vs| - 1];
      Totals(t.crc + CrcOf(c, v), t.rxData + RxDataOf(c, v), t.declared + DeclaredOf(v), t.uci + UciOf(c, v),
             t.rach + RachOf(c, v), t.srs + SrsOf(c, v))
  }

  function CountedAll(c: Config, k: Counters, vs: seq<Received>): Counters
  {
    if vs == [] then k else Counted(c, CountedAll(c, k, vs[..|vs| - 1]), vs[|vs| - 1])
  }

  /** What the receive side of the counters should hold after `t`. */
  function Reckoned(k: Counters, t: Totals): Counters
  {
    k.(crcTotal := Bump(k.crcTotal, |t.crc|), crcOk := Bump(k.crcOk, OkCount(t.crc)), crcFail := Bump(k.crcFail, FailCount(t.crc)),
       rxDataPdus := Bump(k.rxDataPdus, |t.declared|), rxDataBytes := Bump(k.rxDataBytes, Sum(t.declared)),
       uciTotal := Bump(k.uciTotal, |t.uci|), uciPusch := Bump(k.uciPusch, KindCount(t.uci, OnPusch)),
       uciPucch01 := Bump(k.uciPucch01, KindCount(t.uci, OnPucch01)), uciPucch234 := Bump(k.uciPucch234, KindCount(t.uci, OnPucch234)),
       rachTotal := Bump(k.rachTotal, |t.rach|), srsTotal := Bump(k.srsTotal, |t.srs|))
  }

  lemma ReckonNothing(k: Counters)
    ensures Reckoned(k, Totals([], [], [], [], [], [])) == k
  {
  }

  lemma {:induction false} FailCountAppend(a: seq<CrcIndication>, b: seq<CrcIndication>)
    ensures FailCount(a + b) == FailCount(a) + FailCount(b)
  {
    OkAndFail(a);
    OkAndFail(b);
    OkAndFail(a + b);
    OkCountAppend(a, b);
  }

  lemma {:induction false} ReckonCrc(k: Counters, t: Totals, more: seq<CrcIndication>)
    ensures CountAllCrc(Reckoned(k, t), more) == Reckoned(k, t.(crc := t.crc + more))
  {
    hide OkCount, FailCount, Bump;
    CrcCounted(Reckoned(k, t), more);
    BumpBump(k.crcTotal, |t.crc|, |more|);
    BumpBump(k.crcOk, OkCount(t.crc), OkCount(more));
    BumpBump(k.crcFail, FailCount(t.crc), FailCount(more));
    OkCountAppend(t.crc, more);
    FailCountAppend(t.crc, more);
  }

  lemma ReckonRxData(k: Counters, t: Totals, inds: seq<RxDataIndication>, more: seq<nat>)
    ensures CountAllRxData(Reckoned(k, t), more) == Reckoned(k, t.(rxData := inds, declared := t.declared + more))
  {
    hide Sum, Bump;
    RxDataCounted(Reckoned(k, t), more);
    BumpBump(k.rxDataPdus, |t.declared|, |more|);
    BumpBump(k.rxDataBytes, Sum(t.declared), Sum(more));
    SumAppend(t.declared, more);
  }

  lemma {:induction false} ReckonUci(k: Counters, t: Totals, more: seq<UciIndication>)
    ensures CountAllUci(Reckoned(k, t), more) == Reckoned(k, t.(uci := t.uci + more))
  {
    hide KindCount, Bump;
    UciCounted(Reckoned(k, t), more);
    BumpBump(k.uciTotal, |t.uci|, |more|);
    BumpBump(k.uciPusch, KindCount(t.uci, OnPusch), KindCount(more, OnPusch));
    BumpBump(k.uciPucch01, KindCount(t.uci, OnPucch01), KindCount(more, OnPucch01));
    BumpBump(k.uciPucch234, KindCount(t.uci, OnPucch234), KindCount(more, OnPucch234));
    KindCountAppend(t.uci, more, OnPusch);
    KindCountAppend(t.uci, more, OnPucch01);
    KindCountAppend(t.uci, more, OnPucch234);
  }

  lemma ReckonOne(c: Config, k: Counters, t: Totals, v: Received)
    ensures Counted(c, Reckoned(k, t), v)
            == Reckoned(k, Totals(t.crc + CrcOf(c, v), t.rxData + RxDataOf(c, v), t.declared + DeclaredOf(v), t.uci + UciOf(c, v),
                                  t.rach + RachOf(c, v), t.srs + SrsOf(c, v)))
  {
    hide Reckoned, CountAllCrc, CountAllRxData, CountAllUci;
    hide C.Notifications, R.Notifications, R.DeclaredIn, U.Notifications, A.Notifications, S.Notifications;
    AddNothing(t);
    ReckonCrc(k, t, CrcOf(c, v));
    ReckonRxData(k, t, t.rxData + RxDataOf(c, v), DeclaredOf(v));
    ReckonUci(k, t, UciOf(c, v));
    ReckonRachSrs(k, t, RachOf(c, v), SrsOf(c, v));
  }

  lemma AddNothing(t: Totals)
    ensures t.crc + [] == t.crc && t.rxData + [] == t.rxData && t.declared + [] == t.declared
    ensures t.uci + [] == t.uci && t.rach + [] == t.rach && t.srs + [] == t.srs
  {
  }

  lemma ReckonRachSrs(k: Counters, t: Totals, rach: seq<RachIndication>, srs: seq<SrsIndication>)
    ensures CountRach(Reckoned(k, t), |rach|) == Reckoned(k, t.(rach := t.rach + rach))
    ensures CountSrs(Reckoned(k, t), |srs|) == Reckoned(k, t.(srs := t.srs + srs))
  {
    hide Bump;
    BumpBump(k.rachTotal, |t.rach|, |rach|);
    BumpBump(k.srsTotal, |t.srs|, |srs|);
  }

  lemma {:induction false} CountedReckons(c: Config, k: Counters, vs: seq<Received>)
    ensures CountedAll(c, k, vs) == Reckoned(k, TotalsOf(c, vs))
  {
    hide Counted, Reckoned;
    if vs == [] {
      ReckonNothing(k);
    } else {
      CountedReckons(c, k, vs[..|vs| - 1]);
      ReckonOne(c, k, TotalsOf(c, vs[..|vs| - 1]), vs[|vs| - 1]);
    }
  }

  /** After a reset and then any sequence of messages, on 64-bit counters: CRC outcomes add up to the CRC reports made,
      UCI kinds add up to the UCI reports made, and the data bytes are the lengths declared, delivered or not. */
  lemma {:induction false} MetricsAgree(c: Config, vs: seq<Received>)
    ensures var k, t := CountedAll(c, ZERO_COUNTERS, vs), TotalsOf(c, vs);
            && k.crcTotal == (k.crcOk + k.crcFail) % U64 == |t.crc| % U64
            && k.crcOk == OkCount(t.crc) % U64 && k.crcFail == FailCount(t.crc) % U64
            && k.uciTotal == (k.uciPusch + k.uciPucch01 + k.uciPucch234) % U64 == |t.uci| % U64
            && k.rxDataBytes == Sum(t.declared) % U64 && k.rxDataPdus == |t.declared| % U64
            && k.rachTotal == |t.rach| % U64 && k.srsTotal == |t.srs| % U64
            && k.txDataReqs == 0 && k.txDataBytes == 0 && k.ulPusch == 0 && k.ulPucch == 0 && k.ulPrach == 0 && k.ulSrs == 0
  {
    hide CountedAll, TotalsOf, OkCount, FailCount, KindCount, Sum;
    var t := TotalsOf(c, vs);
    CountedReckons(c, ZERO_COUNTERS, vs);
    OkAndFail(t.crc);
    KindsCover(t.uci);
    ModSum(OkCount(t.crc), FailCount(t.crc));
    ModSum(KindCount(t.uci, OnPusch), KindCount(t.uci, OnPucch01));
    ModSum(KindCount(t.uci, OnPusch) + KindCount(t.uci, OnPucch01), KindCount(t.uci, OnPucch234));
    ModThree(KindCount(t.uci, OnPusch), KindCount(t.uci, OnPucch01), KindCount(t.uci, OnPucch234));
  }

  lemma ModThree(a: nat, b: nat, c: nat)
    ensures (a % U64 + b % U64 + c % U64) % U64 == (a + b + c) % U64
  {
    ModSum(a + b, c);
    ModSum(a, b);
    ModSum(a % U64 + b % U64, c % U64);
  }

  /** As many data notifications are made as lengths are counted. */
  lemma {:induction false} OneLengthEach(c: Config, vs: seq<Received>)
    ensures |TotalsOf(c, vs).rxData| == |TotalsOf(c, vs).declared|
  {
    if vs != [] {
      OneLengthEach(c, vs[..|vs| - 1]);
      LengthPerRecord(c, vs[|vs| - 1]);
    }
  }

  lemma LengthPerRecord(c: Config, v: Received)
    ensures |RxDataOf(c, v)| == |DeclaredOf(v)|
  {
    hide R.Walk, R.Declared;
    if R.MESSAGE_HEAD <= |v.bytes| {
      LengthPerWalk(SlotPoint(c.numerology, U16At(v.bytes, 8), U16At(v.bytes, 10)), v.bytes[R.MESSAGE_HEAD..], U16At(v.bytes, 12), v.data, 0);
    }
  }

  lemma {:induction false} LengthPerWalk(slot: SlotPoint, s: seq<Byte>, n: nat, data: Option<nat>, offset: nat)
    ensures |R.Walk(slot, s, n, data, offset)| == |R.Declared(s, n)|
    decreases n
  {
    if n > 0 && R.RECORD <= |s| {
      LengthPerWalk(slot, s[R.RECORD..], n - 1, data, R.Advance(data, offset, U32At(s, 7)));
    }
  }

  // ---------------------------------------------------------------- the upper layer

  /** Which notifiers are registered. */
  datatype Wiring = Wiring(cfg: Config, slot: bool, indications: bool, p5: bool, errors: bool)

  /** Everything the upper layer has been told, and the counters. */
  datatype Upper = Upper(slots: seq<SlotReport>, crc: seq<CrcIndication>, rxData: seq<RxDataIndication>, uci: seq<UciIndication>,
                         rach: seq<RachIndication>, srs: seq<SrsIndication>, p5: seq<P5Event>, errors: seq<ErrorReport>, counters: Counters)

  function Indicate(c: Config, u: Upper, v: Received): Upper
  {
    u.(crc := u.crc + CrcOf(c, v), rxData := u.rxData + RxDataOf(c, v), uci := u.uci + UciOf(c, v),
       rach := u.rach + RachOf(c, v), srs := u.srs + SrsOf(c, v), counters := Counted(c, u.counters, v))
  }

  /** What one accepted message changes. */
  function Apply(w: Wiring, u: Upper, v: Received): Upper
  {
    var u1 := if w.slot then u.(slots := u.slots + SlotsOf(w.cfg, v)) else u;
    var u2 := if w.indications then Indicate(w.cfg, u1, v) else u1;
    var u3 := if w.p5 then u2.(p5 := u2.p5 + P5Of(v)) else u2;
    if w.errors then u3.(errors := u3.errors + ErrorsOf(w.cfg, v)) else u3
  }

  function ApplyAll(w: Wiring, u: Upper, vs: seq<Received>): Upper
  {
    if vs == [] then u else Apply(w, ApplyAll(w, u, vs[..|vs| - 1]), vs[|vs| - 1])
  }

  /** Each message concerns one notifier only. */
  lemma SlotOnly(w: Wiring, u: Upper, v: Received)
    requires v.msgId == SLOT_INDICATION
    ensures Apply(w, u, v) == if w.slot then u.(slots := u.slots + SlotsOf(w.cfg, v)) else u
  {
    hide Parse;
    UpperNothing(u);
  }

  predicate IsIndication(msgId: int)
  {
    msgId == CRC_INDICATION || msgId == RX_DATA_INDICATION || msgId == UCI_INDICATION || msgId == RACH_INDICATION || msgId == SRS_INDICATION
  }

  predicate IsP5(msgId: int)
  {
    msgId == PARAM_RESPONSE || msgId == CONFIG_RESPONSE || msgId == STOP_INDICATION
  }

  lemma IndicationOnly(w: Wiring, u: Upper, v: Received)
    requires IsIndication(v.msgId)
    ensures Apply(w, u, v) == if w.indications then Indicate(w.cfg, u, v) else u
  {
    hide Indicate;
    UpperNothing(u);
    var i := Indicate(w.cfg, u, v);
    UpperNothing(i);
  }

  lemma P5Only(w: Wiring, u: Upper, v: Received)
    requires IsP5(v.msgId)
    ensures Apply(w, u, v) == if w.p5 then u.(p5 := u.p5 + P5Of(v)) else u
  {
    UpperNothing(u);
  }

  lemma ErrorsOnly(w: Wiring, u: Upper, v: Received)
    requires v.msgId == ERROR_INDICATION
    ensures Apply(w, u, v) == if w.errors then u.(errors := u.errors + ErrorsOf(w.cfg, v)) else u
  {
    UpperNothing(u);
  }

  lemma UnknownNothing(w: Wiring, u: Upper, v: Received)
    requires v.msgId != SLOT_INDICATION && !IsIndication(v.msgId) && !IsP5(v.msgId) && v.msgId != ERROR_INDICATION
    ensures Apply(w, u, v) == u
  {
    UpperNothing(u);
  }

  lemma UpperNothing(u: Upper)
    ensures u.slots + [] == u.slots && u.crc + [] == u.crc && u.rxData + [] == u.rxData && u.uci + [] == u.uci
    ensures u.rach + [] == u.rach && u.srs + [] == u.srs && u.p5 + [] == u.p5 && u.errors + [] == u.errors
  {
  }

  /** `r` is `u` with the totals `t` told to the indications notifier. */
  predicate Told(u: Upper, t: Totals, r: Upper)
  {
    && r.crc == u.crc + t.crc && r.rxData == u.rxData + t.rxData && r.uci == u.uci + t.uci
    && r.rach == u.rach + t.rach && r.srs == u.srs + t.srs
  }

  lemma {:induction false} ToldMore(w: Wiring, u: Upper, t: Totals, r: Upper, v: Received)
    requires w.indications && Told(u, t, r)
    ensures var c := w.cfg;
            Told(u, Totals(t.crc + CrcOf(c, v), t.rxData + RxDataOf(c, v), t.declared + DeclaredOf(v), t.uci + UciOf(c, v),
                           t.rach + RachOf(c, v), t.srs + SrsOf(c, v)), Apply(w, r, v))
  {
    hide CrcOf, RxDataOf, DeclaredOf, UciOf, RachOf, SrsOf, SlotsOf, P5Of, ErrorsOf, Counted;
    Regroup(u.crc, t.crc, CrcOf(w.cfg, v));
    Regroup(u.rxData, t.rxData, RxDataOf(w.cfg, v));
    Regroup(u.uci, t.uci, UciOf(w.cfg, v));
    Regroup(u.rach, t.rach, RachOf(w.cfg, v));
    Regroup(u.srs, t.srs, SrsOf(w.cfg, v));
  }

  /** Over a whole run the logs grow by the totals and the counters by their count. */
  lemma {:induction false} ApplyAllTotals(w: Wiring, u: Upper, vs: seq<Received>)
    requires w.indications
    ensures Told(u, TotalsOf(w.cfg, vs), ApplyAll(w, u, vs)) && ApplyAll(w, u, vs).counters == CountedAll(w.cfg, u.counters, vs)
  {
    hide Told, Apply;
    if vs == [] {
      ToldNothing(u);
    } else {
      var init, v := vs[..|vs| - 1], vs[|vs| - 1];
      ApplyAllTotals(w, u, init);
      ToldMore(w, u, TotalsOf(w.cfg, init), ApplyAll(w, u, init), v);
      CountersApplied(w, ApplyAll(w, u, init), v);
    }
  }

  lemma ToldNothing(u: Upper)
    ensures Told(u, Totals([], [], [], [], [], []), u)
  {
    UpperNothing(u);
  }

  lemma CountersApplied(w: Wiring, u: Upper, v: Received)
    ensures Apply(w, u, v).counters == if w.indications then Counted(w.cfg, u.counters, v) else u.counters
  {
    hide CrcOf, RxDataOf, DeclaredOf, UciOf, RachOf, SrsOf, SlotsOf, P5Of, ErrorsOf, Counted;
  }

  // ---------------------------------------------------------------- the account between two resets

  /** From `u` to `r` the counters tell the story of the calls made to the indications notifier and of the lengths
      declared, modulo 2^64. */
  predicate Accounts(u: Upper, r: Upper, declared: seq<nat>)
  {
    && u.crc <= r.crc && u.uci <= r.uci && u.rach <= r.rach && u.srs <= r.srs && u.rxData <= r.rxData
    && var k, crc, uci := r.counters, r.crc[|u.crc|..], r.uci[|u.uci|..];
       && k.crcTotal == |crc| % U64 == (k.crcOk + k.crcFail) % U64
       && k.crcOk == OkCount(crc) % U64 && k.crcFail == FailCount(crc) % U64
       && k.uciTotal == |uci| % U64 == (k.uciPusch + k.uciPucch01 + k.uciPucch234) % U64
       && k.rxDataPdus == |r.rxData[|u.rxData|..]| % U64 && k.rxDataBytes == Sum(declared) % U64
       && k.rachTotal == |r.rach[|u.rach|..]| % U64 && k.srsTotal == |r.srs[|u.srs|..]| % U64
  }

  lemma CountersMatchCalls(w: Wiring, u: Upper, vs: seq<Received>)
    requires w.indications && u.counters == ZERO_COUNTERS
    ensures Accounts(u, ApplyAll(w, u, vs), TotalsOf(w.cfg, vs).declared)
  {
    hide ApplyAll, TotalsOf, CountedAll, OkCount, FailCount, Sum;
    ApplyAllTotals(w, u, vs);
    MetricsAgree(w.cfg, vs);
    OneLengthEach(w.cfg, vs);
    var r, t := ApplyAll(w, u, vs), TotalsOf(w.cfg, vs);
    assert r.crc[|u.crc|..] == t.crc && r.uci[|u.uci|..] == t.uci && r.rach[|u.rach|..] == t.rach;
    assert r.srs[|u.srs|..] == t.srs && r.rxData[|u.rxData|..] == t.rxData;
  }

  /** What happens to the receive side between two messages. */
  datatype Event = Heard(v: Received) | Reset

  function AfterEvent(w: Wiring, u: Upper, e: Event): Upper
  {
    match e
    case Heard(v) => Apply(w, u, v)
    case Reset => u.(counters := ZERO_COUNTERS)
  }

  function AfterEvents(w: Wiring, u: Upper, es: seq<Event>): Upper
  {
    if es == [] then u else AfterEvent(w, AfterEvents(w, u, es[..|es| - 1]), es[|es| - 1])
  }

  /** The messages since the last reset, or since the start when there was none. */
  function SinceReset(es: seq<Event>): seq<Received>
  {
    if es == [] || es[|es| - 1].Reset? then [] else SinceReset(es[..|es| - 1]) + [es[|es| - 1].v]
  }

  /** How things stood right after the last reset, or at the start. */
  function AtReset(w: Wiring, u: Upper, es: seq<Event>): Upper
  {
    if es == [] then u
    else if es[|es| - 1].Reset? then AfterEvents(w, u, es)
    else AtReset(w, u, es[..|es| - 1])
  }

  lemma {:induction false} ResetSplits(w: Wiring, u: Upper, es: seq<Event>)
    ensures AfterEvents(w, u, es) == ApplyAll(w, AtReset(w, u, es), SinceReset(es))
    ensures u.counters == ZERO_COUNTERS ==> AtReset(w, u, es).counters == ZERO_COUNTERS
    ensures (exists i :: 0 <= i < |es| && es[i].Reset?) ==> AtReset(w, u, es).counters == ZERO_COUNTERS
  {
    hide Apply;
    if es != [] && es[|es| - 1].Heard? {
      var init := es[..|es| - 1];
      ResetSplits(w, u, init);
      assert (SinceReset(init) + [es[|es| - 1].v])[..|SinceReset(init)|] == SinceReset(init);
      if i :| 0 <= i < |es| && es[i].Reset? {
        assert init[i].Reset?;
      }
    }
  }

  /** Over any sequence of messages and resets the counters account for exactly the calls since the last reset. */
  lemma CountersSinceReset(w: Wiring, u: Upper, es: seq<Event>)
    requires w.indications && (u.counters == ZERO_COUNTERS || exists i :: 0 <= i < |es| && es[i].Reset?)
    ensures Accounts(AtReset(w, u, es), AfterEvents(w, u, es), TotalsOf(w.cfg, SinceReset(es)).declared)
  {
    hide Accounts, TotalsOf;
    ResetSplits(w, u, es);
    CountersMatchCalls(w, AtReset(w, u, es), SinceReset(es));
  }
}
