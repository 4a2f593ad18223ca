/** The request gateways: allocate a message, serialize into it, then send it or give it back. */
module Gateways {
  import opened Wire
  import opened Envelope
  import opened Reports
  import opened BufferProtocol
  import opened Transports
  import PduFrame
  import Q = Requests
  import T = TxData
  import D = DlPdus
  import L = DlRequests
  import X = UlRequests
  import G = ConfigRequest

  /** The size send_tx_data_request asks of the CPU_DATA pool. */
  const CPU_DATA_SIZE: nat := 576000

  const PARAM_REQUEST: U16 := 0x00
  const START_REQUEST: U16 := 0x04
  const STOP_REQUEST: U16 := 0x05

  /** What a successful tx_allocate hands out: the pool buffers, and the memory behind them. */
  datatype Grant = Grant(bs: set<Buffer>, msg: array<Byte>, data: array?<Byte>)

  class Gateway {
    const t: Transport
    const metrics: Metrics
    /** Which of the concurrent callers this is. */
    const c: nat

    constructor (t: Transport, metrics: Metrics, c: nat)
      ensures this.t == t && this.metrics == metrics && this.c == c
    {
      this.t, this.metrics, this.c := t, metrics, c;
    }

    /** The caller holds nothing. */
    ghost predicate Ready()
      reads t
    {
      t.Valid() && c < |t.s.callers| && t.s.callers[c].None?
    }

    ghost predicate Grantable(g: Option<Grant>)
      reads t
    {
      g.Some? ==> TxShape(g.value.bs) && g.value.bs <= t.s.free && (g.value.data != null ==> g.value.data != g.value.msg)
    }

    /** tx_allocate, as the pool answers it. */
    method Allocate(g: Option<Grant>)
      requires Ready() && Grantable(g)
      modifies t
      ensures t.Valid() && c < |t.s.callers|
      ensures g.None? ==> Ready() && t.acts == old(t.acts) + [TxRefused(c)] && t.s == old(t.s)
      ensures g.Some? ==> t.s.callers[c].Some? && t.acts == old(t.acts) + [TxAllocate(c, g.value.bs)]
    {
      hide TxShape, Run, Init;
      if g.None? {
        t.Do(TxRefused(c));
      } else {
        t.Do(TxAllocate(c, g.value.bs));
      }
    }

    /** The end every send method comes to: a negative size gives the message back, any other is sent with its lengths. */
    method Conclude(bytes: int, dataLen: int)
      requires t.Valid() && c < |t.s.callers| && t.s.callers[c].Some?
      modifies t
      ensures Ready()
      ensures t.acts == old(t.acts) + [if bytes < 0 then TxRelease(c) else TxSend(c, bytes, dataLen)]
    {
      hide TxShape, Run, Init;
      if bytes < 0 {
        t.Do(TxRelease(c));
      } else {
        t.Do(TxSend(c, bytes, dataLen));
      }
    }

    /** send_tx_data_request. Every outcome ends what it began; a message of at least 14 bytes is always sent. */
    method SendTxData(sfn: U16, slot: U16, pdus: seq<T.TxPdu>, g: Option<Grant>)
      requires Ready() && Grantable(g)
      requires g.Some? && T.MESSAGE_HEAD <= g.value.msg.Length ==> T.MESSAGE_HEAD + T.RECORD * |pdus| <= g.value.msg.Length
      modifies t, if g.Some? then {g.value.msg, g.value.data} else {}, metrics
      ensures Ready()
      ensures g.None? ==> t.acts == old(t.acts) + [TxRefused(c)] && metrics.now == old(metrics.now)
      ensures g.Some? && g.value.msg.Length < T.MESSAGE_HEAD ==>
                t.acts == old(t.acts) + [TxAllocate(c, g.value.bs)] + [TxRelease(c)] && metrics.now == old(metrics.now)
      ensures g.Some? && T.MESSAGE_HEAD <= g.value.msg.Length ==>
                var b, written := T.MessageBytes(0, sfn, slot, T.Cap(g.value.data), pdus), T.Written(T.Cap(g.value.data), 0, pdus);
                && t.acts == old(t.acts) + [TxAllocate(c, g.value.bs)] + [TxSend(c, |b|, written)]
                && |b| <= g.value.msg.Length && g.value.msg[..|b|] == b
                && metrics.now == old(metrics.now).(txDataReqs := Bump(old(metrics.now).txDataReqs, 1),
                                                    txDataBytes := Bump(old(metrics.now).txDataBytes, written))
                && (g.value.data != null ==> g.value.data[..] == T.Scattered(old(g.value.data[..]), 0, pdus))
    {
      hide T.MessageBytes, T.Scattered, T.Written, Run, Init, TxShape, Bump;
      Allocate(g);
      if g.None? {
        return;
      }
      var bytes, dataWritten := T.Serialize(0, sfn, slot, pdus, g.value.msg, g.value.data, metrics);
      Conclude(bytes, dataWritten);
    }

    /** send_dl_tti_request. */
    method SendDlTti(sfn: U16, slot: U16, tables: D.McsTables, ps: seq<L.DlPdu>, g: Option<Grant>)
      requires Ready() && Grantable(g) && forall i :: 0 <= i < |ps| ==> L.DlValid(ps[i])
      requires g.Some? && 14 <= g.value.msg.Length ==> 14 + |PduFrame.Joined(L.DlExtents(tables, ps, 0))| <= g.value.msg.Length < 0x8000_0000
      modifies t, if g.Some? then {g.value.msg} else {}
      ensures Ready()
      ensures g.None? ==> t.acts == old(t.acts) + [TxRefused(c)]
      ensures g.Some? && g.value.msg.Length < 14 ==> t.acts == old(t.acts) + [TxAllocate(c, g.value.bs)] + [TxRelease(c)]
      ensures g.Some? && 14 <= g.value.msg.Length ==>
                var es := L.DlExtents(tables, ps, 0);
                && |Q.Body(L.DlHead(sfn, slot, |es|), es)| < 0x1_0000_0000
                && var b := Q.Message(0, DL_TTI_REQUEST, L.DlHead(sfn, slot, |es|), es);
                   && t.acts == old(t.acts) + [TxAllocate(c, g.value.bs)] + [TxSend(c, |b|, 0)]
                   && |b| <= g.value.msg.Length && g.value.msg[..|b|] == b
    {
      hide L.DlExtents, L.DlHead, L.DlValid, Q.Body, Q.Message, PduFrame.Joined, Run, Init, TxShape;
      Allocate(g);
      if g.None? {
        return;
      }
      var bytes := L.SerializeDlTti(0, sfn, slot, tables, ps, g.value.msg);
      Conclude(bytes, 0);
    }

    /** send_ul_tti_request. */
    method SendUlTti(sfn: U16, slot: U16, ps: seq<X.UlPdu>, g: Option<Grant>)
      requires Ready() && Grantable(g)
      requires g.Some? && 17 <= g.value.msg.Length ==> 17 + |PduFrame.Joined(X.UlExtents(ps))| <= g.value.msg.Length < 0x8000_0000
      modifies t, if g.Some? then {g.value.msg} else {}, metrics
      ensures Ready()
      ensures g.None? ==> t.acts == old(t.acts) + [TxRefused(c)] && metrics.now == old(metrics.now)
      ensures g.Some? && g.value.msg.Length < 17 ==> t.acts == old(t.acts) + [TxAllocate(c, g.value.bs)] + [TxRelease(c)]
      ensures g.Some? && 17 <= g.value.msg.Length ==>
                var es, tally := X.UlExtents(ps), X.TallyOf(ps);
                && |Q.Body(X.UlHead(sfn, slot, tally), es)| < 0x1_0000_0000
                && var b := Q.Message(0, UL_TTI_REQUEST, X.UlHead(sfn, slot, tally), es);
                   && t.acts == old(t.acts) + [TxAllocate(c, g.value.bs)] + [TxSend(c, |b|, 0)]
                   && |b| <= g.value.msg.Length && g.value.msg[..|b|] == b
                   && metrics.now == X.CountUl(old(metrics.now), tally)
    {
      hide X.UlExtents, X.UlHead, X.TallyOf, X.CountUl, Q.Body, Q.Message, PduFrame.Joined, Run, Init, TxShape;
      Allocate(g);
      if g.None? {
        return;
      }
      var bytes := X.SerializeUlTti(0, sfn, slot, ps, g.value.msg, metrics);
      Conclude(bytes, 0);
    }

    /** send_ul_dci_request. */
    method SendUlDci(sfn: U16, slot: U16, ps: seq<D.Pdcch>, g: Option<Grant>)
      requires Ready() && Grantable(g) && forall i :: 0 <= i < |ps| ==> D.PdcchValid(ps[i])
      requires g.Some? && 16 <= g.value.msg.Length ==> 13 + |PduFrame.Joined(X.DciExtents(ps))| <= g.value.msg.Length < 0x8000_0000
      modifies t, if g.Some? then {g.value.msg} else {}
      ensures Ready()
      ensures g.None? ==> t.acts == old(t.acts) + [TxRefused(c)]
      ensures g.Some? && g.value.msg.Length < 16 ==> t.acts == old(t.acts) + [TxAllocate(c, g.value.bs)] + [TxRelease(c)]
      ensures g.Some? && 16 <= g.value.msg.Length ==>
                && |Q.Body(X.DciHead(sfn, slot, |ps|), X.DciExtents(ps))| < 0x1_0000_0000
                && var b := Q.Message(0, UL_DCI_REQUEST, X.DciHead(sfn, slot, |ps|), X.DciExtents(ps));
                   && t.acts == old(t.acts) + [TxAllocate(c, g.value.bs)] + [TxSend(c, |b|, 0)]
                   && |b| <= g.value.msg.Length && g.value.msg[..|b|] == b
    {
      hide X.DciExtents, X.DciHead, D.PdcchValid, Q.Body, Q.Message, PduFrame.Joined, Run, Init, TxShape;
      Allocate(g);
      if g.None? {
        return;
      }
      var bytes := X.SerializeUlDci(0, sfn, slot, ps, g.value.msg);
      Conclude(bytes, 0);
    }

    /** send_config_request: the allocation of 8 + 512 bytes is cut down to the message when it is sent. */
    method SendConfig(g: Option<Grant>)
      requires Ready() && Grantable(g) && (g.Some? ==> HEADERS + G.RESERVED_BODY <= g.value.msg.Length)
      modifies t, if g.Some? then {g.value.msg} else {}
      ensures Ready()
      ensures g.None? ==> t.acts == old(t.acts) + [TxRefused(c)]
      ensures g.Some? ==>
                var b := HeaderBytes(0, G.CONFIG_REQUEST, 393) + G.ConfigBody();
                && t.acts == old(t.acts) + [TxAllocate(c, g.value.bs)] + [TxSend(c, |b|, 0)]
                && g.value.msg[..|b|] == b
    {
      hide G.ConfigBody, Run, Init, TxShape;
      Allocate(g);
      if g.None? {
        return;
      }
      var bytes := G.SerializeConfig(g.value.msg);
      Conclude(bytes, 0);
    }

    /** send_param_request, send_start_request and send_stop_request: headers and an empty body. */
    method SendEmpty(typeId: U16, g: Option<Grant>)
      requires typeId == PARAM_REQUEST || typeId == START_REQUEST || typeId == STOP_REQUEST
      requires Ready() && Grantable(g) && (g.Some? ==> HEADERS <= g.value.msg.Length)
      modifies t, if g.Some? then {g.value.msg} else {}
      ensures Ready()
      ensures g.None? ==> t.acts == old(t.acts) + [TxRefused(c)]
      ensures g.Some? ==>
                && t.acts == old(t.acts) + [TxAllocate(c, g.value.bs)] + [TxSend(c, HEADERS, 0)]
                && g.value.msg[..HEADERS] == HeaderBytes(0, typeId, 0)
    {
      hide Run, Init, TxShape;
      Allocate(g);
      if g.None? {
        return;
      }
      var buf := g.value.msg;
      buf[0] := 1;
      buf[1] := 0;
      Copy(buf, 2, Le16(typeId));
      Copy(buf, 4, Le32(0));
      Conclude(HEADERS, 0);
      EmptyMessage(buf[..], typeId);
    }
  }

  lemma EmptyMessage(s: seq<Byte>, typeId: U16)
    requires HEADERS <= |s| && s[0] == 1 && s[1] == 0 && s[2..4] == Le16(typeId) && s[4..8] == Le32(0)
    ensures s[..HEADERS] == HeaderBytes(0, typeId, 0)
  {
    var h := s[..HEADERS];
    assert h == [s[0], s[1]] + s[2..4] + s[4..8];
  }

  /** In the data buffer the gateway asks for, the data length sent is never more than there is. */
  lemma DataNeverOverreported(pdus: seq<T.TxPdu>)
    ensures CPU_DATA_SIZE == 576000 && T.Written(Some(CPU_DATA_SIZE), 0, pdus) <= CPU_DATA_SIZE
  {
    T.WrittenFits(CPU_DATA_SIZE);
  }
}
