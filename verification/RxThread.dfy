/** The receive thread: dispatching one message, draining the queue while the others go on, starting and stopping. */
module RxThread {
  import opened Wire
  import opened Reports
  import opened SlotStream
  import opened BufferProtocol
  import opened Transports
  import opened RxReports
  import U = UciIndication
  import C = CrcMessages
  import R = RxDataMessages
  import A = RachMessages
  import S = SrsMessages

  // ---------------------------------------------------------------- the upper layer

  /** Only the first twelve bytes matter to the parser. */
  lemma SameHead(a: seq<Byte>, b: seq<Byte>, numerology: nat)
    requires 12 <= |a| && 12 <= |b| && b <= a
    ensures Parse(a, numerology) == Parse(b, numerology)
  {
    hide Infer;
    assert U16At(a, 8) == U16At(b, 8) && U16At(a, 10) == U16At(b, 10);
  }

  class P5Notifier {
    var events: seq<P5Event>

    constructor ()
      ensures events == []
    {
      events := [];
    }
  }

  class ErrorNotifier {
    var reports: seq<ErrorReport>

    constructor ()
      ensures reports == []
    {
      reports := [];
    }
  }

  // ---------------------------------------------------------------- messages as values

  /** An int32 length handed on as a size_t: the one number below 2^64 that differs from it by whole turns. */
  function AsSize(n: Int32): (r: nat)
    ensures r < 0x1_0000_0000_0000_0000 && (r == n || r == n + 0x1_0000_0000_0000_0000)
  {
    if n < 0 then n + U64 else n
  }

  function ReceivedAs(m: Message, bytes: seq<Byte>): Received
  {
    Received.Received(m.msgId, bytes, if m.data.Some? then Some(AsSize(m.data.value)) else None, m.time)
  }

  /** What the dispatcher makes of a message whose buffer holds `bytes`: nothing, when its guard rejects it. */
  function View(m: Message, bytes: seq<Byte>): seq<Received>
  {
    if Guard(m) && m.len <= |bytes| then [ReceivedAs(m, bytes[..m.len])] else []
  }

  /** What the buffers hold. */
  type Contents = map<array<Byte>, seq<Byte>>

  function BytesOf(m: Message, contents: Contents): seq<Byte>
  {
    if m.buf != null && m.buf in contents then contents[m.buf] else []
  }

  /** The buffers of these messages are among those known. */
  predicate Known(ms: seq<Message>, contents: Contents)
  {
    forall i :: 0 <= i < |ms| && ms[i].buf != null ==> ms[i].buf in contents
  }

  function Views(ms: seq<Message>, contents: Contents): seq<Received>
  {
    if ms == [] then [] else View(ms[0], BytesOf(ms[0], contents)) + Views(ms[1..], contents)
  }

  lemma OneView(w: Wiring, u: Upper, m: Message, bytes: seq<Byte>)
    ensures ApplyAll(w, u, View(m, bytes))
            == if Guard(m) && m.len <= |bytes| then Apply(w, u, ReceivedAs(m, bytes[..m.len])) else u
  {
    hide Apply;
    if Guard(m) && m.len <= |bytes| {
      var v := ReceivedAs(m, bytes[..m.len]);
      assert [v][..0] == [];
      assert ApplyAll(w, u, [v]) == Apply(w, ApplyAll(w, u, [v][..0]), v);
    }
  }

  /** The whole table of dispatch_message: which messages are looked at, who is told of which, and what. */
  lemma DispatchTable(w: Wiring, u: Upper, m: Message, bytes: seq<Byte>)
    requires Deliverable(m) && (m.buf != null ==> |bytes| == m.buf.Length)
    ensures var r := ApplyAll(w, u, View(m, bytes));
            if m.buf == null || m.len < 1 || 1000000 < m.len then r == u
            else
              var s, c, mu := bytes[..m.len], u.counters, w.cfg.numerology;
              var data := match m.data case None => None case Some(n) => Some(if n < 0 then n + 0x1_0000_0000_0000_0000 else n);
              match m.msgId
              case 0x01 => r == if w.p5 && 9 <= m.len then u.(p5 := u.p5 + [ParamResponse(s[8])]) else u
              case 0x03 => r == if w.p5 && 9 <= m.len then u.(p5 := u.p5 + [ConfigResponse(s[8])]) else u
              case 0x06 => r == if w.p5 then u.(p5 := u.p5 + [StopIndication]) else u
              case 0x07 =>
                r == if w.errors && 14 <= m.len
                     then u.(errors := u.errors + [ErrorReport(SlotPoint(mu, U16At(s, 8), U16At(s, 10)), s[12], s[13])])
                     else u
              case 0x82 => r == if w.slot && Parse(s, mu).Some? then u.(slots := u.slots + [SlotReport(Parse(s, mu).value, m.time)]) else u
              case 0x85 =>
                r == if w.indications
                     then u.(rxData := u.rxData + R.Notifications(s, mu, data), counters := CountAllRxData(c, R.DeclaredIn(s)))
                     else u
              case 0x86 =>
                var inds := C.Notifications(s, mu);
                r == if w.indications then u.(crc := u.crc + inds, counters := CountAllCrc(c, inds)) else u
              case 0x87 =>
                var inds := U.Notifications(s, mu, w.cfg.lim);
                r == if w.indications then u.(uci := u.uci + inds, counters := CountAllUci(c, inds)) else u
              case 0x88 =>
                var inds := S.Notifications(s, mu);
                r == if w.indications then u.(srs := u.srs + inds, counters := CountSrs(c, |inds|)) else u
              case 0x89 =>
                var inds := A.Notifications(s, mu);
                r == if w.indications then u.(rach := u.rach + inds, counters := CountRach(c, |inds|)) else u
              case _ => r == u
  {
    hide C.Notifications, R.Notifications, R.DeclaredIn, U.Notifications, A.Notifications, S.Notifications, Parse;
    hide CountAllCrc, CountAllRxData, CountAllUci, CountRach, CountSrs, ApplyAll, View;
    OneView(w, u, m, bytes);
    UpperNothing(u);
  }

  lemma {:induction false} ApplyAppend(w: Wiring, u: Upper, a: seq<Received>, b: seq<Received>)
    ensures ApplyAll(w, u, a + b) == ApplyAll(w, ApplyAll(w, u, a), b)
  {
    hide Apply;
    if b == [] {
      assert a + b == a;
    } else {
      assert (a + b)[..|a + b| - 1] == a + b[..|b| - 1];
      ApplyAppend(w, u, a, b[..|b| - 1]);
    }
  }

  lemma ViewsUnfold(w: Wiring, u: Upper, ms: seq<Message>, contents: Contents)
    ensures ms == [] ==> ApplyAll(w, u, Views(ms, contents)) == u
    ensures ms != [] ==>
              ApplyAll(w, u, Views(ms, contents)) == ApplyAll(w, ApplyAll(w, u, View(ms[0], BytesOf(ms[0], contents))), Views(ms[1..], contents))
  {
    hide Apply, View;
    if ms != [] {
      ApplyAppend(w, u, View(ms[0], BytesOf(ms[0], contents)), Views(ms[1..], contents));
    }
  }

  // ---------------------------------------------------------------- the loop among the others

  /** The others can act as scheduled, round by round, until the loop finds the queue empty. */
  ghost predicate Playable(s: State, plan: seq<Interlude>)
    decreases |plan|
  {
    plan == []
    || (CanRound(s, plan[0]) && (Moved(s, plan[0].before).up != [] ==> Playable(AfterRound(s, plan[0]), plan[1..])))
  }

  const ALONE: Interlude := Interlude(QUIET, QUIET)

  function Next(plan: seq<Interlude>): Interlude
  {
    if plan == [] then ALONE else plan[0]
  }

  function Later(plan: seq<Interlude>): (r: seq<Interlude>)
    ensures |r| == if plan == [] then 0 else |plan| - 1
  {
    if plan == [] then [] else plan[1..]
  }

  lemma PlayableNext(s: State, plan: seq<Interlude>)
    requires Playable(s, plan)
    ensures CanRound(s, Next(plan))
    ensures Moved(s, Next(plan).before).up != [] ==> Playable(AfterRound(s, Next(plan)), Later(plan))
  {
    hide AfterRound, CanMove, Moved;
    if plan == [] {
      QuietMoves(s);
      QuietMoves(Then(s, BufferProtocol.Receive));
    }
  }

  /** Queue and plan as the loop meets them: the messages it will have dispatched when it finds the queue empty. */
  function DispatchedBy(inbox: seq<Message>, plan: seq<Interlude>): seq<Message>
    decreases |plan|, |inbox|
  {
    var x := Next(plan);
    var q := inbox + x.before.ms;
    if q == [] then []
    else if plan == [] then [inbox[0]] + DispatchedBy(inbox[1..], [])
    else [q[0]] + DispatchedBy(q[1..] + x.during.ms, plan[1..])
  }

  /** And everybody's steps until then. */
  function StepsBy(inbox: seq<Message>, plan: seq<Interlude>): seq<Action>
    decreases |plan|, |inbox|
  {
    var x := Next(plan);
    var q := inbox + x.before.ms;
    if q == [] then x.before.acts + [Drained]
    else if plan == [] then [BufferProtocol.Receive, Handle, Return] + StepsBy(inbox[1..], [])
    else x.before.acts + [BufferProtocol.Receive] + x.during.acts + [Handle, Return] + StepsBy(q[1..] + x.during.ms, plan[1..])
  }

  lemma ByUnfold(inbox: seq<Message>, plan: seq<Interlude>)
    ensures var x := Next(plan);
            var q := inbox + x.before.ms;
            && (q == [] ==> DispatchedBy(inbox, plan) == [] && StepsBy(inbox, plan) == x.before.acts + [Drained])
            && (q != [] ==>
                  && DispatchedBy(inbox, plan) == [q[0]] + DispatchedBy(q[1..] + x.during.ms, Later(plan))
                  && StepsBy(inbox, plan) == x.before.acts + [BufferProtocol.Receive] + x.during.acts + [Handle, Return]
                                             + StepsBy(q[1..] + x.during.ms, Later(plan)))
  {
    if plan == [] {
      assert inbox + [] == inbox;
      if inbox != [] {
        assert inbox[1..] + [] == inbox[1..];
        assert [] + [BufferProtocol.Receive] + [] + [Handle, Return] == [BufferProtocol.Receive, Handle, Return];
      }
    }
  }

  lemma StepsGo(acts: seq<Action>, x: Interlude, later: seq<Action>)
    ensures acts + x.before.acts + [Drained] == acts + (x.before.acts + [Drained])
    ensures acts + x.before.acts + [BufferProtocol.Receive] + x.during.acts + [Handle] + [Return] + later
            == acts + (x.before.acts + [BufferProtocol.Receive] + x.during.acts + [Handle, Return] + later)
  {
    var a, b := x.before.acts + [BufferProtocol.Receive] + x.during.acts, [Handle, Return];
    assert acts + x.before.acts + [BufferProtocol.Receive] + x.during.acts + [Handle] + [Return] == acts + (a + b);
    Regroup(acts, a + b, later);
  }

  /** The messages the others queue while the loop runs. */
  function Arriving(plan: seq<Interlude>): seq<Message>
  {
    if plan == [] then [] else plan[0].before.ms + plan[0].during.ms + Arriving(plan[1..])
  }

  lemma Shrinks(inbox: seq<Message>, plan: seq<Interlude>)
    ensures var q := inbox + Next(plan).before.ms;
            q != [] ==> |Later(plan)| < |plan| || (|Later(plan)| == |plan| && |q[1..] + Next(plan).during.ms| < |inbox|)
  {
  }

  lemma ArrivingNext(inbox: seq<Message>, plan: seq<Interlude>, contents: Contents)
    requires Known(inbox + Arriving(plan), contents)
    ensures var q := inbox + Next(plan).before.ms;
            && Known(q, contents)
            && (q != [] ==> Known(q[1..] + Next(plan).during.ms + Arriving(Later(plan)), contents))
  {
    var x := Next(plan);
    var q := inbox + x.before.ms;
    var later := x.during.ms + Arriving(Later(plan));
    if plan == [] {
      assert inbox + [] == inbox;
    } else {
      Regroup(x.before.ms, x.during.ms, Arriving(plan[1..]));
      Regroup(inbox, x.before.ms, later);
    }
    assert inbox + Arriving(plan) == q + later;
    KnownParts(q, later, contents);
    if q != [] {
      Regroup(q[1..], x.during.ms, Arriving(Later(plan)));
    }
  }

  lemma KnownFirst(q: seq<Message>, contents: Contents)
    requires Known(q, contents) && q != []
    ensures q[0].buf != null ==> q[0].buf in contents && BytesOf(q[0], contents) == contents[q[0].buf]
  {
  }

  lemma KnownParts(a: seq<Message>, b: seq<Message>, contents: Contents)
    requires Known(a + b, contents)
    ensures Known(a, contents) && (a != [] ==> Known(a[1..] + b, contents))
  {
    forall i | 0 <= i < |a| ensures a[i].buf != null ==> a[i].buf in contents {
      assert (a + b)[i] == a[i];
    }
    if a != [] {
      var c := a[1..] + b;
      forall i | 0 <= i < |c| ensures c[i].buf != null ==> c[i].buf in contents {
        assert (a + b)[i + 1] == c[i];
      }
    }
  }

  /** How many interludes pass before the loop finds the queue empty. */
  function RoundsBy(inbox: seq<Message>, plan: seq<Interlude>): (n: nat)
    ensures n <= |plan|
    decreases |plan|
  {
    if plan == [] || inbox + plan[0].before.ms == [] then 0
    else 1 + RoundsBy((inbox + plan[0].before.ms)[1..] + plan[0].during.ms, plan[1..])
  }

  lemma {:induction false} AloneInOrder(inbox: seq<Message>)
    ensures DispatchedBy(inbox, []) == inbox
  {
    ByUnfold(inbox, []);
    assert inbox + [] == inbox;
    if inbox != [] {
      AloneInOrder(inbox[1..]);
      assert inbox[1..] + [] == inbox[1..];
      assert [inbox[0]] + inbox[1..] == inbox;
    }
  }

  /** The loop dispatches the queue it started with and then all that arrived until it found the queue empty, in the
      order of arrival. */
  lemma {:induction false} ArrivalOrder(inbox: seq<Message>, plan: seq<Interlude>)
    ensures DispatchedBy(inbox, plan) == inbox + Arriving(plan[..RoundsBy(inbox, plan)])
    decreases |plan|
  {
    hide DispatchedBy;
    ByUnfold(inbox, plan);
    if plan == [] {
      AloneInOrder(inbox);
    } else {
      var x := plan[0];
      var q := inbox + x.before.ms;
      if q != [] {
        var n := RoundsBy(q[1..] + x.during.ms, plan[1..]);
        ArrivalOrder(q[1..] + x.during.ms, plan[1..]);
        assert plan[..1 + n][1..] == plan[1..][..n];
        InOrderStep(inbox, x.before.ms, x.during.ms, Arriving(plan[1..][..n]));
      }
    }
  }

  lemma InOrderStep(a: seq<Message>, b: seq<Message>, c: seq<Message>, d: seq<Message>)
    requires a + b != []
    ensures [(a + b)[0]] + ((a + b)[1..] + c + d) == a + (b + c + d)
  {
    var q := a + b;
    assert q == [q[0]] + q[1..];
    assert [q[0]] + (q[1..] + c + d) == q + c + d;
  }

  // ---------------------------------------------------------------- the thread

  class RxThread {
    const t: Transport
    const metrics: Metrics
    var running: bool
    var cfg: Config
    var slotNotifier: SlotNotifier?
    var indNotifier: Notifier?
    var errorNotifier: ErrorNotifier?
    var p5Notifier: P5Notifier?

    constructor (t: Transport, metrics: Metrics, cfg: Config)
      ensures this.t == t && this.metrics == metrics && !running && this.cfg == cfg
      ensures slotNotifier == null && indNotifier == null && errorNotifier == null && p5Notifier == null
    {
      this.t, this.metrics, this.cfg := t, metrics, cfg;
      running := false;
      slotNotifier, indNotifier, errorNotifier, p5Notifier := null, null, null, null;
    }

    /** start: launches the loop, or another one once that has ended; one that finds it running does nothing. */
    method Start(cfg: Config)
      requires t.Valid() && running == t.s.running && (running || t.s.rx.Idle? || t.s.rx.Exited?)
      modifies this, t
      ensures t.Valid() && running && t.s.running
      ensures old(running) ==> this.cfg == old(this.cfg) && t.acts == old(t.acts)
      ensures !old(running) ==> this.cfg == cfg && t.acts == old(t.acts) + [BufferProtocol.Start] && t.s.rx.Checking?
    {
      if running {
        return;
      }
      this.cfg := cfg;
      running := true;
      t.Do(BufferProtocol.Start);
    }

    /** stop. */
    method Stop()
      requires t.Valid() && running == t.s.running
      modifies this, t
      ensures t.Valid() && !running && !t.s.running && t.s.rx == old(t.s.rx) && cfg == old(cfg)
      ensures t.acts == if old(running) then old(t.acts) + [BufferProtocol.Stop] else old(t.acts)
    {
      if !running {
        return;
      }
      running := false;
      t.Do(BufferProtocol.Stop);
    }

    /** The cases of dispatch_message that concern the P7 indications notifier. */
    method DispatchIndication(msgId: int, buf: array<Byte>, len: nat, data: Option<nat>, n: Notifier, ghost time: int)
      requires len <= buf.Length
      modifies n, metrics
      ensures var v := Received.Received(msgId, old(buf[..len]), data, time);
              && n.crc == old(n.crc) + CrcOf(cfg, v) && n.rxData == old(n.rxData) + RxDataOf(cfg, v) && n.uci == old(n.uci) + UciOf(cfg, v)
              && n.rach == old(n.rach) + RachOf(cfg, v) && n.srs == old(n.srs) + SrsOf(cfg, v)
              && metrics.now == Counted(cfg, old(metrics.now), v)
    {
      hide C.Notifications, R.Notifications, R.DeclaredIn, U.Notifications, A.Notifications, S.Notifications;
      hide CountAllCrc, CountAllRxData, CountAllUci, CountRach, CountSrs;
      match msgId
      case 0x86 => C.Dispatch(buf, len, cfg.numerology, n, metrics);
      case 0x85 => R.Dispatch(buf, len, data, cfg.numerology, n, metrics);
      case 0x87 => U.Dispatch(buf, len, cfg.numerology, cfg.lim, n, metrics);
      case 0x89 => A.Dispatch(buf, len, cfg.numerology, n, metrics);
      case 0x88 => S.Dispatch(buf, len, cfg.numerology, n, metrics);
      case _ =>
    }

    /** SLOT.indication: at most sixteen bytes are copied out of the shared buffer, and parsed from the copy. */
    method DispatchSlot(buf: array<Byte>, len: nat, time: int, n: SlotNotifier, ghost v: Received)
      requires len <= buf.Length && v.bytes == buf[..len] && v.msgId == SLOT_INDICATION && v.time == time
      modifies n
      ensures n.told == old(n.told) + SlotsOf(cfg, v)
    {
      hide Infer;
      ghost var s := buf[..len];
      if len < 12 {
        return;
      }
      var copyLen := if len < 16 then len else 16;
      var local := new Byte[16](_ => 0);
      Copy(local, 0, buf[..copyLen]);
      assert local[..copyLen] == s[..copyLen];
      var r := Deserialize(local, copyLen, cfg.numerology);
      SameHead(s, s[..copyLen], cfg.numerology);
      if r.Some? {
        n.told := n.told + [SlotReport(r.value, time)];
      }
    }

    /** The P5 and error cases. */
    method DispatchP5(buf: array<Byte>, len: nat, n: P5Notifier, msgId: int, ghost v: Received)
      requires len <= buf.Length && v.bytes == buf[..len] && v.msgId == msgId
      modifies n
      ensures n.events == old(n.events) + P5Of(v)
    {
      if msgId == PARAM_RESPONSE && len >= 9 {
        n.events := n.events + [ParamResponse(buf[8])];
      } else if msgId == CONFIG_RESPONSE && len >= 9 {
        n.events := n.events + [ConfigResponse(buf[8])];
      } else if msgId == STOP_INDICATION {
        n.events := n.events + [StopIndication];
      }
    }

    method DispatchError(buf: array<Byte>, len: nat, n: ErrorNotifier, ghost v: Received)
      requires len <= buf.Length && v.bytes == buf[..len] && v.msgId == ERROR_INDICATION
      modifies n
      ensures n.reports == old(n.reports) + ErrorsOf(cfg, v)
    {
      if len >= 14 {
        var b := buf[..14];
        assert b == buf[..len][..14];
        var sfn, slot := U16At(b, 8), U16At(b, 10);
        n.reports := n.reports + [ErrorReport(SlotPoint(cfg.numerology, sfn, slot), b[12], b[13])];
      }
    }

    ghost function Wires(): Wiring
      reads this
    {
      Wiring(cfg, slotNotifier != null, indNotifier != null, p5Notifier != null, errorNotifier != null)
    }

    /** All that the registered notifiers have been told. */
    ghost function Now(): Upper
      reads this, slotNotifier, indNotifier, errorNotifier, p5Notifier, metrics
    {
      var told := if indNotifier == null then Upper([], [], [], [], [], [], [], [], metrics.now)
                  else Upper([], indNotifier.crc, indNotifier.rxData, indNotifier.uci, indNotifier.rach, indNotifier.srs, [], [], metrics.now);
      told.(slots := if slotNotifier == null then [] else slotNotifier.told,
            p5 := if p5Notifier == null then [] else p5Notifier.events,
            errors := if errorNotifier == null then [] else errorNotifier.reports)
    }

    method OnSlot(buf: array<Byte>, len: nat, time: int, ghost v: Received)
      requires len <= buf.Length && v.bytes == buf[..len] && v.msgId == SLOT_INDICATION && v.time == time
      modifies slotNotifier
      ensures Now() == Apply(Wires(), old(Now()), v)
    {
      hide SlotsOf, Apply;
      SlotOnly(Wires(), Now(), v);
      if slotNotifier != null {
        DispatchSlot(buf, len, time, slotNotifier, v);
      }
    }

    method OnIndication(buf: array<Byte>, len: nat, msgId: int, data: Option<nat>, ghost v: Received)
      requires len <= buf.Length && v == Received.Received(msgId, buf[..len], data, v.time) && IsIndication(msgId)
      modifies indNotifier, metrics
      ensures Now() == Apply(Wires(), old(Now()), v)
    {
      hide CrcOf, RxDataOf, DeclaredOf, UciOf, RachOf, SrsOf, Counted, Apply;
      IndicationOnly(Wires(), Now(), v);
      if indNotifier != null {
        DispatchIndication(msgId, buf, len, data, indNotifier, v.time);
      }
    }

    method OnP5(buf: array<Byte>, len: nat, msgId: int, ghost v: Received)
      requires len <= buf.Length && v.bytes == buf[..len] && v.msgId == msgId && IsP5(msgId)
      modifies p5Notifier
      ensures Now() == Apply(Wires(), old(Now()), v)
    {
      hide P5Of, Apply;
      P5Only(Wires(), Now(), v);
      if p5Notifier != null {
        DispatchP5(buf, len, p5Notifier, msgId, v);
      }
    }

    method OnError(buf: array<Byte>, len: nat, ghost v: Received)
      requires len <= buf.Length && v.bytes == buf[..len] && v.msgId == ERROR_INDICATION
      modifies errorNotifier
      ensures Now() == Apply(Wires(), old(Now()), v)
    {
      hide ErrorsOf, Apply;
      ErrorsOnly(Wires(), Now(), v);
      if errorNotifier != null {
        DispatchError(buf, len, errorNotifier, v);
      }
    }

    /** dispatch_message. */
    method DispatchMessage(m: Message, ghost bytes: seq<Byte>)
      requires Deliverable(m) && (m.buf != null ==> m.buf[..] == bytes)
      modifies slotNotifier, indNotifier, errorNotifier, p5Notifier, metrics
      ensures Now() == ApplyAll(Wires(), old(Now()), View(m, bytes))
    {
      hide Apply, Now, Wires, IsIndication, IsP5, ApplyAll;
      OneView(Wires(), Now(), m, bytes);
      if m.buf == null || m.len <= 0 || m.len > 1000000 {
        return;
      }
      ghost var v := ReceivedAs(m, bytes[..m.len]);
      if m.msgId == SLOT_INDICATION {
        OnSlot(m.buf, m.len, m.time, v);
      } else if IsIndication(m.msgId) {
        var data := if m.data.Some? then Some(AsSize(m.data.value)) else None;
        OnIndication(m.buf, m.len, m.msgId, data, v);
      } else if IsP5(m.msgId) {
        OnP5(m.buf, m.len, m.msgId, v);
      } else if m.msgId == ERROR_INDICATION {
        OnError(m.buf, m.len, v);
      } else {
        UnknownNothing(Wires(), Now(), v);
      }
    }

    /** The next message, with what its buffer holds. */
    method Fetch(x: Interlude, ghost contents: Contents) returns (m: Option<Message>)
      requires t.Valid() && t.s.rx.Draining? && CanRound(t.s, x)
      requires Known(t.inbox + x.before.ms, contents) && forall b :: b in contents ==> b[..] == contents[b]
      modifies t
      ensures t.Valid() && Now() == old(Now())
      ensures (m.None? <==> old(t.inbox) + x.before.ms == []) && (m.None? <==> Moved(old(t.s), x.before).up == [])
      ensures m.None? ==> t.s == AfterRound(old(t.s), x) && t.inbox == [] && t.acts == old(t.acts) + x.before.acts + [Drained]
      ensures m.Some? ==>
                var q := old(t.inbox) + x.before.ms;
                && m.value == q[0] && t.inbox == q[1..] + x.during.ms && Deliverable(q[0])
                && (Guard(q[0]) <==> Accepted(Moved(old(t.s), x.before).up[0]))
                && (q[0].buf != null ==> q[0].buf[..] == BytesOf(q[0], contents))
                && t.s == WithMessage(old(t.s), x) && t.acts == old(t.acts) + x.before.acts + [BufferProtocol.Receive] + x.during.acts
    {
      hide *;
      ghost var q := t.inbox + x.before.ms;
      if q != [] {
        KnownFirst(q, contents);
      }
      m := t.Take(x);
    }

    /** A message in hand is dispatched, then given back. */
    method Serve(m: Message, ghost s0: State, ghost x: Interlude, ghost bytes: seq<Byte>)
      requires t.Valid() && s0.rx.Draining? && CanRound(s0, x) && Moved(s0, x.before).up != [] && t.s == WithMessage(s0, x)
      requires Deliverable(m) && (m.buf != null ==> m.buf[..] == bytes)
      modifies t, slotNotifier, indNotifier, errorNotifier, p5Notifier, metrics
      ensures t.Valid() && t.s == AfterRound(s0, x) && t.inbox == old(t.inbox) && t.acts == old(t.acts) + [Handle] + [Return]
      ensures Now() == ApplyAll(Wires(), old(Now()), View(m, bytes))
    {
      hide *;
      DispatchMessage(m, bytes);
      t.GiveBack(s0, x);
    }

    /** One round of the inner loop, among what the others do meanwhile. */
    method Round(x: Interlude, ghost contents: Contents) returns (more: bool)
      requires t.Valid() && t.s.rx.Draining? && CanRound(t.s, x)
      requires Known(t.inbox + x.before.ms, contents) && forall b :: b in contents ==> b[..] == contents[b]
      modifies t, slotNotifier, indNotifier, errorNotifier, p5Notifier, metrics
      ensures t.Valid() && t.s == AfterRound(old(t.s), x)
      ensures more == (old(t.inbox) + x.before.ms != []) && more == (Moved(old(t.s), x.before).up != [])
      ensures !more ==> t.inbox == [] && t.acts == old(t.acts) + x.before.acts + [Drained] && Now() == old(Now())
      ensures more ==>
                var q := old(t.inbox) + x.before.ms;
                && t.inbox == q[1..] + x.during.ms
                && t.acts == old(t.acts) + x.before.acts + [BufferProtocol.Receive] + x.during.acts + [Handle] + [Return]
                && Now() == ApplyAll(Wires(), old(Now()), View(q[0], BytesOf(q[0], contents)))
      ensures Flags(t.s.h.dispatched)
              == Flags(old(t.s.h.dispatched)) + if more then Heeded((old(t.inbox) + x.before.ms)[..1], contents) else []
    {
      hide *;
      RoundShape(t.s, x);
      ghost var s0 := t.s;
      var m := Fetch(x, contents);
      NoFlags(s0.h.dispatched);
      if m.None? {
        return false;
      }
      ghost var q := old(t.inbox) + x.before.ms;
      assert q[..1] == [m.value];
      FlagsSnoc(s0.h.dispatched, Moved(s0, x.before).up[0], m.value, contents);
      Serve(m.value, s0, x, BytesOf(m.value, contents));
      more := true;
    }

    /** The inner loop: until it finds the queue empty, every message is received, dispatched and released before the
        next one, those that arrive meanwhile included. */
    method Drain(plan: seq<Interlude>, ghost contents: Contents)
      requires t.Valid() && t.s.rx.Draining? && Playable(t.s, plan)
      requires Known(t.inbox + Arriving(plan), contents) && forall b :: b in contents ==> b[..] == contents[b]
      modifies t, slotNotifier, indNotifier, errorNotifier, p5Notifier, metrics
      ensures t.Valid() && t.s.rx.Checking? && t.inbox == [] && t.s.running == old(t.s.running)
      ensures var ms := DispatchedBy(old(t.inbox), plan);
              && t.acts == old(t.acts) + StepsBy(old(t.inbox), plan)
              && Now() == ApplyAll(Wires(), old(Now()), Views(ms, contents))
              && Flags(t.s.h.dispatched) == Flags(old(t.s.h.dispatched)) + Heeded(ms, contents)
    {
      hide *;
      var rest := plan;
      ghost var all, steps := DispatchedBy(t.inbox, plan), StepsBy(t.inbox, plan);
      ghost var left := all;
      while true
        invariant t.Valid() && t.s.rx.Draining? && t.s.running == old(t.s.running) && Playable(t.s, rest)
        invariant forall b :: b in contents ==> b[..] == contents[b]
        invariant Known(t.inbox + Arriving(rest), contents)
        invariant left == DispatchedBy(t.inbox, rest)
        invariant t.acts + StepsBy(t.inbox, rest) == old(t.acts) + steps
        invariant ApplyAll(Wires(), Now(), Views(left, contents)) == ApplyAll(Wires(), old(Now()), Views(all, contents))
        invariant Flags(t.s.h.dispatched) + Heeded(left, contents) == Flags(old(t.s.h.dispatched)) + Heeded(all, contents)
        decreases |rest|, |t.inbox|
      {
        ghost var x, before := Next(rest), t.acts;
        LoopStep(Wires(), Now(), t.s, t.inbox, rest, contents, t.acts, Flags(t.s.h.dispatched));
        var more := Round(Next(rest), contents);
        if !more {
          break;
        }
        left := left[1..];
        rest := Later(rest);
      }
    }

    /** The outer loop's body, from the wake-up on: look at `running`, drain, look again. */
    method Turn(plan: seq<Interlude>, ghost contents: Contents)
      requires t.Valid() && t.s.rx.Woken? && running == t.s.running
      requires running ==> Playable(Then(t.s, Recheck), plan)
      requires Known(t.inbox + Arriving(plan), contents) && forall b :: b in contents ==> b[..] == contents[b]
      modifies t, slotNotifier, indNotifier, errorNotifier, p5Notifier, metrics
      ensures t.Valid()
      ensures !running ==> t.s.rx.Exited? && t.acts == old(t.acts) + [Recheck] && t.inbox == old(t.inbox) && Now() == old(Now())
      ensures running ==>
                var ms := DispatchedBy(old(t.inbox), plan);
                && t.s.rx.Waiting? && t.inbox == []
                && t.acts == old(t.acts) + [Recheck] + StepsBy(old(t.inbox), plan) + [Check]
                && Now() == ApplyAll(Wires(), old(Now()), Views(ms, contents))
    {
      hide Run, ApplyAll, Views, Init, Now, Wires, StepsBy, DispatchedBy, Playable, Heeded, Flags;
      t.Do(Recheck);
      if !running {
        return;
      }
      Drain(plan, contents);
      t.Do(Check);
    }
  }

  // ---------------------------------------------------------------- the protocol's record of what was heeded

  function Flags(ds: seq<Dispatch>): (fs: seq<bool>)
    ensures |fs| == |ds|
  {
    seq(|ds|, i requires 0 <= i < |ds| => ds[i].handled)
  }

  /** Of which messages the upper layer was told anything. */
  function Heeded(ms: seq<Message>, contents: Contents): (fs: seq<bool>)
    ensures |fs| == |ms|
  {
    seq(|ms|, i requires 0 <= i < |ms| => View(ms[i], BytesOf(ms[i], contents)) != [])
  }

  lemma NoFlags(ds: seq<Dispatch>)
    ensures Flags(ds) + [] == Flags(ds)
  {
  }

  lemma FlagsSnoc(ds: seq<Dispatch>, p: Packet, m: Message, contents: Contents)
    requires (Guard(m) <==> Accepted(p)) && Deliverable(m) && (m.buf != null ==> |BytesOf(m, contents)| == m.buf.Length)
    ensures Flags(ds + [Dispatch(p, Accepted(p))]) == Flags(ds) + Heeded([m], contents)
  {
    hide Accepted;
  }

  lemma HeededUnfold(fs: seq<bool>, ms: seq<Message>, contents: Contents)
    ensures ms == [] ==> fs + Heeded(ms, contents) == fs
    ensures ms != [] ==> fs + Heeded(ms[..1], contents) + Heeded(ms[1..], contents) == fs + Heeded(ms, contents)
  {
    hide View;
  }

  /** What one round takes off what is left, whether it finds a message or not. */
  lemma LoopStep(w: Wiring, u: Upper, s: State, inbox: seq<Message>, plan: seq<Interlude>, contents: Contents, acts: seq<Action>, fs: seq<bool>)
    requires s.rx.Draining? && Playable(s, plan) && Known(inbox + Arriving(plan), contents)
    ensures var x, left, steps := Next(plan), DispatchedBy(inbox, plan), StepsBy(inbox, plan);
            var q, after := inbox + x.before.ms, AfterRound(s, x);
            && CanRound(s, x) && Known(q, contents) && after.running == s.running
            && (q == [] && Moved(s, x.before).up == [] ==>
                  && after.rx.Checking? && acts + x.before.acts + [Drained] == acts + steps
                  && ApplyAll(w, u, Views(left, contents)) == u && fs + Heeded(left, contents) == fs)
            && (q != [] && Moved(s, x.before).up != [] ==>
                  var inbox', later := q[1..] + x.during.ms, Later(plan);
                  && after.rx.Draining? && Playable(after, later) && Known(inbox' + Arriving(later), contents)
                  && left != [] && DispatchedBy(inbox', later) == left[1..]
                  && acts + x.before.acts + [BufferProtocol.Receive] + x.during.acts + [Handle] + [Return] + StepsBy(inbox', later)
                     == acts + steps
                  && ApplyAll(w, ApplyAll(w, u, View(q[0], BytesOf(q[0], contents))), Views(left[1..], contents))
                     == ApplyAll(w, u, Views(left, contents))
                  && fs + Heeded(q[..1], contents) + Heeded(left[1..], contents) == fs + Heeded(left, contents)
                  && (|later| < |plan| || (|later| == |plan| && |inbox'| < |inbox|)))
  {
    hide *;
    var x, left := Next(plan), DispatchedBy(inbox, plan);
    var q := inbox + x.before.ms;
    PlayableNext(s, plan);
    RoundShape(s, x);
    ByUnfold(inbox, plan);
    ArrivingNext(inbox, plan, contents);
    Shrinks(inbox, plan);
    ViewsUnfold(w, u, left, contents);
    HeededUnfold(fs, left, contents);
    if q == [] {
      StepsGo(acts, x, []);
    } else {
      StepsGo(acts, x, StepsBy(q[1..] + x.during.ms, Later(plan)));
      assert left[..1] == q[..1];
    }
  }
}
