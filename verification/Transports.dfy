/** nvIPC as the bridge sees it: a queue of received messages over the states of the buffer protocol. Whatever the
    methods do is a run of the protocol, so what holds in every reachable state holds here. */
module Transports {
  import opened Wire
  import opened BufferProtocol

  type Int32 = x: int | -0x8000_0000 <= x < 0x8000_0000

  /** An nv_ipc_msg_t as the dispatcher is given it: `data` is data_len, unless there is no data buffer; `time` is what
      the clock reads when the message is parsed. */
  datatype Message = Message(msgId: int, buf: array?<Byte>, len: Int32, data: Option<Int32>, time: int)

  /** The length guard of dispatch_message. */
  predicate Guard(m: Message)
  {
    m.buf != null && 0 < m.len <= 1000000
  }

  /** nvIPC gives a buffer at least as long as it says. */
  predicate Deliverable(m: Message)
  {
    Guard(m) ==> m.len <= m.buf.Length
  }

  /** The message as the packet of the protocol. */
  predicate Carries(m: Message, p: Packet)
  {
    && m.len == p.len && (m.data.Some? ==> m.data.value == p.dataLen)
    && (m.buf != null <==> exists b :: b in p.buffers && b.Msg?)
  }

  /** The guard of the thread and the one the protocol records are the same test. */
  lemma GuardIsAccepted(m: Message, p: Packet)
    requires Carries(m, p)
    ensures Guard(m) <==> Accepted(p)
  {
  }

  // ---------------------------------------------------------------- what the others do

  /** Steps of TX callers and of L1, and the messages L1 queues on the way. */
  datatype Moves = Moves(acts: seq<Action>, ms: seq<Message>)

  const QUIET: Moves := Moves([], [])

  predicate ByOthers(a: Action)
  {
    && !a.Start? && !a.Stop? && !a.Check? && !a.Wake? && !a.Recheck? && !a.Receive? && !a.Drained? && !a.Handle? && !a.Return?
  }

  predicate AllByOthers(acts: seq<Action>)
  {
    forall i :: 0 <= i < |acts| ==> ByOthers(acts[i])
  }

  predicate AllCarry(ms: seq<Message>, ps: seq<Packet>)
  {
    |ms| == |ps| && forall i :: 0 <= i < |ms| ==> Deliverable(ms[i]) && Carries(ms[i], ps[i])
  }

  /** What the others leave alone: the loop and what it has done; the queue only grows at its end. */
  predicate Leaves(s: State, t: State)
  {
    && t.rx == s.rx && t.running == s.running && s.up <= t.up
    && t.h.received == s.h.received && t.h.dispatched == s.h.dispatched && t.h.returned == s.h.returned
  }

  lemma {:induction false} OthersLeave(s: State, acts: seq<Action>)
    requires AllByOthers(acts) && Run(s, acts).Some?
    ensures Leaves(s, Run(s, acts).value)
  {
    hide Step, ByOthers, Leaves;
    if acts == [] {
      LeavesItself(s);
    } else {
      var n := |acts| - 1;
      OthersLeave(s, acts[..n]);
      OneLeaves(Run(s, acts[..n]).value, acts[n]);
      LeavesOn(s, Run(s, acts[..n]).value, Run(s, acts).value);
    }
  }

  lemma LeavesItself(s: State)
    ensures Leaves(s, s)
  {
  }

  lemma LeavesOn(s: State, t: State, u: State)
    requires Leaves(s, t) && Leaves(t, u)
    ensures Leaves(s, u)
  {
  }

  lemma OneLeaves(s: State, a: Action)
    requires ByOthers(a) && Step(s, a).Some?
    ensures Leaves(s, Step(s, a).value)
  {
    hide Accepted, TxShape, Without;
  }

  lemma {:induction false} RunAppend(s: State, a: seq<Action>, b: seq<Action>)
    requires Run(s, a).Some?
    ensures Run(s, a + b) == Run(Run(s, a).value, b)
  {
    hide Step;
    if b == [] {
      assert a + b == a;
    } else {
      assert (a + b)[..|a + b| - 1] == a + b[..|b| - 1];
      RunAppend(s, a, b[..|b| - 1]);
    }
  }

  lemma RunOne(s: State, a: Action)
    ensures Run(s, [a]) == Step(s, a)
  {
    hide Step;
    assert [a][..0] == [];
  }

  /** The others can move like this, and the messages are what then stands behind the queue. */
  ghost predicate CanMove(s: State, x: Moves)
  {
    && AllByOthers(x.acts) && Run(s, x.acts).Some?
    && |s.up| <= |Run(s, x.acts).value.up| && AllCarry(x.ms, Run(s, x.acts).value.up[|s.up|..])
  }

  function Moved(s: State, x: Moves): State
  {
    match Run(s, x.acts)
    case Some(t) => t
    case None => s
  }

  lemma QuietMoves(s: State)
    ensures CanMove(s, QUIET) && Moved(s, QUIET) == s
  {
    assert s.up[|s.up|..] == [];
  }

  lemma MovesLeave(s: State, x: Moves)
    requires CanMove(s, x)
    ensures Leaves(s, Moved(s, x)) && |Moved(s, x).up| == |s.up| + |x.ms|
  {
    hide Run, Leaves;
    OthersLeave(s, x.acts);
  }

  // ---------------------------------------------------------------- one round of the receive loop

  /** What the others do in one round of the loop: before it asks for a message, and while it has one in hand. */
  datatype Interlude = Interlude(before: Moves, during: Moves)

  function Then(s: State, a: Action): State
  {
    match Step(s, a)
    case Some(t) => t
    case None => s
  }

  /** The state in which a round that starts in `s` has its message in hand. */
  function WithMessage(s: State, x: Interlude): State
  {
    Moved(Then(Moved(s, x.before), BufferProtocol.Receive), x.during)
  }

  /** The state after one round that starts in `s`. */
  function AfterRound(s: State, x: Interlude): State
  {
    if Moved(s, x.before).up == [] then Then(Moved(s, x.before), Drained) else Then(Then(WithMessage(s, x), Handle), Return)
  }

  ghost predicate CanRound(s: State, x: Interlude)
  {
    && CanMove(s, x.before)
    && (Moved(s, x.before).up != [] ==> CanMove(Then(Moved(s, x.before), BufferProtocol.Receive), x.during))
  }

  /** One round, step by step, for a loop that is draining. */
  lemma RoundShape(s: State, x: Interlude)
    requires s.rx.Draining? && CanRound(s, x)
    ensures var s1 := Moved(s, x.before);
            && CanMove(s, x.before) && s1.rx.Draining? && Leaves(s, s1) && |s1.up| == |s.up| + |x.before.ms|
            && (s1.up == [] ==>
                  && Step(s1, Drained) == Some(AfterRound(s, x)) && AfterRound(s, x).rx.Checking? && AfterRound(s, x).up == []
                  && AfterRound(s, x).h.dispatched == s.h.dispatched && AfterRound(s, x).running == s.running)
            && (s1.up != [] ==>
                  var s2 := Then(s1, BufferProtocol.Receive);
                  && Step(s1, BufferProtocol.Receive) == Some(s2) && s2.rx == Got(s1.up[0])
                  && CanMove(s2, x.during)
                  && WithMessage(s, x) == Moved(s2, x.during)
                  && var s3 := WithMessage(s, x);
                     && s3.rx == Got(s1.up[0])
                     && var s4 := Then(s3, Handle);
                        && Step(s3, Handle) == Some(s4) && s4.up == s3.up && s4.rx == Done(s1.up[0])
                        && AfterRound(s, x) == Then(s4, Return) && Step(s4, Return) == Some(AfterRound(s, x))
                        && AfterRound(s, x).up == s4.up && AfterRound(s, x).rx.Draining?
                        && AfterRound(s, x).h.dispatched == s.h.dispatched + [Dispatch(s1.up[0], Accepted(s1.up[0]))]
                        && AfterRound(s, x).running == s.running)
  {
    hide Run, CanMove, Moved, Accepted;
    MovesLeave(s, x.before);
    var s1 := Moved(s, x.before);
    if s1.up != [] {
      MovesLeave(Then(s1, BufferProtocol.Receive), x.during);
    }
  }

  // ---------------------------------------------------------------- the transport

  class Transport {
    var s: State
    var inbox: seq<Message>
    ghost var acts: seq<Action>
    ghost const pool: set<Buffer>
    ghost const callers: nat

    /** The state is one the protocol reaches, and the inbox holds the messages of its upward queue. */
    ghost predicate Valid()
      reads this
    {
      Run(Init(pool, callers), acts) == Some(s) && AllCarry(inbox, s.up)
    }

    constructor (ghost pool: set<Buffer>, ghost callers: nat, s: State)
      requires s == Init(pool, callers)
      ensures Valid() && this.s == s && this.pool == pool && this.callers == callers && acts == [] && inbox == []
    {
      this.pool, this.callers, this.s := pool, callers, s;
      inbox, acts := [], [];
    }

    /** One step that leaves the queue alone. */
    method Do(a: Action)
      requires Valid() && Step(s, a).Some? && Step(s, a).value.up == s.up
      modifies this
      ensures Valid() && s == Step(old(s), a).value && acts == old(acts) + [a] && inbox == old(inbox)
    {
      hide Step, Init, AllCarry;
      RunAppend(Init(pool, callers), acts, [a]);
      RunOne(s, a);
      s := Step(s, a).value;
      acts := acts + [a];
    }

    /** Any steps of TX callers and L1. */
    method Others(x: Moves)
      requires Valid() && CanMove(s, x)
      modifies this
      ensures Valid() && s == Moved(old(s), x) && acts == old(acts) + x.acts && inbox == old(inbox) + x.ms
    {
      hide Run, Init;
      RunAppend(Init(pool, callers), acts, x.acts);
      OthersLeave(s, x.acts);
      QueueGrows(inbox, s.up, x.ms, Run(s, x.acts).value.up);
      s := Run(s, x.acts).value;
      acts := acts + x.acts;
      inbox := inbox + x.ms;
    }

    /** L1 puts a message it holds into the queue. */
    method Deliver(i: nat, m: Message, dataLen: int)
      requires Valid() && i < |s.l1| && Deliverable(m) && Carries(m, s.l1[i].(len := m.len, dataLen := dataLen))
      modifies this
      ensures Valid() && inbox == old(inbox) + [m] && acts == old(acts) + [L1Queue(i, m.len, dataLen)]
      ensures s.rx == old(s.rx) && s.up == old(s.up) + [old(s.l1)[i].(len := m.len, dataLen := dataLen)]
    {
      hide Init, Accepted;
      RunOne(s, L1Queue(i, m.len, dataLen));
      var p := s.l1[i].(len := m.len, dataLen := dataLen);
      assert (s.up + [p])[|s.up|..] == [p];
      Others(Moves([L1Queue(i, m.len, dataLen)], [m]));
    }

    /** rx_recv: the next message of the queue, if there is one. */
    method Recv() returns (m: Option<Message>)
      requires Valid() && s.rx.Draining?
      modifies this
      ensures Valid()
      ensures old(inbox) == [] ==> m == None && acts == old(acts) + [Drained] && inbox == []
      ensures old(inbox) != [] ==> m == Some(old(inbox)[0]) && acts == old(acts) + [BufferProtocol.Receive] && inbox == old(inbox)[1..]
      ensures Step(old(s), if old(inbox) == [] then Drained else BufferProtocol.Receive) == Some(s)
      ensures (old(inbox) == [] <==> old(s.up) == []) && (m.Some? ==> Deliverable(m.value) && Carries(m.value, old(s.up)[0]))
    {
      hide Init, Carries, Deliverable;
      if inbox == [] {
        Do(Drained);
        return None;
      }
      RunAppend(Init(pool, callers), acts, [BufferProtocol.Receive]);
      RunOne(s, BufferProtocol.Receive);
      m := Some(inbox[0]);
      s := Step(s, BufferProtocol.Receive).value;
      acts := acts + [BufferProtocol.Receive];
      inbox := inbox[1..];
    }

    /** A round up to where the loop has a message in hand: the others, the receive, and the others again. */
    method Take(x: Interlude) returns (m: Option<Message>)
      requires Valid() && s.rx.Draining? && CanRound(s, x)
      modifies this
      ensures Valid()
      ensures m.None? <==> old(inbox) + x.before.ms == []
      ensures m.None? <==> Moved(old(s), x.before).up == []
      ensures m.None? ==> s == AfterRound(old(s), x) && inbox == [] && acts == old(acts) + x.before.acts + [Drained]
      ensures m.Some? ==>
                var q := old(inbox) + x.before.ms;
                && m.value == q[0] && inbox == q[1..] + x.during.ms && Deliverable(q[0])
                && (Guard(q[0]) <==> Accepted(Moved(old(s), x.before).up[0]))
                && s == WithMessage(old(s), x) && acts == old(acts) + x.before.acts + [BufferProtocol.Receive] + x.during.acts
    {
      hide *;
      RoundShape(s, x);
      ghost var s0 := s;
      Others(x.before);
      m := Recv();
      if m.Some? {
        GuardIsAccepted(m.value, Moved(s0, x.before).up[0]);
        Others(x.during);
      }
    }

    /** The rest of it, once the message is dispatched. */
    method GiveBack(ghost s0: State, ghost x: Interlude)
      requires Valid() && s0.rx.Draining? && CanRound(s0, x) && Moved(s0, x.before).up != [] && s == WithMessage(s0, x)
      modifies this
      ensures Valid() && s == AfterRound(s0, x) && inbox == old(inbox) && acts == old(acts) + [Handle] + [Return]
    {
      hide *;
      RoundShape(s0, x);
      Do(Handle);
      Do(Return);
    }
  }

  lemma QueueGrows(ms: seq<Message>, ps: seq<Packet>, more: seq<Message>, qs: seq<Packet>)
    requires AllCarry(ms, ps) && ps <= qs && AllCarry(more, qs[|ps|..])
    ensures AllCarry(ms + more, qs)
  {
    hide Carries, Deliverable;
    var all := ms + more;
    forall i | 0 <= i < |all| ensures Deliverable(all[i]) && Carries(all[i], qs[i]) {
      if i < |ms| {
        assert qs[i] == ps[i];
      } else {
        assert qs[i] == qs[|ps|..][i - |ps|];
      }
    }
  }
}
