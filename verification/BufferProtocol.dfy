/** The life of nvIPC buffers as an interleaved system: any number of TX callers, the one receive loop, and L1, over
    abstract pools and queues. */
module BufferProtocol {
  import opened Wire

  // ---------------------------------------------------------------- state

  /** A buffer of the CPU_MSG or the CPU_DATA pool. */
  datatype Buffer = Msg(id: nat) | Data(id: nat)

  /** What one nv_ipc_msg_t holds; `serial` counts the TX allocations, the lengths are msg_len and data_len. */
  datatype Packet = Packet(serial: nat, buffers: set<Buffer>, len: int, dataLen: int)

  /** Where the receive loop stands. */
  datatype RxPhase = Idle | Checking | Waiting | Woken | Draining | Got(p: Packet) | Done(p: Packet) | Exited

  datatype Dispatch = Dispatch(p: Packet, handled: bool)

  /** What has happened, in order. */
  datatype History = History(
    allocations: nat, sent: seq<nat>, released: seq<nat>, taken: seq<nat>,
    queued: seq<Packet>, received: seq<Packet>, dispatched: seq<Dispatch>, returned: seq<Packet>)

  datatype State = State(
    free: set<Buffer>, callers: seq<Option<Packet>>, down: seq<Packet>, l1: seq<Packet>, up: seq<Packet>,
    rx: RxPhase, running: bool, wakeups: nat, h: History)

  function Init(pool: set<Buffer>, callers: nat): State
  {
    State(pool, seq(callers, _ => None), [], [], [], Idle, false, 0, History(0, [], [], [], [], [], [], []))
  }

  // ---------------------------------------------------------------- steps

  datatype Action =
    // the receive loop
    | Start | Stop | Check | Wake | Recheck | Receive | Drained | Handle | Return
    // a caller of one of the send methods
    | TxAllocate(c: nat, bs: set<Buffer>) | TxRefused(c: nat) | TxSend(c: nat, len: int, dataLen: int) | TxRelease(c: nat)
    // L1
    | L1Take | L1Release(i: nat) | L1Allocate(bs: set<Buffer>) | L1Queue(i: nat, len: int, dataLen: int) | L1Post

  /** The guard at the top of dispatch_message. */
  predicate Accepted(p: Packet)
  {
    (exists b :: b in p.buffers && b.Msg?) && 0 < p.len <= 1000000
  }

  /** One CPU_MSG buffer, and one CPU_DATA buffer for TX_DATA. */
  predicate TxShape(bs: set<Buffer>)
  {
    exists m :: m in bs && m.Msg? && (bs == {m} || exists d :: d in bs && d.Data? && bs == {m, d})
  }

  function Without<T>(s: seq<T>, i: nat): seq<T>
    requires i < |s|
  {
    s[..i] + s[i + 1..]
  }

  function RxStep(s: State, a: Action): Option<State>
  {
    match a
    case Start =>
      if s.running then Some(s)
      else if s.rx == Idle || s.rx == Exited then Some(s.(running := true, rx := Checking))
      else None
    case Stop => Some(s.(running := false))
    case Check => if s.rx == Checking then Some(s.(rx := if s.running then Waiting else Exited)) else None
    case Wake => if s.rx == Waiting && s.wakeups > 0 then Some(s.(rx := Woken, wakeups := s.wakeups - 1)) else None
    case Recheck => if s.rx == Woken then Some(s.(rx := if s.running then Draining else Exited)) else None
    case Receive =>
      if s.rx == Draining && s.up != []
      then Some(s.(rx := Got(s.up[0]), up := s.up[1..], h := s.h.(received := s.h.received + [s.up[0]])))
      else None
    case Drained => if s.rx == Draining && s.up == [] then Some(s.(rx := Checking)) else None
    case Handle =>
      if s.rx.Got?
      then Some(s.(rx := Done(s.rx.p), h := s.h.(dispatched := s.h.dispatched + [Dispatch(s.rx.p, Accepted(s.rx.p))])))
      else None
    case Return =>
      if s.rx.Done?
      then Some(s.(rx := Draining, free := s.free + s.rx.p.buffers, h := s.h.(returned := s.h.returned + [s.rx.p])))
      else None
    case _ => None
  }

  function TxStep(s: State, a: Action): Option<State>
  {
    match a
    case TxAllocate(c, bs) =>
      if c < |s.callers| && s.callers[c].None? && TxShape(bs) && bs <= s.free
      then Some(s.(free := s.free - bs, callers := s.callers[c := Some(Packet(s.h.allocations, bs, 0, 0))],
                   h := s.h.(allocations := s.h.allocations + 1)))
      else None
    case TxRefused(c) => if c < |s.callers| && s.callers[c].None? then Some(s) else None
    case TxSend(c, len, dataLen) =>
      if c < |s.callers| && s.callers[c].Some?
      then
        var p := s.callers[c].value;
        Some(s.(callers := s.callers[c := None], down := s.down + [p.(len := len, dataLen := dataLen)], h := s.h.(sent := s.h.sent + [p.serial])))
      else None
    case TxRelease(c) =>
      if c < |s.callers| && s.callers[c].Some?
      then
        var p := s.callers[c].value;
        Some(s.(callers := s.callers[c := None], free := s.free + p.buffers, h := s.h.(released := s.h.released + [p.serial])))
      else None
    case _ => None
  }

  function L1Step(s: State, a: Action): Option<State>
  {
    match a
    case L1Take =>
      if s.down != []
      then Some(s.(down := s.down[1..], l1 := s.l1 + [s.down[0]], h := s.h.(taken := s.h.taken + [s.down[0].serial])))
      else None
    case L1Release(i) =>
      if i < |s.l1| then Some(s.(l1 := Without(s.l1, i), free := s.free + s.l1[i].buffers)) else None
    case L1Allocate(bs) =>
      if bs <= s.free then Some(s.(free := s.free - bs, l1 := s.l1 + [Packet(0, bs, 0, 0)])) else None
    case L1Queue(i, len, dataLen) =>
      if i < |s.l1|
      then
        var p := s.l1[i].(len := len, dataLen := dataLen);
        Some(s.(l1 := Without(s.l1, i), up := s.up + [p], h := s.h.(queued := s.h.queued + [p])))
      else None
    case L1Post => Some(s.(wakeups := s.wakeups + 1))
    case _ => None
  }

  /** One step of anybody, if it is enabled. */
  function Step(s: State, a: Action): Option<State>
  {
    match a
    case Start | Stop | Check | Wake | Recheck | Receive | Drained | Handle | Return => RxStep(s, a)
    case TxAllocate(_, _) | TxRefused(_) | TxSend(_, _, _) | TxRelease(_) => TxStep(s, a)
    case _ => L1Step(s, a)
  }

  /** An interleaving. */
  function Run(s: State, acts: seq<Action>): Option<State>
  {
    if acts == [] then Some(s)
    else
      var t :- Run(s, acts[..|acts| - 1]);
      Step(t, acts[|acts| - 1])
  }

  // ---------------------------------------------------------------- gathering

  function Gather<T, B>(f: T -> multiset<B>, xs: seq<T>): multiset<B>
  {
    if xs == [] then multiset{} else Gather(f, xs[..|xs| - 1]) + f(xs[|xs| - 1])
  }

  lemma {:induction false} GatherAppend<T, B>(f: T -> multiset<B>, a: seq<T>, b: seq<T>)
    ensures Gather(f, a + b) == Gather(f, a) + Gather(f, b)
  {
    if b == [] {
      assert a + b == a;
    } else {
      assert (a + b)[..|a + b| - 1] == a + b[..|b| - 1];
      GatherAppend(f, a, b[..|b| - 1]);
    }
  }

  lemma GatherOne<T, B>(f: T -> multiset<B>, x: T)
    ensures Gather(f, [x]) == f(x)
  {
    assert Gather(f, [x][..0]) == multiset{};
  }

  lemma {:induction false} GatherSplit<T, B>(f: T -> multiset<B>, xs: seq<T>, i: nat)
    requires i < |xs|
    ensures Gather(f, xs) == Gather(f, xs[..i]) + f(xs[i]) + Gather(f, xs[i + 1..])
  {
    hide Gather;
    GatherAppend(f, xs[..i] + [xs[i]], xs[i + 1..]);
    GatherAppend(f, xs[..i], [xs[i]]);
    GatherOne(f, xs[i]);
    assert xs == xs[..i] + [xs[i]] + xs[i + 1..];
  }

  lemma GatherUpdate<T, B>(f: T -> multiset<B>, xs: seq<T>, i: nat, x: T)
    requires i < |xs|
    ensures Gather(f, xs[i := x]) + f(xs[i]) == Gather(f, xs) + f(x)
  {
    hide Gather;
    GatherSplit(f, xs, i);
    GatherSplit(f, xs[i := x], i);
    assert xs[i := x][..i] == xs[..i] && xs[i := x][i + 1..] == xs[i + 1..];
  }

  lemma {:induction false} GatherWithout<T, B>(f: T -> multiset<B>, xs: seq<T>, i: nat)
    requires i < |xs|
    ensures Gather(f, Without(xs, i)) + f(xs[i]) == Gather(f, xs)
  {
    hide Gather;
    GatherSplit(f, xs, i);
    GatherAppend(f, xs[..i], xs[i + 1..]);
  }

  lemma GatherSnoc<T, B>(f: T -> multiset<B>, xs: seq<T>, x: T)
    ensures Gather(f, xs + [x]) == Gather(f, xs) + f(x)
  {
    assert (xs + [x])[..|xs|] == xs;
  }

  lemma GatherHead<T, B>(f: T -> multiset<B>, xs: seq<T>)
    requires xs != []
    ensures Gather(f, xs[1..]) + f(xs[0]) == Gather(f, xs)
  {
    hide Gather;
    GatherWithout(f, xs, 0);
    assert Without(xs, 0) == xs[1..];
  }

  // ---------------------------------------------------------------- where every buffer is

  function BuffersOf(p: Packet): multiset<Buffer>
  {
    multiset(p.buffers)
  }

  function BuffersHeld(c: Option<Packet>): multiset<Buffer>
  {
    if c.Some? then BuffersOf(c.value) else multiset{}
  }

  function InHand(rx: RxPhase): seq<Packet>
  {
    if rx.Got? || rx.Done? then [rx.p] else []
  }

  /** Every buffer, once for each place it is in. */
  function Places(s: State): multiset<Buffer>
  {
    multiset(s.free) + Gather(BuffersHeld, s.callers) + Gather(BuffersOf, s.down) + Gather(BuffersOf, s.l1)
    + Gather(BuffersOf, s.up) + Gather(BuffersOf, InHand(s.rx))
  }

  lemma SetSplit(a: set<Buffer>, b: set<Buffer>)
    requires b <= a
    ensures multiset(a - b) + multiset(b) == multiset(a)
  {
  }

  lemma SetJoin(a: set<Buffer>, b: set<Buffer>)
    requires a !! b
    ensures multiset(a + b) == multiset(a) + multiset(b)
  {
  }

  /** A buffer that is in one place only is not free while a packet holds it. */
  lemma HeldNotFree(pool: set<Buffer>, free: set<Buffer>, others: multiset<Buffer>, p: Packet)
    requires multiset(free) + others + multiset(p.buffers) == multiset(pool)
    ensures free !! p.buffers
  {
    forall b | b in p.buffers ensures b !in free {
      assert multiset(free)[b] + others[b] + multiset(p.buffers)[b] == multiset(pool)[b] <= 1;
    }
  }
}
