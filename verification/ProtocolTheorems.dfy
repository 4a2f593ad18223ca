/** What holds in every state any interleaving can reach. */
module ProtocolTheorems {
  import opened Wire
  import opened BufferProtocol

  // ---------------------------------------------------------------- conservation

  /** Every buffer of the pool is in exactly one place, and there are no others. */
  predicate Conserved(pool: set<Buffer>, s: State)
  {
    Places(s) == multiset(pool)
  }

  /** Something moved from `a` to `b`, and the rest stayed. */
  lemma Moved<B>(a: multiset<B>, a': multiset<B>, b: multiset<B>, b': multiset<B>, x: multiset<B>, rest: multiset<B>)
    requires a' + x == a && b' == b + x
    ensures a' + b' + rest == a + b + rest
  {
  }

  lemma {:induction false} RxConserves(pool: set<Buffer>, s: State, a: Action)
    requires Conserved(pool, s) && RxStep(s, a).Some?
    ensures Conserved(pool, RxStep(s, a).value)
  {
    hide Gather, BuffersOf;
    var t := RxStep(s, a).value;
    if a.Receive? {
      GatherHead(BuffersOf, s.up);
      GatherOne(BuffersOf, s.up[0]);
      NoneGathered();
    } else if a.Return? {
      ReturnConserves(pool, s);
    }
  }

  lemma NoneGathered()
    ensures Gather(BuffersOf, []) == multiset{} && Gather(SerialOf, []) == multiset{}
  {
  }

  lemma ReturnConserves(pool: set<Buffer>, s: State)
    requires Conserved(pool, s) && s.rx.Done?
    ensures Conserved(pool, RxStep(s, Return).value)
  {
    hide Gather;
    GatherOne(BuffersOf, s.rx.p);
    NoneGathered();
    var others := Gather(BuffersHeld, s.callers) + Gather(BuffersOf, s.down) + Gather(BuffersOf, s.l1) + Gather(BuffersOf, s.up);
    HeldNotFree(pool, s.free, others, s.rx.p);
    SetJoin(s.free, s.rx.p.buffers);
  }

  lemma TxConserves(pool: set<Buffer>, s: State, a: Action)
    requires Conserved(pool, s) && TxStep(s, a).Some?
    ensures Conserved(pool, TxStep(s, a).value)
  {
    hide Gather;
    var down, l1, up, hand := Gather(BuffersOf, s.down), Gather(BuffersOf, s.l1), Gather(BuffersOf, s.up), Gather(BuffersOf, InHand(s.rx));
    var held := Gather(BuffersHeld, s.callers);
    match a
    case TxAllocate(c, bs) =>
      var p := Packet(s.h.allocations, bs, 0, 0);
      GatherUpdate(BuffersHeld, s.callers, c, Some(p));
      SetSplit(s.free, bs);
      Moved(multiset(s.free), multiset(s.free - bs), held, Gather(BuffersHeld, s.callers[c := Some(p)]), multiset(bs), down + l1 + up + hand);
    case TxSend(c, len, dataLen) =>
      var p := s.callers[c].value.(len := len, dataLen := dataLen);
      GatherUpdate(BuffersHeld, s.callers, c, None);
      GatherSnoc(BuffersOf, s.down, p);
      Moved(held, Gather(BuffersHeld, s.callers[c := None]), down, Gather(BuffersOf, s.down + [p]), multiset(p.buffers),
            multiset(s.free) + l1 + up + hand);
    case TxRelease(c) =>
      var bs := s.callers[c].value.buffers;
      GatherUpdate(BuffersHeld, s.callers, c, None);
      ReleaseDisjoint(pool, s, c);
      SetJoin(s.free, bs);
      Moved(held, Gather(BuffersHeld, s.callers[c := None]), multiset(s.free), multiset(s.free + bs), multiset(bs), down + l1 + up + hand);
    case _ =>
  }

  lemma ReleaseDisjoint(pool: set<Buffer>, s: State, c: nat)
    requires Conserved(pool, s) && c < |s.callers| && s.callers[c].Some?
    ensures s.free !! s.callers[c].value.buffers
  {
    hide Gather;
    GatherUpdate(BuffersHeld, s.callers, c, None);
    var others := Gather(BuffersHeld, s.callers[c := None]) + Gather(BuffersOf, s.down) + Gather(BuffersOf, s.l1)
                  + Gather(BuffersOf, s.up) + Gather(BuffersOf, InHand(s.rx));
    var held, held' := Gather(BuffersHeld, s.callers), Gather(BuffersHeld, s.callers[c := None]);
    assert held' + multiset(s.callers[c].value.buffers) == held;
    HeldNotFree(pool, s.free, others, s.callers[c].value);
  }

  lemma L1Conserves(pool: set<Buffer>, s: State, a: Action)
    requires Conserved(pool, s) && L1Step(s, a).Some?
    ensures Conserved(pool, L1Step(s, a).value)
  {
    hide Gather, Without;
    match a
    case L1Take =>
      GatherHead(BuffersOf, s.down);
      GatherSnoc(BuffersOf, s.l1, s.down[0]);
    case L1Release(i) =>
      GatherWithout(BuffersOf, s.l1, i);
      var others := Gather(BuffersHeld, s.callers) + Gather(BuffersOf, s.down) + Gather(BuffersOf, Without(s.l1, i))
                    + Gather(BuffersOf, s.up) + Gather(BuffersOf, InHand(s.rx));
      HeldNotFree(pool, s.free, others, s.l1[i]);
      SetJoin(s.free, s.l1[i].buffers);
    case L1Allocate(bs) =>
      GatherSnoc(BuffersOf, s.l1, Packet(0, bs, 0, 0));
      SetSplit(s.free, bs);
    case L1Queue(i, len, dataLen) =>
      GatherWithout(BuffersOf, s.l1, i);
      GatherSnoc(BuffersOf, s.up, s.l1[i].(len := len, dataLen := dataLen));
    case _ =>
  }

  // ---------------------------------------------------------------- allocations

  function SerialOf(c: Option<Packet>): multiset<nat>
  {
    if c.Some? then multiset{c.value.serial} else multiset{}
  }

  function Upto(n: nat): multiset<nat>
  {
    if n == 0 then multiset{} else Upto(n - 1) + multiset{n - 1}
  }

  /** The serial of every allocation, once for each way it ended and for each caller holding it. */
  function Ends(s: State): multiset<nat>
  {
    multiset(s.h.sent) + multiset(s.h.released) + Gather(SerialOf, s.callers)
  }

  /** Every allocation so far is sent, or given back, or still in its caller's hands: one of them, and once. */
  predicate Accounted(s: State)
  {
    Ends(s) == Upto(s.h.allocations)
  }

  lemma AllocateAccounts(s: State, c: nat, bs: set<Buffer>)
    requires Accounted(s) && TxStep(s, TxAllocate(c, bs)).Some?
    ensures Accounted(TxStep(s, TxAllocate(c, bs)).value)
  {
    hide Gather, TxShape;
    var p := Packet(s.h.allocations, bs, 0, 0);
    GatherUpdate(SerialOf, s.callers, c, Some(p));
    assert Gather(SerialOf, s.callers[c := Some(p)]) == Gather(SerialOf, s.callers) + multiset{p.serial};
  }

  lemma SendAccounts(s: State, c: nat, len: int, dataLen: int)
    requires Accounted(s) && TxStep(s, TxSend(c, len, dataLen)).Some?
    ensures Accounted(TxStep(s, TxSend(c, len, dataLen)).value)
  {
    hide Gather, Upto;
    var serial := s.callers[c].value.serial;
    GatherUpdate(SerialOf, s.callers, c, None);
    Moved(Gather(SerialOf, s.callers), Gather(SerialOf, s.callers[c := None]), multiset(s.h.sent), multiset(s.h.sent + [serial]),
          multiset{serial}, multiset(s.h.released));
  }

  lemma ReleaseAccounts(s: State, c: nat)
    requires Accounted(s) && TxStep(s, TxRelease(c)).Some?
    ensures Accounted(TxStep(s, TxRelease(c)).value)
  {
    hide Gather, Upto;
    var serial := s.callers[c].value.serial;
    GatherUpdate(SerialOf, s.callers, c, None);
    Moved(Gather(SerialOf, s.callers), Gather(SerialOf, s.callers[c := None]), multiset(s.h.released), multiset(s.h.released + [serial]),
          multiset{serial}, multiset(s.h.sent));
  }

  lemma TxAccounts(s: State, a: Action)
    requires Accounted(s) && TxStep(s, a).Some?
    ensures Accounted(TxStep(s, a).value)
  {
    hide Accounted, TxShape;
    match a
    case TxAllocate(c, bs) => AllocateAccounts(s, c, bs);
    case TxSend(c, len, dataLen) => SendAccounts(s, c, len, dataLen);
    case TxRelease(c) => ReleaseAccounts(s, c);
    case _ =>
  }

  lemma {:induction false} UptoOnce(n: nat, k: nat)
    ensures Upto(n)[k] == if k < n then 1 else 0
  {
    if n > 0 {
      UptoOnce(n - 1, k);
    }
  }

  // ---------------------------------------------------------------- order

  function Handled(ps: seq<Packet>): (ds: seq<Dispatch>)
    ensures |ds| == |ps|
  {
    seq(|ps|, i requires 0 <= i < |ps| => Dispatch(ps[i], Accepted(ps[i])))
  }

  function Serials(ps: seq<Packet>): (ns: seq<nat>)
    ensures |ns| == |ps|
  {
    seq(|ps|, i requires 0 <= i < |ps| => ps[i].serial)
  }

  /** Messages come up in queue order, are handled once each, and each is returned before the next is received; what was
      sent goes down in the order it was sent. */
  predicate InOrder(s: State)
  {
    && s.h.received == s.h.returned + InHand(s.rx)
    && s.h.queued == s.h.received + s.up
    && s.h.dispatched == Handled(s.h.returned + if s.rx.Done? then [s.rx.p] else [])
    && s.h.sent == s.h.taken + Serials(s.down)
  }

  lemma RxOrders(s: State, a: Action)
    requires InOrder(s) && RxStep(s, a).Some?
    ensures InOrder(RxStep(s, a).value)
  {
    hide Accepted;
    var t := RxStep(s, a).value;
    if a.Receive? {
      assert s.h.received == s.h.returned;
      assert s.h.received + s.up == s.h.received + [s.up[0]] + s.up[1..];
    } else if a.Handle? {
      HandledSnoc(s.h.returned, s.rx.p);
      assert s.h.returned + [] == s.h.returned;
    } else if a.Return? {
      assert t.h.returned + [] == s.h.returned + [s.rx.p];
    }
  }

  lemma HandledSnoc(ps: seq<Packet>, p: Packet)
    ensures Handled(ps + [p]) == Handled(ps) + [Dispatch(p, Accepted(p))]
  {
    hide Accepted;
  }

  lemma TxOrders(s: State, a: Action)
    requires InOrder(s) && TxStep(s, a).Some?
    ensures InOrder(TxStep(s, a).value)
  {
    hide Handled, TxShape;
    var t := TxStep(s, a).value;
    if a.TxSend? {
      assert Serials(t.down) == Serials(s.down) + [s.callers[a.c].value.serial];
    }
  }

  lemma L1Orders(s: State, a: Action)
    requires InOrder(s) && L1Step(s, a).Some?
    ensures InOrder(L1Step(s, a).value)
  {
    hide Handled, Without;
    var t := L1Step(s, a).value;
    if a.L1Take? {
      assert Serials(s.down) == [s.down[0].serial] + Serials(t.down);
    }
  }

  // ---------------------------------------------------------------- every reachable state

  ghost predicate Inv(pool: set<Buffer>, s: State)
  {
    Conserved(pool, s) && Accounted(s) && InOrder(s)
  }

  lemma {:induction false} StepKeeps(pool: set<Buffer>, s: State, a: Action)
    requires Inv(pool, s) && Step(s, a).Some?
    ensures Inv(pool, Step(s, a).value)
  {
    hide Conserved, InOrder, Gather;
    if RxStep(s, a).Some? {
      RxConserves(pool, s, a);
      RxOrders(s, a);
    } else if TxStep(s, a).Some? {
      TxConserves(pool, s, a);
      TxAccounts(s, a);
      TxOrders(s, a);
    } else {
      L1Conserves(pool, s, a);
      L1Orders(s, a);
    }
  }

  lemma {:induction false} NoneHeld<B>(f: Option<Packet> -> multiset<B>, n: nat)
    requires f(None) == multiset{}
    ensures Gather(f, seq(n, _ => None)) == multiset{}
  {
    if n > 0 {
      NoneHeld(f, n - 1);
      assert seq(n, _ => None)[..n - 1] == seq<Option<Packet>>(n - 1, _ => None);
    }
  }

  lemma InitHolds(pool: set<Buffer>, callers: nat)
    ensures Inv(pool, Init(pool, callers))
  {
    NoneHeld(BuffersHeld, callers);
    NoneHeld(SerialOf, callers);
  }

  lemma {:induction false} RunKeeps(pool: set<Buffer>, s: State, acts: seq<Action>)
    requires Inv(pool, s) && Run(s, acts).Some?
    ensures Inv(pool, Run(s, acts).value)
  {
    hide Inv, Step;
    if acts != [] {
      RunKeeps(pool, s, acts[..|acts| - 1]);
      StepKeeps(pool, Run(s, acts[..|acts| - 1]).value, acts[|acts| - 1]);
    }
  }

  /** Whatever the interleaving: each pool buffer is in exactly one place (free, with one caller, on its way down, with
      L1, on its way up, or in the receive loop), and nothing else is anywhere. */
  lemma BuffersConserved(pool: set<Buffer>, callers: nat, acts: seq<Action>, b: Buffer)
    requires Run(Init(pool, callers), acts).Some?
    ensures var s := Run(Init(pool, callers), acts).value;
            multiset(s.free)[b] + Gather(BuffersHeld, s.callers)[b] + Gather(BuffersOf, s.down)[b] + Gather(BuffersOf, s.l1)[b]
            + Gather(BuffersOf, s.up)[b] + Gather(BuffersOf, InHand(s.rx))[b] == if b in pool then 1 else 0
  {
    hide Run, Gather, Init;
    InitHolds(pool, callers);
    RunKeeps(pool, Init(pool, callers), acts);
    var s := Run(Init(pool, callers), acts).value;
    assert Places(s)[b] == multiset(pool)[b];
  }

  /** Each successful allocation has been sent once, or given back once, or is still held, and never two of these. */
  lemma {:induction false} AllocationsEndOnce(pool: set<Buffer>, callers: nat, acts: seq<Action>, serial: nat)
    requires Run(Init(pool, callers), acts).Some?
    ensures var s := Run(Init(pool, callers), acts).value;
            multiset(s.h.sent)[serial] + multiset(s.h.released)[serial] + Gather(SerialOf, s.callers)[serial]
            == if serial < s.h.allocations then 1 else 0
  {
    hide Run, Gather, Init;
    InitHolds(pool, callers);
    RunKeeps(pool, Init(pool, callers), acts);
    var s := Run(Init(pool, callers), acts).value;
    UptoOnce(s.h.allocations, serial);
    assert Ends(s)[serial] == Upto(s.h.allocations)[serial];
  }

  /** The receive loop handles exactly the messages L1 queued, in that order and once each (those its length guard
      rejects included), holds at most one, and has returned every earlier one by the time it receives the next. */
  lemma ReceivedInOrder(pool: set<Buffer>, callers: nat, acts: seq<Action>)
    requires Run(Init(pool, callers), acts).Some?
    ensures var s := Run(Init(pool, callers), acts).value;
            && s.h.queued == s.h.returned + InHand(s.rx) + s.up
            && |s.h.returned| <= |s.h.dispatched| <= |s.h.received| <= |s.h.returned| + 1
            && |s.h.received| <= |s.h.queued| && s.h.dispatched == Handled(s.h.queued[..|s.h.dispatched|])
            && (s.rx.Draining? ==> s.h.received == s.h.returned && |s.h.dispatched| == |s.h.returned|)
            && s.h.sent == s.h.taken + Serials(s.down)
  {
    hide Run, Init, Conserved, Accounted, Handled, Serials;
    InitHolds(pool, callers);
    RunKeeps(pool, Init(pool, callers), acts);
    var s := Run(Init(pool, callers), acts).value;
    var ps := s.h.returned + if s.rx.Done? then [s.rx.p] else [];
    assert s.h.queued[..|ps|] == ps;
  }

  /** Once stopped with no drain under way, the loop never touches a message again, whatever the others do, until it is
      started anew; it wakes up once more if it was waiting, and then only to end. */
  predicate Quiet(s: State)
  {
    !s.running && (s.rx.Checking? || s.rx.Waiting? || s.rx.Woken? || s.rx.Exited?)
  }

  lemma {:induction false} StoppedStaysQuiet(s: State, acts: seq<Action>)
    requires Quiet(s) && Run(s, acts).Some? && forall i :: 0 <= i < |acts| ==> !acts[i].Start?
    ensures var t := Run(s, acts).value;
            && Quiet(t) && t.h.received == s.h.received && t.h.dispatched == s.h.dispatched && t.h.returned == s.h.returned
            && WakesIn(acts) + (if t.rx.Waiting? then 1 else 0) <= (if s.rx.Waiting? then 1 else 0)
  {
    hide Step, Quiet;
    if acts != [] {
      var n := |acts| - 1;
      StoppedStaysQuiet(s, acts[..n]);
      QuietStep(Run(s, acts[..n]).value, acts[n]);
    }
  }

  lemma QuietStep(s: State, a: Action)
    requires Quiet(s) && !a.Start? && Step(s, a).Some?
    ensures var t := Step(s, a).value;
            && Quiet(t) && t.h.received == s.h.received && t.h.dispatched == s.h.dispatched && t.h.returned == s.h.returned
            && (if a.Wake? then 1 else 0) + (if t.rx.Waiting? then 1 else 0) <= (if s.rx.Waiting? then 1 else 0)
  {
    hide Accepted, TxShape, Without;
  }

  function PostsIn(acts: seq<Action>): nat
  {
    if acts == [] then 0 else PostsIn(acts[..|acts| - 1]) + if acts[|acts| - 1].L1Post? then 1 else 0
  }

  function WakesIn(acts: seq<Action>): nat
  {
    if acts == [] then 0 else WakesIn(acts[..|acts| - 1]) + if acts[|acts| - 1].Wake? then 1 else 0
  }

  /** The loop wakes up once for each time L1 posted, never more often. */
  lemma {:induction false} WakesAnswerPosts(pool: set<Buffer>, callers: nat, acts: seq<Action>)
    requires Run(Init(pool, callers), acts).Some?
    ensures WakesIn(acts) + Run(Init(pool, callers), acts).value.wakeups == PostsIn(acts)
  {
    hide Step;
    if acts != [] {
      var n := |acts| - 1;
      WakesAnswerPosts(pool, callers, acts[..n]);
      StepWakes(Run(Init(pool, callers), acts[..n]).value, acts[n]);
    }
  }

  lemma StepWakes(s: State, a: Action)
    requires Step(s, a).Some?
    ensures Step(s, a).value.wakeups + (if a.Wake? then 1 else 0) == s.wakeups + if a.L1Post? then 1 else 0
  {
    hide Accepted, TxShape, Without;
  }

  /** Nothing leaks: when nobody holds a message and both queues are empty, the whole pool is free again. */
  lemma NothingLeaks(pool: set<Buffer>, callers: nat, acts: seq<Action>)
    requires Run(Init(pool, callers), acts).Some?
    requires var s := Run(Init(pool, callers), acts).value;
             && (forall c :: 0 <= c < |s.callers| ==> s.callers[c] == None)
             && s.down == [] && s.l1 == [] && s.up == [] && InHand(s.rx) == []
    ensures var s := Run(Init(pool, callers), acts).value;
            && s.free == pool && |s.h.sent| + |s.h.released| == s.h.allocations
            && s.h.dispatched == Handled(s.h.queued)
  {
    hide Run, Init, Handled, Serials, Upto;
    InitHolds(pool, callers);
    RunKeeps(pool, Init(pool, callers), acts);
    var s := Run(Init(pool, callers), acts).value;
    assert s.callers == seq(|s.callers|, _ => None);
    NoneHeld(BuffersHeld, |s.callers|);
    NoneHeld(SerialOf, |s.callers|);
    SameSet(s.free, pool);
    UptoSize(s.h.allocations);
    assert |multiset(s.h.sent) + multiset(s.h.released)| == |s.h.sent| + |s.h.released|;
    assert s.h.returned + [] == s.h.returned && s.h.received + [] == s.h.received;
  }

  lemma SameSet(a: set<Buffer>, b: set<Buffer>)
    ensures multiset(a) == multiset(b) ==> a == b
  {
    if multiset(a) == multiset(b) {
      forall x: Buffer ensures x in a <==> x in b {
        assert x in multiset(a) <==> x in multiset(b);
      }
    }
  }

  lemma {:induction false} UptoSize(n: nat)
    ensures |Upto(n)| == n
  {
    if n > 0 {
      UptoSize(n - 1);
    }
  }
}
