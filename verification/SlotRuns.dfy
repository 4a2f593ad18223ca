/** From the messages a receive thread dispatches to the slots that come out of the extender behind it. */
module SlotRuns {
  import opened Wire
  import opened SlotStream
  import opened RxReports

  /** The slot indications a run of messages makes. */
  function Told(c: Config, vs: seq<RxReports.Received>): seq<SlotReport>
  {
    if vs == [] then [] else Told(c, vs[..|vs| - 1]) + SlotsOf(c, vs[|vs| - 1])
  }

  /** SFN and slot on the wire of every SLOT.indication that is accepted. */
  function OnWire(c: Config, vs: seq<RxReports.Received>): seq<SfnSlot>
  {
    if vs == [] then []
    else
      var v := vs[|vs| - 1];
      OnWire(c, vs[..|vs| - 1])
      + if v.msgId == SLOT_INDICATION && Parse(v.bytes, c.numerology).Some? then [SfnSlot(U16At(v.bytes, 8), U16At(v.bytes, 10))] else []
  }

  /** Whatever else is dispatched in between, the slot notifier is told every accepted slot, in order, and nothing else. */
  lemma {:induction false} ToldInOrder(w: Wiring, u: Upper, vs: seq<RxReports.Received>)
    requires w.slot
    ensures ApplyAll(w, u, vs).slots == u.slots + Told(w.cfg, vs)
  {
    hide SlotsOf, Apply;
    if vs == [] {
      assert u.slots + [] == u.slots;
    } else {
      var init, v := vs[..|vs| - 1], vs[|vs| - 1];
      ToldInOrder(w, u, init);
      SlotsApplied(w, ApplyAll(w, u, init), v);
      Regroup(u.slots, Told(w.cfg, init), SlotsOf(w.cfg, v));
    }
  }

  lemma SlotsApplied(w: Wiring, u: Upper, v: RxReports.Received)
    requires w.slot
    ensures Apply(w, u, v).slots == u.slots + SlotsOf(w.cfg, v)
  {
    hide SlotsOf, CrcOf, RxDataOf, UciOf, RachOf, SrsOf, P5Of, ErrorsOf, Counted;
  }

  /** A report and the wire pair it was made from. */
  predicate Matches(c: Config, r: SlotReport, x: SfnSlot)
  {
    && (r.point.mu == c.numerology <==> x.slot < FrameSlots(c.numerology))
    && r.point.count < Period(r.point.mu) && Project(r.point.mu, r.point.count) == x
  }

  lemma {:induction false} ToldMatches(c: Config, vs: seq<RxReports.Received>)
    ensures |Told(c, vs)| == |OnWire(c, vs)|
    ensures forall i :: 0 <= i < |Told(c, vs)| ==> Matches(c, Told(c, vs)[i], OnWire(c, vs)[i])
  {
    hide Parse, FrameSlots, Matches;
    if vs != [] {
      var v := vs[|vs| - 1];
      ToldMatches(c, vs[..|vs| - 1]);
      if v.msgId == SLOT_INDICATION && Parse(v.bytes, c.numerology).Some? {
        OneMatches(c, v);
      }
    }
  }

  lemma OneMatches(c: Config, v: RxReports.Received)
    requires v.msgId == SLOT_INDICATION && Parse(v.bytes, c.numerology).Some?
    ensures |v.bytes| >= MESSAGE
    ensures SlotsOf(c, v) == [SlotReport(Parse(v.bytes, c.numerology).value, v.time)]
    ensures Matches(c, SlotsOf(c, v)[0], SfnSlot(U16At(v.bytes, 8), U16At(v.bytes, 10)))
  {
    hide Parse, FrameSlots, Period, Project;
    Acceptance(v.bytes, c.numerology);
    NumerologyKept(v.bytes, c.numerology);
  }

  /** The run stays at the configured numerology exactly when every accepted slot fits a frame of it. */
  lemma RunKeepsNumerology(c: Config, vs: seq<RxReports.Received>)
    ensures (forall i :: 0 <= i < |Told(c, vs)| ==> Told(c, vs)[i].point.mu == c.numerology)
            <==> (forall i :: 0 <= i < |OnWire(c, vs)| ==> OnWire(c, vs)[i].slot < FrameSlots(c.numerology))
  {
    hide Told, OnWire, FrameSlots;
    ToldMatches(c, vs);
    var rs, xs := Told(c, vs), OnWire(c, vs);
    forall i | 0 <= i < |rs| ensures rs[i].point.mu == c.numerology <==> xs[i].slot < FrameSlots(c.numerology) {
      assert Matches(c, rs[i], xs[i]);
    }
  }

  // ---------------------------------------------------------------- the timeline

  /** SFN and slot on the wire at the given absolute slots. */
  function SentAt(mu: nat, times: seq<nat>): (xs: seq<SfnSlot>)
    ensures |xs| == |times|
  {
    seq(|times|, i requires 0 <= i < |times| => Sent(mu, times[i]))
  }

  /** What the extender hands on when it is given these reports, as its contract says. */
  function Extends(mu: nat, hyperFrames: nat, rs: seq<SlotReport>): (out: seq<SlotReport>)
    requires hyperFrames > 0
    ensures |out| == |rs|
  {
    seq(|rs|, i requires 0 <= i < |rs| =>
      SlotReport(Point(mu, Wrapped(mu, hyperFrames, Extended(Period(mu), RawsOf(mu, rs))[i])), rs[i].time))
  }

  function RawsOf(mu: nat, rs: seq<SlotReport>): (raws: seq<nat>)
    ensures |raws| == |rs|
  {
    seq(|rs|, i requires 0 <= i < |rs| => rs[i].point.count % Period(mu))
  }

  lemma ExtendsSnoc(mu: nat, hyperFrames: nat, rs: seq<SlotReport>, r: SlotReport)
    requires hyperFrames > 0
    ensures var raws := RawsOf(mu, rs) + [r.point.count % Period(mu)];
            && RawsOf(mu, rs + [r]) == raws
            && Extends(mu, hyperFrames, rs + [r])
               == Extends(mu, hyperFrames, rs) + [SlotReport(Point(mu, Wrapped(mu, hyperFrames, Last(Extended(Period(mu), raws)))), r.time)]
  {
    hide Period, Wrapped, Extended;
    var raws := RawsOf(mu, rs) + [r.point.count % Period(mu)];
    assert RawsOf(mu, rs + [r]) == raws;
    PrefixExtended(Period(mu), raws, |rs|);
    assert raws[..|rs|] == RawsOf(mu, rs);
    forall i | 0 <= i < |rs| ensures Extended(Period(mu), raws)[i] == Extended(Period(mu), RawsOf(mu, rs))[i] {
      assert Extended(Period(mu), raws)[..|rs|][i] == Extended(Period(mu), raws)[i];
    }
  }

  /** Every slot handed on: the first one received plus max(1, delta) for every step since, on the counter of all hyper
      frames; and the time stamp of its report. */
  lemma HandedOn(mu: nat, hyperFrames: nat, rs: seq<SlotReport>, i: nat)
    requires hyperFrames > 0 && i < |rs|
    ensures var p, raws, out := Period(mu), RawsOf(mu, rs), Extends(mu, hyperFrames, rs);
            && hyperFrames * p > 0 && out[i].time == rs[i].time && out[i].point.mu == mu
            && out[i].point.count == (raws[0] + TotalAdvance(p, raws[..i + 1])) % (hyperFrames * p)
  {
    hide Period, Extended, Wrapped, TotalAdvance, RawsOf;
    var p, raws := Period(mu), RawsOf(mu, rs);
    PrefixExtended(p, raws, i + 1);
    RunAdvances(p, raws[..i + 1]);
    assert Last(Extended(p, raws)[..i + 1]) == Extended(p, raws)[i];
    assert raws[..i + 1][0] == raws[0];
    WrappedIsMod(mu, hyperFrames, Extended(p, raws)[i]);
  }

  /** Until that counter starts over, the slots handed on strictly increase. */
  lemma HandedOnIncreases(mu: nat, hyperFrames: nat, rs: seq<SlotReport>, i: nat, j: nat)
    requires hyperFrames > 0 && i < j < |rs|
    requires RawsOf(mu, rs)[0] + TotalAdvance(Period(mu), RawsOf(mu, rs)[..j + 1]) < hyperFrames * Period(mu)
    ensures var out := Extends(mu, hyperFrames, rs); out[i].point.count < out[j].point.count
    ensures var raws := RawsOf(mu, rs); Extends(mu, hyperFrames, rs)[j].point.count == raws[0] + TotalAdvance(Period(mu), raws[..j + 1])
  {
    hide Period, TotalAdvance, Extends, RawsOf, Extended;
    var p, raws := Period(mu), RawsOf(mu, rs);
    HandedOn(mu, hyperFrames, rs, i);
    HandedOn(mu, hyperFrames, rs, j);
    PrefixExtended(p, raws, i + 1);
    PrefixExtended(p, raws, j + 1);
    RunAdvances(p, raws[..i + 1]);
    RunAdvances(p, raws[..j + 1]);
    StrictlyIncreasing(p, raws, i, j);
    assert raws[..i + 1][0] == raws[0] == raws[..j + 1][0];
    var a, b := raws[0] + TotalAdvance(p, raws[..i + 1]), raws[0] + TotalAdvance(p, raws[..j + 1]);
    assert a == Extended(p, raws)[i] && b == Extended(p, raws)[j];
    ModIs(a, hyperFrames * p, 0, a);
    ModIs(b, hyperFrames * p, 0, b);
  }

  /** An extender that gets the reports of a run one by one hands on exactly their extension. */
  method Extend(e: SlotExtender, rs: seq<SlotReport>, n: SlotNotifier)
    requires e.Valid() && e.raws == [] && forall i :: 0 <= i < |rs| ==> rs[i].point.mu == e.mu
    modifies e, n
    ensures e.Valid() && n.told == old(n.told) + Extends(e.mu, e.hyperFrames, rs)
  {
    hide Extends, RawsOf, Period;
    assert rs[..0] == [];
    NothingExtends(e.mu, e.hyperFrames);
    for k := 0 to |rs|
      invariant e.Valid() && e.raws == RawsOf(e.mu, rs[..k])
      invariant n.told == old(n.told) + Extends(e.mu, e.hyperFrames, rs[..k])
    {
      ExtendsSnoc(e.mu, e.hyperFrames, rs[..k], rs[k]);
      assert rs[..k + 1] == rs[..k] + [rs[k]];
      e.OnSlotIndication(rs[k], n);
    }
    assert rs[..|rs|] == rs;
  }

  lemma NothingExtends(mu: nat, hyperFrames: nat)
    requires hyperFrames > 0
    ensures Extends(mu, hyperFrames, []) == [] && RawsOf(mu, []) == []
  {
  }

  lemma CountFromPair(mu: nat, count: nat, t: nat)
    requires count < Period(mu) && Project(mu, count) == Sent(mu, t)
    ensures count % Period(mu) == count == t % Period(mu)
  {
    hide SlotsPerFrame;
    var n := SlotsPerFrame(mu);
    Split(n, count);
    Split(n, t);
    ModIs(count, Period(mu), 0, count);
  }

  lemma {:induction false} RawsOnCircle(c: Config, vs: seq<RxReports.Received>, times: seq<nat>)
    requires c.numerology <= MAX_NUMEROLOGY && OnWire(c, vs) == SentAt(c.numerology, times)
    ensures var mu := c.numerology;
            && (forall i :: 0 <= i < |Told(c, vs)| ==> Told(c, vs)[i].point.mu == mu)
            && RawsOf(mu, Told(c, vs)) == OnCircle(Period(mu), times)
  {
    hide Told, OnWire, FrameSlots, Period, Project, Sent;
    var mu, rs := c.numerology, Told(c, vs);
    ToldMatches(c, vs);
    forall i | 0 <= i < |rs| ensures rs[i].point.mu == mu && rs[i].point.count % Period(mu) == times[i] % Period(mu) {
      assert Matches(c, rs[i], OnWire(c, vs)[i]);
      SentFits(mu, times[i]);
      CountFromPair(mu, rs[i].point.count, times[i]);
    }
  }

  lemma SentFits(mu: nat, t: nat)
    requires mu <= MAX_NUMEROLOGY
    ensures Sent(mu, t).slot < FrameSlots(mu)
  {
    FrameSizes();
    FrameSlotSizes();
  }

  /** A run of the thread whose accepted SLOT.indications were sent at the absolute slots `times`, among any other
      messages: all keep the configured numerology, and the slots extended from what the notifier was told are the first
      slot plus the true elapsed slots at every step if and only if every gap is below half the period. */
  lemma RunTracksTimeline(w: Wiring, u: Upper, vs: seq<RxReports.Received>, times: seq<nat>)
    requires w.slot && w.cfg.numerology <= MAX_NUMEROLOGY && Advancing(times)
    requires OnWire(w.cfg, vs) == SentAt(w.cfg.numerology, times)
    ensures var mu, r := w.cfg.numerology, ApplyAll(w, u, vs).slots;
            && u.slots <= r
            && var told := r[|u.slots|..];
               && |told| == |times| && (forall i :: 0 <= i < |told| ==> told[i].point.mu == mu)
               && (Tracks(Period(mu), times, Extended(Period(mu), RawsOf(mu, told))) <==> Frequent(Period(mu), times))
  {
    hide Told, OnWire, Period, Extended, Tracks, Frequent, Advancing, ApplyAll, RawsOf, OnCircle;
    var mu := w.cfg.numerology;
    ToldInOrder(w, u, vs);
    ToldMatches(w.cfg, vs);
    assert ApplyAll(w, u, vs).slots[|u.slots|..] == Told(w.cfg, vs);
    RawsOnCircle(w.cfg, vs, times);
    PeriodIsEven(mu);
    TimelineTracked(Period(mu), times);
  }

  /** And what the extender then hands on carries, at every step, the time stamp of the message and the first slot plus the
      true elapsed slots, on the counter of all hyper frames; it projects to the SFN and slot on the wire, across every
      wrap of SFN and hyper frame. */
  lemma ExtendedProjects(w: Wiring, u: Upper, vs: seq<RxReports.Received>, times: seq<nat>, hyperFrames: nat, i: nat)
    requires w.slot && w.cfg.numerology <= MAX_NUMEROLOGY && Advancing(times) && Frequent(Period(w.cfg.numerology), times)
    requires OnWire(w.cfg, vs) == SentAt(w.cfg.numerology, times) && hyperFrames > 0 && i < |times|
    ensures var mu, r := w.cfg.numerology, ApplyAll(w, u, vs).slots;
            && u.slots <= r
            && var told := r[|u.slots|..];
               var out := Extends(mu, hyperFrames, told);
               && |out| == |told| == |times| && out[i].time == told[i].time && hyperFrames * Period(mu) > 0
               && out[i].point.count == (times[0] % Period(mu) + times[i] - times[0]) % (hyperFrames * Period(mu))
               && Project(mu, out[i].point.count) == OnWire(w.cfg, vs)[i]
  {
    hide Told, OnWire, Period, Extended, Frequent, Advancing, ApplyAll, RawsOf, OnCircle, Project, Wrapped, Sent;
    var mu := w.cfg.numerology;
    var p := Period(mu);
    RunTracksTimeline(w, u, vs, times);
    var told := ApplyAll(w, u, vs).slots[|u.slots|..];
    var xs := Extended(p, RawsOf(mu, told));
    TimesGrow(times, 0, i);
    PeriodIsEven(mu);
    SamePlace(p, times[0], times[i], xs[i]);
    ProjectOfCongruent(mu, times[i], xs[i]);
    SentProjects(mu, times[i]);
    WrappedProjects(mu, hyperFrames, xs[i]);
    WrappedIsMod(mu, hyperFrames, xs[i]);
  }
}
