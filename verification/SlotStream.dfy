/** SLOT.indication: numerology inference, and the extender that unrolls circular SFN/slot values into an ever
    growing slot counter. Frame structure as in 3GPP TS 38.211, sections 4.3.1 and 4.3.2. */
module SlotStream {
  import opened Wire

  const FRAMES: nat := 1024
  const MAX_NUMEROLOGY: nat := 4

  function SlotsPerFrame(mu: nat): (n: nat)
    ensures n > 0
  {
    if mu == 0 then 10 else 2 * SlotsPerFrame(mu - 1)
  }

  /** The number of slots after which SFN and slot start over. */
  function Period(mu: nat): (p: nat)
    ensures p > 0
  {
    FRAMES * SlotsPerFrame(mu)
  }

  /** A point on the circle of slots: SFN and slot as one count. */
  datatype Point = Point(mu: nat, count: nat)

  function PointOf(mu: nat, sfn: nat, slot: nat): Point
  {
    Point(mu, sfn * SlotsPerFrame(mu) + slot)
  }

  datatype SfnSlot = SfnSlot(sfn: nat, slot: nat)

  /** slot_to_sfn_slot, on any count of slots. */
  function Project(mu: nat, count: nat): SfnSlot
  {
    SfnSlot(count / SlotsPerFrame(mu) % FRAMES, count % SlotsPerFrame(mu))
  }

  lemma FrameSizes()
    ensures SlotsPerFrame(0) == 10 && SlotsPerFrame(1) == 20 && SlotsPerFrame(2) == 40 && SlotsPerFrame(3) == 80 && SlotsPerFrame(4) == 160
  {
  }

  // ---------------------------------------------------------------- arithmetic of the circle

  lemma MulGrows(p: nat, k: int)
    requires p > 0
    ensures k >= 1 ==> k * p >= p
    ensures k <= -1 ==> k * p + p <= 0
  {
    if k >= 1 {
      assert k * p == (k - 1) * p + p;
      assert (k - 1) * p >= 0;
    } else if k <= -1 {
      assert k * p == (k + 1) * p - p;
      assert (k + 1) * p <= 0;
    }
  }

  lemma {:induction false} ModIs(x: nat, p: nat, q: nat, r: nat)
    requires p > 0 && x == q * p + r && r < p
    ensures x % p == r && x / p == q
  {
    var k := x / p;
    assert x == k * p + x % p;
    assert (k - q) * p == k * p - q * p;
    MulGrows(p, k - q);
  }

  lemma Below(n: nat, m: nat, r: nat)
    requires m < FRAMES && r < n
    ensures m * n + r < FRAMES * n
  {
    Monotone(m + 1, FRAMES, n);
  }

  lemma Monotone(a: nat, b: nat, n: nat)
    requires a <= b
    ensures a * n <= b * n
  {
    assert b * n == a * n + (b - a) * n;
  }

  /** A count of slots splits into frames and slots, and the frames wrap at 1024. */
  lemma {:induction false} Split(n: nat, t: nat)
    requires n > 0
    ensures t % (FRAMES * n) == (t / n % FRAMES) * n + t % n
  {
    var q, r := t / n, t % n;
    var k, m := q / FRAMES, q % FRAMES;
    assert t == q * n + r;
    RegroupProduct(n, k, m);
    Below(n, m, r);
    ModIs(t, FRAMES * n, k, m * n + r);
  }

  lemma RegroupProduct(n: nat, k: nat, m: nat)
    ensures (k * FRAMES + m) * n == k * (FRAMES * n) + m * n
  {
  }

  lemma {:induction false} Joins(n: nat, sfn: nat, slot: nat)
    requires sfn < FRAMES && slot < n
    ensures (sfn * n + slot) / n == sfn && (sfn * n + slot) % n == slot && sfn * n + slot < FRAMES * n
  {
    ModIs(sfn * n + slot, n, sfn, slot);
    Below(n, sfn, slot);
  }

  // ================================================================ parsing

  const MESSAGE: nat := 12

  /** `10u * (1u << mu)`, in 32 bits. */
  function FrameSlots(mu: nat): (n: nat)
    ensures n <= SlotsPerFrame(mu)
  {
    SlotsPerFrame(mu) % 0x1_0000_0000
  }

  /** The inference loop: raise the numerology until a frame holds the slot, but not past 4. */
  function Infer(mu: nat, slot: nat): nat
    decreases MAX_NUMEROLOGY - mu
  {
    if slot >= FrameSlots(mu) && mu < MAX_NUMEROLOGY then Infer(mu + 1, slot) else mu
  }

  function Parse(s: seq<Byte>, mu: nat): Option<Point>
  {
    if |s| < MESSAGE || U16At(s, 8) > 1023 then None
    else
      var slot := U16At(s, 10);
      var effective := Infer(mu, slot);
      if slot >= FrameSlots(effective) then None else Some(PointOf(effective, U16At(s, 8), slot))
  }

  /** deserialize_slot_indication. */
  method Deserialize(buf: array<Byte>, bufLen: nat, mu: nat) returns (r: Option<Point>)
    requires bufLen <= buf.Length
    ensures r == Parse(buf[..bufLen], mu)
  {
    if bufLen < MESSAGE {
      return None;
    }
    var head := buf[..MESSAGE];
    assert head == buf[..bufLen][..MESSAGE];
    var sfn, slot := U16At(head, 8), U16At(head, 10);
    assert sfn == U16At(buf[..bufLen], 8) && slot == U16At(buf[..bufLen], 10);
    if sfn > 1023 {
      return None;
    }
    var effective := mu;
    var nofSlots := FrameSlots(effective);
    while slot >= nofSlots && effective < MAX_NUMEROLOGY
      invariant nofSlots == FrameSlots(effective) && Infer(effective, slot) == Infer(mu, slot)
      decreases MAX_NUMEROLOGY - effective
    {
      effective := effective + 1;
      nofSlots := FrameSlots(effective);
    }
    if slot >= nofSlots {
      return None;
    }
    r := Some(PointOf(effective, sfn, slot));
  }

  lemma FrameSlotSizes()
    ensures FrameSlots(0) == 10 && FrameSlots(1) == 20 && FrameSlots(2) == 40 && FrameSlots(3) == 80 && FrameSlots(4) == 160
  {
    FrameSizes();
  }

  /** The numerology whose frame a message must fit at the most: 4, or the configured one when that is higher. */
  function Highest(mu: nat): nat
  {
    if mu <= MAX_NUMEROLOGY then MAX_NUMEROLOGY else mu
  }

  lemma {:induction false} InferIsLeast(mu: nat, slot: nat)
    ensures mu <= Infer(mu, slot) <= Highest(mu)
    ensures forall k :: mu <= k < Infer(mu, slot) ==> slot >= FrameSlots(k)
    ensures slot < FrameSlots(Infer(mu, slot)) <==> slot < FrameSlots(Highest(mu))
    decreases MAX_NUMEROLOGY - mu
  {
    hide FrameSlots;
    FrameSlotSizes();
    if slot >= FrameSlots(mu) && mu < MAX_NUMEROLOGY {
      InferIsLeast(mu + 1, slot);
    }
  }

  lemma {:induction false} PointProjects(mu: nat, sfn: nat, slot: nat)
    requires sfn < FRAMES && slot < SlotsPerFrame(mu)
    ensures Project(mu, PointOf(mu, sfn, slot).count) == SfnSlot(sfn, slot) && PointOf(mu, sfn, slot).count < Period(mu)
  {
    Joins(SlotsPerFrame(mu), sfn, slot);
  }

  /** A message is accepted exactly when it is long enough, its SFN is at most 1023 and its slot fits a frame of
      numerology 4 (160 slots), or of the configured one when that is higher; it then gets the least numerology, from the
      configured one on, whose frame holds the slot, and projects back to what was received. */
  lemma {:induction false} Acceptance(s: seq<Byte>, mu: nat)
    ensures Parse(s, mu).Some? <==> |s| >= MESSAGE && U16At(s, 8) <= 1023 && U16At(s, 10) < FrameSlots(Highest(mu))
    ensures mu <= MAX_NUMEROLOGY ==> FrameSlots(Highest(mu)) == 160
    ensures Parse(s, mu).Some? ==>
              var p := Parse(s, mu).value;
              && mu <= p.mu <= Highest(mu) && U16At(s, 10) < FrameSlots(p.mu)
              && (forall k :: mu <= k < p.mu ==> U16At(s, 10) >= FrameSlots(k))
              && p.count < Period(p.mu) && Project(p.mu, p.count) == SfnSlot(U16At(s, 8), U16At(s, 10))
  {
    hide FrameSlots, Infer, Period, Project, PointOf, SlotsPerFrame;
    FrameSlotSizes();
    if |s| >= MESSAGE {
      var slot := U16At(s, 10);
      InferIsLeast(mu, slot);
      if Parse(s, mu).Some? {
        PointProjects(Infer(mu, slot), U16At(s, 8), slot);
        PointNumerology(Infer(mu, slot), U16At(s, 8), slot);
      }
    }
  }

  lemma PointNumerology(mu: nat, sfn: nat, slot: nat)
    ensures PointOf(mu, sfn, slot).mu == mu
  {
  }

  /** An accepted message keeps the configured numerology exactly when its slot fits a frame of it. */
  lemma NumerologyKept(s: seq<Byte>, mu: nat)
    requires Parse(s, mu).Some?
    ensures Parse(s, mu).value.mu == mu <==> U16At(s, 10) < FrameSlots(mu)
  {
    hide Parse, FrameSlots;
    Acceptance(s, mu);
  }

  // ================================================================ the extender

  /** slot_point subtraction: the signed distance on a circle of `p` slots, from -p/2 up to but not including p/2. */
  function CircularDifference(p: nat, a: nat, b: nat): int
  {
    var d := a - b;
    if d >= p / 2 then d - p else if d < -(p / 2) then d + p else d
  }

  /** What one indication adds: non-positive distances count as one slot. */
  function Advance(p: nat, last: nat, raw: nat): (d: nat)
    ensures d >= 1
  {
    var delta := CircularDifference(p, raw, last);
    if delta <= 0 then 1 else delta
  }

  predicate Clamped(p: nat, last: nat, raw: nat)
  {
    CircularDifference(p, raw, last) <= 0
  }

  /** A slot indication: the slot and the time stamp that goes with it. */
  datatype SlotReport = SlotReport(point: Point, time: int)

  /** A receiver of slot indications, as the log of what it was told. */
  class SlotNotifier {
    var told: seq<SlotReport>

    constructor ()
      ensures told == []
    {
      told := [];
    }
  }

  /** slot_point_extender_adaptor, at one numerology. `hyperFrames` is the number of SFN periods after which an extended
      slot starts over. */
  class SlotExtender {
    const mu: nat
    const hyperFrames: nat
    var lastSlot: Option<nat>
    var lastExtended: Option<nat>
    ghost var raws: seq<nat>

    ghost predicate Valid()
      reads this
    {
      && hyperFrames > 0
      && (forall i :: 0 <= i < |raws| ==> raws[i] < Period(mu))
      && (raws == [] ==> lastSlot == None && lastExtended == None)
      && (raws != [] ==> lastSlot == Some(raws[|raws| - 1]) && lastExtended == Some(Wrapped(mu, hyperFrames, Last(Extended(Period(mu), raws)))))
    }

    constructor (mu: nat, hyperFrames: nat)
      requires hyperFrames > 0
      ensures Valid() && this.mu == mu && this.hyperFrames == hyperFrames && raws == []
    {
      this.mu, this.hyperFrames := mu, hyperFrames;
      lastSlot, lastExtended := None, None;
      raws := [];
    }

    /** on_slot_indication: drops what hyper frames the message carries, extends, and hands on with the time stamp. What is
        handed on is the slot handed on before plus max(1, delta), on the counter of `hyperFrames` periods. */
    method OnSlotIndication(msg: SlotReport, n: SlotNotifier)
      requires Valid() && msg.point.mu == mu
      modifies this, n
      ensures Valid() && raws == old(raws) + [msg.point.count % Period(mu)]
      ensures n.told == old(n.told) + [SlotReport(Point(mu, Wrapped(mu, hyperFrames, Last(Extended(Period(mu), raws)))), msg.time)]
      ensures var raw, out := msg.point.count % Period(mu), n.told[|n.told| - 1].point.count;
              && lastSlot == Some(raw) && lastExtended == Some(out)
              && (old(raws) == [] ==> out == raw)
              && (old(raws) != [] ==>
                    && old(lastSlot).Some? && old(lastExtended).Some?
                    && var delta := CircularDifference(Period(mu), raw, old(lastSlot).value);
                       out == (old(lastExtended).value + if delta > 1 then delta else 1) % (hyperFrames * Period(mu)))
    {
      hide Period, CircularDifference, Wrapped, Extended;
      Turn(mu, hyperFrames);
      var raw := msg.point.count % Period(mu);
      ExtendedSnoc(Period(mu), raws, raw);
      if lastSlot == None || lastExtended == None {
        SmallWraps(mu, hyperFrames, raw);
        lastSlot := Some(raw);
        lastExtended := Some(raw);
      } else {
        var delta := CircularDifference(Period(mu), raw, lastSlot.value);
        if delta <= 0 {
          delta := 1;
        }
        WrapsAdd(mu, hyperFrames, Last(Extended(Period(mu), raws)), delta);
        WrappedIsMod(mu, hyperFrames, lastExtended.value + delta);
        lastSlot := Some(raw);
        lastExtended := Some(Wrapped(mu, hyperFrames, lastExtended.value + delta));
      }
      raws := raws + [raw];
      n.told := n.told + [SlotReport(Point(mu, lastExtended.value), msg.time)];
    }
  }

  /** An unbounded count of slots, as an extended slot holds it. */
  function Wrapped(mu: nat, hyperFrames: nat, x: nat): nat
    requires hyperFrames > 0
  {
    if x < hyperFrames * Period(mu) then x else Wrapped(mu, hyperFrames, x - hyperFrames * Period(mu))
  }

  lemma Turn(mu: nat, hyperFrames: nat)
    requires hyperFrames > 0
    ensures hyperFrames * Period(mu) >= Period(mu)
  {
    Monotone(1, hyperFrames, Period(mu));
  }

  lemma SmallWraps(mu: nat, hyperFrames: nat, x: nat)
    requires hyperFrames > 0 && x < Period(mu)
    ensures Wrapped(mu, hyperFrames, x) == x
  {
    Turn(mu, hyperFrames);
  }

  lemma {:induction false} WrapsAdd(mu: nat, hyperFrames: nat, x: nat, d: nat)
    requires hyperFrames > 0
    ensures Wrapped(mu, hyperFrames, Wrapped(mu, hyperFrames, x) + d) == Wrapped(mu, hyperFrames, x + d)
    decreases x
  {
    hide Period;
    var h := hyperFrames * Period(mu);
    Turn(mu, hyperFrames);
    if x >= h {
      WrapsAdd(mu, hyperFrames, x - h, d);
    }
  }

  lemma {:induction false} WrappedIsMod(mu: nat, hyperFrames: nat, x: nat)
    requires hyperFrames > 0
    ensures hyperFrames * Period(mu) > 0 && Wrapped(mu, hyperFrames, x) == x % (hyperFrames * Period(mu))
    decreases x
  {
    hide Period;
    var h := hyperFrames * Period(mu);
    Turn(mu, hyperFrames);
    if x < h {
      ModIs(x, h, 0, x);
    } else {
      WrappedIsMod(mu, hyperFrames, x - h);
      SamePlaceTurns(h, x - h, 1);
    }
  }

  /** Starting over after whole SFN periods leaves SFN and slot alone. */
  lemma {:induction false} WrappedProjects(mu: nat, hyperFrames: nat, x: nat)
    requires hyperFrames > 0
    ensures Project(mu, Wrapped(mu, hyperFrames, x)) == Project(mu, x)
    decreases x
  {
    hide Period, Project;
    var h := hyperFrames * Period(mu);
    Turn(mu, hyperFrames);
    if x >= h {
      WrappedProjects(mu, hyperFrames, x - h);
      SamePlaceTurns(Period(mu), x - h, hyperFrames);
      ProjectOfCongruent(mu, x, x - h);
    }
  }

  lemma SamePlaceTurns(p: nat, x: nat, k: nat)
    requires p > 0
    ensures (x + k * p) % p == x % p
  {
    var q := x / p;
    assert x == q * p + x % p;
    assert (q + k) * p == q * p + k * p;
    ModIs(x + k * p, p, q + k, x % p);
  }

  // ---------------------------------------------------------------- whole runs

  function Last(s: seq<nat>): nat
    requires s != []
  {
    s[|s| - 1]
  }

  /** The extended slots of a run of raw slots. */
  function Extended(p: nat, raws: seq<nat>): (xs: seq<nat>)
    ensures |xs| == |raws|
  {
    if raws == [] then []
    else if |raws| == 1 then raws
    else
      var init := raws[..|raws| - 1];
      var xs := Extended(p, init);
      xs + [Last(xs) + Advance(p, Last(init), Last(raws))]
  }

  lemma ExtendedSnoc(p: nat, raws: seq<nat>, raw: nat)
    ensures Extended(p, raws + [raw]) ==
            Extended(p, raws) + [if raws == [] then raw else Last(Extended(p, raws)) + Advance(p, Last(raws), raw)]
  {
    var all := raws + [raw];
    assert all[..|all| - 1] == raws;
  }

  /** Every element of a run is the one before it plus the advance between the raw slots. */
  lemma {:induction false} ExtendedSteps(p: nat, raws: seq<nat>, i: nat)
    requires i + 1 < |raws|
    ensures Extended(p, raws)[0] == raws[0]
    ensures Extended(p, raws)[i + 1] == Extended(p, raws)[i] + Advance(p, raws[i], raws[i + 1])
  {
    var init := raws[..|raws| - 1];
    if i + 2 < |raws| {
      ExtendedSteps(p, init, i);
    } else if i > 0 {
      ExtendedSteps(p, init, 0);
    }
  }

  /** The output strictly increases over the whole run. */
  lemma {:induction false} StrictlyIncreasing(p: nat, raws: seq<nat>, i: nat, j: nat)
    requires i < j < |raws|
    ensures Extended(p, raws)[i] < Extended(p, raws)[j]
    decreases j
  {
    ExtendedSteps(p, raws, j - 1);
    if i < j - 1 {
      StrictlyIncreasing(p, raws, i, j - 1);
    }
  }

  /** The sum of max(1, delta) over a run. */
  function TotalAdvance(p: nat, raws: seq<nat>): nat
  {
    if |raws| < 2 then 0
    else
      var init := raws[..|raws| - 1];
      var delta := CircularDifference(p, Last(raws), Last(init));
      TotalAdvance(p, init) + if delta > 1 then delta else 1
  }

  /** The sum of 1 - delta over the clamped steps of a run. */
  function Drift(p: nat, raws: seq<nat>): nat
  {
    if |raws| < 2 then 0
    else
      var init := raws[..|raws| - 1];
      var delta := CircularDifference(p, Last(raws), Last(init));
      Drift(p, init) + if delta <= 0 then 1 - delta else 0
  }

  lemma {:induction false} RunAdvances(p: nat, raws: seq<nat>)
    requires raws != []
    ensures Last(Extended(p, raws)) == raws[0] + TotalAdvance(p, raws)
  {
    if |raws| > 1 {
      RunAdvances(p, raws[..|raws| - 1]);
    }
  }

  /** `k` turns apart. */
  predicate Turns(p: nat, a: int, b: int, k: int)
  {
    a - b == k * p
  }

  /** The same place on a circle of `p` slots. */
  ghost predicate Congruent(p: nat, a: int, b: int)
  {
    exists k: int :: Turns(p, a, b, k)
  }

  lemma CongruentBy(p: nat, a: int, b: int, k: int)
    requires a - b == k * p
    ensures Congruent(p, a, b)
  {
    assert Turns(p, a, b, k);
  }

  lemma CircularCongruent(p: nat, a: nat, b: nat)
    ensures Congruent(p, b + CircularDifference(p, a, b), a)
  {
    var d := CircularDifference(p, a, b);
    var k := if d == a - b then 0 else if d < a - b then -1 else 1;
    CongruentBy(p, b + d, a, k);
  }

  lemma CongruentAdd(p: nat, a: int, b: int, c: int, d: int)
    requires Congruent(p, a, b) && Congruent(p, c, d)
    ensures Congruent(p, a + c, b + d)
  {
    var j :| Turns(p, a, b, j);
    var k :| Turns(p, c, d, k);
    assert (j + k) * p == j * p + k * p;
    CongruentBy(p, a + c, b + d, j + k);
  }

  lemma CongruentShift(p: nat, a: int, b: int, c: int, d: int)
    requires Congruent(p, a, b) && a - b == c - d
    ensures Congruent(p, c, d)
  {
    var k :| Turns(p, a, b, k);
    assert Turns(p, c, d, k);
  }

  /** The extended slot differs from the raw one, on the circle, by exactly the accumulated drift. */
  lemma {:induction false} ExactDrift(p: nat, raws: seq<nat>)
    requires raws != []
    ensures Congruent(p, Last(Extended(p, raws)), Last(raws) + Drift(p, raws))
  {
    if |raws| == 1 {
      CongruentBy(p, raws[0], raws[0], 0);
    } else {
      var init := raws[..|raws| - 1];
      var x, last, raw := Last(Extended(p, init)), Last(init), Last(raws);
      var delta := CircularDifference(p, raw, last);
      ExactDrift(p, init);
      CircularCongruent(p, raw, last);
      CongruentAdd(p, x, last + Drift(p, init), last + delta, raw);
      CongruentShift(p, x + (last + delta), last + Drift(p, init) + raw, Last(Extended(p, raws)), raw + Drift(p, raws));
    }
  }

  predicate ClampedAt(p: nat, raws: seq<nat>, i: nat)
    requires i + 1 < |raws|
  {
    Clamped(p, raws[i], raws[i + 1])
  }

  predicate NoneClamped(p: nat, raws: seq<nat>)
  {
    forall i :: 0 <= i < |raws| - 1 ==> !ClampedAt(p, raws, i)
  }

  /** Up to the k-th indication, the extended slots project to the raw ones. */
  ghost predicate Faithful(p: nat, raws: seq<nat>)
  {
    forall i :: 0 <= i < |raws| ==> Congruent(p, Extended(p, raws)[i], raws[i])
  }

  /** A step from a faithful slot stays faithful exactly when it is not clamped. */
  lemma StepFaithful(p: nat, x: nat, last: nat, raw: nat)
    requires p > 2 && p % 2 == 0 && last < p && raw < p && Congruent(p, x, last)
    ensures Congruent(p, x + Advance(p, last, raw), raw) <==> !Clamped(p, last, raw)
  {
    var delta := CircularDifference(p, raw, last);
    CircularCongruent(p, raw, last);
    CongruentAdd(p, x, last, last + delta, raw);
    CongruentShift(p, x + (last + delta), last + raw, x + delta, raw);
    if delta <= 0 {
      ClampedLeaves(p, x, delta, raw);
    }
  }

  lemma {:induction false} ClampedLeaves(p: nat, x: nat, delta: int, raw: nat)
    requires p > 2 && -(p / 2) <= delta <= 0 && Congruent(p, x + delta, raw)
    ensures !Congruent(p, x + 1, raw)
  {
    var k :| Turns(p, x + delta, raw, k);
    if Congruent(p, x + 1, raw) {
      var m :| Turns(p, x + 1, raw, m);
      assert (m - k) * p == m * p - k * p;
      MulGrows(p, m - k);
    }
  }

  lemma {:induction false} PrefixExtended(p: nat, raws: seq<nat>, k: nat)
    requires k <= |raws|
    ensures Extended(p, raws[..k]) == Extended(p, raws)[..k]
  {
    if k < |raws| {
      var init := raws[..|raws| - 1];
      PrefixExtended(p, init, k);
      assert init[..k] == raws[..k];
      if |raws| > 1 {
        assert Extended(p, raws)[..k] == Extended(p, init)[..k];
      }
    } else {
      assert raws[..k] == raws;
    }
  }

  /** The extended stream projects to the received SFN and slot at every step if and only if no step was clamped. */
  lemma {:induction false} FaithfulExactly(p: nat, raws: seq<nat>)
    requires p > 2 && p % 2 == 0 && forall i :: 0 <= i < |raws| ==> raws[i] < p
    ensures Faithful(p, raws) <==> NoneClamped(p, raws)
  {
    if |raws| == 1 {
      CongruentBy(p, raws[0], raws[0], 0);
    } else if |raws| > 1 {
      var n := |raws| - 1;
      var init := raws[..n];
      FaithfulExactly(p, init);
      PrefixExtended(p, raws, n);
      var xs := Extended(p, raws);
      assert xs == xs[..n] + [xs[n]];
      FaithfulSnoc(p, raws);
      if Faithful(p, init) {
        assert Congruent(p, Extended(p, init)[n - 1], init[n - 1]);
        StepFaithful(p, xs[n - 1], raws[n - 1], raws[n]);
      }
      assert NoneClamped(p, raws) <==> NoneClamped(p, init) && !ClampedAt(p, raws, n - 1) by {
        assert forall i :: 0 <= i < n - 1 ==> ClampedAt(p, init, i) == ClampedAt(p, raws, i);
      }
    }
  }

  lemma FaithfulSnoc(p: nat, raws: seq<nat>)
    requires |raws| > 1
    ensures var n := |raws| - 1;
            Faithful(p, raws) <==> Faithful(p, raws[..n]) && Congruent(p, Extended(p, raws)[n], raws[n])
  {
    hide Extended, Congruent;
    var n := |raws| - 1;
    PrefixExtended(p, raws, n);
    var xs := Extended(p, raws);
    assert forall i :: 0 <= i < n ==> Extended(p, raws[..n])[i] == xs[i] && raws[..n][i] == raws[i];
  }

  // ================================================================ the real timeline

  function Gap(times: seq<nat>, i: nat): int
    requires i + 1 < |times|
  {
    times[i + 1] as int - times[i] as int
  }

  /** Absolute slot times at which indications are sent. */
  predicate Advancing(times: seq<nat>)
  {
    forall i :: 0 <= i < |times| - 1 ==> 0 < Gap(times, i)
  }

  /** Every gap is less than half the period. */
  predicate Frequent(p: nat, times: seq<nat>)
  {
    forall i :: 0 <= i < |times| - 1 ==> Gap(times, i) < p / 2
  }

  function OnCircle(p: nat, times: seq<nat>): (raws: seq<nat>)
    requires p > 0
    ensures |raws| == |times| && forall i :: 0 <= i < |times| ==> raws[i] == times[i] % p < p
  {
    seq(|times|, i requires 0 <= i < |times| => times[i] % p)
  }

  /** The first slot plus the slots truly elapsed since. */
  predicate Tracks(p: nat, times: seq<nat>, xs: seq<nat>)
    requires p > 0 && |xs| == |times|
  {
    forall i :: 0 <= i < |times| ==> xs[i] == times[0] % p + times[i] - times[0]
  }

  /** One advance equals the true gap exactly when the gap is below half the period. */
  lemma {:induction false} GapMeasured(p: nat, t: nat, u: nat)
    requires p > 2 && p % 2 == 0 && t < u
    ensures Advance(p, t % p, u % p) == u - t <==> u - t < p / 2
  {
    var d := u - t;
    var delta := CircularDifference(p, u % p, t % p);
    CircularRange(p, u % p, t % p);
    if d < p / 2 {
      CircularOfGap(p, t, d);
    }
  }

  lemma CircularRange(p: nat, a: nat, b: nat)
    requires p % 2 == 0 && a < p && b < p
    ensures -(p / 2) <= CircularDifference(p, a, b) < p / 2
  {
  }

  lemma {:induction false} CircularOfGap(p: nat, t: nat, d: nat)
    requires p > 2 && p % 2 == 0 && d < p / 2
    ensures CircularDifference(p, (t + d) % p, t % p) == d
  {
    GapMod(p, t, d);
  }

  /** Moving on by less than a turn either stays in the turn or enters the next one. */
  lemma {:induction false} GapMod(p: nat, t: nat, d: nat)
    requires d < p
    ensures (t + d) % p == if t % p + d < p then t % p + d else t % p + d - p
  {
    var r, q := t % p, t / p;
    assert t == q * p + r;
    if r + d < p {
      ModIs(t + d, p, q, r + d);
    } else {
      assert (q + 1) * p == q * p + p;
      ModIs(t + d, p, q + 1, r + d - p);
    }
  }

  /** For a stream that moves forward, the extended slots are the first slot plus the true elapsed slots, at every step,
      if and only if every gap is below half the period. */
  lemma {:induction false} TimelineTracked(p: nat, times: seq<nat>)
    requires p > 2 && p % 2 == 0 && Advancing(times)
    ensures Tracks(p, times, Extended(p, OnCircle(p, times))) <==> Frequent(p, times)
  {
    if |times| > 1 {
      var n := |times| - 1;
      var init := times[..n];
      GapsSnoc(p, times);
      TimelineTracked(p, init);
      var raws, xs := OnCircle(p, times), Extended(p, OnCircle(p, times));
      assert OnCircle(p, init) == raws[..n];
      PrefixExtended(p, raws, n);
      ExtendedSteps(p, raws, n - 1);
      GapMeasured(p, times[n - 1], times[n]);
      assert Advance(p, raws[n - 1], raws[n]) == times[n] - times[n - 1] <==> times[n] - times[n - 1] < p / 2;
      TracksSnoc(p, times, xs);
    }
  }

  lemma TracksSnoc(p: nat, times: seq<nat>, xs: seq<nat>)
    requires p > 0 && |xs| == |times| > 1
    ensures var n := |times| - 1;
            Tracks(p, times, xs) <==> Tracks(p, times[..n], xs[..n]) && xs[n] == times[0] % p + times[n] - times[0]
  {
    var n := |times| - 1;
    assert forall i :: 0 <= i < n ==> xs[..n][i] == xs[i] && times[..n][i] == times[i];
  }

  lemma GapsSnoc(p: nat, times: seq<nat>)
    requires |times| > 1
    ensures var n := |times| - 1;
            && (Frequent(p, times) <==> Frequent(p, times[..n]) && Gap(times, n - 1) < p / 2)
            && (Advancing(times) <==> Advancing(times[..n]) && Gap(times, n - 1) > 0)
  {
    var n := |times| - 1;
    assert forall i :: 0 <= i < n - 1 ==> Gap(times[..n], i) == Gap(times, i);
  }

  // ---------------------------------------------------------------- from bytes to the timeline

  /** The SFN and slot on the wire at absolute slot `t`. */
  function Sent(mu: nat, t: nat): SfnSlot
  {
    SfnSlot(t / SlotsPerFrame(mu) % FRAMES, t % SlotsPerFrame(mu))
  }

  /** The SLOT.indication that L1 sends at absolute slot `t`. */
  function SlotMessage(envelope: seq<Byte>, mu: nat, t: nat): (s: seq<Byte>)
    requires |envelope| == 8 && mu <= MAX_NUMEROLOGY
    ensures |s| == MESSAGE && U16At(s, 8) == Sent(mu, t).sfn && U16At(s, 10) == Sent(mu, t).slot
  {
    FrameSizes();
    var x := Sent(mu, t);
    MessageFields(envelope, x.sfn, x.slot);
    envelope + Le16(x.sfn) + Le16(x.slot)
  }

  lemma MessageFields(envelope: seq<Byte>, sfn: U16, slot: U16)
    requires |envelope| == 8
    ensures var s := envelope + Le16(sfn) + Le16(slot); U16At(s, 8) == sfn && U16At(s, 10) == slot
  {
    U16Back(envelope, sfn, Le16(slot));
    U16Back(envelope + Le16(sfn), slot, []);
    assert envelope + Le16(sfn) + Le16(slot) + [] == envelope + Le16(sfn) + Le16(slot);
  }

  lemma {:induction false} SlotMessageParsed(envelope: seq<Byte>, mu: nat, t: nat)
    requires |envelope| == 8 && mu <= MAX_NUMEROLOGY
    ensures Parse(SlotMessage(envelope, mu, t), mu) == Some(Point(mu, t % Period(mu)))
  {
    hide SlotMessage;
    FrameSizes();
    assert FrameSlots(mu) == SlotsPerFrame(mu);
    assert Infer(mu, Sent(mu, t).slot) == mu;
    CountOfTime(mu, t);
  }

  lemma {:induction false} CountOfTime(mu: nat, t: nat)
    ensures PointOf(mu, t / SlotsPerFrame(mu) % FRAMES, t % SlotsPerFrame(mu)).count == t % Period(mu)
  {
    Split(SlotsPerFrame(mu), t);
  }

  /** The same place on the circle has the same SFN and slot. */
  lemma {:induction false} ProjectOfCongruent(mu: nat, t: nat, x: nat)
    requires x % Period(mu) == t % Period(mu)
    ensures Project(mu, x) == Project(mu, t)
  {
    hide SlotsPerFrame;
    var n := SlotsPerFrame(mu);
    Split(n, t);
    Split(n, x);
    Joins(n, t / n % FRAMES, t % n);
    Joins(n, x / n % FRAMES, x % n);
  }

  lemma SentProjects(mu: nat, t: nat)
    ensures Project(mu, t) == Sent(mu, t)
  {
  }

  /** A stream with a gap of exactly half a period: at numerology 1 the second of two indications 10240 slots apart is
      taken for a step back, and the output is off by 10239 slots. */
  lemma HalfPeriodLost()
    ensures var p := Period(1);
            var xs := Extended(p, OnCircle(p, [0, 10240]));
            p == 20480 && Advancing([0, 10240]) && !Frequent(p, [0, 10240]) && xs == [0, 1] && !Tracks(p, [0, 10240], xs)
            && !Faithful(p, OnCircle(p, [0, 10240]))
  {
    FrameSizes();
    var p, times := Period(1), [0, 10240];
    var raws := OnCircle(p, times);
    assert raws == [0, 10240] && raws[..1] == [0];
    assert Gap(times, 0) == 10240;
    assert Extended(p, raws) == [0, 1];
    assert ClampedAt(p, raws, 0);
    FaithfulExactly(p, raws);
  }

  /** The received counts of a stream of messages. */
  function Counts(envelope: seq<Byte>, mu: nat, times: seq<nat>): (raws: seq<nat>)
    requires |envelope| == 8 && mu <= MAX_NUMEROLOGY
    ensures |raws| == |times|
  {
    seq(|times|, i requires 0 <= i < |times| =>
      match Parse(SlotMessage(envelope, mu, times[i]), mu) case None => 0 case Some(p) => p.count)
  }

  /** Parse every message of an arbitrarily long L1 stream at the configured numerology, extend, and the result is the
      first slot plus the true elapsed slots, across every SFN wrap; each extended slot projects to the received pair. */
  lemma {:induction false} StreamTracksTimeline(envelope: seq<Byte>, mu: nat, times: seq<nat>)
    requires |envelope| == 8 && mu <= MAX_NUMEROLOGY && Advancing(times) && Frequent(Period(mu), times)
    ensures var xs := Extended(Period(mu), Counts(envelope, mu, times));
            forall i :: 0 <= i < |times| ==>
              && xs[i] == times[0] % Period(mu) + times[i] - times[0]
              && Project(mu, xs[i]) == Sent(mu, times[i])
  {
    hide Extended, SlotsPerFrame, Parse, SlotMessage, Advancing, Frequent, Project, Sent;
    var p := Period(mu);
    PeriodIsEven(mu);
    forall i | 0 <= i < |times| ensures Counts(envelope, mu, times)[i] == OnCircle(p, times)[i] {
      SlotMessageParsed(envelope, mu, times[i]);
    }
    assert Counts(envelope, mu, times) == OnCircle(p, times);
    TimelineTracked(p, times);
    var xs := Extended(p, OnCircle(p, times));
    forall i | 0 <= i < |times| ensures Project(mu, xs[i]) == Sent(mu, times[i]) {
      TimesGrow(times, 0, i);
      SamePlace(p, times[0], times[i], xs[i]);
      ProjectOfCongruent(mu, times[i], xs[i]);
      SentProjects(mu, times[i]);
    }
  }

  lemma PeriodIsEven(mu: nat)
    ensures Period(mu) > 2 && Period(mu) % 2 == 0
  {
    assert Period(mu) == 2 * (512 * SlotsPerFrame(mu));
  }

  lemma {:induction false} TimesGrow(times: seq<nat>, i: nat, j: nat)
    requires i <= j < |times| && Advancing(times)
    ensures times[i] <= times[j]
    decreases j
  {
    if i < j {
      TimesGrow(times, i, j - 1);
      assert Gap(times, j - 1) > 0;
    }
  }

  lemma {:induction false} SamePlace(p: nat, t0: nat, t: nat, x: nat)
    requires p > 0 && t0 <= t && x == t0 % p + t - t0
    ensures x % p == t % p
  {
    var k := t0 / p;
    assert t0 == k * p + t0 % p;
    SamePlaceTurns(p, x, k);
  }
}
