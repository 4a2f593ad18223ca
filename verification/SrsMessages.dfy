/** SRS.indication (SCF 222, section 3.4.10): the reports inside a PDU are skipped, only its head is handed over. */
module SrsMessages {
  import opened Wire
  import opened Reports
  import UciIndication

  const MESSAGE_HEAD: nat := 13
  const PDU_HEAD: nat := 11
  const REPORT_HEAD: nat := 2

  // ---------------------------------------------------------------- what a message says

  /** What follows `n` symbol reports; nothing, once one of them runs past the end of the buffer. */
  function Skip(s: seq<Byte>, n: nat): seq<Byte>
    decreases n
  {
    if n == 0 then s
    else if |s| < REPORT_HEAD || REPORT_HEAD + U16At(s, 0) > |s| then []
    else Skip(s[REPORT_HEAD + U16At(s, 0)..], n - 1)
  }

  function First(slot: SlotPoint, s: seq<Byte>): SrsIndication
    requires PDU_HEAD <= |s|
  {
    SrsIndication(slot, U32At(s, 0), U16At(s, 4), UciIndication.TimingAdvanceOf(U16At(s, 6)))
  }

  function Walk(slot: SlotPoint, s: seq<Byte>, n: nat): seq<SrsIndication>
    decreases n
  {
    if n == 0 || |s| < PDU_HEAD then []
    else [First(slot, s)] + Walk(slot, Skip(s[PDU_HEAD..], s[10]), n - 1)
  }

  function Notifications(s: seq<Byte>, numerology: nat): seq<SrsIndication>
  {
    if |s| < MESSAGE_HEAD then []
    else Walk(SlotPoint(numerology, U16At(s, 8), U16At(s, 10)), s[MESSAGE_HEAD..], s[12])
  }

  // ---------------------------------------------------------------- the dispatcher

  lemma SkipStep(s: seq<Byte>, p: nat, n: nat)
    requires p <= |s| && 0 < n
    ensures if p + REPORT_HEAD <= |s| && p + REPORT_HEAD + U16At(s, p) <= |s|
            then Skip(s[p..], n) == Skip(s[p + REPORT_HEAD + U16At(s, p)..], n - 1)
            else Skip(s[p..], n) == []
  {
    if p + REPORT_HEAD <= |s| && p + REPORT_HEAD + U16At(s, p) <= |s| {
      var e := REPORT_HEAD + U16At(s, p);
      assert s[p..][e..] == s[p + e..];
    }
  }

  /** The inner loop: hops over the symbol reports, or to the end of the buffer when one does not fit. */
  method SkipReports(buf: array<Byte>, bufLen: nat, p: nat, n: nat) returns (next: nat)
    requires p <= bufLen <= buf.Length
    ensures p <= next <= bufLen && buf[..bufLen][next..] == Skip(buf[..bufLen][p..], n)
  {
    hide Skip;
    ghost var s := buf[..bufLen];
    next := p;
    var k := 0;
    while k != n
      invariant 0 <= k <= n && p <= next <= bufLen
      invariant Skip(s[next..], n - k) == Skip(s[p..], n)
      decreases n - k
    {
      SkipStep(s, next, n - k);
      assert s[bufLen..] == [];
      if next + REPORT_HEAD > bufLen {
        return bufLen;
      }
      var e := next + REPORT_HEAD + buf[next] as int + 0x100 * (buf[next + 1] as int);
      assert e == next + REPORT_HEAD + U16At(s, next);
      if e > bufLen {
        return bufLen;
      }
      next, k := e, k + 1;
    }
    SkipNone(s[next..]);
  }

  lemma SkipNone(s: seq<Byte>)
    ensures Skip(s, 0) == s
  {
  }

  lemma Start(c: Counters, all: seq<SrsIndication>)
    ensures [] + all == all && CountSrs(c, 0) == c
  {
  }

  lemma WalkStep(slot: SlotPoint, s: seq<Byte>, p: nat, e: nat, n: nat, done: seq<SrsIndication>, all: seq<SrsIndication>)
    requires p + PDU_HEAD <= |s| && e <= |s| && 0 < n && done + Walk(slot, s[p..], n) == all
    requires s[e..] == Skip(s[p + PDU_HEAD..], s[p + 10])
    ensures done + [First(slot, s[p..])] + Walk(slot, s[e..], n - 1) == all
  {
    hide First, Skip;
    assert s[p..][PDU_HEAD..] == s[p + PDU_HEAD..];
  }

  lemma End(slot: SlotPoint, s: seq<Byte>, n: nat, done: seq<SrsIndication>)
    requires n == 0 || |s| < PDU_HEAD
    ensures done + Walk(slot, s, n) == done
  {
  }

  method Report(n: Notifier, m: Metrics, r: SrsIndication)
    modifies n`srs, m
    ensures n.srs == old(n.srs) + [r] && m.now == CountSrs(old(m.now), 1)
  {
    n.srs := n.srs + [r];
    m.now := m.now.(srsTotal := Bump(m.now.srsTotal, 1));
  }

  lemma Snoc(c: Counters, k: nat)
    ensures CountSrs(CountSrs(c, k), 1) == CountSrs(c, k + 1)
  {
    BumpBump(c.srsTotal, k, 1);
  }

  method ReadHead(buf: array<Byte>, bufLen: nat, p: nat, slot: SlotPoint) returns (ind: SrsIndication, nofReports: Byte)
    requires p + PDU_HEAD <= bufLen <= buf.Length
    ensures ind == First(slot, buf[..bufLen][p..]) && nofReports == buf[..bufLen][p + 10]
  {
    var head := buf[p..p + PDU_HEAD];
    assert forall i :: 0 <= i < PDU_HEAD ==> head[i] == buf[..bufLen][p..][i];
    ind := SrsIndication(slot, U32At(head, 0), U16At(head, 4), UciIndication.TimingAdvanceOf(U16At(head, 6)));
    nofReports := head[10];
  }

  /** dispatch_srs_indication. */
  method Dispatch(buf: array<Byte>, bufLen: nat, numerology: nat, n: Notifier, m: Metrics)
    requires bufLen <= buf.Length
    modifies n`srs, m
    ensures n.srs == old(n.srs) + Notifications(buf[..bufLen], numerology)
    ensures m.now == CountSrs(old(m.now), |Notifications(buf[..bufLen], numerology)|)
  {
    hide Walk, CountSrs;
    if bufLen < MESSAGE_HEAD {
      Start(m.now, n.srs);
      return;
    }
    var head := buf[..MESSAGE_HEAD];
    assert head == buf[..bufLen][..MESSAGE_HEAD];
    DispatchAll(buf, bufLen, SlotPoint(numerology, U16At(head, 8), U16At(head, 10)), head[12], n, m);
  }

  method DispatchAll(buf: array<Byte>, bufLen: nat, slot: SlotPoint, nofPdus: nat, n: Notifier, m: Metrics)
    requires MESSAGE_HEAD <= bufLen <= buf.Length
    modifies n`srs, m
    ensures var all := Walk(slot, buf[..bufLen][MESSAGE_HEAD..], nofPdus);
            n.srs == old(n.srs) + all && m.now == CountSrs(old(m.now), |all|)
  {
    hide Walk, First, Skip, CountSrs;
    ghost var s := buf[..bufLen];
    ghost var all := Walk(slot, s[MESSAGE_HEAD..], nofPdus);
    ghost var done: seq<SrsIndication> := [];
    Start(m.now, all);
    var p: int := MESSAGE_HEAD;
    var i := 0;
    while i != nofPdus
      invariant 0 <= i <= nofPdus && MESSAGE_HEAD <= p <= bufLen
      invariant done + Walk(slot, s[p..], nofPdus - i) == all
      invariant n.srs == old(n.srs) + done && m.now == CountSrs(old(m.now), |done|)
      decreases nofPdus - i
    {
      if p + PDU_HEAD > bufLen {
        break;
      }
      var ind, nofReports := ReadHead(buf, bufLen, p, slot);
      var next := SkipReports(buf, bufLen, p + PDU_HEAD, nofReports);
      WalkStep(slot, s, p, next, nofPdus - i, done, all);
      Snoc(old(m.now), |done|);
      Report(n, m, ind);
      done := done + [ind];
      p, i := next, i + 1;
    }
    End(slot, s[p..], nofPdus - i, done);
  }

  // ---------------------------------------------------------------- round trip

  /** One PDU as L1 writes it: the head, then for every reported symbol the SNR of its resource blocks. */
  datatype WirePdu = WirePdu(handle: U32, rnti: U16, timingAdvance: U16, nofSymbols: Byte, wideBandSnr: Byte, reports: seq<seq<Byte>>)

  predicate WellFormed(w: WirePdu)
  {
    |w.reports| < 0x100 && forall i :: 0 <= i < |w.reports| ==> |w.reports[i]| < 0x1_0000
  }

  function HeadBytes(w: WirePdu): (b: seq<Byte>)
    requires WellFormed(w)
    ensures |b| == PDU_HEAD
  {
    Le32(w.handle) + Le16(w.rnti) + Le16(w.timingAdvance) + [w.nofSymbols, w.wideBandSnr, |w.reports|]
  }

  function ReportBytes(r: seq<Byte>): seq<Byte>
    requires |r| < 0x1_0000
  {
    Le16(|r|) + r
  }

  function ReportsBytes(rs: seq<seq<Byte>>): seq<Byte>
    requires forall i :: 0 <= i < |rs| ==> |rs[i]| < 0x1_0000
  {
    if rs == [] then [] else ReportBytes(rs[0]) + ReportsBytes(rs[1..])
  }

  function AllPduBytes(ws: seq<WirePdu>): seq<Byte>
    requires forall i :: 0 <= i < |ws| ==> WellFormed(ws[i])
  {
    if ws == [] then [] else HeadBytes(ws[0]) + (ReportsBytes(ws[0].reports) + AllPduBytes(ws[1..]))
  }

  function Meaning(slot: SlotPoint, w: WirePdu): SrsIndication
  {
    SrsIndication(slot, w.handle, w.rnti, if w.timingAdvance == 65535 then None else Some(w.timingAdvance))
  }

  /** The reports are skipped to the byte. */
  lemma {:induction false} SkipBack(rs: seq<seq<Byte>>, post: seq<Byte>)
    requires forall i :: 0 <= i < |rs| ==> |rs[i]| < 0x1_0000
    ensures Skip(ReportsBytes(rs) + post, |rs|) == post
  {
    hide Skip;
    var s := ReportsBytes(rs) + post;
    if rs == [] {
      SkipNone(post);
      assert s == post;
    } else {
      var rest := ReportsBytes(rs[1..]) + post;
      var n := |rs[0]|;
      assert s == [] + Le16(n) + (rs[0] + rest);
      U16Back([], n, rs[0] + rest);
      SkipStep(s, 0, |rs|);
      assert s[0..] == s && s[REPORT_HEAD + n..] == rest;
      SkipBack(rs[1..], post);
    }
  }

  lemma HeadBack(slot: SlotPoint, w: WirePdu, rest: seq<Byte>)
    requires WellFormed(w)
    ensures var s := HeadBytes(w) + rest; First(slot, s) == Meaning(slot, w) && s[10] == |w.reports| && s[PDU_HEAD..] == rest
  {
    var s := HeadBytes(w) + rest;
    assert forall i :: 0 <= i < PDU_HEAD ==> s[i] == HeadBytes(w)[i];
    JoinWord(w.handle);
  }

  lemma {:induction false} WalkBack(slot: SlotPoint, ws: seq<WirePdu>, post: seq<Byte>)
    requires forall i :: 0 <= i < |ws| ==> WellFormed(ws[i])
    ensures Walk(slot, AllPduBytes(ws) + post, |ws|) == seq(|ws|, i requires 0 <= i < |ws| => Meaning(slot, ws[i]))
  {
    hide First, Meaning, HeadBytes, ReportsBytes, Skip;
    if ws != [] {
      var w, rest := ws[0], AllPduBytes(ws[1..]) + post;
      assert AllPduBytes(ws) + post == HeadBytes(w) + (ReportsBytes(w.reports) + rest) by {
        Regroup(ReportsBytes(w.reports), AllPduBytes(ws[1..]), post);
        Regroup(HeadBytes(w), ReportsBytes(w.reports) + AllPduBytes(ws[1..]), post);
      }
      HeadBack(slot, w, ReportsBytes(w.reports) + rest);
      SkipBack(w.reports, rest);
      WalkBack(slot, ws[1..], post);
    }
  }

  function MessageBytes(envelope: seq<Byte>, sfn: U16, slot: U16, ws: seq<WirePdu>): seq<Byte>
    requires |ws| < 0x100 && forall i :: 0 <= i < |ws| ==> WellFormed(ws[i])
  {
    envelope + Le16(sfn) + Le16(slot) + [|ws|] + AllPduBytes(ws)
  }

  /** The receiver is told the head of each PDU, in order, whatever reports lie between them. */
  lemma RoundTrip(envelope: seq<Byte>, sfn: U16, slot: U16, ws: seq<WirePdu>, post: seq<Byte>, numerology: nat)
    requires |envelope| == 8 && |ws| < 0x100 && forall i :: 0 <= i < |ws| ==> WellFormed(ws[i])
    ensures Notifications(MessageBytes(envelope, sfn, slot, ws) + post, numerology) ==
            seq(|ws|, i requires 0 <= i < |ws| => Meaning(SlotPoint(numerology, sfn, slot), ws[i]))
  {
    hide Walk, Meaning, AllPduBytes, WellFormed;
    var body := AllPduBytes(ws) + post;
    var s := MessageBytes(envelope, sfn, slot, ws) + post;
    assert s == envelope + Le16(sfn) + Le16(slot) + ([|ws|] + body);
    ShortMessageHeadBack(envelope, sfn, slot, |ws|, body);
    WalkBack(SlotPoint(numerology, sfn, slot), ws, post);
  }

  // ---------------------------------------------------------------- truncation

  lemma {:induction false} SkipTruncated(t: seq<Byte>, u: seq<Byte>, n: nat)
    ensures Skip(t, n) <= Skip(t + u, n)
    decreases n
  {
    hide Skip;
    if n == 0 {
      SkipNone(t);
      SkipNone(t + u);
    } else {
      SkipStep(t, 0, n);
      SkipStep(t + u, 0, n);
      assert t[0..] == t && (t + u)[0..] == t + u;
      if REPORT_HEAD <= |t| && REPORT_HEAD + U16At(t, 0) <= |t| {
        Prefixed(t, u, 0);
        var e := REPORT_HEAD + U16At(t, 0);
        assert (t + u)[e..] == t[e..] + u;
        SkipTruncated(t[e..], u, n - 1);
      }
    }
  }

  lemma Prefixed(t: seq<Byte>, u: seq<Byte>, i: nat)
    requires i + 2 <= |t|
    ensures U16At(t + u, i) == U16At(t, i)
  {
  }

  lemma FirstTruncated(slot: SlotPoint, t: seq<Byte>, u: seq<Byte>)
    requires PDU_HEAD <= |t|
    ensures First(slot, t + u) == First(slot, t) && (t + u)[10] == t[10] && (t + u)[PDU_HEAD..] == t[PDU_HEAD..] + u
  {
    Prefixed(t, u, 4);
    Prefixed(t, u, 6);
    assert U32At(t + u, 0) == U32At(t, 0);
  }

  lemma {:induction false} WalkTruncates(slot: SlotPoint, s: seq<Byte>, t: seq<Byte>, n: nat)
    requires t <= s
    ensures Walk(slot, t, n) <= Walk(slot, s, n)
    decreases n
  {
    hide First, Skip;
    if n > 0 && PDU_HEAD <= |t| {
      var u := s[|t|..];
      assert s == t + u;
      FirstTruncated(slot, t, u);
      SkipTruncated(t[PDU_HEAD..], u, t[10]);
      var s1, t1 := Skip(s[PDU_HEAD..], s[10]), Skip(t[PDU_HEAD..], t[10]);
      WalkTruncates(slot, s1, t1, n - 1);
      PrefixCons(First(slot, s), Walk(slot, t1, n - 1), Walk(slot, s1, n - 1));
    }
  }

  lemma PrefixCons(x: SrsIndication, a: seq<SrsIndication>, b: seq<SrsIndication>)
    requires a <= b
    ensures [x] + a <= [x] + b
  {
  }

  /** Cutting a message anywhere leaves a prefix of its notifications. */
  lemma Truncation(s: seq<Byte>, c: nat, numerology: nat)
    requires c <= |s|
    ensures Notifications(s[..c], numerology) <= Notifications(s, numerology)
  {
    hide Walk;
    if MESSAGE_HEAD <= c {
      assert forall i :: 0 <= i < c ==> s[..c][i] == s[i];
      WalkTruncates(SlotPoint(numerology, U16At(s, 8), U16At(s, 10)), s[MESSAGE_HEAD..], s[..c][MESSAGE_HEAD..], s[12]);
    }
  }
}
