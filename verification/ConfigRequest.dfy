/** CONFIG.request: the cell configuration as thirty TLVs behind a count (`send_config_request`). */
module ConfigRequest {
  import opened Wire
  import opened Tlv
  import opened Envelope

  const CONFIG_REQUEST: U16 := 0x02
  const RESERVED_BODY: nat := 512
  const COUNT: Byte := 30

  const SLOTS: nat := 10
  const SYMBOLS: nat := 14

  // ---------------------------------------------------------------- the TDD pattern

  /** The use of symbol `k` of slot `s` in the pattern DDDSU, twice: 0 downlink, 1 uplink, 2 guard. */
  function SymbolUse(s: nat, k: nat): Byte
  {
    if s % 5 == 4 || (s % 5 == 3 && k >= 12) then 1
    else if s % 5 == 3 && k >= 10 then 2
    else 0
  }

  function Pattern(slots: nat): (p: seq<Byte>)
    ensures |p| == SYMBOLS * slots
  {
    seq(SYMBOLS * slots, i requires 0 <= i < SYMBOLS * slots => SymbolUse(i / SYMBOLS, i % SYMBOLS))
  }

  function SlotPattern(s: nat): (p: seq<Byte>)
    ensures |p| == SYMBOLS
  {
    seq(SYMBOLS, k requires 0 <= k < SYMBOLS => SymbolUse(s, k))
  }

  lemma SlotAndSymbol(s: nat, k: nat)
    requires k < SYMBOLS
    ensures (SYMBOLS * s + k) / SYMBOLS == s && (SYMBOLS * s + k) % SYMBOLS == k
  {
  }

  lemma PatternGrows(s: nat)
    ensures Pattern(s + 1) == Pattern(s) + SlotPattern(s)
  {
    var l, r := Pattern(s + 1), Pattern(s) + SlotPattern(s);
    forall i | 0 <= i < |l| ensures l[i] == r[i] {
      if i >= SYMBOLS * s {
        SlotAndSymbol(s, i - SYMBOLS * s);
      }
    }
  }

  /** One slot: the special slots 3 and 8, the uplink slots 4 and 9, or downlink. */
  method FillSlot(cfg: array<Byte>, s: nat)
    requires s < SLOTS && cfg.Length == SLOTS * SYMBOLS
    modifies cfg
    ensures cfg[..SYMBOLS * s] == old(cfg[..SYMBOLS * s])
    ensures cfg[SYMBOLS * s..SYMBOLS * s + SYMBOLS] == SlotPattern(s)
  {
    hide Overwrite;
    var slot := s * SYMBOLS;
    if s == 3 || s == 8 {
      Fill(cfg, slot, 10, 0);
      cfg[slot + 10], cfg[slot + 11] := 2, 2;
      cfg[slot + 12], cfg[slot + 13] := 1, 1;
    } else if s == 4 || s == 9 {
      Fill(cfg, slot, 14, 1);
    } else {
      Fill(cfg, slot, 14, 0);
    }
    forall k | 0 <= k < SYMBOLS ensures cfg[SYMBOLS * s..SYMBOLS * s + SYMBOLS][k] == SlotPattern(s)[k] {
      assert cfg[slot + k] == SymbolUse(s, k);
    }
  }

  method SlotConfig() returns (cfg: array<Byte>)
    ensures fresh(cfg) && cfg[..] == Pattern(SLOTS)
  {
    hide Pattern, SlotPattern;
    cfg := new Byte[SLOTS * SYMBOLS];
    assert cfg[..0] == Pattern(0);
    for s := 0 to SLOTS
      invariant cfg[..SYMBOLS * s] == Pattern(s)
    {
      PatternGrows(s);
      FillSlot(cfg, s);
      assert cfg[..SYMBOLS * (s + 1)] == cfg[..SYMBOLS * s] + cfg[SYMBOLS * s..SYMBOLS * s + SYMBOLS];
    }
    assert cfg[..] == cfg[..SYMBOLS * SLOTS];
  }

  // ---------------------------------------------------------------- the records

  function Grid(): seq<Byte>
  {
    Le16(0) + Le16(273) + Le16(0) + Le16(0) + Le16(0)
  }

  function Bands(): seq<Tlv>
  {
    [Tlv(0x1001, Le16(273)), Tlv(0x1002, Le32(3600000)), Tlv(0x1005, Le16(2)),
     Tlv(0x1006, Le16(273)), Tlv(0x1007, Le32(3600000)), Tlv(0x100A, Le16(2))]
  }

  function Grids(): seq<Tlv>
  {
    [Tlv(0x1004, Grid()), Tlv(0x1009, Grid())]
  }

  function Cell(): seq<Tlv>
  {
    [Tlv(0x100C, Le16(1)), Tlv(0x100D, [1]), Tlv(0x1010, [1])]
  }

  function Ssb(): seq<Tlv>
  {
    [Tlv(0x100E, Le32(0)), Tlv(0x101D, Le16(0)), Tlv(0x101F, [2]), Tlv(0x1020, [0]),
     Tlv(0x1021, [0, 0, 0]), Tlv(0x1022, Le32(1)), Tlv(0x1022, Le32(0))]
  }

  function PrachGeneral(): seq<Tlv>
  {
    [Tlv(0x1011, [1]), Tlv(0x1012, [1]), Tlv(0x1013, [0]), Tlv(0x1029, [159]), Tlv(0x1014, [1])]
  }

  /** The block of the one frequency-domain occasion; the root sequence index opens it. */
  function PrachOccasion(): seq<Tlv>
  {
    [Tlv(0x1015, Le16(1)), Tlv(0x1016, [1]), Tlv(0x1017, Le16(0)), Tlv(0x1018, [0]), Tlv(0x101B, [0])]
  }

  function Tdd(): seq<Tlv>
  {
    [Tlv(0x1026, [6]), Tlv(0x1027, Pattern(SLOTS))]
  }

  function ConfigTlvs(): seq<Tlv>
  {
    Bands() + Grids() + Cell() + Ssb() + PrachGeneral() + PrachOccasion() + Tdd()
  }

  function ConfigBody(): (b: seq<Byte>)
    ensures |b| == 393
  {
    ConfigLength();
    [COUNT] + AllTlvBytes(ConfigTlvs())
  }

  // ---------------------------------------------------------------- writing

  method AddBands(buf: array<Byte>, p: nat, ghost base: seq<Byte>, ghost start: nat, ghost before: seq<Tlv>) returns (next: nat)
    requires |base| == buf.Length && p + 48 <= buf.Length && Laid(base, start, before, buf[..], p)
    modifies buf
    ensures next == p + 48 && Laid(base, start, before + Bands(), buf[..], next)
  {
    hide Laid, Pattern;
    ghost var g := Bands();
    assert before + g[..0] == before && g[..6] == g;
    next := p;
    next := Add(buf, next, 0x1001, Le16(273), base, start, before, g, 0);
    next := Add(buf, next, 0x1002, Le32(3600000), base, start, before, g, 1);
    next := Add(buf, next, 0x1005, Le16(2), base, start, before, g, 2);
    next := Add(buf, next, 0x1006, Le16(273), base, start, before, g, 3);
    next := Add(buf, next, 0x1007, Le32(3600000), base, start, before, g, 4);
    next := Add(buf, next, 0x100A, Le16(2), base, start, before, g, 5);
  }

  method AddGrids(buf: array<Byte>, p: nat, ghost base: seq<Byte>, ghost start: nat, ghost before: seq<Tlv>) returns (next: nat)
    requires |base| == buf.Length && p + 32 <= buf.Length && Laid(base, start, before, buf[..], p)
    modifies buf
    ensures next == p + 32 && Laid(base, start, before + Grids(), buf[..], next)
  {
    hide Laid, Pattern;
    ghost var g := Grids();
    assert before + g[..0] == before && g[..2] == g;
    next := p;
    next := Add(buf, next, 0x1004, Grid(), base, start, before, g, 0);
    next := Add(buf, next, 0x1009, Grid(), base, start, before, g, 1);
  }

  method AddCell(buf: array<Byte>, p: nat, ghost base: seq<Byte>, ghost start: nat, ghost before: seq<Tlv>) returns (next: nat)
    requires |base| == buf.Length && p + 24 <= buf.Length && Laid(base, start, before, buf[..], p)
    modifies buf
    ensures next == p + 24 && Laid(base, start, before + Cell(), buf[..], next)
  {
    hide Laid, Pattern;
    ghost var g := Cell();
    assert before + g[..0] == before && g[..3] == g;
    next := p;
    next := Add(buf, next, 0x100C, Le16(1), base, start, before, g, 0);
    next := Add(buf, next, 0x100D, [1], base, start, before, g, 1);
    next := Add(buf, next, 0x1010, [1], base, start, before, g, 2);
  }

  method AddSsb(buf: array<Byte>, p: nat, ghost base: seq<Byte>, ghost start: nat, ghost before: seq<Tlv>) returns (next: nat)
    requires |base| == buf.Length && p + 56 <= buf.Length && Laid(base, start, before, buf[..], p)
    modifies buf
    ensures next == p + 56 && Laid(base, start, before + Ssb(), buf[..], next)
  {
    hide Laid, Pattern;
    ghost var g := Ssb();
    assert before + g[..0] == before && g[..7] == g;
    next := p;
    next := Add(buf, next, 0x100E, Le32(0), base, start, before, g, 0);
    next := Add(buf, next, 0x101D, Le16(0), base, start, before, g, 1);
    next := Add(buf, next, 0x101F, [2], base, start, before, g, 2);
    next := Add(buf, next, 0x1020, [0], base, start, before, g, 3);
    next := Add(buf, next, 0x1021, [0, 0, 0], base, start, before, g, 4);
    next := Add(buf, next, 0x1022, Le32(1), base, start, before, g, 5);
    next := Add(buf, next, 0x1022, Le32(0), base, start, before, g, 6);
  }

  method AddPrachGeneral(buf: array<Byte>, p: nat, ghost base: seq<Byte>, ghost start: nat, ghost before: seq<Tlv>) returns (next: nat)
    requires |base| == buf.Length && p + 40 <= buf.Length && Laid(base, start, before, buf[..], p)
    modifies buf
    ensures next == p + 40 && Laid(base, start, before + PrachGeneral(), buf[..], next)
  {
    hide Laid, Pattern;
    ghost var g := PrachGeneral();
    assert before + g[..0] == before && g[..5] == g;
    next := p;
    next := Add(buf, next, 0x1011, [1], base, start, before, g, 0);
    next := Add(buf, next, 0x1012, [1], base, start, before, g, 1);
    next := Add(buf, next, 0x1013, [0], base, start, before, g, 2);
    next := Add(buf, next, 0x1029, [159], base, start, before, g, 3);
    next := Add(buf, next, 0x1014, [1], base, start, before, g, 4);
  }

  method AddPrachOccasion(buf: array<Byte>, p: nat, ghost base: seq<Byte>, ghost start: nat, ghost before: seq<Tlv>) returns (next: nat)
    requires |base| == buf.Length && p + 40 <= buf.Length && Laid(base, start, before, buf[..], p)
    modifies buf
    ensures next == p + 40 && Laid(base, start, before + PrachOccasion(), buf[..], next)
  {
    hide Laid, Pattern;
    ghost var g := PrachOccasion();
    assert before + g[..0] == before && g[..5] == g;
    next := p;
    next := Add(buf, next, 0x1015, Le16(1), base, start, before, g, 0);
    next := Add(buf, next, 0x1016, [1], base, start, before, g, 1);
    next := Add(buf, next, 0x1017, Le16(0), base, start, before, g, 2);
    next := Add(buf, next, 0x1018, [0], base, start, before, g, 3);
    next := Add(buf, next, 0x101B, [0], base, start, before, g, 4);
  }

  method AddTdd(buf: array<Byte>, p: nat, ghost base: seq<Byte>, ghost start: nat, ghost before: seq<Tlv>) returns (next: nat)
    requires |base| == buf.Length && p + 152 <= buf.Length && Laid(base, start, before, buf[..], p)
    modifies buf
    ensures next == p + 152 && Laid(base, start, before + Tdd(), buf[..], next)
  {
    hide Laid, Pattern;
    ghost var g := Tdd();
    assert before + g[..0] == before && g[..2] == g;
    next := p;
    next := Add(buf, next, 0x1026, [6], base, start, before, g, 0);
    var cfg := SlotConfig();
    next := Add(buf, next, 0x1027, cfg[..], base, start, before, g, 1);
  }

  /** The records, in the order the source lists them. */
  method AddAll(buf: array<Byte>, p: nat, ghost base: seq<Byte>) returns (next: nat)
    requires |base| == buf.Length && p + 392 <= buf.Length && buf[..] == base
    modifies buf
    ensures next == p + 392 && Laid(base, p, ConfigTlvs(), buf[..], next)
  {
    hide Laid, Bands, Grids, Cell, Ssb, PrachGeneral, PrachOccasion, Tdd;
    NothingLaid(base, p);
    next := AddBands(buf, p, base, p, []);
    assert [] + Bands() == Bands();
    next := AddGrids(buf, next, base, p, Bands());
    next := AddCell(buf, next, base, p, Bands() + Grids());
    next := AddSsb(buf, next, base, p, Bands() + Grids() + Cell());
    next := AddPrachGeneral(buf, next, base, p, Bands() + Grids() + Cell() + Ssb());
    next := AddPrachOccasion(buf, next, base, p, Bands() + Grids() + Cell() + Ssb() + PrachGeneral());
    next := AddTdd(buf, next, base, p, Bands() + Grids() + Cell() + Ssb() + PrachGeneral() + PrachOccasion());
  }

  /** The body of `send_config_request`, on the buffer it was given: returns the message length. */
  method SerializeConfig(buf: array<Byte>) returns (msgLen: nat)
    requires HEADERS + RESERVED_BODY <= buf.Length
    modifies buf
    ensures buf[..] == Overwrite(old(buf[..]), 0, HeaderBytes(0, CONFIG_REQUEST, 393) + ConfigBody())
    ensures msgLen == HEADERS + 393
  {
    hide AllTlvBytes, ConfigTlvs, Overwrite;
    ghost var base := buf[..];
    buf[0] := 1;
    buf[1] := 0;
    buf[HEADERS] := COUNT;
    ghost var counted := buf[..];
    var p := AddAll(buf, HEADERS + 1, counted);
    var bodyLen := p - HEADERS;
    Copy(buf, 2, Le16(CONFIG_REQUEST));
    Copy(buf, 4, Le32(bodyLen));
    msgLen := HEADERS + bodyLen;
    Assembled(base, 1, 0, COUNT, Le16(CONFIG_REQUEST), Le32(bodyLen), AllTlvBytes(ConfigTlvs()));
  }

  /** The count in front of the records, then the headers back-patched in front of both. */
  lemma Assembled(base: seq<Byte>, a: Byte, b: Byte, c: Byte, t: seq<Byte>, n: seq<Byte>, tlvs: seq<Byte>)
    requires |t| == 2 && |n| == 4 && HEADERS + 1 + |tlvs| <= |base|
    ensures Overwrite(Overwrite(Overwrite(base[0 := a][1 := b][HEADERS := c], HEADERS + 1, tlvs), 2, t), 4, n)
            == Overwrite(base, 0, [a, b] + t + n + ([c] + tlvs))
  {
    var s0 := Overwrite(base, 0, [a, b]);
    assert base[0 := a][1 := b][HEADERS := c] == Overwrite(s0, HEADERS, [c]);
    hide Overwrite;
    OverwriteMeets(s0, HEADERS, [c], tlvs);
    var s1 := Overwrite(s0, HEADERS, [c] + tlvs);
    OverwriteMeets(s1, 2, t, n);
    OverwriteBefore(s0, 2, t + n, [c] + tlvs);
    OverwriteMeets(base, 0, [a, b], t + n + ([c] + tlvs));
    assert [a, b] + (t + n + ([c] + tlvs)) == [a, b] + t + n + ([c] + tlvs);
  }

  // ---------------------------------------------------------------- what L1 reads

  lemma {:induction false} BytesOfEqual(ts: seq<Tlv>, w: nat)
    requires forall i :: 0 <= i < |ts| ==> Padded(|ts[i].value|) == w
    ensures |AllTlvBytes(ts)| == (TLV_HEAD + w) * |ts|
  {
    hide TlvBytes, Padded;
    if ts != [] {
      BytesOfEqual(ts[1..], w);
      var n := |ts| - 1;
      assert (TLV_HEAD + w) * n + (TLV_HEAD + w) == (TLV_HEAD + w) * (n + 1);
    }
  }

  lemma {:induction false} ConfigLength()
    ensures |ConfigTlvs()| == 30 && |AllTlvBytes(ConfigTlvs())| == 392
  {
    CarrierLengths();
    SsbAndPrachLengths();
    TddLength();
    hide AllTlvBytes, Bands, Grids, Cell, Ssb, PrachGeneral, PrachOccasion, Tdd;
    LengthOfSeven(Bands(), Grids(), Cell(), Ssb(), PrachGeneral(), PrachOccasion(), Tdd());
  }

  lemma CarrierLengths()
    ensures |Bands()| == 6 && |Grids()| == 2 && |Cell()| == 3
    ensures |AllTlvBytes(Bands())| == 48 && |AllTlvBytes(Grids())| == 32 && |AllTlvBytes(Cell())| == 24
  {
    hide AllTlvBytes;
    BytesOfEqual(Bands(), 4);
    BytesOfEqual(Grids(), 12);
    BytesOfEqual(Cell(), 4);
  }

  lemma SsbAndPrachLengths()
    ensures |Ssb()| == 7 && |PrachGeneral()| == 5 && |PrachOccasion()| == 5
    ensures |AllTlvBytes(Ssb())| == 56 && |AllTlvBytes(PrachGeneral())| == 40 && |AllTlvBytes(PrachOccasion())| == 40
  {
    hide AllTlvBytes;
    BytesOfEqual(Ssb(), 4);
    BytesOfEqual(PrachGeneral(), 4);
    BytesOfEqual(PrachOccasion(), 4);
  }

  lemma LengthOfSeven(a: seq<Tlv>, b: seq<Tlv>, c: seq<Tlv>, d: seq<Tlv>, e: seq<Tlv>, f: seq<Tlv>, g: seq<Tlv>)
    ensures |AllTlvBytes(a + b + c + d + e + f + g)|
            == |AllTlvBytes(a)| + |AllTlvBytes(b)| + |AllTlvBytes(c)| + |AllTlvBytes(d)| + |AllTlvBytes(e)| + |AllTlvBytes(f)| + |AllTlvBytes(g)|
  {
    hide AllTlvBytes;
    AllTlvBytesAppend(a + b + c + d + e + f, g);
    AllTlvBytesAppend(a + b + c + d + e, f);
    AllTlvBytesAppend(a + b + c + d, e);
    AllTlvBytesAppend(a + b + c, d);
    AllTlvBytesAppend(a + b, c);
    AllTlvBytesAppend(a, b);
  }

  lemma TddLength()
    ensures |Tdd()| == 2 && |AllTlvBytes(Tdd())| == 152
  {
    hide Pattern, TlvBytes;
    var t := Tdd();
    assert t[1..][1..] == [];
  }

  /** A downlink slot, a special one of ten downlink, two guard and two uplink symbols, and an uplink slot. */
  const DOWN: seq<Byte> := [0, 0, 0, 0, 0, 0, 0, 0, 0, 0, 0, 0, 0, 0]
  const SPECIAL: seq<Byte> := [0, 0, 0, 0, 0, 0, 0, 0, 0, 0, 2, 2, 1, 1]
  const UP: seq<Byte> := [1, 1, 1, 1, 1, 1, 1, 1, 1, 1, 1, 1, 1, 1]

  /** DDDSU, twice. */
  function Dddsu(): seq<Byte>
  {
    DOWN + DOWN + DOWN + SPECIAL + UP + DOWN + DOWN + DOWN + SPECIAL + UP
  }

  lemma PatternSpelled()
    ensures Pattern(SLOTS) == Dddsu()
  {
    assert SlotPattern(0) == SlotPattern(1) == SlotPattern(2) == SlotPattern(5) == SlotPattern(6) == SlotPattern(7) == DOWN;
    assert SlotPattern(3) == SlotPattern(8) == SPECIAL;
    assert SlotPattern(4) == SlotPattern(9) == UP;
    hide Pattern, SlotPattern, DOWN, SPECIAL, UP;
    PatternStarts();
    PatternGrows(0);
    PatternGrows(1);
    PatternGrows(2);
    PatternGrows(3);
    PatternGrows(4);
    PatternGrows(5);
    PatternGrows(6);
    PatternGrows(7);
    PatternGrows(8);
    PatternGrows(9);
    assert [] + DOWN == DOWN;
  }

  lemma PatternStarts()
    ensures Pattern(0) == []
  {
  }

  /** The cell, record by record, with the bytes that stand on the wire: 273 resource blocks at 3.6 GHz for downlink and
      uplink, two antennas each; the grids, of which only that of 30 kHz is in use; cell 1, TDD, 30 kHz; SSB every 20 ms in
      the first position; one PRACH occasion, long sequence, configuration 159; and the TDD pattern of 5 ms. */
  function CellOnWire(): seq<Tlv>
  {
    [ // carrier
      Tlv(0x1001, [0x11, 0x01]), Tlv(0x1002, [0x80, 0xEE, 0x36, 0x00]), Tlv(0x1005, [2, 0]),
      Tlv(0x1006, [0x11, 0x01]), Tlv(0x1007, [0x80, 0xEE, 0x36, 0x00]), Tlv(0x100A, [2, 0]),
      Tlv(0x1004, [0, 0, 0x11, 0x01, 0, 0, 0, 0, 0, 0]), Tlv(0x1009, [0, 0, 0x11, 0x01, 0, 0, 0, 0, 0, 0]),
      Tlv(0x100C, [1, 0]), Tlv(0x100D, [1]), Tlv(0x1010, [1]),
      // SSB
      Tlv(0x100E, [0, 0, 0, 0]), Tlv(0x101D, [0, 0]), Tlv(0x101F, [2]), Tlv(0x1020, [0]), Tlv(0x1021, [0, 0, 0]),
      Tlv(0x1022, [1, 0, 0, 0]), Tlv(0x1022, [0, 0, 0, 0]),
      // PRACH: what is general, then the occasion
      Tlv(0x1011, [1]), Tlv(0x1012, [1]), Tlv(0x1013, [0]), Tlv(0x1029, [159]), Tlv(0x1014, [1]),
      Tlv(0x1015, [1, 0]), Tlv(0x1016, [1]), Tlv(0x1017, [0, 0]), Tlv(0x1018, [0]), Tlv(0x101B, [0]),
      // TDD
      Tlv(0x1026, [6]), Tlv(0x1027, Dddsu())]
  }

  lemma {:induction false} ConfigSpelled()
    ensures ConfigTlvs() == CellOnWire()
  {
    PatternSpelled();
    hide Pattern, Dddsu;
    assert Le16(273) == [0x11, 0x01] && Le32(3600000) == [0x80, 0xEE, 0x36, 0x00];
    assert Grid() == [0, 0, 0x11, 0x01, 0, 0, 0, 0, 0, 0];
  }

  /** The body holds exactly thirty records and fits the space reserved for it; whoever receives the message finds the
      declared length to be the bytes that follow, and the counted records to be exactly those configured. */
  lemma {:induction false} ConfigReceived()
    ensures |ConfigTlvs()| == 30 && |ConfigBody()| <= RESERVED_BODY
    ensures var s := HeaderBytes(0, CONFIG_REQUEST, 393) + ConfigBody();
            && s[0] == 1 && s[1] == 0 && U16At(s, 2) == 0x02 && U32At(s, 4) == |s| - HEADERS
            && Walk(s[HEADERS + 1..], s[HEADERS]) == Some(Walked(CellOnWire(), []))
  {
    hide AllTlvBytes, Walk, ConfigTlvs, CellOnWire;
    ConfigLength();
    ConfigSpelled();
    var ts := ConfigTlvs();
    var s := HeaderBytes(0, CONFIG_REQUEST, 393) + ConfigBody();
    LengthBack(0, CONFIG_REQUEST, 393, ConfigBody());
    assert s[HEADERS + 1..] == AllTlvBytes(ts) + [] by { assert s[HEADERS..] == ConfigBody(); }
    assert s[HEADERS] == COUNT;
    WalkBack(ts, []);
  }
}
