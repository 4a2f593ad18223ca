/** Tag-length-value records as the CONFIG.request carries them: a 16-bit tag, a 16-bit length, and the value padded
    with zeros to a multiple of four bytes. */
module Tlv {
  import opened Wire

  const TLV_HEAD: nat := 4

  type Value = v: seq<Byte> | |v| < 0x1_0000 witness []

  datatype Tlv = Tlv(tag: U16, value: Value)

  /** A length rounded up to a multiple of four. */
  function Padded(n: nat): (m: nat)
    ensures n <= m < n + 4 && m % 4 == 0
  {
    (n + 3) / 4 * 4
  }

  function TlvBytes(t: Tlv): (b: seq<Byte>)
    ensures |b| == TLV_HEAD + Padded(|t.value|)
  {
    Le16(t.tag) + Le16(|t.value|) + t.value + Zeros(Padded(|t.value|) - |t.value|)
  }

  function AllTlvBytes(ts: seq<Tlv>): seq<Byte>
  {
    if ts == [] then [] else TlvBytes(ts[0]) + AllTlvBytes(ts[1..])
  }

  lemma {:induction false} AllTlvBytesAppend(a: seq<Tlv>, b: seq<Tlv>)
    ensures AllTlvBytes(a + b) == AllTlvBytes(a) + AllTlvBytes(b)
  {
    hide TlvBytes;
    if a == [] {
      assert a + b == b;
    } else {
      AllTlvBytesAppend(a[1..], b);
      AllTlvBytesCons(a + b);
      assert (a + b)[1..] == a[1..] + b && (a + b)[0] == a[0];
      Regroup(TlvBytes(a[0]), AllTlvBytes(a[1..]), AllTlvBytes(b));
    }
  }

  lemma AllTlvBytesCons(ts: seq<Tlv>)
    requires ts != []
    ensures AllTlvBytes(ts) == TlvBytes(ts[0]) + AllTlvBytes(ts[1..])
  {
  }

  // ---------------------------------------------------------------- writing

  /** memset. */
  method Fill(buf: array<Byte>, pos: nat, n: nat, v: Byte)
    requires pos + n <= buf.Length
    modifies buf
    ensures buf[..] == Overwrite(old(buf[..]), pos, seq(n, _ => v))
    ensures forall i :: 0 <= i < buf.Length ==> buf[i] == if pos <= i < pos + n then v else old(buf[i])
  {
    for i := 0 to n
      invariant buf[..] == Overwrite(old(buf[..]), pos, seq(i, _ => v))
      invariant forall j :: 0 <= j < buf.Length ==> buf[j] == if pos <= j < pos + i then v else old(buf[j])
    {
      buf[pos + i] := v;
    }
  }

  /** add_tlv: writes one record at `p` and returns the cursor past it. */
  method AddTlv(buf: array<Byte>, p: nat, tag: U16, value: Value) returns (next: nat)
    requires p + TLV_HEAD + Padded(|value|) <= buf.Length
    modifies buf
    ensures next == p + |TlvBytes(Tlv(tag, value))|
    ensures buf[..] == Overwrite(old(buf[..]), p, TlvBytes(Tlv(tag, value)))
  {
    hide Overwrite;
    var len := |value|;
    next := p;
    Copy(buf, next, Le16(tag));
    next := next + 2;
    Copy(buf, next, Le16(len));
    next := next + 2;
    OverwriteMeets(old(buf[..]), p, Le16(tag), Le16(len));
    Copy(buf, next, value);
    OverwriteMeets(old(buf[..]), p, Le16(tag) + Le16(len), value);
    var paddedLen := (len + 3) / 4 * 4;
    if paddedLen > len {
      Fill(buf, next + len, paddedLen - len, 0);
      OverwriteMeets(old(buf[..]), p, Le16(tag) + Le16(len) + value, Zeros(paddedLen - len));
    } else {
      assert Le16(tag) + Le16(len) + value == TlvBytes(Tlv(tag, value));
    }
    next := next + paddedLen;
  }

  /** `now` is `base` with the records `ts` written from `start` on, and the cursor `p` is just past them. */
  ghost predicate Laid(base: seq<Byte>, start: nat, ts: seq<Tlv>, now: seq<Byte>, p: nat)
  {
    && p == start + |AllTlvBytes(ts)| <= |base|
    && now == Overwrite(base, start, AllTlvBytes(ts))
  }

  lemma NothingLaid(base: seq<Byte>, start: nat)
    requires start <= |base|
    ensures Laid(base, start, [], base, start)
  {
  }

  /** The next record of `group`, of which `k` are there already behind those in `before`. */
  method Add(buf: array<Byte>, p: nat, tag: U16, value: Value,
             ghost base: seq<Byte>, ghost start: nat, ghost before: seq<Tlv>, ghost group: seq<Tlv>, ghost k: nat)
    returns (next: nat)
    requires p + TLV_HEAD + Padded(|value|) <= buf.Length == |base|
    requires k < |group| && group[k] == Tlv(tag, value) && Laid(base, start, before + group[..k], buf[..], p)
    modifies buf
    ensures next == p + TLV_HEAD + Padded(|value|)
    ensures Laid(base, start, before + group[..k + 1], buf[..], next)
  {
    hide TlvBytes, AllTlvBytes, Overwrite;
    next := AddTlv(buf, p, tag, value);
    LaidSnoc(base, start, before + group[..k], Tlv(tag, value));
    assert before + group[..k + 1] == before + group[..k] + [Tlv(tag, value)];
  }

  lemma AllOne(t: Tlv)
    ensures AllTlvBytes([t]) == TlvBytes(t)
  {
    hide TlvBytes;
    assert AllTlvBytes([t]) == TlvBytes(t) + [];
  }

  lemma {:induction false} LaidSnoc(base: seq<Byte>, start: nat, ts: seq<Tlv>, t: Tlv)
    requires start + |AllTlvBytes(ts)| + |TlvBytes(t)| <= |base|
    ensures AllTlvBytes(ts + [t]) == AllTlvBytes(ts) + TlvBytes(t)
    ensures Overwrite(Overwrite(base, start, AllTlvBytes(ts)), start + |AllTlvBytes(ts)|, TlvBytes(t))
            == Overwrite(base, start, AllTlvBytes(ts + [t]))
  {
    hide TlvBytes, AllTlvBytes, Overwrite;
    AllTlvBytesAppend(ts, [t]);
    AllOne(t);
    OverwriteMeets(base, start, AllTlvBytes(ts), TlvBytes(t));
  }

  // ---------------------------------------------------------------- walking

  datatype Walked = Walked(tlvs: seq<Tlv>, rest: seq<Byte>)

  /** The first record, when there is a whole one with zero padding. */
  function First(s: seq<Byte>): Option<Walked>
  {
    if |s| < TLV_HEAD then None
    else
      var len := U16At(s, 2);
      var end := TLV_HEAD + Padded(len);
      if end > |s| || s[TLV_HEAD + len..end] != Zeros(Padded(len) - len) then None
      else Some(Walked([Tlv(U16At(s, 0), s[TLV_HEAD..TLV_HEAD + len])], s[end..]))
  }

  /** A reader of `n` records, advancing by 4 and the length rounded up to 4 each time. */
  function Walk(s: seq<Byte>, n: nat): (r: Option<Walked>)
    ensures r.Some? ==> |r.value.tlvs| == n
    decreases n
  {
    if n == 0 then Some(Walked([], s))
    else
      var f :- First(s);
      var w :- Walk(f.rest, n - 1);
      Some(Walked(f.tlvs + w.tlvs, w.rest))
  }

  lemma FirstBack(t: Tlv, post: seq<Byte>)
    ensures First(TlvBytes(t) + post) == Some(Walked([t], post))
  {
    hide Zeros, Padded;
    var n, pad := |t.value|, Zeros(Padded(|t.value|) - |t.value|);
    HeadBack(t.tag, n, t.value + pad + post);
    var h := Le16(t.tag) + Le16(n);
    assert TlvBytes(t) + post == h + (t.value + pad + post);
    PartsBack(h, t.value, pad, post);
  }

  lemma HeadBack(tag: U16, len: U16, rest: seq<Byte>)
    ensures var s := Le16(tag) + Le16(len) + rest; U16At(s, 0) == tag && U16At(s, 2) == len
  {
    U16Back([], tag, Le16(len) + rest);
    assert [] + Le16(tag) + (Le16(len) + rest) == Le16(tag) + Le16(len) + rest;
    U16Back(Le16(tag), len, rest);
  }

  lemma PartsBack(h: seq<Byte>, v: seq<Byte>, pad: seq<Byte>, post: seq<Byte>)
    ensures var s, n := h + (v + pad + post), |h| + |v|;
            s[|h|..n] == v && s[n..n + |pad|] == pad && s[n + |pad|..] == post
  {
  }

  /** Walking what any sequence of `add_tlv` calls wrote gives the records back, in order, and stops at the cursor. */
  lemma {:induction false} WalkBack(ts: seq<Tlv>, post: seq<Byte>)
    ensures Walk(AllTlvBytes(ts) + post, |ts|) == Some(Walked(ts, post))
  {
    hide TlvBytes, First;
    if ts == [] {
      assert AllTlvBytes(ts) + post == post;
    } else {
      FirstBack(ts[0], AllTlvBytes(ts[1..]) + post);
      assert AllTlvBytes(ts) + post == TlvBytes(ts[0]) + (AllTlvBytes(ts[1..]) + post);
      WalkBack(ts[1..], post);
      assert [ts[0]] + ts[1..] == ts;
    }
  }

  lemma FirstExact(s: seq<Byte>)
    requires First(s).Some?
    ensures var f := First(s).value; |f.tlvs| == 1 && TlvBytes(f.tlvs[0]) + f.rest == s
  {
    var len := U16At(s, 2);
    var end := TLV_HEAD + Padded(len);
    Le16At(s);
    assert s[2..][..2] == s[2..4];
    Le16At(s[2..]);
    assert U16At(s[2..], 0) == len;
    assert s == s[..2] + s[2..4] + s[4..4 + len] + s[4 + len..end] + s[end..];
  }

  /** And nothing else walks: bytes that give `ts` are the bytes of `ts` with what is left behind them. */
  lemma {:induction false} WalkExact(s: seq<Byte>, n: nat)
    requires Walk(s, n).Some?
    ensures var w := Walk(s, n).value; AllTlvBytes(w.tlvs) + w.rest == s
    decreases n
  {
    hide TlvBytes, First;
    if n > 0 {
      var f := First(s).value;
      FirstExact(s);
      WalkExact(f.rest, n - 1);
      var w := Walk(f.rest, n - 1).value;
      BytesCons(f.tlvs, w.tlvs, w.rest);
    }
  }

  lemma BytesCons(one: seq<Tlv>, more: seq<Tlv>, rest: seq<Byte>)
    requires |one| == 1
    ensures AllTlvBytes(one + more) + rest == TlvBytes(one[0]) + (AllTlvBytes(more) + rest)
  {
    hide TlvBytes;
    assert (one + more)[1..] == more;
  }

  /** So the bytes determine the list: two lists with the same bytes and count are the same list. */
  lemma {:induction false} BytesDetermineList(a: seq<Tlv>, b: seq<Tlv>)
    requires |a| == |b| && AllTlvBytes(a) == AllTlvBytes(b)
    ensures a == b
  {
    WalkBack(a, []);
    WalkBack(b, []);
  }
}
