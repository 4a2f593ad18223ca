/** What the compressed list says: nothing lost, as few ranges as possible, and when the printed lines can be read back. */
module CompressionTheorems {
  import opened Wire
  import opened Sorting
  import opened TvNames
  import opened RangeCompression
  import opened NameCompression

  // ---------------------------------------------------------------- expanding

  function Spell(k: Key, vs: seq<nat>): (names: seq<string>)
    ensures |names| == |vs|
  {
    seq(|vs|, i requires 0 <= i < |vs| => Name(k, vs[i]))
  }

  /** expand_range. */
  function ExpandRange(r: Range): seq<string>
  {
    Spell(r.key, Values(r.run))
  }

  function ExpandAll(rs: seq<Range>): seq<string>
  {
    if rs == [] then [] else ExpandAll(rs[..|rs| - 1]) + ExpandRange(rs[|rs| - 1])
  }

  lemma SpellAppend(k: Key, a: seq<nat>, b: seq<nat>)
    ensures Spell(k, a + b) == Spell(k, a) + Spell(k, b)
  {
    hide Name;
  }

  lemma {:induction false} ExpandAppend(a: seq<Range>, b: seq<Range>)
    ensures ExpandAll(a + b) == ExpandAll(a) + ExpandAll(b)
  {
    hide ExpandRange;
    if b == [] {
      assert a + b == a;
    } else {
      assert (a + b)[..|a + b| - 1] == a + b[..|b| - 1];
      ExpandAppend(a, b[..|b| - 1]);
    }
  }

  lemma {:induction false} ExpandGroup(k: Key, rs: seq<Run>)
    ensures ExpandAll(InKey(k, rs)) == Spell(k, AllValues(rs))
  {
    hide Spell, Values;
    if rs != [] {
      var n := |rs| - 1;
      ExpandGroup(k, rs[..n]);
      assert InKey(k, rs)[..n] == InKey(k, rs[..n]);
      SpellAppend(k, AllValues(rs[..n]), Values(rs[n]));
    } else {
      SpellNothing(k);
    }
  }

  lemma SpellNothing(k: Key)
    ensures Spell(k, []) == [] && AllValues([]) == []
  {
  }

  // ---------------------------------------------------------------- nothing is lost

  /** A name, spelled again from its key and number when it matches. */
  function Respelled(u: DigitTable, x: string): string
  {
    var m := Match(u, x);
    if m.Some? then Name(m.value.key, Number(u, m.value.digits)) else x
  }

  function RespelledAll(u: DigitTable, names: seq<string>): (r: seq<string>)
    ensures |r| == |names|
  {
    seq(|names|, i requires 0 <= i < |names| => Respelled(u, names[i]))
  }

  /** The names of the groups `keys`, spelled out. */
  function Groups(u: DigitTable, names: seq<string>, keys: seq<Key>): multiset<string>
  {
    if keys == [] then multiset{}
    else multiset(Spell(keys[0], ValuesOf(u, names, keys[0]))) + Groups(u, names, keys[1..])
  }

  lemma {:induction false} GroupsAppend(u: DigitTable, names: seq<string>, a: seq<Key>, b: seq<Key>)
    ensures Groups(u, names, a + b) == Groups(u, names, a) + Groups(u, names, b)
  {
    hide Spell, ValuesOf;
    if a == [] {
      assert a + b == b;
    } else {
      assert (a + b)[1..] == a[1..] + b;
      GroupsAppend(u, names, a[1..], b);
    }
  }

  lemma {:induction false} GroupsInsert(u: DigitTable, names: seq<string>, k: Key, keys: seq<Key>)
    ensures Groups(u, names, Insert(KeyLessEq, k, keys)) == Groups(u, names, [k] + keys)
  {
    hide Spell, ValuesOf, KeyLessEq;
    assert ([k] + keys)[1..] == keys;
    if keys != [] && !KeyLessEq(k, keys[0]) {
      GroupsInsert(u, names, k, keys[1..]);
      assert ([k] + keys[1..])[1..] == keys[1..];
      assert ([keys[0]] + Insert(KeyLessEq, k, keys[1..]))[1..] == Insert(KeyLessEq, k, keys[1..]);
    }
  }

  lemma {:induction false} GroupsSort(u: DigitTable, names: seq<string>, keys: seq<Key>)
    ensures Groups(u, names, Sort(KeyLessEq, keys)) == Groups(u, names, keys)
  {
    hide Spell, ValuesOf, KeyLessEq, Insert;
    if keys != [] {
      GroupsSort(u, names, keys[1..]);
      GroupsInsert(u, names, keys[0], Sort(KeyLessEq, keys[1..]));
      assert ([keys[0]] + Sort(KeyLessEq, keys[1..]))[1..] == Sort(KeyLessEq, keys[1..]);
    }
  }

  lemma {:induction false} RangesSpell(u: DigitTable, names: seq<string>, keys: seq<Key>)
    ensures multiset(ExpandAll(RangesOf(u, names, keys))) == Groups(u, names, keys)
  {
    hide Spell, ValuesOf, Runs, InKey, AllValues;
    if keys == [] {
      assert ExpandAll([]) == [];
    } else {
      var n := |keys| - 1;
      var k := keys[n];
      var vs := ValuesOf(u, names, k);
      RangesSpell(u, names, keys[..n]);
      ExpandAppend(RangesOf(u, names, keys[..n]), InKey(k, Runs(vs)));
      ExpandGroup(k, Runs(vs));
      RunsLossless(vs);
      GroupsAppend(u, names, keys[..n], [k]);
      assert keys == keys[..n] + [k] && [k][1..] == [];
      assert Groups(u, names, [k]) == multiset(Spell(k, vs)) + Groups(u, names, []);
    }
  }

  predicate NoTwice(keys: seq<Key>)
  {
    forall i, j :: 0 <= i < j < |keys| ==> keys[i] != keys[j]
  }

  lemma {:induction false} KeysOnce(u: DigitTable, names: seq<string>)
    ensures NoTwice(KeysOf(u, names))
  {
    hide Match;
    if names != [] {
      KeysOnce(u, names[..|names| - 1]);
    }
  }

  /** One more name adds itself, respelled, to the group it belongs to. */
  lemma {:induction false} GroupsGrow(u: DigitTable, names: seq<string>, x: string, keys: seq<Key>)
    requires NoTwice(keys)
    ensures var m := Match(u, x);
            Groups(u, names + [x], keys)
            == Groups(u, names, keys) + if m.Some? && m.value.key in keys then multiset{Respelled(u, x)} else multiset{}
  {
    hide Match, Name;
    if keys != [] {
      GroupsGrow(u, names, x, keys[1..]);
      GroupGrows(u, names, x, keys[0]);
      hide Spell, ValuesOf, Respelled;
      var m := Match(u, x);
      assert m.Some? ==> (m.value.key in keys <==> m.value.key == keys[0] || m.value.key in keys[1..]);
      assert keys[0] !in keys[1..];
    }
  }

  lemma GroupGrows(u: DigitTable, names: seq<string>, x: string, k: Key)
    ensures var m := Match(u, x);
            multiset(Spell(k, ValuesOf(u, names + [x], k)))
            == multiset(Spell(k, ValuesOf(u, names, k))) + if m.Some? && m.value.key == k then multiset{Respelled(u, x)} else multiset{}
  {
    hide Match, Name;
    assert (names + [x])[..|names|] == names;
    var m := Match(u, x);
    if m.Some? && m.value.key == k {
      SpellAppend(k, ValuesOf(u, names, k), [Number(u, m.value.digits)]);
    } else {
      assert ValuesOf(u, names, k) + [] == ValuesOf(u, names, k);
    }
  }

  lemma {:induction false} GroupsRespell(u: DigitTable, names: seq<string>)
    ensures Groups(u, names, KeysOf(u, names)) + multiset(Unmatched(u, names)) == multiset(RespelledAll(u, names))
  {
    hide Groups, KeysOf, Unmatched, RespelledAll;
    if names == [] {
      NothingGrouped(u);
    } else {
      GroupsRespell(u, names[..|names| - 1]);
      GroupsStep(u, names[..|names| - 1], names[|names| - 1]);
      assert names == names[..|names| - 1] + [names[|names| - 1]];
    }
  }

  lemma NothingGrouped(u: DigitTable)
    ensures KeysOf(u, []) == [] && Unmatched(u, []) == [] && RespelledAll(u, []) == [] && Groups(u, [], []) == multiset{}
  {
  }

  lemma {:induction false} GroupsStep(u: DigitTable, init: seq<string>, x: string)
    requires Groups(u, init, KeysOf(u, init)) + multiset(Unmatched(u, init)) == multiset(RespelledAll(u, init))
    ensures var names := init + [x];
            Groups(u, names, KeysOf(u, names)) + multiset(Unmatched(u, names)) == multiset(RespelledAll(u, names))
  {
    hide Match, Name, Groups, RespelledAll, NoTwice;
    assert (init + [x])[..|init|] == init;
    RespelledSnoc(u, init, x);
    KeysOnce(u, init);
    GroupsGrow(u, init, x, KeysOf(u, init));
    NewGroup(u, init, x);
  }

  lemma RespelledSnoc(u: DigitTable, init: seq<string>, x: string)
    ensures RespelledAll(u, init + [x]) == RespelledAll(u, init) + [Respelled(u, x)]
  {
    hide Respelled;
  }

  /** A group met for the first time starts with this one name. */
  lemma {:induction false} NewGroup(u: DigitTable, init: seq<string>, x: string)
    ensures var m := Match(u, x);
            m.Some? && m.value.key !in KeysOf(u, init) ==>
              Groups(u, init + [x], KeysOf(u, init) + [m.value.key]) == Groups(u, init + [x], KeysOf(u, init)) + multiset{Respelled(u, x)}
  {
    hide Match, Name, Respelled;
    var m := Match(u, x);
    if m.Some? && m.value.key !in KeysOf(u, init) {
      var k := m.value.key;
      GroupsAppend(u, init + [x], KeysOf(u, init), [k]);
      assert [k][1..] == [];
      assert Groups(u, init + [x], [k]) == multiset(Spell(k, ValuesOf(u, init + [x], k))) + Groups(u, init + [x], []);
      NoValues(u, init, k);
      GroupGrows(u, init, x, k);
      SpellNothing(k);
    }
  }

  function Recovered(o: Output): multiset<string>
  {
    multiset(ExpandAll(o.ranges)) + multiset(o.passthrough)
  }

  lemma {:induction false} RecoveredRespelled(u: DigitTable, names: seq<string>)
    ensures Recovered(Compress(u, names)) == multiset(RespelledAll(u, Sort(LessEq, names)))
  {
    hide RangesOf, KeysOf, Unmatched, Sort, RespelledAll, Groups, ExpandAll;
    var sorted := Sort(LessEq, names);
    RangesSpell(u, sorted, Sort(KeyLessEq, KeysOf(u, sorted)));
    GroupsSort(u, sorted, KeysOf(u, sorted));
    GroupsRespell(u, sorted);
    SortPermutes(LessEq, Unmatched(u, sorted));
  }

  /** Every matching name is spelled in ASCII and has no newline behind it. */
  predicate AllPlain(u: DigitTable, names: seq<string>)
  {
    forall x :: x in names && Match(u, x).Some? ==> Plain(x)
  }

  lemma SortPlain(u: DigitTable, names: seq<string>)
    ensures AllPlain(u, Sort(LessEq, names)) <==> AllPlain(u, names)
  {
    hide Match, Plain, Sort;
    forall x: string ensures x in Sort(LessEq, names) <==> x in names {
      SameMembers(LessEq, names, x);
    }
  }

  lemma PlainRespelled(u: DigitTable, names: seq<string>)
    requires ValidTable(u) && AllPlain(u, names)
    ensures RespelledAll(u, names) == names
  {
    hide Match, Plain, Name;
    forall i | 0 <= i < |names| ensures Respelled(u, names[i]) == names[i] {
      assert names[i] in names;
      if Match(u, names[i]).Some? {
        PlainName(u, names[i]);
      }
    }
  }

  lemma OddNotRespelled(u: DigitTable, x: string, y: string)
    requires ValidTable(u) && Match(u, x).Some? && !Plain(x)
    ensures Respelled(u, y) != x
  {
    hide Match, Plain, Name;
    var m := Match(u, y);
    if m.Some? {
      NumberBound(u, y);
      NameMatches(u, m.value.key, Number(u, m.value.digits));
    }
  }

  /** Expanding the ranges and adding the names passed through gives back exactly the input, name for name and with
      repetitions, if and only if no matching name is written with non-ASCII digits or ends in a newline. */
  lemma {:induction false} Lossless(u: DigitTable, names: seq<string>)
    requires ValidTable(u)
    ensures Recovered(Compress(u, names)) == multiset(names) <==> AllPlain(u, names)
  {
    hide Match, Plain, Compress, Recovered, Respelled, Sort;
    var sorted := Sort(LessEq, names);
    RecoveredRespelled(u, names);
    SortPermutes(LessEq, names);
    SortPlain(u, names);
    if AllPlain(u, names) {
      PlainRespelled(u, sorted);
    } else {
      var x :| x in names && Match(u, x).Some? && !Plain(x);
      var r := RespelledAll(u, sorted);
      forall i | 0 <= i < |r| ensures r[i] != x {
        OddNotRespelled(u, x, sorted[i]);
      }
      assert x !in r;
      assert x in multiset(names) && x !in multiset(r);
    }
  }

  /** The ASCII digits and the Arabic-Indic ones, U+0660 to U+0669. */
  function ArabicIndic(c: char): Option<nat>
  {
    if Ascii(c) then Some(AsciiValue(c))
    else if '\U{0660}' <= c <= '\U{0669}' then Some(c as int - 0x660)
    else None
  }

  lemma OneRecovered(u: DigitTable, x: string)
    ensures Recovered(Compress(u, [x])) == multiset{Respelled(u, x)}
  {
    hide Respelled, Recovered, Compress;
    RecoveredRespelled(u, [x]);
    assert [x][1..] == [];
    assert Sort(LessEq, [x]) == [x];
    assert RespelledAll(u, [x]) == [Respelled(u, x)];
  }

  lemma Spelled(u: DigitTable, k: Key, d: string)
    requires ValidKey(u, k) && |d| == NUMBER_LEN && AllDigits(u, d)
    ensures var x, t := k.prefix + d + k.suffix, Some(Tv(k, d));
            Match(u, x) == t && Match(u, x + "\n") == t
  {
    PrefixLength(k);
    SuffixEnds(u, k.suffix);
    var x := k.prefix + d + k.suffix;
    assert x[..PREFIX_LEN] == k.prefix && x[PREFIX_LEN..PREFIX_LEN + NUMBER_LEN] == d && x[PREFIX_LEN + NUMBER_LEN..] == k.suffix;
    assert x[|x| - 1] == k.suffix[|k.suffix| - 1];
    assert Body(x) == x && Body(x + "\n") == x;
  }

  lemma NumberThree(u: DigitTable, c: char)
    requires ValidTable(u) && u(c) == Some(3)
    ensures AllDigits(u, "000" + [c]) && Number(u, "000" + [c]) == 3
  {
    assert Ascii('0') && AsciiValue('0') == 0;
    assert "0"[..0] == "" && "00"[..1] == "0" && "000"[..2] == "00" && ("000" + [c])[..3] == "000";
    assert Number(u, "0") == 10 * Number(u, "");
    assert Number(u, "00") == 10 * Number(u, "0");
    assert Number(u, "000") == 10 * Number(u, "00");
  }

  lemma SpelledRecovered(u: DigitTable, k: Key, d: string)
    requires ValidTable(u) && ValidKey(u, k) && |d| == NUMBER_LEN && AllDigits(u, d) && Number(u, d) == 3
    ensures var x, name := k.prefix + d + k.suffix, k.prefix + "0003" + k.suffix;
            && Recovered(Compress(u, [x])) == multiset{name}
            && Recovered(Compress(u, [x + "\n"])) == multiset{name}
  {
    hide Recovered, Compress, Match, ValidKey;
    var x := k.prefix + d + k.suffix;
    Spelled(u, k, d);
    NumberThree(u, '3');
    DigitsOfNumber(u, "000" + ['3']);
    OneRecovered(u, x);
    OneRecovered(u, x + "\n");
    assert "0003" == "000" + ['3'];
  }

  lemma ArabicIndicValid()
    ensures ValidTable(ArabicIndic) && ArabicIndic('\U{0663}') == Some(3)
  {
  }

  lemma SuffixOfZero(u: DigitTable)
    requires ValidTable(u)
    ensures IsSuffix(u, "_gNB_FAPI_s0.h5")
  {
    var s := "_gNB_FAPI_s0.h5";
    assert s[..11] == SUFFIX_HEAD && s[12..] == SUFFIX_TAIL && s[11..12] == "0";
    assert Ascii('0');
  }

  /** Two names that come back as another: one written with an Arabic-Indic digit, one with a newline behind it. */
  lemma {:induction false} LostNames(u: DigitTable)
    requires ValidTable(u)
    ensures var suffix := "_gNB_FAPI_s0.h5";
            var name, odd := DL_PREFIX + "0003" + suffix, DL_PREFIX + ("000" + ['\U{0663}']) + suffix;
            && ValidTable(ArabicIndic)
            && Recovered(Compress(ArabicIndic, [odd])) == multiset{name} && name != odd
            && Recovered(Compress(u, [name + "\n"])) == multiset{name} && name != name + "\n"
  {
    assert Ascii('3');
    NumberThree(u, '3');
    hide Recovered, Compress, IsSuffix, ValidTable, AllDigits, Number, ArabicIndic;
    var k := Key(DL_PREFIX, "_gNB_FAPI_s0.h5");
    ArabicIndicValid();
    SuffixOfZero(u);
    SuffixOfZero(ArabicIndic);
    NumberThree(ArabicIndic, '\U{0663}');
    assert "0003" == "000" + ['3'];
    SpelledRecovered(u, k, "0003");
    SpelledRecovered(ArabicIndic, k, "000" + ['\U{0663}']);
    OtherDigit(DL_PREFIX, "000", '3', '\U{0663}', k.suffix);
    assert |DL_PREFIX + "0003" + k.suffix + "\n"| == |DL_PREFIX + "0003" + k.suffix| + 1;
  }

  lemma OtherDigit(prefix: string, digits: string, c: char, d: char, suffix: string)
    requires c != d
    ensures prefix + (digits + [c]) + suffix != prefix + (digits + [d]) + suffix
  {
    var x, y, n := prefix + (digits + [c]) + suffix, prefix + (digits + [d]) + suffix, |prefix| + |digits|;
    assert x[n] == c && y[n] == d;
  }

  // ---------------------------------------------------------------- as few ranges as possible

  /** The runs of one group, as they stand in the output. */
  function RunsIn(rs: seq<Range>, k: Key): seq<Run>
  {
    if rs == [] then []
    else RunsIn(rs[..|rs| - 1], k) + if rs[|rs| - 1].key == k then [rs[|rs| - 1].run] else []
  }

  lemma {:induction false} RunsInAppend(a: seq<Range>, b: seq<Range>, k: Key)
    ensures RunsIn(a + b, k) == RunsIn(a, k) + RunsIn(b, k)
  {
    if b == [] {
      assert a + b == a;
    } else {
      assert (a + b)[..|a + b| - 1] == a + b[..|b| - 1];
      RunsInAppend(a, b[..|b| - 1], k);
    }
  }

  lemma {:induction false} RunsInGroup(g: Key, rs: seq<Run>, k: Key)
    ensures RunsIn(InKey(g, rs), k) == if g == k then rs else []
  {
    if rs != [] {
      var n := |rs| - 1;
      RunsInGroup(g, rs[..n], k);
      assert InKey(g, rs)[..n] == InKey(g, rs[..n]);
    }
  }

  lemma {:induction false} RunsInRanges(u: DigitTable, names: seq<string>, keys: seq<Key>, k: Key)
    requires NoTwice(keys)
    ensures RunsIn(RangesOf(u, names, keys), k) == if k in keys then Runs(ValuesOf(u, names, k)) else []
  {
    hide Runs, ValuesOf, InKey, RunsIn, RangesOf;
    if keys != [] {
      var n := |keys| - 1;
      RunsInRanges(u, names, keys[..n], k);
      LastRanges(u, names, keys);
      RunsInAppend(RangesOf(u, names, keys[..n]), InKey(keys[n], Runs(ValuesOf(u, names, keys[n]))), k);
      RunsInGroup(keys[n], Runs(ValuesOf(u, names, keys[n])), k);
      assert k in keys <==> k in keys[..n] || k == keys[n];
      assert k in keys[..n] ==> k != keys[n];
    } else {
      NoRanges(u, names, k);
    }
  }

  lemma LastRanges(u: DigitTable, names: seq<string>, keys: seq<Key>)
    requires keys != []
    ensures var n := |keys| - 1;
            RangesOf(u, names, keys) == RangesOf(u, names, keys[..n]) + InKey(keys[n], Runs(ValuesOf(u, names, keys[n])))
  {
  }

  lemma NoRanges(u: DigitTable, names: seq<string>, k: Key)
    ensures RunsIn(RangesOf(u, names, []), k) == []
  {
  }

  /** The runs printed for a group are the runs of its numbers, taken in the order of the sorted names. */
  lemma GroupRuns(u: DigitTable, names: seq<string>, k: Key)
    ensures RunsIn(Compress(u, names).ranges, k) == Runs(ValuesOf(u, Sort(LessEq, names), k))
  {
    hide Runs, ValuesOf, KeysOf, Sort, NoTwice, RangesOf, RunsIn;
    var sorted := Sort(LessEq, names);
    var keys := KeysOf(u, sorted);
    KeysOnce(u, sorted);
    SortOnce(keys);
    RunsInRanges(u, sorted, Sort(KeyLessEq, keys), k);
    SameMembers(KeyLessEq, keys, k);
    NoValues(u, sorted, k);
    NoRuns();
  }

  lemma NoRuns()
    ensures Runs([]) == []
  {
  }

  lemma {:induction false} OnceCounted(keys: seq<Key>)
    ensures NoTwice(keys) <==> forall k :: multiset(keys)[k] <= 1
  {
    if keys != [] {
      var n := |keys| - 1;
      OnceCounted(keys[..n]);
      assert keys == keys[..n] + [keys[n]];
      assert multiset(keys) == multiset(keys[..n]) + multiset{keys[n]};
      if forall k :: multiset(keys)[k] <= 1 {
        forall k ensures multiset(keys[..n])[k] <= 1 {
          assert multiset(keys)[k] <= 1;
        }
        assert multiset(keys)[keys[n]] <= 1;
        assert keys[n] !in keys[..n];
      }
      if NoTwice(keys) {
        assert keys[n] !in keys[..n];
      }
    }
  }

  lemma SortOnce(keys: seq<Key>)
    requires NoTwice(keys)
    ensures NoTwice(Sort(KeyLessEq, keys))
  {
    hide NoTwice, Sort;
    OnceCounted(keys);
    OnceCounted(Sort(KeyLessEq, keys));
    SortPermutes(KeyLessEq, keys);
  }

  // ---------------------------------------------------------------- sorted names have sorted numbers

  lemma {:induction false} LessEqIsOrder()
    ensures TotalOrder(LessEq)
  {
    forall a: string, b: string ensures LessEq(a, b) || LessEq(b, a) {
      LessEqTotal(a, b);
    }
    forall a: string, b: string, c: string | LessEq(a, b) && LessEq(b, c) ensures LessEq(a, c) {
      LessEqTransitive(a, b, c);
    }
  }

  // ---------------------------------------------------------------- the order of the output

  /** The order of groups: by prefix, then by suffix. */
  ghost predicate KeyBefore(a: Key, b: Key)
  {
    Before(a.prefix, b.prefix) || (a.prefix == b.prefix && Before(a.suffix, b.suffix))
  }

  lemma KeyLessEqIsBefore(a: Key, b: Key)
    ensures KeyLessEq(a, b) <==> a == b || KeyBefore(a, b)
  {
    hide Before, LessEq;
    LessEqIsBefore(a.prefix, b.prefix);
    LessEqIsBefore(a.suffix, b.suffix);
    NeverBeforeItself(a.prefix);
  }

  lemma NeverBeforeItself(a: string)
    ensures !Before(a, a)
  {
  }

  lemma KeyLessEqItself(k: Key)
    ensures KeyLessEq(k, k)
  {
    hide LessEq;
    LessEqTotal(k.suffix, k.suffix);
  }

  lemma KeyLessEqIsOrder()
    ensures TotalOrder(KeyLessEq)
  {
    hide LessEq;
    forall a: Key, b: Key ensures KeyLessEq(a, b) || KeyLessEq(b, a) {
      LessEqTotal(a.prefix, b.prefix);
      LessEqTotal(a.suffix, b.suffix);
    }
    forall a: Key, b: Key, c: Key | KeyLessEq(a, b) && KeyLessEq(b, c) ensures KeyLessEq(a, c) {
      KeyLessEqTransitive(a, b, c);
    }
  }

  lemma KeyLessEqTransitive(a: Key, b: Key, c: Key)
    requires KeyLessEq(a, b) && KeyLessEq(b, c)
    ensures KeyLessEq(a, c)
  {
    hide LessEq;
    if a.prefix == b.prefix == c.prefix {
      LessEqTransitive(a.suffix, b.suffix, c.suffix);
    } else if a.prefix == c.prefix {
      LessEqBoth(a.prefix, b.prefix);
    } else if a.prefix != b.prefix && b.prefix != c.prefix {
      LessEqTransitive(a.prefix, b.prefix, c.prefix);
    }
  }

  lemma {:induction false} LessEqBoth(a: string, b: string)
    requires LessEq(a, b) && LessEq(b, a)
    ensures a == b
  {
    if a != [] {
      LessEqBoth(a[1..], b[1..]);
      assert a == [a[0]] + a[1..] && b == [b[0]] + b[1..];
    }
  }

  lemma {:induction false} RangesInKeys(u: DigitTable, names: seq<string>, keys: seq<Key>, i: nat)
    requires i < |RangesOf(u, names, keys)|
    ensures RangesOf(u, names, keys)[i].key in keys
  {
    hide Runs, ValuesOf;
    var n := |keys| - 1;
    if i < |RangesOf(u, names, keys[..n])| {
      RangesInKeys(u, names, keys[..n], i);
    }
  }

  predicate InKeyOrder(rs: seq<Range>)
  {
    forall i, j :: 0 <= i < j < |rs| ==> KeyLessEq(rs[i].key, rs[j].key)
  }

  lemma InKeyOrderAppend(a: seq<Range>, k: Key, runs: seq<Run>)
    requires InKeyOrder(a) && forall i :: 0 <= i < |a| ==> KeyLessEq(a[i].key, k)
    ensures InKeyOrder(a + InKey(k, runs))
  {
    hide KeyLessEq;
    KeyLessEqItself(k);
    var rs := a + InKey(k, runs);
    forall i, j | 0 <= i < j < |rs| ensures KeyLessEq(rs[i].key, rs[j].key) {
      if j < |a| {
        assert rs[i] == a[i] && rs[j] == a[j];
      } else {
        assert rs[j].key == k;
        assert i < |a| ==> rs[i] == a[i];
      }
    }
  }

  lemma {:induction false} RangesOrdered(u: DigitTable, names: seq<string>, keys: seq<Key>)
    requires Ordered(KeyLessEq, keys)
    ensures InKeyOrder(RangesOf(u, names, keys))
  {
    hide Runs, ValuesOf, KeyLessEq, InKeyOrder, InKey;
    if keys == [] {
      NothingOrdered();
    } else {
      var n := |keys| - 1;
      var init := RangesOf(u, names, keys[..n]);
      RangesOrdered(u, names, keys[..n]);
      forall i | 0 <= i < |init| ensures KeyLessEq(init[i].key, keys[n]) {
        RangesInKeys(u, names, keys[..n], i);
        var m :| 0 <= m < n && keys[..n][m] == init[i].key;
        assert KeyLessEq(keys[m], keys[n]);
      }
      InKeyOrderAppend(init, keys[n], Runs(ValuesOf(u, names, keys[n])));
    }
  }

  lemma NothingOrdered()
    ensures InKeyOrder([])
  {
  }

  /** The ranges come out group by group, groups in dictionary order of prefix and then of suffix; the names passed through
      follow in dictionary order. */
  lemma OutputInOrder(u: DigitTable, names: seq<string>)
    ensures var rs := Compress(u, names).ranges;
            forall i, j :: 0 <= i < j < |rs| ==> rs[i].key == rs[j].key || KeyBefore(rs[i].key, rs[j].key)
    ensures var xs := Compress(u, names).passthrough;
            forall i, j :: 0 <= i < j < |xs| ==> xs[i] == xs[j] || Before(xs[i], xs[j])
  {
    hide Sort, KeysOf, RangesOf, Unmatched, LessEq, KeyLessEq, KeyBefore, Before;
    var sorted := Sort(LessEq, names);
    var keys := Sort(KeyLessEq, KeysOf(u, sorted));
    KeyLessEqIsOrder();
    SortOrders(KeyLessEq, KeysOf(u, sorted));
    RangesOrdered(u, sorted, keys);
    LessEqIsOrder();
    SortOrders(LessEq, Unmatched(u, sorted));
    var rs, xs := RangesOf(u, sorted, keys), Sort(LessEq, Unmatched(u, sorted));
    forall i, j | 0 <= i < j < |rs| ensures rs[i].key == rs[j].key || KeyBefore(rs[i].key, rs[j].key) {
      assert KeyLessEq(rs[i].key, rs[j].key);
      KeyLessEqIsBefore(rs[i].key, rs[j].key);
    }
    forall i, j | 0 <= i < j < |xs| ensures xs[i] == xs[j] || Before(xs[i], xs[j]) {
      LessEqIsBefore(xs[i], xs[j]);
    }
  }

  lemma {:induction false} OrderInGroup(u: DigitTable, x: string, y: string)
    requires ValidTable(u) && Match(u, x).Some? && Match(u, y).Some? && Plain(x) && Plain(y)
    requires Match(u, x).value.key == Match(u, y).value.key && LessEq(x, y)
    ensures Number(u, Match(u, x).value.digits) <= Number(u, Match(u, y).value.digits)
  {
    hide Match, Plain, LessEq;
    var a, b := Match(u, x).value, Match(u, y).value;
    PlainName(u, x);
    PlainName(u, y);
    var p, s := a.key.prefix, a.key.suffix;
    assert x == p + (a.digits + s) && y == p + (b.digits + s);
    LessEqPrefix(p, a.digits + s, b.digits + s);
    LessEqSuffix(a.digits, b.digits, s);
    OrderOfNumbers(u, a.digits, b.digits);
  }

  /** Every number of a group comes from a name of the list. */
  lemma {:induction false} ValueFrom(u: DigitTable, names: seq<string>, k: Key, i: nat) returns (j: nat)
    requires i < |ValuesOf(u, names, k)|
    ensures j < |names|
    ensures var m := Match(u, names[j]); m.Some? && m.value.key == k && Number(u, m.value.digits) == ValuesOf(u, names, k)[i]
  {
    hide Match;
    var n := |names| - 1;
    if i < |ValuesOf(u, names[..n], k)| {
      j := ValueFrom(u, names[..n], k, i);
    } else {
      j := n;
    }
  }

  lemma {:induction false} ValuesSorted(u: DigitTable, names: seq<string>, k: Key)
    requires ValidTable(u) && AllPlain(u, names) && Ordered(LessEq, names)
    ensures NonDecreasing(ValuesOf(u, names, k))
  {
    hide Match, Plain, LessEq;
    if names != [] {
      var n := |names| - 1;
      var init, x := names[..n], names[n];
      assert forall y :: y in init ==> y in names;
      ValuesSorted(u, init, k);
      var vs := ValuesOf(u, init, k);
      var m := Match(u, x);
      if m.Some? && m.value.key == k {
        forall i | 0 <= i < |vs| ensures vs[i] <= Number(u, m.value.digits) {
          var j := ValueFrom(u, init, k, i);
          assert init[j] in names && x in names;
          assert names[j] == init[j];
          assert LessEq(names[j], names[n]);
          OrderInGroup(u, init[j], x);
        }
      }
    }
  }

  // ---------------------------------------------------------------- repeated names are repeated numbers

  lemma {:induction false} TimesNamed(u: DigitTable, names: seq<string>, k: Key, v: nat)
    requires ValidTable(u) && AllPlain(u, names) && ValidKey(u, k) && v < 10000
    ensures multiset(ValuesOf(u, names, k))[v] == multiset(names)[Name(k, v)]
  {
    hide Match, Plain, Name, ValidKey;
    if names != [] {
      var n := |names| - 1;
      var init, x := names[..n], names[n];
      assert names == init + [x];
      assert forall y :: y in init ==> y in names;
      assert x in names;
      TimesNamed(u, init, k, v);
      NamedOnce(u, x, k, v);
    }
  }

  lemma NamedOnce(u: DigitTable, x: string, k: Key, v: nat)
    requires ValidTable(u) && ValidKey(u, k) && v < 10000 && (Match(u, x).Some? ==> Plain(x))
    ensures var m := Match(u, x); m.Some? && m.value.key == k && Number(u, m.value.digits) == v <==> x == Name(k, v)
  {
    hide Match, Plain, Name, ValidKey;
    NameMatches(u, k, v);
    if Match(u, x).Some? {
      PlainName(u, x);
    }
  }

  lemma {:induction false} DistinctCounted(vs: seq<nat>)
    ensures Distinct(vs) <==> forall v: nat :: multiset(vs)[v] <= 1
  {
    if vs != [] {
      var n := |vs| - 1;
      DistinctCounted(vs[..n]);
      assert vs == vs[..n] + [vs[n]];
      assert multiset(vs) == multiset(vs[..n]) + multiset{vs[n]};
      if forall v: nat :: multiset(vs)[v] <= 1 {
        forall v: nat ensures multiset(vs[..n])[v] <= 1 {
          assert multiset(vs)[v] <= 1;
        }
        assert multiset(vs)[vs[n]] <= 1;
        assert vs[n] !in vs[..n];
      }
      if Distinct(vs) {
        assert vs[n] !in vs[..n];
      }
    }
  }

  /** No name of the group is listed twice. */
  ghost predicate ListedOnce(u: DigitTable, names: seq<string>, k: Key)
  {
    forall x: string :: Match(u, x).Some? && Match(u, x).value.key == k ==> multiset(names)[x] <= 1
  }

  lemma {:induction false} DistinctListedOnce(u: DigitTable, names: seq<string>, k: Key)
    requires ValidTable(u) && AllPlain(u, names) && ValidKey(u, k)
    ensures Distinct(ValuesOf(u, names, k)) <==> ListedOnce(u, names, k)
  {
    hide Match, Plain, Name, ValidKey, Distinct;
    var vs := ValuesOf(u, names, k);
    DistinctCounted(vs);
    if ListedOnce(u, names, k) {
      forall v: nat ensures multiset(vs)[v] <= 1 {
        if v in vs {
          var i :| 0 <= i < |vs| && vs[i] == v;
          var j := ValueFrom(u, names, k, i);
          NumberBound(u, names[j]);
          NameMatches(u, k, v);
          TimesNamed(u, names, k, v);
        }
      }
    }
    if Distinct(vs) {
      forall x: string | Match(u, x).Some? && Match(u, x).value.key == k ensures multiset(names)[x] <= 1 {
        if x in names {
          NumberBound(u, x);
          PlainName(u, x);
          TimesNamed(u, names, k, Number(u, Match(u, x).value.digits));
        }
      }
    }
  }

  lemma InvalidKey(u: DigitTable, names: seq<string>, k: Key)
    requires !ValidKey(u, k)
    ensures ValuesOf(u, names, k) == [] && ListedOnce(u, names, k)
  {
    hide Match, ValidKey;
    NoValues(u, names, k);
    NoKey(u, names, k);
  }

  lemma {:induction false} NoKey(u: DigitTable, names: seq<string>, k: Key)
    requires !ValidKey(u, k)
    ensures k !in KeysOf(u, names)
  {
    hide Match, ValidKey;
    if names != [] {
      NoKey(u, names[..|names| - 1], k);
    }
  }

  /** Among plain names the conditions on a group's numbers come to this: no name of the group is listed twice. */
  lemma PlainConditions(u: DigitTable, names: seq<string>, k: Key)
    requires ValidTable(u) && AllPlain(u, names)
    ensures var vs := ValuesOf(u, Sort(LessEq, names), k);
            && (Increasing(vs) <==> ListedOnce(u, names, k))
            && (Distinct(vs) && Followed(vs) <==> ListedOnce(u, names, k))
  {
    hide Match, Plain, Sort, ValuesOf, AllPlain, Ordered, NonDecreasing, Increasing, Distinct, Followed, ValidKey, KeysOf;
    var sorted := Sort(LessEq, names);
    SortPlain(u, names);
    LessEqIsOrder();
    SortOrders(LessEq, names);
    SortPermutes(LessEq, names);
    ValuesSorted(u, sorted, k);
    SortedConditions(ValuesOf(u, sorted, k));
    if ValidKey(u, k) {
      DistinctListedOnce(u, sorted, k);
    } else {
      InvalidKey(u, sorted, k);
      NothingListed();
    }
  }

  lemma NothingListed()
    ensures Distinct([])
  {
  }

  ghost predicate FewestRuns(rs: seq<Run>)
  {
    forall c: seq<Run> :: SameCover(c, rs) ==> |rs| <= |c|
  }

  /** The ranges printed for a group are sorted, disjoint and never next to each other if and only if the group's numbers,
      in the order of the sorted names, strictly increase. No list of ranges covering exactly these numbers is shorter if
      and only if no number comes twice and every one whose successor comes too is directly followed by it. Among plain
      names each says that no name of the group is listed twice. */
  lemma FewestRanges(u: DigitTable, names: seq<string>, k: Key)
    requires ValidTable(u)
    ensures var rs, vs := RunsIn(Compress(u, names).ranges, k), ValuesOf(u, Sort(LessEq, names), k);
            && (Separated(rs) <==> Increasing(vs))
            && (FewestRuns(rs) <==> Distinct(vs) && Followed(vs))
            && (AllPlain(u, names) ==> (Separated(rs) <==> ListedOnce(u, names, k)) && (FewestRuns(rs) <==> ListedOnce(u, names, k)))
  {
    hide Match, Sort, Compress, ValuesOf, Runs, RunsIn, AllPlain, Increasing, Distinct, Followed, Separated, SameCover, Covers, ListedOnce;
    var vs := ValuesOf(u, Sort(LessEq, names), k);
    GroupRuns(u, names, k);
    if AllPlain(u, names) {
      PlainConditions(u, names, k);
    }
    SeparatedExactly(vs);
    FewestExactly(vs);
    RunsCover(vs);
    forall c: seq<Run> ensures Covers(c, vs) <==> SameCover(c, Runs(vs)) {
      SameCoverOf(c, Runs(vs), vs);
    }
  }
}
