/** `compress_tv_names`: test-vector names grouped by prefix and suffix, their numbers compressed into ranges, and
    everything else passed through. */
module NameCompression {
  import opened Wire
  import opened Sorting
  import opened TvNames
  import opened RangeCompression

  datatype Range = Range(key: Key, run: Run)

  datatype Output = Output(ranges: seq<Range>, passthrough: seq<string>)

  // ---------------------------------------------------------------- grouping

  /** Python's order of the pairs (prefix, suffix). */
  predicate KeyLessEq(a: Key, b: Key)
  {
    if a.prefix == b.prefix then LessEq(a.suffix, b.suffix) else LessEq(a.prefix, b.prefix)
  }

  /** The numbers of one group, in the order the names come in. */
  function ValuesOf(u: DigitTable, names: seq<string>, k: Key): seq<nat>
  {
    if names == [] then []
    else
      var m := Match(u, names[|names| - 1]);
      ValuesOf(u, names[..|names| - 1], k) + if m.Some? && m.value.key == k then [Number(u, m.value.digits)] else []
  }

  /** The groups, in the order they first appear. */
  function KeysOf(u: DigitTable, names: seq<string>): seq<Key>
  {
    if names == [] then []
    else
      var ks := KeysOf(u, names[..|names| - 1]);
      var m := Match(u, names[|names| - 1]);
      if m.Some? && m.value.key !in ks then ks + [m.value.key] else ks
  }

  function Unmatched(u: DigitTable, names: seq<string>): seq<string>
  {
    if names == [] then []
    else
      var x := names[|names| - 1];
      Unmatched(u, names[..|names| - 1]) + if Match(u, x).None? then [x] else []
  }

  // ---------------------------------------------------------------- the output

  function InKey(k: Key, rs: seq<Run>): (r: seq<Range>)
    ensures |r| == |rs|
  {
    seq(|rs|, i requires 0 <= i < |rs| => Range(k, rs[i]))
  }

  function RangesOf(u: DigitTable, names: seq<string>, keys: seq<Key>): seq<Range>
  {
    if keys == [] then []
    else
      var k := keys[|keys| - 1];
      RangesOf(u, names, keys[..|keys| - 1]) + InKey(k, Runs(ValuesOf(u, names, k)))
  }

  function Compress(u: DigitTable, names: seq<string>): Output
  {
    var sorted := Sort(LessEq, names);
    Output(RangesOf(u, sorted, Sort(KeyLessEq, KeysOf(u, sorted))), Sort(LessEq, Unmatched(u, sorted)))
  }

  /** render_range. */
  function Render(r: Range): string
  {
    if r.run.start == r.run.end
    then r.key.prefix + Digits(r.run.start, NUMBER_LEN) + r.key.suffix
    else r.key.prefix + Digits(r.run.start, NUMBER_LEN) + ".." + Digits(r.run.end, NUMBER_LEN) + r.key.suffix
  }

  function RenderAll(rs: seq<Range>): (lines: seq<string>)
    ensures |lines| == |rs|
  {
    seq(|rs|, i requires 0 <= i < |rs| => Render(rs[i]))
  }

  function Lines(o: Output): seq<string>
  {
    RenderAll(o.ranges) + o.passthrough
  }

  lemma RenderAllAppend(a: seq<Range>, b: seq<Range>)
    ensures RenderAll(a + b) == RenderAll(a) + RenderAll(b)
  {
    hide Render;
  }

  // ---------------------------------------------------------------- the loops

  /** The inner loop: one group. */
  method CompressGroup(k: Key, values: seq<nat>) returns (lines: seq<string>)
    requires values != []
    ensures lines == RenderAll(InKey(k, Runs(values)))
  {
    hide Render, Runs, Push;
    lines := [];
    var start, prev := values[0], values[0];
    ghost var rs := FirstRun(values);
    var i := 1;
    while i < |values|
      invariant 1 <= i <= |values|
      invariant rs == Runs(values[..i]) && rs != [] && rs[|rs| - 1] == Run(start, prev)
      invariant lines == RenderAll(InKey(k, rs[..|rs| - 1]))
    {
      var value := values[i];
      NextRun(values, i);
      PushSplits(rs, value);
      if value == prev + 1 {
        prev := value;
      } else {
        LinesSnoc(k, rs[..|rs| - 1], rs[|rs| - 1]);
        assert rs == rs[..|rs| - 1] + [rs[|rs| - 1]];
        lines := lines + [Render(Range(k, Run(start, prev)))];
        start, prev := value, value;
      }
      rs := Push(rs, value);
      i := i + 1;
    }
    LinesSnoc(k, rs[..|rs| - 1], rs[|rs| - 1]);
    assert rs == rs[..|rs| - 1] + [rs[|rs| - 1]] && values[..i] == values;
    lines := lines + [Render(Range(k, Run(start, prev)))];
  }

  lemma FirstRun(values: seq<nat>) returns (rs: seq<Run>)
    requires values != []
    ensures rs == Runs(values[..1]) == [Run(values[0], values[0])]
  {
    rs := Runs(values[..1]);
    assert values[..1][..0] == [];
    assert Runs([]) == [];
  }

  lemma NextRun(values: seq<nat>, i: nat)
    requires i < |values|
    ensures Runs(values[..i + 1]) == Push(Runs(values[..i]), values[i])
  {
    assert values[..i + 1][..i] == values[..i];
  }

  lemma PushSplits(rs: seq<Run>, v: nat)
    requires rs != []
    ensures var n, p := |rs| - 1, Push(rs, v);
            if v == rs[n].end + 1 then p[..|p| - 1] == rs[..n] && p[|p| - 1] == Run(rs[n].start, v)
            else p[..|p| - 1] == rs && p[|p| - 1] == Run(v, v)
  {
  }

  lemma LinesSnoc(k: Key, rs: seq<Run>, r: Run)
    ensures RenderAll(InKey(k, rs + [r])) == RenderAll(InKey(k, rs)) + [Render(Range(k, r))]
  {
    hide Render;
  }

  /** The grouping loop: the dictionary (with its insertion order) and the names that do not match. */
  method Group(u: DigitTable, names: seq<string>) returns (grouped: map<Key, seq<nat>>, order: seq<Key>, passthrough: seq<string>)
    ensures order == KeysOf(u, names) && passthrough == Unmatched(u, names)
    ensures forall k :: k in grouped <==> k in order
    ensures forall k :: k in grouped ==> grouped[k] == ValuesOf(u, names, k) && grouped[k] != []
  {
    hide Match;
    grouped, order, passthrough := map[], [], [];
    var i := 0;
    while i < |names|
      invariant 0 <= i <= |names|
      invariant order == KeysOf(u, names[..i]) && passthrough == Unmatched(u, names[..i])
      invariant forall k :: k in grouped <==> k in order
      invariant forall k :: k in grouped ==> grouped[k] == ValuesOf(u, names[..i], k) && grouped[k] != []
    {
      var m := Match(u, names[i]);
      forall k | k !in grouped ensures ValuesOf(u, names[..i], k) == [] {
        NoValues(u, names[..i], k);
      }
      assert names[..i + 1][..i] == names[..i];
      if m.None? {
        passthrough := passthrough + [names[i]];
      } else {
        var key := m.value.key;
        if key !in grouped {
          grouped, order := grouped[key := []], order + [key];
        }
        grouped := grouped[key := grouped[key] + [Number(u, m.value.digits)]];
      }
      i := i + 1;
    }
    assert names[..i] == names;
  }

  lemma {:induction false} NoValues(u: DigitTable, names: seq<string>, k: Key)
    ensures k !in KeysOf(u, names) <==> ValuesOf(u, names, k) == []
  {
    hide Match;
    if names != [] {
      NoValues(u, names[..|names| - 1], k);
    }
  }

  /** compress_tv_names. */
  method CompressTvNames(u: DigitTable, names: seq<string>) returns (compressed: seq<string>)
    ensures compressed == Lines(Compress(u, names))
    ensures var o := Compress(u, names);
            && |compressed| == |o.ranges| + |o.passthrough| && compressed[|o.ranges|..] == o.passthrough
            && forall i :: 0 <= i < |o.ranges| ==> compressed[i] == Render(o.ranges[i])
  {
    hide Match, Runs, InKey, RenderAll, ValuesOf, KeysOf, Unmatched, Insert, Sort;
    var sorted := Sort(LessEq, names);
    var grouped, order, passthrough := Group(u, sorted);
    var keys := Sort(KeyLessEq, order);
    compressed := [];
    Nothing(u, sorted);
    assert keys[..0] == [];
    var i := 0;
    while i < |keys|
      invariant 0 <= i <= |keys|
      invariant compressed == RenderAll(RangesOf(u, sorted, keys[..i]))
    {
      SameMembers(KeyLessEq, order, keys[i]);
      assert keys[i] in keys;
      var lines := CompressGroup(keys[i], grouped[keys[i]]);
      RenderAllAppend(RangesOf(u, sorted, keys[..i]), InKey(keys[i], Runs(ValuesOf(u, sorted, keys[i]))));
      assert keys[..i + 1][..i] == keys[..i];
      compressed := compressed + lines;
      i := i + 1;
    }
    assert keys[..i] == keys;
    compressed := compressed + Sort(LessEq, passthrough);
    LinesParts(Compress(u, names));
  }

  lemma LinesParts(o: Output)
    ensures |Lines(o)| == |o.ranges| + |o.passthrough| && Lines(o)[|o.ranges|..] == o.passthrough
    ensures forall i :: 0 <= i < |o.ranges| ==> Lines(o)[i] == Render(o.ranges[i])
  {
    hide Render;
  }

  lemma Nothing(u: DigitTable, names: seq<string>)
    ensures RenderAll(RangesOf(u, names, [])) == []
  {
  }
}
