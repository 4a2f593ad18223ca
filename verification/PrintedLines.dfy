/** Reading the printed lines of the compressed list back into names. */
module PrintedLines {
  import opened Wire
  import opened Sorting
  import opened TvNames
  import opened RangeCompression
  import opened NameCompression
  import opened CompressionTheorems

  const DOTS: string := ".."

  /** A line of the form `<prefix>dddd..dddd<suffix>`. */
  predicate IsRangeText(u: DigitTable, s: string)
  {
    && 21 <= |s|
    && IsPrefix(s[..11])
    && AllAscii(s[11..15]) && s[15..17] == DOTS && AllAscii(s[17..21])
    && IsSuffix(u, s[21..])
  }

  /** What a reader of the list makes of one line. */
  function ReadLine(u: DigitTable, s: string): seq<string>
    requires ValidTable(u)
  {
    if IsRangeText(u, s)
    then
      AsciiAreDigits(u, s[11..15]);
      AsciiAreDigits(u, s[17..21]);
      ExpandRange(Range(Key(s[..11], s[21..]), Run(Number(u, s[11..15]), Number(u, s[17..21]))))
    else [s]
  }

  function ReadLines(u: DigitTable, lines: seq<string>): seq<string>
    requires ValidTable(u)
  {
    if lines == [] then [] else ReadLines(u, lines[..|lines| - 1]) + ReadLine(u, lines[|lines| - 1])
  }

  lemma {:induction false} ReadAppend(u: DigitTable, a: seq<string>, b: seq<string>)
    requires ValidTable(u)
    ensures ReadLines(u, a + b) == ReadLines(u, a) + ReadLines(u, b)
  {
    hide ReadLine, ValidTable;
    if b == [] {
      assert a + b == a;
    } else {
      assert (a + b)[..|a + b| - 1] == a + b[..|b| - 1];
      ReadAppend(u, a, b[..|b| - 1]);
    }
  }

  predicate ValidRange(u: DigitTable, r: Range)
  {
    ValidKey(u, r.key) && r.run.start <= r.run.end < 10000
  }

  lemma NameIsNoRange(u: DigitTable, k: Key, v: nat)
    requires ValidKey(u, k) && v < 10000
    ensures !IsRangeText(u, Name(k, v))
  {
    PowerOfFour();
    DigitsWidth(v, NUMBER_LEN);
    PrefixLength(k);
    var s := Name(k, v);
    assert s[15..] == k.suffix;
    assert s[15] == k.suffix[..11][0] == '_';
    assert |s| >= 17 ==> s[15] == s[15..17][0];
  }

  /** A printed range reads back as the names it stands for. */
  lemma ReadRendered(u: DigitTable, r: Range)
    requires ValidTable(u) && ValidRange(u, r)
    ensures ReadLine(u, Render(r)) == ExpandRange(r)
  {
    var k, a, b := r.key, r.run.start, r.run.end;
    if a == b {
      NameIsNoRange(u, k, a);
      OneValue(a);
    } else {
      PowerOfFour();
      DigitsWidth(a, NUMBER_LEN);
      DigitsWidth(b, NUMBER_LEN);
      PrefixLength(k);
      NumberOfDigits(u, a, NUMBER_LEN);
      NumberOfDigits(u, b, NUMBER_LEN);
      Pieces(k.prefix, Digits(a, NUMBER_LEN), Digits(b, NUMBER_LEN), k.suffix);
    }
  }

  lemma Pieces(p: string, a: string, b: string, x: string)
    requires |p| == 11 && |a| == 4 && |b| == 4
    ensures var s := p + a + DOTS + b + x;
            s[..11] == p && s[11..15] == a && s[15..17] == DOTS && s[17..21] == b && s[21..] == x
  {
  }

  lemma {:induction false} ReadRanges(u: DigitTable, rs: seq<Range>)
    requires ValidTable(u) && forall i :: 0 <= i < |rs| ==> ValidRange(u, rs[i])
    ensures ReadLines(u, RenderAll(rs)) == ExpandAll(rs)
  {
    hide ReadLine, Render, ExpandRange, ValidTable, ValidRange;
    if rs != [] {
      var n := |rs| - 1;
      ReadRanges(u, rs[..n]);
      ReadRendered(u, rs[n]);
      assert RenderAll(rs)[..n] == RenderAll(rs[..n]);
    }
  }

  // ---------------------------------------------------------------- the ranges of the output are valid

  lemma RunWithin(vs: seq<nat>, i: nat)
    requires i < |Runs(vs)|
    ensures Runs(vs)[i].start <= Runs(vs)[i].end && Runs(vs)[i].end in vs
  {
    hide Runs, Values;
    var rs := Runs(vs);
    RunsLossless(vs);
    assert Holds(rs[i], rs[i].end);
    assert Covered(rs, rs[i].end);
    InAllValues(rs, rs[i].end);
  }

  lemma GroupValid(u: DigitTable, names: seq<string>, k: Key, i: nat)
    requires ValidTable(u) && i < |Runs(ValuesOf(u, names, k))|
    ensures ValidRange(u, Range(k, Runs(ValuesOf(u, names, k))[i]))
  {
    hide Match, Runs, ValuesOf, ValidTable;
    var vs := ValuesOf(u, names, k);
    RunWithin(vs, i);
    var m :| 0 <= m < |vs| && vs[m] == Runs(vs)[i].end;
    var j := ValueFrom(u, names, k, m);
    NumberBound(u, names[j]);
  }

  lemma {:induction false} RangesValid(u: DigitTable, names: seq<string>, keys: seq<Key>)
    requires ValidTable(u)
    ensures forall i :: 0 <= i < |RangesOf(u, names, keys)| ==> ValidRange(u, RangesOf(u, names, keys)[i])
  {
    hide Runs, ValuesOf, ValidTable, ValidRange;
    if keys != [] {
      var n := |keys| - 1;
      var k := keys[n];
      RangesValid(u, names, keys[..n]);
      forall i | 0 <= i < |Runs(ValuesOf(u, names, k))| ensures ValidRange(u, InKey(k, Runs(ValuesOf(u, names, k)))[i]) {
        GroupValid(u, names, k, i);
      }
    }
  }

  // ---------------------------------------------------------------- when the lines can be read back

  /** No input name looks like a printed range. */
  predicate NoRangeText(u: DigitTable, names: seq<string>)
  {
    forall x :: x in names ==> !IsRangeText(u, x)
  }

  lemma RangeTextUnmatched(u: DigitTable, x: string)
    requires IsRangeText(u, x)
    ensures Match(u, x).None?
  {
    SuffixEnds(u, x[21..]);
    assert x[|x| - 1] == x[21..][|x| - 22];
    assert Body(x) == x;
    assert x[15] == x[15..17][0] == '.';
    TvNameUnderscore(u, x);
  }

  lemma TvNameUnderscore(u: DigitTable, s: string)
    ensures IsTvName(u, s) ==> s[15] == '_'
  {
    if IsTvName(u, s) {
      assert s[15] == s[15..][..11][0];
    }
  }

  lemma {:induction false} ReadNames(u: DigitTable, xs: seq<string>)
    requires ValidTable(u) && NoRangeText(u, xs)
    ensures ReadLines(u, xs) == xs
  {
    hide IsRangeText, ValidTable;
    if xs != [] {
      var n := |xs| - 1;
      assert forall x :: x in xs[..n] ==> x in xs;
      assert xs[n] in xs;
      ReadNames(u, xs[..n]);
      assert xs == xs[..n] + [xs[n]];
    }
  }

  /** Whatever a range expands to matches the pattern. */
  lemma ExpandedMatch(u: DigitTable, r: Range, x: string)
    requires ValidTable(u) && ValidKey(u, r.key) && r.run.end < 10000 && x in ExpandRange(r)
    ensures Match(u, x).Some?
  {
    hide Match, Name, Plain, ValidKey, Values;
    var i :| 0 <= i < |ExpandRange(r)| && x == ExpandRange(r)[i];
    var v := Values(r.run)[i];
    InValues(r.run, v);
    NameMatches(u, r.key, v);
  }

  lemma LineNotRead(u: DigitTable, s: string, x: string)
    requires ValidTable(u) && IsRangeText(u, x)
    ensures x !in ReadLine(u, s)
  {
    RangeTextUnmatched(u, x);
    if IsRangeText(u, s) {
      AsciiAreDigits(u, s[11..15]);
      AsciiAreDigits(u, s[17..21]);
      NumberBelow(u, s[17..21]);
      PowerOfFour();
      var r := Range(Key(s[..11], s[21..]), Run(Number(u, s[11..15]), Number(u, s[17..21])));
      hide Match, IsRangeText, ExpandRange;
      if x in ExpandRange(r) {
        ExpandedMatch(u, r, x);
      }
    }
  }

  /** A name that looks like a range never comes back out of a reader. */
  lemma {:induction false} NeverRead(u: DigitTable, lines: seq<string>, x: string)
    requires ValidTable(u) && IsRangeText(u, x)
    ensures x !in ReadLines(u, lines)
  {
    hide IsRangeText, ReadLine, ValidTable;
    if lines != [] {
      NeverRead(u, lines[..|lines| - 1], x);
      LineNotRead(u, lines[|lines| - 1], x);
    }
  }

  lemma {:induction false} UnmatchedFrom(u: DigitTable, names: seq<string>, x: string)
    ensures x in Unmatched(u, names) ==> x in names
  {
    hide Match;
    if names != [] {
      UnmatchedFrom(u, names[..|names| - 1], x);
    }
  }

  lemma PassedThrough(u: DigitTable, names: seq<string>)
    requires NoRangeText(u, names)
    ensures NoRangeText(u, Compress(u, names).passthrough)
  {
    hide IsRangeText, Unmatched, Sort, RangesOf, KeysOf;
    var sorted := Sort(LessEq, names);
    forall x | x in Compress(u, names).passthrough ensures !IsRangeText(u, x) {
      SameMembers(LessEq, Unmatched(u, sorted), x);
      UnmatchedFrom(u, sorted, x);
      SameMembers(LessEq, names, x);
    }
  }

  lemma ReadCompressed(u: DigitTable, names: seq<string>)
    requires ValidTable(u)
    ensures var o := Compress(u, names);
            ReadLines(u, Lines(o)) == ExpandAll(o.ranges) + ReadLines(u, o.passthrough)
  {
    hide ReadLines, RenderAll, ExpandAll, RangesOf, KeysOf, Unmatched, Sort, ValidTable, ValidRange;
    var o := Compress(u, names);
    ReadAppend(u, RenderAll(o.ranges), o.passthrough);
    var sorted := Sort(LessEq, names);
    RangesValid(u, sorted, Sort(KeyLessEq, KeysOf(u, sorted)));
    ReadRanges(u, o.ranges);
  }

  /** The printed list read line by line gives back exactly the names, if and only if every matching one is plain and none
      looks like a printed range itself. */
  lemma Readable(u: DigitTable, names: seq<string>)
    requires ValidTable(u)
    ensures multiset(ReadLines(u, Lines(Compress(u, names)))) == multiset(names) <==> AllPlain(u, names) && NoRangeText(u, names)
  {
    hide ReadLines, Lines, Compress, ExpandAll, ValidTable, AllPlain, IsRangeText;
    var o := Compress(u, names);
    if NoRangeText(u, names) {
      ReadCompressed(u, names);
      PassedThrough(u, names);
      ReadNames(u, o.passthrough);
      Lossless(u, names);
    } else {
      var x :| x in names && IsRangeText(u, x);
      NeverRead(u, Lines(o), x);
      assert x in multiset(names) && x !in multiset(ReadLines(u, Lines(o)));
    }
  }

  /** A name that does look like one prints as itself, and reads back as the range. */
  lemma {:induction false} Ambiguous(u: DigitTable, r: Range)
    requires ValidTable(u) && ValidRange(u, r) && r.run.start < r.run.end
    ensures var text := Render(r);
            Lines(Compress(u, [text])) == [text] && ReadLine(u, text) == ExpandRange(r) && IsRangeText(u, text)
  {
    var text := Render(r);
    ReadRendered(u, r);
    PowerOfFour();
    DigitsWidth(r.run.start, NUMBER_LEN);
    DigitsWidth(r.run.end, NUMBER_LEN);
    PrefixLength(r.key);
    Pieces(r.key.prefix, Digits(r.run.start, NUMBER_LEN), Digits(r.run.end, NUMBER_LEN), r.key.suffix);
    RangeTextUnmatched(u, text);
    OneUnmatched(u, text);
  }

  lemma OneUnmatched(u: DigitTable, x: string)
    requires Match(u, x).None?
    ensures Lines(Compress(u, [x])) == [x]
  {
    hide Match;
    assert [x][1..] == [] && [x][..0] == [];
    assert Sort(LessEq, [x]) == [x];
    assert KeysOf(u, [x]) == [] && Unmatched(u, [x]) == [x];
    assert RangesOf(u, [x], []) == [];
  }
}
