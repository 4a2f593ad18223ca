/** Run-length compression of test-vector names (`compress_tv_names`) against `expand_range`. */
module RangeCompression {

  /** The numbers from `start` to `end`, both included. */
  datatype Run = Run(start: nat, end: nat)

  // ---------------------------------------------------------------- runs of one group

  /** One more value: it continues the last run or starts a new one. */
  function Push(rs: seq<Run>, v: nat): (r: seq<Run>)
    ensures r != [] && r[|r| - 1].end == v
  {
    var n := |rs| - 1;
    if rs != [] && v == rs[n].end + 1 then rs[..n] + [Run(rs[n].start, v)] else rs + [Run(v, v)]
  }

  /** The greedy split of a list of values into runs. */
  function Runs(vs: seq<nat>): (rs: seq<Run>)
    ensures rs == [] <==> vs == []
    ensures vs != [] ==> rs[|rs| - 1].end == vs[|vs| - 1]
  {
    if vs == [] then [] else Push(Runs(vs[..|vs| - 1]), vs[|vs| - 1])
  }

  function Values(r: Run): (vs: seq<nat>)
    decreases r.end + 1 - r.start
  {
    if r.start > r.end then [] else [r.start] + Values(Run(r.start + 1, r.end))
  }

  function AllValues(rs: seq<Run>): seq<nat>
  {
    if rs == [] then [] else AllValues(rs[..|rs| - 1]) + Values(rs[|rs| - 1])
  }

  lemma {:induction false} ValuesSnoc(r: Run)
    requires r.start <= r.end + 1
    ensures Values(Run(r.start, r.end + 1)) == Values(r) + [r.end + 1]
    decreases r.end + 1 - r.start
  {
    if r.start <= r.end {
      ValuesSnoc(Run(r.start + 1, r.end));
    } else {
      assert Values(Run(r.start, r.end + 1)) == [r.start] + Values(Run(r.start + 1, r.end + 1));
    }
  }

  predicate Holds(r: Run, v: nat)
  {
    r.start <= v <= r.end
  }

  lemma {:induction false} InValues(r: Run, v: nat)
    ensures v in Values(r) <==> Holds(r, v)
    decreases r.end + 1 - r.start
  {
    if r.start <= r.end {
      var rest := Values(Run(r.start + 1, r.end));
      InValues(Run(r.start + 1, r.end), v);
      assert v in [r.start] + rest <==> v == r.start || v in rest;
    }
  }

  predicate Proper(rs: seq<Run>)
  {
    forall i :: 0 <= i < |rs| ==> rs[i].start <= rs[i].end
  }

  lemma AllValuesSnoc(rs: seq<Run>, r: Run)
    ensures AllValues(rs + [r]) == AllValues(rs) + Values(r)
  {
    assert (rs + [r])[..|rs|] == rs;
  }

  lemma PushValues(rs: seq<Run>, v: nat)
    requires Proper(rs)
    ensures AllValues(Push(rs, v)) == AllValues(rs) + [v] && Proper(Push(rs, v))
  {
    hide AllValues, Values;
    var n := |rs| - 1;
    if rs != [] && v == rs[n].end + 1 {
      ValuesSnoc(rs[n]);
      AllValuesSnoc(rs[..n], rs[n]);
      AllValuesSnoc(rs[..n], Run(rs[n].start, v));
      assert rs == rs[..n] + [rs[n]];
      assert AllValues(rs[..n]) + (Values(rs[n]) + [v]) == AllValues(rs[..n]) + Values(rs[n]) + [v];
    } else {
      AllValuesSnoc(rs, Run(v, v));
      OneValue(v);
    }
  }

  lemma OneValue(v: nat)
    ensures Values(Run(v, v)) == [v]
  {
    assert Values(Run(v, v)) == [v] + Values(Run(v + 1, v));
  }

  /** Expanding the runs gives back the very list, in order and with its repetitions. */
  lemma {:induction false} RunsLossless(vs: seq<nat>)
    ensures AllValues(Runs(vs)) == vs && Proper(Runs(vs))
  {
    hide Push;
    if vs != [] {
      RunsLossless(vs[..|vs| - 1]);
      PushValues(Runs(vs[..|vs| - 1]), vs[|vs| - 1]);
    }
  }

  // ---------------------------------------------------------------- separated runs

  predicate NonDecreasing(vs: seq<nat>)
  {
    forall i, j :: 0 <= i < j < |vs| ==> vs[i] <= vs[j]
  }

  predicate Increasing(vs: seq<nat>)
  {
    forall i, j :: 0 <= i < j < |vs| ==> vs[i] < vs[j]
  }

  predicate Distinct(vs: seq<nat>)
  {
    forall i, j :: 0 <= i < j < |vs| ==> vs[i] != vs[j]
  }

  predicate Gap(rs: seq<Run>, i: nat)
    requires i + 1 < |rs|
  {
    rs[i].end + 1 < rs[i + 1].start
  }

  /** Sorted and disjoint, with a gap between neighbours. */
  predicate Separated(rs: seq<Run>)
  {
    Proper(rs) && forall i :: 0 <= i < |rs| - 1 ==> Gap(rs, i)
  }

  lemma {:induction false} FarApart(rs: seq<Run>, i: nat, k: nat)
    requires Separated(rs) && i < k < |rs|
    ensures rs[i].end + 1 < rs[k].start
    decreases k
  {
    assert Gap(rs, k - 1);
    if i < k - 1 {
      FarApart(rs, i, k - 1);
    }
  }

  lemma PushSeparated(rs: seq<Run>, v: nat)
    requires Proper(rs)
    ensures Separated(Push(rs, v)) <==> Separated(rs) && (rs != [] ==> rs[|rs| - 1].end < v)
  {
    var p, n := Push(rs, v), |rs| - 1;
    forall i | 0 <= i < n ensures Gap(p, i) <==> Gap(rs, i) {
    }
    if rs != [] && |p| > |rs| {
      assert Gap(p, n) <==> rs[n].end + 1 < v;
    }
  }

  lemma IncreasingSnoc(vs: seq<nat>)
    requires |vs| > 1
    ensures var n := |vs| - 1; Increasing(vs) <==> Increasing(vs[..n]) && vs[n - 1] < vs[n]
  {
    var n := |vs| - 1;
    if Increasing(vs[..n]) && vs[n - 1] < vs[n] {
      forall i, j | 0 <= i < j < |vs| ensures vs[i] < vs[j] {
        if j < n {
          assert vs[..n][i] < vs[..n][j];
        } else if i < n - 1 {
          assert vs[..n][i] < vs[..n][n - 1];
        }
      }
    }
    if Increasing(vs) {
      forall i, j | 0 <= i < j < n ensures vs[..n][i] < vs[..n][j] {
        assert vs[i] < vs[j];
      }
    }
  }

  /** The runs of any list are separated exactly when its values strictly increase. */
  lemma {:induction false} SeparatedExactly(vs: seq<nat>)
    ensures Separated(Runs(vs)) <==> Increasing(vs)
  {
    hide Push, Separated, Increasing;
    if vs == [] {
      NoneSeparated();
    } else {
      var n := |vs| - 1;
      SeparatedExactly(vs[..n]);
      RunsLossless(vs[..n]);
      PushSeparated(Runs(vs[..n]), vs[n]);
      if n > 0 {
        IncreasingSnoc(vs);
      } else {
        OneIncreases(vs);
      }
    }
  }

  lemma NoneSeparated()
    ensures Separated([]) && Increasing([])
  {
  }

  lemma OneIncreases(vs: seq<nat>)
    requires |vs| == 1
    ensures Increasing(vs) && Increasing(vs[..0])
  {
  }

  // ---------------------------------------------------------------- covers

  ghost predicate Covered(rs: seq<Run>, v: nat)
  {
    exists i :: 0 <= i < |rs| && Holds(rs[i], v)
  }

  /** Together the runs hold exactly these values. */
  ghost predicate Covers(rs: seq<Run>, vs: seq<nat>)
  {
    forall v: nat :: Covered(rs, v) <==> v in vs
  }

  ghost predicate SameCover(c: seq<Run>, rs: seq<Run>)
  {
    forall v: nat :: Covered(c, v) <==> Covered(rs, v)
  }

  lemma CoveredSnoc(rs: seq<Run>, r: Run, v: nat)
    ensures Covered(rs + [r], v) <==> Covered(rs, v) || Holds(r, v)
  {
    if Covered(rs, v) {
      var i :| 0 <= i < |rs| && Holds(rs[i], v);
      assert Holds((rs + [r])[i], v);
    }
    if Holds(r, v) {
      assert Holds((rs + [r])[|rs|], v);
    }
  }

  lemma {:induction false} InAllValues(rs: seq<Run>, v: nat)
    ensures v in AllValues(rs) <==> Covered(rs, v)
  {
    if rs != [] {
      hide Covered, Values, Holds;
      var init, last := rs[..|rs| - 1], rs[|rs| - 1];
      InAllValues(init, v);
      InValues(last, v);
      CoveredSnoc(init, last, v);
      assert rs == init + [last];
    }
  }

  lemma RunsCover(vs: seq<nat>)
    ensures Covers(Runs(vs), vs)
  {
    hide Covered, Runs, AllValues;
    RunsLossless(vs);
    forall v: nat ensures Covered(Runs(vs), v) <==> v in vs {
      InAllValues(Runs(vs), v);
    }
  }

  lemma SameCoverOf(c: seq<Run>, rs: seq<Run>, vs: seq<nat>)
    requires Covers(rs, vs)
    ensures Covers(c, vs) <==> SameCover(c, rs)
  {
    hide Covered;
    if Covers(c, vs) {
      forall v: nat ensures Covered(c, v) <==> Covered(rs, v) {
      }
    }
    if SameCover(c, rs) {
      forall v: nat ensures Covered(c, v) <==> v in vs {
      }
    }
  }

  // ---------------------------------------------------------------- runs apart are the fewest

  predicate Apart(a: Run, b: Run)
  {
    a.end + 1 < b.start || b.end + 1 < a.start
  }

  /** No two runs overlap or stand side by side, in whatever order they come. */
  predicate PairwiseApart(rs: seq<Run>)
  {
    Proper(rs) && forall i, j :: 0 <= i < j < |rs| ==> Apart(rs[i], rs[j])
  }

  /** Which run of a cover holds a value. */
  ghost function Pick(c: seq<Run>, v: nat): (j: nat)
    requires Covered(c, v)
    ensures j < |c| && Holds(c[j], v)
  {
    var j :| 0 <= j < |c| && Holds(c[j], v);
    j
  }

  lemma StartCovered(c: seq<Run>, rs: seq<Run>, i: nat)
    requires PairwiseApart(rs) && SameCover(c, rs) && i < |rs|
    ensures Covered(c, rs[i].start)
  {
    assert Holds(rs[i], rs[i].start);
    assert Covered(rs, rs[i].start);
  }

  ghost function PickStart(c: seq<Run>, rs: seq<Run>, i: nat): (j: nat)
    requires PairwiseApart(rs) && SameCover(c, rs) && i < |rs|
    ensures j < |c| && Holds(c[j], rs[i].start)
  {
    StartCovered(c, rs, i);
    Pick(c, rs[i].start)
  }

  lemma GapUncovered(rs: seq<Run>, i: nat)
    requires PairwiseApart(rs) && i < |rs|
    ensures !Covered(rs, rs[i].end + 1)
  {
    var gap := rs[i].end + 1;
    forall m | 0 <= m < |rs| ensures !Holds(rs[m], gap) {
      if m < i {
        assert Apart(rs[m], rs[i]);
      } else if m > i {
        assert Apart(rs[i], rs[m]);
      }
    }
  }

  /** No run of a cover holds the starts of two runs apart: it would hold the gap between them. */
  lemma StartsApart(c: seq<Run>, rs: seq<Run>, i: nat, k: nat)
    requires PairwiseApart(rs) && SameCover(c, rs) && i < k < |rs|
    ensures PickStart(c, rs, i) != PickStart(c, rs, k)
  {
    GapUncovered(rs, i);
    GapUncovered(rs, k);
    assert !Covered(c, rs[i].end + 1) && !Covered(c, rs[k].end + 1);
    assert Apart(rs[i], rs[k]);
    var j := PickStart(c, rs, i);
    assert !Holds(c[j], rs[i].end + 1) && !Holds(c[j], rs[k].end + 1);
  }

  ghost function Picks(c: seq<Run>, rs: seq<Run>, n: nat): (s: set<nat>)
    requires PairwiseApart(rs) && SameCover(c, rs) && n <= |rs|
  {
    if n == 0 then {} else Picks(c, rs, n - 1) + {PickStart(c, rs, n - 1)}
  }

  lemma {:induction false} PickedBefore(c: seq<Run>, rs: seq<Run>, n: nat, j: nat) returns (i: nat)
    requires PairwiseApart(rs) && SameCover(c, rs) && n <= |rs| && j in Picks(c, rs, n)
    ensures i < n && j == PickStart(c, rs, i)
  {
    hide PairwiseApart, SameCover, PickStart;
    i := n - 1;
    if j != PickStart(c, rs, n - 1) {
      i := PickedBefore(c, rs, n - 1, j);
    }
  }

  lemma {:induction false} PicksDistinct(c: seq<Run>, rs: seq<Run>, n: nat)
    requires PairwiseApart(rs) && SameCover(c, rs) && n <= |rs|
    ensures |Picks(c, rs, n)| == n
  {
    hide PairwiseApart, SameCover, PickStart;
    if n > 0 {
      PicksDistinct(c, rs, n - 1);
      if PickStart(c, rs, n - 1) in Picks(c, rs, n - 1) {
        var i := PickedBefore(c, rs, n - 1, PickStart(c, rs, n - 1));
        StartsApart(c, rs, i, n - 1);
      }
    }
  }

  lemma {:induction false} SmallSet(s: set<nat>, n: nat)
    requires forall j :: j in s ==> j < n
    ensures |s| <= n
  {
    if n > 0 {
      SmallSet(s - {n - 1}, n - 1);
    } else {
      assert s == {};
    }
  }

  /** Runs apart are the fewest that hold their values. */
  lemma ApartFewest(rs: seq<Run>, c: seq<Run>)
    requires PairwiseApart(rs) && SameCover(c, rs)
    ensures |rs| <= |c|
  {
    hide PairwiseApart, SameCover, Picks;
    PicksDistinct(c, rs, |rs|);
    forall j | j in Picks(c, rs, |rs|) ensures j < |c| {
      var i := PickedBefore(c, rs, |rs|, j);
    }
    SmallSet(Picks(c, rs, |rs|), |c|);
  }

  /** The runs `i` and `j` made one. */
  function Merge(rs: seq<Run>, i: nat, j: nat): (c: seq<Run>)
    requires i < j < |rs|
    ensures |c| == |rs| - 1
  {
    var a, b := rs[i], rs[j];
    var all := Run(if a.start < b.start then a.start else b.start, if a.end > b.end then a.end else b.end);
    rs[..i] + [all] + rs[i + 1..j] + rs[j + 1..]
  }

  lemma MergeCovers(rs: seq<Run>, i: nat, j: nat)
    requires Proper(rs) && i < j < |rs| && !Apart(rs[i], rs[j])
    ensures SameCover(Merge(rs, i, j), rs)
  {
    var c := Merge(rs, i, j);
    forall v: nat ensures Covered(c, v) <==> Covered(rs, v) {
      if Covered(c, v) {
        var m :| 0 <= m < |c| && Holds(c[m], v);
        var k := if m == i then (if Holds(rs[i], v) then i else j) else if m < j then m else m + 1;
        assert Holds(rs[k], v);
      }
      if Covered(rs, v) {
        var k :| 0 <= k < |rs| && Holds(rs[k], v);
        var m := if k == i || k == j then i else if k < j then k else k - 1;
        assert Holds(c[m], v);
      }
    }
  }

  ghost predicate Fewest(vs: seq<nat>)
  {
    forall c: seq<Run> :: Covers(c, vs) ==> |Runs(vs)| <= |c|
  }

  lemma FewestWhenApart(vs: seq<nat>)
    ensures Fewest(vs) <==> PairwiseApart(Runs(vs))
  {
    hide Runs, Covers, SameCover, Merge, Apart;
    var rs := Runs(vs);
    RunsCover(vs);
    RunsLossless(vs);
    if PairwiseApart(rs) {
      forall c: seq<Run> | Covers(c, vs) ensures |rs| <= |c| {
        SameCoverOf(c, rs, vs);
        ApartFewest(rs, c);
      }
    } else {
      var i, j :| 0 <= i < j < |rs| && !Apart(rs[i], rs[j]);
      MergeCovers(rs, i, j);
      SameCoverOf(Merge(rs, i, j), rs, vs);
    }
  }

  // ---------------------------------------------------------------- when they are apart

  /** Every value whose successor is in `all`, but for the last, is directly followed by it. */
  predicate FollowedBut(all: seq<nat>, vs: seq<nat>)
  {
    forall i :: 0 <= i < |vs| - 1 && vs[i] + 1 in all ==> vs[i + 1] == vs[i] + 1
  }

  /** No run but the last ends in front of a value in `all`. */
  predicate OpenBut(all: seq<nat>, rs: seq<Run>)
  {
    forall m :: 0 <= m < |rs| - 1 ==> rs[m].end + 1 !in all
  }

  lemma {:induction false} FollowedOpens(all: seq<nat>, vs: seq<nat>)
    ensures FollowedBut(all, vs) <==> OpenBut(all, Runs(vs))
  {
    if |vs| > 1 {
      hide Push;
      var n := |vs| - 1;
      FollowedOpens(all, vs[..n]);
      FollowedSnoc(all, vs);
      PushOpens(all, Runs(vs[..n]), vs[n]);
    } else if |vs| == 1 {
      assert Runs(vs[..0]) == [];
    }
  }

  lemma FollowedSnoc(all: seq<nat>, vs: seq<nat>)
    requires |vs| > 1
    ensures var n := |vs| - 1;
            FollowedBut(all, vs) <==> FollowedBut(all, vs[..n]) && (vs[n - 1] + 1 in all ==> vs[n] == vs[n - 1] + 1)
  {
    var n := |vs| - 1;
    var init := vs[..n];
    assert forall i :: 0 <= i < n ==> init[i] == vs[i];
  }

  lemma PushOpens(all: seq<nat>, rs: seq<Run>, v: nat)
    requires rs != []
    ensures var u := rs[|rs| - 1].end;
            OpenBut(all, Push(rs, v)) <==> OpenBut(all, rs) && (u + 1 in all ==> v == u + 1)
  {
    var p, n := Push(rs, v), |rs| - 1;
    assert forall m :: 0 <= m < n ==> p[m].end == rs[m].end;
    if |p| > |rs| {
      assert p[n] == rs[n];
    }
  }

  /** Every value whose successor is listed is directly followed by it. */
  predicate Followed(vs: seq<nat>)
  {
    FollowedBut(vs, vs) && (vs != [] ==> vs[|vs| - 1] + 1 !in vs)
  }

  predicate Open(all: seq<nat>, rs: seq<Run>)
  {
    forall m :: 0 <= m < |rs| ==> rs[m].end + 1 !in all
  }

  lemma FollowedExactly(vs: seq<nat>)
    ensures Followed(vs) <==> Open(vs, Runs(vs))
  {
    hide Runs;
    FollowedOpens(vs, vs);
  }

  ghost predicate Disjoint(rs: seq<Run>)
  {
    forall i, j, v: nat :: 0 <= i < j < |rs| && Holds(rs[i], v) ==> !Holds(rs[j], v)
  }

  lemma DistinctAppend(a: seq<nat>, b: seq<nat>)
    ensures Distinct(a + b) <==> Distinct(a) && Distinct(b) && forall v :: v in a ==> v !in b
  {
    var c := a + b;
    if Distinct(c) {
      forall i, j | 0 <= i < j < |a| ensures a[i] != a[j] {
        assert c[i] != c[j];
      }
      forall i, j | 0 <= i < j < |b| ensures b[i] != b[j] {
        assert c[|a| + i] != c[|a| + j];
      }
      forall v | v in a ensures v !in b {
        var i :| 0 <= i < |a| && a[i] == v;
        forall j | 0 <= j < |b| ensures b[j] != v {
          assert c[i] != c[|a| + j];
        }
      }
    }
    if Distinct(a) && Distinct(b) && forall v :: v in a ==> v !in b {
      forall i, j | 0 <= i < j < |c| ensures c[i] != c[j] {
        if |a| <= i {
          assert b[i - |a|] != b[j - |a|];
        } else if |a| <= j {
          assert a[i] in a && b[j - |a|] in b;
        }
      }
    }
  }

  lemma {:induction false} ValuesDistinct(r: Run)
    ensures Distinct(Values(r))
    decreases r.end + 1 - r.start
  {
    if r.start <= r.end {
      var rest := Run(r.start + 1, r.end);
      ValuesDistinct(rest);
      InValues(rest, r.start);
      DistinctAppend([r.start], Values(rest));
    }
  }

  /** The values of the runs are distinct exactly when no value is in two of them. */
  lemma {:induction false} DisjointExactly(rs: seq<Run>)
    ensures Distinct(AllValues(rs)) <==> Disjoint(rs)
  {
    if rs == [] {
      NothingDistinct();
    } else {
      hide Values, Distinct, Holds, Disjoint, Covered;
      var init, last := rs[..|rs| - 1], rs[|rs| - 1];
      DisjointExactly(init);
      ValuesDistinct(last);
      DistinctAppend(AllValues(init), Values(last));
      DisjointSnoc(init, last);
      ApartValues(init, last);
      assert rs == init + [last];
    }
  }

  lemma ApartValues(init: seq<Run>, last: Run)
    ensures (forall v :: v in AllValues(init) ==> v !in Values(last)) <==> (forall v: nat :: Covered(init, v) ==> !Holds(last, v))
  {
    hide AllValues, Values, Covered, Holds;
    forall v: nat ensures (v in AllValues(init) <==> Covered(init, v)) && (v in Values(last) <==> Holds(last, v)) {
      InAllValues(init, v);
      InValues(last, v);
    }
  }

  lemma NothingDistinct()
    ensures Distinct([])
  {
  }

  lemma DisjointSnoc(init: seq<Run>, last: Run)
    ensures Disjoint(init + [last]) <==> Disjoint(init) && forall v: nat :: Covered(init, v) ==> !Holds(last, v)
  {
    hide Holds;
    var rs, n := init + [last], |init|;
    if Disjoint(rs) {
      forall i, j, v: nat | 0 <= i < j < n && Holds(init[i], v) ensures !Holds(init[j], v) {
        assert rs[i] == init[i] && rs[j] == init[j];
      }
      forall v: nat | Covered(init, v) ensures !Holds(last, v) {
        var i :| 0 <= i < n && Holds(init[i], v);
        assert rs[i] == init[i] && rs[n] == last;
      }
    }
    if Disjoint(init) && forall v: nat :: Covered(init, v) ==> !Holds(last, v) {
      forall i, j, v: nat | 0 <= i < j < |rs| && Holds(rs[i], v) ensures !Holds(rs[j], v) {
        assert rs[i] == init[i];
        if j < n {
          assert rs[j] == init[j];
        } else {
          assert Covered(init, v);
        }
      }
    }
  }

  lemma ApartIsDisjointOpen(vs: seq<nat>, rs: seq<Run>)
    requires Proper(rs) && Covers(rs, vs)
    ensures PairwiseApart(rs) <==> Disjoint(rs) && Open(vs, rs)
  {
    if PairwiseApart(rs) {
      forall i, j, v: nat | 0 <= i < j < |rs| && Holds(rs[i], v) ensures !Holds(rs[j], v) {
        assert Apart(rs[i], rs[j]);
      }
      forall m | 0 <= m < |rs| ensures rs[m].end + 1 !in vs {
        GapUncovered(rs, m);
      }
    }
    if Disjoint(rs) && Open(vs, rs) {
      forall i, j | 0 <= i < j < |rs| ensures Apart(rs[i], rs[j]) {
        OpenApart(vs, rs, i, j);
        OpenApart(vs, rs, j, i);
        var a, b := rs[i], rs[j];
        var v := if a.start < b.start then b.start else a.start;
        assert !(Holds(a, v) && Holds(b, v));
      }
    }
  }

  lemma OpenApart(vs: seq<nat>, rs: seq<Run>, i: nat, j: nat)
    requires Proper(rs) && Covers(rs, vs) && Open(vs, rs) && i < |rs| && j < |rs|
    ensures rs[i].end + 1 != rs[j].start
  {
    assert Holds(rs[j], rs[j].start);
    assert Covered(rs, rs[j].start);
    assert rs[j].start in vs;
  }

  /** No cover of the values by runs is shorter than the one emitted, if and only if no value is listed twice and every
      value whose successor is listed is directly followed by it. */
  lemma FewestExactly(vs: seq<nat>)
    ensures Fewest(vs) <==> Distinct(vs) && Followed(vs)
  {
    hide Runs, Distinct, Followed, Fewest, PairwiseApart, Disjoint, Open, Covers, AllValues;
    var rs := Runs(vs);
    FewestWhenApart(vs);
    RunsCover(vs);
    RunsLossless(vs);
    ApartIsDisjointOpen(vs, rs);
    DisjointExactly(rs);
    FollowedExactly(vs);
  }

  /** In a sorted list both conditions, and strict increase, come to this: no value is listed twice. */
  lemma SortedConditions(vs: seq<nat>)
    requires NonDecreasing(vs)
    ensures Increasing(vs) <==> Distinct(vs)
    ensures Distinct(vs) ==> Followed(vs)
  {
    if Distinct(vs) {
      forall i | 0 <= i < |vs| && vs[i] + 1 in vs ensures i + 1 < |vs| && vs[i + 1] == vs[i] + 1 {
        var j :| 0 <= j < |vs| && vs[j] == vs[i] + 1;
        FarAbove(vs, i, j);
      }
    }
  }

  lemma FarAbove(vs: seq<nat>, i: nat, j: nat)
    requires NonDecreasing(vs) && Distinct(vs) && i < |vs| && j < |vs|
    ensures j <= i ==> vs[j] <= vs[i]
    ensures i + 1 < j ==> vs[i] + 1 < vs[j]
  {
    if i + 1 < j {
      assert vs[i] <= vs[i + 1] <= vs[j] && vs[i] != vs[i + 1] && vs[i + 1] != vs[j];
    }
  }

  /** A number listed twice: two runs where one would do. */
  lemma TwiceListed(v: nat)
    ensures Runs([v, v]) == [Run(v, v), Run(v, v)] && !Fewest([v, v]) && !Separated(Runs([v, v]))
  {
    assert [v, v][..1] == [v] && [v][..0] == [];
    assert Runs([v]) == [Run(v, v)];
    FewestExactly([v, v]);
    SeparatedExactly([v, v]);
    assert [v, v][0] == [v, v][1];
  }
}
