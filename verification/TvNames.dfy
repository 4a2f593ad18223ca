/** Test-vector file names: the pattern that splits them, and zero-padded numbers. */
module TvNames {
  import opened Wire

  // ---------------------------------------------------------------- strings

  /** Order of strings by code point. */
  predicate LessEq(a: string, b: string)
  {
    a == [] || (b != [] && (a[0] < b[0] || (a[0] == b[0] && LessEq(a[1..], b[1..]))))
  }

  lemma {:induction false} LessEqTotal(a: string, b: string)
    ensures LessEq(a, b) || LessEq(b, a)
  {
    if a != [] && b != [] && a[0] == b[0] {
      LessEqTotal(a[1..], b[1..]);
    }
  }

  lemma {:induction false} LessEqTransitive(a: string, b: string, c: string)
    requires LessEq(a, b) && LessEq(b, c)
    ensures LessEq(a, c)
  {
    if a != [] && a[0] == b[0] == c[0] {
      LessEqTransitive(a[1..], b[1..], c[1..]);
    }
  }

  lemma {:induction false} LessEqPrefix(p: string, a: string, b: string)
    ensures LessEq(p + a, p + b) <==> LessEq(a, b)
  {
    if p == [] {
      assert p + a == a && p + b == b;
    } else {
      assert (p + a)[1..] == p[1..] + a && (p + b)[1..] == p[1..] + b;
      LessEqPrefix(p[1..], a, b);
    }
  }

  lemma {:induction false} LessEqSuffix(a: string, b: string, s: string)
    requires |a| == |b| && LessEq(a + s, b + s)
    ensures LessEq(a, b)
  {
    if a != [] {
      assert (a + s)[1..] == a[1..] + s && (b + s)[1..] == b[1..] + s;
      if a[0] == b[0] {
        LessEqSuffix(a[1..], b[1..], s);
      }
    }
  }

  /** Strictly before in the dictionary: at the first place where they differ, `a` has ended or has the smaller character. */
  ghost predicate Before(a: string, b: string)
  {
    exists k: nat :: DiffersAt(a, b, k)
  }

  predicate DiffersAt(a: string, b: string, k: nat)
  {
    k <= |a| && k < |b| && a[..k] == b[..k] && (k == |a| || a[k] < b[k])
  }

  lemma {:induction false} LessEqIsBefore(a: string, b: string)
    ensures LessEq(a, b) <==> a == b || Before(a, b)
  {
    if a == [] {
      if b != [] {
        assert DiffersAt(a, b, 0);
      }
    } else if b != [] {
      if a[0] < b[0] {
        assert DiffersAt(a, b, 0);
      } else if a[0] == b[0] {
        LessEqIsBefore(a[1..], b[1..]);
        BeforeTail(a, b);
        assert a == b <==> a[1..] == b[1..] by { assert a == [a[0]] + a[1..] && b == [b[0]] + b[1..]; }
      } else {
        BeforeHeads(a, b);
      }
    }
  }

  lemma BeforeHeads(a: string, b: string)
    requires a != [] && b != []
    ensures Before(a, b) ==> a[0] <= b[0]
  {
    if Before(a, b) {
      var k: nat :| DiffersAt(a, b, k);
      if k > 0 {
        assert a[0] == a[..k][0] == b[..k][0] == b[0];
      }
    }
  }

  lemma BeforeTail(a: string, b: string)
    requires a != [] && b != [] && a[0] == b[0]
    ensures Before(a, b) <==> Before(a[1..], b[1..])
  {
    if Before(a, b) {
      var k: nat :| DiffersAt(a, b, k);
      assert k > 0;
      assert a[..k][1..] == a[1..][..k - 1] && b[..k][1..] == b[1..][..k - 1];
      assert DiffersAt(a[1..], b[1..], k - 1);
    }
    if Before(a[1..], b[1..]) {
      var k: nat :| DiffersAt(a[1..], b[1..], k);
      assert a[..k + 1] == [a[0]] + a[1..][..k] && b[..k + 1] == [b[0]] + b[1..][..k];
      assert DiffersAt(a, b, k + 1);
    }
  }

  // ---------------------------------------------------------------- digits

  /** The decimal value of a character, if it is a digit (`\d` and `int` know every Unicode decimal digit). */
  type DigitTable = char -> Option<nat>

  ghost predicate ValidTable(u: DigitTable)
  {
    && (forall c :: u(c).Some? ==> u(c).value < 10)
    && (forall c :: Ascii(c) ==> u(c) == Some(AsciiValue(c)))
  }

  predicate Ascii(c: char)
  {
    '0' <= c <= '9'
  }

  function AsciiValue(c: char): nat
    requires Ascii(c)
  {
    c as int - '0' as int
  }

  function Digit(v: nat): (c: char)
    requires v < 10
    ensures Ascii(c) && AsciiValue(c) == v
  {
    ('0' as int + v) as char
  }

  predicate AllAscii(s: string)
  {
    forall i :: 0 <= i < |s| ==> Ascii(s[i])
  }

  predicate AllDigits(u: DigitTable, s: string)
  {
    forall i :: 0 <= i < |s| ==> u(s[i]).Some?
  }

  /** `int`. */
  function Number(u: DigitTable, s: string): nat
    requires AllDigits(u, s)
  {
    if s == [] then 0 else 10 * Number(u, s[..|s| - 1]) + u(s[|s| - 1]).value
  }

  /** `{v:0wd}`: at least `w` digits, zeros in front. */
  function Digits(v: nat, w: nat): (s: string)
    ensures |s| >= w && |s| >= 1 && AllAscii(s)
    decreases v, w
  {
    if v < 10 && w <= 1 then [Digit(v)] else Digits(v / 10, if w == 0 then 0 else w - 1) + [Digit(v % 10)]
  }

  function Power(w: nat): (p: nat)
    ensures p >= 1
  {
    if w == 0 then 1 else 10 * Power(w - 1)
  }

  lemma {:induction false} DigitsWidth(v: nat, w: nat)
    requires 1 <= w && v < Power(w)
    ensures |Digits(v, w)| == w
    decreases w
  {
    if w > 1 {
      DigitsWidth(v / 10, w - 1);
    }
  }

  lemma AsciiAreDigits(u: DigitTable, s: string)
    requires ValidTable(u) && AllAscii(s)
    ensures AllDigits(u, s)
  {
  }

  /** Reading a printed number gives it back. */
  lemma {:induction false} NumberOfDigits(u: DigitTable, v: nat, w: nat)
    requires ValidTable(u)
    ensures AllDigits(u, Digits(v, w)) && Number(u, Digits(v, w)) == v
    decreases v, w
  {
    AsciiAreDigits(u, Digits(v, w));
    if v < 10 && w <= 1 {
      assert [Digit(v)][..0] == [];
      assert Number(u, [Digit(v)]) == 10 * Number(u, []) + v;
    } else {
      var t := Digits(v / 10, if w == 0 then 0 else w - 1);
      NumberOfDigits(u, v / 10, if w == 0 then 0 else w - 1);
      assert (t + [Digit(v % 10)])[..|t|] == t;
    }
  }

  /** And an ASCII number of `w` digits is printed as itself. */
  lemma {:induction false} DigitsOfNumber(u: DigitTable, s: string)
    requires ValidTable(u) && AllAscii(s) && s != []
    ensures AllDigits(u, s) && Digits(Number(u, s), |s|) == s && Number(u, s) < Power(|s|)
  {
    AsciiAreDigits(u, s);
    var t, c := s[..|s| - 1], s[|s| - 1];
    assert s == t + [c];
    var d := u(c).value;
    assert d == AsciiValue(c) && Digit(d) == c;
    if t == [] {
      assert Number(u, s) == 10 * Number(u, t) + d == d;
      assert Power(1) == 10 * Power(0);
    } else {
      DigitsOfNumber(u, t);
      var n := Number(u, t);
      assert (10 * n + d) / 10 == n && (10 * n + d) % 10 == d;
    }
  }

  /** Among numbers of one width, the order of the text is the order of the values. */
  lemma {:induction false} OrderOfNumbers(u: DigitTable, a: string, b: string)
    requires ValidTable(u) && AllAscii(a) && AllAscii(b) && |a| == |b|
    ensures AllDigits(u, a) && AllDigits(u, b)
    ensures LessEq(a, b) <==> Number(u, a) <= Number(u, b)
    decreases |a|
  {
    AsciiAreDigits(u, a);
    AsciiAreDigits(u, b);
    if a != [] {
      var x, y := a[..|a| - 1], b[..|b| - 1];
      OrderOfNumbers(u, x, y);
      OrderOfNumbers(u, y, x);
      LessEqSnoc(x, y, a[|a| - 1], b[|b| - 1]);
      assert a == x + [a[|a| - 1]] && b == y + [b[|b| - 1]];
    }
  }

  lemma {:induction false} LessEqSnoc(x: string, y: string, c: char, d: char)
    requires |x| == |y|
    ensures LessEq(x + [c], y + [d]) <==> LessEq(x, y) && (LessEq(y, x) ==> c <= d)
  {
    if x == [] {
      assert x + [c] == [c] && y + [d] == [d];
      assert LessEq([c][1..], [d][1..]);
    } else {
      assert (x + [c])[1..] == x[1..] + [c] && (y + [d])[1..] == y[1..] + [d];
      LessEqSnoc(x[1..], y[1..], c, d);
    }
  }

  // ---------------------------------------------------------------- the pattern

  datatype Key = Key(prefix: string, suffix: string)

  datatype Tv = Tv(key: Key, digits: string)

  const DL_PREFIX: string := "TVnr_DLMIX_"
  const UL_PREFIX: string := "TVnr_ULMIX_"
  const SUFFIX_HEAD: string := "_gNB_FAPI_s"
  const SUFFIX_TAIL: string := ".h5"

  const PREFIX_LEN: nat := 11
  const NUMBER_LEN: nat := 4

  predicate IsPrefix(s: string)
  {
    s == DL_PREFIX || s == UL_PREFIX
  }

  /** `_gNB_FAPI_s\d+\.h5` */
  predicate IsSuffix(u: DigitTable, s: string)
  {
    && 15 <= |s|
    && s[..11] == SUFFIX_HEAD
    && s[|s| - 3..] == SUFFIX_TAIL
    && AllDigits(u, s[11..|s| - 3])
  }

  /** The whole of `s` has the form of a test-vector name. */
  predicate IsTvName(u: DigitTable, s: string)
  {
    && PREFIX_LEN + NUMBER_LEN <= |s|
    && IsPrefix(s[..PREFIX_LEN])
    && AllDigits(u, s[PREFIX_LEN..PREFIX_LEN + NUMBER_LEN])
    && IsSuffix(u, s[PREFIX_LEN + NUMBER_LEN..])
  }

  /** `$` also matches in front of one final newline. */
  function Body(name: string): string
  {
    if name != [] && name[|name| - 1] == '\n' then name[..|name| - 1] else name
  }

  predicate ValidKey(u: DigitTable, k: Key)
  {
    IsPrefix(k.prefix) && IsSuffix(u, k.suffix)
  }

  function Match(u: DigitTable, name: string): (t: Option<Tv>)
    ensures t.Some? ==> ValidKey(u, t.value.key) && |t.value.digits| == NUMBER_LEN && AllDigits(u, t.value.digits)
  {
    var s := Body(name);
    if IsTvName(u, s)
    then Some(Tv(Key(s[..PREFIX_LEN], s[PREFIX_LEN + NUMBER_LEN..]), s[PREFIX_LEN..PREFIX_LEN + NUMBER_LEN]))
    else None
  }

  /** The parts of the pattern, put together. */
  predicate Spelling(u: DigitTable, name: string, prefix: string, digits: string, index: string, end: string)
  {
    && (prefix == "TVnr_DLMIX_" || prefix == "TVnr_ULMIX_") && |digits| == 4 && AllDigits(u, digits)
    && index != "" && AllDigits(u, index) && (end == "" || end == "\n")
    && name == prefix + digits + ("_gNB_FAPI_s" + index + ".h5") + end
  }

  /** Whatever is put together so matches, and its parts are found. */
  lemma SpellingMatches(u: DigitTable, name: string, prefix: string, digits: string, index: string, end: string)
    requires Spelling(u, name, prefix, digits, index, end)
    ensures Match(u, name) == Some(Tv(Key(prefix, "_gNB_FAPI_s" + index + ".h5"), digits))
  {
    var suffix := "_gNB_FAPI_s" + index + ".h5";
    var s := prefix + digits + suffix;
    assert suffix[..11] == SUFFIX_HEAD && suffix[11..|suffix| - 3] == index && suffix[|suffix| - 3..] == SUFFIX_TAIL;
    SuffixEnds(u, suffix);
    assert s[|s| - 1] == suffix[|suffix| - 1];
    assert Body(name) == s by {
      if end == "" {
        assert name == s;
      } else {
        assert name[|name| - 1] == '\n' && name[..|name| - 1] == s;
      }
    }
    assert s[..11] == prefix && s[11..15] == digits && s[15..] == suffix;
  }

  /** And nothing else matches. */
  lemma MatchExactly(u: DigitTable, name: string)
    ensures Match(u, name).Some? <==> exists prefix, digits, index, end :: Spelling(u, name, prefix, digits, index, end)
  {
    if Match(u, name).Some? {
      MatchSpelled(u, name);
    }
    forall prefix, digits, index, end | Spelling(u, name, prefix, digits, index, end) ensures Match(u, name).Some? {
      SpellingMatches(u, name, prefix, digits, index, end);
    }
  }

  lemma MatchSpelled(u: DigitTable, name: string)
    requires Match(u, name).Some?
    ensures exists prefix, digits, index, end :: Spelling(u, name, prefix, digits, index, end)
  {
    var t, s := Match(u, name).value, Body(name);
    var suffix := t.key.suffix;
    var index, end := suffix[11..|suffix| - 3], name[|s|..];
    Slices(suffix, 11, |suffix| - 3);
    Slices(s, 11, 15);
    assert name == s + end;
    assert end == "" || end == "\n";
    assert Spelling(u, name, t.key.prefix, t.digits, index, end);
  }

  /** One name of a range, `f"{prefix}{value:04d}{suffix}"`. */
  function Name(k: Key, v: nat): string
  {
    k.prefix + Digits(v, NUMBER_LEN) + k.suffix
  }

  /** A matching name that the ASCII zero-padded form spells exactly. */
  predicate Plain(name: string)
  {
    && PREFIX_LEN + NUMBER_LEN <= |name|
    && AllAscii(name[PREFIX_LEN..PREFIX_LEN + NUMBER_LEN])
    && name[|name| - 1] != '\n'
  }

  lemma PrefixLength(k: Key)
    requires IsPrefix(k.prefix)
    ensures |k.prefix| == PREFIX_LEN
  {
  }

  lemma PowerOfFour()
    ensures Power(NUMBER_LEN) == 10000
  {
    assert Power(0) == 1 && Power(1) == 10 && Power(2) == 100 && Power(3) == 1000;
  }

  /** Splitting a spelled-out name gives its key and number. */
  lemma {:induction false} NameMatches(u: DigitTable, k: Key, v: nat)
    requires ValidTable(u) && ValidKey(u, k) && v < 10000
    ensures Match(u, Name(k, v)) == Some(Tv(k, Digits(v, NUMBER_LEN))) && Plain(Name(k, v))
    ensures AllDigits(u, Digits(v, NUMBER_LEN)) && Number(u, Digits(v, NUMBER_LEN)) == v
  {
    PowerOfFour();
    DigitsWidth(v, NUMBER_LEN);
    NumberOfDigits(u, v, NUMBER_LEN);
    PrefixLength(k);
    var s, d := Name(k, v), Digits(v, NUMBER_LEN);
    assert s[..PREFIX_LEN] == k.prefix && s[PREFIX_LEN..PREFIX_LEN + NUMBER_LEN] == d && s[PREFIX_LEN + NUMBER_LEN..] == k.suffix;
    SuffixEnds(u, k.suffix);
    assert s[|s| - 1] == k.suffix[|k.suffix| - 1];
    assert Body(s) == s;
  }

  lemma SuffixEnds(u: DigitTable, s: string)
    requires IsSuffix(u, s)
    ensures s[|s| - 1] == '5'
  {
    assert s[|s| - 1] == s[|s| - 3..][2];
  }

  /** And a plain matching name is spelled out again by its key and number. */
  lemma PlainName(u: DigitTable, name: string)
    requires ValidTable(u) && Match(u, name).Some? && Plain(name)
    ensures var t := Match(u, name).value;
            && AllAscii(t.digits) && Number(u, t.digits) < 10000
            && name == t.key.prefix + t.digits + t.key.suffix
            && Name(t.key, Number(u, t.digits)) == name
  {
    PowerOfFour();
    MatchedParts(u, name);
    var t := Match(u, name).value;
    hide Match;
    DigitsOfNumber(u, t.digits);
    Slices(name, PREFIX_LEN, PREFIX_LEN + NUMBER_LEN);
  }

  lemma MatchedParts(u: DigitTable, name: string)
    requires Match(u, name).Some? && Plain(name)
    ensures var t := Match(u, name).value;
            && t.key == Key(name[..PREFIX_LEN], name[PREFIX_LEN + NUMBER_LEN..])
            && t.digits == name[PREFIX_LEN..PREFIX_LEN + NUMBER_LEN]
  {
    assert Body(name) == name;
  }

  lemma Slices(s: string, i: nat, j: nat)
    requires i <= j <= |s|
    ensures s == s[..i] + s[i..j] + s[j..]
  {
  }

  lemma NumberBound(u: DigitTable, name: string)
    requires ValidTable(u) && Match(u, name).Some?
    ensures Number(u, Match(u, name).value.digits) < 10000
  {
    PowerOfFour();
    NumberBelow(u, Match(u, name).value.digits);
  }

  lemma {:induction false} NumberBelow(u: DigitTable, s: string)
    requires ValidTable(u) && AllDigits(u, s)
    ensures Number(u, s) < Power(|s|)
  {
    if s != [] {
      NumberBelow(u, s[..|s| - 1]);
      assert u(s[|s| - 1]).Some?;
    }
  }
}
