/**
 * API versions as the client handles them: parsing "X.Y" strings, formatting
 * "%d.%d", normalising a caller's version specifier, and Python's tuple order.
 * Everything here is pure; the probe that fetches the server's range lives in Http.
 */
module Versions {
  import opened Values

  predicate IsDigit(c: char) { '0' as int <= c as int <= '9' as int }

  predicate AllDigits(s: string) { forall i :: 0 <= i < |s| ==> IsDigit(s[i]) }

  function DigitValue(c: char): nat
    requires IsDigit(c)
  {
    (c as int) - ('0' as int)
  }

  function DigitChar(d: nat): char
    requires d < 10
  {
    (('0' as int) + d) as char
  }

  /** The number a run of decimal digits denotes, most significant digit first. */
  function DigitsValue(s: string): nat
    requires AllDigits(s)
  {
    if s == [] then 0 else DigitsValue(s[..|s| - 1]) * 10 + DigitValue(s[|s| - 1])
  }

  /**
   * Python's `int(x)` on one version component: an optional sign followed by
   * at least one ASCII digit; anything else is a ValueError (None here).
   */
  function ParseInt(s: string): Option<int> {
    if s != [] && (s[0] == '-' || s[0] == '+') then
      var digits := s[1..];
      if digits != [] && AllDigits(digits) then
        var n: int := DigitsValue(digits);
        Some(if s[0] == '-' then -n else n)
      else None
    else if s != [] && AllDigits(s) then Some(DigitsValue(s))
    else None
  }

  /** Decimal digits of a natural number, as "%d" prints it. */
  function NatToDecimal(n: nat): (s: string)
    ensures s != [] && AllDigits(s)
  {
    if n < 10 then [DigitChar(n)] else NatToDecimal(n / 10) + [DigitChar(n % 10)]
  }

  /** "%d" of an integer. */
  function IntToDecimal(n: int): string {
    if n < 0 then "-" + NatToDecimal(-n) else NatToDecimal(n)
  }

  /** Python's `s.split('.')`: the pieces between dots, always at least one. */
  function SplitDots(s: string): (parts: seq<string>)
    ensures |parts| >= 1
  {
    if s == [] then [""]
    else
      var rest := SplitDots(s[1..]);
      if s[0] == '.' then [""] + rest else [[s[0]] + rest[0]] + rest[1..]
  }

  /** Python's `'.'.join(parts)`. */
  function JoinDots(parts: seq<string>): string
    requires |parts| >= 1
  {
    if |parts| == 1 then parts[0] else parts[0] + "." + JoinDots(parts[1..])
  }

  /** Every piece is an integer literal. */
  predicate AllParse(parts: seq<string>) {
    forall i :: 0 <= i < |parts| ==> ParseInt(parts[i]).Some?
  }

  /** `int(x) for x in parts`, failing if any component is not an integer. */
  function ParseComponents(parts: seq<string>): (r: Option<seq<int>>)
    ensures r.Some? <==> AllParse(parts)
    ensures r.Some? ==> |r.value| == |parts|
    ensures r.Some? ==> forall i :: 0 <= i < |parts| ==> ParseInt(parts[i]) == Some(r.value[i])
  {
    if parts == [] then Some([])
    else
      var head := ParseInt(parts[0]);
      var tail := ParseComponents(parts[1..]);
      if head.Some? && tail.Some? then Some([head.value] + tail.value) else None
  }

  /** `_parse_version`: "X.Y" (any number of components) to an integer tuple, or ValueError. */
  function ParseVersion(s: string): (r: Result<seq<int>>)
    ensures r.Err? ==> r.error == ValueError
    ensures r.Ok? <==> AllParse(SplitDots(s))
    ensures r.Ok? ==> |r.value| == |SplitDots(s)| >= 1
    ensures r.Ok? ==> forall i :: 0 <= i < |r.value| ==> ParseInt(SplitDots(s)[i]) == Some(r.value[i])
  {
    match ParseComponents(SplitDots(s))
    case Some(v) => Ok(v)
    case None => Err(ValueError)
  }

  /** `'%d.%d' % version`: the pinned version as sent in the version header. */
  function FormatVersion(v: seq<int>): string
    requires |v| == 2
  {
    IntToDecimal(v[0]) + "." + IntToDecimal(v[1])
  }

  function IntValues(v: seq<int>): (r: seq<Value>)
    ensures |r| == |v| && forall i :: 0 <= i < |v| ==> r[i] == Int(v[i])
  {
    seq(|v|, i requires 0 <= i < |v| => Int(v[i]))
  }

  /**
   * `tuple(api_version)` after the int and string conversions of
   * `_check_api_version`. Iterating a dict yields its keys, which are strings
   * here, so only the empty dict gets past the integer check; None is not iterable.
   */
  function AsTuple(spec: Value): Result<seq<Value>> {
    match spec
    case Int(_) => Ok([spec, Int(0)])
    case Bool(_) => Ok([spec, Int(0)])
    case Str(s) => var v :- ParseVersion(s); Ok(IntValues(v))
    case List(items) => Ok(items)
    case Dict(fields) => if fields == map[] then Ok([]) else Err(TypeError)
    case Null => Err(TypeError)
  }

  predicate AllInts(items: seq<Value>) {
    forall i :: 0 <= i < |items| ==> AsInt(items[i]).Some?
  }

  function IntsOf(items: seq<Value>): (r: seq<int>)
    requires AllInts(items)
    ensures |r| == |items| && forall i :: 0 <= i < |items| ==> AsInt(items[i]) == Some(r[i])
  {
    seq(|items|, i requires 0 <= i < |items| => AsInt(items[i]).value)
  }

  /**
   * The normalisation half of `_check_api_version`: an int N becomes (N, 0), a
   * string is parsed, a 1-tuple is padded with 0; a non-integer component is a
   * TypeError (checked before the length), more than two components a ValueError.
   */
  function Normalise(spec: Value): (r: Result<seq<int>>)
    ensures r.Ok? ==> |r.value| == 2 || r.value == []
    ensures r.Err? ==> r.error == TypeError || r.error == ValueError
    ensures spec.Int? ==> r == Ok([spec.i, 0])
    ensures spec.List? && |spec.items| == 1 && AllInts(spec.items) ==> r == Ok(IntsOf(spec.items) + [0])
    ensures spec.List? && |spec.items| == 2 && AllInts(spec.items) ==> r == Ok(IntsOf(spec.items))
    ensures spec.List? && !AllInts(spec.items) ==> r == Err(TypeError)
    ensures spec.List? && spec.items == [] ==> r == Ok([])
    ensures spec.List? && |spec.items| > 2 && AllInts(spec.items) ==> r == Err(ValueError)
    ensures spec.Bool? ==> r == Ok([if spec.b then 1 else 0, 0])
    ensures spec.Str? && ParseVersion(spec.s).Err? ==> r == Err(ValueError)
    ensures spec.Str? && ParseVersion(spec.s).Ok? ==>
      var v := ParseVersion(spec.s).value;
      && (|v| == 1 ==> r == Ok(v + [0]))
      && (|v| == 2 ==> r == Ok(v))
      && (|v| > 2 ==> r == Err(ValueError))
    ensures spec.Dict? ==> r == if spec.fields == map[] then Ok([]) else Err(TypeError)
    ensures spec.Null? ==> r == Err(TypeError)
  {
    match AsTuple(spec)
    case Err(e) => Err(e)
    case Ok(items) =>
      if !AllInts(items) then Err(TypeError)
      else
        var v := IntsOf(items);
        assert spec.Int? ==> v == [spec.i, 0];
        assert spec.Bool? ==> v == [if spec.b then 1 else 0, 0];
        assert spec.Str? ==> v == ParseVersion(spec.s).value;
        if |v| == 1 then Ok(v + [0])
        else if |v| > 2 then Err(ValueError)
        else Ok(v)
  }

  /** Python's `a < b` on integer tuples: lexicographic, a proper prefix is smaller. */
  predicate TupleLess(a: seq<int>, b: seq<int>) {
    if a == [] then b != []
    else if b == [] then false
    else if a[0] != b[0] then a[0] < b[0]
    else TupleLess(a[1..], b[1..])
  }

  predicate TupleLessEq(a: seq<int>, b: seq<int>) { TupleLess(a, b) || a == b }

  /**
   * The range check of `_check_api_version`: `v < minv or v > maxv` raises
   * VersionNotSupported carrying v and the range, otherwise v itself is pinned.
   */
  function CheckAgainst(v: seq<int>, minv: seq<int>, maxv: seq<int>): (r: Result<seq<int>>)
    ensures r.Ok? <==> TupleLessEq(minv, v) && TupleLessEq(v, maxv)
    ensures r.Ok? ==> r.value == v
    ensures r.Err? ==> r.error == VersionNotSupported(v, minv, maxv)
  {
    TupleLessTrichotomy(v, minv);
    TupleLessTrichotomy(maxv, v);
    if TupleLess(v, minv) || TupleLess(maxv, v) then Err(VersionNotSupported(v, minv, maxv))
    else Ok(v)
  }

  // ---------------------------------------------------------------------------
  // Integer formatting and parsing

  lemma {:induction false} NatToDecimalValue(n: nat)
    ensures DigitsValue(NatToDecimal(n)) == n
  {
    if n >= 10 {
      NatToDecimalValue(n / 10);
      var s := NatToDecimal(n / 10) + [DigitChar(n % 10)];
      assert s[..|s| - 1] == NatToDecimal(n / 10);
    }
  }

  /** "%d" followed by `int()` gives back the same integer, negative ones included. */
  lemma IntToDecimalRoundTrip(n: int)
    ensures ParseInt(IntToDecimal(n)) == Some(n)
    ensures '.' !in IntToDecimal(n)
  {
    if n < 0 {
      NatToDecimalValue(-n);
      var s := IntToDecimal(n);
      assert s[1..] == NatToDecimal(-n);
      assert s[0] == '-';
      assert IsDigit(s[1]);
    } else {
      NatToDecimalValue(n);
      assert IsDigit(IntToDecimal(n)[0]);
    }
  }

  // ---------------------------------------------------------------------------
  // Splitting on dots

  lemma {:induction false} SplitUndotted(a: string)
    requires '.' !in a
    ensures SplitDots(a) == [a]
  {
    if a != [] {
      assert '.' !in a[1..] by {
        forall i | 0 <= i < |a[1..]| ensures a[1..][i] != '.' { assert a[1..][i] == a[i + 1]; }
      }
      SplitUndotted(a[1..]);
      assert [a[0]] + a[1..] == a;
    }
  }

  lemma {:induction false} SplitAtFirstDot(a: string, b: string)
    requires '.' !in a
    ensures SplitDots(a + "." + b) == [a] + SplitDots(b)
  {
    var s := a + "." + b;
    if a == [] {
      assert s[1..] == b;
    } else {
      assert '.' !in a[1..] by {
        forall i | 0 <= i < |a[1..]| ensures a[1..][i] != '.' { assert a[1..][i] == a[i + 1]; }
      }
      assert s[1..] == a[1..] + "." + b;
      SplitAtFirstDot(a[1..], b);
      assert [a[0]] + a[1..] == a;
    }
  }

  /** Joining the pieces of `split('.')` with dots gives back the string: split loses nothing. */
  lemma {:induction false} SplitJoin(s: string)
    ensures JoinDots(SplitDots(s)) == s
    ensures forall i :: 0 <= i < |SplitDots(s)| ==> '.' !in SplitDots(s)[i]
  {
    if s != [] {
      SplitJoin(s[1..]);
      var rest := SplitDots(s[1..]);
      if s[0] == '.' {
        assert SplitDots(s) == [""] + rest;
        assert JoinDots(SplitDots(s)) == "" + "." + JoinDots(rest);
        assert s == [s[0]] + s[1..];
      } else {
        var parts := SplitDots(s);
        assert parts == [[s[0]] + rest[0]] + rest[1..];
        assert parts[0] == [s[0]] + rest[0];
        assert '.' !in parts[0] by {
          forall i | 0 <= i < |parts[0]| ensures parts[0][i] != '.' {
            if i > 0 { assert parts[0][i] == rest[0][i - 1]; }
          }
        }
        forall i | 1 <= i < |parts| ensures '.' !in parts[i] { assert parts[i] == rest[i]; }
        if |rest| == 1 {
          assert JoinDots(parts) == [s[0]] + rest[0];
        } else {
          assert parts[1..] == rest[1..];
          assert JoinDots(rest) == rest[0] + "." + JoinDots(rest[1..]);
          assert JoinDots(parts) == ([s[0]] + rest[0]) + "." + JoinDots(rest[1..]);
        }
        assert s == [s[0]] + s[1..];
      }
    }
  }

  // ---------------------------------------------------------------------------
  // Version strings

  /** The version header parses back to the pinned version: `_parse_version('%d.%d' % v) == v`. */
  lemma VersionRoundTrip(v: seq<int>)
    requires |v| == 2
    ensures ParseVersion(FormatVersion(v)) == Ok(v)
  {
    IntToDecimalRoundTrip(v[0]);
    IntToDecimalRoundTrip(v[1]);
    SplitAtFirstDot(IntToDecimal(v[0]), IntToDecimal(v[1]));
    SplitUndotted(IntToDecimal(v[1]));
    var parts := SplitDots(FormatVersion(v));
    assert parts == [IntToDecimal(v[0]), IntToDecimal(v[1])];
    assert parts[1..][1..] == [];
    assert parts[1..][0] == IntToDecimal(v[1]);
    assert ParseComponents(parts[1..][1..]) == Some([]);
    var tail := ParseComponents(parts[1..]);
    assert tail.Some? && tail.value == [v[1]] + [];
    assert tail.value == [v[1]];
    var all := ParseComponents(parts);
    assert all.Some? && all.value == [v[0]] + [v[1]];
    assert all.value == v;
    assert [v[0], v[1]] == v;
  }

  /** A string specifier "X.Y" produced by "%d.%d" normalises to exactly (X, Y). */
  lemma NormaliseFormatted(v: seq<int>)
    requires |v| == 2
    ensures Normalise(Str(FormatVersion(v))) == Ok(v)
  {
    VersionRoundTrip(v);
    var items := IntValues(v);
    assert AllInts(items);
    assert IntsOf(items) == v;
  }

  /** "%d.%d" of (1, 42), one digit at a time. */
  lemma FormatOneFortyTwo()
    ensures FormatVersion([1, 42]) == "1.42"
  {
    assert 42 / 10 == 4 && 42 % 10 == 2;
    assert NatToDecimal(4) == ['4'];
    assert NatToDecimal(42) == ['4'] + ['2'] == "42";
    assert IntToDecimal(1) == "1";
  }

  /** The header default "1.0" and the test range bound "1.42". */
  lemma ParseVersionPairs()
    ensures ParseVersion("1.0") == Ok([1, 0])
    ensures ParseVersion("1.9") == Ok([1, 9])
    ensures ParseVersion("1.42") == Ok([1, 42])
  {
    VersionRoundTrip([1, 0]);
    assert FormatVersion([1, 0]) == "1.0";
    VersionRoundTrip([1, 9]);
    assert FormatVersion([1, 9]) == "1.9";
    VersionRoundTrip([1, 42]);
    FormatOneFortyTwo();
  }

  /** "1.2.3" parses (to a triple, which normalisation then rejects). */
  lemma ParseVersionTriple()
    ensures ParseVersion("1.2.3") == Ok([1, 2, 3])
  {
    SplitTriple();
    ComponentsTriple();
  }

  lemma SplitTriple()
    ensures SplitDots("1.2.3") == ["1", "2", "3"]
  {
    SplitAtFirstDot("1", "2.3");
    SplitAtFirstDot("2", "3");
    SplitUndotted("3");
  }

  lemma ComponentsTriple()
    ensures ParseComponents(["1", "2", "3"]) == Some([1, 2, 3])
  {
    var parts := ["1", "2", "3"];
    assert ParseInt("1") == Some(1) && ParseInt("2") == Some(2) && ParseInt("3") == Some(3);
    assert parts[2..][1..] == [];
    var last := ParseComponents(parts[2..]);
    assert last.Some? && last.value == [3] + [];
    assert last.value == [3];
    var tail := ParseComponents(parts[1..]);
    assert tail.Some? && tail.value == [2] + [3];
    assert tail.value == [2, 3];
    var all := ParseComponents(parts);
    assert all.Some? && all.value == [1] + [2, 3];
    assert all.value == [1, 2, 3];
  }

  /** Non-integer components are a ValueError. */
  lemma ParseVersionMalformed()
    ensures ParseVersion("a.b") == Err(ValueError)
    ensures ParseVersion("foo") == Err(ValueError)
  {
    SplitAtFirstDot("a", "b");
    SplitUndotted("b");
    assert SplitDots("a.b")[0] == "a";
    assert ParseInt("a") == None;
    SplitUndotted("foo");
    assert ParseInt("foo") == None;
  }

  /** The specifiers (1, 0), (1,), 1 and "1.0" all mean (1, 0). */
  lemma NormaliseAccepted()
    ensures Normalise(List([Int(1), Int(0)])) == Ok([1, 0])
    ensures Normalise(List([Int(1)])) == Ok([1, 0])
    ensures Normalise(Int(1)) == Ok([1, 0])
    ensures Normalise(Str("1.0")) == Ok([1, 0])
  {
    NormaliseFormatted([1, 0]);
    assert FormatVersion([1, 0]) == "1.0";
    assert IntsOf([Int(1), Int(0)]) == [1, 0];
    assert IntsOf([Int(1)]) == [1];
    assert [1] + [0] == [1, 0];
  }

  lemma NormaliseIntPair(major: int, minor: int)
    ensures Normalise(List([Int(major), Int(minor)])) == Ok([major, minor])
  {
    var items := [Int(major), Int(minor)];
    assert AllInts(items);
    assert IntsOf(items) == [major, minor];
  }

  /** A string naming only the major version is padded like a 1-tuple: "1" means (1, 0). */
  lemma NormaliseBareMajorString()
    ensures Normalise(Str("1")) == Ok([1, 0])
  {
    SplitUndotted("1");
    assert ParseInt("1") == Some(1);
    assert AllParse(SplitDots("1"));
    var r := ParseVersion("1");
    assert |r.value| == 1 && r.value[0] == 1;
    assert r.value == [1];
    assert [1] + [0] == [1, 0];
  }

  /** (1, "x") is a TypeError and (1, 2, 3) a ValueError. */
  lemma NormaliseRejectsTuples()
    ensures Normalise(List([Int(1), Str("x")])) == Err(TypeError)
    ensures Normalise(List([Int(1), Int(2), Int(3)])) == Err(ValueError)
  {
    assert AsInt([Int(1), Str("x")][1]).None?;
    var three := IntValues([1, 2, 3]);
    assert AllInts(three);
    assert |IntsOf(three)| == 3;
  }

  /** "1.2.3" and "a.b" are ValueErrors. */
  lemma NormaliseRejectsStrings()
    ensures Normalise(Str("1.2.3")) == Err(ValueError)
    ensures Normalise(Str("a.b")) == Err(ValueError)
  {
    NormaliseRejectsTriple();
    ParseVersionMalformed();
  }

  lemma NormaliseRejectsTriple()
    ensures Normalise(Str("1.2.3")) == Err(ValueError)
  {
    ParseVersionTriple();
    var items := IntValues([1, 2, 3]);
    assert AsTuple(Str("1.2.3")) == Ok(items);
    assert AllInts(items);
    assert |IntsOf(items)| == 3;
  }

  // ---------------------------------------------------------------------------
  // Tuple order

  lemma {:induction false} TupleLessIrreflexive(a: seq<int>)
    ensures !TupleLess(a, a)
  {
    if a != [] { TupleLessIrreflexive(a[1..]); }
  }

  /** Python's tuple order is total: exactly one of a < b, a == b, b < a. */
  lemma {:induction false} TupleLessTrichotomy(a: seq<int>, b: seq<int>)
    ensures TupleLess(a, b) || a == b || TupleLess(b, a)
    ensures !(TupleLess(a, b) && TupleLess(b, a))
    ensures a == b ==> !TupleLess(a, b)
  {
    if a != [] && b != [] && a[0] == b[0] {
      TupleLessTrichotomy(a[1..], b[1..]);
      if a[1..] == b[1..] {
        assert a == [a[0]] + a[1..] && b == [b[0]] + b[1..];
      }
    }
  }

  lemma {:induction false} TupleLessTransitive(a: seq<int>, b: seq<int>, c: seq<int>)
    requires TupleLess(a, b) && TupleLess(b, c)
    ensures TupleLess(a, c)
  {
    if a != [] && a[0] == b[0] && b[0] == c[0] {
      TupleLessTransitive(a[1..], b[1..], c[1..]);
    }
  }

  /** On pairs, the order compares majors first and minors only between equal majors. */
  lemma PairOrder(a: seq<int>, b: seq<int>)
    requires |a| == 2 && |b| == 2
    ensures TupleLess(a, b) <==> a[0] < b[0] || (a[0] == b[0] && a[1] < b[1])
  {
    if a[0] == b[0] {
      assert TupleLess(a, b) == TupleLess(a[1..], b[1..]);
      assert a[1..][0] == a[1] && b[1..][0] == b[1];
      assert a[1..][1..] == [] && b[1..][1..] == [];
      assert TupleLess(a[1..], b[1..]) == (a[1] < b[1] || (a[1] == b[1] && TupleLess(a[1..][1..], b[1..][1..])));
    }
  }

  /** The empty tuple is below every version a server can advertise, so it is never supported. */
  lemma EmptyNeverSupported(minv: seq<int>, maxv: seq<int>)
    requires minv != []
    ensures CheckAgainst([], minv, maxv) == Err(VersionNotSupported([], minv, maxv))
  {
  }
}
