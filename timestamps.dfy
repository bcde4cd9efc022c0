/** Slack message timestamps (`ts`): a string of whole seconds, a '.', and a
    sub-second part. This module turns a `ts` into the second it names, and
    defines the string order in which histories are sorted. */
module TimeStamps {
  import opened Types

  const SecondsPerDay: nat := 86400

  /** The last second of 9999-12-31 (UTC); a later one has no calendar date
      and the conversion to a UTC datetime fails. */
  const MaxSeconds: nat := 253402300799

  /** Occurrences of `c` in `s`. */
  function Count(s: string, c: char): (n: nat)
    ensures n > 0 <==> c in s
    ensures n <= |s|
  {
    if s == [] then 0
    else (if s[0] == c then 1 else 0) + Count(s[1..], c)
  }

  /** The pieces of `s` between occurrences of `c`, as a one-character
      separator splits a string: no occurrence gives `[s]`, and two adjacent
      occurrences give an empty piece between them. */
  function Split(s: string, c: char): (parts: seq<string>)
    ensures |parts| == Count(s, c) + 1
    ensures forall k :: 0 <= k < |parts| ==> c !in parts[k]
  {
    if s == [] then [""]
    else
      var rest := Split(s[1..], c);
      if s[0] == c then [""] + rest
      else [[s[0]] + rest[0]] + rest[1..]
  }

  /** The pieces with the separator put back between them. */
  function Join(parts: seq<string>, c: char): string
    requires parts != []
    decreases |parts|
  {
    if |parts| == 1 then parts[0] else parts[0] + [c] + Join(parts[1..], c)
  }

  /** Splitting loses nothing: putting the separator back between the
      pieces gives the string back. */
  lemma {:induction false} SplitJoin(s: string, c: char)
    ensures Join(Split(s, c), c) == s
    decreases |s|
  {
    if s != [] {
      var rest := Split(s[1..], c);
      SplitJoin(s[1..], c);
      assert s == [s[0]] + s[1..];
      if s[0] == c {
        assert ([""] + rest)[1..] == rest;
      } else {
        JoinFirst(s[0], rest, c);
      }
    }
  }

  /** A character put in front of the first piece comes first in the
      joined string. */
  lemma JoinFirst(x: char, parts: seq<string>, c: char)
    requires parts != []
    ensures Join([[x] + parts[0]] + parts[1..], c) == [x] + Join(parts, c)
  {
    var ps := [[x] + parts[0]] + parts[1..];
    if |parts| > 1 {
      assert ps[1..] == parts[1..];
    }
  }

  /** Splitting at the only separator gives the two sides. */
  lemma {:induction false} SplitAround(a: string, b: string, c: char)
    requires c !in a && c !in b
    ensures Split(a + [c] + b, c) == [a, b]
  {
    if a == [] {
      assert a + [c] + b == [c] + b;
      SplitNone(b, c);
    } else {
      assert (a + [c] + b)[1..] == a[1..] + [c] + b;
      SplitAround(a[1..], b, c);
      assert [a[0]] + a[1..] == a;
    }
  }

  lemma {:induction false} SplitNone(s: string, c: char)
    requires c !in s
    ensures Split(s, c) == [s]
  {
    if s != [] {
      SplitNone(s[1..], c);
      assert [s[0]] + s[1..] == s;
    }
  }

  predicate IsDigit(ch: char) {
    '0' <= ch <= '9'
  }

  predicate AllDigits(s: string) {
    forall k :: 0 <= k < |s| ==> IsDigit(s[k])
  }

  /** A non-empty run of decimal digits, the only seconds part this model
      reads as a number. */
  predicate IsDigits(s: string) {
    |s| > 0 && AllDigits(s)
  }

  lemma DigitsHaveNoDot(s: string)
    requires AllDigits(s)
    ensures '.' !in s
  {
    forall k | 0 <= k < |s| ensures s[k] != '.' {
      assert IsDigit(s[k]);
    }
  }

  function DigitValue(ch: char): (d: nat)
    requires IsDigit(ch)
    ensures d < 10
  {
    ch as int - '0' as int
  }

  function DigitChar(d: nat): (ch: char)
    requires d < 10
    ensures IsDigit(ch) && DigitValue(ch) == d
  {
    ('0' as int + d) as char
  }

  /** The number a run of decimal digits stands for (leading zeros allowed). */
  function Value(s: string): nat
    requires AllDigits(s)
  {
    if s == [] then 0
    else Value(s[..|s| - 1]) * 10 + DigitValue(s[|s| - 1])
  }

  function Pow10(k: nat): (p: nat)
    ensures p >= 1
  {
    if k == 0 then 1 else 10 * Pow10(k - 1)
  }

  /** The decimal rendering of `n`, without leading zeros. */
  function Decimal(n: nat): (s: string)
    ensures IsDigits(s) && Value(s) == n
  {
    var last := [DigitChar(n % 10)];
    var s := if n < 10 then last else Decimal(n / 10) + last;
    assert s[..|s| - 1] == (if n < 10 then [] else Decimal(n / 10));
    s
  }

  /** What the whole-seconds part of a `ts` converts to: the second it names,
      or the error the number conversion or the date conversion raises. */
  function Seconds(part: string): (r: Result<nat>)
    ensures r.Ok? <==> IsDigits(part) && Value(part) <= MaxSeconds
    ensures r.Ok? ==> r.value == Value(part)
  {
    if !IsDigits(part) then Err(InvalidSeconds)
    else if Value(part) > MaxSeconds then Err(StampOutOfRange)
    else Ok(Value(part))
  }

  /** A parsed `ts`: no second at all when it holds no '.', and otherwise
      the second its part before the '.' names. */
  datatype Stamp = NoStamp | At(secs: nat)

  /** The timestamp parser. Without a '.' it yields no value; with more than
      one it fails; with exactly one it converts the part before the '.'. */
  function ParseTimeStamp(ts: string): Result<Stamp> {
    if '.' !in ts then Ok(NoStamp)
    else
      var parts := Split(ts, '.');
      if |parts| != 2 then Err(InvalidTimeStamp)
      else
        var secs :- Seconds(parts[0]);
        Ok(At(secs))
  }

  /** The outcomes of the parser: no value exactly when there is no '.',
      the too-many-dots error exactly when there are several, and otherwise
      the value of the whole-seconds part or the error converting it. */
  lemma ParseTimeStampCases(ts: string)
    ensures ParseTimeStamp(ts) == Ok(NoStamp) <==> '.' !in ts
    ensures ParseTimeStamp(ts) == Err(InvalidTimeStamp) <==> Count(ts, '.') > 1
    ensures Count(ts, '.') == 1 ==> ParseTimeStamp(ts) == (var s :- Seconds(Split(ts, '.')[0]); Ok(At(s)))
    ensures ParseTimeStamp(ts).Ok? && ParseTimeStamp(ts).value.At? ==> ParseTimeStamp(ts).value.secs <= MaxSeconds
  {
  }

  /** Two stamps with the same whole-seconds part parse alike: the part
      after the '.' is never looked at. */
  lemma SameSecondsSameStamp(secs: string, frac1: string, frac2: string)
    requires '.' !in secs && '.' !in frac1 && '.' !in frac2
    ensures ParseTimeStamp(secs + "." + frac1) == ParseTimeStamp(secs + "." + frac2)
  {
    SplitAround(secs, frac1, '.');
    SplitAround(secs, frac2, '.');
    assert '.' in secs + "." + frac1 && '.' in secs + "." + frac2 by {
      assert (secs + "." + frac1)[|secs|] == '.';
      assert (secs + "." + frac2)[|secs|] == '.';
    }
  }

  /** Rendering a second (that has a date) and a sub-second part as a `ts`
      and parsing it back gives that second. */
  lemma StampRoundTrip(n: nat, frac: string)
    requires n <= MaxSeconds && '.' !in frac
    ensures ParseTimeStamp(Decimal(n) + "." + frac) == Ok(At(n))
  {
    var d := Decimal(n);
    DigitsHaveNoDot(d);
    SplitAround(d, frac, '.');
    assert (d + "." + frac)[|d|] == '.';
  }

  // ---------------------------------------------------------------------------
  // String order: strings compare by their first differing character, and a
  // proper prefix comes first. Histories are sorted by `ts` in this order.

  predicate LexLe(a: string, b: string) {
    if a == [] then true
    else if b == [] then false
    else if a[0] != b[0] then a[0] < b[0]
    else LexLe(a[1..], b[1..])
  }

  lemma {:induction false} LexLeTotal(a: string, b: string)
    ensures LexLe(a, b) || LexLe(b, a)
  {
    if a != [] && b != [] && a[0] == b[0] {
      LexLeTotal(a[1..], b[1..]);
    }
  }

  lemma {:induction false} LexLeTrans(a: string, b: string, c: string)
    requires LexLe(a, b) && LexLe(b, c)
    ensures LexLe(a, c)
  {
    if a != [] && b != [] && c != [] && a[0] == b[0] && b[0] == c[0] {
      LexLeTrans(a[1..], b[1..], c[1..]);
    }
  }

  /** Comparing two strings that start with equally long parts: if the
      strings are in order, so are those parts. */
  lemma {:induction false} LexLePrefix(p: string, x: string, q: string, y: string)
    requires |p| == |q| && LexLe(p + x, q + y)
    ensures LexLe(p, q)
  {
    if p != [] && p[0] == q[0] {
      assert (p + x)[1..] == p[1..] + x && (q + y)[1..] == q[1..] + y;
      LexLePrefix(p[1..], x, q[1..], y);
    }
  }

  lemma {:induction false} ValueAppend(a: string, b: string)
    requires AllDigits(a) && AllDigits(b)
    ensures AllDigits(a + b)
    ensures Value(a + b) == Value(a) * Pow10(|b|) + Value(b)
  {
    if b != [] {
      var b' := b[..|b| - 1];
      var d := DigitValue(b[|b| - 1]);
      assert (a + b)[..|a + b| - 1] == a + b';
      ValueAppend(a, b');
      assert Value(a + b) == Value(a + b') * 10 + d;
      ShiftDigit(Value(a), Pow10(|b'|), Value(b'), d);
    } else {
      assert a + b == a;
    }
  }

  lemma ShiftDigit(x: nat, p: nat, y: nat, d: nat)
    ensures (x * p + y) * 10 + d == x * (10 * p) + (y * 10 + d)
  {
    assert (x * p) * 10 == x * (10 * p);
  }

  lemma {:induction false} ValueBound(s: string)
    requires AllDigits(s)
    ensures Value(s) < Pow10(|s|)
  {
    if s != [] {
      ValueBound(s[..|s| - 1]);
    }
  }

  lemma LeadingDigitDecides(da: nat, db: nat, p: nat, ra: nat, rb: nat)
    requires da < db && ra < p
    ensures da * p + ra < db * p + rb
  {
    assert (da + 1) * p <= db * p;
  }

  /** On digit runs of one length, string order is numeric order. */
  lemma {:induction false} DigitsOrder(a: string, b: string)
    requires |a| == |b| && AllDigits(a) && AllDigits(b) && LexLe(a, b)
    ensures Value(a) <= Value(b)
  {
    if a != [] {
      var p := Pow10(|a| - 1);
      assert a == [a[0]] + a[1..] && b == [b[0]] + b[1..];
      ValueAppend([a[0]], a[1..]);
      ValueAppend([b[0]], b[1..]);
      assert Value([a[0]]) == DigitValue(a[0]) && Value([b[0]]) == DigitValue(b[0]) by {
        assert [a[0]][..0] == [] && [b[0]][..0] == [];
      }
      if a[0] == b[0] {
        DigitsOrder(a[1..], b[1..]);
      } else {
        ValueBound(a[1..]);
        LeadingDigitDecides(DigitValue(a[0]), DigitValue(b[0]), p, Value(a[1..]), Value(b[1..]));
      }
    }
  }

  /** A `ts` whose whole-seconds part is exactly `width` digits long, as
      Slack's fixed-width timestamps are. */
  predicate StampOfWidth(ts: string, width: nat) {
    width < |ts| && IsDigits(ts[..width]) && ts[width] == '.' && '.' !in ts[width + 1..]
  }

  /** A fixed-width `ts` parses to the value of its digits. */
  lemma FixedWidthParses(ts: string, width: nat)
    requires StampOfWidth(ts, width)
    ensures ParseTimeStamp(ts) == (var s :- Seconds(ts[..width]); Ok(At(s)))
  {
    var secs := ts[..width];
    DigitsHaveNoDot(secs);
    assert ts == secs + "." + ts[width + 1..];
    SplitAround(secs, ts[width + 1..], '.');
  }

  /** For fixed-width stamps, string order is the order of the seconds they
      name: sorting a history by `ts` sorts it by time. */
  lemma StringOrderIsTimeOrder(a: string, b: string, width: nat)
    requires StampOfWidth(a, width) && StampOfWidth(b, width) && LexLe(a, b)
    ensures Value(a[..width]) <= Value(b[..width])
  {
    assert a == a[..width] + a[width..] && b == b[..width] + b[width..];
    LexLePrefix(a[..width], a[width..], b[..width], b[width..]);
    DigitsOrder(a[..width], b[..width]);
  }
}
