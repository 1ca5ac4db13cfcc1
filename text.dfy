/** The `java.lang.String` and `Integer` operations the extension relies on,
    with Java's semantics: `trim`, `contains`, `startsWith`, `endsWith`,
    `indexOf`, `lastIndexOf`, `split` with a one-character literal pattern,
    `Integer.parseInt`, `Integer.toString` and `toLowerCase`. */
module Text {
  import opened Wrappers
  import Sequences

  // ---------------------------------------------------------------------
  // trim

  /** `String.trim` treats every character up to U+0020 as white space. */
  predicate IsTrimmable(c: char) {
    c <= ' '
  }

  function TrimStart(s: string): (r: string)
    ensures |r| <= |s|
  {
    if |s| > 0 && IsTrimmable(s[0]) then TrimStart(s[1..]) else s
  }

  function TrimEnd(s: string): (r: string)
    ensures |r| <= |s|
  {
    if |s| > 0 && IsTrimmable(s[|s| - 1]) then TrimEnd(s[..|s| - 1]) else s
  }

  /** What `TrimStart` cuts off is white space, and what it keeps is a
      suffix starting with a visible character (or nothing). */
  lemma {:induction false} TrimStartSpec(s: string)
    ensures TrimStart(s) == s[|s| - |TrimStart(s)|..]
    ensures forall i :: 0 <= i < |s| - |TrimStart(s)| ==> IsTrimmable(s[i])
    ensures |TrimStart(s)| > 0 ==> !IsTrimmable(TrimStart(s)[0])
    decreases |s|
  {
    if |s| > 0 && IsTrimmable(s[0]) {
      TrimStartSpec(s[1..]);
    }
  }

  /** What `TrimEnd` cuts off is white space, and what it keeps is a
      prefix ending with a visible character (or nothing). */
  lemma {:induction false} TrimEndSpec(s: string)
    ensures TrimEnd(s) == s[..|TrimEnd(s)|]
    ensures forall i :: |TrimEnd(s)| <= i < |s| ==> IsTrimmable(s[i])
    ensures |TrimEnd(s)| > 0 ==> !IsTrimmable(TrimEnd(s)[|TrimEnd(s)| - 1])
    decreases |s|
  {
    if |s| > 0 && IsTrimmable(s[|s| - 1]) {
      TrimEndSpec(s[..|s| - 1]);
    }
  }

  /** `String.trim`: everything before the first and after the last
      character above U+0020 is dropped. */
  function Trim(s: string): (r: string)
    ensures |r| <= |s|
  {
    TrimEnd(TrimStart(s))
  }

  /** The trim is an infix of the text whose first and last characters are
      visible, and it is empty exactly when the text is all white space. */
  lemma TrimSpec(s: string)
    ensures Trim(s) == s[|s| - |TrimStart(s)|..][..|Trim(s)|]
    ensures |Trim(s)| > 0 ==> !IsTrimmable(Trim(s)[0]) && !IsTrimmable(Trim(s)[|Trim(s)| - 1])
    ensures Trim(s) == "" <==> forall i :: 0 <= i < |s| ==> IsTrimmable(s[i])
  {
    var t := TrimStart(s);
    TrimStartSpec(s);
    TrimEndSpec(t);
  }

  /** A text that already starts and ends with visible characters is its
      own trim. */
  lemma TrimOfTrimmed(s: string)
    requires |s| > 0 && !IsTrimmable(s[0]) && !IsTrimmable(s[|s| - 1])
    ensures Trim(s) == s
  {
  }

  /** Leading white space does not change the trim. */
  lemma {:induction false} TrimStartAfterIndent(indent: string, s: string)
    requires forall k :: 0 <= k < |indent| ==> IsTrimmable(indent[k])
    ensures TrimStart(indent + s) == TrimStart(s)
    decreases |indent|
  {
    if |indent| > 0 {
      assert (indent + s)[1..] == indent[1..] + s;
      TrimStartAfterIndent(indent[1..], s);
    } else {
      assert indent + s == s;
    }
  }

  lemma TrimAfterIndent(indent: string, s: string)
    requires forall k :: 0 <= k < |indent| ==> IsTrimmable(indent[k])
    ensures Trim(indent + s) == Trim(s)
  {
    TrimStartAfterIndent(indent, s);
  }

  /** The trim is taken from the text: it holds no character the text
      does not. */
  lemma TrimChars(s: string)
    ensures forall k :: 0 <= k < |Trim(s)| ==> Trim(s)[k] in s
  {
    var t := TrimStart(s);
    TrimStartSpec(s);
    TrimEndSpec(t);
    forall k | 0 <= k < |Trim(s)|
      ensures Trim(s)[k] in s
    {
      assert Trim(s)[k] == t[k];
      assert t[k] == s[|s| - |t| + k];
    }
  }

  lemma {:induction false} TrimIdempotent(s: string)
    ensures Trim(Trim(s)) == Trim(s)
  {
    if Trim(s) != "" {
      TrimSpec(s);
      TrimOfTrimmed(Trim(s));
    }
  }

  // ---------------------------------------------------------------------
  // contains, startsWith, endsWith, indexOf, lastIndexOf

  predicate OccursAt(s: string, p: string, i: nat) {
    i + |p| <= |s| && s[i..i + |p|] == p
  }

  /** `String.contains`. */
  predicate Contains(s: string, p: string) {
    exists i: nat | i <= |s| :: OccursAt(s, p, i)
  }

  predicate StartsWith(s: string, p: string) {
    |p| <= |s| && s[..|p|] == p
  }

  predicate EndsWith(s: string, p: string) {
    |p| <= |s| && s[|s| - |p|..] == p
  }

  /** `String.indexOf(String, int)`: the first occurrence of `p` at or after `k`. */
  function IndexOfFrom(s: string, p: string, k: nat): (r: int)
    requires k <= |s|
    ensures r == -1 || k <= r <= |s|
    ensures r >= 0 ==> OccursAt(s, p, r)
    ensures r >= 0 ==> forall j: nat :: k <= j < r ==> !OccursAt(s, p, j)
    ensures r == -1 ==> forall j: nat :: k <= j <= |s| ==> !OccursAt(s, p, j)
    decreases |s| - k
  {
    if OccursAt(s, p, k) then k
    else if k == |s| then -1
    else IndexOfFrom(s, p, k + 1)
  }

  /** `String.indexOf(String)`. */
  function IndexOf(s: string, p: string): (r: int)
    ensures r == -1 <==> !Contains(s, p)
    ensures r >= 0 ==> r <= |s| && OccursAt(s, p, r)
    ensures r >= 0 ==> forall j: nat :: j < r ==> !OccursAt(s, p, j)
  {
    IndexOfFrom(s, p, 0)
  }

  /** `String.indexOf(char)`. */
  function IndexOfChar(s: string, c: char): (r: int)
    ensures -1 <= r < |s|
    ensures r >= 0 ==> s[r] == c && forall j :: 0 <= j < r ==> s[j] != c
    ensures r == -1 <==> c !in s
  {
    if |s| == 0 then -1
    else if s[0] == c then 0
    else
      var k := IndexOfChar(s[1..], c);
      if k < 0 then -1 else k + 1
  }

  /** `String.lastIndexOf(char)`. */
  function LastIndexOf(s: string, c: char): (r: int)
    ensures -1 <= r < |s|
    ensures r >= 0 ==> s[r] == c && forall j :: r < j < |s| ==> s[j] != c
    ensures r == -1 <==> c !in s
  {
    if |s| == 0 then -1
    else if s[|s| - 1] == c then |s| - 1
    else LastIndexOf(s[..|s| - 1], c)
  }

  /** The last occurrence of `c` in `a + [c] + b` is the separator when `b`
      holds no `c`. */
  lemma {:induction false} LastIndexOfSeparator(a: string, c: char, b: string)
    requires c !in b
    ensures LastIndexOf(a + [c] + b, c) == |a|
  {
    var s := a + [c] + b;
    if |b| > 0 {
      var b' := b[..|b| - 1];
      assert s[|s| - 1] == b[|b| - 1];
      assert s[..|s| - 1] == a + [c] + b';
      LastIndexOfSeparator(a, c, b');
    }
  }

  // ---------------------------------------------------------------------
  // split

  /** Every field of `s` between occurrences of `c`, empty ones included. */
  function SplitFields(s: string, c: char): (r: seq<string>)
    ensures |r| >= 1
    decreases |s|
  {
    var i := IndexOfChar(s, c);
    if i < 0 then [s]
    else [s[..i]] + SplitFields(s[i + 1..], c)
  }

  /** No field holds the separator. */
  lemma {:induction false} SplitFieldsHaveNo(s: string, c: char)
    ensures forall k :: 0 <= k < |SplitFields(s, c)| ==> c !in SplitFields(s, c)[k]
    decreases |s|
  {
    var i := IndexOfChar(s, c);
    if i >= 0 {
      assert c !in s[..i] by {
        forall j | 0 <= j < i ensures s[..i][j] != c { }
      }
      SplitFieldsHaveNo(s[i + 1..], c);
      assert SplitFields(s, c) == [s[..i]] + SplitFields(s[i + 1..], c);
    }
  }

  /** A separator at the end adds one empty field. */
  lemma {:induction false} SplitFieldsSnoc(p: string, c: char)
    ensures SplitFields(p + [c], c) == SplitFields(p, c) + [[]]
    decreases |p|
  {
    var s := p + [c];
    var i := IndexOfChar(p, c);
    if i < 0 {
      assert IndexOfChar(s, c) == |p| by {
        assert s[|p|] == c;
        assert forall j :: 0 <= j < |p| ==> s[j] == p[j];
      }
      assert s[..|p|] == p;
      assert s[|p| + 1..] == [];
      assert SplitFields([], c) == [[]];
      assert SplitFields(s, c) == [p] + [[]];
      assert SplitFields(p, c) == [p];
    } else {
      assert IndexOfChar(s, c) == i by {
        assert forall j :: 0 <= j <= i ==> s[j] == p[j];
      }
      var tail := p[i + 1..];
      assert s[..i] == p[..i];
      assert s[i + 1..] == tail + [c];
      SplitFieldsSnoc(tail, c);
      var rest := SplitFields(tail, c);
      SplitFieldsAt(s, c, i);
      SplitFieldsAt(p, c, i);
      Sequences.Regroup([p[..i]], rest, [[]]);
    }
  }

  /** One step of `SplitFields`: the field before the first separator. */
  lemma SplitFieldsAt(s: string, c: char, i: nat)
    requires i == IndexOfChar(s, c)
    ensures SplitFields(s, c) == [s[..i]] + SplitFields(s[i + 1..], c)
  {
  }

  /** `String.split` drops the empty field a trailing separator makes: a
      text that already holds the separator splits the same with one more
      at its end. */
  lemma SplitIgnoresTrailingSeparator(p: string, c: char)
    requires c in p
    ensures Split(p + [c], c) == Split(p, c)
  {
    SplitFieldsSnoc(p, c);
    var fields := SplitFields(p, c);
    var more := fields + [[]];
    assert more[..|more| - 1] == fields;
    assert DropTrailingEmpty(more) == DropTrailingEmpty(fields);
    assert c in p + [c] by { assert (p + [c])[|p|] == c; }
  }

  /** `String.join`. */
  function Join(parts: seq<string>, sep: string): string {
    if |parts| == 0 then ""
    else if |parts| == 1 then parts[0]
    else parts[0] + sep + Join(parts[1..], sep)
  }

  lemma JoinCons(head: string, rest: seq<string>, sep: string)
    requires |rest| >= 1
    ensures Join([head] + rest, sep) == head + sep + Join(rest, sep)
  {
    assert ([head] + rest)[1..] == rest;
  }

  lemma CutAt(s: string, c: char, i: nat)
    requires i < |s| && s[i] == c
    ensures s == s[..i] + [c] + s[i + 1..]
  {
    assert s[i..] == [c] + s[i + 1..];
    assert s == s[..i] + s[i..];
  }

  /** Joining the fields with the separator gives the text back. */
  lemma {:induction false} JoinSplitFields(s: string, c: char)
    ensures Join(SplitFields(s, c), [c]) == s
    decreases |s|
  {
    var i := IndexOfChar(s, c);
    if i >= 0 {
      var tail := s[i + 1..];
      var rest := SplitFields(tail, c);
      assert SplitFields(s, c) == [s[..i]] + rest;
      JoinSplitFields(tail, c);
      JoinCons(s[..i], rest, [c]);
      CutAt(s, c, i);
    }
  }

  /** Splitting a join of separator-free parts gives the parts back. */
  lemma {:induction false} SplitFieldsOfJoin(parts: seq<string>, c: char)
    requires |parts| >= 1
    requires forall k :: 0 <= k < |parts| ==> c !in parts[k]
    ensures SplitFields(Join(parts, [c]), c) == parts
    decreases |parts|
  {
    if |parts| == 1 {
      assert Join(parts, [c]) == parts[0];
    } else {
      var h, rest := parts[0], parts[1..];
      assert Join(parts, [c]) == h + [c] + Join(rest, [c]);
      SplitFieldsAfterFirst(h, c, Join(rest, [c]));
      SplitFieldsOfJoin(rest, c);
      assert [h] + rest == parts;
    }
  }

  /** A field free of the separator, then the separator, splits off first. */
  lemma SplitFieldsAfterFirst(h: string, c: char, t: string)
    requires c !in h
    ensures SplitFields(h + [c] + t, c) == [h] + SplitFields(t, c)
  {
    var s := h + [c] + t;
    assert s[|h|] == c;
    assert forall j :: 0 <= j < |h| ==> s[j] == h[j];
    var i := IndexOfChar(s, c);
    assert i == |h|;
    SplitFieldsAt(s, c, i);
    assert s[..i] == h;
    assert s[i + 1..] == t;
  }

  /** `String.split` undoes `String.join` when no part holds the separator
      and, of two or more parts, the last is not empty. */
  lemma SplitOfJoin(parts: seq<string>, c: char)
    requires |parts| == 1 || (|parts| >= 2 && parts[|parts| - 1] != "")
    requires forall k :: 0 <= k < |parts| ==> c !in parts[k]
    ensures Split(Join(parts, [c]), c) == parts
  {
    SplitFieldsOfJoin(parts, c);
    if |parts| >= 2 {
      JoinCons(parts[0], parts[1..], [c]);
      assert [parts[0]] + parts[1..] == parts;
      var s := Join(parts, [c]);
      assert s[|parts[0]|] == c;
    } else {
      assert Join(parts, [c]) == parts[0];
    }
  }

  /** Appending one more part to a join. */
  lemma {:induction false} JoinSnoc(parts: seq<string>, x: string, sep: string)
    ensures Join(parts + [x], sep) == if |parts| == 0 then x else Join(parts, sep) + sep + x
  {
    if |parts| >= 2 {
      assert (parts + [x])[1..] == parts[1..] + [x];
      JoinSnoc(parts[1..], x, sep);
    } else if |parts| == 1 {
      assert (parts + [x])[1..] == [x];
    }
  }

  function DropTrailingEmpty(parts: seq<string>): (r: seq<string>)
    ensures |r| <= |parts| && r == parts[..|r|]
    ensures |r| > 0 ==> r[|r| - 1] != ""
    ensures forall k :: |r| <= k < |parts| ==> parts[k] == ""
  {
    if |parts| > 0 && parts[|parts| - 1] == "" then DropTrailingEmpty(parts[..|parts| - 1])
    else parts
  }

  /** `String.split` with a one-character literal pattern and no limit: a
      text without the separator is its own only field; otherwise the
      fields, with trailing empty ones removed. */
  function Split(s: string, c: char): seq<string> {
    if c !in s then [s] else DropTrailingEmpty(SplitFields(s, c))
  }

  // ---------------------------------------------------------------------
  // Integer.parseInt and Integer.toString

  const IntMin: int := -0x8000_0000
  const IntMax: int := 0x7FFF_FFFF

  predicate IsInt32(n: int) {
    IntMin <= n <= IntMax
  }

  /** Java `int` arithmetic: the value taken modulo 2^32 into the signed
      range. */
  function WrapInt(n: int): (r: int)
    ensures IsInt32(r)
    ensures IsInt32(n) ==> r == n
  {
    (n - IntMin) % 0x1_0000_0000 + IntMin
  }

  /** The wrapped value differs from the exact one by a multiple of 2^32. */
  lemma WrapIntCongruent(n: int)
    ensures (WrapInt(n) - n) % 0x1_0000_0000 == 0
  {
  }

  /** `++` on an `int`: the largest value steps to the smallest. */
  function IncInt(n: int): (r: int)
    requires IsInt32(n)
    ensures IsInt32(r)
  {
    if n == IntMax then IntMin else n + 1
  }

  /** Java's `++` is the wrapped successor. */
  lemma IncIntIsWrap(n: int)
    requires IsInt32(n)
    ensures IncInt(n) == WrapInt(n + 1)
  {
    if n == IntMax {
      assert (n + 1 - IntMin) % 0x1_0000_0000 == 0;
    }
  }

  /** An `int` counter started at `start` and bumped `times` times. */
  function Bumped(start: int, times: nat): (r: int)
    requires IsInt32(start)
    ensures IsInt32(r)
  {
    if times == 0 then start else IncInt(Bumped(start, times - 1))
  }

  /** Wrapping once per increment is wrapping the sum. */
  lemma WrapIntStep(n: int)
    ensures WrapInt(WrapInt(n) + 1) == WrapInt(n + 1)
  {
    var m := 0x1_0000_0000;
    var a := n - IntMin;
    var q, r := a / m, a % m;
    assert a == q * m + r && 0 <= r < m;
    if r + 1 < m {
      assert a + 1 == q * m + (r + 1);
      assert (a + 1) % m == r + 1;
    } else {
      assert a + 1 == (q + 1) * m;
      assert (a + 1) % m == 0;
    }
  }

  /** A counter bumped `times` times holds its start plus `times`, wrapped
      to 32 bits. */
  lemma {:induction false} BumpedIsWrap(start: int, times: nat)
    requires IsInt32(start)
    ensures Bumped(start, times) == WrapInt(start + times)
  {
    if times > 0 {
      BumpedIsWrap(start, times - 1);
      IncIntIsWrap(Bumped(start, times - 1));
      WrapIntStep(start + times - 1);
    }
  }

  const LongMin: int := -0x8000_0000_0000_0000
  const LongMax: int := 0x7FFF_FFFF_FFFF_FFFF

  predicate IsInt64(n: int) {
    LongMin <= n <= LongMax
  }

  /** Java `long` arithmetic: the value taken modulo 2^64 into the signed
      range. */
  function WrapLong(n: int): (r: int)
    ensures IsInt64(r)
    ensures IsInt64(n) ==> r == n
  {
    (n - LongMin) % 0x1_0000_0000_0000_0000 + LongMin
  }

  /** `+` on two `long` values: a sum out of range comes back in by one
      turn of 2^64. */
  function AddLong(a: int, b: int): (r: int)
    requires IsInt64(a) && IsInt64(b)
    ensures IsInt64(r)
  {
    var sum := a + b;
    if sum > LongMax then sum - 0x1_0000_0000_0000_0000
    else if sum < LongMin then sum + 0x1_0000_0000_0000_0000
    else sum
  }

  /** The `long` sum is the wrapped exact sum. */
  lemma AddLongIsWrap(a: int, b: int)
    requires IsInt64(a) && IsInt64(b)
    ensures AddLong(a, b) == WrapLong(a + b)
  {
    var m := 0x1_0000_0000_0000_0000;
    var sum := a + b;
    if sum > LongMax {
      assert (sum - LongMin) == (sum - m - LongMin) + m;
      assert (sum - LongMin) % m == sum - m - LongMin;
    } else if sum < LongMin {
      assert (sum - LongMin) == (sum + m - LongMin) - m;
      assert (sum - LongMin) % m == sum + m - LongMin;
    }
  }

  predicate IsDigit(c: char) {
    '0' <= c <= '9'
  }

  predicate AllDigits(s: string) {
    forall k :: 0 <= k < |s| ==> IsDigit(s[k])
  }

  function DigitValue(c: char): nat
    requires IsDigit(c)
  {
    (c as int) - ('0' as int)
  }

  function DigitsValue(s: string): nat
    requires AllDigits(s)
  {
    if |s| == 0 then 0 else DigitsValue(s[..|s| - 1]) * 10 + DigitValue(s[|s| - 1])
  }

  /** The text after an optional leading sign. */
  function Unsigned(s: string): string {
    if |s| > 0 && (s[0] == '-' || s[0] == '+') then s[1..] else s
  }

  /** The magnitude `m` with the text's sign. */
  function Signed(s: string, m: int): int {
    if |s| > 0 && s[0] == '-' then -m else m
  }

  /** `Integer.parseInt` in radix 10: an optional sign followed by at least
      one ASCII digit, the value inside the 32-bit range. */
  function ParseInt(s: string): (r: Option<int>)
    ensures r.Some? <==>
      |Unsigned(s)| > 0 && AllDigits(Unsigned(s)) && IsInt32(Signed(s, DigitsValue(Unsigned(s))))
    ensures r.Some? ==> r.value == Signed(s, DigitsValue(Unsigned(s))) && IsInt32(r.value)
  {
    if |s| == 0 then None
    else
      var digits := if s[0] == '-' || s[0] == '+' then s[1..] else s;
      if |digits| == 0 || !AllDigits(digits) then None
      else
        var magnitude: int := DigitsValue(digits);
        var v := if s[0] == '-' then -magnitude else magnitude;
        if IsInt32(v) then Some(v) else None
  }

  /** `k` zero digits. */
  function Zeros(k: nat): (r: string)
    ensures |r| == k && AllDigits(r)
  {
    if k == 0 then "" else Zeros(k - 1) + "0"
  }

  lemma {:induction false} ZerosValue(k: nat)
    ensures DigitsValue(Zeros(k)) == 0
  {
    if k > 0 {
      ZerosValue(k - 1);
      assert Zeros(k)[..k - 1] == Zeros(k - 1);
    }
  }

  /** Leading zeros do not change the value of a digit string. */
  lemma {:induction false} LeadingZerosValue(k: nat, d: string)
    requires AllDigits(d)
    ensures AllDigits(Zeros(k) + d) && DigitsValue(Zeros(k) + d) == DigitsValue(d)
    decreases |d|
  {
    var s := Zeros(k) + d;
    assert forall i :: 0 <= i < |s| ==> IsDigit(s[i]) by {
      forall i | 0 <= i < |s| ensures IsDigit(s[i]) {
        if i >= k { assert s[i] == d[i - k]; }
      }
    }
    if |d| == 0 {
      assert s == Zeros(k);
      ZerosValue(k);
    } else {
      var init := d[..|d| - 1];
      assert s[..|s| - 1] == Zeros(k) + init;
      assert s[|s| - 1] == d[|d| - 1];
      LeadingZerosValue(k, init);
    }
  }

  /** Every text `Integer.parseInt` accepts in radix 10, not only the
      canonical one: a `+`, `-` or no sign, any number of leading zeros,
      then the digits of `n`. The result is the signed value when it fits
      in an `int` (so `-0` is 0 and `+5` is 5), and an error otherwise. */
  lemma ParseIntPadded(sign: string, zeros: nat, n: nat)
    requires sign == "" || sign == "+" || sign == "-"
    ensures var v := if sign == "-" then -(n as int) else n as int;
      ParseInt(sign + Zeros(zeros) + NatToString(n)) == if IsInt32(v) then Some(v) else None
  {
    var digits := NatToString(n);
    var d := Zeros(zeros) + digits;
    Sequences.Regroup(sign, Zeros(zeros), digits);
    PaddedValue(zeros, n);
    ParseIntSigned(sign, d, n);
  }

  lemma PaddedValue(zeros: nat, n: nat)
    ensures var d := Zeros(zeros) + NatToString(n);
      |d| > 0 && AllDigits(d) && DigitsValue(d) == n
  {
    LeadingZerosValue(zeros, NatToString(n));
    NatToStringValue(n);
  }

  lemma ParseIntSigned(sign: string, d: string, n: nat)
    requires sign == "" || sign == "+" || sign == "-"
    requires |d| > 0 && AllDigits(d) && DigitsValue(d) == n
    ensures var v := if sign == "-" then -(n as int) else n as int;
      ParseInt(sign + d) == if IsInt32(v) then Some(v) else None
  {
    SignedText(sign, d);
  }

  /** A sign followed by a non-empty digit string. */
  lemma SignedText(sign: string, d: string)
    requires sign == "" || sign == "+" || sign == "-"
    requires |d| > 0 && AllDigits(d)
    ensures Unsigned(sign + d) == d
    ensures Signed(sign + d, DigitsValue(d)) == if sign == "-" then -(DigitsValue(d) as int) else DigitsValue(d) as int
  {
    var s := sign + d;
    if sign == "" {
      assert s == d && IsDigit(d[0]);
    } else {
      assert s[0] == sign[0];
      assert s[1..] == d;
    }
  }

  function DigitChar(d: nat): (c: char)
    requires d < 10
    ensures IsDigit(c) && DigitValue(c) == d
  {
    (('0' as int) + d) as char
  }

  function NatToString(n: nat): (r: string)
    ensures |r| >= 1 && AllDigits(r)
  {
    if n < 10 then [DigitChar(n)] else NatToString(n / 10) + [DigitChar(n % 10)]
  }

  /** `Integer.toString`. */
  function IntToString(n: int): string {
    if n < 0 then "-" + NatToString(-n) else NatToString(n)
  }

  lemma {:induction false} NatToStringValue(n: nat)
    ensures DigitsValue(NatToString(n)) == n
  {
    if n >= 10 {
      NatToStringValue(n / 10);
      var s := NatToString(n);
      assert s[..|s| - 1] == NatToString(n / 10);
    }
  }

  /** `Integer.parseInt(Integer.toString(n)) == n`. */
  lemma ParseIntOfIntToString(n: int)
    requires IsInt32(n)
    ensures ParseInt(IntToString(n)) == Some(n)
  {
    if n < 0 {
      ParseIntOfNegative(n);
    } else {
      var s := NatToString(n);
      NatToStringValue(n);
      assert IsDigit(s[0]);
      assert s[0] != '-' && s[0] != '+';
    }
  }

  lemma ParseIntOfNegative(n: int)
    requires IsInt32(n) && n < 0
    ensures ParseInt(IntToString(n)) == Some(n)
  {
    var s := IntToString(n);
    var digits := NatToString(-n);
    NatToStringValue(-n);
    assert s[0] == '-';
    assert s[1..] == digits;
  }

  lemma IntToStringHasNo(n: int, c: char)
    requires c != '-' && !IsDigit(c)
    ensures c !in IntToString(n)
  {
    var s := IntToString(n);
    if n < 0 {
      assert forall k :: 1 <= k < |s| ==> s[k] == NatToString(-n)[k - 1];
    }
  }

  // ---------------------------------------------------------------------
  // toLowerCase

  /** `Character`-wise lower-casing as `String.toLowerCase` does it, for the
      characters whose lower case is ASCII: `A`-`Z`, KELVIN SIGN (U+212A,
      lower case `k`) and LATIN CAPITAL LETTER I WITH DOT ABOVE (U+0130,
      lower case `i` followed by U+0307). Every other character is kept,
      which cannot change whether an ASCII text occurs in the result. */
  function LowerChar(c: char): string {
    if 'A' <= c <= 'Z' then [((c as int) + 32) as char]
    else if c == '\U{212A}' then "k"
    else if c == '\U{0130}' then "i\U{0307}"
    else [c]
  }

  function ToLower(s: string): string {
    if |s| == 0 then "" else LowerChar(s[0]) + ToLower(s[1..])
  }

  // ---------------------------------------------------------------------
  // building text line by line

  /** Every line followed by a line feed, as a `StringBuilder` loop that
      appends `line` and then `"\n"` produces. */
  function LinesText(lines: seq<string>): string {
    if |lines| == 0 then "" else LinesText(lines[..|lines| - 1]) + lines[|lines| - 1] + "\n"
  }
}
