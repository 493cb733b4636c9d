/** Failure-carrying wrappers shared by every module of the model. */
module Wrappers {

  datatype Option<+T> = None | Some(value: T) {
    function GetOr(default: T): T {
      match this
      case Some(v) => v
      case None => default
    }
  }

  /** The outcome of an operation that the source either completes or aborts by throwing. */
  datatype Result<+T, +E> = Ok(value: T) | Err(error: E)
}

/**
 * String operations with the semantics the Python scripts and the JavaScript services rely on:
 * substring tests, `split` on one character, `join`, `strip`/`trim`, ASCII lower-casing,
 * decimal and hexadecimal rendering of integers and code-unit-wise string comparison.
 */
module Strings {

  /** The whitespace that `str.strip()` and `String.prototype.trim()` remove (ASCII, NBSP, ideographic space). */
  predicate IsWhitespace(c: char) {
    c == ' ' || c == '\t' || c == '\n' || c == '\r' || c == '\U{000B}' || c == '\U{000C}'
    || c == '\U{00A0}' || c == '\U{3000}'
  }

  predicate IsDigit(c: char) { '0' <= c <= '9' }

  predicate IsUpperAscii(c: char) { 'A' <= c <= 'Z' }

  predicate AllDigits(s: string) { forall i :: 0 <= i < |s| ==> IsDigit(s[i]) }

  predicate StartsWith(s: string, p: string) { |p| <= |s| && s[..|p|] == p }

  predicate EndsWith(s: string, p: string) { |p| <= |s| && s[|s| - |p|..] == p }

  /** `p in s` in Python, `s.includes(p)` in JavaScript. */
  predicate Contains(s: string, p: string)
    decreases |s|
  {
    StartsWith(s, p) || (|s| > 0 && Contains(s[1..], p))
  }

  lemma {:induction false} ContainsChars(s: string, p: string)
    requires Contains(s, p)
    ensures forall c :: c in p ==> c in s
  {
    if StartsWith(s, p) {
      forall c | c in p ensures c in s {
        var k :| 0 <= k < |p| && p[k] == c;
        assert s[k] == c;
      }
    } else {
      ContainsChars(s[1..], p);
      forall c | c in p ensures c in s {
        assert c in s[1..];
      }
    }
  }

  /** A pattern holding a character the string lacks does not occur in it. */
  lemma {:induction false} MissingCharNotContained(s: string, p: string, k: nat)
    requires k < |p| && p[k] !in s
    ensures !Contains(s, p)
    decreases |s|
  {
    if |p| <= |s| {
      assert s[k] in s;
      assert s[..|p|][k] != p[k];
    }
    if |s| > 0 {
      assert forall c :: c in s[1..] ==> c in s;
      MissingCharNotContained(s[1..], p, k);
    }
  }

  lemma {:induction false} ContainsInLeft(a: string, b: string, p: string)
    requires Contains(a, p)
    ensures Contains(a + b, p)
  {
    if StartsWith(a, p) {
      assert (a + b)[..|p|] == a[..|p|];
    } else {
      ContainsInLeft(a[1..], b, p);
      assert (a + b)[1..] == a[1..] + b;
    }
  }

  function LowerChar(c: char): (r: char)
    ensures !IsUpperAscii(r)
    ensures !IsUpperAscii(c) ==> r == c
  {
    if IsUpperAscii(c) then (c as int + 32) as char else c
  }

  /** `str.lower()` / `toLowerCase()` restricted to ASCII letters. */
  function Lower(s: string): (r: string)
    ensures |r| == |s|
    ensures forall i :: 0 <= i < |s| ==> r[i] == LowerChar(s[i])
  {
    seq(|s|, i requires 0 <= i < |s| => LowerChar(s[i]))
  }

  function TrimStart(s: string): (r: string)
    ensures |r| <= |s| && (|r| > 0 ==> !IsWhitespace(r[0]))
    decreases |s|
  {
    if |s| > 0 && IsWhitespace(s[0]) then TrimStart(s[1..]) else s
  }

  function TrimEnd(s: string): (r: string)
    ensures |r| <= |s| && (|r| > 0 ==> !IsWhitespace(r[|r| - 1]))
    decreases |s|
  {
    if |s| > 0 && IsWhitespace(s[|s| - 1]) then TrimEnd(s[..|s| - 1]) else s
  }

  /** Trimming the start keeps a suffix. */
  lemma {:induction false} TrimStartSuffix(s: string)
    ensures TrimStart(s) == s[|s| - |TrimStart(s)|..]
    decreases |s|
  {
    if |s| > 0 && IsWhitespace(s[0]) {
      TrimStartSuffix(s[1..]);
    }
  }

  /** Trimming the end keeps a prefix. */
  lemma {:induction false} TrimEndPrefix(s: string)
    ensures TrimEnd(s) == s[..|TrimEnd(s)|]
    decreases |s|
  {
    if |s| > 0 && IsWhitespace(s[|s| - 1]) {
      TrimEndPrefix(s[..|s| - 1]);
    }
  }

  /** `str.strip()` / `String.prototype.trim()`. */
  function Strip(s: string): (r: string)
    ensures |r| <= |s|
    ensures |r| > 0 ==> !IsWhitespace(r[0]) && !IsWhitespace(r[|r| - 1])
  {
    TrimStartSuffix(TrimEnd(s));
    TrimStart(TrimEnd(s))
  }

  predicate IsBlank(s: string) { Strip(s) == "" }

  /** `s.split(sep)` for a one-character separator: always at least one part, no part holds `sep`. */
  function Split(s: string, sep: char): (parts: seq<string>)
    ensures |parts| >= 1
    ensures forall i :: 0 <= i < |parts| ==> sep !in parts[i]
    decreases |s|
  {
    if |s| == 0 then [""]
    else
      var rest := Split(s[1..], sep);
      if s[0] == sep then [""] + rest
      else [[s[0]] + rest[0]] + rest[1..]
  }

  /** `sep.join(parts)` in Python, `parts.join(sep)` in JavaScript. */
  function Join(parts: seq<string>, sep: string): string
  {
    if |parts| == 0 then ""
    else if |parts| == 1 then parts[0]
    else parts[0] + sep + Join(parts[1..], sep)
  }

  lemma {:induction false} SplitNoSep(s: string, sep: char)
    requires sep !in s
    ensures Split(s, sep) == [s]
    decreases |s|
  {
    if |s| > 0 {
      SplitNoSep(s[1..], sep);
      assert [s[0]] + s[1..] == s;
    }
  }

  lemma {:induction false} SplitAppend(a: string, sep: char, b: string)
    requires sep !in a
    ensures Split(a + [sep] + b, sep) == [a] + Split(b, sep)
    decreases |a|
  {
    if |a| == 0 {
      assert a + [sep] + b == [sep] + b;
      assert ([sep] + b)[1..] == b;
    } else {
      assert (a + [sep] + b)[1..] == a[1..] + [sep] + b;
      SplitAppend(a[1..], sep, b);
      assert [a[0]] + a[1..] == a;
    }
  }

  /** Joining the parts of a split gives back the string. */
  lemma {:induction false} JoinSplit(s: string, sep: char)
    ensures Join(Split(s, sep), [sep]) == s
    decreases |s|
  {
    if |s| > 0 {
      JoinSplit(s[1..], sep);
      var rest := Split(s[1..], sep);
      if s[0] == sep {
        assert Join([""] + rest, [sep]) == "" + [sep] + Join(rest, [sep]);
        assert "" + [sep] + s[1..] == s;
      } else {
        var parts := [[s[0]] + rest[0]] + rest[1..];
        if |rest| == 1 {
          assert Join(parts, [sep]) == [s[0]] + rest[0];
          assert [s[0]] + s[1..] == s;
        } else {
          assert parts[1..] == rest[1..];
          assert Join(rest, [sep]) == rest[0] + [sep] + Join(rest[1..], [sep]);
          assert Join(parts, [sep]) == [s[0]] + rest[0] + [sep] + Join(rest[1..], [sep]);
          assert [s[0]] + s[1..] == s;
        }
      }
    }
  }

  /** Splitting a join gives back the parts when no part holds the separator. */
  lemma {:induction false} SplitJoin(parts: seq<string>, sep: char)
    requires |parts| >= 1
    requires forall i :: 0 <= i < |parts| ==> sep !in parts[i]
    ensures Split(Join(parts, [sep]), sep) == parts
  {
    if |parts| == 1 {
      SplitNoSep(parts[0], sep);
    } else {
      SplitJoin(parts[1..], sep);
      SplitAppend(parts[0], sep, Join(parts[1..], [sep]));
      assert [parts[0]] + parts[1..] == parts;
    }
  }

  /** Joining one more part appends the separator and the part. */
  lemma {:induction false} JoinAppend(parts: seq<string>, x: string, sep: string)
    requires |parts| >= 1
    ensures Join(parts + [x], sep) == Join(parts, sep) + sep + x
  {
    if |parts| > 1 {
      JoinAppend(parts[1..], x, sep);
      assert (parts + [x])[1..] == parts[1..] + [x];
    }
  }

  /** Trimming a string whose ends are not whitespace changes nothing. */
  lemma StripUnchanged(s: string)
    requires |s| > 0 && !IsWhitespace(s[0]) && !IsWhitespace(s[|s| - 1])
    ensures Strip(s) == s
  {
    assert TrimEnd(s) == s;
    assert TrimStart(s) == s;
  }

  /** Stripping a stripped string changes nothing. */
  lemma StripIdempotent(s: string)
    ensures Strip(Strip(s)) == Strip(s)
  {
    var r := Strip(s);
    if |r| > 0 {
      assert TrimEnd(r) == r;
      assert TrimStart(r) == r;
    }
  }

  /** A stripped string holds only characters of the original. */
  lemma StripChars(s: string)
    ensures forall c :: c in Strip(s) ==> c in s
  {
    var t := TrimEnd(s);
    TrimEndPrefix(s);
    var r := TrimStart(t);
    TrimStartSuffix(t);
    forall c | c in r ensures c in s {
      var k :| 0 <= k < |r| && r[k] == c;
      assert s[|t| - |r| + k] == c;
    }
  }

  function DigitChar(d: nat): (c: char)
    requires d < 16
  {
    "0123456789abcdef"[d]
  }

  function DigitValue(c: char): (d: nat)
    requires IsDigit(c)
    ensures d < 10
  {
    c as int - '0' as int
  }

  /** `String(n)` for a non-negative integer. */
  function NatToString(n: nat): (r: string)
    ensures |r| >= 1 && AllDigits(r)
    ensures n < 10 <==> |r| == 1
  {
    if n < 10 then [DigitChar(n)] else NatToString(n / 10) + [DigitChar(n % 10)]
  }

  /** `String(n)` for an integer. */
  function IntToString(n: int): (r: string)
    ensures |r| >= 1
    ensures n >= 0 ==> r == NatToString(n)
    ensures n < 0 ==> r == "-" + NatToString(-n)
  {
    if n < 0 then "-" + NatToString(-n) else NatToString(n)
  }

  /** `n.toString(16)` for a non-negative integer. */
  function NatToHex(n: nat): (r: string)
    ensures |r| >= 1
  {
    if n < 16 then [DigitChar(n)] else NatToHex(n / 16) + [DigitChar(n % 16)]
  }

  /** The decimal value of a string of digits. */
  function ParseNat(s: string): nat
    requires AllDigits(s)
  {
    if |s| == 0 then 0 else ParseNat(s[..|s| - 1]) * 10 + DigitValue(s[|s| - 1])
  }

  /** A decimal digit's character reads back as that digit. */
  lemma DigitCharValue(d: nat)
    requires d < 10
    ensures IsDigit(DigitChar(d)) && DigitValue(DigitChar(d)) == d
  {
    var digits := "0123456789abcdef";
    if d < 5 {
      assert d == 0 || d == 1 || d == 2 || d == 3 || d == 4;
    } else {
      assert d == 5 || d == 6 || d == 7 || d == 8 || d == 9;
    }
  }

  lemma {:induction false} ParseNatToString(n: nat)
    ensures ParseNat(NatToString(n)) == n
  {
    DigitCharValue(n % 10);
    if n >= 10 {
      ParseNatToString(n / 10);
      var p := NatToString(n / 10);
      var s := p + [DigitChar(n % 10)];
      assert s[..|s| - 1] == p;
    }
  }

  /** Rendering in decimal is injective. */
  lemma NatToStringInjective(m: nat, n: nat)
    requires NatToString(m) == NatToString(n)
    ensures m == n
  {
    ParseNatToString(m);
    ParseNatToString(n);
  }

  /** Concatenation regrouped to the right. */
  lemma Regroup(a: string, b: string, c: string)
    ensures a + b + c == a + (b + c)
  {
  }

  /** A decimal rendering of an integer holds neither a character that is not a digit nor a minus sign. */
  lemma MarkerNotInIntToString(n: int, c: char)
    requires !IsDigit(c) && c != '-'
    ensures c !in IntToString(n)
  {
  }

  /** A decimal rendering starts with a minus sign exactly when the integer is negative. */
  lemma IntToStringSign(n: int)
    ensures IntToString(n)[0] == '-' <==> n < 0
  {
    if n >= 0 {
      assert IsDigit(NatToString(n)[0]);
    }
  }

  /** Rendering an integer in decimal is injective, the sign included. */
  lemma IntToStringInjective(m: int, n: int)
    requires IntToString(m) == IntToString(n)
    ensures m == n
  {
    var r := IntToString(m);
    IntToStringSign(m);
    IntToStringSign(n);
    if m < 0 && n < 0 {
      var a, b: nat := -m, -n;
      assert NatToString(a) == r[1..] == NatToString(b);
      NatToStringInjective(a, b);
    } else if m >= 0 && n >= 0 {
      assert NatToString(m) == r == NatToString(n);
      NatToStringInjective(m, n);
    }
  }

  /**
   * Reading up to a marker: when two texts agree and each is a piece followed by a rest that
   * starts with a marker occurring in neither piece, the pieces and the rests are the same.
   */
  lemma {:induction false} CutAtMarker(a: string, r: string, b: string, r2: string)
    requires a + r == b + r2
    requires |r| > 0 && |r2| > 0
    requires r[0] !in a && r2[0] !in a && r[0] !in b && r2[0] !in b
    ensures a == b && r == r2
  {
    var s := a + r;
    // neither marker occurs before either piece ends, so both pieces end at the same place
    assert forall i :: 0 <= i < |a| ==> s[i] == a[i];
    assert forall i :: 0 <= i < |b| ==> s[i] == b[i];
    assert s[|a|] == r[0] && s[|b|] == r2[0];
    assert a == s[..|a|] == b;
    assert r == s[|a|..] == r2;
  }

  /**
   * Reading a number back from a text: after a common prefix, a decimal number ended by a
   * character that cannot belong to it is the same number, followed by the same rest.
   */
  lemma ReadNumber(prefix: string, m: int, r: string, n: int, r2: string)
    requires prefix + (IntToString(m) + r) == prefix + (IntToString(n) + r2)
    requires |r| > 0 && !IsDigit(r[0]) && r[0] != '-'
    requires |r2| > 0 && !IsDigit(r2[0]) && r2[0] != '-'
    ensures m == n && r == r2
  {
    var t := prefix + (IntToString(m) + r);
    assert IntToString(m) + r == t[|prefix|..] == IntToString(n) + r2;
    MarkerNotInIntToString(m, r[0]);
    MarkerNotInIntToString(m, r2[0]);
    MarkerNotInIntToString(n, r[0]);
    MarkerNotInIntToString(n, r2[0]);
    CutAtMarker(IntToString(m), r, IntToString(n), r2);
    IntToStringInjective(m, n);
  }

  /** Code-unit-wise string comparison (`a <= b` on JavaScript and Python strings). */
  predicate LexLe(a: string, b: string)
    decreases |a|
  {
    |a| == 0 || (|b| > 0 && (a[0] < b[0] || (a[0] == b[0] && LexLe(a[1..], b[1..]))))
  }

  lemma {:induction false} LexLeTotal(a: string, b: string)
    ensures LexLe(a, b) || LexLe(b, a)
    decreases |a|
  {
    if |a| > 0 && |b| > 0 && a[0] == b[0] {
      LexLeTotal(a[1..], b[1..]);
    }
  }

  lemma {:induction false} LexLeTransitive(a: string, b: string, c: string)
    requires LexLe(a, b) && LexLe(b, c)
    ensures LexLe(a, c)
    decreases |a|
  {
    if |a| > 0 && a[0] == b[0] && b[0] == c[0] {
      LexLeTransitive(a[1..], b[1..], c[1..]);
    }
  }

  lemma {:induction false} LexLeAntisymmetric(a: string, b: string)
    requires LexLe(a, b) && LexLe(b, a)
    ensures a == b
    decreases |a|
  {
    if |a| > 0 {
      LexLeAntisymmetric(a[1..], b[1..]);
      assert a == [a[0]] + a[1..] && b == [b[0]] + b[1..];
    }
  }

  /** Strings with prefixes of equal length compare by the prefixes, and by the rest when the prefixes agree. */
  lemma {:induction false} LexLeConcat(p: string, q: string, p2: string, q2: string)
    requires |p| == |p2|
    ensures LexLe(p + q, p2 + q2) <==> (p != p2 && LexLe(p, p2)) || (p == p2 && LexLe(q, q2))
    decreases |p|
  {
    if |p| == 0 {
      assert p + q == q && p2 + q2 == q2;
    } else {
      var a, b := p + q, p2 + q2;
      assert a[0] == p[0] && b[0] == p2[0];
      assert a[1..] == p[1..] + q && b[1..] == p2[1..] + q2;
      LexLeConcat(p[1..], q, p2[1..], q2);
      assert p == [p[0]] + p[1..] && p2 == [p2[0]] + p2[1..];
    }
  }

  /** Digit strings of the same length compare as the numbers they spell. */
  lemma {:induction false} DigitsOrder(a: string, b: string)
    requires |a| == |b| && AllDigits(a) && AllDigits(b)
    ensures LexLe(a, b) <==> ParseNat(a) <= ParseNat(b)
    ensures a == b <==> ParseNat(a) == ParseNat(b)
    decreases |a|
  {
    if |a| > 0 {
      var n := |a|;
      var x, y := a[..n - 1], b[..n - 1];
      var c, d := a[n - 1], b[n - 1];
      DigitsOrder(x, y);
      assert a == x + [c] && b == y + [d];
      LexLeConcat(x, [c], y, [d]);
      assert LexLe([c], [d]) <==> c <= d by {
        assert [c][1..] == [] && [d][1..] == [];
      }
      var u, v := DigitValue(c), DigitValue(d);
      assert ParseNat(a) == ParseNat(x) * 10 + u;
      assert ParseNat(b) == ParseNat(y) * 10 + v;
      assert c <= d <==> u <= v;
      assert a == b <==> x == y && c == d;
    }
  }
}

/**
 * The JavaScript values that the mini-program's services read from storage or receive as
 * arguments, with the language's truthiness rule.
 */
module Js {
  import opened Wrappers

  datatype JsValue =
    | Undefined
    | Null
    | Bool(b: bool)
    | Num(n: int)
    | Str(s: string)
    | Obj(tag: nat)

  /** `!!v`: false for undefined, null, false, 0 and the empty string; true otherwise. */
  predicate Truthy(v: JsValue) {
    match v
    case Undefined => false
    case Null => false
    case Bool(b) => b
    case Num(n) => n != 0
    case Str(s) => s != ""
    case Obj(_) => true
  }

  /** Truthiness of an optional string property (`undefined` when absent). */
  predicate Present(o: Option<string>) { o.Some? && o.value != "" }

  /** `a || b` on two optional string properties. */
  function Or(a: Option<string>, b: Option<string>): (r: Option<string>)
    ensures Present(r) <==> Present(a) || Present(b)
    ensures Present(a) ==> r == a
  {
    if Present(a) then a else b
  }

  /** `a || b` on two values. */
  function OrValue(a: JsValue, b: JsValue): JsValue
  {
    if Truthy(a) then a else b
  }

  /** `String(v)` of an optional string property: absent properties print as "undefined". */
  function Show(o: Option<string>): string {
    match o
    case Some(s) => s
    case None => "undefined"
  }
}

/** `Array.prototype.find`/`findIndex` over a sequence. */
module Lists {
  import opened Wrappers

  /** The index of the first element satisfying `p`, if any. */
  function FindFirst<T>(xs: seq<T>, p: T -> bool): (r: Option<nat>)
    ensures r.Some? ==> r.value < |xs| && p(xs[r.value]) && forall j :: 0 <= j < r.value ==> !p(xs[j])
    ensures r.None? ==> forall j :: 0 <= j < |xs| ==> !p(xs[j])
  {
    if |xs| == 0 then None
    else if p(xs[0]) then Some(0)
    else
      match FindFirst(xs[1..], p)
      case None => None
      case Some(k) => Some(k + 1)
  }

  /** `Array.prototype.filter`: the elements satisfying `p`, in their order. */
  function Filter<T>(xs: seq<T>, p: T -> bool): (r: seq<T>)
    ensures |r| <= |xs|
    ensures forall j :: 0 <= j < |r| ==> p(r[j])
  {
    if |xs| == 0 then []
    else
      var rest := Filter(xs[1..], p);
      if p(xs[0]) then [xs[0]] + rest else rest
  }

  /** The filter keeps exactly the elements satisfying `p`, as many times as they occur. */
  lemma {:induction false} FilterSpec<T>(xs: seq<T>, p: T -> bool)
    ensures forall x :: multiset(Filter(xs, p))[x] == if p(x) then multiset(xs)[x] else 0
  {
    if |xs| > 0 {
      FilterSpec(xs[1..], p);
      assert xs == [xs[0]] + xs[1..];
    }
  }

  /** A filter every element passes changes nothing. */
  lemma {:induction false} FilterAll<T>(xs: seq<T>, p: T -> bool)
    requires forall k :: 0 <= k < |xs| ==> p(xs[k])
    ensures Filter(xs, p) == xs
  {
    if |xs| > 0 {
      FilterAll(xs[1..], p);
      assert xs == [xs[0]] + xs[1..];
    }
  }

  /** `xs` is `ys` with some elements left out, the rest in their order. */
  predicate Subsequence<T(==)>(xs: seq<T>, ys: seq<T>)
  {
    |xs| == 0 || (|ys| > 0 && if xs[0] == ys[0] then Subsequence(xs[1..], ys[1..]) else Subsequence(xs, ys[1..]))
  }

  /** A filter keeps the elements it keeps in their order. */
  lemma {:induction false} FilterSubsequence<T>(xs: seq<T>, p: T -> bool)
    ensures Subsequence(Filter(xs, p), xs)
  {
    if |xs| > 0 {
      FilterSubsequence(xs[1..], p);
      assert xs == [xs[0]] + xs[1..];
      if p(xs[0]) {
        assert Filter(xs, p)[1..] == Filter(xs[1..], p);
      } else {
        SubsequenceSkip(Filter(xs[1..], p), xs[0], xs[1..]);
      }
    }
  }

  /** One more element in front of the longer sequence keeps a subsequence one. */
  lemma {:induction false} SubsequenceSkip<T>(xs: seq<T>, y: T, ys: seq<T>)
    requires Subsequence(xs, ys)
    ensures Subsequence(xs, [y] + ys)
    decreases |ys|, 1
  {
    assert ([y] + ys)[1..] == ys;
    if |xs| > 0 && xs[0] == y {
      SubsequenceTail(xs, ys);
    }
  }

  /** Leaving out the first element of a subsequence keeps it one. */
  lemma {:induction false} SubsequenceTail<T>(xs: seq<T>, ys: seq<T>)
    requires |xs| > 0 && Subsequence(xs, ys)
    ensures Subsequence(xs[1..], ys)
    decreases |ys|, 0
  {
    assert ys == [ys[0]] + ys[1..];
    if xs[0] != ys[0] {
      SubsequenceTail(xs, ys[1..]);
    }
    SubsequenceSkip(xs[1..], ys[0], ys[1..]);
  }

  /**
   * One more filter in a chain: when the elements kept so far are those satisfying `keep`, a
   * filter by `p` that runs when `on` holds leaves those satisfying `keep2`.
   */
  lemma FilterStep<T>(orig: seq<T>, xs: seq<T>, keep: T -> bool, on: bool, p: T -> bool, keep2: T -> bool)
    requires forall x :: multiset(xs)[x] == if keep(x) then multiset(orig)[x] else 0
    requires forall x :: keep2(x) == (keep(x) && (on ==> p(x)))
    ensures forall x :: multiset(if on then Filter(xs, p) else xs)[x] == if keep2(x) then multiset(orig)[x] else 0
  {
    FilterSpec(xs, p);
  }

  /** `FilterStep`, also keeping the result a subsequence of the original. */
  lemma FilterChainStep<T>(orig: seq<T>, xs: seq<T>, keep: T -> bool, on: bool, p: T -> bool, keep2: T -> bool)
    requires forall x :: multiset(xs)[x] == if keep(x) then multiset(orig)[x] else 0
    requires Subsequence(xs, orig)
    requires forall x :: keep2(x) == (keep(x) && (on ==> p(x)))
    ensures forall x :: multiset(if on then Filter(xs, p) else xs)[x] == if keep2(x) then multiset(orig)[x] else 0
    ensures Subsequence(if on then Filter(xs, p) else xs, orig)
  {
    FilterStep(orig, xs, keep, on, p, keep2);
    FilterKeepsSubsequence(xs, orig, p);
  }

  /** Ordered by a key from the largest down. */
  predicate Descending<T>(xs: seq<T>, key: T -> int)
  {
    forall i, j :: 0 <= i < j < |xs| ==> key(xs[i]) >= key(xs[j])
  }

  /**
   * Insertion into a list ordered by `key` from the largest down, in front of every element
   * whose key is not larger, which is where a stable sort with comparator `key(b) - key(a)`
   * leaves an element that came first.
   */
  function Insert<T>(x: T, xs: seq<T>, key: T -> int): (r: seq<T>)
    ensures multiset(r) == multiset(xs) + multiset{x}
    ensures |r| == |xs| + 1
  {
    if |xs| == 0 || key(x) >= key(xs[0]) then [x] + xs
    else
      assert xs == [xs[0]] + xs[1..];
      [xs[0]] + Insert(x, xs[1..], key)
  }

  lemma {:induction false} InsertSorted<T>(x: T, xs: seq<T>, key: T -> int)
    requires Descending(xs, key)
    ensures Descending(Insert(x, xs, key), key)
  {
    if |xs| > 0 && key(x) < key(xs[0]) {
      InsertSorted(x, xs[1..], key);
      var r := Insert(x, xs[1..], key);
      forall y: T | y in multiset(r)
        ensures key(y) <= key(xs[0])
      {
        assert y in multiset(xs[1..]) + multiset{x};
        if y in multiset(xs[1..]) {
          var k :| 0 <= k < |xs[1..]| && xs[1..][k] == y;
          assert xs[k + 1] == y;
        }
      }
      forall j | 0 <= j < |r|
        ensures key(xs[0]) >= key(r[j])
      {
        assert r[j] in multiset(r);
      }
    }
  }

  /** The elements whose key is `k`, in their order in `xs`. */
  function WithKey<T, K(==)>(xs: seq<T>, key: T -> K, k: K): seq<T>
  {
    if |xs| == 0 then [] else (if key(xs[0]) == k then [xs[0]] else []) + WithKey(xs[1..], key, k)
  }

  /** The elements of one key in a sequence with one more element in front. */
  lemma WithKeyCons<T, K>(y: T, t: seq<T>, key: T -> K, k: K)
    ensures WithKey([y] + t, key, k) == (if key(y) == k then [y] else []) + WithKey(t, key, k)
  {
    assert ([y] + t)[0] == y && ([y] + t)[1..] == t;
  }

  /** An element whose key differs from `x`'s, put in front, moves no element of `x`'s key. */
  lemma WithKeyBehind<T, K>(x: T, y: T, t: seq<T>, u: seq<T>, key: T -> K, k: K)
    requires key(x) != key(y)
    requires WithKey(u, key, k) == (if key(x) == k then [x] else []) + WithKey(t, key, k)
    ensures WithKey([y] + u, key, k) == (if key(x) == k then [x] else []) + WithKey([y] + t, key, k)
  {
    WithKeyCons(y, u, key, k);
    WithKeyCons(y, t, key, k);
    var a := WithKey(t, key, k);
    if key(x) == k {
      assert key(y) != k;
      assert WithKey([y] + u, key, k) == [] + ([x] + a) == [x] + a;
      assert WithKey([y] + t, key, k) == [] + a == a;
    } else {
      assert WithKey(u, key, k) == [] + a == a;
    }
  }

  /** Insertion adds `x` in front of the elements of its own key and moves no other element of any key. */
  lemma {:induction false} InsertWithKey<T>(x: T, xs: seq<T>, key: T -> int, k: int)
    ensures WithKey(Insert(x, xs, key), key, k) == (if key(x) == k then [x] else []) + WithKey(xs, key, k)
  {
    if |xs| > 0 && key(x) < key(xs[0]) {
      InsertWithKey(x, xs[1..], key, k);
      WithKeyBehind(x, xs[0], xs[1..], Insert(x, xs[1..], key), key, k);
      assert xs == [xs[0]] + xs[1..];
    } else {
      WithKeyCons(x, xs, key, k);
    }
  }

  /** An insertion sort by `key`, largest first: the model of the stable `sort((a, b) => key(b) - key(a))`. */
  function SortDescending<T>(xs: seq<T>, key: T -> int): (r: seq<T>)
    ensures multiset(r) == multiset(xs)
  {
    if |xs| == 0 then []
    else
      assert xs == [xs[0]] + xs[1..];
      Insert(xs[0], SortDescending(xs[1..], key), key)
  }

  /** The sort orders by the key from the largest down. */
  lemma {:induction false} SortDescendingSpec<T>(xs: seq<T>, key: T -> int)
    ensures Descending(SortDescending(xs, key), key)
  {
    if |xs| > 0 {
      SortDescendingSpec(xs[1..], key);
      InsertSorted(xs[0], SortDescending(xs[1..], key), key);
    }
  }

  /** The sort is stable: the elements of any one key leave it in the order they came in. */
  lemma {:induction false} SortDescendingStable<T>(xs: seq<T>, key: T -> int, k: int)
    ensures WithKey(SortDescending(xs, key), key, k) == WithKey(xs, key, k)
  {
    if |xs| > 0 {
      SortDescendingStable(xs[1..], key, k);
      InsertWithKey(xs[0], SortDescending(xs[1..], key), key, k);
    }
  }

  /** Sorting a subsequence of `ys` leaves the elements of each key in their order in `ys`. */
  lemma SortDescendingSubsequence<T>(xs: seq<T>, ys: seq<T>, key: T -> int)
    requires Subsequence(xs, ys)
    ensures forall k :: Subsequence(WithKey(SortDescending(xs, key), key, k), WithKey(ys, key, k))
  {
    forall k
      ensures Subsequence(WithKey(SortDescending(xs, key), key, k), WithKey(ys, key, k))
    {
      SortDescendingStable(xs, key, k);
      WithKeySubsequence(xs, ys, key, k);
    }
  }

  /** A subsequence of a subsequence is one. */
  lemma {:induction false} SubsequenceTransitive<T>(xs: seq<T>, ys: seq<T>, zs: seq<T>)
    requires Subsequence(xs, ys) && Subsequence(ys, zs)
    ensures Subsequence(xs, zs)
    decreases |zs|
  {
    if |xs| > 0 {
      if ys[0] == zs[0] && xs[0] == ys[0] {
        SubsequenceTransitive(xs[1..], ys[1..], zs[1..]);
      } else {
        if ys[0] == zs[0] {
          SubsequenceTransitive(xs, ys[1..], zs[1..]);
        } else {
          SubsequenceTransitive(xs, ys, zs[1..]);
        }
        assert zs == [zs[0]] + zs[1..];
        SubsequenceSkip(xs, zs[0], zs[1..]);
      }
    }
  }

  /** Every sequence is a subsequence of itself. */
  lemma {:induction false} SubsequenceReflexive<T>(xs: seq<T>)
    ensures Subsequence(xs, xs)
  {
    if |xs| > 0 {
      SubsequenceReflexive(xs[1..]);
    }
  }

  /** Filtering a subsequence of `ys` leaves a subsequence of `ys`. */
  lemma FilterKeepsSubsequence<T>(xs: seq<T>, ys: seq<T>, p: T -> bool)
    requires Subsequence(xs, ys)
    ensures Subsequence(Filter(xs, p), ys)
  {
    FilterSubsequence(xs, p);
    SubsequenceTransitive(Filter(xs, p), xs, ys);
  }

  /** Taking the elements of one key keeps a subsequence one. */
  lemma {:induction false} WithKeySubsequence<T, K>(xs: seq<T>, ys: seq<T>, key: T -> K, k: K)
    requires Subsequence(xs, ys)
    ensures Subsequence(WithKey(xs, key, k), WithKey(ys, key, k))
    decreases |ys|
  {
    if |xs| > 0 {
      if xs[0] == ys[0] {
        WithKeySubsequence(xs[1..], ys[1..], key, k);
        var a, b := WithKey(xs[1..], key, k), WithKey(ys[1..], key, k);
        if key(xs[0]) == k {
          assert WithKey(xs, key, k) == [xs[0]] + a && WithKey(ys, key, k) == [xs[0]] + b;
          assert ([xs[0]] + a)[1..] == a && ([xs[0]] + b)[1..] == b;
        } else {
          assert WithKey(xs, key, k) == a && WithKey(ys, key, k) == b;
        }
      } else {
        WithKeySubsequence(xs, ys[1..], key, k);
        assert WithKey(ys, key, k) == (if key(ys[0]) == k then [ys[0]] else []) + WithKey(ys[1..], key, k);
        if key(ys[0]) == k {
          SubsequenceSkip(WithKey(xs, key, k), ys[0], WithKey(ys[1..], key, k));
        } else {
          assert WithKey(ys, key, k) == WithKey(ys[1..], key, k);
        }
      }
    }
  }
}
