/** The JavaScript string built-ins the routes rely on: `split` with a one-character
    separator, `trim`, `substring`, `toLowerCase`/`toUpperCase` on ASCII letters,
    `parseInt(s, 10)`, and the decimal printing of a non-negative integer. */
module JsText {
  import opened Wrappers

  predicate StartsWith(s: string, prefix: string) {
    |prefix| <= |s| && s[..|prefix|] == prefix
  }

  predicate EndsWith(s: string, suffix: string) {
    |suffix| <= |s| && s[|s| - |suffix|..] == suffix
  }

  /** A text starts with whatever was put in front of it, and dropping that gives
      back the rest. */
  lemma StartsWithAppend(p: string, x: string, y: string)
    ensures StartsWith(p + x + y, p)
    ensures (p + x + y)[|p|..] == x + y
  {
    assert (p + x + y)[..|p|] == p;
  }

  /** A text ends with whatever was appended to it, and with nothing whose last
      character differs from that. */
  lemma EndsWithAppend(x: string, y: string)
    requires y != []
    ensures EndsWith(x + y, y)
    ensures forall z :: z != [] && z[|z| - 1] != y[|y| - 1] ==> !EndsWith(x + y, z)
  {
    var s := x + y;
    assert s[|s| - |y|..] == y;
    assert s[|s| - 1] == y[|y| - 1];
    forall z | z != [] && z[|z| - 1] != y[|y| - 1] ensures !EndsWith(s, z) {
      if |z| <= |s| {
        assert s[|s| - |z|..][|z| - 1] == s[|s| - 1];
      }
    }
  }

  /** `s` contains no occurrence of `c`. */
  predicate Avoids(s: string, c: char) {
    forall i :: 0 <= i < |s| ==> s[i] != c
  }

  // ---------------------------------------------------------------------------
  // String.prototype.split with a one-character separator

  /** `s.split(sep)`: the maximal runs between separators, empty runs included, so
      the empty string splits into one empty part. */
  function Split(s: string, sep: char): (parts: seq<string>)
    ensures |parts| >= 1
    ensures forall i :: 0 <= i < |parts| ==> Avoids(parts[i], sep)
    decreases |s|
  {
    if s == [] then [[]]
    else
      var rest := Split(s[1..], sep);
      if s[0] == sep then [[]] + rest
      else [[s[0]] + rest[0]] + rest[1..]
  }

  /** `parts.join(sep)`. */
  function Join(parts: seq<string>, sep: char): string
  {
    if parts == [] then []
    else if |parts| == 1 then parts[0]
    else parts[0] + [sep] + Join(parts[1..], sep)
  }

  /** Splitting and joining again gives back the original text. */
  lemma {:induction false} JoinSplit(s: string, sep: char)
    ensures Join(Split(s, sep), sep) == s
    decreases |s|
  {
    if s != [] {
      var rest := Split(s[1..], sep);
      JoinSplit(s[1..], sep);
      if s[0] == sep {
        assert Split(s, sep) == [[]] + rest;
      } else {
        var parts := Split(s, sep);
        assert parts == [[s[0]] + rest[0]] + rest[1..];
        if |rest| == 1 {
          assert Join(parts, sep) == [s[0]] + rest[0];
        } else {
          assert parts[1..] == rest[1..];
          assert Join(parts, sep) == [s[0]] + rest[0] + [sep] + Join(rest[1..], sep);
        }
      }
      assert s == [s[0]] + s[1..];
    }
  }

  /** A separator-free prefix glues onto the first part of what follows it. */
  lemma {:induction false} SplitPrefix(t: string, rest: string, sep: char)
    requires Avoids(t, sep)
    ensures Split(t + rest, sep) == [t + Split(rest, sep)[0]] + Split(rest, sep)[1..]
    decreases |t|
  {
    if t != [] {
      SplitPrefix(t[1..], rest, sep);
      assert (t + rest)[1..] == t[1..] + rest;
      assert (t + rest)[0] == t[0];
      assert [t[0]] + (t[1..] + Split(rest, sep)[0]) == t + Split(rest, sep)[0];
    } else {
      var parts := Split(rest, sep);
      assert t + rest == rest && t + parts[0] == parts[0];
      assert parts == [parts[0]] + parts[1..];
    }
  }

  /** Joining separator-free parts and splitting again gives back the parts. */
  lemma {:induction false} SplitJoin(parts: seq<string>, sep: char)
    requires |parts| >= 1
    requires forall i :: 0 <= i < |parts| ==> Avoids(parts[i], sep)
    ensures Split(Join(parts, sep), sep) == parts
    decreases |parts|
  {
    if |parts| == 1 {
      SplitPrefix(parts[0], [], sep);
      assert parts[0] + [] == parts[0];
    } else {
      var tail := Join(parts[1..], sep);
      SplitJoin(parts[1..], sep);
      SplitPrefix(parts[0], [sep] + tail, sep);
      assert Join(parts, sep) == parts[0] + ([sep] + tail);
      assert ([sep] + tail)[1..] == tail;
      assert Split([sep] + tail, sep) == [[]] + Split(tail, sep);
      assert parts[0] + [] == parts[0];
      assert parts == [parts[0]] + parts[1..];
    }
  }

  /** A text that ends with the separator splits into one more part, and that part is empty. */
  lemma {:induction false} SplitTrailingSeparator(s: string, sep: char)
    ensures Split(s + [sep], sep) == Split(s, sep) + [[]]
    decreases |s|
  {
    if s == [] {
      assert [] + [sep] == [sep];
      assert Split([sep], sep) == [[]] + Split([], sep);
    } else {
      SplitTrailingSeparator(s[1..], sep);
      assert (s + [sep])[1..] == s[1..] + [sep];
      assert (s + [sep])[0] == s[0];
    }
  }

  // ---------------------------------------------------------------------------
  // String.prototype.trim

  /** The characters `trim` removes: ECMAScript's WhiteSpace and LineTerminator. */
  predicate IsTrimmable(c: char) {
    || c == ' ' || c == '\t' || c == '\n' || c == '\r' || c == '\U{B}' || c == '\U{C}'
    || c == '\U{A0}' || c == '\U{1680}' || ('\U{2000}' <= c <= '\U{200A}')
    || c == '\U{2028}' || c == '\U{2029}' || c == '\U{202F}' || c == '\U{205F}'
    || c == '\U{3000}' || c == '\U{FEFF}'
  }

  predicate AllTrimmable(s: string) {
    forall i :: 0 <= i < |s| ==> IsTrimmable(s[i])
  }

  /** Neither end of `s` is a character `trim` removes. */
  predicate IsTrimmed(s: string) {
    s == [] || (!IsTrimmable(s[0]) && !IsTrimmable(s[|s| - 1]))
  }

  /** Drops the leading trimmable characters: the result is a suffix of `s`, what was
      dropped is all trimmable, and what is left does not start with one. */
  function TrimStart(s: string): (r: string)
    ensures |r| <= |s| && r == s[|s| - |r|..]
    ensures AllTrimmable(s[..|s| - |r|])
    ensures r == [] || !IsTrimmable(r[0])
    decreases |s|
  {
    if s != [] && IsTrimmable(s[0]) then
      var r := TrimStart(s[1..]);
      assert s[1..][|s| - 1 - |r|..] == s[|s| - |r|..];
      assert s[..|s| - |r|] == [s[0]] + s[1..][..|s| - 1 - |r|];
      r
    else s
  }

  /** Drops the trailing trimmable characters: the result is a prefix of `s`, what was
      dropped is all trimmable, and what is left does not end with one. */
  function TrimEnd(s: string): (r: string)
    ensures |r| <= |s| && r == s[..|r|]
    ensures AllTrimmable(s[|r|..])
    ensures r == [] || !IsTrimmable(r[|r| - 1])
    decreases |s|
  {
    if s != [] && IsTrimmable(s[|s| - 1]) then
      var r := TrimEnd(s[..|s| - 1]);
      assert s[..|s| - 1][..|r|] == s[..|r|];
      assert s[|r|..] == s[..|s| - 1][|r|..] + [s[|s| - 1]];
      r
    else s
  }

  /** `r` is `s[i..j]`, and everything outside that slice is trimmable. */
  predicate TrimsTo(s: string, i: nat, j: nat, r: string) {
    i <= j <= |s| && r == s[i..j] && AllTrimmable(s[..i]) && AllTrimmable(s[j..])
  }

  /** `s.trim()`: the slice of `s` left after removing trimmable characters from
      both ends, so no trimmable character remains at either end; empty exactly when
      `s` is all trimmable. */
  function Trim(s: string): (r: string)
    ensures exists i, j :: TrimsTo(s, i, j, r)
    ensures IsTrimmed(r)
    ensures r == [] <==> AllTrimmable(s)
    ensures IsTrimmed(s) ==> r == s
  {
    var t := TrimStart(s);
    var r := TrimEnd(t);
    var i := |s| - |t|;
    SliceOfSuffix(s, i, t, r);
    assert TrimsTo(s, i, i + |r|, r);
    assert r == [] ==> AllTrimmable(s) by {
      if r == [] {
        assert t[0..] == t;
        AllTrimmableAppend(s[..i], t);
        assert s[..i] + t == s;
      }
    }
    r
  }

  /** A prefix `r` of the suffix `t` of `s` that starts at `i` is the slice of `s`
      from `i`, and what follows it in `t` is what follows it in `s`. */
  lemma SliceOfSuffix(s: string, i: nat, t: string, r: string)
    requires i <= |s| && t == s[i..]
    requires |r| <= |t| && r == t[..|r|]
    ensures r == s[i..i + |r|] && s[i + |r|..] == t[|r|..]
  {
  }

  lemma AllTrimmableAppend(a: string, b: string)
    requires AllTrimmable(a) && AllTrimmable(b)
    ensures AllTrimmable(a + b)
  {
  }

  /** Trimming twice is trimming once. */
  lemma TrimIdempotent(s: string)
    ensures Trim(Trim(s)) == Trim(s)
  {
  }

  // ---------------------------------------------------------------------------
  // String.prototype.substring, toLowerCase and toUpperCase

  function Min(a: nat, b: nat): nat { if a <= b then a else b }

  /** `s.substring(start, end)` for `start <= end`: indices past the end are clamped
      to the length. */
  function Substring(s: string, start: nat, end: nat): (r: string)
    requires start <= end
    ensures end <= |s| ==> r == s[start..end]
    ensures start < |s| < end ==> r == s[start..]
    ensures start >= |s| ==> r == []
    ensures |r| == Min(end, |s|) - Min(start, |s|)
  {
    s[Min(start, |s|)..Min(end, |s|)]
  }

  function LowerChar(c: char): char {
    if 'A' <= c <= 'Z' then (c as int + 32) as char else c
  }

  function UpperChar(c: char): char {
    if 'a' <= c <= 'z' then (c as int - 32) as char else c
  }

  /** `s.toLowerCase()` on ASCII letters. */
  function ToLower(s: string): (r: string)
    ensures |r| == |s|
    ensures forall i :: 0 <= i < |s| ==> r[i] == LowerChar(s[i])
  {
    seq(|s|, i requires 0 <= i < |s| => LowerChar(s[i]))
  }

  // ---------------------------------------------------------------------------
  // Decimal digits: parseInt(s, 10) and the printing of a non-negative integer

  predicate IsDigit(c: char) { '0' <= c <= '9' }

  predicate AllDigits(s: string) {
    forall i :: 0 <= i < |s| ==> IsDigit(s[i])
  }

  function DigitChar(d: nat): (c: char)
    requires d < 10
    ensures IsDigit(c)
  {
    ('0' as int + d) as char
  }

  /** The number a run of decimal digits denotes, most significant digit first. */
  function DigitsValue(d: string): nat
    requires AllDigits(d)
  {
    if d == [] then 0
    else DigitsValue(d[..|d| - 1]) * 10 + (d[|d| - 1] as int - '0' as int)
  }

  /** The length of the run of digits `s` starts with. */
  function DigitRun(s: string): (k: nat)
    ensures k <= |s| && AllDigits(s[..k])
    ensures k == |s| || !IsDigit(s[k])
    decreases |s|
  {
    if s != [] && IsDigit(s[0]) then
      var k := 1 + DigitRun(s[1..]);
      assert s[..k] == [s[0]] + s[1..][..k - 1];
      k
    else 0
  }

  /** The value of the longest run of digits `s` starts with; `None` when `s` does not
      start with a digit. */
  function ParseDigits(s: string): (r: Option<nat>)
    ensures r.Some? <==> s != [] && IsDigit(s[0])
  {
    var k := DigitRun(s);
    if k == 0 then None else Some(DigitsValue(s[..k]))
  }

  /** `parseInt(s, 10)`: leading trimmable characters are skipped, one sign is
      accepted, then the longest run of digits is read; `None` stands for `NaN`,
      the result when no digit follows. */
  function ParseInt(s: string): (r: Option<int>)
    ensures var t := TrimStart(s);
      r.Some? <==> || (t != [] && IsDigit(t[0]))
                   || (|t| >= 2 && (t[0] == '-' || t[0] == '+') && IsDigit(t[1]))
    ensures r.Some? && TrimStart(s)[0] == '-' ==> r.value <= 0
    ensures r.Some? && TrimStart(s)[0] != '-' ==> r.value >= 0
  {
    ParseSigned(TrimStart(s))
  }

  /** `parseInt` once the leading whitespace is gone: one optional sign, then the
      longest run of digits. */
  function ParseSigned(t: string): (r: Option<int>)
    ensures r.Some? <==> || (t != [] && IsDigit(t[0]))
                         || (|t| >= 2 && (t[0] == '-' || t[0] == '+') && IsDigit(t[1]))
    ensures r.Some? && t[0] == '-' ==> r.value <= 0
    ensures r.Some? && t[0] != '-' ==> r.value >= 0
  {
    if t != [] && (t[0] == '-' || t[0] == '+') then
      match ParseDigits(t[1..])
      case None => None
      case Some(m) => if t[0] == '-' then Some(0 - m) else Some(m as int)
    else
      match ParseDigits(t)
      case None => None
      case Some(m) => Some(m as int)
  }

  /** The decimal text of `n`, as JavaScript prints an integral number. */
  function NatToString(n: nat): (r: string)
    ensures r != [] && AllDigits(r)
    ensures r[0] == '0' <==> n == 0
  {
    if n < 10 then [DigitChar(n)]
    else NatToString(n / 10) + [DigitChar(n % 10)]
  }

  /** Reading back a printed integer gives the integer. */
  lemma {:induction false} DigitsValueOfNatToString(n: nat)
    ensures DigitsValue(NatToString(n)) == n
  {
    if n >= 10 {
      var r := NatToString(n);
      DigitsValueOfNatToString(n / 10);
      assert r[..|r| - 1] == NatToString(n / 10);
    }
  }

  /** A digit run stops where the first non-digit begins. */
  lemma {:induction false} DigitRunOfPrefix(d: string, rest: string)
    requires AllDigits(d)
    requires rest == [] || !IsDigit(rest[0])
    ensures DigitRun(d + rest) == |d|
    decreases |d|
  {
    if d != [] {
      assert (d + rest)[1..] == d[1..] + rest;
      DigitRunOfPrefix(d[1..], rest);
    } else {
      assert d + rest == rest;
    }
  }

  /** A text that starts with a digit is left alone by `TrimStart`. */
  lemma TrimStartOfDigit(s: string)
    requires s != [] && IsDigit(s[0])
    ensures TrimStart(s) == s
  {
  }

  /** A run of digits followed by a non-digit reads as the number the digits denote. */
  lemma ParseDigitsOfDigits(d: string, rest: string)
    requires d != [] && AllDigits(d)
    requires rest == [] || !IsDigit(rest[0])
    ensures ParseDigits(d + rest) == Some(DigitsValue(d))
  {
    DigitRunOfPrefix(d, rest);
    assert (d + rest)[..|d|] == d;
  }

  /** `parseInt` reads a run of digits followed by a non-digit as the number the
      digits denote. */
  lemma ParseIntOfDigits(d: string, rest: string)
    requires d != [] && AllDigits(d)
    requires rest == [] || !IsDigit(rest[0])
    ensures ParseInt(d + rest) == Some(DigitsValue(d) as int)
  {
    var s := d + rest;
    assert s[0] == d[0];
    TrimStartOfDigit(s);
    assert TrimStart(s) == s && s[0] != '-' && s[0] != '+';
    ParseDigitsOfDigits(d, rest);
    assert ParseDigits(s) == Some(DigitsValue(d));
  }

  /** Leading trimmable characters are exactly what `TrimStart` drops. */
  lemma {:induction false} TrimStartAfterTrimmable(ws: string, t: string)
    requires AllTrimmable(ws)
    requires t == [] || !IsTrimmable(t[0])
    ensures TrimStart(ws + t) == t
    decreases |ws|
  {
    if ws == [] {
      assert ws + t == t;
    } else {
      assert (ws + t)[0] == ws[0];
      assert (ws + t)[1..] == ws[1..] + t;
      TrimStartAfterTrimmable(ws[1..], t);
    }
  }

  /** After the whitespace: an optional sign, then a run of digits followed by
      anything not a digit. */
  lemma ParseSignedOfDigits(sign: string, d: string, rest: string)
    requires sign == [] || (|sign| == 1 && (sign[0] == '-' || sign[0] == '+'))
    requires d != [] && AllDigits(d)
    requires rest == [] || !IsDigit(rest[0])
    ensures ParseSigned(sign + (d + rest)) ==
      Some(if sign != [] && sign[0] == '-' then 0 - DigitsValue(d) else DigitsValue(d) as int)
  {
    var t := sign + (d + rest);
    ParseDigitsOfDigits(d, rest);
    if sign == [] {
      assert t == d + rest && t[0] == d[0];
    } else {
      assert t[0] == sign[0] && t[1..] == d + rest;
    }
  }

  /** `parseInt` on leading whitespace, an optional sign, a run of digits and then
      anything not a digit: the run's decimal value, negated after a `-`. */
  lemma ParseIntOfSigned(ws: string, sign: string, d: string, rest: string)
    requires AllTrimmable(ws)
    requires sign == [] || (|sign| == 1 && (sign[0] == '-' || sign[0] == '+'))
    requires d != [] && AllDigits(d)
    requires rest == [] || !IsDigit(rest[0])
    ensures ParseInt(ws + sign + d + rest) ==
      Some(if sign != [] && sign[0] == '-' then 0 - DigitsValue(d) else DigitsValue(d) as int)
  {
    var t := sign + (d + rest);
    assert ws + sign + d + rest == ws + t;
    assert t[0] == if sign == [] then d[0] else sign[0];
    TrimStartAfterTrimmable(ws, t);
    ParseSignedOfDigits(sign, d, rest);
  }

  /** `parseInt` reads back any printed non-negative integer, whatever non-digit
      text follows it. */
  lemma ParseIntOfNatToString(n: nat, rest: string)
    requires rest == [] || !IsDigit(rest[0])
    ensures ParseInt(NatToString(n) + rest) == Some(n)
  {
    ParseIntOfDigits(NatToString(n), rest);
    DigitsValueOfNatToString(n);
  }
}
