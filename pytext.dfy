/** The two pieces of Python's str built-ins the form handler relies on:
    `str.split(sep)` with a one-character separator, and `int(text)` in
    base 10, together with `str(n)` and zero-padded decimal text, which
    serve as their inverses. */
module PyText {
  import opened Wrappers

  // ---------------------------------------------------------------------
  // str.split and str.join

  /** `s.split(sep)`: the pieces of `s` between occurrences of `sep`,
      empty pieces included; the empty string gives one empty piece. */
  function Split(s: string, sep: char): (parts: seq<string>)
    ensures |parts| >= 1
    ensures forall i :: 0 <= i < |parts| ==> sep !in parts[i]
    decreases |s|
  {
    if s == [] then [""]
    else
      var rest := Split(s[1..], sep);
      if s[0] == sep then [""] + rest
      else [[s[0]] + rest[0]] + rest[1..]
  }

  /** `sep.join(parts)`. */
  function Join(parts: seq<string>, sep: char): string
  {
    if |parts| == 0 then ""
    else if |parts| == 1 then parts[0]
    else parts[0] + [sep] + Join(parts[1..], sep)
  }

  lemma JoinConsFirst(c: char, parts: seq<string>, sep: char)
    requires |parts| >= 1
    ensures Join([[c] + parts[0]] + parts[1..], sep) == [c] + Join(parts, sep)
  {
    var ps := [[c] + parts[0]] + parts[1..];
    if |parts| > 1 {
      assert ps[1..] == parts[1..];
    }
  }

  /** Joining the pieces again gives back the split text. */
  lemma {:induction false} JoinSplit(s: string, sep: char)
    ensures Join(Split(s, sep), sep) == s
    decreases |s|
  {
    if s != [] {
      var rest := Split(s[1..], sep);
      JoinSplit(s[1..], sep);
      if s[0] == sep {
        assert ([""] + rest)[1..] == rest;
      } else {
        JoinConsFirst(s[0], rest, sep);
      }
      assert s == [s[0]] + s[1..];
    }
  }

  lemma {:induction false} SplitPrefix(a: string, s: string, sep: char)
    requires sep !in a
    ensures Split(a + s, sep) == [a + Split(s, sep)[0]] + Split(s, sep)[1..]
    decreases |a|
  {
    if a != [] {
      var whole := a + s;
      assert whole[0] == a[0] && a[0] != sep;
      assert whole[1..] == a[1..] + s;
      SplitPrefix(a[1..], s, sep);
      var rest := Split(whole[1..], sep);
      assert Split(whole, sep) == [[a[0]] + rest[0]] + rest[1..];
      assert [a[0]] + (a[1..] + Split(s, sep)[0]) == a + Split(s, sep)[0];
    } else {
      var parts := Split(s, sep);
      assert a + s == s && a + parts[0] == parts[0];
      assert [parts[0]] + parts[1..] == parts;
    }
  }

  /** Splitting pieces that were joined, none holding the separator,
      gives back the pieces. */
  lemma {:induction false} SplitJoin(parts: seq<string>, sep: char)
    requires |parts| >= 1
    requires forall i :: 0 <= i < |parts| ==> sep !in parts[i]
    ensures Split(Join(parts, sep), sep) == parts
    decreases |parts|
  {
    if |parts| == 1 {
      SplitPrefix(parts[0], "", sep);
      assert parts[0] + "" == parts[0];
    } else {
      var tail := Join(parts[1..], sep);
      SplitJoin(parts[1..], sep);
      SplitPrefix(parts[0], [sep] + tail, sep);
      assert ([sep] + tail)[1..] == tail;
      assert Split([sep] + tail, sep) == [""] + parts[1..];
      assert parts[0] + "" == parts[0];
      assert parts == [parts[0]] + parts[1..];
      assert parts[0] + [sep] + tail == parts[0] + ([sep] + tail);
    }
  }

  /** `s.split(sep)` has one piece more than `s` has separators. */
  lemma {:induction false} SplitCount(s: string, sep: char)
    ensures |Split(s, sep)| == multiset(s)[sep] + 1
    decreases |s|
  {
    if s != [] {
      SplitCount(s[1..], sep);
      assert s == [s[0]] + s[1..];
      assert multiset(s) == multiset{s[0]} + multiset(s[1..]);
    }
  }

  // ---------------------------------------------------------------------
  // int(text), base 10

  /** The characters `int()` skips around a number: the ASCII spaces
      tab, line feed, vertical tab, form feed, carriage return and space,
      and the non-ASCII code points `str.isspace()` accepts, which CPython
      turns into a space before parsing. */
  predicate IsSpace(c: char)
  {
    var n := c as int;
    (9 <= n <= 13) || n == 32 || n == 0x85 || n == 0xA0 || n == 0x1680
    || (0x2000 <= n <= 0x200A) || n == 0x2028 || n == 0x2029 || n == 0x202F
    || n == 0x205F || n == 0x3000
  }

  predicate IsDigit(c: char) { '0' <= c <= '9' }

  function DigitValue(c: char): (d: nat)
    requires IsDigit(c)
    ensures d < 10
  {
    (c - '0') as nat
  }

  function DigitChar(d: nat): (c: char)
    requires d < 10
    ensures IsDigit(c) && DigitValue(c) == d
  {
    '0' + d as char
  }

  /** `s` with its leading spaces removed. */
  function TrimStart(s: string): (t: string)
    ensures |t| <= |s| && t == s[|s| - |t|..]
    ensures forall i :: 0 <= i < |s| - |t| ==> IsSpace(s[i])
    ensures t == [] || !IsSpace(t[0])
    decreases |s|
  {
    if s != [] && IsSpace(s[0]) then TrimStart(s[1..]) else s
  }

  /** `s` with its trailing spaces removed. */
  function TrimEnd(s: string): (t: string)
    ensures |t| <= |s| && t == s[..|t|]
    ensures forall i :: |t| <= i < |s| ==> IsSpace(s[i])
    ensures t == [] || !IsSpace(t[|t| - 1])
    decreases |s|
  {
    if s != [] && IsSpace(s[|s| - 1]) then TrimEnd(s[..|s| - 1]) else s
  }

  /** The body of a decimal literal: digits, where a single underscore
      may stand between two digits. */
  predicate DigitRun(d: string)
  {
    && |d| > 0
    && IsDigit(d[0])
    && IsDigit(d[|d| - 1])
    && (forall i :: 0 <= i < |d| ==> IsDigit(d[i]) || d[i] == '_')
    && (forall i :: 0 <= i < |d| - 1 ==> !(d[i] == '_' && d[i + 1] == '_'))
  }

  /** The number the digits of `d` spell, underscores ignored. */
  function DigitsValue(d: string): nat
    requires forall i :: 0 <= i < |d| ==> IsDigit(d[i]) || d[i] == '_'
  {
    if d == [] then 0
    else if d[|d| - 1] == '_' then DigitsValue(d[..|d| - 1])
    else DigitsValue(d[..|d| - 1]) * 10 + DigitValue(d[|d| - 1])
  }

  /** CPython's default `sys.get_int_max_str_digits()`: `int()` refuses
      decimal text with more digits than this, and `str()` refuses
      numbers that would need more. */
  const MaxStrDigits := 4300

  /** How many digits `d` holds, underscores not counted (leading zeros
      are). */
  function DigitCount(d: string): (n: nat)
    ensures n <= |d|
  {
    if d == [] then 0
    else (if d[0] == '_' then 0 else 1) + DigitCount(d[1..])
  }

  /** `int(s)`: surrounding spaces, an optional sign, then a digit run of
      at most `MaxStrDigits` digits; anything else is a ValueError, here
      None. */
  function ParseInt(s: string): Option<int>
  {
    var t := TrimEnd(TrimStart(s));
    var negative := |t| > 0 && t[0] == '-';
    var body := if |t| > 0 && (t[0] == '-' || t[0] == '+') then t[1..] else t;
    if DigitRun(body) && DigitCount(body) <= MaxStrDigits then
      Some(if negative then -(DigitsValue(body) as int) else DigitsValue(body) as int)
    else None
  }

  // ---------------------------------------------------------------------
  // Decimal text: str(n) and zero-padded numbers such as "07"

  /** `k` in decimal, zero-padded to at least `width` digits. */
  function Padded(k: nat, width: nat): string
    decreases k + width
  {
    if k < 10 && width <= 1 then [DigitChar(k)]
    else Padded(k / 10, if width == 0 then 0 else width - 1) + [DigitChar(k % 10)]
  }

  /** How many digits `k` has in decimal. */
  function NumDigits(k: nat): (n: nat)
    ensures n >= 1
  {
    if k < 10 then 1 else NumDigits(k / 10) + 1
  }

  /** `str(n)`, for an `n` of at most `MaxStrDigits` digits (`str()`
      raises a ValueError on a longer one). */
  function Show(n: int): string
  {
    if n < 0 then "-" + Padded(-n, 1) else Padded(n, 1)
  }

  lemma {:induction false} PaddedDigits(k: nat, width: nat)
    ensures |Padded(k, width)| >= 1 && |Padded(k, width)| >= width
    ensures forall i :: 0 <= i < |Padded(k, width)| ==> IsDigit(Padded(k, width)[i])
    ensures DigitsValue(Padded(k, width)) == k
    decreases k + width
  {
    var p := Padded(k, width);
    if !(k < 10 && width <= 1) {
      var w' := if width == 0 then 0 else width - 1;
      PaddedDigits(k / 10, w');
      assert p[..|p| - 1] == Padded(k / 10, w');
    }
  }

  /** Zero padding adds digits only up to the width. */
  lemma {:induction false} PaddedLength(k: nat, width: nat)
    ensures |Padded(k, width)| == if width > NumDigits(k) then width else NumDigits(k)
    decreases k + width
  {
    if !(k < 10 && width <= 1) {
      PaddedLength(k / 10, if width == 0 then 0 else width - 1);
    }
  }

  function Pow10(n: nat): (p: nat)
    ensures p >= 1
  {
    if n == 0 then 1 else 10 * Pow10(n - 1)
  }

  /** A number below 10^n has at most n digits. */
  lemma {:induction false} FewDigits(k: nat, n: nat)
    requires 1 <= n && k < Pow10(n)
    ensures NumDigits(k) <= n
  {
    if k >= 10 {
      FewDigits(k / 10, n - 1);
    }
  }

  /** Every character of plain digits counts as a digit. */
  lemma {:induction false} PlainDigitCount(d: string)
    requires forall i :: 0 <= i < |d| ==> IsDigit(d[i])
    ensures DigitCount(d) == |d|
    decreases |d|
  {
    if d != [] {
      PlainDigitCount(d[1..]);
    }
  }

  lemma DigitNotSpace(c: char)
    requires IsDigit(c)
    ensures !IsSpace(c)
  {
    assert 48 <= c as int <= 57;
  }

  /** Text with no spaces around it and no sign is read as a digit run
      within the limit, or refused. */
  lemma ParseUnsigned(s: string)
    requires |s| > 0 && s[0] != '-' && s[0] != '+' && TrimStart(s) == s && TrimEnd(s) == s
    ensures ParseInt(s) == if DigitRun(s) && DigitCount(s) <= MaxStrDigits then Some(DigitsValue(s) as int) else None
  {
  }

  /** Plain digits, no sign, no spaces, no underscores, are read by
      `int()` as the number they spell, up to `MaxStrDigits` of them. */
  lemma ParseDigits(d: string)
    requires 0 < |d| <= MaxStrDigits
    requires forall i :: 0 <= i < |d| ==> IsDigit(d[i])
    ensures ParseInt(d) == Some(DigitsValue(d) as int)
  {
    PlainDigitCount(d);
    PlainDigitRun(d);
    assert TrimStart(d) == d && TrimEnd(d) == d by {
      DigitNotSpace(d[0]);
      DigitNotSpace(d[|d| - 1]);
    }
    ParseUnsigned(d);
  }

  /** More plain digits than `MaxStrDigits` are a ValueError. */
  lemma TooManyDigits(d: string)
    requires |d| > MaxStrDigits
    requires forall i :: 0 <= i < |d| ==> IsDigit(d[i])
    ensures ParseInt(d) == None
  {
    PlainDigitCount(d);
    assert TrimStart(d) == d && TrimEnd(d) == d by {
      DigitNotSpace(d[0]);
      DigitNotSpace(d[|d| - 1]);
    }
    ParseUnsigned(d);
  }

  /** `int()` reads zero-padded decimal text back as the number, as long
      as the text is within `MaxStrDigits` digits. */
  lemma ParsePadded(k: nat, width: nat)
    requires width <= MaxStrDigits && NumDigits(k) <= MaxStrDigits
    ensures ParseInt(Padded(k, width)) == Some(k as int)
  {
    PaddedDigits(k, width);
    PaddedLength(k, width);
    ParseDigits(Padded(k, width));
  }

  /** A run of plain digits is a decimal literal's body. */
  lemma PlainDigitRun(d: string)
    requires |d| > 0
    requires forall i :: 0 <= i < |d| ==> IsDigit(d[i])
    ensures DigitRun(d)
  {
  }

  /** Text with no spaces around it made of a minus sign and a digit run within the
      limit is read as the negated number. */
  lemma ParseMinus(s: string)
    requires |s| > 0 && s[0] == '-' && TrimStart(s) == s && TrimEnd(s) == s
    requires DigitRun(s[1..]) && DigitCount(s[1..]) <= MaxStrDigits
    ensures ParseInt(s) == Some(-(DigitsValue(s[1..]) as int))
  {
  }

  /** `int()`'s strip leaves a minus sign followed by a digit alone. */
  lemma MinusUntrimmed(d: string)
    requires |d| > 0 && IsDigit(d[|d| - 1])
    ensures TrimStart("-" + d) == "-" + d && TrimEnd("-" + d) == "-" + d
  {
    var s := "-" + d;
    DigitNotSpace(d[|d| - 1]);
    assert s[|s| - 1] == d[|d| - 1];
  }

  /** A minus sign followed by plain digits, up to `MaxStrDigits` of
      them, is read as the negated number. */
  lemma ParseMinusDigits(d: string)
    requires 0 < |d| <= MaxStrDigits
    requires forall i :: 0 <= i < |d| ==> IsDigit(d[i])
    ensures ParseInt("-" + d) == Some(-(DigitsValue(d) as int))
  {
    hide *;
    var s := "-" + d;
    assert s[0] == '-' && s[1..] == d;
    PlainDigitRun(d);
    PlainDigitCount(d);
    MinusUntrimmed(d);
    ParseMinus(s);
  }

  /** `int()` reads `str()` of a negative number back. */
  lemma ParseNegative(k: nat)
    requires NumDigits(k) <= MaxStrDigits
    ensures ParseInt("-" + Padded(k, 1)) == Some(-(k as int))
  {
    hide ParseInt;
    PaddedDigits(k, 1);
    PaddedLength(k, 1);
    ParseMinusDigits(Padded(k, 1));
  }

  /** `int(str(n)) == n`, for every `n` that `str()` can print. */
  lemma ParseShow(n: int)
    requires NumDigits(if n < 0 then -n else n) <= MaxStrDigits
    ensures ParseInt(Show(n)) == Some(n)
  {
    if n < 0 {
      ParseNegative(-n);
    } else {
      ParsePadded(n, 1);
    }
  }
}
