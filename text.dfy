/** The three pieces of Python string handling the QR code format relies on:
    `s.split(":")`, `str(n)` for an integer and `int(s)` for a decimal string. */
module Text {
  import opened Common

  /** The delimiter between the fields of a QR code string. */
  const Delimiter := ':'

  /** Number of occurrences of `c` in `s`. */
  function CountOf(c: char, s: string): nat
    decreases |s|
  {
    if s == [] then 0 else (if s[0] == c then 1 else 0) + CountOf(c, s[1..])
  }

  lemma {:induction false} CountOfZero(c: char, s: string)
    ensures CountOf(c, s) == 0 <==> c !in s
    decreases |s|
  {
    if s != [] {
      CountOfZero(c, s[1..]);
      assert c in s <==> s[0] == c || c in s[1..] by {
        assert s == [s[0]] + s[1..];
      }
    }
  }

  lemma {:induction false} CountOfAppend(c: char, a: string, b: string)
    ensures CountOf(c, a + b) == CountOf(c, a) + CountOf(c, b)
    decreases |a|
  {
    if a == [] {
      assert a + b == b;
    } else {
      assert (a + b)[1..] == a[1..] + b;
      CountOfAppend(c, a[1..], b);
    }
  }

  /** Python's `s.split(":")`: the pieces between delimiters, always at least one,
      empty pieces included (`"".split(":") == [""]`, `"a::b".split(":") == ["a", "", "b"]`). */
  function Split(s: string): (parts: seq<string>)
    ensures |parts| == CountOf(Delimiter, s) + 1
    ensures forall i :: 0 <= i < |parts| ==> Delimiter !in parts[i]
    decreases |s|
  {
    if s == [] then [""]
    else if s[0] == Delimiter then [""] + Split(s[1..])
    else
      var rest := Split(s[1..]);
      [[s[0]] + rest[0]] + rest[1..]
  }

  /** Python's `":".join(parts)`, the inverse of Split. */
  function Join(parts: seq<string>): string
    requires |parts| >= 1
    decreases |parts|
  {
    if |parts| == 1 then parts[0] else parts[0] + [Delimiter] + Join(parts[1..])
  }

  lemma JoinThree(a: string, b: string, c: string)
    ensures Join([a, b, c]) == a + [Delimiter] + b + [Delimiter] + c
  {
    assert [a, b, c][1..] == [b, c];
    assert [b, c][1..] == [c];
    assert Join([b, c]) == b + [Delimiter] + c;
    assert Join([a, b, c]) == a + [Delimiter] + (b + [Delimiter] + c);
  }

  /** Splitting loses nothing: the pieces joined back give the original string. */
  lemma {:induction false} JoinSplit(s: string)
    ensures Join(Split(s)) == s
    decreases |s|
  {
    if s == [] {
    } else if s[0] == Delimiter {
      JoinSplit(s[1..]);
      assert Split(s)[1..] == Split(s[1..]);
      assert s == [Delimiter] + s[1..];
    } else {
      JoinSplit(s[1..]);
      var rest := Split(s[1..]);
      if |rest| == 1 {
        assert s == [s[0]] + rest[0];
      } else {
        assert Split(s)[1..] == rest[1..];
        assert Join(rest) == rest[0] + [Delimiter] + Join(rest[1..]);
        assert s == [s[0]] + s[1..];
      }
    }
  }

  /** A piece without a delimiter splits to itself. */
  lemma {:induction false} SplitPlain(a: string)
    requires Delimiter !in a
    ensures Split(a) == [a]
    decreases |a|
  {
    if a != [] {
      assert a[0] != Delimiter;
      SplitPlain(a[1..]);
      assert [a[0]] + a[1..] == a;
    }
  }

  /** Splitting `a + ":" + b` where `a` has no delimiter yields `a` followed by the pieces of `b`. */
  lemma {:induction false} SplitPrefix(a: string, b: string)
    requires Delimiter !in a
    ensures Split(a + [Delimiter] + b) == [a] + Split(b)
    decreases |a|
  {
    var s := a + [Delimiter] + b;
    if a == [] {
      assert s == [Delimiter] + b;
      assert s[1..] == b;
    } else {
      assert s[0] == a[0];
      assert s[1..] == a[1..] + [Delimiter] + b;
      SplitPrefix(a[1..], b);
      assert [a[0]] + a[1..] == a;
    }
  }

  /** Pieces without delimiters survive a join followed by a split. */
  lemma {:induction false} SplitJoin(parts: seq<string>)
    requires |parts| >= 1
    requires forall i :: 0 <= i < |parts| ==> Delimiter !in parts[i]
    ensures Split(Join(parts)) == parts
    decreases |parts|
  {
    if |parts| == 1 {
      SplitPlain(parts[0]);
    } else {
      SplitJoin(parts[1..]);
      SplitPrefix(parts[0], Join(parts[1..]));
      assert parts == [parts[0]] + parts[1..];
    }
  }

  predicate IsDigit(c: char) {
    '0' <= c <= '9'
  }

  function DigitValue(c: char): nat
    requires IsDigit(c)
  {
    c as int - '0' as int
  }

  function DigitChar(d: nat): (c: char)
    requires d < 10
    ensures IsDigit(c) && DigitValue(c) == d
  {
    ('0' as int + d) as char
  }

  /** A non-empty run of ASCII decimal digits. */
  predicate IsDigits(s: string) {
    |s| > 0 && forall i :: 0 <= i < |s| ==> IsDigit(s[i])
  }

  /** The value of a run of decimal digits, most significant first (leading zeros allowed). */
  function DigitsValue(s: string): nat
    requires forall i :: 0 <= i < |s| ==> IsDigit(s[i])
    decreases |s|
  {
    if s == [] then 0 else DigitsValue(s[..|s| - 1]) * 10 + DigitValue(s[|s| - 1])
  }

  /** Python's `str(n)` for a non-negative integer: its decimal digits, no leading zeros. */
  function NatToString(n: nat): (s: string)
    ensures IsDigits(s)
    ensures s[0] == '0' <==> n == 0
    ensures n == 0 ==> s == "0"
    decreases n
  {
    if n < 10 then [DigitChar(n)] else NatToString(n / 10) + [DigitChar(n % 10)]
  }

  /** Python's `str(i)` for any integer: a minus sign exactly for a negative value, then the
      digits of the magnitude, with no leading zero unless the value is 0. */
  function IntToString(i: int): (s: string)
    ensures |s| > 0
    ensures s[0] == '-' <==> i < 0
    ensures var digits := if i < 0 then s[1..] else s;
            IsDigits(digits) && (digits[0] == '0' <==> i == 0)
    ensures s == "0" <==> i == 0
  {
    if i < 0 then "-" + NatToString(-i) else NatToString(i)
  }

  /** Python's `int(s)`, restricted to an optional sign followed by ASCII digits;
      anything else raises ValueError, modelled as None. */
  function ParseInt(s: string): (r: Option<int>)
    ensures r.Some? <==> IsDigits(s) || (|s| > 1 && (s[0] == '-' || s[0] == '+') && IsDigits(s[1..]))
  {
    if |s| > 0 && (s[0] == '-' || s[0] == '+') then
      if IsDigits(s[1..]) then
        var magnitude: int := DigitsValue(s[1..]);
        Some(if s[0] == '-' then -magnitude else magnitude)
      else None
    else if IsDigits(s) then Some(DigitsValue(s))
    else None
  }

  lemma {:induction false} DigitsOfNat(n: nat)
    ensures DigitsValue(NatToString(n)) == n
    decreases n
  {
    if n >= 10 {
      DigitsOfNat(n / 10);
      var s := NatToString(n);
      assert s[..|s| - 1] == NatToString(n / 10);
    }
  }

  lemma ParseDigits(d: string)
    requires IsDigits(d)
    ensures ParseInt(d) == Some(DigitsValue(d))
    ensures ParseInt("-" + d) == Some(-(DigitsValue(d) as int))
  {
    assert IsDigit(d[0]);
    assert ("-" + d)[1..] == d;
  }

  /** `int(str(i)) == i`: the decimal form of every integer parses back to it. */
  lemma {:induction false} ParseIntToString(i: int)
    ensures ParseInt(IntToString(i)) == Some(i)
  {
    if i < 0 {
      DigitsOfNat(-i);
      ParseDigits(NatToString(-i));
    } else {
      DigitsOfNat(i);
      ParseDigits(NatToString(i));
    }
  }

  /** The decimal form of an integer never contains the delimiter. */
  lemma IntToStringHasNoDelimiter(i: int)
    ensures Delimiter !in IntToString(i)
  {
    var s := IntToString(i);
    forall k | 0 <= k < |s|
      ensures s[k] != Delimiter
    {
      if i < 0 && k > 0 {
        assert s[k] == NatToString(-i)[k - 1];
      }
    }
  }
}
