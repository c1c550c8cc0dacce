/**
 * The few Python string and integer primitives the bridge relies on, written
 * out so that their edge cases are explicit: `str.split`, `str.join`,
 * `str.replace(p, '')`, slicing with clamped bounds, `int(s, base)`,
 * `str(n)`, and the `x` / `04x` format specifications.
 */
module PyText {

  datatype Option<T> = None | Some(value: T)

  /** The ASCII characters `str.strip()` and `int()` treat as white space. */
  predicate IsWhitespace(c: char)
  {
    c == ' ' || ('\t' <= c <= '\r') || ('\U{1C}' <= c <= '\U{1F}')
  }

  predicate NoWhitespace(s: string)
  {
    forall i :: 0 <= i < |s| ==> !IsWhitespace(s[i])
  }

  function LStrip(s: string): (r: string)
    ensures |r| <= |s|
  {
    if s != [] && IsWhitespace(s[0]) then LStrip(s[1..]) else s
  }

  function RStrip(s: string): (r: string)
    ensures |r| <= |s|
  {
    if s != [] && IsWhitespace(s[|s| - 1]) then RStrip(s[..|s| - 1]) else s
  }

  /** `s.strip()` */
  function Strip(s: string): string
  {
    RStrip(LStrip(s))
  }

  lemma StripNoWhitespace(s: string)
    requires NoWhitespace(s)
    ensures Strip(s) == s
  {
  }

  // ---------------------------------------------------------------------
  // Digits

  /** The value of a digit in bases up to 16, either case; 16 for anything else. */
  function DigitValue(c: char): (v: nat)
    ensures v <= 16
  {
    if '0' <= c <= '9' then c as int - '0' as int
    else if 'a' <= c <= 'f' then c as int - 'a' as int + 10
    else if 'A' <= c <= 'F' then c as int - 'A' as int + 10
    else 16
  }

  /** The lower-case digit Python prints for `d`. */
  function Digit(d: nat): (c: char)
    requires d < 16
    ensures DigitValue(c) == d
    ensures !IsWhitespace(c) && c != '-' && c != '+' && c != 'x' && c != 'X'
  {
    if d < 10 then ('0' as int + d) as char else ('a' as int + d - 10) as char
  }

  predicate AllDigits(s: string, base: nat)
  {
    forall i :: 0 <= i < |s| ==> DigitValue(s[i]) < base
  }

  /** The value of a digit string, most significant digit first. */
  function DigitsValue(s: string, base: nat): nat
  {
    if s == [] then 0 else DigitsValue(s[..|s| - 1], base) * base + DigitValue(s[|s| - 1])
  }

  /** The digits of `n` in `base` without leading zeros, as Python's `format` prints them. */
  function Format(n: nat, base: nat): (r: string)
    requires 2 <= base <= 16
    ensures |r| >= 1
    decreases n
  {
    if n < base then [Digit(n)] else Format(n / base, base) + [Digit(n % base)]
  }

  /**
   * `Format` prints only digits of the base, with no leading zero, and
   * reading them back gives `n`.
   */
  lemma {:induction false} FormatDigits(n: nat, base: nat)
    requires 2 <= base <= 16
    ensures var r := Format(n, base);
      AllDigits(r, base) && DigitsValue(r, base) == n &&
      (r[0] == '0' ==> n == 0) &&
      NoWhitespace(r) && r[0] != '-' && r[0] != '+' &&
      (|r| >= 2 ==> r[1] != 'x' && r[1] != 'X')
    decreases n
  {
    if n >= base {
      DivMod(n, base);
      FormatDigits(n / base, base);
      AppendDigit(Format(n / base, base), n % base, base);
    } else {
      assert [Digit(n)][..0] == [];
    }
  }

  lemma DivMod(n: nat, base: nat)
    requires 2 <= base <= n
    ensures (n / base) * base + n % base == n && n % base < base && 0 < n / base < n
  {
  }

  lemma AppendDigit(high: string, d: nat, base: nat)
    requires d < base <= 16 && AllDigits(high, base)
    ensures DigitsValue(high + [Digit(d)], base) == DigitsValue(high, base) * base + d
    ensures AllDigits(high + [Digit(d)], base)
  {
    var r := high + [Digit(d)];
    assert r[..|r| - 1] == high;
  }

  /** `str(n)` and a decimal `f'{n}'`. */
  function Decimal(n: int): string
  {
    if n < 0 then "-" + Format(-n, 10) else Format(n, 10)
  }

  /** `str(n)` never contains a character that is neither a decimal digit nor '-'. */
  lemma DecimalAvoids(n: int, c: char)
    requires DigitValue(c) >= 10 && c != '-'
    ensures c !in Decimal(n)
  {
    var f := Format(if n < 0 then -n else n, 10);
    FormatDigits(if n < 0 then -n else n, 10);
    assert c !in f by {
      forall i | 0 <= i < |f|
        ensures f[i] != c
      {
        assert DigitValue(f[i]) < 10;
      }
    }
    if n < 0 {
      assert Decimal(n) == "-" + f;
    } else {
      assert Decimal(n) == f;
    }
  }

  /** `f'{n:x}'` */
  function Hex(n: int): string
  {
    if n < 0 then "-" + Format(-n, 16) else Format(n, 16)
  }

  /** Left-pads with '0' up to `width` characters. */
  function ZeroPad(s: string, width: nat): (r: string)
    ensures |r| == if |s| >= width then |s| else width
    ensures r[|r| - |s|..] == s
    ensures forall i :: 0 <= i < |r| - |s| ==> r[i] == '0'
  {
    if |s| >= width then s else seq(width - |s|, _ => '0') + s
  }

  /** `f'{n:0{width}x}'`: the sign, when there is one, counts towards the width. */
  function PaddedHex(n: int, width: nat): string
  {
    if n < 0 then "-" + ZeroPad(Format(-n, 16), if width > 0 then width - 1 else 0)
    else ZeroPad(Format(n, 16), width)
  }

  function Pow16(k: nat): nat
  {
    if k == 0 then 1 else 16 * Pow16(k - 1)
  }

  lemma {:induction false} HexLength(n: nat, k: nat)
    requires k >= 1 && n < Pow16(k)
    ensures |Format(n, 16)| <= k
    decreases k
  {
    if n >= 16 {
      HexLength(n / 16, k - 1);
    }
  }

  lemma {:induction false} ZerosValue(z: string, base: nat)
    requires forall i :: 0 <= i < |z| ==> z[i] == '0'
    ensures DigitsValue(z, base) == 0
    decreases |z|
  {
    if z != [] {
      ZerosValue(z[..|z| - 1], base);
    }
  }

  /** Leading zeros do not change the value of a digit string. */
  lemma {:induction false} LeadingZeros(z: string, s: string, base: nat)
    requires forall i :: 0 <= i < |z| ==> z[i] == '0'
    ensures DigitsValue(z + s, base) == DigitsValue(s, base)
    decreases |s|
  {
    if s == [] {
      assert z + s == z;
      ZerosValue(z, base);
    } else {
      var t := z + s;
      assert t[..|t| - 1] == z + s[..|s| - 1];
      LeadingZeros(z, s[..|s| - 1], base);
    }
  }

  /**
   * `f'{n:04x}'` of a 16-bit value is exactly four hex digits, and they
   * read back as the value.
   */
  lemma PaddedHexFour(n: int)
    requires 0 <= n < 0x10000
    ensures var r := PaddedHex(n, 4);
      |r| == 4 && AllDigits(r, 16) && DigitsValue(r, 16) == n
  {
    var f := Format(n, 16);
    FormatDigits(n, 16);
    assert Pow16(4) == 0x10000;
    HexLength(n, 4);
    var r := PaddedHex(n, 4);
    var z := seq(4 - |f|, _ => '0');
    assert r == z + f;
    LeadingZeros(z, f, 16);
    assert forall i :: 0 <= i < |r| ==> DigitValue(r[i]) < 16 by {
      forall i | 0 <= i < |r|
        ensures DigitValue(r[i]) < 16
      {
        if i >= |z| {
          assert r[i] == f[i - |z|];
        }
      }
    }
  }

  // ---------------------------------------------------------------------
  // int(s, base)

  /**
   * `int(s, base)` for base 10 and 16: surrounding white space, an optional
   * sign, for base 16 an optional `0x`/`0X` prefix, then at least one digit.
   * `None` stands for the `ValueError` Python raises.
   */
  function ParseInt(s: string, base: nat): (r: Option<int>)
    requires base == 10 || base == 16
    ensures r.Some? ==> Strip(s) != []
  {
    var t := Strip(s);
    var negative := |t| > 0 && t[0] == '-';
    var unsigned := if |t| > 0 && (t[0] == '-' || t[0] == '+') then t[1..] else t;
    var digits :=
      if base == 16 && |unsigned| >= 2 && unsigned[0] == '0' && (unsigned[1] == 'x' || unsigned[1] == 'X')
      then unsigned[2..] else unsigned;
    var magnitude: int := DigitsValue(digits, base);
    if |digits| > 0 && AllDigits(digits, base) then
      Some(if negative then -magnitude else magnitude)
    else None
  }

  /** Reading back what `str(n)` prints gives `n`. */
  lemma ParseDecimal(n: int)
    ensures ParseInt(Decimal(n), 10) == Some(n)
  {
    var m := if n < 0 then -n else n;
    FormatDigits(m, 10);
    if n < 0 {
      ParseNegative(Format(m, 10), 10);
    } else {
      ParseUnsigned(Format(m, 10), 10);
    }
  }

  /** Reading back what `f'{n:x}'` prints, in base 16, gives `n`. */
  lemma ParseHex(n: int)
    ensures ParseInt(Hex(n), 16) == Some(n)
  {
    var m := if n < 0 then -n else n;
    FormatDigits(m, 16);
    if n < 0 {
      ParseNegative(Format(m, 16), 16);
    } else {
      ParseUnsigned(Format(m, 16), 16);
    }
  }

  /** Digits alone, with no sign and no `0x`, read as their value. */
  lemma ParseUnsigned(f: string, base: nat)
    requires base == 10 || base == 16
    requires |f| >= 1 && AllDigits(f, base) && NoWhitespace(f) && f[0] != '-' && f[0] != '+'
    requires |f| >= 2 ==> f[1] != 'x' && f[1] != 'X'
    ensures ParseInt(f, base) == Some(DigitsValue(f, base))
  {
    StripNoWhitespace(f);
  }

  /** A minus sign before digits negates their value. */
  lemma ParseNegative(f: string, base: nat)
    requires base == 10 || base == 16
    requires |f| >= 1 && AllDigits(f, base) && NoWhitespace(f) && f[0] != '-' && f[0] != '+'
    requires |f| >= 2 ==> f[1] != 'x' && f[1] != 'X'
    ensures var v: int := DigitsValue(f, base); ParseInt("-" + f, base) == Some(-v)
  {
    MinusStripped(f);
    assert ("-" + f)[1..] == f;
  }

  /** A minus sign in front of text without white space leaves nothing to strip. */
  lemma MinusStripped(f: string)
    requires NoWhitespace(f)
    ensures Strip("-" + f) == "-" + f
  {
    var s := "-" + f;
    assert NoWhitespace(s) by {
      assert forall i :: 1 <= i < |s| ==> s[i] == f[i - 1];
    }
    StripNoWhitespace(s);
  }

  // ---------------------------------------------------------------------
  // Slicing, searching, splitting

  /** `s[i:j]` for non-negative bounds: Python clamps them to the string. */
  function Slice(s: string, i: nat, j: nat): (r: string)
    ensures |r| <= |s|
  {
    var lo := if i < |s| then i else |s|;
    var hi := if j < lo then lo else if j < |s| then j else |s|;
    s[lo..hi]
  }

  /** `s[i:]` for a non-negative bound. */
  function From(s: string, i: nat): string
  {
    if i < |s| then s[i..] else []
  }

  /** Whether `p` occurs in `s` (`p in s`). */
  predicate Contains(s: string, p: string)
    decreases |s|
  {
    |p| <= |s| && (s[..|p|] == p || Contains(s[1..], p))
  }

  /** `s.replace(p, '')`: left-to-right, non-overlapping occurrences are removed. */
  function RemoveAll(s: string, p: string): (r: string)
    ensures |r| <= |s|
    decreases |s|
  {
    if p == [] || |s| < |p| then s
    else if s[..|p|] == p then RemoveAll(s[|p|..], p)
    else [s[0]] + RemoveAll(s[1..], p)
  }

  lemma {:induction false} RemoveAllAbsent(s: string, p: string)
    requires p != [] && !Contains(s, p)
    ensures RemoveAll(s, p) == s
    decreases |s|
  {
    if |s| >= |p| {
      RemoveAllAbsent(s[1..], p);
      assert [s[0]] + s[1..] == s;
    }
  }

  /** A prefix occurrence is removed, and the scan resumes after it. */
  lemma RemoveAllLeading(p: string, s: string)
    requires p != []
    ensures RemoveAll(p + s, p) == RemoveAll(s, p)
  {
    assert (p + s)[..|p|] == p;
    assert (p + s)[|p|..] == s;
  }

  /** A text without the first character of `p` does not contain `p`. */
  lemma {:induction false} NotContainedWithout(s: string, p: string, c: char)
    requires p != [] && p[0] == c && c !in s
    ensures !Contains(s, p)
    decreases |s|
  {
    if |p| <= |s| {
      assert s[..|p|][0] == s[0];
      NotContainedWithout(s[1..], p, c);
    }
  }

  /** Removing a character that does not occur changes nothing. */
  lemma RemoveCharAbsent(s: string, c: char)
    requires c !in s
    ensures RemoveAll(s, [c]) == s
  {
    NotContainedWithout(s, [c], c);
    RemoveAllAbsent(s, [c]);
  }

  /** Text free of `c`, then one `c`: the text is kept and the `c` dropped. */
  lemma {:induction false} RemoveCharAfter(a: string, c: char, b: string)
    requires c !in a
    ensures RemoveAll(a + [c] + b, [c]) == a + RemoveAll(b, [c])
    decreases |a|
  {
    var s := a + [c] + b;
    if a == [] {
      assert s == [c] + b;
      RemoveAllLeading([c], b);
    } else {
      assert s[..1] == [a[0]];
      assert s[1..] == a[1..] + [c] + b;
      RemoveCharAfter(a[1..], c, b);
      assert [a[0]] + a[1..] == a;
    }
  }

  /** The number of occurrences of `c` in `s`. */
  function Count(s: string, c: char): nat
  {
    if s == [] then 0 else (if s[0] == c then 1 else 0) + Count(s[1..], c)
  }

  /** `sep.join(pieces)` */
  function Join(pieces: seq<string>, sep: char): string
    requires |pieces| >= 1
  {
    if |pieces| == 1 then pieces[0] else pieces[0] + [sep] + Join(pieces[1..], sep)
  }

  lemma Regroup(a: string, b: string, c: string)
    ensures a + b + c == a + (b + c)
  {
  }

  /** Joining a piece in front of at least one more puts one separator between. */
  lemma JoinCons(p: string, rest: seq<string>, sep: char)
    requires |rest| >= 1
    ensures Join([p] + rest, sep) == p + [sep] + Join(rest, sep)
  {
    assert ([p] + rest)[1..] == rest;
  }

  /**
   * `s.split(sep)`: always at least one piece; there is one more piece than
   * there are separators, and joining the pieces gives `s` back.
   */
  function Split(s: string, sep: char): (r: seq<string>)
    ensures |r| == Count(s, sep) + 1
    ensures Join(r, sep) == s
    ensures forall k :: 0 <= k < |r| ==> sep !in r[k]
    decreases |s|
  {
    if s == [] then [""]
    else
      var rest := Split(s[1..], sep);
      if s[0] == sep then
        assert [s[0]] + s[1..] == s;
        [""] + rest
      else
        var r := [[s[0]] + rest[0]] + rest[1..];
        assert r[1..] == rest[1..];
        assert Join(r, sep) == s by {
          if |rest| > 1 {
            assert Join(rest, sep) == rest[0] + [sep] + Join(rest[1..], sep);
            assert [s[0]] + s[1..] == s;
          } else {
            assert [s[0]] + s[1..] == s;
          }
        }
        r
  }

  /** Splitting a joined list of separator-free pieces gives the pieces back. */
  lemma {:induction false} SplitJoin(pieces: seq<string>, sep: char)
    requires |pieces| >= 1
    requires forall k :: 0 <= k < |pieces| ==> sep !in pieces[k]
    ensures Split(Join(pieces, sep), sep) == pieces
    decreases |pieces|
  {
    if |pieces| == 1 {
      SplitAlone(pieces[0], sep);
    } else {
      SplitJoin(pieces[1..], sep);
      SplitBeforeSep(pieces[0], Join(pieces[1..], sep), sep);
      assert pieces == [pieces[0]] + pieces[1..];
    }
  }

  /** A separator-free string is one piece. */
  lemma {:induction false} SplitAlone(p: string, sep: char)
    requires sep !in p
    ensures Split(p, sep) == [p]
    decreases |p|
  {
    if p != [] {
      SplitAlone(p[1..], sep);
      assert [p[0]] + p[1..] == p;
    }
  }

  /** A separator-free head ends the first piece at the separator that follows it. */
  lemma {:induction false} SplitBeforeSep(p: string, t: string, sep: char)
    requires sep !in p
    ensures Split(p + [sep] + t, sep) == [p] + Split(t, sep)
    decreases |p|
  {
    if p == [] {
      assert p + [sep] + t == [sep] + t && ([sep] + t)[1..] == t;
    } else {
      var q := p[1..];
      SplitBeforeSep(q, t, sep);
      assert p + [sep] + t == [p[0]] + (q + [sep] + t);
      SplitCons(p[0], q + [sep] + t, sep);
      assert [p[0]] + q == p;
    }
  }

  /** A character other than the separator joins the first piece. */
  lemma SplitCons(c: char, t: string, sep: char)
    requires c != sep
    ensures Split([c] + t, sep) == [[c] + Split(t, sep)[0]] + Split(t, sep)[1..]
  {
    assert ([c] + t)[1..] == t;
  }
}
